/** Concurrent JSON-RPC calls over one pipe: callers register a channel, check the connection,
    write and wait; one reader routes replies by id and, at end of stream, marks the client
    disconnected and drains whoever still waits. The server is arbitrary: it may repeat,
    invent or omit ids. */
module McpProtocol {
  import opened Options
  import Runs

  // ----- what is sent through a channel -----

  datatype Field = Text(text: string) | Null | NoText(raw: string)

  /** A JSON value, as far as the client looks: an object field by field, null, or anything else. */
  datatype Json = Object(fields: map<string, Field>) | JsonNull | Other(raw: string)

  /** Decoding into Go's map[string]string: a null reads as the zero value, a field that is
      neither text nor null makes the whole decoding fail. */
  function AsStrings(json: Json): Option<map<string, string>> {
    match json
    case Object(m) =>
      if exists k :: k in m && m[k].NoText? then None
      else Some(map k | k in m :: if m[k].Text? then m[k].text else "")
    case JsonNull => Some(map[])
    case Other(_) => None
  }

  /** A reply line. A line without an id reads as id 0. */
  datatype Response = Response(id: int, result: Option<Json>, error: Option<string>)

  datatype Signal = Disconnect | Reply(response: Response)

  datatype Outcome =
    | Result(json: Json)
    | McpError(message: string)
    | Disconnected
    | MarshalFailed
    | WriteFailed
    | Cancelled

  const ERROR_KEY := "_mcp_error"

  /** The bytes put in the channel; None is Go's nil. */
  function Payload(signal: Signal): Option<Json> {
    match signal
    case Disconnect => None
    case Reply(r) => if r.error.Some? then Some(Object(map[ERROR_KEY := Text(r.error.value)])) else r.result
  }

  /** How the caller reads what it received. */
  function Decode(payload: Option<Json>): Outcome {
    match payload
    case None => Disconnected
    case Some(json) =>
      var errCheck := AsStrings(json);
      if errCheck.Some? && ERROR_KEY in errCheck.value then McpError(errCheck.value[ERROR_KEY]) else Result(json)
  }

  // ----- state -----

  /** `got` records the signal a caller left with, if it left because it received one. */
  datatype Pc =
    | Allocated
    | Registered
    | Waiting
    | Leaving(outcome: Outcome, got: Option<Signal>)
    | Returned(outcome: Outcome, got: Option<Signal>)

  /** One caller with its own channel; `sends` counts all sends into it, ever. */
  datatype Caller = Caller(pc: Pc, chan: seq<Signal>, sends: nat)

  /** The reader. A drain visits each key at most once, may visit any key present at some time
      since it began (`may`), and must visit those present throughout (`must`). */
  datatype Reader =
    | Reading
    | Routing(response: Response)
    | Ended
    | Cleared
    | Draining(must: set<nat>, may: set<nat>, visited: set<nat>)
    | Deleting(key: nat, must: set<nat>, may: set<nat>, visited: set<nat>)
    | Finished

  /** `late` says that Start set `connected` only after the reader had cleared it. */
  datatype State = State(
    nextId: nat,
    callers: map<nat, Caller>,
    responses: set<nat>,
    started: bool,
    connected: bool,
    late: bool,
    reader: Reader,
    heard: set<Response>)

  const INIT := State(0, map[], {}, false, false, false, Reading, {})

  datatype Action =
    | Connect
    | Stop
    | Alloc
    | Register(id: nat)
    | MarshalFail(id: nat)
    | CheckAndWrite(id: nat, writeOk: bool)
    | Receive(id: nat)
    | Cancel(id: nat)
    | Unregister(id: nat)
    | Line(response: Response)
    | Send
    | EndOfStream
    | Clear
    | DrainStart
    | DrainVisit(key: nat)
    | DrainDelete
    | DrainEnd

  predicate At(s: State, id: nat, pc: Pc) {
    id in s.callers && s.callers[id].pc == pc
  }

  predicate Enabled(s: State, a: Action) {
    match a
    case Connect => !s.started
    case Stop => true
    case Alloc => true
    case Register(id) => At(s, id, Allocated)
    case MarshalFail(id) => At(s, id, Registered)
    case CheckAndWrite(id, _) => At(s, id, Registered)
    case Receive(id) => At(s, id, Waiting) && s.callers[id].chan != []
    case Cancel(id) => At(s, id, Waiting)
    case Unregister(id) => id in s.callers && s.callers[id].pc.Leaving?
    case Line(_) => s.reader.Reading?
    case Send => s.reader.Routing? && 0 <= s.reader.response.id && s.reader.response.id in s.callers
    case EndOfStream => s.reader.Reading?
    case Clear => s.reader.Ended?
    case DrainStart => s.reader.Cleared?
    case DrainVisit(k) => s.reader.Draining? && k in s.reader.may - s.reader.visited && k in s.callers
    case DrainDelete => s.reader.Deleting?
    case DrainEnd => s.reader.Draining? && s.reader.must <= s.reader.visited
  }

  function SetPc(s: State, id: nat, pc: Pc): State
    requires id in s.callers
  {
    s.(callers := s.callers[id := s.callers[id].(pc := pc)])
  }

  function Push(s: State, id: nat, signal: Signal): State
    requires id in s.callers
  {
    var c := s.callers[id];
    s.(callers := s.callers[id := c.(chan := c.chan + [signal], sends := c.sends + 1)])
  }

  /** A key appears in or disappears from the map of waiters, perhaps while it is drained. */
  function Appear(reader: Reader, key: nat): Reader {
    if reader.Draining? || reader.Deleting? then reader.(may := reader.may + {key}) else reader
  }

  function Disappear(reader: Reader, key: nat): Reader {
    if reader.Draining? || reader.Deleting? then reader.(must := reader.must - {key}) else reader
  }

  function CallerStep(s: State, a: Action): State
    requires Enabled(s, a) && (a.Alloc? || a.Register? || a.MarshalFail? || a.CheckAndWrite?
                              || a.Receive? || a.Cancel? || a.Unregister?)
  {
    match a
    case Alloc =>
      var id := s.nextId + 1;
      s.(nextId := id, callers := s.callers[id := Caller(Allocated, [], 0)])
    case Register(id) =>
      SetPc(s, id, Registered).(responses := s.responses + {id}, reader := Appear(s.reader, id))
    case MarshalFail(id) => SetPc(s, id, Leaving(MarshalFailed, None))
    case CheckAndWrite(id, writeOk) =>
      if !s.connected then SetPc(s, id, Leaving(Disconnected, None))
      else if !writeOk then SetPc(s, id, Leaving(WriteFailed, None))
      else SetPc(s, id, Waiting)
    case Receive(id) =>
      var c := s.callers[id];
      var signal := c.chan[0];
      s.(callers := s.callers[id := c.(pc := Leaving(Decode(Payload(signal)), Some(signal)), chan := c.chan[1..])])
    case Cancel(id) => SetPc(s, id, Leaving(Cancelled, None))
    case Unregister(id) =>
      var pc := s.callers[id].pc;
      SetPc(s, id, Returned(pc.outcome, pc.got)).(responses := s.responses - {id}, reader := Disappear(s.reader, id))
  }

  function ReaderStep(s: State, a: Action): State
    requires Enabled(s, a) && (a.Line? || a.Send? || a.EndOfStream? || a.Clear? || a.DrainStart?
                              || a.DrainVisit? || a.DrainDelete? || a.DrainEnd?)
  {
    match a
    case Line(r) =>
      var s' := s.(heard := s.heard + {r});
      if 0 <= r.id && r.id in s.responses
      then s'.(responses := s.responses - {r.id}, reader := Routing(r))
      else s'
    case Send => Push(s, s.reader.response.id, Reply(s.reader.response)).(reader := Reading)
    case EndOfStream => s.(reader := Ended)
    case Clear => s.(reader := Cleared, connected := false)
    case DrainStart => s.(reader := Draining(s.responses, s.responses, {}))
    case DrainVisit(k) =>
      var r := s.reader;
      Push(s, k, Disconnect).(reader := Deleting(k, r.must, r.may, r.visited + {k}))
    case DrainDelete =>
      var r := s.reader;
      s.(responses := s.responses - {r.key}, reader := Draining(r.must, r.may, r.visited))
    case DrainEnd => s.(reader := Finished)
  }

  /** Before the reader has cleared `connected`. */
  predicate Live(reader: Reader) {
    reader.Reading? || reader.Routing? || reader.Ended?
  }

  function Next(s: State, a: Action): State {
    if !Enabled(s, a) then s else
    match a
    case Connect => s.(started := true, connected := true, late := s.late || !Live(s.reader))
    case Stop => s.(connected := false)
    case Alloc | Register(_) | MarshalFail(_) | CheckAndWrite(_, _) | Receive(_) | Cancel(_) | Unregister(_) =>
      CallerStep(s, a)
    case _ => ReaderStep(s, a)
  }

  function Run(s: State, actions: seq<Action>): State {
    Runs.Run(Next, s, actions)
  }

  ghost predicate Reachable(s: State) {
    exists actions :: s == Run(INIT, actions)
  }

  // ----- invariant -----

  /** A channel whose one permitted send has not been used up. */
  predicate Unsent(s: State, id: nat) {
    id in s.callers && s.callers[id].sends == 0
  }

  ghost predicate SignalOk(s: State, id: nat, signal: Signal) {
    signal.Reply? ==> signal.response.id == id && signal.response in s.heard
  }

  ghost predicate CallerInv(s: State, id: nat)
    requires id in s.callers
  {
    var c := s.callers[id];
    && 1 <= id <= s.nextId
    && |c.chan| <= c.sends <= 1
    && (c.chan != [] ==> SignalOk(s, id, c.chan[0]))
    && (c.pc.Allocated? ==> id !in s.responses && c.sends == 0)
    && ((c.pc.Leaving? || c.pc.Returned?) && c.pc.got.Some? ==>
          SignalOk(s, id, c.pc.got.value) && c.pc.outcome == Decode(Payload(c.pc.got.value)))
  }

  /** Whoever is to receive the reader's next send has an unused channel. */
  ghost predicate ReaderInv(s: State) {
    match s.reader
    case Routing(r) => 0 <= r.id && r.id !in s.responses && Unsent(s, r.id) && r in s.heard
                       && !s.callers[r.id].pc.Allocated?
    case Draining(must, may, visited) =>
      && must <= may
      && forall k :: k in may - visited ==> Unsent(s, k) && !s.callers[k].pc.Allocated?
    case Deleting(key, must, may, visited) =>
      && key in visited
      && must <= may
      && forall k :: k in may - visited ==> Unsent(s, k) && !s.callers[k].pc.Allocated?
    case _ => true
  }

  ghost predicate Safe(s: State) {
    && (forall id :: id in s.callers ==> CallerInv(s, id))
    && (forall id :: id in s.responses ==> id in s.callers)
    && (forall id :: id in s.responses ==> Unsent(s, id) || (s.reader.Deleting? && s.reader.key == id))
    && ReaderInv(s)
  }

  /** A caller that waits with nothing in its channel is one the reader will still serve. */
  ghost predicate Awaited(s: State, id: nat) {
    match s.reader
    case Routing(r) => id in s.responses || r.id == id
    case Draining(must, _, visited) => id in must - visited
    case Deleting(_, must, _, visited) => id in must - visited
    case Finished => false
    case _ => id in s.responses
  }

  /** Waiting, or about to find the client connected and so to wait. */
  predicate MayWait(s: State, id: nat) {
    At(s, id, Waiting) || (At(s, id, Registered) && Live(s.reader))
  }

  ghost predicate Served(s: State) {
    && (s.connected ==> Live(s.reader))
    && (forall id :: MayWait(s, id) && s.callers[id].chan == [] ==> Awaited(s, id))
  }

  ghost predicate Inv(s: State) {
    Safe(s) && (!s.late ==> Served(s))
  }
}
