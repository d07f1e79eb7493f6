/** What every interleaving of callers, reader and server keeps. */
module McpProofs {
  import opened Options
  import opened McpProtocol

  // ----- single steps -----

  predicate ByCaller(a: Action) {
    a.Alloc? || a.Register? || a.MarshalFail? || a.CheckAndWrite? || a.Receive? || a.Cancel? || a.Unregister?
  }

  lemma AllocSafe(s: State)
    requires Safe(s)
    ensures Safe(Next(s, Alloc))
  {
    var s' := Next(s, Alloc);
    assert s.nextId + 1 !in s.callers;
    assert forall id :: id in s.callers ==> s'.callers[id] == s.callers[id];
  }

  lemma RegisterSafe(s: State, a: Action)
    requires Safe(s) && Enabled(s, a) && a.Register?
    ensures Safe(Next(s, a))
  {
  }

  /** Only one caller's program counter changes. */
  lemma PcSafe(s: State, id: nat, pc: Pc)
    requires Safe(s) && id in s.callers && !s.callers[id].pc.Allocated? && !pc.Allocated?
    requires pc.Leaving? || pc.Returned? ==> pc.got.None?
    ensures Safe(SetPc(s, id, pc))
  {
    var s' := SetPc(s, id, pc);
    assert forall k :: Unsent(s', k) == Unsent(s, k);
  }

  lemma CheckSafe(s: State, a: Action)
    requires Safe(s) && Enabled(s, a) && (a.MarshalFail? || a.CheckAndWrite? || a.Cancel?)
    ensures Safe(Next(s, a))
  {
    PcSafe(s, a.id, Next(s, a).callers[a.id].pc);
  }

  lemma UnregisterSafe(s: State, a: Action)
    requires Safe(s) && Enabled(s, a) && a.Unregister?
    ensures Safe(Next(s, a))
  {
    assert forall id :: id in Next(s, a).callers && id != a.id ==> Next(s, a).callers[id] == s.callers[id];
  }

  lemma ReceiveSafe(s: State, a: Action)
    requires Safe(s) && Enabled(s, a) && a.Receive?
    ensures Safe(Next(s, a))
  {
  }

  lemma LineSafe(s: State, a: Action)
    requires Safe(s) && Enabled(s, a) && a.Line?
    ensures Safe(Next(s, a))
  {
  }

  lemma SendSafe(s: State, a: Action)
    requires Safe(s) && Enabled(s, a) && a.Send?
    ensures Safe(Next(s, a))
  {
  }

  lemma DrainSafe(s: State, a: Action)
    requires Safe(s) && Enabled(s, a) && !ByCaller(a) && !a.Line? && !a.Send?
    ensures Safe(Next(s, a))
  {
  }

  lemma AllocServes(s: State)
    requires Safe(s) && Served(s)
    ensures Served(Next(s, Alloc))
  {
    var s' := Next(s, Alloc);
    assert s.nextId + 1 !in s.callers;
    assert forall id :: MayWait(s', id) ==> MayWait(s, id) && s'.callers[id] == s.callers[id];
  }

  lemma ArrivalServes(s: State, a: Action)
    requires Safe(s) && Served(s) && Enabled(s, a) && (a.Register? || a.CheckAndWrite?)
    ensures Served(Next(s, a))
  {
  }

  lemma DepartureServes(s: State, a: Action)
    requires Safe(s) && Served(s) && Enabled(s, a) && (a.MarshalFail? || a.Receive? || a.Cancel? || a.Unregister?)
    ensures Served(Next(s, a))
  {
  }

  lemma ReaderServes(s: State, a: Action)
    requires Safe(s) && Served(s) && Enabled(s, a) && !ByCaller(a) && !Next(s, a).late
    ensures Served(Next(s, a))
  {
  }

  lemma StepSafe(s: State, a: Action)
    requires Safe(s) && Enabled(s, a)
    ensures Safe(Next(s, a))
  {
    match a {
      case Alloc => AllocSafe(s);
      case Register(_) => RegisterSafe(s, a);
      case MarshalFail(_) | CheckAndWrite(_, _) | Cancel(_) => CheckSafe(s, a);
      case Unregister(_) => UnregisterSafe(s, a);
      case Receive(_) => ReceiveSafe(s, a);
      case Line(_) => LineSafe(s, a);
      case Send => SendSafe(s, a);
      case _ => DrainSafe(s, a);
    }
  }

  lemma StepServes(s: State, a: Action)
    requires Safe(s) && Served(s) && Enabled(s, a) && !Next(s, a).late
    ensures Served(Next(s, a))
  {
    match a {
      case Alloc => AllocServes(s);
      case Register(_) | CheckAndWrite(_, _) => ArrivalServes(s, a);
      case MarshalFail(_) | Receive(_) | Cancel(_) | Unregister(_) => DepartureServes(s, a);
      case _ => ReaderServes(s, a);
    }
  }

  lemma StepKeepsInv(s: State, a: Action)
    requires Inv(s)
    ensures Inv(Next(s, a))
  {
    if Enabled(s, a) {
      StepSafe(s, a);
      if !Next(s, a).late && !s.late {
        StepServes(s, a);
      }
    }
  }

  lemma {:induction false} RunKeepsInv(s: State, actions: seq<Action>)
    requires Inv(s)
    ensures Inv(Run(s, actions))
    decreases |actions|
  {
    if actions != [] {
      StepKeepsInv(s, actions[0]);
      RunKeepsInv(Next(s, actions[0]), actions[1..]);
    }
  }

  lemma ReachableInv(s: State)
    requires Reachable(s)
    ensures Inv(s)
  {
    var actions :| s == Run(INIT, actions);
    RunKeepsInv(INIT, actions);
  }

  // ----- whole runs -----

  /** No caller is stranded: once the reader has finished draining, every caller that still
      waits has a signal in its channel, unless Start marked the client connected too late. */
  lemma NoStrandedCaller(s: State)
    requires Reachable(s) && s.reader.Finished? && !s.late
    ensures forall id :: At(s, id, Waiting) ==> s.callers[id].chan != []
  {
    ReachableInv(s);
  }

  /** Once the reader has finished, nothing is ever put into an empty channel any more. */
  lemma {:induction false} NothingArrives(s: State, id: nat, actions: seq<Action>)
    requires Inv(s) && s.reader.Finished? && At(s, id, Waiting) && s.callers[id].chan == []
    requires Cancel(id) !in actions
    ensures var s' := Run(s, actions); At(s', id, Waiting) && s'.callers[id].chan == []
    decreases |actions|
  {
    if actions != [] {
      StepKeepsInv(s, actions[0]);
      assert CallerInv(s, id);
      NothingArrives(Next(s, actions[0]), id, actions[1..]);
    }
  }

  /** The proviso is needed, and it is exact: after the reader has finished, a new call that is
      not cancelled waits for ever, whatever happens, if the client is marked connected, which
      only a late Start does, and the write still goes well; otherwise it returns at once. */
  lemma CallAfterEnd(s: State, writeOk: bool)
    requires Reachable(s) && s.reader.Finished?
    ensures s.connected ==> s.late
    ensures var id := s.nextId + 1;
      var s' := Next(Next(Next(s, Alloc), Register(id)), CheckAndWrite(id, writeOk));
      if s.connected && writeOk
      then forall actions :: Cancel(id) !in actions ==>
             At(Run(s', actions), id, Waiting) && Run(s', actions).callers[id].chan == []
      else At(s', id, Leaving(if s.connected then WriteFailed else Disconnected, None))
  {
    ReachableInv(s);
    var id := s.nextId + 1;
    var s1 := Next(s, Alloc);
    var s2 := Next(s1, Register(id));
    var s' := Next(s2, CheckAndWrite(id, writeOk));
    StepKeepsInv(s, Alloc);
    StepKeepsInv(s1, Register(id));
    StepKeepsInv(s2, CheckAndWrite(id, writeOk));
    if s.connected && writeOk {
      forall actions | Cancel(id) !in actions
        ensures At(Run(s', actions), id, Waiting) && Run(s', actions).callers[id].chan == []
      {
        NothingArrives(s', id, actions);
      }
    }
  }

  /** A late Start does happen: the server ends at once, and Start marks the client connected only
      after the reader has cleared the mark. */
  lemma LateStartHappens() returns (s: State)
    ensures Reachable(s) && s.reader.Finished? && s.connected
  {
    var actions := [EndOfStream, Clear, Connect, DrainStart, DrainEnd];
    s := Run(INIT, actions);
    assert actions[1..] == [Clear, Connect, DrainStart, DrainEnd];
    assert actions[1..][1..] == [Connect, DrainStart, DrainEnd];
    assert actions[1..][1..][1..] == [DrainStart, DrainEnd];
    assert actions[1..][1..][1..][1..] == [DrainEnd];
  }

  /** Against any server, what a caller receives is a reply with its own id that the server did
      send, or the disconnect signal, and its outcome is read from that. */
  lemma RepliesReachTheirCaller(s: State, id: nat)
    requires Reachable(s) && id in s.callers
    ensures var pc := s.callers[id].pc;
      (pc.Leaving? || pc.Returned?) && pc.got.Some? ==>
        && pc.outcome == Decode(Payload(pc.got.value))
        && (pc.got.value == Disconnect ||
            (pc.got.value.response.id == id && pc.got.value.response in s.heard))
  {
    ReachableInv(s);
    assert CallerInv(s, id);
  }

  /** A channel takes at most one send in its lifetime, so the reader's sends into channels of
      capacity one never block; and the drain can always go on or end. */
  lemma ReaderNeverBlocks(s: State)
    requires Reachable(s)
    ensures forall id :: id in s.callers ==> s.callers[id].sends <= 1
    ensures s.reader.Routing? ==>
      Enabled(s, Send) && s.callers[s.reader.response.id].chan == []
    ensures forall k :: Enabled(s, DrainVisit(k)) ==> s.callers[k].chan == []
    ensures s.reader.Draining? ==> Enabled(s, DrainEnd) || exists k :: Enabled(s, DrainVisit(k))
  {
    ReachableInv(s);
    assert forall id :: id in s.callers ==> CallerInv(s, id);
    if s.reader.Draining? && !Enabled(s, DrainEnd) {
      var must, visited := s.reader.must, s.reader.visited;
      assert !(must <= visited);
      var k :| k in must && k !in visited;
      assert k in s.reader.may - visited && Unsent(s, k);
      assert Enabled(s, DrainVisit(k));
    }
  }

  /** Ids are never reused: a new call's id belongs to no caller yet. */
  lemma IdsAreFresh(s: State)
    requires Reachable(s)
    ensures s.nextId + 1 !in s.callers && s.nextId + 1 !in s.responses
  {
    ReachableInv(s);
    assert forall id :: id in s.callers ==> CallerInv(s, id);
  }

  // ----- the meaning of a reply -----

  /** What section 5 of the JSON-RPC 2.0 Specification says a reply is: an error or a result. */
  function Meaning(r: Response): Outcome
    requires r.error.Some? || r.result.Some?
  {
    if r.error.Some? then McpError(r.error.value) else Result(r.result.value)
  }

  /** Errors travel to the caller inside the result bytes. This reads back what the server meant
      exactly when a result is not itself an object of texts and nulls with the error key. */
  lemma ErrorEncodingExact(r: Response)
    requires r.error.Some? || r.result.Some?
    ensures Decode(Payload(Reply(r))) == Meaning(r)
        <==> r.error.Some? || !LooksLikeError(r.result.value)
  {
    if r.error.None? && r.result.value.Object? {
      var m := r.result.value.fields;
      assert LooksLikeError(r.result.value) <==> ERROR_KEY in m && !(exists k :: k in m && m[k].NoText?);
    }
  }

  /** An object whose fields are texts or nulls, the error key among them. */
  predicate LooksLikeError(json: Json) {
    json.Object? && "_mcp_error" in json.fields && forall k :: k in json.fields ==> !json.fields[k].NoText?
  }

  /** A caller is told that the client is disconnected exactly when it got the disconnect signal
      or a reply that has neither error nor result. */
  lemma DisconnectedExact(signal: Signal)
    ensures Decode(Payload(signal)) == Disconnected
        <==> signal.Disconnect? || (signal.response.error.None? && signal.response.result.None?)
  {
  }
}
