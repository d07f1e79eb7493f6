/** The tool registry: dispatch by name through a cache of successful results. */
module Registry {

  datatype ToolCall = ToolCall(id: string, name: string, input: string)

  datatype ToolResult = ToolResult(callId: string, output: string, isError: bool, duration: nat)

  datatype Cached = Cached(tool: string, output: string, duration: nat)

  /** What a handler answers if it is run now; handlers may answer differently every time. */
  datatype Answer = Ok(output: string, duration: nat) | Err(message: string, duration: nat)

  /** One run of a handler. */
  datatype Invocation = Invocation(turn: string, tool: string, input: string, answer: Answer)

  /** A call made on behalf of a turn. */
  datatype Request = Request(turn: string, call: ToolCall, answer: Answer)

  datatype State = State(handlers: set<string>, cache: map<string, Cached>, runs: seq<Invocation>)

  const BAR := '|'

  function IdempotencyKey(turn: string, tool: string, input: string): string {
    turn + [BAR] + tool + [BAR] + input
  }

  function KeyOf(q: Request): string {
    IdempotencyKey(q.turn, q.call.name, q.call.input)
  }

  function CollisionText(cached: string, called: string): string {
    "idempotency key collision: key was used for tool \"" + cached + "\", now called for \"" + called + "\""
  }

  function Execute(s: State, q: Request): (State, ToolResult) {
    var key, call := KeyOf(q), q.call;
    if key in s.cache then
      var cached := s.cache[key];
      (s, if cached.tool != call.name
          then ToolResult(call.id, CollisionText(cached.tool, call.name), true, 0)
          else ToolResult(call.id, cached.output, false, cached.duration))
    else if call.name !in s.handlers then
      (s, ToolResult(call.id, "unknown tool: " + call.name, true, 0))
    else
      var s' := s.(runs := s.runs + [Invocation(q.turn, call.name, call.input, q.answer)]);
      match q.answer
      case Err(message, duration) => (s', ToolResult(call.id, message, true, duration))
      case Ok(output, duration) =>
        (s'.(cache := s.cache[key := Cached(call.name, output, duration)]),
         ToolResult(call.id, output, false, duration))
  }

  datatype Op = Register(name: string) | Call(request: Request)

  function Apply(s: State, op: Op): State {
    match op
    case Register(name) => s.(handlers := s.handlers + {name})
    case Call(q) => Execute(s, q).0
  }

  /** A registry after any sequence of registrations and calls, one after another. */
  function Serve(ops: seq<Op>): State {
    if ops == [] then State({}, map[], []) else Apply(Serve(ops[..|ops| - 1]), ops[|ops| - 1])
  }

  predicate BarFree(s: string) {
    BAR !in s
  }

  predicate BarFreeTurns(ops: seq<Op>) {
    forall i :: 0 <= i < |ops| && ops[i].Call? ==> BarFree(ops[i].request.turn)
  }

  function KeyOfRun(r: Invocation): string {
    IdempotencyKey(r.turn, r.tool, r.input)
  }

  // ----- keys -----

  lemma CutAtBar(a: string, x: string, b: string, y: string)
    requires BarFree(a) && BarFree(b) && a + [BAR] + x == b + [BAR] + y
    ensures a == b && x == y
  {
    var s := a + [BAR] + x;
    assert s[|a|] == BAR && s[|b|] == BAR;
    assert forall i :: 0 <= i < |a| ==> s[i] == a[i];
    assert forall i :: 0 <= i < |b| ==> s[i] == b[i];
    assert |a| == |b|;
    assert s[..|a|] == a && s[..|b|] == b;
    assert s[|a| + 1..] == x && s[|b| + 1..] == y;
  }

  /** For '|'-free turns a key tells the turn, and the tool and the input joined by a bar. */
  lemma KeyExact(turn1: string, tool1: string, input1: string, turn2: string, tool2: string, input2: string)
    requires BarFree(turn1) && BarFree(turn2)
    ensures IdempotencyKey(turn1, tool1, input1) == IdempotencyKey(turn2, tool2, input2)
        <==> turn1 == turn2 && tool1 + [BAR] + input1 == tool2 + [BAR] + input2
    ensures IdempotencyKey(turn1, tool1, input1) == IdempotencyKey(turn2, tool2, input2) && tool1 == tool2
        ==> input1 == input2
  {
    var rest1, rest2 := tool1 + [BAR] + input1, tool2 + [BAR] + input2;
    assert IdempotencyKey(turn1, tool1, input1) == turn1 + [BAR] + rest1;
    assert IdempotencyKey(turn2, tool2, input2) == turn2 + [BAR] + rest2;
    if IdempotencyKey(turn1, tool1, input1) == IdempotencyKey(turn2, tool2, input2) {
      CutAtBar(turn1, rest1, turn2, rest2);
      if tool1 == tool2 {
        assert rest1[|tool1| + 1..] == input1 && rest2[|tool2| + 1..] == input2;
      }
    }
  }

  // ----- runs -----

  predicate SucceededAs(r: Invocation, key: string) {
    r.answer.Ok? && KeyOfRun(r) == key
  }

  /** The cache holds exactly the successful runs, one per key. */
  ghost predicate CacheExact(s: State) {
    && (forall i :: 0 <= i < |s.runs| && s.runs[i].answer.Ok? ==> Holds(s.cache, s.runs[i]))
    && (forall key :: key in s.cache ==> exists i :: 0 <= i < |s.runs| && SucceededAs(s.runs[i], key))
    && (forall i, j :: 0 <= i < j < |s.runs| && s.runs[i].answer.Ok? && s.runs[j].answer.Ok?
          ==> KeyOfRun(s.runs[i]) != KeyOfRun(s.runs[j]))
  }

  predicate Holds(cache: map<string, Cached>, r: Invocation)
    requires r.answer.Ok?
  {
    var key := KeyOfRun(r);
    key in cache && cache[key] == Cached(r.tool, r.answer.output, r.answer.duration)
  }

  lemma RecordKeepsCacheExact(s: State, r: Invocation, key: string)
    requires CacheExact(s) && key == KeyOfRun(r) && key !in s.cache
    ensures CacheExact(s.(runs := s.runs + [r],
      cache := if r.answer.Ok? then s.cache[key := Cached(r.tool, r.answer.output, r.answer.duration)] else s.cache))
  {
    var runs := s.runs + [r];
    forall k | k in s.cache ensures exists i :: 0 <= i < |runs| && SucceededAs(runs[i], k) {
      var i :| 0 <= i < |s.runs| && SucceededAs(s.runs[i], k);
      assert SucceededAs(runs[i], k);
    }
    assert r.answer.Ok? ==> SucceededAs(runs[|s.runs|], key);
    assert forall i :: 0 <= i < |s.runs| && s.runs[i].answer.Ok? ==> Holds(s.cache, s.runs[i]);
  }

  lemma ApplyKeepsCacheExact(s: State, op: Op)
    requires CacheExact(s)
    ensures CacheExact(Apply(s, op))
  {
    if op.Call? {
      var q := op.request;
      if KeyOf(q) !in s.cache && q.call.name in s.handlers {
        RecordKeepsCacheExact(s, Invocation(q.turn, q.call.name, q.call.input, q.answer), KeyOf(q));
      }
    }
  }

  lemma {:induction false} ServeCacheExact(ops: seq<Op>)
    ensures CacheExact(Serve(ops))
    ensures BarFreeTurns(ops) ==> forall i :: 0 <= i < |Serve(ops).runs| ==> BarFree(Serve(ops).runs[i].turn)
  {
    if ops != [] {
      ServeCacheExact(ops[..|ops| - 1]);
      ApplyKeepsCacheExact(Serve(ops[..|ops| - 1]), ops[|ops| - 1]);
    }
  }

  /** Soundness of a hit: a cached answer is the output of an earlier successful run of the same
      tool on the same input in the same turn; the only other outcome of a hit is a collision. */
  lemma HitIsSound(ops: seq<Op>, q: Request)
    requires BarFreeTurns(ops) && BarFree(q.turn) && KeyOf(q) in Serve(ops).cache
    ensures var s := Serve(ops);
      var (s', result) := Execute(s, q);
      && s' == s && result.callId == q.call.id
      && (result.isError <==> Collides(s, q))
      && (!result.isError ==>
            Invocation(q.turn, q.call.name, q.call.input, Ok(result.output, result.duration)) in s.runs)
  {
    ServeCacheExact(ops);
    var s := Serve(ops);
    var i :| 0 <= i < |s.runs| && SucceededAs(s.runs[i], KeyOf(q));
    var r := s.runs[i];
    KeyExact(r.turn, r.tool, r.input, q.turn, q.call.name, q.call.input);
  }

  /** A handler is run exactly when it is registered and no run that shares the key succeeded:
      failures stay retryable, and no tool succeeds twice on one input in one turn. */
  lemma RunsUnlessSucceeded(ops: seq<Op>, q: Request)
    ensures var s := Serve(ops);
      var run := Invocation(q.turn, q.call.name, q.call.input, q.answer);
      (Execute(s, q).0.runs == s.runs + [run]) <==>
      (q.call.name in s.handlers && forall i :: 0 <= i < |s.runs| ==> !SucceededAs(s.runs[i], KeyOf(q)))
    ensures var s := Serve(ops);
      forall i, j :: 0 <= i < j < |s.runs| && s.runs[i].answer.Ok? && s.runs[j].answer.Ok? ==>
        s.runs[i].(answer := s.runs[j].answer) != s.runs[j]
  {
    ServeCacheExact(ops);
    var s := Serve(ops);
    assert forall i :: 0 <= i < |s.runs| && s.runs[i].answer.Ok? ==> Holds(s.cache, s.runs[i]);
  }

  /** The collision guard fires exactly when another tool succeeded in the same turn on an input
      that joins to the same text, which takes a bar in one of the two names. */
  lemma CollisionExact(ops: seq<Op>, q: Request)
    requires BarFreeTurns(ops) && BarFree(q.turn)
    ensures var s := Serve(ops);
      Collides(s, q) <==> exists i :: 0 <= i < |s.runs| && Clashes(s.runs[i], q)
    ensures forall r: Invocation :: Clashes(r, q) ==> !BarFree(r.tool) || !BarFree(q.call.name)
  {
    ServeCacheExact(ops);
    var s := Serve(ops);
    forall i | 0 <= i < |s.runs| && s.runs[i].answer.Ok?
      ensures Holds(s.cache, s.runs[i])
      ensures Clashes(s.runs[i], q) <==> KeyOfRun(s.runs[i]) == KeyOf(q) && s.runs[i].tool != q.call.name
    {
      KeyExact(s.runs[i].turn, s.runs[i].tool, s.runs[i].input, q.turn, q.call.name, q.call.input);
    }
    if Collides(s, q) {
      var i :| 0 <= i < |s.runs| && SucceededAs(s.runs[i], KeyOf(q));
      assert Clashes(s.runs[i], q);
    }
    forall r: Invocation | Clashes(r, q) ensures !BarFree(r.tool) || !BarFree(q.call.name) {
      if BarFree(r.tool) && BarFree(q.call.name) {
        CutAtBar(r.tool, r.input, q.call.name, q.call.input);
      }
    }
  }

  /** A run with this key has succeeded. */
  predicate Succeeded(s: State, key: string) {
    exists i :: 0 <= i < |s.runs| && SucceededAs(s.runs[i], key)
  }

  /** What a call that is no hit gives: the handler's answer, an error exactly if the handler gave
      one, from the one run that this makes; or the complaint about an unknown tool, from none. */
  lemma FreshCallExact(ops: seq<Op>, q: Request)
    requires !Succeeded(Serve(ops), KeyOf(q))
    ensures var s := Serve(ops);
      var (s', result) := Execute(s, q);
      && result.callId == q.call.id && s'.handlers == s.handlers
      && if Register(q.call.name) in ops
         then && s'.runs == s.runs + [Invocation(q.turn, q.call.name, q.call.input, q.answer)]
              && result.isError == q.answer.Err? && result.duration == q.answer.duration
              && result.output == (if q.answer.Ok? then q.answer.output else q.answer.message)
         else s' == s && result.isError && result.output == "unknown tool: " + q.call.name
  {
    ServeCacheExact(ops);
    HandlersExact(ops, q.call.name);
  }

  lemma {:induction false} HandlersExact(ops: seq<Op>, name: string)
    ensures name in Serve(ops).handlers <==> Register(name) in ops
  {
    if ops != [] {
      var init, last := ops[..|ops| - 1], ops[|ops| - 1];
      HandlersExact(init, name);
      assert Register(name) in ops <==> Register(name) in init || last == Register(name);
    }
  }

  /** A call after a success with the same key and tool is answered as that was, under its own id
      and without another run; after a failure the handler is run again. */
  lemma RetryExact(ops: seq<Op>, q: Request, again: Request)
    requires !Succeeded(Serve(ops), KeyOf(q)) && Register(q.call.name) in ops
    requires again.turn == q.turn && again.call == q.call.(id := again.call.id)
    ensures var s' := Execute(Serve(ops), q).0;
      var (s'', result) := Execute(s', again);
      if q.answer.Ok?
      then s'' == s' && result == ToolResult(again.call.id, q.answer.output, false, q.answer.duration)
      else s''.runs == s'.runs + [Invocation(q.turn, q.call.name, q.call.input, again.answer)]
  {
    ServeCacheExact(ops);
    HandlersExact(ops, q.call.name);
  }

  predicate Collides(s: State, q: Request) {
    KeyOf(q) in s.cache && s.cache[KeyOf(q)].tool != q.call.name
  }

  predicate Clashes(r: Invocation, q: Request) {
    && r.answer.Ok?
    && r.turn == q.turn
    && r.tool != q.call.name
    && r.tool + [BAR] + r.input == q.call.name + [BAR] + q.call.input
  }

  // ----- the object -----

  class ToolRegistry {
    var handlers: set<string>
    var idempotency: map<string, Cached>
    ghost var runs: seq<Invocation>

    ghost function Abs(): State
      reads this
    {
      State(handlers, idempotency, runs)
    }

    constructor ()
      ensures Abs() == Serve([])
    {
      handlers, idempotency, runs := {}, map[], [];
    }

    method Register(name: string)
      modifies this`handlers
      ensures Abs() == Apply(old(Abs()), Op.Register(name))
    {
      handlers := handlers + {name};
    }

    /** Execute on behalf of a turn; `answer` is what the handler would answer now. */
    method Dispatch(q: Request) returns (result: ToolResult)
      modifies this`idempotency, this`runs
      ensures (Abs(), result) == Execute(old(Abs()), q)
    {
      var key, call := KeyOf(q), q.call;
      if key in idempotency {
        var cached := idempotency[key];
        if cached.tool != call.name {
          return ToolResult(call.id, CollisionText(cached.tool, call.name), true, 0);
        }
        return ToolResult(call.id, cached.output, false, cached.duration);
      }
      if call.name !in handlers {
        return ToolResult(call.id, "unknown tool: " + call.name, true, 0);
      }
      runs := runs + [Invocation(q.turn, call.name, call.input, q.answer)];
      if q.answer.Err? {
        return ToolResult(call.id, q.answer.message, true, q.answer.duration);
      }
      idempotency := idempotency[key := Cached(call.name, q.answer.output, q.answer.duration)];
      return ToolResult(call.id, q.answer.output, false, q.answer.duration);
    }
  }
}
