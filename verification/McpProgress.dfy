/** What a call comes to: which step decides how it ends, and what a reply or the end of the stream
    brings to its caller. */
module McpProgress {
  import opened Options
  import opened McpProtocol
  import opened McpProofs

  /** A new call registers, checks and writes; it then waits with its channel registered if and only
      if the client is connected and the write goes well, and else leaves with the reason. */
  lemma NewCall(s: State, writeOk: bool)
    requires Reachable(s)
    ensures var id := s.nextId + 1;
      var s2 := Next(Next(s, Alloc), Register(id));
      var s' := Next(s2, CheckAndWrite(id, writeOk));
      && id in s'.responses && id in s'.callers && s'.callers[id].chan == []
      && s'.callers[id].pc == (if !s.connected then Leaving(Disconnected, None)
                               else if writeOk then Waiting
                               else Leaving(WriteFailed, None))
      && At(Next(s2, MarshalFail(id)), id, Leaving(MarshalFailed, None))
      && Others(s, s', id)
  {
    IdsAreFresh(s);
  }

  /** No other caller is touched. */
  predicate Others(s: State, s': State, id: nat) {
    forall k :: k in s.callers && k != id ==> k in s'.callers && s'.callers[k] == s.callers[k]
  }

  /** A reply is delivered: while the server is heard, a waiting caller that is still registered gets
      a reply with its id as the server sent it, and reads it as it was meant unless it looks like
      an error; nobody else is touched. */
  lemma ReplyIsDelivered(s: State, r: Response)
    requires Reachable(s) && s.reader.Reading? && 0 <= r.id && At(s, r.id, Waiting) && r.id in s.responses
    ensures var s' := Next(Next(Next(s, Line(r)), Send), Receive(r.id));
      && r.id in s'.callers && s'.callers[r.id].pc.Leaving?
      && s'.callers[r.id].pc.got == Some(Reply(r)) && s'.callers[r.id].chan == []
      && (ReadsAsMeant(r) ==> s'.callers[r.id].pc.outcome == Meaning(r))
      && (r.error.None? && r.result.None? ==> s'.callers[r.id].pc.outcome == Disconnected)
      && s'.reader.Reading? && r.id !in s'.responses && Others(s, s', r.id)
  {
    WaiterIsUnsent(s, r.id);
    if ReadsAsMeant(r) {
      ErrorEncodingExact(r);
    }
  }

  predicate ReadsAsMeant(r: Response) {
    r.error.Some? || (r.result.Some? && !LooksLikeError(r.result.value))
  }

  lemma WaiterIsUnsent(s: State, id: nat)
    requires Reachable(s) && s.reader.Reading? && At(s, id, Waiting) && id in s.responses
    ensures s.callers[id].chan == []
  {
    ReachableInv(s);
    assert CallerInv(s, id) && Unsent(s, id);
  }

  /** A reply to nobody who is registered is dropped. */
  lemma UnknownReplyDropped(s: State, r: Response)
    requires s.reader.Reading? && !(0 <= r.id && r.id in s.responses)
    ensures Next(s, Line(r)) == s.(heard := s.heard + {r})
  {
  }

  /** A waiting call can be cancelled at any time, and is registered until it returns. */
  lemma WaitingCanCancel(s: State, id: nat)
    requires At(s, id, Waiting)
    ensures var s' := Next(s, Cancel(id));
      At(s', id, Leaving(Cancelled, None)) && s'.responses == s.responses && Others(s, s', id)
  {
  }

  /** A call that leaves returns what it left with and is registered no more. */
  lemma CallReturns(s: State, id: nat)
    requires Enabled(s, Unregister(id))
    ensures var s' := Next(s, Unregister(id));
      && At(s', id, Returned(s.callers[id].pc.outcome, s.callers[id].pc.got))
      && s'.responses == s.responses - {id} && Others(s, s', id)
  {
  }

  /** A result that looks like an error is read as the text under the key, a null as the empty one. */
  lemma LookalikeRead(json: Json)
    requires LooksLikeError(json)
    ensures Decode(Some(json)) ==
      McpError(if json.fields[ERROR_KEY].Text? then json.fields[ERROR_KEY].text else "")
  {
  }

  // ----- over whole runs -----

  /** Has this caller been told of the end of the stream? */
  predicate Told(c: Caller) {
    Disconnect in c.chan || ((c.pc.Leaving? || c.pc.Returned?) && c.pc.got == Some(Disconnect))
  }

  /** Only an ended stream is told of, and the table holds no call that has returned. */
  ghost predicate Tidy(s: State) {
    && (forall id :: id in s.callers && Told(s.callers[id]) ==> !Live(s.reader))
    && (forall id :: id in s.callers && s.callers[id].pc.Returned? ==> id !in s.responses)
  }

  lemma AllocTidy(s: State)
    requires Tidy(s) && s.nextId + 1 !in s.callers && s.nextId + 1 !in s.responses
    ensures Tidy(Next(s, Alloc))
  {
    assert Others(s, Next(s, Alloc), s.nextId + 1);
  }

  lemma CallerTidy(s: State, a: Action)
    requires Tidy(s) && Enabled(s, a) && ByCaller(a) && !a.Alloc?
    ensures Tidy(Next(s, a))
  {
    var s' := Next(s, a);
    assert Others(s, s', a.id) && s'.callers.Keys == s.callers.Keys;
    assert Live(s'.reader) == Live(s.reader) && s'.responses <= s.responses + {a.id};
    assert Told(s'.callers[a.id]) ==> Told(s.callers[a.id]);
  }

  lemma ReaderTidy(s: State, a: Action)
    requires Tidy(s) && Enabled(s, a) && !ByCaller(a)
    ensures Tidy(Next(s, a))
  {
    var s' := Next(s, a);
    if a.Send? || a.DrainVisit? {
      var id := if a.Send? then s.reader.response.id else a.key;
      assert Others(s, s', id) && s'.callers[id].pc == s.callers[id].pc;
      assert a.Send? ==> Told(s'.callers[id]) == Told(s.callers[id]);
    } else {
      assert s'.callers == s.callers;
    }
  }

  lemma {:induction false} RunTidy(s: State, actions: seq<Action>)
    requires Inv(s) && Tidy(s)
    ensures Tidy(Run(s, actions))
    decreases |actions|
  {
    if actions != [] {
      var a := actions[0];
      if Enabled(s, a) {
        if a.Alloc? {
          assert forall id :: id in s.callers ==> CallerInv(s, id);
          AllocTidy(s);
        } else if ByCaller(a) {
          CallerTidy(s, a);
        } else {
          ReaderTidy(s, a);
        }
      }
      StepKeepsInv(s, a);
      RunTidy(Next(s, a), actions[1..]);
    }
  }

  /** In every run: nobody is told of a disconnection, in the channel or on return, before the stream
      has ended; and no call that has returned is still registered. */
  lemma ToldOnlyAfterEnd(s: State, id: nat)
    requires Reachable(s) && id in s.callers
    ensures Told(s.callers[id]) ==> !Live(s.reader)
    ensures s.callers[id].pc.Returned? ==> id !in s.responses
  {
    var actions :| s == Run(INIT, actions);
    RunTidy(INIT, actions);
  }

  /** A call that left without a signal left for a reason that happened to it. */
  predicate Explained(id: nat, outcome: Outcome, done: seq<Action>) {
    match outcome
    case Cancelled => Cancel(id) in done
    case MarshalFailed => MarshalFail(id) in done
    case WriteFailed => CheckAndWrite(id, false) in done
    case Disconnected => CheckAndWrite(id, true) in done || CheckAndWrite(id, false) in done
    case _ => false
  }

  /** The call has ended without having received anything. */
  predicate Unsignalled(c: Caller) {
    (c.pc.Leaving? || c.pc.Returned?) && c.pc.got.None?
  }

  ghost predicate AllExplained(s: State, done: seq<Action>) {
    forall id :: id in s.callers && Unsignalled(s.callers[id]) ==> Explained(id, s.callers[id].pc.outcome, done)
  }

  lemma StepExplained(s: State, done: seq<Action>, a: Action)
    requires AllExplained(s, done)
    ensures AllExplained(Next(s, a), done + [a])
  {
    var s' := Next(s, a);
    forall id | id in s'.callers && Unsignalled(s'.callers[id])
      ensures Explained(id, s'.callers[id].pc.outcome, done + [a])
    {
      if id in s.callers && Unsignalled(s.callers[id]) {
        assert s'.callers[id].pc.outcome == s.callers[id].pc.outcome;
        assert forall b :: b in done ==> b in done + [a];
      } else {
        assert a in done + [a];
      }
    }
  }

  lemma {:induction false} RunExplained(s: State, done: seq<Action>, actions: seq<Action>)
    requires AllExplained(s, done)
    ensures AllExplained(Run(s, actions), done + actions)
    decreases |actions|
  {
    if actions == [] {
      assert done + actions == done;
    } else {
      StepExplained(s, done, actions[0]);
      RunExplained(Next(s, actions[0]), done + [actions[0]], actions[1..]);
      assert done + [actions[0]] + actions[1..] == done + actions;
    }
  }

  /** In every run a call ends without a signal only because it was cancelled, could not be encoded,
      could not be written or found the client disconnected, each told apart. */
  lemma ReturnIsExplained(actions: seq<Action>, id: nat)
    requires var s := Run(INIT, actions);
      id in s.callers && Unsignalled(s.callers[id])
    ensures Explained(id, Run(INIT, actions).callers[id].pc.outcome, actions)
  {
    RunExplained(INIT, [], actions);
    assert [] + actions == actions;
  }

  /** Once started and stopped a client stays disconnected. */
  lemma StopIsFinal(s: State, actions: seq<Action>)
    requires s.started
    ensures !Run(Next(s, Stop), actions).connected
  {
    StaysDisconnected(Next(s, Stop), actions);
  }

  lemma {:induction false} StaysDisconnected(s: State, actions: seq<Action>)
    requires s.started && !s.connected
    ensures !Run(s, actions).connected
    decreases |actions|
  {
    if actions != [] {
      StaysDisconnected(Next(s, actions[0]), actions[1..]);
    }
  }
}
