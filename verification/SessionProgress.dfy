/** What a session does when its turn comes: when compaction starts, and what a whole turn and a
    whole compaction leave behind. */
module SessionProgress {
  import opened SessionLog
  import opened SessionStore
  import opened SessionProofs

  /** After a turn with no compaction in flight the hook starts one if and only if the threshold is
      positive and that many turns are there; with one in flight it starts none. */
  lemma CompactionStartsIff(c: Config, s: State)
    requires Reachable(c, s) && s.handler.Running? && s.handler.hook.Unchecked?
    ensures var s' := Next(c, Next(c, s, HookCheck), HookClaim);
      && s'.handler == s.handler.(hook := Finished)
      && s'.turns == s.turns && s'.log == s.log
      && (s.busy ==> s'.workers == s.workers)
      && (!s.busy ==> s'.workers == if c.threshold > 0 && |s.turns| >= c.threshold then [Claimed] else [])
      && s'.busy == (s.busy || (c.threshold > 0 && |s.turns| >= c.threshold))
  {
    ReachableInv(c, s);
  }

  /** A compaction that has started goes on to extract if and only if there are more turns than it
      keeps, and then takes all but those. */
  lemma ExtractionStartsIff(c: Config, s: State)
    requires Reachable(c, s) && s.workers == [Claimed]
    ensures var keep := if c.cap <= 0 then 50 else c.cap;
      var s' := Next(c, s, Snapshot(0));
      && s' == s.(workers := s'.workers)
      && (|s.turns| <= keep ==> s'.workers == [Done])
      && (|s.turns| > keep ==> |s'.workers| == 1 && TakesAllBut(s'.workers[0], s.turns, keep))
  {
    ReachableInv(c, s);
    SnapshotNext(c, s, Snapshot(0));
    if |s.turns| > Keep(c) {
      assert s.turns == s.turns[..|s.turns| - Keep(c)] + s.turns[|s.turns| - Keep(c)..];
    }
  }

  predicate TakesAllBut(w: Worker, turns: seq<Turn>, keep: nat)
    requires keep <= |turns|
  {
    w.Extracting? && w.n == |turns| && turns == w.oldTurns + turns[|turns| - keep..]
  }

  /** A whole turn, undisturbed: it is last in the list and last in the file, and the session is
      ready for another. */
  lemma TurnCompletes(c: Config, s: State, t: Turn)
    requires Reachable(c, s) && s.handler.Idle? && !IsSummary(t)
    ensures var s1 := Next(c, Next(c, s, AddTurn(t)), Persist);
      var s' := Next(c, Next(c, Next(c, s1, HookCheck), HookClaim), Join);
      && s'.handler.Idle? && Pending(s') == []
      && s'.turns == s.turns + [t] && s'.log == s.log + [TurnLine(t)] && s'.accepted == s.accepted + [t]
  {
  }

  /** A whole compaction, undisturbed: one summary with the extractor's text, or else a text that
      counts the turns, stands for all but the kept turns; the file has the record of it; and the
      next compaction may start. */
  lemma CompactionCompletes(c: Config, s: State, stamp: string, ts: int, extracted: string, recordTs: int)
    requires Reachable(c, s) && s.workers == [Claimed] && |s.turns| > Keep(c)
    ensures var s2 := Next(c, Next(c, s, Snapshot(0)), Swap(0, stamp, ts, extracted));
      var s' := Next(c, Next(c, s2, WriteRecord(0, recordTs)), Release(0));
      var replaced := |s.turns| - Keep(c);
      && s'.workers == [] && !s'.busy && s'.handler == s.handler && s'.accepted == s.accepted
      && |s'.turns| == Keep(c) + 1 && s'.turns[1..] == s.turns[replaced..]
      && IsCompacted(s'.turns[0], ts, extracted, replaced)
      && s'.log == s.log + [Compaction(recordTs, replaced, s'.turns[0].assistant)]
  {
    ReachableInv(c, s);
    SnapshotNext(c, s, Snapshot(0));
    var s1 := Next(c, s, Snapshot(0));
    var s2 := Next(c, s1, Swap(0, stamp, ts, extracted));
    assert |s1.workers[0].oldTurns| == |s.turns| - Keep(c);
    assert s2.workers == [Swapped(|s.turns| - Keep(c), s2.turns[0].assistant)];
    assert Next(c, s2, WriteRecord(0, recordTs)).workers == [Done];
    DigitsExact(|s.turns| - Keep(c));
  }

  ghost predicate IsCompacted(t: Turn, ts: int, extracted: string, replaced: nat) {
    && IsSummary(t) && t.timestamp == ts && t.user == "[compacted]"
    && (extracted != "" ==> t.assistant == extracted)
    && (extracted == "" ==> exists count :: t.assistant == "Compacted " + count + " turns." && Decimal(count, replaced))
  }

  /** `text` is `n` in decimal. */
  ghost predicate Decimal(text: string, n: nat) {
    && text != ""
    && (forall i :: 0 <= i < |text| ==> '0' <= text[i] <= '9')
    && (|text| > 1 ==> text[0] != '0')
    && Value(text) == n
  }

  function Value(text: string): int {
    if text == "" then 0 else 10 * Value(text[..|text| - 1]) + (text[|text| - 1] as int - '0' as int)
  }

  lemma {:induction false} DigitsExact(n: nat)
    ensures Decimal(Digits(n), n) && (n > 0 ==> Digits(n)[0] != '0')
  {
    if n >= 10 {
      DigitsExact(n / 10);
      assert Digits(n)[..|Digits(n)| - 1] == Digits(n / 10);
    } else {
      assert Digits(n)[..0] == "";
    }
  }

  /** Replaying a compaction line leaves its summary, with its text and time, in front of all turns
      but those it replaced, and of none if it claims to replace more than there are. */
  lemma RecordReplayed(turns: seq<Turn>, ts: int, replaced: nat, summary: string)
    ensures var after := Apply(turns, Compaction(ts, replaced, summary));
      var left := if replaced <= |turns| then |turns| - replaced else 0;
      && |after| == 1 + left && after[1..] == turns[|turns| - left..]
      && IsSummary(after[0]) && after[0].timestamp == ts
      && after[0].user == "[compacted]" && after[0].assistant == summary
  {
  }

  // ----- the history -----

  /** The turns of the AddTurn actions that take effect. */
  function Added(c: Config, s: State, actions: seq<Action>): seq<Turn>
    decreases |actions|
  {
    if actions == [] then []
    else
      (if actions[0].AddTurn? && s.handler.Idle? && !IsSummary(actions[0].turn) then [actions[0].turn] else [])
      + Added(c, Next(c, s, actions[0]), actions[1..])
  }

  lemma StepAdds(c: Config, s: State, a: Action)
    requires !a.Crash?
    ensures Next(c, s, a).accepted == s.accepted + Added(c, s, [a]) && Next(c, s, a).lossy == s.lossy
  {
    assert Added(c, s, [a]) == Added(c, s, [a])[..] + Added(c, Next(c, s, a), []);
  }

  /** Without a crash the full history is what was added, in the order it was added. */
  lemma {:induction false} HistoryIsAdded(c: Config, s: State, actions: seq<Action>)
    requires Crash !in actions
    ensures Run(c, s, actions).accepted == s.accepted + Added(c, s, actions)
    ensures Run(c, s, actions).lossy == s.lossy
    decreases |actions|
  {
    if actions != [] {
      StepAdds(c, s, actions[0]);
      HistoryIsAdded(c, Next(c, s, actions[0]), actions[1..]);
      assert Added(c, s, actions) == Added(c, s, [actions[0]]) + Added(c, Next(c, s, actions[0]), actions[1..]);
    }
  }
}
