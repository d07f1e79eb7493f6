/** What every interleaving of handler, compactor and crashes keeps. */
module SessionProofs {
  import opened Seqs
  import opened SessionLog
  import opened SessionStore
  import opened ContextWindow
  import Runs

  // ----- single steps -----

  /** A turn line and a compaction line may land in either order. */
  lemma TurnAndCompactionCommute(turns: seq<Turn>, t: Turn, rec: Record)
    requires rec.Compaction? && rec.replaced <= |turns|
    ensures Apply(Apply(turns, rec), TurnLine(t)) == Apply(Apply(turns, TurnLine(t)), rec)
  {
    assert (turns + [t])[rec.replaced..] == turns[rec.replaced..] + [t];
  }

  /** The bound is exact: past the end of the list the two orders differ. */
  lemma CommuteOnlyWithin(turns: seq<Turn>, t: Turn, rec: Record)
    requires rec.Compaction?
    ensures Apply(Apply(turns, rec), TurnLine(t)) == Apply(Apply(turns, TurnLine(t)), rec)
        <==> rec.replaced <= |turns|
  {
    if rec.replaced <= |turns| {
      TurnAndCompactionCommute(turns, t, rec);
    }
  }

  lemma ShapeApply(turns: seq<Turn>, history: seq<Turn>, k: nat, head: Turn)
    requires Shape(turns, history) && 1 <= k <= |turns| && IsSummary(head)
    ensures Shape([head] + turns[k..], history)
  {
    var after := [head] + turns[k..];
    assert after[1..] == turns[k..];
    if Compacted(turns) {
      assert turns[k..] == turns[1..][k - 1..];
    }
  }

  lemma ShapeSnoc(turns: seq<Turn>, history: seq<Turn>, t: Turn)
    requires Shape(turns, history) && !IsSummary(t)
    ensures Shape(turns + [t], history + [t])
  {
    if Compacted(turns) {
      assert (turns + [t])[1..] == turns[1..] + [t];
    }
  }

  lemma SameApply(a: seq<Turn>, b: seq<Turn>, k: nat, headA: Turn, headB: Turn)
    requires SameTurns(a, b) && 1 <= k <= |a| && SameSummary(headA, headB)
    ensures SameTurns([headA] + a[k..], [headB] + b[k..])
  {
    assert a[k..] == a[1..][k - 1..] && b[k..] == b[1..][k - 1..];
    assert ([headA] + a[k..])[1..] == a[k..] && ([headB] + b[k..])[1..] == b[k..];
  }

  /** Writing the turn line settles the same list, whether or not a swap is still unlogged. */
  lemma PersistSettles(c: Config, s: State)
    requires Control(c, s) && Enabled(s, Persist)
    ensures var s' := Next(c, s, Persist);
      && Replay(s'.log) == Replay(s.log) + Pending(s)
      && Pending(s') == []
      && Settled(s') == Settled(s) + Pending(s)
  {
    var t := s.handler.turn;
    ReplaySnoc(s.log, TurnLine(t));
    if |s.workers| > 0 && s.workers[0].Swapped? {
      TurnAndCompactionCommute(Replay(s.log), t, Compaction(0, s.workers[0].replaced, s.workers[0].summary));
    }
  }

  lemma PersistAgrees(c: Config, s: State)
    requires Control(c, s) && Agreement(s) && Enabled(s, Persist)
    ensures Agreement(Next(c, s, Persist))
  {
    var s' := Next(c, s, Persist);
    PersistSettles(c, s);
    ReplaySnoc(s.log, TurnLine(s.handler.turn));
    assert Settled(s') + Pending(s') == Settled(s) + Pending(s);
    assert RawTurns(s'.log) + Pending(s') == RawTurns(s.log) + Pending(s);
  }

  lemma PersistFits(c: Config, s: State)
    requires Inv(c, s) && Enabled(s, Persist)
    ensures Control(c, Next(c, s, Persist)) && Lengths(c, Next(c, s, Persist))
  {
    PersistSettles(c, s);
    ReplaySnoc(s.log, TurnLine(s.handler.turn));
    assert s.handler.turn in s.accepted;
    ShapeSnoc(Replay(s.log), RawTurns(s.log), s.handler.turn);
  }

  /** The swap replaces the head of the list in memory and of the settled list alike. */
  lemma SwapAgrees(c: Config, s: State, a: Action)
    requires Control(c, s) && Agreement(s) && Enabled(s, a) && a.Swap?
    ensures Agreement(Next(c, s, a))
  {
    var s' := Next(c, s, a);
    var k := |s.workers[0].oldTurns|;
    var summary := SummaryText(a.extracted, k);
    var live, logged := SummaryTurn(a.stamp, a.ts, summary), SummaryTurn("summary", 0, summary);
    var disk := Replay(s.log);
    assert s'.workers == [Swapped(k, summary)];
    assert Settled(s') + Pending(s') == [logged] + (disk + Pending(s))[k..];
    SameApply(s.turns, disk + Pending(s), k, live, logged);
    assert s'.turns == [live] + s.turns[k..];
  }

  lemma SwapFits(c: Config, s: State, a: Action)
    requires Inv(c, s) && Enabled(s, a) && a.Swap?
    ensures Control(c, Next(c, s, a)) && Lengths(c, Next(c, s, a))
  {
    var s' := Next(c, s, a);
    var k := |s.workers[0].oldTurns|;
    var summary := SummaryText(a.extracted, k);
    assert |Settled(s) + Pending(s)| == |s.turns|;
    assert s'.workers == [Swapped(k, summary)];
    assert s'.turns == [SummaryTurn(a.stamp, a.ts, summary)] + s.turns[k..];
    ShapeApply(s.turns, s.accepted, k, SummaryTurn(a.stamp, a.ts, summary));
  }

  /** Writing the record settles the same list, up to the id and time of the summary. */
  lemma RecordAgrees(c: Config, s: State, a: Action)
    requires Control(c, s) && Agreement(s) && Enabled(s, a) && a.WriteRecord?
    ensures Agreement(Next(c, s, a))
  {
    var s' := Next(c, s, a);
    var k, summary := s.workers[0].replaced, s.workers[0].summary;
    ReplaySnoc(s.log, Compaction(a.recordTs, k, summary));
    var tail := Replay(s.log)[k..] + Pending(s);
    assert s'.workers == [Done];
    assert Settled(s) + Pending(s) == [SummaryTurn("summary", 0, summary)] + tail;
    assert Settled(s') + Pending(s') == [SummaryTurn("summary", a.recordTs, summary)] + tail;
  }

  lemma RecordFits(c: Config, s: State, a: Action)
    requires Inv(c, s) && Enabled(s, a) && a.WriteRecord?
    ensures Control(c, Next(c, s, a)) && Lengths(c, Next(c, s, a))
  {
    var s' := Next(c, s, a);
    var k, summary := s.workers[0].replaced, s.workers[0].summary;
    ReplaySnoc(s.log, Compaction(a.recordTs, k, summary));
    ShapeApply(Replay(s.log), RawTurns(s.log), k, SummaryTurn("summary", a.recordTs, summary));
    assert s'.workers == [Done];
    assert Replay(s'.log) == [SummaryTurn("summary", a.recordTs, summary)] + Replay(s.log)[k..];
  }

  lemma AddTurnAgrees(c: Config, s: State, a: Action)
    requires Control(c, s) && Agreement(s) && Enabled(s, a) && a.AddTurn?
    ensures Agreement(Next(c, s, a))
  {
    var s' := Next(c, s, a);
    assert Pending(s) == [] && Pending(s') == [a.turn];
    assert Settled(s') == Settled(s) == Settled(s) + Pending(s);
    assert s.turns != [] ==> s'.turns[1..] == s.turns[1..] + [a.turn];
    assert Settled(s) != [] ==> (Settled(s) + [a.turn])[1..] == Settled(s)[1..] + [a.turn];
  }

  lemma AddTurnFits(c: Config, s: State, a: Action)
    requires Inv(c, s) && Enabled(s, a) && a.AddTurn?
    ensures Control(c, Next(c, s, a)) && Lengths(c, Next(c, s, a))
  {
    var s' := Next(c, s, a);
    assert Pending(s) == [] && Pending(s') == [a.turn];
    assert forall i :: 0 <= i <= |s.turns| ==> s'.turns[..i] == s.turns[..i];
    ShapeSnoc(s.turns, s.accepted, a.turn);
  }

  /** A step of the handler that touches neither the list, the file nor a worker. */
  lemma HandlerKeepsInv(c: Config, s: State, handler: Handler)
    requires Inv(c, s) && Pending(s.(handler := handler)) == Pending(s)
    ensures Inv(c, s.(handler := handler))
  {
    var s' := s.(handler := handler);
    assert Settled(s') == Settled(s);
    assert forall i :: 0 <= i < |s.workers| ==> WorkerInv(c, s', s.workers[i]) == WorkerInv(c, s, s.workers[i]);
  }

  /** A step of the compactor between its critical sections. */
  lemma WorkerKeepsInv(c: Config, s: State, busy: bool, workers: seq<Worker>)
    requires Inv(c, s) && |workers| == (if busy then 1 else 0)
    requires busy ==> !workers[0].Swapped? && WorkerInv(c, s, workers[0])
    requires Settled(s) == Replay(s.log)
    ensures Inv(c, s.(busy := busy, workers := workers))
  {
    var s' := s.(busy := busy, workers := workers);
    assert Settled(s') == Settled(s) && Pending(s') == Pending(s);
    assert busy ==> WorkerInv(c, s', workers[0]) == WorkerInv(c, s, workers[0]);
  }

  lemma HookKeepsInv(c: Config, s: State, a: Action)
    requires Inv(c, s) && Enabled(s, a) && (a.HookCheck? || a.HookClaim? || a.Join?)
    ensures Inv(c, Next(c, s, a))
  {
    var s' := Next(c, s, a);
    HandlerKeepsInv(c, s, s'.handler);
    if s'.workers != s.workers {
      assert s.workers == [] && s'.workers == [Claimed];
      WorkerKeepsInv(c, s.(handler := s'.handler), true, [Claimed]);
    }
  }

  /** What is cut off while a turn may still be unwritten is within the file. */
  lemma SnapshotFits(c: Config, s: State)
    requires Inv(c, s) && Settled(s) == Replay(s.log)
    ensures |s.turns| > Keep(c) ==> |s.turns| - Keep(c) <= |Replay(s.log)|
  {
    assert |Settled(s) + Pending(s)| == |s.turns|;
  }

  /** What the first critical section makes of the worker. */
  function SnapshotWorker(c: Config, s: State): Worker {
    if |s.turns| <= Keep(c) then Done else Extracting(|s.turns|, s.turns[..|s.turns| - Keep(c)])
  }

  lemma SnapshotNext(c: Config, s: State, a: Action)
    requires Control(c, s) && Enabled(s, a) && a.Snapshot?
    ensures s.workers == [Claimed]
    ensures Next(c, s, a) == s.(busy := true, workers := [SnapshotWorker(c, s)])
  {
    assert s.workers[a.w := SnapshotWorker(c, s)] == [SnapshotWorker(c, s)];
  }

  lemma SnapshotKeepsInv(c: Config, s: State, a: Action)
    requires Inv(c, s) && Enabled(s, a) && a.Snapshot?
    ensures Inv(c, Next(c, s, a))
  {
    SnapshotNext(c, s, a);
    SnapshotFits(c, s);
    WorkerKeepsInv(c, s, true, [SnapshotWorker(c, s)]);
  }

  /** The second critical section never slices out of range. */
  lemma SwapNext(c: Config, s: State, a: Action)
    requires Control(c, s) && Enabled(s, a) && a.Swap?
    ensures var worker := s.workers[a.w];
      && 0 <= worker.n - Keep(c) <= |s.turns|
      && Next(c, s, a) == s.(
           turns := [SummaryTurn(a.stamp, a.ts, SummaryText(a.extracted, |worker.oldTurns|))]
                    + s.turns[worker.n - Keep(c)..],
           workers := s.workers[a.w := Swapped(|worker.oldTurns|, SummaryText(a.extracted, |worker.oldTurns|))])
  {
    assert WorkerInv(c, s, s.workers[a.w]);
  }

  lemma ReleaseKeepsInv(c: Config, s: State, a: Action)
    requires Inv(c, s) && Enabled(s, a) && a.Release?
    ensures Inv(c, Next(c, s, a))
  {
    assert Next(c, s, a).workers == [];
    WorkerKeepsInv(c, s, false, []);
  }

  lemma StepKeepsInv(c: Config, s: State, a: Action)
    requires Inv(c, s)
    ensures Inv(c, Next(c, s, a))
  {
    if Enabled(s, a) {
      match a {
        case AddTurn(_) =>
          AddTurnAgrees(c, s, a);
          AddTurnFits(c, s, a);
        case Persist =>
          PersistAgrees(c, s);
          PersistFits(c, s);
        case Swap(_, _, _, _) =>
          SwapAgrees(c, s, a);
          SwapFits(c, s, a);
        case WriteRecord(_, _) =>
          RecordAgrees(c, s, a);
          RecordFits(c, s, a);
        case HookCheck | HookClaim | Join => HookKeepsInv(c, s, a);
        case Snapshot(_) => SnapshotKeepsInv(c, s, a);
        case Release(_) => ReleaseKeepsInv(c, s, a);
        case Crash =>
      }
    }
  }

  lemma {:induction false} RunKeepsInv(c: Config, s: State, actions: seq<Action>)
    requires Inv(c, s)
    ensures Inv(c, Run(c, s, actions))
    decreases |actions|
  {
    if actions != [] {
      StepKeepsInv(c, s, actions[0]);
      RunKeepsInv(c, Next(c, s, actions[0]), actions[1..]);
    }
  }

  ghost predicate Reachable(c: Config, s: State) {
    exists actions :: s == Run(c, INIT, actions)
  }

  lemma ReachableInv(c: Config, s: State)
    requires Reachable(c, s)
    ensures Inv(c, s)
  {
    assert Replay(INIT.log) == Apply(Replay(INIT.log[..0]), Skipped);
    assert RawTurns(INIT.log) == RawTurns(INIT.log[..0]);
    var actions :| s == Run(c, INIT, actions);
    RunKeepsInv(c, INIT, actions);
  }

  // ----- whole runs -----

  /** In every run: the file, once an unlogged swap is logged, replays to the list in memory
      less the at most one turn still to be written; the clamp in replay never fires, no slice
      is out of range, and at most one compaction is in flight. */
  lemma FileMatchesMemory(c: Config, s: State)
    requires Reachable(c, s)
    ensures SameTurns(s.turns, Settled(s) + Pending(s)) && |Pending(s)| <= 1
    ensures ClampFree(s.log) && !s.faulted
    ensures |s.workers| <= 1
  {
    ReachableInv(c, s);
  }

  /** A crash anywhere in any run loses no turn whose line was written: the reloaded session
      expands to the whole history but for the turn still to be written, and however many
      compactions nested it holds at most one summary, in front. */
  lemma CrashConserves(c: Config, s: State)
    requires Reachable(c, s)
    ensures var reloaded := Next(c, s, Crash).turns;
      && |Blocks(s.log)| == |reloaded|
      && (forall i :: 0 <= i < |reloaded| ==> StandsFor(reloaded[i], Blocks(s.log)[i]))
      && (forall i :: 1 <= i < |reloaded| ==> !IsSummary(reloaded[i]))
    ensures Concat(Blocks(s.log)) + Pending(s) == s.accepted
  {
    ReachableInv(c, s);
    Conservation(s.log);
    var reloaded := Replay(s.log);
    forall i | 1 <= i < |reloaded| ensures !IsSummary(reloaded[i]) {
      if Compacted(reloaded) {
        assert reloaded[i] == reloaded[1..][i - 1];
      }
      assert reloaded[i] in RawTurns(s.log);
    }
  }

  lemma WindowOfShape(cap: int, turns: seq<Turn>, history: seq<Turn>)
    requires Shape(turns, history) && (forall t :: t in history ==> !IsSummary(t))
    ensures LastTurns(cap, turns) == LastTurns(cap, history)
        <==> !Compacted(turns) || (cap >= 1 && |turns| > cap)
  {
    if Compacted(turns) {
      if cap >= 1 && |turns| > cap {
        assert turns[|turns| - cap..] == turns[1..][|turns| - 1 - cap..];
      } else {
        assert LastTurns(cap, turns)[0] == turns[0];
        assert forall t :: t in LastTurns(cap, history) ==> t in history;
      }
    }
  }

  /** The budget pays, besides the turns behind the summary, neither for the summary nor for the
      newest turn that it replaced. */
  predicate PushedOut(budget: int, cost: Cost, turns: seq<Turn>, history: seq<Turn>)
    requires 0 < |turns| <= |history|
  {
    var rest := TotalCost(turns[1..], cost);
    budget > 0 && cost(turns[0]) + rest > budget && cost(history[|history| - |turns|]) + rest > budget
  }

  /** A budget hides a summary that the cap lets through exactly when it pushes it out. */
  lemma BudgetOfShape(cap: int, budget: int, cost: Cost, turns: seq<Turn>, history: seq<Turn>)
    requires Shape(turns, history) && (forall t :: t in history ==> !IsSummary(t))
    requires Compacted(turns) && !(cap >= 1 && |turns| > cap) && budget > 0
    ensures Window(cap, budget, cost, turns) == Window(cap, budget, cost, history)
        <==> PushedOut(budget, cost, turns, history)
  {
    var recent := LastTurns(cap, history);
    assert recent[|recent| - |turns|] == history[|history| - |turns|];
    assert recent[|recent| - |turns| + 1..] == turns[1..];
    if TotalCost(turns, cost) <= budget {
      FitIsLongest(recent, budget, cost);
      assert turns[0] in Fit(turns, budget, cost);
      assert forall t :: t in Fit(recent, budget, cost) ==> t in history;
    } else {
      FitBehind(turns, recent, budget, cost);
    }
  }

  /** In every run and for every budget the context window equals that of the never-compacted
      history exactly when no summary has been swapped in, or `cap` is set and the list is longer
      than `cap`, or the budget pushes the summary out. */
  lemma WindowInvisibleIff(c: Config, s: State, budget: int, cost: Cost)
    requires Reachable(c, s)
    ensures |s.turns| <= |s.accepted|
    ensures Window(c.cap, budget, cost, s.turns) == Window(c.cap, budget, cost, s.accepted)
        <==> !Compacted(s.turns) || (c.cap >= 1 && |s.turns| > c.cap)
             || PushedOut(budget, cost, s.turns, s.accepted)
  {
    ReachableInv(c, s);
    WindowOfShape(c.cap, s.turns, s.accepted);
    if Compacted(s.turns) && !(c.cap >= 1 && |s.turns| > c.cap) && budget > 0 {
      BudgetOfShape(c.cap, budget, cost, s.turns, s.accepted);
    }
  }

  /** With `cap` set, compaction is invisible after every step of every run in which no crash
      lost a turn, whatever the token budget. */
  lemma CompactionInvisible(c: Config, s: State, budget: int, cost: Cost)
    requires Reachable(c, s) && c.cap >= 1 && !s.lossy
    ensures Window(c.cap, budget, cost, s.turns) == Window(c.cap, budget, cost, s.accepted)
  {
    ReachableInv(c, s);
    WindowOfShape(c.cap, s.turns, s.accepted);
  }

  /** The same holds after a reload at any point where no turn awaits persistence. */
  lemma ReloadInvisible(c: Config, s: State, budget: int, cost: Cost)
    requires Reachable(c, s) && c.cap >= 1 && !s.lossy && Pending(s) == []
    ensures Window(c.cap, budget, cost, Next(c, s, Crash).turns) == Window(c.cap, budget, cost, s.accepted)
  {
    var s' := Then(c, s, Crash);
    assert RawTurns(s.log) + [] == RawTurns(s.log);
    ReachableInv(c, s);
    assert s'.accepted == s.accepted;
    CompactionInvisible(c, s', budget, cost);
  }

  /** A crash while a turn awaits persistence can make a summary visible: in this run it does so
      for every budget that pays for the summary or for the turn it replaced. */
  lemma LossyCrashShowsSummary(t1: Turn, t2: Turn, budget: int, cost: Cost) returns (s: State)
    requires !IsSummary(t1) && !IsSummary(t2)
    ensures Reachable(Config(1, 1), s)
    ensures s.turns == [SummaryTurn("summary", 0, "s")] && s.accepted == [t1]
    ensures Window(1, budget, cost, s.turns) != Window(1, budget, cost, s.accepted)
        <==> budget <= 0 || cost(s.turns[0]) <= budget || cost(t1) <= budget
  {
    var c := Config(1, 1);
    s := SwapWhileTurnPends(c, t1, t2);
    var rec := Compaction(0, 1, "s");
    ReplaySnoc(s.log, rec);
    s := Then(c, s, WriteRecord(0, 0));
    assert s.log == INIT.log + [TurnLine(t1)] + [rec];
    s := Then(c, s, Crash);
    assert s.turns == [SummaryTurn("summary", 0, "s")] && s.accepted == [t1];
    WindowInvisibleIff(c, s, budget, cost);
  }

  lemma SwapWhileTurnPends(c: Config, t1: Turn, t2: Turn) returns (s: State)
    requires c == Config(1, 1) && !IsSummary(t1) && !IsSummary(t2)
    ensures Reachable(c, s)
    ensures s == State([SummaryTurn("", 0, "s"), t2], INIT.log + [TurnLine(t1)], Running(t2, false, Unchecked),
                       true, [Swapped(1, "s")], [t1, t2], false, false)
    ensures Replay(s.log) == RawTurns(s.log) == [t1]
  {
    s := TurnPendsDuringCompaction(c, t1, t2);
    ReplaySnoc(INIT.log, TurnLine(t1));
    s := Then(c, s, Snapshot(0));
    assert s.turns[..1] == [t1];
    assert s.workers == [Extracting(2, [t1])];
    s := Then(c, s, Swap(0, "", 0, "s"));
  }

  lemma TurnPendsDuringCompaction(c: Config, t1: Turn, t2: Turn) returns (s: State)
    requires c == Config(1, 1) && !IsSummary(t1) && !IsSummary(t2)
    ensures Reachable(c, s)
    ensures s == State([t1, t2], INIT.log + [TurnLine(t1)], Running(t2, false, Unchecked),
                       true, [Claimed], [t1, t2], false, false)
  {
    s := Start(c);
    s := Then(c, s, AddTurn(t1));
    s := Then(c, s, Persist);
    s := Then(c, s, HookCheck);
    s := Then(c, s, HookClaim);
    s := Then(c, s, Join);
    s := Then(c, s, AddTurn(t2));
  }

  lemma Start(c: Config) returns (s: State)
    ensures s == INIT && Reachable(c, s)
  {
    s := Run(c, INIT, []);
  }

  lemma Then(c: Config, s: State, a: Action) returns (s': State)
    requires Reachable(c, s)
    ensures s' == Next(c, s, a) && Reachable(c, s')
  {
    var actions :| s == Run(c, INIT, actions);
    Runs.RunSnoc(Step(c), INIT, actions, a);
    s' := Next(c, s, a);
    assert s' == Run(c, INIT, actions + [a]);
  }

  /** The swap drops exactly the turns that were given to the extractor, whatever was added
      while it ran; what is left is one summary, the kept turns and the added ones. */
  lemma SwapDropsExtracted(c: Config, s: State, a: Action)
    requires Reachable(c, s) && a.Swap? && Enabled(s, a)
    ensures var s', worker := Next(c, s, a), s.workers[a.w];
      && s'.turns != [] && IsSummary(s'.turns[0])
      && s'.turns[0].assistant == SummaryText(a.extracted, |worker.oldTurns|)
      && s.turns == worker.oldTurns + s'.turns[1..]
      && |s'.turns| == Keep(c) + 1 + (|s.turns| - worker.n)
      && |s'.turns| <= |s.turns|
  {
    ReachableInv(c, s);
    var s', worker := Next(c, s, a), s.workers[a.w];
    assert s'.turns[1..] == s.turns[worker.n - Keep(c)..];
  }

  ghost predicate NeverCompacted(s: State) {
    && s.workers == []
    && (s.handler.Running? ==> !s.handler.hook.Passed?)
    && Replay(s.log) == RawTurns(s.log)
    && s.turns == s.accepted == RawTurns(s.log) + Pending(s)
  }

  predicate BelowThreshold(c: Config, turns: nat) {
    c.threshold <= 0 || turns < c.threshold
  }

  lemma StepNeverCompacts(c: Config, s: State, a: Action)
    requires BelowThreshold(c, |s.turns|) && NeverCompacted(s) && Enabled(s, a)
    ensures NeverCompacted(Next(c, s, a))
    ensures |Next(c, s, a).turns| <= |s.turns| + Adds([a])
  {
    var s' := Next(c, s, a);
    assert Adds([a]) == (if a.AddTurn? then 1 else 0) + Adds([]);
    match a {
      case AddTurn(t) =>
        assert Pending(s) == [] && Pending(s') == [t];
        assert RawTurns(s.log) + [] == RawTurns(s.log);
      case Persist =>
        var t := s.handler.turn;
        ReplaySnoc(s.log, TurnLine(t));
        assert Pending(s) == [t] && Pending(s') == [];
      case HookCheck => assert Pending(s') == Pending(s);
      case Join => assert Pending(s') == Pending(s);
      case Crash => assert Pending(s') == [];
      case _ => assert false;
    }
  }

  function Adds(actions: seq<Action>): nat {
    if actions == [] then 0 else (if actions[0].AddTurn? then 1 else 0) + Adds(actions[1..])
  }

  lemma {:induction false} RunNeverCompacts(c: Config, s: State, actions: seq<Action>)
    requires BelowThreshold(c, |s.turns| + Adds(actions)) && NeverCompacted(s)
    ensures NeverCompacted(Run(c, s, actions))
    decreases |actions|
  {
    if actions != [] {
      if Enabled(s, actions[0]) {
        StepNeverCompacts(c, s, actions[0]);
        assert Adds([actions[0]]) == (if actions[0].AddTurn? then 1 else 0) + Adds([]);
      }
      RunNeverCompacts(c, Next(c, s, actions[0]), actions[1..]);
    }
  }

  /** Compaction waits for its threshold, and a threshold that is not positive disables it: until
      that many turns have been added, no worker starts and the list is the whole history. */
  lemma ThresholdGuards(c: Config, actions: seq<Action>)
    requires BelowThreshold(c, Adds(actions))
    ensures var s := Run(c, INIT, actions);
      s.workers == [] && s.turns == s.accepted && Replay(s.log) == RawTurns(s.log)
  {
    assert Replay(INIT.log) == Apply(Replay(INIT.log[..0]), Skipped);
    assert RawTurns(INIT.log) == RawTurns(INIT.log[..0]);
    RunNeverCompacts(c, INIT, actions);
  }
}
