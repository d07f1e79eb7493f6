/** The session object itself: fields that are reassigned, one method per atomic step.
    Each method is proved to take the step of the same name in SessionStore, so what
    SessionProofs shows of every run holds of the object under any interleaving of calls. */
module LiveSession {
  import opened SessionLog
  import opened SessionStore
  import opened SessionProofs
  import CW = ContextWindow

  class Session {
    const cfg: Config
    var turns: seq<Turn>
    var log: seq<Record>
    var handler: Handler
    var busy: bool
    var workers: seq<Worker>
    ghost var accepted: seq<Turn>
    ghost var lossy: bool

    ghost function Abs(): State
      reads this
    {
      State(turns, log, handler, busy, workers, accepted, lossy, false)
    }

    ghost predicate Valid()
      reads this
    {
      Inv(cfg, Abs())
    }

    constructor (cfg: Config)
      ensures this.cfg == cfg && Abs() == INIT && Valid()
    {
      this.cfg := cfg;
      turns, log, handler, busy, workers := [], [Skipped], Idle, false, [];
      accepted, lossy := [], false;
      new;
      assert INIT == Run(cfg, INIT, []);
      ReachableInv(cfg, INIT);
    }

    /** Session.AddTurn, called by the handler once it has its answer. */
    method AddTurn(turn: Turn)
      requires Valid() && Enabled(Abs(), Action.AddTurn(turn))
      modifies this
      ensures Valid() && Abs() == Next(cfg, old(Abs()), Action.AddTurn(turn))
    {
      StepKeepsInv(cfg, Abs(), Action.AddTurn(turn));
      turns := turns + [turn];
      accepted := accepted + [turn];
      handler := Running(turn, false, Unchecked);
    }

    /** The persistence hook. */
    method Persist()
      requires Valid() && Enabled(Abs(), Action.Persist)
      modifies this`log, this`handler
      ensures Valid() && Abs() == Next(cfg, old(Abs()), Action.Persist)
    {
      StepKeepsInv(cfg, Abs(), Action.Persist);
      log := log + [TurnLine(handler.turn)];
      handler := handler.(persisted := true);
    }

    /** The compaction hook reads the turn count ... */
    method HookCheck()
      requires Valid() && Enabled(Abs(), Action.HookCheck)
      modifies this`handler
      ensures Valid() && Abs() == Next(cfg, old(Abs()), Action.HookCheck)
    {
      StepKeepsInv(cfg, Abs(), Action.HookCheck);
      if cfg.threshold <= 0 {
        handler := handler.(hook := Finished);
      } else if |turns| < cfg.threshold {
        handler := handler.(hook := Finished);
      } else {
        handler := handler.(hook := Passed);
      }
    }

    /** ... and then tries to set the in-progress flag; only the winner starts a goroutine. */
    method HookClaim()
      requires Valid() && Enabled(Abs(), Action.HookClaim)
      modifies this`handler, this`busy, this`workers
      ensures Valid() && Abs() == Next(cfg, old(Abs()), Action.HookClaim)
    {
      StepKeepsInv(cfg, Abs(), Action.HookClaim);
      handler := handler.(hook := Finished);
      if !busy {
        busy := true;
        workers := workers + [Claimed];
      }
    }

    /** RunHooks returns when both hooks have. */
    method Join()
      requires Valid() && Enabled(Abs(), Action.Join)
      modifies this`handler
      ensures Valid() && Abs() == Next(cfg, old(Abs()), Action.Join)
    {
      StepKeepsInv(cfg, Abs(), Action.Join);
      handler := Idle;
    }

    /** First critical section of runCompaction. */
    method Snapshot(w: nat)
      requires Valid() && Enabled(Abs(), Action.Snapshot(w))
      modifies this`workers
      ensures Valid() && Abs() == Next(cfg, old(Abs()), Action.Snapshot(w))
    {
      SnapshotNext(cfg, Abs(), Action.Snapshot(w));
      StepKeepsInv(cfg, Abs(), Action.Snapshot(w));
      var n := |turns|;
      var keep := cfg.cap;
      if keep <= 0 {
        keep := 50;
      }
      if n <= keep {
        workers := workers[w := Done];
      } else {
        workers := workers[w := Extracting(n, turns[..n - keep])];
      }
    }

    /** Second critical section. Its slice is in range whatever ran since the snapshot. */
    method Swap(w: nat, stamp: string, ts: int, extracted: string)
      requires Valid() && Enabled(Abs(), Action.Swap(w, stamp, ts, extracted))
      modifies this`turns, this`workers
      ensures Valid() && Abs() == Next(cfg, old(Abs()), Action.Swap(w, stamp, ts, extracted))
    {
      ghost var before, a := Abs(), Action.Swap(w, stamp, ts, extracted);
      SwapNext(cfg, before, a);
      StepKeepsInv(cfg, before, a);
      var n, oldTurns := workers[w].n, workers[w].oldTurns;
      var summary := extracted;
      if summary == "" {
        summary := "Compacted " + Digits(|oldTurns|) + " turns.";
      }
      assert summary == SummaryText(extracted, |oldTurns|);
      var remaining := turns[n - Keep(cfg)..];
      ghost var after := Next(cfg, before, a);
      assert [SummaryTurn(stamp, ts, summary)] + remaining == after.turns;
      assert workers[w := Swapped(|oldTurns|, summary)] == after.workers;
      turns := [SummaryTurn(stamp, ts, summary)] + remaining;
      workers := workers[w := Swapped(|oldTurns|, summary)];
      assert Abs() == after;
    }

    /** appendCompactionRecord, after the lock has been released. */
    method WriteRecord(w: nat, recordTs: int)
      requires Valid() && Enabled(Abs(), Action.WriteRecord(w, recordTs))
      modifies this`log, this`workers
      ensures Valid() && Abs() == Next(cfg, old(Abs()), Action.WriteRecord(w, recordTs))
    {
      StepKeepsInv(cfg, Abs(), Action.WriteRecord(w, recordTs));
      log := log + [Compaction(recordTs, workers[w].replaced, workers[w].summary)];
      workers := workers[w := Done];
    }

    /** The deferred clearing of the flag. */
    method Release(w: nat)
      requires Valid() && Enabled(Abs(), Action.Release(w))
      modifies this`busy, this`workers
      ensures Valid() && Abs() == Next(cfg, old(Abs()), Action.Release(w))
    {
      StepKeepsInv(cfg, Abs(), Action.Release(w));
      workers := workers[..w] + workers[w + 1..];
      busy := false;
    }

    /** A crash at any point, followed by ResolveOrCreate finding the file. */
    method CrashAndReload()
      requires Valid()
      modifies this
      ensures Valid() && Abs() == Next(cfg, old(Abs()), Action.Crash)
    {
      ghost var s := Abs();
      StepKeepsInv(cfg, s, Action.Crash);
      lossy := lossy || Pending(s) != [];
      accepted := RawTurns(log);
      handler, busy, workers := Idle, false, [];
      turns := LoadFromDisk(log);
      assert !s.faulted && Abs() == Next(cfg, s, Action.Crash);
    }

    /** The window of the compacted session is that of its whole history, when `cap` is set
        and no crash has lost a turn. */
    method ContextTurns(budget: int, cost: CW.Cost) returns (window: seq<Turn>)
      requires Valid()
      ensures window == CW.Window(cfg.cap, budget, cost, turns)
      ensures cfg.cap >= 1 && !lossy ==> window == CW.Window(cfg.cap, budget, cost, accepted)
    {
      window := CW.GetContextTurns(turns, cfg.cap, budget, cost);
      WindowOfShape(cfg.cap, turns, accepted);
    }
  }
}
