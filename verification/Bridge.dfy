/** The bridge above the client: a health monitor that takes the bridge out of service when
    tools/list fails, and restarts that may put it back. */
module Bridge {
  import Runs

  // ----- one restart -----

  datatype Attempt = StartFailed | ListFailed | Listed | ContextDone

  datatype Ending = Published | Exhausted | Abandoned

  const SECOND: int := 1_000_000_000
  const TWO_63: int := 0x8000_0000_0000_0000
  const TWO_64: int := 0x1_0000_0000_0000_0000

  function Pow2(n: nat): (r: nat)
    ensures r >= 1
  {
    if n == 0 then 1 else 2 * Pow2(n - 1)
  }

  function Wrap64(x: int): int {
    (x + TWO_63) % TWO_64 - TWO_63
  }

  /** The wait before an attempt, in nanoseconds; a wrapped negative duration is no wait. */
  function Backoff(attempt: nat): nat
    requires attempt >= 1
  {
    var d := Wrap64(Pow2(attempt - 1) * SECOND);
    if d < 0 then 0 else d
  }

  function Waited(attempts: nat): nat {
    if attempts == 0 then 0 else Waited(attempts - 1) + Backoff(attempts)
  }

  predicate AllFail(results: seq<Attempt>) {
    forall i :: 0 <= i < |results| ==> results[i].StartFailed? || results[i].ListFailed?
  }

  /** attemptRestart against any sequence of attempt results. It publishes exactly when an
      attempt within the limit lists the tools and all before it failed, gives up exactly when
      all attempts fail, and has waited out the backoff of every attempt it made. */
  method AttemptRestart(configured: int, results: seq<Attempt>) returns (ending: Ending, made: nat, waited: nat)
    requires |results| == if configured <= 0 then 3 else configured
    ensures match ending
      case Published => 1 <= made <= |results| && results[made - 1].Listed? && AllFail(results[..made - 1])
      case Abandoned => made < |results| && results[made].ContextDone? && AllFail(results[..made])
      case Exhausted => made == |results| && AllFail(results)
    ensures waited == Waited(made)
  {
    var maxAttempts := configured;
    if maxAttempts <= 0 {
      maxAttempts := 3;
    }
    made, waited := 0, 0;
    while made < maxAttempts
      invariant 0 <= made <= maxAttempts
      invariant AllFail(results[..made])
      invariant waited == Waited(made)
    {
      var result := results[made];
      if result.ContextDone? {
        return Abandoned, made, waited;
      }
      waited := waited + Backoff(made + 1);
      made := made + 1;
      if result.Listed? {
        return Published, made, waited;
      }
    }
    ending := Exhausted;
  }

  lemma Pow2Grows(m: nat, n: nat)
    requires m <= n
    ensures Pow2(m) <= Pow2(n)
  {
    if m < n {
      Pow2Grows(m, n - 1);
    }
  }

  lemma BackoffBounds(attempt: nat)
    requires attempt >= 1
    ensures Backoff(attempt) <= Pow2(attempt - 1) * SECOND
    ensures attempt <= 34 ==> Backoff(attempt) == Pow2(attempt - 1) * SECOND
    ensures attempt == 35 ==> Backoff(attempt) == 0
  {
    assert Pow2(8) == 256;
    assert Pow2(16) == 65536;
    assert Pow2(24) == 16777216;
    assert Pow2(33) == 8589934592;
    assert Pow2(34) == 17179869184;
    if attempt <= 34 {
      Pow2Grows(attempt - 1, 33);
    }
  }

  lemma {:induction false} WaitedAtMost(m: nat)
    ensures Waited(m) <= (Pow2(m) - 1) * SECOND
    ensures m <= 34 ==> Waited(m) == (Pow2(m) - 1) * SECOND
    ensures m >= 35 ==> Waited(m) < (Pow2(m) - 1) * SECOND
  {
    if m > 0 {
      WaitedAtMost(m - 1);
      BackoffBounds(m);
    }
  }

  /** m attempts wait 2^m - 1 seconds in all, as long as no duration overflows: exactly up to 34. */
  lemma BackoffTotal(m: nat)
    ensures Waited(m) == (Pow2(m) - 1) * SECOND <==> m <= 34
  {
    WaitedAtMost(m);
  }

  // ----- monitor and restarts together -----

  /** The monitor has seen a failure while available, then marks, then starts a restart. */
  datatype Monitor = Off | Polling | Saw | Marked

  datatype Restart = Trying | HasListed

  /** `listings` counts successful tools/list calls, `rises` how often `available` was set. */
  datatype State = State(
    available: bool,
    monitor: Monitor,
    active: seq<Restart>,
    gaveUp: bool,
    listings: nat,
    rises: nat)

  const INIT := State(false, Off, [], false, 0, 0)

  datatype Action =
    | Start
    | PollFails
    | Mark
    | Spawn
    | ListOk(r: nat)
    | Publish(r: nat)
    | Exhaust(r: nat)
    | Abandon(r: nat)
    | Stop

  predicate Enabled(s: State, a: Action) {
    match a
    case Start => s.monitor.Off?
    case PollFails => s.monitor.Polling?
    case Mark => s.monitor.Saw?
    case Spawn => s.monitor.Marked?
    case ListOk(r) => r < |s.active| && s.active[r].Trying?
    case Publish(r) => r < |s.active| && s.active[r].HasListed?
    case Exhaust(r) => r < |s.active| && s.active[r].Trying?
    case Abandon(r) => r < |s.active| && s.active[r].Trying?
    case Stop => true
  }

  function Remove(active: seq<Restart>, r: nat): seq<Restart>
    requires r < |active|
  {
    active[..r] + active[r + 1..]
  }

  function Next(s: State, a: Action): State {
    if !Enabled(s, a) then s else
    match a
    case Start => s.(available := true, monitor := Polling, listings := s.listings + 1, rises := s.rises + 1)
    case PollFails => if s.available then s.(monitor := Saw) else s
    case Mark => s.(available := false, monitor := Marked)
    case Spawn => s.(monitor := Polling, active := s.active + [Trying])
    case ListOk(r) => s.(active := s.active[r := HasListed], listings := s.listings + 1)
    case Publish(r) => s.(available := true, active := Remove(s.active, r), rises := s.rises + 1)
    case Exhaust(r) => s.(active := Remove(s.active, r), gaveUp := true)
    case Abandon(r) => s.(active := Remove(s.active, r))
    case Stop => s.(available := false)
  }

  function Run(s: State, actions: seq<Action>): State {
    Runs.Run(Next, s, actions)
  }

  ghost predicate Reachable(s: State) {
    exists actions :: s == Run(INIT, actions)
  }

  /** Someone holds the right to start or to publish a restart. */
  predicate Pending(s: State) {
    s.active != [] || s.monitor.Saw? || s.monitor.Marked?
  }

  ghost predicate Inv(s: State) {
    && |s.active| + (if s.available || s.monitor.Saw? || s.monitor.Marked? then 1 else 0) <= 1
    && (s.monitor.Marked? ==> !s.available)
    && (s.monitor.Off? ==> !s.available && s.active == [] && !s.gaveUp)
    && (s.gaveUp ==> !s.available && !Pending(s))
    && s.rises + (if |s.active| == 1 && s.active[0].HasListed? then 1 else 0) <= s.listings
  }

  lemma {:induction false} RunKeepsInv(s: State, actions: seq<Action>)
    requires Inv(s)
    ensures Inv(Run(s, actions))
    ensures s.gaveUp ==> Run(s, actions).gaveUp
    ensures !s.monitor.Off? && !s.available && !Pending(s) ==> !Run(s, actions).available
    decreases |actions|
  {
    if actions != [] {
      RunKeepsInv(Next(s, actions[0]), actions[1..]);
    }
  }

  lemma ReachableInv(s: State)
    requires Reachable(s)
    ensures Inv(s)
  {
    var actions :| s == Run(INIT, actions);
    RunKeepsInv(INIT, actions);
  }

  /** Single flight, in every run: restarts that have not published, plus one if the bridge is
      available, are never more than one. That `available` is set no more often than tools/list
      has succeeded follows from a restart listing the tools before it publishes. */
  lemma SingleFlight(s: State)
    requires Reachable(s)
    ensures |s.active| + (if s.available then 1 else 0) <= 1
    ensures s.rises <= s.listings
  {
    ReachableInv(s);
  }

  /** Once a restart has given up, the bridge stays unavailable for the rest of every run. */
  lemma GivingUpIsFinal(s: State, actions: seq<Action>)
    requires Reachable(s) && s.gaveUp
    ensures !Run(s, actions).available
  {
    ReachableInv(s);
    RunKeepsInv(s, actions);
  }

  /** What Stop achieves: afterwards the bridge stays unavailable if and only if it had been started
      and no restart was in flight and none was about to be started. */
  lemma StopSticksIff(s: State)
    requires Reachable(s)
    ensures (forall actions :: !Run(Next(s, Stop), actions).available) <==> !Pending(s) && !s.monitor.Off?
  {
    ReachableInv(s);
    var s' := Next(s, Stop);
    if s.monitor.Off? {
      Runs.RunSnoc(Next, s', [], Start);
      assert Run(s', [] + [Start]).available;
    } else if Pending(s) {
      var actions := ReadyRestart(s');
    } else {
      forall actions ensures !Run(s', actions).available {
        RunKeepsInv(s', actions);
      }
    }
  }

  /** A restart that is due goes on to make the bridge available. */
  lemma ReadyRestart(s: State) returns (actions: seq<Action>)
    requires Pending(s)
    ensures Run(s, actions).available
  {
    actions := [];
    var s1 := s;
    if s1.active == [] && s.monitor.Saw? {
      Runs.RunSnoc(Next, s, actions, Mark);
      actions, s1 := actions + [Mark], Next(s1, Mark);
    }
    if s1.active == [] {
      Runs.RunSnoc(Next, s, actions, Spawn);
      actions, s1 := actions + [Spawn], Next(s1, Spawn);
    }
    if s1.active[0].Trying? {
      Runs.RunSnoc(Next, s, actions, ListOk(0));
      actions, s1 := actions + [ListOk(0)], Next(s1, ListOk(0));
    }
    Runs.RunSnoc(Next, s, actions, Publish(0));
    actions := actions + [Publish(0)];
  }

  /** A failed poll takes an available bridge out of service and starts exactly one restart, which
      can bring it back; a failed poll of a bridge that is down changes nothing. */
  lemma FailedPollRestarts(s: State)
    requires Reachable(s) && s.monitor.Polling?
    ensures var s' := Next(Next(Next(s, PollFails), Mark), Spawn);
      if s.available
      then s'.active == [Trying] && !s'.available && s'.monitor.Polling?
           && Next(Next(s', ListOk(0)), Publish(0))
                == s'.(active := [], available := true, listings := s'.listings + 1, rises := s'.rises + 1)
      else s' == s
  {
    ReachableInv(s);
    var s' := Next(Next(Next(s, PollFails), Mark), Spawn);
    if s.available {
      assert Next(s', ListOk(0)).active == [HasListed];
      assert Remove([HasListed], 0) == [];
    }
  }

  /** A restart that ends without publishing, its attempts used up or its context ended, leaves the
      bridge down for the rest of every run. */
  lemma UnpublishedIsFinal(s: State, r: nat, exhausted: bool, actions: seq<Action>)
    requires Reachable(s) && r < |s.active| && s.active[r].Trying?
    ensures var s' := Next(s, if exhausted then Exhaust(r) else Abandon(r));
      s'.active == [] && s'.gaveUp == (s.gaveUp || exhausted) && !Run(s', actions).available
  {
    ReachableInv(s);
    var a := if exhausted then Exhaust(r) else Abandon(r);
    RunKeepsInv(s, [a]);
    assert [a][1..] == [] && Run(s, [a]) == Run(Next(s, a), []);
    RunKeepsInv(Next(s, a), actions);
  }

  // ----- the object -----

  class GBrainBridge {
    var available: bool
    var monitor: Monitor
    var active: seq<Restart>
    ghost var gaveUp: bool
    ghost var listings: nat
    ghost var rises: nat

    ghost function Abs(): State
      reads this
    {
      State(available, monitor, active, gaveUp, listings, rises)
    }

    constructor ()
      ensures Abs() == INIT && Inv(Abs())
    {
      available, monitor, active := false, Off, [];
      gaveUp, listings, rises := false, 0, 0;
    }

    /** Start, when the first tools/list succeeds. */
    method Connected()
      requires Inv(Abs()) && Enabled(Abs(), Start)
      modifies this
      ensures Inv(Abs()) && Abs() == Next(old(Abs()), Start)
    {
      available, monitor := true, Polling;
      listings, rises := listings + 1, rises + 1;
    }

    /** healthMonitor: a poll fails; only an available bridge goes on to a restart. */
    method PollFailed()
      requires Inv(Abs()) && Enabled(Abs(), PollFails)
      modifies this`monitor
      ensures Inv(Abs()) && Abs() == Next(old(Abs()), PollFails)
    {
      if available {
        monitor := Saw;
      }
    }

    method Degrade()
      requires Inv(Abs()) && Enabled(Abs(), Mark)
      modifies this`monitor, this`available
      ensures Inv(Abs()) && Abs() == Next(old(Abs()), Mark)
    {
      available, monitor := false, Marked;
    }

    method SpawnRestart()
      requires Inv(Abs()) && Enabled(Abs(), Spawn)
      modifies this`monitor, this`active
      ensures Inv(Abs()) && Abs() == Next(old(Abs()), Spawn)
    {
      monitor, active := Polling, active + [Trying];
    }

    /** A restart's tools/list succeeds, and then it publishes. */
    method RestartListed(r: nat)
      requires Inv(Abs()) && Enabled(Abs(), ListOk(r))
      modifies this`active, this`listings
      ensures Inv(Abs()) && Abs() == Next(old(Abs()), ListOk(r))
    {
      active, listings := active[r := HasListed], listings + 1;
    }

    method RestartPublishes(r: nat)
      requires Inv(Abs()) && Enabled(Abs(), Publish(r))
      modifies this`active, this`available, this`rises
      ensures Inv(Abs()) && Abs() == Next(old(Abs()), Publish(r))
    {
      available, active, rises := true, active[..r] + active[r + 1..], rises + 1;
    }

    /** A restart ends without publishing. */
    method RestartEnds(r: nat, exhausted: bool)
      requires Inv(Abs()) && r < |active| && active[r].Trying?
      modifies this`active, this`gaveUp
      ensures Inv(Abs()) && Abs() == Next(old(Abs()), if exhausted then Exhaust(r) else Abandon(r))
    {
      active := active[..r] + active[r + 1..];
      gaveUp := gaveUp || exhausted;
    }

    method Shutdown()
      requires Inv(Abs())
      modifies this`available
      ensures Inv(Abs()) && Abs() == Next(old(Abs()), Stop)
    {
      available := false;
    }
  }
}
