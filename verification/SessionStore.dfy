/** One session shared by its handler and a background compactor.
    The handler appends a turn in memory and then to the file; the compactor takes a snapshot,
    extracts without the lock, swaps the old prefix for a summary and only then logs the swap.
    Every atomic step is an action; a run is any sequence of actions. */
module SessionStore {
  import opened SessionLog
  import Runs

  /** `cap` is MaxTurnsInContext, `threshold` is MaxTurnsBeforeCompaction. */
  datatype Config = Config(cap: int, threshold: int)

  /** How many turns a compaction keeps. */
  function Keep(c: Config): (keep: nat)
    ensures keep >= 1
    ensures c.cap >= 1 ==> keep == c.cap
    ensures c.cap <= 0 ==> keep == 50
  {
    if c.cap <= 0 then 50 else c.cap
  }

  datatype HookPc = Unchecked | Passed | Finished

  /** The handler of the session: handlers of one session run one at a time. */
  datatype Handler = Idle | Running(turn: Turn, persisted: bool, hook: HookPc)

  /** Where a compaction goroutine stands. */
  datatype Worker =
    | Claimed
    | Extracting(n: nat, oldTurns: seq<Turn>)
    | Swapped(replaced: nat, summary: string)
    | Done

  /** `accepted` is the full history: all turns ever added, less those a crash lost before
      their line was written; `lossy` says whether there was such a crash.
      `faulted` says whether a slice went out of range. */
  datatype State = State(
    turns: seq<Turn>,
    log: seq<Record>,
    handler: Handler,
    busy: bool,
    workers: seq<Worker>,
    accepted: seq<Turn>,
    lossy: bool,
    faulted: bool)

  datatype Action =
    | AddTurn(turn: Turn)
    | Persist
    | HookCheck
    | HookClaim
    | Join
    | Snapshot(w: nat)
    | Swap(w: nat, stamp: string, ts: int, extracted: string)
    | WriteRecord(w: nat, recordTs: int)
    | Release(w: nat)
    | Crash

  const INIT := State([], [Skipped], Idle, false, [], [], false, false)

  predicate Enabled(s: State, a: Action) {
    match a
    case AddTurn(t) => s.handler.Idle? && !IsSummary(t)
    case Persist => s.handler.Running? && !s.handler.persisted
    case HookCheck => s.handler.Running? && s.handler.hook.Unchecked?
    case HookClaim => s.handler.Running? && s.handler.hook.Passed?
    case Join => s.handler.Running? && s.handler.persisted && s.handler.hook.Finished?
    case Snapshot(w) => w < |s.workers| && s.workers[w].Claimed?
    case Swap(w, _, _, _) => w < |s.workers| && s.workers[w].Extracting?
    case WriteRecord(w, _) => w < |s.workers| && s.workers[w].Swapped?
    case Release(w) => w < |s.workers| && s.workers[w].Done?
    case Crash => true
  }

  function Digits(n: nat): string {
    if n < 10 then ["0123456789"[n]] else Digits(n / 10) + ["0123456789"[n % 10]]
  }

  /** The extractor's summary, or the fallback text when it gave none. */
  function SummaryText(extracted: string, replaced: nat): string {
    if extracted == "" then "Compacted " + Digits(replaced) + " turns." else extracted
  }

  /** One atomic step; an action that is not enabled changes nothing. */
  function Next(c: Config, s: State, a: Action): State {
    if !Enabled(s, a) then s else
    match a
    case AddTurn(t) =>
      s.(turns := s.turns + [t], accepted := s.accepted + [t], handler := Running(t, false, Unchecked))
    case Persist =>
      s.(log := s.log + [TurnLine(s.handler.turn)], handler := s.handler.(persisted := true))
    case HookCheck =>
      var skip := c.threshold <= 0 || |s.turns| < c.threshold;
      s.(handler := s.handler.(hook := if skip then Finished else Passed))
    case HookClaim =>
      var h := s.handler.(hook := Finished);
      if s.busy then s.(handler := h) else s.(handler := h, busy := true, workers := s.workers + [Claimed])
    case Join => s.(handler := Idle)
    case Snapshot(w) =>
      var n := |s.turns|;
      if n <= Keep(c) then s.(workers := s.workers[w := Done])
      else s.(workers := s.workers[w := Extracting(n, s.turns[..n - Keep(c)])])
    case Swap(w, stamp, ts, extracted) =>
      var worker := s.workers[w];
      if !(0 <= worker.n - Keep(c) <= |s.turns|) then s.(faulted := true)
      else
        var summary := SummaryText(extracted, |worker.oldTurns|);
        s.(turns := [SummaryTurn(stamp, ts, summary)] + s.turns[worker.n - Keep(c)..],
           workers := s.workers[w := Swapped(|worker.oldTurns|, summary)])
    case WriteRecord(w, recordTs) =>
      var worker := s.workers[w];
      s.(log := s.log + [Compaction(recordTs, worker.replaced, worker.summary)],
         workers := s.workers[w := Done])
    case Release(w) => s.(workers := s.workers[..w] + s.workers[w + 1..], busy := false)
    case Crash =>
      State(Replay(s.log), s.log, Idle, false, [], RawTurns(s.log), s.lossy || Pending(s) != [], s.faulted)
  }

  function Step(c: Config): (State, Action) -> State {
    (s: State, a: Action) => Next(c, s, a)
  }

  function Run(c: Config, s: State, actions: seq<Action>): State {
    Runs.Run(Step(c), s, actions)
  }

  /** The turn that is in memory but not yet in the file. */
  function Pending(s: State): seq<Turn> {
    if s.handler.Running? && !s.handler.persisted then [s.handler.turn] else []
  }

  /** What the file will replay to once a swap that is not yet logged has been logged. */
  function Settled(s: State): seq<Turn> {
    if |s.workers| > 0 && s.workers[0].Swapped?
    then Apply(Replay(s.log), Compaction(0, s.workers[0].replaced, s.workers[0].summary))
    else Replay(s.log)
  }

  predicate Compacted(turns: seq<Turn>) {
    |turns| > 0 && IsSummary(turns[0])
  }

  /** A list is its history, or one summary in front of a proper suffix of its history. */
  ghost predicate Shape(turns: seq<Turn>, history: seq<Turn>) {
    if Compacted(turns)
    then |turns| <= |history| && turns[1..] == history[|history| - |turns| + 1..]
    else turns == history
  }

  ghost predicate WorkerInv(c: Config, s: State, worker: Worker) {
    match worker
    case Extracting(n, oldTurns) =>
      && Keep(c) < n <= |s.turns|
      && oldTurns == s.turns[..n - Keep(c)]
      && |oldTurns| <= |Replay(s.log)|
    case Swapped(k, _) => 1 <= k <= |Replay(s.log)| && Keep(c) <= |Replay(s.log)| - k + |Pending(s)|
    case _ => true
  }

  /** The list `turns` has kept enough turns behind its summary, `short` of them missing. */
  predicate Roomy(c: Config, turns: seq<Turn>, short: nat) {
    Compacted(turns) ==> |turns| + short > Keep(c)
  }

  ghost predicate Control(c: Config, s: State) {
    && !s.faulted
    && |s.workers| == (if s.busy then 1 else 0)
    && (forall i :: 0 <= i < |s.workers| ==> WorkerInv(c, s, s.workers[i]))
  }

  ghost predicate Agreement(s: State) {
    && ClampFree(s.log)
    && SameTurns(s.turns, Settled(s) + Pending(s))
    && s.accepted == RawTurns(s.log) + Pending(s)
    && (forall t :: t in s.accepted ==> !IsSummary(t))
  }

  ghost predicate Lengths(c: Config, s: State) {
    && Shape(Replay(s.log), RawTurns(s.log))
    && Shape(s.turns, s.accepted)
    && Roomy(c, s.turns, if s.lossy then 1 else 0)
    && Roomy(c, Replay(s.log), if s.lossy then 1 else |Pending(s)|)
  }

  ghost predicate Inv(c: Config, s: State) {
    Control(c, s) && Agreement(s) && Lengths(c, s)
  }
}
