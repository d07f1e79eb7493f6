/** Order of jobs: one bounded queue and one worker per session. */
module DiscordQueue {
  import opened Options
  import Runs

  const CAPACITY := 16

  type Job = int

  /** A session's channel and the goroutines that range over it, each with the job it runs;
      `accepted` and `started` are all jobs ever queued and ever begun. */
  datatype Lane = Lane(queue: seq<Job>, workers: seq<Option<Job>>, accepted: seq<Job>, started: seq<Job>)

  type State = map<string, Lane>

  /** LoadOrStore and the offer are two steps; between them other handlers may run. */
  datatype Action =
    | Resolve(session: string)
    | Offer(session: string, job: Job)
    | Take(session: string, worker: nat)
    | Finish(session: string, worker: nat)

  predicate Enabled(s: State, a: Action) {
    match a
    case Resolve(_) => true
    case Offer(session, _) => session in s
    case Take(session, w) =>
      session in s && w < |s[session].workers| && s[session].workers[w].None? && s[session].queue != []
    case Finish(session, w) => session in s && w < |s[session].workers| && s[session].workers[w].Some?
  }

  function Next(s: State, a: Action): State {
    if !Enabled(s, a) then s else
    match a
    case Resolve(session) => if session in s then s else s[session := Lane([], [None], [], [])]
    case Offer(session, job) =>
      var lane := s[session];
      if |lane.queue| < CAPACITY
      then s[session := lane.(queue := lane.queue + [job], accepted := lane.accepted + [job])]
      else s
    case Take(session, w) =>
      var lane := s[session];
      s[session := lane.(queue := lane.queue[1..], workers := lane.workers[w := Some(lane.queue[0])],
                         started := lane.started + [lane.queue[0]])]
    case Finish(session, w) =>
      s[session := s[session].(workers := s[session].workers[w := None])]
  }

  function Run(s: State, actions: seq<Action>): State {
    Runs.Run(Next, s, actions)
  }

  /** One worker, running the job begun last or none; begun jobs and queued jobs make up, in
      order, all that were accepted. */
  ghost predicate LaneInv(lane: Lane) {
    && |lane.workers| == 1
    && lane.accepted == lane.started + lane.queue
    && |lane.queue| <= CAPACITY
    && (lane.workers[0].Some? ==> lane.started != [] && lane.workers[0].value == lane.started[|lane.started| - 1])
  }

  ghost predicate Inv(s: State) {
    forall session :: session in s ==> LaneInv(s[session])
  }

  lemma StepKeepsInv(s: State, a: Action)
    requires Inv(s)
    ensures Inv(Next(s, a))
  {
    if Enabled(s, a) && a.Take? {
      var lane := s[a.session];
      assert lane.queue == [lane.queue[0]] + lane.queue[1..];
      assert LaneInv(Next(s, a)[a.session]);
    }
  }

  lemma {:induction false} RunKeepsInv(s: State, actions: seq<Action>)
    requires Inv(s)
    ensures Inv(Run(s, actions))
    decreases |actions|
  {
    if actions != [] {
      StepKeepsInv(s, actions[0]);
      RunKeepsInv(Next(s, actions[0]), actions[1..]);
    }
  }

  /** In every run and for every session the jobs begun are a prefix of the jobs accepted, in
      order, and a running job is the one begun last. The order rests on there being one worker,
      which holds because only the first Resolve of a session starts one. */
  lemma FifoSingleWorker(actions: seq<Action>, session: string)
    requires session in Run(map[], actions)
    ensures var lane := Run(map[], actions)[session];
      && |lane.workers| == 1
      && lane.started <= lane.accepted
      && lane.accepted[|lane.started|..] == lane.queue
      && (lane.workers[0].Some? ==> lane.started != [] && lane.workers[0].value == lane.started[|lane.started| - 1])
  {
    RunKeepsInv(map[], actions);
  }

  /** An offer is refused exactly when sixteen jobs are queued, and then nothing changes; no step
      for one session touches another. */
  lemma DropsOnlyWhenFull(actions: seq<Action>, session: string, job: Job, a: Action)
    requires session in Run(map[], actions)
    ensures var s := Run(map[], actions);
      var s' := Next(s, Offer(session, job));
      && (s' == s <==> |s[session].queue| == 16)
      && (s' != s ==> s'[session].accepted == s[session].accepted + [job])
      && (a.session != session ==> session in Next(s, a) && Next(s, a)[session] == s[session])
  {
    RunKeepsInv(map[], actions);
    var s := Run(map[], actions);
    if |s[session].queue| < CAPACITY {
      assert Next(s, Offer(session, job))[session].queue != s[session].queue;
    }
  }

  /** What was accepted and begun is never forgotten or reordered. */
  lemma {:induction false} NothingForgotten(s: State, actions: seq<Action>, session: string)
    requires Inv(s) && session in s
    ensures session in Run(s, actions)
    ensures s[session].accepted <= Run(s, actions)[session].accepted
    ensures s[session].started <= Run(s, actions)[session].started
    decreases |actions|
  {
    if actions != [] {
      StepKeepsInv(s, actions[0]);
      NothingForgotten(Next(s, actions[0]), actions[1..], session);
    }
  }

  /** No accepted job is left behind: from every reachable state the session's worker can finish what
      it runs and go on until all that was accepted has begun. */
  lemma AllCanBegin(before: seq<Action>, session: string) returns (actions: seq<Action>)
    requires session in Run(map[], before)
    ensures var s := Run(map[], before);
      var s' := Run(s, actions);
      session in s' && s'[session].started == s[session].accepted
  {
    RunKeepsInv(map[], before);
    actions := WorkOff(Run(map[], before), session);
  }

  lemma {:induction false} WorkOff(s: State, session: string) returns (actions: seq<Action>)
    requires Inv(s) && session in s
    ensures session in Run(s, actions) && Run(s, actions)[session].started == s[session].accepted
    decreases |s[session].queue|, s[session].workers[0].Some?
  {
    var lane := s[session];
    if lane.workers[0].Some? {
      StepKeepsInv(s, Finish(session, 0));
      var rest := WorkOff(Next(s, Finish(session, 0)), session);
      actions := [Finish(session, 0)] + rest;
      assert actions[1..] == rest;
    } else if lane.queue != [] {
      StepKeepsInv(s, Take(session, 0));
      var rest := WorkOff(Next(s, Take(session, 0)), session);
      actions := [Take(session, 0)] + rest;
      assert actions[1..] == rest;
    } else {
      actions := [];
      assert lane.started + [] == lane.started;
    }
  }

  class SessionQueues {
    var lanes: State

    constructor ()
      ensures lanes == map[]
    {
      lanes := map[];
    }

    /** enqueue, first step: the first message of a session starts its worker. */
    method ResolveLane(session: string)
      requires Inv(lanes)
      modifies this
      ensures Inv(lanes) && lanes == Next(old(lanes), Resolve(session)) && session in lanes
    {
      if session !in lanes {
        lanes := lanes[session := Lane([], [None], [], [])];
      }
    }

    /** enqueue, second step: a send that never blocks. */
    method OfferJob(session: string, job: Job) returns (queued: bool)
      requires Inv(lanes) && session in lanes
      modifies this
      ensures Inv(lanes) && lanes == Next(old(lanes), Offer(session, job))
      ensures queued <==> |old(lanes)[session].queue| < CAPACITY
    {
      StepKeepsInv(lanes, Offer(session, job));
      var lane := lanes[session];
      queued := |lane.queue| < CAPACITY;
      if queued {
        lanes := lanes[session := lane.(queue := lane.queue + [job], accepted := lane.accepted + [job])];
      }
    }

    method TakeJob(session: string) returns (job: Job)
      requires Inv(lanes) && Enabled(lanes, Take(session, 0))
      modifies this
      ensures Inv(lanes) && lanes == Next(old(lanes), Take(session, 0))
      ensures job == old(lanes)[session].accepted[|old(lanes)[session].started|]
    {
      StepKeepsInv(lanes, Take(session, 0));
      var lane := lanes[session];
      job := lane.queue[0];
      lanes := lanes[session := lane.(queue := lane.queue[1..], workers := lane.workers[0 := Some(job)],
                                      started := lane.started + [job])];
    }

    method FinishJob(session: string)
      requires Inv(lanes) && Enabled(lanes, Finish(session, 0))
      modifies this
      ensures Inv(lanes) && lanes == Next(old(lanes), Finish(session, 0))
    {
      StepKeepsInv(lanes, Finish(session, 0));
      lanes := lanes[session := lanes[session].(workers := lanes[session].workers[0 := None])];
    }
  }
}
