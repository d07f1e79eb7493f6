/** Duplicate events: a table of message ids with the time each was first seen, and a purge of
    entries that have grown old. Handlers run concurrently, so the purge's look at an entry and
    its removal of that key are separate steps. */
module DiscordDedup {
  import Runs

  const TTL: int := 300_000_000_000

  /** An event let through: its id, the time stamp its handler read, and when it was let through. */
  datatype Accepted = Accepted(id: string, stamp: int, at: int)

  /** `condemned` holds what purges have found old and not yet removed; `rash` says that a removal
      once hit an entry that was not old. */
  datatype State = State(
    now: int,
    seen: map<string, int>,
    condemned: multiset<(string, int)>,
    accepted: seq<Accepted>,
    rash: bool)

  const INIT := State(0, map[], multiset{}, [], false)

  datatype Action =
    | Advance(dt: nat)
    | Event(id: string, stamp: int)
    | Look(id: string)
    | Delete(id: string, stamp: int)

  predicate Enabled(s: State, a: Action) {
    match a
    case Advance(_) => true
    case Event(_, stamp) => stamp <= s.now
    case Look(id) => id in s.seen && s.now - s.seen[id] > TTL
    case Delete(id, stamp) => (id, stamp) in s.condemned
  }

  /** The entry of `id` is younger than the window. */
  predicate Fresh(s: State, id: string) {
    id in s.seen && s.now - s.seen[id] <= TTL
  }

  function Next(s: State, a: Action): State {
    if !Enabled(s, a) then s else
    match a
    case Advance(dt) => s.(now := s.now + dt)
    case Event(id, stamp) =>
      if id in s.seen then s
      else s.(seen := s.seen[id := stamp], accepted := s.accepted + [Accepted(id, stamp, s.now)])
    case Look(id) => s.(condemned := s.condemned + multiset{(id, s.seen[id])})
    case Delete(id, stamp) =>
      s.(seen := s.seen - {id}, condemned := s.condemned - multiset{(id, stamp)}, rash := s.rash || Fresh(s, id))
  }

  function Run(s: State, actions: seq<Action>): State {
    Runs.Run(Next, s, actions)
  }

  /** Two accepted events with one id: the later is let through more than the window after the
      stamp of the earlier. */
  predicate Spaced(accepted: seq<Accepted>) {
    forall i, j :: 0 <= i < j < |accepted| && accepted[i].id == accepted[j].id ==>
      accepted[j].at - accepted[i].stamp > TTL
  }

  /** Whatever was accepted within the window is still in the table. */
  predicate Covered(s: State) {
    forall i :: 0 <= i < |s.accepted| ==>
      s.now - s.accepted[i].stamp > TTL ||
      (s.accepted[i].id in s.seen && s.seen[s.accepted[i].id] == s.accepted[i].stamp)
  }

  /** Every entry is that of an accepted event. */
  predicate Grounded(s: State) {
    forall id :: id in s.seen ==> exists i :: 0 <= i < |s.accepted| && IsEntry(s.accepted[i], id, s.seen[id])
  }

  predicate IsEntry(e: Accepted, id: string, stamp: int) {
    e.id == id && e.stamp == stamp
  }

  ghost predicate Inv(s: State) {
    Grounded(s) && (!s.rash ==> Covered(s) && Spaced(s.accepted))
  }

  lemma StepKeepsInv(s: State, a: Action)
    requires Inv(s)
    ensures Inv(Next(s, a))
  {
    var s' := Next(s, a);
    forall id | id in s'.seen
      ensures exists i :: 0 <= i < |s'.accepted| && IsEntry(s'.accepted[i], id, s'.seen[id])
    {
      if id in s.seen && s.seen[id] == s'.seen[id] {
        var i :| 0 <= i < |s.accepted| && IsEntry(s.accepted[i], id, s.seen[id]);
        assert IsEntry(s'.accepted[i], id, s'.seen[id]);
      } else {
        assert IsEntry(s'.accepted[|s.accepted|], id, s'.seen[id]);
      }
    }
  }

  lemma {:induction false} RunKeepsInv(s: State, actions: seq<Action>)
    requires Inv(s)
    ensures Inv(Run(s, actions))
    decreases |actions|
  {
    if actions != [] {
      StepKeepsInv(s, actions[0]);
      RunKeepsInv(Next(s, actions[0]), actions[1..]);
    }
  }

  predicate Condemned(s: State, id: string) {
    exists p :: p in s.condemned && p.0 == id
  }

  /** Purges do not overlap on an id: none looks at an id that another has condemned. */
  ghost predicate Serial(s: State, actions: seq<Action>)
    decreases |actions|
  {
    actions != [] ==>
      && (actions[0].Look? && Enabled(s, actions[0]) ==> !Condemned(s, actions[0].id))
      && Serial(Next(s, actions[0]), actions[1..])
  }

  /** Each condemned entry is still the entry of its id, old, and condemned once. */
  ghost predicate Doomed(s: State) {
    forall p :: p in s.condemned ==>
      s.condemned[p] == 1 && p.0 in s.seen && s.seen[p.0] == p.1 && s.now - p.1 > TTL
  }

  lemma SerialStep(s: State, a: Action)
    requires Doomed(s) && (a.Look? && Enabled(s, a) ==> !Condemned(s, a.id))
    ensures Doomed(Next(s, a)) && Next(s, a).rash == s.rash
  {
  }

  /** A condition on the schedule that keeps removals off fresh entries: as long as purges do not
      overlap on an id, as under a lock around the purge, accepted duplicates are spaced. */
  lemma {:induction false} SerialPurgesSuffice(s: State, actions: seq<Action>)
    requires Inv(s) && !s.rash && Doomed(s) && Serial(s, actions)
    ensures !Run(s, actions).rash && Spaced(Run(s, actions).accepted)
    decreases |actions|
  {
    if actions != [] {
      SerialStep(s, actions[0]);
      StepKeepsInv(s, actions[0]);
      SerialPurgesSuffice(Next(s, actions[0]), actions[1..]);
    }
  }

  /** In every run in which no removal hits a fresh entry, and in every run in which purges do
      not overlap on an id, accepted duplicates are spaced. */
  lemma DuplicatesSpaced(actions: seq<Action>)
    requires !Run(INIT, actions).rash || Serial(INIT, actions)
    ensures Spaced(Run(INIT, actions).accepted)
  {
    RunKeepsInv(INIT, actions);
    if Serial(INIT, actions) {
      SerialPurgesSuffice(INIT, actions);
    }
  }

  /** The condition is exact at every removal: a removal that hits no fresh entry keeps accepted
      events spaced; after one that does, the next event with that id is let through too soon. */
  lemma RemovalExact(actions: seq<Action>, id: string, stamp: int)
    requires !Run(INIT, actions).rash && Enabled(Run(INIT, actions), Delete(id, stamp))
    ensures var s := Run(INIT, actions);
      var s' := Next(s, Delete(id, stamp));
      Spaced(Next(s', Event(id, s.now)).accepted) <==> !Fresh(s, id)
  {
    RunKeepsInv(INIT, actions);
    var s := Run(INIT, actions);
    StepKeepsInv(s, Delete(id, stamp));
    var s' := Next(s, Delete(id, stamp));
    StepKeepsInv(s', Event(id, s.now));
    if Fresh(s, id) {
      var i :| 0 <= i < |s.accepted| && IsEntry(s.accepted[i], id, s.seen[id]);
      var after := Next(s', Event(id, s.now)).accepted;
      assert after[i] == s.accepted[i] && after[|s.accepted|] == Accepted(id, s.now, s.now);
    }
  }

  /** An event whose id was never let through is let through, and one whose entry is still in the
      table is not. */
  lemma FirstIsAccepted(actions: seq<Action>, id: string, stamp: int)
    requires stamp <= Run(INIT, actions).now
    ensures var s := Run(INIT, actions);
      var s' := Next(s, Event(id, stamp));
      && ((forall i :: 0 <= i < |s.accepted| ==> s.accepted[i].id != id)
            ==> s'.accepted == s.accepted + [Accepted(id, stamp, s.now)])
      && (id in s.seen ==> s' == s)
  {
    RunKeepsInv(INIT, actions);
  }

  /** An id that was let through comes in again once it is older than the window and purged, and not
      a moment before. */
  lemma PurgeReadmits(actions: seq<Action>, id: string, dt: nat)
    requires id in Run(INIT, actions).seen
    ensures var s := Next(Run(INIT, actions), Advance(dt));
      var stamp := s.seen[id];
      var s' := Next(Next(Next(s, Look(id)), Delete(id, stamp)), Event(id, s.now));
      (id, stamp) in s.condemned
      || (s'.accepted == s.accepted + [Accepted(id, s.now, s.now)] <==> s.now > stamp + 300 * 1_000_000_000)
  {
    RunKeepsInv(INIT, actions);
  }

  /** Such a removal can happen: two purges see one old entry, the first removes it, the id comes
      again, and the second removes the new entry. */
  lemma RashRemovalHappens(id: string) returns (actions: seq<Action>)
    ensures !Spaced(Run(INIT, actions).accepted)
  {
    var late := TTL + 1;
    actions := [];
    var s := INIT;
    s, actions := Then(s, actions, Event(id, 0));
    s, actions := Then(s, actions, Advance(late));
    s, actions := Then(s, actions, Look(id));
    s, actions := Then(s, actions, Look(id));
    s, actions := Then(s, actions, Delete(id, 0));
    s, actions := Then(s, actions, Event(id, late));
    s, actions := Then(s, actions, Delete(id, 0));
    s, actions := Then(s, actions, Event(id, late));
    assert s.accepted == [Accepted(id, 0, 0), Accepted(id, late, late), Accepted(id, late, late)];
    assert s.accepted[2].at - s.accepted[1].stamp == 0;
  }

  lemma Then(s: State, actions: seq<Action>, a: Action) returns (s': State, actions': seq<Action>)
    requires s == Run(INIT, actions)
    ensures s' == Next(s, a) == Run(INIT, actions') && actions' == actions + [a]
  {
    Runs.RunSnoc(Next, INIT, actions, a);
    s', actions' := Next(s, a), actions + [a];
  }

  // ----- the object -----

  class Deduplicator {
    var seen: map<string, int>
    ghost var now: int
    ghost var condemned: multiset<(string, int)>
    ghost var accepted: seq<Accepted>
    ghost var rash: bool

    ghost function Abs(): State
      reads this
    {
      State(now, seen, condemned, accepted, rash)
    }

    constructor ()
      ensures Abs() == INIT && Inv(Abs())
    {
      seen, now, condemned, accepted, rash := map[], 0, multiset{}, [], false;
    }

    /** LoadOrStore of the id; new events go on to be handled. */
    method OnMessage(id: string, stamp: int) returns (isNew: bool)
      requires Inv(Abs()) && stamp <= now
      modifies this`seen, this`accepted
      ensures Inv(Abs()) && Abs() == Next(old(Abs()), Event(id, stamp))
      ensures isNew <==> accepted == old(accepted) + [Accepted(id, stamp, now)]
    {
      StepKeepsInv(Abs(), Event(id, stamp));
      isNew := id !in seen;
      if isNew {
        seen := seen[id := stamp];
        accepted := accepted + [Accepted(id, stamp, now)];
      }
    }

    /** The purge looks at one entry, at time `clock` ... */
    method PurgeLook(id: string, clock: int) returns (stale: bool, stamp: int)
      requires Inv(Abs()) && id in seen && clock == now
      modifies this`condemned
      ensures Inv(Abs()) && Abs() == Next(old(Abs()), Look(id))
      ensures stamp == seen[id] && (stale <==> clock - stamp > TTL)
      ensures stale ==> Enabled(Abs(), Delete(id, stamp))
    {
      StepKeepsInv(Abs(), Look(id));
      stamp := seen[id];
      stale := clock - stamp > TTL;
      if stale {
        condemned := condemned + multiset{(id, stamp)};
      }
    }

    /** ... and removes the key if what it saw was old. */
    method PurgeDelete(id: string, ghost stamp: int)
      requires Inv(Abs()) && Enabled(Abs(), Delete(id, stamp))
      modifies this`seen, this`condemned, this`rash
      ensures Inv(Abs()) && Abs() == Next(old(Abs()), Delete(id, stamp))
    {
      StepKeepsInv(Abs(), Delete(id, stamp));
      rash := rash || Fresh(Abs(), id);
      seen := seen - {id};
      condemned := condemned - multiset{(id, stamp)};
    }
  }
}
