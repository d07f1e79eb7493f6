/** Runs of a state machine: any sequence of steps. */
module Runs {

  function Run<S, A>(next: (S, A) -> S, s: S, actions: seq<A>): S
    decreases |actions|
  {
    if actions == [] then s else Run(next, next(s, actions[0]), actions[1..])
  }

  lemma {:induction false} RunSnoc<S, A>(next: (S, A) -> S, s: S, actions: seq<A>, a: A)
    ensures Run(next, s, actions + [a]) == next(Run(next, s, actions), a)
    decreases |actions|
  {
    if actions == [] {
      assert actions + [a] == [a] && [a][1..] == [];
    } else {
      assert (actions + [a])[1..] == actions[1..] + [a];
      RunSnoc(next, next(s, actions[0]), actions[1..], a);
    }
  }
}
