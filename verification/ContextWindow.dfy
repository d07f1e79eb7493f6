/** The turns the model gets to see: the last `cap` turns, cut to a token budget. */
module ContextWindow {
  import opened SessionLog

  type Cost = Turn -> nat

  function LastTurns(cap: int, turns: seq<Turn>): seq<Turn> {
    if cap > 0 && |turns| > cap then turns[|turns| - cap..] else turns
  }

  function TotalCost(turns: seq<Turn>, cost: Cost): nat {
    if turns == [] then 0 else cost(turns[0]) + TotalCost(turns[1..], cost)
  }

  /** The longest suffix that the budget pays for. */
  function Fit(turns: seq<Turn>, budget: nat, cost: Cost): seq<Turn> {
    if TotalCost(turns, cost) <= budget then turns else Fit(turns[1..], budget, cost)
  }

  function Window(cap: int, budget: int, cost: Cost, turns: seq<Turn>): seq<Turn> {
    var recent := LastTurns(cap, turns);
    if budget > 0 then Fit(recent, budget, cost) else recent
  }

  lemma {:induction false} SuffixCost(turns: seq<Turn>, i: nat, cost: Cost)
    requires i <= |turns|
    ensures TotalCost(turns[i..], cost) <= TotalCost(turns, cost)
  {
    if i > 0 {
      SuffixCost(turns[1..], i - 1, cost);
      assert turns[1..][i - 1..] == turns[i..];
    }
  }

  /** The cut is where the budget stops paying. */
  lemma {:induction false} FitCutsAt(turns: seq<Turn>, cut: nat, budget: nat, cost: Cost)
    requires cut <= |turns|
    requires TotalCost(turns[cut..], cost) <= budget
    requires cut > 0 ==> TotalCost(turns[cut - 1..], cost) > budget
    ensures Fit(turns, budget, cost) == turns[cut..]
  {
    if cut > 0 {
      SuffixCost(turns, cut - 1, cost);
      assert turns[1..][cut - 1..] == turns[cut..];
      if cut > 1 {
        assert turns[1..][cut - 2..] == turns[cut - 1..];
      }
      FitCutsAt(turns[1..], cut - 1, budget, cost);
    }
  }

  /** The window under a budget is a suffix, the budget covers it, and no longer suffix fits. */
  lemma {:induction false} FitIsLongest(turns: seq<Turn>, budget: nat, cost: Cost)
    ensures var fit := Fit(turns, budget, cost);
      && |fit| <= |turns|
      && fit == turns[|turns| - |fit|..]
      && TotalCost(fit, cost) <= budget
      && forall i :: 0 <= i < |turns| - |fit| ==> TotalCost(turns[i..], cost) > budget
  {
    if TotalCost(turns, cost) > budget {
      FitIsLongest(turns[1..], budget, cost);
      forall i | 0 <= i < |turns| - |Fit(turns, budget, cost)|
        ensures TotalCost(turns[i..], cost) > budget
      {
        if i > 0 {
          assert turns[1..][i - 1..] == turns[i..];
        }
      }
    }
  }

  /** Whatever the budget cannot pay for from some turn on is behind the cut. */
  lemma {:induction false} FitSkips(turns: seq<Turn>, i: nat, budget: nat, cost: Cost)
    requires i < |turns| && TotalCost(turns[i..], cost) > budget
    ensures Fit(turns, budget, cost) == Fit(turns[i + 1..], budget, cost)
  {
    SuffixCost(turns, i, cost);
    if i > 0 {
      assert turns[1..][i - 1..] == turns[i..] && turns[1..][i..] == turns[i + 1..];
      FitSkips(turns[1..], i - 1, budget, cost);
    }
  }

  /** Two lists that agree behind one place, the first list's head already too dear: they show the
      same exactly when the second list's turn at that place is too dear as well. */
  lemma FitBehind(a: seq<Turn>, b: seq<Turn>, budget: nat, cost: Cost)
    requires 0 < |a| <= |b| && a[1..] == b[|b| - |a| + 1..]
    requires cost(a[0]) + TotalCost(a[1..], cost) > budget
    ensures Fit(a, budget, cost) == Fit(b, budget, cost)
        <==> cost(b[|b| - |a|]) + TotalCost(a[1..], cost) > budget
  {
    var i := |b| - |a|;
    assert b[i..][1..] == a[1..];
    FitIsLongest(b, budget, cost);
    FitIsLongest(a[1..], budget, cost);
    if TotalCost(b[i..], cost) > budget {
      FitSkips(b, i, budget, cost);
    }
  }

  /** Nothing is shown only when there is nothing, or the newest turn alone is too dear. */
  lemma FitEmpty(turns: seq<Turn>, budget: nat, cost: Cost)
    ensures Fit(turns, budget, cost) == [] <==> turns == [] || cost(turns[|turns| - 1]) > budget
  {
    FitIsLongest(turns, budget, cost);
    if turns != [] {
      var last := turns[|turns| - 1..];
      assert last == [turns[|turns| - 1]] && last[1..] == [];
      assert TotalCost(last, cost) == cost(turns[|turns| - 1]);
      if cost(turns[|turns| - 1]) > budget && Fit(turns, budget, cost) != [] {
        var fit := Fit(turns, budget, cost);
        assert fit[|fit| - 1..] == last;
        SuffixCost(fit, |fit| - 1, cost);
      }
    }
  }

  /** A larger budget never shows less. */
  lemma FitMonotone(turns: seq<Turn>, small: nat, large: nat, cost: Cost)
    requires small <= large
    ensures |Fit(turns, small, cost)| <= |Fit(turns, large, cost)|
  {
    FitIsLongest(turns, small, cost);
    FitIsLongest(turns, large, cost);
  }

  lemma {:induction false} TotalCostAdds(a: seq<Turn>, b: seq<Turn>, cost: Cost)
    ensures TotalCost(a + b, cost) == TotalCost(a, cost) + TotalCost(b, cost)
    ensures forall t :: TotalCost([t], cost) == cost(t)
  {
    if a == [] {
      assert a + b == b;
    } else {
      assert (a + b)[1..] == a[1..] + b;
      TotalCostAdds(a[1..], b, cost);
    }
  }

  /** What the configuration lets the model see. */
  predicate Allowed(cap: int, budget: int, cost: Cost, turns: seq<Turn>) {
    (cap > 0 ==> |turns| <= cap) && (budget > 0 ==> TotalCost(turns, cost) <= budget)
  }

  lemma WindowIsAllowed(cap: int, budget: int, cost: Cost, turns: seq<Turn>)
    ensures var window := Window(cap, budget, cost, turns);
      && |window| <= |LastTurns(cap, turns)| <= |turns| && window == turns[|turns| - |window|..]
      && Allowed(cap, budget, cost, window)
  {
    var recent := LastTurns(cap, turns);
    if budget > 0 {
      FitIsLongest(recent, budget, cost);
    }
    SuffixOfSuffix(turns, |turns| - |recent|, |recent| - |Window(cap, budget, cost, turns)|);
  }

  lemma LongerIsNotAllowed(cap: int, budget: int, cost: Cost, turns: seq<Turn>, i: nat)
    requires i < |turns| - |Window(cap, budget, cost, turns)|
    ensures !Allowed(cap, budget, cost, turns[i..])
  {
    var recent := LastTurns(cap, turns);
    var dropped := |turns| - |recent|;
    if i >= dropped {
      SuffixOfSuffix(turns, dropped, i - dropped);
      FitDrops(recent, i - dropped, budget, cost);
    }
  }

  lemma FitDrops(turns: seq<Turn>, i: nat, budget: nat, cost: Cost)
    requires i < |turns| - |Fit(turns, budget, cost)|
    ensures TotalCost(turns[i..], cost) > budget
  {
    FitIsLongest(turns, budget, cost);
  }

  /** The window is the longest suffix of the turns that is allowed. */
  lemma WindowIsLongest(cap: int, budget: int, cost: Cost, turns: seq<Turn>)
    ensures var window := Window(cap, budget, cost, turns);
      && |window| <= |turns| && window == turns[|turns| - |window|..]
      && Allowed(cap, budget, cost, window)
      && forall i :: 0 <= i < |turns| - |window| ==> !Allowed(cap, budget, cost, turns[i..])
  {
    WindowIsAllowed(cap, budget, cost, turns);
    forall i | 0 <= i < |turns| - |Window(cap, budget, cost, turns)|
      ensures !Allowed(cap, budget, cost, turns[i..])
    {
      LongerIsNotAllowed(cap, budget, cost, turns, i);
    }
  }

  lemma SuffixOfSuffix(turns: seq<Turn>, i: nat, j: nat)
    requires i + j <= |turns|
    ensures turns[i..][j..] == turns[i + j..]
  {
  }

  /** The token loop of GetContextTurns, newest turn first. */
  method BudgetCutoff(turns: seq<Turn>, budget: nat, cost: Cost) returns (cutoff: nat)
    ensures cutoff <= |turns| && Fit(turns, budget, cost) == turns[cutoff..]
  {
    var tokenCount := 0;
    cutoff := 0;
    var i := |turns|;
    while i > 0
      invariant 0 <= i <= |turns| && cutoff == 0
      invariant tokenCount == TotalCost(turns[i..], cost) <= budget
    {
      i := i - 1;
      assert turns[i..][0] == turns[i] && turns[i..][1..] == turns[i + 1..];
      tokenCount := tokenCount + cost(turns[i]);
      if tokenCount > budget {
        cutoff := i + 1;
        break;
      }
    }
    FitCutsAt(turns, cutoff, budget, cost);
  }

  method GetContextTurns(all: seq<Turn>, cap: int, budget: int, cost: Cost) returns (turns: seq<Turn>)
    ensures turns == Window(cap, budget, cost, all)
  {
    turns := all;
    if cap > 0 && |turns| > cap {
      turns := turns[|turns| - cap..];
    }
    if budget > 0 {
      var cutoff := BudgetCutoff(turns, budget, cost);
      turns := turns[cutoff..];
    }
  }
}
