/**
 * The integer-programming formulation of the lineup problem (nfl_pulp.py):
 * the objective and constraints handed to the solver, read as a function and
 * a predicate on a 0/1 assignment of the decision variables, and the report
 * built from the assignment the solver returns. The solver is not modelled:
 * nothing here says that the returned assignment is optimal or feasible.
 */
module LineupLp {
  import opened Lineup

  /** The objective `lpSum(points_i * x_i)` (line 23). */
  function Objective(ps: seq<Player>, x: seq<int>): real
    requires |x| == |ps|
  {
    Dot(ps, Points, x, 0)
  }

  /**
   * The constraints of lines 26, 29-30 and 34: total salary at most the
   * budget, exactly n_k players of every listed position, exactly
   * `teamSize` players in all. The variables are declared binary (line 20).
   */
  predicate Feasible(ps: seq<Player>, x: seq<int>, budget: real, quotas: Quotas, teamSize: int)
    requires |x| == |ps|
  {
    && IsBinary(x)
    && Dot(ps, Salary, x, 0) <= budget
    && QuotasMet(ps, x, quotas)
    && Dot(ps, One, x, 0) == teamSize as real
  }

  /** The quota constraints of lines 29-30: position k is taken exactly n_k times. */
  predicate QuotasMet(ps: seq<Player>, x: seq<int>, quotas: Quotas)
    requires |x| == |ps|
  {
    forall t | 0 <= t < |quotas| :: Dot(ps, OfPosition(quotas[t].0), x, 0) == quotas[t].1 as real
  }

  /**
   * The objective value is the total points of the selected players, which is
   * what line 41 reports as `total_points`.
   */
  lemma {:induction false} ObjectiveIsSelectedPoints(ps: seq<Player>, x: seq<int>)
    requires |x| == |ps|
    ensures ValidIndices(ps, Selected(x))
    ensures Objective(ps, x) == SumAt(ps, Points, Selected(x))
  {
    DotIsSumOverSelected(ps, Points, x, 0);
  }

  /**
   * Feasibility stated on the selected list: the reported salary total is
   * within budget, every listed position has exactly its quota among the
   * selected, and exactly `teamSize` players are selected.
   */
  lemma {:induction false} FeasibleIffSelection(ps: seq<Player>, x: seq<int>, budget: real, quotas: Quotas, teamSize: int)
    requires |x| == |ps| && IsBinary(x)
    ensures ValidIndices(ps, Selected(x))
    ensures Feasible(ps, x, budget, quotas, teamSize) <==>
      && SumAt(ps, Salary, Selected(x)) <= budget
      && (forall t | 0 <= t < |quotas| :: CountAt(ps, Selected(x), quotas[t].0) == quotas[t].1)
      && |Selected(x)| == teamSize
  {
    var sel := Selected(x);
    DotIsSumOverSelected(ps, Salary, x, 0);
    DotIsSumOverSelected(ps, One, x, 0);
    OnesSumIsLength(ps, sel);
    forall t | 0 <= t < |quotas|
      ensures Dot(ps, OfPosition(quotas[t].0), x, 0) == CountAt(ps, sel, quotas[t].0) as real
    {
      DotIsSumOverSelected(ps, OfPosition(quotas[t].0), x, 0);
      CountIsIndicatorSum(ps, sel, quotas[t].0);
    }
  }

  /**
   * The `positions_count` loop of lines 46-51: a position seen before is
   * incremented, a new one starts at 1.
   */
  method CountPositions(ps: seq<Player>, selected: seq<nat>) returns (counts: map<string, int>)
    requires ValidIndices(ps, selected)
    ensures counts.Keys == PositionsOf(ps, selected)
    ensures forall pos | pos in counts :: counts[pos] == CountAt(ps, selected, pos)
    ensures SumValues(counts) == |selected|
  {
    counts := map[];
    var t := 0;
    while t < |selected|
      invariant 0 <= t <= |selected|
      invariant counts.Keys == PositionsOf(ps, selected[..t])
      invariant forall pos | pos in counts :: counts[pos] == CountAt(ps, selected[..t], pos)
      invariant SumValues(counts) == t
    {
      var pos := ps[selected[t]].position;
      CountStep(ps, selected, t, counts);
      if pos in counts {
        counts := counts[pos := counts[pos] + 1];
      } else {
        counts := counts[pos := 1];
      }
      t := t + 1;
    }
    assert selected[..t] == selected;
  }

  /**
   * The report of lines 40-51 for the assignment the solver returns: the
   * indices whose value is 1, in ascending order, the totals over them, and
   * the per-position counts.
   */
  method Report(ps: seq<Player>, x: seq<int>)
    returns (selected: seq<nat>, totalPoints: real, totalSalary: real, counts: map<string, int>)
    requires |x| == |ps|
    ensures forall k :: k in selected <==> 0 <= k < |ps| && x[k] == 1
    ensures forall s, t | 0 <= s < t < |selected| :: selected[s] < selected[t]
    ensures ValidIndices(ps, selected)
    ensures totalPoints == SumAt(ps, Points, selected)
    ensures totalSalary == SumAt(ps, Salary, selected)
    ensures totalPoints == Objective(ps, x)
    ensures totalSalary == Dot(ps, Salary, x, 0)
    ensures counts.Keys == PositionsOf(ps, selected)
    ensures forall pos | pos in counts :: counts[pos] == CountAt(ps, selected, pos)
    ensures SumValues(counts) == |selected|
  {
    selected := Selected(x);
    SelectedExactly(x);
    ObjectiveIsSelectedPoints(ps, x);
    DotIsSumOverSelected(ps, Salary, x, 0);
    totalPoints := SumAt(ps, Points, selected);
    totalSalary := SumAt(ps, Salary, selected);
    counts := CountPositions(ps, selected);
  }
}
