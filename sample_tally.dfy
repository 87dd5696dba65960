/**
 * The report the annealing script prints for the best sample it gets back
 * (nfl_dwave.py:68-79): the selected indices are `Selected(sample)` (see
 * `Lineup.SelectedExactly`), and this loop adds up their points and salary
 * and counts how many players of each position were picked. The sample
 * itself is an arbitrary input here.
 */
module SampleTally {
  import opened Lineup

  /**
   * Walk the selected players in order, adding up points and salary and
   * counting positions with `positions.get(pos, 0) + 1`.
   */
  method Tally(ps: seq<Player>, selected: seq<nat>)
    returns (totalPoints: real, totalSalary: real, positions: map<string, int>)
    requires ValidIndices(ps, selected)
    ensures totalPoints == SumAt(ps, Points, selected)
    ensures totalSalary == SumAt(ps, Salary, selected)
    ensures positions.Keys == PositionsOf(ps, selected)
    ensures forall pos | pos in positions :: positions[pos] == CountAt(ps, selected, pos)
    ensures SumValues(positions) == |selected|
  {
    totalPoints, totalSalary := 0.0, 0.0;
    positions := map[];
    var t := 0;
    while t < |selected|
      invariant 0 <= t <= |selected|
      invariant totalPoints == SumAt(ps, Points, selected[..t])
      invariant totalSalary == SumAt(ps, Salary, selected[..t])
      invariant positions.Keys == PositionsOf(ps, selected[..t])
      invariant forall pos | pos in positions :: positions[pos] == CountAt(ps, selected[..t], pos)
      invariant SumValues(positions) == t
    {
      var i := selected[t];
      var pos := ps[i].position;
      CountStep(ps, selected, t, positions);
      SumAtStep(ps, Points, selected, t);
      SumAtStep(ps, Salary, selected, t);
      assert totalPoints + ps[i].points == SumAt(ps, Points, selected[..t + 1]);
      assert totalSalary + ps[i].salary == SumAt(ps, Salary, selected[..t + 1]);
      positions := positions[pos := (if pos in positions then positions[pos] else 0) + 1];
      totalPoints := totalPoints + ps[i].points;
      totalSalary := totalSalary + ps[i].salary;
      t := t + 1;
    }
    assert selected[..t] == selected;
  }

  /** The whole report for a sample: the selection of `Selected`, then `Tally`. */
  method Report(ps: seq<Player>, sample: seq<int>)
    returns (selected: seq<nat>, totalPoints: real, totalSalary: real, positions: map<string, int>)
    requires |sample| == |ps|
    ensures forall k :: k in selected <==> 0 <= k < |ps| && sample[k] == 1
    ensures forall s, t | 0 <= s < t < |selected| :: selected[s] < selected[t]
    ensures ValidIndices(ps, selected)
    ensures totalPoints == SumAt(ps, Points, selected)
    ensures totalSalary == SumAt(ps, Salary, selected)
    ensures positions.Keys == PositionsOf(ps, selected)
    ensures forall pos | pos in positions :: positions[pos] == CountAt(ps, selected, pos)
    ensures SumValues(positions) == |selected|
  {
    selected := Selected(sample);
    SelectedExactly(sample);
    assert forall t | 0 <= t < |selected| :: selected[t] in selected;
    totalPoints, totalSalary, positions := Tally(ps, selected);
  }
}
