/**
 * The roster of candidate players shared by both lineup scripts, and the
 * arithmetic both of them do over a 0/1 selection: weighted sums over the
 * decision variables (what an LP or QUBO solver sees), the list of selected
 * indices, and sums and counts over that list (what the scripts report).
 */
module Lineup {

  /** One candidate: the tuple (id, position, points, salary) of the scripts. */
  datatype Player = Player(id: int, position: string, points: real, salary: real)

  /**
   * Position quotas (position, n) in the order of `positional_reqs.items()`:
   * exactly n players of that position are wanted.
   */
  type Quotas = seq<(string, int)>

  /** Every decision variable is 0 or 1. */
  predicate IsBinary(x: seq<int>) {
    forall i | 0 <= i < |x| :: x[i] == 0 || x[i] == 1
  }

  /**
   * A per-player quantity that the scripts add up over a selection: points,
   * salary, 1 for the players of one position (a count), or 1 for everyone.
   */
  datatype Weight = Points | Salary | OfPosition(pos: string) | One

  function WeightOf(p: Player, wt: Weight): real {
    match wt
    case Points => p.points
    case Salary => p.salary
    case OfPosition(pos) => if p.position == pos then 1.0 else 0.0
    case One => 1.0
  }

  /**
   * Σ_{i <= l < |x|} wt(ps[l]) * x[l]: a linear expression over binary
   * decision variables, where the term wt(ps[l]) * x[l] is wt(ps[l]) when
   * x[l] is 1 and 0 when it is 0 (values other than 0 and 1 are never
   * assigned to them).
   */
  function Dot(ps: seq<Player>, wt: Weight, x: seq<int>, i: nat): real
    requires |x| == |ps|
    decreases |x| - i
  {
    if i >= |x| then 0.0 else (if x[i] == 1 then WeightOf(ps[i], wt) else 0.0) + Dot(ps, wt, x, i + 1)
  }

  /**
   * The indices i <= k < |sample| whose value is exactly 1, in ascending
   * order: the comprehension `[i for i in range(N) if sample[i] == 1]`.
   */
  function SelectedFrom(sample: seq<int>, i: nat): seq<nat>
    decreases |sample| - i
  {
    if i >= |sample| then []
    else (if sample[i] == 1 then [i] else []) + SelectedFrom(sample, i + 1)
  }

  function Selected(sample: seq<int>): seq<nat> {
    SelectedFrom(sample, 0)
  }

  /**
   * `SelectedFrom(sample, i)` lists exactly the indices from i on whose value
   * is 1, each once and in ascending order.
   */
  lemma {:induction false} SelectedFromExactly(sample: seq<int>, i: nat)
    ensures forall k :: k in SelectedFrom(sample, i) <==> i <= k < |sample| && sample[k] == 1
    ensures forall s, t | 0 <= s < t < |SelectedFrom(sample, i)| :: SelectedFrom(sample, i)[s] < SelectedFrom(sample, i)[t]
    decreases |sample| - i
  {
    if i < |sample| {
      SelectedFromExactly(sample, i + 1);
      var rest := SelectedFrom(sample, i + 1);
      if sample[i] == 1 {
        var sel := [i] + rest;
        assert SelectedFrom(sample, i) == sel;
        forall s, t | 0 <= s < t < |sel| ensures sel[s] < sel[t] {
          if s > 0 {
            assert sel[s] == rest[s - 1] && sel[t] == rest[t - 1];
          } else {
            assert sel[t] == rest[t - 1] && rest[t - 1] in rest;
          }
        }
      } else {
        assert SelectedFrom(sample, i) == rest;
      }
    }
  }

  /** `Selected` is exactly the ascending list of indices whose value is 1. */
  lemma {:induction false} SelectedExactly(sample: seq<int>)
    ensures forall k :: k in Selected(sample) <==> 0 <= k < |sample| && sample[k] == 1
    ensures forall s, t | 0 <= s < t < |Selected(sample)| :: Selected(sample)[s] < Selected(sample)[t]
  {
    SelectedFromExactly(sample, 0);
  }

  /** Every index of `sel` names a player. */
  predicate ValidIndices(ps: seq<Player>, sel: seq<nat>) {
    forall t | 0 <= t < |sel| :: sel[t] < |ps|
  }

  /** Σ_t wt(ps[sel[t]]): the total of a weight over the selected players. */
  function SumAt(ps: seq<Player>, wt: Weight, sel: seq<nat>): real
    requires ValidIndices(ps, sel)
  {
    if |sel| == 0 then 0.0 else SumAt(ps, wt, sel[..|sel| - 1]) + WeightOf(ps[sel[|sel| - 1]], wt)
  }

  /** The number of selected players whose position is `pos`. */
  function CountAt(ps: seq<Player>, sel: seq<nat>, pos: string): nat
    requires ValidIndices(ps, sel)
  {
    if |sel| == 0 then 0
    else CountAt(ps, sel[..|sel| - 1], pos) + (if ps[sel[|sel| - 1]].position == pos then 1 else 0)
  }

  /** The positions that occur among the selected players. */
  function PositionsOf(ps: seq<Player>, sel: seq<nat>): set<string>
    requires ValidIndices(ps, sel)
  {
    set t | 0 <= t < |sel| :: ps[sel[t]].position
  }

  /** The sum of m's values over the keys ks (the order of summation does not matter). */
  ghost function SumOver(m: map<string, int>, ks: set<string>): int
    requires ks <= m.Keys
  {
    if ks == {} then 0 else var k :| k in ks; m[k] + SumOver(m, ks - {k})
  }

  /** The sum of all the values of a map. */
  ghost function SumValues(m: map<string, int>): int {
    SumOver(m, m.Keys)
  }

  /** Any key may be taken out first. */
  lemma {:induction false} SumOverRemove(m: map<string, int>, ks: set<string>, k: string)
    requires ks <= m.Keys && k in ks
    ensures SumOver(m, ks) == m[k] + SumOver(m, ks - {k})
    decreases ks
  {
    var j :| j in ks && SumOver(m, ks) == m[j] + SumOver(m, ks - {j});
    if j != k {
      SumOverRemove(m, ks - {j}, k);
      SumOverRemove(m, ks - {k}, j);
      assert ks - {j} - {k} == ks - {k} - {j};
    }
  }

  /** The sum over ks depends only on the values at ks. */
  lemma {:induction false} SumOverAgree(m: map<string, int>, m': map<string, int>, ks: set<string>)
    requires ks <= m.Keys && ks <= m'.Keys
    requires forall k | k in ks :: m[k] == m'[k]
    ensures SumOver(m, ks) == SumOver(m', ks)
    decreases ks
  {
    if ks != {} {
      var j :| j in ks && SumOver(m, ks) == m[j] + SumOver(m, ks - {j});
      SumOverRemove(m', ks, j);
      SumOverAgree(m, m', ks - {j});
    }
  }

  /** Incrementing or inserting one key changes the sum by the same amount. */
  lemma {:induction false} SumValuesUpdate(m: map<string, int>, k: string, v: int)
    ensures SumValues(m[k := v]) == SumValues(m) - (if k in m then m[k] else 0) + v
  {
    var m' := m[k := v];
    SumOverRemove(m', m'.Keys, k);
    if k in m {
      SumOverRemove(m, m.Keys, k);
      assert m'.Keys - {k} == m.Keys - {k};
      SumOverAgree(m, m', m.Keys - {k});
    } else {
      assert m'.Keys - {k} == m.Keys;
      SumOverAgree(m, m', m.Keys);
    }
  }

  lemma {:induction false} SumAtCons(ps: seq<Player>, wt: Weight, i: nat, sel: seq<nat>)
    requires i < |ps| && ValidIndices(ps, sel)
    ensures ValidIndices(ps, [i] + sel)
    ensures SumAt(ps, wt, [i] + sel) == WeightOf(ps[i], wt) + SumAt(ps, wt, sel)
    decreases |sel|
  {
    if |sel| > 0 {
      assert ([i] + sel)[..|sel|] == [i] + sel[..|sel| - 1];
      SumAtCons(ps, wt, i, sel[..|sel| - 1]);
    }
  }

  /**
   * The linear expression Σ wt(ps[l]) x_l equals the total of the weight over
   * the selected indices (both read x_l as selected exactly when it is 1).
   */
  lemma {:induction false} DotIsSumOverSelected(ps: seq<Player>, wt: Weight, x: seq<int>, i: nat)
    requires |x| == |ps|
    ensures ValidIndices(ps, SelectedFrom(x, i))
    ensures Dot(ps, wt, x, i) == SumAt(ps, wt, SelectedFrom(x, i))
    decreases |x| - i
  {
    if i < |x| {
      DotIsSumOverSelected(ps, wt, x, i + 1);
      var rest := SelectedFrom(x, i + 1);
      if x[i] == 1 {
        assert SelectedFrom(x, i) == [i] + rest;
        SumAtCons(ps, wt, i, rest);
      } else {
        assert SelectedFrom(x, i) == [] + rest == rest;
      }
    }
  }

  /** The per-position count read as a real is the total of the position's indicator. */
  lemma {:induction false} CountIsIndicatorSum(ps: seq<Player>, sel: seq<nat>, pos: string)
    requires ValidIndices(ps, sel)
    ensures CountAt(ps, sel, pos) as real == SumAt(ps, OfPosition(pos), sel)
  {
    if |sel| > 0 {
      CountIsIndicatorSum(ps, sel[..|sel| - 1], pos);
    }
  }

  /** The total of the constant weight 1 over a selection is its length. */
  lemma {:induction false} OnesSumIsLength(ps: seq<Player>, sel: seq<nat>)
    requires ValidIndices(ps, sel)
    ensures SumAt(ps, One, sel) == |sel| as real
  {
    if |sel| > 0 {
      OnesSumIsLength(ps, sel[..|sel| - 1]);
    }
  }

  /** Counts over a prefix: appending one index updates exactly one count. */
  lemma {:induction false} PositionsOfSnoc(ps: seq<Player>, sel: seq<nat>, t: nat)
    requires ValidIndices(ps, sel) && t < |sel|
    ensures PositionsOf(ps, sel[..t + 1]) == PositionsOf(ps, sel[..t]) + {ps[sel[t]].position}
  {
    var a, b := sel[..t + 1], sel[..t];
    forall p | p in PositionsOf(ps, a) ensures p in PositionsOf(ps, b) + {ps[sel[t]].position} {
      var s :| 0 <= s < |a| && ps[a[s]].position == p;
      if s < t { assert ps[b[s]].position == p; }
    }
    forall p | p in PositionsOf(ps, b) ensures p in PositionsOf(ps, a) {
      var s :| 0 <= s < |b| && ps[b[s]].position == p;
      assert ps[a[s]].position == p;
    }
    assert ps[a[t]].position in PositionsOf(ps, a);
  }

  /** A position that does not occur among the selected has count 0. */
  lemma {:induction false} CountAbsent(ps: seq<Player>, sel: seq<nat>, pos: string)
    requires ValidIndices(ps, sel) && pos !in PositionsOf(ps, sel)
    ensures CountAt(ps, sel, pos) == 0
  {
    if |sel| > 0 {
      var init := sel[..|sel| - 1];
      forall p | p in PositionsOf(ps, init) ensures p in PositionsOf(ps, sel) {
        var s :| 0 <= s < |init| && ps[init[s]].position == p;
        assert ps[sel[s]].position == p;
      }
      assert ps[sel[|sel| - 1]].position in PositionsOf(ps, sel);
      CountAbsent(ps, init, pos);
    }
  }

  /**
   * One step of a position tally: counting the player at sel[t] into a map
   * that holds the counts of sel[..t] gives the counts of sel[..t + 1].
   */
  lemma {:induction false} CountStep(ps: seq<Player>, sel: seq<nat>, t: nat, m: map<string, int>)
    requires ValidIndices(ps, sel) && t < |sel|
    requires m.Keys == PositionsOf(ps, sel[..t])
    requires forall p | p in m :: m[p] == CountAt(ps, sel[..t], p)
    ensures var pos := ps[sel[t]].position;
            var m' := m[pos := (if pos in m then m[pos] else 0) + 1];
            && m'.Keys == PositionsOf(ps, sel[..t + 1])
            && (forall p | p in m' :: m'[p] == CountAt(ps, sel[..t + 1], p))
            && SumValues(m') == SumValues(m) + 1
  {
    var pos := ps[sel[t]].position;
    assert sel[..t + 1][..t] == sel[..t];
    PositionsOfSnoc(ps, sel, t);
    if pos !in m {
      CountAbsent(ps, sel[..t], pos);
    }
    SumValuesUpdate(m, pos, (if pos in m then m[pos] else 0) + 1);
  }

  /** One step of a running total over a selection. */
  lemma {:induction false} SumAtStep(ps: seq<Player>, wt: Weight, sel: seq<nat>, t: nat)
    requires ValidIndices(ps, sel) && t < |sel|
    ensures ValidIndices(ps, sel[..t]) && ValidIndices(ps, sel[..t + 1])
    ensures SumAt(ps, wt, sel[..t + 1]) == SumAt(ps, wt, sel[..t]) + WeightOf(ps[sel[t]], wt)
  {
    assert sel[..t + 1][..t] == sel[..t];
  }
}
