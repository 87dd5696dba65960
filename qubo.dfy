/**
 * The QUBO builder of the annealing script (nfl_dwave.py:26-57). A table of
 * coefficients keyed by index pairs (i, j) with i <= j starts at zero and is
 * changed in place by four passes: the negated objective, then the expanded
 * squares of the salary, positional-quota and team-size constraints, each
 * scaled by its penalty weight. The roster and the problem parameters,
 * module-level names in the script, are parameters here.
 */
module Qubo {
  import opened Lineup

  type Key = (int, int)

  /** A QUBO table: one coefficient per key. */
  type Table = map<Key, real>

  /** The problem parameters and penalty weights (nfl_dwave.py:12-22). */
  datatype Params = Params(
    budget: real, teamSize: int, quotas: Quotas,
    alpha: real, beta: real, gamma: real, delta: real)

  /** (i, j) is an upper-triangular pair of indices below n. */
  predicate Upper(n: int, k: Key) {
    0 <= k.0 <= k.1 < n
  }

  function UpperKeys(n: nat): set<Key> {
    set i, j | 0 <= i <= j < n :: (i, j)
  }

  lemma {:induction false} UpperKeysMember(n: nat)
    ensures forall k :: k in UpperKeys(n) <==> Upper(n, k)
  {
    forall k | Upper(n, k) ensures k in UpperKeys(n) {
      var (i, j) := k;
      assert (i, j) in UpperKeys(n);
    }
  }

  /** The pairs (i, c) with 0 <= i < m: part of one column of the table. */
  function Column(c: int, m: nat): set<Key> {
    set i | 0 <= i < m :: (i, c)
  }

  lemma {:induction false} ColumnSize(c: int, m: nat)
    ensures |Column(c, m)| == m
  {
    if m > 0 {
      assert Column(c, m) == Column(c, m - 1) + {(m - 1, c)};
      ColumnSize(c, m - 1);
    }
  }

  /** The keys below n + 1 are those below n and, disjoint from them, column n. */
  lemma {:induction false} UpperKeysSplit(n: nat)
    ensures UpperKeys(n + 1) == UpperKeys(n) + Column(n, n + 1)
    ensures UpperKeys(n) * Column(n, n + 1) == {}
  {
    UpperKeysMember(n + 1);
    UpperKeysMember(n);
  }

  lemma {:induction false} UpperKeysSize(n: nat)
    ensures 2 * |UpperKeys(n)| == n * (n + 1)
  {
    if n == 0 {
      assert UpperKeys(0) == {};
    } else {
      UpperKeysSplit(n - 1);
      ColumnSize(n - 1, n);
      assert |UpperKeys(n)| == |UpperKeys(n - 1)| + n;
      UpperKeysSize(n - 1);
      TriangleStep(|UpperKeys(n - 1)|, |UpperKeys(n)|, n);
    }
  }

  /** One more column of n keys: from 2u = (n - 1) n to 2(u + n) = n (n + 1). */
  lemma TriangleStep(u: int, v: int, n: int)
    requires 2 * u == (n - 1) * n && v == u + n
    ensures 2 * v == n * (n + 1)
  {
  }

  /**
   * The initial table of lines 27-28: a zero on every diagonal key (i, i),
   * updated with a zero on every key (i, j) with i < j. No other key exists.
   */
  function ZeroTable(n: nat): (q: Table)
    ensures q.Keys == UpperKeys(n)
    ensures forall k | k in q :: k.0 <= k.1 && q[k] == 0.0
    ensures |q| == n + n * (n - 1) / 2
  {
    var diag := map i | 0 <= i < n :: (i, i) := 0.0;
    var off := map i, j | 0 <= i < j < n :: (i, j) := 0.0;
    ZeroKeys(n, diag, off);
    UpperKeysSize(n);
    TriangleCount(n, |UpperKeys(n)|);
    diag + off
  }

  lemma {:induction false} ZeroKeys(n: nat, diag: Table, off: Table)
    requires diag == map i | 0 <= i < n :: (i, i) := 0.0
    requires off == map i, j | 0 <= i < j < n :: (i, j) := 0.0
    ensures (diag + off).Keys == UpperKeys(n)
  {
    UpperKeysMember(n);
    forall k | k in UpperKeys(n) ensures k in diag + off {
      var (i, j) := k;
      if i == j { assert (i, i) in diag; } else { assert (i, j) in off; }
    }
  }

  lemma {:induction false} TriangleCount(n: nat, u: nat)
    requires 2 * u == n * (n + 1)
    ensures u == n + n * (n - 1) / 2
  {
    assert n * (n - 1) == 2 * (u - n);
  }

  // The amount each pass adds to the coefficient of key k. Keys outside the
  // upper triangle are never written and get 0.

  /** Line 34: the diagonal entry of player i loses alpha times its points. */
  function ObjectiveDelta(ps: seq<Player>, alpha: real, k: Key): real {
    if Upper(|ps|, k) && k.0 == k.1 then -alpha * ps[k.0].points else 0.0
  }

  /** Lines 38-41: the expansion of beta * (Σ salary_i x_i - budget)^2 without its constant. */
  function SalaryDelta(ps: seq<Player>, beta: real, budget: real, k: Key): real {
    if !Upper(|ps|, k) then 0.0
    else if k.0 == k.1 then
      beta * (ps[k.0].salary * ps[k.0].salary) - 2.0 * beta * budget * ps[k.0].salary
    else 2.0 * beta * ps[k.0].salary * ps[k.1].salary
  }

  /** Lines 46-50 for one listed position `pos` with quota n. */
  function PositionDelta(ps: seq<Player>, pos: string, n: int, gamma: real, k: Key): real {
    if !Upper(|ps|, k) || ps[k.0].position != pos then 0.0
    else if k.0 == k.1 then gamma * (1.0 - 2.0 * (n as real))
    else if ps[k.1].position == pos then 2.0 * gamma
    else 0.0
  }

  /** Lines 44-50: the contributions of all listed positions, in order. */
  function PositionalDelta(ps: seq<Player>, quotas: Quotas, gamma: real, k: Key): real {
    if |quotas| == 0 then 0.0
    else
      var last := quotas[|quotas| - 1];
      PositionalDelta(ps, quotas[..|quotas| - 1], gamma, k) + PositionDelta(ps, last.0, last.1, gamma, k)
  }

  /** Lines 55-57: the expansion of delta * (Σ x_i - teamSize)^2 without its constant. */
  function TeamSizeDelta(ps: seq<Player>, delta: real, teamSize: int, k: Key): real {
    if !Upper(|ps|, k) then 0.0
    else if k.0 == k.1 then delta * (1.0 - 2.0 * (teamSize as real))
    else 2.0 * delta
  }

  /** The final coefficient of key k: the four passes added to zero. */
  function Coefficient(ps: seq<Player>, prm: Params, k: Key): real {
    ObjectiveDelta(ps, prm.alpha, k)
    + SalaryDelta(ps, prm.beta, prm.budget, k)
    + PositionalDelta(ps, prm.quotas, prm.gamma, k)
    + TeamSizeDelta(ps, prm.delta, prm.teamSize, k)
  }

  /** The objective pass (lines 33-34). */
  method AddObjective(q: Table, ps: seq<Player>, alpha: real) returns (r: Table)
    requires UpperKeys(|ps|) <= q.Keys
    ensures r.Keys == q.Keys
    ensures forall k | k in q :: r[k] == q[k] + ObjectiveDelta(ps, alpha, k)
  {
    UpperKeysMember(|ps|);
    r := q;
    var i := 0;
    while i < |ps|
      invariant 0 <= i <= |ps|
      invariant r.Keys == q.Keys
      invariant forall k | k in q :: r[k] == q[k] + (if k.0 < i then ObjectiveDelta(ps, alpha, k) else 0.0)
    {
      assert Upper(|ps|, (i, i));
      r := r[(i, i) := r[(i, i)] - alpha * ps[i].points];
      i := i + 1;
    }
  }

  /** The salary pass (lines 37-41). */
  method AddSalary(q: Table, ps: seq<Player>, beta: real, budget: real) returns (r: Table)
    requires UpperKeys(|ps|) <= q.Keys
    ensures r.Keys == q.Keys
    ensures forall k | k in q :: r[k] == q[k] + SalaryDelta(ps, beta, budget, k)
  {
    UpperKeysMember(|ps|);
    var n := |ps|;
    r := q;
    var i := 0;
    while i < n
      invariant 0 <= i <= n
      invariant r.Keys == q.Keys
      invariant forall k | k in q :: r[k] == q[k] + (if k.0 < i then SalaryDelta(ps, beta, budget, k) else 0.0)
    {
      var c := ps[i].salary;
      assert Upper(n, (i, i));
      var d := r[(i, i) := r[(i, i)] + beta * (c * c)];
      d := d[(i, i) := d[(i, i)] - 2.0 * beta * budget * c];
      assert d[(i, i)] == r[(i, i)] + SalaryDelta(ps, beta, budget, (i, i));
      r := AddSalaryRow(d, ps, beta, budget, i);
      i := i + 1;
    }
  }

  /** The inner loop of the salary pass (lines 40-41): row i above the diagonal. */
  method AddSalaryRow(q: Table, ps: seq<Player>, beta: real, budget: real, i: nat) returns (r: Table)
    requires i < |ps| && UpperKeys(|ps|) <= q.Keys
    ensures r.Keys == q.Keys
    ensures forall k | k in q :: r[k] == q[k] + (if k.0 == i && k.0 < k.1 then SalaryDelta(ps, beta, budget, k) else 0.0)
  {
    UpperKeysMember(|ps|);
    var n := |ps|;
    r := q;
    var j := i + 1;
    while j < n
      invariant i + 1 <= j <= n
      invariant r.Keys == q.Keys
      invariant forall k | k in q ::
        r[k] == q[k] + (if k.0 == i && i < k.1 < j then SalaryDelta(ps, beta, budget, k) else 0.0)
    {
      assert Upper(n, (i, j));
      r := r[(i, j) := r[(i, j)] + 2.0 * beta * ps[i].salary * ps[j].salary];
      j := j + 1;
    }
  }

  /** One iteration of the positional pass (lines 45-50), for position `pos` with quota n. */
  method AddPositionQuota(q: Table, ps: seq<Player>, pos: string, n: int, gamma: real) returns (r: Table)
    requires UpperKeys(|ps|) <= q.Keys
    ensures r.Keys == q.Keys
    ensures forall k | k in q :: r[k] == q[k] + PositionDelta(ps, pos, n, gamma, k)
  {
    UpperKeysMember(|ps|);
    var size := |ps|;
    r := q;
    var i := 0;
    while i < size
      invariant 0 <= i <= size
      invariant r.Keys == q.Keys
      invariant forall k | k in q :: r[k] == q[k] + (if k.0 < i then PositionDelta(ps, pos, n, gamma, k) else 0.0)
    {
      if ps[i].position == pos {
        assert Upper(size, (i, i));
        r := r[(i, i) := r[(i, i)] + gamma * (1.0 - 2.0 * (n as real))];
        var j := i + 1;
        while j < size
          invariant i + 1 <= j <= size
          invariant r.Keys == q.Keys
          invariant forall k | k in q ::
            r[k] == q[k] + (if k.0 < i || (k.0 == i && k.1 < j) then PositionDelta(ps, pos, n, gamma, k) else 0.0)
        {
          if ps[j].position == pos {
            assert Upper(size, (i, j));
            r := r[(i, j) := r[(i, j)] + 2.0 * gamma];
          }
          j := j + 1;
        }
      }
      i := i + 1;
    }
  }

  /** The positional pass (lines 43-50): one iteration per listed position, in order. */
  method AddPositional(q: Table, ps: seq<Player>, quotas: Quotas, gamma: real) returns (r: Table)
    requires UpperKeys(|ps|) <= q.Keys
    ensures r.Keys == q.Keys
    ensures forall k | k in q :: r[k] == q[k] + PositionalDelta(ps, quotas, gamma, k)
  {
    r := q;
    var t := 0;
    while t < |quotas|
      invariant 0 <= t <= |quotas|
      invariant r.Keys == q.Keys
      invariant forall k | k in q :: r[k] == q[k] + PositionalDelta(ps, quotas[..t], gamma, k)
    {
      var (pos, n) := quotas[t];
      var before := r;
      r := AddPositionQuota(r, ps, pos, n, gamma);
      assert quotas[..t + 1][..t] == quotas[..t];
      forall k | k in q
        ensures r[k] == q[k] + PositionalDelta(ps, quotas[..t + 1], gamma, k)
      {
        assert r[k] == before[k] + PositionDelta(ps, pos, n, gamma, k);
      }
      t := t + 1;
    }
    assert quotas[..t] == quotas;
  }

  /** The team-size pass (lines 54-57). */
  method AddTeamSize(q: Table, ps: seq<Player>, delta: real, teamSize: int) returns (r: Table)
    requires UpperKeys(|ps|) <= q.Keys
    ensures r.Keys == q.Keys
    ensures forall k | k in q :: r[k] == q[k] + TeamSizeDelta(ps, delta, teamSize, k)
  {
    UpperKeysMember(|ps|);
    var n := |ps|;
    r := q;
    var i := 0;
    while i < n
      invariant 0 <= i <= n
      invariant r.Keys == q.Keys
      invariant forall k | k in q :: r[k] == q[k] + (if k.0 < i then TeamSizeDelta(ps, delta, teamSize, k) else 0.0)
    {
      assert Upper(n, (i, i));
      r := r[(i, i) := r[(i, i)] + delta * (1.0 - 2.0 * (teamSize as real))];
      var j := i + 1;
      while j < n
        invariant i + 1 <= j <= n
        invariant r.Keys == q.Keys
        invariant forall k | k in q ::
          r[k] == q[k] + (if k.0 < i || (k.0 == i && k.1 < j) then TeamSizeDelta(ps, delta, teamSize, k) else 0.0)
      {
        assert Upper(n, (i, j));
        r := r[(i, j) := r[(i, j)] + 2.0 * delta];
        j := j + 1;
      }
      i := i + 1;
    }
  }

  /**
   * The whole builder (lines 26-57): the key set is the upper triangle, with
   * N + N(N-1)/2 entries, and every coefficient has its closed form.
   */
  method BuildQubo(ps: seq<Player>, prm: Params) returns (q: Table)
    ensures q.Keys == UpperKeys(|ps|)
    ensures |q| == |ps| + |ps| * (|ps| - 1) / 2
    ensures forall k | k in q :: k.0 <= k.1 && q[k] == Coefficient(ps, prm, k)
  {
    var q0 := ZeroTable(|ps|);
    var q1 := AddObjective(q0, ps, prm.alpha);
    var q2 := AddSalary(q1, ps, prm.beta, prm.budget);
    var q3 := AddPositional(q2, ps, prm.quotas, prm.gamma);
    q := AddTeamSize(q3, ps, prm.delta, prm.teamSize);
    ComposePasses(ps, prm, q0, q1, q2, q3, q);
    assert |q| == |q0|;
  }

  /** The four passes applied to the zero table give `Coefficient` on every key. */
  lemma {:induction false} ComposePasses(ps: seq<Player>, prm: Params, q0: Table, q1: Table, q2: Table, q3: Table, q: Table)
    requires forall k | k in q0 :: k.0 <= k.1 && q0[k] == 0.0
    requires q1.Keys == q0.Keys && forall k | k in q0 :: q1[k] == q0[k] + ObjectiveDelta(ps, prm.alpha, k)
    requires q2.Keys == q1.Keys && forall k | k in q1 :: q2[k] == q1[k] + SalaryDelta(ps, prm.beta, prm.budget, k)
    requires q3.Keys == q2.Keys && forall k | k in q2 :: q3[k] == q2[k] + PositionalDelta(ps, prm.quotas, prm.gamma, k)
    requires q.Keys == q3.Keys && forall k | k in q3 :: q[k] == q3[k] + TeamSizeDelta(ps, prm.delta, prm.teamSize, k)
    ensures forall k | k in q :: k.0 <= k.1 && q[k] == Coefficient(ps, prm, k)
  {
    forall k | k in q ensures k.0 <= k.1 && q[k] == Coefficient(ps, prm, k) {
      var o, s, p, t := ObjectiveDelta(ps, prm.alpha, k), SalaryDelta(ps, prm.beta, prm.budget, k),
        PositionalDelta(ps, prm.quotas, prm.gamma, k), TeamSizeDelta(ps, prm.delta, prm.teamSize, k);
      assert q[k] == q0[k] + o + s + p + t;
    }
  }

  /**
   * Two players of one position A, budget 9, quota A: 2, team size 2 and the
   * script's weights 1, 10, 100, 100: the coefficients the passes produce.
   */
  lemma {:induction false} ScenarioCoefficients()
    ensures var ps := [Player(0, "A", 10.0, 5.0), Player(1, "A", 8.0, 4.0)];
      var prm := Params(9.0, 2, [("A", 2)], 1.0, 10.0, 100.0, 100.0);
      && Coefficient(ps, prm, (0, 0)) == -1260.0
      && Coefficient(ps, prm, (1, 1)) == -1168.0
      && Coefficient(ps, prm, (0, 1)) == 800.0
      && Coefficient(ps, prm, (1, 0)) == 0.0
  {
    var quotas := [("A", 2)];
    assert quotas[..0] == [];
  }

  /** The positions of `positional_reqs` are distinct, as the keys of a dictionary are. */
  predicate DistinctPositions(quotas: Quotas) {
    forall s, t | 0 <= s < t < |quotas| :: quotas[s].0 != quotas[t].0
  }

  /**
   * A player p whose position is not listed gets no positional contribution
   * on any key it takes part in, as row (p, j) or as column (i, p).
   */
  lemma {:induction false} PositionalUnlisted(ps: seq<Player>, quotas: Quotas, gamma: real, p: nat, k: Key)
    requires Upper(|ps|, k) && (k.0 == p || k.1 == p)
    requires forall t | 0 <= t < |quotas| :: quotas[t].0 != ps[p].position
    ensures PositionalDelta(ps, quotas, gamma, k) == 0.0
  {
    if |quotas| > 0 {
      PositionalUnlisted(ps, quotas[..|quotas| - 1], gamma, p, k);
    }
  }

  /**
   * A player of listed position quotas[t] gets gamma * (1 - 2 n_t) on its
   * diagonal and 2 gamma on (i, j) exactly when player j has the same position.
   */
  lemma {:induction false} PositionalListed(ps: seq<Player>, quotas: Quotas, gamma: real, t: nat, i: nat, j: nat)
    requires DistinctPositions(quotas)
    requires t < |quotas| && i <= j < |ps| && quotas[t].0 == ps[i].position
    ensures PositionalDelta(ps, quotas, gamma, (i, j)) ==
      if i == j then gamma * (1.0 - 2.0 * (quotas[t].1 as real))
      else if ps[j].position == ps[i].position then 2.0 * gamma
      else 0.0
  {
    var init := quotas[..|quotas| - 1];
    if t == |quotas| - 1 {
      PositionalUnlisted(ps, init, gamma, i, (i, j));
    } else {
      PositionalListed(ps, init, gamma, t, i, j);
    }
  }
}
