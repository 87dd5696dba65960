/**
 * What the table built by `Qubo.BuildQubo` means to the sampler that
 * minimises it. The energy of an assignment x is Σ_{(i,j) ∈ Q} Q[(i,j)] x_i x_j;
 * it is the sum of what the four passes contribute, and each contribution
 * has a closed form: the negated, weighted objective, and the three weighted
 * squared penalties, each less its constant term. On the selections that
 * satisfy the integer program the penalties are at their least, and the
 * energy ranks those of equal salary by points.
 *
 * Throughout, x_i is read as "player i is selected" exactly when it is 1,
 * which is the product reading for the 0/1 values a sampler returns.
 */
module QuboEnergy {
  import opened Lineup
  import opened Qubo
  import LineupLp

  /** Coefficients of a quadratic form, one per pair of indices. */
  type Coefs = (int, int) -> real

  /** The coefficient tables the energy is taken over: a stored table, and what each pass adds. */
  datatype Pass =
    | Stored(q: Table)
    | ObjectivePass(ps: seq<Player>, alpha: real)
    | SalaryPass(ps: seq<Player>, beta: real, budget: real)
    | PositionPass(ps: seq<Player>, pos: string, n: int, gamma: real)
    | PositionalPass(ps: seq<Player>, quotas: Quotas, gamma: real)
    | TeamSizePass(ps: seq<Player>, delta: real, teamSize: int)
    | AllPasses(ps: seq<Player>, prm: Params)
    | Penalty(ps: seq<Player>, wt: Weight, b: real)

  /**
   * The coefficients of (Σ w_i x_i - b)^2 - b^2 once x_i^2 is replaced by x_i,
   * with w_i = wt(ps[i]): w_i (w_i - 2b) on the diagonal and 2 w_i w_j above it.
   */
  function PenaltyCoef(ps: seq<Player>, wt: Weight, b: real, i: int, j: int): real {
    if !(0 <= i <= j < |ps|) then 0.0
    else if i == j then WeightOf(ps[i], wt) * (WeightOf(ps[i], wt) - 2.0 * b)
    else 2.0 * WeightOf(ps[i], wt) * WeightOf(ps[j], wt)
  }

  /** The coefficient of x_i x_j; a stored table has 0 off its keys. */
  function Coef(p: Pass, i: int, j: int): real {
    match p
    case Stored(q) => if (i, j) in q then q[(i, j)] else 0.0
    case ObjectivePass(ps, alpha) => ObjectiveDelta(ps, alpha, (i, j))
    case SalaryPass(ps, beta, budget) => SalaryDelta(ps, beta, budget, (i, j))
    case PositionPass(ps, pos, n, gamma) => PositionDelta(ps, pos, n, gamma, (i, j))
    case PositionalPass(ps, quotas, gamma) => PositionalDelta(ps, quotas, gamma, (i, j))
    case TeamSizePass(ps, delta, teamSize) => TeamSizeDelta(ps, delta, teamSize, (i, j))
    case AllPasses(ps, prm) => Coefficient(ps, prm, (i, j))
    case Penalty(ps, wt, b) => PenaltyCoef(ps, wt, b, i, j)
  }

  function CoefsOf(p: Pass): Coefs {
    (i, j) => Coef(p, i, j)
  }

  /**
   * Σ_{l <= m < |x|} c(a, m) x_a x_m: row a of the upper triangle from column
   * l on. For 0/1 values the product x_a x_m is 1 exactly when both are 1.
   */
  function RowForm(c: Coefs, x: seq<int>, a: nat, l: nat): real
    requires a < |x|
    decreases |x| - l
  {
    if l >= |x| then 0.0
    else (if x[a] == 1 && x[l] == 1 then c(a, l) else 0.0) + RowForm(c, x, a, l + 1)
  }

  /** Σ_{a <= i <= j < |x|} c(i, j) x_i x_j: the upper triangle from row a on. */
  function QuadForm(c: Coefs, x: seq<int>, a: nat): real
    decreases |x| - a
  {
    if a >= |x| then 0.0 else RowForm(c, x, a, a) + QuadForm(c, x, a + 1)
  }

  /** What the coefficients of p contribute to the energy of x. */
  function Form(p: Pass, x: seq<int>): real {
    QuadForm(CoefsOf(p), x, 0)
  }

  /**
   * The energy of assignment x: Σ q[(i,j)] x_i x_j over the keys (i, j) with
   * i <= j < |x|, which for a table over `UpperKeys(|x|)` is every key.
   */
  function Energy(q: Table, x: seq<int>): real {
    Form(Stored(q), x)
  }

  lemma {:induction false} RowFormAdd(c: Coefs, c1: Coefs, c2: Coefs, x: seq<int>, a: nat, l: nat)
    requires a < |x|
    requires forall m | l <= m < |x| :: c(a, m) == c1(a, m) + c2(a, m)
    ensures RowForm(c, x, a, l) == RowForm(c1, x, a, l) + RowForm(c2, x, a, l)
    decreases |x| - l
  {
    if l < |x| {
      RowFormAdd(c, c1, c2, x, a, l + 1);
    }
  }

  /** Adding two coefficient functions on the upper triangle from row a adds their quadratic forms. */
  lemma {:induction false} QuadFormAddFrom(c: Coefs, c1: Coefs, c2: Coefs, x: seq<int>, a: nat)
    requires forall i, j | a <= i <= j < |x| :: c(i, j) == c1(i, j) + c2(i, j)
    ensures QuadForm(c, x, a) == QuadForm(c1, x, a) + QuadForm(c2, x, a)
    decreases |x| - a
  {
    if a < |x| {
      RowFormAdd(c, c1, c2, x, a, a);
      QuadFormAddFrom(c, c1, c2, x, a + 1);
    }
  }

  /** s times a sum, spread over its two parts. */
  lemma {:induction false} ScaleStep(s: real, t: real, r: real, total: real)
    requires total == t + r
    ensures s * total == s * t + s * r
  {
  }

  lemma {:induction false} RowFormScale(c: Coefs, c1: Coefs, s: real, x: seq<int>, a: nat, l: nat)
    requires a < |x|
    requires forall m | l <= m < |x| :: c(a, m) == s * c1(a, m)
    ensures RowForm(c, x, a, l) == s * RowForm(c1, x, a, l)
    decreases |x| - l
  {
    if l < |x| {
      RowFormScale(c, c1, s, x, a, l + 1);
      if x[a] == 1 && x[l] == 1 {
        ScaleStep(s, c1(a, l), RowForm(c1, x, a, l + 1), RowForm(c1, x, a, l));
      } else {
        ScaleStep(s, 0.0, RowForm(c1, x, a, l + 1), RowForm(c1, x, a, l));
      }
    }
  }

  /** Scaling the coefficients on the upper triangle from row a scales the quadratic form. */
  lemma {:induction false} QuadFormScaleFrom(c: Coefs, c1: Coefs, s: real, x: seq<int>, a: nat)
    requires forall i, j | a <= i <= j < |x| :: c(i, j) == s * c1(i, j)
    ensures QuadForm(c, x, a) == s * QuadForm(c1, x, a)
    decreases |x| - a
  {
    if a < |x| {
      RowFormScale(c, c1, s, x, a, a);
      QuadFormScaleFrom(c, c1, s, x, a + 1);
      ScaleStep(s, RowForm(c1, x, a, a), QuadForm(c1, x, a + 1), QuadForm(c1, x, a));
    }
  }

  /** The quadratic form only reads its coefficients on the upper triangle. */
  lemma {:induction false} QuadFormAgree(c1: Coefs, c2: Coefs, x: seq<int>)
    requires forall i, j | 0 <= i <= j < |x| :: c1(i, j) == c2(i, j)
    ensures QuadForm(c1, x, 0) == QuadForm(c2, x, 0)
  {
    QuadFormScaleFrom(c1, c2, 1.0, x, 0);
  }

  /** Adding two coefficient functions adds their quadratic forms. */
  lemma {:induction false} QuadFormAdd(c: Coefs, c1: Coefs, c2: Coefs, x: seq<int>)
    requires forall i, j | 0 <= i <= j < |x| :: c(i, j) == c1(i, j) + c2(i, j)
    ensures QuadForm(c, x, 0) == QuadForm(c1, x, 0) + QuadForm(c2, x, 0)
  {
    QuadFormAddFrom(c, c1, c2, x, 0);
  }

  /** Four coefficient functions added pointwise: the quadratic forms add. */
  lemma {:induction false} QuadFormAdd4(c: Coefs, c1: Coefs, c2: Coefs, c3: Coefs, c4: Coefs, x: seq<int>)
    requires forall i, j | 0 <= i <= j < |x| :: c(i, j) == c1(i, j) + c2(i, j) + c3(i, j) + c4(i, j)
    ensures QuadForm(c, x, 0) == QuadForm(c1, x, 0) + QuadForm(c2, x, 0) + QuadForm(c3, x, 0) + QuadForm(c4, x, 0)
  {
    var c12: Coefs := (i, j) => c1(i, j) + c2(i, j);
    var c123: Coefs := (i, j) => c12(i, j) + c3(i, j);
    QuadFormAdd(c12, c1, c2, x);
    QuadFormAdd(c123, c12, c3, x);
    QuadFormAdd(c, c123, c4, x);
  }

  /** Row a of the penalty coefficients past the diagonal: 2 w_a times the rest of the sum. */
  lemma {:induction false} PenaltyRow(ps: seq<Player>, wt: Weight, b: real, x: seq<int>, a: nat, l: nat)
    requires |x| == |ps| && a < l && a < |x|
    ensures RowForm(CoefsOf(Penalty(ps, wt, b)), x, a, l) ==
      if x[a] == 1 then 2.0 * WeightOf(ps[a], wt) * Dot(ps, wt, x, l) else 0.0
    decreases |x| - l
  {
    if l < |x| {
      PenaltyRow(ps, wt, b, x, a, l + 1);
      PenaltyRowStep(ps, wt, b, x, a, l);
    }
  }

  /** One step of `PenaltyRow`: player l adds 2 w_a w_l when both a and l are selected. */
  lemma {:induction false} PenaltyRowStep(ps: seq<Player>, wt: Weight, b: real, x: seq<int>, a: nat, l: nat)
    requires |x| == |ps| && a < l < |x|
    requires RowForm(CoefsOf(Penalty(ps, wt, b)), x, a, l + 1) ==
      if x[a] == 1 then 2.0 * WeightOf(ps[a], wt) * Dot(ps, wt, x, l + 1) else 0.0
    ensures RowForm(CoefsOf(Penalty(ps, wt, b)), x, a, l) ==
      if x[a] == 1 then 2.0 * WeightOf(ps[a], wt) * Dot(ps, wt, x, l) else 0.0
  {
    if x[a] == 1 {
      PenaltyRowScale(ps, wt, x, a, l);
      assert Coef(Penalty(ps, wt, b), a, l) == 2.0 * WeightOf(ps[a], wt) * WeightOf(ps[l], wt);
    }
  }

  /** 2 w_a times the sum from l: the term of player l and 2 w_a times the sum past it. */
  lemma {:induction false} PenaltyRowScale(ps: seq<Player>, wt: Weight, x: seq<int>, a: nat, l: nat)
    requires |x| == |ps| && a < |x| && l < |x|
    ensures var k := 2.0 * WeightOf(ps[a], wt);
      k * Dot(ps, wt, x, l) == (if x[l] == 1 then k * WeightOf(ps[l], wt) else 0.0) + k * Dot(ps, wt, x, l + 1)
  {
    var k := 2.0 * WeightOf(ps[a], wt);
    if x[l] == 1 {
      ScaleStep(k, WeightOf(ps[l], wt), Dot(ps, wt, x, l + 1), Dot(ps, wt, x, l));
    } else {
      ScaleStep(k, 0.0, Dot(ps, wt, x, l + 1), Dot(ps, wt, x, l));
    }
  }

  /**
   * One row of `PenaltyQuadForm`: with the first term w of the sum s = w + d
   * selected, its diagonal w (w - 2b), the rest of its row 2wd and the rows
   * below d (d - 2b) add up to s (s - 2b).
   */
  lemma {:induction false} SquareStep(w: real, d: real, b: real, s: real, row: real, rest: real)
    requires s == w + d && row == w * (w - 2.0 * b) + 2.0 * w * d && rest == d * (d - 2.0 * b)
    ensures row + rest == s * (s - 2.0 * b)
  {
  }

  /** Equal sums have equal penalties. */
  lemma {:induction false} SameSquare(u: real, v: real, b: real)
    requires u == v
    ensures u * (u - 2.0 * b) == v * (v - 2.0 * b)
  {
  }

  /** The whole row of a selected player a: its diagonal w (w - 2b) and 2w times the rest of the sum. */
  lemma {:induction false} PenaltyFullRow(ps: seq<Player>, wt: Weight, b: real, x: seq<int>, a: nat)
    requires |x| == |ps| && a < |x| && x[a] == 1
    ensures var w := WeightOf(ps[a], wt);
      RowForm(CoefsOf(Penalty(ps, wt, b)), x, a, a) == w * (w - 2.0 * b) + 2.0 * w * Dot(ps, wt, x, a + 1)
  {
    PenaltyRow(ps, wt, b, x, a, a + 1);
    var w := WeightOf(ps[a], wt);
    assert Coef(Penalty(ps, wt, b), a, a) == w * (w - 2.0 * b);
  }

  /** With player a selected, S_a = w + S_(a+1), so S_a (S_a - 2b) expands into the three parts of `SquareStep`. */
  lemma {:induction false} PenaltyExpand(ps: seq<Player>, wt: Weight, b: real, x: seq<int>, a: nat)
    requires |x| == |ps| && a < |x| && x[a] == 1
    ensures var w, d := WeightOf(ps[a], wt), Dot(ps, wt, x, a + 1);
      Dot(ps, wt, x, a) * (Dot(ps, wt, x, a) - 2.0 * b) == (w * (w - 2.0 * b) + 2.0 * w * d) + d * (d - 2.0 * b)
  {
    var w, d := WeightOf(ps[a], wt), Dot(ps, wt, x, a + 1);
    SquareStep(w, d, b, Dot(ps, wt, x, a), w * (w - 2.0 * b) + 2.0 * w * d, d * (d - 2.0 * b));
  }

  /**
   * One step of `PenaltyQuadForm` for a selected player a: its diagonal
   * w (w - 2b) and the rest of its row 2wd, added to the rows below,
   * d (d - 2b), give s (s - 2b) for s = w + d.
   */
  lemma {:induction false} PenaltyStepOn(ps: seq<Player>, wt: Weight, b: real, x: seq<int>, a: nat)
    requires |x| == |ps| && a < |x| && x[a] == 1
    requires QuadForm(CoefsOf(Penalty(ps, wt, b)), x, a + 1) == Dot(ps, wt, x, a + 1) * (Dot(ps, wt, x, a + 1) - 2.0 * b)
    ensures QuadForm(CoefsOf(Penalty(ps, wt, b)), x, a) == Dot(ps, wt, x, a) * (Dot(ps, wt, x, a) - 2.0 * b)
  {
    PenaltyFullRow(ps, wt, b, x, a);
    PenaltyExpand(ps, wt, b, x, a);
  }

  /** One step of `PenaltyQuadForm` for an unselected player a: its row is zero and the sum unchanged. */
  lemma {:induction false} PenaltyStepOff(ps: seq<Player>, wt: Weight, b: real, x: seq<int>, a: nat)
    requires |x| == |ps| && a < |x| && x[a] != 1
    requires QuadForm(CoefsOf(Penalty(ps, wt, b)), x, a + 1) == Dot(ps, wt, x, a + 1) * (Dot(ps, wt, x, a + 1) - 2.0 * b)
    ensures QuadForm(CoefsOf(Penalty(ps, wt, b)), x, a) == Dot(ps, wt, x, a) * (Dot(ps, wt, x, a) - 2.0 * b)
  {
    var c := CoefsOf(Penalty(ps, wt, b));
    PenaltyRow(ps, wt, b, x, a, a + 1);
    assert RowForm(c, x, a, a) == 0.0;
    SameSquare(Dot(ps, wt, x, a), Dot(ps, wt, x, a + 1), b);
  }

  /**
   * The penalty coefficients give back S (S - 2b) with S = Σ w_i x_i, which
   * is (S - b)^2 - b^2 (see `PenaltyMinimum`).
   */
  lemma {:induction false} PenaltyQuadForm(ps: seq<Player>, wt: Weight, b: real, x: seq<int>, a: nat)
    requires |x| == |ps|
    ensures QuadForm(CoefsOf(Penalty(ps, wt, b)), x, a) == Dot(ps, wt, x, a) * (Dot(ps, wt, x, a) - 2.0 * b)
    decreases |x| - a
  {
    if a < |x| {
      PenaltyQuadForm(ps, wt, b, x, a + 1);
      PenaltyStep(ps, wt, b, x, a);
    }
  }

  /** One step of `PenaltyQuadForm`, player a selected or not. */
  lemma {:induction false} PenaltyStep(ps: seq<Player>, wt: Weight, b: real, x: seq<int>, a: nat)
    requires |x| == |ps| && a < |x|
    requires QuadForm(CoefsOf(Penalty(ps, wt, b)), x, a + 1) == Dot(ps, wt, x, a + 1) * (Dot(ps, wt, x, a + 1) - 2.0 * b)
    ensures QuadForm(CoefsOf(Penalty(ps, wt, b)), x, a) == Dot(ps, wt, x, a) * (Dot(ps, wt, x, a) - 2.0 * b)
  {
    if x[a] == 1 {
      PenaltyStepOn(ps, wt, b, x, a);
    } else {
      PenaltyStepOff(ps, wt, b, x, a);
    }
  }

  lemma {:induction false} ObjectiveRow(ps: seq<Player>, alpha: real, x: seq<int>, a: nat, l: nat)
    requires |x| == |ps| && a < l && a < |x|
    ensures RowForm(CoefsOf(ObjectivePass(ps, alpha)), x, a, l) == 0.0
    decreases |x| - l
  {
    if l < |x| {
      ObjectiveRow(ps, alpha, x, a, l + 1);
    }
  }

  /** The objective pass contributes -alpha * Σ points_i x_i. */
  lemma {:induction false} ObjectiveQuadForm(ps: seq<Player>, alpha: real, x: seq<int>, a: nat)
    requires |x| == |ps|
    ensures QuadForm(CoefsOf(ObjectivePass(ps, alpha)), x, a) == -alpha * Dot(ps, Points, x, a)
    decreases |x| - a
  {
    if a < |x| {
      ObjectiveQuadForm(ps, alpha, x, a + 1);
      ObjectiveRow(ps, alpha, x, a, a + 1);
      if x[a] == 1 {
        ScaleStep(-alpha, ps[a].points, Dot(ps, Points, x, a + 1), Dot(ps, Points, x, a));
      } else {
        ScaleStep(-alpha, 0.0, Dot(ps, Points, x, a + 1), Dot(ps, Points, x, a));
      }
    }
  }

  /** The salary pass is beta times the penalty coefficients of the salary against the budget. */
  lemma {:induction false} SalaryCoefs(ps: seq<Player>, beta: real, budget: real)
    ensures forall i, j :: CoefsOf(SalaryPass(ps, beta, budget))(i, j) == beta * CoefsOf(Penalty(ps, Salary, budget))(i, j)
  {
    forall i, j ensures CoefsOf(SalaryPass(ps, beta, budget))(i, j) == beta * CoefsOf(Penalty(ps, Salary, budget))(i, j) {
      if 0 <= i == j < |ps| {
        var s := ps[i].salary;
        assert beta * (s * s) - 2.0 * beta * budget * s == beta * (s * (s - 2.0 * budget));
      }
    }
  }

  /** The salary pass contributes beta * S (S - 2 budget), S the selected salary. */
  lemma {:induction false} SalaryQuadForm(ps: seq<Player>, beta: real, budget: real, x: seq<int>)
    requires |x| == |ps|
    ensures var s := Dot(ps, Salary, x, 0);
      Form(SalaryPass(ps, beta, budget), x) == beta * (s * (s - 2.0 * budget))
  {
    SalaryScaled(ps, beta, budget, x);
    PenaltyQuadForm(ps, Salary, budget, x, 0);
  }

  /** The salary pass contributes beta times what the salary penalty does. */
  lemma {:induction false} SalaryScaled(ps: seq<Player>, beta: real, budget: real, x: seq<int>)
    ensures Form(SalaryPass(ps, beta, budget), x) == beta * Form(Penalty(ps, Salary, budget), x)
  {
    SalaryCoefs(ps, beta, budget);
    QuadFormScaleFrom(CoefsOf(SalaryPass(ps, beta, budget)), CoefsOf(Penalty(ps, Salary, budget)), beta, x, 0);
  }

  /** The team-size pass is delta times the penalty coefficients of the count against teamSize. */
  lemma {:induction false} TeamSizeCoefs(ps: seq<Player>, delta: real, teamSize: int)
    ensures forall i, j :: CoefsOf(TeamSizePass(ps, delta, teamSize))(i, j) == delta * CoefsOf(Penalty(ps, One, teamSize as real))(i, j)
  {
  }

  /** The team-size pass contributes delta * N (N - 2 teamSize), N the number selected. */
  lemma {:induction false} TeamSizeQuadForm(ps: seq<Player>, delta: real, teamSize: int, x: seq<int>)
    requires |x| == |ps|
    ensures var n, t := Dot(ps, One, x, 0), teamSize as real;
      Form(TeamSizePass(ps, delta, teamSize), x) == delta * (n * (n - 2.0 * t))
  {
    TeamSizeScaled(ps, delta, teamSize, x);
    PenaltyQuadForm(ps, One, teamSize as real, x, 0);
  }

  /** The team-size pass contributes delta times what the count penalty does. */
  lemma {:induction false} TeamSizeScaled(ps: seq<Player>, delta: real, teamSize: int, x: seq<int>)
    ensures Form(TeamSizePass(ps, delta, teamSize), x) == delta * Form(Penalty(ps, One, teamSize as real), x)
  {
    TeamSizeCoefs(ps, delta, teamSize);
    QuadFormScaleFrom(CoefsOf(TeamSizePass(ps, delta, teamSize)), CoefsOf(Penalty(ps, One, teamSize as real)), delta, x, 0);
  }

  /**
   * Σ_t c_t (c_t - 2 n_t) over the listed positions, c_t the count of
   * position t in the selection: Σ_t (c_t - n_t)^2 less Σ_t n_t^2.
   */
  function QuotaPenalty(ps: seq<Player>, quotas: Quotas, x: seq<int>): real
    requires |x| == |ps|
  {
    if |quotas| == 0 then 0.0
    else
      var (pos, n) := quotas[|quotas| - 1];
      var c := Dot(ps, OfPosition(pos), x, 0);
      QuotaPenalty(ps, quotas[..|quotas| - 1], x) + c * (c - 2.0 * n as real)
  }

  /** One listed position's pass is gamma times the penalty coefficients of its count against n. */
  lemma {:induction false} PositionCoefs(ps: seq<Player>, pos: string, n: int, gamma: real)
    ensures forall i, j :: CoefsOf(PositionPass(ps, pos, n, gamma))(i, j) == gamma * CoefsOf(Penalty(ps, OfPosition(pos), n as real))(i, j)
  {
  }

  /** One listed position contributes gamma * c (c - 2n), c the count selected. */
  lemma {:induction false} PositionQuadForm(ps: seq<Player>, pos: string, n: int, gamma: real, x: seq<int>)
    requires |x| == |ps|
    ensures var c := Dot(ps, OfPosition(pos), x, 0);
      Form(PositionPass(ps, pos, n, gamma), x) == gamma * (c * (c - 2.0 * n as real))
  {
    PositionScaled(ps, pos, n, gamma, x);
    PenaltyQuadForm(ps, OfPosition(pos), n as real, x, 0);
  }

  /** One listed position's pass contributes gamma times what its count penalty does. */
  lemma {:induction false} PositionScaled(ps: seq<Player>, pos: string, n: int, gamma: real, x: seq<int>)
    ensures Form(PositionPass(ps, pos, n, gamma), x) == gamma * Form(Penalty(ps, OfPosition(pos), n as real), x)
  {
    PositionCoefs(ps, pos, n, gamma);
    QuadFormScaleFrom(CoefsOf(PositionPass(ps, pos, n, gamma)), CoefsOf(Penalty(ps, OfPosition(pos), n as real)), gamma, x, 0);
  }

  /** The positional table splits into its last position and the ones before. */
  lemma {:induction false} PositionalSplit(ps: seq<Player>, quotas: Quotas, gamma: real, x: seq<int>)
    requires |quotas| > 0
    ensures var (pos, n) := quotas[|quotas| - 1];
      Form(PositionalPass(ps, quotas, gamma), x)
      == Form(PositionalPass(ps, quotas[..|quotas| - 1], gamma), x) + Form(PositionPass(ps, pos, n, gamma), x)
  {
    var (pos, n) := quotas[|quotas| - 1];
    QuadFormAdd(CoefsOf(PositionalPass(ps, quotas, gamma)), CoefsOf(PositionalPass(ps, quotas[..|quotas| - 1], gamma)),
      CoefsOf(PositionPass(ps, pos, n, gamma)), x);
  }

  /** With no listed position the positional table is zero. */
  lemma {:induction false} PositionalNone(ps: seq<Player>, gamma: real, x: seq<int>)
    ensures Form(PositionalPass(ps, [], gamma), x) == 0.0
  {
    var zero := CoefsOf(PositionalPass(ps, [], gamma));
    QuadFormScaleFrom(zero, zero, 0.0, x, 0);
  }

  lemma {:induction false} Distrib(g: real, p1: real, p2: real)
    ensures g * p1 + g * p2 == g * (p1 + p2)
  {
  }

  /** The positional pass contributes gamma * Σ_t c_t (c_t - 2 n_t). */
  lemma {:induction false} PositionalQuadForm(ps: seq<Player>, quotas: Quotas, gamma: real, x: seq<int>)
    requires |x| == |ps|
    ensures Form(PositionalPass(ps, quotas, gamma), x) == gamma * QuotaPenalty(ps, quotas, x)
  {
    if |quotas| == 0 {
      PositionalNone(ps, gamma, x);
    } else {
      var init := quotas[..|quotas| - 1];
      var (pos, n) := quotas[|quotas| - 1];
      PositionalQuadForm(ps, init, gamma, x);
      PositionQuadForm(ps, pos, n, gamma, x);
      PositionalSplit(ps, quotas, gamma, x);
      var c := Dot(ps, OfPosition(pos), x, 0);
      Distrib(gamma, QuotaPenalty(ps, init, x), c * (c - 2.0 * n as real));
    }
  }

  /** The final coefficients' form is the sum of the four passes' forms. */
  lemma {:induction false} CoefficientSplit(ps: seq<Player>, prm: Params, x: seq<int>)
    ensures Form(AllPasses(ps, prm), x) ==
      Form(ObjectivePass(ps, prm.alpha), x)
      + Form(SalaryPass(ps, prm.beta, prm.budget), x)
      + Form(PositionalPass(ps, prm.quotas, prm.gamma), x)
      + Form(TeamSizePass(ps, prm.delta, prm.teamSize), x)
  {
    QuadFormAdd4(CoefsOf(AllPasses(ps, prm)), CoefsOf(ObjectivePass(ps, prm.alpha)),
      CoefsOf(SalaryPass(ps, prm.beta, prm.budget)), CoefsOf(PositionalPass(ps, prm.quotas, prm.gamma)),
      CoefsOf(TeamSizePass(ps, prm.delta, prm.teamSize)), x);
  }

  /** A table holding `Coefficient` on the upper triangle has the energy of `Coefficient`. */
  lemma {:induction false} TableEnergy(ps: seq<Player>, prm: Params, q: Table, x: seq<int>)
    requires |x| == |ps|
    requires q.Keys == UpperKeys(|ps|)
    requires forall k | k in q :: q[k] == Coefficient(ps, prm, k)
    ensures Energy(q, x) == Form(AllPasses(ps, prm), x)
  {
    UpperKeysMember(|ps|);
    forall i, j | 0 <= i <= j < |x| ensures Coef(Stored(q), i, j) == Coef(AllPasses(ps, prm), i, j) {
      assert (i, j) in q;
    }
    QuadFormAgree(CoefsOf(Stored(q)), CoefsOf(AllPasses(ps, prm)), x);
  }

  /**
   * The energy identity: the energy of a table built by `BuildQubo` is the
   * sum of what the four passes contribute. These are
   *   -alpha * P                         (`ObjectiveQuadForm`)
   *   beta * S (S - 2B)                  (`SalaryQuadForm`)
   *   gamma * Σ_t c_t (c_t - 2 n_t)      (`PositionalQuadForm`)
   *   delta * N (N - 2T)                 (`TeamSizeQuadForm`)
   * with P the points, S the salary, c_t the count of listed position t and
   * N the number of players selected. By `PenaltyMinimum` each penalty
   * u (u - 2v) is the square (u - v)^2 less the constant v^2.
   */
  lemma {:induction false} EnergyIdentity(ps: seq<Player>, prm: Params, q: Table, x: seq<int>)
    requires |x| == |ps|
    requires q.Keys == UpperKeys(|ps|)
    requires forall k | k in q :: q[k] == Coefficient(ps, prm, k)
    ensures Energy(q, x) ==
      Form(ObjectivePass(ps, prm.alpha), x)
      + Form(SalaryPass(ps, prm.beta, prm.budget), x)
      + Form(PositionalPass(ps, prm.quotas, prm.gamma), x)
      + Form(TeamSizePass(ps, prm.delta, prm.teamSize), x)
  {
    TableEnergy(ps, prm, q, x);
    CoefficientSplit(ps, prm, x);
  }

  /**
   * The energy identity in closed form: the energy of a 0/1 assignment is
   * -alpha P + beta S (S - 2B) + gamma Σ_t c_t (c_t - 2 n_t) + delta N (N - 2T).
   */
  lemma {:induction false} EnergyClosedForm(ps: seq<Player>, prm: Params, q: Table, x: seq<int>)
    requires |x| == |ps|
    requires q.Keys == UpperKeys(|ps|)
    requires forall k | k in q :: q[k] == Coefficient(ps, prm, k)
    ensures var s, n, t := Dot(ps, Salary, x, 0), Dot(ps, One, x, 0), prm.teamSize as real;
      Energy(q, x) ==
        -prm.alpha * LineupLp.Objective(ps, x)
        + prm.beta * (s * (s - 2.0 * prm.budget))
        + prm.gamma * QuotaPenalty(ps, prm.quotas, x)
        + prm.delta * (n * (n - 2.0 * t))
  {
    EnergyIdentity(ps, prm, q, x);
    PassesClosedForm(ps, prm, x);
  }

  /** The four passes' contributions, each in closed form. */
  lemma {:induction false} PassesClosedForm(ps: seq<Player>, prm: Params, x: seq<int>)
    requires |x| == |ps|
    ensures var s, n, t := Dot(ps, Salary, x, 0), Dot(ps, One, x, 0), prm.teamSize as real;
      Form(ObjectivePass(ps, prm.alpha), x)
      + Form(SalaryPass(ps, prm.beta, prm.budget), x)
      + Form(PositionalPass(ps, prm.quotas, prm.gamma), x)
      + Form(TeamSizePass(ps, prm.delta, prm.teamSize), x)
      ==
        -prm.alpha * LineupLp.Objective(ps, x)
        + prm.beta * (s * (s - 2.0 * prm.budget))
        + prm.gamma * QuotaPenalty(ps, prm.quotas, x)
        + prm.delta * (n * (n - 2.0 * t))
  {
    ObjectiveSalaryClosedForm(ps, prm, x);
    QuotaTeamClosedForm(ps, prm, x);
  }

  /** The objective and salary passes in closed form: -alpha P + beta S (S - 2B). */
  lemma {:induction false} ObjectiveSalaryClosedForm(ps: seq<Player>, prm: Params, x: seq<int>)
    requires |x| == |ps|
    ensures var s := Dot(ps, Salary, x, 0);
      Form(ObjectivePass(ps, prm.alpha), x) + Form(SalaryPass(ps, prm.beta, prm.budget), x)
      == -prm.alpha * LineupLp.Objective(ps, x) + prm.beta * (s * (s - 2.0 * prm.budget))
  {
    ObjectiveQuadForm(ps, prm.alpha, x, 0);
    SalaryQuadForm(ps, prm.beta, prm.budget, x);
  }

  /** The positional and team-size passes in closed form: gamma Σ_t c_t (c_t - 2 n_t) + delta N (N - 2T). */
  lemma {:induction false} QuotaTeamClosedForm(ps: seq<Player>, prm: Params, x: seq<int>)
    requires |x| == |ps|
    ensures var n, t := Dot(ps, One, x, 0), prm.teamSize as real;
      Form(PositionalPass(ps, prm.quotas, prm.gamma), x) + Form(TeamSizePass(ps, prm.delta, prm.teamSize), x)
      == prm.gamma * QuotaPenalty(ps, prm.quotas, x) + prm.delta * (n * (n - 2.0 * t))
  {
    PositionalQuadForm(ps, prm.quotas, prm.gamma, x);
    TeamSizeQuadForm(ps, prm.delta, prm.teamSize, x);
  }

  /** The product of two positive numbers is positive. */
  lemma {:induction false} PositiveProduct(a: real, b: real)
    requires a > 0.0 && b > 0.0
    ensures a * b > 0.0
  {
  }

  /** The product of two negative numbers is positive. */
  lemma {:induction false} NegativeProduct(a: real, b: real)
    requires a < 0.0 && b < 0.0
    ensures a * b > 0.0
  {
  }

  /** u (u - 2v) + v^2 is (u - v)^2, written as the product of two copies a, b of u - v. */
  lemma {:induction false} GapProduct(u: real, v: real, a: real, b: real)
    requires a == u - v && b == u - v
    ensures u * (u - 2.0 * v) + v * v == a * b
  {
  }

  /** The penalty u (u - 2v) = (u - v)^2 - v^2 is least, at -v^2, exactly when u = v. */
  lemma {:induction false} PenaltyMinimum(u: real, v: real)
    ensures u * (u - 2.0 * v) >= -(v * v)
    ensures u * (u - 2.0 * v) == -(v * v) <==> u == v
  {
    var a, b := u - v, u - v;
    GapProduct(u, v, a, b);
    if u > v {
      PositiveProduct(a, b);
    } else if u < v {
      NegativeProduct(a, b);
    }
  }

  /** A positive weight keeps a lower bound and the case of equality. */
  lemma {:induction false} ScaledBound(g: real, p: real, m: real)
    requires g > 0.0 && p >= m
    ensures g * p >= g * m
    ensures g * p == g * m <==> p == m
  {
    if p > m {
      assert g * (p - m) > 0.0;
    }
  }

  /**
   * With a positive weight, the salary pass is least, at -beta B^2, exactly
   * for the selections whose salary equals the budget.
   */
  lemma {:induction false} SalaryMinimum(ps: seq<Player>, beta: real, budget: real, x: seq<int>)
    requires |x| == |ps| && beta > 0.0
    ensures Form(SalaryPass(ps, beta, budget), x) >= beta * -(budget * budget)
    ensures Form(SalaryPass(ps, beta, budget), x) == beta * -(budget * budget)
      <==> Dot(ps, Salary, x, 0) == budget
  {
    var s := Dot(ps, Salary, x, 0);
    SalaryQuadForm(ps, beta, budget, x);
    PenaltyMinimum(s, budget);
    ScaledBound(beta, s * (s - 2.0 * budget), -(budget * budget));
  }

  /**
   * With a positive weight, the team-size pass is least, at -delta T^2,
   * exactly for the selections of `teamSize` players.
   */
  lemma {:induction false} TeamSizeMinimum(ps: seq<Player>, delta: real, teamSize: int, x: seq<int>)
    requires |x| == |ps| && delta > 0.0
    ensures var t := teamSize as real;
      Form(TeamSizePass(ps, delta, teamSize), x) >= delta * -(t * t)
    ensures var t := teamSize as real;
      Form(TeamSizePass(ps, delta, teamSize), x) == delta * -(t * t)
      <==> Dot(ps, One, x, 0) == t
  {
    var n, t := Dot(ps, One, x, 0), teamSize as real;
    TeamSizeQuadForm(ps, delta, teamSize, x);
    PenaltyMinimum(n, t);
    ScaledBound(delta, n * (n - 2.0 * t), -(t * t));
  }

  /**
   * The budget is an equality target in the QUBO but an upper bound in the
   * integer program: a feasible selection that stays strictly under budget
   * pays more than the least salary contribution, whatever the roster.
   */
  lemma {:induction false} UnderBudgetPenalised(ps: seq<Player>, prm: Params, x: seq<int>)
    requires |x| == |ps| && prm.beta > 0.0
    requires LineupLp.Feasible(ps, x, prm.budget, prm.quotas, prm.teamSize)
    requires Dot(ps, Salary, x, 0) < prm.budget
    ensures Form(SalaryPass(ps, prm.beta, prm.budget), x) > prm.beta * -(prm.budget * prm.budget)
  {
    SalaryMinimum(ps, prm.beta, prm.budget, x);
  }

  /**
   * A selection that meets the integer program's quota and team-size
   * constraints has the positional and team-size contributions at their
   * least values, -gamma Σ_t n_t^2 and -delta T^2, for any weights.
   */
  lemma {:induction false} FeasibleAtMinimum(ps: seq<Player>, prm: Params, x: seq<int>)
    requires |x| == |ps|
    requires LineupLp.Feasible(ps, x, prm.budget, prm.quotas, prm.teamSize)
    ensures Form(PositionalPass(ps, prm.quotas, prm.gamma), x) == prm.gamma * -QuotaOffset(prm.quotas)
    ensures var t := prm.teamSize as real;
      Form(TeamSizePass(ps, prm.delta, prm.teamSize), x) == prm.delta * -(t * t)
  {
    QuotasAtMinimum(ps, prm, x);
    TeamSizeAtMinimum(ps, prm, x);
  }

  /** With every quota met the positional contribution is -gamma Σ_t n_t^2. */
  lemma {:induction false} QuotasAtMinimum(ps: seq<Player>, prm: Params, x: seq<int>)
    requires |x| == |ps| && LineupLp.QuotasMet(ps, x, prm.quotas)
    ensures Form(PositionalPass(ps, prm.quotas, prm.gamma), x) == prm.gamma * -QuotaOffset(prm.quotas)
  {
    PositionalQuadForm(ps, prm.quotas, prm.gamma, x);
    QuotaPenaltyBound(ps, prm.quotas, x);
  }

  /** With exactly T players selected the team-size contribution is -delta T^2. */
  lemma {:induction false} TeamSizeAtMinimum(ps: seq<Player>, prm: Params, x: seq<int>)
    requires |x| == |ps| && Dot(ps, One, x, 0) == prm.teamSize as real
    ensures var t := prm.teamSize as real;
      Form(TeamSizePass(ps, prm.delta, prm.teamSize), x) == prm.delta * -(t * t)
  {
    var t := prm.teamSize as real;
    TeamSizeQuadForm(ps, prm.delta, prm.teamSize, x);
    PenaltyMinimum(t, t);
  }

  /** Σ_t n_t^2: the constant terms the expansion of the quota squares drops. */
  function QuotaOffset(quotas: Quotas): real {
    if |quotas| == 0 then 0.0
    else
      var n := quotas[|quotas| - 1].1 as real;
      QuotaOffset(quotas[..|quotas| - 1]) + n * n
  }

  /** Every listed quota is met exactly when all but the last are and the last one is. */
  lemma {:induction false} QuotasMetSplit(ps: seq<Player>, quotas: Quotas, x: seq<int>)
    requires |x| == |ps| && |quotas| > 0
    ensures var init, last := quotas[..|quotas| - 1], quotas[|quotas| - 1];
      LineupLp.QuotasMet(ps, x, quotas) <==>
      LineupLp.QuotasMet(ps, x, init) && Dot(ps, OfPosition(last.0), x, 0) == last.1 as real
  {
    var init := quotas[..|quotas| - 1];
    assert forall t | 0 <= t < |init| :: init[t] == quotas[t];
  }

  /** One step of `QuotaPenaltyBound`: one more term c (c - 2n) against one more n^2. */
  lemma {:induction false} BoundStep(qp: real, qo: real, qpInit: real, qoInit: real, c: real, n: real, metInit: bool, met: bool)
    requires qp == qpInit + c * (c - 2.0 * n) && qo == qoInit + n * n
    requires qpInit >= -qoInit && (qpInit == -qoInit <==> metInit)
    requires met <==> metInit && c == n
    ensures qp >= -qo && (qp == -qo <==> met)
  {
    PenaltyMinimum(c, n);
  }

  /**
   * The quota penalty is at least -Σ_t n_t^2, and it is exactly that when
   * every listed position has its quota.
   */
  lemma {:induction false} QuotaPenaltyBound(ps: seq<Player>, quotas: Quotas, x: seq<int>)
    requires |x| == |ps|
    ensures QuotaPenalty(ps, quotas, x) >= -QuotaOffset(quotas)
    ensures QuotaPenalty(ps, quotas, x) == -QuotaOffset(quotas) <==> LineupLp.QuotasMet(ps, x, quotas)
  {
    if |quotas| > 0 {
      var init := quotas[..|quotas| - 1];
      var (pos, n) := quotas[|quotas| - 1];
      QuotasMetSplit(ps, quotas, x);
      QuotaPenaltyBound(ps, init, x);
      BoundStep(QuotaPenalty(ps, quotas, x), QuotaOffset(quotas), QuotaPenalty(ps, init, x), QuotaOffset(init),
        Dot(ps, OfPosition(pos), x, 0), n as real, LineupLp.QuotasMet(ps, x, init), LineupLp.QuotasMet(ps, x, quotas));
    }
  }

  /**
   * With a positive weight, the positional pass is least, at
   * -gamma Σ_t n_t^2, exactly for the selections that meet every listed quota.
   */
  lemma {:induction false} PositionalMinimum(ps: seq<Player>, quotas: Quotas, gamma: real, x: seq<int>)
    requires |x| == |ps| && gamma > 0.0
    ensures Form(PositionalPass(ps, quotas, gamma), x) >= gamma * -QuotaOffset(quotas)
    ensures Form(PositionalPass(ps, quotas, gamma), x) == gamma * -QuotaOffset(quotas) <==>
      LineupLp.QuotasMet(ps, x, quotas)
  {
    PositionalQuadForm(ps, quotas, gamma, x);
    QuotaPenaltyBound(ps, quotas, x);
    ScaledBound(gamma, QuotaPenalty(ps, quotas, x), -QuotaOffset(quotas));
  }

  /** Two selections with the same count of every listed position have the same quota penalty. */
  lemma {:induction false} QuotaPenaltyAgree(ps: seq<Player>, quotas: Quotas, x: seq<int>, y: seq<int>)
    requires |x| == |ps| && |y| == |ps|
    requires forall t | 0 <= t < |quotas| :: Dot(ps, OfPosition(quotas[t].0), x, 0) == Dot(ps, OfPosition(quotas[t].0), y, 0)
    ensures QuotaPenalty(ps, quotas, x) == QuotaPenalty(ps, quotas, y)
  {
    if |quotas| > 0 {
      var init := quotas[..|quotas| - 1];
      assert forall t | 0 <= t < |init| :: init[t] == quotas[t];
      QuotaPenaltyAgree(ps, init, x, y);
      var (pos, n) := quotas[|quotas| - 1];
      assert Dot(ps, OfPosition(pos), x, 0) == Dot(ps, OfPosition(pos), y, 0);
      SameSquare(Dot(ps, OfPosition(pos), x, 0), Dot(ps, OfPosition(pos), y, 0), n as real);
    }
  }

  /** Selections of equal salary get the same salary contribution. */
  lemma {:induction false} SalaryAgree(ps: seq<Player>, prm: Params, x: seq<int>, y: seq<int>)
    requires |x| == |ps| && |y| == |ps|
    requires Dot(ps, Salary, x, 0) == Dot(ps, Salary, y, 0)
    ensures Form(SalaryPass(ps, prm.beta, prm.budget), x) == Form(SalaryPass(ps, prm.beta, prm.budget), y)
  {
    SalaryQuadForm(ps, prm.beta, prm.budget, x);
    SalaryQuadForm(ps, prm.beta, prm.budget, y);
  }

  /** Selections of equal size get the same team-size contribution. */
  lemma {:induction false} TeamSizeAgree(ps: seq<Player>, delta: real, teamSize: int, x: seq<int>, y: seq<int>)
    requires |x| == |ps| && |y| == |ps|
    requires Dot(ps, One, x, 0) == Dot(ps, One, y, 0)
    ensures Form(TeamSizePass(ps, delta, teamSize), x) == Form(TeamSizePass(ps, delta, teamSize), y)
  {
    TeamSizeQuadForm(ps, delta, teamSize, x);
    TeamSizeQuadForm(ps, delta, teamSize, y);
  }

  /** Selections with the same count of every listed position get the same positional contribution. */
  lemma {:induction false} PositionalAgree(ps: seq<Player>, quotas: Quotas, gamma: real, x: seq<int>, y: seq<int>)
    requires |x| == |ps| && |y| == |ps|
    requires forall t | 0 <= t < |quotas| :: Dot(ps, OfPosition(quotas[t].0), x, 0) == Dot(ps, OfPosition(quotas[t].0), y, 0)
    ensures Form(PositionalPass(ps, quotas, gamma), x) == Form(PositionalPass(ps, quotas, gamma), y)
  {
    QuotaPenaltyAgree(ps, quotas, x, y);
    PositionalQuadForm(ps, quotas, gamma, x);
    PositionalQuadForm(ps, quotas, gamma, y);
  }

  /**
   * The penalty weights do their job on feasible selections: two selections
   * that satisfy the integer program differ in energy only by what the
   * objective and salary passes contribute, the positional and team-size
   * contributions cancelling.
   */
  lemma {:induction false} FeasibleEnergyGap(ps: seq<Player>, prm: Params, q: Table, x: seq<int>, y: seq<int>)
    requires |x| == |ps| && |y| == |ps|
    requires LineupLp.Feasible(ps, x, prm.budget, prm.quotas, prm.teamSize)
    requires LineupLp.Feasible(ps, y, prm.budget, prm.quotas, prm.teamSize)
    requires q.Keys == UpperKeys(|ps|)
    requires forall k | k in q :: q[k] == Coefficient(ps, prm, k)
    ensures Energy(q, x) - Energy(q, y) ==
      (Form(ObjectivePass(ps, prm.alpha), x) - Form(ObjectivePass(ps, prm.alpha), y))
      + (Form(SalaryPass(ps, prm.beta, prm.budget), x) - Form(SalaryPass(ps, prm.beta, prm.budget), y))
  {
    EnergyIdentity(ps, prm, q, x);
    EnergyIdentity(ps, prm, q, y);
    PositionalAgree(ps, prm.quotas, prm.gamma, x, y);
    TeamSizeAgree(ps, prm.delta, prm.teamSize, x, y);
  }

  /** The objective contributions of two selections differ by -alpha times their points difference. */
  lemma {:induction false} ObjectiveGap(ps: seq<Player>, prm: Params, x: seq<int>, y: seq<int>)
    requires |x| == |ps| && |y| == |ps|
    ensures Form(ObjectivePass(ps, prm.alpha), x) - Form(ObjectivePass(ps, prm.alpha), y)
      == -prm.alpha * (LineupLp.Objective(ps, x) - LineupLp.Objective(ps, y))
  {
    ObjectiveQuadForm(ps, prm.alpha, x, 0);
    ObjectiveQuadForm(ps, prm.alpha, y, 0);
    ScaleDiff(-prm.alpha, Dot(ps, Points, x, 0), Dot(ps, Points, y, 0));
  }

  /** Multiplication distributes over a difference. */
  lemma ScaleDiff(s: real, p: real, r: real)
    ensures s * p - s * r == s * (p - r)
  {
  }

  /** With a positive weight, -alpha (p - r) is negative exactly when p exceeds r. */
  lemma {:induction false} ScaledSign(alpha: real, e: real, f: real, p: real, r: real)
    requires alpha > 0.0 && e - f == -alpha * (p - r)
    ensures e < f <==> p > r
  {
    if p > r {
      PositiveProduct(alpha, p - r);
    } else if p < r {
      PositiveProduct(alpha, r - p);
    }
  }

  /**
   * Between feasible selections of the same total salary the energy gap is
   * -alpha times the points gap.
   */
  lemma {:induction false} FeasibleGapIsObjective(ps: seq<Player>, prm: Params, q: Table, x: seq<int>, y: seq<int>)
    requires |x| == |ps| && |y| == |ps|
    requires LineupLp.Feasible(ps, x, prm.budget, prm.quotas, prm.teamSize)
    requires LineupLp.Feasible(ps, y, prm.budget, prm.quotas, prm.teamSize)
    requires Dot(ps, Salary, x, 0) == Dot(ps, Salary, y, 0)
    requires q.Keys == UpperKeys(|ps|)
    requires forall k | k in q :: q[k] == Coefficient(ps, prm, k)
    ensures Energy(q, x) - Energy(q, y) == -prm.alpha * (LineupLp.Objective(ps, x) - LineupLp.Objective(ps, y))
  {
    EqualSalaryGap(ps, prm, q, x, y);
    ObjectiveGap(ps, prm, x, y);
  }

  /** Between feasible selections of the same total salary only the objective pass tells them apart. */
  lemma {:induction false} EqualSalaryGap(ps: seq<Player>, prm: Params, q: Table, x: seq<int>, y: seq<int>)
    requires |x| == |ps| && |y| == |ps|
    requires LineupLp.Feasible(ps, x, prm.budget, prm.quotas, prm.teamSize)
    requires LineupLp.Feasible(ps, y, prm.budget, prm.quotas, prm.teamSize)
    requires Dot(ps, Salary, x, 0) == Dot(ps, Salary, y, 0)
    requires q.Keys == UpperKeys(|ps|)
    requires forall k | k in q :: q[k] == Coefficient(ps, prm, k)
    ensures Energy(q, x) - Energy(q, y) == Form(ObjectivePass(ps, prm.alpha), x) - Form(ObjectivePass(ps, prm.alpha), y)
  {
    FeasibleEnergyGap(ps, prm, q, x, y);
    SalaryAgree(ps, prm, x, y);
  }

  /**
   * Among feasible selections of the same total salary, a positive alpha makes
   * the energy rank them by points: lower energy exactly when more points.
   */
  lemma {:induction false} FeasibleRanking(ps: seq<Player>, prm: Params, q: Table, x: seq<int>, y: seq<int>)
    requires |x| == |ps| && |y| == |ps| && prm.alpha > 0.0
    requires LineupLp.Feasible(ps, x, prm.budget, prm.quotas, prm.teamSize)
    requires LineupLp.Feasible(ps, y, prm.budget, prm.quotas, prm.teamSize)
    requires Dot(ps, Salary, x, 0) == Dot(ps, Salary, y, 0)
    requires q.Keys == UpperKeys(|ps|)
    requires forall k | k in q :: q[k] == Coefficient(ps, prm, k)
    ensures Energy(q, x) < Energy(q, y) <==> LineupLp.Objective(ps, x) > LineupLp.Objective(ps, y)
  {
    FeasibleGapIsObjective(ps, prm, q, x, y);
    RankingFromGap(ps, prm, q, x, y);
  }

  /** An energy gap of -alpha times the points gap, with alpha > 0, ranks by points. */
  lemma {:induction false} RankingFromGap(ps: seq<Player>, prm: Params, q: Table, x: seq<int>, y: seq<int>)
    requires |x| == |ps| && |y| == |ps| && prm.alpha > 0.0
    requires Energy(q, x) - Energy(q, y) == -prm.alpha * (LineupLp.Objective(ps, x) - LineupLp.Objective(ps, y))
    ensures Energy(q, x) < Energy(q, y) <==> LineupLp.Objective(ps, x) > LineupLp.Objective(ps, y)
  {
    var e, f := Energy(q, x), Energy(q, y);
    var p, r := LineupLp.Objective(ps, x), LineupLp.Objective(ps, y);
    assert e - f == -prm.alpha * (p - r);
    ScaledSign(prm.alpha, e, f, p, r);
  }

  /**
   * The salary term targets equality with the budget: a lineup strictly under
   * budget satisfies the integer program's salary constraint yet its salary
   * penalty (S - B)^2 is positive.
   */
  lemma {:induction false} SalaryPenaltyUnderBudget()
    ensures var ps, x := [Player(0, "QB", 50.0, 8000.0)], [1];
      && LineupLp.Feasible(ps, x, 100000.0, [("QB", 1)], 1)
      && (Dot(ps, Salary, x, 0) - 100000.0) * (Dot(ps, Salary, x, 0) - 100000.0) > 0.0
  {
    var ps, x := [Player(0, "QB", 50.0, 8000.0)], [1];
    assert Dot(ps, Salary, x, 0) == 8000.0;
    assert Dot(ps, OfPosition("QB"), x, 0) == 1.0;
    assert Dot(ps, One, x, 0) == 1.0;
  }
}
