/** The performance pass of `recalculate_ratings` (judge/ratings.py): each contestant's performance is the
    level at which the expected result equals the achieved one, found by a divide and conquer that
    searches each contestant only between two already answered neighbours. */
module Performance {
  import opened Numerics
  import opened Solver
  import Variance

  function RangeLow(m: Numerics): real { 1500.0 - 20.0 * m.sqrt(Variance.VAR_INIT) }

  function RangeHigh(m: Numerics): real { 1500.0 + 20.0 * m.sqrt(Variance.VAR_INIT) }

  function TanhC(m: Numerics): real
    requires m.pi != 0.0
  {
    m.sqrt(3.0) / m.pi
  }

  function Delta(m: Numerics, timesRanked: nat): real
    requires m.pi != 0.0
  {
    TanhC(m) * m.sqrt(Variance.Var(timesRanked) + Variance.VAR_PER_CONTEST + Variance.BETA2)
  }

  lemma DeltaPositive(m: Numerics, timesRanked: nat)
    requires Lawful(m)
    ensures 0.0 < TanhC(m) && 0.0 < Delta(m, timesRanked)
  {
    SqrtPositive(m.sqrt, 3.0);
    DivideOrder(0.0, m.sqrt(3.0), m.pi);
    var v := Variance.Var(timesRanked) + Variance.VAR_PER_CONTEST + Variance.BETA2;
    SqrtPositive(m.sqrt, v);
    ProductPositive(TanhC(m), m.sqrt(v));
  }

  /** A logistic law of scale d has variance d * d * pi * pi / 3: a width is the scale at which that is the
      variance of the strength, one contest's drift and a performance taken together. */
  lemma DeltaIsLogisticScale(m: Numerics, timesRanked: nat)
    requires Lawful(m)
    ensures Delta(m, timesRanked) * Delta(m, timesRanked) * (m.pi * m.pi)
            == 3.0 * (Variance.Var(timesRanked) + Variance.VAR_PER_CONTEST + Variance.BETA2)
  {
    var v := Variance.Var(timesRanked) + Variance.VAR_PER_CONTEST + Variance.BETA2;
    assert m.sqrt(v) * m.sqrt(v) == v && m.sqrt(3.0) * m.sqrt(3.0) == 3.0;
    SquareUp(TanhC(m), m.pi, m.sqrt(3.0), m.sqrt(v), Delta(m, timesRanked));
  }

  lemma SquareUp(c: real, pi: real, s: real, r: real, d: real)
    requires pi != 0.0 && c == s / pi && s * s == 3.0 && d == c * r
    ensures d * d * (pi * pi) == 3.0 * (r * r)
  {
    assert c * pi == s;
    calc {
      d * d * (pi * pi);
      (c * r) * (c * r) * (pi * pi);
      (c * pi) * (c * pi) * (r * r);
      (s * s) * (r * r);
    }
  }

  /** The contestants of one contest: ranks, widths and old means, in rank order. */
  datatype Field = Field(m: Numerics, ranking: seq<real>, delta: seq<real>, oldMean: seq<real>) {
    ghost predicate Valid() {
      && Lawful(m)
      && |delta| == |ranking| == |oldMean|
      && Positive(delta)
      && Nondecreasing(ranking)
    }

    function Terms(): seq<Term>
      requires |delta| == |oldMean|
    {
      seq(|oldMean|, i requires 0 <= i < |oldMean| => Term(oldMean[i], delta[i], 1.0))
    }

    /** Expected result against the whole field at a given level. */
    function Expected(): real -> real
      requires |delta| == |oldMean|
    {
      Objective(m, Terms(), 0.0)
    }

    function Low(): real { RangeLow(m) }

    function High(): real { RangeHigh(m) }

    function Target(i: nat): real
      requires |delta| == |ranking| && i < |ranking| && Positive(delta)
    {
      Wins(delta, ranking, ranking[i])
    }

    /** p answers contestant i: in range, and within 2 of where the expected result crosses the target. */
    ghost predicate Answers(p: real, i: nat)
      requires Valid() && i < |ranking|
    {
      Low() <= p <= High() && Near(Expected(), Target(i), Low(), High(), p)
    }
  }

  predicate Positive(s: seq<real>) {
    forall i :: 0 <= i < |s| ==> 0.0 < s[i]
  }

  ghost predicate Nondecreasing(s: seq<real>) {
    forall i, j :: 0 <= i < j < |s| ==> s[i] <= s[j]
  }

  /** What one comparison contributes: 1/d for an opponent ranked below r, -1/d for one above, 0 for a tie. */
  function Outcome(d: real, s: real, r: real): real
    requires 0.0 < d
  {
    if s > r then 1.0 / d else if s < r then -(1.0 / d) else 0.0
  }

  /** tanh stays below 1 and comes as close to it as one likes. */
  ghost predicate Saturates(tanh: real -> real) {
    (forall x :: tanh(x) < 1.0) && forall y :: y < 1.0 ==> Exceeds(tanh, y)
  }

  ghost predicate Exceeds(f: real -> real, y: real) {
    exists x :: y < f(x)
  }

  function Wins(delta: seq<real>, ranking: seq<real>, r: real): real
    requires |delta| == |ranking| && Positive(delta)
  {
    if ranking == [] then 0.0
    else
      var n := |ranking| - 1;
      Wins(delta[..n], ranking[..n], r) + Outcome(delta[n], ranking[n], r)
  }

  /** A better rank has at least as high a target. */
  lemma {:induction false} WinsAntitone(delta: seq<real>, ranking: seq<real>, r: real, r': real)
    requires |delta| == |ranking| && Positive(delta) && r <= r'
    ensures Wins(delta, ranking, r') <= Wins(delta, ranking, r)
  {
    if ranking != [] {
      var n := |ranking| - 1;
      WinsAntitone(delta[..n], ranking[..n], r, r');
      DivideOrder(0.0, 1.0, delta[n]);
    }
  }

  /** The loop of `solve_idx` that adds up the target. */
  method ComputeTarget(delta: seq<real>, ranking: seq<real>, r: real) returns (y: real)
    requires |delta| == |ranking| && Positive(delta)
    ensures y == Wins(delta, ranking, r)
  {
    y := 0.0;
    for k := 0 to |ranking|
      invariant y == Wins(delta[..k], ranking[..k], r)
    {
      var d, s := delta[k], ranking[k];
      assert delta[..k + 1][..k] == delta[..k] && ranking[..k + 1][..k] == ranking[..k];
      if s > r {
        y := y + 1.0 / d;
      } else if s < r {
        y := y - 1.0 / d;
      }
    }
    assert delta[..|ranking|] == delta && ranking[..|ranking|] == ranking;
  }

  lemma ExpectedIncreasing(e: Field)
    requires e.Valid() && e.ranking != []
    ensures StrictlyIncreasing(e.Expected()) && Increasing(e.Expected())
  {
    ObjectiveIncreasing(e.m, e.Terms(), 0.0);
  }

  method SolveIdx(e: Field, newP: array<real>, i: nat, bounds: (real, real))
    requires e.Valid() && i < newP.Length == |e.ranking|
    modifies newP
    ensures newP[..] == old(newP[..])[i := Solve(e.Expected(), e.Target(i), bounds.0, bounds.1)]
  {
    var y := ComputeTarget(e.delta, e.ranking, e.ranking[i]);
    newP[i] := SolveLoop(e.Expected(), y, bounds);
  }

  /** A search over the whole range answers its contestant. */
  lemma FullSearchAnswers(e: Field, i: nat)
    requires e.Valid() && i < |e.ranking|
    ensures e.Answers(Solve(e.Expected(), e.Target(i), e.Low(), e.High()), i)
  {
    ExpectedIncreasing(e);
    SolveInside(e.Expected(), e.Target(i), e.Low(), e.High());
    SolveNear(e.Expected(), e.Target(i), e.Low(), e.High());
  }

  /** So does a search between the answers of a contestant ranked no lower and one ranked no higher. */
  lemma PrunedSearchAnswers(e: Field, i: nat, k: nat, j: nat, pi: real, pj: real)
    requires e.Valid() && i <= k <= j < |e.ranking|
    requires e.Answers(pi, i) && e.Answers(pj, j) && pj <= pi
    ensures pj <= Solve(e.Expected(), e.Target(k), pj, pi) <= pi
    ensures e.Answers(Solve(e.Expected(), e.Target(k), pj, pi), k)
  {
    ExpectedIncreasing(e);
    WinsAntitone(e.delta, e.ranking, e.ranking[i], e.ranking[k]);
    WinsAntitone(e.delta, e.ranking, e.ranking[k], e.ranking[j]);
    SolveInside(e.Expected(), e.Target(k), pj, pi);
    PrunedSolveNear(e.Expected(), e.Target(k), pj, pi, e.Target(j), e.Target(i), e.Low(), e.High());
  }

  ghost predicate Filled(e: Field, p: seq<real>, i: nat, j: nat)
    requires e.Valid() && i <= j < |p| == |e.ranking|
  {
    && (forall k: nat :: i <= k <= j ==> e.Answers(p[k], k))
    && (forall k, l :: i <= k < l <= j ==> p[l] <= p[k])
  }

  method DivConq(e: Field, newP: array<real>, i: nat, j: nat)
    requires e.Valid() && i <= j < newP.Length == |e.ranking|
    requires e.Answers(newP[i], i) && e.Answers(newP[j], j) && newP[j] <= newP[i]
    modifies newP
    ensures Filled(e, newP[..], i, j)
    ensures forall k :: 0 <= k <= i || j <= k < newP.Length ==> newP[k] == old(newP[k])
    decreases j - i
  {
    if j - i > 1 {
      var k := (i + j) / 2;
      PrunedSearchAnswers(e, i, k, j, newP[i], newP[j]);
      ghost var before := newP[..];
      SolveIdx(e, newP, k, (newP[j], newP[i]));
      assert newP[..][i] == before[i] && newP[..][j] == before[j];
      assert newP[..][k] == Solve(e.Expected(), e.Target(k), before[j], before[i]);
      ghost var mid := newP[..];
      assert forall l :: 0 <= l <= i || j <= l < newP.Length ==> newP[l] == mid[l] == before[l];
      DivConq(e, newP, i, k);
      ghost var left := newP[..];
      DivConq(e, newP, k, j);
      assert forall l :: i <= l <= k ==> newP[..][l] == left[l];
    }
  }

  /** Performances of a field of at least two. */
  method Performances(e: Field) returns (newP: array<real>)
    requires e.Valid() && 2 <= |e.ranking|
    ensures fresh(newP) && newP.Length == |e.ranking|
    ensures Filled(e, newP[..], 0, |e.ranking| - 1)
    ensures newP[0] == Solve(e.Expected(), e.Target(0), e.Low(), e.High())
  {
    var n := |e.ranking|;
    newP := new real[n](_ => 0.0);
    SolveIdx(e, newP, 0, (e.Low(), e.High()));
    ghost var before := newP[..];
    SolveIdx(e, newP, n - 1, (e.Low(), e.High()));
    assert newP[..][0] == before[0];
    assert newP[..][n - 1] == Solve(e.Expected(), e.Target(n - 1), e.Low(), e.High());
    FullSearchAnswers(e, 0);
    FullSearchAnswers(e, n - 1);
    WinsAntitone(e.delta, e.ranking, e.ranking[0], e.ranking[n - 1]);
    SolveMonotoneInTarget(e.Expected(), e.Target(n - 1), e.Target(0), e.Low(), e.High());
    DivConq(e, newP, 0, n - 1);
  }

  /** The pruned answers stay within 4 of what a search over the whole range gives, contestant by contestant. */
  lemma PrunedCloseToFull(e: Field, p: real, i: nat)
    requires e.Valid() && i < |e.ranking| && e.Answers(p, i)
    ensures -4.0 <= p - Solve(e.Expected(), e.Target(i), e.Low(), e.High()) <= 4.0
  {
    FullSearchAnswers(e, i);
    ExpectedIncreasing(e);
    NearUnique(e.Expected(), e.Target(i), e.Low(), e.High(), p, Solve(e.Expected(), e.Target(i), e.Low(), e.High()));
  }

  /** Tied contestants, who are searched between different neighbours, differ by at most 4. */
  lemma TiesClose(e: Field, p: seq<real>, i: nat, j: nat)
    requires e.Valid() && |p| == |e.ranking| && i <= j < |p| && e.ranking[i] == e.ranking[j]
    requires Filled(e, p, i, j)
    ensures 0.0 <= p[i] - p[j] <= 4.0
  {
    ExpectedIncreasing(e);
    NearUnique(e.Expected(), e.Target(i), e.Low(), e.High(), p[i], p[j]);
  }

  /** A win counts for exactly as much as is ever expected against that opponent: the least value the
      expected result never reaches, at whatever level.  A loss counts for as much, negated. */
  lemma WinIsTheLimit(e: Field, k: nat, s: real, r: real, y: real)
    requires e.Valid() && Saturates(e.m.tanh) && k < |e.delta| && r < s
    ensures Outcome(e.delta[k], r, s) == -Outcome(e.delta[k], s, r)
    ensures forall x :: TermAt(e.m, e.Terms()[k], x) < Outcome(e.delta[k], s, r)
    ensures y < Outcome(e.delta[k], s, r) ==> exists x :: y < TermAt(e.m, e.Terms()[k], x)
  {
    var t, w := e.Terms()[k], 1.0 / e.delta[k];
    assert w * t.sd == 1.0 && 0.0 < w && w == t.wt / t.sd;
    forall x
      ensures TermAt(e.m, t, x) < w
    {
      ProductOrder(w, e.m.tanh((x - t.mu) / (2.0 * t.sd)), 1.0);
    }
    if y < w {
      DivideOrder(y, w, w);
      assert w / w == 1.0;
      assert Exceeds(e.m.tanh, y / w);
      var u :| y / w < e.m.tanh(u);
      TermBeyond(e.m, t, u, y);
    }
  }

  lemma TermBeyond(m: Numerics, t: Term, u: real, y: real)
    requires 0.0 < t.sd && 0.0 < t.wt && y / (t.wt / t.sd) < m.tanh(u)
    ensures exists x :: y < TermAt(m, t, x)
  {
    var w := t.wt / t.sd;
    assert 0.0 < w by { DivideOrder(0.0, t.wt, t.sd); }
    assert w * (y / w) == y;
    ProductOrder(w, y / w, m.tanh(u));
    var x := t.mu + u * (2.0 * t.sd);
    QuotientIs(x - t.mu, 2.0 * t.sd, u);
    assert TermAt(m, t, x) == w * m.tanh(u);
  }

  /** A contest of equals that nobody wins teaches nothing: every performance is the common old mean, to within 2. */
  lemma EqualsTied(e: Field, mean: real, p: real, i: nat)
    requires e.Valid() && i < |e.ranking| && e.Answers(p, i)
    requires e.Low() <= mean <= e.High()
    requires forall k :: 0 <= k < |e.ranking| ==> e.ranking[k] == e.ranking[i] && e.oldMean[k] == mean
    ensures -2.0 <= p - mean <= 2.0
  {
    forall t <- e.Terms()
      ensures TermAt(e.m, t, mean) == 0.0
    {
      TermAtCentre(e.m, t);
    }
    SumZero(t => TermAt(e.m, t, mean), e.Terms());
    NoWins(e.delta, e.ranking, e.ranking[i]);
    ExpectedIncreasing(e);
    NearCrossing(e.Expected(), e.Target(i), e.Low(), e.High(), p, mean);
  }

  lemma {:induction false} NoWins(delta: seq<real>, ranking: seq<real>, r: real)
    requires |delta| == |ranking| && Positive(delta)
    requires forall k :: 0 <= k < |ranking| ==> ranking[k] == r
    ensures Wins(delta, ranking, r) == 0.0
  {
    if ranking != [] {
      NoWins(delta[..|ranking| - 1], ranking[..|ranking| - 1], r);
    }
  }
}
