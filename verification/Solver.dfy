/** `eval_tanhs` and `solve` (judge/ratings.py): root finding by bisection down to width 2, then
    linear interpolation inside the last bracket. */
module Solver {
  import opened Numerics
  import opened Options

  datatype Term = Term(mu: real, sd: real, wt: real)

  function Sum(h: Term -> real, terms: seq<Term>): real {
    if terms == [] then 0.0 else h(terms[0]) + Sum(h, terms[1..])
  }

  /** One term of the sum.  Every term the rating code builds has a positive deviation; at zero, where
      the source would divide by zero, the value is immaterial. */
  function TermAt(m: Numerics, t: Term, x: real): real {
    if t.sd == 0.0 then 0.0 else (t.wt / t.sd) * m.tanh((x - t.mu) / (2.0 * t.sd))
  }

  function EvalTanhs(m: Numerics, terms: seq<Term>, x: real): real {
    Sum(t => TermAt(m, t, x), terms)
  }

  ghost predicate Proper(terms: seq<Term>) {
    forall i :: 0 <= i < |terms| ==> 0.0 < terms[i].sd && 0.0 < terms[i].wt
  }

  function Affine(lin: real, x: real, c: real): real { lin * x + c }

  /** The function whose level is sought: lin_factor * x + eval_tanhs(tanh_terms, x). */
  function Objective(m: Numerics, terms: seq<Term>, lin: real): real -> real {
    x => Affine(lin, x, EvalTanhs(m, terms, x))
  }

  // ---- Specification of the search ----

  function Interpolate(f: real -> real, y: real, lo: real, hi: real): real {
    if y <= f(lo) then lo
    else if y >= f(hi) then hi
    else
      var ratio := (y - f(lo)) / (f(hi) - f(lo));
      lo * (1.0 - ratio) + hi * ratio
  }

  function Width(lo: real, hi: real): nat {
    if lo < hi then (hi - lo).Floor else 0
  }

  function Solve(f: real -> real, y: real, lo: real, hi: real): real
    decreases Width(lo, hi)
  {
    if hi - lo > 2.0 then
      var x := (lo + hi) / 2.0;
      if f(x) > y then Solve(f, y, lo, x)
      else if f(x) < y then Solve(f, y, x, hi)
      else x
    else Interpolate(f, y, lo, hi)
  }

  /** The loop of the source, for f = lin_factor * x + eval_tanhs(tanh_terms, x).  An end's value is
      remembered when the end was once a midpoint, and is computed only if it never was. */
  method SolveLoop(f: real -> real, yTarget: real, bounds: (real, real)) returns (r: real)
    ensures r == Solve(f, yTarget, bounds.0, bounds.1)
    ensures ExactOnLines(f, yTarget, bounds.0, bounds.1, r)
  {
    SolveStraight(f, yTarget, bounds.0, bounds.1);
    var L, R := bounds.0, bounds.1;
    var Ly: Option<real>, Ry: Option<real> := None, None;
    while R - L > 2.0
      invariant Ly.Some? ==> Ly.value == f(L)
      invariant Ry.Some? ==> Ry.value == f(R)
      invariant Solve(f, yTarget, L, R) == Solve(f, yTarget, bounds.0, bounds.1)
      decreases Width(L, R)
    {
      var x := (L + R) / 2.0;
      var y := f(x);
      if y > yTarget {
        R, Ry := x, Some(y);
      } else if y < yTarget {
        L, Ly := x, Some(y);
      } else {
        return x;
      }
    }
    if Ly.None? {
      Ly := Some(f(L));
    }
    if yTarget <= Ly.value {
      return L;
    }
    if Ry.None? {
      Ry := Some(f(R));
    }
    if yTarget >= Ry.value {
      return R;
    }
    var ratio := (yTarget - Ly.value) / (Ry.value - Ly.value);
    r := L * (1.0 - ratio) + R * ratio;
  }

  // ---- What the answer means ----

  ghost predicate RisingLine(f: real -> real, a: real, b: real, lo: real, hi: real) {
    0.0 < a && lo <= hi && forall x :: lo <= x <= hi ==> f(x) == Affine(a, x, b)
  }

  /** If f is a rising straight line over the bracket and y lies between its ends, r is where f is y. */
  ghost predicate ExactOnLines(f: real -> real, y: real, lo: real, hi: real, r: real) {
    f(lo) <= y <= f(hi) ==> forall a, b :: RisingLine(f, a, b, lo, hi) ==> f(r) == y
  }

  lemma InterpolateStraight(f: real -> real, y: real, lo: real, hi: real, a: real, b: real)
    requires RisingLine(f, a, b, lo, hi) && f(lo) <= y <= f(hi)
    ensures f(Interpolate(f, y, lo, hi)) == y
  {
    InterpolateInside(f, y, lo, hi);
    if f(lo) < y < f(hi) {
      var q := (y - f(lo)) / (f(hi) - f(lo));
      assert q * (f(hi) - f(lo)) == y - f(lo);
      MixStraight(a, b, lo, hi, q);
    }
  }

  lemma MixStraight(a: real, b: real, lo: real, hi: real, q: real)
    ensures Affine(a, lo * (1.0 - q) + hi * q, b) == Affine(a, lo, b) + q * (Affine(a, hi, b) - Affine(a, lo, b))
  {}

  /** Where f is a rising straight line the answer is exact. */
  lemma {:induction false} SolveStraightLine(f: real -> real, y: real, lo: real, hi: real, a: real, b: real)
    requires RisingLine(f, a, b, lo, hi) && f(lo) <= y <= f(hi)
    ensures f(Solve(f, y, lo, hi)) == y
    decreases Width(lo, hi)
  {
    if hi - lo > 2.0 {
      var x := (lo + hi) / 2.0;
      if f(x) > y {
        SolveStraightLine(f, y, lo, x, a, b);
      } else if f(x) < y {
        SolveStraightLine(f, y, x, hi, a, b);
      }
    } else {
      InterpolateStraight(f, y, lo, hi, a, b);
    }
  }

  lemma SolveStraight(f: real -> real, y: real, lo: real, hi: real)
    ensures ExactOnLines(f, y, lo, hi, Solve(f, y, lo, hi))
  {
    forall a, b | f(lo) <= y <= f(hi) && RisingLine(f, a, b, lo, hi)
      ensures f(Solve(f, y, lo, hi)) == y
    {
      SolveStraightLine(f, y, lo, hi, a, b);
    }
  }

  /** x is a solution of f = y over [lo, hi] to within 2: f is at most y further left, at least y further right. */
  ghost predicate Near(f: real -> real, y: real, lo: real, hi: real, r: real) {
    forall x :: lo <= x <= hi ==> (x < r - 2.0 ==> f(x) <= y) && (r + 2.0 < x ==> y <= f(x))
  }

  lemma RatioInside(y: real, a: real, b: real)
    requires a < y < b
    ensures 0.0 < (y - a) / (b - a) < 1.0
  {
    DivideOrder(0.0, y - a, b - a);
    DivideOrder(y - a, b - a, b - a);
    assert 0.0 / (b - a) == 0.0 && (b - a) / (b - a) == 1.0;
  }

  lemma MixInside(lo: real, hi: real, q: real)
    requires lo <= hi && 0.0 <= q <= 1.0
    ensures lo * (1.0 - q) + hi * q == lo + (hi - lo) * q
    ensures lo <= lo * (1.0 - q) + hi * q <= hi
    ensures lo < hi && 0.0 < q < 1.0 ==> lo < lo * (1.0 - q) + hi * q < hi
  {
    ProductOrder(hi - lo, 0.0, q);
    ProductOrder(hi - lo, q, 1.0);
  }

  lemma MixOrder(lo: real, hi: real, p: real, q: real)
    requires lo <= hi && p <= q
    ensures lo * (1.0 - p) + hi * p <= lo * (1.0 - q) + hi * q
  {
    assert lo * (1.0 - p) + hi * p == lo + (hi - lo) * p;
    assert lo * (1.0 - q) + hi * q == lo + (hi - lo) * q;
    ProductOrder(hi - lo, p, q);
  }

  lemma MixStrict(lo: real, hi: real, p: real, q: real)
    requires lo < hi && p < q
    ensures lo * (1.0 - p) + hi * p < lo * (1.0 - q) + hi * q
  {
    assert lo * (1.0 - p) + hi * p == lo + (hi - lo) * p;
    assert lo * (1.0 - q) + hi * q == lo + (hi - lo) * q;
    ProductOrder(hi - lo, p, q);
  }

  lemma MixRises(lo: real, hi: real, lo': real, hi': real, q: real)
    requires lo <= lo' && hi <= hi' && 0.0 <= q <= 1.0
    ensures lo * (1.0 - q) + hi * q <= lo' * (1.0 - q) + hi' * q
  {
    WeightedRises(lo, hi, lo', hi', 1.0 - q, q);
  }

  lemma WeightedRises(x: real, y: real, x': real, y': real, p: real, q: real)
    requires x <= x' && y <= y' && 0.0 <= p && 0.0 <= q
    ensures x * p + y * q <= x' * p + y' * q
  {
    RaiseLeft(x, x', p);
    RaiseLeft(y, y', q);
  }

  lemma RaiseLeft(x: real, y: real, k: real)
    requires 0.0 <= k && x <= y
    ensures x * k <= y * k
  {}

  lemma InterpolateInside(f: real -> real, y: real, lo: real, hi: real)
    requires lo <= hi
    ensures lo <= Interpolate(f, y, lo, hi) <= hi
    ensures lo < Interpolate(f, y, lo, hi) ==> f(lo) < y
    ensures Interpolate(f, y, lo, hi) < hi ==> y < f(hi) || y <= f(lo)
  {
    if f(lo) < y < f(hi) {
      RatioInside(y, f(lo), f(hi));
      MixInside(lo, hi, (y - f(lo)) / (f(hi) - f(lo)));
    }
  }

  lemma {:induction false} SolveInside(f: real -> real, y: real, lo: real, hi: real)
    requires lo <= hi
    ensures lo <= Solve(f, y, lo, hi) <= hi
    decreases Width(lo, hi)
  {
    if hi - lo > 2.0 {
      var x := (lo + hi) / 2.0;
      if f(x) > y {
        SolveInside(f, y, lo, x);
      } else if f(x) < y {
        SolveInside(f, y, x, hi);
      }
    } else {
      InterpolateInside(f, y, lo, hi);
    }
  }

  /** Raising the target never lowers the answer; no property of f is needed. */
  lemma {:induction false} SolveMonotoneInTarget(f: real -> real, y: real, y': real, lo: real, hi: real)
    requires lo <= hi && y <= y'
    ensures Solve(f, y, lo, hi) <= Solve(f, y', lo, hi)
    decreases Width(lo, hi)
  {
    if hi - lo > 2.0 {
      var x := (lo + hi) / 2.0;
      SolveInside(f, y, lo, x);
      SolveInside(f, y', x, hi);
      if y' < f(x) {
        SolveMonotoneInTarget(f, y, y', lo, x);
      } else if f(x) < y {
        SolveMonotoneInTarget(f, y, y', x, hi);
      }
    } else {
      InterpolateMonotoneInTarget(f, y, y', lo, hi);
    }
  }

  lemma DivideOrder(x: real, y: real, d: real)
    requires 0.0 < d && x <= y
    ensures x / d <= y / d
    ensures x < y ==> x / d < y / d
  {
    var p, q := x / d, y / d;
    assert p * d == x && q * d == y;
  }

  lemma InterpolateMonotoneInTarget(f: real -> real, y: real, y': real, lo: real, hi: real)
    requires lo <= hi && y <= y'
    ensures Interpolate(f, y, lo, hi) <= Interpolate(f, y', lo, hi)
  {
    InterpolateInside(f, y, lo, hi);
    InterpolateInside(f, y', lo, hi);
    var a, b := f(lo), f(hi);
    if a < y && y' < b {
      DivideOrder(y - a, y' - a, b - a);
      MixOrder(lo, hi, (y - a) / (b - a), (y' - a) / (b - a));
    }
  }

  /** The share of the bracket below the target shrinks when both end values rise. */
  lemma RatioAntitone(y: real, a: real, b: real, a': real, b': real)
    requires a <= a' < y < b <= b'
    ensures (y - a') / (b' - a') <= (y - a) / (b - a)
  {
    var q, q' := (y - a) / (b - a), (y - a') / (b' - a');
    RatioInside(y, a, b);
    RatioInside(y, a', b');
    // y = a + q(b - a) = a' + q'(b' - a')
    assert q * (b - a) == y - a && q' * (b' - a') == y - a';
    if q < q' {
      assert y == a * (1.0 - q) + b * q;
      assert y == a' * (1.0 - q') + b' * q';
      MixRises(a, b, a', b', q');
      MixStrict(a, b, q, q');
      assert false;
    }
  }

  lemma InterpolateAntitoneInFunction(f: real -> real, g: real -> real, y: real, lo: real, hi: real)
    requires lo <= hi && f(lo) <= g(lo) && f(hi) <= g(hi)
    ensures Interpolate(g, y, lo, hi) <= Interpolate(f, y, lo, hi)
  {
    InterpolateInside(f, y, lo, hi);
    InterpolateInside(g, y, lo, hi);
    if g(lo) < y < f(hi) {
      RatioAntitone(y, f(lo), f(hi), g(lo), g(hi));
      MixOrder(lo, hi, (y - g(lo)) / (g(hi) - g(lo)), (y - f(lo)) / (f(hi) - f(lo)));
    }
  }

  /** A pointwise larger function reaches the target no later, through bisection and interpolation alike. */
  lemma {:induction false} SolveAntitoneInFunction(f: real -> real, g: real -> real, y: real, lo: real, hi: real)
    requires lo <= hi && forall x :: f(x) <= g(x)
    ensures Solve(g, y, lo, hi) <= Solve(f, y, lo, hi)
    decreases Width(lo, hi)
  {
    if hi - lo > 2.0 {
      var x := (lo + hi) / 2.0;
      SolveInside(g, y, lo, x);
      SolveInside(f, y, x, hi);
      if y < f(x) {
        SolveAntitoneInFunction(f, g, y, lo, x);
      } else if g(x) < y {
        SolveAntitoneInFunction(f, g, y, x, hi);
      }
    } else {
      InterpolateAntitoneInFunction(f, g, y, lo, hi);
    }
  }

  /** The search is exact to within 2 inside any bracket, and where it runs into an end of the bracket
      it does so only when the target is not on the inner side of that end. */
  lemma {:induction false} SolveNear(f: real -> real, y: real, lo: real, hi: real)
    requires Increasing(f) && lo <= hi
    ensures forall x :: lo <= x && x < Solve(f, y, lo, hi) - 2.0 ==> f(x) <= y
    ensures forall x :: x <= hi && Solve(f, y, lo, hi) + 2.0 < x ==> y <= f(x)
    ensures lo < Solve(f, y, lo, hi) ==> f(lo) <= y
    ensures Solve(f, y, lo, hi) < hi ==> y <= f(hi)
    decreases Width(lo, hi)
  {
    var r := Solve(f, y, lo, hi);
    if hi - lo > 2.0 {
      var x := (lo + hi) / 2.0;
      if f(x) > y {
        SolveNear(f, y, lo, x);
        SolveInside(f, y, lo, x);
      } else if f(x) < y {
        SolveNear(f, y, x, hi);
        SolveInside(f, y, x, hi);
      }
    } else {
      InterpolateInside(f, y, lo, hi);
    }
  }

  lemma SolveAnswers(f: real -> real, y: real, lo: real, hi: real)
    requires StrictlyIncreasing(f) && lo <= hi
    ensures lo <= Solve(f, y, lo, hi) <= hi && Near(f, y, lo, hi, Solve(f, y, lo, hi))
  {
    SolveInside(f, y, lo, hi);
    SolveNear(f, y, lo, hi);
  }

  /** Pruning: brackets that are themselves only approximate answers, for a larger and a smaller target,
      cost nothing: the answer found between them is still within 2 over the whole range. */
  lemma PrunedSolveNear(f: real -> real, y: real, lo: real, hi: real, yLo: real, yHi: real, min: real, max: real)
    requires Increasing(f) && min <= lo <= hi <= max
    requires yLo <= y <= yHi
    requires Near(f, yLo, min, max, lo) && Near(f, yHi, min, max, hi)
    ensures Near(f, y, min, max, Solve(f, y, lo, hi))
  {
    var r := Solve(f, y, lo, hi);
    SolveInside(f, y, lo, hi);
    SolveNear(f, y, lo, hi);
    forall x | min <= x <= max
      ensures (x < r - 2.0 ==> f(x) <= y) && (r + 2.0 < x ==> y <= f(x))
    {
      if x < r - 2.0 && x < lo && lo < r {
        assert f(x) <= f(lo) <= y;
      }
      if r + 2.0 < x && hi < x && r < hi {
        assert f(hi) <= f(x) && y <= f(hi);
      }
    }
  }

  /** Where f crosses y at x0 inside the range, an answer is within 2 of x0. */
  lemma NearCrossing(f: real -> real, y: real, min: real, max: real, r: real, x0: real)
    requires StrictlyIncreasing(f) && min <= x0 <= max && f(x0) == y
    requires min <= r <= max && Near(f, y, min, max, r)
    ensures -2.0 <= r - x0 <= 2.0
  {
    var x, x' := (x0 + r - 2.0) / 2.0, (x0 + r + 2.0) / 2.0;
    assert x0 < x ==> f(x0) < f(x);
    assert x' < x0 ==> f(x') < f(x0);
  }

  /** Two answers to the same question are within 4 of each other. */
  lemma NearUnique(f: real -> real, y: real, min: real, max: real, r: real, s: real)
    requires StrictlyIncreasing(f)
    requires min <= r <= max && min <= s <= max
    requires Near(f, y, min, max, r) && Near(f, y, min, max, s)
    ensures -4.0 <= r - s <= 4.0
  {
    CloserThanFour(f, y, min, max, r, s);
    CloserThanFour(f, y, min, max, s, r);
  }

  lemma CloserThanFour(f: real -> real, y: real, min: real, max: real, r: real, s: real)
    requires StrictlyIncreasing(f)
    requires min <= r <= max && min <= s <= max
    requires Near(f, y, min, max, r) && Near(f, y, min, max, s)
    ensures r - s <= 4.0
  {
    var gap := (r - s - 4.0) / 4.0;
    if gap > 0.0 {
      NoneBetween(f, y, min, max, r, s, s + 2.0 + gap, s + 2.0 + 2.0 * gap);
    }
  }

  lemma NoneBetween(f: real -> real, y: real, min: real, max: real, r: real, s: real, a: real, b: real)
    requires StrictlyIncreasing(f) && min <= a < b <= max
    requires Near(f, y, min, max, r) && Near(f, y, min, max, s)
    ensures !(s + 2.0 < a && b < r - 2.0)
  {
    assert f(a) < f(b);
  }

  // ---- What a term means ----

  lemma {:induction false} SumZero(h: Term -> real, terms: seq<Term>)
    requires forall t <- terms :: h(t) == 0.0
    ensures Sum(h, terms) == 0.0
  {
    if terms != [] {
      SumZero(h, terms[1..]);
    }
  }

  lemma TermAtCentre(m: Numerics, t: Term)
    requires m.tanh(0.0) == 0.0 && 0.0 < t.sd
    ensures TermAt(m, t, t.mu) == 0.0
  {
    QuotientIs(t.mu - t.mu, 2.0 * t.sd, 0.0);
  }

  /** The exponential function and its tie to tanh. */
  ghost predicate Exponential(m: Numerics, exp: real -> real) {
    forall u :: 0.0 < exp(u) && exp(-u) * exp(u) == 1.0 && m.tanh(u / 2.0) * (exp(u) + 1.0) == exp(u) - 1.0
  }

  /** A term is the expected result, chance of a win less chance of a loss, of a logistic win chance with
      centre mu and scale sd, times wt / sd. */
  lemma TermIsExpectedResult(m: Numerics, exp: real -> real, t: Term, x: real)
    requires Exponential(m, exp) && 0.0 < t.sd
    ensures 0.0 < 1.0 + exp(-((x - t.mu) / t.sd))
    ensures var win := 1.0 / (1.0 + exp(-((x - t.mu) / t.sd)));
            TermAt(m, t, x) == (t.wt / t.sd) * (win - (1.0 - win))
  {
    var u := (x - t.mu) / t.sd;
    assert 0.0 < exp(u) && 0.0 < exp(-u) && exp(-u) * exp(u) == 1.0;
    HalfAngle(x - t.mu, t.sd);
    LogisticTanh(exp(u), exp(-u), m.tanh(u / 2.0));
  }

  lemma HalfAngle(d: real, s: real)
    requires 0.0 < s
    ensures d / (2.0 * s) == (d / s) / 2.0
  {
    var q := d / s;
    assert q * s == d;
    assert (q / 2.0) * (2.0 * s) == d;
    QuotientIs(d, 2.0 * s, q / 2.0);
  }

  lemma QuotientIs(x: real, d: real, q: real)
    requires d != 0.0 && q * d == x
    ensures x / d == q
  {}

  lemma LogisticTanh(e: real, e': real, h: real)
    requires 0.0 < e && 0.0 < e' && e' * e == 1.0 && h * (e + 1.0) == e - 1.0
    ensures h == 2.0 * (1.0 / (1.0 + e')) - 1.0
  {
    var p := 1.0 / (1.0 + e');
    assert p * (1.0 + e') == 1.0;
    assert p * (1.0 + e') * e == p * (e + 1.0) by {
      assert p * (1.0 + e') * e == p * (e + e' * e);
    }
    assert (2.0 * p - 1.0) * (e + 1.0) == e - 1.0;
    SameFactor(h, 2.0 * p - 1.0, e + 1.0);
  }

  lemma SameFactor(x: real, y: real, k: real)
    requires k != 0.0 && x * k == y * k
    ensures x == y
  {}

  // ---- The objective is increasing ----

  lemma {:induction false} SumMonotone(h: Term -> real, g: Term -> real, terms: seq<Term>)
    requires forall t <- terms :: h(t) <= g(t)
    ensures Sum(h, terms) <= Sum(g, terms)
    ensures terms != [] && (forall t <- terms :: h(t) < g(t)) ==> Sum(h, terms) < Sum(g, terms)
  {
    if terms != [] {
      SumMonotone(h, g, terms[1..]);
    }
  }

  lemma TermIncreasing(m: Numerics, t: Term, x: real, y: real)
    requires StrictlyIncreasing(m.tanh) && 0.0 < t.sd && 0.0 < t.wt && x < y
    ensures TermAt(m, t, x) < TermAt(m, t, y)
  {
    DivideOrder(x - t.mu, y - t.mu, 2.0 * t.sd);
    DivideOrder(0.0, t.wt, t.sd);
    ProductOrder(t.wt / t.sd, m.tanh((x - t.mu) / (2.0 * t.sd)), m.tanh((y - t.mu) / (2.0 * t.sd)));
  }

  lemma EvalTanhsIncreasing(m: Numerics, terms: seq<Term>, x: real, y: real)
    requires StrictlyIncreasing(m.tanh) && Proper(terms) && x < y
    ensures EvalTanhs(m, terms, x) <= EvalTanhs(m, terms, y)
    ensures terms != [] ==> EvalTanhs(m, terms, x) < EvalTanhs(m, terms, y)
  {
    forall t <- terms
      ensures TermAt(m, t, x) < TermAt(m, t, y)
    {
      TermIncreasing(m, t, x, y);
    }
    SumMonotone(t => TermAt(m, t, x), t => TermAt(m, t, y), terms);
  }

  lemma SlopeOrder(lin: real, x: real, y: real, a: real, b: real)
    requires 0.0 <= lin && x < y && a <= b
    requires 0.0 < lin || a < b
    ensures Affine(lin, x, a) < Affine(lin, y, b)
  {
    if 0.0 < lin {
      SteepOrder(lin, x, y, a, b);
    } else {
      assert lin * x == 0.0 == lin * y;
    }
  }

  lemma SteepOrder(lin: real, x: real, y: real, a: real, b: real)
    requires 0.0 < lin && x < y && a <= b
    ensures lin * x + a < lin * y + b
  {
    ProductPositive(lin, y - x);
    assert lin * (y - x) == lin * y - lin * x;
  }

  lemma ObjectiveIncreasing(m: Numerics, terms: seq<Term>, lin: real)
    requires StrictlyIncreasing(m.tanh) && Proper(terms) && 0.0 <= lin
    requires terms != [] || 0.0 < lin
    ensures StrictlyIncreasing(Objective(m, terms, lin))
  {
    var f := Objective(m, terms, lin);
    forall x, y | x < y
      ensures f(x) < f(y)
    {
      ObjectiveIncreasingAt(m, terms, lin, x, y);
    }
  }

  lemma ObjectiveIncreasingAt(m: Numerics, terms: seq<Term>, lin: real, x: real, y: real)
    requires StrictlyIncreasing(m.tanh) && Proper(terms) && 0.0 <= lin && x < y
    requires terms != [] || 0.0 < lin
    ensures Objective(m, terms, lin)(x) < Objective(m, terms, lin)(y)
  {
    var a, b := EvalTanhs(m, terms, x), EvalTanhs(m, terms, y);
    assert a <= b && (terms != [] ==> a < b) by { EvalTanhsIncreasing(m, terms, x, y); }
    SlopeOrder(lin, x, y, a, b);
  }

  /** Moving a centre up lowers its term. */
  lemma TermAntitoneInCentre(m: Numerics, t: Term, mu: real, x: real)
    requires StrictlyIncreasing(m.tanh) && 0.0 < t.sd && 0.0 < t.wt && t.mu <= mu
    ensures TermAt(m, t.(mu := mu), x) <= TermAt(m, t, x)
  {
    DivideOrder(x - mu, x - t.mu, 2.0 * t.sd);
    DivideOrder(0.0, t.wt, t.sd);
    ProductOrder(t.wt / t.sd, m.tanh((x - mu) / (2.0 * t.sd)), m.tanh((x - t.mu) / (2.0 * t.sd)));
  }

  lemma AffineOrder(lin: real, x: real, a: real, b: real)
    requires a <= b
    ensures Affine(lin, x, a) <= Affine(lin, x, b)
  {}

  /** Moving the first centre up lowers the whole objective. */
  lemma ObjectiveAntitoneInCentre(m: Numerics, t: Term, mu: real, rest: seq<Term>, lin: real, x: real)
    requires StrictlyIncreasing(m.tanh) && 0.0 < t.sd && 0.0 < t.wt && t.mu <= mu
    ensures Objective(m, [t.(mu := mu)] + rest, lin)(x) <= Objective(m, [t] + rest, lin)(x)
  {
    TermAntitoneInCentre(m, t, mu, x);
    assert ([t] + rest)[1..] == rest && ([t.(mu := mu)] + rest)[1..] == rest;
    AffineOrder(lin, x, EvalTanhs(m, [t.(mu := mu)] + rest, x), EvalTanhs(m, [t] + rest, x));
  }
}
