/** The rating variance recurrence (judge/ratings.py): its constants, the memoised `get_var`, and its limit. */
module Variance {
  import opened Numerics

  const BETA2: real := 328.33 * 328.33
  const VAR_INIT: real := 200.0 * 200.0 * (BETA2 / (212.0 * 212.0))
  const VAR_PER_CONTEST: real := 1219.047619 * (BETA2 / (212.0 * 212.0))

  /** One contest: diffusion by c, then a measurement of variance b. */
  function Next(b: real, c: real, v: real): real
    requires 0.0 < b && 0.0 < c && 0.0 < v
  {
    1.0 / (1.0 / (v + c) + 1.0 / b)
  }

  function Iterate(b: real, c: real, v0: real, t: nat): (v: real)
    requires 0.0 < b && 0.0 < c && 0.0 < v0
    ensures 0.0 < v
  {
    if t == 0 then v0
    else
      var v := Iterate(b, c, v0, t - 1);
      NextValue(b, c, v);
      Next(b, c, v)
  }

  lemma ReciprocalPositive(x: real)
    requires 0.0 < x
    ensures 0.0 < 1.0 / x && (1.0 / x) * x == 1.0
  {}

  /** The harmonic form of the source is (v + c) b / (v + c + b). */
  lemma NextValue(b: real, c: real, v: real)
    requires 0.0 < b && 0.0 < c && 0.0 < v
    ensures 0.0 < Next(b, c, v)
    ensures Next(b, c, v) * (v + c + b) == (v + c) * b
    ensures 1.0 / Next(b, c, v) == 1.0 / (v + c) + 1.0 / b
  {
    var p, q := 1.0 / (v + c), 1.0 / b;
    ReciprocalPositive(v + c);
    ReciprocalPositive(b);
    ReciprocalPositive(p + q);
    var n := Next(b, c, v);
    assert n * (p + q) == 1.0;
    ClearDenominators(n, p, q, v + c, b);
    ReciprocalUnique(n, p + q);
  }

  lemma ReciprocalUnique(n: real, s: real)
    requires 0.0 < n && n * s == 1.0
    ensures 1.0 / n == s
  {
    var r := 1.0 / n;
    assert r * n == 1.0;
    assert r * (n * s) == (r * n) * s;
  }

  lemma ClearDenominators(n: real, p: real, q: real, x: real, y: real)
    requires n * (p + q) == 1.0 && p * x == 1.0 && q * y == 1.0
    ensures n * (x + y) == x * y
  {
    calc {
      x * y;
      x * y * (n * (p + q));
      n * (y * (p * x) + x * (q * y));
      n * (x + y);
    }
  }

  // ---- The limit ----

  ghost predicate Limit(b: real, c: real, l: real) {
    0.0 < l && l * l + c * l == c * b
  }

  function VarLim(m: Numerics): real {
    (m.sqrt(VAR_PER_CONTEST * VAR_PER_CONTEST + 4.0 * BETA2 * VAR_PER_CONTEST) - VAR_PER_CONTEST) / 2.0
  }

  lemma PositiveRoot(b: real, c: real, s: real)
    requires 0.0 < b && 0.0 < c && 0.0 <= s && s * s == c * c + 4.0 * b * c
    ensures Limit(b, c, (s - c) / 2.0)
  {
    var l := (s - c) / 2.0;
    ProductPositive(b, c);
    SquareOrder(c, s);
    assert l * l == (s * s - 2.0 * (s * c) + c * c) / 4.0;
    assert l * c == (s * c - c * c) / 2.0;
  }

  lemma VarLimIsLimit(m: Numerics)
    requires SquareRoot(m.sqrt)
    ensures Limit(BETA2, VAR_PER_CONTEST, VarLim(m))
  {
    PositiveRoot(BETA2, VAR_PER_CONTEST,
                 m.sqrt(VAR_PER_CONTEST * VAR_PER_CONTEST + 4.0 * BETA2 * VAR_PER_CONTEST));
  }

  lemma LimitBelow(b: real, c: real, l: real, v: real)
    requires 0.0 < b && 0.0 < c && Limit(b, c, l) && 0.0 < v
    ensures l < v <==> c * b < v * v + c * v
  {
    assert v * v + c * v - (l * l + c * l) == (v - l) * (v + l + c);
    if l < v {
      ProductPositive(v - l, v + l + c);
    } else if v < l {
      assert (l - v) * (v + l + c) == l * l + c * l - (v * v + c * v);
      ProductPositive(l - v, v + l + c);
    }
  }

  lemma LimitBelowB(b: real, c: real, l: real)
    requires 0.0 < b && 0.0 < c && Limit(b, c, l)
    ensures l < b
  {
    ProductPositive(b, b);
    LimitBelow(b, c, l, b);
  }

  /** How one contest moves the distance to the limit. */
  lemma GapStep(b: real, c: real, l: real, v: real)
    requires 0.0 < b && 0.0 < c && Limit(b, c, l) && 0.0 < v
    ensures (Next(b, c, v) - l) * (v + c + b) == (v - l) * (b - l)
  {
    NextValue(b, c, v);
    var n := Next(b, c, v);
    calc {
      (n - l) * (v + c + b);
      n * (v + c + b) - l * (v + c + b);
      (v + c) * b - l * (v + c + b);
      { assert l * c == c * b - l * l; }
      (v + c) * b - l * v - (c * b - l * l) - l * b;
      (v - l) * (b - l);
    }
  }

  lemma QuotientPositive(x: real, d: real)
    requires 0.0 < d && 0.0 < x * d
    ensures 0.0 < x
  {
    if x < 0.0 {
      ProductPositive(0.0 - x, d);
    }
  }

  lemma NextAbove(b: real, c: real, l: real, v: real)
    requires 0.0 < b && 0.0 < c && Limit(b, c, l) && l < v
    ensures l < Next(b, c, v)
  {
    LimitBelowB(b, c, l);
    GapStep(b, c, l, v);
    ProductPositive(v - l, b - l);
    QuotientPositive(Next(b, c, v) - l, v + c + b);
  }

  lemma DropValue(b: real, c: real, v: real, n: real)
    requires n * (v + c + b) == (v + c) * b
    ensures (v - n) * (v + c + b) == v * v + c * v - c * b
  {
    assert v * (v + c + b) == v * v + c * v + v * b;
  }

  lemma NextBelow(b: real, c: real, l: real, v: real)
    requires 0.0 < b && 0.0 < c && Limit(b, c, l) && l < v
    ensures Next(b, c, v) < v
  {
    NextValue(b, c, v);
    LimitBelow(b, c, l, v);
    DropValue(b, c, v, Next(b, c, v));
    QuotientPositive(v - Next(b, c, v), v + c + b);
  }

  lemma GapShrinks(b: real, c: real, l: real, v: real)
    requires 0.0 < b && 0.0 < c && Limit(b, c, l) && l < v
    ensures (Next(b, c, v) - l) * (b + c) <= (v - l) * b
  {
    var n := Next(b, c, v);
    NextAbove(b, c, l, v);
    GapStep(b, c, l, v);
    ProductPositive(n - l, v);
    ProductPositive(v - l, l);
    assert (n - l) * (v + c + b) == (n - l) * (b + c) + (n - l) * v;
    assert (v - l) * (b - l) == (v - l) * b - (v - l) * l;
  }

  lemma {:induction false} IterateDescends(b: real, c: real, v0: real, l: real, t: nat)
    requires 0.0 < b && 0.0 < c && Limit(b, c, l) && l < v0
    ensures l < Iterate(b, c, v0, t + 1) < Iterate(b, c, v0, t)
  {
    if t != 0 {
      IterateDescends(b, c, v0, l, t - 1);
    }
    NextAbove(b, c, l, Iterate(b, c, v0, t));
    NextBelow(b, c, l, Iterate(b, c, v0, t));
  }

  lemma {:induction false} IterateAbove(b: real, c: real, v0: real, l: real, t: nat)
    requires 0.0 < b && 0.0 < c && Limit(b, c, l) && l < v0
    ensures l < Iterate(b, c, v0, t)
  {
    if t != 0 {
      IterateDescends(b, c, v0, l, t - 1);
    }
  }

  lemma CancelFactor(x: real, y: real, k: real)
    requires 0.0 < k && x * k <= y * k
    ensures x <= y
  {
    if y < x {
      ProductPositive(x - y, k);
    }
  }

  lemma Bernoulli(b: real, c: real, t: real)
    requires 0.0 < b && 0.0 < c && 0.0 <= t
    ensures b * (b + (t + 1.0) * c) <= (b + c) * (b + t * c)
  {
    ProductPositive(c, c);
    ProductOrder(c * c, 0.0, t);
    assert (b + c) * (b + t * c) == b * (b + (t + 1.0) * c) + c * c * t;
  }

  lemma RateStep(b: real, c: real, g: real, g': real, t: real, bound: real)
    requires 0.0 < b && 0.0 < c && 0.0 < g' && 0.0 <= t
    requires g' * (b + c) <= g * b
    requires g * (b + t * c) <= bound
    ensures g' * (b + (t + 1.0) * c) <= bound
  {
    var k, k' := b + t * c, b + (t + 1.0) * c;
    assert 0.0 <= k by { ProductOrder(c, 0.0, t); }
    assert b * k' <= (b + c) * k by { Bernoulli(b, c, t); }
    RateChain(b, c, g, g', k, k', bound);
  }

  lemma RateChain(b: real, c: real, g: real, g': real, k: real, k': real, bound: real)
    requires 0.0 < b && 0.0 < g' && 0.0 <= k
    requires b * k' <= (b + c) * k
    requires g' * (b + c) <= g * b && g * k <= bound
    ensures g' * k' <= bound
  {
    assert (g' * k') * b <= bound * b by {
      calc {
        (g' * k') * b;
        g' * (b * k');
      <= { ProductOrder(g', b * k', (b + c) * k); }
        g' * ((b + c) * k);
        k * (g' * (b + c));
      <= { ProductOrder(k, g' * (b + c), g * b); }
        k * (g * b);
        b * (g * k);
      <= { ProductOrder(b, g * k, bound); }
        b * bound;
      }
    }
    CancelFactor(g' * k', bound, b);
  }

  ghost predicate Shrinks(b: real, c: real, g: real, g': real) {
    g' * (b + c) <= g * b
  }

  ghost predicate Contracts(b: real, c: real, g: nat -> real) {
    forall t: nat :: 0.0 < g(t) && Shrinks(b, c, g(t), g(t + 1))
  }

  lemma {:induction false} Decay(b: real, c: real, g: nat -> real, t: nat)
    requires 0.0 < b && 0.0 < c && Contracts(b, c, g)
    ensures g(t) * (b + t as real * c) <= g(0) * b
  {
    if t == 0 {
      assert 0.0 * c == 0.0;
    } else {
      Decay(b, c, g, t - 1);
      assert 0.0 < g(t) && Shrinks(b, c, g(t - 1), g(t - 1 + 1));
      RateStep(b, c, g(t - 1), g(t), (t - 1) as real, g(0) * b);
      assert (t - 1) as real + 1.0 == t as real;
    }
  }

  function Gap(b: real, c: real, v0: real, l: real): nat -> real
    requires 0.0 < b && 0.0 < c && 0.0 < v0
  {
    (t: nat) => Iterate(b, c, v0, t) - l
  }

  lemma IterateUnfold(b: real, c: real, v0: real, t: nat)
    requires 0.0 < b && 0.0 < c && 0.0 < v0
    ensures Iterate(b, c, v0, t + 1) == Next(b, c, Iterate(b, c, v0, t))
  {}

  lemma GapContractsAt(b: real, c: real, l: real, v: real, n: real)
    requires 0.0 < b && 0.0 < c && Limit(b, c, l) && l < v && n == Next(b, c, v)
    ensures Shrinks(b, c, v - l, n - l)
  {
    GapShrinks(b, c, l, v);
  }

  lemma GapContracts(b: real, c: real, v0: real, l: real)
    requires 0.0 < b && 0.0 < c && Limit(b, c, l) && l < v0
    ensures Contracts(b, c, Gap(b, c, v0, l))
  {
    var g := Gap(b, c, v0, l);
    forall t: nat
      ensures 0.0 < g(t) && Shrinks(b, c, g(t), g(t + 1))
    {
      IterateAbove(b, c, v0, l, t);
      IterateUnfold(b, c, v0, t);
      GapContractsAt(b, c, l, Iterate(b, c, v0, t), Iterate(b, c, v0, t + 1));
    }
  }

  // ---- The values of the repository ----

  function Var(t: nat): (v: real)
    ensures 0.0 < v
  {
    Iterate(BETA2, VAR_PER_CONTEST, VAR_INIT, t)
  }

  lemma InitAboveLimit(m: Numerics)
    requires SquareRoot(m.sqrt)
    ensures VarLim(m) < VAR_INIT
  {
    VarLimIsLimit(m);
    LimitBelow(BETA2, VAR_PER_CONTEST, VarLim(m), VAR_INIT);
  }

  /** The variance strictly falls with every contest and never reaches its limit. */
  lemma VarDescends(m: Numerics, t: nat)
    requires SquareRoot(m.sqrt)
    ensures 0.0 < VarLim(m) < Var(t + 1) < Var(t)
  {
    VarLimIsLimit(m);
    InitAboveLimit(m);
    IterateDescends(BETA2, VAR_PER_CONTEST, VAR_INIT, VarLim(m), t);
  }

  function Horizon(t: nat): (h: real)
    ensures 0.0 < h
  {
    BETA2 + t as real * VAR_PER_CONTEST
  }

  /** ... and the distance left after t contests is at most (VAR_INIT - VAR_LIM) BETA2 / (BETA2 + t VAR_PER_CONTEST). */
  lemma VarConverges(m: Numerics, t: nat)
    requires SquareRoot(m.sqrt)
    ensures (Var(t) - VarLim(m)) * Horizon(t) <= (VAR_INIT - VarLim(m)) * BETA2
  {
    VarLimIsLimit(m);
    InitAboveLimit(m);
    var l := VarLim(m);
    GapContracts(BETA2, VAR_PER_CONTEST, VAR_INIT, l);
    Decay(BETA2, VAR_PER_CONTEST, Gap(BETA2, VAR_PER_CONTEST, VAR_INIT, l), t);
  }

  /** `get_var`: a list that only ever grows, shared by every call. */
  class VarCache {
    var cache: seq<real>

    ghost predicate Valid()
      reads this
    {
      0 < |cache| && forall t :: 0 <= t < |cache| ==> cache[t] == Var(t)
    }

    constructor ()
      ensures Valid() && cache == [VAR_INIT]
    {
      cache := [VAR_INIT];
    }

    method GetVar(timesRanked: nat) returns (v: real)
      requires Valid()
      modifies this
      ensures Valid() && old(cache) <= cache
      ensures v == Var(timesRanked)
      ensures |cache| == if timesRanked < old(|cache|) then old(|cache|) else timesRanked + 1
    {
      while timesRanked >= |cache|
        invariant Valid() && old(cache) <= cache
        invariant |cache| == old(|cache|) || |cache| <= timesRanked + 1
        decreases timesRanked + 1 - |cache|
      {
        ghost var t := |cache| - 1;
        assert cache[t] == Var(t);
        assert Var(t + 1) == Next(BETA2, VAR_PER_CONTEST, Var(t));
        var nextVar := 1.0 / (1.0 / (cache[|cache| - 1] + VAR_PER_CONTEST) + 1.0 / BETA2);
        cache := cache + [nextVar];
      }
      v := cache[timesRanked];
    }
  }
}
