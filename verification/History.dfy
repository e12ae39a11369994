/** The weights with which a contestant's past performances enter the new mean (judge/ratings.py), and
    why what they leave for the prior is positive. */
module History {
  import opened Numerics
  import opened Solver
  import opened Variance

  /** Share of a measurement that survives one more contest's diffusion. */
  function Retain(v: real): real
    requires 0.0 < v
  {
    v / (v + VAR_PER_CONTEST)
  }

  /** Weight of performance j (0 is the newest) after `times` earlier contests. */
  function Weight(times: nat, j: nat): real
    requires j <= times
  {
    if j == 0 then 1.0 else Weight(times, j - 1) * (Retain(Var(times + 1 - j)) * Retain(Var(times + 1 - j)))
  }

  function WeightSum(times: nat, n: nat): real
    requires n <= times + 1
  {
    if n == 0 then 0.0 else WeightSum(times, n - 1) + Weight(times, n - 1) / BETA2
  }

  /** What is left of the posterior precision for the prior: w0 in the source. */
  function PriorWeight(times: nat, n: nat): real
    requires n <= times + 1
  {
    1.0 / Var(times + 1) - WeightSum(times, n)
  }

  lemma FractionInside(v: real, c: real)
    requires 0.0 < v && 0.0 < c
    ensures 0.0 < v / (v + c) < 1.0
  {
    RatioInside(v, 0.0, v + c);
  }

  lemma RetainInside(v: real)
    requires 0.0 < v
    ensures 0.0 < Retain(v) * Retain(v)
  {
    FractionInside(v, VAR_PER_CONTEST);
    ProductPositive(Retain(v), Retain(v));
  }

  lemma {:induction false} WeightPositive(times: nat, j: nat)
    requires j <= times
    ensures 0.0 < Weight(times, j)
  {
    if j != 0 {
      WeightPositive(times, j - 1);
      RetainInside(Var(times + 1 - j));
      ProductPositive(Weight(times, j - 1), (Retain(Var(times + 1 - j)) * Retain(Var(times + 1 - j))));
    }
  }

  /** One step backwards in time: precision r kept at variance u + c covers the next measurement, and
      what is left over still covers the one after it. */
  lemma PrecisionStep(b: real, c: real, u: real, u': real, w: real, k: real, w': real, r: real)
    requires 0.0 < b && 0.0 < c && 0.0 < u' && 0.0 < w
    requires 0.0 < u && 1.0 / u == 1.0 / (u' + c) + 1.0 / b
    requires w / (u + c) <= r
    requires k == u / (u + c) && w' == w * (k * k)
    ensures w' / (u' + c) <= r - w' / b
  {
    var q := 1.0 / (u + c);
    assert 0.0 < q && q * (u + c) == 1.0 by { ReciprocalPositive(u + c); }
    assert k == u * q by { DivideAsProduct(u, u + c); }
    assert w * q <= r by { DivideAsProduct(w, u + c); }
    PrecisionInverse(w, w', u, q, c, k, 1.0 / (u' + c), 1.0 / b, r);
    ToQuotients(w', u' + c, b, r);
  }

  lemma PrecisionInverse(w: real, w': real, u: real, q: real, c: real, k: real, x: real, y: real, r: real)
    requires 0.0 < w && 0.0 < u && 0.0 < q && 0.0 < c
    requires q * (u + c) == 1.0 && k == u * q && 1.0 / u == x + y
    requires w * q <= r && w' == w * (k * k)
    ensures w' * x <= r - w' * y
  {
    assert (1.0 / u) * u == 1.0 by { ReciprocalPositive(u); }
    PrecisionCore(w, w', u, q, c, k, 1.0 / u, x, y, r);
  }

  lemma ToQuotients(w: real, d: real, b: real, r: real)
    requires 0.0 < d && 0.0 < b
    requires w * (1.0 / d) <= r - w * (1.0 / b)
    ensures w / d <= r - w / b
  {
    DivideAsProduct(w, d);
    DivideAsProduct(w, b);
  }

  lemma PrecisionCore(w: real, w': real, u: real, q: real, c: real, k: real, p: real, x: real, y: real, r: real)
    requires 0.0 < w && 0.0 < u && 0.0 < q && 0.0 < c
    requires q * (u + c) == 1.0 && k == u * q && p * u == 1.0 && p == x + y
    requires w * q <= r && w' == w * (k * k)
    ensures w' * x <= r - w' * y
  {
    Cover(w, u, q, c, k, p);
    SplitPrecision(w', x, y, p);
  }

  lemma DivideAsProduct(x: real, d: real)
    requires 0.0 < d
    ensures x / d == x * (1.0 / d)
  {
    var q := 1.0 / d;
    assert q * d == 1.0;
    assert (x / d - x * q) * d == 0.0;
  }

  lemma SplitPrecision(w: real, x: real, y: real, z: real)
    requires z == x + y
    ensures w * x + w * y == w * z
  {}

  lemma Cover(w: real, u: real, q: real, c: real, k: real, p: real)
    requires 0.0 < w && 0.0 < u && 0.0 < q && 0.0 < c
    requires q * (u + c) == 1.0 && k == u * q && p * u == 1.0
    ensures (w * (k * k)) * p <= w * q
  {
    calc {
      (w * (k * k)) * p;
      { assert k * k == (u * q) * k; }
      (w * ((u * q) * k)) * p;
      (w * q * k) * (p * u);
      w * q * k;
    }
    assert 0.0 < q * c by { ProductPositive(q, c); }
    assert k <= 1.0;
    assert 0.0 < w * q by { ProductPositive(w, q); }
    ProductOrder(w * q, k, 1.0);
  }

  /** The prior keeps at least the precision of a measurement as old as the oldest one used. */
  lemma {:induction false} PriorWeightBound(times: nat, j: nat)
    requires j <= times
    ensures Weight(times, j) / (Var(times - j) + VAR_PER_CONTEST) <= PriorWeight(times, j + 1)
  {
    if j == 0 {
      NextValue(BETA2, VAR_PER_CONTEST, Var(times));
      assert WeightSum(times, 1) == WeightSum(times, 0) + 1.0 / BETA2;
    } else {
      PriorWeightBound(times, j - 1);
      WeightPositive(times, j - 1);
      var u, u' := Var(times - (j - 1)), Var(times - j);
      NextValue(BETA2, VAR_PER_CONTEST, u');
      PrecisionStep(BETA2, VAR_PER_CONTEST, u, u', Weight(times, j - 1), Retain(u), Weight(times, j),
                    PriorWeight(times, j));
    }
  }

  /** w0 > 0 for every number of contests and every history that is no longer: the division that
      defines p0 is safe and the function handed to `solve` increases. */
  lemma PriorWeightPositive(times: nat, h: nat)
    requires h <= times
    ensures 0.0 < PriorWeight(times, h + 1)
  {
    PriorWeightBound(times, h);
    WeightPositive(times, h);
    DivideOrder(0.0, Weight(times, h), Var(times - h) + VAR_PER_CONTEST);
  }

  /** Share of performance j in the posterior mean of the exact (Gaussian) filter, before its factor 1 / BETA2. */
  function Share(times: nat, j: nat): real
    requires j <= times
  {
    if j == 0 then 1.0 else Share(times, j - 1) * Retain(Var(times + 1 - j))
  }

  function ShareSum(times: nat, n: nat): real
    requires n <= times + 1
  {
    if n == 0 then 0.0 else ShareSum(times, n - 1) + Share(times, n - 1) / BETA2
  }

  /** The precision after `times` + 1 contests is made up, with nothing left over, of the shares of the
      newest n performances and of what was known before them. */
  lemma {:induction false} SharesMakeUpPrecision(times: nat, j: nat)
    requires j <= times
    ensures 1.0 / Var(times + 1) == ShareSum(times, j + 1) + Share(times, j) / (Var(times - j) + VAR_PER_CONTEST)
  {
    var d := Var(times - j) + VAR_PER_CONTEST;
    assert 1.0 / Var(times + 1 - j) == 1.0 / d + 1.0 / BETA2 by {
      NextValue(BETA2, VAR_PER_CONTEST, Var(times - j));
    }
    if j == 0 {
      assert ShareSum(times, 1) == ShareSum(times, 0) + Share(times, 0) / BETA2;
    } else {
      SharesMakeUpPrecision(times, j - 1);
      ShareStep(Share(times, j - 1), Share(times, j), Var(times + 1 - j), d);
    }
  }

  lemma ShareStep(s: real, s': real, v: real, d: real)
    requires 0.0 < v && 0.0 < d && 1.0 / v == 1.0 / d + 1.0 / BETA2 && s' == s * Retain(v)
    ensures s / (v + VAR_PER_CONTEST) == s' / BETA2 + s' / d
  {
    var c := v + VAR_PER_CONTEST;
    DivideAsProduct(s, c);
    DivideAsProduct(v, c);
    DivideAsProduct(s', BETA2);
    DivideAsProduct(s', d);
    ShareSplit(s, s', v, 1.0 / c, 1.0 / v, 1.0 / BETA2, 1.0 / d);
  }

  lemma ShareSplit(s: real, s': real, v: real, q: real, p: real, x: real, y: real)
    requires s' == s * (v * q) && p * v == 1.0 && p == x + y
    ensures s * q == s' * x + s' * y
  {
    SplitPrecision(s', x, y, p);
    assert s' * p == (s * q) * (p * v);
  }

  lemma SquareStep(w: real, s: real, k: real, w': real, s': real)
    requires w == s * s && w' == w * (k * k) && s' == s * k
    ensures w' == s' * s'
  {
    calc {
      s' * s';
      s * (k * (s * k));
      s * (s * (k * k));
      w';
    }
  }

  /** A weight is the square of a share: the prior keeps what the squares of the shares leave. */
  lemma {:induction false} WeightIsSquaredShare(times: nat, j: nat)
    requires j <= times
    ensures Weight(times, j) == Share(times, j) * Share(times, j)
  {
    if j != 0 {
      WeightIsSquaredShare(times, j - 1);
      SquareStep(Weight(times, j - 1), Share(times, j - 1), Retain(Var(times + 1 - j)), Weight(times, j),
                 Share(times, j));
    }
  }
}
