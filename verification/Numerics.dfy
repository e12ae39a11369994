/** The floating-point library the rating code leans on, taken as a parameter.  The rating theorems
    hold for every such library, so for the real tanh, square root and rounding in particular. */
module Numerics {
  datatype Numerics = Numerics(tanh: real -> real, sqrt: real -> real, round: real -> int, pi: real)

  ghost predicate Increasing(f: real -> real) {
    forall x, y :: x <= y ==> f(x) <= f(y)
  }

  ghost predicate StrictlyIncreasing(f: real -> real) {
    forall x, y :: x < y ==> f(x) < f(y)
  }

  ghost predicate SquareRoot(sqrt: real -> real) {
    forall x :: 0.0 <= x ==> 0.0 <= sqrt(x) && sqrt(x) * sqrt(x) == x
  }

  /** Nearest-integer rounding; which way a tie goes is left open except that it is monotone. */
  ghost predicate Rounding(round: real -> int) {
    && (forall x, y :: x <= y ==> round(x) <= round(y))
    && (forall x :: -0.5 <= round(x) as real - x <= 0.5)
  }

  ghost predicate Lawful(m: Numerics) {
    && StrictlyIncreasing(m.tanh)
    && m.tanh(0.0) == 0.0
    && SquareRoot(m.sqrt)
    && Rounding(m.round)
    && 0.0 < m.pi
  }

  lemma SqrtPositive(sqrt: real -> real, x: real)
    requires SquareRoot(sqrt) && 0.0 < x
    ensures 0.0 < sqrt(x)
  {
    var r := sqrt(x);
    assert r * r == x;
  }

  lemma SquareOrder(r: real, s: real)
    requires 0.0 <= r && 0.0 <= s
    ensures r < s <==> r * r < s * s
    ensures r == s <==> r * r == s * s
  {
    assert s * s - r * r == (s - r) * (s + r);
    if r < s {
      ProductPositive(s - r, s + r);
    } else if s < r {
      assert r * r - s * s == (r - s) * (s + r);
      ProductPositive(r - s, s + r);
    }
  }

  lemma ProductPositive(x: real, y: real)
    requires 0.0 < x && 0.0 < y
    ensures 0.0 < x * y
  {}

  lemma ProductOrder(k: real, x: real, y: real)
    requires 0.0 <= k && x <= y
    ensures k * x <= k * y
    ensures 0.0 < k && x < y ==> k * x < k * y
  {}

  lemma SqrtOrder(sqrt: real -> real, x: real, y: real)
    requires SquareRoot(sqrt) && 0.0 <= x && 0.0 <= y
    ensures x < y <==> sqrt(x) < sqrt(y)
  {
    SquareOrder(sqrt(x), sqrt(y));
  }
}
