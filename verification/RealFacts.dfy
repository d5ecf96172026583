/** The few facts about products of reals that the solver should not have to rediscover. */
module RealFacts {
  function Times(a: real, b: real): (r: real)
    ensures a > 0.0 && b > 0.0 ==> r > 0.0
    ensures a < 0.0 && b < 0.0 ==> r > 0.0
    ensures a == 0.0 ==> r == 0.0
  {
    a * b
  }

  function Square(a: real): (r: real)
    ensures r >= 0.0 && (a != 0.0 ==> r > 0.0)
  {
    Times(a, a)
  }

  lemma ScaleMonotone(q: real, a: real, b: real)
    requires q >= 0.0 && a <= b
    ensures q * a <= q * b
  {
    assert q * (b - a) >= 0.0;
  }

  lemma CancelFactor(q: real, a: real, b: real)
    requires q > 0.0
    ensures q * a <= q * b ==> a <= b
  {
    if a > b {
      assert q * (a - b) > 0.0;
    }
  }

  lemma SquareMonotone(a: real, b: real)
    requires 0.0 <= a <= b
    ensures a * a <= b * b
  {
    ScaleMonotone(a, a, b);
    ScaleMonotone(b, a, b);
  }
}
