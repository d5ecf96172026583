/** Inner products over real vectors, with just the algebra the two online learners need. */
module Vectors {
  type Vec = seq<real>

  /** Summed left to right, as the prediction loops accumulate it. */
  function Dot(a: Vec, b: Vec): real
    requires |a| == |b|
  {
    if |a| == 0 then 0.0
    else Dot(a[..|a| - 1], b[..|b| - 1]) + a[|a| - 1] * b[|b| - 1]
  }

  function NormSq(a: Vec): real {
    Dot(a, a)
  }

  /** a + s * x, componentwise. */
  function AddScaled(a: Vec, s: real, x: Vec): (r: Vec)
    requires |a| == |x|
    ensures |r| == |a|
    ensures forall i | 0 <= i < |a| :: r[i] == a[i] + s * x[i]
  {
    seq(|a|, i requires 0 <= i < |a| => a[i] + s * x[i])
  }

  lemma IsAddScaled(r: Vec, a: Vec, s: real, x: Vec)
    requires |r| == |a| == |x| && forall i | 0 <= i < |a| :: r[i] == a[i] + s * x[i]
    ensures r == AddScaled(a, s, x)
  {
  }

  function Zeros(n: nat): Vec {
    seq(n, _ => 0.0)
  }

  function Unit(n: nat, j: nat): (r: Vec)
    ensures |r| == n && forall i | 0 <= i < n :: r[i] == if i == j then 1.0 else 0.0
  {
    seq(n, i => if i == j then 1.0 else 0.0)
  }

  /** The product with a unit vector picks a component; with linearity this says what the product is. */
  lemma {:induction false} DotUnit(a: Vec, j: nat)
    ensures Dot(a, Unit(|a|, j)) == if j < |a| then a[j] else 0.0
  {
    var n := |a| - 1;
    if n >= 0 {
      assert Unit(|a|, j)[..n] == Unit(n, j);
      DotUnit(a[..n], j);
    }
  }

  lemma {:induction false} DotPrefix(a: Vec, b: Vec, j: nat)
    requires |a| == |b| && j < |a|
    ensures Dot(a[..j + 1], b[..j + 1]) == Dot(a[..j], b[..j]) + a[j] * b[j]
  {
    assert a[..j + 1][..j] == a[..j] && b[..j + 1][..j] == b[..j];
  }

  lemma {:induction false} DotAppend(a: Vec, p: real, b: Vec, q: real)
    requires |a| == |b|
    ensures Dot(a + [p], b + [q]) == Dot(a, b) + p * q
  {
    assert (a + [p])[..|a|] == a && (b + [q])[..|b|] == b;
  }

  lemma {:induction false} DotSymmetric(a: Vec, b: Vec)
    requires |a| == |b|
    ensures Dot(a, b) == Dot(b, a)
  {
    if |a| > 0 {
      DotSymmetric(a[..|a| - 1], b[..|b| - 1]);
    }
  }

  lemma {:induction false} DotZeros(n: nat, v: Vec)
    requires |v| == n
    ensures Dot(Zeros(n), v) == 0.0
  {
    if n > 0 {
      assert Zeros(n)[..n - 1] == Zeros(n - 1);
      DotZeros(n - 1, v[..n - 1]);
    }
  }

  lemma PrefixAddScaled(a: Vec, s: real, x: Vec)
    requires |a| == |x| > 0
    ensures AddScaled(a, s, x)[..|a| - 1] == AddScaled(a[..|a| - 1], s, x[..|a| - 1])
  {
    var n := |a| - 1;
    var r, r' := AddScaled(a, s, x), AddScaled(a[..n], s, x[..n]);
    forall i | 0 <= i < n ensures r[i] == r'[i] {
      assert a[..n][i] == a[i] && x[..n][i] == x[i];
    }
    assert r[..n] == r';
  }

  lemma Distribute(s: real, a: real, x: real, v: real, d: real)
    ensures (a + s * x) * v == a * v + s * (x * v)
    ensures s * (d + x * v) == s * d + s * (x * v)
  {
  }

  lemma {:induction false} DotAddScaled(a: Vec, s: real, x: Vec, v: Vec)
    requires |a| == |x| == |v|
    ensures Dot(AddScaled(a, s, x), v) == Dot(a, v) + s * Dot(x, v)
  {
    hide AddScaled;
    var n := |a| - 1;
    if n >= 0 {
      DotAddScaled(a[..n], s, x[..n], v[..n]);
      PrefixAddScaled(a, s, x);
      LastProduct(Dot(a[..n], v[..n]), Dot(x[..n], v[..n]), s, a[n], x[n], v[n]);
    }
  }

  lemma LastProduct(d: real, e: real, s: real, a: real, x: real, v: real)
    ensures d + s * e + (a + s * x) * v == d + a * v + s * (e + x * v)
  {
    Distribute(s, a, x, v, e);
  }

  lemma {:induction false} NormSqAddScaled(a: Vec, s: real, x: Vec)
    requires |a| == |x|
    ensures NormSq(AddScaled(a, s, x)) == NormSq(a) + 2.0 * s * Dot(a, x) + s * s * NormSq(x)
  {
    hide Dot;
    var r := AddScaled(a, s, x);
    DotAddScaled(a, s, x, r);
    DotAddScaled(a, s, x, a);
    DotAddScaled(a, s, x, x);
    DotSymmetric(a, r);
    DotSymmetric(x, r);
    DotSymmetric(a, x);
    assert NormSq(r) == Dot(r, a) + s * Dot(r, x);
    var m, n := Dot(a, x), Dot(x, x);
    assert s * (m + s * n) == s * m + s * s * n;
  }

  lemma {:induction false} NormSqNonNegative(a: Vec)
    ensures NormSq(a) >= 0.0
  {
    if |a| > 0 {
      NormSqNonNegative(a[..|a| - 1]);
    }
  }

  lemma {:induction false} NullVector(a: Vec, b: Vec)
    requires |a| == |b| && NormSq(b) == 0.0
    ensures Dot(a, b) == 0.0
  {
    var n := |b|;
    if n > 0 {
      NormSqNonNegative(b[..n - 1]);
      var t := b[n - 1];
      if t > 0.0 {
        assert t * t > 0.0;
      } else if t < 0.0 {
        assert (-t) * (-t) > 0.0;
      }
      assert NormSq(b) == NormSq(b[..n - 1]) + t * t;
      NullVector(a[..n - 1], b[..n - 1]);
    }
  }

  /** The square of B*a - C*b is not negative, where B = |b|^2 and C = a.b. */
  lemma {:induction false} CauchySchwarz(a: Vec, b: Vec)
    requires |a| == |b|
    ensures Dot(a, b) * Dot(a, b) <= NormSq(a) * NormSq(b)
  {
    var A, B, C := NormSq(a), NormSq(b), Dot(a, b);
    NormSqNonNegative(a);
    NormSqNonNegative(b);
    if B == 0.0 {
      NullVector(a, b);
    } else {
      var s := -C / B;
      assert s * B == -C;
      NormSqNonNegative(AddScaled(a, s, b));
      NormSqAddScaled(a, s, b);
      assert 0.0 <= A + 2.0 * s * C + s * s * B;
      assert s * s * B == s * (s * B) == -(s * C);
      assert 0.0 <= A + s * C;
      assert 0.0 <= (A + s * C) * B;
      assert (A + s * C) * B == A * B + C * (s * B);
    }
  }
}
