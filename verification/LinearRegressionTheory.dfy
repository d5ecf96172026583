/**
 What LMS training achieves when some model realises the targets: it never moves away, and its errors add up to little.
 */
module LinearRegressionTheory {
  import opened LinearModel
  import opened LinearRegressions
  import opened RealFacts
  import opened Vectors

  function Difference(m: Model, star: Model): Model
    requires |m.w| == |star.w|
  {
    Model(AddScaled(m.w, -1.0, star.w), m.b - star.b)
  }

  function DistanceSq(m: Model, star: Model): real
    requires |m.w| == |star.w|
  {
    NormSq(Whole(Difference(m, star)))
  }

  ghost predicate Realises(star: Model, X: seq<Vec>, y: seq<real>)
    requires Shaped(|star.w|, X, y)
  {
    forall i | 0 <= i < |X| :: y[i] == Activation(star, X[i])
  }

  ghost predicate Within(X: seq<Vec>, radiusSq: real) {
    forall i | 0 <= i < |X| :: NormSq(X[i]) + 1.0 <= radiusSq
  }

  /** h * (2 - h * r), the share of each squared error by which the squared distance shrinks. */
  function Shrink(h: real, r: real): real {
    h * (2.0 - h * r)
  }

  function Sum(s: seq<real>): real {
    if s == [] then 0.0 else Sum(s[..|s| - 1]) + s[|s| - 1]
  }

  lemma {:induction false} DifferenceMoves(m: Model, star: Model, s: real, x: Vec)
    requires |m.w| == |star.w| == |x|
    ensures Difference(Move(m, s, x), star) == Move(Difference(m, star), s, x)
  {
    var l, r := Difference(Move(m, s, x), star).w, Move(Difference(m, star), s, x).w;
    assert forall i | 0 <= i < |x| :: l[i] == r[i];
  }

  lemma {:induction false} DifferenceActivation(m: Model, star: Model, x: Vec)
    requires |m.w| == |star.w| == |x|
    ensures Activation(Difference(m, star), x) == Activation(m, x) - Activation(star, x)
  {
    DotAddScaled(m.w, -1.0, star.w, x);
  }

  /** Exactly how one sample changes the squared distance to a model that gets it right. */
  lemma {:induction false} SampleIdentity(m: Model, star: Model, x: Vec, rate: real, n: nat)
    requires |m.w| == |star.w| == |x| && n > 0
    ensures var e := Error(m, x, Activation(star, x));
            DistanceSq(Move(m, Stride(rate, e, n), x), star) ==
            DistanceSq(m, star) - Shrink(rate / n as real, NormSq(x) + 1.0) * Square(e)
  {
    hide Dot;
    var e, h, q := Error(m, x, Activation(star, x)), rate / n as real, NormSq(x) + 1.0;
    var s, d := Stride(rate, e, n), Difference(m, star);
    DifferenceMoves(m, star, s, x);
    DifferenceActivation(m, star, x);
    MoveEffects(d, d, s, x);
    assert s == -(h * e) by { StepIsShare(rate, e, n as real); }
    Expand(h, e, q);
  }

  lemma StepIsShare(rate: real, e: real, n: real)
    requires n != 0.0
    ensures rate * e / n == (rate / n) * e
  {
    var h := rate / n;
    assert rate * e == (h * e) * n;
  }

  lemma Expand(h: real, e: real, q: real)
    ensures 2.0 * (-(h * e) * e) + (-(h * e)) * (-(h * e)) * q == -(Shrink(h, q) * Square(e))
  {
    var t := Square(e);
    assert (h * e) * e == h * t;
    assert (h * e) * (h * e) * q == h * (h * q) * t;
    assert Shrink(h, q) * t == 2.0 * (h * t) - h * (h * q) * t;
  }

  /**
   A sample moves the model no farther away exactly if its step is not too long for its length, or it is already right.
   */
  lemma {:induction false} NoFartherIff(m: Model, star: Model, x: Vec, rate: real, n: nat)
    requires |m.w| == |star.w| == |x| && n > 0 && rate > 0.0
    ensures var e := Error(m, x, Activation(star, x));
            DistanceSq(Move(m, Stride(rate, e, n), x), star) <= DistanceSq(m, star) <==>
            e == 0.0 || rate / n as real * (NormSq(x) + 1.0) <= 2.0
  {
    var e, h, q := Error(m, x, Activation(star, x)), rate / n as real, NormSq(x) + 1.0;
    SampleIdentity(m, star, x, rate, n);
    assert h > 0.0;
    SignOfShrink(h, q, Square(e));
  }

  lemma SignOfShrink(h: real, q: real, t: real)
    requires h > 0.0 && t >= 0.0
    ensures Shrink(h, q) * t >= 0.0 <==> t == 0.0 || h * q <= 2.0
  {
    var a := 2.0 - h * q;
    if a < 0.0 {
      assert h * -a > 0.0;
      assert t > 0.0 ==> (h * -a) * t > 0.0;
    } else {
      assert h * a >= 0.0;
      assert (h * a) * t >= 0.0;
    }
  }

  lemma ShrinkPositive(h: real, r: real)
    requires h > 0.0 && h * r < 2.0
    ensures Shrink(h, r) > 0.0
  {
    var a := 2.0 - h * r;
    assert h * a > 0.0;
  }

  lemma ShrinkAntitone(h: real, q: real, r: real, t: real)
    requires h > 0.0 && q <= r && t >= 0.0
    ensures Shrink(h, r) * t <= Shrink(h, q) * t
  {
    ScaleMonotone(h, q, r);
    ScaleMonotone(h, 2.0 - h * r, 2.0 - h * q);
    ScaleMonotone(t, Shrink(h, r), Shrink(h, q));
  }

  /** From a squared distance `first` to `now`, errors that add up to `total` have been paid for at rate c. */
  predicate Paid(first: real, now: real, c: real, total: real) {
    now + c * total <= first
  }

  lemma NothingToPay(first: real, c: real)
    ensures Paid(first, first, c, 0.0)
  {
  }

  lemma PaidOn(first: real, before: real, after: real, c: real, e: real, t: real)
    requires Paid(first, before, c, e) && Paid(before, after, c, t)
    ensures Paid(first, after, c, e + t)
  {
    assert c * (e + t) == c * e + c * t;
  }

  lemma {:induction false} SamplePays(m: Model, star: Model, x: Vec, rate: real, n: nat, h: real, radiusSq: real)
    requires |m.w| == |star.w| == |x| && n > 0 && rate > 0.0 && NormSq(x) + 1.0 <= radiusSq
    requires h == rate / n as real && h > 0.0
    ensures var e := Error(m, x, Activation(star, x));
            Paid(DistanceSq(m, star), DistanceSq(Move(m, Stride(rate, e, n), x), star), Shrink(h, radiusSq), Square(e))
  {
    hide DistanceSq, Shrink, Stride, Move, NormSq, Square, Error;
    var t := Square(Error(m, x, Activation(star, x)));
    SampleIdentity(m, star, x, rate, n);
    ShrinkAntitone(h, NormSq(x) + 1.0, radiusSq, t);
  }

  lemma {:induction false} IterationBound(m: Model, star: Model, X: seq<Vec>, y: seq<real>, rate: real, k: nat,
                                          h: real, radiusSq: real)
    requires Shaped(|m.w|, X, y) && |star.w| == |m.w| && k <= |X|
    requires |X| > 0 && rate > 0.0 && Realises(star, X, y) && Within(X, radiusSq)
    requires h == rate / |X| as real
    ensures var p := Iteration(m, X, y, rate, k);
            Paid(DistanceSq(m, star), DistanceSq(p.m, star), Shrink(h, radiusSq), p.totalError)
  {
    hide DistanceSq, Shrink, Stride, Move, NormSq, Paid, Square, Error;
    if k == 0 {
      NothingToPay(DistanceSq(m, star), Shrink(h, radiusSq));
    } else {
      IterationBound(m, star, X, y, rate, k - 1, h, radiusSq);
      var p, p' := Iteration(m, X, y, rate, k - 1), Iteration(m, X, y, rate, k);
      var t := Square(Error(p.m, X[k - 1], y[k - 1]));
      PositiveShare(rate, |X|);
      SamplePays(p.m, star, X[k - 1], rate, |X|, h, radiusSq);
      PaidOn(DistanceSq(m, star), DistanceSq(p.m, star), DistanceSq(p'.m, star), Shrink(h, radiusSq), p.totalError, t);
    }
  }

  lemma PositiveShare(rate: real, n: nat)
    requires rate > 0.0 && n > 0
    ensures rate / n as real > 0.0
  {
  }

  lemma {:induction false} TrainingBound(m: Model, star: Model, X: seq<Vec>, y: seq<real>, rate: real,
                                         iterations: nat, h: real, radiusSq: real)
    requires Shaped(|m.w|, X, y) && |star.w| == |m.w|
    requires |X| > 0 && rate > 0.0 && Realises(star, X, y) && Within(X, radiusSq)
    requires h == rate / |X| as real
    ensures var f := Train(m, X, y, rate, iterations);
            Paid(DistanceSq(m, star), DistanceSq(f.m, star), Shrink(h, radiusSq), Sum(f.totals))
  {
    hide DistanceSq, Shrink, Iteration, Paid;
    if iterations == 0 {
      NothingToPay(DistanceSq(m, star), Shrink(h, radiusSq));
    } else {
      TrainingBound(m, star, X, y, rate, iterations - 1, h, radiusSq);
      var f := Train(m, X, y, rate, iterations - 1);
      var p := Iteration(f.m, X, y, rate, |X|);
      IterationBound(f.m, star, X, y, rate, |X|, h, radiusSq);
      assert (f.totals + [p.totalError])[..|f.totals|] == f.totals;
      PaidOn(DistanceSq(m, star), DistanceSq(f.m, star), DistanceSq(p.m, star), Shrink(h, radiusSq),
             Sum(f.totals), p.totalError);
    }
  }

  lemma {:induction false} ErrorsNonNegative(m: Model, X: seq<Vec>, y: seq<real>, rate: real, k: nat)
    requires Shaped(|m.w|, X, y) && k <= |X|
    ensures Iteration(m, X, y, rate, k).totalError >= 0.0
  {
    hide Error, Stride, Move;
    if k > 0 {
      ErrorsNonNegative(m, X, y, rate, k - 1);
    }
  }

  lemma {:induction false} TotalsNonNegative(m: Model, X: seq<Vec>, y: seq<real>, rate: real, iterations: nat)
    requires Shaped(|m.w|, X, y)
    ensures forall j | 0 <= j < iterations :: Train(m, X, y, rate, iterations).totals[j] >= 0.0
    ensures Sum(Train(m, X, y, rate, iterations).totals) >= 0.0
  {
    hide Iteration;
    if iterations > 0 {
      TotalsNonNegative(m, X, y, rate, iterations - 1);
      var f := Train(m, X, y, rate, iterations - 1);
      var t := Iteration(f.m, X, y, rate, |X|).totalError;
      ErrorsNonNegative(f.m, X, y, rate, |X|);
      assert (f.totals + [t])[..|f.totals|] == f.totals;
    }
  }

  /** The bound on the errors of all iterations together; the distance to the realising model does not grow. */
  lemma {:induction false} ErrorBound(m: Model, star: Model, X: seq<Vec>, y: seq<real>, rate: real,
                                      iterations: nat, h: real, radiusSq: real)
    requires Shaped(|m.w|, X, y) && |star.w| == |m.w|
    requires |X| > 0 && rate > 0.0 && Realises(star, X, y) && Within(X, radiusSq)
    requires h == rate / |X| as real && h * radiusSq < 2.0
    ensures var f, c := Train(m, X, y, rate, iterations), Shrink(h, radiusSq);
            c > 0.0 && DistanceSq(f.m, star) <= DistanceSq(m, star) && c * Sum(f.totals) <= DistanceSq(m, star)
  {
    hide Train, Dot;
    var f, c := Train(m, X, y, rate, iterations), Shrink(h, radiusSq);
    ShrinkPositive(h, radiusSq);
    TrainingBound(m, star, X, y, rate, iterations, h, radiusSq);
    TotalsNonNegative(m, X, y, rate, iterations);
    ScaleMonotone(c, 0.0, Sum(f.totals));
    NormSqNonNegative(Whole(Difference(f.m, star)));
  }

  lemma {:induction false} SomeBelowMean(s: seq<real>, eps: real) returns (j: nat)
    requires s != [] && Sum(s) < |s| as real * eps
    ensures j < |s| && s[j] < eps
  {
    var k := |s| - 1;
    if s[k] < eps {
      j := k;
    } else {
      j := SomeBelowMean(s[..k], eps);
    }
  }

  /** Any tolerance is met: with enough iterations some iteration's summed squared error is below it. */
  lemma {:induction false} ReachesTolerance(m: Model, star: Model, X: seq<Vec>, y: seq<real>, rate: real,
                                            iterations: nat, h: real, radiusSq: real, eps: real)
    requires Shaped(|m.w|, X, y) && |star.w| == |m.w|
    requires |X| > 0 && rate > 0.0 && Realises(star, X, y) && Within(X, radiusSq)
    requires h == rate / |X| as real && h * radiusSq < 2.0
    requires DistanceSq(m, star) < Shrink(h, radiusSq) * (iterations as real * eps)
    ensures exists j :: 0 <= j < iterations && Train(m, X, y, rate, iterations).totals[j] < eps
  {
    hide Train, Shrink, DistanceSq;
    var f, c := Train(m, X, y, rate, iterations), Shrink(h, radiusSq);
    ErrorBound(m, star, X, y, rate, iterations, h, radiusSq);
    if iterations as real * eps <= Sum(f.totals) {
      ScaleMonotone(c, iterations as real * eps, Sum(f.totals));
      assert false;
    }
    var j := SomeBelowMean(f.totals, eps);
    assert f.totals[j] < eps;
  }
}
