/**
 Training as src/ml/ml_lib.c:23-53 tells it, sample by sample, on any data: what each visit changes, what the summed
 errors are sums of, and what this comes to when some model realises the targets.
 */
module LinearRegressionHistory {
  import opened Histories
  import opened LinearModel
  import opened LinearRegressions
  import opened LinearRegressionTheory
  import opened RealFacts
  import opened Vectors

  /** Prediction less target. */
  function Miss(v: Model, x: Vec, y: real): real
    requires |x| == |v.w|
  {
    v.b + Dot(v.w, x) - y
  }

  /** What a miss e takes off the weight of a feature x. */
  function Share(rate: real, e: real, x: real, n: nat): real
    requires n > 0
  {
    rate * e * x / n as real
  }

  /** A visit takes rate * miss * feature / n off each weight, the bias going with the constant feature 1. */
  ghost predicate Visit(v: Model, v': Model, x: Vec, y: real, rate: real, n: nat) {
    && |v.w| == |v'.w| == |x| && n > 0
    && forall j | 0 <= j <= |x| :: Weight(v', j) == Weight(v, j) - Share(rate, Miss(v, x, y), Feature(x, j), n)
  }

  /** The models between the visits to the first k samples, in order. */
  ghost predicate Visits(v: seq<Model>, X: seq<Vec>, y: seq<real>, rate: real, k: nat) {
    && |v| == k + 1 && k <= |X| == |y|
    && forall i | 0 <= i < k :: Visit(v[i], v[i + 1], X[i], y[i], rate, |X|)
  }

  /** The sum of (prediction - target)^2 over the first k visits. */
  ghost function SquaredMisses(v: seq<Model>, X: seq<Vec>, y: seq<real>, rate: real, k: nat): real
    requires k < |v| && Visits(v, X, y, rate, |v| - 1)
  {
    if k == 0 then 0.0
    else
      assert Visit(v[k - 1], v[k - 1 + 1], X[k - 1], y[k - 1], rate, |X|);
      var e := Miss(v[k - 1], X[k - 1], y[k - 1]);
      SquaredMisses(v, X, y, rate, k - 1) + e * e
  }

  lemma SquareIsProduct(e: real)
    ensures Square(e) == e * e
  {
  }

  lemma {:induction false} MoveIsVisit(v: Model, x: Vec, y: real, rate: real, n: nat)
    requires |x| == |v.w| && n > 0
    ensures Miss(v, x, y) == Error(v, x, y)
    ensures Visit(v, Move(v, Stride(rate, Error(v, x, y), n), x), x, y, rate, n)
  {
    hide Stride, Share, Dot;
    var e := Error(v, x, y);
    forall j | 0 <= j <= |x| ensures Share(rate, e, Feature(x, j), n) == -(Stride(rate, e, n) * Feature(x, j)) {
      StrideShare(rate, e, n, Feature(x, j));
    }
  }

  lemma StrideShare(rate: real, e: real, n: nat, x: real)
    requires n > 0
    ensures Share(rate, e, x, n) == -(Stride(rate, e, n) * x)
  {
    hide Stride;
    StrideAlong(rate, e, n, x);
  }

  /** A visit has one result. */
  lemma {:induction false} VisitIsMove(v: Model, v': Model, x: Vec, y: real, rate: real, n: nat)
    requires Visit(v, v', x, y, rate, n)
    ensures v' == Move(v, Stride(rate, Error(v, x, y), n), x)
  {
    hide Move, Stride, Error, Miss, Share, Weight;
    MoveIsVisit(v, x, y, rate, n);
    SameModel(v', Move(v, Stride(rate, Error(v, x, y), n), x));
  }

  /** Whatever models the visits pass through, the iteration ends with the last and adds up the squared misses. */
  lemma {:induction false} IterationOf(v: seq<Model>, X: seq<Vec>, y: seq<real>, rate: real, k: nat)
    requires k < |v| && Visits(v, X, y, rate, |v| - 1) && Shaped(|v[0].w|, X, y)
    ensures Iteration(v[0], X, y, rate, k) == Pass(v[k], SquaredMisses(v, X, y, rate, k))
  {
    hide Move, Stride, Error, Miss, Share;
    if k > 0 {
      IterationOf(v, X, y, rate, k - 1);
      assert Visit(v[k - 1], v[k - 1 + 1], X[k - 1], y[k - 1], rate, |X|);
      VisitIsMove(v[k - 1], v[k], X[k - 1], y[k - 1], rate, |X|);
      MoveIsVisit(v[k - 1], X[k - 1], y[k - 1], rate, |X|);
      SquareIsProduct(Error(v[k - 1], X[k - 1], y[k - 1]));
    }
  }

  /** An iteration visits its samples one by one, from the model it starts with. */
  lemma {:induction false} IterationHistory(m: Model, X: seq<Vec>, y: seq<real>, rate: real, k: nat)
    returns (v: seq<Model>)
    requires Shaped(|m.w|, X, y) && k <= |X|
    ensures Visits(v, X, y, rate, k) && v[0] == m
    ensures Iteration(m, X, y, rate, k) == Pass(v[k], SquaredMisses(v, X, y, rate, k))
  {
    hide Move, Stride, Error, Visit, SquaredMisses;
    if k == 0 {
      v := [m];
    } else {
      var u := IterationHistory(m, X, y, rate, k - 1);
      var e := Error(u[k - 1], X[k - 1], y[k - 1]);
      var v' := Move(u[k - 1], Stride(rate, e, |X|), X[k - 1]);
      MoveIsVisit(u[k - 1], X[k - 1], y[k - 1], rate, |X|);
      v := u + [v'];
      forall i | 0 <= i < k ensures Visit(v[i], v[i + 1], X[i], y[i], rate, |X|) {
        assert i < k - 1 ==> Visit(u[i], u[i + 1], X[i], y[i], rate, |X|);
      }
    }
    IterationOf(v, X, y, rate, k);
  }

  // ----- all iterations -----

  /** One row of visits for each iteration, as many as asked for; `totals` are their sums of squared misses. */
  ghost predicate Tells(h: seq<seq<Model>>, m: Model, X: seq<Vec>, y: seq<real>, rate: real, f: Fit) {
    && AllLinked(h, m, |X|) && |h| == |f.totals| && f.m == LastModel(h, m)
    && (forall i | 0 <= i < |h| :: Visits(h[i], X, y, rate, |X|))
    && forall i | 0 <= i < |h| :: f.totals[i] == SquaredMisses(h[i], X, y, rate, |X|)
  }

  lemma {:induction false} TrainHistory(m: Model, X: seq<Vec>, y: seq<real>, rate: real, iterations: nat)
    returns (h: seq<seq<Model>>)
    requires Shaped(|m.w|, X, y)
    ensures |h| == iterations && Tells(h, m, X, y, rate, Train(m, X, y, rate, iterations))
  {
    hide Iteration, SquaredMisses, Visit, Linked, LastModel;
    if iterations == 0 {
      h := [];
      LastRow(h, m, |X|);
    } else {
      var g := TrainHistory(m, X, y, rate, iterations - 1);
      var f := Train(m, X, y, rate, iterations - 1);
      var v := IterationHistory(f.m, X, y, rate, |X|);
      h := g + [v];
      AddRow(g, v, m, |X|);
      assert forall i | 0 <= i < |g| :: h[i] == g[i];
    }
  }

  // ----- when an iteration has no error -----

  /** An iteration adds up no error exactly if the model it starts with predicts every sample exactly. */
  lemma {:induction false} NoErrorIff(m: Model, X: seq<Vec>, y: seq<real>, rate: real)
    requires Shaped(|m.w|, X, y)
    ensures Iteration(m, X, y, rate, |X|).totalError == 0.0 <==> forall i | 0 <= i < |X| :: Miss(m, X[i], y[i]) == 0.0
    ensures Iteration(m, X, y, rate, |X|).totalError == 0.0 ==> Iteration(m, X, y, rate, |X|).m == m
  {
    NoErrorUpTo(m, X, y, rate, |X|);
  }

  lemma {:induction false} NoErrorUpTo(m: Model, X: seq<Vec>, y: seq<real>, rate: real, k: nat)
    requires Shaped(|m.w|, X, y) && k <= |X|
    ensures var p := Iteration(m, X, y, rate, k);
            && p.totalError >= 0.0
            && (p.totalError == 0.0 <==> forall i | 0 <= i < k :: Miss(m, X[i], y[i]) == 0.0)
            && (p.totalError == 0.0 ==> p.m == m)
  {
    hide Move, Stride, Dot;
    if k > 0 {
      NoErrorUpTo(m, X, y, rate, k - 1);
      var p := Iteration(m, X, y, rate, k - 1);
      if p.totalError == 0.0 && Error(m, X[k - 1], y[k - 1]) == 0.0 {
        NoMove(m, X[k - 1], rate, |X|);
      }
    }
  }

  lemma ZeroStride(rate: real, n: nat)
    requires n > 0
    ensures Stride(rate, 0.0, n) == 0.0
  {
  }

  lemma NoMove(m: Model, x: Vec, rate: real, n: nat)
    requires |x| == |m.w| && n > 0
    ensures Move(m, Stride(rate, 0.0, n), x) == m
  {
    hide Stride;
    ZeroStride(rate, n);
    assert AddScaled(m.w, 0.0, x) == m.w;
  }

  // ----- realised targets -----

  /**
   What the visits take off the squared distance: h * (2 - h * q) * miss^2, q the squared length of the extended sample.
   */
  ghost function Shed(v: seq<Model>, X: seq<Vec>, y: seq<real>, rate: real, k: nat): real
    requires k < |v| && Visits(v, X, y, rate, |v| - 1)
  {
    if k == 0 then 0.0
    else
      assert Visit(v[k - 1], v[k - 1 + 1], X[k - 1], y[k - 1], rate, |X|);
      var e, h, q := Miss(v[k - 1], X[k - 1], y[k - 1]), rate / |X| as real, NormSq(X[k - 1]) + 1.0;
      Shed(v, X, y, rate, k - 1) + h * (2.0 - h * q) * (e * e)
  }

  /** On realised targets the squared distance falls over an iteration by exactly what its visits shed. */
  lemma {:induction false} DistanceShed(v: seq<Model>, star: Model, X: seq<Vec>, y: seq<real>, rate: real, k: nat)
    requires k < |v| && Visits(v, X, y, rate, |v| - 1) && Shaped(|v[0].w|, X, y)
    requires |star.w| == |v[0].w| && Realises(star, X, y)
    ensures |v[k].w| == |v[0].w| && DistanceSq(v[0], star) - DistanceSq(v[k], star) == Shed(v, X, y, rate, k)
  {
    hide DistanceSq, Move, Stride, Error, Miss, NormSq, Share;
    if k > 0 {
      DistanceShed(v, star, X, y, rate, k - 1);
      assert Visit(v[k - 1], v[k - 1 + 1], X[k - 1], y[k - 1], rate, |X|);
      VisitIsMove(v[k - 1], v[k], X[k - 1], y[k - 1], rate, |X|);
      MoveIsVisit(v[k - 1], X[k - 1], y[k - 1], rate, |X|);
      SampleIdentity(v[k - 1], star, X[k - 1], rate, |X|);
      ShrinkIs(rate / |X| as real, NormSq(X[k - 1]) + 1.0, Error(v[k - 1], X[k - 1], y[k - 1]));
    }
  }

  lemma ShrinkIs(h: real, q: real, e: real)
    ensures Shrink(h, q) * Square(e) == h * (2.0 - h * q) * (e * e)
  {
    SquareIsProduct(e);
  }

  /** With enough iterations the squared misses of some iteration's visits add up to less than any tolerance. */
  lemma {:induction false} MissesFallBelow(m: Model, star: Model, X: seq<Vec>, y: seq<real>, rate: real,
                                           iterations: nat, h: real, radiusSq: real, eps: real)
    returns (told: seq<seq<Model>>, i: nat)
    requires Shaped(|m.w|, X, y) && |star.w| == |m.w|
    requires |X| > 0 && rate > 0.0 && Realises(star, X, y) && Within(X, radiusSq)
    requires h == rate / |X| as real && h * radiusSq < 2.0
    requires DistanceSq(m, star) < Shrink(h, radiusSq) * (iterations as real * eps)
    ensures Tells(told, m, X, y, rate, Train(m, X, y, rate, iterations)) && i < |told| == iterations
    ensures SquaredMisses(told[i], X, y, rate, |X|) < eps
  {
    hide Train, Shrink, DistanceSq, SquaredMisses;
    told := TrainHistory(m, X, y, rate, iterations);
    ReachesTolerance(m, star, X, y, rate, iterations, h, radiusSq, eps);
    i :| 0 <= i < iterations && Train(m, X, y, rate, iterations).totals[i] < eps;
  }
}
