/** The linear regression of src/ml/ml_lib.c: sample-by-sample LMS in place, and its cumulative error bound. */
module LinearRegressions {
  import opened LinearModel
  import opened RealFacts
  import opened Vectors

  predicate Shaped(n: nat, X: seq<Vec>, y: seq<real>) {
    |X| == |y| && forall i | 0 <= i < |X| :: |X[i]| == n
  }

  function Error(m: Model, x: Vec, y: real): real
    requires |x| == |m.w|
  {
    Activation(m, x) - y
  }

  /** The step one sample takes: the learning rate spread over the n samples, against the error. */
  function Stride(rate: real, error: real, n: nat): real
    requires n > 0
  {
    -(rate * error / n as real)
  }

  /** A weight less its share of the step; with x = 1, the bias. */
  function Nudged(w: real, rate: real, error: real, x: real, n: nat): real
    requires n > 0
  {
    w - rate * error * x / n as real
  }

  datatype Pass = Pass(m: Model, totalError: real)

  /** The first k samples of one iteration. */
  function Iteration(m: Model, X: seq<Vec>, y: seq<real>, rate: real, k: nat): (r: Pass)
    requires Shaped(|m.w|, X, y) && k <= |X|
    ensures |r.m.w| == |m.w|
  {
    if k == 0 then Pass(m, 0.0)
    else
      var p := Iteration(m, X, y, rate, k - 1);
      var e := Error(p.m, X[k - 1], y[k - 1]);
      Pass(Move(p.m, Stride(rate, e, |X|), X[k - 1]), p.totalError + Square(e))
  }

  /** `totals` holds the summed squared error of each iteration, in order. */
  datatype Fit = Fit(m: Model, totals: seq<real>)

  function Train(m: Model, X: seq<Vec>, y: seq<real>, rate: real, iterations: nat): (r: Fit)
    requires Shaped(|m.w|, X, y)
    ensures |r.m.w| == |m.w| && |r.totals| == iterations
  {
    if iterations == 0 then Fit(m, [])
    else
      var f := Train(m, X, y, rate, iterations - 1);
      var p := Iteration(f.m, X, y, rate, |X|);
      Fit(p.m, f.totals + [p.totalError])
  }

  // ----- the implementation -----

  class LinearRegression {
    const weights: array<real>
    var bias: real
    var learningRate: real
    var iterations: int

    ghost function View(): Model
      reads this, weights
    {
      Model(weights[..], bias)
    }

    constructor (features: nat)
      ensures fresh(weights) && View() == Untrained(features)
      ensures learningRate == 0.01 && iterations == 1000
    {
      weights := new real[features](_ => 0.0);
      bias, learningRate, iterations := 0.0, 0.01, 1000;
      new;
      assert weights[..] == Zeros(features);
    }

    method PredictLinearRegression(x: Vec) returns (pred: real)
      requires |x| == weights.Length
      ensures pred == Activation(View(), x) == bias + Dot(weights[..], x)
    {
      pred := Activate(weights, bias, x);
    }

    method Adjust(error: real, x: Vec, n: nat)
      requires |x| == weights.Length && n > 0
      modifies this`bias, weights
      ensures View() == Move(old(View()), Stride(learningRate, error, n), x)
    {
      hide Nudged;
      for j := 0 to weights.Length
        invariant bias == old(bias)
        invariant forall k | 0 <= k < j :: weights[k] == Nudged(old(weights[k]), learningRate, error, x[k], n)
        invariant forall k | j <= k < weights.Length :: weights[k] == old(weights[k])
      {
        weights[j] := Nudged(weights[j], learningRate, error, x[j], n);
      }
      bias := Nudged(bias, learningRate, error, 1.0, n);
      NudgedModel(View(), old(View()), learningRate, error, x, n);
    }

    method RunIteration(X: seq<Vec>, y: seq<real>) returns (totalError: real)
      requires Shaped(weights.Length, X, y)
      modifies this`bias, weights
      ensures Pass(View(), totalError) == Iteration(old(View()), X, y, learningRate, |X|)
    {
      hide Dot, Move, Stride;
      totalError := 0.0;
      for i := 0 to |X|
        invariant Pass(View(), totalError) == Iteration(old(View()), X, y, learningRate, i)
      {
        var pred := PredictLinearRegression(X[i]);
        var error := pred - y[i];
        totalError := totalError + Square(error);
        Adjust(error, X[i], |X|);
      }
    }

    method TrainLinearRegression(X: seq<Vec>, y: seq<real>)
      requires Shaped(weights.Length, X, y)
      modifies this`bias, weights
      ensures View() == Train(old(View()), X, y, learningRate, if iterations < 0 then 0 else iterations).m
    {
      hide Iteration;
      var iter := 0;
      while iter < iterations
        invariant iter <= iterations || iter == 0
        invariant 0 <= iter && View() == Train(old(View()), X, y, learningRate, iter).m
      {
        var totalError := RunIteration(X, y);
        iter := iter + 1;
      }
    }
  }

  /** Dividing each product by n, as the code does, is the same as dividing the step by n. */
  lemma StrideAlong(rate: real, error: real, n: nat, x: real)
    requires n > 0
    ensures -(rate * error * x / n as real) == Stride(rate, error, n) * x
  {
    var p, d := rate * error, n as real;
    var q := p / d;
    assert p * x == (q * x) * d;
  }

  lemma NudgedModel(m: Model, was: Model, rate: real, error: real, x: Vec, n: nat)
    requires n > 0 && |m.w| == |was.w| == |x| && m.b == Nudged(was.b, rate, error, 1.0, n)
    requires forall k | 0 <= k < |x| :: m.w[k] == Nudged(was.w[k], rate, error, x[k], n)
    ensures m == Move(was, Stride(rate, error, n), x)
  {
    hide Stride;
    var s := Stride(rate, error, n);
    forall k | 0 <= k < |x| ensures m.w[k] == was.w[k] + s * x[k] {
      StrideAlong(rate, error, n, x[k]);
    }
    IsAddScaled(m.w, was.w, s, x);
    StrideAlong(rate, error, n, 1.0);
  }
}
