/** The perceptron of src/ml/ml_lib.c: in-place training, the mistake bound and convergence. */
module Perceptrons {
  import opened LinearModel
  import opened Vectors

  predicate Shaped(n: nat, X: seq<Vec>, y: seq<int>) {
    |X| == |y| && forall i | 0 <= i < |X| :: |X[i]| == n
  }

  function Predict(m: Model, x: Vec): int
    requires |x| == |m.w|
  {
    if Activation(m, x) >= 0.0 then 1 else 0
  }

  function Stride(rate: real, update: int): real {
    rate * update as real
  }

  /** One sample: nothing on a right prediction, else a move of rate * (y - prediction). */
  function Step(m: Model, x: Vec, y: int, rate: real): (r: Model)
    requires |x| == |m.w|
    ensures |r.w| == |m.w|
  {
    if Predict(m, x) == y then m else Move(m, Stride(rate, y - Predict(m, x)), x)
  }

  datatype Pass = Pass(m: Model, errors: nat)

  /** The first k samples of one epoch. */
  function Epoch(m: Model, X: seq<Vec>, y: seq<int>, rate: real, k: nat): (r: Pass)
    requires Shaped(|m.w|, X, y) && k <= |X|
    ensures |r.m.w| == |m.w| && r.errors <= k
  {
    if k == 0 then Pass(m, 0)
    else
      var p := Epoch(m, X, y, rate, k - 1);
      Pass(Step(p.m, X[k - 1], y[k - 1], rate),
           p.errors + if Predict(p.m, X[k - 1]) == y[k - 1] then 0 else 1)
  }

  /** `epochs` counts the epochs entered, `updates` the weight updates in all of them. */
  datatype Training = Training(m: Model, updates: nat, epochs: nat, converged: bool)

  function Train(m: Model, X: seq<Vec>, y: seq<int>, rate: real, budget: nat): (r: Training)
    requires Shaped(|m.w|, X, y)
    ensures |r.m.w| == |m.w| && r.epochs <= budget
  {
    if budget == 0 then Training(m, 0, 0, false)
    else
      var t := Train(m, X, y, rate, budget - 1);
      if t.converged then t
      else
        var p := Epoch(t.m, X, y, rate, |X|);
        Training(p.m, t.updates + p.errors, t.epochs + 1, p.errors == 0)
  }

  // ----- the implementation -----

  class Perceptron {
    const weights: array<real>
    var bias: real
    var learningRate: real
    var iterations: int

    ghost function View(): Model
      reads this, weights
    {
      Model(weights[..], bias)
    }

    constructor (features: nat)
      ensures fresh(weights) && View() == Untrained(features)
      ensures learningRate == 0.1 && iterations == 100
    {
      weights := new real[features](_ => 0.0);
      bias, learningRate, iterations := 0.0, 0.1, 100;
      new;
      assert weights[..] == Zeros(features);
    }

    method PredictPerceptron(x: Vec) returns (p: int)
      requires |x| == weights.Length
      ensures p == Predict(View(), x) == if bias + Dot(weights[..], x) >= 0.0 then 1 else 0
    {
      var activation := Activate(weights, bias, x);
      p := if activation >= 0.0 then 1 else 0;
    }

    /** The update loop, for s the learning rate times the update. */
    method Adjust(s: real, x: Vec)
      requires |x| == weights.Length
      modifies this`bias, weights
      ensures View() == Move(old(View()), s, x)
    {
      for j := 0 to weights.Length
        invariant bias == old(bias)
        invariant forall k | 0 <= k < j :: weights[k] == old(weights[k]) + s * x[k]
        invariant forall k | j <= k < weights.Length :: weights[k] == old(weights[k])
      {
        weights[j] := weights[j] + s * x[j];
      }
      IsAddScaled(weights[..], old(weights[..]), s, x);
      bias := bias + s;
    }

    method TrainSample(x: Vec, y: int) returns (wrong: bool)
      requires |x| == weights.Length
      modifies this`bias, weights
      ensures View() == Step(old(View()), x, y, learningRate)
      ensures wrong == (Predict(old(View()), x) != y)
    {
      var pred := PredictPerceptron(x);
      wrong := pred != y;
      if wrong {
        Adjust(Stride(learningRate, y - pred), x);
      }
    }

    method TrainEpoch(X: seq<Vec>, y: seq<int>) returns (errors: nat)
      requires Shaped(weights.Length, X, y)
      modifies this`bias, weights
      ensures Epoch(old(View()), X, y, learningRate, |X|) == Pass(View(), errors)
    {
      errors := 0;
      for i := 0 to |X|
        invariant Epoch(old(View()), X, y, learningRate, i) == Pass(View(), errors)
      {
        var wrong := TrainSample(X[i], y[i]);
        if wrong {
          errors := errors + 1;
        }
      }
    }

    /** `converged` and `epochs` stand for the log line that an error-free epoch prints. */
    method TrainPerceptron(X: seq<Vec>, y: seq<int>) returns (converged: bool, epochs: nat)
      requires Shaped(weights.Length, X, y)
      modifies this`bias, weights
      ensures var t := Train(old(View()), X, y, learningRate, if iterations < 0 then 0 else iterations);
              View() == t.m && converged == t.converged && epochs == t.epochs
    {
      hide Epoch;
      ghost var start, rate := View(), learningRate;
      epochs, converged := 0, false;
      while epochs < iterations
        invariant epochs <= iterations || epochs == 0
        invariant |Train(start, X, y, rate, epochs).m.w| == weights.Length
        invariant View() == Train(start, X, y, rate, epochs).m
        invariant Train(start, X, y, rate, epochs).epochs == epochs
        invariant !Train(start, X, y, rate, epochs).converged && !converged
      {
        ghost var t := Train(start, X, y, rate, epochs);
        var errors := TrainEpoch(X, y);
        assert Epoch(t.m, X, y, rate, |X|) == Pass(View(), errors);
        epochs := epochs + 1;
        if errors == 0 {
          converged := true;
          TrainStops(start, X, y, rate, epochs, iterations);
          break;
        }
      }
    }
  }

  lemma {:induction false} TrainStops(m: Model, X: seq<Vec>, y: seq<int>, rate: real, k: nat, budget: nat)
    requires Shaped(|m.w|, X, y) && k <= budget && Train(m, X, y, rate, k).converged
    ensures Train(m, X, y, rate, budget) == Train(m, X, y, rate, k)
  {
    if k < budget {
      TrainStops(m, X, y, rate, k, budget - 1);
    }
  }
}
