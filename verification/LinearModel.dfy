/**
 What the perceptron and the linear regression of src/ml/ml_lib.c share: weights, a bias, and moves along a sample.
 */
module LinearModel {
  import opened Vectors

  datatype Model = Model(w: Vec, b: real)

  function Untrained(n: nat): Model {
    Model(Zeros(n), 0.0)
  }

  function Activation(m: Model, x: Vec): real
    requires |x| == |m.w|
  {
    m.b + Dot(m.w, x)
  }

  function Move(m: Model, s: real, x: Vec): Model
    requires |x| == |m.w|
  {
    Model(AddScaled(m.w, s, x), m.b + s)
  }

  /** Weights and bias as one vector, so that the bias is the weight of a constant feature 1. */
  function Whole(m: Model): Vec {
    m.w + [m.b]
  }

  method Activate(weights: array<real>, bias: real, x: Vec) returns (activation: real)
    requires |x| == weights.Length
    ensures activation == Activation(Model(weights[..], bias), x)
  {
    activation := bias;
    for j := 0 to weights.Length
      invariant activation == bias + Dot(weights[..j], x[..j])
    {
      activation := activation + weights[j] * x[j];
      DotPrefix(weights[..], x, j);
      assert weights[..][..j] == weights[..j] && weights[..][..j + 1] == weights[..j + 1];
    }
    assert weights[..weights.Length] == weights[..] && x[..weights.Length] == x;
  }

  lemma {:induction false} ActivationIsDot(m: Model, x: Vec)
    requires |x| == |m.w|
    ensures Activation(m, x) == Dot(Whole(m), x + [1.0])
  {
    DotAppend(m.w, m.b, x, 1.0);
  }

  lemma {:induction false} WholeMoves(m: Model, s: real, x: Vec)
    requires |x| == |m.w|
    ensures Whole(Move(m, s, x)) == AddScaled(Whole(m), s, x + [1.0])
  {
    var w, x1 := Whole(m), x + [1.0];
    var l, r := Whole(Move(m, s, x)), AddScaled(w, s, x1);
    forall i | 0 <= i < |l| ensures l[i] == r[i] {
      assert i < |x| ==> w[i] == m.w[i] && x1[i] == x[i];
    }
  }

  /** What a move by s along a sample does to the square of the model and to its product with u. */
  lemma {:induction false} MoveEffects(m: Model, u: Model, s: real, x: Vec)
    requires |x| == |m.w| == |u.w|
    ensures var v := Whole(Move(m, s, x));
            && Dot(v, Whole(u)) == Dot(Whole(m), Whole(u)) + s * Activation(u, x)
            && NormSq(v) == NormSq(Whole(m)) + 2.0 * (s * Activation(m, x)) + s * s * (NormSq(x) + 1.0)
  {
    hide Dot;
    var x1 := x + [1.0];
    WholeMoves(m, s, x);
    ActivationIsDot(m, x);
    ActivationIsDot(u, x);
    DotAppend(x, 1.0, x, 1.0);
    DotAddScaled(Whole(m), s, x1, Whole(u));
    DotSymmetric(x1, Whole(u));
    NormSqAddScaled(Whole(m), s, x1);
    assert 2.0 * s * Dot(Whole(m), x1) == 2.0 * (s * Dot(Whole(m), x1));
  }
}
