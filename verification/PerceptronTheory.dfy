/** What training achieves: the mistake bound, convergence, and exactly which data it can learn. */
module PerceptronTheory {
  import opened LinearModel
  import opened Perceptrons
  import opened RealFacts
  import opened Vectors

  ghost predicate Labelled(y: seq<int>) {
    forall i | 0 <= i < |y| :: y[i] == 0 || y[i] == 1
  }

  function Sign(y: int): real {
    (2 * y - 1) as real
  }

  /** u classifies every sample with margin at least g. */
  ghost predicate Separates(u: Model, X: seq<Vec>, y: seq<int>, g: real)
    requires Shaped(|u.w|, X, y)
  {
    forall i | 0 <= i < |X| :: Sign(y[i]) * Activation(u, X[i]) >= g
  }

  ghost predicate Within(X: seq<Vec>, radiusSq: real) {
    0.0 <= radiusSq && forall i | 0 <= i < |X| :: NormSq(X[i]) + 1.0 <= radiusSq
  }

  ghost predicate Classifies(m: Model, X: seq<Vec>, y: seq<int>)
    requires Shaped(|m.w|, X, y)
  {
    forall i | 0 <= i < |X| :: Predict(m, X[i]) == y[i]
  }

  /** After k updates the model has gained k*c along u while its square grew by at most k*d. */
  ghost predicate Progress(m: Model, k: nat, u: Model, c: real, d: real)
    requires |m.w| == |u.w|
  {
    && Dot(Whole(m), Whole(u)) >= k as real * c
    && NormSq(Whole(m)) <= k as real * d
  }

  /** What the data promise: c is rate * margin, d is rate^2 * radius^2. */
  ghost predicate Promises(u: Model, X: seq<Vec>, y: seq<int>, rate: real, c: real, d: real)
    requires Shaped(|u.w|, X, y)
  {
    && rate > 0.0 && Labelled(y)
    && (forall i | 0 <= i < |X| :: rate * (Sign(y[i]) * Activation(u, X[i])) >= c)
    && (forall i | 0 <= i < |X| :: Square(rate) * (NormSq(X[i]) + 1.0) <= d)
  }

  /** A wrong prediction moves against the activation b, by rate in the direction of the label. */
  lemma MistakeDirection(rate: real, y: int, p: int, a: real, b: real)
    requires rate > 0.0 && (y == 0 || y == 1) && p == (if b >= 0.0 then 1 else 0) && p != y
    ensures var s := Stride(rate, y - p);
            s * a == rate * (Sign(y) * a) && s * b <= 0.0 && s * s == Square(rate)
  {
    ScaleMonotone(rate, Sign(y) * b, 0.0);
  }

  lemma {:induction false} UpdateProgress(m: Model, X: seq<Vec>, y: seq<int>, i: nat, rate: real, k: nat,
                                          u: Model, c: real, d: real)
    requires Shaped(|m.w|, X, y) && |u.w| == |m.w| && i < |X|
    requires Promises(u, X, y, rate, c, d) && Predict(m, X[i]) != y[i]
    requires Progress(m, k, u, c, d)
    ensures Progress(Step(m, X[i], y[i], rate), k + 1, u, c, d)
  {
    hide Dot, NormSq, Activation, Move;
    var x, m' := X[i], Step(m, X[i], y[i], rate);
    var a, b, s := Activation(u, x), Activation(m, x), Stride(rate, y[i] - Predict(m, x));
    MistakeDirection(rate, y[i], Predict(m, x), a, b);
    assert s * a >= c && 2.0 * (s * b) <= 0.0 && s * s * (NormSq(x) + 1.0) <= d;
    MoveEffects(m, u, s, x);
    assert Dot(Whole(m'), Whole(u)) >= k as real * c + c;
    assert NormSq(Whole(m')) <= k as real * d + d;
    OneMore(k, c);
    OneMore(k, d);
  }

  lemma OneMore(k: nat, c: real)
    ensures (k + 1) as real * c == k as real * c + c
  {
  }

  lemma {:induction false} EpochProgress(m: Model, X: seq<Vec>, y: seq<int>, rate: real, i: nat, k: nat,
                                         u: Model, c: real, d: real)
    requires Shaped(|m.w|, X, y) && |u.w| == |m.w| && i <= |X|
    requires Promises(u, X, y, rate, c, d) && Progress(m, k, u, c, d)
    ensures var p := Epoch(m, X, y, rate, i); Progress(p.m, k + p.errors, u, c, d)
  {
    hide Progress, Promises, Predict;
    if i > 0 {
      EpochProgress(m, X, y, rate, i - 1, k, u, c, d);
      var p := Epoch(m, X, y, rate, i - 1);
      if Predict(p.m, X[i - 1]) != y[i - 1] {
        UpdateProgress(p.m, X, y, i - 1, rate, k + p.errors, u, c, d);
      }
    }
  }

  lemma {:induction false} TrainingProgress(n: nat, X: seq<Vec>, y: seq<int>, rate: real, budget: nat,
                                            u: Model, c: real, d: real)
    requires Shaped(n, X, y) && |u.w| == n && Promises(u, X, y, rate, c, d)
    ensures var t := Train(Untrained(n), X, y, rate, budget); Progress(t.m, t.updates, u, c, d)
  {
    hide Dot;
    if budget == 0 {
      assert Whole(Untrained(n)) == Zeros(n + 1);
      DotZeros(n + 1, Whole(u));
      DotZeros(n + 1, Zeros(n + 1));
    } else {
      TrainingProgress(n, X, y, rate, budget - 1, u, c, d);
      var t := Train(Untrained(n), X, y, rate, budget - 1);
      if !t.converged {
        EpochProgress(t.m, X, y, rate, |X|, t.updates, u, c, d);
      }
    }
  }

  /** From k*c <= D, D*D <= N*U and N <= k*d to k*(c*c) <= d*U. */
  lemma {:induction false} Squeeze(k: real, c: real, d: real, D: real, N: real, U: real)
    requires k >= 0.0 && c > 0.0 && U >= 0.0 && d >= 0.0
    requires k * c <= D && D * D <= N * U && N <= k * d
    ensures k * Square(c) <= d * U
  {
    if k == 0.0 {
      assert d * U >= 0.0;
    } else {
      var kc := k * c;
      assert kc >= 0.0;
      SquareMonotone(kc, D);
      ScaleMonotone(U, N, k * d);
      assert kc * kc == k * (k * Square(c));
      assert (k * d) * U == k * (d * U);
      CancelFactor(k, k * Square(c), d * U);
    }
  }

  /** Novikoff: the number of updates is bounded by the data alone, whatever the rate and the budget. */
  lemma {:induction false} MistakeBound(n: nat, X: seq<Vec>, y: seq<int>, rate: real, budget: nat,
                                        u: Model, g: real, radiusSq: real)
    requires Shaped(n, X, y) && |u.w| == n && Labelled(y)
    requires rate > 0.0 && g > 0.0 && Separates(u, X, y, g) && Within(X, radiusSq)
    ensures Train(Untrained(n), X, y, rate, budget).updates as real * Square(g)
         <= radiusSq * (NormSq(u.w) + Square(u.b))
  {
    hide Dot, Train, Separates, Promises, Within;
    var t := Train(Untrained(n), X, y, rate, budget);
    var c, d := rate * g, Square(rate) * radiusSq;
    MarginPromises(X, y, rate, u, g, radiusSq);
    TrainingProgress(n, X, y, rate, budget, u, c, d);
    var U, D, N := NormSq(Whole(u)), Dot(Whole(t.m), Whole(u)), NormSq(Whole(t.m));
    assert D * D <= N * U by { CauchySchwarz(Whole(t.m), Whole(u)); }
    assert U == NormSq(u.w) + Square(u.b) by { DotAppend(u.w, u.b, u.w, u.b); }
    NormSqNonNegative(Whole(u));
    Squeeze(t.updates as real, c, d, D, N, U);
    var q := Square(rate);
    assert Square(c) == q * Square(g);
    Rescale(t.updates as real, q, Square(g), radiusSq, U);
  }

  lemma {:induction false} MarginPromises(X: seq<Vec>, y: seq<int>, rate: real, u: Model, g: real, radiusSq: real)
    requires Shaped(|u.w|, X, y) && Labelled(y)
    requires rate > 0.0 && g > 0.0 && Separates(u, X, y, g) && Within(X, radiusSq)
    ensures rate * g > 0.0 && Square(rate) * radiusSq >= 0.0
    ensures Promises(u, X, y, rate, rate * g, Square(rate) * radiusSq)
  {
    var q := Square(rate);
    ScaleMonotone(q, 0.0, radiusSq);
    forall i | 0 <= i < |X|
      ensures rate * (Sign(y[i]) * Activation(u, X[i])) >= rate * g
      ensures q * (NormSq(X[i]) + 1.0) <= q * radiusSq
    {
      ScaleMonotone(rate, g, Sign(y[i]) * Activation(u, X[i]));
      ScaleMonotone(q, NormSq(X[i]) + 1.0, radiusSq);
    }
  }

  lemma Rescale(k: real, q: real, a: real, r: real, U: real)
    requires q > 0.0
    requires k * (q * a) <= (q * r) * U
    ensures k * a <= r * U
  {
    assert k * (q * a) == q * (k * a);
    assert (q * r) * U == q * (r * U);
    CancelFactor(q, k * a, r * U);
  }

  // ----- convergence -----

  lemma {:induction false} ErrorFreePass(m: Model, X: seq<Vec>, y: seq<int>, rate: real, k: nat)
    requires Shaped(|m.w|, X, y) && k <= |X| && Epoch(m, X, y, rate, k).errors == 0
    ensures Epoch(m, X, y, rate, k).m == m
    ensures forall i | 0 <= i < k :: Predict(m, X[i]) == y[i]
  {
    hide Predict;
    if k > 0 {
      ErrorFreePass(m, X, y, rate, k - 1);
    }
  }

  /** Leaving through the error-free break means every training sample is predicted right. */
  lemma {:induction false} ConvergedClassifies(m: Model, X: seq<Vec>, y: seq<int>, rate: real, budget: nat)
    requires Shaped(|m.w|, X, y) && Train(m, X, y, rate, budget).converged
    ensures Classifies(Train(m, X, y, rate, budget).m, X, y)
  {
    var t := Train(m, X, y, rate, budget - 1);
    if t.converged {
      ConvergedClassifies(m, X, y, rate, budget - 1);
    } else {
      ErrorFreePass(t.m, X, y, rate, |X|);
    }
  }

  lemma {:induction false} EveryOpenEpochCosts(m: Model, X: seq<Vec>, y: seq<int>, rate: real, budget: nat)
    requires Shaped(|m.w|, X, y)
    ensures var t := Train(m, X, y, rate, budget);
            !t.converged ==> t.epochs == budget && t.updates >= budget
  {
    hide Epoch;
    if budget > 0 {
      EveryOpenEpochCosts(m, X, y, rate, budget - 1);
    }
  }

  /** With an iteration budget above the mistake bound, training ends in an error-free epoch. */
  lemma {:induction false} Convergence(n: nat, X: seq<Vec>, y: seq<int>, rate: real, budget: nat,
                                       u: Model, g: real, radiusSq: real)
    requires Shaped(n, X, y) && |u.w| == n && Labelled(y)
    requires rate > 0.0 && g > 0.0 && Separates(u, X, y, g) && Within(X, radiusSq)
    requires budget as real * Square(g) > radiusSq * (NormSq(u.w) + Square(u.b))
    ensures var t := Train(Untrained(n), X, y, rate, budget); t.converged && Classifies(t.m, X, y)
  {
    hide Train, NormSq;
    var t := Train(Untrained(n), X, y, rate, budget);
    MistakeBound(n, X, y, rate, budget, u, g, radiusSq);
    EveryOpenEpochCosts(Untrained(n), X, y, rate, budget);
    if t.updates >= budget {
      ScaleMonotone(Square(g), budget as real, t.updates as real);
      assert false;
    }
    ConvergedClassifies(Untrained(n), X, y, rate, budget);
  }

  /** The least distance below zero of any sample labelled 0, or 1 when there is none nearer. */
  ghost function Slack(u: Model, X: seq<Vec>, y: seq<int>, k: nat): (r: real)
    requires Shaped(|u.w|, X, y) && Classifies(u, X, y) && k <= |X|
    ensures r > 0.0
    ensures forall i | 0 <= i < k && y[i] == 0 :: Activation(u, X[i]) <= -r
  {
    if k == 0 then 1.0
    else
      var r, a := Slack(u, X, y, k - 1), Activation(u, X[k - 1]);
      if y[k - 1] == 0 && -a < r then -a else r
  }

  function RadiusSq(X: seq<Vec>): (r: real)
    ensures Within(X, r)
  {
    if X == [] then 0.0
    else
      var r, q := RadiusSq(X[..|X| - 1]), NormSq(X[|X| - 1]) + 1.0;
      assert forall i | 0 <= i < |X| - 1 :: X[i] == X[..|X| - 1][i];
      if q > r then q else r
  }

  /** A threshold unit that predicts every sample can be shifted to one with a positive margin. */
  lemma {:induction false} ShiftToMargin(u: Model, X: seq<Vec>, y: seq<int>) returns (v: Model, g: real)
    requires Shaped(|u.w|, X, y) && Classifies(u, X, y)
    ensures |v.w| == |u.w| && g > 0.0 && Labelled(y) && Separates(v, X, y, g)
  {
    g := Slack(u, X, y, |X|) / 2.0;
    v := Model(u.w, u.b + g);
    forall i | 0 <= i < |X|
      ensures (y[i] == 0 || y[i] == 1) && Sign(y[i]) * Activation(v, X[i]) >= g
    {
      assert Activation(v, X[i]) == Activation(u, X[i]) + g;
      assert Predict(u, X[i]) == y[i];
    }
  }

  /** Some iteration budget suffices exactly for the data that a single threshold unit can predict. */
  lemma {:induction false} LearnableIffSeparable(n: nat, X: seq<Vec>, y: seq<int>, rate: real)
    requires Shaped(n, X, y) && rate > 0.0
    ensures (exists budget: nat :: Train(Untrained(n), X, y, rate, budget).converged)
       <==> (exists u: Model :: |u.w| == n && Classifies(u, X, y))
  {
    if budget: nat :| Train(Untrained(n), X, y, rate, budget).converged {
      ConvergedClassifies(Untrained(n), X, y, rate, budget);
    }
    if u: Model :| |u.w| == n && Classifies(u, X, y) {
      var v, g := ShiftToMargin(u, X, y);
      var budget := EnoughEpochs(RadiusSq(X) * (NormSq(v.w) + Square(v.b)), g);
      Convergence(n, X, y, rate, budget, v, g, RadiusSq(X));
    }
  }

  lemma EnoughEpochs(bound: real, g: real) returns (budget: nat)
    requires g > 0.0
    ensures budget as real * Square(g) > bound
  {
    budget := Archimedes(bound, Square(g));
  }

  lemma Archimedes(bound: real, a: real) returns (k: nat)
    requires a > 0.0
    ensures k as real * a > bound
  {
    var q := bound / a;
    assert q * a == bound;
    k := if q < 0.0 then 1 else q.Floor + 1;
    assert (k as real - q) * a > 0.0;
  }
}
