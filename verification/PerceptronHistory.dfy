/**
 Training as src/ml/ml_lib.c:148-180 tells it, sample by sample: which samples are visited, what each visit changes, and
 what the trained model is in the end. Nothing here refers to how the training functions compute it.
 */
module PerceptronHistory {
  import opened Histories
  import opened LinearModel
  import opened Perceptrons
  import opened Vectors

  /** The answer of a threshold unit. */
  function Answer(v: Model, x: Vec): int
    requires |x| == |v.w|
  {
    if v.b + Dot(v.w, x) >= 0.0 then 1 else 0
  }

  /** A visit to one sample turns v into v': rate * (label - answer) times each feature is added to each weight. */
  ghost predicate Visit(v: Model, v': Model, x: Vec, y: int, rate: real) {
    && |v.w| == |v'.w| == |x|
    && forall j | 0 <= j <= |x| ::
         Weight(v', j) == Weight(v, j) + rate * (y - Answer(v, x)) as real * Feature(x, j)
  }

  /** The models between the visits to the first k samples, in order. */
  ghost predicate Visits(v: seq<Model>, X: seq<Vec>, y: seq<int>, rate: real, k: nat) {
    && |v| == k + 1 && k <= |X| == |y|
    && forall i | 0 <= i < k :: Visit(v[i], v[i + 1], X[i], y[i], rate)
  }

  /** How many of the first k visits found a wrong answer. */
  ghost function Mistakes(v: seq<Model>, X: seq<Vec>, y: seq<int>, rate: real, k: nat): nat
    requires k < |v| && Visits(v, X, y, rate, |v| - 1)
  {
    if k == 0 then 0
    else
      assert Visit(v[k - 1], v[k - 1 + 1], X[k - 1], y[k - 1], rate);
      Mistakes(v, X, y, rate, k - 1) + if Answer(v[k - 1], X[k - 1]) != y[k - 1] then 1 else 0
  }

  lemma {:induction false} StepIsVisit(v: Model, x: Vec, y: int, rate: real)
    requires |x| == |v.w|
    ensures Visit(v, Step(v, x, y, rate), x, y, rate)
    ensures Answer(v, x) == Predict(v, x)
  {
    var v' := Step(v, x, y, rate);
    forall j | 0 <= j <= |x|
      ensures Weight(v', j) == Weight(v, j) + rate * (y - Answer(v, x)) as real * Feature(x, j)
    {
      if Answer(v, x) == y {
        NoChange(rate, Feature(x, j));
      }
    }
  }

  lemma NoChange(rate: real, x: real)
    ensures rate * 0 as real * x == 0.0
  {
  }

  /** A visit has one result. */
  lemma {:induction false} VisitIsStep(v: Model, v': Model, x: Vec, y: int, rate: real)
    requires Visit(v, v', x, y, rate)
    ensures v' == Step(v, x, y, rate)
  {
    hide Step, Answer;
    StepIsVisit(v, x, y, rate);
    var s := Step(v, x, y, rate);
    forall j | 0 <= j <= |x| ensures Weight(v', j) == Weight(s, j) {
    }
    SameModel(v', s);
  }

  /**
   Whatever models the visits to the first k samples pass through, the epoch ends with the last and counts the mistakes.
   */
  lemma {:induction false} EpochOf(v: seq<Model>, X: seq<Vec>, y: seq<int>, rate: real, k: nat)
    requires k < |v| && Visits(v, X, y, rate, |v| - 1) && Shaped(|v[0].w|, X, y)
    ensures Epoch(v[0], X, y, rate, k) == Pass(v[k], Mistakes(v, X, y, rate, k))
  {
    hide Step, Answer, Predict;
    if k > 0 {
      EpochOf(v, X, y, rate, k - 1);
      assert Visit(v[k - 1], v[k - 1 + 1], X[k - 1], y[k - 1], rate);
      VisitIsStep(v[k - 1], v[k], X[k - 1], y[k - 1], rate);
      StepIsVisit(v[k - 1], X[k - 1], y[k - 1], rate);
    }
  }

  /**
   An epoch visits its samples one by one, from the model it starts with, and ends with the model of the last visit.
   */
  lemma {:induction false} EpochHistory(m: Model, X: seq<Vec>, y: seq<int>, rate: real, k: nat) returns (v: seq<Model>)
    requires Shaped(|m.w|, X, y) && k <= |X|
    ensures Visits(v, X, y, rate, k) && v[0] == m
    ensures Epoch(m, X, y, rate, k) == Pass(v[k], Mistakes(v, X, y, rate, k))
  {
    hide Step, Visit, Answer, Mistakes;
    if k == 0 {
      v := [m];
    } else {
      var u := EpochHistory(m, X, y, rate, k - 1);
      var v' := Step(u[k - 1], X[k - 1], y[k - 1], rate);
      StepIsVisit(u[k - 1], X[k - 1], y[k - 1], rate);
      v := u + [v'];
      forall i | 0 <= i < k ensures Visit(v[i], v[i + 1], X[i], y[i], rate) {
        assert i < k - 1 ==> Visit(u[i], u[i + 1], X[i], y[i], rate);
      }
    }
    EpochOf(v, X, y, rate, k);
  }

  // ----- all epochs -----

  /** One row of visits for each epoch entered. */
  ghost predicate Epochs(h: seq<seq<Model>>, m: Model, X: seq<Vec>, y: seq<int>, rate: real) {
    AllLinked(h, m, |X|) && forall e | 0 <= e < |h| :: Visits(h[e], X, y, rate, |X|)
  }

  ghost function MistakesUpTo(h: seq<seq<Model>>, m: Model, X: seq<Vec>, y: seq<int>, rate: real, e: nat): nat
    requires Epochs(h, m, X, y, rate) && e <= |h|
  {
    if e == 0 then 0
    else
      assert Linked(h, m, |X|, e - 1);
      MistakesUpTo(h, m, X, y, rate, e - 1) + Mistakes(h[e - 1], X, y, rate, |X|)
  }

  /** Training enters epochs until one is free of mistakes or the budget is spent; every visit of every one is told. */
  ghost predicate Tells(h: seq<seq<Model>>, m: Model, X: seq<Vec>, y: seq<int>, rate: real, budget: nat, t: Training) {
    && Epochs(h, m, X, y, rate) && |h| == t.epochs <= budget
    && t.m == LastModel(h, m)
    && t.updates == MistakesUpTo(h, m, X, y, rate, |h|)
    && (forall e | 0 <= e < |h| - 1 :: Mistakes(h[e], X, y, rate, |X|) > 0)
    && (t.converged <==> |h| > 0 && Mistakes(h[|h| - 1], X, y, rate, |X|) == 0)
    && (!t.converged ==> |h| == budget)
  }

  lemma {:induction false} PrefixMistakes(h: seq<seq<Model>>, g: seq<seq<Model>>, m: Model, X: seq<Vec>, y: seq<int>,
                                          rate: real, e: nat)
    requires Epochs(h, m, X, y, rate) && Epochs(g, m, X, y, rate) && e <= |h| <= |g| && h == g[..|h|]
    ensures MistakesUpTo(g, m, X, y, rate, e) == MistakesUpTo(h, m, X, y, rate, e)
  {
    if e > 0 {
      PrefixMistakes(h, g, m, X, y, rate, e - 1);
      assert h[e - 1] == g[e - 1];
    }
  }

  /** One more epoch, entered after an epoch with mistakes or at the start. */
  lemma {:induction false} TellsOn(g: seq<seq<Model>>, v: seq<Model>, m: Model, X: seq<Vec>, y: seq<int>, rate: real,
                                   budget: nat, t: Training, t': Training)
    requires Tells(g, m, X, y, rate, budget, t) && !t.converged && Visits(v, X, y, rate, |X|) && v[0] == t.m
    requires var k := Mistakes(v, X, y, rate, |X|);
             t' == Training(v[|X|], t.updates + k, t.epochs + 1, k == 0)
    ensures Tells(g + [v], m, X, y, rate, budget + 1, t')
  {
    hide Mistakes, Visit, Linked;
    var h := g + [v];
    AddRow(g, v, m, |X|);
    PrefixMistakes(g, h, m, X, y, rate, |g|);
    assert forall e | 0 <= e < |g| :: h[e] == g[e];
  }

  lemma {:induction false} TrainHistory(m: Model, X: seq<Vec>, y: seq<int>, rate: real, budget: nat)
    returns (h: seq<seq<Model>>)
    requires Shaped(|m.w|, X, y)
    ensures Tells(h, m, X, y, rate, budget, Train(m, X, y, rate, budget))
  {
    hide Epoch, Mistakes, Visits, Linked;
    if budget == 0 {
      h := [];
    } else {
      var g := TrainHistory(m, X, y, rate, budget - 1);
      var t := Train(m, X, y, rate, budget - 1);
      if t.converged {
        h := g;
      } else {
        var v := EpochHistory(t.m, X, y, rate, |X|);
        h := g + [v];
        TellsOn(g, v, m, X, y, rate, budget - 1, t, Train(m, X, y, rate, budget));
        hide Tells;
      }
    }
  }

  // ----- the trained model as a signed sum of samples -----

  /** The sum of (label - answer) times feature j over the first k visits. */
  ghost function Corrections(v: seq<Model>, X: seq<Vec>, y: seq<int>, rate: real, k: nat, j: nat): real
    requires k < |v| && Visits(v, X, y, rate, |v| - 1) && j <= |v[0].w|
    requires forall i | 0 <= i < k :: |X[i]| == |v[0].w|
  {
    if k == 0 then 0.0
    else
      assert Visit(v[k - 1], v[k - 1 + 1], X[k - 1], y[k - 1], rate);
      Corrections(v, X, y, rate, k - 1, j)
      + (y[k - 1] - Answer(v[k - 1], X[k - 1])) as real * Feature(X[k - 1], j)
  }

  lemma {:induction false} SumOfVisits(v: seq<Model>, X: seq<Vec>, y: seq<int>, rate: real, k: nat, j: nat)
    requires k < |v| && Visits(v, X, y, rate, |v| - 1) && Shaped(|v[0].w|, X, y) && j <= |v[0].w|
    ensures |v[k].w| == |v[0].w|
    ensures Weight(v[k], j) == Weight(v[0], j) + rate * Corrections(v, X, y, rate, k, j)
  {
    hide Answer;
    if k > 0 {
      SumOfVisits(v, X, y, rate, k - 1, j);
      assert Visit(v[k - 1], v[k - 1 + 1], X[k - 1], y[k - 1], rate);
      var c, d := Corrections(v, X, y, rate, k - 1, j), (y[k - 1] - Answer(v[k - 1], X[k - 1])) as real;
      OneMoreTerm(rate, c, d, Feature(X[k - 1], j));
    }
  }

  lemma OneMoreTerm(rate: real, c: real, d: real, x: real)
    ensures rate * (c + d * x) == rate * c + rate * d * x
  {
  }

  ghost function AllCorrections(h: seq<seq<Model>>, m: Model, X: seq<Vec>, y: seq<int>, rate: real, e: nat,
                                j: nat): real
    requires Epochs(h, m, X, y, rate) && Shaped(|m.w|, X, y) && e <= |h| && j <= |m.w| && Wide(h[..e], |m.w|)
  {
    if e == 0 then 0.0
    else
      assert Linked(h, m, |X|, e - 1) && h[..e][e - 1] == h[e - 1] && h[..e][..e - 1] == h[..e - 1];
      AllCorrections(h, m, X, y, rate, e - 1, j) + Corrections(h[e - 1], X, y, rate, |X|, j)
  }

  lemma {:induction false} SumOfEpochs(h: seq<seq<Model>>, m: Model, X: seq<Vec>, y: seq<int>, rate: real, e: nat,
                                       j: nat)
    requires Epochs(h, m, X, y, rate) && Shaped(|m.w|, X, y) && e <= |h| && j <= |m.w|
    ensures Wide(h[..e], |m.w|)
    ensures var end := if e == 0 then m else h[e - 1][|X|];
            |end.w| == |m.w| && Weight(end, j) == Weight(m, j) + rate * AllCorrections(h, m, X, y, rate, e, j)
  {
    hide Corrections, Visit, Weight;
    if e > 0 {
      SumOfEpochs(h, m, X, y, rate, e - 1, j);
      assert Linked(h, m, |X|, e - 1) && h[..e] == h[..e - 1] + [h[e - 1]];
      SumOfVisits(h[e - 1], X, y, rate, |X|, j);
      TwoTerms(rate, AllCorrections(h, m, X, y, rate, e - 1, j), Corrections(h[e - 1], X, y, rate, |X|, j));
    }
  }

  lemma TwoTerms(rate: real, a: real, c: real)
    ensures rate * (a + c) == rate * a + rate * c
  {
  }

  lemma {:induction false} SumOfHistory(h: seq<seq<Model>>, m: Model, X: seq<Vec>, y: seq<int>, rate: real, j: nat)
    requires Epochs(h, m, X, y, rate) && Shaped(|m.w|, X, y) && j <= |m.w|
    ensures Wide(h, |m.w|) && h[..|h|] == h && |LastModel(h, m).w| == |m.w|
    ensures Weight(LastModel(h, m), j) == Weight(m, j) + rate * AllCorrections(h, m, X, y, rate, |h|, j)
  {
    hide Linked, Corrections, Weight, AllCorrections, Wide, LastModel;
    SumOfEpochs(h, m, X, y, rate, |h|, j);
    assert h[..|h|] == h;
    LastRow(h, m, |X|);
  }

  /** The trained model is rate times the signed sum of the extended samples over all visits with a wrong answer. */
  lemma {:induction false} TrainedSum(n: nat, X: seq<Vec>, y: seq<int>, rate: real, budget: nat)
    returns (h: seq<seq<Model>>)
    requires Shaped(n, X, y)
    ensures Tells(h, Untrained(n), X, y, rate, budget, Train(Untrained(n), X, y, rate, budget))
    ensures Wide(h, n) && h[..|h|] == h
    ensures forall j | 0 <= j <= n ::
              Weight(Train(Untrained(n), X, y, rate, budget).m, j) ==
              rate * AllCorrections(h, Untrained(n), X, y, rate, |h|, j)
  {
    hide Train, Epochs, AllCorrections, Wide, LastModel;
    var m := Untrained(n);
    h := TrainHistory(m, X, y, rate, budget);
    SumOfHistory(h, m, X, y, rate, 0);
    forall j | 0 <= j <= n
      ensures Weight(Train(m, X, y, rate, budget).m, j) == rate * AllCorrections(h, m, X, y, rate, |h|, j)
    {
      SumOfHistory(h, m, X, y, rate, j);
    }
  }
}
