/**
 A training run written down: one row of models for each pass over the samples, each row starting where the last ended.
 */
module Histories {
  import opened LinearModel
  import opened Vectors

  /** A sample as its features and the constant 1 that the bias goes with. */
  function Feature(x: Vec, j: nat): real
    requires j <= |x|
  {
    if j < |x| then x[j] else 1.0
  }

  function Weight(v: Model, j: nat): real
    requires j <= |v.w|
  {
    if j < |v.w| then v.w[j] else v.b
  }

  lemma SameModel(v: Model, u: Model)
    requires |v.w| == |u.w| && forall j | 0 <= j <= |v.w| :: Weight(v, j) == Weight(u, j)
    ensures v == u
  {
    assert Weight(v, |v.w|) == Weight(u, |v.w|);
    forall j | 0 <= j < |v.w| ensures v.w[j] == u.w[j] {
      assert Weight(v, j) == Weight(u, j);
    }
    assert v.w == u.w;
  }

  /** Row e starts with m, or with the end of the row before it; n is the number of samples. */
  ghost predicate Linked(h: seq<seq<Model>>, m: Model, n: nat, e: nat)
    requires e < |h|
  {
    && |h[e]| == n + 1
    && (e == 0 ==> h[e][0] == m)
    && (e > 0 ==> |h[e - 1]| == n + 1 && h[e][0] == h[e - 1][n])
  }

  ghost predicate AllLinked(h: seq<seq<Model>>, m: Model, n: nat) {
    forall e | 0 <= e < |h| :: Linked(h, m, n, e)
  }

  function LastModel(h: seq<seq<Model>>, m: Model): Model {
    if h == [] || h[|h| - 1] == [] then m else h[|h| - 1][|h[|h| - 1]| - 1]
  }

  /** All rows start with n weights. */
  ghost predicate Wide(h: seq<seq<Model>>, n: nat) {
    forall e | 0 <= e < |h| :: |h[e]| > 0 && |h[e][0].w| == n
  }

  lemma LastRow(h: seq<seq<Model>>, m: Model, n: nat)
    requires AllLinked(h, m, n)
    ensures h != [] ==> |h[|h| - 1]| == n + 1
    ensures LastModel(h, m) == if h == [] then m else h[|h| - 1][n]
  {
    assert h != [] ==> Linked(h, m, n, |h| - 1);
  }

  lemma AddRow(g: seq<seq<Model>>, v: seq<Model>, m: Model, n: nat)
    requires AllLinked(g, m, n) && |v| == n + 1 && v[0] == LastModel(g, m)
    ensures AllLinked(g + [v], m, n) && LastModel(g + [v], m) == v[n]
  {
    var h := g + [v];
    LastRow(g, m, n);
    forall e | 0 <= e < |h| ensures Linked(h, m, n, e) {
      assert e < |g| ==> Linked(g, m, n, e) && h[e] == g[e];
      assert 0 < e ==> Linked(g, m, n, e - 1) && h[e - 1] == g[e - 1];
    }
  }
}
