/** Adding up a number per thread or participant; with 0/1 weights this counts the threads in a phase. */
module Tally {
  function Total<T>(s: seq<T>, weight: T -> nat): nat {
    if s == [] then 0 else Total(s[..|s| - 1], weight) + weight(s[|s| - 1])
  }

  /** Changing one entry changes the total by the difference of its weights, and each entry is a part of the total. */
  lemma {:induction false} TotalUpdate<T>(s: seq<T>, i: nat, v: T, weight: T -> nat)
    requires i < |s|
    ensures Total(s[i := v], weight) == Total(s, weight) - weight(s[i]) + weight(v)
    ensures weight(s[i]) <= Total(s, weight)
  {
    var n := |s| - 1;
    if i < n {
      TotalUpdate(s[..n], i, v, weight);
      assert s[i := v][..n] == s[..n][i := v];
    } else {
      assert s[i := v][..n] == s[..n];
    }
  }

  /** A positive total has a positive part. */
  lemma {:induction false} SomePart<T>(s: seq<T>, weight: T -> nat) returns (i: nat)
    requires Total(s, weight) > 0
    ensures i < |s| && weight(s[i]) > 0
  {
    var n := |s| - 1;
    if weight(s[n]) > 0 {
      i := n;
    } else {
      i := SomePart(s[..n], weight);
    }
  }

  lemma {:induction false} TwoParts<T>(s: seq<T>, i: nat, j: nat, weight: T -> nat)
    requires i < j < |s|
    ensures weight(s[i]) + weight(s[j]) <= Total(s, weight)
  {
    var n := |s| - 1;
    if j < n {
      TwoParts(s[..n], i, j, weight);
    } else {
      TotalUpdate(s[..n], i, s[i], weight);
    }
  }

  lemma {:induction false} TotalOfSame<T>(s: seq<T>, v: T, weight: T -> nat)
    requires forall i | 0 <= i < |s| :: s[i] == v
    ensures Total(s, weight) == |s| * weight(v)
  {
    if s != [] {
      TotalOfSame(s[..|s| - 1], v, weight);
      assert |s| * weight(v) == (|s| - 1) * weight(v) + weight(v);
    }
  }

  lemma {:induction false} TotalBelow<T(!new)>(s: seq<T>, v: T -> nat, w: T -> nat)
    requires forall x :: v(x) <= w(x)
    ensures Total(s, v) <= Total(s, w)
  {
    if s != [] {
      TotalBelow(s[..|s| - 1], v, w);
    }
  }

  lemma {:induction false} TotalZero<T>(s: seq<T>, weight: T -> nat)
    requires forall i | 0 <= i < |s| :: weight(s[i]) == 0
    ensures Total(s, weight) == 0
  {
    if s != [] {
      TotalZero(s[..|s| - 1], weight);
    }
  }

  /** If nothing weighs more than 1, the total counts, and a full count leaves nobody out. */
  lemma {:induction false} AtMostAll<T(!new)>(s: seq<T>, weight: T -> nat)
    requires forall x :: weight(x) <= 1
    ensures Total(s, weight) <= |s|
    ensures Total(s, weight) == |s| ==> forall i | 0 <= i < |s| :: weight(s[i]) == 1
  {
    if s != [] {
      AtMostAll(s[..|s| - 1], weight);
    }
  }

  lemma {:induction false} AllCounted<T>(s: seq<T>, weight: T -> nat)
    requires forall i | 0 <= i < |s| :: weight(s[i]) == 1
    ensures Total(s, weight) == |s|
  {
    if s != [] {
      AllCounted(s[..|s| - 1], weight);
    }
  }

  /** If all but one are counted and p is not, all the others are. */
  lemma {:induction false} AllOthers<T(!new)>(s: seq<T>, p: nat, weight: T -> nat)
    requires p < |s| && weight(s[p]) == 0 && Total(s, weight) == |s| - 1
    requires forall x :: weight(x) <= 1
    ensures forall i | 0 <= i < |s| && i != p :: weight(s[i]) == 1
  {
    var n := |s| - 1;
    AtMostAll(s[..n], weight);
    if p < n {
      AllOthers(s[..n], p, weight);
    }
  }
}
