/** The top-five selection of distributed_syscalls.h:239-261 and the full ranking that it is the head of. */
module TopFive {
  datatype Entry = Entry(idx: nat, count: nat)

  /** The place of a new entry: behind all that have at least its count. */
  function Slot(s: seq<Entry>, e: Entry): (r: nat)
    ensures r <= |s|
    ensures forall j | 0 <= j < r :: e.count <= s[j].count
    ensures r < |s| ==> e.count > s[r].count
  {
    if s == [] || e.count > s[0].count then 0 else 1 + Slot(s[1..], e)
  }

  function Insert(s: seq<Entry>, e: Entry): seq<Entry> {
    s[..Slot(s, e)] + [e] + s[Slot(s, e)..]
  }

  /** All positive counts among the first n, ranked. */
  function Ranked(counts: seq<nat>, n: nat): seq<Entry>
    requires n <= |counts|
  {
    if n == 0 then []
    else if counts[n - 1] == 0 then Ranked(counts, n - 1)
    else Insert(Ranked(counts, n - 1), Entry(n - 1, counts[n - 1]))
  }

  /** The first five, padded with zero entries. */
  function FirstFive(s: seq<Entry>): (r: seq<Entry>)
    ensures |r| == 5
  {
    seq(5, j requires 0 <= j < 5 => if j < |s| then s[j] else Entry(0, 0))
  }

  predicate Ahead(a: Entry, b: Entry) {
    a.count > b.count || (a.count == b.count && a.idx < b.idx)
  }

  method InsertTop(top: array<Entry>, ghost s: seq<Entry>, e: Entry)
    requires top.Length == 5 && top[..] == FirstFive(s) && e.count > 0
    modifies top
    ensures top[..] == FirstFive(Insert(s, e))
  {
    var j := 0;
    while j < 5
      invariant j <= 5 && top[..] == FirstFive(s)
      invariant forall i | 0 <= i < j :: i < |s| && e.count <= s[i].count
    {
      if e.count > top[j].count {
        assert Slot(s, e) == j;
        var k := 4;
        while k > j
          invariant j <= k <= 4
          invariant forall i | 0 <= i <= k :: top[i] == FirstFive(s)[i]
          invariant forall i | k < i < 5 :: top[i] == FirstFive(s)[i - 1]
        {
          top[k] := top[k - 1];
          k := k - 1;
        }
        top[j] := e;
        break;
      }
      j := j + 1;
    }
    assert j == 5 ==> Slot(s, e) >= 5;
  }

  /** The selection loop. */
  method SelectTopFive(counts: seq<nat>) returns (top: array<Entry>)
    ensures top[..] == FirstFive(Ranked(counts, |counts|))
  {
    top := new Entry[5](_ => Entry(0, 0));
    assert top[..] == FirstFive([]);
    for i := 0 to |counts|
      invariant fresh(top) && top.Length == 5 && top[..] == FirstFive(Ranked(counts, i))
    {
      var count := counts[i];
      if count == 0 {
        continue;
      }
      InsertTop(top, Ranked(counts, i), Entry(i, count));
    }
  }

  ghost predicate Sorted(s: seq<Entry>) {
    forall j, k | 0 <= j < k < |s| :: Ahead(s[j], s[k])
  }

  lemma {:induction false} InsertSorts(s: seq<Entry>, e: Entry)
    requires Sorted(s) && forall j | 0 <= j < |s| :: s[j].idx < e.idx
    ensures Sorted(Insert(s, e))
    ensures forall x :: x in Insert(s, e) <==> x == e || x in s
  {
    hide Slot;
    var p, r := Slot(s, e), Insert(s, e);
    forall j | p <= j < |s| ensures e.count > s[j].count {
      assert p < j ==> Ahead(s[p], s[j]);
    }
    forall j, k | 0 <= j < k < |r| ensures Ahead(r[j], r[k]) {
    }
    forall x ensures x in r <==> x == e || x in s {
      assert s == s[..p] + s[p..];
    }
  }

  /** The ranking is by count, ties by lower index, and holds exactly the positive counts, each once. */
  lemma {:induction false} RankedSorts(counts: seq<nat>, n: nat)
    requires n <= |counts|
    ensures Sorted(Ranked(counts, n))
    ensures forall x :: x in Ranked(counts, n) <==> x.idx < n && x.count == counts[x.idx] > 0
  {
    hide Insert, Sorted;
    if n == 0 {
      EmptySorted();
    } else {
      RankedSorts(counts, n - 1);
      if counts[n - 1] > 0 {
        InsertSorts(Ranked(counts, n - 1), Entry(n - 1, counts[n - 1]));
      }
    }
  }

  lemma EmptySorted()
    ensures Sorted([])
  {
  }

  /**
   What the five places hold: an index ranks above another exactly if it is ahead, and whoever is left out is behind all
   five.
   */
  lemma {:induction false} TopFiveIsTop(counts: seq<nat>, i: nat)
    requires i < |counts| && counts[i] > 0
    ensures var top, e := FirstFive(Ranked(counts, |counts|)), Entry(i, counts[i]);
            e in top <==> exists j :: 0 <= j < 5 && (top[j] == e || Ahead(e, top[j]))
  {
    RankedSorts(counts, |counts|);
    var s, e := Ranked(counts, |counts|), Entry(i, counts[i]);
    var top := FirstFive(s);
    var k :| 0 <= k < |s| && s[k] == e;
    if k < 5 {
      assert top[k] == e;
    }
  }

  // ----- each place -----

  /** The indices with a positive count that are ahead of an entry. */
  function Rivals(counts: seq<nat>, e: Entry): set<nat> {
    set i | 0 <= i < |counts| && counts[i] > 0 && Ahead(Entry(i, counts[i]), e)
  }

  function Used(counts: seq<nat>): set<nat> {
    set i | 0 <= i < |counts| && counts[i] > 0
  }

  ghost function Indices(s: seq<Entry>, p: nat): set<nat>
    requires p <= |s|
  {
    set j | 0 <= j < p :: s[j].idx
  }

  lemma {:induction false} IndicesCount(s: seq<Entry>, p: nat)
    requires p <= |s| && forall i, j | 0 <= i < j < |s| :: s[i].idx != s[j].idx
    ensures |Indices(s, p)| == p
  {
    if p > 0 {
      IndicesCount(s, p - 1);
      assert Indices(s, p) == Indices(s, p - 1) + {s[p - 1].idx};
      assert s[p - 1].idx !in Indices(s, p - 1);
    } else {
      assert Indices(s, 0) == {};
    }
  }

  lemma {:induction false} RankedPlaces(counts: seq<nat>, s: seq<Entry>)
    requires Sorted(s) && forall x :: x in s <==> x.idx < |counts| && x.count == counts[x.idx] > 0
    ensures |Used(counts)| == |s|
    ensures forall p | 0 <= p < |s| :: |Rivals(counts, s[p])| == p
  {
    forall i, j | 0 <= i < j < |s| ensures s[i].idx != s[j].idx {
      assert s[i] in s && s[j] in s && Ahead(s[i], s[j]);
    }
    IndicesCount(s, |s|);
    assert Used(counts) == Indices(s, |s|) by {
      UsedIndices(counts, s);
    }
    forall p | 0 <= p < |s| ensures |Rivals(counts, s[p])| == p {
      IndicesCount(s, p);
      RivalsFirst(counts, s, p);
    }
  }

  lemma {:induction false} UsedIndices(counts: seq<nat>, s: seq<Entry>)
    requires forall x :: x in s <==> x.idx < |counts| && x.count == counts[x.idx] > 0
    ensures Used(counts) == Indices(s, |s|)
  {
    forall i | i in Used(counts) ensures i in Indices(s, |s|) {
      assert Entry(i, counts[i]) in s;
    }
    forall i | i in Indices(s, |s|) ensures i in Used(counts) {
      var j :| 0 <= j < |s| && s[j].idx == i;
      assert s[j] in s;
    }
  }

  lemma {:induction false} RivalsFirst(counts: seq<nat>, s: seq<Entry>, p: nat)
    requires Sorted(s) && p < |s| && forall x :: x in s <==> x.idx < |counts| && x.count == counts[x.idx] > 0
    ensures Rivals(counts, s[p]) == Indices(s, p)
  {
    forall i | i in Rivals(counts, s[p]) ensures i in Indices(s, p) {
      assert Entry(i, counts[i]) in s;
      var j :| 0 <= j < |s| && s[j] == Entry(i, counts[i]);
    }
    forall i | i in Indices(s, p) ensures i in Rivals(counts, s[p]) {
      var j :| 0 <= j < p && s[j].idx == i;
      assert s[j] in s && Ahead(s[j], s[p]);
    }
  }

  /** Place p holds the index with exactly p others ahead of it, and is zero if fewer than p + 1 counts are positive. */
  lemma {:induction false} PlaceHolds(counts: seq<nat>, p: nat)
    requires p < 5
    ensures var e := FirstFive(Ranked(counts, |counts|))[p];
            if p < |Used(counts)| then e.idx < |counts| && e.count == counts[e.idx] > 0 && |Rivals(counts, e)| == p
            else e == Entry(0, 0)
  {
    hide Sorted, Rivals, Used;
    RankedSorts(counts, |counts|);
    var s := Ranked(counts, |counts|);
    RankedPlaces(counts, s);
    assert p < |s| ==> s[p] in s;
  }
}
