/** dfs_stripe_file spreads the blocks of a file evenly and leaves every other block where it is. */
module DfsStriping {
  import opened BlockLayout
  import opened Disks
  import opened DfsRefinement

  ghost function StripedDisk(d: Disk, f: Inode, nodes: seq<int>, k: nat): Disk
    requires k <= |f.list| && |nodes| > 0
  {
    d.(table := Striped(d.table, f.list, nodes, Width(nodes), k))
  }

  lemma {:induction false} PlacedBlocks(d: Disk, id: nat, node: int)
    requires Sane(d) && Tabled(d, id)
    ensures var d' := d.(table := Placed(d.table, id, node));
            && Sane(d')
            && (forall i :: Tabled(d', i) == Tabled(d, i))
            && (forall i | Tabled(d, i) :: At(d', i) == if i == id then At(d, i).(primary := node) else At(d, i))
  {
    hide Find;
    var d' := d.(table := Placed(d.table, id, node));
    forall i ensures Find(d'.table, i) == Find(d.table, i) {
      FindSameIds(d.table, d'.table, i);
    }
  }

  lemma {:induction false} StripedBlocks(d: Disk, f: Inode, nodes: seq<int>, k: nat)
    requires Sane(d) && Backed(d, f) && k <= |f.list| && |nodes| > 0
    ensures var d' := StripedDisk(d, f, nodes, k);
            && Sane(d') && Backed(d', f)
            && (forall id | Tabled(d, id) && id !in f.list :: Tabled(d', id) && At(d', id) == At(d, id))
            && (forall j | 0 <= j < |f.list| :: At(d', f.list[j]) ==
                  if j < k then At(d, f.list[j]).(primary := nodes[j % Width(nodes)]) else At(d, f.list[j]))
  {
    hide At, Tabled, Sane, Placed;
    if k > 0 {
      StripedBlocks(d, f, nodes, k - 1);
      PlacedBlocks(StripedDisk(d, f, nodes, k - 1), f.list[k - 1], nodes[(k - 1) % Width(nodes)]);
    }
  }

  /** How many of the file's first k blocks have this primary node. */
  ghost function BlocksOn(d: Disk, f: Inode, node: int, k: nat): nat
    requires Backed(d, f) && k <= |f.list|
  {
    if k == 0 then 0 else BlocksOn(d, f, node, k - 1) + if At(d, f.list[k - 1]).primary == node then 1 else 0
  }

  /** Of k blocks dealt to w nodes in turn, each node gets k / w, and the first k % w one more. */
  function Share(k: nat, w: nat, a: nat): nat
    requires w > 0
  {
    k / w + if a < k % w then 1 else 0
  }

  lemma DealOneMore(k: nat, w: nat, a: nat)
    requires 0 < w <= 8 && a < w
    ensures Share(k + 1, w, a) == Share(k, w, a) + if k % w == a then 1 else 0
  {
    if w == 1 {
    } else if w == 2 {
    } else if w == 3 {
    } else if w == 4 {
    } else if w == 5 {
    } else if w == 6 {
    } else if w == 7 {
    }
  }

  lemma {:induction false} SharesOf(d: Disk, f: Inode, nodes: seq<int>, a: nat, k: nat)
    requires Sane(d) && Backed(d, f) && |nodes| > 0 && a < Width(nodes) && k <= |f.list|
    requires forall i, j | 0 <= i < j < Width(nodes) :: nodes[i] != nodes[j]
    ensures var d' := StripedDisk(d, f, nodes, |f.list|);
            Backed(d', f) && BlocksOn(d', f, nodes[a], k) == Share(k, Width(nodes), a)
  {
    hide Find, Striped, Share;
    StripedBlocks(d, f, nodes, |f.list|);
    if k == 0 {
      NothingDealt(Width(nodes), a);
    } else {
      SharesOf(d, f, nodes, a, k - 1);
      DealOneMore(k - 1, Width(nodes), a);
      var i := (k - 1) % Width(nodes);
      assert i != a ==> nodes[i] != nodes[a];
    }
  }

  lemma NothingDealt(w: nat, a: nat)
    requires w > 0
    ensures Share(0, w, a) == 0
  {
  }

  /**
   After striping, any two of the nodes used have block counts that differ by at most one; other files' blocks stay.
   */
  lemma {:induction false} StripingBalances(d: Disk, f: Inode, nodes: seq<int>, a: nat, b: nat)
    requires Sane(d) && Backed(d, f) && |nodes| > 0 && a < Width(nodes) && b < Width(nodes)
    requires forall i, j | 0 <= i < j < Width(nodes) :: nodes[i] != nodes[j]
    ensures var d' := StripedDisk(d, f, nodes, |f.list|);
            && Backed(d', f)
            && BlocksOn(d', f, nodes[a], |f.list|) <= BlocksOn(d', f, nodes[b], |f.list|) + 1
            && BlocksOn(d', f, nodes[a], |f.list|) == Share(|f.list|, Width(nodes), a)
            && (forall id | Tabled(d, id) && id !in f.list :: Tabled(d', id) && At(d', id) == At(d, id))
  {
    SharesOf(d, f, nodes, a, |f.list|);
    SharesOf(d, f, nodes, b, |f.list|);
    StripedBlocks(d, f, nodes, |f.list|);
  }

  /** Striping moves no data: every file reads as before. */
  lemma {:induction false} StripingKeepsContent(d: Disk, f: Inode, g: Inode, nodes: seq<int>)
    requires Formed(d, g) && Backed(d, f) && |nodes| > 0
    ensures var d' := StripedDisk(d, f, nodes, |f.list|); Formed(d', g) && Content(d', g) == Content(d, g)
  {
    hide Find, Striped;
    var d' := StripedDisk(d, f, nodes, |f.list|);
    StripedBlocks(d, f, nodes, |f.list|);
    forall j | 0 <= j < |g.list|
      ensures Tabled(d', g.list[j]) && At(d', g.list[j]).data == At(d, g.list[j]).data
    {
      var id := g.list[j];
      assert Tabled(d, id);
      if id in f.list {
        var i :| 0 <= i < |f.list| && f.list[i] == id;
      }
    }
    assert Backed(d', g);
    forall k | 0 <= k < |g.list| * B ensures ByteAt(d', g, k) == ByteAt(d, g, k) {
      assert k / B < |g.list|;
    }
  }

  lemma {:induction false} NoShare(d: Disk, f: Inode, nodes: seq<int>, node: int, k: nat)
    requires Sane(d) && Backed(d, f) && |nodes| > 0 && node !in nodes[..Width(nodes)] && k <= |f.list|
    ensures var d' := StripedDisk(d, f, nodes, |f.list|); Backed(d', f) && BlocksOn(d', f, node, k) == 0
  {
    hide Find, Striped;
    StripedBlocks(d, f, nodes, |f.list|);
    if k > 0 {
      NoShare(d, f, nodes, node, k - 1);
      var i := (k - 1) % Width(nodes);
      assert nodes[..Width(nodes)][i] == nodes[i];
    }
  }

  /**
   Striping over distinct nodes: of the first eight of them, or of all if they are fewer, each gets its equal share of
   the blocks, the first ones one more where the shares do not come out even; any further node gets none.
   */
  lemma {:induction false} EightShare(d: Disk, f: Inode, nodes: seq<int>, a: nat, b: nat)
    requires Sane(d) && Backed(d, f) && a < |nodes| && b < |nodes|
    requires forall i, j | 0 <= i < j < |nodes| :: nodes[i] != nodes[j]
    ensures var w := if |nodes| < 8 then |nodes| else 8;
            var d' := StripedDisk(d, f, nodes, |f.list|);
            var n := |f.list|;
            && Backed(d', f)
            && (forall j | 0 <= j < n :: At(d', f.list[j]).primary == nodes[j % w])
            && BlocksOn(d', f, nodes[a], n) == (if a >= w then 0 else if a < n % w then n / w + 1 else n / w)
            && (a < w && b < w ==> BlocksOn(d', f, nodes[a], n) <= BlocksOn(d', f, nodes[b], n) + 1)
  {
    hide StripedDisk, BlocksOn, At, Tabled, Sane;
    StripedBlocks(d, f, nodes, |f.list|);
    if a < Width(nodes) {
      SharesOf(d, f, nodes, a, |f.list|);
      if b < Width(nodes) {
        SharesOf(d, f, nodes, b, |f.list|);
      }
    } else {
      NoShare(d, f, nodes, nodes[a], |f.list|);
    }
  }
}
