/** What dfs_write of dfs.h leaves in each block, on any table: bytes, checksum, version, and everything that stays. */
module DfsScatter {
  import opened BlockLayout
  import opened Bytes
  import opened Disks
  import opened DfsGather
  import opened DfsRefinement

  const every: Block -> bool := (b: Block) => true

  ghost predicate ListedOnce(f: Inode) {
    forall i, j | 0 <= i < j < |f.list| :: f.list[i] != f.list[j]
  }

  /**
   b' is b after a copy: the bytes outside the stretch stay, the checksum is that of the data, the version rises by 1.
   */
  ghost predicate Stamped(b: Block, b': Block, at: nat, n: nat, checksum: Checksum) {
    && |b'.data| == |b.data| && b'.checksum == checksum(b'.data) && b'.version == b.version + 1
    && (forall x | 0 <= x < |b.data| && !(at <= x < at + n) :: b'.data[x] == b.data[x])
    && b'.id == b.id && b'.fileId == b.fileId && b'.offset == b.offset && b'.primary == b.primary
  }

  /** Before block i the blocks of the range are stamped, and all others are as they were. */
  ghost predicate Marked(d: Disk, d': Disk, f: Inode, offset: nat, size: nat, i: nat, checksum: Checksum) {
    && (forall id :: Tabled(d', id) == Tabled(d, id))
    && (forall id | Tabled(d, id) && id !in f.list :: At(d', id) == At(d, id))
    && (forall j | 0 <= j < |f.list| && Tabled(d, f.list[j]) ::
          if First(offset) <= j < i
          then Stamped(At(d, f.list[j]), At(d', f.list[j]), ChunkStart(offset, j), ChunkSize(offset, size, j), checksum)
          else At(d', f.list[j]) == At(d, f.list[j]))
  }

  ghost function After(d: Disk, table: seq<Block>): Disk {
    d.(table := table)
  }

  lemma {:induction false} GatherSame(d: Disk, d': Disk, f: Inode, lo: nat, hi: nat, keep: Block -> bool)
    requires WholeBlocks(d.table) && WholeBlocks(d'.table)
    requires forall k | lo <= k < hi && k / B < |f.list| ::
               var id := f.list[k / B];
               Tabled(d', id) == Tabled(d, id) && (Tabled(d, id) ==> At(d', id) == At(d, id))
    ensures Gather(d', f, lo, hi, keep) == Gather(d, f, lo, hi, keep)
  {
    hide Find;
    if lo < hi {
      GatherSame(d, d', f, lo, hi - 1, keep);
    }
  }

  /** A round on a table that holds the block. */
  lemma {:induction false} RoundStamps(d: Disk, f: Inode, w: Writing, buf: seq<byte>, offset: nat, i: nat,
                                       checksum: Checksum)
    requires WholeBlocks(w.table) && ListedOnce(f) && Sound(offset, |buf|) && Touched(buf, offset, i) && i < |f.list|
    requires !w.overrun && w.written <= Before(offset, |buf|, i) && Tabled(After(d, w.table), f.list[i])
    ensures var id, r := f.list[i], WriteBlock(w, f.list, buf, offset, i, checksum);
            var at, n := ChunkStart(offset, i), ChunkSize(offset, |buf|, i);
            var e, e' := After(d, w.table), After(d, r.table);
            && !r.overrun && r.written == w.written + n <= |buf| && at + n <= B && WholeBlocks(r.table)
            && (forall x :: Tabled(e', x) == Tabled(e, x))
            && (forall x | Tabled(e, x) && x != id :: At(e', x) == At(e, x))
            && |At(e, id).data| == |At(e', id).data| == B && Stamped(At(e, id), At(e', id), at, n, checksum)
            && At(e', id).data[at..at + n] == buf[w.written..r.written]
  {
    hide Find, ChunkStart, ChunkSize, Before, First, Past, Sound;
    ChunkExact(offset, |buf|, i);
    var r := WriteBlock(w, f.list, buf, offset, i, checksum);
    var k := Find(w.table, f.list[i]);
    forall x ensures Find(r.table, x) == Find(w.table, x) {
      FindSameIds(w.table, r.table, x);
    }
    forall x | Tabled(After(d, w.table), x) && x != f.list[i] ensures Find(w.table, x) != k {
    }
  }

  lemma {:induction false} RoundSkips(d: Disk, f: Inode, w: Writing, buf: seq<byte>, offset: nat, i: nat,
                                      checksum: Checksum)
    requires WholeBlocks(w.table) && i < |f.list| && !Tabled(After(d, w.table), f.list[i])
    ensures WriteBlock(w, f.list, buf, offset, i, checksum) == w
  {
  }

  /** What the rounds before block i have done. */
  ghost predicate Scattered(d: Disk, f: Inode, buf: seq<byte>, offset: nat, i: nat, checksum: Checksum, w: Writing)
    requires WholeBlocks(d.table)
  {
    && !w.overrun && w.written <= Before(offset, |buf|, i) && w.written <= |buf| && WholeBlocks(w.table)
    && Marked(d, After(d, w.table), f, offset, |buf|, i, checksum)
    && Gather(After(d, w.table), f, offset, offset + Before(offset, |buf|, i), every) == buf[..w.written]
  }

  lemma {:induction false} ScatterOne(d: Disk, f: Inode, w: Writing, buf: seq<byte>, offset: nat, i: nat,
                                      checksum: Checksum)
    requires WholeBlocks(d.table) && ListedOnce(f) && Sound(offset, |buf|) && Touched(buf, offset, i) && i < |f.list|
    requires Scattered(d, f, buf, offset, i, checksum, w)
    ensures Scattered(d, f, buf, offset, i + 1, checksum, WriteBlock(w, f.list, buf, offset, i, checksum))
  {
    hide Find, ChunkStart, ChunkSize, Before, First, Past, Sound, WriteBlock, Gather, Stamped, At;
    var r := WriteBlock(w, f.list, buf, offset, i, checksum);
    var e, e' := After(d, w.table), After(d, r.table);
    ChunkExact(offset, |buf|, i);
    GatherChunk(e', f, offset, i, ChunkStart(offset, i), ChunkSize(offset, |buf|, i), every);
    if Tabled(e, f.list[i]) {
      RoundStamps(d, f, w, buf, offset, i, checksum);
      BlocksBelow(buf, offset, i);
      GatherSame(e, e', f, offset, offset + Before(offset, |buf|, i), every);
      assert buf[..w.written] + buf[w.written..r.written] == buf[..r.written];
    } else {
      RoundSkips(d, f, w, buf, offset, i, checksum);
    }
  }

  /** The positions of the range before block i lie in blocks before i. */
  lemma BlocksBelow(buf: seq<byte>, offset: nat, i: nat)
    requires Sound(offset, |buf|) && Touched(buf, offset, i)
    ensures forall k | offset <= k < offset + Before(offset, |buf|, i) :: k / B < i
  {
  }

  lemma {:induction false} ScatterAll(d: Disk, f: Inode, buf: seq<byte>, offset: nat, i: nat, checksum: Checksum)
    requires WholeBlocks(d.table) && ListedOnce(f) && Sound(offset, |buf|)
    requires First(offset) <= i <= Past(offset, |buf|) && (i > First(offset) ==> i <= |f.list|)
    ensures Scattered(d, f, buf, offset, i, checksum, WriteUpTo(d.table, f.list, buf, offset, i, checksum))
  {
    hide Scattered, WriteBlock;
    if i == First(offset) {
      ScatterNone(d, f, buf, offset, checksum);
    } else {
      ScatterAll(d, f, buf, offset, i - 1, checksum);
      ScatterOne(d, f, WriteUpTo(d.table, f.list, buf, offset, i - 1, checksum), buf, offset, i - 1, checksum);
    }
  }

  lemma ScatterNone(d: Disk, f: Inode, buf: seq<byte>, offset: nat, checksum: Checksum)
    requires WholeBlocks(d.table) && Sound(offset, |buf|)
    ensures Scattered(d, f, buf, offset, First(offset), checksum, Writing(d.table, 0, false))
  {
    AtFirst(offset, |buf|);
  }

  // ----- growing -----

  ghost predicate IdsBelow(d: Disk, f: Inode) {
    && (forall i | 0 <= i < |d.table| :: d.table[i].id < d.nextBlockId)
    && (forall j | 0 <= j < |f.list| :: f.list[j] < d.nextBlockId)
  }

  /** The file's k-th new block as dfs_write creates it. */
  function FreshBlock(d: Disk, f: Inode, k: nat): Block {
    Block(d.nextBlockId + k, f.inode, (|f.list| + k) * B, Blank(B), 0, 1, 0)
  }

  function FreePlaces(d: Disk): nat {
    if d.capacity > |d.table| then d.capacity - |d.table| else 0
  }

  /** The list goes on with n consecutive fresh ids, and the table with their blocks as far as there is room. */
  ghost predicate Extended(d: Disk, f: Inode, d': Disk, f': Inode, n: nat) {
    && f' == f.(list := f'.list) && |f'.list| == |f.list| + n && f'.list[..|f.list|] == f.list
    && (forall j | |f.list| <= j < |f'.list| :: f'.list[j] == d.nextBlockId + (j - |f.list|))
    && d' == d.(table := d'.table, nextBlockId := d.nextBlockId + n)
    && |d'.table| == |d.table| + (if n < FreePlaces(d) then n else FreePlaces(d)) && d'.table[..|d.table|] == d.table
    && forall i | |d.table| <= i < |d'.table| :: d'.table[i] == FreshBlock(d, f, i - |d.table|)
  }

  lemma ExtendOne(d: Disk, f: Inode, e: Disk, g: Inode, n: nat)
    requires Extended(d, f, e, g, n)
    ensures Extended(d, f, AddBlock(e, g).0, AddBlock(e, g).1, n + 1)
  {
    hide Blank;
    var (e', g') := AddBlock(e, g);
    assert g'.list[..|f.list|] == g.list[..|f.list|];
    assert e'.table[..|d.table|] == e.table[..|d.table|];
  }

  lemma {:induction false} GrowExtends(d: Disk, f: Inode, n: nat)
    ensures Extended(d, f, Grow(d, f, |f.list| + n).0, Grow(d, f, |f.list| + n).1, n)
  {
    hide Blank, Extended, AddBlock;
    if n > 0 {
      GrowExtends(d, f, n - 1);
      var (e, g) := Grow(d, f, |f.list| + n - 1);
      ExtendOne(d, f, e, g, n - 1);
    } else {
      ExtendNone(d, f);
    }
  }

  lemma ExtendNone(d: Disk, f: Inode)
    ensures Extended(d, f, d, f, 0)
  {
  }

  lemma {:induction false} ExtendedIds(d: Disk, f: Inode, d': Disk, f': Inode, n: nat)
    requires IdsBelow(d, f) && ListedOnce(f) && Extended(d, f, d', f', n)
    ensures IdsBelow(d', f') && ListedOnce(f')
  {
    hide Blank;
    forall i | 0 <= i < |d'.table| ensures d'.table[i].id < d'.nextBlockId {
      if i < |d.table| {
        assert d'.table[i] == d'.table[..|d.table|][i];
      } else {
        assert d'.table[i] == FreshBlock(d, f, i - |d.table|);
      }
    }
    forall j | 0 <= j < |f'.list| ensures f'.list[j] < d'.nextBlockId && (j < |f.list| ==> f'.list[j] == f.list[j]) {
      if j < |f.list| {
        assert f'.list[j] == f'.list[..|f.list|][j];
      }
    }
  }

  // ----- the whole call -----

  /** How many blocks the list lacks. */
  function Missing(f: Inode, count: nat): nat {
    if |f.list| < count then count - |f.list| else 0
  }

  function Longer(a: nat, b: nat): nat {
    if a < b then b else a
  }

  /**
   A write cut right, on any table: the list is extended if it is too short; the bytes go in order to the positions of
   the range whose blocks are in the table; each of these blocks is stamped, no other changes; as many bytes are
   reported.
   */
  lemma {:induction false} WriteScatters(d: Disk, f: Inode, buf: seq<byte>, offset: nat, checksum: Checksum)
    requires WholeBlocks(d.table) && IdsBelow(d, f) && ListedOnce(f) && Sound(offset, |buf|)
    ensures var (d', f', outcome) := Write(d, f, buf, offset, true, checksum);
            var (e, h) := Grow(d, f, Past(offset, |buf|));
            && Extended(d, f, e, h, Missing(f, Past(offset, |buf|)))
            && outcome.Done? && outcome.bytes <= |buf| && WholeBlocks(d'.table)
            && Gather(d', f', offset, offset + |buf|, every) == buf[..outcome.bytes]
            && Marked(e, d', h, offset, |buf|, Past(offset, |buf|), checksum)
            && d' == e.(table := d'.table, totalBytes := d.totalBytes + outcome.bytes)
            && f' == h.(size := Longer(f.size, offset + |buf|))
  {
    hide Find, Sound, First, Past, Before, Gather, WriteUpTo, Stamped, At, Tabled, Extended;
    var p := Past(offset, |buf|);
    var (e, h) := Grow(d, f, p);
    GrowSame(d, f, p);
    GrowExtends(d, f, Missing(f, p));
    ExtendedIds(d, f, e, h, Missing(f, p));
    ScatterAll(e, h, buf, offset, p, checksum);
    AllOfRange(offset, |buf|);
    var w := WriteUpTo(e.table, h.list, buf, offset, p, checksum);
    var (d', f', outcome) := Write(d, f, buf, offset, true, checksum);
    TotalsAside(After(e, w.table), d', h, f', offset, offset + |buf|, e, |buf|, p, checksum);
    ExtendedKeeps(d, f, e, h, Missing(f, p));
  }

  lemma ExtendedKeeps(d: Disk, f: Inode, d': Disk, f': Inode, n: nat)
    requires Extended(d, f, d', f', n)
    ensures d'.totalBytes == d.totalBytes && f'.size == f.size
  {
  }

  lemma GrowSame(d: Disk, f: Inode, count: nat)
    ensures Grow(d, f, count) == Grow(d, f, |f.list| + Missing(f, count))
  {
  }

  lemma AllOfRange(offset: nat, size: nat)
    requires Sound(offset, size)
    ensures Before(offset, size, Past(offset, size)) == size
  {
    PastIsTight(offset, size);
  }

  /** Byte totals and sizes have no part in where the bytes are. */
  lemma {:induction false} TotalsAside(e: Disk, d': Disk, h: Inode, f': Inode, lo: nat, hi: nat, d: Disk, size: nat,
                                       i: nat,
                                       checksum: Checksum)
    requires WholeBlocks(e.table) && d'.table == e.table && f'.list == h.list
    ensures Gather(d', f', lo, hi, every) == Gather(e, h, lo, hi, every)
    ensures Marked(d, e, h, lo, size, i, checksum) ==> Marked(d, d', h, lo, size, i, checksum)
  {
    hide Find, First, ChunkStart, ChunkSize, Stamped;
    if lo < hi {
      TotalsAside(e, d', h, f', lo, hi - 1, d, size, i, checksum);
    }
    forall id ensures Tabled(d', id) == Tabled(e, id) && (Tabled(e, id) ==> At(d', id) == At(e, id)) {
    }
  }

  /** Without memory for a longer list the write fails and nothing changes; else memory makes no difference. */
  lemma {:induction false} WithoutMemory(d: Disk, f: Inode, buf: seq<byte>, offset: nat, memory: bool,
                                         checksum: Checksum)
    requires WholeBlocks(d.table)
    ensures Write(d, f, buf, offset, memory, checksum).2 == NoMemory <==> !memory && Past(offset, |buf|) > |f.list|
    ensures Write(d, f, buf, offset, memory, checksum) ==
            if !memory && Past(offset, |buf|) > |f.list| then (d, f, NoMemory)
            else Write(d, f, buf, offset, true, checksum)
  {
    hide WriteUpTo, Past;
  }
}
