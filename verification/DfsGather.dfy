/**
 What dfs_write and dfs_read of dfs.h move on any block table, damaged or full: bytes go in order to the positions of
 the range whose blocks are in the table, and come back in order from those whose blocks are also intact.
 */
module DfsGather {
  import opened BlockLayout
  import opened Bytes
  import opened Disks
  import opened DfsRefinement

  /** Position k of the file lies in a block that is in the table and worth keeping. */
  ghost predicate Kept(d: Disk, f: Inode, k: nat, keep: Block -> bool) {
    k / B < |f.list| && Tabled(d, f.list[k / B]) && keep(At(d, f.list[k / B]))
  }

  ghost function ByteOf(d: Disk, f: Inode, k: nat): byte
    requires WholeBlocks(d.table) && k / B < |f.list| && Tabled(d, f.list[k / B])
  {
    At(d, f.list[k / B]).data[k % B]
  }

  /** The bytes at the kept positions from lo to hi, in order. */
  ghost function Gather(d: Disk, f: Inode, lo: nat, hi: nat, keep: Block -> bool): (r: seq<byte>)
    requires WholeBlocks(d.table)
    ensures |r| <= if hi <= lo then 0 else hi - lo
  {
    if hi <= lo then []
    else Gather(d, f, lo, hi - 1, keep) + if Kept(d, f, hi - 1, keep) then [ByteOf(d, f, hi - 1)] else []
  }

  ghost function KeptPositions(d: Disk, f: Inode, lo: nat, hi: nat, keep: Block -> bool): set<nat> {
    set k: nat | lo <= k < hi && Kept(d, f, k, keep)
  }

  lemma OnePositionMore(d: Disk, f: Inode, lo: nat, hi: nat, keep: Block -> bool)
    requires lo < hi
    ensures var s := KeptPositions(d, f, lo, hi - 1, keep);
            hi - 1 !in s && KeptPositions(d, f, lo, hi, keep) == if Kept(d, f, hi - 1, keep) then s + {hi - 1} else s
  {
    hide Kept;
  }

  /** As many bytes as there are kept positions. */
  lemma {:induction false} GatherCount(d: Disk, f: Inode, lo: nat, hi: nat, keep: Block -> bool)
    requires WholeBlocks(d.table)
    ensures |Gather(d, f, lo, hi, keep)| == |KeptPositions(d, f, lo, hi, keep)|
  {
    if hi <= lo {
      assert KeptPositions(d, f, lo, hi, keep) == {};
    } else {
      hide KeptPositions, Kept;
      GatherCount(d, f, lo, hi - 1, keep);
      OnePositionMore(d, f, lo, hi, keep);
    }
  }

  lemma BytesInBlock(d: Disk, f: Inode, j: nat, x: nat, keep: Block -> bool)
    requires WholeBlocks(d.table) && j < |f.list| && x < B
    ensures var id := f.list[j];
            && (Kept(d, f, j * B + x, keep) <==> Tabled(d, id) && keep(At(d, id)))
            && (Tabled(d, id) ==> |At(d, id).data| == B && ByteOf(d, f, j * B + x) == At(d, id).data[x])
  {
    hide Find;
    assert (j * B + x) / B == j && (j * B + x) % B == x;
  }

  /** A stretch inside block j comes whole or not at all. */
  lemma {:induction false} GatherChunk(d: Disk, f: Inode, lo: nat, j: nat, at: nat, n: nat, keep: Block -> bool)
    requires WholeBlocks(d.table) && j < |f.list| && at + n <= B && lo <= j * B + at
    ensures Tabled(d, f.list[j]) ==> |At(d, f.list[j]).data| == B
    ensures var id := f.list[j];
            Gather(d, f, lo, j * B + at + n, keep) ==
            Gather(d, f, lo, j * B + at, keep)
            + if Tabled(d, id) && keep(At(d, id)) then At(d, id).data[at..at + n] else []
  {
    hide Kept, ByteOf, At, Tabled;
    if n == 0 {
      hide Gather;
      if at < B {
        BytesInBlock(d, f, j, at, keep);
      } else {
        BytesInBlock(d, f, j, 0, keep);
      }
    } else {
      GatherChunk(d, f, lo, j, at, n - 1, keep);
      BytesInBlock(d, f, j, at + n - 1, keep);
      if Tabled(d, f.list[j]) {
        LastByte(At(d, f.list[j]).data, at, n);
      }
    }
  }

  lemma LastByte(data: seq<byte>, at: nat, n: nat)
    requires 0 < n && at + n <= |data|
    ensures data[at..at + n] == data[at..at + n - 1] + [data[at + n - 1]]
  {
  }

  /** Beyond the last listed block there is nothing. */
  lemma {:induction false} GatherBeyond(d: Disk, f: Inode, lo: nat, mid: nat, hi: nat, keep: Block -> bool)
    requires WholeBlocks(d.table) && mid <= hi && forall k | mid <= k < hi && lo <= k :: !Kept(d, f, k, keep)
    ensures Gather(d, f, lo, hi, keep) == Gather(d, f, lo, mid, keep)
  {
    if mid < hi {
      GatherBeyond(d, f, lo, mid, hi - 1, keep);
    }
  }

  // ----- reading -----

  /** The blocks that carry the checksum of their data. */
  function Intact(checksum: Checksum): Block -> bool {
    (b: Block) => checksum(b.data) == b.checksum
  }

  lemma {:induction false} CollectedSoFar(d: Disk, f: Inode, offset: nat, size: nat, space: nat, i: nat,
                                          checksum: Checksum)
    requires WholeBlocks(d.table) && Sound(offset, size) && size <= space
    requires First(offset) <= i <= Past(offset, size) && i <= |f.list|
    ensures ReadUpTo(d.table, f.list, offset, size, space, i, checksum) ==
            Reading(Gather(d, f, offset, offset + Before(offset, size, i), Intact(checksum)), false)
  {
    hide Find, First, Past, Sound, Before, ChunkStart, ChunkSize, Gather;
    if i == First(offset) {
      AtFirst(offset, size);
      GatherNothing(d, f, offset, Intact(checksum));
    } else {
      CollectedSoFar(d, f, offset, size, space, i - 1, checksum);
      ChunkExact(offset, size, i - 1);
      GatherChunk(d, f, offset, i - 1, ChunkStart(offset, i - 1), ChunkSize(offset, size, i - 1), Intact(checksum));
    }
  }

  lemma AtFirst(offset: nat, size: nat)
    ensures Before(offset, size, First(offset)) == 0
  {
  }

  lemma GatherNothing(d: Disk, f: Inode, lo: nat, keep: Block -> bool)
    requires WholeBlocks(d.table)
    ensures Gather(d, f, lo, lo, keep) == []
  {
  }

  function RangeEnd(f: Inode, size: nat, offset: nat): nat {
    if offset + size > f.size then f.size else offset + size
  }

  /**
   A read cut right returns the bytes of the range, clipped to the file's size, without those in blocks that are missing
   or do not carry the checksum of their data, and in order; a read from the end of the file on returns nothing.
   */
  lemma {:induction false} ReadGathers(d: Disk, f: Inode, size: nat, offset: nat, checksum: Checksum)
    requires WholeBlocks(d.table) && (offset < f.size ==> Sound(offset, RangeEnd(f, size, offset) - offset))
    ensures Read(d, f, size, offset, checksum) ==
            Reading(if offset >= f.size then []
                    else Gather(d, f, offset, RangeEnd(f, size, offset), Intact(checksum)), false)
  {
    hide Find, Sound, Before, Gather, ReadUpTo;
    if offset < f.size {
      var n := Clip(f, size, offset);
      var end := ReadEnd(f, n, offset);
      if end < First(offset) {
        NothingListed(d, f, offset, offset + n, checksum);
        ReadsNone(d, f, offset, n, size, end, checksum);
      } else {
        CollectedSoFar(d, f, offset, n, size, end, checksum);
        ListEnds(offset, n, end, |f.list|);
        GatherBeyond(d, f, offset, offset + Before(offset, n, end), offset + n, Intact(checksum));
      }
    }
  }

  lemma ReadsNone(d: Disk, f: Inode, offset: nat, size: nat, space: nat, end: nat, checksum: Checksum)
    requires WholeBlocks(d.table) && end <= First(offset) && end <= |f.list|
    ensures ReadUpTo(d.table, f.list, offset, size, space, end, checksum) == Reading([], false)
  {
  }

  lemma NothingListed(d: Disk, f: Inode, lo: nat, hi: nat, checksum: Checksum)
    requires WholeBlocks(d.table) && |f.list| <= First(lo) && lo <= hi
    ensures Gather(d, f, lo, hi, Intact(checksum)) == []
  {
    GatherBeyond(d, f, lo, lo, hi, Intact(checksum));
  }

  /** The positions of a range that the read leaves out at its end lie beyond the list. */
  lemma ListEnds(offset: nat, size: nat, end: nat, listed: nat)
    requires Sound(offset, size) && end == if Past(offset, size) <= listed then Past(offset, size) else listed
    requires end >= First(offset)
    ensures Before(offset, size, end) <= size
    ensures forall k | offset + Before(offset, size, end) <= k < offset + size :: k / B >= listed
  {
    if size > 0 {
      RangeShape(offset, size);
    }
  }

  /** In a well-formed file the byte of a position is the byte of its content. */
  lemma {:induction false} ByteOfContent(d: Disk, f: Inode, k: nat)
    requires Formed(d, f) && k < f.size
    ensures k / B < |f.list| && Tabled(d, f.list[k / B]) && ByteOf(d, f, k) == Content(d, f)[k]
  {
    assert Content(d, f)[k] == ByteAt(d, f, k);
  }
}
