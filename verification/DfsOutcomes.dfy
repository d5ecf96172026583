/** Exactly when a write falls short or leaves its buffers, and what a read gives back. */
module DfsOutcomes {
  import opened BlockLayout
  import opened Bytes
  import opened Disks
  import opened FlatFiles
  import opened DfsRefinement

  // ----- writes, on any table -----

  ghost predicate AllTabled(table: seq<Block>, list: seq<nat>, lo: nat, hi: nat)
    requires lo <= hi && (lo < hi ==> hi <= |list|)
  {
    forall j | lo <= j < hi :: Find(table, list[j]) != -1
  }

  ghost predicate SomeTabled(table: seq<Block>, list: seq<nat>, lo: nat, hi: nat)
    requires lo <= hi && (lo < hi ==> hi <= |list|)
  {
    exists j :: lo <= j < hi && Find(table, list[j]) != -1
  }

  lemma BeforeFirst(offset: nat, size: nat)
    ensures Before(offset, size, First(offset)) == 0
  {
  }

  lemma {:induction false} CopySound(table: seq<Block>, list: seq<nat>, buf: seq<byte>, offset: nat, i: nat,
                                     checksum: Checksum)
    requires WholeBlocks(table) && Sound(offset, |buf|)
    requires First(offset) <= i <= Past(offset, |buf|) && (i > First(offset) ==> i <= |list|)
    ensures var w := WriteUpTo(table, list, buf, offset, i, checksum);
            && !w.overrun && w.written <= Before(offset, |buf|, i)
            && (w.written == Before(offset, |buf|, i) <==> AllTabled(table, list, First(offset), i))
  {
    hide Find, Before, WriteBlock, First, Past, Sound;
    if i == First(offset) {
      BeforeFirst(offset, |buf|);
    } else {
      CopySound(table, list, buf, offset, i - 1, checksum);
      var w := WriteUpTo(table, list, buf, offset, i - 1, checksum);
      FindSameIds(table, w.table, list[i - 1]);
      BlockSound(w, list, buf, offset, i - 1, checksum);
    }
  }

  lemma {:induction false} BlockSound(w: Writing, list: seq<nat>, buf: seq<byte>, offset: nat, i: nat,
                                      checksum: Checksum)
    requires WholeBlocks(w.table) && Sound(offset, |buf|) && !w.overrun && w.written <= Before(offset, |buf|, i)
    requires First(offset) <= i < Past(offset, |buf|) && i < |list|
    ensures var r := WriteBlock(w, list, buf, offset, i, checksum);
            && !r.overrun && r.written <= Before(offset, |buf|, i + 1)
            && (r.written == Before(offset, |buf|, i + 1) <==>
                  w.written == Before(offset, |buf|, i) && Find(w.table, list[i]) != -1)
  {
    hide Find, Before, ChunkStart, ChunkSize, Overwrite, First, Past, Sound;
    ChunkExact(offset, |buf|, i);
  }

  lemma {:induction false} CopyUnsound(table: seq<Block>, list: seq<nat>, buf: seq<byte>, offset: nat, i: nat,
                                       checksum: Checksum)
    requires WholeBlocks(table) && !Sound(offset, |buf|)
    requires First(offset) <= i <= Past(offset, |buf|) && (i > First(offset) ==> i <= |list|)
    ensures var w := WriteUpTo(table, list, buf, offset, i, checksum);
            w.written == 0 && (w.overrun <==> SomeTabled(table, list, First(offset), i))
  {
    hide Find, ChunkStart, ChunkSize, Overwrite, First, Past, Sound;
    if i > First(offset) {
      CopyUnsound(table, list, buf, offset, i - 1, checksum);
      ChunkOverruns(offset, |buf|, i - 1);
      FindSameIds(table, WriteUpTo(table, list, buf, offset, i - 1, checksum).table, list[i - 1]);
    }
  }

  /** A write on any table: out of bounds exactly if its range is cut wrong and one of its blocks is in the table. */
  lemma {:induction false} OverrunOnTable(d: Disk, f: Inode, buf: seq<byte>, offset: nat, checksum: Checksum)
    requires WholeBlocks(d.table)
    ensures var (d', f') := Grow(d, f, Past(offset, |buf|));
            Write(d, f, buf, offset, true, checksum).2.Overrun? <==>
            !Sound(offset, |buf|) && SomeTabled(d'.table, f'.list, First(offset), Past(offset, |buf|))
  {
    hide WriteUpTo, SomeTabled, AllTabled, Sound;
    var (d', f') := Grow(d, f, Past(offset, |buf|));
    if Sound(offset, |buf|) {
      CopySound(d'.table, f'.list, buf, offset, Past(offset, |buf|), checksum);
    } else {
      CopyUnsound(d'.table, f'.list, buf, offset, Past(offset, |buf|), checksum);
    }
  }

  /**
   A write cut right, on any table: never more than it was given, all of it exactly if its blocks are in the table.
   */
  lemma {:induction false} FullOnTable(d: Disk, f: Inode, buf: seq<byte>, offset: nat, checksum: Checksum)
    requires WholeBlocks(d.table) && Sound(offset, |buf|)
    ensures var (d', f') := Grow(d, f, Past(offset, |buf|));
            var outcome := Write(d, f, buf, offset, true, checksum).2;
            && outcome.Done? && outcome.bytes <= |buf|
            && (outcome.bytes == |buf| <==> AllTabled(d'.table, f'.list, First(offset), Past(offset, |buf|)))
  {
    hide WriteUpTo, AllTabled, Sound;
    var (d', f') := Grow(d, f, Past(offset, |buf|));
    CopySound(d'.table, f'.list, buf, offset, Past(offset, |buf|), checksum);
    PastIsTight(offset, |buf|);
  }

  /** The number of blocks that the file can have in the table: its own, and as many more as there is room for. */
  function Limit(d: Disk, f: Inode): int {
    |f.list| + d.capacity - |d.table|
  }

  ghost predicate TabledBelow(d: Disk, f: Inode, limit: int) {
    forall j | 0 <= j < |f.list| :: f.list[j] < d.nextBlockId && (Tabled(d, f.list[j]) <==> j < limit)
  }

  lemma {:induction false} NewBlock(d: Disk, f: Inode, limit: int)
    requires Sane(d) && TabledBelow(d, f, limit) && limit == if |d.table| < d.capacity then Limit(d, f) else limit
    requires |d.table| == d.capacity ==> limit <= |f.list|
    ensures var (d', f') := AddBlock(d, f); Sane(d') && TabledBelow(d', f', limit)
  {
    hide Find;
    var (d', f') := AddBlock(d, f);
    forall j | 0 <= j < |f'.list| ensures Tabled(d', f'.list[j]) <==> j < limit {
      if |d.table| < d.capacity && j == |f.list| {
        FindById(d'.table, |d.table|);
      } else if |d.table| < d.capacity {
        FindSameIds(d.table, d'.table, f.list[j]);
      }
    }
  }

  /** After growing, exactly the blocks below the limit are in the table. */
  lemma {:induction false} GrownTable(d: Disk, f: Inode, count: nat)
    requires Sane(d) && Backed(d, f)
    ensures var (d', f') := Grow(d, f, count);
            && Sane(d') && TabledBelow(d', f', Limit(d, f))
            && (|d'.table| < d'.capacity ==> Limit(d', f') == Limit(d, f))
            && (|d'.table| == d'.capacity ==> Limit(d, f) <= |f'.list|)
  {
    hide Find, Tabled;
    if count <= |f.list| {
      forall j | 0 <= j < |f.list| ensures Tabled(d, f.list[j]) && f.list[j] < d.nextBlockId {
        TabledIds(d, f.list[j]);
      }
    } else {
      GrownTable(d, f, count - 1);
      var (e, g) := Grow(d, f, count - 1);
      NewBlock(e, g, Limit(d, f));
    }
  }

  function Least(a: int, b: int): int {
    if a <= b then a else b
  }

  lemma {:induction false} BlockBelow(d: Disk, f: Inode, limit: int, w: Writing, buf: seq<byte>, offset: nat, i: nat,
                                      checksum: Checksum)
    requires Sound(offset, |buf|) && TabledBelow(d, f, limit) && limit >= 0
    requires First(offset) <= i < Past(offset, |buf|) && i < |f.list|
    requires WholeBlocks(w.table) && |w.table| == |d.table|
    requires forall j | 0 <= j < |d.table| :: w.table[j].id == d.table[j].id
    requires !w.overrun && w.written == Before(offset, |buf|, Least(i, limit))
    ensures var r := WriteBlock(w, f.list, buf, offset, i, checksum);
            !r.overrun && r.written == Before(offset, |buf|, Least(i + 1, limit))
  {
    hide Find, Before, ChunkStart, ChunkSize, Overwrite, First, Past, Sound;
    assert Tabled(d, f.list[i]) <==> i < limit;
    FindSameIds(d.table, w.table, f.list[i]);
    if i < limit {
      ChunkExact(offset, |buf|, i);
    }
  }

  /** The bytes that a write cut right copies on a table that holds the file's blocks below the limit. */
  lemma {:induction false} CopyBelow(d: Disk, f: Inode, limit: int, buf: seq<byte>, offset: nat, i: nat,
                                     checksum: Checksum)
    requires WholeBlocks(d.table) && Sound(offset, |buf|) && TabledBelow(d, f, limit) && limit >= 0
    requires First(offset) <= i <= Past(offset, |buf|) && (i > First(offset) ==> i <= |f.list|)
    ensures var w := WriteUpTo(d.table, f.list, buf, offset, i, checksum);
            !w.overrun && w.written == Before(offset, |buf|, Least(i, limit))
  {
    hide Before, WriteBlock, Past, Sound, TabledBelow;
    if i == First(offset) {
      NothingBefore(offset, |buf|, Least(i, limit));
    } else {
      CopyBelow(d, f, limit, buf, offset, i - 1, checksum);
      BlockBelow(d, f, limit, WriteUpTo(d.table, f.list, buf, offset, i - 1, checksum), buf, offset, i - 1, checksum);
    }
  }

  lemma NothingBefore(offset: nat, size: nat, i: nat)
    requires i <= First(offset)
    ensures Before(offset, size, i) == 0
  {
  }

  /**
   What a write returns, from the state before it: a range cut right is copied as far as the file's blocks fit the
   table; any other is copied out of bounds unless already its first block does not fit.
   */
  lemma {:induction false} WriteOutcome(d: Disk, f: Inode, buf: seq<byte>, offset: nat, checksum: Checksum)
    requires Sane(d) && Backed(d, f)
    ensures Write(d, f, buf, offset, true, checksum).2 ==
            if Sound(offset, |buf|) then Done(Before(offset, |buf|, Limit(d, f)))
            else if First(offset) < Limit(d, f) then Overrun
            else Done(0)
  {
    hide WriteUpTo, SomeTabled, AllTabled, Sound, Before, Find;
    var p := Past(offset, |buf|);
    var (d', f') := Grow(d, f, p);
    GrownTable(d, f, p);
    if Sound(offset, |buf|) {
      CopyBelow(d', f', Limit(d, f), buf, offset, p, checksum);
      if Limit(d, f) > p {
        NothingBehind(offset, |buf|, Limit(d, f));
      }
    } else {
      CopyUnsound(d'.table, f'.list, buf, offset, p, checksum);
      FirstTabled(d', f', Limit(d, f), offset, |buf|);
    }
  }

  lemma NothingBehind(offset: nat, size: nat, i: nat)
    requires Sound(offset, size) && i >= Past(offset, size)
    ensures Before(offset, size, i) == Before(offset, size, Past(offset, size)) == size
  {
    PastIsTight(offset, size);
  }

  lemma FirstTabled(d: Disk, f: Inode, limit: int, offset: nat, size: nat)
    requires TabledBelow(d, f, limit) && !Sound(offset, size) && Past(offset, size) <= |f.list|
    ensures SomeTabled(d.table, f.list, First(offset), Past(offset, size)) <==> First(offset) < limit
  {
    hide Find;
    SomeBlock(offset, size);
    assert Tabled(d, f.list[First(offset)]) <==> First(offset) < limit;
  }

  /** A write copies out of bounds exactly if its range is cut wrong and its first block fits the table. */
  lemma {:induction false} OverrunIff(d: Disk, f: Inode, buf: seq<byte>, offset: nat, checksum: Checksum)
    requires Sane(d) && Backed(d, f)
    ensures Write(d, f, buf, offset, true, checksum).2.Overrun? <==>
            !Sound(offset, |buf|) && First(offset) < Limit(d, f)
    ensures Room(d, f, buf, offset) ==>
            (Write(d, f, buf, offset, true, checksum).2.Overrun? <==> !Sound(offset, |buf|))
  {
    hide Write, Sound;
    WriteOutcome(d, f, buf, offset, checksum);
    if !Sound(offset, |buf|) {
      SomeBlock(offset, |buf|);
    }
  }

  lemma SomeBlock(offset: nat, size: nat)
    requires !Sound(offset, size)
    ensures First(offset) < Past(offset, size)
  {
  }

  /** A write cut right is complete exactly if it is empty or the table has room for the blocks it needs. */
  lemma {:induction false} FullWriteIff(d: Disk, f: Inode, buf: seq<byte>, offset: nat, checksum: Checksum)
    requires Sane(d) && Backed(d, f) && Sound(offset, |buf|)
    ensures Write(d, f, buf, offset, true, checksum).2 == Done(|buf|) <==> |buf| == 0 || Room(d, f, buf, offset)
  {
    hide Write, Sound;
    WriteOutcome(d, f, buf, offset, checksum);
    PastIsTight(offset, |buf|);
  }

  /** 3996 bytes at offset 100 end with the block: the copy leaves it, on an empty file of a fresh store. */
  lemma {:induction false} BlockEndOverruns(inode: nat, buf: seq<byte>, checksum: Checksum)
    requires |buf| == 3996
    ensures Write(Disk([], 100000, 1, 0), Inode(inode, 0, [], 0), buf, 100, true, checksum).2 == Overrun
  {
    WriteOutcome(Disk([], 100000, 1, 0), Inode(inode, 0, [], 0), buf, 100, checksum);
  }

  // ----- reads -----

  ghost predicate AllVerified(d: Disk, f: Inode, checksum: Checksum)
    requires Backed(d, f)
  {
    forall j | 0 <= j < |f.list| :: Verified(At(d, f.list[j]), checksum)
  }

  /** The content between two positions inside one block. */
  lemma {:induction false} BlockSlice(d: Disk, f: Inode, j: nat, at: nat, n: nat)
    requires Formed(d, f) && j < |f.list| && at + n <= B && j * B + at + n <= f.size
    ensures |At(d, f.list[j]).data| == B
    ensures At(d, f.list[j]).data[at..at + n] == Content(d, f)[j * B + at..j * B + at + n]
  {
    hide Find;
    TabledIds(d, f.list[j]);
    var l, r := At(d, f.list[j]).data[at..at + n], Content(d, f)[j * B + at..j * B + at + n];
    forall x | 0 <= x < n ensures l[x] == r[x] {
      var k := j * B + at + x;
      assert k / B == j && k % B == at + x;
      assert r[x] == ByteAt(d, f, k);
    }
  }

  /**
   What a sound read has collected before block i: no more than the range so far, and it exactly if nothing was skipped.
   */
  lemma {:induction false} ReadingProgress(d: Disk, f: Inode, offset: nat, size: nat, space: nat, i: nat,
                                           checksum: Checksum)
    requires Formed(d, f) && Sound(offset, size) && offset + size <= f.size && size <= space
    requires First(offset) <= i <= Past(offset, size) && i <= |f.list|
    ensures var r, n := ReadUpTo(d.table, f.list, offset, size, space, i, checksum), Before(offset, size, i);
            && !r.overrun && |r.bytes| <= n
            && (|r.bytes| == n <==> forall j | First(offset) <= j < i :: Verified(At(d, f.list[j]), checksum))
            && (|r.bytes| == n ==> r.bytes == Content(d, f)[offset..offset + n])
  {
    hide Find, Content, ChunkSize, ChunkStart, Before, ReadBlock, Sound, First, Past, At;
    if i == First(offset) {
      BeforeFirst(offset, size);
    } else {
      ReadingProgress(d, f, offset, size, space, i - 1, checksum);
      var r := ReadUpTo(d.table, f.list, offset, size, space, i - 1, checksum);
      ReadingOne(d, f, offset, size, space, i - 1, r, checksum);
      hide Formed, Verified;
    }
  }

  /** One more block: its chunk of the range follows, exactly if it is verified. */
  lemma {:induction false} ReadingOne(d: Disk, f: Inode, offset: nat, size: nat, space: nat, i: nat, r: Reading,
                                      checksum: Checksum)
    requires Formed(d, f) && Sound(offset, size) && offset + size <= f.size && size <= space
    requires First(offset) <= i < Past(offset, size) && i < |f.list|
    requires !r.overrun && |r.bytes| <= Before(offset, size, i)
    requires |r.bytes| == Before(offset, size, i) ==> r.bytes == Content(d, f)[offset..offset + Before(offset, size, i)]
    ensures var at, size' := ChunkStart(offset, i), ChunkSize(offset, size, i);
            var r' := ReadBlock(r, d.table, f.list[i], at, size', space, checksum);
            var n := Before(offset, size, i + 1);
            && !r'.overrun && |r'.bytes| <= n && Tabled(d, f.list[i])
            && (|r'.bytes| == n <==> |r.bytes| == Before(offset, size, i) && Verified(At(d, f.list[i]), checksum))
            && (|r'.bytes| == n ==> r'.bytes == Content(d, f)[offset..offset + n])
  {
    hide Find, Content, ChunkSize, ChunkStart, Before, Sound, First, Past, ByteAt;
    ChunkExact(offset, size, i);
    assert Backed(d, f) && Tabled(d, f.list[i]);
    BlockSlice(d, f, i, ChunkStart(offset, i), ChunkSize(offset, size, i));
  }

  ghost predicate RangeVerified(d: Disk, f: Inode, lo: nat, hi: nat, checksum: Checksum)
    requires Backed(d, f) && hi <= |f.list|
  {
    forall j | lo <= j < hi :: Verified(At(d, f.list[j]), checksum)
  }

  ghost predicate SomeVerified(d: Disk, f: Inode, lo: nat, hi: nat, checksum: Checksum)
    requires Backed(d, f) && hi <= |f.list|
  {
    exists j :: lo <= j < hi && Verified(At(d, f.list[j]), checksum)
  }

  lemma {:induction false} RangeInFile(d: Disk, f: Inode, offset: nat, size: nat)
    requires Formed(d, f) && Sound(offset, size) && offset + size <= f.size
    ensures Past(offset, size) <= |f.list|
  {
    PastIsTight(offset, size);
  }

  /**
   A read cut right returns the clipped slice exactly if every block in the range carries the checksum of its data.
   */
  lemma {:induction false} ReadIff(d: Disk, f: Inode, size: nat, offset: nat, checksum: Checksum)
    requires Formed(d, f) && offset < f.size && Sound(offset, Clip(f, size, offset))
    ensures var n := Clip(f, size, offset);
            var r := Read(d, f, size, offset, checksum);
            && !r.overrun && Past(offset, n) <= |f.list|
            && (r.bytes == Content(d, f)[offset..offset + n] <==>
                  RangeVerified(d, f, First(offset), Past(offset, n), checksum))
  {
    hide ReadUpTo, Find, Content;
    var n := Clip(f, size, offset);
    RangeInFile(d, f, offset, n);
    ReadingProgress(d, f, offset, n, size, Past(offset, n), checksum);
    PastIsTight(offset, n);
  }

  lemma {:induction false} ReadingUnsound(d: Disk, f: Inode, offset: nat, size: nat, space: nat, i: nat,
                                          checksum: Checksum)
    requires Sane(d) && Backed(d, f) && !Sound(offset, size) && (size == 0 ==> space == 0)
    requires First(offset) <= i <= Past(offset, size) && i <= |f.list|
    ensures var r := ReadUpTo(d.table, f.list, offset, size, space, i, checksum);
            r.bytes == [] && (r.overrun <==> SomeVerified(d, f, First(offset), i, checksum))
  {
    hide Find, ChunkStart, ChunkSize, First, Past, Sound;
    if i > First(offset) {
      ReadingUnsound(d, f, offset, size, space, i - 1, checksum);
      ChunkOverruns(offset, size, i - 1);
      assert Tabled(d, f.list[i - 1]);
    }
  }

  /** Any other read copies out of bounds exactly if it meets a block that carries the checksum of its data. */
  lemma {:induction false} ReadOverrunIff(d: Disk, f: Inode, size: nat, offset: nat, checksum: Checksum)
    requires Formed(d, f) && offset < f.size
    ensures var n := Clip(f, size, offset);
            Read(d, f, size, offset, checksum).overrun <==>
            !Sound(offset, n) && SomeVerified(d, f, First(offset), ReadEnd(f, n, offset), checksum)
  {
    hide ReadUpTo, Find, SomeVerified, Sound;
    var n := Clip(f, size, offset);
    if Sound(offset, n) {
      ReadIff(d, f, size, offset, checksum);
    } else {
      FirstInFile(d, f, offset);
      ReadingUnsound(d, f, offset, n, size, ReadEnd(f, n, offset), checksum);
    }
  }

  lemma FirstInFile(d: Disk, f: Inode, offset: nat)
    requires Formed(d, f) && offset < f.size
    ensures First(offset) < |f.list|
  {
  }

  // ----- which writes keep every block verified -----

  /**
   A write leaves every block of its file verified exactly if it starts no farther than the block after the file's last,
   unless the checksum of a blank block happens to be the 0 that new blocks carry.
   */
  lemma {:induction false} WriteVerifiedIff(d: Disk, f: Inode, buf: seq<byte>, offset: nat, checksum: Checksum)
    requires Formed(d, f) && Sound(offset, |buf|) && Room(d, f, buf, offset) && AllVerified(d, f, checksum)
    ensures var (d', f', outcome) := Write(d, f, buf, offset, true, checksum);
            Formed(d', f') &&
            (AllVerified(d', f', checksum) <==> First(offset) <= |f.list| || checksum(Blank(B)) == 0)
  {
    hide Find, Content, FlatWrite, ByteAt, First, Past, Sound, Write, Grow, Verified, At;
    assert WholeBlocks(d.table);
    var (d', f', outcome) := Write(d, f, buf, offset, true, checksum);
    WriteRefinesFlat(d, f, buf, offset, checksum);
    WrittenBytes(d, f, buf, offset, checksum);
    forall j | 0 <= j < |f'.list|
      ensures Verified(At(d', f'.list[j]), checksum) <==>
              j < |f.list| || First(offset) <= j || checksum(Blank(B)) == 0
    {
      CheckedBlock(d, f, buf, offset, checksum, j);
    }
    if First(offset) > |f.list| {
      var gap := |f.list|;
      assert Verified(At(d', f'.list[gap]), checksum) <==> checksum(Blank(B)) == 0;
    }
  }

  lemma {:induction false} CheckedBlock(d: Disk, f: Inode, buf: seq<byte>, offset: nat, checksum: Checksum, j: nat)
    requires Formed(d, f) && Sound(offset, |buf|) && Room(d, f, buf, offset) && AllVerified(d, f, checksum)
    requires j < |Grow(d, f, Past(offset, |buf|)).1.list|
    ensures var (d', f', outcome) := Write(d, f, buf, offset, true, checksum);
            Backed(d', f') && j < |f'.list| &&
            (Verified(At(d', f'.list[j]), checksum) <==>
               j < |f.list| || First(offset) <= j || checksum(Blank(B)) == 0)
  {
    hide Find, ByteAt, At, Tabled, Verified, First, Past, Sound, Spliced, Blank, WriteUpTo;
    WrittenBytes(d, f, buf, offset, checksum);
    var p := Past(offset, |buf|);
    var (e, h) := Grow(d, f, p);
    GrowGains(d, f, p);
    CopyingProgress(e, h, buf, offset, p, checksum);
    var w := WriteUpTo(e.table, h.list, buf, offset, p, checksum);
    SameTable(e.(table := w.table), Write(d, f, buf, offset, true, checksum).0, h.list[j]);
    if First(offset) <= j < p {
      TouchedBlock(e, h, buf, offset, checksum, j);
    } else {
      GrownBlock(d, f, e, h, checksum, j);
      PastCovers(d, f, buf, offset, j);
    }
  }

  lemma SameTable(d: Disk, d': Disk, id: nat)
    requires d'.table == d.table
    ensures Tabled(d', id) == Tabled(d, id) && (Tabled(d, id) ==> At(d', id) == At(d, id))
  {
  }

  lemma PastCovers(d: Disk, f: Inode, buf: seq<byte>, offset: nat, j: nat)
    requires j < |Grow(d, f, Past(offset, |buf|)).1.list| && !(First(offset) <= j < Past(offset, |buf|))
    ensures j < |f.list| || j < First(offset)
  {
  }

  lemma {:induction false} TouchedBlock(d: Disk, f: Inode, buf: seq<byte>, offset: nat, checksum: Checksum, j: nat)
    requires Sane(d) && Backed(d, f) && Sound(offset, |buf|) && Touched(buf, offset, j) && j < |f.list|
    ensures |At(d, f.list[j]).data| == B
    ensures Verified(Spliced(At(d, f.list[j]), buf, offset, j, checksum), checksum)
  {
    TabledIds(d, f.list[j]);
    SplicedVerified(At(d, f.list[j]), buf, offset, j, checksum);
  }

  /** Growing leaves old blocks verified, and new ones only by the accident that a blank block's checksum is 0. */
  lemma {:induction false} GrownBlock(d: Disk, f: Inode, e: Disk, h: Inode, checksum: Checksum, j: nat)
    requires Backed(d, f) && AllVerified(d, f, checksum) && Gains(d, f, e, h) && Backed(e, h) && j < |h.list|
    ensures Verified(At(e, h.list[j]), checksum) <==> j < |f.list| || checksum(Blank(B)) == 0
  {
    hide Find, Blank;
    if j < |f.list| {
      assert Tabled(d, f.list[j]) && h.list[j] == f.list[j];
    }
  }

  /** One byte at offset 8192 of an empty file: the two blocks of the gap are not verified. */
  lemma {:induction false} GapUnverified(inode: nat, x: byte, checksum: Checksum)
    requires checksum(Blank(B)) != 0
    ensures var (d, f, outcome) := Write(Disk([], 100000, 1, 0), Inode(inode, 0, [], 0), [x], 8192, true, checksum);
            outcome == Done(1) && Formed(d, f) && !AllVerified(d, f, checksum)
  {
    hide Write, Content, FlatWrite;
    var d, f := Disk([], 100000, 1, 0), Inode(inode, 0, [], 0);
    WriteRefinesFlat(d, f, [x], 8192, checksum);
    WriteVerifiedIff(d, f, [x], 8192, checksum);
  }

  lemma SplicedVerified(b: Block, buf: seq<byte>, offset: nat, i: nat, checksum: Checksum)
    requires Sound(offset, |buf|) && Touched(buf, offset, i) && |b.data| == B
    ensures Verified(Spliced(b, buf, offset, i, checksum), checksum)
  {
  }

  // ----- reading after a run of writes -----

  ghost predicate VolumeVerified(s: Volume, checksum: Checksum)
    requires WellFormed(s)
  {
    forall i | 0 <= i < |s.files| :: AllVerified(s.disk, s.files[i], checksum)
  }

  ghost predicate NoGap(s: Volume, op: WriteOp) {
    op.file < |s.files| && First(op.offset) <= |s.files[op.file].list|
  }

  lemma {:induction false} ApplyKeepsVerified(s: Volume, op: WriteOp, checksum: Checksum)
    requires WellFormed(s) && Fits(s, op) && NoGap(s, op) && VolumeVerified(s, checksum)
    ensures var s' := ApplyWrite(s, op, checksum).0; WellFormed(s') && VolumeVerified(s', checksum)
  {
    hide Find, Write, Content, ByteAt, Sound, Room, At;
    var f, s' := s.files[op.file], ApplyWrite(s, op, checksum).0;
    ApplyRefines(s, op, checksum);
    WriteVerifiedIff(s.disk, f, op.buf, op.offset, checksum);
    forall i | 0 <= i < |s.files| && i != op.file
      ensures Backed(s'.disk, s'.files[i]) && AllVerified(s'.disk, s'.files[i], checksum)
    {
      var g := s.files[i];
      assert Formed(s'.disk, s'.files[i]) && s'.files[i] == g;
      forall j | 0 <= j < |g.list| ensures Tabled(s'.disk, g.list[j]) && Verified(At(s'.disk, g.list[j]), checksum) {
        assert Tabled(s.disk, g.list[j]) && g.list[j] in g.list && Disjoint(g, f);
        StrangersUntouched(s.disk, f, op.buf, op.offset, checksum, g.list[j]);
      }
    }
  }

  lemma {:induction false} RunKeepsVerified(volumes: seq<Volume>, ops: seq<WriteOp>, checksum: Checksum)
    requires Run(volumes, ops, checksum) && VolumeVerified(volumes[0], checksum)
    requires forall i | 0 <= i < |ops| :: NoGap(volumes[i], ops[i])
    ensures WellFormed(volumes[|ops|]) && VolumeVerified(volumes[|ops|], checksum)
  {
    hide WellFormed, VolumeVerified, NoGap, ApplyWrite;
    if ops != [] {
      var n := |ops| - 1;
      RunKeepsVerified(volumes[..n + 1], ops[..n], checksum);
      ApplyKeepsVerified(volumes[n], ops[n], checksum);
    }
  }

  /**
   After any run of writes that leaves no gap block, a read cut right returns the slice the flat writes would give.
   */
  lemma {:induction false} ReadAfterWrites(volumes: seq<Volume>, ops: seq<WriteOp>, checksum: Checksum, file: nat,
                                           size: nat, offset: nat)
    requires Run(volumes, ops, checksum) && VolumeVerified(volumes[0], checksum)
    requires forall i | 0 <= i < |ops| :: NoGap(volumes[i], ops[i])
    requires file < |volumes[0].files| && file < |volumes[|ops|].files|
    requires var f := volumes[|ops|].files[file]; offset < f.size ==> Sound(offset, Clip(f, size, offset))
    ensures var flat, s := FlatRun(Contents(volumes[0]), ops)[file], volumes[|ops|];
            && WellFormed(s)
            && Read(s.disk, s.files[file], size, offset, checksum) ==
               Reading(if offset >= |flat| then []
                       else flat[offset..if offset + size > |flat| then |flat| else offset + size], false)
  {
    hide Find, FlatRun, ReadUpTo, Sound, At;
    RunRefinesFlat(volumes, ops, checksum);
    RunKeepsVerified(volumes, ops, checksum);
    var s := volumes[|ops|];
    var f := s.files[file];
    assert Contents(s)[file] == Content(s.disk, f);
    if offset < f.size {
      ReadIff(s.disk, f, size, offset, checksum);
    }
  }
}
