/**
 Block writes refine flat writes: contents, sizes and results, for every sequence of writes to any number of files.
 */
module DfsRefinement {
  import opened BlockLayout
  import opened Bytes
  import opened Disks
  import opened FlatFiles

  ghost predicate Sane(d: Disk) {
    && WholeBlocks(d.table) && |d.table| <= d.capacity
    && (forall i, j | 0 <= i < j < |d.table| :: d.table[i].id != d.table[j].id)
    && (forall i | 0 <= i < |d.table| :: d.table[i].id < d.nextBlockId)
  }

  ghost predicate Tabled(d: Disk, id: nat) {
    Find(d.table, id) != -1
  }

  ghost function At(d: Disk, id: nat): Block
    requires Tabled(d, id)
  {
    d.table[Find(d.table, id)]
  }

  /** Every block of the file is in the table, and is listed once. */
  ghost predicate Backed(d: Disk, f: Inode) {
    && (forall j | 0 <= j < |f.list| :: Tabled(d, f.list[j]))
    && (forall i, j | 0 <= i < j < |f.list| :: f.list[i] != f.list[j])
  }

  lemma {:induction false} FindById(table: seq<Block>, k: nat)
    requires k < |table| && forall i, j | 0 <= i < j < |table| :: table[i].id != table[j].id
    ensures Find(table, table[k].id) == k
  {
  }

  /** Find looks at ids only. */
  lemma {:induction false} FindSameIds(t: seq<Block>, t': seq<Block>, id: nat)
    requires |t| <= |t'| && forall j | 0 <= j < |t| :: t[j].id == t'[j].id
    ensures Find(t, id) != -1 || |t| == |t'| ==> Find(t', id) == Find(t, id)
  {
  }

  // ----- growing -----

  /** d' and f' have only gained blocks, and these are blank. */
  ghost predicate Gains(d: Disk, f: Inode, d': Disk, f': Inode) {
    && f.list <= f'.list && |d'.table| == |d.table| + |f'.list| - |f.list|
    && f'.size == f.size && d'.totalBytes == d.totalBytes && d'.capacity == d.capacity
    && d.nextBlockId <= d'.nextBlockId
    && (forall id | Tabled(d, id) :: Tabled(d', id) && At(d', id) == At(d, id))
    && (forall j | |f.list| <= j < |f'.list| ::
          f'.list[j] >= d.nextBlockId && Tabled(d', f'.list[j]) && At(d', f'.list[j]).data == Blank(B)
          && At(d', f'.list[j]).checksum == 0)
  }

  lemma {:induction false} TabledIds(d: Disk, id: nat)
    requires Sane(d) && Tabled(d, id)
    ensures id < d.nextBlockId && |At(d, id).data| == B
  {
  }

  lemma {:induction false} AddBlockKeeps(d: Disk, f: Inode)
    requires Sane(d) && |d.table| < d.capacity
    ensures var (d', f') := AddBlock(d, f);
            && Sane(d') && Tabled(d', d.nextBlockId)
            && At(d', d.nextBlockId) == Block(d.nextBlockId, f.inode, |f.list| * B, Blank(B), 0, 1, 0)
            && forall id | Tabled(d, id) :: Tabled(d', id) && At(d', id) == At(d, id)
  {
    hide Find, Blank;
    var (d', f') := AddBlock(d, f);
    forall id | Tabled(d, id) ensures Tabled(d', id) && At(d', id) == At(d, id) {
      FindSameIds(d.table, d'.table, id);
    }
    FindById(d'.table, |d.table|);
  }

  lemma {:induction false} AddBlockGains(d: Disk, f: Inode)
    requires Sane(d) && Backed(d, f) && |d.table| < d.capacity
    ensures var (d', f') := AddBlock(d, f); Sane(d') && Backed(d', f') && Gains(d, f, d', f')
  {
    hide At, Tabled, Sane;
    AddBlockKeeps(d, f);
    forall j | 0 <= j < |f.list| ensures f.list[j] < d.nextBlockId {
      TabledIds(d, f.list[j]);
    }
  }

  lemma {:induction false} GrowGains(d: Disk, f: Inode, count: nat)
    requires Sane(d) && Backed(d, f) && |d.table| + count <= d.capacity + |f.list|
    ensures var (d', f') := Grow(d, f, count); Sane(d') && Backed(d', f') && Gains(d, f, d', f')
  {
    hide At, Sane, Backed;
    if count > |f.list| {
      GrowGains(d, f, count - 1);
      var (e, g) := Grow(d, f, count - 1);
      AddBlockGains(e, g);
    }
  }

  // ----- copying -----

  /** The part of the buffer that belongs into block i. */
  ghost function Part(buf: seq<byte>, offset: nat, i: nat): seq<byte>
    requires Before(offset, |buf|, i) <= Before(offset, |buf|, i + 1)
  {
    buf[Before(offset, |buf|, i)..Before(offset, |buf|, i + 1)]
  }

  ghost predicate Touched(buf: seq<byte>, offset: nat, i: nat) {
    First(offset) <= i < Past(offset, |buf|)
  }

  ghost function Spliced(b: Block, buf: seq<byte>, offset: nat, i: nat, checksum: Checksum): Block
    requires Sound(offset, |buf|) && Touched(buf, offset, i) && |b.data| == B
  {
    ChunkExact(offset, |buf|, i);
    Overwrite(b, ChunkStart(offset, i), Part(buf, offset, i), checksum)
  }

  /** What the copying loop has done to a table and its count before block i. */
  ghost predicate Copied(d: Disk, f: Inode, buf: seq<byte>, offset: nat, i: nat, checksum: Checksum, w: Writing)
    requires Sane(d) && Backed(d, f) && Sound(offset, |buf|)
    requires First(offset) <= i <= Past(offset, |buf|) <= |f.list|
  {
    var d' := d.(table := w.table);
    && !w.overrun && w.written == Before(offset, |buf|, i)
    && (forall id :: Find(w.table, id) == Find(d.table, id))
    && (forall id | Tabled(d, id) && id !in f.list :: At(d', id) == At(d, id))
    && (forall j | First(offset) <= j < i :: At(d', f.list[j]) == Spliced(At(d, f.list[j]), buf, offset, j, checksum))
    && (forall j | 0 <= j < |f.list| && !(First(offset) <= j < i) :: At(d', f.list[j]) == At(d, f.list[j]))
  }

  /** One round of the copy loop on a block that is in the table. */
  lemma {:induction false} BlockWritten(w: Writing, list: seq<nat>, buf: seq<byte>, offset: nat, i: nat,
                                        checksum: Checksum)
    requires WholeBlocks(w.table) && Sound(offset, |buf|) && Touched(buf, offset, i) && i < |list|
    requires !w.overrun && w.written == Before(offset, |buf|, i) && Find(w.table, list[i]) != -1
    ensures var k := Find(w.table, list[i]);
            WriteBlock(w, list, buf, offset, i, checksum) ==
            Writing(w.table[k := Spliced(w.table[k], buf, offset, i, checksum)], Before(offset, |buf|, i + 1), false)
  {
    hide Find, ChunkStart, ChunkSize, Before, First, Past, Sound, Overwrite;
    ChunkExact(offset, |buf|, i);
  }

  lemma {:induction false} CopyBlock(d: Disk, f: Inode, buf: seq<byte>, offset: nat, i: nat, checksum: Checksum,
                                     w: Writing)
    requires Sane(d) && Backed(d, f) && Sound(offset, |buf|)
    requires First(offset) <= i < Past(offset, |buf|) <= |f.list|
    requires WholeBlocks(w.table) && Copied(d, f, buf, offset, i, checksum, w)
    ensures Copied(d, f, buf, offset, i + 1, checksum, WriteBlock(w, f.list, buf, offset, i, checksum))
  {
    hide Find, Before, First, Past, Sound, WriteBlock, Spliced;
    var r := WriteBlock(w, f.list, buf, offset, i, checksum);
    BlockWritten(w, f.list, buf, offset, i, checksum);
    forall id ensures Find(r.table, id) == Find(d.table, id) {
      FindSameIds(w.table, r.table, id);
    }
    var k := Find(w.table, f.list[i]);
    forall id | Tabled(d, id) && id != f.list[i] ensures Find(d.table, id) != k {
    }
  }

  lemma {:induction false} CopyingProgress(d: Disk, f: Inode, buf: seq<byte>, offset: nat, i: nat, checksum: Checksum)
    requires Sane(d) && Backed(d, f) && Sound(offset, |buf|)
    requires First(offset) <= i <= Past(offset, |buf|) <= |f.list|
    ensures Copied(d, f, buf, offset, i, checksum, WriteUpTo(d.table, f.list, buf, offset, i, checksum))
  {
    hide Copied, Backed;
    if i == First(offset) {
      NothingCopied(d, f, buf, offset, checksum);
    } else {
      CopyingProgress(d, f, buf, offset, i - 1, checksum);
      CopyBlock(d, f, buf, offset, i - 1, checksum, WriteUpTo(d.table, f.list, buf, offset, i - 1, checksum));
    }
  }

  lemma NothingCopied(d: Disk, f: Inode, buf: seq<byte>, offset: nat, checksum: Checksum)
    requires Sane(d) && Backed(d, f) && Sound(offset, |buf|) && Past(offset, |buf|) <= |f.list|
    ensures Copied(d, f, buf, offset, First(offset), checksum, Writing(d.table, 0, false))
  {
  }

  // ----- the refinement -----

  /** A file as the flat store sees it: its size tells its blocks, and past its size they are zero. */
  ghost predicate Formed(d: Disk, f: Inode) {
    && Sane(d) && Backed(d, f)
    && f.size <= |f.list| * B < f.size + B
    && (forall k | f.size <= k < |f.list| * B :: ByteAt(d, f, k) == 0)
  }

  ghost function ByteAt(d: Disk, f: Inode, k: nat): byte
    requires Sane(d) && Backed(d, f) && k < |f.list| * B
  {
    assert k / B < |f.list|;
    TabledIds(d, f.list[k / B]);
    At(d, f.list[k / B]).data[k % B]
  }

  ghost function Content(d: Disk, f: Inode): (r: seq<byte>)
    requires Formed(d, f)
    ensures |r| == f.size
  {
    seq(f.size, k requires 0 <= k < f.size => ByteAt(d, f, k))
  }

  ghost predicate Room(d: Disk, f: Inode, buf: seq<byte>, offset: nat) {
    |d.table| + Past(offset, |buf|) <= d.capacity + |f.list| || Past(offset, |buf|) <= |f.list|
  }

  ghost predicate InRange(buf: seq<byte>, offset: nat, k: nat) {
    offset <= k < offset + |buf|
  }

  /** Splicing its part of the buffer into block j puts every byte of the range where the flat store puts it. */
  lemma {:induction false} SplicedByte(b: Block, buf: seq<byte>, offset: nat, j: nat, x: nat, checksum: Checksum)
    requires Sound(offset, |buf|) && Touched(buf, offset, j) && |b.data| == B && x < B
    ensures Spliced(b, buf, offset, j, checksum).data[x] ==
            if InRange(buf, offset, j * B + x) then buf[j * B + x - offset] else b.data[x]
  {
    ChunkExact(offset, |buf|, j);
    var at, n, s := ChunkStart(offset, j), ChunkSize(offset, |buf|, j), Before(offset, |buf|, j);
    assert |Part(buf, offset, j)| == n && at + j * B == offset + s;
    assert at <= x < at + n <==> InRange(buf, offset, j * B + x) by {
      RangeShape(offset, |buf|);
    }
  }

  lemma {:induction false} UntouchedByte(buf: seq<byte>, offset: nat, k: nat)
    requires !Touched(buf, offset, k / B)
    ensures !InRange(buf, offset, k)
  {
    if |buf| > 0 {
      RangeShape(offset, |buf|);
    }
  }

  /** The disk after the copying loop of a write. */
  ghost function CopiedDisk(d: Disk, f: Inode, buf: seq<byte>, offset: nat, checksum: Checksum): Disk
    requires Sane(d) && Past(offset, |buf|) <= |f.list|
  {
    d.(table := WriteUpTo(d.table, f.list, buf, offset, Past(offset, |buf|), checksum).table)
  }

  lemma {:induction false} CopyingKeeps(d: Disk, f: Inode, buf: seq<byte>, offset: nat, checksum: Checksum)
    requires Sane(d) && Backed(d, f) && Sound(offset, |buf|) && Past(offset, |buf|) <= |f.list|
    ensures var d' := CopiedDisk(d, f, buf, offset, checksum);
            && Sane(d') && Backed(d', f)
            && (forall id :: Tabled(d', id) == Tabled(d, id))
            && (forall id | Tabled(d, id) && id !in f.list :: At(d', id) == At(d, id))
            && (forall k | 0 <= k < |f.list| * B ::
                  ByteAt(d', f, k) == if InRange(buf, offset, k) then buf[k - offset] else ByteAt(d, f, k))
  {
    hide Find, ChunkStart, ChunkSize, Before, First, Past, Sound, Spliced, WriteUpTo;
    var p, d' := Past(offset, |buf|), CopiedDisk(d, f, buf, offset, checksum);
    CopyingProgress(d, f, buf, offset, p, checksum);
    assert Sane(d') && Backed(d', f);
    forall k | 0 <= k < |f.list| * B
      ensures ByteAt(d', f, k) == if InRange(buf, offset, k) then buf[k - offset] else ByteAt(d, f, k)
    {
      var j := k / B;
      TabledIds(d, f.list[j]);
      if Touched(buf, offset, j) {
        SplicedByte(At(d, f.list[j]), buf, offset, j, k % B, checksum);
      } else {
        UntouchedByte(buf, offset, k);
      }
    }
  }

  lemma {:induction false} GrownByte(d: Disk, f: Inode, d': Disk, f': Inode, k: nat)
    requires Sane(d) && Backed(d, f) && Sane(d') && Backed(d', f') && Gains(d, f, d', f') && k < |f'.list| * B
    ensures ByteAt(d', f', k) == if k < |f.list| * B then ByteAt(d, f, k) else 0
  {
    hide Find;
    var j := k / B;
    assert j < |f.list| ==> f'.list[j] == f.list[j] && Tabled(d, f.list[j]);
  }

  /** Sizes and statistics do not matter to the bytes. */
  lemma {:induction false} SameBlocks(d: Disk, f: Inode, d': Disk, f': Inode)
    requires Sane(d) && Backed(d, f) && d' == d.(totalBytes := d'.totalBytes) && f'.list == f.list
    ensures Sane(d') && Backed(d', f')
    ensures forall k | 0 <= k < |f.list| * B :: ByteAt(d', f', k) == ByteAt(d, f, k)
  {
    hide Find;
    forall j | 0 <= j < |f.list| ensures Tabled(d', f'.list[j]) && At(d', f'.list[j]) == At(d, f.list[j]) {
      assert Tabled(d, f.list[j]);
    }
  }

  /** The bytes of a file after a write, block by block. */
  lemma {:induction false} WrittenBytes(d: Disk, f: Inode, buf: seq<byte>, offset: nat, checksum: Checksum)
    requires Formed(d, f) && Sound(offset, |buf|) && Room(d, f, buf, offset)
    ensures var (d', f', outcome) := Write(d, f, buf, offset, true, checksum);
            && outcome == Done(|buf|) && d'.totalBytes == d.totalBytes + |buf|
            && Sane(d') && Backed(d', f') && f.list <= f'.list && d'.capacity == d.capacity
            && f'.size == (if offset + |buf| > f.size then offset + |buf| else f.size)
            && |f'.list| == (if Past(offset, |buf|) > |f.list| then Past(offset, |buf|) else |f.list|)
            && (forall k | 0 <= k < |f'.list| * B :: ByteAt(d', f', k) ==
                  if InRange(buf, offset, k) then buf[k - offset]
                  else if k < |f.list| * B then ByteAt(d, f, k) else 0)
  {
    hide Find, ByteAt, At, Tabled;
    var p := Past(offset, |buf|);
    var (e, h) := Grow(d, f, p);
    GrowGains(d, f, p);
    CopyingKeeps(e, h, buf, offset, checksum);
    CopyingCount(e, h, buf, offset, checksum);
    var (d', f', outcome) := Write(d, f, buf, offset, true, checksum);
    SameBlocks(CopiedDisk(e, h, buf, offset, checksum), h, d', f');
    forall k | 0 <= k < |h.list| * B ensures ByteAt(e, h, k) == if k < |f.list| * B then ByteAt(d, f, k) else 0 {
      GrownByte(d, f, e, h, k);
    }
  }

  lemma {:induction false} CopyingCount(d: Disk, f: Inode, buf: seq<byte>, offset: nat, checksum: Checksum)
    requires Sane(d) && Backed(d, f) && Sound(offset, |buf|) && Past(offset, |buf|) <= |f.list|
    ensures var w := WriteUpTo(d.table, f.list, buf, offset, Past(offset, |buf|), checksum);
            !w.overrun && w.written == |buf|
  {
    CopyingProgress(d, f, buf, offset, Past(offset, |buf|), checksum);
    if |buf| > 0 {
      RangeShape(offset, |buf|);
    }
  }

  /** How many blocks a range needs, and that one fewer would not do. */
  lemma PastIsTight(offset: nat, size: nat)
    requires Sound(offset, size)
    ensures Past(offset, size) * B - B < offset + size <= Past(offset, size) * B
  {
    if size > 0 {
      RangeShape(offset, size);
    }
  }

  /** A block write is a flat write: same result, same size, same bytes, and the gap before the offset reads as zero. */
  lemma {:induction false} WriteRefinesFlat(d: Disk, f: Inode, buf: seq<byte>, offset: nat, checksum: Checksum)
    requires Formed(d, f) && Sound(offset, |buf|) && Room(d, f, buf, offset)
    ensures var (d', f', outcome) := Write(d, f, buf, offset, true, checksum);
            && outcome == Done(|buf|)
            && Formed(d', f') && Content(d', f') == FlatWrite(Content(d, f), buf, offset)
  {
    hide Find, ByteAt, Backed, Write;
    var (d', f', outcome) := Write(d, f, buf, offset, true, checksum);
    WrittenBytes(d, f, buf, offset, checksum);
    PastIsTight(offset, |buf|);
    var flat := FlatWrite(Content(d, f), buf, offset);
    assert |Content(d', f')| == |flat|;
    forall k | 0 <= k < |flat| ensures Content(d', f')[k] == flat[k] {
      assert k < |f'.list| * B;
    }
  }

  // ----- other files, and sequences of writes -----

  ghost predicate Disjoint(f: Inode, g: Inode) {
    forall id | id in f.list :: id !in g.list
  }

  /** A block of no concern to the file that is written stays as it is. */
  lemma {:induction false} StrangersUntouched(d: Disk, f: Inode, buf: seq<byte>, offset: nat, checksum: Checksum,
                                              id: nat)
    requires Formed(d, f) && Sound(offset, |buf|) && Room(d, f, buf, offset)
    requires Tabled(d, id) && id !in f.list
    ensures var (d', f', outcome) := Write(d, f, buf, offset, true, checksum);
            Tabled(d', id) && At(d', id) == At(d, id) && id !in f'.list
  {
    hide Find;
    var (e, h) := Grow(d, f, Past(offset, |buf|));
    GrowGains(d, f, Past(offset, |buf|));
    TabledIds(d, id);
    assert id !in h.list;
    CopyingKeeps(e, h, buf, offset, checksum);
    CopyingCount(e, h, buf, offset, checksum);
  }

  lemma {:induction false} SameView(d: Disk, d': Disk, g: Inode)
    requires Formed(d, g) && Sane(d')
    requires forall j | 0 <= j < |g.list| :: Tabled(d', g.list[j]) && At(d', g.list[j]) == At(d, g.list[j])
    ensures Formed(d', g) && Content(d', g) == Content(d, g)
  {
    hide Find, Sane, At, Tabled;
    assert Backed(d', g);
    forall k | 0 <= k < |g.list| * B ensures ByteAt(d', g, k) == ByteAt(d, g, k) {
      assert k / B < |g.list|;
    }
  }

  lemma {:induction false} OtherFileUntouched(d: Disk, f: Inode, g: Inode, buf: seq<byte>, offset: nat,
                                              checksum: Checksum)
    requires Formed(d, f) && Formed(d, g) && Disjoint(f, g) && Sound(offset, |buf|) && Room(d, f, buf, offset)
    ensures var (d', f', outcome) := Write(d, f, buf, offset, true, checksum);
            Formed(d', g) && Content(d', g) == Content(d, g) && Disjoint(f', g)
  {
    hide Find, Write, ByteAt, At, Tabled, FlatWrite, Content;
    assert WholeBlocks(d.table);
    var (d', f', outcome) := Write(d, f, buf, offset, true, checksum);
    WriteRefinesFlat(d, f, buf, offset, checksum);
    forall j | 0 <= j < |g.list|
      ensures Tabled(d', g.list[j]) && At(d', g.list[j]) == At(d, g.list[j]) && g.list[j] !in f'.list
    {
      assert Tabled(d, g.list[j]) && g.list[j] in g.list;
      StrangersUntouched(d, f, buf, offset, checksum, g.list[j]);
    }
    SameView(d, d', g);
    assert forall id | id in f'.list :: id !in g.list;
  }

  datatype Volume = Volume(disk: Disk, files: seq<Inode>)

  ghost predicate WellFormed(s: Volume) {
    && Sane(s.disk)
    && (forall i | 0 <= i < |s.files| :: Formed(s.disk, s.files[i]))
    && (forall i, j | 0 <= i < |s.files| && 0 <= j < |s.files| && i != j :: Disjoint(s.files[i], s.files[j]))
  }

  ghost function Contents(s: Volume): (r: seq<seq<byte>>)
    requires WellFormed(s)
    ensures |r| == |s.files|
  {
    seq(|s.files|, i requires 0 <= i < |s.files| => Content(s.disk, s.files[i]))
  }

  datatype WriteOp = WriteOp(file: nat, buf: seq<byte>, offset: nat)

  ghost function ApplyWrite(s: Volume, op: WriteOp, checksum: Checksum): (Volume, Outcome)
    requires WellFormed(s) && op.file < |s.files|
  {
    var (d, f, outcome) := Write(s.disk, s.files[op.file], op.buf, op.offset, true, checksum);
    (Volume(d, s.files[op.file := f]), outcome)
  }

  /** In the domain: an existing file, a range that is cut right, and room in the table. */
  ghost predicate Fits(s: Volume, op: WriteOp) {
    op.file < |s.files| && Sound(op.offset, |op.buf|) && Room(s.disk, s.files[op.file], op.buf, op.offset)
  }

  lemma {:induction false} ApplyRefines(s: Volume, op: WriteOp, checksum: Checksum)
    requires WellFormed(s) && Fits(s, op)
    ensures var (s', outcome) := ApplyWrite(s, op, checksum);
            && WellFormed(s') && outcome == Done(|op.buf|)
            && Contents(s') == Contents(s)[op.file := FlatWrite(Contents(s)[op.file], op.buf, op.offset)]
  {
    hide Write, Find, Backed, ByteAt;
    var k, f := op.file, s.files[op.file];
    WriteRefinesFlat(s.disk, f, op.buf, op.offset, checksum);
    var (s', outcome) := ApplyWrite(s, op, checksum);
    forall i | 0 <= i < |s.files| && i != k
      ensures Formed(s'.disk, s.files[i]) && Content(s'.disk, s.files[i]) == Content(s.disk, s.files[i])
      ensures Disjoint(s'.files[k], s.files[i]) && Disjoint(s.files[i], s'.files[k])
    {
      OtherFileUntouched(s.disk, f, s.files[i], op.buf, op.offset, checksum);
    }
  }

  /** A run of writes, all of them in the domain. */
  ghost predicate Run(volumes: seq<Volume>, ops: seq<WriteOp>, checksum: Checksum) {
    && |volumes| == |ops| + 1 && WellFormed(volumes[0])
    && forall i | 0 <= i < |ops| ::
         WellFormed(volumes[i]) ==>
           Fits(volumes[i], ops[i]) && volumes[i + 1] == ApplyWrite(volumes[i], ops[i], checksum).0
  }

  function FlatRun(contents: seq<seq<byte>>, ops: seq<WriteOp>): (r: seq<seq<byte>>)
    ensures |r| == |contents|
  {
    if ops == [] then contents
    else
      var n := |ops| - 1;
      var c := FlatRun(contents, ops[..n]);
      if ops[n].file >= |c| then c else c[ops[n].file := FlatWrite(c[ops[n].file], ops[n].buf, ops[n].offset)]
  }

  /** Any sequence of writes to any number of files leaves exactly what the flat writes leave. */
  lemma {:induction false} RunRefinesFlat(volumes: seq<Volume>, ops: seq<WriteOp>, checksum: Checksum)
    requires Run(volumes, ops, checksum)
    ensures var last := volumes[|ops|];
            WellFormed(last) && Contents(last) == FlatRun(Contents(volumes[0]), ops)
  {
    hide WellFormed, Contents, ApplyWrite;
    if ops != [] {
      var n := |ops| - 1;
      RunRefinesFlat(volumes[..n + 1], ops[..n], checksum);
      ApplyRefines(volumes[n], ops[n], checksum);
    }
  }

  /** A disk as dfs_init leaves it, with empty files. */
  lemma {:induction false} EmptyVolume(capacity: nat, nextBlockId: nat, inodes: seq<nat>)
    ensures WellFormed(Volume(Disk([], capacity, nextBlockId, 0),
                              seq(|inodes|, i requires 0 <= i < |inodes| => Inode(inodes[i], 0, [], 0))))
  {
  }
}
