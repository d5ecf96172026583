/** The values dfs_write, dfs_read and dfs_stripe_file of dfs.h work on, and what each computes from them. */
module Disks {
  import opened BlockLayout
  import opened Bytes
  import opened Searches

  type Checksum = seq<byte> -> nat

  datatype Block = Block(id: nat, fileId: nat, offset: nat, data: seq<byte>, checksum: nat, version: nat, primary: int)

  datatype Disk = Disk(table: seq<Block>, capacity: nat, nextBlockId: nat, totalBytes: nat)

  datatype Inode = Inode(inode: nat, size: nat, list: seq<nat>, stripeWidth: nat)

  function Blank(n: nat): (r: seq<byte>)
    ensures |r| == n && forall k | 0 <= k < n :: r[k] == 0
  {
    seq(n, _ => 0)
  }

  const blockId: Block -> int := (b: Block) => b.id

  /** The first block with this id, or -1. */
  function Find(table: seq<Block>, id: nat): (r: int)
    ensures -1 <= r < |table|
    ensures r != -1 ==> table[r].id == id && forall j | 0 <= j < r :: table[j].id != id
    ensures r == -1 ==> forall j | 0 <= j < |table| :: table[j].id != id
  {
    IndexOf(table, blockId, id)
  }

  ghost predicate WholeBlocks(table: seq<Block>) {
    forall j | 0 <= j < |table| :: |table[j].data| == B
  }

  /** A new block joins the table if there is room; its id joins the file's list in any case. */
  function AddBlock(d: Disk, f: Inode): (Disk, Inode) {
    var b := Block(d.nextBlockId, f.inode, |f.list| * B, Blank(B), 0, 1, 0);
    (d.(table := if |d.table| < d.capacity then d.table + [b] else d.table, nextBlockId := d.nextBlockId + 1),
     f.(list := f.list + [d.nextBlockId]))
  }

  /** The file's list is extended to `count` blocks, if it is shorter. */
  function Grow(d: Disk, f: Inode, count: nat): (r: (Disk, Inode))
    ensures |r.1.list| == if count <= |f.list| then |f.list| else count
    ensures WholeBlocks(d.table) ==> WholeBlocks(r.0.table)
  {
    if count <= |f.list| then (d, f)
    else
      var (d', f') := Grow(d, f, count - 1);
      AddBlock(d', f')
  }

  function Splice(data: seq<byte>, at: nat, src: seq<byte>): (r: seq<byte>)
    requires at + |src| <= |data|
    ensures |r| == |data|
    ensures forall k | 0 <= k < |data| :: r[k] == if at <= k < at + |src| then src[k - at] else data[k]
  {
    data[..at] + src + data[at + |src|..]
  }

  function Overwrite(b: Block, at: nat, src: seq<byte>, checksum: Checksum): Block
    requires at + |src| <= |b.data|
  {
    var data := Splice(b.data, at, src);
    b.(data := data, checksum := checksum(data), version := b.version + 1)
  }

  /** The table after the copying loop has reached some block; `overrun` once a copy left its block or the buffer. */
  datatype Writing = Writing(table: seq<Block>, written: nat, overrun: bool)

  function WriteBlock(w: Writing, list: seq<nat>, buf: seq<byte>, offset: nat, i: nat, checksum: Checksum): (r: Writing)
    requires i < |list| && WholeBlocks(w.table)
    ensures |r.table| == |w.table| && WholeBlocks(r.table)
    ensures forall j | 0 <= j < |w.table| :: r.table[j].id == w.table[j].id
  {
    var k, at, n := Find(w.table, list[i]), ChunkStart(offset, i), ChunkSize(offset, |buf|, i);
    if w.overrun || k == -1 then w
    else if at + n > B || w.written + n > |buf| then w.(overrun := true)
    else
      Writing(w.table[k := Overwrite(w.table[k], at, buf[w.written..w.written + n], checksum)], w.written + n, false)
  }

  function WriteUpTo(table: seq<Block>, list: seq<nat>, buf: seq<byte>, offset: nat, i: nat,
                     checksum: Checksum): (r: Writing)
    requires WholeBlocks(table) && First(offset) <= i && (i > First(offset) ==> i <= |list|)
    ensures |r.table| == |table| && WholeBlocks(r.table)
    ensures forall j | 0 <= j < |table| :: r.table[j].id == table[j].id
    decreases i
  {
    if i == First(offset) then Writing(table, 0, false)
    else WriteBlock(WriteUpTo(table, list, buf, offset, i - 1, checksum), list, buf, offset, i - 1, checksum)
  }

  datatype Outcome = Done(bytes: nat) | NoMemory | Overrun

  /** dfs_write once the list is long enough: copy, then the file's size. */
  function WriteListed(d: Disk, f: Inode, buf: seq<byte>, offset: nat, checksum: Checksum): (Disk, Inode, Outcome)
    requires WholeBlocks(d.table) && Past(offset, |buf|) <= |f.list|
  {
    var w := WriteUpTo(d.table, f.list, buf, offset, Past(offset, |buf|), checksum);
    if w.overrun then (d.(table := w.table), f, Overrun)
    else
      (d.(table := w.table, totalBytes := d.totalBytes + w.written),
       f.(size := if offset + |buf| > f.size then offset + |buf| else f.size),
       Done(w.written))
  }

  /** dfs_write; `memory` says whether realloc succeeds. */
  function Write(d: Disk, f: Inode, buf: seq<byte>, offset: nat, memory: bool,
                 checksum: Checksum): (Disk, Inode, Outcome)
    requires WholeBlocks(d.table)
  {
    var past := Past(offset, |buf|);
    if past > |f.list| && !memory then (d, f, NoMemory)
    else
      var (d', f') := Grow(d, f, past);
      WriteListed(d', f', buf, offset, checksum)
  }

  /** The bytes a read has collected; `overrun` once a copy left its block or the caller's buffer. */
  datatype Reading = Reading(bytes: seq<byte>, overrun: bool)

  predicate Verified(b: Block, checksum: Checksum) {
    checksum(b.data) == b.checksum
  }

  function ReadBlock(r: Reading, table: seq<Block>, id: nat, at: nat, n: nat, space: nat, checksum: Checksum): Reading
    requires WholeBlocks(table)
  {
    var k := Find(table, id);
    if r.overrun || k == -1 || !Verified(table[k], checksum) then r
    else if at + n > B || |r.bytes| + n > space then r.(overrun := true)
    else Reading(r.bytes + table[k].data[at..at + n], false)
  }

  /** `size` is the clipped size, `space` the caller's. */
  function ReadUpTo(table: seq<Block>, list: seq<nat>, offset: nat, size: nat, space: nat, i: nat,
                    checksum: Checksum): Reading
    requires WholeBlocks(table) && i <= |list|
  {
    if i <= First(offset) then Reading([], false)
    else
      ReadBlock(ReadUpTo(table, list, offset, size, space, i - 1, checksum), table, list[i - 1],
                ChunkStart(offset, i - 1), ChunkSize(offset, size, i - 1), space, checksum)
  }

  function Clip(f: Inode, size: nat, offset: nat): nat
    requires offset < f.size
  {
    if offset + size > f.size then f.size - offset else size
  }

  function ReadEnd(f: Inode, size: nat, offset: nat): nat {
    if Past(offset, size) <= |f.list| then Past(offset, size) else |f.list|
  }

  /** dfs_read with a cache of capacity 0. */
  function Read(d: Disk, f: Inode, size: nat, offset: nat, checksum: Checksum): Reading
    requires WholeBlocks(d.table)
  {
    if offset >= f.size then Reading([], false)
    else
      var n := Clip(f, size, offset);
      ReadUpTo(d.table, f.list, offset, n, size, ReadEnd(f, n, offset), checksum)
  }

  /** The first block with this id gets a new primary node. */
  function Placed(table: seq<Block>, id: nat, node: int): (r: seq<Block>)
    ensures |r| == |table|
    ensures forall j | 0 <= j < |table| :: r[j] == table[j].(primary := r[j].primary)
  {
    var j := Find(table, id);
    if j == -1 then table else table[j := table[j].(primary := node)]
  }

  /** The loop of dfs_stripe_file after its first k blocks; width is the stripe width. */
  function Striped(table: seq<Block>, list: seq<nat>, nodes: seq<int>, width: nat, k: nat): (r: seq<Block>)
    requires k <= |list| && 0 < width <= |nodes|
    ensures |r| == |table|
    ensures forall j | 0 <= j < |table| :: r[j] == table[j].(primary := r[j].primary)
  {
    if k == 0 then table
    else Placed(Striped(table, list, nodes, width, k - 1), list[k - 1], nodes[(k - 1) % width])
  }

  function Width(nodes: seq<int>): nat {
    if |nodes| < 8 then |nodes| else 8
  }
}
