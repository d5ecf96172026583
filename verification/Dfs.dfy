/**
 The block store of dfs.h as it runs: a table of block objects, files that list block ids, and loops that copy in place.
 */
module Dfs {
  import opened BlockLayout
  import opened Bytes
  import opened Disks

  class BlockCell {
    const id: nat
    const fileId: nat
    const offset: nat
    const data: array<byte>
    var checksum: nat
    var version: nat
    var primary: int

    ghost function View(): Block
      reads this, data
    {
      Block(id, fileId, offset, data[..], checksum, version, primary)
    }

    /** calloc, then the fields dfs_write sets. */
    constructor (id: nat, fileId: nat, offset: nat)
      ensures View() == Block(id, fileId, offset, Blank(B), 0, 1, 0) && fresh(data)
    {
      this.id, this.fileId, this.offset := id, fileId, offset;
      data := new byte[B](_ => 0);
      checksum, version, primary := 0, 1, 0;
      new;
      assert data[..] == Blank(B);
    }

    /** memcpy into the block, then its new checksum and version. */
    method Put(at: nat, src: seq<byte>, sum: Checksum)
      requires at + |src| <= data.Length
      modifies this, data
      ensures View() == Overwrite(old(View()), at, src, sum)
    {
      ghost var before := data[..];
      for k := 0 to |src|
        invariant data[..] == Splice(before, at, src[..k])
        invariant unchanged(this)
      {
        data[at + k] := src[k];
      }
      assert src[..|src|] == src;
      checksum := sum(data[..]);
      version := version + 1;
    }
  }

  class DfsFile {
    const inode: nat
    var size: nat
    var list: seq<nat>
    var stripeWidth: nat

    ghost function View(): Inode
      reads this
    {
      Inode(inode, size, list, stripeWidth)
    }

    constructor (inode: nat)
      ensures View() == Inode(inode, 0, [], 0)
    {
      this.inode, size, list, stripeWidth := inode, 0, [], 0;
    }
  }

  ghost function Buffers(cells: seq<BlockCell>): set<object> {
    set c | c in cells :: c.data
  }

  ghost predicate Separate(cells: seq<BlockCell>) {
    && (forall c | c in cells :: c.data.Length == B)
    && (forall i, j | 0 <= i < j < |cells| :: cells[i] != cells[j] && cells[i].data != cells[j].data)
  }

  ghost function Views(cells: seq<BlockCell>): (r: seq<Block>)
    reads cells, Buffers(cells)
    ensures |r| == |cells| && forall i | 0 <= i < |cells| :: r[i] == cells[i].View()
  {
    if cells == [] then [] else Views(cells[..|cells| - 1]) + [cells[|cells| - 1].View()]
  }

  class Store {
    const checksum: Checksum
    const capacity: nat
    var table: seq<BlockCell>
    var nextBlockId: nat
    var totalBytes: nat

    ghost predicate Valid()
      reads this
    {
      Separate(table)
    }

    ghost function View(): (d: Disk)
      requires Valid()
      reads this, table, Buffers(table)
      ensures WholeBlocks(d.table)
    {
      Disk(Views(table), capacity, nextBlockId, totalBytes)
    }

    constructor (checksum: Checksum)
      ensures Valid() && View() == Disk([], 100000, 1, 0) && this.checksum == checksum
    {
      this.checksum, capacity := checksum, 100000;
      table, nextBlockId, totalBytes := [], 1, 0;
    }

    method FindBlock(id: nat) returns (k: int)
      requires Valid()
      ensures k == Find(View().table, id)
    {
      for j := 0 to |table|
        invariant forall i | 0 <= i < j :: View().table[i].id != id
      {
        if table[j].id == id {
          assert View().table[j].id == id;
          return j;
        }
        assert View().table[j].id != id;
      }
      k := -1;
    }

    /** A new block joins the table if there is room. */
    method Register(cell: BlockCell)
      requires Valid() && cell !in table && cell.data !in Buffers(table) && cell.data.Length == B
      modifies this`table
      ensures Valid() && (table == old(table) || table == old(table) + [cell])
      ensures View() == if |old(table)| >= capacity then old(View())
                        else old(View()).(table := old(View()).table + [cell.View()])
    {
      if |table| < capacity {
        table := table + [cell];
        assert table[..|table| - 1] == old(table);
      }
    }

    method AddBlock(file: DfsFile)
      requires Valid()
      modifies this, file`list
      ensures Valid() && (View(), file.View()) == Disks.AddBlock(old(View()), old(file.View()))
      ensures forall c | c in table :: c in old(table) || (fresh(c) && fresh(c.data))
    {
      hide Views;
      var cell := new BlockCell(nextBlockId, file.inode, |file.list| * B);
      Register(cell);
      ghost var t := View().table;
      file.list := file.list + [nextBlockId];
      nextBlockId := nextBlockId + 1;
      assert View().table == t;
    }

    /** The loop that gives the file its new blocks. */
    method GrowTo(file: DfsFile, count: nat)
      requires Valid()
      modifies this, file`list
      ensures Valid() && (View(), file.View()) == Grow(old(View()), old(file.View()), count)
      ensures forall c | c in table :: c in old(table) || (fresh(c) && fresh(c.data))
    {
      hide Views;
      ghost var d, f := View(), file.View();
      ghost var n := |file.list|;
      while |file.list| < count
        invariant Valid() && n <= |file.list| && (|file.list| <= count || |file.list| == n)
        invariant (View(), file.View()) == Grow(d, f, |file.list|)
        invariant forall c | c in table :: c in old(table) || (fresh(c) && fresh(c.data))
        decreases count - |file.list|
      {
        AddBlock(file);
      }
    }

    /** One round of the copying loop; `written` counts the bytes copied so far. */
    method WriteBlockAt(file: DfsFile, buf: seq<byte>, offset: nat, i: nat, written: nat)
      returns (written': nat, overrun: bool)
      requires Valid() && i < |file.list|
      modifies table, Buffers(table)
      ensures Valid()
      ensures View() == old(View()).(table := View().table)
      ensures Writing(View().table, written', overrun) ==
              WriteBlock(Writing(old(View().table), written, false), file.list, buf, offset, i, checksum)
    {
      hide Views, Find, ChunkStart, ChunkSize, Overwrite;
      written', overrun := written, false;
      var k := FindBlock(file.list[i]);
      if k != -1 {
        var at, n := Chunk(offset, |buf|, i);
        if at + n > B || written + n > |buf| {
          overrun := true;
        } else {
          PutBlock(k, at, buf[written..written + n]);
          written' := written + n;
        }
      }
    }

    /** The offset and size computation that writing and reading share. */
    method Chunk(offset: nat, size: nat, i: nat) returns (at: nat, n: nat)
      ensures at == ChunkStart(offset, i) && n == ChunkSize(offset, size, i)
    {
      at := if i == offset / B then offset % B else 0;
      n := B - at;
      if i == Past(offset, size) - 1 {
        n := WordSub((offset + size) % B, at);
        if n == 0 {
          n := B - at;
        }
      }
    }

    method PutBlock(k: nat, at: nat, src: seq<byte>)
      requires Valid() && k < |table| && at + |src| <= B
      modifies table[k], table[k].data
      ensures Valid()
      ensures View() ==
              old(View()).(table := old(View()).table[k := Overwrite(old(View()).table[k], at, src, checksum)])
    {
      ghost var before := View().table;
      table[k].Put(at, src, checksum);
      assert forall j | 0 <= j < |table| && j != k :: table[j].View() == before[j];
      assert View().table == before[k := Overwrite(before[k], at, src, checksum)];
    }

    /** The copying loop. An overrun is undefined behaviour in C, so nothing after it is modelled. */
    method CopyBlocks(file: DfsFile, buf: seq<byte>, offset: nat) returns (written: nat, overrun: bool)
      requires Valid() && Past(offset, |buf|) <= |file.list|
      modifies table, Buffers(table)
      ensures Valid() && View() == old(View()).(table := View().table)
      ensures Writing(View().table, written, overrun) ==
              WriteUpTo(old(View().table), file.list, buf, offset, Past(offset, |buf|), checksum)
    {
      hide Views, ChunkStart, ChunkSize, WriteBlock;
      ghost var t, past := View().table, Past(offset, |buf|);
      var i := offset / B;
      written, overrun := 0, false;
      while i < Past(offset, |buf|) && !overrun
        invariant Valid() && First(offset) <= i <= past && View() == old(View()).(table := View().table)
        invariant Writing(View().table, written, overrun) == WriteUpTo(t, file.list, buf, offset, i, checksum)
      {
        written, overrun := WriteBlockAt(file, buf, offset, i, written);
        i := i + 1;
      }
      if overrun {
        OverrunStays(t, file.list, buf, offset, i, past, checksum);
      }
    }

    method WriteListed(file: DfsFile, buf: seq<byte>, offset: nat) returns (outcome: Outcome)
      requires Valid() && Past(offset, |buf|) <= |file.list|
      modifies this`totalBytes, file`size, table, Buffers(table)
      ensures Valid() && (View(), file.View(), outcome) ==
              Disks.WriteListed(old(View()), old(file.View()), buf, offset, checksum)
    {
      hide Views, WriteUpTo, Past;
      var written, overrun := CopyBlocks(file, buf, offset);
      if overrun {
        return Overrun;
      }
      ghost var t := View().table;
      if offset + |buf| > file.size {
        file.size := offset + |buf|;
      }
      totalBytes := totalBytes + written;
      assert View().table == t;
      outcome := Done(written);
    }

    /** dfs_write; `memory` says whether realloc succeeds. */
    method Write(file: DfsFile, buf: seq<byte>, offset: nat, memory: bool) returns (outcome: Outcome)
      requires Valid()
      modifies this, file, table, Buffers(table)
      ensures Valid() && (View(), file.View(), outcome) ==
              Disks.Write(old(View()), old(file.View()), buf, offset, memory, checksum)
      ensures forall c | c in table :: c in old(table) || (fresh(c) && fresh(c.data))
    {
      hide Views, Grow, Disks.WriteListed, Past;
      var past := Past(offset, |buf|);
      if past > |file.list| && !memory {
        return NoMemory;
      }
      GrowTo(file, past);
      outcome := WriteListed(file, buf, offset);
    }

    method CollectBlocks(file: DfsFile, size: nat, space: nat, offset: nat) returns (bytes: seq<byte>, overrun: bool)
      requires Valid()
      ensures Reading(bytes, overrun) ==
              ReadUpTo(View().table, file.list, offset, size, space, ReadEnd(file.View(), size, offset), checksum)
    {
      hide Views, Past, ReadBlock;
      ghost var t, end := View().table, ReadEnd(file.View(), size, offset);
      var i := First(offset);
      bytes, overrun := [], false;
      while i < Past(offset, size) && i < |file.list| && !overrun
        invariant First(offset) <= i && (i <= end || i == First(offset))
        invariant i <= |file.list| ==>
                  Reading(bytes, overrun) == ReadUpTo(t, file.list, offset, size, space, i, checksum)
        invariant i > |file.list| ==> bytes == [] && !overrun
      {
        bytes, overrun := ReadBlockAt(file, space, offset, size, i, bytes);
        assert t == View().table;
        i := i + 1;
      }
      if end < i {
        assert i == First(offset) && bytes == [] && !overrun;
      } else if overrun {
        ReadOverrunStays(t, file.list, offset, size, space, i, end, checksum);
      }
      assert ReadUpTo(t, file.list, offset, size, space, end, checksum) == Reading(bytes, overrun);
      assert t == View().table && end == ReadEnd(file.View(), size, offset);
    }

    /** dfs_read with a cache of capacity 0: the bytes copied into the caller's buffer. */
    method Read(file: DfsFile, size: nat, offset: nat) returns (bytes: seq<byte>, overrun: bool)
      requires Valid()
      ensures Reading(bytes, overrun) == Disks.Read(View(), file.View(), size, offset, checksum)
    {
      if offset >= file.size {
        return [], false;
      }
      var n := if offset + size > file.size then file.size - offset else size;
      bytes, overrun := CollectBlocks(file, n, size, offset);
    }

    method ReadBlockAt(file: DfsFile, space: nat, offset: nat, size: nat, i: nat, bytes: seq<byte>)
      returns (bytes': seq<byte>, overrun: bool)
      requires Valid() && i < |file.list|
      ensures Reading(bytes', overrun) ==
              ReadBlock(Reading(bytes, false), View().table, file.list[i], ChunkStart(offset, i),
                        ChunkSize(offset, size, i), space, checksum)
    {
      hide Find, ChunkStart, ChunkSize;
      bytes', overrun := bytes, false;
      var k := FindBlock(file.list[i]);
      if k != -1 && checksum(table[k].data[..]) == table[k].checksum {
        assert View().table[k] == table[k].View();
        var at, n := Chunk(offset, size, i);
        if at + n > B || |bytes| + n > space {
          overrun := true;
        } else {
          bytes' := bytes + table[k].data[..][at..at + n];
        }
      }
    }

    /** dfs_stripe_file; -22 is -EINVAL. */
    method StripeFile(file: DfsFile, nodes: seq<int>) returns (result: int)
      requires Valid()
      modifies file`stripeWidth, table
      ensures Valid() && result == if |nodes| == 0 then -22 else 0
      ensures |nodes| == 0 ==> View() == old(View()) && file.View() == old(file.View())
      ensures |nodes| > 0 ==> file.stripeWidth == if |nodes| < 8 then |nodes| else 8
      ensures |nodes| > 0 ==>
                && file.View() == old(file.View()).(stripeWidth := Width(nodes))
                && View() ==
                  old(View()).(table := Striped(old(View().table), file.list, nodes, Width(nodes), |file.list|))
    {
      hide Views, Striped;
      if |nodes| == 0 {
        return -22;
      }
      ghost var d := View();
      file.stripeWidth := if |nodes| < 8 then |nodes| else 8;
      assert View() == d;
      AssignPrimaries(file, nodes, file.stripeWidth);
      result := 0;
    }

    method AssignPrimaries(file: DfsFile, nodes: seq<int>, width: nat)
      requires Valid() && 0 < width <= |nodes|
      modifies table
      ensures Valid()
      ensures View() == old(View()).(table := Striped(old(View().table), file.list, nodes, width, |file.list|))
    {
      hide Views, Placed;
      ghost var d := View();
      for i := 0 to |file.list|
        invariant Valid() && View() == d.(table := View().table)
        invariant View().table == Striped(d.table, file.list, nodes, width, i)
      {
        StripeBlock(file.list[i], nodes[i % width]);
      }
    }

    method StripeBlock(id: nat, node: int)
      requires Valid()
      modifies table
      ensures Valid() && View() == old(View()).(table := View().table)
      ensures View().table == Placed(old(View().table), id, node)
    {
      hide Views, Find;
      var k := FindBlock(id);
      if k != -1 {
        SetPrimary(k, node);
      }
    }

    method SetPrimary(k: nat, node: int)
      requires Valid() && k < |table|
      modifies table[k]
      ensures Valid() && View() == old(View()).(table := old(View()).table[k := old(View()).table[k].(primary := node)])
    {
      ghost var before := View().table;
      table[k].primary := node;
      assert forall j | 0 <= j < |table| && j != k :: table[j].View() == before[j];
      assert View().table == before[k := before[k].(primary := node)];
    }
  }

  lemma {:induction false} ReadOverrunStays(table: seq<Block>, list: seq<nat>, offset: nat, size: nat, space: nat,
                                            i: nat, k: nat, checksum: Checksum)
    requires WholeBlocks(table) && First(offset) <= i <= k <= |list|
    requires ReadUpTo(table, list, offset, size, space, i, checksum).overrun
    ensures ReadUpTo(table, list, offset, size, space, k, checksum) ==
            ReadUpTo(table, list, offset, size, space, i, checksum)
  {
    if i < k {
      ReadOverrunStays(table, list, offset, size, space, i, k - 1, checksum);
    }
  }

  lemma {:induction false} OverrunStays(table: seq<Block>, list: seq<nat>, buf: seq<byte>, offset: nat, i: nat,
                                        k: nat, checksum: Checksum)
    requires WholeBlocks(table) && First(offset) <= i <= k && (k > First(offset) ==> k <= |list|)
    requires WriteUpTo(table, list, buf, offset, i, checksum).overrun
    ensures WriteUpTo(table, list, buf, offset, k, checksum) == WriteUpTo(table, list, buf, offset, i, checksum)
  {
    if i < k {
      OverrunStays(table, list, buf, offset, i, k - 1, checksum);
    }
  }
}
