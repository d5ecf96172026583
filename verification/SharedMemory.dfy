/**
 The shared-memory table of decentralized_os.c:790-885 and 920-948: an array of blocks, searched by id, compacted on
 free.
 */
module SharedMemory {
  import opened Bytes
  import opened Searches

  const MAX_MEMORY_BLOCKS := 512

  datatype Block = Block(id: nat, data: seq<byte>, version: nat, refCount: int)

  datatype Table = Table(blocks: seq<Block>, nextId: nat, totalAllocated: int)

  function Zeros(n: nat): (r: seq<byte>)
    ensures |r| == n && forall k | 0 <= k < n :: r[k] == 0
  {
    seq(n, _ => 0)
  }

  const blockId: Block -> int := (b: Block) => b.id

  /** The first block with this id, or -1. */
  function Find(blocks: seq<Block>, id: nat): (r: int)
    ensures -1 <= r < |blocks|
    ensures r != -1 ==> blocks[r].id == id && forall j | 0 <= j < r :: blocks[j].id != id
    ensures r == -1 ==> forall j | 0 <= j < |blocks| :: blocks[j].id != id
  {
    IndexOf(blocks, blockId, id)
  }

  function Patch(b: Block, src: seq<byte>, offset: nat): Block
    requires offset + |src| <= |b.data|
  {
    b.(data := b.data[..offset] + src + b.data[offset + |src|..], version := b.version + 1)
  }

  /** `memory` says whether both allocations succeed. */
  function Create(t: Table, size: nat, memory: bool): (Table, nat) {
    if size == 0 || |t.blocks| >= MAX_MEMORY_BLOCKS || !memory then (t, 0)
    else
      (Table(t.blocks + [Block(t.nextId + 1, Zeros(size), 1, 1)], t.nextId + 1, t.totalAllocated + size), t.nextId + 1)
  }

  function Write(t: Table, id: nat, src: seq<byte>, offset: nat): (Table, int) {
    var k := Find(t.blocks, id);
    if k == -1 || offset + |src| > |t.blocks[k].data| then (t, -1)
    else (t.(blocks := t.blocks[k := Patch(t.blocks[k], src, offset)]), 0)
  }

  datatype ReadResult = Refused | Bytes(bytes: seq<byte>)

  function Read(t: Table, id: nat, size: nat, offset: nat): ReadResult {
    var k := Find(t.blocks, id);
    if k == -1 || offset + size > |t.blocks[k].data| then Refused
    else Bytes(t.blocks[k].data[offset..offset + size])
  }

  function Free(t: Table, id: nat): Table {
    var k := Find(t.blocks, id);
    if k == -1 then t
    else
      var b := t.blocks[k].(refCount := t.blocks[k].refCount - 1);
      if b.refCount <= 0 then
        t.(blocks := t.blocks[..k] + t.blocks[k + 1..], totalAllocated := t.totalAllocated - |b.data|)
      else t.(blocks := t.blocks[k := b])
  }

  class MemoryManager {
    const blocks: array<Block>
    var blockCount: nat
    var nextBlockId: nat
    var totalAllocated: int

    ghost predicate Valid()
      reads this
    {
      blocks.Length == MAX_MEMORY_BLOCKS && blockCount <= MAX_MEMORY_BLOCKS
    }

    ghost function View(): Table
      requires Valid()
      reads this, blocks
    {
      Table(blocks[..blockCount], nextBlockId, totalAllocated)
    }

    constructor ()
      ensures Valid() && View() == Table([], 0, 0) && fresh(blocks)
    {
      blocks := new Block[MAX_MEMORY_BLOCKS](_ => Block(0, [], 0, 0));
      blockCount, nextBlockId, totalAllocated := 0, 0, 0;
    }

    method FindBlock(id: nat) returns (k: int)
      requires Valid()
      ensures k == Find(View().blocks, id)
    {
      for i := 0 to blockCount
        invariant forall j | 0 <= j < i :: View().blocks[j].id != id
      {
        if blocks[i].id == id {
          assert View().blocks[i].id == id;
          return i;
        }
        assert View().blocks[i].id != id;
      }
      k := -1;
    }

    method CreateSharedMemory(size: nat, memory: bool) returns (id: nat)
      requires Valid()
      modifies this, blocks
      ensures Valid() && (View(), id) == Create(old(View()), size, memory)
    {
      if size == 0 || blockCount >= MAX_MEMORY_BLOCKS || !memory {
        return 0;
      }
      nextBlockId := nextBlockId + 1;
      blocks[blockCount] := Block(nextBlockId, Zeros(size), 1, 1);
      blockCount := blockCount + 1;
      totalAllocated := totalAllocated + size;
      id := nextBlockId;
      assert blocks[..blockCount] == old(View()).blocks + [Block(id, Zeros(size), 1, 1)];
    }

    method WriteSharedMemory(id: nat, src: seq<byte>, offset: nat) returns (result: int)
      requires Valid()
      modifies blocks
      ensures Valid() && (View(), result) == Write(old(View()), id, src, offset)
    {
      var k := FindBlock(id);
      if k == -1 || offset + |src| > |blocks[k].data| {
        return -1;
      }
      blocks[k] := Patch(blocks[k], src, offset);
      result := 0;
    }

    method ReadSharedMemory(id: nat, size: nat, offset: nat) returns (result: ReadResult)
      requires Valid()
      ensures result == Read(View(), id, size, offset)
    {
      var k := FindBlock(id);
      if k == -1 || offset + size > |blocks[k].data| {
        return Refused;
      }
      result := Bytes(blocks[k].data[offset..offset + size]);
    }

    method FreeSharedMemory(id: nat)
      requires Valid()
      modifies this, blocks
      ensures Valid() && View() == Free(old(View()), id)
    {
      var k := FindBlock(id);
      if k != -1 {
        blocks[k] := blocks[k].(refCount := blocks[k].refCount - 1);
        if blocks[k].refCount <= 0 {
          totalAllocated := totalAllocated - |blocks[k].data|;
          Compact(k);
        }
      }
    }

    /** The compaction loop: the blocks behind k move one place forward. */
    method Compact(k: nat)
      requires Valid() && k < blockCount
      modifies this`blockCount, blocks
      ensures Valid() && View() == old(View()).(blocks := old(View()).blocks[..k] + old(View()).blocks[k + 1..])
    {
      ghost var before := blocks[..blockCount];
      for j := k to blockCount - 1
        modifies blocks
        invariant forall i | 0 <= i < k :: blocks[i] == before[i]
        invariant forall i | k <= i < j :: blocks[i] == before[i + 1]
        invariant forall i | j < i < blockCount :: blocks[i] == before[i]
      {
        blocks[j] := blocks[j + 1];
      }
      blockCount := blockCount - 1;
      assert blocks[..blockCount] == before[..k] + before[k + 1..];
    }
  }
}

/** The table refines a finite map from ids to cells, whatever the sequence of calls. */
module SharedMemoryTheory {
  import opened Bytes
  import opened SharedMemory

  datatype Cell = Cell(data: seq<byte>, version: nat)

  /** The simple form: live cells by id, and the last id given out. */
  datatype Spec = Spec(cells: map<nat, Cell>, nextId: nat)

  datatype Call =
    | CallCreate(size: nat, memory: bool)
    | CallWrite(id: nat, src: seq<byte>, offset: nat)
    | CallRead(id: nat, size: nat, offset: nat)
    | CallFree(id: nat)

  datatype Reply = Id(id: nat) | Code(code: int) | Data(data: ReadResult) | Nothing

  function Apply(t: Table, c: Call): (Table, Reply) {
    match c
    case CallCreate(size, memory) => var (u, id) := Create(t, size, memory); (u, Id(id))
    case CallWrite(id, src, offset) => var (u, code) := Write(t, id, src, offset); (u, Code(code))
    case CallRead(id, size, offset) => (t, Data(Read(t, id, size, offset)))
    case CallFree(id) => (Free(t, id), Nothing)
  }

  function SpecApply(s: Spec, c: Call): (Spec, Reply) {
    match c
    case CallCreate(size, memory) =>
      if size == 0 || |s.cells| >= MAX_MEMORY_BLOCKS || !memory then (s, Id(0))
      else (Spec(s.cells[s.nextId + 1 := Cell(Zeros(size), 1)], s.nextId + 1), Id(s.nextId + 1))
    case CallWrite(id, src, offset) =>
      if id in s.cells && offset + |src| <= |s.cells[id].data| then
        var d := s.cells[id].data;
        (s.(cells := s.cells[id := Cell(d[..offset] + src + d[offset + |src|..], s.cells[id].version + 1)]), Code(0))
      else (s, Code(-1))
    case CallRead(id, size, offset) =>
      (s, Data(if id in s.cells && offset + size <= |s.cells[id].data|
               then Bytes(s.cells[id].data[offset..offset + size])
               else Refused))
    case CallFree(id) => (s.(cells := s.cells - {id}), Nothing)
  }

  ghost function AsMap(blocks: seq<Block>): map<nat, Cell> {
    if blocks == [] then map[]
    else
      var b := blocks[|blocks| - 1];
      AsMap(blocks[..|blocks| - 1])[b.id := Cell(b.data, b.version)]
  }

  ghost function AsSpec(t: Table): Spec {
    Spec(AsMap(t.blocks), t.nextId)
  }

  ghost function Allocated(blocks: seq<Block>): nat {
    if blocks == [] then 0 else Allocated(blocks[..|blocks| - 1]) + |blocks[|blocks| - 1].data|
  }

  /** Ids increase along the array and never exceed the last one given out; the total is the sum of the live sizes. */
  ghost predicate Ordered(t: Table) {
    && (forall i, j | 0 <= i < j < |t.blocks| :: t.blocks[i].id < t.blocks[j].id)
    && (forall i | 0 <= i < |t.blocks| :: 0 < t.blocks[i].id <= t.nextId && t.blocks[i].refCount == 1)
    && t.totalAllocated == Allocated(t.blocks)
  }

  ghost predicate Distinct(blocks: seq<Block>) {
    forall i, j | 0 <= i < j < |blocks| :: blocks[i].id != blocks[j].id
  }

  /** With distinct ids the map holds what the search finds. */
  lemma {:induction false} MapEntries(blocks: seq<Block>)
    requires Distinct(blocks)
    ensures |AsMap(blocks)| == |blocks|
    ensures forall id :: id in AsMap(blocks) <==> Find(blocks, id) != -1
    ensures forall id | id in AsMap(blocks) ::
              var b := blocks[Find(blocks, id)]; AsMap(blocks)[id] == Cell(b.data, b.version)
  {
    hide Find;
    if blocks != [] {
      var front, b := blocks[..|blocks| - 1], blocks[|blocks| - 1];
      MapEntries(front);
      forall id ensures Find(blocks, id) == if id == b.id then |front| else Find(front, id) {
        FindMore(blocks, id);
      }
    }
  }

  lemma FindMore(blocks: seq<Block>, id: nat)
    requires Distinct(blocks) && blocks != []
    ensures var n := |blocks| - 1; Find(blocks, id) == if id == blocks[n].id then n else Find(blocks[..n], id)
  {
  }

  lemma {:induction false} UpdatedTable(blocks: seq<Block>, k: nat, b: Block)
    requires Distinct(blocks) && k < |blocks| && b.id == blocks[k].id
    ensures AsMap(blocks[k := b]) == AsMap(blocks)[b.id := Cell(b.data, b.version)]
    ensures Allocated(blocks[k := b]) == Allocated(blocks) - |blocks[k].data| + |b.data|
  {
    var n := |blocks| - 1;
    if k < n {
      UpdatedTable(blocks[..n], k, b);
      assert blocks[k := b][..n] == blocks[..n][k := b];
    } else {
      assert blocks[k := b][..n] == blocks[..n];
    }
  }

  function Without(blocks: seq<Block>, k: nat): (r: seq<Block>)
    requires k < |blocks|
    ensures |r| == |blocks| - 1
    ensures forall i | 0 <= i < |r| :: r[i] == blocks[if i < k then i else i + 1]
  {
    blocks[..k] + blocks[k + 1..]
  }

  lemma {:induction false} NotInMap(blocks: seq<Block>, id: nat)
    requires forall i | 0 <= i < |blocks| :: blocks[i].id != id
    ensures id !in AsMap(blocks)
  {
    if blocks != [] {
      NotInMap(blocks[..|blocks| - 1], id);
    }
  }

  lemma AppendedTable(blocks: seq<Block>, b: Block)
    ensures AsMap(blocks + [b]) == AsMap(blocks)[b.id := Cell(b.data, b.version)]
    ensures Allocated(blocks + [b]) == Allocated(blocks) + |b.data|
  {
    assert (blocks + [b])[..|blocks|] == blocks;
  }

  lemma WithoutFront(blocks: seq<Block>, k: nat)
    requires k < |blocks| - 1
    ensures Without(blocks, k) == Without(blocks[..|blocks| - 1], k) + [blocks[|blocks| - 1]]
  {
  }

  lemma {:induction false} CompactedMap(blocks: seq<Block>, k: nat)
    requires Distinct(blocks) && k < |blocks|
    ensures AsMap(Without(blocks, k)) == AsMap(blocks) - {blocks[k].id}
  {
    hide AsMap;
    var n := |blocks| - 1;
    var front, last := blocks[..n], blocks[n];
    AppendedTable(front, last);
    assert front + [last] == blocks;
    if k < n {
      CompactedMap(front, k);
      WithoutFront(blocks, k);
      AppendedTable(Without(front, k), last);
      UpdateAndRemove(AsMap(front), blocks[k].id, last.id, Cell(last.data, last.version));
    } else {
      assert Without(blocks, k) == front;
      NotInMap(front, last.id);
      UpdateAndRemove(AsMap(front), last.id, last.id, Cell(last.data, last.version));
    }
  }

  lemma UpdateAndRemove(m: map<nat, Cell>, a: nat, b: nat, c: Cell)
    ensures a != b ==> (m - {a})[b := c] == m[b := c] - {a}
    ensures a == b && a !in m ==> m[b := c] - {a} == m
  {
  }

  lemma {:induction false} CompactedAllocated(blocks: seq<Block>, k: nat)
    requires k < |blocks|
    ensures Allocated(Without(blocks, k)) == Allocated(blocks) - |blocks[k].data|
  {
    var n, r := |blocks| - 1, Without(blocks, k);
    if k < n {
      CompactedAllocated(blocks[..n], k);
      assert r[..n - 1] == Without(blocks[..n], k);
    } else {
      assert r == blocks[..n];
    }
  }

  lemma {:induction false} CompactedOrdered(t: Table, k: nat)
    requires Ordered(t) && k < |t.blocks|
    ensures Ordered(t.(blocks := Without(t.blocks, k), totalAllocated := t.totalAllocated - |t.blocks[k].data|))
  {
    hide Allocated;
    CompactedAllocated(t.blocks, k);
  }

  lemma {:induction false} WriteRefines(t: Table, id: nat, src: seq<byte>, offset: nat)
    requires Ordered(t)
    ensures var (u, r) := Apply(t, CallWrite(id, src, offset));
            Ordered(u) && (AsSpec(u), r) == SpecApply(AsSpec(t), CallWrite(id, src, offset))
  {
    hide Find, AsMap, Allocated;
    var k := Find(t.blocks, id);
    MapEntries(t.blocks);
    if k != -1 && offset + |src| <= |t.blocks[k].data| {
      UpdatedTable(t.blocks, k, Patch(t.blocks[k], src, offset));
    }
  }

  lemma {:induction false} CreateRefines(t: Table, size: nat, memory: bool)
    requires Ordered(t)
    ensures var (u, r) := Apply(t, CallCreate(size, memory));
            Ordered(u) && (AsSpec(u), r) == SpecApply(AsSpec(t), CallCreate(size, memory))
  {
    hide Find, AsMap, Allocated;
    MapEntries(t.blocks);
    AppendedTable(t.blocks, Block(t.nextId + 1, Zeros(size), 1, 1));
  }

  lemma {:induction false} FreeRefines(t: Table, id: nat)
    requires Ordered(t)
    ensures var (u, r) := Apply(t, CallFree(id));
            Ordered(u) && (AsSpec(u), r) == SpecApply(AsSpec(t), CallFree(id))
  {
    hide Find, AsMap, Ordered, Free;
    if Find(t.blocks, id) == -1 {
      FreeAbsent(t, id);
    } else {
      FreeCompacts(t, id);
      CompactedMap(t.blocks, Find(t.blocks, id));
      CompactedOrdered(t, Find(t.blocks, id));
    }
  }

  lemma FreeAbsent(t: Table, id: nat)
    requires Ordered(t) && Find(t.blocks, id) == -1
    ensures Free(t, id) == t && AsMap(t.blocks) - {id} == AsMap(t.blocks)
  {
    hide AsMap;
    MapEntries(t.blocks);
  }

  lemma FreeCompacts(t: Table, id: nat)
    requires Ordered(t) && Find(t.blocks, id) != -1
    ensures var k := Find(t.blocks, id);
            && Distinct(t.blocks)
            && Free(t, id) ==
              t.(blocks := Without(t.blocks, k), totalAllocated := t.totalAllocated - |t.blocks[k].data|)
  {
    hide Find, Allocated;
  }

  lemma {:induction false} ReadRefines(t: Table, id: nat, size: nat, offset: nat)
    requires Ordered(t)
    ensures Apply(t, CallRead(id, size, offset)).1 == SpecApply(AsSpec(t), CallRead(id, size, offset)).1
  {
    hide Find, AsMap;
    MapEntries(t.blocks);
  }

  lemma {:induction false} CallRefines(t: Table, c: Call)
    requires Ordered(t)
    ensures var (u, r) := Apply(t, c); Ordered(u) && (AsSpec(u), r) == SpecApply(AsSpec(t), c)
  {
    match c {
      case CallCreate(size, memory) => CreateRefines(t, size, memory);
      case CallWrite(id, src, offset) => WriteRefines(t, id, src, offset);
      case CallRead(id, size, offset) => ReadRefines(t, id, size, offset);
      case CallFree(id) => FreeRefines(t, id);
    }
  }

  // ----- runs -----

  function After(t: Table, calls: seq<Call>): Table {
    if calls == [] then t else Apply(After(t, calls[..|calls| - 1]), calls[|calls| - 1]).0
  }

  function SpecAfter(s: Spec, calls: seq<Call>): Spec {
    if calls == [] then s else SpecApply(SpecAfter(s, calls[..|calls| - 1]), calls[|calls| - 1]).0
  }

  const empty := Table([], 0, 0)

  /**
   After any sequence of calls the table is ordered, stands for the map, and answers the next call as the map does.
   */
  lemma {:induction false} RunRefinesMap(calls: seq<Call>, c: Call)
    ensures var t, s := After(empty, calls), SpecAfter(Spec(map[], 0), calls);
            Ordered(t) && AsSpec(t) == s && Apply(t, c).1 == SpecApply(s, c).1
  {
    hide Ordered, Apply, SpecApply, AsSpec;
    if calls == [] {
      EmptyRefines();
    } else {
      RunRefinesMap(calls[..|calls| - 1], calls[|calls| - 1]);
      CallRefines(After(empty, calls[..|calls| - 1]), calls[|calls| - 1]);
    }
    CallRefines(After(empty, calls), c);
  }

  lemma EmptyRefines()
    ensures Ordered(empty) && AsSpec(empty) == Spec(map[], 0)
  {
  }

  /** How many writes to this id succeeded. */
  ghost function Writes(calls: seq<Call>, id: nat): nat {
    if calls == [] then 0
    else
      var n := |calls| - 1;
      var c := calls[n];
      Writes(calls[..n], id) +
      if c.CallWrite? && c.id == id && Apply(After(empty, calls[..n]), c).1 == Code(0) then 1 else 0
  }

  /** After w successful writes to id: its version if it is live, and w = 0 if it was never given out. */
  ghost predicate WrittenTimes(s: Spec, id: nat, w: nat) {
    && (id in s.cells ==> 0 < id <= s.nextId && s.cells[id].version == 1 + w)
    && (id > s.nextId ==> w == 0)
  }

  lemma {:induction false} CallWrites(s: Spec, c: Call, id: nat, w: nat)
    requires WrittenTimes(s, id, w)
    ensures var (s', r) := SpecApply(s, c);
            WrittenTimes(s', id, w + if c.CallWrite? && c.id == id && r == Code(0) then 1 else 0)
  {
  }

  /**
   A block's version is one more than the number of successful writes to its id, as an id is never given out twice.
   */
  lemma {:induction false} VersionCountsWrites(calls: seq<Call>, id: nat)
    ensures WrittenTimes(SpecAfter(Spec(map[], 0), calls), id, Writes(calls, id))
  {
    hide Apply, SpecApply, After;
    if calls != [] {
      hide WrittenTimes;
      var n := |calls| - 1;
      VersionCountsWrites(calls[..n], id);
      RunRefinesMap(calls[..n], calls[n]);
      CallWrites(SpecAfter(Spec(map[], 0), calls[..n]), calls[n], id, Writes(calls[..n], id));
    }
  }

  lemma {:induction false} IdsIncrease(calls: seq<Call>, k: nat)
    requires k <= |calls|
    ensures After(empty, calls[..k]).nextId <= After(empty, calls).nextId
  {
    if k < |calls| {
      var n := |calls| - 1;
      IdsIncrease(calls[..n], k);
      assert calls[..n][..k] == calls[..k];
    } else {
      assert calls[..k] == calls;
    }
  }

  /** Of two successful creations the later one gets the larger id. */
  lemma {:induction false} NeverReused(calls: seq<Call>, i: nat, j: nat)
    requires i < j < |calls| && calls[i].CallCreate? && calls[j].CallCreate?
    ensures var a, b := Apply(After(empty, calls[..i]), calls[i]).1, Apply(After(empty, calls[..j]), calls[j]).1;
            a.id != 0 && b.id != 0 ==> a.id < b.id
  {
    IdsIncrease(calls[..j], i + 1);
    assert calls[..j][..i + 1] == calls[..i + 1];
    assert calls[..i + 1][..i] == calls[..i];
  }
}
