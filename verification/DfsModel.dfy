/** How dfs.h cuts a byte range into blocks, in size_t arithmetic, and exactly when that is right. */
module BlockLayout {
  const B: nat := 4096
  const WORD: nat := 0x1_0000_0000_0000_0000

  /** Subtraction of size_t values. */
  function WordSub(a: nat, b: nat): nat
    requires b <= WORD
  {
    if a >= b then a - b else a + WORD - b
  }

  /** The first block of a range, and the block after its last. */
  function First(offset: nat): nat {
    offset / B
  }

  function Past(offset: nat, size: nat): (r: nat)
    ensures r >= First(offset)
  {
    WordSub(offset + size, 1) / B + 1
  }

  function ChunkStart(offset: nat, i: nat): nat {
    if i == First(offset) then offset % B else 0
  }

  function ChunkSize(offset: nat, size: nat, i: nat): nat {
    var start := ChunkStart(offset, i);
    if i + 1 == Past(offset, size) then
      var s := WordSub((offset + size) % B, start);
      if s == 0 then B - start else s
    else B - start
  }

  /**
   The ranges that the code cuts right: not those that start inside a block and end exactly at its end, and an empty
   one only at a block boundary above 0.
   */
  predicate Sound(offset: nat, size: nat) {
    if size == 0 then offset > 0 && offset % B == 0
    else !(offset % B > 0 && (offset + size) % B == 0 && First(offset) + 1 == Past(offset, size))
  }

  /** How much of the range lies before block i. */
  function Before(offset: nat, size: nat, i: nat): (r: nat)
    ensures r <= size
  {
    if i * B <= offset then 0 else if i * B - offset < size then i * B - offset else size
  }

  lemma {:induction false} RangeShape(offset: nat, size: nat)
    requires size > 0
    ensures var lo, hi := First(offset), Past(offset, size);
            lo < hi && lo * B <= offset < (lo + 1) * B && (hi - 1) * B < offset + size <= hi * B
  {
  }

  /** In a sound range every chunk is the part of the range inside its block. */
  lemma {:induction false} ChunkExact(offset: nat, size: nat, i: nat)
    requires Sound(offset, size) && First(offset) <= i < Past(offset, size)
    ensures size > 0
    ensures ChunkStart(offset, i) + i * B == offset + Before(offset, size, i)
    ensures ChunkSize(offset, size, i) == Before(offset, size, i + 1) - Before(offset, size, i)
    ensures 0 < ChunkSize(offset, size, i) <= B - ChunkStart(offset, i)
  {
    if size > 0 {
      RangeShape(offset, size);
    }
  }

  /** In any other range every chunk leaves its block, or is not empty although the range is. */
  lemma {:induction false} ChunkOverruns(offset: nat, size: nat, i: nat)
    requires !Sound(offset, size) && First(offset) <= i < Past(offset, size)
    ensures ChunkStart(offset, i) + ChunkSize(offset, size, i) > B || (size == 0 && ChunkSize(offset, size, i) > 0)
  {
  }
}
