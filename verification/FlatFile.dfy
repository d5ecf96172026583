/** The flat dfs_write of src/main.c:352-370, the simple form that the block store refines. */
module FlatFiles {
  import opened Bytes
  import opened Disks

  /** What a flat write leaves, where bytes between the old end and the offset are zero. */
  function FlatWrite(c: seq<byte>, buf: seq<byte>, offset: nat): (r: seq<byte>)
    ensures |r| == if offset + |buf| > |c| then offset + |buf| else |c|
  {
    Splice(if offset + |buf| > |c| then c + Blank(offset + |buf| - |c|) else c, offset, buf)
  }

  /** Byte by byte: the buffer in its range, the old bytes outside it, and zero in the gap. */
  lemma FlatBytes(c: seq<byte>, buf: seq<byte>, offset: nat, k: nat)
    requires k < |FlatWrite(c, buf, offset)|
    ensures FlatWrite(c, buf, offset)[k] ==
            if offset <= k < offset + |buf| then buf[k - offset] else if k < |c| then c[k] else 0
  {
  }

  class FlatFile {
    const isFile: bool
    var data: array<byte>
    var size: nat

    ghost predicate Valid()
      reads this
    {
      data.Length == size
    }

    constructor (isFile: bool)
      ensures Valid() && data[..] == [] && fresh(data) && this.isFile == isFile
    {
      this.isFile, data, size := isFile, new byte[0], 0;
    }

    /** realloc leaves a gap between the old end and the offset unspecified; all other bytes are those of FlatWrite. */
    method Write(buf: seq<byte>, offset: nat) returns (result: int)
      requires Valid()
      modifies this, data
      ensures Valid() && (data == old(data) || fresh(data))
      ensures !isFile ==> result == -1 && data == old(data) && data[..] == old(data[..])
      ensures isFile ==>
                && result == |buf|
                && size == |FlatWrite(old(data[..]), buf, offset)|
                && forall k | 0 <= k < size && !(old(size) <= k < offset) ::
                     data[k] == FlatWrite(old(data[..]), buf, offset)[k]
    {
      if !isFile {
        return -1;
      }
      ghost var c := data[..];
      var newSize := offset + |buf|;
      if newSize > size {
        var grown := new byte[newSize];
        forall k | 0 <= k < size {
          grown[k] := data[k];
        }
        data := grown;
        size := newSize;
      }
      forall k | 0 <= k < |buf| {
        data[offset + k] := buf[k];
      }
      result := |buf|;
    }
  }
}
