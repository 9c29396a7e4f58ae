/** The serialization writer that moves to the heap when its pooled buffer is full. */
module PooledWriting {
  import opened Base

  /** A buffer and whether it came from the pool. */
  datatype PooledBuf = PooledBuf(bytes: seq<byte>, pooled: bool)

  class PooledWriter {
    const capacity: nat
    var buf: seq<byte>
    var overflow: Option<seq<byte>>
    /** Everything written so far. */
    ghost var written: seq<byte>

    /** All bytes written are in one place, the pooled buffer as long as they fit. */
    ghost predicate Valid()
      reads this
    {
      && (overflow.None? ==> buf == written && |written| <= capacity)
      && (overflow.Some? ==> overflow.value == written && |written| > capacity && |buf| <= capacity)
    }

    constructor (capacity: nat)
      ensures Valid() && this.capacity == capacity && written == []
    {
      this.capacity := capacity;
      buf, overflow, written := [], None, [];
    }

    method WriteByte(b: byte)
      requires Valid()
      modifies this
      ensures Valid() && written == old(written) + [b]
    {
      if overflow.Some? {
        overflow := Some(overflow.value + [b]);
      } else if |buf| < capacity {
        buf := buf + [b];
      } else {
        overflow := Some(buf + [b]);
      }
      written := written + [b];
    }

    method WriteBytes(bytes: seq<byte>)
      requires Valid()
      modifies this
      ensures Valid() && written == old(written) + bytes
    {
      if overflow.Some? {
        overflow := Some(overflow.value + bytes);
      } else if |buf| + |bytes| <= capacity {
        buf := buf + bytes;
      } else {
        overflow := Some(buf + bytes);
      }
      written := written + bytes;
    }

    /** The result holds exactly what was written, and left the pool exactly when it had to. */
    method IntoPooledBuf() returns (r: PooledBuf)
      requires Valid()
      ensures r.bytes == written && (r.pooled <==> |written| <= capacity)
    {
      if overflow.Some? {
        return PooledBuf(overflow.value, false);
      }
      return PooledBuf(buf, true);
    }
  }

  datatype Write = Byte(b: byte) | Bytes(bytes: seq<byte>)

  function Output(writes: seq<Write>): seq<byte> {
    if writes == [] then []
    else
      var last := writes[|writes| - 1];
      Output(writes[..|writes| - 1]) + (if last.Byte? then [last.b] else last.bytes)
  }

  /** Serializing any sequence of writes yields their concatenation, unpooled exactly if it exceeds the buffer. */
  method Serialize(capacity: nat, writes: seq<Write>) returns (r: PooledBuf)
    ensures r.bytes == Output(writes) && (r.pooled <==> |Output(writes)| <= capacity)
  {
    var w := new PooledWriter(capacity);
    for i := 0 to |writes|
      invariant fresh(w) && w.Valid() && w.capacity == capacity && w.written == Output(writes[..i])
    {
      assert writes[..i + 1][..i] == writes[..i];
      match writes[i]
      case Byte(b) => w.WriteByte(b);
      case Bytes(bytes) => w.WriteBytes(bytes);
    }
    assert writes[..|writes|] == writes;
    r := w.IntoPooledBuf();
  }
}
