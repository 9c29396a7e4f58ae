/**
 * The 64-byte message descriptor: its little-endian byte layout, written field by field
 * into a buffer, and the frames that carry their payload inside or beside it.
 */
module Descriptor {
  import opened Base
  import opened Bits

  const DESC_SIZE := 64
  const INLINE_PAYLOAD_SIZE := 16
  const INLINE_PAYLOAD_SLOT: u32 := 0xFFFF_FFFF
  const NO_DEADLINE: u64 := 0xFFFF_FFFF_FFFF_FFFF

  const DATA: u32 := 0x1
  const CONTROL: u32 := 0x2
  const EOS: u32 := 0x4
  const ERROR: u32 := 0x10
  const RESPONSE: u32 := 0x200

  type Inline = s: seq<byte> | |s| == INLINE_PAYLOAD_SIZE witness [0, 0, 0, 0, 0, 0, 0, 0, 0, 0, 0, 0, 0, 0, 0, 0]

  datatype Desc = Desc(
    msgId: u64,
    channelId: u32,
    methodId: u32,
    payloadSlot: u32,
    payloadGeneration: u32,
    payloadOffset: u32,
    payloadLen: u32,
    flags: u32,
    creditGrant: u32,
    deadlineNs: u64,
    inlinePayload: Inline)

  const NEW_DESC := Desc(0, 0, 0, INLINE_PAYLOAD_SLOT, 0, 0, 0, 0, 0, NO_DEADLINE,
      [0, 0, 0, 0, 0, 0, 0, 0, 0, 0, 0, 0, 0, 0, 0, 0])

  /** `FrameFlags::contains`. */
  function Has(flags: u32, flag: u32): bool {
    BitAnd(flags, flag) == flag
  }

  /** Bit `k` of `x`, counting from the lowest. */
  predicate BitSet(x: nat, k: nat) {
    if k == 0 then x % 2 == 1 else BitSet(x / 2, k - 1)
  }

  lemma {:induction false} MaskBit(x: nat, k: nat)
    ensures BitAnd(x, Pow2(k)) == if BitSet(x, k) then Pow2(k) else 0
  {
    if k > 0 {
      MaskBit(x / 2, k - 1);
      assert Pow2(k) / 2 == Pow2(k - 1) && Pow2(k) % 2 == 0;
    } else {
      assert BitAnd(x / 2, 0) == 0;
    }
  }

  /** Each flag is one bit of the word, and a frame contains it exactly if that bit is set. */
  lemma {:induction false} FlagIsBit(flags: u32)
    ensures Has(flags, DATA) <==> BitSet(flags, 0)
    ensures Has(flags, CONTROL) <==> BitSet(flags, 1)
    ensures Has(flags, EOS) <==> BitSet(flags, 2)
    ensures Has(flags, ERROR) <==> BitSet(flags, 4)
    ensures Has(flags, RESPONSE) <==> BitSet(flags, 9)
  {
    FlagValues();
    MaskBit(flags, 0);
    MaskBit(flags, 1);
    MaskBit(flags, 2);
    MaskBit(flags, 4);
    MaskBit(flags, 9);
    hide BitAnd, BitSet, Pow2;
  }

  lemma {:induction false} FlagValues()
    ensures Pow2(0) == DATA && Pow2(1) == CONTROL && Pow2(2) == EOS && Pow2(4) == ERROR && Pow2(9) == RESPONSE
  {
    assert Pow2(3) == 8 && Pow2(4) == 16;
    assert Pow2(7) == 8 * Pow2(4) && Pow2(9) == 4 * Pow2(7);
  }

  /** Containing two flags is containing each. */
  lemma {:induction false} HasBoth(flags: u32)
    ensures BitOr(DATA, EOS) == DATA + EOS
    ensures Has(flags, DATA + EOS) <==> Has(flags, DATA) && Has(flags, EOS)
  {
    MaskBit(flags, 0);
    MaskBit(flags, 2);
    MaskBit(flags / 2, 1);
    FlagValues();
    assert BitOr(0, 2) == 2;
  }

  // ------------------------------------------------------------------- little endian

  function Pow256(n: nat): (p: nat)
    ensures p > 0
  {
    if n == 0 then 1 else 0x100 * Pow256(n - 1)
  }

  /** The `n` low bytes of `v`, least significant first. */
  function Bytes(v: nat, n: nat): (s: seq<byte>)
    ensures |s| == n
  {
    if n == 0 then [] else [v % 0x100] + Bytes(v / 0x100, n - 1)
  }

  function Value(s: seq<byte>): (v: nat)
    ensures v < Pow256(|s|)
  {
    if s == [] then 0 else s[0] + 0x100 * Value(s[1..])
  }

  lemma {:induction false} ValueOfBytes(v: nat, n: nat)
    requires v < Pow256(n)
    ensures Value(Bytes(v, n)) == v
  {
    if n > 0 {
      ValueOfBytes(v / 0x100, n - 1);
      assert Bytes(v, n)[1..] == Bytes(v / 0x100, n - 1);
    }
  }

  lemma {:induction false} BytesOfValue(s: seq<byte>)
    ensures Bytes(Value(s), |s|) == s
  {
    if s != [] {
      BytesOfValue(s[1..]);
      LowByte(s[0], Value(s[1..]));
      hide Pow256;
      assert s == [s[0]] + s[1..];
    }
  }

  lemma {:induction false} LowByte(low: byte, high: nat)
    ensures (low + 0x100 * high) % 0x100 == low && (low + 0x100 * high) / 0x100 == high
  {
  }

  lemma {:induction false} Widths()
    ensures Pow256(4) == 0x1_0000_0000 && Pow256(8) == 0x1_0000_0000_0000_0000
  {
    assert Pow256(4) == 0x100 * 0x100 * 0x100 * 0x100;
    assert Pow256(8) == 0x100 * 0x100 * 0x100 * 0x100 * Pow256(4);
  }

  function U32At(b: seq<byte>, i: nat): (v: u32)
    requires i + 4 <= |b|
  {
    Widths();
    Value(b[i..i + 4])
  }

  function U64At(b: seq<byte>, i: nat): (v: u64)
    requires i + 8 <= |b|
  {
    Widths();
    Value(b[i..i + 8])
  }

  // --------------------------------------------------------------------------- codec

  ghost function Encode(d: Desc): (b: seq<byte>)
    ensures |b| == DESC_SIZE
  {
    Bytes(d.msgId, 8) + Bytes(d.channelId, 4) + Bytes(d.methodId, 4)
    + Bytes(d.payloadSlot, 4) + Bytes(d.payloadGeneration, 4) + Bytes(d.payloadOffset, 4) + Bytes(d.payloadLen, 4)
    + Bytes(d.flags, 4) + Bytes(d.creditGrant, 4) + Bytes(d.deadlineNs, 8) + d.inlinePayload
  }

  function FromBytes(b: seq<byte>): Desc
    requires |b| == DESC_SIZE
  {
    Desc(U64At(b, 0), U32At(b, 8), U32At(b, 12), U32At(b, 16), U32At(b, 20), U32At(b, 24), U32At(b, 28),
         U32At(b, 32), U32At(b, 36), U64At(b, 40), b[48..64])
  }

  method CopyFromSlice(buf: array<byte>, at: nat, src: seq<byte>)
    requires at + |src| <= buf.Length
    modifies buf
    ensures buf[..at + |src|] == old(buf[..at]) + src
    ensures buf[at + |src|..] == old(buf[at + |src|..])
  {
    for i := 0 to |src|
      invariant buf[..at + i] == old(buf[..at]) + src[..i]
      invariant buf[at + i..] == old(buf[at + i..])
    {
      ghost var before := buf[..];
      buf[at + i] := src[i];
      assert buf[..at + i + 1] == before[..at + i] + [src[i]];
      assert src[..i + 1] == src[..i] + [src[i]];
    }
  }

  method ToBytes(d: Desc) returns (buf: array<byte>)
    ensures fresh(buf) && buf[..] == Encode(d)
  {
    buf := new byte[DESC_SIZE](_ => 0);
    CopyFromSlice(buf, 0, Bytes(d.msgId, 8));
    CopyFromSlice(buf, 8, Bytes(d.channelId, 4));
    CopyFromSlice(buf, 12, Bytes(d.methodId, 4));
    CopyFromSlice(buf, 16, Bytes(d.payloadSlot, 4));
    CopyFromSlice(buf, 20, Bytes(d.payloadGeneration, 4));
    CopyFromSlice(buf, 24, Bytes(d.payloadOffset, 4));
    CopyFromSlice(buf, 28, Bytes(d.payloadLen, 4));
    CopyFromSlice(buf, 32, Bytes(d.flags, 4));
    CopyFromSlice(buf, 36, Bytes(d.creditGrant, 4));
    CopyFromSlice(buf, 40, Bytes(d.deadlineNs, 8));
    CopyFromSlice(buf, 48, d.inlinePayload);
    assert buf[..] == buf[..64];
  }

  /** Decoding inverts encoding ... */
  lemma {:induction false} DecodeEncode(d: Desc)
    ensures FromBytes(Encode(d)) == d
  {
    hide Bytes, Value;
    Widths();
    ValueOfBytes(d.msgId, 8);
    ValueOfBytes(d.channelId, 4);
    ValueOfBytes(d.methodId, 4);
    ValueOfBytes(d.payloadSlot, 4);
    ValueOfBytes(d.payloadGeneration, 4);
    ValueOfBytes(d.payloadOffset, 4);
    ValueOfBytes(d.payloadLen, 4);
    ValueOfBytes(d.flags, 4);
    ValueOfBytes(d.creditGrant, 4);
    ValueOfBytes(d.deadlineNs, 8);
    Layout(d);
  }

  /** ... and encoding inverts decoding: every 64 bytes are the encoding of one descriptor. */
  lemma {:induction false} EncodeDecode(b: seq<byte>)
    requires |b| == DESC_SIZE
    ensures Encode(FromBytes(b)) == b
  {
    hide Bytes, Value;
    BytesOfValue(b[0..8]);
    BytesOfValue(b[8..12]);
    BytesOfValue(b[12..16]);
    BytesOfValue(b[16..20]);
    BytesOfValue(b[20..24]);
    BytesOfValue(b[24..28]);
    BytesOfValue(b[28..32]);
    BytesOfValue(b[32..36]);
    BytesOfValue(b[36..40]);
    BytesOfValue(b[40..48]);
    assert b == b[0..8] + b[8..12] + b[12..16] + b[16..20] + b[20..24] + b[24..28] + b[28..32]
                + b[32..36] + b[36..40] + b[40..48] + b[48..64];
  }

  /** Four bytes of a number are its base-256 digits, least significant first. */
  lemma {:induction false} LittleEndian(v: u32)
    ensures Bytes(v, 4) == [v % 0x100, v / 0x100 % 0x100, v / 0x1_0000 % 0x100, v / 0x100_0000]
  {
    assert v / 0x100 / 0x100 == v / 0x1_0000 && v / 0x1_0000 / 0x100 == v / 0x100_0000;
    assert Bytes(v, 4) == [v % 0x100] + Bytes(v / 0x100, 3);
    assert Bytes(v / 0x100, 3) == [v / 0x100 % 0x100] + Bytes(v / 0x1_0000, 2);
    assert Bytes(v / 0x1_0000, 2) == [v / 0x1_0000 % 0x100] + Bytes(v / 0x100_0000, 1);
  }

  /** Where each field of the descriptor lies among the 64 bytes. */
  lemma {:induction false} Layout(d: Desc)
    ensures var b := Encode(d);
            && b[0..8] == Bytes(d.msgId, 8)
            && b[8..12] == Bytes(d.channelId, 4)
            && b[12..16] == Bytes(d.methodId, 4)
            && b[16..20] == Bytes(d.payloadSlot, 4)
            && b[20..24] == Bytes(d.payloadGeneration, 4)
            && b[24..28] == Bytes(d.payloadOffset, 4)
            && b[28..32] == Bytes(d.payloadLen, 4)
            && b[32..36] == Bytes(d.flags, 4)
            && b[36..40] == Bytes(d.creditGrant, 4)
            && b[40..48] == Bytes(d.deadlineNs, 8)
            && b[48..64] == d.inlinePayload
  {
    hide Bytes;
  }

  /** The descriptor of the compliance document's test vector: a small request with payload "Hello". */
  const SAMPLE := Desc(1, 1, 0x1234_5678, INLINE_PAYLOAD_SLOT, 0, 0, 5, 5, 0, 0,
      [0x48, 0x65, 0x6c, 0x6c, 0x6f, 0, 0, 0, 0, 0, 0, 0, 0, 0, 0, 0])

  lemma {:induction false} SampleBytes()
    ensures var b := Encode(SAMPLE);
            && b[0x00..0x08] == [1, 0, 0, 0, 0, 0, 0, 0]
            && b[0x08..0x0c] == [1, 0, 0, 0]
            && b[0x0c..0x10] == [0x78, 0x56, 0x34, 0x12]
            && b[0x10..0x14] == [0xff, 0xff, 0xff, 0xff]
            && b[0x14..0x18] == b[0x18..0x1c] == [0, 0, 0, 0]
            && b[0x1c..0x20] == b[0x20..0x24] == [5, 0, 0, 0]
            && b[0x24..0x28] == [0, 0, 0, 0]
            && b[0x28..0x30] == [0, 0, 0, 0, 0, 0, 0, 0]
            && b[0x30..0x40] == [0x48, 0x65, 0x6c, 0x6c, 0x6f, 0, 0, 0, 0, 0, 0, 0, 0, 0, 0, 0]
  {
    hide Bytes, Encode;
    Layout(SAMPLE);
    LittleEndian(0);
    LittleEndian(1);
    LittleEndian(5);
    LittleEndian(0x1234_5678);
    LittleEndian(INLINE_PAYLOAD_SLOT);
    ZeroBytes(1);
    ZeroBytes(0);
  }

  /** A number below 256 is its low byte and seven zeros. */
  lemma {:induction false} ZeroBytes(v: byte)
    ensures Bytes(v, 8) == [v, 0, 0, 0, 0, 0, 0, 0]
  {
    assert Bytes(v, 8) == [v] + Bytes(0, 7);
    assert Bytes(0, 7) == [0, 0, 0] + Bytes(0, 4);
    LittleEndian(0);
  }

  // -------------------------------------------------------------------------- frames

  datatype Storage = InDescriptor | Outside(bytes: seq<byte>)

  datatype Frame = Frame(desc: Desc, storage: Storage)
  {
    /** The payload; `None` where slicing the 16 inline bytes panics. */
    function Payload(): Option<seq<byte>> {
      match storage
      case InDescriptor =>
        if desc.payloadLen <= INLINE_PAYLOAD_SIZE then Some(desc.inlinePayload[..desc.payloadLen]) else None
      case Outside(bytes) => Some(bytes)
    }
  }

  /** The descriptor says where the payload is and, in 32 bits, how long it is. */
  predicate Describes(f: Frame) {
    && f.Payload().Some? && f.desc.payloadLen == |f.Payload().value| % 0x1_0000_0000
    && f.desc.payloadSlot == (if f.storage.InDescriptor? then INLINE_PAYLOAD_SLOT else 0)
    && f.desc.payloadGeneration == 0 && f.desc.payloadOffset == 0
  }

  /** The fields that no payload touches. */
  predicate SameHeader(d: Desc, e: Desc) {
    && d.msgId == e.msgId && d.channelId == e.channelId && d.methodId == e.methodId
    && d.flags == e.flags && d.creditGrant == e.creditGrant && d.deadlineNs == e.deadlineNs
  }

  function WithInlinePayload(d: Desc, payload: seq<byte>): (f: Option<Frame>)
    ensures f.Some? <==> |payload| <= INLINE_PAYLOAD_SIZE
    ensures f.Some? ==> f.value.Payload() == Some(payload) && f.value.storage.InDescriptor?
    ensures f.Some? ==> Describes(f.value) && SameHeader(d, f.value.desc)
    ensures f.Some? ==> f.value.desc.inlinePayload[|payload|..] == d.inlinePayload[|payload|..]
  {
    if |payload| > INLINE_PAYLOAD_SIZE then None
    else Some(Frame(d.(payloadSlot := INLINE_PAYLOAD_SLOT, payloadGeneration := 0, payloadOffset := 0,
                       payloadLen := |payload|, inlinePayload := payload + d.inlinePayload[|payload|..]), InDescriptor))
  }

  function WithPooledPayload(d: Desc, payload: seq<byte>): (f: Frame)
    ensures f.Payload() == Some(payload) && f.storage.Outside?
    ensures Describes(f) && SameHeader(d, f.desc) && f.desc.inlinePayload == d.inlinePayload
  {
    Frame(d.(payloadSlot := 0, payloadGeneration := 0, payloadOffset := 0,
             payloadLen := |payload| % 0x1_0000_0000), Outside(payload))
  }
}
