/** The byte-stream transport: frames are written length-prefixed and read back whole. */
module ByteStreamTransport {
  import opened Base
  import opened Descriptor

  datatype Received = Closed | TooSmall | Truncated | Got(frame: Frame)

  /** What `send_frame` writes; the length field holds 32 bits. */
  ghost function Wire(d: Desc, payload: seq<byte>): seq<byte> {
    Bytes((DESC_SIZE + |payload|) % 0x1_0000_0000, 4) + Encode(d) + payload
  }

  /** The frame made of a descriptor and payload read from the stream. */
  function Arrive(d: Desc, payload: seq<byte>): (f: Frame)
    ensures f.Payload() == Some(payload) && (f.storage.InDescriptor? <==> |payload| <= INLINE_PAYLOAD_SIZE)
    ensures Describes(f) && SameHeader(d, f.desc)
    ensures f.desc.inlinePayload
            == if |payload| <= INLINE_PAYLOAD_SIZE then payload + d.inlinePayload[|payload|..] else d.inlinePayload
  {
    var d' := d.(payloadLen := |payload| % 0x1_0000_0000, payloadGeneration := 0, payloadOffset := 0);
    if |payload| <= INLINE_PAYLOAD_SIZE then
      Frame(d'.(payloadSlot := INLINE_PAYLOAD_SLOT, inlinePayload := payload + d.inlinePayload[|payload|..]),
          InDescriptor)
    else Frame(d'.(payloadSlot := 0), Outside(payload))
  }

  /** One `recv_frame` on a stream that ends after `b`: the outcome and what is left. */
  function Parse(b: seq<byte>): (r: (Received, seq<byte>))
    ensures r.0.Got? ==> |r.1| < |b|
  {
    if |b| < 4 then (Closed, [])
    else
      var len := U32At(b, 0);
      if len < DESC_SIZE then (TooSmall, b[4..])
      else if |b| < 4 + len then (Truncated, [])
      else (Got(Arrive(FromBytes(b[4..4 + DESC_SIZE]), b[4 + DESC_SIZE..4 + len])), b[4 + len..])
  }

  class StreamTransport {
    var closed: bool
    var writer: seq<byte>
    var reader: seq<byte>

    method SendFrame(f: Frame) returns (ok: bool)
      requires f.Payload().Some?
      modifies this`writer
      ensures ok <==> !closed
      ensures writer == if ok then old(writer) + Wire(f.desc, f.Payload().value) else old(writer)
    {
      if closed {
        return false;
      }
      var payload := f.Payload().value;
      var descBytes := ToBytes(f.desc);
      ghost var head := writer;
      writer := writer + Bytes((DESC_SIZE + |payload|) % 0x1_0000_0000, 4);
      writer := writer + descBytes[..];
      if payload != [] {
        writer := writer + payload;
      }
      assert writer == head + Wire(f.desc, payload);
      return true;
    }

    method RecvFrame() returns (r: Received)
      modifies this`reader
      ensures (r, reader) == if closed then (Closed, old(reader)) else Parse(old(reader))
    {
      if closed {
        return Closed;
      }
      if |reader| < 4 {
        reader := [];
        return Closed;
      }
      var len := U32At(reader, 0);
      ghost var b := reader;
      reader := reader[4..];
      if len < DESC_SIZE {
        return TooSmall;
      }
      if |reader| < len {
        reader := [];
        return Truncated;
      }
      assert reader[..DESC_SIZE] == b[4..4 + DESC_SIZE];
      assert reader[DESC_SIZE..len] == b[4 + DESC_SIZE..4 + len];
      var desc, payload := FromBytes(reader[..DESC_SIZE]), reader[DESC_SIZE..len];
      reader := reader[len..];
      return Got(Arrive(desc, payload));
    }
  }

  /** The peer gets the frame that was sent, and exactly it, unless its length overflows 32 bits. */
  lemma {:induction false} SentIsReceived(d: Desc, payload: seq<byte>, rest: seq<byte>)
    ensures Parse(Wire(d, payload) + rest) == (Got(Arrive(d, payload)), rest) <==> DESC_SIZE + |payload| < 0x1_0000_0000
  {
    hide Bytes, Value, Encode, FromBytes, Arrive;
    var len := (DESC_SIZE + |payload|) % 0x1_0000_0000;
    var b := Wire(d, payload) + rest;
    Widths();
    ValueOfBytes(len, 4);
    DecodeEncode(d);
    assert b[0..4] == Bytes(len, 4);
    assert b[4..4 + DESC_SIZE] == Encode(d);
    if len == DESC_SIZE + |payload| {
      assert b[4 + DESC_SIZE..4 + len] == payload;
      assert b[4 + len..] == rest;
    }
  }

  /** A frame whose descriptor matches its payload, small ones inside, arrives as it was. */
  lemma {:induction false} ArrivesUnchanged(f: Frame)
    requires Describes(f) && (f.storage.InDescriptor? <==> |f.Payload().value| <= INLINE_PAYLOAD_SIZE)
    ensures Arrive(f.desc, f.Payload().value) == f
  {
    var payload := f.Payload().value;
    if f.storage.InDescriptor? {
      assert payload + f.desc.inlinePayload[|payload|..] == f.desc.inlinePayload;
    }
  }

  /** A stream that breaks off inside a frame yields no frame: the break is noticed within the length or after it. */
  lemma {:induction false} BrokenOff(d: Desc, payload: seq<byte>, k: nat)
    requires DESC_SIZE + |payload| < 0x1_0000_0000 && k < |Wire(d, payload)|
    ensures Parse(Wire(d, payload)[..k]) == (if k < 4 then Closed else Truncated, [])
  {
    hide Bytes, Value, Encode, FromBytes, Arrive;
    var len := DESC_SIZE + |payload|;
    Widths();
    ValueOfBytes(len, 4);
    if k >= 4 {
      assert Wire(d, payload)[..k][0..4] == Bytes(len, 4);
    }
  }

  /** A length that cannot hold a descriptor is refused, and only the length field is consumed. */
  lemma {:induction false} ShortLengthRefused(len: u32, rest: seq<byte>)
    ensures Parse(Bytes(len, 4) + rest).0 == TooSmall <==> len < DESC_SIZE
    ensures len < DESC_SIZE ==> Parse(Bytes(len, 4) + rest).1 == rest
  {
    hide Bytes, Value, FromBytes, Arrive;
    Widths();
    ValueOfBytes(len, 4);
    assert (Bytes(len, 4) + rest)[0..4] == Bytes(len, 4);
  }

  predicate Fits(f: Frame) {
    f.Payload().Some? && DESC_SIZE + |f.Payload().value| < 0x1_0000_0000
  }

  ghost function WireAll(frames: seq<Frame>): seq<byte>
    requires forall k :: 0 <= k < |frames| ==> Fits(frames[k])
  {
    if frames == [] then []
    else assert Fits(frames[0]); Wire(frames[0].desc, frames[0].Payload().value) + WireAll(frames[1..])
  }

  lemma {:induction false} WireAppends(frames: seq<Frame>, last: Frame)
    requires Fits(last) && forall k :: 0 <= k < |frames| ==> Fits(frames[k])
    ensures WireAll(frames + [last]) == WireAll(frames) + Wire(last.desc, last.Payload().value)
  {
    hide Wire;
    if frames != [] {
      WireAppends(frames[1..], last);
      assert (frames + [last])[1..] == frames[1..] + [last];
    }
  }

  function ParseAll(b: seq<byte>): seq<Frame> {
    var (r, rest) := Parse(b);
    if r.Got? then [r.frame] + ParseAll(rest) else []
  }

  /** A stream of frames is read back frame by frame, in order. */
  lemma {:induction false} LinkPreserves(frames: seq<Frame>)
    requires forall k :: 0 <= k < |frames| ==> Fits(frames[k])
    ensures var got := ParseAll(WireAll(frames));
            && |got| == |frames|
            && forall k :: 0 <= k < |frames| ==> got[k] == Arrive(frames[k].desc, frames[k].Payload().value)
  {
    hide Wire, Parse, Arrive;
    if frames != [] {
      LinkPreserves(frames[1..]);
      assert Fits(frames[0]);
      SentIsReceived(frames[0].desc, frames[0].Payload().value, WireAll(frames[1..]));
    } else {
      NothingToParse();
    }
  }

  lemma {:induction false} NothingToParse()
    ensures !Parse([]).0.Got?
  {
  }
}
