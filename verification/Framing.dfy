/**
 * Length-prefixed framing over a pipe: frames are parsed out of data events that split
 * the byte stream anywhere, and handed to receive calls in order.
 */
module Framing {
  import opened Base
  import opened Descriptor

  /** A frame of this endpoint; its payload field stays empty for inline payloads. */
  datatype PipeFrame = PipeFrame(desc: Desc, payload: seq<byte>)

  datatype Parsed = NeedMore | TooShort | Got(frame: PipeFrame, remaining: seq<byte>)

  function ReadFrame(b: seq<byte>): (p: Parsed)
    ensures p.Got? ==> |p.remaining| < |b|
  {
    if |b| < 4 then NeedMore
    else
      var total := U32At(b, 0);
      if |b| < 4 + total then NeedMore
      else if total < DESC_SIZE then TooShort
      else Got(PipeFrame(FromBytes(b[4..4 + DESC_SIZE]), b[4 + DESC_SIZE..4 + total]), b[4 + total..])
  }

  /** The payload bytes that follow the descriptor. */
  function External(f: PipeFrame): seq<byte> {
    if f.desc.payloadSlot == INLINE_PAYLOAD_SLOT then [] else f.payload
  }

  predicate WellFormed(f: PipeFrame) {
    DESC_SIZE + |External(f)| < 0x1_0000_0000
  }

  ghost function Framed(f: PipeFrame): (b: seq<byte>)
    ensures |b| == 4 + DESC_SIZE + |External(f)|
  {
    Bytes(DESC_SIZE + |External(f)|, 4) + Encode(f.desc) + External(f)
  }

  /** Writing fails exactly when the length does not fit its 32 bits. */
  method WriteFrame(f: PipeFrame) returns (r: Result<array<byte>, string>)
    ensures r.Ok? <==> WellFormed(f)
    ensures r.Ok? ==> fresh(r.value) && r.value[..] == Framed(f)
  {
    hide Bytes, Encode;
    var descBytes := ToBytes(f.desc);
    var payload := if f.desc.payloadSlot == INLINE_PAYLOAD_SLOT then [] else f.payload;
    var total := DESC_SIZE + |payload|;
    if total >= 0x1_0000_0000 {
      return Err("value out of range");
    }
    var buffer := new byte[4 + total](_ => 0);
    CopyFromSlice(buffer, 0, Bytes(total, 4));
    CopyFromSlice(buffer, 4, descBytes[..]);
    if |payload| > 0 {
      CopyFromSlice(buffer, 4 + DESC_SIZE, payload);
    }
    assert buffer[..] == buffer[..4 + DESC_SIZE + |payload|];
    return Ok(buffer);
  }

  lemma {:induction false} ReadWritten(f: PipeFrame, rest: seq<byte>)
    requires WellFormed(f)
    ensures ReadFrame(Framed(f) + rest) == Got(f.(payload := External(f)), rest)
  {
    hide Bytes, Value, Encode, FromBytes;
    var total := DESC_SIZE + |External(f)|;
    var b := Framed(f) + rest;
    Widths();
    ValueOfBytes(total, 4);
    DecodeEncode(f.desc);
    assert b[0..4] == Bytes(total, 4);
    assert b[4..4 + DESC_SIZE] == Encode(f.desc);
    assert b[4 + DESC_SIZE..4 + total] == External(f);
    assert b[4 + total..] == rest;
  }

  /** A frame survives the pipe exactly when it does not carry bytes beside an inline payload. */
  lemma {:induction false} RoundTrip(f: PipeFrame, rest: seq<byte>)
    requires WellFormed(f)
    ensures ReadFrame(Framed(f) + rest) == Got(f, rest) <==>
        !(f.desc.payloadSlot == INLINE_PAYLOAD_SLOT && f.payload != [])
  {
    hide ReadFrame, Framed;
    ReadWritten(f, rest);
  }

  /** Bytes behind a length field are waited for first; only then is a length below 64 an error. */
  lemma {:induction false} LengthDecides(total: u32, body: seq<byte>)
    ensures ReadFrame(Bytes(total, 4) + body).NeedMore? <==> |body| < total
    ensures ReadFrame(Bytes(total, 4) + body).TooShort? <==> |body| >= total && total < DESC_SIZE
  {
    hide Bytes, Value, FromBytes;
    Widths();
    ValueOfBytes(total, 4);
    assert (Bytes(total, 4) + body)[0..4] == Bytes(total, 4);
  }

  // ------------------------------------------------------------------- fragmentation

  datatype Drained = Drained(frames: seq<PipeFrame>, rest: seq<byte>, threw: bool)

  /** Parse as many frames as have arrived. */
  function Drain(b: seq<byte>): Drained {
    match ReadFrame(b)
    case NeedMore => Drained([], b, false)
    case TooShort => Drained([], b, true)
    case Got(frame, remaining) =>
      var more := Drain(remaining);
      more.(frames := [frame] + more.frames)
  }

  /** More bytes behind a complete frame do not change it. */
  lemma {:induction false} ReadMore(b: seq<byte>, more: seq<byte>)
    requires !ReadFrame(b).NeedMore?
    ensures var p := ReadFrame(b);
            ReadFrame(b + more) == if p.Got? then Got(p.frame, p.remaining + more) else TooShort
  {
    hide FromBytes, Value;
    var all, total := b + more, U32At(b, 0);
    assert all[0..4] == b[0..4];
    if total >= DESC_SIZE {
      assert all[4..4 + DESC_SIZE] == b[4..4 + DESC_SIZE];
      assert all[4 + DESC_SIZE..4 + total] == b[4 + DESC_SIZE..4 + total];
      assert all[4 + total..] == b[4 + total..] + more;
    }
  }

  /** Draining what has arrived and then what was left with more is draining all at once. */
  lemma {:induction false} DrainInParts(b: seq<byte>, more: seq<byte>)
    ensures var first := Drain(b); var second := Drain(first.rest + more);
            Drain(b + more) == second.(frames := first.frames + second.frames)
    decreases |b|
  {
    hide ReadFrame;
    if ReadFrame(b).Got? {
      var p := ReadFrame(b);
      ReadMore(b, more);
      DrainInParts(p.remaining, more);
      var first := Drain(p.remaining);
      var second := Drain(first.rest + more);
      assert Drain(b).rest == first.rest;
      assert [p.frame] + (first.frames + second.frames) == ([p.frame] + first.frames) + second.frames;
    }
  }

  lemma {:induction false} RestIsStuck(b: seq<byte>)
    ensures ReadFrame(Drain(b).rest) == if Drain(b).threw then TooShort else NeedMore
    decreases |b|
  {
    hide ReadFrame;
    if ReadFrame(b).Got? {
      RestIsStuck(ReadFrame(b).remaining);
    }
  }

  /** A frame too short to hold a descriptor blocks the stream for good. */
  lemma {:induction false} TooShortIsFinal(b: seq<byte>, more: seq<byte>)
    requires Drain(b).threw
    ensures Drain(b + more) == Drained(Drain(b).frames, Drain(b).rest + more, true)
  {
    hide ReadFrame;
    DrainInParts(b, more);
    RestIsStuck(b);
    ReadMore(Drain(b).rest, more);
  }

  ghost function FramedAll(frames: seq<PipeFrame>): seq<byte> {
    if frames == [] then [] else Framed(frames[0]) + FramedAll(frames[1..])
  }

  ghost predicate AllWellFormed(frames: seq<PipeFrame>) {
    forall k :: 0 <= k < |frames| ==> WellFormed(frames[k])
  }

  /** How many of the frames have fully arrived with the first `n` bytes. */
  ghost function Complete(frames: seq<PipeFrame>, n: nat): (k: nat)
    ensures k <= |frames| && |FramedAll(frames[..k])| <= n
    ensures k < |frames| ==> n < |FramedAll(frames[..k + 1])|
  {
    if frames == [] then 0
    else if n < |Framed(frames[0])| then
      FramedPrefix(frames, 0);
      0
    else
      var k := Complete(frames[1..], n - |Framed(frames[0])|);
      CompleteNext(frames, n, k);
      k + 1
  }

  lemma {:induction false} CompleteNext(frames: seq<PipeFrame>, n: nat, k: nat)
    requires k < |frames| && |Framed(frames[0])| <= n && |FramedAll(frames[1..][..k])| <= n - |Framed(frames[0])|
    requires k < |frames| - 1 ==> n - |Framed(frames[0])| < |FramedAll(frames[1..][..k + 1])|
    ensures |FramedAll(frames[..k + 1])| <= n
    ensures k + 1 < |frames| ==> n < |FramedAll(frames[..k + 2])|
  {
    hide Framed, FramedAll;
    FramedPrefix(frames, k);
    if k + 1 < |frames| {
      FramedPrefix(frames, k + 1);
    }
  }

  lemma {:induction false} FramedPrefix(frames: seq<PipeFrame>, k: nat)
    requires k < |frames|
    ensures FramedAll(frames[..k + 1]) == Framed(frames[0]) + FramedAll(frames[1..][..k])
    ensures FramedAll(frames[..0]) == []
  {
    hide Framed;
    assert frames[..k + 1][1..] == frames[1..][..k];
  }

  ghost function OnTheWire(f: PipeFrame): PipeFrame {
    f.(payload := External(f))
  }

  lemma {:induction false} PartialFrame(f: PipeFrame, rest: seq<byte>, n: nat)
    requires WellFormed(f) && n < |Framed(f)|
    ensures ReadFrame((Framed(f) + rest)[..n]).NeedMore?
  {
    hide Bytes, Value, Encode;
    var b := (Framed(f) + rest)[..n];
    if n >= 4 {
      Widths();
      ValueOfBytes(DESC_SIZE + |External(f)|, 4);
      assert b[0..4] == Bytes(DESC_SIZE + |External(f)|, 4);
    }
  }

  /** After any number of bytes exactly the frames that have fully arrived were parsed. */
  lemma {:induction false} ParsesWhatArrived(frames: seq<PipeFrame>, n: nat)
    requires AllWellFormed(frames) && n <= |FramedAll(frames)|
    ensures var k, b := Complete(frames, n), FramedAll(frames)[..n]; var d := Drain(b);
            && !d.threw && |d.frames| == k && (forall i :: 0 <= i < k ==> d.frames[i] == OnTheWire(frames[i]))
            && d.rest == b[|FramedAll(frames[..k])|..]
  {
    hide ReadFrame, Framed, External;
    var k, b := Complete(frames, n), FramedAll(frames)[..n];
    if frames == [] {
      EmptyBuffer();
    } else {
      var size, tail := |Framed(frames[0])|, FramedAll(frames[1..]);
      assert WellFormed(frames[0]);
      if n < size {
        PartialFrame(frames[0], tail, n);
        assert b[|FramedAll(frames[..k])|..] == b;
      } else {
        ParsesWhatArrived(frames[1..], n - size);
        assert b == Framed(frames[0]) + tail[..n - size];
        ReadWritten(frames[0], tail[..n - size]);
        var rest := Drain(tail[..n - size]);
        assert Drain(b).frames == [OnTheWire(frames[0])] + rest.frames;
        assert frames[..k][1..] == frames[1..][..k - 1];
        assert b[|FramedAll(frames[..k])|..] == tail[..n - size][|FramedAll(frames[1..][..k - 1])|..];
      }
    }
  }

  lemma {:induction false} EmptyBuffer()
    ensures ReadFrame([]).NeedMore?
  {
  }

  /** All bytes of all frames leave nothing over. */
  lemma {:induction false} ParsesAll(frames: seq<PipeFrame>)
    requires AllWellFormed(frames)
    ensures var d := Drain(FramedAll(frames));
            && !d.threw && d.rest == [] && |d.frames| == |frames|
            && forall i :: 0 <= i < |frames| ==> d.frames[i] == OnTheWire(frames[i])
  {
    hide Framed, Drain, OnTheWire;
    var n := |FramedAll(frames)|;
    CompleteAll(frames);
    ParsesWhatArrived(frames, n);
    assert FramedAll(frames)[..n] == FramedAll(frames) && frames[..|frames|] == frames;
  }

  lemma {:induction false} CompleteAll(frames: seq<PipeFrame>)
    ensures Complete(frames, |FramedAll(frames)|) == |frames|
  {
    hide Framed;
    if frames != [] {
      CompleteAll(frames[1..]);
    }
  }

  // -------------------------------------------------------------------------- runner

  ghost predicate Matched(
      frames: seq<PipeFrame>, queue: seq<PipeFrame>, waiters: seq<nat>, calls: nat, resolved: map<nat, PipeFrame>)
  {
    && (forall i: nat :: i in resolved <==> i < |frames| && i < calls)
    && (forall i :: i in resolved ==> resolved[i] == frames[i])
    && (if calls <= |frames| then waiters == [] && queue == frames[calls..]
        else queue == [] && |waiters| == calls - |frames|
             && forall j :: 0 <= j < |waiters| ==> waiters[j] == |frames| + j)
  }

  class ConformanceRunner {
    var buffer: seq<byte>
    var frameQueue: seq<PipeFrame>
    var waiters: seq<nat>
    /** The number of receive calls made, and the frames that resolved them. */
    var calls: nat
    var resolved: map<nat, PipeFrame>
    ghost var input: seq<byte>
    ghost var frames: seq<PipeFrame>

    /** Receive call `i` gets the `i`-th frame of the input, however the input was split. */
    ghost predicate Valid()
      reads this
    {
      && Matched(frames, frameQueue, waiters, calls, resolved)
      && Drain(input).frames == frames && Drain(input).rest == buffer
    }

    constructor ()
      ensures Valid() && input == [] && calls == 0
    {
      buffer, frameQueue, waiters, calls, resolved := [], [], [], 0, map[];
      input, frames := [], [];
      new;
      EmptyBuffer();
    }

    /** A data event; `false` is the error thrown at a frame shorter than its descriptor. */
    method OnData(data: seq<byte>) returns (ok: bool)
      requires Valid()
      modifies this
      ensures Valid() && input == old(input) + data && calls == old(calls)
      ensures ok <==> !Drain(input).threw
    {
      DrainInParts(input, data);
      ghost var before := frames;
      buffer := buffer + data;
      input := input + data;
      ok := ProcessBuffer();
      assert frames == Drain(input).frames;
    }

    method ProcessBuffer() returns (ok: bool)
      requires Matched(frames, frameQueue, waiters, calls, resolved)
      modifies this
      ensures Matched(frames, frameQueue, waiters, calls, resolved)
      ensures var d := Drain(old(buffer)); frames == old(frames) + d.frames && buffer == d.rest && ok == !d.threw
      ensures input == old(input) && calls == old(calls)
    {
      hide ReadFrame;
      ghost var d := Drain(buffer);
      while true
        invariant Matched(frames, frameQueue, waiters, calls, resolved)
        invariant input == old(input) && calls == old(calls)
        invariant var rest := Drain(buffer);
                  d.rest == rest.rest && d.threw == rest.threw && old(frames) + d.frames == frames + rest.frames
        decreases |buffer|
      {
        match ReadFrame(buffer)
        case NeedMore => return true;
        case TooShort => return false;
        case Got(frame, remaining) =>
          ghost var rest := Drain(remaining);
          assert frames + ([frame] + rest.frames) == (frames + [frame]) + rest.frames;
          HandOver(frames, frameQueue, waiters, calls, resolved, frame);
          buffer := remaining;
          frames := frames + [frame];
          if waiters != [] {
            resolved := resolved[waiters[0] := frame];
            waiters := waiters[1..];
          } else {
            frameQueue := frameQueue + [frame];
          }
      }
    }

    /** The call's number; it is resolved now or by a later frame. */
    method Recv() returns (call: nat)
      requires Valid()
      modifies this
      ensures Valid() && input == old(input) && call == old(calls) && calls == call + 1
    {
      hide Matched, Drain;
      CallMade(frames, frameQueue, waiters, calls, resolved);
      call := calls;
      calls := calls + 1;
      if frameQueue != [] {
        resolved := resolved[call := frameQueue[0]];
        frameQueue := frameQueue[1..];
      } else {
        waiters := waiters + [call];
      }
    }
  }

  lemma {:induction false} HandOver(
      frames: seq<PipeFrame>, queue: seq<PipeFrame>, waiters: seq<nat>, calls: nat, resolved: map<nat, PipeFrame>,
      frame: PipeFrame)
    requires Matched(frames, queue, waiters, calls, resolved)
    ensures waiters == [] ==> Matched(frames + [frame], queue + [frame], waiters, calls, resolved)
    ensures waiters != [] ==> Matched(frames + [frame], queue, waiters[1..], calls, resolved[waiters[0] := frame])
  {
  }

  lemma {:induction false} CallMade(
      frames: seq<PipeFrame>, queue: seq<PipeFrame>, waiters: seq<nat>, calls: nat, resolved: map<nat, PipeFrame>)
    requires Matched(frames, queue, waiters, calls, resolved)
    ensures queue != [] ==> Matched(frames, queue[1..], waiters, calls + 1, resolved[calls := queue[0]])
    ensures queue == [] ==> Matched(frames, queue, waiters + [calls], calls + 1, resolved)
  {
  }

  // ---------------------------------------------------------------------------- runs

  datatype Event = Data(bytes: seq<byte>) | Receive

  function Joined(events: seq<Event>): seq<byte> {
    if events == [] then []
    else
      var front, last := Joined(events[..|events| - 1]), events[|events| - 1];
      if last.Data? then front + last.bytes else front
  }

  function Receives(events: seq<Event>): nat {
    if events == [] then 0
    else Receives(events[..|events| - 1]) + (if events[|events| - 1].Receive? then 1 else 0)
  }

  /** With `k` frames of `sent` arrived, receive call `i` has frame `i` and the frames not asked for wait in order. */
  ghost predicate Served(
      sent: seq<PipeFrame>, k: nat, queue: seq<PipeFrame>, waiters: seq<nat>, calls: nat, resolved: map<nat, PipeFrame>)
    requires k <= |sent|
  {
    && (forall i: nat :: i in resolved <==> i < k && i < calls)
    && (forall i: nat :: i in resolved ==> resolved[i] == OnTheWire(sent[i]))
    && (if calls <= k then
          waiters == [] && |queue| == k - calls
          && forall i :: 0 <= i < |queue| ==> queue[i] == OnTheWire(sent[calls + i])
        else queue == [] && |waiters| == calls - k && forall j :: 0 <= j < |waiters| ==> waiters[j] == k + j)
  }

  lemma {:induction false} MatchedIsServed(
      sent: seq<PipeFrame>, frames: seq<PipeFrame>, queue: seq<PipeFrame>, waiters: seq<nat>, calls: nat,
      resolved: map<nat, PipeFrame>)
    requires Matched(frames, queue, waiters, calls, resolved) && |frames| <= |sent|
    requires forall i :: 0 <= i < |frames| ==> frames[i] == OnTheWire(sent[i])
    ensures Served(sent, |frames|, queue, waiters, calls, resolved)
  {
  }

  /**
   * However the encodings of well-formed frames are split into data events, and whenever
   * the receive calls are made, call `i` is resolved by frame `i` if both exist, the
   * frames not asked for are queued in order, and the buffer holds what is incomplete.
   */
  method Run(events: seq<Event>, ghost sent: seq<PipeFrame>) returns (runner: ConformanceRunner)
    requires AllWellFormed(sent) && Joined(events) <= FramedAll(sent)
    ensures fresh(runner) && runner.calls == Receives(events)
    ensures var k := Complete(sent, |Joined(events)|);
            && runner.buffer == Joined(events)[|FramedAll(sent[..k])|..]
            && Served(sent, k, runner.frameQueue, runner.waiters, runner.calls, runner.resolved)
  {
    hide Matched, Served, FramedAll, Drain, OnTheWire, AllWellFormed;
    runner := new ConformanceRunner();
    for n := 0 to |events|
      invariant fresh(runner) && runner.Valid()
      invariant runner.input == Joined(events[..n]) && runner.calls == Receives(events[..n])
    {
      assert events[..n + 1][..n] == events[..n];
      match events[n]
      case Data(bytes) => var _ := runner.OnData(bytes);
      case Receive => var _ := runner.Recv();
    }
    assert events[..|events|] == events;
    ParsesWhatArrived(sent, |Joined(events)|);
    assert FramedAll(sent)[..|Joined(events)|] == Joined(events);
    MatchedIsServed(sent, runner.frames, runner.frameQueue, runner.waiters, runner.calls, runner.resolved);
  }
}
