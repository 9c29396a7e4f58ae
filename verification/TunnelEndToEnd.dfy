/**
 * A tunnel from one application to the other: chunks sent by `send_chunk`, framed on the
 * byte stream among other traffic, routed by the peer's demux loop, and read back.
 */
module TunnelEndToEnd {
  import opened Base
  import opened Bits
  import D = Descriptor
  import T = ByteStreamTransport
  import M = Demultiplexer
  import R = TunnelReader

  /** The frame of one chunk: small payloads travel inside the descriptor. */
  function ChunkFrame(msgId: u64, c: u32, payload: seq<byte>): (f: D.Frame)
    ensures f.Payload() == Some(payload) && f.desc.channelId == c && f.desc.flags == D.DATA
    ensures f.desc.msgId == msgId && f.desc.methodId == 0 && f.desc.creditGrant == 0
    ensures f.desc.deadlineNs == 0xFFFF_FFFF_FFFF_FFFF
    ensures D.Describes(f) && (f.storage.InDescriptor? <==> |payload| <= D.INLINE_PAYLOAD_SIZE)
  {
    var desc := D.NEW_DESC.(msgId := msgId, channelId := c, methodId := 0, flags := D.DATA);
    var inline := D.WithInlinePayload(desc, payload);
    if |payload| <= D.INLINE_PAYLOAD_SIZE then inline.value else D.WithPooledPayload(desc, payload)
  }

  /** The empty frame that ends a tunnel's outgoing stream. */
  function CloseFrame(msgId: u64, c: u32): (f: D.Frame)
    ensures f.Payload() == Some([]) && f.desc.channelId == c && f.desc.flags == BitOr(D.DATA, D.EOS)
    ensures f.desc.msgId == msgId && f.desc.methodId == 0 && f.desc.creditGrant == 0
    ensures f.desc.deadlineNs == 0xFFFF_FFFF_FFFF_FFFF
    ensures D.Describes(f) && f.storage.InDescriptor?
  {
    var desc := D.NEW_DESC.(msgId := msgId, channelId := c, methodId := 0, flags := BitOr(D.DATA, D.EOS));
    D.WithInlinePayload(desc, []).value
  }

  // ------------------------------------------------------------------- what was sent

  datatype Send = Chunk(msgId: u64, channel: u32, payload: seq<byte>) | Close(msgId: u64, channel: u32)
      | Other(frame: D.Frame)

  function Emit(op: Send): D.Frame {
    match op
    case Chunk(id, c, payload) => ChunkFrame(id, c, payload)
    case Close(id, c) => CloseFrame(id, c)
    case Other(frame) => frame
  }

  function Emitted(sends: seq<Send>): (frames: seq<D.Frame>)
    ensures |frames| == |sends| && forall k :: 0 <= k < |sends| ==> frames[k] == Emit(sends[k])
  {
    if sends == [] then [] else [Emit(sends[0])] + Emitted(sends[1..])
  }

  ghost predicate AllFit(sends: seq<Send>) {
    forall k :: 0 <= k < |sends| ==> T.Fits(Emitted(sends)[k])
  }

  /** The calls of the application, before they get their message ids. */
  datatype Request = AskChunk(channel: u32, payload: seq<byte>) | AskClose(channel: u32) | AskFrame(frame: D.Frame)

  function NextId(id: u64): u64 {
    (id + 1) % 0x1_0000_0000_0000_0000
  }

  function Number(id: u64, request: Request): Send {
    match request
    case AskChunk(c, payload) => Chunk(id, c, payload)
    case AskClose(c) => Close(id, c)
    case AskFrame(frame) => Other(frame)
  }

  function IdAfter(id: u64, requests: seq<Request>): u64 {
    if requests == [] then id
    else
      var before := IdAfter(id, requests[..|requests| - 1]);
      if requests[|requests| - 1].AskFrame? then before else NextId(before)
  }

  /** The calls with their message ids, counted on from `id`. */
  function Numbered(id: u64, requests: seq<Request>): (sends: seq<Send>)
    ensures |sends| == |requests|
  {
    if requests == [] then []
    else
      var front := requests[..|requests| - 1];
      Numbered(id, front) + [Number(IdAfter(id, front), requests[|requests| - 1])]
  }

  lemma {:induction false} NumberedNext(id: u64, requests: seq<Request>, i: nat)
    requires i < |requests|
    ensures Numbered(id, requests[..i + 1]) == Numbered(id, requests[..i])
        + [Number(IdAfter(id, requests[..i]), requests[i])]
    ensures var last := IdAfter(id, requests[..i]);
            IdAfter(id, requests[..i + 1]) == if requests[i].AskFrame? then last else NextId(last)
  {
    assert requests[..i + 1][..i] == requests[..i];
  }

  /** The calls that take a message id. */
  function Counted(requests: seq<Request>): (n: nat)
    ensures n <= |requests|
  {
    if requests == [] then 0
    else
      Counted(requests[..|requests| - 1]) + if requests[|requests| - 1].AskFrame? then 0 else 1
  }

  /** The id after some calls: one more for each that took one, in 64 bits. */
  lemma {:induction false} IdAfterCounts(id: u64, requests: seq<Request>)
    ensures IdAfter(id, requests) == (id + Counted(requests)) % 0x1_0000_0000_0000_0000
  {
    if requests != [] {
      IdAfterCounts(id, requests[..|requests| - 1]);
      NextIdAdds(id + Counted(requests[..|requests| - 1]));
      hide NextId;
    }
  }

  lemma {:induction false} NextIdAdds(n: nat)
    ensures NextId(n % 0x1_0000_0000_0000_0000) == (n + 1) % 0x1_0000_0000_0000_0000
  {
  }

  lemma {:induction false} NumberedAt(id: u64, requests: seq<Request>, i: nat)
    requires i < |requests|
    ensures Numbered(id, requests)[i] == Number(IdAfter(id, requests[..i]), requests[i])
  {
    var front := requests[..|requests| - 1];
    if i < |front| {
      NumberedAt(id, front, i);
      assert front[..i] == requests[..i];
    }
  }

  lemma {:induction false} CountedGrows(requests: seq<Request>, i: nat, j: nat)
    requires i < j <= |requests| && !requests[i].AskFrame?
    ensures Counted(requests[..i]) < Counted(requests[..j])
    decreases j
  {
    assert requests[..j][..j - 1] == requests[..j - 1];
    if i < j - 1 {
      CountedGrows(requests, i, j - 1);
    }
  }

  /** A chunk or close carries the first id plus the number of ids taken before, in 64 bits ... */
  lemma {:induction false} MessageIds(id: u64, requests: seq<Request>, i: nat)
    requires i < |requests| && !requests[i].AskFrame?
    ensures Emit(Numbered(id, requests)[i]).desc.msgId == (id + Counted(requests[..i])) % 0x1_0000_0000_0000_0000
  {
    hide Numbered, IdAfter, Counted, Number, Emit;
    NumberedAt(id, requests, i);
    EmitsId(IdAfter(id, requests[..i]), requests[i]);
    IdAfterCounts(id, requests[..i]);
  }

  lemma {:induction false} EmitsId(id: u64, request: Request)
    requires !request.AskFrame?
    ensures Emit(Number(id, request)).desc.msgId == id
  {
    hide D.Describes;
  }

  /** ... so no two of 2^64 calls share one. */
  lemma {:induction false} MessageIdsAreUnique(id: u64, requests: seq<Request>, i: nat, j: nat)
    requires i < j < |requests| <= 0x1_0000_0000_0000_0000
    requires !requests[i].AskFrame? && !requests[j].AskFrame?
    ensures Emit(Numbered(id, requests)[i]).desc.msgId != Emit(Numbered(id, requests)[j]).desc.msgId
  {
    hide Numbered, IdAfter, Counted, Emit;
    MessageIds(id, requests, i);
    MessageIds(id, requests, j);
    CountedGrows(requests, i, j);
    RemaindersDiffer(id + Counted(requests[..i]), id + Counted(requests[..j]));
  }

  lemma {:induction false} RemaindersDiffer(a: nat, b: nat)
    requires a < b < a + 0x1_0000_0000_0000_0000
    ensures a % 0x1_0000_0000_0000_0000 != b % 0x1_0000_0000_0000_0000
  {
  }

  /** What a tunnel sends, header and all, is what the peer's transport hands on. */
  lemma {:induction false} SentArrivesUnchanged(op: Send, rest: seq<byte>)
    requires !op.Other? && T.Fits(Emit(op))
    ensures T.Parse(T.Wire(Emit(op).desc, Emit(op).Payload().value) + rest) == (T.Got(Emit(op)), rest)
  {
    hide T.Parse, T.Wire, T.Arrive, ChunkFrame, CloseFrame;
    T.ArrivesUnchanged(Emit(op));
    T.SentIsReceived(Emit(op).desc, Emit(op).Payload().value, rest);
  }

  lemma {:induction false} AllFitPrefix(id: u64, requests: seq<Request>, i: nat)
    requires i <= |requests| && AllFit(Numbered(id, requests))
    ensures AllFit(Numbered(id, requests[..i]))
    decreases |requests| - i
  {
    if i == |requests| {
      assert requests[..i] == requests;
    } else {
      AllFitPrefix(id, requests, i + 1);
      NumberedNext(id, requests, i);
      var more, sends := Numbered(id, requests[..i + 1]), Numbered(id, requests[..i]);
      hide Numbered, Emit, T.Fits;
      forall k | 0 <= k < |sends| ensures T.Fits(Emitted(sends)[k]) {
        assert T.Fits(Emitted(more)[k]);
      }
    }
  }

  lemma {:induction false} WireNext(sends: seq<Send>, last: Send)
    requires AllFit(sends + [last])
    ensures AllFit(sends) && T.Fits(Emit(last))
    ensures T.WireAll(Emitted(sends + [last]))
         == T.WireAll(Emitted(sends)) + T.Wire(Emit(last).desc, Emit(last).Payload().value)
  {
    hide T.WireAll, T.Wire, T.Fits, Emit;
    var all := Emitted(sends + [last]);
    forall k | 0 <= k < |sends| ensures T.Fits(Emitted(sends)[k]) {
      assert T.Fits(all[k]);
    }
    assert T.Fits(all[|sends|]);
    assert all == Emitted(sends) + [Emit(last)];
    T.WireAppends(Emitted(sends), Emit(last));
  }

  /** What the first `i` calls write. */
  ghost function Stream(id: u64, requests: seq<Request>, i: nat): seq<byte>
    requires i <= |requests| && AllFit(Numbered(id, requests))
  {
    AllFitPrefix(id, requests, i);
    T.WireAll(Emitted(Numbered(id, requests[..i])))
  }

  lemma {:induction false} StreamStart(id: u64, requests: seq<Request>)
    requires AllFit(Numbered(id, requests))
    ensures Stream(id, requests, 0) == [] && IdAfter(id, requests[..0]) == id
    ensures Stream(id, requests, |requests|) == T.WireAll(Emitted(Numbered(id, requests)))
  {
    assert requests[..|requests|] == requests;
  }

  /** The frame of one call, the bytes it adds to the stream, and the next message id. */
  lemma {:induction false} StreamNext(id: u64, requests: seq<Request>, i: nat)
    requires i < |requests| && AllFit(Numbered(id, requests))
    ensures var next, f := IdAfter(id, requests[..i]), Emit(Number(IdAfter(id, requests[..i]), requests[i]));
            && f.Payload().Some?
            && Stream(id, requests, i + 1) == Stream(id, requests, i) + T.Wire(f.desc, f.Payload().value)
            && IdAfter(id, requests[..i + 1]) == (if requests[i].AskFrame? then next else NextId(next))
            && (match requests[i]
                case AskChunk(c, payload) => f == ChunkFrame(next, c, payload)
                case AskClose(c) => f == CloseFrame(next, c)
                case AskFrame(frame) => f == frame)
  {
    AllFitPrefix(id, requests, i + 1);
    NumberedNext(id, requests, i);
    WireNext(Numbered(id, requests[..i]), Number(IdAfter(id, requests[..i]), requests[i]));
    hide T.Wire, AllFit, T.WireAll, Numbered, IdAfter, Emitted, ChunkFrame, CloseFrame;
  }

  class Sender {
    const transport: T.StreamTransport
    var nextMsgId: u64

    constructor (transport: T.StreamTransport)
      ensures this.transport == transport && nextMsgId == 1
    {
      this.transport := transport;
      nextMsgId := 1;
    }

    /** One call after the other; what they write is the stream of their frames. */
    method SendAll(requests: seq<Request>)
      requires AllFit(Numbered(nextMsgId, requests))
      modifies this, transport`writer
      ensures transport.writer == if transport.closed then old(transport.writer)
                                  else old(transport.writer) + T.WireAll(Emitted(Numbered(old(nextMsgId), requests)))
    {
      hide T.Wire, AllFit, T.WireAll, Numbered, IdAfter, Emitted, Emit, Stream, D.Describes, ChunkFrame, CloseFrame;
      ghost var id, before := nextMsgId, transport.writer;
      StreamStart(id, requests);
      for i := 0 to |requests|
        invariant nextMsgId == IdAfter(id, requests[..i])
        invariant transport.writer == if transport.closed then before else before + Stream(id, requests, i)
      {
        StreamNext(id, requests, i);
        match requests[i] {
          case AskChunk(c, payload) => var _ := SendChunk(c, payload);
          case AskClose(c) => var _ := CloseTunnel(c);
          case AskFrame(frame) => var _ := transport.SendFrame(frame);
        }
      }
    }

    method NextMsgId() returns (id: u64)
      modifies this
      ensures id == old(nextMsgId) && nextMsgId == NextId(id)
    {
      id := nextMsgId;
      nextMsgId := NextId(id);
    }

    method SendChunk(c: u32, payload: seq<byte>) returns (ok: bool)
      modifies this, transport`writer
      ensures ok <==> !transport.closed
      ensures nextMsgId == NextId(old(nextMsgId))
      ensures transport.writer == if ok then
          old(transport.writer) + T.Wire(ChunkFrame(old(nextMsgId), c, payload).desc, payload)
                                  else old(transport.writer)
    {
      var id := NextMsgId();
      ok := transport.SendFrame(ChunkFrame(id, c, payload));
    }

    method CloseTunnel(c: u32) returns (ok: bool)
      modifies this, transport`writer
      ensures ok <==> !transport.closed
      ensures nextMsgId == NextId(old(nextMsgId))
      ensures transport.writer == if ok then old(transport.writer) + T.Wire(CloseFrame(old(nextMsgId), c).desc, [])
                                  else old(transport.writer)
    {
      var id := NextMsgId();
      ok := transport.SendFrame(CloseFrame(id, c));
    }
  }

  /** `frame` is `raw` as the demux loop sees it, for some decoding of control payloads. */
  predicate Seen(raw: D.Frame, frame: M.Frame) {
    && frame.channel == raw.desc.channelId
    && frame.flags == M.Flags(D.Has(raw.desc.flags, D.DATA), D.Has(raw.desc.flags, D.EOS),
                              D.Has(raw.desc.flags, D.ERROR), D.Has(raw.desc.flags, D.RESPONSE))
    && raw.Payload() == Some(frame.payload)
  }

  ghost predicate ClosedBy(sends: seq<Send>, c: u32) {
    exists k :: 0 <= k < |sends| && sends[k].Close? && sends[k].channel == c
  }

  /** The bytes the application wrote to tunnel `c` before closing it. */
  ghost function Written(sends: seq<Send>, c: u32): seq<byte> {
    if sends == [] then []
    else
      var front, last := sends[..|sends| - 1], sends[|sends| - 1];
      if last.Chunk? && last.channel == c && !ClosedBy(front, c) then Written(front, c) + last.payload
      else Written(front, c)
  }

  lemma {:induction false} ClosedGrows(sends: seq<Send>, c: u32)
    requires sends != []
    ensures var front, last := sends[..|sends| - 1], sends[|sends| - 1];
            ClosedBy(sends, c) <==> ClosedBy(front, c) || (last.Close? && last.channel == c)
  {
    var front, last := sends[..|sends| - 1], sends[|sends| - 1];
    if last.Close? && last.channel == c {
      assert sends[|sends| - 1].Close?;
    }
    if ClosedBy(front, c) {
      var k :| 0 <= k < |front| && front[k].Close? && front[k].channel == c;
      assert sends[k].Close?;
    }
  }

  lemma {:induction false} WrittenGrows(sends: seq<Send>, m: nat, c: u32)
    requires m <= |sends|
    ensures Written(sends[..m], c) <= Written(sends, c)
    ensures ClosedBy(sends[..m], c) ==> Written(sends[..m], c) == Written(sends, c) && ClosedBy(sends, c)
  {
    if m < |sends| {
      var front := sends[..|sends| - 1];
      WrittenGrows(front, m, c);
      assert front[..m] == sends[..m];
      ClosedGrows(sends, c);
    } else {
      assert sends[..m] == sends;
    }
  }

  // ---------------------------------------------------------------- what was received

  /** The frames on `c`, up to and including the first EOS. */
  ghost function Cut(frames: seq<M.Frame>, c: u32): seq<M.Frame> {
    if frames == [] then []
    else
      var before, last := Cut(frames[..|frames| - 1], c), frames[|frames| - 1];
      if !M.Ended(before) && last.channel == c then before + [last] else before
  }

  /** The frames received by the first `n` operations. */
  ghost function Received(ops: seq<M.Op>, n: nat): seq<M.Frame>
    requires n <= |ops|
  {
    if n == 0 then []
    else if ops[n - 1].Receive? then Received(ops, n - 1) + [ops[n - 1].frame]
    else Received(ops, n - 1)
  }

  ghost predicate NothingOn(ops: seq<M.Op>, i: nat, c: u32)
    requires i <= |ops|
  {
    forall k :: 0 <= k < i && ops[k].Receive? ==> ops[k].frame.channel != c
  }

  lemma {:induction false} CutOfNothing(ops: seq<M.Op>, i: nat, c: u32)
    requires i <= |ops| && NothingOn(ops, i, c)
    ensures Cut(Received(ops, i), c) == []
  {
    if i > 0 {
      CutOfNothing(ops, i - 1, c);
      CutNext(ops, i, c);
    }
  }

  lemma {:induction false} CutNext(ops: seq<M.Op>, n: nat, c: u32)
    requires 0 < n <= |ops|
    ensures var before, op := Cut(Received(ops, n - 1), c), ops[n - 1];
            Cut(Received(ops, n), c) ==
            if !M.Ended(before) && op.Receive? && op.frame.channel == c then before + [op.frame] else before
  {
    if ops[n - 1].Receive? {
      var all := Received(ops, n);
      assert all[..|all| - 1] == Received(ops, n - 1);
    }
  }

  /** A tunnel registered before its first frame streams everything received on its channel. */
  lemma {:induction false} StreamIsCut(ops: seq<M.Op>, i: nat, n: nat, c: u32)
    requires i <= n <= |ops| && NothingOn(ops, i, c)
    ensures M.Stream(ops, i, n, c) == Cut(Received(ops, n), c)
    decreases n
  {
    hide M.Ended;
    if i == n {
      CutOfNothing(ops, i, c);
    } else {
      StreamIsCut(ops, i, n - 1, c);
      CutNext(ops, n, c);
    }
  }

  predicate SeenAll(raw: seq<D.Frame>, frames: seq<M.Frame>) {
    |raw| == |frames| && forall k :: 0 <= k < |raw| ==> Seen(raw[k], frames[k])
  }

  /** The peer received what these sends emitted. */
  ghost predicate Links(sends: seq<Send>, received: seq<M.Frame>) {
    && |sends| == |received|
    && (forall k :: 0 <= k < |sends| ==> T.Fits(Emitted(sends)[k]))
    && SeenAll(T.ParseAll(T.WireAll(Emitted(sends))), received)
  }

  /** Only the tunnel's own calls use channel `c`. */
  ghost predicate Exclusive(sends: seq<Send>, c: u32) {
    forall k :: 0 <= k < |sends| && sends[k].Other? ==> sends[k].frame.desc.channelId != c
  }

  lemma {:induction false} FlagBits()
    ensures D.Has(D.DATA, D.DATA) && !D.Has(D.DATA, D.EOS) && !D.Has(D.DATA, D.ERROR)
    ensures BitOr(D.DATA, D.EOS) == 5 && D.Has(5, D.DATA) && D.Has(5, D.EOS) && !D.Has(5, D.ERROR)
  {
  }

  /** What the peer sees of one send. */
  ghost predicate Mirrors(op: Send, frame: M.Frame) {
    match op
    case Chunk(_, c, payload) =>
      frame.channel == c && frame.payload == payload && !frame.flags.eos && !frame.flags.error
    case Close(_, c) => frame.channel == c && frame.payload == [] && frame.flags.eos && !frame.flags.error
    case Other(raw) => frame.channel == raw.desc.channelId
  }

  ghost predicate MirrorsAll(sends: seq<Send>, received: seq<M.Frame>) {
    |sends| == |received| && forall k :: 0 <= k < |sends| ==> Mirrors(sends[k], received[k])
  }

  lemma {:induction false} ArrivalMirrors(op: Send, frame: M.Frame)
    requires T.Fits(Emit(op)) && Seen(T.Arrive(Emit(op).desc, Emit(op).Payload().value), frame)
    ensures Mirrors(op, frame)
  {
    FlagBits();
    hide BitAnd, BitOr, D.Has;
  }

  lemma {:induction false} LinkMirrors(sends: seq<Send>, received: seq<M.Frame>)
    requires Links(sends, received)
    ensures MirrorsAll(sends, received)
  {
    hide T.WireAll, T.ParseAll, T.Arrive, Emit, Seen, Mirrors;
    T.LinkPreserves(Emitted(sends));
    forall k | 0 <= k < |sends| ensures Mirrors(sends[k], received[k]) {
      assert T.Fits(Emitted(sends)[k]);
      ArrivalMirrors(sends[k], received[k]);
    }
  }

  /** The tunnel's stream carries the bytes written, and ends exactly when it was closed. */
  lemma {:induction false} CutCarriesWritten(sends: seq<Send>, received: seq<M.Frame>, c: u32)
    requires MirrorsAll(sends, received) && Exclusive(sends, c)
    ensures R.Payloads(Cut(received, c)) == Written(sends, c)
    ensures M.Ended(Cut(received, c)) <==> ClosedBy(sends, c)
    decreases |sends|
  {
    if sends != [] {
      var n := |sends| - 1;
      assert Mirrors(sends[n], received[n]);
      CutCarriesWritten(sends[..n], received[..n], c);
      ClosedGrows(sends, c);
      R.PayloadsAppend(Cut(received[..n], c), received[n]);
      CutEnds(received, c);
      hide R.Payloads, ClosedBy, MirrorsAll, M.Ended;
    }
  }

  lemma {:induction false} CutEnds(frames: seq<M.Frame>, c: u32)
    requires frames != []
    ensures var before, last := Cut(frames[..|frames| - 1], c), frames[|frames| - 1];
            M.Ended(Cut(frames, c)) <==> M.Ended(before) || (last.channel == c && last.flags.eos)
    ensures var before, last := Cut(frames[..|frames| - 1], c), frames[|frames| - 1];
            Cut(frames, c) == if !M.Ended(before) && last.channel == c then before + [last] else before
  {
    CutOpen(frames[..|frames| - 1], c);
  }

  lemma {:induction false} CutOpen(frames: seq<M.Frame>, c: u32)
    ensures forall k :: 0 <= k < |Cut(frames, c)| - 1 ==> !Cut(frames, c)[k].flags.eos
  {
    if frames != [] {
      CutOpen(frames[..|frames| - 1], c);
    }
  }

  lemma {:induction false} StreamingMeans(s: M.State, c: u32, rx: nat, stream: seq<M.Frame>)
    requires M.Streaming(s, c, rx, stream)
    ensures s.History(rx) == stream && (!M.Ended(stream) ==> c in s.tunnels && s.tunnels[c] == rx)
  {
  }

  lemma {:induction false} NothingOnNext(ops: seq<M.Op>, i: nat, c: u32)
    requires i < |ops| && NothingOn(ops, i, c) && !ops[i].Receive?
    ensures NothingOn(ops, i + 1, c)
  {
  }

  lemma {:induction false} ExclusivePrefix(sends: seq<Send>, m: nat, c: u32)
    requires m <= |sends| && Exclusive(sends, c)
    ensures Exclusive(sends[..m], c)
  {
  }

  lemma {:induction false} CutErrorFree(sends: seq<Send>, received: seq<M.Frame>, c: u32)
    requires MirrorsAll(sends, received) && Exclusive(sends, c)
    ensures forall k :: 0 <= k < |Cut(received, c)| ==> !Cut(received, c)[k].flags.error
    decreases |sends|
  {
    if sends != [] {
      var n := |sends| - 1;
      assert Mirrors(sends[n], received[n]);
      CutErrorFree(sends[..n], received[..n], c);
    }
  }

  /**
   * A tunnel's receiving end, opened before its first frame and neither dropped nor
   * unregistered: the bytes it has read so far are the first of those written to the
   * tunnel, whether they travelled inside descriptors or beside them and whatever the
   * sizes of the read buffers; and at end of file they are all of them.
   */
  lemma {:induction false} BytesReadAreBytesWritten(
      max: nat, sends: seq<Send>, m: nat, ops: seq<M.Op>, i: nat, n: nat, c: u32, events: seq<R.Event>)
    requires m <= |sends| && Exclusive(sends, c)
    requires M.AllowedRun(max, ops) && i < n <= |ops| && ops[i] == M.AddTunnel(c) && NothingOn(ops, i, c)
    requires forall k :: i < k < n ==>
        ops[k] != M.RemoveTunnel(c) && ops[k] != M.DropReceiver(M.At(max, M.EMPTY, ops, i).nextRx)
    requires Links(sends[..m], Received(ops, n))
    requires R.Orderly(events)
        && R.Delivered(events) == M.At(max, M.EMPTY, ops, n).History(M.At(max, M.EMPTY, ops, i).nextRx)
    requires var s := M.At(max, M.EMPTY, ops, n);
             R.At(events).closed ==> forall d :: d in s.tunnels ==> s.tunnels[d] != M.At(max, M.EMPTY, ops, i).nextRx
    ensures R.BytesRead(events) + R.At(events).Unread() == Written(sends[..m], c)
    ensures R.BytesRead(events) <= Written(sends, c)
    ensures R.At(events).eof ==> R.BytesRead(events) == Written(sends, c) && ClosedBy(sends, c)
  {
    hide M.At, M.Streaming, M.Stream, M.AllowedRun, M.Ended, Written, ClosedBy, Links, Cut, Received, R.At, R.BytesRead,
      R.Delivered, R.Orderly, R.Payloads, R.Reader.Unread, R.Reader.Valid, MirrorsAll, Exclusive, NothingOn,
      M.State.History;
    var rx, stream := M.At(max, M.EMPTY, ops, i).nextRx, M.Stream(ops, i + 1, n, c);
    NothingOnNext(ops, i, c);
    ExclusivePrefix(sends, m, c);
    M.TunnelGetsItsStream(max, ops, i, n, c);
    StreamingMeans(M.At(max, M.EMPTY, ops, n), c, rx, stream);
    StreamIsCut(ops, i + 1, n, c);
    LinkMirrors(sends[..m], Received(ops, n));
    CutCarriesWritten(sends[..m], Received(ops, n), c);
    WrittenGrows(sends, m, c);
    R.ByteFidelity(events);
    if R.At(events).eof {
      R.EofMeansAllRead(events);
    }
  }

  /**
   * And nothing gets stuck: once a closed tunnel's frames have all been delivered, enough
   * reads into non-empty buffers return every byte written and then end of file.
   */
  lemma {:induction false} ClosedTunnelIsReadToTheEnd(
      max: nat, sends: seq<Send>, ops: seq<M.Op>, i: nat, n: nat, c: u32, events: seq<R.Event>, rooms: seq<nat>)
    requires Exclusive(sends, c) && ClosedBy(sends, c)
    requires M.AllowedRun(max, ops) && i < n <= |ops| && ops[i] == M.AddTunnel(c) && NothingOn(ops, i, c)
    requires forall k :: i < k < n ==>
        ops[k] != M.RemoveTunnel(c) && ops[k] != M.DropReceiver(M.At(max, M.EMPTY, ops, i).nextRx)
    requires Links(sends, Received(ops, n))
    requires R.Orderly(events)
        && R.Delivered(events) == M.At(max, M.EMPTY, ops, n).History(M.At(max, M.EMPTY, ops, i).nextRx)
    requires |rooms| >= R.Work(R.At(events)) && forall k :: 0 <= k < |rooms| ==> rooms[k] > 0
    ensures R.At(events + R.Reads(rooms)).eof
    ensures R.BytesRead(events + R.Reads(rooms)) == Written(sends, c)
  {
    hide M.At, M.Streaming, M.Stream, M.AllowedRun, Written, ClosedBy, Links, Received, R.At, R.BytesRead,
      R.Delivered, R.Orderly, R.Payloads, R.Reader.Unread, R.Reader.Valid, MirrorsAll, Exclusive, NothingOn,
      M.State.History, R.Work, R.Reads, Cut;
    var rx, stream := M.At(max, M.EMPTY, ops, i).nextRx, M.Stream(ops, i + 1, n, c);
    NothingOnNext(ops, i, c);
    M.TunnelGetsItsStream(max, ops, i, n, c);
    StreamingMeans(M.At(max, M.EMPTY, ops, n), c, rx, stream);
    StreamIsCut(ops, i + 1, n, c);
    LinkMirrors(sends, Received(ops, n));
    CutCarriesWritten(sends, Received(ops, n), c);
    CutErrorFree(sends, Received(ops, n), c);
    R.ReadingDrains(events, rooms);
  }

  // ------------------------------------------------------------- an undisturbed connection

  /** A raw frame as the demux loop sees it; control payloads are left undecoded. */
  function See(raw: D.Frame): M.Frame {
    M.Frame(raw.desc.channelId,
            M.Flags(D.Has(raw.desc.flags, D.DATA), D.Has(raw.desc.flags, D.EOS),
                    D.Has(raw.desc.flags, D.ERROR), D.Has(raw.desc.flags, D.RESPONSE)),
            M.OtherVerb,
            if raw.Payload().Some? then raw.Payload().value else [])
  }

  function SeeEach(raw: seq<D.Frame>): (frames: seq<M.Frame>)
    ensures |frames| == |raw| && forall k :: 0 <= k < |raw| ==> frames[k] == See(raw[k])
  {
    if raw == [] then [] else [See(raw[0])] + SeeEach(raw[1..])
  }

  /** What the peer's demux loop receives. */
  ghost function Across(sends: seq<Send>): seq<M.Frame>
    requires AllFit(sends)
  {
    SeeEach(T.ParseAll(T.WireAll(Emitted(sends))))
  }

  lemma {:induction false} AcrossLinks(sends: seq<Send>)
    requires AllFit(sends)
    ensures Links(sends, Across(sends))
  {
    hide T.WireAll, T.ParseAll, T.Arrive, Emit, D.Has;
    T.LinkPreserves(Emitted(sends));
    var raw := T.ParseAll(T.WireAll(Emitted(sends)));
    forall k | 0 <= k < |raw| ensures Seen(raw[k], Across(sends)[k]) {
      assert T.Fits(Emitted(sends)[k]);
    }
  }

  /** The peer registers the tunnel and then receives everything. */
  function Listening(c: u32, frames: seq<M.Frame>): (ops: seq<M.Op>)
    ensures |ops| == |frames| + 1 && ops[0] == M.AddTunnel(c)
    ensures forall k :: 0 <= k < |frames| ==> ops[k + 1] == M.Receive(frames[k])
  {
    [M.AddTunnel(c)] + M.Receives(frames)
  }

  lemma {:induction false} ListeningReceives(c: u32, frames: seq<M.Frame>, n: nat)
    requires n <= |frames|
    ensures Received(Listening(c, frames), n + 1) == frames[..n]
  {
    if n > 0 {
      ListeningReceives(c, frames, n - 1);
      assert frames[..n] == frames[..n - 1] + [frames[n - 1]];
    }
  }

  lemma {:induction false} ListeningAllowed(max: nat, c: u32, frames: seq<M.Frame>)
    ensures M.AllowedRun(max, Listening(c, frames)) && NothingOn(Listening(c, frames), 0, c)
    ensures M.At(max, M.EMPTY, Listening(c, frames), 0).nextRx == 0
  {
    var ops := Listening(c, frames);
    hide M.Step;
    forall i | 0 <= i < |ops| ensures M.Allowed(M.At(max, M.EMPTY, ops, i), ops[i]) {
      if i > 0 {
        assert ops[i] == M.Receive(frames[i - 1]);
      }
    }
  }

  /** The events of a stream that is handed everything before it is read. */
  function Deliveries(chunks: seq<M.Frame>): seq<R.Event> {
    if chunks == [] then [] else Deliveries(chunks[..|chunks| - 1]) + [R.Deliver(chunks[|chunks| - 1])]
  }

  lemma {:induction false} DeliveriesOrderly(chunks: seq<M.Frame>)
    requires forall k :: 0 <= k < |chunks| - 1 ==> !chunks[k].flags.eos
    ensures R.Orderly(Deliveries(chunks)) && R.Delivered(Deliveries(chunks)) == chunks
    ensures !R.At(Deliveries(chunks)).closed
  {
    if chunks != [] {
      var n := |chunks| - 1;
      DeliveriesOrderly(chunks[..n]);
      assert Deliveries(chunks)[..|Deliveries(chunks)| - 1] == Deliveries(chunks[..n]);
      assert chunks == chunks[..n] + [chunks[n]];
    }
  }

  /** The chunks given to the tunnel's receiver by the time everything was received. */
  ghost function Heard(max: nat, sends: seq<Send>, c: u32): seq<M.Frame>
    requires AllFit(sends)
  {
    var ops := Listening(c, Across(sends));
    M.At(max, M.EMPTY, ops, |ops|).History(0)
  }

  /**
   * With nothing in the way, all of this happens: whatever else the connection carries, a
   * peer that listens on `c` reads exactly the bytes written to a closed tunnel.
   */
  lemma {:induction false} UndisturbedTunnelDelivers(max: nat, sends: seq<Send>, c: u32, rooms: seq<nat>)
    requires AllFit(sends) && Exclusive(sends, c) && ClosedBy(sends, c)
    requires forall k :: 0 <= k < |rooms| ==> rooms[k] > 0
    ensures var events := Deliveries(Heard(max, sends, c));
            |rooms| >= R.Work(R.At(events)) ==>
              R.At(events + R.Reads(rooms)).eof && R.BytesRead(events + R.Reads(rooms)) == Written(sends, c)
  {
    hide M.At, M.Streaming, M.Stream, M.AllowedRun, M.Ended, Written, ClosedBy, Links, Received, Across, Cut, R.At,
      R.BytesRead, R.Delivered, R.Orderly, R.Payloads, R.Reader.Valid, Exclusive, NothingOn, M.State.History, R.Work,
      R.Reads, AllFit, Deliveries;
    AcrossLinks(sends);
    var received := Across(sends);
    LinksLength(sends, received);
    var n, ops := |sends| + 1, Listening(c, received);
    ListeningReceives(c, received, |sends|);
    assert received[..|sends|] == received;
    ListeningAllowed(max, c, received);
    forall k | 0 < k < n ensures ops[k].Receive? {
      assert ops[k] == M.Receive(received[k - 1]);
    }
    M.TunnelGetsItsStream(max, ops, 0, n, c);
    StreamingMeans(M.At(max, M.EMPTY, ops, n), c, 0, M.Stream(ops, 1, n, c));
    NothingOnNext(ops, 0, c);
    StreamIsCut(ops, 1, n, c);
    CutOpen(received, c);
    var events := Deliveries(Cut(received, c));
    DeliveriesOrderly(Cut(received, c));
    if |rooms| >= R.Work(R.At(events)) {
      ClosedTunnelIsReadToTheEnd(max, sends, ops, 0, n, c, events, rooms);
    }
  }

  lemma {:induction false} LinksLength(sends: seq<Send>, received: seq<M.Frame>)
    requires Links(sends, received)
    ensures |received| == |sends|
  {
  }
}
