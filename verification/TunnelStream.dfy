/**
 * Reading a tunnel as a byte stream: the chunks routed to a receiver are copied out into
 * buffers of any size, and nothing is lost, repeated or reordered on the way.
 */
module TunnelReader {
  import opened Base
  import opened Demultiplexer

  datatype Poll = Pending | Ready(bytes: seq<byte>) | Failed

  function Copied(p: Poll): seq<byte> {
    if p.Ready? then p.bytes else []
  }

  /** The payloads of the chunks that are no error reports, joined. */
  function Payloads(chunks: seq<Frame>): seq<byte> {
    if chunks == [] then [] else Payload(chunks[0]) + Payloads(chunks[1..])
  }

  function Payload(chunk: Frame): seq<byte> {
    if chunk.flags.error then [] else chunk.payload
  }

  /** `queue` holds the chunks routed to the stream; `closed` says no more will come. */
  datatype Reader = Reader(queue: seq<Frame>, closed: bool, chunk: Option<Frame>, offset: nat, eof: bool)
  {
    ghost predicate Valid() {
      chunk.Some? ==> offset <= |chunk.value.payload| && !chunk.value.flags.error
    }

    /** Everything that has arrived and was not read yet. */
    ghost function Unread(): seq<byte>
      requires Valid()
    {
      Rest() + Payloads(queue)
    }

    ghost function Rest(): seq<byte>
      requires Valid()
    {
      if chunk.Some? then chunk.value.payload[offset..] else []
    }

    /** Copy from the buffered chunk into a buffer with `room` bytes left. */
    function Copy(room: nat): (Reader, Poll)
      requires Valid() && chunk.Some?
    {
      var remaining := chunk.value.payload[offset..];
      var n := if |remaining| <= room then |remaining| else room;
      var next :=
        if offset + n >= |chunk.value.payload| then
          this.(chunk := None, offset := 0, eof := eof || chunk.value.flags.eos)
        else this.(offset := offset + n);
      (next, Ready(remaining[..n]))
    }

    function Read(room: nat): (Reader, Poll)
      requires Valid()
    {
      if eof then (this, Ready([]))
      else if chunk.Some? then Copy(room)
      else if queue == [] then
        if closed then (this.(eof := true), Ready([])) else (this, Pending)
      else
        var popped := this.(queue := queue[1..]);
        if queue[0].flags.error then (popped, Failed)
        else if queue[0].flags.eos && queue[0].payload == [] then (popped.(eof := true), Ready([]))
        else popped.(chunk := Some(queue[0]), offset := 0).Copy(room)
    }
  }

  const FRESH := Reader([], false, None, 0, false)

  class TunnelStream {
    var rx: seq<Frame>
    var rxClosed: bool
    var readChunk: Option<Frame>
    var readChunkOffset: nat
    var readEof: bool

    ghost function View(): Reader
      reads this
    {
      Reader(rx, rxClosed, readChunk, readChunkOffset, readEof)
    }

    constructor ()
      ensures View() == FRESH
    {
      rx, rxClosed, readChunk, readChunkOffset, readEof := [], false, None, 0, false;
    }

    /** What is read is taken off the front of what was unread, whatever the buffer's size. */
    method PollRead(room: nat) returns (r: Poll)
      requires View().Valid()
      modifies this
      ensures View().Valid() && (View(), r) == old(View()).Read(room)
      ensures Copied(r) + View().Unread() == old(View().Unread())
      ensures |Copied(r)| <= room
      decreases |rx|
    {
      hide Payloads, Payload, Reader.Unread, Reader.Rest;
      ReadSplits(View(), room);
      if readEof {
        return Ready([]);
      }
      if readChunk.Some? {
        var chunk := readChunk.value;
        var remaining := chunk.payload[readChunkOffset..];
        var toCopy := if |remaining| <= room then |remaining| else room;
        readChunkOffset := readChunkOffset + toCopy;
        if readChunkOffset >= |chunk.payload| {
          readChunk := None;
          readChunkOffset := 0;
          if chunk.flags.eos {
            readEof := true;
          }
        }
        return Ready(remaining[..toCopy]);
      }
      if rx == [] {
        if !rxClosed {
          return Pending;
        }
        readEof := true;
        return Ready([]);
      }
      var chunk := rx[0];
      rx := rx[1..];
      if chunk.flags.error {
        return Failed;
      }
      if chunk.flags.eos && chunk.payload == [] {
        readEof := true;
        return Ready([]);
      }
      readChunk := Some(chunk);
      readChunkOffset := 0;
      r := PollRead(room);
    }
  }

  lemma {:induction false} CopyRest(s: Reader, room: nat)
    requires s.Valid() && s.chunk.Some?
    ensures var (t, p) := s.Copy(room);
            t.Valid() && |Copied(p)| <= room && Copied(p) + t.Rest() == s.Rest() && t.queue == s.queue
  {
    var payload, offset := s.chunk.value.payload, s.offset;
    var rest := payload[offset..];
    var n := |s.Copy(room).1.bytes|;
    assert payload[offset + n..] == rest[n..];
    assert rest == rest[..n] + rest[n..];
  }

  lemma {:induction false} CopySplits(s: Reader, room: nat)
    requires s.Valid() && s.chunk.Some?
    ensures var (t, p) := s.Copy(room); t.Valid() && |Copied(p)| <= room && Copied(p) + t.Unread() == s.Unread()
  {
    hide Payloads;
    CopyRest(s, room);
    hide Reader.Copy, Reader.Rest;
    var (t, p) := s.Copy(room);
    assert Copied(p) + (t.Rest() + Payloads(t.queue)) == (Copied(p) + t.Rest()) + Payloads(t.queue);
  }

  /** A read divides the unread bytes in two. */
  lemma {:induction false} ReadSplits(s: Reader, room: nat)
    requires s.Valid()
    ensures var (t, p) := s.Read(room); t.Valid() && |Copied(p)| <= room && Copied(p) + t.Unread() == s.Unread()
  {
    hide Reader.Copy;
    if !s.eof {
      if s.chunk.Some? {
        CopySplits(s, room);
      } else if s.queue != [] && !s.queue[0].flags.error {
        var loaded := s.(queue := s.queue[1..], chunk := Some(s.queue[0]), offset := 0);
        CopySplits(loaded, room);
        assert loaded.Unread() == s.Unread();
      }
    }
  }

  /** A read waits exactly while nothing is at hand and more may come, and fails exactly on an error report. */
  lemma {:induction false} ReadAnswers(s: Reader, room: nat)
    requires s.Valid()
    ensures s.Read(room).1.Pending? <==> !s.eof && s.chunk.None? && s.queue == [] && !s.closed
    ensures s.Read(room).1.Failed? <==> !s.eof && s.chunk.None? && s.queue != [] && s.queue[0].flags.error
  {
  }

  /**
   * A read into a non-empty buffer returns nothing, which callers take for the end of the
   * stream, exactly at the end of the stream or on an empty chunk that does not end it.
   */
  lemma {:induction false} EmptyReadIff(s: Reader, room: nat)
    requires s.Valid() && room > 0
    ensures var first := if s.chunk.Some? || s.queue == [] then s.chunk else Some(s.queue[0]);
            s.Read(room).1 == Ready([]) <==>
            || s.eof || (first.None? && s.closed)
            || (first.Some? && !first.value.flags.error
                && (if s.chunk.Some? then s.Rest() else first.value.payload) == [])
  {
  }

  // ---------------------------------------------------------------------------- runs

  datatype Event = Deliver(chunk: Frame) | CloseSender | Read(room: nat)

  function Next(s: Reader, e: Event): (Reader, Poll)
    requires s.Valid()
  {
    match e
    case Deliver(chunk) => (s.(queue := s.queue + [chunk]), Pending)
    case CloseSender => (s.(closed := true), Pending)
    case Read(room) => s.Read(room)
  }

  lemma {:induction false} NextValid(s: Reader, e: Event)
    requires s.Valid()
    ensures Next(s, e).0.Valid()
  {
    match e
    case Read(room) => ReadSplits(s, room);
    case _ =>
  }

  ghost function At(events: seq<Event>): (s: Reader)
    ensures s.Valid()
  {
    if events == [] then FRESH
    else
      var before := At(events[..|events| - 1]);
      NextValid(before, events[|events| - 1]);
      Next(before, events[|events| - 1]).0
  }

  ghost function BytesRead(events: seq<Event>): seq<byte> {
    if events == [] then []
    else
      BytesRead(events[..|events| - 1]) + Copied(Next(At(events[..|events| - 1]), events[|events| - 1]).1)
  }

  ghost function Delivered(events: seq<Event>): seq<Frame> {
    if events == [] then []
    else
      var before, last := Delivered(events[..|events| - 1]), events[|events| - 1];
      if last.Deliver? then before + [last.chunk] else before
  }

  lemma {:induction false} PayloadsAppend(a: seq<Frame>, chunk: Frame)
    ensures Payloads(a + [chunk]) == Payloads(a) + Payload(chunk)
  {
    if a != [] {
      PayloadsAppend(a[1..], chunk);
      assert (a + [chunk])[1..] == a[1..] + [chunk];
    }
  }

  /**
   * Whatever sizes the read buffers have, the bytes read so far, the rest of the buffered
   * chunk and the queued payloads are together the payloads delivered, in order.
   */
  lemma {:induction false} ByteFidelity(events: seq<Event>)
    ensures BytesRead(events) + At(events).Unread() == Payloads(Delivered(events))
  {
    hide Reader.Unread, Reader.Valid, Reader.Read;
    if events != [] {
      var front, last := events[..|events| - 1], events[|events| - 1];
      ByteFidelity(front);
      NextSplits(At(front), last);
      var out := Copied(Next(At(front), last).1);
      if last.Deliver? {
        PayloadsAppend(Delivered(front), last.chunk);
      }
      assert BytesRead(events) + At(events).Unread() == BytesRead(front) + (out + At(events).Unread());
    } else {
      StartsEmpty();
    }
  }

  lemma {:induction false} StartsEmpty()
    ensures FRESH.Unread() == []
  {
  }

  lemma {:induction false} NextSplits(s: Reader, e: Event)
    requires s.Valid()
    ensures var (t, p) := Next(s, e);
            t.Valid() && Copied(p) + t.Unread() == s.Unread() + (if e.Deliver? then Payload(e.chunk) else [])
  {
    hide Reader.Read;
    match e
    case Read(room) => ReadSplits(s, room);
    case Deliver(chunk) => PayloadsAppend(s.queue, chunk);
    case CloseSender =>
  }

  // -------------------------------------------------------------------- error reports

  /** What a reader experiences: bytes, and the failures (`None`) between them. */
  function Marks(bytes: seq<byte>): (marks: seq<Option<byte>>)
    ensures |marks| == |bytes| && forall k :: 0 <= k < |bytes| ==> marks[k] == Some(bytes[k])
  {
    seq(|bytes|, k requires 0 <= k < |bytes| => Some(bytes[k]))
  }

  function ChunkMarks(chunk: Frame): seq<Option<byte>> {
    if chunk.flags.error then [None] else Marks(chunk.payload)
  }

  function AllMarks(chunks: seq<Frame>): seq<Option<byte>> {
    if chunks == [] then [] else ChunkMarks(chunks[0]) + AllMarks(chunks[1..])
  }

  function PollMarks(p: Poll): seq<Option<byte>> {
    match p
    case Pending => []
    case Ready(bytes) => Marks(bytes)
    case Failed => [None]
  }

  ghost function UnreadMarks(s: Reader): seq<Option<byte>>
    requires s.Valid()
  {
    Marks(s.Rest()) + AllMarks(s.queue)
  }

  lemma {:induction false} AllMarksAppend(a: seq<Frame>, chunk: Frame)
    ensures AllMarks(a + [chunk]) == AllMarks(a) + ChunkMarks(chunk)
  {
    hide ChunkMarks;
    if a != [] {
      AllMarksAppend(a[1..], chunk);
      assert (a + [chunk])[1..] == a[1..] + [chunk];
    }
  }

  lemma {:induction false} MarksAppend(a: seq<byte>, b: seq<byte>)
    ensures Marks(a + b) == Marks(a) + Marks(b)
  {
  }

  lemma {:induction false} CopyMarks(s: Reader, room: nat)
    requires s.Valid() && s.chunk.Some?
    ensures var (t, p) := s.Copy(room); t.Valid() && PollMarks(p) + UnreadMarks(t) == UnreadMarks(s)
  {
    hide AllMarks, Marks;
    CopyRest(s, room);
    CopyReady(s, room);
    hide Reader.Copy, Reader.Rest, Reader.Valid;
    var (t, p) := s.Copy(room);
    MarksAppend(p.bytes, t.Rest());
    JoinMarks(Marks(p.bytes), Marks(t.Rest()), AllMarks(t.queue));
  }

  lemma {:induction false} JoinMarks(a: seq<Option<byte>>, b: seq<Option<byte>>, c: seq<Option<byte>>)
    ensures a + (b + c) == (a + b) + c
  {
  }

  lemma {:induction false} CopyReady(s: Reader, room: nat)
    requires s.Valid() && s.chunk.Some?
    ensures s.Copy(room).1.Ready?
  {
  }

  lemma {:induction false} ReadMarks(s: Reader, room: nat)
    requires s.Valid()
    ensures var (t, p) := s.Read(room); t.Valid() && PollMarks(p) + UnreadMarks(t) == UnreadMarks(s)
  {
    hide Reader.Copy;
    if !s.eof {
      if s.chunk.Some? {
        CopyMarks(s, room);
      } else if s.queue != [] && !s.queue[0].flags.error {
        var loaded := s.(queue := s.queue[1..], chunk := Some(s.queue[0]), offset := 0);
        CopyMarks(loaded, room);
        assert UnreadMarks(loaded) == UnreadMarks(s);
      }
    }
  }

  lemma {:induction false} NextMarks(s: Reader, e: Event)
    requires s.Valid()
    ensures var (t, p) := Next(s, e);
            && t.Valid()
            && PollMarks(p) + UnreadMarks(t) == UnreadMarks(s) + if e.Deliver? then ChunkMarks(e.chunk) else []
  {
    hide Reader.Read, ChunkMarks;
    match e
    case Read(room) => ReadMarks(s, room);
    case Deliver(chunk) => AllMarksAppend(s.queue, chunk);
    case CloseSender =>
  }

  ghost function MarksRead(events: seq<Event>): seq<Option<byte>> {
    if events == [] then []
    else
      MarksRead(events[..|events| - 1]) + PollMarks(Next(At(events[..|events| - 1]), events[|events| - 1]).1)
  }

  lemma {:induction false} MarksStart()
    ensures UnreadMarks(FRESH) == []
  {
  }

  /** Each error report makes one read fail, at its place among the bytes: no failure is lost or made up. */
  lemma {:induction false} FailureFidelity(events: seq<Event>)
    ensures MarksRead(events) + UnreadMarks(At(events)) == AllMarks(Delivered(events))
  {
    hide UnreadMarks, Reader.Valid, Reader.Read, PollMarks, ChunkMarks;
    if events != [] {
      var front, last := events[..|events| - 1], events[|events| - 1];
      FailureFidelity(front);
      NextMarks(At(front), last);
      var out := PollMarks(Next(At(front), last).1);
      if last.Deliver? {
        AllMarksAppend(Delivered(front), last.chunk);
      }
      assert MarksRead(events) + UnreadMarks(At(events)) == MarksRead(front) + (out + UnreadMarks(At(events)));
    } else {
      MarksStart();
    }
  }

  // --------------------------------------------------------------------- end of file

  /** Nothing is sent to a closed receiver, and an EOS chunk is the last one. */
  ghost predicate Orderly(events: seq<Event>) {
    events == [] ||
    (var front := events[..|events| - 1];
     Orderly(front) && (events[|events| - 1].Deliver? ==> !At(front).closed && !Ended(Delivered(front))))
  }

  /** The chunk buffered and the queue are what was delivered last. */
  ghost predicate Tail(s: Reader, delivered: seq<Frame>) {
    && |s.queue| <= |delivered| && delivered[|delivered| - |s.queue|..] == s.queue
    && (s.chunk.Some? ==> |s.queue| < |delivered| && delivered[|delivered| - |s.queue| - 1] == s.chunk.value)
    && (s.eof ==> s.chunk.None? && s.queue == [] && (s.closed || EndsWell(delivered)))
    && (forall k :: 0 <= k < |delivered| - 1 ==> !delivered[k].flags.eos)
    && (EndsWell(delivered) && s.queue == [] && s.chunk.None? ==> s.eof)
  }

  /** The last chunk is an EOS and no error report. */
  ghost predicate EndsWell(delivered: seq<Frame>) {
    Ended(delivered) && !delivered[|delivered| - 1].flags.error
  }

  lemma {:induction false} CopyEffect(s: Reader, room: nat)
    requires s.Valid() && s.chunk.Some?
    ensures var t := s.Copy(room).0;
            && t.queue == s.queue && t.closed == s.closed
            && (if t.chunk.Some? then t.chunk == s.chunk && t.eof == s.eof
                else t.eof == (s.eof || s.chunk.value.flags.eos))
  {
  }

  lemma {:induction false} CopyTail(s: Reader, room: nat, delivered: seq<Frame>)
    requires s.Valid() && s.chunk.Some? && Tail(s, delivered)
    ensures Tail(s.Copy(room).0, delivered)
  {
    hide Reader.Copy;
    CopyEffect(s, room);
    assert delivered[|delivered| - |s.queue| - 1] == s.chunk.value;
    if s.chunk.value.flags.eos {
      assert s.queue == [] && EndsWell(delivered);
    }
  }

  lemma {:induction false} ReadTail(s: Reader, room: nat, delivered: seq<Frame>)
    requires s.Valid() && Tail(s, delivered)
    ensures Tail(s.Read(room).0, delivered)
  {
    hide Reader.Copy;
    if !s.eof {
      if s.chunk.Some? {
        CopyTail(s, room, delivered);
      } else if s.queue != [] && !s.queue[0].flags.error {
        var loaded := s.(queue := s.queue[1..], chunk := Some(s.queue[0]), offset := 0);
        assert loaded.queue == delivered[|delivered| - |loaded.queue|..];
        CopyTail(loaded, room, delivered);
      }
    }
  }

  lemma {:induction false} DeliverTail(s: Reader, chunk: Frame, delivered: seq<Frame>)
    requires Tail(s, delivered) && !s.closed && !Ended(delivered)
    ensures Tail(s.(queue := s.queue + [chunk]), delivered + [chunk])
  {
    var n, q := |delivered|, |s.queue|;
    assert (delivered + [chunk])[n - q..] == delivered[n - q..] + [chunk];
  }

  lemma {:induction false} CloseTail(s: Reader, delivered: seq<Frame>)
    requires Tail(s, delivered)
    ensures Tail(s.(closed := true), delivered)
  {
  }

  lemma {:induction false} RunTail(events: seq<Event>)
    requires Orderly(events)
    ensures Tail(At(events), Delivered(events))
  {
    if events != [] {
      hide Reader.Read, Reader.Valid, Tail, Ended;
      var front, last := events[..|events| - 1], events[|events| - 1];
      RunTail(front);
      match last
      case Read(room) => ReadTail(At(front), room, Delivered(front));
      case Deliver(chunk) => DeliverTail(At(front), chunk, Delivered(front));
      case CloseSender => CloseTail(At(front), Delivered(front));
    }
  }

  /** End of file means every byte delivered was read, and that no more can come. */
  lemma {:induction false} EofMeansAllRead(events: seq<Event>)
    requires Orderly(events) && At(events).eof
    ensures BytesRead(events) == Payloads(Delivered(events))
    ensures At(events).closed || EndsWell(Delivered(events))
  {
    hide Orderly, At, BytesRead, Delivered;
    RunTail(events);
    ByteFidelity(events);
  }

  // ------------------------------------------------------------------------ progress

  /** The end is in sight: the sender is gone or the last chunk at hand is an EOS. */
  ghost predicate Finite(s: Reader) {
    s.eof || s.closed
    || (if s.queue != [] then s.queue[|s.queue| - 1].flags.eos && !s.queue[|s.queue| - 1].flags.error
        else s.chunk.Some? && s.chunk.value.flags.eos)
  }

  ghost function Work(s: Reader): nat
    requires s.Valid()
  {
    if s.eof then 0 else 1 + |s.Unread()| + |s.queue| + (if s.chunk.Some? then 1 else 0)
  }

  lemma {:induction false} CopyProgress(s: Reader, room: nat)
    requires s.Valid() && s.chunk.Some? && !s.eof && room > 0
    ensures var t := s.Copy(room).0; t.Valid() && Work(t) < Work(s) && (Finite(s) ==> Finite(t))
  {
    hide Payloads;
    CopySplits(s, room);
  }

  /** The reader with the first chunk of its queue buffered. */
  function Loaded(s: Reader): Reader
    requires s.queue != []
  {
    s.(queue := s.queue[1..], chunk := Some(s.queue[0]), offset := 0)
  }

  lemma {:induction false} LoadedSame(s: Reader)
    requires s.Valid() && !s.eof && s.chunk.None? && s.queue != [] && !s.queue[0].flags.error
    ensures Loaded(s).Valid() && Work(Loaded(s)) == Work(s) && (Finite(s) ==> Finite(Loaded(s)))
  {
    assert Loaded(s).Unread() == s.Unread();
  }

  /** Before the end of file every read that is not pending brings it nearer. */
  lemma {:induction false} ReadProgress(s: Reader, room: nat)
    requires s.Valid() && !s.eof && room > 0
    ensures var (t, p) := s.Read(room);
            && t.Valid() && (Finite(s) ==> Finite(t) && !p.Pending?)
            && (p.Pending? || Work(t) < Work(s))
  {
    hide Reader.Copy, Payloads;
    ReadSplits(s, room);
    if s.chunk.Some? {
      CopyProgress(s, room);
      CopyReady(s, room);
    } else if s.queue != [] && !s.queue[0].flags.error {
      LoadedSame(s);
      CopyProgress(Loaded(s), room);
      CopyReady(Loaded(s), room);
    }
  }

  ghost function Reads(rooms: seq<nat>): seq<Event> {
    seq(|rooms|, k requires 0 <= k < |rooms| => Read(rooms[k]))
  }

  lemma {:induction false} ReadsNext(events: seq<Event>, rooms: seq<nat>)
    requires rooms != []
    ensures events + Reads(rooms) == events + [Read(rooms[0])] + Reads(rooms[1..])
  {
    assert Reads(rooms) == [Read(rooms[0])] + Reads(rooms[1..]);
  }

  lemma {:induction false} AfterEvent(events: seq<Event>, e: Event)
    ensures At(events + [e]) == Next(At(events), e).0
    ensures Delivered(events + [e]) == if e.Deliver? then Delivered(events) + [e.chunk] else Delivered(events)
    ensures Orderly(events) && !e.Deliver? ==> Orderly(events + [e])
  {
    assert (events + [e])[..|events|] == events;
  }

  /** Once the end is in sight, enough reads into non-empty buffers reach it. */
  lemma {:induction false} ReadsReachEof(events: seq<Event>, rooms: seq<nat>)
    requires At(events).eof || (Finite(At(events)) && |rooms| >= Work(At(events)))
    requires forall k :: 0 <= k < |rooms| ==> rooms[k] > 0
    ensures At(events + Reads(rooms)).eof
    ensures Delivered(events + Reads(rooms)) == Delivered(events)
    ensures Orderly(events) ==> Orderly(events + Reads(rooms))
    decreases |rooms|
  {
    hide Finite, Reader.Read, Reader.Valid, At, Delivered, Orderly, Reader.Unread;
    if rooms == [] {
      assert events + Reads(rooms) == events;
    } else {
      if At(events).eof {
        EofStays(At(events), rooms[0]);
      } else {
        ReadProgress(At(events), rooms[0]);
      }
      AfterEvent(events, Read(rooms[0]));
      ReadsNext(events, rooms);
      ReadsReachEof(events + [Read(rooms[0])], rooms[1..]);
    }
  }

  lemma {:induction false} EofStays(s: Reader, room: nat)
    requires s.Valid() && s.eof
    ensures s.Read(room).0.eof
  {
  }

  /** After the EOS chunk, or once the sender is gone, reading on yields every byte and then end of file. */
  lemma {:induction false} ReadingDrains(events: seq<Event>, rooms: seq<nat>)
    requires Orderly(events) && |rooms| >= Work(At(events))
    requires forall k :: 0 <= k < |rooms| ==> rooms[k] > 0
    requires At(events).closed || EndsWell(Delivered(events))
    ensures At(events + Reads(rooms)).eof
    ensures BytesRead(events + Reads(rooms)) == Payloads(Delivered(events))
  {
    hide At, Delivered, BytesRead, Orderly, Reader.Valid, Work, Reads;
    RunTail(events);
    assert Finite(At(events));
    ReadsReachEof(events, rooms);
    EofMeansAllRead(events + Reads(rooms));
  }
}
