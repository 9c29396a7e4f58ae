/**
 * The shared-memory session: a slab of slots and a ring of packed descriptors.
 *
 * `Shm` is the ideal session, whose entries carry full handles and ids. The class
 * `ShmSession` is the real one, which squeezes a handle and an id into 64 bits.
 */
module SharedMemory {
  import opened Base
  import opened Bits
  import opened DescriptorRing
  import opened SlabAllocator

  // ------------------------------------------------------------- packed descriptors

  /** The message id in the upper half, below it the generation and then the index, 16 bits each. */
  function EncodeDesc(slotIdx: u32, slotGen: u32, msgId: u64): (d: u64)
    ensures d == msgId % 0x1_0000_0000 * 0x1_0000_0000 + slotGen % 0x1_0000 * 0x1_0000 + slotIdx % 0x1_0000
  {
    PackedValue(slotIdx, slotGen, msgId);
    BitOr(BitOr(Shl(BitAnd(msgId, 0xFFFF_FFFF), 32), Shl(BitAnd(slotGen, 0xFFFF), 16)), BitAnd(slotIdx, 0xFFFF))
  }

  function DecodeDesc(d: u64): (nat, nat, nat) {
    (BitAnd(d, 0xFFFF), BitAnd(Shr(d, 16), 0xFFFF), BitAnd(Shr(d, 32), 0xFFFF_FFFF))
  }

  lemma {:induction false} Masks(x: nat)
    ensures BitAnd(x, 0xFFFF) == x % 0x1_0000
    ensures BitAnd(x, 0xFFFF_FFFF) == x % 0x1_0000_0000
    ensures Shl(x, 16) == x * 0x1_0000 && Shl(x, 32) == x * 0x1_0000_0000
    ensures Pow2(16) == 0x1_0000 && Pow2(32) == 0x1_0000_0000
  {
    hide BitAnd, Pow2;
    Pow2Values();
    AndMask(x, 16);
    AndMask(x, 32);
  }

  lemma {:induction false} PackedValue(slotIdx: u32, slotGen: u32, msgId: u64)
    ensures BitOr(BitOr(Shl(BitAnd(msgId, 0xFFFF_FFFF), 32), Shl(BitAnd(slotGen, 0xFFFF), 16)), BitAnd(slotIdx, 0xFFFF))
         == msgId % 0x1_0000_0000 * 0x1_0000_0000 + slotGen % 0x1_0000 * 0x1_0000 + slotIdx % 0x1_0000
  {
    hide BitAnd, BitOr, Shl;
    Masks(msgId);
    Masks(slotGen);
    Masks(slotIdx);
    var m, g, i := msgId % 0x1_0000_0000, slotGen % 0x1_0000, slotIdx % 0x1_0000;
    Masks(m);
    Masks(g);
    OrDisjoint(m, g * 0x1_0000, 32);
    OrDisjoint(m * 0x1_0000 + g, i, 16);
    assert (m * 0x1_0000 + g) * 0x1_0000 == m * 0x1_0000_0000 + g * 0x1_0000;
  }

  /** Decoding recovers each field modulo its width. */
  lemma {:induction false} DecodeEncode(slotIdx: u32, slotGen: u32, msgId: u64)
    ensures DecodeDesc(EncodeDesc(slotIdx, slotGen, msgId))
         == (slotIdx % 0x1_0000, slotGen % 0x1_0000, msgId % 0x1_0000_0000)
  {
    hide BitAnd, BitOr, Shl, Shr;
    var m, g, i := msgId % 0x1_0000_0000, slotGen % 0x1_0000, slotIdx % 0x1_0000;
    assert EncodeDesc(slotIdx, slotGen, msgId) == (m * 0x1_0000 + g) * 0x1_0000 + i;
    Unpack(m * 0x1_0000 + g, i);
    Unpack(m, g);
    UnpackId(m, g, i);
  }

  /** The low 16 bits, and what is left above them. */
  lemma {:induction false} Unpack(high: nat, low: u16)
    ensures BitAnd(high * 0x1_0000 + low, 0xFFFF) == low
    ensures Shr(high * 0x1_0000 + low, 16) == high
  {
    hide BitAnd, Shr, Shl, Pow2;
    Masks(high * 0x1_0000 + low);
    DivModUnique(high * 0x1_0000 + low, 0x1_0000, high, low);
    ShrDrops(high, low, 16);
  }

  lemma {:induction false} UnpackId(m: u32, g: u16, i: u16)
    ensures BitAnd(Shr((m * 0x1_0000 + g) * 0x1_0000 + i, 32), 0xFFFF_FFFF) == m
  {
    hide BitAnd, Shr, Shl, Pow2;
    Masks(m);
    ShrDrops(m, g * 0x1_0000 + i, 32);
    assert (m * 0x1_0000 + g) * 0x1_0000 + i == m * 0x1_0000_0000 + (g * 0x1_0000 + i);
  }

  // --------------------------------------------------------------- the ideal session

  datatype Message = Message(id: u64, payloadLen: u32)

  /** A message on its way, with the handle of the slot that carries it. */
  datatype Entry = Entry(handle: SlotHandle, id: nat, len: u32)

  datatype ShmError = SlabFailure(error: SlabError) | RingFull | MessageNotFound

  /** `freed` and `lost` are history: ids taken out of `received` with and without freeing the slot. */
  datatype Shm = Shm(
    capacity: nat,
    slots: Slots,
    nextId: nat,
    pending: seq<Entry>,
    queue: seq<Entry>,
    received: seq<Entry>,
    freed: seq<nat>,
    lost: seq<nat>)

  function Start(ringCapacity: u32, slotCount: u32): Shm {
    Shm(RingCapacity(ringCapacity), FreshSlots(SlotCount(slotCount)), 0, [], [], [], [], [])
  }

  /** Allocate a slot; enqueue it in flight, or keep it pending if the ring is full. */
  function Send(s: Shm, len: u32): (Shm, Result<nat, ShmError>) {
    var (slots', r) := AllocIn(s.slots);
    if r.Err? then (s, Err(SlabFailure(r.error)))
    else
      var e := Entry(r.value, s.nextId, len);
      if |s.queue| < s.capacity then
        (s.(slots := MarkIn(slots', e.handle).0, nextId := s.nextId + 1, queue := s.queue + [e]), Ok(e.id))
      else
        (s.(slots := slots', nextId := s.nextId + 1, pending := s.pending + [e]), Err(RingFull))
  }

  function Recv(s: Shm): Shm {
    if s.queue == [] then s else s.(queue := s.queue[1..], received := s.received + [s.queue[0]])
  }

  /** The handle as it survives packing. */
  function Packed(h: SlotHandle): SlotHandle {
    SlotHandle(h.index, h.generation % 0x1_0000)
  }

  /** Free the slot of the message at position `k`; the receiver only has the packed handle. */
  function FreeAt(s: Shm, k: nat): (Shm, Result<(), SlabError>)
    requires k < |s.received|
  {
    var e := s.received[k];
    var (slots', r) := FreeIn(s.slots, Packed(e.handle));
    (s.(slots := slots',
        received := Without(s.received, k),
        freed := if r.Ok? then s.freed + [e.id] else s.freed,
        lost := if r.Ok? then s.lost else s.lost + [e.id]),
     r)
  }

  function MarkAll(s: Slots, entries: seq<Entry>): Slots {
    if entries == [] then s
    else MarkIn(MarkAll(s, entries[..|entries| - 1]), entries[|entries| - 1].handle).0
  }

  /** How many pending sends fit the ring. */
  function Fit(s: Shm): (n: nat)
    ensures n <= |s.pending|
  {
    if |s.queue| >= s.capacity then 0
    else if |s.pending| <= s.capacity - |s.queue| then |s.pending|
    else s.capacity - |s.queue|
  }

  /** The first `n` pending sends move to the ring, in order. */
  function Retried(s: Shm, n: nat): Shm
    requires n <= |s.pending|
  {
    s.(slots := MarkAll(s.slots, s.pending[..n]), queue := s.queue + s.pending[..n], pending := s.pending[n..])
  }

  // ------------------------------------------------------------- the ownership invariant

  function Handles(entries: seq<Entry>): seq<SlotHandle> {
    seq(|entries|, i requires 0 <= i < |entries| => entries[i].handle)
  }

  function EntryIds(entries: seq<Entry>): seq<nat> {
    seq(|entries|, i requires 0 <= i < |entries| => entries[i].id)
  }

  /**
   * Slots in flight are in bijection with ring descriptors and received messages,
   * allocated slots with pending sends, each through its current handle.
   */
  ghost predicate Owned(s: Shm) {
    && |s.queue| <= s.capacity
    && Tracks(s.slots, Handles(s.received + s.queue), InFlight)
    && Tracks(s.slots, Handles(s.pending), Allocated)
  }

  ghost function Below(n: nat): multiset<nat> {
    if n == 0 then multiset{} else Below(n - 1) + multiset{n - 1}
  }

  ghost function Everywhere(s: Shm): multiset<nat> {
    multiset(EntryIds(s.pending)) + multiset(EntryIds(s.queue)) + multiset(EntryIds(s.received)) + multiset(s.freed)
        + multiset(s.lost)
  }

  /** Every id handed out is in exactly one place. */
  ghost predicate Conserved(s: Shm) {
    Everywhere(s) == Below(s.nextId)
  }

  lemma {:induction false} BelowCounts(n: nat, id: nat)
    ensures Below(n)[id] == if id < n then 1 else 0
  {
    if n > 0 {
      BelowCounts(n - 1, id);
    }
  }

  lemma {:induction false} HandlesConcat(a: seq<Entry>, b: seq<Entry>)
    ensures Handles(a + b) == Handles(a) + Handles(b)
    ensures EntryIds(a + b) == EntryIds(a) + EntryIds(b)
  {
  }

  lemma {:induction false} HandlesWithout(a: seq<Entry>, b: seq<Entry>, k: nat)
    requires k < |a|
    ensures Handles(Without(a, k) + b) == Without(Handles(a + b), k)
    ensures Handles(a + b)[k] == a[k].handle
    ensures EntryIds(Without(a, k)) == Without(EntryIds(a), k)
  {
  }

  lemma {:induction false} WithoutMultiset(s: seq<nat>, k: nat)
    requires k < |s|
    ensures multiset(s) == multiset(Without(s, k)) + multiset{s[k]}
  {
    assert s == s[..k] + [s[k]] + s[k + 1..];
  }

  /** Starting a slot off: allocated, and possibly in flight at once. */
  lemma {:induction false} AllocOwned(slots: Slots, flying: seq<SlotHandle>, waiting: seq<SlotHandle>)
    requires Tracks(slots, flying, InFlight) && Tracks(slots, waiting, Allocated) && AllocIn(slots).1.Ok?
    ensures var (slots', r) := AllocIn(slots);
            && Tracks(slots', flying, InFlight) && Tracks(slots', waiting + [r.value], Allocated)
            && MarkIn(slots', r.value).1.Ok?
            && Tracks(MarkIn(slots', r.value).0, flying + [r.value], InFlight)
            && Tracks(MarkIn(slots', r.value).0, waiting, Allocated)
  {
    var (slots', r) := AllocIn(slots);
    var h := r.value;
    TracksOther(slots, flying, InFlight, h.index, SlotMeta(h.generation, Allocated));
    TracksEnter(slots, waiting, Allocated, h);
    TracksEnter(slots', flying, InFlight, h);
    TracksLeave(slots', waiting + [h], Allocated, |waiting|, SlotMeta(h.generation, InFlight));
    assert Without(waiting + [h], |waiting|) == waiting;
  }

  lemma {:induction false} AllocatedSlotMarks(slots: Slots)
    ensures var (slots', r) := AllocIn(slots);
            if r.Ok? then MarkIn(slots', r.value).1.Ok? else slots' == slots
  {
  }

  lemma {:induction false} SendOwned(s: Shm, len: u32)
    requires Owned(s) && Conserved(s)
    ensures Owned(Send(s, len).0) && Conserved(Send(s, len).0) && Send(s, len).0.lost == s.lost
  {
    SendTracks(s, len);
    SendConserves(s, len);
  }

  lemma {:induction false} SendTracks(s: Shm, len: u32)
    requires Owned(s)
    ensures Owned(Send(s, len).0)
  {
    hide Tracks, AllocIn, MarkIn, Handles, EntryIds;
    var (slots', r) := AllocIn(s.slots);
    if r.Ok? {
      AllocOwned(s.slots, Handles(s.received + s.queue), Handles(s.pending));
      var e := Entry(r.value, s.nextId, len);
      HandlesConcat(s.received + s.queue, [e]);
      HandlesConcat(s.pending, [e]);
      HandlesOfOne(e);
      assert (s.received + s.queue) + [e] == s.received + (s.queue + [e]);
    }
  }

  lemma {:induction false} HandlesOfOne(e: Entry)
    ensures Handles([e]) == [e.handle] && EntryIds([e]) == [e.id]
  {
  }

  lemma {:induction false} SendConserves(s: Shm, len: u32)
    requires Conserved(s)
    ensures Conserved(Send(s, len).0)
  {
    hide AllocIn, MarkIn, Handles, EntryIds;
    var r := AllocIn(s.slots).1;
    if r.Ok? {
      var e := Entry(r.value, s.nextId, len);
      HandlesOfOne(e);
      HandlesConcat(s.pending, [e]);
      HandlesConcat(s.queue, [e]);
      hide Conserved;
      AddedConserves(s, Send(s, len).0);
    }
  }

  lemma {:induction false} AddedConserves(s: Shm, t: Shm)
    requires Conserved(s) && t.nextId == s.nextId + 1
    requires t.received == s.received && t.freed == s.freed && t.lost == s.lost
    requires || (EntryIds(t.pending) == EntryIds(s.pending) + [s.nextId] && t.queue == s.queue)
             || (EntryIds(t.queue) == EntryIds(s.queue) + [s.nextId] && t.pending == s.pending)
    ensures Conserved(t)
  {
    hide EntryIds;
    assert Everywhere(t) == Everywhere(s) + multiset{s.nextId};
  }

  lemma {:induction false} RecvOwned(s: Shm)
    requires Owned(s) && Conserved(s)
    ensures Owned(Recv(s)) && Conserved(Recv(s)) && Recv(s).lost == s.lost
  {
    hide Tracks;
    if s.queue != [] {
      var e := s.queue[0];
      assert s.queue == [e] + s.queue[1..];
      assert (s.received + [e]) + s.queue[1..] == s.received + s.queue;
      HandlesConcat([e], s.queue[1..]);
      HandlesConcat(s.received, [e]);
    }
  }

  /**
   * Freeing a received message succeeds exactly when its generation survived packing,
   * that is, when the slot was handed out fewer than 2^16 times.
   */
  lemma {:induction false} FreeSucceedsIff(s: Shm, k: nat)
    requires Owned(s) && k < |s.received|
    ensures FreeAt(s, k).1.Ok? <==> s.received[k].handle.generation < 0x1_0000
    ensures FreeAt(s, k).1.Err? ==> FreeAt(s, k).1.error == StaleGeneration
  {
    assert Handles(s.received + s.queue)[k] == s.received[k].handle;
  }

  lemma {:induction false} FreeOwned(s: Shm, k: nat)
    requires Owned(s) && Conserved(s) && k < |s.received| && s.received[k].handle.generation < 0x1_0000
    ensures Owned(FreeAt(s, k).0) && Conserved(FreeAt(s, k).0)
    ensures FreeAt(s, k).0.lost == s.lost
  {
    FreeSucceedsIff(s, k);
    hide Tracks;
    var h := s.received[k].handle;
    HandlesWithout(s.received, s.queue, k);
    FreeTracks(s.slots, Handles(s.received + s.queue), Handles(s.pending), k);
    WithoutMultiset(EntryIds(s.received), k);
  }

  lemma {:induction false} FreeTracks(slots: Slots, flying: seq<SlotHandle>, waiting: seq<SlotHandle>, k: nat)
    requires Tracks(slots, flying, InFlight) && Tracks(slots, waiting, Allocated) && k < |flying|
    ensures FreeIn(slots, flying[k]).1.Ok?
    ensures Tracks(FreeIn(slots, flying[k]).0, Without(flying, k), InFlight)
    ensures Tracks(FreeIn(slots, flying[k]).0, waiting, Allocated)
  {
    var h := flying[k];
    TracksLeave(slots, flying, InFlight, k, SlotMeta(h.generation, Free));
    TracksOther(slots, waiting, Allocated, h.index, SlotMeta(h.generation, Free));
  }

  lemma {:induction false} MarkTracks(slots: Slots, flying: seq<SlotHandle>, waiting: seq<SlotHandle>)
    requires Tracks(slots, flying, InFlight) && Tracks(slots, waiting, Allocated) && waiting != []
    ensures MarkIn(slots, waiting[0]).1.Ok?
    ensures Tracks(MarkIn(slots, waiting[0]).0, flying + [waiting[0]], InFlight)
    ensures Tracks(MarkIn(slots, waiting[0]).0, waiting[1..], Allocated)
  {
    var h := waiting[0];
    TracksLeave(slots, waiting, Allocated, 0, SlotMeta(h.generation, InFlight));
    TracksEnter(slots, flying, InFlight, h);
    assert Without(waiting, 0) == waiting[1..];
  }

  /** The first pending send moves to the ring. */
  lemma {:induction false} RetryOneOwned(s: Shm, s': Shm)
    requires Owned(s) && Conserved(s) && s.pending != [] && |s.queue| < s.capacity
    requires s' == s.(slots := MarkIn(s.slots, s.pending[0].handle).0, queue := s.queue + [s.pending[0]],
        pending := s.pending[1..])
    ensures MarkIn(s.slots, s.pending[0].handle).1.Ok?
    ensures Owned(s') && Conserved(s')
  {
    hide Tracks, MarkIn;
    var e := s.pending[0];
    MarkTracks(s.slots, Handles(s.received + s.queue), Handles(s.pending));
    HandlesConcat(s.received + s.queue, [e]);
    HandlesConcat([e], s.pending[1..]);
    HandlesConcat(s.queue, [e]);
    assert (s.received + s.queue) + [e] == s.received + (s.queue + [e]);
    assert [e] + s.pending[1..] == s.pending;
    assert Handles([e]) == [e.handle];
  }

  lemma {:induction false} RetriedStep(s: Shm, n: nat)
    requires 0 < n <= |s.pending|
    ensures var before := Retried(s, n - 1);
            && before.pending != [] && before.pending[0] == s.pending[n - 1]
            && Retried(s, n) == before.(slots := MarkIn(before.slots, s.pending[n - 1].handle).0,
                                        queue := before.queue + [s.pending[n - 1]],
                                        pending := before.pending[1..])
  {
    hide MarkIn;
    var e := s.pending[n - 1];
    assert s.pending[..n][..n - 1] == s.pending[..n - 1];
    assert s.pending[..n] == s.pending[..n - 1] + [e];
    assert s.queue + s.pending[..n - 1] + [e] == s.queue + s.pending[..n];
  }

  /** One pending send after the other moves to the ring, and each marking succeeds. */
  lemma {:induction false} RetriedOwned(s: Shm, n: nat)
    requires Owned(s) && Conserved(s) && n <= Fit(s)
    ensures Owned(Retried(s, n)) && Conserved(Retried(s, n))
    ensures n > 0 ==> MarkIn(Retried(s, n - 1).slots, s.pending[n - 1].handle).1.Ok?
    ensures n > 0 ==> Retried(s, n).slots == MarkIn(Retried(s, n - 1).slots, s.pending[n - 1].handle).0
  {
    if n == 0 {
      RetriedStart(s);
    } else {
      RetriedOwned(s, n - 1);
      RetriedStep(s, n);
      hide Tracks, MarkIn, Owned, Conserved, MarkAll;
      RetryOneOwned(Retried(s, n - 1), Retried(s, n));
    }
  }

  // ------------------------------------------------------------------- the real session

  function DescOf(e: Entry): TestDescriptor {
    TestDescriptor(EncodeDesc(e.handle.index, e.handle.generation, e.id % 0x1_0000_0000_0000_0000))
  }

  function DescsOf(entries: seq<Entry>): (r: seq<TestDescriptor>)
    ensures |r| == |entries|
  {
    seq(|entries|, i requires 0 <= i < |entries| => DescOf(entries[i]))
  }

  /** What the producer remembers of a pending send. */
  function PendingPair(e: Entry): (SlotHandle, Message) {
    (e.handle, Message(e.id % 0x1_0000_0000_0000_0000, e.len))
  }

  function PendingPairs(entries: seq<Entry>): (r: seq<(SlotHandle, Message)>)
    ensures |r| == |entries|
  {
    seq(|entries|, i requires 0 <= i < |entries| => PendingPair(entries[i]))
  }

  /** What the consumer learns from a descriptor. */
  function ReceivedPair(e: Entry): (SlotHandle, Message) {
    (Packed(e.handle), Message(e.id % 0x1_0000_0000, 0))
  }

  function ReceivedPairs(entries: seq<Entry>): (r: seq<(SlotHandle, Message)>)
    ensures |r| == |entries|
  {
    seq(|entries|, i requires 0 <= i < |entries| => ReceivedPair(entries[i]))
  }

  lemma {:induction false} PackPush(entries: seq<Entry>, e: Entry)
    ensures DescsOf(entries + [e]) == DescsOf(entries) + [DescOf(e)]
    ensures PendingPairs(entries + [e]) == PendingPairs(entries) + [PendingPair(e)]
    ensures ReceivedPairs(entries + [e]) == ReceivedPairs(entries) + [ReceivedPair(e)]
  {
    hide DescOf, PendingPair, ReceivedPair;
  }

  lemma {:induction false} PackPart(entries: seq<Entry>, n: nat)
    requires n <= |entries|
    ensures DescsOf(entries[n..]) == DescsOf(entries)[n..]
    ensures PendingPairs(entries[n..]) == PendingPairs(entries)[n..]
    ensures n < |entries| ==> DescsOf(entries)[n] == DescOf(entries[n])
    ensures n < |entries| ==> PendingPairs(entries)[n] == PendingPair(entries[n])
    ensures n < |entries| ==> ReceivedPairs(entries)[n] == ReceivedPair(entries[n])
    ensures n < |entries| ==> ReceivedPairs(Without(entries, n)) == Without(ReceivedPairs(entries), n)
  {
    hide DescOf, PendingPair, ReceivedPair;
  }

  /** The ids in use are below the counter. */
  lemma {:induction false} PendingIdBelow(s: Shm, i: nat)
    requires Conserved(s) && i < |s.pending|
    ensures s.pending[i].id < s.nextId
  {
    var id := s.pending[i].id;
    assert EntryIds(s.pending)[i] == id;
    assert multiset(EntryIds(s.pending))[id] >= 1;
    assert Everywhere(s)[id] >= 1;
    BelowCounts(s.nextId, id);
  }

  lemma {:induction false} QueueHead(s: Shm)
    requires Owned(s) && Conserved(s) && s.queue != []
    ensures s.queue[0].handle.index < MAX_SLOT_COUNT && s.queue[0].id < s.nextId
  {
    assert Handles(s.received + s.queue)[|s.received|] == s.queue[0].handle;
    var id := s.queue[0].id;
    assert EntryIds(s.queue)[0] == id;
    assert multiset(EntryIds(s.queue))[id] >= 1;
    assert Everywhere(s)[id] >= 1;
    BelowCounts(s.nextId, id);
  }

  /** What receiving does to the packed fields. */
  lemma {:induction false} RecvFields(s: Shm)
    requires Owned(s) && Conserved(s) && s.nextId < 0x1_0000_0000_0000_0000
    ensures var t := Recv(s);
            t.pending == s.pending && t.slots == s.slots && t.nextId == s.nextId && t.capacity == s.capacity
    ensures s.queue == [] ==> Recv(s) == s && DescsOf(s.queue) == []
    ensures s.queue != [] ==>
              var e := s.queue[0];
              && DescsOf(s.queue)[0] == DescOf(e) && DescsOf(Recv(s).queue) == DescsOf(s.queue)[1..]
              && ReceivedPairs(Recv(s).received) == ReceivedPairs(s.received) + [ReceivedPair(e)]
              && DecodeDesc(DescOf(e).id) == (e.handle.index, e.handle.generation % 0x1_0000, e.id % 0x1_0000_0000)
  {
    hide DescsOf, ReceivedPairs, EncodeDesc, DecodeDesc, Owned, Conserved;
    if s.queue != [] {
      var e := s.queue[0];
      QueueHead(s);
      PackPart(s.queue, 0);
      PackPart(s.queue, 1);
      PackPush(s.received, e);
      DecodeEncode(e.handle.index, e.handle.generation, e.id);
    }
  }

  /** What freeing does to the packed fields. */
  lemma {:induction false} FreeFields(s: Shm, k: nat)
    requires Owned(s) && Conserved(s) && k < |s.received|
    ensures var ((slots', r), t) := (FreeIn(s.slots, Packed(s.received[k].handle)), FreeAt(s, k).0);
            && ReceivedPairs(s.received)[k] == ReceivedPair(s.received[k])
            && ReceivedPairs(t.received) == Without(ReceivedPairs(s.received), k)
            && t.slots == slots' && t.queue == s.queue && t.pending == s.pending && t.nextId == s.nextId
            && t.capacity == s.capacity
            && (r.Ok? <==> s.received[k].handle.generation < 0x1_0000)
            && (r.Ok? ==> Owned(t) && Conserved(t))
  {
    hide ReceivedPairs, Owned, Conserved, FreeIn;
    FreeSucceedsIff(s, k);
    PackPart(s.received, k);
    if s.received[k].handle.generation < 0x1_0000 {
      FreeOwned(s, k);
    }
  }

  /** What sending does to the packed fields. */
  lemma {:induction false} SendFields(s: Shm, len: u32)
    requires s.nextId < 0x1_0000_0000_0000_0000
    ensures var ((slots', r), (t, out)) := (AllocIn(s.slots), Send(s, len));
            && t.capacity == s.capacity && t.received == s.received
            && (r.Err? ==> t == s && slots' == s.slots && out == Err(SlabFailure(r.error)))
            && (r.Ok? ==>
                  && t.nextId == s.nextId + 1 && MarkIn(slots', r.value).1.Ok?
                  && (if |s.queue| < s.capacity then
                        && out == Ok(s.nextId) && t.slots == MarkIn(slots', r.value).0 && t.pending == s.pending
                        && DescsOf(t.queue) == DescsOf(s.queue)
                            + [TestDescriptor(EncodeDesc(r.value.index, r.value.generation, s.nextId))]
                      else
                        && out == Err(RingFull) && t.slots == slots' && t.queue == s.queue
                        && PendingPairs(t.pending) == PendingPairs(s.pending) + [(r.value, Message(s.nextId, len))]))
  {
    hide DescsOf, PendingPairs, ReceivedPairs, EncodeDesc, MarkIn, AllocIn;
    AllocatedSlotMarks(s.slots);
    var r := AllocIn(s.slots).1;
    if r.Ok? {
      var e := Entry(r.value, s.nextId, len);
      PackPush(s.queue, e);
      PackPush(s.pending, e);
    }
  }

  class ShmSession {
    const ring: RingModel
    const slab: SlabModel
    var nextMsgId: u64
    var pending: seq<(SlotHandle, Message)>
    var received: seq<(SlotHandle, Message)>
    /** The ideal session that this one packs. */
    ghost var ideal: Shm

    ghost predicate Valid()
      reads this, ring, ring.descriptors, slab, slab.slots
    {
      Linked() && Owned(ideal) && Conserved(ideal)
    }

    /** The fields are the packed form of the ideal session. */
    ghost predicate Linked()
      reads this, ring, ring.descriptors, slab, slab.slots
    {
      && ring.Valid() && slab.Valid() && ring.descriptors as object != slab.slots
      && ideal.capacity == ring.capacity && ideal.slots == slab.View() && ideal.nextId == nextMsgId
      && ring.localHead + |pending| == nextMsgId
      && ring.contents == DescsOf(ideal.queue)
      && pending == PendingPairs(ideal.pending)
      && received == ReceivedPairs(ideal.received)
    }

    constructor (ringCapacity: u32, slotCount: u32)
      ensures Valid() && fresh(ring) && fresh(ring.descriptors) && fresh(slab) && fresh(slab.slots)
      ensures ideal == Start(ringCapacity, slotCount)
      ensures nextMsgId == 0 && pending == [] && received == [] && ring.contents == []
    {
      ring := new RingModel(ringCapacity);
      slab := new SlabModel(slotCount);
      nextMsgId, pending, received := 0, [], [];
      ideal := Start(ringCapacity, slotCount);
      CountFresh(SlotCount(slotCount), Allocated);
      CountFresh(SlotCount(slotCount), InFlight);
    }

    method ASend(payloadLen: u32) returns (r: Result<u64, ShmError>)
      requires Valid() && nextMsgId + 1 < 0x1_0000_0000_0000_0000
      modifies this, ring, ring.descriptors, slab.slots
      ensures Valid() && (ideal, r) == Send(old(ideal), payloadLen)
      ensures received == old(received)
    {
      hide DescsOf, PendingPairs, ReceivedPairs, EncodeDesc, Owned, Conserved, AllocIn, MarkIn, Send,
        RingModel.Valid, SlabModel.Valid, SlabModel.View;
      SendOwned(ideal, payloadLen);
      SendFields(ideal, payloadLen);
      var alloc := slab.Alloc();
      ideal := Send(ideal, payloadLen).0;
      if alloc.Err? {
        return Err(SlabFailure(alloc.error));
      }
      var slot, id := alloc.value, nextMsgId;
      nextMsgId := nextMsgId + 1;
      var sent := ring.Enqueue(TestDescriptor(EncodeDesc(slot.index, slot.generation, id)));
      if sent.Err? {
        pending := pending + [(slot, Message(id, payloadLen))];
        return Err(RingFull);
      }
      var marked := slab.MarkInFlight(slot);
      match marked {
        case Err(e) => return Err(SlabFailure(e));
        case Ok(_) => return Ok(id);
      }
    }

    method BRecv() returns (r: Option<Message>)
      requires Valid()
      modifies this, ring
      ensures Valid() && ideal == Recv(old(ideal))
      ensures r == if old(ideal).queue == [] then None
                   else Some(Message(old(ideal).queue[0].id % 0x1_0000_0000, 0))
      ensures nextMsgId == old(nextMsgId)
      ensures if r.None? then received == old(received)
              else |received| == |old(received)| + 1 && old(received) <= received
                   && received[|old(received)|].1 == r.value
    {
      hide DescsOf, PendingPairs, ReceivedPairs, DescOf, DecodeDesc, Owned, Conserved, Recv,
        RingModel.Valid, SlabModel.Valid, SlabModel.View;
      RecvOwned(ideal);
      RecvFields(ideal);
      var desc := ring.Dequeue();
      if desc.None? {
        return None;
      }
      var (slotIdx, slotGen, msgId) := DecodeDesc(desc.value.id);
      var message := Message(msgId, 0);
      received := received + [(SlotHandle(slotIdx, slotGen), message)];
      ideal := Recv(ideal);
      return Some(message);
    }

    /**
     * Free the slot of the first received message with that id, at position `k`. If the
     * slab refuses the packed handle, the message is gone all the same.
     */
    method BFree(msgId: u64) returns (r: Result<(), ShmError>, ghost k: nat)
      requires Valid()
      modifies this, slab.slots
      ensures Linked() && (r.Ok? ==> Valid()) && nextMsgId == old(nextMsgId)
      ensures k <= |old(received)| && forall i :: 0 <= i < k ==> old(received)[i].1.id != msgId
      ensures k == |old(received)| ==> r == Err(MessageNotFound) && ideal == old(ideal) && received == old(received)
      ensures k < |old(received)| ==>
                && old(received)[k].1.id == msgId
                && received == Without(old(received), k)
                && ideal == FreeAt(old(ideal), k).0
                && (r.Ok? <==> old(ideal).received[k].handle.generation < 0x1_0000)
    {
      hide DescsOf, PendingPairs, ReceivedPairs, Owned, Conserved, FreeIn, FreeAt, RingModel.Valid, SlabModel.Valid,
          SlabModel.View;
      for i := 0 to |received|
        invariant forall j :: 0 <= j < i ==> received[j].1.id != msgId
      {
        if received[i].1.id == msgId {
          FreeFields(ideal, i);
          var slot := received[i].0;
          received := Without(received, i);
          ideal := FreeAt(ideal, i).0;
          var freed := slab.Release(slot);
          match freed {
            case Err(e) => return Err(SlabFailure(e)), i;
            case Ok(_) => return Ok(()), i;
          }
        }
      }
      return Err(MessageNotFound), |received|;
    }

    /** Publish the descriptor of a slot if the ring has room, and then mark the slot in flight. */
    method EnqueueAndMark(slot: SlotHandle, msgId: u64) returns (enqueued: bool, marked: bool)
      requires ring.Valid() && slab.Valid() && ring.descriptors as object != slab.slots
      requires ring.localHead + 1 < 0x1_0000_0000_0000_0000
      modifies ring, ring.descriptors, slab.slots
      ensures ring.Valid() && (enqueued <==> |old(ring.contents)| < ring.capacity)
      ensures ring.contents ==
              if enqueued then old(ring.contents) + [TestDescriptor(EncodeDesc(slot.index, slot.generation, msgId))]
              else old(ring.contents)
      ensures ring.localHead == old(ring.localHead) + (if enqueued then 1 else 0)
      ensures slab.View() == if enqueued then MarkIn(old(slab.View()), slot).0 else old(slab.View())
      ensures marked <==> enqueued && MarkIn(old(slab.View()), slot).1.Ok?
    {
      hide RingModel.Valid, SlabModel.Valid, SlabModel.View, MarkIn, EncodeDesc;
      var r := ring.Enqueue(TestDescriptor(EncodeDesc(slot.index, slot.generation, msgId)));
      if r.Err? {
        return false, false;
      }
      var m := slab.MarkInFlight(slot);
      return true, m.Ok?;
    }

    /** Exactly the longest prefix of the pending sends that fits the ring is sent, in order. */
    method ARetryPending() returns (sent: seq<u64>)
      requires Valid()
      modifies this, ring, ring.descriptors, slab.slots
      ensures Valid() && ideal == Retried(old(ideal), Fit(old(ideal)))
      ensures sent == EntryIds(old(ideal).pending[..Fit(old(ideal))])
      ensures nextMsgId == old(nextMsgId) && received == old(received)
    {
      hide DescsOf, PendingPairs, ReceivedPairs, EntryIds, EncodeDesc, Owned, Conserved, Retried, MarkIn, Fit,
        RingModel.Valid, SlabModel.Valid, SlabModel.View;
      ghost var before, cur, n := ideal, ideal, 0;
      RetriedStart(before);
      QueueBounded(before);
      sent := [];
      var all := pending;
      pending := [];
      for j := 0 to |all|
        invariant ring.Valid() && slab.Valid()
        invariant unchanged(this`nextMsgId) && unchanged(this`received) && unchanged(this`ideal)
        invariant n <= j && |cur.queue| <= cur.capacity && (n < j ==> |cur.queue| == cur.capacity)
        invariant cur == Retried(before, n) && |cur.queue| == |before.queue| + n && cur.capacity == before.capacity
        invariant ring.contents == DescsOf(cur.queue) && ring.localHead == old(ring.localHead) + n
        invariant slab.View() == cur.slots
        invariant pending == all[n..j]
        invariant sent == EntryIds(before.pending[..n])
      {
        var (slot, message) := all[j];
        var enqueued, marked := EnqueueAndMark(slot, message.id);
        if enqueued {
          RetryNext(before, n);
          if marked {
            sent := sent + [message.id];
          }
          n := n + 1;
          cur := Retried(before, n);
        } else {
          pending := pending + [all[j]];
        }
      }
      FitReached(before, n);
      RetriedOwned(before, n);
      ideal := cur;
      RetriedFields(before, n);
      PackPart(before.pending, n);
    }
  }

  lemma {:induction false} QueueBounded(s: Shm)
    requires Owned(s)
    ensures |s.queue| <= s.capacity
  {
  }

  /** What moving one more pending send does to the packed fields. */
  lemma {:induction false} RetryNext(s: Shm, n: nat)
    requires Owned(s) && Conserved(s) && n < |s.pending| && |s.queue| + n < s.capacity
    ensures var e, t, t' := s.pending[n], Retried(s, n), Retried(s, n + 1);
            && PendingPairs(s.pending)[n] == PendingPair(e) && e.id < s.nextId
            && MarkIn(t.slots, e.handle).1.Ok? && t'.slots == MarkIn(t.slots, e.handle).0
            && DescsOf(t'.queue) == DescsOf(t.queue) + [DescOf(e)]
            && |t'.queue| == |t.queue| + 1 && t'.capacity == t.capacity
            && EntryIds(s.pending[..n + 1]) == EntryIds(s.pending[..n]) + [e.id]
  {
    hide DescsOf, PendingPairs, EntryIds, EncodeDesc, Owned, Conserved, Retried, MarkIn, Fit;
    var e := s.pending[n];
    FitReached(s, n);
    RetriedOwned(s, n + 1);
    RetriedStep(s, n + 1);
    PackPart(s.pending, n);
    PackPush(Retried(s, n).queue, e);
    PendingIdBelow(s, n);
    IdsPush(s.pending[..n], e);
    assert s.pending[..n + 1] == s.pending[..n] + [e];
  }

  /** Retrying stops at the fit: there is room before it and none at it. */
  lemma {:induction false} FitReached(s: Shm, n: nat)
    requires n <= |s.pending| && |s.queue| + n <= s.capacity
    ensures n < |s.pending| && |s.queue| + n < s.capacity ==> n + 1 <= Fit(s)
    ensures n == |s.pending| || |s.queue| + n == s.capacity ==> n == Fit(s)
  {
  }

  lemma {:induction false} RetriedFields(s: Shm, n: nat)
    requires n <= |s.pending|
    ensures var r := Retried(s, n);
            && r.pending == s.pending[n..] && r.queue == s.queue + s.pending[..n]
            && r.received == s.received && r.nextId == s.nextId && r.capacity == s.capacity && r.lost == s.lost
  {
  }

  lemma {:induction false} RetriedStart(s: Shm)
    ensures Retried(s, 0) == s && EntryIds(s.pending[..0]) == []
  {
    assert s.pending[..0] == [] && s.pending[0..] == s.pending && s.queue + [] == s.queue;
  }

  lemma {:induction false} IdsPush(entries: seq<Entry>, e: Entry)
    ensures EntryIds(entries + [e]) == EntryIds(entries) + [e.id]
  {
  }

  // ------------------------------------------------------------------------------ runs

  datatype ShmOp = OpSend(len: u16) | OpRecv | OpFree(idx: u8) | OpRetry

  function Step(s: Shm, op: ShmOp): Shm {
    match op
    case OpSend(len) => Send(s, len).0
    case OpRecv => Recv(s)
    case OpFree(idx) => if s.received == [] then s else FreeAt(s, idx % |s.received|).0
    case OpRetry => Retried(s, Fit(s))
  }

  function At(s: Shm, ops: seq<ShmOp>, i: nat): Shm
    requires i <= |ops|
  {
    if i == 0 then s else Step(At(s, ops, i - 1), ops[i - 1])
  }

  /** If the operation frees a message, its slot was handed out fewer than 2^16 times. */
  predicate Fits(s: Shm, op: ShmOp) {
    op.OpFree? && s.received != [] ==> s.received[op.idx % |s.received|].handle.generation < 0x1_0000
  }

  /** So do all of the first `n` operations. */
  predicate RunFits(s: Shm, ops: seq<ShmOp>, n: nat)
    requires n <= |ops|
  {
    n == 0 || (RunFits(s, ops, n - 1) && Fits(At(s, ops, n - 1), ops[n - 1]))
  }

  lemma {:induction false} RunFitsPrefix(s: Shm, ops: seq<ShmOp>, i: nat, n: nat)
    requires i <= n <= |ops| && RunFits(s, ops, n)
    ensures RunFits(s, ops, i)
  {
    if i < n {
      RunFitsPrefix(s, ops, i, n - 1);
    }
  }

  lemma {:induction false} StartOwned(ringCapacity: u32, slotCount: u32)
    ensures Owned(Start(ringCapacity, slotCount)) && Conserved(Start(ringCapacity, slotCount))
  {
    CapacityIsPowerOfTwo(ringCapacity);
    CountFresh(SlotCount(slotCount), Allocated);
    CountFresh(SlotCount(slotCount), InFlight);
  }

  lemma {:induction false} StepOwned(s: Shm, op: ShmOp)
    requires Owned(s) && Conserved(s) && Fits(s, op)
    ensures Owned(Step(s, op)) && Conserved(Step(s, op)) && Step(s, op).lost == s.lost
  {
    hide Owned, Conserved, Send, Recv, FreeAt, Retried, Fit;
    match op
    case OpSend(len) => SendOwned(s, len);
    case OpRecv => RecvOwned(s);
    case OpFree(idx) => if s.received != [] { FreeOwned(s, idx % |s.received|); }
    case OpRetry =>
      RetriedOwned(s, Fit(s));
      RetriedFields(s, Fit(s));
  }

  lemma {:induction false} RunOwned(ringCapacity: u32, slotCount: u32, ops: seq<ShmOp>, n: nat)
    requires n <= |ops| && RunFits(Start(ringCapacity, slotCount), ops, n)
    ensures var s := At(Start(ringCapacity, slotCount), ops, n); Owned(s) && Conserved(s) && s.lost == []
  {
    var start := Start(ringCapacity, slotCount);
    if n == 0 {
      StartOwned(ringCapacity, slotCount);
    } else {
      hide Step, Owned, Conserved, Start, Fits;
      RunOwned(ringCapacity, slotCount, ops, n - 1);
      StepOwned(At(start, ops, n - 1), ops[n - 1]);
    }
  }

  /**
   * Conservation along every run that never frees through an overflowed generation: each
   * id handed out is in exactly one of pending, ring, received or freed.
   */
  lemma {:induction false} MessagesConserved(ringCapacity: u32, slotCount: u32, ops: seq<ShmOp>, n: nat, id: nat)
    requires n <= |ops| && RunFits(Start(ringCapacity, slotCount), ops, n)
    ensures var s := At(Start(ringCapacity, slotCount), ops, n);
            Placed(s, id) == if id < s.nextId then 1 else 0
  {
    hide Step, Start, Owned, Fits;
    RunOwned(ringCapacity, slotCount, ops, n);
    ConservedPlaces(At(Start(ringCapacity, slotCount), ops, n), id);
  }

  /** In how many places an id is. */
  ghost function Placed(s: Shm, id: nat): nat {
    multiset(EntryIds(s.pending))[id] + multiset(EntryIds(s.queue))[id] + multiset(EntryIds(s.received))[id]
        + multiset(s.freed)[id]
  }

  lemma {:induction false} ConservedPlaces(s: Shm, id: nat)
    requires Conserved(s) && s.lost == []
    ensures Placed(s, id) == if id < s.nextId then 1 else 0
  {
    BelowCounts(s.nextId, id);
    assert Everywhere(s)[id] == Placed(s, id) + multiset(s.lost)[id];
  }

  lemma {:induction false} RecvConserves(s: Shm)
    requires Conserved(s)
    ensures Conserved(Recv(s))
  {
    if s.queue != [] {
      var e := s.queue[0];
      assert s.queue == [e] + s.queue[1..];
      HandlesConcat([e], s.queue[1..]);
      HandlesConcat(s.received, [e]);
    }
  }

  lemma {:induction false} IdAt(entries: seq<Entry>, k: nat)
    requires k < |entries|
    ensures |EntryIds(entries)| == |entries| && EntryIds(entries)[k] == entries[k].id
  {
  }

  lemma {:induction false} FreeConserves(s: Shm, k: nat)
    requires Conserved(s) && k < |s.received|
    ensures Conserved(FreeAt(s, k).0)
  {
    hide FreeIn, EntryIds, Handles, Without;
    HandlesWithout(s.received, s.queue, k);
    IdAt(s.received, k);
    WithoutMultiset(EntryIds(s.received), k);
  }

  lemma {:induction false} RetryConserves(s: Shm, n: nat)
    requires Conserved(s) && n <= |s.pending|
    ensures Conserved(Retried(s, n))
  {
    hide MarkAll;
    assert s.pending == s.pending[..n] + s.pending[n..];
    HandlesConcat(s.pending[..n], s.pending[n..]);
    HandlesConcat(s.queue, s.pending[..n]);
  }

  lemma {:induction false} StepConserves(s: Shm, op: ShmOp)
    requires Conserved(s)
    ensures Conserved(Step(s, op))
  {
    hide Conserved, Send, Recv, FreeAt, Retried, Fit;
    match op
    case OpSend(len) => SendConserves(s, len);
    case OpRecv => RecvConserves(s);
    case OpFree(idx) => if s.received != [] { FreeConserves(s, idx % |s.received|); }
    case OpRetry => RetryConserves(s, Fit(s));
  }

  lemma {:induction false} RunConserves(ringCapacity: u32, slotCount: u32, ops: seq<ShmOp>, n: nat)
    requires n <= |ops|
    ensures Conserved(At(Start(ringCapacity, slotCount), ops, n))
  {
    hide Step, Conserved, Start;
    if n == 0 {
      StartOwned(ringCapacity, slotCount);
    } else {
      RunConserves(ringCapacity, slotCount, ops, n - 1);
      StepConserves(At(Start(ringCapacity, slotCount), ops, n - 1), ops[n - 1]);
    }
  }

  /**
   * Along every run whatever, overflowed generations included, each id handed out is in
   * exactly one of pending, ring, received, freed, or lost to a refused free.
   */
  lemma {:induction false} NoIdGoesMissing(ringCapacity: u32, slotCount: u32, ops: seq<ShmOp>, n: nat, id: nat)
    requires n <= |ops|
    ensures var s := At(Start(ringCapacity, slotCount), ops, n);
            Placed(s, id) + multiset(s.lost)[id] == if id < s.nextId then 1 else 0
  {
    hide Step, Start;
    var s := At(Start(ringCapacity, slotCount), ops, n);
    RunConserves(ringCapacity, slotCount, ops, n);
    BelowCounts(s.nextId, id);
    assert Everywhere(s)[id] == Placed(s, id) + multiset(s.lost)[id];
  }

  // ---------------------------------------------------------- the bound on the sends

  function Sends(ops: seq<ShmOp>, n: nat): nat
    requires n <= |ops|
  {
    if n == 0 then 0 else Sends(ops, n - 1) + (if ops[n - 1].OpSend? then 1 else 0)
  }

  ghost predicate GenerationsWithin(s: Slots, bound: nat) {
    forall i :: 0 <= i < |s| ==> s[i].generation <= bound
  }

  lemma {:induction false} MarkAllGenerations(s: Slots, entries: seq<Entry>, bound: nat)
    requires GenerationsWithin(s, bound)
    ensures GenerationsWithin(MarkAll(s, entries), bound)
  {
    if entries != [] {
      MarkAllGenerations(s, entries[..|entries| - 1], bound);
    }
  }

  lemma {:induction false} StepGenerations(s: Shm, op: ShmOp, bound: nat)
    requires GenerationsWithin(s.slots, bound)
    ensures GenerationsWithin(Step(s, op).slots, bound + (if op.OpSend? then 1 else 0))
  {
    if op.OpRetry? {
      MarkAllGenerations(s.slots, s.pending[..Fit(s)], bound);
    }
  }

  lemma {:induction false} RunGenerations(ringCapacity: u32, slotCount: u32, ops: seq<ShmOp>, n: nat)
    requires n <= |ops|
    ensures GenerationsWithin(At(Start(ringCapacity, slotCount), ops, n).slots, Sends(ops, n))
  {
    if n > 0 {
      hide Step, Start, GenerationsWithin;
      RunGenerations(ringCapacity, slotCount, ops, n - 1);
      StepGenerations(At(Start(ringCapacity, slotCount), ops, n - 1), ops[n - 1], Sends(ops, n - 1));
    }
  }

  lemma {:induction false} SendsMonotone(ops: seq<ShmOp>, i: nat, n: nat)
    requires i <= n <= |ops|
    ensures Sends(ops, i) <= Sends(ops, n)
  {
    if i < n {
      SendsMonotone(ops, i, n - 1);
    }
  }

  /** At most 65535 sends never overflow a packed generation. */
  lemma {:induction false} FewSendsFit(ringCapacity: u32, slotCount: u32, ops: seq<ShmOp>, n: nat)
    requires n <= |ops| && Sends(ops, |ops|) <= 0xFFFF
    ensures RunFits(Start(ringCapacity, slotCount), ops, n)
  {
    hide Step, Start, GenerationsWithin, Owned, Conserved, Fits, At, Sends;
    var start := Start(ringCapacity, slotCount);
    if n > 0 {
      FewSendsFit(ringCapacity, slotCount, ops, n - 1);
      RunOwned(ringCapacity, slotCount, ops, n - 1);
      RunGenerations(ringCapacity, slotCount, ops, n - 1);
      SendsMonotone(ops, n - 1, |ops|);
      SmallGenerationsFit(At(start, ops, n - 1), ops[n - 1], Sends(ops, n - 1));
    }
  }

  lemma {:induction false} SmallGenerationsFit(s: Shm, op: ShmOp, bound: nat)
    requires Owned(s) && GenerationsWithin(s.slots, bound) && bound <= 0xFFFF
    ensures Fits(s, op)
  {
    if op.OpFree? && s.received != [] {
      assert Handles(s.received + s.queue)[op.idx % |s.received|] == s.received[op.idx % |s.received|].handle;
    }
  }

  /** `n` rounds of send, receive, free. */
  function Rounds(n: nat): (ops: seq<ShmOp>)
    ensures |ops| == 3 * n
  {
    seq(3 * n, i requires 0 <= i < 3 * n => if i % 3 == 0 then OpSend(0) else if i % 3 == 1 then OpRecv else OpFree(0))
  }

  /** All quiet, and slot 0 has been handed out `k` times. */
  ghost predicate Quiet(s: Shm, k: nat) {
    && s.queue == s.received == s.pending == []
    && s.capacity > 0
    && s.slots[0] == SlotMeta(k % GENERATIONS, Free)
  }

  lemma {:induction false} OneRound(s: Shm, k: nat)
    requires Quiet(s, k) && k < 0x1_0000
    ensures var t := Step(Step(s, OpSend(0)), OpRecv);
            && t.received != [] && t.received[0].handle == SlotHandle(0, k + 1)
            && (if k + 1 < 0x1_0000 then Quiet(Step(t, OpFree(0)), k + 1) else !Fits(t, OpFree(0)))
  {
    var h := SlotHandle(0, k + 1);
    assert AllocIn(s.slots) == (s.slots[0 := SlotMeta(k + 1, Allocated)], Ok(h));
    var s1 := Step(s, OpSend(0));
    assert s1.queue == [Entry(h, s.nextId, 0)] && s1.slots[0] == SlotMeta(k + 1, InFlight);
    var t := Step(s1, OpRecv);
    assert t.received == [Entry(h, s.nextId, 0)] && t.queue == [];
  }

  lemma {:induction false} StartQuiet(ringCapacity: u32, slotCount: u32)
    ensures Quiet(Start(ringCapacity, slotCount), 0)
  {
    CapacityIsPowerOfTwo(ringCapacity);
  }

  lemma {:induction false} RoundsQuiet(ringCapacity: u32, slotCount: u32, n: nat, k: nat)
    requires k <= n && k < 0x1_0000
    ensures Quiet(At(Start(ringCapacity, slotCount), Rounds(n), 3 * k), k)
  {
    hide Step, Start, Quiet, Rounds, Fits;
    var start, ops := Start(ringCapacity, slotCount), Rounds(n);
    if k == 0 {
      StartQuiet(ringCapacity, slotCount);
    } else {
      hide At;
      RoundsQuiet(ringCapacity, slotCount, n, k - 1);
      OneRound(At(start, ops, 3 * (k - 1)), k - 1);
      RoundSteps(start, n, k - 1);
    }
  }

  lemma {:induction false} RoundSteps(s: Shm, n: nat, k: nat)
    requires k < n
    ensures var (ops, t) := (Rounds(n), At(s, Rounds(n), 3 * k));
            && At(s, ops, 3 * k + 2) == Step(Step(t, OpSend(0)), OpRecv)
            && At(s, ops, 3 * (k + 1)) == Step(Step(Step(t, OpSend(0)), OpRecv), OpFree(0))
            && ops[3 * k + 2] == OpFree(0)
  {
    hide Step;
    var ops := Rounds(n);
    assert ops[3 * k] == OpSend(0) && ops[3 * k + 1] == OpRecv && ops[3 * k + 2] == OpFree(0);
    assert At(s, ops, 3 * k + 1) == Step(At(s, ops, 3 * k), OpSend(0));
    assert At(s, ops, 3 * k + 2) == Step(At(s, ops, 3 * k + 1), OpRecv);
  }

  /**
   * The bound on sends is tight: after 65535 rounds of send, receive and free on an idle
   * session, the free of the 65536th round goes through an overflowed generation.
   */
  lemma {:induction false} SendBoundIsTight(ringCapacity: u32, slotCount: u32)
    ensures var ops := Rounds(0x1_0000);
            && |ops| == 3 * 0x1_0000
            && RunFits(Start(ringCapacity, slotCount), ops, |ops| - 1)
            && !RunFits(Start(ringCapacity, slotCount), ops, |ops|)
  {
    LastRoundOverflows(ringCapacity, slotCount, 0x1_0000);
  }

  lemma {:induction false} LastRoundOverflows(ringCapacity: u32, slotCount: u32, n: nat)
    requires n == 0x1_0000
    ensures RunFits(Start(ringCapacity, slotCount), Rounds(n), 3 * n - 1)
    ensures !RunFits(Start(ringCapacity, slotCount), Rounds(n), 3 * n)
  {
    hide Step, Start, Quiet, Fits, Rounds, At;
    EarlierRoundsFit(ringCapacity, slotCount, n, 3 * n - 1);
    RoundFits(ringCapacity, slotCount, n, 3 * n - 1);
  }

  lemma {:induction false} EarlierRoundsFit(ringCapacity: u32, slotCount: u32, n: nat, i: nat)
    requires n == 0x1_0000 && i < 3 * n
    ensures RunFits(Start(ringCapacity, slotCount), Rounds(n), i)
  {
    hide Step, Start, Quiet, Fits, Rounds, At;
    if i > 0 {
      EarlierRoundsFit(ringCapacity, slotCount, n, i - 1);
      RoundFits(ringCapacity, slotCount, n, i - 1);
    }
  }

  lemma {:induction false} RoundFits(ringCapacity: u32, slotCount: u32, n: nat, i: nat)
    requires n == 0x1_0000 && i < 3 * n
    ensures Fits(At(Start(ringCapacity, slotCount), Rounds(n), i), Rounds(n)[i]) <==> i < 3 * n - 1
  {
    var start, k := Start(ringCapacity, slotCount), i / 3;
    if i % 3 == 2 {
      hide Step, Start, Quiet, Rounds, At;
      RoundsQuiet(ringCapacity, slotCount, n, k);
      OneRound(At(start, Rounds(n), 3 * k), k);
      RoundSteps(start, n, k);
    }
  }

  // ------------------------------------------------------------------ the interpreter

  lemma {:induction false} DistinctIds(s: Shm, j: nat, k: nat)
    requires Conserved(s) && j < k < |s.received|
    ensures s.received[j].id != s.received[k].id && s.received[k].id < s.nextId && s.received[j].id < s.nextId
  {
    var ids := EntryIds(s.received);
    var a, b := ids[j], ids[k];
    BelowCounts(s.nextId, a);
    BelowCounts(s.nextId, b);
    assert Everywhere(s)[a] >= multiset(ids)[a] && Everywhere(s)[b] >= multiset(ids)[b];
    assert ids == ids[..j] + [a] + ids[j + 1..k] + [b] + ids[k + 1..];
  }

  lemma {:induction false} InFlightCount(s: Shm)
    requires Owned(s)
    ensures Count(s.slots, InFlight) == |s.queue| + |s.received|
    ensures Count(s.slots, Allocated) == |s.pending|
    ensures Count(s.slots, Free) + Count(s.slots, Allocated) + Count(s.slots, InFlight) == |s.slots|
  {
    CountTotal(s.slots);
  }

  // A slot that reached generation 2^16 is never freed again, because no packed handle
  // matches it. So each slot carries at most 2^16 messages, and packed ids never repeat.

  function SumGen(s: seq<SlotMeta>): nat {
    if s == [] then 0 else SumGen(s[..|s| - 1]) + s[|s| - 1].generation
  }

  /** Each slot counts the messages it carried, and no free slot has used up its packed generations. */
  ghost predicate Ages(s: Shm) {
    && SumGen(s.slots) == s.nextId
    && forall i :: 0 <= i < |s.slots| ==>
         s.slots[i].generation <= 0x1_0000 && (s.slots[i].state == Free ==> s.slots[i].generation < 0x1_0000)
  }

  lemma {:induction false} SumGenUpdate(s: seq<SlotMeta>, i: nat, m: SlotMeta)
    requires i < |s|
    ensures SumGen(s[i := m]) == SumGen(s) - s[i].generation + m.generation
  {
    var n := |s| - 1;
    if i < n {
      SumGenUpdate(s[..n], i, m);
      assert s[i := m][..n] == s[..n][i := m];
    } else {
      assert s[i := m][..n] == s[..n];
    }
  }

  lemma {:induction false} SumGenBounded(s: seq<SlotMeta>, bound: nat)
    requires forall i :: 0 <= i < |s| ==> s[i].generation <= bound
    ensures SumGen(s) <= |s| * bound
  {
    if s != [] {
      SumGenBounded(s[..|s| - 1], bound);
    }
  }

  /** Each slot carries at most 2^16 messages, and there are at most 32 slots. */
  lemma {:induction false} FewIds(s: Shm)
    requires Ages(s)
    ensures s.nextId <= |s.slots| * 0x1_0000 <= 0x20_0000
  {
    SumGenBounded(s.slots, 0x1_0000);
    assert |s.slots| * 0x1_0000 <= MAX_SLOT_COUNT * 0x1_0000;
  }

  lemma {:induction false} StartAges(ringCapacity: u32, slotCount: u32)
    ensures Ages(Start(ringCapacity, slotCount))
  {
    SumGenBounded(FreshSlots(SlotCount(slotCount)), 0);
  }

  /** Moving a slot between states keeps its generation. */
  lemma {:induction false} MoveGenerations(s: Slots, h: SlotHandle, from: SlotState, to: SlotState)
    ensures SumGen(Move(s, h, from, to).0) == SumGen(s) && |Move(s, h, from, to).0| == |s|
    ensures forall i :: 0 <= i < |s| ==> Move(s, h, from, to).0[i].generation == s[i].generation
  {
    if Move(s, h, from, to).1.Ok? {
      SumGenUpdate(s, h.index, SlotMeta(h.generation, to));
    }
  }

  lemma {:induction false} SendAges(s: Shm, len: u32)
    requires Ages(s)
    ensures Ages(Send(s, len).0)
  {
    AllocGenerations(s.slots);
    hide AllocIn, MarkIn, SumGen;
    var (slots', r) := AllocIn(s.slots);
    if r.Ok? {
      MarkFree(slots', r.value);
    }
  }

  /** An allocation takes a free slot one generation on. */
  lemma {:induction false} AllocGenerations(s: Slots)
    requires forall i :: 0 <= i < |s| && s[i].state == Free ==> s[i].generation < 0x1_0000
    ensures var (t, r) := AllocIn(s);
            && SumGen(t) == SumGen(s) + (if r.Ok? then 1 else 0) && |t| == |s|
            && forall i :: 0 <= i < |s| ==> t[i] == s[i] || (t[i].state != Free && t[i].generation <= 0x1_0000)
  {
    hide SumGen;
    var r := AllocIn(s).1;
    if r.Ok? {
      SumGenUpdate(s, r.value.index, SlotMeta(r.value.generation, Allocated));
    }
  }

  lemma {:induction false} MarkFree(s: Slots, h: SlotHandle)
    ensures var t := MarkIn(s, h).0;
            && SumGen(t) == SumGen(s) && |t| == |s|
            && forall i :: 0 <= i < |s| ==>
                 t[i].generation == s[i].generation && (t[i].state == Free ==> s[i].state == Free)
  {
    hide SumGen;
    MoveGenerations(s, h, Allocated, InFlight);
  }

  lemma {:induction false} MarkAllAges(s: Slots, entries: seq<Entry>)
    ensures var t := MarkAll(s, entries);
            && SumGen(t) == SumGen(s) && |t| == |s|
            && forall i :: 0 <= i < |s| ==>
                t[i].generation == s[i].generation && (t[i].state == Free ==> s[i].state == Free)
  {
    if entries != [] {
      var h := entries[|entries| - 1].handle;
      MarkAllAges(s, entries[..|entries| - 1]);
      MarkFree(MarkAll(s, entries[..|entries| - 1]), h);
    }
  }

  lemma {:induction false} FreeAges(s: Shm, k: nat)
    requires Ages(s) && k < |s.received|
    ensures Ages(FreeAt(s, k).0)
  {
    MoveGenerations(s.slots, Packed(s.received[k].handle), InFlight, Free);
  }

  lemma {:induction false} StepAges(s: Shm, op: ShmOp)
    requires Ages(s)
    ensures Ages(Step(s, op))
  {
    hide Send, FreeAt, MarkAll, Fit;
    match op
    case OpSend(len) => SendAges(s, len);
    case OpRecv =>
    case OpFree(idx) => if s.received != [] { FreeAges(s, idx % |s.received|); }
    case OpRetry => MarkAllAges(s.slots, s.pending[..Fit(s)]);
  }

  lemma {:induction false} StepSlotCount(s: Shm, op: ShmOp)
    ensures |Step(s, op).slots| == |s.slots|
  {
    if op.OpRetry? {
      MarkAllAges(s.slots, s.pending[..Fit(s)]);
    }
  }

  lemma {:induction false} RunAges(ringCapacity: u32, slotCount: u32, ops: seq<ShmOp>, n: nat)
    requires n <= |ops|
    ensures var s := At(Start(ringCapacity, slotCount), ops, n); Ages(s) && |s.slots| == SlotCount(slotCount)
  {
    hide Step, Ages;
    if n == 0 {
      StartAges(ringCapacity, slotCount);
    } else {
      hide Start;
      RunAges(ringCapacity, slotCount, ops, n - 1);
      StepAges(At(Start(ringCapacity, slotCount), ops, n - 1), ops[n - 1]);
      StepSlotCount(At(Start(ringCapacity, slotCount), ops, n - 1), ops[n - 1]);
    }
  }

  /** Over every run of any length at most 2^16 message ids are handed out for each slot. */
  lemma {:induction false} IdsAreFew(ringCapacity: u32, slotCount: u32, ops: seq<ShmOp>, n: nat)
    requires n <= |ops|
    ensures At(Start(ringCapacity, slotCount), ops, n).nextId <= SlotCount(slotCount) * 0x1_0000
  {
    hide Step, Start, Ages, At;
    RunAges(ringCapacity, slotCount, ops, n);
    FewIds(At(Start(ringCapacity, slotCount), ops, n));
  }

  // A run that uses up all ids: each slot in turn carries 2^16 - 1 messages that are
  // received and freed, and one more that is received and kept.

  /** The first `j` slots are used up, slot `j` was handed out `k` times, the others never. */
  ghost predicate Worn(s: Shm, j: nat, k: nat) {
    && j <= |s.slots| && s.capacity > 0 && s.queue == [] && s.pending == [] && |s.received| == j
    && s.nextId == j * 0x1_0000 + k
    && forall i :: 0 <= i < |s.slots| ==>
         if i < j then s.slots[i].state == InFlight
         else s.slots[i] == SlotMeta(if i == j then k % GENERATIONS else 0, Free)
  }

  /** Sending and receiving through slot `j`. */
  lemma {:induction false} WearOnce(s: Shm, j: nat, k: nat)
    requires Worn(s, j, k) && j < |s.slots| && k < 0x1_0000
    ensures var t := Step(Step(s, OpSend(0)), OpRecv); var h := SlotHandle(j, k + 1);
            && t.slots == s.slots[j := SlotMeta(k + 1, InFlight)]
            && t.received == s.received + [Entry(h, s.nextId, 0)] && t.nextId == s.nextId + 1
            && t.queue == [] && t.pending == [] && t.capacity == s.capacity
  {
    var h := SlotHandle(j, k + 1);
    FirstFreeIs(s.slots, j);
    assert AllocIn(s.slots) == (s.slots[j := SlotMeta(k + 1, Allocated)], Ok(h));
    var e := Entry(h, s.nextId, 0);
    var s1 := Step(s, OpSend(0));
    assert s1.queue == [e] && s1.slots == s.slots[j := SlotMeta(k + 1, InFlight)];
    assert s1.queue[1..] == [] && s1.queue[0] == e;
  }

  lemma {:induction false} FirstFreeIs(s: Slots, j: nat)
    requires j < |s| && s[j].state == Free && forall i :: 0 <= i < j ==> s[i].state != Free
    ensures FirstFree(s, 0) == j
  {
    assert FirstFree(s, 0) <= j;
  }

  /** Freeing the message just received makes slot `j` available again, unless it is used up. */
  lemma {:induction false} WearAndFree(s: Shm, j: nat, k: nat)
    requires Worn(s, j, k) && j < |s.slots| && k < 0xFFFF
    ensures var t := Step(Step(s, OpSend(0)), OpRecv);
            Fits(t, OpFree(j)) && Worn(Step(t, OpFree(j)), j, k + 1)
  {
    WearOnce(s, j, k);
    hide Step, Fits, Worn;
    var t := Step(Step(s, OpSend(0)), OpRecv);
    FreeLast(t, j, SlotHandle(j, k + 1));
    FreeCurrent(s.slots, j, k + 1);
    assert t.received[..j] == s.received;
    WornNext(s, Step(t, OpFree(j)), j, k);
  }

  /** Freeing the message received last. */
  lemma {:induction false} FreeLast(t: Shm, j: nat, h: SlotHandle)
    requires |t.received| == j + 1 && j < 32 && t.received[j].handle == h && h.generation < 0x1_0000
    ensures var u := Step(t, OpFree(j));
            && Fits(t, OpFree(j))
            && u.slots == FreeIn(t.slots, h).0 && u.received == t.received[..j]
            && u.nextId == t.nextId && u.queue == t.queue && u.pending == t.pending && u.capacity == t.capacity
  {
    hide FreeIn;
    assert j % |t.received| == j;
    assert Without(t.received, j) == t.received[..j];
  }

  lemma {:induction false} WornNext(s: Shm, u: Shm, j: nat, k: nat)
    requires Worn(s, j, k) && j < |s.slots| && k < 0xFFFF
    requires u.slots == s.slots[j := SlotMeta(k + 1, Free)] && u.received == s.received
    requires u.nextId == s.nextId + 1 && u.queue == [] && u.pending == [] && u.capacity == s.capacity
    ensures Worn(u, j, k + 1)
  {
  }

  lemma {:induction false} FreeCurrent(s: Slots, j: nat, g: u32)
    requires j < |s|
    ensures FreeIn(s[j := SlotMeta(g, InFlight)], SlotHandle(j, g)).0 == s[j := SlotMeta(g, Free)]
  {
  }

  lemma {:induction false} WearOut(s: Shm, j: nat)
    requires Worn(s, j, 0xFFFF) && j < |s.slots|
    ensures Worn(Step(Step(s, OpSend(0)), OpRecv), j + 1, 0)
  {
    WearOnce(s, j, 0xFFFF);
    hide Send, Recv;
  }

  lemma {:induction false} AtPush(s: Shm, ops: seq<ShmOp>, op: ShmOp)
    ensures At(s, ops + [op], |ops| + 1) == Step(At(s, ops, |ops|), op)
    ensures RunFits(s, ops + [op], |ops| + 1) <==> RunFits(s, ops, |ops|) && Fits(At(s, ops, |ops|), op)
  {
    hide Step, Fits;
    AtPrefix(s, ops, op, |ops|);
  }

  lemma {:induction false} AtPrefix(s: Shm, ops: seq<ShmOp>, op: ShmOp, n: nat)
    requires n <= |ops|
    ensures At(s, ops + [op], n) == At(s, ops, n)
    ensures RunFits(s, ops + [op], n) == RunFits(s, ops, n)
  {
    hide Step, Fits;
    if n > 0 {
      AtPrefix(s, ops, op, n - 1);
    }
  }

  lemma {:induction false} SendRecvPush(s: Shm, ops: seq<ShmOp>)
    requires RunFits(s, ops, |ops|)
    ensures var ops' := ops + [OpSend(0)] + [OpRecv];
            RunFits(s, ops', |ops'|) && At(s, ops', |ops'|) == Step(Step(At(s, ops, |ops|), OpSend(0)), OpRecv)
  {
    hide Step, At, RunFits;
    AtPush(s, ops, OpSend(0));
    AtPush(s, ops + [OpSend(0)], OpRecv);
  }

  lemma {:induction false} WearUpTo(ringCapacity: u32, slotCount: u32, j: nat, k: nat) returns (ops: seq<ShmOp>)
    requires j <= SlotCount(slotCount) && k <= 0xFFFF && (j == SlotCount(slotCount) ==> k == 0)
    ensures var start := Start(ringCapacity, slotCount);
            && RunFits(start, ops, |ops|) && Worn(At(start, ops, |ops|), j, k)
            && |At(start, ops, |ops|).slots| == SlotCount(slotCount)
    decreases j, k
  {
    hide Step, Start, Worn, At, RunFits, Fits, SlotCount;
    var start := Start(ringCapacity, slotCount);
    if j == 0 && k == 0 {
      ops := [];
      StartsUnworn(ringCapacity, slotCount);
    } else {
      if k > 0 {
        ops := WearUpTo(ringCapacity, slotCount, j, k - 1);
        SendRecvPush(start, ops);
        WearAndFree(At(start, ops, |ops|), j, k - 1);
        ops := ops + [OpSend(0)] + [OpRecv];
        AtPush(start, ops, OpFree(j));
        ops := ops + [OpFree(j)];
      } else {
        ops := WearUpTo(ringCapacity, slotCount, j - 1, 0xFFFF);
        SendRecvPush(start, ops);
        WearOut(At(start, ops, |ops|), j - 1);
        ops := ops + [OpSend(0)] + [OpRecv];
      }
      RunAges(ringCapacity, slotCount, ops, |ops|);
    }
  }

  lemma {:induction false} StartsUnworn(ringCapacity: u32, slotCount: u32)
    ensures var start := Start(ringCapacity, slotCount);
            && RunFits(start, [], 0) && At(start, [], 0) == start
            && Worn(start, 0, 0) && |start.slots| == SlotCount(slotCount)
  {
    CapacityIsPowerOfTwo(ringCapacity);
  }

  /** The bound is reached, by a run that frees no overflowed handle. */
  lemma {:induction false} IdBoundIsReached(ringCapacity: u32, slotCount: u32) returns (ops: seq<ShmOp>)
    ensures RunFits(Start(ringCapacity, slotCount), ops, |ops|)
    ensures At(Start(ringCapacity, slotCount), ops, |ops|).nextId == SlotCount(slotCount) * 0x1_0000
  {
    hide Start, At, RunFits, SlotCount;
    ops := WearUpTo(ringCapacity, slotCount, SlotCount(slotCount), 0);
  }

  /** What the interpreter has counted: ids sent, received and not yet freed, and freed. */
  datatype Tally = Tally(sent: seq<u64>, received: seq<u64>, freed: seq<u64>)

  ghost predicate Accounts(session: ShmSession, t: Tally)
    reads session, session.ring
  {
    && Remembers(session, t.received)
    && |t.sent| == |session.ring.contents| + |t.received| + |t.freed|
  }

  method VerifyShmInvariants(session: ShmSession, t: Tally) returns (ok: bool)
    requires session.Valid() && Accounts(session, t)
    ensures ok
  {
    InFlightCount(session.ideal);
    var slots := session.slab.View();
    var ringLen := session.ring.Len();
    if |t.sent| != ringLen + |t.received| + |t.freed| { return false; }
    if Count(slots, Free) + Count(slots, Allocated) + Count(slots, InFlight) != |slots| { return false; }
    if Count(slots, InFlight) != ringLen + |session.received| { return false; }
    if Count(slots, Allocated) != |session.pending| { return false; }
    return true;
  }

  /** The received messages, as the interpreter remembers them. */
  ghost predicate Remembers(session: ShmSession, received: seq<u64>)
    reads session
  {
    && |received| == |session.received|
    && forall i :: 0 <= i < |received| ==> received[i] == session.received[i].1.id
  }

  /** Free the message at position `k` of the interpreter's list. */
  method FreeNth(session: ShmSession, received: seq<u64>, k: nat) returns (ok: bool)
    requires session.Valid() && Remembers(session, received) && k < |received|
    requires Ages(session.ideal)
    modifies session, session.slab.slots
    ensures ok <==> old(session.ideal).received[k].handle.generation < 0x1_0000
    ensures ok ==> session.Valid() && session.ideal == FreeAt(old(session.ideal), k).0
    ensures ok ==> Remembers(session, Without(received, k)) && session.nextMsgId == old(session.nextMsgId)
  {
    hide Owned, Conserved, EncodeDesc, FreeIn, Ages;
    ghost var s := session.ideal;
    FewIds(s);
    forall j | 0 <= j < k ensures received[j] != received[k] {
      DistinctIds(s, j, k);
    }
    var r, at := session.BFree(received[k]);
    assert at == k;
    return r.Ok?;
  }

  lemma {:induction false} SendCounts(s: Shm, len: u32)
    ensures var (t, r) := Send(s, len);
            && |t.queue| == |s.queue| + (if r.Ok? then 1 else 0)
            && (r.Err? ==> r.error == RingFull || r.error == SlabFailure(NoFreeSlots))
  {
    hide AllocIn, MarkIn;
    AllocFailsOnlyWhenFull(s.slots);
  }

  lemma {:induction false} RecvCounts(s: Shm)
    ensures |Recv(s).queue| == if s.queue == [] then 0 else |s.queue| - 1
  {
  }

  lemma {:induction false} FreeCounts(s: Shm, k: nat)
    ensures k < |s.received| ==> FreeAt(s, k).0.queue == s.queue
  {
    hide FreeIn;
  }

  lemma {:induction false} RetriedCounts(s: Shm)
    ensures |Retried(s, Fit(s)).queue| == |s.queue| + |EntryIds(s.pending[..Fit(s)])|
  {
    hide MarkAll, Fit;
  }

  /** One operation of the interpreter, with the checks that belong to it. */
  method Perform(session: ShmSession, op: ShmOp, t: Tally) returns (ok: bool, t': Tally)
    requires session.Valid() && Accounts(session, t) && Ages(session.ideal)
    modifies session, session.ring, session.ring.descriptors, session.slab.slots
    ensures ok <==> Fits(old(session.ideal), op)
    ensures ok ==> session.Valid() && Accounts(session, t') && session.ideal == Step(old(session.ideal), op)
    ensures ok ==> Ages(session.ideal)
  {
    hide Owned, Conserved, Send, Recv, FreeAt, Fit, Retried, Ages, EntryIds, DescsOf, PendingPairs, ReceivedPairs,
      RingModel.Valid, SlabModel.Valid, SlabModel.View;
    FewIds(session.ideal);
    StepAges(session.ideal, op);
    t' := t;
    match op {
      case OpSend(len) =>
        SendCounts(session.ideal, len);
        var r := session.ASend(len);
        match r {
          case Ok(id) => t' := t.(sent := t.sent + [id]);
          case Err(RingFull) =>
          case Err(SlabFailure(NoFreeSlots)) =>
          case Err(_) =>
            return false, t;
        }
      case OpRecv =>
        RecvCounts(session.ideal);
        var r := session.BRecv();
        if r.Some? {
          t' := t.(received := t.received + [r.value.id]);
        }
      case OpFree(idx) =>
        if t.received != [] {
          var k := idx % |t.received|;
          FreeCounts(session.ideal, k);
          ok := FreeNth(session, t.received, k);
          if !ok { return; }
          t' := t.(received := Without(t.received, k), freed := t.freed + [t.received[k]]);
        }
      case OpRetry =>
        RetriedCounts(session.ideal);
        var retried := session.ARetryPending();
        t' := t.(sent := t.sent + retried);
    }
    return true, t';
  }

  /**
   * The interpreter with all its checks: on every operation list it succeeds exactly when
   * no operation frees through an overflowed generation.
   */
  method ExecuteAndVerify(ringCapacity: u32, slotCount: u32, ops: seq<ShmOp>) returns (ok: bool)
    ensures ok <==> RunFits(Start(ringCapacity, slotCount), ops, |ops|)
  {
    hide Start, Step, Fits, Owned, Conserved, Ages;
    StartAges(ringCapacity, slotCount);
    var session := new ShmSession(ringCapacity, slotCount);
    var tally := Tally([], [], []);
    ghost var start := Start(ringCapacity, slotCount);
    for i := 0 to |ops|
      invariant session.Valid() && Accounts(session, tally) && Ages(session.ideal)
      invariant fresh(session) && fresh(session.ring) && fresh(session.ring.descriptors)
      invariant fresh(session.slab) && fresh(session.slab.slots)
      invariant session.ideal == At(start, ops, i) && RunFits(start, ops, i)
    {
      ok, tally := Perform(session, ops[i], tally);
      if !ok {
        if RunFits(start, ops, |ops|) {
          RunFitsPrefix(start, ops, i + 1, |ops|);
        }
        return;
      }
      ok := VerifyShmInvariants(session, tally);
      if !ok { return; }
    }
    return true;
  }
}
