/**
 * The descriptor ring as two concurrent parties. Every load and store of a shared
 * location is one atomic action, and the actions of producer and consumer interleave
 * arbitrarily.
 */
module SpscInterleaving {
  import opened Base
  import opened DescriptorRing

  /** Where the producer stands inside `enqueue(desc)`. */
  datatype Producer = PIdle | HasRoom(desc: TestDescriptor) | Written(desc: TestDescriptor) | Bumped

  /** Where the consumer stands inside `dequeue()`. */
  datatype Consumer = CIdle | HasTail(t: nat) | HasHead(t: nat) | HasItem(t: nat, item: TestDescriptor)

  /** `produced` and `consumed` record history: what was written, and what was returned. */
  datatype State = State(
    capacity: nat,
    slots: seq<TestDescriptor>,
    visibleHead: nat,
    tail: nat,
    localHead: nat,
    producer: Producer,
    consumer: Consumer,
    produced: seq<TestDescriptor>,
    consumed: seq<TestDescriptor>)

  datatype Action =
    | CheckRoom(desc: TestDescriptor)  // load `tail`, compare with the capacity
    | WriteSlot
    | BumpLocalHead
    | Publish                          // store `visible_head`
    | LoadTail
    | LoadHead                         // load `visible_head`, compare with the tail read
    | ReadSlot
    | AdvanceTail                      // store `tail`

  function Start(capacity: nat): State {
    State(capacity, seq(capacity, _ => TestDescriptor(0)), 0, 0, 0, PIdle, CIdle, [], [])
  }

  /** One action; an action out of turn for its party does nothing. */
  function Next(s: State, a: Action): State
    requires PowerInRange(s.capacity) && |s.slots| == s.capacity
  {
    match a
    case CheckRoom(desc) =>
      if s.producer.PIdle? && (s.localHead - s.tail) % 0x1_0000_0000_0000_0000 < s.capacity
      then s.(producer := HasRoom(desc)) else s
    case WriteSlot =>
      if s.producer.HasRoom?
      then s.(slots := s.slots[Slot(s.localHead, s.capacity) := s.producer.desc],
              produced := s.produced + [s.producer.desc],
              producer := Written(s.producer.desc)) else s
    case BumpLocalHead =>
      if s.producer.Written? then s.(localHead := s.localHead + 1, producer := Bumped) else s
    case Publish =>
      if s.producer.Bumped? then s.(visibleHead := s.localHead, producer := PIdle) else s
    case LoadTail =>
      if s.consumer.CIdle? then s.(consumer := HasTail(s.tail)) else s
    case LoadHead =>
      if s.consumer.HasTail?
      then s.(consumer := if s.consumer.t >= s.visibleHead then CIdle else HasHead(s.consumer.t)) else s
    case ReadSlot =>
      if s.consumer.HasHead?
      then s.(consumer := HasItem(s.consumer.t, s.slots[Slot(s.consumer.t, s.capacity)])) else s
    case AdvanceTail =>
      if s.consumer.HasItem?
      then s.(tail := s.consumer.t + 1, consumed := s.consumed + [s.consumer.item], consumer := CIdle) else s
  }

  /** Every item produced and not yet consumed is in its slot. */
  ghost predicate HoldsUnread(s: State)
    requires PowerInRange(s.capacity) && |s.slots| == s.capacity
  {
    forall k :: s.tail <= k < |s.produced| ==> s.slots[Slot(k, s.capacity)] == s.produced[k]
  }

  /** The invariant of every interleaving. */
  ghost predicate Inv(s: State) {
    && PowerInRange(s.capacity) && |s.slots| == s.capacity
    && s.tail <= s.visibleHead <= s.localHead <= s.tail + s.capacity
    && s.localHead == s.visibleHead + (if s.producer.Bumped? then 1 else 0)
    && (s.producer.HasRoom? || s.producer.Written? ==> s.localHead < s.tail + s.capacity)
    && |s.produced| == s.localHead + (if s.producer.Written? then 1 else 0)
    && (s.producer.Written? ==> s.produced[s.localHead] == s.producer.desc)
    && HoldsUnread(s)
    && s.consumed == s.produced[..s.tail]
    && match s.consumer
       case CIdle => true
       case HasTail(t) => t == s.tail
       case HasHead(t) => t == s.tail < s.visibleHead
       case HasItem(t, item) => t == s.tail < s.visibleHead && item == s.produced[t]
  }

  /** No unread item sits in the position the producer is about to write. */
  lemma {:induction false} UnreadSlotsAreSafe(s: State)
    requires Inv(s) && s.producer.HasRoom?
    ensures forall k :: s.tail <= k < s.visibleHead ==> Slot(k, s.capacity) != Slot(s.localHead, s.capacity)
  {
    NextSlotIsFree(s.tail, s.localHead, s.capacity);
  }

  lemma {:induction false} NextInv(s: State, a: Action)
    requires Inv(s)
    ensures Inv(Next(s, a)) && Next(s, a).localHead <= s.localHead + 1
  {
    if a.WriteSlot? && s.producer.HasRoom? {
      UnreadSlotsAreSafe(s);
    }
  }

  /** The state after the first `i` actions of an interleaving. */
  function At(capacity: nat, acts: seq<Action>, i: nat): State
    requires PowerInRange(capacity) && i <= |acts|
    ensures At(capacity, acts, i).capacity == capacity && |At(capacity, acts, i).slots| == capacity
  {
    if i == 0 then Start(capacity) else Next(At(capacity, acts, i - 1), acts[i - 1])
  }

  /**
   * Safety over all interleavings: what was consumed is a prefix of what was produced,
   * the counters keep their order and distance, and none of them leaves 64 bits.
   */
  lemma {:induction false} InterleavingsAreSafe(requested: u32, acts: seq<Action>, i: nat)
    requires i <= |acts| < 0x1_0000_0000_0000_0000
    ensures PowerInRange(RingCapacity(requested))
    ensures var s := At(RingCapacity(requested), acts, i);
            && Inv(s)
            && s.consumed <= s.produced
            && s.tail <= s.visibleHead <= s.localHead <= s.tail + s.capacity
            && s.localHead <= i
  {
    CapacityIsPowerOfTwo(requested);
    if i > 0 {
      InterleavingsAreSafe(requested, acts, i - 1);
      NextInv(At(RingCapacity(requested), acts, i - 1), acts[i - 1]);
    }
  }

  // ------------------------------------------------- refinement of an atomic queue

  /** The queue an observer sees: published and not yet consumed. */
  ghost function Queue(s: State): seq<TestDescriptor>
    requires Inv(s)
  {
    s.produced[s.tail..s.visibleHead]
  }

  lemma {:induction false} WindowPush<T>(items: seq<T>, x: T, low: nat, high: nat)
    requires low <= high <= |items|
    ensures (items + [x])[low..high] == items[low..high]
  {
  }

  lemma {:induction false} WindowGrows<T>(items: seq<T>, low: nat, high: nat)
    requires low <= high < |items|
    ensures items[low..high + 1] == items[low..high] + [items[high]]
  {
  }

  lemma {:induction false} WindowDrops<T>(items: seq<T>, low: nat, high: nat)
    requires low < high <= |items|
    ensures items[low..high][1..] == items[low + 1..high] && items[low..high][0] == items[low]
    ensures items[..low + 1] == items[..low] + [items[low]]
  {
  }

  lemma {:induction false} PublishEnqueues(s: State)
    requires Inv(s) && Inv(Next(s, Publish))
    ensures var (q, q') := (Queue(s), Queue(Next(s, Publish)));
            if s.producer.Bumped? then |q| < s.capacity && q' == q + [s.produced[s.visibleHead]] else q' == q
  {
    hide HoldsUnread, PowerInRange, Slot;
    if s.producer.Bumped? {
      WindowGrows(s.produced, s.tail, s.visibleHead);
    }
  }

  lemma {:induction false} AdvanceDequeues(s: State)
    requires Inv(s) && Inv(Next(s, AdvanceTail))
    ensures var (q, q', s') := (Queue(s), Queue(Next(s, AdvanceTail)), Next(s, AdvanceTail));
            if s.consumer.HasItem? then q != [] && q' == q[1..] && s'.consumed == s.consumed + [q[0]] else q' == q
  {
    hide HoldsUnread, PowerInRange, Slot;
    if s.consumer.HasItem? {
      WindowDrops(s.produced, s.tail, s.visibleHead);
    }
  }

  lemma {:induction false} FullIsRight(s: State, desc: TestDescriptor)
    requires Inv(s) && s.localHead < 0x1_0000_0000_0000_0000 && Inv(Next(s, CheckRoom(desc)))
    ensures var (q, s') := (Queue(s), Next(s, CheckRoom(desc)));
            && Queue(s') == q
            && (s.producer.PIdle? ==> (s'.producer == HasRoom(desc) <==> |q| < s.capacity)
                                      && (s'.producer.PIdle? <==> |q| == s.capacity))
  {
    hide HoldsUnread, PowerInRange, Slot;
  }

  lemma {:induction false} EmptyIsRight(s: State)
    requires Inv(s) && Inv(Next(s, LoadHead))
    ensures var (q, s') := (Queue(s), Next(s, LoadHead));
            Queue(s') == q && (s.consumer.HasTail? ==> (s'.consumer.CIdle? <==> q == []))
  {
    hide HoldsUnread, PowerInRange, Slot;
  }

  /** Steps on one side's private state leave the queue alone. */
  lemma {:induction false} PrivateSteps(s: State, a: Action)
    requires a.WriteSlot? || a.BumpLocalHead? || a.LoadTail? || a.ReadSlot?
    requires Inv(s) && Inv(Next(s, a))
    ensures Queue(Next(s, a)) == Queue(s)
  {
    hide HoldsUnread, PowerInRange, Slot;
    if a.WriteSlot? && s.producer.HasRoom? {
      WindowPush(s.produced, s.producer.desc, s.tail, s.visibleHead);
    }
  }

  /**
   * The interleaved ring implements an atomic bounded queue. Publishing is the moment an
   * item enters, advancing the tail the moment its head leaves, and no other action
   * changes the queue. A full ring was full when the tail was loaded, and an empty answer
   * was right when the head was loaded.
   */
  lemma {:induction false} RefinesAtomicQueue(s: State, a: Action)
    requires Inv(s) && s.localHead < 0x1_0000_0000_0000_0000
    ensures Inv(Next(s, a))
    ensures var (q, q', s') := (Queue(s), Queue(Next(s, a)), Next(s, a));
            match a
            case Publish =>
              if s.producer.Bumped? then |q| < s.capacity && q' == q + [s.produced[s.visibleHead]] else q' == q
            case AdvanceTail =>
              if s.consumer.HasItem? then q != [] && q' == q[1..] && s'.consumed == s.consumed + [q[0]] else q' == q
            case CheckRoom(desc) =>
              q' == q && (s.producer.PIdle? ==> (s'.producer == HasRoom(desc) <==> |q| < s.capacity)
                                                && (s'.producer.PIdle? <==> |q| == s.capacity))
            case LoadHead =>
              q' == q && (s.consumer.HasTail? ==> (s'.consumer.CIdle? <==> q == []))
            case _ => q' == q
  {
    NextInv(s, a);
    hide Inv, Next, Queue;
    match a {
      case Publish => PublishEnqueues(s);
      case AdvanceTail => AdvanceDequeues(s);
      case CheckRoom(desc) => FullIsRight(s, desc);
      case LoadHead => EmptyIsRight(s);
      case _ => PrivateSteps(s, a);
    }
  }

  // ------------------------------------------------------------------- completion

  /** The state after a list of actions. */
  function After(s: State, acts: seq<Action>): (t: State)
    requires PowerInRange(s.capacity) && |s.slots| == s.capacity
    ensures t.capacity == s.capacity && |t.slots| == s.capacity
    decreases |acts|
  {
    if acts == [] then s else After(Next(s, acts[0]), acts[1..])
  }

  lemma {:induction false} AfterInv(s: State, acts: seq<Action>)
    requires Inv(s)
    ensures Inv(After(s, acts))
    decreases |acts|
  {
    hide Next, HoldsUnread, PowerInRange, Slot;
    if acts != [] {
      NextInv(s, acts[0]);
      AfterInv(Next(s, acts[0]), acts[1..]);
    }
  }

  lemma {:induction false} AfterConcat(s: State, a: seq<Action>, b: seq<Action>)
    requires PowerInRange(s.capacity) && |s.slots| == s.capacity
    ensures After(s, a + b) == After(After(s, a), b)
    decreases |a|
  {
    hide PowerInRange;
    if a == [] {
      assert a + b == b;
    } else {
      NextShape(s, a[0]);
      AfterConcat(Next(s, a[0]), a[1..], b);
      assert (a + b)[1..] == a[1..] + b;
      hide Next;
    }
  }

  lemma {:induction false} NextShape(s: State, a: Action)
    requires PowerInRange(s.capacity) && |s.slots| == s.capacity
    ensures Next(s, a).capacity == s.capacity && |Next(s, a).slots| == s.capacity
  {
  }

  predicate OfProducer(a: Action) {
    a.CheckRoom? || a.WriteSlot? || a.BumpLocalHead? || a.Publish?
  }

  /** The consumer sees its own fields unchanged and the queue only grow. */
  ghost predicate ConsumerSees(s: State, t: State) {
    && t.tail == s.tail && t.consumed == s.consumed && t.consumer == s.consumer
    && s.visibleHead <= t.visibleHead && s.produced <= t.produced
  }

  /** The producer sees its own fields unchanged and the queue only shrink. */
  ghost predicate ProducerSees(s: State, t: State) {
    && t.localHead == s.localHead && t.visibleHead == s.visibleHead && t.produced == s.produced
    && t.producer == s.producer && s.tail <= t.tail
  }

  lemma {:induction false} ProducerActs(s: State, acts: seq<Action>)
    requires Inv(s) && forall i :: 0 <= i < |acts| ==> OfProducer(acts[i])
    ensures Inv(After(s, acts)) && ConsumerSees(s, After(s, acts))
    decreases |acts|
  {
    hide HoldsUnread, PowerInRange, Slot;
    if acts != [] {
      NextInv(s, acts[0]);
      ProducerAct(s, acts[0]);
      hide Next;
      ProducerActs(Next(s, acts[0]), acts[1..]);
    }
  }

  lemma {:induction false} ProducerAct(s: State, a: Action)
    requires Inv(s) && OfProducer(a)
    ensures ConsumerSees(s, Next(s, a))
  {
    hide HoldsUnread, PowerInRange, Slot;
  }

  lemma {:induction false} ConsumerActs(s: State, acts: seq<Action>)
    requires Inv(s) && forall i :: 0 <= i < |acts| ==> !OfProducer(acts[i])
    ensures Inv(After(s, acts)) && ProducerSees(s, After(s, acts))
    decreases |acts|
  {
    hide HoldsUnread, PowerInRange, Slot;
    if acts != [] {
      NextInv(s, acts[0]);
      ConsumerAct(s, acts[0]);
      hide Next;
      ConsumerActs(Next(s, acts[0]), acts[1..]);
    }
  }

  lemma {:induction false} ConsumerAct(s: State, a: Action)
    requires Inv(s) && !OfProducer(a)
    ensures ProducerSees(s, Next(s, a))
  {
    hide HoldsUnread, PowerInRange, Slot;
  }

  /** What the other party does, then one action. */
  lemma {:induction false} Turn(s: State, between: seq<Action>, a: Action)
    requires PowerInRange(s.capacity) && |s.slots| == s.capacity
    ensures After(s, between + [a]) == Next(After(s, between), a)
  {
    hide PowerInRange, Next;
    AfterConcat(s, between, [a]);
    assert [a][1..] == [];
  }

  /** A whole dequeue, with whatever the producer does between its steps. */
  function Dequeue(p1: seq<Action>, p2: seq<Action>, p3: seq<Action>): seq<Action> {
    [LoadTail] + (p1 + [LoadHead]) + (p2 + [ReadSlot]) + (p3 + [AdvanceTail])
  }

  /** A whole enqueue, with whatever the consumer does between its steps. */
  function Enqueue(desc: TestDescriptor, c1: seq<Action>, c2: seq<Action>, c3: seq<Action>): seq<Action> {
    [CheckRoom(desc)] + (c1 + [WriteSlot]) + (c2 + [BumpLocalHead]) + (c3 + [Publish])
  }

  lemma {:induction false} FourTurns(
      s: State, a: Action, p1: seq<Action>, b: Action, p2: seq<Action>, c: Action, p3: seq<Action>, d: Action)
    requires PowerInRange(s.capacity) && |s.slots| == s.capacity
    ensures var s1 := After(s, [a]);
            var s2 := After(After(s1, p1), [b]);
            var s3 := After(After(s2, p2), [c]);
            && s1 == Next(s, a) && s2 == Next(After(s1, p1), b) && s3 == Next(After(s2, p2), c)
            && After(s, [a] + (p1 + [b]) + (p2 + [c]) + (p3 + [d])) == Next(After(s3, p3), d)
  {
    hide PowerInRange, Next, After;
    var s1 := After(s, [a]);
    var s2 := After(After(s1, p1), [b]);
    var s3 := After(After(s2, p2), [c]);
    Turn(s, [], a);
    AfterNone(s);
    assert [] + [a] == [a];
    Turn(s1, p1, b);
    AfterConcat(s1, p1, [b]);
    AfterConcat(s, [a], p1 + [b]);
    Turn(s2, p2, c);
    AfterConcat(s2, p2, [c]);
    AfterConcat(s, [a] + (p1 + [b]), p2 + [c]);
    Turn(s3, p3, d);
    AfterConcat(s, [a] + (p1 + [b]) + (p2 + [c]), p3 + [d]);
  }

  lemma {:induction false} AfterNone(s: State)
    requires PowerInRange(s.capacity) && |s.slots| == s.capacity
    ensures After(s, []) == s
  {
  }

  /**
   * A dequeue completes, whatever the producer does meanwhile: it returns the head of the
   * queue as it was when the head was loaded, or nothing if the queue was empty then; and
   * an item that was there from the start is what it returns.
   */
  lemma {:induction false} DequeueCompletes(s: State, p1: seq<Action>, p2: seq<Action>, p3: seq<Action>)
    requires Inv(s) && s.consumer.CIdle?
    requires forall i :: 0 <= i < |p1| ==> OfProducer(p1[i])
    requires forall i :: 0 <= i < |p2| ==> OfProducer(p2[i])
    requires forall i :: 0 <= i < |p3| ==> OfProducer(p3[i])
    ensures Inv(After(s, [LoadTail] + p1))
    ensures var (t, q) := (After(s, Dequeue(p1, p2, p3)), Queue(After(s, [LoadTail] + p1)));
            && t.consumer.CIdle?
            && t.consumed == (if q == [] then s.consumed else s.consumed + [q[0]])
            && t.tail == (if q == [] then s.tail else s.tail + 1)
            && (Queue(s) != [] ==> q != [] && q[0] == Queue(s)[0])
  {
    hide After, HoldsUnread, PowerInRange, Slot;
    FourTurns(s, LoadTail, p1, LoadHead, p2, ReadSlot, p3, AdvanceTail);
    AfterConcat(s, [LoadTail], p1);
    var s1 := Next(s, LoadTail);
    NextInv(s, LoadTail);
    ProducerActs(s1, p1);
    var t1 := After(s1, p1);
    NextInv(t1, LoadHead);
    ProducerActs(Next(t1, LoadHead), p2);
    var t2 := After(Next(t1, LoadHead), p2);
    NextInv(t2, ReadSlot);
    ProducerActs(Next(t2, ReadSlot), p3);
    if Queue(t1) != [] {
      ReadsHead(t2);
    }
  }

  /** The slot read is the head of the queue. */
  lemma {:induction false} ReadsHead(s: State)
    requires Inv(s) && s.consumer.HasHead?
    ensures Queue(s) != [] && Next(s, ReadSlot).consumer == HasItem(s.tail, Queue(s)[0])
  {
    hide PowerInRange, Slot;
  }

  /**
   * An enqueue completes, whatever the consumer does meanwhile: if there was room when the
   * tail was loaded, the descriptor is published behind what is left of the queue, and
   * otherwise nothing changes.
   */
  lemma {:induction false} EnqueueCompletes(
      s: State, desc: TestDescriptor, c1: seq<Action>, c2: seq<Action>, c3: seq<Action>)
    requires Inv(s) && s.producer.PIdle? && s.localHead < 0x1_0000_0000_0000_0000
    requires forall i :: 0 <= i < |c1| ==> !OfProducer(c1[i])
    requires forall i :: 0 <= i < |c2| ==> !OfProducer(c2[i])
    requires forall i :: 0 <= i < |c3| ==> !OfProducer(c3[i])
    ensures Inv(After(s, Enqueue(desc, c1, c2, c3)))
    ensures var t := After(s, Enqueue(desc, c1, c2, c3));
            && t.producer.PIdle? && s.tail <= t.tail
            && (if |Queue(s)| < s.capacity
                then t.produced == s.produced + [desc] && t.tail - s.tail <= |Queue(s)| + 1
                     && Queue(t) == (Queue(s) + [desc])[t.tail - s.tail..]
                else t.produced == s.produced && t.tail - s.tail <= |Queue(s)|
                     && Queue(t) == Queue(s)[t.tail - s.tail..])
  {
    hide After, HoldsUnread, PowerInRange, Slot;
    FourTurns(s, CheckRoom(desc), c1, WriteSlot, c2, BumpLocalHead, c3, Publish);
    NextInv(s, CheckRoom(desc));
    FullIsRight(s, desc);
    CheckKeeps(s, desc);
    var s1 := Next(s, CheckRoom(desc));
    ConsumerActs(s1, c1);
    var t1 := After(s1, c1);
    NextInv(t1, WriteSlot);
    ConsumerActs(Next(t1, WriteSlot), c2);
    var t2 := After(Next(t1, WriteSlot), c2);
    NextInv(t2, BumpLocalHead);
    ConsumerActs(Next(t2, BumpLocalHead), c3);
    var t3 := After(Next(t2, BumpLocalHead), c3);
    NextInv(t3, Publish);
    if |Queue(s)| < s.capacity {
      WriteTurn(t1, desc);
      BumpTurn(t2, desc);
      PublishTurn(t3);
      var t := Next(t3, Publish);
      hide Next, Inv;
      PublishedBehind(s, t, desc);
    } else {
      IdleTurns(t1);
      IdleTurns(t2);
      IdleTurns(t3);
      hide Next, Inv;
      OnlyShrunk(s, t3);
    }
  }

  /** Checking for room changes nothing but the producer's own state. */
  lemma {:induction false} CheckKeeps(s: State, desc: TestDescriptor)
    requires Inv(s)
    ensures var t := Next(s, CheckRoom(desc));
            && t.tail == s.tail && t.visibleHead == s.visibleHead && t.produced == s.produced
  {
    hide HoldsUnread, PowerInRange, Slot;
  }

  lemma {:induction false} WriteTurn(s: State, desc: TestDescriptor)
    requires Inv(s) && s.producer == HasRoom(desc)
    ensures var t := Next(s, WriteSlot);
            && t.producer == Written(desc) && t.produced == s.produced + [desc]
            && t.visibleHead == s.visibleHead && t.tail == s.tail
  {
    hide HoldsUnread, PowerInRange, Slot;
  }

  lemma {:induction false} BumpTurn(s: State, desc: TestDescriptor)
    requires Inv(s) && s.producer == Written(desc)
    ensures var t := Next(s, BumpLocalHead);
            t.producer == Bumped && t.produced == s.produced && t.visibleHead == s.visibleHead && t.tail == s.tail
  {
    hide HoldsUnread, PowerInRange, Slot;
  }

  lemma {:induction false} PublishTurn(s: State)
    requires Inv(s) && s.producer == Bumped
    ensures var t := Next(s, Publish);
            t.producer == PIdle && t.produced == s.produced && t.visibleHead == s.visibleHead + 1 && t.tail == s.tail
  {
    hide HoldsUnread, PowerInRange, Slot;
  }

  lemma {:induction false} IdleTurns(s: State)
    requires Inv(s) && s.producer == PIdle
    ensures Next(s, WriteSlot) == s && Next(s, BumpLocalHead) == s && Next(s, Publish) == s
  {
    hide HoldsUnread, PowerInRange, Slot;
  }

  /** One more item is published, and the consumer has taken some from the front. */
  lemma {:induction false} PublishedBehind(s: State, t: State, desc: TestDescriptor)
    requires Inv(s) && Inv(t) && s.producer.PIdle?
    requires t.produced == s.produced + [desc] && t.visibleHead == s.visibleHead + 1 && s.tail <= t.tail
    ensures t.tail - s.tail <= |Queue(s)| + 1 && Queue(t) == (Queue(s) + [desc])[t.tail - s.tail..]
  {
    hide HoldsUnread, PowerInRange, Slot;
  }

  lemma {:induction false} OnlyShrunk(s: State, t: State)
    requires Inv(s) && Inv(t)
    requires t.produced == s.produced && t.visibleHead == s.visibleHead && s.tail <= t.tail
    ensures t.tail - s.tail <= |Queue(s)| && Queue(t) == Queue(s)[t.tail - s.tail..]
  {
    hide HoldsUnread, PowerInRange, Slot;
  }
}
