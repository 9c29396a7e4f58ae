/** The single-producer single-consumer descriptor ring, used sequentially. */
module DescriptorRing {
  import opened Base
  import opened Bits

  const MIN_CAPACITY: u32 := 4
  const MAX_CAPACITY: u32 := 64

  datatype TestDescriptor = TestDescriptor(id: u64)

  datatype RingError = Full

  /** The least power of two that is at least `n`, searched upwards from `p`. */
  function PowerFrom(p: nat, n: u32): nat
    requires p > 0
    decreases n - p
  {
    if p >= n then p else PowerFrom(2 * p, n)
  }

  /** `u32::next_power_of_two`; above 2^31 the result wraps to 0. */
  function NextPowerOfTwo(n: u32): nat {
    if n > 0x8000_0000 then 0 else PowerFrom(1, n)
  }

  function Clamp(x: nat, low: nat, high: nat): nat {
    if x < low then low else if x > high then high else x
  }

  function RingCapacity(requested: u32): nat {
    Clamp(NextPowerOfTwo(requested), MIN_CAPACITY, MAX_CAPACITY)
  }

  predicate PowerInRange(c: nat) {
    c in {4, 8, 16, 32, 64}
  }

  lemma {:induction false} PowerFromProps(p: nat, k: nat, n: u32) returns (j: nat)
    requires p == Pow2(k) && (k > 0 ==> Pow2(k - 1) < n)
    ensures PowerFrom(p, n) == Pow2(j) >= n && (j > 0 ==> Pow2(j - 1) < n)
    decreases n - p
  {
    if p < n {
      j := PowerFromProps(2 * p, k + 1, n);
    } else {
      j := k;
    }
  }

  lemma {:induction false} Pow2Table(j: nat)
    ensures if j <= 6 then Pow2(j) == [1, 2, 4, 8, 16, 32, 64][j] else Pow2(j) >= 128
  {
    if j > 0 {
      Pow2Table(j - 1);
    }
  }

  /**
   * The constructor always picks a power of two in 4..64: the tightest one for requests in
   * range, 64 above, and 4 once the next power of two no longer fits 32 bits.
   */
  lemma {:induction false} CapacityIsPowerOfTwo(requested: u32)
    ensures PowerInRange(RingCapacity(requested))
    ensures 4 < requested <= 64 ==> requested <= RingCapacity(requested) < 2 * requested
    ensures RingCapacity(requested) == 4 <==> requested <= 4 || requested > 0x8000_0000
    ensures 64 < requested <= 0x8000_0000 ==> RingCapacity(requested) == 64
  {
    if requested <= 0x8000_0000 {
      var j := PowerFromProps(1, 0, requested);
      Pow2Table(j);
    }
  }

  /** For such capacities the mask computes the remainder. */
  lemma {:induction false} MaskIsModulo(x: nat, capacity: nat)
    requires PowerInRange(capacity)
    ensures BitAnd(x, capacity - 1) == x % capacity < capacity
  {
    assert Pow2(2) == 4 && Pow2(3) == 8 && Pow2(4) == 16 && Pow2(5) == 32 && Pow2(6) == 64;
    AndMask(x, 2);
    AndMask(x, 3);
    AndMask(x, 4);
    AndMask(x, 5);
    AndMask(x, 6);
  }

  /** The array position of the `k`-th item ever enqueued. */
  function Slot(k: nat, capacity: nat): nat
    requires PowerInRange(capacity)
  {
    k % capacity
  }

  /** The free position the producer writes next holds no unread item. */
  lemma {:induction false} NextSlotIsFree(tail: nat, head: nat, capacity: nat)
    requires PowerInRange(capacity) && tail <= head < tail + capacity
    ensures forall k :: tail <= k < head ==> Slot(k, capacity) != Slot(head, capacity)
  {
    forall k | tail <= k < head ensures Slot(k, capacity) != Slot(head, capacity) {
      ModDistinct(k, head, capacity);
    }
  }

  function WrappingSub(a: u64, b: u64): u64 {
    (a - b) % 0x1_0000_0000_0000_0000
  }

  class RingModel {
    const capacity: u32
    var visibleHead: u64
    var tail: u64
    var localHead: u64
    const descriptors: array<TestDescriptor>
    /** The queue that the ring stores. */
    ghost var contents: seq<TestDescriptor>

    ghost predicate Valid()
      reads this, descriptors
    {
      && PowerInRange(capacity) && descriptors.Length == capacity
      && tail <= visibleHead == localHead
      && |contents| == localHead - tail <= capacity
      && forall k :: tail <= k < localHead ==> descriptors[Slot(k, capacity)] == contents[k - tail]
    }

    constructor (requested: u32)
      ensures Valid() && fresh(descriptors)
      ensures capacity == RingCapacity(requested) && contents == [] && localHead == 0
    {
      CapacityIsPowerOfTwo(requested);
      var c := RingCapacity(requested);
      capacity := c;
      visibleHead, tail, localHead := 0, 0, 0;
      descriptors := new TestDescriptor[c](_ => TestDescriptor(0));
      contents := [];
    }

    predicate IsFull()
      reads this
    {
      WrappingSub(localHead, tail) >= capacity
    }

    function Len(): int
      reads this
    {
      if visibleHead >= tail then visibleHead - tail else 0
    }

    /** Fails exactly when the queue holds `capacity` items; otherwise appends. */
    method Enqueue(desc: TestDescriptor) returns (r: Result<(), RingError>)
      requires Valid() && localHead + 1 < 0x1_0000_0000_0000_0000
      modifies this, descriptors
      ensures Valid()
      ensures r == if |old(contents)| < capacity then Ok(()) else Err(Full)
      ensures contents == if r.Ok? then old(contents) + [desc] else old(contents)
      ensures localHead == old(localHead) + (if r.Ok? then 1 else 0)
    {
      if IsFull() {
        return Err(Full);
      }
      MaskIsModulo(localHead, capacity);
      var idx := BitAnd(localHead, capacity - 1);
      NextSlotIsFree(tail, localHead, capacity);
      descriptors[idx] := desc;
      localHead := localHead + 1;
      visibleHead := localHead;
      contents := contents + [desc];
      return Ok(());
    }

    /** Removes and returns the head of the queue, if there is one. */
    method Dequeue() returns (r: Option<TestDescriptor>)
      requires Valid()
      modifies this
      ensures Valid()
      ensures r == if old(contents) == [] then None else Some(old(contents)[0])
      ensures contents == if r.Some? then old(contents)[1..] else old(contents)
      ensures localHead == old(localHead)
    {
      if tail >= visibleHead {
        return None;
      }
      MaskIsModulo(tail, capacity);
      var idx := BitAnd(tail, capacity - 1);
      var desc := descriptors[idx];
      assert idx == Slot(tail, capacity);
      tail := tail + 1;
      contents := contents[1..];
      return Some(desc);
    }
  }

  datatype RingOp = OpEnqueue(id: u64) | OpDequeue

  method VerifyRingInvariants(ring: RingModel, expected: seq<u64>) returns (ok: bool)
    requires ring.Valid() && |ring.contents| == |expected|
    ensures ok
  {
    if ring.Len() != |expected| { return false; }
    if ring.visibleHead < ring.tail { return false; }
    if ring.visibleHead - ring.tail != ring.Len() { return false; }
    if ring.Len() > ring.capacity { return false; }
    if ring.localHead != ring.visibleHead { return false; }
    return true;
  }

  function Ids(descs: seq<TestDescriptor>): seq<u64> {
    seq(|descs|, i requires 0 <= i < |descs| => descs[i].id)
  }

  /**
   * The interpreter that compares the ring with a plain queue after every operation:
   * no operation list makes a comparison fail.
   */
  method ExecuteAndVerify(requested: u32, ops: seq<RingOp>) returns (ok: bool)
    requires |ops| < 0x1_0000_0000_0000_0000
    ensures ok
  {
    var ring := new RingModel(requested);
    var expected: seq<u64> := [];
    for i := 0 to |ops|
      invariant ring.Valid() && fresh(ring) && fresh(ring.descriptors)
      invariant ring.localHead <= i
      invariant expected == Ids(ring.contents)
    {
      match ops[i] {
        case OpEnqueue(id) =>
          var r := ring.Enqueue(TestDescriptor(id));
          match r {
            case Ok(_) => expected := expected + [id];
            case Err(_) =>
              if |expected| < ring.capacity { return false; }
          }
        case OpDequeue =>
          var r := ring.Dequeue();
          if r.Some? && expected != [] {
            if r.value.id != expected[0] { return false; }
          } else if r.Some? || expected != [] {
            return false;
          }
          expected := if expected == [] then [] else expected[1..];
      }
      var fine := VerifyRingInvariants(ring, expected);
      if !fine { return false; }
    }
    return true;
  }
}
