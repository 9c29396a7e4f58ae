/** The generation-tagged slot allocator. */
module SlabAllocator {
  import opened Base

  const MIN_SLOT_COUNT: u32 := 4
  const MAX_SLOT_COUNT: u32 := 32
  const GENERATIONS: int := 0x1_0000_0000

  datatype SlotState = Free | Allocated | InFlight

  datatype SlotMeta = SlotMeta(generation: u32, state: SlotState)

  datatype SlotHandle = SlotHandle(index: u32, generation: u32)

  datatype SlabError = NoFreeSlots | InvalidIndex | StaleGeneration
      | InvalidState(expected: SlotState, found: SlotState)

  type Slots = s: seq<SlotMeta> | MIN_SLOT_COUNT <= |s| <= MAX_SLOT_COUNT witness FreshSlots(4)

  function FreshSlots(n: nat): seq<SlotMeta> {
    seq(n, _ => SlotMeta(0, Free))
  }

  /** The number nearest to the request from 4 to 32. */
  function SlotCount(requested: u32): (n: u32)
    ensures MIN_SLOT_COUNT <= n <= MAX_SLOT_COUNT
    ensures n < requested ==> n == MAX_SLOT_COUNT
    ensures n > requested ==> n == MIN_SLOT_COUNT
  {
    if requested < MIN_SLOT_COUNT then MIN_SLOT_COUNT
    else if requested > MAX_SLOT_COUNT then MAX_SLOT_COUNT
    else requested
  }

  // ------------------------------------------------------------------ specification

  /** The first free slot from `i` on, or the length if there is none. */
  function FirstFree(s: seq<SlotMeta>, i: nat): (r: nat)
    requires i <= |s|
    ensures i <= r <= |s|
    ensures r < |s| ==> s[r].state == Free
    ensures forall k :: i <= k < r ==> s[k].state != Free
    decreases |s| - i
  {
    if i == |s| || s[i].state == Free then i else FirstFree(s, i + 1)
  }

  function AllocIn(s: Slots): (Slots, Result<SlotHandle, SlabError>) {
    var i := FirstFree(s, 0);
    if i == |s| then (s, Err(NoFreeSlots))
    else
      var g := WrappingAdd32(s[i].generation, 1);
      (s[i := SlotMeta(g, Allocated)], Ok(SlotHandle(i, g)))
  }

  /** Move the slot of a current handle from one state to another. */
  function Move(s: Slots, h: SlotHandle, from: SlotState, to: SlotState): (Slots, Result<(), SlabError>) {
    if h.index >= |s| then (s, Err(InvalidIndex))
    else if s[h.index].generation != h.generation then (s, Err(StaleGeneration))
    else if s[h.index].state != from then (s, Err(InvalidState(from, s[h.index].state)))
    else (s[h.index := SlotMeta(h.generation, to)], Ok(()))
  }

  function MarkIn(s: Slots, h: SlotHandle): (Slots, Result<(), SlabError>) {
    Move(s, h, Allocated, InFlight)
  }

  function FreeIn(s: Slots, h: SlotHandle): (Slots, Result<(), SlabError>) {
    Move(s, h, InFlight, Free)
  }

  /** A refusal tells the truth about the handle: no such slot, not its generation, or the state it is in. */
  lemma {:induction false} RefusalsAreTrue(s: Slots, h: SlotHandle, from: SlotState, to: SlotState)
    ensures var (t, r) := Move(s, h, from, to);
            && (r == Err(InvalidIndex) <==> h.index >= |s|)
            && (r == Err(StaleGeneration) <==> h.index < |s| && s[h.index].generation != h.generation)
            && (r.Ok? <==> h.index < |s| && s[h.index] == SlotMeta(h.generation, from))
            && (r.Err? && r.error.InvalidState? ==>
                  r.error.expected == from != r.error.found && s[h.index] == SlotMeta(h.generation, r.error.found))
            && (r.Err? ==> t == s)
  {
  }

  function Count(s: seq<SlotMeta>, st: SlotState): nat {
    if s == [] then 0 else Count(s[..|s| - 1], st) + (if s[|s| - 1].state == st then 1 else 0)
  }

  lemma {:induction false} CountUpdate(s: seq<SlotMeta>, i: nat, m: SlotMeta, st: SlotState)
    requires i < |s|
    ensures Count(s[i := m], st) == Count(s, st) - (if s[i].state == st then 1 else 0)
        + (if m.state == st then 1 else 0)
  {
    var n := |s| - 1;
    if i < n {
      CountUpdate(s[..n], i, m, st);
      assert s[i := m][..n] == s[..n][i := m];
    } else {
      assert s[i := m][..n] == s[..n];
    }
  }

  /** Every slot is free, allocated or in flight. */
  lemma {:induction false} CountTotal(s: seq<SlotMeta>)
    ensures Count(s, Free) + Count(s, Allocated) + Count(s, InFlight) == |s|
  {
    if s != [] {
      CountTotal(s[..|s| - 1]);
    }
  }

  lemma {:induction false} CountFresh(n: nat, st: SlotState)
    ensures Count(FreshSlots(n), st) == if st == Free then n else 0
  {
    if n > 0 {
      CountFresh(n - 1, st);
      assert FreshSlots(n)[..n - 1] == FreshSlots(n - 1);
    }
  }

  lemma {:induction false} CountZero(s: seq<SlotMeta>, st: SlotState)
    requires forall k :: 0 <= k < |s| ==> s[k].state != st
    ensures Count(s, st) == 0
  {
    if s != [] {
      CountZero(s[..|s| - 1], st);
    }
  }

  // -------------------------------------------------------------------------- class

  class SlabModel {
    const slots: array<SlotMeta>

    ghost predicate Valid()
      reads this
    {
      MIN_SLOT_COUNT <= slots.Length <= MAX_SLOT_COUNT
    }

    function View(): Slots
      requires Valid()
      reads this, slots
    {
      slots[..]
    }

    constructor (requested: u32)
      ensures Valid() && fresh(slots)
      ensures View() == FreshSlots(SlotCount(requested))
    {
      slots := new SlotMeta[SlotCount(requested)](_ => SlotMeta(0, Free));
    }

    method Alloc() returns (r: Result<SlotHandle, SlabError>)
      requires Valid()
      modifies slots
      ensures (View(), r) == AllocIn(old(View()))
    {
      for i := 0 to slots.Length
        invariant slots[..] == old(slots[..])
        invariant FirstFree(slots[..], 0) == FirstFree(slots[..], i)
      {
        if slots[i].state == Free {
          slots[i] := SlotMeta(WrappingAdd32(slots[i].generation, 1), Allocated);
          return Ok(SlotHandle(i, slots[i].generation));
        }
      }
      return Err(NoFreeSlots);
    }

    method MarkInFlight(h: SlotHandle) returns (r: Result<(), SlabError>)
      requires Valid()
      modifies slots
      ensures (View(), r) == MarkIn(old(View()), h)
    {
      if h.index >= slots.Length {
        return Err(InvalidIndex);
      }
      if slots[h.index].generation != h.generation {
        return Err(StaleGeneration);
      }
      if slots[h.index].state != Allocated {
        return Err(InvalidState(Allocated, slots[h.index].state));
      }
      slots[h.index] := SlotMeta(h.generation, InFlight);
      return Ok(());
    }

    method Release(h: SlotHandle) returns (r: Result<(), SlabError>)
      requires Valid()
      modifies slots
      ensures (View(), r) == FreeIn(old(View()), h)
    {
      if h.index >= slots.Length {
        return Err(InvalidIndex);
      }
      if slots[h.index].generation != h.generation {
        return Err(StaleGeneration);
      }
      if slots[h.index].state != InFlight {
        return Err(InvalidState(InFlight, slots[h.index].state));
      }
      slots[h.index] := SlotMeta(h.generation, Free);
      return Ok(());
    }
  }

  // ------------------------------------------------------------- the log of handles

  /** The generation a slot carries after `k` allocations. */
  function Gen(k: nat): u32 {
    k % GENERATIONS
  }

  lemma {:induction false} GenNext(k: nat)
    ensures WrappingAdd32(Gen(k), 1) == Gen(k + 1)
  {
  }

  /** Generations repeat with period 2^32 and not sooner. */
  lemma {:induction false} GenPeriod(a: nat, b: nat)
    ensures a < b < a + GENERATIONS ==> Gen(a) != Gen(b)
    ensures b == a + GENERATIONS ==> Gen(a) == Gen(b)
  {
  }

  /** How often slot `i` was handed out. */
  function Uses(log: seq<SlotHandle>, i: u32): nat {
    if log == [] then 0
    else Uses(log[..|log| - 1], i) + (if log[|log| - 1].index == i then 1 else 0)
  }

  /** The k-th handle for a slot carries generation k modulo 2^32, and the slots agree. */
  ghost predicate Logged(s: Slots, log: seq<SlotHandle>) {
    && (forall p :: 0 <= p < |log| ==>
          log[p].index < |s| && log[p].generation == Gen(Uses(log[..p], log[p].index) + 1))
    && (forall i: u32 :: i < |s| ==> s[i].generation == Gen(Uses(log, i)))
  }

  lemma {:induction false} UsesMonotone(log: seq<SlotHandle>, p: nat, i: u32)
    requires p < |log|
    ensures Uses(log[..p], i) + (if log[p].index == i then 1 else 0) <= Uses(log, i)
  {
    var n := |log| - 1;
    if p < n {
      UsesMonotone(log[..n], p, i);
      assert log[..n][..p] == log[..p];
    }
  }

  lemma {:induction false} NthUse(log: seq<SlotHandle>, i: u32, k: nat) returns (p: nat)
    requires 1 <= k <= Uses(log, i)
    ensures p < |log| && log[p].index == i && Uses(log[..p], i) == k - 1
  {
    var n := |log| - 1;
    if log[n].index == i && k == Uses(log, i) {
      p := n;
    } else {
      p := NthUse(log[..n], i, k);
      assert log[..n][..p] == log[..p];
    }
  }

  lemma {:induction false} UsesBounded(log: seq<SlotHandle>, i: u32)
    ensures Uses(log, i) <= |log|
  {
    if log != [] {
      UsesBounded(log[..|log| - 1], i);
    }
  }

  lemma {:induction false} NoEarlierUse(s: Slots, log: seq<SlotHandle>, h: SlotHandle, p: nat)
    requires Logged(s, log) && p < |log| && h.index < |s|
    requires h.generation == Gen(Uses(log, h.index) + 1) && Uses(log, h.index) < GENERATIONS
    ensures log[p] != h
  {
    hide Gen;
    if log[p].index == h.index {
      UsesMonotone(log, p, h.index);
      GenPeriod(Uses(log[..p], h.index) + 1, Uses(log, h.index) + 1);
    }
  }

  /** The next handle for a slot repeats an earlier one exactly from the 2^32-th reuse on. */
  lemma {:induction false} NextHandleIsNew(s: Slots, log: seq<SlotHandle>, h: SlotHandle)
    requires Logged(s, log) && h.index < |s|
    requires h.generation == Gen(Uses(log, h.index) + 1)
    ensures h !in log <==> Uses(log, h.index) < GENERATIONS
  {
    var n := Uses(log, h.index);
    if n < GENERATIONS {
      hide Gen, Logged, Uses;
      forall p | 0 <= p < |log| ensures log[p] != h {
        NoEarlierUse(s, log, h, p);
      }
    } else {
      hide Gen;
      var p := NthUse(log, h.index, n + 1 - GENERATIONS);
      GenPeriod(n + 1 - GENERATIONS, n + 1);
      assert log[p] == h;
    }
  }

  lemma {:induction false} UsesPush(log: seq<SlotHandle>, h: SlotHandle, i: u32)
    ensures Uses(log + [h], i) == Uses(log, i) + (if h.index == i then 1 else 0)
  {
    assert (log + [h])[..|log|] == log;
  }

  lemma {:induction false} LogPush(s: Slots, log: seq<SlotHandle>, h: SlotHandle, st: SlotState)
    requires Logged(s, log) && h.index < |s| && h.generation == Gen(Uses(log, h.index) + 1)
    ensures Logged(s[h.index := SlotMeta(h.generation, st)], log + [h])
  {
    hide Gen, Uses;
    var log' := log + [h];
    forall p | 0 <= p < |log'|
      ensures log'[p].index < |s| && log'[p].generation == Gen(Uses(log'[..p], log'[p].index) + 1)
    {
      assert log'[..p] == log[..p];
    }
    forall i: u32 | i < |s|
      ensures s[h.index := SlotMeta(h.generation, st)][i].generation == Gen(Uses(log', i))
    {
      UsesPush(log, h, i);
    }
  }

  lemma {:induction false} LogAlloc(s: Slots, log: seq<SlotHandle>)
    requires Logged(s, log)
    ensures var (s', r) := AllocIn(s);
            if r.Ok? then
              Logged(s', log + [r.value]) && r.value.generation == Gen(Uses(log, r.value.index) + 1)
            else s' == s
  {
    hide Gen, Uses, WrappingAdd32;
    var r := AllocIn(s).1;
    if r.Ok? {
      GenNext(Uses(log, r.value.index));
      LogPush(s, log, r.value, Allocated);
    }
  }

  lemma {:induction false} LogMove(s: Slots, log: seq<SlotHandle>, h: SlotHandle, from: SlotState, to: SlotState)
    requires Logged(s, log)
    ensures Logged(Move(s, h, from, to).0, log)
  {
  }

  // --------------------------------------------------------- runs of arbitrary calls

  /** Calls with handles of any provenance, forged ones included. */
  datatype Call = CallAlloc | CallMark(handle: SlotHandle) | CallFree(handle: SlotHandle)

  function Apply(s: Slots, call: Call): (Slots, bool) {
    match call
    case CallAlloc => var (s', r) := AllocIn(s); (s', r.Ok?)
    case CallMark(h) => var (s', r) := MarkIn(s, h); (s', r.Ok?)
    case CallFree(h) => var (s', r) := FreeIn(s, h); (s', r.Ok?)
  }

  function At(s: Slots, calls: seq<Call>, n: nat): Slots
    requires n <= |calls|
  {
    if n == 0 then s else Apply(At(s, calls, n - 1), calls[n - 1]).0
  }

  function LogAt(s: Slots, calls: seq<Call>, n: nat): seq<SlotHandle>
    requires n <= |calls|
  {
    if n == 0 then []
    else
      var r := AllocIn(At(s, calls, n - 1)).1;
      LogAt(s, calls, n - 1) + (if calls[n - 1].CallAlloc? && r.Ok? then [r.value] else [])
  }

  lemma {:induction false} RunLogged(count: u32, calls: seq<Call>, n: nat)
    requires MIN_SLOT_COUNT <= count <= MAX_SLOT_COUNT && n <= |calls|
    ensures Logged(At(FreshSlots(count), calls, n), LogAt(FreshSlots(count), calls, n))
  {
    if n > 0 {
      hide Gen, Uses, Logged, AllocIn, Move;
      RunLogged(count, calls, n - 1);
      var s, log := At(FreshSlots(count), calls, n - 1), LogAt(FreshSlots(count), calls, n - 1);
      assert log + [] == log;
      match calls[n - 1]
      case CallAlloc => LogAlloc(s, log);
      case CallMark(h) => LogMove(s, log, h, Allocated, InFlight);
      case CallFree(h) => LogMove(s, log, h, InFlight, Free);
    }
  }

  /** Handles never repeat, exactly as long as no slot is handed out more than 2^32 times. */
  lemma {:induction false} HandlesAreUnique(count: u32, calls: seq<Call>, n: nat)
    requires MIN_SLOT_COUNT <= count <= MAX_SLOT_COUNT && n <= |calls|
    ensures var log := LogAt(FreshSlots(count), calls, n);
            NoDup(log) <==> forall i: u32 :: i < count ==> Uses(log, i) <= GENERATIONS
  {
    RunLogged(count, calls, n);
    LengthKept(FreshSlots(count), calls, n);
    LogUnique(At(FreshSlots(count), calls, n), LogAt(FreshSlots(count), calls, n));
  }

  lemma {:induction false} LengthKept(s: Slots, calls: seq<Call>, n: nat)
    requires n <= |calls|
    ensures |At(s, calls, n)| == |s|
  {
    if n > 0 {
      LengthKept(s, calls, n - 1);
    }
  }

  lemma {:induction false} LogUnique(s: Slots, log: seq<SlotHandle>)
    requires Logged(s, log)
    ensures NoDup(log) <==> forall i: u32 :: i < |s| ==> Uses(log, i) <= GENERATIONS
  {
    hide Gen, Logged, Uses;
    if forall i: u32 :: i < |s| ==> Uses(log, i) <= GENERATIONS {
      forall p, q | 0 <= p < q < |log| ensures log[p] != log[q] {
        InLog(s, log, q);
        UsesAreDistinct(s, log, p, q);
      }
    } else {
      var i: u32 :| i < |s| && Uses(log, i) > GENERATIONS;
      UsesRepeat(s, log, i);
    }
  }

  lemma {:induction false} InLog(s: Slots, log: seq<SlotHandle>, q: nat)
    requires Logged(s, log) && q < |log|
    ensures log[q].index < |s| && log[q].generation == Gen(Uses(log[..q], log[q].index) + 1)
  {
  }

  lemma {:induction false} UsesAreDistinct(s: Slots, log: seq<SlotHandle>, p: nat, q: nat)
    requires Logged(s, log) && p < q < |log| && Uses(log, log[q].index) <= GENERATIONS
    ensures log[p] != log[q]
  {
    hide Gen, Logged, Uses;
    var i := log[q].index;
    if log[p].index == i {
      InLog(s, log, p);
      InLog(s, log, q);
      UsesMonotone(log, q, i);
      UsesMonotone(log[..q], p, i);
      assert log[..q][..p] == log[..p] && log[..q][p] == log[p];
      GenPeriod(Uses(log[..p], i) + 1, Uses(log[..q], i) + 1);
    }
  }

  lemma {:induction false} UsesRepeat(s: Slots, log: seq<SlotHandle>, i: u32)
    requires Logged(s, log) && Uses(log, i) > GENERATIONS
    ensures !NoDup(log)
  {
    hide Gen, Logged, Uses;
    var p := NthUse(log, i, 1);
    var q := NthUse(log, i, GENERATIONS + 1);
    InLog(s, log, p);
    InLog(s, log, q);
    GenPeriod(1, GENERATIONS + 1);
    assert log[p] == log[q] && p != q;
  }

  /** Allocation fails exactly when no slot is free. */
  lemma {:induction false} AllocFailsOnlyWhenFull(s: Slots)
    ensures AllocIn(s).1.Err? <==> Count(s, Free) == 0
    ensures AllocIn(s).1.Err? ==> AllocIn(s).1.error == NoFreeSlots
  {
    var i := FirstFree(s, 0);
    if i == |s| {
      CountZero(s, Free);
    } else {
      CountUpdate(s, i, SlotMeta(0, Allocated), Free);
    }
  }

  // ------------------------------------------------------------------ stale handles

  /** Successful allocations of slot `i` by calls `a`, ..., `b - 1`. */
  function Reuses(s: Slots, calls: seq<Call>, a: nat, b: nat, i: u32): nat
    requires a <= b <= |calls|
  {
    if a == b then 0
    else
      var r := AllocIn(At(s, calls, b - 1)).1;
      Reuses(s, calls, a, b - 1, i) + (if calls[b - 1].CallAlloc? && r.Ok? && r.value.index == i then 1 else 0)
  }

  /** Slot `h.index` was freed by the owner of `h` and handed out `uses` times since. */
  ghost predicate Outlived(s: Slots, h: SlotHandle, uses: nat) {
    && h.index < |s|
    && s[h.index].generation == Gen(h.generation + uses)
    && (uses == 0 ==> s[h.index].state == Free)
  }

  lemma {:induction false} OutlivedStep(s: Slots, h: SlotHandle, uses: nat, call: Call)
    requires Outlived(s, h, uses)
    ensures var r := AllocIn(s).1;
            Outlived(Apply(s, call).0, h,
                uses + (if call.CallAlloc? && r.Ok? && r.value.index == h.index then 1 else 0))
  {
    GenNext(h.generation + uses);
  }

  lemma {:induction false} StaleSlot(s: Slots, calls: seq<Call>, a: nat, b: nat)
    requires a < b <= |calls| && calls[a].CallFree? && Apply(At(s, calls, a), calls[a]).1
    ensures Outlived(At(s, calls, b), calls[a].handle, Reuses(s, calls, a + 1, b, calls[a].handle.index))
    decreases b
  {
    if a + 1 < b {
      hide Outlived, Apply, AllocIn, Gen;
      var h := calls[a].handle;
      StaleSlot(s, calls, a, b - 1);
      OutlivedStep(At(s, calls, b - 1), h, Reuses(s, calls, a + 1, b - 1, h.index), calls[b - 1]);
    } else {
      hide AllocIn;
    }
  }

  /** The generation a slot had comes back exactly after every 2^32 uses. */
  lemma {:induction false} GenReturns(g: u32, uses: nat)
    ensures Gen(g + uses) == g <==> uses % GENERATIONS == 0
  {
  }

  /**
   * When a freed handle succeeds again: exactly if its slot has been handed out 2^32 more
   * times, or a multiple of that, and is in the state the call asks for.
   */
  lemma {:induction false} FreedHandleSucceedsIff(s: Slots, calls: seq<Call>, a: nat, b: nat)
    requires a < b < |calls| && calls[a].CallFree? && Apply(At(s, calls, a), calls[a]).1
    requires calls[b] == CallMark(calls[a].handle) || calls[b] == CallFree(calls[a].handle)
    ensures var (h, t) := (calls[a].handle, At(s, calls, b));
            h.index < |t| &&
            var uses := Reuses(s, calls, a + 1, b, h.index);
            (Apply(t, calls[b]).1 <==>
              && uses > 0 && uses % GENERATIONS == 0
              && t[h.index].state == if calls[b].CallMark? then Allocated else InFlight)
  {
    hide AllocIn, Reuses, At, Gen;
    var h := calls[a].handle;
    StaleSlot(s, calls, a, b);
    GenReturns(h.generation, Reuses(s, calls, a + 1, b, h.index));
  }

  /**
   * A freed handle stays dead: until its slot has been handed out 2^32 more times, it is
   * neither marked in flight nor freed again.
   */
  lemma {:induction false} FreedHandleStaysDead(s: Slots, calls: seq<Call>, a: nat, b: nat)
    requires a < b < |calls| && calls[a].CallFree? && Apply(At(s, calls, a), calls[a]).1
    requires Reuses(s, calls, a + 1, b, calls[a].handle.index) < GENERATIONS
    requires calls[b] == CallMark(calls[a].handle) || calls[b] == CallFree(calls[a].handle)
    ensures !Apply(At(s, calls, b), calls[b]).1
  {
    hide AllocIn, Reuses, At, Apply;
    FreedHandleSucceedsIff(s, calls, a, b);
  }

  /** Slot 0 handed out, marked and freed, `n` times over. */
  function Cycles(n: nat): (calls: seq<Call>)
    ensures |calls| == 3 * n
  {
    seq(3 * n, i requires 0 <= i < 3 * n =>
      var h := SlotHandle(0, Gen(i / 3 + 1));
      if i % 3 == 0 then CallAlloc else if i % 3 == 1 then CallMark(h) else CallFree(h))
  }

  lemma {:induction false} CycleCalls(n: nat, k: nat)
    requires k < n
    ensures var h := SlotHandle(0, Gen(k + 1));
            && Cycles(n)[3 * k] == CallAlloc && Cycles(n)[3 * k + 1] == CallMark(h)
            && Cycles(n)[3 * k + 2] == CallFree(h)
  {
    hide Gen;
  }

  lemma {:induction false} OneCycle(s: Slots, k: nat)
    requires s[0] == SlotMeta(Gen(k), Free)
    ensures var h := SlotHandle(0, Gen(k + 1));
            var s1 := Apply(s, CallAlloc).0; var s2 := Apply(s1, CallMark(h)).0; var s3 := Apply(s2, CallFree(h)).0;
            && AllocIn(s).1 == Ok(h) && s1[0] == SlotMeta(Gen(k + 1), Allocated)
            && Apply(s1, CallMark(h)).1 && s2[0] == SlotMeta(Gen(k + 1), InFlight)
            && Apply(s2, CallFree(h)).1 && s3[0] == SlotMeta(Gen(k + 1), Free)
  {
    GenNext(k);
    hide Gen, WrappingAdd32;
    assert FirstFree(s, 0) == 0;
  }

  lemma {:induction false} AtCycles(s: Slots, n: nat, k: nat)
    requires s[0] == SlotMeta(0, Free) && k <= n
    ensures At(s, Cycles(n), 3 * k)[0] == SlotMeta(Gen(k), Free)
    ensures k < n ==> At(s, Cycles(n), 3 * k + 1)[0] == SlotMeta(Gen(k + 1), Allocated)
    ensures k < n ==> At(s, Cycles(n), 3 * k + 2)[0] == SlotMeta(Gen(k + 1), InFlight)
    ensures k < n ==> AllocIn(At(s, Cycles(n), 3 * k)).1 == Ok(SlotHandle(0, Gen(k + 1)))
    ensures k < n ==> Apply(At(s, Cycles(n), 3 * k + 2), Cycles(n)[3 * k + 2]).1
  {
    hide Apply, Cycles, Gen, AllocIn;
    if k > 0 {
      AtCycles(s, n, k - 1);
      CycleCalls(n, k - 1);
      OneCycle(At(s, Cycles(n), 3 * (k - 1)), k - 1);
      CycleSteps(s, Cycles(n), 3 * (k - 1));
    } else {
      GenOfNone();
    }
    if k < n {
      CycleCalls(n, k);
      OneCycle(At(s, Cycles(n), 3 * k), k);
      CycleSteps(s, Cycles(n), 3 * k);
    }
  }

  lemma {:induction false} GenOfNone()
    ensures Gen(0) == 0
  {
  }

  lemma {:induction false} CycleSteps(s: Slots, calls: seq<Call>, i: nat)
    requires i + 3 <= |calls|
    ensures At(s, calls, i + 1) == Apply(At(s, calls, i), calls[i]).0
    ensures At(s, calls, i + 2) == Apply(At(s, calls, i + 1), calls[i + 1]).0
    ensures At(s, calls, i + 3) == Apply(At(s, calls, i + 2), calls[i + 2]).0
  {
    hide Apply;
  }

  /** After the first cycle slot 0 is reused once a cycle. */
  lemma {:induction false} CycleReuses(s: Slots, n: nat, k: nat)
    requires s[0] == SlotMeta(0, Free) && 1 <= k <= n
    ensures Reuses(s, Cycles(n), 3, 3 * k, 0) == k - 1
    ensures k < n ==> Reuses(s, Cycles(n), 3, 3 * k + 1, 0) == k
  {
    hide At, Apply, Cycles, AllocIn, Gen;
    if k > 1 {
      CycleReuses(s, n, k - 1);
      CycleCalls(n, k - 1);
    }
    if k < n {
      AtCycles(s, n, k);
      CycleCalls(n, k);
    }
  }

  /**
   * The bound on reuses is tight: on a fresh slab there are calls in which the handle freed
   * by the third is marked in flight again right after the 2^32-th reuse of its slot.
   */
  lemma {:induction false} FreedHandleRevives(count: u32) returns (calls: seq<Call>, b: nat)
    requires MIN_SLOT_COUNT <= count <= MAX_SLOT_COUNT
    ensures var s := FreshSlots(count);
            && 2 < b < |calls| && calls[2].CallFree? && Apply(At(s, calls, 2), calls[2]).1
            && calls[b] == CallMark(calls[2].handle)
            && Reuses(s, calls, 3, b, calls[2].handle.index) == GENERATIONS
            && Apply(At(s, calls, b), calls[b]).1
  {
    calls, b := RevivedAfter(count, GENERATIONS);
  }

  lemma {:induction false} RevivedAfter(count: u32, g: nat) returns (calls: seq<Call>, b: nat)
    requires MIN_SLOT_COUNT <= count <= MAX_SLOT_COUNT && g == GENERATIONS
    ensures var s := FreshSlots(count);
            && 2 < b < |calls| && calls[2].CallFree? && Apply(At(s, calls, 2), calls[2]).1
            && calls[b] == CallMark(calls[2].handle)
            && Reuses(s, calls, 3, b, calls[2].handle.index) == g
            && Apply(At(s, calls, b), calls[b]).1
  {
    var s: Slots := FreshSlots(count);
    hide Apply, Cycles, Gen, AllocIn, At, Reuses;
    calls, b := Cycles(g + 1), 3 * g + 1;
    CycleCalls(g + 1, 0);
    CycleCalls(g + 1, g);
    AtCycles(s, g + 1, 0);
    CycleReuses(s, g + 1, g);
    GenPeriod(1, g + 1);
    FreedHandleSucceedsIff(s, calls, 2, b);
    AtCycles(s, g + 1, g);
  }

  // ------------------------------------------------------------------ the interpreter

  /** `handles` lists, once each, the current handles of exactly the slots in state `st`. */
  ghost predicate Tracks(s: Slots, handles: seq<SlotHandle>, st: SlotState) {
    && (forall j, k :: 0 <= j < k < |handles| ==> handles[j].index != handles[k].index)
    && (forall j :: 0 <= j < |handles| ==>
          handles[j].index < |s| && s[handles[j].index] == SlotMeta(handles[j].generation, st))
    && (forall i: u32 :: i < |s| && s[i].state == st ==> SlotHandle(i, s[i].generation) in handles)
    && |handles| == Count(s, st)
  }

  function Without<T>(s: seq<T>, k: nat): seq<T>
    requires k < |s|
  {
    s[..k] + s[k + 1..]
  }

  /** A slot enters state `st`: its handle is appended. */
  lemma {:induction false} TracksEnter(s: Slots, handles: seq<SlotHandle>, st: SlotState, h: SlotHandle)
    requires Tracks(s, handles, st) && h.index < |s| && s[h.index].state != st
    ensures Tracks(s[h.index := SlotMeta(h.generation, st)], handles + [h], st)
  {
    var m := SlotMeta(h.generation, st);
    CountUpdate(s, h.index, m, st);
    var handles', s' := handles + [h], s[h.index := m];
    assert handles'[|handles|] == h;
    forall i: u32 | i < |s| && s'[i].state == st
      ensures SlotHandle(i, s'[i].generation) in handles'
    {
      if i != h.index { assert SlotHandle(i, s[i].generation) in handles; }
    }
  }

  /** A slot leaves state `st`: its handle is removed. */
  lemma {:induction false} TracksLeave(s: Slots, handles: seq<SlotHandle>, st: SlotState, k: nat, m: SlotMeta)
    requires Tracks(s, handles, st) && k < |handles| && m.state != st
    ensures Tracks(s[handles[k].index := m], Without(handles, k), st)
  {
    var h := handles[k];
    CountUpdate(s, h.index, m, st);
    var rest, s' := Without(handles, k), s[h.index := m];
    assert forall j :: 0 <= j < |rest| ==> rest[j] == handles[if j < k then j else j + 1];
    forall i: u32 | i < |s| && s'[i].state == st
      ensures SlotHandle(i, s'[i].generation) in rest
    {
      var j :| 0 <= j < |handles| && handles[j] == SlotHandle(i, s[i].generation);
      assert rest[if j < k then j else j - 1] == handles[j];
    }
  }

  /** A change between two other states does not concern the list. */
  lemma {:induction false} TracksOther(s: Slots, handles: seq<SlotHandle>, st: SlotState, i: u32, m: SlotMeta)
    requires Tracks(s, handles, st) && i < |s| && s[i].state != st && m.state != st
    ensures Tracks(s[i := m], handles, st)
  {
    CountUpdate(s, i, m, st);
  }

  /** The handle of a slot in state `st` is on the list. */
  lemma {:induction false} TracksFind(s: Slots, handles: seq<SlotHandle>, st: SlotState, h: SlotHandle)
    requires Tracks(s, handles, st)
    ensures h in handles <==> h.index < |s| && s[h.index] == SlotMeta(h.generation, st)
  {
    if h.index < |s| && s[h.index] == SlotMeta(h.generation, st) {
      assert SlotHandle(h.index, s[h.index].generation) in handles;
    }
  }

  datatype SlabOp =
    | Alloc
    | MarkInFlight(handleIdx: nat)
    | FreeOp(handleIdx: nat)
    | DoubleFree(index: u32, generation: u32)
    | UseStale(index: u32, generation: u32)

  /** The first position of `h`, or the length if it is not listed. */
  function IndexOf(handles: seq<SlotHandle>, h: SlotHandle): (i: nat)
    ensures i <= |handles| && h !in handles[..i]
    ensures i < |handles| ==> handles[i] == h
  {
    if handles == [] || handles[0] == h then 0
    else
      var i := IndexOf(handles[1..], h);
      assert handles[..i + 1] == [handles[0]] + handles[1..][..i];
      i + 1
  }

  function Removed(handles: seq<SlotHandle>, h: SlotHandle): seq<SlotHandle> {
    var i := IndexOf(handles, h);
    if i < |handles| then Without(handles, i) else handles
  }

  lemma {:induction false} IndexOfIs(handles: seq<SlotHandle>, h: SlotHandle, i: nat)
    requires i < |handles| && handles[i] == h && h !in handles[..i]
    ensures IndexOf(handles, h) == i
  {
    hide IndexOf;
  }

  method Position(handles: seq<SlotHandle>, h: SlotHandle) returns (pos: Option<nat>)
    ensures pos.None? <==> h !in handles
    ensures pos.Some? ==> pos.value < |handles| && handles[pos.value] == h && h !in handles[..pos.value]
  {
    for i := 0 to |handles|
      invariant h !in handles[..i]
    {
      if handles[i] == h { return Some(i); }
    }
    return None;
  }

  /** What the interpreter knows: the lists of allocated and in-flight handles, and every handle seen. */
  class SlabTracker {
    var allocatedList: seq<SlotHandle>
    var inFlightList: seq<SlotHandle>
    var allSeen: set<SlotHandle>

    constructor ()
      ensures allocatedList == [] && inFlightList == [] && allSeen == {}
    {
      allocatedList, inFlightList, allSeen := [], [], {};
    }

    /** The lists are exact: together with the slab and the handles seen they are those of `r`. */
    ghost predicate Follows(slab: SlabModel, r: Run)
      requires slab.Valid()
      reads this, slab, slab.slots
    {
      && slab.View() == r.slots && allocatedList == r.owned && inFlightList == r.inFlight
      && allSeen == Elements(r.log)
      && Tracks(r.slots, allocatedList, Allocated) && Tracks(r.slots, inFlightList, InFlight)
    }
  }

  /** The slots, the interpreter's lists, and the log of every handle issued. */
  datatype Run = Run(slots: Slots, owned: seq<SlotHandle>, inFlight: seq<SlotHandle>, log: seq<SlotHandle>)

  /** What one operation of the interpreter does. */
  function Perform(r: Run, op: SlabOp): Run {
    match op
    case Alloc =>
      var (slots', a) := AllocIn(r.slots);
      if a.Ok? then Run(slots', r.owned + [a.value], r.inFlight, r.log + [a.value]) else r
    case MarkInFlight(handleIdx) =>
      if r.owned == [] then r
      else
        var k := handleIdx % |r.owned|;
        var h := r.owned[k];
        Run(MarkIn(r.slots, h).0, Without(r.owned, k), r.inFlight + [h], r.log)
    case FreeOp(handleIdx) =>
      if r.inFlight == [] then r
      else
        var k := handleIdx % |r.inFlight|;
        r.(slots := FreeIn(r.slots, r.inFlight[k]).0, inFlight := Without(r.inFlight, k))
    case DoubleFree(index, generation) =>
      var h := SlotHandle(index % |r.slots|, generation);
      if FreeIn(r.slots, h).1.Ok? then r.(slots := FreeIn(r.slots, h).0, inFlight := Removed(r.inFlight, h)) else r
    case UseStale(index, generation) =>
      var h := SlotHandle(index % |r.slots|, generation);
      if MarkIn(r.slots, h).1.Err? then r
      else Run(MarkIn(r.slots, h).0, Removed(r.owned, h), r.inFlight + [h], r.log)
  }

  function RunAt(requested: u32, ops: seq<SlabOp>, n: nat): Run
    requires n <= |ops|
  {
    if n == 0 then Run(FreshSlots(SlotCount(requested)), [], [], [])
    else Perform(RunAt(requested, ops, n - 1), ops[n - 1])
  }

  /** No slot was handed out more often than there are generations. */
  ghost predicate WithinGenerations(log: seq<SlotHandle>) {
    forall i: u32 :: Uses(log, i) <= GENERATIONS
  }

  lemma {:induction false} LogGrows(requested: u32, ops: seq<SlabOp>, n: nat)
    requires n <= |ops| && WithinGenerations(RunAt(requested, ops, |ops|).log)
    ensures WithinGenerations(RunAt(requested, ops, n).log)
    decreases |ops| - n
  {
    hide AllocIn, MarkIn, FreeIn, Removed, Uses;
    if n < |ops| {
      LogGrows(requested, ops, n + 1);
      var log, log' := RunAt(requested, ops, n).log, RunAt(requested, ops, n + 1).log;
      if log' != log {
        forall i: u32 ensures Uses(log, i) <= GENERATIONS {
          UsesPush(log, log'[|log|], i);
          assert log' == log + [log'[|log|]];
        }
      }
    }
  }

  /** In particular any run of at most 2^32 operations stays within the generations. */
  lemma {:induction false} ShortRunsFit(requested: u32, ops: seq<SlabOp>, n: nat)
    requires n <= |ops|
    ensures |RunAt(requested, ops, n).log| <= n
    ensures n <= GENERATIONS ==> WithinGenerations(RunAt(requested, ops, n).log)
  {
    hide AllocIn, MarkIn, FreeIn, Removed, Uses;
    if n > 0 {
      ShortRunsFit(requested, ops, n - 1);
    }
    forall i: u32 { UsesBounded(RunAt(requested, ops, n).log, i); }
  }

  lemma {:induction false} InUse(s: Slots, allocatedList: seq<SlotHandle>, inFlightList: seq<SlotHandle>)
    requires Tracks(s, allocatedList, Allocated) && Tracks(s, inFlightList, InFlight)
    ensures AllocIn(s).1.Err? ==> |allocatedList| + |inFlightList| == |s|
  {
    CountTotal(s);
    AllocFailsOnlyWhenFull(s);
  }

  /** What an allocation means for the log of handles and the lists of live ones. */
  lemma {:induction false} AllocTracked(
      s: Slots, log: seq<SlotHandle>, allocatedList: seq<SlotHandle>, inFlightList: seq<SlotHandle>)
    requires Logged(s, log) && |s| > 0
    requires Tracks(s, allocatedList, Allocated) && Tracks(s, inFlightList, InFlight)
    ensures var (s', r) := AllocIn(s);
            if r.Ok? then
              && (r.value !in log <==> Uses(log, r.value.index) < GENERATIONS) && Logged(s', log + [r.value])
              && Tracks(s', allocatedList + [r.value], Allocated) && Tracks(s', inFlightList, InFlight)
            else
              s' == s && r.error == NoFreeSlots && |allocatedList| + |inFlightList| == |s|
  {
    hide Tracks, Logged;
    LogAlloc(s, log);
    InUse(s, allocatedList, inFlightList);
    var r := AllocIn(s).1;
    if r.Ok? {
      var h := r.value;
      NextHandleIsNew(s, log, h);
      TracksEnter(s, allocatedList, Allocated, h);
      TracksOther(s, inFlightList, InFlight, h.index, SlotMeta(h.generation, Allocated));
    }
  }

  /** Fails exactly when the handle was issued before, that is, when its slot has used up its generations. */
  method TryAlloc(slab: SlabModel, tracker: SlabTracker, ghost r: Run) returns (ok: bool)
    requires slab.Valid() && tracker.Follows(slab, r) && Logged(r.slots, r.log)
    modifies slab.slots, tracker
    ensures ok <==> AllocIn(r.slots).1.Err? || Uses(r.log, AllocIn(r.slots).1.value.index) < GENERATIONS
    ensures ok ==> tracker.Follows(slab, Perform(r, Alloc))
  {
    hide AllocIn, Tracks, Logged;
    AllocTracked(r.slots, r.log, tracker.allocatedList, tracker.inFlightList);
    var a := slab.Alloc();
    match a {
      case Ok(h) =>
        if h in tracker.allSeen { return false; }
        tracker.allSeen := tracker.allSeen + {h};
        tracker.allocatedList := tracker.allocatedList + [h];
        assert Elements(r.log + [h]) == Elements(r.log) + {h};
        return true;
      case Err(e) =>
        if e != NoFreeSlots { return false; }
        if |tracker.allocatedList| + |tracker.inFlightList| < slab.slots.Length { return false; }
        return true;
    }
  }

  method TryMark(slab: SlabModel, tracker: SlabTracker, handleIdx: nat, ghost r: Run) returns (ok: bool)
    requires slab.Valid() && tracker.Follows(slab, r) && tracker.allocatedList != []
    modifies slab.slots, tracker
    ensures ok && tracker.Follows(slab, Perform(r, MarkInFlight(handleIdx)))
  {
    var k := handleIdx % |tracker.allocatedList|;
    var h := tracker.allocatedList[k];
    TracksLeave(r.slots, tracker.allocatedList, Allocated, k, SlotMeta(h.generation, InFlight));
    TracksEnter(r.slots, tracker.inFlightList, InFlight, h);
    TracksFind(r.slots, tracker.allocatedList, Allocated, h);
    hide Tracks;
    tracker.allocatedList := Without(tracker.allocatedList, k);
    var marked := slab.MarkInFlight(h);
    if marked.Err? { return false; }
    tracker.inFlightList := tracker.inFlightList + [h];
    return true;
  }

  method TryFree(slab: SlabModel, tracker: SlabTracker, handleIdx: nat, ghost r: Run) returns (ok: bool)
    requires slab.Valid() && tracker.Follows(slab, r) && tracker.inFlightList != []
    modifies slab.slots, tracker
    ensures ok && tracker.Follows(slab, Perform(r, FreeOp(handleIdx)))
  {
    var k := handleIdx % |tracker.inFlightList|;
    var h := tracker.inFlightList[k];
    TracksLeave(r.slots, tracker.inFlightList, InFlight, k, SlotMeta(h.generation, Free));
    TracksOther(r.slots, tracker.allocatedList, Allocated, h.index, SlotMeta(h.generation, Free));
    TracksFind(r.slots, tracker.inFlightList, InFlight, h);
    hide Tracks;
    tracker.inFlightList := Without(tracker.inFlightList, k);
    var freed := slab.Release(h);
    if freed.Err? { return false; }
    return true;
  }

  method TryDoubleFree(slab: SlabModel, tracker: SlabTracker, index: u32, generation: u32, ghost r: Run)
    returns (ok: bool)
    requires slab.Valid() && tracker.Follows(slab, r)
    modifies slab.slots, tracker
    ensures ok && tracker.Follows(slab, Perform(r, DoubleFree(index, generation)))
  {
    var h := SlotHandle(index % slab.slots.Length, generation);
    TracksFind(r.slots, tracker.inFlightList, InFlight, h);
    var freed := slab.Release(h);
    match freed {
      case Ok(_) =>
        var pos := Position(tracker.inFlightList, h);
        if pos.Some? {
          TracksLeave(r.slots, tracker.inFlightList, InFlight, pos.value, SlotMeta(h.generation, Free));
          TracksOther(r.slots, tracker.allocatedList, Allocated, h.index, SlotMeta(h.generation, Free));
          IndexOfIs(tracker.inFlightList, h, pos.value);
          hide Tracks;
          tracker.inFlightList := Without(tracker.inFlightList, pos.value);
        }
      case Err(StaleGeneration) =>
      case Err(InvalidState(_, _)) =>
      case Err(_) => return false;
    }
    return true;
  }

  method TryUseStale(slab: SlabModel, tracker: SlabTracker, index: u32, generation: u32, ghost r: Run)
    returns (ok: bool)
    requires slab.Valid() && tracker.Follows(slab, r)
    modifies slab.slots, tracker
    ensures ok && tracker.Follows(slab, Perform(r, UseStale(index, generation)))
  {
    var h := SlotHandle(index % slab.slots.Length, generation);
    TracksFind(r.slots, tracker.allocatedList, Allocated, h);
    var marked := slab.MarkInFlight(h);
    match marked {
      case Ok(_) =>
        var pos := Position(tracker.allocatedList, h);
        if pos.Some? {
          TracksLeave(r.slots, tracker.allocatedList, Allocated, pos.value, SlotMeta(h.generation, InFlight));
          TracksEnter(r.slots, tracker.inFlightList, InFlight, h);
          IndexOfIs(tracker.allocatedList, h, pos.value);
          hide Tracks;
          tracker.allocatedList := Without(tracker.allocatedList, pos.value);
          tracker.inFlightList := tracker.inFlightList + [h];
        }
      case Err(StaleGeneration) =>
      case Err(InvalidState(_, _)) =>
      case Err(_) => return false;
    }
    return true;
  }

  method VerifySlabInvariants(slab: SlabModel, tracker: SlabTracker) returns (ok: bool)
    requires slab.Valid()
    requires Tracks(slab.View(), tracker.allocatedList, Allocated)
        && Tracks(slab.View(), tracker.inFlightList, InFlight)
    ensures ok
  {
    var s := slab.View();
    CountTotal(s);
    if Count(s, Free) + Count(s, Allocated) + Count(s, InFlight) != |s| { return false; }
    if |tracker.allocatedList| != Count(s, Allocated) { return false; }
    if |tracker.inFlightList| != Count(s, InFlight) { return false; }
    var seen: set<u32> := {};
    var active := tracker.allocatedList + tracker.inFlightList;
    for j := 0 to |active|
      invariant forall i :: i in seen ==> exists k :: 0 <= k < j && active[k].index == i
    {
      if active[j].index in seen { return false; }
      seen := seen + {active[j].index};
    }
    for j := 0 to |tracker.allocatedList| {
      var h := tracker.allocatedList[j];
      if !(h.index < |s| && s[h.index].state == Allocated) { return false; }
      if !(h.index < |s| && s[h.index].generation == h.generation) { return false; }
    }
    for j := 0 to |tracker.inFlightList| {
      var h := tracker.inFlightList[j];
      if !(h.index < |s| && s[h.index].state == InFlight) { return false; }
      if !(h.index < |s| && s[h.index].generation == h.generation) { return false; }
    }
    return true;
  }

  /** A run of the interpreter keeps the log of handles and the slots' generations together. */
  lemma {:induction false} PerformLogged(r: Run, op: SlabOp)
    requires Logged(r.slots, r.log)
    ensures Logged(Perform(r, op).slots, Perform(r, op).log)
  {
    hide Logged, AllocIn, Move, Removed;
    match op
    case Alloc => LogAlloc(r.slots, r.log);
    case MarkInFlight(k) =>
      if r.owned != [] { LogMove(r.slots, r.log, r.owned[k % |r.owned|], Allocated, InFlight); }
    case FreeOp(k) =>
      if r.inFlight != [] { LogMove(r.slots, r.log, r.inFlight[k % |r.inFlight|], InFlight, Free); }
    case DoubleFree(i, g) => LogMove(r.slots, r.log, SlotHandle(i % |r.slots|, g), InFlight, Free);
    case UseStale(i, g) => LogMove(r.slots, r.log, SlotHandle(i % |r.slots|, g), Allocated, InFlight);
  }

  /** An allocation leaves the generations exactly when its slot has used them up. */
  lemma {:induction false} AllocWithin(r: Run)
    requires WithinGenerations(r.log)
    ensures WithinGenerations(Perform(r, Alloc).log) <==>
            AllocIn(r.slots).1.Err? || Uses(r.log, AllocIn(r.slots).1.value.index) < GENERATIONS
  {
    hide AllocIn, Uses;
    var a := AllocIn(r.slots).1;
    if a.Ok? {
      forall i: u32 { UsesPush(r.log, a.value, i); }
    }
  }

  lemma {:induction false} LogKept(r: Run, op: SlabOp)
    ensures !op.Alloc? ==> Perform(r, op).log == r.log
  {
    hide AllocIn, MarkIn, FreeIn, Removed;
  }

  /**
   * The interpreter with all its checks, forged double frees and stale uses included: it
   * succeeds exactly on the lists that hand out no slot more than 2^32 times.
   */
  method ExecuteAndVerify(requested: u32, ops: seq<SlabOp>) returns (ok: bool)
    ensures ok <==> WithinGenerations(RunAt(requested, ops, |ops|).log)
  {
    hide Perform, WithinGenerations, Logged, Tracks;
    var slab := new SlabModel(requested);
    var tracker := new SlabTracker();
    RunStarts(requested, ops);
    for i := 0 to |ops|
      invariant slab.Valid() && fresh(slab) && fresh(slab.slots) && fresh(tracker)
      invariant tracker.Follows(slab, RunAt(requested, ops, i))
      invariant Logged(RunAt(requested, ops, i).slots, RunAt(requested, ops, i).log)
      invariant WithinGenerations(RunAt(requested, ops, i).log)
    {
      ghost var r := RunAt(requested, ops, i);
      PerformLogged(r, ops[i]);
      LogKept(r, ops[i]);
      match ops[i] {
        case Alloc =>
          AllocWithin(r);
          ok := TryAlloc(slab, tracker, r);
          if !ok {
            if WithinGenerations(RunAt(requested, ops, |ops|).log) { LogGrows(requested, ops, i + 1); }
            return;
          }
        case MarkInFlight(handleIdx) =>
          if |tracker.allocatedList| == 0 {
            IdleMark(r, handleIdx);
            continue;
          }
          ok := TryMark(slab, tracker, handleIdx, r);
          if !ok { return; }
        case FreeOp(handleIdx) =>
          if |tracker.inFlightList| == 0 {
            IdleFree(r, handleIdx);
            continue;
          }
          ok := TryFree(slab, tracker, handleIdx, r);
          if !ok { return; }
        case DoubleFree(index, generation) =>
          ok := TryDoubleFree(slab, tracker, index, generation, r);
          if !ok { return; }
        case UseStale(index, generation) =>
          ok := TryUseStale(slab, tracker, index, generation, r);
          if !ok { return; }
      }
      ok := VerifySlabInvariants(slab, tracker);
      if !ok { return; }
    }
    return true;
  }

  lemma {:induction false} RunStarts(requested: u32, ops: seq<SlabOp>)
    ensures var r := RunAt(requested, ops, 0);
            && r == Run(FreshSlots(SlotCount(requested)), [], [], [])
            && Logged(r.slots, r.log) && WithinGenerations(r.log)
            && Tracks(r.slots, [], Allocated) && Tracks(r.slots, [], InFlight)
  {
    CountFresh(SlotCount(requested), Allocated);
    CountFresh(SlotCount(requested), InFlight);
  }

  lemma {:induction false} IdleMark(r: Run, handleIdx: nat)
    ensures r.owned == [] ==> Perform(r, MarkInFlight(handleIdx)) == r
  {
  }

  lemma {:induction false} IdleFree(r: Run, handleIdx: nat)
    ensures r.inFlight == [] ==> Perform(r, FreeOp(handleIdx)) == r
  {
  }
}
