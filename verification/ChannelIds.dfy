/** Channel-ID allocation: each side counts up by two from its own parity, modulo 2^32. */
module ChannelIds {
  import opened Base
  import H = Handshake

  const PERIOD: nat := 0x8000_0000

  function StartOf(role: H.Role): u32 {
    if role.Initiator? then 1 else 2
  }

  class Allocator {
    const role: H.Role
    var nextChannelId: u32
    ghost const start: u32
    ghost var issued: seq<u32>

    /** The ids issued so far are the first of the sequence that begins at `start`. */
    ghost predicate Valid()
      reads this
    {
      nextChannelId == Nth(start, |issued|) && forall k :: 0 <= k < |issued| ==> issued[k] == Nth(start, k)
    }

    constructor WithRole(role: H.Role)
      ensures Valid() && this.role == role && issued == [] && start == StartOf(role)
    {
      this.role := role;
      nextChannelId := match role
        case Initiator => 1
        case Acceptor => 2;
      start, issued := StartOf(role), [];
    }

    constructor WithChannelStart(startChannelId: u32)
      ensures Valid() && issued == [] && start == startChannelId
      ensures role.Initiator? <==> startChannelId % 2 == 1
    {
      role := if startChannelId % 2 == 1 then H.Initiator else H.Acceptor;
      nextChannelId, start, issued := startChannelId, startChannelId, [];
    }

    method NextChannelId() returns (id: u32)
      requires Valid()
      modifies this
      ensures Valid() && issued == old(issued) + [id]
    {
      id := nextChannelId;
      nextChannelId := WrappingAdd32(nextChannelId, 2);
      issued := issued + [id];
    }
  }

  /** The `k`-th id issued, counting from zero. */
  function Nth(start: u32, k: nat): u32 {
    if k == 0 then start else WrappingAdd32(Nth(start, k - 1), 2)
  }

  /** Within one period the count wraps at most once. */
  lemma {:induction false} NthIs(start: u32, k: nat)
    requires k <= PERIOD
    ensures Nth(start, k) == if start + 2 * k > U32_MAX then start + 2 * k - (U32_MAX + 1) else start + 2 * k
  {
    if k > 0 {
      NthIs(start, k - 1);
    }
  }

  lemma {:induction false} NthRepeats(start: u32, k: nat)
    ensures Nth(start, k + PERIOD) == Nth(start, k)
  {
    if k > 0 {
      NthRepeats(start, k - 1);
    } else {
      NthIs(start, PERIOD);
    }
  }

  lemma {:induction false} NthIsPeriodic(start: u32, k: nat)
    ensures Nth(start, k) == Nth(start, k % PERIOD)
  {
    hide Nth;
    if k >= PERIOD {
      NthRepeats(start, k - PERIOD);
      NthIsPeriodic(start, k - PERIOD);
      assert k % PERIOD == (k - PERIOD) % PERIOD;
    }
  }

  /** The `k`-th id, in closed form. */
  lemma {:induction false} NthValue(start: u32, k: nat)
    ensures var v := start + 2 * (k % PERIOD); Nth(start, k) == if v > U32_MAX then v - (U32_MAX + 1) else v
  {
    hide Nth;
    NthIsPeriodic(start, k);
    NthIs(start, k % PERIOD);
  }

  /** Parity is kept for ever, so sessions of opposite parity never share an id. */
  lemma {:induction false} ParitiesNeverMeet(a: u32, b: u32, i: nat, j: nat)
    ensures Nth(a, i) % 2 == a % 2
    ensures a % 2 != b % 2 ==> Nth(a, i) != Nth(b, j)
  {
    hide Nth;
    NthValue(a, i);
    NthValue(b, j);
  }

  /** An id comes back after exactly 2^31 allocations. */
  lemma {:induction false} RepeatsExactly(start: u32, i: nat, j: nat)
    ensures Nth(start, i) == Nth(start, j) <==> i % PERIOD == j % PERIOD
  {
    hide Nth;
    NthValue(start, i);
    NthValue(start, j);
  }

  /** An odd start gives 2^31 different ids, none of them the reserved 0. */
  lemma {:induction false} OddStart(start: u32, i: nat, j: nat)
    requires start % 2 == 1
    ensures Nth(start, i) != 0
    ensures i < j < PERIOD ==> Nth(start, i) != Nth(start, j)
  {
    hide Nth;
    ParitiesNeverMeet(start, 0, i, 0);
    RepeatsExactly(start, i, j);
  }

  /** Start 2 reaches the reserved 0 after exactly 2^31 - 1 different ids. */
  lemma {:induction false} AcceptorStart(i: nat, j: nat)
    ensures Nth(2, i) == 0 <==> i % PERIOD == PERIOD - 1
    ensures i < j < PERIOD ==> Nth(2, i) != Nth(2, j)
  {
    hide Nth;
    NthValue(2, i);
    RepeatsExactly(2, i, j);
  }

  /** An initiator gives out 1, 3, 5, ... and an acceptor 2, 4, 6, ..., each up to the end of 32 bits. */
  lemma {:induction false} IdsByRole(k: nat)
    ensures k < PERIOD ==> Nth(StartOf(H.Initiator), k) == 2 * k + 1
    ensures k < PERIOD - 1 ==> Nth(StartOf(H.Acceptor), k) == 2 * k + 2
  {
    hide Nth;
    if k < PERIOD {
      NthIs(StartOf(H.Initiator), k);
      NthIs(StartOf(H.Acceptor), k);
    }
  }

  /** Once the handshake let a session through, its ids never meet those of its peer. */
  lemma {:induction false} ReadySessionsShareNoId(a: H.Role, b: H.Role, steps: seq<H.Step>, i: nat, j: nat)
    ensures var s := H.After(H.Start(a, b), steps);
            s.a.phase.Ready? || s.b.phase.Ready? ==> Nth(StartOf(a), i) != Nth(StartOf(b), j)
  {
    hide Nth;
    H.ReadyOnlyIfComplementary(a, b, steps);
    ParitiesNeverMeet(StartOf(a), StartOf(b), i, j);
  }
}
