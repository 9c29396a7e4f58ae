/** What holds along every run of the pruning session: the window, half-close, credits. */
module SessionRuns {
  import opened Base
  import opened FlowControl
  import opened SessionRefinement
  import Unpruned = UnprunedSession

  // ------------------------------------------------------------ the tombstone window

  ghost function Position(s: seq<u32>, c: u32): (p: nat)
    requires c in s
    ensures p < |s| && s[p] == c
  {
    var p :| 0 <= p < |s| && s[p] == c;
    p
  }

  /** How many fresh insertions the tombstone of `c` still survives. */
  ghost function Slack(w: Window, max: nat, c: u32): int
    requires c in w.order
  {
    max - |w.order| + Position(w.order, c)
  }

  lemma {:induction false} InsertSlack(w: Window, max: nat, d: u32, i: TombstoneInfo, c: u32)
    requires w.Valid(max) && max > 0 && c in w.info
    ensures var w' := w.Insert(max, d, i);
            && (d in w.info ==> c in w'.order && Slack(w', max, c) == Slack(w, max, c))
            && (d !in w.info && Slack(w, max, c) > 0 ==> c in w'.order && Slack(w', max, c) == Slack(w, max, c) - 1)
            && (d !in w.info && Slack(w, max, c) <= 0 ==> c !in w'.info)
  {
    hide Position, NoDup;
    WindowNoDup(w, max);
    if d in w.info {
      assert w.Insert(max, d, i).order == w.order;
    } else {
      PushPosition(w.order, d, c);
      DropPosition(w.order + [d], c);
    }
  }

  lemma {:induction false} PushPosition(s: seq<u32>, d: u32, c: u32)
    requires NoDup(s) && c in s && d !in s
    ensures NoDup(s + [d]) && Position(s + [d], c) == Position(s, c)
  {
  }

  lemma {:induction false} DropPosition(s: seq<u32>, c: u32)
    requires NoDup(s) && c in s
    ensures Position(s, c) == 0 ==> s[0] == c && c !in s[1..]
    ensures Position(s, c) > 0 ==> c in s[1..] && s[0] != c && Position(s[1..], c) == Position(s, c) - 1
  {
    if Position(s, c) > 0 {
      assert s[1..][Position(s, c) - 1] == c;
    }
  }

  lemma {:induction false} FreshSlack(w: Window, max: nat, c: u32, i: TombstoneInfo)
    requires w.Valid(max) && max > 0 && c !in w.info
    ensures var w' := w.Insert(max, c, i); c in w'.order && Slack(w', max, c) == max - 1
  {
    var w' := w.Insert(max, c, i);
    InsertValid(w, max, c, i);
    WindowNoDup(w', max);
    assert w'.order[|w'.order| - 1] == c;
  }

  /** The step records a tombstone for a channel that had none. */
  ghost predicate FreshStep(lim: Limits, s: State, op: Op) {
    !(s.Step(lim, op).0.tombs.info.Keys <= s.tombs.info.Keys)
  }

  lemma {:induction false} SlackStep(lim: Limits, s: State, op: Op, c: u32)
    requires Inv(lim, s)
    ensures var (max, w, w') := (lim.maxTombstones, s.tombs, s.Step(lim, op).0.tombs);
            && (c in w.info && !FreshStep(lim, s, op) ==> c in w'.order && Slack(w', max, c) == Slack(w, max, c))
            && (c in w.info && FreshStep(lim, s, op) && Slack(w, max, c) > 0 ==>
                  c in w'.order && Slack(w', max, c) == Slack(w, max, c) - 1)
            && (c in w.info && FreshStep(lim, s, op) && Slack(w, max, c) <= 0 ==> c !in w'.info)
            && (c !in w.info && c in w'.info ==> c in w'.order && Slack(w', max, c) == max - 1)
  {
    hide State.Step, Window.Insert, Slack;
    var inserted, d, i := StepWindow(lim, s, op);
    InsertEffect(s.tombs, lim.maxTombstones, d, i);
    if c in s.tombs.info {
      InsertSlack(s.tombs, lim.maxTombstones, d, i, c);
    } else if inserted && d == c {
      FreshSlack(s.tombs, lim.maxTombstones, c, i);
    }
  }

  /** The fresh insertions made by operations `i`, ..., `j - 1`. */
  ghost function FreshCount(lim: Limits, s: State, ops: seq<Op>, i: nat, j: nat): nat
    requires i <= j <= |ops|
  {
    if i == j then 0
    else FreshCount(lim, s, ops, i, j - 1) + (if FreshStep(lim, At(lim, s, ops, j - 1), ops[j - 1]) then 1 else 0)
  }

  /** Operation `i` puts `c` into the window. */
  ghost predicate Buries(lim: Limits, s: State, ops: seq<Op>, i: nat, c: u32)
    requires i < |ops|
  {
    c !in At(lim, s, ops, i).tombs.info && c in At(lim, s, ops, i + 1).tombs.info
  }

  lemma {:induction false} SlackRun(lim: Limits, s: State, ops: seq<Op>, i: nat, j: nat, c: u32)
    requires Inv(lim, s) && i < j <= |ops| && Buries(lim, s, ops, i, c)
    requires FreshCount(lim, s, ops, i + 1, j) < lim.maxTombstones
    ensures var w := At(lim, s, ops, j).tombs;
            c in w.order && Slack(w, lim.maxTombstones, c) == lim.maxTombstones - 1 - FreshCount(lim, s, ops, i + 1, j)
    decreases j
  {
    hide State.Step, Inv, FreshStep, Slack;
    RunInv(lim, s, ops, j - 1);
    SlackStep(lim, At(lim, s, ops, j - 1), ops[j - 1], c);
    if i + 1 < j {
      SlackRun(lim, s, ops, i, j - 1, c);
      InOrder(lim, At(lim, s, ops, j - 1), c);
    }
  }

  lemma {:induction false} InOrder(lim: Limits, s: State, c: u32)
    requires Inv(lim, s)
    ensures c in s.tombs.order <==> c in s.tombs.info
  {
  }

  /** A frame on `c` was not delivered, a DATA frame on `c` was not sent. */
  predicate Silenced(op: Op, c: u32, outcome: Outcome) {
    && (op.Recv? && op.frame.channel == c ==> outcome == RecvDropped)
    && (op.Send? && op.frame.channel == c && op.frame.flags.data ==> outcome == SendDropped)
  }

  lemma {:induction false} TombstoneSilences(lim: Limits, s: State, op: Op, c: u32)
    requires c != 0 && c in s.tombs.info
    ensures Silenced(op, c, s.Step(lim, op).1)
  {
    hide Window.Insert;
  }

  /**
   * The window is exact. A tombstone recorded by operation `i` is still there at `j` if
   * fewer than `max` fresh insertions were made since, and it silences its channel; the
   * `max`-th fresh insertion removes it. Re-insertions do not count.
   */
  lemma {:induction false} WindowIsExact(lim: Limits, s: State, ops: seq<Op>, i: nat, j: nat, c: u32)
    requires Inv(lim, s) && i < j <= |ops| && Buries(lim, s, ops, i, c)
    ensures FreshCount(lim, s, ops, i + 1, j) < lim.maxTombstones ==>
              && c in At(lim, s, ops, j).tombs.info
              && (j < |ops| && c != 0 ==> Silenced(ops[j], c, OutcomeAt(lim, s, ops, j)))
    ensures (i + 1 < j && FreshCount(lim, s, ops, i + 1, j - 1) == lim.maxTombstones - 1
             && FreshCount(lim, s, ops, i + 1, j) == lim.maxTombstones)
            ==> c !in At(lim, s, ops, j).tombs.info
  {
    hide State.Step, Inv, FreshStep, Slack, Silenced;
    if FreshCount(lim, s, ops, i + 1, j) < lim.maxTombstones {
      SlackRun(lim, s, ops, i, j, c);
      RunInv(lim, s, ops, j);
      InOrder(lim, At(lim, s, ops, j), c);
      if j < |ops| && c != 0 {
        TombstoneSilences(lim, At(lim, s, ops, j), ops[j], c);
      }
    } else if i + 1 < j && FreshCount(lim, s, ops, i + 1, j - 1) == lim.maxTombstones - 1 {
      SlackRun(lim, s, ops, i, j - 1, c);
      RunInv(lim, s, ops, j - 1);
      InOrder(lim, At(lim, s, ops, j - 1), c);
      SlackStep(lim, At(lim, s, ops, j - 1), ops[j - 1], c);
    }
  }

  // ------------------------------------------------------------------- half-close

  datatype Side = Local | Remote

  /** Channel `c` is done in one direction: half-closed on that side, or tombstoned. */
  ghost predicate DoneOn(side: Side, s: State, c: u32) {
    || c in s.tombs.info
    || (c in s.channels && s.channels[c].lifecycle == if side.Local? then HalfClosedLocal else HalfClosedRemote)
  }

  /** The operation would move a frame on `c` across that side. */
  predicate Crosses(side: Side, op: Op, c: u32) {
    match side
    case Local => op.Send? && op.frame.channel == c && op.frame.flags.data
    case Remote => op.Recv? && op.frame.channel == c
  }

  /** An accepted frame carrying EOS ends that side. */
  lemma {:induction false} EosEnds(lim: Limits, s: State, op: Op, c: u32, side: Side)
    requires Inv(lim, s) && c != 0 && Crosses(side, op, c) && op.frame.flags.eos
    requires s.Step(lim, op).1 == if side.Local? then Sent else Delivered
    ensures DoneOn(side, s.Step(lim, op).0, c) && c !in s.tombs.info
  {
    hide State.SendStep, State.RecvStep, Inv, DoneOn;
    match side
    case Local => SentEosEnds(lim, s, op.frame);
    case Remote => DeliveredEosEnds(lim, s, op.frame);
  }

  lemma {:induction false} SentEosEnds(lim: Limits, s: State, f: Frame)
    requires Inv(lim, s) && f.channel != 0 && f.flags.data && f.flags.eos && s.SendStep(lim, f).1 == Sent
    ensures DoneOn(Local, s.SendStep(lim, f).0, f.channel) && f.channel !in s.tombs.info
  {
    hide Window.Insert, Window.Valid;
    forall i { InsertEffect(s.tombs, lim.maxTombstones, f.channel, i); }
  }

  lemma {:induction false} DeliveredEosEnds(lim: Limits, s: State, f: Frame)
    requires Inv(lim, s) && f.channel != 0 && f.flags.eos && s.RecvStep(lim, f).1 == Delivered
    ensures DoneOn(Remote, s.RecvStep(lim, f).0, f.channel) && f.channel !in s.tombs.info
  {
    hide Window.Insert, Window.Valid;
    forall i { InsertEffect(s.tombs, lim.maxTombstones, f.channel, i); }
  }

  /** While a side is done, nothing crosses it. */
  lemma {:induction false} DoneBlocks(lim: Limits, s: State, op: Op, c: u32, side: Side)
    requires c != 0 && DoneOn(side, s, c) && Crosses(side, op, c)
    ensures s.Step(lim, op).1 == if side.Local? then SendDropped else RecvDropped
  {
    hide Window.Insert;
  }

  lemma {:induction false} RetireDone(lim: Limits, s: State, d: u32, cancelled: bool, c: u32, side: Side)
    requires Inv(lim, s) && DoneOn(side, s, c) && c !in s.tombs.info
    ensures DoneOn(side, s.Retire(lim, d, cancelled), c)
  {
    hide Window.Insert;
    InsertEffect(s.tombs, lim.maxTombstones, d, TombstoneInfo(Closed, cancelled));
  }

  lemma {:induction false} DoneStep(lim: Limits, s: State, op: Op, c: u32, side: Side)
    requires Inv(lim, s) && c != 0 && DoneOn(side, s, c) && c !in s.tombs.info
    ensures DoneOn(side, s.Step(lim, op).0, c)
  {
    hide State.Retire, Window.Valid;
    var d := if op.Recv? && op.frame.flags.control && op.frame.control.CancelChannel? && op.frame.channel == 0
             then op.frame.control.channel else Chan(op);
    RetireDone(lim, s, d, false, c, side);
    RetireDone(lim, s, d, true, c, side);
  }

  lemma {:induction false} DoneRun(lim: Limits, s: State, ops: seq<Op>, i: nat, j: nat, c: u32, side: Side)
    requires Inv(lim, s) && i < j <= |ops| && c != 0
    requires Crosses(side, ops[i], c) && ops[i].frame.flags.eos
    requires OutcomeAt(lim, s, ops, i) == if side.Local? then Sent else Delivered
    requires forall k :: i < k < j ==> KeepsTombstone(lim, At(lim, s, ops, k), ops[k], c)
    ensures DoneOn(side, At(lim, s, ops, j), c) && c !in At(lim, s, ops, i).tombs.info
    decreases j
  {
    hide State.Step, Inv, DoneOn, Crosses, KeepsTombstone;
    var before := At(lim, s, ops, j - 1);
    RunInv(lim, s, ops, j - 1);
    if i + 1 == j {
      EosEnds(lim, before, ops[i], c, side);
    } else {
      DoneRun(lim, s, ops, i, j - 1, c, side);
      if c in before.tombs.info {
        TombstoneStays(lim, before, ops[j - 1], c, side);
      } else {
        DoneStep(lim, before, ops[j - 1], c, side);
      }
    }
  }

  lemma {:induction false} TombstoneStays(lim: Limits, s: State, op: Op, c: u32, side: Side)
    requires c in s.tombs.info && KeepsTombstone(lim, s, op, c)
    ensures DoneOn(side, s.Step(lim, op).0, c)
  {
    hide State.Step;
  }

  /**
   * Half-close safety. After a DATA|EOS frame on `c` is accepted for sending (or an EOS
   * frame is delivered), no later DATA frame on `c` is sent (no later frame is delivered)
   * until the tombstone of `c`, if it has come to one, is evicted.
   */
  lemma {:induction false} HalfCloseIsFinal(lim: Limits, s: State, ops: seq<Op>, i: nat, j: nat, c: u32, side: Side)
    requires Inv(lim, s) && i < j < |ops| && c != 0
    requires Crosses(side, ops[i], c) && ops[i].frame.flags.eos
    requires OutcomeAt(lim, s, ops, i) == if side.Local? then Sent else Delivered
    requires forall k :: i < k < j ==> KeepsTombstone(lim, At(lim, s, ops, k), ops[k], c)
    requires Crosses(side, ops[j], c)
    ensures OutcomeAt(lim, s, ops, j) == if side.Local? then SendDropped else RecvDropped
  {
    hide State.Step, Inv, DoneOn, Crosses, KeepsTombstone;
    DoneRun(lim, s, ops, i, j, c, side);
    DoneBlocks(lim, At(lim, s, ops, j), ops[j], c, side);
  }

  /** A channel without a tombstone at `i` loses none before the `max`-th fresh insertion after `i`. */
  lemma {:induction false} FewBurialsKeep(lim: Limits, s: State, ops: seq<Op>, i: nat, j: nat, c: u32)
    requires Inv(lim, s) && i < j <= |ops| && c !in At(lim, s, ops, i).tombs.info
    requires FreshCount(lim, s, ops, i + 1, j) < lim.maxTombstones
    ensures forall k :: i < k < j ==> KeepsTombstone(lim, At(lim, s, ops, k), ops[k], c)
    ensures var w := At(lim, s, ops, j).tombs;
            c in w.info ==>
              && c in w.order
              && Slack(w, lim.maxTombstones, c) >= lim.maxTombstones - 1 - FreshCount(lim, s, ops, i + 1, j)
    decreases j
  {
    hide State.Step, Inv, FreshStep, Slack;
    RunInv(lim, s, ops, j - 1);
    RunInv(lim, s, ops, j);
    InOrder(lim, At(lim, s, ops, j), c);
    SlackStep(lim, At(lim, s, ops, j - 1), ops[j - 1], c);
    if i + 1 < j {
      FewBurialsKeep(lim, s, ops, i, j - 1, c);
    }
  }

  /** In particular half-close holds as long as fewer than `max` channels were buried since. */
  lemma {:induction false} HalfCloseOutlivesBurials(
      lim: Limits, s: State, ops: seq<Op>, i: nat, j: nat, c: u32, side: Side)
    requires Inv(lim, s) && i < j < |ops| && c != 0
    requires Crosses(side, ops[i], c) && ops[i].frame.flags.eos
    requires OutcomeAt(lim, s, ops, i) == if side.Local? then Sent else Delivered
    requires FreshCount(lim, s, ops, i + 1, j) < lim.maxTombstones
    requires Crosses(side, ops[j], c)
    ensures OutcomeAt(lim, s, ops, j) == if side.Local? then SendDropped else RecvDropped
  {
    hide State.Step, Inv, DoneOn, Crosses, KeepsTombstone, FreshCount;
    RunInv(lim, s, ops, i);
    EosEnds(lim, At(lim, s, ops, i), ops[i], c, side);
    FewBurialsKeep(lim, s, ops, i, j, c);
    HalfCloseIsFinal(lim, s, ops, i, j, c, side);
  }

  // ------------------------------------------------------------------ cancellation

  /** The grant an operation makes to `c`, from the application or from the peer. */
  function GrantOn(op: Op, c: u32): Option<u32> {
    match op
    case Grant(d, bytes) => if d == c then Some(bytes) else None
    case Recv(f) =>
      if f.channel == 0 && f.flags.control && f.control.GrantCredits? && f.control.channel == c
      then Some(f.control.bytes) else None
    case _ => None
  }

  /**
   * The credits of the entry that late grants re-created for a cancelled channel, if it
   * has one: a grant creates it or adds to it, a frame or another cancel removes it.
   */
  function Regrant(entry: Option<u32>, op: Op, c: u32): Option<u32> {
    var grant := GrantOn(op, c);
    if grant.Some? then
      Some(SaturatingAdd(if entry.Some? then entry.value else DEFAULT_INITIAL_CREDITS, grant.value))
    else if Cancels(op, c) || Crosses(Local, op, c) || Crosses(Remote, op, c) then None
    else entry
  }

  /** That entry after operations `i`, ..., `j - 1`. */
  function Regranted(ops: seq<Op>, i: nat, j: nat, c: u32): Option<u32>
    requires i <= j <= |ops|
  {
    if i == j then None else Regrant(Regranted(ops, i, j - 1, c), ops[j - 1], c)
  }

  /** `c` has a cancelled tombstone, and `entry` tells whether it is tracked again. */
  ghost predicate Cancelled(s: State, c: u32, entry: Option<u32>) {
    && c in s.tombs.info && s.tombs.info[c] == TombstoneInfo(Closed, true)
    && (c in s.channels <==> entry.Some?)
    && (entry.Some? ==> s.channels[c] == DEFAULT_CHANNEL.(credits := entry.value))
  }

  lemma {:induction false} CancelledStarts(lim: Limits, s: State, op: Op, c: u32)
    requires Inv(lim, s) && c != 0 && Cancels(op, c)
    ensures Cancelled(s.Step(lim, op).0, c, None)
  {
    hide Window.Insert, Window.Valid;
    InsertEffect(s.tombs, lim.maxTombstones, c, TombstoneInfo(Closed, true));
  }

  /** Another channel's tombstone leaves that of `c` as it is, or evicts it. */
  lemma {:induction false} OthersInsert(lim: Limits, s: State, op: Op, c: u32)
    requires Inv(lim, s) && c != 0 && c in s.tombs.info && KeepsTombstone(lim, s, op, c) && !Cancels(op, c)
    ensures s.Step(lim, op).0.tombs.info[c] == s.tombs.info[c]
  {
    hide State.Step, Window.Insert;
    var inserted, d, i := StepWindow(lim, s, op);
    InsertEffect(s.tombs, lim.maxTombstones, d, i);
  }

  /** How one operation changes the entry of a tombstoned channel. */
  lemma {:induction false} EntryStep(lim: Limits, s: State, op: Op, c: u32, entry: Option<u32>)
    requires c != 0 && Cancelled(s, c, entry)
    ensures var (t, e) := (s.Step(lim, op).0, Regrant(entry, op, c));
            && (c in t.channels <==> e.Some?)
            && (e.Some? ==> t.channels[c] == DEFAULT_CHANNEL.(credits := e.value))
  {
    hide Window.Insert;
  }

  lemma {:induction false} CancelledStep(lim: Limits, s: State, op: Op, c: u32, entry: Option<u32>)
    requires Inv(lim, s) && c != 0 && Cancelled(s, c, entry) && KeepsTombstone(lim, s, op, c)
    ensures Cancelled(s.Step(lim, op).0, c, Regrant(entry, op, c))
  {
    hide State.Step, Inv, Regrant;
    EntryStep(lim, s, op, c, entry);
    if Cancels(op, c) {
      CancelledStarts(lim, s, op, c);
    } else {
      OthersInsert(lim, s, op, c);
    }
  }

  lemma {:induction false} CancelledRun(lim: Limits, s: State, ops: seq<Op>, i: nat, j: nat, c: u32)
    requires Inv(lim, s) && i < j <= |ops| && c != 0 && Cancels(ops[i], c)
    requires forall k :: i < k < j ==> KeepsTombstone(lim, At(lim, s, ops, k), ops[k], c)
    ensures Cancelled(At(lim, s, ops, j), c, Regranted(ops, i + 1, j, c))
    decreases j
  {
    hide State.Step, Inv, Cancelled, Regrant, KeepsTombstone, Cancels;
    RunInv(lim, s, ops, j - 1);
    if i + 1 == j {
      CancelledStarts(lim, At(lim, s, ops, i), ops[i], c);
    } else {
      CancelledRun(lim, s, ops, i, j - 1, c);
      CancelledStep(lim, At(lim, s, ops, j - 1), ops[j - 1], c, Regranted(ops, i + 1, j - 1, c));
    }
  }

  /**
   * What is reported after a cancel, until the tombstone is evicted: the channel is
   * cancelled, closed and without credits exactly while no late grant has re-created its
   * entry; then it is open with the default credits and the late grants.
   */
  lemma {:induction false} ReportedUntilEviction(lim: Limits, s: State, ops: seq<Op>, i: nat, j: nat, c: u32)
    requires Inv(lim, s) && i < j <= |ops| && c != 0 && Cancels(ops[i], c)
    requires forall k :: i < k < j ==> KeepsTombstone(lim, At(lim, s, ops, k), ops[k], c)
    ensures var (t, late) := (At(lim, s, ops, j), Regranted(ops, i + 1, j, c));
            && (t.IsCancelled(c) <==> late.None?)
            && t.GetLifecycle(c) == (if late.None? then Closed else Open)
            && t.GetCredits(c) == (if late.None? then 0 else late.value)
  {
    hide State.Step, Inv, Regrant, KeepsTombstone, At, Regranted;
    CancelledRun(lim, s, ops, i, j, c);
  }

  /** Nothing is left of a cancellation of `c`. */
  ghost predicate Forgotten(s: State, c: u32) {
    c in s.tombs.info ==> !s.tombs.info[c].cancelled
  }

  lemma {:induction false} ForgottenStep(lim: Limits, s: State, op: Op, c: u32)
    requires Inv(lim, s) && c != 0 && !Cancels(op, c) && Forgotten(s, c)
    ensures Forgotten(s.Step(lim, op).0, c)
  {
    hide State.Step, Window.Insert;
    var inserted, d, i := StepWindow(lim, s, op);
    InsertEffect(s.tombs, lim.maxTombstones, d, i);
  }

  lemma {:induction false} EvictionForgets(lim: Limits, s: State, op: Op, c: u32)
    requires !KeepsTombstone(lim, s, op, c)
    ensures Forgotten(s.Step(lim, op).0, c)
  {
    hide State.Step;
  }

  lemma {:induction false} ForgottenRun(lim: Limits, s: State, ops: seq<Op>, k: nat, j: nat, c: u32)
    requires Inv(lim, s) && k < j <= |ops| && c != 0
    requires !KeepsTombstone(lim, At(lim, s, ops, k), ops[k], c)
    requires forall l :: k < l < j ==> !Cancels(ops[l], c)
    ensures Forgotten(At(lim, s, ops, j), c)
    decreases j
  {
    hide State.Step, Inv, Forgotten, KeepsTombstone, Cancels;
    RunInv(lim, s, ops, j - 1);
    if k + 1 == j {
      EvictionForgets(lim, At(lim, s, ops, k), ops[k], c);
    } else {
      ForgottenRun(lim, s, ops, k, j - 1, c);
      ForgottenStep(lim, At(lim, s, ops, j - 1), ops[j - 1], c);
    }
  }

  lemma {:induction false} ForgottenReported(lim: Limits, s: State, c: u32)
    requires Inv(lim, s) && Forgotten(s, c)
    ensures !s.IsCancelled(c)
  {
    hide Window.Valid;
  }

  /**
   * How long a cancellation is reported: counting from the last cancel of `c`, exactly as
   * long as its tombstone was never evicted and no late grant has re-created its entry.
   */
  lemma {:induction false} CancellationReported(lim: Limits, s: State, ops: seq<Op>, i: nat, j: nat, c: u32)
    requires Inv(lim, s) && i < j <= |ops| && c != 0 && Cancels(ops[i], c)
    requires forall k :: i < k < j ==> !Cancels(ops[k], c)
    ensures At(lim, s, ops, j).IsCancelled(c) <==>
            && (forall k :: i < k < j ==> KeepsTombstone(lim, At(lim, s, ops, k), ops[k], c))
            && Regranted(ops, i + 1, j, c).None?
  {
    hide State.Step, Inv, Regrant, KeepsTombstone, At, Regranted, Forgotten, Cancels, State.IsCancelled;
    if k :| i < k < j && !KeepsTombstone(lim, At(lim, s, ops, k), ops[k], c) {
      ForgottenRun(lim, s, ops, k, j, c);
      RunInv(lim, s, ops, j);
      ForgottenReported(lim, At(lim, s, ops, j), c);
    } else {
      ReportedUntilEviction(lim, s, ops, i, j, c);
    }
  }

  // ----------------------------------------------------------------------- credits

  /** Bytes accepted and granted on a channel, and DATA frames sent and received, since its entry was created. */
  datatype Ledger = Ledger(accepted: nat, granted: nat, saturated: bool, sent: nat, received: nat)

  const BLANK := Ledger(0, 0, false, 0, 0)

  function GrantFor(op: Op, c: u32): nat {
    if GrantOn(op, c).Some? then GrantOn(op, c).value else 0
  }

  /** The operation moves a DATA frame of `c` out, or in. */
  predicate SendsData(lim: Limits, s: State, op: Op, c: u32) {
    op.Send? && c != 0 && op.frame.channel == c && op.frame.flags.data && s.Step(lim, op).1.Sent?
  }

  predicate DeliversData(lim: Limits, s: State, op: Op, c: u32) {
    op.Recv? && c != 0 && op.frame.channel == c && op.frame.flags.data && s.Step(lim, op).1.Delivered?
  }

  /** The books of `c` after one operation; they close when its entry goes away. */
  function Book(lim: Limits, s: State, l: Ledger, op: Op, c: u32): Ledger {
    var opening := if c in s.channels then l else BLANK;
    var grant := GrantFor(op, c);
    if c !in s.Step(lim, op).0.channels then BLANK
    else Ledger(opening.accepted + (if SendsData(lim, s, op, c) then op.frame.payloadLen else 0),
                opening.granted + grant,
                opening.saturated || Entry(s.channels, c).credits + grant > U32_MAX,
                opening.sent + (if SendsData(lim, s, op, c) then 1 else 0),
                opening.received + (if DeliversData(lim, s, op, c) then 1 else 0))
  }

  function LedgerAt(lim: Limits, s: State, ops: seq<Op>, i: nat, c: u32): Ledger
    requires i <= |ops|
  {
    if i == 0 then BLANK else Book(lim, At(lim, s, ops, i - 1), LedgerAt(lim, s, ops, i - 1, c), ops[i - 1], c)
  }

  ghost predicate Balanced(s: State, l: Ledger, c: u32) {
    c in s.channels ==>
      && s.channels[c].credits + l.accepted <= DEFAULT_INITIAL_CREDITS + l.granted
      && (!l.saturated ==> s.channels[c].credits + l.accepted == DEFAULT_INITIAL_CREDITS + l.granted)
  }

  lemma {:induction false} BalancedStep(lim: Limits, s: State, l: Ledger, op: Op, c: u32)
    requires Balanced(s, l, c)
    ensures Balanced(s.Step(lim, op).0, Book(lim, s, l, op, c), c)
  {
    hide Window.Insert;
  }

  /**
   * Credit conservation: along every run, what is left plus what was accepted never
   * exceeds the initial allowance plus what was granted, with equality unless a grant
   * saturated.
   */
  lemma {:induction false} CreditsConserved(lim: Limits, ops: seq<Op>, i: nat, c: u32)
    requires i <= |ops|
    ensures Balanced(At(lim, EMPTY, ops, i), LedgerAt(lim, EMPTY, ops, i, c), c)
  {
    if i > 0 {
      hide State.Step, Book, Balanced;
      CreditsConserved(lim, ops, i - 1, c);
      BalancedStep(lim, At(lim, EMPTY, ops, i - 1), LedgerAt(lim, EMPTY, ops, i - 1, c), ops[i - 1], c);
    }
  }

  /** The entry counts the DATA frames moved since it was created. */
  ghost predicate Counted(s: State, l: Ledger, c: u32) {
    c in s.channels ==> s.channels[c].framesSent == l.sent && s.channels[c].framesReceived == l.received
  }

  lemma {:induction false} CountedStep(lim: Limits, s: State, l: Ledger, op: Op, c: u32)
    requires c != 0 && Counted(s, l, c)
    ensures Counted(s.Step(lim, op).0, Book(lim, s, l, op, c), c)
  {
    hide Window.Insert;
  }

  /** The frame counters are exact: the DATA frames sent, and received, since the entry was created. */
  lemma {:induction false} FramesCounted(lim: Limits, ops: seq<Op>, i: nat, c: u32)
    requires i <= |ops| && c != 0
    ensures Counted(At(lim, EMPTY, ops, i), LedgerAt(lim, EMPTY, ops, i, c), c)
  {
    if i > 0 {
      hide State.Step, Book, Counted;
      FramesCounted(lim, ops, i - 1, c);
      CountedStep(lim, At(lim, EMPTY, ops, i - 1), LedgerAt(lim, EMPTY, ops, i - 1, c), ops[i - 1], c);
    }
  }

  /**
   * A send that is dropped or refused changes no reported credits, with one exception:
   * on a tombstoned channel it forfeits what a late grant had given.
   */
  lemma {:induction false} RefusedSendsCost(lim: Limits, s: State, f: Frame, c: u32)
    requires s.Step(lim, Send(f)).1 != Sent
    ensures s.Step(lim, Send(f)).0.GetCredits(c) != s.GetCredits(c) <==>
            c == f.channel && c in s.tombs.info && c in s.channels && s.channels[c].credits != 0
  {
    hide Window.Insert;
  }

  /** The exception does occur. */
  lemma {:induction false} LateGrantIsForfeited(lim: Limits, f: Frame)
    requires f.channel == 1 && f.flags.data
    ensures var ops := [Cancel(1), Grant(1, 5), Send(f)];
            && At(lim, EMPTY, ops, 2).GetCredits(1) == DEFAULT_INITIAL_CREDITS + 5
            && OutcomeAt(lim, EMPTY, ops, 2) == SendDropped
            && At(lim, EMPTY, ops, 3).GetCredits(1) == 0
  {
    var ops := [Cancel(1), Grant(1, 5), Send(f)];
    hide State.Step;
    KeepsWhileAlone(lim, At(lim, EMPTY, ops, 1), ops[1]);
    KeepsWhileAlone(lim, At(lim, EMPTY, ops, 2), ops[2]);
    EmptyInv(lim);
    CancelledRun(lim, EMPTY, ops, 0, 2, 1);
    CancelledRun(lim, EMPTY, ops, 0, 3, 1);
    TombstoneSilences(lim, At(lim, EMPTY, ops, 2), ops[2], 1);
  }

  lemma {:induction false} KeepsWhileAlone(lim: Limits, s: State, op: Op)
    requires op.Grant? || (op.Send? && op.frame.channel == 1)
    ensures KeepsTombstone(lim, s, op, 1)
  {
    hide Window.Insert;
  }

  /** An untouched data channel takes a first payload of up to 64 KiB and no more. */
  lemma {:induction false} FirstPayload(lim: Limits, f: Frame)
    requires f.channel != 0 && f.flags.data
    ensures EMPTY.Step(lim, Send(f)).1 == if f.payloadLen <= 0x1_0000 then Sent else NoCredits(f.payloadLen, 0x1_0000)
  {
  }

  lemma {:induction false} ZeroCreditsStep(lim: Limits, s: State, op: Op)
    requires 0 in s.channels ==> s.channels[0].credits >= DEFAULT_INITIAL_CREDITS
    ensures 0 in s.Step(lim, op).0.channels ==> s.Step(lim, op).0.channels[0].credits >= DEFAULT_INITIAL_CREDITS
  {
    hide Window.Insert;
  }

  lemma {:induction false} ZeroCreditsRun(lim: Limits, ops: seq<Op>, i: nat)
    requires i <= |ops|
    ensures var s := At(lim, EMPTY, ops, i); 0 in s.channels ==> s.channels[0].credits >= DEFAULT_INITIAL_CREDITS
  {
    if i > 0 {
      hide State.Step;
      ZeroCreditsRun(lim, ops, i - 1);
      ZeroCreditsStep(lim, At(lim, EMPTY, ops, i - 1), ops[i - 1]);
    }
  }

  /** The control channel always reports at least its initial allowance, even when it has a tombstone. */
  lemma {:induction false} ControlAllowance(lim: Limits, ops: seq<Op>, i: nat)
    requires i <= |ops|
    ensures At(lim, EMPTY, ops, i).GetCredits(0) >= DEFAULT_INITIAL_CREDITS
  {
    hide At;
    ZeroCreditsRun(lim, ops, i);
  }

  // ------------------------------------------------------------------ tracked channels

  /** Credit grants are the one operation that tracks a channel without asking for room. */
  function Grants(ops: seq<Op>, n: nat): nat
    requires n <= |ops|
  {
    if n == 0 then 0 else Grants(ops, n - 1) + if IsGrant(ops[n - 1]) then 1 else 0
  }

  predicate IsGrant(op: Op) {
    op.Grant? || (op.Recv? && op.frame.channel == 0 && op.frame.flags.control && op.frame.control.GrantCredits?)
  }

  lemma {:induction false} NewlyTracked(lim: Limits, s: State, op: Op, c: u32)
    requires c in s.Step(lim, op).0.channels && c !in s.channels
    ensures c == Chan(op) && (IsGrant(op) || |s.channels| < lim.maxTracked)
  {
    hide Window.Insert;
  }

  lemma {:induction false} TrackedStep(lim: Limits, s: State, op: Op, n: nat)
    requires |s.channels| <= lim.maxTracked + n
    ensures |s.Step(lim, op).0.channels| <= lim.maxTracked + n + (if IsGrant(op) then 1 else 0)
  {
    hide State.Step, IsGrant, Chan;
    var before, after := s.channels.Keys, s.Step(lim, op).0.channels.Keys;
    forall c | c in after && c !in before ensures c == Chan(op) && (IsGrant(op) || |s.channels| < lim.maxTracked) {
      NewlyTracked(lim, s, op, c);
    }
    if after <= before {
      SubsetCardinality(after, before);
    } else {
      SubsetCardinality(after, before + {Chan(op)});
      assert exists c :: c in after && c !in before;
    }
  }

  /** No more channels are tracked than the limit allows, but for those that grants brought in. */
  lemma {:induction false} TrackedIsBounded(lim: Limits, ops: seq<Op>, n: nat)
    requires n <= |ops|
    ensures |At(lim, EMPTY, ops, n).channels| <= lim.maxTracked + Grants(ops, n)
  {
    hide State.Step, IsGrant;
    if n > 0 {
      TrackedIsBounded(lim, ops, n - 1);
      TrackedStep(lim, At(lim, EMPTY, ops, n - 1), ops[n - 1], Grants(ops, n - 1));
    }
  }

  // ---------------------------------------------------- what the unpruned session keeps

  /** What happened to a channel since the session began. */
  datatype Story = Story(localEos: bool, remoteEos: bool, cancelled: bool, money: Ledger)

  const NOTHING_YET := Story(false, false, false, BLANK)

  predicate Leaves(m: Channels, op: Op, c: u32) {
    op.Send? && c != 0 && op.frame.channel == c && op.frame.flags.data && Unpruned.Step(m, op).1.Sent?
  }

  predicate Enters(m: Channels, op: Op, c: u32) {
    op.Recv? && c != 0 && op.frame.channel == c && Unpruned.Step(m, op).1.Delivered?
  }

  function Retell(m: Channels, t: Story, op: Op, c: u32): Story {
    var grant, leaves, enters := GrantFor(op, c), Leaves(m, op, c), Enters(m, op, c);
    Story(t.localEos || (leaves && op.frame.flags.eos),
          t.remoteEos || (enters && op.frame.flags.eos),
          t.cancelled || Cancels(op, c),
          Ledger(t.money.accepted + (if leaves then op.frame.payloadLen else 0),
                 t.money.granted + grant,
                 t.money.saturated || Entry(m, c).credits + grant > U32_MAX,
                 t.money.sent + (if leaves then 1 else 0),
                 t.money.received + (if enters then 1 else 0)))
  }

  function StoryAt(ops: seq<Op>, i: nat, c: u32): Story
    requires i <= |ops|
  {
    if i == 0 then NOTHING_YET
    else Retell(Unpruned.At(map[], ops, i - 1), StoryAt(ops, i - 1, c), ops[i - 1], c)
  }

  ghost predicate RecordsStatus(st: ChannelState, t: Story) {
    && st.cancelled == t.cancelled
    && (st.lifecycle.Open? <==> !t.localEos && !t.remoteEos)
    && (st.lifecycle.HalfClosedLocal? <==> t.localEos && !t.remoteEos)
    && (st.lifecycle.HalfClosedRemote? <==> !t.localEos && t.remoteEos)
  }

  ghost predicate RecordsMoney(st: ChannelState, l: Ledger) {
    && st.framesSent == l.sent && st.framesReceived == l.received
    && st.credits + l.accepted <= DEFAULT_INITIAL_CREDITS + l.granted
    && (!l.saturated ==> st.credits + l.accepted == DEFAULT_INITIAL_CREDITS + l.granted)
  }

  /** The entry records exactly this story. */
  ghost predicate Records(st: ChannelState, t: Story) {
    RecordsStatus(st, t) && RecordsMoney(st, t.money)
  }

  lemma {:induction false} StatusStep(m: Channels, t: Story, op: Op, c: u32)
    requires RecordsStatus(Entry(m, c), t)
    ensures RecordsStatus(Entry(Unpruned.Step(m, op).0, c), Retell(m, t, op, c))
  {
  }

  lemma {:induction false} MoneyStep(m: Channels, t: Story, op: Op, c: u32)
    requires RecordsMoney(Entry(m, c), t.money)
    ensures RecordsMoney(Entry(Unpruned.Step(m, op).0, c), Retell(m, t, op, c).money)
  {
  }

  /**
   * The unpruned session forgets nothing: at every moment a channel's entry records the
   * EOS that crossed in either direction, whether it was cancelled, the frames moved, and
   * the credits that allowance, grants and accepted bytes leave.
   */
  lemma {:induction false} EntryRecordsStory(ops: seq<Op>, i: nat, c: u32)
    requires i <= |ops|
    ensures Records(Entry(Unpruned.At(map[], ops, i), c), StoryAt(ops, i, c))
  {
    hide Unpruned.Step, Retell, RecordsStatus, RecordsMoney, Entry;
    if i > 0 {
      var m, t := Unpruned.At(map[], ops, i - 1), StoryAt(ops, i - 1, c);
      EntryRecordsStory(ops, i - 1, c);
      StatusStep(m, t, ops[i - 1], c);
      MoneyStep(m, t, ops[i - 1], c);
    } else {
      NothingRecorded(c);
    }
  }

  lemma {:induction false} NothingRecorded(c: u32)
    ensures Records(Entry(map[], c), NOTHING_YET)
  {
  }

  /** And the story decides what the channel does next. */
  lemma {:induction false} StoryDecides(ops: seq<Op>, i: nat)
    requires i < |ops| && Chan(ops[i]) != 0
    ensures var c, t := Chan(ops[i]), StoryAt(ops, i, Chan(ops[i]));
            && (Leaves(Unpruned.At(map[], ops, i), ops[i], c) <==>
                && ops[i].Send? && ops[i].frame.flags.data && !t.cancelled && !t.localEos
                && ops[i].frame.payloadLen <= Entry(Unpruned.At(map[], ops, i), c).credits)
            && (Enters(Unpruned.At(map[], ops, i), ops[i], c) <==>
                ops[i].Recv? && ops[i].frame.channel != 0 && !t.cancelled && !t.remoteEos)
  {
    hide Unpruned.At, StoryAt;
    EntryRecordsStory(ops, i, Chan(ops[i]));
  }
}
