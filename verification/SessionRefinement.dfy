/**
 * The pruning session makes the decisions of the unpruned one exactly as long as no frame
 * is turned away for tracking too many channels, none reaches a channel whose tombstone
 * was evicted, and none is dropped on channel 0. While the terminated channels fit the
 * window, no tombstone is evicted.
 */
module SessionRefinement {
  import opened Base
  import opened FlowControl
  import Unpruned = UnprunedSession

  /** The channel an operation is about; control frames of the peer name theirs. */
  function Chan(op: Op): u32 {
    match op
    case Send(f) => f.channel
    case Recv(f) =>
      if f.channel != 0 || !f.flags.control then f.channel
      else (match f.control
            case CancelChannel(c) => c
            case GrantCredits(c, _) => c
            case Other => 0)
    case Grant(c, _) => c
    case Cancel(c) => c
  }

  /** Anything but receiving on channel 0 what is no control frame, which the unpruned session does not track. */
  predicate Plain(op: Op) {
    !(op.Recv? && op.frame.channel == 0 && !op.frame.flags.control)
  }

  /** The operation moves a frame on a data channel that both sessions track. */
  predicate Moves(op: Op) {
    match op
    case Send(f) => f.channel != 0 && f.flags.data
    case Recv(f) => f.channel != 0
    case _ => false
  }

  /** Equal but for the count of received frames: only the unpruned session counts those without DATA. */
  predicate Same(a: ChannelState, b: ChannelState) {
    a.lifecycle == b.lifecycle && a.credits == b.credits && a.cancelled == b.cancelled && a.framesSent == b.framesSent
  }

  /** The operation cancels `c`, for the application or for the peer. */
  predicate Cancels(op: Op, c: u32) {
    match op
    case Cancel(d) => d == c
    case Recv(f) => f.channel == 0 && f.flags.control && f.control == CancelChannel(c)
    case _ => false
  }

  /** Both sessions know the same about channel `c`: a tombstone stands for a terminal state. */
  ghost predicate Agree(s: State, m: Channels, c: u32) {
    if c in s.tombs.info then
      c in m && m[c].Terminal() && s.tombs.info[c] == TombstoneInfo(Closed, m[c].cancelled)
    else if c in s.channels then
      c in m && Same(m[c], s.channels[c])
    else
      c !in m
  }

  /** The step from `s` on does not evict the tombstone of `c`. */
  predicate KeepsTombstone(lim: Limits, s: State, op: Op, c: u32) {
    c in s.tombs.info ==> c in s.Step(lim, op).0.tombs.info
  }

  /** A frame that is no control frame does not get through on channel 0: its table entry, or want of one, stops it. */
  predicate ZeroDrops(lim: Limits, s: State) {
    s.Refuses(lim, 0) || !Entry(s.channels, 0).CanReceive()
  }

  /** The frame is turned away because too many channels are tracked. */
  predicate TurnsAway(lim: Limits, s: State, op: Op) {
    Moves(op) && Chan(op) !in s.tombs.info && s.Refuses(lim, Chan(op))
  }

  lemma {:induction false} InsertEffect(w: Window, max: nat, c: u32, i: TombstoneInfo)
    requires w.Valid(max) && max > 0
    ensures var w' := w.Insert(max, c, i);
            && c in w'.info && w'.info[c] == i
            && (forall d :: d != c && d in w'.info ==> d in w.info && w'.info[d] == w.info[d])
            && (c in w.info || |w.order| < max ==> w'.info == w.info[c := i])
  {
  }

  /** The window after a step: as before, or with one tombstone put in. */
  ghost predicate Inserts(lim: Limits, w: Window, w': Window, inserted: bool, d: u32, i: TombstoneInfo) {
    w' == if inserted then w.Insert(lim.maxTombstones, d, i) else w
  }

  lemma {:induction false} SendWindow(lim: Limits, s: State, f: Frame) returns (inserted: bool, i: TombstoneInfo)
    ensures Inserts(lim, s.tombs, s.SendStep(lim, f).0.tombs, inserted, f.channel, i)
    ensures inserted ==> f.channel != 0 && f.channel !in s.tombs.info && !i.cancelled
  {
    hide Window.Insert;
    inserted, i := s.SendStep(lim, f).0.tombs != s.tombs, TombstoneInfo(Closed, false);
  }

  lemma {:induction false} RecvWindow(lim: Limits, s: State, f: Frame) returns (inserted: bool, i: TombstoneInfo)
    requires f.channel != 0 || !f.flags.control
    ensures Inserts(lim, s.tombs, s.RecvStep(lim, f).0.tombs, inserted, f.channel, i)
    ensures !i.cancelled && (inserted && f.channel != 0 ==> f.channel !in s.tombs.info)
  {
    hide Window.Insert, State.CancelStep, State.GrantStep;
    inserted, i := s.RecvStep(lim, f).0.tombs != s.tombs, TombstoneInfo(Closed, false);
  }

  lemma {:induction false} CancelWindow(lim: Limits, s: State, c: u32) returns (inserted: bool, i: TombstoneInfo)
    ensures Inserts(lim, s.tombs, s.CancelStep(lim, c).tombs, inserted, c, i)
    ensures inserted ==> c != 0
  {
    hide Window.Insert;
    inserted, i := c != 0, TombstoneInfo(Closed, true);
  }

  lemma {:induction false} GrantWindow(s: State, c: u32, bytes: u32)
    ensures s.GrantStep(c, bytes).tombs == s.tombs
  {
  }

  /** A step changes the window by at most one insertion. */
  lemma {:induction false} StepWindow(lim: Limits, s: State, op: Op) returns (inserted: bool, d: u32, i: TombstoneInfo)
    ensures s.Step(lim, op).0.tombs == if inserted then s.tombs.Insert(lim.maxTombstones, d, i) else s.tombs
    ensures d == Chan(op)
    ensures inserted && Plain(op) ==> d != 0
    ensures inserted && d != 0 && !Cancels(op, d) ==> d !in s.tombs.info && !i.cancelled
  {
    hide Window.Insert, State.SendStep, State.RecvStep, State.CancelStep, State.GrantStep;
    d, inserted, i := Chan(op), false, TombstoneInfo(Closed, false);
    match op
    case Send(f) => inserted, i := SendWindow(lim, s, f);
    case Recv(f) =>
      if f.channel == 0 && f.flags.control {
        PeerControls(lim, s, f);
        match f.control
        case CancelChannel(c) => inserted, i := CancelWindow(lim, s, c);
        case GrantCredits(c, bytes) => GrantWindow(s, c, bytes);
        case Other =>
      } else {
        inserted, i := RecvWindow(lim, s, f);
      }
    case Grant(c, bytes) => GrantWindow(s, c, bytes);
    case Cancel(c) => inserted, i := CancelWindow(lim, s, c);
  }

  /** A step on one channel leaves the tracked state of the others alone. */
  lemma {:induction false} StepElsewhere(lim: Limits, s: State, op: Op, c: u32)
    requires c != Chan(op)
    ensures var s' := s.Step(lim, op).0;
            && (c in s'.channels <==> c in s.channels)
            && (c in s.channels ==> s'.channels[c] == s.channels[c])
  {
    hide Window.Insert;
  }

  lemma {:induction false} StepAgreesElsewhere(lim: Limits, s: State, m: Channels, op: Op, c: u32)
    requires Inv(lim, s) && c != Chan(op) && Agree(s, m, c)
    requires KeepsTombstone(lim, s, op, c)
    ensures Agree(s.Step(lim, op).0, Unpruned.Step(m, op).0, c)
  {
    hide Window.Insert, State.Step, Unpruned.Step;
    StepElsewhere(lim, s, op, c);
    ModelElsewhere(m, op, c);
    var inserted, d, i := StepWindow(lim, s, op);
    InsertEffect(s.tombs, lim.maxTombstones, d, i);
  }

  lemma {:induction false} ModelElsewhere(m: Channels, op: Op, c: u32)
    requires c != Chan(op)
    ensures var m' := Unpruned.Step(m, op).0; (c in m' <==> c in m) && (c in m ==> m'[c] == m[c])
  {
  }

  /** The step's own channel: same outcome, and agreement is kept, unless the frame is turned away. */
  lemma {:induction false} StepAgreesHere(lim: Limits, s: State, m: Channels, op: Op)
    requires Inv(lim, s) && Chan(op) != 0 && Agree(s, m, Chan(op)) && !TurnsAway(lim, s, op)
    ensures Agree(s.Step(lim, op).0, Unpruned.Step(m, op).0, Chan(op))
    ensures s.Step(lim, op).1 == Unpruned.Step(m, op).1
  {
    hide State.SendStep, State.RecvStep, State.GrantStep, State.CancelStep, Unpruned.SendIn, Unpruned.ReceiveIn,
      Unpruned.GrantTo, Unpruned.CancelIn, Inv, Agree, State.Refuses;
    match op
    case Send(f) => if f.flags.data { SendAgrees(lim, s, m, f); } else { PassesBy(lim, s, f); }
    case Recv(f) =>
      if f.channel != 0 {
        RecvAgrees(lim, s, m, f);
      } else {
        PeerControls(lim, s, f);
        match f.control
        case CancelChannel(c) => CancelAgrees(lim, s, m, c);
        case GrantCredits(c, bytes) => GrantAgrees(s, m, c, bytes);
        case Other =>
      }
    case Grant(c, bytes) => GrantAgrees(s, m, c, bytes);
    case Cancel(c) => CancelAgrees(lim, s, m, c);
  }

  /** A frame without DATA, or on channel 0, is sent whatever the state. */
  lemma {:induction false} PassesBy(lim: Limits, s: State, f: Frame)
    requires f.channel == 0 || !f.flags.data
    ensures s.SendStep(lim, f) == (s, Sent)
  {
  }

  /** A control frame is delivered, and has the effect of the call it stands for. */
  lemma {:induction false} PeerControls(lim: Limits, s: State, f: Frame)
    requires f.channel == 0 && f.flags.control
    ensures var (t, outcome) := s.RecvStep(lim, f);
            && outcome == Delivered
            && t == (match f.control
                     case CancelChannel(c) => s.CancelStep(lim, c)
                     case GrantCredits(c, bytes) => s.GrantStep(c, bytes)
                     case Other => s)
  {
  }

  /**
   * An operation on channel 0 has the same outcome in both sessions, unless the pruning
   * session's own bookkeeping for channel 0 drops the frame.
   */
  lemma {:induction false} ZeroStep(lim: Limits, s: State, m: Channels, op: Op)
    requires Chan(op) == 0
    ensures s.Step(lim, op).1 == Unpruned.Step(m, op).1 <==> Plain(op) || !ZeroDrops(lim, s)
  {
  }

  /** The entry after an accepted send, and after an accepted receive. */
  function AfterSend(st: ChannelState, f: Frame): ChannelState
    requires f.payloadLen <= st.credits
  {
    if f.flags.eos then st.Charge(f.payloadLen).MarkLocalEos() else st.Charge(f.payloadLen)
  }

  function AfterRecv(st: ChannelState, counts: bool, eos: bool): ChannelState {
    var counted := if counts then st.CountReceived() else st;
    if eos then counted.MarkRemoteEos() else counted
  }

  lemma {:induction false} SendAgrees(lim: Limits, s: State, m: Channels, f: Frame)
    requires Inv(lim, s) && f.channel != 0 && f.flags.data && Agree(s, m, f.channel)
    requires f.channel in s.tombs.info || !s.Refuses(lim, f.channel)
    ensures var (r, u) := (s.SendStep(lim, f), Unpruned.SendIn(m, f.channel, f.payloadLen, f.flags.eos));
            Agree(r.0, u.0, f.channel) && r.1 == u.1
  {
    hide State.Settle, Window.Valid, State.Refuses;
    if f.channel !in s.tombs.info {
      hide Agree;
      EntriesAgree(lim, s, m, f.channel);
      var st, u := Entry(s.channels, f.channel), Entry(m, f.channel);
      SettleAgrees(lim, s, m, f.channel, st, u);
      if f.payloadLen <= st.credits {
        SettleAgrees(lim, s, m, f.channel, AfterSend(st, f), AfterSend(u, f));
      }
    }
  }

  lemma {:induction false} RecvAgrees(lim: Limits, s: State, m: Channels, f: Frame)
    requires Inv(lim, s) && f.channel != 0 && Agree(s, m, f.channel)
    requires f.channel in s.tombs.info || !s.Refuses(lim, f.channel)
    ensures var (r, u) := (s.RecvStep(lim, f), Unpruned.ReceiveIn(m, f.channel, f.flags.eos));
            Agree(r.0, u.0, f.channel) && r.1 == u.1
  {
    hide State.Settle, Window.Valid, State.Refuses;
    if f.channel !in s.tombs.info {
      hide Agree;
      EntriesAgree(lim, s, m, f.channel);
      var st, u := Entry(s.channels, f.channel), Entry(m, f.channel);
      SettleAgrees(lim, s, m, f.channel, st, u);
      SettleAgrees(lim, s, m, f.channel, AfterRecv(st, f.flags.data, f.flags.eos), AfterRecv(u, true, f.flags.eos));
    }
  }

  lemma {:induction false} EntriesAgree(lim: Limits, s: State, m: Channels, c: u32)
    requires Inv(lim, s) && c !in s.tombs.info && Agree(s, m, c)
    ensures Same(Entry(m, c), Entry(s.channels, c)) && !Entry(m, c).Terminal()
  {
    hide Window.Valid;
  }

  /** Writing a channel back, or burying it once terminal, is writing it back without pruning. */
  lemma {:induction false} SettleAgrees(
      lim: Limits, s: State, m: Channels, c: u32, st: ChannelState, u: ChannelState)
    requires Inv(lim, s) && c !in s.tombs.info && Same(u, st)
    ensures Agree(s.Settle(lim, c, st), m[c := u], c)
    ensures !st.Terminal() ==> Agree(s.Put(c, st), m[c := u], c)
  {
    hide Window.Insert, Window.Valid;
    InsertEffect(s.tombs, lim.maxTombstones, c, TombstoneInfo(Closed, st.cancelled));
  }

  lemma {:induction false} GrantAgrees(s: State, m: Channels, c: u32, bytes: u32)
    requires Agree(s, m, c)
    ensures Agree(s.GrantStep(c, bytes), Unpruned.GrantTo(m, c, bytes), c)
  {
  }

  lemma {:induction false} CancelAgrees(lim: Limits, s: State, m: Channels, c: u32)
    requires Inv(lim, s) && c != 0 && Agree(s, m, c)
    ensures Agree(s.CancelStep(lim, c), Unpruned.CancelIn(m, c), c)
  {
    hide Window.Insert, Window.Valid;
    InsertEffect(s.tombs, lim.maxTombstones, c, TombstoneInfo(Closed, true));
  }

  /** A frame turned away is one the unpruned session accepts, or refuses for another reason. */
  lemma {:induction false} TurnedAwayDiffers(lim: Limits, s: State, m: Channels, op: Op)
    requires Agree(s, m, Chan(op)) && TurnsAway(lim, s, op)
    ensures s.Step(lim, op).1 == if op.Send? then TooManyChannels else RecvDropped
    ensures Unpruned.Step(m, op).1 != s.Step(lim, op).1
  {
    hide Window.Insert;
  }

  // ------------------------------------------------------------ one channel, whole run

  /** A run of operations that both sessions track. */
  ghost predicate PlainRun(ops: seq<Op>) {
    forall i :: 0 <= i < |ops| ==> Plain(ops[i])
  }

  /** None of the first `n` operations is turned away. */
  ghost predicate Admitted(lim: Limits, ops: seq<Op>, n: nat)
    requires n <= |ops|
  {
    forall i :: 0 <= i < n ==> !TurnsAway(lim, At(lim, EMPTY, ops, i), ops[i])
  }

  /**
   * Channel by channel: while the tombstone of `c` is not evicted and no frame on `c` is
   * turned away, both sessions agree on `c` and give the same outcome to every operation
   * on it, whatever happens to the other channels.
   */
  lemma {:induction false} ChannelRefines(lim: Limits, ops: seq<Op>, c: u32, n: nat)
    requires n <= |ops| && c != 0
    requires forall i :: 0 <= i < n ==> KeepsTombstone(lim, At(lim, EMPTY, ops, i), ops[i], c)
    requires forall i :: 0 <= i < n && Chan(ops[i]) == c ==> !TurnsAway(lim, At(lim, EMPTY, ops, i), ops[i])
    ensures Agree(At(lim, EMPTY, ops, n), Unpruned.At(map[], ops, n), c)
    ensures n < |ops| && Chan(ops[n]) == c ==>
              (OutcomeAt(lim, EMPTY, ops, n) == Unpruned.OutcomeAt(map[], ops, n)
               <==> !TurnsAway(lim, At(lim, EMPTY, ops, n), ops[n]))
  {
    hide State.Step, Unpruned.Step, Inv, KeepsTombstone, TurnsAway, Plain, Agree;
    ReachableInv(lim, ops, n);
    if n == 0 {
      AgreeAtStart(c);
    } else {
      var s, m, op := At(lim, EMPTY, ops, n - 1), Unpruned.At(map[], ops, n - 1), ops[n - 1];
      ChannelRefines(lim, ops, c, n - 1);
      ReachableInv(lim, ops, n - 1);
      if Chan(op) == c {
        StepAgreesHere(lim, s, m, op);
      } else {
        StepAgreesElsewhere(lim, s, m, op, c);
      }
    }
    if n < |ops| && Chan(ops[n]) == c {
      OutcomesCompared(lim, At(lim, EMPTY, ops, n), Unpruned.At(map[], ops, n), ops[n]);
    }
  }

  lemma {:induction false} ReachableInv(lim: Limits, ops: seq<Op>, n: nat)
    requires n <= |ops|
    ensures Inv(lim, At(lim, EMPTY, ops, n))
  {
    hide State.Step, Inv;
    EmptyInv(lim);
    RunInv(lim, EMPTY, ops, n);
  }

  lemma {:induction false} OutcomesCompared(lim: Limits, s: State, m: Channels, op: Op)
    requires Inv(lim, s) && Chan(op) != 0 && Agree(s, m, Chan(op))
    ensures s.Step(lim, op).1 == Unpruned.Step(m, op).1 <==> !TurnsAway(lim, s, op)
  {
    hide State.Step, Unpruned.Step, Inv, TurnsAway, Agree;
    if TurnsAway(lim, s, op) {
      TurnedAwayDiffers(lim, s, m, op);
    } else {
      StepAgreesHere(lim, s, m, op);
    }
  }

  lemma {:induction false} AgreeAtStart(c: u32)
    ensures Agree(EMPTY, map[], c)
  {
  }

  // ----------------------------------------------------- exactly the runs that agree

  /** The tombstone of a terminated channel was evicted. */
  ghost predicate Lost(s: State, m: Channels, c: u32) {
    c !in s.tombs.info && c in m && m[c].Terminal()
  }

  /**
   * The frame reaches a channel without tombstone, and either there is room for the
   * channel although its tombstone was lost, or there is none although it was not. A
   * received frame that is turned away on a lost channel is dropped either way. On channel
   * 0, which only the pruning session tracks, it is a frame that this tracking drops.
   */
  ghost predicate Differs(lim: Limits, s: State, m: Channels, op: Op) {
    var c := Chan(op);
    if Plain(op) then
      && Moves(op) && c !in s.tombs.info
      && if s.Refuses(lim, c) then op.Send? || !Lost(s, m, c) else Lost(s, m, c)
    else ZeroDrops(lim, s)
  }

  /**
   * What ties the sessions together on `c` even after evictions: a terminated channel is
   * tracked again only by an entry that late grants created.
   */
  ghost predicate Tied(s: State, m: Channels, c: u32) {
    if c in s.tombs.info || (c in m && m[c].Terminal()) then
      && c in m && m[c].Terminal()
      && (c in s.channels ==> s.channels[c].lifecycle.Open? && !s.channels[c].cancelled)
    else if c in s.channels then
      c in m && Same(m[c], s.channels[c])
    else
      c !in m
  }

  lemma {:induction false} TiedAtStart(c: u32)
    ensures Tied(EMPTY, map[], c)
  {
  }

  /** A step on another channel keeps the tie, even if it evicts the tombstone. */
  lemma {:induction false} TiedElsewhere(lim: Limits, s: State, m: Channels, op: Op, c: u32)
    requires Inv(lim, s) && c != Chan(op) && Tied(s, m, c)
    ensures Tied(s.Step(lim, op).0, Unpruned.Step(m, op).0, c)
  {
    hide Window.Insert, Window.Valid, State.Step, Unpruned.Step;
    StepElsewhere(lim, s, op, c);
    ModelElsewhere(m, op, c);
    var inserted, d, i := StepWindow(lim, s, op);
    InsertEffect(s.tombs, lim.maxTombstones, d, i);
    hide Inv;
  }

  /** A step on its own channel keeps the tie, and has the same outcome in both sessions, unless they differ. */
  lemma {:induction false} TiedHere(lim: Limits, s: State, m: Channels, op: Op)
    requires Inv(lim, s) && Chan(op) != 0 && Tied(s, m, Chan(op))
    ensures s.Step(lim, op).1 == Unpruned.Step(m, op).1 <==> !Differs(lim, s, m, op)
    ensures !Differs(lim, s, m, op) ==> Tied(s.Step(lim, op).0, Unpruned.Step(m, op).0, Chan(op))
  {
    hide State.SendStep, State.RecvStep, State.GrantStep, State.CancelStep, Unpruned.SendIn, Unpruned.ReceiveIn,
      Unpruned.GrantTo, Unpruned.CancelIn, Inv, Tied, Lost, State.Refuses;
    match op
    case Send(f) => if f.flags.data { TiedSend(lim, s, m, f); } else { PassesBy(lim, s, f); }
    case Recv(f) =>
      if f.channel != 0 {
        TiedRecv(lim, s, m, f);
      } else {
        PeerControls(lim, s, f);
        match f.control
        case CancelChannel(c) => TiedCancel(lim, s, m, c);
        case GrantCredits(c, bytes) => TiedGrant(s, m, c, bytes);
        case Other =>
      }
    case Grant(c, bytes) => TiedGrant(s, m, c, bytes);
    case Cancel(c) => TiedCancel(lim, s, m, c);
  }

  lemma {:induction false} TiedSend(lim: Limits, s: State, m: Channels, f: Frame)
    requires Inv(lim, s) && f.channel != 0 && f.flags.data && Tied(s, m, f.channel)
    ensures var (r, u) := (s.SendStep(lim, f), Unpruned.SendIn(m, f.channel, f.payloadLen, f.flags.eos));
            && (r.1 == u.1 <==> !Differs(lim, s, m, Send(f)))
            && (!Differs(lim, s, m, Send(f)) ==> Tied(r.0, u.0, f.channel))
  {
    hide Inv, Tied, Lost, State.Refuses, State.SendStep, Unpruned.SendIn;
    if f.channel in s.tombs.info || s.Refuses(lim, f.channel) || Lost(s, m, f.channel) {
      UntrackedSend(lim, s, m, f);
    } else {
      UnlostSend(lim, s, m, f);
    }
  }

  lemma {:induction false} UntrackedSend(lim: Limits, s: State, m: Channels, f: Frame)
    requires f.channel != 0 && f.flags.data && Tied(s, m, f.channel)
    requires f.channel in s.tombs.info || s.Refuses(lim, f.channel) || Lost(s, m, f.channel)
    ensures var (r, u) := (s.SendStep(lim, f), Unpruned.SendIn(m, f.channel, f.payloadLen, f.flags.eos));
            && (r.1 == u.1 <==> f.channel in s.tombs.info)
            && (f.channel in s.tombs.info ==> Tied(r.0, u.0, f.channel))
  {
    hide Window.Insert;
  }

  lemma {:induction false} UnlostSend(lim: Limits, s: State, m: Channels, f: Frame)
    requires Inv(lim, s) && f.channel != 0 && f.flags.data && f.channel !in s.tombs.info
    requires !s.Refuses(lim, f.channel) && !Lost(s, m, f.channel) && Tied(s, m, f.channel)
    ensures var (r, u) := (s.SendStep(lim, f), Unpruned.SendIn(m, f.channel, f.payloadLen, f.flags.eos));
            r.1 == u.1 && Tied(r.0, u.0, f.channel)
  {
    hide Inv, Tied, Lost, State.Refuses, State.Settle;
    UnlostEntries(lim, s, m, f.channel);
    var st, u := Entry(s.channels, f.channel), Entry(m, f.channel);
    SettleTies(lim, s, m, f.channel, st, u);
    if f.payloadLen <= st.credits {
      SettleTies(lim, s, m, f.channel, AfterSend(st, f), AfterSend(u, f));
    }
  }

  lemma {:induction false} TiedRecv(lim: Limits, s: State, m: Channels, f: Frame)
    requires Inv(lim, s) && f.channel != 0 && Tied(s, m, f.channel)
    ensures var (r, u) := (s.RecvStep(lim, f), Unpruned.ReceiveIn(m, f.channel, f.flags.eos));
            && (r.1 == u.1 <==> !Differs(lim, s, m, Recv(f)))
            && (!Differs(lim, s, m, Recv(f)) ==> Tied(r.0, u.0, f.channel))
  {
    hide Inv, Tied, Lost, State.Refuses, State.RecvStep, Unpruned.ReceiveIn;
    if f.channel in s.tombs.info {
      BuriedRecv(lim, s, m, f);
    } else if s.Refuses(lim, f.channel) {
      RefusedRecv(lim, s, m, f);
    } else if Lost(s, m, f.channel) {
      LostRecv(lim, s, m, f);
    } else {
      UnlostRecv(lim, s, m, f);
    }
  }

  lemma {:induction false} BuriedRecv(lim: Limits, s: State, m: Channels, f: Frame)
    requires f.channel != 0 && f.channel in s.tombs.info && Tied(s, m, f.channel)
    ensures var (r, u) := (s.RecvStep(lim, f), Unpruned.ReceiveIn(m, f.channel, f.flags.eos));
            r.1 == u.1 == RecvDropped && Tied(r.0, u.0, f.channel)
  {
  }

  lemma {:induction false} RefusedRecv(lim: Limits, s: State, m: Channels, f: Frame)
    requires Inv(lim, s) && f.channel != 0 && f.channel !in s.tombs.info && s.Refuses(lim, f.channel)
    requires Tied(s, m, f.channel)
    ensures var (r, u) := (s.RecvStep(lim, f), Unpruned.ReceiveIn(m, f.channel, f.flags.eos));
            && r.1 == RecvDropped && (u.1 == RecvDropped <==> Lost(s, m, f.channel))
            && (Lost(s, m, f.channel) ==> Tied(r.0, u.0, f.channel))
  {
    hide Window.Insert, Window.Valid;
    InsertEffect(s.tombs, lim.maxTombstones, f.channel, TombstoneInfo(Closed, false));
  }

  lemma {:induction false} LostRecv(lim: Limits, s: State, m: Channels, f: Frame)
    requires f.channel != 0 && Lost(s, m, f.channel) && !s.Refuses(lim, f.channel) && Tied(s, m, f.channel)
    ensures s.RecvStep(lim, f).1 == Delivered && Unpruned.ReceiveIn(m, f.channel, f.flags.eos).1 == RecvDropped
  {
    hide State.Refuses;
  }

  lemma {:induction false} UnlostRecv(lim: Limits, s: State, m: Channels, f: Frame)
    requires Inv(lim, s) && f.channel != 0 && f.channel !in s.tombs.info
    requires !s.Refuses(lim, f.channel) && !Lost(s, m, f.channel) && Tied(s, m, f.channel)
    ensures var (r, u) := (s.RecvStep(lim, f), Unpruned.ReceiveIn(m, f.channel, f.flags.eos));
            r.1 == u.1 && Tied(r.0, u.0, f.channel)
  {
    hide Inv, Tied, Lost, State.Refuses, State.Settle;
    UnlostEntries(lim, s, m, f.channel);
    var st, u := Entry(s.channels, f.channel), Entry(m, f.channel);
    SettleTies(lim, s, m, f.channel, st, u);
    SettleTies(lim, s, m, f.channel, AfterRecv(st, f.flags.data, f.flags.eos), AfterRecv(u, true, f.flags.eos));
  }

  lemma {:induction false} UnlostEntries(lim: Limits, s: State, m: Channels, c: u32)
    requires Inv(lim, s) && c !in s.tombs.info && Tied(s, m, c) && !Lost(s, m, c)
    ensures Same(Entry(m, c), Entry(s.channels, c)) && !Entry(m, c).Terminal()
  {
    hide Window.Valid;
  }

  lemma {:induction false} SettleTies(
      lim: Limits, s: State, m: Channels, c: u32, st: ChannelState, u: ChannelState)
    requires Inv(lim, s) && c !in s.tombs.info && Same(u, st)
    ensures Tied(s.Settle(lim, c, st), m[c := u], c)
    ensures !st.Terminal() ==> Tied(s.Put(c, st), m[c := u], c)
  {
    hide Window.Insert, Window.Valid;
    InsertEffect(s.tombs, lim.maxTombstones, c, TombstoneInfo(Closed, st.cancelled));
  }

  lemma {:induction false} TiedGrant(s: State, m: Channels, c: u32, bytes: u32)
    requires Tied(s, m, c)
    ensures Tied(s.GrantStep(c, bytes), Unpruned.GrantTo(m, c, bytes), c)
  {
  }

  lemma {:induction false} TiedCancel(lim: Limits, s: State, m: Channels, c: u32)
    requires Inv(lim, s) && c != 0 && Tied(s, m, c)
    ensures Tied(s.CancelStep(lim, c), Unpruned.CancelIn(m, c), c)
  {
    hide Window.Insert, Window.Valid;
    InsertEffect(s.tombs, lim.maxTombstones, c, TombstoneInfo(Closed, true));
  }

  /** A received frame turned away on a lost channel is dropped in both sessions, and buries the channel again. */
  lemma {:induction false} TurnedAwayBuriesAgain(lim: Limits, s: State, m: Channels, f: Frame)
    requires Inv(lim, s) && f.channel != 0 && Lost(s, m, f.channel) && s.Refuses(lim, f.channel)
    ensures s.Step(lim, Recv(f)).1 == Unpruned.Step(m, Recv(f)).1 == RecvDropped
    ensures f.channel in s.Step(lim, Recv(f)).0.tombs.info
  {
    hide Window.Insert, Window.Valid;
    InsertEffect(s.tombs, lim.maxTombstones, f.channel, TombstoneInfo(Closed, false));
  }

  /** Both sessions give the first `n` operations the same outcomes. */
  ghost predicate SameOutcomes(lim: Limits, ops: seq<Op>, n: nat)
    requires n <= |ops|
  {
    forall i :: 0 <= i < n ==> OutcomeAt(lim, EMPTY, ops, i) == Unpruned.OutcomeAt(map[], ops, i)
  }

  /** Operation `i` is one on which the sessions differ. */
  ghost predicate DiffersAt(lim: Limits, ops: seq<Op>, i: nat)
    requires i < |ops|
  {
    Differs(lim, At(lim, EMPTY, ops, i), Unpruned.At(map[], ops, i), ops[i])
  }

  ghost predicate NoneDiffers(lim: Limits, ops: seq<Op>, n: nat)
    requires n <= |ops|
  {
    forall i :: 0 <= i < n ==> !DiffersAt(lim, ops, i)
  }

  lemma {:induction false} TiedAt(lim: Limits, ops: seq<Op>, n: nat, c: u32)
    requires n <= |ops| && NoneDiffers(lim, ops, n) && c != 0
    ensures Tied(At(lim, EMPTY, ops, n), Unpruned.At(map[], ops, n), c)
  {
    hide State.Step, Unpruned.Step, Inv, Differs, Tied;
    if n == 0 {
      TiedAtStart(c);
    } else {
      var s, m, op := At(lim, EMPTY, ops, n - 1), Unpruned.At(map[], ops, n - 1), ops[n - 1];
      TiedAt(lim, ops, n - 1, c);
      ReachableInv(lim, ops, n - 1);
      assert !DiffersAt(lim, ops, n - 1);
      if c == Chan(op) {
        TiedHere(lim, s, m, op);
      } else {
        TiedElsewhere(lim, s, m, op, c);
      }
    }
  }

  /**
   * The refinement theorem. On every run, pruning is invisible (every send, drop, refusal
   * and delivery is the one of the session that never prunes) exactly as long as no
   * sent frame is turned away, no received frame is turned away on a channel that was not
   * lost, no frame finds room on a channel that was, and none is dropped on channel 0.
   */
  lemma {:induction false} PruningIsInvisibleIff(lim: Limits, ops: seq<Op>, n: nat)
    requires n <= |ops|
    ensures SameOutcomes(lim, ops, n) <==> NoneDiffers(lim, ops, n)
  {
    hide State.Step, Unpruned.Step, Inv, Differs, Tied, At, Unpruned.At;
    if n > 0 {
      PruningIsInvisibleIff(lim, ops, n - 1);
      assert SameOutcomes(lim, ops, n) <==>
             SameOutcomes(lim, ops, n - 1)
             && OutcomeAt(lim, EMPTY, ops, n - 1) == Unpruned.OutcomeAt(map[], ops, n - 1);
      assert NoneDiffers(lim, ops, n) <==> NoneDiffers(lim, ops, n - 1) && !DiffersAt(lim, ops, n - 1);
      var s, m, op := At(lim, EMPTY, ops, n - 1), Unpruned.At(map[], ops, n - 1), ops[n - 1];
      if Chan(op) == 0 {
        ZeroStep(lim, s, m, op);
        ZeroDiffers(lim, s, m, op);
      } else if NoneDiffers(lim, ops, n - 1) {
        TiedAt(lim, ops, n - 1, Chan(op));
        ReachableInv(lim, ops, n - 1);
        TiedHere(lim, s, m, op);
      }
    }
  }

  lemma {:induction false} ZeroDiffers(lim: Limits, s: State, m: Channels, op: Op)
    requires Chan(op) == 0
    ensures Differs(lim, s, m, op) <==> !Plain(op) && ZeroDrops(lim, s)
    ensures !TurnsAway(lim, s, op)
  {
    hide ZeroDrops;
  }

  /** An EOS on channel 0 outside a control frame does silence the channel for such frames. */
  lemma {:induction false} ZeroIsSilenced(lim: Limits, f: Frame)
    requires f.channel == 0 && !f.flags.control && f.flags.eos
    ensures OutcomeAt(lim, EMPTY, [Recv(f), Recv(f)], 1) == RecvDropped
    ensures Unpruned.OutcomeAt(map[], [Recv(f), Recv(f)], 1) == Delivered
  {
    assert At(lim, EMPTY, [Recv(f), Recv(f)], 1) == EMPTY.Step(lim, Recv(f)).0;
  }

  lemma {:induction false} PlainAt(ops: seq<Op>, i: nat)
    requires PlainRun(ops) && i < |ops|
    ensures Plain(ops[i])
  {
  }

  // ------------------------------------------------------------------ few channels

  /** Only channels in `ids` are tracked or tombstoned. */
  ghost predicate Within(s: State, ids: set<u32>) {
    s.channels.Keys <= ids && s.tombs.info.Keys <= ids
  }

  lemma {:induction false} StepWithin(lim: Limits, s: State, op: Op, ids: set<u32>)
    requires Inv(lim, s) && Chan(op) in ids && Within(s, ids)
    ensures Within(s.Step(lim, op).0, ids)
  {
    hide State.Step, Window.Insert;
    var s' := s.Step(lim, op).0;
    forall c | c in s'.channels ensures c in ids {
      if c != Chan(op) { StepElsewhere(lim, s, op, c); }
    }
    var inserted, d, info := StepWindow(lim, s, op);
    InsertEffect(s.tombs, lim.maxTombstones, d, info);
  }

  lemma {:induction false} EmptyWithin(ids: set<u32>)
    ensures Within(EMPTY, ids)
  {
  }

  lemma {:induction false} RunWithin(lim: Limits, ops: seq<Op>, ids: set<u32>, i: nat)
    requires (forall k :: 0 <= k < |ops| ==> Chan(ops[k]) in ids) && i <= |ops|
    ensures Within(At(lim, EMPTY, ops, i), ids)
  {
    hide State.Step, Inv, Within;
    if i == 0 {
      EmptyWithin(ids);
    } else {
      RunWithin(lim, ops, ids, i - 1);
      ReachableInv(lim, ops, i - 1);
      StepWithin(lim, At(lim, EMPTY, ops, i - 1), ops[i - 1], ids);
    }
  }

  lemma {:induction false} RoomForAll(lim: Limits, s: State, ids: set<u32>, c: u32)
    requires Within(s, ids) && |ids| <= lim.maxTracked && c in ids
    ensures !s.Refuses(lim, c)
  {
    if c !in s.channels {
      SubsetCardinality(s.channels.Keys, ids - {c});
    }
  }

  /** A run that touches no more channels than the table holds has no frame turned away. */
  lemma {:induction false} FewChannelsAdmitted(lim: Limits, ops: seq<Op>, ids: set<u32>)
    requires (forall k :: 0 <= k < |ops| ==> Chan(ops[k]) in ids) && |ids| <= lim.maxTracked
    ensures Admitted(lim, ops, |ops|)
  {
    hide Within, State.Refuses, At;
    forall i | 0 <= i < |ops| ensures !TurnsAway(lim, At(lim, EMPTY, ops, i), ops[i]) {
      RunWithin(lim, ops, ids, i);
      RoomForAll(lim, At(lim, EMPTY, ops, i), ids, Chan(ops[i]));
    }
  }

  // ---------------------------------------------------------------- the eviction bound

  /** The data channels that are closed or cancelled in the unpruned session. */
  ghost function Terminated(m: Channels): set<u32> {
    set c | c in m && c != 0 && m[c].Terminal()
  }

  lemma {:induction false} TerminatedGrows(m: Channels, op: Op)
    ensures Terminated(m) <= Terminated(Unpruned.Step(m, op).0)
  {
  }

  lemma {:induction false} TerminatedMonotone(ops: seq<Op>, i: nat, n: nat)
    requires i <= n <= |ops|
    ensures Terminated(Unpruned.At(map[], ops, i)) <= Terminated(Unpruned.At(map[], ops, n))
    decreases n - i
  {
    hide Unpruned.Step, Terminated;
    if i < n {
      TerminatedGrows(Unpruned.At(map[], ops, i), ops[i]);
      TerminatedMonotone(ops, i + 1, n);
    }
  }

  ghost predicate AllAgree(s: State, m: Channels) {
    0 !in s.tombs.info && forall c :: c != 0 ==> Agree(s, m, c)
  }

  /** While no more channels have terminated than tombstones fit, a step evicts nothing. */
  lemma {:induction false} NothingEvicted(lim: Limits, s: State, m: Channels, op: Op, c: u32)
    requires Inv(lim, s) && Plain(op) && AllAgree(s, m) && !TurnsAway(lim, s, op)
    requires |Terminated(Unpruned.Step(m, op).0)| <= lim.maxTombstones
    ensures KeepsTombstone(lim, s, op, c)
  {
    hide State.Step, Unpruned.Step, Window.Insert, TurnsAway, Plain;
    var s', m' := s.Step(lim, op).0, Unpruned.Step(m, op).0;
    var inserted, d, i := StepWindow(lim, s, op);
    InsertEffect(s.tombs, lim.maxTombstones, d, i);
    if inserted && d !in s.tombs.info {
      assert Agree(s, m, d);
      StepAgreesHere(lim, s, m, op);
      TerminatedGrows(m, op);
      WindowNoDup(s.tombs, lim.maxTombstones);
      forall x | x in s.tombs.order + [d] ensures x in Terminated(m') {
        assert Agree(s, m, x);
      }
      NoDupBounded(s.tombs.order + [d], Terminated(m'));
    }
  }

  lemma {:induction false} AllAgreeAt(lim: Limits, ops: seq<Op>, n: nat)
    requires PlainRun(ops) && n <= |ops| && Admitted(lim, ops, n)
    requires |Terminated(Unpruned.At(map[], ops, |ops|))| <= lim.maxTombstones
    ensures AllAgree(At(lim, EMPTY, ops, n), Unpruned.At(map[], ops, n))
  {
    hide State.Step, Unpruned.Step, Inv, TurnsAway, Plain, Terminated, Agree, KeepsTombstone;
    if n == 0 {
      forall c: u32 ensures Agree(EMPTY, map[], c) { AgreeAtStart(c); }
    } else {
      var s, m, op := At(lim, EMPTY, ops, n - 1), Unpruned.At(map[], ops, n - 1), ops[n - 1];
      AllAgreeAt(lim, ops, n - 1);
      ReachableInv(lim, ops, n - 1);
      TerminatedMonotone(ops, n, |ops|);
      SubsetCardinality(Terminated(Unpruned.At(map[], ops, n)), Terminated(Unpruned.At(map[], ops, |ops|)));
      ZeroUnburied(lim, s, op);
      forall c: u32 | c != 0 ensures Agree(At(lim, EMPTY, ops, n), Unpruned.At(map[], ops, n), c) {
        assert Agree(s, m, c);
        if c == Chan(op) {
          StepAgreesHere(lim, s, m, op);
        } else {
          NothingEvicted(lim, s, m, op, c);
          StepAgreesElsewhere(lim, s, m, op, c);
        }
      }
    }
  }

  lemma {:induction false} ZeroUnburied(lim: Limits, s: State, op: Op)
    requires Inv(lim, s) && Plain(op) && 0 !in s.tombs.info
    ensures 0 !in s.Step(lim, op).0.tombs.info
  {
    hide State.Step, Window.Insert;
    var inserted, d, i := StepWindow(lim, s, op);
    InsertEffect(s.tombs, lim.maxTombstones, d, i);
  }

  /** Where the sessions agree, a tombstone is not lost, so only being turned away makes a difference. */
  lemma {:induction false} AgreeingDiffers(lim: Limits, s: State, m: Channels, op: Op)
    requires Inv(lim, s) && Plain(op) && Agree(s, m, Chan(op))
    ensures Differs(lim, s, m, op) <==> TurnsAway(lim, s, op)
  {
    hide Window.Valid, State.Refuses;
  }

  lemma {:induction false} BoundedDiffers(lim: Limits, ops: seq<Op>, n: nat)
    requires PlainRun(ops) && n <= |ops|
    requires |Terminated(Unpruned.At(map[], ops, |ops|))| <= lim.maxTombstones
    ensures NoneDiffers(lim, ops, n) <==> Admitted(lim, ops, n)
  {
    hide State.Step, Unpruned.Step, Inv, TurnsAway, Differs, Plain, Terminated, Agree, At, Unpruned.At, PlainRun;
    if n > 0 {
      BoundedDiffers(lim, ops, n - 1);
      assert NoneDiffers(lim, ops, n) <==> NoneDiffers(lim, ops, n - 1) && !DiffersAt(lim, ops, n - 1);
      PlainAt(ops, n - 1);
      if Admitted(lim, ops, n - 1) {
        var s, m := At(lim, EMPTY, ops, n - 1), Unpruned.At(map[], ops, n - 1);
        AllAgreeAt(lim, ops, n - 1);
        ReachableInv(lim, ops, n - 1);
        if Chan(ops[n - 1]) == 0 {
          ZeroDiffers(lim, s, m, ops[n - 1]);
        } else {
          assert Agree(s, m, Chan(ops[n - 1]));
          AgreeingDiffers(lim, s, m, ops[n - 1]);
        }
      }
    }
  }

  /**
   * Within the bound: as long as no more channels terminate than tombstones fit, pruning
   * is invisible exactly if no frame is turned away for tracking too many channels at once.
   */
  lemma {:induction false} PruningRefinesModel(lim: Limits, ops: seq<Op>, n: nat)
    requires PlainRun(ops) && n <= |ops|
    requires |Terminated(Unpruned.At(map[], ops, |ops|))| <= lim.maxTombstones
    ensures SameOutcomes(lim, ops, n) <==> Admitted(lim, ops, n)
  {
    hide SameOutcomes, NoneDiffers, Admitted, PlainRun, Terminated, Unpruned.At;
    PruningIsInvisibleIff(lim, ops, n);
    BoundedDiffers(lim, ops, n);
  }

  // ------------------------------------------------------------- the bound is exact

  /** Cancel channels 1, 2, ..., n. */
  function CancelUpTo(n: nat): seq<Op>
    requires n <= U32_MAX
  {
    seq(n, i requires 0 <= i < n => Cancel(i + 1))
  }

  function DataFrame(c: u32): Frame {
    Frame(c, 0, Flags(true, false, false), Other)
  }

  /** Cancel one channel more than tombstones fit, then receive on the first. */
  function Overflow(lim: Limits): seq<Op>
    requires lim.maxTombstones < U32_MAX
  {
    CancelUpTo(lim.maxTombstones + 1) + [Recv(DataFrame(1))]
  }

  /** The window after cancelling 1, ..., i one by one. */
  ghost predicate FilledBy(lim: Limits, w: Window, i: nat) {
    && w.Valid(lim.maxTombstones)
    && if i <= lim.maxTombstones then |w.order| == i && forall j :: 0 <= j < i ==> w.order[j] == j + 1
       else 1 !in w.info
  }

  lemma {:induction false} FillOneMore(lim: Limits, w: Window, i: nat)
    requires 0 < i <= lim.maxTombstones + 1 && i <= U32_MAX && FilledBy(lim, w, i - 1)
    ensures FilledBy(lim, w.Insert(lim.maxTombstones, i, TombstoneInfo(Closed, true)), i)
  {
    assert i !in w.order;
    InsertValid(w, lim.maxTombstones, i, TombstoneInfo(Closed, true));
  }

  lemma {:induction false} CancelsFillWindow(lim: Limits, ops: seq<Op>, n: nat, i: nat)
    requires n <= U32_MAX && i <= n <= |ops| && ops[..n] == CancelUpTo(n)
    requires n <= lim.maxTombstones + 1
    ensures At(lim, EMPTY, ops, i).channels == map[] && FilledBy(lim, At(lim, EMPTY, ops, i).tombs, i)
  {
    hide FilledBy, State.Step, CancelUpTo;
    if i > 0 {
      CancelsFillWindow(lim, ops, n, i - 1);
      CancelAt(ops, n, i);
      CancelFills(lim, At(lim, EMPTY, ops, i - 1), i);
    } else {
      FillStarts(lim);
    }
  }

  lemma {:induction false} FillStarts(lim: Limits)
    ensures FilledBy(lim, EMPTY_WINDOW, 0)
  {
  }

  lemma {:induction false} CancelAt(ops: seq<Op>, n: nat, i: nat)
    requires n <= U32_MAX && 0 < i <= n <= |ops| && ops[..n] == CancelUpTo(n)
    ensures ops[i - 1] == Cancel(i)
  {
    assert ops[i - 1] == ops[..n][i - 1];
  }

  lemma {:induction false} CancelFills(lim: Limits, s: State, i: nat)
    requires 0 < i <= U32_MAX && i <= lim.maxTombstones + 1
    requires s.channels == map[] && FilledBy(lim, s.tombs, i - 1)
    ensures var t := s.Step(lim, Cancel(i)).0; t.channels == map[] && FilledBy(lim, t.tombs, i)
  {
    hide FilledBy, Window.Insert;
    FillOneMore(lim, s.tombs, i);
    assert s.channels - {i} == map[];
  }

  /** Exactly the channels 1, ..., i exist, and all are terminal. */
  ghost predicate CancelledUpTo(m: Channels, i: nat) {
    && (forall c: u32 :: c in m <==> 1 <= c <= i)
    && (forall c :: c in m ==> m[c].Terminal())
  }

  lemma {:induction false} CancelsTerminate(ops: seq<Op>, n: nat, i: nat)
    requires n <= U32_MAX && i <= n <= |ops| && ops[..n] == CancelUpTo(n)
    ensures CancelledUpTo(Unpruned.At(map[], ops, i), i)
  {
    if i > 0 {
      CancelsTerminate(ops, n, i - 1);
      CancelAt(ops, n, i);
      var m, m' := Unpruned.At(map[], ops, i - 1), Unpruned.At(map[], ops, i);
      assert CancelledUpTo(m, i - 1);
      assert m' == Unpruned.CancelIn(m, i);
    }
  }

  lemma {:induction false} CancelledCount(m: Channels, n: nat)
    requires CancelledUpTo(m, n) && n <= U32_MAX
    ensures |Terminated(m)| == n
  {
    var firsts: seq<u32> := seq(n, j requires 0 <= j < n => j + 1);
    forall c | c in Terminated(m) ensures c in Elements(firsts) {
      assert firsts[c - 1] == c;
    }
    assert Terminated(m) == Elements(firsts);
    NoDupCardinality(firsts);
  }

  /**
   * The bound cannot be raised by one: for every limit there is a run with no frame
   * turned away in which exactly one channel too many terminates, and the pruned session
   * delivers a frame on a cancelled channel that the unpruned one drops.
   */
  lemma {:induction false} EvictionBoundIsTight(lim: Limits)
    requires lim.maxTombstones < U32_MAX
    ensures var ops := Overflow(lim);
            var n := lim.maxTombstones + 1;
            && |ops| == n + 1 && PlainRun(ops) && Admitted(lim, ops, n + 1)
            && |Terminated(Unpruned.At(map[], ops, n + 1))| == lim.maxTombstones + 1
            && OutcomeAt(lim, EMPTY, ops, n) == Delivered
            && Unpruned.OutcomeAt(map[], ops, n) == RecvDropped
  {
    hide FilledBy, CancelledUpTo, CancelUpTo, State.Step, Unpruned.Step, Terminated, State.Refuses;
    var ops, n := Overflow(lim), lim.maxTombstones + 1;
    OverflowShape(lim);
    CancelsFillWindow(lim, ops, n, n);
    CancelsTerminate(ops, n, n);
    forall i | 0 <= i < n + 1 ensures !TurnsAway(lim, At(lim, EMPTY, ops, i), ops[i]) {
      CancelsFillWindow(lim, ops, n, i);
      EmptyTableAdmits(lim, At(lim, EMPTY, ops, i), ops[i]);
    }
    hide TurnsAway, Plain;
    LastStep(lim, At(lim, EMPTY, ops, n), Unpruned.At(map[], ops, n), n);
  }

  lemma {:induction false} OverflowShape(lim: Limits)
    requires lim.maxTombstones < U32_MAX
    ensures var n := lim.maxTombstones + 1;
            && |Overflow(lim)| == n + 1
            && Overflow(lim)[..n] == CancelUpTo(n)
            && Overflow(lim)[n] == Recv(DataFrame(1))
            && PlainRun(Overflow(lim))
  {
  }

  lemma {:induction false} EmptyTableAdmits(lim: Limits, s: State, op: Op)
    requires s.channels == map[]
    ensures !TurnsAway(lim, s, op)
  {
  }

  lemma {:induction false} LastStep(lim: Limits, s: State, m: Channels, n: nat)
    requires lim.maxTombstones < n <= U32_MAX
    requires s.channels == map[] && FilledBy(lim, s.tombs, n) && CancelledUpTo(m, n)
    ensures s.Step(lim, Recv(DataFrame(1))).1 == Delivered
    ensures Unpruned.Step(m, Recv(DataFrame(1))).1 == RecvDropped
    ensures |Terminated(Unpruned.Step(m, Recv(DataFrame(1))).0)| == n
  {
    assert 1 in m && m[1 := m[1]] == m;
    EvictedChannelReopens(lim, s, m, DataFrame(1));
    CancelledCount(m, n);
  }

  /** Once the tombstone is gone the divergence is certain, not just possible. */
  lemma {:induction false} EvictedChannelReopens(lim: Limits, s: State, m: Channels, f: Frame)
    requires f.channel != 0 && f.channel in m && m[f.channel].Terminal()
    requires f.channel !in s.tombs.info && f.channel !in s.channels && !s.Refuses(lim, f.channel)
    ensures s.Step(lim, Recv(f)).1 == Delivered && Unpruned.Step(m, Recv(f)).1 == RecvDropped
    ensures f.payloadLen <= DEFAULT_INITIAL_CREDITS ==> s.Step(lim, Send(f)).1 == Sent
    ensures f.flags.data ==> Unpruned.Step(m, Send(f)).1 == SendDropped
  {
  }

  // -------------------------------------------------------------------- observers

  /**
   * What the pruned session reports. Off the window the two agree on everything. A
   * tombstoned channel is reported closed and without credits, and cancelled exactly if
   * it is, unless a late credit grant has re-created its entry: then that entry is
   * reported, which is never cancelled or closed.
   */
  lemma {:induction false} ObserversAgree(lim: Limits, s: State, m: Channels, c: u32)
    requires Inv(lim, s) && Agree(s, m, c) && c != 0
    ensures c !in s.tombs.info ==>
              && s.IsCancelled(c) == Entry(m, c).cancelled
              && s.GetCredits(c) == Entry(m, c).credits
              && s.GetLifecycle(c) == Entry(m, c).lifecycle
    ensures c in s.tombs.info && c !in s.channels ==>
              && s.IsCancelled(c) == m[c].cancelled
              && s.GetCredits(c) == 0 && s.GetLifecycle(c) == Closed
    ensures c in s.tombs.info && c in s.channels ==>
              && !s.IsCancelled(c) && s.GetLifecycle(c) != Closed
              && s.GetCredits(c) == s.channels[c].credits
  {
  }

  /** A late grant does hide a cancellation. */
  lemma {:induction false} LateGrantHidesCancellation(lim: Limits)
    ensures var ops := [Cancel(1), Grant(1, 5)];
            && At(lim, EMPTY, ops, 1).IsCancelled(1)
            && !At(lim, EMPTY, ops, 2).IsCancelled(1)
            && Unpruned.At(map[], ops, 2)[1].cancelled
  {
    var ops := [Cancel(1), Grant(1, 5)];
    assert At(lim, EMPTY, ops, 1) == EMPTY.Step(lim, Cancel(1)).0;
    assert Unpruned.At(map[], ops, 1) == Unpruned.Step(map[], Cancel(1)).0;
  }
}
