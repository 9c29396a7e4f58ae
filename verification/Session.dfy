/**
 * The flow-control session: per-channel credits, half-close, cancellation, and
 * pruning of finished channels into a bounded FIFO window of tombstones.
 *
 * `Window`, `State` and `Step` specify the classes `Tombstones` and `Session`.
 */
module FlowControl {
  import opened Base

  const DEFAULT_INITIAL_CREDITS: u32 := 65536

  datatype Lifecycle = Open | HalfClosedLocal | HalfClosedRemote | Closed

  datatype ChannelState = ChannelState(
    lifecycle: Lifecycle,
    credits: u32,
    cancelled: bool,
    framesSent: nat,
    framesReceived: nat)
  {
    predicate CanSend() {
      !cancelled && (lifecycle.Open? || lifecycle.HalfClosedRemote?)
    }

    predicate CanReceive() {
      !cancelled && (lifecycle.Open? || lifecycle.HalfClosedLocal?)
    }

    /** Nothing can be sent or received any more. */
    predicate Terminal() {
      cancelled || lifecycle.Closed?
    }

    function MarkLocalEos(): ChannelState {
      this.(lifecycle := match lifecycle
                         case Open => HalfClosedLocal
                         case HalfClosedRemote => Closed
                         case other => other)
    }

    function MarkRemoteEos(): ChannelState {
      this.(lifecycle := match lifecycle
                         case Open => HalfClosedRemote
                         case HalfClosedLocal => Closed
                         case other => other)
    }

    function Charge(len: u32): ChannelState
      requires len <= credits
    {
      this.(credits := credits - len, framesSent := framesSent + 1)
    }

    function CountReceived(): ChannelState {
      this.(framesReceived := framesReceived + 1)
    }

    function Granted(bytes: u32): ChannelState {
      this.(credits := SaturatingAdd(credits, bytes))
    }
  }

  const DEFAULT_CHANNEL := ChannelState(Open, DEFAULT_INITIAL_CREDITS, false, 0, 0)

  type Channels = map<u32, ChannelState>

  /** The entry a hash map's `entry(c).or_default()` yields. */
  function Entry(channels: Channels, c: u32): ChannelState {
    if c in channels then channels[c] else DEFAULT_CHANNEL
  }

  // ---------------------------------------------------------------- tombstones

  datatype TombstoneInfo = TombstoneInfo(lifecycle: Lifecycle, cancelled: bool)

  type Infos = map<u32, TombstoneInfo>

  datatype Window = Window(order: seq<u32>, info: Infos) {

    /** `order` lists the keys of `info` without repetition, and there are at most `max`. */
    ghost predicate Valid(max: nat) {
      && (forall i :: 0 <= i < |order| ==> order[i] in info)
      && (forall c :: c in info ==> c in order)
      && |order| == |info| <= max
    }

    /** The window after inserting `c`: one insertion overflows by at most one id, the oldest. */
    function Insert(max: nat, c: u32, i: TombstoneInfo): Window {
      var order' := if c in info then order else order + [c];
      if |order'| <= max then Window(order', info[c := i])
      else Window(order'[1..], info[c := i] - {order'[0]})
    }
  }

  lemma {:induction false} WindowNoDup(w: Window, max: nat)
    requires w.Valid(max)
    ensures NoDup(w.order)
  {
    assert Elements(w.order) == w.info.Keys;
    CardinalityNoDup(w.order);
  }

  lemma {:induction false} InsertValid(w: Window, max: nat, c: u32, i: TombstoneInfo)
    requires w.Valid(max)
    ensures w.Insert(max, c, i).Valid(max)
  {
    WindowNoDup(w, max);
    var order' := if c in w.info then w.order else w.order + [c];
    if |order'| > max {
      forall k | k in w.info[c := i] && k != order'[0]
        ensures k in order'[1..]
      {
        assert k in order';
        var j :| 0 <= j < |order'| && order'[j] == k;
        assert order'[1..][j - 1] == k;
      }
    }
  }

  const EMPTY_WINDOW := Window([], map[])

  class Tombstones {
    const max: nat
    var order: seq<u32>
    var info: map<u32, TombstoneInfo>

    ghost function View(): Window
      reads this
    {
      Window(order, info)
    }

    constructor (max: nat)
      ensures this.max == max && View() == EMPTY_WINDOW && View().Valid(max)
    {
      this.max := max;
      order, info := [], map[];
    }

    predicate Contains(c: u32)
      reads this
    {
      c in info
    }

    method Insert(c: u32, i: TombstoneInfo)
      requires View().Valid(max)
      modifies this
      ensures View().Valid(max)
      ensures View() == old(View()).Insert(max, c, i)
    {
      ghost var before := View();
      WindowNoDup(before, max);
      InsertValid(before, max, c, i);
      var existed := c in info;
      info := info[c := i];
      if !existed {
        order := order + [c];
      }
      ghost var full, fullInfo := order, info;
      while |order| > max
        invariant |full| <= max + 1
        invariant (order == full && info == fullInfo)
               || (|full| > max && order == full[1..] && info == fullInfo - {full[0]})
      {
        var evicted := order[0];
        order := order[1..];
        info := info - {evicted};
      }
    }
  }

  // ------------------------------------------------------------------- session

  datatype Limits_ = Limits(maxTombstones: nat, maxTracked: nat)

  /** Both limits fall back to a positive default unless set to a positive number. */
  type Limits = l: Limits_ | l.maxTombstones > 0 && l.maxTracked > 0 witness Limits(8192, 4096)

  datatype Flags = Flags(data: bool, eos: bool, control: bool)

  /** A control frame's payload after decoding; `Other` covers undecodable ones. */
  datatype Control = CancelChannel(channel: u32) | GrantCredits(channel: u32, bytes: u32) | Other

  datatype Frame = Frame(channel: u32, payloadLen: u32, flags: Flags, control: Control)

  datatype Outcome =
    | Sent
    | SendDropped
    | NoCredits(need: u32, have: u32)
    | TooManyChannels
    | Delivered
    | RecvDropped
    | Done

  datatype Op = Send(frame: Frame) | Recv(frame: Frame) | Grant(channel: u32, bytes: u32) | Cancel(channel: u32)

  datatype State = State(channels: Channels, tombs: Window) {

    function Put(c: u32, st: ChannelState): State {
      this.(channels := channels[c := st])
    }

    function Forget(c: u32): State {
      this.(channels := channels - {c})
    }

    /** Drop the tracked state of `c` and record its tombstone. */
    function Retire(lim: Limits, c: u32, cancelled: bool): State {
      State(channels - {c}, tombs.Insert(lim.maxTombstones, c, TombstoneInfo(Closed, cancelled)))
    }

    /** Keep `c` tracked unless its new state is terminal. */
    function Settle(lim: Limits, c: u32, st: ChannelState): State {
      if st.Terminal() then Retire(lim, c, st.cancelled) else Put(c, st)
    }

    predicate Refuses(lim: Limits, c: u32) {
      c !in channels && |channels| >= lim.maxTracked
    }

    function SendStep(lim: Limits, f: Frame): (State, Outcome) {
      var c := f.channel;
      if c == 0 || !f.flags.data then (this, Sent)
      else if c in tombs.info then (Forget(c), SendDropped)
      else if Refuses(lim, c) then (this, TooManyChannels)
      else
        var st := Entry(channels, c);
        if !st.CanSend() then (Put(c, st), SendDropped)
        else if f.payloadLen > st.credits then (Put(c, st), NoCredits(f.payloadLen, st.credits))
        else
          var charged := st.Charge(f.payloadLen);
          (Settle(lim, c, if f.flags.eos then charged.MarkLocalEos() else charged), Sent)
    }

    function GrantStep(c: u32, bytes: u32): State {
      Put(c, Entry(channels, c).Granted(bytes))
    }

    function CancelStep(lim: Limits, c: u32): State {
      if c == 0 then this else Retire(lim, c, true)
    }

    function ControlStep(lim: Limits, control: Control): State {
      match control
      case CancelChannel(c) => CancelStep(lim, c)
      case GrantCredits(c, bytes) => GrantStep(c, bytes)
      case Other => this
    }

    function RecvStep(lim: Limits, f: Frame): (State, Outcome) {
      var c := f.channel;
      if c == 0 && f.flags.control then (ControlStep(lim, f.control), Delivered)
      else if c != 0 && c in tombs.info then (Forget(c), RecvDropped)
      else if Refuses(lim, c) then (Retire(lim, c, false), RecvDropped)
      else
        var st := Entry(channels, c);
        if !st.CanReceive() then (Put(c, st), RecvDropped)
        else
          var counted := if f.flags.data then st.CountReceived() else st;
          (Settle(lim, c, if f.flags.eos then counted.MarkRemoteEos() else counted), Delivered)
    }

    function IsCancelled(c: u32): bool {
      if c in channels then channels[c].cancelled
      else c in tombs.info && tombs.info[c].cancelled
    }

    function GetCredits(c: u32): u32 {
      if c in channels then channels[c].credits
      else if c != 0 && c in tombs.info then 0
      else DEFAULT_INITIAL_CREDITS
    }

    function GetLifecycle(c: u32): Lifecycle {
      if c in channels then channels[c].lifecycle
      else if c in tombs.info then tombs.info[c].lifecycle
      else Open
    }

    function Step(lim: Limits, op: Op): (State, Outcome) {
      match op
      case Send(f) => SendStep(lim, f)
      case Recv(f) => RecvStep(lim, f)
      case Grant(c, bytes) => (GrantStep(c, bytes), Done)
      case Cancel(c) => (CancelStep(lim, c), Done)
    }
  }

  const EMPTY := State(map[], EMPTY_WINDOW)

  /** The invariant of every reachable session state: no tracked channel is terminal. */
  ghost predicate Inv(lim: Limits, s: State) {
    && s.tombs.Valid(lim.maxTombstones)
    && forall c :: c in s.channels ==> !s.channels[c].Terminal()
  }

  lemma {:induction false} RetireInv(lim: Limits, s: State, c: u32, cancelled: bool)
    requires Inv(lim, s)
    ensures Inv(lim, s.Retire(lim, c, cancelled))
  {
    InsertValid(s.tombs, lim.maxTombstones, c, TombstoneInfo(Closed, cancelled));
  }

  lemma {:induction false} SettleInv(lim: Limits, s: State, c: u32, st: ChannelState)
    requires Inv(lim, s)
    ensures Inv(lim, s.Settle(lim, c, st))
  {
    hide Window.Insert, Window.Valid;
    RetireInv(lim, s, c, st.cancelled);
  }

  lemma {:induction false} SendInv(lim: Limits, s: State, f: Frame)
    requires Inv(lim, s)
    ensures Inv(lim, s.SendStep(lim, f).0)
  {
    hide State.Settle, State.Retire, Window.Valid;
    var st := Entry(s.channels, f.channel);
    if f.payloadLen <= st.credits {
      SettleInv(lim, s, f.channel, st.Charge(f.payloadLen));
      SettleInv(lim, s, f.channel, st.Charge(f.payloadLen).MarkLocalEos());
    }
  }

  lemma {:induction false} RecvInv(lim: Limits, s: State, f: Frame)
    requires Inv(lim, s)
    ensures Inv(lim, s.RecvStep(lim, f).0)
  {
    hide State.Settle, State.Retire, Window.Valid;
    RetireInv(lim, s, f.channel, false);
    var st := Entry(s.channels, f.channel);
    var counted := if f.flags.data then st.CountReceived() else st;
    SettleInv(lim, s, f.channel, counted);
    SettleInv(lim, s, f.channel, counted.MarkRemoteEos());
    if f.control.CancelChannel? {
      RetireInv(lim, s, f.control.channel, true);
    }
  }

  lemma {:induction false} StepInv(lim: Limits, s: State, op: Op)
    requires Inv(lim, s)
    ensures Inv(lim, s.Step(lim, op).0)
  {
    match op
    case Send(f) => SendInv(lim, s, f);
    case Recv(f) => RecvInv(lim, s, f);
    case Grant(c, bytes) =>
    case Cancel(c) => RetireInv(lim, s, c, true);
  }

  /** Frames for the peer and from the peer; delivery failures are not modelled. */
  class Transport {
    var outbox: seq<Frame>
    var inbox: seq<Frame>

    constructor (incoming: seq<Frame>)
      ensures outbox == [] && inbox == incoming
    {
      outbox, inbox := [], incoming;
    }
  }

  class Session {
    const limits: Limits
    const transport: Transport
    var channels: Channels
    const tombstones: Tombstones

    ghost predicate Valid()
      reads this, tombstones
    {
      && tombstones.max == limits.maxTombstones
      && Inv(limits, View())
    }

    ghost function View(): State
      reads this, tombstones
    {
      State(channels, tombstones.View())
    }

    constructor (limits: Limits, transport: Transport)
      ensures Valid() && View() == EMPTY
      ensures this.limits == limits && this.transport == transport
      ensures fresh(tombstones)
    {
      this.limits := limits;
      this.transport := transport;
      channels := map[];
      tombstones := new Tombstones(limits.maxTombstones);
    }

    method Tombstone(c: u32, cancelled: bool)
      requires tombstones.max == limits.maxTombstones
      requires tombstones.View().Valid(limits.maxTombstones)
      modifies tombstones
      ensures tombstones.View()
          == old(tombstones.View()).Insert(limits.maxTombstones, c, TombstoneInfo(Closed, cancelled))
    {
      tombstones.Insert(c, TombstoneInfo(Closed, cancelled));
    }

    method SendFrame(frame: Frame) returns (outcome: Outcome)
      requires Valid()
      modifies this, tombstones, transport
      ensures Valid()
      ensures (View(), outcome) == old(View()).Step(limits, Send(frame))
      ensures transport.outbox == old(transport.outbox) + (if outcome.Sent? then [frame] else [])
      ensures transport.inbox == old(transport.inbox)
    {
      hide Window.Insert, Window.Valid;
      StepInv(limits, View(), Send(frame));
      var c := frame.channel;
      if c != 0 && frame.flags.data {
        if tombstones.Contains(c) {
          channels := channels - {c};
          return SendDropped;
        }
        if c !in channels && |channels| >= limits.maxTracked {
          return TooManyChannels;
        }
        var st := Entry(channels, c);
        if !st.CanSend() {
          channels := channels[c := st];
          return SendDropped;
        }
        if frame.payloadLen > st.credits {
          channels := channels[c := st];
          return NoCredits(frame.payloadLen, st.credits);
        }
        st := st.Charge(frame.payloadLen);
        if frame.flags.eos {
          st := st.MarkLocalEos();
        }
        if st.lifecycle.Closed? || st.cancelled {
          channels := channels - {c};
          Tombstone(c, st.cancelled);
        } else {
          channels := channels[c := st];
        }
      }
      transport.outbox := transport.outbox + [frame];
      return Sent;
    }

    method GrantCreditsTo(c: u32, bytes: u32)
      requires Valid()
      modifies this
      ensures Valid()
      ensures View() == old(View()).Step(limits, Grant(c, bytes)).0
    {
      StepInv(limits, View(), Grant(c, bytes));
      channels := channels[c := Entry(channels, c).Granted(bytes)];
    }

    method CancelChannel(c: u32)
      requires Valid()
      modifies this, tombstones
      ensures Valid()
      ensures View() == old(View()).Step(limits, Cancel(c)).0
    {
      StepInv(limits, View(), Cancel(c));
      if c == 0 {
        return;
      }
      channels := channels - {c};
      Tombstone(c, true);
    }

    method ProcessControlFrame(frame: Frame)
      requires Valid()
      modifies this, tombstones
      ensures Valid()
      ensures View() == old(View()).ControlStep(limits, frame.control)
    {
      match frame.control
      case CancelChannel(c) => CancelChannel(c);
      case GrantCredits(c, bytes) => GrantCreditsTo(c, bytes);
      case Other =>
    }

    /** Handle one incoming frame; `keep` tells whether the caller gets to see it. */
    method AcceptFrame(frame: Frame) returns (keep: bool)
      requires Valid()
      modifies this, tombstones
      ensures Valid()
      ensures (View(), if keep then Delivered else RecvDropped) == old(View()).Step(limits, Recv(frame))
    {
      hide Window.Insert, Window.Valid;
      StepInv(limits, View(), Recv(frame));
      var c := frame.channel;
      if c == 0 && frame.flags.control {
        ProcessControlFrame(frame);
        return true;
      }
      if c != 0 && tombstones.Contains(c) {
        channels := channels - {c};
        return false;
      }
      var dropFrame, shouldTombstone, asCancelled := false, false, false;
      if c !in channels && |channels| >= limits.maxTracked {
        dropFrame, shouldTombstone := true, true;
        assert channels - {c} == channels;
      } else {
        var st := Entry(channels, c);
        if !st.CanReceive() {
          dropFrame := true;
          channels := channels[c := st];
        } else {
          if frame.flags.data {
            st := st.CountReceived();
          }
          if frame.flags.eos {
            st := st.MarkRemoteEos();
          }
          if st.lifecycle.Closed? || st.cancelled {
            asCancelled := st.cancelled;
            channels := channels - {c};
            shouldTombstone := true;
          } else {
            channels := channels[c := st];
          }
        }
      }
      if shouldTombstone {
        Tombstone(c, asCancelled);
      }
      return !dropFrame;
    }

    /**
     * Receive until a frame survives the filter. `taken` frames leave the inbox;
     * all of them but the returned one were dropped.
     */
    method RecvFrame() returns (got: Option<Frame>, ghost taken: nat)
      requires Valid()
      modifies this, tombstones, transport
      ensures Valid()
      ensures taken <= |old(transport.inbox)| && transport.inbox == old(transport.inbox)[taken..]
      ensures transport.outbox == old(transport.outbox)
      ensures var ops := Receives(old(transport.inbox));
              && View() == At(limits, old(View()), ops, taken)
              && (forall j :: 0 <= j < taken - 1 ==> OutcomeAt(limits, old(View()), ops, j) == RecvDropped)
              && (got.None? ==> transport.inbox == []
                                && (taken > 0 ==> OutcomeAt(limits, old(View()), ops, taken - 1) == RecvDropped))
              && (got.Some? ==> taken > 0 && got.value == old(transport.inbox)[taken - 1]
                                && OutcomeAt(limits, old(View()), ops, taken - 1) == Delivered)
    {
      hide State.Step, Inv;
      ghost var start := View();
      ghost var all := transport.inbox;
      ghost var ops := Receives(all);
      taken := 0;
      while transport.inbox != []
        invariant Valid() && taken <= |all| && transport.inbox == all[taken..]
        invariant transport.outbox == old(transport.outbox)
        invariant View() == At(limits, start, ops, taken)
        invariant forall j :: 0 <= j < taken ==> OutcomeAt(limits, start, ops, j) == RecvDropped
        decreases |transport.inbox|
      {
        var frame := transport.inbox[0];
        transport.inbox := transport.inbox[1..];
        var keep := AcceptFrame(frame);
        taken := taken + 1;
        if keep {
          return Some(frame), taken;
        }
      }
      return None, taken;
    }
  }

  // ---------------------------------------------------------------------- runs

  function Receives(frames: seq<Frame>): seq<Op> {
    seq(|frames|, i requires 0 <= i < |frames| => Recv(frames[i]))
  }

  /** The state before operation `i` of a run that starts in `s`. */
  function At(lim: Limits, s: State, ops: seq<Op>, i: nat): State
    requires i <= |ops|
  {
    if i == 0 then s else At(lim, s, ops, i - 1).Step(lim, ops[i - 1]).0
  }

  function OutcomeAt(lim: Limits, s: State, ops: seq<Op>, i: nat): Outcome
    requires i < |ops|
  {
    At(lim, s, ops, i).Step(lim, ops[i]).1
  }

  lemma {:induction false} EmptyInv(lim: Limits)
    ensures Inv(lim, EMPTY)
  {
  }

  /** Every reachable state satisfies the invariant. */
  lemma {:induction false} RunInv(lim: Limits, s: State, ops: seq<Op>, i: nat)
    requires Inv(lim, s) && i <= |ops|
    ensures Inv(lim, At(lim, s, ops, i))
  {
    if i > 0 {
      hide State.Step, Inv;
      RunInv(lim, s, ops, i - 1);
      StepInv(lim, At(lim, s, ops, i - 1), ops[i - 1]);
    }
  }
}
