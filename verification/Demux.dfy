/**
 * The RPC session's receive side: pending waiters, tunnels, opened channels, and the
 * routing of every incoming frame to exactly one of them.
 */
module Demultiplexer {
  import opened Base

  datatype Flags = Flags(data: bool, eos: bool, error: bool, response: bool)

  /** A channel-0 payload after decoding; `Malformed` is a Ping or OpenChannel that does not decode. */
  datatype Verb = Ping(payload: seq<byte>) | OpenChannel(channel: u32) | Malformed | OtherVerb

  datatype Frame = Frame(channel: u32, flags: Flags, verb: Verb, payload: seq<byte>)

  datatype Reply = Pong(payload: seq<byte>) | CancelChannel(channel: u32)

  datatype Outcome =
    | ToTunnel(rx: nat)
    | TunnelGone(rx: nat)
    | ToWaiter(waiter: nat)
    | Unroutable
    | Control
    | NotData
    | Rejected
    | Dispatched
    | NoDispatcher

  /**
   * `pending` and `tunnels` map channels to waiters and receivers, named by number.
   * `delivered`, `chunks` and `dispatched` record what waiters, receivers and the
   * dispatcher were given; `live` holds the receivers not yet dropped.
   */
  datatype State = State(
    pending: map<u32, nat>,
    tunnels: map<u32, nat>,
    open: set<u32>,
    hasDispatcher: bool,
    nextWaiter: nat,
    nextRx: nat,
    live: set<nat>,
    delivered: map<nat, Frame>,
    chunks: map<nat, seq<Frame>>,
    dispatched: seq<Frame>,
    replies: seq<Reply>)
  {
    function Tunnel(f: Frame): (State, Outcome)
      requires f.channel in tunnels
    {
      var rx := tunnels[f.channel];
      var given := if rx in live then this.(chunks := chunks[rx := History(rx) + [f]]) else this;
      (if rx !in live || f.flags.eos then given.(tunnels := tunnels - {f.channel}) else given,
       if rx in live then ToTunnel(rx) else TunnelGone(rx))
    }

    function History(rx: nat): seq<Frame> {
      if rx in chunks then chunks[rx] else []
    }

    function Respond(f: Frame): (State, Outcome) {
      if f.channel in pending then
        (this.(pending := pending - {f.channel}, delivered := delivered[pending[f.channel] := f]),
         ToWaiter(pending[f.channel]))
      else (this, Unroutable)
    }

    function HandleControl(f: Frame): State {
      match f.verb
      case Ping(payload) => this.(replies := replies + [Pong(payload)])
      case OpenChannel(c) =>
        if c == 0 then this.(replies := replies + [CancelChannel(0)]) else this.(open := open + {c})
      case Malformed => this
      case OtherVerb => this
    }

    /** One turn of the demux loop. */
    function Route(f: Frame): (State, Outcome) {
      if f.channel in tunnels then Tunnel(f)
      else if f.flags.response then Respond(f)
      else if f.channel == 0 then (HandleControl(f), Control)
      else if !f.flags.data then (this, NotData)
      else if f.channel !in open then (this.(replies := replies + [CancelChannel(f.channel)]), Rejected)
      else if hasDispatcher then (this.(dispatched := dispatched + [f]), Dispatched)
      else (this, NoDispatcher)
    }

    function RegisterPending(max: nat, c: u32): State {
      if |pending| >= max then this
      else this.(pending := pending[c := nextWaiter], nextWaiter := nextWaiter + 1)
    }

    /** The guard of an abandoned call. */
    function Abandon(c: u32): State {
      this.(pending := pending - {c})
    }

    function RegisterTunnel(c: u32): State {
      this.(tunnels := tunnels[c := nextRx], live := live + {nextRx}, nextRx := nextRx + 1)
    }
  }

  const EMPTY := State(map[], map[], {}, false, 0, 0, {}, map[], map[], [], [])

  datatype Op =
    | Receive(frame: Frame)
    | AddPending(channel: u32)
    | DropGuard(channel: u32)
    | AddTunnel(channel: u32)
    | RemoveTunnel(channel: u32)
    | DropReceiver(rx: nat)
    | SetDispatcher

  /** Registering a tunnel on a channel that has one panics; such runs are excluded. */
  predicate Allowed(s: State, op: Op) {
    op.AddTunnel? ==> op.channel !in s.tunnels
  }

  function Step(max: nat, s: State, op: Op): State {
    match op
    case Receive(f) => s.Route(f).0
    case AddPending(c) => s.RegisterPending(max, c)
    case DropGuard(c) => s.Abandon(c)
    case AddTunnel(c) => s.RegisterTunnel(c)
    case RemoveTunnel(c) => s.(tunnels := s.tunnels - {c})
    case DropReceiver(rx) => s.(live := s.live - {rx})
    case SetDispatcher => s.(hasDispatcher := true)
  }

  function At(max: nat, s: State, ops: seq<Op>, n: nat): State
    requires n <= |ops|
  {
    if n == 0 then s else Step(max, At(max, s, ops, n - 1), ops[n - 1])
  }

  lemma {:induction false} AtNext(max: nat, s: State, ops: seq<Op>, n: nat)
    requires n < |ops|
    ensures At(max, s, ops, n + 1) == Step(max, At(max, s, ops, n), ops[n])
  {
  }

  ghost predicate AllowedRun(max: nat, ops: seq<Op>) {
    forall i :: 0 <= i < |ops| ==> Allowed(At(max, EMPTY, ops, i), ops[i])
  }

  lemma {:induction false} AllowedAt(max: nat, ops: seq<Op>, i: nat)
    requires AllowedRun(max, ops) && i < |ops|
    ensures Allowed(At(max, EMPTY, ops, i), ops[i])
  {
  }

  // --------------------------------------------------------------------------- class

  class RpcSession {
    const maxPending: nat
    var pending: map<u32, nat>
    var tunnels: map<u32, nat>
    var openChannels: set<u32>
    var hasDispatcher: bool
    var nextWaiter: nat
    var nextRx: nat
    var live: set<nat>
    var delivered: map<nat, Frame>
    var chunks: map<nat, seq<Frame>>
    var dispatched: seq<Frame>
    var replies: seq<Reply>

    ghost function View(): State
      reads this
    {
      State(pending, tunnels, openChannels, hasDispatcher, nextWaiter, nextRx, live, delivered, chunks, dispatched,
            replies)
    }

    constructor (maxPending: nat)
      ensures this.maxPending == maxPending && View() == EMPTY
    {
      this.maxPending := maxPending;
      pending, tunnels, openChannels, hasDispatcher := map[], map[], {}, false;
      nextWaiter, nextRx, live, delivered, chunks := 0, 0, {}, map[], map[];
      dispatched, replies := [], [];
    }

    method RegisterPending(c: u32) returns (waiter: Option<nat>)
      modifies this
      ensures View() == old(View()).RegisterPending(maxPending, c)
      ensures waiter == if |old(pending)| >= maxPending then None else Some(old(nextWaiter))
    {
      if |pending| >= maxPending {
        return None;
      }
      waiter := Some(nextWaiter);
      pending := pending[c := nextWaiter];
      nextWaiter := nextWaiter + 1;
    }

    method DropPendingGuard(c: u32)
      modifies this
      ensures View() == old(View()).Abandon(c)
    {
      pending := pending - {c};
    }

    method RegisterTunnel(c: u32) returns (rx: nat)
      requires c !in tunnels
      modifies this
      ensures View() == old(View()).RegisterTunnel(c) && rx == old(nextRx)
    {
      rx := nextRx;
      tunnels := tunnels[c := rx];
      live := live + {rx};
      nextRx := nextRx + 1;
    }

    method UnregisterTunnel(c: u32)
      modifies this
      ensures View() == Step(maxPending, old(View()), RemoveTunnel(c))
    {
      tunnels := tunnels - {c};
    }

    method TryRouteToTunnel(f: Frame) returns (handled: bool)
      modifies this
      ensures handled <==> f.channel in old(tunnels)
      ensures View() == if handled then old(View()).Tunnel(f).0 else old(View())
    {
      if f.channel !in tunnels {
        return false;
      }
      var rx, c := tunnels[f.channel], f.channel;
      if rx in live {
        chunks := chunks[rx := (if rx in chunks then chunks[rx] else []) + [f]];
      } else {
        tunnels := tunnels - {c};
      }
      if f.flags.eos {
        tunnels := tunnels - {c};
      }
      assert tunnels == old(tunnels) || tunnels == old(tunnels) - {c};
      return true;
    }

    method TryRouteToPending(f: Frame) returns (consumed: bool)
      modifies this
      ensures consumed <==> f.channel in old(pending)
      ensures View() == old(View()).Respond(f).0
    {
      if f.channel !in pending {
        return false;
      }
      delivered := delivered[pending[f.channel] := f];
      pending := pending - {f.channel};
      return true;
    }

    method HandleControlFrame(f: Frame)
      modifies this
      ensures View() == old(View()).HandleControl(f)
    {
      match f.verb
      case Ping(payload) => replies := replies + [Pong(payload)];
      case OpenChannel(c) =>
        if c == 0 {
          replies := replies + [CancelChannel(0)];
          return;
        }
        openChannels := openChannels + {c};
      case Malformed =>
      case OtherVerb =>
    }

    /** The demux loop over the frames the transport yields before it closes. */
    method Run(frames: seq<Frame>)
      modifies this
      ensures View() == At(maxPending, old(View()), Receives(frames), |frames|)
    {
      ghost var ops := Receives(frames);
      for i := 0 to |frames|
        invariant View() == At(maxPending, old(View()), ops, i)
      {
        RouteFrame(frames[i]);
      }
    }

    method RouteFrame(f: Frame)
      modifies this
      ensures View() == old(View()).Route(f).0
    {
      var handled := TryRouteToTunnel(f);
      if handled { return; }
      if f.flags.response {
        var _ := TryRouteToPending(f);
        return;
      }
      if f.channel == 0 {
        HandleControlFrame(f);
        return;
      }
      if !f.flags.data { return; }
      if f.channel !in openChannels {
        replies := replies + [CancelChannel(f.channel)];
        return;
      }
      if hasDispatcher {
        dispatched := dispatched + [f];
      }
    }
  }

  function Receives(frames: seq<Frame>): (ops: seq<Op>)
    ensures |ops| == |frames|
  {
    seq(|frames|, i requires 0 <= i < |frames| => Receive(frames[i]))
  }

  // ---------------------------------------------------------------------- invariants

  /** Waiters are numbered uniquely, pending ones have nothing yet, and they are bounded. */
  ghost predicate PendingInv(max: nat, pending: map<u32, nat>, nextWaiter: nat, delivered: map<nat, Frame>) {
    && |pending| <= max
    && (forall c :: c in pending ==> pending[c] < nextWaiter && pending[c] !in delivered)
    && (forall c, d :: c in pending && d in pending && pending[c] == pending[d] ==> c == d)
    && (forall w :: w in delivered ==> w < nextWaiter)
  }

  /** Receivers are numbered uniquely. */
  ghost predicate TunnelInv(tunnels: map<u32, nat>, nextRx: nat, chunks: map<nat, seq<Frame>>) {
    && (forall c :: c in tunnels ==> tunnels[c] < nextRx)
    && (forall c, d :: c in tunnels && d in tunnels && tunnels[c] == tunnels[d] ==> c == d)
    && (forall rx :: rx in chunks ==> rx < nextRx)
  }

  ghost predicate Inv(max: nat, s: State) {
    && PendingInv(max, s.pending, s.nextWaiter, s.delivered)
    && TunnelInv(s.tunnels, s.nextRx, s.chunks)
  }

  lemma {:induction false} RespondInv(max: nat, s: State, f: Frame)
    requires Inv(max, s)
    ensures Inv(max, s.Respond(f).0)
  {
    hide TunnelInv;
  }

  lemma {:induction false} TunnelRouteInv(max: nat, s: State, f: Frame)
    requires Inv(max, s) && f.channel in s.tunnels
    ensures Inv(max, s.Tunnel(f).0)
  {
    hide PendingInv;
  }

  lemma {:induction false} RegisterInv(max: nat, s: State, c: u32)
    requires Inv(max, s)
    ensures Inv(max, s.RegisterPending(max, c))
  {
    hide PendingInv, TunnelInv;
    if |s.pending| < max {
      PendingAdds(max, s.pending, s.nextWaiter, s.delivered, c);
    }
  }

  lemma {:induction false} AbandonInv(max: nat, s: State, c: u32)
    requires Inv(max, s)
    ensures Inv(max, s.Abandon(c))
  {
    hide PendingInv, TunnelInv;
    PendingRemoves(max, s.pending, s.nextWaiter, s.delivered, c);
  }

  lemma {:induction false} PendingAdds(
      max: nat, pending: map<u32, nat>, nextWaiter: nat, delivered: map<nat, Frame>, c: u32)
    requires PendingInv(max, pending, nextWaiter, delivered) && |pending| < max
    ensures PendingInv(max, pending[c := nextWaiter], nextWaiter + 1, delivered)
  {
    var grown := pending[c := nextWaiter];
    assert grown.Keys == pending.Keys + {c};
  }

  lemma {:induction false} PendingRemoves(
      max: nat, pending: map<u32, nat>, nextWaiter: nat, delivered: map<nat, Frame>, c: u32)
    requires PendingInv(max, pending, nextWaiter, delivered)
    ensures PendingInv(max, pending - {c}, nextWaiter, delivered)
  {
    var left := pending - {c};
    assert left.Keys == pending.Keys - {c};
    SubsetCardinality(left.Keys, pending.Keys);
  }

  lemma {:induction false} TunnelsInv(max: nat, s: State, c: u32)
    requires Inv(max, s)
    ensures Inv(max, s.RegisterTunnel(c)) && Inv(max, s.(tunnels := s.tunnels - {c}))
  {
    hide PendingInv;
  }

  predicate SameTunnels(s: State, t: State) {
    t.tunnels == s.tunnels && t.chunks == s.chunks && t.live == s.live && t.nextRx == s.nextRx
  }

  predicate SameWaiters(s: State, t: State) {
    t.pending == s.pending && t.delivered == s.delivered && t.nextWaiter == s.nextWaiter
  }

  lemma {:induction false} TunnelTouches(s: State, f: Frame)
    requires f.channel in s.tunnels
    ensures var (t, outcome) := s.Tunnel(f);
            && SameWaiters(s, t) && t.open == s.open && t.dispatched == s.dispatched
            && (outcome.ToTunnel? || outcome.TunnelGone?)
            && (if outcome.ToTunnel?
                then t.History(outcome.rx) == s.History(outcome.rx) + [f]
                     && forall rx :: rx != outcome.rx ==> t.History(rx) == s.History(rx)
                else t.chunks == s.chunks)
  {
  }

  lemma {:induction false} RespondTouches(s: State, f: Frame)
    ensures var (t, outcome) := s.Respond(f);
            && SameTunnels(s, t) && t.open == s.open && t.dispatched == s.dispatched
            && (outcome.ToWaiter? || outcome.Unroutable?)
            && t.delivered == (if outcome.ToWaiter? then s.delivered[outcome.waiter := f] else s.delivered)
  {
  }

  lemma {:induction false} ControlTouches(s: State, f: Frame)
    ensures var t := s.HandleControl(f);
            && SameTunnels(s, t) && SameWaiters(s, t) && t.dispatched == s.dispatched
            && forall c :: c in t.open && c !in s.open ==> c != 0 && f.verb == OpenChannel(c)
  {
  }

  /** A frame no tunnel takes leaves the tunnels alone. */
  lemma {:induction false} RouteKeepsTunnels(s: State, f: Frame)
    requires f.channel !in s.tunnels
    ensures SameTunnels(s, s.Route(f).0)
  {
    hide State.Tunnel, State.Respond, State.HandleControl;
    RespondTouches(s, f);
    ControlTouches(s, f);
  }

  /** A frame that a tunnel takes, or that is no response, leaves the waiters alone. */
  lemma {:induction false} RouteKeepsWaiters(s: State, f: Frame)
    requires f.channel in s.tunnels || !f.flags.response
    ensures SameWaiters(s, s.Route(f).0)
  {
    hide State.Tunnel, State.Respond, State.HandleControl;
    if f.channel in s.tunnels { TunnelTouches(s, f); }
    ControlTouches(s, f);
  }

  lemma {:induction false} RouteInv(max: nat, s: State, f: Frame)
    requires Inv(max, s)
    ensures Inv(max, s.Route(f).0)
  {
    if f.channel in s.tunnels {
      TunnelRouteInv(max, s, f);
    } else {
      hide PendingInv, TunnelInv, State.HandleControl;
      RouteKeepsTunnels(s, f);
      RespondInv(max, s, f);
      if !f.flags.response { RouteKeepsWaiters(s, f); }
    }
  }

  lemma {:induction false} StepInv(max: nat, s: State, op: Op)
    requires Inv(max, s)
    ensures Inv(max, Step(max, s, op))
  {
    hide PendingInv, TunnelInv, State.Route, State.RegisterPending, State.Abandon, State.RegisterTunnel;
    match op
    case Receive(f) => RouteInv(max, s, f);
    case AddPending(c) => RegisterInv(max, s, c);
    case DropGuard(c) => AbandonInv(max, s, c);
    case AddTunnel(c) => TunnelsInv(max, s, c);
    case RemoveTunnel(c) => TunnelsInv(max, s, c);
    case DropReceiver(rx) =>
    case SetDispatcher =>
  }

  lemma {:induction false} EmptyInv(max: nat)
    ensures Inv(max, EMPTY)
  {
  }

  lemma {:induction false} RunInv(max: nat, ops: seq<Op>, n: nat)
    requires n <= |ops|
    ensures Inv(max, At(max, EMPTY, ops, n))
  {
    hide Step, Inv;
    EmptyInv(max);
    if n > 0 {
      RunInv(max, ops, n - 1);
      StepInv(max, At(max, EMPTY, ops, n - 1), ops[n - 1]);
    }
  }

  // ------------------------------------------------------------------- one outcome

  /** A frame is given to exactly one party, the one its outcome names, and to it once. */
  lemma {:induction false} OneOutcome(s: State, f: Frame)
    ensures var (s', outcome) := s.Route(f);
            && (if outcome.ToTunnel?
                then s'.History(outcome.rx) == s.History(outcome.rx) + [f]
                     && forall rx :: rx != outcome.rx ==> s'.History(rx) == s.History(rx)
                else s'.chunks == s.chunks)
            && s'.delivered == (if outcome.ToWaiter? then s.delivered[outcome.waiter := f] else s.delivered)
            && s'.dispatched == (if outcome.Dispatched? then s.dispatched + [f] else s.dispatched)
  {
    hide State.Tunnel, State.Respond, State.HandleControl, State.History;
    if f.channel in s.tunnels { TunnelTouches(s, f); }
    RespondTouches(s, f);
    ControlTouches(s, f);
    if !s.Route(f).1.ToTunnel? && f.channel !in s.tunnels { RouteKeepsTunnels(s, f); }
  }

  // ------------------------------------------------------------------ tunnel streams

  ghost predicate Ended(chunks: seq<Frame>) {
    chunks != [] && chunks[|chunks| - 1].flags.eos
  }

  /** The frames on `c` received by operations `i`, ..., `n - 1`, up to and including the first EOS. */
  ghost function Stream(ops: seq<Op>, i: nat, n: nat, c: u32): seq<Frame>
    requires i <= n <= |ops|
  {
    if i == n then []
    else
      var before := Stream(ops, i, n - 1, c);
      if !Ended(before) && ops[n - 1].Receive? && ops[n - 1].frame.channel == c then before + [ops[n - 1].frame]
      else before
  }

  /** The receiver's history is the stream so far, and it stays registered until the EOS. */
  ghost predicate Streaming(s: State, c: u32, rx: nat, stream: seq<Frame>) {
    && s.History(rx) == stream && rx in s.live && rx < s.nextRx
    && (if Ended(stream) then forall d :: d in s.tunnels ==> s.tunnels[d] != rx
        else c in s.tunnels && s.tunnels[c] == rx)
  }

  lemma {:induction false} StreamingRoute(max: nat, s: State, f: Frame, c: u32, rx: nat, stream: seq<Frame>)
    requires Inv(max, s) && Streaming(s, c, rx, stream) && f.channel in s.tunnels
    ensures Streaming(s.Tunnel(f).0, c, rx, if !Ended(stream) && f.channel == c then stream + [f] else stream)
  {
    hide PendingInv;
  }

  lemma {:induction false} StreamingKept(s: State, t: State, c: u32, rx: nat, stream: seq<Frame>)
    requires Streaming(s, c, rx, stream)
    requires t.tunnels == s.tunnels && t.chunks == s.chunks && t.nextRx == s.nextRx && rx in t.live
    ensures Streaming(t, c, rx, stream)
  {
  }

  lemma {:induction false} StreamingTunnels(s: State, d: u32, c: u32, rx: nat, stream: seq<Frame>)
    requires Streaming(s, c, rx, stream)
    ensures d !in s.tunnels ==> Streaming(s.RegisterTunnel(d), c, rx, stream)
    ensures d != c ==> Streaming(s.(tunnels := s.tunnels - {d}), c, rx, stream)
  {
  }

  lemma {:induction false} StreamingStep(max: nat, s: State, op: Op, c: u32, rx: nat, stream: seq<Frame>)
    requires Inv(max, s) && Allowed(s, op) && Streaming(s, c, rx, stream)
    requires op != RemoveTunnel(c) && op != DropReceiver(rx)
    ensures Streaming(Step(max, s, op), c, rx,
                      if !Ended(stream) && op.Receive? && op.frame.channel == c then stream + [op.frame] else stream)
  {
    hide Inv, State.Tunnel, State.RegisterTunnel;
    var t := Step(max, s, op);
    match op
    case Receive(f) =>
      if f.channel in s.tunnels {
        hide Streaming;
        StreamingRoute(max, s, f, c, rx, stream);
      } else {
        RouteKeepsTunnels(s, f);
        StreamingKept(s, t, c, rx, stream);
      }
    case AddTunnel(d) => StreamingTunnels(s, d, c, rx, stream);
    case RemoveTunnel(d) => StreamingTunnels(s, d, c, rx, stream);
    case _ => StreamingKept(s, t, c, rx, stream);
  }

  lemma {:induction false} StreamStarts(max: nat, s: State, c: u32)
    requires Inv(max, s)
    ensures Streaming(Step(max, s, AddTunnel(c)), c, s.nextRx, [])
  {
    hide PendingInv;
  }

  /**
   * A tunnel registered on `c` by operation `i` is given exactly the frames received on
   * `c` since, in order, up to and including the first EOS, as long as it is not
   * unregistered and its receiver not dropped.
   */
  lemma {:induction false} TunnelGetsItsStream(max: nat, ops: seq<Op>, i: nat, n: nat, c: u32)
    requires AllowedRun(max, ops) && i < n <= |ops| && ops[i] == AddTunnel(c)
    requires forall k :: i < k < n ==>
        ops[k] != RemoveTunnel(c) && ops[k] != DropReceiver(At(max, EMPTY, ops, i).nextRx)
    ensures Streaming(At(max, EMPTY, ops, n), c, At(max, EMPTY, ops, i).nextRx, Stream(ops, i + 1, n, c))
    decreases n
  {
    hide Inv, Streaming, Allowed, AllowedRun, Step, Ended;
    RunInv(max, ops, n - 1);
    AllowedAt(max, ops, n - 1);
    if i + 1 < n {
      TunnelGetsItsStream(max, ops, i, n - 1, c);
      StreamingStep(max, At(max, EMPTY, ops, n - 1), ops[n - 1], c, At(max, EMPTY, ops, i).nextRx,
          Stream(ops, i + 1, n - 1, c));
    } else {
      StreamStarts(max, At(max, EMPTY, ops, i), c);
    }
  }

  // ----------------------------------------------------------------- pending waiters

  datatype Fate = Waiting | Got(frame: Frame) | Abandoned

  /** The fate of the waiter on `c` after one more operation. */
  ghost function NextFate(fate: Fate, s: State, op: Op, c: u32): Fate {
    if !fate.Waiting? then fate
    else if op == DropGuard(c) then Abandoned
    else if op.Receive? && op.frame.channel == c && op.frame.flags.response && c !in s.tunnels then Got(op.frame)
    else Waiting
  }

  ghost function FateAt(max: nat, ops: seq<Op>, i: nat, n: nat, c: u32): Fate
    requires i <= n <= |ops|
  {
    if i == n then Waiting else NextFate(FateAt(max, ops, i, n - 1, c), At(max, EMPTY, ops, n - 1), ops[n - 1], c)
  }

  lemma {:induction false} FateNext(max: nat, ops: seq<Op>, i: nat, n: nat, c: u32)
    requires i <= n < |ops|
    ensures FateAt(max, ops, i, n + 1, c) == NextFate(FateAt(max, ops, i, n, c), At(max, EMPTY, ops, n), ops[n], c)
  {
    hide NextFate;
  }

  /** No later call registers on channel `c`. */
  predicate NotReused(ops: seq<Op>, i: nat, n: nat, c: u32)
    requires i <= n <= |ops|
  {
    i == n || (ops[n - 1] != AddPending(c) && NotReused(ops, i, n - 1, c))
  }

  lemma {:induction false} FateStart(max: nat, ops: seq<Op>, n: nat, c: u32)
    requires n <= |ops|
    ensures FateAt(max, ops, n, n, c) == Waiting
  {
  }

  ghost predicate Suffers(s: State, c: u32, w: nat, fate: Fate) {
    && w < s.nextWaiter
    && (fate.Waiting? <==> c in s.pending && s.pending[c] == w)
    && (w in s.delivered <==> fate.Got?)
    && (fate.Got? ==> s.delivered[w] == fate.frame)
    && (forall d :: d in s.pending && s.pending[d] == w ==> d == c)
  }

  lemma {:induction false} SuffersRespond(max: nat, s: State, f: Frame, c: u32, w: nat, fate: Fate)
    requires Inv(max, s) && Suffers(s, c, w, fate)
    ensures Suffers(s.Respond(f).0, c, w, if fate.Waiting? && f.channel == c then Got(f) else fate)
  {
    hide TunnelInv;
  }

  lemma {:induction false} SuffersKept(s: State, t: State, c: u32, w: nat, fate: Fate)
    requires Suffers(s, c, w, fate) && SameWaiters(s, t)
    ensures Suffers(t, c, w, fate)
  {
  }

  lemma {:induction false} SuffersPending(max: nat, s: State, d: u32, c: u32, w: nat, fate: Fate)
    requires Suffers(s, c, w, fate)
    ensures d != c ==> Suffers(s.RegisterPending(max, d), c, w, fate)
    ensures Suffers(s.Abandon(d), c, w, if fate.Waiting? && d == c then Abandoned else fate)
  {
  }

  lemma {:induction false} SuffersStep(max: nat, s: State, op: Op, c: u32, w: nat, fate: Fate)
    requires Inv(max, s) && Suffers(s, c, w, fate) && op != AddPending(c)
    ensures Suffers(Step(max, s, op), c, w, NextFate(fate, s, op, c))
  {
    hide Inv, Suffers, State.Respond, State.Tunnel, State.RegisterPending, State.Abandon, State.RegisterTunnel;
    var t := Step(max, s, op);
    match op
    case Receive(f) =>
      if f.channel in s.tunnels || !f.flags.response {
        RouteKeepsWaiters(s, f);
        SuffersKept(s, t, c, w, fate);
      } else {
        SuffersRespond(max, s, f, c, w, fate);
      }
    case AddPending(d) => SuffersPending(max, s, d, c, w, fate);
    case DropGuard(d) => SuffersPending(max, s, d, c, w, fate);
    case AddTunnel(d) =>
      RegisterTunnelKeepsWaiters(s, d);
      SuffersKept(s, t, c, w, fate);
    case _ => SuffersKept(s, t, c, w, fate);
  }

  lemma {:induction false} RegisterTunnelKeepsWaiters(s: State, d: u32)
    ensures SameWaiters(s, s.RegisterTunnel(d))
  {
  }

  lemma {:induction false} WaitingStarts(max: nat, s: State, c: u32)
    requires Inv(max, s) && |s.pending| < max
    ensures Suffers(Step(max, s, AddPending(c)), c, s.nextWaiter, Waiting)
  {
    hide TunnelInv;
  }

  /**
   * A waiter registered on a channel used for no other call is at every later moment in
   * exactly one situation: still pending, given the first RESPONSE frame that arrived on
   * its channel while no tunnel had it, or abandoned by its guard before that.
   */
  lemma {:induction false} WaiterHasOneFate(max: nat, ops: seq<Op>, i: nat, n: nat, c: u32)
    requires i < n <= |ops| && ops[i] == AddPending(c) && |At(max, EMPTY, ops, i).pending| < max
    requires NotReused(ops, i + 1, n, c)
    ensures Suffers(At(max, EMPTY, ops, n), c, At(max, EMPTY, ops, i).nextWaiter, FateAt(max, ops, i + 1, n, c))
    decreases n
  {
    hide Suffers, NextFate, Inv, Step, At, FateAt;
    RunInv(max, ops, n - 1);
    AtNext(max, EMPTY, ops, n - 1);
    FateNext(max, ops, if i + 1 < n then i + 1 else n - 1, n - 1, c);
    if i + 1 < n {
      WaiterHasOneFate(max, ops, i, n - 1, c);
      SuffersStep(max, At(max, EMPTY, ops, n - 1), ops[n - 1], c, At(max, EMPTY, ops, i).nextWaiter,
          FateAt(max, ops, i + 1, n - 1, c));
    } else {
      FateStart(max, ops, n, c);
      WaitingStarts(max, At(max, EMPTY, ops, i), c);
    }
  }

  /** The pending map never outgrows its limit. */
  lemma {:induction false} PendingIsBounded(max: nat, ops: seq<Op>, n: nat)
    requires n <= |ops|
    ensures |At(max, EMPTY, ops, n).pending| <= max
  {
    hide Step;
    RunInv(max, ops, n);
  }

  // -------------------------------------------------------------------- dispatching

  /** Operation `j` is an OpenChannel for `c` that reached the control handler. */
  ghost predicate Opens(max: nat, ops: seq<Op>, j: nat, c: u32)
    requires j < |ops|
  {
    ops[j].Receive? && ops[j].frame.channel == 0 && ops[j].frame.verb == OpenChannel(c)
    && At(max, EMPTY, ops, j).Route(ops[j].frame).1 == Control
  }

  lemma {:induction false} OpenGrows(max: nat, s: State, op: Op, c: u32)
    requires c in Step(max, s, op).open && c !in s.open
    ensures c != 0 && op.Receive? && op.frame.channel == 0 && op.frame.verb == OpenChannel(c)
    ensures s.Route(op.frame).1 == Control
  {
    hide State.Tunnel, State.Respond, State.HandleControl, State.History;
    if op.Receive? {
      if op.frame.channel in s.tunnels { TunnelTouches(s, op.frame); }
      RespondTouches(s, op.frame);
      ControlTouches(s, op.frame);
    }
  }

  lemma {:induction false} OpenedEarlier(max: nat, ops: seq<Op>, n: nat, c: u32) returns (j: nat)
    requires n <= |ops| && c in At(max, EMPTY, ops, n).open
    ensures j < n && Opens(max, ops, j, c) && c != 0
  {
    hide Step, State.Route;
    if c in At(max, EMPTY, ops, n - 1).open {
      j := OpenedEarlier(max, ops, n - 1, c);
    } else {
      OpenGrows(max, At(max, EMPTY, ops, n - 1), ops[n - 1], c);
      j := n - 1;
    }
  }

  /** A channel opened once stays open. */
  lemma {:induction false} OpenStays(max: nat, ops: seq<Op>, j: nat, n: nat, c: u32)
    requires j < n <= |ops| && Opens(max, ops, j, c) && c != 0
    ensures c in At(max, EMPTY, ops, n).open
    decreases n
  {
    hide State.Route;
    StepOpens(max, At(max, EMPTY, ops, n - 1), ops[n - 1]);
    if j < n - 1 {
      OpenStays(max, ops, j, n - 1, c);
    }
  }

  lemma {:induction false} StepOpens(max: nat, s: State, op: Op)
    ensures s.open <= Step(max, s, op).open
    ensures (op.Receive? && s.Route(op.frame).1 == Control
             && op.frame.verb.OpenChannel? && op.frame.verb.channel != 0) ==>
              op.frame.verb.channel in Step(max, s, op).open
  {
    hide State.Tunnel, State.Respond, State.History;
    if op.Receive? {
      if op.frame.channel in s.tunnels { TunnelTouches(s, op.frame); }
      RespondTouches(s, op.frame);
    }
  }

  /** By operation `n` the peer has opened `c`. */
  ghost predicate Opened(max: nat, ops: seq<Op>, n: nat, c: u32)
    requires n <= |ops|
  {
    c != 0 && exists j | 0 <= j < n :: Opens(max, ops, j, c)
  }

  lemma {:induction false} OpenIff(max: nat, ops: seq<Op>, n: nat, c: u32)
    requires n <= |ops|
    ensures c in At(max, EMPTY, ops, n).open <==> Opened(max, ops, n, c)
  {
    hide Opens, Step;
    if c in At(max, EMPTY, ops, n).open {
      var j := OpenedEarlier(max, ops, n, c);
    }
    forall j | 0 <= j < n && c != 0 && Opens(max, ops, j, c) ensures c in At(max, EMPTY, ops, n).open {
      OpenStays(max, ops, j, n, c);
    }
  }

  lemma {:induction false} DispatcherIff(max: nat, ops: seq<Op>, n: nat)
    requires n <= |ops|
    ensures At(max, EMPTY, ops, n).hasDispatcher <==> SetDispatcher in ops[..n]
  {
    hide State.Tunnel, State.Respond, State.HandleControl, State.RegisterPending, State.Abandon;
    if n > 0 {
      var s := At(max, EMPTY, ops, n - 1);
      DispatcherIff(max, ops, n - 1);
      assert ops[..n] == ops[..n - 1] + [ops[n - 1]];
      match ops[n - 1]
      case Receive(f) => RouteKeepsDispatcher(s, f);
      case AddPending(c) => PendingKeepsDispatcher(max, s, c);
      case DropGuard(c) => PendingKeepsDispatcher(max, s, c);
      case _ =>
    }
  }

  lemma {:induction false} RouteKeepsDispatcher(s: State, f: Frame)
    ensures s.Route(f).0.hasDispatcher == s.hasDispatcher
  {
  }

  lemma {:induction false} PendingKeepsDispatcher(max: nat, s: State, c: u32)
    ensures s.RegisterPending(max, c).hasDispatcher == s.hasDispatcher == s.Abandon(c).hasDispatcher
  {
  }

  /** The receiver registered by operation `i` was dropped before operation `n`. */
  ghost predicate Dropped(max: nat, ops: seq<Op>, i: nat, n: nat)
    requires i < n <= |ops|
  {
    DropReceiver(At(max, EMPTY, ops, i).nextRx) in ops[i + 1..n]
  }

  /** Operation `k` ends the tunnel that operation `i` registered on `c`. */
  ghost predicate EndsTunnel(max: nat, ops: seq<Op>, i: nat, k: nat, c: u32)
    requires i < k < |ops|
  {
    || ops[k] == RemoveTunnel(c)
    || (ops[k].Receive? && ops[k].frame.channel == c && (ops[k].frame.flags.eos || Dropped(max, ops, i, k)))
  }

  /** Operation `i` registered a tunnel on `c` that no operation before `n` has ended. */
  ghost predicate Tunnels(max: nat, ops: seq<Op>, i: nat, n: nat, c: u32)
    requires n <= |ops|
  {
    i < n && ops[i] == AddTunnel(c) && forall k | i < k < n :: !EndsTunnel(max, ops, i, k, c)
  }

  /** Channel `c` is mapped to the receiver `rx`, alive unless it was dropped. */
  ghost predicate Holds(s: State, c: u32, rx: nat, dropped: bool) {
    c in s.tunnels && s.tunnels[c] == rx < s.nextRx && (rx in s.live <==> !dropped)
  }

  lemma {:induction false} HoldsStep(max: nat, s: State, op: Op, c: u32, rx: nat, dropped: bool)
    requires Allowed(s, op) && Holds(s, c, rx, dropped)
    requires op != RemoveTunnel(c) && !(op.Receive? && op.frame.channel == c && (op.frame.flags.eos || dropped))
    ensures Holds(Step(max, s, op), c, rx, dropped || op == DropReceiver(rx))
  {
    hide State.HandleControl, State.Respond;
    if op.Receive? && op.frame.channel !in s.tunnels { RouteKeepsTunnels(s, op.frame); }
  }

  lemma {:induction false} TunnelHolds(max: nat, ops: seq<Op>, i: nat, n: nat, c: u32)
    requires AllowedRun(max, ops) && n <= |ops| && Tunnels(max, ops, i, n, c)
    ensures Holds(At(max, EMPTY, ops, n), c, At(max, EMPTY, ops, i).nextRx, Dropped(max, ops, i, n))
    decreases n
  {
    hide Allowed, AllowedRun, Holds, State.Route;
    var rx := At(max, EMPTY, ops, i).nextRx;
    if i < n - 1 {
      TunnelHolds(max, ops, i, n - 1, c);
      AllowedAt(max, ops, n - 1);
      assert !EndsTunnel(max, ops, i, n - 1, c);
      assert ops[i + 1..n] == ops[i + 1..n - 1] + [ops[n - 1]];
      HoldsStep(max, At(max, EMPTY, ops, n - 1), ops[n - 1], c, rx, Dropped(max, ops, i, n - 1));
    } else {
      HoldsStarts(max, At(max, EMPTY, ops, i), c);
    }
  }

  lemma {:induction false} HoldsStarts(max: nat, s: State, c: u32)
    ensures Holds(Step(max, s, AddTunnel(c)), c, s.nextRx, false)
  {
  }

  /** Only a registration maps a channel, and what ends a tunnel unmaps it. */
  lemma {:induction false} TunnelsStep(max: nat, s: State, op: Op, c: u32)
    requires c in Step(max, s, op).tunnels && op != AddTunnel(c)
    ensures c in s.tunnels && op != RemoveTunnel(c)
    ensures !(op.Receive? && op.frame.channel == c && (op.frame.flags.eos || s.tunnels[c] !in s.live))
  {
    hide State.HandleControl, State.Respond;
    if op.Receive? && op.frame.channel !in s.tunnels { RouteKeepsTunnels(s, op.frame); }
  }

  lemma {:induction false} TunnelFound(max: nat, ops: seq<Op>, n: nat, c: u32) returns (i: nat)
    requires AllowedRun(max, ops) && n <= |ops| && c in At(max, EMPTY, ops, n).tunnels
    ensures Tunnels(max, ops, i, n, c)
    decreases n
  {
    hide Allowed, AllowedRun, Dropped, State.Route;
    if ops[n - 1] == AddTunnel(c) {
      i := n - 1;
    } else {
      TunnelsStep(max, At(max, EMPTY, ops, n - 1), ops[n - 1], c);
      i := TunnelFound(max, ops, n - 1, c);
      TunnelHolds(max, ops, i, n - 1, c);
    }
  }

  /** At operation `n` a tunnel has channel `c`. */
  ghost predicate Tunnelled(max: nat, ops: seq<Op>, n: nat, c: u32)
    requires n <= |ops|
  {
    exists i | 0 <= i < n :: Tunnels(max, ops, i, n, c)
  }

  lemma {:induction false} TunnelledIff(max: nat, ops: seq<Op>, n: nat, c: u32)
    requires AllowedRun(max, ops) && n <= |ops|
    ensures c in At(max, EMPTY, ops, n).tunnels <==> Tunnelled(max, ops, n, c)
  {
    hide AllowedRun, Tunnels, Step;
    if c in At(max, EMPTY, ops, n).tunnels {
      var i := TunnelFound(max, ops, n, c);
      assert i < n by { TunnelsBound(max, ops, i, n, c); }
    }
    forall i: nat | i < n && Tunnels(max, ops, i, n, c) ensures c in At(max, EMPTY, ops, n).tunnels {
      TunnelHolds(max, ops, i, n, c);
    }
  }

  lemma {:induction false} TunnelsBound(max: nat, ops: seq<Op>, i: nat, n: nat, c: u32)
    requires n <= |ops| && Tunnels(max, ops, i, n, c)
    ensures i < n
  {
  }

  /**
   * Where each frame of a run goes depends only on what happened before it: whether a
   * tunnel has its channel, whether the peer opened its channel, and whether a dispatcher
   * was set.
   */
  lemma {:induction false} EveryFrameIsPlaced(max: nat, ops: seq<Op>, n: nat)
    requires AllowedRun(max, ops) && n < |ops| && ops[n].Receive?
    ensures var f := ops[n].frame;
            var outcome := At(max, EMPTY, ops, n).Route(f).1;
            var tunnelled := Tunnelled(max, ops, n, f.channel);
            var request := !tunnelled && !f.flags.response && f.channel != 0 && f.flags.data;
            && (outcome.ToTunnel? || outcome.TunnelGone? <==> tunnelled)
            && (outcome.ToWaiter? || outcome.Unroutable? <==> !tunnelled && f.flags.response)
            && (outcome.Control? <==> !tunnelled && !f.flags.response && f.channel == 0)
            && (outcome.NotData? <==> !tunnelled && !f.flags.response && f.channel != 0 && !f.flags.data)
            && (outcome.Rejected? <==> request && !Opened(max, ops, n, f.channel))
            && (outcome.Dispatched? <==>
                request && Opened(max, ops, n, f.channel) && SetDispatcher in ops[..n])
            && (outcome.NoDispatcher? <==>
                request && Opened(max, ops, n, f.channel) && SetDispatcher !in ops[..n])
  {
    hide At, AllowedRun, Tunnelled, Opened;
    TunnelledIff(max, ops, n, ops[n].frame.channel);
    OpenIff(max, ops, n, ops[n].frame.channel);
    DispatcherIff(max, ops, n);
  }

  /** A frame on a tunnelled channel reaches the receiver exactly if that was not dropped. */
  lemma {:induction false} TunnelFrames(max: nat, ops: seq<Op>, i: nat, n: nat)
    requires AllowedRun(max, ops) && n < |ops| && ops[n].Receive?
    requires Tunnels(max, ops, i, n, ops[n].frame.channel)
    ensures var rx := At(max, EMPTY, ops, i).nextRx;
            At(max, EMPTY, ops, n).Route(ops[n].frame).1
            == if Dropped(max, ops, i, n) then TunnelGone(rx) else ToTunnel(rx)
  {
    hide At, AllowedRun, Tunnels, Dropped;
    TunnelHolds(max, ops, i, n, ops[n].frame.channel);
  }

  // ------------------------------------------------------------------------ replies

  /** What the peer is answered when `f` had this outcome. */
  function Answer(outcome: Outcome, f: Frame): seq<Reply> {
    if outcome.Rejected? then [CancelChannel(f.channel)]
    else if outcome.Control? && f.verb == OpenChannel(0) then [CancelChannel(0)]
    else if outcome.Control? && f.verb.Ping? then [Pong(f.verb.payload)]
    else []
  }

  /** The answers owed after `n` operations. */
  ghost function Answers(max: nat, ops: seq<Op>, n: nat): seq<Reply>
    requires n <= |ops|
  {
    if n == 0 then []
    else
      Answers(max, ops, n - 1)
      + if ops[n - 1].Receive?
        then Answer(At(max, EMPTY, ops, n - 1).Route(ops[n - 1].frame).1, ops[n - 1].frame) else []
  }

  lemma {:induction false} RouteAnswers(s: State, f: Frame)
    ensures s.Route(f).0.replies == s.replies + Answer(s.Route(f).1, f)
  {
  }

  lemma {:induction false} StepAnswers(max: nat, s: State, op: Op)
    requires !op.Receive?
    ensures Step(max, s, op).replies == s.replies
  {
  }

  /** The peer gets a Pong for each Ping handled and a CancelChannel for each rejection, in order, and no more. */
  lemma {:induction false} RepliesAreAnswers(max: nat, ops: seq<Op>, n: nat)
    requires n <= |ops|
    ensures At(max, EMPTY, ops, n).replies == Answers(max, ops, n)
  {
    hide State.Route, Answer;
    if n > 0 {
      RepliesAreAnswers(max, ops, n - 1);
      var s, op := At(max, EMPTY, ops, n - 1), ops[n - 1];
      if op.Receive? { RouteAnswers(s, op.frame); } else { StepAnswers(max, s, op); }
    }
  }

  /** The dispatcher sees only DATA frames, never responses, on channels opened before. */
  lemma {:induction false} DispatchedWereOpened(max: nat, ops: seq<Op>, n: nat) returns (j: nat)
    requires n < |ops| && ops[n].Receive?
    requires At(max, EMPTY, ops, n).Route(ops[n].frame).1 == Dispatched
    ensures ops[n].frame.flags.data && !ops[n].frame.flags.response && ops[n].frame.channel != 0
    ensures j < n && Opens(max, ops, j, ops[n].frame.channel)
  {
    j := OpenedEarlier(max, ops, n, ops[n].frame.channel);
  }
}
