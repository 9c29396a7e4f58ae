/**
 * The Hello handshake of two sessions joined by two FIFO links, followed by the frames
 * that wait for it. Every send and receive is one step; steps of the two sides interleave.
 */
module Handshake {
  import opened Base
  import opened Bits

  datatype Role = Initiator | Acceptor

  const ATTACHED_STREAMS: nat := 1
  const CALL_ENVELOPE: nat := 2
  const CREDIT_FLOW_CONTROL: nat := 4
  const RAPACE_PING: nat := 8

  const REQUIRED: nat := ATTACHED_STREAMS + CALL_ENVELOPE
  const SUPPORTED: nat := ATTACHED_STREAMS + CALL_ENVELOPE + CREDIT_FLOW_CONTROL + RAPACE_PING

  const PROTOCOL_VERSION_1_0: u32 := 0x0001_0000

  datatype Hello = Hello(version: u32, role: Role, supported: u64)

  /** A frame as the handshake sees it; `hello` is the payload if it decodes as one. */
  datatype Frame = Frame(channel: u32, control: bool, method_: u32, hello: Option<Hello>)

  const HELLO_METHOD: u32 := 0

  datatype HelloError =
    | NotOnChannelZero
    | NotControl
    | NotHello
    | Undecodable
    | WrongRole
    | WrongMajor
    | MissingFeatures

  function Peer(role: Role): Role {
    if role.Initiator? then Acceptor else Initiator
  }

  function HelloFrame(role: Role): Frame {
    Frame(0, true, HELLO_METHOD, Some(Hello(PROTOCOL_VERSION_1_0, role, SUPPORTED)))
  }

  /** The checks on the first frame received, in order. */
  function Validate(role: Role, f: Frame): Result<Hello, HelloError> {
    if f.channel != 0 then Err(NotOnChannelZero)
    else if !f.control then Err(NotControl)
    else if f.method_ != HELLO_METHOD then Err(NotHello)
    else if f.hello.None? then Err(Undecodable)
    else if f.hello.value.role != Peer(role) then Err(WrongRole)
    else if f.hello.value.version / 0x1_0000 != 1 then Err(WrongMajor)
    else if BitAnd(f.hello.value.supported, REQUIRED) != REQUIRED then Err(MissingFeatures)
    else Ok(f.hello.value)
  }

  /** Where one side stands in `run`; `closed` is its transport. */
  datatype Phase = Starting | HalfWay | Ready | Failed

  /** `sent` is everything this side has put on its link, `read` how much it took off the other. */
  datatype Party = Party(role: Role, phase: Phase, sent: seq<Frame>, read: nat)

  datatype State = State(a: Party, b: Party)

  datatype Who = A | B

  /** `Advance` is the next step of the handshake; `Gated` a send that waits for readiness. */
  datatype Step = Advance(who: Who) | Gated(who: Who, frame: Frame)

  function Start(a: Role, b: Role): State {
    State(Party(a, Starting, [], 0), Party(b, Starting, [], 0))
  }

  /** The side must send its Hello next; otherwise it must receive one. */
  predicate SendsNext(p: Party) {
    (p.role.Initiator? && p.phase.Starting?) || (p.role.Acceptor? && p.phase.HalfWay?)
  }

  predicate Active(p: Party) {
    p.phase.Starting? || p.phase.HalfWay?
  }

  /** The side has something to do: sending is always possible, receiving needs a frame or a closed link. */
  predicate CanAdvance(p: Party, peer: Party) {
    Active(p) && (SendsNext(p) || p.read < |peer.sent| || peer.phase.Failed?)
  }

  function AfterSend(p: Party): Party {
    p.(sent := p.sent + [HelloFrame(p.role)], phase := if p.phase.Starting? then HalfWay else Ready)
  }

  function AfterReceive(p: Party, peer: Party): Party {
    if p.read >= |peer.sent| then p.(phase := Failed)
    else
      p.(read := p.read + 1,
         phase := if Validate(p.role, peer.sent[p.read]).Err? then Failed
                  else if p.phase.Starting? then HalfWay
                  else Ready)
  }

  function Advanced(p: Party, peer: Party): Party {
    if !CanAdvance(p, peer) then p
    else if SendsNext(p) then AfterSend(p)
    else AfterReceive(p, peer)
  }

  function GatedSend(p: Party, f: Frame): Party {
    if p.phase.Ready? then p.(sent := p.sent + [f]) else p
  }

  function Next(s: State, step: Step): State {
    match step
    case Advance(A) => s.(a := Advanced(s.a, s.b))
    case Advance(B) => s.(b := Advanced(s.b, s.a))
    case Gated(A, f) => s.(a := GatedSend(s.a, f))
    case Gated(B, f) => s.(b := GatedSend(s.b, f))
  }

  // --------------------------------------------------------------------- invariants

  /** What one side's phase says about what it sent and read, and about its peer. */
  ghost predicate PartyInv(p: Party, peer: Party) {
    && p.read <= |peer.sent|
    && (p.sent != [] ==> p.sent[0] == HelloFrame(p.role))
    && (match p.phase
        case Starting => p.sent == [] && p.read == 0
        case HalfWay => if p.role.Initiator? then |p.sent| == 1 && p.read == 0 else p.sent == [] && p.read == 1
        case Ready => p.sent != [] && p.read == 1
        case Failed => p.role == peer.role == Initiator && |p.sent| == 1)
    && (p.phase.Ready? || (p.phase.HalfWay? && p.role.Acceptor?) ==> p.role == Peer(peer.role))
  }

  ghost predicate Inv(s: State) {
    PartyInv(s.a, s.b) && PartyInv(s.b, s.a)
  }

  /** Our own Hello offers version 1.0 and all four features, and is accepted exactly by a peer of the other role. */
  lemma {:induction false} HelloAccepted(role: Role, from: Role)
    ensures HelloFrame(from).hello == Some(Hello(0x1_0000, from, 15))
    ensures Validate(role, HelloFrame(from)).Ok? <==> from == Peer(role)
  {
    assert Pow2(2) == 4;
    AndMask(SUPPORTED, 2);
  }

  /** A first frame that opens a session: the peer's Hello, of version 1.x and with the two required features. */
  predicate Welcome(role: Role, f: Frame) {
    && f.channel == 0 && f.control && f.method_ == HELLO_METHOD && f.hello.Some?
    && f.hello.value.role != role
    && 0x1_0000 <= f.hello.value.version < 0x2_0000
    && f.hello.value.supported % 4 == 3
  }

  /** Any Hello, from whatever implementation, is accepted exactly if it is welcome, and then unchanged. */
  lemma {:induction false} ValidIffWelcome(role: Role, f: Frame)
    ensures Validate(role, f).Ok? <==> Welcome(role, f)
    ensures Validate(role, f).Ok? ==> f.hello == Some(Validate(role, f).value)
  {
    if f.hello.Some? {
      assert Pow2(2) == 4;
      AndMask(f.hello.value.supported, 2);
    }
  }

  /** What else is wrong with a frame does not matter for the error reported, only what is checked before. */
  lemma {:induction false} FirstFaultIsReported(role: Role, f: Frame)
    ensures Validate(role, f) == Err(NotOnChannelZero) <==> f.channel != 0
    ensures Validate(role, f) == Err(NotControl) <==> f.channel == 0 && !f.control
    ensures Validate(role, f) == Err(NotHello) <==> f.channel == 0 && f.control && f.method_ != HELLO_METHOD
    ensures Validate(role, f) == Err(Undecodable) <==>
            f.channel == 0 && f.control && f.method_ == HELLO_METHOD && f.hello.None?
    ensures Validate(role, f) == Err(WrongRole) <==>
            f.channel == 0 && f.control && f.method_ == HELLO_METHOD && f.hello.Some? && f.hello.value.role == role
    ensures Validate(role, f) == Err(WrongMajor) ==>
            !(0x1_0000 <= f.hello.value.version < 0x2_0000)
    ensures Validate(role, f) == Err(MissingFeatures) ==>
            0x1_0000 <= f.hello.value.version < 0x2_0000 && f.hello.value.supported % 4 != 3
  {
    if f.hello.Some? {
      assert Pow2(2) == 4;
      AndMask(f.hello.value.supported, 2);
    }
  }

  lemma {:induction false} AdvancedInv(p: Party, peer: Party)
    requires PartyInv(p, peer) && PartyInv(peer, p)
    ensures PartyInv(Advanced(p, peer), peer) && PartyInv(peer, Advanced(p, peer))
  {
    hide Validate;
    HelloAccepted(p.role, peer.role);
  }

  lemma {:induction false} GatedInv(p: Party, peer: Party, f: Frame)
    requires PartyInv(p, peer) && PartyInv(peer, p)
    ensures PartyInv(GatedSend(p, f), peer) && PartyInv(peer, GatedSend(p, f))
  {
  }

  lemma {:induction false} NextInv(s: State, step: Step)
    requires Inv(s)
    ensures Inv(Next(s, step)) && Next(s, step).a.role == s.a.role && Next(s, step).b.role == s.b.role
  {
    match step
    case Advance(A) => AdvancedInv(s.a, s.b);
    case Advance(B) => AdvancedInv(s.b, s.a);
    case Gated(A, f) => GatedInv(s.a, s.b, f);
    case Gated(B, f) => GatedInv(s.b, s.a, f);
  }

  /** The state after a list of steps. */
  function After(s: State, steps: seq<Step>): State
    decreases |steps|
  {
    if steps == [] then s else After(Next(s, steps[0]), steps[1..])
  }

  lemma {:induction false} RunInv(s: State, steps: seq<Step>)
    requires Inv(s)
    ensures var r := After(s, steps); Inv(r) && r.a.role == s.a.role && r.b.role == s.b.role
    decreases |steps|
  {
    hide Next, Inv;
    if steps != [] {
      NextInv(s, steps[0]);
      RunInv(Next(s, steps[0]), steps[1..]);
    }
  }

  // ----------------------------------------------------------------------- results

  /** Over every interleaving: whoever gets ready does so with a peer of the other role. */
  lemma {:induction false} ReadyOnlyIfComplementary(a: Role, b: Role, steps: seq<Step>)
    ensures var s := After(Start(a, b), steps);
            && (s.a.phase.Ready? || s.b.phase.Ready? ==> a == Peer(b))
            && (s.a.phase.Failed? || s.b.phase.Failed? ==> a == b == Initiator)
  {
    hide After;
    RunInv(Start(a, b), steps);
  }

  /** An operation that waits for readiness sends its frame exactly when ready, behind that side's Hello. */
  lemma {:induction false} GatedFramesFollowHello(a: Role, b: Role, steps: seq<Step>, who: Who, f: Frame)
    ensures var s := After(Start(a, b), steps);
            var (p, p') := if who.A? then (s.a, Next(s, Gated(who, f)).a) else (s.b, Next(s, Gated(who, f)).b);
            && (p.phase.Ready? <==> p'.sent == p.sent + [f])
            && (p'.sent != p.sent ==> p.phase.Ready? && [HelloFrame(p.role)] <= p.sent)
  {
    hide After;
    RunInv(Start(a, b), steps);
  }

  /** The handshake steps still ahead of one side. */
  function Left(p: Party): nat {
    match p.phase
    case Starting => 2
    case HalfWay => 1
    case _ => 0
  }

  function Remaining(s: State): nat {
    Left(s.a) + Left(s.b)
  }

  /**
   * Whatever the two sides look like, one that has not decided waits exactly while it
   * needs a frame, has read all there is and the link is open; otherwise its next turn
   * takes it a step on, and off an exhausted closed link that step is failure.
   */
  lemma {:induction false} WaitsOnlyForFrames(p: Party, peer: Party)
    requires Active(p)
    ensures Advanced(p, peer) == p <==> !SendsNext(p) && p.read >= |peer.sent| && !peer.phase.Failed?
    ensures Advanced(p, peer) != p ==> Left(Advanced(p, peer)) < Left(p)
    ensures !SendsNext(p) && p.read >= |peer.sent| && peer.phase.Failed? ==> Advanced(p, peer).phase.Failed?
  {
    hide Validate;
  }

  /**
   * Progress. Unless both sides are acceptors, some side can advance as long as one is
   * not through, every advance that happens brings the end one step nearer, and nothing
   * moves it away.
   */
  lemma {:induction false} AdvanceMakesProgress(s: State, step: Step)
    requires Inv(s)
    ensures Remaining(s) > 0 && !(s.a.role.Acceptor? && s.b.role.Acceptor?) ==>
        CanAdvance(s.a, s.b) || CanAdvance(s.b, s.a)
    ensures step == Advance(A) ==> Remaining(Next(s, step)) == Remaining(s) - (if CanAdvance(s.a, s.b) then 1 else 0)
    ensures step == Advance(B) ==> Remaining(Next(s, step)) == Remaining(s) - (if CanAdvance(s.b, s.a) then 1 else 0)
    ensures step.Gated? ==> Remaining(Next(s, step)) == Remaining(s)
  {
    hide Validate;
    HelloAccepted(s.a.role, s.b.role);
    HelloAccepted(s.b.role, s.a.role);
  }

  /** Both sides get a turn. */
  predicate Fair(steps: seq<Step>) {
    Advance(A) in steps && Advance(B) in steps
  }

  function Joined(segments: seq<seq<Step>>): seq<Step> {
    if segments == [] then [] else segments[0] + Joined(segments[1..])
  }

  lemma {:induction false} AfterJoined(s: State, first: seq<Step>, rest: seq<Step>)
    ensures After(s, first + rest) == After(After(s, first), rest)
    decreases |first|
  {
    hide Next;
    if first == [] {
      assert first + rest == rest;
    } else {
      AfterJoined(Next(s, first[0]), first[1..], rest);
      assert (first + rest)[1..] == first[1..] + rest;
    }
  }

  /** What the other side does, and gated sends, leave a side able to advance. */
  lemma {:induction false} StaysAble(s: State, step: Step)
    ensures CanAdvance(s.a, s.b) && step != Advance(A) ==> CanAdvance(Next(s, step).a, Next(s, step).b)
    ensures CanAdvance(s.b, s.a) && step != Advance(B) ==> CanAdvance(Next(s, step).b, Next(s, step).a)
  {
    hide Validate;
  }

  lemma {:induction false} NeverFurther(s: State, steps: seq<Step>)
    requires Inv(s)
    ensures Remaining(After(s, steps)) <= Remaining(s)
    decreases |steps|
  {
    hide Next, Inv, Remaining, CanAdvance;
    if steps != [] {
      NextInv(s, steps[0]);
      AdvanceMakesProgress(s, steps[0]);
      match steps[0] {
        case Advance(A) =>
        case Advance(B) =>
        case Gated(_, _) =>
      }
      NeverFurther(Next(s, steps[0]), steps[1..]);
    }
  }

  /** A side that can advance and gets a turn brings the end nearer. */
  lemma {:induction false} TurnProgress(s: State, steps: seq<Step>, who: Who)
    requires Inv(s) && Advance(who) in steps
    requires if who.A? then CanAdvance(s.a, s.b) else CanAdvance(s.b, s.a)
    ensures Remaining(After(s, steps)) < Remaining(s)
    decreases |steps|
  {
    hide Next, Inv, Remaining, CanAdvance;
    var next := Next(s, steps[0]);
    NextInv(s, steps[0]);
    AdvanceMakesProgress(s, steps[0]);
    if steps[0] == Advance(who) {
      NeverFurther(next, steps[1..]);
    } else {
      StaysAble(s, steps[0]);
      TurnProgress(next, steps[1..], who);
    }
  }

  lemma {:induction false} FairProgress(s: State, steps: seq<Step>)
    requires Inv(s) && Fair(steps) && !(s.a.role.Acceptor? && s.b.role.Acceptor?)
    ensures Remaining(s) == 0 || Remaining(After(s, steps)) < Remaining(s)
  {
    hide Next, Inv, CanAdvance, After;
    if Remaining(s) > 0 {
      AdvanceMakesProgress(s, Advance(A));
      if CanAdvance(s.a, s.b) {
        TurnProgress(s, steps, A);
      } else {
        TurnProgress(s, steps, B);
      }
    }
  }

  lemma {:induction false} SegmentsFinish(s: State, segments: seq<seq<Step>>)
    requires Inv(s) && !(s.a.role.Acceptor? && s.b.role.Acceptor?)
    requires |segments| >= Remaining(s) && forall k :: 0 <= k < |segments| ==> Fair(segments[k])
    ensures Remaining(After(s, Joined(segments))) == 0
    decreases |segments|
  {
    hide Inv, Remaining, After, Fair;
    RunInv(s, Joined(segments));
    NeverFurther(s, Joined(segments));
    if segments != [] && Remaining(s) > 0 {
      var next := After(s, segments[0]);
      FairProgress(s, segments[0]);
      RunInv(s, segments[0]);
      SegmentsFinish(next, segments[1..]);
      AfterJoined(s, segments[0], Joined(segments[1..]));
    }
  }

  /**
   * From every reachable state, every continuation in which both sides get four turns
   * decides the handshake, whatever else happens in between: both sides are ready exactly
   * if the roles are complementary, and two initiators both fail.
   */
  lemma {:induction false} HandshakeCompletes(a: Role, b: Role, steps: seq<Step>, segments: seq<seq<Step>>)
    requires |segments| >= 4 && forall k :: 0 <= k < |segments| ==> Fair(segments[k])
    ensures var s := After(After(Start(a, b), steps), Joined(segments));
            && (a == Peer(b) <==> s.a.phase.Ready? && s.b.phase.Ready?)
            && (a == b == Initiator <==> s.a.phase.Failed? && s.b.phase.Failed?)
  {
    hide After, Joined, Fair;
    var s := After(Start(a, b), steps);
    RunInv(Start(a, b), steps);
    RunInv(s, Joined(segments));
    if !(a == b == Acceptor) {
      SegmentsFinish(s, segments);
    }
  }

  /** Two acceptors wait for each other forever. */
  lemma {:induction false} TwoAcceptorsNeverMove(steps: seq<Step>)
    ensures After(Start(Acceptor, Acceptor), steps) == Start(Acceptor, Acceptor)
    decreases |steps|
  {
    if steps != [] {
      TwoAcceptorsNeverMove(steps[1..]);
    }
  }
}
