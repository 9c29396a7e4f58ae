/**
 * The unpruned session: every channel ever touched keeps its entry. This is the simple
 * form that the pruning session refines, together with its self-checking interpreter.
 */
module UnprunedSession {
  import opened Base
  import opened FlowControl

  function SendIn(m: Channels, c: u32, len: u32, eos: bool): (Channels, Outcome) {
    if c == 0 then (m, Sent)
    else
      var st := Entry(m, c);
      if !st.CanSend() then (m[c := st], SendDropped)
      else if len > st.credits then (m[c := st], NoCredits(len, st.credits))
      else (m[c := if eos then st.Charge(len).MarkLocalEos() else st.Charge(len)], Sent)
  }

  function ReceiveIn(m: Channels, c: u32, eos: bool): (Channels, Outcome) {
    if c == 0 then (m, Delivered)
    else
      var st := Entry(m, c);
      if !st.CanReceive() then (m[c := st], RecvDropped)
      else (m[c := if eos then st.CountReceived().MarkRemoteEos() else st.CountReceived()], Delivered)
  }

  function GrantTo(m: Channels, c: u32, bytes: u32): Channels {
    m[c := Entry(m, c).Granted(bytes)]
  }

  function CancelIn(m: Channels, c: u32): Channels {
    m[c := Entry(m, c).(cancelled := true)]
  }

  /** A control frame of the peer stands for the call it asks for. */
  function ControlIn(m: Channels, control: Control): Channels {
    match control
    case CancelChannel(c) => CancelIn(m, c)
    case GrantCredits(c, bytes) => GrantTo(m, c, bytes)
    case Other => m
  }

  /** The same operations as the pruning session; a sent frame without DATA is no send of this model. */
  function Step(m: Channels, op: Op): (Channels, Outcome) {
    match op
    case Send(f) => if f.flags.data then SendIn(m, f.channel, f.payloadLen, f.flags.eos) else (m, Sent)
    case Recv(f) =>
      if f.channel == 0 && f.flags.control then (ControlIn(m, f.control), Delivered)
      else ReceiveIn(m, f.channel, f.flags.eos)
    case Grant(c, bytes) => (GrantTo(m, c, bytes), Done)
    case Cancel(c) => (CancelIn(m, c), Done)
  }

  function At(m: Channels, ops: seq<Op>, i: nat): Channels
    requires i <= |ops|
  {
    if i == 0 then m else Step(At(m, ops, i - 1), ops[i - 1]).0
  }

  function OutcomeAt(m: Channels, ops: seq<Op>, i: nat): Outcome
    requires i < |ops|
  {
    Step(At(m, ops, i), ops[i]).1
  }

  class SessionModel {
    var channels: Channels

    constructor ()
      ensures channels == map[]
    {
      channels := map[];
    }

    method TrySend(c: u32, len: u32, eos: bool) returns (outcome: Outcome)
      modifies this
      ensures (channels, outcome) == SendIn(old(channels), c, len, eos)
    {
      if c == 0 {
        return Sent;
      }
      var st := Entry(channels, c);
      channels := channels[c := st];
      if !st.CanSend() {
        return SendDropped;
      }
      if len > st.credits {
        return NoCredits(len, st.credits);
      }
      st := st.Charge(len);
      if eos {
        st := st.MarkLocalEos();
      }
      channels := channels[c := st];
      assert channels == old(channels)[c := st];
      return Sent;
    }

    method Recv(c: u32, eos: bool) returns (delivered: bool)
      modifies this
      ensures (channels, if delivered then Delivered else RecvDropped) == ReceiveIn(old(channels), c, eos)
    {
      if c == 0 {
        return true;
      }
      var st := Entry(channels, c);
      channels := channels[c := st];
      if !st.CanReceive() {
        return false;
      }
      st := st.CountReceived();
      if eos {
        st := st.MarkRemoteEos();
      }
      channels := channels[c := st];
      assert channels == old(channels)[c := st];
      return true;
    }

    method GrantCreditsTo(c: u32, bytes: u32)
      modifies this
      ensures channels == GrantTo(old(channels), c, bytes)
    {
      channels := channels[c := Entry(channels, c).Granted(bytes)];
    }

    method Cancel(c: u32)
      modifies this
      ensures channels == CancelIn(old(channels), c)
    {
      channels := channels[c := Entry(channels, c).(cancelled := true)];
    }

    predicate IsCancelled(c: u32)
      reads this
    {
      Entry(channels, c).cancelled
    }

    function GetCredits(c: u32): u32
      reads this
    {
      Entry(channels, c).credits
    }

    function GetLifecycle(c: u32): Lifecycle
      reads this
    {
      Entry(channels, c).lifecycle
    }
  }

  datatype SessionOp =
    | OpSend(channel: u8, payloadLen: u16, eos: bool)
    | OpRecv(channel: u8, eos: bool)
    | OpGrant(channel: u8, bytes: u16)
    | OpCancel(channel: u8)

  /** The transitions that sending an EOS may cause. */
  predicate LocalEosTransition(before: Lifecycle, after: Lifecycle) {
    (before, after) in {(Open, HalfClosedLocal), (HalfClosedRemote, Closed), (HalfClosedLocal, HalfClosedLocal),
                        (Closed, Closed)}
  }

  predicate RemoteEosTransition(before: Lifecycle, after: Lifecycle) {
    (before, after) in {(Open, HalfClosedRemote), (HalfClosedLocal, Closed), (HalfClosedRemote, HalfClosedRemote),
                        (Closed, Closed)}
  }

  method CheckSend(session: SessionModel, c: u32, len: u32, eos: bool) returns (ok: bool)
    modifies session
    ensures ok
  {
    var credits, lifecycle, cancelled := session.GetCredits(c), session.GetLifecycle(c), session.IsCancelled(c);
    var outcome := session.TrySend(c, len, eos);
    match outcome {
      case Sent =>
        if c != 0 {
          var expected := if len <= credits then credits - len else 0;
          if session.GetCredits(c) != expected { return false; }
          if eos && !LocalEosTransition(lifecycle, session.GetLifecycle(c)) { return false; }
        }
      case SendDropped =>
        if session.GetCredits(c) != credits { return false; }
        if !cancelled && lifecycle != HalfClosedLocal && lifecycle != Closed { return false; }
      case NoCredits(need, have) =>
        if len <= credits { return false; }
        if need != len || have != credits { return false; }
        if session.GetCredits(c) != credits { return false; }
      case _ =>
    }
    return true;
  }

  method CheckRecv(session: SessionModel, c: u32, eos: bool) returns (ok: bool)
    modifies session
    ensures ok
  {
    var lifecycle, cancelled := session.GetLifecycle(c), session.IsCancelled(c);
    var delivered := session.Recv(c, eos);
    if delivered {
      if eos && c != 0 && !RemoteEosTransition(lifecycle, session.GetLifecycle(c)) { return false; }
    } else {
      if !cancelled && lifecycle != HalfClosedRemote && lifecycle != Closed { return false; }
    }
    return true;
  }

  /** The interpreter with every one of its checks: no operation list makes one fail. */
  method ExecuteAndVerify(ops: seq<SessionOp>) returns (ok: bool)
    ensures ok
  {
    var session := new SessionModel();
    for i := 0 to |ops| {
      match ops[i] {
        case OpSend(c, len, eos) =>
          var fine := CheckSend(session, c, len, eos);
          if !fine { return false; }
        case OpRecv(c, eos) =>
          var fine := CheckRecv(session, c, eos);
          if !fine { return false; }
        case OpGrant(c, bytes) =>
          var before := session.GetCredits(c);
          session.GrantCreditsTo(c, bytes);
          if session.GetCredits(c) != SaturatingAdd(before, bytes) { return false; }
        case OpCancel(c) =>
          session.Cancel(c);
          if !session.IsCancelled(c) { return false; }
      }
      var c := ops[i].channel;
      if c in session.channels && !session.channels[c].cancelled {
        var st := session.channels[c];
        if st.CanSend() != (st.lifecycle.Open? || st.lifecycle.HalfClosedRemote?) { return false; }
      }
    }
    return true;
  }
}
