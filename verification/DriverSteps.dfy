/** What each step of a driver does in any state and with any frame, also those
    that no honest run reaches (efcp/src/lib.rs). */
module DriverSteps {
  import opened Common
  import opened Addresses
  import opened Negotiations
  import opened NegotiationRuns
  import opened HandshakePackets
  import opened Handshakes

  function MoveOf(cfg: Config, role: Role, s: Peer, inbox: seq<Frame>): Move
    requires Enabled(s, inbox)
  {
    if role == Initiator then InitiatorMove(cfg, s, inbox) else ResponderMove(cfg, s, inbox)
  }

  /** What a driver returns when it ends in this state of the negotiation. */
  function Returns(n: State): Outcome {
    match (n.finished, n.accepted)
    case (true, Some(protocol)) => Established(protocol)
    case (true, None) => Failed(NoProtocol)
    case (false, _) => Failed(Panic)
  }

  /** Handshake message `index` belongs to the initiator when it is even. */
  predicate InTurn(cfg: Config, role: Role, index: nat) {
    index < cfg.Length() && (index % 2 == 0 <==> role == Initiator)
  }

  /** Whether a frame is the one the driver waits for. */
  predicate Fitting(cfg: Config, role: Role, s: Peer, frame: Frame) {
    if s.pc == HsRecv then
      frame.Sealed? && frame.index == s.session && s.session < cfg.Length() && !InTurn(cfg, role, s.session)
    else frame.Secured?
  }

  /** How a receive step fails: out of the handshake's order, on undecodable
      bytes, or on a proposal after an acceptance; and on nothing else. */
  lemma ReadFails(cfg: Config, role: Role, s: Peer, frame: Frame, rest: seq<Frame>)
    requires Receives(s.pc)
    ensures var m, d := MoveOf(cfg, role, s, [frame] + rest), Decode(cfg.std, frame.bytes);
            && m.out == []
            && (!Fitting(cfg, role, s, frame) ==>
                  m.peer.pc == Done(Failed(if s.pc == HsRecv then Disco else Io)))
            && (Fitting(cfg, role, s, frame) && d.Err? ==> m.peer.pc == Done(Failed(Io)))
            && (Fitting(cfg, role, s, frame) && d.Ok? ==>
                  var p := d.value;
                  if p.negotiate.Some? && p.negotiate.value.Propose? && s.neg.accepted.Some?
                  then m.peer.pc == Done(Failed(Protocol))
                  else m.peer.pc !in {Done(Failed(Disco)), Done(Failed(Io)), Done(Failed(Protocol))})
  {
  }

  /** What a receive step that does not fail does to every variable. */
  lemma ReadSucceeds(cfg: Config, role: Role, s: Peer, frame: Frame, rest: seq<Frame>, p: HandshakePacket)
    requires Receives(s.pc) && Fitting(cfg, role, s, frame) && Decode(cfg.std, frame.bytes) == Ok(p)
    requires p.negotiate.Some? && p.negotiate.value.Propose? ==> s.neg.accepted.None?
    ensures var t := MoveOf(cfg, role, s, [frame] + rest).peer;
            && t.session == s.session + (if s.pc == HsRecv then 1 else 0)
            && t.addr == (if role == Initiator && s.pc == HsRecv && p.externalAddr.Some? then p.externalAddr else s.addr)
            && (p.negotiate.None? ==> t.neg == s.neg && t.next == None)
            && (p.negotiate.Some? ==>
                  t.neg == Hear(s.neg, p.negotiate.value) && Ok(t.next) == Replied(s.neg, p.negotiate.value))
            && t.pc ==
               (if s.pc == HsRecv && (role == Initiator || t.session != cfg.Length()) then HsSend
                else if t.next.Some? then TrSend
                else Done(Returns(t.neg)))
  {
    if p.negotiate.Some? {
      ErrorIff(s.neg, p.negotiate.value);
    }
  }

  /** What a send step does: it fails on an over-long name, panics out of turn,
      and else puts out one frame with the packet, which for the responder
      takes the observed address along; the initiator must hold one when the
      handshake is over. */
  lemma SendStep(cfg: Config, role: Role, s: Peer, inbox: seq<Frame>)
    requires s.pc == HsSend || s.pc == TrSend
    ensures var m := MoveOf(cfg, role, s, inbox);
            var e := Encode(cfg.std, HandshakePacket(s.next, if role == Initiator then None else s.addr));
            var t := m.peer;
            if e.Err? then m.out == [] && t.pc == Done(Failed(Io))
            else if s.pc == HsSend && !InTurn(cfg, role, s.session) then m.out == [] && t.pc == Done(Failed(Panic))
            else
              && m.out == [if s.pc == HsSend then Sealed(s.session, e.value) else Secured(e.value)]
              && t.neg == s.neg && t.next == None
              && t.session == s.session + (if s.pc == HsSend then 1 else 0)
              && t.addr == (if role == Initiator then s.addr else None)
              && t.pc ==
                 (if s.pc == HsSend && (role == Responder || t.session != cfg.Length()) then HsRecv
                  else if s.pc == HsSend && t.addr.None? then Done(Failed(ExternalAddr))
                  else if s.neg.finished then Done(Returns(s.neg))
                  else TrRecv)
  {
  }
}
