/** The initiator and responder drivers (efcp/src/lib.rs), as two processes
    that exchange bytes over a lossless in-order duplex channel. A process step
    is one channel operation and the local work up to the next one. */
module Handshakes {
  import opened Common
  import opened Addresses
  import opened Negotiations
  import opened HandshakePackets

  datatype Role = Initiator | Responder

  /** Either handshake message number `index` of the crypto session, or a
      message on the secured channel that replaces it. */
  datatype Frame = Sealed(index: nat, bytes: seq<byte>) | Secured(bytes: seq<byte>)

  /** `Panic` is a failing assertion, or a session used out of turn. */
  datatype Error = Io | Disco | Protocol | NoProtocol | ExternalAddr | Panic

  datatype Outcome = Established(protocol: Str) | Failed(error: Error)

  datatype Pc = HsSend | HsRecv | TrSend | TrRecv | Done(outcome: Outcome)

  /** A driver's variables: the negotiation, `next_neg`, `external_addr`, the
      number of handshake messages its session has processed, and where it is. */
  datatype Peer = Peer(neg: State, next: Option<Message>, addr: Option<Addr>, session: nat, pc: Pc)

  /** The two protocol lists, the address the responder observes, and the
      handshake length `2 * rounds + 1`. */
  datatype Config = Config(std: Std, p1: seq<Str>, p2: seq<Str>, addr: Addr, rounds: nat) {
    function Length(): nat {
      2 * rounds + 1
    }
  }

  function Speaker(j: nat): Role {
    if j % 2 == 0 then Initiator else Responder
  }

  function Other(role: Role): Role {
    if role == Initiator then Responder else Initiator
  }

  // ---------- pieces shared by the drivers ----------

  datatype Move = Move(peer: Peer, out: seq<Frame>)

  function Abort(s: Peer, e: Error): Move {
    Move(s.(pc := Done(Failed(e))), [])
  }

  /** `into_protocol`, which asserts that the negotiation is finished. */
  function Finish(s: Peer): Peer {
    s.(pc := Done(
      if !s.neg.finished then Failed(Panic)
      else if s.neg.accepted.None? then Failed(NoProtocol)
      else Established(s.neg.accepted.value)))
  }

  /** `to_bytes` and, during the handshake, `write_message`. */
  function Seal(cfg: Config, role: Role, s: Peer, p: HandshakePacket): Result<(Peer, Frame), Error> {
    match Encode(cfg.std, p)
    case Err(_) => Err(Io)
    case Ok(bytes) =>
      if s.pc != HsSend then Ok((s, Secured(bytes)))
      else if s.session < cfg.Length() && Speaker(s.session) == role then
        Ok((s.(session := s.session + 1), Sealed(s.session, bytes)))
      else Err(Panic)
  }

  /** `read_message` during the handshake, then `from_bytes`. */
  function Open(cfg: Config, role: Role, s: Peer, frame: Frame): Result<(Peer, HandshakePacket), Error> {
    if s.pc == HsRecv && !(frame.Sealed? && frame.index == s.session
                           && s.session < cfg.Length() && Speaker(s.session) != role) then Err(Disco)
    else if s.pc != HsRecv && frame.Sealed? then Err(Io)
    else
      match Decode(cfg.std, frame.bytes)
      case Err(_) => Err(Io)
      case Ok(p) => Ok((if s.pc == HsRecv then s.(session := s.session + 1) else s, p))
  }

  /** Handing the packet's message, if any, to the negotiation. */
  function Consume(s: Peer, p: HandshakePacket): Result<Peer, Error> {
    match p.negotiate
    case None => Ok(s.(next := None))
    case Some(msg) =>
      match Receiving(s.neg, msg)
      case Err(_) => Err(Protocol)
      case Ok((n, reply)) => Ok(s.(neg := n, next := reply))
  }

  predicate Enabled(s: Peer, inbox: seq<Frame>) {
    match s.pc
    case HsSend => true
    case TrSend => true
    case HsRecv => inbox != []
    case TrRecv => inbox != []
    case Done(_) => false
  }

  // ---------- the initiator ----------

  function InitiatorStart(cfg: Config): Peer {
    var (n, msg) := Initiating(Fresh(cfg.p1));
    Peer(n, Some(msg), None, 0, HsSend)
  }

  function InitiatorLoop(s: Peer): Peer {
    if s.neg.finished then Finish(s) else s.(pc := TrRecv)
  }

  /** After a send: the handshake loop goes on until the session is finished,
      and the loop on the secured channel until the negotiation is. */
  function InitiatorSent(cfg: Config, s: Peer): Peer {
    var s := s.(next := None);
    if s.pc == HsSend && s.session != cfg.Length() then s.(pc := HsRecv)
    else if s.pc == HsSend && s.addr.None? then s.(pc := Done(Failed(ExternalAddr)))
    else InitiatorLoop(s)
  }

  /** Both receiving loops; only the handshake loop looks at the address. */
  function InitiatorRead(s: Peer, p: HandshakePacket): Move {
    if s.pc == HsRecv then
      var s := if p.externalAddr.Some? then s.(addr := p.externalAddr) else s;
      match Consume(s, p)
      case Err(e) => Abort(s, e)
      case Ok(s) => Move(s.(pc := HsSend), [])
    else
      match Consume(s, p)
      case Err(e) => Abort(s, e)
      case Ok(s) => Move(if s.next.None? then Finish(s) else s.(pc := TrSend), [])
  }

  function InitiatorMove(cfg: Config, s: Peer, inbox: seq<Frame>): Move
    requires Enabled(s, inbox)
  {
    match s.pc
    case HsSend =>
      (match Seal(cfg, Initiator, s, HandshakePacket(s.next, None))
       case Err(e) => Abort(s, e)
       case Ok((s, frame)) => Move(InitiatorSent(cfg, s), [frame]))
    case HsRecv =>
      (match Open(cfg, Initiator, s, inbox[0])
       case Err(e) => Abort(s, e)
       case Ok((s, p)) => InitiatorRead(s, p))
    case TrRecv =>
      (match Open(cfg, Initiator, s, inbox[0])
       case Err(e) => Abort(s, e)
       case Ok((s, p)) => InitiatorRead(s, p))
    case TrSend =>
      (match Seal(cfg, Initiator, s, HandshakePacket(s.next, None))
       case Err(e) => Abort(s, e)
       case Ok((s, frame)) => Move(InitiatorSent(cfg, s), [frame]))
  }

  // ---------- the responder ----------

  function ResponderStart(cfg: Config): Peer {
    Peer(Fresh(cfg.p2), None, Some(cfg.addr), 0, HsRecv)
  }

  function ResponderLoop(s: Peer): Peer {
    if s.next.Some? then s.(pc := TrSend) else Finish(s)
  }

  /** After a send, which takes the address along. */
  function ResponderSent(s: Peer): Peer {
    var s := s.(next := None, addr := None);
    if s.pc == HsSend then s.(pc := HsRecv)
    else if s.neg.finished then Finish(s)
    else s.(pc := TrRecv)
  }

  /** Both receiving loops; the handshake loop ends with the session's. */
  function ResponderRead(cfg: Config, s: Peer, p: HandshakePacket): Move {
    match Consume(s, p)
    case Err(e) => Abort(s, e)
    case Ok(s) =>
      Move(if s.pc == HsRecv && s.session != cfg.Length() then s.(pc := HsSend) else ResponderLoop(s), [])
  }

  function ResponderMove(cfg: Config, s: Peer, inbox: seq<Frame>): Move
    requires Enabled(s, inbox)
  {
    match s.pc
    case HsRecv =>
      (match Open(cfg, Responder, s, inbox[0])
       case Err(e) => Abort(s, e)
       case Ok((s, p)) => ResponderRead(cfg, s, p))
    case HsSend =>
      (match Seal(cfg, Responder, s, HandshakePacket(s.next, s.addr))
       case Err(e) => Abort(s, e)
       case Ok((s, frame)) => Move(ResponderSent(s), [frame]))
    case TrSend =>
      (match Seal(cfg, Responder, s, HandshakePacket(s.next, s.addr))
       case Err(e) => Abort(s, e)
       case Ok((s, frame)) => Move(ResponderSent(s), [frame]))
    case TrRecv =>
      (match Open(cfg, Responder, s, inbox[0])
       case Err(e) => Abort(s, e)
       case Ok((s, p)) => ResponderRead(cfg, s, p))
  }

  // ---------- both together ----------

  datatype Sent = Sent(sender: Role, frame: Frame)

  function Signed(role: Role, frames: seq<Frame>): seq<Sent> {
    if frames == [] then [] else [Sent(role, frames[0])] + Signed(role, frames[1..])
  }

  /** Both drivers, the frames in flight to each, and every frame ever sent. */
  datatype System = System(i: Peer, r: Peer, toI: seq<Frame>, toR: seq<Frame>, log: seq<Sent>)

  function Start(cfg: Config): System {
    System(InitiatorStart(cfg), ResponderStart(cfg), [], [], [])
  }

  predicate CanMove(sys: System, role: Role) {
    if role == Initiator then Enabled(sys.i, sys.toI) else Enabled(sys.r, sys.toR)
  }

  predicate Receives(pc: Pc) {
    pc == HsRecv || pc == TrRecv
  }

  /** The scheduler picks `role`; a blocked or finished driver does nothing. */
  function Step(cfg: Config, sys: System, role: Role): System {
    if !CanMove(sys, role) then sys
    else if role == Initiator then
      var m := InitiatorMove(cfg, sys.i, sys.toI);
      sys.(i := m.peer,
           toI := if Receives(sys.i.pc) then sys.toI[1..] else sys.toI,
           toR := sys.toR + m.out,
           log := sys.log + Signed(role, m.out))
    else
      var m := ResponderMove(cfg, sys.r, sys.toR);
      sys.(r := m.peer,
           toR := if Receives(sys.r.pc) then sys.toR[1..] else sys.toR,
           toI := sys.toI + m.out,
           log := sys.log + Signed(role, m.out))
  }

  function Exec(cfg: Config, schedule: seq<Role>): System {
    if schedule == [] then Start(cfg)
    else Step(cfg, Exec(cfg, schedule[..|schedule| - 1]), schedule[|schedule| - 1])
  }

  /** How many of the scheduler's choices were not blocked. */
  function Effective(cfg: Config, schedule: seq<Role>): nat {
    if schedule == [] then 0
    else
      var before := schedule[..|schedule| - 1];
      Effective(cfg, before) + if CanMove(Exec(cfg, before), schedule[|schedule| - 1]) then 1 else 0
  }
}
