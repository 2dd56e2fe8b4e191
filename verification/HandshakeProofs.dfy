/** What every interleaving of the two drivers does. */
module HandshakeProofs {
  import opened Common
  import opened Addresses
  import opened Negotiations
  import opened Transcripts
  import opened HandshakePackets
  import opened Handshakes

  // ---------- the one run there is ----------

  function Said(cfg: Config, j: nat): Talk {
    ShapeHolds(cfg.p1, cfg.p2, j);
    TalkAt(cfg.p1, cfg.p2, j).value
  }

  /** The number of frames: the handshake, or the negotiation if it is longer. */
  function Frames(cfg: Config): nat {
    Max(cfg.Length(), Messages(cfg.p1, cfg.p2))
  }

  function Verdict(cfg: Config): Outcome {
    match Agreed(cfg.p1, cfg.p2)
    case Some(protocol) => Established(protocol)
    case None => Failed(NoProtocol)
  }

  /** Frame `j` carries message `j` of the negotiation, and frame 1, the
      responder's first, the observed address. */
  function PacketAt(cfg: Config, j: nat): HandshakePacket {
    HandshakePacket(Said(cfg, j).msg, if j == 1 then Some(cfg.addr) else None)
  }

  predicate FitsAt(cfg: Config, j: nat) {
    Fits(cfg.std, PacketAt(cfg, j))
  }

  function FrameAt(cfg: Config, j: nat): Frame
    requires FitsAt(cfg, j)
  {
    var bytes := Layout(cfg.std, PacketAt(cfg, j));
    if j < cfg.Length() then Sealed(j, bytes) else Secured(bytes)
  }

  function FramesBefore(cfg: Config, n: nat): seq<Sent>
    requires forall j :: 0 <= j < n ==> FitsAt(cfg, j)
  {
    seq(n, j requires 0 <= j < n => Sent(Speaker(j), FrameAt(cfg, j)))
  }

  /** A driver that has handled `m` frames. */
  function PeerAt(cfg: Config, role: Role, m: nat): Peer {
    var said := Said(cfg, m);
    Peer(
      if role == Initiator then said.initiator else said.responder,
      if Speaker(m) == role then said.msg else None,
      if (role == Initiator) == (m >= 2) then Some(cfg.addr) else None,
      Min(m, cfg.Length()),
      if m >= Frames(cfg) then Done(Verdict(cfg))
      else if m < cfg.Length() then if Speaker(m) == role then HsSend else HsRecv
      else if Speaker(m) == role then TrSend else TrRecv)
  }

  /** The system when frame `n` is due. */
  function Due(cfg: Config, n: nat): System
    requires forall j :: 0 <= j < n ==> FitsAt(cfg, j)
  {
    System(PeerAt(cfg, Initiator, n), PeerAt(cfg, Responder, n), [], [], FramesBefore(cfg, n))
  }

  /** The system when frame `n` is on its way. */
  function Flying(cfg: Config, n: nat): System
    requires forall j :: 0 <= j <= n ==> FitsAt(cfg, j)
  {
    if Speaker(n) == Initiator then
      System(PeerAt(cfg, Initiator, n + 1), PeerAt(cfg, Responder, n),
             [], [FrameAt(cfg, n)], FramesBefore(cfg, n + 1))
    else
      System(PeerAt(cfg, Initiator, n), PeerAt(cfg, Responder, n + 1),
             [FrameAt(cfg, n)], [], FramesBefore(cfg, n + 1))
  }

  /** The system after `k` unblocked steps: frame `k / 2` is sent by an even
      step and read by the odd step that follows. */
  function Canon(cfg: Config, k: nat): System
    requires forall j :: 0 <= j < (k + 1) / 2 ==> FitsAt(cfg, j)
  {
    if k % 2 == 0 then Due(cfg, k / 2) else Flying(cfg, k / 2)
  }

  // ---------- single moves ----------

  /** Who is finished, and with what, around message `j`. */
  lemma SaidFacts(cfg: Config, j: nat)
    ensures var t := Said(cfg, j);
            var sender := if Speaker(j) == Initiator then t.initiator else t.responder;
            && (t.msg.Some? <==> j < Messages(cfg.p1, cfg.p2))
            && (sender.finished <==> j + 1 >= Messages(cfg.p1, cfg.p2))
            && (sender.finished ==> sender.accepted == Agreed(cfg.p1, cfg.p2))
            && (t.msg.None? ==> Over(t.initiator, Agreed(cfg.p1, cfg.p2)) && Over(t.responder, Agreed(cfg.p1, cfg.p2)))
  {
    ShapeHolds(cfg.p1, cfg.p2, j);
    SettledIsAgreed(cfg.p1, cfg.p2);
  }

  /** Reading message `j` is what takes the conversation to message `j + 1`. */
  lemma SaidNext(cfg: Config, j: nat)
    ensures var t, t' := Said(cfg, j), Said(cfg, j + 1);
            if t.msg.None? then t' == t
            else if Speaker(j) == Initiator then
              t'.initiator == t.initiator && Receiving(t.responder, t.msg.value) == Ok((t'.responder, t'.msg))
            else
              t'.responder == t.responder && Receiving(t.initiator, t.msg.value) == Ok((t'.initiator, t'.msg))
  {
    ShapeHolds(cfg.p1, cfg.p2, j + 1);
    var t := Said(cfg, j);
    assert TalkAt(cfg.p1, cfg.p2, j) == Ok(t);
    assert TalkAt(cfg.p1, cfg.p2, j + 1) == Deliver(t, j);
  }

  /** The sender of frame `n` encodes the packet of that frame. */
  lemma Seals(cfg: Config, role: Role, n: nat)
    requires n < Frames(cfg) && Speaker(n) == role && FitsAt(cfg, n)
    ensures Seal(cfg, role, PeerAt(cfg, role, n), PacketAt(cfg, n))
         == Ok((PeerAt(cfg, role, n).(session := Min(n + 1, cfg.Length())), FrameAt(cfg, n)))
  {
  }

  lemma InitiatorGoesOn(cfg: Config, n: nat)
    requires cfg.rounds >= 1 && n < Frames(cfg) && Speaker(n) == Initiator
    ensures InitiatorSent(cfg, PeerAt(cfg, Initiator, n).(session := Min(n + 1, cfg.Length())))
         == PeerAt(cfg, Initiator, n + 1)
  {
    SaidFacts(cfg, n);
    SaidNext(cfg, n);
  }

  lemma ResponderGoesOn(cfg: Config, n: nat)
    requires n < Frames(cfg) && Speaker(n) == Responder
    ensures ResponderSent(PeerAt(cfg, Responder, n).(session := Min(n + 1, cfg.Length())))
         == PeerAt(cfg, Responder, n + 1)
  {
    SaidFacts(cfg, n);
    SaidNext(cfg, n);
  }

  lemma InitiatorSends(cfg: Config, n: nat, inbox: seq<Frame>)
    requires cfg.rounds >= 1
    requires n < Frames(cfg) && Speaker(n) == Initiator && FitsAt(cfg, n)
    ensures InitiatorMove(cfg, PeerAt(cfg, Initiator, n), inbox)
         == Move(PeerAt(cfg, Initiator, n + 1), [FrameAt(cfg, n)])
  {
    Seals(cfg, Initiator, n);
    InitiatorGoesOn(cfg, n);
    assert HandshakePacket(PeerAt(cfg, Initiator, n).next, None) == PacketAt(cfg, n);
  }

  lemma ResponderSends(cfg: Config, n: nat, inbox: seq<Frame>)
    requires n < Frames(cfg) && Speaker(n) == Responder && FitsAt(cfg, n)
    ensures ResponderMove(cfg, PeerAt(cfg, Responder, n), inbox)
         == Move(PeerAt(cfg, Responder, n + 1), [FrameAt(cfg, n)])
  {
    Seals(cfg, Responder, n);
    ResponderGoesOn(cfg, n);
    var s := PeerAt(cfg, Responder, n);
    assert HandshakePacket(s.next, s.addr) == PacketAt(cfg, n);
  }

  /** The reader of frame `n` gets the packet that was put into it. */
  lemma Opens(cfg: Config, role: Role, n: nat)
    requires Faithful(cfg.std) && n < Frames(cfg) && Speaker(n) != role && FitsAt(cfg, n)
    ensures Open(cfg, role, PeerAt(cfg, role, n), FrameAt(cfg, n))
         == Ok((PeerAt(cfg, role, n).(session := Min(n + 1, cfg.Length())), PacketAt(cfg, n)))
  {
    PacketRoundTripExact(cfg.std, PacketAt(cfg, n));
  }

  /** Consuming message `n` is the reader's part of the conversation. */
  lemma Consumes(cfg: Config, role: Role, n: nat, s: Peer)
    requires Speaker(n) != role
    requires s.neg == PeerAt(cfg, role, n).neg
    ensures Consume(s, PacketAt(cfg, n))
         == Ok(s.(neg := PeerAt(cfg, role, n + 1).neg, next := Said(cfg, n + 1).msg))
  {
    SaidNext(cfg, n);
  }

  lemma InitiatorTakes(cfg: Config, n: nat)
    requires cfg.rounds >= 1 && n < Frames(cfg) && Speaker(n) == Responder
    ensures InitiatorRead(PeerAt(cfg, Initiator, n).(session := Min(n + 1, cfg.Length())), PacketAt(cfg, n))
         == Move(PeerAt(cfg, Initiator, n + 1), [])
  {
    var s := PeerAt(cfg, Initiator, n).(session := Min(n + 1, cfg.Length()));
    SaidFacts(cfg, n + 1);
    Consumes(cfg, Initiator, n, s);
    Consumes(cfg, Initiator, n, s.(addr := Some(cfg.addr)));
  }

  lemma ResponderTakes(cfg: Config, n: nat)
    requires n < Frames(cfg) && Speaker(n) == Initiator
    ensures ResponderRead(cfg, PeerAt(cfg, Responder, n).(session := Min(n + 1, cfg.Length())), PacketAt(cfg, n))
         == Move(PeerAt(cfg, Responder, n + 1), [])
  {
    SaidFacts(cfg, n + 1);
    Consumes(cfg, Responder, n, PeerAt(cfg, Responder, n).(session := Min(n + 1, cfg.Length())));
  }

  lemma InitiatorReads(cfg: Config, n: nat)
    requires Faithful(cfg.std) && cfg.rounds >= 1
    requires n < Frames(cfg) && Speaker(n) == Responder && FitsAt(cfg, n)
    ensures InitiatorMove(cfg, PeerAt(cfg, Initiator, n), [FrameAt(cfg, n)])
         == Move(PeerAt(cfg, Initiator, n + 1), [])
  {
    Opens(cfg, Initiator, n);
    InitiatorTakes(cfg, n);
  }

  lemma ResponderReads(cfg: Config, n: nat)
    requires Faithful(cfg.std) && n < Frames(cfg) && Speaker(n) == Initiator && FitsAt(cfg, n)
    ensures ResponderMove(cfg, PeerAt(cfg, Responder, n), [FrameAt(cfg, n)])
         == Move(PeerAt(cfg, Responder, n + 1), [])
  {
    Opens(cfg, Responder, n);
    ResponderTakes(cfg, n);
  }

  // ---------- every schedule ----------

  lemma StepSends(cfg: Config, sys: System, role: Role, s: Peer, s': Peer, peer: Peer, frame: Frame, log: seq<Sent>)
    requires Enabled(s, []) && !Receives(s.pc)
    requires (if role == Initiator then InitiatorMove(cfg, s, []) else ResponderMove(cfg, s, [])) == Move(s', [frame])
    requires sys == if role == Initiator then System(s, peer, [], [], log) else System(peer, s, [], [], log)
    ensures Step(cfg, sys, role) ==
            if role == Initiator then System(s', peer, [], [frame], log + [Sent(role, frame)])
            else System(peer, s', [frame], [], log + [Sent(role, frame)])
  {
    assert Signed(role, [frame]) == [Sent(role, frame)];
  }

  lemma StepReads(cfg: Config, sys: System, role: Role, s: Peer, s': Peer, peer: Peer, frame: Frame, log: seq<Sent>)
    requires Receives(s.pc)
    requires (if role == Initiator then InitiatorMove(cfg, s, [frame]) else ResponderMove(cfg, s, [frame])) == Move(s', [])
    requires sys == if role == Initiator then System(s, peer, [frame], [], log) else System(peer, s, [], [frame], log)
    ensures Step(cfg, sys, role) ==
            if role == Initiator then System(s', peer, [], [], log) else System(peer, s', [], [], log)
  {
  }

  lemma DueSends(cfg: Config, n: nat, sys: System, role: Role, sys': System)
    requires Faithful(cfg.std) && cfg.rounds >= 1 && n < Frames(cfg)
    requires forall j :: 0 <= j <= n ==> FitsAt(cfg, j)
    requires sys == Due(cfg, n) && role == Speaker(n) && sys' == Flying(cfg, n)
    ensures Step(cfg, sys, role) == sys'
  {
    var i, r := PeerAt(cfg, Initiator, n), PeerAt(cfg, Responder, n);
    assert FramesBefore(cfg, n) + [Sent(role, FrameAt(cfg, n))] == FramesBefore(cfg, n + 1);
    if role == Initiator {
      InitiatorSends(cfg, n, []);
      StepSends(cfg, sys, role, i, PeerAt(cfg, Initiator, n + 1), r, FrameAt(cfg, n), FramesBefore(cfg, n));
    } else {
      ResponderSends(cfg, n, []);
      StepSends(cfg, sys, role, r, PeerAt(cfg, Responder, n + 1), i, FrameAt(cfg, n), FramesBefore(cfg, n));
    }
  }

  lemma FlyingIsRead(cfg: Config, n: nat, sys: System, role: Role, sys': System)
    requires Faithful(cfg.std) && cfg.rounds >= 1 && n < Frames(cfg)
    requires forall j :: 0 <= j <= n ==> FitsAt(cfg, j)
    requires sys == Flying(cfg, n) && role == Other(Speaker(n)) && sys' == Due(cfg, n + 1)
    ensures Step(cfg, sys, role) == sys'
  {
    var i, r := PeerAt(cfg, Initiator, n), PeerAt(cfg, Responder, n);
    var i', r' := PeerAt(cfg, Initiator, n + 1), PeerAt(cfg, Responder, n + 1);
    if role == Responder {
      ResponderReads(cfg, n);
      StepReads(cfg, sys, role, r, r', i', FrameAt(cfg, n), FramesBefore(cfg, n + 1));
    } else {
      InitiatorReads(cfg, n);
      StepReads(cfg, sys, role, i, i', r', FrameAt(cfg, n), FramesBefore(cfg, n + 1));
    }
  }

  lemma DueStart(cfg: Config)
    ensures Start(cfg) == Due(cfg, 0)
  {
    assert TalkAt(cfg.p1, cfg.p2, 0).Ok?;
  }

  /** Whose turn step `k` is, if it is anyone's. */
  function Turn(k: nat): Role {
    if k % 2 == 0 then Speaker(k / 2) else Other(Speaker(k / 2))
  }

  predicate ClearBefore(cfg: Config, n: nat) {
    forall j :: 0 <= j < n ==> FitsAt(cfg, j)
  }

  /** Exactly one driver can move, until both are done. */
  lemma OneCanMove(cfg: Config, k: nat)
    requires k <= 2 * Frames(cfg) && ClearBefore(cfg, (k + 1) / 2)
    ensures !CanMove(Canon(cfg, k), Other(Turn(k)))
    ensures CanMove(Canon(cfg, k), Turn(k)) <==> k < 2 * Frames(cfg)
  {
  }

  lemma CanonAt(cfg: Config, n: nat)
    requires ClearBefore(cfg, n)
    ensures Canon(cfg, 2 * n) == Due(cfg, n) && Turn(2 * n) == Speaker(n)
    ensures ClearBefore(cfg, n + 1) ==> Canon(cfg, 2 * n + 1) == Flying(cfg, n)
    ensures Turn(2 * n + 1) == Other(Speaker(n))
  {
    assert 2 * n / 2 == n && (2 * n + 1) / 2 == n && 2 * n % 2 == 0 && (2 * n + 1) % 2 == 1;
  }

  lemma CanonStep(cfg: Config, k: nat)
    requires Faithful(cfg.std) && cfg.rounds >= 1
    requires k < 2 * Frames(cfg) && ClearBefore(cfg, k / 2 + 1)
    ensures Step(cfg, Canon(cfg, k), Turn(k)) == Canon(cfg, k + 1)
  {
    var n := k / 2;
    CanonAt(cfg, n);
    if k == 2 * n {
      DueSends(cfg, n, Canon(cfg, k), Turn(k), Canon(cfg, k + 1));
    } else {
      CanonAt(cfg, n + 1);
      FlyingIsRead(cfg, n, Canon(cfg, k), Turn(k), Canon(cfg, k + 1));
    }
  }

  /** The sender of an over-long name has failed; the other waits for ever. */
  function Stranded(cfg: Config, n: nat): System
    requires ClearBefore(cfg, n)
  {
    var failed := PeerAt(cfg, Speaker(n), n).(pc := Done(Failed(Io)));
    if Speaker(n) == Initiator then Due(cfg, n).(i := failed) else Due(cfg, n).(r := failed)
  }

  lemma DueStrands(cfg: Config, n: nat)
    requires n < Frames(cfg) && ClearBefore(cfg, n) && !FitsAt(cfg, n)
    ensures Step(cfg, Due(cfg, n), Speaker(n)) == Stranded(cfg, n)
    ensures !CanMove(Stranded(cfg, n), Initiator) && !CanMove(Stranded(cfg, n), Responder)
  {
    var s := PeerAt(cfg, Speaker(n), n);
    var addr := if Speaker(n) == Initiator then None else s.addr;
    assert HandshakePacket(s.next, addr).negotiate == PacketAt(cfg, n).negotiate;
    assert !Fits(cfg.std, HandshakePacket(s.next, addr));
  }

  /** Where the run ends: at the last frame, or when the first frame that
      cannot be encoded is due. */
  predicate Cut(cfg: Config, cut: nat) {
    cut <= Frames(cfg) && ClearBefore(cfg, cut) && (cut < Frames(cfg) ==> !FitsAt(cfg, cut))
  }

  function LastStep(cfg: Config, cut: nat): nat {
    if cut < Frames(cfg) then 2 * cut + 1 else 2 * cut
  }

  function At(cfg: Config, cut: nat, k: nat): System
    requires Cut(cfg, cut)
  {
    if k <= 2 * cut then Canon(cfg, k) else Stranded(cfg, cut)
  }

  lemma AtMoves(cfg: Config, cut: nat, k: nat)
    requires Faithful(cfg.std) && cfg.rounds >= 1 && Cut(cfg, cut) && k < LastStep(cfg, cut)
    ensures Step(cfg, At(cfg, cut, k), Turn(k)) == At(cfg, cut, k + 1)
  {
    if k < 2 * cut {
      CanonStep(cfg, k);
    } else {
      DueStrands(cfg, cut);
    }
  }

  lemma AtBlocks(cfg: Config, cut: nat, k: nat, role: Role)
    requires Cut(cfg, cut) && k <= LastStep(cfg, cut)
    ensures CanMove(At(cfg, cut, k), role) <==> k < LastStep(cfg, cut) && role == Turn(k)
  {
    if k <= 2 * cut {
      OneCanMove(cfg, k);
    } else {
      DueStrands(cfg, cut);
    }
  }

  /** Every schedule follows the same run: the state it reaches depends on the
      number of its unblocked steps alone. */
  lemma {:induction false} Confluence(cfg: Config, schedule: seq<Role>, cut: nat)
    requires Faithful(cfg.std) && cfg.rounds >= 1 && Cut(cfg, cut)
    ensures Effective(cfg, schedule) <= LastStep(cfg, cut)
    ensures Exec(cfg, schedule) == At(cfg, cut, Effective(cfg, schedule))
  {
    if schedule == [] {
      DueStart(cfg);
      assert At(cfg, cut, 0) == Due(cfg, 0);
    } else {
      var before, role := schedule[..|schedule| - 1], schedule[|schedule| - 1];
      Confluence(cfg, before, cut);
      var k := Effective(cfg, before);
      AtBlocks(cfg, cut, k, role);
      if CanMove(At(cfg, cut, k), role) {
        AtMoves(cfg, cut, k);
      }
    }
  }

  // ---------- what a run comes to ----------

  predicate BothDone(sys: System) {
    sys.i.pc.Done? && sys.r.pc.Done?
  }

  /** Every name that gets proposed, up to the first one in common, fits a
      one-byte length. */
  predicate ProposalsFit(p1: seq<Str>, p2: seq<Str>) {
    forall j :: 0 <= j <= Settled(p1, p2) && Slot(p1, p2, j).Some? ==> |Slot(p1, p2, j).value| <= 255
  }

  lemma FrameFits(cfg: Config, j: nat)
    requires Faithful(cfg.std)
    ensures FitsAt(cfg, j) <==>
            !(j <= Settled(cfg.p1, cfg.p2) && Slot(cfg.p1, cfg.p2, j).Some? && |Slot(cfg.p1, cfg.p2, j).value| > 255)
  {
    ShapeHolds(cfg.p1, cfg.p2, j);
    EncodesUnlessNameTooLong(cfg.std, PacketAt(cfg, j));
    if j < Settled(cfg.p1, cfg.p2) {
      assert !Settles(cfg.p1, cfg.p2, j);
    }
  }

  lemma ProposalsFitMeansClear(cfg: Config)
    requires Faithful(cfg.std)
    ensures ProposalsFit(cfg.p1, cfg.p2) <==> ClearBefore(cfg, Frames(cfg))
  {
    forall j: nat
      ensures FitsAt(cfg, j) <==>
              !(j <= Settled(cfg.p1, cfg.p2) && Slot(cfg.p1, cfg.p2, j).Some? && |Slot(cfg.p1, cfg.p2, j).value| > 255)
    {
      FrameFits(cfg, j);
    }
  }
}
