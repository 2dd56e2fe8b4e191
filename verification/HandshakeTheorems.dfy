/** The promises of the handshake, for every schedule of the two drivers. */
module HandshakeTheorems {
  import opened Common
  import opened Addresses
  import opened Negotiations
  import opened Transcripts
  import opened HandshakePackets
  import opened Handshakes
  import opened HandshakeProofs

  /** What the drivers are given: faithful text conversions and a handshake of
      at least three messages. */
  ghost predicate Sound(cfg: Config) {
    Faithful(cfg.std) && cfg.rounds >= 1
  }

  lemma CutAtEnd(cfg: Config)
    requires Sound(cfg) && ProposalsFit(cfg.p1, cfg.p2)
    ensures Cut(cfg, Frames(cfg))
  {
    ProposalsFitMeansClear(cfg);
  }

  /** Safety: under every schedule exactly one driver can move until both are
      done, which happens after two steps for each frame and no earlier; and a
      driver that is done returns the agreed protocol, or the negotiation error
      when the lists are disjoint. No other error is ever reached. */
  lemma NoDeadlockNoError(cfg: Config, schedule: seq<Role>)
    requires Sound(cfg) && ProposalsFit(cfg.p1, cfg.p2)
    ensures var sys, k := Exec(cfg, schedule), Effective(cfg, schedule);
            && k <= 2 * Frames(cfg)
            && (BothDone(sys) <==> k == 2 * Frames(cfg))
            && (!BothDone(sys) ==> CanMove(sys, Initiator) != CanMove(sys, Responder))
            && (sys.i.pc.Done? ==> sys.i.pc.outcome == Verdict(cfg))
            && (sys.r.pc.Done? ==> sys.r.pc.outcome == Verdict(cfg))
  {
    var n, k := Frames(cfg), Effective(cfg, schedule);
    CutAtEnd(cfg);
    Confluence(cfg, schedule, n);
    AtBlocks(cfg, n, k, Initiator);
    AtBlocks(cfg, n, k, Responder);
    DoneInCanon(cfg, k);
  }

  lemma DoneInCanon(cfg: Config, k: nat)
    requires ClearBefore(cfg, Frames(cfg)) && k <= 2 * Frames(cfg)
    ensures var sys := Canon(cfg, k);
            && (BothDone(sys) <==> k == 2 * Frames(cfg))
            && (sys.i.pc.Done? ==> sys.i.pc.outcome == Verdict(cfg))
            && (sys.r.pc.Done? ==> sys.r.pc.outcome == Verdict(cfg))
  {
  }

  /** Both sides end with the same result: the first entry of the interleaved
      lists that is in both, and the negotiation error exactly when there is
      none. Nothing is left unread, and the observed address has moved from the
      responder to the initiator. */
  lemma CompletedRun(cfg: Config, schedule: seq<Role>)
    requires Sound(cfg) && ProposalsFit(cfg.p1, cfg.p2)
    requires BothDone(Exec(cfg, schedule))
    ensures var sys := Exec(cfg, schedule);
            && sys.i.pc == sys.r.pc
            && (Disjoint(cfg.p1, cfg.p2) ==> sys.i.pc.outcome == Failed(NoProtocol))
            && (!Disjoint(cfg.p1, cfg.p2) ==>
                  && Agreed(cfg.p1, cfg.p2).Some?
                  && sys.i.pc.outcome == Established(Agreed(cfg.p1, cfg.p2).value))
            && sys.toI == [] && sys.toR == []
            && sys.i.addr == Some(cfg.addr) && sys.r.addr == None
            && |sys.log| == Max(2 * cfg.rounds + 1, Messages(cfg.p1, cfg.p2))
  {
    var n := Frames(cfg);
    CutAtEnd(cfg);
    NoDeadlockNoError(cfg, schedule);
    Confluence(cfg, schedule, n);
    CanonAt(cfg, n);
    AgreedNoneIffDisjoint(cfg.p1, cfg.p2);
  }

  /** The frames of a completed run alternate between the drivers and carry the
      messages of the negotiation; the responder's first reply, and no other
      frame, carries the observed address. */
  lemma AddressSentOnce(cfg: Config, schedule: seq<Role>, j: nat)
    requires Sound(cfg) && ProposalsFit(cfg.p1, cfg.p2)
    requires BothDone(Exec(cfg, schedule)) && j < |Exec(cfg, schedule).log|
    ensures var p := Decode(cfg.std, Exec(cfg, schedule).log[j].frame.bytes);
            && Exec(cfg, schedule).log[j].sender == Speaker(j)
            && p.Ok?
            && p.value.externalAddr == (if j == 1 then Some(cfg.addr) else None)
            && TalkAt(cfg.p1, cfg.p2, j).Ok?
            && p.value.negotiate == TalkAt(cfg.p1, cfg.p2, j).value.msg
  {
    var n := Frames(cfg);
    CutAtEnd(cfg);
    NoDeadlockNoError(cfg, schedule);
    Confluence(cfg, schedule, n);
    CanonAt(cfg, n);
    assert Exec(cfg, schedule).log == FramesBefore(cfg, n);
    assert FitsAt(cfg, j);
    PacketRoundTripExact(cfg.std, PacketAt(cfg, j));
    ShapeHolds(cfg.p1, cfg.p2, j);
  }

  // ---------- runs that complete ----------

  lemma TurnIsEffective(cfg: Config, schedule: seq<Role>, role: Role, cut: nat)
    requires Sound(cfg) && Cut(cfg, cut) && Effective(cfg, schedule) < LastStep(cfg, cut)
    requires role == Turn(Effective(cfg, schedule))
    ensures Effective(cfg, schedule + [role]) == Effective(cfg, schedule) + 1
  {
    Confluence(cfg, schedule, cut);
    AtBlocks(cfg, cut, Effective(cfg, schedule), role);
    assert (schedule + [role])[..|schedule|] == schedule;
  }

  lemma {:induction false} EffectiveGrows(cfg: Config, schedule: seq<Role>, block: seq<Role>)
    ensures Effective(cfg, schedule) <= Effective(cfg, schedule + block)
    decreases |block|
  {
    if block == [] {
      assert schedule + block == schedule;
    } else {
      var n := |block| - 1;
      EffectiveGrows(cfg, schedule, block[..n]);
      assert (schedule + block)[..|schedule| + n] == schedule + block[..n];
    }
  }

  /** A stretch of the schedule that picks the driver whose turn it is gets the
      run further. */
  lemma {:induction false} BlockAdvances(cfg: Config, schedule: seq<Role>, block: seq<Role>, cut: nat)
    requires Sound(cfg) && Cut(cfg, cut) && Effective(cfg, schedule) < LastStep(cfg, cut)
    requires Turn(Effective(cfg, schedule)) in block
    ensures Effective(cfg, schedule) < Effective(cfg, schedule + block)
    decreases |block|
  {
    var next, rest := schedule + [block[0]], block[1..];
    assert schedule + block == next + rest;
    EffectiveGrows(cfg, schedule, [block[0]]);
    EffectiveGrows(cfg, next, rest);
    if block[0] == Turn(Effective(cfg, schedule)) {
      TurnIsEffective(cfg, schedule, block[0], cut);
    } else if Effective(cfg, next) == Effective(cfg, schedule) {
      assert block == [block[0]] + rest;
      BlockAdvances(cfg, next, rest, cut);
    }
  }

  function Flatten(blocks: seq<seq<Role>>): seq<Role> {
    if blocks == [] then [] else Flatten(blocks[..|blocks| - 1]) + blocks[|blocks| - 1]
  }

  /** A schedule in which each block picks both drivers, in any order and any
      number of times. */
  predicate PicksBoth(blocks: seq<seq<Role>>) {
    forall i :: 0 <= i < |blocks| ==> Initiator in blocks[i] && Responder in blocks[i]
  }

  lemma {:induction false} BlocksAdvance(cfg: Config, blocks: seq<seq<Role>>, cut: nat)
    requires Sound(cfg) && Cut(cfg, cut) && PicksBoth(blocks)
    ensures Effective(cfg, Flatten(blocks)) >= Min(|blocks|, LastStep(cfg, cut))
  {
    if blocks != [] {
      var before, block := blocks[..|blocks| - 1], blocks[|blocks| - 1];
      BlocksAdvance(cfg, before, cut);
      EffectiveGrows(cfg, Flatten(before), block);
      if Effective(cfg, Flatten(before)) < LastStep(cfg, cut) {
        BlockAdvances(cfg, Flatten(before), block, cut);
      }
    }
  }

  /** Liveness: a scheduler that does not neglect either driver for ever lets
      the handshake complete; two rounds for each frame are enough. */
  lemma FairSchedulesComplete(cfg: Config, blocks: seq<seq<Role>>)
    requires Sound(cfg) && ProposalsFit(cfg.p1, cfg.p2)
    requires PicksBoth(blocks) && |blocks| >= 2 * Frames(cfg)
    ensures BothDone(Exec(cfg, Flatten(blocks)))
  {
    CutAtEnd(cfg);
    BlocksAdvance(cfg, blocks, Frames(cfg));
    NoDeadlockNoError(cfg, Flatten(blocks));
  }

  lemma {:induction false} FirstUnfit(cfg: Config, n: nat) returns (cut: nat)
    requires n <= Frames(cfg) && ClearBefore(cfg, n)
    ensures Cut(cfg, cut)
    decreases Frames(cfg) - n
  {
    if n < Frames(cfg) && FitsAt(cfg, n) {
      cut := FirstUnfit(cfg, n + 1);
    } else {
      cut := n;
    }
  }

  /** With a name of more than 255 bytes among the proposals up to the first
      match, no schedule lets both drivers finish: once neither can move, one
      has failed to encode and the other waits for ever. */
  lemma OverlongNameStrands(cfg: Config, schedule: seq<Role>)
    requires Sound(cfg) && !ProposalsFit(cfg.p1, cfg.p2)
    ensures var sys := Exec(cfg, schedule);
            && !BothDone(sys)
            && (!CanMove(sys, Initiator) && !CanMove(sys, Responder) ==>
                  || (sys.i.pc == Done(Failed(Io)) && Receives(sys.r.pc))
                  || (sys.r.pc == Done(Failed(Io)) && Receives(sys.i.pc)))
  {
    ProposalsFitMeansClear(cfg);
    var cut := FirstUnfit(cfg, 0);
    var k := Effective(cfg, schedule);
    Confluence(cfg, schedule, cut);
    AtBlocks(cfg, cut, k, Turn(k));
    StrandedShape(cfg, cut, k);
  }

  lemma StrandedShape(cfg: Config, cut: nat, k: nat)
    requires Cut(cfg, cut) && cut < Frames(cfg) && k <= LastStep(cfg, cut)
    ensures !BothDone(At(cfg, cut, k))
    ensures k == LastStep(cfg, cut) ==>
              var sys := At(cfg, cut, k);
              || (sys.i.pc == Done(Failed(Io)) && Receives(sys.r.pc))
              || (sys.r.pc == Done(Failed(Io)) && Receives(sys.i.pc))
  {
  }

  /** Every run that keeps picking both drivers gets there: one driver has
      failed to encode and the other waits for ever. */
  lemma OverlongNameStrandsFairRuns(cfg: Config, blocks: seq<seq<Role>>)
    requires Sound(cfg) && !ProposalsFit(cfg.p1, cfg.p2)
    requires PicksBoth(blocks) && |blocks| >= 2 * Frames(cfg)
    ensures var sys := Exec(cfg, Flatten(blocks));
            && !CanMove(sys, Initiator) && !CanMove(sys, Responder)
            && (|| (sys.i.pc == Done(Failed(Io)) && Receives(sys.r.pc))
                || (sys.r.pc == Done(Failed(Io)) && Receives(sys.i.pc)))
  {
    ProposalsFitMeansClear(cfg);
    var cut := FirstUnfit(cfg, 0);
    var k := Effective(cfg, Flatten(blocks));
    BlocksAdvance(cfg, blocks, cut);
    Confluence(cfg, Flatten(blocks), cut);
    AtBlocks(cfg, cut, k, Initiator);
    AtBlocks(cfg, cut, k, Responder);
    StrandedShape(cfg, cut, k);
  }

  /** 256 times the letter a. */
  function LongName(): Str {
    var name := seq(256, _ => 97);
    AsciiIsUtf8(name);
    name
  }

  /** An input that fails: the initiator offers one over-long name. */
  lemma LongNameDoesNotFit()
    ensures !ProposalsFit([LongName()], [])
  {
    var p1, p2: seq<Str> := [LongName()], [];
    assert Slot(p1, p2, 0) == Some(LongName());
    assert |Slot(p1, p2, 0).value| == 256;
  }

  predicate Completes(cfg: Config, schedule: seq<Role>) {
    BothDone(Exec(cfg, schedule))
  }

  lemma RoundRobinCompletes(cfg: Config) returns (schedule: seq<Role>)
    requires Sound(cfg) && ProposalsFit(cfg.p1, cfg.p2)
    ensures Completes(cfg, schedule)
  {
    var blocks := seq(2 * Frames(cfg), _ => [Initiator, Responder]);
    FairSchedulesComplete(cfg, blocks);
    schedule := Flatten(blocks);
  }

  /** A handshake can complete if and only if every proposal that is due fits. */
  lemma CompletesIffProposalsFit(cfg: Config)
    requires Sound(cfg)
    ensures (exists schedule :: Completes(cfg, schedule)) <==> ProposalsFit(cfg.p1, cfg.p2)
  {
    if ProposalsFit(cfg.p1, cfg.p2) {
      var schedule := RoundRobinCompletes(cfg);
    } else {
      forall schedule
        ensures !Completes(cfg, schedule)
      {
        OverlongNameStrands(cfg, schedule);
      }
    }
  }
}
