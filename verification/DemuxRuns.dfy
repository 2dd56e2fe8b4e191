/** What the demultiplexer does over whole runs: any sequence of arrivals,
    polls, opens and closes, with slots reused in any way. */
module DemuxRuns {
  import opened Common
  import opened Demux
  import Addresses

  datatype Op =
    | Arrival(datagram: Datagram)
    | PollIncoming
    | PollChannel(channel: Channel)
    | Outgoing(channel: Channel)
    | Close(channel: Channel)

  /** The state after one call; the class of the demultiplexer computes it. */
  function After(v: View, op: Op): View {
    match op
    case Arrival(d) => v.(input := v.input + [d])
    case PollIncoming => PolledIncoming(v).0
    case PollChannel(c) => PolledChannel(v, c).0
    case Outgoing(c) => Opened(v, c).0
    case Close(c) => Closed(v, c)
  }

  ghost function Run(ops: seq<Op>): View {
    if ops == [] then Initial() else After(Run(ops[..|ops| - 1]), ops[|ops| - 1])
  }

  /** The datagrams that a call takes from the socket. */
  function Taken(v: View, op: Op): seq<Datagram> {
    var left := |After(v, op).input|;
    if op.Arrival? || left > |v.input| then [] else v.input[..|v.input| - left]
  }

  datatype Reply =
    | Nothing
    | Incoming(channel: Poll<Channel>)
    | Got(packet: Poll<Packet>)
    | Opening(result: Result<Channel, ()>)

  function ReplyTo(v: View, op: Op): Reply {
    match op
    case Arrival(_) => Nothing
    case PollIncoming => Incoming(PolledIncoming(v).1)
    case PollChannel(c) => Got(PolledChannel(v, c).1)
    case Outgoing(c) => Opening(Opened(v, c).1)
    case Close(_) => Nothing
  }

  /** What a call returned for `c`. */
  function Returned(v: View, op: Op, c: Channel): seq<Packet> {
    if op == PollChannel(c) && PolledChannel(v, c).1.Ready? then [PolledChannel(v, c).1.value] else []
  }

  // ---------- histories ----------

  /** The packets received for `c` since it was last closed. */
  ghost function Received(ops: seq<Op>, c: Channel): seq<Packet> {
    if ops == [] then []
    else
      var before, op := ops[..|ops| - 1], ops[|ops| - 1];
      if op == Close(c) then [] else Received(before, c) + PacketsFor(Taken(Run(before), op), c)
  }

  /** The packets that polls of `c` returned since it was last closed. */
  ghost function Delivered(ops: seq<Op>, c: Channel): seq<Packet> {
    if ops == [] then []
    else
      var before, op := ops[..|ops| - 1], ops[|ops| - 1];
      if op == Close(c) then []
      else Delivered(before, c) + Returned(Run(before), op, c)
  }

  /** The channel that `poll_incoming` answered without taking a datagram. */
  function HandedFast(v: View, op: Op): seq<Channel> {
    match ReplyTo(v, op)
    case Incoming(Ready(c)) => if Taken(v, op) == [] then [c] else []
    case _ => []
  }

  /** The channel that `poll_incoming` answered after taking datagrams. */
  function HandedByLoop(v: View, op: Op): seq<Channel> {
    match ReplyTo(v, op)
    case Incoming(Ready(c)) => if Taken(v, op) == [] then [] else [c]
    case _ => []
  }

  /** Whether `c` was handed out by the fast path since it was last closed. */
  ghost predicate HandedOut(ops: seq<Op>, c: Channel) {
    if ops == [] then false
    else
      var before, op := ops[..|ops| - 1], ops[|ops| - 1];
      op != Close(c) && (HandedOut(before, c) || c in HandedFast(Run(before), op))
  }

  /** All answers of the fast path, in order. */
  ghost function FastAnswers(ops: seq<Op>): seq<Channel> {
    if ops == [] then []
    else FastAnswers(ops[..|ops| - 1]) + HandedFast(Run(ops[..|ops| - 1]), ops[|ops| - 1])
  }

  /** The channels of the datagrams that a call takes and that nobody owns, but
      for the one that the call itself registers. */
  function LeftAnnounced(v: View, op: Op): seq<Channel> {
    var unowned := Unowned(Taken(v, op), v.owned);
    if HandedByLoop(v, op) == [] || unowned == [] then unowned else unowned[1..]
  }

  ghost function Announcements(ops: seq<Op>): seq<Channel> {
    if ops == [] then []
    else Announcements(ops[..|ops| - 1]) + LeftAnnounced(Run(ops[..|ops| - 1]), ops[|ops| - 1])
  }

  /** Whether the replies since the last close of `c` registered it: an opening
      that was granted, or an answer of the loop of `poll_incoming`. */
  ghost predicate Registered(ops: seq<Op>, c: Channel) {
    if ops == [] then false
    else
      var before, op := ops[..|ops| - 1], ops[|ops| - 1];
      && op != Close(c)
      && (|| Registered(before, c)
          || (op == Outgoing(c) && ReplyTo(Run(before), op) == Opening(Ok(c)))
          || c in HandedByLoop(Run(before), op))
  }

  function Arrivals(ops: seq<Op>): seq<Datagram> {
    if ops == [] then []
    else
      var op := ops[|ops| - 1];
      Arrivals(ops[..|ops| - 1]) + if op.Arrival? then [op.datagram] else []
  }

  ghost function AllTaken(ops: seq<Op>): seq<Datagram> {
    if ops == [] then []
    else AllTaken(ops[..|ops| - 1]) + Taken(Run(ops[..|ops| - 1]), ops[|ops| - 1])
  }

  // ---------- the implementation, driven through a run ----------

  method Call(s: InnerDtpSocket, op: Op) returns (reply: Reply)
    requires s.Valid()
    modifies s
    ensures s.Valid() && s.view == After(old(s.view), op) && reply == ReplyTo(old(s.view), op)
  {
    match op
    case Arrival(d) =>
      s.Arrive(d);
      reply := Nothing;
    case PollIncoming =>
      var r := s.PollIncoming();
      reply := Incoming(r);
    case PollChannel(c) =>
      var r := s.PollChannel(c);
      reply := Got(r);
    case Outgoing(c) =>
      var r := s.Outgoing(c.peerAddr, c.channelId);
      reply := Opening(r);
    case Close(c) =>
      s.Close(c);
      reply := Nothing;
  }

  /** The run's reply to call number `i`. */
  ghost function ReplyAt(ops: seq<Op>, i: nat): Reply
    requires i < |ops|
  {
    ReplyTo(Run(ops[..i]), ops[i])
  }

  ghost predicate Answers(ops: seq<Op>, replies: seq<Reply>)
    requires |replies| <= |ops|
  {
    forall i :: 0 <= i < |replies| ==> replies[i] == ReplyAt(ops, i)
  }

  lemma RunNext(ops: seq<Op>, n: nat)
    requires n < |ops|
    ensures Run(ops[..n + 1]) == After(Run(ops[..n]), ops[n])
  {
    assert ops[..n + 1][..n] == ops[..n];
  }

  lemma {:induction false} AnswersNext(ops: seq<Op>, replies: seq<Reply>, reply: Reply)
    requires |replies| < |ops| && Answers(ops, replies)
    requires reply == ReplyAt(ops, |replies|)
    ensures Answers(ops, replies + [reply])
  {
    var all := replies + [reply];
    forall i | 0 <= i < |all|
      ensures all[i] == ReplyAt(ops, i)
    {
      if i < |replies| {
        assert all[i] == replies[i];
      }
    }
  }

  method Replay(ops: seq<Op>) returns (s: InnerDtpSocket, replies: seq<Reply>)
    ensures s.Valid() && s.view == Run(ops)
    ensures |replies| == |ops| && Answers(ops, replies)
  {
    s := new InnerDtpSocket();
    replies := [];
    for n := 0 to |ops|
      invariant fresh(s) && s.Valid() && s.view == Run(ops[..n])
      invariant |replies| == n && Answers(ops, replies)
    {
      RunNext(ops, n);
      var reply := Call(s, ops[n]);
      AnswersNext(ops, replies, reply);
      replies := replies + [reply];
    }
    assert ops[..|ops|] == ops;
  }

  /** Whatever calls are made on a new socket, it stands where the run stands,
      it answers what the run answers, and its index is a bijection onto the
      occupied slots. */
  method Drive(ops: seq<Op>) returns (s: InnerDtpSocket, replies: seq<Reply>)
    ensures s.Valid() && s.view == Run(ops)
    ensures |replies| == |ops| && Answers(ops, replies)
    ensures s.channelLookup.Values == s.connections.Keys
    ensures forall c, d :: c in s.channelLookup && d in s.channelLookup && s.channelLookup[c] == s.channelLookup[d]
              ==> c == d
  {
    s, replies := Replay(ops);
    SlotBijection(s.channelLookup, s.owner, s.connections);
  }

  // ---------- single calls ----------

  /** A call of `poll_incoming` takes a prefix of the input and files it. */
  lemma {:induction false} IncomingTakes(v: View, c: Channel) returns (n: nat)
    ensures n <= |v.input| && PolledIncoming(v).0.input == v.input[n..]
    ensures PolledIncoming(v).0.queues[c] == v.queues[c] + PacketsFor(v.input[..n], c)
  {
    if v.announced != [] {
      n := 0;
      assert v.input[0..] == v.input && v.input[..0] == [];
    } else {
      var k := FirstStop(v.input, NotIn(v.owned));
      n := if k < |v.input| then k + 1 else k;
      FiledAppends(v, n, c);
    }
  }

  /** A call of `poll_channel` takes a prefix of the input, files it, and
      removes what it returns from the front of its queue. */
  lemma {:induction false} ChannelTakes(v: View, d: Channel, c: Channel) returns (n: nat)
    ensures n <= |v.input| && PolledChannel(v, d).0.input == v.input[n..]
    ensures v.queues[c] + PacketsFor(v.input[..n], c) ==
            Returned(v, PollChannel(d), c) + PolledChannel(v, d).0.queues[c]
  {
    if v.queues[d] != [] {
      n := 0;
      assert v.input[0..] == v.input && v.input[..0] == [];
    } else {
      var k := FirstStop(v.input, For(d));
      n := if k < |v.input| then k + 1 else k;
      FiledAppends(v, n, c);
      ChannelRound(v, k, d);
    }
  }

  /** `poll_channel` in so many words, for an empty queue: it takes datagrams up
      to and including the first for its channel, whose packet it returns, or
      the first bad one, or all there is. */
  lemma {:induction false} PollChannelStopsAtFirst(v: View, c: Channel) returns (n: nat)
    requires v.queues[c] == []
    ensures n <= |v.input| && PolledChannel(v, c).0.input == v.input[n..] && PolledChannel(v, c).0.owned == v.owned
    ensures forall i :: 0 <= i < n - 1 ==> !Bad(v.input[i]) && ChannelOf(v.input[i]) != c
    ensures match PolledChannel(v, c).1
            case Ready(p) => n > 0 && !Bad(v.input[n - 1]) && ChannelOf(v.input[n - 1]) == c && p == PacketOf(v.input[n - 1])
            case Failed => n > 0 && Bad(v.input[n - 1])
            case Pending => n == |v.input| && forall d :: d in v.input ==> !Bad(d) && ChannelOf(d) != c
    ensures PolledChannel(v, c).0.queues[c] == []
    ensures PolledChannel(v, c).0.announced == v.announced + Unowned(v.input[..n], v.owned)
  {
    var k := FirstStop(v.input, For(c));
    n := if k < |v.input| then k + 1 else k;
    FiledAppends(v, n, c);
    ChannelRound(v, k, c);
    if k < |v.input| && Bad(v.input[k]) {
      FiledAppends(v, k, c);
      assert v.input[..n][..k] == v.input[..k];
    }
  }

  /** `poll_incoming` in so many words, with nothing announced: it takes
      datagrams up to and including the first of an unregistered channel, which
      it registers and returns, or the first bad one, or all there is. */
  lemma {:induction false} PollIncomingStopsAtFirst(v: View) returns (n: nat)
    requires v.announced == []
    ensures n <= |v.input| && PolledIncoming(v).0.input == v.input[n..] && PolledIncoming(v).0.announced == []
    ensures forall i :: 0 <= i < n - 1 ==> !Bad(v.input[i]) && ChannelOf(v.input[i]) in v.owned
    ensures match PolledIncoming(v).1
            case Ready(c) =>
              && n > 0 && !Bad(v.input[n - 1]) && ChannelOf(v.input[n - 1]) == c
              && c !in v.owned && PolledIncoming(v).0.owned == v.owned + {c}
            case Failed => n > 0 && Bad(v.input[n - 1]) && PolledIncoming(v).0.owned == v.owned
            case Pending =>
              && n == |v.input| && PolledIncoming(v).0.owned == v.owned
              && forall d :: d in v.input ==> !Bad(d) && ChannelOf(d) in v.owned
  {
    var k := FirstStop(v.input, NotIn(v.owned));
    n := if k < |v.input| then k + 1 else k;
    IncomingRound(v, k);
  }

  lemma {:induction false} TakenIs(v: View, op: Op, n: nat)
    requires !op.Arrival? && n <= |v.input| && After(v, op).input == v.input[n..]
    ensures Taken(v, op) == v.input[..n] && Taken(v, op) + After(v, op).input == v.input
  {
  }

  lemma {:induction false} TakenAndLeft(v: View, op: Op)
    ensures Taken(v, op) + After(v, op).input == v.input + if op.Arrival? then [op.datagram] else []
  {
    match op
    case Arrival(_) =>
    case PollIncoming =>
      var n := IncomingTakes(v, Channel(Addresses.Addr(Addresses.V6(0), 0), 0));
      TakenIs(v, op, n);
    case PollChannel(c) =>
      var n := ChannelTakes(v, c, c);
      TakenIs(v, op, n);
    case _ => TakenIs(v, op, 0);
  }

  /** With something announced, `poll_incoming` answers the oldest announcement
      and takes nothing; registrations and queues stay. */
  lemma FastPath(v: View)
    requires v.announced != []
    ensures HandedFast(v, PollIncoming) == [v.announced[0]] && HandedByLoop(v, PollIncoming) == []
    ensures Taken(v, PollIncoming) == [] && After(v, PollIncoming) == v.(announced := v.announced[1..])
  {
  }

  /** What the loop takes holds at most one channel that nobody owns: the last. */
  lemma {:induction false} LoopTakes(v: View, k: nat)
    requires v.announced == [] && k == FirstStop(v.input, NotIn(v.owned))
    ensures k == |v.input| || Bad(v.input[k]) ==> Unowned(v.input[..k], v.owned) == []
    ensures k < |v.input| && Bad(v.input[k]) ==> Unowned(v.input[..k + 1], v.owned) == []
    ensures k < |v.input| && !Bad(v.input[k]) ==> Unowned(v.input[..k + 1], v.owned) == [ChannelOf(v.input[k])]
  {
    NothingUnowned(v.input[..k], v.owned);
    if k < |v.input| {
      assert v.input[..k + 1][..k] == v.input[..k] && v.input[..k + 1][k] == v.input[k];
    }
  }

  lemma LoopFinds(v: View, k: nat)
    requires v.announced == [] && k == FirstStop(v.input, NotIn(v.owned)) < |v.input| && !Bad(v.input[k])
    ensures var c, w := ChannelOf(v.input[k]), After(v, PollIncoming);
            && Taken(v, PollIncoming) == v.input[..k + 1]
            && ReplyTo(v, PollIncoming) == Incoming(Ready(c))
            && w.announced == [] && w.owned == v.owned + {c}
  {
    IncomingRound(v, k);
    TakenIs(v, PollIncoming, k + 1);
  }

  lemma LoopFindsNothing(v: View, k: nat)
    requires v.announced == [] && k == FirstStop(v.input, NotIn(v.owned)) && (k < |v.input| ==> Bad(v.input[k]))
    ensures var n, w := if k < |v.input| then k + 1 else k, After(v, PollIncoming);
            && Taken(v, PollIncoming) == v.input[..n]
            && ReplyTo(v, PollIncoming).Incoming? && !ReplyTo(v, PollIncoming).channel.Ready?
            && w.announced == [] && w.owned == v.owned
  {
    IncomingRound(v, k);
    if k < |v.input| {
      TakenIs(v, PollIncoming, k + 1);
    } else {
      TakenIs(v, PollIncoming, k);
    }
  }

  /** With nothing announced, whatever is answered was taken, and the answer is
      the one datagram's channel that nobody owned. */
  lemma {:induction false} SlowPath(v: View)
    requires v.announced == []
    ensures HandedFast(v, PollIncoming) == [] && After(v, PollIncoming).announced == []
    ensures Unowned(Taken(v, PollIncoming), v.owned) == HandedByLoop(v, PollIncoming)
    ensures After(v, PollIncoming).owned ==
            v.owned + if HandedByLoop(v, PollIncoming) == [] then {} else {HandedByLoop(v, PollIncoming)[0]}
  {
    var k := FirstStop(v.input, NotIn(v.owned));
    LoopTakes(v, k);
    if k < |v.input| && !Bad(v.input[k]) {
      LoopFinds(v, k);
    } else {
      LoopFindsNothing(v, k);
    }
  }

  /** With a packet queued, `poll_channel` answers the oldest one and takes
      nothing; everything else stays. */
  lemma QueuedPacketFirst(v: View, c: Channel)
    requires v.queues[c] != []
    ensures ReplyTo(v, PollChannel(c)) == Got(Ready(v.queues[c][0]))
    ensures Taken(v, PollChannel(c)) == []
    ensures After(v, PollChannel(c)) == v.(queues := v.queues[c := v.queues[c][1..]])
  {
  }

  /** Opening and closing take no datagram and leave announcements alone. */
  lemma OnlyPollsTake(v: View, op: Op)
    requires op.Outgoing? || op.Close?
    ensures Taken(v, op) == [] && After(v, op).input == v.input && After(v, op).announced == v.announced
  {
  }

  /** What one call does to the queue of `c`: it appends what it took for `c`
      and removes what it returned for `c`, from the front. */
  lemma {:induction false} QueueAfter(v: View, op: Op, c: Channel)
    requires op != Close(c)
    ensures v.queues[c] + PacketsFor(Taken(v, op), c) == Returned(v, op, c) + After(v, op).queues[c]
  {
    match op
    case PollIncoming =>
      var n := IncomingTakes(v, c);
      TakenIs(v, op, n);
    case PollChannel(d) =>
      var n := ChannelTakes(v, d, c);
      TakenIs(v, op, n);
    case Arrival(_) =>
    case Outgoing(_) => TakenIs(v, op, 0);
    case Close(_) => TakenIs(v, op, 0);
  }

  lemma Shift(r: seq<Packet>, d: seq<Packet>, q: seq<Packet>, p: seq<Packet>, x: seq<Packet>, q': seq<Packet>)
    requires r == d + q && q + p == x + q'
    ensures r + p == d + x + q'
  {
    assert r + p == d + (q + p);
    assert d + x + q' == d + (x + q');
  }

  // ---------- runs ----------

  /** Per channel, what was received since the last close is what was delivered
      followed by what is queued: deliveries are a prefix, in arrival order, of
      the datagrams for that channel. */
  lemma {:induction false} FifoPerChannel(ops: seq<Op>, c: Channel)
    ensures Received(ops, c) == Delivered(ops, c) + Run(ops).queues[c]
    ensures Delivered(ops, c) <= Received(ops, c)
  {
    if ops != [] {
      var before, op := ops[..|ops| - 1], ops[|ops| - 1];
      FifoPerChannel(before, c);
      if op != Close(c) {
        var v := Run(before);
        QueueAfter(v, op, c);
        Shift(Received(before, c), Delivered(before, c), v.queues[c],
              PacketsFor(Taken(v, op), c), Returned(v, op, c), Run(ops).queues[c]);
      }
    }
  }

  lemma Glue<T>(all: seq<T>, input: seq<T>, taken: seq<T>, left: seq<T>, new_: seq<T>)
    requires taken + left == input + new_
    ensures all + taken + left == all + input + new_
  {
    assert all + taken + left == all + (taken + left);
    assert all + input + new_ == all + (input + new_);
  }

  /** No datagram is taken twice or out of order. */
  lemma {:induction false} ArrivalsAreTakenInOrder(ops: seq<Op>)
    ensures AllTaken(ops) + Run(ops).input == Arrivals(ops)
  {
    if ops != [] {
      var before, op := ops[..|ops| - 1], ops[|ops| - 1];
      ArrivalsAreTakenInOrder(before);
      var v := Run(before);
      TakenAndLeft(v, op);
      Glue(AllTaken(before), v.input, Taken(v, op), Run(ops).input, if op.Arrival? then [op.datagram] else []);
    }
  }

  lemma {:induction false} ReceivedMeansAnnounced(ds: seq<Datagram>, owned: set<Channel>, c: Channel)
    requires PacketsFor(ds, c) != [] && c !in owned
    ensures c in Unowned(ds, owned)
  {
    var d := ds[|ds| - 1];
    if Bad(d) || ChannelOf(d) != c {
      ReceivedMeansAnnounced(ds[..|ds| - 1], owned, c);
    }
  }

  ghost predicate Known(v: View, c: Channel, handedOut: bool) {
    v.queues[c] != [] ==> c in v.owned || c in v.announced || handedOut
  }

  lemma FiledIsKnown(v: View, n: nat, c: Channel, handedOut: bool)
    requires n <= |v.input| && Known(v, c, handedOut)
    ensures Known(Filed(v, n), c, handedOut)
  {
    FiledAppends(v, n, c);
    if PacketsFor(v.input[..n], c) != [] && c !in v.owned {
      ReceivedMeansAnnounced(v.input[..n], v.owned, c);
    }
  }

  lemma PollIncomingKeepsKnown(v: View, c: Channel, handedOut: bool)
    requires Known(v, c, handedOut)
    ensures Known(PolledIncoming(v).0, c, handedOut || c in HandedFast(v, PollIncoming))
  {
    if v.announced != [] {
      FastPath(v);
    } else {
      var k := FirstStop(v.input, NotIn(v.owned));
      FiledIsKnown(v, k, c, handedOut);
      if k < |v.input| {
        FiledIsKnown(v, k + 1, c, handedOut);
        IncomingRound(v, k);
      }
    }
  }

  lemma PollChannelKeepsKnown(v: View, d: Channel, c: Channel, handedOut: bool)
    requires Known(v, c, handedOut)
    ensures Known(PolledChannel(v, d).0, c, handedOut)
  {
    if v.queues[d] == [] {
      var k := FirstStop(v.input, For(d));
      FiledIsKnown(v, k, c, handedOut);
      if k < |v.input| {
        FiledIsKnown(v, k + 1, c, handedOut);
      }
    }
  }

  lemma CallKeepsKnown(v: View, op: Op, c: Channel, handedOut: bool)
    requires Known(v, c, handedOut)
    ensures Known(After(v, op), c,
                  op != Close(c) && (handedOut || c in HandedFast(v, op)))
  {
    match op
    case PollIncoming => PollIncomingKeepsKnown(v, c, handedOut);
    case PollChannel(d) => PollChannelKeepsKnown(v, d, c, handedOut);
    case _ =>
  }

  /** No packet is stranded: a channel with a queued packet is owned, or
      announced, or was handed out by the fast path. */
  lemma {:induction false} NoStrandedPacket(ops: seq<Op>, c: Channel)
    ensures Run(ops).queues[c] != [] ==>
              c in Run(ops).owned || c in Run(ops).announced || HandedOut(ops, c)
  {
    if ops != [] {
      var before, op := ops[..|ops| - 1], ops[|ops| - 1];
      NoStrandedPacket(before, c);
      CallKeepsKnown(Run(before), op, c, HandedOut(before, c));
    }
  }

  // ---------- announcements and registrations ----------

  lemma {:induction false} AnnouncedByCall(v: View, op: Op)
    ensures v.announced + LeftAnnounced(v, op) == HandedFast(v, op) + After(v, op).announced
  {
    match op
    case PollIncoming =>
      if v.announced != [] {
        FastPath(v);
        assert v.announced == [v.announced[0]] + v.announced[1..];
      } else {
        SlowPath(v);
      }
    case PollChannel(c) =>
      if v.queues[c] != [] {
        QueuedPacketFirst(v, c);
      } else {
        var n := PollChannelStopsAtFirst(v, c);
        TakenIs(v, op, n);
      }
    case Arrival(_) =>
    case _ => OnlyPollsTake(v, op);
  }

  /** Over every run, the answers of the fast path followed by what is announced
      are the channels nobody owned when their datagrams were taken, in the
      order in which these were taken, without those that the loop registered. */
  lemma {:induction false} AnnouncementsInOrder(ops: seq<Op>)
    ensures FastAnswers(ops) + Run(ops).announced == Announcements(ops)
  {
    if ops != [] {
      var before, op := ops[..|ops| - 1], ops[|ops| - 1];
      AnnouncementsInOrder(before);
      var v := Run(before);
      AnnouncedByCall(v, op);
      Regroup(FastAnswers(before), v.announced, LeftAnnounced(v, op), HandedFast(v, op), Run(ops).announced);
    }
  }

  lemma Regroup<T>(a: seq<T>, b: seq<T>, c: seq<T>, d: seq<T>, e: seq<T>)
    requires b + c == d + e
    ensures a + b + c == a + d + e
  {
    assert a + b + c == a + (b + c);
    assert a + d + e == a + (d + e);
  }

  lemma {:induction false} OwnedAfterCall(v: View, op: Op, c: Channel)
    ensures c in After(v, op).owned <==>
            && op != Close(c)
            && (|| c in v.owned
                || (op == Outgoing(c) && ReplyTo(v, op) == Opening(Ok(c)))
                || c in HandedByLoop(v, op))
  {
    match op
    case PollIncoming =>
      if v.announced != [] {
        FastPath(v);
      } else {
        SlowPath(v);
      }
    case PollChannel(d) =>
      if v.queues[d] == [] {
        var n := PollChannelStopsAtFirst(v, d);
      }
    case _ =>
  }

  /** Over every run, a channel is owned exactly when the replies since its last
      close registered it; no call changes another channel's registration. */
  lemma {:induction false} OwnedIffRegistered(ops: seq<Op>, c: Channel)
    ensures c in Run(ops).owned <==> Registered(ops, c)
  {
    if ops != [] {
      var before, op := ops[..|ops| - 1], ops[|ops| - 1];
      OwnedIffRegistered(before, c);
      OwnedAfterCall(Run(before), op, c);
    }
  }

  /** `outgoing` is refused exactly while the channel is registered. */
  lemma OutgoingGrantedIffFree(ops: seq<Op>, c: Channel)
    ensures ReplyTo(Run(ops), Outgoing(c)) == Opening(if Registered(ops, c) then Err(()) else Ok(c))
  {
    OwnedIffRegistered(ops, c);
  }

  lemma {:induction false} StaysRegistered(ops: seq<Op>, c: Channel, i: nat)
    requires i < |ops| && Registered(ops[..i + 1], c)
    requires forall k :: i < k < |ops| ==> ops[k] != Close(c)
    ensures Registered(ops, c)
    decreases |ops|
  {
    if i == |ops| - 1 {
      assert ops[..i + 1] == ops;
    } else {
      var before := ops[..|ops| - 1];
      assert before[..i + 1] == ops[..i + 1];
      StaysRegistered(before, c, i);
    }
  }

  /** Between two granted openings of a channel it was closed. */
  lemma GrantedOnce(ops: seq<Op>, c: Channel, i: nat, j: nat)
    requires i < j < |ops| && ops[i] == Outgoing(c) && ops[j] == Outgoing(c)
    requires ReplyTo(Run(ops[..i]), ops[i]) == Opening(Ok(c))
    requires ReplyTo(Run(ops[..j]), ops[j]) == Opening(Ok(c))
    ensures exists k :: i < k < j && ops[k] == Close(c)
  {
    if forall k :: i < k < j ==> ops[k] != Close(c) {
      assert ops[..i + 1][..i] == ops[..i];
      assert Registered(ops[..i + 1], c);
      assert ops[..j][..i + 1] == ops[..i + 1];
      StaysRegistered(ops[..j], c, i);
      OutgoingGrantedIffFree(ops[..j], c);
    }
  }

  // ---------- where delivered packets come from ----------

  /** A packet of channel `c` as a datagram: from its peer, with its number in
      the first byte. */
  predicate Carries(d: Datagram, c: Channel, p: Packet) {
    Names(d, c) && d.bytes == p.bytes && d.ecn == p.ecn
  }

  lemma {:induction false} PacketsAreCarried(ds: seq<Datagram>, c: Channel, p: Packet)
    ensures p in PacketsFor(ds, c) <==> exists i :: 0 <= i < |ds| && Carries(ds[i], c, p)
  {
    if ds != [] {
      var n := |ds| - 1;
      PacketsAreCarried(ds[..n], c, p);
      assert p in PacketsFor(ds, c) <==> p in PacketsFor(ds[..n], c) || Carries(ds[n], c, p);
    }
  }

  /** Announced are exactly the channels that nobody owns and that a datagram
      names by its sender and its first byte. */
  lemma {:induction false} UnownedAre(ds: seq<Datagram>, owned: set<Channel>, c: Channel)
    ensures c in Unowned(ds, owned) <==> c !in owned && exists i :: 0 <= i < |ds| && Names(ds[i], c)
  {
    if ds != [] {
      var n := |ds| - 1;
      UnownedAre(ds[..n], owned, c);
      assert c in Unowned(ds, owned) <==> c in Unowned(ds[..n], owned) || (c !in owned && Names(ds[n], c));
    }
  }

  predicate Names(d: Datagram, c: Channel) {
    d.Datagram? && d.from == c.peerAddr && d.bytes != [] && d.bytes[0] == c.channelId
  }

  ghost predicate Carried(ds: seq<Datagram>, c: Channel, p: Packet) {
    exists i :: 0 <= i < |ds| && Carries(ds[i], c, p)
  }

  lemma CarriedIn(a: seq<Datagram>, b: seq<Datagram>, c: Channel, p: Packet)
    ensures Carried(a, c, p) || Carried(b, c, p) ==> Carried(a + b, c, p)
  {
    if Carried(a, c, p) {
      var i :| 0 <= i < |a| && Carries(a[i], c, p);
      assert Carries((a + b)[i], c, p);
    } else if Carried(b, c, p) {
      var i :| 0 <= i < |b| && Carries(b[i], c, p);
      assert Carries((a + b)[|a| + i], c, p);
    }
  }

  lemma {:induction false} ReceivedIsCarried(ops: seq<Op>, c: Channel, p: Packet)
    requires p in Received(ops, c)
    ensures Carried(AllTaken(ops), c, p)
  {
    var before, op := ops[..|ops| - 1], ops[|ops| - 1];
    var taken := Taken(Run(before), op);
    if p in Received(before, c) {
      ReceivedIsCarried(before, c, p);
    } else {
      PacketsAreCarried(taken, c, p);
    }
    CarriedIn(AllTaken(before), taken, c, p);
  }

  /** Over every run, whatever is delivered on a channel came in a datagram from
      that channel's peer whose first byte is the channel's number. */
  lemma DeliveredCameFromPeer(ops: seq<Op>, c: Channel, p: Packet)
    requires p in Delivered(ops, c)
    ensures Carried(Arrivals(ops), c, p)
  {
    FifoPerChannel(ops, c);
    ReceivedIsCarried(ops, c, p);
    ArrivalsAreTakenInOrder(ops);
    CarriedIn(AllTaken(ops), Run(ops).input, c, p);
  }
}
