/** The lossy loopback (test-channel/src/lib.rs) over the loopback queue
    (channel/src/lib.rs): every packet meets its own fate, a number in [0, 1). */
module Lossy {
  import opened Common

  type Bytes = seq<byte>

  // ---------- the implementation ----------

  class LossyLoopback {
    const px: real
    const pq: real
    var delayed: seq<Bytes>
    var loopback: seq<Bytes>

    ghost function Value(): State<Bytes>
      reads this
    {
      State(loopback, delayed)
    }

    constructor (px: real, pq: real)
      ensures this.px == px && this.pq == pq && Value() == State([], [])
    {
      this.px, this.pq, delayed, loopback := px, pq, [], [];
    }

    method Send(packet: Bytes, fate: real)
      modifies this
      ensures Value() == Sent(old(Value()), packet, packet, fate < px, fate < pq)
    {
      if fate < px {
        loopback := loopback + [packet];
      }
      if fate < pq {
        delayed := delayed + [packet];
      }
    }

    /** Waits while nothing is there; otherwise takes the first packet and then
        lets the delayed ones catch up. */
    method Recv() returns (packet: Option<Bytes>)
      modifies this
      ensures Value() == Received(old(Value()))
      ensures packet == Next(old(Value()))
    {
      if loopback == [] {
        return None;
      }
      packet := Some(loopback[0]);
      loopback := loopback[1..];
      while delayed != []
        invariant loopback + delayed == old(loopback)[1..] + old(delayed)
        decreases |delayed|
      {
        loopback, delayed := loopback + [delayed[0]], delayed[1..];
      }
    }
  }

  class LossyChannel {
    const rx: LossyLoopback
    const tx: LossyLoopback

    constructor (rx: LossyLoopback, tx: LossyLoopback)
      ensures this.rx == rx && this.tx == tx
    {
      this.rx, this.tx := rx, tx;
    }
  }

  /** `LossyChannelBuilder::split`: what one end sends is what the other
      receives, and the two directions do not meet. */
  method Split(px: real, pq: real) returns (a: LossyChannel, b: LossyChannel)
    requires 0.0 <= px <= 1.0 && 0.0 <= pq <= 1.0
    ensures a.tx == b.rx && a.rx == b.tx && a.tx != a.rx
    ensures a.tx.Value() == State([], []) && a.rx.Value() == State([], [])
    ensures forall end :: end in {a.tx, a.rx} ==> end.px == px && end.pq == pq && fresh(end)
  {
    var rx := new LossyLoopback(px, pq);
    var tx := new LossyLoopback(px, pq);
    a := new LossyChannel(rx, tx);
    b := new LossyChannel(tx, rx);
  }

  // ---------- the queues as values ----------

  datatype State<T> = State(loopback: seq<T>, delayed: seq<T>)

  function Sent<T>(s: State<T>, direct: T, late: T, transmit: bool, queue: bool): State<T> {
    State(if transmit then s.loopback + [direct] else s.loopback,
          if queue then s.delayed + [late] else s.delayed)
  }

  function Next<T>(s: State<T>): Option<T> {
    if s.loopback == [] then None else Some(s.loopback[0])
  }

  function Received<T>(s: State<T>): State<T> {
    if s.loopback == [] then s else State(s.loopback[1..] + s.delayed, [])
  }

  // ---------- runs ----------

  datatype Op = Send(packet: Bytes, fate: real) | Recv

  function After(px: real, pq: real, ops: seq<Op>): State<Bytes> {
    if ops == [] then State([], [])
    else
      var s := After(px, pq, ops[..|ops| - 1]);
      match ops[|ops| - 1]
      case Send(packet, fate) => Sent(s, packet, packet, fate < px, fate < pq)
      case Recv => Received(s)
  }

  function Delivered(px: real, pq: real, ops: seq<Op>): seq<Bytes> {
    if ops == [] then []
    else
      var before := ops[..|ops| - 1];
      var next := Next(After(px, pq, before));
      Delivered(px, pq, before) + if ops[|ops| - 1].Recv? && next.Some? then [next.value] else []
  }

  /** The sends of a run, in order. */
  function SendsOf(ops: seq<Op>): seq<Op> {
    if ops == [] then []
    else SendsOf(ops[..|ops| - 1]) + if ops[|ops| - 1].Send? then [ops[|ops| - 1]] else []
  }

  // ---------- the same run, remembering which copy is which ----------

  /** The direct or the delayed copy of send number `index`. */
  datatype Copy = Copy(index: nat, direct: bool)

  function CopiesAfter(px: real, pq: real, ops: seq<Op>): State<Copy> {
    if ops == [] then State([], [])
    else
      var before := ops[..|ops| - 1];
      var s := CopiesAfter(px, pq, before);
      var k := |SendsOf(before)|;
      match ops[|ops| - 1]
      case Send(_, fate) => Sent(s, Copy(k, true), Copy(k, false), fate < px, fate < pq)
      case Recv => Received(s)
  }

  function CopiesDelivered(px: real, pq: real, ops: seq<Op>): seq<Copy> {
    if ops == [] then []
    else
      var before := ops[..|ops| - 1];
      var next := Next(CopiesAfter(px, pq, before));
      CopiesDelivered(px, pq, before) + if ops[|ops| - 1].Recv? && next.Some? then [next.value] else []
  }

  predicate Of(copies: seq<Copy>, sends: seq<Op>, packets: seq<Bytes>) {
    && |copies| == |packets|
    && forall i :: 0 <= i < |copies| ==>
         && copies[i].index < |sends| && sends[copies[i].index].Send?
         && packets[i] == sends[copies[i].index].packet
  }

  /** The copies are copies of the packets that were sent. */
  lemma {:induction false} CopiesAreFaithful(px: real, pq: real, ops: seq<Op>)
    ensures var s, t, sends := After(px, pq, ops), CopiesAfter(px, pq, ops), SendsOf(ops);
            && Of(t.loopback, sends, s.loopback) && Of(t.delayed, sends, s.delayed)
            && Of(CopiesDelivered(px, pq, ops), sends, Delivered(px, pq, ops))
  {
    if ops != [] {
      CopiesAreFaithful(px, pq, ops[..|ops| - 1]);
    }
  }

  /** Everything on its way, in the order in which it will arrive if nothing
      more is sent. */
  function Line(px: real, pq: real, ops: seq<Op>): seq<Copy> {
    var t := CopiesAfter(px, pq, ops);
    CopiesDelivered(px, pq, ops) + t.loopback + t.delayed
  }

  predicate InOrderPerKind(copies: seq<Copy>) {
    forall i, j :: 0 <= i < j < |copies| && copies[i].direct == copies[j].direct ==> copies[i].index < copies[j].index
  }

  /** A copy is in line exactly when the fate of its packet made one. */
  ghost predicate Exactly(px: real, pq: real, copies: seq<Copy>, sends: seq<Op>) {
    forall c: Copy :: c in copies <==>
      c.index < |sends| && sends[c.index].Send? && sends[c.index].fate < if c.direct then px else pq
  }

  lemma LineAfterRecv(px: real, pq: real, ops: seq<Op>)
    requires ops != [] && ops[|ops| - 1].Recv?
    ensures Line(px, pq, ops) == Line(px, pq, ops[..|ops| - 1])
  {
    var before := ops[..|ops| - 1];
    var t, d := CopiesAfter(px, pq, before), CopiesDelivered(px, pq, before);
    if t.loopback != [] {
      Catch(d, t.loopback, t.delayed);
    }
  }

  lemma Catch<T>(d: seq<T>, l: seq<T>, q: seq<T>)
    requires l != []
    ensures d + [l[0]] + (l[1..] + q) + [] == d + l + q
  {
    assert l == [l[0]] + l[1..];
  }

  lemma LineAfterSend(px: real, pq: real, ops: seq<Op>)
    requires ops != [] && ops[|ops| - 1].Send?
    ensures var before, fate := ops[..|ops| - 1], ops[|ops| - 1].fate;
            var t, k := CopiesAfter(px, pq, before), |SendsOf(before)|;
            Line(px, pq, ops) ==
            CopiesDelivered(px, pq, before) + t.loopback + (if fate < px then [Copy(k, true)] else [])
            + t.delayed + (if fate < pq then [Copy(k, false)] else [])
  {
  }

  ghost predicate LineShape(px: real, pq: real, ops: seq<Op>) {
    && InOrderPerKind(Line(px, pq, ops))
    && Exactly(px, pq, Line(px, pq, ops), SendsOf(ops))
    && forall i :: 0 <= i < |CopiesAfter(px, pq, ops).delayed| ==> !CopiesAfter(px, pq, ops).delayed[i].direct
  }

  lemma {:induction false} LineHolds(px: real, pq: real, ops: seq<Op>)
    ensures LineShape(px, pq, ops)
  {
    if ops != [] {
      var before, op := ops[..|ops| - 1], ops[|ops| - 1];
      LineHolds(px, pq, before);
      if op.Recv? {
        LineAfterRecv(px, pq, ops);
      } else {
        LineAfterSend(px, pq, ops);
        var t, k := CopiesAfter(px, pq, before), |SendsOf(before)|;
        var front := CopiesDelivered(px, pq, before) + t.loopback;
        var x := if op.fate < px then [Copy(k, true)] else [];
        var y := if op.fate < pq then [Copy(k, false)] else [];
        Joins(front, x, t.delayed, y, k);
        ExactlyGrows(px, pq, front + t.delayed, front + x + t.delayed + y, SendsOf(before), op);
      }
    }
  }

  lemma ExactlyGrows(px: real, pq: real, copies: seq<Copy>, copies': seq<Copy>, sends: seq<Op>, op: Op)
    requires op.Send? && Exactly(px, pq, copies, sends)
    requires forall c :: c in copies' <==>
               || c in copies
               || (c == Copy(|sends|, true) && op.fate < px)
               || (c == Copy(|sends|, false) && op.fate < pq)
    ensures Exactly(px, pq, copies', sends + [op])
  {
  }

  /** New copies keep each kind in order: the direct one overtakes only delayed
      ones. */
  lemma Joins(front: seq<Copy>, x: seq<Copy>, late: seq<Copy>, y: seq<Copy>, k: nat)
    requires InOrderPerKind(front + late)
    requires forall c :: c in front + late ==> c.index < k
    requires forall i :: 0 <= i < |late| ==> !late[i].direct
    requires x == [] || x == [Copy(k, true)]
    requires y == [] || y == [Copy(k, false)]
    ensures InOrderPerKind(front + x + late + y)
    ensures forall c :: c in front + x + late + y <==> c in front + late || c in x || c in y
  {
    var w, v := front + x + late + y, front + late;
    forall i, j | 0 <= i < j < |w| && w[i].direct == w[j].direct
      ensures w[i].index < w[j].index
    {
      var i' := if i < |front| then i else i - |x|;
      var j' := if j < |front| then j else j - |x|;
      if w[j].index != k {
        assert w[j] == v[j'];
        assert w[i].index == k ==> i == |front| && x != [];
        assert w[i] == v[i'];
      } else {
        assert w[i] in front || w[i] in late;
      }
    }
  }

  // ---------- what may be delivered ----------

  /** Whatever is delivered is a copy of a packet that was sent, made by that
      packet's fate; direct copies arrive in sending order, and so do delayed
      copies; so nothing is invented and no copy arrives twice. */
  lemma DeliveriesInterleaveTwoOrders(px: real, pq: real, ops: seq<Op>)
    ensures var copies, sends := CopiesDelivered(px, pq, ops), SendsOf(ops);
            && Of(copies, sends, Delivered(px, pq, ops))
            && InOrderPerKind(copies)
            && (forall i :: 0 <= i < |copies| ==> sends[copies[i].index].fate < if copies[i].direct then px else pq)
            && (forall i, j :: 0 <= i < j < |copies| ==> copies[i] != copies[j])
  {
    var copies := CopiesDelivered(px, pq, ops);
    CopiesAreFaithful(px, pq, ops);
    LineHolds(px, pq, ops);
    assert forall i :: 0 <= i < |copies| ==> copies[i] == Line(px, pq, ops)[i];
    assert forall i :: 0 <= i < |copies| ==> copies[i] in Line(px, pq, ops);
  }

  /** With `px == 1` and `pq == 0` the channel is reliable: what was delivered,
      followed by what is queued, is what was sent. */
  lemma {:induction false} ReliableChannel(ops: seq<Op>)
    requires forall op :: op in ops && op.Send? ==> 0.0 <= op.fate < 1.0
    ensures After(1.0, 0.0, ops).delayed == []
    ensures Delivered(1.0, 0.0, ops) + After(1.0, 0.0, ops).loopback == PacketsOf(SendsOf(ops))
    ensures Delivered(1.0, 0.0, ops) <= PacketsOf(SendsOf(ops))
  {
    if ops != [] {
      var before, op := ops[..|ops| - 1], ops[|ops| - 1];
      ReliableChannel(before);
      var s, d := After(1.0, 0.0, before), Delivered(1.0, 0.0, before);
      if op.Send? {
        assert SendsOf(ops)[..|SendsOf(before)|] == SendsOf(before);
        assert d + (s.loopback + [op.packet]) == d + s.loopback + [op.packet];
      } else {
        assert SendsOf(ops) == SendsOf(before);
        ReliableRecv(d, s);
      }
    }
  }

  /** A receive moves a packet from the queue to the delivered ones. */
  lemma ReliableRecv(d: seq<Bytes>, s: State<Bytes>)
    requires s.delayed == []
    ensures d + (if Next(s).Some? then [Next(s).value] else []) + Received(s).loopback == d + s.loopback
  {
    if s.loopback != [] {
      Catch(d, s.loopback, []);
    }
  }

  function PacketsOf(sends: seq<Op>): seq<Bytes> {
    if sends == [] then []
    else
      PacketsOf(sends[..|sends| - 1]) + if sends[|sends| - 1].Send? then [sends[|sends| - 1].packet] else []
  }
}
