/** What the parameters of the lossy channel mean: the share of fates behind
    each condition against the reported probability, which packets ever arrive,
    and the documented modes (test-channel/src/lib.rs). */
module LossyModes {
  import opened Common
  import opened Lossy

  predicate Fair(ops: seq<Op>) {
    forall op :: op in ops && op.Send? ==> 0.0 <= op.fate < 1.0
  }

  // ---------- fates and reported probabilities ----------

  datatype Tx = Success | Delay | Duplicate | Drop

  function Condition(px: real, pq: real, fate: real): Tx {
    match (fate < px, fate < pq)
    case (true, false) => Success
    case (false, true) => Delay
    case (true, true) => Duplicate
    case (false, false) => Drop
  }

  /** What a send does to the queues tells its condition. */
  lemma ConditionOfSend(s: State<Bytes>, packet: Bytes, px: real, pq: real, fate: real)
    ensures var t, tx := Sent(s, packet, packet, fate < px, fate < pq), Condition(px, pq, fate);
            && (tx == Success <==> t == State(s.loopback + [packet], s.delayed))
            && (tx == Delay <==> t == State(s.loopback, s.delayed + [packet]))
            && (tx == Duplicate <==> t == State(s.loopback + [packet], s.delayed + [packet]))
            && (tx == Drop <==> t == s)
  {
    assert |s.loopback + [packet]| == |s.loopback| + 1 && |s.delayed + [packet]| == |s.delayed| + 1;
  }

  function Lesser(a: real, b: real): real {
    if a <= b then a else b
  }

  function Greater(a: real, b: real): real {
    if a <= b then b else a
  }

  /** The fates that lead to a condition are an interval. */
  function Low(px: real, pq: real, tx: Tx): real {
    match tx
    case Success => pq
    case Delay => px
    case Duplicate => 0.0
    case Drop => Greater(px, pq)
  }

  function High(px: real, pq: real, tx: Tx): real {
    match tx
    case Success => px
    case Delay => pq
    case Duplicate => Lesser(px, pq)
    case Drop => 1.0
  }

  lemma FatesOfCondition(px: real, pq: real, fate: real, tx: Tx)
    requires 0.0 <= px <= 1.0 && 0.0 <= pq <= 1.0 && 0.0 <= fate < 1.0
    ensures Condition(px, pq, fate) == tx <==> Low(px, pq, tx) <= fate < High(px, pq, tx)
  {
  }

  /** The share of the fates in [0, 1) that lead to a condition. */
  function Share(px: real, pq: real, tx: Tx): real {
    Greater(0.0, High(px, pq, tx) - Low(px, pq, tx))
  }

  /** `probability` */
  function Reported(px: real, pq: real, tx: Tx): real {
    match tx
    case Success => px * (1.0 - pq)
    case Delay => (1.0 - px) * pq
    case Duplicate => px * pq
    case Drop => (1.0 - px) * (1.0 - pq)
  }

  lemma ProductIsZero(a: real, b: real)
    ensures a * b == 0.0 <==> a == 0.0 || b == 0.0
  {
    if a != 0.0 && a * b == 0.0 {
      assert b == (a * b) / a;
    }
  }

  /** The reported probability of any condition is the share of its fates if
      and only if one of the parameters is 0 or 1: one fate decides both. */
  lemma ReportIsRightIff(px: real, pq: real, tx: Tx)
    requires 0.0 <= px <= 1.0 && 0.0 <= pq <= 1.0
    ensures Reported(px, pq, tx) == Share(px, pq, tx) <==> px == 0.0 || px == 1.0 || pq == 0.0 || pq == 1.0
  {
    var a, b := Lesser(px, pq), Greater(px, pq);
    ProductIsZero(a, 1.0 - b);
    assert a * (1.0 - b) == a - a * b;
    assert px * pq == a * b;
    match tx
    case Success => assert px * (1.0 - pq) == px - px * pq;
    case Delay => assert (1.0 - px) * pq == pq - px * pq;
    case Duplicate =>
    case Drop => assert (1.0 - px) * (1.0 - pq) == 1.0 - px - pq + px * pq;
  }

  /** Some fate delays a packet without sending it at once if and only if
      `px < pq`. */
  lemma DelayPossibleIff(px: real, pq: real)
    requires 0.0 <= px <= 1.0 && 0.0 <= pq <= 1.0
    ensures (exists fate :: 0.0 <= fate < 1.0 && Condition(px, pq, fate) == Delay) <==> px < pq
  {
    if px < pq {
      assert Condition(px, pq, px) == Delay;
    }
  }

  // ---------- receiving on ----------

  /** A run followed by `n` receives. */
  function ReceivingOn(ops: seq<Op>, n: nat): seq<Op> {
    if n == 0 then ops else ReceivingOn(ops, n - 1) + [Recv]
  }

  function StateAfter<T>(s: State<T>, n: nat): State<T> {
    if n == 0 then s else Received(StateAfter(s, n - 1))
  }

  /** What `n` receives in a row deliver. */
  function Drained<T>(s: State<T>, n: nat): seq<T> {
    if n == 0 then []
    else
      var next := Next(StateAfter(s, n - 1));
      Drained(s, n - 1) + if next.Some? then [next.value] else []
  }

  lemma RecvNext(px: real, pq: real, ops: seq<Op>)
    ensures CopiesAfter(px, pq, ops + [Recv]) == Received(CopiesAfter(px, pq, ops))
    ensures var next := Next(CopiesAfter(px, pq, ops));
            CopiesDelivered(px, pq, ops + [Recv])
            == CopiesDelivered(px, pq, ops) + if next.Some? then [next.value] else []
  {
    assert (ops + [Recv])[..|ops|] == ops;
  }

  lemma {:induction false} RecvsLead(px: real, pq: real, ops: seq<Op>, n: nat)
    ensures CopiesAfter(px, pq, ReceivingOn(ops, n)) == StateAfter(CopiesAfter(px, pq, ops), n)
  {
    if n > 0 {
      RecvsLead(px, pq, ops, n - 1);
      RecvNext(px, pq, ReceivingOn(ops, n - 1));
    }
  }

  lemma DeliverNext(px: real, pq: real, now: seq<Op>, t: State<Copy>, d: seq<Copy>, rest: seq<Copy>)
    requires CopiesAfter(px, pq, now) == t && CopiesDelivered(px, pq, now) == d + rest
    ensures CopiesDelivered(px, pq, now + [Recv]) == d + (rest + if Next(t).Some? then [Next(t).value] else [])
  {
    RecvNext(px, pq, now);
    InLine(d, rest, if Next(t).Some? then [Next(t).value] else []);
  }

  lemma {:induction false} RecvsDeliver(px: real, pq: real, ops: seq<Op>, n: nat)
    ensures CopiesDelivered(px, pq, ReceivingOn(ops, n))
         == CopiesDelivered(px, pq, ops) + Drained(CopiesAfter(px, pq, ops), n)
  {
    if n > 0 {
      var t, d := CopiesAfter(px, pq, ops), CopiesDelivered(px, pq, ops);
      RecvsDeliver(px, pq, ops, n - 1);
      RecvsLead(px, pq, ops, n - 1);
      DeliverNext(px, pq, ReceivingOn(ops, n - 1), StateAfter(t, n - 1), d, Drained(t, n - 1));
    }
  }

  /** Once a packet waits in the queue, the delayed ones follow it. */
  lemma {:induction false} DrainsInOrder<T>(s: State<T>, n: nat)
    requires s.loopback != [] || s.delayed == []
    requires n <= |s.loopback| + |s.delayed|
    ensures Drained(s, n) == (s.loopback + s.delayed)[..n]
    ensures n > 0 ==> StateAfter(s, n) == State((s.loopback + s.delayed)[n..], [])
  {
    if n > 0 {
      DrainsInOrder(s, n - 1);
      var line := s.loopback + s.delayed;
      var t := StateAfter(s, n - 1);
      assert line[..n] == line[..n - 1] + [line[n - 1]];
      if n == 1 {
        assert t.loopback[1..] + t.delayed == line[1..];
      } else {
        assert t.loopback == line[n - 1..] && t.loopback[1..] + [] == line[n..];
      }
    }
  }

  lemma {:induction false} NothingDrains<T>(s: State<T>, n: nat)
    requires s.loopback == []
    ensures StateAfter(s, n) == s && Drained(s, n) == []
  {
    if n > 0 {
      NothingDrains(s, n - 1);
    }
  }

  predicate Drains(px: real, pq: real, ops: seq<Op>, n: nat) {
    CopiesDelivered(px, pq, ReceivingOn(ops, n)) == Line(px, pq, ops)
  }

  /** Receiving on delivers everything that is on its way if and only if a
      packet waits in the queue or none is delayed: a delayed packet is only
      moved on by the receipt of another. */
  lemma {:induction false} ReceivingDrainsIff(px: real, pq: real, ops: seq<Op>)
    ensures var t := CopiesAfter(px, pq, ops);
            (exists n :: Drains(px, pq, ops, n)) <==> t.loopback != [] || t.delayed == []
  {
    var t := CopiesAfter(px, pq, ops);
    if t.loopback != [] || t.delayed == [] {
      AllDrains(px, pq, ops, |t.loopback| + |t.delayed|);
    } else {
      forall n: nat
        ensures !Drains(px, pq, ops, n)
      {
        RecvsDeliver(px, pq, ops, n);
        NothingDrains(t, n);
        assert |Line(px, pq, ops)| > |CopiesDelivered(px, pq, ops)|;
      }
    }
  }

  lemma DrainsAll(s: State<Copy>, n: nat, line: seq<Copy>)
    requires s.loopback != [] || s.delayed == []
    requires line == s.loopback + s.delayed && n == |line|
    ensures Drained(s, n) == line
  {
    DrainsInOrder(s, n);
    assert line[..n] == line;
  }

  /** As many receives as there are copies are enough. */
  lemma AllDrains(px: real, pq: real, ops: seq<Op>, n: nat)
    requires var t := CopiesAfter(px, pq, ops);
             (t.loopback != [] || t.delayed == []) && n == |t.loopback| + |t.delayed|
    ensures Drains(px, pq, ops, n)
  {
    var t, d := CopiesAfter(px, pq, ops), CopiesDelivered(px, pq, ops);
    RecvsDeliver(px, pq, ops, n);
    DrainsAll(t, n, t.loopback + t.delayed);
    InLine(d, t.loopback, t.delayed);
  }

  lemma InLine(d: seq<Copy>, l: seq<Copy>, q: seq<Copy>)
    ensures d + (l + q) == d + l + q
  {
  }

  // ---------- modes ----------

  /** Without transmission nothing is ever delivered, delayed or not. */
  lemma {:induction false} PartitionDeliversNothing(pq: real, ops: seq<Op>)
    requires Fair(ops)
    ensures After(0.0, pq, ops).loopback == [] && Delivered(0.0, pq, ops) == []
  {
    if ops != [] {
      PartitionDeliversNothing(pq, ops[..|ops| - 1]);
    }
  }

  /** With every packet transmitted, nothing delayed waits for ever. */
  lemma {:induction false} TransmissionNeverSticks(pq: real, ops: seq<Op>)
    requires Fair(ops)
    ensures var t := CopiesAfter(1.0, pq, ops); t.loopback != [] || t.delayed == []
  {
    if ops != [] {
      TransmissionNeverSticks(pq, ops[..|ops| - 1]);
    }
  }

  lemma {:induction false} TwoCopiesEach(ops: seq<Op>)
    requires Fair(ops)
    ensures |Line(1.0, 1.0, ops)| == 2 * |SendsOf(ops)|
  {
    if ops != [] {
      var before, op := ops[..|ops| - 1], ops[|ops| - 1];
      TwoCopiesEach(before);
      if op.Send? {
        LineAfterSend(1.0, 1.0, ops);
      } else {
        LineAfterRecv(1.0, 1.0, ops);
      }
    }
  }

  lemma {:induction false} SendsAreFair(ops: seq<Op>)
    requires Fair(ops)
    ensures forall i :: 0 <= i < |SendsOf(ops)| ==> SendsOf(ops)[i].Send? && 0.0 <= SendsOf(ops)[i].fate < 1.0
  {
    if ops != [] {
      SendsAreFair(ops[..|ops| - 1]);
    }
  }

  lemma BothCopiesInLine(ops: seq<Op>, k: nat)
    requires Fair(ops) && k < |SendsOf(ops)|
    ensures Copy(k, true) in Line(1.0, 1.0, ops) && Copy(k, false) in Line(1.0, 1.0, ops)
  {
    LineHolds(1.0, 1.0, ops);
    SendsAreFair(ops);
  }

  lemma DeliveredOnce(px: real, pq: real, ops: seq<Op>)
    ensures var copies := CopiesDelivered(px, pq, ops); forall i, j :: 0 <= i < j < |copies| ==> copies[i] != copies[j]
  {
    DeliveriesInterleaveTwoOrders(px, pq, ops);
  }

  /** With `px == 1` and `pq == 1`, receiving on delivers both copies of every
      packet, and nothing else: every packet exactly twice. */
  lemma EveryPacketTwice(ops: seq<Op>) returns (n: nat)
    requires Fair(ops)
    ensures var copies := CopiesDelivered(1.0, 1.0, ReceivingOn(ops, n));
            && |copies| == 2 * |SendsOf(ops)|
            && (forall i, j :: 0 <= i < j < |copies| ==> copies[i] != copies[j])
            && (forall k: nat :: k < |SendsOf(ops)| ==> Copy(k, true) in copies && Copy(k, false) in copies)
  {
    var t := CopiesAfter(1.0, 1.0, ops);
    n := |t.loopback| + |t.delayed|;
    TransmissionNeverSticks(1.0, ops);
    AllDrains(1.0, 1.0, ops, n);
    TwoCopiesEach(ops);
    DeliveredOnce(1.0, 1.0, ReceivingOn(ops, n));
    forall k: nat | k < |SendsOf(ops)|
      ensures Copy(k, true) in Line(1.0, 1.0, ops) && Copy(k, false) in Line(1.0, 1.0, ops)
    {
      BothCopiesInLine(ops, k);
    }
  }
}
