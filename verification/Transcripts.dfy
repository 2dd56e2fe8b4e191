/** What two negotiations that answer each other say, for every pair of
    protocol lists: who speaks when, how long it takes and what is agreed. */
module Transcripts {
  import opened Common
  import opened Negotiations

  // ---------- the conversation ----------

  /** Both parties once message `j` has been emitted and before it is read; the
      initiator emits the even messages. No message means silence. */
  datatype Talk = Talk(initiator: State, responder: State, msg: Option<Message>)

  function Deliver(t: Talk, j: nat): Result<Talk, ProtocolError> {
    if t.msg.None? then Ok(t)
    else if j % 2 == 0 then
      match Receiving(t.responder, t.msg.value)
      case Ok((n, reply)) => Ok(Talk(t.initiator, n, reply))
      case Err(e) => Err(e)
    else
      match Receiving(t.initiator, t.msg.value)
      case Ok((n, reply)) => Ok(Talk(n, t.responder, reply))
      case Err(e) => Err(e)
  }

  function TalkAt(p1: seq<Str>, p2: seq<Str>, j: nat): Result<Talk, ProtocolError> {
    if j == 0 then
      var (n, msg) := Initiating(Fresh(p1));
      Ok(Talk(n, Fresh(p2), Some(msg)))
    else
      match TalkAt(p1, p2, j - 1)
      case Ok(t) => Deliver(t, j - 1)
      case Err(e) => Err(e)
  }

  // ---------- the simple specification ----------

  /** `p1[0], p2[0], p1[1], p2[1], ...`, and the rest of the longer list. */
  function Interleave(p1: seq<Str>, p2: seq<Str>): seq<Str>
    decreases |p1| + |p2|
  {
    if p1 == [] then p2 else [p1[0]] + Interleave(p2, p1[1..])
  }

  function FirstCommon(s: seq<Str>, p1: seq<Str>, p2: seq<Str>): Option<Str> {
    if s == [] then None
    else if s[0] in p1 && s[0] in p2 then Some(s[0])
    else FirstCommon(s[1..], p1, p2)
  }

  function Agreed(p1: seq<Str>, p2: seq<Str>): Option<Str> {
    FirstCommon(Interleave(p1, p2), p1, p2)
  }

  predicate Disjoint(p1: seq<Str>, p2: seq<Str>) {
    forall x :: x in p1 ==> x !in p2
  }

  // ---------- where the conversation settles ----------

  /** The proposal due as message `j`, if its proposer has one left. */
  function Slot(p1: seq<Str>, p2: seq<Str>, j: nat): Option<Str> {
    var own := if j % 2 == 0 then p1 else p2;
    if j / 2 < |own| then Some(own[j / 2]) else None
  }

  predicate Settles(p1: seq<Str>, p2: seq<Str>, j: nat) {
    var other := if j % 2 == 0 then p2 else p1;
    Slot(p1, p2, j).None? || Slot(p1, p2, j).value in other
  }

  /** The first slot from `j` on that is matched by the other side or empty. */
  function SettledFrom(p1: seq<Str>, p2: seq<Str>, j: nat): (d: nat)
    requires j <= 2 * |p1|
    ensures j <= d <= 2 * |p1| && Settles(p1, p2, d)
    ensures forall i :: j <= i < d ==> !Settles(p1, p2, i)
    decreases 2 * |p1| - j
  {
    if Settles(p1, p2, j) then j else SettledFrom(p1, p2, j + 1)
  }

  function Settled(p1: seq<Str>, p2: seq<Str>): nat {
    SettledFrom(p1, p2, 0)
  }

  /** How many messages the negotiation takes. */
  function Messages(p1: seq<Str>, p2: seq<Str>): nat {
    var d := Settled(p1, p2);
    if Slot(p1, p2, d).Some? then d + 2 else d + 1
  }

  // ---------- the invariant of the conversation ----------

  predicate Idle(n: State, protocols: seq<Str>, tried: nat) {
    n.protocols == protocols && n.tried == tried && n.accepted.None? && !n.finished
  }

  predicate Over(n: State, accepted: Option<Str>) {
    n.finished && n.accepted == accepted
  }

  predicate Shape(p1: seq<Str>, p2: seq<Str>, j: nat, t: Talk) {
    var d := Settled(p1, p2);
    var slot := Slot(p1, p2, d);
    var sender := if j % 2 == 0 then t.initiator else t.responder;
    var reader := if j % 2 == 0 then t.responder else t.initiator;
    if j < d || (j == d && slot.Some?) then
      && Idle(t.initiator, p1, j / 2 + 1) && Idle(t.responder, p2, (j + 1) / 2)
      && Slot(p1, p2, j).Some? && sender.proposed == Slot(p1, p2, j)
      && t.msg == Some(Propose(Slot(p1, p2, j).value))
    else if j == d then
      Over(sender, None) && reader.accepted.None? && !reader.finished && t.msg == Some(Fail)
    else if j == d + 1 && slot.Some? then
      && Over(sender, slot)
      && reader.accepted.None? && !reader.finished && reader.proposed == slot
      && t.msg == Some(Accept)
    else
      Over(t.initiator, slot) && Over(t.responder, slot) && t.msg.None?
  }

  /** A proposal that does not settle the conversation is answered by the next. */
  lemma ShapeProposed(p1: seq<Str>, p2: seq<Str>, j: nat, t: Talk)
    requires j < Settled(p1, p2) && Shape(p1, p2, j, t)
    ensures Deliver(t, j).Ok? && Shape(p1, p2, j + 1, Deliver(t, j).value)
  {
    assert !Settles(p1, p2, j);
    assert j + 1 < Settled(p1, p2) ==> !Settles(p1, p2, j + 1);
  }

  lemma ShapeSettled(p1: seq<Str>, p2: seq<Str>, j: nat, t: Talk)
    requires j >= Settled(p1, p2) && Shape(p1, p2, j, t)
    ensures Deliver(t, j).Ok? && Shape(p1, p2, j + 1, Deliver(t, j).value)
  {
  }

  lemma ShapeStart(p1: seq<Str>, p2: seq<Str>)
    ensures TalkAt(p1, p2, 0).Ok? && Shape(p1, p2, 0, TalkAt(p1, p2, 0).value)
  {
    assert 0 < Settled(p1, p2) ==> !Settles(p1, p2, 0);
  }

  lemma ShapeStep(p1: seq<Str>, p2: seq<Str>, j: nat, t: Talk, r: Result<Talk, ProtocolError>)
    requires Shape(p1, p2, j, t) && r == Deliver(t, j)
    ensures r.Ok? && Shape(p1, p2, j + 1, r.value)
  {
    if j < Settled(p1, p2) {
      ShapeProposed(p1, p2, j, t);
    } else {
      ShapeSettled(p1, p2, j, t);
    }
  }

  lemma {:induction false} ShapeHolds(p1: seq<Str>, p2: seq<Str>, j: nat)
    ensures TalkAt(p1, p2, j).Ok?
    ensures Shape(p1, p2, j, TalkAt(p1, p2, j).value)
  {
    if j == 0 {
      ShapeStart(p1, p2);
    } else {
      ShapeHolds(p1, p2, j - 1);
      ShapeStep(p1, p2, j - 1, TalkAt(p1, p2, j - 1).value, TalkAt(p1, p2, j));
    }
  }

  // ---------- agreement ----------

  lemma {:induction false} CommonIsInLists(s: seq<Str>, p1: seq<Str>, p2: seq<Str>)
    ensures FirstCommon(s, p1, p2).Some? ==>
              FirstCommon(s, p1, p2).value in p1 && FirstCommon(s, p1, p2).value in p2
    ensures FirstCommon(s, p1, p2).None? <==> forall x :: x in s ==> !(x in p1 && x in p2)
  {
    if s != [] {
      CommonIsInLists(s[1..], p1, p2);
      assert forall x :: x in s <==> x == s[0] || x in s[1..];
    }
  }

  lemma {:induction false} InterleaveElements(p1: seq<Str>, p2: seq<Str>)
    ensures forall x :: x in Interleave(p1, p2) <==> x in p1 || x in p2
    decreases |p1| + |p2|
  {
    if p1 != [] {
      InterleaveElements(p2, p1[1..]);
      assert forall x :: x in p1 <==> x == p1[0] || x in p1[1..];
    }
  }

  /** The specification fails exactly on disjoint lists. */
  lemma AgreedNoneIffDisjoint(p1: seq<Str>, p2: seq<Str>)
    ensures Agreed(p1, p2).None? <==> Disjoint(p1, p2)
    ensures Agreed(p1, p2).Some? ==> Agreed(p1, p2).value in p1 && Agreed(p1, p2).value in p2
  {
    CommonIsInLists(Interleave(p1, p2), p1, p2);
    InterleaveElements(p1, p2);
  }

  /** An empty slot is only ever reached when nothing is in common. */
  lemma EmptySlotMeansDisjoint(p1: seq<Str>, p2: seq<Str>)
    requires Slot(p1, p2, Settled(p1, p2)).None?
    ensures Disjoint(p1, p2)
  {
    var d := Settled(p1, p2);
    if d % 2 == 0 {
      forall x | x in p1
        ensures x !in p2
      {
        var i :| 0 <= i < |p1| && p1[i] == x;
        assert !Settles(p1, p2, 2 * i);
      }
    } else {
      forall x | x in p2
        ensures x !in p1
      {
        var i :| 0 <= i < |p2| && p2[i] == x;
        assert !Settles(p1, p2, 2 * i + 1);
      }
    }
  }

  /** What is left to propose at message `j`, in the order it will be proposed. */
  function Remaining(p1: seq<Str>, p2: seq<Str>, j: nat): seq<Str>
    requires j / 2 <= |p1| && (j + 1) / 2 <= |p1| && j / 2 <= |p2|
  {
    if j % 2 == 0 then Interleave(p1[j / 2..], p2[j / 2..]) else Interleave(p2[j / 2..], p1[j / 2 + 1..])
  }

  /** A proposal without a match can be skipped. */
  lemma RemainingNext(p1: seq<Str>, p2: seq<Str>, j: nat)
    requires !Settles(p1, p2, j)
    requires j / 2 <= |p1| && (j + 1) / 2 <= |p1| && j / 2 <= |p2|
    ensures (j + 1) / 2 <= |p1| && (j + 2) / 2 <= |p1| && (j + 1) / 2 <= |p2|
    ensures Remaining(p1, p2, j) == [Slot(p1, p2, j).value] + Remaining(p1, p2, j + 1)
  {
    var i := j / 2;
    if j % 2 == 0 {
      assert p1[i..][1..] == p1[i + 1..];
    } else {
      assert p2[i..][1..] == p2[i + 1..];
    }
  }

  lemma {:induction false} RemainingIsEnough(p1: seq<Str>, p2: seq<Str>, j: nat)
    requires j <= Settled(p1, p2)
    ensures j / 2 <= |p1| && (j + 1) / 2 <= |p1| && j / 2 <= |p2|
    ensures FirstCommon(Remaining(p1, p2, j), p1, p2) == Agreed(p1, p2)
  {
    if j == 0 {
      assert p1[0..] == p1 && p2[0..] == p2;
    } else {
      RemainingIsEnough(p1, p2, j - 1);
      assert !Settles(p1, p2, j - 1);
      RemainingNext(p1, p2, j - 1);
      var before := Remaining(p1, p2, j - 1);
      assert before[1..] == Remaining(p1, p2, j);
    }
  }

  /** The slot that settles the conversation is the specified outcome. */
  lemma SettledIsAgreed(p1: seq<Str>, p2: seq<Str>)
    ensures Slot(p1, p2, Settled(p1, p2)) == Agreed(p1, p2)
  {
    var d := Settled(p1, p2);
    RemainingIsEnough(p1, p2, d);
    AgreedNoneIffDisjoint(p1, p2);
    if Slot(p1, p2, d).None? {
      EmptySlotMeansDisjoint(p1, p2);
    } else {
      assert Remaining(p1, p2, d)[0] == Slot(p1, p2, d).value;
    }
  }

  /** Two negotiations that read each other's messages never see a protocol
      error; one speaks exactly while fewer than `Messages` messages were
      sent; from then on both are finished and hold the first entry of the
      interleaved lists that is in both, or nothing when there is none. */
  lemma NegotiationOutcome(p1: seq<Str>, p2: seq<Str>, j: nat)
    ensures TalkAt(p1, p2, j).Ok?
    ensures var t := TalkAt(p1, p2, j).value;
            && (t.msg.Some? <==> j < Messages(p1, p2))
            && (j >= Messages(p1, p2) ==> Over(t.initiator, Agreed(p1, p2)) && Over(t.responder, Agreed(p1, p2)))
  {
    ShapeHolds(p1, p2, j);
    SettledIsAgreed(p1, p2);
  }

  // ---------- how long it takes ----------

  /** No proposal before slot `n` is in the other side's list. */
  predicate NoMatchBefore(p1: seq<Str>, p2: seq<Str>, n: int) {
    forall j :: 0 <= j < n ==>
      Slot(p1, p2, j).Some? ==> Slot(p1, p2, j).value !in (if j % 2 == 0 then p2 else p1)
  }

  /** The bound min(2m+1, 2k+2) holds, and is reached exactly when none of the
      proposals before the last possible one is matched: the lists are disjoint
      or the only match is the last possible proposal. */
  lemma TightBound(p1: seq<Str>, p2: seq<Str>)
    ensures Messages(p1, p2) <= Min(2 * |p1| + 1, 2 * |p2| + 2)
    ensures Messages(p1, p2) == Min(2 * |p1| + 1, 2 * |p2| + 2)
            <==> NoMatchBefore(p1, p2, Min(2 * |p1|, 2 * |p2| + 1) - 1)
    ensures Disjoint(p1, p2) ==> Messages(p1, p2) == Min(2 * |p1| + 1, 2 * |p2| + 2)
  {
    var d := Settled(p1, p2);
    var k := Min(2 * |p1|, 2 * |p2| + 1);
    assert d <= k by {
      if d > k {
        assert Settles(p1, p2, k);
      }
    }
    assert Slot(p1, p2, d).None? ==> d == k;
    assert d < k ==> Slot(p1, p2, d).Some?;
    assert d < k - 1 ==> !NoMatchBefore(p1, p2, k - 1);
    if !NoMatchBefore(p1, p2, k - 1) {
      var j :| 0 <= j < k - 1 && Slot(p1, p2, j).Some? && Slot(p1, p2, j).value in (if j % 2 == 0 then p2 else p1);
      assert Settles(p1, p2, j);
      assert d <= j;
    }
    SettledIsAgreed(p1, p2);
    AgreedNoneIffDisjoint(p1, p2);
  }
}
