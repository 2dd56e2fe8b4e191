/** DTCP's timers, data-run flag and sequence numbers (dtcp/src/lib.rs), as a
    timed state machine. Instants and durations are numbers of one unit. */
module Dtcp {
  import opened Common

  datatype Timer = Timer(enable: bool, start: nat, interval: nat)

  function Started(t: Timer, now: nat): Timer {
    t.(enable := true, start := now)
  }

  /** Whether an enabled timer has run for more than its interval. */
  predicate Expired(t: Timer, now: nat) {
    t.enable && now - t.start > t.interval
  }

  /** The parameters of a channel; `max_retries + 1` is computed in eight bits. */
  datatype Builder = Builder(mpl: nat, ack: nat, maxRetries: nat) {
    ghost predicate Valid() {
      maxRetries < 255
    }

    function Dt(): nat {
      (maxRetries + 1) * (2 * mpl + ack)
    }
  }

  /** `delay` counted once for each of `times` attempts. */
  function Repeated(delay: nat, times: nat): nat {
    if times == 0 then 0 else delay + Repeated(delay, times - 1)
  }

  /** How long a packet may be on its way and acknowledged: twice the packet
      lifetime and the delay of the acknowledgement, for the first attempt and
      for each retry. */
  function Span(b: Builder): nat {
    Repeated(b.mpl + b.mpl + b.ack, 1 + b.maxRetries)
  }

  lemma {:induction false} RepeatedIsProduct(delay: nat, times: nat)
    ensures Repeated(delay, times) == times * delay
  {
    if times > 0 {
      RepeatedIsProduct(delay, times - 1);
      assert times * delay == (times - 1) * delay + delay;
    }
  }

  /** The timers of a built channel run for two and for three such spans. */
  lemma TimerIntervals(b: Builder, now: nat)
    ensures Built(b, now).sit.interval == 2 * Span(b) && Built(b, now).rit.interval == 3 * Span(b)
  {
    RepeatedIsProduct(b.mpl + b.mpl + b.ack, 1 + b.maxRetries);
  }

  /** `DtcpBuilder::new`, in milliseconds. */
  const DEFAULT := Builder(1000, 100, 3)

  lemma DefaultIntervals(now: nat)
    ensures Built(DEFAULT, now).sit.interval == 16800 && Built(DEFAULT, now).rit.interval == 25200
  {
  }

  datatype State = State(setDrf: bool, seqNum: u16, sit: Timer, rit: Timer)

  function Built(b: Builder, now: nat): State {
    State(true, 0, Timer(false, now, 2 * b.Dt()), Timer(false, now, 3 * b.Dt()))
  }

  /** What happens to a channel, and when. An end that is not `ok` is an error
      or a cancelled call. */
  datatype Event =
    | SendBegin(at: nat)
    | SendEnd(at: nat, ok: bool)
    | RecvBegin(at: nat)
    | RecvEnd(at: nat, ok: bool)

  function Apply(s: State, e: Event): State {
    match e
    case SendBegin(_) =>
      s.(setDrf := false, seqNum := (s.seqNum + 1) % 0x1_0000, sit := s.sit.(enable := false))
    case SendEnd(at, ok) => if ok then s.(sit := Started(s.sit, at)) else s
    case RecvBegin(at) => s.(setDrf := Expired(s.rit, at), rit := s.rit.(enable := false))
    case RecvEnd(at, ok) => if ok then s.(rit := Started(s.rit, at)) else s
  }

  /** The flag that a send starting at `now` puts into its packet. */
  predicate Drf(s: State, now: nat) {
    s.setDrf || Expired(s.sit, now)
  }

  // ---------- the implementation ----------

  class DtcpChannel {
    var setDrf: bool
    var seqNum: u16
    var sit: Timer
    var rit: Timer

    ghost function Value(): State
      reads this
    {
      State(setDrf, seqNum, sit, rit)
    }

    /** `build_channel` */
    constructor (b: Builder, now: nat)
      requires b.Valid()
      ensures Value() == Built(b, now)
      ensures sit.interval == 2 * Span(b) && rit.interval == 3 * Span(b)
    {
      TimerIntervals(b, now);
      var dx := 2 * b.mpl + b.ack;
      var dt := (b.maxRetries + 1) * dx;
      setDrf, seqNum := true, 0;
      sit, rit := Timer(false, now, 2 * dt), Timer(false, now, 3 * dt);
    }

    /** The part of `send` before the lower channel is called. */
    method BeginSend(now: nat) returns (drf: bool, number: u16)
      requires now >= sit.start
      modifies this
      ensures Value() == Apply(old(Value()), SendBegin(now))
      ensures drf == Drf(old(Value()), now) && number == old(seqNum)
    {
      var expired := false;
      if sit.enable {
        sit := sit.(enable := false);
        expired := now - sit.start > sit.interval;
      }
      drf := setDrf || expired;
      setDrf := false;
      number := seqNum;
      seqNum := (seqNum + 1) % 0x1_0000;
    }

    /** The part of `send` after the lower channel has taken the packet. */
    method EndSend(now: nat)
      modifies this
      ensures Value() == Apply(old(Value()), SendEnd(now, true))
    {
      sit := Started(sit, now);
    }

    method BeginRecv(now: nat)
      requires now >= rit.start
      modifies this
      ensures Value() == Apply(old(Value()), RecvBegin(now))
    {
      var expired := false;
      if rit.enable {
        rit := rit.(enable := false);
        expired := now - rit.start > rit.interval;
      }
      setDrf := expired;
    }

    method EndRecv(now: nat)
      modifies this
      ensures Value() == Apply(old(Value()), RecvEnd(now, true))
    {
      rit := Started(rit, now);
    }
  }

  // ---------- histories ----------

  function After(b: Builder, built: nat, trace: seq<Event>): State {
    if trace == [] then Built(b, built)
    else Apply(After(b, built, trace[..|trace| - 1]), trace[|trace| - 1])
  }

  predicate Sending(trace: seq<Event>) {
    trace != [] && (trace[|trace| - 1].SendBegin? || (!trace[|trace| - 1].SendEnd? && Sending(trace[..|trace| - 1])))
  }

  predicate Receiving(trace: seq<Event>) {
    trace != [] && (trace[|trace| - 1].RecvBegin? || (!trace[|trace| - 1].RecvEnd? && Receiving(trace[..|trace| - 1])))
  }

  /** At most one send and one receive in flight; an end ends something. */
  predicate WellFormed(trace: seq<Event>) {
    trace == [] ||
    var before := trace[..|trace| - 1];
    && WellFormed(before)
    && match trace[|trace| - 1]
       case SendBegin(_) => !Sending(before)
       case SendEnd(_, _) => Sending(before)
       case RecvBegin(_) => !Receiving(before)
       case RecvEnd(_, _) => Receiving(before)
  }

  datatype Kind = Marks | SendEnds | RecvEnds

  predicate Is(e: Event, kind: Kind) {
    match kind
    case Marks => e.SendBegin? || e.RecvBegin?
    case SendEnds => e.SendEnd?
    case RecvEnds => e.RecvEnd?
  }

  /** The position of the last event of a kind before `i`; -1 if there is none. */
  function Last(trace: seq<Event>, i: nat, kind: Kind): (j: int)
    requires i <= |trace|
    ensures -1 <= j < i && (j >= 0 ==> Is(trace[j], kind))
    ensures forall k :: j < k < i ==> !Is(trace[k], kind)
  {
    if i == 0 then -1 else if Is(trace[i - 1], kind) then i - 1 else Last(trace, i - 1, kind)
  }

  /** The last receive, or send, before `i` ended well more than `delay` before
      the instant `now`. */
  predicate QuietFor(trace: seq<Event>, i: nat, kind: Kind, delay: nat, now: nat)
    requires i <= |trace| && kind != Marks
  {
    var j := Last(trace, i, kind);
    j >= 0 && trace[j].ok && now - trace[j].at > delay
  }

  /** The flag that is pending after a trace, said of its history alone. */
  predicate PendingDrf(b: Builder, trace: seq<Event>, n: nat)
    requires n <= |trace|
  {
    var mark := Last(trace, n, Marks);
    mark == -1 || (trace[mark].RecvBegin? && QuietFor(trace, mark, RecvEnds, 3 * Span(b), trace[mark].at))
  }

  /** When the send that begins at position `i` should carry the data-run flag,
      said of its history alone. */
  predicate ShouldCarryDrf(b: Builder, trace: seq<Event>, i: nat)
    requires i < |trace| && trace[i].SendBegin?
  {
    PendingDrf(b, trace, i) || QuietFor(trace, i, SendEnds, 2 * Span(b), trace[i].at)
  }

  // ---------- the flag is a function of the history ----------

  lemma {:induction false} LastOfPrefix(trace: seq<Event>, n: nat, i: nat, kind: Kind)
    requires i <= n <= |trace|
    ensures Last(trace[..n], i, kind) == Last(trace, i, kind)
  {
    if i > 0 {
      LastOfPrefix(trace, n, i - 1, kind);
    }
  }

  /** The send timer is enabled exactly when no send is in flight and the last
      one ended well, and then it was started at that end. */
  predicate TimerTells(trace: seq<Event>, t: Timer, kind: Kind, busy: bool)
    requires kind != Marks
  {
    var j := Last(trace, |trace|, kind);
    && (t.enable <==> !busy && j >= 0 && trace[j].ok)
    && (t.enable ==> t.start == trace[j].at)
  }

  lemma {:induction false} IntervalsStay(b: Builder, built: nat, trace: seq<Event>)
    ensures var s := After(b, built, trace); s.sit.interval == 2 * Span(b) && s.rit.interval == 3 * Span(b)
  {
    if trace == [] {
      TimerIntervals(b, built);
    } else {
      IntervalsStay(b, built, trace[..|trace| - 1]);
    }
  }

  lemma {:induction false} TimersTell(b: Builder, built: nat, trace: seq<Event>)
    requires WellFormed(trace)
    ensures var s := After(b, built, trace);
            && TimerTells(trace, s.sit, SendEnds, Sending(trace)) && s.sit.interval == 2 * Span(b)
            && TimerTells(trace, s.rit, RecvEnds, Receiving(trace)) && s.rit.interval == 3 * Span(b)
  {
    IntervalsStay(b, built, trace);
    if trace != [] {
      var n := |trace| - 1;
      TimersTell(b, built, trace[..n]);
      LastOfPrefix(trace, n, n, SendEnds);
      LastOfPrefix(trace, n, n, RecvEnds);
    }
  }

  lemma {:induction false} PendingTells(b: Builder, built: nat, trace: seq<Event>, n: nat)
    requires WellFormed(trace) && n <= |trace|
    ensures After(b, built, trace[..n]).setDrf == PendingDrf(b, trace, n)
  {
    if n > 0 {
      WellFormedPrefix(trace, n);
      PendingTells(b, built, trace, n - 1);
      assert trace[..n][..n - 1] == trace[..n - 1];
      if trace[n - 1].RecvBegin? {
        TimersTell(b, built, trace[..n - 1]);
        LastOfPrefix(trace, n - 1, n - 1, RecvEnds);
      }
    }
  }

  lemma {:induction false} WellFormedPrefix(trace: seq<Event>, n: nat)
    requires WellFormed(trace) && n <= |trace|
    ensures WellFormed(trace[..n])
    ensures n > 0 ==> WellFormed(trace[..n - 1])
    ensures n < |trace| && trace[n].SendBegin? ==> !Sending(trace[..n])
    ensures 0 < n && trace[n - 1].RecvBegin? ==> !Receiving(trace[..n - 1])
    decreases |trace|
  {
    if n < |trace| {
      var before := trace[..|trace| - 1];
      WellFormedPrefix(before, n);
      assert before[..n] == trace[..n];
      assert n > 0 ==> before[..n - 1] == trace[..n - 1];
    } else {
      assert trace[..n] == trace;
    }
  }

  /** A send carries the data-run flag exactly when its history says so, over
      every timed interleaving of sends and receives. */
  lemma {:induction false} DrfHistory(b: Builder, built: nat, trace: seq<Event>, i: nat)
    requires WellFormed(trace) && i < |trace| && trace[i].SendBegin?
    ensures Drf(After(b, built, trace[..i]), trace[i].at) <==> ShouldCarryDrf(b, trace, i)
  {
    WellFormedPrefix(trace, i);
    PendingTells(b, built, trace, i);
    TimersTell(b, built, trace[..i]);
    LastOfPrefix(trace, i, i, SendEnds);
  }

  /** So the first send of a channel need not carry the flag: a receive that
      begins before it takes the flag away. */
  lemma FirstSendWithoutFlag(b: Builder, built: nat, at: nat)
    ensures var trace := [RecvBegin(at), SendBegin(at)];
            WellFormed(trace) && !Drf(After(b, built, trace[..1]), at)
  {
    var trace := [RecvBegin(at), SendBegin(at)];
    assert trace[..1] == [RecvBegin(at)] && trace[..1][..0] == [];
    assert WellFormed([]) && WellFormed(trace[..1]);
  }

  // ---------- sequence numbers ----------

  function Sends(trace: seq<Event>, i: nat): nat
    requires i <= |trace|
  {
    if i == 0 then 0 else Sends(trace, i - 1) + if trace[i - 1].SendBegin? then 1 else 0
  }

  /** The k-th send carries k modulo 65536. */
  lemma {:induction false} SequenceNumber(b: Builder, built: nat, trace: seq<Event>, i: nat)
    requires i <= |trace|
    ensures After(b, built, trace[..i]).seqNum == Sends(trace, i) % 0x1_0000
  {
    if i > 0 {
      SequenceNumber(b, built, trace, i - 1);
      assert trace[..i][..i - 1] == trace[..i - 1];
    }
  }

  predicate Timed(trace: seq<Event>) {
    forall i, j :: 0 <= i < j < |trace| ==> trace[i].at <= trace[j].at
  }

  /** No two sends at most `window` apart carry the same number. */
  ghost predicate NeverReused(b: Builder, built: nat, trace: seq<Event>, window: nat) {
    forall i, j ::
      0 <= i < j < |trace| && trace[i].SendBegin? && trace[j].SendBegin? && trace[j].at - trace[i].at <= window
      ==> After(b, built, trace[..i]).seqNum != After(b, built, trace[..j]).seqNum
  }

  /** No 65537 sends begin within `window`. */
  predicate NotTooManySends(trace: seq<Event>, window: nat) {
    forall i, j ::
      0 <= i < j < |trace| && trace[i].SendBegin? && trace[j].SendBegin? && trace[j].at - trace[i].at <= window
      ==> Sends(trace, j + 1) - Sends(trace, i) <= 0x1_0000
  }

  lemma {:induction false} SendsGrow(trace: seq<Event>, i: nat, j: nat)
    requires i <= j <= |trace|
    ensures Sends(trace, i) <= Sends(trace, j)
  {
    if i < j {
      SendsGrow(trace, i, j - 1);
    }
  }

  /** The send number `Sends(trace, i) + n`, if there are that many. */
  lemma {:induction false} SendAt(trace: seq<Event>, i: nat, j: nat, k: nat) returns (p: nat)
    requires i <= j <= |trace| && Sends(trace, i) <= k < Sends(trace, j)
    ensures i <= p < j && trace[p].SendBegin? && Sends(trace, p) == k
  {
    if Sends(trace, j - 1) > k {
      p := SendAt(trace, i, j - 1, k);
    } else {
      p := j - 1;
      SendsGrow(trace, i, j);
    }
  }

  lemma {:induction false} FewSendsMeanNewNumber(b: Builder, built: nat, trace: seq<Event>, i: nat, j: nat)
    requires i < j < |trace| && trace[i].SendBegin? && trace[j].SendBegin?
    requires Sends(trace, j + 1) - Sends(trace, i) <= 0x1_0000
    ensures After(b, built, trace[..i]).seqNum != After(b, built, trace[..j]).seqNum
  {
    SequenceNumber(b, built, trace, i);
    SequenceNumber(b, built, trace, j);
    SendsGrow(trace, i + 1, j);
    var s, t := Sends(trace, i), Sends(trace, j);
    assert s < t < s + 0x1_0000;
  }

  lemma {:induction false} ManySendsReuse(b: Builder, built: nat, trace: seq<Event>, i: nat, j: nat) returns (p: nat)
    requires i < j < |trace| && trace[i].SendBegin? && trace[j].SendBegin?
    requires Sends(trace, j + 1) - Sends(trace, i) > 0x1_0000
    ensures i < p <= j && trace[p].SendBegin?
    ensures After(b, built, trace[..i]).seqNum == After(b, built, trace[..p]).seqNum
  {
    p := SendAt(trace, i, j + 1, Sends(trace, i) + 0x1_0000);
    SequenceNumber(b, built, trace, i);
    SequenceNumber(b, built, trace, p);
  }

  lemma {:induction false} SafeIfFewSends(b: Builder, built: nat, trace: seq<Event>, window: nat)
    requires NotTooManySends(trace, window)
    ensures NeverReused(b, built, trace, window)
  {
    forall i, j | 0 <= i < j < |trace| && trace[i].SendBegin? && trace[j].SendBegin? && trace[j].at - trace[i].at <= window
      ensures After(b, built, trace[..i]).seqNum != After(b, built, trace[..j]).seqNum
    {
      FewSendsMeanNewNumber(b, built, trace, i, j);
    }
  }

  lemma ReuseSoon(b: Builder, built: nat, trace: seq<Event>, i: nat, j: nat) returns (p: nat)
    requires Timed(trace) && i < j < |trace| && trace[i].SendBegin? && trace[j].SendBegin?
    requires Sends(trace, j + 1) - Sends(trace, i) > 0x1_0000
    ensures i < p < |trace| && trace[p].SendBegin? && trace[p].at <= trace[j].at
    ensures After(b, built, trace[..i]).seqNum == After(b, built, trace[..p]).seqNum
  {
    p := ManySendsReuse(b, built, trace, i, j);
    assert p == j || trace[p].at <= trace[j].at;
  }

  lemma UnsafeBetween(b: Builder, built: nat, trace: seq<Event>, window: nat, i: nat, j: nat)
    requires Timed(trace) && NeverReused(b, built, trace, window)
    requires i < j < |trace| && trace[i].SendBegin? && trace[j].SendBegin? && trace[j].at - trace[i].at <= window
    ensures Sends(trace, j + 1) - Sends(trace, i) <= 0x1_0000
  {
    if Sends(trace, j + 1) - Sends(trace, i) > 0x1_0000 {
      var p := ReuseSoon(b, built, trace, i, j);
    }
  }

  lemma {:induction false} UnsafeIfManySends(b: Builder, built: nat, trace: seq<Event>, window: nat)
    requires Timed(trace) && NeverReused(b, built, trace, window)
    ensures NotTooManySends(trace, window)
  {
    forall i, j | 0 <= i < j < |trace| && trace[i].SendBegin? && trace[j].SendBegin? && trace[j].at - trace[i].at <= window
      ensures Sends(trace, j + 1) - Sends(trace, i) <= 0x1_0000
    {
      UnsafeBetween(b, built, trace, window, i, j);
    }
  }

  /** Condition A1: a number is never reused within `window` if and only if no
      stretch of that length holds more than 65536 sends. */
  lemma {:induction false} SequenceSafety(b: Builder, built: nat, trace: seq<Event>, window: nat)
    requires Timed(trace)
    ensures NeverReused(b, built, trace, window) <==> NotTooManySends(trace, window)
  {
    if NotTooManySends(trace, window) {
      SafeIfFewSends(b, built, trace, window);
    } else if NeverReused(b, built, trace, window) {
      UnsafeIfManySends(b, built, trace, window);
    }
  }
}
