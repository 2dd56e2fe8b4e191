/** What a negotiation does with any messages at all, also those that an honest
    peer never sends (efcp/src/negotiation.rs). */
module NegotiationRuns {
  import opened Common
  import opened Negotiations

  /** The state after a message; an error leaves it where it was. */
  function Hear(n: State, msg: Message): State {
    match Receiving(n, msg)
    case Ok((after, _)) => after
    case Err(_) => n.(started := true)
  }

  function Heard(n: State, msgs: seq<Message>): State {
    if msgs == [] then n else Hear(Heard(n, msgs[..|msgs| - 1]), msgs[|msgs| - 1])
  }

  function Replied(n: State, msg: Message): Result<Option<Message>, ProtocolError> {
    match Receiving(n, msg)
    case Ok((_, reply)) => Ok(reply)
    case Err(e) => Err(e)
  }

  predicate AllProposals(msgs: seq<Message>) {
    forall i :: 0 <= i < |msgs| ==> msgs[i].Propose?
  }

  /** A protocol that was accepted stays accepted through any further proposals,
      and each of them is a protocol error. */
  lemma {:induction false} AcceptedIsKept(n: State, msgs: seq<Message>, protocol: Str)
    requires n.accepted.Some? && AllProposals(msgs)
    ensures Heard(n, msgs).accepted == n.accepted && Heard(n, msgs).finished == n.finished
    ensures Replied(Heard(n, msgs), Propose(protocol)) == Err(ProtocolError)
  {
    if msgs != [] {
      assert msgs[|msgs| - 1].Propose?;
      AcceptedIsKept(n, msgs[..|msgs| - 1], protocol);
    }
  }

  /** The protocol error comes from a proposal after an acceptance and from
      nothing else. */
  lemma ErrorIff(n: State, msg: Message)
    ensures Replied(n, msg).Err? <==> msg.Propose? && n.accepted.Some?
  {
  }

  /** A proposal is accepted exactly when it is in the list and nothing was
      accepted before. */
  lemma AcceptsIff(n: State, protocol: Str)
    ensures Replied(n, Propose(protocol)) == Ok(Some(Accept)) <==> n.accepted.None? && protocol in n.protocols
    ensures Replied(n, Propose(protocol)) == Ok(Some(Accept)) ==>
              Hear(n, Propose(protocol)).accepted == Some(protocol)
  {
  }

  /** What was proposed last and is not yet accepted is the entry before the
      next one to try; whatever is accepted is in the list; and offering never
      skips an entry. */
  predicate Sane(n: State, protocols: seq<Str>) {
    && n.protocols == protocols
    && (n.proposed.Some? ==>
          && 0 < n.tried && protocols != []
          && n.proposed.value == protocols[Min(n.tried, |protocols|) - 1])
    && (n.accepted.Some? ==> n.accepted.value in protocols && n.finished)
    && (n.tried > |protocols| ==> n.finished)
  }

  lemma StaysSane(n: State, protocols: seq<Str>, msg: Message)
    requires Sane(n, protocols)
    ensures Sane(Hear(n, msg), protocols)
    ensures Hear(n, msg).tried ==
            n.tried + if msg.Propose? && n.accepted.None? && msg.protocol !in protocols then 1 else 0
    ensures msg.Propose? && n.accepted.None? && msg.protocol !in protocols ==>
              Replied(n, msg) == Ok(Some(if n.tried < |protocols| then Propose(protocols[n.tried]) else Fail))
    ensures msg == Accept ==> Hear(n, msg).accepted == n.proposed && Replied(n, msg) == Ok(None)
    ensures msg == Fail ==> Hear(n, msg).accepted == n.accepted && Replied(n, msg) == Ok(None)
  {
    assert n.proposed.Some? ==> n.proposed.value in protocols;
  }

  /** Over any messages whatever, a negotiation accepts nothing that is not in
      its list and offers its entries in order. */
  lemma {:induction false} AnyMessages(protocols: seq<Str>, initiated: bool, msgs: seq<Message>)
    ensures Sane(Heard(if initiated then Initiating(Fresh(protocols)).0 else Fresh(protocols), msgs), protocols)
  {
    var n := if initiated then Initiating(Fresh(protocols)).0 else Fresh(protocols);
    if msgs != [] {
      var before, msg := msgs[..|msgs| - 1], msgs[|msgs| - 1];
      AnyMessages(protocols, initiated, before);
      StaysSane(Heard(n, before), protocols, msg);
    }
  }
}
