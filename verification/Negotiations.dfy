/** Protocol negotiation between two peers (efcp/src/negotiation.rs). */
module Negotiations {
  import opened Common

  datatype Message = Propose(protocol: Str) | Accept | Fail

  datatype ProtocolError = ProtocolError

  /** The fields of a negotiation as a value. */
  datatype State = State(
    protocols: seq<Str>,
    tried: nat,
    started: bool,
    proposed: Option<Str>,
    accepted: Option<Str>,
    finished: bool)

  function Fresh(protocols: seq<Str>): State {
    State(protocols, 0, false, None, None, false)
  }

  function Proposing(n: State): (State, Message) {
    if n.tried < |n.protocols| then
      var protocol := n.protocols[n.tried];
      (n.(tried := n.tried + 1, proposed := Some(protocol)), Propose(protocol))
    else
      (n.(tried := n.tried + 1, finished := true), Fail)
  }

  function Initiating(n: State): (State, Message) {
    Proposing(n.(started := true))
  }

  function Receiving(n: State, msg: Message): Result<(State, Option<Message>), ProtocolError> {
    var n := n.(started := true);
    match msg
    case Propose(protocol) =>
      if n.accepted.Some? then Err(ProtocolError)
      else if protocol in n.protocols then
        Ok((n.(accepted := Some(protocol), finished := true), Some(Accept)))
      else
        var (n', reply) := Proposing(n);
        Ok((n', Some(reply)))
    case Accept => Ok((n.(accepted := n.proposed, proposed := None, finished := true), None))
    case Fail => Ok((n.(finished := true), None))
  }

  /** The object the drivers update in place. */
  class Negotiation {
    const protocols: seq<Str>
    var tried: nat
    var started: bool
    var proposed: Option<Str>
    var accepted: Option<Str>
    var finished: bool

    ghost function Value(): State
      reads this
    {
      State(protocols, tried, started, proposed, accepted, finished)
    }

    constructor (protocols: seq<Str>)
      ensures Value() == Fresh(protocols)
    {
      this.protocols := protocols;
      tried, started, proposed, accepted, finished := 0, false, None, None, false;
    }

    method Offer() returns (msg: Message)
      modifies this
      ensures (Value(), msg) == Proposing(old(Value()))
    {
      var i := tried;
      tried := tried + 1;
      if i < |protocols| {
        proposed := Some(protocols[i]);
        msg := Propose(protocols[i]);
      } else {
        finished := true;
        msg := Fail;
      }
    }

    method Initiate() returns (msg: Message)
      requires !started
      modifies this
      ensures (Value(), msg) == Initiating(old(Value()))
    {
      started := true;
      msg := Offer();
    }

    method Receive(msg: Message) returns (r: Result<Option<Message>, ProtocolError>)
      modifies this
      ensures match Receiving(old(Value()), msg)
              case Ok((n, reply)) => Value() == n && r == Ok(reply)
              case Err(e) => Value() == old(Value()).(started := true) && r == Err(e)
    {
      started := true;
      match msg
      case Propose(protocol) =>
        if accepted.Some? {
          return Err(ProtocolError);
        }
        accepted := if protocol in protocols then Some(protocol) else None;
        if accepted.Some? {
          finished := true;
          r := Ok(Some(Accept));
        } else {
          var reply := Offer();
          r := Ok(Some(reply));
        }
      case Accept =>
        accepted, proposed := proposed, None;
        finished := true;
        r := Ok(None);
      case Fail =>
        finished := true;
        r := Ok(None);
    }

    method IntoProtocol() returns (protocol: Option<Str>)
      requires finished
      ensures protocol == Value().accepted
    {
      protocol := accepted;
    }
  }
}
