/** The DTP demultiplexer (dtp/src/dtp.rs). Every method is one atomic step:
    the source's methods have no await points, and interleavings at the
    granularity of its locks are not modelled. */
module Demux {
  import opened Common
  import opened Addresses

  datatype Channel = Channel(peerAddr: Addr, channelId: byte)

  datatype Packet = Packet(ecn: bool, bytes: seq<byte>)

  /** What the socket has ready: a datagram or a receive error. */
  datatype Datagram = Datagram(from: Addr, bytes: seq<byte>, ecn: bool) | Broken

  datatype Poll<+T> = Ready(value: T) | Failed | Pending

  predicate Bad(d: Datagram) {
    d.Broken? || d.bytes == []
  }

  function ChannelOf(d: Datagram): Channel
    requires !Bad(d)
  {
    Channel(d.from, d.bytes[0])
  }

  function PacketOf(d: Datagram): Packet
    requires !Bad(d)
  {
    Packet(d.ecn, d.bytes)
  }

  // ---------- what the demultiplexer stands for ----------

  type Queues = q: imap<Channel, seq<Packet>> | forall c: Channel :: c in q
    ghost witness imap c: Channel :: PacketsFor([], c)

  /** A FIFO queue for each channel; no slots. */
  datatype View = View(queues: Queues, owned: set<Channel>, announced: seq<Channel>, input: seq<Datagram>)

  /** The packets among `ds` that are for channel `c`, in order. */
  function PacketsFor(ds: seq<Datagram>, c: Channel): seq<Packet> {
    if ds == [] then []
    else
      var d := ds[|ds| - 1];
      PacketsFor(ds[..|ds| - 1], c) + if !Bad(d) && ChannelOf(d) == c then [PacketOf(d)] else []
  }

  /** The channels of `ds` that are not owned, in order. */
  function Unowned(ds: seq<Datagram>, owned: set<Channel>): seq<Channel> {
    if ds == [] then []
    else
      var d := ds[|ds| - 1];
      Unowned(ds[..|ds| - 1], owned) + if !Bad(d) && ChannelOf(d) !in owned then [ChannelOf(d)] else []
  }

  /** The next datagram taken from the input, queued, and announced if its
      channel is not owned; bad ones are dropped. */
  function FiledOne(v: View): View
    requires v.input != []
  {
    var d := v.input[0];
    var w := v.(input := v.input[1..]);
    if Bad(d) then w
    else
      var c := ChannelOf(d);
      w.(queues := v.queues[c := v.queues[c] + [PacketOf(d)]],
         announced := if c in v.owned then v.announced else v.announced + [c])
  }

  /** The first `n` datagrams filed. */
  function Filed(v: View, n: nat): (w: View)
    requires n <= |v.input|
    ensures w.input == v.input[n..] && w.owned == v.owned
  {
    if n == 0 then v else FiledOne(Filed(v, n - 1))
  }

  /** The index of the first datagram that stops the loop, if any. */
  function FirstStop(ds: seq<Datagram>, stop: Datagram -> bool): (k: nat)
    ensures k <= |ds| && (k < |ds| ==> stop(ds[k]))
    ensures forall i :: 0 <= i < k ==> !stop(ds[i])
  {
    if ds == [] || stop(ds[0]) then 0 else 1 + FirstStop(ds[1..], stop)
  }

  /** A datagram for `c`, or a bad one. */
  function For(c: Channel): Datagram -> bool {
    d => Bad(d) || ChannelOf(d) == c
  }

  /** A datagram for a channel that is not owned, or a bad one. */
  function NotIn(owned: set<Channel>): Datagram -> bool {
    d => Bad(d) || ChannelOf(d) !in owned
  }

  predicate NoneBefore(ds: seq<Datagram>, stop: Datagram -> bool, n: nat)
    requires n <= |ds|
  {
    forall i :: 0 <= i < n ==> !stop(ds[i])
  }

  /** The next packet of `c`: the head of its queue, or else the first datagram
      for it, everything before being filed. */
  function PolledChannel(v: View, c: Channel): (View, Poll<Packet>) {
    if v.queues[c] != [] then (v.(queues := v.queues[c := v.queues[c][1..]]), Ready(v.queues[c][0]))
    else
      var k := FirstStop(v.input, For(c));
      if k == |v.input| then (Filed(v, k), Pending)
      else if Bad(v.input[k]) then (Filed(v, k + 1), Failed)
      else
        var w := Filed(v, k + 1);
        (w.(queues := w.queues[c := []]), Ready(PacketOf(v.input[k])))
  }

  /** The next new channel: the head of the announcements, which is handed out
      without being registered, or else the first datagram's channel that is
      not owned, which is registered. */
  function PolledIncoming(v: View): (View, Poll<Channel>) {
    if v.announced != [] then (v.(announced := v.announced[1..]), Ready(v.announced[0]))
    else
      var k := FirstStop(v.input, NotIn(v.owned));
      if k == |v.input| then (Filed(v, k), Pending)
      else if Bad(v.input[k]) then (Filed(v, k + 1), Failed)
      else
        var c := ChannelOf(v.input[k]);
        (Filed(v, k + 1).(owned := v.owned + {c}, announced := []), Ready(c))
  }

  function Opened(v: View, c: Channel): (View, Result<Channel, ()>) {
    if c in v.owned then (v, Err(())) else (v.(owned := v.owned + {c}), Ok(c))
  }

  function Closed(v: View, c: Channel): View {
    v.(queues := v.queues[c := []], owned := v.owned - {c})
  }

  // ---------- filing ----------

  lemma FiledOneAppends(v: View, ds: seq<Datagram>, c: Channel)
    requires ds != [] && v.input != [] && v.input[0] == ds[|ds| - 1]
    ensures v.queues[c] + PacketsFor([v.input[0]], c) == FiledOne(v).queues[c]
    ensures PacketsFor(ds, c) == PacketsFor(ds[..|ds| - 1], c) + PacketsFor([v.input[0]], c)
    ensures v.announced + Unowned([v.input[0]], v.owned) == FiledOne(v).announced
    ensures Unowned(ds, v.owned) == Unowned(ds[..|ds| - 1], v.owned) + Unowned([v.input[0]], v.owned)
  {
    assert [v.input[0]][..0] == [];
  }

  /** Filing appends to each queue the packets that are for its channel, and to
      the announcements the channels that are not owned. */
  lemma {:induction false} FiledAppends(v: View, n: nat, c: Channel)
    requires n <= |v.input|
    ensures Filed(v, n).queues[c] == v.queues[c] + PacketsFor(v.input[..n], c)
    ensures Filed(v, n).announced == v.announced + Unowned(v.input[..n], v.owned)
  {
    if n > 0 {
      FiledAppends(v, n - 1, c);
      var ds := v.input[..n];
      assert ds[..n - 1] == v.input[..n - 1];
      FiledOneAppends(Filed(v, n - 1), ds, c);
    }
  }

  lemma {:induction false} NothingFor(ds: seq<Datagram>, c: Channel)
    requires forall d :: d in ds ==> Bad(d) || ChannelOf(d) != c
    ensures PacketsFor(ds, c) == []
  {
    if ds != [] {
      NothingFor(ds[..|ds| - 1], c);
    }
  }

  lemma {:induction false} NothingUnowned(ds: seq<Datagram>, owned: set<Channel>)
    requires forall d :: d in ds ==> Bad(d) || ChannelOf(d) in owned
    ensures Unowned(ds, owned) == []
  {
    if ds != [] {
      NothingUnowned(ds[..|ds| - 1], owned);
    }
  }

  /** Where a loop got to without stopping is where it must stop. */
  lemma FirstStopIf(ds: seq<Datagram>, stop: Datagram -> bool, n: nat)
    requires n <= |ds| && NoneBefore(ds, stop, n)
    ensures n == |ds| || stop(ds[n]) ==> FirstStop(ds, stop) == n
  {
  }

  /** One round of the `poll_channel` loop, the first `n` datagrams being for
      other channels: what the receive does, and what that means for the call. */
  lemma ChannelRound(v: View, n: nat, c: Channel)
    requires n <= |v.input| && v.queues[c] == [] && NoneBefore(v.input, For(c), n)
    ensures Filed(v, n).queues[c] == []
    ensures n == |v.input| ==> PolledChannel(v, c) == (Filed(v, n), Pending)
    ensures n < |v.input| && Bad(v.input[n]) ==> PolledChannel(v, c) == (Filed(v, n + 1), Failed)
    ensures n < |v.input| && !Bad(v.input[n]) && ChannelOf(v.input[n]) == c ==>
              var w := Filed(v, n + 1);
              && w.queues[c] == [PacketOf(v.input[n])]
              && PolledChannel(v, c) == (w.(queues := w.queues[c := []]), Ready(PacketOf(v.input[n])))
    ensures n < |v.input| && !Bad(v.input[n]) && ChannelOf(v.input[n]) != c ==>
              Filed(v, n + 1).queues[c] == [] && NoneBefore(v.input, For(c), n + 1)
  {
    FirstStopIf(v.input, For(c), n);
    NothingFor(v.input[..n], c);
    FiledAppends(v, n, c);
  }

  /** One round of the `poll_incoming` loop, the first `n` datagrams being for
      owned channels. */
  lemma IncomingRound(v: View, n: nat)
    requires n <= |v.input| && v.announced == [] && NoneBefore(v.input, NotIn(v.owned), n)
    ensures Filed(v, n).announced == []
    ensures n == |v.input| ==> PolledIncoming(v) == (Filed(v, n), Pending)
    ensures n < |v.input| && Bad(v.input[n]) ==> PolledIncoming(v) == (Filed(v, n + 1), Failed)
    ensures n < |v.input| && !Bad(v.input[n]) && ChannelOf(v.input[n]) !in v.owned ==>
              var w, c := Filed(v, n + 1), ChannelOf(v.input[n]);
              && w.announced == [c]
              && PolledIncoming(v) == (w.(owned := v.owned + {c}, announced := []), Ready(c))
    ensures n < |v.input| && !Bad(v.input[n]) && ChannelOf(v.input[n]) in v.owned ==>
              Filed(v, n + 1).announced == [] && NoneBefore(v.input, NotIn(v.owned), n + 1)
  {
    FirstStopIf(v.input, NotIn(v.owned), n);
    NothingUnowned(v.input[..n], v.owned);
    forall c: Channel {
      FiledAppends(v, n, c);
    }
  }

  /** Popping the packet that was just queued ends the call. */
  lemma ChannelFound(v: View, n: nat, c: Channel)
    requires n < |v.input| && v.queues[c] == [] && NoneBefore(v.input, For(c), n)
    requires !Bad(v.input[n]) && ChannelOf(v.input[n]) == c
    ensures var w := Filed(v, n + 1);
            && w.queues[c] == [PacketOf(v.input[n])]
            && PolledChannel(v, c) == (w.(queues := w.queues[c := w.queues[c][1..]]), Ready(w.queues[c][0]))
  {
    ChannelRound(v, n, c);
    assert [PacketOf(v.input[n])][1..] == [];
  }

  /** Taking the announcement and registering the channel ends the call. */
  lemma IncomingFound(v: View, n: nat, c: Channel)
    requires n < |v.input| && v.announced == [] && NoneBefore(v.input, NotIn(v.owned), n)
    requires !Bad(v.input[n]) && ChannelOf(v.input[n]) == c && c !in v.owned
    ensures var w := Filed(v, n + 1);
            w.announced == [c] && PolledIncoming(v) == (w.(announced := w.announced[1..]).(owned := w.owned + {c}), Ready(c))
  {
    IncomingRound(v, n);
    assert [c][1..] == [];
  }

  // ---------- slots ----------

  lemma VacantKey(slots: set<nat>) returns (id: nat)
    ensures id !in slots && forall s :: s in slots ==> s < id
  {
    if slots == {} {
      id := 0;
    } else {
      var s :| s in slots;
      var rest := VacantKey(slots - {s});
      id := if s < rest then rest else s + 1;
      assert forall t :: t in slots ==> t == s || t in slots - {s};
    }
  }

  type Index = map<Channel, nat>
  type Slab = map<nat, seq<Packet>>

  /** `owner` says whose each occupied slot is: it is the index's inverse. */
  ghost predicate Inverse(index: Index, owner: map<nat, Channel>, slab: Slab) {
    && owner.Keys == slab.Keys
    && (forall c :: c in index ==> index[c] in owner && owner[index[c]] == c)
    && (forall s :: s in owner ==> owner[s] in index && index[owner[s]] == s)
  }

  /** So the index is injective and its values are exactly the occupied slots. */
  lemma SlotBijection(index: Index, owner: map<nat, Channel>, slab: Slab)
    requires Inverse(index, owner, slab)
    ensures index.Values == slab.Keys
    ensures forall c, d :: c in index && d in index && index[c] == index[d] ==> c == d
  {
    forall s | s in slab
      ensures s in index.Values
    {
      assert index[owner[s]] == s;
    }
  }

  /** The queues that the index and the slab stand for. */
  ghost predicate Represents(q: Queues, index: Index, slab: Slab) {
    forall c: Channel :: q[c] == QueueIn(index, slab, c)
  }

  function QueueIn(index: Index, slab: Slab, c: Channel): seq<Packet> {
    if c in index && index[c] in slab then slab[index[c]] else []
  }

  /** Taking any vacant slot for a new channel is invisible. */
  lemma SlotTaken(q: Queues, index: Index, owner: map<nat, Channel>, slab: Slab, c: Channel, id: nat)
    requires Inverse(index, owner, slab) && Represents(q, index, slab) && c !in index && id !in slab
    ensures Inverse(index[c := id], owner[id := c], slab[id := []])
    ensures Represents(q, index[c := id], slab[id := []])
  {
    assert q[c] == QueueIn(index, slab, c);
  }

  /** Changing one occupied slot changes the queue of its channel only. */
  lemma SlotChanged(q: Queues, index: Index, owner: map<nat, Channel>, slab: Slab, c: Channel, packets: seq<Packet>)
    requires Inverse(index, owner, slab) && Represents(q, index, slab) && c in index
    ensures Inverse(index, owner, slab[index[c] := packets])
    ensures Represents(q[c := packets], index, slab[index[c] := packets])
  {
    assert slab[index[c] := packets].Keys == slab.Keys;
  }

  /** Giving a slot back empties the queue of its channel only. */
  lemma SlotFreed(q: Queues, index: Index, owner: map<nat, Channel>, slab: Slab, c: Channel)
    requires Inverse(index, owner, slab) && Represents(q, index, slab) && c in index
    ensures Inverse(index - {c}, owner - {index[c]}, slab - {index[c]})
    ensures Represents(q[c := []], index - {c}, slab - {index[c]})
  {
  }

  // ---------- the implementation ----------

  class InnerDtpSocket {
    ghost var view: View
    ghost var owner: map<nat, Channel>

    var socket: seq<Datagram>
    var connections: map<nat, seq<Packet>>
    var channelLookup: map<Channel, nat>
    var channels: set<Channel>
    var incoming: seq<Channel>

    ghost predicate Valid()
      reads this
    {
      && Inverse(channelLookup, owner, connections)
      && Represents(view.queues, channelLookup, connections)
      && view.owned == channels
      && view.announced == incoming
      && view.input == socket
    }

    constructor ()
      ensures Valid() && view == Initial()
    {
      view, owner := Initial(), map[];
      socket, connections, channelLookup, channels, incoming := [], map[], map[], {}, [];
    }

    /** The network hands the socket a datagram, or an error. */
    method Arrive(d: Datagram)
      requires Valid()
      modifies this`socket, this`view
      ensures Valid() && view == old(view).(input := old(view).input + [d])
    {
      socket := socket + [d];
      view := view.(input := socket);
    }

    method ConnectionId(channel: Channel) returns (id: nat)
      requires Valid()
      modifies this`connections, this`channelLookup, this`owner
      ensures Valid()
      ensures channel in channelLookup && channelLookup[channel] == id && connections[id] == view.queues[channel]
    {
      if channel in channelLookup {
        return channelLookup[channel];
      }
      ghost var vacant := VacantKey(connections.Keys);
      id :| id !in connections;
      SlotTaken(view.queues, channelLookup, owner, connections, channel, id);
      connections := connections[id := []];
      channelLookup, owner := channelLookup[channel := id], owner[id := channel];
    }

    method Push(channel: Channel, id: nat, packet: Packet)
      requires Valid() && channel in channelLookup && channelLookup[channel] == id
      modifies this`connections, this`view
      ensures Valid()
      ensures view == old(view).(queues := old(view).queues[channel := old(view).queues[channel] + [packet]])
    {
      SlotChanged(view.queues, channelLookup, owner, connections, channel, connections[id] + [packet]);
      view := view.(queues := view.queues[channel := view.queues[channel] + [packet]]);
      connections := connections[id := connections[id] + [packet]];
    }

    /** Looks the channel up and pops its queue. */
    method Pop(channel: Channel) returns (r: Option<Packet>)
      requires Valid()
      modifies this`connections, this`channelLookup, this`owner, this`view
      ensures Valid()
      ensures var q := old(view).queues;
              if q[channel] == [] then r == None && view == old(view)
              else r == Some(q[channel][0]) && view == old(view).(queues := q[channel := q[channel][1..]])
    {
      var id := ConnectionId(channel);
      if connections[id] == [] {
        return None;
      }
      r := Some(connections[id][0]);
      SlotChanged(view.queues, channelLookup, owner, connections, channel, connections[id][1..]);
      view := view.(queues := view.queues[channel := view.queues[channel][1..]]);
      connections := connections[id := connections[id][1..]];
    }

    method PopIncoming() returns (r: Option<Channel>)
      requires Valid()
      modifies this`incoming, this`view
      ensures Valid()
      ensures if old(view).announced == [] then r == None && view == old(view)
              else r == Some(old(view).announced[0]) && view == old(view).(announced := old(view).announced[1..])
    {
      if incoming == [] {
        return None;
      }
      r := Some(incoming[0]);
      incoming := incoming[1..];
      view := view.(announced := incoming);
    }

    /** Registers a channel unless it is there already. */
    method Register(channel: Channel) returns (added: bool)
      requires Valid()
      modifies this`channels, this`view
      ensures Valid() && added == (channel !in old(view).owned)
      ensures view == old(view).(owned := old(view).owned + {channel})
    {
      added := channel !in channels;
      channels := channels + {channel};
      view := view.(owned := channels);
    }

    method PollRecv() returns (r: Poll<()>)
      requires Valid()
      modifies this
      ensures Valid()
      ensures old(view).input == [] ==> r == Pending && view == old(view)
      ensures old(view).input != [] ==>
                && view == FiledOne(old(view))
                && r == if Bad(old(view).input[0]) then Failed else Ready(())
    {
      if socket == [] {
        return Pending;
      }
      var d := socket[0];
      socket := socket[1..];
      view := view.(input := socket);
      if Bad(d) {
        return Failed;
      }
      var channel := ChannelOf(d);
      var id := ConnectionId(channel);
      Push(channel, id, PacketOf(d));
      if channel !in channels {
        incoming := incoming + [channel];
        view := view.(announced := incoming);
      }
      return Ready(());
    }

    method PollIncoming() returns (r: Poll<Channel>)
      requires Valid()
      modifies this
      ensures Valid() && view == PolledIncoming(old(view)).0 && r == PolledIncoming(old(view)).1
    {
      var channel := PopIncoming();
      if channel.Some? {
        return Ready(channel.value);
      }
      ghost var v, n := view, 0;
      while true
        invariant Valid() && n <= |v.input| && view == Filed(v, n) && view.announced == []
        invariant NoneBefore(v.input, NotIn(v.owned), n)
        decreases |view.input|
      {
        IncomingRound(v, n);
        var p := PollRecv();
        match p {
          case Pending => return Pending;
          case Failed => return Failed;
          case Ready(_) =>
        }
        if ChannelOf(v.input[n]) !in v.owned {
          IncomingFound(v, n, ChannelOf(v.input[n]));
        }
        n := n + 1;
        channel := PopIncoming();
        if channel.Some? {
          var added := Register(channel.value);
          if added {
            return Ready(channel.value);
          }
        }
      }
    }

    method PollChannel(channel: Channel) returns (r: Poll<Packet>)
      requires Valid()
      modifies this
      ensures Valid() && view == PolledChannel(old(view), channel).0 && r == PolledChannel(old(view), channel).1
    {
      var packet := Pop(channel);
      if packet.Some? {
        return Ready(packet.value);
      }
      ghost var v, n := view, 0;
      while true
        invariant Valid() && n <= |v.input| && view == Filed(v, n)
        invariant NoneBefore(v.input, For(channel), n)
        decreases |view.input|
      {
        ChannelRound(v, n, channel);
        var p := PollRecv();
        match p {
          case Pending => return Pending;
          case Failed => return Failed;
          case Ready(_) =>
        }
        if ChannelOf(v.input[n]) == channel {
          ChannelFound(v, n, channel);
        }
        n := n + 1;
        packet := Pop(channel);
        if packet.Some? {
          return Ready(packet.value);
        }
      }
    }

    method Outgoing(peerAddr: Addr, channelId: byte) returns (r: Result<Channel, ()>)
      requires Valid()
      modifies this`channels, this`view
      ensures Valid()
      ensures (view, r) == Opened(old(view), Channel(peerAddr, channelId))
    {
      var channel := Channel(peerAddr, channelId);
      if channel in channels {
        return Err(());
      }
      channels := channels + {channel};
      view := view.(owned := channels);
      return Ok(channel);
    }

    /** Closing a channel that has no slot takes a slot and gives it back. */
    method Close(channel: Channel)
      requires Valid()
      modifies this
      ensures Valid() && view == Closed(old(view), channel)
    {
      channels := channels - {channel};
      view := view.(owned := channels);
      var id := ConnectionId(channel);
      Remove(channel, id);
    }

    method Remove(channel: Channel, id: nat)
      requires Valid() && channel in channelLookup && channelLookup[channel] == id
      modifies this`connections, this`channelLookup, this`owner, this`view
      ensures Valid() && view == old(view).(queues := old(view).queues[channel := []])
    {
      SlotFreed(view.queues, channelLookup, owner, connections, channel);
      channelLookup, owner := channelLookup - {channel}, owner - {id};
      assert id in connections;
      connections := connections - {id};
      view := view.(queues := view.queues[channel := []]);
    }
  }

  ghost function Initial(): View {
    View(imap c: Channel :: PacketsFor([], c), {}, [], [])
  }
}
