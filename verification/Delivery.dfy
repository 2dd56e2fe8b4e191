/** The demultiplexer under the packet stack: what is sent on a channel is what
    is delivered and read on it. */
module Delivery {
  import opened Common
  import opened Addresses
  import opened Demux
  import opened DemuxRuns
  import opened SecureStack

  /** A datagram with a sent packet is filed for its sender's channel, with its
      bytes and its congestion bit. */
  lemma WireIsFiled(c: Crypto, f: Fields, payload: seq<byte>, from: Addr, ecn: bool)
    requires Sound(c)
    ensures var d := Datagram(from, Wire(c, f, payload), ecn);
            && !Bad(d)
            && ChannelOf(d) == Channel(from, f.channel)
            && PacketOf(d) == Packet(ecn, Wire(c, f, payload))
  {
    WireBytes(c, f, payload);
  }

  /** Whatever came from the channel's peer under its number was sent. */
  ghost predicate OnlySent(c: Crypto, sent: seq<Seen>, ds: seq<Datagram>, channel: Channel) {
    forall i :: 0 <= i < |ds| ==>
      Names(ds[i], channel) ==> WasSent(c, sent, ds[i].bytes)
  }

  ghost predicate WasSent(c: Crypto, sent: seq<Seen>, bytes: seq<byte>) {
    exists k :: 0 <= k < |sent| && bytes == Wire(c, sent[k].fields, sent[k].payload)
  }

  /** Over every run, if nothing but sent packets arrives for a channel, every
      packet delivered on it reads as one of those, payload and header fields. */
  lemma DeliveredReadsAsSent(c: Crypto, sent: seq<Seen>, ops: seq<Op>, channel: Channel, p: Packet)
    requires Sound(c) && OnlySent(c, sent, Arrivals(ops), channel)
    requires p in Delivered(ops, channel)
    ensures exists k :: 0 <= k < |sent| && Receive(c, p.bytes) == Ok(sent[k])
  {
    DeliveredCameFromPeer(ops, channel, p);
    var ds := Arrivals(ops);
    var i :| 0 <= i < |ds| && Carries(ds[i], channel, p);
    assert WasSent(c, sent, ds[i].bytes);
    var k :| 0 <= k < |sent| && ds[i].bytes == Wire(c, sent[k].fields, sent[k].payload);
    EndToEnd(c, sent[k].fields, sent[k].payload);
  }
}
