# EFCP over UDP: a verified model

This project models the error and flow control protocol stack of the repository in
Dafny and proves what its pieces promise together. From the application down:

- **Negotiation.** Two peers with a list of protocol names each take turns to propose one
  until a proposal is accepted or a list runs out. `Negotiations` has the object and its
  specification as functions, `Transcripts` what two of them say to each other.
- **Handshake drivers.** The initiator and the responder run a handshake of `2h + 1`
  messages (`h >= 1`; XK1sig is `h == 1`) that carries the negotiation, and then continue
  the negotiation on the secured channel. `Handshakes` has both drivers as processes over a
  lossless in-order duplex channel of bytes, `HandshakeProofs` the run they follow and
  `HandshakeTheorems` the results for every schedule. `DriverSteps` and `NegotiationRuns` are
  about any state and any message, also those no honest run reaches. A process step is one channel
  operation with the local work up to the next one. The crypto session is the count of
  handshake messages it has processed; using it out of turn is an error that is shown not
  to occur, like every failing assertion. That the drivers take turns is a result
  (`HandshakeProofs.Confluence`), not an assumption: the scheduler may pick either at any
  time.
- **Handshake packets and addresses.** `HandshakePackets` and `Addresses` (over `Text`)
  are the length-prefixed binary form and the textual form of addresses embedded in it:
  splitting, chunking, dotted-decimal IPv4 and decimal ports are modelled, strings are
  their UTF-8 bytes. `Encodings` says what the numerals, the big-endian numbers and the
  UTF-8 strings stand for, apart from how they are computed; accepted and written bytes
  are also stated one by one.
- **Demultiplexer.** `Demux` is the DTP socket: a slab of queues, an index from channels
  to slots, the owned channels and the announcements. The object carries a ghost `view`, a
  plain FIFO queue for each channel without slots, that every method keeps; `DemuxRuns`
  is about whole runs of calls. Each call is one atomic step, which the source's calls are
  as long as no two of them interleave between their locks; the slab may hand out any
  vacant key.
- **Packet stack.** `PacketStack` is any stack of header layers in one buffer of fixed
  capacity, `SecureStack` the concrete one: DTCP over Disco over DTP, with abstract
  ciphers, and the channels that write and read it in place. `Delivery` puts the
  demultiplexer under it.
- **DTCP.** `Dtcp` is the timed state machine behind the data-run flag and the sequence
  numbers, over any interleaving with at most one send and one receive in flight.
- **Lossy loopback.** `Lossy` is the test channel with an arbitrary fate for each packet,
  `LossyModes` what its parameters mean; probabilities are real numbers.

Bit operations on bytes are written as division and remainder: `b >> 4` is `b / 16`,
`b & 0xf` is `b % 16`, `b | 0xf0` is `0xf0 + b % 16`.

## Hypotheses

- `Addresses.Faithful`: IPv6 text (section 2.2 of RFC 4291) reads back, is ASCII of at
  most 45 bytes and contains no slash. Whether an IPv4 octet may have leading zeros depends
  on the standard library's version and is a parameter (`zeroPrefix`).
- `SecureStack.Sound`: decryption undoes encryption for an equal nonce and tag, and both
  keep the length.
- `Dtcp.Builder.Valid`: fewer than 255 retries, since `max_retries + 1` is computed in
  eight bits.
- Instants do not go backwards.

## Where the code and its documentation differ

- efcp/src/lib.rs:38-43 describes a responder that echoes or denies the initiator's
  protocol; in the code both sides propose, in turns (`Transcripts.NegotiationOutcome`).
- efcp/src/packet.rs:89 limits names to 255 bytes without a check when a list is given. A
  handshake completes if and only if every name that comes to be proposed, up to the first
  match, obeys the limit (`HandshakeTheorems.CompletesIffProposalsFit`); otherwise every
  run that keeps picking both drivers ends with one failed and the other waiting for ever
  (`HandshakeTheorems.OverlongNameStrandsFairRuns`). A list with one name of 256 bytes is
  such an input (`HandshakeTheorems.LongNameDoesNotFit`).
- dtcp/src/packet.rs:12-13 describes the data-run flag as marking the first packet of a
  run. A receive that begins before the first send takes the flag away
  (`Dtcp.FirstSendWithoutFlag`); `Dtcp.DrfHistory` says exactly when a send carries it.
- efcp/src/lib.rs:13-16 does not allow nonces to wrap; the counter of
  efcp/src/secure.rs:84 does. The nonces of n sends on a channel are pairwise distinct if
  and only if n is at most 2^64, and the send after 2^64 others repeats the first one's
  (`SecureStack.NonceRuns`).
- efcp/src/secure.rs:21 checks 8 bytes while the accessors need the tag too. Receiving
  panics on exactly the packets that hold the nonce and end within the tag
  (`SecureStack.TagOutOfRangeIff`).
- test-channel/src/lib.rs:138-146 computes as if transmission and delay were independent,
  but one fate decides both. What it reports for a condition is the share of the fates that
  lead to it if and only if one of the parameters is 0 or 1
  (`LossyModes.ReportIsRightIff`), and a packet can be delayed without being sent if and
  only if `px < pq` (`LossyModes.DelayPossibleIff`).
- test-channel/src/lib.rs:129 says that a delayed packet will be received. Receiving on
  delivers everything on its way if and only if a packet waits in the queue or none is
  delayed (`LossyModes.ReceivingDrainsIff`); with px 0 nothing is ever delivered
  (`LossyModes.PartitionDeliversNothing`).

## Model

| member | source | states |
|---|---|---|
| Negotiations.Negotiation.constructor | efcp/src/negotiation.rs:23-32 | a new negotiation has proposed and accepted nothing |
| Negotiations.Negotiation.Offer | efcp/src/negotiation.rs:34-44 | the next untried protocol is proposed, or the negotiation finishes with a failure; the whole new state |
| Negotiations.Negotiation.Initiate | efcp/src/negotiation.rs:46-50 | initiating is the first offer of a negotiation that has not started |
| Negotiations.Negotiation.Receive | efcp/src/negotiation.rs:52-83 | the reply and the whole new state for each message, and the protocol error for a proposal after an acceptance |
| NegotiationRuns.AcceptedIsKept | efcp/src/negotiation.rs:56-58 | through any further proposals an accepted protocol stays accepted and each proposal is a protocol error |
| NegotiationRuns.StaysSane | efcp/src/negotiation.rs:52-83 | whatever message comes, the reply and the accepted protocol are those of the list, offered in order |
| NegotiationRuns.AnyMessages | efcp/src/negotiation.rs:34-83 | over any messages a negotiation accepts only what is in its list, keeps the last offer as the proposed one, and finishes when it runs out |
| Negotiations.Negotiation.IntoProtocol | efcp/src/negotiation.rs:89-92 | a finished negotiation yields what it accepted |
| Transcripts.ShapeHolds | efcp/src/negotiation.rs:34-83 | the invariant of the conversation after any number of messages: who has tried, proposed, accepted and finished what |
| Transcripts.AgreedNoneIffDisjoint | efcp/src/negotiation.rs:60-64 | the specified outcome, the first entry of the interleaved lists that is in both, exists exactly unless the lists are disjoint |
| Transcripts.SettledIsAgreed | efcp/src/negotiation.rs:52-83 | the proposal at which the two machines stop is that first common entry, although each side sees only its own list |
| Transcripts.NegotiationOutcome | efcp/src/negotiation.rs:34-92 | for every pair of lists there is never a protocol error, and once the messages are exchanged both sides are finished with the specified outcome |
| Transcripts.TightBound | efcp/src/negotiation.rs:34-83 | at most min(2m+1, 2k+2) messages, reached exactly when no proposal before the last possible one is matched |
| Addresses.FromStr | addr/src/lib.rs:51-80 | the loop over chunks accepts an address pair, optionally a port pair, and nothing else, with the error of the first bad piece |
| Addresses.AddrAccepted | addr/src/lib.rs:51-80 | exactly the texts that parse, by their characters: an ignored head, "ip4" with four digit groups below 256 or "ip6", and at most "udp" with a decimal port, 0 when absent |
| Addresses.AddrErrors | addr/src/lib.rs:55-75 | which error any other text gives, by the first bad piece |
| Addresses.V4Parses | addr/src/lib.rs:59-59 | exactly the dotted-decimal texts of an IPv4 address, by their characters |
| Addresses.PrintedAddr | addr/src/lib.rs:110-120 | the printed text by its characters, with numerals without leading zeros |
| Encodings.DecimalIsPositional | addr/src/lib.rs:66-66 | the decimal value counts each digit by its position |
| Encodings.PrintedNumeral | addr/src/lib.rs:118-118 | what is printed is the numeral of the number without leading zeros |
| Encodings.BigEndian | dtcp/src/packet.rs:95-95 | a big-endian number counts each byte by its position, the first one most |
| Encodings.WrittenBigEndian | dtcp/src/packet.rs:99-99 | what is written is the number's big-endian representation of the width |
| Encodings.Utf8Iff | efcp/src/packet.rs:43-43 | the byte strings accepted as text are exactly the UTF-8 encodings of scalar values |
| Addresses.V4RoundTrip | addr/src/lib.rs:59-59 | dotted-decimal text of any IPv4 address parses to it |
| Addresses.PortRoundTrip | addr/src/lib.rs:66-66 | the decimal text of any port parses to it |
| Addresses.AddrRoundTrip | addr/src/lib.rs:51-120 | parsing the printed form of any address gives that address |
| Addresses.AddrTextIsStr | addr/src/lib.rs:110-120 | printed addresses are UTF-8 and short enough for a one-byte length |
| Text.SplitJoin | addr/src/lib.rs:52-52 | splitting undoes joining |
| Text.JoinSplit | addr/src/lib.rs:52-52 | joining undoes splitting, and no piece contains the separator |
| Text.DecRoundTrip | addr/src/lib.rs:118-118 | decimal text reads back and has no leading zero |
| HandshakePackets.ToBytes | efcp/src/packet.rs:81-113 | pushing the fields and patching byte 0 afterwards yields the layout with the mark in place, or the error for an over-long name |
| HandshakePackets.FromBytes | efcp/src/packet.rs:23-71 | the cursor parses like a parser on suffixes and never leaves the bytes, for any byte string |
| HandshakePackets.PacketRoundTrip | efcp/src/packet.rs:23-113 | what a packet encodes to decodes to it, for every message and address, also with other bytes behind it |
| HandshakePackets.EncodesUnlessNameTooLong | efcp/src/packet.rs:85-107 | encoding fails exactly for a proposal of more than 255 bytes |
| HandshakePackets.DecoderNormalForm | efcp/src/packet.rs:23-113 | every accepted byte string decodes to a packet that encodes and decodes to itself |
| HandshakePackets.EncodedBytes | efcp/src/packet.rs:81-113 | the bytes of every packet, one by one |
| HandshakePackets.DecodedBytes | efcp/src/packet.rs:23-71 | exactly which byte strings are accepted, and what they mean, by their bytes |
| DriverSteps.ReadFails | efcp/src/lib.rs:235-314 | in any state a receive step fails exactly on a frame out of order, undecodable bytes or a proposal after an acceptance, each with its error |
| DriverSteps.ReadSucceeds | efcp/src/lib.rs:235-351 | in any state what a receive step does to every variable, and where it goes on |
| DriverSteps.SendStep | efcp/src/lib.rs:226-342 | in any state what a send step puts out, how it fails, and where it goes on; the initiator must hold an address when the handshake is over |
| HandshakeProofs.InitiatorSends | efcp/src/lib.rs:226-277 | the initiator's send step puts the due frame on the channel and goes on as the run requires, in both loops |
| HandshakeProofs.InitiatorReads | efcp/src/lib.rs:235-277 | the initiator's receive step consumes the frame, stores the observed address and hands the message to the negotiation |
| HandshakeProofs.ResponderSends | efcp/src/lib.rs:320-342 | the responder's send step puts the due frame on the channel, taking the observed address along once |
| HandshakeProofs.ResponderReads | efcp/src/lib.rs:306-351 | the responder's receive step consumes the frame and leaves the handshake loop with the session |
| HandshakeProofs.Confluence | efcp/src/lib.rs:226-363 | under every schedule the state depends only on the number of unblocked steps |
| HandshakeTheorems.NoDeadlockNoError | efcp/src/lib.rs:226-363 | under every schedule exactly one driver can move until both are done, after two steps for each frame, and no error but the negotiation's is reached |
| HandshakeTheorems.FairSchedulesComplete | efcp/src/lib.rs:226-363 | every schedule that keeps picking both drivers completes the handshake, two rounds for each frame being enough |
| HandshakeTheorems.CompletedRun | efcp/src/lib.rs:226-363 | both drivers return the same first common protocol, or the negotiation error exactly for disjoint lists; nothing is unread; the observed address has moved |
| HandshakeTheorems.AddressSentOnce | efcp/src/lib.rs:303-337 | frames alternate and carry the negotiation; the responder's first reply alone carries the observed address |
| HandshakeTheorems.OverlongNameStrands | efcp/src/packet.rs:89-91 | with an over-long name due, no schedule completes, and where neither driver can move one has failed to encode and the other waits |
| HandshakeTheorems.OverlongNameStrandsFairRuns | efcp/src/packet.rs:89-91 | with an over-long name due, every schedule that keeps picking both drivers ends with one failed to encode and the other waiting for ever |
| HandshakeTheorems.LongNameDoesNotFit | efcp/src/packet.rs:89-91 | a list with one valid name of 256 bytes is an input of that kind |
| HandshakeTheorems.CompletesIffProposalsFit | efcp/src/packet.rs:85-93 | some run completes if and only if every proposal that is due fits |
| Demux.SlotBijection | dtp/src/dtp.rs:40-50 | the index is injective and its values are exactly the occupied slots |
| Demux.SlotTaken | dtp/src/dtp.rs:45-48 | taking any vacant slot for a channel changes no queue |
| Demux.SlotFreed | dtp/src/dtp.rs:162-164 | giving a slot back empties its channel's queue and no other |
| Demux.InnerDtpSocket.constructor | dtp/src/dtp.rs:28-37 | a new socket has no queued packet, owned channel or announcement |
| Demux.InnerDtpSocket.ConnectionId | dtp/src/dtp.rs:40-50 | the slot found or made holds the channel's queue, and the view is unchanged |
| Demux.InnerDtpSocket.PollRecv | dtp/src/dtp.rs:64-100 | one datagram is queued for its channel only and announced if that is not owned; errors and empty datagrams are dropped |
| Demux.InnerDtpSocket.PollIncoming | dtp/src/dtp.rs:102-120 | the loop over slots does what the slot-free specification says |
| Demux.InnerDtpSocket.PollChannel | dtp/src/dtp.rs:122-144 | the loop over slots does what the slot-free specification says |
| Demux.InnerDtpSocket.Outgoing | dtp/src/dtp.rs:146-157 | a channel is registered unless it is taken |
| Demux.InnerDtpSocket.Close | dtp/src/dtp.rs:160-165 | the channel loses its queue and its registration, also when closed twice; no other channel is touched |
| Demux.FiledAppends | dtp/src/dtp.rs:87-97 | filing appends to each queue exactly the packets for its channel, and to the announcements the unowned channels |
| DemuxRuns.Drive | dtp/src/dtp.rs:27-165 | a new socket driven through any calls stands and answers as the slot-free run does, with its index a bijection onto the occupied slots |
| DemuxRuns.PollChannelStopsAtFirst | dtp/src/dtp.rs:122-144 | with an empty queue, exactly the datagrams up to the first for the channel, or the first bad one, are taken |
| DemuxRuns.PollIncomingStopsAtFirst | dtp/src/dtp.rs:102-120 | with nothing announced, exactly the datagrams up to the first of an unregistered channel, which is registered, or the first bad one, are taken |
| DemuxRuns.FastPath | dtp/src/dtp.rs:103-105 | with something announced, the oldest announcement is answered, nothing is taken and nothing registered |
| DemuxRuns.SlowPath | dtp/src/dtp.rs:106-119 | with nothing announced, the answer is the one unowned channel among the taken datagrams, and it alone is registered |
| DemuxRuns.QueuedPacketFirst | dtp/src/dtp.rs:123-129 | with a packet queued, the oldest is answered and nothing else changes |
| DemuxRuns.AnnouncementsInOrder | dtp/src/dtp.rs:94-119 | over every run, fast-path answers followed by what is announced are the unowned channels of the taken datagrams in order, without those the loop registered |
| DemuxRuns.OwnedIffRegistered | dtp/src/dtp.rs:102-165 | over every run, a channel is owned exactly when the replies since its last close registered it |
| DemuxRuns.OutgoingGrantedIffFree | dtp/src/dtp.rs:146-157 | over every run, opening is refused exactly while the channel is registered |
| DemuxRuns.GrantedOnce | dtp/src/dtp.rs:151-156 | between two granted openings of a channel it was closed |
| DemuxRuns.DeliveredCameFromPeer | dtp/src/dtp.rs:64-97 | over every run, a delivered packet came in a datagram from the channel's peer with its number in the first byte |
| DemuxRuns.UnownedAre | dtp/src/dtp.rs:94-96 | announced are exactly the unowned channels that datagrams name by sender and first byte |
| Delivery.WireIsFiled | dtp/src/dtp.rs:76-97 | a datagram with a sent packet is filed for the sender's channel with its bytes and congestion bit |
| Delivery.DeliveredReadsAsSent | dtp/src/dtp.rs:64-180 | over every run, if only sent packets arrive for a channel, every delivered packet reads as one of them |
| DemuxRuns.FifoPerChannel | dtp/src/dtp.rs:64-165 | over every run, what a channel received since its last close is what it delivered followed by what it has queued |
| DemuxRuns.ArrivalsAreTakenInOrder | dtp/src/dtp.rs:64-75 | over every run, no datagram is taken twice, skipped or out of order |
| DemuxRuns.NoStrandedPacket | dtp/src/dtp.rs:87-165 | over every run, a channel with a queued packet is owned, announced, or was handed out by the fast path since its last close |
| PacketStack.PayloadIsSuffix | dtcp/src/packet.rs:44-46 | the payload through any number of layers is what follows all headers |
| PacketStack.LayerIndependence | efcp/src/secure.rs:27-60 | for any stack, writing a field reads back and changes no other field of any layer and no payload |
| PacketStack.PayloadIndependence | efcp/src/secure.rs:31-33 | for any stack, writing the payload changes no field |
| PacketStack.New | efcp/src/secure.rs:13-18 | every header put fits the capacity that the innermost layer reserved |
| PacketStack.From | channel/src/lib.rs:130-136 | the buffer is exactly filled, its length is the payload and all headers, and the payload reads back |
| PacketStack.BytesMut.WriteField | dtcp/src/packet.rs:78-100 | writing a header field in place is the layered write |
| SecureStack.SentIsWire | dtcp/src/lib.rs:171-180 | whatever the headers held, the three sending channels leave the wire format |
| SecureStack.DiscoChannel.constructor | efcp/src/secure.rs:70-76 | a new channel has sent nothing |
| SecureStack.DiscoChannel.Send | efcp/src/secure.rs:83-89 | the k-th send writes nonce k of the counter, ciphertext and tag in place |
| SecureStack.NonceRuns | efcp/src/secure.rs:84-84 | over every run the k-th nonce is k modulo 2^64, and n nonces are pairwise distinct if and only if n is at most 2^64 |
| SecureStack.CounterDistinctIff | efcp/src/secure.rs:84-84 | the same for a wrapping counter of any modulus |
| SecureStack.DiscoChannel.Recv | efcp/src/secure.rs:91-99 | succeeds exactly when the ciphers open nonce, tag and text as they lie in the buffer, and then leaves the plaintext in place of the text; errors leave the buffer alone |
| SecureStack.TagOutOfRangeIff | efcp/src/secure.rs:20-56 | receiving panics on exactly the packets that hold the nonce and end within the tag |
| SecureStack.Send | dtp/src/dtp.rs:167-180 | a payload goes out in the wire format and fits the receive buffer |
| SecureStack.WireBytes | dtcp/src/packet.rs:78-100 | the wire format byte by byte |
| SecureStack.ReceivedBytes | efcp/src/secure.rs:91-99 | what every byte string is received as, by its bytes: which error, or which payload and fields |
| SecureStack.DtcpReadsHeader | dtcp/src/packet.rs:61-100 | type, flag, sequence number and payload read back |
| SecureStack.EndToEnd | efcp/src/secure.rs:83-99 | the receiving stack reads from the wire the payload and every header field the sending stack was given |
| Dtcp.DtcpChannel.constructor | dtcp/src/lib.rs:143-155 | a built channel's flag, number and timer intervals: two and three spans |
| Dtcp.TimerIntervals | dtcp/src/lib.rs:144-147 | a span is twice the packet lifetime and the ack delay, once for the first attempt and once for each retry |
| Dtcp.DefaultIntervals | dtcp/src/lib.rs:116-122 | 16800 and 25200 milliseconds for the default builder |
| Dtcp.DtcpChannel.BeginSend | dtcp/src/lib.rs:171-176 | the flag and number a send carries and the whole new state |
| Dtcp.DtcpChannel.EndSend | dtcp/src/lib.rs:178-178 | a send that succeeded starts its timer |
| Dtcp.DtcpChannel.BeginRecv | dtcp/src/lib.rs:182-184 | a receive overwrites the pending flag |
| Dtcp.DtcpChannel.EndRecv | dtcp/src/lib.rs:187-187 | a receive that succeeded starts its timer |
| Dtcp.TimersTell | dtcp/src/lib.rs:91-104 | each timer runs exactly when its side is idle after a success, since that success |
| Dtcp.DrfHistory | dtcp/src/lib.rs:143-190 | over every interleaving a send carries the flag exactly when its history says so |
| Dtcp.FirstSendWithoutFlag | dtcp/src/lib.rs:184-184 | the first send need not carry the flag |
| Dtcp.SequenceNumber | dtcp/src/lib.rs:174-176 | the k-th send carries k modulo 65536 |
| Dtcp.SequenceSafety | dtcp/src/lib.rs:21-22 | no number is reused within a window if and only if no window holds more than 65536 sends |
| Lossy.LossyLoopback.Send | test-channel/src/lib.rs:36-45 | the fate decides on a direct and on a delayed copy |
| Lossy.LossyLoopback.Recv | test-channel/src/lib.rs:47-58 | the first packet is taken and the delayed ones join the queue in order |
| Lossy.Split | test-channel/src/lib.rs:112-122 | each end sends into what the other receives from, and the directions are apart |
| Lossy.LineHolds | test-channel/src/lib.rs:36-58 | what was delivered or is on its way is exactly the copies that the fates made, each kind in sending order |
| Lossy.DeliveriesInterleaveTwoOrders | test-channel/src/lib.rs:36-58 | deliveries are copies of sent packets, no copy twice, direct and delayed ones each in sending order |
| LossyModes.ConditionOfSend | test-channel/src/lib.rs:36-45 | which queues a send reaches tells which of the four conditions its fate made |
| LossyModes.ReportIsRightIff | test-channel/src/lib.rs:139-146 | the reported probability of a condition is the share of its fates if and only if a parameter is 0 or 1 |
| LossyModes.DelayPossibleIff | test-channel/src/lib.rs:128-129 | some fate delays a packet without sending it if and only if px < pq |
| LossyModes.ReceivingDrainsIff | test-channel/src/lib.rs:47-58 | receiving on delivers everything on its way, in order, if and only if a packet is queued or none is delayed |
| LossyModes.PartitionDeliversNothing | test-channel/src/lib.rs:97-98 | with px 0 nothing is ever delivered |
| LossyModes.EveryPacketTwice | test-channel/src/lib.rs:98-99 | with px 1 and pq 1 receiving on delivers every packet exactly twice |
| Lossy.ReliableChannel | test-channel/src/lib.rs:96-99 | with px 1 and pq 0, what was delivered is a prefix of what was sent |

## Left out

- The drivers' loops are step functions on values instead of methods with loops, since two of them run at once; the order of their statements within a step is kept.
- System calls, wakers and control messages below the DTP socket: the socket is a sequence of datagrams and errors that arrive at any time.
- Interleavings of demultiplexer calls between their locks: a slot number outlives its lock in `poll_recv`, and the model's step is a whole call.
- The disco session, its key material and `get_remote_static`: the session is a counter, the ciphers an inverse pair.
- Transport errors during the handshake: the channel is lossless, and errors of `send` and `recv` below it do not occur.
- IPv6 text: an abstract print and parse pair.
- Capacity beyond what was asked for: the buffer has exactly the capacity requested.
- Retransmission, acknowledgement, replay rejection and in-order delivery of DTCP: described in comments, decided by no code.
- Several sends or receives in flight on one DTCP channel: the history of the flag is stated for one of each.
- The explicit congestion bit travels beside the bytes and is not part of the wire format; the demultiplexer keeps it with the packet.
- Debug formatting, error conversions, getters of addresses and TTL; rounding in the channel's probability report.
