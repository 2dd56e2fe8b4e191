/** The binary form of handshake packets (efcp/src/packet.rs). */
module HandshakePackets {
  import opened Common
  import opened Addresses
  import opened Negotiations

  datatype HandshakePacket = HandshakePacket(negotiate: Option<Message>, externalAddr: Option<Addr>)

  datatype Invalid = Invalid

  // ---------- writing ----------

  function Kind(negotiate: Option<Message>): byte {
    match negotiate
    case None => 0
    case Some(Propose(_)) => 1
    case Some(Accept) => 2
    case Some(Fail) => 3
  }

  /** A byte string preceded by its length. */
  function Prefixed(s: seq<byte>): seq<byte>
    requires |s| < 256
  {
    [|s|] + s
  }

  predicate Fits(std: Std, p: HandshakePacket) {
    && (p.negotiate.Some? && p.negotiate.value.Propose? ==> |p.negotiate.value.protocol| < 256)
    && (p.externalAddr.Some? ==> |PrintAddr(std, p.externalAddr.value)| < 256)
  }

  function MessageBytes(negotiate: Option<Message>): seq<byte>
    requires negotiate.Some? && negotiate.value.Propose? ==> |negotiate.value.protocol| < 256
  {
    if negotiate.Some? && negotiate.value.Propose? then Prefixed(negotiate.value.protocol) else []
  }

  function AddrBytes(std: Std, externalAddr: Option<Addr>): seq<byte>
    requires externalAddr.Some? ==> |PrintAddr(std, externalAddr.value)| < 256
  {
    if externalAddr.Some? then Prefixed(PrintAddr(std, externalAddr.value)) else []
  }

  /** The layout: message kind in the low nibble and an address mark in the
      high nibble, then the length-prefixed name and address. */
  function Layout(std: Std, p: HandshakePacket): seq<byte>
    requires Fits(std, p)
  {
    [Kind(p.negotiate) + if p.externalAddr.Some? then 0xf0 else 0]
    + MessageBytes(p.negotiate) + AddrBytes(std, p.externalAddr)
  }

  function Encode(std: Std, p: HandshakePacket): Result<seq<byte>, Invalid> {
    if Fits(std, p) then Ok(Layout(std, p)) else Err(Invalid)
  }

  /** `b | 0xf0` */
  function OrHighNibble(b: byte): byte {
    0xf0 + b % 16
  }

  lemma Patch(kind: byte, body: seq<byte>, text: seq<byte>)
    requires kind < 16 && |text| < 256
    ensures ([kind] + body + [|text|] + text)[0 := OrHighNibble(kind)] == [kind + 0xf0] + body + Prefixed(text)
  {
  }

  method ToBytes(std: Std, p: HandshakePacket) returns (r: Result<seq<byte>, Invalid>)
    ensures r == Encode(std, p)
  {
    var bytes: seq<byte> := [];
    match p.negotiate {
      case None => bytes := bytes + [0];
      case Some(Propose(protocol)) =>
        bytes := bytes + [1];
        if |protocol| > 255 {
          return Err(Invalid);
        }
        bytes := bytes + [|protocol|];
        bytes := bytes + protocol;
      case Some(Accept) => bytes := bytes + [2];
      case Some(Fail) => bytes := bytes + [3];
    }
    assert bytes == [Kind(p.negotiate)] + MessageBytes(p.negotiate);
    match p.externalAddr {
      case None =>
        assert bytes == bytes + AddrBytes(std, None);
      case Some(addr) =>
        var text := PrintAddr(std, addr);
        if |text| > 255 {
          return Err(Invalid);
        }
        Patch(Kind(p.negotiate), MessageBytes(p.negotiate), text);
        bytes := bytes + [|text|];
        bytes := bytes + text;
        bytes := bytes[0 := OrHighNibble(bytes[0])];
    }
    return Ok(bytes);
  }

  // ---------- reading ----------

  /** The length-prefixed string at the head of `s` and what follows it. */
  function Unprefix(s: seq<byte>): Option<(seq<byte>, seq<byte>)> {
    if s == [] then None
    else
      var end: nat := 1 + s[0] as int;
      if |s| < end then None else Some((s[1..end], s[end..]))
  }

  /** Reading a length-prefixed string at a cursor. */
  lemma UnprefixAt(s: seq<byte>, i: nat)
    requires i <= |s|
    ensures Unprefix(s[i..]) ==
            if i == |s| || |s| < i + 1 + s[i] as int then None
            else Some((s[i + 1..i + 1 + s[i] as int], s[i + 1 + s[i] as int..]))
  {
    if i < |s| {
      var end: nat := i + 1 + s[i] as int;
      if end <= |s| {
        assert s[i..][1..end - i] == s[i + 1..end];
        assert s[i..][end - i..] == s[end..];
      }
    }
  }

  function DecodeMessage(kind: byte, s: seq<byte>): Result<(Option<Message>, seq<byte>), Invalid> {
    match kind
    case 0 => Ok((None, s))
    case 1 =>
      (match Unprefix(s)
       case None => Err(Invalid)
       case Some((name, rest)) => if ValidUtf8(name) then Ok((Some(Propose(name)), rest)) else Err(Invalid))
    case 2 => Ok((Some(Accept), s))
    case 3 => Ok((Some(Fail), s))
    case _ => Err(Invalid)
  }

  function DecodeAddr(std: Std, s: seq<byte>): Result<Addr, Invalid> {
    match Unprefix(s)
    case None => Err(Invalid)
    case Some((text, _)) =>
      if !ValidUtf8(text) then Err(Invalid)
      else match ParseAddr(std, text)
           case Ok(addr) => Ok(addr)
           case Err(_) => Err(Invalid)
  }

  function Decode(std: Std, s: seq<byte>): Result<HandshakePacket, Invalid> {
    if s == [] then Err(Invalid)
    else match DecodeMessage(s[0] % 16, s[1..])
         case Err(e) => Err(e)
         case Ok((negotiate, rest)) =>
           if s[0] / 16 > 0 then
             match DecodeAddr(std, rest)
             case Err(e) => Err(e)
             case Ok(addr) => Ok(HandshakePacket(negotiate, Some(addr)))
           else Ok(HandshakePacket(negotiate, None))
  }

  /** `from_bytes`: the cursor never leaves the byte string. */
  method FromBytes(std: Std, bytes: seq<byte>) returns (r: Result<HandshakePacket, Invalid>)
    ensures r == Decode(std, bytes)
  {
    var i: nat := 0;
    if |bytes| <= i {
      return Err(Invalid);
    }
    var ty := bytes[0];
    i := i + 1;
    var containsAddr := ty / 16 > 0;
    var negotiate: Option<Message>;
    if ty % 16 == 0 {
      negotiate := None;
    } else if ty % 16 == 1 {
      if |bytes| <= i {
        return Err(Invalid);
      }
      var len: nat := bytes[i];
      i := i + 1;
      var i2 := i + len;
      if |bytes| < i2 {
        return Err(Invalid);
      }
      var name := bytes[i..i2];
      UnprefixAt(bytes, 1);
      if !ValidUtf8(name) {
        return Err(Invalid);
      }
      negotiate := Some(Propose(name));
      i := i2;
    } else if ty % 16 == 2 {
      negotiate := Some(Accept);
    } else if ty % 16 == 3 {
      negotiate := Some(Fail);
    } else {
      return Err(Invalid);
    }
    assert DecodeMessage(ty % 16, bytes[1..]) == Ok((negotiate, bytes[i..]));
    if !containsAddr {
      return Ok(HandshakePacket(negotiate, None));
    }
    UnprefixAt(bytes, i);
    if |bytes| <= i {
      return Err(Invalid);
    }
    var len: nat := bytes[i];
    i := i + 1;
    var i2 := i + len;
    if |bytes| < i2 {
      return Err(Invalid);
    }
    var text := bytes[i..i2];
    if !ValidUtf8(text) {
      return Err(Invalid);
    }
    var parsed := FromStr(std, text);
    match parsed
    case Err(_) => return Err(Invalid);
    case Ok(addr) => return Ok(HandshakePacket(negotiate, Some(addr)));
  }

  // ---------- round trips ----------

  lemma UnprefixPrefixed(s: seq<byte>, rest: seq<byte>)
    requires |s| < 256
    ensures Unprefix(Prefixed(s) + rest) == Some((s, rest))
  {
  }

  lemma MessageRoundTrip(negotiate: Option<Message>, rest: seq<byte>)
    requires negotiate.Some? && negotiate.value.Propose? ==> |negotiate.value.protocol| < 256
    ensures DecodeMessage(Kind(negotiate), MessageBytes(negotiate) + rest) == Ok((negotiate, rest))
  {
    if negotiate.Some? && negotiate.value.Propose? {
      UnprefixPrefixed(negotiate.value.protocol, rest);
    } else {
      assert MessageBytes(negotiate) + rest == rest;
    }
  }

  lemma AddrBytesRoundTrip(std: Std, addr: Addr, rest: seq<byte>)
    requires Faithful(std)
    ensures |PrintAddr(std, addr)| < 256
    ensures DecodeAddr(std, Prefixed(PrintAddr(std, addr)) + rest) == Ok(addr)
  {
    AddrRoundTrip(std, addr);
    AddrTextIsStr(std, addr);
    UnprefixPrefixed(PrintAddr(std, addr), rest);
  }

  /** Whatever a packet encodes to decodes to that packet, also when other
      bytes follow it. */
  lemma PacketRoundTrip(std: Std, p: HandshakePacket, bytes: seq<byte>, junk: seq<byte>)
    requires Faithful(std)
    requires Encode(std, p) == Ok(bytes)
    ensures Decode(std, bytes + junk) == Ok(p)
  {
    var rest := AddrBytes(std, p.externalAddr) + junk;
    var s := bytes + junk;
    assert s[1..] == MessageBytes(p.negotiate) + rest;
    assert s[0] % 16 == Kind(p.negotiate) && (s[0] / 16 > 0 <==> p.externalAddr.Some?);
    MessageRoundTrip(p.negotiate, rest);
    if p.externalAddr.Some? {
      AddrBytesRoundTrip(std, p.externalAddr.value, junk);
    }
  }

  lemma PacketRoundTripExact(std: Std, p: HandshakePacket)
    requires Faithful(std) && Fits(std, p)
    ensures Decode(std, Layout(std, p)) == Ok(p)
  {
    PacketRoundTrip(std, p, Layout(std, p), []);
    assert Layout(std, p) + [] == Layout(std, p);
  }

  /** Encoding fails exactly on a proposal whose name exceeds 255 bytes. */
  lemma EncodesUnlessNameTooLong(std: Std, p: HandshakePacket)
    requires Faithful(std)
    ensures Encode(std, p).Err? <==>
            p.negotiate.Some? && p.negotiate.value.Propose? && |p.negotiate.value.protocol| > 255
  {
    if p.externalAddr.Some? {
      AddrTextIsStr(std, p.externalAddr.value);
    }
  }

  /** Every accepted byte string, canonical or not, decodes to a packet that
      encodes, and whose encoding decodes to the same packet. */
  lemma DecoderNormalForm(std: Std, bytes: seq<byte>)
    requires Faithful(std)
    requires Decode(std, bytes).Ok?
    ensures var p := Decode(std, bytes).value;
            Encode(std, p).Ok? && Decode(std, Encode(std, p).value) == Ok(p)
  {
    var p := Decode(std, bytes).value;
    EncodesUnlessNameTooLong(std, p);
    PacketRoundTripExact(std, p);
  }

  // ---------- the bytes themselves ----------

  /** The bytes of every packet: message kinds 0 to 3, a length before a name,
      and 0xf0 over the kind when a length and an address text follow. */
  lemma EncodedBytes(std: Std, p: HandshakePacket)
    requires Fits(std, p)
    ensures var mark := if p.externalAddr.Some? then 0xf0 else 0;
            var tail := if p.externalAddr.Some?
                        then [|PrintAddr(std, p.externalAddr.value)|] + PrintAddr(std, p.externalAddr.value) else [];
            Encode(std, p) == Ok(
              match p.negotiate
              case None => [mark] + tail
              case Some(Propose(name)) => [mark + 1, |name|] + name + tail
              case Some(Accept) => [mark + 2] + tail
              case Some(Fail) => [mark + 3] + tail)
  {
    var mark := if p.externalAddr.Some? then 0xf0 else 0;
    match p.negotiate
    case Some(Propose(name)) => assert [mark + 1] + ([|name|] + name) == [mark + 1, |name|] + name;
    case _ =>
      assert [mark + Kind(p.negotiate)] + [] == [mark + Kind(p.negotiate)];
  }

  /** Where the address begins, for a packet whose message is sound. */
  function AddrStart(bytes: seq<byte>): nat
    requires bytes != []
  {
    if bytes[0] % 16 == 1 && |bytes| >= 2 then 2 + bytes[1] as nat else 1
  }

  predicate MessageSound(bytes: seq<byte>)
    requires bytes != []
  {
    || bytes[0] % 16 in {0, 2, 3}
    || (bytes[0] % 16 == 1 && |bytes| >= 2 && AddrStart(bytes) <= |bytes| && ValidUtf8(bytes[2..AddrStart(bytes)]))
  }

  function MessageOf(bytes: seq<byte>): Option<Message>
    requires bytes != [] && MessageSound(bytes)
  {
    if bytes[0] % 16 == 0 then None
    else if bytes[0] % 16 == 1 then Some(Propose(bytes[2..AddrStart(bytes)]))
    else if bytes[0] % 16 == 2 then Some(Accept)
    else Some(Fail)
  }

  /** A length and as many bytes at position `i`. */
  predicate Prefixes(bytes: seq<byte>, i: nat) {
    i < |bytes| && i + 1 + bytes[i] as nat <= |bytes|
  }

  function PrefixedAt(bytes: seq<byte>, i: nat): seq<byte>
    requires Prefixes(bytes, i)
  {
    bytes[i + 1..i + 1 + bytes[i] as nat]
  }

  predicate AddrSound(std: Std, bytes: seq<byte>, i: nat) {
    && Prefixes(bytes, i) && ValidUtf8(PrefixedAt(bytes, i))
    && ParseAddr(std, PrefixedAt(bytes, i)).Ok?
  }

  lemma AddrDecodes(std: Std, bytes: seq<byte>, i: nat)
    requires i <= |bytes|
    ensures DecodeAddr(std, bytes[i..]) ==
            if AddrSound(std, bytes, i) then Ok(ParseAddr(std, PrefixedAt(bytes, i)).value) else Err(Invalid)
  {
    UnprefixAt(bytes, i);
  }

  lemma MessageDecodes(bytes: seq<byte>)
    requires bytes != []
    ensures DecodeMessage(bytes[0] % 16, bytes[1..]).Ok? <==> MessageSound(bytes)
    ensures MessageSound(bytes) ==>
              && AddrStart(bytes) <= |bytes|
              && DecodeMessage(bytes[0] % 16, bytes[1..]) == Ok((MessageOf(bytes), bytes[AddrStart(bytes)..]))
  {
    UnprefixAt(bytes, 1);
  }

  /** Exactly which byte strings are accepted, and what they mean: by the kind in
      the low nibble, the name after its length, and the address after its
      length when the high nibble is not zero. */
  lemma DecodedBytes(std: Std, bytes: seq<byte>)
    ensures Decode(std, bytes) ==
            if bytes == [] || !MessageSound(bytes) then Err(Invalid)
            else if bytes[0] < 16 then Ok(HandshakePacket(MessageOf(bytes), None))
            else if !AddrSound(std, bytes, AddrStart(bytes)) then Err(Invalid)
            else Ok(HandshakePacket(MessageOf(bytes), Some(ParseAddr(std, PrefixedAt(bytes, AddrStart(bytes))).value)))
  {
    if bytes != [] {
      MessageDecodes(bytes);
      if MessageSound(bytes) {
        AddrDecodes(std, bytes, AddrStart(bytes));
      }
    }
  }
}
