/** Socket addresses and their textual form, `/ip4/127.0.0.1/udp/8000`
    (addr/src/lib.rs). */
module Addresses {
  import opened Common
  import opened Text
  import opened Encodings

  datatype Ip = V4(a: byte, b: byte, c: byte, d: byte) | V6(bits: u128)

  datatype Addr = Addr(ip: Ip, port: u16)

  datatype AddrError = UnknownProtocol | BadIp | BadPort

  /** What the address text takes from Rust's standard library: the textual
      form of an IPv6 address (section 2.2 of RFC 4291), kept abstract, and
      whether a dotted-decimal octet may carry leading zeros, which depends on
      the library's version. */
  datatype Std = Std(print6: u128 -> seq<byte>, parse6: seq<byte> -> Option<u128>, zeroPrefix: bool)

  /** The hypotheses on the abstract IPv6 text. */
  ghost predicate Faithful(std: Std) {
    forall bits: u128 ::
      && std.parse6(std.print6(bits)) == Some(bits)
      && SLASH !in std.print6(bits)
      && Ascii(std.print6(bits))
      && |std.print6(bits)| <= 45
  }

  const SLASH: byte := 47
  const DOT: byte := 46
  const PLUS: byte := 43
  const IP4: seq<byte> := [105, 112, 52]
  const IP6: seq<byte> := [105, 112, 54]
  const UDP: seq<byte> := [117, 100, 112]

  // ---------- IPv4 and port ----------

  function PrintV4(ip: Ip): seq<byte>
    requires ip.V4?
  {
    Join([PrintDec(ip.a), PrintDec(ip.b), PrintDec(ip.c), PrintDec(ip.d)], DOT)
  }

  function ParseOctet(std: Std, s: seq<byte>): Option<byte> {
    if 1 <= |s| <= 3 && AllDigits(s) && DecValue(s) < 256
       && (std.zeroPrefix || |s| == 1 || s[0] != ZERO)
    then Some(DecValue(s)) else None
  }

  function ParseV4(std: Std, s: seq<byte>): Option<Ip> {
    var parts := Split(s, DOT);
    if |parts| != 4 then None
    else
      match (ParseOctet(std, parts[0]), ParseOctet(std, parts[1]),
             ParseOctet(std, parts[2]), ParseOctet(std, parts[3]))
      case (Some(a), Some(b), Some(c), Some(d)) => Some(V4(a, b, c, d))
      case _ => None
  }

  /** `u16::from_str`: an optional plus sign, then at least one digit. */
  function ParseU16(s: seq<byte>): Option<u16> {
    var digits := if s != [] && s[0] == PLUS then s[1..] else s;
    if digits != [] && AllDigits(digits) && DecValue(digits) < 0x1_0000
    then Some(DecValue(digits)) else None
  }

  // ---------- addresses ----------

  function ParseIp(std: Std, key: seq<byte>, value: seq<byte>): Result<Ip, AddrError> {
    if key == IP4 then
      match ParseV4(std, value)
      case Some(ip) => Ok(ip)
      case None => Err(BadIp)
    else if key == IP6 then
      match std.parse6(value)
      case Some(bits) => Ok(V6(bits))
      case None => Err(BadIp)
    else Err(UnknownProtocol)
  }

  function ParsePort(key: seq<byte>, value: seq<byte>): Result<u16, AddrError> {
    if key == UDP then
      match ParseU16(value)
      case Some(port) => Ok(port)
      case None => Err(BadPort)
    else Err(UnknownProtocol)
  }

  /** An IP pair and optionally a port pair, and nothing after them. */
  function ParsePieces(std: Std, parts: seq<seq<byte>>): Result<Addr, AddrError> {
    if |parts| < 3 then Err(UnknownProtocol)
    else
      match ParseIp(std, parts[1], parts[2])
      case Err(e) => Err(e)
      case Ok(ip) =>
        if |parts| == 3 then Ok(Addr(ip, 0))
        else if |parts| == 4 then Err(UnknownProtocol)
        else
          match ParsePort(parts[3], parts[4])
          case Err(e) => Err(e)
          case Ok(port) => if |parts| == 5 then Ok(Addr(ip, port)) else Err(UnknownProtocol)
  }

  function ParseAddr(std: Std, text: seq<byte>): Result<Addr, AddrError> {
    ParsePieces(std, Split(text, SLASH))
  }

  function IpText(std: Std, ip: Ip): seq<byte> {
    if ip.V4? then PrintV4(ip) else std.print6(ip.bits)
  }

  function PrintAddr(std: Std, addr: Addr): seq<byte> {
    [SLASH] + (if addr.ip.V4? then IP4 else IP6) + [SLASH] + IpText(std, addr.ip)
    + [SLASH] + UDP + [SLASH] + PrintDec(addr.port)
  }

  /** `Addr::from_str`: the loop over the pairs that follow the first slash. */
  method FromStr(std: Std, text: seq<byte>) returns (r: Result<Addr, AddrError>)
    ensures r == ParseAddr(std, text)
  {
    var parts := Split(text, SLASH);
    var ip: Option<Ip> := None;
    var port: Option<u16> := None;
    var chunk, i := 0, 1;
    while i < |parts|
      invariant i == 1 + 2 * chunk
      invariant i <= |parts| + 1
      invariant chunk == 0 ==> ip.None? && port.None?
      invariant chunk >= 1 ==> i <= |parts| && ip.Some? && ParseIp(std, parts[1], parts[2]) == Ok(ip.value)
      invariant chunk == 1 ==> port.None?
      invariant chunk >= 2 ==> port.Some? && ParsePort(parts[3], parts[4]) == Ok(port.value)
      invariant chunk <= 2
    {
      if chunk == 0 && i + 1 < |parts| {
        match ParseIp(std, parts[i], parts[i + 1])
        case Err(e) => return Err(e);
        case Ok(v) => ip := Some(v);
      } else if chunk == 1 && i + 1 < |parts| {
        match ParsePort(parts[i], parts[i + 1])
        case Err(e) => return Err(e);
        case Ok(v) => port := Some(v);
      } else {
        return Err(UnknownProtocol);
      }
      chunk, i := chunk + 1, i + 2;
    }
    if ip.None? {
      return Err(UnknownProtocol);
    }
    return Ok(Addr(ip.value, if port.Some? then port.value else 0));
  }

  // ---------- round trips ----------

  lemma OctetRoundTrip(std: Std, n: byte)
    ensures ParseOctet(std, PrintDec(n)) == Some(n)
    ensures AllDigits(PrintDec(n)) && |PrintDec(n)| <= 3
  {
    DecRoundTrip(n);
    DecLength(n, 3) by { assert Pow10(3) == 1000; }
  }

  lemma V4RoundTrip(std: Std, ip: Ip)
    requires ip.V4?
    ensures ParseV4(std, PrintV4(ip)) == Some(ip)
    ensures SLASH !in PrintV4(ip) && Ascii(PrintV4(ip)) && |PrintV4(ip)| <= 15
  {
    OctetRoundTrip(std, ip.a);
    OctetRoundTrip(std, ip.b);
    OctetRoundTrip(std, ip.c);
    OctetRoundTrip(std, ip.d);
    var parts := [PrintDec(ip.a), PrintDec(ip.b), PrintDec(ip.c), PrintDec(ip.d)];
    SplitJoin(parts, DOT);
    JoinFour(parts);
    Constants();
  }

  lemma PortRoundTrip(port: u16)
    ensures ParseU16(PrintDec(port)) == Some(port)
    ensures AllDigits(PrintDec(port)) && |PrintDec(port)| <= 5
  {
    DecRoundTrip(port);
    DecLength(port, 5) by { assert Pow10(5) == 100000; }
  }

  lemma IpTextFacts(std: Std, ip: Ip)
    requires Faithful(std)
    ensures ParseIp(std, if ip.V4? then IP4 else IP6, IpText(std, ip)) == Ok(ip)
    ensures SLASH !in IpText(std, ip) && Ascii(IpText(std, ip)) && |IpText(std, ip)| <= 45
  {
    if ip.V4? {
      V4RoundTrip(std, ip);
    }
  }

  /** Parsing the printed form of any address gives that address back. */
  lemma AddrRoundTrip(std: Std, addr: Addr)
    requires Faithful(std)
    ensures ParseAddr(std, PrintAddr(std, addr)) == Ok(addr)
  {
    var key := if addr.ip.V4? then IP4 else IP6;
    var parts := [[], key, IpText(std, addr.ip), UDP, PrintDec(addr.port)];
    IpTextFacts(std, addr.ip);
    PortRoundTrip(addr.port);
    assert Join(parts, SLASH) == PrintAddr(std, addr) by {
      JoinFive(parts);
    }
    SplitJoin(parts, SLASH);
  }

  lemma JoinFive(parts: seq<seq<byte>>)
    requires |parts| == 5 && parts[0] == []
    ensures Join(parts, SLASH)
         == [SLASH] + parts[1] + [SLASH] + parts[2] + [SLASH] + parts[3] + [SLASH] + parts[4]
  {
    var a, b, c, d := parts[1..], parts[1..][1..], parts[1..][1..][1..], parts[1..][1..][1..][1..];
    assert Join(d, SLASH) == parts[4];
    assert Join(c, SLASH) == parts[3] + [SLASH] + parts[4];
    assert Join(b, SLASH) == parts[2] + [SLASH] + (parts[3] + [SLASH] + parts[4]);
    assert Join(a, SLASH) == parts[1] + [SLASH] + (parts[2] + [SLASH] + (parts[3] + [SLASH] + parts[4]));
  }

  /** Printed addresses are UTF-8 and fit a one-byte length. */
  lemma AddrTextIsStr(std: Std, addr: Addr)
    requires Faithful(std)
    ensures ValidUtf8(PrintAddr(std, addr)) && |PrintAddr(std, addr)| <= 60
  {
    IpTextFacts(std, addr.ip);
    PortRoundTrip(addr.port);
    assert Ascii(PrintDec(addr.port));
    assert Ascii(PrintAddr(std, addr));
    AsciiIsUtf8(PrintAddr(std, addr));
  }

  // ---------- the accepted texts, by their characters ----------

  /** The bytes of ASCII characters. */
  function Word(s: string): seq<byte>
    requires forall i :: 0 <= i < |s| ==> (s[i] as int) < 0x80
  {
    seq(|s|, i requires 0 <= i < |s| => s[i] as int)
  }

  predicate OctetText(std: Std, s: seq<byte>, n: int) {
    Numeral(s, n) && |s| <= 3 && n < 256 && (std.zeroPrefix || |s| == 1 || s[0] != '0' as int)
  }

  /** Four groups of digits in order, separated by dots. */
  predicate Dotted(std: Std, s: seq<byte>, groups: seq<seq<byte>>, ip: Ip) {
    && ip.V4? && |groups| == 4
    && s == groups[0] + Word(".") + groups[1] + Word(".") + groups[2] + Word(".") + groups[3]
    && OctetText(std, groups[0], ip.a) && OctetText(std, groups[1], ip.b)
    && OctetText(std, groups[2], ip.c) && OctetText(std, groups[3], ip.d)
  }

  /** Digits, after a plus sign if there is one. */
  predicate PortText(s: seq<byte>, n: int) {
    n < 0x1_0000 && (Numeral(s, n) || (s != [] && s[0] == '+' as int && Numeral(s[1..], n)))
  }

  ghost predicate IpPair(std: Std, key: seq<byte>, value: seq<byte>, ip: Ip) {
    || (key == Word("ip4") && exists groups :: Dotted(std, value, groups, ip))
    || (key == Word("ip6") && ip.V6? && std.parse6(value) == Some(ip.bits))
  }

  lemma Constants()
    ensures Word("ip4") == IP4 && Word("ip6") == IP6 && Word("udp") == UDP
    ensures Word("/") == [SLASH] && Word(".") == [DOT] && Word("+") == [PLUS]
    ensures SLASH == '/' as int && DOT == '.' as int && PLUS == '+' as int && ZERO == '0' as int
  {
  }

  lemma OctetParses(std: Std, s: seq<byte>, n: int)
    requires 0 <= n
    ensures OctetText(std, s, n) <==> n < 256 && ParseOctet(std, s) == Some(n)
  {
    DecimalIsPositional(s);
  }

  lemma PortParses(s: seq<byte>, n: int)
    requires 0 <= n
    ensures PortText(s, n) <==> n < 0x1_0000 && ParseU16(s) == Some(n)
  {
    DecimalIsPositional(s);
    if s != [] {
      DecimalIsPositional(s[1..]);
    }
  }

  lemma JoinFour(parts: seq<seq<byte>>)
    requires |parts| == 4
    ensures Join(parts, DOT) == parts[0] + Word(".") + parts[1] + Word(".") + parts[2] + Word(".") + parts[3]
  {
    Constants();
    var a, b, c := parts[1..], parts[1..][1..], parts[1..][1..][1..];
    assert Join(c, DOT) == parts[3];
    assert Join(b, DOT) == parts[2] + [DOT] + parts[3];
    assert Join(a, DOT) == parts[1] + [DOT] + (parts[2] + [DOT] + parts[3]);
  }

  lemma DottedSplits(std: Std, s: seq<byte>, groups: seq<seq<byte>>, ip: Ip)
    requires Dotted(std, s, groups, ip)
    ensures Split(s, DOT) == groups
  {
    JoinFour(groups);
    SplitJoin(groups, DOT);
  }

  lemma V4Parses(std: Std, s: seq<byte>, ip: Ip)
    ensures (exists groups :: Dotted(std, s, groups, ip)) <==> ip.V4? && ParseV4(std, s) == Some(ip)
  {
    forall groups | Dotted(std, s, groups, ip)
      ensures ParseV4(std, s) == Some(ip)
    {
      DottedSplits(std, s, groups, ip);
      OctetParses(std, groups[0], ip.a);
      OctetParses(std, groups[1], ip.b);
      OctetParses(std, groups[2], ip.c);
      OctetParses(std, groups[3], ip.d);
    }
    if ip.V4? && ParseV4(std, s) == Some(ip) {
      var groups := Split(s, DOT);
      JoinSplit(s, DOT);
      JoinFour(groups);
      OctetParses(std, groups[0], ip.a);
      OctetParses(std, groups[1], ip.b);
      OctetParses(std, groups[2], ip.c);
      OctetParses(std, groups[3], ip.d);
      assert Dotted(std, s, groups, ip);
    }
  }

  lemma IpParses(std: Std, key: seq<byte>, value: seq<byte>, ip: Ip)
    ensures IpPair(std, key, value, ip) <==> ParseIp(std, key, value) == Ok(ip)
  {
    Constants();
    V4Parses(std, value, ip);
  }

  /** The pieces of an accepted text, by their characters. */
  ghost predicate AddrPieces(std: Std, parts: seq<seq<byte>>, addr: Addr) {
    && (|parts| == 3 || |parts| == 5)
    && Slashless(parts)
    && IpPair(std, parts[1], parts[2], addr.ip)
    && (|parts| == 3 ==> addr.port == 0)
    && (|parts| == 5 ==> parts[3] == Word("udp") && PortText(parts[4], addr.port))
  }

  predicate Slashless(parts: seq<seq<byte>>) {
    forall i :: 0 <= i < |parts| ==> '/' as int !in parts[i]
  }

  /** Exactly the texts that parse: the text before the first slash is ignored,
      the port pair may be absent, and anything else is refused. */
  lemma AddrAccepted(std: Std, text: seq<byte>, addr: Addr)
    ensures ParseAddr(std, text) == Ok(addr) <==>
            (exists parts: seq<seq<byte>> :: AddrPieces(std, parts, addr) && text == Join(parts, '/' as int))
  {
    var parts := Split(text, SLASH);
    Constants();
    JoinSplit(text, SLASH);
    if |parts| >= 3 {
      IpParses(std, parts[1], parts[2], addr.ip);
    }
    if |parts| >= 5 {
      PortParses(parts[4], addr.port);
    }
    if ParseAddr(std, text) == Ok(addr) {
      assert AddrPieces(std, parts, addr);
    }
    forall ps: seq<seq<byte>> | AddrPieces(std, ps, addr) && text == Join(ps, '/' as int)
      ensures ps == parts
    {
      SplitJoin(ps, SLASH);
    }
  }

  ghost predicate SomeIp(std: Std, key: seq<byte>, value: seq<byte>) {
    exists ip :: IpPair(std, key, value, ip)
  }

  ghost predicate SomePort(s: seq<byte>) {
    exists n: u16 :: PortText(s, n)
  }

  lemma PiecesErrors(std: Std, parts: seq<seq<byte>>, r: Result<Addr, AddrError>)
    requires r == ParsePieces(std, parts)
    ensures if |parts| < 3 || (parts[1] != Word("ip4") && parts[1] != Word("ip6")) then r == Err(UnknownProtocol)
            else if !SomeIp(std, parts[1], parts[2]) then r == Err(BadIp)
            else if |parts| == 3 then r.Ok?
            else if |parts| == 4 || parts[3] != Word("udp") then r == Err(UnknownProtocol)
            else if !SomePort(parts[4]) then r == Err(BadPort)
            else if |parts| > 5 then r == Err(UnknownProtocol)
            else r.Ok?
  {
    Constants();
    if |parts| >= 3 {
      IpPairExists(std, parts[1], parts[2]);
    }
    if |parts| >= 5 {
      PortExists(parts[4]);
    }
  }

  /** Which error a text without an address gives: the first bad piece decides. */
  lemma AddrErrors(std: Std, parts: seq<seq<byte>>)
    requires parts != [] && Slashless(parts)
    ensures var r := ParseAddr(std, Join(parts, '/' as int));
            if |parts| < 3 || (parts[1] != Word("ip4") && parts[1] != Word("ip6")) then r == Err(UnknownProtocol)
            else if !SomeIp(std, parts[1], parts[2]) then r == Err(BadIp)
            else if |parts| == 3 then r.Ok?
            else if |parts| == 4 || parts[3] != Word("udp") then r == Err(UnknownProtocol)
            else if !SomePort(parts[4]) then r == Err(BadPort)
            else if |parts| > 5 then r == Err(UnknownProtocol)
            else r.Ok?
  {
    SplitJoin(parts, SLASH);
    PiecesErrors(std, parts, ParseAddr(std, Join(parts, '/' as int)));
  }

  lemma IpPairExists(std: Std, key: seq<byte>, value: seq<byte>)
    ensures SomeIp(std, key, value) <==> ParseIp(std, key, value).Ok?
    ensures ParseIp(std, key, value).Err? ==>
              ParseIp(std, key, value).error == if key == Word("ip4") || key == Word("ip6") then BadIp else UnknownProtocol
  {
    Constants();
    if ParseIp(std, key, value).Ok? {
      IpParses(std, key, value, ParseIp(std, key, value).value);
    }
    forall ip | IpPair(std, key, value, ip)
      ensures ParseIp(std, key, value).Ok?
    {
      IpParses(std, key, value, ip);
    }
  }

  lemma PortExists(s: seq<byte>)
    ensures SomePort(s) <==> ParseU16(s).Some?
  {
    if ParseU16(s).Some? {
      PortParses(s, ParseU16(s).value);
    }
    forall n: u16 | PortText(s, n)
      ensures ParseU16(s).Some?
    {
      PortParses(s, n);
    }
  }

  /** What is printed, by its characters; the numerals have no leading zeros. */
  lemma PrintedAddr(std: Std, addr: Addr)
    ensures var ip, port := addr.ip, PrintDec(addr.port);
            && Canonical(port, addr.port)
            && (ip.V4? ==>
                  && Canonical(PrintDec(ip.a), ip.a) && Canonical(PrintDec(ip.b), ip.b)
                  && Canonical(PrintDec(ip.c), ip.c) && Canonical(PrintDec(ip.d), ip.d)
                  && PrintAddr(std, addr) ==
                     Word("/ip4/") + (PrintDec(ip.a) + Word(".") + PrintDec(ip.b) + Word(".")
                                      + PrintDec(ip.c) + Word(".") + PrintDec(ip.d)) + Word("/udp/") + port)
            && (ip.V6? ==> PrintAddr(std, addr) == Word("/ip6/") + std.print6(ip.bits) + Word("/udp/") + port)
  {
    var ip := addr.ip;
    Constants();
    PrintedNumeral(addr.port);
    assert Word("/ip4/") == [SLASH] + IP4 + [SLASH] && Word("/ip6/") == [SLASH] + IP6 + [SLASH];
    assert Word("/udp/") == [SLASH] + UDP + [SLASH];
    if ip.V4? {
      PrintedNumeral(ip.a);
      PrintedNumeral(ip.b);
      PrintedNumeral(ip.c);
      PrintedNumeral(ip.d);
      JoinFour([PrintDec(ip.a), PrintDec(ip.b), PrintDec(ip.c), PrintDec(ip.d)]);
    }
  }

  predicate Canonical(s: seq<byte>, n: int) {
    Numeral(s, n) && (|s| > 1 ==> s[0] != '0' as int)
  }
}
