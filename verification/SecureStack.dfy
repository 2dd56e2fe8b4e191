/** DTCP over Disco over DTP: what the sending channels put on the wire and
    what the receiving ones make of it (dtcp/src/packet.rs, efcp/src/secure.rs,
    dtp/src/packet.rs and the send and recv of their channels). */
module SecureStack {
  import opened Common
  import opened PacketStack
  import opened Encodings

  datatype DtcpType = Transfer(drf: bool) | Control

  /** The session's transport ciphers, kept abstract: ciphertext and tag for a
      nonce and a plaintext, and back. */
  datatype Crypto = Crypto(
    tagLen: nat,
    seal: (u64, seq<byte>) -> (seq<byte>, seq<byte>),
    open: (u64, seq<byte>, seq<byte>) -> Option<seq<byte>>)

  /** Encryption is in place, and decryption undoes it for an equal nonce and
      tag. */
  ghost predicate Sound(c: Crypto) {
    && (forall nonce: u64, text: seq<byte> ::
          && |c.seal(nonce, text).0| == |text| && |c.seal(nonce, text).1| == c.tagLen
          && c.open(nonce, c.seal(nonce, text).0, c.seal(nonce, text).1) == Some(text))
    && (forall nonce: u64, text: seq<byte>, tag: seq<byte> ::
          c.open(nonce, text, tag).Some? ==> |c.open(nonce, text, tag).value| == |text|)
  }

  const DTP: nat := 0
  const DISCO: nat := 1
  const DTCP: nat := 2

  function Layers(tagLen: nat): Stack {
    [1, 8 + tagLen, 3]
  }

  lemma LayersAt(tagLen: nat)
    ensures var hs := Layers(tagLen);
            Offset(hs, 0) == 0 && Offset(hs, 1) == 1 && Offset(hs, 2) == 9 + tagLen && Headers(hs) == 12 + tagLen
  {
    var hs := Layers(tagLen);
    assert Offset(hs, 1) == 1 && Offset(hs, 2) == 9 + tagLen;
  }

  // ---------- header values ----------

  /** `set_ty`: the type in the high nibble, the flag in the low one. */
  function TypeByte(ty: DtcpType): byte {
    match ty
    case Transfer(drf) => if drf then 1 else 0
    case Control => 16
  }

  /** `ty`, for the types that `check` lets through. */
  function TypeOf(b: byte): Option<DtcpType> {
    match b / 16
    case 0 => Some(Transfer(b % 2 == 1))
    case 1 => Some(Control)
    case _ => None
  }

  datatype Fields = Fields(channel: byte, nonce: u64, ty: DtcpType, seqNum: u16)

  // ---------- the wire format ----------

  /** DTP channel, Disco nonce and tag, then DTCP header and payload sealed
      together. */
  function Wire(c: Crypto, f: Fields, payload: seq<byte>): seq<byte> {
    var (text, tag) := c.seal(f.nonce, [TypeByte(f.ty)] + ToBE(f.seqNum, 2) + payload);
    [f.channel] + ToBE(f.nonce, 8) + tag + text
  }

  // ---------- sending ----------

  /** `DtcpChannel::send` on the buffer. */
  function DtcpWrites(tagLen: nat, f: Fields, bytes: seq<byte>): (r: seq<byte>)
    requires |bytes| >= 12 + tagLen
    ensures |r| == |bytes|
  {
    LayersAt(tagLen);
    var hs := Layers(tagLen);
    SetField(hs, DTCP, 1, ToBE(f.seqNum, 2), SetField(hs, DTCP, 0, [TypeByte(f.ty)], bytes))
  }

  /** `DiscoChannel::send` on the buffer: nonce, encryption in place, tag. */
  function DiscoWrites(c: Crypto, nonce: u64, bytes: seq<byte>): (r: seq<byte>)
    requires Sound(c) && |bytes| >= 9 + c.tagLen
    ensures |r| == |bytes|
  {
    LayersAt(c.tagLen);
    var hs := Layers(c.tagLen);
    var bytes := SetField(hs, DISCO, 0, ToBE(nonce, 8), bytes);
    var (text, tag) := c.seal(nonce, Payload(hs, 2, bytes));
    SetField(hs, DISCO, 8, tag, Poke(hs, 2, bytes, 0, text))
  }

  /** `poll_send` on the buffer. */
  function DtpWrites(f: Fields, bytes: seq<byte>): seq<byte>
    requires |bytes| >= 1
  {
    SetField([1], DTP, 0, [f.channel], bytes)
  }

  lemma SpliceMiddle(a: seq<byte>, b: seq<byte>, s: seq<byte>, c: seq<byte>)
    requires |b| == |s|
    ensures Splice(a + b + c, |a|, s) == a + s + c
  {
    var bytes := a + b + c;
    assert bytes[..|a|] == a && bytes[|a| + |s|..] == c;
  }

  lemma SpliceEnd(a: seq<byte>, b: seq<byte>, s: seq<byte>)
    requires |b| == |s|
    ensures Splice(a + b, |a|, s) == a + s
  {
    assert (a + b)[..|a|] == a && (a + b)[|a| + |s|..] == [];
  }

  lemma Assoc(a: seq<byte>, b: seq<byte>, c: seq<byte>, d: seq<byte>)
    ensures a + b + c + d == a + b + (c + d) == a + (b + c + d)
  {
  }

  lemma DtcpWritesType(tagLen: nat, f: Fields, low: seq<byte>, h0: seq<byte>, h1: seq<byte>, payload: seq<byte>)
    requires |low| == 9 + tagLen && |h0| == 1 && |h1| == 2
    ensures Headers(Layers(tagLen)) == 12 + tagLen
    ensures SetField(Layers(tagLen), DTCP, 0, [TypeByte(f.ty)], low + h0 + h1 + payload)
         == low + [TypeByte(f.ty)] + h1 + payload
  {
    LayersAt(tagLen);
    var ty := [TypeByte(f.ty)];
    Assoc(low, h0, h1, payload);
    Assoc(low, ty, h1, payload);
    SpliceMiddle(low, h0, ty, h1 + payload);
    PokeIsSplice(Layers(tagLen), DTCP, low + h0 + h1 + payload, 0, ty);
  }

  lemma DtcpWritesNumber(tagLen: nat, f: Fields, low: seq<byte>, ty: seq<byte>, h1: seq<byte>, payload: seq<byte>)
    requires |low| == 9 + tagLen && |ty| == 1 && |h1| == 2
    ensures Headers(Layers(tagLen)) == 12 + tagLen
    ensures SetField(Layers(tagLen), DTCP, 1, ToBE(f.seqNum, 2), low + ty + h1 + payload)
         == low + ty + ToBE(f.seqNum, 2) + payload
  {
    LayersAt(tagLen);
    SpliceMiddle(low + ty, h1, ToBE(f.seqNum, 2), payload);
    PokeIsSplice(Layers(tagLen), DTCP, low + ty + h1 + payload, 1, ToBE(f.seqNum, 2));
  }

  lemma DtcpWritesHeader(tagLen: nat, f: Fields, low: seq<byte>, h0: seq<byte>, h1: seq<byte>, payload: seq<byte>)
    requires |low| == 9 + tagLen && |h0| == 1 && |h1| == 2
    ensures DtcpWrites(tagLen, f, low + h0 + h1 + payload) == low + ([TypeByte(f.ty)] + ToBE(f.seqNum, 2) + payload)
  {
    DtcpWritesType(tagLen, f, low, h0, h1, payload);
    DtcpWritesNumber(tagLen, f, low, [TypeByte(f.ty)], h1, payload);
    Assoc(low, [TypeByte(f.ty)], ToBE(f.seqNum, 2), payload);
  }

  /** Encryption in place, below the DTCP header. */
  lemma DiscoEncrypts(tagLen: nat, low: seq<byte>, text: seq<byte>, sealed: seq<byte>)
    requires |low| == 9 + tagLen && |sealed| == |text|
    ensures Offset(Layers(tagLen), 2) == 9 + tagLen
    ensures Payload(Layers(tagLen), 2, low + text) == text
    ensures Poke(Layers(tagLen), 2, low + text, 0, sealed) == low + sealed
  {
    LayersAt(tagLen);
    PayloadIsSuffix(Layers(tagLen), 2, low + text);
    SpliceEnd(low, text, sealed);
    PokeIsSplice(Layers(tagLen), 2, low + text, 0, sealed);
  }

  lemma DiscoTags(tagLen: nat, low: seq<byte>, h2: seq<byte>, tag: seq<byte>, rest: seq<byte>)
    requires |low| == 9 && |h2| == tagLen && |tag| == tagLen
    ensures Offset(Layers(tagLen), 2) == 9 + tagLen
    ensures SetField(Layers(tagLen), DISCO, 8, tag, low + h2 + rest) == low + tag + rest
  {
    LayersAt(tagLen);
    SpliceMiddle(low, h2, tag, rest);
    PokeIsSplice(Layers(tagLen), DISCO, low + h2 + rest, 8, tag);
  }

  lemma DiscoNonces(tagLen: nat, h0: seq<byte>, h1: seq<byte>, n: seq<byte>, rest: seq<byte>)
    requires |h0| == 1 && |h1| == 8 && |n| == 8 && |rest| >= tagLen
    ensures Offset(Layers(tagLen), 2) == 9 + tagLen
    ensures SetField(Layers(tagLen), DISCO, 0, n, h0 + h1 + rest) == h0 + n + rest
  {
    LayersAt(tagLen);
    SpliceMiddle(h0, h1, n, rest);
    PokeIsSplice(Layers(tagLen), DISCO, h0 + h1 + rest, 0, n);
  }

  lemma DiscoWritesSealed(c: Crypto, f: Fields, h0: seq<byte>, h1: seq<byte>, h2: seq<byte>, text: seq<byte>)
    requires Sound(c) && |h0| == 1 && |h1| == 8 && |h2| == c.tagLen
    ensures DiscoWrites(c, f.nonce, h0 + h1 + h2 + text)
         == h0 + ToBE(f.nonce, 8) + c.seal(f.nonce, text).1 + c.seal(f.nonce, text).0
  {
    var n := ToBE(f.nonce, 8);
    var (sealed, tag) := c.seal(f.nonce, text);
    Assoc(h0, h1, h2, text);
    DiscoNonces(c.tagLen, h0, h1, n, h2 + text);
    Assoc(h0, n, h2, text);
    DiscoEncrypts(c.tagLen, h0 + n + h2, text, sealed);
    DiscoTags(c.tagLen, h0 + n, h2, tag, sealed);
  }

  lemma DtpWritesChannel(f: Fields, h0: seq<byte>, rest: seq<byte>)
    requires |h0| == 1
    ensures DtpWrites(f, h0 + rest) == [f.channel] + rest
  {
    PokeIsSplice([1], DTP, h0 + rest, 0, [f.channel]);
    SpliceMiddle([], h0, [f.channel], rest);
    assert [] + h0 + rest == h0 + rest;
  }

  /** Whatever the headers held before, the three channels leave the wire
      format in the buffer. */
  lemma SentIsWire(c: Crypto, f: Fields, bytes: seq<byte>)
    requires Sound(c) && |bytes| >= 12 + c.tagLen
    ensures DtpWrites(f, DiscoWrites(c, f.nonce, DtcpWrites(c.tagLen, f, bytes)))
         == Wire(c, f, bytes[12 + c.tagLen..])
  {
    var n := 9 + c.tagLen;
    var payload := bytes[n + 3..];
    assert bytes == bytes[..n] + bytes[n..n + 1] + bytes[n + 1..n + 3] + payload;
    DtcpWritesHeader(c.tagLen, f, bytes[..n], bytes[n..n + 1], bytes[n + 1..n + 3], payload);
    var text := [TypeByte(f.ty)] + ToBE(f.seqNum, 2) + payload;
    assert bytes[..n] + text == bytes[..1] + bytes[1..9] + bytes[9..n] + text;
    DiscoWritesSealed(c, f, bytes[..1], bytes[1..9], bytes[9..n], text);
    var (sealed, tag) := c.seal(f.nonce, text);
    assert bytes[..1] + ToBE(f.nonce, 8) + tag + sealed == bytes[..1] + (ToBE(f.nonce, 8) + tag + sealed);
    DtpWritesChannel(f, bytes[..1], ToBE(f.nonce, 8) + tag + sealed);
  }

  // ---------- receiving ----------

  datatype Seen = Seen(fields: Fields, payload: seq<byte>)

  /** `TagOutOfRange` is the panic of slicing beyond the packet's end. */
  datatype ReceiveError = Empty | NoNonce | TagOutOfRange | Undecipherable | ShortDtcp | BadType

  /** What the receiving channels read from a datagram. The Disco check admits
      packets of 8 bytes although the tag lies beyond them. */
  function Receive(c: Crypto, bytes: seq<byte>): Result<Seen, ReceiveError>
    requires Sound(c)
  {
    LayersAt(c.tagLen);
    var hs := Layers(c.tagLen);
    if |bytes| < 1 then Err(Empty)
    else if |Payload([1], 1, bytes)| < 8 then Err(NoNonce)
    else if |Payload([1], 1, bytes)| < 8 + c.tagLen then Err(TagOutOfRange)
    else
      var nonce := Nonce(Field(hs, DISCO, 0, 8, bytes));
      var tag := Field(hs, DISCO, 8, c.tagLen, bytes);
      match c.open(nonce, Payload(hs, 2, bytes), tag)
      case None => Err(Undecipherable)
      case Some(text) => DtcpReads(c.tagLen, bytes[0], nonce, Poke(hs, 2, bytes, 0, text))
  }

  /** The check and the accessors disagree on exactly the packets that hold the
      nonce and end within the tag; receiving them panics, and nothing else
      does. */
  lemma TagOutOfRangeIff(c: Crypto, bytes: seq<byte>)
    requires Sound(c)
    ensures Receive(c, bytes) == Err(TagOutOfRange) <==> 9 <= |bytes| < 9 + c.tagLen
  {
    LayersAt(c.tagLen);
  }

  function Nonce(s: seq<byte>): u64
    requires |s| == 8
  {
    BEBound(s);
    Pow256Values();
    FromBE(s)
  }

  function DtcpReads(tagLen: nat, channel: byte, nonce: u64, bytes: seq<byte>): Result<Seen, ReceiveError>
    requires |bytes| >= 9 + tagLen
  {
    LayersAt(tagLen);
    var hs := Layers(tagLen);
    var lower := Payload(hs, 2, bytes);
    if |lower| < 3 then Err(ShortDtcp)
    else
      match TypeOf(lower[0])
      case None => Err(BadType)
      case Some(ty) =>
        var seqNum := Field(hs, DTCP, 1, 2, bytes);
        BEBound(seqNum);
        Pow256Values();
        Ok(Seen(Fields(channel, nonce, ty, FromBE(seqNum)), Payload(hs, 3, bytes)))
  }

  lemma {:induction false} BEBound(s: seq<byte>)
    ensures FromBE(s) < Pow256(|s|)
  {
    if s != [] {
      BEBound(s[..|s| - 1]);
    }
  }

  lemma Pow256Values()
    ensures Pow256(2) == 0x1_0000 && Pow256(8) == 0x1_0000_0000_0000_0000
  {
    assert Pow256(3) == 0x100_0000;
    assert Pow256(5) == 0x100_0000_0000;
    assert Pow256(7) == 0x100_0000_0000_0000;
  }

  lemma DtcpReadsHeader(tagLen: nat, f: Fields, low: seq<byte>, payload: seq<byte>)
    requires |low| == 9 + tagLen
    ensures DtcpReads(tagLen, f.channel, f.nonce, low + ([TypeByte(f.ty)] + ToBE(f.seqNum, 2) + payload))
         == Ok(Seen(f, payload))
  {
    LayersAt(tagLen);
    var hs, ty, sn := Layers(tagLen), [TypeByte(f.ty)], ToBE(f.seqNum, 2);
    var bytes := low + (ty + sn + payload);
    PayloadIsSuffix(hs, 2, bytes);
    PayloadIsSuffix(hs, 3, bytes);
    FieldAt(hs, DTCP, 1, 2, bytes);
    assert bytes[9 + tagLen + 1..9 + tagLen + 3] == sn;
    assert bytes[12 + tagLen..] == payload;
    Pow256Values();
    BERoundTrip(f.seqNum, 2);
  }

  /** End to end: the receiving stack reads from the wire the payload and every
      header field that the sending stack was given. */
  lemma EndToEnd(c: Crypto, f: Fields, payload: seq<byte>)
    requires Sound(c)
    ensures |Wire(c, f, payload)| == 12 + c.tagLen + |payload|
    ensures Receive(c, Wire(c, f, payload)) == Ok(Seen(f, payload))
  {
    LayersAt(c.tagLen);
    var hs, n := Layers(c.tagLen), ToBE(f.nonce, 8);
    var text := [TypeByte(f.ty)] + ToBE(f.seqNum, 2) + payload;
    var (sealed, tag) := c.seal(f.nonce, text);
    var bytes := Wire(c, f, payload);
    FieldAt(hs, DISCO, 0, 8, bytes);
    FieldAt(hs, DISCO, 8, c.tagLen, bytes);
    PayloadIsSuffix(hs, 2, bytes);
    assert bytes[1..9] == n && bytes[9..9 + c.tagLen] == tag && bytes[9 + c.tagLen..] == sealed;
    Pow256Values();
    BERoundTrip(f.nonce, 8);
    PokeIsSplice(hs, 2, bytes, 0, text);
    var low := [f.channel] + n + tag;
    assert Splice(bytes, 9 + c.tagLen, text) == low + text;
    DtcpReadsHeader(c.tagLen, f, low, payload);
  }

  // ---------- the bytes themselves ----------

  /** The wire format byte by byte: the channel, the nonce big-endian, the tag
      and the ciphertext of the type byte, the sequence number big-endian and
      the payload. The type is the high nibble, the data-run flag bit 0. */
  lemma WireBytes(c: Crypto, f: Fields, payload: seq<byte>)
    requires Sound(c)
    ensures var w, plain := Wire(c, f, payload), [TypeByte(f.ty)] + ToBE(f.seqNum, 2) + payload;
            && |w| == 12 + c.tagLen + |payload| && w[0] == f.channel
            && Positional(256, w[1..9]) == f.nonce
            && c.seal(f.nonce, plain) == (w[9 + c.tagLen..], w[9..9 + c.tagLen])
            && plain[0] == (match f.ty case Transfer(drf) => if drf then 0x01 else 0x00 case Control => 0x10)
            && Positional(256, plain[1..3]) == f.seqNum && plain[3..] == payload
  {
    var w, plain := Wire(c, f, payload), [TypeByte(f.ty)] + ToBE(f.seqNum, 2) + payload;
    assert w[1..9] == ToBE(f.nonce, 8) && plain[1..3] == ToBE(f.seqNum, 2);
    PowersAgree(8);
    PowersAgree(2);
    Pow256Values();
    WrittenBigEndian(f.nonce, 8);
    WrittenBigEndian(f.seqNum, 2);
  }

  /** What any byte string is received as, by its bytes: the check of the length,
      the panic, the failed decryption, the checks of the header, and else the
      payload and every field. */
  lemma ReceivedBytes(c: Crypto, bytes: seq<byte>)
    requires Sound(c)
    ensures var r, n := Receive(c, bytes), 9 + c.tagLen;
            if bytes == [] then r == Err(Empty)
            else if |bytes| < 9 then r == Err(NoNonce)
            else if |bytes| < n then r == Err(TagOutOfRange)
            else
              var nonce := Positional(256, bytes[1..9]);
              && nonce < 0x1_0000_0000_0000_0000
              && match c.open(nonce, bytes[n..], bytes[9..n])
                 case None => r == Err(Undecipherable)
                 case Some(text) =>
                   if |text| < 3 then r == Err(ShortDtcp)
                   else if text[0] >= 32 then r == Err(BadType)
                   else
                     var ty := if text[0] >= 16 then Control else Transfer(text[0] % 2 == 1);
                     var number := 256 * text[1] as int + text[2] as int;
                     r == Ok(Seen(Fields(bytes[0], nonce, ty, number), text[3..]))
  {
    if |bytes| >= 9 + c.tagLen {
      LayersAt(c.tagLen);
      var hs, n := Layers(c.tagLen), 9 + c.tagLen;
      FieldAt(hs, DISCO, 0, 8, bytes);
      FieldAt(hs, DISCO, 8, c.tagLen, bytes);
      PayloadIsSuffix(hs, 2, bytes);
      BigEndian(bytes[1..9]);
      BEBound(bytes[1..9]);
      Pow256Values();
      var nonce := Nonce(bytes[1..9]);
      match c.open(nonce, bytes[n..], bytes[9..n])
      case None =>
      case Some(text) =>
        PokeIsSplice(hs, 2, bytes, 0, text);
        var low := bytes[..n];
        assert bytes == low + bytes[n..];
        SpliceEnd(low, bytes[n..], text);
        DtcpReadBytes(c.tagLen, bytes[0], nonce, low, text);
    }
  }

  lemma DtcpReadBytes(tagLen: nat, channel: byte, nonce: u64, low: seq<byte>, text: seq<byte>)
    requires |low| == 9 + tagLen
    ensures var r := DtcpReads(tagLen, channel, nonce, low + text);
            if |text| < 3 then r == Err(ShortDtcp)
            else if text[0] >= 32 then r == Err(BadType)
            else
              var ty := if text[0] >= 16 then Control else Transfer(text[0] % 2 == 1);
              var number := 256 * text[1] as int + text[2] as int;
              r == Ok(Seen(Fields(channel, nonce, ty, number), text[3..]))
  {
    LayersAt(tagLen);
    var hs, bytes := Layers(tagLen), low + text;
    PayloadIsSuffix(hs, 2, bytes);
    assert bytes[9 + tagLen..] == text;
    if |text| >= 3 {
      PayloadIsSuffix(hs, 3, bytes);
      FieldAt(hs, DTCP, 1, 2, bytes);
      assert bytes[10 + tagLen..12 + tagLen] == [text[1], text[2]] && bytes[12 + tagLen..] == text[3..];
      TwoByteNumber(text[1], text[2]);
    }
  }

  lemma TwoByteNumber(a: byte, b: byte)
    ensures FromBE([a, b]) == 256 * a as int + b as int
  {
    assert [a, b][..1] == [a] && [a][..0] == [];
    assert FromBE([a]) == 256 * FromBE([]) + a;
    assert FromBE([a, b]) == 256 * FromBE([a]) + b;
  }

  // ---------- nonces over whole runs ----------

  /** A counter that starts at 0 and is incremented modulo `m`, as its k-th
      reader sees it. */
  function Counter(m: nat, k: nat): (n: nat)
    requires m > 0
    ensures n < m
  {
    if k == 0 then 0 else (Counter(m, k - 1) + 1) % m
  }

  const NONCES: nat := 0x1_0000_0000_0000_0000

  /** The nonce of the k-th send on a channel. */
  function NonceOf(k: nat): u64 {
    Counter(NONCES, k)
  }

  ghost predicate DistinctBefore(m: nat, n: nat)
    requires m > 0
  {
    forall i, j :: 0 <= i < j < n ==> Counter(m, i) != Counter(m, j)
  }

  lemma MultipleBound(d: int, m: int)
    requires m >= 0
    ensures d >= 1 ==> d * m >= m
    ensures d <= -1 ==> d * m <= -m
  {
    if d >= 1 {
      assert d * m == (d - 1) * m + m;
    } else if d <= -1 {
      assert d * m == (d + 1) * m - m;
    }
  }

  lemma {:induction false} RemainderIs(k: nat, m: nat, q: nat, r: nat)
    requires r < m && k == q * m + r
    ensures k % m == r
  {
    var p := k / m;
    assert k == p * m + k % m;
    assert (q - p) * m == q * m - p * m;
    MultipleBound(q - p, m);
  }

  lemma Incremented(m: nat, x: nat)
    requires x < m
    ensures (x + 1) % m == if x + 1 == m then 0 else x + 1
  {
    if x + 1 == m {
      RemainderIs(m, m, 1, 0);
    } else {
      RemainderIs(x + 1, m, 0, x + 1);
    }
  }

  lemma {:induction false} CounterWraps(m: nat, k: nat) returns (q: nat)
    requires m > 0
    ensures k == q * m + Counter(m, k)
  {
    if k == 0 {
      q := 0;
    } else {
      q := CounterWraps(m, k - 1);
      Incremented(m, Counter(m, k - 1));
      if Counter(m, k - 1) + 1 == m {
        assert (q + 1) * m == q * m + m;
        q := q + 1;
      }
    }
  }

  lemma {:induction false} CounterIs(m: nat, k: nat)
    requires m > 0
    ensures Counter(m, k) == k % m
  {
    var q := CounterWraps(m, k);
    RemainderIs(k, m, q, Counter(m, k));
  }

  lemma {:induction false} CounterFresh(m: nat, n: nat)
    requires 0 < m && n <= m
    ensures DistinctBefore(m, n)
  {
    forall i, j | 0 <= i < j < n
      ensures Counter(m, i) != Counter(m, j)
    {
      CounterIs(m, i);
      CounterIs(m, j);
      RemainderIs(i, m, 0, i);
      RemainderIs(j, m, 0, j);
    }
  }

  /** Value `m` is value 0 again. */
  lemma CounterCollides(m: nat)
    requires m > 0
    ensures Counter(m, m) == Counter(m, 0)
  {
    RemainderIs(m, m, 1, 0);
    CounterIs(m, m);
  }

  /** The first `n` values are pairwise different if and only if there are at
      most `m` of them. */
  lemma {:induction false} CounterDistinctIff(m: nat, n: nat)
    requires m > 0
    ensures DistinctBefore(m, n) <==> n <= m
  {
    if n <= m {
      CounterFresh(m, n);
    } else {
      CounterCollides(m);
      var i, j := 0, m;
      assert Counter(m, i) == Counter(m, j);
    }
  }

  /** Over every run of sends on a new channel: the k-th carries k modulo 2^64;
      the nonces of n sends are pairwise distinct if and only if n is at most
      2^64; and the send after 2^64 others carries the nonce of the first. */
  lemma {:induction false} NonceRuns(k: nat, n: nat, wrap: nat)
    requires wrap == NONCES
    ensures NonceOf(k) == k % wrap
    ensures (forall i, j :: 0 <= i < j < n ==> NonceOf(i) != NonceOf(j)) <==> n <= wrap
    ensures NonceOf(wrap) == NonceOf(0)
  {
    CounterIs(wrap, k);
    CounterDistinctIff(wrap, n);
    CounterCollides(wrap);
    assert forall i: nat :: NonceOf(i) == Counter(wrap, i);
  }

  // ---------- the channels ----------

  const MAX_PACKET_LEN: nat := 65535
  const MAX_PAYLOAD_LEN: nat := MAX_PACKET_LEN - 49

  class DiscoChannel {
    const crypto: Crypto
    var nonce: u64
    ghost var sends: nat

    ghost predicate Valid()
      reads this
    {
      nonce == NonceOf(sends)
    }

    constructor (crypto: Crypto)
      ensures Valid() && this.crypto == crypto && sends == 0
    {
      this.crypto, nonce, sends := crypto, 0, 0;
    }

    method Send(b: BytesMut)
      requires Valid() && Sound(crypto) && b.Valid() && b.len >= 9 + crypto.tagLen
      modifies this, b.data
      ensures Valid() && sends == old(sends) + 1
      ensures b.Valid() && b.Contents() == DiscoWrites(crypto, NonceOf(old(sends)), old(b.Contents()))
    {
      LayersAt(crypto.tagLen);
      var hs, n := Layers(crypto.tagLen), nonce;
      nonce := (nonce + 1) % NONCES;
      sends := sends + 1;
      b.WriteField(hs, DISCO, 0, ToBE(n, 8));
      var (text, tag) := crypto.seal(n, Payload(hs, 2, b.data[..b.len]));
      b.Write(hs, 2, 0, text);
      b.WriteField(hs, DISCO, 8, tag);
    }

    /** Decrypts in place; an error leaves the buffer alone. The panic of a
        packet that ends within its tag is the outcome `TagOutOfRange`. */
    method Recv(b: BytesMut) returns (r: Result<u64, ReceiveError>)
      requires Sound(crypto) && b.Valid() && 1 <= b.len
      modifies b.data
      ensures b.Valid()
      ensures r.Ok? <==>
                && b.len >= 9 + crypto.tagLen
                && crypto.open(Nonce(old(b.Contents())[1..9]), old(b.Contents())[9 + crypto.tagLen..],
                               old(b.Contents())[9..9 + crypto.tagLen]).Some?
      ensures r.Err? ==> b.Contents() == old(b.Contents()) && Receive(crypto, old(b.Contents())) == Err(r.error)
      ensures r.Ok? ==>
                && b.len >= 9 + crypto.tagLen
                && r.value == Positional(256, old(b.Contents())[1..9])
                && crypto.open(r.value, old(b.Contents())[9 + crypto.tagLen..], old(b.Contents())[9..9 + crypto.tagLen])
                   == Some(b.Contents()[9 + crypto.tagLen..])
                && b.Contents()[..9 + crypto.tagLen] == old(b.Contents())[..9 + crypto.tagLen]
                && Receive(crypto, old(b.Contents()))
                   == DtcpReads(crypto.tagLen, old(b.Contents())[0], r.value, b.Contents())
    {
      LayersAt(crypto.tagLen);
      var hs := Layers(crypto.tagLen);
      var bytes := b.data[..b.len];
      if |Payload([1], 1, bytes)| < 8 {
        return Err(NoNonce);
      }
      if |Payload([1], 1, bytes)| < 8 + crypto.tagLen {
        return Err(TagOutOfRange);
      }
      var n := Nonce(Field(hs, DISCO, 0, 8, bytes));
      var tag := Field(hs, DISCO, 8, crypto.tagLen, bytes);
      FieldAt(hs, DISCO, 0, 8, bytes);
      FieldAt(hs, DISCO, 8, crypto.tagLen, bytes);
      PayloadIsSuffix(hs, 2, bytes);
      BigEndian(bytes[1..9]);
      match crypto.open(n, Payload(hs, 2, bytes), tag)
      case None => return Err(Undecipherable);
      case Some(text) =>
        PokeIsSplice(hs, 2, bytes, 0, text);
        SpliceEnd(bytes[..9 + crypto.tagLen], bytes[9 + crypto.tagLen..], text);
        assert bytes == bytes[..9 + crypto.tagLen] + bytes[9 + crypto.tagLen..];
        b.Write(hs, 2, 0, text);
        return Ok(n);
    }
  }

  /** A packet made from a payload and sent through the three channels. What
      the lowest layer may hold also fits the receive buffer. */
  method Send(disco: DiscoChannel, channel: byte, ty: DtcpType, seqNum: u16, payload: seq<byte>) returns (b: BytesMut)
    requires disco.Valid() && Sound(disco.crypto) && |payload| + 3 + 8 + disco.crypto.tagLen <= MAX_PAYLOAD_LEN
    modifies disco
    ensures disco.Valid() && disco.sends == old(disco.sends) + 1
    ensures b.Valid()
    ensures b.Contents() == Wire(disco.crypto, Fields(channel, NonceOf(old(disco.sends)), ty, seqNum), payload)
    ensures |b.Contents()| <= MAX_PACKET_LEN
  {
    var c, f := disco.crypto, Fields(channel, disco.nonce, ty, seqNum);
    LayersAt(c.tagLen);
    var hs := Layers(c.tagLen);
    b := From(hs, payload);
    ghost var bytes := b.Contents();
    PayloadIsSuffix(hs, 3, bytes);
    SentIsWire(c, f, bytes);
    EndToEnd(c, f, payload);
    b.WriteField(hs, DTCP, 0, [TypeByte(f.ty)]);
    b.WriteField(hs, DTCP, 1, ToBE(f.seqNum, 2));
    assert b.Contents() == DtcpWrites(c.tagLen, f, bytes);
    disco.Send(b);
    b.WriteField([1], DTP, 0, [f.channel]);
  }
}
