/** Packets as layers of headers in one buffer (channel/src/lib.rs, with the
    layers of dtp, efcp and dtcp). A stack is the list of its header lengths,
    the layer closest to the wire first; each layer's payload is what follows
    its header in the payload of the layer below. */
module PacketStack {
  import opened Common

  type Stack = seq<nat>

  /** The length of the first `n` headers. */
  function Offset(hs: Stack, n: nat): nat
    requires n <= |hs|
  {
    if n == 0 then 0 else Offset(hs, n - 1) + hs[n - 1]
  }

  function Headers(hs: Stack): nat {
    Offset(hs, |hs|)
  }

  /** `payload()` of the first `n` layers: each layer cuts its header off the
      payload below. */
  function Payload(hs: Stack, n: nat, bytes: seq<byte>): (p: seq<byte>)
    requires n <= |hs| && |bytes| >= Offset(hs, n)
    ensures |p| == |bytes| - Offset(hs, n)
  {
    if n == 0 then bytes else Payload(hs, n - 1, bytes)[hs[n - 1]..]
  }

  function Splice(bytes: seq<byte>, at: nat, s: seq<byte>): (r: seq<byte>)
    requires at + |s| <= |bytes|
    ensures |r| == |bytes|
  {
    bytes[..at] + s + bytes[at + |s|..]
  }

  /** Writing `s` at an offset of `payload_mut()` of the first `n` layers: each
      layer passes the write down, moved by its header. */
  function Poke(hs: Stack, n: nat, bytes: seq<byte>, at: nat, s: seq<byte>): (r: seq<byte>)
    requires n <= |hs| && Offset(hs, n) + at + |s| <= |bytes|
    ensures |r| == |bytes|
  {
    if n == 0 then Splice(bytes, at, s) else Poke(hs, n - 1, bytes, at + hs[n - 1], s)
  }

  /** A field of layer `i` is a part of its header, which is the head of the
      payload of the layers below it. */
  function Field(hs: Stack, i: nat, at: nat, width: nat, bytes: seq<byte>): (f: seq<byte>)
    requires i < |hs| && at + width <= hs[i] && |bytes| >= Offset(hs, i + 1)
    ensures |f| == width
  {
    Payload(hs, i, bytes)[at..at + width]
  }

  function SetField(hs: Stack, i: nat, at: nat, s: seq<byte>, bytes: seq<byte>): (r: seq<byte>)
    requires i < |hs| && at + |s| <= hs[i] && |bytes| >= Offset(hs, i + 1)
    ensures |r| == |bytes|
  {
    Poke(hs, i, bytes, at, s)
  }

  // ---------- where things are ----------

  lemma {:induction false} OffsetMonotone(hs: Stack, i: nat, j: nat)
    requires i < j <= |hs|
    ensures Offset(hs, i) + hs[i] <= Offset(hs, j)
    decreases j
  {
    if i < j - 1 {
      OffsetMonotone(hs, i, j - 1);
    }
  }

  lemma {:induction false} PayloadIsSuffix(hs: Stack, n: nat, bytes: seq<byte>)
    requires n <= |hs| && |bytes| >= Offset(hs, n)
    ensures Payload(hs, n, bytes) == bytes[Offset(hs, n)..]
  {
    if n > 0 {
      PayloadIsSuffix(hs, n - 1, bytes);
    }
  }

  lemma {:induction false} PokeIsSplice(hs: Stack, n: nat, bytes: seq<byte>, at: nat, s: seq<byte>)
    requires n <= |hs| && Offset(hs, n) + at + |s| <= |bytes|
    ensures Poke(hs, n, bytes, at, s) == Splice(bytes, Offset(hs, n) + at, s)
  {
    if n > 0 {
      PokeIsSplice(hs, n - 1, bytes, at + hs[n - 1], s);
    }
  }

  lemma FieldAt(hs: Stack, i: nat, at: nat, width: nat, bytes: seq<byte>)
    requires i < |hs| && at + width <= hs[i] && |bytes| >= Offset(hs, i + 1)
    ensures Field(hs, i, at, width, bytes) == bytes[Offset(hs, i) + at..Offset(hs, i) + at + width]
  {
    PayloadIsSuffix(hs, i, bytes);
  }

  // ---------- layers are independent ----------

  lemma SpliceElsewhere(bytes: seq<byte>, at: nat, s: seq<byte>, lo: nat, hi: nat)
    requires at + |s| <= |bytes| && lo <= hi <= |bytes| && (hi <= at || at + |s| <= lo)
    ensures Splice(bytes, at, s)[lo..hi] == bytes[lo..hi]
  {
  }

  lemma FieldReadsBack(hs: Stack, bytes: seq<byte>, i: nat, at: nat, s: seq<byte>)
    requires i < |hs| && at + |s| <= hs[i] && |bytes| >= Offset(hs, i + 1)
    ensures Field(hs, i, at, |s|, SetField(hs, i, at, s, bytes)) == s
  {
    PokeIsSplice(hs, i, bytes, at, s);
    FieldAt(hs, i, at, |s|, SetField(hs, i, at, s, bytes));
  }

  /** Different fields do not overlap in the buffer. */
  lemma FieldsApart(hs: Stack, i: nat, at: nat, length: nat, j: nat, at': nat, width: nat)
    requires i < |hs| && at + length <= hs[i]
    requires j < |hs| && at' + width <= hs[j]
    requires i != j || at + length <= at' || at' + width <= at
    ensures || Offset(hs, i) + at + length <= Offset(hs, j) + at'
            || Offset(hs, j) + at' + width <= Offset(hs, i) + at
  {
    if i < j {
      OffsetMonotone(hs, i, j);
    } else if j < i {
      OffsetMonotone(hs, j, i);
    }
  }

  lemma FieldKeepsFields(hs: Stack, bytes: seq<byte>, i: nat, at: nat, s: seq<byte>, j: nat, at': nat, width: nat)
    requires i < |hs| && at + |s| <= hs[i] && |bytes| >= Offset(hs, i + 1)
    requires j < |hs| && at' + width <= hs[j] && |bytes| >= Offset(hs, j + 1)
    requires i != j || at + |s| <= at' || at' + width <= at
    ensures Field(hs, j, at', width, SetField(hs, i, at, s, bytes)) == Field(hs, j, at', width, bytes)
  {
    FieldsApart(hs, i, at, |s|, j, at', width);
    PokeIsSplice(hs, i, bytes, at, s);
    FieldAt(hs, j, at', width, SetField(hs, i, at, s, bytes));
    FieldAt(hs, j, at', width, bytes);
    SpliceElsewhere(bytes, Offset(hs, i) + at, s, Offset(hs, j) + at', Offset(hs, j) + at' + width);
  }

  lemma FieldKeepsPayload(hs: Stack, bytes: seq<byte>, i: nat, at: nat, s: seq<byte>)
    requires i < |hs| && at + |s| <= hs[i] && |bytes| >= Headers(hs)
    ensures |bytes| >= Offset(hs, i + 1)
    ensures Payload(hs, |hs|, SetField(hs, i, at, s, bytes)) == Payload(hs, |hs|, bytes)
  {
    OffsetMonotone(hs, i, |hs|);
    PokeIsSplice(hs, i, bytes, at, s);
    PayloadIsSuffix(hs, |hs|, SetField(hs, i, at, s, bytes));
    PayloadIsSuffix(hs, |hs|, bytes);
    SpliceElsewhere(bytes, Offset(hs, i) + at, s, Headers(hs), |bytes|);
  }

  /** Writing a field reads back, and leaves every other field of every layer
      and the payload as they were. */
  lemma LayerIndependence(hs: Stack, bytes: seq<byte>, i: nat, at: nat, s: seq<byte>, j: nat, at': nat, width: nat)
    requires |bytes| >= Headers(hs)
    requires i < |hs| && at + |s| <= hs[i]
    requires j < |hs| && at' + width <= hs[j]
    ensures |bytes| >= Offset(hs, i + 1) && |bytes| >= Offset(hs, j + 1)
    ensures Field(hs, i, at, |s|, SetField(hs, i, at, s, bytes)) == s
    ensures i != j || at + |s| <= at' || at' + width <= at ==>
              Field(hs, j, at', width, SetField(hs, i, at, s, bytes)) == Field(hs, j, at', width, bytes)
    ensures Payload(hs, |hs|, SetField(hs, i, at, s, bytes)) == Payload(hs, |hs|, bytes)
  {
    FieldKeepsPayload(hs, bytes, i, at, s);
    OffsetMonotone(hs, j, |hs|);
    FieldReadsBack(hs, bytes, i, at, s);
    if i != j || at + |s| <= at' || at' + width <= at {
      FieldKeepsFields(hs, bytes, i, at, s, j, at', width);
    }
  }

  lemma SpliceSuffix(bytes: seq<byte>, offset: nat, at: nat, s: seq<byte>)
    requires offset + at + |s| <= |bytes|
    ensures Splice(bytes, offset + at, s)[offset..] == Splice(bytes[offset..], at, s)
  {
    assert bytes[offset..][at + |s|..] == bytes[offset + at + |s|..];
    assert bytes[..offset + at][offset..] == bytes[offset..][..at];
  }

  /** Writing the payload leaves every field of every layer as it was. */
  lemma PayloadIndependence(hs: Stack, bytes: seq<byte>, at: nat, s: seq<byte>, j: nat, at': nat, width: nat)
    requires Headers(hs) + at + |s| <= |bytes|
    requires j < |hs| && at' + width <= hs[j]
    ensures |bytes| >= Offset(hs, j + 1)
    ensures Field(hs, j, at', width, Poke(hs, |hs|, bytes, at, s)) == Field(hs, j, at', width, bytes)
    ensures Payload(hs, |hs|, Poke(hs, |hs|, bytes, at, s)) == Splice(Payload(hs, |hs|, bytes), at, s)
  {
    var r := Poke(hs, |hs|, bytes, at, s);
    OffsetMonotone(hs, j, |hs|);
    PokeIsSplice(hs, |hs|, bytes, at, s);
    FieldAt(hs, j, at', width, r);
    FieldAt(hs, j, at', width, bytes);
    SpliceElsewhere(bytes, Headers(hs) + at, s, Offset(hs, j) + at', Offset(hs, j) + at' + width);
    PayloadIsSuffix(hs, |hs|, r);
    PayloadIsSuffix(hs, |hs|, bytes);
    SpliceSuffix(bytes, Headers(hs), at, s);
  }

  // ---------- the buffer ----------

  /** A byte buffer whose capacity is fixed when it is created. */
  class BytesMut {
    const data: array<byte>
    var len: nat

    ghost predicate Valid()
      reads this
    {
      len <= data.Length
    }

    ghost function Contents(): seq<byte>
      requires Valid()
      reads this, data
    {
      data[..len]
    }

    constructor WithCapacity(n: nat)
      ensures Valid() && fresh(data) && data.Length == n && Contents() == []
    {
      data := new byte[n];
      len := 0;
    }

    /** Appending; the caller sees to it that there is room. */
    method Put(s: seq<byte>)
      requires Valid() && len + |s| <= data.Length
      modifies this, data
      ensures Valid() && Contents() == old(Contents()) + s
    {
      forall i | 0 <= i < |s| {
        data[len + i] := s[i];
      }
      len := len + |s|;
    }

    method Overwrite(at: nat, s: seq<byte>)
      requires Valid() && at + |s| <= len
      modifies data
      ensures Valid() && Contents() == Splice(old(Contents()), at, s)
    {
      forall i | 0 <= i < |s| {
        data[at + i] := s[i];
      }
    }

    /** A write at an offset of the payload of the first `n` layers. */
    method Write(hs: Stack, n: nat, at: nat, s: seq<byte>)
      requires Valid() && n <= |hs| && Offset(hs, n) + at + |s| <= len
      modifies data
      ensures Valid() && Contents() == Poke(hs, n, old(Contents()), at, s)
      decreases n
    {
      if n == 0 {
        Overwrite(at, s);
      } else {
        Write(hs, n - 1, at + hs[n - 1], s);
      }
    }

    method WriteField(hs: Stack, i: nat, at: nat, s: seq<byte>)
      requires Valid() && i < |hs| && at + |s| <= hs[i] && Offset(hs, i + 1) <= len
      modifies data
      ensures Valid() && Contents() == SetField(hs, i, at, s, old(Contents()))
    {
      Write(hs, i, at, s);
    }
  }

  /** `new` of the first `n` layers: the innermost one reserves for everyone,
      then each layer puts its header; every put fits. */
  method New(hs: Stack, n: nat, payloadLen: nat) returns (b: BytesMut)
    requires n <= |hs|
    ensures b.Valid() && fresh(b) && fresh(b.data)
    ensures b.data.Length == payloadLen + Offset(hs, n) && b.Contents() == Zeros(Offset(hs, n))
    decreases n
  {
    if n == 0 {
      b := new BytesMut.WithCapacity(payloadLen);
    } else {
      b := New(hs, n - 1, payloadLen + hs[n - 1]);
      b.Put(Zeros(hs[n - 1]));
      assert Zeros(Offset(hs, n - 1)) + Zeros(hs[n - 1]) == Zeros(Offset(hs, n));
    }
  }

  /** `from`: the buffer is exactly filled, the wire length is the payload and
      the headers, and the payload reads back. */
  method From(hs: Stack, payload: seq<byte>) returns (b: BytesMut)
    ensures b.Valid() && fresh(b) && fresh(b.data) && b.len == b.data.Length
    ensures |b.Contents()| == Headers(hs) + |payload|
    ensures b.Contents() == Zeros(Headers(hs)) + payload
    ensures Payload(hs, |hs|, b.Contents()) == payload
  {
    b := New(hs, |hs|, |payload|);
    b.Put(payload);
    PayloadIsSuffix(hs, |hs|, b.Contents());
  }
}
