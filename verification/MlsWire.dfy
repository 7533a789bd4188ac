/**
 The minimal decoder for MLS handshake framing (section 6 of RFC 9420), with the
 variable-length integers of section 2.1.2 of RFC 9420.

 `Encode` writes the framing down independently of the decoder; the theorems say that
 the decoder inverts it, accepts nothing else, and looks at nothing past it.
 */
module MlsWire {
  import opened Bytes

  datatype Error = NotPublic | Truncated | Malformed

  datatype Handshake = Handshake(groupId: Octets, epoch: nat, contentType: byte)

  /** A read either yields a value and what is left of the input, or fails. */
  datatype Read<+T> = Got(value: T, rest: Octets) | Fail(error: Error) {
    predicate IsFailure() { Fail? }
    function PropagateFailure<U>(): Read<U>
      requires Fail?
    {
      Fail(error)
    }
    function Extract(): (T, Octets)
      requires Got?
    {
      (value, rest)
    }
  }

  const PUBLIC_MESSAGE := 1
  const PRIVATE_MESSAGE := 2
  const CONTENT_TYPE_COMMIT: byte := 3

  // ---------------------------------------------------------------- the grammar

  datatype Sender =
    | Member(leaf: nat)
    | External(index: nat)
    | NewMemberProposal
    | NewMemberCommit
  {
    ghost predicate Valid() {
      (Member? ==> leaf < Pow256(4)) && (External? ==> index < Pow256(4))
    }
  }

  datatype Framed = Framed(
    version: nat, groupId: Octets, epoch: nat, sender: Sender, authenticated: Octets, contentType: byte)

  /** Octets taken by each of the four length classes of a variable-length integer. */
  function Width(lengthClass: nat): (w: nat)
    requires lengthClass < 4
    ensures w in {1, 2, 4, 8}
  {
    if lengthClass == 0 then 1 else if lengthClass == 1 then 2 else if lengthClass == 2 then 4 else 8
  }

  ghost predicate Fits(v: nat, lengthClass: nat) {
    lengthClass < 4 && v < 64 * Pow256(Width(lengthClass) - 1)
  }

  /** The value big-endian, with the class in the two top bits of the first octet. */
  ghost function EncodeVarint(v: nat, lengthClass: nat): (s: Octets)
    requires Fits(v, lengthClass)
    ensures |s| == Width(lengthClass)
  {
    var s := BigEndian(v, Width(lengthClass));
    VarintHeadIsSmall(v, lengthClass);
    [lengthClass * 64 + s[0]] + s[1..]
  }

  ghost function EncodeVec(v: Octets, lengthClass: nat): Octets
    requires Fits(|v|, lengthClass)
  {
    EncodeVarint(|v|, lengthClass) + v
  }

  ghost function EncodeSender(s: Sender): Octets {
    match s
    case Member(leaf) => [1] + BigEndian(leaf, 4)
    case External(index) => [2] + BigEndian(index, 4)
    case NewMemberProposal => [3]
    case NewMemberCommit => [4]
  }

  ghost predicate Encodable(f: Framed, idClass: nat, dataClass: nat) {
    && f.version < Pow256(2) && f.epoch < Pow256(8) && f.sender.Valid()
    && Fits(|f.groupId|, idClass) && Fits(|f.authenticated|, dataClass)
  }

  /** sender, authenticated_data<V>, content_type */
  ghost function EncodeTrailer(f: Framed, dataClass: nat): Octets
    requires Fits(|f.authenticated|, dataClass)
  {
    EncodeSender(f.sender) + (EncodeVec(f.authenticated, dataClass) + [f.contentType])
  }

  /** group_id<V>, epoch, and the rest of the framed content */
  ghost function EncodeBody(f: Framed, idClass: nat, dataClass: nat): Octets
    requires Encodable(f, idClass, dataClass)
  {
    EncodeVec(f.groupId, idClass) + (BigEndian(f.epoch, 8) + EncodeTrailer(f, dataClass))
  }

  /** version, wire_format, FramedContent */
  ghost function Encode(f: Framed, idClass: nat, dataClass: nat): Octets
    requires Encodable(f, idClass, dataClass)
  {
    BigEndian(f.version, 2) + (BigEndian(PUBLIC_MESSAGE, 2) + EncodeBody(f, idClass, dataClass))
  }

  lemma VarintHeadIsSmall(v: nat, lengthClass: nat)
    requires Fits(v, lengthClass)
    ensures BigEndian(v, Width(lengthClass))[0] < 64
  {
    var w := Width(lengthClass);
    var s := BigEndian(v, w);
    assert v < Pow256(w) by { assert Pow256(w) == 256 * Pow256(w - 1); }
    BigEndianRoundTrip(v, w);
    FromBigEndianHead(s);
    CancelFactor(s[0], 64, Pow256(w - 1));
  }

  // ------------------------------------------------- the decoder's specification

  function Unsigned(s: Octets, w: nat): (r: Read<nat>)
    ensures r.Fail? ==> r.error == Truncated
  {
    if |s| < w then Fail(Truncated) else Got(FromBigEndian(s[..w]), s[w..])
  }

  function Varint(s: Octets): (r: Read<nat>)
    ensures r.Fail? ==> r.error == Truncated
  {
    if s == [] then Fail(Truncated)
    else
      var w := Width(s[0] / 64);
      if |s| < w then Fail(Truncated)
      else Got(FromBigEndian([s[0] % 64] + s[1..w]), s[w..])
  }

  function Vec(s: Octets): (r: Read<Octets>)
    ensures r.Fail? ==> r.error == Truncated
  {
    var (n, s) :- Varint(s);
    if |s| < n then Fail(Truncated) else Got(s[..n], s[n..])
  }

  function SkipSender(s: Octets): Read<()> {
    var (kind, s) :- Unsigned(s, 1);
    if kind == 1 || kind == 2 then
      var (_, s) :- Unsigned(s, 4);
      Got((), s)
    else if kind == 3 || kind == 4 then Got((), s)
    else Fail(Malformed)
  }

  function Parse(s: Octets): Read<Handshake> {
    var (_, s) :- Unsigned(s, 2);
    Formatted(s)
  }

  /** From the wire format on. */
  function Formatted(s: Octets): Read<Handshake> {
    var (format, s) :- Unsigned(s, 2);
    if format == PRIVATE_MESSAGE then Fail(NotPublic)
    else if format != PUBLIC_MESSAGE then Fail(Malformed)
    else Body(s)
  }

  function Body(s: Octets): Read<Handshake> {
    var (groupId, s) :- Vec(s);
    var (epoch, s) :- Unsigned(s, 8);
    var (contentType, s) :- Trailer(s);
    Got(Handshake(groupId, epoch, contentType), s)
  }

  function Trailer(s: Octets): Read<byte> {
    var (_, s) :- SkipSender(s);
    var (_, s) :- Vec(s);
    if s == [] then Fail(Truncated) else Got(s[0], s[1..])
  }

  // ----------------------------------------------- each field: forth, back, cut

  lemma UnsignedDecodes(v: nat, w: nat, rest: Octets)
    requires v < Pow256(w)
    ensures Unsigned(BigEndian(v, w) + rest, w) == Got(v, rest)
  {
    BigEndianRoundTrip(v, w);
    assert (BigEndian(v, w) + rest)[..w] == BigEndian(v, w);
  }

  lemma UnsignedSound(s: Octets, w: nat)
    requires Unsigned(s, w).Got?
    ensures Unsigned(s, w).value < Pow256(w)
    ensures s == BigEndian(Unsigned(s, w).value, w) + Unsigned(s, w).rest
  {
    FromBigEndianRoundTrip(s[..w]);
    assert BigEndian(Unsigned(s, w).value, w) == s[..w];
    assert s == s[..w] + s[w..];
  }

  lemma VarintDecodes(v: nat, lengthClass: nat, rest: Octets)
    requires Fits(v, lengthClass)
    ensures Varint(EncodeVarint(v, lengthClass) + rest) == Got(v, rest)
  {
    var w := Width(lengthClass);
    var plain := BigEndian(v, w);
    var s := EncodeVarint(v, lengthClass) + rest;
    VarintHeadIsSmall(v, lengthClass);
    assert s[0] == lengthClass * 64 + plain[0];
    assert s[0] / 64 == lengthClass && s[0] % 64 == plain[0];
    assert [s[0] % 64] + s[1..w] == plain;
    assert v < Pow256(w) by { assert Pow256(w) == 256 * Pow256(w - 1); }
    BigEndianRoundTrip(v, w);
    assert s[w..] == rest;
  }

  /** What the header's octets hold besides the class stays below what the class can hold. */
  lemma PlainFits(plain: Octets)
    requires plain != [] && plain[0] < 64
    ensures FromBigEndian(plain) < 64 * Pow256(|plain| - 1)
  {
    FromBigEndianHead(plain);
    RaiseFactor(plain[0] as int + 1, 64, Pow256(|plain| - 1));
  }

  lemma VarintSound(s: Octets)
    requires Varint(s).Got?
    ensures Fits(Varint(s).value, s[0] / 64)
    ensures s == EncodeVarint(Varint(s).value, s[0] / 64) + Varint(s).rest
  {
    var c := s[0] / 64;
    var w := Width(c);
    var plain := [s[0] % 64] + s[1..w];
    PlainFits(plain);
    FromBigEndianRoundTrip(plain);
    ClassAndRest(s[0]);
    assert EncodeVarint(FromBigEndian(plain), c) == [s[0]] + s[1..w];
    assert s == [s[0]] + s[1..w] + s[w..];
  }

  lemma ClassAndRest(b: byte)
    ensures b / 64 * 64 + b % 64 == b && b / 64 < 4
  {
  }

  lemma VarintCut(v: nat, lengthClass: nat, m: nat)
    requires Fits(v, lengthClass) && m < Width(lengthClass)
    ensures Varint(EncodeVarint(v, lengthClass)[..m]) == Fail(Truncated)
  {
    var s := EncodeVarint(v, lengthClass);
    VarintHeadIsSmall(v, lengthClass);
    if m > 0 {
      assert s[..m][0] / 64 == lengthClass;
    }
  }

  lemma VecDecodes(v: Octets, lengthClass: nat, rest: Octets)
    requires Fits(|v|, lengthClass)
    ensures Vec(EncodeVec(v, lengthClass) + rest) == Got(v, rest)
  {
    var len := EncodeVarint(|v|, lengthClass);
    assert len + v + rest == len + (v + rest);
    VarintDecodes(|v|, lengthClass, v + rest);
    assert (v + rest)[..|v|] == v && (v + rest)[|v|..] == rest;
  }

  lemma VecSound(s: Octets)
    requires Vec(s).Got?
    ensures Fits(|Vec(s).value|, s[0] / 64)
    ensures s == EncodeVec(Vec(s).value, s[0] / 64) + Vec(s).rest
  {
    VarintSound(s);
    var r := Varint(s);
    var len := EncodeVarint(r.value, s[0] / 64);
    assert r.rest == Vec(s).value + Vec(s).rest;
    assert len + (Vec(s).value + Vec(s).rest) == len + Vec(s).value + Vec(s).rest;
  }

  lemma VecCut(v: Octets, lengthClass: nat, m: nat)
    requires Fits(|v|, lengthClass) && m < |EncodeVec(v, lengthClass)|
    ensures Vec(EncodeVec(v, lengthClass)[..m]) == Fail(Truncated)
  {
    var len := EncodeVarint(|v|, lengthClass);
    if m < |len| {
      assert (len + v)[..m] == len[..m];
      VarintCut(|v|, lengthClass, m);
    } else {
      assert (len + v)[..m] == len + v[..m - |len|];
      VarintDecodes(|v|, lengthClass, v[..m - |len|]);
    }
  }

  lemma SenderDecodes(x: Sender, rest: Octets)
    requires x.Valid()
    ensures SkipSender(EncodeSender(x) + rest) == Got((), rest)
  {
    var s := EncodeSender(x) + rest;
    assert FromBigEndian(s[..1]) == s[0] by { assert s[..1] == [s[0]]; }
    match x
    case Member(leaf) =>
      assert s[1..] == BigEndian(leaf, 4) + rest;
      UnsignedDecodes(leaf, 4, rest);
    case External(index) =>
      assert s[1..] == BigEndian(index, 4) + rest;
      UnsignedDecodes(index, 4, rest);
    case NewMemberProposal =>
    case NewMemberCommit =>
  }

  lemma SenderSound(s: Octets) returns (x: Sender)
    requires SkipSender(s).Got?
    ensures x.Valid() && s == EncodeSender(x) + SkipSender(s).rest
  {
    assert FromBigEndian(s[..1]) == s[0] by { assert s[..1] == [s[0]]; }
    if s[0] == 1 {
      UnsignedSound(s[1..], 4);
      x := Member(Unsigned(s[1..], 4).value);
    } else if s[0] == 2 {
      UnsignedSound(s[1..], 4);
      x := External(Unsigned(s[1..], 4).value);
    } else if s[0] == 3 {
      x := NewMemberProposal;
    } else {
      x := NewMemberCommit;
    }
  }

  lemma SenderCut(x: Sender, m: nat)
    requires x.Valid() && m < |EncodeSender(x)|
    ensures SkipSender(EncodeSender(x)[..m]) == Fail(Truncated)
  {
    var s := EncodeSender(x)[..m];
    if m > 0 {
      assert FromBigEndian(s[..1]) == s[0] by { assert s[..1] == [s[0]]; }
    }
  }

  // ----------------------------------------------------------- the whole message

  function HandshakeOf(f: Framed): Handshake {
    Handshake(f.groupId, f.epoch, f.contentType)
  }

  lemma Regroup(a: Octets, b: Octets, c: Octets)
    ensures a + b + c == a + (b + c)
  {
  }

  lemma TrailerDecodes(f: Framed, dataClass: nat, rest: Octets)
    requires f.sender.Valid() && Fits(|f.authenticated|, dataClass)
    ensures Trailer(EncodeTrailer(f, dataClass) + rest) == Got(f.contentType, rest)
  {
    var data := EncodeVec(f.authenticated, dataClass);
    Regroup(EncodeSender(f.sender), data + [f.contentType], rest);
    Regroup(data, [f.contentType], rest);
    SenderDecodes(f.sender, data + [f.contentType] + rest);
    VecDecodes(f.authenticated, dataClass, [f.contentType] + rest);
  }

  lemma BodyDecodes(f: Framed, idClass: nat, dataClass: nat, rest: Octets)
    requires Encodable(f, idClass, dataClass)
    ensures Body(EncodeBody(f, idClass, dataClass) + rest) == Got(HandshakeOf(f), rest)
  {
    var trailer := EncodeTrailer(f, dataClass);
    Regroup(EncodeVec(f.groupId, idClass), BigEndian(f.epoch, 8) + trailer, rest);
    Regroup(BigEndian(f.epoch, 8), trailer, rest);
    VecDecodes(f.groupId, idClass, BigEndian(f.epoch, 8) + trailer + rest);
    UnsignedDecodes(f.epoch, 8, trailer + rest);
    TrailerDecodes(f, dataClass, rest);
  }

  /** Decoding inverts every encoding, whatever follows it. */
  lemma ParseDecodes(f: Framed, idClass: nat, dataClass: nat, rest: Octets)
    requires Encodable(f, idClass, dataClass)
    ensures Parse(Encode(f, idClass, dataClass) + rest) == Got(HandshakeOf(f), rest)
  {
    var body := EncodeBody(f, idClass, dataClass);
    var format := BigEndian(PUBLIC_MESSAGE, 2);
    Regroup(BigEndian(f.version, 2), format + body, rest);
    Regroup(format, body, rest);
    UnsignedDecodes(f.version, 2, format + body + rest);
    assert Pow256(2) == 65536;
    UnsignedDecodes(PUBLIC_MESSAGE, 2, body + rest);
    BodyDecodes(f, idClass, dataClass, rest);
  }

  lemma TrailerSound(s: Octets) returns (sender: Sender, data: Octets, dataClass: nat)
    requires Trailer(s).Got?
    ensures sender.Valid() && Fits(|data|, dataClass)
    ensures s == EncodeSender(sender)
                 + (EncodeVec(data, dataClass) + [Trailer(s).value]) + Trailer(s).rest
  {
    sender := SenderSound(s);
    var t := SkipSender(s).rest;
    VecSound(t);
    data, dataClass := Vec(t).value, t[0] / 64;
    var u := Vec(t).rest;
    assert u == [Trailer(s).value] + Trailer(s).rest;
    Regroup(EncodeVec(data, dataClass), [Trailer(s).value], Trailer(s).rest);
    Regroup(EncodeSender(sender), EncodeVec(data, dataClass) + [Trailer(s).value], Trailer(s).rest);
  }

  lemma BodySound(s: Octets, version: nat) returns (f: Framed, idClass: nat, dataClass: nat)
    requires Body(s).Got? && version < Pow256(2)
    ensures Encodable(f, idClass, dataClass) && HandshakeOf(f) == Body(s).value && f.version == version
    ensures s == EncodeBody(f, idClass, dataClass) + Body(s).rest
  {
    var groupId := Vec(s);
    var epoch := Unsigned(groupId.rest, 8);
    VecSound(s);
    UnsignedSound(groupId.rest, 8);
    var sender, data, c := TrailerSound(epoch.rest);
    idClass, dataClass := s[0] / 64, c;
    f := Framed(version, groupId.value, epoch.value, sender, data, Trailer(epoch.rest).value);
    var trailer := EncodeTrailer(f, dataClass);
    Regroup(BigEndian(f.epoch, 8), trailer, Body(s).rest);
    Regroup(EncodeVec(f.groupId, idClass), BigEndian(f.epoch, 8) + trailer, Body(s).rest);
  }

  /** Every success consumed an encoding of exactly the fields it returned. */
  lemma ParseSound(s: Octets) returns (f: Framed, idClass: nat, dataClass: nat)
    requires Parse(s).Got?
    ensures Encodable(f, idClass, dataClass) && HandshakeOf(f) == Parse(s).value
    ensures s == Encode(f, idClass, dataClass) + Parse(s).rest
  {
    var version := Unsigned(s, 2);
    var format := Unsigned(version.rest, 2);
    UnsignedSound(s, 2);
    UnsignedSound(version.rest, 2);
    f, idClass, dataClass := BodySound(format.rest, version.value);
    var body := EncodeBody(f, idClass, dataClass);
    Regroup(BigEndian(PUBLIC_MESSAGE, 2), body, Parse(s).rest);
    Regroup(BigEndian(f.version, 2), BigEndian(PUBLIC_MESSAGE, 2) + body, Parse(s).rest);
  }

  /** `s` is an encoding of a framed content carrying `h`, followed by `rest`. */
  ghost predicate Encodes(s: Octets, h: Handshake, rest: Octets) {
    exists f: Framed, idClass: nat, dataClass: nat ::
      Encodable(f, idClass, dataClass) && HandshakeOf(f) == h && s == Encode(f, idClass, dataClass) + rest
  }

  /** The decoder accepts exactly the encodings, and reads them exactly. */
  lemma ParseExactly(s: Octets, h: Handshake, rest: Octets)
    ensures Parse(s) == Got(h, rest) <==> Encodes(s, h, rest)
  {
    if Parse(s) == Got(h, rest) {
      var f, idClass, dataClass := ParseSound(s);
    }
    if Encodes(s, h, rest) {
      var f: Framed, idClass: nat, dataClass: nat :|
        Encodable(f, idClass, dataClass) && HandshakeOf(f) == h && s == Encode(f, idClass, dataClass) + rest;
      ParseDecodes(f, idClass, dataClass, rest);
    }
  }

  /** Only the consumed prefix matters: appended octets are handed back untouched. */
  lemma ParseIgnoresWhatFollows(s: Octets, more: Octets)
    requires Parse(s).Got?
    ensures Parse(s + more) == Got(Parse(s).value, Parse(s).rest + more)
  {
    var f, idClass, dataClass := ParseSound(s);
    ExtendedDecodes(f, idClass, dataClass, Parse(s).rest, more);
  }

  lemma ExtendedDecodes(f: Framed, idClass: nat, dataClass: nat, rest: Octets, more: Octets)
    requires Encodable(f, idClass, dataClass)
    ensures Parse(Encode(f, idClass, dataClass) + rest + more) == Got(HandshakeOf(f), rest + more)
  {
    Regroup(Encode(f, idClass, dataClass), rest, more);
    ParseDecodes(f, idClass, dataClass, rest + more);
  }

  /** Cutting an accepted message anywhere inside what was consumed truncates it. */
  lemma ParseCut(s: Octets, m: nat)
    requires Parse(s).Got? && m < |s| - |Parse(s).rest|
    ensures Parse(s[..m]) == Fail(Truncated)
  {
    var f, idClass, dataClass := ParseSound(s);
    assert s[..m] == Encode(f, idClass, dataClass)[..m];
    EncodingCut(f, idClass, dataClass, m);
  }

  lemma CutAt(p: Octets, q: Octets, m: nat)
    requires m < |p + q|
    ensures m < |p| ==> (p + q)[..m] == p[..m]
    ensures m >= |p| ==> (p + q)[..m] == p + q[..m - |p|]
  {
  }

  lemma EncodingCut(f: Framed, idClass: nat, dataClass: nat, m: nat)
    requires Encodable(f, idClass, dataClass) && m < |Encode(f, idClass, dataClass)|
    ensures Parse(Encode(f, idClass, dataClass)[..m]) == Fail(Truncated)
  {
    var rest := BigEndian(PUBLIC_MESSAGE, 2) + EncodeBody(f, idClass, dataClass);
    CutAt(BigEndian(f.version, 2), rest, m);
    if m >= 2 {
      UnsignedDecodes(f.version, 2, rest[..m - 2]);
      FormattedCut(f, idClass, dataClass, m - 2);
    }
  }

  lemma FormattedCut(f: Framed, idClass: nat, dataClass: nat, m: nat)
    requires Encodable(f, idClass, dataClass) && m < 2 + |EncodeBody(f, idClass, dataClass)|
    ensures Formatted((BigEndian(PUBLIC_MESSAGE, 2) + EncodeBody(f, idClass, dataClass))[..m]) == Fail(Truncated)
  {
    var body := EncodeBody(f, idClass, dataClass);
    CutAt(BigEndian(PUBLIC_MESSAGE, 2), body, m);
    if m >= 2 {
      FormattedIsBody(body[..m - 2]);
      BodyCut(f, idClass, dataClass, m - 2);
    }
  }

  lemma FormattedIsBody(t: Octets)
    ensures Formatted(BigEndian(PUBLIC_MESSAGE, 2) + t) == Body(t)
  {
    assert Pow256(2) == 65536;
    UnsignedDecodes(PUBLIC_MESSAGE, 2, t);
  }

  lemma BodyCut(f: Framed, idClass: nat, dataClass: nat, m: nat)
    requires Encodable(f, idClass, dataClass) && m < |EncodeBody(f, idClass, dataClass)|
    ensures Body(EncodeBody(f, idClass, dataClass)[..m]) == Fail(Truncated)
  {
    var id := EncodeVec(f.groupId, idClass);
    var epoch := BigEndian(f.epoch, 8);
    var trailer := EncodeTrailer(f, dataClass);
    CutAt(id, epoch + trailer, m);
    if m < |id| {
      VecCut(f.groupId, idClass, m);
    } else {
      var k := m - |id|;
      VecDecodes(f.groupId, idClass, (epoch + trailer)[..k]);
      CutAt(epoch, trailer, k);
      if k >= 8 {
        UnsignedDecodes(f.epoch, 8, trailer[..k - 8]);
        TrailerCut(f, dataClass, k - 8);
      }
    }
  }

  lemma TrailerCut(f: Framed, dataClass: nat, m: nat)
    requires f.sender.Valid() && Fits(|f.authenticated|, dataClass)
    requires m < |EncodeTrailer(f, dataClass)|
    ensures Trailer(EncodeTrailer(f, dataClass)[..m]) == Fail(Truncated)
  {
    var sender := EncodeSender(f.sender);
    var data := EncodeVec(f.authenticated, dataClass);
    CutAt(sender, data + [f.contentType], m);
    if m < |sender| {
      SenderCut(f.sender, m);
    } else {
      var k := m - |sender|;
      SenderDecodes(f.sender, (data + [f.contentType])[..k]);
      CutAt(data, [f.contentType], k);
      if k < |data| {
        VecCut(f.authenticated, dataClass, k);
      } else {
        VecDecodes(f.authenticated, dataClass, []);
      }
    }
  }

  /** Which messages are refused as encrypted: exactly those framed as PrivateMessage. */
  lemma NotPublicExactly(s: Octets)
    ensures Parse(s) == Fail(NotPublic) <==> |s| >= 4 && s[2..4] == [0, 2]
  {
    if |s| >= 4 {
      var t := s[2..4];
      assert s[2..][..2] == t;
      assert t[..1] == [t[0]];
      assert FromBigEndian(t[..1]) == t[0] as int;
    }
  }
}
