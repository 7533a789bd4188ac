/**
 What the decoder accepts beyond the standard.  Section 2.1.2 of RFC 9420 wants the shortest
 header that fits a length and knows no 8-octet one; the decoder checks neither.
 */
module MlsStrict {
  import opened Bytes
  import opened MlsWire

  /** The one class the standard allows for a length, if it allows any. */
  ghost predicate Minimal(n: nat, lengthClass: nat) {
    lengthClass <= 2 && Fits(n, lengthClass) && (lengthClass > 0 ==> !Fits(n, lengthClass - 1))
  }

  /** An encoding as the standard wants it. */
  ghost predicate ValidlyEncodes(s: Octets, h: Handshake, rest: Octets) {
    exists f: Framed, idClass: nat, dataClass: nat ::
      && Encodable(f, idClass, dataClass) && HandshakeOf(f) == h && s == Encode(f, idClass, dataClass) + rest
      && Minimal(|f.groupId|, idClass) && Minimal(|f.authenticated|, dataClass)
  }

  /** Where the group id starts: behind version and wire format. */
  function IdVector(s: Octets): Octets {
    if |s| < 4 then [] else s[4..]
  }

  /** Where authenticated_data starts: behind group id, epoch and sender. */
  function DataVector(s: Octets): Octets {
    match Vec(IdVector(s))
    case Fail(_) => []
    case Got(_, t) =>
      match Unsigned(t, 8)
      case Fail(_) => []
      case Got(_, u) =>
        match SkipSender(u)
        case Fail(_) => []
        case Got(_, v) => v
  }

  /** The class in the first octet is the one the vector's length calls for. */
  ghost predicate HeaderIsMinimal(t: Octets) {
    t != [] && Vec(t).Got? && Minimal(|Vec(t).value|, t[0] / 64)
  }

  lemma VecHeader(v: Octets, lengthClass: nat, rest: Octets)
    requires Fits(|v|, lengthClass)
    ensures var t := EncodeVec(v, lengthClass) + rest;
      t != [] && t[0] / 64 == lengthClass && Vec(t) == Got(v, rest)
  {
    VarintHeadIsSmall(|v|, lengthClass);
    VecDecodes(v, lengthClass, rest);
    var t := EncodeVec(v, lengthClass) + rest;
    assert t[0] == EncodeVarint(|v|, lengthClass)[0];
  }

  lemma IdVectorOf(f: Framed, idClass: nat, dataClass: nat, rest: Octets)
    requires Encodable(f, idClass, dataClass)
    ensures IdVector(Encode(f, idClass, dataClass) + rest)
         == EncodeVec(f.groupId, idClass) + (BigEndian(f.epoch, 8) + (EncodeTrailer(f, dataClass) + rest))
  {
    var body := EncodeBody(f, idClass, dataClass);
    var head := BigEndian(f.version, 2) + BigEndian(PUBLIC_MESSAGE, 2);
    var trailer := EncodeTrailer(f, dataClass);
    assert Encode(f, idClass, dataClass) + rest == head + (body + rest);
    assert (head + (body + rest))[4..] == body + rest;
    Regroup(EncodeVec(f.groupId, idClass), BigEndian(f.epoch, 8) + trailer, rest);
    Regroup(BigEndian(f.epoch, 8), trailer, rest);
  }

  lemma DataVectorOf(f: Framed, idClass: nat, dataClass: nat, rest: Octets)
    requires Encodable(f, idClass, dataClass)
    ensures DataVector(Encode(f, idClass, dataClass) + rest)
         == EncodeVec(f.authenticated, dataClass) + ([f.contentType] + rest)
  {
    var trailer := EncodeTrailer(f, dataClass) + rest;
    var data := EncodeVec(f.authenticated, dataClass);
    IdVectorOf(f, idClass, dataClass, rest);
    VecDecodes(f.groupId, idClass, BigEndian(f.epoch, 8) + trailer);
    UnsignedDecodes(f.epoch, 8, trailer);
    Regroup(EncodeSender(f.sender), data + [f.contentType], rest);
    Regroup(data, [f.contentType], rest);
    SenderDecodes(f.sender, data + ([f.contentType] + rest));
  }

  /** Both headers of an encoding show its classes and lengths. */
  lemma HeadersShowClasses(f: Framed, idClass: nat, dataClass: nat, rest: Octets)
    requires Encodable(f, idClass, dataClass)
    ensures var s := Encode(f, idClass, dataClass) + rest;
      && (HeaderIsMinimal(IdVector(s)) <==> Minimal(|f.groupId|, idClass))
      && (HeaderIsMinimal(DataVector(s)) <==> Minimal(|f.authenticated|, dataClass))
  {
    IdVectorOf(f, idClass, dataClass, rest);
    DataVectorOf(f, idClass, dataClass, rest);
    VecHeader(f.groupId, idClass, BigEndian(f.epoch, 8) + (EncodeTrailer(f, dataClass) + rest));
    VecHeader(f.authenticated, dataClass, [f.contentType] + rest);
  }

  /** An accepted message is a valid encoding exactly if both of its vector headers are minimal. */
  lemma AcceptedIsValidExactly(s: Octets)
    ensures Parse(s).Got? ==>
      (ValidlyEncodes(s, Parse(s).value, Parse(s).rest)
       <==> HeaderIsMinimal(IdVector(s)) && HeaderIsMinimal(DataVector(s)))
  {
    if Parse(s).Got? {
      var h, rest := Parse(s).value, Parse(s).rest;
      if ValidlyEncodes(s, h, rest) {
        var f: Framed, idClass: nat, dataClass: nat :|
          && Encodable(f, idClass, dataClass) && HandshakeOf(f) == h && s == Encode(f, idClass, dataClass) + rest
          && Minimal(|f.groupId|, idClass) && Minimal(|f.authenticated|, dataClass);
        HeadersShowClasses(f, idClass, dataClass, rest);
      }
      if HeaderIsMinimal(IdVector(s)) && HeaderIsMinimal(DataVector(s)) {
        var f, idClass, dataClass := ParseSound(s);
        HeadersShowClasses(f, idClass, dataClass, rest);
      }
    }
  }

  /** A commit of the empty group whose group id has a header of the given class. */
  function Sample(): Framed {
    Framed(1, [], 0, NewMemberCommit, [], CONTENT_TYPE_COMMIT)
  }

  /** Headers of 2, 4 and 8 octets for an empty group id: accepted, and forbidden by the standard. */
  lemma ForbiddenHeadersAreAccepted(idClass: nat)
    requires 1 <= idClass <= 3
    ensures Encodable(Sample(), idClass, 0)
    ensures var s := Encode(Sample(), idClass, 0);
      Parse(s) == Got(HandshakeOf(Sample()), []) && !ValidlyEncodes(s, HandshakeOf(Sample()), [])
  {
    var f := Sample();
    assert Fits(0, idClass) && Fits(0, idClass - 1) && Fits(0, 0);
    var s := Encode(f, idClass, 0);
    assert s + [] == s;
    ParseDecodes(f, idClass, 0, []);
    HeadersShowClasses(f, idClass, 0, []);
    AcceptedIsValidExactly(s);
  }
}
