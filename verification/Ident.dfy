/**
 Qualified identifiers (`mimi://domain/kind/local`) and the deduplication key of a pair.
 Parsing follows what Go's `net/url` does to a printable ASCII string, without IPv6
 literals; every refusal is one result.
 */
module Ident {
  import opened Bytes
  import opened OrderingChain

  datatype IdKind = User | Device | Room | Group

  datatype Id = Id(domain: Octets, kind: IdKind, local: Octets)

  const HASH: byte := 35
  const PERCENT: byte := 37
  const DASH: byte := 45
  const DOT: byte := 46
  const SLASH: byte := 47
  const COLON: byte := 58
  const QUERY: byte := 63
  const AT: byte := 64

  /** "mimi" */
  const SCHEME_NAME: Octets := [109, 105, 109, 105]

  function Letter(k: IdKind): byte {
    match k
    case User => 117
    case Device => 100
    case Room => 114
    case Group => 103
  }

  function KindOf(s: Octets): Option<IdKind> {
    if s == [117] then Some(User)
    else if s == [100] then Some(Device)
    else if s == [114] then Some(Room)
    else if s == [103] then Some(Group)
    else None
  }

  // ------------------------------------------------------------- percent-encoding

  predicate Digit(b: byte) { 48 <= b <= 57 }

  predicate Upper(b: byte) { 65 <= b <= 90 }

  predicate LowerCase(b: byte) { 97 <= b <= 122 }

  /** Letters, digits and - . _ ~ */
  predicate Unreserved(b: byte) {
    Digit(b) || Upper(b) || LowerCase(b) || b == DASH || b == DOT || b == 95 || b == 126
  }

  /** What a path segment keeps as it is: also $ & + : = @ */
  predicate SegmentKeeps(b: byte) {
    Unreserved(b) || b == 36 || b == 38 || b == 43 || b == COLON || b == 61 || b == AT
  }

  /** What a path keeps as it is: also , / and ; */
  predicate PathKeeps(b: byte) {
    SegmentKeeps(b) || b == 44 || b == SLASH || b == 59
  }

  /** What may stand in an already encoded path: also % ! ' ( ) * [ and ] */
  predicate PathAllows(b: byte) {
    PathKeeps(b) || b == PERCENT || b == 33 || 39 <= b <= 42 || b == 91 || b == 93
  }

  function HexDigit(v: nat): byte
    requires v < 16
  {
    if v < 10 then 48 + v else 55 + v
  }

  function Unhex(b: byte): Option<nat> {
    if Digit(b) then Some(b - 48)
    else if 65 <= b <= 70 then Some(b - 55)
    else if 97 <= b <= 102 then Some(b - 87)
    else None
  }

  function Escaped(b: byte): Octets {
    [PERCENT, HexDigit(b / 16), HexDigit(b % 16)]
  }

  function Escape(keeps: byte -> bool, s: Octets): Octets {
    if s == [] then [] else (if keeps(s[0]) then [s[0]] else Escaped(s[0])) + Escape(keeps, s[1..])
  }

  function EncodeLocal(s: Octets): Octets {
    Escape(SegmentKeeps, s)
  }

  function Prepend(b: byte, r: Option<Octets>): Option<Octets> {
    if r.Some? then Some([b] + r.value) else None
  }

  /** In a host only octets beyond ASCII, and the percent sign itself, may be escaped. */
  predicate HostEscape(s: Octets)
    requires |s| >= 3 && Unhex(s[1]).Some? && Unhex(s[2]).Some?
  {
    Unhex(s[1]).value >= 8 || s[1..3] == [50, 53]
  }

  /** Percent-decoding, of a host or of a path. */
  function Decode(host: bool, s: Octets): Option<Octets> {
    if s == [] then Some([])
    else if s[0] != PERCENT then Prepend(s[0], Decode(host, s[1..]))
    else if |s| < 3 || Unhex(s[1]).None? || Unhex(s[2]).None? || (host && !HostEscape(s)) then None
    else Prepend(Unhex(s[1]).value * 16 + Unhex(s[2]).value, Decode(host, s[3..]))
  }

  function Unescape(s: Octets): Option<Octets> {
    Decode(false, s)
  }

  lemma HexRoundTrip(b: byte)
    ensures Unhex(HexDigit(b / 16)) == Some(b / 16) && Unhex(HexDigit(b % 16)) == Some(b % 16)
  {
  }

  /** Escaping loses nothing, as long as a percent sign is not kept as it is. */
  lemma {:induction false} EscapeRoundTrip(keeps: byte -> bool, s: Octets)
    requires !keeps(PERCENT)
    ensures Unescape(Escape(keeps, s)) == Some(s)
  {
    if s != [] {
      var e := Escape(keeps, s);
      var rest := Escape(keeps, s[1..]);
      EscapeRoundTrip(keeps, s[1..]);
      assert s == [s[0]] + s[1..];
      if keeps(s[0]) {
        assert e[0] == s[0] && e[1..] == rest;
      } else {
        HexRoundTrip(s[0]);
        assert e == Escaped(s[0]) + rest && e[3..] == rest;
      }
    }
  }

  /** An encoded local part holds nothing that would end it. */
  lemma {:induction false} EncodedIsClean(s: Octets)
    ensures forall b :: b in EncodeLocal(s) ==> b == PERCENT || SegmentKeeps(b)
  {
    if s != [] {
      EncodedIsClean(s[1..]);
    }
  }

  // ------------------------------------------------------------------------ scanning

  datatype Cutting = Cutting(before: Octets, after: Octets, found: bool)

  /** Around the first separator. */
  function Cut(s: Octets, sep: byte): (r: Cutting)
    ensures |r.before| + |r.after| <= |s| && (r.found ==> |r.after| < |s|)
  {
    if s == [] then Cutting([], [], false)
    else if s[0] == sep then Cutting([], s[1..], true)
    else var r := Cut(s[1..], sep); Cutting([s[0]] + r.before, r.after, r.found)
  }

  /** Around the last one. */
  function CutLast(s: Octets, sep: byte): Cutting {
    if s == [] then Cutting([], [], false)
    else
      var n := |s| - 1;
      if s[n] == sep then Cutting(s[..n], [], true)
      else
        var r := CutLast(s[..n], sep);
        if r.found then Cutting(r.before, r.after + [s[n]], true) else Cutting(s, [], false)
  }

  lemma {:induction false} CutAt(a: Octets, sep: byte, b: Octets)
    requires sep !in a
    ensures Cut(a + ([sep] + b), sep) == Cutting(a, b, true)
  {
    var s := a + ([sep] + b);
    if a == [] {
      assert s[1..] == b;
    } else {
      assert s[1..] == a[1..] + ([sep] + b) && a == [a[0]] + a[1..];
      CutAt(a[1..], sep, b);
    }
  }

  lemma {:induction false} CutNone(a: Octets, sep: byte)
    requires sep !in a
    ensures Cut(a, sep) == Cutting(a, [], false) && CutLast(a, sep) == Cutting(a, [], false)
  {
    if a != [] {
      CutNone(a[1..], sep);
      CutLastNone(a, sep);
      assert a == [a[0]] + a[1..];
    }
  }

  lemma {:induction false} CutLastNone(a: Octets, sep: byte)
    requires sep !in a
    ensures CutLast(a, sep) == Cutting(a, [], false)
  {
    if a != [] {
      CutLastNone(a[..|a| - 1], sep);
    }
  }

  /** The Kelvin sign and the dotted capital I, the two letters beyond ASCII with a lower case in it. */
  const KELVIN: Octets := [0xE2, 0x84, 0xAA]
  const DOTTED_I: Octets := [0xC4, 0xB0]

  /** The first character in lower case, as far as the result is ASCII, and the width it had. */
  function LowerFirst(s: Octets): (Octets, nat)
    requires s != []
  {
    if KELVIN <= s then ([107], 3)
    else if DOTTED_I <= s then ([105], 2)
    else ([if Upper(s[0]) then s[0] + 32 else s[0]], 1)
  }

  function Lower(s: Octets): Octets {
    if s == [] then [] else LowerFirst(s).0 + Lower(s[LowerFirst(s).1..])
  }

  /** A white-space character beyond ASCII, in UTF-8. */
  predicate WideSpace(c: Octets) {
    || c == [0xC2, 0x85] || c == [0xC2, 0xA0] || c == [0xE1, 0x9A, 0x80]
    || (|c| == 3 && c[..2] == [0xE2, 0x80] && (0x80 <= c[2] <= 0x8A || c[2] in [0xA8, 0xA9, 0xAF]))
    || c == [0xE2, 0x81, 0x9F] || c == [0xE3, 0x80, 0x80]
  }

  function SpaceWidth(s: Octets): (w: nat)
    ensures w <= |s|
  {
    if |s| >= 2 && WideSpace(s[..2]) then 2 else if |s| >= 3 && WideSpace(s[..3]) then 3 else 0
  }

  function LastSpaceWidth(s: Octets): (w: nat)
    ensures w <= |s|
  {
    if |s| >= 2 && WideSpace(s[|s| - 2..]) then 2 else if |s| >= 3 && WideSpace(s[|s| - 3..]) then 3 else 0
  }

  /** A host can hold no ASCII white space, so only the wide kind is trimmed. */
  function TrimLeft(s: Octets): Octets {
    if SpaceWidth(s) == 0 then s else TrimLeft(s[SpaceWidth(s)..])
  }

  function TrimRight(s: Octets): Octets {
    if LastSpaceWidth(s) == 0 then s else TrimRight(s[..|s| - LastSpaceWidth(s)])
  }

  /** The domain a host part of the authority names, if its escapes are allowed. */
  function HostName(host: Octets): Option<Octets> {
    match Decode(true, host)
    case None => None
    case Some(d) => Some(Lower(TrimRight(TrimLeft(d))))
  }

  predicate Ascii(s: Octets) {
    forall b :: b in s ==> b < 128
  }

  lemma {:induction false} NothingToDecode(host: bool, s: Octets)
    requires PERCENT !in s
    ensures Decode(host, s) == Some(s)
  {
    if s != [] {
      NothingToDecode(host, s[1..]);
      assert s == [s[0]] + s[1..];
    }
  }

  lemma {:induction false} LowerIsLower(s: Octets)
    requires Ascii(s) && forall b :: b in s ==> !Upper(b)
    ensures Lower(s) == s
  {
    if s != [] {
      assert s[0] in s && forall b :: b in s[1..] ==> b in s;
      assert LowerFirst(s) == ([s[0]], 1);
      LowerIsLower(s[1..]);
      assert s == [s[0]] + s[1..];
    }
  }

  lemma NoWideSpace(s: Octets, c: Octets)
    requires Ascii(s) && c != [] && c[0] in s
    ensures !WideSpace(c)
  {
  }

  lemma NoSpaceAtTheEnds(s: Octets)
    requires Ascii(s)
    ensures SpaceWidth(s) == 0 && LastSpaceWidth(s) == 0
  {
    if |s| >= 2 {
      NoWideSpace(s, s[..2]);
      NoWideSpace(s, s[|s| - 2..]);
    }
    if |s| >= 3 {
      NoWideSpace(s, s[..3]);
      NoWideSpace(s, s[|s| - 3..]);
    }
  }

  lemma NothingToTrim(s: Octets)
    requires Ascii(s)
    ensures TrimLeft(s) == s && TrimRight(s) == s
  {
    NoSpaceAtTheEnds(s);
  }

  /** A plain host names itself. */
  lemma HostNameOfPlain(s: Octets)
    requires Ascii(s) && PERCENT !in s && forall b :: b in s ==> !Upper(b)
    ensures HostName(s) == Some(s)
  {
    NothingToDecode(true, s);
    NothingToTrim(s);
    LowerIsLower(s);
  }

  // ------------------------------------------------------------------------- domains

  function Split(s: Octets, sep: byte): seq<Octets>
    decreases |s|
  {
    var c := Cut(s, sep);
    if c.found then [c.before] + Split(c.after, sep) else [s]
  }

  /** What a domain may hold besides dots. */
  predicate LabelByte(b: byte) {
    LowerCase(b) || Digit(b) || b == DASH
  }

  predicate ValidLabel(l: Octets) {
    0 < |l| <= 63 && l[0] != DASH && l[|l| - 1] != DASH && forall b :: b in l ==> LabelByte(b)
  }

  predicate ValidDomain(d: Octets) {
    0 < |d| <= 253 && DOT in d && forall l :: l in Split(d, DOT) ==> ValidLabel(l)
  }

  lemma {:induction false} SplitBytes(d: Octets)
    requires forall l :: l in Split(d, DOT) ==> ValidLabel(l)
    ensures forall b :: b in d ==> b == DOT || LabelByte(b)
    decreases |d|
  {
    var c := Cut(d, DOT);
    if c.found {
      var ls := Split(c.after, DOT);
      assert Split(d, DOT) == [c.before] + ls;
      assert c.before in Split(d, DOT);
      forall l | l in ls ensures ValidLabel(l) {
        assert l in Split(d, DOT);
      }
      SplitBytes(c.after);
      CutConcat(d, DOT);
    } else {
      assert d in Split(d, DOT);
    }
  }

  lemma {:induction false} CutConcat(s: Octets, sep: byte)
    ensures var r := Cut(s, sep); s == if r.found then r.before + ([sep] + r.after) else r.before
  {
    if s != [] && s[0] != sep {
      CutConcat(s[1..], sep);
      assert s == [s[0]] + s[1..];
    }
  }

  // -------------------------------------------------------------------- identifiers

  predicate Valid(id: Id) {
    ValidDomain(id.domain) && id.local != []
  }

  function Path(k: IdKind, local: Octets): Octets {
    [SLASH] + ([Letter(k)] + ([SLASH] + EncodeLocal(local)))
  }

  function WithScheme(rest: Octets): Octets {
    SCHEME_NAME + ([COLON] + rest)
  }

  /** From the two slashes on. */
  function Hierarchy(id: Id): Octets {
    [SLASH, SLASH] + (id.domain + Path(id.kind, id.local))
  }

  function String(id: Id): Octets {
    WithScheme(Hierarchy(id))
  }

  predicate Printable(s: Octets) {
    forall b :: b in s ==> 0x20 < b < 0x7f
  }

  function Parse(raw: Octets): Option<Id> {
    if !Printable(raw) then None
    else
      var f := Cut(raw, HASH);
      if f.after != [] then None  // a fragment
      else if |f.before| < 5 || Lower(f.before[..4]) != SCHEME_NAME || f.before[4] != COLON then None
      else ParseHierarchy(f.before[5..])
  }

  function ParseHierarchy(rest: Octets): Option<Id> {
    var q := Cut(rest, QUERY);
    if q.after != [] then None  // a query
    else if |q.before| < 2 || q.before[..2] != [SLASH, SLASH] then None  // no authority
    else
      var a := Cut(q.before[2..], SLASH);
      ParseParts(a.before, if a.found then [SLASH] + a.after else [])
  }

  function ParseParts(authority: Octets, path: Octets): Option<Id> {
    var h := CutLast(authority, COLON);
    if AT in authority || (h.found && h.after != []) then None  // userinfo or a port
    else if HostName(h.before).None? || !ValidDomain(HostName(h.before).value) then None
    else
      match Unescape(path)
      case None => None
      case Some(p) =>
        ParsePath(HostName(h.before).value, if Allowed(path) then path else Escape(PathKeeps, p))
  }

  predicate Allowed(path: Octets) {
    forall b :: b in path ==> PathAllows(b)
  }

  /** A host that is spelled as it is, and a path that needs no escaping. */
  lemma PartsToPath(host: Octets, path: Octets)
    requires COLON !in host && HostName(host) == Some(host) && Allowed(path) && Unescape(path).Some?
    ensures ParseParts(host, path) == if AT !in host && ValidDomain(host) then ParsePath(host, path) else None
  {
    CutLastNone(host, COLON);
  }

  function ParsePath(domain: Octets, escaped: Octets): Option<Id> {
    var k := Cut(if escaped != [] && escaped[0] == SLASH then escaped[1..] else escaped, SLASH);
    if !k.found || KindOf(k.before).None? || SLASH in k.after then None
    else
      match Unescape(k.after)
      case None => None
      case Some(local) => if local == [] then None else Some(Id(domain, KindOf(k.before).value, local))
  }

  lemma PathIsClean(k: IdKind, local: Octets)
    ensures Allowed(Path(k, local))
    ensures forall b :: b in Path(k, local) ==> b != QUERY && b != HASH && 0x20 < b < 0x7f
    ensures SLASH !in EncodeLocal(local)
  {
    EncodedIsClean(local);
  }

  /** The segments a path of kind and local part splits into. */
  lemma PathToId(domain: Octets, k: IdKind, l: Octets)
    requires SLASH !in l
    ensures ParsePath(domain, [SLASH] + ([Letter(k)] + ([SLASH] + l)))
         == if Unescape(l).None? || Unescape(l).value == [] then None else Some(Id(domain, k, Unescape(l).value))
  {
    var rest := [Letter(k)] + ([SLASH] + l);
    Uncons(SLASH, rest);
    CutAt([Letter(k)], SLASH, l);
    assert KindOf([Letter(k)]) == Some(k);
  }

  lemma ParsePathOfPath(domain: Octets, k: IdKind, local: Octets)
    requires local != []
    ensures ParsePath(domain, Path(k, local)) == Some(Id(domain, k, local))
  {
    PathIsClean(k, local);
    EscapeRoundTrip(SegmentKeeps, local);
    PathToId(domain, k, EncodeLocal(local));
  }

  lemma Uncons(b: byte, s: Octets)
    ensures ([b] + s)[0] == b && ([b] + s)[1..] == s
  {
  }

  lemma UnescapePlain(b: byte, s: Octets)
    requires b != PERCENT && Unescape(s).Some?
    ensures Unescape([b] + s).Some?
  {
    Uncons(b, s);
  }

  lemma UnescapeOfPath(k: IdKind, local: Octets)
    ensures Unescape(Path(k, local)).Some?
  {
    var e := EncodeLocal(local);
    EscapeRoundTrip(SegmentKeeps, local);
    UnescapePlain(SLASH, e);
    UnescapePlain(Letter(k), [SLASH] + e);
    UnescapePlain(SLASH, [Letter(k)] + ([SLASH] + e));
  }

  lemma DomainIsPlain(d: Octets)
    requires ValidDomain(d)
    ensures AT !in d && COLON !in d && HostName(d) == Some(d)
  {
    SplitBytes(d);
    HostNameOfPlain(d);
  }

  lemma ParsePartsOfString(id: Id)
    requires Valid(id)
    ensures ParseParts(id.domain, Path(id.kind, id.local)) == Some(id)
  {
    DomainIsPlain(id.domain);
    UnescapeOfPath(id.kind, id.local);
    PathIsClean(id.kind, id.local);
    PartsToPath(id.domain, Path(id.kind, id.local));
    ParsePathOfPath(id.domain, id.kind, id.local);
  }

  lemma HierarchyIsClean(id: Id)
    requires Valid(id)
    ensures Printable(Hierarchy(id)) && HASH !in Hierarchy(id) && QUERY !in Hierarchy(id)
    ensures SLASH !in id.domain
  {
    SplitBytes(id.domain);
    PathIsClean(id.kind, id.local);
  }

  lemma ParseOfHierarchy(id: Id, tail: Octets)
    requires Valid(id) && (tail == [] || tail == [QUERY])
    ensures ParseHierarchy(Hierarchy(id) + tail) == Some(id)
  {
    var path := Path(id.kind, id.local);
    var h := Hierarchy(id);
    HierarchyIsClean(id);
    CutTail(h, QUERY, tail);
    var after := [Letter(id.kind)] + ([SLASH] + EncodeLocal(id.local));
    assert h[..2] == [SLASH, SLASH] && h[2..] == id.domain + ([SLASH] + after);
    CutAt(id.domain, SLASH, after);
    ParsePartsOfString(id);
  }

  lemma SchemeIsClean(rest: Octets)
    requires Printable(rest) && HASH !in rest
    ensures Printable(WithScheme(rest)) && HASH !in WithScheme(rest)
  {
  }

  lemma SchemeAndRest(rest: Octets)
    ensures var s := WithScheme(rest);
      |s| == |rest| + 5 && s[..4] == SCHEME_NAME && s[4] == COLON && s[5..] == rest
  {
  }

  lemma SchemeParts(rest: Octets)
    ensures var s := WithScheme(rest);
      |s| >= 5 && Lower(s[..4]) == SCHEME_NAME && s[4] == COLON && s[5..] == rest
  {
    SchemeAndRest(rest);
    SchemeIsLower();
  }

  lemma SchemeIsLower()
    ensures Lower(SCHEME_NAME) == SCHEME_NAME
  {
    LowerIsLower(SCHEME_NAME);
  }

  lemma ParseOfScheme(rest: Octets, fragment: Octets)
    requires Printable(rest) && HASH !in rest && (fragment == [] || fragment == [HASH])
    ensures Parse(WithScheme(rest) + fragment) == ParseHierarchy(rest)
  {
    SchemeIsClean(rest);
    CutTail(WithScheme(rest), HASH, fragment);
    SchemeParts(rest);
    assert Printable(WithScheme(rest) + fragment);
  }

  lemma SpelledWithQuery(id: Id, query: Octets)
    requires Valid(id) && (query == [] || query == [QUERY])
    ensures Printable(Hierarchy(id) + query) && HASH !in Hierarchy(id) + query
    ensures String(id) + query == WithScheme(Hierarchy(id) + query)
  {
    HierarchyIsClean(id);
    var h := Hierarchy(id);
    assert WithScheme(h) + query == WithScheme(h + query);
  }

  /** The spelling, with an empty query or fragment or neither. */
  lemma ParseOfString(id: Id, query: Octets, fragment: Octets)
    requires Valid(id) && (query == [] || query == [QUERY]) && (fragment == [] || fragment == [HASH])
    ensures Parse(String(id) + query + fragment) == Some(id)
  {
    SpelledWithQuery(id, query);
    ParseOfHierarchy(id, query);
    ParseOfScheme(Hierarchy(id) + query, fragment);
  }

  lemma CutTail(a: Octets, sep: byte, tail: Octets)
    requires sep !in a && (tail == [] || tail == [sep])
    ensures Cut(a + tail, sep).before == a && Cut(a + tail, sep).after == []
  {
    if tail == [] {
      assert a + tail == a;
      CutNone(a, sep);
    } else {
      assert [sep] + [] == tail;
      CutAt(a, sep, []);
    }
  }

  /** Every valid identifier survives its own spelling, whatever octets its local part holds. */
  lemma ParseAfterString(id: Id)
    requires Valid(id)
    ensures Parse(String(id)) == Some(id)
  {
    assert String(id) + [] + [] == String(id);
    ParseOfString(id, [], []);
  }

  /** So no two identifiers are spelled the same. */
  lemma StringIsInjective(a: Id, b: Id)
    requires Valid(a) && Valid(b)
    ensures String(a) == String(b) <==> a == b
  {
    ParseAfterString(a);
    ParseAfterString(b);
  }

  /** The converse direction fails for every identifier: an empty query or fragment is accepted too. */
  lemma EveryIdentifierHasOtherSpellings(id: Id)
    requires Valid(id)
    ensures Parse(String(id) + [QUERY]) == Some(id) == Parse(String(id) + [HASH])
  {
    assert String(id) + [QUERY] + [] == String(id) + [QUERY] && String(id) + [] + [HASH] == String(id) + [HASH];
    ParseOfString(id, [QUERY], []);
    ParseOfString(id, [], [HASH]);
  }

  /** Whatever is accepted names a valid identifier, and spelling that again gives it back. */
  lemma AcceptedIsValid(raw: Octets)
    requires Parse(raw).Some?
    ensures Valid(Parse(raw).value) && Parse(String(Parse(raw).value)) == Parse(raw)
  {
    ParseAfterString(Parse(raw).value);
  }

  // ------------------------------------------------------------- canonical spellings

  predicate UpperHex(b: byte) {
    Digit(b) || 65 <= b <= 70
  }

  /** Every octet is kept if it may be, and escaped in upper-case hex exactly if it may not. */
  predicate CanonicalLocal(s: Octets) {
    s == []
    || (s[0] != PERCENT && SegmentKeeps(s[0]) && CanonicalLocal(s[1..]))
    || (|s| >= 3 && s[0] == PERCENT && UpperHex(s[1]) && UpperHex(s[2])
        && !SegmentKeeps(Unhex(s[1]).value * 16 + Unhex(s[2]).value) && CanonicalLocal(s[3..]))
  }

  /** Kind and local part, from behind the authority's slash. */
  predicate CanonicalPath(s: Octets) {
    |s| >= 2 && KindOf(s[..1]).Some? && s[1] == SLASH && CanonicalLocal(s[2..])
  }

  predicate CanonicalHost(s: Octets) {
    forall b :: b in s ==> !Upper(b) && b != COLON && b != PERCENT
  }

  /** The spelling, scanned octet by octet: scheme, host, kind and local part, and nothing else. */
  predicate CanonicallySpelled(raw: Octets) {
    && |raw| >= 7 && raw[..4] == SCHEME_NAME && HASH !in raw && QUERY !in raw
    && (var a := Cut(raw[7..], SLASH); CanonicalHost(a.before) && CanonicalPath(a.after))
  }

  lemma UpperHexRoundTrip(x: byte, y: byte)
    requires UpperHex(x) && UpperHex(y)
    ensures Escaped(Unhex(x).value * 16 + Unhex(y).value) == [PERCENT, x, y]
  {
  }

  /** A canonical local part is the encoding of what it decodes to. */
  lemma {:induction false} CanonicalLocalIsEncoded(s: Octets)
    requires CanonicalLocal(s)
    ensures Unescape(s).Some? && EncodeLocal(Unescape(s).value) == s
    ensures forall b :: b in s ==> PathAllows(b) && b != SLASH
  {
    if s != [] {
      if s[0] != PERCENT {
        CanonicalLocalIsEncoded(s[1..]);
        KeptFirst(s);
      } else {
        CanonicalLocalIsEncoded(s[3..]);
        EscapedFirst(s);
      }
    }
  }

  lemma KeptFirst(s: Octets)
    requires s != [] && s[0] != PERCENT && SegmentKeeps(s[0])
    requires Unescape(s[1..]).Some? && EncodeLocal(Unescape(s[1..]).value) == s[1..]
    requires forall b :: b in s[1..] ==> PathAllows(b) && b != SLASH
    ensures Unescape(s).Some? && EncodeLocal(Unescape(s).value) == s
    ensures forall b :: b in s ==> PathAllows(b) && b != SLASH
  {
    EncodedFirst(s[0], Unescape(s[1..]).value);
    assert s == [s[0]] + s[1..];
  }

  lemma EscapedFirst(s: Octets)
    requires |s| >= 3 && s[0] == PERCENT && UpperHex(s[1]) && UpperHex(s[2])
    requires !SegmentKeeps(Unhex(s[1]).value * 16 + Unhex(s[2]).value)
    requires Unescape(s[3..]).Some? && EncodeLocal(Unescape(s[3..]).value) == s[3..]
    requires forall b :: b in s[3..] ==> PathAllows(b) && b != SLASH
    ensures Unescape(s).Some? && EncodeLocal(Unescape(s).value) == s
    ensures forall b :: b in s ==> PathAllows(b) && b != SLASH
  {
    var b := Unhex(s[1]).value * 16 + Unhex(s[2]).value;
    UpperHexRoundTrip(s[1], s[2]);
    EncodedFirst(b, Unescape(s[3..]).value);
    DecodedFirst(s, b);
    EscapedThenRest(s);
  }

  lemma DecodedFirst(s: Octets, b: byte)
    requires |s| >= 3 && s[0] == PERCENT && Unhex(s[1]).Some? && Unhex(s[2]).Some?
    requires b == Unhex(s[1]).value * 16 + Unhex(s[2]).value
    ensures Unescape(s) == Prepend(b, Unescape(s[3..]))
  {
  }

  lemma EscapedThenRest(s: Octets)
    requires |s| >= 3 && s[0] == PERCENT && UpperHex(s[1]) && UpperHex(s[2])
    requires forall b :: b in s[3..] ==> PathAllows(b) && b != SLASH
    ensures s == [PERCENT, s[1], s[2]] + s[3..]
    ensures forall b :: b in s ==> PathAllows(b) && b != SLASH
  {
    assert s == [PERCENT, s[1], s[2]] + s[3..];
  }

  lemma EncodedFirst(b: byte, s: Octets)
    ensures EncodeLocal([b] + s) == (if SegmentKeeps(b) then [b] else Escaped(b)) + EncodeLocal(s)
  {
    Uncons(b, s);
  }

  lemma {:induction false} EncodedIsCanonical(s: Octets)
    ensures CanonicalLocal(EncodeLocal(s))
  {
    if s != [] {
      var rest := EncodeLocal(s[1..]);
      EncodedIsCanonical(s[1..]);
      if SegmentKeeps(s[0]) {
        Uncons(s[0], rest);
      } else {
        HexRoundTrip(s[0]);
        var e := Escaped(s[0]) + rest;
        assert e[3..] == rest && e[0] == PERCENT;
        assert UpperHex(e[1]) && UpperHex(e[2]);
      }
    }
  }

  /** What follows the two slashes. */
  function Tail(id: Id): Octets {
    id.domain + ([SLASH] + KindAndLocal(id))
  }

  function KindAndLocal(id: Id): Octets {
    [Letter(id.kind)] + ([SLASH] + EncodeLocal(id.local))
  }

  lemma SpelledParts(id: Id)
    ensures |String(id)| >= 7 && String(id)[..4] == SCHEME_NAME && String(id)[7..] == Tail(id)
  {
    var h := Hierarchy(id);
    SchemeAndRest(h);
    assert h[2..] == Tail(id);
    assert String(id)[7..] == String(id)[5..][2..];
  }

  lemma SpelledClean(id: Id)
    requires Valid(id)
    ensures HASH !in String(id) && QUERY !in String(id)
  {
    HierarchyIsClean(id);
    SchemeIsClean(Hierarchy(id));
    assert forall b :: b in String(id) ==> b in SCHEME_NAME || b == COLON || b in Hierarchy(id);
  }

  lemma KindAndLocalIsCanonical(id: Id)
    ensures CanonicalPath(KindAndLocal(id))
  {
    var k, local := KindAndLocal(id), EncodeLocal(id.local);
    EncodedIsCanonical(id.local);
    Uncons(Letter(id.kind), [SLASH] + local);
    Uncons(SLASH, local);
    assert k[2..] == k[1..][1..];
    assert k[..1] == [Letter(id.kind)];
  }

  lemma DomainIsCanonical(d: Octets)
    requires ValidDomain(d)
    ensures CanonicalHost(d) && SLASH !in d
  {
    SplitBytes(d);
  }

  lemma TailIsCanonical(id: Id)
    requires Valid(id)
    ensures Cut(Tail(id), SLASH) == Cutting(id.domain, KindAndLocal(id), true)
    ensures CanonicalHost(id.domain) && CanonicalPath(KindAndLocal(id))
  {
    DomainIsCanonical(id.domain);
    KindAndLocalIsCanonical(id);
    CutAt(id.domain, SLASH, KindAndLocal(id));
  }

  lemma StringIsCanonical(id: Id)
    requires Valid(id)
    ensures CanonicallySpelled(String(id))
  {
    SpelledParts(id);
    SpelledClean(id);
    TailIsCanonical(id);
  }

  lemma AcceptedScheme(raw: Octets)
    requires Parse(raw).Some? && HASH !in raw
    ensures Printable(raw) && |raw| >= 5 && raw[4] == COLON && Parse(raw) == ParseHierarchy(raw[5..])
  {
    CutNone(raw, HASH);
  }

  lemma AcceptedHierarchy(rest: Octets)
    requires ParseHierarchy(rest).Some? && QUERY !in rest
    ensures |rest| >= 2 && rest[..2] == [SLASH, SLASH]
    ensures var a := Cut(rest[2..], SLASH);
      ParseHierarchy(rest) == ParseParts(a.before, if a.found then [SLASH] + a.after else [])
  {
    CutNone(rest, QUERY);
  }

  /** Authority and path of a canonical spelling are those of the identifier it names. */
  lemma CanonicalParts(host: Octets, k: IdKind, l: Octets)
    requires Printable(host) && CanonicalHost(host) && CanonicalLocal(l)
    requires ParseParts(host, [SLASH] + ([Letter(k)] + ([SLASH] + l))).Some?
    ensures Unescape(l).Some?
    ensures ParseParts(host, [SLASH] + ([Letter(k)] + ([SLASH] + l))) == Some(Id(host, k, Unescape(l).value))
  {
    CanonicalLocalIsEncoded(l);
    HostNameOfPlain(host);
    CanonicalPathIsAllowed(k, l);
    PartsToPath(host, [SLASH] + ([Letter(k)] + ([SLASH] + l)));
    PathToId(host, k, l);
  }

  lemma CanonicalPathIsAllowed(k: IdKind, l: Octets)
    requires Unescape(l).Some? && forall b :: b in l ==> PathAllows(b) && b != SLASH
    ensures var path := [SLASH] + ([Letter(k)] + ([SLASH] + l)); Allowed(path) && Unescape(path).Some?
  {
    UnescapePlain(SLASH, l);
    UnescapePlain(Letter(k), [SLASH] + l);
    UnescapePlain(SLASH, [Letter(k)] + ([SLASH] + l));
  }

  /** What `t` is, between the first slash and the ends. */
  lemma TailParts(t: Octets)
    requires CanonicalPath(Cut(t, SLASH).after)
    ensures var a := Cut(t, SLASH);
      && a.found && t == a.before + ([SLASH] + a.after)
      && a.after == [Letter(KindOf(a.after[..1]).value)] + ([SLASH] + a.after[2..])
  {
    var a := Cut(t, SLASH);
    CutConcat(t, SLASH);
    CutFound(t, SLASH);
    assert a.after == a.after[..1] + ([a.after[1]] + a.after[2..]);
    assert a.after[..1] == [Letter(KindOf(a.after[..1]).value)];
  }

  lemma CanonicalTail(t: Octets)
    requires Printable(t)
    requires var a := Cut(t, SLASH); CanonicalHost(a.before) && CanonicalPath(a.after)
    requires var a := Cut(t, SLASH); ParseParts(a.before, if a.found then [SLASH] + a.after else []).Some?
    ensures var a := Cut(t, SLASH);
      var r := ParseParts(a.before, if a.found then [SLASH] + a.after else []);
      r.Some? && t == Tail(r.value)
  {
    var a := Cut(t, SLASH);
    TailParts(t);
    PrintablePart(a.before, t);
    CanonicalParts(a.before, KindOf(a.after[..1]).value, a.after[2..]);
    CanonicalLocalIsEncoded(a.after[2..]);
  }

  lemma PrintablePart(a: Octets, t: Octets)
    requires Printable(t) && a <= t
    ensures Printable(a)
  {
    assert forall b :: b in a ==> b in t;
  }

  lemma {:induction false} CutFound(s: Octets, sep: byte)
    ensures Cut(s, sep).after != [] ==> Cut(s, sep).found
  {
    if s != [] && s[0] != sep {
      CutFound(s[1..], sep);
    }
  }

  lemma CanonicalIsString(raw: Octets)
    requires Parse(raw).Some? && CanonicallySpelled(raw)
    ensures raw == String(Parse(raw).value)
  {
    AcceptedScheme(raw);
    var rest := raw[5..];
    assert QUERY !in rest by {
      assert forall b :: b in rest ==> b in raw;
    }
    AcceptedHierarchy(rest);
    assert rest[2..] == raw[7..];
    assert Printable(raw[7..]) by {
      assert forall b :: b in raw[7..] ==> b in raw;
    }
    CanonicalTail(raw[7..]);
    Reassembled(raw, Parse(raw).value);
  }

  lemma Reassembled(raw: Octets, id: Id)
    requires |raw| >= 7 && raw[..4] == SCHEME_NAME && raw[4] == COLON
    requires raw[5..][..2] == [SLASH, SLASH] && raw[7..] == Tail(id)
    ensures raw == String(id)
  {
    assert raw[5..] == [SLASH, SLASH] + raw[7..];
    assert Hierarchy(id) == [SLASH, SLASH] + Tail(id);
    assert raw == raw[..4] + ([raw[4]] + raw[5..]);
  }

  /**
   The exact condition under which an accepted spelling is the identifier's own: scheme and
   host in lower case, no colon or escape in the host, no query or fragment, and every octet
   of the local part kept or escaped as it must be.
   */
  lemma SpellingIsCanonicalExactly(raw: Octets)
    requires Parse(raw).Some?
    ensures raw == String(Parse(raw).value) <==> CanonicallySpelled(raw)
  {
    if CanonicallySpelled(raw) {
      CanonicalIsString(raw);
    }
    if raw == String(Parse(raw).value) {
      AcceptedIsValid(raw);
      StringIsCanonical(Parse(raw).value);
    }
  }

  // ------------------------------------------------------------------------ pair keys

  /** Go's order of strings. */
  predicate Less(x: Octets, y: Octets) {
    y != [] && (x == [] || x[0] < y[0] || (x[0] == y[0] && Less(x[1..], y[1..])))
  }

  lemma {:induction false} LessIsTotal(x: Octets, y: Octets)
    ensures !(Less(x, y) && Less(y, x)) && (Less(x, y) || Less(y, x) || x == y)
  {
    if x != [] && y != [] {
      LessIsTotal(x[1..], y[1..]);
      assert x == [x[0]] + x[1..] && y == [y[0]] + y[1..];
    }
  }

  /** What is hashed: both spellings, in order, length-prefixed. */
  function PairOctets(a: Id, b: Id): Octets {
    var x, y := String(a), String(b);
    if Less(y, x) then Field(y) + Field(x) else Field(x) + Field(y)
  }

  /** `H` is the hash followed by its textual encoding. */
  function PairKey(H: Hash, a: Id, b: Id): Octets {
    H(PairOctets(a, b))
  }

  lemma PairKeyIsSymmetric(H: Hash, a: Id, b: Id)
    ensures PairKey(H, a, b) == PairKey(H, b, a)
  {
    LessIsTotal(String(a), String(b));
  }

  /** Two pairs share what is hashed exactly when they are the same unordered pair. */
  lemma PairOctetsName(a: Id, b: Id, c: Id, d: Id)
    requires Valid(a) && Valid(b) && Valid(c) && Valid(d)
    requires GoSized(String(a)) && GoSized(String(b)) && GoSized(String(c)) && GoSized(String(d))
    ensures PairOctets(a, b) == PairOctets(c, d) <==> (a == c && b == d) || (a == d && b == c)
  {
    LessIsTotal(String(a), String(b));
    LessIsTotal(String(c), String(d));
    if PairOctets(a, b) == PairOctets(c, d) {
      var x, y := if Less(String(b), String(a)) then b else a, if Less(String(b), String(a)) then a else b;
      var z, w := if Less(String(d), String(c)) then d else c, if Less(String(d), String(c)) then c else d;
      ContentSplit(String(x), String(y), String(z), String(w));
      StringIsInjective(x, z);
      StringIsInjective(y, w);
    }
  }

  /** Unless the two hashed strings collide, a key belongs to one unordered pair. */
  lemma PairKeysNamePairs(H: Hash, a: Id, b: Id, c: Id, d: Id)
    requires Valid(a) && Valid(b) && Valid(c) && Valid(d)
    requires GoSized(String(a)) && GoSized(String(b)) && GoSized(String(c)) && GoSized(String(d))
    requires H(PairOctets(a, b)) == H(PairOctets(c, d)) ==> PairOctets(a, b) == PairOctets(c, d)
    ensures PairKey(H, a, b) == PairKey(H, c, d) <==> (a == c && b == d) || (a == d && b == c)
  {
    PairOctetsName(a, b, c, d);
  }

  // ------------------------------------------------------------------------- the code

  method IsValidDomain(d: Octets) returns (ok: bool)
    ensures ok <==> ValidDomain(d)
  {
    if d == [] || |d| > 253 {
      return false;
    }
    var labels := Split(d, DOT);
    for i := 0 to |labels|
      invariant forall k :: 0 <= k < i ==> ValidLabel(labels[k])
    {
      var l := labels[i];
      if l == [] || |l| > 63 || l[0] == DASH || l[|l| - 1] == DASH {
        assert !ValidLabel(labels[i]);
        return false;
      }
      for j := 0 to |l|
        invariant forall k :: 0 <= k < j ==> LabelByte(l[k])
      {
        if !LabelByte(l[j]) {
          assert !ValidLabel(labels[i]);
          return false;
        }
      }
      assert ValidLabel(labels[i]);
    }
    return DOT in d;
  }

  /** The first separator, as `strings.Cut` finds it. */
  method CutFirst(s: Octets, sep: byte) returns (r: Cutting)
    ensures r == Cut(s, sep)
  {
    for i := 0 to |s|
      invariant sep !in s[..i]
    {
      if s[i] == sep {
        assert s == s[..i] + ([sep] + s[i + 1..]);
        CutAt(s[..i], sep, s[i + 1..]);
        return Cutting(s[..i], s[i + 1..], true);
      }
    }
    assert s[..|s|] == s;
    CutNone(s, sep);
    return Cutting(s, [], false);
  }

  lemma {:induction false} CutLastAt(a: Octets, sep: byte, b: Octets)
    requires sep !in b
    ensures CutLast(a + [sep] + b, sep) == Cutting(a, b, true)
  {
    var s := a + [sep] + b;
    if b == [] {
      assert s[..|s| - 1] == a;
    } else {
      var n := |b| - 1;
      assert s[..|s| - 1] == a + [sep] + b[..n];
      CutLastAt(a, sep, b[..n]);
      assert b == b[..n] + [b[n]];
    }
  }

  method CutAtLast(s: Octets, sep: byte) returns (r: Cutting)
    ensures r == CutLast(s, sep)
  {
    var i := |s|;
    while i > 0
      invariant 0 <= i <= |s| && sep !in s[i..]
    {
      i := i - 1;
      if s[i] == sep {
        assert s == s[..i] + [sep] + s[i + 1..];
        CutLastAt(s[..i], sep, s[i + 1..]);
        return Cutting(s[..i], s[i + 1..], true);
      }
    }
    CutLastNone(s, sep);
    return Cutting(s, [], false);
  }

  function Extend(a: Octets, r: Option<Octets>): Option<Octets> {
    if r.Some? then Some(a + r.value) else None
  }

  lemma ExtendTwice(a: Octets, b: byte, r: Option<Octets>)
    ensures Extend(a, Prepend(b, r)) == Extend(a + [b], r)
  {
    if r.Some? {
      assert a + ([b] + r.value) == a + [b] + r.value;
    }
  }

  lemma ExtendNothing(s: Octets, r: Option<Octets>)
    ensures Extend([], r) == r && Extend(s, Some([])) == Some(s)
  {
    if r.Some? {
      assert [] + r.value == r.value;
    }
    assert s + [] == s;
  }

  /** `unescape`, in its host and its path mode. */
  method DecodeOctets(host: bool, s: Octets) returns (r: Option<Octets>)
    ensures r == Decode(host, s)
  {
    var i := 0;
    var out: Octets := [];
    assert s[0..] == s;
    ExtendNothing([], Decode(host, s));
    while i < |s|
      invariant 0 <= i <= |s| && Decode(host, s) == Extend(out, Decode(host, s[i..]))
      decreases |s| - i
    {
      ghost var t := s[i..];
      if s[i] != PERCENT {
        assert t[1..] == s[i + 1..];
        ExtendTwice(out, s[i], Decode(host, t[1..]));
        out, i := out + [s[i]], i + 1;
      } else {
        if i + 2 >= |s| || Unhex(s[i + 1]).None? || Unhex(s[i + 2]).None? {
          return None;
        }
        var high, low := Unhex(s[i + 1]).value, Unhex(s[i + 2]).value;
        assert t[1..3] == [s[i + 1], s[i + 2]];
        if host && high < 8 && !(s[i + 1] == 50 && s[i + 2] == 53) {
          return None;
        }
        assert t[3..] == s[i + 3..];
        ExtendTwice(out, high * 16 + low, Decode(host, t[3..]));
        out, i := out + [high * 16 + low], i + 3;
      }
    }
    ExtendNothing(out, None);
    r := Some(out);
  }

  /** `strings.TrimSpace`. */
  method TrimSpace(s: Octets) returns (t: Octets)
    ensures t == TrimRight(TrimLeft(s))
  {
    t := s;
    while SpaceWidth(t) > 0
      invariant TrimLeft(t) == TrimLeft(s)
      decreases |t|
    {
      t := t[SpaceWidth(t)..];
    }
    ghost var u := t;
    while LastSpaceWidth(t) > 0
      invariant TrimRight(t) == TrimRight(u)
      decreases |t|
    {
      t := t[..|t| - LastSpaceWidth(t)];
    }
  }

  /** `strings.ToLower`, character by character. */
  method LowerOctets(s: Octets) returns (r: Octets)
    ensures r == Lower(s)
  {
    r := [];
    var t := s;
    while t != []
      invariant Lower(s) == r + Lower(t)
      decreases |t|
    {
      var (c, w) := LowerFirst(t);
      assert r + (c + Lower(t[w..])) == r + c + Lower(t[w..]);
      r, t := r + c, t[w..];
    }
    assert r + [] == r;
  }

  method EscapeOctets(keeps: byte -> bool, s: Octets) returns (r: Octets)
    ensures r == Escape(keeps, s)
  {
    r := [];
    for i := 0 to |s|
      invariant Escape(keeps, s) == r + Escape(keeps, s[i..])
    {
      var e := if keeps(s[i]) then [s[i]] else Escaped(s[i]);
      assert s[i..][1..] == s[i + 1..];
      assert r + (e + Escape(keeps, s[i + 1..])) == r + e + Escape(keeps, s[i + 1..]);
      r := r + e;
    }
    assert r + [] == r;
  }

  /** `EscapedPath`: the path as it was, if it may stand so, or else escaped anew. */
  method EscapedPath(path: Octets, decoded: Octets) returns (r: Octets)
    ensures r == if Allowed(path) then path else Escape(PathKeeps, decoded)
  {
    for i := 0 to |path|
      invariant forall k :: 0 <= k < i ==> PathAllows(path[k])
    {
      if !PathAllows(path[i]) {
        assert path[i] in path;
        r := EscapeOctets(PathKeeps, decoded);
        return;
      }
    }
    r := path;
  }

  /** Kind and local part of an escaped path. */
  method PathIdentifier(domain: Octets, escaped: Octets) returns (r: Option<Id>)
    ensures r == ParsePath(domain, escaped)
  {
    var rest := escaped;
    if rest != [] && rest[0] == SLASH {
      rest := rest[1..];
    }
    var k := CutFirst(rest, SLASH);
    if !k.found {
      return None;
    }
    var kind := KindOf(k.before);
    if kind.None? || SLASH in k.after {
      return None;
    }
    var local := DecodeOctets(false, k.after);
    if local.None? || local.value == [] {
      return None;
    }
    r := Some(Id(domain, kind.value, local.value));
  }

  method PartsIdentifier(authority: Octets, path: Octets) returns (r: Option<Id>)
    ensures r == ParseParts(authority, path)
  {
    var h := CutAtLast(authority, COLON);
    if AT in authority || (h.found && h.after != []) {
      return None;
    }
    var host := DecodeOctets(true, h.before);
    if host.None? {
      return None;
    }
    var trimmed := TrimSpace(host.value);
    var domain := LowerOctets(trimmed);
    var valid := IsValidDomain(domain);
    if !valid {
      return None;
    }
    var decoded := DecodeOctets(false, path);
    if decoded.None? {
      return None;
    }
    var escaped := EscapedPath(path, decoded.value);
    r := PathIdentifier(domain, escaped);
  }

  method HierarchyIdentifier(rest: Octets) returns (r: Option<Id>)
    ensures r == ParseHierarchy(rest)
  {
    var q := CutFirst(rest, QUERY);
    if q.after != [] || |q.before| < 2 || q.before[..2] != [SLASH, SLASH] {
      return None;
    }
    var a := CutFirst(q.before[2..], SLASH);
    r := PartsIdentifier(a.before, if a.found then [SLASH] + a.after else []);
  }

  /** `Parse`, with the steps `net/url` takes written out. */
  method ParseIdentifier(raw: Octets) returns (r: Option<Id>)
    ensures r == Parse(raw)
  {
    for i := 0 to |raw|
      invariant forall k :: 0 <= k < i ==> 0x20 < raw[k] < 0x7f
    {
      if raw[i] <= 0x20 || raw[i] >= 0x7f {
        assert raw[i] in raw && !Printable(raw);
        return None;
      }
    }
    assert Printable(raw);
    var f := CutFirst(raw, HASH);
    if f.after != [] || |f.before| < 5 {
      return None;
    }
    var scheme := LowerOctets(f.before[..4]);
    if scheme != SCHEME_NAME || f.before[4] != COLON {
      return None;
    }
    r := HierarchyIdentifier(f.before[5..]);
  }

  /** Swap into order, then feed both to the hasher as length-prefixed fields. */
  method ComputePairKey(H: Hash, a: Id, b: Id) returns (key: Octets)
    ensures key == PairKey(H, a, b)
  {
    var x, y := String(a), String(b);
    if Less(y, x) {
      x, y := y, x;
    }
    var h := new Sha256(H);
    var parts := [x, y];
    ghost var fed := [[], Field(x), Field(x) + Field(y)];
    for i := 0 to 2
      invariant h.H == H && h.fed == fed[i]
    {
      h.WriteField(parts[i]);
    }
    key := h.Sum();
  }
}
