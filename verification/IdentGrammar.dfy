/**
 What the parser of identifiers accepts, written down as a grammar and independently of the
 steps it takes: every accepted spelling has this form, and every spelling of this form is
 accepted as the identifier it spells.
 */
module IdentGrammar {
  import opened Bytes
  import opened Ident

  // ------------------------------------------------------------------ percent-encoding

  /** The octet is the hexadecimal digit of the value, in either case. */
  predicate DigitOf(c: byte, v: nat) {
    if v < 10 then c == 48 + v else v < 16 && (c == 97 + (v - 10) || c == 65 + (v - 10))
  }

  /**
   `s` spells the octets `d`: each as itself, unless it is a percent sign, or as an escape.
   In a host, only octets beyond ASCII and the percent sign may be escaped.
   */
  ghost predicate Spelled(host: bool, s: Octets, d: Octets)
    decreases |d|
  {
    if d == [] then s == []
    else
      || (s != [] && s[0] == d[0] != 37 && Spelled(host, s[1..], d[1..]))
      || (&& |s| >= 3 && s[0] == 37 && DigitOf(s[1], d[0] / 16) && DigitOf(s[2], d[0] % 16)
          && (host ==> d[0] >= 128 || d[0] == 37) && Spelled(host, s[3..], d[1..]))
  }

  lemma DigitExactly(c: byte, v: nat)
    ensures DigitOf(c, v) <==> Unhex(c) == Some(v)
  {
  }

  /** Decoding inverts that relation, and refuses whatever spells nothing. */
  lemma {:induction false} DecodeExactly(host: bool, s: Octets, d: Octets)
    ensures Decode(host, s) == Some(d) <==> Spelled(host, s, d)
    decreases |s|
  {
    if s == [] {
    } else if s[0] != PERCENT {
      if d != [] {
        DecodeExactly(host, s[1..], d[1..]);
        assert d == [d[0]] + d[1..];
      }
    } else if |s| >= 3 && Unhex(s[1]).Some? && Unhex(s[2]).Some? {
      EscapeExactly(host, s, d);
    } else if d != [] {
      if |s| >= 3 {
        DigitExactly(s[1], d[0] / 16);
        DigitExactly(s[2], d[0] % 16);
      }
    }
  }

  lemma EscapeExactly(host: bool, s: Octets, d: Octets)
    requires |s| >= 3 && s[0] == PERCENT && Unhex(s[1]).Some? && Unhex(s[2]).Some?
    ensures Decode(host, s) == Some(d) <==> Spelled(host, s, d)
    decreases |s|, 0
  {
    HostEscapeExactly(s);
    if d != [] {
      DecodeExactly(host, s[3..], d[1..]);
      DigitsExactly(s[1], s[2], d[0]);
      assert d == [d[0]] + d[1..];
    }
  }

  lemma DigitsExactly(x: byte, y: byte, b: byte)
    requires Unhex(x).Some? && Unhex(y).Some?
    ensures DigitOf(x, b / 16) && DigitOf(y, b % 16) <==> b == Unhex(x).value * 16 + Unhex(y).value
  {
    DigitExactly(x, b / 16);
    DigitExactly(y, b % 16);
    Nibbles(Unhex(x).value, Unhex(y).value, b);
  }

  lemma Nibbles(u: nat, v: nat, b: byte)
    requires u < 16 && v < 16
    ensures b / 16 == u && b % 16 == v <==> b == u * 16 + v
  {
  }

  lemma HostEscapeExactly(s: Octets)
    requires |s| >= 3 && Unhex(s[1]).Some? && Unhex(s[2]).Some?
    ensures var b := Unhex(s[1]).value * 16 + Unhex(s[2]).value; HostEscape(s) <==> b >= 128 || b == 37
  {
  }

  predicate Alphanumeric(b: byte) {
    48 <= b <= 57 || 65 <= b <= 90 || 97 <= b <= 122
  }

  /**
   Besides letters and digits a segment keeps $ & + - . : = @ _ ~ and a path , / ; as well; in
   a path that is already encoded ! % ' ( ) * [ ] may stand too.
   */
  lemma SignsOfPaths(b: byte)
    ensures SegmentKeeps(b) <==> Alphanumeric(b) || b in {36, 38, 43, 45, 46, 58, 61, 64, 95, 126}
    ensures PathKeeps(b) <==> SegmentKeeps(b) || b in {44, 47, 59}
    ensures PathAllows(b) <==> PathKeeps(b) || b in {33, 37, 39, 40, 41, 42, 91, 93}
  {
  }

  // ------------------------------------------------------------------- white space, case

  /** A code point in UTF-8, up to three octets. */
  function Utf8(c: nat): Octets
    requires c < 0x1_0000
  {
    if c < 0x80 then [c]
    else if c < 0x800 then [0xC0 + c / 64, 0x80 + c % 64]
    else [0xE0 + c / 4096, 0x80 + c / 64 % 64, 0x80 + c % 64]
  }

  /** Unicode white space beyond ASCII. */
  predicate IsSpace(c: nat) {
    c == 0x85 || c == 0xA0 || c == 0x1680 || 0x2000 <= c <= 0x200A || c in {0x2028, 0x2029, 0x202F, 0x205F, 0x3000}
  }

  /** What is trimmed off a host is that, and the letters with an ASCII lower case are the Kelvin sign and dotted I. */
  lemma TrimmedIsWhiteSpace(c: nat)
    requires c < 0x1_0000
    ensures WideSpace(Utf8(c)) <==> IsSpace(c)
    ensures KELVIN == Utf8(0x212A) && DOTTED_I == Utf8(0x130)
  {
    var u := Utf8(c);
    if c < 0x80 {
    } else if c < 0x800 {
      assert c == (u[0] as int - 0xC0) * 64 + (u[1] as int - 0x80);
    } else {
      assert c / 64 / 64 == c / 4096;
      assert c == (u[0] as int - 0xE0) * 4096 + (u[1] as int - 0x80) * 64 + (u[2] as int - 0x80);
      assert u[..2] == [u[0], u[1]] && u == [u[0], u[1], u[2]];
    }
  }

  ghost predicate SpaceIs(c: Octets) {
    exists u: nat :: u < 0x1_0000 && IsSpace(u) && c == Utf8(u)
  }

  /** What is trimmed off either end, as long as there is any, is the white-space character that stands there. */
  lemma TrimmedAtTheEnds(s: Octets, k: nat)
    requires k <= |s|
    ensures SpaceIs(s[..k]) <==> k > 0 && k == SpaceWidth(s)
    ensures SpaceIs(s[|s| - k..]) <==> k > 0 && k == LastSpaceWidth(s)
  {
    SpaceIsWide(s[..k]);
    SpaceIsWide(s[|s| - k..]);
    WidthAtStart(s, k);
    WidthAtEnd(s, k);
  }

  lemma WidthAtStart(s: Octets, k: nat)
    requires k <= |s|
    ensures WideSpace(s[..k]) <==> k > 0 && k == SpaceWidth(s)
  {
    if k == 3 {
      NotBothWide(s[..3]);
      assert s[..3][..2] == s[..2];
    } else if k == 2 {
    } else {
      WideIsTwoOrThree(s[..k]);
    }
  }

  lemma WidthAtEnd(s: Octets, k: nat)
    requires k <= |s|
    ensures WideSpace(s[|s| - k..]) <==> k > 0 && k == LastSpaceWidth(s)
  {
    if k == 3 {
      NotBothWide(s[|s| - 3..]);
      assert s[|s| - 3..][1..] == s[|s| - 2..];
    } else if k == 2 {
    } else {
      WideIsTwoOrThree(s[|s| - k..]);
    }
  }

  lemma WideIsTwoOrThree(c: Octets)
    ensures WideSpace(c) ==> |c| == 2 || |c| == 3
  {
  }

  lemma NotBothWide(c: Octets)
    requires |c| == 3
    ensures WideSpace(c) ==> !WideSpace(c[..2]) && !WideSpace(c[1..])
  {
    if WideSpace(c) {
      assert c[..2] == [c[0], c[1]] && c[1..] == [c[1], c[2]];
    }
  }

  lemma SpaceIsWide(c: Octets)
    ensures SpaceIs(c) <==> WideSpace(c)
  {
    if SpaceIs(c) {
      var u: nat :| u < 0x1_0000 && IsSpace(u) && c == Utf8(u);
      TrimmedIsWhiteSpace(u);
    }
    if WideSpace(c) {
      WideIsEncoded(c);
      TrimmedIsWhiteSpace(CodePoint(c));
    }
  }

  lemma WideIsEncoded(c: Octets)
    requires WideSpace(c)
    ensures CodePoint(c) < 0x1_0000 && Utf8(CodePoint(c)) == c
  {
    if |c| == 3 {
      assert c[..2] == [c[0], c[1]] && c == [c[0], c[1], c[2]];
      Encoded(c[0], c[1], c[2]);
    }
  }

  lemma Encoded(x: byte, y: byte, z: byte)
    requires 0xE1 <= x <= 0xE3 && 0x80 <= y < 0xC0 && 0x80 <= z < 0xC0
    ensures Utf8((x as int - 0xE0) * 4096 + (y as int - 0x80) * 64 + (z as int - 0x80)) == [x, y, z]
  {
    SixBits(x as int - 0xE0, y as int - 0x80, z as int - 0x80);
  }

  lemma SixBits(a: nat, b: nat, c: nat)
    requires b < 64 && c < 64
    ensures var n := a * 4096 + b * 64 + c; n / 4096 == a && n / 64 % 64 == b && n % 64 == c
  {
    var n := a * 4096 + b * 64 + c;
    assert n == (a * 64 + b) * 64 + c;
    assert n / 64 == a * 64 + b;
  }

  /** The code point of two or three octets of UTF-8. */
  function CodePoint(c: Octets): nat
    requires WideSpace(c)
  {
    if |c| == 2 then (c[0] as int - 0xC0) * 64 + (c[1] as int - 0x80)
    else
      assert |c| == 3 && c[..2] == [c[0], c[1]];
      (c[0] as int - 0xE0) * 4096 + (c[1] as int - 0x80) * 64 + (c[2] as int - 0x80)
  }

  lemma {:induction false} LowerIsPointwise(s: Octets)
    requires Ascii(s)
    ensures |Lower(s)| == |s|
    ensures forall i :: 0 <= i < |s| ==> Lower(s)[i] == if 65 <= s[i] <= 90 then s[i] + 32 else s[i]
  {
    if s != [] {
      assert s[0] in s && forall b :: b in s[1..] ==> b in s;
      assert LowerFirst(s) == ([if Upper(s[0]) then s[0] + 32 else s[0]], 1);
      LowerIsPointwise(s[1..]);
    }
  }

  /** A host without escapes names itself in lower case, octet by octet. */
  lemma PlainHostIsLowered(host: Octets)
    requires Ascii(host) && PERCENT !in host
    ensures HostName(host).Some? && |HostName(host).value| == |host|
    ensures forall i :: 0 <= i < |host| ==>
      HostName(host).value[i] == if 65 <= host[i] <= 90 then host[i] + 32 else host[i]
  {
    NothingToDecode(true, host);
    NothingToTrim(host);
    LowerIsPointwise(host);
  }

  // -------------------------------------------------------------------------- domains

  /** No dot among the 64 octets from `i` on. */
  predicate LongLabel(d: Octets, i: nat) {
    i + 64 <= |d| && forall j :: i <= j < i + 64 ==> d[j] != DOT
  }

  /** No two dots in a row, none at the ends, no dash at either side of a dot, no 64 octets without a dot. */
  ghost predicate WellDotted(d: Octets) {
    && d != [] && EndOfLabel(d[0]) && EndOfLabel(d[|d| - 1])
    && (forall i :: 0 <= i < |d| ==> d[i] == DOT || LabelByte(d[i]))
    && (forall i :: 0 < i < |d| - 1 && d[i] == DOT ==> EndOfLabel(d[i - 1]) && EndOfLabel(d[i + 1]))
    && (forall i: nat :: !LongLabel(d, i))
  }

  predicate EndOfLabel(b: byte) {
    b != DOT && b != DASH
  }

  lemma OneLabel(l: Octets)
    requires DOT !in l
    ensures ValidLabel(l) <==> WellDotted(l)
  {
    if ValidLabel(l) {
      assert forall i :: 0 <= i < |l| ==> l[i] in l;
    }
    if |l| >= 64 {
      assert LongLabel(l, 0);
    }
  }

  lemma FirstLabelAndRest(a: Octets, b: Octets)
    requires DOT !in a
    ensures WellDotted(a + ([DOT] + b)) <==> ValidLabel(a) && WellDotted(b)
  {
    OneLabel(a);
    if WellDotted(a + ([DOT] + b)) {
      LabelsApart(a, b);
    } else if WellDotted(a) && WellDotted(b) {
      LabelsTogether(a, b);
    }
  }

  lemma LongLabelInOne(a: Octets, b: Octets, i: nat)
    ensures LongLabel(a + ([DOT] + b), i) <==> LongLabel(a, i) || (i > |a| && LongLabel(b, i - |a| - 1))
  {
    var d := a + ([DOT] + b);
    assert d[|a|] == DOT && d[..|a|] == a && d[|a| + 1..] == b;
    if i > |a| && LongLabel(b, i - |a| - 1) {
      assert forall j :: i <= j < i + 64 ==> d[j] == b[j - |a| - 1];
    }
    if i > |a| && LongLabel(d, i) {
      assert forall j :: i - |a| - 1 <= j < i - |a| + 63 ==> b[j] == d[j + |a| + 1];
    }
  }

  lemma LabelsApart(a: Octets, b: Octets)
    requires DOT !in a && WellDotted(a + ([DOT] + b))
    ensures WellDotted(a) && WellDotted(b)
  {
    FirstApart(a, b);
    RestApart(a, b);
  }

  lemma FirstApart(a: Octets, b: Octets)
    requires DOT !in a && WellDotted(a + ([DOT] + b))
    ensures WellDotted(a)
  {
    var d, n := a + ([DOT] + b), |a|;
    assert d[n] == DOT && 0 < n < |d| - 1;
    assert forall i :: 0 <= i < n ==> d[i] == a[i];
    forall i: nat ensures !LongLabel(a, i) {
      LongLabelInOne(a, b, i);
    }
    assert d[n - 1] == a[n - 1];
  }

  lemma RestApart(a: Octets, b: Octets)
    requires DOT !in a && WellDotted(a + ([DOT] + b))
    ensures WellDotted(b)
  {
    var d, n := a + ([DOT] + b), |a|;
    assert d[n] == DOT && 0 < n < |d| - 1;
    forall i | 0 <= i < |b| ensures b[i] == d[n + 1 + i] && (b[i] == DOT || LabelByte(b[i])) {
    }
    forall i | 0 < i < |b| - 1 && b[i] == DOT ensures EndOfLabel(b[i - 1]) && EndOfLabel(b[i + 1]) {
      assert d[n + 1 + i] == DOT;
    }
    forall i: nat ensures !LongLabel(b, i) {
      LongLabelInOne(a, b, n + 1 + i);
    }
  }

  lemma LabelsTogether(a: Octets, b: Octets)
    requires DOT !in a && WellDotted(a) && WellDotted(b)
    ensures WellDotted(a + ([DOT] + b))
  {
    var d, n := a + ([DOT] + b), |a|;
    assert forall i :: 0 <= i < n ==> d[i] == a[i];
    assert forall i :: n < i < |d| ==> d[i] == b[i - n - 1];
    forall i: nat ensures !LongLabel(d, i) {
      LongLabelInOne(a, b, i);
    }
    forall i | 0 < i < |d| - 1 && d[i] == DOT ensures EndOfLabel(d[i - 1]) && EndOfLabel(d[i + 1]) {
      if i > n + 1 {
        assert b[i - n - 1] == DOT;
      }
    }
  }

  lemma {:induction false} LabelsAreWellDotted(d: Octets)
    ensures (forall l :: l in Split(d, DOT) ==> ValidLabel(l)) <==> WellDotted(d)
    decreases |d|
  {
    var c := Cut(d, DOT);
    CutConcat(d, DOT);
    CutBefore(d, DOT);
    if c.found {
      LabelsAreWellDotted(c.after);
      FirstLabelAndRest(c.before, c.after);
      assert Split(d, DOT)[0] == c.before && Split(d, DOT)[1..] == Split(c.after, DOT);
      assert forall l :: l in Split(d, DOT) <==> l == c.before || l in Split(c.after, DOT);
    } else {
      OneLabel(d);
      assert forall l :: l in Split(d, DOT) <==> l == d;
    }
  }

  lemma {:induction false} CutBefore(s: Octets, sep: byte)
    ensures sep !in Cut(s, sep).before && (!Cut(s, sep).found ==> sep !in s)
  {
    if s != [] && s[0] != sep {
      CutBefore(s[1..], sep);
      assert s == [s[0]] + s[1..];
    }
  }

  /** Domains by their octets alone: 1 to 253, at least one dot, and well dotted. */
  lemma ValidDomainExactly(d: Octets)
    ensures ValidDomain(d) <==> |d| <= 253 && DOT in d && WellDotted(d)
  {
    LabelsAreWellDotted(d);
  }

  // ------------------------------------------------------------------------ identifiers

  /** The path names kind and local part: as it stands, or, if it holds what a path may not, once decoded. */
  ghost predicate PathNames(path: Octets, k: IdKind, local: Octets) {
    && local != []
    && if Allowed(path)
       then exists l :: path == Behind(k, l) && SLASH !in l && Spelled(false, l, local)
       else SLASH !in local && Spelled(false, path, Behind(k, local))
  }

  function Behind(k: IdKind, rest: Octets): Octets {
    [SLASH] + ([Letter(k)] + ([SLASH] + rest))
  }

  ghost predicate HostNames(host: Octets, domain: Octets) {
    HostName(host) == Some(domain) && ValidDomain(domain)
  }

  /** The same letters, of which any may be in upper case. */
  predicate SameButCase(s: Octets, lower: Octets) {
    |s| == |lower| && forall i :: 0 <= i < |s| ==> s[i] == lower[i] || (65 <= s[i] <= 90 && s[i] + 32 == lower[i])
  }

  /** Nothing, or just this sign. */
  predicate EmptyOr(s: Octets, sign: byte) {
    s == [] || s == [sign]
  }

  /** authority ::= host [":"] */
  ghost predicate AuthorityOf(authority: Octets, host: Octets, port: Octets, domain: Octets) {
    authority == host + port && EmptyOr(port, COLON) && COLON !in host && AT !in host && HostNames(host, domain)
  }

  ghost predicate AuthorityNames(authority: Octets, domain: Octets) {
    exists host, port :: AuthorityOf(authority, host, port, domain)
  }

  /** hierarchy ::= "//" authority path ["?"], where the path starts with the next slash */
  ghost predicate HierarchyOf(rest: Octets, authority: Octets, path: Octets, query: Octets) {
    && rest == [SLASH, SLASH] + (authority + path) + query && EmptyOr(query, QUERY) && QUERY !in authority + path
    && SLASH !in authority && path != [] && path[0] == SLASH
  }

  ghost predicate HierarchyNames(rest: Octets, id: Id) {
    exists authority, path, query :: HierarchyOf(rest, authority, path, query)
      && AuthorityNames(authority, id.domain) && PathNames(path, id.kind, id.local)
  }

  /** identifier ::= scheme ":" hierarchy ["#"] */
  ghost predicate SpellingOf(raw: Octets, scheme: Octets, rest: Octets, fragment: Octets) {
    && raw == scheme + ([COLON] + rest) + fragment && EmptyOr(fragment, HASH) && HASH !in rest
    && SameButCase(scheme, SCHEME_NAME)
  }

  /** `raw` is a spelling of `id` by that grammar, in printable ASCII. */
  ghost predicate Spells(raw: Octets, id: Id) {
    Printable(raw) && exists scheme, rest, fragment :: SpellingOf(raw, scheme, rest, fragment) && HierarchyNames(rest, id)
  }

  // --------------------------------------------------------------------- paths, both ways

  lemma {:induction false} SlashesSurvive(s: Octets)
    ensures SLASH in Escape(PathKeeps, s) <==> SLASH in s
  {
    if s != [] {
      SlashesSurvive(s[1..]);
      assert s == [s[0]] + s[1..];
      assert SLASH !in Escaped(s[0]);
    }
  }

  lemma EscapeOne(b: byte, s: Octets)
    ensures Escape(PathKeeps, [b] + s) == (if PathKeeps(b) then [b] else Escaped(b)) + Escape(PathKeeps, s)
  {
    Uncons(b, s);
  }

  lemma EscapeBehind(k: IdKind, local: Octets)
    ensures Escape(PathKeeps, Behind(k, local)) == Behind(k, Escape(PathKeeps, local))
  {
    EscapeOne(SLASH, [Letter(k)] + ([SLASH] + local));
    EscapeOne(Letter(k), [SLASH] + local);
    EscapeOne(SLASH, local);
  }

  ghost predicate HasSegments(path: Octets, k: IdKind, local: Octets) {
    exists l :: path == Behind(k, l) && SLASH !in l && Unescape(l) == Some(local)
  }

  /** What the last step makes of a path: kind and local part exactly if it has two segments and decodes. */
  lemma TwoSegments(domain: Octets, path: Octets, id: Id)
    requires path == [] || path[0] == SLASH
    ensures ParsePath(domain, path) == Some(id)
       <==> id.domain == domain && id.local != [] && HasSegments(path, id.kind, id.local)
  {
    if ParsePath(domain, path) == Some(id) {
      SegmentsBack(domain, path, id);
    }
    if HasSegments(path, id.kind, id.local) {
      var l :| path == Behind(id.kind, l) && SLASH !in l && Unescape(l) == Some(id.local);
      PathToId(domain, id.kind, l);
    }
  }

  lemma SegmentsBack(domain: Octets, path: Octets, id: Id)
    requires (path == [] || path[0] == SLASH) && ParsePath(domain, path) == Some(id)
    ensures id.domain == domain && id.local != [] && HasSegments(path, id.kind, id.local)
  {
    var k := Cut(path[1..], SLASH);
    CutConcat(path[1..], SLASH);
    KindLetter(k.before);
    assert path == [SLASH] + path[1..];
    assert path == Behind(id.kind, k.after);
  }

  lemma KindLetter(s: Octets)
    requires KindOf(s).Some?
    ensures s == [Letter(KindOf(s).value)]
  {
  }

  /** The path of an accepted spelling, as it stands if it may, or escaped anew from what it decodes to. */
  lemma PathExactly(domain: Octets, path: Octets, id: Id)
    requires path == [] || path[0] == SLASH
    ensures (Unescape(path).Some?
             && ParsePath(domain, if Allowed(path) then path else Escape(PathKeeps, Unescape(path).value)) == Some(id))
       <==> id.domain == domain && PathNames(path, id.kind, id.local)
  {
    if Allowed(path) {
      TwoSegments(domain, path, id);
      AllowedPath(path, id.kind, id.local);
    } else {
      OtherPath(domain, path, id);
    }
  }

  lemma AllowedPath(path: Octets, k: IdKind, local: Octets)
    requires Allowed(path)
    ensures HasSegments(path, k, local) <==> exists l :: path == Behind(k, l) && SLASH !in l && Spelled(false, l, local)
    ensures HasSegments(path, k, local) ==> Unescape(path).Some?
  {
    forall l ensures Unescape(l) == Some(local) <==> Spelled(false, l, local) {
      DecodeExactly(false, l, local);
    }
    if l :| path == Behind(k, l) && SLASH !in l && Unescape(l) == Some(local) {
      UnescapePlain(SLASH, l);
      UnescapePlain(Letter(k), [SLASH] + l);
      UnescapePlain(SLASH, [Letter(k)] + ([SLASH] + l));
    }
  }

  lemma OtherPath(domain: Octets, path: Octets, id: Id)
    requires path != [] && path[0] == SLASH && !Allowed(path)
    ensures (Unescape(path).Some? && ParsePath(domain, Escape(PathKeeps, Unescape(path).value)) == Some(id))
       <==> id.domain == domain && id.local != [] && SLASH !in id.local
            && Spelled(false, path, Behind(id.kind, id.local))
  {
    DecodeExactly(false, path, Behind(id.kind, id.local));
    if Unescape(path).Some? {
      var p := Unescape(path).value;
      assert p != [] && p[0] == SLASH;
      EscapedPathNames(domain, p, id);
    }
  }

  lemma EscapedPathNames(domain: Octets, p: Octets, id: Id)
    requires p != [] && p[0] == SLASH
    ensures ParsePath(domain, Escape(PathKeeps, p)) == Some(id)
       <==> id.domain == domain && id.local != [] && SLASH !in id.local && p == Behind(id.kind, id.local)
  {
    assert p == [SLASH] + p[1..];
    EscapeOne(SLASH, p[1..]);
    TwoSegments(domain, Escape(PathKeeps, p), id);
    if id.local != [] && SLASH !in id.local && p == Behind(id.kind, id.local) {
      EscapedSegments(id.kind, id.local);
    }
    if HasSegments(Escape(PathKeeps, p), id.kind, id.local) {
      var l :| Escape(PathKeeps, p) == Behind(id.kind, l) && SLASH !in l && Unescape(l) == Some(id.local);
      EscapedAnew(p, id.kind, l);
      SlashesSurvive(id.local);
    }
  }

  lemma EscapedSegments(k: IdKind, local: Octets)
    requires SLASH !in local
    ensures HasSegments(Escape(PathKeeps, Behind(k, local)), k, local)
  {
    EscapeBehind(k, local);
    SlashesSurvive(local);
    EscapeRoundTrip(PathKeeps, local);
  }

  /** Only the path behind which the segments stand escapes to it. */
  lemma EscapedAnew(p: Octets, k: IdKind, l: Octets)
    requires Escape(PathKeeps, p) == Behind(k, l) && Unescape(l).Some?
    ensures p == Behind(k, Unescape(l).value) && l == Escape(PathKeeps, Unescape(l).value)
  {
    EscapeRoundTrip(PathKeeps, p);
    UnescapeBehind(k, l);
    EscapeBehind(k, Unescape(l).value);
    assert Behind(k, l)[3..] == l && Behind(k, Escape(PathKeeps, Unescape(l).value))[3..] == Escape(PathKeeps, Unescape(l).value);
  }

  lemma UnescapeBehind(k: IdKind, l: Octets)
    requires Unescape(l).Some?
    ensures Unescape(Behind(k, l)) == Some(Behind(k, Unescape(l).value))
  {
    UnescapeOne(SLASH, l);
    UnescapeOne(Letter(k), [SLASH] + l);
    UnescapeOne(SLASH, [Letter(k)] + ([SLASH] + l));
  }

  lemma UnescapeOne(b: byte, s: Octets)
    requires b != PERCENT
    ensures Unescape([b] + s) == Prepend(b, Unescape(s))
  {
    Uncons(b, s);
  }

  // --------------------------------------------------------------------- hosts, both ways

  /** An octet that decoding, trimming and lower-casing leave alone is still there afterwards. */
  predicate Inert(b: byte) {
    b < 128 && !(65 <= b <= 90) && b != PERCENT && Unhex(b).None?
  }

  lemma {:induction false} DecodeKeeps(s: Octets, b: byte)
    requires Inert(b) && b in s && Decode(true, s).Some?
    ensures b in Decode(true, s).value
  {
    if s[0] != PERCENT {
      if s[0] != b {
        DecodeKeeps(s[1..], b);
      }
    } else {
      assert s == [s[0], s[1], s[2]] + s[3..];
      DecodeKeeps(s[3..], b);
    }
  }

  lemma SpaceIsHigh(c: Octets)
    requires WideSpace(c)
    ensures forall x :: x in c ==> x >= 128
  {
    if |c| == 3 {
      assert c == c[..2] + [c[2]];
    }
  }

  lemma {:induction false} TrimLeftKeeps(s: Octets, b: byte)
    requires Inert(b) && b in s
    ensures b in TrimLeft(s)
  {
    var w := SpaceWidth(s);
    if w > 0 {
      assert s == s[..w] + s[w..];
      SpaceIsHigh(s[..w]);
      TrimLeftKeeps(s[w..], b);
    }
  }

  lemma {:induction false} TrimRightKeeps(s: Octets, b: byte)
    requires Inert(b) && b in s
    ensures b in TrimRight(s)
  {
    var w := LastSpaceWidth(s);
    if w > 0 {
      assert s == s[..|s| - w] + s[|s| - w..];
      SpaceIsHigh(s[|s| - w..]);
      TrimRightKeeps(s[..|s| - w], b);
    }
  }

  lemma {:induction false} LowerKeeps(s: Octets, b: byte)
    requires Inert(b) && b in s
    ensures b in Lower(s)
  {
    var (c, w) := LowerFirst(s);
    assert s == s[..w] + s[w..];
    if b !in s[w..] {
      assert b in s[..w];
      assert w == 1 && c == [s[0]] && s[0] == b;
    } else {
      LowerKeeps(s[w..], b);
    }
  }

  lemma HostNameKeeps(host: Octets, b: byte)
    requires Inert(b) && b in host && HostName(host).Some?
    ensures b in HostName(host).value
  {
    var d := Decode(true, host).value;
    DecodeKeeps(host, b);
    TrimLeftKeeps(d, b);
    TrimRightKeeps(TrimLeft(d), b);
    LowerKeeps(TrimRight(TrimLeft(d)), b);
  }

  /** A host that names a domain holds no colon of its own. */
  lemma NamingHostHasNoColon(host: Octets, domain: Octets)
    requires HostNames(host, domain)
    ensures COLON !in host
  {
    SplitBytes(domain);
    if COLON in host {
      HostNameKeeps(host, COLON);
      assert false;
    }
  }

  lemma {:induction false} CutLastConcat(s: Octets, sep: byte)
    ensures var r := CutLast(s, sep); s == if r.found then r.before + ([sep] + r.after) else r.before
  {
    if s != [] {
      var n := |s| - 1;
      assert s == s[..n] + [s[n]];
      if s[n] != sep {
        CutLastConcat(s[..n], sep);
        var r := CutLast(s[..n], sep);
        Regroup3(r.before, sep, r.after, s[n]);
      }
    }
  }

  lemma Regroup3(a: Octets, sep: byte, b: Octets, c: byte)
    ensures (a + ([sep] + b)) + [c] == a + ([sep] + (b + [c]))
  {
  }

  /** Authority and path name the identifier exactly if host and path do, with at most an empty port. */
  lemma PartsExactly(authority: Octets, path: Octets, id: Id)
    requires path == [] || path[0] == SLASH
    ensures ParseParts(authority, path) == Some(id)
       <==> AuthorityNames(authority, id.domain) && PathNames(path, id.kind, id.local)
  {
    PathExactly(id.domain, path, id);
    if ParseParts(authority, path) == Some(id) {
      PartsBack(authority, path, id);
    }
    if AuthorityNames(authority, id.domain) {
      var host, port :| AuthorityOf(authority, host, port, id.domain);
      AuthorityCut(authority, host, port, id.domain);
    }
  }

  lemma AuthorityCut(authority: Octets, host: Octets, port: Octets, domain: Octets)
    requires AuthorityOf(authority, host, port, domain)
    ensures AT !in authority && CutLast(authority, COLON).before == host && CutLast(authority, COLON).after == []
  {
    if port == [] {
      assert authority == host;
      CutLastNone(host, COLON);
    } else {
      assert authority == host + [COLON] + [];
      CutLastAt(host, COLON, []);
    }
  }

  lemma AcceptedParts(authority: Octets, path: Octets, id: Id)
    requires ParseParts(authority, path) == Some(id)
    ensures var host := CutLast(authority, COLON).before;
      && AT !in authority && (CutLast(authority, COLON).found ==> CutLast(authority, COLON).after == [])
      && HostName(host).Some? && ValidDomain(HostName(host).value) && Unescape(path).Some?
      && ParsePath(HostName(host).value, if Allowed(path) then path else Escape(PathKeeps, Unescape(path).value)) == Some(id)
  {
  }

  lemma PortCut(authority: Octets) returns (port: Octets)
    requires CutLast(authority, COLON).found ==> CutLast(authority, COLON).after == []
    ensures authority == CutLast(authority, COLON).before + port && EmptyOr(port, COLON)
  {
    CutLastConcat(authority, COLON);
    port := if CutLast(authority, COLON).found then [COLON] else [];
    assert [COLON] + [] == [COLON];
  }

  lemma PartsBack(authority: Octets, path: Octets, id: Id)
    requires ParseParts(authority, path) == Some(id) && (path == [] || path[0] == SLASH)
    ensures AuthorityNames(authority, id.domain) && PathNames(path, id.kind, id.local)
  {
    AcceptedParts(authority, path, id);
    var host := CutLast(authority, COLON).before;
    var port := PortCut(authority);
    PathExactly(HostName(host).value, path, id);
    AuthorityBack(authority, host, port, id.domain);
  }

  lemma AuthorityBack(authority: Octets, host: Octets, port: Octets, domain: Octets)
    requires authority == host + port && EmptyOr(port, COLON) && AT !in authority && HostNames(host, domain)
    ensures AuthorityNames(authority, domain)
  {
    NamingHostHasNoColon(host, domain);
    assert AuthorityOf(authority, host, port, domain);
  }

  // ------------------------------------------------------------------ the whole spelling

  lemma LowerExactly(s: Octets, lower: Octets)
    requires Ascii(s) && forall i :: 0 <= i < |lower| ==> 97 <= lower[i] <= 122
    ensures Lower(s) == lower <==> SameButCase(s, lower)
  {
    LowerIsPointwise(s);
    if SameButCase(s, lower) {
      assert Lower(s) == lower;
    }
  }

  lemma CutHere(a: Octets, sep: byte, tail: Octets)
    requires sep !in a && EmptyOr(tail, sep)
    ensures Cut(a + tail, sep).before == a && Cut(a + tail, sep).after == []
  {
    CutTail(a, sep, tail);
  }

  /** What stands before the separator, if nothing but the separator follows. */
  lemma CutBack(s: Octets, sep: byte) returns (tail: Octets)
    requires Cut(s, sep).after == []
    ensures s == Cut(s, sep).before + tail && sep !in Cut(s, sep).before && EmptyOr(tail, sep)
  {
    CutConcat(s, sep);
    CutBefore(s, sep);
    tail := if Cut(s, sep).found then [sep] else [];
    assert [sep] + [] == [sep] && Cut(s, sep).before + [] == Cut(s, sep).before;
  }

  lemma HierarchyIsParsed(rest: Octets, authority: Octets, path: Octets, query: Octets)
    requires HierarchyOf(rest, authority, path, query)
    ensures ParseHierarchy(rest) == ParseParts(authority, path)
  {
    var body := [SLASH, SLASH] + (authority + path);
    CutHere(body, QUERY, query);
    assert path == [SLASH] + path[1..];
    assert body[..2] == [SLASH, SLASH] && body[2..] == authority + ([SLASH] + path[1..]);
    CutAt(authority, SLASH, path[1..]);
  }

  lemma AcceptedBody(rest: Octets)
    requires ParseHierarchy(rest).Some?
    ensures var body := Cut(rest, QUERY).before;
      && Cut(rest, QUERY).after == [] && |body| >= 2 && body[..2] == [SLASH, SLASH]
      && ParseHierarchy(rest) == ParseParts(Cut(body[2..], SLASH).before, PathOf(Cut(body[2..], SLASH)))
  {
  }

  function PathOf(a: Cutting): Octets {
    if a.found then [SLASH] + a.after else []
  }

  lemma BodyIsCut(body: Octets)
    ensures var a := Cut(body, SLASH); body == a.before + PathOf(a) && SLASH !in a.before
  {
    CutConcat(body, SLASH);
    CutBefore(body, SLASH);
    assert Cut(body, SLASH).before + [] == Cut(body, SLASH).before;
  }

  /** The path the hierarchy is cut at, and the query it may end in. */
  lemma HierarchyIsCut(rest: Octets) returns (authority: Octets, path: Octets, query: Octets)
    requires ParseHierarchy(rest).Some?
    ensures ParseHierarchy(rest) == ParseParts(authority, path) && (path == [] || path[0] == SLASH)
    ensures rest == [SLASH, SLASH] + (authority + path) + query && EmptyOr(query, QUERY)
    ensures QUERY !in authority + path && SLASH !in authority
  {
    AcceptedBody(rest);
    query := CutBack(rest, QUERY);
    var body := Cut(rest, QUERY).before;
    BodyIsCut(body[2..]);
    authority, path := Cut(body[2..], SLASH).before, PathOf(Cut(body[2..], SLASH));
    TwoSlashesAndRest(body);
  }

  lemma TwoSlashesAndRest(body: Octets)
    requires |body| >= 2 && body[..2] == [SLASH, SLASH]
    ensures body == [SLASH, SLASH] + body[2..] && forall b :: b in body[2..] ==> b in body
  {
  }

  lemma HierarchyExactly(rest: Octets, id: Id)
    ensures ParseHierarchy(rest) == Some(id) <==> HierarchyNames(rest, id)
  {
    if ParseHierarchy(rest) == Some(id) {
      var authority, path, query := HierarchyIsCut(rest);
      PartsExactly(authority, path, id);
      PathIsThere(path, id.kind, id.local);
      assert HierarchyOf(rest, authority, path, query);
    }
    if HierarchyNames(rest, id) {
      var authority, path, query :| HierarchyOf(rest, authority, path, query)
        && AuthorityNames(authority, id.domain) && PathNames(path, id.kind, id.local);
      HierarchyIsParsed(rest, authority, path, query);
      PartsExactly(authority, path, id);
    }
  }

  lemma PathIsThere(path: Octets, k: IdKind, local: Octets)
    requires PathNames(path, k, local)
    ensures path != []
  {
  }

  lemma SpellingIsParsed(raw: Octets, scheme: Octets, rest: Octets, fragment: Octets)
    requires Printable(raw) && SpellingOf(raw, scheme, rest, fragment)
    ensures Parse(raw) == ParseHierarchy(rest)
  {
    FragmentIsCut(raw, scheme, rest, fragment);
    LowerExactly(scheme, SCHEME_NAME);
    ParseOfHead(raw, scheme, rest);
  }

  lemma FragmentIsCut(raw: Octets, scheme: Octets, rest: Octets, fragment: Octets)
    requires Printable(raw) && SpellingOf(raw, scheme, rest, fragment)
    ensures Ascii(scheme) && Cut(raw, HASH).before == scheme + ([COLON] + rest) && Cut(raw, HASH).after == []
  {
    assert forall b :: b in scheme ==> b in raw;
    assert HASH !in scheme;
    CutHere(scheme + ([COLON] + rest), HASH, fragment);
  }

  lemma ParseOfHead(raw: Octets, scheme: Octets, rest: Octets)
    requires Printable(raw) && |scheme| == 4 && Lower(scheme) == SCHEME_NAME
    requires Cut(raw, HASH).before == scheme + ([COLON] + rest) && Cut(raw, HASH).after == []
    ensures Parse(raw) == ParseHierarchy(rest)
  {
    var head := scheme + ([COLON] + rest);
    assert head[..4] == scheme && head[4] == COLON && head[5..] == rest;
  }

  lemma SpellingIsCut(raw: Octets) returns (scheme: Octets, rest: Octets, fragment: Octets)
    requires Parse(raw).Some?
    ensures SpellingOf(raw, scheme, rest, fragment)
  {
    AcceptedHead(raw);
    fragment := CutBack(raw, HASH);
    var head := Cut(raw, HASH).before;
    scheme, rest := head[..4], head[5..];
    HeadSpells(raw, head, fragment);
  }

  lemma AcceptedHead(raw: Octets)
    requires Parse(raw).Some?
    ensures var f := Cut(raw, HASH);
      && Printable(raw) && f.after == [] && |f.before| >= 5 && Lower(f.before[..4]) == SCHEME_NAME && f.before[4] == COLON
  {
  }

  lemma HeadSpells(raw: Octets, head: Octets, fragment: Octets)
    requires raw == head + fragment && Printable(raw) && HASH !in head && EmptyOr(fragment, HASH)
    requires |head| >= 5 && head[4] == COLON && Lower(head[..4]) == SCHEME_NAME
    ensures SpellingOf(raw, head[..4], head[5..], fragment)
  {
    assert head == head[..4] + ([COLON] + head[5..]);
    assert forall b :: b in head[..4] ==> b in raw;
    assert forall b :: b in head[5..] ==> b in head;
    LowerExactly(head[..4], SCHEME_NAME);
  }

  /** The parser accepts exactly the spellings of the grammar, each as the identifier it spells. */
  lemma ParseExactly(raw: Octets, id: Id)
    ensures Parse(raw) == Some(id) <==> Spells(raw, id)
  {
    if Parse(raw) == Some(id) {
      var scheme, rest, fragment := SpellingIsCut(raw);
      SpellingIsParsed(raw, scheme, rest, fragment);
      HierarchyExactly(rest, id);
    }
    if Spells(raw, id) {
      var scheme, rest, fragment :| SpellingOf(raw, scheme, rest, fragment) && HierarchyNames(rest, id);
      SpellingIsParsed(raw, scheme, rest, fragment);
      HierarchyExactly(rest, id);
    }
  }

  /** In whatever case its scheme and host are written, an identifier stays the same. */
  lemma CaseDoesNotMatter(id: Id, scheme: Octets, host: Octets)
    requires Valid(id) && SameButCase(scheme, SCHEME_NAME) && SameButCase(host, id.domain)
    ensures Parse(scheme + ([COLON] + ([SLASH, SLASH] + (host + Path(id.kind, id.local))))) == Some(id)
  {
    var rest := [SLASH, SLASH] + (host + Path(id.kind, id.local));
    CaseOfHierarchy(id, host, rest);
    NamedIsParsed(scheme, rest, id);
  }

  lemma NamedIsParsed(scheme: Octets, rest: Octets, id: Id)
    requires SameButCase(scheme, SCHEME_NAME) && Printable(rest) && HASH !in rest && HierarchyNames(rest, id)
    ensures Parse(scheme + ([COLON] + rest)) == Some(id)
  {
    OwnSpelling(scheme, rest);
    HierarchyExactly(rest, id);
    SpellingIsParsed(scheme + ([COLON] + rest), scheme, rest, []);
  }

  lemma CaseOfHierarchy(id: Id, host: Octets, rest: Octets)
    requires Valid(id) && SameButCase(host, id.domain) && rest == [SLASH, SLASH] + (host + Path(id.kind, id.local))
    ensures HierarchyNames(rest, id) && Printable(rest) && HASH !in rest
  {
    var path := Path(id.kind, id.local);
    OwnPathNames(id);
    CaseOfHost(host, id.domain);
    OwnAuthority(host, id.domain);
    CleanRest(host, path);
    OwnHierarchy(rest, host, path, id);
  }

  lemma CleanRest(host: Octets, path: Octets)
    requires Printable(host) && Printable(path)
    requires QUERY !in host && QUERY !in path && HASH !in host && HASH !in path
    ensures QUERY !in host + path
    ensures var rest := [SLASH, SLASH] + (host + path); Printable(rest) && HASH !in rest
  {
  }

  lemma OwnAuthority(host: Octets, domain: Octets)
    requires HostNames(host, domain) && COLON !in host && AT !in host
    ensures AuthorityNames(host, domain)
  {
    assert host == host + [];
    assert AuthorityOf(host, host, [], domain);
  }

  lemma OwnHierarchy(rest: Octets, host: Octets, path: Octets, id: Id)
    requires rest == [SLASH, SLASH] + (host + path) && AuthorityNames(host, id.domain) && SLASH !in host
    requires PathNames(path, id.kind, id.local) && path != [] && path[0] == SLASH && QUERY !in host + path
    ensures HierarchyNames(rest, id)
  {
    assert rest == rest + [];
    assert HierarchyOf(rest, host, path, []);
  }

  lemma OwnSpelling(scheme: Octets, rest: Octets)
    requires SameButCase(scheme, SCHEME_NAME) && Printable(rest) && HASH !in rest
    ensures var raw := scheme + ([COLON] + rest); Printable(raw) && SpellingOf(raw, scheme, rest, [])
  {
    var raw := scheme + ([COLON] + rest);
    assert raw == raw + [];
    assert forall b :: b in scheme ==> 0x20 < b < 0x7f;
  }

  lemma OwnPathNames(id: Id)
    requires Valid(id)
    ensures var path := Path(id.kind, id.local);
      PathNames(path, id.kind, id.local) && path[0] == SLASH && QUERY !in path && HASH !in path && Printable(path)
  {
    PathIsClean(id.kind, id.local);
    EscapeRoundTrip(SegmentKeeps, id.local);
    DecodeExactly(false, EncodeLocal(id.local), id.local);
    assert Path(id.kind, id.local) == Behind(id.kind, EncodeLocal(id.local));
  }

  lemma CaseOfHost(host: Octets, domain: Octets)
    requires ValidDomain(domain) && SameButCase(host, domain)
    ensures HostNames(host, domain) && Printable(host)
    ensures SLASH !in host && COLON !in host && AT !in host && QUERY !in host && HASH !in host
  {
    SplitBytes(domain);
    HostOctets(host, domain);
    HostNamesLowered(host, domain);
  }

  lemma HostNamesLowered(host: Octets, domain: Octets)
    requires SameButCase(host, domain) && Ascii(host) && PERCENT !in host
    requires forall b :: b in domain ==> b == DOT || LabelByte(b)
    ensures HostName(host) == Some(domain)
  {
    PlainHostIsLowered(host);
    Lowered(host, domain, HostName(host).value);
  }

  /** A domain's letters, digits, dashes and dots, some of the letters in upper case. */
  lemma HostOctets(host: Octets, domain: Octets)
    requires SameButCase(host, domain) && forall b :: b in domain ==> b == DOT || LabelByte(b)
    ensures forall b :: b in host ==> LowerCase(b) || Upper(b) || Digit(b) || b == DASH || b == DOT
  {
    assert forall i :: 0 <= i < |host| ==> domain[i] in domain;
  }

  lemma Lowered(host: Octets, domain: Octets, name: Octets)
    requires SameButCase(host, domain) && |name| == |host|
    requires forall b :: b in domain ==> b == DOT || LabelByte(b)
    requires forall i :: 0 <= i < |host| ==> name[i] == if 65 <= host[i] <= 90 then host[i] + 32 else host[i]
    ensures name == domain
  {
    assert forall i :: 0 <= i < |host| ==> domain[i] in domain;
  }

  /** Spelled out for each kind: mimi://a.example/u/alice, and d, r and g in place of u. */
  lemma AliceSpelledOut(k: IdKind)
    ensures var domain := [97, 46, 101, 120, 97, 109, 112, 108, 101];
      var letter: byte := match k case User => 117 case Device => 100 case Room => 114 case Group => 103;
      String(Id(domain, k, [97, 108, 105, 99, 101]))
      == [109, 105, 109, 105, 58, 47, 47] + domain + [47, letter, 47, 97, 108, 105, 99, 101]
  {
    KeptAsItIs([97, 108, 105, 99, 101]);
  }

  lemma {:induction false} KeptAsItIs(s: Octets)
    requires forall i :: 0 <= i < |s| ==> SegmentKeeps(s[i])
    ensures EncodeLocal(s) == s
  {
    if s != [] {
      KeptAsItIs(s[1..]);
      assert s == [s[0]] + s[1..];
    }
  }
}
