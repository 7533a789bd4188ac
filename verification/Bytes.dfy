/** Octets, big-endian integers, Go's 64-bit integers and optional values, shared by the other modules. */
module Bytes {

  type byte = x: int | 0 <= x < 256

  type Octets = seq<byte>

  datatype Option<+T> = None | Some(value: T)

  const MAX_INT64 := 0x7FFF_FFFF_FFFF_FFFF
  const TWO_64 := 0x1_0000_0000_0000_0000

  /** A Go `int64`. */
  type Int64 = x: int | -MAX_INT64 - 1 <= x <= MAX_INT64

  /** A Go slice or string cannot be longer than an `int` can count. */
  ghost predicate GoSized(b: Octets) {
    |b| <= MAX_INT64
  }

  /** `x + 1` on an `int64`, wrapping as the machine does. */
  function Succ(x: Int64): Int64 {
    if x == MAX_INT64 then -MAX_INT64 - 1 else x + 1
  }

  /** `x - 1` on an `int64`, wrapping as the machine does. */
  function Pred(x: Int64): Int64 {
    if x == -MAX_INT64 - 1 then MAX_INT64 else x - 1
  }

  function Pow256(w: nat): (p: nat)
    ensures p > 0
  {
    if w == 0 then 1 else 256 * Pow256(w - 1)
  }

  /** The low `w` octets of `n`, most significant first. */
  function BigEndian(n: nat, w: nat): (s: Octets)
    ensures |s| == w
  {
    if w == 0 then [] else BigEndian(n / 256, w - 1) + [n % 256]
  }

  function FromBigEndian(s: Octets): nat {
    if s == [] then 0 else FromBigEndian(s[..|s| - 1]) * 256 + s[|s| - 1]
  }

  lemma {:induction false} BigEndianRoundTrip(n: nat, w: nat)
    requires n < Pow256(w)
    ensures FromBigEndian(BigEndian(n, w)) == n
  {
    if w == 0 {
    } else {
      var s := BigEndian(n, w);
      assert s[..w - 1] == BigEndian(n / 256, w - 1);
      BigEndianRoundTrip(n / 256, w - 1);
    }
  }

  lemma {:induction false} FromBigEndianRoundTrip(s: Octets)
    ensures FromBigEndian(s) < Pow256(|s|)
    ensures BigEndian(FromBigEndian(s), |s|) == s
  {
    if s == [] {
    } else {
      FromBigEndianRoundTrip(s[..|s| - 1]);
      assert s == s[..|s| - 1] + [s[|s| - 1]];
    }
  }

  lemma Scale(x: nat, p: nat)
    ensures x * (256 * p) == 256 * (x * p)
  {
  }

  lemma CancelFactor(x: nat, y: nat, p: nat)
    requires x * p < y * p
    ensures x < y
  {
  }

  lemma RaiseFactor(x: nat, y: nat, p: nat)
    requires x <= y
    ensures x * p <= y * p
  {
  }

  /** The first octet of a big-endian number is its most significant part. */
  lemma {:induction false} FromBigEndianHead(s: Octets)
    requires s != []
    ensures (s[0] as int) * Pow256(|s| - 1) <= FromBigEndian(s) < (s[0] as int + 1) * Pow256(|s| - 1)
  {
    var n := |s| - 1;
    var x: nat := s[0];
    if n == 0 {
    } else {
      FromBigEndianHead(s[..n]);
      Scale(x, Pow256(n - 1));
      Scale(x + 1, Pow256(n - 1));
    }
  }

  lemma Pow256Of8()
    ensures Pow256(8) == TWO_64
  {
    assert Pow256(4) == 0x1_0000_0000;
    assert Pow256(8) == 256 * (256 * (256 * (256 * Pow256(4))));
  }

  lemma {:induction false} Pow256Grows(a: nat, b: nat)
    requires a <= b
    ensures Pow256(a) <= Pow256(b)
    decreases b
  {
    if a < b {
      Pow256Grows(a, b - 1);
    }
  }

  /** `binary.BigEndian.PutUint64(_, uint64(x))`: a negative `x` wraps. */
  function Uint64Octets(x: int): (s: Octets)
    ensures |s| == 8
  {
    BigEndian(x % TWO_64, 8)
  }

  lemma Uint64OctetsInjective(x: int, y: int)
    requires Uint64Octets(x) == Uint64Octets(y)
    ensures x % TWO_64 == y % TWO_64
  {
    Pow256Of8();
    BigEndianRoundTrip(x % TWO_64, 8);
    BigEndianRoundTrip(y % TWO_64, 8);
  }

  /** Concatenations that start with equally long parts agree part by part. */
  lemma ConcatSplit(a: Octets, x: Octets, b: Octets, y: Octets)
    requires |a| == |b| && a + x == b + y
    ensures a == b && x == y
  {
    assert a == (a + x)[..|a|] == (b + y)[..|b|] == b;
    assert x == (a + x)[|a|..] == (b + y)[|b|..] == y;
  }
}
