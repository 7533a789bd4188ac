/**
 The decoder as it runs: a cursor over the message, moved by every read, with the
 machine's integers.  `int` is 64 bits wide, so a successful check of a type below is
 also the proof that the arithmetic cannot overflow.
 */
module MlsReader {
  import opened Bytes
  import opened MlsWire

  newtype Int = x: int | -0x8000_0000_0000_0000 <= x <= 0x7FFF_FFFF_FFFF_FFFF

  newtype UInt64 = x: int | 0 <= x <= 0xFFFF_FFFF_FFFF_FFFF

  /** Every message up to this length is covered; no process can address more. */
  const LONGEST := 0x4000_0000_0000_0000

  datatype Outcome = Ok(handshake: Handshake) | Err(error: Error)

  function OutcomeOf(r: Read<Handshake>): Outcome {
    match r
    case Got(h, _) => Ok(h)
    case Fail(e) => Err(e)
  }

  class Reader {
    const b: Octets
    var i: Int

    ghost predicate Valid()
      reads this
    {
      |b| <= LONGEST && 0 <= i as int <= |b|
    }

    /** What has not been read yet. */
    ghost function Left(): Octets
      requires Valid()
      reads this
    {
      b[i as int..]
    }

    constructor (b: Octets)
      requires |b| <= LONGEST
      ensures Valid() && this.b == b && Left() == b
    {
      this.b := b;
      i := 0;
    }

    method Need(n: Int) returns (ok: bool)
      requires Valid() && 0 <= n as int < LONGEST
      ensures ok <==> n as int <= |Left()|
    {
      ok := !(i + n > |b| as Int);
    }

    /** `u8`, `u16`, `u32` and `u64`, by width. */
    method Unsigned(w: Int) returns (v: nat, ok: bool)
      requires Valid() && w in {1, 2, 4, 8}
      modifies this`i
      ensures Valid()
      ensures ok <==> MlsWire.Unsigned(old(Left()), w as int).Got?
      ensures ok ==> MlsWire.Unsigned(old(Left()), w as int) == Got(v, Left())
      ensures !ok ==> Left() == old(Left())
    {
      ok := Need(w);
      if !ok {
        return 0, false;
      }
      v := FromBigEndian(b[i as int..(i + w) as int]);
      i := i + w;
      assert old(Left())[..w as int] == b[old(i) as int..i as int];
    }

    method U8() returns (v: byte, ok: bool)
      requires Valid()
      modifies this`i
      ensures Valid()
      ensures ok <==> old(Left()) != []
      ensures ok ==> v == old(Left())[0] && Left() == old(Left())[1..]
      ensures !ok ==> Left() == old(Left())
    {
      ok := Need(1);
      if !ok {
        return 0, false;
      }
      v := b[i as int];
      i := i + 1;
    }

    method Varint() returns (value: UInt64, ok: bool)
      requires Valid()
      modifies this`i
      ensures Valid()
      ensures ok <==> MlsWire.Varint(old(Left())).Got?
      ensures ok ==> MlsWire.Varint(old(Left())) == Got(value as int, Left())
      ensures ok ==> value as int < LONGEST
    {
      ghost var s := Left();
      var first, more := U8();
      if !more {
        return 0, false;
      }
      var prefix := first / 64;
      value := (first % 64) as UInt64;
      var extra := Width(prefix) - 1;
      ghost var read: Octets := [first % 64];
      for k := 0 to extra
        invariant Valid() && |s| > k && Left() == s[k + 1..]
        invariant read == [first % 64] + s[1..k + 1]
        invariant value as int == FromBigEndian(read)
        invariant value as int < 64 * Pow256(k)
      {
        var c, got := U8();
        if !got {
          return 0, false;
        }
        read := read + [c];
        assert read[..|read| - 1] == [first % 64] + s[1..k + 1];
        BelowTwoTo62(k + 1);
        value := value * 256 + c as UInt64;
      }
      BelowTwoTo62(extra);
      ok := true;
    }

    method Vec() returns (out: Octets, ok: bool)
      requires Valid()
      modifies this`i
      ensures Valid()
      ensures ok <==> MlsWire.Vec(old(Left())).Got?
      ensures ok ==> MlsWire.Vec(old(Left())) == Got(out, Left())
    {
      var n, sized := Varint();
      if !sized {
        return [], false;
      }
      ok := Need(n as Int);
      if !ok {
        return [], false;
      }
      ghost var s := Left();
      out := b[i as int..(i + n as Int) as int];
      i := i + n as Int;
      assert out == s[..n as int] && Left() == s[n as int..];
    }

    method SkipSender() returns (err: seq<Error>)
      requires Valid()
      modifies this`i
      ensures Valid()
      ensures err == [] <==> MlsWire.SkipSender(old(Left())).Got?
      ensures err == [] ==> MlsWire.SkipSender(old(Left())) == Got((), Left())
      ensures err != [] ==> MlsWire.SkipSender(old(Left())) == Fail(err[0])
    {
      var kind, ok := Unsigned(1);
      if !ok {
        return [Truncated];
      }
      if kind == 1 || kind == 2 {
        var _, indexed := Unsigned(4);
        err := if indexed then [] else [Truncated];
      } else if kind == 3 || kind == 4 {
        err := [];
      } else {
        err := [Malformed];
      }
    }

    /** FramedContent, from the group id to the content type. */
    method Body() returns (r: Outcome)
      requires Valid()
      modifies this`i
      ensures Valid()
      ensures r == OutcomeOf(MlsWire.Body(old(Left())))
    {
      var groupId, ok2 := Vec();
      if !ok2 {
        return Err(Truncated);
      }
      var epoch, ok3 := Unsigned(8);
      if !ok3 {
        return Err(Truncated);
      }
      var err := SkipSender();
      if err != [] {
        return Err(err[0]);
      }
      var _, ok4 := Vec();
      if !ok4 {
        return Err(Truncated);
      }
      var contentType, ok5 := U8();
      if !ok5 {
        return Err(Truncated);
      }
      r := Ok(Handshake(groupId, epoch, contentType));
    }
  }

  lemma BelowTwoTo62(k: nat)
    requires k <= 7
    ensures 64 * Pow256(k) <= LONGEST
  {
    Pow256Grows(k, 7);
    assert Pow256(3) == 0x100_0000;
    assert Pow256(7) == 256 * (256 * (256 * (256 * Pow256(3))));
  }

  /** The running decoder computes exactly the specified one. */
  method ParseHandshake(msg: Octets) returns (r: Outcome)
    requires |msg| <= LONGEST
    ensures r == OutcomeOf(Parse(msg))
  {
    var reader := new Reader(msg);
    var _, ok := reader.Unsigned(2);
    if !ok {
      return Err(Truncated);
    }
    var format, ok1 := reader.Unsigned(2);
    if !ok1 {
      return Err(Truncated);
    }
    if format == PRIVATE_MESSAGE {
      return Err(NotPublic);
    } else if format != PUBLIC_MESSAGE {
      return Err(Malformed);
    }
    r := reader.Body();
  }

  /**
   The bound is tight: a cursor at `i` can add every length an 8-octet header can
   announce without overflowing exactly when it stands at or below 2^62.
   */
  lemma CursorNeverOverflowsExactly(i: nat)
    ensures (forall n: nat :: Fits(n, 3) ==> i + n <= MAX_INT64) <==> i <= LONGEST
  {
    BelowTwoTo62(7);
    assert Pow256(3) == 0x100_0000;
    assert Pow256(7) == 256 * (256 * (256 * (256 * Pow256(3))));
    assert Fits(LONGEST - 1, 3);
  }
}
