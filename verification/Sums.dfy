/** Sums and counts along a sequence. */
module Sums {

  ghost function Sum<T>(f: T -> nat, s: seq<T>): nat {
    if s == [] then 0 else f(s[0]) + Sum(f, s[1..])
  }

  lemma {:induction false} SumUpdate<T>(f: T -> nat, s: seq<T>, i: nat, x: T)
    requires i < |s|
    ensures Sum(f, s[i := x]) + f(s[i]) == Sum(f, s) + f(x)
  {
    if i == 0 {
      assert s[i := x][1..] == s[1..];
    } else {
      assert s[i := x][1..] == s[1..][i - 1 := x];
      SumUpdate(f, s[1..], i - 1, x);
    }
  }

  lemma {:induction false} SumAppend<T>(f: T -> nat, s: seq<T>, x: T)
    ensures Sum(f, s + [x]) == Sum(f, s) + f(x)
  {
    if s == [] {
    } else {
      assert (s + [x])[1..] == s[1..] + [x];
      SumAppend(f, s[1..], x);
    }
  }

  lemma {:induction false} SumOfSums<T>(f: T -> nat, g: T -> nat, h: T -> nat, s: seq<T>)
    requires forall x :: x in s ==> f(x) + g(x) == h(x)
    ensures Sum(f, s) + Sum(g, s) == Sum(h, s)
  {
    if s != [] {
      SumOfSums(f, g, h, s[1..]);
    }
  }

  ghost function Occurs<T>(s: seq<T>, x: T): nat {
    if s == [] then 0 else Occurs(s[..|s| - 1], x) + if s[|s| - 1] == x then 1 else 0
  }

  lemma OccursAppend<T>(s: seq<T>, x: T, y: T)
    ensures Occurs(s + [x], y) == Occurs(s, y) + if x == y then 1 else 0
  {
    assert (s + [x])[..|s|] == s;
  }

  lemma {:induction false} OccursHead<T>(s: seq<T>, x: T)
    requires s != []
    ensures Occurs(s, x) == Occurs(s[1..], x) + if s[0] == x then 1 else 0
  {
    var n := |s| - 1;
    if n == 0 {
    } else {
      OccursHead(s[..n], x);
      assert s[..n][1..] == s[1..][..n - 1];
    }
  }

  lemma {:induction false} OccursPositive<T>(s: seq<T>, x: T)
    ensures Occurs(s, x) > 0 <==> x in s
  {
    if s != [] {
      OccursPositive(s[..|s| - 1], x);
      assert s == s[..|s| - 1] + [s[|s| - 1]];
    }
  }

  /** A sequence listing each member of a set once has as many elements as the set. */
  lemma {:induction false} OnceEach<T>(s: seq<T>, members: set<T>)
    requires forall x :: Occurs(s, x) == if x in members then 1 else 0
    ensures |s| == |members|
  {
    if s == [] {
      assert members == {} by {
        forall x ensures x !in members {
          assert Occurs(s, x) == 0;
        }
      }
    } else {
      var n := |s| - 1;
      var rest := members - {s[n]};
      assert Occurs(s, s[n]) == 1;
      forall x ensures Occurs(s[..n], x) == if x in rest then 1 else 0 {
        assert Occurs(s, x) == if x in members then 1 else 0;
      }
      OnceEach(s[..n], rest);
      assert members == rest + {s[n]};
    }
  }
}
