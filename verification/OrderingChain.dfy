/**
 The signed ordering chain of a federated MLS group.  Every accepted commit gets a
 link binding its position (previous link, epoch) to its content and its group.

 SHA-256 is a parameter `H` with a fixed 32-octet output.  No such function is
 injective everywhere, so collision freedom is only ever assumed on the finite set
 of positions that the statement at hand links (`NoCollisions`).
 */
module OrderingChain {
  import opened Bytes

  type Hash = Octets -> Octets

  ghost predicate Digest(H: Hash) {
    forall x :: |H(x)| == 32
  }

  /** The ASCII octets of "pheme-mlschain-v1". */
  const SCHEME: Octets :=
    [112, 104, 101, 109, 101, 45, 109, 108, 115, 99, 104, 97, 105, 110, 45, 118, 49]

  /** A length-prefixed field, as `writeField` feeds it to the hasher. */
  function Field(b: Octets): Octets {
    Uint64Octets(|b|) + b
  }

  function Preimage(prev: Octets, seqNo: int, group: Octets, commit: Octets): Octets {
    Field(SCHEME) + (Field(prev) + (Uint64Octets(seqNo) + (Field(group) + Field(commit))))
  }

  function Link(H: Hash, prev: Octets, seqNo: int, group: Octets, commit: Octets): Octets {
    H(Preimage(prev, seqNo, group, commit))
  }

  lemma Regroup(a: Octets, b: Octets, c: Octets)
    ensures (a + b) + c == a + (b + c)
  {
  }

  lemma NumberSplit(m: int, x: Octets, n: int, y: Octets)
    requires -MAX_INT64 - 1 <= m <= MAX_INT64 && -MAX_INT64 - 1 <= n <= MAX_INT64
    requires Uint64Octets(m) + x == Uint64Octets(n) + y
    ensures m == n && x == y
  {
    ConcatSplit(Uint64Octets(m), x, Uint64Octets(n), y);
    Uint64OctetsInjective(m, n);
    SameResidue(m, n);
  }

  lemma SameResidue(m: int, n: int)
    requires -MAX_INT64 - 1 <= m <= MAX_INT64 && -MAX_INT64 - 1 <= n <= MAX_INT64
    requires m % TWO_64 == n % TWO_64
    ensures m == n
  {
    assert m % TWO_64 == if m < 0 then m + TWO_64 else m;
    assert n % TWO_64 == if n < 0 then n + TWO_64 else n;
  }

  /** Fields followed by anything: the length prefix says where the field ends. */
  lemma FieldSplit(a: Octets, x: Octets, b: Octets, y: Octets)
    requires GoSized(a) && GoSized(b)
    requires Field(a) + x == Field(b) + y
    ensures a == b && x == y
  {
    Regroup(Uint64Octets(|a|), a, x);
    Regroup(Uint64Octets(|b|), b, y);
    NumberSplit(|a|, a + x, |b|, b + y);
    ConcatSplit(a, x, b, y);
  }

  /** What the inputs of a link must satisfy to be Go values. */
  ghost predicate LinkInput(prev: Octets, seqNo: int, group: Octets, commit: Octets) {
    GoSized(prev) && GoSized(group) && GoSized(commit) && -MAX_INT64 - 1 <= seqNo <= MAX_INT64
  }

  lemma ContentSplit(g1: Octets, c1: Octets, g2: Octets, c2: Octets)
    requires GoSized(g1) && GoSized(c1) && GoSized(g2) && GoSized(c2)
    requires Field(g1) + Field(c1) == Field(g2) + Field(c2)
    ensures g1 == g2 && c1 == c2
  {
    FieldSplit(g1, Field(c1), g2, Field(c2));
    assert Field(c1) + [] == Field(c1) && Field(c2) + [] == Field(c2);
    FieldSplit(c1, [], c2, []);
  }

  /** No two distinct tuples run together into the same octets. */
  lemma PreimageInjective(p1: Octets, s1: int, g1: Octets, c1: Octets,
                          p2: Octets, s2: int, g2: Octets, c2: Octets)
    requires LinkInput(p1, s1, g1, c1) && LinkInput(p2, s2, g2, c2)
    requires Preimage(p1, s1, g1, c1) == Preimage(p2, s2, g2, c2)
    ensures p1 == p2 && s1 == s2 && g1 == g2 && c1 == c2
  {
    var t1, t2 := Field(g1) + Field(c1), Field(g2) + Field(c2);
    var r1, r2 := Uint64Octets(s1) + t1, Uint64Octets(s2) + t2;
    ConcatSplit(Field(SCHEME), Field(p1) + r1, Field(SCHEME), Field(p2) + r2);
    FieldSplit(p1, r1, p2, r2);
    NumberSplit(s1, t1, s2, t2);
    ContentSplit(g1, c1, g2, c2);
  }

  /** The eight octets from `i` on are this number, most significant first. */
  ghost predicate NumberAt(s: Octets, i: nat, n: nat) {
    i + 8 <= |s| && FromBigEndian(s[i..i + 8]) == n
  }

  /** The octets from `i` on are these. */
  ghost predicate OctetsAt(s: Octets, i: nat, b: Octets) {
    i + |b| <= |s| && s[i..i + |b|] == b
  }

  lemma StandsAt(a: Octets, b: Octets, c: Octets)
    ensures OctetsAt(a + (b + c), |a|, b)
  {
  }

  lemma NumberStandsAt(a: Octets, n: int, c: Octets)
    requires -MAX_INT64 - 1 <= n <= MAX_INT64
    ensures NumberAt(a + (Uint64Octets(n) + c), |a|, if n < 0 then n + TWO_64 else n)
  {
    StandsAt(a, Uint64Octets(n), c);
    Pow256Of8();
    BigEndianRoundTrip(n % TWO_64, 8);
    assert n % TWO_64 == if n < 0 then n + TWO_64 else n;
  }

  lemma FieldAt(s: Octets, a: Octets, b: Octets, c: Octets)
    requires GoSized(b) && s == a + (Field(b) + c)
    ensures NumberAt(s, |a|, |b|) && OctetsAt(s, |a| + 8, b)
  {
    var n := Uint64Octets(|b|);
    Regroup(n, b, c);
    NumberStandsAt(a, |b|, b + c);
    Regroup(a, n, b + c);
    StandsAt(a + n, b, c);
  }

  /** What stands before and behind the previous link, the epoch, the group and the commit. */
  lemma PreimageParts(prev: Octets, seqNo: int, group: Octets, commit: Octets)
    returns (a: Octets, b: Octets, c: Octets, d: Octets, x: Octets, y: Octets, z: Octets)
    ensures |a| == 25 && |b| == 33 + |prev| && |c| == |b| + 8 && |d| == |c| + 8 + |group|
    ensures var s := Preimage(prev, seqNo, group, commit);
      && s == a + (Field(prev) + x) && s == b + (Uint64Octets(seqNo) + y)
      && s == c + (Field(group) + z) && s == d + (Field(commit) + [])
  {
    a, z := Field(SCHEME), Field(commit);
    y := Field(group) + z;
    x := Uint64Octets(seqNo) + y;
    b := a + Field(prev);
    Regroup(a, Field(prev), x);
    c := b + Uint64Octets(seqNo);
    Regroup(b, Uint64Octets(seqNo), y);
    d := c + Field(group);
    Regroup(c, Field(group), z);
    assert z + [] == z;
  }

  /**
   The octets that are hashed, position by position, the same on every host: the label, the
   previous link, the epoch, the group and the commit, each but the epoch behind its length.
   */
  lemma PreimageLayout(prev: Octets, seqNo: int, group: Octets, commit: Octets)
    requires LinkInput(prev, seqNo, group, commit)
    ensures var s := Preimage(prev, seqNo, group, commit);
      var i := 33 + |prev|;
      var j := i + 16 + |group|;
      && NumberAt(s, 0, 17) && OctetsAt(s, 8, SCHEME)
      && NumberAt(s, 25, |prev|) && OctetsAt(s, 33, prev)
      && NumberAt(s, i, if seqNo < 0 then seqNo + TWO_64 else seqNo)
      && NumberAt(s, i + 8, |group|) && OctetsAt(s, i + 16, group)
      && NumberAt(s, j, |commit|) && OctetsAt(s, j + 8, commit) && |s| == j + 8 + |commit|
  {
    var s := Preimage(prev, seqNo, group, commit);
    var a, b, c, d, x, y, z := PreimageParts(prev, seqNo, group, commit);
    LabelAt(prev, seqNo, group, commit);
    FieldAt(s, a, prev, x);
    EpochAt(s, b, seqNo, y);
    FieldAt(s, c, group, z);
    LastFieldAt(s, d, commit);
  }

  lemma EpochAt(s: Octets, a: Octets, seqNo: int, c: Octets)
    requires -MAX_INT64 - 1 <= seqNo <= MAX_INT64 && s == a + (Uint64Octets(seqNo) + c)
    ensures NumberAt(s, |a|, if seqNo < 0 then seqNo + TWO_64 else seqNo)
  {
    NumberStandsAt(a, seqNo, c);
  }

  lemma LastFieldAt(s: Octets, a: Octets, b: Octets)
    requires GoSized(b) && s == a + (Field(b) + [])
    ensures NumberAt(s, |a|, |b|) && OctetsAt(s, |a| + 8, b) && |s| == |a| + 8 + |b|
  {
    FieldAt(s, a, b, []);
  }

  lemma LabelAt(prev: Octets, seqNo: int, group: Octets, commit: Octets)
    ensures var s := Preimage(prev, seqNo, group, commit); NumberAt(s, 0, 17) && OctetsAt(s, 8, SCHEME)
  {
    var t := Field(prev) + (Uint64Octets(seqNo) + (Field(group) + Field(commit)));
    assert [] + (Field(SCHEME) + t) == Field(SCHEME) + t;
    FieldAt(Field(SCHEME) + t, [], SCHEME, t);
  }

  /** What a link binds: the previous link, the epoch, the group and the commit. */
  datatype Position = Position(prev: Octets, seqNo: int, group: Octets, commit: Octets) {
    ghost predicate GoValues() {
      LinkInput(prev, seqNo, group, commit)
    }
  }

  function PositionOctets(p: Position): Octets {
    Preimage(p.prev, p.seqNo, p.group, p.commit)
  }

  /** All that the protocol needs of the chain: a link for every position. */
  type Chain = Position -> Octets

  function ChainOf(H: Hash): Chain {
    (p: Position) => H(PositionOctets(p))
  }

  lemma ChainLinksAreDigests(H: Hash)
    requires Digest(H)
    ensures DigestLinks(ChainOf(H))
  {
    forall p ensures |ChainOf(H)(p)| == 32 {
      ChainIsLink(H, p);
    }
  }

  lemma ChainIsLink(H: Hash, p: Position)
    ensures ChainOf(H)(p) == Link(H, p.prev, p.seqNo, p.group, p.commit)
  {
    assert PositionOctets(p) == Preimage(p.prev, p.seqNo, p.group, p.commit);
  }

  ghost predicate NamesPositions(L: Chain, s: set<Position>) {
    forall p, q :: p in s && q in s && p.GoValues() && q.GoValues() && L(p) == L(q) ==> p == q
  }

  ghost predicate DigestLinks(L: Chain) {
    forall p :: |L(p)| == 32
  }

  /** No two of these positions have different preimages with the same digest. */
  ghost predicate NoCollisions(H: Hash, s: set<Position>) {
    forall p, q :: p in s && q in s && H(PositionOctets(p)) == H(PositionOctets(q))
      ==> PositionOctets(p) == PositionOctets(q)
  }

  /** Without collisions among the preimages hashed, a link names its position. */
  lemma LinksNamePositions(H: Hash, s: set<Position>)
    requires NoCollisions(H, s)
    ensures NamesPositions(ChainOf(H), s)
  {
    forall p, q | p in s && q in s && p.GoValues() && q.GoValues() && ChainOf(H)(p) == ChainOf(H)(q)
      ensures p == q
    {
      PreimageInjective(p.prev, p.seqNo, p.group, p.commit, q.prev, q.seqNo, q.group, q.commit);
    }
  }

  // ---------------------------------------------------------------- whole logs

  /** Where a log starts: at nothing, or at the head a mirror was provisioned with. */
  datatype Base = Base(head: Octets, epoch: int)

  const ORIGIN := Base([], 0)

  /** The chain head after a group's commits, oldest first, on top of a base. */
  function HeadFrom(L: Chain, base: Base, group: Octets, commits: seq<Octets>): Octets
    decreases |commits|, 1
  {
    if commits == [] then base.head else L(LastFrom(L, base, group, commits))
  }

  function LastFrom(L: Chain, base: Base, group: Octets, commits: seq<Octets>): Position
    requires commits != []
    decreases |commits|, 0
  {
    var n := |commits| - 1;
    Position(HeadFrom(L, base, group, commits[..n]), base.epoch + n + 1, group, commits[n])
  }

  /** Every position linked on the way to the head. */
  ghost function PositionsFrom(L: Chain, base: Base, group: Octets, commits: seq<Octets>): set<Position> {
    if commits == [] then {}
    else PositionsFrom(L, base, group, commits[..|commits| - 1]) + {LastFrom(L, base, group, commits)}
  }

  function Head(L: Chain, group: Octets, commits: seq<Octets>): Octets {
    HeadFrom(L, ORIGIN, group, commits)
  }

  ghost function Positions(L: Chain, group: Octets, commits: seq<Octets>): set<Position> {
    PositionsFrom(L, ORIGIN, group, commits)
  }

  ghost predicate GoLogFrom(base: Base, group: Octets, commits: seq<Octets>) {
    && GoSized(group) && GoSized(base.head) && 0 <= base.epoch && base.epoch + |commits| <= MAX_INT64
    && forall i :: 0 <= i < |commits| ==> GoSized(commits[i])
  }

  ghost predicate GoLog(group: Octets, commits: seq<Octets>) {
    GoLogFrom(ORIGIN, group, commits)
  }

  lemma HeadIsShort(L: Chain, base: Base, group: Octets, commits: seq<Octets>)
    requires DigestLinks(L)
    ensures |HeadFrom(L, base, group, commits)| == if commits == [] then |base.head| else 32
  {
  }

  /** Equal heads of non-empty logs agree on the last commit, on its epoch and on the head before it. */
  lemma LastAgrees(L: Chain, b1: Base, g1: Octets, a: seq<Octets>, b2: Base, g2: Octets, b: seq<Octets>)
    requires DigestLinks(L) && GoLogFrom(b1, g1, a) && GoLogFrom(b2, g2, b) && a != [] && b != []
    requires NamesPositions(L, PositionsFrom(L, b1, g1, a) + PositionsFrom(L, b2, g2, b))
    requires HeadFrom(L, b1, g1, a) == HeadFrom(L, b2, g2, b)
    ensures g1 == g2 && a[|a| - 1] == b[|b| - 1] && b1.epoch + |a| == b2.epoch + |b|
    ensures HeadFrom(L, b1, g1, a[..|a| - 1]) == HeadFrom(L, b2, g2, b[..|b| - 1])
    ensures NamesPositions(L, PositionsFrom(L, b1, g1, a[..|a| - 1]) + PositionsFrom(L, b2, g2, b[..|b| - 1]))
  {
    HeadIsShort(L, b1, g1, a[..|a| - 1]);
    HeadIsShort(L, b2, g2, b[..|b| - 1]);
    var p, q := LastFrom(L, b1, g1, a), LastFrom(L, b2, g2, b);
    assert p in PositionsFrom(L, b1, g1, a) && q in PositionsFrom(L, b2, g2, b);
    assert p == q;
  }

  /** A head is a faithful summary of the whole log: equal exactly for equal logs. */
  lemma {:induction false} HeadsDetermineLogs(L: Chain, g1: Octets, a: seq<Octets>, g2: Octets, b: seq<Octets>)
    requires DigestLinks(L) && GoLog(g1, a) && GoLog(g2, b)
    requires NamesPositions(L, Positions(L, g1, a) + Positions(L, g2, b))
    ensures Head(L, g1, a) == Head(L, g2, b) <==> a == b && (a == [] || g1 == g2)
    decreases |a|
  {
    HeadIsShort(L, ORIGIN, g1, a);
    HeadIsShort(L, ORIGIN, g2, b);
    if Head(L, g1, a) == Head(L, g2, b) && a != [] && b != [] {
      LastAgrees(L, ORIGIN, g1, a, ORIGIN, g2, b);
      HeadsDetermineLogs(L, g1, a[..|a| - 1], g2, b[..|b| - 1]);
      assert a == a[..|a| - 1] + [a[|a| - 1]] && b == b[..|b| - 1] + [b[|b| - 1]];
    }
    if a == b && g1 == g2 {
      assert Head(L, g1, a) == Head(L, g2, b);
    }
  }

  /** The longer log had reached the other's base, and went on with the same commits. */
  ghost predicate SharesTail(L: Chain, b1: Base, g1: Octets, a: seq<Octets>, b2: Base, g2: Octets, b: seq<Octets>)
    requires |b| <= |a|
  {
    HeadFrom(L, b1, g1, a[..|a| - |b|]) == b2.head && a[|a| - |b|..] == b && (b == [] || g1 == g2)
  }

  lemma TailGrows(L: Chain, b1: Base, g1: Octets, a: seq<Octets>, b2: Base, g2: Octets, b: seq<Octets>)
    requires 0 < |b| <= |a|
    ensures SharesTail(L, b1, g1, a, b2, g2, b)
       <==> SharesTail(L, b1, g1, a[..|a| - 1], b2, g2, b[..|b| - 1]) && a[|a| - 1] == b[|b| - 1] && g1 == g2
  {
    var m, n, k := |a| - 1, |b| - 1, |a| - |b|;
    assert a[..m][..k] == a[..k];
    assert a[k..] == a[..m][k..] + [a[m]] && b == b[..n] + [b[n]];
    if a[k..] == b {
      assert a[..m][k..] == a[k..][..n] && a[m] == a[k..][n];
    }
  }

  /** The same for logs on different bases, compared at the same epoch. */
  lemma {:induction false} HeadsDetermineTails(L: Chain, b1: Base, g1: Octets, a: seq<Octets>, b2: Base, g2: Octets, b: seq<Octets>)
    requires DigestLinks(L) && GoLogFrom(b1, g1, a) && GoLogFrom(b2, g2, b) && |b| <= |a|
    requires b1.epoch + |a| == b2.epoch + |b|
    requires NamesPositions(L, PositionsFrom(L, b1, g1, a) + PositionsFrom(L, b2, g2, b))
    ensures HeadFrom(L, b1, g1, a) == HeadFrom(L, b2, g2, b) <==> SharesTail(L, b1, g1, a, b2, g2, b)
    decreases |b|
  {
    if b == [] {
      assert a[..|a|] == a && a[|a|..] == [];
    } else {
      PrefixNames(L, b1, g1, a, b2, g2, b);
      HeadsDetermineTails(L, b1, g1, a[..|a| - 1], b2, g2, b[..|b| - 1]);
      TailGrows(L, b1, g1, a, b2, g2, b);
      if HeadFrom(L, b1, g1, a) == HeadFrom(L, b2, g2, b) {
        LastAgrees(L, b1, g1, a, b2, g2, b);
      }
    }
  }

  lemma PrefixNames(L: Chain, b1: Base, g1: Octets, a: seq<Octets>, b2: Base, g2: Octets, b: seq<Octets>)
    requires NamesPositions(L, PositionsFrom(L, b1, g1, a) + PositionsFrom(L, b2, g2, b)) && a != [] && b != []
    ensures NamesPositions(L, PositionsFrom(L, b1, g1, a[..|a| - 1]) + PositionsFrom(L, b2, g2, b[..|b| - 1]))
  {
  }

  /** Once two logs of a group have forked, no later commits make their heads agree. */
  lemma ForkNeverHeals(L: Chain, group: Octets, a: seq<Octets>, b: seq<Octets>,
                       x: seq<Octets>, y: seq<Octets>)
    requires DigestLinks(L) && GoLog(group, a + x) && GoLog(group, b + y)
    requires NamesPositions(L, Positions(L, group, a + x) + Positions(L, group, b + y))
    requires !(a <= b) && !(b <= a)
    ensures Head(L, group, a + x) != Head(L, group, b + y)
  {
    HeadsDetermineLogs(L, group, a + x, group, b + y);
    if a + x == b + y {
      PrefixesOfOneLog(a, x, b, y);
    }
  }

  /** The same for SHA-256: equal heads mean equal logs unless two hashed preimages collide. */
  lemma HashedHeadsDetermineLogs(H: Hash, g1: Octets, a: seq<Octets>, g2: Octets, b: seq<Octets>)
    requires Digest(H) && GoLog(g1, a) && GoLog(g2, b)
    requires NoCollisions(H, Positions(ChainOf(H), g1, a) + Positions(ChainOf(H), g2, b))
    ensures Head(ChainOf(H), g1, a) == Head(ChainOf(H), g2, b) <==> a == b && (a == [] || g1 == g2)
  {
    var L := ChainOf(H);
    LinksNamePositions(H, Positions(L, g1, a) + Positions(L, g2, b));
    ChainLinksAreDigests(H);
    HeadsDetermineLogs(L, g1, a, g2, b);
  }

  lemma PrefixesOfOneLog(a: seq<Octets>, x: seq<Octets>, b: seq<Octets>, y: seq<Octets>)
    requires a + x == b + y
    ensures a <= b || b <= a
  {
    if |a| <= |b| {
      assert a == (a + x)[..|a|] == (b + y)[..|a|] == b[..|a|];
    } else {
      assert b == (b + y)[..|b|] == (a + x)[..|b|] == a[..|b|];
    }
  }

  // ------------------------------------------------------------ the hasher code

  /** The incremental hasher: what has been written so far, and its digest. */
  class Sha256 {
    const H: Hash
    var fed: Octets

    constructor (H: Hash)
      ensures this.H == H && fed == []
    {
      this.H := H;
      fed := [];
    }

    method Write(b: Octets)
      modifies this
      ensures fed == old(fed) + b
    {
      fed := fed + b;
    }

    method Sum() returns (d: Octets)
      ensures d == H(fed)
    {
      d := H(fed);
    }

    method WriteField(b: Octets)
      modifies this
      ensures fed == old(fed) + Field(b)
    {
      Write(Uint64Octets(|b|));
      Write(b);
      assert fed == old(fed) + Field(b);
    }
  }

  lemma Concatenated(a: Octets, b: Octets, c: Octets, d: Octets, e: Octets)
    ensures [] + a + b + c + d + e == a + (b + (c + (d + e)))
  {
  }

  /** `mlschain.Link`: feed the fields one by one, then sum. */
  method ComputeLink(H: Hash, prev: Octets, seqNo: Int64, group: Octets, commit: Octets)
    returns (link: Octets)
    ensures link == Link(H, prev, seqNo, group, commit)
  {
    var h := new Sha256(H);
    h.WriteField(SCHEME);
    h.WriteField(prev);
    h.Write(Uint64Octets(seqNo));
    h.WriteField(group);
    h.WriteField(commit);
    Concatenated(Field(SCHEME), Field(prev), Uint64Octets(seqNo), Field(group), Field(commit));
    link := h.Sum();
  }
}
