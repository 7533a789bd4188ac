/**
 One mirror under arbitrary traffic, from whatever group state it was provisioned with.
 Nothing is assumed about who sent what: any batch whose link matches the head that was
 read may be applied later, by any number of interleaved appliers.  Signatures play no
 part here.
 */
module MirrorAppliers {
  import opened Bytes
  import opened OrderingChain
  import opened GroupStore

  /** An applier that verified a link against the head `seen`, read at `seenEpoch`. */
  datatype Applier = Applier(group: Octets, base: Int64, msgs: seq<Msg>, seen: Octets, seenEpoch: Int64)

  /** `linked` holds the positions linked by successful compare-and-sets. */
  datatype Local = Local(group: Group, appliers: set<Applier>, linked: set<Position>)

  datatype Action = Receive(msgs: seq<Msg>) | Apply(applier: Applier)

  ghost predicate Receivable(msgs: seq<Msg>) {
    FirstCommit(msgs).Some? && GoSized(FirstCommit(msgs).value.group) && GoSized(FirstCommit(msgs).value.ciphertext)
  }

  ghost function Step(L: Chain, s: Local, a: Action): Local {
    match a
    case Receive(msgs) =>
      if !Receivable(msgs) then s
      else
        var c := FirstCommit(msgs).value;
        if L(Position(s.group.head, c.epoch, c.group, c.ciphertext)) != c.chainHash then s
        else s.(appliers := s.appliers + {Applier(c.group, Pred(c.epoch), msgs, s.group.head, s.group.epoch)})
    case Apply(t) =>
      if t !in s.appliers || !Admits(s.group, t.group, t.base) then s
      else Local(Advance(L, s.group, t.group, t.base, t.msgs), s.appliers,
                 s.linked + {CasPosition(s.group, t.group, t.base, t.msgs)})
  }

  /** What a provisioning request may set: any group, epoch and head, and no commits yet. */
  ghost predicate Provisioned(start: Group) {
    start.log == [] && 0 <= start.epoch && GoSized(start.id) && GoSized(start.head)
  }

  ghost function Run(L: Chain, start: Group, actions: seq<Action>): Local {
    if actions == [] then Local(start, {}, {})
    else Step(L, Run(L, start, actions[..|actions| - 1]), actions[|actions| - 1])
  }

  ghost function Commits(log: seq<seq<Msg>>): (r: seq<Octets>)
    ensures |r| == |log|
  {
    if log == [] then [] else Commits(log[..|log| - 1]) + [CommitCiphertext(log[|log| - 1])]
  }

  function GroupOf(batch: seq<Msg>): Octets {
    if FirstCommit(batch).Some? then FirstCommit(batch).value.group else []
  }

  function BaseOf(start: Group): Base {
    Base(start.head, start.epoch)
  }

  /** The mirror was provisioned with a named group, or at epoch 0 and its first commit names one. */
  ghost predicate NamedLog(start: Group, log: seq<seq<Msg>>) {
    start.id != [] || (start.epoch == 0 && (log == [] || GroupOf(log[0]) != []))
  }

  ghost predicate EpochFits(start: Group, s: Local) {
    start.epoch + |s.group.log| <= MAX_INT64
  }

  ghost predicate ChainInv(L: Chain, start: Group, s: Local) {
    var c := Commits(s.group.log);
    && s.group.epoch == start.epoch + |c|
    && s.group.head == HeadFrom(L, BaseOf(start), s.group.id, c)
    && s.linked == PositionsFrom(L, BaseOf(start), s.group.id, c)
    && GoLogFrom(BaseOf(start), s.group.id, c)
  }

  ghost predicate Inv(L: Chain, start: Group, s: Local) {
    && ChainInv(L, start, s)
    && (s.group.log == [] ==> s.group.id == start.id)
    && (s.group.log != [] ==> s.group.id != [])
    && forall a :: a in s.appliers ==> ApplierInv(L, start, s.group, a)
  }

  /** The head an applier saw is the mirror's head at the epoch it saw it. */
  ghost predicate ApplierInv(L: Chain, start: Group, g: Group, a: Applier) {
    && Receivable(a.msgs) && a.group == GroupOf(a.msgs)
    && start.epoch <= a.seenEpoch <= start.epoch + |g.log|
    && a.seen == HeadFrom(L, BaseOf(start), g.id, Commits(g.log)[..a.seenEpoch - start.epoch])
  }

  lemma {:induction false} StampedCommits(log: seq<seq<Msg>>, msgs: seq<Msg>, hash: Octets)
    ensures Commits(log + [Stamp(msgs, hash)]) == Commits(log) + [CommitCiphertext(msgs)]
    ensures GroupOf(Stamp(msgs, hash)) == GroupOf(msgs)
  {
    var all := log + [Stamp(msgs, hash)];
    assert all[..|all| - 1] == log;
    FirstCommitOfStamped(msgs, hash);
  }

  /** Before the first commit the group does not matter. */
  lemma HeadOfNothing(L: Chain, base: Base, g: Octets, h: Octets, commits: seq<Octets>)
    requires g == h || commits == []
    ensures HeadFrom(L, base, g, commits) == HeadFrom(L, base, h, commits)
    ensures PositionsFrom(L, base, g, commits) == PositionsFrom(L, base, h, commits)
  {
  }

  /** What an applier is admitted to: the next epoch of this group. */
  lemma AdmittedIsNext(L: Chain, start: Group, s: Local, t: Applier)
    requires Inv(L, start, s) && Admits(s.group, t.group, t.base)
    requires start.id != [] || start.epoch == 0
    ensures t.base == s.group.epoch && (s.group.log != [] ==> t.group == s.group.id)
    ensures start.id != [] ==> t.group == s.group.id
  {
  }

  /** The commit appended by a compare-and-set extends the chain by one link. */
  lemma ApplyExtends(L: Chain, start: Group, s: Local, t: Applier)
    requires ChainInv(L, start, s) && t.base == s.group.epoch < MAX_INT64
    requires s.group.log != [] ==> t.group == s.group.id
    requires GoSized(t.group) && GoSized(CommitCiphertext(t.msgs))
    ensures ChainInv(L, start, Local(Advance(L, s.group, t.group, t.base, t.msgs), s.appliers,
                                     s.linked + {CasPosition(s.group, t.group, t.base, t.msgs)}))
  {
    var u := Advance(L, s.group, t.group, t.base, t.msgs);
    var c := Commits(s.group.log);
    StampedCommits(s.group.log, t.msgs, u.head);
    var d := Commits(u.log);
    assert d == c + [CommitCiphertext(t.msgs)] && d[..|c|] == c;
    HeadOfNothing(L, BaseOf(start), s.group.id, t.group, c);
    assert LastFrom(L, BaseOf(start), t.group, d) == CasPosition(s.group, t.group, t.base, t.msgs);
  }

  lemma ApplierKept(L: Chain, start: Group, g: Group, h: Group, a: Applier)
    requires ApplierInv(L, start, g, a) && Commits(g.log) <= Commits(h.log)
    requires g.id == h.id || g.log == []
    ensures ApplierInv(L, start, h, a)
  {
    var c, d, k := Commits(g.log), Commits(h.log), a.seenEpoch - start.epoch;
    assert d[..k] == c[..k];
    HeadOfNothing(L, BaseOf(start), g.id, h.id, c[..k]);
  }

  lemma ApplyKeeps(L: Chain, start: Group, s: Local, t: Applier)
    requires Inv(L, start, s) && t in s.appliers && Admits(s.group, t.group, t.base)
    requires start.epoch + |s.group.log| < MAX_INT64 && NamedLog(start, Step(L, s, Apply(t)).group.log)
    ensures Inv(L, start, Step(L, s, Apply(t)))
  {
    var u := Step(L, s, Apply(t));
    assert ApplierInv(L, start, s.group, t);
    AdmittedIsNext(L, start, s, t);
    ApplyExtends(L, start, s, t);
    NamedAfter(L, start, s.group, t);
    ApplyKeepsAppliers(L, start, s.group, u.group, t, s.appliers);
  }

  /** The first commit applied names the group, and so the group has a name from then on. */
  lemma NamedAfter(L: Chain, start: Group, g: Group, t: Applier)
    requires (g.log != [] ==> g.id != [] && t.group == g.id) && (g.log == [] ==> g.id == start.id)
    requires start.id != [] ==> t.group == g.id
    requires t.group == GroupOf(t.msgs) && NamedLog(start, Advance(L, g, t.group, t.base, t.msgs).log)
    ensures t.group != []
  {
    StampedCommits(g.log, t.msgs, Advance(L, g, t.group, t.base, t.msgs).head);
  }

  lemma ApplyKeepsAppliers(L: Chain, start: Group, g: Group, h: Group, t: Applier, appliers: set<Applier>)
    requires h == Advance(L, g, t.group, t.base, t.msgs) && (g.id == h.id || g.log == [])
    requires forall a :: a in appliers ==> ApplierInv(L, start, g, a)
    ensures forall a :: a in appliers ==> ApplierInv(L, start, h, a)
  {
    StampedCommits(g.log, t.msgs, h.head);
    forall a | a in appliers ensures ApplierInv(L, start, h, a) {
      ApplierKept(L, start, g, h, a);
    }
  }

  lemma ReceiveKeeps(L: Chain, start: Group, s: Local, msgs: seq<Msg>)
    requires Inv(L, start, s)
    ensures Inv(L, start, Step(L, s, Receive(msgs)))
  {
    var c := Commits(s.group.log);
    assert c[..|c|] == c;
  }

  lemma StepGrows(L: Chain, s: Local, a: Action)
    ensures s.group.log <= Step(L, s, a).group.log
  {
  }

  lemma {:induction false} RunKeeps(L: Chain, start: Group, actions: seq<Action>)
    requires Provisioned(start) && EpochFits(start, Run(L, start, actions))
    requires NamedLog(start, Run(L, start, actions).group.log)
    ensures Inv(L, start, Run(L, start, actions))
  {
    if actions == [] {
      assert Commits([]) == [];
    } else {
      var n := |actions| - 1;
      var s := Run(L, start, actions[..n]);
      StepGrows(L, s, actions[n]);
      RunKeeps(L, start, actions[..n]);
      match actions[n]
      case Receive(msgs) => ReceiveKeeps(L, start, s, msgs);
      case Apply(t) =>
        if t in s.appliers && Admits(s.group, t.group, t.base) {
          ApplyKeeps(L, start, s, t);
        }
    }
  }

  /** No position linked later has the head the mirror was provisioned with for its link. */
  ghost predicate FreshBase(L: Chain, start: Group, linked: set<Position>) {
    forall p :: p in linked ==> L(p) != start.head
  }

  /** The epochs in the run fit, its groups are named, and links name their positions. */
  ghost predicate Assumed(L: Chain, start: Group, s: Local) {
    && Provisioned(start) && EpochFits(start, s) && NamedLog(start, s.group.log)
    && DigestLinks(L) && NamesPositions(L, s.linked) && FreshBase(L, start, s.linked)
  }

  /**
   Whatever arrives, a compare-and-set that is about to succeed acts on the head that was
   verified exactly when the mirror stood, at verification, at the very epoch the commit
   claims as its base.  The code does not check that; an honest hub's links imply it.
   */
  lemma CasActsOnVerifiedHeadExactly(L: Chain, start: Group, actions: seq<Action>, a: Applier)
    requires Assumed(L, start, Run(L, start, actions))
    requires a in Run(L, start, actions).appliers && Admits(Run(L, start, actions).group, a.group, a.base)
    ensures Run(L, start, actions).group.head == a.seen <==> a.seenEpoch == a.base
  {
    RunKeeps(L, start, actions);
    var s := Run(L, start, actions);
    AdmittedIsNext(L, start, s, a);
    assert ApplierInv(L, start, s.group, a);
    HeadOfPrefix(L, BaseOf(start), s.group.id, Commits(s.group.log), a.seenEpoch - start.epoch);
  }

  /** A log never comes back to an earlier head. */
  lemma HeadOfPrefix(L: Chain, base: Base, group: Octets, c: seq<Octets>, k: nat)
    requires k <= |c| && DigestLinks(L) && GoLogFrom(base, group, c)
    requires NamesPositions(L, PositionsFrom(L, base, group, c))
    requires forall p :: p in PositionsFrom(L, base, group, c) ==> L(p) != base.head
    ensures HeadFrom(L, base, group, c) == HeadFrom(L, base, group, c[..k]) <==> k == |c|
  {
    if k == |c| {
      assert c[..k] == c;
    } else if k == 0 {
      assert LastFrom(L, base, group, c) in PositionsFrom(L, base, group, c);
    } else if HeadFrom(L, base, group, c) == HeadFrom(L, base, group, c[..k]) {
      PrefixPositions(L, base, group, c, k);
      LastAgrees(L, base, group, c, base, group, c[..k]);
    }
  }

  lemma {:induction false} PrefixPositions(L: Chain, base: Base, group: Octets, commits: seq<Octets>, k: nat)
    requires k <= |commits|
    ensures PositionsFrom(L, base, group, commits[..k]) <= PositionsFrom(L, base, group, commits)
    decreases |commits|
  {
    if k == |commits| {
      assert commits[..k] == commits;
    } else {
      assert commits[..|commits| - 1][..k] == commits[..k];
      PrefixPositions(L, base, group, commits[..|commits| - 1], k);
    }
  }

  // ------------------------------------------------------------ it is a real condition

  function OneCommit(L: Chain, head: Octets, epoch: Int64): seq<Msg> {
    [Msg(0, [], Commit, epoch, [1], L(Position(head, epoch, [1], [])))]
  }

  /**
   The condition can fail: a batch that claims epoch 2, linked to the empty head of a
   mirror still at epoch 0, passes verification; once commit 1 has been applied it is
   accepted on a head it was never checked against.
   */
  lemma StaleVerificationCanSucceed(L: Chain)
    requires DigestLinks(L)
    ensures exists actions: seq<Action>, a: Applier ::
      && a in Run(L, NO_GROUP, actions).appliers && Admits(Run(L, NO_GROUP, actions).group, a.group, a.base)
      && Run(L, NO_GROUP, actions).group.head != a.seen
  {
    var m1, m2 := OneCommit(L, [], 1), OneCommit(L, [], 2);
    var a1, a2 := Applier([1], 0, m1, [], 0), Applier([1], 1, m2, [], 0);
    var acts := [] + [Receive(m2)] + [Receive(m1)] + [Apply(a1)];
    var s1 := Local(NO_GROUP, {a2}, {});
    var s2 := Local(NO_GROUP, {a2, a1}, {});
    RunOf(L, NO_GROUP, [], Receive(m2));
    RunOf(L, NO_GROUP, [] + [Receive(m2)], Receive(m1));
    RunOf(L, NO_GROUP, [] + [Receive(m2)] + [Receive(m1)], Apply(a1));
    assert Step(L, Local(NO_GROUP, {}, {}), Receive(m2)) == s1;
    assert Step(L, s1, Receive(m1)) == s2;
    var s3 := Step(L, s2, Apply(a1));
    assert a2 in s3.appliers && Admits(s3.group, a2.group, a2.base);
    assert s3.group.head != a2.seen;
    assert Run(L, NO_GROUP, acts) == s3;
  }

  lemma RunOf(L: Chain, start: Group, actions: seq<Action>, a: Action)
    ensures Run(L, start, actions + [a]) == Step(L, Run(L, start, actions), a)
  {
    assert (actions + [a])[..|actions|] == actions;
  }

  // ------------------------------------------------------------------- two mirrors

  /** Assumptions on two runs together. */
  ghost predicate BothAssumed(L: Chain, one: Group, s: Local, two: Group, t: Local) {
    && Assumed(L, one, s) && Assumed(L, two, t) && NamesPositions(L, s.linked + t.linked)
  }

  /**
   Two mirrors provisioned at any two epochs, compared at the same epoch: their heads are
   equal exactly if the earlier one had the other's head at the epoch the other started at
   and both applied the same commits since, whatever they were sent.
   */
  lemma HeadsAreTamperEvident(L: Chain, one: Group, first: seq<Action>, two: Group, second: seq<Action>)
    requires BothAssumed(L, one, Run(L, one, first), two, Run(L, two, second)) && one.epoch <= two.epoch
    requires Run(L, one, first).group.epoch == Run(L, two, second).group.epoch
    ensures var g, h := Run(L, one, first).group, Run(L, two, second).group;
      && |h.log| <= |g.log|
      && (g.head == h.head
          <==> SharesTail(L, BaseOf(one), g.id, Commits(g.log), BaseOf(two), h.id, Commits(h.log)))
  {
    RunKeeps(L, one, first);
    RunKeeps(L, two, second);
    var g, h := Run(L, one, first).group, Run(L, two, second).group;
    HeadsDetermineTails(L, BaseOf(one), g.id, Commits(g.log), BaseOf(two), h.id, Commits(h.log));
  }

  /** Provisioned alike, they need not even be at the same epoch. */
  lemma AlikeProvisionedHeads(L: Chain, start: Group, first: seq<Action>, second: seq<Action>)
    requires BothAssumed(L, start, Run(L, start, first), start, Run(L, start, second))
    ensures var g, h := Run(L, start, first).group, Run(L, start, second).group;
      g.head == h.head <==> g.id == h.id && Commits(g.log) == Commits(h.log)
  {
    RunKeeps(L, start, first);
    RunKeeps(L, start, second);
    var g, h := Run(L, start, first).group, Run(L, start, second).group;
    HeadsOnOneBase(L, BaseOf(start), g.id, Commits(g.log), h.id, Commits(h.log));
  }

  lemma HeadsOnOneBase(L: Chain, base: Base, g: Octets, c: seq<Octets>, h: Octets, d: seq<Octets>)
    requires DigestLinks(L) && GoLogFrom(base, g, c) && GoLogFrom(base, h, d)
    requires NamesPositions(L, PositionsFrom(L, base, g, c) + PositionsFrom(L, base, h, d))
    requires forall p :: p in PositionsFrom(L, base, g, c) + PositionsFrom(L, base, h, d) ==> L(p) != base.head
    ensures HeadFrom(L, base, g, c) == HeadFrom(L, base, h, d) <==> c == d && (c == [] || g == h)
  {
    assert c != [] ==> LastFrom(L, base, g, c) in PositionsFrom(L, base, g, c);
    assert d != [] ==> LastFrom(L, base, h, d) in PositionsFrom(L, base, h, d);
    if HeadFrom(L, base, g, c) == HeadFrom(L, base, h, d) && c != [] && d != [] {
      LastAgrees(L, base, g, c, base, h, d);
      HeadsDetermineTails(L, base, g, c, base, h, d);
      assert c[0..] == c;
    }
  }
}
