/** What the federated order guarantees, over every run. */
module FederatedOrderTheorems {
  import opened Bytes
  import opened OrderingChain
  import opened GroupStore
  import opened FederatedOrder
  import opened FederatedOrderProof
  import MlsWire

  ghost function CommitOf(batch: seq<Msg>): Octets {
    if batch == [] then [] else batch[|batch| - 1].ciphertext
  }

  /** The hub's first `k` commits, oldest first. */
  ghost function CommitsOf(log: seq<seq<Msg>>, k: nat): (r: seq<Octets>)
    requires k <= |log|
    ensures |r| == k
  {
    if k == 0 then [] else CommitsOf(log, k - 1) + [CommitOf(log[k - 1])]
  }

  /** The heads the hub signs are the chain over its commits. */
  lemma {:induction false} HubHeadIsChain(L: Chain, hub: Group, hashed: set<Position>, k: nat)
    requires HubOrdered(L, hub, hashed) && k <= |hub.log|
    ensures HeadAt(hub.log, k) == Head(L, hub.id, CommitsOf(hub.log, k))
  {
    if k > 0 {
      HubHeadIsChain(L, hub, hashed, k - 1);
      assert BatchOrdered(L, hub, hashed, k - 1);
      var c := CommitsOf(hub.log, k);
      assert c[..k - 1] == CommitsOf(hub.log, k - 1);
      assert LastFrom(L, ORIGIN, hub.id, c) == Position(HeadAt(hub.log, k - 1), k, hub.id, CommitOf(hub.log[k - 1]));
    }
  }

  /**
   The mirror holds the hub's consecutive commits from its provisioning epoch to its own, and
   its head is the chain over the hub's commits up to there.
   */
  ghost predicate MirrorsTheHub(L: Chain, tampering: bool, hub: Group, m: Mirror) {
    && m.start <= m.group.epoch <= |hub.log|
    && |m.group.log| == m.group.epoch - m.start
    && (forall i :: 0 <= i < |m.group.log| ==> Carries(tampering, m.group.log[i], hub.log[m.start + i]))
    && m.group.head == Head(L, hub.id, CommitsOf(hub.log, m.group.epoch))
  }

  lemma FollowersMirror(L: Chain, tampering: bool, hub: Group, hashed: set<Position>, m: Mirror)
    requires HubOrdered(L, hub, hashed) && Follows(tampering, hub, m)
    ensures MirrorsTheHub(L, tampering, hub, m)
  {
    HubHeadIsChain(L, hub, hashed, m.group.epoch);
  }

  lemma HashAssumed(H: Hash, s: World)
    requires Digest(H) && Settled(s) && NoCollisions(H, s.hashed)
    ensures Assumed(ChainOf(H), s)
  {
    ChainLinksAreDigests(H);
    LinksNamePositions(H, s.hashed);
  }

  /** However relays are lost, delayed, duplicated, reordered or (with `tampering`) forged. */
  lemma EveryMirrorFollowsTheHub(H: Hash, cfg: Config, actions: seq<Action>, h: Host)
    requires Digest(H) && Settled(Run(ChainOf(H), cfg, actions))
    requires NoCollisions(H, Run(ChainOf(H), cfg, actions).hashed) && h in Run(ChainOf(H), cfg, actions).mirrors
    ensures var s := Run(ChainOf(H), cfg, actions); MirrorsTheHub(ChainOf(H), cfg.tampering, s.hub, s.mirrors[h])
  {
    var s := Run(ChainOf(H), cfg, actions);
    HashAssumed(H, s);
    RunKeeps(ChainOf(H), cfg, actions);
    FollowersMirror(ChainOf(H), cfg.tampering, s.hub, s.hashed, s.mirrors[h]);
  }

  ghost predicate Applied(s: World, h: Host, epoch: nat) {
    h in s.mirrors && s.mirrors[h].start <= epoch < s.mirrors[h].group.epoch
  }

  /** Both mirrors hold the same batch for the commit built on `epoch`. */
  ghost predicate SameBatch(a: Mirror, b: Mirror, epoch: nat) {
    && 0 <= epoch - a.start < |a.group.log| && 0 <= epoch - b.start < |b.group.log|
    && a.group.log[epoch - a.start] == b.group.log[epoch - b.start]
  }

  /** Untampered, what two mirrors both applied is the same, message for message. */
  lemma MirrorsAgree(L: Chain, cfg: Config, actions: seq<Action>, g: Host, h: Host, epoch: nat)
    requires Assumed(L, Run(L, cfg, actions)) && !cfg.tampering
    requires Applied(Run(L, cfg, actions), g, epoch) && Applied(Run(L, cfg, actions), h, epoch)
    ensures SameBatch(Run(L, cfg, actions).mirrors[g], Run(L, cfg, actions).mirrors[h], epoch)
  {
    RunKeeps(L, cfg, actions);
    FollowersAgree(Run(L, cfg, actions), g, h, epoch);
  }

  lemma FollowersAgree(s: World, g: Host, h: Host, epoch: nat)
    requires Applied(s, g, epoch) && Follows(false, s.hub, s.mirrors[g])
    requires Applied(s, h, epoch) && Follows(false, s.hub, s.mirrors[h])
    ensures SameBatch(s.mirrors[g], s.mirrors[h], epoch)
  {
    MirrorEntry(s.hub, s.mirrors[g], epoch);
    MirrorEntry(s.hub, s.mirrors[h], epoch);
  }

  lemma MirrorEntry(hub: Group, m: Mirror, epoch: nat)
    requires Follows(false, hub, m) && m.start <= epoch < m.group.epoch
    ensures epoch - m.start < |m.group.log| && m.group.log[epoch - m.start] == hub.log[epoch]
  {
    assert Carries(false, m.group.log[epoch - m.start], hub.log[m.start + (epoch - m.start)]);
  }

  /** For the commit built on `epoch` both mirrors hold the same epoch, group, ciphertext and link. */
  ghost predicate SameCommit(a: Mirror, b: Mirror, epoch: nat) {
    && 0 <= epoch - a.start < |a.group.log| && 0 <= epoch - b.start < |b.group.log|
    && var c, d := FirstCommit(a.group.log[epoch - a.start]), FirstCommit(b.group.log[epoch - b.start]);
      && c.Some? && d.Some?
      && c.value.epoch == d.value.epoch == epoch + 1 && c.value.group == d.value.group
      && c.value.ciphertext == d.value.ciphertext && c.value.chainHash == d.value.chainHash
  }

  /** Forged relays included, two mirrors never hold different commits for an epoch. */
  lemma MirrorsAgreeOnCommits(L: Chain, cfg: Config, actions: seq<Action>, g: Host, h: Host, epoch: nat)
    requires Assumed(L, Run(L, cfg, actions))
    requires Applied(Run(L, cfg, actions), g, epoch) && Applied(Run(L, cfg, actions), h, epoch)
    ensures SameCommit(Run(L, cfg, actions).mirrors[g], Run(L, cfg, actions).mirrors[h], epoch)
  {
    RunKeeps(L, cfg, actions);
    var s := Run(L, cfg, actions);
    MirrorCommit(L, cfg.tampering, s.hub, s.hashed, s.mirrors[g], epoch);
    MirrorCommit(L, cfg.tampering, s.hub, s.hashed, s.mirrors[h], epoch);
  }

  lemma MirrorCommit(L: Chain, tampering: bool, hub: Group, hashed: set<Position>, m: Mirror, epoch: nat)
    requires HubOrdered(L, hub, hashed) && Follows(tampering, hub, m) && m.start <= epoch < m.group.epoch
    ensures epoch - m.start < |m.group.log| && hub.log[epoch] != [] && FirstCommit(m.group.log[epoch - m.start]).Some?
    ensures var c, d := FirstCommit(m.group.log[epoch - m.start]).value, hub.log[epoch][|hub.log[epoch]| - 1];
      c.epoch == d.epoch == epoch + 1 && c.group == d.group && c.ciphertext == d.ciphertext && c.chainHash == d.chainHash
  {
    HubCommitAt(L, hub, hashed, epoch);
    assert Carries(tampering, m.group.log[epoch - m.start], hub.log[m.start + (epoch - m.start)]);
  }

  ghost predicate Announced(s: World, b: seq<Msg>) {
    b in s.published || Waiting(s.pending, b)
  }

  ghost predicate OneCommitPerEpoch(L: Chain, hub: Group) {
    hub.epoch == |hub.log| && forall k :: 0 <= k < |hub.log| ==> OneCommitFor(L, hub, k)
  }

  /**
   Once its first commit names a group, the hub accepts exactly one commit per epoch, each
   built on its predecessor's epoch and linked to its predecessor.  Everything accepted is
   announced, and of what is announced or on the wire the commits the hub accepted are
   exactly the batches with a link.  Only the size of a digest is assumed of the hash.
   */
  lemma HubOrdersOneCommitPerEpoch(L: Chain, cfg: Config, actions: seq<Action>)
    requires Settled(Run(L, cfg, actions)) && DigestLinks(L)
    ensures var s := Run(L, cfg, actions);
      && OneCommitPerEpoch(L, s.hub)
      && (forall b :: b in s.hub.log ==> Announced(s, b))
      && (forall b :: Announced(s, b) ==> (b in s.hub.log <==> !Plain(b)))
      && (!cfg.tampering ==> forall e :: e in s.net ==> (FromHub(cfg, s.hub, e) <==> !Plain(FromWire(e.batch))))
  {
    RunKeepsHub(L, cfg, actions);
    var s := Run(L, cfg, actions);
    HubInOrder(L, s.hub, s.hashed);
    forall b | b in s.hub.log ensures !Plain(b) {
      var k :| 0 <= k < |s.hub.log| && s.hub.log[k] == b;
      AcceptedHasLink(L, s.hub, s.hashed, k);
    }
    forall b | Announced(s, b) ensures b in s.hub.log || Plain(b) {
      if Waiting(s.pending, b) {
        var p :| p in s.pending && p.batch == b;
      }
    }
    forall e | e in s.net && FromHub(cfg, s.hub, e) ensures !Plain(FromWire(e.batch)) {
      var k :| 0 <= k < |s.hub.log| && e.batch == ToWire(cfg, s.hub.log[k]);
      AcceptedHasLink(L, s.hub, s.hashed, k);
      FromToWire(cfg, s.hub.log[k]);
    }
    assert !cfg.tampering ==> forall e :: e in s.net ==> EnvelopeSound(cfg, s.hub, e);
  }

  lemma HubInOrder(L: Chain, hub: Group, hashed: set<Position>)
    requires HubOrdered(L, hub, hashed)
    ensures OneCommitPerEpoch(L, hub)
  {
    forall k | 0 <= k < |hub.log| ensures OneCommitFor(L, hub, k) {
      assert BatchOrdered(L, hub, hashed, k);
    }
  }

  lemma AcceptedHasLink(L: Chain, hub: Group, hashed: set<Position>, k: nat)
    requires HubOrdered(L, hub, hashed) && DigestLinks(L) && k < |hub.log|
    ensures !Plain(hub.log[k])
  {
    assert BatchOrdered(L, hub, hashed, k);
    var b := hub.log[k];
    assert |b[|b| - 1].chainHash| == 32;
  }

  /** Batch `k` holds one commit: it yields epoch k + 1 and extends the head of epoch k. */
  ghost predicate OneCommitFor(L: Chain, hub: Group, k: nat)
    requires k < |hub.log|
  {
    exists i :: 0 <= i < |hub.log[k]|
      && (forall j :: 0 <= j < |hub.log[k]| ==> (hub.log[k][j].kind.Commit? <==> j == i))
      && hub.log[k][i].epoch == k + 1 && hub.log[k][i].group == hub.id
      && hub.log[k][i].chainHash == L(Position(HeadAt(hub.log, k), k + 1, hub.id, hub.log[k][i].ciphertext))
  }

  /** However appliers interleave, a compare-and-set that succeeds acts on the head that was verified. */
  lemma CompareAndSetActsOnVerifiedHead(L: Chain, cfg: Config, actions: seq<Action>, a: Applier)
    requires Assumed(L, Run(L, cfg, actions))
    requires var s := Run(L, cfg, actions);
      a in s.appliers && a.host in s.mirrors && Admits(s.mirrors[a.host].group, a.group, a.base)
    ensures var m := Run(L, cfg, actions).mirrors[a.host].group;
      m.head == a.seen && m.epoch == a.base
  {
    RunKeeps(L, cfg, actions);
    CasOnVerifiedHead(L, cfg, Run(L, cfg, actions), a);
  }

  // ------------------------------------------------- commits cannot lie about epochs

  /** If the commit at epoch `k` can be read, it is a commit and was built on epoch `k`. */
  ghost predicate EpochTrue(batch: seq<Msg>, k: nat) {
    match MlsWire.Parse(CommitOf(batch))
    case Got(h, _) => h.contentType == MlsWire.CONTENT_TYPE_COMMIT && h.epoch == k
    case Fail(_) => true
  }

  ghost predicate EpochsTrue(log: seq<seq<Msg>>) {
    forall k :: 0 <= k < |log| ==> EpochTrue(log[k], k)
  }

  lemma BatchEpochTrueExactly(req: Request, hash: Octets)
    requires req.baseEpoch >= 0
    ensures EpochTrue(Stamp(BatchOf(req), hash), req.baseEpoch) <==> EpochBacked(req)
  {
    BatchShape(req, hash);
    assert CommitOf(Stamp(BatchOf(req), hash)) == req.commit;
  }

  /** The step is a commit the hub accepts. */
  ghost predicate Accepts(cfg: Config, s: World, a: Action) {
    (a.HubPost? || a.HubSubmit?) && Enabled(cfg, s, a) && Admits(s.hub, a.req.group, a.req.baseEpoch)
  }

  /** A forwarded commit that the hub accepts. */
  ghost predicate AcceptsForwarded(cfg: Config, s: World, a: Action) {
    && a.HubSubmit? && GoRequest(a.req) && (a.req.sender, a.from) in cfg.homes
    && Admits(s.hub, a.req.group, a.req.baseEpoch)
  }

  /** If it is one, its framing backs the epoch it declares. */
  ghost predicate Backed(cfg: Config, s: World, a: Action) {
    AcceptsForwarded(cfg, s, a) ==> EpochBacked(a.req)
  }

  /** The commits that were forwarded and accepted in a run, oldest first. */
  ghost function AcceptedForwards(L: Chain, cfg: Config, actions: seq<Action>): seq<Request> {
    if actions == [] then []
    else
      var n := |actions| - 1;
      AcceptedForwards(L, cfg, actions[..n])
      + if AcceptsForwarded(cfg, Run(L, cfg, actions[..n]), actions[n]) then [actions[n].req] else []
  }

  ghost predicate AllBacked(reqs: seq<Request>) {
    forall req :: req in reqs ==> EpochBacked(req)
  }

  lemma AllBackedConcat(a: seq<Request>, b: seq<Request>)
    ensures AllBacked(a + b) <==> AllBacked(a) && AllBacked(b)
  {
  }

  /**
   The hub's order is the order its commits claim, if and only if every forwarded commit that
   was accepted would have passed the check that only the local handler makes.
   */
  lemma {:induction false} ReadableCommitsCarryTheirEpochExactly(L: Chain, cfg: Config, actions: seq<Action>)
    requires Settled(Run(L, cfg, actions))
    ensures EpochsTrue(Run(L, cfg, actions).hub.log) <==> AllBacked(AcceptedForwards(L, cfg, actions))
  {
    if actions != [] {
      LastStepKeepsEpochsTrueExactly(L, cfg, actions);
      ReadableCommitsCarryTheirEpochExactly(L, cfg, actions[..|actions| - 1]);
    }
  }

  lemma LastStepKeepsEpochsTrueExactly(L: Chain, cfg: Config, actions: seq<Action>)
    requires actions != [] && Settled(Run(L, cfg, actions))
    ensures var before := actions[..|actions| - 1];
      && Settled(Run(L, cfg, before))
      && (EpochsTrue(Run(L, cfg, actions).hub.log)
          <==> EpochsTrue(Run(L, cfg, before).hub.log) && Backed(cfg, Run(L, cfg, before), actions[|actions| - 1]))
      && (AllBacked(AcceptedForwards(L, cfg, actions))
          <==> AllBacked(AcceptedForwards(L, cfg, before)) && Backed(cfg, Run(L, cfg, before), actions[|actions| - 1]))
  {
    var n := |actions| - 1;
    var s, a := Run(L, cfg, actions[..n]), actions[n];
    StepGrows(L, cfg, s, a);
    RunKeepsHub(L, cfg, actions[..n]);
    StepKeepsEpochsTrueExactly(L, cfg, s, a);
    AllBackedConcat(AcceptedForwards(L, cfg, actions[..n]), if AcceptsForwarded(cfg, s, a) then [a.req] else []);
  }

  lemma StepKeepsEpochsTrueExactly(L: Chain, cfg: Config, s: World, a: Action)
    requires HubOrdered(L, s.hub, s.hashed) && Settled(Step(L, cfg, s, a))
    ensures EpochsTrue(Step(L, cfg, s, a).hub.log)
      <==> EpochsTrue(s.hub.log) && Backed(cfg, s, a)
  {
    if Accepts(cfg, s, a) {
      var from := if a.HubPost? then None else Some(a.from);
      CommitIsTheStep(L, cfg, s, a, from);
      CommitKeepsEpochsTrueExactly(L, cfg, s, a.req, from);
    } else {
      OtherStepsKeepTheLog(L, cfg, s, a);
    }
  }

  lemma CommitIsTheStep(L: Chain, cfg: Config, s: World, a: Action, from: Option<Host>)
    requires Enabled(cfg, s, a)
    requires (a.HubPost? && from == None) || (a.HubSubmit? && from == Some(a.from))
    ensures Step(L, cfg, s, a) == HubCommit(L, cfg, s, a.req, from)
  {
  }

  lemma OtherStepsKeepTheLog(L: Chain, cfg: Config, s: World, a: Action)
    requires !Accepts(cfg, s, a)
    ensures Step(L, cfg, s, a).hub == s.hub
  {
  }

  lemma CommitKeepsEpochsTrueExactly(L: Chain, cfg: Config, s: World, req: Request, from: Option<Host>)
    requires HubOrdered(L, s.hub, s.hashed) && GoRequest(req)
    requires Settled(HubCommit(L, cfg, s, req, from)) && Admits(s.hub, req.group, req.baseEpoch)
    ensures EpochsTrue(HubCommit(L, cfg, s, req, from).hub.log) <==> EpochsTrue(s.hub.log) && EpochBacked(req)
  {
    var t := HubCommit(L, cfg, s, req, from);
    if s.hub.log == [] {
      FirstIsNamed(L, cfg, s, req, from);
    }
    HubAdvances(L, s, req);
    BatchEpochTrueExactly(req, t.hub.head);
    assert t.hub.log == s.hub.log + [Stamp(BatchOf(req), t.hub.head)];
    assert EpochTrue(t.hub.log[req.baseEpoch], req.baseEpoch) <==> EpochBacked(req);
    forall k | 0 <= k < |s.hub.log| ensures t.hub.log[k] == s.hub.log[k] {
    }
  }

  // ------------------------------------------------------------ a relay that is lost

  /** The step brings commit `epoch` to mirror `h`. */
  ghost predicate Brings(a: Action, h: Host, epoch: int) {
    match a
    case Deliver(e) => e.to == h && FirstCommitWire(e.batch).Some?
                       && FirstCommitWire(e.batch).value.msg.epoch == epoch
    case ReceiveReply(r) => r.to == h && Succ(r.req.baseEpoch) == epoch
    case _ => false
  }

  /** Mirror `h` stands at `m`, and no applier holds its next commit. */
  ghost predicate StuckAt(s: World, h: Host, m: Mirror) {
    && h in s.mirrors && s.mirrors[h] == m
    && forall a :: a in s.appliers && a.host == h ==> a.base != m.group.epoch
  }

  lemma StuckDoesNotAdvance(L: Chain, cfg: Config, s: World, a: Applier, h: Host, m: Mirror)
    requires StuckAt(s, h, m) && Inv(L, cfg, s) && a in s.appliers && a.host == h
    ensures !Admits(m.group, a.group, a.base)
  {
    assert Follows(cfg.tampering, s.hub, m);
  }

  lemma VerifyStaysStuck(L: Chain, cfg: Config, s: World, e: Envelope, h: Host, m: Mirror)
    requires StuckAt(s, h, m) && 0 <= m.group.epoch < MAX_INT64 && e.to in s.mirrors
    requires !Brings(Deliver(e), h, m.group.epoch + 1)
    ensures StuckAt(Verify(L, cfg, s, e), h, m)
  {
  }

  lemma VerifyReplyStaysStuck(L: Chain, cfg: Config, s: World, r: Reply, h: Host, m: Mirror)
    requires StuckAt(s, h, m) && 0 <= m.group.epoch < MAX_INT64 && r.to in s.mirrors
    requires !Brings(ReceiveReply(r), h, m.group.epoch + 1)
    ensures StuckAt(VerifyReply(L, cfg, s, r), h, m)
  {
  }

  lemma OtherStepsStayStuck(L: Chain, cfg: Config, s: World, a: Action, h: Host, m: Mirror)
    requires StuckAt(s, h, m) && !a.Deliver? && !a.ReceiveReply? && !a.CompareAndSet?
    ensures StuckAt(Step(L, cfg, s, a), h, m)
  {
  }

  lemma CasStaysStuck(L: Chain, cfg: Config, s: World, t: Applier, h: Host, m: Mirror)
    requires StuckAt(s, h, m) && Inv(L, cfg, s) && t in s.appliers && t.host in s.mirrors
    ensures StuckAt(MirrorCas(L, s, t), h, m)
  {
    if t.host == h {
      StuckDoesNotAdvance(L, cfg, s, t, h, m);
    }
  }

  lemma StepStaysStuck(L: Chain, cfg: Config, s: World, a: Action, h: Host, m: Mirror)
    requires StuckAt(s, h, m) && Inv(L, cfg, s) && m.group.epoch < MAX_INT64
    requires !Brings(a, h, m.group.epoch + 1)
    ensures StuckAt(Step(L, cfg, s, a), h, m)
  {
    assert 0 <= m.group.epoch by {
      assert Follows(cfg.tampering, s.hub, m);
    }
    if Enabled(cfg, s, a) {
      match a
      case Deliver(e) => VerifyStaysStuck(L, cfg, s, e, h, m);
      case ReceiveReply(r) => VerifyReplyStaysStuck(L, cfg, s, r, h, m);
      case CompareAndSet(t) => CasStaysStuck(L, cfg, s, t, h, m);
      case _ => OtherStepsStayStuck(L, cfg, s, a, h, m);
    }
  }

  /**
   A mirror whose next commit never reaches it never moves again: no later relay, however
   many there are, takes it past the gap.
   */
  lemma {:induction false} MissedCommitFreezesTheMirror(
    L: Chain, cfg: Config, before: seq<Action>, after: seq<Action>, h: Host, m: Mirror)
    requires Assumed(L, Run(L, cfg, before + after)) && m.group.epoch < MAX_INT64
    requires StuckAt(Run(L, cfg, before), h, m)
    requires forall i :: 0 <= i < |after| ==> !Brings(after[i], h, m.group.epoch + 1)
    ensures StuckAt(Run(L, cfg, before + after), h, m)
    decreases |after|
  {
    if after == [] {
      assert before + after == before;
    } else {
      var n := |after| - 1;
      var all := before + after;
      assert all[..|all| - 1] == before + after[..n];
      StepGrows(L, cfg, Run(L, cfg, before + after[..n]), after[n]);
      MissedCommitFreezesTheMirror(L, cfg, before, after[..n], h, m);
      RunKeeps(L, cfg, before + after[..n]);
      StepStaysStuck(L, cfg, Run(L, cfg, before + after[..n]), after[n], h, m);
    }
  }

  // ------------------------------------------------------- relays that do arrive

  /** What an applier does with the relay of the hub's commit after epoch `k`. */
  ghost function RelayOf(cfg: Config, hub: Group, h: Host, k: int): Envelope
    requires 0 <= k < |hub.log|
  {
    Envelope(h, ToWire(cfg, hub.log[k]))
  }

  lemma FirstWireOfHubBatch(L: Chain, cfg: Config, hub: Group, hashed: set<Position>, k: nat)
    requires HubOrdered(L, hub, hashed) && k < |hub.log| && cfg.hubSigns && DigestLinks(L)
    ensures var b := hub.log[k];
      && b != []
      && FirstCommitWire(ToWire(cfg, b)) == Some(Wire(b[|b| - 1], Signed(cfg.hub, b[|b| - 1].chainHash)))
  {
    var b := hub.log[k];
    assert BatchOrdered(L, hub, hashed, k);
    var w := ToWire(cfg, b);
    if |b| == 2 {
      assert w[1..] == [w[1]];
    }
  }

  /** The applier that the hub's relay of mirror `h`'s next commit starts. */
  ghost function NextApplier(hub: Group, h: Host, m: Mirror): Applier
    requires 0 <= m.group.epoch < |hub.log|
  {
    Applier(h, hub.id, m.group.epoch, hub.log[m.group.epoch], m.group.head)
  }

  lemma NextRelayVerifies(L: Chain, cfg: Config, s: World, h: Host)
    requires HubOrdered(L, s.hub, s.hashed) && DigestLinks(L) && cfg.hubSigns
    requires h in s.mirrors && 0 <= s.mirrors[h].group.epoch < |s.hub.log|
    requires s.mirrors[h].group.head == HeadAt(s.hub.log, s.mirrors[h].group.epoch)
    ensures Verify(L, cfg, s, RelayOf(cfg, s.hub, h, s.mirrors[h].group.epoch))
         == s.(appliers := s.appliers + {NextApplier(s.hub, h, s.mirrors[h])})
  {
    var c := NextRelayChecks(L, cfg, s.hub, s.hashed, s.mirrors[h].group.epoch);
    NextRelayStarts(L, cfg, s, h, c);
  }

  lemma NextRelayStarts(L: Chain, cfg: Config, s: World, h: Host, c: Wire)
    requires h in s.mirrors && 0 <= s.mirrors[h].group.epoch < |s.hub.log|
    requires var k := s.mirrors[h].group.epoch;
      FirstCommitWire(ToWire(cfg, s.hub.log[k])) == Some(c) && c.msg.epoch == k + 1 && c.msg.group == s.hub.id
    requires Checked(L, s.hashed, s.mirrors[h].group.head, c.msg) && SignatureAccepted(cfg, c.msg.chainHash, c.sig)
    ensures Verify(L, cfg, s, RelayOf(cfg, s.hub, h, s.mirrors[h].group.epoch))
         == s.(appliers := s.appliers + {NextApplier(s.hub, h, s.mirrors[h])})
  {
    var batch := s.hub.log[s.mirrors[h].group.epoch];
    FromToWire(cfg, batch);
    VerifySucceeds(L, cfg, s, h, ToWire(cfg, batch), c);
  }

  lemma FromToWire(cfg: Config, msgs: seq<Msg>)
    ensures FromWire(ToWire(cfg, msgs)) == msgs
  {
  }

  lemma StepDelivers(L: Chain, cfg: Config, s: World, e: Envelope)
    requires e in s.net && e.to in s.mirrors
    ensures Step(L, cfg, s, Deliver(e)) == Verify(L, cfg, s, e)
  {
  }

  lemma StepApplies(L: Chain, cfg: Config, s: World, a: Applier)
    requires a in s.appliers && a.host in s.mirrors
    ensures Step(L, cfg, s, CompareAndSet(a)) == MirrorCas(L, s, a)
  {
  }

  lemma VerifySucceeds(L: Chain, cfg: Config, s: World, h: Host, batch: seq<Wire>, c: Wire)
    requires h in s.mirrors && FirstCommitWire(batch) == Some(c)
    requires Checked(L, s.hashed, s.mirrors[h].group.head, c.msg) && SignatureAccepted(cfg, c.msg.chainHash, c.sig)
    ensures Verify(L, cfg, s, Envelope(h, batch)) == s.(appliers := s.appliers
      + {Applier(h, c.msg.group, Pred(c.msg.epoch), FromWire(batch), s.mirrors[h].group.head)})
  {
    assert s.hashed + {Position(s.mirrors[h].group.head, c.msg.epoch, c.msg.group, c.msg.ciphertext)} == s.hashed;
  }

  lemma NextRelayChecks(L: Chain, cfg: Config, hub: Group, hashed: set<Position>, k: nat) returns (c: Wire)
    requires HubOrdered(L, hub, hashed) && k < |hub.log| && cfg.hubSigns && DigestLinks(L)
    ensures FirstCommitWire(ToWire(cfg, hub.log[k])) == Some(c) && c.msg.epoch == k + 1 && c.msg.group == hub.id
    ensures Checked(L, hashed, HeadAt(hub.log, k), c.msg) && SignatureAccepted(cfg, c.msg.chainHash, c.sig)
  {
    var b := hub.log[k];
    FirstWireOfHubBatch(L, cfg, hub, hashed, k);
    assert BatchOrdered(L, hub, hashed, k);
    c := Wire(b[|b| - 1], Signed(cfg.hub, b[|b| - 1].chainHash));
  }

  lemma NextApplierAdvances(L: Chain, cfg: Config, s: World, h: Host)
    requires HubOrdered(L, s.hub, s.hashed)
    requires h in s.mirrors && Follows(cfg.tampering, s.hub, s.mirrors[h])
    requires 0 <= s.mirrors[h].group.epoch < |s.hub.log|
    ensures var t := MirrorCas(L, s, NextApplier(s.hub, h, s.mirrors[h]));
      && t.hub == s.hub && t.net == s.net && t.hashed == s.hashed
      && h in t.mirrors && t.mirrors[h].group.epoch == s.mirrors[h].group.epoch + 1
  {
    var m := s.mirrors[h];
    var a := NextApplier(s.hub, h, m);
    assert BatchOrdered(L, s.hub, s.hashed, a.base);
    HubBatchCommit(L, s.hub, s.hashed, a.base);
    assert CasPosition(m.group, a.group, a.base, a.msgs) in s.hashed;
  }

  /** Delivered in its turn, the hub's next commit takes a mirror to the next epoch. */
  lemma NextRelayAdvances(L: Chain, cfg: Config, s: World, h: Host) returns (deliver: Action, apply: Action)
    requires Inv(L, cfg, s) && Assumed(L, s) && cfg.hubSigns
    requires h in s.mirrors && 0 <= s.mirrors[h].group.epoch < |s.hub.log|
    requires RelayOf(cfg, s.hub, h, s.mirrors[h].group.epoch) in s.net
    ensures var t := Step(L, cfg, Step(L, cfg, s, deliver), apply);
      && t.hub == s.hub && t.net == s.net && t.hashed == s.hashed
      && h in t.mirrors && t.mirrors[h].group.epoch == s.mirrors[h].group.epoch + 1
  {
    var a := NextApplier(s.hub, h, s.mirrors[h]);
    deliver := Deliver(RelayOf(cfg, s.hub, h, s.mirrors[h].group.epoch));
    apply := CompareAndSet(a);
    assert Follows(cfg.tampering, s.hub, s.mirrors[h]);
    NextRelayVerifies(L, cfg, s, h);
    var t := s.(appliers := s.appliers + {a});
    StepDelivers(L, cfg, s, deliver.envelope);
    NextApplierAdvances(L, cfg, t, h);
    StepApplies(L, cfg, t, a);
  }

  lemma RunTwo(L: Chain, cfg: Config, actions: seq<Action>, a: Action, b: Action)
    ensures Run(L, cfg, actions + [a, b]) == Step(L, cfg, Step(L, cfg, Run(L, cfg, actions), a), b)
  {
    var all := actions + [a, b];
    assert all[..|all| - 1] == actions + [a];
    assert (actions + [a])[..|actions|] == actions;
  }

  /** Every relay that mirror `h` still needs is on the network. */
  ghost predicate RelaysInFlight(cfg: Config, s: World, h: Host)
    requires h in s.mirrors
  {
    forall k :: 0 <= k < |s.hub.log| && s.mirrors[h].group.epoch <= k ==> RelayOf(cfg, s.hub, h, k) in s.net
  }

  lemma StillInFlight(cfg: Config, s: World, t: World, h: Host)
    requires h in s.mirrors && h in t.mirrors && RelaysInFlight(cfg, s, h)
    requires t.hub == s.hub && t.net == s.net && s.mirrors[h].group.epoch <= t.mirrors[h].group.epoch
    ensures RelaysInFlight(cfg, t, h)
  {
  }

  ghost predicate CanCatchUp(L: Chain, cfg: Config, s: World, h: Host) {
    && Assumed(L, s) && cfg.hubSigns
    && h in s.mirrors && RelaysInFlight(cfg, s, h)
  }

  /** The hub has not moved and the mirror is level with it. */
  ghost predicate Level(s: World, t: World, h: Host) {
    && t.hub == s.hub && h in t.mirrors
    && t.mirrors[h].group.epoch == t.hub.epoch && t.mirrors[h].group.head == t.hub.head
  }

  lemma CatchUpStep(L: Chain, cfg: Config, actions: seq<Action>, h: Host) returns (next: seq<Action>)
    requires CanCatchUp(L, cfg, Run(L, cfg, actions), h)
    requires Run(L, cfg, actions).mirrors[h].group.epoch != |Run(L, cfg, actions).hub.log|
    ensures |next| == 2
    ensures var s, t := Run(L, cfg, actions), Run(L, cfg, actions + next);
      && CanCatchUp(L, cfg, t, h) && t.hub == s.hub
      && t.mirrors[h].group.epoch == s.mirrors[h].group.epoch + 1 <= |s.hub.log|
  {
    var s := Run(L, cfg, actions);
    RunKeeps(L, cfg, actions);
    assert Follows(cfg.tampering, s.hub, s.mirrors[h]);
    var deliver, apply := NextRelayAdvances(L, cfg, s, h);
    RunTwo(L, cfg, actions, deliver, apply);
    next := [deliver, apply];
    StillInFlight(cfg, s, Run(L, cfg, actions + next), h);
  }

  lemma {:induction false} CatchUpIn(L: Chain, cfg: Config, actions: seq<Action>, h: Host, left: nat)
    returns (more: seq<Action>)
    requires CanCatchUp(L, cfg, Run(L, cfg, actions), h)
    requires |Run(L, cfg, actions).hub.log| - Run(L, cfg, actions).mirrors[h].group.epoch == left
    ensures Level(Run(L, cfg, actions), Run(L, cfg, actions + more), h)
    decreases left
  {
    if left == 0 {
      more := [];
      assert actions + more == actions;
      RunKeeps(L, cfg, actions);
      assert Follows(cfg.tampering, Run(L, cfg, actions).hub, Run(L, cfg, actions).mirrors[h]);
    } else {
      var next := CatchUpStep(L, cfg, actions, h);
      var rest := CatchUpIn(L, cfg, actions + next, h, left - 1);
      more := next + rest;
      assert actions + more == actions + next + rest;
    }
  }

  /** If every relay a mirror still needs is on the network, some schedule brings it level with the hub. */
  lemma DeliveredRelaysCatchUp(L: Chain, cfg: Config, actions: seq<Action>, h: Host)
    requires CanCatchUp(L, cfg, Run(L, cfg, actions), h)
    ensures exists more: seq<Action> :: Level(Run(L, cfg, actions), Run(L, cfg, actions + more), h)
  {
    RunKeeps(L, cfg, actions);
    var s := Run(L, cfg, actions);
    assert Follows(cfg.tampering, s.hub, s.mirrors[h]);
    var more := CatchUpIn(L, cfg, actions, h, |s.hub.log| - s.mirrors[h].group.epoch);
  }
}
