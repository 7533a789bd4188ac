/** Every run of the federated order keeps every mirror on the hub's one history. */
module FederatedOrderProof {
  import opened Bytes
  import opened OrderingChain
  import opened GroupStore
  import opened FederatedOrder

  // ----------------------------------------------------------- the hub's log only grows

  ghost predicate Extends(a: Group, b: Group) {
    a.log <= b.log && (a.log != [] ==> a.id == b.id)
  }

  lemma FollowsGrows(tampering: bool, a: Group, b: Group, m: Mirror)
    requires Extends(a, b) && Follows(tampering, a, m)
    ensures Follows(tampering, b, m)
  {
  }

  lemma ApplierGrows(tampering: bool, a: Group, b: Group, t: Applier)
    requires Extends(a, b) && ApplierSound(tampering, a, t)
    ensures ApplierSound(tampering, b, t)
  {
    assert b.log[t.base] == a.log[t.base];
    assert HeadAt(b.log, t.base) == HeadAt(a.log, t.base);
    assert HeadAt(b.log, t.base + 1) == HeadAt(a.log, t.base + 1);
  }

  lemma EnvelopeGrows(cfg: Config, a: Group, b: Group, e: Envelope)
    requires Extends(a, b) && EnvelopeSound(cfg, a, e)
    ensures EnvelopeSound(cfg, b, e)
  {
    forall w | w in e.batch && w.sig.Signed? && w.sig.signer == cfg.hub
      ensures IsHead(b.log, w.sig.hash)
    {
      var k :| 1 <= k <= |a.log| && HeadAt(a.log, k) == w.sig.hash;
      assert HeadAt(b.log, k) == w.sig.hash;
    }
    if FromHub(cfg, a, e) {
      var k :| 0 <= k < |a.log| && e.batch == ToWire(cfg, a.log[k]);
      assert b.log[k] == a.log[k];
    }
  }

  lemma ReplyGrows(a: Group, b: Group, r: Reply)
    requires Extends(a, b) && ReplySound(a, r)
    ensures ReplySound(b, r)
  {
  }

  lemma BatchGrows(L: Chain, a: Group, ha: set<Position>, b: Group, hb: set<Position>, k: nat)
    requires Extends(a, b) && ha <= hb && k < |a.log| && BatchOrdered(L, a, ha, k)
    ensures BatchOrdered(L, b, hb, k)
  {
    assert b.log[k] == a.log[k];
  }

  /** A longer hub log disturbs no mirror. */
  lemma HubGrows(L: Chain, cfg: Config, s: World, t: World)
    requires Inv(L, cfg, s) && Extends(s.hub, t.hub) && HubInv(L, cfg, t)
    requires t.mirrors == s.mirrors && t.appliers == s.appliers
    requires forall r :: r in t.replies && r !in s.replies ==> ReplySound(t.hub, r)
    ensures Inv(L, cfg, t)
  {
    forall h | h in t.mirrors ensures Follows(cfg.tampering, t.hub, t.mirrors[h]) {
      FollowsGrows(cfg.tampering, s.hub, t.hub, s.mirrors[h]);
    }
    forall a | a in t.appliers ensures ApplierSound(cfg.tampering, t.hub, a) {
      ApplierGrows(cfg.tampering, s.hub, t.hub, a);
    }
    forall r | r in t.replies ensures ReplySound(t.hub, r) {
      if r in s.replies {
        ReplyGrows(s.hub, t.hub, r);
      }
    }
  }

  // ------------------------------------------------------------------ hub steps

  lemma BatchShape(req: Request, hash: Octets)
    ensures FirstCommit(BatchOf(req)) == Some(Msg(req.sender, req.commit, Commit, Succ(req.baseEpoch), req.group, []))
    ensures CommitCiphertext(BatchOf(req)) == req.commit
    ensures var b := Stamp(BatchOf(req), hash);
      && 1 <= |b| <= 2
      && b[|b| - 1] == Msg(req.sender, req.commit, Commit, Succ(req.baseEpoch), req.group, hash)
      && (|b| == 2 ==> b[0] == Msg(req.sender, req.welcome, Welcome, Succ(req.baseEpoch), req.group, []))
  {
    var b := BatchOf(req);
    if |b| == 2 {
      assert b[1..] == [b[1]];
    }
  }

  /** The batch just accepted is in order, behind the `n` before it. */
  lemma NewestIsOrdered(L: Chain, g: Group, hub: Group, hashed: set<Position>, req: Request)
    requires GoRequest(req) && req.baseEpoch == |g.log| < MAX_INT64
    requires g.head == HeadAt(g.log, |g.log|)
    requires hub == Advance(L, g, req.group, req.baseEpoch, BatchOf(req))
    requires CasPosition(g, req.group, req.baseEpoch, BatchOf(req)) in hashed
    ensures BatchOrdered(L, hub, hashed, |g.log|)
  {
    BatchShape(req, hub.head);
    assert HeadAt(hub.log, |g.log|) == HeadAt(g.log, |g.log|);
  }

  lemma HubAdvances(L: Chain, s: World, req: Request)
    requires HubOrdered(L, s.hub, s.hashed) && GoRequest(req)
    requires s.hub.log == [] ==> req.group != []
    requires Admits(s.hub, req.group, req.baseEpoch) && |s.hub.log| < MAX_INT64
    ensures var hub := Advance(L, s.hub, req.group, req.baseEpoch, BatchOf(req));
      && Extends(s.hub, hub) && req.baseEpoch == |s.hub.log|
      && HubOrdered(L, hub, s.hashed + {CasPosition(s.hub, req.group, req.baseEpoch, BatchOf(req))})
  {
    var n := |s.hub.log|;
    var hub := Advance(L, s.hub, req.group, req.baseEpoch, BatchOf(req));
    var hashed := s.hashed + {CasPosition(s.hub, req.group, req.baseEpoch, BatchOf(req))};
    NewestIsOrdered(L, s.hub, hub, hashed, req);
    BatchShape(req, hub.head);
    forall k | 0 <= k < |hub.log| ensures BatchOrdered(L, hub, hashed, k) {
      if k < n {
        BatchGrows(L, s.hub, s.hashed, hub, hashed, k);
      }
    }
  }

  lemma FirstIsNamed(L: Chain, cfg: Config, s: World, req: Request, from: Option<Host>)
    requires s.hub.log == [] && Admits(s.hub, req.group, req.baseEpoch)
    requires NamedFirst(HubCommit(L, cfg, s, req, from).hub.log)
    ensures req.group != []
  {
    BatchShape(req, HubCommit(L, cfg, s, req, from).hub.head);
  }

  lemma HubCommitKeepsHub(L: Chain, cfg: Config, s: World, req: Request, from: Option<Host>)
    requires HubInv(L, cfg, s) && GoRequest(req)
    requires Settled(HubCommit(L, cfg, s, req, from))
    ensures HubInv(L, cfg, HubCommit(L, cfg, s, req, from))
  {
    if Admits(s.hub, req.group, req.baseEpoch) {
      var t := HubCommit(L, cfg, s, req, from);
      var stored := Stamp(BatchOf(req), t.hub.head);
      if s.hub.log == [] {
        FirstIsNamed(L, cfg, s, req, from);
      }
      HubAdvances(L, s, req);
      forall e | e in t.net ensures EnvelopeSound(cfg, t.hub, e) {
        EnvelopeGrows(cfg, s.hub, t.hub, e);
      }
      assert t.hub.log == s.hub.log + [stored];
      assert Pending(stored, from) in t.pending;
      forall b | b in t.hub.log ensures b in t.published || Waiting(t.pending, b) {
        if b in s.hub.log && Waiting(s.pending, b) {
          var p :| p in s.pending && p.batch == b;
          assert p in t.pending;
        }
      }
    }
  }

  lemma NewReplyIsSound(L: Chain, cfg: Config, s: World, req: Request, from: Option<Host>, r: Reply)
    requires GoRequest(req) && Admits(s.hub, req.group, req.baseEpoch) && req.baseEpoch == |s.hub.log| < MAX_INT64
    requires var t := HubCommit(L, cfg, s, req, from); r in t.replies && r !in s.replies
    ensures ReplySound(HubCommit(L, cfg, s, req, from).hub, r)
  {
    BatchShape(req, HubCommit(L, cfg, s, req, from).hub.head);
  }

  lemma HubCommitKeeps(L: Chain, cfg: Config, s: World, req: Request, from: Option<Host>)
    requires Inv(L, cfg, s) && GoRequest(req)
    requires Settled(HubCommit(L, cfg, s, req, from))
    ensures Inv(L, cfg, HubCommit(L, cfg, s, req, from))
  {
    HubCommitKeepsHub(L, cfg, s, req, from);
    if Admits(s.hub, req.group, req.baseEpoch) {
      var t := HubCommit(L, cfg, s, req, from);
      if s.hub.log == [] {
        FirstIsNamed(L, cfg, s, req, from);
      }
      HubAdvances(L, s, req);
      forall r | r in t.replies && r !in s.replies ensures ReplySound(t.hub, r) {
        NewReplyIsSound(L, cfg, s, req, from, r);
      }
      HubGrows(L, cfg, s, t);
    }
  }

  lemma RelayKeepsHub(L: Chain, cfg: Config, s: World, from: Host, m: Msg)
    requires HubInv(L, cfg, s) && m.chainHash == [] && GoSized(m.group) && GoSized(m.ciphertext)
    ensures HubInv(L, cfg, HubRelay(cfg, s, from, m))
  {
    forall h ensures EnvelopeSound(cfg, s.hub, Envelope(h, ToWire(cfg, [m]))) {
      assert FromWire(ToWire(cfg, [m])) == [m];
    }
  }

  lemma FanOutKeepsHub(L: Chain, cfg: Config, s: World, p: Pending)
    requires HubInv(L, cfg, s) && p in s.pending
    ensures HubInv(L, cfg, HubFanOut(cfg, s, p))
  {
    var t := HubFanOut(cfg, s, p);
    var k :| 0 <= k < |s.hub.log| && s.hub.log[k] == p.batch;
    forall h ensures EnvelopeSound(cfg, s.hub, Envelope(h, ToWire(cfg, p.batch))) {
      HubEnvelopeSound(L, cfg, s.hub, s.hashed, k, h);
    }
    forall b | b in t.hub.log ensures b in t.published || Waiting(t.pending, b) {
      if b != p.batch && b !in s.published {
        var q :| q in s.pending && q.batch == b;
        assert q in t.pending;
      }
    }
  }

  lemma HubEnvelopeSound(L: Chain, cfg: Config, hub: Group, hashed: set<Position>, k: nat, h: Host)
    requires HubOrdered(L, hub, hashed) && k < |hub.log|
    ensures EnvelopeSound(cfg, hub, Envelope(h, ToWire(cfg, hub.log[k])))
  {
    var b := hub.log[k];
    var e := Envelope(h, ToWire(cfg, b));
    assert BatchOrdered(L, hub, hashed, k);
    assert HeadAt(hub.log, k + 1) == b[|b| - 1].chainHash;
    assert FromHub(cfg, hub, e);
  }

  // --------------------------------------------------------------- mirror steps

  /** A link equal to one of the hub's is that link: same head, epoch, group and commit. */
  lemma LinkIsTheHubs(L: Chain, hub: Group, hashed: set<Position>, k: nat,
                      head: Octets, epoch: Int64, group: Octets, commit: Octets)
    requires DigestLinks(L) && HubOrdered(L, hub, hashed) && NamesPositions(L, hashed) && 1 <= k <= |hub.log|
    requires GoSized(head) && GoSized(group) && GoSized(commit)
    requires Position(head, epoch, group, commit) in hashed
    requires L(Position(head, epoch, group, commit)) == HeadAt(hub.log, k)
    ensures head == HeadAt(hub.log, k - 1) && epoch == k && group == hub.id
    ensures var b := hub.log[k - 1]; b != [] && commit == b[|b| - 1].ciphertext
  {
    var b := hub.log[k - 1];
    assert BatchOrdered(L, hub, hashed, k - 1);
    HeadIsDigest(L, hub, hashed, k - 1);
    assert Position(head, epoch, group, commit)
        == Position(HeadAt(hub.log, k - 1), k, hub.id, b[|b| - 1].ciphertext);
  }

  lemma HeadIsDigest(L: Chain, hub: Group, hashed: set<Position>, k: nat)
    requires DigestLinks(L) && HubOrdered(L, hub, hashed) && k <= |hub.log|
    ensures |HeadAt(hub.log, k)| == if k == 0 then 0 else 32
  {
    if k > 0 {
      assert BatchOrdered(L, hub, hashed, k - 1);
    }
  }

  lemma MirrorHeadIsDigest(L: Chain, cfg: Config, s: World, h: Host)
    requires DigestLinks(L) && Inv(L, cfg, s) && h in s.mirrors
    ensures |s.mirrors[h].group.head| <= 32
  {
    assert Follows(cfg.tampering, s.hub, s.mirrors[h]);
    HeadIsDigest(L, s.hub, s.hashed, s.mirrors[h].group.epoch);
  }

  /** The commit of a hub batch is its last message. */
  lemma HubBatchCommit(L: Chain, hub: Group, hashed: set<Position>, k: nat)
    requires HubOrdered(L, hub, hashed) && k < |hub.log|
    ensures var b := hub.log[k]; b != [] && FirstCommit(b) == Some(b[|b| - 1])
    ensures Stamp(hub.log[k], HeadAt(hub.log, k + 1)) == hub.log[k]
  {
    var b := hub.log[k];
    assert BatchOrdered(L, hub, hashed, k);
    if |b| == 2 {
      assert b[1..] == [b[1]];
    }
  }

  /** What `c`, a commit checked against `head`, had to be for its check to succeed. */
  ghost predicate Checked(L: Chain, hashed: set<Position>, head: Octets, c: Msg) {
    Position(head, c.epoch, c.group, c.ciphertext) in hashed
    && L(Position(head, c.epoch, c.group, c.ciphertext)) == c.chainHash
  }

  /** Signed by the hub and checked against a head: then it is the hub's commit after that head. */
  lemma SignedApplierSound(L: Chain, cfg: Config, hub: Group, hashed: set<Position>, msgs: seq<Msg>, to: Host, head: Octets)
    requires DigestLinks(L) && HubOrdered(L, hub, hashed) && NamesPositions(L, hashed) && GoSized(head)
    requires cfg.tampering && FirstCommit(msgs).Some?
    requires var c := FirstCommit(msgs).value;
      Checked(L, hashed, head, c) && GoSized(c.group) && GoSized(c.ciphertext) && IsHead(hub.log, c.chainHash)
    ensures var c := FirstCommit(msgs).value;
      ApplierSound(cfg.tampering, hub, Applier(to, c.group, Pred(c.epoch), msgs, head))
  {
    var c := FirstCommit(msgs).value;
    var k :| 1 <= k <= |hub.log| && HeadAt(hub.log, k) == c.chainHash;
    LinkIsTheHubs(L, hub, hashed, k, head, c.epoch, c.group, c.ciphertext);
    HubCommitAt(L, hub, hashed, k - 1);
    CarriesStamped(msgs, HeadAt(hub.log, k), hub.log[k - 1]);
  }

  /** The last message of the hub's batch `k`. */
  lemma HubCommitAt(L: Chain, hub: Group, hashed: set<Position>, k: nat)
    requires HubOrdered(L, hub, hashed) && k < |hub.log|
    ensures var b := hub.log[k];
      b != [] && b[|b| - 1].epoch == k + 1 && b[|b| - 1].group == hub.id && b[|b| - 1].chainHash == HeadAt(hub.log, k + 1)
  {
    assert BatchOrdered(L, hub, hashed, k);
  }

  lemma CarriesStamped(msgs: seq<Msg>, hash: Octets, hubBatch: seq<Msg>)
    requires FirstCommit(msgs).Some? && hubBatch != []
    requires var c, d := FirstCommit(msgs).value, hubBatch[|hubBatch| - 1];
      c.epoch == d.epoch && c.group == d.group && c.ciphertext == d.ciphertext && hash == d.chainHash
    ensures Carries(true, Stamp(msgs, hash), hubBatch)
  {
    FirstCommitOfStamped(msgs, hash);
  }

  /** The hub's own batch checked against a head: then it follows that head. */
  lemma HubApplierSound(L: Chain, cfg: Config, hub: Group, hashed: set<Position>, j: nat, to: Host, head: Octets)
    requires DigestLinks(L) && HubOrdered(L, hub, hashed) && NamesPositions(L, hashed) && GoSized(head)
    requires j < |hub.log| && FirstCommit(hub.log[j]).Some?
    requires Checked(L, hashed, head, FirstCommit(hub.log[j]).value)
    ensures var c := FirstCommit(hub.log[j]).value;
      ApplierSound(cfg.tampering, hub, Applier(to, c.group, Pred(c.epoch), hub.log[j], head))
  {
    var c := FirstCommit(hub.log[j]).value;
    HubBatchCommit(L, hub, hashed, j);
    assert BatchOrdered(L, hub, hashed, j);
    LinkIsTheHubs(L, hub, hashed, j + 1, head, c.epoch, c.group, c.ciphertext);
  }

  lemma PlainHasNoLink(batch: seq<Msg>)
    requires FirstCommit(batch).Some? && FirstCommit(batch).value.chainHash != []
    ensures !Plain(batch)
  {
    if |batch| == 1 {
      assert batch[1..] == [];
    }
  }

  /** A relayed commit that passes verification is the hub's, checked on the hub's head. */
  lemma RelayedApplierSound(L: Chain, cfg: Config, hub: Group, hashed: set<Position>, e: Envelope, head: Octets)
    requires DigestLinks(L) && HubOrdered(L, hub, hashed) && NamesPositions(L, hashed) && GoSized(head)
    requires EnvelopeSound(cfg, hub, e) && FirstCommitWire(e.batch).Some?
    requires var c := FirstCommitWire(e.batch).value;
      Checked(L, hashed, head, c.msg) && SignatureAccepted(cfg, c.msg.chainHash, c.sig)
    ensures var m := FirstCommitWire(e.batch).value.msg;
      ApplierSound(cfg.tampering, hub, Applier(e.to, m.group, Pred(m.epoch), FromWire(e.batch), head))
  {
    if cfg.tampering && cfg.checksSignatures {
      SignedApplierSound(L, cfg, hub, hashed, FromWire(e.batch), e.to, head);
    } else {
      assert FirstCommit(FromWire(e.batch)).value.chainHash != [];
      PlainHasNoLink(FromWire(e.batch));
      var j :| 0 <= j < |hub.log| && e.batch == ToWire(cfg, hub.log[j]);
      assert FromWire(e.batch) == hub.log[j];
      HubApplierSound(L, cfg, hub, hashed, j, e.to, head);
    }
  }

  /** One more sound applier, and more hashed positions, disturb nothing. */
  lemma ApplierAdded(L: Chain, cfg: Config, s: World, t: World, hashed: set<Position>, more: set<Applier>)
    requires Inv(L, cfg, s) && s.hashed <= hashed
    requires t == s.(hashed := hashed, appliers := s.appliers + more)
    requires forall a :: a in more ==> ApplierSound(cfg.tampering, s.hub, a)
    ensures Inv(L, cfg, t)
  {
    HashedGrows(L, s.hub, s.hashed, hashed);
  }

  /** The applier a relay starts on a mirror at this head. */
  function RelayApplier(e: Envelope, c: Wire, head: Octets): Applier {
    Applier(e.to, c.msg.group, Pred(c.msg.epoch), FromWire(e.batch), head)
  }

  function RelayPosition(c: Wire, head: Octets): Position {
    Position(head, c.msg.epoch, c.msg.group, c.msg.ciphertext)
  }

  ghost predicate RelayHolds(L: Chain, cfg: Config, c: Wire, head: Octets) {
    L(RelayPosition(c, head)) == c.msg.chainHash && SignatureAccepted(cfg, c.msg.chainHash, c.sig)
  }

  ghost function RelayStarted(L: Chain, cfg: Config, e: Envelope, c: Wire, head: Octets): set<Applier> {
    if RelayHolds(L, cfg, c, head) then {RelayApplier(e, c, head)} else {}
  }

  lemma VerifyIs(L: Chain, cfg: Config, s: World, e: Envelope, c: Wire)
    requires e.to in s.mirrors && FirstCommitWire(e.batch) == Some(c)
    ensures var head := s.mirrors[e.to].group.head;
      Verify(L, cfg, s, e) == s.(hashed := s.hashed + {RelayPosition(c, head)},
                                 appliers := s.appliers + RelayStarted(L, cfg, e, c, head))
  {
    assert s.appliers + {} == s.appliers;
  }

  lemma StartedAreSound(L: Chain, cfg: Config, hub: Group, hashed: set<Position>, e: Envelope, c: Wire, head: Octets)
    requires DigestLinks(L) && HubOrdered(L, hub, hashed) && NamesPositions(L, hashed + {RelayPosition(c, head)})
    requires EnvelopeSound(cfg, hub, e) && FirstCommitWire(e.batch) == Some(c) && GoSized(head)
    ensures forall a :: a in RelayStarted(L, cfg, e, c, head) ==> ApplierSound(cfg.tampering, hub, a)
  {
    if RelayHolds(L, cfg, c, head) {
      HashedGrows(L, hub, hashed, hashed + {RelayPosition(c, head)});
      RelayedApplierSound(L, cfg, hub, hashed + {RelayPosition(c, head)}, e, head);
    }
  }

  lemma VerifiedCommit(L: Chain, cfg: Config, s: World, e: Envelope, c: Wire)
    requires Inv(L, cfg, s) && e in s.net && e.to in s.mirrors && FirstCommitWire(e.batch) == Some(c)
    requires DigestLinks(L) && NamesPositions(L, s.hashed + {RelayPosition(c, s.mirrors[e.to].group.head)})
    ensures Inv(L, cfg, Verify(L, cfg, s, e))
  {
    var head := s.mirrors[e.to].group.head;
    MirrorHeadIsDigest(L, cfg, s, e.to);
    StartedAreSound(L, cfg, s.hub, s.hashed, e, c, head);
    VerifyIs(L, cfg, s, e, c);
    ApplierAdded(L, cfg, s, Verify(L, cfg, s, e), s.hashed + {RelayPosition(c, head)}, RelayStarted(L, cfg, e, c, head));
  }

  lemma VerifiedRelay(L: Chain, cfg: Config, s: World, e: Envelope)
    requires Inv(L, cfg, s) && e in s.net && e.to in s.mirrors
    requires Assumed(L, Verify(L, cfg, s, e))
    ensures Inv(L, cfg, Verify(L, cfg, s, e))
  {
    if FirstCommitWire(e.batch).Some? {
      VerifyIs(L, cfg, s, e, FirstCommitWire(e.batch).value);
      VerifiedCommit(L, cfg, s, e, FirstCommitWire(e.batch).value);
    }
  }

  lemma HashedGrows(L: Chain, hub: Group, a: set<Position>, b: set<Position>)
    requires HubOrdered(L, hub, a) && a <= b
    ensures HubOrdered(L, hub, b)
  {
    forall k | 0 <= k < |hub.log| ensures BatchOrdered(L, hub, b, k) {
      BatchGrows(L, hub, a, hub, b, k);
    }
  }

  lemma ReplyApplierSound(L: Chain, cfg: Config, hub: Group, hashed: set<Position>, r: Reply, head: Octets)
    requires DigestLinks(L) && HubOrdered(L, hub, hashed) && NamesPositions(L, hashed) && GoSized(head)
    requires ReplySound(hub, r)
    requires Position(head, r.epoch, r.req.group, r.req.commit) in hashed
    requires L(Position(head, r.epoch, r.req.group, r.req.commit)) == r.hash
    ensures ApplierSound(cfg.tampering, hub, ReplyApplier(r, head))
  {
    LinkIsTheHubs(L, hub, hashed, r.epoch, head, r.epoch, r.req.group, r.req.commit);
    HubBatchCommit(L, hub, hashed, r.req.baseEpoch);
  }

  /** The applier a reply starts on a mirror at this head. */
  function ReplyApplier(r: Reply, head: Octets): Applier {
    Applier(r.to, r.req.group, r.req.baseEpoch, BatchAt(r.req, r.epoch), head)
  }

  function ReplyPosition(r: Reply, head: Octets): Position {
    Position(head, r.epoch, r.req.group, r.req.commit)
  }

  ghost predicate ReplyHolds(L: Chain, cfg: Config, r: Reply, head: Octets) {
    L(ReplyPosition(r, head)) == r.hash && SignatureAccepted(cfg, r.hash, r.sig)
  }

  ghost function ReplyStarted(L: Chain, cfg: Config, r: Reply, head: Octets): set<Applier> {
    if ReplyHolds(L, cfg, r, head) then {ReplyApplier(r, head)} else {}
  }

  lemma VerifyReplyIs(L: Chain, cfg: Config, s: World, r: Reply)
    requires r.to in s.mirrors
    ensures var head := s.mirrors[r.to].group.head;
      VerifyReply(L, cfg, s, r) == s.(hashed := s.hashed + {ReplyPosition(r, head)},
                                      appliers := s.appliers + ReplyStarted(L, cfg, r, head))
  {
    assert s.appliers + {} == s.appliers;
  }

  lemma ReplyStartedAreSound(L: Chain, cfg: Config, hub: Group, hashed: set<Position>, r: Reply, head: Octets)
    requires DigestLinks(L) && HubOrdered(L, hub, hashed) && NamesPositions(L, hashed + {ReplyPosition(r, head)})
    requires ReplySound(hub, r) && GoSized(head)
    ensures forall a :: a in ReplyStarted(L, cfg, r, head) ==> ApplierSound(cfg.tampering, hub, a)
  {
    if ReplyHolds(L, cfg, r, head) {
      HashedGrows(L, hub, hashed, hashed + {ReplyPosition(r, head)});
      ReplyApplierSound(L, cfg, hub, hashed + {ReplyPosition(r, head)}, r, head);
    }
  }

  lemma VerifiedReply(L: Chain, cfg: Config, s: World, r: Reply)
    requires Inv(L, cfg, s) && r in s.replies && r.to in s.mirrors
    requires Assumed(L, VerifyReply(L, cfg, s, r))
    ensures Inv(L, cfg, VerifyReply(L, cfg, s, r))
  {
    var head := s.mirrors[r.to].group.head;
    VerifyReplyIs(L, cfg, s, r);
    MirrorHeadIsDigest(L, cfg, s, r.to);
    ReplyStartedAreSound(L, cfg, s.hub, s.hashed, r, head);
    ApplierAdded(L, cfg, s, VerifyReply(L, cfg, s, r), s.hashed + {ReplyPosition(r, head)}, ReplyStarted(L, cfg, r, head));
  }

  /** A successful compare-and-set on a mirror acts on the very head that was verified. */
  lemma CasOnVerifiedHead(L: Chain, cfg: Config, s: World, a: Applier)
    requires Inv(L, cfg, s) && a in s.appliers && a.host in s.mirrors
    requires Admits(s.mirrors[a.host].group, a.group, a.base)
    ensures s.mirrors[a.host].group.epoch == a.base && s.mirrors[a.host].group.head == a.seen
  {
    assert Follows(cfg.tampering, s.hub, s.mirrors[a.host]);
    assert ApplierSound(cfg.tampering, s.hub, a);
  }

  /** One mirror further along the hub's log disturbs nothing else. */
  lemma MirrorReplaced(L: Chain, cfg: Config, s: World, t: World, h: Host, m: Mirror, hashed: set<Position>)
    requires Inv(L, cfg, s) && Follows(cfg.tampering, s.hub, m) && s.hashed <= hashed
    requires t == s.(mirrors := s.mirrors[h := m], hashed := hashed)
    ensures Inv(L, cfg, t)
  {
    HashedGrows(L, s.hub, s.hashed, hashed);
  }

  lemma MirrorCasKeeps(L: Chain, cfg: Config, s: World, a: Applier)
    requires Inv(L, cfg, s) && a in s.appliers && a.host in s.mirrors
    ensures Inv(L, cfg, MirrorCas(L, s, a))
  {
    var m := s.mirrors[a.host];
    if Admits(m.group, a.group, a.base) {
      CasOnVerifiedHead(L, cfg, s, a);
      AppliedCommit(L, cfg.tampering, s.hub, s.hashed, a);
      MirrorAdvances(L, cfg.tampering, s.hub, m, a);
      MirrorReplaced(L, cfg, s, MirrorCas(L, s, a), a.host, m.(group := Advance(L, m.group, a.group, a.base, a.msgs)),
                     s.hashed + {CasPosition(m.group, a.group, a.base, a.msgs)});
    }
  }

  lemma MirrorAdvances(L: Chain, tampering: bool, hub: Group, m: Mirror, a: Applier)
    requires ApplierSound(tampering, hub, a) && |hub.log| <= MAX_INT64
    requires L(Position(a.seen, a.base + 1, a.group, CommitCiphertext(a.msgs))) == HeadAt(hub.log, a.base + 1)
    requires Follows(tampering, hub, m) && m.group.epoch == a.base && m.group.head == a.seen
    ensures Follows(tampering, hub, m.(group := Advance(L, m.group, a.group, a.base, a.msgs)))
  {
    var head := HeadAt(hub.log, a.base + 1);
    AdvanceIs(L, m.group, a, head);
    FollowsOneMore(tampering, hub, m, Advance(L, m.group, a.group, a.base, a.msgs), Stamp(a.msgs, head));
  }

  lemma AdvanceIs(L: Chain, g: Group, a: Applier, head: Octets)
    requires g.head == a.seen && 0 <= a.base < MAX_INT64
    requires L(Position(a.seen, a.base + 1, a.group, CommitCiphertext(a.msgs))) == head
    ensures Advance(L, g, a.group, a.base, a.msgs) == Group(a.group, a.base + 1, head, g.log + [Stamp(a.msgs, head)])
  {
  }

  lemma FollowsOneMore(tampering: bool, hub: Group, m: Mirror, next: Group, batch: seq<Msg>)
    requires Follows(tampering, hub, m) && m.group.epoch < |hub.log|
    requires Carries(tampering, batch, hub.log[m.group.epoch])
    requires next.id == hub.id && next.epoch == m.group.epoch + 1
    requires next.head == HeadAt(hub.log, next.epoch) && next.log == m.group.log + [batch]
    ensures Follows(tampering, hub, m.(group := next))
  {
    forall i | 0 <= i < |next.log| ensures Carries(tampering, next.log[i], hub.log[m.start + i]) {
      if i < |m.group.log| {
        assert next.log[i] == m.group.log[i];
      }
    }
  }

  lemma AppliedCommit(L: Chain, tampering: bool, hub: Group, hashed: set<Position>, a: Applier)
    requires HubOrdered(L, hub, hashed) && ApplierSound(tampering, hub, a)
    ensures L(Position(a.seen, a.base + 1, a.group, CommitCiphertext(a.msgs))) == HeadAt(hub.log, a.base + 1)
  {
    FirstCommitOfStamped(a.msgs, HeadAt(hub.log, a.base + 1));
    assert BatchOrdered(L, hub, hashed, a.base);
  }

  // ------------------------------------------------------------------ whole runs

  lemma StepGrows(L: Chain, cfg: Config, s: World, a: Action)
    ensures s.hashed <= Step(L, cfg, s, a).hashed
    ensures s.hub.log <= Step(L, cfg, s, a).hub.log
  {
  }

  lemma StepKeepsHub(L: Chain, cfg: Config, s: World, a: Action)
    requires HubInv(L, cfg, s) && Settled(Step(L, cfg, s, a))
    ensures HubInv(L, cfg, Step(L, cfg, s, a))
  {
    if Enabled(cfg, s, a) {
      match a
      case HubPost(req) => HubCommitKeepsHub(L, cfg, s, req, None);
      case HubSubmit(from, req) => HubCommitKeepsHub(L, cfg, s, req, Some(from));
      case HubMessage(from, sender, ciphertext, kind) => RelayKeepsHub(L, cfg, s, from, PlainMsg(sender, ciphertext, kind));
      case FanOut(p) => FanOutKeepsHub(L, cfg, s, p);
      case AddParticipant(_) =>
      case Provision(_, _) =>
      case Inject(_) =>
      case Deliver(e) => HashedGrows(L, s.hub, s.hashed, Verify(L, cfg, s, e).hashed);
      case ReceiveReply(r) => HashedGrows(L, s.hub, s.hashed, VerifyReply(L, cfg, s, r).hashed);
      case CompareAndSet(t) => HashedGrows(L, s.hub, s.hashed, MirrorCas(L, s, t).hashed);
    }
  }

  lemma StepKeeps(L: Chain, cfg: Config, s: World, a: Action)
    requires Inv(L, cfg, s) && Assumed(L, Step(L, cfg, s, a))
    ensures Inv(L, cfg, Step(L, cfg, s, a))
  {
    StepKeepsHub(L, cfg, s, a);
    if Enabled(cfg, s, a) {
      match a
      case HubPost(req) => HubCommitKeeps(L, cfg, s, req, None);
      case HubSubmit(from, req) => HubCommitKeeps(L, cfg, s, req, Some(from));
      case HubMessage(_, _, _, _) =>
      case FanOut(_) =>
      case AddParticipant(_) =>
      case Provision(host, k) => assert Follows(cfg.tampering, s.hub, Mirror(k, Snapshot(s.hub, k)));
      case Inject(_) =>
      case Deliver(e) => VerifiedRelay(L, cfg, s, e);
      case ReceiveReply(r) => VerifiedReply(L, cfg, s, r);
      case CompareAndSet(t) => MirrorCasKeeps(L, cfg, s, t);
    }
  }

  lemma {:induction false} RunKeepsHub(L: Chain, cfg: Config, actions: seq<Action>)
    requires Settled(Run(L, cfg, actions))
    ensures HubInv(L, cfg, Run(L, cfg, actions))
  {
    if actions == [] {
    } else {
      var n := |actions| - 1;
      StepGrows(L, cfg, Run(L, cfg, actions[..n]), actions[n]);
      RunKeepsHub(L, cfg, actions[..n]);
      StepKeepsHub(L, cfg, Run(L, cfg, actions[..n]), actions[n]);
    }
  }

  lemma {:induction false} RunKeeps(L: Chain, cfg: Config, actions: seq<Action>)
    requires Assumed(L, Run(L, cfg, actions))
    ensures Inv(L, cfg, Run(L, cfg, actions))
  {
    if actions == [] {
    } else {
      var n := |actions| - 1;
      StepGrows(L, cfg, Run(L, cfg, actions[..n]), actions[n]);
      RunKeeps(L, cfg, actions[..n]);
      StepKeeps(L, cfg, Run(L, cfg, actions[..n]), actions[n]);
    }
  }
}
