/**
 The commit path of one host as it runs: build the batch, compare-and-set, then publish
 and relay on the hub; verify, then compare-and-set and publish on a mirror.  Each method
 is tied to the steps of `FederatedOrder`.
 */
module ConvFederation {
  import opened Bytes
  import opened OrderingChain
  import opened GroupStore
  import opened FederatedOrder
  import opened FederatedOrderProof
  import opened FederatedOrderTheorems
  import opened FederatedOrderSteps
  import MlsReader
  import MlsWire

  /** The link is the one computed from this head, and the hub signed it. */
  predicate RelayPasses(L: Chain, cfg: Config, g: Group, c: Wire) {
    L(Position(g.head, c.msg.epoch, c.msg.group, c.msg.ciphertext)) == c.msg.chainHash
    && SignatureAccepted(cfg, c.msg.chainHash, c.sig)
  }

  predicate ReplyPasses(L: Chain, cfg: Config, g: Group, r: Reply) {
    L(Position(g.head, r.epoch, r.req.group, r.req.commit)) == r.hash && SignatureAccepted(cfg, r.hash, r.sig)
  }

  /** Verify and compare-and-set with nothing in between. */
  function AppliedAtOnce(L: Chain, cfg: Config, g: Group, e: Envelope): Group {
    match FirstCommitWire(e.batch)
    case None => g
    case Some(c) =>
      if RelayPasses(L, cfg, g, c)
      then AfterCas(L, g, c.msg.group, Pred(c.msg.epoch), FromWire(e.batch))
      else g
  }

  /** The same for the link the hub returned for this mirror's own commit. */
  function ReplyAppliedAtOnce(L: Chain, cfg: Config, g: Group, r: Reply): Group {
    if ReplyPasses(L, cfg, g, r)
    then AfterCas(L, g, r.req.group, r.req.baseEpoch, BatchAt(r.req, r.epoch))
    else g
  }

  /**
   An uninterrupted delivery is a delivery step and then the compare-and-set of the applier
   it starts.  It leaves the mirror alone exactly if that step starts none.
   */
  lemma AtOnceIsTwoSteps(L: Chain, cfg: Config, s: World, e: Envelope)
    requires e in s.net && e.to in s.mirrors
    ensures var g := s.mirrors[e.to].group;
      var t := Step(L, cfg, s.(appliers := {}), Deliver(e));
      (t.appliers == {} && AppliedAtOnce(L, cfg, g, e) == g)
      || exists a :: t.appliers == {a} && AppliedAtOnce(L, cfg, g, e) == GroupAfter(L, cfg, t, a, e.to)
  {
    var u := s.(appliers := {});
    assert Step(L, cfg, u, Deliver(e)) == Verify(L, cfg, u, e);
    if FirstCommitWire(e.batch).Some? {
      var c := FirstCommitWire(e.batch).value;
      if RelayPasses(L, cfg, s.mirrors[e.to].group, c) {
        var a := RelayApplier(e, c, s.mirrors[e.to].group.head);
        var t := Verify(L, cfg, u, e);
        assert t.appliers == {a};
        StepApplies(L, cfg, t, a);
        assert AppliedAtOnce(L, cfg, s.mirrors[e.to].group, e) == GroupAfter(L, cfg, t, a, e.to);
      }
    }
  }

  /** The mirror's group once this applier has run. */
  ghost function GroupAfter(L: Chain, cfg: Config, t: World, a: Applier, h: FederatedOrder.Host): Group {
    var u := Step(L, cfg, t, CompareAndSet(a));
    if h in u.mirrors then u.mirrors[h].group else NO_GROUP
  }

  /** So is an uninterrupted application of the hub's reply. */
  lemma ReplyAtOnceIsTwoSteps(L: Chain, cfg: Config, s: World, r: Reply)
    requires r in s.replies && r.to in s.mirrors
    ensures var g := s.mirrors[r.to].group;
      var t := Step(L, cfg, s.(appliers := {}), ReceiveReply(r));
      (t.appliers == {} && ReplyAppliedAtOnce(L, cfg, g, r) == g)
      || exists a :: t.appliers == {a} && ReplyAppliedAtOnce(L, cfg, g, r) == GroupAfter(L, cfg, t, a, r.to)
  {
    var u := s.(appliers := {});
    assert Step(L, cfg, u, ReceiveReply(r)) == VerifyReply(L, cfg, u, r);
    if ReplyPasses(L, cfg, s.mirrors[r.to].group, r) {
      var a := ReplyApplier(r, s.mirrors[r.to].group.head);
      var t := VerifyReply(L, cfg, u, r);
      assert t.appliers == {a};
      StepApplies(L, cfg, t, a);
      assert ReplyAppliedAtOnce(L, cfg, s.mirrors[r.to].group, r) == GroupAfter(L, cfg, t, a, r.to);
    }
  }

  /** The mirror's group with the hub's next commit: one epoch on, at the hub's head there, one batch more. */
  ghost predicate HasNext(hub: Group, was: Group, now: Group) {
    && 0 <= was.epoch < |hub.log| && was.epoch < MAX_INT64
    && now == Group(hub.id, was.epoch + 1, HeadAt(hub.log, was.epoch + 1), was.log + [hub.log[was.epoch]])
  }

  /** Delivered to a mirror in its turn, the hub's relay of its next commit is applied. */
  lemma NextRelayIsApplied(L: Chain, cfg: Config, hub: Group, hashed: set<Position>, m: Mirror, h: FederatedOrder.Host)
    requires HubOrdered(L, hub, hashed) && DigestLinks(L) && cfg.hubSigns
    requires Follows(cfg.tampering, hub, m) && m.group.epoch < |hub.log|
    ensures HasNext(hub, m.group, AppliedAtOnce(L, cfg, m.group, RelayOf(cfg, hub, h, m.group.epoch)))
  {
    var k := m.group.epoch;
    var c := NextRelayChecks(L, cfg, hub, hashed, k);
    FromToWire(cfg, hub.log[k]);
    HubCasAdvances(L, hub, hashed, m.group);
    PassingRelayIs(L, cfg, m.group, RelayOf(cfg, hub, h, k), c);
  }

  lemma PassingRelayIs(L: Chain, cfg: Config, g: Group, e: Envelope, c: Wire)
    requires FirstCommitWire(e.batch) == Some(c) && RelayPasses(L, cfg, g, c)
    ensures AppliedAtOnce(L, cfg, g, e) == AfterCas(L, g, c.msg.group, Pred(c.msg.epoch), FromWire(e.batch))
  {
  }

  /** The hub's batch at the mirror's epoch, put into the compare-and-set there. */
  lemma HubCasAdvances(L: Chain, hub: Group, hashed: set<Position>, g: Group)
    requires HubOrdered(L, hub, hashed) && 0 <= g.epoch < |hub.log|
    requires g.head == HeadAt(hub.log, g.epoch) && g.id == (if g.epoch == 0 then [] else hub.id)
    ensures HasNext(hub, g, AfterCas(L, g, hub.id, g.epoch, hub.log[g.epoch]))
  {
    assert BatchOrdered(L, hub, hashed, g.epoch);
    HubBatchCommit(L, hub, hashed, g.epoch);
  }

  /** The hub's signed answer to a mirror's own commit, back while the mirror stands where it built on, is applied. */
  lemma OwnCommitIsApplied(L: Chain, cfg: Config, hub: Group, hashed: set<Position>, m: Mirror, r: Reply)
    requires HubOrdered(L, hub, hashed) && ReplySound(hub, r) && SignatureAccepted(cfg, r.hash, r.sig)
    requires Follows(cfg.tampering, hub, m) && m.group.epoch == r.req.baseEpoch
    ensures HasNext(hub, m.group, ReplyAppliedAtOnce(L, cfg, m.group, r))
  {
    assert BatchOrdered(L, hub, hashed, r.req.baseEpoch);
    BatchShape(r.req, r.hash);
  }

  /** The relayed commit starts the group's first epoch, or its next. */
  ghost predicate Continues(g: Group, c: Msg) {
    (c.epoch == 1 && g.id == []) || (c.group == g.id && Pred(c.epoch) == g.epoch)
  }

  /** A relayed batch has been applied: its last state is the commit's, and the stamped batch is logged and published. */
  ghost predicate Took(was: Group, now: Group, before: seq<seq<Msg>>, published: seq<seq<Msg>>, c: Msg, msgs: seq<Msg>) {
    && now.id == c.group && now.epoch == c.epoch && now.head == c.chainHash
    && |now.log| == |was.log| + 1 && was.log <= now.log && Stamped(msgs, c.chainHash, now.log[|was.log|])
    && published == before + [now.log[|was.log|]]
  }

  /** What the handler answers to a commit before looking at the group. */
  datatype Check = NoGroup | NoCommit | LargeWelcome | NegativeEpoch | NotACommit | OtherEpoch | Passed

  /** Group, sizes and epoch are as the handler wants them. */
  ghost predicate InShape(req: Request) {
    req.group != [] && 0 < |req.commit| <= 256 * 1024 && |req.welcome| <= 256 * 1024 && req.baseEpoch >= 0
  }

  ghost predicate Framed(req: Request) {
    MlsWire.Parse(req.commit).Got?
  }

  ghost function Framing(req: Request): MlsWire.Handshake
    requires Framed(req)
  {
    MlsWire.Parse(req.commit).value
  }

  class Host {
    const cfg: Config
    const H: Hash
    const record: ConversationRecord
    /** Batches published to local devices, oldest first. */
    var published: seq<seq<Msg>>
    /** Envelopes handed to the network, oldest first. */
    var relayed: seq<Envelope>

    constructor (cfg: Config, H: Hash, record: ConversationRecord)
      ensures this.cfg == cfg && this.H == H && this.record == record
      ensures published == [] && relayed == []
    {
      this.cfg, this.H, this.record := cfg, H, record;
      published, relayed := [], [];
    }

    /** `postMLSCommit` before anything is changed or forwarded: the first check that fails. */
    method CheckCommit(req: Request) returns (c: Check)
      ensures c.NoGroup? <==> req.group == []
      ensures c.NoCommit? <==> req.group != [] && (req.commit == [] || |req.commit| > 256 * 1024)
      ensures c.LargeWelcome? <==> req.group != [] && 0 < |req.commit| <= 256 * 1024 && |req.welcome| > 256 * 1024
      ensures c.NegativeEpoch? ==> req.baseEpoch < 0
      ensures c.NotACommit? <==> InShape(req) && Framed(req) && Framing(req).contentType != 3
      ensures c.OtherEpoch? <==> InShape(req) && Framed(req) && Framing(req).contentType == 3 && Framing(req).epoch != req.baseEpoch
      ensures c.Passed? <==> PassesHandler(req)
      ensures c.Passed? <==> Postable(req)
    {
      if |req.group| == 0 {
        return NoGroup;
      }
      if |req.commit| == 0 || |req.commit| > MAX_CIPHERTEXT {
        return NoCommit;
      }
      if |req.welcome| > MAX_CIPHERTEXT {
        return LargeWelcome;
      }
      if req.baseEpoch < 0 {
        return NegativeEpoch;
      }
      var parsed := MlsReader.ParseHandshake(req.commit);
      if parsed.Ok? {
        if parsed.handshake.contentType != MlsWire.CONTENT_TYPE_COMMIT {
          return NotACommit;
        }
        if parsed.handshake.epoch != req.baseEpoch {
          return OtherEpoch;
        }
      }
      c := Passed;
    }

    method BuildBatch(req: Request, epoch: Int64) returns (msgs: seq<Msg>)
      ensures msgs == BatchAt(req, epoch)
      ensures AsRequested(msgs, req, epoch, [])
    {
      msgs := [];
      if |req.welcome| > 0 {
        msgs := msgs + [Msg(req.sender, req.welcome, Welcome, epoch, req.group, [])];
      }
      msgs := msgs + [Msg(req.sender, req.commit, Commit, epoch, req.group, [])];
      if |req.welcome| > 0 {
        assert msgs[0].kind.Welcome?;
      }
    }

    /** `toRelayed` over a batch: attach the hub's signature to every stamped commit. */
    method Sign(msgs: seq<Msg>) returns (batch: seq<Wire>)
      ensures batch == ToWire(cfg, msgs) && OnTheWire(cfg, msgs, batch)
    {
      batch := [];
      for i := 0 to |msgs|
        invariant |batch| == i
        invariant forall j :: 0 <= j < i ==> batch[j] == Wire(msgs[j], HubSignature(cfg, msgs[j].chainHash))
      {
        var sig := if cfg.hubSigns && msgs[i].chainHash != [] then Signed(cfg.hub, msgs[i].chainHash) else Unsigned;
        batch := batch + [Wire(msgs[i], sig)];
      }
      assert batch == ToWire(cfg, msgs);
    }

    /** One envelope to every host in the list but the submitter, in the list's order. */
    method Relay(hosts: seq<FederatedOrder.Host>, except: Option<FederatedOrder.Host>, msgs: seq<Msg>)
      modifies this`relayed
      ensures relayed == old(relayed) + EnvelopesTo(cfg, hosts, except, msgs)
    {
      var batch := Sign(msgs);
      for i := 0 to |hosts|
        invariant relayed == old(relayed) + EnvelopesTo(cfg, hosts[..i], except, msgs)
      {
        assert hosts[..i + 1][..i] == hosts[..i];
        if except != Some(hosts[i]) {
          relayed := relayed + [Envelope(hosts[i], batch)];
        }
      }
      assert hosts[..|hosts|] == hosts;
    }

    /** The hub's side of a commit, local (`from` absent) or forwarded. */
    method AcceptCommit(req: Request, from: Option<FederatedOrder.Host>, hosts: seq<FederatedOrder.Host>)
      returns (accepted: bool, state: Group)
      modifies this, record
      ensures accepted == Admits(old(record.mls), req.group, req.baseEpoch)
      ensures state == record.mls
          == AfterCas(ChainOf(H), old(record.mls), req.group, req.baseEpoch, BatchOf(req))
      ensures !accepted ==> published == old(published) && relayed == old(relayed)
      ensures accepted ==> published == old(published) + [Stamp(BatchOf(req), record.mls.head)]
      ensures accepted <==> BuildsOn(old(record.mls), req)
      ensures accepted ==> Extended(ChainOf(H), old(record.mls), req, record.mls)
      ensures accepted ==> published == old(published) + [record.mls.log[|old(record.mls.log)|]]
      ensures !accepted ==> record.mls == old(record.mls)
      ensures accepted ==>
        relayed == old(relayed) + EnvelopesTo(cfg, hosts, from, Stamp(BatchOf(req), record.mls.head))
    {
      var msgs := BuildBatch(req, Succ(req.baseEpoch));
      BatchShape(req, AfterCas(ChainOf(H), record.mls, req.group, req.baseEpoch, msgs).head);
      BatchIsAsRequested(req, Succ(req.baseEpoch), AfterCas(ChainOf(H), record.mls, req.group, req.baseEpoch, msgs).head);
      var stored;
      accepted, stored := record.CommitMLSGroup(H, req.group, req.baseEpoch, msgs);
      if accepted {
        assert record.mls.log == old(record.mls.log) + [Stamp(msgs, record.mls.head)];
        assert stored == record.mls.log[|old(record.mls.log)|];
        published := published + [stored];
        Relay(hosts, from, stored);
      }
      state := record.mls;
    }

    /** The batch of a commit whose link is right here: compare-and-set, then publish. */
    method ApplyChecked(c: Msg, msgs: seq<Msg>)
      requires FirstCommit(msgs) == Some(c) && Link(H, record.mls.head, c.epoch, c.group, c.ciphertext) == c.chainHash
      modifies this`published, record
      ensures record.mls == AfterCas(ChainOf(H), old(record.mls), c.group, Pred(c.epoch), msgs)
      ensures if Continues(old(record.mls), c)
              then Took(old(record.mls), record.mls, old(published), published, c, msgs)
              else record.mls == old(record.mls) && published == old(published)
    {
      var was := record.mls;
      var applied, stored := record.CommitMLSGroup(H, c.group, Pred(c.epoch), msgs);
      if applied {
        published := published + [stored];
        assert Succ(Pred(c.epoch)) == c.epoch && record.mls.log[|was.log|] == stored;
        ChainIsLink(H, Position(was.head, c.epoch, c.group, c.ciphertext));
      }
    }

    /**
     `applyRelayedCommit`, uninterrupted.  A commit whose link and signature check out and
     which builds on the group moves it to the relayed epoch and link; its batch is published.
     */
    method ApplyRelayedCommit(e: Envelope) returns (ok: bool)
      modifies this`published, record
      ensures record.mls == AppliedAtOnce(ChainOf(H), cfg, old(record.mls), e)
      ensures FirstCommitWire(e.batch).None? ==> ok && record.mls == old(record.mls) && published == old(published)
      ensures FirstCommitWire(e.batch).Some? ==>
        var c := FirstCommitWire(e.batch).value;
        && (ok <==> Link(H, old(record.mls.head), c.msg.epoch, c.msg.group, c.msg.ciphertext) == c.msg.chainHash
                    && (cfg.checksSignatures ==> c.sig == Signed(cfg.hub, c.msg.chainHash)))
        && if ok && Continues(old(record.mls), c.msg)
           then Took(old(record.mls), record.mls, old(published), published, c.msg, FromWire(e.batch))
           else record.mls == old(record.mls) && published == old(published)
    {
      var c := FirstCommitWire(e.batch);
      if c.None? {
        return true;
      }
      var m := c.value.msg;
      var expected := ComputeLink(H, record.mls.head, m.epoch, m.group, m.ciphertext);
      ChainIsLink(H, Position(record.mls.head, m.epoch, m.group, m.ciphertext));
      if expected != m.chainHash {
        return false;
      }
      if !SignatureAccepted(cfg, m.chainHash, c.value.sig) {
        return false;
      }
      ApplyChecked(m, FromWire(e.batch));
      ok := true;
    }

    /**
     `ForwardCommit` after the hub accepted: check the returned link, then apply the same
     batch.  Nothing is published.
     */
    method ApplyReply(r: Reply) returns (ok: bool)
      modifies record
      ensures record.mls == ReplyAppliedAtOnce(ChainOf(H), cfg, old(record.mls), r)
      ensures ok <==> Link(H, old(record.mls.head), r.epoch, r.req.group, r.req.commit) == r.hash
                      && (cfg.checksSignatures ==> r.sig == Signed(cfg.hub, r.hash))
      ensures if ok && BuildsOn(old(record.mls), r.req) then
                && record.mls.id == r.req.group && record.mls.epoch == Succ(r.req.baseEpoch)
                && (r.epoch == record.mls.epoch ==> record.mls.head == r.hash)
                && |record.mls.log| == |old(record.mls.log)| + 1 && old(record.mls.log) <= record.mls.log
                && AsRequested(record.mls.log[|old(record.mls.log)|], r.req, r.epoch, record.mls.head)
              else record.mls == old(record.mls)
    {
      var expected := ComputeLink(H, record.mls.head, r.epoch, r.req.group, r.req.commit);
      ChainIsLink(H, Position(record.mls.head, r.epoch, r.req.group, r.req.commit));
      if expected != r.hash {
        return false;
      }
      if !SignatureAccepted(cfg, r.hash, r.sig) {
        return false;
      }
      var msgs := BuildBatch(r.req, r.epoch);
      BatchShape(r.req, r.hash);
      BatchIsAsRequested(r.req, r.epoch, AfterCas(ChainOf(H), record.mls, r.req.group, r.req.baseEpoch, msgs).head);
      var _, _ := record.CommitMLSGroup(H, r.req.group, r.req.baseEpoch, msgs);
      ok := true;
    }
  }

  function EnvelopesTo(cfg: Config, hosts: seq<FederatedOrder.Host>, except: Option<FederatedOrder.Host>,
                       msgs: seq<Msg>): seq<Envelope>
  {
    if hosts == [] then []
    else
      var n := |hosts| - 1;
      EnvelopesTo(cfg, hosts[..n], except, msgs)
      + if except == Some(hosts[n]) then [] else [Envelope(hosts[n], ToWire(cfg, msgs))]
  }

  /** The relay loop reaches every listed host but the submitter with the signed batch, and nobody else. */
  lemma {:induction false} RelayIsFanOut(cfg: Config, hosts: seq<FederatedOrder.Host>,
                                         except: Option<FederatedOrder.Host>, msgs: seq<Msg>, e: Envelope)
    ensures e in EnvelopesTo(cfg, hosts, except, msgs)
       <==> e.to in hosts && except != Some(e.to) && OnTheWire(cfg, msgs, e.batch)
  {
    WireOf(cfg, msgs, e.batch);
    if hosts != [] {
      var n := |hosts| - 1;
      RelayIsFanOut(cfg, hosts[..n], except, msgs, e);
      assert forall h :: h in hosts <==> h in hosts[..n] || h == hosts[n];
    }
  }
}
