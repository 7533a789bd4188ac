/**
 Checks that only the local handlers make, and what a follower can forward for want of them: a
 commit that names no group, a commit built on another epoch than it declares, and a message
 typed as a commit.  What it can forward as a receipt is in `Receipts`.
 */
module FollowerInputs {
  import opened Bytes
  import opened OrderingChain
  import opened GroupStore
  import opened FederatedOrder
  import opened FederatedOrderProof
  import opened FederatedOrderTheorems
  import MlsWire

  lemma RunOf(L: Chain, cfg: Config, actions: seq<Action>, a: Action)
    ensures Run(L, cfg, actions + [a]) == Step(L, cfg, Run(L, cfg, actions), a)
  {
    assert (actions + [a])[..|actions|] == actions;
  }

  /** An opaque commit that establishes `group`. */
  function Establishing(sender: UserId, group: Octets): Request {
    Request(sender, group, 0, [], [0])
  }

  /** It passes the local handler's checks if it names a group. */
  lemma EstablishingIsPostable(sender: UserId, group: Octets)
    requires group != [] && GoSized(group)
    ensures Postable(Establishing(sender, group)) && GoRequest(Establishing(sender, group))
  {
    assert MlsWire.Parse([0]).Fail?;
  }

  /** Two forwarded commits that name no group: the hub accepts both for epoch 0. */
  lemma UnnamedGroupTakesTwoCommits(L: Chain, cfg: Config, sender: UserId, from: Host)
    requires (sender, from) in cfg.homes
    ensures exists actions: seq<Action> ::
      var hub := Run(L, cfg, actions).hub; |hub.log| == 2 && hub.epoch == 1 && !OneCommitPerEpoch(L, hub)
  {
    var a := HubSubmit(from, Establishing(sender, []));
    RunOf(L, cfg, [], a);
    RunOf(L, cfg, [a], a);
    assert [] + [a] == [a] && [a] + [a] == [a, a];
    var hub := Run(L, cfg, [a, a]).hub;
    assert |hub.log| == 2 && hub.epoch == 1;
  }

  /** A commit whose framing says it was built on this epoch, by a new member of the group [1]. */
  ghost function FramedFor(epoch: nat): MlsWire.Framed
    requires epoch < Pow256(8)
  {
    MlsWire.Framed(1, [1], epoch, MlsWire.NewMemberCommit, [], MlsWire.CONTENT_TYPE_COMMIT)
  }

  lemma FitsShort(w: nat)
    requires w == 1 || w == 2
    ensures MlsWire.Fits(w - 1, 0) && 1 < Pow256(w)
  {
    assert Pow256(0) == 1 && Pow256(1) == 256;
  }

  lemma FramedParses(epoch: nat)
    requires epoch < Pow256(8)
    ensures MlsWire.Encodable(FramedFor(epoch), 0, 0)
    ensures var commit := MlsWire.Encode(FramedFor(epoch), 0, 0);
      && |commit| == 17 && MlsWire.Parse(commit).Got? && MlsWire.Parse(commit).value.epoch == epoch
  {
    var f := FramedFor(epoch);
    FitsShort(1);
    FitsShort(2);
    MlsWire.ParseDecodes(f, 0, 0, []);
    assert MlsWire.Encode(f, 0, 0) + [] == MlsWire.Encode(f, 0, 0);
  }

  /** The first step of a run: a forwarded commit that establishes a named group. */
  lemma EstablishedBy(L: Chain, cfg: Config, from: Host, req: Request)
    requires (req.sender, from) in cfg.homes && GoRequest(req) && req.group != [] && req.baseEpoch == 0
    ensures var s := Run(L, cfg, [HubSubmit(from, req)]);
      Settled(s) && s.hub.log == [Stamp(BatchOf(req), s.hub.head)]
  {
    RunOf(L, cfg, [], HubSubmit(from, req));
    assert [] + [HubSubmit(from, req)] == [HubSubmit(from, req)];
    BatchShape(req, Run(L, cfg, [HubSubmit(from, req)]).hub.head);
  }

  /** A forwarded commit built on any later epoch, by its own framing, is accepted for epoch 0. */
  lemma ForwardedCommitCanLieAboutItsEpoch(L: Chain, cfg: Config, sender: UserId, from: Host, epoch: nat)
    requires (sender, from) in cfg.homes && 0 < epoch < Pow256(8)
    ensures exists actions: seq<Action> ::
      var s := Run(L, cfg, actions); Settled(s) && |s.hub.log| == 1 && !EpochsTrue(s.hub.log)
  {
    FramedParses(epoch);
    var req := Request(sender, [1], 0, [], MlsWire.Encode(FramedFor(epoch), 0, 0));
    EstablishedBy(L, cfg, from, req);
    LyingBatch(req, Run(L, cfg, [HubSubmit(from, req)]).hub.head);
  }

  lemma LyingBatch(req: Request, hash: Octets)
    requires req.baseEpoch == 0 && MlsWire.Parse(req.commit).Got? && MlsWire.Parse(req.commit).value.epoch != 0
    ensures !EpochsTrue([Stamp(BatchOf(req), hash)])
  {
    BatchEpochTrueExactly(req, hash);
    assert !EpochTrue([Stamp(BatchOf(req), hash)][0], 0);
  }

  /** Every continuation of the run keeps one commit per epoch. */
  ghost predicate StaysInOrder(L: Chain, cfg: Config, actions: seq<Action>) {
    forall more: seq<Action> :: EpochsFit(Run(L, cfg, actions + more)) ==>
      OneCommitPerEpoch(L, Run(L, cfg, actions + more).hub)
  }

  /**
   The exact condition: from a run in which the hub has accepted a commit, every
   continuation keeps one commit per epoch if and only if the first commit names a group.
   */
  lemma OrderHoldsExactlyOnceNamed(L: Chain, cfg: Config, actions: seq<Action>)
    requires 0 < |Run(L, cfg, actions).hub.log| < MAX_INT64
    ensures StaysInOrder(L, cfg, actions) <==> NamedFirst(Run(L, cfg, actions).hub.log)
  {
    if NamedFirst(Run(L, cfg, actions).hub.log) {
      forall more: seq<Action> | EpochsFit(Run(L, cfg, actions + more))
        ensures OneCommitPerEpoch(L, Run(L, cfg, actions + more).hub)
      {
        RunGrows(L, cfg, actions, more);
        RunKeepsHub(L, cfg, actions + more);
        HubInOrder(L, Run(L, cfg, actions + more).hub, Run(L, cfg, actions + more).hashed);
      }
    } else {
      UnnamedBreaks(L, cfg, actions);
    }
  }

  lemma {:induction false} RunGrows(L: Chain, cfg: Config, actions: seq<Action>, more: seq<Action>)
    ensures Run(L, cfg, actions).hub.log <= Run(L, cfg, actions + more).hub.log
    decreases |more|
  {
    if more == [] {
      assert actions + more == actions;
    } else {
      var n := |more| - 1;
      RunGrows(L, cfg, actions, more[..n]);
      assert actions + more == actions + more[..n] + [more[n]];
      RunOf(L, cfg, actions + more[..n], more[n]);
      StepGrows(L, cfg, Run(L, cfg, actions + more[..n]), more[n]);
    }
  }

  /** As long as the group has no name, the next establishing commit is accepted for epoch 0 again. */
  lemma UnnamedBreaks(L: Chain, cfg: Config, actions: seq<Action>)
    requires 0 < |Run(L, cfg, actions).hub.log| < MAX_INT64
    requires !NamedFirst(Run(L, cfg, actions).hub.log)
    ensures !StaysInOrder(L, cfg, actions)
  {
    var s := Run(L, cfg, actions);
    assert actions + [] == actions;
    if OneCommitPerEpoch(L, s.hub) {
      UnnamedHub(L, cfg, actions);
      assert s.hub.id == [];
      var a := HubPost(Establishing(0, [1]));
      EstablishingIsPostable(0, [1]);
      RunOf(L, cfg, actions, a);
      var hub := Run(L, cfg, actions + [a]).hub;
      assert hub.epoch == 1 && |hub.log| == |s.hub.log| + 1;
      assert EpochsFit(Run(L, cfg, actions + [a])) && !OneCommitPerEpoch(L, hub);
    } else {
      assert EpochsFit(Run(L, cfg, actions + []));
    }
  }

  /** While the order holds, the group is the one of the first commit. */
  lemma UnnamedHub(L: Chain, cfg: Config, actions: seq<Action>)
    requires Run(L, cfg, actions).hub.log != [] && !NamedFirst(Run(L, cfg, actions).hub.log)
    requires OneCommitPerEpoch(L, Run(L, cfg, actions).hub)
    ensures Run(L, cfg, actions).hub.id == []
  {
    var hub := Run(L, cfg, actions).hub;
    assert OneCommitFor(L, hub, 0);
    OneGroupPerBatch(L, cfg, actions);
    assert OneGroup(hub.log[0]);
  }

  ghost predicate OneGroup(batch: seq<Msg>) {
    batch != [] && forall i :: 0 <= i < |batch| ==> batch[i].group == batch[0].group
  }

  lemma {:induction false} OneGroupPerBatch(L: Chain, cfg: Config, actions: seq<Action>)
    ensures forall b :: b in Run(L, cfg, actions).hub.log ==> OneGroup(b)
  {
    if actions != [] {
      var n := |actions| - 1;
      OneGroupPerBatch(L, cfg, actions[..n]);
      var s, t := Run(L, cfg, actions[..n]), Run(L, cfg, actions);
      assert t == Step(L, cfg, s, actions[n]);
      forall b | b in t.hub.log ensures OneGroup(b) {
        if b !in s.hub.log {
          NewBatchHasOneGroup(L, cfg, s, actions[n], b);
        }
      }
    }
  }

  lemma NewBatchHasOneGroup(L: Chain, cfg: Config, s: World, a: Action, b: seq<Msg>)
    requires b in Step(L, cfg, s, a).hub.log && b !in s.hub.log
    ensures OneGroup(b)
  {
    assert a.HubPost? || a.HubSubmit?;
    BatchShape(a.req, Step(L, cfg, s, a).hub.head);
    assert b == Stamp(BatchOf(a.req), Step(L, cfg, s, a).hub.head);
  }

  /** A follower may also publish a commit-typed message that no compare-and-set has accepted. */
  lemma UnacceptedCommitIsAnnounced(L: Chain, cfg: Config, sender: UserId, from: Host)
    requires (sender, from) in cfg.homes
    ensures exists actions: seq<Action>, m: Msg ::
      m.kind.Commit? && Announced(Run(L, cfg, actions), [m]) && [m] !in Run(L, cfg, actions).hub.log
  {
    var a := HubMessage(from, sender, [0], Commit);
    RunOf(L, cfg, [], a);
    assert [] + [a] == [a];
    var m := PlainMsg(sender, [0], Commit);
    assert [m] in Run(L, cfg, [a]).published && Run(L, cfg, [a]).hub.log == [];
    assert Announced(Run(L, cfg, [a]), [m]);
  }

  /** No mirror takes it for one: without a link it starts no applier. */
  lemma PlainRelayIsRefused(L: Chain, cfg: Config, s: World, e: Envelope)
    requires DigestLinks(L) && e.to in s.mirrors && Plain(FromWire(e.batch))
    ensures Verify(L, cfg, s, e).appliers == s.appliers && Verify(L, cfg, s, e).mirrors == s.mirrors
  {
    if FirstCommitWire(e.batch).Some? {
      var m := FirstCommitWire(e.batch).value.msg;
      if m.chainHash != [] {
        PlainHasNoLink(FromWire(e.batch));
      }
      assert |L(Position(s.mirrors[e.to].group.head, m.epoch, m.group, m.ciphertext))| == 32;
    }
  }
}
