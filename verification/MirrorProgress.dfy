/**
 When exactly a mirror gets past an epoch: some delivery of the hub's next commit has to
 meet it there.  A run in which none ever does, and one in which a forged relay does.
 */
module MirrorProgress {
  import opened Bytes
  import opened OrderingChain
  import opened GroupStore
  import opened FederatedOrder
  import opened FederatedOrderProof
  import opened FederatedOrderTheorems
  import FollowerInputs

  // -------------------------------------------------------------- what a delivery is

  /** `m` is the commit of the hub's batch: epoch, group, commit and link. */
  ghost predicate IsCommitOf(m: Msg, batch: seq<Msg>) {
    && batch != []
    && (var d := batch[|batch| - 1];
        m.epoch == d.epoch && m.group == d.group && m.ciphertext == d.ciphertext && m.chainHash == d.chainHash)
  }

  /** The step hands mirror `h` the hub's commit after epoch `e`, in a relay or in a reply, signed as required. */
  ghost predicate HandsOver(cfg: Config, s: World, a: Action, h: Host, e: nat) {
    && Enabled(cfg, s, a) && e < |s.hub.log|
    && match a
       case Deliver(env) =>
         && env.to == h && FirstCommitWire(env.batch).Some?
         && (var c := FirstCommitWire(env.batch).value;
             IsCommitOf(c.msg, s.hub.log[e]) && SignatureAccepted(cfg, c.msg.chainHash, c.sig))
       case ReceiveReply(r) => r.to == h && r.req.baseEpoch == e && SignatureAccepted(cfg, r.hash, r.sig)
       case _ => false
  }

  /** The applier such a step starts on a mirror that stands at this head. */
  ghost function Started(a: Action, head: Octets): Applier
    requires a.ReceiveReply? || (a.Deliver? && FirstCommitWire(a.envelope.batch).Some?)
  {
    if a.Deliver? then
      var m := FirstCommitWire(a.envelope.batch).value.msg;
      Applier(a.envelope.to, m.group, Pred(m.epoch), FromWire(a.envelope.batch), head)
    else Applier(a.reply.to, a.reply.req.group, a.reply.req.baseEpoch, BatchAt(a.reply.req, a.reply.epoch), head)
  }

  ghost predicate Stands(s: World, h: Host, e: nat) {
    h in s.mirrors && s.mirrors[h].group.epoch == e
  }

  /** The hub's next commit is handed over while the mirror stands at `e`, and that applier runs later. */
  ghost predicate MeetsAt(L: Chain, cfg: Config, actions: seq<Action>, h: Host, e: nat, i: nat, j: nat) {
    && i < j < |actions|
    && var s := Run(L, cfg, actions[..i]);
      && Stands(s, h, e) && HandsOver(cfg, s, actions[i], h, e)
      && actions[j] == CompareAndSet(Started(actions[i], s.mirrors[h].group.head))
  }

  // ------------------------------------------------------------------- prefixes of runs

  lemma {:induction false} PrefixAssumed(L: Chain, cfg: Config, actions: seq<Action>, i: nat)
    requires i <= |actions| && Assumed(L, Run(L, cfg, actions))
    ensures Assumed(L, Run(L, cfg, actions[..i]))
    ensures Run(L, cfg, actions[..i]).hub.log <= Run(L, cfg, actions).hub.log
    ensures Run(L, cfg, actions[..i]).hashed <= Run(L, cfg, actions).hashed
    decreases |actions|
  {
    if i == |actions| {
      assert actions[..i] == actions;
    } else {
      var n := |actions| - 1;
      StepGrows(L, cfg, Run(L, cfg, actions[..n]), actions[n]);
      PrefixAssumed(L, cfg, actions[..n], i);
      assert actions[..n][..i] == actions[..i];
    }
  }

  lemma StepAt(L: Chain, cfg: Config, actions: seq<Action>, i: nat)
    requires i < |actions|
    ensures Run(L, cfg, actions[..i + 1]) == Step(L, cfg, Run(L, cfg, actions[..i]), actions[i])
  {
    assert actions[..i + 1][..i] == actions[..i];
  }

  /** A mirror keeps its start and never goes back; appliers are kept. */
  ghost predicate Onward(s: World, t: World) {
    && s.appliers <= t.appliers
    && forall h :: h in s.mirrors ==>
      h in t.mirrors && t.mirrors[h].start == s.mirrors[h].start
      && s.mirrors[h].group.epoch <= t.mirrors[h].group.epoch
  }

  lemma CasMoves(L: Chain, s: World, a: Applier)
    requires a.host in s.mirrors
    requires Admits(s.mirrors[a.host].group, a.group, a.base) ==> s.mirrors[a.host].group.epoch == a.base < MAX_INT64
    ensures Onward(s, MirrorCas(L, s, a))
    ensures Admits(s.mirrors[a.host].group, a.group, a.base) ==>
      MirrorCas(L, s, a).mirrors[a.host].group.epoch == a.base + 1
    ensures !Admits(s.mirrors[a.host].group, a.group, a.base) ==> MirrorCas(L, s, a) == s
    ensures forall h :: h in MirrorCas(L, s, a).mirrors && h != a.host ==>
      h in s.mirrors && MirrorCas(L, s, a).mirrors[h] == s.mirrors[h]
  {
  }

  lemma CasOnward(L: Chain, cfg: Config, s: World, a: Applier)
    requires Inv(L, cfg, s) && a in s.appliers && a.host in s.mirrors
    ensures Onward(s, MirrorCas(L, s, a))
    ensures Admits(s.mirrors[a.host].group, a.group, a.base) ==>
      MirrorCas(L, s, a).mirrors[a.host].group.epoch == a.base + 1 && s.mirrors[a.host].group.epoch == a.base
    ensures !Admits(s.mirrors[a.host].group, a.group, a.base) ==> MirrorCas(L, s, a) == s
    ensures forall h :: h in MirrorCas(L, s, a).mirrors && h != a.host ==>
      h in s.mirrors && MirrorCas(L, s, a).mirrors[h] == s.mirrors[h]
  {
    if Admits(s.mirrors[a.host].group, a.group, a.base) {
      CasOnVerifiedHead(L, cfg, s, a);
      assert ApplierSound(cfg.tampering, s.hub, a);
    }
    CasMoves(L, s, a);
  }

  lemma OtherStepsOnward(L: Chain, cfg: Config, s: World, a: Action)
    requires !a.CompareAndSet?
    ensures Onward(s, Step(L, cfg, s, a))
  {
  }

  lemma StepOnward(L: Chain, cfg: Config, s: World, a: Action)
    requires Inv(L, cfg, s)
    ensures Onward(s, Step(L, cfg, s, a))
  {
    if !a.CompareAndSet? {
      OtherStepsOnward(L, cfg, s, a);
    } else if a.applier in s.appliers && a.applier.host in s.mirrors {
      StepApplies(L, cfg, s, a.applier);
      CasOnward(L, cfg, s, a.applier);
    }
  }

  lemma {:induction false} RunOnward(L: Chain, cfg: Config, actions: seq<Action>, i: nat)
    requires i <= |actions| && Assumed(L, Run(L, cfg, actions))
    ensures Onward(Run(L, cfg, actions[..i]), Run(L, cfg, actions))
    decreases |actions|
  {
    if i == |actions| {
      assert actions[..i] == actions;
    } else {
      var n := |actions| - 1;
      PrefixAssumed(L, cfg, actions, n);
      RunOnward(L, cfg, actions[..n], i);
      assert actions[..n][..i] == actions[..i];
      RunKeeps(L, cfg, actions[..n]);
      StepOnward(L, cfg, Run(L, cfg, actions[..n]), actions[n]);
    }
  }

  // ------------------------------------------------------- a hand-over starts an applier

  /** The hub's next commit links to the head it follows. */
  lemma NextLink(L: Chain, hub: Group, hashed: set<Position>, e: nat, m: Msg)
    requires HubOrdered(L, hub, hashed) && e < |hub.log| && IsCommitOf(m, hub.log[e])
    ensures L(Position(HeadAt(hub.log, e), m.epoch, m.group, m.ciphertext)) == m.chainHash && m.epoch == e + 1
  {
    assert BatchOrdered(L, hub, hashed, e);
  }

  lemma VerifyStarts(L: Chain, cfg: Config, s: World, x: Action, h: Host)
    requires h in s.mirrors && (x.ReceiveReply? || (x.Deliver? && FirstCommitWire(x.envelope.batch).Some?))
    requires h == if x.Deliver? then x.envelope.to else x.reply.to
    requires Passes(L, cfg, x, s.mirrors[h].group.head)
    ensures Started(x, s.mirrors[h].group.head)
         in (if x.Deliver? then Verify(L, cfg, s, x.envelope) else VerifyReply(L, cfg, s, x.reply)).appliers
  {
  }

  lemma ReplyLink(L: Chain, cfg: Config, s: World, r: Reply)
    requires HubOrdered(L, s.hub, s.hashed) && ReplySound(s.hub, r)
    ensures L(Position(HeadAt(s.hub.log, r.req.baseEpoch), r.epoch, r.req.group, r.req.commit)) == r.hash
  {
    assert BatchOrdered(L, s.hub, s.hashed, r.req.baseEpoch);
    BatchShape(r.req, r.hash);
  }

  lemma HandOverPasses(L: Chain, cfg: Config, s: World, x: Action, h: Host, e: nat)
    requires Inv(L, cfg, s) && Stands(s, h, e) && HandsOver(cfg, s, x, h, e)
    ensures Passes(L, cfg, x, s.mirrors[h].group.head)
    ensures var a := Started(x, s.mirrors[h].group.head); a.base == e && a.host == h
  {
    assert Follows(cfg.tampering, s.hub, s.mirrors[h]);
    if x.Deliver? {
      NextLink(L, s.hub, s.hashed, e, FirstCommitWire(x.envelope.batch).value.msg);
    } else {
      assert ReplySound(s.hub, x.reply);
      ReplyLink(L, cfg, s, x.reply);
    }
  }

  lemma HandOverStarts(L: Chain, cfg: Config, s: World, x: Action, h: Host, e: nat)
    requires Inv(L, cfg, s) && Stands(s, h, e) && HandsOver(cfg, s, x, h, e)
    ensures Holding(Step(L, cfg, s, x), Started(x, s.mirrors[h].group.head), e)
  {
    HandOverPasses(L, cfg, s, x, h, e);
    VerifyStarts(L, cfg, s, x, h);
    OtherStepsOnward(L, cfg, s, x);
  }

  /** The applier of the commit after `e` is there, and its mirror stands at `e` or further. */
  ghost predicate Holding(t: World, a: Applier, e: nat) {
    a in t.appliers && a.base == e && a.host in t.mirrors && e <= t.mirrors[a.host].group.epoch
  }

  /** An applier of the mirror's next commit is admitted, whoever started it. */
  lemma NextIsAdmitted(L: Chain, cfg: Config, s: World, a: Applier)
    requires Inv(L, cfg, s) && a in s.appliers && Stands(s, a.host, a.base)
    ensures Admits(s.mirrors[a.host].group, a.group, a.base)
  {
    assert ApplierSound(cfg.tampering, s.hub, a);
    assert Follows(cfg.tampering, s.hub, s.mirrors[a.host]);
  }

  lemma MeetingAdvances(L: Chain, cfg: Config, actions: seq<Action>, h: Host, e: nat, i: nat, j: nat)
    requires Assumed(L, Run(L, cfg, actions)) && MeetsAt(L, cfg, actions, h, e, i, j)
    ensures Past(Run(L, cfg, actions), h, e)
  {
    HeldWhenApplied(L, cfg, actions, h, e, i, j);
    AppliedAt(L, cfg, actions, actions[j].applier, e, j);
    StillPast(L, cfg, actions, h, e, j + 1);
  }

  lemma HeldWhenApplied(L: Chain, cfg: Config, actions: seq<Action>, h: Host, e: nat, i: nat, j: nat)
    requires Assumed(L, Run(L, cfg, actions)) && MeetsAt(L, cfg, actions, h, e, i, j)
    ensures actions[j].CompareAndSet? && actions[j].applier.host == h
    ensures Holding(Run(L, cfg, actions[..j]), actions[j].applier, e)
  {
    HandedOver(L, cfg, actions, h, e, i);
    StillHolding(L, cfg, actions, actions[j].applier, e, i + 1, j);
  }

  lemma StillPast(L: Chain, cfg: Config, actions: seq<Action>, h: Host, e: nat, j: nat)
    requires j <= |actions| && Assumed(L, Run(L, cfg, actions)) && Past(Run(L, cfg, actions[..j]), h, e)
    ensures Past(Run(L, cfg, actions), h, e)
  {
    RunOnward(L, cfg, actions, j);
  }

  ghost predicate Past(t: World, h: Host, e: nat) {
    h in t.mirrors && e < t.mirrors[h].group.epoch
  }

  lemma HandedOver(L: Chain, cfg: Config, actions: seq<Action>, h: Host, e: nat, i: nat)
    requires i < |actions| && Assumed(L, Run(L, cfg, actions))
    requires var s := Run(L, cfg, actions[..i]); Stands(s, h, e) && HandsOver(cfg, s, actions[i], h, e)
    ensures var s := Run(L, cfg, actions[..i]);
      var a := Started(actions[i], s.mirrors[h].group.head);
      Holding(Run(L, cfg, actions[..i + 1]), a, e) && a.host == h
  {
    PrefixAssumed(L, cfg, actions, i);
    RunKeeps(L, cfg, actions[..i]);
    HandOverStarts(L, cfg, Run(L, cfg, actions[..i]), actions[i], h, e);
    StepAt(L, cfg, actions, i);
  }

  lemma StillHolding(L: Chain, cfg: Config, actions: seq<Action>, a: Applier, e: nat, i: nat, j: nat)
    requires i <= j <= |actions| && Assumed(L, Run(L, cfg, actions)) && Holding(Run(L, cfg, actions[..i]), a, e)
    ensures Holding(Run(L, cfg, actions[..j]), a, e)
  {
    PrefixAssumed(L, cfg, actions, j);
    assert actions[..j][..i] == actions[..i];
    RunOnward(L, cfg, actions[..j], i);
  }

  lemma AppliedAt(L: Chain, cfg: Config, actions: seq<Action>, a: Applier, e: nat, j: nat)
    requires j < |actions| && Assumed(L, Run(L, cfg, actions)) && Holding(Run(L, cfg, actions[..j]), a, e)
    requires actions[j] == CompareAndSet(a)
    ensures Past(Run(L, cfg, actions[..j + 1]), a.host, e)
  {
    PrefixAssumed(L, cfg, actions, j);
    RunKeeps(L, cfg, actions[..j]);
    AppliedNow(L, cfg, Run(L, cfg, actions[..j]), a, e);
    StepAt(L, cfg, actions, j);
  }

  lemma AppliedNow(L: Chain, cfg: Config, u: World, a: Applier, e: nat)
    requires Inv(L, cfg, u) && Holding(u, a, e)
    ensures Past(Step(L, cfg, u, CompareAndSet(a)), a.host, e)
  {
    StepApplies(L, cfg, u, a);
    CasOnward(L, cfg, u, a);
    if u.mirrors[a.host].group.epoch == e {
      NextIsAdmitted(L, cfg, u, a);
    }
  }

  // ------------------------------------------------------ an advance needs a hand-over

  /** Step `i` started `a`, at the head its mirror then had. */
  ghost predicate StartedAt(L: Chain, cfg: Config, actions: seq<Action>, a: Applier, i: nat) {
    && i < |actions| && a in Run(L, cfg, actions[..i + 1]).appliers
    && StartedIn(L, cfg, Run(L, cfg, actions[..i]), actions[i], a)
  }

  ghost predicate StartedIn(L: Chain, cfg: Config, s: World, x: Action, a: Applier) {
    && Enabled(cfg, s, x) && a.host in s.mirrors
    && (x.ReceiveReply? || (x.Deliver? && FirstCommitWire(x.envelope.batch).Some?))
    && a == Started(x, s.mirrors[a.host].group.head) && Passes(L, cfg, x, a.seen)
  }

  /** The check of the link and of the signature. */
  ghost predicate Passes(L: Chain, cfg: Config, x: Action, head: Octets)
    requires x.ReceiveReply? || (x.Deliver? && FirstCommitWire(x.envelope.batch).Some?)
  {
    if x.Deliver? then
      var c := FirstCommitWire(x.envelope.batch).value;
      L(Position(head, c.msg.epoch, c.msg.group, c.msg.ciphertext)) == c.msg.chainHash
      && SignatureAccepted(cfg, c.msg.chainHash, c.sig)
    else
      L(Position(head, x.reply.epoch, x.reply.req.group, x.reply.req.commit)) == x.reply.hash
      && SignatureAccepted(cfg, x.reply.hash, x.reply.sig)
  }

  lemma NewApplier(L: Chain, cfg: Config, s: World, x: Action, a: Applier)
    requires a in Step(L, cfg, s, x).appliers && a !in s.appliers
    ensures StartedIn(L, cfg, s, x, a)
  {
    assert Enabled(cfg, s, x);
    assert x.Deliver? || x.ReceiveReply?;
  }

  lemma {:induction false} EveryApplierWasStarted(L: Chain, cfg: Config, actions: seq<Action>, a: Applier)
    requires a in Run(L, cfg, actions).appliers
    ensures exists i: nat :: StartedAt(L, cfg, actions, a, i)
  {
    assert actions != [];
    var n := |actions| - 1;
    if a in Run(L, cfg, actions[..n]).appliers {
      EveryApplierWasStarted(L, cfg, actions[..n], a);
      var i: nat :| StartedAt(L, cfg, actions[..n], a, i);
      assert actions[..n][..i] == actions[..i] && actions[..n][..i + 1] == actions[..i + 1];
      assert StartedAt(L, cfg, actions, a, i);
    } else {
      assert actions[..n + 1] == actions;
      StepAt(L, cfg, actions, n);
      NewApplier(L, cfg, Run(L, cfg, actions[..n]), actions[n], a);
      assert StartedAt(L, cfg, actions, a, n);
    }
  }

  lemma StartedOnSameHub(L: Chain, cfg: Config, s: World, x: Action)
    requires x.Deliver? || x.ReceiveReply?
    ensures Step(L, cfg, s, x).hub == s.hub
  {
  }

  lemma SoundWhenStarted(L: Chain, cfg: Config, actions: seq<Action>, a: Applier, i: nat)
    requires Assumed(L, Run(L, cfg, actions)) && StartedAt(L, cfg, actions, a, i)
    ensures var s := Run(L, cfg, actions[..i]);
      Assumed(L, s) && Inv(L, cfg, s) && ApplierSound(cfg.tampering, s.hub, a)
  {
    PrefixAssumed(L, cfg, actions, i);
    PrefixAssumed(L, cfg, actions, i + 1);
    RunKeeps(L, cfg, actions[..i]);
    RunKeeps(L, cfg, actions[..i + 1]);
    StepAt(L, cfg, actions, i);
    StartedOnSameHub(L, cfg, Run(L, cfg, actions[..i]), actions[i]);
  }

  /** The hub never comes back to a head. */
  lemma HeadsAreDistinct(L: Chain, hub: Group, hashed: set<Position>, k: nat, m: nat)
    requires DigestLinks(L) && HubOrdered(L, hub, hashed) && NamesPositions(L, hashed)
    requires k <= |hub.log| && m <= |hub.log| && HeadAt(hub.log, k) == HeadAt(hub.log, m)
    ensures k == m
  {
    HeadIsDigest(L, hub, hashed, k);
    HeadIsDigest(L, hub, hashed, m);
    if k > 0 && m > 0 {
      var b := hub.log[k - 1];
      assert BatchOrdered(L, hub, hashed, k - 1);
      HeadIsDigest(L, hub, hashed, k - 1);
      LinkIsTheHubs(L, hub, hashed, m, HeadAt(hub.log, k - 1), k, hub.id, b[|b| - 1].ciphertext);
    }
  }

  /** A started applier was handed the hub's next commit where its mirror then stood. */
  lemma StartedMeansHandedOver(L: Chain, cfg: Config, s: World, x: Action, a: Applier)
    requires DigestLinks(L) && NamesPositions(L, s.hashed) && HubOrdered(L, s.hub, s.hashed)
    requires ApplierSound(cfg.tampering, s.hub, a) && StartedIn(L, cfg, s, x, a)
    requires Follows(cfg.tampering, s.hub, s.mirrors[a.host])
    ensures Stands(s, a.host, a.base) && HandsOver(cfg, s, x, a.host, a.base)
  {
    HeadsAreDistinct(L, s.hub, s.hashed, s.mirrors[a.host].group.epoch, a.base);
    if x.Deliver? {
      DeliveredIsNext(L, cfg, s, x.envelope, a);
    }
  }

  lemma DeliveredIsNext(L: Chain, cfg: Config, s: World, e: Envelope, a: Applier)
    requires HubOrdered(L, s.hub, s.hashed) && ApplierSound(cfg.tampering, s.hub, a)
    requires FirstCommitWire(e.batch).Some? && a == Started(Deliver(e), a.seen) && Passes(L, cfg, Deliver(e), a.seen)
    ensures IsCommitOf(FirstCommitWire(e.batch).value.msg, s.hub.log[a.base])
  {
    var m := FirstCommitWire(e.batch).value.msg;
    SoundAppliersCommit(L, cfg.tampering, s.hub, s.hashed, a);
    assert FirstCommit(a.msgs) == Some(m);
  }

  /** A sound applier's commit is the hub's, and the head it was checked against leads to the hub's next. */
  lemma SoundAppliersCommit(L: Chain, tampering: bool, hub: Group, hashed: set<Position>, a: Applier)
    requires HubOrdered(L, hub, hashed) && ApplierSound(tampering, hub, a) && FirstCommit(a.msgs).Some?
    ensures var c, b := FirstCommit(a.msgs).value, hub.log[a.base];
      && b != [] && c.epoch == b[|b| - 1].epoch && c.group == b[|b| - 1].group && c.ciphertext == b[|b| - 1].ciphertext
      && L(Position(a.seen, c.epoch, c.group, c.ciphertext)) == b[|b| - 1].chainHash
  {
    FirstCommitOfStamped(a.msgs, HeadAt(hub.log, a.base + 1));
    assert BatchOrdered(L, hub, hashed, a.base);
  }

  lemma OtherStepsDoNotAdvance(L: Chain, cfg: Config, s: World, x: Action, h: Host, e: nat)
    requires !x.CompareAndSet? && Past(Step(L, cfg, s, x), h, e) && Step(L, cfg, s, x).mirrors[h].start <= e
    ensures Past(s, h, e)
  {
  }

  /** The step that took the mirror past `e` ran an applier of the commit after `e`. */
  lemma AdvancedBy(L: Chain, cfg: Config, s: World, x: Action, h: Host, e: nat)
    requires Inv(L, cfg, s) && Past(Step(L, cfg, s, x), h, e) && Step(L, cfg, s, x).mirrors[h].start <= e
    requires !Past(s, h, e)
    ensures x.CompareAndSet? && x.applier.host == h && x.applier.base == e && x.applier in s.appliers
  {
    if !x.CompareAndSet? {
      OtherStepsDoNotAdvance(L, cfg, s, x, h, e);
    } else if x.applier in s.appliers && x.applier.host in s.mirrors {
      StepApplies(L, cfg, s, x.applier);
      CasOnward(L, cfg, s, x.applier);
    }
  }

  /** It was started at an earlier step, which was the hand-over. */
  lemma HandOverBefore(L: Chain, cfg: Config, actions: seq<Action>, a: Applier, e: nat)
    requires Assumed(L, Run(L, cfg, actions)) && a in Run(L, cfg, actions).appliers && a.base == e
    ensures exists i: nat :: i < |actions| && HandedOverAt(L, cfg, actions, a, e, i)
  {
    EveryApplierWasStarted(L, cfg, actions, a);
    var i: nat :| StartedAt(L, cfg, actions, a, i);
    SoundWhenStarted(L, cfg, actions, a, i);
    StartedMeansHandedOver(L, cfg, Run(L, cfg, actions[..i]), actions[i], a);
    assert HandedOverAt(L, cfg, actions, a, e, i);
  }

  ghost predicate HandedOverAt(L: Chain, cfg: Config, actions: seq<Action>, a: Applier, e: nat, i: nat)
    requires i < |actions|
  {
    var s := Run(L, cfg, actions[..i]);
    Stands(s, a.host, e) && HandsOver(cfg, s, actions[i], a.host, e)
    && a == Started(actions[i], s.mirrors[a.host].group.head)
  }

  lemma LastStepApplies(L: Chain, cfg: Config, actions: seq<Action>, h: Host, e: nat)
    requires actions != [] && Assumed(L, Run(L, cfg, actions)) && Past(Run(L, cfg, actions), h, e)
    requires Run(L, cfg, actions).mirrors[h].start <= e
    requires !Past(Run(L, cfg, actions[..|actions| - 1]), h, e)
    ensures var n := |actions| - 1; var x := actions[n];
      && x.CompareAndSet? && x.applier.host == h && x.applier.base == e
      && x.applier in Run(L, cfg, actions[..n]).appliers && Assumed(L, Run(L, cfg, actions[..n]))
  {
    var n := |actions| - 1;
    PrefixAssumed(L, cfg, actions, n);
    RunKeeps(L, cfg, actions[..n]);
    AdvancedBy(L, cfg, Run(L, cfg, actions[..n]), actions[n], h, e);
  }

  lemma LastStepAdvances(L: Chain, cfg: Config, actions: seq<Action>, h: Host, e: nat)
    requires actions != [] && Assumed(L, Run(L, cfg, actions)) && Past(Run(L, cfg, actions), h, e)
    requires Run(L, cfg, actions).mirrors[h].start <= e
    requires !Past(Run(L, cfg, actions[..|actions| - 1]), h, e)
    ensures exists i: nat, j: nat :: MeetsAt(L, cfg, actions, h, e, i, j)
  {
    var n := |actions| - 1;
    LastStepApplies(L, cfg, actions, h, e);
    HandOverBefore(L, cfg, actions[..n], actions[n].applier, e);
    var i: nat :| i < n && HandedOverAt(L, cfg, actions[..n], actions[n].applier, e, i);
    assert actions[..n][..i] == actions[..i];
    assert MeetsAt(L, cfg, actions, h, e, i, n);
  }

  lemma StartIsKept(L: Chain, cfg: Config, actions: seq<Action>, h: Host)
    requires actions != [] && Assumed(L, Run(L, cfg, actions)) && h in Run(L, cfg, actions[..|actions| - 1]).mirrors
    ensures h in Run(L, cfg, actions).mirrors
    ensures Run(L, cfg, actions).mirrors[h].start == Run(L, cfg, actions[..|actions| - 1]).mirrors[h].start
  {
    RunOnward(L, cfg, actions, |actions| - 1);
  }

  lemma {:induction false} AdvanceNeedsMeeting(L: Chain, cfg: Config, actions: seq<Action>, h: Host, e: nat)
    requires Assumed(L, Run(L, cfg, actions)) && Past(Run(L, cfg, actions), h, e)
    requires Run(L, cfg, actions).mirrors[h].start <= e
    ensures exists i: nat, j: nat :: MeetsAt(L, cfg, actions, h, e, i, j)
    decreases |actions|
  {
    assert actions != [];
    var n := |actions| - 1;
    if Past(Run(L, cfg, actions[..n]), h, e) {
      PrefixAssumed(L, cfg, actions, n);
      StartIsKept(L, cfg, actions, h);
      AdvanceNeedsMeeting(L, cfg, actions[..n], h, e);
      var i: nat, j: nat :| MeetsAt(L, cfg, actions[..n], h, e, i, j);
      assert actions[..n][..i] == actions[..i];
      assert MeetsAt(L, cfg, actions, h, e, i, j);
    } else {
      LastStepAdvances(L, cfg, actions, h, e);
    }
  }

  /**
   A mirror provisioned at or before epoch `e` gets past it in a run if and only if, at some
   moment when it stands at `e`, the hub's next commit is handed to it in a relay or a reply,
   and the applier this starts runs later.
   */
  lemma MirrorPassesEpochExactly(L: Chain, cfg: Config, actions: seq<Action>, h: Host, e: nat)
    requires Assumed(L, Run(L, cfg, actions)) && h in Run(L, cfg, actions).mirrors
    requires Run(L, cfg, actions).mirrors[h].start <= e
    ensures Run(L, cfg, actions).mirrors[h].group.epoch > e
       <==> exists i: nat, j: nat :: MeetsAt(L, cfg, actions, h, e, i, j)
  {
    if e < Run(L, cfg, actions).mirrors[h].group.epoch {
      AdvanceNeedsMeeting(L, cfg, actions, h, e);
    }
    if exists i: nat, j: nat :: MeetsAt(L, cfg, actions, h, e, i, j) {
      var i: nat, j: nat :| MeetsAt(L, cfg, actions, h, e, i, j);
      MeetingAdvances(L, cfg, actions, h, e, i, j);
    }
  }

  // --------------------------------------------------------------- a mirror left behind

  /** The hub has no participant but `h`, whose mirror has received nothing it could use. */
  ghost predicate Untouched(s: World, h: Host) {
    s.mirrors == map[h := Mirror(0, NO_GROUP)] && s.appliers == {} && s.participants == {h}
  }

  lemma Posted(L: Chain, cfg: Config, s: World, req: Request, h: Host)
    requires Untouched(s, h) && GoRequest(req) && Postable(req) && Admits(s.hub, req.group, req.baseEpoch)
    ensures var t := Step(L, cfg, s, HubPost(req));
      && Untouched(t, h) && t.hub == Advance(L, s.hub, req.group, req.baseEpoch, BatchOf(req))
      && t.net == s.net && t.pending == s.pending + {Pending(Stamp(BatchOf(req), t.hub.head), None)}
  {
  }

  lemma FannedOut(L: Chain, cfg: Config, s: World, p: Pending, h: Host)
    requires Untouched(s, h) && p in s.pending && p.except == None
    ensures var t := Step(L, cfg, s, FanOut(p));
      && Untouched(t, h) && t.hub == s.hub && t.pending == s.pending - {p}
      && t.net == s.net + {Envelope(h, ToWire(cfg, p.batch))}
  {
    assert (set g | g in Recipients({h}, None) :: Envelope(g, ToWire(cfg, p.batch)))
        == {Envelope(h, ToWire(cfg, p.batch))};
  }

  lemma Refused(L: Chain, cfg: Config, s: World, e: Envelope, h: Host)
    requires Untouched(s, h) && e in s.net && e.to == h && FirstCommitWire(e.batch).Some?
    requires var m := FirstCommitWire(e.batch).value.msg;
      L(Position([], m.epoch, m.group, m.ciphertext)) != m.chainHash
    ensures var t := Step(L, cfg, s, Deliver(e)); Untouched(t, h) && t.hub == s.hub && t.net == s.net
  {
    StepDelivers(L, cfg, s, e);
  }

  /** An opaque commit of group 1 on the given epoch, and the batch it becomes. */
  function Opaque(epoch: nat): Request
    requires epoch < 2
  {
    Request(0, [1], epoch, [], [0])
  }

  function OpaqueBatch(epoch: nat, link: Octets): seq<Msg>
    requires epoch < 2
  {
    [Msg(0, [0], Commit, epoch + 1, [1], link)]
  }

  lemma OpaqueIsPostable(epoch: nat)
    requires epoch < 2
    ensures Postable(Opaque(epoch)) && GoRequest(Opaque(epoch))
    ensures BatchOf(Opaque(epoch)) == OpaqueBatch(epoch, []) && CommitCiphertext(BatchOf(Opaque(epoch))) == [0]
    ensures forall link :: Stamp(OpaqueBatch(epoch, []), link) == OpaqueBatch(epoch, link)
  {
    FollowerInputs.EstablishingIsPostable(0, [1]);
    assert OpaqueBatch(epoch, [])[1..] == [];
  }

  /** The hub with two commits of group 1. */
  ghost function TwoCommits(L: Chain): Group {
    var first := L(Position([], 1, [1], [0]));
    var second := L(Position(first, 2, [1], [0]));
    Group([1], 2, second, [OpaqueBatch(0, first), OpaqueBatch(1, second)])
  }

  /** Two commits, both relayed; the second relay arrives, the first never does. */
  ghost function LosingRun(L: Chain, cfg: Config, h: Host): seq<Action> {
    var b := TwoCommits(L).log;
    [] + [Provision(h, 0)] + [AddParticipant(h)] + [HubPost(Opaque(0))] + [HubPost(Opaque(1))]
    + [FanOut(Pending(b[0], None))] + [FanOut(Pending(b[1], None))] + [Deliver(Envelope(h, ToWire(cfg, b[1])))]
  }

  lemma TwoPosted(L: Chain, cfg: Config, s: World, h: Host)
    requires Untouched(s, h) && s.hub == NO_GROUP && s.pending == {} && s.net == {}
    ensures var t := Step(L, cfg, Step(L, cfg, s, HubPost(Opaque(0))), HubPost(Opaque(1)));
      var b := TwoCommits(L).log;
      && Untouched(t, h) && t.hub == TwoCommits(L) && t.net == {}
      && t.pending == {Pending(b[0], None), Pending(b[1], None)}
  {
    OpaqueIsPostable(0);
    OpaqueIsPostable(1);
    Posted(L, cfg, s, Opaque(0), h);
    var s1 := Step(L, cfg, s, HubPost(Opaque(0)));
    assert s1.hub.log == [OpaqueBatch(0, s1.hub.head)];
    Posted(L, cfg, s1, Opaque(1), h);
    var b := TwoCommits(L).log;
    assert {} + {Pending(b[0], None)} + {Pending(b[1], None)} == {Pending(b[0], None), Pending(b[1], None)};
  }

  lemma SecondArrives(L: Chain, cfg: Config, s: World, h: Host)
    requires Untouched(s, h) && s.hub == TwoCommits(L) && s.net == {}
    requires var b := TwoCommits(L).log; s.pending == {Pending(b[0], None), Pending(b[1], None)}
    requires L(Position([], 2, [1], [0])) != TwoCommits(L).head
    ensures var b := TwoCommits(L).log;
      var t := Step(L, cfg, Step(L, cfg, s, FanOut(Pending(b[0], None))), FanOut(Pending(b[1], None)));
      var u := Step(L, cfg, t, Deliver(Envelope(h, ToWire(cfg, b[1]))));
      Untouched(u, h) && u.hub == TwoCommits(L)
  {
    var b := TwoCommits(L).log;
    FannedOut(L, cfg, s, Pending(b[0], None), h);
    var s1 := Step(L, cfg, s, FanOut(Pending(b[0], None)));
    assert b[0] != b[1];
    FannedOut(L, cfg, s1, Pending(b[1], None), h);
    Refused(L, cfg, Step(L, cfg, s1, FanOut(Pending(b[1], None))), Envelope(h, ToWire(cfg, b[1])), h);
  }

  /** A reachable run leaves the hub two commits ahead of a mirror to which its next commit was lost. */
  lemma LostRelayLeavesTheMirrorBehind(L: Chain, cfg: Config, h: Host)
    requires NamesPositions(L, {Position([], 2, [1], [0]), Position(L(Position([], 1, [1], [0])), 2, [1], [0])})
    requires DigestLinks(L)
    ensures var s := Run(L, cfg, LosingRun(L, cfg, h));
      s.hub.epoch == 2 && StuckAt(s, h, Mirror(0, NO_GROUP))
  {
    var b := TwoCommits(L).log;
    var a1 := [] + [Provision(h, 0)];
    var a2 := a1 + [AddParticipant(h)];
    var a3 := a2 + [HubPost(Opaque(0))];
    var a4 := a3 + [HubPost(Opaque(1))];
    var a5 := a4 + [FanOut(Pending(b[0], None))];
    var a6 := a5 + [FanOut(Pending(b[1], None))];
    FollowerInputs.RunOf(L, cfg, [], Provision(h, 0));
    FollowerInputs.RunOf(L, cfg, a1, AddParticipant(h));
    FollowerInputs.RunOf(L, cfg, a2, HubPost(Opaque(0)));
    FollowerInputs.RunOf(L, cfg, a3, HubPost(Opaque(1)));
    FollowerInputs.RunOf(L, cfg, a4, FanOut(Pending(b[0], None)));
    FollowerInputs.RunOf(L, cfg, a5, FanOut(Pending(b[1], None)));
    FollowerInputs.RunOf(L, cfg, a6, Deliver(Envelope(h, ToWire(cfg, b[1]))));
    Provisioned(L, cfg, h);
    TwoPosted(L, cfg, Run(L, cfg, a2), h);
    assert |L(Position([], 1, [1], [0]))| == 32;
    SecondArrives(L, cfg, Run(L, cfg, a4), h);
  }

  lemma Provisioned(L: Chain, cfg: Config, h: Host)
    ensures var s := Step(L, cfg, Step(L, cfg, INITIAL, Provision(h, 0)), AddParticipant(h));
      Untouched(s, h) && s.hub == NO_GROUP && s.pending == {} && s.net == {}
  {
  }

  // ------------------------------------------------------ what a forged relay can change

  /** The hub's first commit under another sender's name, behind a Welcome the hub never saw. */
  function ForgedBatch(link: Octets): seq<Msg> {
    [Msg(1, [1], Welcome, 1, [1], []), Msg(1, [0], Commit, 1, [1], link)]
  }

  function ForgedRelay(cfg: Config, h: Host, link: Octets): Envelope {
    var b := ForgedBatch(link);
    Envelope(h, [Wire(b[0], Unsigned), Wire(b[1], Signed(cfg.hub, link))])
  }

  lemma ForgedBatchShape(cfg: Config, h: Host, link: Octets)
    ensures var e := ForgedRelay(cfg, h, link);
      && FromWire(e.batch) == ForgedBatch(link)
      && FirstCommitWire(e.batch) == Some(Wire(ForgedBatch(link)[1], Signed(cfg.hub, link)))
    ensures FirstCommit(ForgedBatch(link)) == Some(ForgedBatch(link)[1])
    ensures CommitCiphertext(ForgedBatch(link)) == [0] && Stamp(ForgedBatch(link), link) == ForgedBatch(link)
  {
    var e, b := ForgedRelay(cfg, h, link), ForgedBatch(link);
    assert e.batch[1..] == [e.batch[1]] && b[1..] == [b[1]];
    assert [e.batch[1]][1..] == [] && [b[1]][1..] == [];
  }

  /** The hub holds one commit, and the mirror has heard of nothing. */
  ghost predicate OneCommit(L: Chain, s: World, h: Host) {
    var first := L(Position([], 1, [1], [0]));
    Untouched(s, h) && s.hub == Group([1], 1, first, [OpaqueBatch(0, first)])
  }

  lemma OnePosted(L: Chain, cfg: Config, s: World, h: Host)
    requires Untouched(s, h) && s.hub == NO_GROUP
    ensures OneCommit(L, Step(L, cfg, s, HubPost(Opaque(0))), h)
  {
    OpaqueIsPostable(0);
    Posted(L, cfg, s, Opaque(0), h);
  }

  lemma ForgedArrives(L: Chain, cfg: Config, s: World, h: Host, link: Octets)
    requires OneCommit(L, s, h) && link == s.hub.head && cfg.tampering && cfg.checksSignatures
    ensures var e := ForgedRelay(cfg, h, link);
      var t := Step(L, cfg, Step(L, cfg, s, Inject(e)), Deliver(e));
      && t.hub == s.hub && t.mirrors == s.mirrors && Applier(h, [1], 0, ForgedBatch(link), []) in t.appliers
  {
    var e := ForgedRelay(cfg, h, link);
    ForgedBatchShape(cfg, h, link);
    assert HeadAt(s.hub.log, 1) == link;
    assert Forgeable(cfg, s.hub.log, e);
    var t := Step(L, cfg, s, Inject(e));
    assert t == s.(net := s.net + {e});
    StepDelivers(L, cfg, t, e);
    VerifyIs(L, cfg, t, e, FirstCommitWire(e.batch).value);
  }

  lemma ForgedApplied(L: Chain, cfg: Config, s: World, h: Host, link: Octets)
    requires link == L(Position([], 1, [1], [0])) && h in s.mirrors && s.mirrors[h] == Mirror(0, NO_GROUP)
    requires Applier(h, [1], 0, ForgedBatch(link), []) in s.appliers
    ensures var t := Step(L, cfg, s, CompareAndSet(Applier(h, [1], 0, ForgedBatch(link), [])));
      t.hub == s.hub && h in t.mirrors && t.mirrors[h] == Mirror(0, Group([1], 1, link, [ForgedBatch(link)]))
  {
    ForgedBatchShape(cfg, h, link);
    StepApplies(L, cfg, s, Applier(h, [1], 0, ForgedBatch(link), []));
  }

  /** The mirror's head is the hub's, and yet its copy of the batch is not. */
  ghost predicate ForgedCopy(s: World, h: Host) {
    && Applied(s, h, 0) && s.mirrors[h].group.head == s.hub.head && s.mirrors[h].group.epoch == s.hub.epoch
    && s.mirrors[h].group.log != s.hub.log
  }

  /**
   The link fixes epoch, group and ciphertext of a commit.  A Welcome beside it and the name
   of its sender are outside the link, and a forged relay can change them.
   */
  lemma ForgedWelcomeIsStored(L: Chain, cfg: Config, h: Host)
    requires cfg.tampering && cfg.checksSignatures && cfg.hubSigns && DigestLinks(L)
    ensures exists actions: seq<Action> :: ForgedCopy(Run(L, cfg, actions), h)
  {
    var link := L(Position([], 1, [1], [0]));
    var e := ForgedRelay(cfg, h, link);
    var a2 := [] + [Provision(h, 0)] + [AddParticipant(h)];
    var a3 := a2 + [HubPost(Opaque(0))];
    var a4 := a3 + [Inject(e)];
    var a5 := a4 + [Deliver(e)];
    var cas := CompareAndSet(Applier(h, [1], 0, ForgedBatch(link), []));
    FollowerInputs.RunOf(L, cfg, [], Provision(h, 0));
    FollowerInputs.RunOf(L, cfg, [] + [Provision(h, 0)], AddParticipant(h));
    FollowerInputs.RunOf(L, cfg, a2, HubPost(Opaque(0)));
    FollowerInputs.RunOf(L, cfg, a3, Inject(e));
    FollowerInputs.RunOf(L, cfg, a4, Deliver(e));
    FollowerInputs.RunOf(L, cfg, a5, cas);
    Provisioned(L, cfg, h);
    OnePosted(L, cfg, Run(L, cfg, a2), h);
    ForgedArrives(L, cfg, Run(L, cfg, a3), h, link);
    ForgedApplied(L, cfg, Run(L, cfg, a5), h, link);
    assert |OpaqueBatch(0, link)| != |ForgedBatch(link)|;
    assert ForgedCopy(Run(L, cfg, a5 + [cas]), h);
  }
}
