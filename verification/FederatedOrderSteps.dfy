/**
 What a single step of the federated order does, said of its inputs and outcome: who may
 commit, what an accepted commit adds, who is answered, and whom an announcement reaches.
 */
module FederatedOrderSteps {
  import opened Bytes
  import opened OrderingChain
  import opened GroupStore
  import opened FederatedOrder
  import opened FederatedOrderProof
  import opened FederatedOrderTheorems
  import MlsWire

  /** What a device's commit has to satisfy at the hub's own handler. */
  ghost predicate PassesHandler(req: Request) {
    && req.group != [] && req.commit != []
    && |req.commit| <= 256 * 1024 && |req.welcome| <= 256 * 1024 && req.baseEpoch >= 0
    && (MlsWire.Parse(req.commit).Got? ==>
        MlsWire.Parse(req.commit).value.contentType == 3 && MlsWire.Parse(req.commit).value.epoch == req.baseEpoch)
  }

  /** The commit comes from a device here, or from the host its sender lives on. */
  ghost predicate MayCommit(cfg: Config, a: Action) {
    match a
    case HubPost(req) => GoRequest(req) && PassesHandler(req)
    case HubSubmit(from, req) => GoRequest(req) && (req.sender, from) in cfg.homes
    case _ => false
  }

  /** Nobody has set up a group yet and the commit starts one, or it builds on the group's epoch. */
  ghost predicate BuildsOn(g: Group, req: Request) {
    (req.baseEpoch == 0 && g.id == []) || (req.baseEpoch == g.epoch && req.group == g.id)
  }

  function Submitter(a: Action): Option<Host> {
    if a.HubSubmit? then Some(a.from) else None
  }

  /** The hub's answer: the new link, signed if the hub signs. */
  ghost predicate Answers(cfg: Config, r: Reply, to: Host, req: Request, hub: Group) {
    && r.to == to && r.req == req && r.epoch == hub.epoch && r.hash == hub.head
    && (r.sig == if cfg.hubSigns && hub.head != [] then Signed(cfg.hub, hub.head) else Unsigned)
  }

  /** One more batch, as requested, on top of the old head; nothing else of the group is kept. */
  ghost predicate Extended(L: Chain, g: Group, req: Request, hub: Group) {
    && |hub.log| == |g.log| + 1 && g.log <= hub.log
    && AsRequested(hub.log[|g.log|], req, hub.epoch, hub.head)
    && hub.id == req.group && hub.epoch == Succ(req.baseEpoch)
    && hub.head == L(Position(g.head, hub.epoch, req.group, req.commit))
  }

  lemma BatchIsAsRequested(req: Request, epoch: Int64, link: Octets)
    ensures AsRequested(Stamp(BatchAt(req, epoch), link), req, epoch, link)
  {
    var b := Stamp(BatchAt(req, epoch), link);
    if req.welcome != [] {
      assert b[0].kind.Welcome?;
    }
  }

  /**
   A commit, local or forwarded, is accepted exactly if it may be made and builds on the
   group as it is.  Then the batch it asks for is appended and waits to be announced to all
   but the submitter, and the submitter is answered; otherwise nothing happens.
   */
  lemma CommitIsAcceptedExactly(L: Chain, cfg: Config, s: World, a: Action)
    requires a.HubPost? || a.HubSubmit?
    ensures var t := Step(L, cfg, s, a);
      if MayCommit(cfg, a) && BuildsOn(s.hub, a.req) then
        && Extended(L, s.hub, a.req, t.hub)
        && t.pending == s.pending + {Pending(t.hub.log[|s.hub.log|], Submitter(a))}
        && (a.HubPost? ==> t.replies == s.replies)
        && (a.HubSubmit? ==> exists r :: Answers(cfg, r, a.from, a.req, t.hub) && t.replies == s.replies + {r})
      else t == s
  {
    assert Enabled(cfg, s, a) <==> MayCommit(cfg, a);
    if MayCommit(cfg, a) && BuildsOn(s.hub, a.req) {
      AcceptedIs(L, cfg, s, a.req, Submitter(a));
      CommitIsTheStep(L, cfg, s, a, Submitter(a));
    }
  }

  lemma AcceptedIs(L: Chain, cfg: Config, s: World, req: Request, from: Option<Host>)
    requires Admits(s.hub, req.group, req.baseEpoch)
    ensures var t := HubCommit(L, cfg, s, req, from);
      && Extended(L, s.hub, req, t.hub)
      && t.pending == s.pending + {Pending(t.hub.log[|s.hub.log|], from)}
      && (from == None ==> t.replies == s.replies)
      && (from.Some? ==> exists r :: Answers(cfg, r, from.value, req, t.hub) && t.replies == s.replies + {r})
  {
    var t := HubCommit(L, cfg, s, req, from);
    BatchShape(req, t.hub.head);
    BatchIsAsRequested(req, Succ(req.baseEpoch), t.hub.head);
    assert t.hub.log == s.hub.log + [Stamp(BatchOf(req), t.hub.head)];
    if from.Some? {
      var r := Reply(from.value, req, Succ(req.baseEpoch), t.hub.head, HubSignature(cfg, t.hub.head));
      assert Answers(cfg, r, from.value, req, t.hub);
    }
  }

  /** The messages of a batch with what they carry on the wire: the hub's signature on a link, if it signs. */
  ghost predicate OnTheWire(cfg: Config, msgs: seq<Msg>, batch: seq<Wire>) {
    && |batch| == |msgs|
    && forall i :: 0 <= i < |msgs| ==>
      && batch[i].msg == msgs[i]
      && batch[i].sig == if cfg.hubSigns && msgs[i].chainHash != [] then Signed(cfg.hub, msgs[i].chainHash) else Unsigned
  }

  lemma WireOf(cfg: Config, msgs: seq<Msg>, batch: seq<Wire>)
    ensures OnTheWire(cfg, msgs, batch) <==> batch == ToWire(cfg, msgs)
  {
  }

  /** An accepted batch is published, and relayed to each participant host but the one it came from. */
  lemma FanOutReachesExactly(L: Chain, cfg: Config, s: World, p: Pending, e: Envelope)
    requires p in s.pending
    ensures var t := Step(L, cfg, s, FanOut(p));
      && t.published == s.published + {p.batch} && t.pending == s.pending - {p} && t.hub == s.hub
      && (e in t.net
          <==> e in s.net || (e.to in s.participants && p.except != Some(e.to) && OnTheWire(cfg, p.batch, e.batch)))
  {
    WireOf(cfg, p.batch, e.batch);
  }

  /** So is a message a follower submits for a member it homes, at once and with nothing accepted. */
  lemma MessageReachesExactly(L: Chain, cfg: Config, s: World, a: Action, e: Envelope)
    requires a.HubMessage?
    ensures var t := Step(L, cfg, s, a);
      var m := Msg(a.sender, a.ciphertext, a.kind, 0, [], []);
      if GoSized(a.ciphertext) && (a.sender, a.from) in cfg.homes then
        && t.published == s.published + {[m]} && t.hub == s.hub && t.pending == s.pending
        && (e in t.net
            <==> e in s.net || (e.to in s.participants && e.to != a.from && OnTheWire(cfg, [m], e.batch)))
      else t == s
  {
    WireOf(cfg, [Msg(a.sender, a.ciphertext, a.kind, 0, [], [])], e.batch);
  }
}
