/**
 One hub, any number of mirrors, and a network that may lose, delay, duplicate and
 reorder whatever is sent.  Reading a mirror's head and verifying a link against it is
 one step; the compare-and-set is a later one, so appliers interleave freely.

 Envelopes, replies and appliers are never removed from the state: a step may use any
 of them, any number of times, or never.  With `tampering` an intermediary may also put
 envelopes of its own on the network; it cannot make signatures of the hub, which are
 symbolic here.
 */
module FederatedOrder {
  import opened Bytes
  import opened OrderingChain
  import opened GroupStore
  import MlsWire

  type Host = nat

  datatype Signature = Unsigned | Signed(signer: Host, hash: Octets)

  datatype Wire = Wire(msg: Msg, sig: Signature)

  datatype Envelope = Envelope(to: Host, batch: seq<Wire>)

  /** A device's commit, as posted to its own host. */
  datatype Request = Request(
    sender: UserId, group: Octets, baseEpoch: Int64, welcome: Octets, commit: Octets)

  /** The hub's answer to a forwarded commit it accepted. */
  datatype Reply = Reply(to: Host, req: Request, epoch: Int64, hash: Octets, sig: Signature)

  /** A batch the hub accepted and has not fanned out yet. */
  datatype Pending = Pending(batch: seq<Msg>, except: Option<Host>)

  /** An applier on a mirror: it has verified a link against `seen`, and will compare-and-set. */
  datatype Applier = Applier(host: Host, group: Octets, base: Int64, msgs: seq<Msg>, seen: Octets)

  /** A mirror and the epoch it was provisioned at. */
  datatype Mirror = Mirror(start: nat, group: Group)

  datatype Config = Config(
    hub: Host, hubSigns: bool, checksSignatures: bool, tampering: bool, homes: set<(UserId, Host)>)

  datatype World = World(
    hub: Group,
    mirrors: map<Host, Mirror>,
    participants: set<Host>,
    pending: set<Pending>,
    published: set<seq<Msg>>,
    net: set<Envelope>,
    replies: set<Reply>,
    appliers: set<Applier>,
    hashed: set<Position>)

  datatype Action =
    | HubPost(req: Request)
    | HubSubmit(from: Host, req: Request)
    | HubMessage(from: Host, sender: UserId, ciphertext: Octets, kind: Kind)
    | FanOut(pending: Pending)
    | AddParticipant(host: Host)
    | Provision(host: Host, epoch: nat)
    | Inject(envelope: Envelope)
    | Deliver(envelope: Envelope)
    | ReceiveReply(reply: Reply)
    | CompareAndSet(applier: Applier)

  const MAX_CIPHERTEXT := 256 * 1024

  // ------------------------------------------------------------------ hub side

  /** The handler's checks before any state is touched. */
  predicate Postable(req: Request) {
    && req.group != []
    && 0 < |req.commit| <= MAX_CIPHERTEXT
    && |req.welcome| <= MAX_CIPHERTEXT
    && req.baseEpoch >= 0
    && EpochBacked(req)
  }

  /** A commit whose framing can be read must be a commit built on the declared epoch. */
  predicate EpochBacked(req: Request) {
    match MlsWire.Parse(req.commit)
    case Got(h, _) => h.contentType == MlsWire.CONTENT_TYPE_COMMIT && h.epoch == req.baseEpoch
    case Fail(_) => true
  }

  /** Welcome first, if there is one; then the commit; both stamped with the epoch it yields. */
  function BatchAt(req: Request, epoch: Int64): seq<Msg> {
    (if |req.welcome| > 0 then [Msg(req.sender, req.welcome, Welcome, epoch, req.group, [])] else [])
    + [Msg(req.sender, req.commit, Commit, epoch, req.group, [])]
  }

  /**
   The batch a request asks for: a Welcome if and only if the request brings one, then in
   front of the commit; both for this epoch and group, in the requester's name, and the
   commit with this link.
   */
  ghost predicate AsRequested(b: seq<Msg>, req: Request, epoch: Int64, link: Octets) {
    && ((exists m :: m in b && m.kind.Welcome?) <==> req.welcome != [])
    && |b| == (if req.welcome == [] then 1 else 2)
    && (req.welcome != [] ==> b[0] == Msg(req.sender, req.welcome, Welcome, epoch, req.group, []))
    && b[|b| - 1] == Msg(req.sender, req.commit, Commit, epoch, req.group, link)
  }

  function BatchOf(req: Request): seq<Msg> {
    BatchAt(req, Succ(req.baseEpoch))
  }

  function HubSignature(cfg: Config, hash: Octets): Signature {
    if cfg.hubSigns && hash != [] then Signed(cfg.hub, hash) else Unsigned
  }

  function ToWire(cfg: Config, msgs: seq<Msg>): (r: seq<Wire>)
    ensures |r| == |msgs|
    ensures forall i :: 0 <= i < |msgs| ==> r[i] == Wire(msgs[i], HubSignature(cfg, msgs[i].chainHash))
  {
    if msgs == [] then []
    else [Wire(msgs[0], HubSignature(cfg, msgs[0].chainHash))] + ToWire(cfg, msgs[1..])
  }

  function FromWire(batch: seq<Wire>): (r: seq<Msg>)
    ensures |r| == |batch|
    ensures forall i :: 0 <= i < |batch| ==> r[i] == batch[i].msg
  {
    if batch == [] then [] else [batch[0].msg] + FromWire(batch[1..])
  }

  function HubCommit(L: Chain, cfg: Config, s: World, req: Request, from: Option<Host>): World {
    if !Admits(s.hub, req.group, req.baseEpoch) then s
    else
      var batch := BatchOf(req);
      var hub := Advance(L, s.hub, req.group, req.baseEpoch, batch);
      var stored := Stamp(batch, hub.head);
      s.(hub := hub,
         pending := s.pending + {Pending(stored, from)},
         replies := s.replies + (match from
           case Some(h) => {Reply(h, req, Succ(req.baseEpoch), hub.head, HubSignature(cfg, hub.head))}
           case None => {}),
         hashed := s.hashed + {CasPosition(s.hub, req.group, req.baseEpoch, batch)})
  }

  function Recipients(participants: set<Host>, except: Option<Host>): set<Host> {
    match except
    case Some(h) => participants - {h}
    case None => participants
  }

  /** Only now, with the batch accepted, does anyone hear about it. */
  function HubFanOut(cfg: Config, s: World, p: Pending): World {
    s.(pending := s.pending - {p},
       published := s.published + {p.batch},
       net := s.net + set h | h in Recipients(s.participants, p.except) :: Envelope(h, ToWire(cfg, p.batch)))
  }

  /** A message from the ordinary message path: no epoch, no group, no link. */
  function PlainMsg(sender: UserId, ciphertext: Octets, kind: Kind): Msg {
    Msg(sender, ciphertext, kind, 0, [], [])
  }

  /** `SubmitMessage`: published and relayed at once, whatever content type the follower declares. */
  function HubRelay(cfg: Config, s: World, from: Host, m: Msg): World {
    s.(published := s.published + {[m]},
       net := s.net + set h | h in Recipients(s.participants, Some(from)) :: Envelope(h, ToWire(cfg, [m])))
  }

  // --------------------------------------------------------------- mirror side

  /** The hub's chain head after its first `k` commits. */
  function HeadAt(log: seq<seq<Msg>>, k: nat): Octets
    requires k <= |log|
  {
    if k == 0 || log[k - 1] == [] then [] else log[k - 1][|log[k - 1]| - 1].chainHash
  }

  /** The group state a provisioning request carries when the hub stood at epoch `k`. */
  function Snapshot(hub: Group, k: nat): Group
    requires k <= |hub.log| && k <= MAX_INT64
  {
    if k == 0 then NO_GROUP else Group(hub.id, k, HeadAt(hub.log, k), [])
  }

  predicate SignatureAccepted(cfg: Config, hash: Octets, sig: Signature) {
    !cfg.checksSignatures || sig == Signed(cfg.hub, hash)
  }

  function FirstCommitWire(batch: seq<Wire>): (r: Option<Wire>)
    ensures r.Some? ==> r.value in batch && r.value.msg.kind.Commit?
    ensures r.Some? <==> FirstCommit(FromWire(batch)).Some?
    ensures r.Some? ==> FirstCommit(FromWire(batch)).value == r.value.msg
  {
    if batch == [] then None
    else if batch[0].msg.kind.Commit? then Some(batch[0])
    else
      assert FromWire(batch)[1..] == FromWire(batch[1..]);
      FirstCommitWire(batch[1..])
  }

  /** Read the head and verify the relayed link against it. */
  function Verify(L: Chain, cfg: Config, s: World, e: Envelope): World
    requires e.to in s.mirrors
  {
    match FirstCommitWire(e.batch)
    case None => s
    case Some(c) =>
      var m := c.msg;
      var head := s.mirrors[e.to].group.head;
      var t := s.(hashed := s.hashed + {Position(head, m.epoch, m.group, m.ciphertext)});
      if L(Position(head, m.epoch, m.group, m.ciphertext)) == m.chainHash && SignatureAccepted(cfg, m.chainHash, c.sig)
      then t.(appliers := t.appliers + {Applier(e.to, m.group, Pred(m.epoch), FromWire(e.batch), head)})
      else t
  }

  /** The same check on the link the hub returned for this mirror's own commit. */
  function VerifyReply(L: Chain, cfg: Config, s: World, r: Reply): World
    requires r.to in s.mirrors
  {
    var head := s.mirrors[r.to].group.head;
    var t := s.(hashed := s.hashed + {Position(head, r.epoch, r.req.group, r.req.commit)});
    if L(Position(head, r.epoch, r.req.group, r.req.commit)) == r.hash && SignatureAccepted(cfg, r.hash, r.sig)
    then t.(appliers := t.appliers + {Applier(r.to, r.req.group, r.req.baseEpoch, BatchAt(r.req, r.epoch), head)})
    else t
  }

  function MirrorCas(L: Chain, s: World, a: Applier): World
    requires a.host in s.mirrors
  {
    var m := s.mirrors[a.host];
    if !Admits(m.group, a.group, a.base) then s
    else s.(mirrors := s.mirrors[a.host := m.(group := Advance(L, m.group, a.group, a.base, a.msgs))],
            hashed := s.hashed + {CasPosition(m.group, a.group, a.base, a.msgs)})
  }

  // --------------------------------------------------------------------- runs

  ghost predicate GoWire(e: Envelope) {
    forall w :: w in e.batch ==> GoSized(w.msg.group) && GoSized(w.msg.ciphertext)
  }

  ghost predicate GoRequest(req: Request) {
    GoSized(req.group) && GoSized(req.commit) && GoSized(req.welcome)
  }

  ghost predicate IsHead(log: seq<seq<Msg>>, hash: Octets) {
    exists k :: 1 <= k <= |log| && HeadAt(log, k) == hash
  }

  /** What an intermediary can make: any octets, but hub signatures only over hashes the hub signed. */
  ghost predicate Forgeable(cfg: Config, log: seq<seq<Msg>>, e: Envelope) {
    && GoWire(e)
    && forall w :: w in e.batch && w.sig.Signed? && w.sig.signer == cfg.hub ==> IsHead(log, w.sig.hash)
  }

  ghost predicate Enabled(cfg: Config, s: World, a: Action) {
    match a
    case HubPost(req) => GoRequest(req) && Postable(req)
    case HubSubmit(from, req) => GoRequest(req) && (req.sender, from) in cfg.homes
    case HubMessage(from, sender, ciphertext, _) => GoSized(ciphertext) && (sender, from) in cfg.homes
    case FanOut(p) => p in s.pending
    case AddParticipant(_) => true
    case Provision(host, k) => host !in s.mirrors && k <= |s.hub.log| && k <= MAX_INT64
    case Inject(e) => cfg.tampering && cfg.checksSignatures && Forgeable(cfg, s.hub.log, e)
    case Deliver(e) => e in s.net && e.to in s.mirrors
    case ReceiveReply(r) => r in s.replies && r.to in s.mirrors
    case CompareAndSet(t) => t in s.appliers && t.host in s.mirrors
  }

  ghost function Step(L: Chain, cfg: Config, s: World, a: Action): World {
    if !Enabled(cfg, s, a) then s
    else match a
      case HubPost(req) => HubCommit(L, cfg, s, req, None)
      case HubSubmit(from, req) => HubCommit(L, cfg, s, req, Some(from))
      case HubMessage(from, sender, ciphertext, kind) => HubRelay(cfg, s, from, PlainMsg(sender, ciphertext, kind))
      case FanOut(p) => HubFanOut(cfg, s, p)
      case AddParticipant(host) => s.(participants := s.participants + {host})
      case Provision(host, k) => s.(mirrors := s.mirrors[host := Mirror(k, Snapshot(s.hub, k))])
      case Inject(e) => s.(net := s.net + {e})
      case Deliver(e) => Verify(L, cfg, s, e)
      case ReceiveReply(r) => VerifyReply(L, cfg, s, r)
      case CompareAndSet(t) => MirrorCas(L, s, t)
  }

  const INITIAL := World(NO_GROUP, map[], {}, {}, {}, {}, {}, {}, {})

  ghost function Run(L: Chain, cfg: Config, actions: seq<Action>): World {
    if actions == [] then INITIAL
    else Step(L, cfg, Run(L, cfg, actions[..|actions| - 1]), actions[|actions| - 1])
  }

  // ---------------------------------------------------------------- invariants

  /** The hub's k-th accepted batch: one commit, built on epoch k, linked to its predecessor. */
  ghost predicate BatchOrdered(L: Chain, hub: Group, hashed: set<Position>, k: nat)
    requires k < |hub.log|
  {
    var b := hub.log[k];
    && 1 <= |b| <= 2
    && (forall i :: 0 <= i < |b| ==>
        b[i].epoch == k + 1 && b[i].group == hub.id && GoSized(b[i].ciphertext)
        && (b[i].kind.Commit? <==> i == |b| - 1))
    && (|b| == 2 ==> b[0].chainHash == [])
    && b[|b| - 1].chainHash == L(Position(HeadAt(hub.log, k), k + 1, hub.id, b[|b| - 1].ciphertext))
    && Position(HeadAt(hub.log, k), k + 1, hub.id, b[|b| - 1].ciphertext) in hashed
  }

  ghost predicate HubOrdered(L: Chain, hub: Group, hashed: set<Position>) {
    && |hub.log| <= MAX_INT64 && hub.epoch == |hub.log|
    && (hub.id == [] <==> hub.log == []) && GoSized(hub.id)
    && hub.head == HeadAt(hub.log, |hub.log|)
    && forall k :: 0 <= k < |hub.log| ==> BatchOrdered(L, hub, hashed, k)
  }

  /** `b` carries the hub's commit; untampered, it is the hub's batch message for message. */
  ghost predicate Carries(tampering: bool, b: seq<Msg>, hubBatch: seq<Msg>) {
    && hubBatch != []
    && FirstCommit(b).Some?
    && (var c, d := FirstCommit(b).value, hubBatch[|hubBatch| - 1];
        c.epoch == d.epoch && c.group == d.group && c.ciphertext == d.ciphertext && c.chainHash == d.chainHash)
    && (!tampering ==> b == hubBatch)
  }

  /** The mirror holds exactly the hub's consecutive commits from its start to its own epoch. */
  ghost predicate Follows(tampering: bool, hub: Group, m: Mirror) {
    && m.start <= m.group.epoch <= |hub.log|
    && |m.group.log| == m.group.epoch - m.start
    && m.group.head == HeadAt(hub.log, m.group.epoch)
    && m.group.id == (if m.group.epoch == 0 then [] else hub.id)
    && forall i :: 0 <= i < |m.group.log| ==> Carries(tampering, m.group.log[i], hub.log[m.start + i])
  }

  /** An applier has verified the commit the hub put at its base, on the hub's head there. */
  ghost predicate ApplierSound(tampering: bool, hub: Group, a: Applier) {
    && 0 <= a.base < |hub.log|
    && a.group == hub.id
    && a.seen == HeadAt(hub.log, a.base)
    && Carries(tampering, Stamp(a.msgs, HeadAt(hub.log, a.base + 1)), hub.log[a.base])
  }

  /** The envelope holds one of the hub's accepted batches, as the hub put it on the wire. */
  ghost predicate FromHub(cfg: Config, hub: Group, e: Envelope) {
    exists k :: 0 <= k < |hub.log| && e.batch == ToWire(cfg, hub.log[k])
  }

  /** A single message without a link, as the message path publishes and relays it. */
  ghost predicate Plain(batch: seq<Msg>) {
    |batch| == 1 && batch[0].chainHash == []
  }

  ghost predicate EnvelopeSound(cfg: Config, hub: Group, e: Envelope) {
    && Forgeable(cfg, hub.log, e)
    && (!(cfg.tampering && cfg.checksSignatures) ==> FromHub(cfg, hub, e) || Plain(FromWire(e.batch)))
  }

  ghost predicate ReplySound(hub: Group, r: Reply) {
    && 0 <= r.req.baseEpoch < |hub.log|
    && r.epoch == r.req.baseEpoch + 1
    && r.req.group == hub.id && GoRequest(r.req)
    && r.hash == HeadAt(hub.log, r.epoch)
    && hub.log[r.req.baseEpoch] == Stamp(BatchOf(r.req), r.hash)
  }

  /** What the commit path announces was accepted, and everything accepted is announced. */
  ghost predicate HubInv(L: Chain, cfg: Config, s: World) {
    && HubOrdered(L, s.hub, s.hashed)
    && (forall e :: e in s.net ==> EnvelopeSound(cfg, s.hub, e))
    && (forall p :: p in s.pending ==> p.batch in s.hub.log)
    && (forall b :: b in s.published ==> b in s.hub.log || Plain(b))
    && (forall b :: b in s.hub.log ==> b in s.published || Waiting(s.pending, b))
  }

  ghost predicate Waiting(pending: set<Pending>, b: seq<Msg>) {
    exists p :: p in pending && p.batch == b
  }

  ghost predicate Inv(L: Chain, cfg: Config, s: World) {
    && HubInv(L, cfg, s)
    && (forall h :: h in s.mirrors ==> Follows(cfg.tampering, s.hub, s.mirrors[h]))
    && (forall a :: a in s.appliers ==> ApplierSound(cfg.tampering, s.hub, a))
    && (forall r :: r in s.replies ==> ReplySound(s.hub, r))
  }

  /** The epoch counter has not wrapped. */
  ghost predicate EpochsFit(s: World) {
    |s.hub.log| <= MAX_INT64
  }

  /** The first commit the hub accepted, if any, names a group. */
  ghost predicate NamedFirst(log: seq<seq<Msg>>) {
    log == [] || (log[0] != [] && log[0][0].group != [])
  }

  ghost predicate Settled(s: World) {
    EpochsFit(s) && NamedFirst(s.hub.log)
  }

  /** In addition, a link names its position among those linked in the run. */
  ghost predicate Assumed(L: Chain, s: World) {
    Settled(s) && DigestLinks(L) && NamesPositions(L, s.hashed)
  }
}
