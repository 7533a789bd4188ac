/**
 The index of live subscribers.  Adding and cancelling take the write lock; any number of
 deliveries run under the read lock, one try-send at a time, interleaved with each other
 and with readers draining their channels.
 */
module LiveRegistry {
  import opened Sums

  type User = int
  type ChanId = nat

  /** How many events a subscriber may fall behind by (`subscriberBuffer`). */
  const CAPACITY := 64

  /** No recipients means broadcast. */
  datatype Event = Event(id: int, recipients: seq<User>)

  /** A subscriber's channel.  Contents are delivery numbers; `entered` and `received` are history. */
  datatype Channel = Channel(buffer: seq<nat>, closed: bool, entered: seq<nat>, received: seq<nat>)

  /**
   One call of `deliver`: the recipients looked up so far, the channels still to be tried of
   the last one, and the channels tried.  `roster` is the owner map it runs against.  It is
   `done` once it has released the read lock, and `counted` once its drops are in the total.
   */
  datatype Delivery = Delivery(
    event: Event, roster: map<ChanId, User>, next: nat, left: set<ChanId>,
    sent: seq<ChanId>, lost: seq<ChanId>, done: bool, counted: bool)

  datatype Registry = Registry(
    byUser: map<User, set<ChanId>>,
    owner: map<ChanId, User>,
    chans: seq<Channel>,
    dropped: nat,
    deliveries: seq<Delivery>)

  const EMPTY := Registry(map[], map[], [], 0, [])

  datatype Action =
    | Add(user: User)
    | Cancel(ch: ChanId)
    | Start(event: Event)
    | Next(d: nat)
    | Offer(d: nat, ch: ChanId)
    | Finish(d: nat)
    | Count(d: nat)
    | Receive(ch: ChanId)

  // ------------------------------------------------------------------------ steps

  predicate Broadcast(e: Event) {
    e.recipients == []
  }

  predicate Active(s: Registry, d: nat) {
    d < |s.deliveries| && !s.deliveries[d].done
  }

  predicate Idle(s: Registry) {
    forall d :: 0 <= d < |s.deliveries| ==> s.deliveries[d].done
  }

  function Subscribers(byUser: map<User, set<ChanId>>, u: User): set<ChanId> {
    if u in byUser then byUser[u] else {}
  }

  predicate Enabled(s: Registry, a: Action) {
    match a
    case Add(_) => Idle(s)
    case Cancel(ch) => Idle(s) && ch < |s.chans|
    case Start(_) => true
    case Next(d) => Active(s, d) && s.deliveries[d].left == {} && s.deliveries[d].next < |s.deliveries[d].event.recipients|
    case Offer(d, ch) => Active(s, d) && ch in s.deliveries[d].left && ch < |s.chans|
    case Finish(d) => Active(s, d) && s.deliveries[d].left == {} && s.deliveries[d].next >= |s.deliveries[d].event.recipients|
    case Count(d) => d < |s.deliveries| && s.deliveries[d].done && !s.deliveries[d].counted
    case Receive(ch) => ch < |s.chans| && s.chans[ch].buffer != []
  }

  function AddChannel(s: Registry, user: User): Registry {
    var ch := |s.chans|;
    s.(byUser := s.byUser[user := Subscribers(s.byUser, user) + {ch}],
       owner := s.owner[ch := user],
       chans := s.chans + [Channel([], false, [], [])])
  }

  function Without(byUser: map<User, set<ChanId>>, u: User, ch: ChanId): map<User, set<ChanId>> {
    if u !in byUser then byUser
    else if byUser[u] - {ch} == {} then byUser - {u}
    else byUser[u := byUser[u] - {ch}]
  }

  function CancelChannel(s: Registry, ch: ChanId): Registry
    requires ch < |s.chans|
  {
    if ch !in s.owner then s
    else s.(byUser := Without(s.byUser, s.owner[ch], ch),
            owner := s.owner - {ch},
            chans := s.chans[ch := s.chans[ch].(closed := true)])
  }

  function StartDelivery(s: Registry, e: Event): Registry {
    s.(deliveries := s.deliveries + [Delivery(e, s.owner, 0, if Broadcast(e) then s.owner.Keys else {}, [], [], false, false)])
  }

  function NextRecipient(s: Registry, d: nat): Registry
    requires Enabled(s, Next(d))
  {
    var x := s.deliveries[d];
    s.(deliveries := s.deliveries[d := x.(left := Subscribers(s.byUser, x.event.recipients[x.next]), next := x.next + 1)])
  }

  /** The try-send: into the buffer if there is room, dropped otherwise. */
  function TrySend(s: Registry, d: nat, ch: ChanId): Registry
    requires Enabled(s, Offer(d, ch))
  {
    var x, c := s.deliveries[d], s.chans[ch];
    if |c.buffer| < CAPACITY
    then s.(chans := s.chans[ch := c.(buffer := c.buffer + [d], entered := c.entered + [d])],
            deliveries := s.deliveries[d := x.(left := x.left - {ch}, sent := x.sent + [ch])])
    else s.(deliveries := s.deliveries[d := x.(left := x.left - {ch}, lost := x.lost + [ch])])
  }

  function Step(s: Registry, a: Action): Registry {
    if !Enabled(s, a) then s
    else match a
      case Add(user) => AddChannel(s, user)
      case Cancel(ch) => CancelChannel(s, ch)
      case Start(e) => StartDelivery(s, e)
      case Next(d) => NextRecipient(s, d)
      case Offer(d, ch) => TrySend(s, d, ch)
      case Finish(d) => s.(deliveries := s.deliveries[d := s.deliveries[d].(done := true)])
      case Count(d) =>
        s.(deliveries := s.deliveries[d := s.deliveries[d].(counted := true)],
           dropped := s.dropped + |s.deliveries[d].lost|)
      case Receive(ch) =>
        var c := s.chans[ch];
        s.(chans := s.chans[ch := c.(buffer := c.buffer[1..], received := c.received + [c.buffer[0]])])
  }

  function Run(s: Registry, actions: seq<Action>): Registry {
    if actions == [] then s
    else Step(Run(s, actions[..|actions| - 1]), actions[|actions| - 1])
  }

  lemma RunAppend(s: Registry, actions: seq<Action>, a: Action)
    ensures Run(s, actions + [a]) == Step(Run(s, actions), a)
  {
    assert (actions + [a])[..|actions|] == actions;
  }

  // -------------------------------------------------------------------- invariants

  /** The two maps are inverses of each other, and no user has an empty entry. */
  predicate Inverse(byUser: map<User, set<ChanId>>, owner: map<ChanId, User>) {
    && (forall ch :: ch in owner ==> owner[ch] in byUser && ch in byUser[owner[ch]])
    && (forall u, ch :: u in byUser && ch in byUser[u] ==> ch in owner && owner[ch] == u)
    && (forall u :: u in byUser ==> byUser[u] != {})
  }

  predicate ChannelInv(s: Registry, ch: ChanId)
    requires ch < |s.chans|
  {
    var c := s.chans[ch];
    |c.buffer| <= CAPACITY && c.received + c.buffer == c.entered && (c.closed <==> ch !in s.owner)
  }

  predicate Shape(s: Registry) {
    && Inverse(s.byUser, s.owner)
    && (forall ch :: ch in s.owner ==> ch < |s.chans|)
    && (forall ch :: 0 <= ch < |s.chans| ==> ChannelInv(s, ch))
    && (forall d :: 0 <= d < |s.deliveries| ==> Progress(s, s.deliveries[d]))
  }

  predicate Progress(s: Registry, x: Delivery) {
    && x.next <= |x.event.recipients| && x.left <= x.roster.Keys
    && (x.done ==> x.left == {} && x.next == |x.event.recipients|)
    && (!x.done ==> x.roster == s.owner && !x.counted)
  }

  /** How often this channel falls due among the recipients looked up: once each, or once in a broadcast. */
  ghost function Due(x: Delivery, ch: ChanId): nat {
    if ch !in x.roster then 0
    else if Broadcast(x.event) then 1
    else if x.next <= |x.event.recipients| then Occurs(x.event.recipients[..x.next], x.roster[ch]) else 0
  }

  ghost predicate Counted(x: Delivery, ch: ChanId) {
    Occurs(x.sent, ch) + Occurs(x.lost, ch) + (if ch in x.left then 1 else 0) == Due(x, ch)
  }

  /** A channel holds a delivery's event as often as that delivery sent it there. */
  ghost predicate Matched(s: Registry, d: nat, ch: ChanId) {
    d < |s.deliveries| ==>
      (if ch < |s.chans| then Occurs(s.chans[ch].entered, d) else 0) == Occurs(s.deliveries[d].sent, ch)
  }

  /** What a delivery has added to the total, is still to add, and has dropped in all once it is done. */
  ghost function Given(): Delivery -> nat {
    (x: Delivery) => if x.counted then |x.lost| else 0
  }

  ghost function Owed(): Delivery -> nat {
    (x: Delivery) => if x.done && !x.counted then |x.lost| else 0
  }

  ghost function Lost(): Delivery -> nat {
    (x: Delivery) => if x.done then |x.lost| else 0
  }

  ghost predicate Inv(s: Registry) {
    && Shape(s)
    && (forall d, ch :: 0 <= d < |s.deliveries| ==> Counted(s.deliveries[d], ch))
    && (forall d: nat, ch: nat :: Matched(s, d, ch))
    && (forall ch, d :: 0 <= ch < |s.chans| && d in s.chans[ch].entered ==> d < |s.deliveries|)
    && s.dropped == Sum(Given(), s.deliveries)
  }

  // --------------------------------------------------------------- each step keeps them

  lemma AddKeepsInverse(byUser: map<User, set<ChanId>>, owner: map<ChanId, User>, user: User, ch: ChanId)
    requires Inverse(byUser, owner) && ch !in owner
    ensures Inverse(byUser[user := Subscribers(byUser, user) + {ch}], owner[ch := user])
  {
    var b, o := byUser[user := Subscribers(byUser, user) + {ch}], owner[ch := user];
    forall u, c | u in b && c in b[u] ensures c in o && o[c] == u {
      assert c == ch || (u in byUser && c in byUser[u]);
    }
    forall c | c in o ensures o[c] in b && c in b[o[c]] {
      assert c == ch || (owner[c] in byUser && c in byUser[owner[c]]);
    }
  }

  lemma AddKeeps(s: Registry, user: User)
    requires Inv(s) && Enabled(s, Add(user))
    ensures Inv(Step(s, Add(user)))
  {
    var t := AddChannel(s, user);
    AddKeepsInverse(s.byUser, s.owner, user, |s.chans|);
    forall ch | 0 <= ch < |t.chans| ensures ChannelInv(t, ch) {
      if ch < |s.chans| {
        assert ChannelInv(s, ch);
      }
    }
    forall d: nat, ch: nat ensures Matched(t, d, ch) {
      assert Matched(s, d, ch);
    }
  }

  lemma WithoutKeepsInverse(byUser: map<User, set<ChanId>>, owner: map<ChanId, User>, ch: ChanId)
    requires Inverse(byUser, owner) && ch in owner
    ensures Inverse(Without(byUser, owner[ch], ch), owner - {ch})
  {
    var u := owner[ch];
    var t := Without(byUser, u, ch);
    forall c | c in owner && c != ch ensures owner[c] in t && c in t[owner[c]] {
      assert owner[c] in byUser && c in byUser[owner[c]];
      if owner[c] == u {
        assert c in byUser[u] - {ch};
      }
    }
  }

  lemma CancelKeeps(s: Registry, ch: ChanId)
    requires Inv(s) && Enabled(s, Cancel(ch))
    ensures Inv(Step(s, Cancel(ch)))
  {
    if ch in s.owner {
      var t := CancelChannel(s, ch);
      WithoutKeepsInverse(s.byUser, s.owner, ch);
      forall c | 0 <= c < |t.chans| ensures ChannelInv(t, c) {
        assert ChannelInv(s, c);
      }
      forall d: nat, c: nat ensures Matched(t, d, c) {
        assert Matched(s, d, c);
      }
    }
  }

  lemma StartKeeps(s: Registry, e: Event)
    requires Inv(s)
    ensures Inv(Step(s, Start(e)))
  {
    var t := StartDelivery(s, e);
    var x := t.deliveries[|s.deliveries|];
    SumAppend(Given(), s.deliveries, x);
    forall ch | 0 <= ch < |t.chans| ensures ChannelInv(t, ch) {
      assert ChannelInv(s, ch);
    }
    forall d, ch | 0 <= d < |t.deliveries| ensures Counted(t.deliveries[d], ch) {
      if d < |s.deliveries| {
        assert Counted(s.deliveries[d], ch);
      }
    }
    forall d: nat, ch: nat ensures Matched(t, d, ch) {
      assert Matched(s, d, ch);
      if d == |s.deliveries| && ch < |s.chans| {
        OccursPositive(s.chans[ch].entered, d);
      }
    }
  }

  /** Looking up the next recipient makes exactly their channels due once more. */
  lemma NextKeepsCounts(s: Registry, d: nat, ch: ChanId)
    requires Enabled(s, Next(d)) && Inverse(s.byUser, s.owner)
    requires Counted(s.deliveries[d], ch) && Progress(s, s.deliveries[d])
    ensures Counted(NextRecipient(s, d).deliveries[d], ch)
  {
    var x, y := s.deliveries[d], NextRecipient(s, d).deliveries[d];
    var r := x.event.recipients;
    assert r[..y.next][..x.next] == r[..x.next] && r[..y.next][x.next] == r[x.next];
    assert ch in y.left <==> ch in s.owner && s.owner[ch] == r[x.next];
  }

  lemma NextKeeps(s: Registry, d: nat)
    requires Inv(s) && Enabled(s, Next(d))
    ensures Inv(Step(s, Next(d)))
  {
    var t := NextRecipient(s, d);
    SumUpdate(Given(), s.deliveries, d, t.deliveries[d]);
    forall ch | 0 <= ch < |t.chans| ensures ChannelInv(t, ch) {
      assert ChannelInv(s, ch);
    }
    forall e, ch | 0 <= e < |t.deliveries| ensures Counted(t.deliveries[e], ch) {
      assert Counted(s.deliveries[e], ch);
      if e == d {
        NextKeepsCounts(s, d, ch);
      }
    }
    forall e: nat, ch: nat ensures Matched(t, e, ch) {
      assert Matched(s, e, ch);
    }
    forall e | 0 <= e < |t.deliveries| ensures Progress(t, t.deliveries[e]) {
      assert Progress(s, s.deliveries[e]);
    }
  }

  lemma OfferKeepsShape(s: Registry, d: nat, ch: ChanId)
    requires Inv(s) && Enabled(s, Offer(d, ch))
    ensures Shape(Step(s, Offer(d, ch))) && !s.chans[ch].closed
  {
    var t := TrySend(s, d, ch);
    assert Progress(s, s.deliveries[d]) && ChannelInv(s, ch);
    forall c | 0 <= c < |t.chans| ensures ChannelInv(t, c) {
      assert ChannelInv(s, c);
      if c == ch && |s.chans[ch].buffer| < CAPACITY {
        var k := s.chans[ch];
        assert k.received + (k.buffer + [d]) == k.received + k.buffer + [d];
      }
    }
    forall e | 0 <= e < |t.deliveries| ensures Progress(t, t.deliveries[e]) {
      assert Progress(s, s.deliveries[e]);
    }
  }

  lemma SameDue(x: Delivery, y: Delivery, ch: ChanId)
    requires y.event == x.event && y.roster == x.roster && y.next == x.next
    ensures Due(y, ch) == Due(x, ch)
  {
  }

  /** Trying a channel that was left to try counts it as sent or as lost instead. */
  lemma TriedOnce(x: Delivery, y: Delivery, ch: ChanId, c: ChanId)
    requires Counted(x, c) && ch in x.left && Due(y, c) == Due(x, c) && y.left == x.left - {ch}
    requires (y.sent == x.sent + [ch] && y.lost == x.lost) || (y.sent == x.sent && y.lost == x.lost + [ch])
    ensures Counted(y, c)
  {
    if y.lost == x.lost {
      OccursAppend(x.sent, ch, c);
    } else {
      OccursAppend(x.lost, ch, c);
    }
  }

  lemma OfferKeepsCounts(s: Registry, d: nat, ch: ChanId, c: ChanId)
    requires Enabled(s, Offer(d, ch)) && Counted(s.deliveries[d], c)
    ensures Counted(TrySend(s, d, ch).deliveries[d], c)
  {
    SameDue(s.deliveries[d], TrySend(s, d, ch).deliveries[d], c);
    TriedOnce(s.deliveries[d], TrySend(s, d, ch).deliveries[d], ch, c);
  }

  lemma OfferKeepsMatch(s: Registry, d: nat, ch: ChanId, e: nat, c: ChanId)
    requires Enabled(s, Offer(d, ch)) && Matched(s, e, c)
    ensures Matched(TrySend(s, d, ch), e, c)
  {
    var t := TrySend(s, d, ch);
    if |s.chans[ch].buffer| < CAPACITY && e < |s.deliveries| {
      if e == d {
        assert t.deliveries[e].sent == s.deliveries[d].sent + [ch];
        OccursAppend(s.deliveries[d].sent, ch, c);
      }
      if c == ch {
        assert t.chans[c].entered == s.chans[ch].entered + [d];
        OccursAppend(s.chans[ch].entered, d, e);
      }
    }
  }

  lemma OfferKeepsAllCounts(s: Registry, d: nat, ch: ChanId)
    requires Inv(s) && Enabled(s, Offer(d, ch))
    ensures var t := TrySend(s, d, ch); forall e, c :: 0 <= e < |t.deliveries| ==> Counted(t.deliveries[e], c)
  {
    var t := TrySend(s, d, ch);
    forall e, c | 0 <= e < |t.deliveries| ensures Counted(t.deliveries[e], c) {
      assert Counted(s.deliveries[e], c);
      if e == d {
        OfferKeepsCounts(s, d, ch, c);
      }
    }
  }

  lemma OfferKeepsAllMatches(s: Registry, d: nat, ch: ChanId)
    requires Inv(s) && Enabled(s, Offer(d, ch))
    ensures forall e: nat, c: nat :: Matched(TrySend(s, d, ch), e, c)
  {
    forall e: nat, c: nat ensures Matched(TrySend(s, d, ch), e, c) {
      assert Matched(s, e, c);
      OfferKeepsMatch(s, d, ch, e, c);
    }
  }

  lemma OfferKeepsEntries(s: Registry, d: nat, ch: ChanId)
    requires Inv(s) && Enabled(s, Offer(d, ch))
    ensures var t := TrySend(s, d, ch);
      forall c, e :: 0 <= c < |t.chans| && e in t.chans[c].entered ==> e < |t.deliveries|
  {
  }

  lemma OfferKeeps(s: Registry, d: nat, ch: ChanId)
    requires Inv(s) && Enabled(s, Offer(d, ch))
    ensures Inv(Step(s, Offer(d, ch)))
  {
    OfferKeepsShape(s, d, ch);
    OfferKeepsAllCounts(s, d, ch);
    OfferKeepsAllMatches(s, d, ch);
    OfferKeepsEntries(s, d, ch);
    SumUpdate(Given(), s.deliveries, d, TrySend(s, d, ch).deliveries[d]);
  }

  lemma FinishKeeps(s: Registry, d: nat)
    requires Inv(s) && Enabled(s, Finish(d))
    ensures Inv(Step(s, Finish(d)))
  {
    var t := Step(s, Finish(d));
    SumUpdate(Given(), s.deliveries, d, t.deliveries[d]);
    forall ch | 0 <= ch < |t.chans| ensures ChannelInv(t, ch) {
      assert ChannelInv(s, ch);
    }
    forall e, c | 0 <= e < |t.deliveries| ensures Counted(t.deliveries[e], c) {
      assert Counted(s.deliveries[e], c);
    }
    forall e: nat, c: nat ensures Matched(t, e, c) {
      assert Matched(s, e, c);
    }
    forall e | 0 <= e < |t.deliveries| ensures Progress(t, t.deliveries[e]) {
      assert Progress(s, s.deliveries[e]);
    }
  }

  lemma CountKeeps(s: Registry, d: nat)
    requires Inv(s) && Enabled(s, Count(d))
    ensures Inv(Step(s, Count(d)))
  {
    var t := Step(s, Count(d));
    SumUpdate(Given(), s.deliveries, d, t.deliveries[d]);
    forall ch | 0 <= ch < |t.chans| ensures ChannelInv(t, ch) {
      assert ChannelInv(s, ch);
    }
    forall e, c | 0 <= e < |t.deliveries| ensures Counted(t.deliveries[e], c) {
      assert Counted(s.deliveries[e], c);
    }
    forall e: nat, c: nat ensures Matched(t, e, c) {
      assert Matched(s, e, c);
    }
    forall e | 0 <= e < |t.deliveries| ensures Progress(t, t.deliveries[e]) {
      assert Progress(s, s.deliveries[e]);
    }
  }

  lemma ReceiveKeeps(s: Registry, ch: ChanId)
    requires Inv(s) && Enabled(s, Receive(ch))
    ensures Inv(Step(s, Receive(ch)))
  {
    var t := Step(s, Receive(ch));
    forall c | 0 <= c < |t.chans| ensures ChannelInv(t, c) {
      assert ChannelInv(s, c);
      if c == ch {
        var k := s.chans[ch];
        assert k.received + [k.buffer[0]] + k.buffer[1..] == k.received + k.buffer;
      }
    }
    forall e: nat, c: nat ensures Matched(t, e, c) {
      assert Matched(s, e, c);
    }
  }

  lemma StepKeeps(s: Registry, a: Action)
    requires Inv(s)
    ensures Inv(Step(s, a))
  {
    if Enabled(s, a) {
      match a
      case Add(user) => AddKeeps(s, user);
      case Cancel(ch) => CancelKeeps(s, ch);
      case Start(e) => StartKeeps(s, e);
      case Next(d) => NextKeeps(s, d);
      case Offer(d, ch) => OfferKeeps(s, d, ch);
      case Finish(d) => FinishKeeps(s, d);
      case Count(d) => CountKeeps(s, d);
      case Receive(ch) => ReceiveKeeps(s, ch);
    }
  }

  lemma {:induction false} RunKeeps(s: Registry, actions: seq<Action>)
    requires Inv(s)
    ensures Inv(Run(s, actions))
  {
    if actions != [] {
      RunKeeps(s, actions[..|actions| - 1]);
      StepKeeps(Run(s, actions[..|actions| - 1]), actions[|actions| - 1]);
    }
  }

  // --------------------------------------------------------------------- the theorems

  /** In every reachable state the index and the owner map say the same. */
  lemma IndexIsTheOwnerMap(actions: seq<Action>, u: User, ch: ChanId)
    ensures var s := Run(EMPTY, actions);
      (ch in Subscribers(s.byUser, u) <==> ch in s.owner && s.owner[ch] == u)
      && (u in s.byUser <==> exists c :: c in s.owner && s.owner[c] == u)
  {
    RunKeeps(EMPTY, actions);
    var s := Run(EMPTY, actions);
    if u in s.byUser {
      var c :| c in s.byUser[u];
      assert s.owner[c] == u;
    }
  }

  /** A channel is closed exactly when it has lost its owner, and nothing is ever sent to a closed one. */
  lemma NoSendOnAClosedChannel(actions: seq<Action>, d: nat, ch: ChanId)
    requires Enabled(Run(EMPTY, actions), Offer(d, ch))
    ensures var s := Run(EMPTY, actions); !s.chans[ch].closed && ch in s.owner
  {
    RunKeeps(EMPTY, actions);
    OfferKeepsShape(Run(EMPTY, actions), d, ch);
    assert ChannelInv(Run(EMPTY, actions), ch);
  }

  /** A full scan of the owner map, filtered by recipient. */
  function Targets(roster: map<ChanId, User>, e: Event): set<ChanId> {
    set ch | ch in roster && (Broadcast(e) || roster[ch] in e.recipients)
  }

  predicate Distinct(s: seq<User>) {
    forall i, j :: 0 <= i < j < |s| ==> s[i] != s[j]
  }

  lemma {:induction false} DistinctOccurs(s: seq<User>, u: User)
    requires Distinct(s)
    ensures Occurs(s, u) == if u in s then 1 else 0
  {
    if s != [] {
      var n := |s| - 1;
      assert s == s[..n] + [s[n]];
      DistinctOccurs(s[..n], u);
    }
  }

  /**
   A finished delivery offered its event to each channel once for every listing of its owner
   among the recipients, or once in a broadcast; readers get it as often as it was sent.
   */
  lemma OfferedOncePerListing(actions: seq<Action>, d: nat, ch: ChanId)
    requires var s := Run(EMPTY, actions); d < |s.deliveries| && s.deliveries[d].done
    ensures var s := Run(EMPTY, actions); var x := s.deliveries[d];
      && Occurs(x.sent, ch) + Occurs(x.lost, ch)
         == (if ch !in x.roster then 0 else if Broadcast(x.event) then 1 else Occurs(x.event.recipients, x.roster[ch]))
      && (ch < |s.chans| ==>
         Occurs(s.chans[ch].received + s.chans[ch].buffer, d) == Occurs(x.sent, ch) && |s.chans[ch].buffer| <= CAPACITY)
  {
    RunKeeps(EMPTY, actions);
    var s := Run(EMPTY, actions);
    var x := s.deliveries[d];
    assert Counted(x, ch) && Matched(s, d, ch) && Progress(s, x);
    assert x.event.recipients[..x.next] == x.event.recipients;
    if ch < |s.chans| {
      assert ChannelInv(s, ch);
    }
  }

  lemma {:induction false} OccursConcat<T>(s: seq<T>, t: seq<T>, x: T)
    ensures Occurs(s + t, x) == Occurs(s, x) + Occurs(t, x)
  {
    if t == [] {
      assert s + t == s;
    } else {
      assert s + t == (s + t[..|t| - 1]) + [t[|t| - 1]];
      OccursAppend(s + t[..|t| - 1], t[|t| - 1], x);
      OccursConcat(s, t[..|t| - 1], x);
    }
  }

  /** With distinct recipients that is a full scan of the owners, each target once: delivered plus dropped is targeted. */
  lemma DeliveryIsAFilteredScan(actions: seq<Action>, d: nat, ch: ChanId)
    requires var s := Run(EMPTY, actions);
      d < |s.deliveries| && s.deliveries[d].done && Distinct(s.deliveries[d].event.recipients)
    ensures var x := Run(EMPTY, actions).deliveries[d];
      && Occurs(x.sent, ch) + Occurs(x.lost, ch) == (if ch in Targets(x.roster, x.event) then 1 else 0)
      && |x.sent| + |x.lost| == |Targets(x.roster, x.event)|
  {
    var x := Run(EMPTY, actions).deliveries[d];
    forall c ensures Occurs(x.sent + x.lost, c) == if c in Targets(x.roster, x.event) then 1 else 0 {
      OfferedOncePerListing(actions, d, c);
      OccursConcat(x.sent, x.lost, c);
      if c in x.roster {
        DistinctOccurs(x.event.recipients, x.roster[c]);
      }
    }
    OnceEach(x.sent + x.lost, Targets(x.roster, x.event));
    OccursConcat(x.sent, x.lost, ch);
  }

  /**
   The dropped counter and what finished deliveries have still to add make up exactly what
   those deliveries dropped; it is the sum of what was added, each delivery once.
   */
  lemma DroppedIsExact(actions: seq<Action>)
    ensures var s := Run(EMPTY, actions);
      && s.dropped == Sum(Given(), s.deliveries)
      && s.dropped + Sum(Owed(), s.deliveries) == Sum(Lost(), s.deliveries)
  {
    RunKeeps(EMPTY, actions);
    var s := Run(EMPTY, actions);
    forall x | x in s.deliveries ensures Given()(x) + Owed()(x) == Lost()(x) {
      assert Progress(s, x);
    }
    SumOfSums(Given(), Owed(), Lost(), s.deliveries);
  }

  /** A try-send is dropped exactly if the channel is full; otherwise the event goes in behind what is there. */
  lemma OfferedIsDroppedExactlyWhenFull(s: Registry, d: nat, ch: ChanId)
    requires Enabled(s, Offer(d, ch))
    ensures var t := Step(s, Offer(d, ch));
      && t.deliveries[d].left == s.deliveries[d].left - {ch}
      && if |s.chans[ch].buffer| >= 64 then
           t.chans == s.chans && t.deliveries[d].lost == s.deliveries[d].lost + [ch] && t.deliveries[d].sent == s.deliveries[d].sent
         else
           && t.chans[ch].buffer == s.chans[ch].buffer + [d] && t.deliveries[d].sent == s.deliveries[d].sent + [ch]
           && t.deliveries[d].lost == s.deliveries[d].lost
           && forall c :: 0 <= c < |s.chans| && c != ch ==> t.chans[c] == s.chans[c]
  {
  }

  /** A reader takes the oldest event out of its channel, and that is all that happens. */
  lemma ReaderTakesTheOldest(s: Registry, ch: ChanId)
    requires ch < |s.chans| && s.chans[ch].buffer != []
    ensures var t := Step(s, Receive(ch));
      && [t.chans[ch].received[|s.chans[ch].received|]] + t.chans[ch].buffer == s.chans[ch].buffer
      && t.chans[ch].received[..|s.chans[ch].received|] == s.chans[ch].received
      && t.owner == s.owner && t.byUser == s.byUser && t.deliveries == s.deliveries
      && forall c :: 0 <= c < |s.chans| && c != ch ==> t.chans[c] == s.chans[c]
  {
  }

  /** The new channel belongs to this user, open and empty; every other channel is as it was. */
  ghost predicate Joined(s: Registry, t: Registry, user: User, ch: ChanId) {
    && ch == |s.chans| && |t.chans| == ch + 1
    && !t.chans[ch].closed && t.chans[ch].buffer == []
    && t.owner.Keys == s.owner.Keys + {ch} && t.owner[ch] == user && user in t.byUser && ch in t.byUser[user]
    && (forall c :: 0 <= c < ch ==> t.chans[c] == s.chans[c])
    && (forall c :: c in s.owner && c != ch ==> t.owner[c] == s.owner[c])
    && (forall u, c :: c != ch ==> (c in Subscribers(t.byUser, u) <==> c in Subscribers(s.byUser, u)))
  }

  /** The channel is closed and belongs to nobody; every other channel is as it was. */
  ghost predicate Left(s: Registry, t: Registry, ch: ChanId) {
    && ch < |t.chans| == |s.chans| && t.chans[ch].closed && t.chans[ch].buffer == s.chans[ch].buffer
    && t.owner.Keys == s.owner.Keys - {ch}
    && (forall u :: ch !in Subscribers(t.byUser, u))
    && (forall c :: 0 <= c < |s.chans| && c != ch ==> t.chans[c] == s.chans[c])
    && (forall c :: c in t.owner ==> t.owner[c] == s.owner[c])
    && (forall u, c :: c != ch ==> (c in Subscribers(t.byUser, u) <==> c in Subscribers(s.byUser, u)))
  }

  lemma AddJoins(s: Registry, user: User)
    requires Inv(s) && Idle(s)
    ensures Joined(s, Step(s, Add(user)), user, |s.chans|)
  {
  }

  lemma CancelLeaves(s: Registry, ch: ChanId)
    requires Inv(s) && Idle(s) && ch < |s.chans|
    ensures Left(s, Step(s, Cancel(ch)), ch)
  {
    assert ChannelInv(s, ch);
  }

  // ------------------------------------------------------------------------- the code

  /** One channel has at most gained copies of call `d`'s event, behind what it held. */
  predicate Gained(c: Channel, e: Channel, d: nat) {
    && e.closed == c.closed && e.received == c.received && |c.buffer| <= |e.buffer|
    && (forall i :: 0 <= i < |c.buffer| ==> e.buffer[i] == c.buffer[i])
    && (forall i :: |c.buffer| <= i < |e.buffer| ==> e.buffer[i] == d)
  }

  predicate AllGained(a: seq<Channel>, b: seq<Channel>, d: nat) {
    |a| == |b| && forall ch :: 0 <= ch < |a| ==> Gained(a[ch], b[ch], d)
  }

  lemma GainedTwice(a: seq<Channel>, b: seq<Channel>, c: seq<Channel>, d: nat)
    requires AllGained(a, b, d) && AllGained(b, c, d)
    ensures AllGained(a, c, d)
  {
    forall ch | 0 <= ch < |a| ensures Gained(a[ch], c[ch], d) {
      assert Gained(a[ch], b[ch], d) && Gained(b[ch], c[ch], d);
    }
  }

  lemma TrySendGains(s: Registry, d: nat, ch: ChanId)
    requires Enabled(s, Offer(d, ch))
    ensures AllGained(s.chans, TrySend(s, d, ch).chans, d)
  {
  }

  /** What was lost was lost to full channels, and so is what a try-send loses. */
  lemma TrySendLoses(s: Registry, d: nat, ch: ChanId, c: ChanId)
    requires Enabled(s, Offer(d, ch)) && c in TrySend(s, d, ch).deliveries[d].lost
    requires c in s.deliveries[d].lost ==> c < |s.chans| && |s.chans[c].buffer| >= 64
    ensures c < |TrySend(s, d, ch).chans| && |TrySend(s, d, ch).chans[c].buffer| >= 64
  {
  }

  /** `history` records the steps the methods have taken, `deliveries` the calls of Deliver. */
  class LiveIndex {
    var byUser: map<User, set<ChanId>>
    var owner: map<ChanId, User>
    var chans: seq<Channel>
    var dropped: nat
    var calls: nat  // names the calls of Deliver; stands for the event that is sent
    ghost var deliveries: seq<Delivery>
    ghost var history: seq<Action>

    ghost function State(): Registry
      reads this
    {
      Registry(byUser, owner, chans, dropped, deliveries)
    }

    /** The fields are what the steps taken lead to, so the theorems above hold of them. */
    ghost predicate Valid()
      reads this
    {
      State() == Run(EMPTY, history) && Inv(State()) && calls == |deliveries|
    }

    constructor ()
      ensures Valid() && State() == EMPTY
    {
      byUser, owner, chans, dropped, calls := map[], map[], [], 0, 0;
      deliveries, history := [], [];
    }

    lemma Took(s: Registry, h: seq<Action>, a: Action)
      requires s == Run(EMPTY, h) && Inv(s)
      ensures Step(s, a) == Run(EMPTY, h + [a]) && Inv(Step(s, a))
    {
      RunAppend(EMPTY, h, a);
      StepKeeps(s, a);
    }

    method Add(user: User) returns (ch: ChanId)
      requires Valid() && Idle(State())
      modifies this
      ensures Valid() && history == old(history) + [Action.Add(user)] && ch == old(|chans|)
      ensures State() == AddChannel(old(State()), user)
      ensures Joined(old(State()), State(), user, ch)
    {
      ghost var s := State();
      ch := |chans|;
      chans := chans + [Channel([], false, [], [])];
      if user !in byUser {
        byUser := byUser[user := {}];
      }
      byUser := byUser[user := byUser[user] + {ch}];
      owner := owner[ch := user];
      assert byUser == s.byUser[user := Subscribers(s.byUser, user) + {ch}];
      AddJoins(s, user);
      Took(s, history, Action.Add(user));
      history := history + [Action.Add(user)];
    }

    /** The cancel function; calling it again changes nothing. */
    method Cancel(ch: ChanId)
      requires Valid() && Idle(State()) && ch < |chans|
      modifies this
      ensures Valid() && history == old(history) + [Action.Cancel(ch)]
      ensures State() == CancelChannel(old(State()), ch)
      ensures Left(old(State()), State(), ch)
    {
      ghost var s := State();
      CancelLeaves(s, ch);
      Took(s, history, Action.Cancel(ch));
      history := history + [Action.Cancel(ch)];
      if ch in owner {
        var u := owner[ch];
        owner := owner - {ch};
        if u in byUser {
          byUser := byUser[u := byUser[u] - {ch}];
          if byUser[u] == {} {
            byUser := byUser - {u};
          }
        }
        chans := chans[ch := chans[ch].(closed := true)];
        assert byUser == Without(s.byUser, u, ch);
      }
    }

    /** The call in progress: its number, its event, and how far it has got. */
    ghost predicate Delivering(d: nat, e: Event, next: nat, left: set<ChanId>, lost: nat)
      reads this
    {
      && Valid() && |deliveries| == d + 1
      && var x := deliveries[d];
        x.event == e && x.next == next && x.left == left && |x.lost| == lost && !x.done && x.roster == owner
        && LostToFull(x)
    }

    /** Every channel the delivery was dropped for is full. */
    ghost predicate LostToFull(x: Delivery)
      reads this
    {
      forall ch :: ch in x.lost ==> ch < |chans| && |chans[ch].buffer| >= 64
    }

    /** One non-blocking send; `lost` counts what this call has dropped. */
    method Send(ch: ChanId, d: nat, ghost e: Event, ghost next: nat, ghost left: set<ChanId>, n: nat)
      returns (lost: nat)
      requires Delivering(d, e, next, left, n) && ch in left && ch < |chans|
      modifies this`chans, this`deliveries, this`history
      ensures Delivering(d, e, next, left - {ch}, lost) && AllGained(old(chans), chans, d)
      ensures deliveries[..d] == old(deliveries[..d])
    {
      ghost var s := State();
      TrySendGains(s, d, ch);
      forall x | x in TrySend(s, d, ch).deliveries[d].lost
        ensures x < |TrySend(s, d, ch).chans| && |TrySend(s, d, ch).chans[x].buffer| >= 64
      {
        TrySendLoses(s, d, ch, x);
      }
      var c := chans[ch];
      if |c.buffer| < CAPACITY {
        chans := chans[ch := c.(buffer := c.buffer + [d], entered := c.entered + [d])];
        lost := n;
      } else {
        lost := n + 1;
      }
      deliveries := TrySend(s, d, ch).deliveries;
      Took(s, history, Action.Offer(d, ch));
      history := history + [Action.Offer(d, ch)];
    }

    /** The loop over a set of channels, in whatever order. */
    method SendAll(chs: set<ChanId>, d: nat, ghost e: Event, ghost next: nat, n: nat) returns (lost: nat)
      requires Delivering(d, e, next, chs, n) && forall ch :: ch in chs ==> ch < |chans|
      modifies this`chans, this`deliveries, this`history
      ensures Delivering(d, e, next, {}, lost) && AllGained(old(chans), chans, d)
      ensures deliveries[..d] == old(deliveries[..d])
    {
      var left := chs;
      lost := n;
      while left != {}
        invariant left <= chs && AllGained(old(chans), chans, d)
        invariant Delivering(d, e, next, left, lost)
        invariant deliveries[..d] == old(deliveries[..d])
      {
        var ch :| ch in left;
        ghost var before := chans;
        lost := Send(ch, d, e, next, left, lost);
        GainedTwice(old(chans), before, chans, d);
        left := left - {ch};
      }
    }

    /** The recipient's entry of the index, and its channels. */
    method SendTo(u: User, d: nat, ghost e: Event, ghost next: nat, n: nat) returns (lost: nat)
      requires Delivering(d, e, next, {}, n) && next < |e.recipients| && u == e.recipients[next]
      modifies this`chans, this`deliveries, this`history
      ensures Delivering(d, e, next + 1, {}, lost) && AllGained(old(chans), chans, d)
      ensures deliveries[..d] == old(deliveries[..d])
    {
      ghost var s := State();
      var chs := if u in byUser then byUser[u] else {};
      deliveries := NextRecipient(s, d).deliveries;
      Took(s, history, Action.Next(d));
      history := history + [Action.Next(d)];
      lost := SendAll(chs, d, e, next + 1, n);
    }

    /** Taking the read lock. */
    method Open(e: Event) returns (d: nat)
      requires Valid() && Idle(State())
      modifies this`calls, this`deliveries, this`history
      ensures d == old(|deliveries|) && Delivering(d, e, 0, if Broadcast(e) then owner.Keys else {}, 0)
      ensures deliveries[..d] == old(deliveries)
    {
      ghost var s := State();
      d := calls;
      calls := calls + 1;
      deliveries := StartDelivery(s, e).deliveries;
      Took(s, history, Start(e));
      history := history + [Start(e)];
    }

    /** Releasing it. */
    method Release(d: nat, ghost e: Event, n: nat)
      requires Delivering(d, e, |e.recipients|, {}, n) && forall i :: 0 <= i < d ==> deliveries[i].done
      modifies this`deliveries, this`history
      ensures Valid() && Idle(State()) && |deliveries| == d + 1
      ensures deliveries == old(deliveries)[d := old(deliveries)[d].(done := true)]
    {
      ghost var s := State();
      Took(s, history, Action.Finish(d));
      deliveries := Step(s, Action.Finish(d)).deliveries;
      history := history + [Action.Finish(d)];
    }

    /** Adding what was dropped to the total, without the lock. */
    method AddDropped(d: nat, n: nat)
      requires Valid() && d < |deliveries| && |deliveries[d].lost| == n
      requires deliveries[d].done && !deliveries[d].counted
      modifies this`dropped, this`deliveries, this`history
      ensures Valid() && dropped == old(dropped) + n
      ensures deliveries == old(deliveries)[d := old(deliveries)[d].(counted := true)]
    {
      ghost var s := State();
      Took(s, history, Action.Count(d));
      if n > 0 {
        dropped := dropped + n;
      }
      deliveries := Step(s, Action.Count(d)).deliveries;
      history := history + [Action.Count(d)];
    }

    method Close(d: nat, ghost e: Event, n: nat)
      requires Delivering(d, e, |e.recipients|, {}, n) && forall i :: 0 <= i < d ==> deliveries[i].done
      modifies this`dropped, this`deliveries, this`history
      ensures Valid() && Idle(State()) && |deliveries| == d + 1
      ensures deliveries == old(deliveries)[d := old(deliveries)[d].(done := true, counted := true)]
      ensures LostToFull(deliveries[d])
    {
      assert Progress(State(), deliveries[d]);
      Release(d, e, n);
      AddDropped(d, n);
    }

    /** The whole of one event's delivery, recorded as one finished call. */
    method Deliver(e: Event)
      requires Valid() && Idle(State())
      modifies this`chans, this`dropped, this`calls, this`deliveries, this`history
      ensures Valid() && Idle(State())
      ensures |deliveries| == old(|deliveries|) + 1 && deliveries[..old(|deliveries|)] == old(deliveries)
      ensures var x := deliveries[old(|deliveries|)]; x.event == e && x.roster == owner && x.done && x.counted && LostToFull(x)
      ensures AllGained(old(chans), chans, old(|deliveries|))
    {
      var d := Open(e);
      var n := 0;
      if |e.recipients| > 0 {
        for i := 0 to |e.recipients|
          invariant Delivering(d, e, i, {}, n)
          invariant deliveries[..d] == old(deliveries) && AllGained(old(chans), chans, d)
        {
          ghost var before := chans;
          n := SendTo(e.recipients[i], d, e, i, n);
          GainedTwice(old(chans), before, chans, d);
        }
      } else {
        n := SendAll(owner.Keys, d, e, 0, 0);
      }
      assert forall i :: 0 <= i < d ==> deliveries[i] == deliveries[..d][i];
      Close(d, e, n);
      assert deliveries[..d] == old(deliveries);
    }
  }
}
