/**
 Messages of a federated conversation outside the commit path.  The hub gives every message
 its id and sequence number and addresses one copy to each participant host; a submitting
 host gets its copy as the echo of its own request.  A follower may submit any content type.
 */
module MessageFanOut {
  import opened Sums

  type Host = int
  type User = int
  type Id = int

  /** A member's home, as the hub's rows name it: empty for its own users. */
  datatype Domain = Here | At(host: Host)

  datatype Member = Member(user: User, domain: Domain)

  /** What the content type says: the two that only the commit endpoint may take, or another. */
  datatype Content = Welcome | Commit | Other

  datatype Message = Message(id: Id, seqNo: nat, sender: User, body: nat, content: Content)

  /** A copy on its way: a relay, or the echo in the answer to a submission. */
  datatype Envelope = Envelope(to: Host, msg: Message, echo: bool)

  /**
   Whether the copy is stored on arrival.  An echo always is.  A relay of a message typed as
   a commit goes to the chain check instead, which a message without a link cannot pass.
   */
  predicate Stores(e: Envelope) {
    e.echo || !e.msg.content.Commit?
  }

  // ------------------------------------------------------- who gets a message

  predicate IsPeer(self: Host, d: Domain) {
    d.At? && d.host != self
  }

  /** The distinct peer domains with a member, in the order they first appear. */
  function ParticipantHosts(self: Host, members: seq<Member>): seq<Host> {
    if members == [] then []
    else
      var hosts := ParticipantHosts(self, members[..|members| - 1]);
      var d := members[|members| - 1].domain;
      if IsPeer(self, d) && d.host !in hosts then hosts + [d.host] else hosts
  }

  function Without(hosts: seq<Host>, except: Host): seq<Host> {
    if hosts == [] then []
    else
      var rest := Without(hosts[..|hosts| - 1], except);
      if hosts[|hosts| - 1] == except then rest else rest + [hosts[|hosts| - 1]]
  }

  ghost predicate HasMemberAt(members: seq<Member>, h: Host) {
    exists i :: 0 <= i < |members| && members[i].domain == At(h)
  }

  /** Every peer host with a member is listed exactly once, and no other. */
  lemma {:induction false} ParticipantsListedOnce(self: Host, members: seq<Member>, h: Host)
    ensures Occurs(ParticipantHosts(self, members), h)
         == if h != self && HasMemberAt(members, h) then 1 else 0
    ensures h in ParticipantHosts(self, members) <==> h != self && HasMemberAt(members, h)
  {
    if members != [] {
      var n := |members| - 1;
      var before := ParticipantHosts(self, members[..n]);
      var d := members[n].domain;
      ParticipantsListedOnce(self, members[..n], h);
      assert HasMemberAt(members, h) <==> HasMemberAt(members[..n], h) || d == At(h) by {
        if HasMemberAt(members[..n], h) {
          var i :| 0 <= i < n && members[..n][i].domain == At(h);
          assert members[i].domain == At(h);
        }
        if HasMemberAt(members, h) && d != At(h) {
          var i :| 0 <= i < |members| && members[i].domain == At(h);
          assert members[..n][i].domain == At(h);
        }
      }
      if IsPeer(self, d) && d.host !in before {
        assert (before + [d.host])[..|before|] == before;
      }
    }
  }

  /** They are listed in the order in which they first appear: more members only add hosts at the end. */
  lemma {:induction false} ListedInOrderOfAppearance(self: Host, members: seq<Member>, n: nat)
    requires n <= |members|
    ensures ParticipantHosts(self, members[..n]) <= ParticipantHosts(self, members)
  {
    if n < |members| {
      var k := |members| - 1;
      ListedInOrderOfAppearance(self, members[..k], n);
      assert members[..k][..n] == members[..n];
    } else {
      assert members[..n] == members;
    }
  }

  lemma {:induction false} WithoutDropsOne(hosts: seq<Host>, except: Host, h: Host)
    ensures Occurs(Without(hosts, except), h) == if h == except then 0 else Occurs(hosts, h)
  {
    if hosts != [] {
      var n := |hosts| - 1;
      WithoutDropsOne(hosts[..n], except, h);
      var rest := Without(hosts[..n], except);
      assert (rest + [hosts[n]])[..|rest|] == rest;
    }
  }

  /** Whom a message is relayed to. */
  function Relays(self: Host, members: seq<Member>, except: Domain): seq<Host> {
    match except
    case Here => ParticipantHosts(self, members)
    case At(x) => Without(ParticipantHosts(self, members), x)
  }

  /** Every peer host with a member is relayed to once, but for the one excepted. */
  lemma RelayedOncePerPeer(self: Host, members: seq<Member>, except: Domain, h: Host)
    ensures Occurs(Relays(self, members, except), h)
         == if h != self && HasMemberAt(members, h) && except != At(h) then 1 else 0
  {
    ParticipantsListedOnce(self, members, h);
    if except.At? {
      WithoutDropsOne(ParticipantHosts(self, members), except.host, h);
    }
  }

  /** The hosts a message is addressed to: the relays, and the echo for a submitted one. */
  function Addressees(self: Host, members: seq<Member>, from: Domain): seq<Host> {
    Relays(self, members, from) + match from case Here => [] case At(h) => [h]
  }

  /** A message posted here, or submitted by a member's home, reaches each participant host once. */
  lemma AddressedExactlyOnce(self: Host, members: seq<Member>, from: Domain, h: Host)
    requires from.At? ==> from.host != self && HasMemberAt(members, from.host)
    ensures Occurs(Addressees(self, members, from), h)
         == if h != self && HasMemberAt(members, h) then 1 else 0
  {
    var rest := Relays(self, members, from);
    RelayedOncePerPeer(self, members, from, h);
    if from.At? {
      OccursAppend(rest, from.host, h);
    } else {
      assert rest + [] == rest;
    }
  }

  // ---------------------------------------------------------------- the system

  datatype World = World(
    members: seq<Member>,
    log: seq<Message>,                   // the hub's messages, in the order it stored them
    addressed: map<Id, seq<Host>>,       // whom each message of the message path was addressed to
    origin: map<Id, Domain>,             // and which host submitted it
    mirrors: map<Host, map<Id, Message>>,
    sent: set<Envelope>,
    arrived: set<Envelope>)              // envelopes that reached a mirror at least once

  datatype Action =
    | AddMember(member: Member)
    | Local(id: Id, sender: User, body: nat, content: Content)
    | Post(id: Id, sender: User, body: nat, content: Content)
    | Submit(from: Host, id: Id, sender: User, body: nat, content: Content)
    | Provision(host: Host)
    | Deliver(envelope: Envelope)

  ghost predicate Fresh(s: World, id: Id) {
    forall m :: m in s.log ==> m.id != id
  }

  /** One past the highest number in the log. */
  function NextSeq(log: seq<Message>): nat {
    HighestSeq(log) + 1
  }

  function HighestSeq(log: seq<Message>): (r: nat)
    ensures forall m :: m in log ==> m.seqNo <= r
  {
    if log == [] then 0
    else
      var n := |log| - 1;
      var r := HighestSeq(log[..n]);
      if log[n].seqNo > r then log[n].seqNo else r
  }

  lemma {:induction false} HighestIsThere(log: seq<Message>)
    ensures HighestSeq(log) == 0 || exists m :: m in log && m.seqNo == HighestSeq(log)
  {
    if log != [] {
      HighestIsThere(log[..|log| - 1]);
      assert log[|log| - 1] in log;
    }
  }

  ghost predicate Enabled(self: Host, s: World, a: Action) {
    match a
    case AddMember(_) => true
    case Local(id, _, _, _) => Fresh(s, id)
    case Post(id, _, _, content) => Fresh(s, id) && content.Other?
    case Submit(from, id, sender, _, _) => Fresh(s, id) && from != self && Member(sender, At(from)) in s.members
    case Provision(h) => h !in s.mirrors && h != self
    case Deliver(e) => e in s.sent && e.to in s.mirrors
  }

  ghost function Copies(to: seq<Host>, m: Message, from: Domain): set<Envelope> {
    set h | h in to :: Envelope(h, m, from == At(h))
  }

  ghost function Accept(self: Host, s: World, id: Id, sender: User, body: nat, content: Content, from: Domain): World {
    var m := Message(id, NextSeq(s.log), sender, body, content);
    var to := Addressees(self, s.members, from);
    s.(log := s.log + [m],
       addressed := s.addressed[id := to],
       origin := s.origin[id := from],
       sent := s.sent + Copies(to, m, from))
  }

  /** Stored under the hub's id, if it is stored. */
  function Store(store: map<Id, Message>, e: Envelope): map<Id, Message> {
    if Stores(e) then store[e.msg.id := e.msg] else store
  }

  ghost function Step(self: Host, s: World, a: Action): World {
    if !Enabled(self, s, a) then s
    else match a
      case AddMember(m) => s.(members := s.members + [m])
      case Local(id, sender, body, content) =>
        // Appended without relaying: a membership note, or a batch of the commit path.
        s.(log := s.log + [Message(id, NextSeq(s.log), sender, body, content)])
      case Post(id, sender, body, content) => Accept(self, s, id, sender, body, content, Here)
      case Submit(from, id, sender, body, content) => Accept(self, s, id, sender, body, content, At(from))
      case Provision(h) => s.(mirrors := s.mirrors[h := map[]])
      case Deliver(e) =>
        s.(mirrors := s.mirrors[e.to := Store(s.mirrors[e.to], e)], arrived := s.arrived + {e})
  }

  const INITIAL := World([], [], map[], map[], map[], {}, {})

  ghost function Run(self: Host, actions: seq<Action>): World {
    if actions == [] then INITIAL
    else Step(self, Run(self, actions[..|actions| - 1]), actions[|actions| - 1])
  }

  // -------------------------------------------------------------- what a step accepts

  /** A member here posts anything but a welcome or a commit; a host submits anything, for a member it homes. */
  ghost predicate MaySend(self: Host, s: World, a: Action) {
    match a
    case Post(id, _, _, content) => Fresh(s, id) && content != Welcome && content != Commit
    case Submit(from, id, sender, _, _) => Fresh(s, id) && from != self && Member(sender, At(from)) in s.members
    case _ => false
  }

  ghost predicate CarriesMessage(a: Action, m: Message)
    requires a.Post? || a.Submit? || a.Local?
  {
    m.id == a.id && m.sender == a.sender && m.body == a.body && m.content == a.content
  }

  /** One more message in the log, with this number, and one copy of it to each addressee. */
  ghost predicate Added(self: Host, s: World, a: Action, t: World, m: Message)
    requires a.Post? || a.Submit?
  {
    && t.log == s.log + [m] && CarriesMessage(a, m)
    && (forall x :: x in s.log ==> x.seqNo < m.seqNo)
    && (forall e :: e in t.sent <==> e in s.sent || CopyOf(self, s, a, m, e))
    && t.mirrors == s.mirrors
  }

  /** A relay to a peer host with a member, or the echo to the host that submitted. */
  ghost predicate CopyOf(self: Host, s: World, a: Action, m: Message, e: Envelope)
    requires a.Post? || a.Submit?
  {
    && e.msg == m && e.to != self && HasMemberAt(s.members, e.to) && (e.echo <==> a.Submit? && a.from == e.to)
  }

  /** A message is accepted exactly if it may be sent; it is stored as sent and copied to every participant. */
  lemma MessageIsAcceptedExactly(self: Host, s: World, a: Action)
    requires a.Post? || a.Submit?
    ensures var t := Step(self, s, a);
      if MaySend(self, s, a) then exists m :: Added(self, s, a, t, m) else t == s
  {
    if MaySend(self, s, a) {
      var from := if a.Post? then Here else At(a.from);
      var m := Message(a.id, NextSeq(s.log), a.sender, a.body, a.content);
      if a.Submit? {
        var i :| 0 <= i < |s.members| && s.members[i] == Member(a.sender, At(a.from));
      }
      forall e ensures e in Copies(Addressees(self, s.members, from), m, from) <==> CopyOf(self, s, a, m, e) {
        AddressedExactlyOnce(self, s.members, from, e.to);
        OccursPositive(Addressees(self, s.members, from), e.to);
      }
      assert Added(self, s, a, Step(self, s, a), m);
    }
  }

  /** A note of the hub's own is stored, numbered like any message, and sent to nobody. */
  lemma NoteIsStoredHere(self: Host, s: World, a: Action)
    requires a.Local?
    ensures var t := Step(self, s, a);
      if Fresh(s, a.id) then
        && |t.log| == |s.log| + 1 && s.log <= t.log && CarriesMessage(a, t.log[|s.log|])
        && (forall x :: x in s.log ==> x.seqNo < t.log[|s.log|].seqNo)
        && t.sent == s.sent && t.mirrors == s.mirrors && t.addressed == s.addressed
      else t == s
  {
  }

  // ---------------------------------------------------------------- invariants

  /** The hub numbers its messages upwards and never uses an id twice. */
  ghost predicate Numbered(log: seq<Message>) {
    forall i, j :: 0 <= i < j < |log| ==> log[i].seqNo < log[j].seqNo && log[i].id != log[j].id
  }

  /** The hub's own books: ids and numbers are used once, and what is addressed is sent. */
  ghost predicate Books(log: seq<Message>, addressed: map<Id, seq<Host>>, origin: map<Id, Domain>, sent: set<Envelope>) {
    && Numbered(log) && addressed.Keys == origin.Keys
    && (forall id :: id in addressed ==> exists m :: m in log && m.id == id)
    && (forall e :: e in sent <==> Due(log, addressed, origin, e))
  }

  /** The message is in the log and was addressed to the host, which gets the echo if it is the origin. */
  ghost predicate Due(log: seq<Message>, addressed: map<Id, seq<Host>>, origin: map<Id, Domain>, e: Envelope) {
    && e.msg in log && e.msg.id in addressed && e.msg.id in origin
    && e.to in addressed[e.msg.id] && (e.echo <==> origin[e.msg.id] == At(e.to))
  }

  ghost predicate ArrivedInv(s: World, e: Envelope) {
    e in s.sent && e.to in s.mirrors && (Stores(e) ==> e.msg.id in s.mirrors[e.to])
  }

  ghost predicate Inv(s: World) {
    && Books(s.log, s.addressed, s.origin, s.sent)
    && (forall e :: e in s.arrived ==> ArrivedInv(s, e))
    && (forall h :: h in s.mirrors ==> MirrorInv(s, h))
  }

  /** A mirror's messages are the hub's, under the hub's id and number, and reached it in a copy that is stored. */
  ghost predicate MirrorInv(s: World, h: Host)
    requires h in s.mirrors
  {
    forall id :: id in s.mirrors[h] ==>
      && s.mirrors[h][id] in s.log && s.mirrors[h][id].id == id
      && exists echo :: var e := Envelope(h, s.mirrors[h][id], echo); e in s.arrived && Stores(e)
  }

  lemma AppendKeepsNumbered(log: seq<Message>, m: Message)
    requires Numbered(log) && m.seqNo == NextSeq(log) && forall x :: x in log ==> x.id != m.id
    ensures Numbered(log + [m])
  {
  }

  /** Of the messages already in the log the same copies are due as before. */
  lemma DueAsBefore(log: seq<Message>, addressed: map<Id, seq<Host>>, origin: map<Id, Domain>,
                    m: Message, to: seq<Host>, from: Domain, e: Envelope)
    requires e.msg.id != m.id
    ensures Due(log + [m], addressed[m.id := to], origin[m.id := from], e) <==> Due(log, addressed, origin, e)
  {
    assert e.msg in log + [m] <==> e.msg in log || e.msg == m;
  }

  /** Of the new message, exactly the copies to those it is addressed to. */
  lemma DueOfTheNew(log: seq<Message>, addressed: map<Id, seq<Host>>, origin: map<Id, Domain>,
                    m: Message, to: seq<Host>, from: Domain, e: Envelope)
    requires e.msg.id == m.id && forall x :: x in log ==> x.id != m.id
    ensures Due(log + [m], addressed[m.id := to], origin[m.id := from], e) <==> e in Copies(to, m, from)
  {
    assert e.msg in log + [m] <==> e.msg in log || e.msg == m;
    assert e in Copies(to, m, from) <==> e.msg == m && e.to in to && (e.echo <==> from == At(e.to));
  }

  /** No copy of a message with a new id is on its way. */
  lemma NoneSentBefore(log: seq<Message>, addressed: map<Id, seq<Host>>, origin: map<Id, Domain>, sent: set<Envelope>,
                       m: Message, to: seq<Host>, from: Domain, e: Envelope)
    requires Books(log, addressed, origin, sent) && forall x :: x in log ==> x.id != m.id
    ensures e.msg.id == m.id ==> e !in sent
    ensures e.msg.id != m.id ==> e !in Copies(to, m, from)
  {
    assert e in sent <==> Due(log, addressed, origin, e);
  }

  lemma AcceptKeepsBooks(log: seq<Message>, addressed: map<Id, seq<Host>>, origin: map<Id, Domain>, sent: set<Envelope>,
                         m: Message, to: seq<Host>, from: Domain)
    requires Books(log, addressed, origin, sent)
    requires m.seqNo == NextSeq(log) && forall x :: x in log ==> x.id != m.id
    ensures Books(log + [m], addressed[m.id := to], origin[m.id := from], sent + Copies(to, m, from))
  {
    AppendKeepsNumbered(log, m);
    assert forall x :: x in log + [m] <==> x in log || x == m;
    forall e
      ensures e in sent + Copies(to, m, from) <==> Due(log + [m], addressed[m.id := to], origin[m.id := from], e)
    {
      NoneSentBefore(log, addressed, origin, sent, m, to, from, e);
      if e.msg.id == m.id {
        DueOfTheNew(log, addressed, origin, m, to, from, e);
      } else {
        DueAsBefore(log, addressed, origin, m, to, from, e);
        assert e in sent <==> Due(log, addressed, origin, e);
      }
    }
  }

  lemma AcceptKeeps(self: Host, s: World, id: Id, sender: User, body: nat, content: Content, from: Domain)
    requires Inv(s) && Fresh(s, id)
    ensures Inv(Accept(self, s, id, sender, body, content, from))
  {
    var m := Message(id, NextSeq(s.log), sender, body, content);
    var t := Accept(self, s, id, sender, body, content, from);
    AcceptKeepsBooks(s.log, s.addressed, s.origin, s.sent, m, Addressees(self, s.members, from), from);
    MirrorsUntouched(s, t);
  }

  /** A longer log and more copies on their way do not concern the mirrors. */
  lemma MirrorsUntouched(s: World, t: World)
    requires Inv(s) && t.mirrors == s.mirrors && t.arrived == s.arrived && s.sent <= t.sent && s.log <= t.log
    ensures forall e :: e in t.arrived ==> ArrivedInv(t, e)
    ensures forall h :: h in t.mirrors ==> MirrorInv(t, h)
  {
    forall e | e in t.arrived ensures ArrivedInv(t, e) {
      assert ArrivedInv(s, e);
    }
    forall h | h in t.mirrors ensures MirrorInv(t, h) {
      assert MirrorInv(s, h);
      assert forall m :: m in s.log ==> m in t.log;
    }
  }

  lemma LocalKeeps(self: Host, s: World, id: Id, sender: User, body: nat, content: Content)
    requires Inv(s) && Fresh(s, id)
    ensures Inv(Step(self, s, Local(id, sender, body, content)))
  {
    var m := Message(id, NextSeq(s.log), sender, body, content);
    var t := Step(self, s, Local(id, sender, body, content));
    LocalKeepsBooks(s.log, s.addressed, s.origin, s.sent, m);
    MirrorsUntouched(s, t);
  }

  lemma LocalKeepsBooks(log: seq<Message>, addressed: map<Id, seq<Host>>, origin: map<Id, Domain>, sent: set<Envelope>,
                        m: Message)
    requires Books(log, addressed, origin, sent)
    requires m.seqNo == NextSeq(log) && forall x :: x in log ==> x.id != m.id
    ensures Books(log + [m], addressed, origin, sent)
  {
    AppendKeepsNumbered(log, m);
    assert forall x :: x in log + [m] <==> x in log || x == m;
    assert m.id !in addressed;
    forall e ensures e in sent <==> Due(log + [m], addressed, origin, e) {
      assert e in sent <==> Due(log, addressed, origin, e);
    }
  }

  lemma DeliverKeeps(self: Host, s: World, e: Envelope)
    requires Inv(s) && e in s.sent && e.to in s.mirrors
    ensures Inv(Step(self, s, Deliver(e)))
  {
    var t := Step(self, s, Deliver(e));
    assert Due(s.log, s.addressed, s.origin, e);
    forall a | a in t.arrived ensures ArrivedInv(t, a) {
      assert a == e || ArrivedInv(s, a);
    }
    forall h | h in t.mirrors ensures MirrorInv(t, h) {
      DeliverKeepsMirror(self, s, e, h);
    }
  }

  lemma DeliverKeepsMirror(self: Host, s: World, e: Envelope, h: Host)
    requires Inv(s) && e in s.sent && e.to in s.mirrors && h in s.mirrors
    ensures MirrorInv(Step(self, s, Deliver(e)), h)
  {
    var t := Step(self, s, Deliver(e));
    assert Due(s.log, s.addressed, s.origin, e) && MirrorInv(s, h);
    assert e == Envelope(e.to, e.msg, e.echo) && e in t.arrived;
    forall id | id in t.mirrors[h]
      ensures exists echo :: var x := Envelope(h, t.mirrors[h][id], echo); x in t.arrived && Stores(x)
    {
      if h != e.to || id != e.msg.id || !Stores(e) {
        var echo :| var x := Envelope(h, s.mirrors[h][id], echo); x in s.arrived && Stores(x);
        assert Envelope(h, t.mirrors[h][id], echo) in t.arrived;
      }
    }
  }

  lemma ProvisionKeeps(self: Host, s: World, h: Host)
    requires Inv(s) && h !in s.mirrors
    ensures Inv(Step(self, s, Provision(h)))
  {
    var t := Step(self, s, Provision(h));
    forall a | a in t.arrived ensures ArrivedInv(t, a) {
      assert ArrivedInv(s, a);
    }
    forall g | g in t.mirrors ensures MirrorInv(t, g) {
      if g in s.mirrors {
        assert MirrorInv(s, g);
      }
    }
  }

  lemma StepKeeps(self: Host, s: World, a: Action)
    requires Inv(s)
    ensures Inv(Step(self, s, a))
  {
    if Enabled(self, s, a) {
      match a
      case AddMember(m) => MirrorsUntouched(s, s.(members := s.members + [m]));
      case Local(id, sender, body, content) => LocalKeeps(self, s, id, sender, body, content);
      case Post(id, sender, body, content) => AcceptKeeps(self, s, id, sender, body, content, Here);
      case Submit(from, id, sender, body, content) => AcceptKeeps(self, s, id, sender, body, content, At(from));
      case Provision(h) => ProvisionKeeps(self, s, h);
      case Deliver(e) => DeliverKeeps(self, s, e);
    }
  }

  lemma {:induction false} RunKeeps(self: Host, actions: seq<Action>)
    ensures Inv(Run(self, actions))
  {
    if actions == [] {
    } else {
      var n := |actions| - 1;
      RunKeeps(self, actions[..n]);
      StepKeeps(self, Run(self, actions[..n]), actions[n]);
    }
  }

  // ------------------------------------------------------------------ theorems

  /** The step that accepts a message addresses it to every participant host of that moment, once. */
  lemma AcceptanceAddressesEveryParticipantOnce(self: Host, actions: seq<Action>, a: Action, h: Host)
    requires (a.Post? || a.Submit?) && Enabled(self, Run(self, actions), a)
    ensures var s, t := Run(self, actions), Run(self, actions + [a]);
      && a.id in t.addressed
      && Occurs(t.addressed[a.id], h) == if h != self && HasMemberAt(s.members, h) then 1 else 0
  {
    assert (actions + [a])[..|actions|] == actions;
    var s := Run(self, actions);
    if a.Submit? {
      var i :| 0 <= i < |s.members| && s.members[i] == Member(a.sender, At(a.from));
    }
    AddressedExactlyOnce(self, s.members, if a.Post? then Here else At(a.from), h);
  }

  ghost predicate AscendingIds(t: seq<Message>) {
    forall i, j :: 0 <= i < j < |t| ==> t[i].seqNo < t[j].seqNo
  }

  /** A transcript of a set of messages: each once, by ascending number. */
  ghost predicate Transcript(t: seq<Message>, messages: set<Message>) {
    AscendingIds(t) && forall m :: m in t <==> m in messages
  }

  ghost function Keep(log: seq<Message>, messages: set<Message>): seq<Message> {
    if log == [] then []
    else
      var rest := Keep(log[..|log| - 1], messages);
      if log[|log| - 1] in messages then rest + [log[|log| - 1]] else rest
  }

  lemma {:induction false} KeepHolds(log: seq<Message>, messages: set<Message>, m: Message)
    ensures m in Keep(log, messages) <==> m in log && m in messages
  {
    if log != [] {
      var n := |log| - 1;
      KeepHolds(log[..n], messages, m);
      assert log == log[..n] + [log[n]];
    }
  }

  lemma {:induction false} KeepIsTranscript(log: seq<Message>, messages: set<Message>)
    requires Numbered(log)
    ensures AscendingIds(Keep(log, messages))
  {
    if log != [] {
      var n := |log| - 1;
      KeepIsTranscript(log[..n], messages);
      var rest := Keep(log[..n], messages);
      forall i | 0 <= i < |rest| ensures rest[i].seqNo < log[n].seqNo {
        KeepHolds(log[..n], messages, rest[i]);
      }
    }
  }

  /** Ascending enumerations of the same messages are the same. */
  lemma {:induction false} TranscriptIsUnique(t: seq<Message>, u: seq<Message>)
    requires AscendingIds(t) && AscendingIds(u) && forall m :: m in t <==> m in u
    ensures t == u
    decreases |t|
  {
    assert (u == [] || u[0] in u) && (t == [] || t[0] in t);
    if t == [] {
    } else {
      var n, k := |t| - 1, |u| - 1;
      SameLast(t, u);
      forall m ensures m in t[..n] <==> m in u[..k] {
        WithoutLast(t, m);
        WithoutLast(u, m);
      }
      TranscriptIsUnique(t[..n], u[..k]);
      assert t == t[..n] + [t[n]] && u == u[..k] + [u[k]];
    }
  }

  lemma SameLast(t: seq<Message>, u: seq<Message>)
    requires AscendingIds(t) && AscendingIds(u) && forall m :: m in t <==> m in u
    requires t != [] && u != []
    ensures t[|t| - 1] == u[|u| - 1]
  {
    LastIsHighest(t, u[|u| - 1]);
    LastIsHighest(u, t[|t| - 1]);
  }

  lemma LastIsHighest(t: seq<Message>, m: Message)
    requires AscendingIds(t) && m in t
    ensures m == t[|t| - 1] || m.seqNo < t[|t| - 1].seqNo
  {
    var i :| 0 <= i < |t| && t[i] == m;
  }

  lemma WithoutLast(t: seq<Message>, m: Message)
    requires AscendingIds(t) && t != []
    ensures m in t[..|t| - 1] <==> m in t && m != t[|t| - 1]
  {
    if m in t && m != t[|t| - 1] {
      var i :| 0 <= i < |t| && t[i] == m;
      assert t[..|t| - 1][i] == m;
    }
  }

  ghost function Stored(store: map<Id, Message>): set<Message> {
    set id | id in store :: store[id]
  }

  /** A mirror's transcript is the hub's with the messages it lacks left out: same ids, numbers and order. */
  lemma MirrorTranscriptIsTheHubs(self: Host, actions: seq<Action>, h: Host, t: seq<Message>)
    requires h in Run(self, actions).mirrors
    requires Transcript(t, Stored(Run(self, actions).mirrors[h]))
    ensures var s := Run(self, actions); t == Keep(s.log, Stored(s.mirrors[h]))
  {
    RunKeeps(self, actions);
    var s := Run(self, actions);
    assert MirrorInv(s, h);
    var store := s.mirrors[h];
    KeepIsTranscript(s.log, Stored(store));
    forall m | m in Stored(store) ensures m in s.log {
      var id :| id in store && store[id] == m;
    }
    forall m ensures m in t <==> m in Keep(s.log, Stored(store)) {
      KeepHolds(s.log, Stored(store), m);
    }
    TranscriptIsUnique(t, Keep(s.log, Stored(store)));
  }

  /** What happens to a copy that arrives: it is stored exactly unless it is a relay typed as a commit. */
  lemma ArrivingIsStoredExactly(self: Host, actions: seq<Action>, e: Envelope)
    requires e in Run(self, actions).arrived
    ensures var s := Run(self, actions);
      e.to in s.mirrors && (e.msg in Stored(s.mirrors[e.to]) <==> e.echo || !e.msg.content.Commit?)
  {
    RunKeeps(self, actions);
    var s := Run(self, actions);
    assert ArrivedInv(s, e) && MirrorInv(s, e.to) && Due(s.log, s.addressed, s.origin, e);
    StoredExactly(s, e.to, e.msg);
    if e.msg in Stored(s.mirrors[e.to]) {
      var echo :| var x := Envelope(e.to, e.msg, echo); x in s.arrived && Stores(x);
      assert ArrivedInv(s, Envelope(e.to, e.msg, echo));
      assert Due(s.log, s.addressed, s.origin, Envelope(e.to, e.msg, echo));
    }
  }

  /** A mirror holds a message exactly if some copy of it that is stored has arrived. */
  lemma StoredExactly(s: World, h: Host, m: Message)
    requires Inv(s) && h in s.mirrors
    ensures m in Stored(s.mirrors[h]) <==> exists echo :: var e := Envelope(h, m, echo); e in s.arrived && Stores(e)
  {
    var store := s.mirrors[h];
    assert MirrorInv(s, h);
    if m in Stored(store) {
      var id :| id in store && store[id] == m;
    }
    if exists echo :: var e := Envelope(h, m, echo); e in s.arrived && Stores(e) {
      var echo :| var e := Envelope(h, m, echo); e in s.arrived && Stores(e);
      var e := Envelope(h, m, echo);
      assert ArrivedInv(s, e) && Due(s.log, s.addressed, s.origin, e);
      SameIdSameMessage(s.log, m, store[m.id]);
    }
  }

  ghost predicate NothingLost(s: World, h: Host) {
    forall e :: e in s.sent && e.to == h ==> e in s.arrived
  }

  ghost predicate AddressedTo(s: World, h: Host, m: Message) {
    m in s.log && m.id in s.addressed && h in s.addressed[m.id]
  }

  ghost predicate SubmittedBy(s: World, h: Host, m: Message) {
    m.id in s.origin && s.origin[m.id] == At(h)
  }

  /**
   If nothing addressed to a mirror was lost, it holds exactly what was addressed to it but
   for the messages typed as commits that another host submitted.
   */
  lemma NothingLostNothingMissing(self: Host, actions: seq<Action>, h: Host, m: Message)
    requires h in Run(self, actions).mirrors && NothingLost(Run(self, actions), h)
    ensures var s := Run(self, actions);
      m in Stored(s.mirrors[h]) <==> AddressedTo(s, h, m) && (!m.content.Commit? || SubmittedBy(s, h, m))
  {
    RunKeeps(self, actions);
    var s := Run(self, actions);
    StoredExactly(s, h, m);
    forall echo | Envelope(h, m, echo) in s.arrived
      ensures AddressedTo(s, h, m) && (echo <==> SubmittedBy(s, h, m))
    {
      assert ArrivedInv(s, Envelope(h, m, echo));
      assert Due(s.log, s.addressed, s.origin, Envelope(h, m, echo));
    }
    if AddressedTo(s, h, m) {
      var e := Envelope(h, m, SubmittedBy(s, h, m));
      assert Due(s.log, s.addressed, s.origin, e) && e in s.arrived;
    }
  }

  /** Two mirrors to which everything addressed has arrived, and a message only one of them holds. */
  ghost predicate Disagree(s: World, g: Host, h: Host, m: Message) {
    && g in s.mirrors && h in s.mirrors && NothingLost(s, g) && NothingLost(s, h)
    && AddressedTo(s, g, m) && AddressedTo(s, h, m)
    && m in Stored(s.mirrors[g]) && m !in Stored(s.mirrors[h])
  }

  /** A commit submitted as a message: its submitter stores it and nobody else does, with nothing lost. */
  lemma SubmittedCommitSplitsMirrors(self: Host, g: Host, h: Host)
    requires g != self && h != self && g != h
    ensures exists actions: seq<Action>, m: Message :: Disagree(Run(self, actions), g, h, m)
  {
    var m := Message(0, 1, 1, 0, Commit);
    var members := [Member(1, At(g)), Member(2, At(h))];
    var a0 := [] + [AddMember(members[0])] + [AddMember(members[1])] + [Provision(g)] + [Provision(h)];
    var submit, echo, relay := Submit(g, 0, 1, 0, Commit), Envelope(g, m, true), Envelope(h, m, false);
    TwoMirrors(self, g, h);
    RunOf(self, a0, submit);
    RunOf(self, a0 + [submit], Deliver(echo));
    RunOf(self, a0 + [submit] + [Deliver(echo)], Deliver(relay));
    SubmittedState(self, g, h, members);
    DeliveredState(self, g, h, members);
    var all := a0 + [submit] + [Deliver(echo)] + [Deliver(relay)];
    assert Run(self, all) == Split(g, h, members);
    SplitState(g, h, members);
    assert Disagree(Run(self, all), g, h, m);
  }

  function Start(g: Host, h: Host, members: seq<Member>): World {
    INITIAL.(members := members, mirrors := map[g := map[], h := map[]])
  }

  function Submitted(g: Host, h: Host, members: seq<Member>): World {
    var m := Message(0, 1, 1, 0, Commit);
    Start(g, h, members).(log := [m], addressed := map[0 := [h, g]], origin := map[0 := At(g)],
                          sent := {Envelope(g, m, true), Envelope(h, m, false)})
  }

  function Split(g: Host, h: Host, members: seq<Member>): World {
    var m := Message(0, 1, 1, 0, Commit);
    Submitted(g, h, members).(mirrors := map[g := map[0 := m], h := map[]],
                              arrived := {Envelope(g, m, true), Envelope(h, m, false)})
  }

  lemma SubmittedState(self: Host, g: Host, h: Host, members: seq<Member>)
    requires g != self && h != self && g != h && members == [Member(1, At(g)), Member(2, At(h))]
    ensures Step(self, Start(g, h, members), Submit(g, 0, 1, 0, Commit)) == Submitted(g, h, members)
  {
    var m := Message(0, 1, 1, 0, Commit);
    TwoAddressees(self, g, h, members);
    assert members[0] in members;
    assert Copies([h, g], m, At(g)) == {Envelope(g, m, true), Envelope(h, m, false)} by {
      assert forall x :: x in [h, g] <==> x == g || x == h;
      assert Envelope(g, m, At(g) == At(g)) in Copies([h, g], m, At(g));
      assert Envelope(h, m, At(g) == At(h)) in Copies([h, g], m, At(g));
    }
    assert [] + [m] == [m];
  }

  lemma DeliveredState(self: Host, g: Host, h: Host, members: seq<Member>)
    requires g != h
    ensures var m := Message(0, 1, 1, 0, Commit);
      Step(self, Step(self, Submitted(g, h, members), Deliver(Envelope(g, m, true))), Deliver(Envelope(h, m, false)))
        == Split(g, h, members)
  {
    var m := Message(0, 1, 1, 0, Commit);
    var s := Submitted(g, h, members);
    var t := s.(mirrors := map[g := map[0 := m], h := map[]], arrived := {Envelope(g, m, true)});
    assert s.mirrors[g := map[0 := m]] == t.mirrors && t.mirrors[h := map[]] == t.mirrors;
    assert Step(self, s, Deliver(Envelope(g, m, true))) == t;
    assert t.arrived + {Envelope(h, m, false)} == Split(g, h, members).arrived;
  }

  lemma SplitState(g: Host, h: Host, members: seq<Member>)
    requires g != h
    ensures Disagree(Split(g, h, members), g, h, Message(0, 1, 1, 0, Commit))
  {
    var s := Split(g, h, members);
    assert s.mirrors[g][0] == Message(0, 1, 1, 0, Commit);
    assert s.addressed[0] == [h, g];
  }

  lemma TwoMirrors(self: Host, g: Host, h: Host)
    requires g != self && h != self && g != h
    ensures var members := [Member(1, At(g)), Member(2, At(h))];
      Run(self, [] + [AddMember(members[0])] + [AddMember(members[1])] + [Provision(g)] + [Provision(h)])
        == Start(g, h, members)
  {
    var x, y := Member(1, At(g)), Member(2, At(h));
    var a1 := [] + [AddMember(x)];
    var a2 := a1 + [AddMember(y)];
    var a3 := a2 + [Provision(g)];
    RunOf(self, [], AddMember(x));
    RunOf(self, a1, AddMember(y));
    RunOf(self, a2, Provision(g));
    RunOf(self, a3, Provision(h));
    MembersAndMirrors(self, g, h, x, y);
  }

  lemma MembersAndMirrors(self: Host, g: Host, h: Host, x: Member, y: Member)
    requires g != self && h != self && g != h
    ensures Step(self, Step(self, INITIAL, AddMember(x)), AddMember(y)) == INITIAL.(members := [x, y])
    ensures Step(self, Step(self, INITIAL.(members := [x, y]), Provision(g)), Provision(h)) == Start(g, h, [x, y])
  {
    assert [] + [x] + [y] == [x, y];
    assert map[][g := map[]][h := map[]] == Start(g, h, [x, y]).mirrors;
  }

  lemma TwoAddressees(self: Host, g: Host, h: Host, members: seq<Member>)
    requires g != self && h != self && g != h && members == [Member(1, At(g)), Member(2, At(h))]
    ensures Addressees(self, members, At(g)) == [h, g]
  {
    PeerListed(self, [], members[0]);
    PeerListed(self, [members[0]], members[1]);
    assert [] + [members[0]] == [members[0]] && [members[0]] + [members[1]] == members;
    OneLess([], g, g);
    OneLess([g], h, g);
    assert [] + [g] == [g] && [g] + [h] == [g, h] && [] + [h] == [h];
  }

  lemma PeerListed(self: Host, members: seq<Member>, m: Member)
    requires IsPeer(self, m.domain) && m.domain.host !in ParticipantHosts(self, members)
    ensures ParticipantHosts(self, members + [m]) == ParticipantHosts(self, members) + [m.domain.host]
  {
    assert (members + [m])[..|members|] == members;
  }

  lemma OneLess(hosts: seq<Host>, h: Host, except: Host)
    ensures Without(hosts + [h], except) == Without(hosts, except) + if h == except then [] else [h]
  {
    assert (hosts + [h])[..|hosts|] == hosts;
  }

  lemma RunOf(self: Host, actions: seq<Action>, a: Action)
    ensures Run(self, actions + [a]) == Step(self, Run(self, actions), a)
  {
    assert (actions + [a])[..|actions|] == actions;
  }

  lemma SameIdSameMessage(log: seq<Message>, m: Message, n: Message)
    requires Numbered(log) && m in log && n in log && m.id == n.id
    ensures m == n
  {
    var i :| 0 <= i < |log| && log[i] == m;
    var j :| 0 <= j < |log| && log[j] == n;
  }

  // ------------------------------------------------------------------ the code

  method ComputeParticipantHosts(self: Host, members: seq<Member>) returns (hosts: seq<Host>)
    ensures hosts == ParticipantHosts(self, members)
    ensures forall h :: h in hosts <==> h != self && HasMemberAt(members, h)
  {
    forall h ensures h in ParticipantHosts(self, members) <==> h != self && HasMemberAt(members, h) {
      ParticipantsListedOnce(self, members, h);
    }
    var seen: set<Host> := {};
    hosts := [];
    for i := 0 to |members|
      invariant hosts == ParticipantHosts(self, members[..i])
      invariant forall h :: h in seen <==> h in hosts
    {
      assert members[..i + 1][..i] == members[..i];
      var d := members[i].domain;
      if d == Here || d == At(self) {
        continue;
      }
      if d.host in seen {
        continue;
      }
      seen := seen + {d.host};
      hosts := hosts + [d.host];
    }
    assert members[..|members|] == members;
  }

  /** The hub's log: `AppendChatMessage` numbers a message that has no number yet. */
  class HubLog {
    var log: seq<Message>

    constructor ()
      ensures log == []
    {
      log := [];
    }

    method Append(id: Id, sender: User, body: nat, content: Content) returns (m: Message)
      modifies this
      ensures m == Message(id, NextSeq(old(log)), sender, body, content)
      ensures log == old(log) + [m]
      ensures forall x :: x in old(log) ==> x.seqNo < m.seqNo
      ensures m.seqNo == 1 || exists x :: x in old(log) && x.seqNo + 1 == m.seqNo
    {
      var highest := 0;
      for i := 0 to |log|
        invariant highest == HighestSeq(log[..i])
      {
        assert log[..i + 1][..i] == log[..i];
        if log[i].seqNo > highest {
          highest := log[i].seqNo;
        }
      }
      assert log[..|log|] == log;
      HighestIsThere(log);
      m := Message(id, highest + 1, sender, body, content);
      log := log + [m];
    }
  }

  /** `relayExcept`: the relays of one stored message, in the order they are sent. */
  method RelayExcept(self: Host, members: seq<Member>, except: Domain, m: Message) returns (sent: seq<Envelope>)
    ensures |sent| == |Relays(self, members, except)|
    ensures forall i :: 0 <= i < |sent| ==> sent[i] == Envelope(Relays(self, members, except)[i], m, false)
    ensures forall h :: (exists i :: 0 <= i < |sent| && sent[i].to == h) <==> h != self && HasMemberAt(members, h) && except != At(h)
  {
    var hosts := ComputeParticipantHosts(self, members);
    sent := [];
    ghost var to: seq<Host> := [];
    for i := 0 to |hosts|
      invariant to == match except case Here => hosts[..i] case At(x) => Without(hosts[..i], x)
      invariant |sent| == |to| && forall j :: 0 <= j < |to| ==> sent[j] == Envelope(to[j], m, false)
    {
      assert hosts[..i + 1][..i] == hosts[..i];
      if except == At(hosts[i]) {
        continue;
      }
      sent := sent + [Envelope(hosts[i], m, false)];
      to := to + [hosts[i]];
    }
    assert hosts[..|hosts|] == hosts && to == Relays(self, members, except);
    forall h ensures h in to <==> h != self && HasMemberAt(members, h) && except != At(h) {
      RelayedOncePerPeer(self, members, except, h);
      OccursPositive(to, h);
    }
  }
}
