/**
 Receipt watermarks merged across hosts.  A member reports to its home host; the home
 host tells the hub (or is the hub), and the hub tells every other participant host.
 Updates may be lost, duplicated, delayed and reordered; and another host may send an update
 its own code would not have sent, with whatever marks, about whomever, to any host.
 */
module Receipts {

  type Host = nat
  type User = nat

  datatype Mark = Mark(delivered: int, read: int)

  function Max(a: int, b: int): int {
    if b > a then b else a
  }

  /** What the store does with a report: forward only, field by field. */
  function Merge(m: Mark, n: Mark): Mark {
    Mark(Max(m.delivered, n.delivered), Max(m.read, n.read))
  }

  predicate AtMost(m: Mark, n: Mark) {
    m.delivered <= n.delivered && m.read <= n.read
  }

  predicate Sane(m: Mark) {
    m.read <= m.delivered
  }

  /** `from` reports that `user` has reached `mark`. */
  datatype Update = Update(from: Host, to: Host, user: User, mark: Mark)

  datatype Config = Config(hub: Host, mirrors: set<Host>, home: map<User, Host>, start: map<User, Mark>) {
    ghost predicate Valid() {
      && hub !in mirrors
      && start.Keys == home.Keys
      && (forall u :: u in home ==> home[u] == hub || home[u] in mirrors)
      && (forall u :: u in start ==> Sane(start[u]))
    }

    ghost predicate HostOf(h: Host) {
      h == hub || h in mirrors
    }

    /** The hub takes an update only from the member's home, a mirror only from the hub. */
    predicate Accepts(m: Update) {
      m.user in home && m.from == if m.to == hub then home[m.user] else hub
    }
  }

  /** One host's copy of one member's watermarks. */
  datatype Copy = Copy(host: Host, user: User)

  /** `marks` holds every host's copies; `arrived` are the updates delivered at least once. */
  datatype World = World(marks: map<Copy, Mark>, sent: set<Update>, arrived: set<Update>)

  datatype Action = Report(user: User, delivered: int, read: int) | Forward(update: Update) | Arrive(update: Update)

  ghost function StartMarks(hosts: set<Host>, start: map<User, Mark>): (m: map<Copy, Mark>)
    ensures forall c :: c in m <==> c.host in hosts && c.user in start
    ensures forall c :: c in m ==> m[c] == start[c.user]
  {
    map h, u | h in hosts && u in start :: Copy(h, u) := start[u]
  }

  ghost function Initial(cfg: Config): World {
    World(StartMarks(cfg.mirrors + {cfg.hub}, cfg.start), {}, {})
  }

  /** What the hub sends on: the mark, to every participant host but one. */
  ghost function Relayed(cfg: Config, except: Host, user: User, mark: Mark): set<Update> {
    set h | h in cfg.mirrors && h != except :: Update(cfg.hub, h, user, mark)
  }

  /** A read implies delivery, so a report of `read` carries `delivered` up with it. */
  function Reported(delivered: int, read: int): Mark {
    Mark(Max(delivered, read), read)
  }

  /** Only the hub is sure to run this code. */
  ghost predicate Enabled(cfg: Config, s: World, a: Action) {
    match a
    case Report(u, delivered, read) => u in cfg.home && (delivered > 0 || read > 0)
    case Forward(m) => m.from != cfg.hub && cfg.HostOf(m.to) && m.user in cfg.home
    case Arrive(m) => m in s.sent
  }

  ghost function Put(s: World, h: Host, u: User, m: Mark): World
    requires Copy(h, u) in s.marks
  {
    s.(marks := s.marks[Copy(h, u) := Merge(s.marks[Copy(h, u)], m)])
  }

  ghost predicate Shaped(cfg: Config, s: World) {
    && (forall c :: c in s.marks <==> cfg.HostOf(c.host) && c.user in cfg.home)
    && (forall m :: m in s.sent ==> cfg.HostOf(m.to) && m.user in cfg.home)
  }

  ghost function Step(cfg: Config, s: World, a: Action): World
    requires cfg.Valid() && Shaped(cfg, s)
  {
    if !Enabled(cfg, s, a) then s
    else match a
      case Report(u, delivered, read) =>
        var home := cfg.home[u];
        var t := Put(s, home, u, Reported(delivered, read));
        var mark := t.marks[Copy(home, u)];
        t.(sent := t.sent + if home == cfg.hub then Relayed(cfg, cfg.hub, u, mark)
                            else {Update(home, cfg.hub, u, mark)})
      case Forward(m) => s.(sent := s.sent + {m})
      case Arrive(m) =>
        if !cfg.Accepts(m) then s.(arrived := s.arrived + {m})
        else
          var t := Put(s, m.to, m.user, m.mark);
          t.(arrived := t.arrived + {m},
             sent := t.sent + if m.to == cfg.hub then Relayed(cfg, m.from, m.user, m.mark) else {})
  }

  ghost function AtHome(cfg: Config, s: World, u: User): Mark
    requires cfg.Valid() && Shaped(cfg, s) && u in cfg.home
  {
    s.marks[Copy(cfg.home[u], u)]
  }

  // ------------------------------------------------------------- whatever hosts send

  ghost predicate Inv(cfg: Config, s: World) {
    && Shaped(cfg, s)
    && s.arrived <= s.sent
    && (forall c :: c in s.marks ==> MarkInv(cfg, s, c))
    && (forall m :: m in s.sent ==> UpdateInv(cfg, s, m))
    && (forall u :: u in cfg.home ==> Announced(cfg, s, u))
  }

  /** No mark is below where it started, and a member's own home host counts sanely. */
  ghost predicate MarkInv(cfg: Config, s: World, c: Copy)
    requires c in s.marks && Shaped(cfg, s)
  {
    cfg.Valid() && AtMost(cfg.start[c.user], s.marks[c]) && (c.host == cfg.home[c.user] ==> Sane(s.marks[c]))
  }

  /** What is accepted concerns another host's member; once it has arrived it is merged in and sent on. */
  ghost predicate UpdateInv(cfg: Config, s: World, m: Update)
    requires m in s.sent && Shaped(cfg, s)
  {
    cfg.Accepts(m) ==>
      && m.to != cfg.home[m.user]
      && (m in s.arrived ==> AtMost(m.mark, s.marks[Copy(m.to, m.user)]))
      && (m in s.arrived && m.to == cfg.hub ==> Relayed(cfg, m.from, m.user, m.mark) <= s.sent)
  }

  /** Unless nothing has moved yet, the home host's current mark is on its way to the others. */
  ghost predicate Announced(cfg: Config, s: World, u: User)
    requires Shaped(cfg, s) && u in cfg.home
  {
    cfg.Valid()
    && (AtHome(cfg, s, u) == cfg.start[u]
        || (if cfg.home[u] == cfg.hub then Relayed(cfg, cfg.hub, u, AtHome(cfg, s, u)) <= s.sent
            else Update(cfg.home[u], cfg.hub, u, AtHome(cfg, s, u)) in s.sent))
  }

  ghost function Run(cfg: Config, actions: seq<Action>): (s: World)
    requires cfg.Valid()
    ensures Shaped(cfg, s)
  {
    if actions == [] then
      InitialHolds(cfg);
      Initial(cfg)
    else
      var s := Run(cfg, actions[..|actions| - 1]);
      StepKeepsShape(cfg, s, actions[|actions| - 1]);
      Step(cfg, s, actions[|actions| - 1])
  }

  lemma InitialHolds(cfg: Config)
    requires cfg.Valid()
    ensures Inv(cfg, Initial(cfg))
  {
    assert forall u :: u in cfg.start <==> u in cfg.start.Keys;
    assert forall u :: u in cfg.home <==> u in cfg.home.Keys;
  }

  lemma StepKeepsShape(cfg: Config, s: World, a: Action)
    requires cfg.Valid() && Shaped(cfg, s)
    ensures Shaped(cfg, Step(cfg, s, a))
  {
  }

  lemma StepKeepsMarks(cfg: Config, s: World, a: Action)
    requires cfg.Valid() && Inv(cfg, s)
    ensures var t := Step(cfg, s, a); forall c :: c in t.marks ==> MarkInv(cfg, t, c)
  {
    var t := Step(cfg, s, a);
    if Enabled(cfg, s, a) && a.Arrive? {
      assert UpdateInv(cfg, s, a.update);
    }
    forall c | c in t.marks ensures MarkInv(cfg, t, c) {
      assert MarkInv(cfg, s, c);
    }
  }

  lemma StepKeepsUpdates(cfg: Config, s: World, a: Action)
    requires cfg.Valid() && Inv(cfg, s)
    ensures var t := Step(cfg, s, a); forall m :: m in t.sent ==> UpdateInv(cfg, t, m)
  {
    var t := Step(cfg, s, a);
    if Enabled(cfg, s, a) && a.Arrive? {
      assert UpdateInv(cfg, s, a.update);
    }
    forall m | m in t.sent ensures UpdateInv(cfg, t, m) {
      if m in s.sent {
        assert UpdateInv(cfg, s, m);
      }
    }
  }

  lemma StepKeepsAnnounced(cfg: Config, s: World, a: Action)
    requires cfg.Valid() && Inv(cfg, s)
    ensures var t := Step(cfg, s, a); forall u :: u in cfg.home ==> Announced(cfg, t, u)
  {
    var t := Step(cfg, s, a);
    if Enabled(cfg, s, a) && a.Arrive? {
      assert UpdateInv(cfg, s, a.update);
    }
    forall v | v in cfg.home ensures Announced(cfg, t, v) {
      assert Announced(cfg, s, v);
    }
  }

  lemma StepKeeps(cfg: Config, s: World, a: Action)
    requires cfg.Valid() && Inv(cfg, s)
    ensures Inv(cfg, Step(cfg, s, a))
  {
    StepKeepsMarks(cfg, s, a);
    StepKeepsUpdates(cfg, s, a);
    StepKeepsAnnounced(cfg, s, a);
  }

  lemma {:induction false} RunKeeps(cfg: Config, actions: seq<Action>)
    requires cfg.Valid()
    ensures Inv(cfg, Run(cfg, actions))
  {
    if actions == [] {
      InitialHolds(cfg);
    } else {
      var n := |actions| - 1;
      RunKeeps(cfg, actions[..n]);
      StepKeeps(cfg, Run(cfg, actions[..n]), actions[n]);
    }
  }

  /** No step ever lowers a watermark anywhere. */
  lemma WatermarksNeverFall(cfg: Config, actions: seq<Action>, a: Action, h: Host, u: User)
    requires cfg.Valid() && cfg.HostOf(h) && u in cfg.home
    ensures var s, t := Run(cfg, actions), Run(cfg, actions + [a]);
      && Copy(h, u) in s.marks && Copy(h, u) in t.marks && AtMost(s.marks[Copy(h, u)], t.marks[Copy(h, u)])
  {
    assert (actions + [a])[..|actions|] == actions;
  }

  // --------------------------------------------------- read, delivered and the home host

  /** On every host and for every member, read is not past delivered. */
  ghost predicate RowsSane(s: World) {
    forall c :: c in s.marks ==> Sane(s.marks[c])
  }

  /** No host is ahead of a member's home. */
  ghost predicate NoneAhead(cfg: Config, s: World)
    requires cfg.Valid() && Shaped(cfg, s)
  {
    forall c :: c in s.marks ==> AtMost(s.marks[c], AtHome(cfg, s, c.user))
  }

  /** If the step is an accepted arrival, its read mark is within the delivered mark it leaves behind. */
  ghost predicate LandsSanely(cfg: Config, s: World, a: Action)
    requires cfg.Valid() && Shaped(cfg, s)
  {
    a.Arrive? && a.update in s.sent && cfg.Accepts(a.update) ==>
      a.update.mark.read <= Max(a.update.mark.delivered, s.marks[Copy(a.update.to, a.update.user)].delivered)
  }

  /** If the step is an accepted arrival, it says no more than the member's home holds. */
  ghost predicate LandsBehindHome(cfg: Config, s: World, a: Action)
    requires cfg.Valid() && Shaped(cfg, s)
  {
    a.Arrive? && a.update in s.sent && cfg.Accepts(a.update) ==> AtMost(a.update.mark, AtHome(cfg, s, a.update.user))
  }

  lemma StepKeepsSaneExactly(cfg: Config, s: World, a: Action)
    requires cfg.Valid() && Shaped(cfg, s) && RowsSane(s)
    ensures RowsSane(Step(cfg, s, a)) <==> LandsSanely(cfg, s, a)
  {
    if a.Arrive? && a.update in s.sent && cfg.Accepts(a.update) {
      var c := Copy(a.update.to, a.update.user);
      assert c in s.marks && Step(cfg, s, a).marks == s.marks[c := Merge(s.marks[c], a.update.mark)];
      assert c in Step(cfg, s, a).marks;
    }
  }

  lemma StepKeepsBehindExactly(cfg: Config, s: World, a: Action)
    requires cfg.Valid() && Inv(cfg, s) && NoneAhead(cfg, s)
    ensures NoneAhead(cfg, Step(cfg, s, a)) <==> LandsBehindHome(cfg, s, a)
  {
    if a.Arrive? && a.update in s.sent && cfg.Accepts(a.update) {
      var c := Copy(a.update.to, a.update.user);
      assert UpdateInv(cfg, s, a.update);
      assert c in s.marks && Step(cfg, s, a).marks == s.marks[c := Merge(s.marks[c], a.update.mark)];
    }
  }

  /** After each of the first `n` steps. */
  ghost predicate SaneUpTo(cfg: Config, actions: seq<Action>, n: nat)
    requires cfg.Valid() && n <= |actions|
  {
    RowsSane(Run(cfg, actions[..n])) && (n > 0 ==> SaneUpTo(cfg, actions, n - 1))
  }

  ghost predicate BehindUpTo(cfg: Config, actions: seq<Action>, n: nat)
    requires cfg.Valid() && n <= |actions|
  {
    NoneAhead(cfg, Run(cfg, actions[..n])) && (n > 0 ==> BehindUpTo(cfg, actions, n - 1))
  }

  /** Each of the first `n` steps does. */
  ghost predicate AllLandSanely(cfg: Config, actions: seq<Action>, n: nat)
    requires cfg.Valid() && n <= |actions|
  {
    n > 0 ==> AllLandSanely(cfg, actions, n - 1) && LandsSanely(cfg, Run(cfg, actions[..n - 1]), actions[n - 1])
  }

  ghost predicate AllLandBehindHome(cfg: Config, actions: seq<Action>, n: nat)
    requires cfg.Valid() && n <= |actions|
  {
    n > 0 ==> AllLandBehindHome(cfg, actions, n - 1) && LandsBehindHome(cfg, Run(cfg, actions[..n - 1]), actions[n - 1])
  }

  lemma SaneAfter(cfg: Config, actions: seq<Action>, i: nat)
    requires cfg.Valid() && i < |actions| && RowsSane(Run(cfg, actions[..i]))
    ensures RowsSane(Run(cfg, actions[..i + 1])) <==> LandsSanely(cfg, Run(cfg, actions[..i]), actions[i])
  {
    StepAt(cfg, actions, i);
    StepKeepsSaneExactly(cfg, Run(cfg, actions[..i]), actions[i]);
  }

  lemma BehindAfter(cfg: Config, actions: seq<Action>, i: nat)
    requires cfg.Valid() && i < |actions| && NoneAhead(cfg, Run(cfg, actions[..i]))
    ensures NoneAhead(cfg, Run(cfg, actions[..i + 1])) <==> LandsBehindHome(cfg, Run(cfg, actions[..i]), actions[i])
  {
    StepAt(cfg, actions, i);
    RunKeeps(cfg, actions[..i]);
    StepKeepsBehindExactly(cfg, Run(cfg, actions[..i]), actions[i]);
  }

  lemma StepAt(cfg: Config, actions: seq<Action>, i: nat)
    requires cfg.Valid() && i < |actions|
    ensures Run(cfg, actions[..i + 1]) == Step(cfg, Run(cfg, actions[..i]), actions[i])
  {
    assert actions[..i + 1][..i] == actions[..i];
  }

  /**
   Whatever other hosts send: read stays within delivered on every host throughout a run, if
   and only if every accepted update, where it arrives, brings no read mark past the delivered
   mark it brings or finds.
   */
  lemma {:induction false} SaneThroughoutExactly(cfg: Config, actions: seq<Action>, n: nat)
    requires cfg.Valid() && n <= |actions|
    ensures SaneUpTo(cfg, actions, n) <==> AllLandSanely(cfg, actions, n)
  {
    if n == 0 {
      InitialHolds(cfg);
    } else {
      SaneThroughoutExactly(cfg, actions, n - 1);
      if SaneUpTo(cfg, actions, n - 1) {
        SaneAfter(cfg, actions, n - 1);
      }
    }
  }

  /** Likewise no host gets ahead of a member's home, if and only if no accepted update is ahead of it on arrival. */
  lemma {:induction false} BehindThroughoutExactly(cfg: Config, actions: seq<Action>, n: nat)
    requires cfg.Valid() && n <= |actions|
    ensures BehindUpTo(cfg, actions, n) <==> AllLandBehindHome(cfg, actions, n)
  {
    if n == 0 {
      InitialHolds(cfg);
    } else {
      BehindThroughoutExactly(cfg, actions, n - 1);
      if BehindUpTo(cfg, actions, n - 1) {
        BehindAfter(cfg, actions, n - 1);
      }
    }
  }

  /** A home host can take the hub past both: it submits a read mark beyond what it has recorded. */
  lemma ForwardedReadCanPassDelivered(cfg: Config, u: User)
    requires cfg.Valid() && u in cfg.home && cfg.home[u] != cfg.hub
    ensures exists actions: seq<Action> :: !RowsSane(Run(cfg, actions)) && !NoneAhead(cfg, Run(cfg, actions))
  {
    var d := cfg.start[u].delivered;
    var m := Update(cfg.home[u], cfg.hub, u, Mark(d, d + 1));
    InitialHolds(cfg);
    RunOf(cfg, [], Forward(m));
    RunOf(cfg, [Forward(m)], Arrive(m));
    assert [] + [Forward(m)] == [Forward(m)];
    var s := Run(cfg, [Forward(m)] + [Arrive(m)]);
    assert s.marks[Copy(cfg.hub, u)] == Merge(cfg.start[u], m.mark);
    assert AtHome(cfg, s, u) == cfg.start[u];
  }

  lemma RunOf(cfg: Config, actions: seq<Action>, a: Action)
    requires cfg.Valid()
    ensures Run(cfg, actions + [a]) == Step(cfg, Run(cfg, actions), a)
  {
    assert (actions + [a])[..|actions|] == actions;
  }

  /** What the local handler makes sure of: read within delivered, and nothing the home has not recorded. */
  ghost predicate Honest(cfg: Config, s: World, a: Action)
    requires cfg.Valid() && Shaped(cfg, s)
  {
    a.Forward? && Enabled(cfg, s, a) && cfg.Accepts(a.update) ==> Truthful(cfg, s, a.update)
  }

  ghost predicate Truthful(cfg: Config, s: World, m: Update)
    requires cfg.Valid() && Shaped(cfg, s) && m.user in cfg.home
  {
    Sane(m.mark) && AtMost(m.mark, AtHome(cfg, s, m.user))
  }

  ghost predicate AllHonest(cfg: Config, actions: seq<Action>, n: nat)
    requires cfg.Valid() && n <= |actions|
  {
    forall i :: 0 <= i < n ==> Honest(cfg, Run(cfg, actions[..i]), actions[i])
  }

  ghost predicate AllTruthful(cfg: Config, s: World)
    requires cfg.Valid() && Shaped(cfg, s)
  {
    forall m :: m in s.sent && cfg.Accepts(m) ==> Truthful(cfg, s, m)
  }

  lemma StepKeepsTruthful(cfg: Config, s: World, a: Action)
    requires cfg.Valid() && Inv(cfg, s) && AllTruthful(cfg, s) && Honest(cfg, s, a)
    ensures AllTruthful(cfg, Step(cfg, s, a))
  {
    if a.Report? && Enabled(cfg, s, a) {
      assert MarkInv(cfg, s, Copy(cfg.home[a.user], a.user));
    }
  }

  lemma {:induction false} RunKeepsTruthful(cfg: Config, actions: seq<Action>, n: nat)
    requires cfg.Valid() && n <= |actions| && AllHonest(cfg, actions, n)
    ensures AllTruthful(cfg, Run(cfg, actions[..n]))
  {
    if n > 0 {
      RunKeepsTruthful(cfg, actions, n - 1);
      RunKeeps(cfg, actions[..n - 1]);
      StepKeepsTruthful(cfg, Run(cfg, actions[..n - 1]), actions[n - 1]);
      StepAt(cfg, actions, n - 1);
    }
  }

  lemma {:induction false} HonestUpdatesLand(cfg: Config, actions: seq<Action>, n: nat)
    requires cfg.Valid() && n <= |actions| && AllHonest(cfg, actions, n)
    ensures AllLandSanely(cfg, actions, n) && AllLandBehindHome(cfg, actions, n)
  {
    if n > 0 {
      HonestUpdatesLand(cfg, actions, n - 1);
      RunKeepsTruthful(cfg, actions, n - 1);
    }
  }

  /** If home hosts pass on only what the handler would, both hold: on every host and for every member. */
  lemma WatermarksAreSane(cfg: Config, actions: seq<Action>)
    requires cfg.Valid() && AllHonest(cfg, actions, |actions|)
    ensures RowsSane(Run(cfg, actions)) && NoneAhead(cfg, Run(cfg, actions))
  {
    HonestUpdatesLand(cfg, actions, |actions|);
    SaneThroughoutExactly(cfg, actions, |actions|);
    BehindThroughoutExactly(cfg, actions, |actions|);
    assert actions[..|actions|] == actions;
  }

  // ------------------------------------------------------------ when everything has arrived

  /** Neither the start, nor the home host, nor any update that is accepted goes beyond `bound`. */
  ghost predicate Within(cfg: Config, s: World, u: User, bound: Mark)
    requires cfg.Valid() && Shaped(cfg, s) && u in cfg.home
  {
    && AtMost(cfg.start[u], bound) && AtMost(AtHome(cfg, s, u), bound)
    && forall m :: m in s.sent && cfg.Accepts(m) && m.user == u ==> AtMost(m.mark, bound)
  }

  /** Then no host does. */
  lemma {:induction false} HostsStayWithin(cfg: Config, actions: seq<Action>, u: User, bound: Mark, h: Host)
    requires cfg.Valid() && cfg.HostOf(h) && u in cfg.home && Within(cfg, Run(cfg, actions), u, bound)
    ensures Copy(h, u) in Run(cfg, actions).marks && AtMost(Run(cfg, actions).marks[Copy(h, u)], bound)
  {
    if actions == [] {
      InitialHolds(cfg);
    } else {
      var n := |actions| - 1;
      var s, a := Run(cfg, actions[..n]), actions[n];
      assert actions[..n] + [a] == actions;
      WatermarksNeverFall(cfg, actions[..n], a, cfg.home[u], u);
      HostsStayWithin(cfg, actions[..n], u, bound, h);
    }
  }

  ghost predicate AllAgree(cfg: Config, s: World, u: User)
    requires cfg.Valid() && Shaped(cfg, s) && u in cfg.home
  {
    forall h :: cfg.HostOf(h) ==> s.marks[Copy(h, u)] == AtHome(cfg, s, u)
  }

  /**
   Once everything sent has arrived, in whatever order and however often, all hosts agree on a
   member's marks if and only if no accepted update about it goes beyond its home's.
   */
  lemma AllHostsAgreeExactly(cfg: Config, actions: seq<Action>, u: User)
    requires cfg.Valid() && u in cfg.home && Run(cfg, actions).sent == Run(cfg, actions).arrived
    ensures var s := Run(cfg, actions);
      AllAgree(cfg, s, u)
      <==> forall m :: m in s.sent && cfg.Accepts(m) && m.user == u ==> AtMost(m.mark, AtHome(cfg, s, u))
  {
    RunKeeps(cfg, actions);
    var s := Run(cfg, actions);
    var mark := AtHome(cfg, s, u);
    assert MarkInv(cfg, s, Copy(cfg.home[u], u));
    if AllAgree(cfg, s, u) {
      forall m | m in s.sent && cfg.Accepts(m) && m.user == u ensures AtMost(m.mark, mark) {
        assert UpdateInv(cfg, s, m) && s.marks[Copy(m.to, u)] == mark;
      }
    } else if forall m :: m in s.sent && cfg.Accepts(m) && m.user == u ==> AtMost(m.mark, mark) {
      assert Within(cfg, s, u, mark);
      forall h | cfg.HostOf(h) ensures s.marks[Copy(h, u)] == mark {
        HostsStayWithin(cfg, actions, u, mark, h);
        HomeHasReached(cfg, s, u, h);
      }
    }
  }

  /** By then the home host's mark has reached every host. */
  lemma HomeHasReached(cfg: Config, s: World, u: User, h: Host)
    requires cfg.Valid() && Inv(cfg, s) && u in cfg.home && cfg.HostOf(h) && s.sent == s.arrived
    ensures AtMost(AtHome(cfg, s, u), s.marks[Copy(h, u)])
  {
    var home, mark := cfg.home[u], AtHome(cfg, s, u);
    assert MarkInv(cfg, s, Copy(h, u));
    assert Announced(cfg, s, u);
    if h != home && mark != cfg.start[u] {
      if home != cfg.hub {
        assert UpdateInv(cfg, s, Update(home, cfg.hub, u, mark));
      }
      if h != cfg.hub {
        assert Update(cfg.hub, h, u, mark) in Relayed(cfg, home, u, mark);
        assert UpdateInv(cfg, s, Update(cfg.hub, h, u, mark));
      }
    }
  }

  /** So they do if home hosts pass on only what the handler would. */
  lemma AllHostsAgreeWhenAllHasArrived(cfg: Config, actions: seq<Action>, u: User)
    requires cfg.Valid() && u in cfg.home && AllHonest(cfg, actions, |actions|)
    requires Run(cfg, actions).sent == Run(cfg, actions).arrived
    ensures AllAgree(cfg, Run(cfg, actions), u)
  {
    RunKeepsTruthful(cfg, actions, |actions|);
    assert actions[..|actions|] == actions;
    AllHostsAgreeExactly(cfg, actions, u);
  }

  // ------------------------------------------------------------- single steps, and reports

  /**
   A report moves the home's copy: delivered to the highest of the old mark and both reported,
   read likewise.  An empty one does nothing.
   */
  lemma ReportIsRecorded(cfg: Config, s: World, u: User, delivered: int, read: int)
    requires cfg.Valid() && Shaped(cfg, s) && u in cfg.home
    ensures var t := Step(cfg, s, Report(u, delivered, read));
      if delivered <= 0 && read <= 0 then t == s else
        && Highest(AtHome(cfg, t, u).delivered, {AtHome(cfg, s, u).delivered, delivered, read})
        && Highest(AtHome(cfg, t, u).read, {AtHome(cfg, s, u).read, read})
        && (forall c :: c in t.marks && c != Copy(cfg.home[u], u) ==> t.marks[c] == s.marks[c])
  {
  }

  /**
   An arriving update moves one copy and is sent on by the hub, if it comes from the host that
   may send it: the member's home to the hub, the hub to a mirror.  Otherwise it does nothing.
   */
  lemma ArrivalIsHeededExactly(cfg: Config, s: World, m: Update)
    requires cfg.Valid() && Shaped(cfg, s) && m in s.sent
    ensures var t := Step(cfg, s, Arrive(m));
      var c := Copy(m.to, m.user);
      if (if m.to == cfg.hub then m.from == cfg.home[m.user] else m.from == cfg.hub) then
        && Highest(t.marks[c].delivered, {s.marks[c].delivered, m.mark.delivered})
        && Highest(t.marks[c].read, {s.marks[c].read, m.mark.read})
        && (forall x :: x in t.marks && x != c ==> t.marks[x] == s.marks[x])
        && forall n :: n in t.sent <==> n in s.sent || SentOn(cfg, m, n)
      else t.marks == s.marks && t.sent == s.sent
    ensures Step(cfg, s, Arrive(m)).arrived == s.arrived + {m}
  {
  }

  /** The hub's relay of the update to a mirror it did not come from. */
  ghost predicate SentOn(cfg: Config, m: Update, n: Update) {
    m.to == cfg.hub && n.from == cfg.hub && n.to in cfg.mirrors && n.to != m.from && n.user == m.user && n.mark == m.mark
  }

  lemma {:induction false} HomeKeepsWhatWasReported(cfg: Config, actions: seq<Action>, i: nat, u: User, delivered: int, read: int)
    requires cfg.Valid() && u in cfg.home && i < |actions| && actions[i] == Report(u, delivered, read)
    requires delivered > 0 || read > 0
    ensures var m := AtHome(cfg, Run(cfg, actions), u); delivered <= m.delivered && read <= m.delivered && read <= m.read
    decreases |actions|
  {
    var n := |actions| - 1;
    assert actions[..n] + [actions[n]] == actions;
    if i < n {
      HomeKeepsWhatWasReported(cfg, actions[..n], i, u, delivered, read);
      WatermarksNeverFall(cfg, actions[..n], actions[n], cfg.home[u], u);
    } else {
      ReportIsRecorded(cfg, Run(cfg, actions[..n]), u, delivered, read);
    }
  }

  /** A report reaches every host: once everything sent has arrived, none is behind it, whatever else was sent. */
  lemma ReportReachesEveryHost(cfg: Config, actions: seq<Action>, i: nat, h: Host)
    requires cfg.Valid() && cfg.HostOf(h) && i < |actions| && actions[i].Report? && actions[i].user in cfg.home
    requires actions[i].delivered > 0 || actions[i].read > 0
    requires Run(cfg, actions).sent == Run(cfg, actions).arrived
    ensures var m := Run(cfg, actions).marks[Copy(h, actions[i].user)];
      actions[i].delivered <= m.delivered && actions[i].read <= m.delivered && actions[i].read <= m.read
  {
    var a := actions[i];
    RunKeeps(cfg, actions);
    HomeKeepsWhatWasReported(cfg, actions, i, a.user, a.delivered, a.read);
    HomeHasReached(cfg, Run(cfg, actions), a.user, h);
  }

  // ------------------------------------------------------------- the store code

  datatype Row = Row(conversation: nat, user: User, mark: Mark)

  ghost predicate HasRow(rows: seq<Row>, conversation: nat, user: User) {
    exists i :: 0 <= i < |rows| && rows[i].conversation == conversation && rows[i].user == user
  }

  predicate Highest(x: int, s: set<int>) {
    x in s && forall y :: y in s ==> y <= x
  }

  class MemberTable {
    var rows: seq<Row>

    constructor (rows: seq<Row>)
      ensures this.rows == rows
    {
      this.rows := rows;
    }

    /** The first row of the member, if there is one. */
    ghost predicate IsRow(i: nat, conversation: nat, user: User)
      reads this
    {
      && i < |rows| && rows[i].conversation == conversation && rows[i].user == user
      && forall j :: 0 <= j < i ==> !(rows[j].conversation == conversation && rows[j].user == user)
    }

    /** Row `i` has moved forward to `mark`, and no other row has changed. */
    ghost predicate Moved(was: seq<Row>, i: nat, report: Mark, mark: Mark)
      reads this
    {
      && i < |was| && mark == Merge(was[i].mark, report)
      && rows == was[i := was[i].(mark := mark)]
    }

    /** Each of the row's marks is the higher of the old and the given one; nothing else changed. */
    ghost predicate Forward(was: seq<Row>, i: nat, delivered: int, read: int, mark: Mark)
      reads this
    {
      && i < |was| && rows == was[i := was[i].(mark := mark)]
      && Highest(mark.delivered, {was[i].mark.delivered, delivered}) && Highest(mark.read, {was[i].mark.read, read})
    }

    /** Row `i` now holds the highest mark among what it held and what was reported; nothing else changed. */
    ghost predicate Recorded(was: seq<Row>, i: nat, delivered: int, read: int, mark: Mark)
      reads this
    {
      && i < |was| && |rows| == |was| && (forall j :: 0 <= j < |was| && j != i ==> rows[j] == was[j])
      && rows[i].conversation == was[i].conversation && rows[i].user == was[i].user && rows[i].mark == mark
      && Highest(mark.delivered, {was[i].mark.delivered, delivered, read})
      && Highest(mark.read, {was[i].mark.read, read})
    }

    /** `SetConversationReceipt`: scan for the member's row and move it forward only. */
    method SetReceipt(conversation: nat, user: User, delivered: int, read: int) returns (found: bool, mark: Mark)
      modifies this
      ensures found <==> HasRow(old(rows), conversation, user)
      ensures !found ==> rows == old(rows)
      ensures found ==> exists i: nat :: old(IsRow(i, conversation, user)) && Moved(old(rows), i, Mark(delivered, read), mark)
      ensures found ==> exists i: nat :: old(IsRow(i, conversation, user)) && Forward(old(rows), i, delivered, read, mark)
    {
      for k := 0 to |rows|
        invariant rows == old(rows)
        invariant forall j :: 0 <= j < k ==> !(rows[j].conversation == conversation && rows[j].user == user)
      {
        var row := rows[k];
        if row.conversation != conversation || row.user != user {
          continue;
        }
        mark := row.mark;
        if delivered > mark.delivered {
          mark := mark.(delivered := delivered);
        }
        if read > mark.read {
          mark := mark.(read := read);
        }
        assert IsRow(k, conversation, user);
        rows := rows[k := row.(mark := mark)];
        assert Moved(old(rows), k, Mark(delivered, read), mark);
        assert Forward(old(rows), k, delivered, read, mark);
        return true, mark;
      }
      found, mark := false, Mark(0, 0);
    }

    /**
     `reportReceipt`: refuse an empty report; a read carries delivery up with it.  So what is
     recorded as delivered is the highest of the old mark and both reported ones.
     */
    method Report(conversation: nat, user: User, delivered: int, read: int) returns (found: bool, mark: Mark)
      modifies this
      ensures found <==> (delivered > 0 || read > 0) && HasRow(old(rows), conversation, user)
      ensures !found ==> rows == old(rows)
      ensures found ==> exists i: nat :: old(IsRow(i, conversation, user)) && Moved(old(rows), i, Reported(delivered, read), mark)
      ensures found ==> exists i: nat :: old(IsRow(i, conversation, user)) && Recorded(old(rows), i, delivered, read, mark)
    {
      if delivered <= 0 && read <= 0 {
        return false, Mark(0, 0);
      }
      var carried := delivered;
      if read > carried {
        carried := read;
      }
      found, mark := SetReceipt(conversation, user, carried, read);
      if found {
        ghost var i: nat :| old(IsRow(i, conversation, user)) && Moved(old(rows), i, Mark(carried, read), mark);
        assert Recorded(old(rows), i, delivered, read, mark);
      }
    }
  }
}
