/**
 Session revocation against token refresh, in one process with atomic steps.  Times are
 nanoseconds; a token's issue and expiry times are whole seconds, as JWT encodes them.
 */
module Sessions {

  type User = int
  /** Session 0 is the blank id of tokens issued before sessions were recorded. */
  type Session = int

  const SECOND := 1_000_000_000
  const BLANK: Session := 0

  datatype Token = Token(user: User, session: Session, refresh: bool, issuedAt: int, expiresAt: int)

  datatype Config = Config(accessTTL: nat, refreshTTL: nat)

  /** A password reset that has recorded its closing cutoff and may mint a session at it. */
  datatype Reset = Reset(user: User, cutoff: int)

  datatype Auth = Auth(
    tokens: set<Token>,
    started: set<Session>,        // sessions some login or reset has started
    revoked: map<Session, int>,   // session to the expiry of its revocation
    cutoff: map<User, int>,       // tokens of the user issued before this are refused
    resets: set<Reset>)

  /** Truncation to the whole second. */
  function WholeSecond(t: int): int {
    t - t % SECOND
  }

  /** The next whole second: also catches tokens issued earlier in the current one. */
  function NextCutoff(now: int): int {
    WholeSecond(now) + SECOND
  }

  function Issue(cfg: Config, user: User, session: Session, at: int): set<Token> {
    { Token(user, session, false, WholeSecond(at), WholeSecond(at + cfg.accessTTL)),
      Token(user, session, true, WholeSecond(at), WholeSecond(at + cfg.refreshTTL)) }
  }

  // --------------------------------------------------------------- authorisation

  predicate SessionRevoked(s: Auth, session: Session, now: int) {
    session != BLANK && session in s.revoked && now <= s.revoked[session]
  }

  predicate CutOff(s: Auth, t: Token) {
    t.user in s.cutoff && t.issuedAt < s.cutoff[t.user]
  }

  predicate Authorizes(s: Auth, t: Token, now: int) {
    now < t.expiresAt && !SessionRevoked(s, t.session, now) && !CutOff(s, t)
  }

  // --------------------------------------------------------------------- steps

  datatype Action =
    | Login(user: User, session: Session)
    | Refresh(token: Token)
    | EndSessions(user: User)
    | MintReset(user: User, session: Session, cutoff: int)
    | RevokeUser(user: User, cutoff: int)
    | Revoke(session: Session)
    | Prune(session: Session)

  datatype Event = Event(action: Action, now: int)

  function RaiseCutoff(s: Auth, user: User, cutoff: int): Auth {
    if user in s.cutoff && cutoff <= s.cutoff[user] then s else s.(cutoff := s.cutoff[user := cutoff])
  }

  predicate Enabled(s: Auth, e: Event) {
    match e.action
    case Login(_, session) => session != BLANK && session !in s.started
    case Refresh(t) => t in s.tokens && t.refresh && Authorizes(s, t, e.now)
    case EndSessions(_) => true
    case MintReset(user, session, cutoff) => session != BLANK && session !in s.started && Reset(user, cutoff) in s.resets
    case RevokeUser(_, cutoff) => cutoff <= NextCutoff(e.now)
    case Revoke(session) => session != BLANK
    case Prune(session) => session in s.revoked && e.now > s.revoked[session]
  }

  function Step(cfg: Config, s: Auth, e: Event): Auth {
    if !Enabled(s, e) then s
    else match e.action
      case Login(user, session) =>
        s.(tokens := s.tokens + Issue(cfg, user, session, e.now), started := s.started + {session})
      case Refresh(t) =>
        s.(tokens := s.tokens + Issue(cfg, t.user, t.session, e.now))
      case EndSessions(user) =>
        // The closing cutoff of the reset's bracket; the opening one is a RevokeUser step.
        RaiseCutoff(s, user, NextCutoff(e.now)).(resets := s.resets + {Reset(user, NextCutoff(e.now))})
      case MintReset(user, session, cutoff) =>
        // The new session, minted at that cutoff.
        s.(tokens := s.tokens + Issue(cfg, user, session, cutoff), started := s.started + {session})
      case RevokeUser(user, cutoff) => RaiseCutoff(s, user, cutoff)
      case Revoke(session) => s.(revoked := s.revoked[session := e.now + cfg.refreshTTL])
      case Prune(session) => s.(revoked := s.revoked - {session})
  }

  function Run(cfg: Config, s: Auth, events: seq<Event>): Auth {
    if events == [] then s
    else Step(cfg, Run(cfg, s, events[..|events| - 1]), events[|events| - 1])
  }

  /** Events in time order, none before `start`. */
  ghost predicate Clocked(events: seq<Event>, start: int) {
    && (forall i :: 0 <= i < |events| ==> start <= events[i].now)
    && (forall i, j :: 0 <= i < j < |events| ==> events[i].now <= events[j].now)
  }

  // ------------------------------------------------------------ what a step issues

  /** `x` is the whole second that `t` falls in. */
  predicate SecondOf(x: int, t: int) {
    x % SECOND == 0 && x <= t < x + SECOND
  }

  /** An access or a refresh token of the session, issued at `at`, living as long as its kind does. */
  ghost predicate IssuedAs(cfg: Config, t: Token, user: User, session: Session, at: int) {
    && t.user == user && t.session == session && SecondOf(t.issuedAt, at)
    && SecondOf(t.expiresAt, at + if t.refresh then cfg.refreshTTL else cfg.accessTTL)
  }

  lemma IssuesOneOfEach(cfg: Config, user: User, session: Session, at: int, t: Token)
    ensures t in Issue(cfg, user, session, at) <==> IssuedAs(cfg, t, user, session, at)
  {
    if IssuedAs(cfg, t, user, session, at) {
      SameSecond(t.issuedAt, at);
      SameSecond(t.expiresAt, at + if t.refresh then cfg.refreshTTL else cfg.accessTTL);
    }
  }

  lemma SameSecond(x: int, t: int)
    requires SecondOf(x, t)
    ensures x == WholeSecond(t)
  {
    assert x == x / SECOND * SECOND && t / SECOND == x / SECOND;
  }

  /** The session a login or reset starts has not been there before. */
  ghost predicate Starts(s: Auth, session: Session, t: Auth) {
    session != BLANK && session !in s.started && t.started == s.started + {session}
  }

  /** Which tokens a step issues: a login's now, under a new session; a reset's likewise, but at its cutoff. */
  lemma LoginIssues(cfg: Config, s: Auth, e: Event, t: Token)
    requires e.action.Login? && Enabled(s, e)
    ensures var u := Step(cfg, s, e);
      Starts(s, e.action.session, u)
      && (t in u.tokens <==> t in s.tokens || IssuedAs(cfg, t, e.action.user, e.action.session, e.now))
  {
    IssuesOneOfEach(cfg, e.action.user, e.action.session, e.now, t);
  }

  lemma ResetIssues(cfg: Config, s: Auth, e: Event, t: Token)
    requires e.action.MintReset? && Enabled(s, e)
    ensures var u := Step(cfg, s, e);
      Starts(s, e.action.session, u)
      && (t in u.tokens <==> t in s.tokens || IssuedAs(cfg, t, e.action.user, e.action.session, e.action.cutoff))
  {
    IssuesOneOfEach(cfg, e.action.user, e.action.session, e.action.cutoff, t);
  }

  /** This token can be traded for new ones now: a refresh token, unexpired, and not revoked by session or cutoff. */
  ghost predicate Refreshable(s: Auth, x: Token, now: int) {
    && x in s.tokens && x.refresh && now < x.expiresAt
    && (x.session == BLANK || x.session !in s.revoked || s.revoked[x.session] < now)
    && (x.user !in s.cutoff || s.cutoff[x.user] <= x.issuedAt)
  }

  /** A refresh issues tokens now for the same user and session, exactly if the token shown is refreshable. */
  lemma RefreshIssuesExactly(cfg: Config, s: Auth, x: Token, now: int, t: Token)
    ensures var u := Step(cfg, s, Event(Refresh(x), now));
      t in u.tokens <==> t in s.tokens || (Refreshable(s, x, now) && IssuedAs(cfg, t, x.user, x.session, now))
  {
    IssuesOneOfEach(cfg, x.user, x.session, now, t);
  }

  /** A cutoff up to the next whole second is recorded, unless a later one is; one further ahead is not. */
  lemma CutoffIsRecordedExactly(cfg: Config, s: Auth, user: User, cutoff: int, now: int)
    ensures var u := Step(cfg, s, Event(RevokeUser(user, cutoff), now));
      if cutoff <= NextCutoff(now) && (user !in s.cutoff || s.cutoff[user] < cutoff)
      then u == s.(cutoff := s.cutoff[user := cutoff]) else u == s
  {
  }

  // ------------------------------------------------------- cutoffs are for ever

  lemma {:induction false} CutoffsNeverFall(cfg: Config, s: Auth, events: seq<Event>, user: User)
    requires user in s.cutoff
    ensures user in Run(cfg, s, events).cutoff && s.cutoff[user] <= Run(cfg, s, events).cutoff[user]
  {
    if events != [] {
      CutoffsNeverFall(cfg, s, events[..|events| - 1], user);
    }
  }

  /** A token issued before a recorded cutoff never authorises again, nor can it be refreshed. */
  lemma CutOffForEver(cfg: Config, s: Auth, events: seq<Event>, t: Token, now: int)
    requires CutOff(s, t)
    ensures !Authorizes(Run(cfg, s, events), t, now)
    ensures !Enabled(Run(cfg, s, events), Event(Refresh(t), now))
  {
    CutoffsNeverFall(cfg, s, events, t.user);
  }

  /** Every token the user holds under this session is below the user's cutoff. */
  ghost predicate Dead(s: Auth, user: User, session: Session) {
    && (session == BLANK || session in s.started)
    && forall t :: t in s.tokens && t.user == user && t.session == session ==> CutOff(s, t)
  }

  lemma StepKeepsDead(cfg: Config, s: Auth, e: Event, user: User, session: Session)
    requires Dead(s, user, session)
    ensures Dead(Step(cfg, s, e), user, session)
  {
    var u := Step(cfg, s, e);
    forall t | t in u.tokens && t.user == user && t.session == session ensures CutOff(u, t) {
      if t in s.tokens {
        assert CutOff(s, t);
      }
    }
  }

  /** Once all tokens of a session are below the cutoff, no refresh or login ever revives it. */
  lemma {:induction false} DeadSessionsStayDead(cfg: Config, s: Auth, events: seq<Event>, user: User, session: Session)
    requires Dead(s, user, session)
    ensures Dead(Run(cfg, s, events), user, session)
    ensures forall t, now | t in Run(cfg, s, events).tokens && t.user == user && t.session == session ::
      !Authorizes(Run(cfg, s, events), t, now)
  {
    if events != [] {
      var n := |events| - 1;
      DeadSessionsStayDead(cfg, s, events[..n], user, session);
      StepKeepsDead(cfg, Run(cfg, s, events[..n]), events[n], user, session);
    }
  }

  // ----------------------------------------------------------- the reset's session

  /** No cutoff lies further ahead than the next whole second. */
  ghost predicate CutoffsDue(s: Auth, now: int) {
    forall u :: u in s.cutoff ==> s.cutoff[u] <= NextCutoff(now)
  }

  const EMPTY := Auth({}, {}, map[], map[], {})

  lemma NextCutoffGrows(a: int, b: int)
    requires a <= b
    ensures NextCutoff(a) <= NextCutoff(b)
  {
    assert WholeSecond(a) == a / SECOND * SECOND && WholeSecond(b) == b / SECOND * SECOND;
  }

  lemma {:induction false} RunKeepsCutoffsDue(cfg: Config, events: seq<Event>, start: int, now: int)
    requires Clocked(events, start) && forall i :: 0 <= i < |events| ==> events[i].now <= now
    ensures CutoffsDue(Run(cfg, EMPTY, events), now)
  {
    if events != [] {
      var n := |events| - 1;
      RunKeepsCutoffsDue(cfg, events[..n], start, events[n].now);
      NextCutoffGrows(events[n].now, now);
    }
  }

  /** A reset's cutoff is a whole second, and recorded or overtaken. */
  ghost predicate ResetsRecorded(s: Auth) {
    forall r :: r in s.resets ==> r.cutoff % SECOND == 0 && r.user in s.cutoff && r.cutoff <= s.cutoff[r.user]
  }

  lemma {:induction false} RunKeepsResets(cfg: Config, events: seq<Event>)
    ensures ResetsRecorded(Run(cfg, EMPTY, events))
  {
    if events != [] {
      var n := |events| - 1;
      RunKeepsResets(cfg, events[..n]);
      WholeIsWhole(events[n].now);
    }
  }

  /** The run's events are those before `e`, and then `e`. */
  lemma ClockedBefore(events: seq<Event>, e: Event, start: int)
    requires Clocked(events + [e], start)
    ensures Clocked(events, start) && forall i :: 0 <= i < |events| ==> events[i].now <= e.now
  {
    var all := events + [e];
    assert forall i :: 0 <= i < |events| ==> all[i] == events[i];
    assert all[|events|] == e;
  }

  /**
   A password reset ends every session the user had: no token of theirs older than its cutoff
   authorises, whatever happens between recording the cutoff and minting the new session.
   That session's tokens are issued at the cutoff and pass it exactly unless a later cutoff
   has been recorded by then; none has within the second of the reset.
   */
  lemma ResetEndsAllButItsOwnSession(cfg: Config, events: seq<Event>, start: int, mint: Event, t: Token, now: int)
    requires Clocked(events + [mint], start) && mint.action.MintReset?
    requires Enabled(Run(cfg, EMPTY, events), mint)
    requires var s := Step(cfg, Run(cfg, EMPTY, events), mint); t in s.tokens && t.user == mint.action.user
    ensures var s := Step(cfg, Run(cfg, EMPTY, events), mint);
      && t.user in s.cutoff
      && (t.session == mint.action.session ==>
          t.issuedAt == mint.action.cutoff && (CutOff(s, t) <==> mint.action.cutoff < s.cutoff[t.user]))
      && (t.issuedAt < mint.action.cutoff ==> !Authorizes(s, t, now))
      && (mint.action.cutoff == NextCutoff(mint.now) ==> s.cutoff[t.user] == mint.action.cutoff)
  {
    ClockedBefore(events, mint, start);
    RunKeepsCutoffsDue(cfg, events, start, mint.now);
    RunKeepsStarted(cfg, events);
    RunKeepsResets(cfg, events);
    var s := Run(cfg, EMPTY, events);
    assert Reset(mint.action.user, mint.action.cutoff) in s.resets;
    if t.session == mint.action.session {
      assert t in Issue(cfg, t.user, t.session, mint.action.cutoff);
    }
  }

  lemma WholeIsWhole(now: int)
    ensures WholeSecond(NextCutoff(now)) == NextCutoff(now)
  {
  }

  lemma {:induction false} RunKeepsStarted(cfg: Config, events: seq<Event>)
    ensures forall t :: t in Run(cfg, EMPTY, events).tokens ==>
      t.session in Run(cfg, EMPTY, events).started && t.session != BLANK
  {
    if events != [] {
      RunKeepsStarted(cfg, events[..|events| - 1]);
    }
  }

  /**
   Which logins a cutoff refuses: exactly those in a second before it.  So a login in the
   very second of a reset is refused too, although it came after the reset.
   */
  lemma LoginPassesCutoffExactly(cfg: Config, s: Auth, user: User, session: Session, now: int, t: Token)
    requires user in s.cutoff && s.cutoff[user] % SECOND == 0
    requires t in Issue(cfg, user, session, now)
    ensures CutOff(s, t) <==> now < s.cutoff[user]
  {
  }

  // ------------------------------------------------------------- session revocation

  /**
   Terminating a session: its tokens can authorise again exactly if one of them outlives
   the revocation entry, which is kept for one refresh lifetime from the termination.
   */
  lemma RevocationHoldsExactly(cfg: Config, s: Auth, session: Session, now: int, t: Token)
    requires session != BLANK && t.session == session && !CutOff(s, t)
    ensures var r := Step(cfg, s, Event(Revoke(session), now));
      (exists later :: now <= later && Authorizes(r, t, later)) <==> now + cfg.refreshTTL + 1 < t.expiresAt
  {
    var r := Step(cfg, s, Event(Revoke(session), now));
    if now + cfg.refreshTTL + 1 < t.expiresAt {
      assert Authorizes(r, t, now + cfg.refreshTTL + 1);
    }
  }

  /** Tokens issued by a login or a refresh never outlive it. */
  lemma OrdinaryTokensStayRevoked(cfg: Config, s: Auth, session: Session, issued: int, now: int, t: Token, later: int)
    requires session != BLANK && t.session == session && cfg.accessTTL <= cfg.refreshTTL
    requires issued <= now <= later && t in Issue(cfg, t.user, session, issued)
    ensures !Authorizes(Step(cfg, s, Event(Revoke(session), now)), t, later)
  {
  }

  /** The session has been terminated, and until `until` the entry says so; no token of it lives longer. */
  ghost predicate Terminated(s: Auth, session: Session, until: int, now: int) {
    && session != BLANK && session in s.started
    && (now <= until ==> session in s.revoked && s.revoked[session] >= until)
    && forall t :: t in s.tokens && t.session == session ==> t.expiresAt <= until + 1
  }

  lemma StepKeepsTerminated(cfg: Config, s: Auth, e: Event, session: Session, until: int)
    requires Terminated(s, session, until, e.now) && until <= e.now + cfg.refreshTTL
    ensures Terminated(Step(cfg, s, e), session, until, e.now)
  {
  }

  /**
   Terminating a session is for good if none of its tokens outlives the entry: whatever
   happens later, no token of the session authorises, and no new one is issued.
   */
  lemma {:induction false} TerminatedSessionsStayTerminated(
    cfg: Config, s: Auth, events: seq<Event>, session: Session, until: int, start: int, now: int)
    requires Terminated(s, session, until, start) && until <= start + cfg.refreshTTL
    requires Clocked(events, start) && start <= now && forall i :: 0 <= i < |events| ==> events[i].now <= now
    ensures Terminated(Run(cfg, s, events), session, until, now)
    ensures forall t :: t in Run(cfg, s, events).tokens && t.session == session ==>
      t in s.tokens && !Authorizes(Run(cfg, s, events), t, now)
  {
    if events != [] {
      var n := |events| - 1;
      TerminatedSessionsStayTerminated(cfg, s, events[..n], session, until, start, events[n].now);
      StepKeepsTerminated(cfg, Run(cfg, s, events[..n]), events[n], session, until);
    }
  }

  /** A termination is one exactly if every token of the session runs out with the entry. */
  lemma RevokeTerminatesExactly(cfg: Config, s: Auth, session: Session, now: int)
    requires session != BLANK && session in s.started
    ensures Terminated(Step(cfg, s, Event(Revoke(session), now)), session, now + cfg.refreshTTL, now)
       <==> forall t :: t in s.tokens && t.session == session ==> t.expiresAt <= now + cfg.refreshTTL + 1
  {
  }

  /** A session minted by a reset, ahead of the clock, can outlive its own termination. */
  lemma ResetSessionCanOutliveItsTermination()
    ensures exists cfg: Config, events: seq<Event>, t: Token, later: int ::
      && Clocked(events, 0) && |events| == 3 && events[2] == Event(Revoke(t.session), SECOND / 2)
      && t in Run(cfg, EMPTY, events).tokens && t.refresh
      && SECOND / 2 <= later && Authorizes(Run(cfg, EMPTY, events), t, later)
  {
    var cfg := Config(0, SECOND);
    var end, mint := Event(EndSessions(1), 0), Event(MintReset(1, 1, SECOND), 0);
    var revoke := Event(Revoke(1), SECOND / 2);
    var events := [end, mint, revoke];
    assert events[..2] == [end, mint] && [end, mint][..1] == [end] && [end][..0] == [];
    var t := Token(1, 1, true, SECOND, 2 * SECOND);
    var later := SECOND / 2 + SECOND + 1;
    var s1 := Step(cfg, EMPTY, end);
    assert s1 == Run(cfg, EMPTY, [end]) && Reset(1, SECOND) in s1.resets;
    var s2 := Step(cfg, s1, mint);
    assert s2 == Run(cfg, EMPTY, [end, mint]) && t in s2.tokens;
    assert Run(cfg, EMPTY, events) == Step(cfg, s2, revoke);
    assert Authorizes(Run(cfg, EMPTY, events), t, later);
  }

  // ------------------------------------------------------------------ the code

  class SessionRevoker {
    var revoked: map<Session, int>
    var userCutoff: map<User, int>

    ghost predicate Matches(s: Auth)
      reads this
    {
      revoked == s.revoked && userCutoff == s.cutoff
    }

    constructor ()
      ensures Matches(EMPTY)
    {
      revoked, userCutoff := map[], map[];
    }

    /** Never moves a cutoff backwards. */
    method RevokeUserBefore(user: User, cutoff: int, ghost s: Auth)
      requires Matches(s)
      modifies this
      ensures Matches(RaiseCutoff(s, user, cutoff))
      ensures userCutoff.Keys == old(userCutoff.Keys) + {user} && revoked == old(revoked)
      ensures userCutoff[user] ==
        if user in old(userCutoff) && old(userCutoff[user]) > cutoff then old(userCutoff[user]) else cutoff
      ensures forall u :: u in userCutoff && u != user ==> userCutoff[u] == old(userCutoff[u])
    {
      if user !in userCutoff || cutoff > userCutoff[user] {
        userCutoff := userCutoff[user := cutoff];
      }
    }

    /**
     Revoked means for good: no token with this issue time authorises now or in any
     continuation.  Not revoked leaves only expiry and the session to be looked at.
     */
    method IsUserRevoked(user: User, issuedAt: int, ghost s: Auth) returns (r: bool)
      requires Matches(s)
      ensures r ==> forall cfg, events, t: Token, now | t.user == user && t.issuedAt == issuedAt ::
        !Authorizes(Run(cfg, s, events), t, now)
      ensures !r ==> forall t: Token, now | t.user == user && t.issuedAt == issuedAt ::
        Authorizes(s, t, now) <==> now < t.expiresAt && !SessionRevoked(s, t.session, now)
    {
      r := user in userCutoff && issuedAt < userCutoff[user];
      if r {
        forall cfg, events, t: Token, now | t.user == user && t.issuedAt == issuedAt
          ensures !Authorizes(Run(cfg, s, events), t, now)
        {
          CutOffForEver(cfg, s, events, t, now);
        }
      }
    }

    method Revoke(session: Session, expiresAt: int)
      modifies this
      ensures userCutoff == old(userCutoff)
      ensures revoked == if session == BLANK then old(revoked) else old(revoked)[session := expiresAt]
    {
      if session == BLANK {
        return;
      }
      revoked := revoked[session := expiresAt];
    }

    /** A stale entry is dropped on lookup, which changes no answer from then on. */
    method IsRevoked(session: Session, now: int, ghost s: Auth) returns (r: bool)
      requires Matches(s)
      modifies this
      ensures r <==> SessionRevoked(s, session, now)
      ensures r <==> session != BLANK && session in old(revoked) && now <= old(revoked[session])
      ensures userCutoff == old(userCutoff)
      ensures forall x, later :: now <= later ==>
        (SessionRevoked(s, x, later) <==> SessionRevoked(s.(revoked := revoked), x, later))
    {
      if session == BLANK || session !in revoked {
        return false;
      }
      if now > revoked[session] {
        revoked := revoked - {session};
        return false;
      }
      r := true;
    }
  }

  /** `revokeUserSessions`: the next whole second as the cutoff. */
  method RevokeUserSessions(revoker: SessionRevoker, user: User, now: int, ghost s: Auth) returns (cutoff: int)
    requires revoker.Matches(s)
    modifies revoker
    ensures now < cutoff <= now + SECOND && cutoff % SECOND == 0
    ensures revoker.Matches(RaiseCutoff(s, user, cutoff))
  {
    cutoff := now - now % SECOND + SECOND;
    revoker.RevokeUserBefore(user, cutoff, s);
  }
}
