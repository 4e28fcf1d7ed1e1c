/** Login sessions: session_log rows, the token pairs issued for them, and the checks that
    accept a token. Tokens are their claim records (a signed JWT is determined by its claims,
    and the stored hash by the token); one clock, in microseconds, serves Python and the
    database; each service call is one transaction. */
module Sessions {
  import opened Wrappers

  datatype Token =
    | Access(user: int, dept: int, sid: nat, project: Option<int>, exp: int)
    | Refresh(user: int, sid: nat, project: Option<int>, exp: int)

  datatype Pair = Pair(access: Token, refresh: Token)

  datatype User = User(active: bool, locked: bool, dept: int)

  /** A session_log row: owner, stored token hashes and refresh_exprtn_dtm. */
  datatype Session = Session(user: int, stored: Pair, until: int)

  /** Configured terms below one are raised to one. */
  type Term = n: int | n >= 1 witness 1

  datatype Config = Config(accessMinutes: Term, refreshDays: Term)

  datatype State = State(config: Config, users: map<int, User>, sessions: map<nat, Session>, nextSid: nat)

  datatype Event =
    | Login(user: int)                                  // the one-time code was right
    | RefreshWith(token: Token, projectStillValid: bool)
    | RotateWithProject(user: int, sid: nat, project: int, allowed: bool)
    | RotateClear(user: int, sid: nat)
    | Logout(user: int, sid: nat)
    | InvalidateAll(user: int)                          // password change
    | Suspend(user: int)                                // deactivates and invalidates
    | SetUser(user: int, value: User)                   // activation, lock, department
    | RemoveUser(user: int)                             // deletes the account and its rows

  const SECOND := 1_000_000

  // ---------- issuing ----------

  /** The exp claim: expiry time cut to whole seconds. */
  function ExpClaim(now: int, minutes: Term): int {
    (now + minutes * 60 * SECOND) / SECOND
  }

  function Until(c: Config, now: int): int {
    now + c.refreshDays * 86400 * SECOND
  }

  function Issue(c: Config, user: int, dept: int, sid: nat, project: Option<int>, now: int): Pair {
    Pair(Access(user, dept, sid, project, ExpClaim(now, c.accessMinutes)),
         Refresh(user, sid, project, ExpClaim(now, c.refreshDays * 1440)))
  }

  predicate Usable(s: State, user: int) {
    user in s.users && s.users[user].active && !s.users[user].locked
  }

  /** The signature library rejects a token from the second of its exp claim on. */
  predicate Decodes(t: Token, now: int) {
    now < t.exp * SECOND
  }

  /** A row the refresh and rotate calls accept: owned by the user and not strictly past. */
  predicate OpenFor(s: State, sid: nat, user: int, now: int) {
    sid in s.sessions && s.sessions[sid].user == user && s.sessions[sid].until >= now
  }

  function Reissue(s: State, sid: nat, project: Option<int>, now: int): (State, Option<Pair>)
    requires sid in s.sessions && s.sessions[sid].user in s.users
  {
    var user := s.sessions[sid].user;
    var pair := Issue(s.config, user, s.users[user].dept, sid, project, now);
    (s.(sessions := s.sessions[sid := Session(user, pair, Until(s.config, now))]), Some(pair))
  }

  function CloseAll(sessions: map<nat, Session>, user: int, now: int): map<nat, Session> {
    map sid | sid in sessions ::
      if sessions[sid].user == user then sessions[sid].(until := now) else sessions[sid]
  }

  // ---------- one call ----------

  predicate CanRenew(s: State, e: Event, now: int) {
    match e
    case RefreshWith(t, _) =>
      && t.Refresh? && Decodes(t, now) && OpenFor(s, t.sid, t.user, now)
      && s.sessions[t.sid].stored.refresh == t && Usable(s, t.user)
    case RotateWithProject(u, sid, _, allowed) => OpenFor(s, sid, u, now) && allowed && Usable(s, u)
    case RotateClear(u, sid) => OpenFor(s, sid, u, now) && Usable(s, u)
    case _ => false
  }

  /** The project a renewing call puts into the new tokens. */
  function Requested(e: Event): Option<int> {
    match e
    case RefreshWith(t, projectStillValid) => if projectStillValid then t.project else None
    case RotateWithProject(_, _, project, _) => Some(project)
    case _ => None
  }

  /** The session a renewing call names. */
  predicate Targets(e: Event, sid: nat) {
    match e
    case RefreshWith(t, _) => t.sid == sid
    case RotateWithProject(_, named, _, _) => named == sid
    case RotateClear(_, named) => named == sid
    case _ => false
  }

  /** The new state and the pair handed out, if any; a call that raises changes nothing. */
  function Step(s: State, e: Event, now: int): (State, Option<Pair>) {
    match e
    case Login(u) =>
      if !Usable(s, u) then (s, None)
      else
        var pair := Issue(s.config, u, s.users[u].dept, s.nextSid, None, now);
        (s.(sessions := s.sessions[s.nextSid := Session(u, pair, Until(s.config, now))], nextSid := s.nextSid + 1), Some(pair))
    case RefreshWith(t, _) =>
      if CanRenew(s, e, now) then Reissue(s, t.sid, Requested(e), now) else (s, None)
    case RotateWithProject(_, sid, _, _) =>
      if CanRenew(s, e, now) then Reissue(s, sid, Requested(e), now) else (s, None)
    case RotateClear(_, sid) =>
      if CanRenew(s, e, now) then Reissue(s, sid, Requested(e), now) else (s, None)
    case Logout(u, sid) =>
      if sid in s.sessions && s.sessions[sid].user == u
      then (s.(sessions := s.sessions[sid := s.sessions[sid].(until := now)]), None)
      else (s, None)
    case InvalidateAll(u) => (s.(sessions := CloseAll(s.sessions, u, now)), None)
    case Suspend(u) =>
      if u !in s.users then (s, None)
      else (s.(users := s.users[u := s.users[u].(active := false)], sessions := CloseAll(s.sessions, u, now)), None)
    case SetUser(u, value) => (s.(users := s.users[u := value]), None)
    case RemoveUser(u) =>
      (s.(users := s.users - {u}, sessions := map sid | sid in s.sessions && s.sessions[sid].user != u :: s.sessions[sid]), None)
  }

  // ---------- acceptance ----------

  /** _assert_access_session_bound on a decoded access token. */
  predicate SessionBound(s: State, t: Token, now: int)
    requires t.Access?
  {
    t.sid in s.sessions && s.sessions[t.sid].user == t.user && s.sessions[t.sid].until >= now && s.sessions[t.sid].stored.access == t
  }

  /** require_active_access. */
  predicate AcceptsAccess(s: State, t: Token, now: int) {
    t.Access? && Decodes(t, now) && Usable(s, t.user) && SessionBound(s, t, now)
  }

  predicate AcceptsRefresh(s: State, t: Token, now: int) {
    CanRenew(s, RefreshWith(t, true), now)
  }

  predicate Accepts(s: State, t: Token, now: int) {
    AcceptsAccess(s, t, now) || AcceptsRefresh(s, t, now)
  }

  // ---------- runs ----------

  datatype Timed = Timed(event: Event, at: int)

  /** Calls happen at or after t and never go back in time. */
  predicate Clocked(es: seq<Timed>, t: int)
    decreases |es|
  {
    es == [] || (es[0].at >= t && Clocked(es[1..], es[0].at))
  }

  /** As Clocked, with no two calls at one instant. */
  predicate StrictlyClocked(es: seq<Timed>, t: int)
    decreases |es|
  {
    es == [] || (es[0].at > t && StrictlyClocked(es[1..], es[0].at))
  }

  function LastTime(es: seq<Timed>, t: int): int {
    if es == [] then t else es[|es| - 1].at
  }

  function Play(s: State, es: seq<Timed>): State
    decreases |es|
  {
    if es == [] then s else Play(Step(s, es[0].event, es[0].at).0, es[1..])
  }

  /** The last pair handed out for each session along a run. */
  function Handed(s: State, es: seq<Timed>, log: map<nat, Pair>): map<nat, Pair>
    decreases |es|
  {
    if es == [] then log
    else
      var (s', p) := Step(s, es[0].event, es[0].at);
      Handed(s', es[1..], if p.Some? then log[p.value.access.sid := p.value] else log)
  }

  ghost predicate Logged(s: State, log: map<nat, Pair>) {
    && (forall sid :: sid in s.sessions ==> sid < s.nextSid)
    && (forall sid :: sid in s.sessions ==>
          sid in log && s.sessions[sid].stored == log[sid] && log[sid].access.Access? && log[sid].access.sid == sid)
  }

  lemma StepLogs(s: State, log: map<nat, Pair>, e: Event, now: int)
    requires Logged(s, log)
    ensures var (s', p) := Step(s, e, now);
      && (p.Some? ==> p.value.access.Access?)
      && Logged(s', if p.Some? then log[p.value.access.sid := p.value] else log)
  {
  }

  /** Over every run, and at any later time, only the last pair handed out for a session can
      be accepted for it. */
  lemma {:induction false} OnlyTheLastPair(s: State, log: map<nat, Pair>, es: seq<Timed>, t: Token, now: int)
    requires Logged(s, log)
    requires Accepts(Play(s, es), t, now)
    ensures t.sid in Handed(s, es, log)
    ensures t == Handed(s, es, log)[t.sid].access || t == Handed(s, es, log)[t.sid].refresh
    decreases |es|
  {
    if es != [] {
      var (s', p) := Step(s, es[0].event, es[0].at);
      StepLogs(s, log, es[0].event, es[0].at);
      OnlyTheLastPair(s', if p.Some? then log[p.value.access.sid := p.value] else log, es[1..], t, now);
    }
  }

  lemma EmptySystemIsLogged(config: Config, users: map<int, User>)
    ensures Logged(State(config, users, map[], 0), map[])
  {
  }

  // ---------- the claims of a pair ----------

  /** Both tokens of a pair, claim by claim: whose they are, for which session and project, and
      from which second on they no longer decode. */
  predicate Carries(p: Pair, c: Config, user: int, dept: int, sid: nat, project: Option<int>, at: int) {
    && p.access.Access? && p.access.user == user && p.access.dept == dept && p.access.sid == sid
    && p.access.project == project && p.access.exp == at / SECOND + 60 * c.accessMinutes
    && p.refresh.Refresh? && p.refresh.user == user && p.refresh.sid == sid
    && p.refresh.project == project && p.refresh.exp == at / SECOND + 86400 * c.refreshDays
  }

  lemma IssueCarries(c: Config, user: int, dept: int, sid: nat, project: Option<int>, now: int)
    ensures Carries(Issue(c, user, dept, sid, project, now), c, user, dept, sid, project, now)
  {
    assert ExpClaim(now, c.accessMinutes) == now / SECOND + c.accessMinutes * 60;
    assert ExpClaim(now, c.refreshDays * 1440) == now / SECOND + c.refreshDays * 86400;
  }

  /** The choice a call that hands out a pair makes for its session: a rotation chooses its
      project, a refresh keeps the choice while the project is valid, all others choose none. */
  function Choice(e: Event, before: Option<int>): Option<int> {
    match e
    case RotateWithProject(_, _, project, _) => Some(project)
    case RefreshWith(_, projectStillValid) => if projectStillValid then before else None
    case _ => None
  }

  function ChosenBefore(chosen: map<nat, Option<int>>, sid: nat): Option<int> {
    if sid in chosen then chosen[sid] else None
  }

  /** The choice for each session along a run, by the calls that hand out a pair. */
  function ChosenNext(s: State, e: Event, at: int, chosen: map<nat, Option<int>>): map<nat, Option<int>> {
    var p := Step(s, e, at).1;
    if p.None? then chosen
    else
      var sid := p.value.access.sid;
      chosen[sid := Choice(e, ChosenBefore(chosen, sid))]
  }

  function Chosen(s: State, es: seq<Timed>, chosen: map<nat, Option<int>>): map<nat, Option<int>>
    decreases |es|
  {
    if es == [] then chosen
    else Chosen(Step(s, es[0].event, es[0].at).0, es[1..], ChosenNext(s, es[0].event, es[0].at, chosen))
  }

  /** The row of a session holds a pair, issued at `at`, whose tokens both carry the choice. */
  predicate RowCarries(s: State, sid: nat, project: Option<int>, dept: int, at: int)
    requires sid in s.sessions
  {
    var row := s.sessions[sid];
    Carries(row.stored, s.config, row.user, dept, sid, project, at)
  }

  ghost predicate Holds(s: State, sid: nat, project: Option<int>)
    requires sid in s.sessions
  {
    exists dept, at :: RowCarries(s, sid, project, dept, at)
  }

  ghost predicate AllHold(s: State, chosen: map<nat, Option<int>>) {
    forall sid :: sid in s.sessions ==> sid < s.nextSid && sid in chosen && Holds(s, sid, chosen[sid])
  }

  /** A call that hands out a pair: it belongs to the account's user, carries his department of
      now and the choice for the session, and is stored in a row open for the configured days. */
  lemma PairCarriesChoice(s: State, e: Event, now: int, before: Option<int>)
    requires Step(s, e, now).1.Some?
    requires forall sid :: sid in s.sessions ==> sid < s.nextSid
    requires e.RefreshWith? ==> Holds(s, e.token.sid, before)
    ensures var (s', p) := Step(s, e, now); var sid := p.value.access.sid;
      && (if e.Login? then sid == s.nextSid else Targets(e, sid) && sid in s.sessions)
      && sid in s'.sessions && s'.sessions[sid].stored == p.value && s'.sessions[sid].user in s.users
      && Carries(p.value, s.config, s'.sessions[sid].user, s.users[s'.sessions[sid].user].dept, sid, Choice(e, before), now)
      && s'.sessions[sid].until == now + 86400 * SECOND * s.config.refreshDays
  {
    if e.Login? {
      IssueCarries(s.config, e.user, s.users[e.user].dept, s.nextSid, None, now);
    } else {
      var sid := Step(s, e, now).1.value.access.sid;
      var user := s.sessions[sid].user;
      IssueCarries(s.config, user, s.users[user].dept, sid, Requested(e), now);
    }
  }

  /** Only an ending or an accepted renewal of a session changes its row. */
  lemma OtherRowsStay(s: State, e: Event, now: int, sid: nat)
    requires sid in s.sessions && sid < s.nextSid && !Ends(s, e, sid) && !Renews(s, e, sid, now)
    ensures sid in Step(s, e, now).0.sessions && Step(s, e, now).0.sessions[sid] == s.sessions[sid]
  {
  }

  lemma StepHolds(s: State, chosen: map<nat, Option<int>>, e: Event, now: int)
    requires AllHold(s, chosen)
    ensures AllHold(Step(s, e, now).0, ChosenNext(s, e, now, chosen))
  {
    var (s', p) := Step(s, e, now);
    var chosen' := ChosenNext(s, e, now, chosen);
    forall sid | sid in s'.sessions ensures sid < s'.nextSid && sid in chosen' && Holds(s', sid, chosen'[sid]) {
      if p.Some? && sid == p.value.access.sid {
        PairCarriesChoice(s, e, now, ChosenBefore(chosen, sid));
        assert RowCarries(s', sid, chosen'[sid], s.users[s'.sessions[sid].user].dept, now);
      } else {
        RowStays(s, e, now, sid);
        var dept, at :| RowCarries(s, sid, chosen[sid], dept, at);
        assert RowCarries(s', sid, chosen[sid], dept, at);
      }
    }
  }

  lemma RowStays(s: State, e: Event, now: int, sid: nat)
    requires forall n :: n in s.sessions ==> n < s.nextSid
    requires sid in Step(s, e, now).0.sessions
    requires var p := Step(s, e, now).1; p.None? || p.value.access.sid != sid
    ensures sid in s.sessions && sid < s.nextSid <= Step(s, e, now).0.nextSid && Step(s, e, now).0.config == s.config
    ensures Step(s, e, now).0.sessions[sid].stored == s.sessions[sid].stored && Step(s, e, now).0.sessions[sid].user == s.sessions[sid].user
  {
  }

  /** Over every run: each row holds the choice made for its session. */
  lemma {:induction false} RunHolds(s: State, chosen: map<nat, Option<int>>, es: seq<Timed>)
    requires AllHold(s, chosen)
    ensures AllHold(Play(s, es), Chosen(s, es, chosen))
    decreases |es|
  {
    if es != [] {
      StepHolds(s, chosen, es[0].event, es[0].at);
      RunHolds(Step(s, es[0].event, es[0].at).0, ChosenNext(s, es[0].event, es[0].at, chosen), es[1..]);
    }
  }

  /** Over every run, and at any later time, each token that is accepted, access or refresh,
      carries the choice made for its session. */
  lemma AcceptedCarriesChoice(s: State, chosen: map<nat, Option<int>>, es: seq<Timed>, t: Token, now: int)
    requires AllHold(s, chosen) && Accepts(Play(s, es), t, now)
    ensures t.sid in Chosen(s, es, chosen) && t.project == Chosen(s, es, chosen)[t.sid]
  {
    RunHolds(s, chosen, es);
    var s' := Play(s, es);
    var dept, at :| RowCarries(s', t.sid, Chosen(s, es, chosen)[t.sid], dept, at);
  }

  lemma EmptySystemHolds(config: Config, users: map<int, User>)
    ensures AllHold(State(config, users, map[], 0), map[])
  {
  }

  /** A call that leaves the choice of the session as it is: one that does not name it, a refresh
      whose project is still valid, and where there is none any call but a rotation to a project. */
  predicate Leaves(e: Event, sid: nat, project: Option<int>) {
    !Targets(e, sid) || (e.RefreshWith? && e.projectStillValid) || (project.None? && !e.RotateWithProject?)
  }

  lemma {:induction false} ChoiceStays(s: State, chosen: map<nat, Option<int>>, es: seq<Timed>, sid: nat)
    requires AllHold(s, chosen) && sid < s.nextSid && sid in chosen
    requires forall i :: 0 <= i < |es| ==> Leaves(es[i].event, sid, chosen[sid])
    ensures sid in Chosen(s, es, chosen) && Chosen(s, es, chosen)[sid] == chosen[sid]
    decreases |es|
  {
    if es != [] {
      var e, at := es[0].event, es[0].at;
      NextChoiceStays(s, chosen, e, at, sid);
      StepHolds(s, chosen, e, at);
      assert forall i :: 0 <= i < |es[1..]| ==> es[1..][i] == es[i + 1];
      ChoiceStays(Step(s, e, at).0, ChosenNext(s, e, at, chosen), es[1..], sid);
    }
  }

  lemma NextChoiceStays(s: State, chosen: map<nat, Option<int>>, e: Event, at: int, sid: nat)
    requires sid < s.nextSid && sid in chosen && Leaves(e, sid, chosen[sid])
    ensures var chosen' := ChosenNext(s, e, at, chosen); sid in chosen' && chosen'[sid] == chosen[sid]
    ensures s.nextSid <= Step(s, e, at).0.nextSid
  {
  }

  /** After a call that hands out a pair, as long as only refreshes with a still valid project
      name its session, each token accepted for it carries what the call has chosen: the project
      after a rotation, none after a login, a clear or a refresh whose project is gone. */
  lemma ChoiceSticks(s: State, chosen: map<nat, Option<int>>, e: Event, at: int, es: seq<Timed>, t: Token, now: int)
    requires AllHold(s, chosen) && Step(s, e, at).1.Some? && t.sid == Step(s, e, at).1.value.access.sid
    requires forall i :: 0 <= i < |es| ==> Leaves(es[i].event, t.sid, Choice(e, ChosenBefore(chosen, t.sid)))
    requires Accepts(Play(Step(s, e, at).0, es), t, now)
    ensures e.RotateWithProject? ==> t.project == Some(e.project)
    ensures e.RefreshWith? ==> t.project == if e.projectStillValid then e.token.project else None
    ensures e.Login? || e.RotateClear? ==> t.project == None
  {
    var chosen' := ChosenNext(s, e, at, chosen);
    StepHolds(s, chosen, e, at);
    PairSid(s, e, at);
    ChoiceStays(Step(s, e, at).0, chosen', es, t.sid);
    AcceptedCarriesChoice(Step(s, e, at).0, chosen', es, t, now);
    if e.RefreshWith? {
      AcceptedCarriesChoice(s, chosen, [], e.token, at);
    }
  }

  lemma PairSid(s: State, e: Event, at: int)
    requires Step(s, e, at).1.Some? && forall sid :: sid in s.sessions ==> sid < s.nextSid
    ensures Step(s, e, at).1.value.access.sid < Step(s, e, at).0.nextSid
    ensures e.RefreshWith? ==> Step(s, e, at).1.value.access.sid == e.token.sid && AcceptsRefresh(s, e.token, at)
  {
  }

  /** How long the tokens of a row are accepted when nothing else happens: to the second of their
      claim, and the access token no longer than the row is open. */
  lemma AcceptedUntilExactly(s: State, sid: nat, project: Option<int>, dept: int, at: int, later: int)
    requires sid in s.sessions && RowCarries(s, sid, project, dept, at)
    ensures var row := s.sessions[sid]; var usable := row.user in s.users && s.users[row.user].active && !s.users[row.user].locked;
      && (AcceptsAccess(s, row.stored.access, later) <==>
            usable && later / SECOND < at / SECOND + 60 * s.config.accessMinutes && later <= row.until)
      && (AcceptsRefresh(s, row.stored.refresh, later) <==>
            usable && later / SECOND < at / SECOND + 86400 * s.config.refreshDays && later <= row.until)
  {
    SecondsExactly(later, at / SECOND + 60 * s.config.accessMinutes);
    SecondsExactly(later, at / SECOND + 86400 * s.config.refreshDays);
  }

  lemma SecondsExactly(later: int, exp: int)
    ensures later < exp * SECOND <==> later / SECOND < exp
  {
  }

  // ---------- the end of a session ----------

  /** Nothing issued for sid is accepted at any time after t. */
  ghost predicate DeadAfter(s: State, sid: nat, t: int) {
    forall tok: Token, now: int :: tok.sid == sid && now > t ==> !Accepts(s, tok, now)
  }

  /** The row is gone for good or not open after t. */
  predicate ClosedAt(s: State, sid: nat, t: int) {
    sid < s.nextSid && (sid in s.sessions ==> s.sessions[sid].until <= t)
  }

  lemma ClosedIsDead(s: State, sid: nat, t: int)
    requires ClosedAt(s, sid, t)
    ensures DeadAfter(s, sid, t)
  {
  }

  /** Logout, a password change, a suspension and the removal of the owner end the session. */
  predicate Ends(s: State, e: Event, sid: nat)
    requires sid in s.sessions
  {
    var u := s.sessions[sid].user;
    e == Logout(u, sid) || e == InvalidateAll(u) || (e == Suspend(u) && u in s.users) || e == RemoveUser(u)
  }

  lemma EndingsClose(s: State, e: Event, now: int, sid: nat)
    requires sid in s.sessions && sid < s.nextSid && Ends(s, e, sid)
    ensures ClosedAt(Step(s, e, now).0, sid, now)
    ensures var s' := Step(s, e, now).0;
      if e.RemoveUser? then sid !in s'.sessions
      else sid in s'.sessions && s'.sessions[sid] == Session(s.sessions[sid].user, s.sessions[sid].stored, now)
  {
  }

  predicate Renews(s: State, e: Event, sid: nat, now: int) {
    CanRenew(s, e, now) && Targets(e, sid)
  }

  lemma ClosedStepExactly(s: State, sid: nat, t: int, e: Event, now: int)
    requires ClosedAt(s, sid, t) && now >= t
    ensures ClosedAt(Step(s, e, now).0, sid, now) <==> !Renews(s, e, sid, now)
    ensures Renews(s, e, sid, now) ==> now == t
  {
  }

  /** The refresh token of a renewal works after the instant of the renewal. */
  lemma RenewedIsAlive(s: State, sid: nat, e: Event, now: int)
    requires Renews(s, e, sid, now)
    ensures !DeadAfter(Step(s, e, now).0, sid, now)
  {
    var s' := Step(s, e, now).0;
    var tok := s'.sessions[sid].stored.refresh;
    assert tok.sid == sid && now + 1 < tok.exp * SECOND;
    assert Accepts(s', tok, now + 1);
  }

  /** The tokens of the session are dead after each call of the run. */
  ghost predicate DeadAlong(s: State, sid: nat, es: seq<Timed>)
    decreases |es|
  {
    es == [] || (var s' := Step(s, es[0].event, es[0].at).0; DeadAfter(s', sid, es[0].at) && DeadAlong(s', sid, es[1..]))
  }

  /** No call of the run names the session and finds its guard met. */
  predicate NeverRenewed(s: State, sid: nat, es: seq<Timed>)
    decreases |es|
  {
    es == [] || (!Renews(s, es[0].event, sid, es[0].at) && NeverRenewed(Step(s, es[0].event, es[0].at).0, sid, es[1..]))
  }

  lemma {:induction false} ClosedRunExactly(s: State, sid: nat, t: int, es: seq<Timed>)
    requires ClosedAt(s, sid, t) && Clocked(es, t)
    ensures DeadAlong(s, sid, es) <==> NeverRenewed(s, sid, es)
    ensures NeverRenewed(s, sid, es) ==> DeadAfter(Play(s, es), sid, LastTime(es, t))
    decreases |es|
  {
    if es == [] {
      ClosedIsDead(s, sid, t);
    } else {
      var e, now := es[0].event, es[0].at;
      ClosedStepExactly(s, sid, t, e, now);
      if Renews(s, e, sid, now) {
        RenewedIsAlive(s, sid, e, now);
      } else {
        ClosedIsDead(Step(s, e, now).0, sid, now);
        ClosedRunExactly(Step(s, e, now).0, sid, now, es[1..]);
        assert LastTime(es, t) == LastTime(es[1..], now);
      }
    }
  }

  /** An ended session stays dead through a run exactly when no call of the run names it while
      the guard of that call is met, whatever else happens, reactivation included. */
  lemma EndedExactly(s: State, sid: nat, ending: Event, t: int, es: seq<Timed>)
    requires sid in s.sessions && sid < s.nextSid && Ends(s, ending, sid) && Clocked(es, t)
    ensures var s' := Step(s, ending, t).0;
      && (DeadAlong(s', sid, es) <==> NeverRenewed(s', sid, es))
      && (NeverRenewed(s', sid, es) ==> DeadAfter(Play(s', es), sid, LastTime(es, t)))
  {
    EndingsClose(s, ending, t, sid);
    ClosedRunExactly(Step(s, ending, t).0, sid, t, es);
  }

  lemma {:induction false} LateNeverRenews(s: State, sid: nat, t: int, es: seq<Timed>)
    requires ClosedAt(s, sid, t) && StrictlyClocked(es, t)
    ensures NeverRenewed(s, sid, es) && Clocked(es, t)
    decreases |es|
  {
    if es != [] {
      ClosedStepExactly(s, sid, t, es[0].event, es[0].at);
      LateNeverRenews(Step(s, es[0].event, es[0].at).0, sid, es[0].at, es[1..]);
    }
  }

  /** With calls at distinct instants an ended session never comes back: no token of it is
      accepted at any time after the run, whatever the run did. */
  lemma EndedForEver(s: State, sid: nat, ending: Event, t: int, es: seq<Timed>)
    requires sid in s.sessions && sid < s.nextSid && Ends(s, ending, sid) && StrictlyClocked(es, t)
    ensures DeadAfter(Play(Step(s, ending, t).0, es), sid, LastTime(es, t))
  {
    EndingsClose(s, ending, t, sid);
    LateNeverRenews(Step(s, ending, t).0, sid, t, es);
    EndedExactly(s, sid, ending, t, es);
  }

  /** The expiry test is strict, so a call at the very instant of the ending can bring the
      session back for its full term: exactly when the account was left as it is and the call
      would be accepted of the row as it was, had it expired at this instant. That lifts the
      expiry of a row closed long before; after a suspension or a removal nothing works. */
  lemma SameInstantExactly(s: State, sid: nat, ending: Event, e: Event, now: int)
    requires sid in s.sessions && sid < s.nextSid && Ends(s, ending, sid)
    ensures DeadAfter(Step(Step(s, ending, now).0, e, now).0, sid, now) <==>
      !(&& (ending.Logout? || ending.InvalidateAll?)
        && Renews(s.(sessions := s.sessions[sid := s.sessions[sid].(until := now)]), e, sid, now))
  {
    var s' := Step(s, ending, now).0;
    EndingsClose(s, ending, now, sid);
    ClosedRunExactly(s', sid, now, [Timed(e, now)]);
    assert DeadAlong(Step(s', e, now).0, sid, []) && NeverRenewed(Step(s', e, now).0, sid, []);
    assert [Timed(e, now)][1..] == [];
    assert DeadAlong(s', sid, [Timed(e, now)]) <==> DeadAfter(Step(s', e, now).0, sid, now);
  }

  lemma SameInstantExists()
    ensures exists s: State, sid: nat, now: int, tok: Token ::
      && sid in s.sessions && s.sessions[sid].until < now
      && Accepts(Step(s, Logout(s.sessions[sid].user, sid), now).0, tok, now)
      && !Accepts(s, tok, now)
  {
    var refresh := Refresh(1, 0, None, 100);
    var s := State(Config(30, 7), map[1 := User(true, false, 5)], map[0 := Session(1, Pair(Access(1, 5, 0, None, 0), refresh), 10)], 1);
    assert !Accepts(s, refresh, 20);
    assert Accepts(Step(s, Logout(1, 0), 20).0, refresh, 20);
  }

  // ---------- rotation ----------

  /** Two tokens issued at a and b carry the same exp claim exactly when a and b fall into the
      same second. */
  lemma SameExpExactly(a: int, b: int, minutes: Term)
    ensures ExpClaim(a, minutes) == ExpClaim(b, minutes) <==> a / SECOND == b / SECOND
  {
    assert ExpClaim(a, minutes) == a / SECOND + minutes * 60;
    assert ExpClaim(b, minutes) == b / SECOND + minutes * 60;
  }

  /** The stored pair is the one issued at instant a for this department and project. */
  predicate IssuedAt(s: State, sid: nat, dept: int, project: Option<int>, a: int)
    requires sid in s.sessions
  {
    s.sessions[sid].stored == Issue(s.config, s.sessions[sid].user, dept, sid, project, a)
  }

  ghost predicate AllIssued(s: State) {
    forall sid :: sid in s.sessions ==> exists dept, project, a :: IssuedAt(s, sid, dept, project, a)
  }

  lemma StepIssues(s: State, e: Event, now: int)
    requires AllIssued(s)
    ensures AllIssued(Step(s, e, now).0)
  {
    var s' := Step(s, e, now).0;
    forall sid | sid in s'.sessions ensures exists dept, project, a :: IssuedAt(s', sid, dept, project, a) {
      if sid in s.sessions && s'.sessions[sid].stored == s.sessions[sid].stored {
        var dept, project, a :| IssuedAt(s, sid, dept, project, a);
        assert IssuedAt(s', sid, dept, project, a);
      } else if e.Login? {
        assert IssuedAt(s', sid, s.users[e.user].dept, None, now);
      } else {
        assert IssuedAt(s', sid, s.users[s.sessions[sid].user].dept, Requested(e), now);
      }
    }
  }

  /** In every reachable state each stored pair was issued at some instant. */
  lemma {:induction false} AllIssuedAlways(s: State, es: seq<Timed>)
    requires AllIssued(s)
    ensures AllIssued(Play(s, es))
    decreases |es|
  {
    if es != [] {
      StepIssues(s, es[0].event, es[0].at);
      AllIssuedAlways(Step(s, es[0].event, es[0].at).0, es[1..]);
    }
  }

  /** After a renewal the access token it replaces, issued at a, is still accepted while it
      decodes exactly when the owner is still in the department it was issued for, the call asks
      for the same project, and a lies in the second of the renewal: a token has no serial
      number. */
  lemma OldAccessSurvivesExactly(s: State, e: Event, sid: nat, dept: int, project: Option<int>, a: int, at: int, later: int)
    requires Renews(s, e, sid, at) && IssuedAt(s, sid, dept, project, a)
    ensures var earlier := s.sessions[sid].stored.access;
      AcceptsAccess(Step(s, e, at).0, earlier, later) <==>
        && Decodes(earlier, later) && later <= Until(s.config, at)
        && dept == s.users[s.sessions[sid].user].dept && project == Requested(e) && a / SECOND == at / SECOND
  {
    SameExpExactly(a, at, s.config.accessMinutes);
  }

  // ---------- the service ----------

  class AuthService {
    const config: Config
    var users: map<int, User>
    var sessions: map<nat, Session>
    var nextSid: nat

    constructor (c: Config)
      ensures Now() == State(c, map[], map[], 0)
    {
      config := c;
      users, sessions, nextSid := map[], map[], 0;
    }

    function Now(): State
      reads this
    {
      State(config, users, sessions, nextSid)
    }

    /** The department of a usable account. */
    method FetchDptmtIdOrRaise(user: int) returns (r: Result<int>)
      ensures r.Ok? <==> Usable(Now(), user)
      ensures r.Ok? ==> r.value == users[user].dept
    {
      if user !in users { return Err("no such user"); }
      if !users[user].active { return Err("inactive account"); }
      if users[user].locked { return Err("locked account"); }
      r := Ok(users[user].dept);
    }

    method VerifyLoginComplete(user: int, now: int) returns (r: Result<Pair>)
      modifies this
      ensures var (s', p) := Step(old(Now()), Login(user), now);
        Now() == s' && (if p.Some? then r == Ok(p.value) else r.Err?)
      ensures r.Ok? ==> user in users && Carries(r.value, config, user, users[user].dept, old(nextSid), None, now)
    {
      var dept := FetchDptmtIdOrRaise(user);
      if dept.Err? { return Err(dept.message); }
      var sid := nextSid;
      nextSid := nextSid + 1;
      var pair := Issue(config, user, dept.value, sid, None, now);
      IssueCarries(config, user, dept.value, sid, None, now);
      sessions := sessions[sid := Session(user, pair, Until(config, now))];
      r := Ok(pair);
    }

    /** The part the three renewing calls share: look the row up, then check owner and expiry. */
    method OpenSession(sid: nat, user: int, now: int) returns (r: Result<Session>)
      ensures r.Ok? <==> OpenFor(Now(), sid, user, now)
      ensures r.Ok? ==> r.value == sessions[sid]
    {
      if sid !in sessions || sessions[sid].user != user { return Err("session not found"); }
      if sessions[sid].until < now { return Err("session expired"); }
      r := Ok(sessions[sid]);
    }

    method StoreNewPair(sid: nat, user: int, dept: int, project: Option<int>, now: int) returns (pair: Pair)
      modifies this`sessions
      ensures pair == Issue(config, user, dept, sid, project, now)
      ensures Carries(pair, config, user, dept, sid, project, now)
      ensures sessions == old(sessions)[sid := Session(user, pair, Until(config, now))]
    {
      pair := Issue(config, user, dept, sid, project, now);
      IssueCarries(config, user, dept, sid, project, now);
      sessions := sessions[sid := Session(user, pair, Until(config, now))];
    }

    method RefreshSessionTokens(token: Token, projectStillValid: bool, now: int) returns (r: Result<Pair>)
      modifies this`sessions
      ensures var (s', p) := Step(old(Now()), RefreshWith(token, projectStillValid), now);
        Now() == s' && (if p.Some? then r == Ok(p.value) else r.Err?)
      ensures r.Ok? ==> token.user in users
      ensures var project := if projectStillValid then token.project else None;
        r.Ok? ==> Carries(r.value, config, token.user, users[token.user].dept, token.sid, project, now)
    {
      if !token.Refresh? || !Decodes(token, now) { return Err("invalid refresh token"); }
      var project := if projectStillValid then token.project else None;
      var row := OpenSession(token.sid, token.user, now);
      if row.Err? { return Err(row.message); }
      if row.value.stored.refresh != token { return Err("session invalidated"); }
      var dept := FetchDptmtIdOrRaise(token.user);
      if dept.Err? { return Err(dept.message); }
      var pair := StoreNewPair(token.sid, token.user, dept.value, project, now);
      r := Ok(pair);
    }

    method RotateSessionTokensWithProject(user: int, sid: nat, project: int, allowed: bool, now: int) returns (r: Result<Pair>)
      modifies this`sessions
      ensures var (s', p) := Step(old(Now()), RotateWithProject(user, sid, project, allowed), now);
        Now() == s' && (if p.Some? then r == Ok(p.value) else r.Err?)
      ensures r.Ok? ==> user in users && Carries(r.value, config, user, users[user].dept, sid, Some(project), now)
    {
      var row := OpenSession(sid, user, now);
      if row.Err? { return Err(row.message); }
      if !allowed { return Err("not a participant, or project inactive"); }
      var dept := FetchDptmtIdOrRaise(user);
      if dept.Err? { return Err(dept.message); }
      var pair := StoreNewPair(sid, user, dept.value, Some(project), now);
      r := Ok(pair);
    }

    method RotateSessionTokensClearProject(user: int, sid: nat, now: int) returns (r: Result<Pair>)
      modifies this`sessions
      ensures var (s', p) := Step(old(Now()), RotateClear(user, sid), now);
        Now() == s' && (if p.Some? then r == Ok(p.value) else r.Err?)
      ensures r.Ok? ==> user in users && Carries(r.value, config, user, users[user].dept, sid, None, now)
    {
      var row := OpenSession(sid, user, now);
      if row.Err? { return Err(row.message); }
      var dept := FetchDptmtIdOrRaise(user);
      if dept.Err? { return Err(dept.message); }
      var pair := StoreNewPair(sid, user, dept.value, None, now);
      r := Ok(pair);
    }

    method LogoutOneSession(user: int, sid: nat, now: int)
      modifies this`sessions
      ensures Now() == Step(old(Now()), Logout(user, sid), now).0
    {
      if sid in sessions && sessions[sid].user == user {
        sessions := sessions[sid := sessions[sid].(until := now)];
      }
    }

    method InvalidateAllSessions(user: int, now: int)
      modifies this`sessions
      ensures Now() == Step(old(Now()), InvalidateAll(user), now).0
    {
      sessions := CloseAll(sessions, user, now);
    }

    /** require_active_access on a decoded token. */
    method RequireActiveAccess(token: Token, now: int) returns (r: Result<Token>)
      ensures r.Ok? <==> AcceptsAccess(Now(), token, now)
      ensures r.Ok? ==> r.value == token
    {
      if !token.Access? || !Decodes(token, now) { return Err("invalid token"); }
      var dept := FetchDptmtIdOrRaise(token.user);
      if dept.Err? { return Err(dept.message); }
      var row := OpenSession(token.sid, token.user, now);
      if row.Err? { return Err(row.message); }
      if row.value.stored.access != token { return Err("session invalidated"); }
      r := Ok(token);
    }
  }
}
