/** The account calls seen from what they touch: who may do what, read by target and by role; what
    any call does to one account, one code, one participation, one resource; and what the results
    on inactive owners say about each kind of resource. */
module AccountEffects {
  import opened Wrappers
  import opened OrgTree
  import opened EtlRegistry
  import opened Accounts

  // ---------- rights ----------

  /** Who may suspend, activate or delete an account, by the role of that account. */
  function Handlers(target: Role): set<Role> {
    match target
    case U => {A, Sa, SaDev}
    case O => {A, Sa, SaDev}
    case A => {Sa, SaDev}
    case Unknown => {SaDev}
    case _ => {}
  }

  lemma HandledBy(actor: Role, target: Role)
    ensures MayHandle(actor, target) <==> actor in Handlers(target)
  {
  }

  /** What a user may own after a change, by role. */
  function Ownable(role: Role, etl: bool): set<Kind> {
    (if etl || role == SaDev then {EtlItem} else {}) +
    (match role
     case SaDev => {Project, CustomRole, Dept, TableMaster, WidgetBoard}
     case Sa => {Project, CustomRole, Dept, TableMaster, WidgetBoard}
     case A => {Project, CustomRole, TableMaster, WidgetBoard}
     case Unknown => {}
     case _ => {TableMaster, WidgetBoard})
  }

  /** What a user may be handed: a table by anybody, a widget board only as a project creator. */
  function Receivable(role: Role, etl: bool): set<Kind> {
    {TableMaster} + Ownable(role, etl) - (if role == SaDev || role == Sa || role == A then {} else {WidgetBoard})
  }

  lemma RightsByRole(kind: Kind, u: User)
    ensures CanOwn(kind, u.role, u.etl) <==> kind in Ownable(u.role, u.etl)
    ensures MayReceive(kind, u) <==> kind in Receivable(u.role, u.etl)
  {
  }

  /** Nobody handles an account of an equal or a higher role, and every handler of a role handles
      each role below it that he handles at all. */
  lemma HandlersAreAbove(actor: Role, target: Role)
    ensures MayHandle(actor, target) ==> !MayHandle(target, actor) && actor != target
    ensures !MayHandle(actor, Sa) && !MayHandle(actor, SaDev)
    ensures MayHandle(actor, A) ==> MayHandle(actor, O) && MayHandle(actor, U)
  {
  }

  // ---------- which calls go through ----------

  ghost predicate Handles(s: State, actor: int, user: int, inScope: bool) {
    inScope && actor in s.users && user in s.users && s.users[actor].role in Handlers(s.users[user].role)
  }

  /** Nothing the guard sees is registered for the user, and nobody else was invited by him. */
  ghost predicate EmptyHanded(s: State, user: int, scanFails: bool) {
    && (forall r :: Owned(s, r, user) ==>
          || r.kind == SystemRole || r == Resource(Dept, 0) || (r.kind == EtlItem && scanFails))
    && (forall row :: row in s.participants && s.participants[row].inviter == user ==> s.participants[row].user == user)
  }

  lemma EmptyHandedExactly(s: State, user: int, scanFails: bool)
    ensures Changeable(s, user, U, false, true, scanFails) <==> EmptyHanded(s, user, scanFails)
  {
    ChangeableExactly(s, user, U, false, true, scanFails);
    if Changeable(s, user, U, false, true, scanFails) {
      forall r | Owned(s, r, user)
        ensures r.kind == SystemRole || r == Resource(Dept, 0) || (r.kind == EtlItem && scanFails)
      {
        assert Stays(s, r, user, U, false, true, scanFails);
        assert !Seen(r, scanFails);
        assert r == Resource(r.kind, r.id);
      }
      forall row | row in s.participants && s.participants[row].inviter == user ensures s.participants[row].user == user {
        assert !InvitedOther(s, row, user);
      }
    }
  }

  lemma LifecycleGoesThrough(s: State, e: Event)
    ensures e.Suspend? ==>
              (Step(s, e).Ok? <==> Handles(s, e.actor, e.user, e.inScope) && EmptyHanded(s, e.user, e.scanFails))
    ensures e.Activate? ==> (Step(s, e).Ok? <==> Handles(s, e.actor, e.user, e.inScope))
    ensures e.DeleteInactive? ==>
              (Step(s, e).Ok? <==>
                && e.actor != e.user && Handles(s, e.actor, e.user, e.inScope) && !s.users[e.user].active
                && EmptyHanded(s, e.user, e.scanFails))
  {
    if (e.Suspend? || e.Activate? || e.DeleteInactive?) && e.actor in s.users && e.user in s.users {
      HandledBy(s.users[e.actor].role, s.users[e.user].role);
    }
    if e.Suspend? || e.DeleteInactive? {
      EmptyHandedExactly(s, e.user, e.scanFails);
    }
  }

  /** Everything the guard sees of the user fits the role and right he is to have. */
  ghost predicate Fits(s: State, user: int, role: Role, etl: bool, scanFails: bool) {
    forall r :: Owned(s, r, user) ==>
      || r.kind in Ownable(role, etl) || r.kind == SystemRole || r == Resource(Dept, 0) || (r.kind == EtlItem && scanFails)
  }

  lemma FitsExactly(s: State, user: int, role: Role, etl: bool, scanFails: bool)
    ensures Changeable(s, user, role, etl, false, scanFails) <==> Fits(s, user, role, etl, scanFails)
  {
    ChangeableExactly(s, user, role, etl, false, scanFails);
    forall r | Owned(s, r, user)
      ensures Stays(s, r, user, role, etl, false, scanFails) <==>
              || r.kind in Ownable(role, etl) || r.kind == SystemRole || r == Resource(Dept, 0) || (r.kind == EtlItem && scanFails)
    {
      RightsByRole(r.kind, User(role, etl, true));
      assert r == Resource(r.kind, r.id);
    }
    if Changeable(s, user, role, etl, false, scanFails) {
      forall r | Owned(s, r, user)
        ensures r.kind in Ownable(role, etl) || r.kind == SystemRole || r == Resource(Dept, 0) || (r.kind == EtlItem && scanFails)
      {
        assert Stays(s, r, user, role, etl, false, scanFails);
      }
    }
  }

  lemma RoleCallsGoThrough(s: State, e: Event)
    ensures e.SetRole? ==>
              (Step(s, e).Ok? <==>
                && e.permitted && e.user in s.users && e.role in {A, O, U} && s.users[e.user].role !in {Sa, SaDev})
    ensures e.Manage? ==>
              (Step(s, e).Ok? <==>
                e.permitted && e.user in s.users && Fits(s, e.user, e.role, e.etl && e.role != U, e.scanFails))
  {
    if e.Manage? {
      FitsExactly(s, e.user, e.role, e.etl && e.role != U, e.scanFails);
    }
  }

  /** A signup needs a code nobody has used, a new user and, for a code that joins a project, a
      free row; a new organisation needs a new user and a department without a creator. */
  lemma JoiningGoesThrough(s: State, e: Event)
    ensures e.Signup? ==>
              (Step(s, e).Ok? <==>
                && e.valid && e.code in s.codes && !s.codes[e.code].used && e.user !in s.users
                && (e.joins.Some? ==> e.joins.value !in s.participants))
    ensures e.CreateOrg? ==> (Step(s, e).Ok? <==> e.user !in s.users && Resource(Dept, e.dept) !in s.owners)
    ensures e.IssueCode? ==> (Step(s, e).Ok? <==> Active(s, e.actor) && e.code !in s.codes)
    ensures e.AddParticipant? ==> (Step(s, e).Ok? <==> Active(s, e.actor) && e.user in s.users && e.row !in s.participants)
    ensures e.Login? ==> (Step(s, e).Ok? <==> Active(s, e.user))
  {
  }

  lemma HandingOverGoesThrough(s: State, e: Event)
    ensures e.Transfer? ==>
              (Step(s, e).Ok? <==>
                && e.permitted && e.from != e.to && e.from in s.users && e.to in s.users && s.users[e.to].active
                && Owned(s, e.res, e.from) && e.res != Resource(Dept, 0)
                && e.res.kind in Receivable(s.users[e.to].role, s.users[e.to].etl))
    ensures e.TransferInvite? ==>
              (Step(s, e).Ok? <==>
                && e.permitted && e.from != e.to && e.from in s.users && e.to in s.users && s.users[e.to].active
                && s.users[e.to].role in {A, Sa, SaDev}
                && e.row in s.participants && s.participants[e.row].inviter == e.from && s.participants[e.row].user != e.to)
    ensures e.Register? ==> (Step(s, e).Ok? <==> Active(s, e.actor) && OwnerOf(s, e.res).None?)
    ensures e.RunEtlJob? || e.Unregister? || e.RemoveParticipant? ==> Step(s, e).Ok?
  {
    if e.Transfer? && e.to in s.users {
      RightsByRole(e.res.kind, s.users[e.to]);
      assert e.res == Resource(e.res.kind, e.res.id);
    }
    if e.TransferInvite? && e.to in s.users {
      RightsByRole(Project, s.users[e.to]);
    }
  }

  // ---------- what a call leaves ----------

  /** One account through any call: which calls bring it, take it, and set each of its fields. */
  lemma AccountAfter(s: State, e: Event, user: int)
    requires Step(s, e).Ok?
    ensures var after := After(s, e).users;
      && (user in after <==>
            (user in s.users && !(e.DeleteInactive? && e.user == user)) || ((e.Signup? || e.CreateOrg?) && e.user == user))
      && (user in after && user in s.users ==>
            && after[user].active == (!(e.Suspend? && e.user == user) && (s.users[user].active || (e.Activate? && e.user == user)))
            && after[user].role == (if (e.SetRole? || e.Manage?) && e.user == user then e.role else s.users[user].role)
            && after[user].etl == (if e.Manage? && e.user == user then e.etl && e.role != U else s.users[user].etl))
  {
    if !WritesUsers(e) {
      OtherCallsKeepUsers(s, e);
    } else if e.DeleteInactive? {
      assert After(s, e).users == s.users - {e.user};
    }
  }

  /** A new account is active; a signup takes the asked role and the code's ETL right, the
      founder of an organisation is sa without it. */
  lemma NewAccount(s: State, e: Event)
    requires Step(s, e).Ok? && (e.Signup? || e.CreateOrg?)
    ensures var u := After(s, e).users;
      e.user in u && u[e.user] == if e.CreateOrg? then User(Sa, false, true) else User(e.role, s.codes[e.code].etl, true)
  {
  }

  /** One code through any call: a signup uses it up, only the deletion of its creator removes it,
      and it carries the ETL right only if a department or system administrator issued it so. */
  lemma CodeAfter(s: State, e: Event, code: int)
    requires Step(s, e).Ok?
    ensures var after := After(s, e).codes;
      && (code in s.codes ==>
            (code in after <==> !(e.DeleteInactive? && s.codes[code].creator == e.user))
            && (code in after ==>
                  after[code] == Code(s.codes[code].creator, s.codes[code].etl, s.codes[code].used || (e.Signup? && e.code == code))))
      && (code !in s.codes ==>
            (code in after <==> e.IssueCode? && e.code == code)
            && (code in after ==>
                  e.actor in s.users && after[code] == Code(e.actor, e.etl && s.users[e.actor].role in {Sa, SaDev}, false)))
  {
    if !e.IssueCode? && !e.DeleteInactive? && !e.Signup? {
      OtherCallsKeepCodes(s, e);
    } else if e.DeleteInactive? {
      assert After(s, e) == Deleted(s, e.user);
    }
  }

  /** One participation through any call. */
  lemma ParticipationAfter(s: State, e: Event, row: int)
    requires Step(s, e).Ok?
    ensures var after := After(s, e).participants;
      && (row in s.participants ==>
            (row in after <==> !(e.RemoveParticipant? && e.row == row) && !(e.DeleteInactive? && s.participants[row].user == e.user))
            && (row in after ==>
                  var inviter := if e.TransferInvite? && e.row == row then e.to else s.participants[row].inviter;
                  after[row] == Participation(s.participants[row].user, inviter)))
      && (row !in s.participants ==>
            (row in after <==> (e.AddParticipant? && e.row == row) || (e.Signup? && e.joins == Some(row)))
            && (row in after ==>
                  after[row] == Participation(e.user, if e.AddParticipant? then e.actor else s.codes[e.code].creator)))
  {
    if !e.AddParticipant? && !e.RemoveParticipant? && !e.TransferInvite? && !e.DeleteInactive? && !e.Signup? {
      OtherCallsKeepParticipants(s, e);
    } else if e.DeleteInactive? {
      assert After(s, e) == Deleted(s, e.user);
    }
  }

  /** One resource through any call but a transfer, which TransferMovesExactly covers. */
  lemma OwnerAfter(s: State, e: Event, r: Resource)
    requires Step(s, e).Ok? && !e.Transfer?
    ensures OwnerOf(After(s, e), r) ==
      if e.Register? && r == e.res then Some(e.actor)
      else if e.Unregister? && r == e.res then None
      else if e.CreateOrg? && r == Resource(Dept, e.dept) then Some(e.user)
      else if e.RunEtlJob? && r == Resource(TableMaster, e.table) && OwnerOf(s, r).None? then RegisteredFor(s.etl, e.job, e.viaDefinition)
      else OwnerOf(s, r)
  {
    if !WritesOwners(e) {
      OtherCallsKeepOwners(s, e);
    } else if e.Register? {
      RegisteredOwner(s, e, r);
    } else if e.Unregister? {
      UnregisteredOwner(s, e, r);
    } else if e.CreateOrg? {
      FoundedOwner(s, e, r);
    } else {
      RunOwner(s, e, r);
    }
  }

  lemma RegisteredOwner(s: State, e: Event, r: Resource)
    requires e.Register? && Step(s, e).Ok?
    ensures OwnerOf(After(s, e), r) == if r == e.res then Some(e.actor) else OwnerOf(s, r)
  {
    assert r == Resource(r.kind, r.id);
  }

  lemma UnregisteredOwner(s: State, e: Event, r: Resource)
    requires e.Unregister? && Step(s, e).Ok?
    ensures OwnerOf(After(s, e), r) == if r == e.res then None else OwnerOf(s, r)
  {
    assert r == Resource(r.kind, r.id);
  }

  lemma FoundedOwner(s: State, e: Event, r: Resource)
    requires e.CreateOrg? && Step(s, e).Ok?
    ensures OwnerOf(After(s, e), r) == if r == Resource(Dept, e.dept) then Some(e.user) else OwnerOf(s, r)
  {
  }

  lemma RunOwner(s: State, e: Event, r: Resource)
    requires e.RunEtlJob?
    ensures OwnerOf(After(s, e), r) ==
      if r == Resource(TableMaster, e.table) && OwnerOf(s, r).None? then RegisteredFor(s.etl, e.job, e.viaDefinition) else OwnerOf(s, r)
  {
  }

  /** A run registers its table for whoever registered the definition the job serves, else for
      whoever registered the job. */
  lemma TableIsRegisteredFor(s: State, job: int, definition: int, table: int, owner: int)
    requires OwnerOf(s, Resource(TableMaster, table)).None?
    requires job in s.etl && s.etl[job].link == RunsFor(definition)
    ensures definition in s.etl && s.etl[definition].owner == Some(owner) ==>
              Owned(After(s, RunEtlJob(job, table, true)), Resource(TableMaster, table), owner)
    ensures (definition !in s.etl || s.etl[definition].owner.None?) && s.etl[job].owner == Some(owner) ==>
              Owned(After(s, RunEtlJob(job, table, true)), Resource(TableMaster, table), owner)
    ensures s.etl[job].owner == Some(owner) ==>
              Owned(After(s, RunEtlJob(job, table, false)), Resource(TableMaster, table), owner)
  {
    RunOwner(s, RunEtlJob(job, table, true), Resource(TableMaster, table));
    RunOwner(s, RunEtlJob(job, table, false), Resource(TableMaster, table));
    JobsOwner(s.etl, job, definition);
  }

  lemma JobsOwner(g: Registry, job: int, definition: int)
    requires job in g && g[job].link == RunsFor(definition)
    ensures RegisteredFor(g, job, false) == g[job].owner
    ensures RegisteredFor(g, job, true) == if definition in g && g[definition].owner.Some? then g[definition].owner else g[job].owner
  {
  }

  /** Deleting an account touches no row of anybody else, and a login adds one session and one
      log row of the user's. */
  lemma RowsOfOthersStay(s: State, e: Event, k: int)
    requires Step(s, e).Ok?
    ensures !e.Login? && k in s.sessions && !(e.DeleteInactive? && s.sessions[k] == e.user) ==>
              k in After(s, e).sessions && After(s, e).sessions[k] == s.sessions[k]
    ensures !e.Login? && k in s.logins && !(e.DeleteInactive? && s.logins[k] == e.user) ==>
              k in After(s, e).logins && After(s, e).logins[k] == s.logins[k]
    ensures k in s.notices && !(e.DeleteInactive? && s.notices[k] == e.user) ==>
              k in After(s, e).notices && After(s, e).notices[k] == s.notices[k]
    ensures e.Login? ==> After(s, e).sessions == s.sessions[e.session := e.user] && After(s, e).logins == s.logins[e.session := e.user]
  {
    if !e.Login? && !e.DeleteInactive? {
      OtherCallsKeepRows(s, e);
    } else if e.DeleteInactive? {
      assert After(s, e) == Deleted(s, e.user);
    }
  }

  lemma OtherCallsKeepRows(s: State, e: Event)
    requires !e.Login? && !e.DeleteInactive?
    ensures After(s, e).sessions == s.sessions && After(s, e).logins == s.logins && After(s, e).notices == s.notices
  {
    if WritesUsers(e) {
      AccountCallsKeepRows(s, e);
    } else if e.Transfer? || e.TransferInvite? {
      TransfersKeepRows(s, e);
    } else if e.Register? || e.RunEtlJob? || e.Unregister? {
      RegistrationsKeepRows(s, e);
    }
  }

  lemma TransfersKeepRows(s: State, e: Event)
    requires e.Transfer? || e.TransferInvite?
    ensures After(s, e).sessions == s.sessions && After(s, e).logins == s.logins && After(s, e).notices == s.notices
  {
  }

  lemma RegistrationsKeepRows(s: State, e: Event)
    requires e.Register? || e.RunEtlJob? || e.Unregister?
    ensures After(s, e).sessions == s.sessions && After(s, e).logins == s.logins && After(s, e).notices == s.notices
  {
  }

  lemma AccountCallsKeepRows(s: State, e: Event)
    requires WritesUsers(e) && !e.DeleteInactive?
    ensures After(s, e).sessions == s.sessions && After(s, e).logins == s.logins && After(s, e).notices == s.notices
  {
  }

  lemma OtherCallsKeepCodes(s: State, e: Event)
    requires !e.IssueCode? && !e.DeleteInactive? && !e.Signup?
    ensures After(s, e).codes == s.codes
  {
    if WritesUsers(e) { AccountCallsKeepCodes(s, e); }
  }

  lemma AccountCallsKeepCodes(s: State, e: Event)
    requires WritesUsers(e) && !e.DeleteInactive? && !e.Signup?
    ensures After(s, e).codes == s.codes && After(s, e).participants == s.participants
  {
  }

  lemma OtherCallsKeepParticipants(s: State, e: Event)
    requires !e.AddParticipant? && !e.RemoveParticipant? && !e.TransferInvite? && !e.DeleteInactive? && !e.Signup?
    ensures After(s, e).participants == s.participants
  {
    if WritesUsers(e) { AccountCallsKeepCodes(s, e); }
  }

  // ---------- over whole runs: where the ETL right comes from ----------

  /** A call that gives the right to a user: a role change that grants it, or a signup with a code
      that carries it. */
  ghost predicate GivesEtl(s: State, e: Event, user: int) {
    && Step(s, e).Ok?
    && (|| (e.Manage? && e.user == user && e.etl && e.role != U)
        || (e.Signup? && e.user == user && s.codes[e.code].etl))
  }

  ghost predicate EtlGiven(s: State, es: seq<Event>, user: int)
    decreases |es|
  {
    es != [] && (GivesEtl(s, es[0], user) || EtlGiven(After(s, es[0]), es[1..], user))
  }

  /** Nobody comes by the ETL right in another way. */
  lemma {:induction false} EtlRightHasASource(s: State, es: seq<Event>, user: int)
    requires user in Run(s, es).users && Run(s, es).users[user].etl
    ensures (user in s.users && s.users[user].etl) || EtlGiven(s, es, user)
    decreases |es|
  {
    if es != [] {
      var s' := After(s, es[0]);
      EtlRightHasASource(s', es[1..], user);
      if user in s'.users && s'.users[user].etl && Step(s, es[0]).Ok? {
        AccountAfter(s, es[0], user);
        if user !in s.users {
          NewAccount(s, es[0]);
        }
      }
    }
  }

  /** A call by which a department or system administrator issues the code with the right. */
  ghost predicate IssuesEtl(s: State, e: Event, code: int) {
    Step(s, e).Ok? && e.IssueCode? && e.code == code && e.etl && e.actor in s.users && s.users[e.actor].role in {Sa, SaDev}
  }

  ghost predicate EtlIssued(s: State, es: seq<Event>, code: int)
    decreases |es|
  {
    es != [] && (IssuesEtl(s, es[0], code) || EtlIssued(After(s, es[0]), es[1..], code))
  }

  /** A code that carries the right was issued so by an account that was an administrator then. */
  lemma {:induction false} EtlCodeHasAnIssuer(s: State, es: seq<Event>, code: int)
    requires code in Run(s, es).codes && Run(s, es).codes[code].etl
    ensures (code in s.codes && s.codes[code].etl) || EtlIssued(s, es, code)
    decreases |es|
  {
    if es != [] {
      var s' := After(s, es[0]);
      EtlCodeHasAnIssuer(s', es[1..], code);
      if code in s'.codes && s'.codes[code].etl && Step(s, es[0]).Ok? {
        CodeAfter(s, es[0], code);
      }
    }
  }

  /** Some signup of the run goes through with the code. */
  ghost predicate Opens(s: State, es: seq<Event>, code: int)
    decreases |es|
  {
    es != [] && ((es[0].Signup? && es[0].code == code && Step(s, es[0]).Ok?) || Opens(After(s, es[0]), es[1..], code))
  }

  ghost predicate Reissues(es: seq<Event>, code: int) {
    exists e :: e in es && e.IssueCode? && e.code == code
  }

  /** A code opens at most one account: once used, or gone with its creator, no signup goes through
      with it unless the code is issued anew. */
  lemma {:induction false} SpentForEver(s: State, es: seq<Event>, code: int)
    requires code in s.codes ==> s.codes[code].used
    requires !Reissues(es, code)
    ensures !Opens(s, es, code)
    decreases |es|
  {
    if es != [] {
      assert es[0] in es && forall e :: e in es[1..] ==> e in es;
      if Step(s, es[0]).Ok? {
        CodeAfter(s, es[0], code);
      }
      JoiningGoesThrough(s, es[0]);
      SpentForEver(After(s, es[0]), es[1..], code);
    }
  }

  lemma OpensOnce(s: State, signup: Event, es: seq<Event>)
    requires signup.Signup? && Step(s, signup).Ok? && !Reissues(es, signup.code)
    ensures !Opens(After(s, signup), es, signup.code)
  {
    CodeAfter(s, signup, signup.code);
    SpentForEver(After(s, signup), es, signup.code);
  }

  // ---------- inactive accounts own nothing, kind by kind ----------

  /** In every reachable state, whatever scans fail, whoever is registered for a project, a custom
      role, a widget board or a department other than 0 has an active account. */
  lemma CreatorsAreActive(s: State, es: seq<Event>, r: Resource, user: int)
    requires Inv(s, false) && Owned(Run(s, es), r, user)
    requires r.kind in {Project, CustomRole, WidgetBoard} || (r.kind == Dept && r.id != 0)
    ensures user in Run(s, es).users && Run(s, es).users[user].active
  {
    RunKeeps(s, es);
    assert Guarded(r, false);
  }

  /** The same for tables and ETL items as long as no call suspends an account that is registered
      for an ETL item. */
  lemma {:induction false} OwnersAreActive(s: State, es: seq<Event>, r: Resource, user: int)
    requires Inv(s, true) && SparesEtlOwners(s, es) && Owned(Run(s, es), r, user)
    requires r.kind in {Project, CustomRole, WidgetBoard, TableMaster, EtlItem} || (r.kind == Dept && r.id != 0)
    ensures user in Run(s, es).users && Run(s, es).users[user].active
    decreases |es|
  {
    if es == [] {
      assert Guarded(r, true);
    } else {
      StepKeeps(s, es[0], true);
      OwnersAreActive(After(s, es[0]), es[1..], r, user);
    }
  }

  /** An empty system meets both premises. */
  lemma EmptySystem(users: map<int, User>)
    ensures Inv(State(users, map[], map[], map[], map[], map[], map[], map[]), true)
    ensures Inv(State(users, map[], map[], map[], map[], map[], map[], map[]), false)
  {
  }
}
