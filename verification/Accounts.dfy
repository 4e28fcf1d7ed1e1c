/** The account lifecycle: suspending, activating and deleting users, the ownership guard in
    front of it, and the operations that give users something to own. Every call is one
    transaction. Scope checks that only narrow who may act are a parameter. */
module Accounts {
  import opened Wrappers
  import opened OrgTree
  import opened EtlRegistry
  import opened Picking

  /** What a user can be the registered creator of. Dept 0 and the system roles are seed rows. */
  datatype Kind = Project | CustomRole | SystemRole | Dept | TableMaster | WidgetBoard | EtlItem

  datatype Resource = Resource(kind: Kind, id: int)

  datatype User = User(role: Role, etl: bool, active: bool)

  /** project_ptcpnt_info: the participant and the user who invited them. */
  datatype Participation = Participation(user: int, inviter: int)

  /** An invite code: who issued it, the ETL right it carries, and whether a signup has used it. */
  datatype Code = Code(creator: int, etl: bool, used: bool)

  /** `owners` holds the creator columns of the system tables and `etl` those of the ETL
      registry; sessions, login log and notifications are kept with the user they name. */
  datatype State = State(users: map<int, User>, owners: map<Resource, int>, etl: Registry,
                         participants: map<int, Participation>,
                         sessions: map<int, int>, logins: map<int, int>, notices: map<int, int>, codes: map<int, Code>)

  const REFUSED := "not allowed"
  const OWNS := "transfer what the user owns first"

  function OwnerOf(s: State, r: Resource): Option<int> {
    if r.kind == EtlItem then (if r.id in s.etl then s.etl[r.id].owner else None)
    else if r in s.owners then Some(s.owners[r]) else None
  }

  predicate Owned(s: State, r: Resource, user: int) {
    OwnerOf(s, r) == Some(user)
  }

  function Resources(s: State): set<Resource> {
    s.owners.Keys + set i | i in s.etl :: Resource(EtlItem, i)
  }

  lemma OwnedIsListed(s: State, r: Resource)
    requires OwnerOf(s, r).Some?
    ensures r in Resources(s)
  {
    if r.kind == EtlItem {
      assert r == Resource(EtlItem, r.id);
    }
  }

  // ---------- the ownership guard ----------

  /** can_own_after_change */
  predicate CanOwn(kind: Kind, role: Role, etl: bool) {
    match kind
    case Project => role == SaDev || role == Sa || role == A
    case CustomRole => role == SaDev || role == Sa || role == A
    case Dept => role == Sa || role == SaDev
    case EtlItem => role == SaDev || etl
    case TableMaster => role != Unknown
    case WidgetBoard => role != Unknown
    case SystemRole => false
  }

  /** What the guard collects: not the system roles, not department 0, and nothing of the ETL
      registry when its scan fails (the error is swallowed). */
  predicate Seen(r: Resource, scanFails: bool) {
    match r.kind
    case SystemRole => false
    case Dept => r.id != 0
    case EtlItem => !scanFails
    case _ => true
  }

  predicate InvitedOther(s: State, row: int, user: int) {
    row in s.participants && s.participants[row].inviter == user && s.participants[row].user != user
  }

  /** The user may keep the resource through the change, as far as the guard sees it. */
  predicate Stays(s: State, r: Resource, user: int, role: Role, etl: bool, forSuspend: bool, scanFails: bool) {
    Owned(s, r, user) && Seen(r, scanFails) ==> !forSuspend && CanOwn(r.kind, role, etl)
  }

  /** _evaluate_ownership_target_or_raise lets the change through. */
  predicate Changeable(s: State, user: int, role: Role, etl: bool, forSuspend: bool, scanFails: bool) {
    && (forall r | r in s.owners :: Stays(s, r, user, role, etl, forSuspend, scanFails))
    && (forall i | i in s.etl :: Stays(s, Resource(EtlItem, i), user, role, etl, forSuspend, scanFails))
    && (forSuspend ==> forall row | row in s.participants :: !InvitedOther(s, row, user))
  }

  lemma ChangeableExactly(s: State, user: int, role: Role, etl: bool, forSuspend: bool, scanFails: bool)
    ensures Changeable(s, user, role, etl, forSuspend, scanFails) <==>
            && (forall r :: Stays(s, r, user, role, etl, forSuspend, scanFails))
            && (forSuspend ==> forall row :: !InvitedOther(s, row, user))
  {
    if Changeable(s, user, role, etl, forSuspend, scanFails) {
      forall r ensures Stays(s, r, user, role, etl, forSuspend, scanFails) {
        if r.kind == EtlItem && r.id in s.etl {
          assert r == Resource(EtlItem, r.id);
        }
      }
    }
  }

  datatype Blocking = Items(kind: Kind, ids: seq<int>) | Invites(rows: seq<int>)

  datatype Payload = Payload(changeable: bool, blocking: seq<Blocking>, allowed: seq<(Kind, nat)>)

  /** One section of build_ownership_violation_payload. */
  method Section(kind: Kind, ids: seq<int>, role: Role, etl: bool, forSuspend: bool) returns (blocked: seq<int>)
    ensures blocked == if forSuspend || !CanOwn(kind, role, etl) then ids else []
  {
    blocked := [];
    var i := 0;
    while i < |ids|
      invariant 0 <= i <= |ids|
      invariant blocked == if forSuspend || !CanOwn(kind, role, etl) then ids[..i] else []
    {
      if forSuspend || !CanOwn(kind, role, etl) {
        blocked := blocked + [ids[i]];
      }
      i := i + 1;
    }
  }

  const SECTIONS: seq<Kind> := [Project, CustomRole, TableMaster, Dept, EtlItem, WidgetBoard]

  /** Some section or, for a suspension, some invitation blocks. */
  predicate AnyBlocked(lists: map<Kind, seq<int>>, invites: seq<int>, role: Role, etl: bool, forSuspend: bool) {
    || (exists k <- SECTIONS :: k in lists && lists[k] != [] && (forSuspend || !CanOwn(k, role, etl)))
    || (forSuspend && invites != [])
  }

  /** build_ownership_violation_payload: changeable exactly if nothing blocks; every listed item
      is either blocking or counted as kept. */
  method BuildPayload(lists: map<Kind, seq<int>>, invites: seq<int>, role: Role, etl: bool, forSuspend: bool) returns (p: Payload)
    requires forall k <- SECTIONS :: k in lists
    ensures p.changeable <==> !AnyBlocked(lists, invites, role, etl, forSuspend)
    ensures p.changeable <==> p.blocking == []
    ensures forall k <- SECTIONS :: lists[k] != [] ==>
              (Items(k, lists[k]) in p.blocking <==> forSuspend || !CanOwn(k, role, etl))
              && ((k, |lists[k]|) in p.allowed <==> !forSuspend && CanOwn(k, role, etl))
    ensures Invites(invites) in p.blocking <==> forSuspend && invites != []
    ensures forall b :: b in p.blocking && b.Items? ==> b.kind in SECTIONS && b.ids == lists[b.kind] != []
  {
    var blocking: seq<Blocking> := [];
    var allowed: seq<(Kind, nat)> := [];
    var i := 0;
    while i < |SECTIONS|
      invariant 0 <= i <= |SECTIONS|
      invariant SectionsDone(lists, role, etl, forSuspend, i, blocking, allowed)
    {
      var k := SECTIONS[i];
      var items := Section(k, lists[k], role, etl, forSuspend);
      if items != [] {
        blocking := blocking + [Items(k, items)];
      } else if lists[k] != [] && !forSuspend {
        allowed := allowed + [(k, |lists[k]|)];
      }
      i := i + 1;
    }
    SectionsEnd(lists, role, etl, forSuspend, blocking, allowed);
    if forSuspend && invites != [] {
      blocking := blocking + [Invites(invites)];
    }
    p := Payload(|blocking| == 0, blocking, allowed);
  }

  ghost predicate SectionsDone(lists: map<Kind, seq<int>>, role: Role, etl: bool, forSuspend: bool, i: nat,
                               blocking: seq<Blocking>, allowed: seq<(Kind, nat)>)
    requires i <= |SECTIONS| && forall k <- SECTIONS :: k in lists
  {
    && (forall b :: b in blocking ==>
          b.Items? && b.kind in SECTIONS[..i] && b.ids == lists[b.kind] && b.ids != [] && (forSuspend || !CanOwn(b.kind, role, etl)))
    && (forall k, n :: (k, n) in allowed ==>
          k in SECTIONS[..i] && n == |lists[k]| && n != 0 && !forSuspend && CanOwn(k, role, etl))
    && (forall j :: 0 <= j < i && lists[SECTIONS[j]] != [] ==>
          (forSuspend || !CanOwn(SECTIONS[j], role, etl) ==> Items(SECTIONS[j], lists[SECTIONS[j]]) in blocking)
          && (!forSuspend && CanOwn(SECTIONS[j], role, etl) ==> (SECTIONS[j], |lists[SECTIONS[j]]|) in allowed))
  }

  ghost predicate AllSections(lists: map<Kind, seq<int>>, role: Role, etl: bool, forSuspend: bool,
                              blocking: seq<Blocking>, allowed: seq<(Kind, nat)>)
    requires forall k <- SECTIONS :: k in lists
  {
    && (forall k <- SECTIONS :: lists[k] != [] ==>
          (Items(k, lists[k]) in blocking <==> forSuspend || !CanOwn(k, role, etl))
          && ((k, |lists[k]|) in allowed <==> !forSuspend && CanOwn(k, role, etl)))
    && (blocking == [] <==> !AnyBlocked(lists, [], role, etl, forSuspend))
    && (forall b :: b in blocking ==> b.Items? && b.kind in SECTIONS && b.ids == lists[b.kind] != [])
  }

  lemma SectionAt(lists: map<Kind, seq<int>>, role: Role, etl: bool, forSuspend: bool,
                  blocking: seq<Blocking>, allowed: seq<(Kind, nat)>, k: Kind)
    requires forall j <- SECTIONS :: j in lists
    requires SectionsDone(lists, role, etl, forSuspend, |SECTIONS|, blocking, allowed)
    requires k in SECTIONS && lists[k] != []
    ensures Items(k, lists[k]) in blocking <==> forSuspend || !CanOwn(k, role, etl)
    ensures (k, |lists[k]|) in allowed <==> !forSuspend && CanOwn(k, role, etl)
  {
    var j :| 0 <= j < |SECTIONS| && SECTIONS[j] == k;
  }

  lemma SectionsBlock(lists: map<Kind, seq<int>>, role: Role, etl: bool, forSuspend: bool,
                      blocking: seq<Blocking>, allowed: seq<(Kind, nat)>)
    requires forall j <- SECTIONS :: j in lists
    requires SectionsDone(lists, role, etl, forSuspend, |SECTIONS|, blocking, allowed)
    ensures blocking == [] <==> !AnyBlocked(lists, [], role, etl, forSuspend)
  {
    if blocking != [] {
      var b := blocking[0];
      assert b in blocking && b.kind in SECTIONS;
    } else {
      forall k | k in SECTIONS && lists[k] != [] ensures !(forSuspend || !CanOwn(k, role, etl)) {
        SectionAt(lists, role, etl, forSuspend, blocking, allowed, k);
      }
    }
  }

  lemma SectionsEnd(lists: map<Kind, seq<int>>, role: Role, etl: bool, forSuspend: bool,
                    blocking: seq<Blocking>, allowed: seq<(Kind, nat)>)
    requires forall k <- SECTIONS :: k in lists
    requires SectionsDone(lists, role, etl, forSuspend, |SECTIONS|, blocking, allowed)
    ensures AllSections(lists, role, etl, forSuspend, blocking, allowed)
  {
    forall k | k in SECTIONS && lists[k] != []
      ensures Items(k, lists[k]) in blocking <==> forSuspend || !CanOwn(k, role, etl)
      ensures (k, |lists[k]|) in allowed <==> !forSuspend && CanOwn(k, role, etl)
    {
      SectionAt(lists, role, etl, forSuspend, blocking, allowed, k);
    }
    SectionsBlock(lists, role, etl, forSuspend, blocking, allowed);
  }

  // ---------- one call ----------

  datatype Event =
    | Suspend(actor: int, user: int, inScope: bool, scanFails: bool)
    | Activate(actor: int, user: int, inScope: bool)
    | DeleteInactive(actor: int, user: int, inScope: bool, scanFails: bool)
    | Transfer(from: int, to: int, res: Resource, permitted: bool)
    | TransferInvite(from: int, to: int, row: int, permitted: bool)
    | Register(actor: int, res: Resource, link: Link) // a new project, role, department, table, board, ETL item
    | RunEtlJob(job: int, table: int, viaDefinition: bool) // a scheduled run registers the table it loads
    | Unregister(res: Resource)
    | CreateOrg(user: int, dept: int)
    | IssueCode(actor: int, code: int, etl: bool)
    | Signup(code: int, user: int, role: Role, joins: Option<int>, valid: bool)
    | AddParticipant(actor: int, user: int, row: int)
    | RemoveParticipant(row: int)
    | SetRole(user: int, role: Role, permitted: bool) // set_user_dvsn_admin_user: no ownership guard
    | Manage(user: int, role: Role, etl: bool, scanFails: bool, permitted: bool)
    | Login(user: int, session: int)

  /** _assert_suspend_activate_target */
  predicate MayHandle(actor: Role, target: Role) {
    match actor
    case A => target == O || target == U
    case Sa => target == A || target == O || target == U
    case SaDev => target != Sa && target != SaDev
    case _ => false
  }

  predicate CanHandle(s: State, actor: int, user: int, inScope: bool) {
    actor in s.users && user in s.users && inScope && MayHandle(s.users[actor].role, s.users[user].role)
  }

  predicate Active(s: State, user: int) {
    user in s.users && s.users[user].active
  }

  /** The recipient's organisation role each branch of transfer_resource_ownership asks for. */
  predicate MayReceive(kind: Kind, u: User) {
    match kind
    case Project => u.role == SaDev || u.role == Sa || u.role == A
    case CustomRole => u.role == SaDev || u.role == Sa || u.role == A
    case WidgetBoard => u.role == SaDev || u.role == Sa || u.role == A
    case Dept => u.role == SaDev || u.role == Sa
    case EtlItem => u.etl || u.role == SaDev
    case TableMaster => true
    case SystemRole => false
  }

  function Without(m: map<int, int>, user: int): map<int, int> {
    map k | k in m && m[k] != user :: m[k]
  }

  function WithoutCodes(m: map<int, Code>, user: int): map<int, Code> {
    map k | k in m && m[k].creator != user :: m[k]
  }

  function Deleted(s: State, user: int): State {
    State(s.users - {user}, s.owners, s.etl,
          map row | row in s.participants && s.participants[row].user != user :: s.participants[row],
          Without(s.sessions, user), Without(s.logins, user), Without(s.notices, user), WithoutCodes(s.codes, user))
  }

  /** The ETL registry after a transfer: that of a table takes the giver's items for it along,
      whatever the receiver. */
  function GivenItems(g: Registry, from: int, to: int, res: Resource): Registry {
    if res.kind == EtlItem then (if res.id in g then g[res.id := g[res.id].(owner := Some(to))] else g)
    else if res.kind == TableMaster then HandOver(g, from, to, res.id)
    else g
  }

  /** The creator columns after a transfer. */
  function Given(s: State, from: int, to: int, res: Resource): State {
    s.(owners := if res.kind == EtlItem then s.owners else s.owners[res := to], etl := GivenItems(s.etl, from, to, res))
  }

  /** The user a scheduled run registers its table for: the job's, or that of its definition. */
  function RegisteredFor(g: Registry, job: int, viaDefinition: bool): Option<int> {
    if job !in g then None
    else
      var link := g[job].link;
      if viaDefinition && link.RunsFor? && link.definition in g && g[link.definition].owner.Some? then g[link.definition].owner
      else g[job].owner
  }

  predicate CanGive(s: State, from: int, to: int, res: Resource) {
    && from != to && from in s.users && Active(s, to) && MayReceive(res.kind, s.users[to])
    && Owned(s, res, from) && !(res.kind == Dept && res.id == 0)
  }

  predicate CanGiveInvite(s: State, from: int, to: int, row: int) {
    && from != to && from in s.users && Active(s, to) && MayReceive(Project, s.users[to])
    && row in s.participants && s.participants[row].inviter == from && s.participants[row].user != to
  }

  predicate WritesUsers(e: Event) {
    e.Suspend? || e.Activate? || e.DeleteInactive? || e.CreateOrg? || e.Signup? || e.SetRole? || e.Manage?
  }

  /** The calls that write accounts. */
  function AccountStep(s: State, e: Event): Result<State>
    requires WritesUsers(e)
  {
    match e
    case Suspend(actor, user, inScope, scanFails) =>
      if !CanHandle(s, actor, user, inScope) then Err(REFUSED)
      else if !Changeable(s, user, U, false, true, scanFails) then Err(OWNS)
      else Ok(s.(users := s.users[user := s.users[user].(active := false)]))
    case Activate(actor, user, inScope) =>
      if !CanHandle(s, actor, user, inScope) then Err(REFUSED)
      else Ok(s.(users := s.users[user := s.users[user].(active := true)]))
    case DeleteInactive(actor, user, inScope, scanFails) =>
      if actor == user || !CanHandle(s, actor, user, inScope) || s.users[user].active then Err(REFUSED)
      else if !Changeable(s, user, U, false, true, scanFails) then Err(OWNS)
      else Ok(Deleted(s, user))
    case CreateOrg(user, dept) =>
      if user in s.users || Resource(Dept, dept) in s.owners then Err(REFUSED)
      else Ok(s.(users := s.users[user := User(Sa, false, true)], owners := s.owners[Resource(Dept, dept) := user]))
    case Signup(code, user, role, row, valid) =>
      if !valid || code !in s.codes || s.codes[code].used || user in s.users || (row.Some? && row.value in s.participants)
      then Err(REFUSED)
      else
        var joined := s.(users := s.users[user := User(role, s.codes[code].etl, true)], codes := s.codes[code := s.codes[code].(used := true)]);
        Ok(if row.Some? then joined.(participants := s.participants[row.value := Participation(user, s.codes[code].creator)]) else joined)
    case SetRole(user, role, permitted) =>
      if user !in s.users || !permitted || (role != A && role != O && role != U)
         || s.users[user].role == Sa || s.users[user].role == SaDev
      then Err(REFUSED)
      else Ok(s.(users := s.users[user := s.users[user].(role := role)]))
    case Manage(user, role, etl, scanFails, permitted) =>
      if user !in s.users || !permitted then Err(REFUSED)
      else if !Changeable(s, user, role, etl && role != U, false, scanFails) then Err(OWNS)
      else Ok(s.(users := s.users[user := s.users[user].(role := role, etl := etl && role != U)]))
  }

  /** The other calls. */
  function ItemStep(s: State, e: Event): Result<State>
    requires !WritesUsers(e)
  {
    match e
    case Transfer(from, to, res, permitted) =>
      if permitted && CanGive(s, from, to, res) then Ok(Given(s, from, to, res)) else Err(REFUSED)
    case TransferInvite(from, to, row, permitted) =>
      if permitted && CanGiveInvite(s, from, to, row)
      then Ok(s.(participants := s.participants[row := s.participants[row].(inviter := to)]))
      else Err(REFUSED)
    case Register(actor, res, link) =>
      if !Active(s, actor) || OwnerOf(s, res).Some? then Err(REFUSED)
      else if res.kind != EtlItem then Ok(s.(owners := s.owners[res := actor]))
      else Ok(s.(etl := s.etl[res.id := Item(Some(actor), link)]))
    case RunEtlJob(job, table, viaDefinition) =>
      var creator := RegisteredFor(s.etl, job, viaDefinition);
      if creator.None? || Resource(TableMaster, table) in s.owners then Ok(s)
      else Ok(s.(owners := s.owners[Resource(TableMaster, table) := creator.value]))
    case Unregister(res) => Ok(s.(owners := s.owners - {res}, etl := if res.kind == EtlItem then s.etl - {res.id} else s.etl))
    case IssueCode(actor, code, etl) =>
      if !Active(s, actor) || code in s.codes then Err(REFUSED)
      else Ok(s.(codes := s.codes[code := Code(actor, etl && (s.users[actor].role == Sa || s.users[actor].role == SaDev), false)]))
    case AddParticipant(actor, user, row) =>
      if !Active(s, actor) || user !in s.users || row in s.participants then Err(REFUSED)
      else Ok(s.(participants := s.participants[row := Participation(user, actor)]))
    case RemoveParticipant(row) => Ok(s.(participants := s.participants - {row}))
    case Login(user, session) =>
      if !Active(s, user) then Err(REFUSED)
      else Ok(s.(sessions := s.sessions[session := user], logins := s.logins[session := user]))
  }

  function Step(s: State, e: Event): Result<State> {
    if WritesUsers(e) then AccountStep(s, e) else ItemStep(s, e)
  }

  function After(s: State, e: Event): State {
    if Step(s, e).Ok? then Step(s, e).value else s
  }

  function Run(s: State, es: seq<Event>): State
    decreases |es|
  {
    if es == [] then s else Run(After(s, es[0]), es[1..])
  }

  // ---------- what a transfer moves ----------

  /** The resource itself and, with a table, the giver's ETL items for it. */
  predicate Moves(s: State, from: int, res: Resource, r: Resource) {
    r == res || (res.kind == TableMaster && r.kind == EtlItem && Linked(s.etl, from, res.id, r.id))
  }

  lemma TransferMovesExactly(s: State, e: Event, r: Resource)
    requires e.Transfer? && Step(s, e).Ok?
    ensures OwnerOf(After(s, e), r) == if Moves(s, e.from, e.res, r) then Some(e.to) else OwnerOf(s, r)
    ensures Moves(s, e.from, e.res, r) ==> Owned(s, r, e.from)
  {
    assert After(s, e) == Given(s, e.from, e.to, e.res);
    GivenExactly(s, e.from, e.to, e.res, r);
  }

  lemma GivenExactly(s: State, from: int, to: int, res: Resource, r: Resource)
    requires Owned(s, res, from)
    ensures OwnerOf(Given(s, from, to, res), r) == if Moves(s, from, res, r) then Some(to) else OwnerOf(s, r)
    ensures Moves(s, from, res, r) ==> Owned(s, r, from)
    ensures Given(s, from, to, res).users == s.users && Given(s, from, to, res).participants == s.participants
  {
    if r.kind == EtlItem {
      ItemGiven(s, from, to, res, r.id);
      assert r == Resource(EtlItem, r.id);
    } else if res.kind != EtlItem {
      assert Given(s, from, to, res).owners == s.owners[res := to];
    }
  }

  lemma ItemGiven(s: State, from: int, to: int, res: Resource, i: int)
    requires Owned(s, res, from)
    ensures OwnerOf(Given(s, from, to, res), Resource(EtlItem, i)) ==
            if Moves(s, from, res, Resource(EtlItem, i)) then Some(to) else OwnerOf(s, Resource(EtlItem, i))
    ensures Moves(s, from, res, Resource(EtlItem, i)) ==> Owned(s, Resource(EtlItem, i), from)
  {
    if res.kind == EtlItem {
      assert Resource(EtlItem, i) == res <==> i == res.id;
    } else if res.kind == TableMaster {
      HandOverAt(s.etl, from, to, res.id, i);
    }
  }

  /** The receiver may own everything a transfer brings exactly if it is not a table, or the
      receiver has a valid role and, when ETL items come along, is sa_dev or has ETL rights. */
  lemma ReceiverFitsExactly(s: State, e: Event)
    requires e.Transfer? && Step(s, e).Ok?
    ensures (forall r :: Moves(s, e.from, e.res, r) ==> CanOwn(r.kind, s.users[e.to].role, s.users[e.to].etl)) <==>
            e.res.kind != TableMaster ||
            (s.users[e.to].role != Unknown &&
             (s.users[e.to].role == SaDev || s.users[e.to].etl || forall i :: !Linked(s.etl, e.from, e.res.id, i)))
  {
    var u := s.users[e.to];
    assert Moves(s, e.from, e.res, e.res);
    if e.res.kind == TableMaster {
      if i :| Linked(s.etl, e.from, e.res.id, i) {
        assert Moves(s, e.from, e.res, Resource(EtlItem, i));
      }
    }
  }

  /** The failing case: a table that a job of the giver's has registered goes to a user without
      ETL rights, who then owns the definition and the job. */
  lemma CascadeExists()
    ensures exists s, e: Event, r ::
              && e.Transfer? && Step(s, e).Ok? && Owned(After(s, e), r, e.to)
              && !CanOwn(r.kind, After(s, e).users[e.to].role, After(s, e).users[e.to].etl)
  {
    var s := State(map[2 := User(A, true, true), 3 := User(A, false, true)], map[],
                   map[6 := Item(Some(2), Loads(9)), 7 := Item(Some(2), RunsFor(6))], map[], map[], map[], map[], map[]);
    var s1 := After(s, RunEtlJob(7, 9, true));
    var e, r := Transfer(2, 3, Resource(TableMaster, 9), true), Resource(EtlItem, 7);
    assert s1.owners[Resource(TableMaster, 9)] == 2 && s1.etl == s.etl && s1.users == s.users;
    assert Defines(s1.etl, 2, 9, 6) && Serves(s1.etl, 2, 9, 7);
    assert Step(s1, e).Ok? && Moves(s1, 2, e.res, r);
    TransferMovesExactly(s1, e, r);
  }

  // ---------- inactive accounts own nothing ----------

  /** The resources the guard always sees; with `scans`, those it sees when every ETL scan works. */
  predicate Guarded(r: Resource, scans: bool) {
    match r.kind
    case Project => true
    case CustomRole => true
    case WidgetBoard => true
    case Dept => r.id != 0
    case TableMaster => scans
    case EtlItem => scans
    case SystemRole => false
  }

  ghost predicate Inv(s: State, scans: bool) {
    forall r :: Guarded(r, scans) && OwnerOf(s, r).Some? ==> Active(s, OwnerOf(s, r).value)
  }

  ghost predicate OwnsEtl(s: State, user: int) {
    exists i :: Owned(s, Resource(EtlItem, i), user)
  }

  /** The call suspends a user who is registered for an ETL item. */
  ghost predicate SuspendsEtlOwner(s: State, e: Event) {
    e.Suspend? && Step(s, e).Ok? && OwnsEtl(s, e.user)
  }

  lemma TransfersKeepUsers(s: State, e: Event)
    requires e.Transfer? || e.TransferInvite?
    ensures After(s, e).users == s.users
  {
  }

  lemma RegistrationsKeepUsers(s: State, e: Event)
    requires e.Register? || e.RunEtlJob? || e.Unregister?
    ensures After(s, e).users == s.users
  {
  }

  lemma JoiningKeepsUsers(s: State, e: Event)
    requires e.IssueCode? || e.AddParticipant? || e.RemoveParticipant? || e.Login?
    ensures After(s, e).users == s.users
  {
  }

  lemma OtherCallsKeepUsers(s: State, e: Event)
    requires !WritesUsers(e)
    ensures After(s, e).users == s.users
  {
    if e.Transfer? || e.TransferInvite? {
      TransfersKeepUsers(s, e);
    } else if e.Register? || e.RunEtlJob? || e.Unregister? {
      RegistrationsKeepUsers(s, e);
    } else {
      JoiningKeepsUsers(s, e);
    }
  }

  lemma ActiveStays(s: State, e: Event, user: int)
    requires Active(s, user) && !(e.Suspend? && e.user == user)
    ensures Active(After(s, e), user)
  {
    if !WritesUsers(e) {
      OtherCallsKeepUsers(s, e);
    } else if e.DeleteInactive? {
      assert Step(s, e).Ok? ==> e.user != user && After(s, e).users == s.users - {e.user};
    }
  }

  predicate WritesOwners(e: Event) {
    e.Transfer? || e.RunEtlJob? || e.Register? || e.Unregister? || e.CreateOrg?
  }

  lemma AccountCallsKeepOwners(s: State, e: Event)
    requires WritesUsers(e) && !e.CreateOrg?
    ensures After(s, e).owners == s.owners && After(s, e).etl == s.etl
  {
  }

  lemma OtherCallsKeepOwners(s: State, e: Event)
    requires !WritesOwners(e)
    ensures After(s, e).owners == s.owners && After(s, e).etl == s.etl
  {
    if WritesUsers(e) {
      AccountCallsKeepOwners(s, e);
    } else {
      assert e.TransferInvite? || e.IssueCode? || e.AddParticipant? || e.RemoveParticipant? || e.Login?;
    }
  }

  /** Apart from transfers and runs, a new owner is the active user who makes the call. */
  lemma NewOwnerActive(s: State, e: Event, r: Resource)
    requires !e.Transfer? && !e.RunEtlJob? && OwnerOf(After(s, e), r).Some?
    ensures OwnerOf(After(s, e), r) == OwnerOf(s, r) || Active(After(s, e), OwnerOf(After(s, e), r).value)
    ensures e.Suspend? ==> OwnerOf(After(s, e), r) == OwnerOf(s, r)
  {
    if !WritesOwners(e) {
      OtherCallsKeepOwners(s, e);
    } else if e.Register? {
      RegisteredActive(s, e, r);
    }
  }

  lemma RegisteredActive(s: State, e: Event, r: Resource)
    requires e.Register? && OwnerOf(After(s, e), r).Some?
    ensures OwnerOf(After(s, e), r) == OwnerOf(s, r) || Active(After(s, e), OwnerOf(After(s, e), r).value)
  {
    if Step(s, e).Ok? {
      assert Active(After(s, e), e.actor);
      if e.res.kind == EtlItem {
        assert After(s, e).etl == s.etl[e.res.id := Item(Some(e.actor), e.link)] && After(s, e).owners == s.owners;
      } else {
        assert After(s, e).owners == s.owners[e.res := e.actor] && After(s, e).etl == s.etl;
      }
    }
  }

  lemma OwnerStaysActive(s: State, e: Event, scans: bool, r: Resource)
    requires Inv(s, scans) && (scans ==> !SuspendsEtlOwner(s, e))
    requires Guarded(r, scans) && OwnerOf(After(s, e), r).Some?
    ensures Active(After(s, e), OwnerOf(After(s, e), r).value)
  {
    if e.Transfer? {
      if Step(s, e).Ok? {
        TransferMovesExactly(s, e, r);
      }
    } else if e.RunEtlJob? {
      RunRegistersActive(s, e, scans, r);
    } else {
      NewOwnerActive(s, e, r);
      if e.Suspend? {
        SuspendSpares(s, e, scans, r);
      } else if OwnerOf(After(s, e), r) == OwnerOf(s, r) {
        ActiveStays(s, e, OwnerOf(s, r).value);
      }
    }
  }

  /** A table registered by a run belongs to the owner of an ETL item. */
  lemma RunRegistersActive(s: State, e: Event, scans: bool, r: Resource)
    requires Inv(s, scans) && e.RunEtlJob? && Guarded(r, scans) && OwnerOf(After(s, e), r).Some?
    ensures Active(After(s, e), OwnerOf(After(s, e), r).value)
  {
    if OwnerOf(After(s, e), r) != OwnerOf(s, r) {
      var item := Resource(EtlItem, if OwnerOf(After(s, e), r) == s.etl[e.job].owner then e.job else s.etl[e.job].link.definition);
      assert OwnerOf(s, item) == OwnerOf(After(s, e), r) && Guarded(item, scans);
    }
  }

  lemma SuspendSpares(s: State, e: Event, scans: bool, r: Resource)
    requires Inv(s, scans) && e.Suspend? && (scans ==> !SuspendsEtlOwner(s, e))
    requires Guarded(r, scans) && OwnerOf(s, r).Some?
    ensures Active(After(s, e), OwnerOf(s, r).value)
  {
    if r.kind == EtlItem {
      assert r == Resource(EtlItem, r.id);
    }
    if Step(s, e).Ok? {
      ChangeableExactly(s, e.user, U, false, true, e.scanFails);
      assert Stays(s, r, e.user, U, false, true, e.scanFails);
    }
  }

  lemma StepKeeps(s: State, e: Event, scans: bool)
    requires Inv(s, scans) && (scans ==> !SuspendsEtlOwner(s, e))
    ensures Inv(After(s, e), scans)
  {
    forall r | Guarded(r, scans) && OwnerOf(After(s, e), r).Some? ensures Active(After(s, e), OwnerOf(After(s, e), r).value) {
      OwnerStaysActive(s, e, scans, r);
    }
  }

  /** In every reachable state, whatever scans fail, the creator of a project, custom role,
      widget board or department other than 0 is an active account. */
  lemma {:induction false} RunKeeps(s: State, es: seq<Event>)
    requires Inv(s, false)
    ensures Inv(Run(s, es), false)
    decreases |es|
  {
    if es != [] {
      StepKeeps(s, es[0], false);
      RunKeeps(After(s, es[0]), es[1..]);
    }
  }

  /** For tables and ETL items too, a call keeps this exactly unless it suspends a user who is
      registered for an ETL item. A failed scan that hides nothing does no harm. */
  lemma StepKeepsExactly(s: State, e: Event)
    requires Inv(s, true)
    ensures Inv(After(s, e), true) <==> !SuspendsEtlOwner(s, e)
  {
    if SuspendsEtlOwner(s, e) {
      var i :| Owned(s, Resource(EtlItem, i), e.user);
      assert OwnerOf(After(s, e), Resource(EtlItem, i)) == Some(e.user);
      assert !Active(After(s, e), e.user);
    } else {
      StepKeeps(s, e, true);
    }
  }

  /** Every state of the run is free of inactive owners. */
  ghost predicate InvAlong(s: State, es: seq<Event>)
    decreases |es|
  {
    Inv(s, true) && (es == [] || InvAlong(After(s, es[0]), es[1..]))
  }

  ghost predicate SparesEtlOwners(s: State, es: seq<Event>)
    decreases |es|
  {
    es == [] || (!SuspendsEtlOwner(s, es[0]) && SparesEtlOwners(After(s, es[0]), es[1..]))
  }

  /** Along a run no inactive account ever owns a guarded resource, tables and ETL items
      included, exactly if no call of the run suspends a user registered for an ETL item. */
  lemma {:induction false} RunKeepsExactly(s: State, es: seq<Event>)
    requires Inv(s, true)
    ensures InvAlong(s, es) <==> SparesEtlOwners(s, es)
    decreases |es|
  {
    if es != [] {
      StepKeepsExactly(s, es[0]);
      if Inv(After(s, es[0]), true) {
        RunKeepsExactly(After(s, es[0]), es[1..]);
      }
    }
  }

  /** The guard stops such a suspension unless the scan fails. */
  lemma OnlyFailedScansHarm(s: State, e: Event)
    requires SuspendsEtlOwner(s, e)
    ensures e.scanFails
  {
    var i :| Owned(s, Resource(EtlItem, i), e.user);
    ChangeableExactly(s, e.user, U, false, true, e.scanFails);
    assert Stays(s, Resource(EtlItem, i), e.user, U, false, true, e.scanFails);
  }

  lemma RunTwo(s: State, a: Event, b: Event)
    ensures Run(s, [a, b]) == After(After(s, a), b)
  {
    assert [a, b][1..] == [b];
    assert [b][1..] == [];
    assert Run(After(s, a), [b]) == Run(After(After(s, a), b), []);
  }

  /** A swallowed scan error is enough for a later scheduled run to register a table in the
      name of a suspended account. */
  lemma ScanFailureExists()
    ensures exists s, es: seq<Event>, t: Resource ::
              && Inv(s, true) && t.kind == TableMaster && OwnerOf(s, t).None?
              && OwnerOf(Run(s, es), t).Some? && !Active(Run(s, es), OwnerOf(Run(s, es), t).value)
  {
    var s := State(map[1 := User(SaDev, false, true), 2 := User(U, true, true)], map[], map[7 := Item(Some(2), Standalone)],
                   map[], map[], map[], map[], map[]);
    var suspend, run := Suspend(1, 2, true, true), RunEtlJob(7, 9, false);
    var t := Resource(TableMaster, 9);
    var s1 := After(s, suspend);
    assert Step(s, suspend).Ok? && !Active(s1, 2) && s1.etl == s.etl && s1.owners == map[];
    var s2 := After(s1, run);
    assert OwnerOf(s2, t) == Some(2) && !Active(s2, 2);
    RunTwo(s, suspend, run);
    assert forall r :: OwnerOf(s, r).Some? ==> OwnerOf(s, r) == Some(2);
    assert Run(s, [suspend, run]) == s2 && OwnerOf(s, t).None? && Inv(s, true);
  }

  // ---------- deleting an account ----------

  ghost predicate Mentions(s: State, user: int) {
    || user in s.users
    || (exists r :: Owned(s, r, user))
    || (exists row :: row in s.participants && (s.participants[row].user == user || s.participants[row].inviter == user))
    || (exists k :: k in s.sessions && s.sessions[k] == user)
    || (exists k :: k in s.logins && s.logins[k] == user)
    || (exists k :: k in s.notices && s.notices[k] == user)
    || (exists k :: k in s.codes && s.codes[k].creator == user)
  }

  /** Deleting an inactive account leaves no row that names it, exactly unless it registered a
      system role, department 0, or an ETL item that a failed scan hid. */
  lemma DeleteCleansExactly(s: State, e: Event)
    requires e.DeleteInactive? && Step(s, e).Ok?
    ensures Mentions(After(s, e), e.user) <==> exists r :: Owned(s, r, e.user) && !Seen(r, e.scanFails)
  {
    var after := After(s, e);
    assert Changeable(s, e.user, U, false, true, e.scanFails) && after == Deleted(s, e.user);
    ChangeableExactly(s, e.user, U, false, true, e.scanFails);
    DeletedRows(s, e.user);
    forall r ensures Owned(after, r, e.user) <==> Owned(s, r, e.user) {
      DeletedOwners(s, e.user, r);
    }
    forall r | Owned(s, r, e.user) ensures !Seen(r, e.scanFails) {
      assert Stays(s, r, e.user, U, false, true, e.scanFails);
    }
    if r :| Owned(s, r, e.user) && !Seen(r, e.scanFails) {
      assert Owned(after, r, e.user);
    }
  }

  lemma DeletedOwners(s: State, user: int, r: Resource)
    ensures OwnerOf(Deleted(s, user), r) == OwnerOf(s, r)
  {
  }

  /** Apart from owned resources, nothing names a deleted user who had invited nobody else. */
  lemma DeletedRows(s: State, user: int)
    requires forall row :: !InvitedOther(s, row, user)
    ensures var after := Deleted(s, user);
      && user !in after.users
      && (forall row :: row in after.participants ==> after.participants[row].user != user && after.participants[row].inviter != user)
      && (forall k :: k in after.sessions ==> after.sessions[k] != user)
      && (forall k :: k in after.logins ==> after.logins[k] != user)
      && (forall k :: k in after.notices ==> after.notices[k] != user)
      && (forall k :: k in after.codes ==> after.codes[k].creator != user)
  {
    var after := Deleted(s, user);
    forall row | row in after.participants ensures after.participants[row].user != user && after.participants[row].inviter != user {
      assert !InvitedOther(s, row, user);
    }
  }

  // ---------- clearing the way for a deletion ----------

  /** Which receivers the remaining checks of the transfers let through. */
  datatype Rules = Rules(may: (Resource, int) -> bool, mayInvite: (int, int) -> bool)

  predicate Receives(s: State, user: int, r: Resource, to: int, rules: Rules) {
    to != user && Active(s, to) && MayReceive(r.kind, s.users[to]) && rules.may(r, to)
  }

  /** Some transfer takes the resource off the user: its own, or that of a table it belongs to. */
  ghost predicate Receivable(s: State, user: int, r: Resource, rules: Rules) {
    || (exists to :: Receives(s, user, r, to, rules))
    || (r.kind == EtlItem && exists t :: Owned(s, Resource(TableMaster, t), user) && Linked(s.etl, user, t, r.id))
  }

  predicate ReceivesInvite(s: State, user: int, row: int, to: int, rules: Rules)
    requires row in s.participants
  {
    to != user && Active(s, to) && MayReceive(Project, s.users[to]) && s.participants[row].user != to && rules.mayInvite(row, to)
  }

  ghost predicate InviteReceivable(s: State, user: int, row: int, rules: Rules)
    requires row in s.participants
  {
    exists to :: ReceivesInvite(s, user, row, to, rules)
  }

  /** Everything that blocks a suspension has somebody to go to. */
  ghost predicate Clearable(s: State, user: int, rules: Rules) {
    && (forall r :: Owned(s, r, user) && Seen(r, false) ==> Receivable(s, user, r, rules))
    && (forall row :: InvitedOther(s, row, user) ==> InviteReceivable(s, user, row, rules))
  }

  /** A transfer away from the user within the rules. */
  predicate GivesAway(e: Event, user: int, rules: Rules) {
    || (e.Transfer? && e.from == user && e.permitted == rules.may(e.res, e.to))
    || (e.TransferInvite? && e.from == user && e.permitted == rules.mayInvite(e.row, e.to))
  }

  ghost predicate Clearing(s: State, user: int, es: seq<Event>, rules: Rules)
    decreases |es|
  {
    es == [] || (GivesAway(es[0], user, rules) && Step(s, es[0]).Ok? && Clearing(After(s, es[0]), user, es[1..], rules))
  }

  /** What keeps a user from being suspended while the ETL scan works. */
  ghost function Blockers(s: State, user: int): (rs: set<Resource>)
    ensures forall r :: r in rs <==> Owned(s, r, user) && Seen(r, false)
  {
    forall r | Owned(s, r, user) ensures r in Resources(s) {
      OwnedIsListed(s, r);
    }
    set r | r in Resources(s) && Owned(s, r, user) && Seen(r, false)
  }

  ghost function InviteBlockers(s: State, user: int): (rows: set<int>)
    ensures forall row :: row in rows <==> InvitedOther(s, row, user)
  {
    set row | row in s.participants && InvitedOther(s, row, user)
  }

  lemma SuspendableExactly(s: State, user: int)
    ensures Changeable(s, user, U, false, true, false) <==> Blockers(s, user) == {} && InviteBlockers(s, user) == {}
  {
    ChangeableExactly(s, user, U, false, true, false);
    if Blockers(s, user) == {} {
      forall r ensures Stays(s, r, user, U, false, true, false) {
        assert r !in Blockers(s, user);
      }
    }
    if InviteBlockers(s, user) == {} {
      forall row ensures !InvitedOther(s, row, user) {
        assert row !in InviteBlockers(s, user);
      }
    }
    if Changeable(s, user, U, false, true, false) {
      forall r ensures r !in Blockers(s, user) {
        assert Stays(s, r, user, U, false, true, false);
      }
      assert forall row :: row !in InviteBlockers(s, user);
    }
  }

  /** A transfer takes exactly what it moves off the giver and adds no obstacle. */
  lemma GivingShrinks(s: State, e: Event, user: int, rules: Rules, r: Resource)
    requires GivesAway(e, user, rules) && Step(s, e).Ok?
    ensures After(s, e).users == s.users
    ensures e.Transfer? ==> After(s, e).participants == s.participants
    ensures Owned(After(s, e), r, user) <==> Owned(s, r, user) && !(e.Transfer? && Moves(s, user, e.res, r))
  {
    if e.Transfer? {
      assert After(s, e) == Given(s, user, e.to, e.res) && e.to != user;
      GivenExactly(s, user, e.to, e.res, r);
    } else {
      InviteGivingShrinks(s, e, user, rules, 0);
    }
  }

  lemma InviteGivingShrinks(s: State, e: Event, user: int, rules: Rules, row: int)
    requires GivesAway(e, user, rules) && Step(s, e).Ok?
    ensures InvitedOther(After(s, e), row, user) <==> InvitedOther(s, row, user) && !(e.TransferInvite? && e.row == row)
    ensures row in s.participants <==> row in After(s, e).participants
    ensures row in s.participants ==> After(s, e).participants[row].user == s.participants[row].user
    ensures e.TransferInvite? ==> After(s, e).etl == s.etl && After(s, e).owners == s.owners && After(s, e).users == s.users
  {
  }

  /** Items linked to a table that does not move stay linked. */
  lemma LinksStay(s: State, e: Event, user: int, rules: Rules, t: int, i: int)
    requires GivesAway(e, user, rules) && Step(s, e).Ok? && Linked(s.etl, user, t, i)
    requires e.TransferInvite? || (e.res != Resource(TableMaster, t) && e.res.kind != EtlItem)
    ensures Linked(After(s, e).etl, user, t, i)
  {
    if e.Transfer? && e.res.kind == TableMaster {
      HandOverExactly(s.etl, user, e.to, e.res.id, i, t);
    }
  }

  lemma GivenLinks(s: State, from: int, to: int, res: Resource, t: int, i: int)
    requires from != to && Linked(Given(s, from, to, res).etl, from, t, i)
    ensures Linked(s.etl, from, t, i)
  {
    if res.kind == TableMaster {
      HandOverExactly(s.etl, from, to, res.id, i, t);
    } else if res.kind == EtlItem && res.id in s.etl {
      OneItemGiven(s.etl, from, to, res.id, t, i);
    }
  }

  lemma LinksWereThere(s: State, e: Event, user: int, rules: Rules, t: int, i: int)
    requires GivesAway(e, user, rules) && Step(s, e).Ok? && Linked(After(s, e).etl, user, t, i)
    ensures Linked(s.etl, user, t, i)
  {
    if e.Transfer? {
      GivenLinks(s, user, e.to, e.res, t, i);
    }
  }

  lemma StaysReceivable(s: State, e: Event, user: int, rules: Rules, r: Resource)
    requires GivesAway(e, user, rules) && Step(s, e).Ok?
    requires e.Transfer? && e.res.kind == EtlItem ==> forall t :: !(Owned(s, Resource(TableMaster, t), user) && Seen(Resource(TableMaster, t), false))
    requires Owned(After(s, e), r, user) && Receivable(s, user, r, rules)
    ensures Receivable(After(s, e), user, r, rules)
  {
    GivingShrinks(s, e, user, rules, r);
    if to :| Receives(s, user, r, to, rules) {
      assert Receives(After(s, e), user, r, to, rules);
    } else {
      var t :| Owned(s, Resource(TableMaster, t), user) && Linked(s.etl, user, t, r.id);
      var table := Resource(TableMaster, t);
      assert Seen(table, false);
      GivingShrinks(s, e, user, rules, table);
      if e.Transfer? && e.res == table {
        assert Moves(s, user, e.res, r);
      } else {
        LinksStay(s, e, user, rules, t, r.id);
      }
    }
  }

  lemma WasReceivable(s: State, e: Event, user: int, rules: Rules, r: Resource)
    requires GivesAway(e, user, rules) && Step(s, e).Ok? && Owned(s, r, user)
    requires Owned(After(s, e), r, user) ==> Receivable(After(s, e), user, r, rules)
    ensures Receivable(s, user, r, rules)
  {
    var after := After(s, e);
    GivingShrinks(s, e, user, rules, r);
    if Owned(after, r, user) {
      if to :| Receives(after, user, r, to, rules) {
        assert Receives(s, user, r, to, rules);
      } else {
        var t :| Owned(after, Resource(TableMaster, t), user) && Linked(after.etl, user, t, r.id);
        GivingShrinks(s, e, user, rules, Resource(TableMaster, t));
        LinksWereThere(s, e, user, rules, t, r.id);
      }
    } else if r == e.res {
      assert Receives(s, user, r, e.to, rules);
    } else {
      assert Owned(s, Resource(TableMaster, e.res.id), user) && Linked(s.etl, user, e.res.id, r.id);
    }
  }

  lemma InviteStays(s: State, e: Event, user: int, rules: Rules, row: int)
    requires GivesAway(e, user, rules) && Step(s, e).Ok? && row in s.participants
    ensures row in After(s, e).participants
    ensures InviteReceivable(s, user, row, rules) <==> InviteReceivable(After(s, e), user, row, rules)
  {
    InviteGivingShrinks(s, e, user, rules, row);
    forall to ensures ReceivesInvite(s, user, row, to, rules) <==> ReceivesInvite(After(s, e), user, row, to, rules) {
    }
    if to :| ReceivesInvite(s, user, row, to, rules) {
      assert ReceivesInvite(After(s, e), user, row, to, rules);
    }
    if to :| ReceivesInvite(After(s, e), user, row, to, rules) {
      assert ReceivesInvite(s, user, row, to, rules);
    }
  }

  lemma StaysClearable(s: State, e: Event, user: int, rules: Rules)
    requires GivesAway(e, user, rules) && Step(s, e).Ok? && Clearable(s, user, rules)
    requires e.Transfer? && e.res.kind == EtlItem ==> forall t :: !Owned(s, Resource(TableMaster, t), user)
    ensures Clearable(After(s, e), user, rules)
  {
    var after := After(s, e);
    forall r | Owned(after, r, user) && Seen(r, false) ensures Receivable(after, user, r, rules) {
      GivingShrinks(s, e, user, rules, r);
      StaysReceivable(s, e, user, rules, r);
    }
    forall row | InvitedOther(after, row, user) ensures InviteReceivable(after, user, row, rules) {
      InviteGivingShrinks(s, e, user, rules, row);
      InviteStays(s, e, user, rules, row);
    }
  }

  lemma WasClearable(s: State, e: Event, user: int, rules: Rules)
    requires GivesAway(e, user, rules) && Step(s, e).Ok? && Clearable(After(s, e), user, rules)
    ensures Clearable(s, user, rules)
  {
    forall r | Owned(s, r, user) && Seen(r, false) ensures Receivable(s, user, r, rules) {
      WasReceivable(s, e, user, rules, r);
    }
    forall row | InvitedOther(s, row, user) ensures InviteReceivable(s, user, row, rules) {
      InviteGivingShrinks(s, e, user, rules, row);
      InviteStays(s, e, user, rules, row);
      if e.TransferInvite? && e.row == row {
        assert ReceivesInvite(s, user, row, e.to, rules);
      }
    }
  }

  /** Transfers that leave nothing in the way start from a clearable state. */
  lemma {:induction false} ClearedWasClearable(s: State, user: int, es: seq<Event>, rules: Rules)
    requires Clearing(s, user, es, rules) && Blockers(Run(s, es), user) == {} && InviteBlockers(Run(s, es), user) == {}
    ensures Clearable(s, user, rules)
    decreases |es|
  {
    if es == [] {
      forall r ensures !(Owned(s, r, user) && Seen(r, false)) {
        assert r !in Blockers(s, user);
      }
      forall row ensures !InvitedOther(s, row, user) {
        assert row !in InviteBlockers(s, user);
      }
    } else {
      ClearedWasClearable(After(s, es[0]), user, es[1..], rules);
      WasClearable(s, es[0], user, rules);
    }
  }

  /** The next transfer of a clearing: tables first, since their ETL items go along. */
  lemma NextTransfer(s: State, user: int, rules: Rules) returns (e: Event)
    requires user in s.users && Clearable(s, user, rules) && Blockers(s, user) != {}
    ensures GivesAway(e, user, rules) && Step(s, e).Ok? && e.Transfer? && e.res in Blockers(s, user)
    ensures e.res.kind == EtlItem ==> forall t :: !Owned(s, Resource(TableMaster, t), user)
  {
    var r := Member(Blockers(s, user));
    if t :| Owned(s, Resource(TableMaster, t), user) {
      r := Resource(TableMaster, t);
    }
    assert Receivable(s, user, r, rules);
    var to :| Receives(s, user, r, to, rules);
    e := Transfer(user, to, r, true);
  }

  lemma TransferShrinks(s: State, e: Event, user: int, rules: Rules)
    requires GivesAway(e, user, rules) && Step(s, e).Ok? && e.Transfer? && e.res in Blockers(s, user)
    ensures Blockers(After(s, e), user) < Blockers(s, user)
    ensures InviteBlockers(After(s, e), user) == InviteBlockers(s, user)
  {
    var after := Blockers(After(s, e), user);
    forall r | r in after ensures r in Blockers(s, user) && r != e.res {
      GivingShrinks(s, e, user, rules, r);
    }
    GivingShrinks(s, e, user, rules, e.res);
  }

  lemma NextInvite(s: State, user: int, rules: Rules) returns (e: Event)
    requires user in s.users && Clearable(s, user, rules) && InviteBlockers(s, user) != {}
    ensures GivesAway(e, user, rules) && Step(s, e).Ok? && e.TransferInvite?
    ensures InviteBlockers(After(s, e), user) < InviteBlockers(s, user) && Blockers(After(s, e), user) == Blockers(s, user)
  {
    var row := Member(InviteBlockers(s, user));
    var to :| ReceivesInvite(s, user, row, to, rules);
    e := TransferInvite(user, to, row, true);
    forall other ensures other in InviteBlockers(After(s, e), user) <==> other in InviteBlockers(s, user) && other != row {
      InviteGivingShrinks(s, e, user, rules, other);
    }
    forall r ensures OwnerOf(After(s, e), r) == OwnerOf(s, r) {
    }
  }

  lemma {:induction false} ClearAll(s: State, user: int, rules: Rules) returns (es: seq<Event>)
    requires user in s.users && Clearable(s, user, rules)
    ensures Clearing(s, user, es, rules)
    ensures Blockers(Run(s, es), user) == {} && InviteBlockers(Run(s, es), user) == {}
    decreases Blockers(s, user), InviteBlockers(s, user)
  {
    if Blockers(s, user) == {} && InviteBlockers(s, user) == {} {
      es := [];
    } else {
      var e: Event;
      if Blockers(s, user) != {} {
        e := NextTransfer(s, user, rules);
        TransferShrinks(s, e, user, rules);
      } else {
        e := NextInvite(s, user, rules);
      }
      StaysClearable(s, e, user, rules);
      GivingShrinks(s, e, user, rules, Resource(Project, 0));
      var rest := ClearAll(After(s, e), user, rules);
      es := [e] + rest;
      assert es[1..] == rest;
    }
  }

  /** Transfers from the user, then a suspension, then the deletion, each accepted, after which
      nothing mentions the user. */
  ghost predicate Offboards(s: State, actor: int, user: int, es: seq<Event>, rules: Rules) {
    var cleared := Run(s, es);
    var suspend, delete := Suspend(actor, user, true, false), DeleteInactive(actor, user, true, false);
    && Clearing(s, user, es, rules)
    && Step(cleared, suspend).Ok? && Step(After(cleared, suspend), delete).Ok?
    && !Mentions(After(After(cleared, suspend), delete), user)
  }

  lemma {:induction false} ClearingKeeps(s: State, user: int, es: seq<Event>, rules: Rules, r: Resource)
    requires Clearing(s, user, es, rules)
    ensures Run(s, es).users == s.users
    ensures !Seen(r, false) ==> (Owned(Run(s, es), r, user) <==> Owned(s, r, user))
    decreases |es|
  {
    if es != [] {
      GivingShrinks(s, es[0], user, rules, r);
      ClearingKeeps(After(s, es[0]), user, es[1..], rules, r);
    }
  }

  lemma SuspendChangesNoOwner(s: State, e: Event, r: Resource)
    requires e.Suspend?
    ensures OwnerOf(After(s, e), r) == OwnerOf(s, r) && After(s, e).participants == s.participants
  {
  }

  lemma OffboardingEnds(s: State, actor: int, user: int, es: seq<Event>, rules: Rules)
    requires actor != user && CanHandle(s, actor, user, true) && Clearing(s, user, es, rules)
    ensures Offboards(s, actor, user, es, rules) <==>
            && Blockers(Run(s, es), user) == {} && InviteBlockers(Run(s, es), user) == {}
            && forall r :: Owned(s, r, user) ==> Seen(r, false)
  {
    var cleared := Run(s, es);
    var suspend, delete := Suspend(actor, user, true, false), DeleteInactive(actor, user, true, false);
    ClearingKeeps(s, user, es, rules, Resource(Project, 0));
    SuspendableExactly(cleared, user);
    if Step(cleared, suspend).Ok? {
      var suspended := After(cleared, suspend);
      forall r ensures OwnerOf(suspended, r) == OwnerOf(cleared, r) {
        SuspendChangesNoOwner(cleared, suspend, r);
      }
      assert Blockers(suspended, user) == Blockers(cleared, user);
      assert InviteBlockers(suspended, user) == InviteBlockers(cleared, user);
      SuspendableExactly(suspended, user);
      DeleteCleansExactly(suspended, delete);
      forall r ensures !Seen(r, false) ==> (Owned(cleared, r, user) <==> Owned(s, r, user)) {
        ClearingKeeps(s, user, es, rules, r);
      }
      if r :| Owned(s, r, user) && !Seen(r, false) {
        assert Owned(suspended, r, user);
      }
    }
  }

  /** An account can be transferred empty, suspended and deleted without a trace exactly if
      everything that blocks it has a receiver (ETL items may go along with a table) and it
      registered neither a system role nor department 0. */
  lemma OffboardingExactly(s: State, actor: int, user: int, rules: Rules)
    requires actor != user && CanHandle(s, actor, user, true)
    ensures (exists es :: Offboards(s, actor, user, es, rules)) <==>
            Clearable(s, user, rules) && forall r :: Owned(s, r, user) ==> Seen(r, false)
  {
    if es :| Offboards(s, actor, user, es, rules) {
      OffboardingEnds(s, actor, user, es, rules);
      ClearedWasClearable(s, user, es, rules);
    }
    if Clearable(s, user, rules) && forall r :: Owned(s, r, user) ==> Seen(r, false) {
      var es := ClearAll(s, user, rules);
      OffboardingEnds(s, actor, user, es, rules);
    }
  }

  // ---------- role changes ----------

  /** The user owns nothing its role and ETL right do not allow. */
  ghost predicate OwnsOnlyFitting(s: State, user: int)
    requires user in s.users
  {
    forall r :: Owned(s, r, user) && Seen(r, false) ==> CanOwn(r.kind, s.users[user].role, s.users[user].etl)
  }

  /** The role change without a guard ends well exactly if the guard would have let it through. */
  lemma SetRoleFitsExactly(s: State, e: Event)
    requires e.SetRole? && Step(s, e).Ok?
    ensures OwnsOnlyFitting(After(s, e), e.user) <==> Changeable(s, e.user, e.role, s.users[e.user].etl, false, false)
  {
    var after := After(s, e);
    forall r ensures OwnerOf(after, r) == OwnerOf(s, r) {
    }
    assert after.users[e.user] == s.users[e.user].(role := e.role);
    ChangeableExactly(s, e.user, e.role, s.users[e.user].etl, false, false);
    assert forall r :: Stays(s, r, e.user, e.role, s.users[e.user].etl, false, false) <==>
        (Owned(after, r, e.user) && Seen(r, false) ==> CanOwn(r.kind, after.users[e.user].role, after.users[e.user].etl));
  }

  /** The guarded change ends well exactly if the scan worked, the user may own ETL items
      afterwards, or has none. */
  lemma ManageFitsExactly(s: State, e: Event)
    requires e.Manage? && Step(s, e).Ok?
    ensures OwnsOnlyFitting(After(s, e), e.user) <==>
            !e.scanFails || e.role == SaDev || (e.etl && e.role != U) || !OwnsEtl(s, e.user)
  {
    var after := After(s, e);
    forall r ensures OwnerOf(after, r) == OwnerOf(s, r) {
    }
    ChangeableExactly(s, e.user, e.role, e.etl && e.role != U, false, e.scanFails);
    forall r | Owned(s, r, e.user) && Seen(r, e.scanFails) ensures CanOwn(r.kind, e.role, e.etl && e.role != U) {
      assert Stays(s, r, e.user, e.role, e.etl && e.role != U, false, e.scanFails);
    }
    if i :| Owned(s, Resource(EtlItem, i), e.user) {
      assert Owned(after, Resource(EtlItem, i), e.user) && Seen(Resource(EtlItem, i), false);
    }
    forall r | Owned(s, r, e.user) && r.kind == EtlItem ensures OwnsEtl(s, e.user) {
      assert r == Resource(EtlItem, r.id);
    }
  }

  /** A concrete unguarded change that leaves an operator as creator of a project. */
  lemma SetRoleIsUnguarded()
    ensures exists s, e: Event, r ::
              && e.SetRole? && Step(s, e).Ok? && Owned(s, r, e.user) && CanOwn(r.kind, s.users[e.user].role, s.users[e.user].etl)
              && !CanOwn(r.kind, After(s, e).users[e.user].role, After(s, e).users[e.user].etl)
  {
    var s := State(map[2 := User(A, false, true)], map[Resource(Project, 5) := 2], map[], map[], map[], map[], map[], map[]);
    var e, r := SetRole(2, O, true), Resource(Project, 5);
    assert Step(s, e).Ok? && Owned(s, r, 2) && CanOwn(r.kind, A, false) && !CanOwn(r.kind, O, false);
    assert After(s, e).users[2] == User(O, false, true);
  }

  // ---------- the service ----------

  class AccountService {
    var state: State

    constructor (initial: State)
      ensures state == initial
    {
      state := initial;
    }

    /** The rows of one kind the guard's SELECT returns. */
    method ListOwned(kind: Kind, user: int, scanFails: bool) returns (ids: seq<int>)
      ensures forall id :: id in ids <==> Owned(state, Resource(kind, id), user) && Seen(Resource(kind, id), scanFails)
    {
      ids := [];
      forall r | Owned(state, r, user) ensures r in Resources(state) {
        OwnedIsListed(state, r);
      }
      var todo := set r | r in Resources(state) && r.kind == kind && Owned(state, r, user) && Seen(r, scanFails);
      while todo != {}
        invariant forall r :: r in todo ==> Owned(state, r, user) && Seen(r, scanFails) && r.kind == kind
        invariant forall id :: id in ids ==> Owned(state, Resource(kind, id), user) && Seen(Resource(kind, id), scanFails)
        invariant forall id :: Owned(state, Resource(kind, id), user) && Seen(Resource(kind, id), scanFails) ==>
                    id in ids || Resource(kind, id) in todo
        decreases |todo|
      {
        var r :| r in todo;
        todo := todo - {r};
        ids := ids + [r.id];
      }
    }

    method ListInvites(user: int) returns (rows: seq<int>)
      ensures forall row :: row in rows <==> InvitedOther(state, row, user)
    {
      rows := [];
      var todo := set row | row in state.participants;
      while todo != {}
        invariant forall row :: row in todo ==> row in state.participants
        invariant forall row :: row in rows <==> row !in todo && InvitedOther(state, row, user)
        decreases |todo|
      {
        var row := Pick(todo);
        if InvitedOther(state, row, user) {
          rows := rows + [row];
        }
        todo := todo - {row};
      }
    }

    method Evaluate(user: int, role: Role, etl: bool, forSuspend: bool, scanFails: bool) returns (p: Payload)
      ensures p.changeable <==> Changeable(state, user, role, etl, forSuspend, scanFails)
    {
      var projects := ListOwned(Project, user, scanFails);
      var roles := ListOwned(CustomRole, user, scanFails);
      var tables := ListOwned(TableMaster, user, scanFails);
      var depts := ListOwned(Dept, user, scanFails);
      var boards := ListOwned(WidgetBoard, user, scanFails);
      var items := ListOwned(EtlItem, user, scanFails);
      var invites := ListInvites(user);
      var lists := map[Project := projects, CustomRole := roles, TableMaster := tables, Dept := depts,
                       EtlItem := items, WidgetBoard := boards];
      p := BuildPayload(lists, invites, role, etl, forSuspend);
      InvitesListed(state, user, invites);
      GuardAgrees(state, user, role, etl, forSuspend, scanFails, lists, invites);
    }

    method SuspendUser(actor: int, user: int, inScope: bool, scanFails: bool) returns (r: Result<()>)
      modifies this
      ensures match Step(old(state), Suspend(actor, user, inScope, scanFails))
              case Ok(after) => r.Ok? && state == after
              case Err(m) => r == Err(m) && state == old(state)
    {
      if !CanHandle(state, actor, user, inScope) {
        return Err(REFUSED);
      }
      var p := Evaluate(user, U, false, true, scanFails);
      if !p.changeable {
        return Err(OWNS);
      }
      state := state.(users := state.users[user := state.users[user].(active := false)]);
      r := Ok(());
    }

    method ActivateUser(actor: int, user: int, inScope: bool) returns (r: Result<()>)
      modifies this
      ensures match Step(old(state), Activate(actor, user, inScope))
              case Ok(after) => r.Ok? && state == after
              case Err(m) => r == Err(m) && state == old(state)
    {
      if !CanHandle(state, actor, user, inScope) {
        return Err(REFUSED);
      }
      state := state.(users := state.users[user := state.users[user].(active := true)]);
      r := Ok(());
    }

    method DeleteInactiveUser(actor: int, user: int, inScope: bool, scanFails: bool) returns (r: Result<()>)
      modifies this
      ensures match Step(old(state), DeleteInactive(actor, user, inScope, scanFails))
              case Ok(after) => r.Ok? && state == after
              case Err(m) => r == Err(m) && state == old(state)
    {
      if actor == user || !CanHandle(state, actor, user, inScope) || state.users[user].active {
        return Err(REFUSED);
      }
      var p := Evaluate(user, U, false, true, scanFails);
      if !p.changeable {
        return Err(OWNS);
      }
      state := state.(sessions := Without(state.sessions, user));
      state := state.(logins := Without(state.logins, user));
      state := state.(notices := Without(state.notices, user));
      state := state.(participants := map row | row in state.participants && state.participants[row].user != user :: state.participants[row]);
      state := state.(codes := WithoutCodes(state.codes, user));
      state := state.(users := state.users - {user});
      r := Ok(());
    }
  }

  lemma InvitesListed(s: State, user: int, invites: seq<int>)
    requires forall row :: row in invites <==> InvitedOther(s, row, user)
    ensures invites == [] <==> forall row :: row in s.participants ==> !InvitedOther(s, row, user)
  {
    if invites != [] {
      var row := invites[0];
      assert row in invites && InvitedOther(s, row, user);
      assert row in s.participants;
    } else {
      assert forall row :: row in s.participants ==> row !in invites;
      assert forall row :: row in s.participants ==> (row in invites <==> InvitedOther(s, row, user));
    }
  }

  /** The lists the guard collects decide the same as the predicate on the tables. */
  lemma GuardAgrees(s: State, user: int, role: Role, etl: bool, forSuspend: bool, scanFails: bool,
                    lists: map<Kind, seq<int>>, invites: seq<int>)
    requires forall k <- SECTIONS :: k in lists
    requires forall k, id :: k in SECTIONS ==> (id in lists[k] <==> Owned(s, Resource(k, id), user) && Seen(Resource(k, id), scanFails))
    requires invites == [] <==> forall row :: row in s.participants ==> !InvitedOther(s, row, user)
    ensures AnyBlocked(lists, invites, role, etl, forSuspend) <==> !Changeable(s, user, role, etl, forSuspend, scanFails)
  {
    ChangeableExactly(s, user, role, etl, forSuspend, scanFails);
    forall r | !Stays(s, r, user, role, etl, forSuspend, scanFails) ensures AnyBlocked(lists, invites, role, etl, forSuspend) {
      assert r == Resource(r.kind, r.id) && r.kind in SECTIONS;
      assert r.id in lists[r.kind];
    }
    forall k | k in SECTIONS && lists[k] != []
      ensures exists id :: Owned(s, Resource(k, id), user) && Seen(Resource(k, id), scanFails)
    {
      assert lists[k][0] in lists[k];
      assert Owned(s, Resource(k, lists[k][0]), user);
    }
    if forall r :: Stays(s, r, user, role, etl, forSuspend, scanFails) {
      forall k | k in SECTIONS && lists[k] != [] ensures !forSuspend && CanOwn(k, role, etl) {
        var id :| Owned(s, Resource(k, id), user) && Seen(Resource(k, id), scanFails);
        assert Stays(s, Resource(k, id), user, role, etl, forSuspend, scanFails);
      }
    }
  }
}
