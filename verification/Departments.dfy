/** The department tables as they change: creating, deleting, switching off departments and the
    rows that refer to them. Every call is one transaction; a call that raises changes nothing.
    New department ids come from a sequence. */
module Departments {
  import opened Wrappers
  import opened OrgTree

  /** An account; e-mail addresses are compared in normalised form and stand as numbers. */
  datatype User = User(role: Role, dept: int, email: int)

  /** An e-mail invitation: where to, for whom, in which role, until when, and whether used. */
  datatype Invitation = Invitation(dept: int, email: int, role: Role, until: int, used: bool)

  /** dptmt_info (parents, and the rows with use_yn = N), and the department columns of
      user_info, project_info, pmssn_master (NULL for system rows) and the e-mail invites. */
  datatype State = State(org: Org, off: set<int>, users: map<int, User>, projects: map<int, int>,
                         roles: map<int, Option<int>>, invites: map<int, Invitation>, nextDept: int)

  datatype Event =
    | CreateDept(actor: int, parent: Option<int>)
    | DeleteDept(actor: int, dept: int)
    | SetUse(actor: int, dept: int, use: bool, moveTo: Option<int>)
    | Invite(actor: int, target: Option<int>, code: int, email: int, role: Role, now: int)
    | Signup(code: int, user: int, email: int, now: int, valid: bool) // valid: password, and the invited project if any
    | CreateOrg(user: int, email: int)
    | MoveUser(actor: int, user: int, dept: int)
    | CreateProject(actor: int, project: int)
    | PurgeProject(project: int)
    | CreateRole(actor: int, id: int)
    | DeleteRole(id: int)
    | DropInvite(code: int)
    | RemoveUser(user: int)

  const NO_RIGHT := "not allowed"
  const NOT_FOUND := "department not found"
  const IN_USE := "rows refer to this department"

  // ---------- guards ----------

  const DAY := 86400
  const VALID_DAYS := 7

  /** Roles an actor may invite to. */
  predicate MayInviteAs(actor: Role, role: Role) {
    match actor
    case SaDev => role == Sa || role == A || role == O || role == U
    case Sa => role == Sa || role == A || role == O || role == U
    case A => role == A || role == O || role == U
    case _ => false
  }

  predicate HasAccount(s: State, email: int) {
    exists u | u in s.users :: s.users[u].email == email
  }

  /** _assert_actor_can_manage_department */
  ghost predicate CanManage(org: Org, actor: User, dept: int) {
    && dept != 0 && dept in org
    && (actor.role == SaDev || (actor.role == Sa && dept != actor.dept && InSubtree(org, actor.dept, dept)))
  }

  ghost predicate CanCreateUnder(org: Org, actor: User, parent: Option<int>) {
    && (actor.role == SaDev || (actor.role == Sa && parent.Some? && InSubtree(org, actor.dept, parent.value)))
    && (parent.Some? ==> parent.value != 0 && parent.value in org)
  }

  /** _assert_department_clear_for_invalidate_or_remove */
  predicate Clear(s: State, dept: int) {
    dept == 0 ||
    (&& (forall d | d in s.org :: s.org[d] != Some(dept))
     && (forall u | u in s.users :: s.users[u].dept != dept)
     && (forall i | i in s.invites :: s.invites[i].dept != dept)
     && (forall p | p in s.projects :: s.projects[p] != dept)
     && (forall r | r in s.roles :: s.roles[r] != Some(dept)))
  }

  ghost predicate MoveAllowed(s: State, actor: User, target: int, dept: int) {
    && target in s.users && dept in s.org && dept !in s.off
    && (if actor.role == SaDev then dept != 0
        else Reaches(s.org, true, actor.dept, dept) && InSubtree(s.org, actor.dept, s.users[target].dept))
  }

  function Moved(users: map<int, User>, from: int, to: int): map<int, User> {
    map u | u in users :: if users[u].dept == from then users[u].(dept := to) else users[u]
  }

  ghost predicate CanMoveAll(s: State, actor: User, from: int, to: int) {
    from != to && DeptAllowed(s.org, actor.role, actor.dept, to) && to in s.org && to !in s.off
  }

  // ---------- one call ----------

  ghost function Step(s: State, e: Event): Result<State> {
    match e
    case CreateDept(actor, parent) =>
      if actor !in s.users || !CanCreateUnder(s.org, s.users[actor], parent) then Err(NO_RIGHT)
      else Ok(s.(org := s.org[s.nextDept := parent], nextDept := s.nextDept + 1))
    case DeleteDept(actor, dept) =>
      if actor !in s.users || !CanManage(s.org, s.users[actor], dept) then Err(NO_RIGHT)
      else if !Clear(s, dept) then Err(IN_USE)
      else Ok(s.(org := s.org - {dept}, off := s.off - {dept}))
    case SetUse(actor, dept, use, moveTo) =>
      if actor !in s.users || !CanManage(s.org, s.users[actor], dept) || (use && moveTo.Some?) then Err(NO_RIGHT)
      else if use then Ok(s.(off := s.off - {dept}))
      else if moveTo.Some? && !CanMoveAll(s, s.users[actor], dept, moveTo.value) then Err(NO_RIGHT)
      else
        var moved := if moveTo.Some? then s.(users := Moved(s.users, dept, moveTo.value)) else s;
        if Clear(moved, dept) then Ok(moved.(off := s.off + {dept})) else Err(IN_USE)
    case Invite(actor, target, code, email, role, now) =>
      if actor !in s.users || code in s.invites || !MayInviteAs(s.users[actor].role, role) || HasAccount(s, email) then Err(NO_RIGHT)
      else
        var a := s.users[actor];
        var dept := if target.Some? then target.value else a.dept;
        if (dept == 0 && a.role != SaDev) || !DeptAllowed(s.org, a.role, a.dept, dept) then Err(NO_RIGHT)
        else if dept !in s.org then Err(NOT_FOUND)
        else Ok(s.(invites := s.invites[code := Invitation(dept, email, role, now + VALID_DAYS * DAY, false)]))
    case Signup(code, user, email, now, valid) =>
      if code !in s.invites || s.invites[code].dept !in s.org || user in s.users then Err(NOT_FOUND)
      else
        var i := s.invites[code];
        if i.used || i.until < now || i.email != email || HasAccount(s, email) || !valid then Err(NO_RIGHT)
        else Ok(s.(users := s.users[user := User(i.role, i.dept, email)], invites := s.invites[code := i.(used := true)]))
    case CreateOrg(user, email) =>
      if user in s.users || HasAccount(s, email) then Err(NO_RIGHT)
      else Ok(s.(org := s.org[s.nextDept := None], users := s.users[user := User(Sa, s.nextDept, email)], nextDept := s.nextDept + 1))
    case MoveUser(actor, user, dept) =>
      if actor !in s.users || user !in s.users || !MoveAllowed(s, s.users[actor], user, dept) then Err(NO_RIGHT)
      else Ok(s.(users := s.users[user := s.users[user].(dept := dept)]))
    case CreateProject(actor, project) =>
      if actor !in s.users || project in s.projects then Err(NO_RIGHT)
      else Ok(s.(projects := s.projects[project := s.users[actor].dept]))
    case PurgeProject(project) => Ok(s.(projects := s.projects - {project}))
    case CreateRole(actor, id) =>
      if actor !in s.users || id in s.roles then Err(NO_RIGHT)
      else Ok(s.(roles := s.roles[id := Some(s.users[actor].dept)]))
    case DeleteRole(id) => Ok(s.(roles := s.roles - {id}))
    case DropInvite(code) => Ok(s.(invites := s.invites - {code}))
    case RemoveUser(user) => Ok(s.(users := s.users - {user}))
  }

  ghost function After(s: State, e: Event): State {
    if Step(s, e).Ok? then Step(s, e).value else s
  }

  ghost function Run(s: State, es: seq<Event>): State
    decreases |es|
  {
    if es == [] then s else Run(After(s, es[0]), es[1..])
  }

  // ---------- what every run keeps ----------

  ghost predicate ParentsExist(org: Org) {
    forall p, d :: Edge(org, true, p, d) ==> p in org
  }

  /** No user, project, custom role, invite or child department points at a missing department. */
  ghost predicate NothingDangles(s: State) {
    && ParentsExist(s.org)
    && (forall u :: u in s.users ==> s.users[u].dept in s.org)
    && (forall p :: p in s.projects ==> s.projects[p] in s.org)
    && (forall r, d :: r in s.roles && s.roles[r] == Some(d) ==> d in s.org)
    && (forall i :: i in s.invites ==> s.invites[i].dept in s.org)
  }

  ghost predicate Inv(s: State) {
    NothingDangles(s) && IsForest(s.org) && forall d :: d in s.org ==> d < s.nextDept
  }

  lemma NewLeafRanked(org: Org, id: int, parent: Option<int>, rank: map<int, nat>, bound: nat)
    requires Ranked(org, rank, bound) && ParentsExist(org) && id !in org && (parent.Some? ==> parent.value in org)
    ensures Ranked(org[id := parent], rank[id := bound + 1], bound + 1)
  {
    var org', rank' := org[id := parent], rank[id := bound + 1];
    forall p, c | Edge(org', true, p, c) && p in org' ensures rank'[p] < rank'[c] {
      if c == id {
        InRank(org, rank, bound, p);
      } else {
        assert Edge(org, true, p, c);
        InRank(org, rank, bound, c);
      }
    }
    forall d | d in org' ensures d in rank' && rank'[d] <= bound + 1 {
      if d != id {
        InRank(org, rank, bound, d);
      }
    }
  }

  lemma NewLeaf(org: Org, id: int, parent: Option<int>)
    requires IsForest(org) && ParentsExist(org) && id !in org && (parent.Some? ==> parent.value in org)
    ensures IsForest(org[id := parent]) && ParentsExist(org[id := parent])
  {
    var rank, bound :| Ranked(org, rank, bound);
    NewLeafRanked(org, id, parent, rank, bound);
    var org' := org[id := parent];
    forall p, d | Edge(org', true, p, d) ensures p in org' {
      if d != id {
        assert Edge(org, true, p, d);
      }
    }
  }

  lemma LeafGone(org: Org, dept: int)
    requires IsForest(org) && ParentsExist(org) && forall d :: d in org ==> org[d] != Some(dept)
    ensures IsForest(org - {dept}) && ParentsExist(org - {dept})
  {
    var rank, bound :| Ranked(org, rank, bound);
    var org' := org - {dept};
    forall p, c | Edge(org', true, p, c) ensures Edge(org, true, p, c) && p != dept {
    }
    forall d | d in org' ensures d in rank && rank[d] <= bound {
      InRank(org, rank, bound, d);
    }
    assert Ranked(org', rank, bound);
  }

  lemma CreateKeeps(s: State, e: Event)
    requires Inv(s) && (e.CreateDept? || e.CreateOrg?)
    ensures Inv(After(s, e))
  {
    if Step(s, e).Ok? {
      NewLeaf(s.org, s.nextDept, if e.CreateDept? then e.parent else None);
    }
  }

  lemma DeleteKeeps(s: State, e: Event)
    requires Inv(s) && e.DeleteDept?
    ensures Inv(After(s, e))
  {
    if Step(s, e).Ok? {
      LeafGone(s.org, e.dept);
    }
  }

  /** Every call keeps the parents a forest and every reference alive. */
  lemma StepKeeps(s: State, e: Event)
    requires Inv(s)
    ensures Inv(After(s, e))
  {
    if e.CreateDept? || e.CreateOrg? {
      CreateKeeps(s, e);
    } else if e.DeleteDept? {
      DeleteKeeps(s, e);
    } else {
      assert After(s, e).org == s.org && After(s, e).nextDept == s.nextDept;
    }
  }

  /** In every reachable state the recursive walks terminate and nothing dangles. */
  lemma {:induction false} RunKeeps(s: State, es: seq<Event>)
    requires Inv(s)
    ensures Inv(Run(s, es))
    decreases |es|
  {
    if es != [] {
      StepKeeps(s, es[0]);
      RunKeeps(After(s, es[0]), es[1..]);
    }
  }

  ghost predicate SameParents(before: State, after: State) {
    && before.nextDept <= after.nextDept
    && forall d :: d in after.org && d < before.nextDept ==> d in before.org && before.org[d] == after.org[d]
  }

  /** A department's parent never changes and a deleted department never comes back. */
  lemma {:induction false} ParentsAreFixed(s: State, es: seq<Event>)
    ensures SameParents(s, Run(s, es))
    decreases |es|
  {
    if es != [] {
      assert SameParents(s, After(s, es[0]));
      ParentsAreFixed(After(s, es[0]), es[1..]);
    }
  }

  // ---------- what a delete or a create changes ----------

  lemma PathKept(org: Org, bigger: Org, zero: bool, path: seq<int>, a: int, b: int)
    requires forall p, c :: Edge(org, zero, p, c) ==> Edge(bigger, zero, p, c)
    requires forall d :: d in org ==> d in bigger
    requires PathBetween(org, zero, path, a, b)
    ensures PathBetween(bigger, zero, path, a, b)
  {
    forall i | 0 <= i < |path| - 1 ensures Edge(bigger, zero, path[i], path[i + 1]) {
      assert Edge(org, zero, path[i], path[i + 1]);
    }
  }

  lemma PathAvoids(org: Org, leaf: int, zero: bool, path: seq<int>, a: int, b: int)
    requires forall d :: d in org ==> org[d] != Some(leaf)
    requires PathBetween(org, zero, path, a, b) && b != leaf
    ensures PathBetween(org - {leaf}, zero, path, a, b)
  {
    var org' := org - {leaf};
    forall i | 0 <= i < |path| - 1 ensures Edge(org', zero, path[i], path[i + 1]) && path[i] != leaf {
      assert Edge(org, zero, path[i], path[i + 1]);
      assert i + 1 < |path| - 1 ==> Edge(org, zero, path[i + 1], path[i + 2]);
    }
  }

  /** Deleting a department nothing refers to changes no walk between the others. */
  lemma DeleteChangesNoWalk(s: State, e: Event, zero: bool, a: int, b: int)
    requires e.DeleteDept? && Step(s, e).Ok? && a != e.dept && b != e.dept
    ensures Reaches(After(s, e).org, zero, a, b) <==> Reaches(s.org, zero, a, b)
  {
    var org' := After(s, e).org;
    if Reaches(s.org, zero, a, b) {
      var path :| PathBetween(s.org, zero, path, a, b);
      PathAvoids(s.org, e.dept, zero, path, a, b);
    }
    if Reaches(org', zero, a, b) {
      var path :| PathBetween(org', zero, path, a, b);
      PathKept(org', s.org, zero, path, a, b);
    }
  }

  /** A successful delete removes exactly that row and leaves no row that names it. */
  lemma DeleteIsClean(s: State, e: Event)
    requires Inv(s) && e.DeleteDept? && Step(s, e).Ok?
    ensures After(s, e).org.Keys == s.org.Keys - {e.dept} && e.dept in s.org
    ensures After(s, e).users == s.users && forall u :: u in s.users ==> s.users[u].dept != e.dept
    ensures Inv(After(s, e)) && forall es :: e.dept !in Run(After(s, e), es).org
  {
    StepKeeps(s, e);
    forall es ensures e.dept !in Run(After(s, e), es).org {
      ParentsAreFixed(After(s, e), es);
    }
  }

  /** A department switched off can be deleted at once by the same actor; its users are then
      in the target of the move, everybody else where they were. */
  lemma SwitchOffThenDelete(s: State, e: Event)
    requires Inv(s) && e.SetUse? && !e.use && Step(s, e).Ok?
    ensures var gone := Step(After(s, e), DeleteDept(e.actor, e.dept));
            && gone.Ok? && e.dept !in gone.value.org && gone.value.users.Keys == s.users.Keys
            && (forall u :: u in s.users && s.users[u].dept != e.dept ==> gone.value.users[u] == s.users[u])
            && (forall u :: u in s.users && s.users[u].dept == e.dept ==>
                  e.moveTo.Some? && gone.value.users[u] == s.users[u].(dept := e.moveTo.value))
            && (e.moveTo.Some? ==> e.moveTo.value in gone.value.org && e.moveTo.value !in gone.value.off)
  {
    var after := After(s, e);
    assert after.org == s.org && Clear(after, e.dept);
    assert CanManage(after.org, after.users[e.actor], e.dept);
  }

  /** The invitation is never withdrawn during the run. */
  ghost predicate KeepsInvite(es: seq<Event>, code: int) {
    forall e :: e in es ==> e != DropInvite(code)
  }

  /** Some signup of the run uses the code. */
  ghost predicate Uses(s: State, es: seq<Event>, code: int)
    decreases |es|
  {
    es != [] && ((es[0].Signup? && es[0].code == code && Step(s, es[0]).Ok?) || Uses(After(s, es[0]), es[1..], code))
  }

  lemma InviteStep(s: State, e: Event, code: int)
    requires code in s.invites && e != DropInvite(code)
    ensures var after := After(s, e);
            && code in after.invites
            && after.invites[code] == s.invites[code].(used := s.invites[code].used || (e.Signup? && e.code == code && Step(s, e).Ok?))
  {
    if e.Invite? {
      assert e.code == code ==> Step(s, e).Err?;
    }
  }

  /** An invitation that is not withdrawn stays as it was sent, and is used exactly once some
      signup with its code went through. */
  lemma {:induction false} UsedExactly(s: State, es: seq<Event>, code: int)
    requires code in s.invites && KeepsInvite(es, code)
    ensures var later := Run(s, es);
            code in later.invites && later.invites[code] == s.invites[code].(used := s.invites[code].used || Uses(s, es, code))
    decreases |es|
  {
    if es != [] {
      assert es[0] in es && es[0] != DropInvite(code);
      forall e | e in es[1..] ensures e != DropInvite(code) {
        assert e in es;
      }
      InviteStep(s, es[0], code);
      UsedExactly(After(s, es[0]), es[1..], code);
    }
  }

  /** Whatever happens between an invitation and its use, a signup with the code goes through
      exactly if it is the first, in time, at the invited address, which has no account yet (and
      the user id and password are good); it opens the account in the department of the
      invitation, which still exists. */
  lemma InviteLeadsToDept(s: State, invite: Event, es: seq<Event>, signup: Event)
    requires Inv(s) && invite.Invite? && Step(s, invite).Ok? && KeepsInvite(es, invite.code)
    requires signup.Signup? && signup.code == invite.code
    ensures var dept := if invite.target.Some? then invite.target.value else s.users[invite.actor].dept;
            var later := Run(After(s, invite), es);
            && dept in later.org
            && (Step(later, signup).Ok? <==>
                && !Uses(After(s, invite), es, invite.code) && signup.now <= invite.now + VALID_DAYS * DAY
                && signup.email == invite.email && !HasAccount(later, invite.email)
                && signup.user !in later.users && signup.valid)
            && (Step(later, signup).Ok? ==> After(later, signup).users[signup.user] == User(invite.role, dept, invite.email))
  {
    StepKeeps(s, invite);
    RunKeeps(After(s, invite), es);
    UsedExactly(After(s, invite), es, invite.code);
  }

  // ---------- the service ----------

  class OrgService {
    var state: State
    ghost var rank: map<int, nat>
    ghost var bound: nat

    ghost predicate Valid()
      reads this
    {
      Inv(state) && Ranked(state.org, rank, bound)
    }

    constructor (initial: State, ghost rank: map<int, nat>, ghost bound: nat)
      requires Inv(initial) && Ranked(initial.org, rank, bound)
      ensures Valid() && state == initial
    {
      this.state, this.rank, this.bound := initial, rank, bound;
    }

    method AssertActorCanManage(actor: User, dept: int) returns (ok: bool)
      requires Valid()
      ensures ok == CanManage(state.org, actor, dept)
    {
      if dept == 0 || dept !in state.org {
        return false;
      }
      if actor.role == SaDev {
        return true;
      }
      if actor.role != Sa || dept == actor.dept {
        return false;
      }
      ok := DptmtIdInManagedSubtree(state.org, actor.dept, dept, rank, bound);
    }

    method CreateDepartment(actor: int, parent: Option<int>) returns (r: Result<int>)
      requires Valid() && actor in state.users
      modifies this
      ensures Valid()
      ensures Step(old(state), CreateDept(actor, parent)) == if r.Ok? then Ok(state) else Err(NO_RIGHT)
      ensures r.Ok? ==> r.value == old(state.nextDept) && r.value !in old(state.org) && r.value in state.org
      ensures r.Err? ==> state == old(state)
    {
      var user := state.users[actor];
      if user.role != SaDev && user.role != Sa {
        return Err(NO_RIGHT);
      }
      if user.role == Sa {
        if parent.None? {
          return Err(NO_RIGHT);
        }
        var mine := DptmtIdInManagedSubtree(state.org, user.dept, parent.value, rank, bound);
        if !mine {
          return Err(NO_RIGHT);
        }
      }
      if parent.Some? && (parent.value == 0 || parent.value !in state.org) {
        return Err(NO_RIGHT);
      }
      StepKeeps(state, CreateDept(actor, parent));
      NewLeafRanked(state.org, state.nextDept, parent, rank, bound);
      r := Ok(state.nextDept);
      rank, bound := rank[state.nextDept := bound + 1], bound + 1;
      state := state.(org := state.org[state.nextDept := parent], nextDept := state.nextDept + 1);
    }

    method DeleteDepartment(actor: int, dept: int) returns (r: Result<()>)
      requires Valid() && actor in state.users
      modifies this`state
      ensures Valid()
      ensures match Step(old(state), DeleteDept(actor, dept))
              case Ok(after) => r.Ok? && state == after
              case Err(m) => r == Err(m) && state == old(state)
    {
      var ok := AssertActorCanManage(state.users[actor], dept);
      if !ok {
        return Err(NO_RIGHT);
      }
      if !Clear(state, dept) {
        return Err(IN_USE);
      }
      StepKeeps(state, DeleteDept(actor, dept));
      RankedWithout(state.org, dept, rank, bound);
      state := state.(org := state.org - {dept}, off := state.off - {dept});
      r := Ok(());
    }

    method UpdateDepartmentUse(actor: int, dept: int, use: bool, moveTo: Option<int>) returns (r: Result<()>)
      requires Valid() && actor in state.users
      modifies this`state
      ensures Valid()
      ensures match Step(old(state), SetUse(actor, dept, use, moveTo))
              case Ok(after) => r.Ok? && state == after
              case Err(m) => r == Err(m) && state == old(state)
    {
      StepKeeps(state, SetUse(actor, dept, use, moveTo));
      if use && moveTo.Some? {
        return Err(NO_RIGHT);
      }
      var user := state.users[actor];
      var ok := AssertActorCanManage(user, dept);
      if !ok {
        return Err(NO_RIGHT);
      }
      var before := state;
      if !use {
        if moveTo.Some? {
          ok := AssertInviteDptmtAllowed(state.org, user.role, user.dept, moveTo.value, rank, bound);
          if dept == moveTo.value || !ok || moveTo.value !in state.org || moveTo.value in state.off {
            return Err(NO_RIGHT);
          }
          state := state.(users := Moved(state.users, dept, moveTo.value));
        }
        if !Clear(state, dept) {
          state := before; // rolled back
          return Err(IN_USE);
        }
      }
      state := state.(off := if use then state.off - {dept} else state.off + {dept});
      r := Ok(());
    }
  }

  lemma RankedWithout(org: Org, dept: int, rank: map<int, nat>, bound: nat)
    requires Ranked(org, rank, bound)
    ensures Ranked(org - {dept}, rank, bound)
  {
    forall p, c | Edge(org - {dept}, true, p, c) && p in org - {dept} ensures rank[p] < rank[c] {
      assert Edge(org, true, p, c);
    }
    forall d | d in org - {dept} ensures d in rank && rank[d] <= bound {
      InRank(org, rank, bound, d);
    }
  }
}
