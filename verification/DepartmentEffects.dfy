/** The calls on departments seen from what they touch: which go through, read off the rows, and
    what any call does to one department, one account, one project, one role, one invitation. */
module DepartmentEffects {
  import opened Wrappers
  import opened OrgTree
  import opened Departments

  /** Who may invite to a role. */
  function Inviters(role: Role): set<Role> {
    match role
    case Sa => {SaDev, Sa}
    case A => {SaDev, Sa, A}
    case O => {SaDev, Sa, A}
    case U => {SaDev, Sa, A}
    case _ => {}
  }

  lemma InvitedBy(actor: Role, role: Role)
    ensures MayInviteAs(actor, role) <==> actor in Inviters(role)
  {
  }

  ghost predicate NewAddress(s: State, email: int) {
    forall u :: u in s.users ==> s.users[u].email != email
  }

  lemma NewAddressExactly(s: State, email: int)
    ensures HasAccount(s, email) <==> !NewAddress(s, email)
  {
  }

  /** No child department, account, invitation, project or custom role names the department. */
  ghost predicate Unnamed(s: State, dept: int) {
    && (forall d :: d in s.org ==> s.org[d] != Some(dept))
    && (forall u :: u in s.users ==> s.users[u].dept != dept)
    && (forall i :: i in s.invites ==> s.invites[i].dept != dept)
    && (forall p :: p in s.projects ==> s.projects[p] != dept)
    && (forall r :: r in s.roles ==> s.roles[r] != Some(dept))
  }

  /** An administrator of the department: sa_dev, or sa of a department properly above it. */
  ghost predicate Manages(s: State, actor: int, dept: int) {
    && actor in s.users && dept != 0 && dept in s.org
    && (s.users[actor].role == SaDev
        || (s.users[actor].role == Sa && dept != s.users[actor].dept && InSubtree(s.org, s.users[actor].dept, dept)))
  }

  lemma DepartmentCallsGoThrough(s: State, e: Event)
    ensures e.CreateDept? ==>
              (Step(s, e).Ok? <==>
                && e.actor in s.users
                && (s.users[e.actor].role == SaDev
                    || (s.users[e.actor].role == Sa && e.parent.Some? && InSubtree(s.org, s.users[e.actor].dept, e.parent.value)))
                && (e.parent.Some? ==> e.parent.value in s.org && e.parent.value != 0))
    ensures e.DeleteDept? ==> (Step(s, e).Ok? <==> Manages(s, e.actor, e.dept) && Unnamed(s, e.dept))
    ensures e.SetUse? && e.use ==> (Step(s, e).Ok? <==> Manages(s, e.actor, e.dept) && e.moveTo.None?)
    ensures e.SetUse? && !e.use && e.moveTo.None? ==> (Step(s, e).Ok? <==> Manages(s, e.actor, e.dept) && Unnamed(s, e.dept))
  {
  }

  /** With a target the accounts of the department are no obstacle, everything else is; the
      target must be in use and, but for sa_dev, in the administrator's part of the tree. */
  lemma MovingOutGoesThrough(s: State, e: Event)
    requires e.SetUse? && !e.use && e.moveTo.Some?
    ensures Step(s, e).Ok? <==>
      && Manages(s, e.actor, e.dept) && Unnamed(s.(users := map[]), e.dept)
      && e.moveTo.value != e.dept && e.moveTo.value in s.org && e.moveTo.value !in s.off
      && DeptAllowed(s.org, s.users[e.actor].role, s.users[e.actor].dept, e.moveTo.value)
  {
    var moved := s.(users := Moved(s.users, e.dept, e.moveTo.value));
    assert e.moveTo.value != e.dept ==> forall u :: u in moved.users ==> moved.users[u].dept != e.dept;
  }

  lemma AccountCallsGoThrough(s: State, e: Event)
    ensures e.Invite? ==>
              (Step(s, e).Ok? <==>
                && e.actor in s.users && e.code !in s.invites && s.users[e.actor].role in Inviters(e.role) && NewAddress(s, e.email)
                && var a := s.users[e.actor]; var dept := if e.target.Some? then e.target.value else a.dept;
                   dept in s.org && (dept == 0 ==> a.role == SaDev) && DeptAllowed(s.org, a.role, a.dept, dept))
    ensures e.CreateOrg? ==> (Step(s, e).Ok? <==> e.user !in s.users && NewAddress(s, e.email))
    ensures e.MoveUser? ==>
              (Step(s, e).Ok? <==>
                && e.actor in s.users && e.user in s.users && e.dept in s.org && e.dept !in s.off
                && var a := s.users[e.actor];
                   if a.role == SaDev then e.dept != 0
                   else Reaches(s.org, true, a.dept, e.dept) && InSubtree(s.org, a.dept, s.users[e.user].dept))
    ensures e.CreateProject? ==> (Step(s, e).Ok? <==> e.actor in s.users && e.project !in s.projects)
    ensures e.CreateRole? ==> (Step(s, e).Ok? <==> e.actor in s.users && e.id !in s.roles)
    ensures e.PurgeProject? || e.DeleteRole? || e.DropInvite? || e.RemoveUser? ==> Step(s, e).Ok?
  {
    if e.Invite? {
      NewAddressExactly(s, e.email);
      if e.actor in s.users { InvitedBy(s.users[e.actor].role, e.role); }
    }
    if e.CreateOrg? { NewAddressExactly(s, e.email); }
  }

  // ---------- what a call leaves ----------

  /** One department through any call. */
  lemma DepartmentAfter(s: State, e: Event, d: int)
    requires Step(s, e).Ok? && s.nextDept !in s.org
    ensures var after := After(s, e); var made := (e.CreateDept? || e.CreateOrg?) && d == s.nextDept;
      && (d in after.org <==> made || (d in s.org && !(e.DeleteDept? && e.dept == d)))
      && (d in after.org ==> after.org[d] == if made then (if e.CreateDept? then e.parent else None) else s.org[d])
      && (d in after.off <==>
            if (e.SetUse? || e.DeleteDept?) && e.dept == d then e.SetUse? && !e.use else d in s.off)
      && after.nextDept == s.nextDept + (if e.CreateDept? || e.CreateOrg? then 1 else 0)
  {
  }

  /** One account through any call. */
  lemma UserAfter(s: State, e: Event, u: int)
    requires Step(s, e).Ok?
    ensures var after := After(s, e).users;
      && (u in after <==> ((e.Signup? || e.CreateOrg?) && e.user == u) || (u in s.users && !(e.RemoveUser? && e.user == u)))
      && (u in after && u in s.users ==>
            var dept :=
              if e.MoveUser? && e.user == u then e.dept
              else if e.SetUse? && e.moveTo.Some? && s.users[u].dept == e.dept then e.moveTo.value
              else s.users[u].dept;
            after[u] == User(s.users[u].role, dept, s.users[u].email))
      && (u in after && u !in s.users ==>
            after[u] == if e.CreateOrg? then User(Sa, s.nextDept, e.email) else User(s.invites[e.code].role, s.invites[e.code].dept, e.email))
  {
  }

  /** One project and one custom role through any call: they belong to the department their
      creator is in. */
  lemma OwnedRowAfter(s: State, e: Event, k: int)
    requires Step(s, e).Ok?
    ensures var after := After(s, e);
      && (k in after.projects <==> (e.CreateProject? && e.project == k) || (k in s.projects && !(e.PurgeProject? && e.project == k)))
      && (k in after.projects ==> after.projects[k] == if k in s.projects then s.projects[k] else s.users[e.actor].dept)
      && (k in after.roles <==> (e.CreateRole? && e.id == k) || (k in s.roles && !(e.DeleteRole? && e.id == k)))
      && (k in after.roles ==> after.roles[k] == if k in s.roles then s.roles[k] else Some(s.users[e.actor].dept))
  {
  }

  /** One invitation through any call; a new one is for seven days. */
  lemma InvitationAfter(s: State, e: Event, code: int)
    requires Step(s, e).Ok?
    ensures var after := After(s, e).invites;
      && (code in after <==> (e.Invite? && e.code == code) || (code in s.invites && e != DropInvite(code)))
      && (code in after && code in s.invites ==>
            after[code] == s.invites[code].(used := s.invites[code].used || (e.Signup? && e.code == code)))
      && (code in after && code !in s.invites ==>
            var dept := if e.target.Some? then e.target.value else s.users[e.actor].dept;
            after[code] == Invitation(dept, e.email, e.role, e.now + 7 * 86400, false))
  {
  }

  // ---------- every reference, table by table ----------

  /** In every reachable state each row of each table names a department that exists. */
  lemma ReferencesLive(s: State, es: seq<Event>, k: int)
    requires Inv(s)
    ensures var later := Run(s, es);
      && (k in later.users ==> later.users[k].dept in later.org)
      && (k in later.projects ==> later.projects[k] in later.org)
      && (k in later.roles && later.roles[k].Some? ==> later.roles[k].value in later.org)
      && (k in later.invites ==> later.invites[k].dept in later.org)
      && (k in later.org && later.org[k].Some? ==> later.org[k].value in later.org)
      && (k in later.org ==> k < later.nextDept)
  {
    RunKeeps(s, es);
    var later := Run(s, es);
    assert k in later.org && later.org[k].Some? ==> Edge(later.org, true, later.org[k].value, k);
    if k in later.roles && later.roles[k].Some? {
      var d := later.roles[k].value;
      assert later.roles[k] == Some(d) && NothingDangles(later);
      assert d in later.org;
    }
  }

  /** A department that is there after a run and was numbered before it was there before it, with
      the same parent. */
  lemma ParentStays(s: State, es: seq<Event>, d: int)
    requires d in Run(s, es).org && d < s.nextDept
    ensures d in s.org && Run(s, es).org[d] == s.org[d]
  {
    ParentsAreFixed(s, es);
  }
}
