/** Handing a table over to another user: the list of users offered and the checks the transfer
    itself makes. The list collects candidates with the recursive branch walk and filters them;
    the transfer tests one user with the branch predicate. */
module TransferTargets {
  import opened Wrappers
  import opened OrgTree
  import opened EtlRegistry
  import opened Picking

  datatype User = User(role: Role, dept: int, active: bool)

  datatype Project = Project(active: bool, queryEnabled: bool)

  /** A table_master row: create_user_id and the projects it is mapped to. */
  datatype Table = Table(creator: Option<int>, links: seq<int>)

  /** `members` holds project_ptcpnt_info: for (project, user), whether the permission list of
      the row grants query.execute; `etl` is the ETL registry. */
  datatype State = State(org: Org, users: map<int, User>, projects: map<int, Project>,
                         members: map<(int, int), bool>, tables: map<int, Table>, etl: Registry)

  datatype Actor = Actor(role: Role, dept: int)

  const NO_USER := "user not found or out of scope"
  const NO_TABLE := "not this user's table"
  const REFUSED := "recipient may not take the table over"

  ghost predicate Valid(s: State) {
    forall u :: u in s.users ==> s.users[u].dept in s.org
  }

  // ---------- the checks ----------

  /** _assert_target_exists_or_same_dept */
  ghost predicate InScope(s: State, actor: Actor, user: int) {
    user in s.users && (actor.role == SaDev || InSubtree(s.org, actor.dept, s.users[user].dept))
  }

  /** query.execute in the effective permissions: project active, feature on, granted to the participant. */
  predicate MayExecute(s: State, user: int, project: int) {
    && project in s.projects && s.projects[project].active && s.projects[project].queryEnabled
    && (project, user) in s.members && s.members[(project, user)]
  }

  /** _table_master_recipient_eligible */
  ghost predicate Eligible(s: State, user: int, from: int, links: seq<int>)
    requires user in s.users
  {
    var u := s.users[user];
    || u.role == SaDev
    || ((u.role == Sa || u.role == A) && SameBranch(s.org, from, u.dept))
    || exists i :: 0 <= i < |links| && MayExecute(s, user, links[i])
  }

  predicate Blocked(actor: Actor, u: User) {
    actor.role == Sa && u.role == SaDev
  }

  predicate Owns(s: State, table: int, owner: int) {
    table in s.tables && s.tables[table].creator == Some(owner)
  }

  /** Every check of transfer_resource_ownership for a table_master passes. */
  ghost predicate Accepts(s: State, actor: Actor, table: int, owner: int, to: int) {
    && owner != to
    && InScope(s, actor, owner) && InScope(s, actor, to)
    && !Blocked(actor, s.users[to])
    && s.users[to].active
    && DeptAllowed(s.org, actor.role, actor.dept, s.users[owner].dept)
    && Owns(s, table, owner)
    && Eligible(s, to, s.users[owner].dept, s.tables[table].links)
  }

  // ---------- the list ----------

  ghost predicate ListAllowed(s: State, actor: Actor, table: int, owner: int) {
    InScope(s, actor, owner) && DeptAllowed(s.org, actor.role, actor.dept, s.users[owner].dept) && Owns(s, table, owner)
  }

  /** The union the list starts from: active users of the branch, of the linked projects, and sa_dev. */
  ghost predicate Candidate(s: State, owner: int, links: seq<int>, user: int)
    requires owner in s.users
  {
    && user in s.users && user != owner && s.users[user].active
    && (|| InBranch(s.org, s.users[owner].dept, s.users[user].dept)
        || (exists i :: 0 <= i < |links| && (links[i], user) in s.members)
        || s.users[user].role == SaDev)
  }

  ghost predicate Offered(s: State, actor: Actor, table: int, owner: int, user: int)
    requires ListAllowed(s, actor, table, owner)
  {
    var links := s.tables[table].links;
    && Candidate(s, owner, links, user)
    && InScope(s, actor, user) && !Blocked(actor, s.users[user])
    && Eligible(s, user, s.users[owner].dept, links)
  }

  /** Every active user the filter would pass is in the candidate union. */
  lemma EligibleIsCandidate(s: State, owner: int, links: seq<int>, user: int)
    requires Valid(s) && owner in s.users && user in s.users && user != owner && s.users[user].active
    requires Eligible(s, user, s.users[owner].dept, links)
    ensures Candidate(s, owner, links, user)
  {
    var from, u := s.users[owner].dept, s.users[user];
    if u.role != SaDev && SameBranch(s.org, from, u.dept) {
      BranchIsVertical(s.org, from, u.dept);
    } else if u.role != SaDev {
      var i :| 0 <= i < |links| && MayExecute(s, user, links[i]);
      assert (links[i], user) in s.members;
    }
  }

  /** The offered users are exactly the users the transfer accepts; where the list raises, so
      does every transfer. */
  lemma OfferedAreAccepted(s: State, actor: Actor, table: int, owner: int, user: int)
    requires Valid(s)
    ensures ListAllowed(s, actor, table, owner) ==>
              (Offered(s, actor, table, owner, user) <==> Accepts(s, actor, table, owner, user))
    ensures !ListAllowed(s, actor, table, owner) ==> !Accepts(s, actor, table, owner, user)
  {
    if ListAllowed(s, actor, table, owner) && Accepts(s, actor, table, owner, user) {
      EligibleIsCandidate(s, owner, s.tables[table].links, user);
    }
  }

  lemma RootsOnly(org: Org, zero: bool, path: seq<int>)
    requires forall d :: d in org ==> org[d] == None
    ensures IsPath(org, zero, path) ==> |path| == 1
  {
    if |path| > 1 {
      assert !Edge(org, zero, path[0], path[1]);
    }
  }

  /** Without the participants and sa_dev the union would miss users: two active accounts the
      transfer accepts, neither in the owner's branch. */
  lemma UnionNeedsAllParts()
    ensures exists s, actor, table, owner, a, b ::
              && Valid(s) && IsForest(s.org) && Accepts(s, actor, table, owner, a) && Accepts(s, actor, table, owner, b)
              && !InBranch(s.org, s.users[owner].dept, s.users[a].dept) && s.users[a].role != SaDev
              && !InBranch(s.org, s.users[owner].dept, s.users[b].dept) && s.users[b].role == SaDev
  {
    var org: Org := map[1 := None, 2 := None];
    var s := State(org, map[10 := User(Sa, 1, true), 11 := User(U, 2, true), 12 := User(SaDev, 2, true)],
                   map[5 := Project(true, true)], map[(5, 11) := true], map[7 := Table(Some(10), [5])], map[]);
    assert Ranked(org, map[1 := 0, 2 := 0], 0);
    forall path ensures !PathBetween(org, false, path, 1, 2) && !UpPath(org, path, 2, 1) {
      RootsOnly(org, false, path);
      RootsOnly(org, true, path);
    }
    assert MayExecute(s, 11, s.tables[7].links[0]);
    assert Accepts(s, Actor(SaDev, 1), 7, 10, 11) && Accepts(s, Actor(SaDev, 1), 7, 10, 12);
  }

  // ---------- who receives, read off the state ----------

  /** What is asked of actor, owner, receiver and table whatever right the receiver has. */
  ghost predicate OtherChecks(s: State, actor: Actor, table: int, owner: int, to: int) {
    && owner in s.users && to in s.users && owner != to && s.users[to].active
    && (actor.role == SaDev || (InSubtree(s.org, actor.dept, s.users[owner].dept) && InSubtree(s.org, actor.dept, s.users[to].dept)))
    && !(actor.role == Sa && s.users[to].role == SaDev)
    && DeptAllowed(s.org, actor.role, actor.dept, s.users[owner].dept)
    && table in s.tables && s.tables[table].creator == Some(owner)
  }

  /** A receiver by role: sa_dev, or sa or a of the owner's branch. */
  ghost predicate ByRole(s: State, owner: int, to: int)
    requires owner in s.users && to in s.users
  {
    var u := s.users[to];
    u.role == SaDev || ((u.role == Sa || u.role == A) && SameBranch(s.org, s.users[owner].dept, u.dept))
  }

  /** A receiver by role needs nothing else. Anybody else needs one linked project that is active,
      has the query feature on, and lists the user as a participant with query.execute. */
  lemma AcceptsExactly(s: State, actor: Actor, table: int, owner: int, to: int)
    ensures Accepts(s, actor, table, owner, to) <==>
      && OtherChecks(s, actor, table, owner, to)
      && (|| ByRole(s, owner, to)
          || (exists p :: p in s.tables[table].links && p in s.projects && s.projects[p].active && s.projects[p].queryEnabled
                          && (p, to) in s.members && s.members[(p, to)]))
  {
    if OtherChecks(s, actor, table, owner, to) {
      var links := s.tables[table].links;
      if p :| p in links && MayExecute(s, to, p) {
        var i :| 0 <= i < |links| && links[i] == p;
        assert MayExecute(s, to, links[i]);
      }
    }
  }

  /** The state with query.execute taken from a user in these projects. */
  function GrantsTaken(s: State, user: int, links: seq<int>): State {
    s.(members := map k | k in s.members :: if k.1 == user && k.0 in links then false else s.members[k])
  }

  /** The state with these projects closed, or with their query feature switched off. */
  function SwitchedOff(s: State, links: seq<int>, whole: bool): State {
    s.(projects := map p | p in s.projects ::
      if p !in links then s.projects[p]
      else if whole then s.projects[p].(active := false) else s.projects[p].(queryEnabled := false))
  }

  /** Each of the three ways to take the right away in every linked project removes a user who is
      no receiver by role from the list and makes the transfer refuse. */
  lemma WithoutTheRightNobody(s: State, actor: Actor, table: int, owner: int, to: int, s': State, whole: bool)
    requires Valid(s) && owner in s.users && to in s.users && table in s.tables && !ByRole(s, owner, to)
    requires s' == GrantsTaken(s, to, s.tables[table].links) || s' == SwitchedOff(s, s.tables[table].links, whole)
    ensures !Accepts(s', actor, table, owner, to)
    ensures ListAllowed(s', actor, table, owner) ==> !Offered(s', actor, table, owner, to)
  {
    AcceptsExactly(s', actor, table, owner, to);
    OfferedAreAccepted(s', actor, table, owner, to);
  }

  /** One linked project put in order for the user restores both, given the other checks. */
  lemma OneProjectSuffices(s: State, actor: Actor, table: int, owner: int, to: int, p: int)
    requires Valid(s) && table in s.tables && p in s.tables[table].links
    ensures var s' := s.(projects := s.projects[p := Project(true, true)], members := s.members[(p, to) := true]);
      && (Accepts(s', actor, table, owner, to) <==> OtherChecks(s, actor, table, owner, to))
      && (OtherChecks(s, actor, table, owner, to) ==> ListAllowed(s', actor, table, owner) && Offered(s', actor, table, owner, to))
  {
    var s' := s.(projects := s.projects[p := Project(true, true)], members := s.members[(p, to) := true]);
    AcceptsExactly(s', actor, table, owner, to);
    OfferedAreAccepted(s', actor, table, owner, to);
  }

  const ROOTS: Org := map[1 := None, 2 := None]
  const REFUSED_PARTICIPANT := State(ROOTS, map[10 := User(Sa, 1, true), 11 := User(U, 2, true)],
                                     map[5 := Project(true, true)], map[(5, 11) := false], map[7 := Table(Some(10), [5])], map[])

  /** The counterpart: a participant of an active project who lacks query.execute is a candidate
      and is neither offered nor accepted; with the grant he is both. */
  lemma ParticipantNeedsTheGrant()
    ensures var s, actor := REFUSED_PARTICIPANT, Actor(SaDev, 1);
      && Valid(s) && ListAllowed(s, actor, 7, 10) && Candidate(s, 10, s.tables[7].links, 11)
      && !Offered(s, actor, 7, 10, 11) && !Accepts(s, actor, 7, 10, 11)
      && Accepts(s.(members := map[(5, 11) := true]), actor, 7, 10, 11)
  {
    var s, actor := REFUSED_PARTICIPANT, Actor(SaDev, 1);
    assert s.tables[7].links[0] == 5;
    assert (s.tables[7].links[0], 11) in s.members;
    AcceptsExactly(s, actor, 7, 10, 11);
    OneProjectSuffices(s, actor, 7, 10, 11, 5);
    assert s.projects[5 := Project(true, true)] == s.projects;
    assert s.members[(5, 11) := true] == map[(5, 11) := true];
  }

  /** After the transfer the receiver's ETL items are those it had and the giver's for the
      table; everybody but the two keeps theirs. */
  lemma TransferredItems(g: Registry, owner: int, to: int, table: int, i: int, user: int)
    requires owner != to
    ensures Registered(HandOver(g, owner, to, table), user, i) <==>
            if user == to then Registered(g, to, i) || Linked(g, owner, table, i)
            else Registered(g, user, i) && !Linked(g, owner, table, i)
  {
    HandOverAt(g, owner, to, table, i);
  }

  // ---------- the service ----------

  class TransferService {
    var state: State
    ghost const rank: map<int, nat>
    ghost const bound: nat

    ghost predicate Good()
      reads this
    {
      Valid(state) && Ranked(state.org, rank, bound)
    }

    constructor (initial: State, ghost rank: map<int, nat>, ghost bound: nat)
      requires Valid(initial) && Ranked(initial.org, rank, bound)
      ensures Good() && state == initial
    {
      this.state, this.rank, this.bound := initial, rank, bound;
    }

    method AssertTargetExistsOrSameDept(actor: Actor, user: int) returns (ok: bool)
      requires Good()
      ensures ok == InScope(state, actor, user)
    {
      if user !in state.users {
        return false;
      }
      if actor.role == SaDev {
        return true;
      }
      ok := DptmtIdInManagedSubtree(state.org, actor.dept, state.users[user].dept, rank, bound);
    }

    method TableMasterRecipientEligible(user: int, from: int, links: seq<int>) returns (ok: bool)
      requires Good() && user in state.users
      ensures ok == Eligible(state, user, from, links)
    {
      var u := state.users[user];
      if u.role == SaDev {
        return true;
      }
      if u.role == Sa || u.role == A {
        var same := DptmtSameVerticalBranch(state.org, from, u.dept, rank, bound);
        if same {
          return true;
        }
      }
      var i := 0;
      while i < |links|
        invariant 0 <= i <= |links|
        invariant forall j :: 0 <= j < i ==> !MayExecute(state, user, links[j])
      {
        if MayExecute(state, user, links[i]) {
          return true;
        }
        i := i + 1;
      }
      ok := false;
    }

    method CandidatesFor(owner: int, links: seq<int>) returns (found: set<int>)
      requires Good() && owner in state.users
      ensures forall u :: u in found <==> Candidate(state, owner, links, u)
    {
      var branch := BranchOf(state.org, state.users[owner].dept, rank, bound);
      var nearby := set u | u in state.users && u != owner && state.users[u].active && state.users[u].dept in branch;
      var linked := set u | u in state.users && u != owner && state.users[u].active &&
                            exists i | 0 <= i < |links| :: (links[i], u) in state.members;
      var devs := set u | u in state.users && u != owner && state.users[u].active && state.users[u].role == SaDev;
      found := nearby + linked + devs;
    }

    /** list_table_master_transfer_targets (the display order is not modelled). */
    method ListTargets(actor: Actor, table: int, owner: int) returns (r: Result<seq<int>>)
      requires Good()
      ensures r.Ok? <==> ListAllowed(state, actor, table, owner)
      ensures r.Ok? ==> forall u :: u in r.value <==> Offered(state, actor, table, owner, u)
      ensures r.Ok? ==> forall u :: u in r.value <==> Accepts(state, actor, table, owner, u)
      ensures r.Ok? ==> forall i, j :: 0 <= i < j < |r.value| ==> r.value[i] != r.value[j]
      ensures r.Err? ==> forall u :: !Accepts(state, actor, table, owner, u)
    {
      var ok := AssertTargetExistsOrSameDept(actor, owner);
      if !ok {
        return Err(NO_USER);
      }
      ok := AssertInviteDptmtAllowed(state.org, actor.role, actor.dept, state.users[owner].dept, rank, bound);
      if !ok {
        return Err(NO_USER);
      }
      if !Owns(state, table, owner) {
        return Err(NO_TABLE);
      }
      var links := state.tables[table].links;
      var todo := CandidatesFor(owner, links);
      var out: seq<int> := [];
      while todo != {}
        invariant forall u :: u in out || u in todo ==> Candidate(state, owner, links, u)
        invariant forall u :: u in out ==> u !in todo && Offered(state, actor, table, owner, u)
        invariant forall u :: Offered(state, actor, table, owner, u) ==> u in out || u in todo
        invariant forall i, j :: 0 <= i < j < |out| ==> out[i] != out[j]
        decreases |todo|
      {
        var user := Pick(todo);
        todo := todo - {user};
        ok := AssertTargetExistsOrSameDept(actor, user);
        if ok && !Blocked(actor, state.users[user]) {
          ok := TableMasterRecipientEligible(user, state.users[owner].dept, links);
          if ok {
            out := out + [user];
          }
        }
      }
      forall u ensures Offered(state, actor, table, owner, u) <==> Accepts(state, actor, table, owner, u) {
        OfferedAreAccepted(state, actor, table, owner, u);
      }
      r := Ok(out);
    }

    /** transfer_resource_ownership for a table_master: the table's creator changes, and with it
        the owner of the giver's ETL items for the table; the receiver's ETL right is not asked. */
    method TransferTableMaster(actor: Actor, table: int, owner: int, to: int) returns (r: Result<()>)
      requires Good()
      modifies this`state
      ensures Good()
      ensures r.Ok? <==> Accepts(old(state), actor, table, owner, to)
      ensures r.Err? ==> state == old(state)
      ensures r.Ok? ==>
        && Owns(state, table, to)
        && state == old(state).(tables := old(state).tables[table := old(state).tables[table].(creator := Some(to))],
                                etl := HandOver(old(state).etl, owner, to, table))
    {
      if owner == to {
        return Err(REFUSED);
      }
      var ok := AssertTargetExistsOrSameDept(actor, owner);
      if !ok {
        return Err(NO_USER);
      }
      ok := AssertTargetExistsOrSameDept(actor, to);
      if !ok {
        return Err(NO_USER);
      }
      if Blocked(actor, state.users[to]) || !state.users[to].active {
        return Err(REFUSED);
      }
      ok := AssertInviteDptmtAllowed(state.org, actor.role, actor.dept, state.users[owner].dept, rank, bound);
      if !ok {
        return Err(NO_USER);
      }
      if !Owns(state, table, owner) {
        return Err(NO_TABLE);
      }
      ok := TableMasterRecipientEligible(to, state.users[owner].dept, state.tables[table].links);
      if !ok {
        return Err(REFUSED);
      }
      state := state.(tables := state.tables[table := state.tables[table].(creator := Some(to))]);
      var registry := new RegistryDb(state.etl);
      registry.CascadeTransfer(table, owner, to);
      state := state.(etl := registry.items);
      r := Ok(());
    }
  }
}
