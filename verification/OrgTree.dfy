/** The department tree: parent links, the recursive queries that walk it down and up, and the
    predicates the services use for "my subtree" and "same vertical branch". Department 0 is a
    seed row that the predicates leave out. */
module OrgTree {
  import opened Picking
  import opened Wrappers

  datatype Role = SaDev | Sa | A | O | U | Unknown

  /** dptmt_info: each department's parent. */
  type Org = map<int, Option<int>>

  // ---------- paths ----------

  /** child is joined to parent by the recursive term; `zero` says whether it lets 0 in. */
  predicate Edge(org: Org, zero: bool, parent: int, child: int) {
    child in org && org[child] == Some(parent) && (zero || child != 0)
  }

  ghost predicate IsPath(org: Org, zero: bool, path: seq<int>) {
    && path != [] && path[0] in org
    && forall i :: 0 <= i < |path| - 1 ==> Edge(org, zero, path[i], path[i + 1])
  }

  ghost predicate PathBetween(org: Org, zero: bool, path: seq<int>, root: int, node: int) {
    IsPath(org, zero, path) && path[0] == root && path[|path| - 1] == node
  }

  /** node is root or below it. */
  ghost predicate Reaches(org: Org, zero: bool, root: int, node: int) {
    exists path :: PathBetween(org, zero, path, root, node)
  }

  /** A rank that grows from parent to child: parent links have no cycle. */
  ghost predicate Ranked(org: Org, rank: map<int, nat>, bound: nat) {
    && (forall d :: d in org ==> d in rank && rank[d] <= bound)
    && (forall p, c :: Edge(org, true, p, c) && p in org ==> rank[p] < rank[c])
  }

  ghost predicate IsForest(org: Org) {
    exists rank, bound :: Ranked(org, rank, bound)
  }

  lemma ReachesItself(org: Org, zero: bool, d: int)
    requires d in org
    ensures Reaches(org, zero, d, d)
  {
    assert PathBetween(org, zero, [d], d, d);
  }

  lemma PathGrows(org: Org, zero: bool, root: int, node: int, child: int)
    requires Reaches(org, zero, root, node) && Edge(org, zero, node, child)
    ensures Reaches(org, zero, root, child)
  {
    var path :| PathBetween(org, zero, path, root, node);
    assert PathBetween(org, zero, path + [child], root, child);
  }

  lemma PathInside(org: Org, zero: bool, path: seq<int>, k: nat)
    requires IsPath(org, zero, path) && k < |path|
    ensures path[k] in org
  {
    if k > 0 {
      assert Edge(org, zero, path[k - 1], path[k]);
    }
  }

  lemma ReachesTransitive(org: Org, zero: bool, a: int, b: int, c: int)
    requires Reaches(org, zero, a, b) && Reaches(org, zero, b, c)
    ensures Reaches(org, zero, a, c)
  {
    var p :| PathBetween(org, zero, p, a, b);
    var q :| PathBetween(org, zero, q, b, c);
    var joined := p + q[1..];
    forall i | 0 <= i < |joined| - 1 ensures Edge(org, zero, joined[i], joined[i + 1]) {
      if i >= |p| - 1 {
        assert Edge(org, zero, q[i - |p| + 1], q[i - |p| + 2]);
      }
    }
    assert PathBetween(org, zero, joined, a, c);
  }

  lemma InRank(org: Org, rank: map<int, nat>, bound: nat, d: int)
    requires Ranked(org, rank, bound) && d in org
    ensures d in rank && rank[d] <= bound
  {
  }

  /** Ranks grow along a path, so two departments below each other are the same one. */
  lemma {:induction false} RankGrows(org: Org, rank: map<int, nat>, bound: nat, zero: bool, path: seq<int>)
    requires Ranked(org, rank, bound) && IsPath(org, zero, path)
    ensures path[0] in rank && path[|path| - 1] in org && path[|path| - 1] in rank
    ensures rank[path[0]] + |path| - 1 <= rank[path[|path| - 1]]
  {
    assert path[0] in org;
    InRank(org, rank, bound, path[0]);
    if |path| > 1 {
      var shorter := path[..|path| - 1];
      RankGrows(org, rank, bound, zero, shorter);
      assert Edge(org, zero, shorter[|shorter| - 1], path[|path| - 1]);
      assert Edge(org, true, shorter[|shorter| - 1], path[|path| - 1]);
    }
  }

  lemma BelowEachOther(org: Org, zero: bool, a: int, b: int)
    requires IsForest(org) && Reaches(org, zero, a, b) && Reaches(org, zero, b, a)
    ensures a == b
  {
    var rank, bound :| Ranked(org, rank, bound);
    var p :| PathBetween(org, zero, p, a, b);
    var q :| PathBetween(org, zero, q, b, a);
    RankGrows(org, rank, bound, zero, p);
    RankGrows(org, rank, bound, zero, q);
  }

  // ---------- walking down ----------

  function Children(org: Org, zero: bool, level: set<int>): set<int> {
    set d | d in org && org[d].Some? && org[d].value in level && (zero || d != 0)
  }

  ghost predicate DownSoFar(org: Org, zero: bool, root: int, done: set<int>, level: set<int>) {
    && (forall n :: n in done || n in level ==> n in org && Reaches(org, zero, root, n))
    && (root in org ==> root in done || root in level)
    && (forall n, c :: n in done && Edge(org, zero, n, c) ==> c in done || c in level)
  }

  lemma {:induction false} ClosedHolds(org: Org, zero: bool, done: set<int>, path: seq<int>)
    requires IsPath(org, zero, path) && path[0] in done
    requires forall n, c :: n in done && Edge(org, zero, n, c) ==> c in done
    ensures path[|path| - 1] in done
  {
    if |path| > 1 {
      var shorter := path[..|path| - 1];
      ClosedHolds(org, zero, done, shorter);
      assert Edge(org, zero, shorter[|shorter| - 1], path[|path| - 1]);
    }
  }

  lemma LevelDone(org: Org, zero: bool, root: int, done: set<int>, level: set<int>)
    requires DownSoFar(org, zero, root, done, level)
    ensures DownSoFar(org, zero, root, done + level, Children(org, zero, level))
  {
    forall n | n in Children(org, zero, level) ensures n in org && Reaches(org, zero, root, n) {
      PathGrows(org, zero, root, org[n].value, n);
    }
  }

  ghost predicate Deep(org: Org, rank: map<int, nat>, level: set<int>, depth: nat) {
    forall n :: n in level ==> n in org && n in rank && rank[n] >= depth
  }

  lemma LevelsDeepen(org: Org, zero: bool, rank: map<int, nat>, bound: nat, level: set<int>, depth: nat)
    requires Ranked(org, rank, bound) && Deep(org, rank, level, depth)
    ensures Deep(org, rank, Children(org, zero, level), depth + 1)
  {
    forall n | n in Children(org, zero, level) ensures n in rank && rank[n] >= depth + 1 {
      assert Edge(org, true, org[n].value, n);
    }
  }

  lemma DepthBounded(org: Org, rank: map<int, nat>, bound: nat, level: set<int>, depth: nat)
    requires Ranked(org, rank, bound) && Deep(org, rank, level, depth) && level != {}
    ensures depth <= bound
  {
    var n := Member(level);
    assert n in org && rank[n] <= bound;
  }

  /** WITH RECURSIVE ... UNION ALL: each round joins the children of the rows of the round before. */
  method WalkDown(org: Org, zero: bool, root: int, ghost rank: map<int, nat>, ghost bound: nat) returns (found: set<int>)
    requires Ranked(org, rank, bound)
    ensures forall n :: n in found <==> Reaches(org, zero, root, n)
  {
    found := {};
    var level := if root in org then {root} else {};
    ghost var depth := 0;
    if root in org {
      ReachesItself(org, zero, root);
    }
    while level != {}
      invariant DownSoFar(org, zero, root, found, level)
      invariant Deep(org, rank, level, depth)
      decreases bound + 1 - depth
    {
      LevelDone(org, zero, root, found, level);
      LevelsDeepen(org, zero, rank, bound, level, depth);
      DepthBounded(org, rank, bound, level, depth);
      found := found + level;
      level := Children(org, zero, level);
      depth := depth + 1;
    }
    forall n | Reaches(org, zero, root, n) ensures n in found {
      var path :| PathBetween(org, zero, path, root, n);
      ClosedHolds(org, zero, found, path);
    }
  }

  // ---------- walking up ----------

  ghost predicate UpPath(org: Org, path: seq<int>, top: int, start: int) {
    PathBetween(org, true, path, top, start) && forall i :: 0 <= i < |path| - 1 ==> path[i] != 0
  }

  /** top is reached from start by parent links; 0 is never joined, but the walk may start at it. */
  ghost predicate UpReaches(org: Org, top: int, start: int) {
    exists path :: UpPath(org, path, top, start)
  }

  lemma UpPathGrows(org: Org, top: int, parent: int, start: int)
    requires UpReaches(org, top, start) && Edge(org, true, parent, top) && parent in org && parent != 0
    ensures UpReaches(org, parent, start)
  {
    var path :| UpPath(org, path, top, start);
    assert UpPath(org, [parent] + path, parent, start);
  }

  lemma {:induction false} UpClosedHolds(org: Org, found: set<int>, path: seq<int>, top: int, start: int)
    requires UpPath(org, path, top, start) && start in found
    requires forall c, p :: c in found && Edge(org, true, p, c) && p in org && p != 0 ==> p in found
    ensures top in found
    decreases |path|
  {
    if |path| > 1 {
      assert Edge(org, true, path[0], path[1]);
      PathInside(org, true, path, 1);
      var rest := path[1..];
      assert UpPath(org, rest, path[1], start);
      UpClosedHolds(org, found, rest, path[1], start);
    }
  }

  method WalkUp(org: Org, start: int, ghost rank: map<int, nat>, ghost bound: nat) returns (found: set<int>)
    requires Ranked(org, rank, bound)
    ensures forall n :: n in found <==> UpReaches(org, n, start)
  {
    found := {};
    var next := if start in org then Some(start) else None;
    if start in org {
      assert UpPath(org, [start], start, start);
    }
    while next.Some?
      invariant next.Some? ==> next.value in org && UpReaches(org, next.value, start)
      invariant forall n :: n in found ==> UpReaches(org, n, start)
      invariant start in org ==> start in found || next == Some(start)
      invariant forall c, p :: c in found && Edge(org, true, p, c) && p in org && p != 0 ==> p in found || next == Some(p)
      decreases if next.Some? then rank[next.value] + 1 else 0
    {
      var cur := next.value;
      found := found + {cur};
      var parent := org[cur];
      if parent.Some? && parent.value in org && parent.value != 0 {
        assert Edge(org, true, parent.value, cur);
        UpPathGrows(org, cur, parent.value, start);
        next := parent;
      } else {
        next := None;
      }
    }
    forall n | UpReaches(org, n, start) ensures n in found {
      var path :| UpPath(org, path, n, start);
      assert path[0] in org;
      PathInside(org, true, path, |path| - 1);
      UpClosedHolds(org, found, path, n, start);
    }
  }

  // ---------- the predicates ----------

  /** _dptmt_id_in_managed_subtree */
  ghost predicate InSubtree(org: Org, root: int, node: int) {
    root != 0 && node != 0 && Reaches(org, false, root, node)
  }

  /** _dptmt_same_vertical_branch */
  ghost predicate SameBranch(org: Org, a: int, b: int) {
    a != 0 && b != 0 && (a == b || InSubtree(org, a, b) || InSubtree(org, b, a))
  }

  method DptmtIdInManagedSubtree(org: Org, root: int, node: int, ghost rank: map<int, nat>, ghost bound: nat) returns (r: bool)
    requires Ranked(org, rank, bound)
    ensures r == InSubtree(org, root, node)
  {
    if root == 0 || node == 0 {
      return false;
    }
    var sub := WalkDown(org, false, root, rank, bound);
    r := node in sub;
  }

  method DptmtSameVerticalBranch(org: Org, a: int, b: int, ghost rank: map<int, nat>, ghost bound: nat) returns (r: bool)
    requires Ranked(org, rank, bound)
    ensures r == SameBranch(org, a, b)
  {
    if a == 0 || b == 0 {
      return false;
    }
    if a == b {
      return true;
    }
    r := DptmtIdInManagedSubtree(org, a, b, rank, bound);
    if !r {
      r := DptmtIdInManagedSubtree(org, b, a, rank, bound);
    }
  }

  /** The rule of assert_invite_dptmt_allowed: sa_dev any existing department, others their own
      and what lies below it, 0 included. */
  ghost predicate DeptAllowed(org: Org, role: Role, own: int, target: int) {
    if role == SaDev then target in org else target == own || Reaches(org, true, own, target)
  }

  method AssertInviteDptmtAllowed(org: Org, role: Role, own: int, target: int, ghost rank: map<int, nat>, ghost bound: nat)
    returns (ok: bool)
    requires Ranked(org, rank, bound)
    ensures ok == DeptAllowed(org, role, own, target)
  {
    if role == SaDev {
      return target in org;
    }
    if target == own {
      return true;
    }
    var sub := WalkDown(org, true, own, rank, bound);
    ok := target in sub;
  }

  /** The `branch` rows of the transfer query: the walk down from a department (skipping 0)
      together with the walk up from it. */
  ghost predicate InBranch(org: Org, from: int, node: int) {
    (from != 0 && Reaches(org, false, from, node)) || UpReaches(org, node, from)
  }

  method BranchOf(org: Org, from: int, ghost rank: map<int, nat>, ghost bound: nat) returns (branch: set<int>)
    requires Ranked(org, rank, bound)
    ensures forall n :: n in branch <==> InBranch(org, from, n)
  {
    var down := {};
    if from != 0 {
      down := WalkDown(org, false, from, rank, bound);
    }
    var up := WalkUp(org, from, rank, bound);
    branch := down + up;
  }

  lemma NonZeroPath(org: Org, path: seq<int>, a: int, b: int)
    requires a != 0 && b != 0
    ensures UpPath(org, path, a, b) <==> PathBetween(org, false, path, a, b)
  {
    if UpPath(org, path, a, b) {
      forall i | 0 <= i < |path| - 1 ensures Edge(org, false, path[i], path[i + 1]) {
        assert Edge(org, true, path[i], path[i + 1]);
        assert i + 1 < |path| - 1 ==> path[i + 1] != 0;
      }
    }
    if PathBetween(org, false, path, a, b) {
      forall i | 0 <= i < |path| - 1 ensures Edge(org, true, path[i], path[i + 1]) && path[i] != 0 {
        assert Edge(org, false, path[i], path[i + 1]);
        assert i > 0 ==> Edge(org, false, path[i - 1], path[i]);
      }
    }
  }

  lemma UpIsDown(org: Org, a: int, b: int)
    requires a != 0 && b != 0
    ensures UpReaches(org, a, b) <==> Reaches(org, false, a, b)
  {
    forall path ensures UpPath(org, path, a, b) <==> PathBetween(org, false, path, a, b) {
      NonZeroPath(org, path, a, b);
    }
    if UpReaches(org, a, b) {
      var path :| UpPath(org, path, a, b);
      assert PathBetween(org, false, path, a, b);
    }
    if Reaches(org, false, a, b) {
      var path :| PathBetween(org, false, path, a, b);
      assert UpPath(org, path, a, b);
    }
  }

  lemma ZeroUnreached(org: Org, from: int)
    requires from != 0
    ensures !Reaches(org, false, from, 0) && !UpReaches(org, 0, from)
  {
    forall path ensures !PathBetween(org, false, path, from, 0) {
      if IsPath(org, false, path) && |path| > 1 {
        assert Edge(org, false, path[|path| - 2], path[|path| - 1]);
      }
    }
    forall path ensures !UpPath(org, path, 0, from) {
      if IsPath(org, true, path) && |path| > 1 && path[0] != 0 {
      }
    }
  }

  /** Away from department 0 the down-and-up walk finds exactly the departments the predicate
      calls the same vertical branch. */
  lemma BranchIsVertical(org: Org, from: int, node: int)
    requires node in org && from != 0
    ensures InBranch(org, from, node) <==> SameBranch(org, from, node)
  {
    if node == 0 {
      ZeroUnreached(org, from);
    } else {
      UpIsDown(org, node, from);
      if from == node {
        ReachesItself(org, false, from);
      }
    }
  }

  /** They agree for every department exactly unless the walk starts at an existing department 0. */
  lemma BranchAgreesExactly(org: Org, from: int)
    ensures (forall node :: node in org ==> (InBranch(org, from, node) <==> SameBranch(org, from, node))) <==>
            from != 0 || 0 !in org
  {
    if from != 0 {
      forall node | node in org ensures InBranch(org, from, node) <==> SameBranch(org, from, node) {
        BranchIsVertical(org, from, node);
      }
    } else if 0 !in org {
      forall node, path ensures !UpPath(org, path, node, 0) {
        if IsPath(org, true, path) {
          PathInside(org, true, path, |path| - 1);
        }
      }
    } else {
      assert UpPath(org, [0], 0, 0);
      assert InBranch(org, 0, 0) && !SameBranch(org, 0, 0);
    }
  }

  /** Subtrees: every department is in its own, subtrees nest, and no two contain each other. */
  lemma SubtreeOrder(org: Org, a: int, b: int, c: int)
    requires IsForest(org)
    ensures InSubtree(org, a, a) <==> a != 0 && a in org
    ensures InSubtree(org, a, b) && InSubtree(org, b, c) ==> InSubtree(org, a, c)
    ensures InSubtree(org, a, b) && InSubtree(org, b, a) ==> a == b
  {
    if a in org {
      ReachesItself(org, false, a);
    } else {
      forall path ensures !PathBetween(org, false, path, a, a) {
      }
    }
    if InSubtree(org, a, b) && InSubtree(org, b, c) {
      ReachesTransitive(org, false, a, b, c);
    }
    if InSubtree(org, a, b) && InSubtree(org, b, a) {
      BelowEachOther(org, false, a, b);
    }
  }
}
