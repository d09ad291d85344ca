/**
 The task tree presenter: sorting every sibling list of a forest by subtree recency, and grouping the roots by project.
 Absent and non-positive timestamps are 0, and absent texts are 0.
 */
module TaskForest {
  import opened Tables
  import opened StableSort

  datatype Project = Project(id: nat, slug: nat, title: nat, lastSignalAt: nat)
  datatype Status = Done | FailedTask | BlockedTask | OtherStatus
  /** `progress` is `None` when it is not a finite number. */
  datatype Task = Task(id: nat, createdAt: nat, updatedAt: nat, project: Option<Project>, status: Status,
                       progress: Option<real>)
  datatype Tree = Node(task: Task, children: seq<Tree>)

  // ---- recency ----

  function Max(a: nat, b: nat): (m: nat) { if a >= b then a else b }

  function Recency(t: Task): (r: nat) { if t.updatedAt > 0 then t.updatedAt else t.createdAt }

  /** `getNodeLatestTaskTimestamp`: the greatest recency in the subtree. */
  function Latest(t: Tree): (r: nat)
    decreases t
  {
    Max(Recency(t.task), LatestOf(t.children))
  }

  function LatestOf(ts: seq<Tree>): (r: nat)
    decreases ts
  {
    if ts == [] then 0 else Max(Latest(ts[0]), LatestOf(ts[1..]))
  }

  /** The comparator of the sort: recency of the subtree, then of the task, then creation, all descending; then id. */
  predicate Leq(a: Tree, b: Tree) {
    Latest(a) > Latest(b) || (Latest(a) == Latest(b) && TaskLeq(a.task, b.task))
  }

  predicate TaskLeq(a: Task, b: Task) {
    || Recency(a) > Recency(b)
    || (Recency(a) == Recency(b) && (a.createdAt > b.createdAt || (a.createdAt == b.createdAt && a.id <= b.id)))
  }

  const LEQ := (a: Tree, b: Tree) => Leq(a, b)

  lemma LeqIsTotal()
    ensures TotalPreorder(LEQ)
  {
    hide Latest;
  }

  // ---- the sort ----

  /** Every sibling list sorted, children before their parents' list. */
  function SortForest(ts: seq<Tree>): (r: seq<Tree>)
    decreases ts, 1
  {
    Sort(LEQ, SortEach(ts))
  }

  function SortEach(ts: seq<Tree>): (r: seq<Tree>)
    ensures |r| == |ts|
    decreases ts, 0
  {
    if ts == [] then [] else [Node(ts[0].task, SortForest(ts[0].children))] + SortEach(ts[1..])
  }

  function SortTree(t: Tree): (r: Tree) { Node(t.task, SortForest(t.children)) }

  lemma {:induction false} SortEachAt(ts: seq<Tree>)
    ensures forall i | 0 <= i < |ts| :: SortEach(ts)[i] == SortTree(ts[i])
    decreases |ts|
  {
    if ts != [] { SortEachAt(ts[1..]); }
  }

  // ---- recency does not depend on sibling order ----

  ghost predicate IsLatestOf(ts: seq<Tree>, m: nat) {
    (forall i | 0 <= i < |ts| :: Latest(ts[i]) <= m) && (m == 0 || exists i :: 0 <= i < |ts| && Latest(ts[i]) == m)
  }

  lemma {:induction false} LatestOfIsGreatest(ts: seq<Tree>)
    ensures IsLatestOf(ts, LatestOf(ts))
    decreases |ts|
  {
    if ts != [] {
      LatestOfIsGreatest(ts[1..]);
      var m := LatestOf(ts[1..]);
      if m > 0 {
        var i :| 0 <= i < |ts[1..]| && Latest(ts[1..][i]) == m;
        assert Latest(ts[i + 1]) == m;
      }
    }
  }

  lemma LatestOfPermutation(a: seq<Tree>, b: seq<Tree>)
    requires multiset(a) == multiset(b)
    ensures LatestOf(a) == LatestOf(b)
  {
    hide Latest;
    SamePermutation(a, b);
    LatestOfIsGreatest(a);
    LatestOfIsGreatest(b);
    if LatestOf(a) > 0 { var i :| 0 <= i < |a| && Latest(a[i]) == LatestOf(a); assert a[i] in b; }
    if LatestOf(b) > 0 { var i :| 0 <= i < |b| && Latest(b[i]) == LatestOf(b); assert b[i] in a; }
  }

  lemma {:induction false} LatestOfEqual(a: seq<Tree>, b: seq<Tree>)
    requires |a| == |b| && forall i | 0 <= i < |a| :: Latest(a[i]) == Latest(b[i])
    ensures LatestOf(a) == LatestOf(b)
    decreases |a|
  {
    hide Latest;
    if a != [] { LatestOfEqual(a[1..], b[1..]); }
  }

  /** Sorting changes no subtree's recency, so a memo filled during the sort stays correct. */
  lemma {:induction false} SortKeepsLatest(t: Tree)
    ensures Latest(SortTree(t)) == Latest(t)
    decreases t
  {
    var each := SortEach(t.children);
    SortEachAt(t.children);
    forall i | 0 <= i < |each| ensures Latest(each[i]) == Latest(t.children[i]) {
      SortKeepsLatest(t.children[i]);
    }
    LatestOfEqual(each, t.children);
    SortIsPermutation(LEQ, each);
    LatestOfPermutation(Sort(LEQ, each), each);
  }

  // ---- what the sort does ----

  /** Sibling lists are ordered at every level. */
  ghost predicate Ordered(ts: seq<Tree>)
    decreases ts
  {
    SortedBy(LEQ, ts) && forall i | 0 <= i < |ts| :: Ordered(ts[i].children)
  }

  lemma {:induction false} SortOrders(ts: seq<Tree>)
    ensures Ordered(SortForest(ts))
    decreases ts
  {
    hide Leq, LEQ;
    var each := SortEach(ts);
    var r := SortForest(ts);
    SortEachAt(ts);
    LeqIsTotal();
    SortSorts(LEQ, each);
    SortIsPermutation(LEQ, each);
    SamePermutation(r, each);
    forall i | 0 <= i < |r| ensures Ordered(r[i].children) {
      assert r[i] in each;
      var j :| 0 <= j < |each| && each[j] == r[i];
      SortOrders(ts[j].children);
    }
  }

  /** The task is that of a node of the subtree. */
  ghost predicate Has(t: Tree, task: Task)
    decreases t
  {
    t.task == task || exists i :: 0 <= i < |t.children| && Has(t.children[i], task)
  }

  lemma {:induction false} LatestIsGreatest(t: Tree)
    ensures forall task | Has(t, task) :: Recency(task) <= Latest(t)
    ensures exists task :: Has(t, task) && Recency(task) == Latest(t)
    decreases t
  {
    hide Recency;
    LatestOfIsGreatest(t.children);
    forall i | 0 <= i < |t.children|
      ensures forall task | Has(t.children[i], task) :: Recency(task) <= Latest(t)
    {
      LatestIsGreatest(t.children[i]);
    }
    if Latest(t) == Recency(t.task) {
      assert Has(t, t.task);
    } else {
      var i :| 0 <= i < |t.children| && Latest(t.children[i]) == LatestOf(t.children);
      LatestIsGreatest(t.children[i]);
    }
  }

  /** The task was last touched at `at`: updated, or created and never updated. */
  predicate TouchedAt(task: Task, at: nat) {
    (task.updatedAt == at && at > 0) || (task.updatedAt == 0 && task.createdAt == at)
  }

  /** The recency of a subtree is the last time one of its tasks was touched. */
  lemma LatestIsMostRecent(t: Tree)
    ensures forall task, at: nat | Has(t, task) && TouchedAt(task, at) :: at <= Latest(t)
    ensures exists task :: Has(t, task) && TouchedAt(task, Latest(t))
  {
    LatestIsGreatest(t);
    hide Has, Latest;
    var task :| Has(t, task) && Recency(task) == Latest(t);
    assert TouchedAt(task, Latest(t));
  }

  /** Of two siblings the one with the more recent subtree comes first; on a tie the one with the more recent task, then
      the one created later, then the one with the smaller id. */
  lemma NewestFirst(ts: seq<Tree>, i: nat, j: nat)
    requires i < j < |ts|
    ensures |SortForest(ts)| == |ts|
    ensures var a, b := SortForest(ts)[i], SortForest(ts)[j];
      var x, y := a.task, b.task;
      && Latest(a) >= Latest(b)
      && (Latest(a) == Latest(b) ==> Recency(x) >= Recency(y))
      && (Latest(a) == Latest(b) && Recency(x) == Recency(y) ==> x.createdAt >= y.createdAt)
      && (Latest(a) == Latest(b) && Recency(x) == Recency(y) && x.createdAt == y.createdAt ==> x.id <= y.id)
  {
    hide Latest, Recency, Sort;
    SortOrders(ts);
    SortIsPermutation(LEQ, SortEach(ts));
    SamePermutation(SortForest(ts), SortEach(ts));
    assert LEQ(SortForest(ts)[i], SortForest(ts)[j]);
  }

  /** `b` is `a` with siblings permuted, at any level, and nothing else changed. */
  ghost predicate Rearranged(a: seq<Tree>, b: seq<Tree>)
    decreases a
  {
    exists c: seq<Tree> :: multiset(c) == multiset(b) && |c| == |a|
      && forall i | 0 <= i < |a| :: a[i].task == c[i].task && Rearranged(a[i].children, c[i].children)
  }

  lemma {:induction false} SortRearranges(ts: seq<Tree>)
    ensures Rearranged(ts, SortForest(ts))
    decreases ts
  {
    var each := SortEach(ts);
    SortEachAt(ts);
    SortIsPermutation(LEQ, each);
    forall i | 0 <= i < |ts| ensures ts[i].task == each[i].task && Rearranged(ts[i].children, each[i].children) {
      SortRearranges(ts[i].children);
    }
  }

  lemma {:induction false} OrderedIsFixed(ts: seq<Tree>)
    requires Ordered(ts)
    ensures SortForest(ts) == ts
    decreases ts
  {
    SortEachAt(ts);
    forall i | 0 <= i < |ts| ensures SortEach(ts)[i] == ts[i] {
      OrderedIsFixed(ts[i].children);
    }
    assert SortEach(ts) == ts;
    SortedIsFixed(LEQ, ts);
  }

  lemma SortTwice(ts: seq<Tree>)
    ensures SortForest(SortForest(ts)) == SortForest(ts)
  {
    SortOrders(ts);
    OrderedIsFixed(SortForest(ts));
  }

  /** Siblings have different task ids, at every level. */
  ghost predicate DistinctSiblings(ts: seq<Tree>)
    decreases ts
  {
    (forall i, j | 0 <= i < j < |ts| :: ts[i].task.id != ts[j].task.id)
    && forall i | 0 <= i < |ts| :: DistinctSiblings(ts[i].children)
  }

  lemma SortEachPermutes(a: seq<Tree>, b: seq<Tree>)
    requires multiset(a) == multiset(b)
    ensures multiset(SortEach(a)) == multiset(SortEach(b))
  {
    hide Sort;
    SortEachAt(a);
    SortEachAt(b);
    MapPermutes(SortTree, a, b);
    assert SortEach(a) == Map(SortTree, a) && SortEach(b) == Map(SortTree, b);
  }

  lemma NoTies(ts: seq<Tree>)
    requires forall i, j | 0 <= i < j < |ts| :: ts[i].task.id != ts[j].task.id
    ensures forall x, y | x in SortEach(ts) && y in SortEach(ts) && LEQ(x, y) && LEQ(y, x) :: x == y
  {
    hide Latest;
    SortEachAt(ts);
    var each := SortEach(ts);
    forall x, y | x in each && y in each && LEQ(x, y) && LEQ(y, x) ensures x == y {
      var i :| 0 <= i < |each| && each[i] == x;
      var j :| 0 <= j < |each| && each[j] == y;
      assert x.task.id == y.task.id && ts[i].task == x.task && ts[j].task == y.task;
    }
  }

  /** When siblings have different ids the result depends only on the tree, not on the order its siblings came in. */
  lemma {:induction false} SortIsCanonical(a: seq<Tree>, b: seq<Tree>)
    requires Rearranged(a, b) && DistinctSiblings(a)
    ensures SortForest(a) == SortForest(b)
    decreases a
  {
    hide LEQ, Sort;
    var c: seq<Tree> :| multiset(c) == multiset(b) && |c| == |a|
      && forall i | 0 <= i < |a| :: a[i].task == c[i].task && Rearranged(a[i].children, c[i].children);
    forall i | 0 <= i < |a| ensures SortTree(a[i]) == SortTree(c[i]) {
      SortIsCanonical(a[i].children, c[i].children);
    }
    SortEachAgree(a, c);
    SortEachPermutes(c, b);
    SameOrder(SortEach(a), SortEach(b), a);
  }

  lemma SortEachAgree(a: seq<Tree>, c: seq<Tree>)
    requires |a| == |c| && forall i | 0 <= i < |a| :: SortTree(a[i]) == SortTree(c[i])
    ensures SortEach(a) == SortEach(c)
  {
    hide SortTree;
    SortEachAt(a);
    SortEachAt(c);
  }

  lemma SameOrder(x: seq<Tree>, y: seq<Tree>, a: seq<Tree>)
    requires multiset(x) == multiset(y) && x == SortEach(a)
    requires forall i, j | 0 <= i < j < |a| :: a[i].task.id != a[j].task.id
    ensures Sort(LEQ, x) == Sort(LEQ, y)
  {
    LeqIsTotal();
    NoTies(a);
    hide LEQ, SortEach;
    SortIsPermutation(LEQ, x);
    SortIsPermutation(LEQ, y);
    SortSorts(LEQ, x);
    SortSorts(LEQ, y);
    SamePermutation(Sort(LEQ, x), x);
    SortForgetsOrder(LEQ, Sort(LEQ, x), Sort(LEQ, y));
  }
}
