/** Grouping the roots of the task forest by project. */
module TaskGroups {
  import opened Tables
  import opened StableSort
  import opened TaskForest

  type Key = nat
  const UNLINKED: Key := 1

  /** `project?.slug || project?.id || "__unlinked__"`. */
  function KeyOf(t: Tree): (k: Key) {
    match t.task.project
    case None => UNLINKED
    case Some(p) => if p.slug != 0 then p.slug else if p.id != 0 then p.id else UNLINKED
  }

  /** The key is the project's slug, else its id, where 0 is the empty text; roots without either share one key. */
  lemma KeyMeans(t: Tree)
    ensures var p := t.task.project;
      && (p.Some? && p.value.slug != 0 ==> KeyOf(t) == p.value.slug)
      && (p.Some? && p.value.slug == 0 && p.value.id != 0 ==> KeyOf(t) == p.value.id)
      && (p.None? || (p.value.slug == 0 && p.value.id == 0) ==> KeyOf(t) == UNLINKED)
  {
  }

  function Signal(t: Tree): (n: nat) { if t.task.project.Some? then t.task.project.value.lastSignalAt else 0 }

  function Descendants(t: Tree): (n: nat)
    decreases t
  {
    SizeOf(t.children)
  }

  /** Nodes in a forest. */
  function SizeOf(ts: seq<Tree>): (n: nat)
    decreases ts
  {
    if ts == [] then 0 else 1 + Descendants(ts[0]) + SizeOf(ts[1..])
  }

  /** The tasks of a forest, each before its children's. */
  function Preorder(ts: seq<Tree>): (r: seq<Task>)
    decreases ts
  {
    if ts == [] then [] else [ts[0].task] + Below(ts[0]) + Preorder(ts[1..])
  }

  function Below(t: Tree): (r: seq<Task>)
    decreases t
  {
    Preorder(t.children)
  }

  /** The size counts the tasks of the forest, and a descendant count those below the node. */
  lemma {:induction false} SizeCountsTasks(ts: seq<Tree>)
    ensures SizeOf(ts) == |Preorder(ts)| && forall i | 0 <= i < |ts| :: Descendants(ts[i]) == |Below(ts[i])|
    decreases ts
  {
    if ts != [] {
      SizeCountsTasks(ts[0].children);
      SizeCountsTasks(ts[1..]);
    }
  }

  datatype Group = Group(key: Key, project: Option<Project>, nodes: seq<Tree>, childCount: nat, lastSignalAt: nat,
                         latestTaskAt: nat)

  // ---- the loop ----

  function Add(g: Group, t: Tree): (r: Group) {
    Group(g.key, if g.project.None? then t.task.project else g.project, g.nodes + [t],
          g.childCount + Descendants(t), Max(g.lastSignalAt, Signal(t)), Max(g.latestTaskAt, Latest(t)))
  }

  function NewGroup(t: Tree): (g: Group) { Group(KeyOf(t), t.task.project, [], 0, Signal(t), 0) }

  // ---- what a group is, from the roots alone ----

  function WithKey(ts: seq<Tree>, k: Key): (r: seq<Tree>) {
    if ts == [] then []
    else WithKey(ts[..|ts| - 1], k) + if KeyOf(ts[|ts| - 1]) == k then [ts[|ts| - 1]] else []
  }

  ghost predicate IsGreatest(ts: seq<Tree>, of: Tree -> nat, m: nat) {
    (forall t | t in ts :: of(t) <= m) && exists t :: t in ts && of(t) == m
  }

  ghost predicate IsFirstProject(ts: seq<Tree>, p: Option<Project>) {
    if p.None? then forall t | t in ts :: t.task.project.None?
    else exists i :: 0 <= i < |ts| && ts[i].task.project == p && forall j | 0 <= j < i :: ts[j].task.project.None?
  }

  /** A group describes its nodes: counts, greatest signal, greatest recency and first project. */
  ghost predicate Describes(g: Group, ts: seq<Tree>) {
    && ts != [] && g.nodes == ts
    && |ts| + g.childCount == SizeOf(ts)
    && IsGreatest(ts, Signal, g.lastSignalAt) && IsGreatest(ts, Latest, g.latestTaskAt)
    && IsFirstProject(ts, g.project)
  }

  lemma {:induction false} SizeAppends(a: seq<Tree>, b: seq<Tree>)
    ensures SizeOf(a + b) == SizeOf(a) + SizeOf(b)
    decreases |a|
  {
    hide Descendants;
    if a == [] {
      assert a + b == b;
    } else {
      assert (a + b)[1..] == a[1..] + b;
      SizeAppends(a[1..], b);
    }
  }

  lemma GreatestMore(ts: seq<Tree>, of: Tree -> nat, m: nat, t: Tree)
    requires IsGreatest(ts, of, m) || (ts == [] && m <= of(t))
    ensures IsGreatest(ts + [t], of, Max(m, of(t)))
  {
    if ts != [] {
      var x :| x in ts && of(x) == m;
      assert x in ts + [t] && t in ts + [t];
    } else {
      assert ts + [t] == [t];
    }
  }

  lemma ProjectMore(ts: seq<Tree>, p: Option<Project>, t: Tree)
    requires IsFirstProject(ts, p)
    ensures IsFirstProject(ts + [t], if p.None? then t.task.project else p)
  {
    var more := ts + [t];
    assert more[|ts|] == t;
    if p.None? {
      assert forall j | 0 <= j < |ts| :: more[j] in ts;
    } else {
      var i :| 0 <= i < |ts| && ts[i].task.project == p && forall j | 0 <= j < i :: ts[j].task.project.None?;
      assert more[i] == ts[i] && forall j | 0 <= j < i :: more[j] == ts[j];
    }
  }

  lemma AddDescribes(g: Group, ts: seq<Tree>, t: Tree)
    requires Describes(g, ts) || (ts == [] && g == NewGroup(t))
    ensures Describes(Add(g, t), ts + [t])
  {
    hide Latest, IsGreatest, IsFirstProject;
    SizeAppends(ts, [t]);
    assert SizeOf([t]) == 1 + Descendants(t);
    GreatestMore(ts, Signal, g.lastSignalAt, t);
    GreatestMore(ts, Latest, g.latestTaskAt, t);
    if ts == [] {
      FirstOfOne(t);
      assert ts + [t] == [t];
    } else {
      ProjectMore(ts, g.project, t);
    }
  }

  lemma FirstOfOne(t: Tree)
    ensures IsFirstProject([t], t.task.project)
  {
    if t.task.project.Some? { assert [t][0] == t; }
  }

  // ---- the result ----

  /** `project.slug || project.title || key`; the order of texts is the order of these numbers. */
  function Label(g: Group): (n: nat) {
    if g.project.None? then g.key
    else if g.project.value.slug != 0 then g.project.value.slug
    else if g.project.value.title != 0 then g.project.value.title
    else g.key
  }

  const GROUP_LEQ := (a: Group, b: Group) =>
    || a.lastSignalAt > b.lastSignalAt
    || (a.lastSignalAt == b.lastSignalAt
        && (a.latestTaskAt > b.latestTaskAt || (a.latestTaskAt == b.latestTaskAt && Label(a) <= Label(b))))

  lemma GroupLeqIsTotal()
    ensures TotalPreorder(GROUP_LEQ)
  {
    hide Label;
  }

  /** Of two groups the one with the later signal comes first; on a tie the one with the more recent tasks, then the one
      with the smaller label: the project's slug, else its title, else the key. */
  lemma GroupsNewestFirst(groups: seq<Group>, i: nat, j: nat)
    requires SortedBy(GROUP_LEQ, groups) && i < j < |groups|
    ensures var a, b := groups[i], groups[j];
      && a.lastSignalAt >= b.lastSignalAt
      && (a.lastSignalAt == b.lastSignalAt ==> a.latestTaskAt >= b.latestTaskAt)
      && (a.lastSignalAt == b.lastSignalAt && a.latestTaskAt == b.latestTaskAt ==> Label(a) <= Label(b))
  {
    assert GROUP_LEQ(groups[i], groups[j]);
  }

  function KeysOf(groups: seq<Group>): (ks: seq<Key>)
    ensures |ks| == |groups|
  {
    Map((g: Group) => g.key, groups)
  }

  ghost predicate DescribesKey(roots: seq<Tree>, g: Group) {
    Describes(g, WithKey(roots, g.key))
  }

  /** A group holds exactly the roots with its key, sorted as a forest of their own. */
  ghost predicate Holds(roots: seq<Tree>, g: Group) {
    DescribesKey(roots, g.(nodes := WithKey(roots, g.key))) && g.nodes == SortForest(WithKey(roots, g.key))
  }

  /** One group for each key of a root, and no other. */
  ghost predicate Grouped(roots: seq<Tree>, groups: seq<Group>) {
    && NoDuplicates(KeysOf(groups))
    && (forall t | t in roots :: KeyOf(t) in KeysOf(groups))
    && (forall g | g in groups :: Holds(roots, g))
  }

  // ---- consequences ----

  lemma {:induction false} WithKeyContents(ts: seq<Tree>, k: Key)
    ensures forall t :: t in WithKey(ts, k) <==> t in ts && KeyOf(t) == k
    decreases |ts|
  {
    if ts != [] {
      WithKeyContents(ts[..|ts| - 1], k);
      assert ts == ts[..|ts| - 1] + [ts[|ts| - 1]];
    }
  }

  function SumOver(ts: seq<Tree>, ks: seq<Key>): (n: nat) {
    if ks == [] then 0 else SizeOf(WithKey(ts, ks[0])) + SumOver(ts, ks[1..])
  }

  lemma {:induction false} SumMore(ts: seq<Tree>, t: Tree, ks: seq<Key>)
    requires NoDuplicates(ks)
    ensures SumOver(ts + [t], ks) == SumOver(ts, ks) + if KeyOf(t) in ks then 1 + Descendants(t) else 0
    decreases |ks|
  {
    hide KeyOf, Descendants;
    if ks != [] {
      assert (ts + [t])[..|ts|] == ts && ks == [ks[0]] + ks[1..];
      SizeAppends(WithKey(ts, ks[0]), [t]);
      assert SizeOf([t]) == 1 + Descendants(t);
      assert WithKey(ts, ks[0]) + [] == WithKey(ts, ks[0]);
      SumMore(ts, t, ks[1..]);
    }
  }

  lemma {:induction false} SumIsSize(ts: seq<Tree>, ks: seq<Key>)
    requires NoDuplicates(ks) && forall t | t in ts :: KeyOf(t) in ks
    ensures SumOver(ts, ks) == SizeOf(ts)
    decreases |ts|
  {
    hide KeyOf, Descendants;
    if ts == [] {
      SumOfNothing(ks);
    } else {
      var before, t := ts[..|ts| - 1], ts[|ts| - 1];
      assert ts == before + [t];
      SumIsSize(before, ks);
      SumMore(before, t, ks);
      SizeAppends(before, [t]);
      assert SizeOf([t]) == 1 + Descendants(t);
    }
  }

  lemma {:induction false} SumOfNothing(ks: seq<Key>)
    ensures SumOver([], ks) == 0
    decreases |ks|
  {
    if ks != [] { SumOfNothing(ks[1..]); }
  }

  /** Roots and child counts over all groups. */
  function Total(groups: seq<Group>): (n: nat) {
    if groups == [] then 0 else |groups[0].nodes| + groups[0].childCount + Total(groups[1..])
  }

  lemma {:induction false} TotalIsSum(roots: seq<Tree>, groups: seq<Group>)
    requires forall g | g in groups :: Holds(roots, g)
    ensures Total(groups) == SumOver(roots, KeysOf(groups))
    decreases |groups|
  {
    hide SortForest, WithKey, IsFirstProject, IsGreatest;
    if groups != [] {
      var g := groups[0];
      assert g in groups && forall x | x in groups[1..] :: x in groups;
      assert KeysOf(groups)[1..] == KeysOf(groups[1..]);
      TotalIsSum(roots, groups[1..]);
      SortKeepsLength(WithKey(roots, g.key));
    }
  }

  lemma SortKeepsLength(ts: seq<Tree>)
    ensures |SortForest(ts)| == |ts|
  {
    SortIsPermutation(LEQ, SortEach(ts));
    SamePermutation(SortForest(ts), SortEach(ts));
  }

  /** Roots plus child counts add up to the whole forest. */
  lemma GroupsCoverForest(roots: seq<Tree>, groups: seq<Group>)
    requires Grouped(roots, groups)
    ensures Total(groups) == SizeOf(roots)
  {
    hide Holds, KeyOf;
    TotalIsSum(roots, groups);
    SumIsSize(roots, KeysOf(groups));
  }

  lemma SortKeepsKey(t: Tree)
    ensures KeyOf(SortTree(t)) == KeyOf(t)
  {
  }

  lemma SortEachMore(ts: seq<Tree>, t: Tree)
    ensures SortEach(ts + [t]) == SortEach(ts) + [SortTree(t)]
  {
    hide SortTree;
    SortEachAt(ts);
    SortEachAt(ts + [t]);
  }

  /** A sorted root occurs among the sorted roots of its key as often as among all of them. */
  lemma {:induction false} SortedRootsOfKey(ts: seq<Tree>, k: Key, u: Tree)
    requires KeyOf(u) == k
    ensures multiset(SortEach(WithKey(ts, k)))[u] == multiset(SortEach(ts))[u]
    decreases |ts|
  {
    hide KeyOf, SortEach, SortTree;
    if ts == [] {
      assert WithKey(ts, k) == ts;
    } else {
      var before, t := ts[..|ts| - 1], ts[|ts| - 1];
      assert ts == before + [t];
      SortedRootsOfKey(before, k, u);
      SortEachMore(before, t);
      SortKeepsKey(t);
      if KeyOf(t) == k {
        SortEachMore(WithKey(before, k), t);
        assert WithKey(ts, k) == WithKey(before, k) + [t];
      } else {
        assert WithKey(ts, k) == WithKey(before, k) && SortTree(t) != u;
      }
    }
  }

  lemma NodesOfGroup(roots: seq<Tree>, g: Group, u: Tree)
    requires Holds(roots, g)
    ensures multiset(g.nodes)[u] == if KeyOf(u) == g.key then multiset(SortEach(roots))[u] else 0
  {
    hide KeyOf, SortEach, SortTree, Describes, WithKey;
    var own := WithKey(roots, g.key);
    SortIsPermutation(LEQ, SortEach(own));
    assert multiset(g.nodes) == multiset(SortEach(own));
    if KeyOf(u) == g.key {
      SortedRootsOfKey(roots, g.key, u);
    } else {
      OtherKeysAbsent(roots, g.key, u);
    }
  }

  lemma OtherKeysAbsent(roots: seq<Tree>, k: Key, u: Tree)
    requires KeyOf(u) != k
    ensures u !in SortEach(WithKey(roots, k))
  {
    hide KeyOf, SortEach, SortTree, WithKey;
    var own := WithKey(roots, k);
    SortEachAt(own);
    forall i | 0 <= i < |own| ensures SortEach(own)[i] != u {
      WithKeyContents(roots, k);
      assert own[i] in own;
      SortKeepsKey(own[i]);
    }
  }

  /** Every root is listed, sorted, by exactly one group, as often as it occurs among the roots. */
  lemma RootInOneGroup(roots: seq<Tree>, groups: seq<Group>, t: Tree)
    requires Grouped(roots, groups) && t in roots
    ensures exists i :: 0 <= i < |groups| && groups[i].key == KeyOf(t)
                        && multiset(groups[i].nodes)[SortTree(t)] == multiset(SortEach(roots))[SortTree(t)] > 0
                        && forall j | 0 <= j < |groups| && j != i :: SortTree(t) !in groups[j].nodes
  {
    hide Holds, KeyOf, SortEach, SortTree;
    var ks, u := KeysOf(groups), SortTree(t);
    SortKeepsKey(t);
    assert KeyOf(t) in ks;
    var i :| 0 <= i < |ks| && ks[i] == KeyOf(t);
    assert groups[i] in groups && groups[i].key == KeyOf(u);
    NodesOfGroup(roots, groups[i], u);
    SortedRootOccurs(roots, t);
    forall j | 0 <= j < |groups| && j != i ensures u !in groups[j].nodes {
      assert groups[j] in groups && ks[j] != ks[i] && ks[j] == groups[j].key;
      NodesOfGroup(roots, groups[j], u);
    }
  }

  lemma SortedRootOccurs(roots: seq<Tree>, t: Tree)
    requires t in roots
    ensures multiset(SortEach(roots))[SortTree(t)] > 0
  {
    hide SortTree;
    SortEachAt(roots);
    var i :| 0 <= i < |roots| && roots[i] == t;
    assert SortEach(roots)[i] in SortEach(roots);
  }

  // ---- the method ----

  ghost predicate Collected(roots: seq<Tree>, order: seq<Key>, groups: map<Key, Group>) {
    && NoDuplicates(order) && Elems(order) == groups.Keys
    && (forall t | t in roots :: KeyOf(t) in groups)
    && (forall k | k in groups :: groups[k].key == k && DescribesKey(roots, groups[k]))
  }

  lemma CollectOne(roots: seq<Tree>, order: seq<Key>, groups: map<Key, Group>, t: Tree)
    requires Collected(roots, order, groups)
    ensures var k := KeyOf(t);
      Collected(roots + [t], if k in groups then order else order + [k],
                groups[k := Add(if k in groups then groups[k] else NewGroup(t), t)])
  {
    hide KeyOf, Latest, Describes;
    var k, all := KeyOf(t), roots + [t];
    assert all[..|roots|] == roots;
    WithKeyContents(roots, k);
    var ts := WithKey(roots, k);
    NewGroupKey(t);
    assert ts != [] ==> ts[0] in ts && KeyOf(ts[0]) in groups;
    AddDescribes(if k in groups then groups[k] else NewGroup(t), ts, t);
    assert WithKey(all, k) == ts + [t];
    forall x | x in groups && x != k ensures DescribesKey(all, groups[x]) {
      assert WithKey(all, x) == WithKey(roots, x);
    }
  }

  lemma NewGroupKey(t: Tree)
    ensures NewGroup(t).key == KeyOf(t)
  {
  }

  function SortNodes(g: Group): (r: Group) { g.(nodes := SortForest(g.nodes)) }

  method Collect(roots: seq<Tree>) returns (order: seq<Key>, groups: map<Key, Group>)
    ensures Collected(roots, order, groups)
  {
    hide Collected, KeyOf, Add, NewGroup;
    order, groups := [], map[];
    CollectNothing();
    for i := 0 to |roots|
      invariant Collected(roots[..i], order, groups)
    {
      CollectOne(roots[..i], order, groups, roots[i]);
      assert roots[..i + 1] == roots[..i] + [roots[i]];
      var k := KeyOf(roots[i]);
      var current := if k in groups then groups[k] else NewGroup(roots[i]);
      if k !in groups { order := order + [k]; }
      groups := groups[k := Add(current, roots[i])];
    }
    assert roots[..|roots|] == roots;
  }

  lemma CollectNothing()
    ensures Collected([], [], map[])
  {
  }

  method GroupByProject(roots: seq<Tree>) returns (grouped: seq<Group>)
    ensures Grouped(roots, grouped) && SortedBy(GROUP_LEQ, grouped)
  {
    hide *;
    var order, groups := Collect(roots);
    CollectedKeys(roots, order, groups);
    grouped := SortEachGroup(order, groups);
    CollectedIsGrouped(roots, order, groups, grouped);
    GroupedIsOrderFree(roots, grouped);
    grouped := Sort(GROUP_LEQ, grouped);
  }

  method SortEachGroup(order: seq<Key>, groups: map<Key, Group>) returns (grouped: seq<Group>)
    requires forall j | 0 <= j < |order| :: order[j] in groups
    ensures |grouped| == |order| && forall j | 0 <= j < |order| :: grouped[j] == SortNodes(groups[order[j]])
  {
    hide SortNodes;
    grouped := [];
    for i := 0 to |order|
      invariant |grouped| == i && forall j | 0 <= j < i :: grouped[j] == SortNodes(groups[order[j]])
    {
      grouped := grouped + [SortNodes(groups[order[i]])];
    }
  }

  lemma CollectedKeys(roots: seq<Tree>, order: seq<Key>, groups: map<Key, Group>)
    requires Collected(roots, order, groups)
    ensures forall j | 0 <= j < |order| :: order[j] in groups
  {
    assert forall j | 0 <= j < |order| :: order[j] in Elems(order);
  }

  lemma CollectedIsGrouped(roots: seq<Tree>, order: seq<Key>, groups: map<Key, Group>, grouped: seq<Group>)
    requires Collected(roots, order, groups) && |grouped| == |order|
    requires forall j | 0 <= j < |order| :: order[j] in groups && grouped[j] == SortNodes(groups[order[j]])
    ensures Grouped(roots, grouped)
  {
    hide KeyOf, SortForest, WithKey, Latest, IsFirstProject, IsGreatest;
    assert KeysOf(grouped) == order;
    forall t | t in roots ensures KeyOf(t) in order { assert KeyOf(t) in Elems(order); }
    forall g | g in grouped ensures Holds(roots, g) {
      var j :| 0 <= j < |grouped| && grouped[j] == g;
      assert DescribesKey(roots, groups[order[j]]);
      assert g.(nodes := WithKey(roots, g.key)) == groups[order[j]];
    }
  }

  /** The final sort of the groups loses none and adds none. */
  lemma GroupedIsOrderFree(roots: seq<Tree>, groups: seq<Group>)
    requires Grouped(roots, groups)
    ensures Grouped(roots, Sort(GROUP_LEQ, groups)) && SortedBy(GROUP_LEQ, Sort(GROUP_LEQ, groups))
  {
    hide Holds, KeyOf, Sort, GROUP_LEQ;
    var r := Sort(GROUP_LEQ, groups);
    GroupLeqIsTotal();
    SortSorts(GROUP_LEQ, groups);
    SortIsPermutation(GROUP_LEQ, groups);
    SamePermutation(r, groups);
    MapPermutes((g: Group) => g.key, r, groups);
    SamePermutation(KeysOf(r), KeysOf(groups));
    DistinctPermutes(KeysOf(groups), KeysOf(r));
  }

  lemma DistinctPermutes(a: seq<Key>, b: seq<Key>)
    requires NoDuplicates(a) && multiset(a) == multiset(b)
    ensures NoDuplicates(b)
  {
    forall i, j | 0 <= i < j < |b| ensures b[i] != b[j] {
      if b[i] == b[j] {
        assert b == b[..i] + [b[i]] + b[i + 1..j] + [b[j]] + b[j + 1..];
        assert multiset(b)[b[i]] >= 2;
        DistinctCountsOnce(a, b[i]);
      }
    }
  }

  lemma {:induction false} DistinctCountsOnce(a: seq<Key>, x: Key)
    requires NoDuplicates(a)
    ensures multiset(a)[x] <= 1
    decreases |a|
  {
    if a != [] {
      assert a == [a[0]] + a[1..];
      DistinctCountsOnce(a[1..], x);
    }
  }
}
