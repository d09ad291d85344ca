/**
 The same sort in place: nodes are objects whose child lists are reassigned, with a memo of subtree recency for each
 sibling list. A node's footprint is the set of nodes of its subtree; sorting permutes children and leaves it alone.
 */
module TaskNodes {
  import opened Tables
  import opened StableSort
  import opened TaskForest

  class TaskNode {
    const task: Task
    var children: seq<TaskNode>
    ghost const footprint: set<TaskNode>

    constructor Leaf(task: Task)
      ensures Valid() && Tree() == Node(task, []) && fresh(footprint)
    {
      this.task, children := task, [];
      footprint := {this};
    }

    ghost predicate Valid()
      reads this, footprint
      decreases footprint, 0
    {
      this in footprint && AllValid(children, footprint - {this})
    }

    /** The value of the subtree. */
    ghost function Tree(): (t: Tree)
      requires Valid()
      reads this, footprint
      decreases footprint, 0
    {
      Node(task, TreesOf(children, footprint - {this}))
    }

    /** Sorts the lists below this node. */
    method SortSubtree()
      requires Valid()
      modifies footprint
      ensures Valid() && Tree() == SortTree(old(Tree()))
      decreases footprint, 1
    {
      hide SortForest;
      var sorted := SortNodes(children, footprint - {this});
      children := sorted;
    }
  }

  /** Different list positions have disjoint subtrees. */
  ghost predicate Apart(nodes: seq<TaskNode>) {
    forall i, j | 0 <= i < j < |nodes| :: nodes[i].footprint !! nodes[j].footprint
  }

  /** The nodes are roots of separate valid trees inside `fp`. */
  ghost predicate AllValid(nodes: seq<TaskNode>, fp: set<TaskNode>)
    reads fp
    decreases fp, 1
  {
    Apart(nodes) && forall i | 0 <= i < |nodes| :: nodes[i] in fp && nodes[i].footprint <= fp && nodes[i].Valid()
  }

  ghost function TreesOf(nodes: seq<TaskNode>, fp: set<TaskNode>): (ts: seq<Tree>)
    requires AllValid(nodes, fp)
    reads fp
    ensures |ts| == |nodes| && forall i | 0 <= i < |nodes| :: ts[i] == nodes[i].Tree()
    decreases fp, 1, |nodes|
  {
    if nodes == [] then [] else [nodes[0].Tree()] + TreesOf(nodes[1..], fp)
  }

  lemma ApartAfterPermuting(a: seq<TaskNode>, b: seq<TaskNode>)
    requires Apart(a) && multiset(a) == multiset(b) && forall i | 0 <= i < |a| :: a[i] in a[i].footprint
    ensures Apart(b) && |a| == |b| && forall i | 0 <= i < |b| :: b[i] in a
  {
    SamePermutation(a, b);
    forall i | 0 <= i < |b| ensures b[i] in a { assert b[i] in multiset(b); }
    forall i, j | 0 <= i < j < |b| ensures b[i].footprint !! b[j].footprint {
      var k :| 0 <= k < |a| && a[k] == b[i];
      var l :| 0 <= l < |a| && a[l] == b[j];
      if k == l {
        CountsTwice(b, i, j);
        CountsOnce(a, k);
      }
    }
  }

  lemma CountsTwice(b: seq<TaskNode>, i: nat, j: nat)
    requires i < j < |b| && b[i] == b[j]
    ensures multiset(b)[b[i]] >= 2
  {
    assert b == b[..i] + [b[i]] + b[i + 1..j] + [b[j]] + b[j + 1..];
  }

  lemma CountsOnce(a: seq<TaskNode>, k: nat)
    requires k < |a| && Apart(a) && forall i | 0 <= i < |a| :: a[i] in a[i].footprint
    ensures multiset(a)[a[k]] == 1
  {
    assert a == a[..k] + [a[k]] + a[k + 1..];
    assert a[k] !in a[..k] && a[k] !in a[k + 1..];
  }

  /** The comparator, with the recencies found in the memo. */
  predicate NodeLeq(memo: map<TaskNode, nat>, a: TaskNode, b: TaskNode) {
    var left, right := if a in memo then memo[a] else 0, if b in memo then memo[b] else 0;
    left > right || (left == right && TaskLeq(a.task, b.task))
  }

  /** Every memoised number is the plain recursive maximum of the node's subtree. */
  ghost predicate MemoIsRight(memo: map<TaskNode, nat>, fp: set<TaskNode>)
    reads fp
  {
    forall n | n in memo :: n in fp && n.footprint <= fp && n.Valid() && memo[n] == Latest(n.Tree())
  }

  lemma LatestOfNode(n: TaskNode)
    requires n.Valid()
    ensures Latest(n.Tree()) == Max(Recency(n.task), LatestOf(TreesOf(n.children, n.footprint - {n})))
  {
  }

  method NodeRecency(n: TaskNode, memo: map<TaskNode, nat>, ghost fp: set<TaskNode>)
    returns (latest: nat, more: map<TaskNode, nat>)
    requires n in fp && n.footprint <= fp && n.Valid() && MemoIsRight(memo, fp)
    ensures latest == Latest(n.Tree()) && MemoIsRight(more, fp) && n in more && memo.Keys <= more.Keys
    decreases n.footprint, 0
  {
    if n in memo { return memo[n], memo; }
    LatestOfNode(n);
    hide Latest, LatestOf, Recency, MemoIsRight;
    latest, more := ListRecency(n.children, Recency(n.task), memo, n.footprint - {n}, fp);
    MemoMore(more, n, fp);
    more := more[n := latest];
  }

  method ListRecency(nodes: seq<TaskNode>, own: nat, memo: map<TaskNode, nat>, ghost sub: set<TaskNode>,
      ghost fp: set<TaskNode>)
    returns (latest: nat, more: map<TaskNode, nat>)
    requires AllValid(nodes, sub) && sub <= fp && MemoIsRight(memo, fp)
    ensures latest == Max(own, LatestOf(TreesOf(nodes, sub))) && MemoIsRight(more, fp) && memo.Keys <= more.Keys
    ensures forall i | 0 <= i < |nodes| :: nodes[i] in more
    decreases sub, 1
  {
    ghost var trees := TreesOf(nodes, sub);
    LatestOfNothing(own);
    CoversNothing(memo, nodes);
    hide Latest, LatestOf, MemoIsRight, Max, AllValid, Apart, TreesOf, TaskNode.Valid, TaskNode.Tree, Covers, Shows;
    assert Shows(nodes, sub, trees) by { ShowsNow(nodes, sub); }
    latest, more := own, memo;
    for i := 0 to |nodes|
      invariant Shows(nodes, sub, trees) && |trees| == |nodes|
      invariant MemoIsRight(more, fp) && Covers(memo, more, nodes, i)
      invariant latest == Max(own, LatestOf(trees[..i]))
    {
      ShowsAt(nodes, sub, trees, i);
      var child, next := NodeRecency(nodes[i], more, fp);
      CoversMore(memo, more, next, nodes, i);
      LatestUpTo(own, trees, i);
      more, latest := next, Max(latest, child);
    }
    assert trees[..|nodes|] == trees;
    CoversAll(memo, more, nodes);
    ShowsTrees(nodes, sub, trees);
  }

  /** `trees` are the values of valid nodes. */
  ghost predicate Shows(nodes: seq<TaskNode>, fp: set<TaskNode>, trees: seq<Tree>)
    reads fp
  {
    AllValid(nodes, fp) && TreesOf(nodes, fp) == trees
  }

  lemma ShowsNow(nodes: seq<TaskNode>, fp: set<TaskNode>)
    requires AllValid(nodes, fp)
    ensures Shows(nodes, fp, TreesOf(nodes, fp))
  {
  }

  lemma ShowsAt(nodes: seq<TaskNode>, fp: set<TaskNode>, trees: seq<Tree>, i: nat)
    requires Shows(nodes, fp, trees) && i < |nodes|
    ensures i < |trees| && nodes[i] in fp && nodes[i].footprint <= fp && nodes[i].Valid() && nodes[i].Tree() == trees[i]
  {
  }

  lemma ShowsTrees(nodes: seq<TaskNode>, fp: set<TaskNode>, trees: seq<Tree>)
    requires Shows(nodes, fp, trees)
    ensures AllValid(nodes, fp) && TreesOf(nodes, fp) == trees
  {
  }

  /** `more` extends `memo` and knows the first `i` nodes. */
  ghost predicate Covers(memo: map<TaskNode, nat>, more: map<TaskNode, nat>, nodes: seq<TaskNode>, i: nat) {
    i <= |nodes| && memo.Keys <= more.Keys && forall j | 0 <= j < i :: nodes[j] in more
  }

  lemma CoversNothing(memo: map<TaskNode, nat>, nodes: seq<TaskNode>)
    ensures Covers(memo, memo, nodes, 0)
  {
  }

  lemma CoversMore(memo: map<TaskNode, nat>, more: map<TaskNode, nat>, next: map<TaskNode, nat>,
      nodes: seq<TaskNode>, i: nat)
    requires Covers(memo, more, nodes, i) && i < |nodes| && more.Keys <= next.Keys && nodes[i] in next
    ensures Covers(memo, next, nodes, i + 1)
  {
  }

  lemma CoversAll(memo: map<TaskNode, nat>, more: map<TaskNode, nat>, nodes: seq<TaskNode>)
    requires Covers(memo, more, nodes, |nodes|)
    ensures memo.Keys <= more.Keys && forall j | 0 <= j < |nodes| :: nodes[j] in more
  {
  }

  lemma LatestOfNothing(own: nat)
    ensures Max(own, LatestOf([])) == own
  {
  }

  lemma LatestUpTo(own: nat, trees: seq<Tree>, i: nat)
    requires i < |trees|
    ensures Max(Max(own, LatestOf(trees[..i])), Latest(trees[i])) == Max(own, LatestOf(trees[..i + 1]))
  {
    hide Latest, LatestOf;
    assert trees[..i + 1] == trees[..i] + [trees[i]];
    LatestOfMore(trees[..i], trees[i]);
  }

  lemma MemoMore(memo: map<TaskNode, nat>, n: TaskNode, fp: set<TaskNode>)
    requires n in fp && n.footprint <= fp && n.Valid() && MemoIsRight(memo, fp)
    ensures MemoIsRight(memo[n := Latest(n.Tree())], fp)
  {
    hide Latest;
  }

  lemma {:induction false} LatestOfMore(ts: seq<Tree>, t: Tree)
    ensures LatestOf(ts + [t]) == Max(LatestOf(ts), Latest(t))
    decreases |ts|
  {
    hide Latest;
    if ts == [] {
      assert [] + [t] == [t];
    } else {
      assert (ts + [t])[1..] == ts[1..] + [t];
      LatestOfMore(ts[1..], t);
    }
  }

  /** `sortTaskTreeByRecency`: every list below, then this one. */
  method SortNodes(nodes: seq<TaskNode>, ghost fp: set<TaskNode>) returns (sorted: seq<TaskNode>)
    requires AllValid(nodes, fp)
    modifies fp
    ensures multiset(sorted) == multiset(nodes) && AllValid(sorted, fp)
    ensures TreesOf(sorted, fp) == SortForest(old(TreesOf(nodes, fp)))
    decreases fp, 3
  {
    SortBelow(nodes, fp);
    sorted := SortList(nodes, fp);
  }

  method SortBelow(nodes: seq<TaskNode>, ghost fp: set<TaskNode>)
    requires AllValid(nodes, fp)
    modifies fp
    ensures AllValid(nodes, fp) && TreesOf(nodes, fp) == SortEach(old(TreesOf(nodes, fp)))
    decreases fp, 2
  {
    hide SortTree;
    ghost var before := TreesOf(nodes, fp);
    for i := 0 to |nodes|
      invariant AllValid(nodes, fp)
      invariant forall j | 0 <= j < i :: nodes[j].Tree() == SortTree(before[j])
      invariant forall j | i <= j < |nodes| :: nodes[j].Tree() == before[j]
    {
      nodes[i].SortSubtree();
    }
    SortEachAt(before);
  }

  /** Sorts one list by memoised recency; the nodes themselves do not change. */
  method SortList(nodes: seq<TaskNode>, ghost fp: set<TaskNode>) returns (sorted: seq<TaskNode>)
    requires AllValid(nodes, fp)
    ensures multiset(sorted) == multiset(nodes) && AllValid(sorted, fp)
    ensures TreesOf(sorted, fp) == Sort(LEQ, TreesOf(nodes, fp))
  {
    hide Sort, MemoIsRight;
    EmptyMemo(fp);
    var _, memo := ListRecency(nodes, 0, map[], fp, fp);
    sorted := Sort((a, b) => NodeLeq(memo, a, b), nodes);
    SortedNodes(nodes, memo, fp);
    SortedTrees(nodes, memo, fp);
  }

  lemma EmptyMemo(fp: set<TaskNode>)
    ensures MemoIsRight(map[], fp)
  {
  }

  lemma SortedNodes(nodes: seq<TaskNode>, memo: map<TaskNode, nat>, fp: set<TaskNode>)
    requires AllValid(nodes, fp)
    ensures var sorted := Sort((a, b) => NodeLeq(memo, a, b), nodes);
      multiset(sorted) == multiset(nodes) && AllValid(sorted, fp) && forall i | 0 <= i < |sorted| :: sorted[i] in nodes
  {
    var leq := (a, b) => NodeLeq(memo, a, b);
    hide Sort, NodeLeq;
    SortIsPermutation(leq, nodes);
    ApartAfterPermuting(nodes, Sort(leq, nodes));
  }

  lemma SortedTrees(nodes: seq<TaskNode>, memo: map<TaskNode, nat>, fp: set<TaskNode>)
    requires AllValid(nodes, fp) && MemoIsRight(memo, fp) && forall j | 0 <= j < |nodes| :: nodes[j] in memo
    requires AllValid(Sort((a, b) => NodeLeq(memo, a, b), nodes), fp)
    ensures TreesOf(Sort((a, b) => NodeLeq(memo, a, b), nodes), fp) == Sort(LEQ, TreesOf(nodes, fp))
  {
    var leq := (a, b) => NodeLeq(memo, a, b);
    var trees := map n | n in nodes :: n.Tree();
    MemoRespects(nodes, memo, fp, trees);
    SortedNodes(nodes, memo, fp);
    hide Sort, Leq, NodeLeq, Respects, MemoIsRight, Lookup;
    SortMaps(leq, LEQ, Lookup(trees), nodes);
    LookupTrees(nodes, fp, trees);
    LookupTrees(Sort(leq, nodes), fp, trees);
  }

  function Lookup(trees: map<TaskNode, Tree>): (f: TaskNode -> Tree) {
    (n: TaskNode) => if n in trees then trees[n] else Node(n.task, [])
  }

  lemma LookupTrees(nodes: seq<TaskNode>, fp: set<TaskNode>, trees: map<TaskNode, Tree>)
    requires AllValid(nodes, fp)
    requires forall j | 0 <= j < |nodes| :: nodes[j] in trees && trees[nodes[j]] == nodes[j].Tree()
    ensures Map(Lookup(trees), nodes) == TreesOf(nodes, fp)
  {
  }

  lemma MemoRespects(nodes: seq<TaskNode>, memo: map<TaskNode, nat>, fp: set<TaskNode>, trees: map<TaskNode, Tree>)
    requires AllValid(nodes, fp) && MemoIsRight(memo, fp) && forall j | 0 <= j < |nodes| :: nodes[j] in memo
    requires forall j | 0 <= j < |nodes| :: nodes[j] in trees && trees[nodes[j]] == nodes[j].Tree()
    ensures Respects((a, b) => NodeLeq(memo, a, b), LEQ, Lookup(trees), nodes)
  {
    hide Latest;
    forall i, j | 0 <= i < |nodes| && 0 <= j < |nodes|
      ensures NodeLeq(memo, nodes[i], nodes[j]) == LEQ(trees[nodes[i]], trees[nodes[j]])
    {
      assert memo[nodes[i]] == Latest(trees[nodes[i]]) && memo[nodes[j]] == Latest(trees[nodes[j]]);
      assert trees[nodes[i]].task == nodes[i].task && trees[nodes[j]].task == nodes[j].task;
    }
  }
}
