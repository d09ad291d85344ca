/** The progress shown for a task: its own, or the rounded average of its children's when its own says nothing. */
module TaskProgress {
  import opened Tables
  import opened StableSort
  import opened TaskForest

  /** `Math.max(0, Math.min(100, Math.round(x)))`; rounding is half up. */
  function Clamp(x: real): (n: int) {
    var rounded := (x + 0.5).Floor;
    if rounded > 100 then 100 else if rounded < 0 then 0 else rounded
  }

  function OwnProgress(t: Task): (n: int) {
    if t.status.Done? then 100 else if t.progress.None? then 0 else Clamp(t.progress.value)
  }

  predicate Authoritative(t: Task) { !t.status.OtherStatus? || OwnProgress(t) > 0 }

  function Sum(s: seq<int>): (n: int) { if s == [] then 0 else s[0] + Sum(s[1..]) }

  function Average(s: seq<int>): (n: int)
    requires s != []
  {
    Clamp(Sum(s) as real / |s| as real)
  }

  function Shown(t: Tree): (n: int)
    decreases t
  {
    if t.children == [] || Authoritative(t.task) then OwnProgress(t.task)
    else
      var average := Average(ShownEach(t.children));
      if average <= 0 then OwnProgress(t.task) else average
  }

  function ShownEach(ts: seq<Tree>): (r: seq<int>)
    ensures |r| == |ts| && forall i | 0 <= i < |ts| :: r[i] == Shown(ts[i])
    decreases ts
  {
    if ts == [] then [] else [Shown(ts[0])] + ShownEach(ts[1..])
  }

  // ---- no progress is invented ----

  lemma {:induction false} SumWithin(s: seq<int>, lo: int, hi: int)
    requires forall i | 0 <= i < |s| :: lo <= s[i] <= hi
    ensures lo * |s| <= Sum(s) <= hi * |s|
    decreases |s|
  {
    if s != [] { SumWithin(s[1..], lo, hi); }
  }

  lemma AverageWithin(s: seq<int>, lo: int, hi: int)
    requires s != [] && 0 <= lo <= hi <= 100 && forall i | 0 <= i < |s| :: lo <= s[i] <= hi
    ensures lo <= Average(s) <= hi
  {
    SumWithin(s, lo, hi);
    QuotientWithin(Sum(s), |s|, lo, hi);
  }

  lemma QuotientWithin(sum: int, n: int, lo: int, hi: int)
    requires n > 0 && lo * n <= sum <= hi * n
    ensures lo as real <= sum as real / n as real <= hi as real
  {
    var q := sum as real / n as real;
    assert q * n as real == sum as real;
    assert (lo * n) as real == lo as real * n as real && (hi * n) as real == hi as real * n as real;
  }

  ghost predicate OwnWithin(t: Tree, lo: int, hi: int)
    decreases t
  {
    lo <= OwnProgress(t.task) <= hi && forall i | 0 <= i < |t.children| :: OwnWithin(t.children[i], lo, hi)
  }

  /** The progress shown for a tree lies between the least and the greatest progress of its tasks. */
  lemma {:induction false} ShownWithin(t: Tree, lo: int, hi: int)
    requires 0 <= lo <= hi <= 100 && OwnWithin(t, lo, hi)
    ensures lo <= Shown(t) <= hi
    decreases t
  {
    hide Average, OwnProgress;
    forall i | 0 <= i < |t.children| ensures lo <= Shown(t.children[i]) <= hi {
      ShownWithin(t.children[i], lo, hi);
    }
    if t.children != [] { AverageWithin(ShownEach(t.children), lo, hi); }
  }

  // ---- what is shown, exactly ----

  /** Rounding to the nearest percent, half up, within 0 and 100. */
  lemma ClampIsNearest(x: real)
    ensures 0 <= Clamp(x) <= 100
    ensures 0.0 <= x <= 100.0 ==> Clamp(x) as real - 0.5 <= x < Clamp(x) as real + 0.5
    ensures (x < 0.0 ==> Clamp(x) == 0) && (x > 100.0 ==> Clamp(x) == 100)
  {
  }

  lemma {:induction false} SumAdds(a: seq<int>, b: seq<int>)
    ensures Sum(a + b) == Sum(a) + Sum(b) && forall x :: Sum([x]) == x
    decreases |a|
  {
    if a == [] {
      assert a + b == b;
    } else {
      assert (a + b)[1..] == a[1..] + b;
      SumAdds(a[1..], b);
    }
  }

  lemma {:induction false} AllWithin(t: Tree)
    ensures OwnWithin(t, 0, 100)
    decreases t
  {
    forall i | 0 <= i < |t.children| ensures OwnWithin(t.children[i], 0, 100) { AllWithin(t.children[i]); }
    if t.task.progress.Some? { ClampIsNearest(t.task.progress.value); }
  }

  /** A task that is finished or says something of its own shows that; any other shows the mean of what its children
      show, rounded to the nearest percent, half up. */
  lemma ShownIsMean(t: Tree)
    ensures t.task.status.Done? ==> Shown(t) == 100
    ensures !t.task.status.Done? && (t.children == [] || Authoritative(t.task)) ==>
              Shown(t) == if t.task.progress.None? then 0 else Clamp(t.task.progress.value)
    ensures t.children != [] && !Authoritative(t.task) ==>
              var mean := Sum(ShownEach(t.children)) as real / |t.children| as real;
              Shown(t) as real - 0.5 <= mean < Shown(t) as real + 0.5
  {
    if t.children != [] && !Authoritative(t.task) {
      var each := ShownEach(t.children);
      AllWithin(t);
      forall i | 0 <= i < |each| ensures 0 <= each[i] <= 100 { ShownWithin(t.children[i], 0, 100); }
      SumWithin(each, 0, 100);
      QuotientWithin(Sum(each), |each|, 0, 100);
      ClampIsNearest(Sum(each) as real / |each| as real);
    }
  }

  // ---- sorting the tree does not change it ----

  lemma {:induction false} SumPermutes(a: seq<int>, b: seq<int>)
    requires multiset(a) == multiset(b)
    ensures Sum(a) == Sum(b)
    decreases |a|
  {
    SamePermutation(a, b);
    if a != [] {
      assert a[0] in b;
      var j :| 0 <= j < |b| && b[j] == a[0];
      WithoutOne(a, 0);
      WithoutOne(b, j);
      assert Without(a, 0) == a[1..];
      SumPermutes(a[1..], Without(b, j));
      SumWithout(b, j);
    }
  }

  lemma {:induction false} SumWithout(s: seq<int>, j: nat)
    requires j < |s|
    ensures Sum(s) == s[j] + Sum(Without(s, j))
    decreases |s|
  {
    if j == 0 {
      assert Without(s, 0) == s[1..];
    } else {
      SumWithout(s[1..], j - 1);
      assert Without(s, j)[1..] == Without(s[1..], j - 1);
    }
  }

  lemma {:induction false} SortKeepsShown(t: Tree)
    ensures Shown(SortTree(t)) == Shown(t)
    decreases t
  {
    hide Average, OwnProgress, Authoritative, Sort;
    var each := SortEach(t.children);
    SortEachAt(t.children);
    forall i | 0 <= i < |each| ensures Shown(each[i]) == Shown(t.children[i]) {
      SortKeepsShown(t.children[i]);
    }
    assert ShownEach(each) == ShownEach(t.children);
    var sorted := Sort(LEQ, each);
    SortIsPermutation(LEQ, each);
    SamePermutation(sorted, each);
    MapPermutes(Shown, sorted, each);
    assert ShownEach(sorted) == Map(Shown, sorted) && ShownEach(each) == Map(Shown, each);
    SamePermutation(ShownEach(sorted), ShownEach(each));
    if each != [] { AveragePermutes(ShownEach(sorted), ShownEach(each)); }
  }

  lemma AveragePermutes(a: seq<int>, b: seq<int>)
    requires a != [] && |a| == |b| && multiset(a) == multiset(b)
    ensures Average(a) == Average(b)
  {
    SumPermutes(a, b);
  }
}
