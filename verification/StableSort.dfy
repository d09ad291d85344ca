/** A stable sort of a sequence by a total preorder, and what characterises its result. */
module StableSort {
  import opened Tables

  ghost predicate SortedBy<T>(leq: (T, T) -> bool, s: seq<T>) {
    forall i, j :: 0 <= i < j < |s| ==> leq(s[i], s[j])
  }

  function Insert<T>(leq: (T, T) -> bool, x: T, s: seq<T>): (r: seq<T>) {
    if s == [] then [x] else if leq(x, s[0]) then [x] + s else [s[0]] + Insert(leq, x, s[1..])
  }

  function Sort<T>(leq: (T, T) -> bool, s: seq<T>): (r: seq<T>) {
    if s == [] then [] else Insert(leq, s[0], Sort(leq, s[1..]))
  }

  lemma {:induction false} InsertIsPermutation<T>(leq: (T, T) -> bool, x: T, s: seq<T>)
    ensures multiset(Insert(leq, x, s)) == multiset([x] + s)
    decreases |s|
  {
    if s != [] && !leq(x, s[0]) {
      InsertIsPermutation(leq, x, s[1..]);
      assert s == [s[0]] + s[1..];
    }
  }

  lemma {:induction false} SortIsPermutation<T>(leq: (T, T) -> bool, s: seq<T>)
    ensures multiset(Sort(leq, s)) == multiset(s)
    decreases |s|
  {
    if s != [] {
      SortIsPermutation(leq, s[1..]);
      InsertIsPermutation(leq, s[0], Sort(leq, s[1..]));
      assert s == [s[0]] + s[1..];
    }
  }

  lemma SamePermutation<T>(s: seq<T>, t: seq<T>)
    requires multiset(s) == multiset(t)
    ensures |s| == |t| && forall x :: x in s <==> x in t
  {
    assert |multiset(s)| == |multiset(t)|;
    assert forall x :: x in s <==> x in multiset(s);
    assert forall x :: x in t <==> x in multiset(t);
  }

  lemma TailsPermute<T>(s: seq<T>, t: seq<T>)
    requires multiset(s) == multiset(t) && s != [] && t != [] && s[0] == t[0]
    ensures multiset(s[1..]) == multiset(t[1..])
  {
    assert s == [s[0]] + s[1..] && t == [t[0]] + t[1..];
    assert multiset(s[1..]) == multiset(s) - multiset{s[0]};
    assert multiset(t[1..]) == multiset(t) - multiset{t[0]};
  }

  lemma {:induction false} InsertSorts<T(!new)>(leq: (T, T) -> bool, x: T, s: seq<T>)
    requires TotalPreorder(leq) && SortedBy(leq, s)
    ensures SortedBy(leq, Insert(leq, x, s))
    decreases |s|
  {
    if s != [] && !leq(x, s[0]) {
      var rest := Insert(leq, x, s[1..]);
      InsertSorts(leq, x, s[1..]);
      InsertIsPermutation(leq, x, s[1..]);
      SamePermutation(rest, [x] + s[1..]);
      assert forall y | y in rest :: leq(s[0], y);
    }
  }

  lemma {:induction false} SortSorts<T(!new)>(leq: (T, T) -> bool, s: seq<T>)
    requires TotalPreorder(leq)
    ensures SortedBy(leq, Sort(leq, s))
    decreases |s|
  {
    if s != [] {
      SortSorts(leq, s[1..]);
      InsertSorts(leq, s[0], Sort(leq, s[1..]));
    }
  }

  lemma {:induction false} SortedIsFixed<T>(leq: (T, T) -> bool, s: seq<T>)
    requires SortedBy(leq, s)
    ensures Sort(leq, s) == s
    decreases |s|
  {
    if s != [] { SortedIsFixed(leq, s[1..]); }
  }

  // ---- stability ----

  /** The elements tied with `x`, in their order. */
  function TiedWith<T>(leq: (T, T) -> bool, x: T, s: seq<T>): (r: seq<T>) {
    if s == [] then []
    else (if leq(x, s[0]) && leq(s[0], x) then [s[0]] else []) + TiedWith(leq, x, s[1..])
  }

  lemma {:induction false} InsertIsStable<T(!new)>(leq: (T, T) -> bool, x: T, y: T, s: seq<T>)
    requires TotalPreorder(leq)
    ensures TiedWith(leq, x, Insert(leq, y, s)) == TiedWith(leq, x, [y] + s)
    decreases |s|
  {
    assert ([y] + s)[1..] == s;
    if s != [] && !leq(y, s[0]) {
      InsertIsStable(leq, x, y, s[1..]);
      assert ([y] + s[1..])[1..] == s[1..];
      var tied, tiedFirst := leq(x, y) && leq(y, x), leq(x, s[0]) && leq(s[0], x);
      assert !(tied && tiedFirst);
    }
  }

  /** Tied elements keep their order. */
  lemma {:induction false} SortIsStable<T(!new)>(leq: (T, T) -> bool, x: T, s: seq<T>)
    requires TotalPreorder(leq)
    ensures TiedWith(leq, x, Sort(leq, s)) == TiedWith(leq, x, s)
    decreases |s|
  {
    if s != [] {
      SortIsStable(leq, x, s[1..]);
      InsertIsStable(leq, x, s[0], Sort(leq, s[1..]));
      assert ([s[0]] + Sort(leq, s[1..]))[1..] == Sort(leq, s[1..]);
    }
  }

  /** Sorted, a permutation and stable: there is only one such sequence, so any stable sort computes `Sort`. */
  lemma {:induction false} StableSortIsUnique<T(!new)>(leq: (T, T) -> bool, s: seq<T>, t: seq<T>)
    requires TotalPreorder(leq) && SortedBy(leq, s) && SortedBy(leq, t)
    requires multiset(s) == multiset(t) && forall x :: TiedWith(leq, x, s) == TiedWith(leq, x, t)
    ensures s == t
    decreases |s|
  {
    SamePermutation(s, t);
    if s != [] {
      assert s[0] in t && t[0] in s;
      assert leq(s[0], t[0]) && leq(t[0], s[0]);
      assert TiedWith(leq, s[0], s)[0] == s[0] && TiedWith(leq, s[0], t)[0] == t[0];
      assert s[0] == t[0];
      TailsPermute(s, t);
      assert s == [s[0]] + s[1..] && t == [t[0]] + t[1..];
      forall x ensures TiedWith(leq, x, s[1..]) == TiedWith(leq, x, t[1..]) {
        var head := if leq(x, s[0]) && leq(s[0], x) then [s[0]] else [];
        var a, b := TiedWith(leq, x, s[1..]), TiedWith(leq, x, t[1..]);
        assert TiedWith(leq, x, s) == head + a && TiedWith(leq, x, t) == head + b;
        assert (head + a)[|head|..] == a && (head + b)[|head|..] == b;
      }
      StableSortIsUnique(leq, s[1..], t[1..]);
    }
  }

  /** Without ties the order of the input does not matter. */
  lemma {:induction false} SortForgetsOrder<T(!new)>(leq: (T, T) -> bool, s: seq<T>, t: seq<T>)
    requires SortedBy(leq, s) && SortedBy(leq, t) && multiset(s) == multiset(t)
    requires forall x, y | x in s && y in s && leq(x, y) && leq(y, x) :: x == y
    ensures s == t
    decreases |s|
  {
    SamePermutation(s, t);
    if s != [] {
      assert s[0] in t && t[0] in s;
      assert forall x | x in s :: x == s[0] || leq(s[0], x);
      assert forall x | x in t :: x == t[0] || leq(t[0], x);
      assert s[0] == t[0];
      TailsPermute(s, t);
      assert forall x | x in s[1..] :: x in s;
      SortForgetsOrder(leq, s[1..], t[1..]);
    }
  }

  // ---- mapping ----

  function Map<T, U>(f: T -> U, s: seq<T>): (r: seq<U>)
    ensures |r| == |s| && forall i | 0 <= i < |s| :: r[i] == f(s[i])
  {
    seq(|s|, i requires 0 <= i < |s| => f(s[i]))
  }

  function Without<T>(s: seq<T>, j: nat): (r: seq<T>)
    requires j < |s|
  {
    s[..j] + s[j + 1..]
  }

  lemma WithoutOne<T>(s: seq<T>, j: nat)
    requires j < |s|
    ensures multiset(s) == multiset(Without(s, j)) + multiset{s[j]}
    ensures multiset(Without(s, j)) == multiset(s) - multiset{s[j]}
  {
    assert s == s[..j] + [s[j]] + s[j + 1..];
  }

  lemma MapWithout<T, U>(f: T -> U, s: seq<T>, j: nat)
    requires j < |s|
    ensures |Map(f, s)| == |s|
    ensures multiset(Map(f, s)) == multiset(Map(f, Without(s, j))) + multiset{f(s[j])}
  {
    WithoutOne(Map(f, s), j);
    assert Map(f, Without(s, j)) == Without(Map(f, s), j);
  }

  lemma {:induction false} MapPermutes<T, U>(f: T -> U, a: seq<T>, b: seq<T>)
    requires multiset(a) == multiset(b)
    ensures multiset(Map(f, a)) == multiset(Map(f, b))
    decreases |a|
  {
    SamePermutation(a, b);
    if a == [] {
      assert a == b;
    } else {
      assert a[0] in b;
      var j :| 0 <= j < |b| && b[j] == a[0];
      hide Map, Without;
      WithoutOne(a, 0);
      WithoutOne(b, j);
      MapWithout(f, a, 0);
      MapWithout(f, b, j);
      MapPermutes(f, Without(a, 0), Without(b, j));
    }
  }

  ghost predicate Respects<T, U>(leq: (T, T) -> bool, leq': (U, U) -> bool, f: T -> U, s: seq<T>) {
    forall i, j | 0 <= i < |s| && 0 <= j < |s| :: leq(s[i], s[j]) == leq'(f(s[i]), f(s[j]))
  }

  /** Sorting commutes with a map that respects the two orders. */
  lemma {:induction false} SortMaps<T, U>(leq: (T, T) -> bool, leq': (U, U) -> bool, f: T -> U, s: seq<T>)
    requires Respects(leq, leq', f, s)
    ensures Map(f, Sort(leq, s)) == Sort(leq', Map(f, s))
    decreases |s|
  {
    if s != [] {
      var rest := s[1..];
      SortMaps(leq, leq', f, rest);
      SortIsPermutation(leq, rest);
      var r := Sort(leq, rest);
      forall i | 0 <= i < |r| ensures leq(s[0], r[i]) == leq'(f(s[0]), f(r[i])) {
        assert r[i] in multiset(r) && r[i] in rest;
        var j :| 0 <= j < |rest| && rest[j] == r[i];
        assert s[j + 1] == r[i];
      }
      InsertMaps(leq, leq', f, s[0], r);
      assert Map(f, s)[1..] == Map(f, rest);
    }
  }

  lemma {:induction false} InsertMaps<T, U>(leq: (T, T) -> bool, leq': (U, U) -> bool, f: T -> U, x: T, s: seq<T>)
    requires forall i | 0 <= i < |s| :: leq(x, s[i]) == leq'(f(x), f(s[i]))
    ensures Map(f, Insert(leq, x, s)) == Insert(leq', f(x), Map(f, s))
    decreases |s|
  {
    if s != [] {
      assert Map(f, s)[1..] == Map(f, s[1..]);
      if !leq(x, s[0]) { InsertMaps(leq, leq', f, x, s[1..]); }
    }
  }
}
