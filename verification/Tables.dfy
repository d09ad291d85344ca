/** Values shared by the models of the contact database. */
module Tables {

  datatype Option<+T> = None | Some(value: T)

  /** Row identifiers. Only equality and the ORDER BY order of ids matter, so ids are naturals. */
  type Id = nat

  /** SQL COALESCE of two columns. */
  function Coalesce<T>(a: Option<T>, b: Option<T>): (r: Option<T>) {
    if a.Some? then a else b
  }

  ghost function Elems<T>(s: seq<T>): (r: set<T>) {
    set x | x in s
  }

  ghost predicate NoDuplicates<T>(s: seq<T>) {
    forall i, j :: 0 <= i < j < |s| ==> s[i] != s[j]
  }

  ghost predicate TotalPreorder<T(!new)>(leq: (T, T) -> bool) {
    && (forall x, y :: leq(x, y) || leq(y, x))
    && (forall x, y, z :: leq(x, y) && leq(y, z) ==> leq(x, z))
  }

  ghost predicate IsLeast<T>(leq: (T, T) -> bool, s: set<T>, m: T) {
    m in s && forall x | x in s :: leq(m, x)
  }

  /** Every finite nonempty set has a least element: what `ORDER BY ... LIMIT 1` returns. */
  lemma {:induction false} LeastExists<T(!new)>(leq: (T, T) -> bool, s: set<T>) returns (m: T)
    requires s != {} && TotalPreorder(leq)
    ensures IsLeast(leq, s, m)
    decreases |s|
  {
    m :| m in s;
    if s != {m} {
      var rest := s - {m};
      assert s == rest + {m};
      var m' := LeastExists(leq, rest);
      assert forall x | x in s :: x == m || x in rest;
      if !leq(m, m') { m := m'; }
    }
  }

  lemma HasLeast<T(!new)>(leq: (T, T) -> bool, s: set<T>)
    requires s != {} && TotalPreorder(leq)
    ensures exists m :: IsLeast(leq, s, m)
  {
    var _ := LeastExists(leq, s);
  }

  // ---- re-keying the rows of a table, the pattern of every merge loop ----

  /** How one row moves: to `target(k)`, where `combine` folds it into a row that is already there;
      `back` recovers the old key. */
  datatype Rekeying<!K, !V> = Rekeying(target: K -> K, back: K -> K, combine: (Option<V>, V) -> V)

  /** Moved rows land on distinct keys, none of which is itself about to move. */
  ghost predicate Movable<K, V>(how: Rekeying<K, V>, rows: set<K>) {
    forall k | k in rows :: how.back(how.target(k)) == k && how.target(k) !in rows
  }

  /** Rows that would move onto themselves. */
  ghost predicate Fixed<K, V>(how: Rekeying<K, V>, rows: set<K>) {
    forall k | k in rows :: how.target(k) == k
  }

  /** One iteration: fold into the existing row and delete, or re-key. A row folded into itself is deleted. */
  function RekeyOne<K, V>(tab: map<K, V>, k: K, how: Rekeying<K, V>): (r: map<K, V>)
    requires k in tab
  {
    var into := how.target(k);
    var existing := if into in tab then Some(tab[into]) else None;
    if into == k then tab - {k} else (tab - {k})[into := how.combine(existing, tab[k])]
  }

  /** The table once the rows in `done` have moved. */
  ghost function RekeyRows<K, V>(tab: map<K, V>, done: set<K>, how: Rekeying<K, V>): (r: map<K, V>)
    requires done <= tab.Keys && Movable(how, done)
  {
    map k | k in (tab.Keys - done) + (set d | d in done :: how.target(d)) ::
      var from := how.back(k);
      if from in done && how.target(from) == k then
        how.combine(if k in tab then Some(tab[k]) else None, tab[from])
      else tab[k]
  }

  lemma RekeyOneExtends<K, V>(tab: map<K, V>, done: set<K>, k: K, how: Rekeying<K, V>)
    requires done <= tab.Keys && k in tab && k !in done && Movable(how, done + {k})
    ensures Movable(how, done) && k in RekeyRows(tab, done, how)
    ensures RekeyOne(RekeyRows(tab, done, how), k, how) == RekeyRows(tab, done + {k}, how)
  {
    assert Movable(how, done) by {
      forall d | d in done ensures how.back(how.target(d)) == d && how.target(d) !in done {
        assert d in done + {k};
      }
    }
    var into := how.target(k);
    assert k in done + {k} && how.back(into) == k && into !in done + {k};
    var cur, next := RekeyRows(tab, done, how), RekeyRows(tab, done + {k}, how);
    var one := RekeyOne(cur, k, how);
    assert forall d | d in done :: how.target(d) != k && how.target(d) != into by {
      forall d | d in done ensures how.target(d) != k && how.target(d) != into {
        assert d in done + {k};
      }
    }
    assert one.Keys == next.Keys;
    assert cur[k] == tab[k];
    assert into in cur <==> into in tab;
    forall x | x in next ensures one[x] == next[x] {
      if x == into {
      } else if how.back(x) in done && how.target(how.back(x)) == x {
      }
    }
  }

  lemma RekeyNothing<K, V>(tab: map<K, V>, how: Rekeying<K, V>)
    ensures RekeyRows(tab, {}, how) == tab
  {
  }

  lemma MovableSubset<K, V>(how: Rekeying<K, V>, rows: set<K>, some: set<K>)
    requires Movable(how, rows) && some <= rows
    ensures Movable(how, some)
  {
    forall k | k in some ensures how.back(how.target(k)) == k && how.target(k) !in some {
      assert k in rows;
    }
  }

  lemma FixedIsDropped<K, V>(tab: map<K, V>, done: set<K>, k: K, how: Rekeying<K, V>)
    requires k in tab && k !in done && how.target(k) == k
    ensures RekeyOne(tab - done, k, how) == tab - (done + {k})
  {
  }

  /** Where the rows have got to: moved, or dropped when they move onto themselves. */
  ghost predicate Reached<K, V>(tab: map<K, V>, rows: set<K>, done: set<K>, how: Rekeying<K, V>, r: map<K, V>)
    requires done <= rows <= tab.Keys
  {
    && (Movable(how, rows) ==> Movable(how, done) && r == RekeyRows(tab, done, how))
    && (Fixed(how, rows) ==> r == tab - done)
  }

  lemma ReachedMore<K, V>(tab: map<K, V>, rows: set<K>, done: set<K>, k: K, how: Rekeying<K, V>, r: map<K, V>)
    requires done <= rows <= tab.Keys && Reached(tab, rows, done, how, r) && k in rows && k !in done
    requires Movable(how, rows) || Fixed(how, rows)
    ensures k in r && Reached(tab, rows, done + {k}, how, RekeyOne(r, k, how))
  {
    if Movable(how, rows) {
      MovableSubset(how, rows, done + {k});
      RekeyOneExtends(tab, done, k, how);
    }
    if Fixed(how, rows) { FixedIsDropped(tab, done, k, how); }
  }

  method MoveRows<K(==), V>(tab: map<K, V>, rows: set<K>, how: Rekeying<K, V>) returns (r: map<K, V>)
    requires rows <= tab.Keys && (Movable(how, rows) || Fixed(how, rows))
    ensures Movable(how, rows) ==> r == RekeyRows(tab, rows, how)
    ensures Fixed(how, rows) ==> r == tab - rows
  {
    hide Reached, RekeyOne, RekeyRows, Movable, Fixed;
    r := tab;
    var rest := rows;
    ReachedNone(tab, rows, how);
    assert rows - rest == {};
    while rest != {}
      invariant rest <= rows && Reached(tab, rows, rows - rest, how, r)
      decreases |rest|
    {
      var k :| k in rest;
      ReachedMore(tab, rows, rows - rest, k, how, r);
      assert rows - (rest - {k}) == rows - rest + {k};
      r, rest := RekeyOne(r, k, how), rest - {k};
    }
    assert rows - rest == rows;
    ReachedAll(tab, rows, how, r);
  }

  lemma ReachedNone<K, V>(tab: map<K, V>, rows: set<K>, how: Rekeying<K, V>)
    requires rows <= tab.Keys
    ensures Reached(tab, rows, {}, how, tab)
  {
    RekeyNothing(tab, how);
  }

  lemma ReachedAll<K, V>(tab: map<K, V>, rows: set<K>, how: Rekeying<K, V>, r: map<K, V>)
    requires rows <= tab.Keys && Reached(tab, rows, rows, how, r)
    ensures Movable(how, rows) ==> r == RekeyRows(tab, rows, how)
    ensures Fixed(how, rows) ==> r == tab - rows
  {
  }
}
