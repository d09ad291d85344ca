/**
 The two link tables of the CRM, `crm_account_contacts` and `crm_opportunity_contacts`. Both are keyed by
 (parent, contact, role), both carry a primary flag, and both are re-keyed by a contact merge.
 */
module CrmLinks {
  import opened Tables

  datatype LinkKey = LinkKey(parent: Id, contact: Id, role: Id)
  datatype Link = Link(primary: bool, updatedAt: int)
  type Table = map<LinkKey, Link>

  predicate IsPrimary(t: Table, k: LinkKey) {
    k in t && t[k].primary
  }

  /** Each account or opportunity has at most one primary row. */
  ghost predicate OnePrimary(t: Table) {
    forall a, b :: IsPrimary(t, a) && IsPrimary(t, b) && a.parent == b.parent ==> a == b
  }

  // ---- writing a link ----

  function Cleared(t: Table, parent: Id): (r: Table) {
    map k | k in t :: if k.parent == parent then t[k].(primary := false) else t[k]
  }

  /** `isPrimary` absent keeps the row's flag; true first clears every row of the parent. */
  function NextPrimary(t: Table, k: LinkKey, wanted: Option<bool>): (r: bool) {
    if wanted.Some? then wanted.value else IsPrimary(t, k)
  }

  function Upsert(t: Table, k: LinkKey, wanted: Option<bool>, now: int): (r: Table) {
    (if wanted == Some(true) then Cleared(t, k.parent) else t)[k := Link(NextPrimary(t, k, wanted), now)]
  }

  /** Contacts whose profile copy a write can change: the linked contact and every contact it demotes. */
  function Affected(t: Table, k: LinkKey, wanted: Option<bool>): (r: set<Id>) {
    {k.contact}
    + if wanted == Some(true) then set x | x in t && x.parent == k.parent && t[x].primary :: x.contact else {}
  }

  lemma UpsertKeepsOnePrimary(t: Table, k: LinkKey, wanted: Option<bool>, now: int)
    requires OnePrimary(t)
    ensures OnePrimary(Upsert(t, k, wanted, now))
  {
    var t' := Upsert(t, k, wanted, now);
    forall a | IsPrimary(t', a) && a != k
      ensures IsPrimary(t, a) && (a.parent == k.parent ==> wanted != Some(true))
    {
    }
  }

  /** The written row exists and is primary as wanted, by default as before; wanting it primary clears the other rows of
      its parent, and no other row changes. */
  lemma UpsertWrites(t: Table, k: LinkKey, wanted: Option<bool>, now: int)
    ensures var t' := Upsert(t, k, wanted, now);
      && t'.Keys == t.Keys + {k} && t'[k].updatedAt == now
      && (t'[k].primary <==> wanted == Some(true) || (wanted.None? && k in t && t[k].primary))
      && (forall a | a in t && a != k :: t'[a].updatedAt == t[a].updatedAt)
      && (forall a | a in t && a != k ::
            t'[a].primary <==> t[a].primary && (wanted == Some(true) ==> a.parent != k.parent))
  {
  }

  /** A contact outside `Affected` has exactly the primary rows it had. */
  lemma UpsertLeavesUnaffected(t: Table, k: LinkKey, wanted: Option<bool>, now: int, a: LinkKey)
    requires a.contact !in Affected(t, k, wanted)
    ensures IsPrimary(Upsert(t, k, wanted, now), a) <==> IsPrimary(t, a)
  {
  }

  /** Other parents keep their primary rows. */
  lemma UpsertLeavesOtherParents(t: Table, k: LinkKey, wanted: Option<bool>, now: int, a: LinkKey)
    requires a.parent != k.parent
    ensures IsPrimary(Upsert(t, k, wanted, now), a) <==> IsPrimary(t, a)
  {
  }

  // ---- merging a contact's rows into another's ----

  function RowsOf(tab: Table, c: Id): (r: set<LinkKey>) {
    set k | k in tab && k.contact == c
  }

  /** An existing target row takes the maximum of the flags; either way the row is stamped `now`. */
  function Folding(s: Id, t: Id, now: int): (r: Rekeying<LinkKey, Link>) {
    Rekeying((k: LinkKey) => k.(contact := t), (k: LinkKey) => k.(contact := s),
             (existing: Option<Link>, row: Link) =>
               Link(row.primary || (existing.Some? && existing.value.primary), now))
  }

  lemma RowsMovable(tab: Table, s: Id, t: Id, now: int)
    requires s != t
    ensures Movable(Folding(s, t, now), RowsOf(tab, s))
  {
  }

  lemma OwnRowsFixed(tab: Table, c: Id, now: int)
    ensures Fixed(Folding(c, c, now), RowsOf(tab, c))
  {
  }

  /** A contact merged into itself finds each of its rows as the existing target row, and then deletes it. */
  ghost function Merge(tab: Table, s: Id, t: Id, now: int): (r: Table) {
    if s == t then tab - RowsOf(tab, s)
    else
      RowsMovable(tab, s, t, now);
      RekeyRows(tab, RowsOf(tab, s), Folding(s, t, now))
  }

  /** After a merge of distinct contacts: the target holds a row exactly where either held one, primary exactly
      where either was; the source holds none; every other contact's rows are untouched. */
  lemma MergeReattaches(tab: Table, s: Id, t: Id, now: int, k: LinkKey)
    requires s != t
    ensures var from := LinkKey(k.parent, s, k.role);
      && (k.contact == t ==> (k in Merge(tab, s, t, now) <==> k in tab || from in tab))
      && (k.contact == t ==> (IsPrimary(Merge(tab, s, t, now), k) <==> IsPrimary(tab, k) || IsPrimary(tab, from)))
      && (k.contact == t && from in tab ==> Merge(tab, s, t, now)[k].updatedAt == now)
      && (k.contact == t && from !in tab && k in tab ==> Merge(tab, s, t, now)[k] == tab[k])
      && (k.contact == s ==> k !in Merge(tab, s, t, now))
      && (k.contact != s && k.contact != t ==>
            (k in Merge(tab, s, t, now) <==> k in tab) && (k in tab ==> Merge(tab, s, t, now)[k] == tab[k]))
  {
    var rows, how := RowsOf(tab, s), Folding(s, t, now);
    var from := LinkKey(k.parent, s, k.role);
    RowsMovable(tab, s, t, now);
    assert forall d | d in rows :: how.target(d) == d.(contact := t);
    if k.contact == t && from in tab {
      assert from in rows && how.target(from) == k;
    }
  }

  lemma MergeKeepsOnePrimary(tab: Table, s: Id, t: Id, now: int)
    requires OnePrimary(tab) && s != t
    ensures OnePrimary(Merge(tab, s, t, now))
  {
    var m := Merge(tab, s, t, now);
    forall a, b | IsPrimary(m, a) && IsPrimary(m, b) && a.parent == b.parent ensures a == b {
      MergeReattaches(tab, s, t, now, a);
      MergeReattaches(tab, s, t, now, b);
      var a0 := if IsPrimary(tab, a) then a else LinkKey(a.parent, s, a.role);
      var b0 := if IsPrimary(tab, b) then b else LinkKey(b.parent, s, b.role);
      assert IsPrimary(tab, a0) && IsPrimary(tab, b0);
    }
  }

  // ---- SELECT ... WHERE is_primary = 1 ORDER BY updated_at DESC, id LIMIT 1 ----

  /** Which column a query returns and breaks ties by. */
  datatype Side = Parent | Contact

  function At(side: Side, k: LinkKey): (r: Id) {
    if side.Parent? then k.parent else k.contact
  }

  function OtherSide(side: Side, k: LinkKey): (r: Id) {
    if side.Parent? then k.contact else k.parent
  }

  predicate NotAfter(t: Table, side: Side, a: LinkKey, b: LinkKey) {
    var ta := if a in t then t[a].updatedAt else 0;
    var tb := if b in t then t[b].updatedAt else 0;
    ta > tb || (ta == tb && At(side, a) <= At(side, b))
  }

  /** Primary rows whose other column is `of`. */
  function Candidates(t: Table, side: Side, of: Id): (r: set<LinkKey>) {
    set k | k in t && t[k].primary && OtherSide(side, k) == of
  }

  ghost function Best(t: Table, side: Side, of: Id): (k: LinkKey)
    requires Candidates(t, side, of) != {}
    ensures IsLeast((a, b) => NotAfter(t, side, a, b), Candidates(t, side, of), k)
  {
    var leq := (a, b) => NotAfter(t, side, a, b);
    HasLeast(leq, Candidates(t, side, of));
    var k :| IsLeast(leq, Candidates(t, side, of), k); k
  }

  ghost predicate HasRow(t: Table, side: Side, of: Id, x: Id) {
    exists k :: IsPrimary(t, k) && OtherSide(side, k) == of && At(side, k) == x
  }

  /** `x` is the other column of a primary row of `of` that no primary row of `of` was written after, and of those
      written at the same time none has a smaller id. */
  ghost predicate IsLatest(t: Table, side: Side, of: Id, x: Id) {
    exists k :: IsPrimary(t, k) && OtherSide(side, k) == of && At(side, k) == x
      && forall b | IsPrimary(t, b) && OtherSide(side, b) == of ::
           t[b].updatedAt < t[k].updatedAt || (t[b].updatedAt == t[k].updatedAt && x <= At(side, b))
  }

  /** The value a denormalised copy must hold: the preferred one if it is a primary row, else the latest. */
  ghost function Pick(t: Table, side: Side, of: Id, preferred: Option<Id>): (r: Option<Id>)
    ensures r.Some? ==> HasRow(t, side, of, r.value)
    ensures r.None? ==> Candidates(t, side, of) == {}
    ensures preferred.Some? && HasRow(t, side, of, preferred.value) ==> r == preferred
  {
    if preferred.Some? && HasRow(t, side, of, preferred.value) then preferred
    else if Candidates(t, side, of) == {} then None
    else Some(At(side, Best(t, side, of)))
  }

  /** Without a preferred row the latest one is picked. */
  lemma PickIsLatest(t: Table, side: Side, of: Id, preferred: Option<Id>)
    ensures var r := Pick(t, side, of, preferred);
      && (r.None? <==> forall k | IsPrimary(t, k) :: OtherSide(side, k) != of)
      && (r.Some? && r != preferred ==> IsLatest(t, side, of, r.value))
  {
    var r := Pick(t, side, of, preferred);
    PickAgrees(t, side, of, preferred);
    if r.Some? {
      var k :| IsPrimary(t, k) && OtherSide(side, k) == of && At(side, k) == r.value;
      if r != preferred {
        var best := Best(t, side, of);
        forall b | IsPrimary(t, b) && OtherSide(side, b) == of
          ensures t[b].updatedAt < t[best].updatedAt
                  || (t[b].updatedAt == t[best].updatedAt && r.value <= At(side, b))
        {
          assert b in Candidates(t, side, of) && NotAfter(t, side, best, b);
        }
      }
    }
  }

  /** `copy` names one of the primary rows and is empty only when there is none. */
  ghost predicate Agrees(t: Table, side: Side, of: Id, copy: Option<Id>) {
    && (copy.Some? ==> HasRow(t, side, of, copy.value))
    && (copy.None? ==> forall k | IsPrimary(t, k) :: OtherSide(side, k) != of)
  }

  lemma PickAgrees(t: Table, side: Side, of: Id, preferred: Option<Id>)
    ensures Agrees(t, side, of, Pick(t, side, of, preferred))
  {
    if Pick(t, side, of, preferred).None? {
      forall k | IsPrimary(t, k) ensures OtherSide(side, k) != of {
        assert k in Candidates(t, side, of) <==> OtherSide(side, k) == of;
      }
    }
  }

  /** Agreement depends only on the primary rows of `of`. */
  lemma AgreesTransfers(t: Table, t': Table, side: Side, of: Id, copy: Option<Id>)
    requires Agrees(t, side, of, copy)
    requires forall k | OtherSide(side, k) == of :: IsPrimary(t', k) <==> IsPrimary(t, k)
    ensures Agrees(t', side, of, copy)
  {
    if copy.Some? {
      var k :| IsPrimary(t, k) && OtherSide(side, k) == of && At(side, k) == copy.value;
      assert IsPrimary(t', k);
    }
  }

  /** The query looks at the primary rows of `of` only. */
  lemma PickIgnoresOthers(t: Table, t': Table, side: Side, of: Id, preferred: Option<Id>)
    requires forall k | OtherSide(side, k) == of :: IsPrimary(t', k) <==> IsPrimary(t, k)
    requires forall k | OtherSide(side, k) == of && IsPrimary(t, k) :: k in t' && t'[k] == t[k]
    ensures Pick(t', side, of, preferred) == Pick(t, side, of, preferred)
  {
    assert Candidates(t', side, of) == Candidates(t, side, of);
    if Candidates(t, side, of) != {} {
      var a, b := Best(t, side, of), Best(t', side, of);
      assert NotAfter(t, side, a, b) && NotAfter(t', side, b, a);
    }
    assert forall x :: HasRow(t', side, of, x) <==> HasRow(t, side, of, x) by { SameRows(t, t', side, of); }
  }

  lemma SameRows(t: Table, t': Table, side: Side, of: Id)
    requires forall k | OtherSide(side, k) == of :: IsPrimary(t', k) <==> IsPrimary(t, k)
    ensures forall x :: HasRow(t', side, of, x) <==> HasRow(t, side, of, x)
  {
    forall x ensures HasRow(t', side, of, x) <==> HasRow(t, side, of, x) {
      if HasRow(t, side, of, x) {
        var k :| IsPrimary(t, k) && OtherSide(side, k) == of && At(side, k) == x;
        assert IsPrimary(t', k);
      }
    }
  }

  /** With one primary per opportunity the agreeing copy is unique. */
  lemma CopyIsDetermined(t: Table, of: Id, a: Option<Id>, b: Option<Id>)
    requires OnePrimary(t) && Agrees(t, Contact, of, a) && Agrees(t, Contact, of, b)
    ensures a == b
  {
  }

  /** The scan behind the query. */
  method SelectLatest(t: Table, side: Side, of: Id) returns (r: Option<Id>)
    ensures r == Pick(t, side, of, None)
  {
    var rows := Candidates(t, side, of);
    if rows == {} { return None; }
    var best :| best in rows;
    var rest := rows - {best};
    while rest != {}
      invariant rest <= rows && best in rows && best !in rest
      invariant forall k | k in rows && k !in rest :: NotAfter(t, side, best, k)
      decreases |rest|
    {
      var k :| k in rest;
      rest := rest - {k};
      if !NotAfter(t, side, best, k) { best := k; }
    }
    assert NotAfter(t, side, best, Best(t, side, of)) && NotAfter(t, side, Best(t, side, of), best);
    r := Some(At(side, best));
  }

  method SelectPreferred(t: Table, side: Side, of: Id, preferred: Option<Id>) returns (r: Option<Id>)
    ensures r == Pick(t, side, of, preferred)
  {
    if preferred.Some? {
      var rows := set k | k in t && t[k].primary && OtherSide(side, k) == of && At(side, k) == preferred.value;
      if rows != {} {
        var k :| k in rows;
        assert HasRow(t, side, of, preferred.value);
        return preferred;
      }
      assert forall k :: IsPrimary(t, k) && OtherSide(side, k) == of && At(side, k) == preferred.value ==> k in rows;
    }
    r := SelectLatest(t, side, of);
  }
}
