/**
 The contact event log and the worklist that recovers a survivor's history from it.
 `contact_events` is append-only; a merge leaves one `identity.merged` row on each side, and the
 timeline of a live contact follows those rows backwards.
 */
module Timeline {
  import opened Tables

  /** `Merged` is event type `identity.merged`; its payload may lack a usable `sourceContactId`. */
  datatype EventKind = Merged(source: Option<Id>) | Other(tag: nat)
  datatype ContactEvent = ContactEvent(contact: Id, kind: EventKind)
  type Log = seq<ContactEvent>

  /** A `merge` row of `identity_link_events`, the separate audit table. */
  datatype MergeRecord = MergeRecord(source: Id, target: Id)

  predicate NamesSource(e: ContactEvent) {
    e.kind.Merged? && e.kind.source.Some?
  }

  ghost predicate Edge(log: Log, from: Id, to: Id) {
    ContactEvent(from, Merged(Some(to))) in log
  }

  ghost predicate Closed(log: Log, ids: set<Id>) {
    forall e | e in log && NamesSource(e) && e.contact in ids :: e.kind.source.value in ids
  }

  /** `ids` is the least set that holds `c` and follows every merge row. */
  ghost predicate IsTimeline(log: Log, c: Id, ids: set<Id>) {
    && c in ids
    && Closed(log, ids)
    && forall t: set<Id> | Closed(log, t) && c in t :: ids <= t
  }

  // ---- the worklist ----

  ghost function Universe(log: Log, c: Id): (u: set<Id>) {
    {c} + set e | e in log && NamesSource(e) :: e.kind.source.value
  }

  lemma UniverseHasSource(log: Log, c: Id, e: ContactEvent)
    requires e in log && NamesSource(e)
    ensures e.kind.source.value in Universe(log, c)
  {
  }

  ghost predicate Drained(log: Log, seen: seq<Id>, pending: seq<Id>) {
    forall e | e in log && NamesSource(e) && e.contact in seen && e.contact !in pending ::
      e.kind.source.value in seen
  }

  /** Nothing has been collected that some closed set around `c` avoids. */
  ghost predicate Necessary(log: Log, c: Id, seen: seq<Id>) {
    forall t: set<Id> | Closed(log, t) && c in t :: Elems(seen) <= t
  }

  /** One pass of the loop over the merge rows of `current`. */
  method Visit(log: Log, c: Id, current: Id, seen0: seq<Id>, pending0: seq<Id>)
    returns (seen: seq<Id>, pending: seq<Id>)
    requires NoDuplicates(seen0) && NoDuplicates(pending0)
    requires Elems(pending0) <= Elems(seen0) <= Universe(log, c)
    requires current in seen0 && current !in pending0
    requires Necessary(log, c, seen0)
    ensures seen0 <= seen && |seen| - |seen0| == |pending| - |pending0|
    ensures pending0 <= pending && seen[|seen0|..] == pending[|pending0|..]
    ensures NoDuplicates(seen) && NoDuplicates(pending)
    ensures Elems(pending) <= Elems(seen) <= Universe(log, c)
    ensures forall e | e in log && NamesSource(e) && e.contact == current :: e.kind.source.value in seen
    ensures Necessary(log, c, seen)
  {
    seen, pending := seen0, pending0;
    var i := 0;
    while i < |log|
      invariant 0 <= i <= |log|
      invariant seen0 <= seen && |seen| - |seen0| == |pending| - |pending0|
      invariant pending0 <= pending && seen[|seen0|..] == pending[|pending0|..]
      invariant NoDuplicates(seen) && NoDuplicates(pending)
      invariant Elems(pending) <= Elems(seen) <= Universe(log, c)
      invariant forall e | e in log[..i] && NamesSource(e) && e.contact == current :: e.kind.source.value in seen
      invariant Necessary(log, c, seen)
    {
      assert log[..i + 1] == log[..i] + [log[i]];
      if log[i].contact == current && NamesSource(log[i]) {
        var source := log[i].kind.source.value;
        if source !in seen {
          UniverseHasSource(log, c, log[i]);
          Extend(log, c, seen, log[i]);
          assert source !in Elems(pending);
          ElemsAppend(seen, source);
          ElemsAppend(pending, source);
          seen := seen + [source];
          pending := pending + [source];
        }
      }
      i := i + 1;
    }
    assert log[..i] == log;
  }

  lemma ElemsAppend(s: seq<Id>, x: Id)
    ensures Elems(s + [x]) == Elems(s) + {x}
  {
  }

  method ContactIdsForQuery(log: Log, c: Id) returns (ids: seq<Id>)
    ensures NoDuplicates(ids) && |ids| > 0 && ids[0] == c
    ensures IsTimeline(log, c, Elems(ids))
  {
    ids := [c];
    var pending := [c];
    while pending != []
      invariant |ids| > 0 && ids[0] == c
      invariant NoDuplicates(ids) && NoDuplicates(pending)
      invariant Elems(pending) <= Elems(ids) <= Universe(log, c)
      invariant Drained(log, ids, pending)
      invariant Necessary(log, c, ids)
      decreases |Universe(log, c)| - |ids|, |pending|
    {
      var current := pending[0];
      assert current in Elems(pending);
      assert pending == [current] + pending[1..];
      var seen, rest := Visit(log, c, current, ids, pending[1..]);
      StillDrained(log, current, ids, pending, seen, rest);
      Bounded(seen, Universe(log, c));
      ids, pending := seen, rest;
    }
    assert Closed(log, Elems(ids));
  }

  /** Visiting `current` settles its rows; the newly seen ids are exactly the newly pending ones. */
  lemma StillDrained(log: Log, current: Id, ids: seq<Id>, pending: seq<Id>, seen: seq<Id>, rest: seq<Id>)
    requires Drained(log, ids, pending) && |pending| > 0 && current == pending[0]
    requires ids <= seen && pending[1..] <= rest && seen[|ids|..] == rest[|pending| - 1..]
    requires forall e | e in log && NamesSource(e) && e.contact == current :: e.kind.source.value in seen
    ensures Drained(log, seen, rest)
  {
    forall e | e in log && NamesSource(e) && e.contact in seen && e.contact !in rest
      ensures e.kind.source.value in seen
    {
      if e.contact != current {
        assert seen == ids + seen[|ids|..];
        assert rest == pending[1..] + rest[|pending| - 1..];
        assert pending == [current] + pending[1..];
        assert e.contact in ids && e.contact !in pending;
      }
    }
  }

  lemma {:induction false} Bounded(s: seq<Id>, u: set<Id>)
    requires NoDuplicates(s) && Elems(s) <= u
    ensures |s| <= |u|
  {
    if s != [] {
      var last := s[|s| - 1];
      var init := s[..|s| - 1];
      forall x | x in Elems(init) ensures x in u - {last} {}
      assert last in Elems(s);
      Bounded(init, u - {last});
    }
  }

  lemma Extend(log: Log, c: Id, seen: seq<Id>, e: ContactEvent)
    requires Necessary(log, c, seen) && e in log && NamesSource(e) && e.contact in seen
    ensures Necessary(log, c, seen + [e.kind.source.value])
  {
    forall t: set<Id> | Closed(log, t) && c in t
      ensures Elems(seen + [e.kind.source.value]) <= t
    {
      assert e.contact in Elems(seen);
    }
  }

  // ---- the least closed set is "merged directly or transitively" ----

  ghost predicate Chain(log: Log, p: seq<Id>) {
    |p| > 0 && forall i :: 0 <= i < |p| - 1 ==> Edge(log, p[i], p[i + 1])
  }

  ghost predicate MergedInto(log: Log, c: Id, x: Id) {
    exists p: seq<Id> :: Chain(log, p) && p[0] == c && p[|p| - 1] == x
  }

  lemma {:induction false} ChainStaysInside(log: Log, p: seq<Id>, ids: set<Id>)
    requires Chain(log, p) && Closed(log, ids) && p[0] in ids
    ensures p[|p| - 1] in ids
    decreases |p|
  {
    if |p| > 1 {
      assert Edge(log, p[0], p[1]);
      forall i | 0 <= i < |p[1..]| - 1 ensures Edge(log, p[1..][i], p[1..][i + 1]) {
        assert Edge(log, p[i + 1], p[i + 2]);
      }
      ChainStaysInside(log, p[1..], ids);
    }
  }

  lemma {:induction false} TimelineIsMergedInto(log: Log, c: Id, ids: set<Id>, x: Id)
    requires IsTimeline(log, c, ids)
    ensures x in ids <==> MergedInto(log, c, x)
  {
    if MergedInto(log, c, x) {
      var p: seq<Id> :| Chain(log, p) && p[0] == c && p[|p| - 1] == x;
      ChainStaysInside(log, p, ids);
    }
    var reached := set y | y in ids && MergedInto(log, c, y);
    assert Chain(log, [c]);
    assert MergedInto(log, c, c) by { assert [c][0] == c && [c][|[c]| - 1] == c; }
    forall e | e in log && NamesSource(e) && e.contact in reached
      ensures e.kind.source.value in reached
    {
      var p: seq<Id> :| Chain(log, p) && p[0] == c && p[|p| - 1] == e.contact;
      var q := p + [e.kind.source.value];
      assert e == ContactEvent(e.contact, Merged(Some(e.kind.source.value)));
      assert Chain(log, q) && q[0] == c && q[|q| - 1] == e.kind.source.value;
    }
    assert Closed(log, reached);
  }

  // ---- the reference: replaying the merge audit ----

  /** The contact that holds `x`'s history after the recorded merges. */
  function Survivor(merges: seq<MergeRecord>, x: Id): (r: Id) {
    if merges == [] then x
    else
      var last := merges[|merges| - 1];
      var y := Survivor(merges[..|merges| - 1], x);
      if y == last.source then last.target else y
  }

  ghost function Sources(merges: seq<MergeRecord>): (r: set<Id>) {
    set m | m in merges :: m.source
  }

  ghost function Class(merges: seq<MergeRecord>, c: Id): (r: set<Id>) {
    set x | x in {c} + Sources(merges) && Survivor(merges, x) == c
  }

  lemma {:induction false} NeverMergedIsOwnSurvivor(merges: seq<MergeRecord>, x: Id)
    requires x !in Sources(merges)
    ensures Survivor(merges, x) == x
  {
    if merges != [] {
      var last := merges[|merges| - 1];
      var init := merges[..|merges| - 1];
      assert merges == init + [last];
      assert last in merges;
      assert Sources(init) <= Sources(merges);
      NeverMergedIsOwnSurvivor(init, x);
    }
  }

  /** One more merge joins exactly the two classes and leaves every other class alone. */
  lemma {:induction false} MergeJoinsClasses(merges: seq<MergeRecord>, s: Id, t: Id, c: Id)
    requires s !in Sources(merges) && t !in Sources(merges)
    requires c != s && c !in Sources(merges)
    ensures var after := merges + [MergeRecord(s, t)];
            Class(after, c) == if c == t then Class(merges, t) + Class(merges, s) else Class(merges, c)
  {
    var after := merges + [MergeRecord(s, t)];
    assert after[..|after| - 1] == merges;
    assert Sources(after) == Sources(merges) + {s} by {
      assert MergeRecord(s, t) in after;
      forall m | m in after ensures m in merges || m == MergeRecord(s, t) {}
      forall m | m in merges ensures m in after {}
    }
    NeverMergedIsOwnSurvivor(merges, s);
    NeverMergedIsOwnSurvivor(merges, t);
    NeverMergedIsOwnSurvivor(merges, c);
    forall x
      ensures Survivor(after, x) == (if Survivor(merges, x) == s then t else Survivor(merges, x))
    {
    }
  }

  // ---- what the log must keep ----

  /** For the live contact `c` the log and the merge audit tell the same history. */
  ghost predicate Faithful(log: Log, merges: seq<MergeRecord>, c: Id) {
    IsTimeline(log, c, Class(merges, c))
  }

  lemma ClosedGrows(log: Log, more: Log, t: set<Id>)
    requires Closed(log + more, t)
    ensures Closed(log, t)
  {
    forall e | e in log && NamesSource(e) && e.contact in t ensures e.kind.source.value in t {
      assert e in log + more;
    }
  }

  /** An event that is not a merge row, or names an id already in the class, changes nothing;
      a hand-written `identity.merged` row naming any other id breaks the timeline of `c`. */
  lemma AppendKeepsTimeline(log: Log, e: ContactEvent, c: Id, ids: set<Id>)
    requires IsTimeline(log, c, ids)
    ensures IsTimeline(log + [e], c, ids) <==>
            !(NamesSource(e) && e.contact in ids && e.kind.source.value !in ids)
  {
    var after := log + [e];
    assert e in after;
    forall t: set<Id> | Closed(after, t) && c in t ensures ids <= t {
      ClosedGrows(log, [e], t);
    }
    assert forall x :: x in after <==> x in log || x == e;
  }

  lemma AppendPlainKeepsTimeline(log: Log, more: Log, c: Id, ids: set<Id>)
    requires IsTimeline(log, c, ids)
    requires forall e | e in more :: !NamesSource(e)
    ensures IsTimeline(log + more, c, ids)
  {
    forall t: set<Id> | Closed(log + more, t) && c in t ensures ids <= t {
      ClosedGrows(log, more, t);
    }
    assert forall x :: x in log + more <==> x in log || x in more;
  }

  ghost function MergeRows(s: Id, t: Id): (r: Log) {
    [ContactEvent(s, Merged(Some(s))), ContactEvent(t, Merged(Some(s)))]
  }

  /** The two rows a merge writes: the survivor's timeline becomes exactly the union. */
  lemma MergeJoinsTimelines(log: Log, s: Id, t: Id, ofS: set<Id>, ofT: set<Id>)
    requires IsTimeline(log, s, ofS) && IsTimeline(log, t, ofT)
    requires t !in ofS
    ensures IsTimeline(log + MergeRows(s, t), t, ofS + ofT)
  {
    var after := log + MergeRows(s, t);
    assert forall x :: x in after <==> x in log || x in MergeRows(s, t);
    assert ContactEvent(t, Merged(Some(s))) in after;
    forall u: set<Id> | Closed(after, u) && t in u ensures ofS + ofT <= u {
      ClosedGrows(log, MergeRows(s, t), u);
    }
  }

  lemma MergeKeepsOtherTimelines(log: Log, s: Id, t: Id, c: Id, ids: set<Id>)
    requires IsTimeline(log, c, ids) && t !in ids
    ensures IsTimeline(log + MergeRows(s, t), c, ids)
  {
    var after := log + MergeRows(s, t);
    assert forall x :: x in after <==> x in log || x in MergeRows(s, t);
    forall u: set<Id> | Closed(after, u) && c in u ensures ids <= u {
      ClosedGrows(log, MergeRows(s, t), u);
    }
  }
}
