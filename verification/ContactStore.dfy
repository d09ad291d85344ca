/**
 The contact database as an object: one field per table, each method one transaction that updates the tables in
 place. Methods are proved against the step functions of `Registry` and `Crm`, and keep both invariants.
 */
module ContactStore {
  import opened Tables
  import opened CrmLinks
  import T = Timeline
  import R = Registry
  import RP = RegistryProofs
  import C = Crm
  import CP = CrmProofs

  /** Refreshing one more contact extends the refreshed set. */
  lemma RefreshOneMore(s: C.Tabs, copy: C.Copy, done: set<Id>, c: Id, me: Id, preferred: Option<Id>)
    requires c !in done
    ensures C.Refresh(C.Refresh(s, copy, done, me, preferred), copy, {c}, me, preferred)
            == C.Refresh(s, copy, done + {c}, me, preferred)
  {
    hide C.WriteProfiles, C.SetCopy, C.Choice;
    var s1 := C.Refresh(s, copy, done, me, preferred);
    var rows, more := C.Refreshed(s, copy, done, me, preferred), C.Refreshed(s1, copy, {c}, me, preferred);
    RefreshLeavesAlone(s, copy, done, c, me, preferred);
    assert C.Refreshed(s, copy, done + {c}, me, preferred) == rows + more;
    WriteTwice(s, rows, more);
  }

  lemma RefreshLeavesAlone(s: C.Tabs, copy: C.Copy, done: set<Id>, c: Id, me: Id, preferred: Option<Id>)
    requires c !in done
    ensures var s1 := C.Refresh(s, copy, done, me, preferred);
      && C.ProfileOf(s1, c) == C.ProfileOf(s, c) && (c in s1.profiles <==> c in s.profiles)
      && C.Choice(s1, copy, c, me, preferred) == C.Choice(s, copy, c, me, preferred)
  {
    hide C.SetCopy;
    CP.RefreshFrame(s, copy, done, me, preferred);
  }

  lemma ProjectedAt(contexts: map<Id, C.Context>, rows: map<Id, C.Profile>, c: Id)
    ensures c in C.Projected(contexts, rows) <==> c in contexts || c in rows
    ensures C.ContextAt(C.Projected(contexts, rows), c)
            == if c in rows then C.ContextAt(contexts, c).(crm := Some(C.Projection(rows[c])))
               else C.ContextAt(contexts, c)
  {
    hide C.Projection;
  }

  lemma ProjectTwice(contexts: map<Id, C.Context>, a: map<Id, C.Profile>, b: map<Id, C.Profile>)
    requires a.Keys !! b.Keys
    ensures C.Projected(C.Projected(contexts, a), b) == C.Projected(contexts, a + b)
  {
    hide C.Projection, C.Projected;
    var x, y := C.Projected(C.Projected(contexts, a), b), C.Projected(contexts, a + b);
    forall c: Id
      ensures c in x <==> c in y
      ensures C.ContextAt(x, c) == C.ContextAt(y, c)
    {
      ProjectedAt(contexts, a, c);
      ProjectedAt(C.Projected(contexts, a), b, c);
      ProjectedAt(contexts, a + b, c);
    }
  }

  lemma WriteTwice(s: C.Tabs, a: map<Id, C.Profile>, b: map<Id, C.Profile>)
    requires a.Keys !! b.Keys
    ensures C.WriteProfiles(C.WriteProfiles(s, a), b) == C.WriteProfiles(s, a + b)
  {
    hide C.Projected;
    ProjectTwice(s.contexts, a, b);
    assert s.profiles + a + b == s.profiles + (a + b);
  }

  lemma ProjectOne(contexts: map<Id, C.Context>, c: Id, p: C.Profile)
    ensures C.Projected(contexts, map[c := p]) == contexts[c := C.ContextAt(contexts, c).(crm := Some(C.Projection(p)))]
  {
    hide C.Projection;
  }

  lemma RefreshSingle(s: C.Tabs, copy: C.Copy, c: Id, me: Id, preferred: Option<Id>)
    ensures var v := C.Choice(s, copy, c, me, preferred);
      C.Refresh(s, copy, {c}, me, preferred)
      == if v.Some? || c in s.profiles then C.WriteProfile(s, c, C.SetCopy(C.ProfileOf(s, c), copy, v)) else s
  {
    hide C.SetCopy, C.Choice, C.Projection, C.ProfileOf;
    var v, rows := C.Choice(s, copy, c, me, preferred), C.Refreshed(s, copy, {c}, me, preferred);
    if v.Some? || c in s.profiles {
      assert rows == map[c := C.SetCopy(C.ProfileOf(s, c), copy, v)];
    } else {
      assert rows == map[];
      WriteNothing(s);
    }
  }

  lemma WriteNothing(s: C.Tabs)
    ensures C.WriteProfiles(s, map[]) == s
  {
  }

  lemma RefreshNone(s: C.Tabs, copy: C.Copy, me: Id, preferred: Option<Id>)
    ensures C.Refresh(s, copy, {}, me, preferred) == s
  {
    assert C.Refreshed(s, copy, {}, me, preferred) == map[];
  }

  /** The scan behind `SELECT * FROM crm_next_actions ... LIMIT 1`. */
  method SelectNext(tasks: map<Id, C.Task>, c: Id) returns (n: C.Next)
    ensures n == C.NextFor(tasks, c)
  {
    var open := C.OpenTasksOf(tasks, c);
    if open == {} { return C.NO_NEXT; }
    var best :| best in open;
    var rest := open - {best};
    while rest != {}
      invariant rest <= open && best in open && best !in rest
      invariant forall i | i in open && i !in rest :: C.TaskNotAfter(tasks, best, i)
      decreases |rest|
    {
      var i :| i in rest;
      rest := rest - {i};
      if !C.TaskNotAfter(tasks, best, i) { best := i; }
    }
    ghost var first := C.FirstTask(tasks, c);
    assert C.TaskNotAfter(tasks, best, first) && C.TaskNotAfter(tasks, first, best);
    n := C.NextFromTask(best, tasks[best]);
  }

  // ---- the merge loop over opportunity links ----

  /** Opportunities after the rows in `done` have moved and, where primary, refreshed. */
  ghost function Shown(opps: map<Id, C.Opportunity>, links: Table, done: set<LinkKey>, t: Id)
    : (r: map<Id, C.Opportunity>)
  {
    map o | o in opps :: opps[o].(contact :=
      if exists k :: k in done && k in links && links[k].primary && k.parent == o then Some(t) else opps[o].contact)
  }

  /** One iteration: move the row, and refresh its opportunity in favour of the target if it was primary. */
  method MoveOppLink(links: Table, opps: map<Id, C.Opportunity>, ghost done: set<LinkKey>, k: LinkKey, src: Id,
      t: Id, now: int,
                     cur: Table, shown: map<Id, C.Opportunity>)
    returns (cur': Table, shown': map<Id, C.Opportunity>)
    requires src != t && k in links && k.contact == src && k !in done && done <= links.Keys
    requires Movable(Folding(src, t, now), done + {k}) && Movable(Folding(src, t, now), done)
    requires cur == RekeyRows(links, done, Folding(src, t, now)) && shown == Shown(opps, links, done, t)
    ensures cur' == RekeyRows(links, done + {k}, Folding(src, t, now)) && shown' == Shown(opps, links, done + {k}, t)
  {
    hide Shown, RekeyRows, RekeyOne, Movable, Candidates, HasRow;
    var how := Folding(src, t, now);
    RekeyOneExtends(links, done, k, how);
    ShownKeys(opps, links, done, t);
    ShownMore(opps, links, done, k, t);
    cur', shown' := RekeyOne(cur, k, how), shown;
    if links[k].primary && k.parent in shown {
      MovedRowIsPrimary(links, done, k, how, src, t, now);
      var c := SelectPreferred(cur', Contact, k.parent, Some(t));
      shown' := shown[k.parent := shown[k.parent].(contact := c)];
    }
  }

  method MoveOppLinks(links: Table, opps: map<Id, C.Opportunity>, src: Id, t: Id, now: int)
    returns (links': Table, opps': map<Id, C.Opportunity>)
    requires src != t
    ensures links' == Merge(links, src, t, now)
    ensures opps' == Shown(opps, links, RowsOf(links, src), t)
  {
    hide Shown, RekeyRows, Movable;
    RowsMovable(links, src, t, now);
    ghost var how := Folding(src, t, now);
    var rows := RowsOf(links, src);
    links', opps' := links, opps;
    var rest := rows;
    RekeyNothing(links, how);
    ShownNone(opps, links, t);
    MovableSubset(how, rows, {});
    assert rows - rest == {};
    while rest != {}
      invariant rest <= rows && Movable(how, rows - rest)
      invariant links' == RekeyRows(links, rows - rest, how)
      invariant opps' == Shown(opps, links, rows - rest, t)
      decreases |rest|
    {
      var k :| k in rest;
      MovableSubset(how, rows, (rows - rest) + {k});
      links', opps' := MoveOppLink(links, opps, rows - rest, k, src, t, now, links', opps');
      assert rows - (rest - {k}) == rows - rest + {k};
      rest := rest - {k};
    }
    assert rows - rest == rows;
  }

  /** Opportunities once the contact's own rows in `done` were folded into themselves and deleted. */
  ghost function Dropped(opps: map<Id, C.Opportunity>, links: Table, done: set<LinkKey>, c: Id)
    : (r: map<Id, C.Opportunity>)
  {
    map o | o in opps :: opps[o].(contact :=
      if LostPrimary(links, done, o) then Pick(links - done, Contact, o, Some(c)) else opps[o].contact)
  }

  predicate LostPrimary(links: Table, done: set<LinkKey>, o: Id) {
    exists k :: k in done && k in links && links[k].primary && k.parent == o
  }

  /** The same loop when source and target are one contact. */
  method DropOwnOppLinks(links: Table, opps: map<Id, C.Opportunity>, c: Id, now: int)
    returns (links': Table, opps': map<Id, C.Opportunity>)
    ensures links' == Merge(links, c, c, now)
    ensures opps' == C.MergedOpps(opps, links, c, c)
  {
    hide Dropped, LostPrimary, Candidates, HasRow, C.MergedOpps, RekeyOne;
    var rows := RowsOf(links, c);
    links', opps' := links, opps;
    var rest := rows;
    DroppedNone(opps, links, c);
    assert rows - rest == {};
    while rest != {}
      invariant rest <= rows && links' == links - (rows - rest)
      invariant opps' == Dropped(opps, links, rows - rest, c)
      decreases |rest|
    {
      var k :| k in rest;
      ghost var done := rows - rest;
      FixedIsDropped(links, done, k, Folding(c, c, now));
      DroppedMore(opps, links, done, k, c);
      links' := RekeyOne(links', k, Folding(c, c, now));
      if links[k].primary && k.parent in opps' {
        var shown := SelectPreferred(links', Contact, k.parent, Some(c));
        opps' := opps'[k.parent := opps'[k.parent].(contact := shown)];
      }
      rest := rest - {k};
      assert rows - rest == done + {k};
    }
    assert rows - rest == rows;
    DroppedAll(opps, links, c);
  }

  lemma DroppedNone(opps: map<Id, C.Opportunity>, links: Table, c: Id)
    ensures Dropped(opps, links, {}, c) == opps
  {
  }

  lemma DroppedAll(opps: map<Id, C.Opportunity>, links: Table, c: Id)
    ensures Dropped(opps, links, RowsOf(links, c), c) == C.MergedOpps(opps, links, c, c)
  {
    forall o | o in opps ensures LostPrimary(links, RowsOf(links, c), o) <==> C.HadPrimary(links, o, c) {
      if C.HadPrimary(links, o, c) {
        var k :| k in links && k.parent == o && k.contact == c && links[k].primary;
        assert k in RowsOf(links, c);
      }
    }
  }

  lemma DroppedMore(opps: map<Id, C.Opportunity>, links: Table, done: set<LinkKey>, k: LinkKey, c: Id)
    requires k in links && k !in done
    ensures Dropped(opps, links, done, c).Keys == opps.Keys
    ensures var before, left := Dropped(opps, links, done, c), links - (done + {k});
      Dropped(opps, links, done + {k}, c)
      == if links[k].primary && k.parent in opps
         then before[k.parent := before[k.parent].(contact := Pick(left, Contact, k.parent, Some(c)))]
         else before
  {
    var left := links - (done + {k});
    forall o | o in opps
      ensures LostPrimary(links, done + {k}, o) <==> LostPrimary(links, done, o) || (links[k].primary && k.parent == o)
      ensures !(links[k].primary && k.parent == o) ==>
                Pick(left, Contact, o, Some(c)) == Pick(links - done, Contact, o, Some(c))
    {
      LostMore(links, done, k, o);
      if !(links[k].primary && k.parent == o) { PickIgnoresOthers(links - done, left, Contact, o, Some(c)); }
    }
  }

  lemma LostMore(links: Table, done: set<LinkKey>, k: LinkKey, o: Id)
    requires k in links
    ensures LostPrimary(links, done + {k}, o) <==> LostPrimary(links, done, o) || (links[k].primary && k.parent == o)
  {
    if links[k].primary && k.parent == o { assert k in done + {k}; }
    if x :| x in done && x in links && links[x].primary && x.parent == o { assert x in done + {k}; }
  }

  lemma MovedRowIsPrimary(links: Table, done: set<LinkKey>, k: LinkKey, how: Rekeying<LinkKey, Link>, src: Id,
      t: Id, now: int)
    requires src != t && how == Folding(src, t, now) && k in links && k.contact == src && links[k].primary
    requires done + {k} <= links.Keys && Movable(how, done + {k})
    ensures HasRow(RekeyRows(links, done + {k}, how), Contact, k.parent, t)
  {
    var into := LinkKey(k.parent, t, k.role);
    assert k in done + {k} && how.target(k) == into;
    assert IsPrimary(RekeyRows(links, done + {k}, how), into) && OtherSide(Contact, into) == k.parent &&
        At(Contact, into) == t;
  }

  lemma ShownNone(opps: map<Id, C.Opportunity>, links: Table, t: Id)
    ensures Shown(opps, links, {}, t) == opps
  {
  }

  lemma ShownKeys(opps: map<Id, C.Opportunity>, links: Table, done: set<LinkKey>, t: Id)
    ensures Shown(opps, links, done, t).Keys == opps.Keys
  {
  }

  lemma ShownMore(opps: map<Id, C.Opportunity>, links: Table, done: set<LinkKey>, k: LinkKey, t: Id)
    requires k in links
    ensures Shown(opps, links, done + {k}, t)
            == if links[k].primary && k.parent in opps
               then Shown(opps, links, done, t)[k.parent := Shown(opps, links, done, t)[k.parent].(contact := Some(t))]
               else Shown(opps, links, done, t)
  {
    var a, b := Shown(opps, links, done, t), Shown(opps, links, done + {k}, t);
    forall o | o in opps
      ensures b[o].contact == if links[k].primary && k.parent == o then Some(t) else a[o].contact
    {
      if links[k].primary && k.parent == o { assert k in done + {k}; }
      if exists x :: x in done && x in links && links[x].primary && x.parent == o {
        var x :| x in done && x in links && links[x].primary && x.parent == o;
        assert x in done + {k};
      }
    }
  }

  // ---- the database ----

  class Store {
    var contacts: map<Id, R.Person>
    var identities: R.Identities
    var policies: map<Id, R.Policy>
    var events: T.Log
    var merges: seq<T.MergeRecord>

    var accountLinks: Table
    var oppLinks: Table
    var opps: map<Id, C.Opportunity>
    var stages: map<Id, C.Stage>
    var profiles: map<Id, C.Profile>
    var contexts: map<Id, C.Context>
    var tasks: map<Id, C.Task>
    var activities: map<Id, Option<Id>>
    var facts: map<Id, C.Fact>
    var participants: map<C.ParticipantKey, int>
    var accounts: map<Id, Option<Id>>

    ghost function Reg(): (r: R.Reg)
      reads this
    {
      R.Reg(contacts, identities, policies, events, merges)
    }

    ghost function Crm(): (s: C.Tabs)
      reads this
    {
      C.Tabs(accountLinks, oppLinks, opps, stages, profiles, contexts, tasks, activities, facts, participants,
             accounts)
    }

    ghost predicate Valid()
      reads this
    {
      RP.Inv(Reg()) && CP.Inv(Crm())
    }

    /** A new database holds the seeded stages and nothing else. */
    constructor (seed: map<Id, C.Stage>)
      requires forall i | i in seed :: C.StageFits(seed, i, seed[i])
      ensures Reg() == R.EMPTY && CP.Seeded(Crm()) && stages == seed && Valid()
    {
      contacts, identities, policies, events, merges := map[], map[], map[], [], [];
      accountLinks, oppLinks, opps, stages, profiles := map[], map[], map[], seed, map[];
      contexts, tasks, activities, facts, participants, accounts := map[], map[], map[], map[], map[], map[];
      new;
      CP.SeedHasInv(Crm());
    }

    // -- queries --

    /** The ids whose events `listContactEvents` shows: exactly the contacts merged into `c`, no repeats. */
    method TimelineIds(c: Id) returns (ids: seq<Id>)
      requires Valid() && c in contacts
      ensures NoDuplicates(ids) && forall x: Id :: x in ids <==> T.Survivor(merges, x) == c
    {
      ids := T.ContactIdsForQuery(events, c);
      assert T.Faithful(events, merges, c);
      assert Elems(ids) == T.Class(merges, c);
      forall x: Id ensures x in ids <==> T.Survivor(merges, x) == c {
        assert x in ids <==> x in Elems(ids);
        if x !in T.Sources(merges) { T.NeverMergedIsOwnSurvivor(merges, x); }
      }
    }

    // -- identities --

    method LinkIdentity(c: Id, key: R.IdentityKey) returns (ok: bool)
      requires Valid()
      modifies this`identities, this`events
      ensures Valid() && Reg() == R.LinkIdentity(old(Reg()), c, key)
      ensures ok <==> c in contacts && R.CanOwn(old(identities), key, R.ByContact(c))
    {
      hide CP.Inv, RP.Inv;
      RP.StepKeepsInv(Reg(), R.Link(c, key));
      ok := c in contacts && R.CanOwn(identities, key, R.ByContact(c));
      if ok {
        identities := identities[key := R.ByContact(c)];
        events := events + [T.ContactEvent(c, R.IDENTITY_LINKED)];
      }
    }

    method UpsertAgentIdentity(agent: Id, key: R.IdentityKey) returns (ok: bool)
      requires Valid()
      modifies this`identities
      ensures Valid() && Reg() == R.UpsertAgentIdentity(old(Reg()), agent, key)
      ensures ok <==> R.CanOwn(old(identities), key, R.ByAgent(agent))
    {
      hide CP.Inv, RP.Inv;
      RP.StepKeepsInv(Reg(), R.UpsertAgent(agent, key));
      ok := R.CanOwn(identities, key, R.ByAgent(agent));
      if ok { identities := identities[key := R.ByAgent(agent)]; }
    }

    method UnlinkIdentity(key: R.IdentityKey) returns (ok: bool)
      requires Valid()
      modifies this`identities, this`events
      ensures Valid() && Reg() == R.UnlinkIdentity(old(Reg()), key)
      ensures ok <==> key in old(identities) && !old(identities)[key].ByAgent?
    {
      hide CP.Inv, RP.Inv;
      RP.StepKeepsInv(Reg(), R.Unlink(key));
      ok := key in identities && !identities[key].ByAgent?;
      if ok {
        var owner := identities[key];
        identities := identities - {key};
        if owner.ByContact? { events := events + [T.ContactEvent(owner.contact, R.IDENTITY_UNLINKED)]; }
      }
    }

    // -- contacts, policies and events --

    method CreateContact(id: Id, key: R.IdentityKey, person: R.Person, status: R.Status) returns (ok: bool)
      requires Valid() && R.Fresh(Reg(), id)
      modifies this`contacts, this`identities, this`policies, this`events
      ensures Valid() && Reg() == R.CreateContact(old(Reg()), id, key, person, status)
      ensures ok <==> R.CanOwn(old(identities), key, R.ByContact(id))
    {
      hide CP.Inv, RP.Inv, R.Fresh;
      RP.StepKeepsInv(Reg(), R.Create(id, key, person, status));
      ok := R.CanOwn(identities, key, R.ByContact(id));
      if ok {
        contacts, identities := contacts[id := person], identities[key := R.ByContact(id)];
        policies := policies[id := R.Policy(status, false, 0, None, None)];
        events := events + [T.ContactEvent(id, R.PROFILE_CREATED)];
      }
    }

    method SetPolicy(c: Id, status: R.Status, optOut: bool) returns (ok: bool)
      requires Valid()
      modifies this`policies, this`events
      ensures Valid() && Reg() == R.SetPolicy(old(Reg()), c, status, optOut)
      ensures ok <==> c in contacts && c in old(policies)
    {
      hide CP.Inv, RP.Inv;
      RP.StepKeepsInv(Reg(), R.WritePolicy(c, status, optOut));
      ok := c in contacts && c in policies;
      if ok {
        var p := policies[c];
        policies := policies[c := p.(status := status, optOut := optOut)];
        events := events + (if p.status != status then [T.ContactEvent(c, R.STATUS_CHANGED)] else [])
                         + (if p.optOut != optOut then [T.ContactEvent(c, R.OPT_OUT_CHANGED)] else []);
      }
    }

    method RecordInteraction(c: Id, inbound: bool, now: int)
      requires Valid()
      modifies this`policies
      ensures Valid() && Reg() == R.RecordInteraction(old(Reg()), c, inbound, now)
    {
      hide CP.Inv, RP.Inv;
      RP.StepKeepsInv(Reg(), R.Interact(c, inbound, now));
      if c in contacts && c in policies {
        var p := policies[c].(interactions := policies[c].interactions + 1);
        policies := policies[c := if inbound then p.(lastInbound := Some(now)) else p.(lastOutbound := Some(now))];
      }
    }

    /** Any event may be appended; the store stays valid unless it is a forged merge of a live contact. */
    method AddEvent(c: Id, kind: T.EventKind) returns (ok: bool)
      requires Valid()
      modifies this`events
      ensures Reg() == R.AddEvent(old(Reg()), c, kind) && (ok <==> c in contacts)
      ensures Valid() <==> (ok ==> RP.Honest(old(Reg()), R.Note(c, kind)))
    {
      hide CP.Inv, RP.Inv, RP.Honest;
      RP.NoteKeepsInvIff(Reg(), c, kind);
      ok := c in contacts;
      if ok { events := events + [T.ContactEvent(c, kind)]; }
    }

    /** `moveCanonicalPlatformIdentities`, with the branch that deletes a conflicting row. */
    method MoveIdentities(src: Id, t: Id)
      modifies this`identities
      ensures identities == R.MoveIdentities(old(identities), src, t)
    {
      ghost var before := identities;
      var rest := R.KeysOf(identities, R.ByContact(src));
      while rest != {}
        invariant rest <= R.KeysOf(before, R.ByContact(src))
        invariant identities == Moving(before, R.KeysOf(before, R.ByContact(src)) - rest, src, t)
        decreases |rest|
      {
        var k :| k in rest;
        var conflict := k in identities && identities[k] == R.ByContact(t);
        if conflict {
          identities := identities - {k};
        } else {
          identities := identities[k := R.ByContact(t)];
        }
        rest := rest - {k};
      }
    }

    /** Status, identity and tag writes for contact `c`; false when the sender's key belongs to someone else. */
    method IntakeWrites(m: R.Message, c: Id, desired: R.Status, created: bool) returns (ok: bool)
      requires c in contacts
      modifies this`policies, this`events, this`identities
      ensures ok <==> R.CanOwn(old(identities), m.sender, R.ByContact(c))
      ensures ok ==> forall r0 :: Reg() == R.Intake(r0, old(Reg()), m, c, desired, created)
    {
      var prior := R.Lookup(policies, c);
      if R.ShouldApply(prior, desired) {
        policies := policies[c := if prior.Some? then prior.value.(status := desired)
                                  else R.Policy(desired, false, 0, None, None)];
        events := events + [T.ContactEvent(c, R.STATUS_CHANGED)];
      }
      ok := R.CanOwn(identities, m.sender, R.ByContact(c));
      if ok {
        var linked := m.sender !in identities;
        identities := identities[m.sender := R.ByContact(c)];
        if linked { events := events + [T.ContactEvent(c, R.IDENTITY_LINKED)]; }
        if created && m.tagged { events := events + [T.ContactEvent(c, R.TAG_ADDED)]; }
      }
    }

    /** The write branch of `ensureContactFromInbound`; a conflict rolls every table back. */
    method ReceiveFrom(m: R.Message)
      requires R.Fresh(Reg(), m.newId) && m.mode.Some? && !m.group
      requires !(m.sender in identities && identities[m.sender].ByAgent?)
      modifies this`contacts, this`policies, this`events, this`identities
      ensures Reg() == R.Inbound(old(Reg()), m)
    {
      hide R.Fresh, R.Intake;
      var r0 := R.Reg(contacts, identities, policies, events, merges);
      var desired := m.mode.value;
      var found := R.InboundContact(r0, m);
      var c := m.newId;
      if found.Some? {
        c := found.value;
        contacts := contacts[c := contacts[c].(name := Coalesce(contacts[c].name, m.name))];
      } else if !m.scoped && !R.CanOwn(identities, m.contactKey, R.ByContact(c)) {
        return;
      } else {
        contacts := contacts[c := R.Person(m.name, if m.scoped then None else m.phone, None)];
        policies := policies[c := R.Policy(desired, false, 0, None, None)];
        if !m.scoped { identities := identities[m.contactKey := R.ByContact(c)]; }
        events := events + [T.ContactEvent(c, R.PROFILE_CREATED)];
      }
      ghost var before := Reg();
      var ok := IntakeWrites(m, c, desired, found.None?);
      if !ok {
        Conflict(r0, before, m, c, desired, found.None?);
        contacts, identities, policies, events := r0.contacts, r0.identities, r0.policies, r0.events;
      } else {
        assert Reg() == R.Intake(r0, before, m, c, desired, found.None?);
      }
    }

    method Receive(m: R.Message)
      requires Valid() && R.Fresh(Reg(), m.newId)
      modifies this`contacts, this`policies, this`events, this`identities
      ensures Valid() && Reg() == R.Inbound(old(Reg()), m)
    {
      hide CP.Inv, RP.Inv, R.Fresh, R.Intake;
      RP.StepKeepsInv(Reg(), R.Receive(m));
      if m.sender in identities && identities[m.sender].ByAgent? { return; }
      if m.mode.None? || m.group { return; }
      ReceiveFrom(m);
    }

    // -- copies --

    method WriteProfile(c: Id, p: C.Profile)
      modifies this`profiles, this`contexts
      ensures Crm() == C.WriteProfile(old(Crm()), c, p)
    {
      hide C.Projection, C.Projected;
      ProjectOne(contexts, c, p);
      assert profiles + map[c := p] == profiles[c := p];
      profiles := profiles[c := p];
      contexts := contexts[c := C.ContextAt(contexts, c).(crm := Some(C.Projection(p)))];
    }

    method Refresh(copy: C.Copy, cs: set<Id>, me: Id, preferred: Option<Id>)
      modifies this`profiles, this`contexts
      ensures Crm() == C.Refresh(old(Crm()), copy, cs, me, preferred)
    {
      ghost var before := Crm();
      var rest := cs;
      RefreshNone(before, copy, me, preferred);
      assert cs - rest == {};
      while rest != {}
        invariant rest <= cs && Crm() == C.Refresh(before, copy, cs - rest, me, preferred)
        decreases |rest|
      {
        var c :| c in rest;
        RefreshOneMore(before, copy, cs - rest, c, me, preferred);
        RefreshOne(copy, c, me, preferred);
        assert cs - (rest - {c}) == cs - rest + {c};
        rest := rest - {c};
      }
      assert cs - rest == cs;
    }

    method RefreshOne(copy: C.Copy, c: Id, me: Id, preferred: Option<Id>)
      modifies this`profiles, this`contexts
      ensures Crm() == C.Refresh(old(Crm()), copy, {c}, me, preferred)
    {
      hide C.Refresh, C.WriteProfile, C.SetCopy;
      RefreshSingle(Crm(), copy, c, me, preferred);
      var links := if copy.AccountCopy? then accountLinks else oppLinks;
      var v := SelectPreferred(links, Parent, c, if c == me then preferred else None);
      if v.Some? || c in profiles {
        var p := if c in profiles then profiles[c] else C.FRESH_PROFILE;
        WriteProfile(c, C.SetCopy(p, copy, v));
      }
    }

    method RefreshNext(c: Id)
      modifies this`profiles, this`contexts
      ensures Crm() == C.RefreshNext(old(Crm()), c)
    {
      var n := SelectNext(tasks, c);
      var p := if c in profiles then profiles[c] else C.FRESH_PROFILE;
      WriteProfile(c, p.(next := n));
    }

    // -- tasks --

    method SetTask(i: Id, task: C.Task)
      modifies this`tasks, this`profiles, this`contexts
      ensures Crm() == C.SetTask(old(Crm()), i, task)
    {
      tasks := tasks[i := task];
      if task.contact.Some? { RefreshNext(task.contact.value); }
    }

    method CreateTask(i: Id, task: C.Task)
      requires Valid()
      modifies this`tasks, this`profiles, this`contexts
      ensures Valid() && Crm() == C.CreateTask(old(Crm()), i, task)
    {
      hide CP.Inv, RP.Inv, C.RefreshNext;
      CP.StepKeepsInv(Crm(), C.StepCreateTask(i, task));
      if i !in tasks { SetTask(i, task); }
    }

    method CancelTask(i: Id)
      requires Valid()
      modifies this`tasks, this`profiles, this`contexts
      ensures Valid() && Crm() == C.CancelTask(old(Crm()), i)
    {
      hide CP.Inv, RP.Inv, C.RefreshNext;
      CP.StepKeepsInv(Crm(), C.StepCancelTask(i));
      if i in tasks && !tasks[i].status.Canceled? { SetTask(i, tasks[i].(status := C.Canceled)); }
    }

    method CompleteTask(i: Id)
      requires Valid()
      modifies this`tasks, this`profiles, this`contexts
      ensures Valid() && Crm() == C.CompleteTask(old(Crm()), i)
    {
      hide CP.Inv, RP.Inv, C.RefreshNext;
      CP.StepKeepsInv(Crm(), C.StepCompleteTask(i));
      if i in tasks && !tasks[i].status.Done? { SetTask(i, tasks[i].(status := C.Done)); }
    }

    method SnoozeTask(i: Id, until: int) returns (ok: bool)
      requires Valid()
      modifies this`tasks, this`profiles, this`contexts
      ensures Valid() && Crm() == C.SnoozeTask(old(Crm()), i, until)
      ensures ok <==> i in old(tasks) && C.IsOpenTask(old(tasks)[i])
    {
      hide CP.Inv, RP.Inv, C.RefreshNext;
      CP.StepKeepsInv(Crm(), C.StepSnoozeTask(i, until));
      ok := i in tasks && C.IsOpenTask(tasks[i]);
      if ok { SetTask(i, tasks[i].(status := C.Snoozed, due := Some(until))); }
    }

    // -- links --

    method WriteAccountLink(account: Id, c: Id, role: Id, wanted: Option<bool>, now: int)
      modifies this`accountLinks, this`profiles, this`contexts
      ensures Crm() == C.WithAccountLink(old(Crm()), account, c, role, wanted, now)
    {
      hide C.Refresh, Affected, Cleared;
      var k := LinkKey(account, c, role);
      var affected := Affected(accountLinks, k, wanted);
      var primary := NextPrimary(accountLinks, k, wanted);
      if wanted == Some(true) { accountLinks := Cleared(accountLinks, account); }
      accountLinks := accountLinks[k := Link(primary, now)];
      Refresh(C.AccountCopy, affected, c, if primary then Some(account) else None);
    }

    method LinkAccountContact(account: Id, c: Id, role: Id, wanted: Option<bool>, now: int) returns (ok: bool)
      requires Valid()
      modifies this`accountLinks, this`profiles, this`contexts
      ensures Valid() && Crm() == C.LinkAccount(old(Crm()), account, c, role, wanted, now)
      ensures ok <==> account in accounts
    {
      hide CP.Inv, RP.Inv, C.WithAccountLink;
      CP.StepKeepsInv(Crm(), C.StepLinkAccount(account, c, role, wanted, now));
      ok := account in accounts;
      if ok { WriteAccountLink(account, c, role, wanted, now); }
    }

    method RefreshPrimaryContact(o: Id, preferred: Option<Id>)
      requires o in opps
      modifies this`opps
      ensures Crm() == C.RefreshPrimaryContact(old(Crm()), o, preferred)
    {
      var c := SelectPreferred(oppLinks, Contact, o, preferred);
      opps := opps[o := opps[o].(contact := c)];
    }

    method WriteOpportunityLink(o: Id, c: Id, role: Id, wanted: Option<bool>, now: int)
      requires o in opps
      modifies this`oppLinks, this`opps, this`profiles, this`contexts
      ensures Crm() == C.LinkOpportunity(old(Crm()), o, c, role, wanted, now)
    {
      hide C.Refresh, Affected, Cleared, Pick;
      var k := LinkKey(o, c, role);
      var affected := Affected(oppLinks, k, wanted);
      assert affected + {} == affected;
      var primary := NextPrimary(oppLinks, k, wanted);
      var demoted := !primary && IsPrimary(oppLinks, k);
      if wanted == Some(true) { oppLinks := Cleared(oppLinks, o); }
      oppLinks := oppLinks[k := Link(primary, now)];
      if primary {
        RefreshPrimaryContact(o, Some(c));
      } else if demoted {
        RefreshPrimaryContact(o, None);
        if opps[o].contact.Some? { affected := affected + {opps[o].contact.value}; }
      }
      Refresh(C.OpportunityCopy, affected, c, if primary then Some(o) else None);
    }

    method LinkOpportunityContact(o: Id, c: Id, role: Id, wanted: Option<bool>, now: int) returns (ok: bool)
      requires Valid()
      modifies this`oppLinks, this`opps, this`profiles, this`contexts
      ensures Valid() && Crm() == C.LinkOpportunity(old(Crm()), o, c, role, wanted, now)
      ensures ok <==> o in old(opps)
    {
      hide CP.Inv, RP.Inv, C.LinkOpportunity;
      CP.StepKeepsInv(Crm(), C.StepLinkOpportunity(o, c, role, wanted, now));
      ok := o in opps;
      if ok {
        WriteOpportunityLink(o, c, role, wanted, now);
      } else {
        CP.NoSuchOpportunity(Crm(), o, c, role, wanted, now);
      }
    }

    // -- merging and deleting contacts --

    method MergeProfiles(t: Id, src: Id)
      modifies this`profiles, this`contexts
      ensures Crm() == C.MergeProfiles(old(Crm()), t, src)
    {
      hide C.WriteProfile;
      if src in profiles {
        var p := if t in profiles then C.MergedProfile(profiles[t], profiles[src]) else profiles[src];
        profiles := profiles - {src};
        if t != src { WriteProfile(t, p); }
      }
    }

    method MergeAccountLinks(t: Id, src: Id, now: int)
      modifies this`accountLinks, this`profiles, this`contexts
      ensures Crm() == C.MergeAccountLinks(old(Crm()), t, src, now)
    {
      hide C.Refresh;
      if t == src { OwnRowsFixed(accountLinks, t, now); } else { RowsMovable(accountLinks, src, t, now); }
      accountLinks := MoveRows(accountLinks, RowsOf(accountLinks, src), Folding(src, t, now));
      Refresh(C.AccountCopy, {t}, t, None);
    }

    method MergeOppLinks(t: Id, src: Id, now: int)
      modifies this`oppLinks, this`opps, this`profiles, this`contexts
      ensures Crm() == C.MergeOppLinks(old(Crm()), t, src, now)
    {
      hide C.Refresh, Merge, Shown, C.OppsMoved, C.MergedOpps;
      if t == src {
        oppLinks, opps := DropOwnOppLinks(oppLinks, opps, t, now);
        OwnOppsStay(opps, t);
      } else {
        ShownThenMoved(opps, oppLinks, t, src);
        oppLinks, opps := MoveOppLinks(oppLinks, opps, src, t, now);
      }
      opps := C.OppsMoved(opps, t, src);
      Refresh(C.OpportunityCopy, {t}, t, None);
    }

    method MergeAttachments(t: Id, src: Id)
      modifies this`participants, this`tasks, this`activities, this`facts
      ensures Crm() == C.MergeAttachments(old(Crm()), t, src)
    {
      hide C.TasksMoved, C.ActivitiesMoved, C.FactsMoved;
      if t == src { C.OwnParticipantsFixed(participants, t); } else { C.ParticipantsMovable(participants, src, t); }
      participants := MoveRows(participants, C.ParticipantsOf(participants, src), C.ParticipantFolding(src, t));
      tasks := C.TasksMoved(tasks, t, src);
      activities := C.ActivitiesMoved(activities, t, src);
      facts := C.FactsMoved(facts, t, src);
    }

    /** `mergeCrmContactData`. */
    method MergeCrm(t: Id, src: Id, now: int)
      modifies this`accountLinks, this`oppLinks, this`opps, this`profiles, this`contexts
      modifies this`participants, this`tasks, this`activities, this`facts
      ensures Crm() == C.MergeData(old(Crm()), t, src, now)
    {
      hide C.MergeProfiles, C.MergeAccountLinks, C.MergeOppLinks, C.MergeAttachments, C.Refresh, C.RefreshNext;
      MergeProfiles(t, src);
      MergeAccountLinks(t, src, now);
      MergeOppLinks(t, src, now);
      MergeAttachments(t, src);
      Refresh(C.AccountCopy, {t}, t, None);
      Refresh(C.OpportunityCopy, {t}, t, None);
      RefreshNext(t);
    }

    method DeleteContactRows(c: Id)
      modifies this`contacts, this`identities, this`policies
      ensures Reg() == R.DeleteProjection(old(Reg()), c)
    {
      hide R.KeysOf;
      identities := identities - R.KeysOf(identities, R.ByContact(c));
      policies := policies - {c};
      contacts := contacts - {c};
    }

    /** The rows the foreign keys cascade to, and the columns they set to null. */
    method Cascade(c: Id)
      modifies this`accountLinks, this`oppLinks, this`opps, this`profiles, this`contexts
      modifies this`participants, this`tasks, this`activities, this`facts, this`accounts
      ensures Crm() == C.DeleteContact(old(Crm()), c)
    {
      hide C.OppsWithout, C.TasksWithout, C.ActivitiesWithout, C.FactsWithout, C.ParticipantsWithout, C.AccountsWithout,
        RowsOf;
      CascadeLinks(c);
      CascadeHistory(c);
    }

    method CascadeLinks(c: Id)
      modifies this`accountLinks, this`oppLinks, this`opps, this`profiles, this`contexts
      ensures var s := old(Crm());
        Crm() == s.(accountLinks := s.accountLinks - RowsOf(s.accountLinks, c),
            oppLinks := s.oppLinks - RowsOf(s.oppLinks, c),
                    opps := C.OppsWithout(s.opps, c), profiles := s.profiles - {c}, contexts := s.contexts - {c})
    {
      hide C.OppsWithout, RowsOf;
      contexts, profiles, opps := contexts - {c}, profiles - {c}, C.OppsWithout(opps, c);
      accountLinks, oppLinks := accountLinks - RowsOf(accountLinks, c), oppLinks - RowsOf(oppLinks, c);
    }

    method CascadeHistory(c: Id)
      modifies this`participants, this`tasks, this`activities, this`facts, this`accounts
      ensures var s := old(Crm());
        Crm() == s.(tasks := C.TasksWithout(s.tasks, c), activities := C.ActivitiesWithout(s.activities, c),
                    facts := C.FactsWithout(s.facts, c), participants := C.ParticipantsWithout(s.participants, c),
                    accounts := C.AccountsWithout(s.accounts, c))
    {
      hide C.TasksWithout, C.ActivitiesWithout, C.FactsWithout, C.ParticipantsWithout, C.AccountsWithout;
      accounts := C.AccountsWithout(accounts, c);
      tasks, activities := C.TasksWithout(tasks, c), C.ActivitiesWithout(activities, c);
      facts, participants := C.FactsWithout(facts, c), C.ParticipantsWithout(participants, c);
    }

    /** `deleteContactProjection`. */
    method DeleteProjection(c: Id)
      modifies this`contacts, this`identities, this`policies
      modifies this`accountLinks, this`oppLinks, this`opps, this`profiles, this`contexts
      modifies this`participants, this`tasks, this`activities, this`facts, this`accounts
      ensures Reg() == R.DeleteProjection(old(Reg()), c) && Crm() == C.DeleteContact(old(Crm()), c)
    {
      hide R.DeleteProjection, C.DeleteContact;
      DeleteContactRows(c);
      Cascade(c);
    }

    method DeleteContact(c: Id) returns (ok: bool)
      requires Valid()
      modifies this
      ensures Valid() && ok == (c in old(contacts))
      ensures Reg() == R.DeleteContact(old(Reg()), c)
      ensures Crm() == if ok then C.DeleteContact(old(Crm()), c) else old(Crm())
    {
      hide CP.Inv, RP.Inv, R.DeleteProjection, C.DeleteContact;
      RP.StepKeepsInv(Reg(), R.Delete(c));
      CP.StepKeepsInv(Crm(), C.StepDeleteContact(c));
      ok := c in contacts;
      if ok {
        events := events + [T.ContactEvent(c, R.PROFILE_DELETED)];
        DeleteProjection(c);
      }
    }

    method Gather(t: Id, src: Id)
      requires t in contacts && src in contacts
      modifies this`events, this`identities, this`contacts, this`policies
      ensures Reg() == R.Gathered(old(Reg()), t, src)
    {
      hide R.MoveIdentities, R.MergedPerson, R.MergedPolicy;
      events := events + [T.ContactEvent(src, T.Merged(Some(src)))];
      MoveIdentities(src, t);
      contacts := contacts[t := R.MergedPerson(contacts[t], contacts[src])];
      if t in policies { policies := policies[t := R.MergedPolicy(policies[t], R.Lookup(policies, src))]; }
    }

    method MergeTables(t: Id, src: Id, now: int)
      requires t in contacts && src in contacts
      modifies this
      ensures Reg() == R.MergeContacts(old(Reg()), t, src) && Crm() == C.MergeContacts(old(Crm()), t, src, now)
    {
      hide R.DeleteProjection, C.DeleteContact, C.MergeData, R.Gathered;
      Gather(t, src);
      MergeCrm(t, src, now);
      DeleteProjection(src);
      merges := merges + [T.MergeRecord(src, t)];
      events := events + [T.ContactEvent(t, T.Merged(Some(src)))];
    }

    /** `mergeContacts`, of a contact into itself too: every table in one transaction. */
    method MergeContacts(t: Id, src: Id, now: int) returns (ok: bool)
      requires Valid()
      modifies this
      ensures Valid() && ok == (t in old(contacts) && src in old(contacts))
      ensures Reg() == R.MergeContacts(old(Reg()), t, src)
      ensures Crm() == if ok then C.MergeContacts(old(Crm()), t, src, now) else old(Crm())
    {
      hide CP.Inv, RP.Inv, C.MergeContacts, R.DeleteProjection, R.Gathered;
      RP.StepKeepsInv(Reg(), R.Merge(t, src));
      CP.StepKeepsInv(Crm(), C.StepMergeContacts(t, src, now));
      ok := t in contacts && src in contacts;
      if ok { MergeTables(t, src, now); }
    }

    // -- profiles, opportunities and stages --

    /** Any profile write; the store stays valid unless it writes a copy that disagrees with the rows. */
    method UpdateProfile(c: Id, w: C.ProfileWrite) returns (ok: bool)
      requires Valid()
      modifies this`profiles, this`contexts
      ensures Crm() == C.UpdateProfile(old(Crm()), c, w) && (ok <==> C.Accepts(old(Crm()), w))
      ensures Valid() <==> (ok ==> CP.WritesAgree(old(Crm()), c, w))
    {
      hide CP.Inv, RP.Inv, C.WriteProfile, CP.WritesAgree;
      CP.UpdateProfileKeepsInvIff(Crm(), c, w);
      ok := && (w.account.Some? && w.account.value.Some? ==> w.account.value.value in accounts)
            && (w.opportunity.Some? && w.opportunity.value.Some? ==> w.opportunity.value.value in opps)
            && (w.nextTask.Some? && w.nextTask.value.Some? ==> w.nextTask.value.value in tasks);
      if ok {
        var p := if c in profiles then profiles[c] else C.FRESH_PROFILE;
        WriteProfile(c, C.Written(p, w));
      }
    }

    method CreateAccount(account: Id, org: Option<Id>) returns (ok: bool)
      requires Valid() && account !in accounts
      modifies this`accounts
      ensures Valid() && Crm() == C.CreateAccount(old(Crm()), account, org)
      ensures ok <==> org.None? || org !in old(accounts).Values
    {
      hide CP.Inv, RP.Inv;
      CP.StepKeepsInv(Crm(), C.StepCreateAccount(account, org));
      ok := org.None? || org !in accounts.Values;
      if ok { accounts := accounts[account := org]; }
    }

    method CreateStage(i: Id, st: C.Stage) returns (ok: bool)
      requires Valid() && i !in stages && !st.archived
      modifies this`stages
      ensures Valid() && Crm() == C.CreateStage(old(Crm()), i, st)
      ensures ok <==> C.StageFits(old(stages), i, st)
    {
      hide CP.Inv, RP.Inv, C.StageFits;
      CP.StepKeepsInv(Crm(), C.StepCreateStage(i, st));
      ok := C.StageFits(stages, i, st);
      if ok { stages := stages[i := st]; }
    }

    method InsertOpportunity(o: Id, c: Option<Id>, stage: Id, status: Option<C.OppStatus>, now: int)
      requires o !in opps && (forall k | k in oppLinks :: k.parent != o) && stage in stages && !stages[stage].archived
      modifies this`opps, this`oppLinks, this`profiles, this`contexts
      ensures Crm() == C.CreateOpportunity(old(Crm()), o, c, stage, status, now)
    {
      hide C.WriteProfile;
      var st := stages[stage];
      var row := C.Opportunity(c, st.pipeline, stage,
                               if status.Some? then status.value else C.StatusForStage(st.category, C.OppOpen));
      opps := opps[o := row];
      if c.Some? {
        var p := if c.value in profiles then profiles[c.value] else C.FRESH_PROFILE;
        oppLinks := oppLinks[LinkKey(o, c.value, C.STAKEHOLDER) := Link(true, now)];
        WriteProfile(c.value, p.(opportunity := if p.opportunity.Some? then p.opportunity else Some(o)));
      }
    }

    method CreateOpportunity(o: Id, c: Option<Id>, stage: Id, status: Option<C.OppStatus>, now: int) returns (ok: bool)
      requires Valid() && o !in opps && forall k | k in oppLinks :: k.parent != o
      modifies this`opps, this`oppLinks, this`profiles, this`contexts
      ensures Valid() && Crm() == C.CreateOpportunity(old(Crm()), o, c, stage, status, now)
      ensures ok <==> stage in stages && !stages[stage].archived
    {
      hide CP.Inv, RP.Inv, C.WriteProfile, C.StatusForStage;
      CP.StepKeepsInv(Crm(), C.StepCreateOpportunity(o, c, stage, status, now));
      ok := stage in stages && !stages[stage].archived;
      if ok { InsertOpportunity(o, c, stage, status, now); }
    }

    method CountOpen(stage: Id) returns (n: nat)
      ensures n > 0 <==> C.HasOpen(Crm(), stage)
    {
      OpenIsCounted(Crm(), stage);
      n := |OpenOpportunities(opps, stage)|;
    }

    method UpdateStage(i: Id, key: string, order: int, category: C.Category, archived: bool) returns (ok: bool)
      requires Valid()
      modifies this`stages
      ensures Valid() && Crm() == C.UpdateStage(old(Crm()), i, key, order, category, archived)
      ensures ok ==> i in stages && stages[i] == old(stages)[i].(key := key, order := order, category := category,
              archived := archived)
      ensures !ok ==> stages == old(stages)
    {
      hide CP.Inv, RP.Inv, C.UpdateStage;
      UpdateStageKeepsInv(Crm(), i, key, order, category, archived);
      ok := WriteStage(i, key, order, category, archived);
    }

    /** Archiving counts the open opportunities of the stage first. */
    method WriteStage(i: Id, key: string, order: int, category: C.Category, archived: bool) returns (ok: bool)
      modifies this`stages
      ensures Crm() == C.UpdateStage(old(Crm()), i, key, order, category, archived)
      ensures ok ==> i in stages && stages[i] == old(stages)[i].(key := key, order := order, category := category,
              archived := archived)
      ensures !ok ==> stages == old(stages)
    {
      hide C.StageFits, C.HasOpen;
      if i !in stages { return false; }
      var st := stages[i].(key := key, order := order, category := category, archived := archived);
      var open := CountOpen(i);
      ok := C.StageFits(stages, i, st) && !(archived && !stages[i].archived && open > 0);
      if ok { stages := stages[i := st]; }
    }

    method MoveOpportunity(o: Id, stage: Id) returns (ok: bool)
      requires Valid()
      modifies this`opps
      ensures Valid() && Crm() == C.MoveOpportunity(old(Crm()), o, stage)
      ensures ok ==> o in opps && opps[o].stage == stage
      ensures !ok ==> opps == old(opps)
    {
      hide CP.Inv, RP.Inv;
      CP.StepKeepsInv(Crm(), C.StepMoveOpportunity(o, stage));
      ok := o in opps && stage in stages && !stages[stage].archived && stages[stage].pipeline == opps[o].pipeline;
      if ok {
        opps := opps[o := opps[o].(stage := stage, status := C.StatusForStage(stages[stage].category, opps[o].status))];
      }
    }
  }

  lemma Conflict(r0: R.Reg, r: R.Reg, m: R.Message, c: Id, desired: R.Status, created: bool)
    requires c in r.contacts && !R.CanOwn(r.identities, m.sender, R.ByContact(c))
    ensures R.Intake(r0, r, m, c, desired, created) == r0
  {
  }

  lemma UpdateStageKeepsInv(s: C.Tabs, i: Id, key: string, order: int, category: C.Category, archived: bool)
    requires CP.Inv(s)
    ensures CP.Inv(C.UpdateStage(s, i, key, order, category, archived))
  {
    hide CP.Inv;
    CP.StepKeepsInv(s, C.StepUpdateStage(i, key, order, category, archived));
  }

  function OpenOpportunities(opps: map<Id, C.Opportunity>, stage: Id): (open: set<Id>) {
    set o | o in opps && opps[o].stage == stage && opps[o].status.OppOpen?
  }

  lemma OpenIsCounted(s: C.Tabs, stage: Id)
    ensures C.HasOpen(s, stage) <==> |OpenOpportunities(s.opps, stage)| > 0
  {
    var open := OpenOpportunities(s.opps, stage);
    if open != {} { var o :| o in open; assert C.OpenIn(s, o, stage); }
    if o :| o in s.opps && C.OpenIn(s, o, stage) { assert o in open; }
  }

  lemma OwnOppsStay(opps: map<Id, C.Opportunity>, c: Id)
    ensures C.OppsMoved(opps, c, c) == opps
  {
  }

  lemma ShownThenMoved(opps: map<Id, C.Opportunity>, links: Table, t: Id, src: Id)
    requires t != src
    ensures var shown := Shown(opps, links, RowsOf(links, src), t);
      C.OppsMoved(shown, t, src) == C.MergedOpps(opps, links, t, src)
  {
    var rows := RowsOf(links, src);
    forall o | o in opps
      ensures (exists k :: k in rows && k in links && links[k].primary && k.parent == o)
              <==> C.HadPrimary(links, o, src)
    {
      if C.HadPrimary(links, o, src) {
        var k :| k in links && k.parent == o && k.contact == src && links[k].primary;
        assert k in rows;
      }
    }
  }

  ghost function Moving(ids: R.Identities, done: set<R.IdentityKey>, src: Id, t: Id): (r: R.Identities) {
    map k | k in ids && !(k in done && src == t) :: if k in done then R.ByContact(t) else ids[k]
  }
}
