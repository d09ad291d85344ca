/** What every operation on the registry keeps, and what a merge and an inbound message do. */
module RegistryProofs {
  import opened Tables
  import opened Timeline
  import opened Registry

  // ---- the invariant ----

  /** Although no foreign key enforces it, a contact-owned identity row names a live contact. */
  ghost predicate OwnersLive(r: Reg) {
    forall k | k in r.identities ::
      !r.identities[k].Unowned? && (r.identities[k].ByContact? ==> r.identities[k].contact in r.contacts)
  }

  ghost predicate LiveNeverMerged(r: Reg) {
    forall m | m in r.merges :: m.source !in r.contacts
  }

  /** Each live contact's timeline is the class the merge audit gives it. */
  ghost predicate TimelinesFaithful(r: Reg) {
    forall c | c in r.contacts :: Faithful(r.events, r.merges, c)
  }

  ghost predicate Inv(r: Reg) {
    && r.policies.Keys == r.contacts.Keys
    && OwnersLive(r)
    && LiveNeverMerged(r)
    && TimelinesFaithful(r)
  }

  /** A hand-written `identity.merged` event may only name an id whose history the contact already holds;
      `AppendKeepsTimeline` shows that any other such event falsifies the timeline. */
  ghost predicate Honest(r: Reg, step: RegStep) {
    step.Note? && step.kind.Merged? && step.kind.source.Some? ==>
      step.kind.source.value in Class(r.merges, step.contact)
  }

  ghost predicate HonestRun(r: Reg, steps: seq<RegStep>)
    decreases |steps|
  {
    steps != [] ==> Honest(r, steps[0]) && HonestRun(Apply(r, steps[0]), steps[1..])
  }

  lemma SourcesNotLive(r: Reg, c: Id)
    requires LiveNeverMerged(r) && c in r.contacts
    ensures c !in Sources(r.merges)
  {
  }

  /** Different live contacts have disjoint classes. */
  lemma LiveIsOutsideOtherClass(r: Reg, c: Id, d: Id)
    requires LiveNeverMerged(r) && c in r.contacts && d in r.contacts && c != d
    ensures d !in Class(r.merges, c)
  {
    SourcesNotLive(r, d);
  }

  lemma PlainEventsKeepTimelines(r: Reg, r': Reg, more: Log)
    requires TimelinesFaithful(r) && r'.events == r.events + more && r'.merges == r.merges
    requires r'.contacts.Keys <= r.contacts.Keys
    requires forall e | e in more :: !NamesSource(e)
    ensures TimelinesFaithful(r')
  {
    forall c | c in r'.contacts ensures Faithful(r'.events, r'.merges, c) {
      assert Faithful(r.events, r.merges, c);
      AppendPlainKeepsTimeline(r.events, more, c, Class(r.merges, c));
    }
  }

  lemma FreshTimeline(r: Reg, id: Id, more: Log)
    requires Fresh(r, id) && forall e | e in more :: !NamesSource(e)
    ensures Faithful(r.events + more, r.merges, id)
  {
    assert id !in Sources(r.merges);
    NeverMergedIsOwnSurvivor(r.merges, id);
    forall x | x in Sources(r.merges) ensures Survivor(r.merges, x) != id {
      SurvivorIsNamed(r.merges, x);
    }
    assert Class(r.merges, id) == {id};
    assert Closed(r.events + more, {id}) by {
      assert forall e :: e in r.events + more <==> e in r.events || e in more;
    }
  }

  lemma {:induction false} SurvivorIsNamed(merges: seq<MergeRecord>, x: Id)
    ensures Survivor(merges, x) == x || exists m | m in merges :: m.target == Survivor(merges, x)
  {
    if merges != [] {
      var last := merges[|merges| - 1];
      SurvivorIsNamed(merges[..|merges| - 1], x);
      assert last in merges;
    }
  }

  lemma AddContactKeepsTimelines(r: Reg, r': Reg, id: Id, more: Log)
    requires TimelinesFaithful(r) && Fresh(r, id)
    requires r'.events == r.events + more && r'.merges == r.merges && r'.contacts.Keys == r.contacts.Keys + {id}
    requires forall e | e in more :: !NamesSource(e)
    ensures TimelinesFaithful(r')
  {
    forall c | c in r'.contacts ensures Faithful(r'.events, r'.merges, c) {
      if c == id {
        FreshTimeline(r, id, more);
      } else {
        assert Faithful(r.events, r.merges, c);
        AppendPlainKeepsTimeline(r.events, more, c, Class(r.merges, c));
      }
    }
  }

  // ---- one lemma per operation ----

  lemma CreateKeepsInv(r: Reg, id: Id, key: IdentityKey, person: Person, status: Status)
    requires Inv(r)
    ensures Inv(CreateContact(r, id, key, person, status))
  {
    var r' := CreateContact(r, id, key, person, status);
    if r' != r {
      AddContactKeepsTimelines(r, r', id, [ContactEvent(id, PROFILE_CREATED)]);
    }
  }

  /** `Intake` touches one contact's policy, one identity key and appends plain events, or nothing. */
  lemma IntakeShape(r0: Reg, r: Reg, m: Message, c: Id, desired: Status, created: bool) returns (more: Log)
    requires c in r.contacts && c in r.policies
    ensures var r' := Intake(r0, r, m, c, desired, created);
            r' == r0 ||
            (&& r'.contacts == r.contacts && r'.merges == r.merges && r'.events == r.events + more
             && r'.identities == r.identities[m.sender := ByContact(c)]
             && CanOwn(r.identities, m.sender, ByContact(c))
             && r'.policies == r.policies[c := r.policies[c].(status :=
                  if ShouldApply(Some(r.policies[c]), desired) then desired else r.policies[c].status)])
    ensures forall e | e in more :: !NamesSource(e)
  {
    more := (if ShouldApply(Some(r.policies[c]), desired) then [ContactEvent(c, STATUS_CHANGED)] else [])
            + (if m.sender !in r.identities then [ContactEvent(c, IDENTITY_LINKED)] else [])
            + (if created && m.tagged then [ContactEvent(c, TAG_ADDED)] else []);
    var r' := Intake(r0, r, m, c, desired, created);
    if r' != r0 {
      assert r'.events == r.events + more;
      assert r'.policies == r.policies[c := r.policies[c].(status :=
                if ShouldApply(Some(r.policies[c]), desired) then desired else r.policies[c].status)];
    }
  }

  /** What one message can do: nothing, update the contact it belongs to, or add a contact. */
  ghost predicate Updated(r: Reg, m: Message, r': Reg, c: Id, more: Log) {
    && c in r.contacts && c in r.policies && m.mode.Some?
    && CanOwn(r.identities, m.sender, ByContact(c))
    && r' == Reg(Named(r, c, m.name).contacts, r.identities[m.sender := ByContact(c)],
                 r.policies[c := r.policies[c].(status :=
                   if ShouldApply(Some(r.policies[c]), m.mode.value) then m.mode.value else r.policies[c].status)],
                 r.events + more, r.merges)
  }

  ghost predicate Added(r: Reg, m: Message, r': Reg, more: Log) {
    && Fresh(r, m.newId) && m.mode.Some?
    && (m.scoped || CanOwn(r.identities, m.contactKey, ByContact(m.newId)))
    && var r1 := WithContact(r, m, m.mode.value);
       && CanOwn(r1.identities, m.sender, ByContact(m.newId))
       && r' == Reg(r1.contacts, r1.identities[m.sender := ByContact(m.newId)], r1.policies, r.events + more, r.merges)
  }

  lemma InboundShape(r: Reg, m: Message) returns (c: Id, more: Log)
    requires Inv(r)
    ensures var r' := Inbound(r, m);
            r' == r || Updated(r, m, r', c, more) || (c == m.newId && Added(r, m, r', more))
    ensures forall e | e in more :: !NamesSource(e)
  {
    c, more := m.newId, [];
    var r' := Inbound(r, m);
    if r' != r {
      match InboundContact(r, m) {
        case Some(d) =>
          c := d;
          more := IntakeShape(r, Named(r, c, m.name), m, c, m.mode.value, false);
        case None =>
          var r1 := WithContact(r, m, m.mode.value);
          var rest := IntakeShape(r, r1, m, c, m.mode.value, true);
          more := [ContactEvent(c, PROFILE_CREATED)] + rest;
          assert r'.events == r.events + more;
          assert r'.policies == r1.policies;
      }
    }
  }

  lemma InboundKeepsInv(r: Reg, m: Message)
    requires Inv(r)
    ensures Inv(Inbound(r, m))
  {
    hide Inbound, Inv, Added, Updated;
    var c, more := InboundShape(r, m);
    var r' := Inbound(r, m);
    if Added(r, m, r', more) {
      AddedKeepsInv(r, m, r', more);
    } else if Updated(r, m, r', c, more) {
      UpdatedKeepsInv(r, m, r', c, more);
    }
  }

  lemma UpdatedKeepsInv(r: Reg, m: Message, r': Reg, c: Id, more: Log)
    requires Inv(r) && Updated(r, m, r', c, more) && forall e | e in more :: !NamesSource(e)
    ensures Inv(r')
  {
    hide TimelinesFaithful, NamesSource, ShouldApply;
    PlainEventsKeepTimelines(r, r', more);
  }

  lemma AddedKeepsInv(r: Reg, m: Message, r': Reg, more: Log)
    requires Inv(r) && Added(r, m, r', more) && forall e | e in more :: !NamesSource(e)
    ensures Inv(r')
  {
    hide TimelinesFaithful, NamesSource, ShouldApply;
    AddContactKeepsTimelines(r, r', m.newId, more);
  }

  lemma PlainStepsKeepInv(r: Reg, step: RegStep)
    requires Inv(r)
    requires step.Link? || step.UpsertAgent? || step.Unlink? || step.WritePolicy? || step.Interact? || step.Delete?
    ensures Inv(Apply(r, step))
  {
    hide TimelinesFaithful;
    var r' := Apply(r, step);
    PlainStepAppends(r, step);
    PlainEventsKeepTimelines(r, r', r'.events[|r.events|..]);
  }

  lemma PlainStepAppends(r: Reg, step: RegStep)
    requires step.Link? || step.UpsertAgent? || step.Unlink? || step.WritePolicy? || step.Interact? || step.Delete?
    ensures var more := Apply(r, step).events[|r.events|..];
      Apply(r, step).events == r.events + more && forall e | e in more :: !NamesSource(e)
  {
  }

  /** An appended event keeps the invariant if and only if it is no forged merge of a live contact. */
  lemma NoteKeepsInvIff(r: Reg, c: Id, kind: EventKind)
    requires Inv(r)
    ensures Inv(AddEvent(r, c, kind)) <==> (c in r.contacts ==> Honest(r, Note(c, kind)))
  {
    var r', e := AddEvent(r, c, kind), ContactEvent(c, kind);
    if c in r.contacts {
      forall d | d in r.contacts
        ensures Faithful(r'.events, r'.merges, d) <==> (c == d ==> Honest(r, Note(c, kind)))
      {
        assert Faithful(r.events, r.merges, d);
        if c != d { LiveIsOutsideOtherClass(r, d, c); }
        AppendKeepsTimeline(r.events, e, d, Class(r.merges, d));
      }
    }
  }

  lemma MergeKeepsTimeline(r: Reg, t: Id, s: Id, c: Id)
    requires LiveNeverMerged(r) && t in r.contacts && s in r.contacts && c in r.contacts && c != s
    requires Faithful(r.events, r.merges, c) && Faithful(r.events, r.merges, s)
    ensures Faithful(r.events + MergeRows(s, t), r.merges + [MergeRecord(s, t)], c)
  {
    SourcesNotLive(r, s);
    SourcesNotLive(r, t);
    SourcesNotLive(r, c);
    MergeJoinsClasses(r.merges, s, t, c);
    if c == t {
      LiveIsOutsideOtherClass(r, s, t);
      MergeJoinsTimelines(r.events, s, t, Class(r.merges, s), Class(r.merges, t));
      assert Class(r.merges, s) + Class(r.merges, t) == Class(r.merges, t) + Class(r.merges, s);
    } else {
      LiveIsOutsideOtherClass(r, c, t);
      MergeKeepsOtherTimelines(r.events, s, t, c, Class(r.merges, c));
    }
  }

  lemma MergeShape(r: Reg, t: Id, s: Id)
    requires t in r.contacts && s in r.contacts
    ensures var r' := MergeContacts(r, t, s);
            && r'.events == r.events + MergeRows(s, t)
            && r'.merges == r.merges + [MergeRecord(s, t)]
            && r'.contacts.Keys == r.contacts.Keys - {s}
            && r'.identities == MoveIdentities(r.identities, s, t)
  {
    var moved := MoveIdentities(r.identities, s, t);
    assert KeysOf(moved, ByContact(s)) == {};
    assert moved - KeysOf(moved, ByContact(s)) == moved;
  }

  lemma MergeKeepsOwners(r: Reg, t: Id, s: Id)
    requires OwnersLive(r) && r.policies.Keys == r.contacts.Keys && t in r.contacts && s in r.contacts
    ensures OwnersLive(MergeContacts(r, t, s))
    ensures MergeContacts(r, t, s).policies.Keys == MergeContacts(r, t, s).contacts.Keys
  {
  }

  lemma MergeKeepsTimelines(r: Reg, t: Id, s: Id)
    requires LiveNeverMerged(r) && TimelinesFaithful(r) && t in r.contacts && s in r.contacts
    ensures TimelinesFaithful(MergeContacts(r, t, s))
  {
    var r' := MergeContacts(r, t, s);
    MergeShape(r, t, s);
    hide MergeContacts, LiveNeverMerged, MergeRows;
    forall c | c in r'.contacts ensures Faithful(r'.events, r'.merges, c) {
      MergeKeepsTimeline(r, t, s, c);
    }
  }

  lemma MergeKeepsInv(r: Reg, t: Id, s: Id)
    requires Inv(r)
    ensures Inv(MergeContacts(r, t, s))
  {
    if t in r.contacts && s in r.contacts {
      var r' := MergeContacts(r, t, s);
      MergeShape(r, t, s);
      MergeKeepsOwners(r, t, s);
      assert TimelinesFaithful(r') by { MergeKeepsTimelines(r, t, s); }
      hide TimelinesFaithful, OwnersLive, MoveIdentities, MergeRows;
    }
  }

  lemma StepKeepsInv(r: Reg, step: RegStep)
    requires Inv(r) && Honest(r, step)
    ensures Inv(Apply(r, step))
  {
    match step
    case Create(id, key, person, status) => CreateKeepsInv(r, id, key, person, status);
    case Receive(m) => InboundKeepsInv(r, m);
    case Note(c, kind) => NoteKeepsInvIff(r, c, kind);
    case Merge(t, s) => MergeKeepsInv(r, t, s);
    case _ => PlainStepsKeepInv(r, step);
  }

  lemma {:induction false} RunKeepsInv(r: Reg, steps: seq<RegStep>)
    requires Inv(r) && HonestRun(r, steps)
    ensures Inv(Run(r, steps))
    decreases |steps|
  {
    if steps != [] {
      StepKeepsInv(r, steps[0]);
      RunKeepsInv(Apply(r, steps[0]), steps[1..]);
    }
  }

  // ---- timelines over whole runs ----

  /** In every run from the empty database, the ids the worklist collects for a live contact are exactly the
      ids whose merge-audit survivor it is, so a logged event shows on one live timeline and no other. */
  lemma TimelineIsSurvivorClass(steps: seq<RegStep>, c: Id, ids: set<Id>, x: Id)
    requires HonestRun(EMPTY, steps)
    requires c in Run(EMPTY, steps).contacts && IsTimeline(Run(EMPTY, steps).events, c, ids)
    ensures x in ids <==> Survivor(Run(EMPTY, steps).merges, x) == c
  {
    RunKeepsInv(EMPTY, steps);
    var r := Run(EMPTY, steps);
    assert Faithful(r.events, r.merges, c);
    assert ids == Class(r.merges, c);
    if Survivor(r.merges, x) == c && x != c && x !in Sources(r.merges) {
      NeverMergedIsOwnSurvivor(r.merges, x);
    }
  }

  /** A forged merge, on the log of a two-contact database: the timeline of one live contact shows the other's events,
      although neither was ever merged. So the runs above must be honest. */
  lemma ForgedMergeMisleads(key: IdentityKey, other: IdentityKey, person: Person)
    requires key != other
    ensures var steps := [Create(0, key, person, Allowed), Create(1, other, person, Allowed), Note(0, Merged(Some(1)))];
      var r := Run(EMPTY, steps);
      0 in r.contacts && 1 in r.contacts && IsTimeline(r.events, 0, {0, 1}) && Survivor(r.merges, 1) == 1
  {
    var steps := [Create(0, key, person, Allowed), Create(1, other, person, Allowed), Note(0, Merged(Some(1)))];
    var r1 := Apply(EMPTY, steps[0]);
    assert Fresh(EMPTY, 0) && r1.events == [ContactEvent(0, PROFILE_CREATED)];
    var r2 := Apply(r1, steps[1]);
    assert Fresh(r1, 1) && r2.events == [ContactEvent(0, PROFILE_CREATED), ContactEvent(1, PROFILE_CREATED)];
    var r3 := Apply(r2, steps[2]);
    assert steps[1..][1..] == [steps[2]] && Run(r2, [steps[2]]) == r3 && Run(r1, steps[1..]) == r3;
    assert r3.events[2] == ContactEvent(0, Merged(Some(1)));
  }

  // ---- what a merge does ----

  /** Merging two distinct contacts: the target owns exactly the union of both key sets, no key is lost, and
      every other owner keeps exactly its keys. */
  lemma MergeMovesIdentities(r: Reg, t: Id, s: Id)
    requires t in r.contacts && s in r.contacts && t != s
    ensures var ids, ids' := r.identities, MergeContacts(r, t, s).identities;
      && ids'.Keys == ids.Keys
      && KeysOf(ids', ByContact(t)) == KeysOf(ids, ByContact(t)) + KeysOf(ids, ByContact(s))
      && KeysOf(ids', ByContact(s)) == {}
      && forall o: Owner | o != ByContact(t) && o != ByContact(s) :: KeysOf(ids', o) == KeysOf(ids, o)
  {
    MergeShape(r, t, s);
    MoveUnionsKeys(r.identities, s, t);
  }

  /** No other contact's person or policy row changes, and the target keeps its own status and opt-out. */
  lemma MergeLeavesOthers(r: Reg, t: Id, s: Id, c: Id)
    requires r.policies.Keys == r.contacts.Keys && t in r.contacts && s in r.contacts && t != s &&
             c in r.contacts && c != s
    ensures var r' := MergeContacts(r, t, s);
      && c in r'.contacts && c in r'.policies
      && r'.policies[c].status == r.policies[c].status && r'.policies[c].optOut == r.policies[c].optOut
      && (c != t ==> r'.contacts[c] == r.contacts[c] && r'.policies[c] == r.policies[c])
  {
  }

  lemma MoveUnionsKeys(ids: Identities, s: Id, t: Id)
    requires s != t
    ensures var ids' := MoveIdentities(ids, s, t);
      && ids'.Keys == ids.Keys
      && KeysOf(ids', ByContact(t)) == KeysOf(ids, ByContact(t)) + KeysOf(ids, ByContact(s))
      && KeysOf(ids', ByContact(s)) == {}
      && forall o: Owner | o != ByContact(t) && o != ByContact(s) :: KeysOf(ids', o) == KeysOf(ids, o)
  {
  }

  /** A merge keeps its target exactly when source and target differ. */
  lemma MergeKeepsTargetIffDistinct(r: Reg, t: Id, s: Id)
    requires t in r.contacts && s in r.contacts
    ensures t in MergeContacts(r, t, s).contacts <==> t != s
    ensures t == s ==> KeysOf(MergeContacts(r, t, s).identities, ByContact(t)) == {}
                       && MergeContacts(r, t, s).identities.Keys
                          == r.identities.Keys - KeysOf(r.identities, ByContact(t))
  {
    MergeShape(r, t, s);
  }

  ghost function Interactions(p: map<Id, Policy>, over: set<Id>): (n: nat)
    requires over <= p.Keys
  {
    if over == {} then 0 else var c :| c in over; p[c].interactions + Interactions(p, over - {c})
  }

  lemma {:induction false} InteractionsSplit(p: map<Id, Policy>, over: set<Id>, x: Id)
    requires over <= p.Keys && x in over
    ensures Interactions(p, over) == p[x].interactions + Interactions(p, over - {x})
    decreases |over|
  {
    var c :| c in over && Interactions(p, over) == p[c].interactions + Interactions(p, over - {c});
    if c != x {
      InteractionsSplit(p, over - {c}, x);
      InteractionsSplit(p, over - {x}, c);
      assert over - {c} - {x} == over - {x} - {c};
    }
  }

  lemma {:induction false} InteractionsSame(p: map<Id, Policy>, q: map<Id, Policy>, over: set<Id>)
    requires over <= p.Keys && over <= q.Keys
    requires forall c | c in over :: p[c].interactions == q[c].interactions
    ensures Interactions(p, over) == Interactions(q, over)
    decreases |over|
  {
    if over != {} {
      var c :| c in over;
      InteractionsSplit(p, over, c);
      InteractionsSplit(q, over, c);
      InteractionsSame(p, q, over - {c});
    }
  }

  /** The total interaction count is conserved by a merge of distinct contacts, and a self-merge loses exactly
      the contact's own count: conserved if and only if the ids differ or there was nothing to lose. */
  lemma MergeConservesInteractions(r: Reg, t: Id, s: Id)
    requires r.policies.Keys == r.contacts.Keys && t in r.contacts && s in r.contacts
    ensures var r' := MergeContacts(r, t, s);
      Interactions(r'.policies, r'.policies.Keys)
      == Interactions(r.policies, r.policies.Keys) - (if t == s then r.policies[s].interactions else 0)
  {
    var r' := MergeContacts(r, t, s);
    var p, p' := r.policies, r'.policies;
    assert p'.Keys == p.Keys - {s};
    InteractionsSplit(p, p.Keys, s);
    if t == s {
      InteractionsSame(p, p', p.Keys - {s});
    } else {
      InteractionsSplit(p, p.Keys - {s}, t);
      InteractionsSplit(p', p'.Keys, t);
      assert p.Keys - {s} - {t} == p'.Keys - {t};
      InteractionsSame(p, p', p'.Keys - {t});
    }
  }

  predicate AtLeast(a: Option<int>, b: Option<int>) { b.Some? ==> a.Some? && a.value >= b.value }

  /** The survivor was last heard from, and last written to, when either contact was; its name and email are its
      own where it had them and the source's otherwise. */
  lemma MergeKeepsLatestContact(r: Reg, t: Id, s: Id)
    requires r.policies.Keys == r.contacts.Keys && t in r.contacts && s in r.contacts && t != s
    ensures var p, a, b := MergeContacts(r, t, s).policies[t], r.policies[t], r.policies[s];
      && AtLeast(p.lastInbound, a.lastInbound) && AtLeast(p.lastInbound, b.lastInbound)
      && p.lastInbound in {a.lastInbound, b.lastInbound}
      && AtLeast(p.lastOutbound, a.lastOutbound) && AtLeast(p.lastOutbound, b.lastOutbound)
      && p.lastOutbound in {a.lastOutbound, b.lastOutbound}
    ensures var p, a, b := MergeContacts(r, t, s).contacts[t], r.contacts[t], r.contacts[s];
      && p.phone == a.phone
      && (a.name.Some? ==> p.name == a.name) && (a.name.None? ==> p.name == b.name)
      && (a.email.Some? ==> p.email == a.email) && (a.email.None? ==> p.email == b.email)
  {
  }

  // ---- ownership over whole runs ----

  /** An identity row that survives a step keeps its owner, unless the step merged that owner away. */
  lemma OwnerChangesOnlyByMerge(r: Reg, step: RegStep, key: IdentityKey)
    requires Inv(r) && key in r.identities && key in Apply(r, step).identities
    ensures var before, after := r.identities[key], Apply(r, step).identities[key];
            after == before || (step.Merge? && before == ByContact(step.source) && after == ByContact(step.target))
  {
    match step {
      case Receive(m) =>
        var _, _ := InboundShape(r, m);
      case _ =>
    }
  }

  lemma AgentKeepsKey(r: Reg, step: RegStep, key: IdentityKey)
    requires Inv(r) && key in r.identities && r.identities[key].ByAgent?
    ensures key in Apply(r, step).identities && Apply(r, step).identities[key] == r.identities[key]
  {
    hide Inbound, TimelinesFaithful, LiveNeverMerged;
    match step {
      case Receive(m) => AgentKeepsKeyInbound(r, m, key);
      case _ =>
    }
  }

  lemma AgentKeepsKeyInbound(r: Reg, m: Message, key: IdentityKey)
    requires Inv(r) && key in r.identities && r.identities[key].ByAgent?
    ensures key in Inbound(r, m).identities && Inbound(r, m).identities[key] == r.identities[key]
  {
    var _, _ := InboundShape(r, m);
  }

  /** A key an agent owns keeps that agent through every later run. */
  lemma {:induction false} AgentKeepsKeyForever(r: Reg, steps: seq<RegStep>, key: IdentityKey)
    requires Inv(r) && HonestRun(r, steps) && key in r.identities && r.identities[key].ByAgent?
    ensures key in Run(r, steps).identities && Run(r, steps).identities[key] == r.identities[key]
    decreases |steps|
  {
    if steps != [] {
      AgentKeepsKey(r, steps[0], key);
      StepKeepsInv(r, steps[0]);
      AgentKeepsKeyForever(Apply(r, steps[0]), steps[1..], key);
    }
  }

  // ---- inbound messages ----

  /** Replaying a message changes nothing at all: no contact, identity, event or policy. The replay may draw
      another fresh id, and resolves the identity anew; where the first delivery wrote nothing the lookup
      necessarily repeats. */
  lemma ReplayIsNoOp(r: Reg, m: Message, again: Message)
    requires Inv(r) && Fresh(r, m.newId) && Fresh(Inbound(r, m), again.newId)
    requires again.(newId := m.newId, resolved := m.resolved) == m
    requires Inbound(r, m) == r ==> again.resolved == m.resolved
    ensures Inbound(Inbound(r, m), again) == Inbound(r, m)
  {
    var r' := Inbound(r, m);
    var c, _ := InboundShape(r, m);
    if r' != r {
      Settled(r', again, c);
    }
  }

  /** Once the sender's key belongs to a named contact whose status the message cannot move, it writes nothing. */
  lemma Settled(r: Reg, m: Message, c: Id)
    requires m.sender in r.identities && r.identities[m.sender] == ByContact(c)
    requires c in r.contacts && c in r.policies && m.mode.Some?
    requires r.contacts[c].name == Coalesce(r.contacts[c].name, m.name)
    requires !ShouldApply(Some(r.policies[c]), m.mode.value)
    ensures Inbound(r, m) == r
  {
    assert r.contacts[c := r.contacts[c].(name := Coalesce(r.contacts[c].name, m.name))] == r.contacts;
    assert r.identities[m.sender := ByContact(c)] == r.identities;
    assert r.events + [] + [] == r.events;
  }

  /** `discovered` may climb to `pending`; nothing else moves, and an opted-out contact never moves. */
  predicate Climbs(before: Policy, after: Policy) {
    after == before || (!before.optOut && before.status.Discovered? && after == before.(status := Pending))
  }

  lemma InboundOnlyClimbs(r: Reg, m: Message, c: Id)
    requires Inv(r) && c in r.contacts && (m.mode.Some? ==> m.mode.value.Discovered? || m.mode.value.Pending?)
    ensures c in Inbound(r, m).contacts && c in Inbound(r, m).policies
    ensures Climbs(r.policies[c], Inbound(r, m).policies[c])
  {
    var _, _ := InboundShape(r, m);
  }

  ghost function Deliver(r: Reg, messages: seq<Message>): (r': Reg)
    decreases |messages|
  {
    if messages == [] then r else Deliver(Inbound(r, messages[0]), messages[1..])
  }

  /** Along every run of inbound messages a live contact stays live and its status only climbs. */
  lemma {:induction false} DeliveriesOnlyClimb(r: Reg, messages: seq<Message>, c: Id)
    requires Inv(r) && c in r.contacts
    requires forall m | m in messages :: m.mode.Some? ==> m.mode.value.Discovered? || m.mode.value.Pending?
    ensures c in Deliver(r, messages).contacts && c in Deliver(r, messages).policies
    ensures Climbs(r.policies[c], Deliver(r, messages).policies[c])
    decreases |messages|
  {
    if messages != [] {
      assert messages[0] in messages;
      InboundOnlyClimbs(r, messages[0], c);
      InboundKeepsInv(r, messages[0]);
      DeliveriesOnlyClimb(Inbound(r, messages[0]), messages[1..], c);
    }
  }
}
