/** The denormalised copies of the CRM agree with the rows they copy, in every run. */
module CrmProofs {
  import opened Tables
  import opened CrmLinks
  import opened Crm

  // ---- the invariant ----

  function CopyOf(s: Tabs, copy: Copy, c: Id): (v: Option<Id>) {
    GetCopy(ProfileOf(s, c), copy)
  }

  /** A profile's primary account (opportunity) names one of the contact's own primary rows and is empty only
      when it has none. */
  ghost predicate CopiesAgree(s: Tabs, copy: Copy) {
    forall c: Id :: Agrees(LinksFor(s, copy), Parent, c, CopyOf(s, copy, c))
  }

  /** An opportunity's primary contact is the contact of its primary row, and none iff there is none. */
  ghost predicate PrimaryContactsAgree(s: Tabs) {
    forall o | o in s.opps :: Agrees(s.oppLinks, Contact, o, s.opps[o].contact)
  }

  ghost predicate OppRowsKnown(s: Tabs) {
    forall k | k in s.oppLinks :: k.parent in s.opps
  }

  ghost predicate LinksInv(s: Tabs) {
    && OnePrimary(s.accountLinks) && OnePrimary(s.oppLinks) && OppRowsKnown(s)
    && CopiesAgree(s, AccountCopy) && CopiesAgree(s, OpportunityCopy)
    && PrimaryContactsAgree(s)
  }

  /** The stored next action is the least open task of the contact. */
  ghost predicate NextInv(s: Tabs) {
    forall c: Id :: ProfileOf(s, c).next == NextFor(s.tasks, c)
  }

  /** The `crm.*` context entries equal the projection of the profile row. */
  ghost predicate ContextsInv(s: Tabs) {
    forall c | c in s.profiles :: ContextMatches(s, c)
  }

  ghost predicate ContextMatches(s: Tabs, c: Id)
    requires c in s.profiles
  {
    ContextOf(s, c).crm == Some(Projection(s.profiles[c]))
  }

  /** No open opportunity sits in an archived stage, and its pipeline is its stage's pipeline. */
  ghost predicate PipelineInv(s: Tabs) {
    && (forall o | o in s.opps ::
          s.opps[o].stage in s.stages && s.stages[s.opps[o].stage].pipeline == s.opps[o].pipeline)
    && (forall o | o in s.opps && s.opps[o].status.OppOpen? :: !s.stages[s.opps[o].stage].archived)
    && (forall i | i in s.stages :: StageFits(s.stages, i, s.stages[i]))
  }

  ghost predicate Inv(s: Tabs) {
    LinksInv(s) && NextInv(s) && ContextsInv(s) && PipelineInv(s)
  }

  // ---- profile writes ----

  /** Only the profile rows and their projections differ. */
  ghost predicate OnlyProfiles(s: Tabs, s': Tabs) {
    s' == s.(profiles := s'.profiles, contexts := s'.contexts)
  }

  /** Writing profiles always leaves the context entries projected. */
  lemma WriteKeepsContexts(s: Tabs, rows: map<Id, Profile>)
    requires ContextsInv(s)
    ensures ContextsInv(WriteProfiles(s, rows))
  {
    var s' := WriteProfiles(s, rows);
    forall c | c in s'.profiles ensures ContextMatches(s', c) {
      if c !in rows { assert ContextMatches(s, c); }
    }
  }

  lemma WriteOneShape(s: Tabs, c: Id, p: Profile)
    requires ContextsInv(s)
    ensures var s' := WriteProfile(s, c, p);
      && OnlyProfiles(s, s') && ContextsInv(s') && ProfileOf(s', c) == p
      && forall d: Id | d != c :: ProfileOf(s', d) == ProfileOf(s, d)
  {
    hide ContextsInv, Projection;
    WriteKeepsContexts(s, map[c := p]);
  }

  lemma WriteShape(s: Tabs, rows: map<Id, Profile>, c: Id)
    ensures ProfileOf(WriteProfiles(s, rows), c) == if c in rows then rows[c] else ProfileOf(s, c)
  {
  }

  function Other(copy: Copy): (r: Copy) {
    if copy.AccountCopy? then OpportunityCopy else AccountCopy
  }

  /** A refresh makes the copy agree for the refreshed contacts, keeps it for those whose primary rows did not
      change, and touches no other column. */
  lemma RefreshShape(s: Tabs, copy: Copy, cs: set<Id>, me: Id, preferred: Option<Id>, c: Id)
    ensures var p, p' := ProfileOf(s, c), ProfileOf(Refresh(s, copy, cs, me, preferred), c);
      && p' == SetCopy(p, copy, GetCopy(p', copy))
      && (c !in cs ==> p' == p)
      && (c in cs ==> Agrees(LinksFor(s, copy), Parent, c, GetCopy(p', copy)))
  {
    WriteShape(s, Refreshed(s, copy, cs, me, preferred), c);
    PickAgrees(LinksFor(s, copy), Parent, c, if c == me then preferred else None);
  }

  lemma RefreshKeepsOthers(s: Tabs, copy: Copy, cs: set<Id>, me: Id, preferred: Option<Id>)
    requires ContextsInv(s)
    ensures var s' := Refresh(s, copy, cs, me, preferred);
      && ContextsInv(s')
      && s' == s.(profiles := s'.profiles, contexts := s'.contexts)
      && (forall c: Id :: ProfileOf(s', c).next == ProfileOf(s, c).next)
      && (forall c: Id :: CopyOf(s', Other(copy), c) == CopyOf(s, Other(copy), c))
      && (forall c: Id | c !in cs :: CopyOf(s', copy, c) == CopyOf(s, copy, c))
  {
    var s' := Refresh(s, copy, cs, me, preferred);
    WriteKeepsContexts(s, Refreshed(s, copy, cs, me, preferred));
    forall c: Id
      ensures ProfileOf(s', c).next == ProfileOf(s, c).next
      ensures CopyOf(s', Other(copy), c) == CopyOf(s, Other(copy), c)
      ensures c !in cs ==> CopyOf(s', copy, c) == CopyOf(s, copy, c)
    {
      RefreshShape(s, copy, cs, me, preferred, c);
    }
  }

  lemma RefreshMakesAgree(s: Tabs, copy: Copy, cs: set<Id>, me: Id, preferred: Option<Id>)
    requires forall c: Id | c !in cs :: Agrees(LinksFor(s, copy), Parent, c, CopyOf(s, copy, c))
    ensures CopiesAgree(Refresh(s, copy, cs, me, preferred), copy)
  {
    var s' := Refresh(s, copy, cs, me, preferred);
    forall c: Id ensures Agrees(LinksFor(s', copy), Parent, c, CopyOf(s', copy, c)) {
      RefreshShape(s, copy, cs, me, preferred, c);
    }
  }

  /** Everything but the agreement of one profile copy. */
  ghost predicate InvExcept(s: Tabs, copy: Copy) {
    && OnePrimary(s.accountLinks) && OnePrimary(s.oppLinks) && OppRowsKnown(s) && PrimaryContactsAgree(s)
    && CopiesAgree(s, Other(copy)) && NextInv(s) && ContextsInv(s) && PipelineInv(s)
  }

  lemma RefreshRestoresInv(s: Tabs, copy: Copy, cs: set<Id>, me: Id, preferred: Option<Id>)
    requires InvExcept(s, copy)
    requires forall c: Id | c !in cs :: Agrees(LinksFor(s, copy), Parent, c, CopyOf(s, copy, c))
    ensures Inv(Refresh(s, copy, cs, me, preferred))
  {
    hide OnePrimary, Agrees, NextFor, ContextMatches, StageFits, Refresh;
    RefreshMakesAgree(s, copy, cs, me, preferred);
    RefreshKeepsOthers(s, copy, cs, me, preferred);
    var s' := Refresh(s, copy, cs, me, preferred);
    SamePipeline(s, s');
    forall c: Id ensures Agrees(LinksFor(s', Other(copy)), Parent, c, CopyOf(s', Other(copy), c)) {
      assert Agrees(LinksFor(s, Other(copy)), Parent, c, CopyOf(s, Other(copy), c));
    }
  }

  lemma SamePipeline(s: Tabs, s': Tabs)
    requires PipelineInv(s) && s'.opps == s.opps && s'.stages == s.stages
    ensures PipelineInv(s')
  {
  }

  lemma RefreshNextShape(s: Tabs, c: Id)
    requires ContextsInv(s)
    requires forall d: Id | d != c :: ProfileOf(s, d).next == NextFor(s.tasks, d)
    ensures var s' := RefreshNext(s, c);
      && NextInv(s') && ContextsInv(s') && OnlyProfiles(s, s')
      && (forall copy: Copy | CopiesAgree(s, copy) :: CopiesAgree(s', copy))
  {
    hide NextFor, ContextsInv, WriteProfile, Agrees;
    var s' := RefreshNext(s, c);
    WriteOneShape(s, c, ProfileOf(s, c).(next := NextFor(s.tasks, c)));
    forall copy: Copy | CopiesAgree(s, copy) ensures CopiesAgree(s', copy) {
      forall d: Id ensures Agrees(LinksFor(s', copy), Parent, d, CopyOf(s', copy, d)) {
        assert Agrees(LinksFor(s, copy), Parent, d, CopyOf(s, copy, d));
      }
    }
  }

  /** Everything but the pipeline columns of opportunities and the stages unchanged. */
  lemma SameLinksKeepInv(s: Tabs, s': Tabs)
    requires LinksInv(s) && NextInv(s) && ContextsInv(s)
    requires s' == s.(opps := s'.opps, stages := s'.stages) && s'.opps.Keys == s.opps.Keys
    requires forall o | o in s.opps :: s'.opps[o].contact == s.opps[o].contact
    ensures LinksInv(s') && NextInv(s') && ContextsInv(s')
  {
    ContextsOfSameProfiles(s, s');
    OtherCopySame(s, s', AccountCopy);
    OtherCopySame(s, s', OpportunityCopy);
    forall c: Id ensures ProfileOf(s', c).next == NextFor(s'.tasks, c) {
      assert ProfileOf(s, c).next == NextFor(s.tasks, c);
    }
    forall o | o in s'.opps ensures Agrees(s'.oppLinks, Contact, o, s'.opps[o].contact) {
      assert Agrees(s.oppLinks, Contact, o, s.opps[o].contact);
    }
  }

  // ---- tasks ----

  lemma OtherTasksUnchanged(tasks: map<Id, Task>, tasks': map<Id, Task>, c: Id)
    requires OpenTasksOf(tasks, c) == OpenTasksOf(tasks', c)
    requires forall i | i in OpenTasksOf(tasks, c) :: tasks'[i] == tasks[i]
    ensures NextFor(tasks, c) == NextFor(tasks', c)
  {
    if OpenTasksOf(tasks, c) != {} {
      var a, b := FirstTask(tasks, c), FirstTask(tasks', c);
      assert TaskNotAfter(tasks, a, b) && TaskNotAfter(tasks', b, a);
    }
  }

  lemma SetTaskKeepsInv(s: Tabs, i: Id, task: Task)
    requires Inv(s) && (i in s.tasks ==> s.tasks[i].contact == task.contact)
    ensures Inv(SetTask(s, i, task))
  {
    hide ContextsInv, RefreshNext, Agrees, OnePrimary, FirstTask, StageFits;
    var s1 := s.(tasks := s.tasks[i := task]);
    forall d: Id | task.contact != Some(d)
      ensures ProfileOf(s1, d).next == NextFor(s1.tasks, d)
    {
      assert OpenTasksOf(s.tasks, d) == OpenTasksOf(s1.tasks, d);
      OtherTasksUnchanged(s.tasks, s1.tasks, d);
    }
    ContextsOfSameProfiles(s, s1);
    OtherCopySame(s, s1, AccountCopy);
    OtherCopySame(s, s1, OpportunityCopy);
    if task.contact.Some? {
      RefreshNextShape(s1, task.contact.value);
    }
  }

  lemma TaskStepsKeepInv(s: Tabs, step: CrmStep)
    requires Inv(s)
    requires step.StepCreateTask? || step.StepCancelTask? || step.StepCompleteTask? || step.StepSnoozeTask?
    ensures Inv(Apply(s, step))
  {
    match step
    case StepCreateTask(i, row) => if i !in s.tasks { SetTaskKeepsInv(s, i, row); }
    case StepCancelTask(i) => if i in s.tasks { SetTaskKeepsInv(s, i, s.tasks[i].(status := Canceled)); }
    case StepCompleteTask(i) => if i in s.tasks { SetTaskKeepsInv(s, i, s.tasks[i].(status := Done)); }
    case StepSnoozeTask(i, until) =>
      if i in s.tasks { SetTaskKeepsInv(s, i, s.tasks[i].(status := Snoozed, due := Some(until))); }
  }

  // ---- links ----

  lemma LinkAccountKeepsInv(s: Tabs, account: Id, c: Id, role: Id, wanted: Option<bool>, now: int)
    requires Inv(s)
    ensures Inv(LinkAccount(s, account, c, role, wanted, now))
  {
    hide Inv, WithAccountLink;
    WithAccountLinkKeepsInv(s, account, c, role, wanted, now);
  }

  lemma WithAccountLinkKeepsInv(s: Tabs, account: Id, c: Id, role: Id, wanted: Option<bool>, now: int)
    requires Inv(s)
    ensures Inv(WithAccountLink(s, account, c, role, wanted, now))
  {
    hide OnePrimary, Agrees, Pick, NextFor, ContextMatches, Upsert, Affected, Refresh, Candidates;
    var k := LinkKey(account, c, role);
    var s1 := s.(accountLinks := Upsert(s.accountLinks, k, wanted, now));
    var cs := Affected(s.accountLinks, k, wanted);
    UpsertKeepsOnePrimary(s.accountLinks, k, wanted, now);
    ContextsOfSameProfiles(s, s1);
    OtherCopySame(s, s1, OpportunityCopy);
    forall d: Id | d !in cs ensures Agrees(s1.accountLinks, Parent, d, CopyOf(s1, AccountCopy, d)) {
      assert Agrees(s.accountLinks, Parent, d, CopyOf(s, AccountCopy, d));
      UnaffectedAgrees(s.accountLinks, k, wanted, now, d, CopyOf(s, AccountCopy, d));
    }
    RefreshRestoresInv(s1, AccountCopy, cs, c, if NextPrimary(s.accountLinks, k, wanted) then Some(account) else None);
  }

  lemma UnaffectedAgrees(t: Table, k: LinkKey, wanted: Option<bool>, now: int, d: Id, copy: Option<Id>)
    requires Agrees(t, Parent, d, copy) && d !in Affected(t, k, wanted)
    ensures Agrees(Upsert(t, k, wanted, now), Parent, d, copy)
  {
    forall a: LinkKey | OtherSide(Parent, a) == d
      ensures IsPrimary(Upsert(t, k, wanted, now), a) <==> IsPrimary(t, a)
    {
      UpsertLeavesUnaffected(t, k, wanted, now, a);
    }
    AgreesTransfers(t, Upsert(t, k, wanted, now), Parent, d, copy);
  }

  lemma ContextsOfSameProfiles(s: Tabs, s': Tabs)
    requires ContextsInv(s) && s'.profiles == s.profiles && s'.contexts == s.contexts
    ensures ContextsInv(s')
  {
    forall c | c in s'.profiles ensures ContextMatches(s', c) { assert ContextMatches(s, c); }
  }

  lemma OtherCopySame(s: Tabs, s': Tabs, copy: Copy)
    requires CopiesAgree(s, copy) && LinksFor(s', copy) == LinksFor(s, copy) && s'.profiles == s.profiles
    ensures CopiesAgree(s', copy)
  {
    forall c: Id ensures Agrees(LinksFor(s', copy), Parent, c, CopyOf(s', copy, c)) {
      assert Agrees(LinksFor(s, copy), Parent, c, CopyOf(s, copy, c));
    }
  }

  /** The primary contact an opportunity shows after a link write. */
  ghost function ShownContact(t: Table, k: LinkKey, wanted: Option<bool>, now: int, x: Id,
      before: Option<Id>): (r: Option<Id>) {
    var t' := Upsert(t, k, wanted, now);
    if x != k.parent then before
    else if NextPrimary(t, k, wanted) then Pick(t', Contact, x, Some(k.contact))
    else if IsPrimary(t, k) then Pick(t', Contact, x, None)
    else before
  }

  lemma ShownContactAgrees(t: Table, k: LinkKey, wanted: Option<bool>, now: int, x: Id, before: Option<Id>)
    requires Agrees(t, Contact, x, before)
    ensures Agrees(Upsert(t, k, wanted, now), Contact, x, ShownContact(t, k, wanted, now, x, before))
  {
    hide Pick, Candidates, HasRow;
    var t' := Upsert(t, k, wanted, now);
    if x != k.parent {
      forall a: LinkKey | OtherSide(Contact, a) == x ensures IsPrimary(t', a) <==> IsPrimary(t, a) {
        UpsertLeavesOtherParents(t, k, wanted, now, a);
      }
      AgreesTransfers(t, t', Contact, x, before);
    } else if NextPrimary(t, k, wanted) {
      PickAgrees(t', Contact, x, Some(k.contact));
    } else if IsPrimary(t, k) {
      PickAgrees(t', Contact, x, None);
    } else {
      AgreesTransfers(t, t', Contact, x, before);
    }
  }

  /** The part of `LinkOpportunity` before the profiles are refreshed. */
  ghost function Shown(s: Tabs, k: LinkKey, wanted: Option<bool>, now: int): (s': Tabs)
    requires k.parent in s.opps
  {
    s.(oppLinks := Upsert(s.oppLinks, k, wanted, now),
       opps := s.opps[k.parent := s.opps[k.parent].(contact :=
                 ShownContact(s.oppLinks, k, wanted, now, k.parent, s.opps[k.parent].contact))])
  }

  ghost function Touched(s: Tabs, k: LinkKey, wanted: Option<bool>, now: int): (cs: set<Id>)
    requires k.parent in s.opps
  {
    var shown := Shown(s, k, wanted, now).opps[k.parent].contact;
    Affected(s.oppLinks, k, wanted)
    + if !NextPrimary(s.oppLinks, k, wanted) && IsPrimary(s.oppLinks, k) && shown.Some? then {shown.value} else {}
  }

  lemma LinkOpportunityShape(s: Tabs, o: Id, c: Id, role: Id, wanted: Option<bool>, now: int)
    requires o in s.opps
    ensures var k := LinkKey(o, c, role);
      LinkOpportunity(s, o, c, role, wanted, now)
      == Refresh(Shown(s, k, wanted, now), OpportunityCopy, Touched(s, k, wanted, now), c,
                 if NextPrimary(s.oppLinks, k, wanted) then Some(o) else None)
  {
    hide Pick, Upsert, Affected, Refresh, NextPrimary, IsPrimary;
    assert s.opps[o := s.opps[o]] == s.opps;
    if NextPrimary(s.oppLinks, LinkKey(o, c, role), wanted) {
    } else if IsPrimary(s.oppLinks, LinkKey(o, c, role)) {
    } else {
    }
  }

  lemma OtherShownSame(t: Table, k: LinkKey, wanted: Option<bool>, now: int, x: Id, before: Option<Id>)
    ensures x != k.parent ==> ShownContact(t, k, wanted, now, x, before) == before
  {
  }

  lemma ShownKeepsLinks(s: Tabs, k: LinkKey, wanted: Option<bool>, now: int)
    requires OnePrimary(s.oppLinks) && OppRowsKnown(s) && PrimaryContactsAgree(s) && k.parent in s.opps
    ensures var s' := Shown(s, k, wanted, now);
            OnePrimary(s'.oppLinks) && OppRowsKnown(s') && PrimaryContactsAgree(s')
  {
    hide OnePrimary, Agrees, ShownContact;
    var s' := Shown(s, k, wanted, now);
    UpsertKeepsOnePrimary(s.oppLinks, k, wanted, now);
    forall x | x in s'.opps ensures Agrees(s'.oppLinks, Contact, x, s'.opps[x].contact) {
      ShownContactAgrees(s.oppLinks, k, wanted, now, x, s.opps[x].contact);
      OtherShownSame(s.oppLinks, k, wanted, now, x, s.opps[x].contact);
    }
  }

  lemma ShownKeepsRest(s: Tabs, k: LinkKey, wanted: Option<bool>, now: int)
    requires Inv(s) && k.parent in s.opps
    ensures InvExcept(Shown(s, k, wanted, now), OpportunityCopy)
  {
    hide OnePrimary, Agrees, NextFor, ContextMatches, ShownContact, StageFits, Upsert;
    var s' := Shown(s, k, wanted, now);
    ShownKeepsLinks(s, k, wanted, now);
    ContextsOfSameProfiles(s, s');
    OtherCopySame(s, s', AccountCopy);
    assert NextInv(s') by { assert forall c: Id :: ProfileOf(s', c) == ProfileOf(s, c); }
  }

  lemma LinkOpportunityKeepsInv(s: Tabs, o: Id, c: Id, role: Id, wanted: Option<bool>, now: int)
    requires Inv(s) && o in s.opps
    ensures Inv(LinkOpportunity(s, o, c, role, wanted, now))
  {
    hide InvExcept, Agrees, Touched, Refresh, LinkOpportunity, Affected, Upsert, ShownContact, OnePrimary, NextFor,
      StageFits;
    var k := LinkKey(o, c, role);
    var shown := Shown(s, k, wanted, now);
    var cs := Touched(s, k, wanted, now);
    LinkOpportunityShape(s, o, c, role, wanted, now);
    ShownKeepsRest(s, k, wanted, now);
    forall d: Id | d !in cs ensures Agrees(shown.oppLinks, Parent, d, CopyOf(shown, OpportunityCopy, d)) {
      assert Agrees(s.oppLinks, Parent, d, CopyOf(s, OpportunityCopy, d));
      UnaffectedIsUntouched(s, k, wanted, now, d);
      UnaffectedAgrees(s.oppLinks, k, wanted, now, d, CopyOf(s, OpportunityCopy, d));
    }
    RefreshRestoresInv(shown, OpportunityCopy, cs, c, if NextPrimary(s.oppLinks, k, wanted) then Some(o) else None);
  }

  lemma UnaffectedIsUntouched(s: Tabs, k: LinkKey, wanted: Option<bool>, now: int, d: Id)
    requires k.parent in s.opps && d !in Touched(s, k, wanted, now)
    ensures d !in Affected(s.oppLinks, k, wanted)
  {
  }

  // ---- profiles, stages, opportunities ----

  /** What a write leaves in the profile agrees with the rows it copies. */
  ghost predicate WritesAgree(s: Tabs, c: Id, w: ProfileWrite) {
    var p := Written(ProfileOf(s, c), w);
    && Agrees(s.accountLinks, Parent, c, p.account) && Agrees(s.oppLinks, Parent, c, p.opportunity)
    && p.next == NextFor(s.tasks, c)
  }

  /** An explicit profile write keeps the invariant if and only if it is refused or what it leaves agrees with the rows;
      a write that names none of the copies always does. */
  lemma UpdateProfileKeepsInvIff(s: Tabs, c: Id, w: ProfileWrite)
    requires Inv(s)
    ensures Inv(UpdateProfile(s, c, w)) <==> (Accepts(s, w) ==> WritesAgree(s, c, w))
    ensures w.account.None? && w.opportunity.None? && w.nextTask.None? && w.nextAt.None? && w.nextSummary.None? ==>
              WritesAgree(s, c, w)
  {
    hide OnePrimary, Agrees, NextFor, ContextsInv, PipelineInv, WriteProfile, Accepts;
    var p := ProfileOf(s, c);
    CopiesOf(s, c);
    if Accepts(s, w) {
      var row, s' := Written(p, w), UpdateProfile(s, c, w);
      WriteOneShape(s, c, row);
      SamePipeline(s, s');
      if WritesAgree(s, c, w) {
        WrittenAgrees(s, s', c, row);
      } else if Inv(s') {
        CopiesOf(s', c);
      }
    }
  }

  lemma CopiesOf(s: Tabs, c: Id)
    requires Inv(s)
    ensures Agrees(s.accountLinks, Parent, c, ProfileOf(s, c).account)
    ensures Agrees(s.oppLinks, Parent, c, ProfileOf(s, c).opportunity)
    ensures ProfileOf(s, c).next == NextFor(s.tasks, c)
  {
    hide OnePrimary, Agrees, NextFor, ContextsInv, PipelineInv, ProfileOf;
    assert Agrees(LinksFor(s, AccountCopy), Parent, c, CopyOf(s, AccountCopy, c));
    assert Agrees(LinksFor(s, OpportunityCopy), Parent, c, CopyOf(s, OpportunityCopy, c));
  }

  lemma WrittenAgrees(s: Tabs, s': Tabs, c: Id, row: Profile)
    requires LinksInv(s) && NextInv(s) && OnlyProfiles(s, s')
    requires ProfileOf(s', c) == row && forall d: Id | d != c :: ProfileOf(s', d) == ProfileOf(s, d)
    requires Agrees(s.accountLinks, Parent, c, row.account) && Agrees(s.oppLinks, Parent, c, row.opportunity)
    requires row.next == NextFor(s.tasks, c)
    ensures LinksInv(s') && NextInv(s')
  {
    hide OnePrimary, Agrees, NextFor, ProfileOf;
    forall copy: Copy, d: Id ensures Agrees(LinksFor(s', copy), Parent, d, CopyOf(s', copy, d)) {
      assert Agrees(LinksFor(s, copy), Parent, d, CopyOf(s, copy, d));
    }
  }

  /** Tables no copy is made of. */
  lemma OtherTablesKeepInv(s: Tabs, s': Tabs)
    requires Inv(s)
    requires s' == s.(activities := s'.activities, facts := s'.facts, participants := s'.participants,
                      accounts := s'.accounts)
    ensures Inv(s')
  {
    hide OnePrimary, Agrees, NextFor, ContextMatches;
    ContextsOfSameProfiles(s, s');
    OtherCopySame(s, s', AccountCopy);
    OtherCopySame(s, s', OpportunityCopy);
    forall c: Id ensures ProfileOf(s', c).next == NextFor(s'.tasks, c) {
      assert ProfileOf(s, c).next == NextFor(s.tasks, c);
    }
    forall o | o in s'.opps ensures Agrees(s'.oppLinks, Contact, o, s'.opps[o].contact) {
      assert Agrees(s.oppLinks, Contact, o, s.opps[o].contact);
    }
  }

  lemma StageStepsKeepPipeline(s: Tabs, step: CrmStep)
    requires PipelineInv(s) && (step.StepCreateStage? || step.StepUpdateStage? || step.StepMoveOpportunity?)
    ensures PipelineInv(Apply(s, step))
  {
    match step
    case StepCreateStage(i, st) => CreateStageKeepsPipeline(s, i, st);
    case StepUpdateStage(i, key, order, category, archived) =>
      UpdateStageKeepsPipeline(s, i, key, order, category, archived);
    case StepMoveOpportunity(o, stage) =>
      hide StageFits;
  }

  lemma CreateStageKeepsPipeline(s: Tabs, i: Id, st: Stage)
    requires PipelineInv(s)
    ensures PipelineInv(CreateStage(s, i, st))
  {
    if CreateStage(s, i, st) != s { StageWriteFits(s.stages, i, st, s.stages[i := st]); }
  }

  lemma StageWriteFits(stages: map<Id, Stage>, i: Id, st: Stage, after: map<Id, Stage>)
    requires StageFits(stages, i, st) && forall j | j in stages :: StageFits(stages, j, stages[j])
    requires after == stages[i := st]
    ensures forall j | j in after :: StageFits(after, j, after[j])
  {
  }

  lemma UpdateStageKeepsPipeline(s: Tabs, i: Id, key: string, order: int, category: Category, archived: bool)
    requires PipelineInv(s)
    ensures PipelineInv(UpdateStage(s, i, key, order, category, archived))
  {
    hide StageFits;
    var s' := UpdateStage(s, i, key, order, category, archived);
    if s' != s {
      StageWriteFits(s.stages, i, s'.stages[i], s'.stages);
      if archived && !s.stages[i].archived {
        forall o | o in s.opps && s.opps[o].status.OppOpen? ensures s.opps[o].stage != i {
          assert !OpenIn(s, o, i);
        }
      }
    }
  }

  lemma StageStepsKeepInv(s: Tabs, step: CrmStep)
    requires Inv(s) && (step.StepCreateStage? || step.StepUpdateStage? || step.StepMoveOpportunity?)
    ensures Inv(Apply(s, step))
  {
    hide LinksInv, NextInv, ContextsInv, PipelineInv;
    StageStepsKeepPipeline(s, step);
    StageStepShape(s, step);
    hide Apply;
    SameLinksKeepInv(s, Apply(s, step));
  }

  lemma StageStepShape(s: Tabs, step: CrmStep)
    requires step.StepCreateStage? || step.StepUpdateStage? || step.StepMoveOpportunity?
    ensures var s' := Apply(s, step);
      && s' == s.(opps := s'.opps, stages := s'.stages) && s'.opps.Keys == s.opps.Keys
      && forall o | o in s.opps :: s'.opps[o].contact == s.opps[o].contact
  {
    hide CreateStage, UpdateStage, MoveOpportunity;
    match step
    case StepCreateStage(i, st) => CreateStageFrame(s, i, st);
    case StepUpdateStage(i, key, order, category, archived) => UpdateStageFrame(s, i, key, order, category, archived);
    case StepMoveOpportunity(o, stage) => MoveFrame(s, o, stage);
  }

  lemma CreateStageFrame(s: Tabs, i: Id, st: Stage)
    ensures CreateStage(s, i, st) == s.(stages := CreateStage(s, i, st).stages)
  {
    hide StageFits;
  }

  lemma UpdateStageFrame(s: Tabs, i: Id, key: string, order: int, category: Category, archived: bool)
    ensures var s' := UpdateStage(s, i, key, order, category, archived);
      s' == s.(stages := s'.stages)
  {
    hide StageFits, HasOpen;
  }

  lemma MoveFrame(s: Tabs, o: Id, stage: Id)
    ensures var s' := MoveOpportunity(s, o, stage);
      && s' == s.(opps := s'.opps) && s'.opps.Keys == s.opps.Keys
      && forall x | x in s.opps :: s'.opps[x].contact == s.opps[x].contact
  {
    hide StatusForStage;
  }

  /** The tables of `CreateOpportunity` for a contact, before its profile is written. */
  function WithOpportunity(s: Tabs, o: Id, row: Opportunity, c: Id, now: int): (s': Tabs) {
    s.(opps := s.opps[o := row], oppLinks := s.oppLinks[LinkKey(o, c, STAKEHOLDER) := Link(true, now)])
  }

  function FirstOpportunity(p: Profile, o: Id): (p': Profile) {
    p.(opportunity := if p.opportunity.Some? then p.opportunity else Some(o))
  }

  lemma CreateOpportunityShape(s: Tabs, o: Id, c: Id, stage: Id, status: Option<OppStatus>, now: int)
    requires CreateOpportunity(s, o, Some(c), stage, status, now) != s
    ensures var s' := CreateOpportunity(s, o, Some(c), stage, status, now);
      && o !in s.opps && o in s'.opps && s'.opps[o].contact == Some(c) && (forall k | k in s.oppLinks :: k.parent != o)
      && stage in s.stages && !s.stages[stage].archived
      && s'.opps[o] == Opportunity(Some(c), s.stages[stage].pipeline, stage,
           if status.Some? then status.value else StatusForStage(s.stages[stage].category, OppOpen))
      && s' == WriteProfile(WithOpportunity(s, o, s'.opps[o], c, now), c, FirstOpportunity(ProfileOf(s, c), o))
  {
    hide ProfileOf;
  }

  lemma WithOpportunityKeepsLinks(s: Tabs, o: Id, row: Opportunity, c: Id, now: int)
    requires LinksInv(s) && o !in s.opps && row.contact == Some(c) && forall k | k in s.oppLinks :: k.parent != o
    ensures var s' := WithOpportunity(s, o, row, c, now);
      OnePrimary(s'.oppLinks) && OppRowsKnown(s') && PrimaryContactsAgree(s')
  {
    hide Agrees, OnePrimary, HasRow;
    NewPrimaryRow(s, o, c, now);
  }

  /** `CreateOpportunity` for a contact: one more primary row, and a profile copy if there was none. */
  lemma CreateOpportunityForContact(s: Tabs, o: Id, c: Id, stage: Id, status: Option<OppStatus>, now: int)
    requires LinksInv(s) && NextInv(s) && ContextsInv(s)
    requires CreateOpportunity(s, o, Some(c), stage, status, now) != s
    ensures var s' := CreateOpportunity(s, o, Some(c), stage, status, now);
      LinksInv(s') && NextInv(s') && ContextsInv(s')
  {
    hide OnePrimary, Agrees, NextFor, CreateOpportunity, ContextsInv, WriteProfile;
    var s' := CreateOpportunity(s, o, Some(c), stage, status, now);
    CreateOpportunityShape(s, o, c, stage, status, now);
    var s1 := WithOpportunity(s, o, s'.opps[o], c, now);
    WithOpportunityKeepsLinks(s, o, s'.opps[o], c, now);
    ContextsOfSameProfiles(s, s1);
    WriteOneShape(s1, c, FirstOpportunity(ProfileOf(s, c), o));
    forall d: Id
      ensures ProfileOf(s', d).next == NextFor(s'.tasks, d)
      ensures Agrees(s'.accountLinks, Parent, d, CopyOf(s', AccountCopy, d))
      ensures Agrees(s'.oppLinks, Parent, d, CopyOf(s', OpportunityCopy, d))
    {
      NewRowAgrees(s, o, c, now, d);
      assert Agrees(LinksFor(s, AccountCopy), Parent, d, CopyOf(s, AccountCopy, d));
    }
  }

  lemma CreateOpportunityAlone(s: Tabs, o: Id, stage: Id, status: Option<OppStatus>, now: int)
    requires LinksInv(s) && NextInv(s) && ContextsInv(s)
    ensures var s' := CreateOpportunity(s, o, None, stage, status, now); LinksInv(s') && NextInv(s') && ContextsInv(s')
  {
    hide OnePrimary, Pick, NextFor, ContextMatches, HasRow;
    var s' := CreateOpportunity(s, o, None, stage, status, now);
    ContextsOfSameProfiles(s, s');
    OtherCopySame(s, s', AccountCopy);
    OtherCopySame(s, s', OpportunityCopy);
    forall d: Id ensures ProfileOf(s', d).next == NextFor(s'.tasks, d) {
      assert ProfileOf(s, d).next == NextFor(s.tasks, d);
    }
  }

  lemma CreateOpportunityKeepsPipeline(s: Tabs, o: Id, c: Option<Id>, stage: Id, status: Option<OppStatus>, now: int)
    requires PipelineInv(s)
    ensures PipelineInv(CreateOpportunity(s, o, c, stage, status, now))
  {
    hide StageFits;
  }

  lemma CreateOpportunityKeepsInv(s: Tabs, o: Id, c: Option<Id>, stage: Id, status: Option<OppStatus>, now: int)
    requires Inv(s)
    ensures Inv(CreateOpportunity(s, o, c, stage, status, now))
  {
    hide LinksInv, NextInv, ContextsInv, PipelineInv, CreateOpportunity;
    CreateOpportunityKeepsPipeline(s, o, c, stage, status, now);
    if c.None? {
      CreateOpportunityAlone(s, o, stage, status, now);
    } else if CreateOpportunity(s, o, c, stage, status, now) != s {
      CreateOpportunityForContact(s, o, c.value, stage, status, now);
    }
  }

  /** The stakeholder row of a new opportunity is its only row. */
  lemma NewPrimaryRow(s: Tabs, o: Id, c: Id, now: int)
    requires LinksInv(s) && o !in s.opps && forall k | k in s.oppLinks :: k.parent != o
    ensures var links := s.oppLinks[LinkKey(o, c, STAKEHOLDER) := Link(true, now)];
      && OnePrimary(links) && Agrees(links, Contact, o, Some(c))
      && forall x | x in s.opps :: Agrees(links, Contact, x, s.opps[x].contact)
  {
    var k := LinkKey(o, c, STAKEHOLDER);
    var links := s.oppLinks[k := Link(true, now)];
    assert IsPrimary(links, k);
    forall x | x in s.opps ensures Agrees(links, Contact, x, s.opps[x].contact) {
      AgreesTransfers(s.oppLinks, links, Contact, x, s.opps[x].contact);
    }
  }

  lemma NewRowAgrees(s: Tabs, o: Id, c: Id, now: int, d: Id)
    requires LinksInv(s) && o !in s.opps && forall k | k in s.oppLinks :: k.parent != o
    ensures var links := s.oppLinks[LinkKey(o, c, STAKEHOLDER) := Link(true, now)];
            var v := CopyOf(s, OpportunityCopy, d);
            Agrees(links, Parent, d, if d == c && v.None? then Some(o) else v)
  {
    var k := LinkKey(o, c, STAKEHOLDER);
    var links := s.oppLinks[k := Link(true, now)];
    var v := CopyOf(s, OpportunityCopy, d);
    assert Agrees(s.oppLinks, Parent, d, v);
    if v.Some? {
      var row :| IsPrimary(s.oppLinks, row) && OtherSide(Parent, row) == d && At(Parent, row) == v.value;
      assert IsPrimary(links, row);
    } else if d == c {
      assert IsPrimary(links, k) && OtherSide(Parent, k) == d && At(Parent, k) == o;
    }
  }

  // ---- deleting a contact ----

  lemma DeletePrimary(t: Table, c: Id, k: LinkKey)
    ensures IsPrimary(t - RowsOf(t, c), k) <==> IsPrimary(t, k) && k.contact != c
  {
  }

  lemma DeleteAgrees(t: Table, c: Id, d: Id, copy: Option<Id>)
    requires if d == c then copy == None else Agrees(t, Parent, d, copy)
    ensures Agrees(t - RowsOf(t, c), Parent, d, copy)
  {
    forall k: LinkKey ensures IsPrimary(t - RowsOf(t, c), k) <==> IsPrimary(t, k) && k.contact != c {
      DeletePrimary(t, c, k);
    }
    if d != c { AgreesTransfers(t, t - RowsOf(t, c), Parent, d, copy); }
  }

  lemma DeleteKeepsOnePrimary(t: Table, c: Id)
    requires OnePrimary(t)
    ensures OnePrimary(t - RowsOf(t, c))
  {
  }

  lemma DeleteKeepsLinks(s: Tabs, c: Id)
    requires LinksInv(s)
    ensures LinksInv(DeleteContact(s, c))
  {
    hide Agrees, OnePrimary;
    var s' := DeleteContact(s, c);
    DeleteKeepsOnePrimary(s.accountLinks, c);
    DeleteKeepsOnePrimary(s.oppLinks, c);
    forall copy: Copy, d: Id ensures Agrees(LinksFor(s', copy), Parent, d, CopyOf(s', copy, d)) {
      assert Agrees(LinksFor(s, copy), Parent, d, CopyOf(s, copy, d));
      DeleteAgrees(LinksFor(s, copy), c, d, CopyOf(s', copy, d));
    }
    forall o | o in s'.opps ensures Agrees(s'.oppLinks, Contact, o, s'.opps[o].contact) {
      DeleteKeepsPrimaryContact(s, c, o);
    }
  }

  lemma DeleteKeepsInv(s: Tabs, c: Id)
    requires Inv(s)
    ensures Inv(DeleteContact(s, c))
  {
    hide LinksInv, StageFits, FirstTask;
    var s' := DeleteContact(s, c);
    DeleteKeepsLinks(s, c);
    forall d: Id ensures ProfileOf(s', d).next == NextFor(s'.tasks, d) {
      if d == c {
        assert OpenTasksOf(s'.tasks, c) == {};
      } else {
        assert OpenTasksOf(s'.tasks, d) == OpenTasksOf(s.tasks, d);
        OtherTasksUnchanged(s.tasks, s'.tasks, d);
      }
    }
    forall d | d in s'.profiles ensures ContextMatches(s', d) { assert ContextMatches(s, d); }
  }

  lemma DeleteKeepsPrimaryContact(s: Tabs, c: Id, o: Id)
    requires LinksInv(s) && o in s.opps
    ensures Agrees(DeleteContact(s, c).oppLinks, Contact, o, Without(c, s.opps[o].contact))
  {
    var links := DeleteContact(s, c).oppLinks;
    assert Agrees(s.oppLinks, Contact, o, s.opps[o].contact);
    if s.opps[o].contact.Some? {
      var row :| IsPrimary(s.oppLinks, row) && OtherSide(Contact, row) == o &&
          At(Contact, row) == s.opps[o].contact.value;
      if s.opps[o].contact.value != c { assert IsPrimary(links, row); }
    }
  }

  // ---- merging contacts ----

  ghost predicate AgreeExcept(s: Tabs, copy: Copy, t: Id) {
    forall d: Id | d != t :: Agrees(LinksFor(s, copy), Parent, d, CopyOf(s, copy, d))
  }

  ghost predicate NextExcept(s: Tabs, t: Id) {
    forall d: Id | d != t :: ProfileOf(s, d).next == NextFor(s.tasks, d)
  }

  /** The three final refreshes restore every copy of the target. */
  lemma FinalRefreshes(s: Tabs, t: Id)
    requires OnePrimary(s.accountLinks) && OnePrimary(s.oppLinks) && OppRowsKnown(s) && PrimaryContactsAgree(s)
    requires ContextsInv(s) && PipelineInv(s)
    requires AgreeExcept(s, AccountCopy, t) && AgreeExcept(s, OpportunityCopy, t) && NextExcept(s, t)
    ensures Inv(RefreshNext(Refresh(Refresh(s, AccountCopy, {t}, t, None), OpportunityCopy, {t}, t, None), t))
  {
    hide OnePrimary, Agrees, NextFor, ContextMatches, StageFits, Refresh, RefreshNext, Pick;
    var s1 := Refresh(s, AccountCopy, {t}, t, None);
    RefreshMakesAgree(s, AccountCopy, {t}, t, None);
    RefreshKeepsOthers(s, AccountCopy, {t}, t, None);
    var s2 := Refresh(s1, OpportunityCopy, {t}, t, None);
    assert Other(AccountCopy) == OpportunityCopy && Other(OpportunityCopy) == AccountCopy;
    forall c: Id | c != t ensures Agrees(LinksFor(s1, OpportunityCopy), Parent, c, CopyOf(s1, OpportunityCopy, c)) {
      assert Agrees(LinksFor(s, OpportunityCopy), Parent, c, CopyOf(s, OpportunityCopy, c));
      assert CopyOf(s1, Other(AccountCopy), c) == CopyOf(s, Other(AccountCopy), c);
    }
    RefreshMakesAgree(s1, OpportunityCopy, {t}, t, None);
    RefreshKeepsOthers(s1, OpportunityCopy, {t}, t, None);
    assert CopiesAgree(s2, AccountCopy) by {
      forall c: Id ensures Agrees(LinksFor(s2, AccountCopy), Parent, c, CopyOf(s2, AccountCopy, c)) {
        assert Agrees(LinksFor(s1, AccountCopy), Parent, c, CopyOf(s1, AccountCopy, c));
        assert CopyOf(s2, Other(OpportunityCopy), c) == CopyOf(s1, Other(OpportunityCopy), c);
      }
    }
    RefreshNextShape(s2, t);
    SamePipeline(s, RefreshNext(s2, t));
  }

  lemma DropProfile(s: Tabs, c: Id)
    requires ContextsInv(s)
    ensures ContextsInv(s.(profiles := s.profiles - {c}))
  {
    var s' := s.(profiles := s.profiles - {c});
    forall d | d in s'.profiles ensures ContextMatches(s', d) { assert ContextMatches(s, d); }
  }

  lemma MergeProfilesShape(s: Tabs, t: Id, src: Id)
    requires ContextsInv(s) && t != src
    ensures var s' := MergeProfiles(s, t, src);
      && s' == s.(profiles := s'.profiles, contexts := s'.contexts)
      && ProfileOf(s', src) == FRESH_PROFILE && ContextsInv(s')
      && forall d: Id | d != t && d != src :: ProfileOf(s', d) == ProfileOf(s, d)
  {
    hide MergedProfile, ContextsInv, WriteProfile;
    if src in s.profiles {
      DropProfile(s, src);
      WriteOneShape(s.(profiles := s.profiles - {src}), t,
                    if t in s.profiles then MergedProfile(s.profiles[t], s.profiles[src]) else s.profiles[src]);
    }
  }

  /** Rows of contacts other than the two are untouched, and the source has none left. */
  lemma MergedLinksAgree(tab: Table, src: Id, t: Id, now: int, d: Id, copy: Option<Id>)
    requires t != src && d != t
    requires d != src ==> Agrees(tab, Parent, d, copy)
    requires d == src ==> copy == None
    ensures Agrees(Merge(tab, src, t, now), Parent, d, copy)
  {
    hide Merge;
    forall k: LinkKey | OtherSide(Parent, k) == d
      ensures IsPrimary(Merge(tab, src, t, now), k) <==> IsPrimary(tab, k) && d != src
    {
      MergeReattaches(tab, src, t, now, k);
    }
    if d != src { AgreesTransfers(tab, Merge(tab, src, t, now), Parent, d, copy); }
  }

  lemma MergeShowsTarget(tab: Table, src: Id, t: Id, now: int, o: Id, contact: Option<Id>)
    requires t != src && Agrees(tab, Contact, o, contact)
    ensures Agrees(Merge(tab, src, t, now), Contact, o,
                   if HadPrimary(tab, o, src) then Some(t) else Moved(src, t, contact))
  {
    hide Merge;
    var m := Merge(tab, src, t, now);
    if HadPrimary(tab, o, src) {
      var k :| k in tab && k.parent == o && k.contact == src && tab[k].primary;
      MergeReattaches(tab, src, t, now, LinkKey(o, t, k.role));
      assert IsPrimary(tab, LinkKey(o, src, k.role)) && IsPrimary(m, LinkKey(o, t, k.role));
      assert OtherSide(Contact, LinkKey(o, t, k.role)) == o && At(Contact, LinkKey(o, t, k.role)) == t;
    } else if contact.Some? {
      var k :| IsPrimary(tab, k) && OtherSide(Contact, k) == o && At(Contact, k) == contact.value;
      MergeReattaches(tab, src, t, now, k);
      assert IsPrimary(m, k);
    } else {
      forall k | IsPrimary(m, k) ensures OtherSide(Contact, k) != o {
        MergeReattaches(tab, src, t, now, k);
        assert IsPrimary(tab, k) || IsPrimary(tab, LinkKey(k.parent, src, k.role));
      }
    }
  }

  lemma MergeAccountLinksShape(s: Tabs, t: Id, src: Id, now: int)
    requires t != src && OnePrimary(s.accountLinks) && ContextsInv(s) && ProfileOf(s, src) == FRESH_PROFILE
    requires forall d: Id | d != t && d != src :: Agrees(s.accountLinks, Parent, d, CopyOf(s, AccountCopy, d))
    ensures var s' := MergeAccountLinks(s, t, src, now);
      && s' == s.(accountLinks := s'.accountLinks, profiles := s'.profiles, contexts := s'.contexts)
      && s'.accountLinks == Merge(s.accountLinks, src, t, now)
      && OnePrimary(s'.accountLinks) && ContextsInv(s') && AgreeExcept(s', AccountCopy, t)
      && (forall d: Id | d != t :: ProfileOf(s', d) == ProfileOf(s, d))
  {
    hide OnePrimary, Agrees, ContextMatches, Pick, Merge;
    var s1 := s.(accountLinks := Merge(s.accountLinks, src, t, now));
    MergeKeepsOnePrimary(s.accountLinks, src, t, now);
    ContextsOfSameProfiles(s, s1);
    RefreshKeepsOthers(s1, AccountCopy, {t}, t, None);
    var s' := Refresh(s1, AccountCopy, {t}, t, None);
    forall d: Id | d != t
      ensures ProfileOf(s', d) == ProfileOf(s, d)
      ensures Agrees(s'.accountLinks, Parent, d, CopyOf(s', AccountCopy, d))
    {
      RefreshShape(s1, AccountCopy, {t}, t, None, d);
      MergedLinksAgree(s.accountLinks, src, t, now, d, CopyOf(s, AccountCopy, d));
    }
  }

  /** The opportunity tables after the merge loop, before the target's profile is refreshed. */
  ghost function OppLinksMoved(s: Tabs, t: Id, src: Id, now: int): (s': Tabs)
    requires t != src
  {
    s.(oppLinks := Merge(s.oppLinks, src, t, now),
       opps := MergedOpps(s.opps, s.oppLinks, t, src))
  }

  lemma OppLinksMovedAgree(s: Tabs, t: Id, src: Id, now: int)
    requires t != src && OnePrimary(s.oppLinks) && OppRowsKnown(s) && PrimaryContactsAgree(s)
    ensures var s' := OppLinksMoved(s, t, src, now);
      OnePrimary(s'.oppLinks) && OppRowsKnown(s') && PrimaryContactsAgree(s')
  {
    hide OnePrimary, Agrees, Merge, HadPrimary;
    var s' := OppLinksMoved(s, t, src, now);
    MergeKeepsOnePrimary(s.oppLinks, src, t, now);
    forall o | o in s'.opps ensures Agrees(s'.oppLinks, Contact, o, s'.opps[o].contact) {
      MergeShowsTarget(s.oppLinks, src, t, now, o, s.opps[o].contact);
    }
    forall k | k in s'.oppLinks ensures k.parent in s'.opps {
      MergeReattaches(s.oppLinks, src, t, now, k);
    }
  }

  lemma MergeOppLinksShape(s: Tabs, t: Id, src: Id, now: int)
    requires t != src && OnePrimary(s.oppLinks) && OppRowsKnown(s) && PrimaryContactsAgree(s) && ContextsInv(s)
    requires ProfileOf(s, src) == FRESH_PROFILE
    requires forall d: Id | d != t && d != src :: Agrees(s.oppLinks, Parent, d, CopyOf(s, OpportunityCopy, d))
    ensures var s', moved := MergeOppLinks(s, t, src, now), OppLinksMoved(s, t, src, now);
      && s' == moved.(profiles := s'.profiles, contexts := s'.contexts)
      && OnePrimary(s'.oppLinks) && OppRowsKnown(s') && PrimaryContactsAgree(s') && ContextsInv(s')
      && AgreeExcept(s', OpportunityCopy, t)
      && (forall d: Id | d != t :: ProfileOf(s', d) == ProfileOf(s, d))
  {
    hide OnePrimary, Agrees, ContextsInv, Merge, HadPrimary, Refresh;
    var s1 := OppLinksMoved(s, t, src, now);
    OppLinksMovedAgree(s, t, src, now);
    ContextsOfSameProfiles(s, s1);
    RefreshKeepsOthers(s1, OpportunityCopy, {t}, t, None);
    var s' := Refresh(s1, OpportunityCopy, {t}, t, None);
    forall d: Id | d != t
      ensures ProfileOf(s', d) == ProfileOf(s, d)
      ensures Agrees(s'.oppLinks, Parent, d, CopyOf(s', OpportunityCopy, d))
    {
      RefreshShape(s1, OpportunityCopy, {t}, t, None, d);
      MergedLinksAgree(s.oppLinks, src, t, now, d, CopyOf(s, OpportunityCopy, d));
    }
  }

  lemma MovedTasks(tasks: map<Id, Task>, t: Id, src: Id, d: Id)
    requires t != src && d != t
    ensures NextFor(TasksMoved(tasks, t, src), d) == if d == src then NO_NEXT else NextFor(tasks, d)
  {
    hide FirstTask;
    var tasks' := TasksMoved(tasks, t, src);
    if d == src {
      assert OpenTasksOf(tasks', d) == {};
    } else {
      assert OpenTasksOf(tasks', d) == OpenTasksOf(tasks, d);
      OtherTasksUnchanged(tasks, tasks', d);
    }
  }

  lemma MergeDataKeepsInv(s: Tabs, t: Id, src: Id, now: int)
    requires Inv(s) && t != src
    ensures Inv(MergeData(s, t, src, now))
  {
    hide OnePrimary, Agrees, ContextMatches, Pick, Merge, NextFor, HadPrimary, StageFits, MergeProfiles,
      MergeAccountLinks,
      MergeOppLinks, Refresh, RefreshNext, MergeParticipants, MergedFact, OpenTasksOf;
    var s1 := MergeProfiles(s, t, src);
    MergeProfilesShape(s, t, src);
    forall d: Id, copy: Copy | d != t && d != src ensures Agrees(LinksFor(s1, copy), Parent, d, CopyOf(s1, copy, d)) {
      assert Agrees(LinksFor(s, copy), Parent, d, CopyOf(s, copy, d));
    }
    MergeAccountLinksShape(s1, t, src, now);
    var s2 := MergeAccountLinks(s1, t, src, now);
    assert PrimaryContactsAgree(s2) && OppRowsKnown(s2);
    forall d: Id | d != t && d != src ensures Agrees(s2.oppLinks, Parent, d, CopyOf(s2, OpportunityCopy, d)) {
      assert Agrees(LinksFor(s1, OpportunityCopy), Parent, d, CopyOf(s1, OpportunityCopy, d));
    }
    MergeOppLinksShape(s2, t, src, now);
    var s3 := MergeOppLinks(s2, t, src, now);
    var s4 := MergeAttachments(s3, t, src);
    ContextsOfSameProfiles(s3, s4);
    forall d: Id | d != t
      ensures ProfileOf(s4, d).next == NextFor(s4.tasks, d)
      ensures Agrees(LinksFor(s4, AccountCopy), Parent, d, CopyOf(s4, AccountCopy, d))
      ensures Agrees(LinksFor(s4, OpportunityCopy), Parent, d, CopyOf(s4, OpportunityCopy, d))
    {
      MovedTasks(s.tasks, t, src, d);
      assert Agrees(LinksFor(s2, AccountCopy), Parent, d, CopyOf(s2, AccountCopy, d));
      assert Agrees(LinksFor(s3, OpportunityCopy), Parent, d, CopyOf(s3, OpportunityCopy, d));
    }
    FinalRefreshes(s4, t);
  }

  /** Merging a contact into itself comes to deleting it, facts about it included, even facts no contact held. */
  lemma SelfMergeIsDelete(s: Tabs, c: Id, now: int)
    requires LinksInv(s)
    ensures MergeContacts(s, c, c, now) == DeleteContact(s.(facts := FactsMoved(s.facts, c, c)), c)
  {
    hide MergeData, Merge, MergedOpps, FactsMoved, MergeParticipants, DeleteContact, LinksInv;
    MergeDataTables(s, c, c, now);
    SelfMergeDeletes(s, MergeData(s, c, c, now), c, now);
  }

  lemma SelfMergeDeletes(s: Tabs, d: Tabs, c: Id, now: int)
    requires LinksInv(s)
    requires d == s.(accountLinks := Merge(s.accountLinks, c, c, now), oppLinks := Merge(s.oppLinks, c, c, now),
                     opps := MergedOpps(s.opps, s.oppLinks, c, c), tasks := TasksMoved(s.tasks, c, c),
                     activities := ActivitiesMoved(s.activities, c, c), facts := FactsMoved(s.facts, c, c),
                     participants := MergeParticipants(s.participants, c, c),
                     profiles := d.profiles, contexts := d.contexts)
    requires SameElsewhere(s, d, c)
    ensures DeleteContact(d, c) == DeleteContact(s.(facts := FactsMoved(s.facts, c, c)), c)
  {
    hide MergedOpps, FactsMoved, LinksInv, OppsWithout, FactsWithout;
    assert TasksMoved(s.tasks, c, c) == s.tasks && ActivitiesMoved(s.activities, c, c) == s.activities;
    OwnPrimaryIsLast(s, c);
    assert ParticipantsWithout(d.participants, c) == ParticipantsWithout(s.participants, c);
    assert Merge(s.accountLinks, c, c, now) - RowsOf(Merge(s.accountLinks, c, c, now), c)
           == s.accountLinks - RowsOf(s.accountLinks, c);
    assert Merge(s.oppLinks, c, c, now) - RowsOf(Merge(s.oppLinks, c, c, now), c) == s.oppLinks - RowsOf(s.oppLinks, c);
  }

  /** Without its own rows no opportunity of the contact has a primary row left. */
  lemma OwnPrimaryIsLast(s: Tabs, c: Id)
    requires LinksInv(s)
    ensures OppsWithout(MergedOpps(s.opps, s.oppLinks, c, c), c) == OppsWithout(s.opps, c)
  {
    var left := s.oppLinks - RowsOf(s.oppLinks, c);
    forall o | o in s.opps
      ensures Without(c, MergedOpps(s.opps, s.oppLinks, c, c)[o].contact) == Without(c, s.opps[o].contact)
    {
      if HadPrimary(s.oppLinks, o, c) {
        var k :| k in s.oppLinks && k.parent == o && k.contact == c && s.oppLinks[k].primary;
        assert IsPrimary(s.oppLinks, k) && Agrees(s.oppLinks, Contact, o, s.opps[o].contact);
        forall x | IsPrimary(left, x) ensures OtherSide(Contact, x) != o { assert IsPrimary(s.oppLinks, x); }
        assert Pick(left, Contact, o, Some(c)).None?;
        CopyIsDetermined(s.oppLinks, o, s.opps[o].contact, Some(c)) by { OwnAgrees(s.oppLinks, k); }
      }
    }
  }

  lemma OwnAgrees(t: Table, k: LinkKey)
    requires IsPrimary(t, k)
    ensures Agrees(t, Contact, k.parent, Some(k.contact))
  {
    assert OtherSide(Contact, k) == k.parent && At(Contact, k) == k.contact;
  }

  /** The two differ exactly when someone else, or no one, holds a fact about the contact. */
  lemma SelfMergeIsPlainDeleteIff(s: Tabs, c: Id, now: int)
    requires LinksInv(s)
    ensures MergeContacts(s, c, c, now) == DeleteContact(s, c)
            <==> forall f | f in s.facts && s.facts[f].entity == OfContact(c) :: s.facts[f].contact == Some(c)
  {
    hide MergeContacts, FactsMoved, LinksInv, AccountsWithout, ActivitiesWithout, TasksWithout, ParticipantsWithout;
    SelfMergeIsDelete(s, c, now);
    OwnFactsDropped(s.facts, c);
  }

  lemma OwnFactsDropped(facts: map<Id, Fact>, c: Id)
    ensures FactsWithout(FactsMoved(facts, c, c), c) == FactsWithout(facts, c)
            <==> forall f | f in facts && facts[f].entity == OfContact(c) :: facts[f].contact == Some(c)
  {
    var moved := FactsMoved(facts, c, c);
    forall f | f in facts && facts[f].entity == OfContact(c) && facts[f].contact != Some(c)
      ensures f in FactsWithout(facts, c) && f !in FactsWithout(moved, c)
    {
    }
  }

  lemma MergeKeepsInv(s: Tabs, t: Id, src: Id, now: int)
    requires Inv(s)
    ensures Inv(MergeContacts(s, t, src, now))
  {
    if t == src {
      hide NextInv, ContextsInv, PipelineInv, LinksInv, MergeContacts, DeleteContact, FactsMoved;
      SelfMergeIsDelete(s, t, now);
      OtherTablesKeepInv(s, s.(facts := FactsMoved(s.facts, t, t)));
      DeleteKeepsInv(s.(facts := FactsMoved(s.facts, t, t)), t);
    } else {
      hide Inv, MergeData, DeleteContact;
      MergeDataKeepsInv(s, t, src, now);
      DeleteKeepsInv(MergeData(s, t, src, now), src);
    }
  }

  // ---- the columns of a merged profile that are no copies ----

  predicate SameOwn(a: Profile, b: Profile) {
    a.lifecycle == b.lifecycle && a.health == b.health && a.priority == b.priority && a.owner == b.owner
  }

  lemma RefreshKeepsOwn(s: Tabs, copy: Copy, cs: set<Id>, me: Id, preferred: Option<Id>, c: Id)
    ensures SameOwn(ProfileOf(Refresh(s, copy, cs, me, preferred), c), ProfileOf(s, c))
  {
    hide Refresh, ProfileOf, Agrees;
    RefreshShape(s, copy, cs, me, preferred, c);
  }

  lemma RefreshNextKeepsOwn(s: Tabs, c: Id)
    ensures SameOwn(ProfileOf(RefreshNext(s, c), c), ProfileOf(s, c))
  {
    hide NextFor;
    WriteShape(s, map[c := ProfileOf(s, c).(next := NextFor(s.tasks, c))], c);
  }

  lemma MergeDataKeepsOwn(s: Tabs, t: Id, src: Id, now: int)
    requires t != src
    ensures SameOwn(ProfileOf(MergeData(s, t, src, now), t), ProfileOf(MergeProfiles(s, t, src), t))
  {
    hide Refresh, RefreshNext, Merge, MergeProfiles, MergeParticipants, MergedOpps, TasksMoved, ActivitiesMoved,
      FactsMoved;
    var s1 := MergeProfiles(s, t, src);
    var a := s1.(accountLinks := Merge(s1.accountLinks, src, t, now));
    RefreshKeepsOwn(a, AccountCopy, {t}, t, None, t);
    var s2 := MergeAccountLinks(s1, t, src, now);
    var b := s2.(oppLinks := Merge(s2.oppLinks, src, t, now), opps := MergedOpps(s2.opps, s2.oppLinks, t, src));
    RefreshKeepsOwn(b, OpportunityCopy, {t}, t, None, t);
    var s3 := MergeOppLinks(s2, t, src, now);
    var s4 := MergeAttachments(s3, t, src);
    RefreshKeepsOwn(s4, AccountCopy, {t}, t, None, t);
    var s5 := Refresh(s4, AccountCopy, {t}, t, None);
    RefreshKeepsOwn(s5, OpportunityCopy, {t}, t, None, t);
    RefreshNextKeepsOwn(Refresh(s5, OpportunityCopy, {t}, t, None), t);
  }

  /** The survivor's profile knows what either knew, the target's word first, and is as urgent as the more urgent of
      two profile rows. */
  lemma MergedProfileColumns(s: Tabs, t: Id, src: Id, now: int)
    requires t != src
    ensures var p, a, b := ProfileOf(MergeContacts(s, t, src, now), t), ProfileOf(s, t), ProfileOf(s, src);
      && p.lifecycle == (if a.lifecycle != 0 then a.lifecycle else b.lifecycle)
      && p.health == (if a.health != 0 then a.health else b.health)
      && p.owner == (if a.owner.Some? then a.owner else b.owner)
      && (t in s.profiles && src in s.profiles ==>
            Urgency(p.priority) <= Urgency(a.priority) && Urgency(p.priority) <= Urgency(b.priority)
            && p.priority in {a.priority, b.priority})
      && (t !in s.profiles && src in s.profiles ==> p.priority == b.priority)
      && (src !in s.profiles ==> p.priority == a.priority)
  {
    hide MergeData, MergeProfiles, DeleteContact;
    MergeDataKeepsOwn(s, t, src, now);
    DeleteKeepsProfile(MergeData(s, t, src, now), t, src);
    MergedRow(s, t, src);
  }

  lemma DeleteKeepsProfile(s: Tabs, t: Id, src: Id)
    requires t != src
    ensures ProfileOf(DeleteContact(s, src), t) == ProfileOf(s, t)
  {
  }

  lemma MergedRow(s: Tabs, t: Id, src: Id)
    requires t != src
    ensures ProfileOf(MergeProfiles(s, t, src), t)
            == if src !in s.profiles then ProfileOf(s, t)
               else if t in s.profiles then MergedProfile(s.profiles[t], s.profiles[src])
               else s.profiles[src]
  {
    hide MergedProfile, Projection;
    if src in s.profiles {
      var row := if t in s.profiles then MergedProfile(s.profiles[t], s.profiles[src]) else s.profiles[src];
      WriteShape(s.(profiles := s.profiles - {src}), map[t := row], t);
    }
  }

  // ---- what a merge re-attaches ----

  lemma RefreshFrame(s: Tabs, copy: Copy, cs: set<Id>, me: Id, p: Option<Id>)
    ensures OnlyProfiles(s, Refresh(s, copy, cs, me, p))
  {
    hide Refreshed;
  }

  lemma RefreshNextFrame(s: Tabs, c: Id)
    ensures OnlyProfiles(s, RefreshNext(s, c))
  {
    hide NextFor;
  }

  /** What a merge makes of every table but the target's own profile and context row. */
  lemma MergeDataTables(s: Tabs, t: Id, src: Id, now: int)
    ensures var s' := MergeData(s, t, src, now);
      s' == s.(accountLinks := Merge(s.accountLinks, src, t, now), oppLinks := Merge(s.oppLinks, src, t, now),
               opps := MergedOpps(s.opps, s.oppLinks, t, src), tasks := TasksMoved(s.tasks, t, src),
               activities := ActivitiesMoved(s.activities, t, src), facts := FactsMoved(s.facts, t, src),
               participants := MergeParticipants(s.participants, t, src),
               profiles := s'.profiles, contexts := s'.contexts)
    ensures t == src ==> SameElsewhere(s, MergeData(s, t, src, now), t)
  {
    hide Refresh, RefreshNext, Merge, MergeParticipants, MergedOpps, TasksMoved, ActivitiesMoved, FactsMoved,
      MergeProfiles, SameElsewhere;
    var s1 := MergeProfiles(s, t, src);
    MergeProfilesFrame(s, t, src);
    var a := s1.(accountLinks := Merge(s1.accountLinks, src, t, now));
    RefreshFrame(a, AccountCopy, {t}, t, None);
    RefreshElsewhere(a, AccountCopy, t);
    var s2 := MergeAccountLinks(s1, t, src, now);
    var b := s2.(oppLinks := Merge(s2.oppLinks, src, t, now), opps := MergedOpps(s2.opps, s2.oppLinks, t, src));
    RefreshFrame(b, OpportunityCopy, {t}, t, None);
    RefreshElsewhere(b, OpportunityCopy, t);
    var s3 := MergeOppLinks(s2, t, src, now);
    var s4 := MergeAttachments(s3, t, src);
    var s5 := Refresh(s4, AccountCopy, {t}, t, None);
    RefreshFrame(s4, AccountCopy, {t}, t, None);
    RefreshElsewhere(s4, AccountCopy, t);
    var s6 := Refresh(s5, OpportunityCopy, {t}, t, None);
    RefreshFrame(s5, OpportunityCopy, {t}, t, None);
    RefreshElsewhere(s5, OpportunityCopy, t);
    RefreshNextFrame(s6, t);
    RefreshNextElsewhere(s6, t);
    if t == src {
      ElsewhereChain(s, s1, a, s2, b, t);
      ElsewhereChain(s, s2, b, s3, s4, t);
      ElsewhereChain(s, s4, s5, s6, RefreshNext(s6, t), t);
    }
  }

  /** Only the profile and context row of `t` may differ. */
  predicate SameElsewhere(s: Tabs, s': Tabs, t: Id) {
    s'.profiles - {t} == s.profiles - {t} && s'.contexts - {t} == s.contexts - {t}
  }

  lemma RefreshElsewhere(s: Tabs, copy: Copy, t: Id)
    ensures SameElsewhere(s, Refresh(s, copy, {t}, t, None), t)
  {
    hide Choice, SetCopy;
    assert Refreshed(s, copy, {t}, t, None).Keys <= {t};
    hide Refreshed;
    WriteElsewhere(s, Refreshed(s, copy, {t}, t, None), t);
  }

  lemma RefreshNextElsewhere(s: Tabs, t: Id)
    ensures SameElsewhere(s, RefreshNext(s, t), t)
  {
    hide NextFor, WriteProfiles;
    WriteElsewhere(s, map[t := ProfileOf(s, t).(next := NextFor(s.tasks, t))], t);
  }

  lemma WriteElsewhere(s: Tabs, rows: map<Id, Profile>, t: Id)
    requires rows.Keys <= {t}
    ensures SameElsewhere(s, WriteProfiles(s, rows), t)
  {
    hide Projection;
  }

  lemma ElsewhereChain(s: Tabs, a: Tabs, b: Tabs, c: Tabs, d: Tabs, t: Id)
    requires SameElsewhere(s, a, t)
    requires SameElsewhere(a, b, t) || (a.profiles == b.profiles && a.contexts == b.contexts)
    requires SameElsewhere(b, c, t)
    requires SameElsewhere(c, d, t) || (c.profiles == d.profiles && c.contexts == d.contexts)
    ensures SameElsewhere(s, c, t) && SameElsewhere(s, d, t)
  {
  }

  lemma MergeProfilesFrame(s: Tabs, t: Id, src: Id)
    ensures OnlyProfiles(s, MergeProfiles(s, t, src))
    ensures t == src ==> SameElsewhere(s, MergeProfiles(s, t, src), t)
  {
    hide MergedProfile, Projection;
  }

  lemma MergedParticipants(ps: map<ParticipantKey, int>, t: Id, src: Id, k: ParticipantKey)
    requires t != src
    ensures var ps', from := MergeParticipants(ps, t, src), k.(contact := Some(src));
      && (k.contact == Some(src) ==> k !in ps')
      && (k.contact == Some(t) ==> (k in ps' <==> k in ps || from in ps))
      && (k.contact == Some(t) && k in ps' ==>
            ps'[k] == if from !in ps then ps[k] else if k in ps && ps[k] > ps[from] then ps[k] else ps[from])
      && (k.contact != Some(src) && k.contact != Some(t) ==> (k in ps' <==> k in ps) && (k in ps ==> ps'[k] == ps[k]))
  {
    var rows, how := ParticipantsOf(ps, src), ParticipantFolding(src, t);
    var from := k.(contact := Some(src));
    ParticipantsMovable(ps, src, t);
    assert forall d | d in rows :: how.target(d) == d.(contact := Some(t));
    if k.contact == Some(t) && from in ps {
      assert from in rows && how.target(from) == k;
    }
  }

  /** Row by row, what belonged to the source belongs to the target afterwards and nothing else changes: every task and
      activity, every fact held by or about the source, and, as `MergeReattaches` and `MergedParticipants` say, every
      link and participant. So deleting the source contact afterwards cascades to no row at all. Only an account of
      which the source was the organization contact loses that. */
  lemma CascadeDeletesNothing(s: Tabs, t: Id, src: Id, now: int)
    requires t != src
    ensures var s' := MergeContacts(s, t, src, now);
      && s'.tasks.Keys == s.tasks.Keys && s'.activities.Keys == s.activities.Keys && s'.facts.Keys == s.facts.Keys
      && (forall i | i in s.tasks ::
            s'.tasks[i] == if s.tasks[i].contact == Some(src) then s.tasks[i].(contact := Some(t)) else s.tasks[i])
      && (forall a | a in s.activities ::
            s'.activities[a] == if s.activities[a] == Some(src) then Some(t) else s.activities[a])
      && (forall f | f in s.facts :: FactRepointed(s.facts[f], s'.facts[f], t, src))
      && s'.accountLinks == Merge(s.accountLinks, src, t, now) && s'.oppLinks == Merge(s.oppLinks, src, t, now)
      && s'.participants == MergeParticipants(s.participants, t, src)
      && s'.accounts.Keys == s.accounts.Keys && s'.stages == s.stages
      && (forall a | a in s.accounts ::
            s'.accounts[a] == if s.accounts[a] == Some(src) then None else s.accounts[a])
  {
    hide MergeContacts, Merge, MergeParticipants;
    MergedTables(s, t, src, now);
  }

  /** A fact about the source is about the target, and a fact held by or about the source is held by the target. */
  predicate FactRepointed(f: Fact, f': Fact, t: Id, src: Id) {
    && f'.entity == (if f.entity == OfContact(src) then OfContact(t) else f.entity)
    && f'.contact == (if f.contact == Some(src) || f.entity == OfContact(src) then Some(t) else f.contact)
  }

  /** An opportunity the source was the primary contact of, by its column or a primary row, shows the target; no other
      column of any opportunity changes. */
  lemma MergedOpportunities(s: Tabs, t: Id, src: Id, now: int)
    requires t != src
    ensures var opps' := MergeContacts(s, t, src, now).opps;
      && opps'.Keys == s.opps.Keys
      && forall o | o in s.opps ::
           opps'[o] == if s.opps[o].contact == Some(src) || HadPrimary(s.oppLinks, o, src)
                       then s.opps[o].(contact := Some(t)) else s.opps[o]
  {
    hide MergeData, Merge, MergeParticipants, HadPrimary, TasksMoved, ActivitiesMoved, FactsMoved;
    MergeDataTables(s, t, src, now);
  }

  /** The tables a merge leaves, the delete of the source included. */
  lemma MergedTables(s: Tabs, t: Id, src: Id, now: int)
    requires t != src
    ensures var s' := MergeContacts(s, t, src, now);
      && s'.accountLinks == Merge(s.accountLinks, src, t, now) && s'.oppLinks == Merge(s.oppLinks, src, t, now)
      && s'.tasks == TasksMoved(s.tasks, t, src) && s'.activities == ActivitiesMoved(s.activities, t, src)
      && s'.facts == FactsMoved(s.facts, t, src)
      && s'.participants == MergeParticipants(s.participants, t, src)
      && s'.accounts == AccountsWithout(s.accounts, src) && s'.stages == s.stages
  {
    hide MergeData, Merge, MergeParticipants, Inv;
    var d := MergeData(s, t, src, now);
    MergeDataTables(s, t, src, now);
    NoRowsLeft(s.accountLinks, t, src, now);
    NoRowsLeft(s.oppLinks, t, src, now);
    forall k: ParticipantKey | k.contact == Some(src) ensures k !in d.participants {
      MergedParticipants(s.participants, t, src, k);
    }
    assert DeleteContact(d, src).tasks == d.tasks;
    assert DeleteContact(d, src).activities == d.activities;
    assert DeleteContact(d, src).facts == d.facts;
    assert DeleteContact(d, src).participants == d.participants;
  }

  /** An account keeps its organization contact through a merge, of one contact into itself too, if and only if that
      contact is not the merged-away one: the column is not moved, and the delete sets it to null. */
  lemma OrgLinkSurvivesIff(s: Tabs, t: Id, src: Id, now: int, account: Id)
    requires account in s.accounts
    ensures var s' := MergeContacts(s, t, src, now);
      && account in s'.accounts
      && (s'.accounts[account] == s.accounts[account] <==> s.accounts[account] != Some(src))
      && (s.accounts[account] == Some(src) ==> s'.accounts[account] == None)
  {
    hide MergeData, Merge, MergeParticipants, MergedOpps, TasksMoved, ActivitiesMoved, FactsMoved;
    MergeDataTables(s, t, src, now);
  }

  lemma NoRowsLeft(tab: Table, t: Id, src: Id, now: int)
    requires t != src
    ensures Merge(tab, src, t, now) - RowsOf(Merge(tab, src, t, now), src) == Merge(tab, src, t, now)
  {
    hide Merge;
    forall k: LinkKey | k.contact == src ensures k !in Merge(tab, src, t, now) {
      MergeReattaches(tab, src, t, now, k);
    }
    assert RowsOf(Merge(tab, src, t, now), src) == {};
  }

  // ---- whole runs ----

  /** An explicit write of a copied column must write what the rows say; `UpdateProfileKeepsInvIff` shows that any
      other accepted write breaks the agreement. */
  ghost predicate Honest(s: Tabs, step: CrmStep) {
    step.StepUpdateProfile? && Accepts(s, step.write) ==> WritesAgree(s, step.contact, step.write)
  }

  ghost predicate HonestRun(s: Tabs, steps: seq<CrmStep>)
    decreases |steps|
  {
    steps != [] ==> Honest(s, steps[0]) && HonestRun(Apply(s, steps[0]), steps[1..])
  }

  lemma StepKeepsInv(s: Tabs, step: CrmStep)
    requires Inv(s) && Honest(s, step)
    ensures Inv(Apply(s, step))
  {
    hide Inv, LinkAccount, LinkOpportunity, MergeContacts, DeleteContact, UpdateProfile, CreateOpportunity;
    match step
    case StepLinkAccount(a, c, role, wanted, now) => LinkAccountKeepsInv(s, a, c, role, wanted, now);
    case StepLinkOpportunity(o, c, role, wanted, now) =>
      if o in s.opps { LinkOpportunityKeepsInv(s, o, c, role, wanted, now); }
      else { NoSuchOpportunity(s, o, c, role, wanted, now); }
    case StepUpdateProfile(c, w) => UpdateProfileKeepsInvIff(s, c, w);
    case StepCreateAccount(_, _) => OtherTablesKeepInv(s, Apply(s, step));
    case StepCreateOpportunity(o, c, stage, status, now) => CreateOpportunityKeepsInv(s, o, c, stage, status, now);
    case StepDeleteContact(c) => DeleteKeepsInv(s, c);
    case StepMergeContacts(t, src, now) => MergeKeepsInv(s, t, src, now);
    case StepCreateStage(_, _) => StageStepsKeepInv(s, step);
    case StepUpdateStage(_, _, _, _, _) => StageStepsKeepInv(s, step);
    case StepMoveOpportunity(_, _) => StageStepsKeepInv(s, step);
    case _ => TaskStepsKeepInv(s, step);
  }

  lemma NoSuchOpportunity(s: Tabs, o: Id, c: Id, role: Id, wanted: Option<bool>, now: int)
    requires o !in s.opps
    ensures LinkOpportunity(s, o, c, role, wanted, now) == s
  {
  }

  /** In every honest run of the CRM operations all the copies agree with their rows. */
  lemma {:induction false} RunKeepsInv(s: Tabs, steps: seq<CrmStep>)
    requires Inv(s) && HonestRun(s, steps)
    ensures Inv(Run(s, steps))
    decreases |steps|
  {
    if steps != [] {
      StepKeepsInv(s, steps[0]);
      RunKeepsInv(Apply(s, steps[0]), steps[1..]);
    }
  }

  /** The seeded database: one pipeline with its stages, nothing else. */
  ghost predicate Seeded(s: Tabs) {
    && s.accountLinks == map[] && s.oppLinks == map[] && s.opps == map[] && s.profiles == map[] && s.tasks == map[]
    && forall i | i in s.stages :: StageFits(s.stages, i, s.stages[i])
  }

  lemma SeedHasInv(s: Tabs)
    requires Seeded(s)
    ensures Inv(s)
  {
    forall c: Id ensures NextFor(s.tasks, c) == NO_NEXT { assert OpenTasksOf(s.tasks, c) == {}; }
  }

  // ---- closed tasks ----

  predicate Closed(s: Tabs, i: Id) {
    i in s.tasks && !IsOpenTask(s.tasks[i])
  }

  /** Every step leaves the task table alone, writes one row, or re-attaches rows to another contact. */
  lemma StepKeepsClosed(s: Tabs, step: CrmStep, i: Id)
    requires Closed(s, i)
    ensures Closed(Apply(s, step), i)
  {
    hide CreateTask, CancelTask, CompleteTask, SnoozeTask, LinkAccount, LinkOpportunity, UpdateProfile, CreateStage,
      UpdateStage, CreateOpportunity, MoveOpportunity, DeleteContact, MergeContacts;
    match step
    case StepCreateTask(j, row) => TaskWritesKeepClosed(s, j, row, 0, i);
    case StepCancelTask(j) => TaskWritesKeepClosed(s, j, s.tasks[i], 0, i);
    case StepCompleteTask(j) => TaskWritesKeepClosed(s, j, s.tasks[i], 0, i);
    case StepSnoozeTask(j, until) => TaskWritesKeepClosed(s, j, s.tasks[i], until, i);
    case StepLinkAccount(a, c, role, wanted, now) => LinkAccountKeepsTasks(s, a, c, role, wanted, now);
    case StepLinkOpportunity(o, c, role, wanted, now) => LinkOpportunityKeepsTasks(s, o, c, role, wanted, now);
    case StepUpdateProfile(c, w) => ProfileWritesKeepTasks(s, c, w);
    case StepCreateAccount(_, _) =>
    case StepCreateStage(j, st) => StagesKeepTasks(s, j, st, "", 0, NewStage, false);
    case StepUpdateStage(j, key, order, cat, arch) =>
      StagesKeepTasks(s, j, Stage(0, "", 0, NewStage, false), key, order, cat, arch);
    case StepCreateOpportunity(o, c, stage, status, now) => OpportunitiesKeepTasks(s, o, c, stage, status, now);
    case StepMoveOpportunity(o, stage) => OpportunitiesKeepTasks(s, o, None, stage, None, 0);
    case StepDeleteContact(c) => DeleteKeepsClosed(s, c, i);
    case StepMergeContacts(t, src, now) => MergeKeepsClosed(s, t, src, now, i);
  }

  lemma TaskWritesKeepClosed(s: Tabs, j: Id, row: Task, until: int, i: Id)
    requires Closed(s, i)
    ensures Closed(CreateTask(s, j, row), i) && Closed(CancelTask(s, j), i)
    ensures Closed(CompleteTask(s, j), i) && Closed(SnoozeTask(s, j, until), i)
  {
    hide RefreshNextOpt;
    SetTaskTable(s, j, row);
    if j in s.tasks {
      SetTaskTable(s, j, s.tasks[j].(status := Canceled));
      SetTaskTable(s, j, s.tasks[j].(status := Done));
      SetTaskTable(s, j, s.tasks[j].(status := Snoozed, due := Some(until)));
    }
  }

  lemma SetTaskTable(s: Tabs, j: Id, task: Task)
    ensures SetTask(s, j, task).tasks == s.tasks[j := task]
  {
    hide RefreshNext;
    if task.contact.Some? { RefreshNextFrame(s.(tasks := s.tasks[j := task]), task.contact.value); }
  }

  lemma ProfileWritesKeepTasks(s: Tabs, c: Id, w: ProfileWrite)
    ensures UpdateProfile(s, c, w).tasks == s.tasks
  {
    hide Written, Accepts, Projection;
  }

  lemma StagesKeepTasks(s: Tabs, i: Id, st: Stage, key: string, order: int, category: Category, archived: bool)
    ensures CreateStage(s, i, st).tasks == s.tasks && UpdateStage(s, i, key, order, category, archived).tasks == s.tasks
  {
    hide StageFits;
  }

  lemma OpportunitiesKeepTasks(s: Tabs, o: Id, c: Option<Id>, stage: Id, status: Option<OppStatus>, now: int)
    ensures CreateOpportunity(s, o, c, stage, status, now).tasks == s.tasks &&
            MoveOpportunity(s, o, stage).tasks == s.tasks
  {
    hide ProfileOf;
  }

  lemma DeleteKeepsClosed(s: Tabs, c: Id, i: Id)
    requires Closed(s, i)
    ensures Closed(DeleteContact(s, c), i)
  {
  }

  lemma MergeKeepsClosed(s: Tabs, t: Id, src: Id, now: int, i: Id)
    requires Closed(s, i)
    ensures Closed(MergeContacts(s, t, src, now), i)
  {
    hide MergeData, TasksMoved, Merge, MergedOpps, MergeParticipants, ActivitiesMoved, FactsMoved;
    MergeDataTables(s, t, src, now);
    MovedKeepsClosed(s.tasks, t, src, i);
  }

  lemma MovedKeepsClosed(tasks: map<Id, Task>, t: Id, src: Id, i: Id)
    requires i in tasks && !IsOpenTask(tasks[i])
    ensures i in TasksMoved(tasks, t, src) && !IsOpenTask(TasksMoved(tasks, t, src)[i])
  {
  }

  lemma LinkAccountKeepsTasks(s: Tabs, a: Id, c: Id, role: Id, wanted: Option<bool>, now: int)
    ensures LinkAccount(s, a, c, role, wanted, now).tasks == s.tasks
  {
    hide Refreshed, Upsert, Affected;
  }

  lemma LinkOpportunityKeepsTasks(s: Tabs, o: Id, c: Id, role: Id, wanted: Option<bool>, now: int)
    ensures LinkOpportunity(s, o, c, role, wanted, now).tasks == s.tasks
  {
    hide LinkOpportunity, Refreshed, Touched, ShownContact, Upsert;
    if o in s.opps { LinkOpportunityShape(s, o, c, role, wanted, now); }
    else { NoSuchOpportunity(s, o, c, role, wanted, now); }
  }

  /** A task once done or canceled is no contact's next action in any later state of any run. */
  lemma {:induction false} ClosedTaskNeverReturns(s: Tabs, steps: seq<CrmStep>, i: Id, c: Id)
    requires Inv(s) && HonestRun(s, steps) && Closed(s, i)
    ensures Closed(Run(s, steps), i)
    ensures ProfileOf(Run(s, steps), c).next.task != Some(i)
    decreases |steps|
  {
    if steps == [] {
      assert ProfileOf(s, c).next == NextFor(s.tasks, c);
    } else {
      StepKeepsInv(s, steps[0]);
      StepKeepsClosed(s, steps[0], i);
      ClosedTaskNeverReturns(Apply(s, steps[0]), steps[1..], i, c);
    }
  }
}
