/** What each operation of the CRM makes of the rows it names, and that it leaves every other row alone. */
module CrmEffects {
  import opened Tables
  import opened CrmLinks
  import opened Crm
  import opened CrmProofs

  // ---- links ----

  /** Linking a contact to an opportunity writes the row as asked, and whenever that row is primary afterwards the
      opportunity shows the contact and the contact's profile the opportunity. Wanting it primary demotes the other
      rows of the opportunity; any other wish leaves every other row as it was. */
  lemma LinkedOpportunity(s: Tabs, o: Id, c: Id, role: Id, wanted: Option<bool>, now: int)
    requires o in s.opps
    ensures var s', k := LinkOpportunity(s, o, c, role, wanted, now), LinkKey(o, c, role);
      && RowWritten(s.oppLinks, s'.oppLinks, k, wanted, now)
      && s'.opps.Keys == s.opps.Keys
      && (s'.oppLinks[k].primary ==> s'.opps[o].contact == Some(c) && ProfileOf(s', c).opportunity == Some(o))
      && (!s'.oppLinks[k].primary && IsPrimary(s.oppLinks, k) && OnePrimary(s.oppLinks) ==> s'.opps[o].contact.None?)
      && (!s'.oppLinks[k].primary && !IsPrimary(s.oppLinks, k) ==> s'.opps[o].contact == s.opps[o].contact)
      && s'.opps[o] == s.opps[o].(contact := s'.opps[o].contact)
      && (forall x | x in s.opps && x != o :: s'.opps[x] == s.opps[x])
      && OnlyLinksAndProfiles(s, s')
  {
    hide Refresh, LinkOpportunity, Touched;
    var k := LinkKey(o, c, role);
    UpsertWrites(s.oppLinks, k, wanted, now);
    LinkOpportunityShape(s, o, c, role, wanted, now);
    var shown, cs := Shown(s, k, wanted, now), Touched(s, k, wanted, now);
    RefreshFrame(shown, OpportunityCopy, cs, c, if NextPrimary(s.oppLinks, k, wanted) then Some(o) else None);
    var t' := Upsert(s.oppLinks, k, wanted, now);
    if t'[k].primary {
      OwnRow(t', k);
      assert c in cs by { LinkedIsTouched(s, k, wanted, now); }
      RefreshPrefers(shown, OpportunityCopy, cs, c, o);
    } else if IsPrimary(s.oppLinks, k) && OnePrimary(s.oppLinks) {
      UpsertKeepsOnePrimary(s.oppLinks, k, wanted, now);
      NoPrimaryLeft(s.oppLinks, t', k);
    }
  }

  /** The same for an account, which keeps no copy of its own. */
  lemma LinkedAccount(s: Tabs, account: Id, c: Id, role: Id, wanted: Option<bool>, now: int)
    requires account in s.accounts
    ensures var s', k := LinkAccount(s, account, c, role, wanted, now), LinkKey(account, c, role);
      && RowWritten(s.accountLinks, s'.accountLinks, k, wanted, now)
      && (s'.accountLinks[k].primary ==> ProfileOf(s', c).account == Some(account))
      && s'.opps == s.opps && s'.oppLinks == s.oppLinks && OnlyLinksAndProfiles(s, s')
  {
    hide Refresh;
    var k := LinkKey(account, c, role);
    UpsertWrites(s.accountLinks, k, wanted, now);
    var linked := s.(accountLinks := Upsert(s.accountLinks, k, wanted, now));
    var cs := Affected(s.accountLinks, k, wanted);
    RefreshFrame(linked, AccountCopy, cs, c, if NextPrimary(s.accountLinks, k, wanted) then Some(account) else None);
    if linked.accountLinks[k].primary {
      OwnRow(linked.accountLinks, k);
      RefreshPrefers(linked, AccountCopy, cs, c, account);
    }
  }

  /** The row of `k` is written now and primary as wanted, by default as before; the other rows of its parent lose the
      flag exactly when it was wanted, and no row loses anything else. */
  ghost predicate RowWritten(t: Table, t': Table, k: LinkKey, wanted: Option<bool>, now: int) {
    && t'.Keys == t.Keys + {k} && t'[k].updatedAt == now
    && (t'[k].primary <==> wanted == Some(true) || (wanted.None? && IsPrimary(t, k)))
    && (forall a | a in t && a != k && (a.parent != k.parent || wanted != Some(true)) :: t'[a] == t[a])
    && (forall a | a in t && a != k && a.parent == k.parent && wanted == Some(true) ::
          !t'[a].primary && t'[a].updatedAt == t[a].updatedAt)
  }

  predicate OnlyLinksAndProfiles(s: Tabs, s': Tabs) {
    s' == s.(accountLinks := s'.accountLinks, oppLinks := s'.oppLinks, opps := s'.opps, profiles := s'.profiles,
             contexts := s'.contexts)
  }

  lemma OwnRow(t: Table, k: LinkKey)
    requires IsPrimary(t, k)
    ensures HasRow(t, Contact, k.parent, k.contact) && HasRow(t, Parent, k.contact, k.parent)
  {
    assert OtherSide(Contact, k) == k.parent && At(Contact, k) == k.contact;
    assert OtherSide(Parent, k) == k.contact && At(Parent, k) == k.parent;
  }

  lemma NoPrimaryLeft(t: Table, t': Table, k: LinkKey)
    requires OnePrimary(t) && IsPrimary(t, k) && !IsPrimary(t', k)
    requires forall a | IsPrimary(t', a) :: IsPrimary(t, a)
    ensures Pick(t', Contact, k.parent, None).None?
  {
    PickAgrees(t', Contact, k.parent, None);
    forall a | IsPrimary(t', a) ensures OtherSide(Contact, a) != k.parent { assert IsPrimary(t, a); }
  }

  lemma LinkedIsTouched(s: Tabs, k: LinkKey, wanted: Option<bool>, now: int)
    requires k.parent in s.opps
    ensures k.contact in Touched(s, k, wanted, now)
  {
  }

  /** A refresh stores the preferred parent if it has a primary row of the contact. */
  lemma RefreshPrefers(s: Tabs, copy: Copy, cs: set<Id>, c: Id, parent: Id)
    requires c in cs && HasRow(LinksFor(s, copy), Parent, c, parent)
    ensures CopyOf(Refresh(s, copy, cs, c, Some(parent)), copy, c) == Some(parent)
  {
    WriteShape(s, Refreshed(s, copy, cs, c, Some(parent)), c);
  }

  /** Every contact a link write demotes falls back to the latest of its remaining primary rows. */
  lemma DemotedFallsBack(s: Tabs, o: Id, c: Id, role: Id, now: int, d: Id, r: Id)
    requires o in s.opps && d != c && IsPrimary(s.oppLinks, LinkKey(o, d, r))
    ensures var s' := LinkOpportunity(s, o, c, role, Some(true), now);
      var copy := ProfileOf(s', d).opportunity;
      && copy != Some(o)
      && (copy.None? <==> forall k | IsPrimary(s'.oppLinks, k) :: k.contact != d)
      && (copy.Some? ==> IsLatest(s'.oppLinks, Parent, d, copy.value))
  {
    hide Refresh, LinkOpportunity, Upsert, Refreshed, IsLatest;
    var k, k0 := LinkKey(o, c, role), LinkKey(o, d, r);
    UpsertWrites(s.oppLinks, k, Some(true), now);
    LinkOpportunityShape(s, o, c, role, Some(true), now);
    var shown, cs := Shown(s, k, Some(true), now), Touched(s, k, Some(true), now);
    RefreshFrame(shown, OpportunityCopy, cs, c, Some(o));
    assert d in cs by { assert k0 in s.oppLinks; }
    RefreshPicks(shown, OpportunityCopy, cs, c, Some(o), d);
    PickIsLatest(shown.oppLinks, Parent, d, None);
  }

  lemma DemotedMemberFallsBack(s: Tabs, account: Id, c: Id, role: Id, now: int, d: Id, r: Id)
    requires account in s.accounts && d != c && IsPrimary(s.accountLinks, LinkKey(account, d, r))
    ensures var s' := LinkAccount(s, account, c, role, Some(true), now);
      var copy := ProfileOf(s', d).account;
      && copy != Some(account)
      && (copy.None? <==> forall k | IsPrimary(s'.accountLinks, k) :: k.contact != d)
      && (copy.Some? ==> IsLatest(s'.accountLinks, Parent, d, copy.value))
  {
    hide Refresh, Upsert, Refreshed, IsLatest;
    var k, k0 := LinkKey(account, c, role), LinkKey(account, d, r);
    UpsertWrites(s.accountLinks, k, Some(true), now);
    var linked := s.(accountLinks := Upsert(s.accountLinks, k, Some(true), now));
    var cs := Affected(s.accountLinks, k, Some(true));
    RefreshFrame(linked, AccountCopy, cs, c, Some(account));
    assert d in cs by { assert k0 in s.accountLinks; }
    RefreshPicks(linked, AccountCopy, cs, c, Some(account), d);
    PickIsLatest(linked.accountLinks, Parent, d, None);
  }

  lemma RefreshPicks(s: Tabs, copy: Copy, cs: set<Id>, me: Id, preferred: Option<Id>, c: Id)
    requires c in cs && c != me
    ensures CopyOf(Refresh(s, copy, cs, me, preferred), copy, c) == Pick(LinksFor(s, copy), Parent, c, None)
  {
    WriteShape(s, Refreshed(s, copy, cs, me, preferred), c);
  }

  /** A link write changes no profile but that of the linked contact and, when it is wanted primary, of contacts whose
      row it demotes; it changes one copy there and inserts a profile row only to store something. */
  lemma LinkedProfiles(s: Tabs, o: Id, c: Id, role: Id, wanted: Option<bool>, now: int, d: Id)
    requires o in s.opps && OnePrimary(s.oppLinks)
    ensures var s' := LinkOpportunity(s, o, c, role, wanted, now);
      var p, p' := ProfileOf(s, d), ProfileOf(s', d);
      && p' == p.(opportunity := p'.opportunity)
      && (d in s'.profiles <==> d in s.profiles || p'.opportunity.Some?)
      && (p' != p ==> d == c || (wanted == Some(true)
                                 && exists k :: IsPrimary(s.oppLinks, k) && k.parent == o && k.contact == d))
  {
    hide Refresh, LinkOpportunity, Upsert, ShownContact, Agrees;
    var k := LinkKey(o, c, role);
    LinkOpportunityShape(s, o, c, role, wanted, now);
    var shown, cs := Shown(s, k, wanted, now), Touched(s, k, wanted, now);
    var preferred := if NextPrimary(s.oppLinks, k, wanted) then Some(o) else None;
    RefreshShape(shown, OpportunityCopy, cs, c, preferred, d);
    RefreshStores(shown, OpportunityCopy, cs, c, preferred, d);
    if d in cs { TouchedMeans(s, k, wanted, now, d); }
  }

  lemma TouchedMeans(s: Tabs, k: LinkKey, wanted: Option<bool>, now: int, d: Id)
    requires k.parent in s.opps && OnePrimary(s.oppLinks) && d in Touched(s, k, wanted, now)
    ensures d == k.contact || (wanted == Some(true)
              && exists x :: IsPrimary(s.oppLinks, x) && x.parent == k.parent && x.contact == d)
  {
    hide Pick, OnePrimary;
    if !NextPrimary(s.oppLinks, k, wanted) && IsPrimary(s.oppLinks, k) {
      hide Upsert;
      UpsertWrites(s.oppLinks, k, wanted, now);
      NoPrimaryLeft(s.oppLinks, Upsert(s.oppLinks, k, wanted, now), k);
    } else if d != k.contact {
      assert exists x :: x in s.oppLinks && x.parent == k.parent && s.oppLinks[x].primary && x.contact == d;
    }
  }

  lemma LinkedMemberProfiles(s: Tabs, account: Id, c: Id, role: Id, wanted: Option<bool>, now: int, d: Id)
    requires account in s.accounts
    ensures var s' := LinkAccount(s, account, c, role, wanted, now);
      var p, p' := ProfileOf(s, d), ProfileOf(s', d);
      && p' == p.(account := p'.account)
      && (d in s'.profiles <==> d in s.profiles || p'.account.Some?)
      && (p' != p ==> d == c || (wanted == Some(true)
                                 && exists k :: IsPrimary(s.accountLinks, k) && k.parent == account && k.contact == d))
  {
    hide Refresh, Upsert, Agrees;
    var k := LinkKey(account, c, role);
    var linked := s.(accountLinks := Upsert(s.accountLinks, k, wanted, now));
    var cs := Affected(s.accountLinks, k, wanted);
    var preferred := if NextPrimary(s.accountLinks, k, wanted) then Some(account) else None;
    RefreshShape(linked, AccountCopy, cs, c, preferred, d);
    RefreshStores(linked, AccountCopy, cs, c, preferred, d);
    if d in cs && d != c {
      assert exists x :: x in s.accountLinks && x.parent == account && s.accountLinks[x].primary && x.contact == d;
    }
  }

  lemma RefreshStores(s: Tabs, copy: Copy, cs: set<Id>, me: Id, preferred: Option<Id>, d: Id)
    requires CopyOf(s, copy, d).Some? ==> d in s.profiles
    ensures var s' := Refresh(s, copy, cs, me, preferred);
      d in s'.profiles <==> d in s.profiles || CopyOf(s', copy, d).Some?
  {
    hide Choice;
    WriteShape(s, Refreshed(s, copy, cs, me, preferred), d);
  }

  // ---- next action ----

  predicate MoreUrgent(p: Priority, q: Priority) {
    (p.Urgent? && !q.Urgent?) || (p.High? && (q.Normal? || q.Low?)) || (p.Normal? && q.Low?)
  }

  /** `i` comes before `j` in a contact's work: more urgent, or as urgent and due earlier, where no due time is the
      latest, or as urgent and due alike and created with the smaller id. */
  predicate ComesFirst(i: Id, x: Task, j: Id, y: Task) {
    || MoreUrgent(x.priority, y.priority)
    || (x.priority == y.priority && x.due.Some? && (y.due.None? || x.due.value < y.due.value))
    || (x.priority == y.priority && x.due == y.due && i < j)
  }

  /** Whether `n` shows the contact's first open task, or that it has none. */
  ghost predicate ShowsFirst(tasks: map<Id, Task>, c: Id, n: Next) {
    if n.task.None? then n.at.None? && n.summary.None? && forall j | j in tasks && tasks[j].contact == Some(c) ::
                           tasks[j].status.Done? || tasks[j].status.Canceled?
    else
      var i := n.task.value;
      && i in tasks && tasks[i].contact == Some(c) && !tasks[i].status.Done? && !tasks[i].status.Canceled?
      && n.at == tasks[i].due && n.summary == Some(tasks[i].title)
      && forall j | j in tasks && j != i && tasks[j].contact == Some(c) && !tasks[j].status.Done?
                    && !tasks[j].status.Canceled? :: ComesFirst(i, tasks[i], j, tasks[j])
  }

  lemma NextShowsFirst(tasks: map<Id, Task>, c: Id)
    ensures ShowsFirst(tasks, c, NextFor(tasks, c))
  {
    if OpenTasksOf(tasks, c) == {} {
      forall j | j in tasks && tasks[j].contact == Some(c) ensures !IsOpenTask(tasks[j]) {
        assert j !in OpenTasksOf(tasks, c);
      }
    } else {
      var i := FirstTask(tasks, c);
      forall j | j in tasks && j != i && tasks[j].contact == Some(c) && IsOpenTask(tasks[j])
        ensures ComesFirst(i, tasks[i], j, tasks[j])
      {
        assert j in OpenTasksOf(tasks, c) && TaskNotAfter(tasks, i, j);
      }
    }
  }

  /** In every honest run every contact's profile shows its first open task. */
  lemma RunShowsFirst(s: Tabs, steps: seq<CrmStep>, c: Id)
    requires Inv(s) && HonestRun(s, steps)
    ensures ShowsFirst(Run(s, steps).tasks, c, ProfileOf(Run(s, steps), c).next)
  {
    hide NextFor, ShowsFirst;
    RunKeepsInv(s, steps);
    NextShowsFirst(Run(s, steps).tasks, c);
    assert ProfileOf(Run(s, steps), c).next == NextFor(Run(s, steps).tasks, c);
  }

  /** A task step writes one row or none: it adds a new one as given, or changes the status of an existing one, and the
      due time too when it snoozes. Nothing but profiles is written besides. */
  lemma TaskStepWrites(s: Tabs, step: CrmStep)
    requires step.StepCreateTask? || step.StepCancelTask? || step.StepCompleteTask? || step.StepSnoozeTask?
    ensures var tasks, tasks', i := s.tasks, Apply(s, step).tasks, step.task;
      && (forall j | j != i :: (j in tasks' <==> j in tasks) && (j in tasks ==> tasks'[j] == tasks[j]))
      && (i in tasks' <==> i in tasks || step.StepCreateTask?)
      && (step.StepCreateTask? ==> tasks'[i] == if i in tasks then tasks[i] else step.row)
      && (step.StepCancelTask? && i in tasks ==> tasks'[i] == tasks[i].(status := Canceled))
      && (step.StepCompleteTask? && i in tasks ==> tasks'[i] == tasks[i].(status := Done))
      && (step.StepSnoozeTask? && i in tasks ==>
            tasks'[i] == if tasks[i].status.Done? || tasks[i].status.Canceled? then tasks[i]
                         else tasks[i].(status := Snoozed, due := Some(step.until)))
      && Apply(s, step) == s.(tasks := tasks', profiles := Apply(s, step).profiles,
                              contexts := Apply(s, step).contexts)
  {
    hide RefreshNextOpt;
    match step
    case StepCreateTask(i, row) => SetTaskFrame(s, i, row);
    case StepCancelTask(i) => if i in s.tasks { SetTaskFrame(s, i, s.tasks[i].(status := Canceled)); }
    case StepCompleteTask(i) => if i in s.tasks { SetTaskFrame(s, i, s.tasks[i].(status := Done)); }
    case StepSnoozeTask(i, until) =>
      if i in s.tasks { SetTaskFrame(s, i, s.tasks[i].(status := Snoozed, due := Some(until))); }
  }

  lemma SetTaskFrame(s: Tabs, i: Id, task: Task)
    ensures var s' := SetTask(s, i, task);
      s' == s.(tasks := s.tasks[i := task], profiles := s'.profiles, contexts := s'.contexts)
  {
    hide RefreshNext;
    if task.contact.Some? { RefreshNextFrame(s.(tasks := s.tasks[i := task]), task.contact.value); }
  }

  /** In every honest run the seven context entries of a contact with a profile say what the profile says; the next
      action is null exactly when there is none. */
  lemma RunShowsEntries(s: Tabs, steps: seq<CrmStep>, c: Id)
    requires Inv(s) && HonestRun(s, steps) && c in Run(s, steps).profiles
    ensures var p, entries := Run(s, steps).profiles[c], ContextOf(Run(s, steps), c).crm;
      && entries.Some? && entries.value.lifecycle == p.lifecycle && entries.value.health == p.health
      && entries.value.priority == p.priority && entries.value.owner == p.owner
      && entries.value.primaryAccount == p.account && entries.value.primaryOpportunity == p.opportunity
      && (entries.value.nextAction.None? <==> p.next.task.None? && p.next.at.None? && p.next.summary.None?)
      && (entries.value.nextAction.Some? ==> entries.value.nextAction.value == p.next)
  {
    RunKeepsInv(s, steps);
    hide Run, HonestRun, LinksInv, NextInv, PipelineInv;
    assert ContextMatches(Run(s, steps), c);
  }

  // ---- opportunities in their pipelines ----

  /** A chain of moves through stages. */
  ghost function MoveThrough(s: Tabs, o: Id, stops: seq<Id>): (s': Tabs)
    decreases |stops|
  {
    if stops == [] then s else MoveOpportunity(MoveThrough(s, o, stops[..|stops| - 1]), o, stops[|stops| - 1])
  }

  /** A stage the opportunity can be moved to: known, not archived and of its own pipeline. */
  predicate CanEnter(s: Tabs, o: Id, stage: Id) {
    o in s.opps && stage in s.stages && !s.stages[stage].archived && s.stages[stage].pipeline == s.opps[o].pipeline
  }

  predicate Terminal(s: Tabs, stage: Id) {
    stage in s.stages && (s.stages[stage].category.TerminalWon? || s.stages[stage].category.TerminalLost?)
  }

  predicate EverTerminal(s: Tabs, o: Id, stops: seq<Id>)
    requires o in s.opps
  {
    || s.opps[o].status.OppWon? || s.opps[o].status.OppLost? || exists i :: 0 <= i < |stops| && Terminal(s, stops[i])
  }

  /** `row` is where an opportunity may stand in stage `last` after the stops. */
  predicate Followed(s: Tabs, o: Id, stops: seq<Id>, last: Id, row: Opportunity)
    requires o in s.opps && last in s.stages
  {
    && row == s.opps[o].(stage := last, status := row.status)
    && (row.status.OppWon? <==> s.stages[last].category.TerminalWon?)
    && (row.status.OppLost? <==> s.stages[last].category.TerminalLost?)
    && (!Terminal(s, last) ==> row.status == if EverTerminal(s, o, stops) then OppOpen else s.opps[o].status)
  }

  /** After any moves the opportunity stands in the last stage. It is won (lost) exactly if that is a won (lost) stage;
      elsewhere it is open if it was ever won or lost before or on the way, and else keeps the status it had. No other
      column and no other row changes. */
  lemma {:induction false} StatusFollowsLastStage(s: Tabs, o: Id, stops: seq<Id>)
    requires o in s.opps && stops != [] && forall i | 0 <= i < |stops| :: CanEnter(s, o, stops[i])
    ensures var s', last := MoveThrough(s, o, stops), stops[|stops| - 1];
      && o in s'.opps && s' == s.(opps := s.opps[o := s'.opps[o]])
      && CanEnter(s, o, last) && Followed(s, o, stops, last, s'.opps[o])
    decreases |stops|
  {
    hide Followed, CanEnter;
    var n := |stops| - 1;
    var before := stops[..n];
    if before == [] {
      assert s.opps[o := s.opps[o]] == s.opps;
      FollowsOne(s, s, o, before, s.opps[o], stops[n]);
    } else {
      assert forall i | 0 <= i < n :: before[i] == stops[i];
      StatusFollowsLastStage(s, o, before);
      var mid := MoveThrough(s, o, before);
      FollowsOne(s, mid, o, before, mid.opps[o], stops[n]);
    }
    assert stops == before + [stops[n]];
  }

  /** One more move. */
  lemma FollowsOne(s: Tabs, mid: Tabs, o: Id, before: seq<Id>, row: Opportunity, last: Id)
    requires o in s.opps && mid == s.(opps := s.opps[o := row]) && CanEnter(s, o, last)
    requires if before == [] then row == s.opps[o]
             else CanEnter(s, o, before[|before| - 1]) && Followed(s, o, before, before[|before| - 1], row)
    ensures var s' := MoveOpportunity(mid, o, last);
      && o in s'.opps && s' == s.(opps := s.opps[o := s'.opps[o]])
      && Followed(s, o, before + [last], last, s'.opps[o])
  {
    var stops := before + [last];
    assert stops[|before|] == last;
    assert EverTerminal(s, o, stops) <==> EverTerminal(s, o, before) || Terminal(s, last) by {
      assert forall i | 0 <= i < |before| :: stops[i] == before[i];
    }
    var s' := MoveOpportunity(mid, o, last);
    assert s'.opps == s.opps[o := s'.opps[o]];
  }

  /** A move into a stage that cannot be entered changes nothing. */
  lemma MoveRefused(s: Tabs, o: Id, stage: Id)
    ensures !CanEnter(s, o, stage) ==> MoveOpportunity(s, o, stage) == s
  {
  }

  /** A new opportunity stands in the named stage of that stage's pipeline and, without a status of its own, is won or
      lost in a won or lost stage and open elsewhere; a contact is its one, primary stakeholder. A refused one leaves no
      trace. */
  lemma CreatedOpportunity(s: Tabs, o: Id, c: Option<Id>, stage: Id, status: Option<OppStatus>, now: int)
    ensures var s' := CreateOpportunity(s, o, c, stage, status, now);
      if o in s.opps || (exists k | k in s.oppLinks :: k.parent == o) || stage !in s.stages || s.stages[stage].archived
      then s' == s
      else
        && s'.opps.Keys == s.opps.Keys + {o} && (forall x | x in s.opps :: s'.opps[x] == s.opps[x])
        && s'.opps[o].contact == c && s'.opps[o].stage == stage && s'.opps[o].pipeline == s.stages[stage].pipeline
        && (status.Some? ==> s'.opps[o].status == status.value)
        && (status.None? ==> (s'.opps[o].status.OppWon? <==> s.stages[stage].category.TerminalWon?))
        && (status.None? ==> (s'.opps[o].status.OppLost? <==> s.stages[stage].category.TerminalLost?))
        && (status.None? && !Terminal(s, stage) ==> s'.opps[o].status.OppOpen?)
        && s'.oppLinks == (if c.Some? then s.oppLinks[LinkKey(o, c.value, STAKEHOLDER) := Link(true, now)]
                           else s.oppLinks)
        && s'.accountLinks == s.accountLinks && OnlyLinksAndProfiles(s, s')
  {
    hide WriteProfile, ProfileOf, FirstOpportunity, CreateOpportunity, WithOpportunity, Terminal;
    CreatedAs(s, o, c, stage, status, now);
    if stage in s.stages {
      NewStatus(s, stage);
      if c.Some? {
        var row := NewRow(s, c, stage, status);
        WriteFrame(s, o, row, c.value, now, FirstOpportunity(ProfileOf(s, c.value), o));
      }
    }
  }

  function NewRow(s: Tabs, c: Option<Id>, stage: Id, status: Option<OppStatus>): (row: Opportunity)
    requires stage in s.stages
  {
    Opportunity(c, s.stages[stage].pipeline, stage,
                if status.Some? then status.value else StatusForStage(s.stages[stage].category, OppOpen))
  }

  lemma NewStatus(s: Tabs, stage: Id)
    requires stage in s.stages
    ensures var status := StatusForStage(s.stages[stage].category, OppOpen);
      && (status.OppWon? <==> s.stages[stage].category.TerminalWon?)
      && (status.OppLost? <==> s.stages[stage].category.TerminalLost?)
      && (!Terminal(s, stage) ==> status.OppOpen?)
  {
  }

  lemma CreatedAs(s: Tabs, o: Id, c: Option<Id>, stage: Id, status: Option<OppStatus>, now: int)
    ensures CreateOpportunity(s, o, c, stage, status, now) ==
      if o in s.opps || (exists k | k in s.oppLinks :: k.parent == o) || stage !in s.stages || s.stages[stage].archived
      then s
      else if c.None? then s.(opps := s.opps[o := NewRow(s, c, stage, status)])
      else WriteProfile(WithOpportunity(s, o, NewRow(s, c, stage, status), c.value, now), c.value,
                        FirstOpportunity(ProfileOf(s, c.value), o))
  {
    hide ProfileOf, StatusForStage;
  }

  lemma WriteFrame(s: Tabs, o: Id, row: Opportunity, c: Id, now: int, p: Profile)
    ensures var s' := WriteProfile(WithOpportunity(s, o, row, c, now), c, p);
      s' == s.(opps := s.opps[o := row], oppLinks := s.oppLinks[LinkKey(o, c, STAKEHOLDER) := Link(true, now)],
               profiles := s'.profiles, contexts := s'.contexts)
  {
    hide Projected;
  }

  /** Its contact's profile shows it unless it showed another; no other profile changes. */
  lemma CreatedCopy(s: Tabs, o: Id, c: Option<Id>, stage: Id, status: Option<OppStatus>, now: int)
    requires o !in s.opps && o in CreateOpportunity(s, o, c, stage, status, now).opps
    ensures var s' := CreateOpportunity(s, o, c, stage, status, now);
      && (forall d: Id | Some(d) != c :: ProfileOf(s', d) == ProfileOf(s, d))
      && (c.Some? ==> ProfileOf(s', c.value) == ProfileOf(s, c.value).(opportunity :=
                        Coalesce(ProfileOf(s, c.value).opportunity, Some(o))))
  {
    hide WriteProfile, ProfileOf;
    var s' := CreateOpportunity(s, o, c, stage, status, now);
    if c.Some? {
      CreateOpportunityShape(s, o, c.value, stage, status, now);
      var s1 := WithOpportunity(s, o, s'.opps[o], c.value, now);
      WriteOneProfile(s1, c.value, FirstOpportunity(ProfileOf(s, c.value), o));
      SameProfiles(s, s1);
    } else {
      SameProfiles(s, s');
    }
  }

  ghost predicate WroteOne(s: Tabs, s': Tabs, c: Id, p: Profile) {
    && OnlyProfiles(s, s') && ProfileOf(s', c) == p && forall d: Id | d != c :: ProfileOf(s', d) == ProfileOf(s, d)
  }

  lemma WriteOneProfile(s: Tabs, c: Id, p: Profile)
    ensures WroteOne(s, WriteProfile(s, c, p), c, p)
  {
    hide Projection;
  }

  lemma SameProfiles(s: Tabs, s': Tabs)
    requires s'.profiles == s.profiles
    ensures forall d: Id :: ProfileOf(s', d) == ProfileOf(s, d)
  {
  }

  /** A stage is added or changed in place, and nothing else is, exactly when its key and order stay unique in its
      pipeline and no open opportunity would be left in a stage newly archived. */
  lemma WrittenStage(s: Tabs, i: Id, key: string, order: int, category: Category, archived: bool)
    requires i in s.stages
    ensures var s' := UpdateStage(s, i, key, order, category, archived);
      var fits := forall j | j in s.stages && j != i && s.stages[j].pipeline == s.stages[i].pipeline ::
                    s.stages[j].key != key && s.stages[j].order != order;
      var strands := archived && !s.stages[i].archived
                     && exists o | o in s.opps :: s.opps[o].stage == i && s.opps[o].status.OppOpen?;
      if !fits || strands then s' == s
      else s' == s.(stages := s.stages[i := Stage(s.stages[i].pipeline, key, order, category, archived)])
  {
    assert HasOpen(s, i) <==> exists o | o in s.opps :: s.opps[o].stage == i && s.opps[o].status.OppOpen?;
  }

  /** A new account or stage is added as given, and nothing else is, exactly when no unique column is taken. */
  lemma CreatedAccount(s: Tabs, account: Id, org: Option<Id>)
    ensures CreateAccount(s, account, org) ==
      if account in s.accounts || (org.Some? && exists a | a in s.accounts :: s.accounts[a] == org) then s
      else s.(accounts := s.accounts[account := org])
  {
  }

  lemma CreatedStage(s: Tabs, i: Id, st: Stage)
    ensures var fits := forall j | j in s.stages && s.stages[j].pipeline == st.pipeline ::
                          s.stages[j].key != st.key && s.stages[j].order != st.order;
      CreateStage(s, i, st) == if i in s.stages || st.archived || !fits then s else s.(stages := s.stages[i := st])
  {
    assert i !in s.stages ==> (StageFits(s.stages, i, st) <==>
      forall j | j in s.stages && s.stages[j].pipeline == st.pipeline ::
        s.stages[j].key != st.key && s.stages[j].order != st.order);
  }

  /** An accepted profile write sets the five own columns, each copy only where a value is given, and nothing of any
      other contact. */
  lemma WrittenProfile(s: Tabs, c: Id, w: ProfileWrite)
    requires Accepts(s, w)
    ensures var s' := UpdateProfile(s, c, w);
      var p, p' := ProfileOf(s, c), ProfileOf(s', c);
      && p'.lifecycle == w.lifecycle && p'.health == w.health && p'.priority == w.priority && p'.owner == w.owner
      && (if w.account.Some? then p'.account == w.account.value else p'.account == p.account)
      && (if w.opportunity.Some? then p'.opportunity == w.opportunity.value else p'.opportunity == p.opportunity)
      && (if w.nextTask.Some? then p'.next.task == w.nextTask.value else p'.next.task == p.next.task)
      && (if w.nextAt.Some? then p'.next.at == w.nextAt.value else p'.next.at == p.next.at)
      && (if w.nextSummary.Some? then p'.next.summary == w.nextSummary.value else p'.next.summary == p.next.summary)
      && (forall d: Id | d != c :: ProfileOf(s', d) == ProfileOf(s, d)) && OnlyProfiles(s, s')
  {
    hide WriteProfile, Accepts;
    WriteOneProfile(s, c, Written(ProfileOf(s, c), w));
  }

  // ---- deleting a contact ----

  /** Deleting a contact removes its links, profile, context, facts and participants and leaves those of others. */
  lemma DeletedContact(s: Tabs, c: Id)
    ensures var s' := DeleteContact(s, c);
      && LinksDropped(s.accountLinks, s'.accountLinks, c) && LinksDropped(s.oppLinks, s'.oppLinks, c)
      && c !in s'.profiles && c !in s'.contexts
      && (forall d | d != c :: ProfileOf(s', d) == ProfileOf(s, d) && ContextOf(s', d) == ContextOf(s, d))
      && (forall f | f in s.facts ::
            if s.facts[f].contact == Some(c) then f !in s'.facts else f in s'.facts && s'.facts[f] == s.facts[f])
      && (forall k | k in s.participants ::
            if k.contact == Some(c) then k !in s'.participants
            else k in s'.participants && s'.participants[k] == s.participants[k])
      && s'.facts.Keys <= s.facts.Keys && s'.participants.Keys <= s.participants.Keys && s'.stages == s.stages
      && s'.opps.Keys == s.opps.Keys && s'.tasks.Keys == s.tasks.Keys && s'.activities.Keys == s.activities.Keys
  {
  }

  /** The columns naming the contact become null, and no other column changes. */
  lemma DeletedContactIsCleared(s: Tabs, c: Id)
    ensures var s' := DeleteContact(s, c);
      && (forall o | o in s.opps :: s'.opps[o] ==
            if s.opps[o].contact == Some(c) then s.opps[o].(contact := None) else s.opps[o])
      && (forall i | i in s.tasks :: s'.tasks[i] ==
            if s.tasks[i].contact == Some(c) then s.tasks[i].(contact := None) else s.tasks[i])
      && (forall a | a in s.activities :: s'.activities[a] ==
            if s.activities[a] == Some(c) then None else s.activities[a])
  {
    hide ParticipantsWithout, FactsWithout, AccountsWithout, RowsOf;
  }

  ghost predicate LinksDropped(t: Table, t': Table, c: Id) {
    && t'.Keys <= t.Keys
    && forall k | k in t :: if k.contact == c then k !in t' else k in t' && t'[k] == t[k]
  }

  // ---- the user's own context entries ----

  ghost predicate SameUserEntries(s: Tabs, s': Tabs) {
    forall c: Id :: ContextOf(s', c).user == ContextOf(s, c).user
  }

  lemma WriteKeepsUserEntries(s: Tabs, rows: map<Id, Profile>)
    ensures SameUserEntries(s, WriteProfiles(s, rows))
  {
  }

  lemma RefreshKeepsUserEntries(s: Tabs, copy: Copy, cs: set<Id>, me: Id, preferred: Option<Id>)
    ensures SameUserEntries(s, Refresh(s, copy, cs, me, preferred))
  {
    WriteKeepsUserEntries(s, Refreshed(s, copy, cs, me, preferred));
  }

  lemma RefreshNextKeepsUserEntries(s: Tabs, c: Id)
    ensures SameUserEntries(s, RefreshNext(s, c))
  {
    WriteKeepsUserEntries(s, map[c := ProfileOf(s, c).(next := NextFor(s.tasks, c))]);
  }

  lemma MergeProfilesKeepsUserEntries(s: Tabs, t: Id, src: Id)
    ensures SameUserEntries(s, MergeProfiles(s, t, src))
  {
    hide MergedProfile, WriteProfiles;
    var dropped := s.(profiles := s.profiles - {src});
    if src in s.profiles && t != src {
      var row := if t in s.profiles then MergedProfile(s.profiles[t], s.profiles[src]) else s.profiles[src];
      assert SameUserEntries(s, dropped);
      WriteKeepsUserEntries(dropped, map[t := row]);
    }
  }

  lemma MergeKeepsUserEntries(s: Tabs, t: Id, src: Id, now: int)
    ensures SameUserEntries(s, MergeData(s, t, src, now))
  {
    hide Refresh, RefreshNext, Merge, MergeParticipants, MergedOpps, TasksMoved, ActivitiesMoved, FactsMoved,
      MergeProfiles, ContextOf;
    var s1 := MergeProfiles(s, t, src);
    MergeProfilesKeepsUserEntries(s, t, src);
    var a := s1.(accountLinks := Merge(s1.accountLinks, src, t, now));
    SameContexts(s1, a);
    RefreshKeepsUserEntries(a, AccountCopy, {t}, t, None);
    var s2 := MergeAccountLinks(s1, t, src, now);
    var b := s2.(oppLinks := Merge(s2.oppLinks, src, t, now), opps := MergedOpps(s2.opps, s2.oppLinks, t, src));
    SameContexts(s2, b);
    RefreshKeepsUserEntries(b, OpportunityCopy, {t}, t, None);
    var s3 := MergeOppLinks(s2, t, src, now);
    var s4 := MergeAttachments(s3, t, src);
    SameContexts(s3, s4);
    RefreshKeepsUserEntries(s4, AccountCopy, {t}, t, None);
    var s5 := Refresh(s4, AccountCopy, {t}, t, None);
    RefreshKeepsUserEntries(s5, OpportunityCopy, {t}, t, None);
    RefreshNextKeepsUserEntries(Refresh(s5, OpportunityCopy, {t}, t, None), t);
  }

  lemma SameContexts(s: Tabs, s': Tabs)
    requires s'.contexts == s.contexts
    ensures SameUserEntries(s, s')
  {
  }

  /** The step deletes the contact, or merges it away. */
  predicate Removes(step: CrmStep, c: Id) {
    (step.StepDeleteContact? && step.contact == c) || (step.StepMergeContacts? && step.source == c)
  }

  lemma StepKeepsUserEntries(s: Tabs, step: CrmStep, c: Id)
    requires !Removes(step, c)
    ensures ContextOf(Apply(s, step), c).user == ContextOf(s, c).user
  {
    hide SetTask, LinkAccount, LinkOpportunity, CreateOpportunity, UpdateProfile, MergeData, CreateTask;
    match step
    case StepCreateTask(i, row) =>
      CreateTaskIsSet(s, i, row);
      SetTaskKeepsUserEntries(s, i, row);
    case StepCancelTask(i) => if i in s.tasks { SetTaskKeepsUserEntries(s, i, s.tasks[i].(status := Canceled)); }
    case StepCompleteTask(i) => if i in s.tasks { SetTaskKeepsUserEntries(s, i, s.tasks[i].(status := Done)); }
    case StepSnoozeTask(i, until) =>
      if i in s.tasks { SetTaskKeepsUserEntries(s, i, s.tasks[i].(status := Snoozed, due := Some(until))); }
    case StepCreateAccount(_, _) =>
    case StepLinkAccount(a, d, role, wanted, now) => LinkAccountKeepsUserEntries(s, a, d, role, wanted, now);
    case StepLinkOpportunity(o, d, role, wanted, now) => LinkOpportunityKeepsUserEntries(s, o, d, role, wanted, now);
    case StepUpdateProfile(d, w) => UpdateProfileKeepsUserEntries(s, d, w);
    case StepCreateStage(i, st) => CreateStageFrame(s, i, st);
    case StepUpdateStage(i, key, order, category, archived) => UpdateStageFrame(s, i, key, order, category, archived);
    case StepCreateOpportunity(o, d, stage, status, now) => CreateKeepsUserEntries(s, o, d, stage, status, now);
    case StepMoveOpportunity(o, stage) => MoveFrame(s, o, stage);
    case StepDeleteContact(d) => DeleteKeepsUserEntries(s, d, c);
    case StepMergeContacts(t, src, now) =>
      MergeKeepsUserEntries(s, t, src, now);
      DeleteKeepsUserEntries(MergeData(s, t, src, now), src, c);
  }

  lemma CreateTaskIsSet(s: Tabs, i: Id, row: Task)
    ensures CreateTask(s, i, row) == if i in s.tasks then s else SetTask(s, i, row)
  {
  }

  lemma DeleteKeepsUserEntries(s: Tabs, d: Id, c: Id)
    requires c != d
    ensures ContextOf(DeleteContact(s, d), c).user == ContextOf(s, c).user
  {
  }

  lemma UpdateProfileKeepsUserEntries(s: Tabs, c: Id, w: ProfileWrite)
    ensures SameUserEntries(s, UpdateProfile(s, c, w))
  {
    hide Written, Accepts, WriteProfiles;
    WriteKeepsUserEntries(s, map[c := Written(ProfileOf(s, c), w)]);
  }

  lemma SetTaskKeepsUserEntries(s: Tabs, i: Id, task: Task)
    ensures SameUserEntries(s, SetTask(s, i, task))
  {
    hide RefreshNext;
    if task.contact.Some? { RefreshNextKeepsUserEntries(s.(tasks := s.tasks[i := task]), task.contact.value); }
  }

  lemma LinkAccountKeepsUserEntries(s: Tabs, account: Id, c: Id, role: Id, wanted: Option<bool>, now: int)
    ensures SameUserEntries(s, LinkAccount(s, account, c, role, wanted, now))
  {
    hide Refresh, Upsert, Affected;
    var k := LinkKey(account, c, role);
    RefreshKeepsUserEntries(s.(accountLinks := Upsert(s.accountLinks, k, wanted, now)), AccountCopy,
                            Affected(s.accountLinks, k, wanted), c,
                            if NextPrimary(s.accountLinks, k, wanted) then Some(account) else None);
  }

  lemma LinkOpportunityKeepsUserEntries(s: Tabs, o: Id, c: Id, role: Id, wanted: Option<bool>, now: int)
    ensures SameUserEntries(s, LinkOpportunity(s, o, c, role, wanted, now))
  {
    if o in s.opps {
      var k := LinkKey(o, c, role);
      LinkOpportunityShape(s, o, c, role, wanted, now);
      RefreshKeepsUserEntries(Shown(s, k, wanted, now), OpportunityCopy, Touched(s, k, wanted, now), c,
                              if NextPrimary(s.oppLinks, k, wanted) then Some(o) else None);
    }
  }

  lemma CreateKeepsUserEntries(s: Tabs, o: Id, c: Option<Id>, stage: Id, status: Option<OppStatus>, now: int)
    ensures SameUserEntries(s, CreateOpportunity(s, o, c, stage, status, now))
  {
    hide Projection;
  }

  /** The entries a user set in a contact's context outlive every run that neither deletes the contact nor merges it
      away: the `crm.*` entries are the only ones the CRM writes. */
  lemma {:induction false} RunKeepsUserEntries(s: Tabs, steps: seq<CrmStep>, c: Id)
    requires forall i | 0 <= i < |steps| :: !Removes(steps[i], c)
    ensures ContextOf(Run(s, steps), c).user == ContextOf(s, c).user
    decreases |steps|
  {
    if steps != [] {
      StepKeepsUserEntries(s, steps[0], c);
      RunKeepsUserEntries(Apply(s, steps[0]), steps[1..], c);
    }
  }
}
