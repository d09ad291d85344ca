/**
 The CRM tables and their operations. Several columns are copies: a profile's primary account and
 opportunity, its next action, an opportunity's primary contact, and the `crm.*` context entries.
 Each operation is one transaction; where the source throws, the tables are returned unchanged.
 */
module Crm {
  import opened Tables
  import opened CrmLinks

  datatype Priority = Low | Normal | High | Urgent

  datatype Next = Next(task: Option<Id>, at: Option<int>, summary: Option<string>)
  const NO_NEXT := Next(None, None, None)

  datatype Profile = Profile(lifecycle: nat, health: nat, priority: Priority, owner: Option<Id>,
                             account: Option<Id>, opportunity: Option<Id>, next: Next)
  /** Column defaults of `crm_contact_profiles`; lifecycle and health 0 stand for `unknown`. */
  const FRESH_PROFILE := Profile(0, 0, Normal, None, None, None, NO_NEXT)

  datatype TaskStatus = Open | Scheduled | Waiting | Done | Canceled | Snoozed
  datatype Task = Task(contact: Option<Id>, title: string, status: TaskStatus, priority: Priority, due: Option<int>)

  datatype OppStatus = OppOpen | OppWon | OppLost | OppPaused | OppArchived
  datatype Opportunity = Opportunity(contact: Option<Id>, pipeline: Id, stage: Id, status: OppStatus)

  datatype Category = NewStage | ActiveStage | WaitingStage | TerminalWon | TerminalLost
  datatype Stage = Stage(pipeline: Id, key: string, order: int, category: Category, archived: bool)

  /** The seven `crm.*` entries of a contact's context; a JSON null is `None`. They are always upserted together. */
  datatype CrmEntries = CrmEntries(lifecycle: nat, health: nat, priority: Priority, owner: Option<Id>,
                                   primaryAccount: Option<Id>, primaryOpportunity: Option<Id>, nextAction: Option<Next>)
  datatype Context = Context(crm: Option<CrmEntries>, user: map<string, string>)
  const EMPTY_CONTEXT := Context(None, map[])

  datatype FactEntity = OfContact(id: Id) | OfOther(kind: nat, other: Id)
  datatype Fact = Fact(entity: FactEntity, contact: Option<Id>)
  datatype ParticipantKey = ParticipantKey(activity: Id, contact: Option<Id>, account: Option<Id>, role: Id)

  /** `accounts` holds each account's organization contact. */
  datatype Tabs = Tabs(accountLinks: Table, oppLinks: Table, opps: map<Id, Opportunity>, stages: map<Id, Stage>,
                       profiles: map<Id, Profile>, contexts: map<Id, Context>, tasks: map<Id, Task>,
                       activities: map<Id, Option<Id>>, facts: map<Id, Fact>, participants: map<ParticipantKey, int>,
                       accounts: map<Id, Option<Id>>)

  // ---- the context projection of a profile ----

  function Projection(p: Profile): (r: CrmEntries) {
    CrmEntries(p.lifecycle, p.health, p.priority, p.owner, p.account, p.opportunity,
               if p.next == NO_NEXT then None else Some(p.next))
  }

  function ContextAt(contexts: map<Id, Context>, c: Id): (r: Context) {
    if c in contexts then contexts[c] else EMPTY_CONTEXT
  }

  function ContextOf(s: Tabs, c: Id): (r: Context) {
    ContextAt(s.contexts, c)
  }

  /** The context rows after projecting the given profiles. */
  function Projected(contexts: map<Id, Context>, rows: map<Id, Profile>): (r: map<Id, Context>) {
    contexts + map c | c in rows :: ContextAt(contexts, c).(crm := Some(Projection(rows[c])))
  }

  function ProfileOf(s: Tabs, c: Id): (p: Profile) {
    if c in s.profiles then s.profiles[c] else FRESH_PROFILE
  }

  /** Write profile rows and project each onto its contact's context entries. */
  function WriteProfiles(s: Tabs, rows: map<Id, Profile>): (s': Tabs) {
    s.(profiles := s.profiles + rows,
       contexts := Projected(s.contexts, rows))
  }

  function WriteProfile(s: Tabs, c: Id, p: Profile): (s': Tabs) {
    WriteProfiles(s, map[c := p])
  }

  // ---- refreshing the copies ----

  /** Which copy of the profile a link table feeds. */
  datatype Copy = AccountCopy | OpportunityCopy

  function LinksFor(s: Tabs, copy: Copy): (t: Table) {
    if copy.AccountCopy? then s.accountLinks else s.oppLinks
  }

  function GetCopy(p: Profile, copy: Copy): (v: Option<Id>) {
    if copy.AccountCopy? then p.account else p.opportunity
  }

  function SetCopy(p: Profile, copy: Copy, v: Option<Id>): (p': Profile) {
    if copy.AccountCopy? then p.(account := v) else p.(opportunity := v)
  }

  /** The profile rows `refreshCrmContactPrimaryAccount` / `...PrimaryOpportunity` write for the contacts in
      `cs`: a row is inserted only when there is something to store. Only `me` has a preferred parent. */
  ghost function Refreshed(s: Tabs, copy: Copy, cs: set<Id>, me: Id, preferred: Option<Id>): (rows: map<Id, Profile>) {
    map c | c in cs && (c in s.profiles || Choice(s, copy, c, me, preferred).Some?) ::
      SetCopy(ProfileOf(s, c), copy, Choice(s, copy, c, me, preferred))
  }

  ghost function Choice(s: Tabs, copy: Copy, c: Id, me: Id, preferred: Option<Id>): (v: Option<Id>) {
    Pick(LinksFor(s, copy), Parent, c, if c == me then preferred else None)
  }

  ghost function Refresh(s: Tabs, copy: Copy, cs: set<Id>, me: Id, preferred: Option<Id>): (s': Tabs) {
    WriteProfiles(s, Refreshed(s, copy, cs, me, preferred))
  }

  // ---- next action ----

  predicate IsOpenTask(t: Task) {
    !t.status.Done? && !t.status.Canceled?
  }

  function Urgency(p: Priority): (r: nat) {
    match p case Urgent => 0 case High => 1 case Normal => 2 case Low => 3
  }

  /** ORDER BY priority rank, due_at IS NULL, due_at, task_id. */
  predicate TaskNotAfter(tasks: map<Id, Task>, a: Id, b: Id) {
    if a !in tasks || b !in tasks then a in tasks || (b !in tasks && a <= b)
    else
      var x, y := tasks[a], tasks[b];
      if Urgency(x.priority) != Urgency(y.priority) then Urgency(x.priority) < Urgency(y.priority)
      else if x.due != y.due then x.due.Some? && (y.due.Some? ==> x.due.value < y.due.value)
      else a <= b
  }

  function OpenTasksOf(tasks: map<Id, Task>, c: Id): (r: set<Id>) {
    set i | i in tasks && tasks[i].contact == Some(c) && IsOpenTask(tasks[i])
  }

  lemma TaskOrderIsTotal(tasks: map<Id, Task>)
    ensures TotalPreorder((a, b) => TaskNotAfter(tasks, a, b))
  {
  }

  /** The least open task of the contact. */
  ghost function FirstTask(tasks: map<Id, Task>, c: Id): (i: Id)
    requires OpenTasksOf(tasks, c) != {}
    ensures IsLeast((a, b) => TaskNotAfter(tasks, a, b), OpenTasksOf(tasks, c), i)
  {
    TaskOrderIsTotal(tasks);
    HasLeast((a, b) => TaskNotAfter(tasks, a, b), OpenTasksOf(tasks, c));
    var i :| IsLeast((a, b) => TaskNotAfter(tasks, a, b), OpenTasksOf(tasks, c), i); i
  }

  function NextFromTask(i: Id, t: Task): (n: Next) {
    Next(Some(i), t.due, Some(t.title))
  }

  ghost function NextFor(tasks: map<Id, Task>, c: Id): (n: Next) {
    if OpenTasksOf(tasks, c) == {} then NO_NEXT
    else NextFromTask(FirstTask(tasks, c), tasks[FirstTask(tasks, c)])
  }

  /** `refreshCrmContactNextAction`: inserts a profile row when there is none. */
  ghost function RefreshNext(s: Tabs, c: Id): (s': Tabs) {
    WriteProfile(s, c, ProfileOf(s, c).(next := NextFor(s.tasks, c)))
  }

  ghost function RefreshNextOpt(s: Tabs, c: Option<Id>): (s': Tabs) {
    if c.Some? then RefreshNext(s, c.value) else s
  }

  // ---- tasks ----

  ghost function CreateTask(s: Tabs, i: Id, task: Task): (s': Tabs) {
    if i in s.tasks then s
    else RefreshNextOpt(s.(tasks := s.tasks[i := task]), task.contact)
  }

  ghost function SetTask(s: Tabs, i: Id, task: Task): (s': Tabs) {
    RefreshNextOpt(s.(tasks := s.tasks[i := task]), task.contact)
  }

  ghost function CancelTask(s: Tabs, i: Id): (s': Tabs) {
    if i !in s.tasks || s.tasks[i].status.Canceled? then s else SetTask(s, i, s.tasks[i].(status := Canceled))
  }

  ghost function CompleteTask(s: Tabs, i: Id): (s': Tabs) {
    if i !in s.tasks || s.tasks[i].status.Done? then s else SetTask(s, i, s.tasks[i].(status := Done))
  }

  ghost function SnoozeTask(s: Tabs, i: Id, until: int): (s': Tabs) {
    if i !in s.tasks || !IsOpenTask(s.tasks[i]) then s
    else SetTask(s, i, s.tasks[i].(status := Snoozed, due := Some(until)))
  }

  // ---- links ----

  /** `createCrmAccount`; an organization contact belongs to at most one account. */
  function CreateAccount(s: Tabs, account: Id, org: Option<Id>): (s': Tabs) {
    if account in s.accounts || (org.Some? && org in s.accounts.Values) then s
    else s.(accounts := s.accounts[account := org])
  }

  ghost function LinkAccount(s: Tabs, account: Id, c: Id, role: Id, wanted: Option<bool>, now: int): (s': Tabs) {
    if account in s.accounts then WithAccountLink(s, account, c, role, wanted, now) else s
  }

  ghost function WithAccountLink(s: Tabs, account: Id, c: Id, role: Id, wanted: Option<bool>, now: int): (s': Tabs) {
    var k := LinkKey(account, c, role);
    Refresh(s.(accountLinks := Upsert(s.accountLinks, k, wanted, now)), AccountCopy,
            Affected(s.accountLinks, k, wanted), c,
            if NextPrimary(s.accountLinks, k, wanted) then Some(account) else None)
  }

  /** `refreshCrmOpportunityPrimaryContact`. */
  ghost function RefreshPrimaryContact(s: Tabs, o: Id, preferred: Option<Id>): (s': Tabs) {
    if o !in s.opps then s
    else s.(opps := s.opps[o := s.opps[o].(contact := Pick(s.oppLinks, Contact, o, preferred))])
  }

  ghost function LinkOpportunity(s: Tabs, o: Id, c: Id, role: Id, wanted: Option<bool>, now: int): (s': Tabs) {
    if o !in s.opps then s
    else
      var k := LinkKey(o, c, role);
      var primary := NextPrimary(s.oppLinks, k, wanted);
      var linked := s.(oppLinks := Upsert(s.oppLinks, k, wanted, now));
      var demoted := !primary && IsPrimary(s.oppLinks, k);
      var shown := if primary then RefreshPrimaryContact(linked, o, Some(c))
                   else if demoted then RefreshPrimaryContact(linked, o, None) else linked;
      var extra := if demoted && shown.opps[o].contact.Some? then {shown.opps[o].contact.value} else {};
      Refresh(shown, OpportunityCopy, Affected(s.oppLinks, k, wanted) + extra, c, if primary then Some(o) else None)
  }

  // ---- profiles ----

  /** The columns of a profile write; the copies are written only where a value is given. */
  datatype ProfileWrite = ProfileWrite(lifecycle: nat, health: nat, priority: Priority, owner: Option<Id>,
                                       account: Option<Option<Id>>, opportunity: Option<Option<Id>>,
                                       nextTask: Option<Option<Id>>, nextAt: Option<Option<int>>,
                                       nextSummary: Option<Option<string>>)

  function Given<T>(w: Option<T>, kept: T): (v: T) {
    if w.Some? then w.value else kept
  }

  function Written(p: Profile, w: ProfileWrite): (p': Profile) {
    Profile(w.lifecycle, w.health, w.priority, w.owner, Given(w.account, p.account),
            Given(w.opportunity, p.opportunity),
            Next(Given(w.nextTask, p.next.task), Given(w.nextAt, p.next.at), Given(w.nextSummary, p.next.summary)))
  }

  /** Rows a write names must exist. */
  predicate Accepts(s: Tabs, w: ProfileWrite) {
    && (w.account.Some? && w.account.value.Some? ==> w.account.value.value in s.accounts)
    && (w.opportunity.Some? && w.opportunity.value.Some? ==> w.opportunity.value.value in s.opps)
    && (w.nextTask.Some? && w.nextTask.value.Some? ==> w.nextTask.value.value in s.tasks)
  }

  /** `updateCrmContactProfile`. */
  function UpdateProfile(s: Tabs, c: Id, w: ProfileWrite): (s': Tabs) {
    if Accepts(s, w) then WriteProfile(s, c, Written(ProfileOf(s, c), w)) else s
  }

  // ---- pipelines ----

  /** UNIQUE(pipeline_id, key) and UNIQUE(pipeline_id, sort_order). */
  predicate StageFits(stages: map<Id, Stage>, i: Id, st: Stage) {
    forall j | j in stages && j != i && stages[j].pipeline == st.pipeline ::
      stages[j].key != st.key && stages[j].order != st.order
  }

  function CreateStage(s: Tabs, i: Id, st: Stage): (s': Tabs) {
    if i in s.stages || st.archived || !StageFits(s.stages, i, st) then s else s.(stages := s.stages[i := st])
  }

  predicate OpenIn(s: Tabs, o: Id, stage: Id) {
    o in s.opps && s.opps[o].stage == stage && s.opps[o].status.OppOpen?
  }

  predicate HasOpen(s: Tabs, stage: Id) { exists o | o in s.opps :: OpenIn(s, o, stage) }

  /** `updateCrmPipelineStage`: key, order, category and status may change, the pipeline may not. A stage with
      open opportunities cannot become archived. */
  function UpdateStage(s: Tabs, i: Id, key: string, order: int, category: Category, archived: bool): (s': Tabs) {
    if i !in s.stages then s
    else
      var st := s.stages[i].(key := key, order := order, category := category, archived := archived);
      if !StageFits(s.stages, i, st) then s
      else if archived && !s.stages[i].archived && HasOpen(s, i) then s
      else s.(stages := s.stages[i := st])
  }

  function StatusForStage(category: Category, current: OppStatus): (r: OppStatus) {
    match category
    case TerminalWon => OppWon
    case TerminalLost => OppLost
    case _ => if current.OppWon? || current.OppLost? then OppOpen else current
  }

  const STAKEHOLDER: Id := 0

  /** `createCrmOpportunity` in a stage `resolveCrmStage` found, which is never archived. */
  function CreateOpportunity(s: Tabs, o: Id, c: Option<Id>, stage: Id, status: Option<OppStatus>,
      now: int): (s': Tabs) {
    if o in s.opps || (exists k | k in s.oppLinks :: k.parent == o) || stage !in s.stages || s.stages[stage].archived
    then s
    else
      var st := s.stages[stage];
      var row := Opportunity(c, st.pipeline, stage,
                             if status.Some? then status.value else StatusForStage(st.category, OppOpen));
      var s1 := s.(opps := s.opps[o := row]);
      if c.None? then s1
      else
        var p := ProfileOf(s, c.value);
        WriteProfile(s1.(oppLinks := s.oppLinks[LinkKey(o, c.value, STAKEHOLDER) := Link(true, now)]), c.value,
                     p.(opportunity := if p.opportunity.Some? then p.opportunity else Some(o)))
  }

  /** `moveCrmOpportunityStage` to a stage of the opportunity's own pipeline. */
  function MoveOpportunity(s: Tabs, o: Id, stage: Id): (s': Tabs) {
    if o !in s.opps || stage !in s.stages || s.stages[stage].archived
       || s.stages[stage].pipeline != s.opps[o].pipeline
    then s
    else s.(opps := s.opps[o := s.opps[o].(stage := stage,
              status := StatusForStage(s.stages[stage].category, s.opps[o].status))])
  }

  // ---- deleting and merging contacts ----

  function Without(c: Id, v: Option<Id>): (r: Option<Id>) {
    if v == Some(c) then None else v
  }

  function OppsWithout(opps: map<Id, Opportunity>, c: Id): (r: map<Id, Opportunity>) {
    map o | o in opps :: opps[o].(contact := Without(c, opps[o].contact))
  }

  function TasksWithout(tasks: map<Id, Task>, c: Id): (r: map<Id, Task>) {
    map i | i in tasks :: tasks[i].(contact := Without(c, tasks[i].contact))
  }

  function ActivitiesWithout(activities: map<Id, Option<Id>>, c: Id): (r: map<Id, Option<Id>>) {
    map a | a in activities :: Without(c, activities[a])
  }

  function FactsWithout(facts: map<Id, Fact>, c: Id): (r: map<Id, Fact>) {
    map f | f in facts && facts[f].contact != Some(c) :: facts[f]
  }

  function ParticipantsWithout(ps: map<ParticipantKey, int>, c: Id): (r: map<ParticipantKey, int>) {
    map k | k in ps && k.contact != Some(c) :: ps[k]
  }

  function AccountsWithout(accounts: map<Id, Option<Id>>, c: Id): (r: map<Id, Option<Id>>) {
    map a | a in accounts :: Without(c, accounts[a])
  }

  /** `deleteContactProjection` with the foreign keys' ON DELETE CASCADE and SET NULL actions. */
  function DeleteContact(s: Tabs, c: Id): (s': Tabs) {
    Tabs(s.accountLinks - RowsOf(s.accountLinks, c), s.oppLinks - RowsOf(s.oppLinks, c), OppsWithout(s.opps, c),
         s.stages, s.profiles - {c}, s.contexts - {c}, TasksWithout(s.tasks, c), ActivitiesWithout(s.activities, c),
         FactsWithout(s.facts, c), ParticipantsWithout(s.participants, c), AccountsWithout(s.accounts, c))
  }

  function Moved(s: Id, t: Id, v: Option<Id>): (r: Option<Id>) {
    if v == Some(s) then Some(t) else v
  }

  function MergedProfile(target: Profile, source: Profile): (p: Profile) {
    Profile(if target.lifecycle == 0 then source.lifecycle else target.lifecycle,
            if target.health == 0 then source.health else target.health,
            if Urgency(source.priority) < Urgency(target.priority) then source.priority else target.priority,
            Coalesce(target.owner, source.owner), Coalesce(target.account, source.account),
            Coalesce(target.opportunity, source.opportunity),
            Next(Coalesce(target.next.task, source.next.task), Coalesce(target.next.at, source.next.at),
                 Coalesce(target.next.summary, source.next.summary)))
  }

  /** A contact merged into itself is updated with its own row, which is then deleted. */
  function MergeProfiles(s: Tabs, t: Id, src: Id): (s': Tabs) {
    if src !in s.profiles then s
    else if t == src then s.(profiles := s.profiles - {src})
    else
      var p := if t in s.profiles then MergedProfile(s.profiles[t], s.profiles[src]) else s.profiles[src];
      WriteProfile(s.(profiles := s.profiles - {src}), t, p)
  }

  ghost function MergeAccountLinks(s: Tabs, t: Id, src: Id, now: int): (s': Tabs) {
    Refresh(s.(accountLinks := Merge(s.accountLinks, src, t, now)), AccountCopy, {t}, t, None)
  }

  predicate HadPrimary(links: Table, o: Id, c: Id) {
    exists k | k in links :: k.parent == o && k.contact == c && links[k].primary
  }

  /** Each moved primary row refreshes its opportunity in favour of the target, whose row is now primary; after a merge
      into itself the contact has no row left to prefer. */
  ghost function MergedOpps(opps: map<Id, Opportunity>, links: Table, t: Id, src: Id): (r: map<Id, Opportunity>) {
    map o | o in opps :: opps[o].(contact :=
      if !HadPrimary(links, o, src) then Moved(src, t, opps[o].contact)
      else if t == src then Pick(links - RowsOf(links, t), Contact, o, Some(t))
      else Some(t))
  }

  function OppsMoved(opps: map<Id, Opportunity>, t: Id, src: Id): (r: map<Id, Opportunity>) {
    map o | o in opps :: opps[o].(contact := Moved(src, t, opps[o].contact))
  }

  ghost function MergeOppLinks(s: Tabs, t: Id, src: Id, now: int): (s': Tabs) {
    Refresh(s.(oppLinks := Merge(s.oppLinks, src, t, now), opps := MergedOpps(s.opps, s.oppLinks, t, src)),
            OpportunityCopy, {t}, t, None)
  }

  function ParticipantsOf(ps: map<ParticipantKey, int>, c: Id): (r: set<ParticipantKey>) {
    set k | k in ps && k.contact == Some(c)
  }

  /** A duplicate participant keeps the higher confidence. */
  function ParticipantFolding(src: Id, t: Id): (r: Rekeying<ParticipantKey, int>) {
    Rekeying((k: ParticipantKey) => k.(contact := Some(t)), (k: ParticipantKey) => k.(contact := Some(src)),
             (existing: Option<int>, row: int) =>
               if existing.Some? && existing.value > row then existing.value else row)
  }

  lemma ParticipantsMovable(ps: map<ParticipantKey, int>, src: Id, t: Id)
    requires t != src
    ensures Movable(ParticipantFolding(src, t), ParticipantsOf(ps, src))
  {
  }

  lemma OwnParticipantsFixed(ps: map<ParticipantKey, int>, c: Id)
    ensures Fixed(ParticipantFolding(c, c), ParticipantsOf(ps, c))
  {
  }

  ghost function MergeParticipants(ps: map<ParticipantKey, int>, t: Id, src: Id): (r: map<ParticipantKey, int>) {
    if t == src then ps - ParticipantsOf(ps, src)
    else
      ParticipantsMovable(ps, src, t);
      RekeyRows(ps, ParticipantsOf(ps, src), ParticipantFolding(src, t))
  }

  function MergedFact(f: Fact, t: Id, src: Id): (r: Fact) {
    if f.contact == Some(src) || f.entity == OfContact(src) then
      Fact(if f.entity == OfContact(src) then OfContact(t) else f.entity, Some(t))
    else f
  }

  function TasksMoved(tasks: map<Id, Task>, t: Id, src: Id): (r: map<Id, Task>) {
    map i | i in tasks :: tasks[i].(contact := Moved(src, t, tasks[i].contact))
  }

  function ActivitiesMoved(activities: map<Id, Option<Id>>, t: Id, src: Id): (r: map<Id, Option<Id>>) {
    map a | a in activities :: Moved(src, t, activities[a])
  }

  function FactsMoved(facts: map<Id, Fact>, t: Id, src: Id): (r: map<Id, Fact>) {
    map f | f in facts :: MergedFact(facts[f], t, src)
  }

  /** Tasks, activities, facts and participants change hands. */
  ghost function MergeAttachments(s: Tabs, t: Id, src: Id): (s': Tabs) {
    s.(participants := MergeParticipants(s.participants, t, src),
       tasks := TasksMoved(s.tasks, t, src),
       activities := ActivitiesMoved(s.activities, t, src),
       facts := FactsMoved(s.facts, t, src))
  }

  /** `mergeCrmContactData`. */
  ghost function MergeData(s: Tabs, t: Id, src: Id, now: int): (s': Tabs) {
    var s1 := MergeProfiles(s, t, src);
    var s2 := MergeAccountLinks(s1, t, src, now);
    var s3 := MergeOppLinks(s2, t, src, now);
    var s4 := MergeAttachments(s3, t, src);
    RefreshNext(Refresh(Refresh(s4, AccountCopy, {t}, t, None), OpportunityCopy, {t}, t, None), t)
  }

  /** `mergeContacts` on these tables: re-attach everything, then delete the source contact. */
  ghost function MergeContacts(s: Tabs, t: Id, src: Id, now: int): (s': Tabs) {
    DeleteContact(MergeData(s, t, src, now), src)
  }

  // ---- steps ----

  datatype CrmStep =
    | StepCreateTask(task: Id, row: Task)
    | StepCancelTask(task: Id)
    | StepCompleteTask(task: Id)
    | StepSnoozeTask(task: Id, until: int)
    | StepCreateAccount(account: Id, org: Option<Id>)
    | StepLinkAccount(account: Id, contact: Id, role: Id, wanted: Option<bool>, now: int)
    | StepLinkOpportunity(opp: Id, contact: Id, role: Id, wanted: Option<bool>, now: int)
    | StepUpdateProfile(contact: Id, write: ProfileWrite)
    | StepCreateStage(stage: Id, stageRow: Stage)
    | StepUpdateStage(stage: Id, key: string, order: int, category: Category, archived: bool)
    | StepCreateOpportunity(opp: Id, primary: Option<Id>, stage: Id, status: Option<OppStatus>, now: int)
    | StepMoveOpportunity(opp: Id, stage: Id)
    | StepDeleteContact(contact: Id)
    | StepMergeContacts(target: Id, source: Id, now: int)

  ghost function Apply(s: Tabs, step: CrmStep): (s': Tabs) {
    match step
    case StepCreateTask(i, row) => CreateTask(s, i, row)
    case StepCancelTask(i) => CancelTask(s, i)
    case StepCompleteTask(i) => CompleteTask(s, i)
    case StepSnoozeTask(i, until) => SnoozeTask(s, i, until)
    case StepCreateAccount(a, org) => CreateAccount(s, a, org)
    case StepLinkAccount(a, c, role, wanted, now) => LinkAccount(s, a, c, role, wanted, now)
    case StepLinkOpportunity(o, c, role, wanted, now) => LinkOpportunity(s, o, c, role, wanted, now)
    case StepUpdateProfile(c, w) => UpdateProfile(s, c, w)
    case StepCreateStage(i, st) => CreateStage(s, i, st)
    case StepUpdateStage(i, key, order, category, archived) => UpdateStage(s, i, key, order, category, archived)
    case StepCreateOpportunity(o, c, stage, status, now) => CreateOpportunity(s, o, c, stage, status, now)
    case StepMoveOpportunity(o, stage) => MoveOpportunity(s, o, stage)
    case StepDeleteContact(c) => DeleteContact(s, c)
    case StepMergeContacts(t, src, now) => MergeContacts(s, t, src, now)
  }

  ghost function Run(s: Tabs, steps: seq<CrmStep>): (s': Tabs)
    decreases |steps|
  {
    if steps == [] then s else Run(Apply(s, steps[0]), steps[1..])
  }
}
