/** What each operation on the registry makes of the rows it names, and that it leaves every other row alone. */
module RegistryEffects {
  import opened Tables
  import opened Timeline
  import opened Registry

  /** Nothing but the event log may differ for any contact but `c` and any key outside `keys`. */
  ghost predicate Elsewhere(r: Reg, r': Reg, c: Id, keys: set<IdentityKey>) {
    && r'.merges == r.merges && r.events <= r'.events
    && r'.contacts - {c} == r.contacts - {c} && r'.policies - {c} == r.policies - {c}
    && r'.identities - keys == r.identities - keys
  }

  /** The events an operation appends, all about one contact. */
  function Logged(c: Id, kinds: seq<EventKind>): (log: Log)
    ensures |log| == |kinds| && forall i | 0 <= i < |kinds| :: log[i].contact == c && log[i].kind == kinds[i]
  {
    seq(|kinds|, i requires 0 <= i < |kinds| => ContactEvent(c, kinds[i]))
  }

  // ---- owners of a key ----

  /** No other owner holds the key. */
  predicate Free(r: Reg, key: IdentityKey, owner: Owner) {
    key !in r.identities || r.identities[key].Unowned? || r.identities[key] == owner
  }

  /** A created contact has the person and status given, no history, and owns the key; a key of another owner creates
      nothing. */
  lemma CreatedContact(r: Reg, id: Id, key: IdentityKey, person: Person, status: Status)
    requires Fresh(r, id)
    ensures var r' := CreateContact(r, id, key, person, status);
      if !Free(r, key, ByContact(id)) then r' == r
      else
        && id in r'.contacts && r'.contacts[id] == person
        && id in r'.policies && r'.policies[id].status == status && !r'.policies[id].optOut
        && r'.policies[id].interactions == 0 && r'.policies[id].lastInbound.None? && r'.policies[id].lastOutbound.None?
        && key in r'.identities && r'.identities[key] == ByContact(id)
        && r'.events == r.events + Logged(id, [PROFILE_CREATED]) && Elsewhere(r, r', id, {key})
  {
  }

  /** A linked key belongs to the contact; a missing contact or a key of another owner changes nothing. */
  lemma LinkedIdentity(r: Reg, c: Id, key: IdentityKey)
    ensures var r' := LinkIdentity(r, c, key);
      if c !in r.contacts || !Free(r, key, ByContact(c)) then r' == r
      else
        && key in r'.identities && r'.identities[key] == ByContact(c)
        && r'.contacts == r.contacts && r'.policies == r.policies
        && r'.events == r.events + Logged(c, [IDENTITY_LINKED]) && Elsewhere(r, r', c, {key})
  {
  }

  lemma UpsertedAgentIdentity(r: Reg, agent: Id, key: IdentityKey)
    ensures var r' := UpsertAgentIdentity(r, agent, key);
      if !Free(r, key, ByAgent(agent)) then r' == r
      else
        && key in r'.identities && r'.identities[key] == ByAgent(agent)
        && r'.contacts == r.contacts && r'.policies == r.policies && r'.events == r.events
        && Elsewhere(r, r', 0, {key})
  {
  }

  /** Unlinking frees the key of a contact, and that is told in the contact's log; an agent's key stays. */
  lemma UnlinkedIdentity(r: Reg, key: IdentityKey)
    ensures var r' := UnlinkIdentity(r, key);
      if key !in r.identities || r.identities[key].ByAgent? then r' == r
      else
        && key !in r'.identities && r'.contacts == r.contacts && r'.policies == r.policies
        && Elsewhere(r, r', 0, {key})
        && r'.events == if r.identities[key].Unowned? then r.events
                        else r.events + Logged(r.identities[key].contact, [IDENTITY_UNLINKED])
  {
  }

  // ---- policies ----

  /** A policy write sets status and opt-out and keeps the history; each change is logged. */
  lemma WrittenPolicy(r: Reg, c: Id, status: Status, optOut: bool)
    ensures var r' := SetPolicy(r, c, status, optOut);
      if c !in r.contacts || c !in r.policies then r' == r
      else
        var p, p' := r.policies[c], r'.policies[c];
        && c in r'.policies && p'.status == status && p'.optOut == optOut && p'.interactions == p.interactions
        && p'.lastInbound == p.lastInbound && p'.lastOutbound == p.lastOutbound
        && r'.contacts == r.contacts && r'.identities == r.identities && Elsewhere(r, r', c, {})
        && |r'.events| - |r.events| == (if status != p.status then 1 else 0) + (if optOut != p.optOut then 1 else 0)
        && (status != p.status ==> ContactEvent(c, STATUS_CHANGED) in r'.events[|r.events|..])
        && (optOut != p.optOut ==> ContactEvent(c, OPT_OUT_CHANGED) in r'.events[|r.events|..])
  {
    if c in r.contacts && c in r.policies {
      var more := SetPolicy(r, c, status, optOut).events[|r.events|..];
      var told := if status != r.policies[c].status then [ContactEvent(c, STATUS_CHANGED)] else [];
      assert optOut != r.policies[c].optOut ==> more == told + [ContactEvent(c, OPT_OUT_CHANGED)];
      assert optOut == r.policies[c].optOut ==> more == told;
    }
  }

  /** An interaction counts once, moves the time of its own direction to now and leaves the other time. */
  lemma RecordedInteraction(r: Reg, c: Id, inbound: bool, now: int)
    ensures var r' := RecordInteraction(r, c, inbound, now);
      if c !in r.contacts || c !in r.policies then r' == r
      else
        var p, p' := r.policies[c], r'.policies[c];
        && c in r'.policies && p'.interactions == p.interactions + 1
        && p'.lastInbound == (if inbound then Some(now) else p.lastInbound)
        && p'.lastOutbound == (if inbound then p.lastOutbound else Some(now))
        && p'.status == p.status && p'.optOut == p.optOut
        && r'.contacts == r.contacts && r'.identities == r.identities && r'.events == r.events
        && Elsewhere(r, r', c, {})
  {
  }

  /** Deleting a contact removes its person, policy and exactly its keys, and is told in its log. */
  lemma DeletedContact(r: Reg, c: Id)
    ensures var r' := DeleteContact(r, c);
      if c !in r.contacts then r' == r
      else
        && c !in r'.contacts && c !in r'.policies && r'.events == r.events + Logged(c, [PROFILE_DELETED])
        && (forall k :: k in r'.identities <==> k in r.identities && r.identities[k] != ByContact(c))
        && Elsewhere(r, r', c, set k | k in r.identities && r.identities[k] == ByContact(c))
  {
  }

  // ---- inbound intake ----

  /** Whose message it is: the live owner of the sender's key, else, on an unscoped channel, the contact the lookup
      found. */
  ghost predicate Belongs(r: Reg, m: Message, c: Id) {
    c in r.contacts
    && ((m.sender in r.identities && r.identities[m.sender] == ByContact(c))
        || (!m.scoped && m.resolved == Some(c)
            && !(m.sender in r.identities && r.identities[m.sender].ByContact?
                 && r.identities[m.sender].contact in r.contacts)))
  }

  predicate FromAgent(r: Reg, m: Message) { m.sender in r.identities && r.identities[m.sender].ByAgent? }

  /** Intake is off, the sender is an agent, or the message comes from a group. */
  predicate Ignored(r: Reg, m: Message) { FromAgent(r, m) || m.mode.None? || m.group }

  /** The keys a new contact takes: the sender's, and its default key unless the channel is scoped. */
  function TakenKeys(m: Message): (ks: set<IdentityKey>) {
    if m.scoped then {m.sender} else {m.sender, m.contactKey}
  }

  ghost predicate KeysFree(r: Reg, m: Message) {
    forall k | k in TakenKeys(m) :: k !in r.identities || r.identities[k].Unowned?
  }

  /** A message from a new sender creates exactly one contact, with the status of the intake mode and no history, which
      owns the taken keys; if a key is another's nothing is created. */
  lemma NewSender(r: Reg, m: Message)
    requires Fresh(r, m.newId) && !Ignored(r, m) && forall c :: !Belongs(r, m, c)
    ensures var r' := Inbound(r, m);
      if !KeysFree(r, m) then r' == r
      else
        var id := m.newId;
        && id in r'.contacts && r'.contacts[id] == Person(m.name, if m.scoped then None else m.phone, None)
        && id in r'.policies && r'.policies[id].status == m.mode.value && !r'.policies[id].optOut
        && r'.policies[id].interactions == 0 && r'.policies[id].lastInbound.None? && r'.policies[id].lastOutbound.None?
        && (forall k | k in TakenKeys(m) :: k in r'.identities && r'.identities[k] == ByContact(id))
        && Elsewhere(r, r', id, TakenKeys(m))
        && r'.events == r.events + Logged(id, [PROFILE_CREATED]
             + (if m.sender in r.identities || (!m.scoped && m.sender == m.contactKey) then [] else [IDENTITY_LINKED])
             + (if m.tagged then [TAG_ADDED] else []))
  {
    assert InboundContact(r, m).None? by {
      if InboundContact(r, m).Some? { assert Belongs(r, m, InboundContact(r, m).value); }
    }
    assert m.sender in TakenKeys(m) && (!m.scoped ==> m.contactKey in TakenKeys(m));
  }

  /** An ignored message changes nothing at all. */
  lemma IgnoredMessage(r: Reg, m: Message)
    requires Ignored(r, m)
    ensures Inbound(r, m) == r
  {
  }

  /** A message from a known contact gives it the sender's key, a name where it had none and the status it may climb to;
      if the key is another's it changes nothing. */
  lemma KnownSender(r: Reg, m: Message, c: Id)
    requires !Ignored(r, m) && Belongs(r, m, c)
    ensures var r' := Inbound(r, m);
      if !Free(r, m.sender, ByContact(c)) then r' == r
      else
        var climbs := c !in r.policies || Climbs(r.policies[c], m.mode.value);
        && c in r'.contacts && r'.contacts[c] == r.contacts[c].(name := r'.contacts[c].name)
        && r'.contacts[c].name == (if r.contacts[c].name.Some? then r.contacts[c].name else m.name)
        && c in r'.policies && r'.policies[c].status == (if climbs then m.mode.value else r.policies[c].status)
        && (c in r.policies ==> r'.policies[c] == r.policies[c].(status := r'.policies[c].status))
        && (c !in r.policies ==> r'.policies[c] == Policy(m.mode.value, false, 0, None, None))
        && m.sender in r'.identities && r'.identities[m.sender] == ByContact(c) && Elsewhere(r, r', c, {m.sender})
        && r'.events == r.events + Logged(c, (if climbs then [STATUS_CHANGED] else [])
             + (if m.sender in r.identities then [] else [IDENTITY_LINKED]))
  {
  }

  /** A status climbs unless the contact opted out, was allowed or blocked, or is pending already. */
  predicate Climbs(p: Policy, q: Status) {
    !p.optOut && p.status != q && (p.status.Discovered? || (p.status.Pending? && !q.Discovered?))
  }

  // ---- who is allowed ----

  predicate IsAllowed(r: Reg, c: Id) { c in r.policies && r.policies[c].status.Allowed? }

  /** The steps that ask for a contact to be allowed. */
  predicate Grants(step: RegStep) {
    match step
    case Create(_, _, _, status) => status.Allowed?
    case WritePolicy(_, status, _) => status.Allowed?
    case Receive(m) => m.mode == Some(Allowed)
    case _ => false
  }

  lemma StepAllowsNobody(r: Reg, step: RegStep, c: Id)
    requires !Grants(step) && IsAllowed(Apply(r, step), c)
    ensures IsAllowed(r, c)
  {
    match step
    case Receive(m) =>
      hide CanOwn, Fresh, Named;
      if m.mode.Some? && InboundContact(r, m).Some? { NamedKeepsPolicies(r, InboundContact(r, m).value, m.name); }
    case Merge(t, s) => hide MoveIdentities, MergedPerson, Later;
    case _ => hide Inbound, MergeContacts, Fresh, CanOwn;
  }

  lemma NamedKeepsPolicies(r: Reg, c: Id, name: Option<string>)
    requires c in r.contacts
    ensures Named(r, c, name).policies == r.policies
  {
  }

  /** In every run nobody becomes allowed unless a step asked for it: strangers stay pending or discovered as long as
      the intake mode says so, whatever else happens to them. */
  lemma {:induction false} AllowedOnlyByGrant(r: Reg, steps: seq<RegStep>, c: Id)
    requires IsAllowed(Run(r, steps), c) && forall i | 0 <= i < |steps| :: !Grants(steps[i])
    ensures IsAllowed(r, c)
    decreases |steps|
  {
    if steps != [] {
      AllowedOnlyByGrant(Apply(r, steps[0]), steps[1..], c);
      StepAllowsNobody(r, steps[0], c);
    }
  }
}
