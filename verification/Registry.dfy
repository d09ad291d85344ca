/**
 Contacts, platform identities, policies and the event log, with the operations that own, move and
 delete identities. Every operation is one transaction: where the source throws, the registry is
 returned unchanged.
 */
module Registry {
  import opened Tables
  import opened Timeline

  /** The table-wide unique key of `platform_identities`; row ids are an injective hash of it. */
  datatype IdentityKey = IdentityKey(channel: string, instance: string, user: string)
  datatype Owner = Unowned | ByContact(contact: Id) | ByAgent(agent: Id)
  type Identities = map<IdentityKey, Owner>

  datatype Status = Allowed | Pending | Blocked | Discovered
  datatype Policy = Policy(status: Status, optOut: bool, interactions: nat,
                           lastInbound: Option<int>, lastOutbound: Option<int>)
  datatype Person = Person(name: Option<string>, phone: Option<string>, email: Option<string>)

  datatype Reg = Reg(contacts: map<Id, Person>, identities: Identities, policies: map<Id, Policy>,
                     events: Log, merges: seq<MergeRecord>)

  const EMPTY := Reg(map[], map[], map[], [], [])

  // Event types other than `identity.merged`
  const PROFILE_CREATED := Other(0)
  const PROFILE_DELETED := Other(1)
  const IDENTITY_LINKED := Other(2)
  const IDENTITY_UNLINKED := Other(3)
  const STATUS_CHANGED := Other(4)
  const TAG_ADDED := Other(5)
  const OPT_OUT_CHANGED := Other(6)

  /** What `generateId` promises: no table, event or audit row has seen the id. */
  ghost predicate Fresh(r: Reg, id: Id) {
    && id !in r.contacts && id !in r.policies
    && (forall m | m in r.merges :: m.source != id && m.target != id)
    && (forall e | e in r.events :: e.contact != id && (NamesSource(e) ==> e.kind.source.value != id))
    && (forall k | k in r.identities :: r.identities[k] != ByContact(id))
  }

  /** `platformIdentityOwnershipConflict` is null. */
  predicate CanOwn(ids: Identities, key: IdentityKey, owner: Owner) {
    key !in ids || ids[key].Unowned? || ids[key] == owner
  }

  /** The later of two optional SQL timestamps. */
  function Later(a: Option<int>, b: Option<int>): (r: Option<int>) {
    if a.None? then b else if b.None? then a else if b.value > a.value then b else a
  }

  function KeysOf(ids: Identities, owner: Owner): (r: set<IdentityKey>) {
    set k | k in ids && ids[k] == owner
  }

  // ---- single operations ----

  /** `createContact` and `saveDiscoveredContact` for an identity no contact resolves to. */
  ghost function CreateContact(r: Reg, id: Id, key: IdentityKey, person: Person, status: Status): (r': Reg) {
    if !Fresh(r, id) || !CanOwn(r.identities, key, ByContact(id)) then r
    else Reg(r.contacts[id := person], r.identities[key := ByContact(id)],
             r.policies[id := Policy(status, false, 0, None, None)],
             r.events + [ContactEvent(id, PROFILE_CREATED)], r.merges)
  }

  function LinkIdentity(r: Reg, c: Id, key: IdentityKey): (r': Reg) {
    if c !in r.contacts || !CanOwn(r.identities, key, ByContact(c)) then r
    else r.(identities := r.identities[key := ByContact(c)],
            events := r.events + [ContactEvent(c, IDENTITY_LINKED)])
  }

  function UpsertAgentIdentity(r: Reg, agent: Id, key: IdentityKey): (r': Reg) {
    if CanOwn(r.identities, key, ByAgent(agent)) then r.(identities := r.identities[key := ByAgent(agent)]) else r
  }

  function UnlinkIdentity(r: Reg, key: IdentityKey): (r': Reg) {
    if key !in r.identities || r.identities[key].ByAgent? then r
    else
      var owner := r.identities[key];
      r.(identities := r.identities - {key},
         events := if owner.ByContact? then r.events + [ContactEvent(owner.contact, IDENTITY_UNLINKED)] else r.events)
  }

  /** Status and opt-out writes; each leaves an event only if it changed the column. */
  function SetPolicy(r: Reg, c: Id, status: Status, optOut: bool): (r': Reg) {
    if c !in r.contacts || c !in r.policies then r
    else
      var p := r.policies[c];
      r.(policies := r.policies[c := p.(status := status, optOut := optOut)],
         events := r.events + (if p.status != status then [ContactEvent(c, STATUS_CHANGED)] else [])
                            + (if p.optOut != optOut then [ContactEvent(c, OPT_OUT_CHANGED)] else []))
  }

  function RecordInteraction(r: Reg, c: Id, inbound: bool, now: int): (r': Reg) {
    if c !in r.contacts || c !in r.policies then r
    else
      var p := r.policies[c].(interactions := r.policies[c].interactions + 1);
      r.(policies := r.policies[c := if inbound then p.(lastInbound := Some(now)) else p.(lastOutbound := Some(now))])
  }

  /** `createContactEvent`, whose caller chooses the type and payload. */
  function AddEvent(r: Reg, c: Id, kind: EventKind): (r': Reg) {
    if c !in r.contacts then r else r.(events := r.events + [ContactEvent(c, kind)])
  }

  /** `deleteContactProjection`. */
  function DeleteProjection(r: Reg, c: Id): (r': Reg) {
    r.(identities := r.identities - KeysOf(r.identities, ByContact(c)),
       policies := r.policies - {c}, contacts := r.contacts - {c})
  }

  function DeleteContact(r: Reg, c: Id): (r': Reg) {
    if c !in r.contacts then r
    else DeleteProjection(r.(events := r.events + [ContactEvent(c, PROFILE_DELETED)]), c)
  }

  /** Where `moveCanonicalPlatformIdentities` leaves the table: a source row whose key the target already
      owns is deleted. Keys are unique table-wide, so that needs source and target to be one contact. */
  function MoveIdentities(ids: Identities, s: Id, t: Id): (r: Identities) {
    map k | k in ids && !(ids[k] == ByContact(s) && s == t) ::
      if ids[k] == ByContact(s) then ByContact(t) else ids[k]
  }

  function MergedPerson(target: Person, source: Person): (r: Person) {
    target.(name := Coalesce(target.name, source.name), email := Coalesce(target.email, source.email))
  }

  function MergedPolicy(target: Policy, source: Option<Policy>): (r: Policy) {
    match source
    case None => target
    case Some(p) => target.(interactions := target.interactions + p.interactions,
                            lastInbound := Later(target.lastInbound, p.lastInbound),
                            lastOutbound := Later(target.lastOutbound, p.lastOutbound))
  }

  function Lookup<V>(m: map<Id, V>, k: Id): (r: Option<V>) {
    if k in m then Some(m[k]) else None
  }

  /** A merge before the source contact is deleted. */
  function Gathered(r: Reg, t: Id, s: Id): (r': Reg)
    requires t in r.contacts && s in r.contacts
  {
    r.(events := r.events + [ContactEvent(s, Merged(Some(s)))],
       identities := MoveIdentities(r.identities, s, t),
       contacts := r.contacts[t := MergedPerson(r.contacts[t], r.contacts[s])],
       policies := if t in r.policies then r.policies[t := MergedPolicy(r.policies[t], Lookup(r.policies, s))]
                   else r.policies)
  }

  /** `mergeContacts` on these tables. The source has no guard against `s == t`, and neither has this. */
  function MergeContacts(r: Reg, t: Id, s: Id): (r': Reg) {
    if t !in r.contacts || s !in r.contacts then r
    else
      var gone := DeleteProjection(Gathered(r, t, s), s);
      gone.(merges := gone.merges + [MergeRecord(s, t)],
            events := gone.events + [ContactEvent(t, Merged(Some(s)))])
  }

  // ---- inbound intake ----

  /** One inbound message. `resolved` is what the identity lookup found, `contactKey` the default key a new contact
      would own, `phone` the number that key holds if it is a phone, `mode` the intake mode (`None` is off), `scoped`
      says the channel is Slack. */
  datatype Message = Message(sender: IdentityKey, scoped: bool, resolved: Option<Id>, contactKey: IdentityKey,
                             phone: Option<string>, group: bool, mode: Option<Status>, name: Option<string>,
                             tagged: bool, newId: Id)

  predicate ShouldApply(policy: Option<Policy>, desired: Status) {
    match policy
    case None => true
    case Some(p) =>
      && !p.optOut
      && !p.status.Allowed? && !p.status.Blocked?
      && !(p.status.Pending? && desired.Discovered?)
      && p.status != desired
  }

  /** The contact the message belongs to, before any is created. */
  function InboundContact(r: Reg, m: Message): (c: Option<Id>) {
    if m.sender in r.identities && r.identities[m.sender].ByContact? && r.identities[m.sender].contact in r.contacts
    then Some(r.identities[m.sender].contact)
    else if !m.scoped && m.resolved.Some? && m.resolved.value in r.contacts then m.resolved
    else None
  }

  /** Status, identity and tag writes for a known contact; `r0` is the state a throw rolls back to. */
  function Intake(r0: Reg, r: Reg, m: Message, c: Id, desired: Status, created: bool): (r': Reg)
    requires c in r.contacts
  {
    var prior := Lookup(r.policies, c);
    var r1 :=
      if ShouldApply(prior, desired) then
        r.(policies := r.policies[c := if prior.Some? then prior.value.(status := desired)
                                       else Policy(desired, false, 0, None, None)],
           events := r.events + [ContactEvent(c, STATUS_CHANGED)])
      else r;
    if !CanOwn(r1.identities, m.sender, ByContact(c)) then r0
    else
      r1.(identities := r1.identities[m.sender := ByContact(c)],
          events := r1.events
                    + (if m.sender !in r1.identities then [ContactEvent(c, IDENTITY_LINKED)] else [])
                    + (if created && m.tagged then [ContactEvent(c, TAG_ADDED)] else []))
  }

  /** `upsertCanonicalContactRecord` with `coalesceDisplayName`. */
  function Named(r: Reg, c: Id, name: Option<string>): (r': Reg)
    requires c in r.contacts
  {
    r.(contacts := r.contacts[c := r.contacts[c].(name := Coalesce(r.contacts[c].name, name))])
  }

  /** The new contact; on a scoped channel it owns no default identity and takes no phone from it. */
  function WithContact(r: Reg, m: Message, desired: Status): (r': Reg) {
    Reg(r.contacts[m.newId := Person(m.name, if m.scoped then None else m.phone, None)],
        if m.scoped then r.identities else r.identities[m.contactKey := ByContact(m.newId)],
        r.policies[m.newId := Policy(desired, false, 0, None, None)],
        r.events + [ContactEvent(m.newId, PROFILE_CREATED)], r.merges)
  }

  /** `ensureContactFromInbound`. */
  ghost function Inbound(r: Reg, m: Message): (r': Reg) {
    if m.sender in r.identities && r.identities[m.sender].ByAgent? then r
    else if m.mode.None? || m.group then r
    else
      var desired := m.mode.value;
      match InboundContact(r, m)
      case Some(c) =>
        Intake(r, Named(r, c, m.name), m, c, desired, false)
      case None =>
        if !Fresh(r, m.newId) then r
        else if !m.scoped && !CanOwn(r.identities, m.contactKey, ByContact(m.newId)) then r
        else
          Intake(r, WithContact(r, m, desired), m, m.newId, desired, true)
  }

  // ---- steps ----

  datatype RegStep =
    | Create(id: Id, key: IdentityKey, person: Person, status: Status)
    | Receive(message: Message)
    | Link(contact: Id, key: IdentityKey)
    | UpsertAgent(agent: Id, key: IdentityKey)
    | Unlink(key: IdentityKey)
    | WritePolicy(contact: Id, newStatus: Status, optOut: bool)
    | Interact(contact: Id, inbound: bool, now: int)
    | Note(contact: Id, kind: EventKind)
    | Delete(contact: Id)
    | Merge(target: Id, source: Id)

  ghost function Apply(r: Reg, step: RegStep): (r': Reg) {
    match step
    case Create(id, key, person, status) => CreateContact(r, id, key, person, status)
    case Receive(m) => Inbound(r, m)
    case Link(c, key) => LinkIdentity(r, c, key)
    case UpsertAgent(a, key) => UpsertAgentIdentity(r, a, key)
    case Unlink(key) => UnlinkIdentity(r, key)
    case WritePolicy(c, status, optOut) => SetPolicy(r, c, status, optOut)
    case Interact(c, inbound, now) => RecordInteraction(r, c, inbound, now)
    case Note(c, kind) => AddEvent(r, c, kind)
    case Delete(c) => DeleteContact(r, c)
    case Merge(t, s) => MergeContacts(r, t, s)
  }

  ghost function Run(r: Reg, steps: seq<RegStep>): (r': Reg)
    decreases |steps|
  {
    if steps == [] then r else Run(Apply(r, steps[0]), steps[1..])
  }
}
