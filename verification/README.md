# Ravi, modelled and proved

A Dafny 4.11 model of five stateful parts of Ravi, each of which keeps an index, a cache or a buffer that must agree
with something simpler over every run. `dafny verify dfyconfig.toml` checks everything.

| part | files |
|---|---|
| contact identity graph, event log and CRM projections | `Tables`, `Timeline`, `Registry`, `RegistryProofs`, `RegistryEffects`, `CrmLinks`, `Crm`, `CrmProofs`, `CrmEffects`, `PipelineBoard`, `Duplicates`, `ContactStore` |
| canonical cache key and guarded request cache | `StableStringify`, `GuardedCache`, `CacheEffects` |
| typing-presence state machine | `Presence`, `PresenceEffects`, `PresenceGateway`, `PresenceInterleaving` |
| transport buffers, duplicate window, merged stream, shell quoting | `RemoteProcess`, `RemoteKills`, `NatsDedup`, `MergedStream`, `ArgumentFilter`, `PosixShell`, `ShellQuoting` |
| task forest presenter | `StableSort`, `TaskForest`, `TaskGroups`, `TaskNodes`, `TaskProgress` |

Each part has the same shape. The state is a value; every operation is a function on it that follows the source branch
by branch; a `Run` function folds steps; lemmas prove what every run keeps. Where the source updates state in place, a
class with the source's fields and methods with its loops is proved equal to those functions
(`ContactStore.Store`, `GuardedCache.GuardedRequests`, `PresenceGateway.Gateway`, `RemoteProcess.NatsProcess`,
`NatsDedup.DedupWindow`, `MergedStream.MergedSubscription`, `TaskNodes.TaskNode`).

The `...Effects` files and `RemoteKills` say what each operation is for in terms of rows, served values and sent
messages, so that a mistake made alike in a function and in the method equal to it does not go unnoticed.

Every method of `ContactStore.Store` keeps both invariants. The cache, the gateway, the remote process, the duplicate
window and the merged stream keep a ghost history: after any calls the object is where the run of its history leads, so
what is proved of every run holds of the object.

## Properties that fail, and exactly when they hold

- Merging a contact into itself is not guarded and deletes the contact with its identities: a merge keeps its target
  iff the ids differ (`RegistryProofs.MergeKeepsTargetIffDistinct`), the interaction total loses exactly that contact's
  count (`RegistryProofs.MergeConservesInteractions`), and the CRM half is a delete
  (`CrmProofs.SelfMergeIsDelete`, `CrmProofs.SelfMergeIsPlainDeleteIff`).
- `createContactEvent` accepts any event type, also `identity.merged`. Such a hand-written event keeps the timelines iff
  it names an id the timeline already holds (`RegistryProofs.NoteKeepsInvIff`, `RegistryProofs.ForgedMergeMisleads`).
- `updateCrmContactProfile` accepts explicit values for copied columns; the copies keep agreeing iff the values do
  (`CrmProofs.UpdateProfileKeepsInvIff`).
- A merge does not move an account's organization contact, which the delete then sets to null
  (`CrmProofs.OrgLinkSurvivesIff`).
- The board looks its pipeline up by id or name twice; the second lookup is stable iff no other match precedes the row
  (`PipelineBoard.SecondLookupIsStable`, `PipelineBoard.SecondLookupStrays`).
- `stableStringify` is injective on JSON values, not on all values it accepts: exactly the replaced values collide
  (`StableStringify.SameTextIffSameKept`, `StableStringify.UndefinedCollides`).
- A handler starts inside a backoff window iff pruning forgot the window and nothing else stops it
  (`GuardedCache.StartsInsideWindowIff`, `GuardedCache.StartedInsideWindow`).
- "A delayed renewal fires if activity followed" fails after a suppressed event, which resets the counter; the exact
  condition is `Presence.RenewalFollowsReset`, a failing run `Presence.RenewalMissedWitness`.
- When handlers interleave at their awaits, three presence properties depend on what is still waiting:
  `PresenceInterleaving.QuietIffNoRenewalWaits`, `TimerFreeIffNoInterruptionWaits` and `UnmarkedIffNoStopWaits`, each
  with a failing run.
- An exit with code null leaves the exit guard open: reports are at most one unless the first code is null
  (`RemoteProcess.ExitReportedAtMostOnce`, `RemoteProcess.NullExitReportedTwice`).
- The environment file joins its lines by a literal backslash and n. The comments promise that the tokens are sourced;
  with two tokens the first value arrives with `nexport` appended (`ShellQuoting.TokensArriveIffOne`).
- `filterArgs` is idempotent iff the first kept argument does not look like an entry point
  (`ArgumentFilter.FilteringAgain`, `ArgumentFilter.FilteringAgainChanges`).
- Fingerprints of the duplicate window can coincide for subjects with NUL (`NatsDedup.CollidesIff`).

## Premises

- Row ids, account ids, texts that are only compared, and timestamps are numbers; `stableId` is injective, so a row id
  is its unique key; `generateId` is fresh; `normalizePhone`, lower-casing and the identity lookup of an inbound
  message are parameters.
- One `executeWrite` body, one presence handler and one generator turn is one atomic step (but see
  `PresenceInterleaving`). Where the source throws, the transaction leaves the tables unchanged.
- Runs are honest where they are said to be: hand-written `identity.merged` events name an id already in the history,
  and explicit writes of copied profile columns say what the rows say. The two lemmas above show that nothing less will
  do. Manual edits of `crm.*` metadata are no steps. A new opportunity id has no link rows. No code path sets an
  opportunity's `archived_at`.
- The seeded pipeline is the initial state only.
- The gateway is started once; after `stop` it handles no event. Clocks are monotone. A guarded handler's result is
  recorded in one step and released in a later one.
- The remote stream neither writes nor ends after its end; write callbacks do not throw; chunks are numbered by write
  order. Whether a publish or a presence send succeeds is chosen by the environment.
- Canonical numbers are their decimal tokens, which `JSON.stringify` prints injectively.
- Locale order of texts is the order of the numbers that stand for them; task timestamps are non-negative integers.

## Model

| member | source | states |
|---|---|---|
| Timeline.ContactIdsForQuery | src/contacts.ts:7117-7137 | The worklist terminates and returns, without repeats and with the queried contact first, exactly the least set that holds the contact and follows every merge row. |
| Timeline.Visit | src/contacts.ts:7121-7134 | One pass over the merge rows of a contact: the new ids are queued and collected together, nothing is collected that a closed set around the contact could avoid. |
| Timeline.TimelineIsMergedInto | src/contacts.ts:7117-7137 | The collected ids are exactly those reachable by a chain of `identity.merged` rows, that is merged directly or transitively. |
| Timeline.MergeJoinsClasses | src/contacts.ts:10287-10421 | Replaying the merge audit, one more merge joins exactly the two contacts' histories and leaves every other one alone. |
| Timeline.MergeJoinsTimelines | src/contacts.ts:10300-10311 | The rows a merge writes to the event log make the survivor's timeline exactly the union of the two timelines. |
| Timeline.AppendKeepsTimeline | src/contacts.ts:4089-4094 | Appending an event keeps a contact's timeline if and only if it is not an `identity.merged` row that names an id the timeline does not already hold. |
| RegistryProofs.TimelineIsSurvivorClass | src/contacts.ts:7117-7183 | In every honest run from the empty database, the worklist returns for a live contact exactly the ids whose survivor in the merge audit it is: no logged event is lost from or added to a survivor's timeline. |
| RegistryProofs.NoteKeepsInvIff | src/contacts.ts:4089-4094 | Appending any event to the log of a valid database keeps the invariant if and only if it is no forged merge of a live contact. |
| RegistryProofs.ForgedMergeMisleads | src/contacts.ts:4089-4094 | In a run of two creations and one forged merge event, the timeline of one live contact shows the other's events although neither was merged. |
| RegistryProofs.RunKeepsInv | src/contacts.ts:1288-1334 | Every honest run of create, inbound intake, link, event, agent upsert, unlink, policy write, merge and delete keeps: each contact-owned identity names a live contact, merged-away contacts are not live, live contacts have policies, and every live contact's timeline matches the audit. |
| RegistryProofs.MergeMovesIdentities | src/contacts.ts:1296-1334 | Merging two distinct contacts leaves the key set unchanged, gives the target exactly the union of both key sets, the source none, and every other owner what it had. |
| RegistryProofs.MergeLeavesOthers | src/contacts.ts:10287-10421 | No other contact's person or policy row changes, and the target keeps its own status and opt-out. |
| RegistryProofs.MergeKeepsTargetIffDistinct | src/contacts.ts:10287-10292 | A merge keeps its target if and only if the two ids differ; a self-merge deletes the contact and exactly its identity rows. |
| RegistryProofs.MergeConservesInteractions | src/contacts.ts:10313-10345 | The total interaction count over all contacts is conserved by a merge of distinct contacts, and a self-merge loses exactly the contact's own count. |
| RegistryProofs.MergeKeepsLatestContact | src/contacts.ts:10317-10370 | After a merge the survivor was last heard from and last written to when either contact was; its name and email are its own where it had them, else the source's; its phone is its own. |
| RegistryProofs.OwnerChangesOnlyByMerge | src/contacts.ts:7371-7388 | An identity row that survives a step keeps its owner, unless the step merged that owner into another contact, which then owns it. |
| RegistryProofs.AgentKeepsKeyForever | src/contacts.ts:7458-7569 | A key an agent owns keeps that agent through every later run, merges and unlinks included. |
| RegistryProofs.ReplayIsNoOp | src/contacts.ts:7677-7912 | Delivering an inbound message again, with any fresh id and any fresh lookup, changes no contact, identity, event or policy. |
| RegistryProofs.InboundOnlyClimbs | src/contacts.ts:7571-7582 | One inbound message moves a contact's status at most from discovered to pending, and never the status of an opted-out contact. |
| RegistryProofs.DeliveriesOnlyClimb | src/contacts.ts:7571-7582 | The same along every run of inbound messages; live contacts stay live. |
| RegistryEffects.NewSender | src/contacts.ts:7677-7912 | A message from a sender no contact answers for creates exactly one contact, with the status of the intake mode, no opt-out and no history, which owns the sender's key and, unless the channel is scoped, the default key; its events are listed and every other contact and key is as before. If one of the keys is another's, nothing at all is created. |
| RegistryEffects.KnownSender | src/contacts.ts:7677-7912 | A message from a known sender gives the contact the sender's key, a name where it had none and the status it may climb to, and changes nothing else; if the key is another's it changes nothing. |
| RegistryEffects.AllowedOnlyByGrant | src/contacts.ts:7571-7582 | In every run of any operations, merges included, nobody becomes allowed unless a creation, a policy write or an intake mode asked for it. |
| RegistryEffects.RecordedInteraction | src/contacts.ts:9643-9681 | An interaction counts once, moves the time of its own direction to now and leaves the other time, the status and every other row. |
| RegistryEffects.WrittenPolicy | src/contacts.ts:9179-9205 | A policy write sets status and opt-out, keeps the history, logs exactly the columns it changed and touches no other contact. |
| RegistryEffects.DeletedContact | src/contacts.ts:1288-1294 | Deleting a contact removes its person, its policy and exactly its keys, logs that once and touches no other contact or key. |
| CrmLinks.UpsertKeepsOnePrimary | src/contacts.ts:5056-5156 | Writing a link row keeps at most one primary row per account or opportunity. |
| CrmLinks.UpsertLeavesUnaffected | src/contacts.ts:5088-5123 | A contact that is neither linked nor demoted has exactly the primary rows it had, so the refreshed set misses nobody. |
| CrmLinks.UpsertWrites | src/contacts.ts:5056-5156 | The written row exists, is stamped now and is primary as asked, by default as it was; asking for primary demotes the other rows of that parent, and no row changes otherwise. |
| CrmLinks.MergeReattaches | src/contacts.ts:10111-10216 | After the merge of distinct contacts the target holds a link row exactly where either held one, primary exactly where either was; the source holds none; moved rows are stamped now, all other rows are untouched. |
| CrmLinks.MergeKeepsOnePrimary | src/contacts.ts:10111-10216 | Folding the source's rows into the target's never makes two primary rows of one parent. |
| CrmLinks.SelectPreferred | src/contacts.ts:4971-5030 | The query behind a refresh returns the preferred parent if the contact has a primary row there, else the latest primary row (ties by id), else none. |
| CrmLinks.PickAgrees | src/contacts.ts:5894-5930 | What the query returns names one of the primary rows and is none only when there is none. |
| CrmLinks.PickIsLatest | src/contacts.ts:4971-5030 | Unless the preferred row is returned, no primary row was written after the returned one, and of those written at the same time it has the smallest id. |
| CrmLinks.CopyIsDetermined | src/contacts.ts:5894-5930 | With one primary row per opportunity, only one primary-contact value agrees with the rows. |
| CrmProofs.RunKeepsInv | src/contacts.ts:4971-6516 | Every honest run of account, task, link, profile, stage and opportunity operations, contact deletes and merges, of a contact into itself too, keeps all denormalised copies in agreement: one primary row per parent, profile primaries name own primary rows and are empty only without one, the opportunity's contact is its primary row's, the next action is the least open task, the `crm.*` entries are the projection of the profile, and no open opportunity sits in an archived stage or another pipeline than its stage's. Honest means: no explicit profile write of a copied column says other than the rows. |
| CrmProofs.UpdateProfileKeepsInvIff | src/contacts.ts:4430-4552 | An explicit profile write keeps all that if and only if it is refused or what it leaves in the copied columns agrees with the rows; a write that names no copied column always does. |
| CrmProofs.SelfMergeIsDelete | src/contacts.ts:10257-10282 | Merging a contact into itself leaves the tables as deleting it would, after every fact about it became its own. |
| CrmProofs.SelfMergeIsPlainDeleteIff | src/contacts.ts:10257-10282 | It is exactly a delete if and only if no fact about the contact is held by someone else or no one. |
| CrmProofs.OrgLinkSurvivesIff | src/contacts.ts:510-520 | An account keeps its organization contact through a merge if and only if that contact is not the merged-away one, else it is set to null. |
| CrmProofs.SeedHasInv | src/contacts.ts:1064-1077 | The seeded database satisfies that invariant. |
| CrmProofs.LinkOpportunityKeepsInv | src/contacts.ts:5932-6036 | Linking a contact to an opportunity, in all three cases (made primary, demoted, neither), re-establishes every copy. |
| CrmProofs.LinkAccountKeepsInv | src/contacts.ts:5056-5156 | Linking a contact to an account refreshes every contact whose copy it can change. |
| CrmProofs.CreateOpportunityKeepsInv | src/contacts.ts:5711-5831 | Creating an opportunity writes its primary row, its contact and, if empty, the profile copy consistently. |
| CrmProofs.UpdateStageKeepsPipeline | src/contacts.ts:5466-5539 | Changing or archiving a stage never strands an open opportunity and keeps keys and orders unique in a pipeline. |
| CrmProofs.DeleteKeepsInv | src/contacts.ts:1288-1294 | Deleting a contact with the foreign keys' cascade and set-null actions keeps every copy in agreement. |
| CrmProofs.MergeKeepsInv | src/contacts.ts:10257-10282 | A merge, of one contact into itself too, re-establishes all the copies at once. |
| CrmProofs.MergedProfileColumns | src/contacts.ts:10026-10109 | Through the whole merge the survivor's profile knows what either knew, the target's word first, and is as urgent as the more urgent of two profile rows. |
| CrmProofs.CascadeDeletesNothing | src/contacts.ts:10257-10282 | Row by row: each task and activity of the source is the target's afterwards, each fact held by or about the source is held by (and, where it was, about) the target, every other column of every such row is as before, and so deleting the source removes no row; of the accounts only an organization column that named the source changes, to null. |
| CrmProofs.MergedOpportunities | src/contacts.ts:10163-10216 | An opportunity whose contact was the source, by its column or by a primary row, shows the target after the merge; no other opportunity and no other column changes. |
| CrmProofs.MergedParticipants | src/contacts.ts:10218-10255 | A participant row shared by both contacts keeps the higher confidence; all others keep their value. |
| CrmProofs.ClosedTaskNeverReturns | src/contacts.ts:6153-6190 | A task once done or canceled stays closed and is no contact's next action in any later state of any run. |
| CrmEffects.LinkedOpportunity | src/contacts.ts:5932-6036 | After linking a contact to an opportunity the row exists, primary exactly if that was asked or left open and so before; the opportunity then shows that contact and the contact's profile that opportunity. Asking for primary demotes the other rows of the opportunity and no other row; any other wish leaves every other row as it was. A demoted contact leaves the opportunity without one. |
| CrmEffects.LinkedAccount | src/contacts.ts:5056-5156 | The same for accounts, whose contact's profile then shows the account. |
| CrmEffects.DemotedFallsBack | src/contacts.ts:5833-5930 | A contact that loses its primary row because another one is linked as primary falls back to the latest of its remaining primary opportunities, if it has any. |
| CrmEffects.DemotedMemberFallsBack | src/contacts.ts:4971-5054 | The same for accounts. |
| CrmEffects.LinkedProfiles | src/contacts.ts:5932-6036 | A link write changes no profile but the linked contact's and those of contacts it demotes, there only the copied column, and inserts a profile row only to store something. |
| CrmEffects.LinkedMemberProfiles | src/contacts.ts:5056-5156 | The same for accounts. |
| CrmEffects.RunShowsFirst | src/contacts.ts:6153-6190 | In every honest run every profile shows its contact's first open task, with its due time and title, by priority, then due time with none last, then id, and none exactly when no task is open. |
| CrmEffects.RunShowsEntries | src/contacts.ts:4350-4428 | In every honest run the seven `crm.*` entries say what the profile row says, the next action being null exactly when there is none. |
| CrmEffects.RunKeepsUserEntries | src/contacts.ts:4350-4369 | In every run that neither deletes a contact nor merges it away, the entries a user set in its context stay as they were. |
| CrmEffects.TaskStepWrites | src/contacts.ts:6192-6516 | A task step adds the new row as given, or changes the status of one row to what it names, with the due time when it snoozes; every other task and table is as before, profiles and their projections aside. |
| CrmEffects.StatusFollowsLastStage | src/contacts.ts:5704-5709 | After any chain of moves an opportunity is won (lost) exactly if the last stage is a won (lost) one; elsewhere it is open if it was ever won or lost before or on the way, and else keeps the status it had; nothing but its stage and status changes. |
| CrmEffects.CreatedOpportunity | src/contacts.ts:5711-5831 | A new opportunity stands in its stage and pipeline, is won or lost exactly in a won or lost stage unless a status was given, and adds one primary stakeholder row for its contact; a refused one leaves no trace. |
| CrmEffects.CreatedCopy | src/contacts.ts:5790-5831 | The contact's profile shows the new opportunity unless it showed another, and no other profile changes. |
| CrmEffects.WrittenStage | src/contacts.ts:5466-5539 | A stage is rewritten in place, and nothing else is, exactly when its key and order stay unique in its pipeline and no open opportunity would be left in a stage newly archived. |
| CrmEffects.WrittenProfile | src/contacts.ts:4430-4552 | An accepted profile write sets the five own columns, each copied column only where a value is given, and no other profile. |
| CrmEffects.DeletedContact | src/contacts.ts:1288-1294 | Deleting a contact removes exactly its links, profile, context, facts and participants. |
| CrmEffects.DeletedContactIsCleared | src/contacts.ts:1288-1294 | It clears exactly the opportunity, task and activity columns that name the contact. |
| PipelineBoard.Board | src/contacts.ts:6135-6150 | Each column holds exactly the cards whose stage key is the column's, in the order of the card list. |
| PipelineBoard.BoardShowsEachOnce | src/contacts.ts:6135-6151 | In every reachable state the board shows each open opportunity of the pipeline exactly once, in its own stage's column, and nothing else. |
| PipelineBoard.SecondLookupIsStable | src/contacts.ts:4233-4240 | Looking the pipeline up again by id is sure to find the same pipeline if and only if no other row of that name precedes it; disjoint names and ids suffice. |
| PipelineBoard.SecondLookupStrays | src/contacts.ts:6135-6141 | After creating a pipeline and another one named like its id, the name finds the first and its id the other. |
| Duplicates.BuildDuplicateCandidates | src/contacts.ts:3921-4003 | The grouping-based index lists `b` for `a` exactly when the naive pairwise relation pairs them and `b` is a contact, with exactly the matching reasons. |
| Duplicates.RelatedIsSymmetric | src/contacts.ts:3935-3938 | The relation is symmetric, reason by reason. |
| Duplicates.ContactReasonMeaning | src/contacts.ts:3940-3968 | A phone reason means both phones are given and normalize alike, an email reason that both emails are given and differ in case at most. |
| Duplicates.IdentityReasonMeaning | src/contacts.ts:3970-3990 | When channel names hold no separator, an identity reason means: both contacts own identities of that channel with the same comparable value. |
| ContactStore.Store.constructor | src/contacts.ts:1064-1077 | A new store is the empty registry and the seeded CRM, and satisfies both invariants. |
| ContactStore.Store.TimelineIds | src/contacts.ts:7117-7137 | The ids read from the store's log are the contact's timeline, and for a live contact the survivor class of the audit. |
| ContactStore.Store.CreateContact | src/contacts.ts:9299-9340 | Creating a contact for a fresh id writes contact, identity, policy and event as specified, unless another owner holds the identity. |
| ContactStore.Store.SetPolicy | src/contacts.ts:9179-9205 | A policy write leaves an event for each column it changed and none otherwise, and keeps both invariants. |
| ContactStore.Store.AddEvent | src/contacts.ts:4089-4094 | Any event is appended as specified; the store stays valid if and only if it is no forged merge of a live contact. |
| ContactStore.Store.LinkIdentity | src/contacts.ts:9861-9918 | The tables after linking are the specified ones, and both invariants hold. |
| ContactStore.Store.UpsertAgentIdentity | src/contacts.ts:7458-7569 | The tables after an agent upsert are the specified ones; a key another owner holds is refused. |
| ContactStore.Store.UnlinkIdentity | src/contacts.ts:9920-10016 | Unlinking removes exactly the row, and never an agent's. |
| ContactStore.Store.Receive | src/contacts.ts:7677-7912 | The step-by-step intake, roll-back on an ownership conflict included, is the specified transaction, whose effect `NewSender` and `KnownSender` state. |
| ContactStore.Store.MoveIdentities | src/contacts.ts:1296-1334 | The loop over the source's identity rows reaches the specified table. |
| ContactStore.Store.LinkAccountContact | src/contacts.ts:5056-5156 | Demoting, upserting and refreshing in place reaches the specified tables, those of `LinkedAccount`, and keeps both invariants. |
| ContactStore.Store.LinkOpportunityContact | src/contacts.ts:5932-6036 | The same for opportunities, including the refresh of the opportunity's contact: the tables of `LinkedOpportunity`. |
| ContactStore.Store.Refresh | src/contacts.ts:4971-5030 | The loop that refreshes one contact after another equals the simultaneous refresh. |
| ContactStore.Store.CreateTask | src/contacts.ts:6192-6290 | Creating a task and refreshing the next action in place is the specified transaction. |
| ContactStore.Store.CancelTask | src/contacts.ts:6292-6335 | Cancelling is the specified transaction; a canceled task is left as it is. |
| ContactStore.Store.SnoozeTask | src/contacts.ts:6337-6401 | Snoozing is the specified transaction and refused for a closed task. |
| ContactStore.Store.CompleteTask | src/contacts.ts:6473-6516 | Completing is the specified transaction; a done task is left as it is. |
| ContactStore.Store.CreateOpportunity | src/contacts.ts:5711-5831 | Opportunity row, primary link and profile copy are written as specified. |
| ContactStore.Store.UpdateProfile | src/contacts.ts:4430-4552 | Any profile write, copied columns included, is refused or done as specified; the store stays valid if and only if what it leaves agrees with the rows. |
| ContactStore.Store.CreateAccount | src/contacts.ts:4887-4968 | An account is created unless another one has that organization contact. |
| ContactStore.Store.CreateStage | src/contacts.ts:5402-5464 | A stage is created unless its key or order is taken in its pipeline. |
| ContactStore.Store.UpdateStage | src/contacts.ts:5466-5539 | The stage is written unless key or order clash or it would archive open opportunities. |
| ContactStore.Store.MoveOpportunity | src/contacts.ts:6049-6118 | The opportunity moves only to a live stage of its own pipeline and takes the stage's status. |
| ContactStore.Store.DeleteContact | src/contacts.ts:1288-1294 | Identity, policy and CRM rows go as specified, and both invariants hold. |
| ContactStore.Store.MergeContacts | src/contacts.ts:10287-10421 | The whole merge, of a contact into itself too, run in place over all tables, is the specified transaction on both halves and keeps both invariants. |
| ContactStore.MoveOppLinks | src/contacts.ts:10163-10216 | The loop that re-keys the source's opportunity rows one by one, refreshing opportunities as it goes, reaches the specified tables whatever the order. |
| ContactStore.DropOwnOppLinks | src/contacts.ts:10163-10216 | The same loop when source and target are one contact: each row finds itself, is deleted, and its opportunity refreshed. |
| ContactStore.SelectNext | src/contacts.ts:6153-6190 | The query picks the least open task by priority rank, missing due date last, due date, id. |
| Tables.MoveRows | src/contacts.ts:10218-10255 | The loop of every merge helper (fold into the row that is there, or re-key) reaches the simultaneous re-keying of all rows. |
| StableStringify.SameTextIffSameKept | extensions/whatsapp-overlay/background.js:160-169 | Two values have the same canonical text if and only if they are equal up to key order once `undefined` and non-finite numbers are replaced by the strings that stand for them. |
| StableStringify.TextsAreUnique | extensions/whatsapp-overlay/background.js:160-169 | The text can be read back: a value's text followed by a delimiter determines the value and the rest. |
| StableStringify.JsonTextIsInjective | extensions/whatsapp-overlay/background.js:160-169 | On JSON values the text is injective up to key order. |
| StableStringify.UndefinedCollides | extensions/whatsapp-overlay/background.js:161-162 | Outside JSON it is not: `undefined` and the string `__undefined__` share a text. |
| StableStringify.UnquoteEscape | extensions/whatsapp-overlay/background.js:163-168 | Quoted strings (short escapes, `\u` escapes, surrogates) are read back unit by unit. |
| StableStringify.SortingForgetsInsertionOrder | extensions/whatsapp-overlay/background.js:165-168 | Sorting the keys gives one order for a key set, however the keys were inserted. |
| StableStringify.CacheKeyIsInjective | extensions/whatsapp-overlay/background.js:72-72 | With the type prefix, two requests share a cache key only if type and payload are the same. |
| GuardedCache.KeyTextIdentifies | extensions/whatsapp-overlay/background.js:42-53 | That applies to the ten guarded request types: the key's text determines handler and payload. |
| GuardedCache.RunKeepsInv | extensions/whatsapp-overlay/background.js:68-158 | In every interleaving of starts, settlements and releases: the in-flight counter is the number of keys in flight and at most 4, at most one handler runs per key and exactly while its flight is unsettled, every cached value came from a success on its key, and an entry keeps its last backoff window unless it was pruned. |
| GuardedCache.ServedIsRecent | extensions/whatsapp-overlay/background.js:83-98 | Every value served from the cache came from a successful run on the same key less than `staleMs` ago. |
| CacheEffects.FreshIsServed | extensions/whatsapp-overlay/background.js:83-83 | Whatever happens on this and other keys in between, a request within `ttlMs` of a successful result joins the run that is still to be released or else gets that very value from the cache; no handler of the key runs or starts in that time. |
| CacheEffects.ReleasedIsServed | extensions/whatsapp-overlay/background.js:83-83 | Once the run is released, every request within `ttlMs` of its result is served the result. |
| CacheEffects.OutcomeMeans | extensions/whatsapp-overlay/background.js:82-101 | Each outcome has its own reason: joined exactly if a flight is open; served exactly if fresh, or stale under backoff or a full cap; refused for backoff or for the cap exactly for those; started exactly if nothing stands against it. |
| CacheEffects.RequestMeans | extensions/whatsapp-overlay/background.js:73-104 | A request opens one flight exactly when it starts and changes no other entry. |
| CacheEffects.WindowDoubles | extensions/whatsapp-overlay/background.js:140-147 | The window after a failure is the base time doubled for each failure in a row before it, four times at the most, and capped. |
| GuardedCache.StartsInsideWindowIff | extensions/whatsapp-overlay/background.js:83-101 | In every run, a handler starts inside its key's last backoff window if and only if the entry was pruned since, no flight is open and a slot is free; and it was pruned if and only if the cache knows no window that long. |
| GuardedCache.StartedInsideWindow | extensions/whatsapp-overlay/background.js:149-158 | A run from the empty cache in which that happens: eighty-one keys fail one after another, and the first starts again at once. |
| GuardedCache.GuardedRequests.Take | extensions/whatsapp-overlay/background.js:68-158 | Whatever steps came before, the object is where its run leads: the counter is the number of keys in flight and at most 4, at most one handler runs per key, and the outcome is the specified one. |
| GuardedCache.SettledWindow | extensions/whatsapp-overlay/background.js:106-147 | A failed run opens a window between the base and the greatest backoff, no shorter the more failures came before; a success opens one exactly when it was slow, and forgets the failures. |
| GuardedCache.ClampNeverFires | extensions/whatsapp-overlay/background.js:132-132 | The clamp of the counter at zero never changes it. |
| GuardedCache.ReleaseShape | extensions/whatsapp-overlay/background.js:131-135 | A release ends exactly one flight; whatever pruning drops was neither in flight nor servable. |
| GuardedCache.PruneKeepsProtected | extensions/whatsapp-overlay/background.js:149-158 | Pruning changes no entry it keeps and keeps every entry in flight or still servable. |
| GuardedCache.PruneDropsOldestFirst | extensions/whatsapp-overlay/background.js:149-158 | Pruning stops at the target size or when only protected entries are left, and drops in insertion order. |
| GuardedCache.GuardedRequests.RunGuarded | extensions/whatsapp-overlay/background.js:68-104 | The request path in place is the specified step and returns the specified outcome. |
| GuardedCache.GuardedRequests.Record | extensions/whatsapp-overlay/background.js:106-130 | Recording a result or error, with backoff, is the specified step. |
| GuardedCache.GuardedRequests.Finally | extensions/whatsapp-overlay/background.js:131-135 | The `finally` block is the specified release. |
| GuardedCache.GuardedRequests.PruneState | extensions/whatsapp-overlay/background.js:149-158 | The deleting loop with its early exit is the specified pruning. |
| Presence.RunKeepsInv | src/gateway.ts:709-851 | In every run of handlers and timers a session is never both active and terminal, a stopped session is terminal, a terminal session has no pending timer and no active turn target, and activity is counted exactly while active. |
| Presence.NoTypingAfterTerminal | src/gateway.ts:1527-1583 | In every run, between a terminal event and the next unsuppressed start event the gateway sends no typing-on, also when it is stopped in between. |
| Presence.EndsIsTerminal | src/gateway.ts:896-912 | Each terminal event, and each silent response, leaves the session terminal without sending typing-on, whatever the sends do. |
| Presence.StoppedStaysSilent | src/gateway.ts:759-805 | Once the session or the gateway is stopped, and while the consumer holds no target, no event short of a start makes the gateway send anything at all. |
| Presence.StopEnds | src/gateway.ts:759-805 | A stop ends activity, counters and timers; with a target and a first send that does not fail it also marks the session stopped and frees the consumer. |
| Presence.StopGoesToActiveTarget | src/gateway.ts:768-804 | A stop whose sends are delivered ends typing at the target the turn shows it on, whatever target the event names and whatever the consumer holds. |
| Presence.AimStaysOnSurface | src/gateway.ts:669-690 | Aiming stays on the surface of the source, prefers the turn's own target, and leaves non-native targets alone. |
| Presence.RenewalDueIffActivity | src/gateway.ts:807-828 | Without suppressed events in between, a pending renewal is due exactly when activity followed its scheduling. |
| Presence.RenewalFollowsActivity | src/gateway.ts:807-828 | The same for every run from a started gateway through the delivery that scheduled the renewal. |
| Presence.RenewalFollowsReset | src/gateway.ts:807-828 | And with suppressed events in between, against the number of activity events before the delivery. |
| Presence.RenewalDueAfterReset | src/gateway.ts:807-828 | After a suppressed event it is due exactly when more activity followed that event than there had been before the scheduling. |
| Presence.RenewalMissedWitness | src/gateway.ts:807-828 | A run in which activity follows the scheduling and the renewal still does not fire. |
| Presence.RenewalTimerSends | src/gateway.ts:816-825 | The timer sends one typing-on when due and nothing otherwise. |
| PresenceEffects.ActivityShowsTyping | src/gateway.ts:830-851 | In every run, an accepted activity event shows typing exactly once, on the surface it came from, and records the time, unless typing was recorded less than four seconds before; then it shows none. A failed send is not recorded, a matching heartbeat of the consumer sends in its place, and a skipped send on a channel without presence shows nothing. |
| PresenceEffects.WorkShowsTyping | src/gateway.ts:830-851 | While a session works and its sends are delivered, typing is shown once for each of the times picked by the four-second throttle, and never in between. |
| PresenceEffects.ShownTimesCover | src/gateway.ts:836-838 | The picked times lie at least four seconds apart and leave no activity four seconds behind the last shown one. |
| PresenceEffects.InterruptionMeans | src/gateway.ts:1540-1553 | An interruption in a live session shows typing once more, where it came from, and puts the stop off; in a terminal session it does nothing. |
| PresenceEffects.DeliveryMeans | src/gateway.ts:853-887 | A final answer ends the pending renewal and sends nothing; a commentary in a live session ends it and shows typing at the delivered message at once; any other native delivery in a live session schedules a renewal after the activity so far; all else does nothing. |
| PresenceEffects.AimFollowsDelivery | src/gateway.ts:669-690 | After a native delivery in a working turn, activity on its surface aims at the delivered message. |
| PresenceEffects.AimFollowsStart | src/gateway.ts:1575-1577 | After a native start event presence aims at its source, whatever turn came before. |
| PresenceEffects.AimFollowsShown | src/gateway.ts:674-679 | Where the turn shows no target on a surface, presence aims at the one shown there last. |
| PresenceEffects.AimFindsAnchor | src/gateway.ts:680-689 | Where no target is kept on the surface of a source, the anchor is its own outbound one, the one in the delivery trace of its message, or the one kept for the session. |
| PresenceEffects.InterruptionEnds | src/gateway.ts:746-757 | When the grace time after an interruption is over, a running gateway stops the session without showing typing; a stopped one does nothing. |
| PresenceEffects.StopEndsHeartbeat | src/gateway.ts:783-798 | A stop switches typing off at the target of a beating consumer and clears it. |
| PresenceEffects.SendMeans | src/gateway.ts:339-426 | A send is logged once, unless it would show a suppressed target typing or was skipped on a channel without presence; a delivered typing-on is remembered as the session's target, a delivered typing-off forgets the targets on its surface. |
| PresenceGateway.Gateway.Take | src/gateway.ts:709-925 | Whatever acts of whatever sessions came before, every session is where its own steps lead, and the sets agree: active and terminal disjoint, stopped within terminal, no timer for a terminal session, a sequence exactly for each active one. |
| PresenceGateway.SessionsAgree | src/gateway.ts:269-281 | The per-session invariant, seen from the gateway's sets and maps. |
| PresenceGateway.NoTypingInGateway | src/gateway.ts:1527-1583 | However the sessions interleave, after a session's terminal event the gateway sends it no typing-on before its next start event. |
| PresenceGateway.Gateway.HandleRuntime | src/gateway.ts:1527-1583 | The handler over the gateway's sets and maps is the specified step of its session, whose effect `ActivityShowsTyping` and `InterruptionMeans` state, and touches no other session. |
| PresenceGateway.Gateway.HandleDelivery | src/gateway.ts:853-887 | The same for delivery observations. |
| PresenceGateway.Gateway.StopPresence | src/gateway.ts:759-805 | The same for stopping a session. |
| PresenceGateway.Gateway.ForceRenew | src/gateway.ts:709-716 | The same for a forced renewal. |
| PresenceGateway.Gateway.RenewForActivity | src/gateway.ts:830-851 | The same for the throttled renewal. |
| PresenceGateway.Gateway.RuntimeTarget | src/gateway.ts:669-690 | The same for the choice of the target, including the anchor it may restore. |
| PresenceGateway.Gateway.SendTyping | src/gateway.ts:339-426 | The same for one send, with its three outcomes. |
| PresenceGateway.Gateway.Schedule | src/gateway.ts:807-828 | The same for scheduling a renewal. |
| PresenceGateway.Gateway.FireRenewal | src/gateway.ts:816-825 | The same for the post-delivery timer. |
| PresenceGateway.Gateway.FireInterrupted | src/gateway.ts:746-757 | The same for the interruption timer. |
| PresenceGateway.Gateway.Stop | src/gateway.ts:319-336 | Stopping the gateway resets every session. |
| PresenceInterleaving.EveryInterleavingSurvives | src/gateway.ts:759-851 | When handlers interleave at their awaits, active and terminal stay disjoint, activity is counted exactly while active, and a terminal session has no pending post-delivery renewal. |
| PresenceInterleaving.QuietIffNoRenewalWaits | src/gateway.ts:709-716 | With handlers split at their awaits, a terminal session gets no typing-on before its next start if and only if no renewal was awaiting its send. |
| PresenceInterleaving.TimerFreeIffNoInterruptionWaits | src/gateway.ts:1538-1552 | It gets no interruption timer before its next start if and only if no interruption was awaiting its renewal. |
| PresenceInterleaving.UnmarkedIffNoStopWaits | src/gateway.ts:774-804 | A reopened session stays unmarked until its next stop if and only if no stop was still awaiting its sends. |
| PresenceInterleaving.StartReopens | src/gateway.ts:1568-1572 | Reopening clears the mark and leaves every stop waiting that was waiting. |
| PresenceInterleaving.TypingAfterTerminal | src/gateway.ts:841-846 | A run in which a resumed activity handler sends typing-on after the session became terminal. |
| PresenceInterleaving.StoppedButNotTerminal | src/gateway.ts:783-788 | A run in which a resumed stop marks a live session as stopped. |
| PresenceInterleaving.TerminalWithTimer | src/gateway.ts:1546-1551 | A run in which a resumed interruption leaves its timer pending in a terminal session. |
| RemoteProcess.RunKeepsAccounted | src/remote-spawn-nats.ts:116-143 | In every run the chunks called back followed by the chunks pending are exactly the chunks written, in write order, and the wire holds exactly the successful ones in that order, end-of-input last. |
| RemoteProcess.EachChunkOnce | src/remote-spawn-nats.ts:116-128 | Each chunk is in exactly one of published, failed and pending; its callback fired exactly once unless it is pending. |
| RemoteProcess.WireInWriteOrder | src/remote-spawn-nats.ts:217-251 | Published chunks keep write order and only the last message can be end-of-input. |
| RemoteProcess.AllPublished | src/remote-spawn-nats.ts:217-251 | With no kill or exit before readiness, and no failing publish, everything ever written is published, whatever happens afterwards. |
| RemoteProcess.NothingAfterEarlyExit | src/remote-spawn-nats.ts:286-291 | An exit with a code before readiness closes the process: nothing is ever published, and later writes stay pending for ever. |
| RemoteProcess.EarlyKillFailsBuffered | src/remote-spawn-nats.ts:221-230 | A kill before readiness fails every buffered chunk at readiness. |
| RemoteProcess.ExitReportedAtMostOnce | src/remote-spawn-nats.ts:286-326 | What is reported is a function of the events alone: the first exit, and after a null exit message also a start-up failure; so at most once unless the first code is null, and at most twice. |
| RemoteProcess.NullExitReportedTwice | src/remote-spawn-nats.ts:286-289 | A run with a null code and two reports. |
| RemoteKills.KillReachesWire | src/remote-spawn-nats.ts:201-230 | In every run, the first kill of a live process whose publishes work is the one kill on the wire: sent at once if the worker is ready, else at readiness, and not at all exactly when the process exits before that; it waits exactly as long as neither comes. |
| RemoteKills.OneKillAtMost | src/remote-spawn-nats.ts:201-230 | In every run, whatever fails, at most one kill reaches the wire, with a signal some caller asked for. |
| RemoteProcess.NatsProcess.Take | src/remote-spawn-nats.ts:116-334 | Whatever calls and events came before, the object is where its run leads, and every chunk is accounted for. |
| RemoteProcess.NatsProcess.StdinWrite | src/remote-spawn-nats.ts:117-129 | The write callback in place is the specified step. |
| RemoteProcess.NatsProcess.BecomeReady | src/remote-spawn-nats.ts:217-251 | Readiness, with its flush loop or its early-kill branch, is the specified step. |
| RemoteProcess.NatsProcess.FlushChunks | src/remote-spawn-nats.ts:233-241 | The flush loop publishes and calls back chunk by chunk as specified. |
| RemoteProcess.NatsProcess.FailPendingChunks | src/remote-spawn-nats.ts:328-334 | The failing loop calls back every pending chunk with an error. |
| RemoteProcess.NatsProcess.OnExit | src/remote-spawn-nats.ts:286-326 | The exit handler is the specified step. |
| RemoteProcess.NatsProcess.SendKill | src/remote-spawn-nats.ts:201-214 | Kill is the specified step, and answers whether it marked the process killed. |
| RemoteProcess.NatsProcess.StartupFailed | src/remote-spawn-nats.ts:253-258 | A start-up failure is the specified step. |
| NatsDedup.DroppedIffRepeats | src/nats.ts:169-182 | Under a monotone clock the pruned map decides as a full history would: a message is dropped iff an accepted one with the same subject and same first 256 characters came less than 250 ms earlier. |
| NatsDedup.AcceptedApart | src/nats.ts:169-182 | Accepted messages of equal content are at least 250 ms apart. |
| NatsDedup.KeyIsContent | src/nats.ts:170-170 | For subjects without NUL the fingerprint identifies subject and first 256 characters. |
| NatsDedup.CollidesIff | src/nats.ts:170-170 | In general two messages with different content share a fingerprint exactly when one subject continues the other past a NUL and the other's text makes up for it. |
| NatsDedup.NulInSubjectCollides | src/nats.ts:170-170 | With NUL in a subject two different messages can share a fingerprint. |
| NatsDedup.DedupWindow.IsDuplicate | src/nats.ts:169-182 | The map and counter updated in place make the specified decision; as long as the clock was monotone and subjects held no NUL, that is: dropped iff it repeats an accepted message within the window. |
| MergedStream.RunKeepsInv | src/nats.ts:205-249 | In every interleaving of pumps and consumer: delivered followed by queued is what was accepted, the consumer never sleeps unsignalled on a non-empty queue, events of a subscription keep their order and occur once, and what is accepted is what the filters let through. |
| MergedStream.EveryArrivalIsChecked | src/nats.ts:215-222 | In every run of an open stream the duplicate window sees exactly the messages not marked internal, in order of arrival. |
| MergedStream.DeliveredInAcceptanceOrder | src/nats.ts:205-249 | At every moment the client has received the first part of what was accepted, in order; all of it whenever the consumer sleeps unsignalled. |
| MergedStream.AskingDrains | src/nats.ts:234-244 | A client that keeps asking receives everything accepted. |
| MergedStream.SleeperWithWorkIsWoken | src/nats.ts:222-226 | A sleeper with work has been signalled and delivers the head when it wakes. |
| MergedStream.MergedSubscription.Take | src/nats.ts:205-249 | Whatever pumps and turns came before, the object is where its run leads: nothing accepted is lost or reordered, and the consumer never sleeps unsignalled on a non-empty queue. |
| MergedStream.MergedSubscription.Pump | src/nats.ts:211-232 | A pump's handling of one message in place is the specified step. |
| MergedStream.MergedSubscription.TakeTurn | src/nats.ts:234-244 | A turn of the consumer loop yields the head or sleeps, as specified. |
| ArgumentFilter.FilterArgs | src/remote-spawn.ts:35-68 | The loop with its skip flag keeps exactly the arguments that are no local-path flag, no such flag's value and no leading entry point, in order. |
| ArgumentFilter.FlagTakesItsValue | src/remote-spawn.ts:50-60 | Leaving out a local-path flag and the argument after it, anywhere behind the first argument, does not change what is passed on. |
| ArgumentFilter.LeadingFlag | src/remote-spawn.ts:45-60 | A flag and value in front are dropped and no entry point is looked for behind them. |
| ArgumentFilter.PlainArgsPass | src/remote-spawn.ts:45-64 | Without such flags everything but a leading entry point is passed on. |
| ArgumentFilter.FilteringAgain | src/remote-spawn.ts:35-68 | Filtering twice is filtering once if and only if the first argument that is kept does not look like an entry point. |
| ArgumentFilter.FilteringAgainChanges | src/remote-spawn.ts:35-68 | Two scripts in a row: the second filtering drops the second one. |
| ShellQuoting.ShellUndoesQuoting | src/remote-spawn.ts:94-113 | For every directory, forwarded variables and arguments, POSIX reading of the remote command returns the directory change, the setup commands with the file's text as one word, and exactly the filtered arguments, and fails exactly when one of them holds a NUL. |
| ShellQuoting.TokensArriveIffOne | src/remote-spawn.ts:82-113 | With the tokens set to any NUL-free values the whole command is read, and sourcing the file it writes exports the intended values if and only if not both tokens are set. |
| PosixShell.ReadEscaped | src/remote-spawn.ts:111-112 | Inside single quotes the escaped text is read back as the text itself. |
| ShellQuoting.FileIsOneWord | src/remote-spawn.ts:95-103 | The first quoting hands the environment file's text to `printf` as one word. |
| ShellQuoting.SourcedFile | src/remote-spawn.ts:87-103 | Sourcing the file runs one `export` in which every variable but the last has `nexport` appended to its value. |
| ShellQuoting.ValuesArriveIffOne | src/remote-spawn.ts:87-103 | Through both quotings: the shell hands `printf` one word, and sourcing what `printf` writes assigns every variable its own value if and only if there is only one. |
| TaskForest.SortOrders | extensions/whatsapp-overlay/task-presenter.js:393-423 | After the sort every sibling list, at every level, is ordered by plain subtree recency, then by task. |
| TaskForest.NewestFirst | extensions/whatsapp-overlay/task-presenter.js:416-420 | Of two siblings after the sort the one with the more recent subtree comes first; on a tie the more recent task, then the one created later, then the smaller id. |
| TaskForest.LatestIsMostRecent | extensions/whatsapp-overlay/task-presenter.js:384-391 | The recency of a subtree is that of its most recent task. |
| TaskForest.SortRearranges | extensions/whatsapp-overlay/task-presenter.js:393-423 | The sort permutes siblings and changes nothing else. |
| TaskForest.SortTwice | extensions/whatsapp-overlay/task-presenter.js:393-423 | The sort is idempotent. |
| TaskForest.SortIsCanonical | extensions/whatsapp-overlay/task-presenter.js:393-423 | When siblings have different ids the result does not depend on the order the siblings came in, at any level. |
| TaskForest.SortKeepsLatest | extensions/whatsapp-overlay/task-presenter.js:397-410 | Sorting changes no subtree's recency, so a memo filled on the way stays right. |
| StableSort.StableSortIsUnique | extensions/whatsapp-overlay/task-presenter.js:416-420 | A sorted, stable permutation is unique, so the built-in stable sort computes this one. |
| StableSort.SortIsStable | extensions/whatsapp-overlay/task-presenter.js:416-420 | Tied elements keep their order. |
| TaskNodes.SortNodes | extensions/whatsapp-overlay/task-presenter.js:393-423 | The in-place recursion over node objects reaches the specified forest, permutes each list's node objects and keeps the trees separate. |
| TaskNodes.NodeRecency | extensions/whatsapp-overlay/task-presenter.js:397-410 | The memoised recency equals the plain recursive maximum, and every memo entry does. |
| TaskNodes.TaskNode.SortSubtree | extensions/whatsapp-overlay/task-presenter.js:412-414 | Sorting below a node sorts its subtree. |
| TaskGroups.GroupByProject | extensions/whatsapp-overlay/task-presenter.js:297-336 | One group for each project key of a root and no other, holding exactly the roots of that key sorted as their own forest, with the right first project, greatest signal and greatest recency, and the groups in order. |
| TaskGroups.RootInOneGroup | extensions/whatsapp-overlay/task-presenter.js:301-323 | Every root is listed, sorted, by exactly one group, as often as it occurs among the roots. |
| TaskGroups.GroupsCoverForest | extensions/whatsapp-overlay/task-presenter.js:316-317 | Roots plus child counts over all groups add up to the size of the forest. |
| TaskGroups.GroupsNewestFirst | extensions/whatsapp-overlay/task-presenter.js:327-334 | Groups in order come with the later signal first; on a tie the more recent tasks, then the smaller label. |
| TaskGroups.SizeCountsTasks | extensions/whatsapp-overlay/task-presenter.js:316-317 | The size of a forest is the number of tasks in it, and a child count the number below the node. |
| TaskProgress.ShownWithin | extensions/whatsapp-overlay/task-presenter.js:62-96 | The progress shown for a tree lies between the least and greatest progress of its tasks. |
| TaskProgress.ShownIsMean | extensions/whatsapp-overlay/task-presenter.js:62-96 | A finished task shows 100; one that says something of its own shows that; any other shows the mean of what its children show, to the nearest percent, half up. |
| TaskProgress.SortKeepsShown | extensions/whatsapp-overlay/task-presenter.js:62-96 | Sorting the tree does not change the progress shown. |

## Left out

- SQL text, schema creation and column migrations, row mappers, text normalisers, prompt formatting, paging and search: no property that spans functions.
- The repeated seeding of the default pipeline, which would clash with the unique index once another pipeline is default.
- The backfill of `src/contacts.ts`, which depends on router tables that are not part of this model.
- Contact tags, notes, display fields other than name, phone and email, and the audit columns of rows.
- The rows of the separate CRM event log, and what mirrors them in the contact event log; none of them is an `identity.merged` row.
- The scanner's order of rows within a query, except where the source orders it.
- Gateway message sends, media, TTS, mentions, edit, delete and sticker subscriptions: foreign I/O. Sends of typing presence are entries of a log.
- The consumer's own typing heartbeat after `activateTarget`: it starts typing independently of the gateway and is not in the gateway's log.
- Thread-creation handling in delivery observations, and presence diagnostics.
- Joining presence target keys by `:`: a surface key and an anchor are taken as the pair they are made of.
- Stdout of the remote process, and an exit payload without a `code` field, which closes the exit guard like a number.
- Node calls at most one write at a time; the model allows several pending chunks, which is more than the stream produces.
- The single-pattern path of `subscribe`, which is the duplicate window alone, and request types without a guard policy, which go straight to their handler.
- NATS connection, retry and drain code, SSH spawning, PM2 calls, file reads.
- What `mktemp`, `printf`, `chmod` and `rm` do: `printf` is taken to write its argument and a newline, `.` to read that back. Of other expansions and operators the shell of `PosixShell` knows nothing and gives up; the generated text has none.
- A call to `return` on the merged stream while its consumer sleeps takes effect at the next yield, and is modelled there.
- ContactStore.Store.constructor: takes the seeded stages as a parameter, because pipelines carry nothing else here.
- TaskGroups.GroupByProject: groups tree values; the sort of each group in place is `TaskNodes.SortNodes`.
- TaskNodes.SortNodes: returns the sorted list instead of writing into the array object, and fills the memo before sorting instead of inside the comparator, because the built-in sort is specified by its result.
- PresenceInterleaving.EveryInterleavingSurvives: keeps of each handler its state changes and its continuations, and of the log the typing-on entries, not the choice of targets or typing-off.
- `src/bot.ts`, `src/daemon.ts`, `src/managed-runtime.ts`, `src/managed-runtime-rebind.ts`, `src/delivery-barriers.ts`, `src/prompt-builder.ts`, the options and page-bridge UI: small case splits or guarantees that live in modules outside this model.
