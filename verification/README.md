# Verified core of the enterprise platform

This project models the parts of the platform whose correctness spans whole runs or every input, and proves what they
promise. `dafny verify dfyconfig.toml` checks all of it.

| Part | Files | What is proved |
|---|---|---|
| Audit chain | `CanonicalJson.dfy`, `AuditChain.dfy` | The canonical text determines a value up to key order; one row hash binds the whole chain before it; each tenant's chain verifies after any interleaving of tenants and failed commits. |
| Transactional outbox | `Outbox.dfy`, `OutboxRuns.dfy`, `OutboxOutcomes.dfy`, `OutboxEffects.dfy`, `OutboxDuplicates.dfy`, `OutboxOrder.dfy`, `OutboxStore.dfy` | What becomes of every row, dead letter, key and container; commit, publish with crash points, dead letters, replay and idempotent consumption as a state machine: delivery, conservation, draining, numbering and counting over every run, and exactly when an event is sent twice or read out of commit order. |
| Governance | `Governance.dfy`, `SodRuns.dfy`, `PaymentRuns.dfy`, `FourEyes.dfy`, `ConfigRuns.dfy`, `WorkflowHistory.dfy`, `WorkflowRuns.dfy`, `WorkflowProgress.dfy`, `WorkflowDeadlines.dfy`, `WorkflowApprovals.dfy`, `GovernanceEffects.dfy`, `WorkflowEffects.dfy`, `GovernanceStore.dfy` | What each request is answered and what it changes; payments, configuration, business rules and workflows around one action log: separation of duties, two people behind every approval, the configuration log as a last-approved map, live workflows walking the simulated path, which go on exactly while a task is pending within its authority window. |
| Health map | `HealthMap.dfy`, `HealthKnots.dfy`, `HealthInputs.dfy` | Every status told from nodes, edges and probes; the memoised search is sound on every graph, and means reachability exactly on those in which no two different nodes depend on each other. |
| Client document | `Decimal.dfy`, `PdfText.dfy`, `Pdf.dfy`, `PdfReader.dfy`, `PdfRoundTrip.dfy` | A reader written from ISO 32000-1:2008 (sections 7.3.4.2, 7.3.8, 7.5.4, 7.5.5 and 7.7.3) gets every rendered page back through the file's own table. |
| CSV import | `Csv.dfy`, `CsvTable.dfy`, `CsvRoundTrip.dfy`, `CsvQuoted.dfy` | Which tables written as RFC 4180 (section 2, rules 5 to 7) says are read back: quotes, doubled quotes and commas always; of line breaks inside quotes (rule 6) carriage returns alone, but no line feed. |
| Login limiter | `RateLimiter.dfy` | Pruning changes no verdict, and no window holds more than the maximum, exactly while the clock does not go back. |
| Pricing | `Pricing.dfy` | Exactly which amounts always add up, and exactly when the default markup meets the margin floor. |

Where the program updates fields in place, a class does so too, and each of its methods is proved equal to a function on
snapshots of the state. What those functions do is then told from the state and the request alone, without them
(`OutboxOutcomes`, `OutboxEffects`, `GovernanceEffects`, `WorkflowEffects`, `HealthInputs`), and the lemmas about whole
runs are about them. Some results say where the program stops
short of what one might expect of it:

- A pass sends an event twice exactly when it sends one that is on the bus and that its transport has forgotten or may
  repeat (`OutboxDuplicates.PassDuplicates`, and `OutboxDuplicates.RunDuplicates` for whole runs). A store without a
  configured transport gets a new one for every pass (`apps/api/src/events/transport-init.ts:63-71`), a `RestartStep`
  before every `PublishStep`. That is harmless exactly while nothing is pending whose event was sent
  (`OutboxDuplicates.RestartHarmless`), and it takes a crash after sending or a replay to bring that about
  (`OutboxDuplicates.DuplicatesNeedTwoFaults`).
- An aggregate is read back in commit order in every run exactly when the catalogue has the same ordering for all the
  event types committed for it; for each mixed pair there is a run that is not (`OutboxOrder.InOrderIffOneOrdering`). A single run is in
  order exactly when the numbers never decrease, an absent one counting as zero (`OutboxOrder.InOrderExactly`).
- Key order shows in the canonical text exactly when the platform's collation ties two different keys
  (`CanonicalJson.KeyOrderHiddenIffNoTies`).
- Every health status is right for all kinds of node, probes and listing orders exactly when no two different nodes depend
  on each other (`HealthKnots.ExactIffUnknotted`); `HealthKnots.CycleHidesOutage` is an input on which an outage is missed.
- From some reading of the clock on, a workflow instance can be decided further, by any steps but its cancellation,
  exactly when one of its tasks is pending and its authority has not run out (`WorkflowProgress.MovesIffOpen`). Only start
  tasks have deadlines, so once a decision was taken a running instance can always be decided further
  (`WorkflowDeadlines.MovesOnceDecided`). Before that it can miss one: a start task that nobody decides within a day stays
  pending for good when it has no service level (`WorkflowDeadlines.WindowCloses`), and one that has a service level is
  escalated (`WorkflowDeadlines.DueGetsStuck`), after which only a cancellation moves its instance
  (`WorkflowRuns.EscalationBlocks`).
- The limiter answers like one with full history exactly when the clock does not go back, and so keeps its limit
  (`RateLimiter.AgreesIffClockAdvances`, `RateLimiter.LimitIffClockAdvances`).
- Cost categories add up to the total for any number of lines with an amount exactly when the amount is in whole cents
  (`Pricing.AddsUpIffWholeCents`). Lines the program creates are (`Pricing.LineTotalIsCents`); a stored line need not be.
- A table written with every field in quotes comes back within the limits exactly when no field holds a line feed, the
  column names are distinct, non-empty and trimmed, and none of them is `__proto__` (`CsvQuoted.QuotedComesBack`).
- A one-cent cost with no fee or tax misses the margin floor (`Pricing.DefaultMarkupMeetsFloor` has the exact condition).

Identifiers are numbers that are never reused; times are integers; `authorize` and schema checks are a boolean that may
refuse; SHA-256 and `localeCompare` are function parameters. Separation of duties holds for principals whose tenant never
changes; `SodRuns.MovingTenantsBreaksSeparation` shows a run that needs this.

## Model

| member | source | states |
|---|---|---|
| `CanonicalJson.CanonicalIffSameMeaning` | packages/kernel/src/crypto.ts:20-30 | Two values without repeated keys have equal canonical text if and only if they are equal up to key order, for a collation that ties no different keys. |
| `CanonicalJson.TextDeterminesMeaning` | packages/kernel/src/crypto.ts:20-30 | Equal canonical text means equal values up to key order, whatever the collation. |
| `CanonicalJson.KeyOrderHiddenIffNoTies` | packages/kernel/src/crypto.ts:26-29 | The text forgets key order for all values exactly when no two different keys compare equal. |
| `CanonicalJson.TiedKeysShowOrder` | packages/kernel/src/crypto.ts:26-29 | Two keys that compare equal, in two orders, give two texts of the same value. |
| `CanonicalJson.CanonicalIsPrint` | packages/kernel/src/crypto.ts:20-30 | The canonical text is the plain print of the value with members sorted and absent values null. |
| `CanonicalJson.PrintDecode` | packages/kernel/src/crypto.ts:20-30 | A printed value followed by a separator is read back in one way: nothing printed is a prefix of another value's text. |
| `AuditChain.VerifyAuditChain` | packages/kernel/src/crypto.ts:58-73 | Accepts exactly the lists in which every row is hashed onto the one before, and otherwise names the first row that is not. |
| `AuditChain.MeaningTellsRecord` | packages/kernel/src/crypto.ts:46-56 | Two audit records whose JSON objects mean the same agree in every field, absent ones included. |
| `AuditChain.LastHashBindsChain` | packages/kernel/src/crypto.ts:46-73 | Two accepted chains with the same last row hash have the same length and the same records, unless the hash collides on the texts of these very chains. |
| `AuditChain.TipIsLastOfTenant` | apps/api/src/store.ts:1907-1915 | Searching the shared list backwards finds the last row hash of the tenant's own list. |
| `AuditChain.RecordKeepsLinked` | apps/api/src/store.ts:1907-1915 | Recording an event for one tenant keeps every tenant's own list linked. |
| `AuditChain.TruncateKeepsLinked` | apps/api/src/outbox.ts:257-299 | Cutting the shared list back after a failed commit keeps every tenant's own list linked. |
| `AuditChain.EveryRunVerifies` | apps/api/src/app.ts:335-346 | After any interleaving of recorded events and cuts every tenant's filtered list is accepted. |
| `AuditChain.AuditLog.RecordAudit` | apps/api/src/store.ts:1907-1915 | Appends the record chained onto the tenant's latest event, and changes nothing else. |
| `AuditChain.AuditLog.CutBackTo` | apps/api/src/outbox.ts:257-299 | The list is its old prefix of the given length. |
| `AuditChain.AuditLog.VerifyChain` | apps/api/src/app.ts:335-346 | On any list, tampered with or not: answers whether the tenant's own part is linked, which it always is in a list that was only recorded and cut. |
| `OutboxRuns.EveryRunStoreOk` | apps/api/src/outbox.ts:193-311 | In every run ids are fresh, rows of one ordering key carry strictly increasing numbers, each row has at most one publisher dead letter and every dead-lettered row has one, the commit and dead-letter counters equal the list lengths, and processed keys are unique. |
| `OutboxEffects.RefusedCommit` | apps/api/src/outbox.ts:219-245 | A commit that is not permitted changes nothing. |
| `OutboxEffects.FailingCommit` | apps/api/src/outbox.ts:293-335 | A failing commit leaves instances, tasks, payments, rows, dead letters and counters as before, and what was written to fields. |
| `OutboxEffects.SuccessfulCommit` | apps/api/src/outbox.ts:253-311 | A commit that succeeds leaves the domain as written and adds exactly one row: pending, untried, with the input's type, tenant and aggregate, under fresh identifiers. |
| `OutboxEffects.CommitNumbers` | apps/api/src/outbox.ts:193-202 | Every permitted commit, failing ones included, takes the next number of exactly its ordering key, and the row carries it. |
| `OutboxEffects.DomainAsWritten` | apps/api/src/outbox.ts:313-335 | In every run the containers are those of the last successful commit and the fields those of the last permitted one. |
| `OutboxRuns.DeliveredToBus` | apps/api/src/outbox.ts:356-456 | In every run each published row's event is on the bus and every bus event is a committed row's; without a restart or allowed duplicates no event is on the bus twice. `OutboxDuplicates` has the exact conditions. |
| `OutboxDuplicates.PassDuplicates` | apps/api/src/outbox.ts:356-456 | At every crash point and for every option, a pass leaves no event on the bus twice if and only if there was none and each event it sends, one after the other, is new to the bus or dropped because the transport remembers it. |
| `OutboxDuplicates.RunDuplicates` | packages/kernel/src/event-transport.ts:16-34 | In every run, crashes, restarts, replays and allowed duplicates included, no event is on the bus twice if and only if each pass was safe in that way. |
| `OutboxDuplicates.RestartHarmless` | apps/api/src/events/transport-init.ts:63-71 | After any run a pass over a new transport leaves no event on the bus twice if and only if there was none and nothing pending is on the bus. |
| `OutboxDuplicates.DuplicatesNeedTwoFaults` | apps/api/src/outbox.ts:356-456 | Of restarts, allowed duplicates, crashes after sending and replays: the runs with some of these never put an event on the bus twice if and only if they lack both of the first two or both of the last two. |
| `OutboxRuns.PassConservesRows` | apps/api/src/outbox.ts:356-460 | At every crash point, rows pending before a pass equal those published, dead-lettered and reported as remaining, and the report counts the rows still pending. |
| `OutboxOutcomes.PassOutcomes` | apps/api/src/outbox.ts:380-453 | For every state and all options, at every crash point: a pending row that the pass gets past is published if and only if its event is in no failing set and not injected to fail, given up if and only if it failed and its attempts plus one reach the maximum, and else pending with one attempt more and its error; the row of a crash is left pending; no other row changes. |
| `OutboxOutcomes.PassCrashes` | apps/api/src/outbox.ts:370-442 | A pass crashes if and only if its options say so from the start or at a pending row, and reports the first such point. |
| `OutboxOutcomes.PassReports` | apps/api/src/outbox.ts:417-456 | Without a crash the report and the counters are the numbers of pending rows that were published, given up, refused and tried again. |
| `OutboxOutcomes.PassTells` | apps/api/src/outbox.ts:462-489 | The letters about a row that was given up tell its last error and attempts, in the one there was or a new one with its tenant and event; all others are as they were. |
| `OutboxRuns.PassesDrainQueue` | apps/api/src/outbox.ts:380-456 | As many crash-free passes in a row as the maximum of attempts leave no pending row, whatever fails. |
| `OutboxRuns.AttemptFrame` | apps/api/src/outbox.ts:380-453 | Publishing one row changes that row's delivery state only; identity, event and number stay, as do all other rows. |
| `OutboxRuns.ReplayTakesEffectOnce` | apps/api/src/outbox.ts:626-679 | In every run a replay request is carried out at most once. |
| `OutboxRuns.DeliveryBalance` | apps/api/src/outbox.ts:491-568 | In every run completions of a key equal the times it was forgotten plus one if it is processed now. |
| `OutboxRuns.CompletesOncePlusForced` | apps/api/src/outbox.ts:516-568 | A handler completes at most once per tenant, consumer and event, plus once per forced redelivery that was let in, failed ones included. |
| `OutboxEffects.DeliveryOutcomes` | apps/api/src/outbox.ts:507-567 | A delivery is refused if and only if it is of another tenant or not permitted, already processed if and only if its key is there and it is not forced, and otherwise processed or failed as its handler does not throw or does. |
| `OutboxEffects.DeliveryEffects` | apps/api/src/outbox.ts:524-567 | A processed delivery leaves its key there once more than without it, a failed one takes it away and adds a dead letter that tells event and consumer; any other changes nothing. |
| `OutboxEffects.DeliveredIsProcessed` | apps/api/src/outbox.ts:527-567 | In every run, an event delivered in its tenant to a permitted consumer whose handler did not throw was completed by that consumer at least once. |
| `OutboxEffects.RequestTaken` | apps/api/src/outbox.ts:584-606 | A replay request is taken if and only if its reason is not blank, its letters exist in the tenant and a reexecution is permitted; it then stands approved, or waits if it reexecutes. |
| `OutboxEffects.ExecutionReplays` | apps/api/src/outbox.ts:641-663 | An executed request puts exactly the rows its letters are about back in the queue, untried, marks those letters, and counts them. |
| `OutboxEffects.ExecutionRefused` | apps/api/src/outbox.ts:641-648 | Without a request in the tenant, or one that may be executed, nothing changes. |
| `OutboxOrder.SortChangesNothing` | apps/api/src/outbox.ts:1068-1083 | The stable sort by number leaves a list as it is if and only if its numbers never decrease. |
| `OutboxEffects.ReadsPublished` | apps/api/src/outbox.ts:1068-1083 | What is read of an aggregate are the envelopes of its published rows in the tenant, each as often as it is there, by numbers that never decrease. |
| `OutboxOrder.InOrderExactly` | apps/api/src/outbox.ts:1068-1083 | In every run an aggregate's published events are returned in commit order if and only if the numbers of its published rows never decrease. |
| `OutboxOrder.PublishedInCommitOrder` | apps/api/src/outbox.ts:193-202 | In every run an aggregate whose rows share any one ordering key, or are all unnumbered, has its published events returned in commit order. |
| `OutboxOrder.InOrderIffOneOrdering` | apps/api/src/outbox.ts:193-202 | For a catalogue that stays as it is and some of its event types: an aggregate that only they are committed for is returned in commit order in every run if and only if the catalogue has the same ordering for them all. |
| `OutboxStore.Store.constructor` | apps/api/src/outbox.ts:37-58 | A new store is the empty state. |
| `OutboxStore.Store.AssignSequence` | apps/api/src/outbox.ts:193-202 | Returns and stores the next number of the ordering key, or neither for an unordered type. |
| `OutboxStore.Store.CommitWithOutbox` | apps/api/src/outbox.ts:204-334 | The new state is the commit step of the old one, which `OutboxEffects` tells case by case; succeeds exactly when permitted and nothing fails. |
| `OutboxStore.Store.MoveRowToDlq` | apps/api/src/outbox.ts:462-489 | The row's dead letter is opened or refreshed as the state machine says. |
| `OutboxStore.Store.TransportPublish` | packages/kernel/src/event-transport.ts:23-29 | An event already sent is dropped unless duplicates are allowed. |
| `OutboxStore.Store.PublishRow` | apps/api/src/outbox.ts:380-453 | One pass of the loop body is the attempt step, crash points included; `OutboxOutcomes.PassOutcomes` tells what becomes of the row. |
| `OutboxStore.Store.PublishPendingOutbox` | apps/api/src/outbox.ts:356-456 | The loop over the pending rows computes the publish step and its report, which `OutboxOutcomes` tells from rows and options. |
| `OutboxStore.Store.ConsumeEventIdempotent` | apps/api/src/outbox.ts:491-568 | The new state and the outcome are those of the delivery step, which `OutboxEffects.DeliveryOutcomes` and `DeliveryEffects` tell. |
| `OutboxStore.Store.RequestReplayOf` | apps/api/src/outbox.ts:570-624 | The new state is the request step: refused for a blank reason, a missing dead letter or a denied re-execution. |
| `OutboxStore.Store.ExecuteReplayRequest` | apps/api/src/outbox.ts:626-679 | The loop over the dead letters computes the replay step and how many rows it moved. |
| `Governance.SodViolation` | packages/kernel/src/sod.ts:9-27 | Finds no rule if and only if no rule has an earlier action of the same principal on its other side, for the same object where the rule says so; otherwise names one that has. |
| `Governance.CheckComplete` | apps/api/src/workflow.ts:318-406 | A decision goes through only for a pending workflow task of the principal's tenant within its authority window, by no AI agent, in a running instance that somebody else started and whose version is published, with a key on no other workflow task and without a separation-of-duties conflict. |
| `Governance.SimulatePath` | apps/api/src/workflow.ts:560-567 | The loop computes the path that the decisions take from the start node, dangling keys and cycles included. |
| `SodRuns.VersionNameInjective` | apps/api/src/admin.ts:434-438 | A `key:vN` name tells its key and its number, whatever colons the key holds. |
| `SodRuns.NewConfigName` | apps/api/src/admin.ts:418-438 | A new version's name is never one its author has approved. |
| `SodRuns.NewRuleName` | apps/api/src/workflow.ts:711-743 | A new rule version's name is never one its author has approved. |
| `SodRuns.StepKeepsLogOk` | apps/api/src/app.ts:128-320 | Every operation of the four flows keeps the action log separated and its objects known. |
| `SodRuns.EveryRunSeparated` | apps/api/src/store.ts:1632-1663 | In every run from the seeded store no principal is on both sides of a seeded rule for the same object. |
| `SodRuns.MovingTenantsBreaksSeparation` | apps/api/src/admin.ts:434-438 | Why `EveryRunSeparated` fixes tenants: names carry no tenant, so a principal that approved a version in one tenant and drafted the same key in another would be on both sides of the configuration rule. Nothing in the source moves a principal between tenants. |
| `PaymentRuns.EveryRunPaymentsOk` | apps/api/src/app.ts:128-320 | In every run each payment has exactly one approval and the two have the same status. |
| `PaymentRuns.DecisionsAreFinal` | apps/api/src/app.ts:257-300 | A decided payment stays as it was decided over any further steps, and no payment changes its author. |
| `GovernanceEffects.PaymentCreated` | apps/api/src/app.ts:156-184 | A permitted request adds a pending payment and its pending approval by the principal, and logs it; any other changes nothing. |
| `GovernanceEffects.PaymentDecided` | apps/api/src/app.ts:216-306 | A permitted decision on a pending approval of the tenant, by somebody who is no AI agent, did not ask for it and did not create the payment, leaves both approved if it approves and rejected if it rejects; any other changes nothing. |
| `GovernanceEffects.StatusIsDecision` | apps/api/src/app.ts:300-301 | In every run a payment is approved if and only if the step that settled it was a decision to approve, rejected if and only if it was one to reject, and else pending. |
| `FourEyes.EveryRunFourEyes` | packages/kernel/src/approval.ts:10-21 | In every run each decided payment, approved or retired configuration version but the seeded one, effective rule version and decided workflow task has a decision in the log, taken in its tenant by somebody other than its author. |
| `FourEyes.DecideApprovalVouched` | apps/api/src/app.ts:216-320 | A payment decision is vouched for by somebody other than the payment's author. |
| `FourEyes.ApproveConfigVouched` | apps/api/src/admin.ts:454-542 | Approving a version and retiring the others leaves every version that is no draft vouched for. |
| `FourEyes.SettleVouched` | apps/api/src/workflow.ts:372-418 | A workflow decision is vouched for by somebody other than who started the instance; `WorkflowApprovals.EveryDecisionLogged` counts one entry for each decided task. |
| `WorkflowApprovals.EveryDecisionLogged` | apps/api/src/workflow.ts:396-418 | In every run the log holds exactly as many decisions on each instance as it has decided workflow tasks, each taken in its tenant by somebody other than who started it. |
| `ConfigRuns.EveryRunConfigsOk` | apps/api/src/admin.ts:418-523 | In every run a tenant's key has each version number once and at most one approved version. |
| `GovernanceEffects.ConfigDrafted` | apps/api/src/admin.ts:418-438 | A permitted draft gets one more than the highest number of its key in the tenant, and is logged under that name. |
| `GovernanceEffects.ConfigApproved` | apps/api/src/admin.ts:454-528 | A permitted approval of the tenant's draft by somebody who is no AI agent, did not write it and logged no draft of its name makes it approved and retires the key's other approved versions; any other changes nothing. |
| `GovernanceEffects.RolledBack` | apps/api/src/admin.ts:544-564 | A rollback drafts the value of the first version with that number that was approved at some time, and does nothing without one. |
| `GovernanceEffects.RuleWritten` | apps/api/src/workflow.ts:704-743 | A permitted request adds the next draft of the tenant's rule with the key, or the first of a new rule, and logs it. |
| `GovernanceEffects.RuleApproved` | apps/api/src/workflow.ts:766-813 | A draft of the tenant's rule becomes effective for somebody permitted who is no AI agent, did not write it and logged no draft of its name; any other request changes nothing. |
| `GovernanceEffects.RuleRetired` | apps/api/src/workflow.ts:595-630 | A permitted retirement retires exactly that version. |
| `ConfigRuns.GetConfigIsLastApproved` | apps/api/src/app.ts:348-360 | In every run the version log refines a map that keeps only the last approved value of each key. |
| `ConfigRuns.ApproveGet` | apps/api/src/admin.ts:508-523 | An approval makes its draft's value the one that is read, even when the draft is older than the approved version, and no other key's. |
| `ConfigRuns.RollbackRestores` | apps/api/src/admin.ts:544-564 | Approving a rollback's draft, after any steps in between, makes the key read as the version gone back to. |
| `WorkflowHistory.PathSnoc` | packages/kernel/src/workflow.ts:191-199 | A walk that used up its decisions goes one node further with the next decision, or ends. |
| `WorkflowHistory.DecideHistory` | apps/api/src/workflow.ts:408-442 | After a decision all the instance's tasks are decided, and the simulated path is the nodes walked plus the next one, if there is one. |
| `WorkflowRuns.EveryRunWorkflowOk` | apps/api/src/workflow.ts:157-536 | In every run identifiers are unique, an idempotency key is on at most one workflow task per tenant, a definition has at most one published version, and every instance has a proper history. |
| `WorkflowRuns.LiveFollowsSimulation` | apps/api/src/workflow.ts:420-442 | In every run the nodes of an instance's workflow tasks, in order, are the path the simulator computes on the instance's version for the decisions taken. |
| `WorkflowRuns.OpenTasks` | apps/api/src/workflow.ts:201-522 | A running instance has exactly one open workflow task, at its current node, and the others are decided; an ended one has none pending. |
| `WorkflowRuns.EndsAsDecided` | apps/api/src/workflow.ts:420-443 | An instance is completed only by an approval that leads nowhere further, and cancelled only by such a rejection or by hand, with its last workflow task cancelled or escalated. |
| `WorkflowRuns.SettledForGood` | apps/api/src/workflow.ts:396-536 | Over any steps, only pending workflow tasks and running instances ever change: each is decided at most once. |
| `WorkflowRuns.EscalationBlocks` | apps/api/src/workflow.ts:524-536 | In every run an instance whose open workflow task was escalated stays as it is over any further steps but its cancellation. |
| `WorkflowProgress.MovesIffOpen` | apps/api/src/workflow.ts:285-471 | In every run, for every instance and every reading of the clock: some steps from then on, with a clock that never goes back and without its cancellation, take another decision on it if and only if one of its workflow tasks is pending and has no authority window or one that has not closed. |
| `WorkflowDeadlines.EveryRunLaterTimeless` | apps/api/src/workflow.ts:247-255 | In every run each workflow task but an instance's first has no due date and no authority window, and is never escalated. |
| `WorkflowDeadlines.MovesOnceDecided` | apps/api/src/workflow.ts:426-442 | In every run, a running instance on which a decision was taken can be decided further, whatever the clock reads. |
| `WorkflowDeadlines.WindowCloses` | apps/api/src/workflow.ts:345-348 | A run, with a clock that goes forward, to a running instance whose start task has no service level and was open for more than a day: it is still pending after escalation, and no steps from then on take a decision on it. |
| `WorkflowDeadlines.DueGetsStuck` | apps/api/src/workflow.ts:524-536 | For every service level and every later escalation, a run to an instance whose start task is escalated, as `WorkflowRuns.EscalationBlocks` assumes. |
| `WorkflowRuns.PublishOk` | apps/api/src/workflow.ts:157-199 | Publishing keeps at most one published version of each definition and every running history. |
| `WorkflowEffects.DefinitionCreated` | apps/api/src/workflow.ts:68-109 | A permitted request adds the definition if and only if the tenant has none with its key. |
| `WorkflowEffects.VersionAdded` | apps/api/src/workflow.ts:111-155 | A permitted version of one of the tenant's definitions is a draft with one more than its highest number. |
| `WorkflowEffects.VersionPublished` | apps/api/src/workflow.ts:157-199 | Publishing makes the version published, retires the definition's published ones and touches no other; without permission or the tenant's definition nothing changes. |
| `WorkflowEffects.InstanceStarted` | apps/api/src/workflow.ts:216-256 | A permitted start runs the published version with the highest number: instance, start task with kind, date and window, and log entry. |
| `WorkflowEffects.EarlyAnswers` | apps/api/src/workflow.ts:302-370 | What the first checks of a completion answer, each for what those before it let through: simulation, tenant, repeated key, reused key, AI agent, closed window, permission. |
| `WorkflowEffects.LateAnswers` | apps/api/src/workflow.ts:372-406 | What the later checks answer: cancelled, not running, version not in effect, not pending, AI agent, own instance, separation of duties, decided. |
| `WorkflowEffects.TaskCompleted` | apps/api/src/workflow.ts:408-442 | A decision that goes through settles its task as it says, logs it, and ends the instance or adds the task its version's graph leads to; any other changes nothing. |
| `WorkflowEffects.RetryIsIdempotent` | apps/api/src/workflow.ts:328-334 | After a decision went through and any further steps, asking again for the task with the same key in the tenant answers the replay, and changes nothing. |
| `WorkflowEffects.InstanceCancels` | apps/api/src/workflow.ts:494-506 | A running instance of the tenant is cancelled with exactly its pending tasks. |
| `WorkflowEffects.NothingToCancel` | apps/api/src/workflow.ts:481-497 | A simulated or refused request, or one for no running instance of the tenant, changes nothing. |
| `WorkflowEffects.TasksEscalate` | apps/api/src/workflow.ts:524-536 | Exactly the pending tasks whose date has come are escalated. |
| `GovernanceStore.Store.constructor` | apps/api/src/store.ts:1614-1631 | The seeded store. |
| `GovernanceStore.Store.MakePayment` | apps/api/src/app.ts:128-195 | The new state is the payment step: payment, approval and logged action, or nothing. |
| `GovernanceStore.Store.DecidePayment` | apps/api/src/app.ts:216-320 | The new state is the decision step, refusals in the program's order; `GovernanceEffects.PaymentDecided` tells it. |
| `GovernanceStore.Store.DraftConfig` | apps/api/src/admin.ts:397-452 | The new state is the draft step with the next number of the key. |
| `GovernanceStore.Store.ApproveDraft` | apps/api/src/admin.ts:454-542 | The new state is the approval step; reports whether the draft was approved. |
| `GovernanceStore.Store.RetireOtherConfigs` | apps/api/src/admin.ts:508-517 | The loop retires every other approved version of the draft's key in its tenant, and changes no other. |
| `GovernanceStore.Store.RollbackTo` | apps/api/src/admin.ts:544-564 | The new state is the rollback step. |
| `GovernanceStore.Store.WriteRule` | apps/api/src/workflow.ts:691-757 | The new state is the step that adds a rule version, and the rule when it is new. |
| `GovernanceStore.Store.ApproveRuleVersion` | apps/api/src/workflow.ts:759-829 | The new state is the rule approval step. |
| `GovernanceStore.Store.Publish` | apps/api/src/workflow.ts:157-199 | The new state is the publication step. |
| `GovernanceStore.Store.RetirePublishedVersions` | apps/api/src/workflow.ts:179-183 | The loop retires every published version of the definition, and changes no other. |
| `GovernanceStore.Store.StartInstance` | apps/api/src/workflow.ts:201-283 | The new state is the start step, bound to the published version with the highest number. |
| `GovernanceStore.Store.CompleteTask` | apps/api/src/workflow.ts:285-471 | The new state and the outcome are those of the completion step. |
| `GovernanceStore.Store.SettleTask` | apps/api/src/workflow.ts:408-442 | A decision changes its workflow task, its instance and the log, and adds the next workflow task, as the step says. |
| `GovernanceStore.Store.Cancel` | apps/api/src/workflow.ts:473-522 | The new state is the cancellation step. |
| `GovernanceStore.Store.CancelPendingTasks` | apps/api/src/workflow.ts:501-505 | The loop cancels exactly the instance's pending workflow tasks. |
| `GovernanceStore.Store.EscalateOverdue` | apps/api/src/workflow.ts:524-536 | The loop escalates exactly the pending workflow tasks that are due, and returns those in task order. |
| `HealthMap.EveryStatusSound` | packages/kernel/src/observability.ts:74-139 | On every graph each node is settled, one that is degraded or unavailable has a cause in its own probe or a reachable one's, and its reason says which. |
| `HealthMap.UnknottedStatusExact` | packages/kernel/src/observability.ts:74-139 | Where no two different nodes depending on each other are in reach, self-dependence allowed, a node is unavailable if and only if its own probe is, and otherwise degraded if and only if its own probe is degraded or a reachable node's is bad. |
| `HealthInputs.StatusFromInputs` | packages/kernel/src/observability.ts:32-139 | From nodes, edges and probes alone: where no two different nodes need each other through `depends_on` edges between listed nodes, a node is unavailable if and only if its own probe is, else degraded if it needs something bad, else as its own probe says. |
| `HealthInputs.CauseFromInputs` | packages/kernel/src/observability.ts:32-139 | From the same, on every graph: unavailable exactly of itself, degraded only for a cause, and with the reason for it. |
| `HealthInputs.OwnIsSelf` | packages/kernel/src/observability.ts:32-37 | A database has the database probe, an application the one its name tells in any case, anything else none. |
| `HealthKnots.ExactIffUnknotted` | packages/kernel/src/observability.ts:74-139 | For the identifiers of nodes and the edges between them, every status is exact for all kinds of node, all probes and all listing orders if and only if no two different nodes depend on each other. |
| `HealthKnots.KnotHides` | packages/kernel/src/observability.ts:102-125 | Of two nodes that depend on each other, the first listed and the only bad one of the graph, the other is settled as not bad although it should be degraded. |
| `HealthKnots.CycleHidesOutage` | packages/kernel/src/observability.ts:102-125 | Nodes, edges and probes for this: a service is settled Ok although the unavailable database it needs makes it degraded. |
| `HealthMap.RollupMeaning` | packages/kernel/src/observability.ts:43-48 | Rolling up what a node's dependencies mean gives what the node means. |
| `HealthMap.OrderDoesNotMatter` | packages/kernel/src/observability.ts:74-139 | Listing nodes and edges in another order changes no status of a node that reaches no two different nodes depending on each other. |
| `HealthMap.Resolver.ResolveNode` | packages/kernel/src/observability.ts:102-125 | The recursive search over its maps and sets ends on every graph and computes the resolution of the node from the old memo. |
| `HealthMap.BuildDeps` | packages/kernel/src/observability.ts:79-92 | One push per counted edge gives each node its dependencies in edge order; `HealthInputs.StatusFromInputs` tells which edges count. |
| `HealthMap.BuildHealthDependencyMap` | packages/kernel/src/observability.ts:74-139 | One status per node, in node order, each as the search settles it; `HealthInputs` tells each from nodes, edges and probes. |
| `Decimal.DecLength` | packages/kernel/src/issued-client-document.ts:237-239 | A number is printed with at most k digits if and only if it is below ten to the k. |
| `PdfText.EscapePasses` | packages/kernel/src/issued-client-document.ts:140-142 | The three replacement passes escape each special character once: none touches what an earlier one put in. |
| `PdfText.WrapKeepsText` | packages/kernel/src/issued-client-document.ts:182-192 | The pieces of a line joined give the line, all but the last have exactly the limit, and the last no more. |
| `PdfText.NinetyWide` | packages/kernel/src/issued-client-document.ts:182-197 | No line of a document has more than 90 characters, and lines that have no more are left alone. |
| `PdfText.ChunksKeepLines` | packages/kernel/src/issued-client-document.ts:198-203 | The pages joined give the lines, all but the last hold exactly 48, and the last no more. |
| `PdfText.WrapLine` | packages/kernel/src/issued-client-document.ts:182-192 | The loop computes the pieces of a line. |
| `PdfText.Paginate` | packages/kernel/src/issued-client-document.ts:198-203 | The loop computes the pages, or one with the issuing entity. |
| `Pdf.BuildObjects` | packages/kernel/src/issued-client-document.ts:205-226 | The objects in file order: catalog, page tree, two a page, font. |
| `Pdf.Assemble` | packages/kernel/src/issued-client-document.ts:228-233 | The body, with the offset at which each object begins. |
| `Pdf.WriteXref` | packages/kernel/src/issued-client-document.ts:236-239 | The cross-reference section for those offsets. |
| `Pdf.RenderIssuedClientDocumentPdf` | packages/kernel/src/issued-client-document.ts:195-247 | The loops together compute the rendered file. |
| `PdfRoundTrip.RenderReadsBack` | packages/kernel/src/issued-client-document.ts:195-247 | For all lines a reader starting at the end of the file gets the wrapped lines back page by page, non-ASCII characters as question marks and carriage returns as line feeds. |
| `PdfRoundTrip.EveryEntryPoints` | packages/kernel/src/issued-client-document.ts:228-241 | Object i begins with its own number at the offset in its cross-reference entry, and the table is where `startxref` says. |
| `PdfRoundTrip.EntryBytes` | packages/kernel/src/issued-client-document.ts:237-239 | An entry has 20 bytes if and only if its offset is below ten to the tenth. |
| `PdfRoundTrip.StartXrefReads` | packages/kernel/src/issued-client-document.ts:234-241 | The number before the end marker is the offset of the cross-reference section. |
| `PdfRoundTrip.LiteralReads` | packages/kernel/src/issued-client-document.ts:140-142 | An escaped string is read back as its text, end-of-line markers folded. |
| `PdfRoundTrip.FoldEolIdentity` | packages/kernel/src/issued-client-document.ts:136-142 | A text comes back unchanged if and only if it holds no carriage return. |
| `PdfRoundTrip.KidsRead` | packages/kernel/src/issued-client-document.ts:207-209 | The page tree's references are read back as the pages' object numbers. |
| `PdfRoundTrip.PageReads` | packages/kernel/src/issued-client-document.ts:211-225 | A page's references lead to its content, whose stream is as long as its length says, and to the font. |
| `PdfRoundTrip.DocumentReads` | packages/kernel/src/issued-client-document.ts:205-241 | From the end of the file a reader finds the table, the catalog and every page in order. |
| `Csv.SplitCsvLine` | packages/kernel/src/crm-import.ts:52-76 | The loop that moves its index by one or two computes the fields of the line. |
| `Csv.SplitRecovers` | packages/kernel/src/crm-import.ts:52-76 | Every non-empty list of fields is recovered from each of its RFC 4180 renderings, any field quoted and those without quotes and commas bare. |
| `Csv.QuotingNormalizes` | packages/kernel/src/crm-import.ts:52-76 | Writing any line's fields back in quotes gives a line with the same fields. |
| `CsvTable.ParseCsv` | packages/kernel/src/crm-import.ts:23-50 | The loop over the lines computes the table or the first error. |
| `CsvTable.BuildRow` | packages/kernel/src/crm-import.ts:38-42 | The loop over the columns computes the row's members. |
| `CsvRoundTrip.TableRecovered` | packages/kernel/src/crm-import.ts:23-50 | A written table without line feeds in its fields and with a usable header is read back for any quoting of its fields, line end, byte order mark and final line end, or gives exactly the error of the limit it exceeds. |
| `CsvRoundTrip.FieldsRecovered` | packages/kernel/src/crm-import.ts:38-42 | Such a table within the limits comes back field by field if and only if no column is called `__proto__`. |
| `CsvQuoted.QuotedComesBack` | packages/kernel/src/crm-import.ts:23-50 | A table with as many fields in every row as in its header, all in quotes, comes back field by field if and only if it has rows and keeps to both limits, its names are distinct, non-empty, trimmed and not `__proto__`, and no field holds a line feed. |
| `CsvRoundTrip.RowMembers` | packages/kernel/src/crm-import.ts:38-42 | A row has a member for every header but `__proto__`, with the field of its column. |
| `CsvRoundTrip.ParsedIsWellFormed` | packages/kernel/src/crm-import.ts:23-50 | Whatever the content, a table that is read keeps to both limits, has distinct non-empty headers and the same members in every row. |
| `CsvRoundTrip.ParseAnswers` | packages/kernel/src/crm-import.ts:23-50 | For any content the answer is the table or the first thing that fails: empty, too few lines, an unusable header, a row's number of fields, too many rows, too many bytes. |
| `CsvRoundTrip.RowsAnswer` | packages/kernel/src/crm-import.ts:34-37 | Rows are read if and only if all have the header's number of fields; otherwise the answer names the first that has not. |
| `RateLimiter.Limiter.Check` | apps/api/src/devtest-http-controls.ts:114-125 | The new times and the verdict are those of the pruning step; other keys stay. |
| `RateLimiter.PruningIsInvisible` | apps/api/src/devtest-http-controls.ts:109-127 | With a clock that does not go back every verdict is that of a limiter that keeps all accepted attempts. |
| `RateLimiter.AtMostMaximum` | apps/api/src/devtest-http-controls.ts:109-127 | No half-open window of the given length holds more than the maximum of a key's accepted attempts. |
| `RateLimiter.VerdictTells` | apps/api/src/devtest-http-controls.ts:114-125 | With a clock that does not go back, an attempt is refused if and only if its key was let through the maximum number of times in the window before it, and is told exactly how many more would be. |
| `RateLimiter.ClockGoingBack` | apps/api/src/devtest-http-controls.ts:114-118 | Whenever the clock goes back, unless by so much that nothing counts, two attempts before make the next verdict differ from that of full history. |
| `RateLimiter.AgreesIffClockAdvances` | apps/api/src/devtest-http-controls.ts:109-127 | After every history that ends at one reading of the clock the next verdict is that of full history if and only if the next reading is at least that one (or, with a negative window, so early that nothing counts). |
| `RateLimiter.LimitIffClockAdvances` | apps/api/src/devtest-http-controls.ts:109-127 | After every history that ends at one reading of the clock no window holds more than the maximum after the next attempt if and only if its reading is at least that one (or the window is empty). |
| `Pricing.LineTotalIsCents` | packages/kernel/src/costing.ts:145-147 | A line total is in whole cents. |
| `Pricing.LineTotalIsProduct` | packages/kernel/src/costing.ts:145-147 | A line total is quantity times unit cost to the nearest cent, half a cent going up. |
| `Pricing.PriceIsComposed` | packages/kernel/src/h203-commercial-policy.ts:100-150 | What each amount of a composition is to the nearest cent: cost, price with the markup or override, fee, tax, final price, margin, its share, and the price per person. |
| `Pricing.ComputeCostTotals` | packages/kernel/src/costing.ts:165-201 | The loop computes the rounded total and the category sums rounded after every line; price, margin and share follow. |
| `Pricing.CategoriesAddUp` | packages/kernel/src/costing.ts:165-176 | With line totals in whole cents each category is its exact sum, and the categories add up to the total cost. |
| `Pricing.AddsUpIffWholeCents` | packages/kernel/src/costing.ts:165-176 | The categories add up to the total cost for every number of lines with an amount if and only if the amount is in whole cents. |
| `Pricing.ComposeClientPrice` | packages/kernel/src/h203-commercial-policy.ts:113-178 | Computes the composition, with the default markup only when neither markup nor price is given. |
| `Pricing.PriceAddsUp` | packages/kernel/src/h203-commercial-policy.ts:113-150 | Cost plus margin is the client price, always; base plus fee plus tax is if and only if no price overrides them or fee and tax cancel. |
| `Pricing.DefaultMarkupMeetsFloor` | packages/kernel/src/h203-commercial-policy.ts:113-185 | With the default markup and no negative amount the margin meets the floor if and only if the cost is at least two cents or some fee or tax is added. |

## Left out

- The PostgreSQL and NATS paths: code behind I/O. Only the in-memory store and transport are modelled.
- Commits that overlap across an `await`: each commit is one step, as the restore by length assumes.
- Role and attribute checks, schema validation and mode checks: a boolean that may refuse.
- SHA-256 and `localeCompare` are parameters; fresh identifiers are a counter; times are integers.
- Telemetry, counters of refusals and schema errors, and audit events inside the outbox and governance steps: the audit list is modelled on its own in `AuditChain.dfy`.
- Texts of exceptions: a failed publication or handler has one fixed text.
- Text is a sequence of Unicode characters: lone surrogates, and the two units of an astral character in wrapping, are not represented.
- JSON numbers other than integers, and the platform's own printing of them.
- The list of labels made from a document's payload, and the scan for forbidden words, which refuses some payloads before and after rendering.
- `PdfReader` reads what this writer and its peers may write: octal escapes, line continuations, comments and free white space between tokens are not read.
- The lock set around a workflow task's completion: completions are steps and never overlap.
- Names, reasons, context and time stamps of governance records, which no branch reads; effective dates of configuration and rules.
- The evaluation of rule conditions, the leave flow (which never logs the actions its seeded rule watches) and dead-letter management after the failure.
- `Round` is on exact reals: the rounding errors of binary floating point are not modelled.
- HealthMap.EveryStatusSound: sound only where a cycle is in reach, because there the program itself misses causes (`HealthKnots.CycleHidesOutage`); `HealthMap.UnknottedStatusExact` and `HealthKnots.ExactIffUnknotted` say where it does not.
- OutboxRuns.CompletesOncePlusForced: a handler either completes or throws; what it does to the store, in particular to the processed keys, is not modelled.
- A transport whose `publish` throws does so before it sends anything.
- Health map edges and probe names in the output, which are copied from the input.
