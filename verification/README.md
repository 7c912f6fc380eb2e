# WikiKit: a verified model of its core

WikiKit keeps reviewed knowledge: sources are archived, agents propose concepts, claims,
relations and decisions against them, a person approves or rejects each proposal, and
readers only ever see what was approved. This project models the parts of it that are
hard to get right and proves what they promise. `dafny verify dfyconfig.toml` checks all
of it.

| Part | Modules |
|---|---|
| When a schedule is due, and how workers share one timetable | `ScheduleClock`, `CivilCalendar`, `Timetable`, `ClaimProtocol` |
| The transactional outbox: fan-out, retries, circuit breaker, crashes anywhere | `Outbox` (state machine), `OutboxProgram` (the worker's code, proved to take only its steps) |
| The review gate: staging, approval, rejection, over every run | `StagingLocks`, `Staging`, `StagingProgram`, `Approval`, `ReviewOutcomes`, `ReviewRuns`, `ReviewProgram` |
| Contradictions, as the matcher, the lints, the review page and approval compute them | `Contradictions` |
| Source streams and the archive | `SourceStreams`, `Keyset` |
| Bundles: slugs, frontmatter, both formats, conformance, import | `Slugs`, `Frontmatter`, `Bundles`, `OkfBundles`, `OkfConformance`, `ImportBundle`, `YamlInstance` |
| Filters compiled to SQL | `FilterSql` |
| Migrations | `Migrations` |
| The charter document and its history | `Charter`, `Lines` |
| Statistics buckets and sums | `Buckets`, `LlmStats` |
| Agent briefing, audit payloads | `Briefing`, `Audit` |
| Strings, sorting, splitting; option and result types | `Text`, `Wrappers` |

Code that updates rows or variables step by step is modelled by methods and classes,
each proved against a specification function or a relation on states; the theorems are
about those specifications and about all runs of them. Time zones, YAML, case mapping,
collation, the hash function, object normalisation, the network and random jitter are
parameters, with only the assumptions their statements name.

What an operation computes is fixed twice: by the specification its code is proved
against, and by statements in the terms of its inputs and results alone - dates, clock
readings, rows, texts - that do not mention that specification's own parts.

## What the proofs found

Where the code does less than its own documentation says, the code is modelled as it is,
a witness shows the difference, and the exact condition is proved.

- A run can be missed: when a gap skips a wall clock across midnight, yesterday's due
  time resolves to an instant today, and the search starts today
  (`ScheduleClock.LeastOverAllDays`, `MidnightGapIsMissed`). The nine candidate days are
  all needed (`NinthCandidateIsNeeded`).
- A window can be claimed twice. The arming update does not check again that the window
  is still unset, and saving a schedule computes the next run from a clock read before its
  transaction, so either can write an old window back over one claimed meanwhile
  (`ClaimProtocol.LateArmRunsTwice`, `LateSaveRunsTwice`). Every armed window stays past
  the row's claims iff each value written is past them (`StepKeepsAhead`, `AheadExactly`),
  and a write that is not lets the window run again (`UnclearWriteRunsAgain`).
- Concepts are locked in one sorted pass so that stagings cannot deadlock, but decisions
  are then upserted in the order of the input. Two stagings that list two decisions in
  opposite orders can wait for each other (`StagingLocks.OppositeOrdersDeadlock`). Exactly
  which sets of inputs can deadlock is proved for any number of them
  (`DeadlocksAreTangles`) and spelt out for two (`PairDeadlocks`). Looking at pairs is not
  enough: three stagings can deadlock though no two of them can (`PairsAreNotEnough`). One
  common order of decisions is enough (`OneOrderIsSafe`).
- A delivery whose success is written and then reported as failed is overwritten with the
  failure and sent again (`Outbox.DeliveredIsSentAgain`). It is the only step that touches a
  delivered or dead row (`Outbox.StepKeepsDeliveries`).
- Two empty intervals, or an empty one inside another, "overlap" without sharing an
  instant (`Contradictions.OverlapIsIntersection`).
- The matcher compares validity in milliseconds, the database in microseconds, so the
  event announced at staging can miss what approval disputes
  (`Contradictions.MatcherMissesWithinMs`; exactly when, in `OverlapPrecision` and
  `MatcherMeetsLint`).
- The review page's collision flag says approval will dispute the claim. It does not when
  another claim of the same proposal replaces every opponent first
  (`Contradictions.FlagAgainstApproval`, `FlagPromisesTooMuch`).
- A relation asserted by two pending proposals belongs to the later one, so approving the
  earlier one does not activate it (`Approval.LaterStagingTakesOver`; a run in
  `ReviewRuns.TakeoverHappens`). A relation derived again at approval keeps the provenance
  of the row it revives, even a rejected proposal's (`ReviewRuns.RejectedProvenanceHappens`).
  What approval derives names an approved proposal iff it is new or revives such a
  proposal's row (`ReviewRuns.DerivedProvenance`, `ProvenanceKept`).
- A version marker is compared with the head only, so it can come back for other content
  (`SourceStreams.MarkersRepeatAcrossHeads`). Over every run, a marker always means the same
  bytes iff no push gives other content to a marker its stream has left
  (`SourceStreams.MarkersMeanOneContent`).
- A migration tag listed twice and not yet journalled can never finish
  (`Migrations.BootFinishes`). One listed twice and journalled is harmless to the boot, but
  it can end with another hash than its last entry's (`Migrations.RepeatedTagEndsWith`).
- Slugs such as `a--b` pass the grammar and are moved by `slugify`, so relations to them
  change target in a round trip (`Slugs.SlugsMayMove`, `Bundles.RelationReturns`).
- Concepts, decisions and sources named `index` or `log` are written and then skipped by
  the reader (`Bundles.ReservedNamesAreLost`).
- Serialising without metadata does not round-trip a body that itself starts with a
  closed fence (`Frontmatter.BareBodyRoundTrips`).
- A log title with a line break can make an export fail the format's own checker
  (`OkfConformance.LogTitlesMustBeSingleLines`). An export passes iff no later line of a
  log entry, and no date, reads as a bad heading (`OkfConformance.ExportPassesCheck`).
- A charter that holds its own end marker, or is empty, does not come back. Under a space
  name that holds the opening marker the charter is read from the name instead
  (`Charter.CharterRoundTrips`).

## Model

| member | source | states |
|---|---|---|
| ScheduleClock.OffsetMsExact | src/schedule.ts:273-279 | the derived offset is the zone's offset iff the instant is not before 1970 or has whole seconds |
| ScheduleClock.SampledOffsetsAreExact | src/schedule.ts:303-305 | both offsets the search derives are the zone's own, since it asks a day either side of whole minutes |
| ScheduleClock.InstantForWallClock | src/schedule.ts:297-311 | the two-candidate loop, comparing at minute precision, computes the specified instant |
| ScheduleClock.InstantIsCompatible | src/schedule.ts:281-311 | a wall clock that occurs gives the first instant showing it; one that never occurs gives the instant showing it exactly the gap later |
| ScheduleClock.GapExactly | src/schedule.ts:290-296 | the wall clocks skipped are exactly those between the two readings at the transition |
| ScheduleClock.ComputeNextRun | src/schedule.ts:327-348 | the nine-candidate loop returns the first firing civil day's instant, or the throw |
| ScheduleClock.Candidate | src/schedule.ts:335-343 | one civil day's turn: its due instant if the weekday matches and it is after `from` |
| ScheduleClock.DueFollowsCalendar | src/schedule.ts:318-326 | for every tame zone, a later civil day is never due earlier |
| ScheduleClock.NextRunExists | src/schedule.ts:345-347 | the throw is reached iff the weekday is outside 0..6 |
| ScheduleClock.NextRunIsLeast | src/schedule.ts:327-348 | the result is after `from` and the least due instant among all matching civil days from the local date on |
| ScheduleClock.LeastOverAllDays | src/schedule.ts:330-343 | it is least over all civil days iff yesterday, by the local date of `from`, is not both still ahead and either the weekly day or due before today |
| ScheduleClock.YesterdayAheadMeansGap | src/schedule.ts:290-293 | yesterday can still be ahead only when its wall clock was skipped |
| ScheduleClock.NinthCandidateIsNeeded | src/schedule.ts:323-331 | a zone and a weekly schedule due only on the ninth candidate |
| ScheduleClock.MidnightGapIsMissed | src/schedule.ts:330-343 | a zone and a schedule whose run today is missed |
| CivilCalendar.NextRunIsOnTime | src/schedule.ts:327-348 | the result falls on one of the nine dates from the local date on, a date of the schedule's weekday in the Gregorian week, and is the first instant a clock there reads hh:mm, or the length of the gap after a time that is skipped |
| CivilCalendar.NextRunIsFirstOfAll | src/schedule.ts:327-348 | no first reading of the scheduled time on a matching date from the local date on, after `from`, is sooner |
| CivilCalendar.WeekdayIsCalendar | src/schedule.ts:333-336 | weekdays are those of the one numbering in which 1 January 2000 is a Saturday and each day follows the day before |
| CivilCalendar.WeekdaysAre | src/schedule.ts:333-336 | 1 January 2000 matches only Saturday, 1 January 1970 only Thursday, and a day matches iff the day before matches the weekday before |
| CivilCalendar.MondayMorning | src/schedule.ts:327-348 | Mondays at nine in UTC, asked as Monday 1 January 2024 begins, are due that morning |
| Timetable.ScheduleTable.ReplaceSchedules | src/schedule.ts:372-407 | the table holds exactly the given kinds, each row with the entry's window, zone and switch, the last run it had, and the next run iff enabled; a throw leaves every row alone |
| Timetable.ReplaceIsIdempotent | src/schedule.ts:372-407 | saving the same set at the same moment again changes nothing |
| ClaimProtocol.EachWindowOnce | src/schedule.ts:956-1000 | over all interleavings of any workers, saves and crashes in which no write puts back a value at or before a claim of its row, a later claim is for a window after the moment of the earlier one: no window twice, missed ones collapse into one |
| ClaimProtocol.CrashReleasesWindow | src/schedule.ts:965-1000 | a worker dying before COMMIT leaves the row as it was and claimable |
| ClaimProtocol.LateArmRunsTwice | src/schedule.ts:939-954 | a run in which a late arming write makes one window claimed twice |
| ClaimProtocol.LateSaveRunsTwice | src/schedule.ts:372-399 | a run without any arming in which a save, computed before a claim and written after it, makes one window claimed twice |
| ClaimProtocol.UnclearWriteRunsAgain | src/schedule.ts:956-1000 | after any write of a value at or before a claim, the row's window is claimed up to that claim's time once more |
| ClaimProtocol.StepKeepsAhead | src/schedule.ts:965-998 | every armed window stays past the row's claims iff the step writes no value at or before one of them |
| ClaimProtocol.AheadExactly | src/schedule.ts:939-1000 | over a whole run: windows stay past their rows' claims throughout iff every write is of a value past them |
| ClaimProtocol.TimelyIsClear | src/schedule.ts:939-954 | a write that lands before the window it writes comes due is never at or before a claim |
| ClaimProtocol.ClaimWrites | src/schedule.ts:971-1000 | a claim sets the last run to its BEGIN and the next to the window computed, all else kept; an uninterpretable row is put off by 24 hours and not claimed |
| ClaimProtocol.TakesEarliestDue | src/schedule.ts:957-966 | the row taken is enabled, due by the clock of BEGIN and locked by nobody, and anything due earlier is locked |
| Outbox.ClampNeverShows | src/webhooks.ts:420-426 | the clamped exponent gives min(2^attempt, 300) for every attempt |
| OutboxProgram.Delay | src/webhooks.ts:423-426 | the delay lies within 15 percent of the base |
| Outbox.OutboxSafety | src/webhooks.ts:428-614 | over every run with crashes between calls: undispatched events have no deliveries, dispatched ones exactly one per endpoint read; every delivery joins an event and an endpoint of one space; attempts stay in range; none is made and no circuit reopens within 15 minutes of an opening |
| Outbox.TargetsAreMatching | src/webhooks.ts:438-457 | the endpoints fanned out to are exactly those of the event's space that are active and want every kind or this one |
| Outbox.DispatchWrites | src/webhooks.ts:443-460 | a dispatch writes one pending row per endpoint read, due at once or when the endpoint's circuit closes |
| Outbox.EventListIsUndispatched | src/webhooks.ts:431-436 | events listed are undispatched, and all of them unless fifty smaller ones fill the list |
| Outbox.DueListIsDue | src/webhooks.ts:617-626 | deliveries listed are pending or failed and due, and all of them unless twenty earlier ones fill the list |
| Outbox.BeforeSending | src/webhooks.ts:474-510 | a row without an active endpoint or without its event dies, an open circuit defers it to its end, else it is sent |
| Outbox.AfterSending | src/webhooks.ts:544-587 | one attempt more; delivered on success, else dead at the limit and otherwise failed; due again after the backoff within 15 percent |
| Outbox.AfterRecording | src/webhooks.ts:556-614 | a success clears the failure count, a failure adds one, and at the threshold the circuit opens for 15 minutes and the count starts afresh |
| Outbox.SameTargets | src/webhooks.ts:457-460 | only the dispatching transaction creates deliveries, and nothing redirects one |
| Outbox.StepKeepsDeliveries | src/webhooks.ts:464-587 | attempts within the limit, failed means 1 <= attempt < max; a step leaves every delivered and dead row alone iff it does not record the failure of a send whose success was written and reported failed |
| Outbox.SettledIsFinal | src/webhooks.ts:544-587 | over every run in which no success write is misreported, a delivered or dead row stays as it is |
| Outbox.DeliveredIsSentAgain | src/webhooks.ts:544-587 | a run that delivers, records a failure over it, and leaves the delivery due again |
| Outbox.RecordedSendDecreases | src/webhooks.ts:544-587 | the summed remaining attempts, the delivery in hand counted as it was read, fall with every recorded send |
| Outbox.OnlyDispatchAddsBudget | src/webhooks.ts:457-460 | nothing else gives remaining attempts back |
| Outbox.StepKeepsAttempts | src/webhooks.ts:484-497 | no delivery's attempt exceeds the sends made for it, so deferrals spend none; equal when writes succeed |
| Outbox.FailureCountIsStreak | src/webhooks.ts:556-600 | when writes succeed, failure_count is the failures since the last success or trip and stays below the threshold |
| OutboxProgram.SelectOrdered | src/webhooks.ts:621-626 | ORDER BY key LIMIT n: distinct rows, ascending, nothing smaller left out, short only if exhausted |
| OutboxProgram.OutboxWorker.FanOut | src/webhooks.ts:438-460 | one event's fan-out takes exactly the steps read endpoints, dispatch |
| OutboxProgram.OutboxWorker.FanOutPending | src/webhooks.ts:431-462 | every selected event ends up dispatched, by the machine's own steps |
| OutboxProgram.OutboxWorker.Deliver | src/webhooks.ts:474-565 | one delivery is settled by the machine's steps, and the list moves on |
| OutboxProgram.OutboxWorker.OnSuccess | src/webhooks.ts:544-561 | the delivery is delivered with one attempt more, and the breaker closed |
| OutboxProgram.OutboxWorker.OnFailure | src/webhooks.ts:567-614 | the delivery is failed or dead, due after the backoff; the failure is counted or the circuit opened |
| OutboxProgram.OutboxWorker.DeliverDue | src/webhooks.ts:616-630 | the due batch is worked off by the machine's steps |
| OutboxProgram.OutboxWorker.Tick | src/webhooks.ts:632-643 | a tick is a run of the machine; a second tick meanwhile does nothing |
| StagingLocks.DeadlocksAreTangles | src/domain/proposals.ts:589-799 | a set of inputs can deadlock iff they hold a tangle: stagings that can hold their first locks at once, each wanting next what another holds |
| StagingLocks.PairDeadlocks | src/domain/proposals.ts:767-799 | two stagings can deadlock iff their hashes differ, they share no concept, and the first decision each shares with the other is not the same |
| StagingLocks.OneOrderIsSafe | src/domain/proposals.ts:767-799 | any number of stagings listing decisions in one common order never deadlock |
| StagingLocks.OppositeOrdersDeadlock | src/domain/proposals.ts:767-799 | two stagings with two decisions in opposite orders can deadlock |
| StagingLocks.PairsAreNotEnough | src/domain/proposals.ts:767-799 | three stagings that can deadlock although no two of them can |
| StagingLocks.OnlyRollbackHelps | src/domain/proposals.ts:589-596 | once stagings wait for one another, no step ends that but a rollback of one of them |
| StagingLocks.SomeStagingProceeds | src/domain/proposals.ts:589-631 | where the inputs hold no tangle no reachable waits form a cycle, and while stagings are under way one of them can go on |
| StagingLocks.RevisionsCountUp | src/domain/proposals.ts:637-648 | whatever the interleaving and rollbacks, committed revisions of a concept are exactly 1..n |
| Staging.SaltIgnoresOrder | src/domain/proposals.ts:418-432 | the removal salt does not depend on the order of the removals |
| Staging.SaltSeparates | src/domain/proposals.ts:418-432 | proposals that remove different edges never share an effective hash |
| Staging.NoSaltWithoutRemovals | src/domain/proposals.ts:418-432 | without removals the effective hash is the caller's |
| Staging.StagingKeepsValid | src/domain/proposals.ts:434-840 | staging keeps one pending proposal per hash, numbering 1..n, and references |
| Staging.StagingIsInvisible | src/domain/proposals.ts:633-822 | current revisions, claims in force, active relations with provenance and active decisions are unchanged by staging |
| StagingProgram.LockConcepts | src/domain/proposals.ts:597-631 | one strictly ascending pass locks exactly the involved slugs, creates the missing ones, refuses unknown removal endpoints and deleted concepts |
| StagingProgram.StageRevisions | src/domain/proposals.ts:633-665 | one proposed revision per entry, numbered MAX + 1, with the entry's base or the current one |
| StagingProgram.StageClaims | src/domain/proposals.ts:667-719 | the staged claims, in order, with canonical objects and their carriers |
| StagingProgram.StageRelations | src/domain/proposals.ts:721-764 | re-adopting upserts; refused iff an asserted edge has a removal under review |
| StagingProgram.StageDecisions | src/domain/proposals.ts:767-799 | active decisions keep their row, others are re-staged |
| StagingProgram.MarkRemovals | src/domain/proposals.ts:801-822 | marks exactly the named edges; refused iff one is not active |
| StagingProgram.NothingAddedIsRemoved | src/domain/proposals.ts:297-305 | a well-formed proposal never asserts and removes one edge |
| StagingProgram.Space.CreateProposal | src/domain/proposals.ts:412-857 | refused stagings change nothing, duplicates converge on the pending proposal, anything else has exactly the staged effect |
| StagingProgram.Space.MarkStale | src/domain/proposals.ts:1452-1469 | the guarded status write after stale_base |
| StagingProgram.Space.RestageAfterStale | src/domain/proposals.ts:1428-1436 | after a stale_base failure the same input stages a fresh proposal iff the checks pass on the state that is left, and otherwise fails with the first that does not |
| StagingProgram.RestagingIsRefusedWhen | src/domain/proposals.ts:1428-1436 | those checks are the ones before the failure, except that the failed proposal's own removal markers no longer count |
| ReviewOutcomes.WellFormedIs | src/domain/proposals.ts:283-305 | well-formed inputs: not empty, slugs and removals once each, nothing removed and asserted |
| ReviewOutcomes.RefusedFor | src/domain/proposals.ts:452-822 | for which reason a staging is refused, the first in order, each condition in terms of the input and the tables |
| ReviewOutcomes.StagedEntry | src/domain/proposals.ts:633-665 | the staged revision holds the entry's text and the base it gives, or else the current revision |
| ReviewOutcomes.StaleExactly | src/domain/proposals.ts:659-660 | a proposal is stale as it is staged iff some entry gives a base that is not current |
| ReviewOutcomes.StagedRelationIs | src/domain/proposals.ts:721-822 | an asserted relation becomes the proposal's own unless active, a removed one is marked, the rest stay |
| ReviewOutcomes.StagedDecisionIs | src/domain/proposals.ts:767-799 | a decision is staged with the entry's content unless it is active, and the rest stay |
| ReviewOutcomes.EachClaimIsStaged | src/domain/proposals.ts:667-719 | every claim of every entry is staged as given, under its concept |
| ReviewOutcomes.EachStagedClaimIsGiven | src/domain/proposals.ts:667-719 | every staged claim is one of an entry |
| ReviewOutcomes.AddedExactly | src/domain/proposals.ts:721-735 | the relations asserted are those the entries list, but none of a concept to itself |
| Approval.ApprovalExtends | src/db/migrations/0034_wk_decision_dedupe.sql:73-108 | flips 1 to 3 extend a concept's line of published revisions by one written against its end |
| Approval.ApprovalKeepsSound | src/db/migrations/0034_wk_decision_dedupe.sql:33-226 | an approval that is not stale keeps the whole invariant |
| Approval.RejectionKeepsSound | src/db/migrations/0000_wk_baseline.sql:533-584 | a rejection keeps the whole invariant |
| Approval.EveryRunIsSound | src/domain/proposals.ts:1428-1492 | over every run of stagings, approvals, rejections and failures: unique pending hashes, revisions 1..n in one line each, and nothing visible that was not approved |
| Approval.ReadersSeeReviewed | src/domain/proposals.ts:887-972 | in every reachable state a concept has at most one current revision, the one it points at, and it was approved |
| Approval.NoLostUpdate | src/db/migrations/0034_wk_decision_dedupe.sql:73-83 | an approved revision replaces exactly the revision it was written against |
| Approval.RevisionsAreImmutable | src/db/migrations/0034_wk_decision_dedupe.sql:85-108 | a written revision keeps its number, text, base and proposal over every run |
| Approval.ApprovalActivates | src/db/migrations/0034_wk_decision_dedupe.sql:126-220 | a relation is active afterwards iff it was derived again, or held without a marker of this proposal |
| Approval.LaterStagingTakesOver | src/domain/proposals.ts:748-763 | the later of two proposals asserting a relation owns it; approving the earlier leaves it inactive |
| Approval.RevivedKeepsProvenance | src/db/migrations/0034_wk_decision_dedupe.sql:167-191 | a derived relation keeps the proposal of the row it revives |
| ReviewOutcomes.ApprovedAgainstItsBase | src/domain/proposals.ts:1428-1492 | over every run: when a proposal is approved, each page it changes is the revision its entry gave, or the one current when it was staged, and afterwards readers see the entry's text |
| ReviewOutcomes.ApprovedDecision | src/db/migrations/0034_wk_decision_dedupe.sql:197-216 | the proposal's decisions come into force; an active one is superseded iff one of these names it; all others, and all contents, stay |
| ReviewOutcomes.ApprovedClaim | src/db/migrations/0034_wk_decision_dedupe.sql:110-165 | own claims are verified, or disputed where they strike a claim that stays in force; claims in force are deprecated where superseded and else disputed where struck |
| ReviewOutcomes.ApprovedRelation | src/db/migrations/0034_wk_decision_dedupe.sql:116-220 | relations between concepts whose claims it relates are active; of the others those it staged come into force, and then those it marked are removed |
| ReviewOutcomes.CollisionIs | src/db/migrations/0034_wk_decision_dedupe.sql:138-165 | what lint, flag and approval call a collision, in terms of the two rows |
| ReviewOutcomes.RejectedRows | src/db/migrations/0000_wk_baseline.sql:533-584 | a rejection puts staged revisions and relations out of reach and leaves every other row alone |
| ReviewRuns.ReplacementHappens | src/db/migrations/0034_wk_decision_dedupe.sql:197-216 | a run in which an approved decision replaces the one in force |
| ReviewRuns.TakeoverHappens | src/domain/proposals.ts:748-763 | a run of two stagings and an approval after which the relation both assert is inactive |
| ReviewRuns.DerivedProvenance | src/db/migrations/0034_wk_decision_dedupe.sql:116-191 | a derived relation is active and names an approved proposal iff it is new or its old row's proposal is approved |
| ReviewRuns.ProvenanceKept | src/db/migrations/0034_wk_decision_dedupe.sql:116-220 | an approval keeps every active relation's proposal an approved one iff all rows it revives by derivation name approved ones |
| ReviewRuns.RejectedProvenanceHappens | src/db/migrations/0034_wk_decision_dedupe.sql:167-191 | a run of six steps after which an active relation names a rejected proposal |
| ReviewRuns.StagingMakesNothingStale | src/domain/proposals.ts:633-665 | staging another proposal makes none stale |
| ReviewProgram.ApplyProposal | src/db/migrations/0034_wk_decision_dedupe.sql:33-260 | the checks in order, then all flips together are exactly the specified effect |
| ReviewProgram.SuccessionsAreDerived | src/db/migrations/0034_wk_decision_dedupe.sql:116-136 | a succession edge exists iff a claim of the proposal takes another's place |
| ReviewProgram.CollisionsAreDerived | src/db/migrations/0034_wk_decision_dedupe.sql:167-191 | a collision edge exists iff approval disputes a pair across concepts |
| ReviewProgram.PairStays | src/db/migrations/0034_wk_decision_dedupe.sql:138-141 | the disputed pairs are the same when recomputed after the flip |
| ReviewProgram.ApproveProposal | src/domain/proposals.ts:1437-1472 | approval is all or nothing; stale_base is then recorded iff the proposal is still pending |
| ReviewProgram.RejectProposal | src/db/migrations/0000_wk_baseline.sql:539-584 | a rejection has exactly the specified effect or fails with the code's error |
| Contradictions.OverlapIsIntersection | src/domain/claims.ts:138-147 | the overlap test means a shared instant iff neither interval is empty |
| Contradictions.EmptyIntervalOverlaps | src/domain/claims.ts:138-147 | an empty interval that overlaps another and holds no instant |
| Contradictions.OverlapPrecision | src/domain/claims.ts:138-147 | the millisecond and the microsecond test differ exactly on bounds that meet inside one millisecond |
| Contradictions.FunctionalPredicates | src/domain/claims.ts:155-169 | the legacy list and the typed registry together, each name once |
| Contradictions.FunctionalIs | src/domain/claims.ts:155-169 | a predicate is functional iff its name is in the legacy list or a definition declares it so |
| Contradictions.QueryFrames | src/domain/claims.ts:293-318 | joining with distinct frames returns each matching row once |
| Contradictions.FindContradictions | src/domain/claims.ts:234-344 | each colliding pair of the naive all-pairs definition is reported exactly once |
| Contradictions.MatcherCollisionIs | src/domain/claims.ts:320-344 | the matcher's collisions with the table, in terms of the two claims |
| Contradictions.BatchMeetsTable | src/domain/claims.ts:255-292 | the matcher asks of two incoming claims what it asks of an incoming and a stored one, either way round |
| Contradictions.RegisteredIsLast | src/domain/claims.ts:198-206 | an object is normalized by the last definition of its predicate |
| Contradictions.SpaceRows | src/domain/lint.ts:173-205 | the self-join gives every unordered contradictory pair once |
| Contradictions.SpaceCollisionIs | src/domain/lint.ts:173-205 | the space lint's pairs, in terms of the two rows |
| Contradictions.FoldRows | src/domain/lint.ts:208-238 | the fold groups the rows by frame and context, losing none |
| Contradictions.SpaceContradictions | src/domain/lint.ts:166-253 | one finding per contradictory frame; it names exactly the frame's contradicted claims and their objects |
| Contradictions.KeyIsInjective | src/domain/lint.ts:220 | the grouping key separates frames, when their texts hold no NUL |
| Contradictions.LintProposal | src/domain/lint.ts:1096-1141 | one finding per colliding row, none without functional predicates |
| Contradictions.Collides | src/domain/proposals.ts:935-971 | the flag is true iff the claim collides with a claim in force of another proposal |
| Contradictions.FlagMeetsLint | src/domain/proposals.ts:935-971 | a claim is flagged iff, still proposed, the proposal lint has a finding for it |
| Contradictions.MatcherMeetsLint | src/domain/claims.ts:320-344 | the matcher's persisted half and the lint agree except on adjudicated or superseding claims and within one millisecond |
| Contradictions.MatcherMissesWithinMs | src/domain/claims.ts:138-147 | a pair approval disputes and the matcher does not announce |
| Contradictions.ApprovalOutcome | src/db/migrations/0034_wk_decision_dedupe.sql:110-165 | what flips 4, 5c and 5 together leave each claim as |
| Contradictions.FlagAgainstApproval | src/domain/proposals.ts:877-884 | a flagged claim ends up disputed iff one of its opponents stays in force; every disputed claim was flagged |
| Contradictions.FlagPromisesTooMuch | src/domain/proposals.ts:877-884 | a flagged claim that approval leaves verified |
| SourceStreams.Archive.CreateSource | src/domain/sources.ts:203-263 | archived content answers with its row, other content is appended |
| SourceStreams.Archive.RecordStreamVersion | src/domain/source-streams.ts:81-156 | refused iff the head's marker names other content, and then nothing changes; otherwise the outcome is new_version, unchanged or reverted exactly as the content is unseen, at head, or archived elsewhere |
| SourceStreams.Archive.TombstoneStream | src/domain/source-streams.ts:214-237 | marks a live stream dead with one event; idempotent |
| SourceStreams.RefusedExactly | src/domain/source-streams.ts:123-135 | over every run a push is refused iff the document's last accepted push had its marker and other content |
| SourceStreams.TombstoneSays | src/domain/source-streams.ts:226-237 | the event of a tombstone names the document and its head |
| SourceStreams.EveryRunIsValid | src/domain/source-streams.ts:81-237 | over every run contents are distinct, links point back, heads exist, the archive only grows |
| SourceStreams.HeadIsLastAccepted | src/domain/source-streams.ts:143-153 | head, marker and tombstone are what the last accepted operations say |
| SourceStreams.EventsCountDeaths | src/domain/source-streams.ts:226-234 | tombstone events count the transitions from live to dead |
| SourceStreams.ChainDescends | src/domain/source-streams.ts:118-121 | the walk over supersedes links descends strictly, ends, and never repeats content |
| SourceStreams.LinksNameFormerHeads | src/domain/source-streams.ts:118-121 | a link names the head its stream had when the row was written |
| SourceStreams.MarkersRepeatAcrossHeads | src/domain/source-streams.ts:123-135 | a run that records one marker for two different contents |
| SourceStreams.MarkersMeanOneContent | src/domain/source-streams.ts:123-135 | over every run: no two accepted pushes of a document give one marker to different contents iff none does so while the stream's row carries another marker |
| SourceStreams.ReturnsFromAnother | src/domain/source-streams.ts:123-135 | the row carries another marker iff the document's last accepted push had another one |
| SourceStreams.NoReturnNoClash | src/domain/source-streams.ts:123-135 | a connector that never goes back to a marker it has left never has one marker for two contents |
| Keyset.PageCovers | src/domain/source-streams.ts:181-200 | a page is ascending, holds only matches, and cuts the matches at its next cursor |
| Keyset.PageIsFull | src/domain/source-streams.ts:181-200 | a page has at most limit ids, and a next cursor iff more were fetched: the last of limit ids |
| Keyset.ListedIs | src/domain/source-streams.ts:181-190 | the walk is about ids after the cursor, tombstoned ones only when asked for |
| Keyset.NothingTwice | src/domain/source-streams.ts:163-173 | no id on two pages, however the table changes during the walk |
| Keyset.NothingMissed | src/domain/source-streams.ts:163-173 | an id that matches throughout is on some page |
| Slugs.SlugifyIsCanonical | src/export/markdown.ts:144-153 | whatever the input, slugify lands in the slug grammar, without double or outer hyphens |
| Slugs.SlugifyFixes | src/export/markdown.ts:144-153 | slugify leaves a text alone iff it is canonical, so it is idempotent |
| Slugs.SlugifyKeepsLetters | src/export/markdown.ts:144-153 | slugify keeps the letters and digits of the lower-cased text in order, all of them up to 127 characters; a text without any becomes untitled |
| Slugs.SlugsMayMove | src/export/markdown.ts:142-153 | a slug of the grammar that slugify changes |
| Slugs.PathYieldsSlug | src/export/markdown.ts:155-160 | every path yields a slug |
| Slugs.FiledSlugReturns | src/export/markdown.ts:155-160 | the path a slug was filed under yields that slug |
| Frontmatter.FrontmatterRoundTrips | src/markdown.ts:66-78 | with data, any body comes back byte for byte and the data as it was |
| Frontmatter.SerializedIs | src/markdown.ts:73-78 | the data between two lines of three hyphens, then the body as it is |
| Frontmatter.BareBodyRoundTrips | src/markdown.ts:66-72 | without data the body comes back iff it does not itself open with a fence |
| YamlInstance.FaithfulLibrary | src/markdown.ts:66-78 | what is assumed of the YAML library is not contradictory: some renderer and parser meet it |
| YamlInstance.SaneEnvironment | src/export/okf.ts:243-289 | neither are the assumptions of both bundle formats together |
| Bundles.RoundingSettles | src/export/markdown.ts:162-167 | rounding twice is rounding once, within range |
| Bundles.RoundedIsNear | src/export/markdown.ts:162-167 | the nearest multiple of a ten-thousandth |
| Bundles.ClaimsReturn | src/export/markdown.ts:200-236 | claim lists come back as they were, confidences rounded |
| Bundles.RelationReturns | src/export/markdown.ts:238-243 | a relation comes back iff slugify leaves its target alone |
| Bundles.Serialize | src/export/markdown.ts:387-404 | index, log, then the sorted concept, decision and source files |
| Bundles.SortBySorts | src/export/markdown.ts:390-402 | under any collation the files come in order |
| Bundles.EntriesAre | src/export/markdown.ts:200-219 | the fields claims, citations and relations are written as |
| Bundles.ForeignClaim | src/export/markdown.ts:170-183 | what a claim from elsewhere needs, its length limits, and its defaults |
| Bundles.ForeignDocuments | src/export/markdown.ts:344-382 | what documents without our fields are read as |
| Bundles.Parse | src/export/markdown.ts:406-425 | the reader folds the files in order, or reports the first fault |
| Bundles.MarkdownRoundTrips | src/export/markdown.ts:384-426 | parse of serialize is the snapshot, sorted, with rounded confidences |
| Bundles.RoundTripKeepsEverything | src/export/markdown.ts:384-426 | nothing is lost, gained or changed, as multisets, when confidences have at most four places |
| Bundles.ReservedNamesAreLost | src/export/markdown.ts:407-421 | a concept, decision or source is skipped by the reader iff its slug or hash is index or log, and otherwise read back |
| OkfBundles.AddDocument | src/export/okf.ts:270-286 | one document classified and added; a concept only if its slug is new |
| OkfBundles.ClassifiedAs | src/export/okf.ts:270-286 | the type decides, in any case, then the place; everything else is a concept |
| OkfBundles.ForeignDocs | src/export/okf.ts:190-242 | what documents of other makers are read as |
| OkfBundles.Parse | src/export/okf.ts:263-288 | the loop with its set of seen slugs is the specified fold |
| OkfBundles.OkfRoundTrips | src/export/okf.ts:243-289 | the OKF format reads back the same snapshot as the Markdown format |
| OkfConformance.CheckOkfConformance | src/export/okf.ts:356-389 | no issue iff every file conforms; every issue names a file that does not |
| OkfConformance.DocRule | src/export/okf.ts:356-389 | a document conforms iff its frontmatter parses and has a non-empty type |
| OkfConformance.LogRule | src/export/okf.ts:340-348 | a second-level heading that is no date breaks a log |
| OkfConformance.IndexRule | src/export/okf.ts:300-338 | an index has blank lines, headings and bullets only, and frontmatter at the root only |
| OkfConformance.RenderOkfIndex | src/export/okf.ts:122-164 | the pushed lines are the specified index |
| OkfConformance.EscapeIsRead | src/export/markdown.ts:299-302 | link texts come back unescaped, and no bracket stands without its backslash |
| OkfConformance.RenderOkfLog | src/export/okf.ts:168-186 | the pushed lines, with a heading per change of date, are the specified log |
| OkfConformance.LogReadsBack | src/export/okf.ts:168-186 | every entry's bullet stands under its own date, in order |
| OkfConformance.BulletSays | src/export/okf.ts:168-186 | the text of a bullet |
| OkfConformance.IndexConformsAlways | src/export/okf.ts:122-164 | the rendered index conforms for arbitrary titles and summaries |
| OkfConformance.LogConformsExactly | src/export/okf.ts:168-186 | for every space, the log conforms iff no date heading and no later line of an entry reads as a bad heading |
| OkfConformance.DateFitsExactly | src/export/okf.ts:340-348 | a date without line breaks is a good heading iff it is empty or ISO |
| OkfConformance.LogConformsWhenPlain | src/export/okf.ts:168-186 | so it does when dates are ISO and the texts are single lines |
| OkfConformance.BrokenEntryFails | src/export/okf.ts:340-348 | in any log, one entry whose text breaks into a line like a bad heading fails the check |
| OkfConformance.LogTitlesMustBeSingleLines | src/export/okf.ts:177 | a title with a line break whose export fails the check |
| OkfConformance.SerializeOkf | src/export/okf.ts:246-261 | index, log, then the sorted documents |
| OkfConformance.ExportConforms | src/export/okf.ts:291-389 | every file of an export conforms, whatever its titles and summaries, iff its log entries fit |
| OkfConformance.ExportPassesCheck | src/export/okf.ts:291-389 | running the checker on an export returns no issue iff its log entries fit |
| ImportBundle.UploadSources | src/export/import.ts:238-259 | every source is archived once; the references that lead anywhere are exactly the file names and the hashes of the archived ones, and each leads to content of that name or hash; repeated names are ignored |
| ImportBundle.HashReferencesResolve | src/export/import.ts:238-259 | an archived source's hash leads to its content, unless another file goes by that hash as its name |
| ImportBundle.OwnReferencesResolve | src/export/import.ts:216-219 | where files are named by hash, a reference finds that file's content |
| ImportBundle.ToProposal | src/export/import.ts:137-209 | slugs deduplicated first-wins, unresolved citations dropped, claims kept |
| ImportBundle.ImportedConceptIs | src/export/import.ts:146-178 | what an imported concept stages: its slug, text or title, claims and relations, against the current revision |
| ImportBundle.ResolvedAre | src/export/import.ts:165-169 | citations staged are those whose reference leads somewhere |
| ImportBundle.FirstOnlyKeeps | src/export/import.ts:143-148 | the first entry of each slug is kept |
| ImportBundle.ImportIsWellFormed | src/export/import.ts:137-209 | what an import stages passes the proposal's refinements iff the bundle holds knowledge |
| ImportBundle.OwnCitationsResolve | src/export/import.ts:221-265 | importing a space's own export, every citation finds its source's content |
| FilterSql.CompileFilter | src/db/postgres.ts:360-386 | one filter's clause and parameters |
| FilterSql.RefusedFilters | src/db/postgres.ts:357-386 | a filter map is refused iff a column is no plain name or an expression has none of the five forms |
| FilterSql.EntriesAre | src/db/postgres.ts:371-372 | an in-list is the non-empty texts between its commas |
| FilterSql.WhereClause | src/db/postgres.ts:357-388 | the clauses and parameters of all filters in order, or the first error |
| FilterSql.ClauseMeans | src/db/postgres.ts:363-386 | a clause is true of exactly the rows its filter's reading describes, NULLs and the empty list included |
| FilterSql.ClausesAreNumbered | src/db/postgres.ts:366-384 | placeholders run on without gaps in step with the parameters |
| FilterSql.FiltersMean | src/db/postgres.ts:357-388 | the compiled conjunction selects exactly the rows the filter texts describe |
| FilterSql.Select | src/db/postgres.ts:491-495 | fails exactly on a bad filter, order or limit; otherwise builds the specified statement |
| FilterSql.OrderMeans | src/db/postgres.ts:390-397 | a bare column and .asc ascend, .desc descends, in any case; any other direction is refused |
| FilterSql.OrderIsRefused | src/db/postgres.ts:390-397 | which orders are accepted at all |
| FilterSql.SelectionMeans | src/db/postgres.ts:390-405 | the statement names every parameter once, and returns exactly the described rows |
| FilterSql.Update | src/db/postgres.ts:531-541 | never unfiltered; fails exactly on bad names, bad filters or no filter |
| FilterSql.UpdateMeans | src/db/postgres.ts:531-541 | exactly the described rows get the body's values, through parameters numbered once |
| FilterSql.OverwrittenColumns | src/db/postgres.ts:531-541 | every value of the body lands in its column, and no other column changes |
| FilterSql.Remove | src/db/postgres.ts:543-548 | never unfiltered |
| FilterSql.RemoveMeans | src/db/postgres.ts:543-548 | exactly the described rows are removed |
| FilterSql.Insert | src/db/postgres.ts:497-529 | cell (r, c) is parameter r * columns + c + 1 with that row's value; fails exactly on ragged rows, bad names or no conflict target |
| FilterSql.RowStartIsProduct | src/db/postgres.ts:504-513 | the cells before row r number r * columns |
| FilterSql.UpsertKeepsUnlisted | src/db/postgres.ts:515-525 | on conflict every inserted column is taken over and every other one kept |
| FilterSql.ConflictsAre | src/db/postgres.ts:515-525 | the target is the texts between the commas, and every other column is taken over |
| Migrations.Connection.ApplyOne | src/db/migrate.ts:92-105 | a migration's statements and its journal row commit together or not at all |
| Migrations.Connection.ApplyMigrations | src/db/migrate.ts:67-113 | with the connection dying anywhere, a prefix of the list has taken effect; a report means all of it, and accounts for every entry |
| Migrations.BootExtendsLineage | src/db/migrate.ts:61-66 | what a boot committed are the first pending entries, each once |
| Migrations.EveryRunKeepsLineage | src/db/migrate.ts:67-160 | over any boots of any binaries a tag is journalled iff its migration committed, once |
| Migrations.EveryStatementRanOnce | src/db/migrate.ts:93-100 | in every state of every run, what ran under a committed migration's tag are its statements, all, in order, once; under an unjournalled tag nothing ran |
| Migrations.FinishedBootRanAll | src/db/migrate.ts:93-112 | a boot that gets through its list has run every entry it found pending, in full, and journalled it |
| Migrations.CommitRunsAll | src/db/migrate.ts:92-105 | a commit runs every statement of its migration and journals its hash, and nothing under any other tag |
| Migrations.EffectsAreJournalled | src/db/migrate.ts:93-100 | a statement in effect comes from the one commit of a journalled tag |
| Migrations.FinishedBootIsComplete | src/db/migrate.ts:76-112 | a finished boot leaves every embedded tag with its hash and other rows alone |
| Migrations.BootFinishes | src/db/migrate.ts:74-112 | an undisturbed boot finishes iff no tag missing from the journal is listed twice |
| Migrations.RepeatedTagEndsWith | src/db/migrate.ts:76-91 | a journalled tag ends with its last entry's hash iff that entry drifted from the journal or no earlier one did |
| Migrations.TallyAddsUp | src/db/migrate.ts:74-112 | applied + skipped + backfilled is the length of the list |
| Migrations.SecondBootSkipsAll | src/db/migrate.ts:78-80 | a second boot of the same binary only counts |
| Charter.BetweenMarkers | src/domain/charter.ts:195-202 | what is found between markers on their own lines, also when the middle holds the closing one |
| Charter.AuthoredHalf | src/domain/charter.ts:159-222 | for every name and text: the authored half comes back iff it does not hold its end marker, or, under a heading that holds the opening marker, iff the heading repeats it between markers |
| Charter.CharterRoundTrips | src/domain/charter.ts:165-222 | the stored text comes back iff it is not empty and does not hold its end marker, or is what such a heading holds |
| Charter.HalfExactly | src/domain/charter.ts:195-222 | for any two markers: what is read between them trims to what was put there iff that does not hold the closing one, or, if the text before holds the opening one, iff that text repeats it |
| Charter.OverviewHalf | src/domain/charter.ts:146-222 | the overview half comes back iff it does not hold its end marker, or the text before repeats it |
| Charter.OverviewSays | src/domain/charter.ts:146-157 | the overview's lines: three counts, and the index under its heading |
| Charter.OpensBefore | src/domain/charter.ts:165-182 | that text holds the overview's opening marker iff the heading or the authored text does |
| Charter.History.Write | src/domain/charter.ts:240-302 | a new revision unless the text is stored already; an edited overview goes to review only; too long a text is refused |
| Charter.History.Delete | src/domain/charter.ts:309-314 | nothing is current, nothing is lost |
| Charter.History.WriteBack | src/domain/charter.ts:159-302 | writing back an unedited document changes nothing iff the stored text comes back, opens nothing iff the overview does, and is refused iff what is read is too long |
| Buckets.GregorianIsRegular | src/stats.ts:124-127 | months of the UTC calendar last 28 to 31 days and follow one another |
| Buckets.EpochIsJanuary1970 | src/stats.ts:112-119 | day 0 of the milliseconds is 1 January 1970 of that calendar |
| Buckets.MonthsStartWhere | src/stats.ts:112-128 | where the twelve months of every common and every leap year start |
| CivilCalendar.BucketsStartOn | src/stats.ts:112-119 | buckets start on hours and days in UTC, the first of a month and 1 January |
| Buckets.FloorIsGrid | src/stats.ts:112-119 | flooring lands on the start of the bucket the instant lies in |
| Buckets.NextIsGrid | src/stats.ts:121-128 | stepping from a bucket's start lands on the next one's |
| Buckets.BucketKeys | src/stats.ts:130-140 | terminates; keys are strictly increasing bucket starts below the end; every instant of the window floors to one |
| Buckets.CellIsUnique | src/stats.ts:112-119 | the bucket an instant lies in is unique |
| LlmStats.Accumulator.Apply | src/stats.ts:322-347 | a row adds its calls, tokens, costs or unpriced share, and per-kind and per-model counts |
| LlmStats.CostIsPerMillion | src/stats.ts:335-339 | a million tokens cost the price, in proportion |
| LlmStats.RowCosts | src/stats.ts:318-347 | each part of a row's cost is its own tokens at its own price; without a price it is unpriced |
| LlmStats.Aggregate | src/stats.ts:349-373 | one report per bucket key, each of the sum of its rows, and one of all rows |
| LlmStats.ReportsAddUp | src/stats.ts:349-373 | over any buckets, the report of the sum has the sum of the parts' combined totals; its cache ratio and average duration are the parts' quotients joined, each counted by its input and its calls |
| LlmStats.PartsAndRestAreAll | src/stats.ts:361-373 | conservation: the parts and the rows outside every part make up the total |
| LlmStats.WindowStats | src/stats.ts:394-396 | over any window the buckets add up to the totals |
| LlmStats.SpacesAddUp | src/stats.ts:398-422 | the per-space totals add up to the totals over all spaces |
| Briefing.Victim | src/agent/briefing.ts:148-152 | the entry cut is the last secondary one, or the last when none is left |
| Briefing.Trim | src/agent/briefing.ts:141-155 | a prefix is kept, no primary goes before a secondary, and as few as possible are left out |
| Audit.RedactionHidesSecrets | src/domain/audit.ts:148-163 | values below secret keys do not influence the record |
| Audit.SanitizedIsClean | src/domain/audit.ts:144-163 | the record holds no value under a secret key but the marker, and respects every cap |
| Audit.KeptIs | src/domain/audit.ts:148-163 | what of each value is kept |
| Audit.SecretKeysAre | src/domain/audit.ts:122-142 | which keys are secret |
| Audit.DroppedIs | src/domain/audit.ts:166-174 | only a record over 32000 characters is dropped |
| Audit.SanitizingSettles | src/domain/audit.ts:148-163 | sanitizing twice is sanitizing once |
| Audit.PayloadHidesSecrets | src/domain/audit.ts:166-174 | neither the record nor the size it is dropped for depends on a secret |

## Left out

Assumptions and limits of the modules above:

- ScheduleClock: zones are step functions in whole minutes below 24 hours, with at most one transition of at most 24 hours in any 48, which takes in a date line change; sub-minute historical offsets are outside. Row texts are taken as parsed.
- ClaimProtocol.EachWindowOnce: holds only while writes are clear, which the source does not ensure; `AheadExactly` is the exact condition, and `TimelyIsClear` one that can be checked at the write. One clock stands for the database's and the application's.
- Outbox.OutboxSafety: one worker, as the source says of itself; clocks do not run backwards; signing, address checks and decryption are part of "the call failed". Removing an endpoint leaves its delivery rows, to be marked dead, where the schema deletes them with it.
- StagingLocks.DeadlocksAreTangles: is about stagings of one space among themselves: the pending hash, the sorted concept pass and the decision upserts. Within one space relation rows are upserted under the lock of their source concept and add no waits. A relation to a concept of another space also takes a key-share lock there through its foreign key (src/db/migrations/0000_wk_baseline.sql:141-142), so stagings of two spaces that point at each other can wait for one another; this is not modelled. Approval locks concepts in id order, and the source accepts that such a pair may be aborted by the database.
- StagingProgram.Space.CreateProposal: chunk citations, qualified targets in other spaces and the 23505 fallback after a lost race are not modelled; alias resolution and object normalisation are one abstract function.
- Approval.EveryRunIsSound: has no split proposals, change requests, or delete and restore of concepts; the approved event is modelled, the per-concept update events are not.
- Contradictions.FunctionalPredicates: malformed settings, where the SQL and the TypeScript readers may differ, are not modelled.
- SourceStreams.HeadIsLastAccepted: observation times and the concurrent first-push fallback are not modelled; a transaction is one step.
- Frontmatter.FrontmatterRoundTrips: assumes that YAML text parses back to its value, and that no line of it starts with a fence; `YamlInstance` shows that this can be met, not that the library in use does.
- Bundles.MarkdownRoundTrips: assumes non-empty required texts, claim texts within the length limits of the schema, slugs other than index and log, and relation targets that slugify leaves alone, which the format needs; key order within frontmatter is not represented; the order of slugs is an arbitrary collation; the texts of its index and log are parameters because the reader skips them.
- OkfConformance.ExportPassesCheck: assumes that no slug or hash is index or log or holds a slash or line break, and known source kinds.
- FilterSql.FiltersMean: a clause is kept as its structure, so spacing and quoting of the emitted SQL are not represented; how a column compares with a text parameter is a parameter.
- FilterSql.Insert: columns of later rows that the first row lacks are ignored, as in the source.
- Charter.History.Write: two concurrent writers are not modelled; the source reads the current revision outside its transaction.
- LlmStats.Aggregate: costs are exact real numbers, averages and ratios are kept as exact quotients, and the database truncates timestamps in UTC.
- Briefing.Trim: the rendered size is any function of what is shown.
- Audit.SanitizedIsClean: dates and other values printed by the runtime are texts; lengths are counted in code units.

Not modelled, because it is input, output or easy members:

- HTTP, MCP and OAuth surfaces, LLM calls, DNS, signing, encryption, zip archives, the Obsidian format.
- The remaining lint rules, tiers and counts; coverage, health, attention, triage and outputs: single queries reshaped.
- Ingest, knowledge, usage and webhook statistics: the bucket loop is the one in `Buckets`, the rest are sums in SQL.
- Cursors of the other lists and limit clamping: the keyset walk is the one in `Keyset`.
- Ranking and selection for the agent context: scores are heuristic and promise nothing beyond a cap.
- Configuration, logging, metrics, the cockpit, gate and deployment scripts.
