# A verified model of Caravan

Caravan is a merge queue that agents drive. What makes it hard is not its happy path but the
rules that must hold when a process stops between two writes, when a provider takes a write
and loses its reply, when two pull requests claim the same work, or when only a part of the
evidence can be read. This project states those rules as Dafny theorems about a model of the
code that enforces them.

## What is modelled

| component | modules | what it is about |
|---|---|---|
| Sibling generations | `Generations`, `GenerationComponents`, `GenerationAnalysis`, `GenerationTheorems`, `GenerationOutcomes`, `GenerationDeclarations`, `GenerationHistory` | Pull requests of one stream slot are grouped into components, compared under one budget of 64 ancestry answers, and at most one of each component stays admissible: the one that a single reviewed link names, or that was answered to contain the others. The printed declaration of a supersession is read back. |
| Durable CI start | `CiExecutions`, `CiDispatch`, `CiDispatchReplies` | A write-ahead intent, an optional acknowledgement, an archived typed refusal and a reconciliation, as a system of single steps with a crash or a lost write between any two. A class runs the same protocol on a store that it updates in place. |
| Selecting executions | `Checks`, `CiSelect`, `CiSelectOrder`, `CiSelectEvidence` | From current check reports to the newest known run of every workflow they name, what a selection rests on, and when it has to be started again. |
| Concatenation | `Fleets`, `ConcatPlans`, `Concat`, `ConcatExecution` | Caravans as chains of base edges, the plan that joins two of them, and its transaction with two levels of rollback and a durable receipt. |
| Admission order | `Admission`, `AdmissionOrder` | The lexicographic key, the bounded walk over base branches, and the rows ahead of a candidate under three kinds of selection. |
| Process machinery | `StreamCapture`, `RequestBudget`, `CredentialRetry` | A chunked capture with two windows, a compare-and-swap budget, and a retry loop that agrees with a deadline check made elsewhere. |
| Force intent | `Force` | One label write and one audit comment that converge over reruns. |
| Deferred receipts | `Receipts`, `Text` | A strict log parser that refuses every ambiguity, and the round trip of a well-formed receipt. |

`Common`, `Sequences` and `Ordering` hold shared types, equalities of sequences, the ascending iteration of sets, and the byte order of strings.

## How the source became a model

* Code that changes state is imperative here too: `CiDispatch.Host`, `ConcatExecution.Host`,
  `Force.Provider`, `Force.ForceState`, `GenerationTheorems.IntegrityStatus`,
  `Admission.DecisionRecord`, `CredentialRetry.Machine` and `StreamCapture.Stream` are classes
  whose methods are proved equal to a specification function, and the theorems are about that
  function. Loops over maps, queues and lists are loops here.
* A provider, Git or a disk is a choice made at every step. An operation may work (`Fine`), do
  nothing and fail (`Lost`), or take effect and still fail (`Late`). Reads may fail or be stale.
  The assumptions left are the ones the code itself relies on: a base or label edit is one
  leased write, a push moves all of its branches or none and reports success only if it moved
  them, and a typed refusal of a CI start means that nothing was started.
* The ancestry oracle may keep state: its answer depends on the number of the call and on both
  commits. Digests (SHA-256, FNV, the hexadecimal fingerprint of a marker) are injective, so a
  binding names its own checkpoint and a plan is its own hash.
* Time is a natural number of milliseconds; the counter of captured bytes saturates at 64 bits.
  Two contracts are stated for values that the source never has: a stage with `attempts == 0`
  still makes one attempt (the source uses the constant 3, `src/command.rs:31`), and the
  truncation flag is wrong for more than 2^64 - 1 bytes at a limit of exactly that many
  (`StreamCapture.TruncatedIsExact`).

## Promises the code does not keep, and exactly when it does

* **A failed concatenation that says nothing was changed** may have changed the base edge. If
  the base edit takes effect and only reading it back fails, the heads are rolled back, the
  edge is not, and `concat_membership_commit_failed` says `mutated: false`
  (`src/concat.rs:437-452`, `src/github.rs:1712-1728`). `Concat.LateCommitIsReportedAsUnchanged`
  gives the input. `Concat.UnchangedClaimIsRightUnlessTheCommitWasLate` shows that this is the
  only such case: every other claim of that kind is right.
* **Concatenation names three indeterminate errors of its own** for the exits between the old and
  the new topology. There is a fourth: `atomic_rebase_indeterminate` of the push itself
  (`src/physical_rebase.rs:1924-1930`), with its input in
  `Concat.UnseenPushIsAFourthIndeterminateExit`. `Concat.WhollyOldOrNewUnlessUnseenOrLate` is the
  exact condition, and `Concat.ExitIsExact` that of every exit. Even then branches and edge are
  each wholly old or wholly new, and the caravans are the old ones or the joined ones
  (`Concat.EveryExitHasWholeCaravans`).
* **Chain surgery** makes the joined chain only if the branch of the target tail is not the
  default branch itself (`Fleets.ChainSurgery`, `Fleets.TailOnDefaultBranchJoinsNothing`).
* **A failed force command that says `mutated: false`** may have written: exactly when the label
  edit, or the comment of a rerun that finds the label in place, takes effect and reports an
  error (`Force.AttemptIsTruthful`; inputs in `Force.LateLabelWriteIsReportedAsUnchanged` and
  `Force.LateCommentIsReportedAsUnchanged`).
* **Exactly one audit comment** is left exactly when there was none of that transition, or only
  the latest (`Force.RerunsConverge`). The comment above the marker says that a second transition
  on one head gets a different marker (`src/github.rs:405-407`). The code gives a repeated one the
  same: arming, revoking and arming again leaves two (`Force.ArmRevokeArmPostsTheAuditTwice`).
* **A failed preflight** does not stop a checked-out candidate that has a blocking row ahead: it
  is stopped exactly when it is an ordinary one and no row ahead is joined, a dependency or
  rejected (`Admission.FailedPreflightStopsCheckedOutOnlyWithoutBlockers`; input in
  `Admission.CheckedOutPassesAFailedPreflight`).
* **The base walk** returns the whole closure exactly when that has at most 64 members; else it
  returns 64 of them (`Admission.DependencyPrs`).
* **The order of the checks** may decide between a selection and a refusal. Unknown runs are
  compared with the first report of a workflow (`src/ci_dispatch.rs:220-228`, `347-355`), so two
  current reports of one workflow under one context, with an unknown run between their runs,
  select in one order and refuse in the other (`CiSelectOrder.OneOrderSelectsAndTheOtherRefuses`).
  `CiSelectOrder.CheckOrderMattersIff` is the exact condition. Contexts are visited in order, so
  only the reports under the first context of a workflow take part in it. If the runs of one
  workflow carry one workflow name, all its current reports name one run and the order is
  irrelevant (`CiSelectOrder.CheckOrderIsIrrelevantWithOneNameEach`).

## Model

| member | source | states |
|---|---|---|
| Generations.SameStreamSlotIsSymmetric | src/generation.rs:330-348 | the sibling relation is symmetric |
| Generations.ValidEntriesAreFacts | src/generation.rs:535-563 | an entry of the classification is one of the given facts, without error and with provenance |
| Generations.ValidEntriesAreTheValidFacts | src/generation.rs:535-563 | with distinct numbers every valid fact has its entry |
| Generations.InvalidFindingsAreInvalid | src/generation.rs:538-563 | every fact with a metadata error has an invalid finding |
| GenerationComponents.ConnectedIsSymmetric | src/generation.rs:564-583 | being linked through siblings goes both ways |
| GenerationComponents.ConnectedIsTransitive | src/generation.rs:564-583 | being linked through siblings composes, although being a sibling does not |
| GenerationComponents.ComponentsAreClasses | src/generation.rs:564-583 | two components are equal or disjoint |
| GenerationComponents.ComponentListIsCorrect | src/generation.rs:564-583 | the components partition the entries into exactly the connected classes, each ascending |
| GenerationComponents.Flood | src/generation.rs:567-581 | the breadth-first search from the least unseen entry removes exactly its connected component and leaves a set that no link leaves |
| GenerationComponents.TakePeers | src/generation.rs:571-580 | one round moves exactly the unseen siblings of the current entry to the queue |
| GenerationComponents.FindComponents | src/generation.rs:564-583 | the search ends and yields the list of connected components |
| GenerationAnalysis.CompareAll | src/generation.rs:637-653 | all pairs of a component are compared in order until 64 answers are spent over the whole classification |
| GenerationAnalysis.FindMaxima | src/generation.rs:655-680 | the maxima are exactly the members that contain every other member of their component |
| GenerationAnalysis.PickNewest | src/generation.rs:681-689 | of several maxima the one with the greatest time and number is canonical |
| GenerationAnalysis.Classify | src/generation.rs:587-755 | the loop over one component yields its verdict: alone, by the one reviewed link, ambiguous under several, by containment, or ambiguous as a whole; what each verdict rests on is stated in `GenerationOutcomes` |
| GenerationAnalysis.Record | src/generation.rs:484-530 | the canonical member becomes current, every other one superseded with exact evidence |
| GenerationAnalysis.Analyze | src/generation.rs:535-773 | the findings of the whole classification, exactly the comparisons it spends, and the truncation flag exactly when a component wanted more than were left |
| GenerationTheorems.SiblingsAreNeverBothAdmitted | src/generation.rs:835-869 | two distinct pull requests linked directly or through siblings are never both admissible, for every oracle |
| GenerationTheorems.InvalidMetadataIsNeverAdmitted | src/generation.rs:538-563 | a fact with a metadata error is never admissible |
| GenerationTheorems.FindingIsTheVerdict | src/generation.rs:584-773 | every finding is the one verdict of the connected component of its pull request |
| GenerationTheorems.IntegrityStatus.ApplyLifecyclePolicy | src/generation.rs:800-832 | the policy sets the action of eligible durable supersessions and preserves all others |
| GenerationTheorems.IntegrityStatus.RequireAdmissible | src/generation.rs:835-869 | passes exactly a pull request without finding or with the current generation |
| GenerationTheorems.ClosedWorkIsKept | src/generation.rs:655-697 | with a sound oracle whatever is closed is contained in, or was linked by, a current sibling that stays open, under the recorded heads |
| GenerationTheorems.EveryComponentKeepsOneOpen | src/generation.rs:800-832 | closing all that is marked leaves an open member in every component |
| GenerationTheorems.MaximaAreIdentical | src/generation.rs:655-689 | two maxima of a component were compared as identical |
| GenerationTheorems.MissingAnswersKeepMaxima | src/generation.rs:637-680 | losing answers adds no maximum |
| GenerationTheorems.MissingAnswersCrownNobodyNew | src/generation.rs:535-773 | over a whole classification: what is canonical although answers are missing is canonical with all answers too, or holds exactly the history of what is; whoever is ambiguous with all answers stays so |
| GenerationTheorems.MissingAnswersKeepTheVerdict | src/generation.rs:637-697 | for one component: losing answers never makes canonical what was not a maximum or linked before |
| GenerationTheorems.BudgetIsShared | src/generation.rs:637-653 | the comparisons spent are the least of 64 and the pairs wanted by all components without a link, and truncation is reported exactly when more were wanted |
| GenerationTheorems.OrderOfFactsIsIrrelevant | src/generation.rs:755-772 | permuting the facts changes no finding |
| GenerationTheorems.DuplicateStreamPrs | src/generation.rs:353-381 | exactly the pull requests with a sibling among the other facts |
| GenerationTheorems.ContestedMeansNotAlone | src/generation.rs:353-381 | a pull request has a sibling exactly when its component has another member |
| GenerationOutcomes.ConflictingLinksAdmitNobody | src/generation.rs:603-640 | if two distinct members of one component each name every other member, no member is admitted and none is closed, for every oracle |
| GenerationOutcomes.OneLinkIsCanonical | src/generation.rs:603-618 | if exactly one member names every other one, it is canonical by reviewed link and every other member is superseded by it, for every oracle |
| GenerationOutcomes.AloneIsCurrent | src/generation.rs:587-592 | a pull request without connected siblings is current |
| GenerationOutcomes.ContainmentCrownsTheNewest | src/generation.rs:637-697 | without such a link somebody is canonical if and only if some member was answered, within the 64 comparisons, to contain every other; then it is the newest of those by creation time and number, else nobody is admitted or closed |
| GenerationOutcomes.ContainmentIsComplete | src/generation.rs:637-697 | with an exact oracle and enough comparisons somebody is canonical if and only if some member holds the work of all others |
| GenerationOutcomes.CrownedClosesTheOthers | src/generation.rs:800-832 | under a policy that closes, exactly the other members of a component with a canonical one are closed |
| GenerationOutcomes.SiblingsShareAgentBeadAndSlot | src/generation.rs:330-348 | two provenances are siblings if and only if they have one agent, a common bead and one stack slot (both roots or both blocked on the same parent), and neither is stacked on the other |
| GenerationDeclarations.AttachReviewedLinks | src/generation.rs:436-480 | exactly the entry of the canonical pull request gets the declared set; no other entry changes |
| GenerationDeclarations.DeclarationRoundTrip | src/generation.rs:385-433 | a printed body is read back as the declared set without zero and the canonical number, whatever actor and reason say, newest marker first |
| GenerationDeclarations.AttachingRecoversTheDeclaration | src/generation.rs:436-483 | attaching the newest printed body at the current head of the canonical pull request recovers exactly the declared set without zero and the canonical number; if that is empty, the historical receipt decides |
| GenerationDeclarations.LastContainingIs | src/generation.rs:414-433 | the last comment that contains the marker decides |
| GenerationHistory.HistoricalReceiptIsRead | src/generation.rs:455-483 | the historical receipt gives links if and only if the newest audit comment is for this very number, by exactly the controller, and its first reason names some after its first phrase; which numbers those are |
| GenerationHistory.DeclarationIsRead | src/generation.rs:414-434 | a declaration gives links if and only if the newest comment with the marker of this number and head lists some in its first such line |
| GenerationHistory.NumbersAreTheDigitRuns | src/generation.rs:424-433 | the numbers of a list are exactly its maximal runs of digits that fit 64 bits |
| CiExecutions.SucceedsIsAStrictOrderOnExecutions | src/ci_dispatch.rs:146-167 | succession is a strict partial order compatible with the equivalence of executions |
| CiExecutions.ExecutionsOfOneKindAreCompared | src/ci_dispatch.rs:146-167 | two executions are the same or one succeeds the other if and only if App, workflow, pull request and event agree and one run did not change its suite; by run, then by attempt |
| CiDispatch.StepKeepsInv | src/ci_dispatch.rs:443-565 | every single step, crash and lost or late write included, keeps the invariant of store, archive and history |
| CiDispatch.RunKeepsInv | src/ci_dispatch.rs:443-565 | so does every run |
| CiDispatch.EveryRunIsSafe | src/ci_dispatch.rs:443-525 | over every run at most one start takes effect per binding, a second request follows a durable refusal of the first, a reused execution is never requested, and after a durable successor only successors are reported, ever further |
| CiDispatch.IntentIsWrittenAhead | src/ci_dispatch.rs:475-502 | whenever the provider is about to be asked, the intent is durable and for a restartable execution of its own binding, no start took effect before, and every earlier request was durably refused |
| CiDispatch.PreflightCameFirst | src/ci_dispatch.rs:475-502 | behind every request of a run there is a passed preflight, from which its very intent came |
| CiDispatch.StepKeepsBacked | src/ci_dispatch.rs:451-525 | every step keeps that intents and checkpoints are for a restartable, or reusable, execution of their binding |
| CiDispatch.OriginalIsRefusedAfterSuccessor | src/ci_dispatch.rs:533-541 | once a successor is durable the original execution is refused as a regression and the store keeps it |
| CiDispatch.RefusedStartAsksAgain | src/ci_dispatch.rs:443-525 | a refused start is archived and asked again by the next call in fair weather |
| CiDispatch.EveryCallIsARun | src/ci_dispatch.rs:443-525 | a call is a run of single steps that ends between two calls, so that all that holds over runs holds after calls |
| CiDispatchReplies.EveryReplyIsGrounded | src/ci_dispatch.rs:443-565 | over every run each reply `Requested` comes after a start that took effect, each `Reused` after the reuse was durable, each `SuccessorObserved` after that very successor was |
| CiDispatchReplies.StepKeepsGrounded | src/ci_dispatch.rs:443-565 | every step keeps that, with the evidence of every checkpoint in the history |
| CiDispatchReplies.UnacknowledgedIntentIsUncertain | src/ci_dispatch.rs:546-557 | a repeated call on an unacknowledged intent with the same execution ends indeterminate and leaves store and archive as they were |
| CiDispatchReplies.KnownStartIsConfirmed | src/ci_dispatch.rs:546-565 | with an acknowledgement or a durable reuse it is confirmed without a write |
| CiDispatchReplies.SuccessorIsStoredThenReported | src/ci_dispatch.rs:542-545 | a successor is stored with the checkpoint, then reported |
| CiDispatchReplies.ForeignExecutionIsUncertain | src/ci_dispatch.rs:546-557 | an execution that is neither the same nor a successor ends indeterminate |
| CiDispatchReplies.RequestIsRecorded | src/ci_dispatch.rs:475-525 | the store and the history after a fresh request, for each answer of the provider |
| CiDispatchReplies.ReusableIsReused | src/ci_dispatch.rs:475-501 | a reusable execution is stored as reused, then reported, without a request |
| CiDispatchReplies.UnsavedIntentAsksNobody | src/ci_dispatch.rs:485-496 | an intent whose save fails is never asked for |
| CiDispatchReplies.UnrestartableIsRefused | src/ci_dispatch.rs:475-483 | without a restartable execution or a passed preflight nothing is stored |
| CiDispatchReplies.RefusedCheckpointIsArchived | src/ci_dispatch.rs:470-474 | a refused checkpoint is put away and the call goes on as if it had never been |
| CiDispatchReplies.UnfitCallsChangeNothing | src/ci_dispatch.rs:451-468 | a call on a foreign, unreadable or malformed checkpoint changes nothing |
| CiDispatch.Host.Dispatch | src/ci_dispatch.rs:443-525 | the imperative call equals the specified one whichever operation fails; it is done exactly when its reply is the last event, indeterminate exactly when the history says so, and each error it stops with has its exact cause |
| CiDispatch.Host.Retire | src/ci_dispatch.rs:470-474 | a refused checkpoint is archived before it is removed, and the call goes on exactly when both worked |
| CiDispatch.Host.StartFresh | src/ci_dispatch.rs:475-525 | disposition, preflight, durable intent and request in this order, each with its error |
| CiDispatch.Host.Ask | src/ci_dispatch.rs:502-525 | the answer of the provider is recorded as acknowledgement, typed refusal or nothing; a failure is reported exactly when it was not accepted |
| CiDispatch.Host.Reconcile | src/ci_dispatch.rs:527-565 | a stored intent is matched with the selected execution without asking again; without acknowledgement or reuse the same execution is indeterminate |
| Checks.CurrentReportsShareTheirRun | src/model.rs:404-419 | all current reports of one workflow identity name the same run |
| CiSelect.NewestIsGreatest | src/ci_dispatch.rs:356-372 | the result is a run of the workflow on the head and at least every other one by run and attempt |
| CiSelect.FillAnchors | src/ci_dispatch.rs:209-237 | the nested loops fill the anchors as the reports one after the other would, and refuse when a name has no report |
| CiSelect.Select | src/ci_dispatch.rs:184-246 | the loops over names, reports and anchors yield the specified selection; what it rests on is stated in `CiSelectEvidence` |
| CiSelect.SelectionIsNewestAndCovers | src/ci_dispatch.rs:184-271 | one execution per workflow, each the unique greatest known run on the head bound to this pull request; every required name is reported and every applicable Actions report is covered by an execution not older than its run |
| CiSelect.NewestExecutionIsTheNewest | src/ci_dispatch.rs:342-387 | the selected run is strictly newer than every other known run of its workflow, and no unknown run is as new as the anchor |
| CiSelect.AnchorsKeepTheFirstReport | src/ci_dispatch.rs:220-237 | an anchor keeps the run of the first report of its workflow |
| CiSelect.EveryReportIsAnchored | src/ci_dispatch.rs:220-237 | every report stands behind the anchor of its workflow with its App and its context |
| CiSelect.AnchoringSucceedsIffReportsAgree | src/ci_dispatch.rs:209-237 | anchoring succeeds exactly when every report can be anchored and no workflow has two Apps |
| CiSelect.ReportsAreTheApplicableOnes | src/ci_dispatch.rs:209-227 | the reports are exactly the current checks of a name to cover that are applicable |
| CiSelect.LineageOrderIsIrrelevant | src/ci_dispatch.rs:248-387 | permuting the suites and the runs changes nothing, neither a result nor a refusal |
| CiSelectOrder.SelectionSucceedsIff | src/ci_dispatch.rs:184-387 | a selection succeeds exactly when policy, lineage, reports, anchors and known executions are in order and no unknown run is as new as the first report of a workflow |
| CiSelectOrder.AnchorsAreOfTheirReports | src/ci_dispatch.rs:220-237 | there is an anchor for exactly the reported workflows, with the App and exactly the contexts of their reports, in order |
| CiSelectOrder.CheckOrderMattersIff | src/ci_dispatch.rs:209-246 | some order of the checks changes the selection if and only if all else is in order, every workflow has a leading report that no unknown run reaches, and some workflow has one that an unknown run reaches (leading: under the first name that reports the workflow) |
| CiSelectOrder.OtherwiseEveryOrderSelectsTheSame | src/ci_dispatch.rs:184-387 | in all other cases every order of the checks gives the same selection or the same refusal |
| CiSelectOrder.OneOrderSelectsAndTheOtherRefuses | src/ci_dispatch.rs:342-355 | two checks and three runs for which one order selects and the other refuses |
| CiSelectOrder.CheckOrderIsIrrelevantWithOneNameEach | src/ci_dispatch.rs:184-387 | if the runs of one workflow carry one workflow name, the order of the checks changes nothing |
| CiSelectOrder.OlderReportsAreMoreDoubtful | src/ci_dispatch.rs:347-355 | an unknown run that reaches a report reaches every older one, so the oldest and the newest leading report decide |
| CiSelectEvidence.FailedWorkIsRestarted | src/ci_dispatch.rs:82-134 | a selected execution has to be started again if and only if a current check of one of its contexts, with its App, suite, head and run, failed, was cancelled, timed out or requires action; it is requestable exactly then and when completed with a restartable conclusion, and reusable exactly otherwise |
| CiSelectEvidence.RedChecksAreRunAgain | src/ci_dispatch.rs:82-145 | so a red required check on a completed run with a failing conclusion is requested and never reused |
| CiSelectEvidence.NewestRunGivesTheExecution | src/ci_dispatch.rs:42-116 | an execution is selected for an anchor if and only if every run since is identified and it is given by the newest run of the workflow, bound to exactly this pull request, with a suite of Actions on this head and a known state |
| CiSelectEvidence.ReportsNameTheRunBehindThem | src/ci_dispatch.rs:282-340 | a report names a workflow if and only if there is a run behind it: of its suite, head, number and workflow name, fully identified |
| CiSelectEvidence.ForeignReportsNameNoWorkflow | src/ci_dispatch.rs:287-302 | exactly statuses and check runs of suites of other Apps name no workflow |
| CiSelectEvidence.ReportsAnswerARequirement | src/required_runs.rs:73-83 | the reports of a required name are its current checks that answer a requirement: a foreign App or another head cannot stand in |
| CiSelectEvidence.BareNamesAreRefined | src/required_runs.rs:129-140 | a bare name is required of any App unless a typed requirement refines it |
| CiSelectEvidence.LatestAreTheCurrentOnes | src/model.rs:347-419 | a check is current if and only if no check of its identity has a later stamp and none of its workflow a later run |
| CiSelectEvidence.RunIdIsRead | src/ci_dispatch.rs:389-398 | the run number of a check is read from its details URL |
| CiSelectEvidence.SelectionNeedsWholeEvidence | src/ci_dispatch.rs:184-271 | nothing is selected under an incomplete policy or from an incomplete, ambiguous or foreign lineage |
| Fleets.WalkLinear | src/graph.rs:1186-1207 | following only children from a start ends where there is none or where it is visited, repeats nobody, and yields the whole caravan from a root of a fleet in good shape |
| Fleets.FindRoots | src/graph.rs:537-655 | exactly the members without a single parent are roots; exactly the shared heads, ambiguous and dangling bases and forks are reported, and none exactly when the fleet has none of them |
| Fleets.Derive | src/graph.rs:537-691 | for any fleet, cyclic ones included, every member is in one place of one listed chain, followed by its only child unless that starts a chain, in the order of their first members; the problems are exactly those of single members and the chains without a head; there is none exactly when the fleet is well formed, and then the list is exactly its caravans |
| Fleets.CaravansAreDisjoint | README.md:35-40 | caravans that share a member are the same |
| Fleets.CaravanMembersAreDistinct | README.md:35-40 | no member occurs twice in a caravan |
| Fleets.ChainSurgery | src/concat.rs:215-263 | retargeting the source root to the target tail gives exactly target members then source members, every other caravan unchanged, and a fleet in good shape |
| Fleets.TailOnDefaultBranchJoinsNothing | src/concat.rs:215-263 | on the default branch itself the retarget joins nothing |
| Fleets.SameNamesSameCaravans | README.md:35-40 | commits do not matter for the decomposition, only names do |
| ConcatPlans.PlanConcat | src/concat.rs:87-272 | the first refusal in the fixed order, exactly one plan when none applies, with each source member put behind its predecessor |
| ConcatPlans.PlanMembers | src/concat.rs:215-243 | the loop over the source members stops at the first member without facts or from a fork |
| ConcatPlans.PlannedIffItMayBe | src/concat.rs:87-214 | an input is planned if and only if actor and reason may be recorded, the fleet is healthy, the first caravan with that head and the first with that tail differ and are neither parked nor held, tail and source members are known and owned, and the merge is clean |
| ConcatPlans.TheFirstInOrderIsMet | src/concat.rs:87-214 | the refusal is the first one that applies in the listed order |
| ConcatPlans.MembersAreMetLast | src/concat.rs:215-235 | missing or foreign source members are refused last, at the first of them |
| ConcatPlans.RefusalsOfCaravans | src/concat.rs:141-177 | what the three refusals about the two caravans mean |
| ConcatPlans.MembersFollowEachOther | src/concat.rs:215-243 | every member is put behind the one before it, the first one behind the target tail, each with the branch, head and base that were read, which are kept for the rollback |
| ConcatPlans.PlanJoinsTwoCaravans | src/concat.rs:123-157 | on a true status an accepted plan joins two distinct whole caravans by the one edge from the source root to the branch of the target tail |
| ConcatPlans.PlanIsUnique | src/concat.rs:215-272 | status and input leave one plan |
| ConcatPlans.DerivedListIsTrue | src/graph.rs:659-691 | the list derived from a fleet without problems is what a plan may rely on |
| ConcatPlans.PlanningAgainIsRefused | src/concat.rs:112-132 | after the join the first refusal of the same input is exactly that the source heads no caravan, or that the fleet is unhealthy |
| ConcatPlans.JoiningOnceIsEnough | src/concat.rs:112-132 | the same after exactly the one planned base edit |
| Concat.MovedIsExact | src/physical_rebase.rs:1838-1941 | a push brings every branch of the items to its other commit and touches no other branch |
| Concat.MovedBack | src/physical_rebase.rs:1944-2017 | the rollback push restores every branch |
| Concat.PushIsAllOrNothing | src/physical_rebase.rs:1838-1941 | applied or refused is answered only when every branch is new, or every branch is old |
| Concat.UndoIsAllOrNothing | src/physical_rebase.rs:1944-2017 | restored is answered only when every branch is old again |
| Concat.EveryExitIsOldOrNew | src/concat.rs:399-492 | at every exit heads and base edge are each wholly old or wholly new; success is wholly new; what each error leaves behind |
| Concat.ExitIsExact | src/concat.rs:399-492 | each of the eleven exits comes about if and only if the environment did what is listed for it, whatever the world; where branches and base edge end is an exact function of the same |
| Concat.PushIsExact | src/physical_rebase.rs:1838-1941 | a push is confirmed if and only if it had nothing to do, or landed and was reported or seen; declined if and only if it did not land and the branches were read |
| Concat.UndoIsExact | src/physical_rebase.rs:1944-2017 | the rollback push is confirmed under the same condition |
| Concat.ForeignCommitsStopEverything | src/physical_rebase.rs:1838-1941 | in any world, a branch with a commit of somebody else stops the transaction before it changes anything |
| Concat.NothingElseIsTouched | src/concat.rs:399-492 | from any world a transaction moves a branch only between the two commits of one item, and edits no base but that of the root, and that only if the base read back was the real one |
| Concat.BaseEditsAreLeased | src/github.rs:1712-1728 | a base edit takes effect only under the expected base and commit |
| Concat.ExposedIs | src/concat.rs:410-430 | the base edit is tried only after every rewritten head was read back |
| Concat.WhichExitsClaimNoChange | src/concat.rs:668-692 | which exits say that nothing was changed |
| Concat.CommitLeaves | src/concat.rs:431-492 | the same from the base edit on, with both levels of rollback |
| Concat.AllUndone | src/concat.rs:538-587 | the complete rollback restores everything or ends in one of its two named indeterminate errors with a known half |
| Concat.HeadsUndone | src/concat.rs:668-692 | the rollback of the heads keeps the edge, and restores all heads unless it is indeterminate |
| Concat.UnchangedClaimIsRightUnlessTheCommitWasLate | src/concat.rs:668-692 | a failure that claims no change is right if and only if the base edit was not one that, under a true view, took effect and reported an error |
| Concat.WhollyOldOrNewUnlessUnseenOrLate | src/concat.rs:399-492 | apart from the three errors named indeterminate, the topology is wholly old or wholly new if and only if no push landed unseen and no base edit was late |
| Concat.UnseenPushIsAFourthIndeterminateExit | src/physical_rebase.rs:1924-1930 | a concrete fleet that a push landed unseen leaves half rewritten |
| Concat.LateCommitIsReportedAsUnchanged | src/concat.rs:437-452 | a concrete fleet in which that claim is wrong |
| Concat.GoodWeatherCompletes | src/concat.rs:399-525 | with good replies and a true view the transaction completes |
| Concat.EveryExitHasWholeCaravans | src/concat.rs:399-525 | at every exit the caravans are the old ones or those with the two joined |
| Concat.TransactionKeepsRefs | src/concat.rs:399-492 | every branch that a member names is there at every exit |
| Concat.PlannedJobFits | src/concat.rs:351-400 | the rewrites of a plan name each source member with its branch and its rewritten commit, all branches distinct and at their planned commits |
| ConcatExecution.ExistingReceipt | src/concat.rs:598-644 | the newest of the last 100 records that is not about something else decides: its receipt, or an error if it is unreadable |
| ConcatExecution.ReceiptStaysFound | src/concat.rs:598-644 | a receipt is found while fewer than 100 unrelated records follow it |
| ConcatExecution.ReceiptFadesAway | src/concat.rs:602-610 | after 100 unrelated records a receipt is not found |
| ConcatExecution.DamagedRecordInvalidates | src/concat.rs:617-665 | a newer event with an unreadable plan, or without its evidence, makes the receipt invalid |
| ConcatExecution.OneReply | src/concat.rs:322-525 | the causes listed for the replies of one execution exclude each other |
| ConcatExecution.Host.EditBase | src/github.rs:1712-1728 | one edit under the expected head and base, which may take effect and report an error |
| ConcatExecution.Host.RollbackHeads | src/concat.rs:668-692 | refines the rollback of the heads |
| ConcatExecution.Host.RollbackAll | src/concat.rs:538-587 | refines the complete rollback, base edge first |
| ConcatExecution.Host.Transact | src/concat.rs:399-493 | the imperative transaction is the specified one |
| ConcatExecution.Host.DispatchEvent | src/hooks.rs:246-275 | the event is appended before its hook runs, the delivery after it; the exact journal, and success exactly when the append worked and a configured hook was recorded and passes |
| ConcatExecution.Host.Execute | src/concat.rs:322-525 | each of the replies has its exact cause in journal, writer, status, plan, rewrites, transaction and hook; a receipt is returned without a write, a refusal before the transaction changes nothing, every later reply is the end of the transaction from the reviewed plan, and only a complete one is journaled |
| ConcatExecution.Host.ExecuteTwice | src/concat.rs:322-346 | after a complete run the same command, with a true status of the world as it is then, writes nothing: it returns the receipt, or is refused because the source heads no caravan or the fleet is unhealthy |
| ConcatExecution.JoinedRunWritesNothing | src/concat.rs:322-346 | what the second reply can be |
| Admission.BeforeIsAStrictTotalOrder | src/admission.rs:254-266 | the key orders candidates strictly and totally |
| Admission.DependencyPrs | src/admission.rs:270-290 | the walk ends on cyclic graphs too, returns members of the base closure only, and with unique heads all of them exactly when there are at most 64 |
| Admission.Evaluate | src/admission.rs:303-515 | the loops over both lists compute the specified decision; which rows and which outcome that is, is stated in `AdmissionOrder` |
| Admission.RowsAheadAreTheSmallerKeys | src/admission.rs:388-434 | the rows are exactly the candidate rows and order-blocking rejected rows with a smaller key |
| AdmissionOrder.ReportedRowsAreThoseAhead | src/admission.rs:254-434 | a row is reported for an ordinary candidate if and only if its rank (unset: behind all labels) is smaller, or it is dated and the candidate is not, or its stamp is smaller byte for byte, or stamps agree and its number is smaller; with its exact disposition, in the order of the numbers |
| AdmissionOrder.OutcomeOfAnOrdinaryCandidate | src/admission.rs:436-515 | the outcome for each selection, by whether a joined row, a dependency or an order-blocking rejected row is ahead |
| AdmissionOrder.OutcomeOfTheOthers | src/admission.rs:339-386 | enrolled, next and unlisted candidates get their outcome without any row |
| AdmissionOrder.AChildNeverPassesItsParent | src/admission.rs:270-434 | a pull request based on an older one of its rank never passes it on request |
| AdmissionOrder.ListsAreThoseOfTheRows | src/admission.rs:436-446 | passed and blocking numbers are those of the rows with that disposition |
| AdmissionOrder.DependenciesAreBases | src/admission.rs:270-290 | a dependency is an open pull request of the same repository whose branch is the base of the candidate or of another dependency |
| Admission.BypassedAndBlockingPartitionTheRows | src/admission.rs:436-446 | bypassed and blocking numbers partition the rows |
| Admission.SortRowsSorts | src/admission.rs:434 | the reported rows are ascending and the same rows |
| Admission.ExplicitPassesOnlyUnrelatedRows | src/admission.rs:303-515 | explicit selection passes if and only if every row ahead is an unjoined, non-dependency candidate row |
| Admission.AutomaticImpliesExplicitImpliesCheckedOut | src/admission.rs:303-515 | automatic permission implies explicit, explicit implies checked-out, on every input |
| Admission.OrderOfListsIsIrrelevant | src/admission.rs:303-515 | permuting both lists changes no part of the decision |
| Admission.DecisionRecord.RecordPreflight | src/admission.rs:233-245 | the preflight changes its two flags and stops only an explicit pass |
| Admission.DecisionRecord.RecordExecution | src/admission.rs:247-251 | the mutation flag and its negation as the idempotence flag |
| Admission.PreflightKeepsThePermissionOrder | src/admission.rs:233-245 | after any preflight the chain of permissions still holds and nothing stopped is let through |
| Admission.FailedPreflightStopsCheckedOutOnlyWithoutBlockers | src/admission.rs:233-245 | on every input a failed preflight stops a checked-out candidate exactly when it is an ordinary one and no row ahead is joined, a dependency or rejected |
| Admission.CheckedOutPassesAFailedPreflight | src/admission.rs:233-245 | two rows for which it keeps its permission |
| StreamCapture.Absorb | src/command.rs:2352-2368 | one chunk extends prefix, suffix and counter to those of the longer stream |
| StreamCapture.Capture | src/command.rs:2345-2375 | for every way of chunking the result is that of the whole stream at once |
| StreamCapture.TruncatedIsExact | src/command.rs:2345-2375 | the flag is right exactly unless the counter saturates at its own limit |
| StreamCapture.WindowsLoseOnlyTheMiddle | src/command.rs:2316-2328 | prefix and suffix lose nothing but the middle of a truncated stream |
| RequestBudget.StepKeepsInv | src/command.rs:886-898 | every atomic step of any runner keeps the accounting |
| RequestBudget.EveryInterleavingIsBounded | src/command.rs:886-908 | in every interleaving the reservations equal the counter, counter and children never pass the limit, a refusal means the budget is spent, and one call starts at most two children |
| RequestBudget.BudgetIsUsable | src/command.rs:886-898 | below the limit an undisturbed exchange reserves one unit |
| CredentialRetry.Machine.WaitBeforeRetry | src/command.rs:1498-1526 | the pause is granted and slept exactly when the verdict is transient, an attempt is left and the deadline allows pause and minimum |
| CredentialRetry.Machine.Run | src/command.rs:1220-1253 | a command is launched exactly when its effective time-out exists, and ends as the child does, or in a time-out when the child runs longer |
| CredentialRetry.Machine.Stage | src/command.rs:1757-1774 | a stage makes at most the allowed attempts (at least one), retries transient verdicts only, each after its pause and with the minimum time left, ends each as its child does, stays inside the operation deadline, and reports the last outcome |
| CredentialRetry.RetryHasTime | src/command.rs:1220-1253 | a granted retry has at least 750 ms left, so the deadline check cannot refuse it |
| CredentialRetry.RetryTestIsExact | src/command.rs:1498-1526 | the retry test grants precisely what the deadline check would launch |
| CredentialRetry.GrantedIff | src/command.rs:1498-1526 | a retry is granted exactly for a time-out or an unavailable provider, while attempts are left and pause and 750 ms fit before the deadline |
| CredentialRetry.DelaysAreTakenInOrder | src/command.rs:31-33 | the pauses are taken in order, then the last one again: 500 and 1500 ms |
| CredentialRetry.TimeoutIsTheLesser | src/command.rs:1220-1244 | a command gets the lesser of its time-out and the time left, and nothing under 750 ms to the deadline |
| Force.RerunLooksForTheSameMarker | src/force.rs:463-493 | the labels before and after the transition give the same audit, whose wish the labels after it meet |
| Force.Provider.EditLabel | src/github.rs:1712-1728 | one label edit under the observed head and labels |
| Force.Provider.FindAudit | src/github.rs:1123-1132 | the newest audit comment, whatever it is about, decides |
| Force.Provider.EnsureComment | src/github.rs:1100-1149 | the audit is posted unless the newest audit comment shows it |
| Force.ForceState.Already | src/force.rs:180-187 | a satisfied step is listed and does not count as a change |
| Force.ForceState.Record | src/force.rs:189-198 | a completed step is listed, counts as a change and replaces the observed labels |
| Force.Provider.Execute | src/force.rs:268-461 | the command is the specified attempt, and its reply is truthful |
| Force.AttemptIsTruthful | src/force.rs:565-599 | success tells exactly whether this run wrote and that the label is as wished and shown; a refusal wrote nothing; a failure tells it exactly unless the first write of the run was late |
| Force.LateLabelWriteIsReportedAsUnchanged | src/force.rs:389-392 | a label edit that takes effect and fails is reported as no change |
| Force.LateCommentIsReportedAsUnchanged | src/force.rs:417-419 | so is the comment of a rerun that finds the label in place |
| Force.RunsMakeProgress | src/force.rs:377-434 | over any sequence of attempts with any failures at most one effective label write and one post of the one audit are made |
| Force.OnlyTheForceLabelChanges | src/force.rs:463-493 | no attempt changes another label or the head |
| Force.NothingIsWrittenWithoutAuthority | src/force.rs:275-376 | without one attempt that passes the whole preflight with ADMIN permission on an active member, no number of attempts writes anything |
| Force.RefusedIffNoAuthority | src/force.rs:275-376 | an execution is refused if and only if something of the preflight, the labels or the permission is lacking, for arming the policy too |
| Force.TheFirstLackIsNamed | src/force.rs:275-376 | the refusal names the first thing that is lacking, in the listed order |
| Force.RevokeNeedsNoPolicy | src/force.rs:276 | with all else in order a revoke removes the force label and no other, whether or not force merging is enabled |
| Force.PostsUnlessTheNewestAuditShowsIt | src/github.rs:1109-1135 | a success posts the audit unless the newest audit comment is of the same operation and head, with the same labels afterwards or the same control labels before and after |
| Force.MarkersDifferByControlLabels | src/github.rs:408-436 | two markers of one operation and head agree exactly when the control labels do, the force label aside |
| Force.RerunsConverge | src/force.rs:377-434 | a sequence that ends in success made exactly the missing label write and the missing post; one audit is left if and only if none was there, or only the latest |
| Force.SuccessIsFinal | src/force.rs:377-434 | after a success no later attempt writes |
| Force.GoodAttempt | src/force.rs:377-434 | with authority, a true status and good replies an attempt makes the whole transition |
| Force.ArmRevokeArmPostsTheAuditTwice | src/github.rs:1123-1132 | arming, revoking and arming again leaves two comments of one audit |
| Receipts.Pigeonhole | src/ci.rs:305-359 | as many fields as required keys, each found, means each exactly once |
| Receipts.CompactIsExact | src/ci.rs:305-359 | a compact receipt is accepted if and only if it has exactly the five required keys once each with values that parse, which are the ones returned |
| Receipts.SentinelIsExact | src/ci.rs:360-387 | the older form is accepted if and only if there is the sentinel line and, for each of its eight keys, rows of one value only, however often they repeat it |
| Receipts.AcceptedReceiptIsUnambiguous | src/ci.rs:305-387 | a log is accepted if and only if it has the exit line, and either exactly one marker line of one kind and none of the other with exact fields, or no marker line and the exact rows of the older form |
| Receipts.CompactRoundTrip | src/ci.rs:320-359 | the five words in any order are read back with lower-case identifiers |
| Receipts.ReceiptRoundTrip | src/ci.rs:305-359 | one well-formed line, stamped or not, anywhere among lines without marker but with the exit line, is read back |
| Receipts.ReasonRoundTrip | src/ci.rs:108-130 | exactly the four printed reasons are parsed, as themselves |
| Receipts.ObjectNamesAreReadInLowerCase | src/ci.rs:492-495 | exactly 40 to 64 hexadecimal digits are read as an object name, in lower case |
| Receipts.StampsAreCut | src/ci.rs:305-314 | a line loses exactly a first word that ends in Z, and surrounding white space |

## Left out

- Provider, Git, clock, disk and process calls: they are choices of the environment. Signals, threads, time-outs of real children, environment variables and credential helpers are not part of the model.
- JSON, message texts, reasons in prose, schema versions other than the checkpoint's, and fingerprints of whole results: a digest is the value it digests.
- src/generation.rs:140-260, the parser of stream metadata: the facts are its results. Time stamps are strings in byte order, as the source compares them.
- CiDispatch.EveryRunIsSafe: one process at a time holds the writer guard, as the source assumes; another writer of the same store is not modelled.
- CiSelect.Selection: every refusal is one error, as in the source, where only the text differs.
- Fleets.Derive: of the problems that the fleet analysis reports only shared heads, ambiguous and dangling bases, forks and missing heads are modelled, shared heads once per member; a cycle shows as a missing head. Labels, evictions, auto-merge and branches reused after a merge are not part of this model.
- ConcatPlans.PlanConcat: the compatibility check is one answer.
- Concat.EveryExitIsOldOrNew: the lease of a base edit covers head and base; that it also covers labels and auto-merge would only make it fail more often. A repository mismatch and a branch named twice cannot come from a plan and have no exit.
- ConcatExecution.Host.Execute: the first status is a true picture of the members outside quarantined parked caravans, whose problems the source keeps apart; an unhealthy status may list anything, and all later reads may be anything. Delivery of a hook is one answer.
- Admission.Evaluate: reasons and labels of rows are strings that the decision only compares.
- RequestBudget.EveryInterleavingIsBounded: children that probe credentials inside a call run under a runner of their own without a budget and are not counted, as in the source.
- CredentialRetry.Machine.Stage: one stage is modelled; the broker call and the repository probe are two instances of it. The minimum time comes from the deadline; a caller's time-out of zero is refused without it.
- Force.RerunsConverge: head and the labels other than the force label are stable between reruns and nobody else posts audit comments; ordinary comments may come at any time. Label names that contain the separator of the rendered list are not modelled.
- src/ci.rs:391-548, job matching, range responses and excerpts of logs: single-pass filters.
- src/force_intent.rs, src/hooks.rs, src/ci_gate.rs, src/config.rs: decision tables and short loops that a reading settles; force intent with a fingerprint repeats the pattern of `Force`.
