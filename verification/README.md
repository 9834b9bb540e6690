# Selendra node and runtime: verified models

A Dafny model of the parts of the Selendra relay chain whose correctness rests on invariants that no single
function shows: the statement table of the backing protocol, the temporary-slot allocator, the choice of the
finality target, the overseer's active leaves and the job manager that follows them, the batched ancestry walk,
the rolling session cache, and the threshold, rotation and stream arithmetic underneath.

`dafny verify dfyconfig.toml` verifies the whole project.

## How it is built

Code that only computes is modelled by functions. Code that changes state is modelled by a class or a looping
method, proved against a function on plain values; whole runs are folds of that function, and the theorems
are about those runs.

| part | files |
|---|---|
| Statement table | `StatementTable`, `TableInvariants`, `TableReports`, `TableHistory`, `Table` |
| Assigned slots | `AssignedSlots`, `SlotQueue`, `SlotAccounting`, `SlotFairness`, `AssignedSlotsPallet` |
| Finality target | `BlockTree`, `FinalityTarget`, `FinalitySafety`, `VotingPause` |
| Active leaves and jobs | `LruCache`, `Signals`, `ActiveLeaves`, `Overseer`, `JobManager` |
| New blocks | `NewBlocks` |
| Session window | `SessionWindow` |
| Arithmetic and streams | `Backing`, `ShardInput`, `GroupRotation`, `Quorum` |
| Shared types and operators | `Common` |

What lies outside is a parameter: the registrar and the leasing system answer each call (`Answers`, the set of
refused leases), other subsystems answer requests (`Replies`, `ChainApi`, the runtime's replies), a signature check
is a predicate, and the order in which a hash map or storage map yields its entries is arbitrary.

## Assumptions, and what they are worth

- **Statement table.** One context is used for every import. The source calls a digest a unique attribute of a
  candidate. The absence of panics needs less, and `PanicFreeExactlyWhenCoherent` says exactly what: no two
  candidates with one digest may have groups that differ in a member. `UniqueDigests` is assumed where a report has to
  name the candidate that was really signed.
- **Assigned slots.** Temporary leases last at least one period, at least one lease may run per period, and the
  bounds are 32-bit numbers. Accounting needs period starts to move forward and stay below the largest 32-bit
  number, where saturating addition makes the program's test for a running lease miss every lease. The bound on
  waiting needs period starts to be consecutive, and the first slot in turn never to be refused.
- **Finality target.** Stored headers form a contiguous tree. Answers keep the promises of their messages: a leaf that
  contains the target; an ancestor no lower than asked, with the path that ends in it; the base or one of the
  blocks described. Nothing else is assumed of them, and every lookup may fail.
- **Overseer.** `head_supports_parachains` is a fixed predicate. Nothing else: the agreement also holds for repeated
  start-up leaves and for a block that names itself as parent.
- **New blocks.** An answer about ancestors is a stretch of them, nearest first, possibly empty; a header answered is
  the stored one. The same request always gets the same answer during one walk.
- **Session window.** `RunKeeps` assumes that one runtime answers for all heads, forks included; `RunGives` says what
  holds without that.

## Where the code does not do what is expected of it

- A refused lease at a period start stops the allocation and leaves `ActiveTemporarySlotCount` at its old value
  (`RefusalKeepsCountExactly`, `RefusalExample`). While the first slot in turn is refused, no slot is ever leased
  (`RefusedHeadStarvesAll`); refusals behind it do no harm (`BoundedWaitingInRun`, `StartLeasesExactly`).
- `unassign_parachain_slot` corrects the active count by what the registrar says, which keeps it right exactly when that
  agrees with the lease (`RemovalKeepsCountExactly`, `RemovalExample`).
- The safeguard against lagging finality votes for blocks that are not approved, or disputed
  (`VoteIsApprovedUnlessForced`, `NothingApprovedExample`).
- The voting pause is lifted by a failed header lookup (`PauseHoldsExactly`, `PauseExample`).
- `determine_new_blocks` does not end once the chain API answers a request for ancestors with an empty list, which it
  does when it does not find the header (`EndsExactly`, `MissingHeaderExample`).
- A leaf is announced as fresh again, and listeners for it wait, once it has been evicted from the cache of known leaves
  (`FreshnessInRun`, `AnsweredAtOnceExactly`, `FreshTwiceExample`). Deactivating a leaf drops those who wait for it
  unanswered, if it was evicted or is unsupported (`ListenersAreNotForgotten`).
- A session window created without data counts as if it held its earliest session; after an advance every entry can be
  off by one (`EmptyWindowExactly`, `EmptyWindowOffByOne`).
- `SessionWindowUpdate::Advanced` announces a window start that differs from the actual one when the window was short
  (`AnnouncedStartExactly`, `AnnouncedStartExample`).
- `bump_rotation` rotates nothing before the session has started (`BumpShiftsByOneExactly`, `BumpExample`).
- The comment on `DetermineUndisputedChain` speaks of an answer `None` that its type does not have; the model follows the type.

## Model

| member | source | states |
|---|---|---|
| TableInvariants.ImportKeepsWellFormed | modules/statement-table/src/generic.rs:369-508 | every import keeps the global invariant: proposals have an entry in which the proposer votes, voters are group members, an implicit vote is its voter's one proposal, no empty report list |
| TableInvariants.ImportDoesNotPanic | modules/statement-table/src/generic.rs:396-408 | under the invariant neither the `expect` nor the `panic!` can fire |
| TableInvariants.RunKeepsWellFormed | modules/statement-table/src/generic.rs:327-350 | over every run of imports nothing panics and the invariant holds |
| TableInvariants.CollisionPanics | modules/statement-table/src/generic.rs:457-464 | two candidates with one digest and incompatible groups reach the panic in two imports |
| TableInvariants.PanicFreeExactlyWhenCoherent | modules/statement-table/src/generic.rs:451-473 | no run from the empty table panics if and only if candidates with equal digests have compatible groups |
| TableInvariants.OneImplicitVote | modules/statement-table/src/generic.rs:387-427 | in every reachable table no authority holds implicit votes on two candidates |
| TableReports.ReportedExactlyWhenRulesBroken | modules/statement-table/src/generic.rs:327-508 | after any run an authority is reported if and only if its effective statements break the rules, and every report is a proof drawn from statements imported from it |
| TableReports.HonestIsNeverReported | modules/statement-table/src/generic.rs:341-349 | an authority whose statements follow the rules is never reported, whatever others send |
| TableReports.ReportsAlwaysProven | modules/statement-table/src/generic.rs:365-367 | with imports and drains in any order, every report held is proven by the statements imported so far |
| TableReports.DrainsConserveReports | modules/statement-table/src/generic.rs:341-367 | drained and held reports together are exactly those of the run without drains, in order: draining loses and repeats nothing |
| TableReports.ReportedOrDrainedExactly | modules/statement-table/src/generic.rs:341-367 | with imports and drains in any order, an authority is in a drained or held report if and only if its effective statements break the rules, and each of those reports is proven |
| TableReports.RunNamesHeldFirst | modules/statement-table/src/generic.rs:403-413 | over every run what a report names first is what the table holds: the accepted proposal or signature |
| TableReports.ReportsInOrderOfArrival | modules/statement-table/src/generic.rs:403-413 | after any run, of two candidates or two signatures in a report the one named first was imported before the other |
| TableReports.SummaryExactly | modules/statement-table/src/generic.rs:502-507 | an import returns a summary exactly when it adds a vote, and the summary counts it |
| TableReports.ImportExtends | modules/statement-table/src/generic.rs:444-508 | an import never changes or removes a proposal, a vote or a candidate |
| TableHistory.AttestationIsStable | modules/statement-table/src/generic.rs:309-318 | an attested candidate stays attested through every later import and its votes only grow |
| TableHistory.AttestedByGroup | modules/statement-table/src/generic.rs:236-260 | a candidate is attested exactly when it has the requisite votes, all from distinct members of its group |
| TableHistory.AttestationsWereSigned | modules/statement-table/src/generic.rs:245-253 | an implicit attestation is a seconding, an explicit one a validity vote, signed and sent by that voter |
| TableHistory.ReimportIsIdle | modules/statement-table/src/generic.rs:476-501 | a statement that once returned a summary changes nothing when imported again, whatever came in between |
| TableHistory.ImportsCommuteExactly | modules/statement-table/src/generic.rs:327-508 | imports from two authorities give the same three maps in either order if and only if neither votes on a candidate the other introduces |
| TableHistory.IntroductionMatters | modules/statement-table/src/generic.rs:451-454 | a vote before its candidate is lost, after it is counted or reported, so the order shows |
| Table.Table.ImportStatement | modules/statement-table/src/generic.rs:327-350 | the in-place import does what the import on values does and keeps the invariant |
| Table.Table.ImportCandidate | modules/statement-table/src/generic.rs:369-442 | seconding in place does what seconding on values does; the stored candidate is always there to be fetched |
| Table.Table.ValidityVote | modules/statement-table/src/generic.rs:444-508 | voting in place does what voting on values does |
| Table.Table.DrainMisbehaviors | modules/statement-table/src/generic.rs:365-367 | draining empties the reports and the iterator holds each authority's reports, complete and in order |
| Table.DrainMisbehaviors.Next | modules/statement-table/src/generic.rs:557-568 | the iterator yields every remaining item once, in order, and ends only when none remains |
| SlotQueue.ChosenCount | runtime/common/src/assigned_slots.rs:432-447 | exactly min(pending, cap - active) slots are chosen |
| SlotQueue.ChosenAreLeast | runtime/common/src/assigned_slots.rs:437-447 | no slot passed over has an earlier turn than one chosen |
| SlotQueue.ChosenIsPrefix | runtime/common/src/assigned_slots.rs:437-447 | the choice is the beginning of the sorted queue, whatever order the storage was read in |
| SlotQueue.SomebodyIsLeasedExactly | runtime/common/src/assigned_slots.rs:432-472 | some slot is leased if and only if there is room, some slot is pending and the first in turn is not refused |
| SlotQueue.GrantedAreLeast | runtime/common/src/assigned_slots.rs:437-472 | no slot passed over, for want of room or for a refusal, has a turn before one that is leased |
| SlotQueue.SomebodyIsRefusedFirst | runtime/common/src/assigned_slots.rs:444-472 | if a chosen slot is refused there is a first one |
| SlotAccounting.ServedLessGoesFirst | runtime/common/src/assigned_slots.rs:388-447 | at a period start, if a slot is leased, so is every competing slot with fewer leases, or as many and an older last lease or none, or the same last lease and a smaller id; said of the stored slots before and after |
| SlotAccounting.CompetesExactly | runtime/common/src/assigned_slots.rs:408-424 | a lease runs for its length, a slot competes again from two lengths after its last start on, one without a lease from its first period on |
| SlotAccounting.StartChangesOnlyLease | runtime/common/src/assigned_slots.rs:449-470 | a period start leaves a slot alone or gives it one more lease from that period on, and changes nothing else of it |
| SlotAccounting.StartSucceedsExactly | runtime/common/src/assigned_slots.rs:432-479 | a period start reports success if and only if it leases as many slots as compete and fit; else it cannot upgrade |
| SlotAccounting.StepKeepsAccounts | runtime/common/src/assigned_slots.rs:204-479 | every call and period start, whatever the answers, keeps counts equal to map sizes, the maps disjoint and both caps |
| SlotAccounting.RunKeepsAccounts | runtime/common/src/assigned_slots.rs:204-479 | so in every reachable state |
| SlotAccounting.RunKeepsCount | runtime/common/src/assigned_slots.rs:297-336 | if the outside cooperates, the active count is the number of running leases and never above the cap, over every run |
| SlotAccounting.StartKeepsCount | runtime/common/src/assigned_slots.rs:403-479 | a period start without refusals leaves the active count exact and within the cap |
| SlotAccounting.RemovalKeepsCountExactly | runtime/common/src/assigned_slots.rs:353-370 | a removal keeps the count exact if and only if `is_parachain` agrees with the lease, or nothing runs |
| SlotAccounting.RemovalExample | runtime/common/src/assigned_slots.rs:353-370 | a running lease removed as if it were none: nothing runs and the count says one |
| SlotAccounting.RefusalKeepsCountExactly | runtime/common/src/assigned_slots.rs:449-476 | after a refusal there is a first slot refused, and an exact count stays exact if and only if as many leases have run out as pending slots are ahead of it |
| SlotAccounting.RefusalExample | runtime/common/src/assigned_slots.rs:449-476 | two waiting slots, one refused: one lease runs and the count says none |
| SlotAccounting.RunSpacesLeases | runtime/common/src/assigned_slots.rs:416-424 | over a whole run a slot's leases start at least two lease lengths apart and never before its first period |
| SlotAccounting.RunCountsLeases | runtime/common/src/assigned_slots.rs:463-470 | over a whole run the lease count of a slot grows by the number of its lease starts |
| SlotAccounting.StepCountsLeases | runtime/common/src/assigned_slots.rs:204-479 | every call and period start keeps a lease count at zero exactly for slots without a lease |
| SlotAccounting.AssignsTemporaryExactly | runtime/common/src/assigned_slots.rs:262-340 | a temporary assignment succeeds exactly when nothing stands in its way and the cap is not reached, a failure changes nothing, the new slot holds the manager, first period and length asked for, and a lease runs at once exactly when asked for now, with room and no refusal |
| SlotAccounting.AssignsPermanentExactly | runtime/common/src/assigned_slots.rs:204-255 | a permanent assignment also fails when its lease is refused |
| SlotAccounting.AssignmentErrorExactly | runtime/common/src/assigned_slots.rs:204-295 | which error each failing check gives, the first one in the order of the checks |
| SlotAccounting.UnassignsExactly | runtime/common/src/assigned_slots.rs:345-370 | a removal succeeds if and only if it is authorised, there is a slot and its leases are cleared; otherwise it gives the first error and changes nothing |
| SlotAccounting.UnassignUndoesTemporary | runtime/common/src/assigned_slots.rs:262-386 | unassigning undoes a temporary assignment down to every counter if and only if `is_parachain` agrees with the fresh lease, or there was none and the count was zero |
| SlotAccounting.UnassignUndoesPermanent | runtime/common/src/assigned_slots.rs:204-386 | unassigning undoes a permanent assignment |
| SlotAccounting.NeverLeasedGoesFirst | runtime/common/src/assigned_slots.rs:394-398 | a slot that never had a turn goes before every slot that had one |
| SlotFairness.PassingOverCosts | runtime/common/src/assigned_slots.rs:437-473 | each lease granted while a pending slot is passed over or refused lowers its potential by one |
| SlotFairness.BoundedWaiting | runtime/common/src/assigned_slots.rs:403-479 | if the first in turn is never refused, a pending slot stays pending until leased, within (potential + 1) lease lengths of consecutive period starts, whatever else is refused |
| SlotFairness.BoundedWaitingInRun | runtime/common/src/assigned_slots.rs:403-479 | the same in every run of consecutive period starts of the machine |
| SlotFairness.CooperationAcceptsHeads | runtime/common/src/assigned_slots.rs:403-479 | runs without refusals meet the condition of the bound |
| SlotFairness.BoundedWaitingAmongCalls | runtime/common/src/assigned_slots.rs:204-479 | the bound with assignments and removals between the period starts: each temporary assignment adds at most the leases of the waiting slot plus two lease lengths, a removal nothing |
| SlotFairness.NewSlotCosts | runtime/common/src/assigned_slots.rs:262-340 | a new slot adds at most the leases of the waiting slot plus one to its potential |
| SlotFairness.LeasesLieBehind | runtime/common/src/assigned_slots.rs:403-479 | every reachable state meets the condition of the bound: leases so far started before the next period |
| SlotFairness.LengthsProduct | runtime/common/src/assigned_slots.rs:416-419 | the bound in the two rows above is the product of the potential plus one and the lease length |
| SlotFairness.RefusedHeadStarvesAll | runtime/common/src/assigned_slots.rs:449-472 | while the first slot in turn is refused no slot is leased, for any number of period starts |
| SlotFairness.StartLeasesExactly | runtime/common/src/assigned_slots.rs:432-472 | a period start changes the slots if and only if there is room, some slot waits and the first in turn is not refused |
| AssignedSlotsPallet.Pallet.AssignPermanentSlot | runtime/common/src/assigned_slots.rs:204-255 | the call changes storage as the assignment on values does, error by error |
| AssignedSlotsPallet.Pallet.AssignTemporarySlot | runtime/common/src/assigned_slots.rs:262-340 | the call changes storage as the assignment on values does; a refused lease only leaves the slot waiting |
| AssignedSlotsPallet.Pallet.UnassignSlot | runtime/common/src/assigned_slots.rs:345-386 | the call changes storage as the removal on values does |
| AssignedSlotsPallet.Pallet.Classify | runtime/common/src/assigned_slots.rs:404-429 | the pass over storage counts the running leases and lists the pending slots, in any order of iteration |
| AssignedSlotsPallet.Pallet.LeaseInTurn | runtime/common/src/assigned_slots.rs:444-473 | the loop leases the first entries of the queue up to the first refusal |
| AssignedSlotsPallet.Pallet.AllocateTemporarySlotLeases | runtime/common/src/assigned_slots.rs:403-479 | the loops and the sort lease exactly the slots that the rank definition grants, with the count and the result it gives |
| AssignedSlotsPallet.Pallet.ManageLeasePeriodStart | runtime/common/src/assigned_slots.rs:526-536 | a failed allocation at a period start changes nothing more |
| BlockTree.WalkFindsAncestor | node/service/src/grandpa_support.rs:28-60 | a walk from at or above its goal finds the one ancestor at that height, or a header on the way fails to load |
| BlockTree.WalkBackwardsToTargetBlock | node/service/src/grandpa_support.rs:30-60 | the loop ends, never goes below its goal, and gives that result |
| FinalitySafety.TargetStaysOnBranch | node/service/src/relay_chain_selection.rs:385-592 | for every tree and all answers that keep their promises the vote lies between the target and the chosen leaf and not above the maximum |
| FinalitySafety.LagIsCapped | node/service/src/relay_chain_selection.rs:561-591 | past the dispute step the vote is at most the maximal lag below the constrained leaf |
| FinalitySafety.VoteIsApprovedUnlessForced | node/service/src/relay_chain_selection.rs:468-591 | the vote is on the approved and undisputed chain if and only if that chain, or the target, ends at most the maximal lag below the constrained leaf; otherwise it is the block at the maximal lag, above that chain |
| FinalitySafety.HeadIsApprovedAndUndisputed | node/service/src/relay_chain_selection.rs:468-553 | that chain ends in the block the dispute coordinator names, at or below the block in the answer of approval voting |
| FinalitySafety.BallotExactly | node/service/src/relay_chain_selection.rs:394-553 | with all requests answered, disputes enabled or not, the leaf is capped at the maximum, the head is the block that the answers of approval voting and the dispute coordinator select, and the lag is how far that is behind |
| FinalitySafety.TargetExactly | node/service/src/relay_chain_selection.rs:376-592 | with all headers readable and all requests answered the vote is the undisputed block, or with disputes disabled the approved one, if at most the maximal lag below the constrained leaf, else the target if that is, else the block at the maximal lag |
| FinalitySafety.ApprovedAndUndisputedIsVotedFor | node/service/src/relay_chain_selection.rs:468-553 | the block that approval voting names and the dispute coordinator confirms is voted for, if at most the maximal lag below the leaf |
| FinalitySafety.TargetWithoutAnswers | node/service/src/relay_chain_selection.rs:385-553 | the vote or the error when a leaf, an answer or a header is missing, for each stage |
| FinalitySafety.SafeguardExactly | node/service/src/relay_chain_selection.rs:561-591 | what the safeguard makes of every ballot when headers are readable |
| FinalitySafety.NothingApprovedExample | node/service/src/relay_chain_selection.rs:561-591 | with nothing approved and the leaf far enough above, the vote leaves the target |
| FinalitySafety.SafeguardStays | node/service/src/relay_chain_selection.rs:561-591 | the safeguard's subtraction and walk are safe and keep the vote between target and leaf |
| VotingPause.PauseStaysOnBranch | node/service/src/grandpa_support.rs:74-108 | the rule only moves a vote down its branch, not below the base |
| VotingPause.PauseHoldsExactly | node/service/src/grandpa_support.rs:81-103 | during the pause no vote goes above the pause block or the base, if and only if no header lookup on the way fails |
| VotingPause.PauseExample | node/service/src/grandpa_support.rs:81-103 | a vote above the pause block because its header fails to load |
| VotingPause.PausedVote | node/service/src/grandpa_support.rs:81-103 | with headers readable the paused vote is the branch's block at the pause height, or the base once past it |
| VotingPause.PauseEnds | node/service/src/grandpa_support.rs:81-103 | before the pause block and once the best block is past the pause the vote is left alone |
| ActiveLeavesMachine.StepKeepsAgreement | node/overseer/src/lib.rs:597-786 | every event keeps: signals replay to the supported active leaves, which are the leaves with a span; the known leaves are those announced last, as many as the cache holds, and each status was taken from them; nobody waits for a known leaf |
| ActiveLeavesMachine.RunKeepsAgreement | node/overseer/src/lib.rs:593-651 | so after every run |
| ActiveLeavesMachine.FreshnessInRun | node/overseer/src/lib.rs:743-751 | in every run a stale leaf was announced before, and fresh means first time if and only if fewer other leaves than the cache holds were announced since |
| ActiveLeavesMachine.AnsweredAtOnceExactly | node/overseer/src/lib.rs:768-786 | in every reachable state a listener is answered at once exactly if the leaf was announced and not evicted since, and otherwise waits itself |
| ActiveLeavesMachine.ListenersAreNotForgotten | node/overseer/src/lib.rs:719-766 | in every reachable state a listener goes on waiting, is answered, has given up, or its leaf is deactivated; the last drops it unanswered only if the leaf is unsupported or was evicted |
| ActiveLeavesMachine.DeactivationDropsListeners | node/overseer/src/lib.rs:754-758 | deactivating a leaf drops whoever waits for it |
| ActiveLeavesMachine.FreshTwiceExample | node/overseer/src/lib.rs:743-751 | a run in which one leaf is announced as fresh twice |
| LruCache.CachedExactly | node/overseer/src/lib.rs:500-502 | the cache holds exactly the keys used with fewer others used since than it has room for |
| LruCache.ForgottenAfterOthers | node/overseer/src/lib.rs:500-502 | a key followed by as many different others as there is room for is forgotten |
| Signals.FewLeavesAreFreshOnce | node/overseer/src/lib.rs:743-751 | with no more leaves announced than the cache holds, fresh always means first |
| ActiveLeavesMachine.ImportDelta | node/overseer/src/lib.rs:662-676 | the announced delta takes the supported leaves before the import to those after it |
| ActiveLeavesMachine.FinalizeKeepsHigherLeaves | node/overseer/src/lib.rs:686-698 | finalisation keeps exactly the higher leaves and the finalised block itself |
| ActiveLeavesMachine.FinalizeSends | node/overseer/src/lib.rs:700-713 | a finalisation is broadcast first, then one delta exactly if leaves were dropped |
| ActiveLeavesMachine.RunSendsFinality | node/overseer/src/lib.rs:593-713 | over every run the finalisations broadcast are those that happened, in order |
| ActiveLeavesMachine.ImportSends | node/overseer/src/lib.rs:662-683 | an import broadcasts one delta with the leaf, its number and status and the parent that was active, or nothing |
| ActiveLeavesMachine.StartLeafSends | node/overseer/src/lib.rs:597-605 | start-up notes every leaf and announces each supported one |
| ActiveLeavesMachine.ImportOfActiveIsIdle | node/overseer/src/lib.rs:653-660 | the import of an active leaf changes nothing |
| ActiveLeavesMachine.ImportAnswersAndAnnounces | node/overseer/src/lib.rs:719-752 | importing a supported leaf answers everybody waiting for it, each once, and announces it |
| Overseer.Overseer.StartUp | node/overseer/src/lib.rs:597-605 | the start-up loop is the run of its leaves |
| Overseer.Overseer.HandleBlockImported | node/overseer/src/lib.rs:653-684 | the handler changes the maps and broadcasts as the import on values does |
| Overseer.Overseer.HandleBlockFinalized | node/overseer/src/lib.rs:686-715 | the handler drops the orphaned leaves, each once in some order, and broadcasts accordingly |
| Overseer.Overseer.OnHeadActivated | node/overseer/src/lib.rs:719-752 | activation of a supported head on the maps, its span following from that of its active parent; nothing for an unsupported one |
| Overseer.Overseer.HandleExternalRequest | node/overseer/src/lib.rs:768-786 | a listener for a leaf in the cache is answered, any other waits |
| Overseer.Overseer.RunLoop | node/overseer/src/lib.rs:593-651 | a whole run of the handlers keeps the agreement |
| JobManager.JobsFollowSignals | node/subsystem-util/src/lib.rs:705-745 | a leaf has a job if and only if the signals say it is active and no message to it was lost since it was last activated |
| JobManager.JobsMatchOverseer | node/subsystem-util/src/lib.rs:709-726 | fed the signals of any overseer run, with messages in between, jobs run for exactly its supported active leaves to which no message was lost since their last activation |
| JobManager.JobSubsystem.Handle | node/subsystem-util/src/lib.rs:707-745 | one event on the map of running jobs: a new job has the leaf it was started for, the others keep theirs |
| JobManager.JobSubsystem.SendMsg | node/subsystem-util/src/lib.rs:622-629 | a job that does not take its message is dropped, others stay |
| JobManager.JobSubsystem.Loop | node/subsystem-util/src/lib.rs:705-762 | the loop runs until it is told to conclude, and then has no jobs, or until it cannot receive |
| NewBlocks.EndsExactly | node/subsystem-util/src/determine_new_blocks.rs:67-158 | the walk ends if and only if no block it comes to is answered with an empty list, and then within as many passes as the head is above the lowest block needed |
| NewBlocks.StuckForever | node/subsystem-util/src/determine_new_blocks.rs:85-158 | an empty answer leaves the walk where it is, for any number of passes |
| NewBlocks.MissingHeaderExample | node/subsystem-util/src/determine_new_blocks.rs:85-158 | four blocks and an honest chain API on which the walk never ends |
| NewBlocks.AnsweredAncestorsSuffice | node/subsystem-util/src/determine_new_blocks.rs:85-158 | it ends if no ancestor of the head is answered with an empty list |
| NewBlocks.AfterIsOnCourse | node/subsystem-util/src/determine_new_blocks.rs:67-158 | whatever fails, after any number of passes the walk has collected a beginning of the naive walk, or ended with one or with the database error it ran into |
| NewBlocks.AnsweredEndExactly | node/subsystem-util/src/determine_new_blocks.rs:34-160 | with every request answered the walk ends in a database error if and only if it runs into one: at the head, its parent, or the first block further down that is not new; otherwise with all of the naive walk |
| NewBlocks.FailedRequestEndsWalk | node/subsystem-util/src/determine_new_blocks.rs:79-139 | a failed request for ancestors or for a header ends the walk with what it has |
| NewBlocks.PassFacts | node/subsystem-util/src/determine_new_blocks.rs:67-158 | one pass ends well or goes lower, unless the answer was empty |
| NewBlocks.DetermineNewBlocks | node/subsystem-util/src/determine_new_blocks.rs:34-160 | when it is not stuck the batched walk ends and returns a prefix of the naive walk with the head in it, or the database error it ran into; if every request is answered, the error whenever there is one and else all of the naive walk; it requests no header below the lower bound |
| NewBlocks.AddBatch | node/subsystem-util/src/determine_new_blocks.rs:141-156 | the loop over a batch adds blocks up to the first that is not new or the lowest one needed, and ends in an error at a database error |
| NewBlocks.FetchHeaders | node/subsystem-util/src/determine_new_blocks.rs:107-139 | the headers that could be had, in order; failed ones are skipped |
| NewBlocks.FetchedFacts | node/subsystem-util/src/determine_new_blocks.rs:107-139 | as many headers as hashes means every header is the one asked for, and without failures there are as many |
| NewBlocks.NaiveWalkIsAncestry | node/subsystem-util/src/determine_new_blocks.rs:23-31 | the naive walk is the descending ancestry of the head, all new and above the bound |
| NewBlocks.NaiveWalkEnds | node/subsystem-util/src/determine_new_blocks.rs:23-31 | it stops only at the bound or above a block that is not new |
| SessionWindow.AdvanceKeeps | node/subsystem-util/src/rolling_session_window.rs:158-212 | an advance agrees with the runtime, ends in the new session, has at most the window size, and fetched exactly what the old window lacked |
| SessionWindow.UpdateKeeps | node/subsystem-util/src/rolling_session_window.rs:158-212 | whatever the runtime answers, agreement is kept and the latest session never goes back |
| SessionWindow.UpdateAdvances | node/subsystem-util/src/rolling_session_window.rs:174-207 | an update to a later session whose infos are all there makes it the latest, and each session fetched is found with the info given |
| SessionWindow.RunFollowsHeads | node/subsystem-util/src/rolling_session_window.rs:158-212 | if the runtime answers, after any heads the latest session is the highest of theirs |
| SessionWindow.RunKeeps | node/subsystem-util/src/rolling_session_window.rs:133-149 | after any sequence of updates for heads on which one runtime answers, lookup gives its info on the covered sessions and nothing elsewhere |
| SessionWindow.RunGives | node/subsystem-util/src/rolling_session_window.rs:158-212 | for any heads, on forks or not, each entry is what the runtime said of that session for one of them |
| SessionWindow.EmptyWindowExactly | node/subsystem-util/src/rolling_session_window.rs:147-149 | an empty window advances correctly if and only if it jumps past its earliest session |
| SessionWindow.EmptyWindowOffByOne | node/subsystem-util/src/rolling_session_window.rs:176-207 | otherwise every entry is off by one |
| SessionWindow.AnnouncedStartExactly | node/subsystem-util/src/rolling_session_window.rs:193-207 | the announced start is the actual one if and only if the old window did not start later |
| SessionWindow.AnnouncedStartExample | node/subsystem-util/src/rolling_session_window.rs:193-207 | a short window announces an earlier start than it has |
| SessionWindow.InitialIsFull | node/subsystem-util/src/rolling_session_window.rs:105-119 | a new window agrees, ends in the block's session and is as long as fits |
| SessionWindow.FullStaysFull | node/subsystem-util/src/rolling_session_window.rs:174-207 | such a window stays so through an advance and its announced start is true |
| SessionWindow.FullWindowsAnnounceTruly | node/subsystem-util/src/rolling_session_window.rs:158-212 | after any heads and any failures it is still full, so every update announces the start the window then has |
| SessionWindow.RollingSessionWindow.CacheSessionInfoForHead | node/subsystem-util/src/rolling_session_window.rs:158-212 | the in-place update does what the update on values does; it fails exactly when a needed answer fails, names the first session that is missing, and then changes nothing |
| SessionWindow.LoadAllSessions | node/subsystem-util/src/rolling_session_window.rs:248-274 | loads exactly the range, or stops at the first session that is not there |
| SessionWindow.NewWindow | node/subsystem-util/src/rolling_session_window.rs:100-120 | starts with the full window, or not at all exactly when an answer fails |
| Backing.CheckCandidateBacking | primitives/src/v1/mod.rs:612-653 | succeeds if and only if the bitfield has group length, there are no more votes than set bits, and each vote verifies at its set bit; the count is the number of votes |
| Backing.DistinctSigners | primitives/src/v1/mod.rs:602-611 | so that many different positions of the group signed |
| Backing.SetBitsFacts | primitives/src/v1/mod.rs:630-635 | the positions voted for ascend and are exactly the set bits |
| ShardInput.ShardInput.Read | modules/erasure-coding/src/lib.rs:332-367 | a read fails exactly when too few bytes are left, otherwise yields the next bytes of the concatenated shards, and the remaining length is what is left |
| ShardInput.ShardInput.ReadAll | modules/erasure-coding/src/lib.rs:332-367 | successive reads yield consecutive slices of the concatenated shards, and the first to fail is the first whose length, with those before it, is more than there was |
| ShardInput.SlicesAreConsecutive | modules/erasure-coding/src/lib.rs:320-368 | those slices put together are the beginning of the concatenated shards |
| GroupRotation.CoreForGroupInverts | primitives/src/v1/mod.rs:721-763 | the core is found again from its group, for every core count, frequency and block |
| GroupRotation.GroupForCoreInverts | primitives/src/v1/mod.rs:721-763 | and the group from its core |
| GroupRotation.NotRotatedYet | primitives/src/v1/mod.rs:721-763 | without rotations, and until the end of the first period, every core has the group of its number |
| GroupRotation.NoCores | primitives/src/v1/mod.rs:721-763 | without cores the answer is zero, if there are rotations |
| GroupRotation.RotationsBracketNow | primitives/src/v1/mod.rs:775-790 | once the session has started the last rotation is not after now, the next one is, and they are one period apart |
| GroupRotation.BumpShiftsByOneExactly | primitives/src/v1/mod.rs:766-772 | a bump moves every core on by one group if and only if the session has started or there is one core only |
| GroupRotation.BumpExample | primitives/src/v1/mod.rs:766-772 | a bump before the session start that moves nothing |
| Quorum.SupermajoritiesIntersect | primitives/src/v1/mod.rs:1352-1363 | two supermajorities share more validators than may be faulty |
| Quorum.SharedHonestMember | primitives/src/v1/mod.rs:1352-1363 | so they share an honest one |
| Quorum.SupermajorityRecovers | modules/erasure-coding/src/lib.rs:88-99 | a supermajority without its faulty members still reaches the recovery threshold, which the faulty alone cannot |
| Quorum.ThresholdsExactly | primitives/src/v1/mod.rs:1352-1363 | the fault bound is the one number `f` with `3f + 1 <= n <= 3f + 3`, and a supermajority is all others |
| Quorum.RecoveryThresholdExactly | modules/erasure-coding/src/lib.rs:88-99 | the recovery threshold is one more than the fault bound, and the two errors for too many and too few validators |

## Left out

- Command line, chain specification, service wiring, RPC, metrics, tracing and test tooling: plumbing without state invariants.
- Reed-Solomon coding, the Merkle trie, codecs, signatures and hashes: foreign libraries; a signature check is a predicate here.
- Asynchronous scheduling: every handler is one atomic step; a failed broadcast ends the overseer and is not modelled.
- Overflow of block numbers, lease periods and lease counts on addition: these are unbounded here; saturating operations of the pallet are modelled as they are.
- Debug assertions on block numbers in `block_imported`: a caller's promise that the modelled properties do not need.
- Permanent leases beyond their count and cap, the downgrade of a removed para, weights and events: they touch nothing the properties speak of.
- The attested votes of a candidate as a vector: modelled as a map from voter to attestation, because their order is that of a hash map.
- The sort of the pending slots is an insertion sort on a sequence: the source calls a library sort, of which only the order of its result matters.
