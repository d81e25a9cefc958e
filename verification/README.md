# Verification of the operator scripts

A Dafny model of the protocols and planners behind the repository's operator scripts, and proofs
about them. Each script is modelled in its own modules; databases, files, the network and the
clock are explicit state or arbitrary inputs.

- **Script reachability** (`ScriptReachability`): which package scripts `bun run` reaches from
  `check`, and which typecheck programs are wired to one of them.
- **Canonical JSON** (`CanonicalJson`): the text form that every digest of the backfills is
  computed from.
- **Public-profile backfill** (`ProfileTypes`, `RedirectCycles`, `ProfileTarget`,
  `ProfileManifest`, `ProfilePlanner`, `ProfileSafety`, `ProfileTransaction`): a manifest of legacy
  handles and a snapshot of the new table become ordered inserts; a plan without errors keeps the
  table valid after every single insert, and planning again afterwards plans nothing.
- **Reusable test-schema owner** (`SchemaOwner`, `SchemaOwnerHistory`, `SchemaOwnerObject`): the
  promise chain, pending counter and single disposal around one schema, as interleaved steps in
  which every driver call may fail.
- **Karaoke maintenance journal** (`KaraokeOrder`, `KaraokeJournal`, `KaraokeAppend`,
  `KaraokeWriter`, `KaraokeExample`): a signed, hash-linked history in a directory of files with one replaceable
  head, read, and appended to one durable step at a time.
- **Post-slug backfill** (`SlugCursor`, `SlugPages`, `SlugChain`, `SlugRun`, `SlugResume`): a cursor
  codec, keyset pages, and an authorized run that is resumed from checkpoints that may be lost.
- **Golden run** (`GoldenAdmission`, `GoldenSettlement`, `GoldenJournal`, `GoldenRun`): admission
  and settlement of a drawing, the run's append-only journal, and the runner that must not repeat an
  activity after a crash.
- **HTTP release** (`HttpRelease`): apply, verify and rollback processes over one store of exclusive
  evidence records.

`Outcomes` holds the option and result types and three facts about walks over sequences.

## How the models are built

SHA-256 is an injective function, a signature an ideal seal, and a digest of a structured value is
either an uninterpreted function of that value or the value itself. `localeCompare` is any strict
total order. Times are integers, and for the fixed-width UTC texts that the post-slug backfill
compares it is proved that text order is the order of the instants they name, days counted by the
calendar (`SlugCursor.TimestampsCompareAsInstants`). A
database transaction is one atomic step that may abort. Helpers outside the modelled files (slug
candidates, the alias allocator, the driver, the study and karaoke participants, the providers) are
functions or nondeterministic results.

Code that changes things step by step is a class or a method with loops. Where whole runs matter, the
method is proved equal to a function of its inputs or of the old state, and the theorems are lemmas
about that function over every sequence of steps. The golden runner, the journal writer and the
release processes are verified directly as methods: failures, crashes and the steps of other
processes are nondeterministic, and what holds at every point is an invariant of the object.

Three results differ from what the names in the code suggest:

- The two "mapping incomplete" checks of the profile manifest count, and counting does not exclude a
  legacy id that is mapped twice while another is not mapped at all. `ProfileManifest.CompleteExactly`
  says exactly when they do establish completeness, and `ProfileManifest.AcceptedButIncomplete` is a
  manifest that passes them and leaves a row unmapped. The planner refuses such a row itself, so the
  safety of plans does not depend on it.
- The duplicate check of the golden admission joins account and persona with a colon, so with a colon
  in an account it refuses shares that the final assertion admits (`GoldenAdmission.DelimiterCollision`);
  without one the two agree (`GoldenAdmission.CompleteWithoutDelimiter`).
- A karaoke append replaces the head without checking that a pass receipt is among its evidence or that
  the journal still fits the reader's byte budget. `KaraokeAppend.ReadsAsExtended` says that the new
  head is readable exactly when both hold (and the sealed head is one a reader reads, which in the code
  it always is), told from the directory, the artifacts and the entry before the append. Otherwise the
  journal has ended: nobody reads it again and no later append is planned
  (`KaraokeWriter.UnreadableHeadEndsTheJournal`). `KaraokeExample` is a journal with an append of either
  kind, both with nothing in their way.

## Model

| member | source | states |
|---|---|---|
| ScriptReachability.SplitAndJoins | scripts/check-scripts-typecheck-coverage.ts:61-64 | joining the segments of a command with `&&` gives the command back |
| ScriptReachability.SplitAndSeparates | scripts/check-scripts-typecheck-coverage.ts:61-64 | no segment holds the separator |
| ScriptReachability.WordsOfLayout | scripts/check-scripts-typecheck-coverage.ts:71-78 | whatever blanks surround and separate words, splitting recovers exactly the words |
| ScriptReachability.RunTargetExactly | scripts/check-scripts-typecheck-coverage.ts:89-95 | a segment is an edge to a script exactly when it is the words `bun run SCRIPT` with some blanks around |
| ScriptReachability.ReachableScripts | scripts/check-scripts-typecheck-coverage.ts:100-120 | the worklist ends, with exactly the defined scripts that a chain of edges reaches from the roots |
| ScriptReachability.IsWired | scripts/check-scripts-typecheck-coverage.ts:129-134 | decides whether a listed reachable script typechecks the program |
| ScriptReachability.UnwiredPrograms | scripts/check-scripts-typecheck-coverage.ts:122-138 | the unwired programs, in order |
| ScriptReachability.OmittedExactlyWhenWired | scripts/check-scripts-typecheck-coverage.ts:122-138 | a program is left out exactly when some listed script that `check` reaches has a valid typecheck segment for it |
| CanonicalJson.StringRoundTrip | scripts/public-profile-backfill-types.ts:207 | a quoted string reads back as itself, for every sequence of UTF-16 units, lone surrogates included |
| CanonicalJson.SortedKeysAgree | scripts/public-profile-backfill-types.ts:215-217 | two sorted objects with the same keys list them in the same order |
| CanonicalJson.SameByEntries | scripts/public-profile-backfill-types.ts:214-218 | objects are the same up to key order and undefined fields exactly when their sorted entries agree one by one |
| CanonicalJson.SameText | scripts/public-profile-backfill-types.ts:205-221 | the same values have the same text, at any depth |
| CanonicalJson.Cancel | scripts/public-profile-backfill-types.ts:205-221 | no value's text is a proper beginning of another's: equal texts with whatever follows have equal values first |
| CanonicalJson.CanonicalExactly | scripts/public-profile-backfill-types.ts:205-221 | two values have the same text exactly when they are the same up to key order and undefined fields |
| ProfileTypes.ValidLabelIsId | scripts/public-profile-backfill-target.ts:81-85 | a valid label and its display form pass the id check of the snapshot parser |
| RedirectCycles.LassoStays | scripts/public-profile-backfill-planner.ts:51-62 | once a walk returns to a row of its path it never leaves the part from there on |
| RedirectCycles.DistinctFit | scripts/public-profile-backfill-planner.ts:51-62 | a path of distinct ids is no longer than the number of ids, so every walk ends |
| RedirectCycles.CycleFrom | scripts/public-profile-backfill-planner.ts:48-62 | what one walk adds lies on a cycle, and the row it starts from is added when it does |
| RedirectCycles.CycleMemberIds | scripts/public-profile-backfill-planner.ts:44-65 | exactly the ids of redirect rows on a cycle, self-loops included and tails excluded |
| ProfileTarget.ValidateTargetSnapshot | scripts/public-profile-backfill-target.ts:128-181 | the issues of a snapshot, in the order the validator reports them |
| ProfileTarget.NoIssuesExactly | scripts/public-profile-backfill-target.ts:128-181 | no issues exactly for tables with valid fields, unique ids and labels, known owners, one active handle an owner, and redirects to another active handle of the same owner |
| ProfileTarget.ValidInAnyOrder | scripts/public-profile-backfill-target.ts:136-179 | reordering a valid table keeps it valid |
| ProfileTarget.PairwiseByIndex | scripts/public-profile-backfill-target.ts:145-162 | the validator's running sets check every pair of handles |
| ProfileManifest.IsInOrder | scripts/public-profile-backfill-manifest.ts:196-206 | decides whether a list is already in the order of its keys |
| ProfileManifest.CheckOwners | scripts/public-profile-backfill-manifest.ts:207-222 | passes exactly when owner mappings are of source owners, active ones map injectively, and there are as many as source owners |
| ProfileManifest.CheckHandles | scripts/public-profile-backfill-manifest.ts:223-236 | passes exactly when handle mappings are of source handles, to different ids, and as many as source handles |
| ProfileManifest.ParseManifest | scripts/public-profile-backfill-manifest.ts:113-256 | accepts exactly the manifests that satisfy the conjunction of the checks, and returns them unchanged |
| ProfileManifest.HandleMapIsInjective | scripts/public-profile-backfill-manifest.ts:223-236 | different legacy handles of a parsed manifest map to different new ones |
| ProfileManifest.CompleteExactly | scripts/public-profile-backfill-manifest.ts:221-236 | the counting checks cover every source id exactly when no legacy id is mapped twice |
| ProfileManifest.AcceptedButIncomplete | scripts/public-profile-backfill-manifest.ts:113-256 | a manifest that the parser accepts and that leaves a row unmapped |
| ProfilePlanner.ScanSource | scripts/public-profile-backfill-planner.ts:257-270 | the duplicate ids and labels, and the active rows grouped by mapped owner in order of appearance |
| ProfilePlanner.CollectCollisions | scripts/public-profile-backfill-planner.ts:271-277 | exactly the rows of owners with two or more active rows |
| ProfilePlanner.DecideRows | scripts/public-profile-backfill-planner.ts:289-337 | operations, issues and skips are those of each row, in order |
| ProfilePlanner.PlanProfileBackfill | scripts/public-profile-backfill-planner.ts:236-348 | the plan is the sorted operations with all issues and skips, its cycle set exactly the rows on redirect cycles |
| ProfileSafety.NoRowIsLost | scripts/public-profile-backfill-planner.ts:289-337 | in any plan, errors included, the rows of the operations, the skipped rows and the rows stopped by their own errors or a collision are together the manifest's rows, with repetitions; an operation or a skip for exactly the rows decided so |
| ProfileSafety.NoCollisions | scripts/public-profile-backfill-planner.ts:265-277 | no collision exactly when active rows have different mapped owners |
| ProfileSafety.NoErrorsExactly | scripts/public-profile-backfill-planner.ts:242-302 | a plan has no issues exactly when the target is valid, ids, labels and active owners are unique and every row is without errors |
| ProfileSafety.RedirectLeadsToRow | scripts/public-profile-backfill-planner.ts:99-119 | in a clean plan a redirect row points to another active row of the manifest with the same mapped owner, and maps to its new id |
| ProfileSafety.SortedOperations | scripts/public-profile-backfill-planner.ts:338-345 | sorting keeps the operations and puts active inserts before retired ones and redirects last |
| ProfileSafety.IntoCycleIsRefused | scripts/public-profile-backfill-planner.ts:108-119 | a row on a cycle is refused as such, and every tail into one as not pointing at an active handle |
| ProfileSafety.PrefixStaysValid | scripts/public-profile-backfill-planner.ts:289-347 | with a plan without errors the target passes the independent validator after every number of inserts |
| ProfileSafety.ReplanIsNoop | scripts/public-profile-backfill-planner.ts:289-347 | planning again on the fully applied table, in any order, gives no errors, no operations and one skip a row |
| ProfileTransaction.SortHandlesPermutes | scripts/public-profile-backfill-transaction.ts:26-28 | reading the table ordered by id loses and duplicates nothing |
| ProfileTransaction.ValidIsGoodSnapshot | scripts/public-profile-backfill-target.ts:41-99 | a valid table passes the snapshot parser |
| ProfileTransaction.HandleTable.WriteBackfillPlan | scripts/public-profile-backfill-transaction.ts:36-51 | inserts the operations in order, the table valid before each and at the end |
| ProfileTransaction.HandleTable.Run | scripts/public-profile-backfill-transaction.ts:82-89 | applies the whole plan when it has no errors and otherwise changes nothing |
| ProfileTransaction.HandleTable.Apply | scripts/public-profile-backfill-transaction.ts:53-67 | applies exactly the given plan when replanning under the lock gives it again without errors, and otherwise changes nothing |
| ProfileTransaction.RunAgainIsNoop | scripts/public-profile-backfill-transaction.ts:82-89 | a run on the table a run left reads a valid snapshot and plans nothing |
| SchemaOwner.OneBodyAtATime | scripts/postgres-test-baseline.ts:294-314 | at most one run is between its wait and its end: the one whose turn it is |
| SchemaOwner.ResumesInOrder | scripts/postgres-test-baseline.ts:289-294 | a run's wait ends only when all runs admitted before it have left |
| SchemaOwner.PendingCountsUnfinished | scripts/postgres-test-baseline.ts:288-313 | the counter is the number of admitted runs that have not left |
| SchemaOwner.TurnsKeep | scripts/postgres-test-baseline.ts:278-323 | every step keeps the order of turns; a closed owner has nothing pending |
| SchemaOwner.SomeMoveIsEnabled | scripts/postgres-test-baseline.ts:289-314 | while a run is pending the run whose turn it is can move, whatever the driver replies |
| SchemaOwner.DistanceShrinks | scripts/postgres-test-baseline.ts:289-314 | every move brings each waiting run closer to its turn, and nothing else takes it further away |
| SchemaOwner.EveryRunGetsItsTurn | scripts/postgres-test-baseline.ts:278-315 | no interleaving makes an admitted run wait past a number of moves fixed when it is admitted |
| SchemaOwnerHistory.UseIsPrepared | scripts/postgres-test-baseline.ts:188-213 | a body starts right after initialisation, or after a reset whose fingerprint is the recorded one |
| SchemaOwnerHistory.EveryInterleavingIsSafe | scripts/postgres-test-baseline.ts:188-324 | in every interleaving driver calls never overlap, CREATE comes once, USE only on a prepared schema and never after a failed preparation, DROP only after CREATE returned, and the cleanup once and last |
| SchemaOwnerHistory.OnceOnly | scripts/postgres-test-baseline.ts:195-198 | no history holds two CREATEs, or two starts of the cleanup |
| SchemaOwnerHistory.NoOverlap | scripts/postgres-test-baseline.ts:289-323 | once a later run or the cleanup called the driver no earlier one does |
| SchemaOwnerHistory.NoUseAfterFailure | scripts/postgres-test-baseline.ts:297-304 | no body starts after any run's preparation failed |
| SchemaOwnerHistory.ResultsAreEarned | scripts/postgres-test-baseline.ts:215-255 | a run that succeeds had its body return, and a disposal that succeeds was told that the attempted schema is absent |
| SchemaOwnerObject.SchemaState.Reply | scripts/postgres-test-baseline.ts:188-213 | the schema's fields after each settled call of a run |
| SchemaOwnerObject.SchemaState.CleanupReply | scripts/postgres-test-baseline.ts:215-255 | the schema's fields after each settled call of the cleanup |
| SchemaOwnerObject.ReusableSchemaOwner.Run | scripts/postgres-test-baseline.ts:278-293 | the synchronous prefix of `run`: a ticket, or a rejection that changes nothing |
| SchemaOwnerObject.ReusableSchemaOwner.BeginBody | scripts/postgres-test-baseline.ts:294-296 | the step after the wait |
| SchemaOwnerObject.ReusableSchemaOwner.SettleRun | scripts/postgres-test-baseline.ts:296-310 | the step after a driver call of a run settles |
| SchemaOwnerObject.ReusableSchemaOwner.EndBody | scripts/postgres-test-baseline.ts:311-314 | the counter drops and the next run's wait is over |
| SchemaOwnerObject.ReusableSchemaOwner.Dispose | scripts/postgres-test-baseline.ts:316-322 | throws while runs are pending, closes the owner, and starts at most one cleanup |
| SchemaOwnerObject.ReusableSchemaOwner.SettleDisposal | scripts/postgres-test-baseline.ts:215-255 | the step after a driver call of the cleanup settles |
| KaraokeOrder.ValidateJournalOrder | scripts/karaoke-maintenance-journal.ts:80-120 | the loop is the fold of the order machine |
| KaraokeOrder.OrderExactly | scripts/karaoke-maintenance-journal.ts:80-120 | a journal is accepted exactly when each entry is admissible after the ones before it, told by what happened before; the state is the furthest milestone and the history the receipts |
| KaraokeOrder.RankNeverDrops | scripts/karaoke-maintenance-journal.ts:97-110 | the state never goes back |
| KaraokeOrder.ReleaseIsEarned | scripts/karaoke-maintenance-journal.ts:103-109 | a release comes after a retirement after a verified reset |
| KaraokeOrder.NothingFollowsABreak | scripts/karaoke-maintenance-journal.ts:90-95 | nothing follows a broken fence |
| KaraokeOrder.ReceiptsAreDistinct | scripts/karaoke-maintenance-journal.ts:111-117 | no object's passes share a receipt, and every receipt is in the history |
| KaraokeOrder.TimesNeverGoBack | scripts/karaoke-maintenance-journal.ts:88-96 | observation times never decrease |
| KaraokeJournal.ReadArtifact | scripts/karaoke-maintenance-journal.ts:135-144 | an artifact is read exactly when it is there, matches its id and fits the budget, each counted once |
| KaraokeJournal.ReadEvidence | scripts/karaoke-maintenance-journal.ts:158-161 | all evidence of an entry is read exactly when all of it is there within the budget |
| KaraokeJournal.WalkBack | scripts/karaoke-maintenance-journal.ts:145-168 | the walk finds exactly the chain that ends in the head and fits the budget |
| KaraokeJournal.ReadKaraokeMaintenanceJournal | scripts/karaoke-maintenance-journal.ts:123-194 | reads exactly what the specification of the reader gives, refusals included |
| KaraokeJournal.ReadsAgree | scripts/karaoke-maintenance-journal.ts:123-194 | two reads, of whatever stores, that contain the same entry id agree on every entry up to it |
| KaraokeJournal.RetainedHistoryIsExtended | scripts/karaoke-maintenance-journal.ts:169-177 | a read that passes the check against a retained head extends the whole history retained with it |
| KaraokeAppend.ReadsAsBefore | scripts/karaoke-maintenance-journal.ts:221-237 | a directory that only gained files reads as it did |
| KaraokeAppend.ReadsAsExtended | scripts/karaoke-maintenance-journal.ts:224-249 | with the head replaced it reads as the old entries and the new one, exactly when the receipt is evidence and the bytes, told from the store before the append, fit the budget; otherwise as nothing |
| KaraokeWriter.PrivateDirectory.WriteNew | scripts/karaoke-private-writer.ts:23-35 | exclusive creation; a failure leaves arbitrary content under the new name only |
| KaraokeWriter.PrivateDirectory.PutArtifact | scripts/karaoke-private-writer.ts:42-55 | the content ends up under its digest, or nothing readable changes |
| KaraokeWriter.PrivateDirectory.ReplaceManifest | scripts/karaoke-private-writer.ts:57-72 | every state is one before the replacement or one after it |
| KaraokeWriter.PrivateDirectory.Append | scripts/karaoke-maintenance-journal.ts:197-257 | refused under another writer's lock; otherwise every state on the way only added files or has the head of the planned entry, and without faults or hindrance it completes and returns what is read back |
| KaraokeWriter.OldOrExtended | scripts/karaoke-maintenance-journal.ts:197-257 | whatever state an append is interrupted in, a reader sees the old journal or, with the head replaced, the old journal with one entry more, its state one step of the order machine, and nothing exactly when the new head cannot be read |
| KaraokeWriter.CompletedAppendExtends | scripts/karaoke-maintenance-journal.ts:238-249 | what a completed append returns is that extension, or nothing under the same condition |
| KaraokeWriter.UnreadableByAnyone | scripts/karaoke-maintenance-journal.ts:123-194 | a committed head that cannot be read cannot be read under any trust at any time |
| KaraokeWriter.UnreadableHeadEndsTheJournal | scripts/karaoke-maintenance-journal.ts:208-212 | and then no later append is ever planned |
| KaraokeWriter.InterruptedFirstAppend | scripts/karaoke-maintenance-journal.ts:209-212 | without a head nothing is read, and an append starts only in an otherwise empty directory with a first event |
| KaraokeWriter.CompletedFirstAppend | scripts/karaoke-maintenance-journal.ts:209-249 | a completed first append reads back as the journal of its one entry, exactly when its head can be read |
| KaraokeExample.BothArePlanned | scripts/karaoke-maintenance-journal.ts:197-257 | keys, a journal and two requests that meet all hypotheses of the append theorems together: one append's head can be read, the other's cannot |
| KaraokeExample.PassIsReadBack | scripts/karaoke-maintenance-journal.ts:238-249 | the pass with its receipt among its evidence reads back as the journal with that pass |
| KaraokeExample.PassWithoutReceipt | scripts/karaoke-maintenance-journal.ts:162-163 | the pass without it is committed with nothing in its way, and the journal is read by nobody and continued by no request |
| SlugCursor.CompareTextBytewise | scripts/public-post-slug-backfill-planner.ts:154-165 | the loop computes the lexicographic order |
| SlugCursor.BeforeIsTotal | scripts/public-post-slug-backfill-planner.ts:167-172 | the order of cursors is irreflexive, asymmetric and total |
| SlugCursor.BeforeIsTransitive | scripts/public-post-slug-backfill-planner.ts:167-172 | and transitive |
| SlugCursor.TimestampsCompareAsInstants | scripts/public-post-slug-backfill-planner.ts:167-172 | valid timestamps compare as texts as the microseconds since the first day of the calendar compare |
| SlugCursor.DecodeUndoesEncode | scripts/public-post-slug-backfill-planner.ts:77-95 | base64url decoding undoes encoding for every byte sequence |
| SlugCursor.CursorTextIsShort | scripts/public-post-slug-backfill-planner.ts:100-105 | a valid cursor's text has at most 753 characters, so the length check never fails |
| SlugCursor.DecodesExactly | scripts/public-post-slug-backfill-planner.ts:100-142 | decoding accepts a text as a cursor exactly when it is that cursor's encoding, whatever the JSON parser makes of other texts |
| SlugPages.ActionsAreSound | scripts/public-post-slug-backfill-planner.ts:228-322 | a slug is planned exactly for descriptive and opaque posts, a descriptive one only from eligible text; blocked means an issue; no status is unsupported |
| SlugPages.CountsAreBalanced | scripts/public-post-slug-backfill-planner.ts:348-355 | a page's input count is the sum of its four policy counts |
| SlugPages.PlanPostSlugBackfillPage | scripts/public-post-slug-backfill-planner.ts:377-427 | plans exactly the pages with valid, strictly increasing rows between cursor and bound |
| SlugChain.NextPageStartsThere | scripts/public-post-slug-backfill-transaction.ts:165-173 | asking again after the last post of a full page gives exactly the rest |
| SlugChain.ChainFollowsNextCursors | scripts/public-post-slug-backfill-planner.ts:406-417 | each page is the one its predecessor's next cursor asks for, cursors strictly increase, and only the last page has none |
| SlugChain.ChainDecidesAll | scripts/public-post-slug-backfill-planner.ts:377-427 | chained pages decide every post after the start and up to the bound once and in order |
| SlugChain.ChainLength | scripts/public-post-slug-backfill-planner.ts:406-417 | the chain has as many pages as the posts take |
| SlugChain.PageCountIsCeiling | scripts/public-post-slug-backfill-planner.ts:406-407 | that number is the quotient rounded up, one at least |
| SlugChain.QueriedPageIsPlanned | scripts/public-post-slug-backfill-transaction.ts:175-201 | what the query returns is never refused by the planner |
| SlugRun.CompletesAsAuthorized | scripts/public-post-slug-backfill-transaction.ts:397-421 | a run completes exactly on the last authorized page, with the dry run's result digest over the authorized page digests |
| SlugRun.CompletedIsExhausted | scripts/public-post-slug-backfill-transaction.ts:371-374 | a completed checkpoint is refused by every attempt |
| SlugRun.EmittedIsAccepted | scripts/public-post-slug-backfill-transaction.ts:255-335 | an emitted checkpoint is accepted exactly when the clock is not behind the start of the run |
| SlugRun.Database.Allocate | scripts/public-post-slug-backfill-transaction.ts:422-431 | the loop over the decisions, with its failures |
| SlugRun.Database.RunAuthorizedPage | scripts/public-post-slug-backfill-transaction.ts:345-451 | one attempt: the table changes as a whole when it commits and not at all otherwise |
| SlugResume.ReplayIsNoop | scripts/public-post-slug-backfill-transaction.ts:422-424 | a page all of whose posts have their aliases changes nothing and allocates nothing |
| SlugResume.EveryRunIsConsistent | scripts/public-post-slug-backfill-transaction.ts:345-451 | after any mix of aborted, committed and lost attempts from any issued checkpoint the table is that of an uninterrupted run after as many pages, and each post was allocated at most once |
| SlugResume.CompletedRunIsWhole | scripts/public-post-slug-backfill-transaction.ts:345-451 | once any completed checkpoint was issued the table is that of the whole uninterrupted run |
| SlugResume.UninterruptedRunCompletes | scripts/public-post-slug-backfill-transaction.ts:345-451 | under a dry run's authorization the uninterrupted run completes with its last page |
| GoldenAdmission.AssertionNeverThrows | scripts/megapot-golden-reconciliation.ts:100-165 | when the progress check reaches the assertion, the assertion holds |
| GoldenAdmission.CompleteExactly | scripts/megapot-golden-reconciliation.ts:124-165 | progress is complete exactly when the assertion holds and no two shares join to the same text |
| GoldenAdmission.CompleteWithoutDelimiter | scripts/megapot-golden-reconciliation.ts:124-165 | for accounts without the delimiter, exactly when the assertion holds |
| GoldenAdmission.DelimiterCollision | scripts/megapot-golden-reconciliation.ts:141-142 | with the delimiter the two differ: a plan whose participants the input parser accepts in either mode, and an observation |
| GoldenSettlement.SharesSplitEvenly | scripts/megapot-golden-reconciliation.ts:249 | the shares total the winnings, differ by at most one and never grow with the ordinal |
| GoldenSettlement.PayOut | scripts/megapot-golden-reconciliation.ts:239-277 | the loop over the beneficiaries, with its throws and early returns |
| GoldenSettlement.EvaluateGoldenSettlement | scripts/megapot-golden-reconciliation.ts:167-278 | the whole evaluation, in the order of its checks |
| GoldenSettlement.ConservationNeverFails | scripts/megapot-golden-reconciliation.ts:268-270 | the final conservation throw is unreachable |
| GoldenSettlement.WinIsConserved | scripts/megapot-golden-reconciliation.ts:186-277 | on a win credits, beneficiaries and participants are in bijection, the amounts total the winnings, which are paid or held, and what was funded was spent or refunded |
| GoldenSettlement.WaitForSettlement | scripts/megapot-golden-reconciliation.ts:281-310 | a terminal result is that of an observation of the right scope before the deadline |
| GoldenJournal.SaveLeavesLastOrNext | scripts/megapot-golden-journal.ts:62-82 | however much of a save became durable, the last line reads as before, as the state being saved, or as nothing |
| GoldenJournal.AfterUnended | scripts/megapot-golden-journal.ts:62-66 | a record appended to a line that was not ended is refused, not misread |
| GoldenJournal.JournalFile.Save | scripts/megapot-golden-journal.ts:78-82 | an acknowledged save is the last state; a cut one leaves it in flight |
| GoldenJournal.JournalFile.Begin | scripts/megapot-golden-journal.ts:42-84 | a process goes on from the last acknowledged state or the one in flight, of the same plan, or does not start |
| GoldenRun.Rehearsal.SubmitAnswer | scripts/megapot-golden-multi-activities.ts:79-104 | an answer is counted durably before it is sent |
| GoldenRun.Rehearsal.CreateAttempt | scripts/megapot-golden-multi-activities.ts:142-166 | an attempt is counted durably before it is requested |
| GoldenRun.Rehearsal.RunActivity | scripts/megapot-base-sepolia-golden-multi.ts:192-204 | an activity is durably pending before it is started and durably completed after |
| GoldenRun.Rehearsal.RunActivities | scripts/megapot-base-sepolia-golden-multi.ts:188-206 | when the loops end every activity the runner performs is completed |
| GoldenRun.Rehearsal.ObserveApp | scripts/megapot-base-sepolia-golden-multi.ts:207-254 | in the observing mode nothing is started, and a complete admission completes every activity |
| GoldenRun.Rehearsal.Execute | scripts/megapot-base-sepolia-golden-multi.ts:130-255 | with an activity pending nothing is started or sent |
| GoldenRun.Rehearsal.Reconcile | scripts/megapot-base-sepolia-golden-multi.ts:256-285 | terminal only with nothing pending and every planned activity completed |
| GoldenRun.Rehearsal.RunMultiGolden | scripts/megapot-base-sepolia-golden-multi.ts:129-286 | one run keeps the accounts of all that was done; a reconciling run starts and sends nothing |
| GoldenRun.Rehearsal.Rehearse | scripts/megapot-base-sepolia-golden-multi.ts:129-286 | over any sequence of runs and crashes each activity is started at most once, only by whom it is to be performed, and requests stay within the caps |
| GoldenRun.NamesTellActivitiesApart | scripts/megapot-base-sepolia-golden-multi.ts:192 | activity names of the schema's participant keys are different for different activities |
| HttpRelease.OneCommandOfEachKind | scripts/public-post-http-release-core.ts:333-393 | at most one upload and one rollback are ever sent, each after its durable attempt and by the process that recorded it |
| HttpRelease.Desk.Record | scripts/public-post-http-release-core.ts:117 | creation is exclusive and keeps every record |
| HttpRelease.CommitUpload | scripts/public-post-http-release-core.ts:368-393 | the upload is sent only after its attempt is recorded, with the checked snapshot in it |
| HttpRelease.Apply | scripts/public-post-http-release-core.ts:364-418 | success means the acknowledged version was last seen serving the candidate under the configuration of the reviewed baseline before it, with attempt, acknowledgement and read-back recorded |
| HttpRelease.Verify | scripts/public-post-http-release-core.ts:258-300 | read-only; says baseline or candidate only for what it saw and a recorded attempt |
| HttpRelease.RollBack | scripts/public-post-http-release-core.ts:301-363 | success means the baseline was last seen serving under the configuration of the recorded attempt, rolled back from the version the review names with that attempt; it sends nothing but its one rollback |

## Left out

- SQL, Postgres isolation, HTTP, providers, process start-up, arguments and report formatting: plumbing over services that are not part of this model.
- Cryptography, file modes, inode and owner checks: digests are injective and seals ideal.
- The fields of legacy rows that are never persisted, and the issue fingerprints and counts of the backfill report: they only restate rows and issues.
- JSON numbers are identified by their text; `-0`, which prints as `0`, is not a value of its own.
- Property lookups of package scripts that fall through to `Object.prototype`: a script name such as `toString` counts as defined in the source and not in the model.
- `findUncovered`, package discovery and the dependency audits: single-pass filters.
- ProfileTransaction.HandleTable.Run: reads users and handles of one table; the ordering of users in the snapshot is not modelled, because nothing depends on it.
- ProfileManifest.ParseManifest: checks of keys, versions and digests of the raw record are left out, because the manifest is modelled as the record they guard; equal ids are compared by the order alone.
- The driver's own SQL, the global set of reusable schema names, and a connection string that fails to parse in `newSchemaState` (a rejection that changes nothing).
- KaraokeJournal.ReadKaraokeMaintenanceJournal: the refusals are not told apart, because no caller depends on which one it is.
- The inode check before a journal lock is released: nobody but the holder is assumed to remove it.
- SlugCursor.CompareTextBytewise: compares ASCII texts, where UTF-8 bytes and characters coincide, because only validated ids and timestamps reach it.
- Collision classes and issue counts of a page report; slug candidates and their text normalisation, which are parameters.
- GoldenRun.Rehearsal.RunMultiGolden: preflight, identity, audio and pool checks are arbitrary outcomes that may stop a run, because they change nothing; the settlement itself is in GoldenSettlement.
- The schedule, funding, pool and authorization checks of the rehearsal input: only its checks on the participants are part of the model.
- HttpRelease.Verify: the name of the read-back note carries the clock and is a parameter.
- The snapshot mode of the release and the normalisation of its bindings: read-only and without state.
