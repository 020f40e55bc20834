# Verified model of the publication and ingestion control plane

The repository is a personal knowledge base. Notes of a Vault are ingested as sources, their claims are
curated into Markdown versions, the versions are chunked and indexed by generation, and answers cite the
chunks. This project models the parts that promise something about the whole system, and proves it.

| files | what they model |
|---|---|
| `Schema`, `Transitions`, `RepositorySpec`, `Repository` | the tables, the declared transitions, and the repository calls: a class with a map per table and a revision per row, proved equal to functions on the whole database |
| `Switching`, `Activation`, `ActivationLaws`, `Runs`, `CallLaws`, `Fallback` | promotion, rollback and activation; when each call is accepted and which rows it writes; what every call keeps, over whole runs; how long a promotion can be rolled back |
| `Publishing`, `Stranding` | every free path can be published; runs from the empty database to the states that the findings are about |
| `WorldState`, `WorldSteps`, `Lifecycle`, `Recovery`, `Interleaving` | the same database with Vault, trash, vector index and answer store; delete, restore, rebuild, promote, rollback and abort with a crash at any step; what a re-run achieves, at once or after other commands and another configuration |
| `Text`, `Curation`, `Sections`, `CurationLaws`, `RoundTrip` | the Markdown printer and the line parser |
| `Batches`, `BatchLaws`, `Chunking`, `ChunkLaws` | the greedy batching with overlap, and the chunks of an artifact |
| `Ordering`, `PlannerSpec`, `Planner`, `PlanLaws`, `PlanExactly`, `Ingestion` | the ingestion planner, and its items applied to the live locations |
| `Diff`, `DiffLaws` | the structural diff as a patch, and what it reports |
| `Lease` | idempotency leases under any interleaving |
| `AuditLog` | the hash-linked operation log |
| `Reconciliation`, `Repair` | indexing with read-back, and the repair loop |

A transaction is one call of a repository method; its savepoint is `RollBackTo`. Exceptions are `Err` values
or the outcome `Refused`. A crash, or a failing port, is a `Fault` that a command is given. A service is
configured with one chunker, embedding model and dimension, its `runtime`; a generation keeps those that it
was built with in its `manifest`. Identifiers, clocks, the SHA-256 hash, the search for unsafe Markdown and
the generated source ids are parameters.

`dafny verify dfyconfig.toml` checks the project.

## What the proofs found

- A restoration does not ask whether the generation that the note remembers still serves
  (`src/trustworthy_kb/persistence/publication_repository.py:246-313`), while the design promises that every
  live note is on the ACTIVE generation. `Stranding.StrandingIsReachable` is a run that breaks the promise.
  `Runs.CallKeepsSingleServing` says that nothing else can, and `Runs.StrandedBlocksSwitches` that promotion
  and rollback are then refused until the note is deleted or republished.
- A deletion that crashed after its file was recycled cannot be finished while another note is live at its
  path, which a restoration in between can bring about (`Interleaving.RestorationTakesThePath`). No other
  command stands in its way (`Interleaving.DeletionOutlastsSchedules`).
- A chunker upgrade in the middle of a deletion leaves the note on the old generation, and every service with
  the new chunker refuses to finish the deletion for good
  (`src/trustworthy_kb/publication/lifecycle.py:289`; `Interleaving.UpgradeStallsDeletion`,
  `Interleaving.OtherChunkersLeaveItBegun`). Likewise only a service with the old chunker can roll the upgrade
  back (`Recovery.RebuildPromoteRollback`).
- A deletion purges the answers that cite the chunks of the note's own generation. Stored answers that cite
  what an older chunker cut from the same version stay (`Interleaving.OlderAnswersStay`).
- A promotion can be rolled back after any run without a publication, a switch or a stranding restoration
  (`Fallback.PromotionStaysReversible`). The first publication of a version that was never on the old
  generation closes the way back (`Fallback.PublicationReplaces`, `Fallback.ReplacedClosesRollback`).
- `rollback_index_generation` checks the statuses of jobs and not that of the target generation, so it accepts
  a STAGING target exactly while no published note is live (`Switching.RollbackToStagingIff`; reachable by
  `Stranding.StagingRollbackIsReachable`). This concerns the repository only: the service refuses every target
  that is not SUPERSEDED (`src/trustworthy_kb/publication/generation_lifecycle.py:236`).
- A claim line that fills the hard limit exactly is accepted or refused depending on the line before it
  (`Batches.BatchingSucceedsIff`, `Batches.ExactLineDependsOnItsPlace`).
- A heading of control characters passes validation and disappears in print
  (`RoundTrip.InvisibleHeading`). Its claims join the section before it, or come under `Knowledge` when there
  is none, and none is lost (`RoundTrip.BodyParses`, `RoundTrip.InvisibleFirstGroup`).
- Lease windows are disjoint without any assumption on the clocks of the workers: a takeover itself compares
  its clock with the end of the lease before it (`Lease.WindowsAreDisjoint`).

## Model

| member | source | states |
|---|---|---|
| Repository.PublicationRepository.PrepareNoteDeletion | src/trustworthy_kb/persistence/publication_repository.py:179-244 | The new rows are exactly those of a deletion: the note is marked deleted and its own job waits for deletion. On any refusal, in any order of the checks and the two compare-and-swaps, nothing is changed |
| Repository.PublicationRepository.RestoreNote | src/trustworthy_kb/persistence/publication_repository.py:246-313 | Likewise for a restoration, which the unique index on live paths can also refuse |
| Repository.PublicationRepository.AddIndexJob | src/trustworthy_kb/persistence/publication_repository.py:623-632 | A second job for the same object and generation is refused |
| Repository.PublicationRepository.TransitionIndexJob | src/trustworthy_kb/persistence/publication_repository.py:634-660 | Only declared transitions, only at the expected revision; the revision goes up by one and nothing else changes |
| Repository.PublicationRepository.TransitionIndexGeneration | src/trustworthy_kb/persistence/publication_repository.py:429-462 | Likewise for generations; a second ACTIVE generation is refused |
| Repository.PublicationRepository.GenerationSwitchJobs | src/trustworthy_kb/persistence/publication_repository.py:1042-1075 | The loop over the live notes yields each note with its serving job and its target job, exactly when every one of them has both |
| Repository.PublicationRepository.MoveAll | src/trustworthy_kb/persistence/publication_repository.py:1115-1159 | The loop of single compare-and-swaps over any number of notes ends in the one simultaneous move of the specification |
| Repository.PublicationRepository.PromoteIndexGeneration | src/trustworthy_kb/persistence/publication_repository.py:485-552 | Equals the specified promotion on success; on refusal nothing is changed |
| Repository.PublicationRepository.RollbackIndexGeneration | src/trustworthy_kb/persistence/publication_repository.py:554-621 | Equals the specified rollback on success; on refusal nothing is changed |
| Repository.PublicationRepository.ActivatePublication | src/trustworthy_kb/persistence/publication_repository.py:808-1026 | Equals the specified activation on success, whose acceptance and every row are pinned by `ActivationLaws`; a refusal half way through is rolled back to the savepoint |
| Repository.MoveOneMore | src/trustworthy_kb/persistence/publication_repository.py:1115-1159 | One more note moved by two compare-and-swaps is the simultaneous move of one more note |
| Repository.MovePlanned | src/trustworthy_kb/persistence/publication_repository.py:1042-1075 | Moving the first k planned notes one by one is moving that set of notes at once |
| Schema.JobIsUnique | src/trustworthy_kb/persistence/publication_tables.py:380-385 | The unique constraint makes the job of a version and a generation the only one |
| Switching.MoveGenerationKeepsOneActive | src/trustworthy_kb/persistence/publication_tables.py:314-319 | No generation step leaves two ACTIVE generations, and one becomes ACTIVE only while there is none |
| Switching.MoversAreAll | src/trustworthy_kb/persistence/publication_repository.py:1077-1086 | When the fleet check passes, the notes to be moved are all live notes with both pointers set |
| Switching.SwitchGenerations | src/trustworthy_kb/persistence/publication_repository.py:1088-1113 | A switch makes its target ACTIVE and the old one SUPERSEDED, and touches no other generation |
| Switching.WholeFleetSwitch | src/trustworthy_kb/persistence/publication_repository.py:485-621 | After any successful promotion or rollback the target alone is ACTIVE, every live published note is on it with a serving job there and a job waiting for deletion on the generation left behind; all other notes, versions and runs are untouched |
| Switching.SwitchKeepsInv | src/trustworthy_kb/persistence/publication_repository.py:485-621 | Both switches keep the whole invariant of the database |
| Switching.RollbackEnabled | src/trustworthy_kb/persistence/publication_repository.py:554-621 | Right after a switch from s to t, the rollback to s cannot be refused and concerns the same notes |
| Switching.RollbackUndoesSwitch | src/trustworthy_kb/persistence/publication_repository.py:1115-1159 | That rollback restores every pointer and every status, up to revisions and what the target generation keeps as a built generation |
| Switching.RollbackInvertsPromote | src/trustworthy_kb/persistence/publication_repository.py:485-621 | Promotion to t and rollback to s: s serves again, every note pointer and every job of another generation than t is as before, for any number of notes |
| Switching.RollbackUndoesRollback | src/trustworthy_kb/persistence/publication_repository.py:554-621 | A rollback is undone by the opposite rollback if and only if its target was SUPERSEDED before |
| Switching.RollbackToStagingIff | src/trustworthy_kb/persistence/publication_repository.py:554-621 | The repository accepts a rollback to a STAGING generation if and only if the revision is the expected one, some generation serves and no published note is live |
| Switching.SwapForEver | src/trustworthy_kb/persistence/publication_repository.py:554-621 | After a promotion, s, t and s again by rollbacks is the identity on all pointers and statuses |
| Activation.ActivationIsLocal | src/trustworthy_kb/persistence/publication_repository.py:808-1026 | The published version becomes the only ACTIVE one of its note and the current one, on the serving generation; the rows of every other note, version and job are the same |
| Activation.ActivationKeepsTheServingGeneration | src/trustworthy_kb/persistence/publication_repository.py:879-931 | While a live note is on the serving generation, no activation changes which generation serves |
| Activation.ActivationKeepsSingleServing | src/trustworthy_kb/persistence/publication_repository.py:879-931 | Activation keeps all live published notes on the ACTIVE generation |
| Activation.ServeKeepsInv | src/trustworthy_kb/persistence/publication_repository.py:879-931 | Making a generation the serving one keeps the invariant, and is possible only when no live note is left behind |
| Activation.VersionsKeepInv | src/trustworthy_kb/persistence/publication_repository.py:861-878 | Retiring the versions that were shown before keeps the invariant |
| Activation.ShowKeepsInv | src/trustworthy_kb/persistence/publication_repository.py:932-1026 | Showing the new version and serving its job keeps the invariant |
| ActivationLaws.ActivationIff | src/trustworthy_kb/persistence/publication_repository.py:829-931 | An activation is accepted if and only if every row is there at the expected revision, version, job and change are staged, indexed and intended for this very run, the version shown so far can be superseded, and the generation serves already or no live note is left on the one that does |
| ActivationLaws.VersionsAfterActivation | src/trustworthy_kb/persistence/publication_repository.py:861-950 | Of all versions exactly two rows are written: the new one is ACTIVE, and the one that the note showed so far is SUPERSEDED, each at its next revision |
| ActivationLaws.RepublicationSupersedes | src/trustworthy_kb/persistence/publication_repository.py:869-877 | A republication supersedes the version that it replaces |
| ActivationLaws.NotesAfterActivation | src/trustworthy_kb/persistence/publication_repository.py:951-968 | The one note row that changes points to the version and the generation of the run |
| ActivationLaws.JobsAfterActivation | src/trustworthy_kb/persistence/publication_repository.py:969-984 | The one job row that changes serves |
| ActivationLaws.ChangesAfterActivation | src/trustworthy_kb/persistence/publication_repository.py:985-1016 | The one change row that changes is ACTIVE, the one run row COMPLETED |
| ActivationLaws.GenerationsAfterActivation | src/trustworthy_kb/persistence/publication_repository.py:879-931 | A STAGING generation of the run becomes ACTIVE and the one that served so far SUPERSEDED; no other row changes, and none if the generation serves already |
| Runs.CallKeepsInv | src/trustworthy_kb/persistence/publication_repository.py:179-313 | Every repository call, accepted or refused, keeps: one ACTIVE generation; pointers only to ACTIVE or SUPERSEDED generations; a serving job for each live published note; only build statuses for the jobs of STAGING and FAILED generations; unique jobs, own versions, distinct live paths |
| Runs.ReachableInv | src/trustworthy_kb/persistence/publication_repository.py:485-715 | The invariant holds in every state that any sequence of calls reaches from the empty database |
| Runs.RestoreKeepsSingleServing | src/trustworthy_kb/persistence/publication_repository.py:246-313 | A restoration keeps every live note on the serving generation if and only if the generation that the note remembers is ACTIVE |
| Runs.CallKeepsSingleServing | src/trustworthy_kb/persistence/publication_repository.py:179-313 | Every call keeps single serving, except exactly the restorations onto a generation that no longer serves |
| Runs.RunsKeepSingleServing | src/trustworthy_kb/persistence/publication_repository.py:485-621 | Single serving over whole runs without such a restoration |
| Runs.StrandedRefusesSwitch | src/trustworthy_kb/persistence/publication_repository.py:1077-1086 | With one stranded live note, every promotion and every rollback is refused |
| Runs.StrandedBlocksSwitches | src/trustworthy_kb/persistence/publication_repository.py:1077-1086 | This lasts over every run in which the stranded note is neither deleted nor republished |
| CallLaws.StaleCallIsRefused | src/trustworthy_kb/persistence/publication_repository.py:1205-1226 | Every call that expects a revision is refused at any other one, for each of the rows that it names |
| CallLaws.CallCounts | src/trustworthy_kb/persistence/publication_repository.py:1205-1226 | Whatever a call does, each row is the same or was written once: its revision is one higher exactly when the row changed, and a new row has revision 1 |
| CallLaws.DeletionIff | src/trustworthy_kb/persistence/publication_repository.py:179-244 | A deletion is accepted if and only if both revisions are right, the note is live and published, and the job is that of its current version on its generation |
| CallLaws.DeletionRows | src/trustworthy_kb/persistence/publication_repository.py:179-244 | Exactly two rows change: the note is marked deleted and the job waits for deletion |
| CallLaws.RestorationIff | src/trustworthy_kb/persistence/publication_repository.py:246-313 | Likewise for a restoration: the note is deleted, its job is INDEXED and no live note has its path |
| CallLaws.RestorationRows | src/trustworthy_kb/persistence/publication_repository.py:246-313 | Exactly two rows change: the note is live and the job serves |
| CallLaws.SwitchIff | src/trustworthy_kb/persistence/publication_repository.py:485-621 | A promotion or rollback is accepted if and only if the revision is right, the target is STAGING or SUPERSEDED, and every live published note is on the one serving generation with a serving job there and a job in the required status on the target |
| CallLaws.NotesAfterSwitch | src/trustworthy_kb/persistence/publication_repository.py:1115-1159 | All live published notes, and no others, point to the target, each at its next revision |
| CallLaws.JobsAfterSwitch | src/trustworthy_kb/persistence/publication_repository.py:1115-1159 | The jobs of those notes change places: waiting for deletion on the generation left behind, serving on the target; every other job is the same row |
| CallLaws.GenerationsAfterSwitch | src/trustworthy_kb/persistence/publication_repository.py:1088-1113 | Exactly two generation rows change, and no version, change or run does |
| CallLaws.CreationIff | src/trustworthy_kb/persistence/publication_repository.py:66-738 | Each of the six add calls is accepted if and only if its identifier is new, what it refers to is there and its unique constraint holds |
| CallLaws.StepIff | src/trustworthy_kb/persistence/publication_repository.py:98-785 | A step of a version, job, change or run is accepted if and only if the revision is right and the step is declared |
| CallLaws.StepChangesOneStatus | src/trustworthy_kb/persistence/publication_repository.py:98-785 | An accepted step changes one status and one revision in one row |
| CallLaws.RunsKeepFinalRows | src/trustworthy_kb/domain/transitions.py:86-323 | Over any guarded run a FAILED generation, a version that was superseded, quarantined or failed, a change that was decided and a COMPLETED run stay the very same rows |
| CallLaws.OnlyPublicationShows | src/trustworthy_kb/persistence/publication_repository.py:808-1026 | A version becomes ACTIVE only through the activation of its own run, out of STAGING, with its change intended to be published |
| CallLaws.ReachableRegistered | src/trustworthy_kb/persistence/publication_tables.py:442-446 | In every reachable state generation numbers are unique, a change has one run per generation, and every run is about a version of its note that its change brought |
| Stranding.StrandingIsReachable | docs/superpowers/specs/2026-07-28-p0-lifecycle-recovery-design.md:17 | The design promises that a live note is on the ACTIVE generation: a concrete run of guarded calls from the empty database ends with a live note that is not |
| Stranding.StagingRollbackIsReachable | src/trustworthy_kb/persistence/publication_repository.py:554-621 | A concrete run from the empty database to a state in which a rollback to a generation that never served is accepted |
| Publishing.PublicationGoesThrough | src/trustworthy_kb/persistence/publication_repository.py:808-1026 | From any state with a serving generation, or a STAGING one and none serving: for unused ids and a path that no live note has, the calls from the change to the activation are all accepted, and end in exactly the rows of a published note |
| Publishing.ActivationShows | src/trustworthy_kb/persistence/publication_repository.py:808-1026 | The last of these calls, on the rows that the earlier ones wrote |
| Fallback.RetainedIsAccepted | src/trustworthy_kb/persistence/publication_repository.py:554-621 | While every note on the serving generation t keeps its job on s waiting for deletion, the rollback to s is accepted |
| Fallback.PromotionRetains | src/trustworthy_kb/persistence/publication_repository.py:485-552 | A promotion of a STAGING generation establishes this |
| Fallback.RunsRetain | src/trustworthy_kb/persistence/publication_repository.py:179-715 | It is kept over every run without a publication, a switch, a stranding restoration or a step that gives up a job on s |
| Fallback.PromotionStaysReversible | src/trustworthy_kb/persistence/publication_repository.py:554-621 | So a promotion can be rolled back after any such run |
| Fallback.PublicationReplaces | src/trustworthy_kb/persistence/publication_repository.py:808-1026 | The publication of a version that has no job on s waiting for deletion leaves a live note without one |
| Fallback.ReplacedClosesRollback | src/trustworthy_kb/persistence/publication_repository.py:1042-1075 | From then on every rollback to s is refused, over every run in which that note is neither deleted nor published anew and s is not promoted |
| WorldState.LiveNotesAreServed | src/trustworthy_kb/publication/lifecycle.py:157-270 | In a safe world a live published note has its file in place and all its chunks in the index of its generation |
| WorldState.DeletedJobsLeaveNothing | src/trustworthy_kb/publication/lifecycle.py:79-155 | In a safe world a DELETED job means: file in the trash and not in place, no chunk in the index, no stored answer that cites one |
| WorldState.OtherChunkersCutOtherChunks | src/trustworthy_kb/publication/chunking.py:74-79 | Two chunkers cut one version into different chunks, because the chunk id covers the version of the chunker |
| Lifecycle.LifecycleService.Delete | src/trustworthy_kb/publication/lifecycle.py:79-155 | From any safe world, with a crash before any step or in the middle of a write: the world stays safe, nothing but this note is touched, and an uninterrupted run ends with the note deleted if and only if the note was deletable: its generation has the configured chunker, its path is not taken by a foreign file, and it is live or its deletion was begun. Then exactly the answers that cite its chunks are gone, and however it ends no other answer is. Chunks are erased only once the file is in the trash, answers only once the chunks are erased; a refusal changes neither |
| Lifecycle.LifecycleService.Restore | src/trustworthy_kb/publication/lifecycle.py:157-270 | Likewise for a restoration, with failures of the index besides crashes; it needs the configured embedding model too, unless the chunks are indexed already. The file comes back only once all chunks are indexed, a failing index leaves the job FAILED and the file in the trash, an unfinished deletion is refused outright, and the stored answers are never touched |
| Lifecycle.LifecycleService.Rebuild | src/trustworthy_kb/publication/generation_lifecycle.py:111-150 | Jobs of other generations and INDEXED jobs stay, nothing is taken out of the index, and only chunks and jobs of the notes that are to move come in; a failing index write leaves a FAILED job; success means that every live note is indexed into the target; without failures it succeeds if and only if there is a serving generation, the target is STAGING and was made for the configured chunker, model and dimension, and the chunker can cut every note |
| Lifecycle.LifecycleService.Promote | src/trustworthy_kb/publication/generation_lifecycle.py:152-215 | Reads every chunk back before the switch, whatever the index holds; succeeds exactly when the target is STAGING, was made for the configured runtime and the repository accepts the switch, and is then that switch |
| Lifecycle.LifecycleService.Rollback | src/trustworthy_kb/publication/generation_lifecycle.py:217-274 | Likewise for the rollback to a generation that served before and was cut by the configured chunker |
| Lifecycle.LifecycleService.Abort | src/trustworthy_kb/publication/generation_lifecycle.py:276-321 | Ends with a FAILED target if and only if the target was STAGING or FAILED and some generation serves; nothing but the row of a STAGING target changes |
| Recovery.RunSchedule | src/trustworthy_kb/publication/lifecycle.py:79-270 | Safety over every sequential schedule of delete, restore, rebuild, promote, rollback and abort, with a crash anywhere in each and another configuration for each |
| Recovery.DeletionFinishes | src/trustworthy_kb/publication/lifecycle.py:79-155 | An interrupted deletion of a deletable note, run once more, is finished |
| Recovery.RestorationFinishes | src/trustworthy_kb/publication/lifecycle.py:157-270 | An interrupted restoration of a restorable note, run once more, is finished |
| Recovery.RestoreUndoesDelete | src/trustworthy_kb/publication/lifecycle.py:79-270 | Deleted and restored, a note is live again if and only if the service embeds for its generation; then database up to revisions, files, trash and index are as before, and exactly the stored answers that cite its chunks are gone |
| Recovery.BackAsBefore | src/trustworthy_kb/publication/lifecycle.py:157-270 | Two worlds that differ by one note only, live in both, are equal in rows, files, trash and index |
| Recovery.PathStaysFree | src/trustworthy_kb/publication/lifecycle.py:157-270 | After its deletion the path of a note is still free in the database and in the Vault: it can be restored if and only if the service embeds for its generation |
| Recovery.PromotionIsEnabled | src/trustworthy_kb/persistence/publication_repository.py:485-552 | A complete rebuild of a single serving fleet makes the promotion succeed |
| Recovery.RebuildPromoteRollback | src/trustworthy_kb/publication/generation_lifecycle.py:111-274 | Rebuild, promote and roll back: the old generation serves again, with every note pointer as before, if and only if the service that rolls back has the chunker of the old generation |
| Interleaving.StaysDeletable | src/trustworthy_kb/publication/lifecycle.py:272-304 | While a deletion that was begun stays begun with its path free, it can be finished by the same services as before |
| Interleaving.DeletionOutlastsSchedules | src/trustworthy_kb/publication/lifecycle.py:79-155 | A deletion that was begun is finished after any schedule of other commands, crashes and changes of configuration, as long as no note at its path is restored |
| Interleaving.LiveNoteHoldsThePath | src/trustworthy_kb/publication/lifecycle.py:111-120 | While another note is live at its path, a deletion that was begun cannot be finished, whatever the configuration |
| Interleaving.RestorationTakesThePath | src/trustworthy_kb/publication/lifecycle.py:79-270 | Two commands that get there from any safe world with a live and a deleted note at one path: a deletion that crashes once its file is recycled, and a restoration of the other note |
| Interleaving.TwoNotesShareAPath | src/trustworthy_kb/publication/lifecycle.py:79-270 | Such a world, with rows that a run from the empty database leads to |
| Interleaving.DeletingAgainFreesThePath | src/trustworthy_kb/publication/lifecycle.py:79-155 | Deleting that other note again lets the first deletion finish |
| Interleaving.OtherChunkersLeaveItBegun | src/trustworthy_kb/publication/lifecycle.py:289-290 | Whatever services with another chunker run, crashes included, a deletion that was begun stays where it is: note and job are the same rows |
| Interleaving.UpgradeStallsDeletion | src/trustworthy_kb/publication/lifecycle.py:289-290 | A deletion crashes, a generation for a new chunker is rebuilt and promoted: the new services refuse to finish the deletion, those with the old chunker can |
| Interleaving.UpgradeUnderWay | src/trustworthy_kb/publication/lifecycle.py:289-290 | A world in which this can happen, with rows that a run from the empty database leads to |
| Interleaving.OlderAnswersStay | src/trustworthy_kb/publication/lifecycle.py:306-309 | A deletion leaves the stored answers that cite only what another chunker cut from the version |
| WorldSteps.MoveJobSafe | src/trustworthy_kb/publication/lifecycle.py:79-270 | A job step keeps the world safe when the index agrees with the new status |
| WorldSteps.MarkSafe | src/trustworthy_kb/publication/lifecycle.py:79-155 | Excluding a note, or readmitting it with everything in place, keeps the world safe |
| WorldSteps.SwitchSafe | src/trustworthy_kb/publication/generation_lifecycle.py:152-274 | A switch of generations keeps file, index and answers in agreement with all rows |
| WorldSteps.FilesSafe | src/trustworthy_kb/publication/lifecycle.py:79-270 | Moving the file of a note into or out of the trash keeps the world safe |
| WorldSteps.IndexSafe | src/trustworthy_kb/publication/lifecycle.py:79-270 | A partial write to the chunks of a job that is not serving keeps the world safe |
| WorldSteps.AnswersSafe | src/trustworthy_kb/publication/lifecycle.py:306-309 | Any purge of stored answers keeps the world safe |
| Curation.SafeInline | src/trustworthy_kb/publication/curation.py:295-300 | The loop of twelve replacements, backslash first, is one simultaneous escape of the normalized text |
| Curation.EscapeOneMore | src/trustworthy_kb/publication/curation.py:295-300 | One more replacement pass adds one character to the set that is escaped |
| Curation.UnescapeEscaped | src/trustworthy_kb/publication/curation.py:295-300 | Escaping is reversible: different normalized texts are printed differently |
| Curation.SafeText | src/trustworthy_kb/publication/curation.py:295-300 | Safe text is one trimmed line, without an underscore that could start a claim marker |
| Curation.Render | src/trustworthy_kb/publication/curation.py:128-140 | Refuses a plan that does not hold every claim exactly once, then multi-line headings, then an unsafe body; otherwise returns the specified body |
| Curation.RenderGroups | src/trustworthy_kb/publication/curation.py:129-133 | The loop over the groups yields the parts of all groups in order |
| Curation.ValidPlanIsKnown | src/trustworthy_kb/publication/curation.py:272-285 | A valid plan names known claims only |
| CurationLaws.ValidIff | src/trustworthy_kb/publication/curation.py:272-283 | A plan is accepted if and only if it names each claim exactly once, claims are distinct, and title and headings are single lines; the first of the two failures is reported |
| CurationLaws.NormalizedKeepsWords | src/trustworthy_kb/publication/curation.py:295-298 | Normalizing keeps the words of a text, the runs of visible characters, and separates them by single spaces |
| CurationLaws.ClaimLineReads | src/trustworthy_kb/publication/curation.py:228-244 | With its escapes taken away a printed claim reads as subject, dash, predicate, colon, value and marker, in this order |
| CurationLaws.BodyIsLaidOut | src/trustworthy_kb/publication/curation.py:128-138 | The lines of a printed body are the title, and for each group an empty line, its heading, an empty line and one item for each of its claims, in order |
| Text.SplitJoined | src/trustworthy_kb/publication/chunking.py:154 | Lines that are joined come apart again, provided that none holds a line boundary |
| Sections.ClaimSections | src/trustworthy_kb/publication/chunking.py:141-166 | The line loop with its pending section equals the recursive parse of all lines |
| Sections.ClaimIds | src/trustworthy_kb/publication/chunking.py:169-173 | The loop over the lines yields the markers of all lines, first occurrences only |
| Sections.ParsedIsProper | src/trustworthy_kb/publication/chunking.py:141-166 | Whatever the text: a parsed title, heading or section is never empty and every parsed line has a marker |
| CurationLaws.BlockIsOneSection | src/trustworthy_kb/publication/chunking.py:141-163 | The items up to the next heading are one section, under the heading before them and the last title among them |
| CurationLaws.ParsingFailsIff | src/trustworthy_kb/publication/chunking.py:159-163 | Parsing fails if and only if some item has no marker |
| CurationLaws.NothingIsFoundIff | src/trustworthy_kb/publication/chunking.py:163-166 | It finds no section if and only if there is no item |
| RoundTrip.OnlyTheLastMarker | src/trustworthy_kb/publication/chunking.py:14-14 | Behind text without a marker start, the one marker that the pattern finds is the real one |
| RoundTrip.ClaimLineShape | src/trustworthy_kb/publication/curation.py:228-231 | A printed claim line is one line, starts as a list item and carries exactly the marker of its claim, whatever its text |
| RoundTrip.BodyParses | src/trustworthy_kb/publication/chunking.py:141-166 | Whatever its title and headings show, the parser reads a printed valid plan as its shown plan: a group whose heading prints as nothing is merged into the one before it, the first one comes under the default heading, and the claims are the same in the same order |
| RoundTrip.MergeKeepsClaims | src/trustworthy_kb/publication/chunking.py:146-160 | Merging groups moves and loses no claim |
| RoundTrip.InvisibleFirstGroup | src/trustworthy_kb/publication/chunking.py:142-143 | The claims of a first group without a visible heading come under Knowledge |
| RoundTrip.BodyParsesBack | src/trustworthy_kb/publication/curation.py:128-138 | With nothing to merge, that is one section per group, with the escaped title and headings and the printed lines |
| RoundTrip.RoundTripIff | src/trustworthy_kb/publication/curation.py:128-138 | The parser gives that back if and only if the title and every heading hold a character that is neither white space nor control |
| RoundTrip.GroupIdsComeBack | src/trustworthy_kb/publication/chunking.py:169-173 | The claim ids found in a section are those of its group, in order |
| RoundTrip.SafeIffVisible | src/trustworthy_kb/publication/curation.py:295-300 | Sanitised text is empty exactly when nothing in it is visible |
| RoundTrip.InvisibleHeading | src/trustworthy_kb/publication/curation.py:282-285 | One control character is a heading that validation accepts and printing loses |
| Batches.TailIsLongest | src/trustworthy_kb/publication/chunking.py:183-194 | The overlap is the longest suffix within the budget |
| Batches.OverlapTail | src/trustworthy_kb/publication/chunking.py:183-194 | The backward loop computes that suffix |
| Batches.BatchLines | src/trustworthy_kb/publication/chunking.py:113-138 | The greedy loop equals the specified batching |
| Batches.AddLine | src/trustworthy_kb/publication/chunking.py:121-136 | One turn of the loop: what a line closes, and the batch then under way |
| Batches.BatchingCoversLines | src/trustworthy_kb/publication/chunking.py:113-138 | Each batch is the longest affordable suffix of the one before, or nothing, and then new lines; the new lines are the input in order, each once; a batch is closed only when the next line takes it over the target |
| Batches.BatchesFit | src/trustworthy_kb/publication/chunking.py:113-138 | No batch is empty or over the limit, and n lines give at most 2n - 1 batches |
| Batches.ChunkTextsAreBounded | src/trustworthy_kb/publication/chunking.py:121-136 | Every chunk text is at most the hard maximum |
| Batches.BatchingSucceedsIff | src/trustworthy_kb/publication/chunking.py:121-136 | Batching succeeds if and only if every line is below the limit, or fills it exactly and follows a line short enough to overlap |
| Batches.ExactLineDependsOnItsPlace | src/trustworthy_kb/publication/chunking.py:130-135 | A line that fills the limit exactly is refused alone and accepted behind a short line |
| Batches.BatchesKeepLines | src/trustworthy_kb/publication/chunking.py:113-138 | The lines of the batches are the input lines |
| BatchLaws.BatchingIsGreedy | src/trustworthy_kb/publication/chunking.py:113-138 | The batches take up all lines in order; each is the longest tail of the one before that fits the overlap and then new lines, and ends exactly when the next line would take it over the target, or at the end |
| BatchLaws.GreedyIsUnique | src/trustworthy_kb/publication/chunking.py:113-138 | Only one list of batches is greedy in this sense |
| Chunking.ChunkArtifact | src/trustworthy_kb/publication/chunking.py:48-111 | Equals the specified chunking, with the same errors in the same order; what the chunks then show is said by `ChunkLaws` |
| Chunking.ChunksAreSound | src/trustworthy_kb/publication/chunking.py:66-110 | Whatever the body: ordinals count up from 0, texts are bounded, every chunk is at least as strict, as poor and as stale as each claim it cites and valid only while all of them are, and all claims are cited |
| ChunkLaws.TextShows | src/trustworthy_kb/publication/chunking.py:176-180 | A chunk text has one title line, one heading line, an empty line and then the lines of its batch, and nothing else |
| ChunkLaws.ChunksTellTheBody | src/trustworthy_kb/publication/chunking.py:66-110 | Read from their texts alone, the chunks of an accepted body come in one part for each parsed section, with its title and heading; the lines below are its greedy batches, and the claim ids are the markers in those lines |
| ChunkLaws.EveryLineIsShown | src/trustworthy_kb/publication/chunking.py:66-110 | Every claim line of the body is a line of a chunk under its own title and heading |
| ChunkLaws.MetadataIsAttained | src/trustworthy_kb/publication/chunking.py:84-101 | Quality, sensitivity and each time of a chunk are those of some claim that it cites: together with `Chunking.ChunksAreSound`, the extreme ones |
| ChunkLaws.MarkersAre | src/trustworthy_kb/publication/chunking.py:14-14 | The claim ids found in a line are those between bracket, caret and bracket, at any place in it |
| ChunkLaws.FirstOccurrences | src/trustworthy_kb/publication/chunking.py:169-173 | Repeated ids are dropped and the first occurrences keep their order |
| ChunkLaws.ChunkingRefuses | src/trustworthy_kb/publication/chunking.py:58-166 | Each refusal of the input, in the order of the checks: generation, claims, an item without marker, no items |
| Chunking.RenderedBodiesChunk | src/trustworthy_kb/publication/chunking.py:48-111 | Chunking the printed body of any valid plan can fail only on a line size or on disjoint validity windows; otherwise the chunks cite exactly the claims of the plan |
| Chunking.FittingBodiesChunk | src/trustworthy_kb/publication/chunking.py:48-111 | When the lines of the parsed sections fit and the claims are valid at one common time, it does not fail |
| Planner.PlanIngestion | src/trustworthy_kb/ingestion/planner.py:51-122 | Errors exactly for an incomplete inventory or duplicate live paths; otherwise the items are those of the declarative plan, in strict path order |
| Planner.MatchUniqueIdentity | src/trustworthy_kb/ingestion/planner.py:158-195 | The loop over the unique identities records exactly the pairs that share an identity nothing else on either side has |
| Planner.MatchSamePath | src/trustworthy_kb/ingestion/planner.py:63-71 | The loop over the common paths records exactly the pairs with one path |
| Planner.CountsOne | src/trustworthy_kb/ingestion/planner.py:172-177 | A counter says 1 exactly when the dictionary entry is the only holder |
| Planner.UniqueKnownSources | src/trustworthy_kb/ingestion/planner.py:125-129 | Fails exactly when two known sources share a path |
| Planner.SortOrders | src/trustworthy_kb/ingestion/planner.py:119-122 | Sorting items with distinct paths lists the same items in strict path order |
| PlannerSpec.ItemTellsItsSource | src/trustworthy_kb/ingestion/planner.py:132-155 | An item about a known source is a move exactly when its path is new, UNCHANGED exactly when nothing differs, starts from the current version (the newest, for a deletion without one) and keeps a quarantine only when UNCHANGED |
| PlannerSpec.ItemsAreDistinct | src/trustworthy_kb/ingestion/planner.py:59-122 | Two items of a plan are about different paths and about different sources |
| PlannerSpec.MatchesAreOneToOne | src/trustworthy_kb/ingestion/planner.py:168-195 | No source and no entry is matched twice: moves are injective |
| PlanLaws.PlanningIgnoresOrder | src/trustworthy_kb/ingestion/planner.py:51-122 | Shuffling the known sources or the entries gives the identical plan |
| PlanLaws.EveryEntryHasOneItem | src/trustworthy_kb/ingestion/planner.py:59-105 | Every manifest entry is in exactly one item |
| PlanLaws.EverySourceHasOneItem | src/trustworthy_kb/ingestion/planner.py:59-118 | Every known source is in exactly one item, except the unmatched out-of-scope ones, which are in none |
| PlanLaws.PlanSize | src/trustworthy_kb/ingestion/planner.py:94-118 | The number of items is the entries plus the unmatched eligible sources |
| PlanLaws.RenameIsFollowed | src/trustworthy_kb/ingestion/planner.py:76-84 | A rename with an unambiguous file key is planned as a move |
| PlanExactly.PlanIsExactly | src/trustworthy_kb/ingestion/planner.py:59-118 | An item is in the plan if and only if it is one of four, told field by field from the inputs: the update or no change of a common path, a move, a new file that no move explains, or the deletion of an eligible source that no move explains |
| PlanExactly.MovesAre | src/trustworthy_kb/ingestion/planner.py:158-195 | A source is moved to an entry if and only if both are without a partner on their path and they share a file key that nothing else lost or found has, or, left over by the file keys, a content that nothing else left over has |
| PlanExactly.MovedFromIff | src/trustworthy_kb/ingestion/planner.py:76-93 | The item of an entry is a move from a given source if and only if this holds for the two |
| PlanExactly.ContentIsFollowed | src/trustworthy_kb/ingestion/planner.py:85-93 | A file that is told by its content alone is planned as a move |
| PlanExactly.FileKeyComesFirst | src/trustworthy_kb/ingestion/planner.py:76-93 | A pair that shares a file key takes part in no move by content |
| PlanExactly.RenamedFileIsMoved | src/trustworthy_kb/ingestion/planner.py:85-93 | One lost source and one new file with its content and without file keys: the plan is that one move |
| PlanLaws.TwinSourcesStay | src/trustworthy_kb/ingestion/planner.py:172-177 | Two lost sources with the same identities are never moved |
| PlanLaws.TwinEntriesAreCreated | src/trustworthy_kb/ingestion/planner.py:172-177 | Two new files with the same identities are both created |
| PlanLaws.MirrorIsQuiet | src/trustworthy_kb/ingestion/planner.py:132-155 | The plan is all UNCHANGED if and only if the known sources mirror the manifest |
| Ingestion.IngestionService.ApplyItem | src/trustworthy_kb/ingestion/service.py:160-199 | One item changes the live locations as specified, or is refused and changes nothing |
| Ingestion.ItemIsAppliedIff | src/trustworthy_kb/ingestion/service.py:160-199 | When one item is accepted, in terms of its source, its path and the live locations |
| Ingestion.ItemChangesOneSource | src/trustworthy_kb/ingestion/service.py:160-199 | An accepted item changes the location of one source at most, and unique live paths stay unique |
| Ingestion.AnyOrderIsSafe | src/trustworthy_kb/ingestion/service.py:201-292 | Any items of a plan in any order: no step is refused for its location and no two live sources share a path on the way |
| Ingestion.WholePlanReachesManifest | src/trustworthy_kb/ingestion/service.py:629-648 | All items of an error-free plan in any order: the live paths are those of the manifest and of the unmatched out-of-scope sources |
| Ingestion.PlanningReachesFixedPoint | src/trustworthy_kb/ingestion/service.py:321-353 | If the contents became the newest parsed versions, the next plan for the same manifest is all UNCHANGED |
| Diff.DiffIsAPatch | src/trustworthy_kb/ingestion/diff.py:57-143 | Removing, modifying, moving and adding what the diff says turns the older document into the newer one |
| Diff.CountsAreConserved | src/trustworthy_kb/ingestion/diff.py:57-143 | Both documents are counted out exactly by unchanged, moved, modified and removed or added |
| DiffLaws.MovedIff | src/trustworthy_kb/ingestion/diff.py:78-97 | A text is reported as moved from one anchor to another if and only if, among the changed anchors, the first is the only one that had it, the second the only one that has it, and they differ |
| DiffLaws.ModifiedIff | src/trustworthy_kb/ingestion/diff.py:98-111 | An anchor is modified if and only if both sides have it with different texts and no move accounts for either text |
| DiffLaws.RemovedIff | src/trustworthy_kb/ingestion/diff.py:112-121 | A block is removed if and only if no move accounts for it and its anchor is not modified |
| DiffLaws.AddedIff | src/trustworthy_kb/ingestion/diff.py:122-131 | Likewise for the added ones |
| DiffLaws.ExchangeIsTwoMoves | src/trustworthy_kb/ingestion/diff.py:78-97 | Two blocks that exchange their anchors are exactly two moves |
| DiffLaws.ExchangeModifiesNothing | src/trustworthy_kb/ingestion/diff.py:98-111 | Two blocks that exchange their anchors are not reported as modified |
| DiffLaws.ListsAreInOrder | src/trustworthy_kb/ingestion/diff.py:89-131 | The four lists are in strict order of anchor, or of text for the moves |
| DiffLaws.LastBlockCounts | src/trustworthy_kb/ingestion/diff.py:63-64 | Of several blocks with one anchor the last one counts |
| Diff.OrderDoesNotMatter | src/trustworthy_kb/ingestion/diff.py:57-143 | With unique anchors the order of the blocks does not matter |
| Diff.BackwardsIsMirrored | src/trustworthy_kb/ingestion/diff.py:57-143 | The diff with its arguments swapped is the mirror image |
| Diff.MirroredDiffUndoes | src/trustworthy_kb/ingestion/diff.py:57-143 | The mirrored diff undoes the diff |
| Lease.AuditRepository.AcquireIdempotencyKey | src/trustworthy_kb/persistence/audit_repository.py:163-238 | Without interference: exactly the specified grant, replay, refusal or takeover, and no other key changes |
| Lease.AuditRepository.FinishIdempotency | src/trustworthy_kb/persistence/audit_repository.py:296-334 | Without interference: exactly the specified finish or refusal, and no other key changes |
| Lease.AuditRepository.CompleteIdempotentOperation | src/trustworthy_kb/persistence/audit_repository.py:240-259 | A success is refused while its result is not stored; otherwise it is that finish |
| Lease.RunsKeepInv | src/trustworthy_kb/persistence/audit_repository.py:163-334 | For any interleaving of workers that act on stale reads: revisions count up one by one, all rows are for one request, and statuses only move along declared transitions |
| Lease.AttemptIsRevision | src/trustworthy_kb/persistence/audit_repository.py:220-238 | While IN_PROGRESS, attempt, revision and number of grants are equal |
| Lease.GrantIff | src/trustworthy_kb/persistence/audit_repository.py:163-238 | A grant happens if and only if the key is new, or the read was the newest row, of the same request, still in progress and run out |
| Lease.GrantStores | src/trustworthy_kb/persistence/audit_repository.py:163-238 | A grant stores one new row: IN_PROGRESS for the request and the owner, no result, until exactly the duration asked for has passed, at the next revision and attempt |
| Lease.FinishIff | src/trustworthy_kb/persistence/audit_repository.py:296-334 | A finish is accepted if and only if read and expectation are the newest row, which is in progress, or of unknown outcome in a reconciliation to success or failure |
| Lease.FinishStores | src/trustworthy_kb/persistence/audit_repository.py:296-334 | A finish stores one new row with the given status and result, and without owner and expiry |
| Lease.OnlyTheLatestGrantFinishes | src/trustworthy_kb/persistence/audit_repository.py:296-334 | A finish from IN_PROGRESS needs the revision of the latest grant; no earlier holder has it |
| Lease.AtMostOneEnd | src/trustworthy_kb/persistence/audit_repository.py:296-334 | At most one finish from IN_PROGRESS ever succeeds |
| Lease.DoneIsForever | src/trustworthy_kb/persistence/audit_repository.py:296-334 | After SUCCEEDED or FAILED no call of any worker changes the row |
| Lease.WindowsAreDisjoint | src/trustworthy_kb/persistence/audit_repository.py:202-238 | The lease windows of any two grants are disjoint, with no assumption on the clocks |
| Lease.OneRequestPerKey | src/trustworthy_kb/persistence/audit_repository.py:202-212 | All grants of a key are for one request, and a replay returns the final stored row |
| Lease.ExpiredLeaseIsTakenOver | src/trustworthy_kb/persistence/audit_repository.py:210-238 | A dead worker blocks the key only until its lease runs out |
| AuditLog.OperationLog.AppendOperationLog | src/trustworthy_kb/persistence/audit_repository.py:118-152 | Accepts exactly the next step with the right link and the right hash; otherwise nothing is written |
| AuditLog.OperationLog.AppendAudit | src/trustworthy_kb/publication/lifecycle.py:323-371 | The services write the next entry, or nothing when the last action is repeated |
| AuditLog.OperationLog.GetLatest | src/trustworthy_kb/persistence/audit_repository.py:154-161 | The entry with the greatest step of the operation |
| AuditLog.RunsAreConsistent | src/trustworthy_kb/persistence/audit_repository.py:118-152 | Whatever is offered: per operation, steps are 0 to n-1, each linked to the hash of its predecessor |
| AuditLog.AppendIff | src/trustworthy_kb/persistence/audit_repository.py:118-152 | An entry is accepted if and only if its target is there, it is the next step of its chain with the last hash, and its own hash is right and new; then it alone is added |
| AuditLog.ServicesStore | src/trustworthy_kb/publication/lifecycle.py:323-371 | A service stores its action on the note with the given documents before and after, as the next entry of the chain |
| AuditLog.EqualLatestEqualHistories | src/trustworthy_kb/domain/audit_hash.py:31-62 | Under an injective hash, equal last hashes mean equal operations and equal chains throughout, even in two databases |
| AuditLog.ServicesAreAccepted | src/trustworthy_kb/publication/lifecycle.py:323-371 | An entry built by a service is refused only when its note is missing or the operation belongs to another note |
| AuditLog.RepeatingIsSilent | src/trustworthy_kb/publication/lifecycle.py:336-337 | Repeating a step after a crash writes nothing more |
| Reconciliation.GenerationIndexer.Index | src/trustworthy_kb/publication/indexing.py:31-74 | Succeeds if and only if the set is not empty, of one configured generation, without duplicates, and no port fails; success means that it reads back exactly |
| Reconciliation.GenerationIndexer.Delete | src/trustworthy_kb/publication/indexing.py:76-93 | Success means that exactly the chunks of the set are gone; chunks of several generations are refused, and no other chunk is touched even in a failure |
| Reconciliation.ReadBack | src/trustworthy_kb/publication/indexing.py:64-73 | Writing distinct chunks and reading them back gives exactly the chunks |
| Repair.PublicationReconciler.Reconcile | src/trustworthy_kb/publication/reconciliation.py:35-46 | The loop equals the specified pass, findings and index |
| Repair.PublicationReconciler.VerifyPublication | src/trustworthy_kb/publication/reconciliation.py:64-120 | One publication: the finding and the index after it, for every port that may fail |
| Repair.FindingTells | src/trustworthy_kb/publication/reconciliation.py:35-120 | Each of the six findings is reported if and only if the Vault, the index, the ports and the repair switch are as it says; without a repair the index is untouched, and after one the publication is healthy |
| Repair.MissingFileIsSkipped | src/trustworthy_kb/publication/reconciliation.py:38-41 | A publication whose file is not verified is reported so, and leaves the rest of the pass as if it were not there |
| Repair.VerifyKeeps | src/trustworthy_kb/publication/reconciliation.py:96-105 | A repair, even one that fails half way, touches only the slots of its own chunks and of its own version |
| Repair.OthersStayHealthy | src/trustworthy_kb/publication/reconciliation.py:64-120 | Whatever fails while one publication is repaired, a healthy one apart from it stays healthy |
| Repair.RepairHeals | src/trustworthy_kb/publication/reconciliation.py:96-110 | A repair that meets no failure makes its publication healthy |
| Repair.PassKeepsHealth | src/trustworthy_kb/publication/reconciliation.py:35-46 | After a pass, every publication that was healthy, or was reported healthy or repaired, is healthy, whatever failed on others |
| Repair.OnePassConverges | src/trustworthy_kb/publication/reconciliation.py:35-46 | One smooth pass leaves everything healthy, and a second one finds everything healthy and changes nothing |
| Repair.LookingChangesNothing | src/trustworthy_kb/publication/reconciliation.py:92-97 | With repair switched off a pass changes nothing |

## Left out

- Notes whose generation pointer is empty: the fleet check does not catch them, so the statements about switches are about live notes with both pointers set.
- Generation thresholds of the promotion gate, the replay of an earlier operation by its id, and audit entries inside the sagas (the chain has its own model).
- Timestamps, error categories, verification times, chunk counts and content hashes of job and run rows, and the uniqueness of operation ids.
- Two sessions that write to the publication tables at the same time: their calls are taken one after the other. Interleaving is modelled for the leases.
- Direct transitions of a generation to ACTIVE or SUPERSEDED, and `activate_curated_version`: they bypass the guarded switches and no service calls them.
- Runs.CallKeepsInv: excludes these direct transitions by `Guarded`.
- `mark_index_job_indexed` is the job step to INDEXED, without the hash and the chunk count that it also records.
- Creating versions, changes and runs, and the walk of a publication run through its statuses, are modelled on values only, in `RepositorySpec`. `publication/runner.py` is not part of this model.
- The Vault path of a note is taken as its canonical path, and users do not edit recycled or published files while a command runs.
- Answers that are generated while a deletion runs: the schedules are sequential. A service without an answer store purges nothing.
- The schema version of a generation, and a chunker that cuts one version differently under the same version string.
- Lifecycle.LifecycleService.Rebuild: visits the notes in any order, and an embedding that fails is a failing index write.
- The YAML frontmatter, lineage and provenance checks of the renderer, and the hash of the artifact. The search for unsafe Markdown is a parameter of `Curation.Render`.
- Claims whose value is not a string: the value is taken as the text that it is printed as.
- Quality and sensitivity are their ranks, and chunk ids, note ids and generation metadata of a chunk are left out.
- Sources as a whole: versions, blocks, changes and canonical addresses (which follow the paths) of ingested sources. `Ingestion` models the live locations.
- Ingestion.AnyOrderIsSafe: does not model the refusals of a step for its versions, such as an existing version that is not reusable or a deletion without a captured version (`src/trustworthy_kb/ingestion/service.py:299-303`, `src/trustworthy_kb/ingestion/service.py:640-641`).
- Ingestion.PlanningReachesFixedPoint: takes it as given that the contents become the newest parsed versions, because reactivating an older version changes the current version and not the newest one.
- Planner.PlanIngestion: takes source ids as distinct, because they are the primary key of the locations it reads (`src/trustworthy_kb/persistence/ingestion_tables.py:106-110`), and entry paths as distinct, because `build_manifest` refuses others (`src/trustworthy_kb/ingestion/manifest.py:76-81`).
- Repair.OnePassConverges: takes the publications of a pass as apart: no two share a version, or a chunk, within one generation.
- The anchors of parsed Markdown: `Diff.OrderDoesNotMatter` takes them as unique, as the table does.
- The primary key of a lease row is taken as its scope and key, which are unique.
- JSON canonicalisation and SHA-256: `AuditLog` takes the hash as a function of the covered fields, injective where the lemma says so.
- Embeddings: an embedding of the wrong shape is a failing embedding.
- Language models, retrieval, evaluation, governance policy, web and command-line code, settings and migrations.
