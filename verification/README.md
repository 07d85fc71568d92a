# Job pipeline: lease protocol, planner, slots and content checks

A Dafny model of `job_pipeline` and of the pure cores it rests on, with proofs.

Concurrent workers take jobs from a shared table. A worker claims a job, stores the posting's
content, merges duplicates, advances the job's phase, has a model judge it, and either hands it
to the extraction stage, completes it or releases it. Each of these is one transaction; between
any two of them other workers, reapers, observers and reprocess commands may run, and the worker
may crash. No lock holds this together: only updates guarded by `current_attempt_id`, attempt
rows that are written once, and a forest of merges.

## How the model is built

- `Models`, `Policy`: rows, columns, retry policy. A table whose rows are never deleted is a
  sequence indexed by id.
- `Transactions`: what each transaction does to the database, as a function. A transaction
  commits rows and a value, or raises and changes nothing.
- `Store`: the repositories as a class whose tables are updated in place, statement by statement,
  with rollback. Every method is proved equal to its function in `Transactions`.
- `Workers`, `Runner`: `process_job` cut at its awaits. `Workers.Step` is the program counter as a
  function; `Runner` is the worker object that runs it on a `Store`, proved equal to it, and
  `Runner.Process` drives it to its end.
- `Invariants`, `Sources`, `Leases`, `Steps`, `Budget`, `System`: the invariant that relates every
  worker's locals to the store, and that every event keeps it.
- `Guarantees`, `Lifetimes`, `Constraints`: what follows for every reachable state and every run, from an empty
  store, for any number of workers, any interleaving, crashes and exceptions anywhere, and any reaper cutoff.
- `Deeds`, `Commands`: what a worker's steps come to, with others at work in between, and what reapers,
  reprocess commands and observers do, told from the inputs and the rows alone.
- `Observing`, `Observer`, `Planner`, `Dispositions`: observation, the two walks of the merge forest,
  the chunked queries, and what a run reports.
- `Slots`: the nested semaphores under every schedule.
- `Texts`, `Technologies`, `Extraction`, `Grounding`, `Audit`: what the two leaves accept and what
  the independent auditor says about it; `Results`, `Verdicts`, `Walks`: what an accepted result and
  an accepted verdict promise by themselves, and what the auditor reads of them.
- `FrameGate`, `FrameDecisions`, `FrameWitness`: what a page and its frames come to, and when the frames
  need not be captured.
- `Paging`: the Coveo search loop.
- `Runs`: folds over events, used by `System` and `Guarantees`.

## Findings

- A worker that holds its lease never meets an error the pipeline raises itself
  (`Guarantees.HolderNeverFailsByItself`). The same proof shows that the branch of
  `_run_eligibility` that resumes from an earlier decision (src/job_pipeline/runner/worker.py:559-593)
  is dead for a lease holder in a store that started empty: whatever sends a job back to fetch or
  eligibility has first retired its decisions.
- The unguarded `finish` in `_skipped` never writes anything (`Guarantees.FinishingIsExact`).
- A blank evidence quote such as `" "` passes the eligibility schema (one character) and its
  validator (it normalizes to the empty string), and the auditor then calls the row invalid. An
  accepted decision is clean exactly when it has no blank quote (`Audit.AcceptedDecisionIsClean`,
  `Audit.BlankQuotePasses`).
- An ineligible verdict can stand without a single quoted signal. The schema asks for quotes where a list
  of countries has entries (src/job_eligibility/schema.py:50-70), and the validator takes an empty list for
  one that excludes Costa Rica (src/job_eligibility/validate.py:101-103). That is the only way
  (`Verdicts.IneligibleIsShownExactly`, `Verdicts.EmptyListExcludes`).
- The frame gate is not always right. With the gate shut, a page whose `validThrough` is past and whose
  main text has no closure phrase can still depend on its frames, and only such a page can
  (`FrameGate.GateIsRightExactly`); with frames that keep enough text of their own, exactly those whose
  main text is short as well (`FrameGate.GateIsSoundExactly`). `FrameWitness.StaleStubTakesFrame` is such a
  page: it is left closed although one long open frame would have had it accepted.
- `build_search_body` documents that paging advances by the page size; the loop advances by the number
  of records received (src/job_discovery/extraction/ats/coveo.py:264-265, 585). The model follows the
  loop, and that is what makes short pages gap-free.
- With a retry limit of 0 a claimed job is still tried once; `Budget.Tries` counts it as one.

## Model

| member | source | states |
|---|---|---|
| Models.ScalarOneIsUnique | src/job_pipeline/persistence/decisions_repo.py:246-254 | Reading "the one row" raises only if two rows qualify; otherwise it finds the only one, or none. |
| Policy.NextState | src/job_pipeline/policy.py:121-136 | A due time is set exactly for a retry, one back-off later for every attempt made; a retry stays within the budget; a job is unavailable exactly for a terminal category, and otherwise failed. |
| Policy.FailureLeadsTo | src/job_pipeline/policy.py:103-136 | From the failure alone: a retry if and only if it is neither a missing checkpoint nor a terminal acquisition, the count is below the limit, and below two for an unclassified error; unavailable if and only if it is a terminal acquisition. |
| Policy.RestsAtTheFirstStop | src/job_pipeline/policy.py:121-136 | A job that only ever fails rests at the first attempt that exhausts the limit, is hopeless, or is at least the second to fail unclassified. |
| Stores.Store.ClaimAndStart | src/job_pipeline/persistence/attempts_repo.py:57-114 | The whole new database: one attempt row, started at the moment of the claim, and the lease on it, or nothing (`Deeds.ClaimStarts` tells it by rows). Its ownership error cannot arise. |
| Stores.Store.FinishOwnedAttempt | src/job_pipeline/persistence/finalize.py:14-47 | The attempt ends once, and only if it is unfinished and belongs to the job; otherwise it raises. |
| Stores.Store.Finish | src/job_pipeline/persistence/attempts_repo.py:146-182 | Ends an attempt only if it has not ended; asks for no ownership. |
| Stores.Store.StoreCheckpoint | src/job_pipeline/persistence/contents_repo.py:92-135 | Content is stored once a hash and job, whoever asks; the pointer moves only under the lease. |
| Stores.Store.AdvancePhase | src/job_pipeline/persistence/jobs_repo.py:208-227 | The phase moves only under the lease, and nothing else does. |
| Stores.Store.Release | src/job_pipeline/persistence/jobs_repo.py:230-282 | Status, phase and due time change together with the end of the attempt, or not at all; a due time without retry raises. |
| Stores.Store.MergeInto | src/job_pipeline/persistence/jobs_repo.py:285-328 | The job is flipped first and its sources follow only then: duplicates dropped, the rest handed over. |
| Stores.Store.MergeDuplicate | src/job_pipeline/persistence/jobs_repo.py:371-455 | The younger of two duplicates merges into the older; a partner in progress is left alone; a raise undoes all of it (`Deeds.DuplicatesMerge` tells it by rows). |
| Stores.Store.HandOffToExtraction | src/job_pipeline/persistence/decisions_repo.py:54-134 | Under lease and content: job released to extraction with a fresh budget, earlier decisions retired, one eligible decision current, attempt ended; or a rollback. |
| Stores.Store.AcceptDecision | src/job_pipeline/persistence/decisions_repo.py:137-199 | Under lease and content: job completed, one decision current, attempt ended; or nothing. |
| Stores.Store.AcceptResult | src/job_pipeline/persistence/results_repo.py:50-110 | Under lease and content: job completed, one result current, attempt ended; or nothing. |
| Stores.Store.Canonical | src/job_pipeline/persistence/jobs_repo.py:125-136 | The walk ends on any table; on a merge forest it ends at the canonical job and raises neither error. |
| Stores.Store.ResolveKeys | src/job_pipeline/persistence/jobs_repo.py:101-139 | Every key gets its job, appended if new, and its canonical target. |
| Stores.Store.AddSources | src/job_pipeline/persistence/jobs_repo.py:141-160 | Exactly the (job, URL) pairs that are missing are added. |
| Stores.Store.Observe | src/job_pipeline/persistence/jobs_repo.py:86-166 | On a merge forest it never raises, its snapshot keys are those of the canonical jobs, new and reseen add up to the distinct keys, and it never reports more jobs than keys; an error rolls back. |
| Stores.Store.WalkMerges | src/job_pipeline/persistence/jobs_repo.py:741-749 | The second, read-only walk reaches the same canonical job, with neither error on a forest. |
| Stores.Store.CanonicalKeys | src/job_pipeline/persistence/jobs_repo.py:728-751 | The read-only resolution names the canonical job of every known key and skips unknown keys. |
| Stores.Store.ReapStale | src/job_pipeline/persistence/runs_repo.py:81-135 | Selecting first and then updating job by job has the effect of one simultaneous update of exactly the stale leases of the stage. |
| Stores.Store.FindCheckpoints | src/job_pipeline/persistence/jobs_repo.py:591-631 | The checkpoint of every selected job, or the error of the first, in id order, that lacks one. |
| Stores.Store.PrepareReprocess | src/job_pipeline/persistence/jobs_repo.py:566-670 | All selected jobs are rewound and their verdicts and results retired, or the first fault is raised and nothing changes (`Commands.PreparationRestarts` and `Commands.PreparationRetires` tell it by rows). |
| Runners.Runner.Step | src/job_pipeline/runner/worker.py:442-822 | The worker object, run on the store itself, takes exactly the step that the system-wide theorems, those of `Deeds` among them, are about. |
| Runners.Runner.Process | src/job_pipeline/runner/worker.py:736-822 | A worker alone with a sound store ends within seventeen steps whatever fails, leaves the store sound, and has written what it reports; without an exception it reports a status exactly when the job was claimable, and otherwise changes nothing. |
| Invariants.ClaimKeepsSound | src/job_pipeline/persistence/attempts_repo.py:57-114 | A claim keeps leases, rows, contents, verdicts and results consistent. |
| Invariants.StoreKeepsSound | src/job_pipeline/persistence/contents_repo.py:92-135 | Storing content keeps every job pointing at its own content and hashes unique a job. |
| Invariants.HandOffKeepsSound | src/job_pipeline/persistence/decisions_repo.py:54-134 | A hand-off leaves the job with one current eligible decision on its current content. |
| Invariants.AcceptDecisionKeepsSound | src/job_pipeline/persistence/decisions_repo.py:137-199 | A decision leaves status, verdict and content in agreement, with one current decision. |
| Invariants.AcceptResultKeepsSound | src/job_pipeline/persistence/results_repo.py:50-110 | A result leaves the job completed with one current result on its current content. |
| Invariants.ReleaseKeepsSound | src/job_pipeline/persistence/jobs_repo.py:230-282 | A release keeps all invariants, in whatever status the row then agrees with its current decision: retry, failed, unavailable, or that of a verdict that stands. |
| Invariants.DuplicateExactly | src/job_pipeline/persistence/jobs_repo.py:391-438 | From the rows: a job is the proven duplicate if and only if it is the only live one of the company that ever had the requisition, and the newest titles of both are present and equal, or else the only live one that ever had the fingerprint. |
| Invariants.MergeKeepsSound | src/job_pipeline/persistence/jobs_repo.py:285-328 | A merge keeps the forest acyclic, inside one company and pointing to older jobs. |
| Invariants.ReapKeepsSound | src/job_pipeline/persistence/runs_repo.py:81-135 | Reaping with any cutoff, of live workers too, keeps all invariants. |
| Invariants.PrepareKeepsSound | src/job_pipeline/persistence/jobs_repo.py:566-670 | Rewinding jobs keeps all invariants: what is left to extraction still has its eligible decision on its own content. |
| Sources.MergeKeepsSources | src/job_pipeline/persistence/jobs_repo.py:285-328 | After a merge the sources are still exactly the sightings under the new canonical jobs. |
| Sources.ObserveKeepsSources | src/job_pipeline/persistence/jobs_repo.py:86-166 | After an observation the sources are exactly the earlier sightings and the new ones. |
| Leases.WorkerStable | src/job_pipeline/runner/worker.py:442-822 | Whatever anybody else does between two steps of a worker, what the worker relies on about the store still holds. |
| Steps.StepKeepsWorker | src/job_pipeline/runner/worker.py:442-822 | A worker's own step keeps its locals and the store in agreement. |
| System.RunKeepsInv | src/job_pipeline/runner/scheduler.py:198-307 | Every run, of any events in any order, keeps the whole invariant. |
| Guarantees.LeaseExclusive | src/job_pipeline/persistence/attempts_repo.py:73-114 | In every reachable state a job is in progress exactly when it holds a lease; a lease is an attempt of that job and of its phase's stage; an attempt is unfinished exactly when it is its job's lease. |
| Guarantees.FinishedForever | src/job_pipeline/persistence/finalize.py:14-47 | Over any run a finished attempt never changes and a lost lease is never held again. |
| Guarantees.Fencing | src/job_pipeline/persistence/jobs_repo.py:230-282 | A step of a worker without its lease changes nothing but for at most one added content row. |
| Lifetimes.FencedForever | src/job_pipeline/persistence/jobs_repo.py:230-282 | Once the lease is lost, at any later time of any run, the worker still has that attempt, still has no lease, and its step changes nothing but for at most one added content row. |
| Lifetimes.ContentAddedOnce | src/job_pipeline/persistence/contents_repo.py:92-135 | Over all of a worker's life its steps add at most one content row, and none once it is past storing. |
| Lifetimes.UndisturbedWorkersReport | src/job_pipeline/runner/worker.py:736-822 | Whatever everybody else does, a lease holder that no crash, exception or far enough reaper of its stage stops has reported a status after seventeen steps of its own. |
| Guarantees.NonInterference | src/job_pipeline/persistence/jobs_repo.py:371-455 | No worker's step touches the row, decisions or results of a job leased to another attempt, and such a job loses no source. |
| Guarantees.HolderNeverFailsByItself | src/job_pipeline/runner/worker.py:442-733 | A lease holder never meets a missing source, content, verdict or checkpoint, a duplicate row or an attempt it cannot end, and never skips. |
| Guarantees.FinishingIsExact | src/job_pipeline/runner/worker.py:336-358 | Ending an owned attempt succeeds if and only if the worker holds the lease; a skipping worker's unguarded finish writes nothing. |
| Guarantees.WorkersEnd | src/job_pipeline/runner/worker.py:736-822 | Every step brings a worker nearer its end, in at most seventeen steps, whatever fails. |
| Guarantees.ReportsAreRecorded | src/job_pipeline/runner/worker.py:361-379 | A reported status is the outcome written on the worker's own attempt. |
| Guarantees.ReportingEndsTheJob | src/job_pipeline/runner/worker.py:382-404 | The step that reports a status releases the job in that status, phase and budget, and ends exactly the attempt that held the lease. |
| Deeds.ClaimStarts | src/job_pipeline/persistence/attempts_repo.py:57-114 | A worker claims exactly when its job waits for its stage and trigger and is due; the attempt then starts at the time of the claim and the count rises by one; otherwise nothing changes and it reports a skip. |
| Deeds.FreshLeaseIsSafe | src/job_pipeline/persistence/runs_repo.py:90-104 | From a claim on, whatever others do, no reaper whose cutoff is at or before the moment of the claim takes that lease, and the job's row stays as the claim left it. |
| Deeds.WorkStartsAtThePhase | src/job_pipeline/runner/worker.py:774-795 | After its claim a worker starts at the phase the job is in: fetch at the sources, eligibility at the content, extraction at the posting. |
| Deeds.ReadingLeadsOn | src/job_pipeline/runner/worker.py:454-571 | A holder's reads write nothing and lead on: from its sources to the acquisition, from its own current content to the model, and to the extraction from the content of its current eligible decision. |
| Deeds.AcquiredIsStored | src/job_pipeline/persistence/contents_repo.py:92-135 | The posting that was acquired becomes the job's current content, in a new last row unless the job had that hash. |
| Deeds.DuplicatesMerge | src/job_pipeline/persistence/jobs_repo.py:371-455 | With a proven duplicate, in the sense of the rows, the younger job is merged into the older and nothing else about any job changes, except that a younger partner in progress is left alone; without one nothing changes. |
| Deeds.FetchedGoesToEligibility | src/job_pipeline/persistence/jobs_repo.py:208-227 | A posting that stays goes on to eligibility on its own content. |
| Deeds.JudgedAsTold | src/job_pipeline/runner/worker.py:603-650 | The validated verdict of the judging step is what two undisturbed steps write: eligible is handed to extraction with a fresh count, ineligible and unknown complete as such, and the one current decision, on the content that was judged, says so. |
| Deeds.ExtractedIsRecorded | src/job_pipeline/runner/worker.py:683-733 | An extraction that validates completes the job, with a current result of this attempt on the content that was read. |
| Deeds.ExceptionIsNoted | src/job_pipeline/runner/worker.py:796-815 | An exception inside the work writes nothing and leads to settling that very failure; only a returned acquisition failure is settled outside the handler. |
| Deeds.FailureIsSettled | src/job_pipeline/runner/worker.py:407-439 | A failing holder's job ends by the policy on its own attempt count: retried, one back-off later a try, if and only if the failure is neither a missing checkpoint nor hopeless and the count is below the limit, and below two where unclassified; unavailable if and only if hopeless; else failed; always where it stood. |
| Commands.ReapingInterrupts | src/job_pipeline/persistence/runs_repo.py:81-135 | A reaper ends as interrupted exactly the attempts whose lease is of its stage and older than its cutoff, and leaves their jobs waiting, due at once, with everything else kept; no other row changes. |
| Commands.PreparationCommits | src/job_pipeline/persistence/jobs_repo.py:577-631 | A preparation commits if and only if every requested job exists, is neither at work nor merged, and has what the phase starts from. |
| Commands.RefusalTells | src/job_pipeline/persistence/jobs_repo.py:577-631 | A refusal names the first thing wrong: an unknown job, one in progress, one merged, and only then a missing checkpoint of the kind that was asked for. |
| Commands.PreparationRestarts | src/job_pipeline/persistence/jobs_repo.py:646-671 | Every requested job then waits at the phase that was asked for, from nothing, its own content or that of its eligible decision, with a count of zero, and is claimable from that moment by that stage's reprocess run and no other; every other row is unchanged. |
| Commands.PreparationRetires | src/job_pipeline/persistence/jobs_repo.py:632-645 | Preparing for fetch or eligibility retires the requested jobs' decisions, any preparation their results, and nothing else. |
| Commands.ObservingAddsJobs | src/job_pipeline/persistence/jobs_repo.py:86-166 | An observation leaves every job as it is and adds new ones for its own keys only, claimable by eligibility's scheduled run and no other. |
| Commands.EveryKeyHasItsJob | src/job_pipeline/persistence/jobs_repo.py:101-124 | After an observation each of its keys has a job of the company, and no key has two. |
| Commands.SnapshotNamesCanonical | src/job_pipeline/persistence/jobs_repo.py:728-751 | The snapshot of some keys names exactly the canonical jobs of their jobs, each of them a job of the company that is not merged away. |
| Guarantees.SourcesAreSightings | src/job_pipeline/persistence/jobs_repo.py:141-160 | After any run the sources are exactly what was ever observed, each under the canonical job of its key and once; a job owns a source exactly when it is not merged. |
| Guarantees.MergesAreForest | src/job_pipeline/persistence/jobs_repo.py:301-315 | Merged means having a parent; parents are older and of the same company; every chain ends at a live job, which is the job itself where it is not merged and its parent's where it is. |
| Guarantees.VerdictsAreCurrent | src/job_pipeline/persistence/models.py:3-7 | At most one current decision and result a job; phase and status agree with the current decision on the current content; a current result only on completed or merged jobs. |
| Guarantees.LeasesAreRecoverable | src/job_pipeline/persistence/runs_repo.py:81-135 | A reaper takes exactly the leases of its own stage older than its cutoff, and leaves each such job at once claimable by that stage, at the phase, on the content and with the count it had. |
| Guarantees.ClaimableOnce | src/job_pipeline/persistence/jobs_repo.py:169-184 | A waiting job is claimable, once due, by exactly one stage and trigger; any other job by none. |
| Guarantees.BudgetHolds | src/job_pipeline/policy.py:121-136 | Since a job was last prepared it was claimed in each stage at most as often as the limit allows plus its interruptions there; the attempt count is the number of claims of the stage; with both budgets spent the job rests. |
| Guarantees.AttemptsAreBounded | src/job_pipeline/persistence/attempts_repo.py:73-86 | Over a whole run that never reprocesses a job, its attempts of each stage are bounded by the limit plus its interruptions there. |
| Budget.ClaimsAreAttempts | src/job_pipeline/persistence/models.py:194-236 | What the bounds count as claims and interruptions is the number of attempt rows of the job and stage, and of those that ended as interrupted. |
| Constraints.ConstraintsAlwaysHold | src/job_pipeline/persistence/models.py:87-296 | After any run every CHECK, UNIQUE and foreign key constraint on jobs, sources, contents, attempts, decisions and results holds. |
| Observing.DistinctAddsTheSame | src/job_pipeline/persistence/jobs_repo.py:97-124 | Looking up each distinct key once adds the same jobs as looking up every key. |
| Observing.DistinctAreFirsts | src/job_pipeline/persistence/jobs_repo.py:97-97 | The distinct keys are the first occurrences, all of them, in their order. |
| Observing.ObservationAgrees | src/job_pipeline/persistence/jobs_repo.py:728-751 | Resolving the observed keys later names the jobs the observation reported, until something is merged. |
| Observing.ObservingTwiceAddsNothing | src/job_pipeline/persistence/jobs_repo.py:86-166 | Observing the same batch again adds no job and no source. |
| Observer.KeyedUrls | src/job_pipeline/runner/observe.py:56-76 | Every URL is either keyed, in order, or counted as malformed. |
| Observer.KeyedInOrder | src/job_pipeline/runner/observe.py:56-76 | One pair for every URL that has a key, with that key, in the order of the URLs. |
| Observer.ObserveAll | src/job_pipeline/runner/observe.py:79-111 | With the companies observed one right after the other: the summary's snapshot is that of all listings on the final table, and each company's counts are its URLs, those without a key, the jobs added, the distinct keys reseen and the canonical jobs; collapsed is never negative. |
| Observer.ReadSnapshotKeys | src/job_pipeline/runner/observe.py:114-131 | The read-only snapshot of the listings. |
| Observer.ObserveThenRead | src/job_pipeline/runner/observe.py:79-131 | Reading the snapshot after observing gives exactly the snapshot keys the observation returned. |
| Planner.SnapshotChunks | src/job_pipeline/persistence/jobs_repo.py:458-467 | The chunks ask for exactly the snapshot's keys, each in one chunk only, at most the chunk size at a time. |
| Planner.ListWork | src/job_pipeline/persistence/jobs_repo.py:470-497 | The chunked list is the whole table filtered at once, in id order, cut at the limit. |
| Planner.OldestAreListed | src/job_pipeline/persistence/jobs_repo.py:470-497 | What is listed is claimable and in the snapshot, in id order and within the limit; what is left out is left out for the limit's sake and younger than all that is in. |
| Planner.CountWork | src/job_pipeline/persistence/jobs_repo.py:754-773 | The chunk counts add up to the length of the uncut list. |
| Planner.Preview | src/job_pipeline/cli/preview.py:76-78 | The preview promises as many jobs as the run then lists, whatever the limit. |
| Dispositions.StageDispositions | src/job_pipeline/persistence/jobs_repo.py:776-798 | Each count is the number of snapshot jobs in that disposition, chunking notwithstanding. |
| Dispositions.DispositionsAreTold | src/job_pipeline/persistence/jobs_repo.py:776-798 | A job counts under its status, and one that waits for another try under the stage of its phase and whether its time has come. |
| Dispositions.NothingIsLost | src/job_pipeline/runner/scheduler.py:44-118 | For each stage the non-work, waiting-retry, in-progress, waiting and due counts add up to the whole snapshot. |
| Dispositions.WorkIsWhatIsDue | src/job_pipeline/runner/scheduler.py:44-118 | A stage's scheduled work and its flagged reprocess work together are its waiting and due jobs, in every reachable state. |
| Slots.WithinNests | src/job_pipeline/runner/worker.py:319-333 | An `async with` entered while holding only shallower slots nests correctly and gives back exactly its own slot. |
| Slots.ProgramsNest | src/job_pipeline/runner/worker.py:319-333 | Whatever way a job goes, it asks only for slots deeper than those it holds, and gives all of them back. |
| Slots.AwaitsAreGuarded | src/job_pipeline/runner/worker.py:319-333 | An acquisition is awaited with the HTTP slot and its host's slot in hand, and the browser's when it renders; a completion with the model slot; each with the job's own slot and no other. |
| Slots.EveryAwaitIsGuarded | src/job_pipeline/runner/scheduler.py:277-288 | At any point of any schedule, a job that awaits something holds just the slots that its errand needs for it. |
| Slots.SomebodyCanStep | src/job_pipeline/runner/worker.py:319-333 | With every capacity at least one, an unfinished job always leads to a job that can go on. |
| Slots.NoScheduleGetsStuck | src/job_pipeline/runner/scheduler.py:277-288 | For any jobs, hosts and schedule: no more jobs hold a slot than its own limit, claimed jobs never exceed the claim ceiling, every schedule ends, and where none can go on all are done with every permit back. |
| Texts.NormalizersAgree | src/job_eligibility/validate.py:36-47 | The line-keeping eligibility normalizer, split and joined again, equals the auditor's and the extractor's normalizer on every text. |
| Texts.FoldedWords | scripts/verify_grounding.py:30-32 | Case folding a text folds its words and moves no word boundary. |
| Technologies.Normalize | src/job_extractor/normalize.py:45-74 | One group a lookup key, in order of first mention, with its mentions in order, the entry of the first and the highest status. |
| Technologies.GroupingIsPartition | src/job_extractor/normalize.py:45-74 | The groups are a permutation of the mentions, every mention is in one, and a group is required if and only if one of its mentions is, and mentioned if and only if all of them are. |
| Technologies.GroupsShareKeys | src/job_extractor/normalize.py:45-74 | Two mentions share a group exactly when the table knows both under one name, or neither and they fold to the same text. |
| Technologies.GroupIsInOrder | src/job_extractor/normalize.py:45-74 | A group is all the mentions of its technology, each once, in their order. |
| Technologies.GroupIsNamed | src/job_extractor/normalize.py:45-74 | A known technology goes by its one name in the table and by the kind of its first mention there, an unknown one by neither. |
| Technologies.GroupsComeInOrder | src/job_extractor/normalize.py:45-74 | Before any mention of a later group, every earlier group has been mentioned. |
| Extraction.InRequiredSection | src/job_extractor/validate.py:82-93 | True exactly when the first line with the quote is, or comes after, a required heading with no preferred heading in between. |
| Extraction.IsRequiredTrace | src/job_extractor/validate.py:96-111 | True exactly when some quote of the mention repeats a required qualification's quote, has a cue, or stands in a required section. |
| Extraction.Validate | src/job_extractor/validate.py:114-207 | Raises exactly when the title or more than a third of the extracted facts are ungrounded, with their missing quotes in order; otherwise keeps each grounded fact, fails the others, adjusts location, preferred qualifications, summary and technologies, and notes every change in order. |
| Extraction.RejectionNamesMissing | src/job_extractor/validate.py:133-144 | A rejection names exactly the quotes of extracted facts that the posting does not have. |
| Results.RejectedExactly | src/job_extractor/validate.py:133-135 | A response is rejected if and only if its title has a missing quote, or three times the number of stated fields with one exceeds the number of stated fields. |
| Results.TracedExactly | src/job_extractor/validate.py:82-111 | A mention is shown to be required if and only if a quote of it reads like one of a required qualification, or has a cue, or is on a first line whose last heading is a required one. |
| Results.ResultIsConsistent | src/job_extractor/validate.py:146-199 | From the result alone: a stated place has its text, no preferred qualification repeats a required one, a stated summary names only what the posting names, and every required mention is traced. |
| Results.KeptExactly | src/job_extractor/validate.py:114-207 | A field stays as it was given if and only if all its quotes are in the posting and it meets what its neighbours ask; else it fails, a quoted summary becomes uncertain, and of quoted mentions only untraced required ones are lowered. |
| Results.NotesTellChanges | src/job_extractor/validate.py:114-207 | A note is about a field if and only if the result has another fact there than the response. |
| Grounding.ValidateEligibility | src/job_eligibility/validate.py:125-148 | Raises on the first ungrounded quote and only then; otherwise gives the response back with a verdict its signals support, and one note exactly where that is another verdict. |
| Verdicts.EligibleIsShown | src/job_eligibility/validate.py:85-96 | A grounded response keeps an eligible verdict if and only if some signal includes Costa Rica and has quotes that are in the posting. |
| Verdicts.IneligibleIsKept | src/job_eligibility/validate.py:99-122 | It keeps an ineligible verdict if and only if some signal with such quotes excludes it, or the complete list of countries is empty and unquoted. |
| Verdicts.IneligibleIsShownExactly | src/job_eligibility/validate.py:99-122 | A kept ineligible verdict lacks a quoted signal if and only if that list is empty and unquoted and nothing else speaks against the posting. |
| Verdicts.EmptyListExcludes | src/job_eligibility/schema.py:50-70 | A concrete response with an empty list and no signal quoted is accepted as ineligible on every posting that has its one quote. |
| Grounding.CheckRows | scripts/verify_grounding.py:64-113 | One miss for every ungrounded quote read and every row that cannot be read to its end, in order. |
| Grounding.ReportsMean | scripts/verify_grounding.py:64-113 | The report blames a row for a quote exactly when the row has it and the posting does not, calls a row invalid exactly when it cannot be read, and is empty exactly when all rows are clean. |
| Audit.ValidatedIsSourced | src/job_extractor/validate.py:114-207 | Every fact of a validated result has its own and its nested quotes in the posting. |
| Audit.AcceptedResultIsClean | scripts/verify_grounding.py:35-52 | Whatever the extractor accepts, the auditor's walk over the whole stored tree finds no miss. |
| Walks.WalkReads | scripts/verify_grounding.py:35-52 | The walk breaks off if and only if some evidence anywhere in the tree is not an array of nonblank strings, and otherwise yields exactly the quotes of every evidence array in it. |
| Walks.AuditReadsEverything | scripts/verify_grounding.py:35-52 | Of an accepted result the auditor checks every quote of every fact, nested ones included, and no other. |
| Audit.NothingStatedIsAccepted | src/job_extractor/validate.py:133-144 | A response that states nothing is accepted unchanged on every posting: with no extracted fact there is no third to exceed. |
| Audit.AcceptedDecisionIsClean | scripts/verify_grounding.py:55-61 | An accepted eligibility decision is clean if and only if none of its evidence quotes is blank. |
| Audit.BlankQuotePasses | src/job_eligibility/validate.py:125-130 | A concrete response that meets the schema, that the leaf accepts on every posting, and that the auditor calls invalid. |
| FrameGate.DeduplicateParagraphs | src/job_pipeline/content/ladder.py:39-48 | The loop keeps the first paragraph of each key, in order. |
| FrameGate.DeduplicatedAreFirsts | src/job_pipeline/content/ladder.py:39-48 | What is kept are the lines that read as something and as no earlier line does, in order. |
| FrameGate.DeduplicatedIsUnion | src/job_pipeline/content/ladder.py:39-48 | The union has exactly the lines of its parts that are not blank, each once. |
| FrameGate.UnionLooksClosed | src/job_pipeline/content/text.py:77-80 | A de-duplicated union looks closed exactly when one of its parts does. |
| FrameGate.SelectRendered | src/job_pipeline/content/ladder.py:146-258 | The loop over frames selects what the page, the best qualifying frame and the first closed frame determine, and leaves one trace a frame with the selected one marked. |
| FrameGate.BestIsFirstUnbeaten | src/job_pipeline/content/ladder.py:209-217 | The chosen frame is the one that no candidate beats, by structured data, then length, then order, and that beats every earlier one. |
| FrameGate.AcceptedIsOpen | src/job_pipeline/content/ladder.py:146-258 | Accepted text never looks closed, tells by its method where it came from, and with a chosen frame keeps every line of the page's main text. |
| FrameDecisions.DecisionMeans | src/job_pipeline/content/ladder.py:78-126 | A page or frame is closed for its date if and only if that is past and its text, the body at hand or too short a body says so too; else it is closed or accepted, by its text, if and only if its description or main text has 400 characters; what is accepted has its own text, title, identifier and source. |
| FrameDecisions.CandidatesQualify | src/job_pipeline/content/ladder.py:170-207 | The candidates are exactly the frames with enough text that neither their text nor their date calls closed, in order. |
| FrameDecisions.ChosenIsPreferred | src/job_pipeline/content/ladder.py:209-217 | The chosen frame has structured data if any candidate has, among its kind the longest text, and among those the lowest index. |
| FrameDecisions.FirstShutCloses | src/job_pipeline/content/ladder.py:189-195 | Without a frame to take, the posting is closed for the reason of the first frame that looks shut, and by none if none does. |
| FrameDecisions.TraceTells | src/job_pipeline/content/ladder.py:180-207 | A frame's trace says qualifying, closed or short exactly as its own text and date decide. |
| FrameDecisions.FrameIsTaken | src/job_pipeline/content/ladder.py:218-258 | A frame is taken if and only if one qualifies, the page itself has too little text, none of it looks closed, and a past date has a long enough frame against it; the content then joins both, told by the frame where it has structured data and by the page where not. |
| FrameDecisions.NoAnswer | src/job_pipeline/content/ladder.py:218-229 | There is no answer if and only if the page has too little text and no past date, no frame qualifies and none looks shut. |
| FrameDecisions.GateOpens | src/job_pipeline/content/ladder.py:342-362 | The gate opens exactly for a page with too little text and no past date, and for one with a past date and a short main text that nothing on it calls closed. |
| FrameGate.GateIsExact | src/job_pipeline/content/ladder.py:342-362 | For given frames: with the gate shut, capturing them anyway changes the outcome if and only if the page is expired and not closed by its text, and page and chosen frame disagree on having enough text. |
| FrameGate.GateIsSound | src/job_pipeline/content/ladder.py:342-362 | With frames that keep enough text, and but for a doubtful page with a short main text, a shut gate means that no frames change the outcome. |
| FrameGate.GateIsRightExactly | src/job_pipeline/content/ladder.py:342-362 | From the page alone: with the gate shut, no frames at all can change the outcome if and only if the page is not both expired and without a closure phrase in its main text. |
| FrameGate.GateIsSoundExactly | src/job_pipeline/content/ladder.py:342-362 | With frames that keep enough text, the same holds if and only if the page is not expired with a short main text without a closure phrase. |
| FrameDecisions.OpenGateIsNeeded | src/job_pipeline/content/ladder.py:342-362 | It never opens for nothing: whatever the page, behind an open gate one long open frame changes the outcome. |
| FrameWitness.StaleStubTakesFrame | src/job_pipeline/content/ladder.py:342-362 | A concrete page, with one of the eight closure phrases, that the gate calls closed, and a frame that would have had it accepted. |
| Paging.ProcessPage | src/job_discovery/extraction/ats/coveo.py:560-583 | After a page the jobs are the first occurrences of the usable click URIs received so far. |
| Paging.UrisAreUsable | src/job_discovery/extraction/ats/coveo.py:560-583 | One URI for every record in the region that has one, in the order of the records. |
| Paging.Extract | src/job_discovery/extraction/ats/coveo.py:536-605 | Against any server with a fixed list it processes a prefix without gap or repeat, emits each usable URI in it once and in order, and stops early only without a count, with the count satisfied or at the page cap; with full pages and a true count it covers the whole list or the first thousand records. |

## Left out

- HTTP, browser, model calls, HTML extraction and JSON encoding: their outcomes are arbitrary inputs of a step.
- SQL and sessions: each transaction is atomic and serialized; a read outside a transaction is a step of its own.
- Clocks: any natural number; nothing proved needs them to agree.
- Columns that no decision reads: first and last seen times, `updated_at`, token counts, error texts, model names, reasons. The check that a job changed while it was being prepared compares `updated_at` inside one transaction, where it cannot fail.
- Which source URL a worker fetches, and whether it renders at once because of its last error: the posting acquired is arbitrary anyway.
- Reuse of source ids after deletion: ids of sources always grow in the model.
- Postings' titles are held in their comparable form, so the case folding and space collapsing of titles is not modelled.
- Legacy `combined` rows, the unknown-company branch of `process_job` and a missing HTTP client: a run starts from an empty store and every selected job's company is known.
- Repository helpers that no worker calls: `claim`, `mark_merged`, the two `invalidate_current`, `attempts_repo.start`, `decisions_repo.accept`, `results_repo.accept`, `contents_repo.store`, and `release` or `merge_duplicate` without an attempt id.
- Run rows (`start_run`, `finish_run`) and the other counters of `PipelineResult`: sums over lists.
- Any bound on an attempt's age: queueing for slots is not bounded by the timeouts. Safety is proved for every reaper cutoff instead.
- `url_key`: keys are opaque, and it is a parameter that may reject a URL.
- The order in which `_snapshot_chunks` visits companies: the results are proved for every order.
- Duplicate detection reads its candidates through a function rather than through the `EXISTS` query text.
- NFKC is an arbitrary function; case folding is any table that leaves white space alone and makes none (`Texts.Unicode.WellBehaved`).
- Regular expressions of the validators, place names and the version suffix of technologies: uninterpreted tests of a line, a quote, a name or a mention.
- The wording of validation notes: a note says what it is about, and `Audit.AcceptedResultIsClean` holds for every wording.
- The kinds of qualifications, and enumerated values of facts beyond being text.
- `FrameGate` holds a normalized text as its lines and takes normalization of an already normalized text to be the identity; URL, HTTP status, content hash, retrieval time, and the origin and element of a frame are left out.
- Slots.NoScheduleGetsStuck: says nothing of fairness, because a permit goes to any waiter; which job waits how long is not modelled.
- Coveo's request body beyond its offset, token minting and the region test: the test's answer is part of a record.
- The discovery batch, company validators and the other board adapters: not part of this model.
- Run rows in the database constraints: `run_id` and the constraints of `pipeline_runs` are not modelled.
- Observer.ObserveAll: observes the companies with nobody else's transaction in between; a merge that falls between two companies changes which keys are canonical, and the summary then keeps the earlier ones.
- The eligibility response's reason and policy version, which no check reads.
