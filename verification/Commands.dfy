/** What reapers, reprocess commands and observers do to the rows, told from the rows alone. */
module Commands {
  import opened Models
  import opened Policy
  import opened Transactions
  import opened Invariants
  import opened Sources
  import opened Leases
  import opened Steps
  import opened System
  import opened Guarantees
  import opened Observing

  // ---- reaping ----

  /** The lease of job `j` is of this stage and started before the cutoff. */
  predicate LeaseIsOld(db: Db, j: nat, stage: Stage, cutoff: nat) {
    && j < |db.jobs| && db.jobs[j].lease.Some?
    && var a := db.jobs[j].lease.value;
       a < |db.attempts| && db.attempts[a].stage == stage && db.attempts[a].startedAt < cutoff
  }

  /** The job waits for another try where it was, due at once, and has kept everything else. */
  predicate IsInterrupted(was: Job, job: Job, now: nat) {
    && job.status == Retry && job.due == Some(now) && job.lease.None? && !job.reprocess
    && job.phase == was.phase && job.content == was.content && job.attemptCount == was.attemptCount
    && job.company == was.company && job.key == was.key && job.mergedInto == was.mergedInto
  }

  /** A reaper interrupts exactly the jobs whose lease is of its stage and older than its cutoff,
      ends exactly their attempts, as interrupted, and leaves all other rows alone. */
  lemma ReapingInterrupts(s: Sys, stage: Stage, cutoff: nat, now: nat, policy: PipelinePolicy)
    requires Reachable(s, policy)
    ensures var after := Next(s, Reaped(stage, cutoff, now), policy).db;
      && |after.jobs| == |s.db.jobs| && |after.attempts| == |s.db.attempts|
      && after == s.db.(jobs := after.jobs, attempts := after.attempts)
      && (forall j :: 0 <= j < |s.db.jobs| ==>
            if LeaseIsOld(s.db, j, stage, cutoff) then IsInterrupted(s.db.jobs[j], after.jobs[j], now)
            else after.jobs[j] == s.db.jobs[j])
      && (forall a :: 0 <= a < |s.db.attempts| ==>
            var row, j := s.db.attempts[a], s.db.attempts[a].job;
            after.attempts[a] == if LeaseIsOld(s.db, j, stage, cutoff) && s.db.jobs[j].lease == Some(a)
                                 then row.(finish := Some(Finish(Interrupted, None, now))) else row)
  {
    hide JobsOk, ContentsOk, DecisionsOk, ResultsOk, SourcesExact, WorkerOk, DistinctAttempts;
    ReachableInv(s, policy);
    forall j | 0 <= j < |s.db.jobs| ensures LeaseRow(s.db.jobs[j], j, s.db.attempts) {
    }
    forall a | 0 <= a < |s.db.attempts| ensures AttemptRow(s.db.attempts[a], a, s.db.jobs) {
    }
  }

  // ---- reprocessing ----

  /** Decision `d` is the job's current eligible one. */
  predicate IsEligible(db: Db, j: nat, d: nat) {
    d < |db.decisions| && db.decisions[d].job == j && db.decisions[d].current && db.decisions[d].verdict == Eligible
  }

  /** The job can restart from this phase. */
  ghost predicate CanRestart(db: Db, j: nat, from: Phase) {
    && j < |db.jobs| && db.jobs[j].status !in {InProgress, Merged}
    && (from == Eligibility ==> db.jobs[j].content.Some?)
    && (from == Extraction ==> exists d: nat :: IsEligible(db, j, d))
  }

  /** The job waits to be reprocessed from there, with a fresh budget. */
  predicate IsRestarted(was: Job, job: Job, from: Phase, now: nat) {
    && job.status == Retry && job.phase == from && job.attemptCount == 0 && job.due == Some(now) && job.reprocess
    && job.lease.None? && job.mergedInto.None? && job.company == was.company && job.key == was.key
  }

  /** It starts from nothing, from its own content, or from the content it was found eligible on. */
  ghost predicate HasCheckpoint(db: Db, j: nat, from: Phase, content: Option<nat>)
    requires j < |db.jobs|
  {
    match from
    case Fetch => content.None?
    case Eligibility => content.Some? && content == db.jobs[j].content
    case Extraction => exists d: nat :: IsEligible(db, j, d) && content == Some(db.decisions[d].content)
  }

  lemma CheckpointMeans(db: Db, j: nat, from: Phase)
    requires ContentsOk(db) && DecisionsOk(db) && j < |db.jobs|
    requires db.jobs[j].status !in {InProgress, Merged}
    ensures CheckpointFor(db, j, from).Commit? <==> CanRestart(db, j, from)
    ensures CheckpointFor(db, j, from).Commit? ==> HasCheckpoint(db, j, from, CheckpointFor(db, j, from).value)
  {
    EligibleIsRead(db, j);
    forall d: nat ensures IsEligible(db, j, d) <==> EligibleFor(db.decisions, j, d) {
    }
  }

  lemma {:induction false} FaultMeans(db: Db, selected: seq<nat>, from: Phase)
    requires forall k :: 0 <= k < |selected| ==> selected[k] < |db.jobs|
    ensures CheckpointFault(db, selected, from).None? <==>
      forall k :: 0 <= k < |selected| ==> CheckpointFor(db, selected[k], from).Commit?
  {
    hide CheckpointFor;
    if |selected| > 0 {
      FaultMeans(db, selected[..|selected| - 1], from);
    }
  }

  lemma SelectedRestart(db: Db, ids: seq<nat>, from: Phase)
    requires ContentsOk(db) && DecisionsOk(db)
    requires forall j :: j in ids ==> j < |db.jobs| && db.jobs[j].status !in {InProgress, Merged}
    ensures CheckpointFault(db, Selected(db, ids), from).None? <==> forall j :: j in ids ==> CanRestart(db, j, from)
  {
    hide CheckpointFor, CheckpointFault, CanRestart, ContentsOk, DecisionsOk;
    var selected := Selected(db, ids);
    FaultMeans(db, selected, from);
    forall j | j in ids
      ensures CheckpointFor(db, j, from).Commit? <==> CanRestart(db, j, from)
      ensures exists k :: 0 <= k < |selected| && selected[k] == j
    {
      CheckpointMeans(db, j, from);
      assert j in selected;
    }
  }

  /** A preparation commits exactly when every requested job can restart. */
  lemma PreparationCommits(s: Sys, ids: seq<nat>, from: Phase, now: nat, policy: PipelinePolicy)
    requires Reachable(s, policy)
    ensures PrepareReprocess(s.db, ids, from, now).Commit? <==> forall j :: j in ids ==> CanRestart(s.db, j, from)
  {
    hide CheckpointFor, CheckpointFault, PreparedDb, CanRestart, SourcesExact, WorkerOk, DistinctAttempts, LeasesHold;
    hide JobsOk, ResultsOk, ContentsOk, DecisionsOk, Selected;
    ReachableInv(s, policy);
    RestartsKnown(s.db, ids, from);
    if (forall j :: j in ids ==> j < |s.db.jobs| && s.db.jobs[j].status !in {InProgress, Merged}) {
      SelectedRestart(s.db, ids, from);
    }
  }

  /** The checkpoint a job lacks, when it lacks one. */
  lemma LackingMeans(db: Db, j: nat, from: Phase)
    requires ContentsOk(db) && DecisionsOk(db) && j < |db.jobs|
    requires CheckpointFor(db, j, from).Raise?
    ensures CheckpointFor(db, j, from).error
      == if from == Eligibility then NoContentCheckpoint else NoDecisionCheckpoint
    ensures from != Fetch
  {
    EligibleIsRead(db, j);
  }

  lemma {:induction false} FaultIsLacking(db: Db, selected: seq<nat>, from: Phase)
    requires ContentsOk(db) && DecisionsOk(db)
    requires forall k :: 0 <= k < |selected| ==> selected[k] < |db.jobs|
    requires CheckpointFault(db, selected, from).Some?
    ensures from != Fetch && CheckpointFault(db, selected, from).value
      == if from == Eligibility then NoContentCheckpoint else NoDecisionCheckpoint
  {
    hide CheckpointFor, ContentsOk, DecisionsOk;
    var n := |selected| - 1;
    if CheckpointFault(db, selected[..n], from).Some? {
      FaultIsLacking(db, selected[..n], from);
    } else {
      LackingMeans(db, selected[n], from);
    }
  }

  predicate SomeUnknown(db: Db, ids: seq<nat>) {
    exists j :: j in ids && j >= |db.jobs|
  }

  predicate SomeIn(db: Db, ids: seq<nat>, status: Status) {
    exists j :: j in ids && j < |db.jobs| && db.jobs[j].status == status
  }

  /** A refusal tells the first thing that is wrong: an unknown job, one at work, one merged away,
      or, none of these, one without the checkpoint that was asked for. */
  lemma RefusalTells(s: Sys, ids: seq<nat>, from: Phase, now: nat, policy: PipelinePolicy)
    requires Reachable(s, policy) && PrepareReprocess(s.db, ids, from, now).Raise?
    ensures PrepareReprocess(s.db, ids, from, now).error ==
      if SomeUnknown(s.db, ids) then UnknownJobs
      else if SomeIn(s.db, ids, InProgress) then ActiveJobs
      else if SomeIn(s.db, ids, Merged) then MergedJobs
      else if from == Eligibility then NoContentCheckpoint
      else NoDecisionCheckpoint
    ensures !SomeUnknown(s.db, ids) && !SomeIn(s.db, ids, InProgress) && !SomeIn(s.db, ids, Merged) ==> from != Fetch
  {
    hide CheckpointFor, CheckpointFault, PreparedDb, SourcesExact, WorkerOk, DistinctAttempts, LeasesHold;
    hide JobsOk, ResultsOk, ContentsOk, DecisionsOk;
    ReachableInv(s, policy);
    assert SomeUnknown(s.db, ids) <==> !(forall i :: i in ids ==> i < |s.db.jobs|);
    assert forall status :: SomeIn(s.db, ids, status) <==> HasStatus(s.db.jobs, ids, status);
    if !SomeUnknown(s.db, ids) && !SomeIn(s.db, ids, InProgress) && !SomeIn(s.db, ids, Merged) {
      FaultIsLacking(s.db, Selected(s.db, ids), from);
    }
  }

  lemma RestartsKnown(db: Db, ids: seq<nat>, from: Phase)
    ensures forall j :: j in ids && CanRestart(db, j, from) ==>
      j < |db.jobs| && db.jobs[j].status !in {InProgress, Merged}
  {
  }

  /** A preparation that commits restarts exactly the requested jobs, at the phase that was asked
      for and from its checkpoint; each of them is then claimable, from that moment on, by that
      stage's reprocess run and by no other. */
  lemma PreparationRestarts(s: Sys, ids: seq<nat>, from: Phase, now: nat, policy: PipelinePolicy)
    requires Reachable(s, policy) && PrepareReprocess(s.db, ids, from, now).Commit?
    ensures var after := Next(s, Prepared(ids, from, now), policy).db;
      && |after.jobs| == |s.db.jobs|
      && (forall j :: 0 <= j < |s.db.jobs| && j in ids ==>
            && IsRestarted(s.db.jobs[j], after.jobs[j], from, now)
            && HasCheckpoint(s.db, j, from, after.jobs[j].content)
            && forall stage, moment: nat, reprocess ::
                 Claimable(after.jobs[j], stage, moment, reprocess) <==>
                   stage == StageOf(from) && reprocess && moment >= now)
      && (forall j :: 0 <= j < |s.db.jobs| && j !in ids ==> after.jobs[j] == s.db.jobs[j])
  {
    hide CheckpointFor, CheckpointFault, SourcesExact, WorkerOk, DistinctAttempts, LeasesHold, JobsOk, HasCheckpoint;
    hide ResultsOk, ContentsOk, DecisionsOk, CanRestart;
    ReachableInv(s, policy);
    PreparationCommits(s, ids, from, now, policy);
    RestartsKnown(s.db, ids, from);
    forall j | 0 <= j < |s.db.jobs| && j in ids
      ensures CheckpointFor(s.db, j, from).Commit? && HasCheckpoint(s.db, j, from, CheckpointFor(s.db, j, from).value)
    {
      CheckpointMeans(s.db, j, from);
    }
  }

  /** What was decided before fetch and eligibility is no longer current, nor is any result;
      nobody else's is touched. */
  lemma PreparationRetires(s: Sys, ids: seq<nat>, from: Phase, now: nat, policy: PipelinePolicy)
    requires PrepareReprocess(s.db, ids, from, now).Commit?
    ensures var after := Next(s, Prepared(ids, from, now), policy).db;
      && |after.decisions| == |s.db.decisions| && |after.results| == |s.db.results|
      && (forall d :: 0 <= d < |s.db.decisions| ==>
            var was := s.db.decisions[d];
            after.decisions[d] == if was.job in ids && from != Extraction then was.(current := false) else was)
      && (forall r :: 0 <= r < |s.db.results| ==>
            var was := s.db.results[r];
            after.results[r] == if was.job in ids then was.(current := false) else was)
      && after == s.db.(jobs := after.jobs, decisions := after.decisions, results := after.results)
  {
    hide PrepareFault, RestartedJob;
  }

  // ---- observing ----

  /** A job nobody has touched yet. */
  predicate IsNew(job: Job, company: string) {
    job.company == company && job.status == New && job.phase == Fetch && job.attemptCount == 0 && job.due.None?
    && job.lease.None? && job.content.None? && !job.reprocess && job.mergedInto.None?
  }

  lemma NewIsClaimable(job: Job, company: string)
    requires IsNew(job, company)
    ensures forall stage, moment: nat, reprocess ::
      Claimable(job, stage, moment, reprocess) <==> stage == EligibilityStage && !reprocess
  {
  }

  lemma ObservedJobs(s: Sys, company: string, items: seq<Observation>, policy: PipelinePolicy)
    requires Reachable(s, policy)
    ensures var jobs := WithKeys(s.db.jobs, company, KeysOf(items));
      var after := Next(s, Observed(company, items), policy).db;
      && after == s.db.(jobs := jobs, sources := after.sources, nextSource := after.nextSource)
      && Extends(s.db.jobs, jobs, company) && UniqueKeys(jobs) && KeysKnown(jobs, company, KeysOf(items))
      && (forall j :: |s.db.jobs| <= j < |jobs| ==> jobs[j].key in KeysOf(items))
  {
    hide SourcesExact, WorkerOk, DistinctAttempts, LeasesHold, ResultsOk, ContentsOk, DecisionsOk, UniqueKeys, WithKeys;
    hide KeysKnown, Extends;
    ReachableInv(s, policy);
    NewKeys(s.db.jobs, company, KeysOf(items));
    SourcesOnly(s.db.(jobs := WithKeys(s.db.jobs, company, KeysOf(items))), company, items);
  }

  /** An observation leaves every job as it is and adds new jobs for its own keys only, at once
      claimable by eligibility's scheduled run and by no other. */
  lemma ObservingAddsJobs(s: Sys, company: string, items: seq<Observation>, policy: PipelinePolicy)
    requires Reachable(s, policy)
    ensures var after := Next(s, Observed(company, items), policy).db;
      && s.db.jobs <= after.jobs
      && after == s.db.(jobs := after.jobs, sources := after.sources, nextSource := after.nextSource)
      && (forall j :: |s.db.jobs| <= j < |after.jobs| ==>
            && IsNew(after.jobs[j], company) && after.jobs[j].key in KeysOf(items)
            && forall stage, moment: nat, reprocess ::
                 Claimable(after.jobs[j], stage, moment, reprocess) <==> stage == EligibilityStage && !reprocess)
  {
    hide Next, Reachable, WithKeys, UniqueKeys, KeysKnown, Claimable;
    ObservedJobs(s, company, items, policy);
    var jobs := WithKeys(s.db.jobs, company, KeysOf(items));
    forall j | |s.db.jobs| <= j < |jobs|
      ensures IsNew(jobs[j], company)
      ensures forall stage, moment: nat, reprocess ::
        Claimable(jobs[j], stage, moment, reprocess) <==> stage == EligibilityStage && !reprocess
    {
      assert jobs[j] == NewJob(company, jobs[j].key);
      NewIsClaimable(jobs[j], company);
    }
  }

  /** A job of the company with this key. */
  predicate IsOf(job: Job, company: string, key: string) {
    job.company == company && job.key == key
  }

  ghost predicate HasJob(jobs: seq<Job>, company: string, key: string) {
    exists j :: 0 <= j < |jobs| && IsOf(jobs[j], company, key)
  }

  lemma KnownHasJob(jobs: seq<Job>, company: string, key: string)
    requires FindKey(jobs, company, key).Some?
    ensures HasJob(jobs, company, key)
  {
    assert IsOf(jobs[FindKey(jobs, company, key).value], company, key);
  }

  /** `j` is the company's job of one of these keys, and `name` the key of its canonical job. */
  predicate StandsFor(jobs: seq<Job>, company: string, keys: set<string>, j: nat, name: string) {
    j < |jobs| && jobs[j].company == company && jobs[j].key in keys && jobs[Root(jobs, j)].key == name
  }

  /** The snapshot of some keys names the canonical job of each of their jobs and nothing else, and
      every name in it is that of a job of the company that is not merged away. */
  lemma SnapshotNamesCanonical(s: Sys, company: string, keys: set<string>, name: string, policy: PipelinePolicy)
    requires Reachable(s, policy)
    ensures name in SnapshotKeys(s.db.jobs, company, keys) <==> exists j :: StandsFor(s.db.jobs, company, keys, j, name)
    ensures name in SnapshotKeys(s.db.jobs, company, keys) ==>
      exists i :: 0 <= i < |s.db.jobs| && IsOf(s.db.jobs[i], company, name) && s.db.jobs[i].status != Merged
  {
    hide FindKey, SourcesExact, WorkerOk, DistinctAttempts, LeasesHold, ResultsOk, ContentsOk, DecisionsOk;
    ReachableInv(s, policy);
    var jobs := s.db.jobs;
    if name in SnapshotKeys(jobs, company, keys) {
      var k :| k in keys && FindKey(jobs, company, k).Some? && jobs[Target(jobs, company, k)].key == name;
      var j := FindKey(jobs, company, k).value;
      assert StandsFor(jobs, company, keys, j, name);
      MergesAreForest(s, j, policy);
      assert IsOf(jobs[Root(jobs, j)], company, name);
    }
    forall j: nat | StandsFor(jobs, company, keys, j, name) ensures name in SnapshotKeys(jobs, company, keys) {
      assert FindKey(jobs, company, jobs[j].key) == Some(j);
    }
  }

  /** After an observation each of its keys has a job of the company, and none has two. */
  lemma EveryKeyHasItsJob(s: Sys, company: string, items: seq<Observation>, policy: PipelinePolicy)
    requires Reachable(s, policy)
    ensures var jobs := Next(s, Observed(company, items), policy).db.jobs;
      && (forall k :: 0 <= k < |items| ==> HasJob(jobs, company, items[k].key))
      && forall i, j, key ::
           0 <= i < |jobs| && 0 <= j < |jobs| && IsOf(jobs[i], company, key) && IsOf(jobs[j], company, key) ==> i == j
  {
    hide Next, Reachable, WithKeys, Extends, FindKey, HasJob;
    ObservedJobs(s, company, items, policy);
    var jobs := WithKeys(s.db.jobs, company, KeysOf(items));
    forall k | 0 <= k < |items| ensures HasJob(jobs, company, items[k].key) {
      assert FindKey(jobs, company, KeysOf(items)[k]).Some?;
      KnownHasJob(jobs, company, items[k].key);
    }
  }
}
