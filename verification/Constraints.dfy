/** The constraints the tables declare, in every reachable state: no commit of the model is
    one that the database would have refused. */
module Constraints {
  import opened Models
  import opened Policy
  import opened Runs
  import opened Transactions
  import opened Invariants
  import opened Sources
  import opened Workers
  import opened Leases
  import opened Steps
  import opened System
  import opened Guarantees

  // ---- what is declared ----

  predicate JobConstraints(job: Job, j: nat, jobs: seq<Job>) {
    // ck_jobs_retry_due
    && (job.status == Retry <==> job.due.Some?)
    // ck_jobs_not_self_merged, and the foreign key of merged_into_id
    && (job.mergedInto.Some? ==> job.mergedInto.value != j && job.mergedInto.value < |jobs|)
    // ck_jobs_ready_released
    && (job.status == ReadyForExtraction ==> job.phase == Extraction && job.lease.None?)
  }

  /** ATTEMPT_OUTCOMES. */
  predicate AllowedOutcome(outcome: Outcome) {
    outcome.Ended? ==> outcome.status !in {New, InProgress}
  }

  predicate AttemptConstraints(attempt: Attempt, jobs: seq<Job>) {
    attempt.job < |jobs| && (attempt.finish.Some? ==> AllowedOutcome(attempt.finish.value.outcome))
  }

  /** The row of a decision or a result points at rows that exist. */
  predicate PointsAtRows(db: Db, job: nat, attempt: nat, content: nat) {
    job < |db.jobs| && attempt < |db.attempts| && content < |db.contents|
  }

  ghost predicate ConstraintsHold(db: Db) {
    && (forall j :: 0 <= j < |db.jobs| ==> JobConstraints(db.jobs[j], j, db.jobs))
    // uq_jobs_company_url_key
    && UniqueKeys(db.jobs)
    && (forall a :: 0 <= a < |db.attempts| ==> AttemptConstraints(db.attempts[a], db.jobs))
    && (forall c :: 0 <= c < |db.contents| ==> db.contents[c].job < |db.jobs|)
    // uq_job_contents_job_hash
    && UniqueHashes(db.contents)
    && (forall d :: 0 <= d < |db.decisions| ==>
          PointsAtRows(db, db.decisions[d].job, db.decisions[d].attempt, db.decisions[d].content))
    && (forall r :: 0 <= r < |db.results| ==>
          PointsAtRows(db, db.results[r].job, db.results[r].attempt, db.results[r].content))
    && (forall s :: s in db.sources ==> db.sources[s].job < |db.jobs|)
    // uq_job_sources_job_url
    && UniqueSources(db.sources)
  }

  // ---- outcomes ----

  ghost predicate OutcomesAllowed(attempts: seq<Attempt>) {
    forall a :: 0 <= a < |attempts| && attempts[a].finish.Some? ==> AllowedOutcome(attempts[a].finish.value.outcome)
  }

  lemma EndingAllowed(db: Db, w: Worker, input: Input, policy: PipelinePolicy)
    requires WorkerOk(db, w, policy) && OutcomesAllowed(db.attempts)
    requires w.pc.HandingOff? || w.pc.Accepting? || w.pc.AcceptingResult?
    ensures OutcomesAllowed(Step(db, w, input, policy).0.attempts)
  {
    hide RetiredDecisions, RetiredResults, EligibleCheckpoint;
  }

  lemma StepAllowed(db: Db, w: Worker, input: Input, policy: PipelinePolicy)
    requires WorkerOk(db, w, policy) && OutcomesAllowed(db.attempts)
    ensures OutcomesAllowed(Step(db, w, input, policy).0.attempts)
  {
    hide DuplicateOf, MovedSources, StoredContent, HandOff, AcceptDecision, AcceptResult, CurrentDecision,
      CurrentContent;
    if w.pc.HandingOff? || w.pc.Accepting? || w.pc.AcceptingResult? {
      EndingAllowed(db, w, input, policy);
    }
  }

  lemma NextAllowed(s: Sys, e: Event, policy: PipelinePolicy)
    requires Inv(s, policy) && OutcomesAllowed(s.db.attempts)
    ensures OutcomesAllowed(Next(s, e, policy).db.attempts)
  {
    hide Step, Sound, SourcesExact, DistinctAttempts, WorkerOk, PrepareFault, WithKeys, WithSources;
    match e
    case Observed(company, items) =>
      SourcesOnly(s.db.(jobs := WithKeys(s.db.jobs, company, KeysOf(items))), company, items);
    case Stepped(i, input) =>
      if i < |s.workers| {
        StepAllowed(s.db, s.workers[i], input, policy);
      }
    case _ =>
  }

  lemma RunAllowed(events: seq<Event>, policy: PipelinePolicy)
    ensures OutcomesAllowed(Run(START, events, policy).db.attempts)
  {
    var next := (t: Sys, e: Event) => Next(t, e, policy);
    var p := (t: Sys) => Inv(t, policy) && OutcomesAllowed(t.db.attempts);
    StartIsSound(policy);
    forall t, e | p(t) ensures p(next(t, e)) {
      NextKeepsInv(t, e, policy);
      NextAllowed(t, e, policy);
    }
    Induction(START, events, next, p, (_: Event) => true);
  }

  // ---- the theorem ----

  /** Every source belongs to a job that exists. */
  lemma SourcesHaveJobs(db: Db, seen: set<Sighting>)
    requires JobsOk(db) && SourcesExact(db, seen)
    ensures forall s :: s in db.sources ==> db.sources[s].job < |db.jobs|
  {
    hide UniqueKeys;
    forall s | s in db.sources ensures db.sources[s].job < |db.jobs| {
      assert (db.sources[s].job, db.sources[s].url) in SourcePairs(db.sources);
      var o :| o in seen && (db.sources[s].job, db.sources[s].url) == (Target(db.jobs, o.company, o.key), o.url);
      assert FindKey(db.jobs, o.company, o.key).Some?;
    }
  }

  lemma SoundRowsAreAllowed(db: Db)
    requires Sound(db) && OutcomesAllowed(db.attempts)
    ensures forall j :: 0 <= j < |db.jobs| ==> JobConstraints(db.jobs[j], j, db.jobs)
    ensures forall a :: 0 <= a < |db.attempts| ==> AttemptConstraints(db.attempts[a], db.jobs)
  {
    forall j | 0 <= j < |db.jobs| ensures JobConstraints(db.jobs[j], j, db.jobs) {
      assert JobRow(db.jobs[j]);
    }
    forall a | 0 <= a < |db.attempts| ensures AttemptConstraints(db.attempts[a], db.jobs) {
      assert AttemptRow(db.attempts[a], a, db.jobs);
    }
  }

  /** After any run every CHECK, UNIQUE and foreign key constraint of the tables holds. */
  lemma ConstraintsAlwaysHold(events: seq<Event>, policy: PipelinePolicy)
    ensures ConstraintsHold(Run(START, events, policy).db)
  {
    hide Run, LeasesHold;
    var s := Run(START, events, policy);
    assert Reachable(s, policy);
    ReachableInv(s, policy);
    RunAllowed(events, policy);
    SoundRowsAreAllowed(s.db);
    SourcesHaveJobs(s.db, s.seen);
  }
}
