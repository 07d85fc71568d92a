/** One step of one worker keeps the database sound and the worker consistent with it. */
module Steps {
  import opened Models
  import opened Policy
  import opened Transactions
  import opened Invariants
  import opened Sources
  import opened Workers
  import opened Leases

  lemma PoliteToAll(before: Db, after: Db, actor: Option<nat>)
    requires before == after || Polite(before, after, None)
    ensures Polite(before, after, actor)
  {
  }

  lemma StepIsPolite(db: Db, w: Worker, input: Input, policy: PipelinePolicy)
    ensures Polite(db, Step(db, w, input, policy).0, w.attempt)
  {
    hide Polite;
    PoliteToAll(db, db, w.attempt);
    if input.failure.None? && w.attempt.Some? && !w.pc.Claiming? {
      var a := w.attempt.value;
      match w.pc
      case Storing(posting) => StoreIsPolite(db, w.job, a, posting);
      case Merging(posting, _) =>
        MergeIsPolite(db, w.job, a, CompanyOf(db, w.job), posting.requisition, posting.fingerprint, input.now);
      case Advancing(_) => AdvanceIsPolite(db, w.job, a, Eligibility);
      case HandingOff(c, decision) => HandOffIsPolite(db, w.job, a, c, decision, input.now);
      case Accepting(c, verdict) => AcceptDecisionIsPolite(db, w.job, a, c, verdict, StatusOf(verdict), input.now);
      case Resuming(verdict) => ReleaseIsPolite(db, w.job, a, StatusOf(verdict), w.phase, None, input.now);
      case AcceptingResult(c) => AcceptResultIsPolite(db, w.job, a, c, input.now);
      case Releasing(status, due, _) => ReleaseIsPolite(db, w.job, a, status, w.phase, due, input.now);
      case Skipping(_) => FinishIsPolite(db, a, Finish(Skipped, Some(w.phase), input.now));
      case _ =>
    } else if input.failure.None? && w.pc.Claiming? {
      ClaimIsPolite(db, w.job, w.stage, w.trigger, input.now);
      PoliteToAll(db, Step(db, w, input, policy).0, w.attempt);
    }
  }

  /** A worker that lost its lease has a finished attempt. */
  lemma LostIsFinished(db: Db, w: Worker, policy: PipelinePolicy)
    requires LeasesHold(db) && WorkerOk(db, w, policy) && w.attempt.Some? && !Holds(db, w)
    ensures db.attempts[w.attempt.value].finish.Some?
  {
    assert AttemptRow(db.attempts[w.attempt.value], w.attempt.value, db.jobs);
  }

  lemma SkipperIsFinished(db: Db, w: Worker, policy: PipelinePolicy)
    requires LeasesHold(db) && WorkerOk(db, w, policy) && w.pc.Skipping?
    ensures !Unfinished(db, w.attempt.value)
  {
    LostIsFinished(db, w, policy);
  }

  // The steps that write, each under what the invariant says of a worker standing there.

  lemma ClaimingKeepsSound(db: Db, w: Worker, input: Input, policy: PipelinePolicy)
    requires Sound(db) && w.pc.Claiming?
    ensures Sound(Step(db, w, input, policy).0)
  {
    ClaimKeepsSound(db, w.job, w.stage, w.trigger, input.now);
  }

  lemma StoringKeepsSound(db: Db, w: Worker, input: Input, policy: PipelinePolicy)
    requires Sound(db) && WorkerOk(db, w, policy) && w.pc.Storing?
    ensures Sound(Step(db, w, input, policy).0)
  {
    StoreKeepsSound(db, w.job, w.attempt.value, w.pc.posting);
  }

  lemma MergingKeepsSound(db: Db, w: Worker, input: Input, policy: PipelinePolicy)
    requires Sound(db) && WorkerOk(db, w, policy) && w.pc.Merging?
    ensures Sound(Step(db, w, input, policy).0)
  {
    MergeKeepsSound(db, w.job, w.attempt.value, CompanyOf(db, w.job), w.pc.posting.requisition,
                    w.pc.posting.fingerprint, input.now);
  }

  lemma AdvancingKeepsSound(db: Db, w: Worker, input: Input, policy: PipelinePolicy)
    requires Sound(db) && WorkerOk(db, w, policy) && w.pc.Advancing?
    ensures Sound(Step(db, w, input, policy).0)
  {
    AdvanceKeepsSound(db, w.job, w.attempt.value);
  }

  lemma HandingOffKeepsSound(db: Db, w: Worker, input: Input, policy: PipelinePolicy)
    requires Sound(db) && WorkerOk(db, w, policy) && w.pc.HandingOff?
    ensures Sound(Step(db, w, input, policy).0)
  {
    HandOffKeepsSound(db, w.job, w.attempt.value, w.pc.content, w.pc.decision, input.now);
  }

  lemma AcceptingKeepsSound(db: Db, w: Worker, input: Input, policy: PipelinePolicy)
    requires Sound(db) && WorkerOk(db, w, policy) && w.pc.Accepting?
    ensures Sound(Step(db, w, input, policy).0)
  {
    AcceptDecisionKeepsSound(db, w.job, w.attempt.value, w.pc.content, w.pc.verdict, StatusOf(w.pc.verdict), input.now);
  }

  lemma AcceptingResultKeepsSound(db: Db, w: Worker, input: Input, policy: PipelinePolicy)
    requires Sound(db) && WorkerOk(db, w, policy) && w.pc.AcceptingResult?
    ensures Sound(Step(db, w, input, policy).0)
  {
    AcceptResultKeepsSound(db, w.job, w.attempt.value, w.pc.content, input.now);
  }

  /** What a worker releases its leased job in is fit for the job. */
  lemma HolderMayRelease(db: Db, w: Worker, policy: PipelinePolicy)
    requires Sound(db) && WorkerOk(db, w, policy) && w.pc.Releasing? && LeasedTo(db, w.job, w.attempt.value)
    ensures MayRelease(db, w.job, Released(db.jobs[w.job], w.pc.status, w.phase, w.pc.due))
  {
    assert JobRow(db.jobs[w.job]) && LeaseRow(db.jobs[w.job], w.job, db.attempts);
    assert VerdictMatches(db.jobs[w.job], db.decisions, w.job);
  }

  lemma ReleasingKeepsSound(db: Db, w: Worker, input: Input, policy: PipelinePolicy)
    requires Sound(db) && WorkerOk(db, w, policy) && w.pc.Releasing?
    ensures Sound(Step(db, w, input, policy).0)
  {
    hide Sound, Release, MayRelease;
    if LeasedTo(db, w.job, w.attempt.value) {
      HolderMayRelease(db, w, policy);
    }
    ReleaseKeepsSound(db, w.job, w.attempt.value, w.pc.status, w.phase, w.pc.due, input.now);
  }

  lemma ResumingKeepsSound(db: Db, w: Worker, input: Input, policy: PipelinePolicy)
    requires Sound(db) && WorkerOk(db, w, policy) && w.pc.Resuming?
    ensures Sound(Step(db, w, input, policy).0)
  {
    assert !Holds(db, w);
  }

  lemma SkippingKeepsSound(db: Db, w: Worker, input: Input, policy: PipelinePolicy)
    requires Sound(db) && WorkerOk(db, w, policy) && w.pc.Skipping?
    ensures Step(db, w, input, policy).0 == db
  {
    SkipperIsFinished(db, w, policy);
  }

  lemma StepKeepsSound(db: Db, w: Worker, input: Input, policy: PipelinePolicy)
    requires Sound(db) && WorkerOk(db, w, policy)
    ensures Sound(Step(db, w, input, policy).0)
  {
    hide Sound, WorkerOk;
    match w.pc
    case Claiming => ClaimingKeepsSound(db, w, input, policy);
    case Storing(_) => StoringKeepsSound(db, w, input, policy);
    case Merging(_, _) => MergingKeepsSound(db, w, input, policy);
    case Advancing(_) => AdvancingKeepsSound(db, w, input, policy);
    case HandingOff(_, _) => HandingOffKeepsSound(db, w, input, policy);
    case Accepting(_, _) => AcceptingKeepsSound(db, w, input, policy);
    case AcceptingResult(_) => AcceptingResultKeepsSound(db, w, input, policy);
    case Releasing(_, _, _) => ReleasingKeepsSound(db, w, input, policy);
    case Resuming(_) => ResumingKeepsSound(db, w, input, policy);
    case Skipping(_) => SkippingKeepsSound(db, w, input, policy);
    case _ =>
  }

  lemma FailureKeepsWorker(db: Db, w: Worker, input: Input, policy: PipelinePolicy)
    requires WorkerOk(db, w, policy) && input.failure.Some?
    ensures var (after, w') := Step(db, w, input, policy); WorkerOk(after, w', policy)
  {
  }

  lemma ClaimKeepsWorker(db: Db, w: Worker, input: Input, policy: PipelinePolicy)
    requires Sound(db) && WorkerOk(db, w, policy) && input.failure.None? && w.pc.Claiming?
    ensures var (after, w') := Step(db, w, input, policy); WorkerOk(after, w', policy)
  {
    assert w.attempt.None?;
  }

  /** What the invariant says of the job of a worker that still holds its lease. */
  lemma HolderFacts(db: Db, w: Worker, policy: PipelinePolicy)
    requires LeasesHold(db) && JobsOk(db) && DecisionsOk(db) && WorkerOk(db, w, policy) && Holds(db, w)
    ensures var job := db.jobs[w.job];
            && job.status == InProgress && job.mergedInto.None?
            && StageOf(job.phase) == w.stage && (job.phase != Fetch ==> job.content.Some?)
            && VerdictMatches(job, db.decisions, w.job)
  {
    var job := db.jobs[w.job];
    assert LeaseRow(job, w.job, db.attempts) && JobRow(job);
  }

  lemma ClaimedIsReadOk(db: Db, w: Worker, policy: PipelinePolicy)
    requires WorkerOk(db, w, policy) && w.pc.ReadClaimed?
    requires Holds(db, w) ==>
      StageOf(db.jobs[w.job].phase) == w.stage && (db.jobs[w.job].phase != Fetch ==> db.jobs[w.job].content.Some?)
    ensures WorkerOk(db, Begin(db, w), policy)
  {
  }

  lemma ReadKeepsWorker(db: Db, w: Worker, input: Input, policy: PipelinePolicy)
    requires Sound(db) && WorkerOk(db, w, policy) && input.failure.None?
      && (w.pc.ReadClaimed? || w.pc.ReadSources? || w.pc.Acquire? || w.pc.ReadContent? || w.pc.Judging?
          || w.pc.ReadPosting? || w.pc.Extracting? || w.pc.Done? || w.pc.Gone?)
    ensures var (after, w') := Step(db, w, input, policy); WorkerOk(after, w', policy)
  {
    if w.pc.ReadClaimed? {
      if Holds(db, w) {
        HolderFacts(db, w, policy);
      }
      ClaimedIsReadOk(db, w, policy);
    } else {
      PlainReadKeepsWorker(db, w, input, policy);
    }
  }

  lemma PlainReadKeepsWorker(db: Db, w: Worker, input: Input, policy: PipelinePolicy)
    requires WorkerOk(db, w, policy) && input.failure.None?
    requires w.pc.ReadSources? || w.pc.Acquire? || w.pc.ReadContent? || w.pc.Judging? || w.pc.ReadPosting?
      || w.pc.Extracting? || w.pc.Done? || w.pc.Gone?
    ensures var (after, w') := Step(db, w, input, policy); WorkerOk(after, w', policy)
  {
  }

  lemma VerdictReadOk(db: Db, w: Worker, policy: PipelinePolicy)
    requires WorkerOk(db, w, policy) && w.pc.ReadVerdict?
    requires OneCurrentDecision(db.decisions)
    requires Holds(db, w) ==> Unjudged(db.decisions, w.job)
    ensures WorkerOk(db, VerdictRead(db, w, w.pc.content), policy)
    ensures Holds(db, w) ==> VerdictRead(db, w, w.pc.content).pc.Judging?
  {
    DecisionIsRead(db, w.job);
  }

  lemma DecisionReadOk(db: Db, w: Worker, policy: PipelinePolicy)
    requires WorkerOk(db, w, policy) && w.pc.ReadDecision?
    requires OneCurrentDecision(db.decisions)
    requires Holds(db, w) ==> Judged(db.decisions, w.job, Some(w.pc.content), Eligible)
    ensures WorkerOk(db, DecisionRead(db, w, w.pc.content), policy)
    ensures Holds(db, w) ==> DecisionRead(db, w, w.pc.content).pc.Extracting?
  {
    DecisionIsRead(db, w.job);
  }

  lemma VerdictKeepsWorker(db: Db, w: Worker, input: Input, policy: PipelinePolicy)
    requires Sound(db) && WorkerOk(db, w, policy) && input.failure.None? && (w.pc.ReadVerdict? || w.pc.ReadDecision?)
    ensures var (after, w') := Step(db, w, input, policy); WorkerOk(after, w', policy)
  {
    hide ContentsOk, ResultsOk, AttemptRow, Judged, Unjudged;
    if Holds(db, w) {
      HolderFacts(db, w, policy);
    }
    if w.pc.ReadVerdict? {
      VerdictReadOk(db, w, policy);
    } else {
      DecisionReadOk(db, w, policy);
    }
  }

  lemma StoringKeepsWorker(db: Db, w: Worker, input: Input, policy: PipelinePolicy)
    requires LeasesHold(db) && WorkerOk(db, w, policy) && input.failure.None? && w.pc.Storing?
    ensures var (after, w') := Step(db, w, input, policy); WorkerOk(after, w', policy)
  {
  }

  /** What a merge tells its caller: no lease, merged away with the attempt ended, or still
      the canonical job with its own row untouched. */
  lemma MergeTells(db: Db, j: nat, a: nat, company: string, requisition: Option<string>, fingerprint: string, now: nat)
    requires LeasesHold(db)
    ensures var tx := MergeDuplicate(db, j, a, company, requisition, fingerprint, now);
            && tx.Commit?
            && (tx.value.None? <==> !LeasedTo(db, j, a))
            && (tx.value.None? ==> tx.db == db)
            && (tx.value == Some(j) ==> tx.db.jobs[j] == db.jobs[j] && tx.db.attempts == db.attempts)
            && (tx.value.Some? && tx.value != Some(j) ==>
                  && tx.db.jobs[j].lease.None? && a < |db.attempts|
                  && var finish := Finish(Ended(Merged), Some(Fetch), now);
                     tx.db.attempts == db.attempts[a := db.attempts[a].(finish := Some(finish))])
            && |tx.db.jobs| == |db.jobs|
  {
    DuplicateIsLive(db, j, company, requisition, fingerprint);
    assert LeasedTo(db, j, a) ==> LeaseRow(db.jobs[j], j, db.attempts);
  }

  lemma MergingKeepsWorker(db: Db, w: Worker, input: Input, policy: PipelinePolicy)
    requires LeasesHold(db) && WorkerOk(db, w, policy) && input.failure.None? && w.pc.Merging?
    ensures var (after, w') := Step(db, w, input, policy); WorkerOk(after, w', policy)
  {
    var posting := w.pc.posting;
    MergeTells(db, w.job, w.attempt.value, CompanyOf(db, w.job), posting.requisition, posting.fingerprint, input.now);
    var tx := MergeDuplicate(db, w.job, w.attempt.value, CompanyOf(db, w.job), posting.requisition, posting.fingerprint,
                             input.now);
    assert Step(db, w, input, policy) == MergeStep(db, w, w.attempt.value, posting, w.pc.content, input);
    MergedWorkerOk(db, tx.db, w, tx.value, input.now, policy);
  }

  lemma MergedWorkerOk(db: Db, after: Db, w: Worker, value: Option<nat>, now: nat, policy: PipelinePolicy)
    requires LeasesHold(db) && WorkerOk(db, w, policy) && w.pc.Merging? && |after.jobs| == |db.jobs|
    requires value.None? ==> after == db && !LeasedTo(db, w.job, w.attempt.value)
    requires value == Some(w.job) ==> after.jobs[w.job] == db.jobs[w.job] && after.attempts == db.attempts
    requires var a := w.attempt.value;
      value.Some? && value != Some(w.job) ==>
        && after.jobs[w.job].lease.None?
        && after.attempts == db.attempts[a := db.attempts[a].(finish := Some(Finish(Ended(Merged), Some(Fetch), now)))]
    ensures value.None? ==> WorkerOk(after, Skip(w), policy)
    ensures value == Some(w.job) ==> WorkerOk(after, w.(pc := Advancing(w.pc.content)), policy)
    ensures value.Some? && value != Some(w.job) ==> WorkerOk(after, w.(pc := Done(Reported(Merged))), policy)
  {
    assert LeaseRow(db.jobs[w.job], w.job, db.attempts);
  }

  lemma AdvancingKeepsWorker(db: Db, w: Worker, input: Input, policy: PipelinePolicy)
    requires LeasesHold(db) && WorkerOk(db, w, policy) && input.failure.None? && w.pc.Advancing?
    ensures var (after, w') := Step(db, w, input, policy); WorkerOk(after, w', policy)
  {
  }

  lemma HandingOffKeepsWorker(db: Db, w: Worker, input: Input, policy: PipelinePolicy)
    requires LeasesHold(db) && WorkerOk(db, w, policy) && input.failure.None? && w.pc.HandingOff?
    ensures var (after, w') := Step(db, w, input, policy); WorkerOk(after, w', policy)
  {
  }

  lemma AcceptingKeepsWorker(db: Db, w: Worker, input: Input, policy: PipelinePolicy)
    requires LeasesHold(db) && WorkerOk(db, w, policy) && input.failure.None? && w.pc.Accepting?
    ensures var (after, w') := Step(db, w, input, policy); WorkerOk(after, w', policy)
  {
  }

  lemma ResumingKeepsWorker(db: Db, w: Worker, input: Input, policy: PipelinePolicy)
    requires LeasesHold(db) && WorkerOk(db, w, policy) && input.failure.None? && w.pc.Resuming?
    ensures var (after, w') := Step(db, w, input, policy); WorkerOk(after, w', policy)
  {
  }

  lemma AcceptingResultKeepsWorker(db: Db, w: Worker, input: Input, policy: PipelinePolicy)
    requires LeasesHold(db) && WorkerOk(db, w, policy) && input.failure.None? && w.pc.AcceptingResult?
    ensures var (after, w') := Step(db, w, input, policy); WorkerOk(after, w', policy)
  {
  }

  lemma FailingKeepsWorker(db: Db, w: Worker, input: Input, policy: PipelinePolicy)
    requires LeasesHold(db) && WorkerOk(db, w, policy) && input.failure.None? && w.pc.Failing?
    ensures var (after, w') := Step(db, w, input, policy); WorkerOk(after, w', policy)
  {
  }

  lemma ReleasingKeepsWorker(db: Db, w: Worker, input: Input, policy: PipelinePolicy)
    requires LeasesHold(db) && WorkerOk(db, w, policy) && input.failure.None? && w.pc.Releasing?
    ensures var (after, w') := Step(db, w, input, policy); WorkerOk(after, w', policy)
  {
  }

  lemma SkippingKeepsWorker(db: Db, w: Worker, input: Input, policy: PipelinePolicy)
    requires LeasesHold(db) && WorkerOk(db, w, policy) && input.failure.None? && w.pc.Skipping?
    ensures var (after, w') := Step(db, w, input, policy); WorkerOk(after, w', policy)
  {
  }

  lemma StepKeepsWorker(db: Db, w: Worker, input: Input, policy: PipelinePolicy)
    requires Sound(db) && WorkerOk(db, w, policy)
    ensures var (after, w') := Step(db, w, input, policy); WorkerOk(after, w', policy)
  {
    if input.failure.Some? {
      FailureKeepsWorker(db, w, input, policy);
    } else {
      match w.pc
      case Claiming => ClaimKeepsWorker(db, w, input, policy);
      case ReadVerdict(_) => VerdictKeepsWorker(db, w, input, policy);
      case ReadDecision(_) => VerdictKeepsWorker(db, w, input, policy);
      case Storing(_) => StoringKeepsWorker(db, w, input, policy);
      case Merging(_, _) => MergingKeepsWorker(db, w, input, policy);
      case Advancing(_) => AdvancingKeepsWorker(db, w, input, policy);
      case HandingOff(_, _) => HandingOffKeepsWorker(db, w, input, policy);
      case Accepting(_, _) => AcceptingKeepsWorker(db, w, input, policy);
      case Resuming(_) => ResumingKeepsWorker(db, w, input, policy);
      case AcceptingResult(_) => AcceptingResultKeepsWorker(db, w, input, policy);
      case Failing(_, _) => FailingKeepsWorker(db, w, input, policy);
      case Releasing(_, _, _) => ReleasingKeepsWorker(db, w, input, policy);
      case Skipping(_) => SkippingKeepsWorker(db, w, input, policy);
      case _ => ReadKeepsWorker(db, w, input, policy);
    }
  }
}
