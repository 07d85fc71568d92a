/** What a worker may rely on between its steps, and what its steps leave to the others. */
module Leases {
  import opened Models
  import opened Policy
  import opened Transactions
  import opened Invariants
  import opened Sources
  import opened Workers

  // ---- how the database changes under a worker ----

  /** Rows are only added, and a finished attempt never changes again. */
  ghost predicate Evolves(before: Db, after: Db) {
    && |before.jobs| <= |after.jobs|
    && |before.attempts| <= |after.attempts|
    && (forall a :: 0 <= a < |before.attempts| ==>
          && after.attempts[a].job == before.attempts[a].job
          && after.attempts[a].stage == before.attempts[a].stage
          && after.attempts[a].startedAt == before.attempts[a].startedAt
          && (before.attempts[a].finish.Some? ==> after.attempts[a] == before.attempts[a]))
    && before.contents <= after.contents
  }

  /** Seen from attempt `a`: a job still leased to it is exactly as it was, so in
      particular nobody hands it a lease it did not have. */
  ghost predicate Spares(before: Db, after: Db, a: nat)
    requires |before.jobs| <= |after.jobs|
  {
    forall j :: 0 <= j < |before.jobs| && after.jobs[j].lease == Some(a) ==> after.jobs[j] == before.jobs[j]
  }

  ghost predicate SparesOthers(before: Db, after: Db, actor: Option<nat>)
    requires |before.jobs| <= |after.jobs|
  {
    forall a: nat :: a < |before.attempts| && Some(a) != actor ==> Spares(before, after, a)
  }

  ghost predicate Polite(before: Db, after: Db, actor: Option<nat>) {
    Evolves(before, after) && SparesOthers(before, after, actor)
  }

  // ---- the worker's side of the invariant ----

  predicate Holds(db: Db, w: Worker) {
    w.attempt.Some? && w.job < |db.jobs| && db.jobs[w.job].lease == w.attempt
  }

  /** The content a worker carries across its steps. */
  function Carried(pc: Pc): Option<nat> {
    match pc
    case Merging(_, c) => Some(c)
    case Advancing(c) => Some(c)
    case ReadVerdict(c) => Some(c)
    case Judging(c) => Some(c)
    case HandingOff(c, _) => Some(c)
    case Accepting(c, _) => Some(c)
    case ReadDecision(c) => Some(c)
    case Extracting(c) => Some(c)
    case AcceptingResult(c) => Some(c)
    case _ => None
  }

  predicate InFetch(pc: Pc) {
    pc.ReadSources? || pc.Acquire? || pc.Storing? || pc.Merging? || pc.Advancing?
  }

  predicate InEligibility(pc: Pc) {
    pc.ReadContent? || pc.ReadVerdict? || pc.Judging? || pc.HandingOff? || pc.Accepting? || pc.Resuming?
  }

  predicate InExtraction(pc: Pc) {
    pc.ReadPosting? || pc.ReadDecision? || pc.Extracting? || pc.AcceptingResult?
  }

  /** The progress a worker believes in matches where it stands, lease or no lease. */
  predicate Consistent(w: Worker) {
    && (InFetch(w.pc) ==> w.stage == EligibilityStage && w.phase == Fetch)
    && (InEligibility(w.pc) ==> w.stage == EligibilityStage && w.phase == Eligibility)
    && (InExtraction(w.pc) ==> w.stage == ExtractionStage && w.phase == Extraction)
    && (w.pc.Accepting? ==> w.pc.verdict != Eligible)
    && (w.pc.Resuming? ==> w.pc.verdict != Eligible)
    && (w.pc.HandingOff? ==> w.pc.decision in {None, Some(Eligible)})
    && (w.pc.Releasing? ==> w.pc.status in {Retry, Failed, Unavailable} && (w.pc.status == Retry <==> w.pc.due.Some?))
  }

  /** What holding the lease guarantees about the job. */
  predicate HolderRow(job: Job, w: Worker, policy: PipelinePolicy) {
    && (!w.pc.ReadClaimed? && !w.pc.Gone? && !w.pc.Done? ==>
          && job.phase == w.phase && StageOf(w.phase) == w.stage
          && (w.phase == Eligibility ==> job.content.Some?))
    && (Carried(w.pc).Some? ==> job.content == Carried(w.pc))
    && (w.pc.Releasing? && w.pc.status == Retry ==> job.attemptCount < policy.retryLimit)
    // A holder never has to skip, and never finds an old verdict to resume from.
    && !w.pc.Skipping? && !w.pc.Resuming?
    && (w.pc.HandingOff? ==> w.pc.decision.Some?)
  }

  predicate WorkerOk(db: Db, w: Worker, policy: PipelinePolicy) {
    && (w.attempt.None? ==> w.pc.Claiming? || w.pc.Done? || w.pc.Gone?)
    && (w.pc.Done? && w.pc.report.Reported? ==> w.attempt.Some?)
    && (w.attempt.Some? ==>
          && !w.pc.Claiming?
          && w.job < |db.jobs|
          && w.attempt.value < |db.attempts|
          && db.attempts[w.attempt.value].job == w.job
          && db.attempts[w.attempt.value].stage == w.stage
          && Consistent(w)
          && (Holds(db, w) ==> HolderRow(db.jobs[w.job], w, policy))
          // A report other than "skipped" is what the attempt row says.
          && (w.pc.Done? && w.pc.report.Reported? ==>
                var finish := db.attempts[w.attempt.value].finish;
                finish.Some? && finish.value.outcome == Ended(w.pc.report.status)))
  }

  /** Whatever happens between two steps of a worker, its side of the invariant stays. */
  lemma WorkerStable(before: Db, after: Db, w: Worker, policy: PipelinePolicy)
    requires WorkerOk(before, w, policy) && Evolves(before, after)
    requires w.attempt.Some? ==> Spares(before, after, w.attempt.value)
    ensures WorkerOk(after, w, policy)
  {
  }

  // ---- transactions are polite ----

  lemma ClaimIsPolite(db: Db, j: nat, stage: Stage, trigger: Trigger, now: nat)
    ensures Polite(db, After(db, ClaimAndStart(db, j, stage, trigger, now)), None)
  {
  }

  lemma StoreIsPolite(db: Db, j: nat, a: nat, posting: Posting)
    ensures Polite(db, After(db, StoreCheckpoint(db, j, a, posting)), Some(a))
  {
  }

  lemma MergeIsPolite(db: Db, j: nat, a: nat, company: string, requisition: Option<string>, fingerprint: string,
                      now: nat)
    ensures Polite(db, After(db, MergeDuplicate(db, j, a, company, requisition, fingerprint, now)), Some(a))
  {
    hide DuplicateOf, MovedSources;
  }

  lemma AdvanceIsPolite(db: Db, j: nat, a: nat, phase: Phase)
    ensures Polite(db, After(db, AdvancePhase(db, j, a, phase)), Some(a))
  {
  }

  lemma HandOffIsPolite(db: Db, j: nat, a: nat, c: nat, decision: Option<Verdict>, now: nat)
    ensures Polite(db, After(db, HandOff(db, j, a, c, decision, now)), Some(a))
  {
  }

  lemma AcceptDecisionIsPolite(db: Db, j: nat, a: nat, c: nat, verdict: Verdict, status: Status, now: nat)
    ensures Polite(db, After(db, AcceptDecision(db, j, a, c, verdict, status, now)), Some(a))
  {
  }

  lemma AcceptResultIsPolite(db: Db, j: nat, a: nat, c: nat, now: nat)
    ensures Polite(db, After(db, AcceptResult(db, j, a, c, now)), Some(a))
  {
  }

  lemma ReleaseIsPolite(db: Db, j: nat, a: nat, status: Status, phase: Phase, due: Option<nat>, now: nat)
    ensures Polite(db, After(db, Release(db, j, a, status, phase, due, now)), Some(a))
  {
  }

  lemma FinishIsPolite(db: Db, a: nat, finish: Finish)
    ensures Polite(db, After(db, FinishUnowned(db, a, finish)), Some(a))
  {
  }

  lemma ReapIsPolite(db: Db, stage: Stage, cutoff: nat, now: nat)
    ensures Polite(db, After(db, ReapStale(db, stage, cutoff, now)), None)
  {
  }

  lemma PrepareIsPolite(db: Db, ids: seq<nat>, from: Phase, now: nat)
    ensures Polite(db, After(db, PrepareReprocess(db, ids, from, now)), None)
  {
  }

  lemma ObserveIsPolite(db: Db, company: string, items: seq<Observation>)
    requires UniqueKeys(db.jobs)
    ensures Polite(db, Observe(db, company, items), None)
  {
    NewKeys(db.jobs, company, KeysOf(items));
    SourcesOnly(db.(jobs := WithKeys(db.jobs, company, KeysOf(items))), company, items);
  }
}
