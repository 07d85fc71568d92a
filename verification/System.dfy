/** The whole pipeline: any number of workers, reapers, observers and reprocess commands
    over one database, interleaved in any order, with crashes and exceptions anywhere. */
module System {
  import opened Models
  import opened Policy
  import opened Runs
  import opened Transactions
  import opened Invariants
  import opened Sources
  import opened Workers
  import opened Leases
  import opened Steps
  import opened Budget

  /** `seen` and `epochs` are history: what was observed, and how many attempt rows there
      were when each job was first seen or last prepared for reprocessing. */
  datatype Sys = Sys(db: Db, workers: seq<Worker>, seen: set<Sighting>, epochs: seq<nat>)

  datatype Event =
    | Observed(company: string, items: seq<Observation>)
    | Spawned(job: nat, stage: Stage, trigger: Trigger)
    | Stepped(worker: nat, input: Input)
    | Crashed(worker: nat)
    | Reaped(stage: Stage, cutoff: nat, now: nat)
    | Prepared(ids: seq<nat>, from: Phase, now: nat)

  const START := Sys(EMPTY_DB, [], {}, [])

  function Resized(epochs: seq<nat>, n: nat, moment: nat): seq<nat> {
    if |epochs| <= n then Grown(epochs, n, moment) else epochs
  }

  function Next(s: Sys, e: Event, policy: PipelinePolicy): Sys {
    match e
    case Observed(company, items) =>
      var db := Observe(s.db, company, items);
      s.(db := db, seen := s.seen + SightingsOf(company, items),
         epochs := Resized(s.epochs, |db.jobs|, |s.db.attempts|))
    case Spawned(job, stage, trigger) =>
      s.(workers := s.workers + [Worker(job, stage, trigger, None, Fetch, Claiming)])
    case Stepped(i, input) =>
      if i >= |s.workers| then s
      else
        var (db, w) := Step(s.db, s.workers[i], input, policy);
        s.(db := db, workers := s.workers[i := w])
    case Crashed(i) =>
      if i >= |s.workers| then s else s.(workers := s.workers[i := s.workers[i].(pc := Gone)])
    case Reaped(stage, cutoff, now) =>
      s.(db := After(s.db, ReapStale(s.db, stage, cutoff, now)))
    case Prepared(ids, from, now) =>
      var tx := PrepareReprocess(s.db, ids, from, now);
      if tx.Raise? then s else s.(db := tx.db, epochs := Restarted(s.epochs, ids, |s.db.attempts|))
  }

  function Run(s: Sys, events: seq<Event>, policy: PipelinePolicy): Sys {
    Fold(s, events, (t: Sys, e: Event) => Next(t, e, policy))
  }

  ghost predicate DistinctAttempts(workers: seq<Worker>) {
    forall i, k :: 0 <= i < |workers| && 0 <= k < |workers| && workers[i].attempt.Some?
      && workers[i].attempt == workers[k].attempt
      ==> i == k
  }

  ghost predicate Inv(s: Sys, policy: PipelinePolicy) {
    && Sound(s.db)
    && SourcesExact(s.db, s.seen)
    && Budgets(s.db, s.epochs, Tries(policy))
    && (forall i :: 0 <= i < |s.workers| ==> WorkerOk(s.db, s.workers[i], policy))
    && DistinctAttempts(s.workers)
  }

  // ---- one worker's step ----

  lemma StoreKeepsSources(db: Db, j: nat, a: nat, posting: Posting)
    ensures var after := After(db, StoreCheckpoint(db, j, a, posting));
            SameIdentity(db.jobs, after.jobs) && after.sources == db.sources && after.nextSource == db.nextSource
  {
  }

  lemma MergeTxKeepsSources(db: Db, j: nat, a: nat, company: string, requisition: Option<string>, fingerprint: string,
                            now: nat, seen: set<Sighting>)
    requires JobsOk(db) && SourcesExact(db, seen)
    ensures SourcesExact(After(db, MergeDuplicate(db, j, a, company, requisition, fingerprint, now)), seen)
  {
    hide DuplicateOf, MergeForest, UniqueKeys, SourcesExact, MovedSources;
    DuplicateIsLive(db, j, company, requisition, fingerprint);
    var duplicate := DuplicateOf(db, j, company, requisition, fingerprint);
    var after := After(db, MergeDuplicate(db, j, a, company, requisition, fingerprint, now));
    if LeasedTo(db, j, a) && duplicate.Some? && after != db {
      assert JobRow(db.jobs[j]) && JobRow(db.jobs[duplicate.value]);
      if duplicate.value < j {
        MergeKeepsSources(db, after, seen, j, duplicate.value);
      } else if CanMerge(db, duplicate.value, j, false) {
        MergeKeepsSources(db, after, seen, duplicate.value, j);
      }
    }
  }

  lemma MergingKeepsSources(db: Db, w: Worker, input: Input, policy: PipelinePolicy, seen: set<Sighting>)
    requires Sound(db) && WorkerOk(db, w, policy) && SourcesExact(db, seen) && w.pc.Merging? && input.failure.None?
    ensures SourcesExact(Step(db, w, input, policy).0, seen)
  {
    hide MergeDuplicate, JobsOk, LeasesHold, ContentsOk, DecisionsOk, ResultsOk, SourcesExact;
    var posting := w.pc.posting;
    MergeTxKeepsSources(db, w.job, w.attempt.value, CompanyOf(db, w.job), posting.requisition, posting.fingerprint,
                        input.now, seen);
  }

  ghost predicate KeepsIdentity(db: Db, after: Db) {
    SameIdentity(db.jobs, after.jobs) && after.sources == db.sources && after.nextSource == db.nextSource
  }

  lemma EndingKeepsIdentity(db: Db, w: Worker, input: Input, policy: PipelinePolicy)
    requires w.pc.HandingOff? || w.pc.Accepting? || w.pc.AcceptingResult?
    ensures KeepsIdentity(db, Step(db, w, input, policy).0)
  {
  }

  lemma ReleasingKeepsIdentity(db: Db, w: Worker, input: Input, policy: PipelinePolicy)
    requires w.pc.Claiming? || w.pc.Advancing? || w.pc.Resuming? || w.pc.Releasing? || w.pc.Skipping?
    ensures KeepsIdentity(db, Step(db, w, input, policy).0)
  {
  }

  lemma StepKeepsIdentity(db: Db, w: Worker, input: Input, policy: PipelinePolicy)
    requires !w.pc.Merging?
    ensures KeepsIdentity(db, Step(db, w, input, policy).0)
  {
    if w.pc.HandingOff? || w.pc.Accepting? || w.pc.AcceptingResult? {
      EndingKeepsIdentity(db, w, input, policy);
    } else if w.pc.Storing? {
      if w.attempt.Some? {
        StoreKeepsSources(db, w.job, w.attempt.value, w.pc.posting);
      }
    } else if w.pc.Claiming? || w.pc.Advancing? || w.pc.Resuming? || w.pc.Releasing? || w.pc.Skipping? {
      ReleasingKeepsIdentity(db, w, input, policy);
    }
  }

  lemma StepKeepsSources(db: Db, w: Worker, input: Input, policy: PipelinePolicy, seen: set<Sighting>)
    requires Sound(db) && WorkerOk(db, w, policy) && SourcesExact(db, seen)
    ensures SourcesExact(Step(db, w, input, policy).0, seen)
  {
    if w.pc.Merging? {
      if input.failure.None? {
        MergingKeepsSources(db, w, input, policy, seen);
      }
    } else {
      StepKeepsIdentity(db, w, input, policy);
      StepKeepsSound(db, w, input, policy);
      UntouchedSources(db, Step(db, w, input, policy).0, seen);
    }
  }

  lemma StoringKeepsBudgets(db: Db, w: Worker, input: Input, policy: PipelinePolicy, epochs: seq<nat>)
    requires WorkerOk(db, w, policy) && Budgets(db, epochs, Tries(policy)) && w.pc.Storing?
    ensures Budgets(Step(db, w, input, policy).0, epochs, Tries(policy))
  {
    hide Consistent, StoredContent;
    CarriedRowKeepsBudgets(db, Step(db, w, input, policy).0, epochs, Tries(policy), w.job);
  }

  lemma MergingKeepsBudgets(db: Db, w: Worker, input: Input, policy: PipelinePolicy, epochs: seq<nat>)
    requires LeasesHold(db) && WorkerOk(db, w, policy) && Budgets(db, epochs, Tries(policy)) && w.pc.Merging?
    ensures Budgets(Step(db, w, input, policy).0, epochs, Tries(policy))
  {
    hide DuplicateOf, MovedSources, AttemptRow, BudgetRow, HolderRow;
    var posting, company := w.pc.posting, CompanyOf(db, w.job);
    DuplicateIsLive(db, w.job, company, posting.requisition, posting.fingerprint);
    var duplicate := DuplicateOf(db, w.job, company, posting.requisition, posting.fingerprint);
    var j := if duplicate.Some? && duplicate.value > w.job then duplicate.value else w.job;
    CarriedRowKeepsBudgets(db, Step(db, w, input, policy).0, epochs, Tries(policy), j);
  }

  lemma AcceptingKeepsBudgets(db: Db, w: Worker, input: Input, policy: PipelinePolicy, epochs: seq<nat>)
    requires LeasesHold(db) && WorkerOk(db, w, policy) && Budgets(db, epochs, Tries(policy))
    requires w.pc.Accepting? || w.pc.AcceptingResult?
    ensures Budgets(Step(db, w, input, policy).0, epochs, Tries(policy))
  {
    hide AttemptRow, RetiredDecisions, RetiredResults;
    assert LeaseRow(db.jobs[w.job], w.job, db.attempts);
    CarriedRowKeepsBudgets(db, Step(db, w, input, policy).0, epochs, Tries(policy), w.job);
  }

  lemma ReleasingKeepsBudgets(db: Db, w: Worker, input: Input, policy: PipelinePolicy, epochs: seq<nat>)
    requires LeasesHold(db) && WorkerOk(db, w, policy) && Budgets(db, epochs, Tries(policy))
    requires w.pc.Advancing? || w.pc.Resuming? || w.pc.Releasing?
    ensures Budgets(Step(db, w, input, policy).0, epochs, Tries(policy))
  {
    hide AttemptRow;
    assert LeaseRow(db.jobs[w.job], w.job, db.attempts);
    CarriedRowKeepsBudgets(db, Step(db, w, input, policy).0, epochs, Tries(policy), w.job);
  }

  lemma HandingOffKeepsBudgets(db: Db, w: Worker, input: Input, policy: PipelinePolicy, epochs: seq<nat>)
    requires LeasesHold(db) && WorkerOk(db, w, policy) && Budgets(db, epochs, Tries(policy)) && w.pc.HandingOff?
    ensures Budgets(Step(db, w, input, policy).0, epochs, Tries(policy))
  {
    hide AttemptRow, BudgetRow;
    assert LeasedTo(db, w.job, w.attempt.value) ==> LeaseRow(db.jobs[w.job], w.job, db.attempts);
    HandOffKeepsBudgets(db, w.job, w.attempt.value, w.pc.content, w.pc.decision, input.now, epochs, Tries(policy));
  }

  lemma StepKeepsBudgets(db: Db, w: Worker, input: Input, policy: PipelinePolicy, epochs: seq<nat>)
    requires Sound(db) && WorkerOk(db, w, policy) && Budgets(db, epochs, Tries(policy))
    ensures Budgets(Step(db, w, input, policy).0, epochs, Tries(policy))
  {
    hide Budgets, LeaseRow, AttemptRow, JobRow, WorkerOk;
    match w.pc
    case Claiming => ClaimKeepsBudgets(db, w.job, w.stage, w.trigger, input.now, epochs, Tries(policy));
    case Storing(_) => StoringKeepsBudgets(db, w, input, policy, epochs);
    case Merging(_, _) => MergingKeepsBudgets(db, w, input, policy, epochs);
    case HandingOff(_, _) => HandingOffKeepsBudgets(db, w, input, policy, epochs);
    case Advancing(_) => ReleasingKeepsBudgets(db, w, input, policy, epochs);
    case Accepting(_, _) => AcceptingKeepsBudgets(db, w, input, policy, epochs);
    case Resuming(_) => ReleasingKeepsBudgets(db, w, input, policy, epochs);
    case AcceptingResult(_) => AcceptingKeepsBudgets(db, w, input, policy, epochs);
    case Releasing(_, _, _) => ReleasingKeepsBudgets(db, w, input, policy, epochs);
    case Skipping(_) => SkippingKeepsSound(db, w, input, policy);
    case _ =>
  }

  // ---- one event ----

  lemma WorkersStable(s: Sys, after: Db, policy: PipelinePolicy)
    requires Inv(s, policy) && Polite(s.db, after, None)
    ensures forall i :: 0 <= i < |s.workers| ==> WorkerOk(after, s.workers[i], policy)
  {
    forall i | 0 <= i < |s.workers| ensures WorkerOk(after, s.workers[i], policy) {
      WorkerStable(s.db, after, s.workers[i], policy);
    }
  }

  lemma ObservedKeepsInv(s: Sys, company: string, items: seq<Observation>, policy: PipelinePolicy)
    requires Inv(s, policy)
    ensures Inv(Next(s, Observed(company, items), policy), policy)
  {
    hide LeasesHold, MergeForest, UniqueKeys, ContentsOk, DecisionsOk, ResultsOk;
    hide SourcesExact, Budgets, WorkerOk, DistinctAttempts;
    ObserveKeepsSound(s.db, company, items);
    ObserveKeepsSources(s.db, s.seen, company, items);
    ObserveKeepsBudgets(s.db, company, items, s.epochs, Tries(policy));
    ObserveIsPolite(s.db, company, items);
    WorkersStable(s, Observe(s.db, company, items), policy);
  }

  lemma ReapedKeepsInv(s: Sys, stage: Stage, cutoff: nat, now: nat, policy: PipelinePolicy)
    requires Inv(s, policy)
    ensures Inv(Next(s, Reaped(stage, cutoff, now), policy), policy)
  {
    hide LeasesHold, MergeForest, UniqueKeys, ContentsOk, DecisionsOk, ResultsOk;
    hide SourcesExact, Budgets, WorkerOk, DistinctAttempts;
    var after := After(s.db, ReapStale(s.db, stage, cutoff, now));
    ReapKeepsSound(s.db, stage, cutoff, now);
    UntouchedSources(s.db, after, s.seen);
    ReapKeepsBudgets(s.db, stage, cutoff, now, s.epochs, Tries(policy));
    ReapIsPolite(s.db, stage, cutoff, now);
    WorkersStable(s, after, policy);
  }

  lemma PreparedKeepsInv(s: Sys, ids: seq<nat>, from: Phase, now: nat, policy: PipelinePolicy)
    requires Inv(s, policy)
    ensures Inv(Next(s, Prepared(ids, from, now), policy), policy)
  {
    hide LeasesHold, MergeForest, UniqueKeys, ContentsOk, DecisionsOk, ResultsOk;
    hide SourcesExact, Budgets, WorkerOk, DistinctAttempts, PreparedDb, PrepareFault, Polite;
    var after := After(s.db, PrepareReprocess(s.db, ids, from, now));
    PrepareKeepsSound(s.db, ids, from, now);
    if PrepareFault(s.db, ids, from).None? {
      PreparedIdentity(s.db, ids, from, now);
      UntouchedSources(s.db, after, s.seen);
      PrepareKeepsBudgets(s.db, ids, from, now, s.epochs, Tries(policy));
      PrepareIsPolite(s.db, ids, from, now);
      WorkersStable(s, after, policy);
    }
  }

  lemma PreparedIdentity(db: Db, ids: seq<nat>, from: Phase, now: nat)
    requires JobsOk(db) && PrepareFault(db, ids, from).None?
    ensures KeepsIdentity(db, PreparedDb(db, ids, from, now))
  {
    var after := PreparedDb(db, ids, from, now);
    forall j | 0 <= j < |db.jobs| ensures after.jobs[j].mergedInto == db.jobs[j].mergedInto {
      assert JobRow(db.jobs[j]);
    }
  }

  /** A worker keeps its attempt; a claim makes one nobody else can have. */
  lemma StepAttempt(db: Db, w: Worker, input: Input, policy: PipelinePolicy)
    requires WorkerOk(db, w, policy)
    ensures var w' := Step(db, w, input, policy).1;
            w'.attempt == w.attempt || (w.attempt.None? && w'.attempt == Some(|db.attempts|))
  {
  }

  lemma SteppedStaysDistinct(db: Db, workers: seq<Worker>, i: nat, w': Worker, policy: PipelinePolicy)
    requires DistinctAttempts(workers) && i < |workers|
    requires forall k :: 0 <= k < |workers| ==> WorkerOk(db, workers[k], policy)
    requires w'.attempt == workers[i].attempt || w'.attempt == Some(|db.attempts|)
    ensures DistinctAttempts(workers[i := w'])
  {
    forall k | 0 <= k < |workers| ensures workers[k].attempt != Some(|db.attempts|) {
      assert WorkerOk(db, workers[k], policy);
    }
  }

  lemma SteppedOthersOk(db: Db, after: Db, workers: seq<Worker>, i: nat, policy: PipelinePolicy)
    requires i < |workers| && DistinctAttempts(workers) && Polite(db, after, workers[i].attempt)
    requires forall k :: 0 <= k < |workers| ==> WorkerOk(db, workers[k], policy)
    ensures forall k :: 0 <= k < |workers| && k != i ==> WorkerOk(after, workers[k], policy)
  {
    forall k | 0 <= k < |workers| && k != i ensures WorkerOk(after, workers[k], policy) {
      WorkerStable(db, after, workers[k], policy);
    }
  }

  lemma SteppedKeepsInv(s: Sys, i: nat, input: Input, policy: PipelinePolicy)
    requires Inv(s, policy) && i < |s.workers|
    ensures Inv(Next(s, Stepped(i, input), policy), policy)
  {
    hide LeasesHold, MergeForest, UniqueKeys, ContentsOk, DecisionsOk, ResultsOk;
    hide SourcesExact, Budgets, WorkerOk, DistinctAttempts;
    var w := s.workers[i];
    var (after, w') := Step(s.db, w, input, policy);
    StepKeepsSound(s.db, w, input, policy);
    StepKeepsWorker(s.db, w, input, policy);
    StepKeepsSources(s.db, w, input, policy, s.seen);
    StepKeepsBudgets(s.db, w, input, policy, s.epochs);
    StepIsPolite(s.db, w, input, policy);
    SteppedOthersOk(s.db, after, s.workers, i, policy);
    StepAttempt(s.db, w, input, policy);
    SteppedStaysDistinct(s.db, s.workers, i, w', policy);
    SteppedInv(s, after, i, w', policy);
  }

  lemma SteppedInv(s: Sys, after: Db, i: nat, w': Worker, policy: PipelinePolicy)
    requires i < |s.workers| && WorkerOk(after, w', policy)
    requires Sound(after) && SourcesExact(after, s.seen) && Budgets(after, s.epochs, Tries(policy))
    requires forall k :: 0 <= k < |s.workers| && k != i ==> WorkerOk(after, s.workers[k], policy)
    requires DistinctAttempts(s.workers[i := w'])
    ensures Inv(s.(db := after, workers := s.workers[i := w']), policy)
  {
  }

  lemma CrashedKeepsInv(s: Sys, i: nat, policy: PipelinePolicy)
    requires Inv(s, policy)
    ensures Inv(Next(s, Crashed(i), policy), policy)
  {
    hide Sound, SourcesExact, Budgets;
    if i < |s.workers| {
      assert WorkerOk(s.db, s.workers[i], policy);
      assert WorkerOk(s.db, s.workers[i].(pc := Gone), policy);
    }
  }

  lemma SpawnedKeepsInv(s: Sys, job: nat, stage: Stage, trigger: Trigger, policy: PipelinePolicy)
    requires Inv(s, policy)
    ensures Inv(Next(s, Spawned(job, stage, trigger), policy), policy)
  {
    hide Sound, SourcesExact, Budgets;
  }

  lemma NextKeepsInv(s: Sys, e: Event, policy: PipelinePolicy)
    requires Inv(s, policy)
    ensures Inv(Next(s, e, policy), policy)
  {
    hide Inv;
    match e
    case Observed(company, items) => ObservedKeepsInv(s, company, items, policy);
    case Spawned(job, stage, trigger) => SpawnedKeepsInv(s, job, stage, trigger, policy);
    case Stepped(i, input) =>
      if i < |s.workers| {
        SteppedKeepsInv(s, i, input, policy);
      }
    case Crashed(i) => CrashedKeepsInv(s, i, policy);
    case Reaped(stage, cutoff, now) => ReapedKeepsInv(s, stage, cutoff, now, policy);
    case Prepared(ids, from, now) => PreparedKeepsInv(s, ids, from, now, policy);
  }

  lemma RunKeepsInv(s: Sys, events: seq<Event>, policy: PipelinePolicy)
    requires Inv(s, policy)
    ensures Inv(Run(s, events, policy), policy)
  {
    var p := (t: Sys) => Inv(t, policy);
    var next := (t: Sys, e: Event) => Next(t, e, policy);
    forall t, e | p(t) ensures p(next(t, e)) {
      NextKeepsInv(t, e, policy);
    }
    Induction(s, events, next, p, (_: Event) => true);
  }

  lemma StartIsSound(policy: PipelinePolicy)
    ensures Inv(START, policy)
  {
  }

  ghost predicate Reachable(s: Sys, policy: PipelinePolicy) {
    exists events :: s == Run(START, events, policy)
  }

  lemma ReachableInv(s: Sys, policy: PipelinePolicy)
    requires Reachable(s, policy)
    ensures Inv(s, policy)
  {
    var events :| s == Run(START, events, policy);
    StartIsSound(policy);
    RunKeepsInv(START, events, policy);
  }
}
