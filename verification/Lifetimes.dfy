/** One worker followed over a whole run: what it can still do once it has lost its lease,
    and where it gets when nothing disturbs it. */
module Lifetimes {
  import opened Models
  import opened Policy
  import opened Runs
  import opened Transactions
  import opened Invariants
  import opened Sources
  import opened Workers
  import opened Leases
  import opened Steps
  import opened Budget
  import opened System
  import opened Guarantees

  // ---- a worker stays the same worker ----

  /** `later` is `w` further on: the same job, stage, trigger and, once claimed, attempt. */
  predicate SameWorker(w: Worker, later: Worker) {
    later.job == w.job && later.stage == w.stage && later.trigger == w.trigger
      && (w.attempt.Some? ==> later.attempt == w.attempt)
  }

  lemma StepKeepsIdentityOf(db: Db, w: Worker, input: Input, policy: PipelinePolicy)
    requires WorkerOk(db, w, policy)
    ensures SameWorker(w, Step(db, w, input, policy).1)
  {
    hide StoreCheckpoint, MergeDuplicate, AdvancePhase, HandOff, AcceptDecision, AcceptResult, Release, CurrentDecision,
      CurrentContent, NextState;
  }

  /** No event but its own step and its own crash touches a worker. */
  lemma NextKeepsWorkers(s: Sys, e: Event, i: nat, policy: PipelinePolicy)
    requires Inv(s, policy) && i < |s.workers|
    ensures var after := Next(s, e, policy);
      && i < |after.workers| && SameWorker(s.workers[i], after.workers[i])
      && (!(e.Stepped? && e.worker == i) && !(e.Crashed? && e.worker == i) ==> after.workers[i] == s.workers[i])
      && (e.Crashed? && e.worker == i ==> after.workers[i] == s.workers[i].(pc := Gone))
  {
    hide Step, Observe, PrepareReprocess, ReapStale, WorkerOk, Sound, SourcesExact, Budgets, DistinctAttempts;
    if e.Stepped? && e.worker == i {
      StepKeepsIdentityOf(s.db, s.workers[i], e.input, policy);
    }
  }

  // ---- a lost lease, for the rest of the run ----

  /** Worker `i` of `s` has claimed and lost its lease. */
  predicate HasLost(s: Sys, i: nat) {
    i < |s.workers| && s.workers[i].attempt.Some? && !Holds(s.db, s.workers[i])
  }

  lemma LostStaysLost(s: Sys, e: Event, i: nat, policy: PipelinePolicy)
    requires Inv(s, policy) && HasLost(s, i)
    ensures HasLost(Next(s, e, policy), i)
  {
    hide Next, JobsOk, ContentsOk, DecisionsOk, ResultsOk, SourcesExact, Budgets, DistinctAttempts;
    var after := Next(s, e, policy);
    NextKeepsWorkers(s, e, i, policy);
    NextEvolves(s, e, policy);
    NextKeepsInv(s, e, policy);
    LostIsFinished(s.db, s.workers[i], policy);
    var w := after.workers[i];
    if w.job < |after.db.jobs| {
      assert LeaseRow(after.db.jobs[w.job], w.job, after.db.attempts);
    }
  }

  lemma RunStaysLost(s: Sys, events: seq<Event>, i: nat, policy: PipelinePolicy)
    requires Inv(s, policy) && HasLost(s, i)
    ensures HasLost(Run(s, events, policy), i)
  {
    var next := (t: Sys, e: Event) => Next(t, e, policy);
    var p := (t: Sys) => Inv(t, policy) && HasLost(t, i);
    forall t, e | p(t) ensures p(next(t, e)) {
      NextKeepsInv(t, e, policy);
      LostStaysLost(t, e, i, policy);
    }
    Induction(s, events, next, p, (_: Event) => true);
  }

  /** A run after a run is a run. */
  lemma ReachableOn(s: Sys, events: seq<Event>, policy: PipelinePolicy)
    requires Reachable(s, policy)
    ensures Reachable(Run(s, events, policy), policy)
  {
    var before :| s == Run(START, before, policy);
    Split(START, before, events, (t: Sys, e: Event) => Next(t, e, policy));
    assert Run(s, events, policy) == Run(START, before + events, policy);
  }

  /** Once a worker has lost its lease, then at any later time, after whatever has happened in
      between, its step changes nothing but for one added row of content history. */
  lemma FencedForever(s: Sys, events: seq<Event>, i: nat, input: Input, policy: PipelinePolicy)
    requires Reachable(s, policy) && HasLost(s, i)
    ensures var later := Run(s, events, policy);
      && HasLost(later, i) && later.workers[i].attempt == s.workers[i].attempt
      && var after := Next(later, Stepped(i, input), policy).db;
        || after == later.db
        || exists posting :: after == later.db.(contents := later.db.contents + [Content(s.workers[i].job, posting)])
  {
    hide Next;
    ReachableInv(s, policy);
    RunStaysLost(s, events, i, policy);
    ReachableOn(s, events, policy);
    RunKeepsWorker(s, events, i, policy);
    Fencing(Run(s, events, policy), i, input, policy);
  }

  lemma RunKeepsWorker(s: Sys, events: seq<Event>, i: nat, policy: PipelinePolicy)
    requires Inv(s, policy) && i < |s.workers|
    ensures i < |Run(s, events, policy).workers| && SameWorker(s.workers[i], Run(s, events, policy).workers[i])
  {
    var w := s.workers[i];
    var next := (t: Sys, e: Event) => Next(t, e, policy);
    var p := (t: Sys) => Inv(t, policy) && i < |t.workers| && SameWorker(w, t.workers[i]);
    forall t, e | p(t) ensures p(next(t, e)) {
      NextKeepsInv(t, e, policy);
      NextKeepsWorkers(t, e, i, policy);
    }
    Induction(s, events, next, p, (_: Event) => true);
  }

  // ---- content rows over a worker's life ----

  predicate AddsContent(s: Sys, e: Event, i: nat, policy: PipelinePolicy) {
    e.Stepped? && e.worker == i && |Next(s, e, policy).db.contents| > |s.db.contents|
  }

  /** How many of the events are steps of worker `i` that add a content row. */
  function ContentsAdded(s: Sys, events: seq<Event>, i: nat, policy: PipelinePolicy): nat
    decreases |events|
  {
    if |events| == 0 then 0
    else
      (if AddsContent(s, events[0], i, policy) then 1 else 0)
      + ContentsAdded(Next(s, events[0], policy), events[1..], i, policy)
  }

  lemma OnlyStoringAdds(db: Db, w: Worker, input: Input, policy: PipelinePolicy)
    ensures |Step(db, w, input, policy).0.contents| > |db.contents| ==> w.pc.Storing?
  {
    hide StoredContent, DuplicateOf, MovedSources, EligibleCheckpoint;
  }

  lemma NextLowersRank(s: Sys, e: Event, i: nat, policy: PipelinePolicy)
    requires Inv(s, policy) && i < |s.workers|
    ensures var after := Next(s, e, policy);
      && i < |after.workers| && Rank(after.workers[i].pc) <= Rank(s.workers[i].pc)
      && (e.Stepped? && e.worker == i && Rank(s.workers[i].pc) > 0 ==>
        Rank(after.workers[i].pc) < Rank(s.workers[i].pc))
      && (AddsContent(s, e, i, policy) ==> s.workers[i].pc.Storing?)
  {
    hide Next, Step, Sound, SourcesExact, Budgets, DistinctAttempts, WorkerOk;
    NextKeepsWorkers(s, e, i, policy);
    if e.Stepped? && e.worker == i {
      NextIsStep(s, i, e.input, policy);
      OnlyStoringAdds(s.db, s.workers[i], e.input, policy);
      if Rank(s.workers[i].pc) > 0 {
        StepLowersRank(s.db, s.workers[i], e.input, policy);
      } else {
        EndedStaysEnded(s.db, s.workers[i], e.input, policy);
      }
    }
  }

  lemma NextIsStep(s: Sys, i: nat, input: Input, policy: PipelinePolicy)
    requires i < |s.workers|
    ensures var (db, w) := Step(s.db, s.workers[i], input, policy);
      Next(s, Stepped(i, input), policy) == s.(db := db, workers := s.workers[i := w])
  {
    hide Step;
  }

  lemma EndedStaysEnded(db: Db, w: Worker, input: Input, policy: PipelinePolicy)
    requires Rank(w.pc) == 0
    ensures Step(db, w, input, policy) == (db, w)
  {
  }

  /** Over its whole life a worker adds at most one content row, and none any more once it is
      past storing: the only writes a fence lets through. */
  lemma {:induction false} ContentAddedOnce(s: Sys, events: seq<Event>, i: nat, policy: PipelinePolicy)
    requires Inv(s, policy) && i < |s.workers|
    ensures ContentsAdded(s, events, i, policy) <= if Rank(s.workers[i].pc) >= 13 then 1 else 0
    decreases |events|
  {
    hide Next, Inv, AddsContent;
    if |events| > 0 {
      NextKeepsInv(s, events[0], policy);
      NextLowersRank(s, events[0], i, policy);
      AddingIsAStep(s, events[0], i, policy);
      ContentAddedOnce(Next(s, events[0], policy), events[1..], i, policy);
    }
  }

  lemma AddingIsAStep(s: Sys, e: Event, i: nat, policy: PipelinePolicy)
    ensures AddsContent(s, e, i, policy) ==> e.Stepped? && e.worker == i
  {
  }

  // ---- an undisturbed worker ----

  /** Nothing outside stops worker `i`: it is not crashed, its own steps meet no exception,
      and no reaper of its stage looks back far enough to take its attempt. */
  predicate Spared(e: Event, i: nat, w: Worker, startedAt: nat) {
    && !(e.Crashed? && e.worker == i)
    && (e.Stepped? && e.worker == i ==> e.input.failure.None?)
    && (e.Reaped? && e.stage == w.stage ==> e.cutoff <= startedAt)
  }

  /** Worker `i` is at work under its lease, or has reported. */
  predicate OnCourse(s: Sys, i: nat) {
    && i < |s.workers|
    && var w := s.workers[i];
      if w.pc.Done? then w.pc.report.Reported? else Holds(s.db, w) && Working(w.pc)
  }

  lemma HolderKeepsLease(db: Db, w: Worker, input: Input, policy: PipelinePolicy)
    requires Sound(db) && WorkerOk(db, w, policy) && Holds(db, w) && Working(w.pc) && input.failure.None?
    requires w.pc.ReadSources? ==> HasSource(db, w.job)
    ensures var (after, w') := Step(db, w, input, policy);
      if w'.pc.Done? then w'.pc.report.Reported? else Holds(after, w') && Working(w'.pc)
  {
    hide HandOff, AcceptDecision, AcceptResult, MergeDuplicate, StoreCheckpoint, Release, JobsOk, ContentsOk,
      DecisionsOk;
    hide ResultsOk;
    HolderMovesOn(db, w, input, policy);
    StepKeepsHold(db, w, input, policy);
  }

  /** A worker's step ends with the lease, unless it ends the worker. */
  lemma StepKeepsHold(db: Db, w: Worker, input: Input, policy: PipelinePolicy)
    requires LeasesHold(db) && WorkerOk(db, w, policy) && Holds(db, w) && Working(w.pc)
    ensures var (after, w') := Step(db, w, input, policy);
      w'.pc.Done? || w'.pc.Skipping? || w'.pc.Failing? || w'.pc.Gone? || (Holds(after, w') && Working(w'.pc))
  {
    hide DuplicateOf, MovedSources, StoredContent, EligibleCheckpoint, RetiredDecisions, RetiredResults;
    assert LeaseRow(db.jobs[w.job], w.job, db.attempts);
    if w.pc.Merging? {
      DuplicateIsLive(db, w.job, CompanyOf(db, w.job), w.pc.posting.requisition, w.pc.posting.fingerprint);
    }
  }

  lemma OwnStepKeepsCourse(s: Sys, i: nat, input: Input, policy: PipelinePolicy)
    requires Inv(s, policy) && OnCourse(s, i) && input.failure.None?
    ensures OnCourse(Next(s, Stepped(i, input), policy), i)
  {
    hide Next, Step, Budgets, DistinctAttempts, JobsOk, ContentsOk, DecisionsOk, ResultsOk, WorkerOk;
    var w := s.workers[i];
    NextIsStep(s, i, input, policy);
    if w.pc.Done? {
      EndedStaysEnded(s.db, w, input, policy);
    } else {
      HolderHasSource(s.db, s.seen, w, policy);
      HolderKeepsLease(s.db, w, input, policy);
    }
  }

  lemma HolderHasSource(db: Db, seen: set<Sighting>, w: Worker, policy: PipelinePolicy)
    requires Sound(db) && SourcesExact(db, seen) && WorkerOk(db, w, policy) && Holds(db, w)
    ensures HasSource(db, w.job)
  {
    hide SourcesExact, HasSource;
    HolderFacts(db, w, policy);
    LiveJobsOwnSources(db, seen, w.job);
  }

  /** Nobody else's step takes a lease. */
  lemma OthersStepKeepsCourse(s: Sys, i: nat, k: nat, input: Input, policy: PipelinePolicy)
    requires Reachable(s, policy) && OnCourse(s, i) && k != i
    ensures OnCourse(Next(s, Stepped(k, input), policy), i)
  {
    hide Next, Step, Budgets, JobsOk, ContentsOk, DecisionsOk, ResultsOk, WorkerOk, SourcesExact;
    ReachableInv(s, policy);
    NextKeepsWorkers(s, Stepped(k, input), i, policy);
    var w := s.workers[i];
    if !w.pc.Done? {
      if k < |s.workers| {
        NonInterference(s, k, input, w.job, policy);
      } else {
        NoSuchWorker(s, k, input, policy);
      }
    }
  }

  lemma NoSuchWorker(s: Sys, k: nat, input: Input, policy: PipelinePolicy)
    requires k >= |s.workers|
    ensures Next(s, Stepped(k, input), policy) == s
  {
  }

  lemma OtherEventKeepsCourse(s: Sys, e: Event, i: nat, policy: PipelinePolicy)
    requires Reachable(s, policy) && OnCourse(s, i) && !e.Stepped?
    requires s.workers[i].attempt.Some? && s.workers[i].attempt.value < |s.db.attempts|
    requires Spared(e, i, s.workers[i], s.db.attempts[s.workers[i].attempt.value].startedAt)
    ensures OnCourse(Next(s, e, policy), i)
  {
    hide Next, Budgets, JobsOk, ContentsOk, DecisionsOk, ResultsOk, WorkerOk, SourcesExact, DistinctAttempts;
    ReachableInv(s, policy);
    NextKeepsWorkers(s, e, i, policy);
    var w := s.workers[i];
    if !w.pc.Done? {
      if e.Reaped? {
        AttemptHasStage(s.db, w, policy);
        NextEvolves(s, e, policy);
        assert e == Reaped(e.stage, e.cutoff, e.now);
        LeasesAreRecoverable(s, w.job, e.cutoff, e.now, e.stage, policy);
      } else {
        RowOfLeasedJob(s, e, w.job, policy);
      }
    }
  }

  lemma AttemptHasStage(db: Db, w: Worker, policy: PipelinePolicy)
    requires WorkerOk(db, w, policy) && Holds(db, w)
    ensures w.attempt.value < |db.attempts| && db.attempts[w.attempt.value].stage == w.stage
  {
  }

  /** Observing and preparing leave the row of a leased job alone. */
  lemma RowOfLeasedJob(s: Sys, e: Event, j: nat, policy: PipelinePolicy)
    requires Inv(s, policy) && j < |s.db.jobs| && s.db.jobs[j].lease.Some? && !e.Stepped? && !e.Reaped?
    ensures var jobs := Next(s, e, policy).db.jobs; j < |jobs| && jobs[j] == s.db.jobs[j]
  {
    assert LeaseRow(s.db.jobs[j], j, s.db.attempts);
    match e
    case Observed(company, items) => ObserveKeepsRows(s.db, company, items);
    case Prepared(ids, from, now) => PrepareLeavesLeased(s.db, ids, from, now, j);
    case _ =>
  }

  lemma ObserveKeepsRows(db: Db, company: string, items: seq<Observation>)
    requires JobsOk(db)
    ensures db.jobs <= Observe(db, company, items).jobs
  {
    hide UniqueKeys;
    NewKeys(db.jobs, company, KeysOf(items));
    SourcesOnly(db.(jobs := WithKeys(db.jobs, company, KeysOf(items))), company, items);
  }

  lemma PrepareLeavesLeased(db: Db, ids: seq<nat>, from: Phase, now: nat, j: nat)
    requires j < |db.jobs| && db.jobs[j].status == InProgress
    ensures var after := After(db, PrepareReprocess(db, ids, from, now)).jobs; j < |after| && after[j] == db.jobs[j]
  {
    hide CheckpointFor, CheckpointFault;
  }

  /** How many of the events are steps of worker `i`. */
  function StepsOf(events: seq<Event>, i: nat): nat {
    if |events| == 0 then 0
    else (if events[0].Stepped? && events[0].worker == i then 1 else 0) + StepsOf(events[1..], i)
  }

  lemma NextKeepsCourse(s: Sys, e: Event, i: nat, startedAt: nat, policy: PipelinePolicy)
    requires Reachable(s, policy) && OnCourse(s, i)
    requires StartedAt(s, i, startedAt) && Spared(e, i, s.workers[i], startedAt)
    ensures OnCourse(Next(s, e, policy), i) && StartedAt(Next(s, e, policy), i, startedAt)
  {
    hide Next, Inv, OnCourse;
    ReachableInv(s, policy);
    NextKeepsWorkers(s, e, i, policy);
    NextEvolves(s, e, policy);
    if !e.Stepped? {
      OtherEventKeepsCourse(s, e, i, policy);
    } else if e.worker == i {
      OwnStepKeepsCourse(s, i, e.input, policy);
    } else {
      OthersStepKeepsCourse(s, i, e.worker, e.input, policy);
    }
  }

  /** The attempt of worker `i` started then. */
  predicate StartedAt(s: Sys, i: nat, startedAt: nat) {
    i < |s.workers| && s.workers[i].attempt.Some? && s.workers[i].attempt.value < |s.db.attempts|
    && s.db.attempts[s.workers[i].attempt.value].startedAt == startedAt
  }

  lemma {:induction false} UndisturbedRun(s: Sys, events: seq<Event>, i: nat, startedAt: nat, policy: PipelinePolicy)
    requires Reachable(s, policy) && OnCourse(s, i) && StartedAt(s, i, startedAt)
    requires forall k :: 0 <= k < |events| ==> Spared(events[k], i, s.workers[i], startedAt)
    ensures var later := Run(s, events, policy);
      && OnCourse(later, i) && (Rank(later.workers[i].pc) == 0
        || Rank(later.workers[i].pc) + StepsOf(events, i) <= Rank(s.workers[i].pc))
    decreases |events|
  {
    hide Next, OnCourse, StartedAt, Spared, Rank, Inv;
    if |events| > 0 {
      var e, after := events[0], Next(s, events[0], policy);
      ReachableInv(s, policy);
      CourseInRange(s, i);
      NextKeepsCourse(s, e, i, startedAt, policy);
      NextKeepsWorkers(s, e, i, policy);
      NextLowersRank(s, e, i, policy);
      OneStepOn(s, e, policy);
      SparedToo(events, s.workers[i], after.workers[i], i, startedAt);
      UndisturbedRun(after, events[1..], i, startedAt, policy);
    }
  }

  lemma CourseInRange(s: Sys, i: nat)
    requires OnCourse(s, i)
    ensures i < |s.workers|
  {
  }

  lemma SparedToo(events: seq<Event>, w: Worker, later: Worker, i: nat, startedAt: nat)
    requires |events| > 0 && later.stage == w.stage
    requires forall k :: 0 <= k < |events| ==> Spared(events[k], i, w, startedAt)
    ensures forall k :: 0 <= k < |events[1..]| ==> Spared(events[1..][k], i, later, startedAt)
  {
  }

  lemma OneStepOn(s: Sys, e: Event, policy: PipelinePolicy)
    requires Reachable(s, policy)
    ensures Reachable(Next(s, e, policy), policy)
  {
    hide Next;
    ReachableOn(s, [e], policy);
    assert [e][1..] == [];
    assert Run(Next(s, e, policy), [], policy) == Next(s, e, policy);
  }

  /** Whatever everybody else does meanwhile: a worker under its lease that no crash, exception
      or far enough reaper stops reports a status once it has taken its steps, seventeen at
      most. */
  lemma UndisturbedWorkersReport(s: Sys, events: seq<Event>, i: nat, startedAt: nat, policy: PipelinePolicy)
    requires Reachable(s, policy) && i < |s.workers| && Holds(s.db, s.workers[i]) && Working(s.workers[i].pc)
    requires StartedAt(s, i, startedAt) && forall k :: 0 <= k < |events| ==>
      Spared(events[k], i, s.workers[i], startedAt)
    requires StepsOf(events, i) >= 17
    ensures var w := Run(s, events, policy).workers;
      i < |w| && w[i].pc.Done? && w[i].pc.report.Reported?
  {
    hide Next, Spared, Inv;
    ReachableInv(s, policy);
    UndisturbedRun(s, events, i, startedAt, policy);
  }
}
