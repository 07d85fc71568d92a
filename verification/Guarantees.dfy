/** What the pipeline promises in every reachable state and over every run. */
module Guarantees {
  import opened Models
  import opened Policy
  import opened Runs
  import opened Transactions
  import opened Invariants
  import opened Sources
  import opened Workers
  import opened Leases
  import opened Steps
  import opened Budget
  import opened System

  // ---- leases and attempts ----

  /** A job is in progress exactly when it holds a lease, a lease is an unfinished attempt of
      that very job and stage, and an unfinished attempt is exactly its job's lease. */
  lemma LeaseExclusive(s: Sys, policy: PipelinePolicy)
    requires Reachable(s, policy)
    ensures forall j :: 0 <= j < |s.db.jobs| ==>
      (s.db.jobs[j].status == InProgress <==> s.db.jobs[j].lease.Some?)
    ensures forall j :: 0 <= j < |s.db.jobs| && s.db.jobs[j].lease.Some? ==>
      var a := s.db.jobs[j].lease.value;
      a < |s.db.attempts| && s.db.attempts[a].job == j && s.db.attempts[a].stage == StageOf(s.db.jobs[j].phase)
    ensures forall a :: 0 <= a < |s.db.attempts| ==>
      s.db.attempts[a].job < |s.db.jobs|
      && (s.db.attempts[a].finish.None? <==> s.db.jobs[s.db.attempts[a].job].lease == Some(a))
  {
    ReachableInv(s, policy);
    forall j | 0 <= j < |s.db.jobs| ensures LeaseRow(s.db.jobs[j], j, s.db.attempts) {
    }
    forall a | 0 <= a < |s.db.attempts| ensures AttemptRow(s.db.attempts[a], a, s.db.jobs) {
      assert LeaseRow(s.db.jobs[s.db.attempts[a].job], s.db.attempts[a].job, s.db.attempts);
    }
  }

  /** Over a whole run a finished attempt never changes, rows are only added, and a worker
      that has lost its lease never holds it again. */
  lemma FinishedForever(s: Sys, events: seq<Event>, policy: PipelinePolicy)
    requires Reachable(s, policy)
    ensures var later := Run(s, events, policy);
      && Evolves(s.db, later.db)
      && forall i :: 0 <= i < |s.workers| && s.workers[i].attempt.Some? && !Holds(s.db, s.workers[i]) ==>
           !Holds(later.db, s.workers[i])
  {
    ReachableInv(s, policy);
    var later := Run(s, events, policy);
    RunKeepsInv(s, events, policy);
    RunEvolves(s, events, policy);
    forall i | 0 <= i < |s.workers| && s.workers[i].attempt.Some? && !Holds(s.db, s.workers[i])
      ensures !Holds(later.db, s.workers[i])
    {
      LostIsFinished(s.db, s.workers[i], policy);
      if s.workers[i].job < |later.db.jobs| {
        assert LeaseRow(later.db.jobs[s.workers[i].job], s.workers[i].job, later.db.attempts);
      }
    }
  }

  lemma NextEvolves(s: Sys, e: Event, policy: PipelinePolicy)
    requires Inv(s, policy)
    ensures Evolves(s.db, Next(s, e, policy).db)
  {
    match e
    case Observed(company, items) => ObserveIsPolite(s.db, company, items);
    case Stepped(i, input) =>
      if i < |s.workers| {
        StepIsPolite(s.db, s.workers[i], input, policy);
      }
    case Reaped(stage, cutoff, now) => ReapIsPolite(s.db, stage, cutoff, now);
    case Prepared(ids, from, now) => PrepareIsPolite(s.db, ids, from, now);
    case Spawned(_, _, _) =>
    case Crashed(_) =>
  }

  lemma EvolvesComposes(a: Db, b: Db, c: Db)
    requires Evolves(a, b) && Evolves(b, c)
    ensures Evolves(a, c)
  {
  }

  lemma RunEvolves(s: Sys, events: seq<Event>, policy: PipelinePolicy)
    requires Inv(s, policy)
    ensures Evolves(s.db, Run(s, events, policy).db)
  {
    var next := (t: Sys, e: Event) => Next(t, e, policy);
    var p := (t: Sys) => Inv(t, policy);
    var r := (t: Sys, u: Sys) => Evolves(t.db, u.db);
    forall t, e | p(t) ensures p(next(t, e)) && r(t, next(t, e)) {
      NextKeepsInv(t, e, policy);
      NextEvolves(t, e, policy);
    }
    forall t, u, v | r(t, u) && r(u, v) ensures r(t, v) {
      EvolvesComposes(t.db, u.db, v.db);
    }
    Relates(s, events, next, p, r);
  }

  // ---- fencing and non-interference ----

  /** A worker without its lease changes nothing, but for one row of content history. */
  lemma Fencing(s: Sys, i: nat, input: Input, policy: PipelinePolicy)
    requires Reachable(s, policy) && i < |s.workers|
    requires s.workers[i].attempt.Some? && !Holds(s.db, s.workers[i])
    ensures var after := Next(s, Stepped(i, input), policy).db;
      after == s.db
      || exists posting :: after == s.db.(contents := s.db.contents + [Content(s.workers[i].job, posting)])
  {
    ReachableInv(s, policy);
    var w := s.workers[i];
    LostIsFinished(s.db, w, policy);
    FencedStep(s.db, w, input, policy);
  }

  lemma FencedStep(db: Db, w: Worker, input: Input, policy: PipelinePolicy)
    requires WorkerOk(db, w, policy) && w.attempt.Some? && !Holds(db, w)
    requires !Unfinished(db, w.attempt.value)
    ensures var after := Step(db, w, input, policy).0;
      after == db || exists posting :: after == db.(contents := db.contents + [Content(w.job, posting)])
  {
  }

  /** The rows of a job leased to somebody else are left alone; it can only gain sources. */
  ghost predicate LeavesLeased(before: Db, after: Db, j: nat)
    requires j < |before.jobs|
  {
    && j < |after.jobs| && after.jobs[j] == before.jobs[j]
    && SameVerdicts(before.decisions, after.decisions, j)
    && SameExtractions(before.results, after.results, j)
    && forall url :: Owns(before, j, url) ==> Owns(after, j, url)
  }

  lemma NonInterference(s: Sys, i: nat, input: Input, j: nat, policy: PipelinePolicy)
    requires Reachable(s, policy) && i < |s.workers| && j < |s.db.jobs|
    requires s.db.jobs[j].lease.Some? && s.db.jobs[j].lease != s.workers[i].attempt
    ensures LeavesLeased(s.db, Next(s, Stepped(i, input), policy).db, j)
  {
    hide JobsOk, ContentsOk, DecisionsOk, ResultsOk, SourcesExact, Budgets, DistinctAttempts, LeavesLeased;
    ReachableInv(s, policy);
    assert LeaseRow(s.db.jobs[j], j, s.db.attempts);
    var w := s.workers[i];
    if w.pc.Merging? {
      MergingLeavesLeased(s.db, w, input, j, policy);
    } else {
      StepLeavesLeased(s.db, w, input, j, policy);
    }
  }

  lemma SameOwned(db: Db, after: Db, j: nat)
    requires after.sources == db.sources
    ensures forall url :: Owns(db, j, url) ==> Owns(after, j, url)
  {
  }

  lemma HandingOffLeavesLeased(db: Db, w: Worker, input: Input, j: nat, policy: PipelinePolicy)
    requires j < |db.jobs| && db.jobs[j].lease.Some? && db.jobs[j].lease != w.attempt && w.pc.HandingOff?
    ensures LeavesLeased(db, Step(db, w, input, policy).0, j)
  {
    hide EligibleCheckpoint, Owns, SameIdentity;
    EndingKeepsIdentity(db, w, input, policy);
    SameOwned(db, Step(db, w, input, policy).0, j);
  }

  lemma AcceptingLeavesLeased(db: Db, w: Worker, input: Input, j: nat, policy: PipelinePolicy)
    requires j < |db.jobs| && db.jobs[j].lease.Some? && db.jobs[j].lease != w.attempt && w.pc.Accepting?
    ensures LeavesLeased(db, Step(db, w, input, policy).0, j)
  {
    hide Owns, SameIdentity;
    EndingKeepsIdentity(db, w, input, policy);
    SameOwned(db, Step(db, w, input, policy).0, j);
  }

  lemma AcceptingResultLeavesLeased(db: Db, w: Worker, input: Input, j: nat, policy: PipelinePolicy)
    requires j < |db.jobs| && db.jobs[j].lease.Some? && db.jobs[j].lease != w.attempt && w.pc.AcceptingResult?
    ensures LeavesLeased(db, Step(db, w, input, policy).0, j)
  {
    hide Owns, SameIdentity;
    EndingKeepsIdentity(db, w, input, policy);
    SameOwned(db, Step(db, w, input, policy).0, j);
  }

  lemma StepLeavesLeased(db: Db, w: Worker, input: Input, j: nat, policy: PipelinePolicy)
    requires WorkerOk(db, w, policy) && j < |db.jobs| && !w.pc.Merging?
    requires db.jobs[j].status == InProgress && db.jobs[j].lease.Some? && db.jobs[j].lease != w.attempt
    ensures LeavesLeased(db, Step(db, w, input, policy).0, j)
  {
    hide HandOff, AcceptDecision, AcceptResult, StoredContent, Owns;
    if w.pc.HandingOff? {
      HandingOffLeavesLeased(db, w, input, j, policy);
    } else if w.pc.Accepting? {
      AcceptingLeavesLeased(db, w, input, j, policy);
    } else if w.pc.AcceptingResult? {
      AcceptingResultLeavesLeased(db, w, input, j, policy);
    } else {
      StepKeepsIdentity(db, w, input, policy);
      SameOwned(db, Step(db, w, input, policy).0, j);
    }
  }

  lemma MovedKeepsOthers(sources: map<nat, Source>, k: nat, into: nat, j: nat, url: string)
    requires j != k && exists s :: s in sources && sources[s] == Source(j, url)
    ensures var moved := MovedSources(sources, k, into); exists s :: s in moved && moved[s] == Source(j, url)
  {
    var s :| s in sources && sources[s] == Source(j, url);
    assert MovedSources(sources, k, into)[s] == Source(j, url);
  }

  lemma MergeLeavesOthers(db: Db, k: nat, into: nat, j: nat)
    requires j < |db.jobs| && k < |db.jobs| && j != k
    ensures LeavesLeased(db, MergeInto(db, k, into), j)
  {
    hide MovedSources;
    forall url | Owns(db, j, url) ensures Owns(MergeInto(db, k, into), j, url) {
      MovedKeepsOthers(db.sources, k, into, j, url);
    }
  }

  lemma MergingLeavesLeased(db: Db, w: Worker, input: Input, j: nat, policy: PipelinePolicy)
    requires WorkerOk(db, w, policy) && j < |db.jobs| && w.pc.Merging?
    requires db.jobs[j].status == InProgress && db.jobs[j].lease.Some? && db.jobs[j].lease != w.attempt
    ensures LeavesLeased(db, Step(db, w, input, policy).0, j)
  {
    hide DuplicateOf, MergeInto, WorkerOk;
    var posting, company := w.pc.posting, CompanyOf(db, w.job);
    var duplicate := DuplicateOf(db, w.job, company, posting.requisition, posting.fingerprint);
    DuplicateIsLive(db, w.job, company, posting.requisition, posting.fingerprint);
    if duplicate.Some? && w.job < |db.jobs| {
      if j != w.job {
        MergeLeavesOthers(db, w.job, duplicate.value, j);
      }
      if j != duplicate.value {
        MergeLeavesOthers(db, duplicate.value, w.job, j);
      }
    }
  }

  // ---- errors that cannot be reached ----

  predicate Working(pc: Pc) {
    !pc.Claiming? && !pc.Done? && !pc.Gone?
  }

  /** While a worker holds its lease, nothing the pipeline itself raises can stop it: no
      missing source, content, verdict or checkpoint, no row read twice, no attempt that
      cannot be finished.  Only the network, the model, the clock or a crash can. */
  lemma HolderNeverFailsByItself(s: Sys, i: nat, input: Input, policy: PipelinePolicy)
    requires Reachable(s, policy) && i < |s.workers| && Holds(s.db, s.workers[i])
    requires Working(s.workers[i].pc) && input.failure.None?
    ensures var pc := Next(s, Stepped(i, input), policy).workers[i].pc;
      !pc.Failing? && !pc.Skipping? && !pc.Resuming? && !pc.Gone? && (pc.Done? ==> pc.report.Reported?)
  {
    ReachableInv(s, policy);
    var w := s.workers[i];
    HolderFacts(s.db, w, policy);
    if w.pc.ReadSources? {
      LiveJobsOwnSources(s.db, s.seen, w.job);
    }
    HolderMovesOn(s.db, w, input, policy);
  }

  lemma HolderMovesOn(db: Db, w: Worker, input: Input, policy: PipelinePolicy)
    requires Sound(db) && WorkerOk(db, w, policy) && Holds(db, w) && Working(w.pc) && input.failure.None?
    requires w.pc.ReadSources? ==> HasSource(db, w.job)
    ensures var pc := Step(db, w, input, policy).1.pc;
      !pc.Failing? && !pc.Skipping? && !pc.Resuming? && !pc.Gone? && (pc.Done? ==> pc.report.Reported?)
  {
    hide HandOff, AcceptDecision, AcceptResult, Release, ResultsOk, AttemptRow;
    HolderFacts(db, w, policy);
    match w.pc
    case Storing(posting) => StoredIsRead(db, w.job, posting.hash);
    case Merging(posting, _) =>
      MergeTells(db, w.job, w.attempt.value, CompanyOf(db, w.job), posting.requisition, posting.fingerprint, input.now);
    case ReadVerdict(_) => VerdictReadOk(db, w, policy);
    case ReadDecision(_) => DecisionReadOk(db, w, policy);
    case _ => HolderEnds(db, w, input, policy);
  }

  lemma HolderEnds(db: Db, w: Worker, input: Input, policy: PipelinePolicy)
    requires LeasesHold(db) && WorkerOk(db, w, policy) && Holds(db, w) && Working(w.pc) && input.failure.None?
    requires !w.pc.Storing? && !w.pc.Merging? && !w.pc.ReadVerdict? && !w.pc.ReadDecision?
    requires w.pc.ReadSources? ==> HasSource(db, w.job)
    requires StageOf(db.jobs[w.job].phase) == w.stage
    requires w.pc.ReadContent? || w.pc.ReadPosting? ==> CurrentContent(db, w.job).Some?
    ensures var pc := Step(db, w, input, policy).1.pc;
      !pc.Failing? && !pc.Skipping? && !pc.Resuming? && !pc.Gone? && (pc.Done? ==> pc.report.Reported?)
  {
    assert LeaseRow(db.jobs[w.job], w.job, db.attempts);
  }

  /** `finish_owned_attempt` never raises in a transaction whose job update took the lease,
      and the unguarded `finish` of a skipping worker never writes. */
  lemma FinishingIsExact(s: Sys, i: nat, finish: Finish, policy: PipelinePolicy)
    requires Reachable(s, policy) && i < |s.workers| && s.workers[i].attempt.Some?
    ensures var w := s.workers[i];
      && (LeasedTo(s.db, w.job, w.attempt.value) <==> FinishOwned(s.db, w.job, w.attempt.value, finish, ()).Commit?)
      && (w.pc.Skipping? ==> FinishUnowned(s.db, w.attempt.value, finish) == Commit(s.db, false))
  {
    ReachableInv(s, policy);
    var w := s.workers[i];
    assert WorkerOk(s.db, w, policy);
    assert AttemptRow(s.db.attempts[w.attempt.value], w.attempt.value, s.db.jobs);
    assert LeaseRow(s.db.jobs[w.job], w.job, s.db.attempts);
    if w.pc.Skipping? {
      SkipperIsFinished(s.db, w, policy);
    }
  }

  // ---- every worker ends, and tells the truth ----

  /** Steps a worker can still take, whatever happens to it. */
  function Rank(pc: Pc): nat {
    match pc
    case Claiming => 17
    case ReadClaimed => 16
    case ReadSources => 15
    case Acquire => 14
    case Storing(_) => 13
    case Merging(_, _) => 12
    case Advancing(_) => 11
    case ReadContent | ReadPosting => 11
    case ReadVerdict(_) | ReadDecision(_) => 10
    case Judging(_) => 9
    case HandingOff(_, _) | Accepting(_, _) | Resuming(_) | Extracting(_) => 8
    case AcceptingResult(_) => 7
    case Failing(_, inHandler) => if inHandler then 3 else 6
    case Releasing(_, _, inHandler) => if inHandler then 2 else 5
    case Skipping(inHandler) => if inHandler then 1 else 4
    case Done(_) | Gone => 0
  }

  /** Whatever the store, the network and the model do, each step brings a worker closer to
      its end, so none takes more than seventeen. */
  lemma WorkersEnd(s: Sys, i: nat, input: Input, policy: PipelinePolicy)
    requires Reachable(s, policy) && i < |s.workers| && Rank(s.workers[i].pc) > 0
    ensures Rank(Next(s, Stepped(i, input), policy).workers[i].pc) < Rank(s.workers[i].pc) <= 17
  {
    hide Sound, SourcesExact, Budgets, DistinctAttempts, Next, Step, Rank;
    ReachableInv(s, policy);
    StepLowersRank(s.db, s.workers[i], input, policy);
    NextMovesWorker(s, i, input, policy);
  }

  lemma StepLowersRank(db: Db, w: Worker, input: Input, policy: PipelinePolicy)
    requires WorkerOk(db, w, policy) && Rank(w.pc) > 0
    ensures Rank(Step(db, w, input, policy).1.pc) < Rank(w.pc) <= 17
  {
    hide Step;
    if input.failure.Some? {
      FailureLowersRank(db, w, input, policy);
    } else if w.pc.Storing? || w.pc.Merging? || w.pc.HandingOff? {
      WritingLowersRank(db, w, input, policy);
    } else if Carried(w.pc).Some? {
      CarryingLowersRank(db, w, input, policy);
    } else {
      OtherLowersRank(db, w, input, policy);
    }
  }

  lemma NextMovesWorker(s: Sys, i: nat, input: Input, policy: PipelinePolicy)
    requires i < |s.workers|
    ensures Next(s, Stepped(i, input), policy).workers == s.workers[i := Step(s.db, s.workers[i], input, policy).1]
  {
  }

  lemma FailureLowersRank(db: Db, w: Worker, input: Input, policy: PipelinePolicy)
    requires Rank(w.pc) > 0 && input.failure.Some?
    ensures Rank(Step(db, w, input, policy).1.pc) < Rank(w.pc)
  {
  }

  lemma WritingLowersRank(db: Db, w: Worker, input: Input, policy: PipelinePolicy)
    requires w.attempt.Some? && input.failure.None? && (w.pc.Storing? || w.pc.Merging? || w.pc.HandingOff?)
    ensures Rank(Step(db, w, input, policy).1.pc) < Rank(w.pc)
  {
    hide DuplicateOf, MovedSources, StoredContent, EligibleCheckpoint, RetiredDecisions;
  }

  lemma CarryingLowersRank(db: Db, w: Worker, input: Input, policy: PipelinePolicy)
    requires w.attempt.Some? && input.failure.None? && Carried(w.pc).Some? && !w.pc.Merging? && !w.pc.HandingOff?
    ensures Rank(Step(db, w, input, policy).1.pc) < Rank(w.pc)
  {
    hide RetiredDecisions, RetiredResults, CurrentDecision;
  }

  lemma OtherLowersRank(db: Db, w: Worker, input: Input, policy: PipelinePolicy)
    requires WorkerOk(db, w, policy) && Rank(w.pc) > 0 && input.failure.None? && Carried(w.pc).None? && !w.pc.Storing?
    ensures Rank(Step(db, w, input, policy).1.pc) < Rank(w.pc)
  {
  }

  /** A worker that reports a status has ended its own attempt in that very status. */
  lemma ReportsAreRecorded(s: Sys, i: nat, policy: PipelinePolicy)
    requires Reachable(s, policy) && i < |s.workers|
    requires s.workers[i].pc.Done? && s.workers[i].pc.report.Reported?
    ensures var w := s.workers[i];
      && w.attempt.Some? && w.attempt.value < |s.db.attempts|
      && s.db.attempts[w.attempt.value].job == w.job
      && s.db.attempts[w.attempt.value].finish.Some?
      && s.db.attempts[w.attempt.value].finish.value.outcome == Ended(w.pc.report.status)
  {
    ReachableInv(s, policy);
    assert WorkerOk(s.db, s.workers[i], policy);
  }

  /** The job of `w` was released in this status by the very attempt that held its lease. */
  ghost predicate EndedAs(before: Db, after: Db, w: Worker, status: Status, now: nat) {
    && Holds(before, w) && w.attempt.value < |before.attempts| && w.job < |after.jobs|
    && var was, job := before.jobs[w.job], after.jobs[w.job];
      && job.status == status && job.lease.None? && job.content == was.content
      && job.phase == (if status == ReadyForExtraction then Extraction else if status == Merged then was.phase
        else w.phase)
      && job.attemptCount == (if status == ReadyForExtraction then 0 else was.attemptCount)
      && after.attempts == before.attempts[w.attempt.value :=
           before.attempts[w.attempt.value].(finish := Some(Finish(Ended(status), Some(w.phase), now)))]
  }

  /** A worker reports a status in the step in which it releases its job in that status, ends
      its own attempt with it and nobody else's. */
  lemma ReportingEndsTheJob(s: Sys, i: nat, input: Input, policy: PipelinePolicy)
    requires Reachable(s, policy) && i < |s.workers| && !s.workers[i].pc.Done?
    ensures var after := Next(s, Stepped(i, input), policy);
      var pc := after.workers[i].pc;
      pc.Done? && pc.report.Reported? ==> EndedAs(s.db, after.db, s.workers[i], pc.report.status, input.now)
  {
    hide ContentsOk, DecisionsOk, ResultsOk, SourcesExact, Budgets, DistinctAttempts, Step, EndedAs, JobsOk;
    ReachableInv(s, policy);
    NextMovesWorker(s, i, input, policy);
    StepReports(s.db, s.workers[i], input, policy);
  }

  lemma StepReports(db: Db, w: Worker, input: Input, policy: PipelinePolicy)
    requires LeasesHold(db) && WorkerOk(db, w, policy) && !w.pc.Done?
    ensures var (after, w') := Step(db, w, input, policy);
      w'.pc.Done? && w'.pc.report.Reported? ==> EndedAs(db, after, w, w'.pc.report.status, input.now)
  {
    hide Step, EndedAs, LeasesHold;
    if w.pc.Merging? {
      MergeReports(db, w, input, policy);
    } else if w.pc.HandingOff? || w.pc.Accepting? || w.pc.AcceptingResult? {
      AcceptanceReports(db, w, input, policy);
    } else {
      ReleaseReports(db, w, input, policy);
    }
  }

  lemma MergeReports(db: Db, w: Worker, input: Input, policy: PipelinePolicy)
    requires LeasesHold(db) && WorkerOk(db, w, policy) && w.pc.Merging?
    ensures var (after, w') := Step(db, w, input, policy);
      w'.pc.Done? && w'.pc.report.Reported? ==> EndedAs(db, after, w, w'.pc.report.status, input.now)
  {
    hide DuplicateOf, MovedSources;
    DuplicateIsLive(db, w.job, CompanyOf(db, w.job), w.pc.posting.requisition, w.pc.posting.fingerprint);
  }

  lemma AcceptanceReports(db: Db, w: Worker, input: Input, policy: PipelinePolicy)
    requires WorkerOk(db, w, policy) && (w.pc.HandingOff? || w.pc.Accepting? || w.pc.AcceptingResult?)
    ensures var (after, w') := Step(db, w, input, policy);
      w'.pc.Done? && w'.pc.report.Reported? ==> EndedAs(db, after, w, w'.pc.report.status, input.now)
  {
    hide RetiredDecisions, RetiredResults, EligibleCheckpoint;
  }

  lemma ReleaseReports(db: Db, w: Worker, input: Input, policy: PipelinePolicy)
    requires WorkerOk(db, w, policy) && !w.pc.Merging? && !w.pc.HandingOff? && !w.pc.Accepting?
      && !w.pc.AcceptingResult?
    requires !w.pc.Done?
    ensures var (after, w') := Step(db, w, input, policy);
      w'.pc.Done? && w'.pc.report.Reported? ==> EndedAs(db, after, w, w'.pc.report.status, input.now)
  {
    hide StoredContent, CurrentDecision, CurrentContent;
  }

  // ---- merges and sources ----

  function EventSightings(e: Event): set<Sighting> {
    if e.Observed? then SightingsOf(e.company, e.items) else {}
  }

  /** Everything the observations of a run have reported. */
  function SightingsIn(events: seq<Event>): set<Sighting> {
    Gather(events, EventSightings)
  }

  lemma NextSees(s: Sys, e: Event, policy: PipelinePolicy)
    ensures Next(s, e, policy).seen == s.seen + EventSightings(e)
  {
  }

  lemma RunSees(s: Sys, events: seq<Event>, policy: PipelinePolicy)
    ensures Run(s, events, policy).seen == s.seen + SightingsIn(events)
  {
    var next := (t: Sys, e: Event) => Next(t, e, policy);
    var p := (_: Sys) => true;
    var f := (t: Sys) => t.seen;
    forall t, e | p(t) ensures p(next(t, e)) && f(next(t, e)) == f(t) + EventSightings(e) {
      NextSees(t, e, policy);
    }
    Accumulates(s, events, next, p, f, EventSightings);
  }

  /** After any run the sources are exactly what was observed, each under the canonical job
      of its key: merging and retrying lose nothing and invent nothing. */
  lemma SourcesAreSightings(events: seq<Event>, policy: PipelinePolicy)
    ensures var db := Run(START, events, policy).db;
      && UniqueSources(db.sources)
      && KnownKeys(db.jobs, SightingsIn(events))
      && SourcePairs(db.sources) == Image(db.jobs, SightingsIn(events))
      && forall j :: 0 <= j < |db.jobs| ==> (HasSource(db, j) <==> db.jobs[j].status != Merged)
  {
    var s := Run(START, events, policy);
    assert Reachable(s, policy);
    ReachableInv(s, policy);
    RunSees(START, events, policy);
    assert START.seen + SightingsIn(events) == SightingsIn(events);
    forall j | 0 <= j < |s.db.jobs| ensures HasSource(s.db, j) <==> s.db.jobs[j].status != Merged {
      assert JobRow(s.db.jobs[j]);
      LiveJobsOwnSources(s.db, s.seen, j);
    }
  }

  /** Merged jobs point at older jobs of their company, and every chain ends at a live one. */
  lemma MergesAreForest(s: Sys, j: nat, policy: PipelinePolicy)
    requires Reachable(s, policy) && j < |s.db.jobs|
    ensures s.db.jobs[j].status == Merged <==> s.db.jobs[j].mergedInto.Some?
    ensures s.db.jobs[j].mergedInto.Some? ==>
      s.db.jobs[j].mergedInto.value < j && s.db.jobs[s.db.jobs[j].mergedInto.value].company == s.db.jobs[j].company
    ensures var root := s.db.jobs[Root(s.db.jobs, j)]; root.status != Merged && root.company == s.db.jobs[j].company
    ensures s.db.jobs[j].mergedInto.None? ==> Root(s.db.jobs, j) == j
    ensures s.db.jobs[j].mergedInto.Some? ==> Root(s.db.jobs, j) == Root(s.db.jobs, s.db.jobs[j].mergedInto.value)
  {
    ReachableInv(s, policy);
    RootIsCanonical(s.db.jobs, j);
    assert JobRow(s.db.jobs[j]) && JobRow(s.db.jobs[Root(s.db.jobs, j)]);
  }

  // ---- verdicts and results ----

  /** The one current decision of a job, if it has this verdict and is about the current content. */
  ghost predicate CurrentlyJudged(db: Db, j: nat, verdict: Verdict) {
    j < |db.jobs| && CurrentContent(db, j) == db.jobs[j].content
    && match CurrentDecision(db, j)
       case Row(d) =>
         d < |db.decisions| && db.decisions[d].verdict == verdict && db.jobs[j].content == Some(db.decisions[d].content)
       case _ => false
  }

  /** Status and phase always agree with what was decided and extracted from the current
      content; in particular whatever is left to extraction carries its checkpoint. */
  lemma VerdictsAreCurrent(s: Sys, j: nat, policy: PipelinePolicy)
    requires Reachable(s, policy) && j < |s.db.jobs|
    ensures !CurrentDecision(s.db, j).TooMany? && !CurrentResult(s.db, j).TooMany?
    ensures var job := s.db.jobs[j];
      && (job.phase == Extraction && job.status != Merged ==> CurrentlyJudged(s.db, j, Eligible))
      && (job.status == CompletedIneligible ==> CurrentlyJudged(s.db, j, Ineligible))
      && (job.status == UnknownVerdict ==> CurrentlyJudged(s.db, j, Unknown))
      && (job.status == CompletedEligible ==>
            && CurrentlyJudged(s.db, j, Eligible) && CurrentResult(s.db, j).Row?
            && CurrentResult(s.db, j).id < |s.db.results|
            && job.content == Some(s.db.results[CurrentResult(s.db, j).id].content))
      && (CurrentResult(s.db, j).Row? ==> job.status in {CompletedEligible, Merged})
  {
    ReachableInv(s, policy);
    var job := s.db.jobs[j];
    assert JobRow(job) && VerdictMatches(job, s.db.decisions, j);
    DecisionIsRead(s.db, j);
    ResultIsRead(s.db, j);
  }

  lemma ResultIsRead(db: Db, j: nat)
    requires OneCurrentResult(db.results)
    ensures match CurrentResult(db, j)
            case NoRow => forall r: nat :: !ResultFor(db.results, j, r)
            case Row(r) => ResultFor(db.results, j, r)
            case TooMany => false
  {
    var p := (r: nat) => ResultFor(db.results, j, r);
    ScalarOneIsUnique(|db.results|, p);
    assert forall r: nat :: p(r) == ResultFor(db.results, j, r);
  }

  // ---- claimability ----

  /** A reaper takes exactly the leases of its own stage that started before its cutoff, so
      every lease can be taken by one stage only; the job is then at once claimable by that
      stage's scheduled run. */
  lemma LeasesAreRecoverable(s: Sys, j: nat, cutoff: nat, now: nat, stage: Stage, policy: PipelinePolicy)
    requires Reachable(s, policy) && j < |s.db.jobs| && s.db.jobs[j].lease.Some?
    ensures var a := s.db.jobs[j].lease.value;
      var after := Next(s, Reaped(stage, cutoff, now), policy).db.jobs[j];
      a < |s.db.attempts|
      && if stage == s.db.attempts[a].stage && s.db.attempts[a].startedAt < cutoff then
           && after.lease.None? && Claimable(after, stage, now, false)
           && after.phase == s.db.jobs[j].phase && after.content == s.db.jobs[j].content
           && after.attemptCount == s.db.jobs[j].attemptCount
         else after == s.db.jobs[j]
  {
    hide JobsOk, ContentsOk, DecisionsOk, ResultsOk, SourcesExact, Budgets, DistinctAttempts, WorkerOk;
    ReachableInv(s, policy);
    assert LeaseRow(s.db.jobs[j], j, s.db.attempts);
  }

  /** A job that waits is claimable, once due, by exactly one stage and trigger; any other
      job by none. */
  lemma ClaimableOnce(s: Sys, j: nat, stage: Stage, now: nat, reprocess: bool, policy: PipelinePolicy)
    requires Reachable(s, policy) && j < |s.db.jobs|
    ensures var job := s.db.jobs[j];
      Claimable(job, stage, now, reprocess) <==>
        && job.status in {New, Retry, ReadyForExtraction}
        && stage == StageOf(job.phase) && reprocess == job.reprocess
        && (job.due.Some? ==> job.due.value <= now)
  {
    ReachableInv(s, policy);
    assert JobRow(s.db.jobs[j]);
  }

  // ---- attempts per job ----

  predicate Prepares(e: Event, j: nat) {
    e.Prepared? && j in e.ids
  }

  ghost predicate Fresh(s: Sys, j: nat) {
    if j < |s.epochs| then s.epochs[j] <= |s.db.attempts| && forall a :: 0 <= a < s.epochs[j] ==>
      s.db.attempts[a].job != j
    else forall a :: 0 <= a < |s.db.attempts| ==> s.db.attempts[a].job != j
  }

  lemma {:induction false} TallyFrom(attempts: seq<Attempt>, lo: nat, j: nat, stage: Stage, k: bool)
    requires lo <= |attempts| && forall a :: 0 <= a < lo ==> attempts[a].job != j
    ensures Tally(attempts, 0, j, stage, k) == Tally(attempts, lo, j, stage, k)
  {
    if |attempts| > 0 {
      var n := |attempts| - 1;
      TallyFrom(attempts[..n], if lo > n then n else lo, j, stage, k);
      if lo > n {
        assert Tally(attempts[..n], n, j, stage, k) == 0;
      }
    }
  }

  /** In every reachable state: since it was last prepared, a job was tried in each stage at
      most as often as the limit allows, plus once for each interruption there; when both
      budgets are used up it rests.  The attempt count is the number of tries of the current stage, and without
      interruptions it stays within the limit. */
  lemma BudgetHolds(s: Sys, j: nat, policy: PipelinePolicy)
    requires Reachable(s, policy) && j < |s.db.jobs|
    ensures |s.epochs| == |s.db.jobs|
    ensures var job, lo, tries := s.db.jobs[j], s.epochs[j], if policy.retryLimit == 0 then 1 else policy.retryLimit;
      var stage := StageOf(job.phase);
      var claims := Claims(s.db.attempts, lo, j, EligibilityStage) + Claims(s.db.attempts, lo, j, ExtractionStage);
      var reaps := Reaps(s.db.attempts, lo, j, EligibilityStage) + Reaps(s.db.attempts, lo, j, ExtractionStage);
      && job.attemptCount == Claims(s.db.attempts, lo, j, stage)
      && (forall st :: Claims(s.db.attempts, lo, j, st) <= tries + Reaps(s.db.attempts, lo, j, st))
      && claims <= 2 * tries + reaps
      && (claims == 2 * tries + reaps ==> job.status !in {New, Retry, ReadyForExtraction})
      && (job.status == InProgress ==> 1 <= job.attemptCount <= tries + Reaps(s.db.attempts, lo, j, stage))
      && (job.status == Retry ==> job.attemptCount < tries + Reaps(s.db.attempts, lo, j, stage))
  {
    ReachableInv(s, policy);
    assert BudgetRow(s.db.jobs[j], j, s.epochs[j], s.db.attempts, Tries(policy));
    BudgetBound(s.db, s.epochs, Tries(policy), j);
  }

  /** Over a whole run that never prepares job `j`: all its attempts ever, against all its
      interruptions ever. */
  lemma AttemptsAreBounded(events: seq<Event>, j: nat, policy: PipelinePolicy)
    requires forall i :: 0 <= i < |events| ==> !Prepares(events[i], j)
    ensures var db, tries := Run(START, events, policy).db, if policy.retryLimit == 0 then 1 else policy.retryLimit;
      forall stage :: Claims(db.attempts, 0, j, stage) <= tries + Reaps(db.attempts, 0, j, stage)
    ensures var db := Run(START, events, policy).db;
      Claims(db.attempts, 0, j, EligibilityStage) + Claims(db.attempts, 0, j, ExtractionStage)
      <= 2 * Tries(policy) + Reaps(db.attempts, 0, j, EligibilityStage) + Reaps(db.attempts, 0, j, ExtractionStage)
  {
    var s := Run(START, events, policy);
    RunStaysFresh(events, j, policy);
    assert Reachable(s, policy);
    ReachableInv(s, policy);
    var lo := if j < |s.epochs| then s.epochs[j] else |s.db.attempts|;
    TallyFrom(s.db.attempts, lo, j, EligibilityStage, false);
    TallyFrom(s.db.attempts, lo, j, EligibilityStage, true);
    TallyFrom(s.db.attempts, lo, j, ExtractionStage, false);
    TallyFrom(s.db.attempts, lo, j, ExtractionStage, true);
    if j < |s.db.jobs| {
      BudgetBound(s.db, s.epochs, Tries(policy), j);
    }
    forall stage
      ensures Claims(s.db.attempts, 0, j, stage) <= Tries(policy) + Reaps(s.db.attempts, 0, j, stage)
    {
      assert stage == EligibilityStage || stage == ExtractionStage;
    }
  }

  lemma NextEpochs(s: Sys, e: Event, j: nat, policy: PipelinePolicy)
    requires |s.epochs| == |s.db.jobs| && |Next(s, e, policy).epochs| == |Next(s, e, policy).db.jobs|
    requires |s.db.jobs| <= |Next(s, e, policy).db.jobs| && !Prepares(e, j)
    requires j < |Next(s, e, policy).epochs|
    ensures Next(s, e, policy).epochs[j] == if j < |s.epochs| then s.epochs[j] else |s.db.attempts|
  {
    hide Step, Observe, PrepareReprocess, ReapStale;
  }

  lemma NextStaysFresh(s: Sys, e: Event, j: nat, policy: PipelinePolicy)
    requires Inv(s, policy) && Fresh(s, j) && !Prepares(e, j)
    ensures Fresh(Next(s, e, policy), j)
  {
    hide Next, JobsOk, ContentsOk, DecisionsOk, ResultsOk, SourcesExact, BudgetRow, WorkerOk, DistinctAttempts;
    var after := Next(s, e, policy);
    NextEvolves(s, e, policy);
    NextKeepsInv(s, e, policy);
    if j < |after.epochs| {
      NextEpochs(s, e, j, policy);
    } else {
      forall a | 0 <= a < |after.db.attempts| ensures after.db.attempts[a].job != j {
        assert AttemptRow(after.db.attempts[a], a, after.db.jobs);
      }
    }
  }

  lemma RunStaysFresh(events: seq<Event>, j: nat, policy: PipelinePolicy)
    requires forall i :: 0 <= i < |events| ==> !Prepares(events[i], j)
    ensures Fresh(Run(START, events, policy), j)
  {
    var next := (t: Sys, e: Event) => Next(t, e, policy);
    var p := (t: Sys) => Inv(t, policy) && Fresh(t, j);
    var q := (e: Event) => !Prepares(e, j);
    StartIsSound(policy);
    forall t, e | p(t) && q(e) ensures p(next(t, e)) {
      NextKeepsInv(t, e, policy);
      NextStaysFresh(t, e, j, policy);
    }
    Induction(START, events, next, p, q);
  }
}
