/** The worker as an object: `process_job` cut at its awaits.  Each method runs one
    transaction of the store and moves the program counter. */
module Runners {
  import opened Models
  import opened Policy
  import opened Transactions
  import opened Workers
  import opened Stores
  import opened Invariants
  import opened Sources
  import opened Leases
  import opened Steps
  import opened System
  import opened Guarantees
  import opened Lifetimes

  class Runner {
    const job: nat
    const stage: Stage
    const trigger: Trigger
    var attempt: Option<nat>
    var phase: Phase
    var pc: Pc

    function State(): Worker
      reads this
    {
      Worker(job, stage, trigger, attempt, phase, pc)
    }

    constructor (job: nat, stage: Stage, trigger: Trigger)
      ensures State() == Worker(job, stage, trigger, None, Fetch, Claiming)
    {
      this.job, this.stage, this.trigger := job, stage, trigger;
      attempt, phase, pc := None, Fetch, Claiming;
    }

    method Claim(store: Store, input: Input)
      modifies this`attempt, this`pc, store
      ensures (store.View(), State()) == Workers.Claim(old(store.View()), old(State()), input)
    {
      var claimed := store.ClaimAndStart(job, stage, trigger, input.now);
      if claimed.value.Some? {
        attempt, pc := claimed.value, ReadClaimed;
      } else {
        pc := Done(ReportedSkipped);
      }
    }

    method Begin(store: Store)
      modifies this`phase, this`pc
      ensures State() == Workers.Begin(store.View(), old(State()))
    {
      if job >= |store.jobs| {
        pc := Done(ReportedSkipped);
        return;
      }
      phase := store.jobs[job].phase;
      if stage.ExtractionStage? {
        phase, pc := Extraction, ReadPosting;
      } else if phase.Fetch? {
        pc := ReadSources;
      } else if phase.Eligibility? {
        pc := ReadContent;
      } else {
        pc := Failing(OtherError, true);
      }
    }

    method StoreContent(store: Store, a: nat, posting: Posting)
      modifies this`pc, store
      ensures (store.View(), State()) == StoreStep(old(store.View()), old(State()), a, posting)
    {
      hide StoredContent, PointAtContent;
      var stored := store.StoreCheckpoint(job, a, posting);
      if stored.Err? {
        pc := Raised(State(), OtherError).pc;
      } else if stored.value.None? {
        pc := Skipping(false);
      } else {
        pc := Merging(posting, stored.value.value);
      }
    }

    method Merge(store: Store, a: nat, posting: Posting, content: nat, input: Input)
      modifies this`pc, store
      ensures (store.View(), State()) == MergeStep(old(store.View()), old(State()), a, posting, content, input)
    {
      hide Transactions.MergeDuplicate;
      var company := CompanyOf(store.View(), job);
      var canonical := store.MergeDuplicate(job, a, company, posting.requisition, posting.fingerprint, input.now);
      if canonical.Err? {
        pc := Raised(State(), OtherError).pc;
      } else if canonical.value.None? {
        pc := Skipping(false);
      } else if canonical.value.value != job {
        pc := Done(Reported(Merged));
      } else {
        pc := Advancing(content);
      }
    }

    method Advance(store: Store, a: nat, content: nat)
      modifies this`phase, this`pc, store
      ensures (store.View(), State()) == AdvanceStep(old(store.View()), old(State()), a, content)
    {
      var advanced := store.AdvancePhase(job, a, Eligibility);
      if advanced.value {
        phase, pc := Eligibility, ReadVerdict(content);
      } else {
        pc := Skipping(false);
      }
    }

    method HandOver(store: Store, a: nat, content: nat, decision: Option<Verdict>, input: Input)
      modifies this`pc, store
      ensures (store.View(), State()) == HandOffStep(old(store.View()), old(State()), a, content, decision, input)
    {
      hide Transactions.HandOff;
      var accepted := store.HandOffToExtraction(job, a, content, decision, input.now);
      if accepted.Err? {
        pc := Raised(State(), if accepted.error.CheckpointError? then MissingCheckpointError else OtherError).pc;
      } else if accepted.value.None? {
        pc := Skipping(false);
      } else {
        pc := Done(Reported(ReadyForExtraction));
      }
    }

    method Accept(store: Store, a: nat, content: nat, verdict: Verdict, input: Input)
      modifies this`pc, store
      ensures (store.View(), State()) == AcceptStep(old(store.View()), old(State()), a, content, verdict, input)
    {
      hide Transactions.AcceptDecision;
      var status := StatusOf(verdict);
      var accepted := store.AcceptDecision(job, a, content, verdict, status, input.now);
      if accepted.Err? {
        pc := Raised(State(), OtherError).pc;
      } else if accepted.value.None? {
        pc := Skipping(false);
      } else {
        pc := Done(Reported(status));
      }
    }

    method Resume(store: Store, a: nat, verdict: Verdict, input: Input)
      modifies this`pc, store
      ensures (store.View(), State()) == ResumeStep(old(store.View()), old(State()), a, verdict, input)
    {
      hide Transactions.Release;
      var released := store.Release(job, a, StatusOf(verdict), phase, None, input.now);
      if released.Err? {
        pc := Raised(State(), OtherError).pc;
      } else if released.value {
        pc := Done(Reported(StatusOf(verdict)));
      } else {
        pc := Skipping(false);
      }
    }

    method AcceptExtraction(store: Store, a: nat, content: nat, input: Input)
      modifies this`pc, store
      ensures (store.View(), State()) == ResultStep(old(store.View()), old(State()), a, content, input)
    {
      hide Transactions.AcceptResult;
      var accepted := store.AcceptResult(job, a, content, input.now);
      if accepted.Err? {
        pc := Raised(State(), OtherError).pc;
      } else if accepted.value.None? {
        pc := Skipping(false);
      } else {
        pc := Done(Reported(CompletedEligible));
      }
    }

    /** `_fail` up to its release: the count is read afresh. */
    method Fail(store: Store, failure: Failure, inHandler: bool, policy: PipelinePolicy, input: Input)
      modifies this`pc
      ensures State() == FailRead(store.View(), old(State()), failure, inHandler, policy, input)
    {
      if job < |store.jobs| {
        var (category, retryable) := ClassifyFailure(failure);
        var (status, due) := NextState(store.jobs[job].attemptCount, category, retryable, policy, input.now);
        pc := Releasing(status, due, inHandler);
      }
    }

    method Release(store: Store, a: nat, status: Status, due: Option<nat>, inHandler: bool, input: Input)
      modifies this`pc, store
      ensures (store.View(), State()) == ReleaseStep(old(store.View()), old(State()), a, status, due, inHandler, input)
    {
      hide Transactions.Release;
      var released := store.Release(job, a, status, phase, due, input.now);
      if released.Err? {
        pc := Raised(State(), OtherError).pc;
      } else if released.value {
        pc := Done(Reported(status));
      } else {
        pc := Skipping(inHandler);
      }
    }

    method Skip(store: Store, a: nat, input: Input)
      modifies this`pc, store
      ensures (store.View(), State()) == SkipStep(old(store.View()), old(State()), a, input)
    {
      var _ := store.Finish(a, Models.Finish(Skipped, Some(phase), input.now));
      pc := Done(ReportedSkipped);
    }

    /** A read, a network call or a model call: no row is written. */
    method Look(store: Store, input: Input, policy: PipelinePolicy)
      requires attempt.Some? && input.failure.None?
      requires pc.ReadClaimed? || pc.ReadSources? || pc.Acquire? || pc.ReadContent? || pc.ReadVerdict? || pc.Judging?
            || pc.ReadPosting? || pc.ReadDecision? || pc.Extracting? || pc.Failing?
      modifies this`phase, this`pc
      ensures (store.View(), State()) == Workers.Step(store.View(), old(State()), input, policy)
    {
      hide Workers.Begin, VerdictRead, DecisionRead, CurrentContent, FailRead, Raised;
      match pc {
        case ReadClaimed => Begin(store);
        case ReadSources =>
          if exists s :: s in store.sources && store.sources[s].job == job {
            pc := Acquire;
          } else {
            RaiseError(OtherError);
          }
        case Acquire => pc := Storing(input.posting);
        case ReadContent => ReadCheckpoint(store, OtherError);
        case ReadVerdict(content) => FollowVerdict(store, content);
        case Judging(content) =>
          pc := if input.verdict == Eligible then HandingOff(content, Some(Eligible))
            else Accepting(content, input.verdict);
        case ReadPosting => ReadCheckpoint(store, MissingCheckpointError);
        case ReadDecision(content) => FollowDecision(store, content);
        case Extracting(content) => pc := AcceptingResult(content);
        case Failing(failure, inHandler) => Fail(store, failure, inHandler, policy, input);
      }
    }

    method RaiseError(failure: Failure)
      modifies this`pc
      ensures State() == Raised(old(State()), failure)
    {
      pc := Raised(State(), failure).pc;
    }

    method ReadCheckpoint(store: Store, failure: Failure)
      requires pc.ReadContent? || pc.ReadPosting?
      modifies this`pc
      ensures State() == var w := old(State());
        if CurrentContent(store.View(), job).None? then Raised(w, failure)
        else if w.pc.ReadContent? then w.(pc := ReadVerdict(CurrentContent(store.View(), job).value))
        else w.(pc := ReadDecision(CurrentContent(store.View(), job).value))
    {
      var content := CurrentContent(store.View(), job);
      if content.None? {
        RaiseError(failure);
      } else if pc.ReadContent? {
        pc := ReadVerdict(content.value);
      } else {
        pc := ReadDecision(content.value);
      }
    }

    method FollowVerdict(store: Store, content: nat)
      modifies this`pc
      ensures State() == VerdictRead(store.View(), old(State()), content)
    {
      match CurrentDecision(store.View(), job) {
        case TooMany => RaiseError(OtherError);
        case NoRow => pc := Judging(content);
        case Row(d) =>
          if d < |store.decisions| && store.decisions[d].content == content {
            pc := if store.decisions[d].verdict == Eligible then HandingOff(content, None)
                  else Resuming(store.decisions[d].verdict);
          } else {
            pc := Judging(content);
          }
      }
    }

    method FollowDecision(store: Store, content: nat)
      modifies this`pc
      ensures State() == DecisionRead(store.View(), old(State()), content)
    {
      match CurrentDecision(store.View(), job) {
        case TooMany => RaiseError(OtherError);
        case NoRow => RaiseError(MissingCheckpointError);
        case Row(d) =>
          if d < |store.decisions| && store.decisions[d].verdict == Eligible && store.decisions[d].content == content {
            pc := Extracting(content);
          } else {
            RaiseError(MissingCheckpointError);
          }
      }
    }

    method TakeException(failure: Failure)
      modifies this`pc
      ensures State() == Workers.Interrupted(old(State()), failure)
    {
      pc := Workers.Interrupted(State(), failure).pc;
    }

    /** One step of the worker, on the store itself: exactly the step the whole-system
        theorems are about. */
    method Step(store: Store, input: Input, policy: PipelinePolicy)
      modifies this, store
      ensures (store.View(), State()) == Workers.Step(old(store.View()), old(State()), input, policy)
    {
      hide Workers.Claim, StoreStep, MergeStep, AdvanceStep, HandOffStep, AcceptStep, ResumeStep, ResultStep,
        ReleaseStep;
      hide SkipStep, Workers.Begin, VerdictRead, DecisionRead, CurrentContent, FailRead, Workers.Interrupted;
      if input.failure.Some? {
        TakeException(input.failure.value);
        return;
      }
      if pc.Claiming? {
        Claim(store, input);
        return;
      }
      if attempt.None? {
        return;
      }
      var a := attempt.value;
      match pc {
        case Storing(posting) => StoreContent(store, a, posting);
        case Merging(posting, content) => Merge(store, a, posting, content, input);
        case Advancing(content) => Advance(store, a, content);
        case HandingOff(content, decision) => HandOver(store, a, content, decision, input);
        case Accepting(content, verdict) => Accept(store, a, content, verdict, input);
        case Resuming(verdict) => Resume(store, a, verdict, input);
        case AcceptingResult(content) => AcceptExtraction(store, a, content, input);
        case Releasing(status, due, inHandler) => Release(store, a, status, due, inHandler, input);
        case Skipping(_) => Skip(store, a, input);
        case Claiming | Done(_) | Gone =>
        case _ => Look(store, input, policy);
      }
    }

    /** `process_job` on a store that nobody else uses meanwhile: it ends within seventeen steps
        whatever its inputs are, leaves the store sound, and what it reports is what it wrote.
        Without an exception it reports a status, in which it has left the job, exactly when
        the job was claimable, and otherwise changes nothing. */
    method Process(store: Store, inputs: nat -> Input, policy: PipelinePolicy, ghost seen: set<Sighting>)
      returns (steps: nat)
      requires State() == Worker(job, stage, trigger, None, Fetch, Claiming)
      requires Sound(store.View()) && SourcesExact(store.View(), seen)
      modifies this, store
      ensures steps <= 17 && (pc.Done? || pc.Gone?)
      ensures Sound(store.View()) && SourcesExact(store.View(), seen)
      ensures pc.Done? && pc.report.Reported? ==> Concluded(store.View(), State(), pc.report.status)
      ensures (forall n :: inputs(n).failure.None?) ==>
        && pc.Done?
        && (pc.report.Reported? <==> CanClaim(old(store.View()), job, stage, trigger, inputs(0).now))
        && (!pc.report.Reported? ==> pc.report == ReportedSkipped && store.View() == old(store.View()))
    {
      hide Sound, SourcesExact, WorkerOk, Workers.Step, Rank, Concluded, CanClaim;
      ghost var smooth := forall n :: inputs(n).failure.None?;
      ghost var first := store.View();
      steps := 0;
      FreshIsOk(first, State(), policy);
      while !pc.Done? && !pc.Gone?
        invariant Sound(store.View()) && SourcesExact(store.View(), seen) && WorkerOk(store.View(), State(), policy)
        invariant steps + Rank(pc) <= 17
        invariant steps == 0 ==> store.View() == first && State() == Worker(job, stage, trigger, None, Fetch, Claiming)
        invariant smooth && steps > 0 ==> IsOn(first, store.View(), State(), inputs(0).now)
        invariant pc.Done? && pc.report.Reported? ==> Concluded(store.View(), State(), pc.report.status)
        decreases Rank(pc)
      {
        ghost var db, w, input := store.View(), State(), inputs(steps);
        OneStep(db, w, input, policy, seen);
        if steps == 0 {
          FirstStep(db, w, input, policy);
        } else if smooth {
          NextStep(first, db, w, input, inputs(0).now, policy, seen);
        }
        Step(store, inputs(steps), policy);
        steps := steps + 1;
      }
    }
  }

  // ---- one worker alone with the store ----

  predicate CanClaim(db: Db, j: nat, stage: Stage, trigger: Trigger, now: nat) {
    j < |db.jobs| && Claimable(db.jobs[j], stage, now, trigger.Reprocess?)
  }

  /** The worker has left its job in this status and ended its attempt with it. */
  predicate Concluded(db: Db, w: Worker, status: Status) {
    && w.job < |db.jobs| && db.jobs[w.job].status == status && db.jobs[w.job].lease.None?
    && w.attempt.Some? && w.attempt.value < |db.attempts| && db.attempts[w.attempt.value].job == w.job
    && db.attempts[w.attempt.value].finish.Some?
    && db.attempts[w.attempt.value].finish.value.outcome == Ended(status)
  }

  /** After its first step, with no exception so far: the worker has its lease or has reported,
      or there was nothing to claim. */
  ghost predicate IsOn(first: Db, db: Db, w: Worker, now: nat) {
    if CanClaim(first, w.job, w.stage, w.trigger, now) then
      if w.pc.Done? then w.pc.report.Reported? else Holds(db, w) && Working(w.pc)
    else db == first && w.pc == Done(ReportedSkipped)
  }

  lemma FreshIsOk(db: Db, w: Worker, policy: PipelinePolicy)
    requires w.attempt.None? && w.pc.Claiming?
    ensures WorkerOk(db, w, policy) && Rank(w.pc) == 17
  {
  }

  lemma OneStep(db: Db, w: Worker, input: Input, policy: PipelinePolicy, seen: set<Sighting>)
    requires Sound(db) && SourcesExact(db, seen) && WorkerOk(db, w, policy) && !w.pc.Done? && !w.pc.Gone?
    ensures var (after, w') := Workers.Step(db, w, input, policy);
      && Sound(after) && SourcesExact(after, seen) && WorkerOk(after, w', policy) && Rank(w'.pc) < Rank(w.pc)
      && (w'.pc.Done? && w'.pc.report.Reported? ==> Concluded(after, w', w'.pc.report.status))
  {
    hide SourcesExact, Workers.Step, JobsOk, ContentsOk, DecisionsOk, ResultsOk, LeasesHold;
    StepKeepsSound(db, w, input, policy);
    StepKeepsSources(db, w, input, policy, seen);
    StepKeepsWorker(db, w, input, policy);
    StepLowersRank(db, w, input, policy);
    StepReports(db, w, input, policy);
    StepKeepsIdentityOf(db, w, input, policy);
  }

  lemma FirstStep(db: Db, w: Worker, input: Input, policy: PipelinePolicy)
    requires w.attempt.None? && w.pc.Claiming?
    ensures var (after, w') := Workers.Step(db, w, input, policy);
      input.failure.None? ==> IsOn(db, after, w', input.now)
  {
  }

  lemma NextStep(first: Db, db: Db, w: Worker, input: Input, now: nat, policy: PipelinePolicy, seen: set<Sighting>)
    requires Sound(db) && SourcesExact(db, seen) && WorkerOk(db, w, policy) && !w.pc.Done? && !w.pc.Gone?
    requires IsOn(first, db, w, now) && input.failure.None?
    ensures var (after, w') := Workers.Step(db, w, input, policy); IsOn(first, after, w', now)
  {
    hide Sound, SourcesExact, Workers.Step, WorkerOk, CanClaim;
    HolderHasSource(db, seen, w, policy);
    HolderKeepsLease(db, w, input, policy);
    StepKeepsIdentityOf(db, w, input, policy);
  }
}
