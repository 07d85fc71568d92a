/** One worker's life as a program counter over the store: each step is one transaction,
    one read, or one network or model call, and anything may happen between two steps. */
module Workers {
  import opened Models
  import opened Policy
  import opened Transactions

  /** What `process_job` reports; `Unrecorded` is the failure it could not write down. */
  datatype Report = Reported(status: Status) | ReportedSkipped | Unrecorded

  /** `inHandler` tells whether the step runs inside `except Exception`, where a further
      exception is given up on, or still inside `try`. */
  datatype Pc =
    | Claiming
    | ReadClaimed
    // fetch
    | ReadSources
    | Acquire
    | Storing(posting: Posting)
    | Merging(posting: Posting, content: nat)
    | Advancing(content: nat)
    // eligibility
    | ReadContent
    | ReadVerdict(content: nat)
    | Judging(content: nat)
    | HandingOff(content: nat, decision: Option<Verdict>)
    | Accepting(content: nat, verdict: Verdict)
    | Resuming(verdict: Verdict)
    // extraction
    | ReadPosting
    | ReadDecision(content: nat)
    | Extracting(content: nat)
    | AcceptingResult(content: nat)
    // failure
    | Failing(failure: Failure, inHandler: bool)
    | Releasing(status: Status, due: Option<nat>, inHandler: bool)
    | Skipping(inHandler: bool)
    | Done(report: Report)
    | Gone

  /** `phase` is the worker's own `progress.phase`. */
  datatype Worker = Worker(job: nat, stage: Stage, trigger: Trigger, attempt: Option<nat>, phase: Phase, pc: Pc)

  /** Everything a step takes from outside: the clock, an exception, the network, the model. */
  datatype Input = Input(now: nat, failure: Option<Failure>, posting: Posting, verdict: Verdict)

  function StatusOf(verdict: Verdict): Status {
    if verdict == Ineligible then CompletedIneligible else UnknownVerdict
  }

  /** Where an exception takes the worker. */
  function Raised(w: Worker, failure: Failure): Worker {
    match w.pc
    case Claiming | ReadClaimed | Gone => w.(pc := Gone)
    case Done(_) => w
    case Failing(_, true) | Releasing(_, _, true) | Skipping(true) => w.(pc := Done(Unrecorded))
    case _ => w.(pc := Failing(failure, true))
  }

  /** An unhandled exception, except that a failed acquisition is returned and not raised. */
  function Interrupted(w: Worker, failure: Failure): Worker {
    if w.pc.Acquire? && failure.AcquisitionFailure? then w.(pc := Failing(failure, false)) else Raised(w, failure)
  }

  function Claim(db: Db, w: Worker, input: Input): (Db, Worker) {
    var tx := ClaimAndStart(db, w.job, w.stage, w.trigger, input.now);
    if tx.value.Some? then (tx.db, w.(attempt := tx.value, pc := ReadClaimed))
    else (tx.db, w.(pc := Done(ReportedSkipped)))
  }

  /** The re-read after the claim decides, with the stage, where the work starts. */
  function Begin(db: Db, w: Worker): Worker {
    if w.job >= |db.jobs| then w.(pc := Done(ReportedSkipped))
    else
      var phase := db.jobs[w.job].phase;
      if w.stage.ExtractionStage? then w.(phase := Extraction, pc := ReadPosting)
      else match phase
        case Fetch => w.(phase := Fetch, pc := ReadSources)
        case Eligibility => w.(phase := Eligibility, pc := ReadContent)
        case Extraction => w.(phase := Extraction, pc := Failing(OtherError, true))
  }

  function Skip(w: Worker): Worker {
    w.(pc := Skipping(false))
  }

  function StoreStep(db: Db, w: Worker, a: nat, posting: Posting): (Db, Worker) {
    var tx := StoreCheckpoint(db, w.job, a, posting);
    if tx.Raise? then (db, Raised(w, OtherError))
    else (tx.db, if tx.value.Some? then w.(pc := Merging(posting, tx.value.value)) else Skip(w))
  }

  function CompanyOf(db: Db, j: nat): string {
    if j < |db.jobs| then db.jobs[j].company else ""
  }

  function MergeStep(db: Db, w: Worker, a: nat, posting: Posting, content: nat, input: Input): (Db, Worker) {
    var tx := MergeDuplicate(db, w.job, a, CompanyOf(db, w.job), posting.requisition, posting.fingerprint, input.now);
    if tx.Raise? then (db, Raised(w, OtherError))
    else (tx.db,
          if tx.value.None? then Skip(w)
          else if tx.value.value != w.job then w.(pc := Done(Reported(Merged)))
          else w.(pc := Advancing(content)))
  }

  function AdvanceStep(db: Db, w: Worker, a: nat, content: nat): (Db, Worker) {
    var tx := AdvancePhase(db, w.job, a, Eligibility);
    (tx.db, if tx.value then w.(phase := Eligibility, pc := ReadVerdict(content)) else Skip(w))
  }

  function VerdictRead(db: Db, w: Worker, content: nat): Worker {
    match CurrentDecision(db, w.job)
    case TooMany => Raised(w, OtherError)
    case NoRow => w.(pc := Judging(content))
    case Row(d) =>
      if d < |db.decisions| && db.decisions[d].content == content then
        if db.decisions[d].verdict == Eligible then w.(pc := HandingOff(content, None))
        else w.(pc := Resuming(db.decisions[d].verdict))
      else w.(pc := Judging(content))
  }

  function HandOffStep(db: Db, w: Worker, a: nat, content: nat, decision: Option<Verdict>, input: Input): (Db, Worker) {
    var tx := HandOff(db, w.job, a, content, decision, input.now);
    if tx.Raise? then (db, Raised(w, if tx.error.CheckpointError? then MissingCheckpointError else OtherError))
    else (tx.db, if tx.value.Some? then w.(pc := Done(Reported(ReadyForExtraction))) else Skip(w))
  }

  function AcceptStep(db: Db, w: Worker, a: nat, content: nat, verdict: Verdict, input: Input): (Db, Worker) {
    var tx := AcceptDecision(db, w.job, a, content, verdict, StatusOf(verdict), input.now);
    if tx.Raise? then (db, Raised(w, OtherError))
    else (tx.db, if tx.value.Some? then w.(pc := Done(Reported(StatusOf(verdict)))) else Skip(w))
  }

  function ResumeStep(db: Db, w: Worker, a: nat, verdict: Verdict, input: Input): (Db, Worker) {
    var tx := Release(db, w.job, a, StatusOf(verdict), w.phase, None, input.now);
    if tx.Raise? then (db, Raised(w, OtherError))
    else (tx.db, if tx.value then w.(pc := Done(Reported(StatusOf(verdict)))) else Skip(w))
  }

  function DecisionRead(db: Db, w: Worker, content: nat): Worker {
    match CurrentDecision(db, w.job)
    case TooMany => Raised(w, OtherError)
    case NoRow => Raised(w, MissingCheckpointError)
    case Row(d) =>
      if d < |db.decisions| && db.decisions[d].verdict == Eligible && db.decisions[d].content == content
      then w.(pc := Extracting(content))
      else Raised(w, MissingCheckpointError)
  }

  function ResultStep(db: Db, w: Worker, a: nat, content: nat, input: Input): (Db, Worker) {
    var tx := AcceptResult(db, w.job, a, content, input.now);
    if tx.Raise? then (db, Raised(w, OtherError))
    else (tx.db, if tx.value.Some? then w.(pc := Done(Reported(CompletedEligible))) else Skip(w))
  }

  /** `_fail` reads the attempt count afresh and lets the policy choose the next state. */
  function FailRead(db: Db, w: Worker, failure: Failure, inHandler: bool, policy: PipelinePolicy,
                    input: Input): Worker {
    if w.job >= |db.jobs| then w
    else
      var (category, retryable) := ClassifyFailure(failure);
      var (status, due) := NextState(db.jobs[w.job].attemptCount, category, retryable, policy, input.now);
      w.(pc := Releasing(status, due, inHandler))
  }

  function ReleaseStep(db: Db, w: Worker, a: nat, status: Status, due: Option<nat>, inHandler: bool, input: Input)
    : (Db, Worker)
  {
    var tx := Release(db, w.job, a, status, w.phase, due, input.now);
    if tx.Raise? then (db, Raised(w, OtherError))
    else (tx.db, w.(pc := if tx.value then Done(Reported(status)) else Skipping(inHandler)))
  }

  function SkipStep(db: Db, w: Worker, a: nat, input: Input): (Db, Worker) {
    var tx := FinishUnowned(db, a, Finish(Skipped, Some(w.phase), input.now));
    (tx.db, w.(pc := Done(ReportedSkipped)))
  }

  function Step(db: Db, w: Worker, input: Input, policy: PipelinePolicy): (Db, Worker) {
    if input.failure.Some? then (db, Interrupted(w, input.failure.value))
    else if w.pc.Claiming? then Claim(db, w, input)
    else if w.attempt.None? then (db, w)
    else
      var a := w.attempt.value;
      match w.pc
      case Claiming | Done(_) | Gone => (db, w)
      case ReadClaimed => (db, Begin(db, w))
      case ReadSources =>
        if exists s :: s in db.sources && db.sources[s].job == w.job then (db, w.(pc := Acquire))
        else (db, Raised(w, OtherError))
      case Acquire => (db, w.(pc := Storing(input.posting)))
      case Storing(posting) => StoreStep(db, w, a, posting)
      case Merging(posting, content) => MergeStep(db, w, a, posting, content, input)
      case Advancing(content) => AdvanceStep(db, w, a, content)
      case ReadContent =>
        if CurrentContent(db, w.job).Some? then (db, w.(pc := ReadVerdict(CurrentContent(db, w.job).value)))
        else (db, Raised(w, OtherError))
      case ReadVerdict(content) => (db, VerdictRead(db, w, content))
      case Judging(content) =>
        (db, w.(pc := if input.verdict == Eligible then HandingOff(content, Some(Eligible))
          else Accepting(content, input.verdict)))
      case HandingOff(content, decision) => HandOffStep(db, w, a, content, decision, input)
      case Accepting(content, verdict) => AcceptStep(db, w, a, content, verdict, input)
      case Resuming(verdict) => ResumeStep(db, w, a, verdict, input)
      case ReadPosting =>
        if CurrentContent(db, w.job).Some? then (db, w.(pc := ReadDecision(CurrentContent(db, w.job).value)))
        else (db, Raised(w, MissingCheckpointError))
      case ReadDecision(content) => (db, DecisionRead(db, w, content))
      case Extracting(content) => (db, w.(pc := AcceptingResult(content)))
      case AcceptingResult(content) => ResultStep(db, w, a, content, input)
      case Failing(failure, inHandler) => (db, FailRead(db, w, failure, inHandler, policy, input))
      case Releasing(status, due, inHandler) => ReleaseStep(db, w, a, status, due, inHandler, input)
      case Skipping(_) => SkipStep(db, w, a, input)
  }
}
