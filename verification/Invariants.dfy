/** What every reachable database satisfies, and that each transaction keeps it. */
module Invariants {
  import opened Models
  import opened Transactions

  // ---- leases ----

  predicate LeaseRow(job: Job, j: nat, attempts: seq<Attempt>) {
    && (job.status == InProgress <==> job.lease.Some?)
    && (job.lease.Some? ==>
          var a := job.lease.value;
          a < |attempts| && attempts[a].job == j && attempts[a].finish.None? && attempts[a].stage == StageOf(job.phase))
  }

  predicate AttemptRow(attempt: Attempt, a: nat, jobs: seq<Job>) {
    attempt.job < |jobs| && (attempt.finish.None? ==> jobs[attempt.job].lease == Some(a))
  }

  /** A job is in progress exactly when it holds a lease on its own unfinished attempt, and
      an unfinished attempt is always its job's lease. */
  ghost predicate LeasesHold(db: Db) {
    && (forall j :: 0 <= j < |db.jobs| ==> LeaseRow(db.jobs[j], j, db.attempts))
    && (forall a :: 0 <= a < |db.attempts| ==> AttemptRow(db.attempts[a], a, db.jobs))
  }

  // ---- job rows ----

  predicate JobRow(job: Job) {
    && (job.status == Retry <==> job.due.Some?)
    && (job.status == Merged <==> job.mergedInto.Some?)
    && (job.status == New ==> job.phase == Fetch && job.attemptCount == 0)
    && (job.status == ReadyForExtraction ==> job.phase == Extraction && job.attemptCount == 0 && job.lease.None?)
    && (job.status == CompletedEligible ==> job.phase == Extraction)
    && (job.status in {CompletedIneligible, UnknownVerdict} ==> job.phase == Eligibility)
    && (job.phase != Fetch ==> job.content.Some?)
    && (job.reprocess ==> job.status in {Retry, Merged})
  }

  /** Merged jobs form a forest: parents exist, are older and belong to the same company. */
  ghost predicate MergeForest(jobs: seq<Job>) {
    forall j :: 0 <= j < |jobs| && jobs[j].mergedInto.Some? ==>
      jobs[j].mergedInto.value < j && jobs[jobs[j].mergedInto.value].company == jobs[j].company
  }

  ghost predicate UniqueKeys(jobs: seq<Job>) {
    forall i, j :: 0 <= i < |jobs| && 0 <= j < |jobs| && jobs[i].company == jobs[j].company
      && jobs[i].key == jobs[j].key
      ==> i == j
  }

  ghost predicate JobsOk(db: Db) {
    && (forall j :: 0 <= j < |db.jobs| ==> JobRow(db.jobs[j]))
    && MergeForest(db.jobs)
    && UniqueKeys(db.jobs)
  }

  // ---- contents ----

  predicate OwnContent(contents: seq<Content>, j: nat, c: nat) {
    c < |contents| && contents[c].job == j
  }

  ghost predicate UniqueHashes(contents: seq<Content>) {
    forall c, e :: 0 <= c < |contents| && 0 <= e < |contents|
      && contents[c].job == contents[e].job && contents[c].posting.hash == contents[e].posting.hash
      ==> c == e
  }

  ghost predicate ContentsOk(db: Db) {
    && (forall c :: 0 <= c < |db.contents| ==> db.contents[c].job < |db.jobs|)
    && UniqueHashes(db.contents)
    && (forall j :: 0 <= j < |db.jobs| && db.jobs[j].content.Some? ==>
      OwnContent(db.contents, j, db.jobs[j].content.value))
  }

  // ---- decisions and results ----

  ghost predicate OneCurrentDecision(decisions: seq<Decision>) {
    forall j: nat, d: nat, e: nat :: CurrentFor(decisions, j, d) && CurrentFor(decisions, j, e) ==> d == e
  }

  /** A current decision of job `j` with this verdict, on this content. */
  ghost predicate Judged(decisions: seq<Decision>, j: nat, content: Option<nat>, verdict: Verdict) {
    exists d: nat :: CurrentFor(decisions, j, d) && decisions[d].verdict == verdict
      && content == Some(decisions[d].content)
  }

  ghost predicate Unjudged(decisions: seq<Decision>, j: nat) {
    forall d: nat :: !CurrentFor(decisions, j, d)
  }

  /** What the status and the phase of a live job promise about its current decision. */
  ghost predicate VerdictMatches(job: Job, decisions: seq<Decision>, j: nat) {
    job.status != Merged ==>
      if job.phase == Extraction then Judged(decisions, j, job.content, Eligible)
      else if job.status == CompletedIneligible then Judged(decisions, j, job.content, Ineligible)
      else if job.status == UnknownVerdict then Judged(decisions, j, job.content, Unknown)
      else Unjudged(decisions, j)
  }

  predicate AttemptOf(attempts: seq<Attempt>, j: nat, a: nat) {
    a < |attempts| && attempts[a].job == j
  }

  ghost predicate DecisionsOk(db: Db) {
    && (forall d :: 0 <= d < |db.decisions| ==>
          db.decisions[d].job < |db.jobs|
          && OwnContent(db.contents, db.decisions[d].job, db.decisions[d].content)
          && AttemptOf(db.attempts, db.decisions[d].job, db.decisions[d].attempt))
    && OneCurrentDecision(db.decisions)
    && (forall j :: 0 <= j < |db.jobs| ==> VerdictMatches(db.jobs[j], db.decisions, j))
  }

  ghost predicate OneCurrentResult(results: seq<Result>) {
    forall j: nat, r: nat, s: nat :: ResultFor(results, j, r) && ResultFor(results, j, s) ==> r == s
  }

  /** A current result of job `j` on this content. */
  ghost predicate Extracted(results: seq<Result>, j: nat, content: Option<nat>) {
    exists r: nat :: ResultFor(results, j, r) && content == Some(results[r].content)
  }

  ghost predicate ResultsOk(db: Db) {
    && (forall r :: 0 <= r < |db.results| ==>
          db.results[r].job < |db.jobs|
          && OwnContent(db.contents, db.results[r].job, db.results[r].content)
          && AttemptOf(db.attempts, db.results[r].job, db.results[r].attempt)
          && (db.results[r].current ==> db.jobs[db.results[r].job].status in {CompletedEligible, Merged}))
    && OneCurrentResult(db.results)
    && (forall j :: 0 <= j < |db.jobs| && db.jobs[j].status == CompletedEligible ==>
          Extracted(db.results, j, db.jobs[j].content))
  }

  ghost predicate Sound(db: Db) {
    LeasesHold(db) && JobsOk(db) && ContentsOk(db) && DecisionsOk(db) && ResultsOk(db)
  }

  // ---- what a lease holder's step asks of the database ----

  ghost predicate LeasedAt(db: Db, j: nat, a: nat, stage: Stage) {
    LeasedTo(db, j, a) ==> StageOf(db.jobs[j].phase) == stage
  }

  // ---- pieces shared by the transactions that end an attempt ----

  /** The current decisions of `i` are the same rows, saying the same, in both tables. */
  ghost predicate SameVerdicts(before: seq<Decision>, after: seq<Decision>, i: nat) {
    forall d: nat ::
      && (CurrentFor(before, i, d) <==> CurrentFor(after, i, d))
      && (CurrentFor(before, i, d) ==> before[d] == after[d])
  }

  ghost predicate SameExtractions(before: seq<Result>, after: seq<Result>, i: nat) {
    forall r: nat ::
      && (ResultFor(before, i, r) <==> ResultFor(after, i, r))
      && (ResultFor(before, i, r) ==> before[r] == after[r])
  }

  lemma VerdictCarries(job: Job, before: seq<Decision>, after: seq<Decision>, i: nat)
    requires SameVerdicts(before, after, i) && VerdictMatches(job, before, i)
    ensures VerdictMatches(job, after, i)
  {
    forall content, verdict | Judged(before, i, content, verdict) ensures Judged(after, i, content, verdict) {
      var d: nat :| CurrentFor(before, i, d) && before[d].verdict == verdict && content == Some(before[d].content);
      assert CurrentFor(after, i, d);
    }
  }

  lemma AddedDecision(decisions: seq<Decision>, row: Decision)
    requires OneCurrentDecision(decisions) && row.current
    ensures var after := RetiredDecisions(decisions, row.job) + [row];
            && OneCurrentDecision(after)
            && Judged(after, row.job, Some(row.content), row.verdict)
            && forall i: nat :: i != row.job ==> SameVerdicts(decisions, after, i)
  {
    var after := RetiredDecisions(decisions, row.job) + [row];
    assert CurrentFor(after, row.job, |decisions|);
    forall j: nat, d: nat, e: nat | CurrentFor(after, j, d) && CurrentFor(after, j, e) ensures d == e {
      if j != row.job {
        assert CurrentFor(decisions, j, d) && CurrentFor(decisions, j, e);
      }
    }
  }

  lemma AddedResult(results: seq<Result>, row: Result)
    requires OneCurrentResult(results) && row.current
    ensures var after := RetiredResults(results, row.job) + [row];
            && OneCurrentResult(after)
            && Extracted(after, row.job, Some(row.content))
            && forall i: nat :: i != row.job ==> SameExtractions(results, after, i)
  {
    var after := RetiredResults(results, row.job) + [row];
    assert ResultFor(after, row.job, |results|);
    forall j: nat, r: nat, s: nat | ResultFor(after, j, r) && ResultFor(after, j, s) ensures r == s {
      if j != row.job {
        assert ResultFor(results, j, r) && ResultFor(results, j, s);
      }
    }
  }

  /** The job row `job` takes the place of `j`'s, and attempt `a` ends. */
  function Ending(db: Db, j: nat, a: nat, job: Job, finish: Finish): Db
    requires j < |db.jobs| && a < |db.attempts|
  {
    Finished(db.(jobs := db.jobs[j := job]), a, finish)
  }

  /** Ending a lease keeps everything that does not speak of verdicts and results. */
  lemma EndingKeepsRows(db: Db, j: nat, a: nat, job: Job, finish: Finish)
    requires LeasesHold(db) && JobsOk(db) && ContentsOk(db) && LeasedTo(db, j, a)
    requires job.lease.None? && job.status != InProgress && JobRow(job)
    requires job.mergedInto.Some? ==> job.mergedInto.value < j && db.jobs[job.mergedInto.value].company == job.company
    requires job.company == db.jobs[j].company && job.key == db.jobs[j].key && job.content == db.jobs[j].content
    ensures var after := Ending(db, j, a, job, finish); LeasesHold(after) && JobsOk(after) && ContentsOk(after)
  {
  }

  /** Ending a lease keeps the verdicts when the ended job's new row matches its own. */
  lemma EndingKeepsVerdicts(db: Db, j: nat, a: nat, job: Job, finish: Finish, decisions: seq<Decision>)
    requires DecisionsOk(db) && j < |db.jobs| && a < |db.attempts|
    requires decisions == db.decisions || (exists c: nat, v ::
      OwnContent(db.contents, j, c) && AttemptOf(db.attempts, j, a)
      && decisions == RetiredDecisions(db.decisions, j) + [Decision(j, a, c, v, true)])
    requires VerdictMatches(job, decisions, j)
    ensures DecisionsOk(Ending(db.(decisions := decisions), j, a, job, finish))
  {
    if decisions != db.decisions {
      var c: nat, v :| OwnContent(db.contents, j, c) && AttemptOf(db.attempts, j, a)
        && decisions == RetiredDecisions(db.decisions, j) + [Decision(j, a, c, v, true)];
      AddedDecision(db.decisions, Decision(j, a, c, v, true));
      forall i | 0 <= i < |db.jobs| && i != j ensures VerdictMatches(db.jobs[i], decisions, i) {
        VerdictCarries(db.jobs[i], db.decisions, decisions, i);
      }
    }
  }

  lemma EndingKeepsResults(db: Db, j: nat, a: nat, job: Job, finish: Finish)
    requires ResultsOk(db) && LeasedTo(db, j, a) && a < |db.attempts|
    requires job.status != CompletedEligible
    ensures ResultsOk(Ending(db, j, a, job, finish))
  {
  }

  // ---- reads ----

  /** With one current decision a job at most, `current` reads it and never raises. */
  lemma DecisionIsRead(db: Db, j: nat)
    requires OneCurrentDecision(db.decisions)
    ensures match CurrentDecision(db, j)
            case NoRow => Unjudged(db.decisions, j)
            case Row(d) => CurrentFor(db.decisions, j, d)
            case TooMany => false
  {
    var p := (d: nat) => CurrentFor(db.decisions, j, d);
    ScalarOneIsUnique(|db.decisions|, p);
    assert forall d: nat :: p(d) == CurrentFor(db.decisions, j, d);
  }

  lemma CheckpointIsRead(db: Db, j: nat, c: nat)
    requires OneCurrentDecision(db.decisions)
    ensures match EligibleCheckpoint(db, j, c)
            case NoRow => !exists d: nat :: EligibleOn(db.decisions, j, c, d)
            case Row(d) => EligibleOn(db.decisions, j, c, d)
            case TooMany => false
  {
    var p := (d: nat) => EligibleOn(db.decisions, j, c, d);
    ScalarOneIsUnique(|db.decisions|, p);
    assert forall d: nat :: p(d) == EligibleOn(db.decisions, j, c, d);
  }

  lemma EligibleIsRead(db: Db, j: nat)
    requires OneCurrentDecision(db.decisions)
    ensures match EligibleDecision(db, j)
            case NoRow => !exists d: nat :: EligibleFor(db.decisions, j, d)
            case Row(d) => EligibleFor(db.decisions, j, d)
            case TooMany => false
  {
    var p := (d: nat) => EligibleFor(db.decisions, j, d);
    ScalarOneIsUnique(|db.decisions|, p);
    assert forall d: nat :: p(d) == EligibleFor(db.decisions, j, d);
  }

  lemma StoredIsRead(db: Db, j: nat, hash: string)
    requires UniqueHashes(db.contents)
    ensures match StoredContent(db, j, hash)
            case NoRow => !exists c: nat :: HasHash(db.contents, j, hash, c)
            case Row(c) => HasHash(db.contents, j, hash, c)
            case TooMany => false
  {
    var p := (c: nat) => HasHash(db.contents, j, hash, c);
    ScalarOneIsUnique(|db.contents|, p);
    assert forall c: nat :: p(c) == HasHash(db.contents, j, hash, c);
  }

  // ---- transactions ----

  lemma ClaimKeepsLeases(db: Db, j: nat, stage: Stage, trigger: Trigger, now: nat)
    requires LeasesHold(db) && JobsOk(db)
    ensures LeasesHold(After(db, ClaimAndStart(db, j, stage, trigger, now)))
  {
    if j < |db.jobs| && Claimable(db.jobs[j], stage, now, trigger.Reprocess?) {
      assert JobRow(db.jobs[j]) && LeaseRow(db.jobs[j], j, db.attempts);
    }
  }

  lemma ClaimKeepsRows(db: Db, j: nat, stage: Stage, trigger: Trigger, now: nat)
    requires JobsOk(db) && ContentsOk(db)
    ensures var after := After(db, ClaimAndStart(db, j, stage, trigger, now)); JobsOk(after) && ContentsOk(after)
  {
  }

  lemma ClaimKeepsVerdicts(db: Db, j: nat, stage: Stage, trigger: Trigger, now: nat)
    requires JobsOk(db) && DecisionsOk(db) && ResultsOk(db)
    ensures var after := After(db, ClaimAndStart(db, j, stage, trigger, now)); DecisionsOk(after) && ResultsOk(after)
  {
    if j < |db.jobs| && Claimable(db.jobs[j], stage, now, trigger.Reprocess?) {
      assert JobRow(db.jobs[j]) && VerdictMatches(db.jobs[j], db.decisions, j);
    }
  }

  lemma ClaimKeepsSound(db: Db, j: nat, stage: Stage, trigger: Trigger, now: nat)
    requires Sound(db)
    ensures Sound(After(db, ClaimAndStart(db, j, stage, trigger, now)))
  {
    hide LeasesHold, JobsOk, ContentsOk, DecisionsOk, ResultsOk;
    ClaimKeepsLeases(db, j, stage, trigger, now);
    ClaimKeepsRows(db, j, stage, trigger, now);
    ClaimKeepsVerdicts(db, j, stage, trigger, now);
  }

  /** A new content row of an existing job, with a hash that job does not have yet. */
  lemma NewContentKeepsSound(db: Db, j: nat, posting: Posting)
    requires Sound(db) && j < |db.jobs|
    requires forall c: nat :: !HasHash(db.contents, j, posting.hash, c)
    ensures Sound(db.(contents := db.contents + [Content(j, posting)]))
  {
    var contents := db.contents + [Content(j, posting)];
    forall i: nat, c: nat | OwnContent(db.contents, i, c) ensures OwnContent(contents, i, c) {
    }
    forall c, e | 0 <= c < |contents| && 0 <= e < |contents|
                  && contents[c].job == contents[e].job && contents[c].posting.hash == contents[e].posting.hash
      ensures c == e
    {
      assert c < |db.contents| ==> !HasHash(db.contents, j, posting.hash, c);
      assert e < |db.contents| ==> !HasHash(db.contents, j, posting.hash, e);
    }
  }

  lemma PointKeepsSound(db: Db, j: nat, a: nat, c: nat)
    requires Sound(db) && LeasedAt(db, j, a, EligibilityStage) && OwnContent(db.contents, j, c)
    ensures Sound(After(db, PointAtContent(db, j, a, c)))
  {
    if LeasedTo(db, j, a) {
      PointKeepsRows(db, j, a, c);
      var job := db.jobs[j].(content := Some(c));
      assert JobRow(db.jobs[j]) && VerdictMatches(db.jobs[j], db.decisions, j);
      assert VerdictMatches(job, db.decisions, j);
      hide LeasesHold, JobsOk, ContentsOk, VerdictMatches;
      assert DecisionsOk(db.(jobs := db.jobs[j := job]));
    }
  }

  lemma PointKeepsRows(db: Db, j: nat, a: nat, c: nat)
    requires LeasesHold(db) && JobsOk(db) && ContentsOk(db) && LeasedTo(db, j, a) && OwnContent(db.contents, j, c)
    ensures var after := db.(jobs := db.jobs[j := db.jobs[j].(content := Some(c))]);
            LeasesHold(after) && JobsOk(after) && ContentsOk(after)
  {
  }

  lemma StoreKeepsSound(db: Db, j: nat, a: nat, posting: Posting)
    requires Sound(db)
    requires j < |db.jobs|
    requires LeasedAt(db, j, a, EligibilityStage)
    ensures Sound(After(db, StoreCheckpoint(db, j, a, posting)))
  {
    StoredIsRead(db, j, posting.hash);
    match StoredContent(db, j, posting.hash)
    case Row(c) => PointKeepsSound(db, j, a, c);
    case NoRow =>
      NewContentKeepsSound(db, j, posting);
      PointKeepsSound(db.(contents := db.contents + [Content(j, posting)]), j, a, |db.contents|);
    case TooMany =>
  }

  lemma AdvanceKeepsSound(db: Db, j: nat, a: nat)
    requires Sound(db)
    requires LeasedAt(db, j, a, EligibilityStage)
    requires LeasedTo(db, j, a) ==> db.jobs[j].content.Some?
    ensures Sound(After(db, AdvancePhase(db, j, a, Eligibility)))
  {
  }

  lemma HandOffKeepsSound(db: Db, j: nat, a: nat, c: nat, decision: Option<Verdict>, now: nat)
    requires Sound(db)
    requires LeasedAt(db, j, a, EligibilityStage)
    ensures Sound(After(db, HandOff(db, j, a, c, decision, now)))
  {
    var tx := HandOff(db, j, a, c, decision, now);
    if LeasedOnContent(db, j, a, c) && tx.Commit? {
      var job := Released(db.jobs[j], ReadyForExtraction, Extraction, None).(attemptCount := 0);
      var finish := Finish(Ended(ReadyForExtraction), Some(Eligibility), now);
      if decision.None? {
        CheckpointIsRead(db, j, c);
      } else {
        EndingKeepsRows(db, j, a, job, finish);
        AddedDecision(db.decisions, Decision(j, a, c, Eligible, true));
        EndingKeepsVerdicts(db, j, a, job, finish, tx.db.decisions);
        EndingKeepsResults(db, j, a, job, finish);
      }
    }
  }

  lemma AcceptDecisionKeepsSound(db: Db, j: nat, a: nat, c: nat, verdict: Verdict, status: Status, now: nat)
    requires Sound(db)
    requires LeasedAt(db, j, a, EligibilityStage)
    requires verdict != Eligible && status == (if verdict == Ineligible then CompletedIneligible else UnknownVerdict)
    ensures Sound(After(db, AcceptDecision(db, j, a, c, verdict, status, now)))
  {
    var tx := AcceptDecision(db, j, a, c, verdict, status, now);
    if LeasedOnContent(db, j, a, c) {
      var job := Released(db.jobs[j], status, Eligibility, None);
      var finish := Finish(Ended(status), Some(Eligibility), now);
      EndingKeepsRows(db, j, a, job, finish);
      AddedDecision(db.decisions, Decision(j, a, c, verdict, true));
      EndingKeepsVerdicts(db, j, a, job, finish, tx.db.decisions);
      EndingKeepsResults(db, j, a, job, finish);
    }
  }

  lemma AddedResultKeepsResults(db: Db, j: nat, a: nat, c: nat, job: Job, finish: Finish)
    requires ResultsOk(db) && LeasedTo(db, j, a) && a < |db.attempts|
    requires OwnContent(db.contents, j, c) && AttemptOf(db.attempts, j, a)
    requires job.status == CompletedEligible && job.content == Some(c)
    ensures ResultsOk(Ending(WithResult(db, j, a, c), j, a, job, finish))
  {
    var after := Ending(WithResult(db, j, a, c), j, a, job, finish);
    AddedResult(db.results, Result(j, a, c, true));
    forall i | 0 <= i < |db.jobs| && i != j && db.jobs[i].status == CompletedEligible
      ensures Extracted(after.results, i, db.jobs[i].content)
    {
      var r: nat :| ResultFor(db.results, i, r) && db.jobs[i].content == Some(db.results[r].content);
      assert ResultFor(after.results, i, r);
    }
  }

  lemma AcceptResultKeepsSound(db: Db, j: nat, a: nat, c: nat, now: nat)
    requires Sound(db)
    requires LeasedAt(db, j, a, ExtractionStage)
    ensures Sound(After(db, AcceptResult(db, j, a, c, now)))
  {
    hide MergeForest, UniqueKeys, AttemptRow, RetiredResults;
    if LeasedOnContent(db, j, a, c) {
      var job := Released(db.jobs[j], CompletedEligible, Extraction, None);
      var finish := Finish(Ended(CompletedEligible), Some(Extraction), now);
      EndingKeepsRows(db, j, a, job, finish);
      EndingKeepsVerdicts(db, j, a, job, finish, db.decisions);
      AddedResultKeepsResults(db, j, a, c, job, finish);
    }
  }

  /** The row job `j` may be released in: any rest but a result or a merge, with what the row
      then promises about its verdict. */
  ghost predicate MayRelease(db: Db, j: nat, job: Job) {
    job.status !in {InProgress, CompletedEligible, Merged} && JobRow(job) && VerdictMatches(job, db.decisions, j)
  }

  /** Releasing a leased job: to retry, failed or unavailable, or in the status of a verdict
      that stands. */
  lemma ReleaseKeepsSound(db: Db, j: nat, a: nat, status: Status, phase: Phase, due: Option<nat>, now: nat)
    requires Sound(db)
    requires LeasedTo(db, j, a) && ((status == Retry) <==> due.Some?) ==>
      MayRelease(db, j, Released(db.jobs[j], status, phase, due))
    ensures Sound(After(db, Release(db, j, a, status, phase, due, now)))
  {
    if j < |db.jobs| && db.jobs[j].lease == Some(a) && Release(db, j, a, status, phase, due, now).Commit? {
      var job := Released(db.jobs[j], status, phase, due);
      var finish := Finish(Ended(status), Some(phase), now);
      EndingKeepsRows(db, j, a, job, finish);
      EndingKeepsVerdicts(db, j, a, job, finish, db.decisions);
      EndingKeepsResults(db, j, a, job, finish);
    }
  }

  /** A proven duplicate is another live job of the same company. */
  lemma DuplicateIsLive(db: Db, j: nat, company: string, requisition: Option<string>, fingerprint: string)
    ensures var duplicate := DuplicateOf(db, j, company, requisition, fingerprint);
            duplicate.Some? ==>
              var m := duplicate.value;
              m < |db.jobs| && m != j && db.jobs[m].company == company && db.jobs[m].status != Merged
  {
    if requisition.Some? {
      var byRequisition := OthersMatching(db, j, company, ByRequisition(requisition.value));
      assert |byRequisition| == 1 ==> LiveMatch(db, j, company, ByRequisition(requisition.value), byRequisition[0]);
    }
    var byFingerprint := OthersMatching(db, j, company, ByFingerprint(fingerprint));
    assert |byFingerprint| == 1 ==> LiveMatch(db, j, company, ByFingerprint(fingerprint), byFingerprint[0]);
  }

  /** `m` is the only live job of the company, other than `j`, whose content matches. */
  ghost predicate OnlyMatch(db: Db, j: nat, company: string, probe: Probe, m: nat) {
    LiveMatch(db, j, company, probe, m) && forall i: nat :: LiveMatch(db, j, company, probe, i) ==> i == m
  }

  lemma OnlyMatchIsListed(db: Db, j: nat, company: string, probe: Probe)
    ensures var others := OthersMatching(db, j, company, probe);
            && (|others| == 1 ==> OnlyMatch(db, j, company, probe, others[0]))
            && forall m: nat :: OnlyMatch(db, j, company, probe, m) ==> others == [m]
  {
    hide LiveMatch;
    var others := OthersMatching(db, j, company, probe);
    forall i: nat ensures i in others <==> LiveMatch(db, j, company, probe, i) {
      assert LiveMatch(db, j, company, probe, i) ==> i < |db.jobs| by {
        LiveInRange(db, j, company, probe, i);
      }
    }
    forall m: nat | OnlyMatch(db, j, company, probe, m) ensures others == [m] {
      assert m in others;
      assert LiveMatch(db, j, company, probe, others[0]) && LiveMatch(db, j, company, probe, others[|others| - 1]);
    }
  }

  lemma LiveInRange(db: Db, j: nat, company: string, probe: Probe, i: nat)
    ensures LiveMatch(db, j, company, probe, i) ==> i < |db.jobs|
  {
  }

  // ---- duplicates, told from the rows alone ----

  /** Another live job of the company. */
  ghost predicate Rival(db: Db, j: nat, company: string, i: nat) {
    i < |db.jobs| && i != j && db.jobs[i].company == company
    && db.jobs[i].status != Merged && db.jobs[i].mergedInto.None?
  }

  ghost predicate EverRequisition(db: Db, i: nat, requisition: string) {
    exists c ::
      0 <= c < |db.contents| && db.contents[c].job == i && db.contents[c].posting.requisition == Some(requisition)
  }

  ghost predicate EverFingerprint(db: Db, i: nat, fingerprint: string) {
    exists c :: 0 <= c < |db.contents| && db.contents[c].job == i && db.contents[c].posting.fingerprint == fingerprint
  }

  /** `c` is the newest content of job `j`. */
  ghost predicate IsNewest(db: Db, j: nat, c: nat) {
    c < |db.contents| && db.contents[c].job == j && forall d :: c < d < |db.contents| ==> db.contents[d].job != j
  }

  /** The newest contents of both jobs have titles, and equal ones. */
  ghost predicate NewestTitlesAgree(db: Db, j: nat, m: nat) {
    exists c: nat, e: nat :: IsNewest(db, j, c) && IsNewest(db, m, e)
      && db.contents[c].posting.title.Some? && db.contents[c].posting.title == db.contents[e].posting.title
  }

  /** `m` is the only rival that ever had this requisition, and its newest title agrees. */
  ghost predicate SameRequisition(db: Db, j: nat, company: string, requisition: Option<string>, m: nat) {
    && requisition.Some?
    && Rival(db, j, company, m) && EverRequisition(db, m, requisition.value)
    && (forall i: nat :: Rival(db, j, company, i) && EverRequisition(db, i, requisition.value) ==> i == m)
    && NewestTitlesAgree(db, j, m)
  }

  /** `m` is the only rival that ever had this fingerprint. */
  ghost predicate SameFingerprint(db: Db, j: nat, company: string, fingerprint: string, m: nat) {
    && Rival(db, j, company, m) && EverFingerprint(db, m, fingerprint)
    && (forall i: nat :: Rival(db, j, company, i) && EverFingerprint(db, i, fingerprint) ==> i == m)
  }

  /** `m` is the proven duplicate of `j`: by requisition, or, when there is none, by fingerprint. */
  ghost predicate ProvenDuplicate(db: Db, j: nat, company: string, requisition: Option<string>, fingerprint: string,
                                  m: nat)
  {
    || SameRequisition(db, j, company, requisition, m)
    || ((forall i: nat :: !SameRequisition(db, j, company, requisition, i))
        && SameFingerprint(db, j, company, fingerprint, m))
  }

  lemma LatestIsNewest(db: Db, j: nat, c: nat)
    requires IsNewest(db, j, c)
    ensures LatestTitle(db, j) == db.contents[c].posting.title
  {
    var own := Select(|db.contents|, (d: nat) => d < |db.contents| && db.contents[d].job == j);
    assert c in own;
    assert own[|own| - 1] in own;
  }

  lemma NewestExists(db: Db, j: nat)
    ensures LatestTitle(db, j).Some? ==> exists c: nat :: IsNewest(db, j, c)
  {
    var own := Select(|db.contents|, (d: nat) => d < |db.contents| && db.contents[d].job == j);
    if |own| > 0 {
      var c := own[|own| - 1];
      assert c in own;
      forall d | c < d < |db.contents| ensures db.contents[d].job != j {
        assert d !in own;
      }
      assert IsNewest(db, j, c);
    }
  }

  lemma TitlesAgree(db: Db, j: nat, m: nat)
    ensures NewestTitlesAgree(db, j, m) <==> LatestTitle(db, j).Some? && LatestTitle(db, j) == LatestTitle(db, m)
  {
    hide LatestTitle;
    if NewestTitlesAgree(db, j, m) {
      var c: nat, e: nat :| IsNewest(db, j, c) && IsNewest(db, m, e)
        && db.contents[c].posting.title.Some? && db.contents[c].posting.title == db.contents[e].posting.title;
      LatestIsNewest(db, j, c);
      LatestIsNewest(db, m, e);
    }
    if LatestTitle(db, j).Some? && LatestTitle(db, j) == LatestTitle(db, m) {
      NewestExists(db, j);
      NewestExists(db, m);
      var c: nat :| IsNewest(db, j, c);
      var e: nat :| IsNewest(db, m, e);
      LatestIsNewest(db, j, c);
      LatestIsNewest(db, m, e);
    }
  }

  lemma MatchesRequisition(db: Db, j: nat, company: string, requisition: string, i: nat)
    ensures LiveMatch(db, j, company, ByRequisition(requisition), i)
       <==> Rival(db, j, company, i) && EverRequisition(db, i, requisition)
  {
  }

  lemma MatchesFingerprint(db: Db, j: nat, company: string, fingerprint: string, i: nat)
    ensures LiveMatch(db, j, company, ByFingerprint(fingerprint), i)
       <==> Rival(db, j, company, i) && EverFingerprint(db, i, fingerprint)
  {
  }

  lemma SameRequisitionIsOnly(db: Db, j: nat, company: string, requisition: string, m: nat)
    ensures SameRequisition(db, j, company, Some(requisition), m)
       <==> OnlyMatch(db, j, company, ByRequisition(requisition), m)
            && LatestTitle(db, j).Some? && LatestTitle(db, j) == LatestTitle(db, m)
  {
    hide LiveMatch, Rival, EverRequisition, LatestTitle, NewestTitlesAgree;
    TitlesAgree(db, j, m);
    forall i: nat
      ensures LiveMatch(db, j, company, ByRequisition(requisition), i)
         <==> Rival(db, j, company, i) && EverRequisition(db, i, requisition)
    {
      MatchesRequisition(db, j, company, requisition, i);
    }
  }

  lemma SameFingerprintIsOnly(db: Db, j: nat, company: string, fingerprint: string, m: nat)
    ensures SameFingerprint(db, j, company, fingerprint, m)
       <==> OnlyMatch(db, j, company, ByFingerprint(fingerprint), m)
  {
    hide LiveMatch, Rival, EverFingerprint;
    forall i: nat
      ensures LiveMatch(db, j, company, ByFingerprint(fingerprint), i)
         <==> Rival(db, j, company, i) && EverFingerprint(db, i, fingerprint)
    {
      MatchesFingerprint(db, j, company, fingerprint, i);
    }
  }

  lemma ByRequisitionExactly(db: Db, j: nat, company: string, requisition: string)
    ensures var others := OthersMatching(db, j, company, ByRequisition(requisition));
      forall m: nat :: SameRequisition(db, j, company, Some(requisition), m) <==>
        |others| == 1 && others[0] == m && LatestTitle(db, j).Some? && LatestTitle(db, j) == LatestTitle(db, m)
  {
    hide OnlyMatch, LatestTitle, SameRequisition, OthersMatching;
    OnlyMatchIsListed(db, j, company, ByRequisition(requisition));
    forall m: nat
      ensures SameRequisition(db, j, company, Some(requisition), m)
         <==> OnlyMatch(db, j, company, ByRequisition(requisition), m)
              && LatestTitle(db, j).Some? && LatestTitle(db, j) == LatestTitle(db, m)
    {
      SameRequisitionIsOnly(db, j, company, requisition, m);
    }
  }

  /** A merge is proven only by the one live job that ever had the same requisition, with
      equal newest titles, or else by the one that ever had the same fingerprint. */
  lemma DuplicateExactly(db: Db, j: nat, company: string, requisition: Option<string>, fingerprint: string, m: nat)
    ensures DuplicateOf(db, j, company, requisition, fingerprint) == Some(m)
       <==> ProvenDuplicate(db, j, company, requisition, fingerprint, m)
  {
    hide OnlyMatch, LatestTitle, OthersMatching, SameFingerprint;
    if requisition.Some? {
      ByRequisitionExactly(db, j, company, requisition.value);
      hide SameRequisition;
      var others := OthersMatching(db, j, company, ByRequisition(requisition.value));
      if |others| == 1 && LatestTitle(db, j).Some? && LatestTitle(db, j) == LatestTitle(db, others[0]) {
        assert SameRequisition(db, j, company, requisition, others[0]);
      }
    }
    SameFingerprintIsOnly(db, j, company, fingerprint, m);
    OnlyMatchIsListed(db, j, company, ByFingerprint(fingerprint));
  }

  /** Folding in a job that nobody is processing. */
  lemma FoldKeepsRows(db: Db, j: nat, into: nat)
    requires LeasesHold(db) && JobsOk(db) && ContentsOk(db)
    requires CanMerge(db, j, into, false) && db.jobs[into].company == db.jobs[j].company
    ensures var after := MergeInto(db, j, into); LeasesHold(after) && JobsOk(after) && ContentsOk(after)
  {
    hide MovedSources;
    assert LeaseRow(db.jobs[j], j, db.attempts) && JobRow(db.jobs[j]);
  }

  lemma FoldKeepsSound(db: Db, j: nat, into: nat)
    requires Sound(db)
    requires CanMerge(db, j, into, false) && db.jobs[into].company == db.jobs[j].company
    ensures Sound(MergeInto(db, j, into))
  {
    hide LeasesHold, JobsOk, ContentsOk, MovedSources;
    FoldKeepsRows(db, j, into);
  }

  lemma MergeKeepsSound(db: Db, j: nat, a: nat, company: string, requisition: Option<string>, fingerprint: string,
                        now: nat)
    requires Sound(db)
    requires j < |db.jobs| && db.jobs[j].company == company
    ensures Sound(After(db, MergeDuplicate(db, j, a, company, requisition, fingerprint, now)))
  {
    hide MovedSources, DuplicateOf, AttemptRow;
    var duplicate := DuplicateOf(db, j, company, requisition, fingerprint);
    DuplicateIsLive(db, j, company, requisition, fingerprint);
    if LeasedTo(db, j, a) && duplicate.Some? {
      var m := duplicate.value;
      if m < j {
        var job := db.jobs[j].(status := Merged, mergedInto := Some(m), due := None, lease := None);
        var finish := Finish(Ended(Merged), Some(Fetch), now);
        EndingKeepsRows(db, j, a, job, finish);
        EndingKeepsVerdicts(db, j, a, job, finish, db.decisions);
        EndingKeepsResults(db, j, a, job, finish);
      } else if CanMerge(db, m, j, false) {
        FoldKeepsSound(db, m, j);
      }
    }
  }

  lemma ReapKeepsLeases(db: Db, stage: Stage, cutoff: nat, now: nat)
    requires LeasesHold(db)
    ensures LeasesHold(After(db, ReapStale(db, stage, cutoff, now)))
  {
    var after := After(db, ReapStale(db, stage, cutoff, now));
    forall j | 0 <= j < |db.jobs| ensures LeaseRow(after.jobs[j], j, after.attempts) {
      assert LeaseRow(db.jobs[j], j, db.attempts);
    }
    forall a | 0 <= a < |db.attempts| ensures AttemptRow(after.attempts[a], a, after.jobs) {
      assert AttemptRow(db.attempts[a], a, db.jobs);
    }
  }

  /** Reaping touches no content pointer, verdict, company, key or merge. */
  lemma ReapKeepsSound(db: Db, stage: Stage, cutoff: nat, now: nat)
    requires Sound(db)
    ensures Sound(After(db, ReapStale(db, stage, cutoff, now)))
  {
    ReapKeepsLeases(db, stage, cutoff, now);
    ReapKeepsJobs(db, stage, cutoff, now);
    ReapKeepsVerdicts(db, stage, cutoff, now);
  }

  lemma ReapKeepsJobs(db: Db, stage: Stage, cutoff: nat, now: nat)
    requires LeasesHold(db) && JobsOk(db) && ContentsOk(db)
    ensures var after := After(db, ReapStale(db, stage, cutoff, now)); JobsOk(after) && ContentsOk(after)
  {
    var after := After(db, ReapStale(db, stage, cutoff, now));
    forall j | 0 <= j < |db.jobs| ensures JobRow(after.jobs[j]) {
      assert JobRow(db.jobs[j]) && LeaseRow(db.jobs[j], j, db.attempts);
    }
  }

  lemma ReapKeepsVerdicts(db: Db, stage: Stage, cutoff: nat, now: nat)
    requires LeasesHold(db) && JobsOk(db) && DecisionsOk(db) && ResultsOk(db)
    ensures var after := After(db, ReapStale(db, stage, cutoff, now)); DecisionsOk(after) && ResultsOk(after)
  {
    var after := After(db, ReapStale(db, stage, cutoff, now));
    forall j | 0 <= j < |db.jobs| ensures VerdictMatches(after.jobs[j], after.decisions, j) {
      assert VerdictMatches(db.jobs[j], db.decisions, j) && LeaseRow(db.jobs[j], j, db.attempts);
      assert JobRow(db.jobs[j]);
    }
  }

  /** A reprocessed job starts from the content its checkpoint names, which is its own. */
  lemma CheckpointIsOwn(db: Db, j: nat, from: Phase)
    requires OneCurrentDecision(db.decisions) && j < |db.jobs|
    requires CheckpointFor(db, j, from).Commit?
    ensures var content := CheckpointFor(db, j, from).value;
            && (from == Fetch <==> content.None?)
            && (content.Some? ==> OwnContent(db.contents, j, content.value))
            && (from == Extraction ==> Judged(db.decisions, j, content, Eligible))
  {
    EligibleIsRead(db, j);
  }

  lemma {:induction false} NoFaultInSelection(db: Db, selected: seq<nat>, from: Phase)
    requires forall k :: 0 <= k < |selected| ==> selected[k] < |db.jobs|
    requires CheckpointFault(db, selected, from).None?
    ensures forall k :: 0 <= k < |selected| ==> CheckpointFor(db, selected[k], from).Commit?
  {
    if |selected| > 0 {
      NoFaultInSelection(db, selected[..|selected| - 1], from);
    }
  }

  lemma NoFaultMeansCheckpoints(db: Db, ids: seq<nat>, from: Phase)
    requires PrepareFault(db, ids, from).None?
    ensures forall j :: 0 <= j < |db.jobs| && j in ids ==> CheckpointFor(db, j, from).Commit?
  {
    NoFaultInSelection(db, Selected(db, ids), from);
    forall j | 0 <= j < |db.jobs| && j in ids ensures CheckpointFor(db, j, from).Commit? {
      assert j in Selected(db, ids);
    }
  }

  lemma PreparedRow(job: Job, from: Phase, content: Option<nat>, now: nat)
    requires from == Fetch <==> content.None?
    ensures JobRow(Prepared(job, from, content, now))
  {
  }

  lemma PrepareKeepsLeases(db: Db, ids: seq<nat>, from: Phase, now: nat)
    requires LeasesHold(db) && PrepareFault(db, ids, from).None?
    ensures LeasesHold(PreparedDb(db, ids, from, now))
  {
    hide CheckpointFor;
    var after := PreparedDb(db, ids, from, now);
    NoFaultMeansCheckpoints(db, ids, from);
    forall j | 0 <= j < |db.jobs| ensures LeaseRow(after.jobs[j], j, after.attempts) {
      assert LeaseRow(db.jobs[j], j, db.attempts);
    }
    forall a | 0 <= a < |db.attempts| ensures AttemptRow(after.attempts[a], a, after.jobs) {
      assert AttemptRow(db.attempts[a], a, db.jobs)
        && LeaseRow(db.jobs[db.attempts[a].job], db.attempts[a].job, db.attempts);
    }
  }

  lemma PrepareKeepsJobs(db: Db, ids: seq<nat>, from: Phase, now: nat)
    requires JobsOk(db) && ContentsOk(db) && OneCurrentDecision(db.decisions)
    requires PrepareFault(db, ids, from).None?
    ensures var after := PreparedDb(db, ids, from, now); JobsOk(after) && ContentsOk(after)
  {
    hide CheckpointFor, OneCurrentDecision, JobRow, PrepareFault;
    var after := PreparedDb(db, ids, from, now);
    NoFaultMeansCheckpoints(db, ids, from);
    forall j | 0 <= j < |db.jobs|
      ensures JobRow(after.jobs[j])
      ensures after.jobs[j].content.Some? ==> OwnContent(after.contents, j, after.jobs[j].content.value)
    {
      if j in ids {
        CheckpointIsOwn(db, j, from);
        PreparedRow(db.jobs[j], from, CheckpointFor(db, j, from).value, now);
      }
    }
  }

  lemma PrepareKeepsVerdicts(db: Db, ids: seq<nat>, from: Phase, now: nat)
    requires JobsOk(db) && DecisionsOk(db)
    requires PrepareFault(db, ids, from).None?
    ensures DecisionsOk(PreparedDb(db, ids, from, now))
  {
    var after := PreparedDb(db, ids, from, now);
    NoFaultMeansCheckpoints(db, ids, from);
    forall i: nat, d: nat
      ensures CurrentFor(after.decisions, i, d) <==> CurrentFor(db.decisions, i, d) && (from.Extraction? || i !in ids)
    {
    }
    forall j | 0 <= j < |db.jobs| ensures VerdictMatches(after.jobs[j], after.decisions, j) {
      assert VerdictMatches(db.jobs[j], db.decisions, j);
      if j in ids {
        CheckpointIsOwn(db, j, from);
        if from == Extraction {
          assert after.decisions == db.decisions;
        }
      } else {
        assert SameVerdicts(db.decisions, after.decisions, j);
        VerdictCarries(db.jobs[j], db.decisions, after.decisions, j);
      }
    }
  }

  lemma PrepareKeepsResults(db: Db, ids: seq<nat>, from: Phase, now: nat)
    requires ResultsOk(db) && PrepareFault(db, ids, from).None?
    ensures ResultsOk(PreparedDb(db, ids, from, now))
  {
    var after := PreparedDb(db, ids, from, now);
    NoFaultMeansCheckpoints(db, ids, from);
    forall i: nat, r: nat
      ensures ResultFor(after.results, i, r) <==> ResultFor(db.results, i, r) && i !in ids
    {
    }
    forall j | 0 <= j < |db.jobs| && after.jobs[j].status == CompletedEligible
      ensures Extracted(after.results, j, after.jobs[j].content)
    {
      var r: nat :| ResultFor(db.results, j, r) && db.jobs[j].content == Some(db.results[r].content);
      assert ResultFor(after.results, j, r);
    }
  }

  lemma PrepareKeepsSound(db: Db, ids: seq<nat>, from: Phase, now: nat)
    requires Sound(db)
    ensures Sound(After(db, PrepareReprocess(db, ids, from, now)))
  {
    hide LeasesHold, JobsOk, ContentsOk, ResultsOk, PreparedDb, PrepareFault;
    if PrepareFault(db, ids, from).None? {
      PrepareKeepsLeases(db, ids, from, now);
      PrepareKeepsJobs(db, ids, from, now);
      PrepareKeepsVerdicts(db, ids, from, now);
      PrepareKeepsResults(db, ids, from, now);
    }
  }
}
