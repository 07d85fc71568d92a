/** What a lease holder's work comes to, told from its inputs and the rows alone: what the
    clock, the network, the model and the failures decide is what is written. */
module Deeds {
  import opened Models
  import opened Policy
  import opened Runs
  import opened Transactions
  import opened Invariants
  import opened Sources
  import opened Workers
  import opened Leases
  import opened Steps
  import opened System
  import opened Guarantees
  import opened Lifetimes

  // ---- meanwhile ----

  predicate IsOthers(e: Event, i: nat) {
    !(e.Stepped? && e.worker == i) && !(e.Crashed? && e.worker == i)
  }

  /** Nothing but the doings of others: worker `i` neither steps nor crashes. */
  predicate OthersOnly(events: seq<Event>, i: nat) {
    forall k :: 0 <= k < |events| ==> IsOthers(events[k], i)
  }

  lemma OthersLeaveWorker(s: Sys, events: seq<Event>, i: nat, policy: PipelinePolicy)
    requires Inv(s, policy) && i < |s.workers| && OthersOnly(events, i)
    ensures i < |Run(s, events, policy).workers| && Run(s, events, policy).workers[i] == s.workers[i]
  {
    var w := s.workers[i];
    var next := (t: Sys, e: Event) => Next(t, e, policy);
    var p := (t: Sys) => Inv(t, policy) && i < |t.workers| && t.workers[i] == w;
    var q := (e: Event) => IsOthers(e, i);
    forall t, e | p(t) && q(e) ensures p(next(t, e)) {
      NextKeepsInv(t, e, policy);
      NextKeepsWorkers(t, e, i, policy);
    }
    Induction(s, events, next, p, q);
  }

  lemma NextSpares(s: Sys, e: Event, i: nat, policy: PipelinePolicy)
    requires Inv(s, policy) && i < |s.workers| && s.workers[i].attempt.Some? && IsOthers(e, i)
    ensures |s.db.jobs| <= |Next(s, e, policy).db.jobs|
    ensures Spares(s.db, Next(s, e, policy).db, s.workers[i].attempt.value)
  {
    hide Sound, SourcesExact, Step, Observe, PrepareReprocess, ReapStale, Spares;
    assert WorkerOk(s.db, s.workers[i], policy);
    SoundIsSound(s, policy);
    match e
    case Observed(company, items) => ObserveIsPolite(s.db, company, items);
    case Stepped(k, input) =>
      if k < |s.workers| {
        StepIsPolite(s.db, s.workers[k], input, policy);
      } else {
        SparesItself(s.db, s.workers[i].attempt.value);
      }
    case Reaped(stage, cutoff, now) => ReapIsPolite(s.db, stage, cutoff, now);
    case Prepared(ids, from, now) => PrepareIsPolite(s.db, ids, from, now);
    case Spawned(_, _, _) => SparesItself(s.db, s.workers[i].attempt.value);
    case Crashed(_) => SparesItself(s.db, s.workers[i].attempt.value);
  }

  lemma SoundIsSound(s: Sys, policy: PipelinePolicy)
    requires Inv(s, policy)
    ensures Sound(s.db) && JobsOk(s.db)
  {
  }

  lemma SparesItself(db: Db, a: nat)
    ensures Spares(db, db, a)
  {
  }

  /** As long as nobody takes the lease, the row of the job stays as it is. */
  lemma {:induction false} RowKept(s: Sys, events: seq<Event>, i: nat, policy: PipelinePolicy)
    requires Inv(s, policy) && i < |s.workers| && OthersOnly(events, i)
    requires Holds(s.db, s.workers[i]) && Holds(Run(s, events, policy).db, s.workers[i])
    ensures Run(s, events, policy).db.jobs[s.workers[i].job] == s.db.jobs[s.workers[i].job]
    decreases |events|
  {
    hide Next, Inv;
    if |events| > 0 {
      var e, rest := events[0], events[1..];
      var after := Next(s, e, policy);
      assert OthersOnly(rest, i);
      NextKeepsInv(s, e, policy);
      NextKeepsWorkers(s, e, i, policy);
      NextSpares(s, e, i, policy);
      if !Holds(after.db, s.workers[i]) {
        RunStaysLost(after, rest, i, policy);
        OthersLeaveWorker(after, rest, i, policy);
        assert false;
      }
      RowKept(after, rest, i, policy);
    }
  }

  /** Worker `i` has taken a step on `first`, others have done what they do in `events`. */
  function Meanwhile(s: Sys, i: nat, first: Input, events: seq<Event>, policy: PipelinePolicy): Sys {
    Run(Next(s, Stepped(i, first), policy), events, policy)
  }

  /** ... and then it takes another. */
  function Then(s: Sys, i: nat, first: Input, events: seq<Event>, second: Input, policy: PipelinePolicy): Sys {
    Next(Meanwhile(s, i, first, events, policy), Stepped(i, second), policy)
  }

  /** Worker `i` is still under its lease when it comes to its second step. */
  predicate NotTaken(s: Sys, i: nat, first: Input, events: seq<Event>, policy: PipelinePolicy) {
    var mid := Meanwhile(s, i, first, events, policy);
    OthersOnly(events, i) && i < |mid.workers| && Holds(mid.db, mid.workers[i])
  }

  /** Between a holder's two steps, everything it knows stays put. */
  lemma MeanwhileKeeps(s: Sys, i: nat, first: Input, events: seq<Event>, policy: PipelinePolicy)
    requires Reachable(s, policy) && i < |s.workers| && Holds(s.db, s.workers[i])
    requires NotTaken(s, i, first, events, policy)
    ensures var (db, w) := Step(s.db, s.workers[i], first, policy);
      var mid := Meanwhile(s, i, first, events, policy);
      && Reachable(mid, policy) && mid.workers[i] == w && SameWorker(s.workers[i], w)
      && w.job < |db.jobs| && Holds(db, w) && mid.db.jobs[w.job] == db.jobs[w.job]
  {
    hide Next, Step, Inv;
    ReachableInv(s, policy);
    var one := Next(s, Stepped(i, first), policy);
    OneStepOn(s, Stepped(i, first), policy);
    ReachableOn(one, events, policy);
    NextKeepsInv(s, Stepped(i, first), policy);
    NextIsStep(s, i, first, policy);
    NextKeepsWorkers(s, Stepped(i, first), i, policy);
    OthersLeaveWorker(one, events, i, policy);
    if !Holds(one.db, one.workers[i]) {
      RunStaysLost(one, events, i, policy);
      assert false;
    }
    RowKept(one, events, i, policy);
  }

  lemma ThenIsStep(s: Sys, i: nat, first: Input, events: seq<Event>, second: Input, policy: PipelinePolicy)
    requires i < |Meanwhile(s, i, first, events, policy).workers|
    ensures var mid := Meanwhile(s, i, first, events, policy);
      var (db, w) := Step(mid.db, mid.workers[i], second, policy);
      Then(s, i, first, events, second, policy) == mid.(db := db, workers := mid.workers[i := w])
  {
    hide Step, Meanwhile;
    NextIsStep(Meanwhile(s, i, first, events, policy), i, second, policy);
  }

  // ---- the model's verdict ----

  function StatusFor(verdict: Verdict): Status {
    match verdict
    case Eligible => ReadyForExtraction
    case Ineligible => CompletedIneligible
    case Unknown => UnknownVerdict
  }

  /** The last decision is `w`'s, on this content, with this verdict, and current. */
  predicate Decided(db: Db, w: Worker, content: nat, verdict: Verdict) {
    && |db.decisions| > 0 && w.attempt.Some?
    && var last := db.decisions[|db.decisions| - 1];
       && last.job == w.job && last.attempt == w.attempt.value && last.content == content
       && last.verdict == verdict && last.current
  }

  /** Nobody holds it, nothing keeps it waiting, and it is owed to the same kind of run. */
  predicate IsFree(was: Job, job: Job) {
    job.lease.None? && job.due.None? && job.reprocess == was.reprocess
  }

  lemma JudgingMovesOn(db: Db, w: Worker, input: Input, policy: PipelinePolicy)
    requires w.attempt.Some? && w.pc.Judging? && input.failure.None?
    ensures var (after, w') := Step(db, w, input, policy);
      after == db && w'.pc == if input.verdict == Eligible then HandingOff(w.pc.content, Some(Eligible))
                              else Accepting(w.pc.content, input.verdict)
  {
  }

  lemma VerdictIsWritten(db: Db, w: Worker, input: Input, policy: PipelinePolicy, content: nat, verdict: Verdict)
    requires WorkerOk(db, w, policy) && LeasesHold(db) && Holds(db, w) && input.failure.None?
    requires w.pc == if verdict == Eligible then HandingOff(content, Some(Eligible)) else Accepting(content, verdict)
    ensures var (after, w') := Step(db, w, input, policy);
      && w.job < |after.jobs| && after.jobs[w.job].status == StatusFor(verdict)
      && after.jobs[w.job].phase == (if verdict == Eligible then Extraction else Eligibility)
      && after.jobs[w.job].content == Some(content) && Decided(after, w, content, verdict)
      && IsFree(db.jobs[w.job], after.jobs[w.job]) && (verdict == Eligible ==> after.jobs[w.job].attemptCount == 0)
      && w'.pc == Done(Reported(StatusFor(verdict)))
  {
    hide RetiredDecisions;
    assert LeaseRow(db.jobs[w.job], w.job, db.attempts);
  }

  /** The verdict that validation settled on is the verdict of the job: eligible hands it to
      extraction, ineligible and unknown complete it as such, and its one current decision
      says so of the content that was judged. */
  lemma JudgedAsTold(s: Sys, i: nat, first: Input, events: seq<Event>, second: Input, policy: PipelinePolicy)
    requires Reachable(s, policy) && i < |s.workers| && Holds(s.db, s.workers[i]) && s.workers[i].pc.Judging?
    requires first.failure.None? && second.failure.None? && NotTaken(s, i, first, events, policy)
    ensures var w, after := s.workers[i], Then(s, i, first, events, second, policy);
      && w.job < |after.db.jobs| && after.db.jobs[w.job].status == StatusFor(first.verdict)
      && after.db.jobs[w.job].content == Some(w.pc.content) && IsFree(s.db.jobs[w.job], after.db.jobs[w.job])
      && (first.verdict == Eligible ==> after.db.jobs[w.job].attemptCount == 0)
      && CurrentlyJudged(after.db, w.job, first.verdict) && Decided(after.db, w, w.pc.content, first.verdict)
      && i < |after.workers| && after.workers[i].pc == Done(Reported(StatusFor(first.verdict)))
  {
    hide Next, Step, Inv, Sound, CurrentlyJudged, Meanwhile, Then;
    var mid, after := Meanwhile(s, i, first, events, policy), Then(s, i, first, events, second, policy);
    MeanwhileKeeps(s, i, first, events, policy);
    ThenIsStep(s, i, first, events, second, policy);
    JudgingMovesOn(s.db, s.workers[i], first, policy);
    InvParts(mid, i, policy);
    VerdictIsWritten(mid.db, mid.workers[i], second, policy, s.workers[i].pc.content, first.verdict);
    ThenIsReachable(s, i, first, events, second, policy);
    VerdictsAreCurrent(after, s.workers[i].job, policy);
  }

  lemma InvParts(s: Sys, i: nat, policy: PipelinePolicy)
    requires Reachable(s, policy) && i < |s.workers|
    ensures Sound(s.db) && LeasesHold(s.db) && WorkerOk(s.db, s.workers[i], policy)
  {
    hide SourcesExact, WorkerOk;
    ReachableInv(s, policy);
  }

  lemma ThenIsReachable(s: Sys, i: nat, first: Input, events: seq<Event>, second: Input, policy: PipelinePolicy)
    requires Reachable(Meanwhile(s, i, first, events, policy), policy)
    ensures Reachable(Then(s, i, first, events, second, policy), policy)
  {
    hide Next, Meanwhile;
    OneStepOn(Meanwhile(s, i, first, events, policy), Stepped(i, second), policy);
  }

  // ---- the claim ----

  /** Attempt `a` is the new row of a claim by `w` at `now`. */
  predicate ClaimedBy(before: Db, after: Db, w: Worker, now: nat) {
    && w.job < |before.jobs| && |after.jobs| == |before.jobs|
    && |after.attempts| == |before.attempts| + 1 && before.attempts <= after.attempts
    && var was, job, row := before.jobs[w.job], after.jobs[w.job], after.attempts[|before.attempts|];
       && row.job == w.job && row.stage == w.stage && row.trigger == w.trigger
       && row.startedAt == now && row.finish.None?
       && job.status == InProgress && job.lease == Some(|before.attempts|) && job.due.None? && !job.reprocess
       && job.attemptCount == was.attemptCount + 1
       && job.company == was.company && job.key == was.key && job.phase == was.phase && job.content == was.content
       && job.mergedInto == was.mergedInto
       && forall j :: 0 <= j < |before.jobs| && j != w.job ==> after.jobs[j] == before.jobs[j]
  }

  predicate OnlyJobsAndAttempts(before: Db, after: Db) {
    after == before.(jobs := after.jobs, attempts := after.attempts)
  }

  /** A worker claims its job exactly when the job waits for its stage and trigger and is due;
      the attempt then starts at the time of the claim.  Otherwise it reports a skip and
      nothing has changed. */
  lemma ClaimStarts(s: Sys, i: nat, input: Input, policy: PipelinePolicy)
    requires Reachable(s, policy) && i < |s.workers| && s.workers[i].pc.Claiming? && input.failure.None?
    ensures var w, after := s.workers[i], Next(s, Stepped(i, input), policy);
      var waits := w.job < |s.db.jobs| && s.db.jobs[w.job].status in {New, Retry, ReadyForExtraction}
        && w.stage == StageOf(s.db.jobs[w.job].phase) && (w.trigger.Reprocess? <==> s.db.jobs[w.job].reprocess)
        && (s.db.jobs[w.job].due.Some? ==> s.db.jobs[w.job].due.value <= input.now);
      if waits then
        && ClaimedBy(s.db, after.db, w, input.now) && OnlyJobsAndAttempts(s.db, after.db)
        && after.workers[i] == w.(attempt := Some(|s.db.attempts|), pc := ReadClaimed)
      else after.db == s.db && after.workers[i].pc == Done(ReportedSkipped)
  {
    hide Next, JobsOk, ContentsOk, DecisionsOk, ResultsOk, SourcesExact;
    ReachableInv(s, policy);
    NextIsStep(s, i, input, policy);
    assert WorkerOk(s.db, s.workers[i], policy);
    if s.workers[i].job < |s.db.jobs| {
      ClaimableOnce(s, s.workers[i].job, s.workers[i].stage, input.now, s.workers[i].trigger.Reprocess?, policy);
    }
  }

  /** From a claim on, whatever others do, no reaper that looks back no further than the claim
      takes the lease. */
  lemma FreshLeaseIsSafe(s: Sys, i: nat, input: Input, events: seq<Event>, policy: PipelinePolicy)
    requires Reachable(s, policy) && i < |s.workers| && s.workers[i].pc.Claiming? && input.failure.None?
    requires OthersOnly(events, i)
    requires forall k :: 0 <= k < |events| && events[k].Reaped? && events[k].stage == s.workers[i].stage ==>
      events[k].cutoff <= input.now
    ensures var claimed, later := Next(s, Stepped(i, input), policy), Meanwhile(s, i, input, events, policy);
      && i < |claimed.workers|
      && (claimed.workers[i].pc.ReadClaimed? ==>
            && i < |later.workers| && Holds(later.db, later.workers[i]) && s.workers[i].job < |claimed.db.jobs|
            && s.workers[i].job < |later.db.jobs|
            && later.db.jobs[s.workers[i].job] == claimed.db.jobs[s.workers[i].job])
  {
    hide Next, Inv;
    var claimed := Next(s, Stepped(i, input), policy);
    ClaimStarts(s, i, input, policy);
    NextMovesWorker(s, i, input, policy);
    if claimed.workers[i].pc.ReadClaimed? {
      OneStepOn(s, Stepped(i, input), policy);
      ReachableInv(claimed, policy);
      forall k | 0 <= k < |events| ensures Spared(events[k], i, claimed.workers[i], input.now) {
        assert IsOthers(events[k], i);
      }
      UndisturbedRun(claimed, events, i, input.now, policy);
      OthersLeaveWorker(claimed, events, i, policy);
      RowKept(claimed, events, i, policy);
    }
  }

  /** After the claim the job's own phase says where the work starts. */
  lemma WorkStartsAtThePhase(s: Sys, i: nat, input: Input, policy: PipelinePolicy)
    requires Reachable(s, policy) && i < |s.workers| && Holds(s.db, s.workers[i])
    requires s.workers[i].pc.ReadClaimed? && input.failure.None?
    ensures var w, after := s.workers[i], Next(s, Stepped(i, input), policy);
      && after.db == s.db && after.workers[i].phase == s.db.jobs[w.job].phase
      && after.workers[i].pc == match s.db.jobs[w.job].phase
                                case Fetch => ReadSources
                                case Eligibility => ReadContent
                                case Extraction => ReadPosting
  {
    hide Next, JobsOk, ContentsOk, DecisionsOk, ResultsOk, SourcesExact;
    ReachableInv(s, policy);
    NextIsStep(s, i, input, policy);
    assert WorkerOk(s.db, s.workers[i], policy);
    assert LeaseRow(s.db.jobs[s.workers[i].job], s.workers[i].job, s.db.attempts);
  }

  predicate Reading(pc: Pc) {
    pc.ReadSources? || pc.ReadContent? || pc.ReadVerdict? || pc.ReadPosting? || pc.ReadDecision?
  }

  /** Where a read leads that neither raises nor finds an old verdict. */
  lemma ReadStep(db: Db, w: Worker, input: Input, policy: PipelinePolicy)
    requires w.attempt.Some? && Reading(w.pc) && input.failure.None?
    ensures var (after, w') := Step(db, w, input, policy);
      var content := CurrentContent(db, w.job);
      && after == db && w' == w.(pc := w'.pc) && (w'.pc.HandingOff? ==> w'.pc.decision.None?)
      && (!w'.pc.Failing? && !w'.pc.Resuming? && !w'.pc.HandingOff? ==>
            match w.pc
            case ReadSources => w'.pc == Acquire
            case ReadContent => content.Some? && w'.pc == ReadVerdict(content.value)
            case ReadVerdict(c) => w'.pc == Judging(c)
            case ReadPosting => content.Some? && w'.pc == ReadDecision(content.value)
            case ReadDecision(c) => w'.pc == Extracting(c)
            case _ => true)
  {
    hide CurrentContent, CurrentDecision;
  }

  /** What a holder reads on its way: it goes on from the sources it has to the acquisition, from
      its own content to the model, and from the content it was found eligible on to the
      extraction, writing nothing. */
  lemma ReadingLeadsOn(s: Sys, i: nat, input: Input, policy: PipelinePolicy)
    requires Reachable(s, policy) && i < |s.workers| && Holds(s.db, s.workers[i]) && input.failure.None?
    requires Reading(s.workers[i].pc)
    ensures var w, after := s.workers[i], Next(s, Stepped(i, input), policy);
      var content := s.db.jobs[w.job].content;
      && after.db == s.db && (!w.pc.ReadSources? ==> content.Some?)
      && (w.pc.ReadDecision? ==> CurrentlyJudged(s.db, w.job, Eligible))
      && after.workers[i].pc == match w.pc
                                case ReadSources => Acquire
                                case ReadContent => ReadVerdict(content.value)
                                case ReadVerdict(_) => Judging(content.value)
                                case ReadPosting => ReadDecision(content.value)
                                case _ => Extracting(content.value)
  {
    hide Next, Inv, Step, CurrentlyJudged, Sound;
    var w, after := s.workers[i], Next(s, Stepped(i, input), policy);
    InvParts(s, i, policy);
    NextIsStep(s, i, input, policy);
    HolderNeverFailsByItself(s, i, input, policy);
    ReadStep(s.db, w, input, policy);
    OneStepOn(s, Stepped(i, input), policy);
    InvParts(after, i, policy);
    VerdictsAreCurrent(s, w.job, policy);
    HolderIsBusy(s, i, policy);
  }

  lemma HolderIsBusy(s: Sys, i: nat, policy: PipelinePolicy)
    requires Reachable(s, policy) && i < |s.workers| && Holds(s.db, s.workers[i])
    ensures s.db.jobs[s.workers[i].job].status == InProgress
  {
    hide SourcesExact, WorkerOk;
    ReachableInv(s, policy);
    assert LeaseRow(s.db.jobs[s.workers[i].job], s.workers[i].job, s.db.attempts);
  }

  // ---- what was fetched ----

  lemma AcquiringMovesOn(db: Db, w: Worker, input: Input, policy: PipelinePolicy)
    requires w.attempt.Some? && w.pc.Acquire? && input.failure.None?
    ensures Step(db, w, input, policy) == (db, w.(pc := Storing(input.posting)))
  {
  }

  /** Job `j` had a content with this hash. */
  predicate HadHash(db: Db, j: nat, hash: string) {
    exists c :: 0 <= c < |db.contents| && db.contents[c].job == j && db.contents[c].posting.hash == hash
  }

  /** The posting is the job's content: the new last row, unless the job already had its hash. */
  predicate IsStored(before: Db, after: Db, j: nat, posting: Posting) {
    && j < |before.jobs| && |after.jobs| == |before.jobs| && after.jobs[j].content.Some?
    && var c := after.jobs[j].content.value;
       && c < |after.contents| && after.contents[c].job == j && after.contents[c].posting.hash == posting.hash
       && after.contents == (if HadHash(before, j, posting.hash) then before.contents
                             else before.contents + [Content(j, posting)])
       && (!HadHash(before, j, posting.hash) ==> c == |before.contents|)
       && after.jobs == before.jobs[j := before.jobs[j].(content := Some(c))]
  }

  lemma PostingIsWritten(db: Db, w: Worker, input: Input, policy: PipelinePolicy)
    requires Sound(db) && WorkerOk(db, w, policy) && Holds(db, w) && w.pc.Storing? && input.failure.None?
    ensures var (after, w') := Step(db, w, input, policy);
      && IsStored(db, after, w.job, w.pc.posting)
      && w'.pc == Merging(w.pc.posting, after.jobs[w.job].content.value)
  {
    hide StoredContent, JobsOk, DecisionsOk, ResultsOk;
    assert LeaseRow(db.jobs[w.job], w.job, db.attempts);
    StoredIsRead(db, w.job, w.pc.posting.hash);
    match StoredContent(db, w.job, w.pc.posting.hash)
    case Row(c) => assert HasHash(db.contents, w.job, w.pc.posting.hash, c);
    case NoRow =>
      forall c | 0 <= c < |db.contents|
        ensures !(db.contents[c].job == w.job && db.contents[c].posting.hash == w.pc.posting.hash)
      {
        assert !HasHash(db.contents, w.job, w.pc.posting.hash, c);
      }
    case TooMany =>
  }

  /** The posting that was acquired becomes the job's current content. */
  lemma AcquiredIsStored(s: Sys, i: nat, first: Input, events: seq<Event>, second: Input, policy: PipelinePolicy)
    requires Reachable(s, policy) && i < |s.workers| && Holds(s.db, s.workers[i]) && s.workers[i].pc.Acquire?
    requires first.failure.None? && second.failure.None? && NotTaken(s, i, first, events, policy)
    ensures var mid, after := Meanwhile(s, i, first, events, policy), Then(s, i, first, events, second, policy);
      var j := s.workers[i].job;
      && IsStored(mid.db, after.db, j, first.posting)
      && i < |after.workers| && after.workers[i].pc == Merging(first.posting, after.db.jobs[j].content.value)
  {
    hide Next, Step, Inv, Sound, IsStored, Meanwhile, Then;
    var mid := Meanwhile(s, i, first, events, policy);
    MeanwhileKeeps(s, i, first, events, policy);
    ThenIsStep(s, i, first, events, second, policy);
    AcquiringMovesOn(s.db, s.workers[i], first, policy);
    InvParts(mid, i, policy);
    PostingIsWritten(mid.db, mid.workers[i], second, policy);
  }

  // ---- duplicates ----

  /** Job `from` is merged into job `into` and nothing else about any job has changed, but for
      what it no longer waits for or holds. */
  predicate MergedAway(before: Db, after: Db, from: nat, into: nat) {
    && from < |before.jobs| && |after.jobs| == |before.jobs|
    && after.jobs == before.jobs[from := before.jobs[from].(status := Merged, mergedInto := Some(into), due := None,
                                                            lease := None)]
    && after.contents == before.contents && after.decisions == before.decisions && after.results == before.results
  }

  lemma MergeOf(db: Db, w: Worker, input: Input, policy: PipelinePolicy, m: nat)
    requires LeasesHold(db) && WorkerOk(db, w, policy) && Holds(db, w) && w.pc.Merging? && input.failure.None?
    requires DuplicateOf(db, w.job, db.jobs[w.job].company, w.pc.posting.requisition, w.pc.posting.fingerprint)
      == Some(m)
    ensures m < |db.jobs| && m != w.job
    ensures var (after, w') := Step(db, w, input, policy);
      if m < w.job then MergedAway(db, after, w.job, m) && w'.pc == Done(Reported(Merged))
      else
        && w'.pc == Advancing(w.pc.content) && after.attempts == db.attempts
        && if db.jobs[m].status == InProgress then after == db else MergedAway(db, after, m, w.job)
  {
    hide DuplicateOf, MovedSources;
    DuplicateIsLive(db, w.job, db.jobs[w.job].company, w.pc.posting.requisition, w.pc.posting.fingerprint);
    assert LeaseRow(db.jobs[w.job], w.job, db.attempts);
  }

  lemma NothingToMerge(db: Db, w: Worker, input: Input, policy: PipelinePolicy)
    requires LeasesHold(db) && WorkerOk(db, w, policy) && Holds(db, w) && w.pc.Merging? && input.failure.None?
    requires DuplicateOf(db, w.job, db.jobs[w.job].company, w.pc.posting.requisition, w.pc.posting.fingerprint).None?
    ensures Step(db, w, input, policy) == (db, w.(pc := Advancing(w.pc.content)))
  {
    hide DuplicateOf, MovedSources;
    assert LeaseRow(db.jobs[w.job], w.job, db.attempts);
  }

  /** The posting in hand finds its proven duplicate: the younger of the two jobs is merged into
      the older, unless the younger is somebody else's work in progress. */
  lemma DuplicatesMerge(s: Sys, i: nat, input: Input, policy: PipelinePolicy)
    requires Reachable(s, policy) && i < |s.workers| && Holds(s.db, s.workers[i])
    requires s.workers[i].pc.Merging? && input.failure.None?
    ensures var w, after := s.workers[i], Next(s, Stepped(i, input), policy);
      var posting, company, pc := w.pc.posting, s.db.jobs[w.job].company, after.workers[i].pc;
      && (forall m: nat :: ProvenDuplicate(s.db, w.job, company, posting.requisition, posting.fingerprint, m) ==>
            && m < |s.db.jobs| && m != w.job
            && if m < w.job then MergedAway(s.db, after.db, w.job, m) && pc == Done(Reported(Merged))
               else pc == Advancing(w.pc.content)
                    && if s.db.jobs[m].status == InProgress then after.db == s.db
                       else MergedAway(s.db, after.db, m, w.job))
      && ((forall m: nat :: !ProvenDuplicate(s.db, w.job, company, posting.requisition, posting.fingerprint, m)) ==>
            after.db == s.db && pc == Advancing(w.pc.content))
  {
    hide Next, Step, Inv, MergedAway, ProvenDuplicate, DuplicateOf, Sound;
    var w := s.workers[i];
    InvParts(s, i, policy);
    NextIsStep(s, i, input, policy);
    var company, posting := s.db.jobs[w.job].company, w.pc.posting;
    forall m: nat
      ensures DuplicateOf(s.db, w.job, company, posting.requisition, posting.fingerprint) == Some(m)
         <==> ProvenDuplicate(s.db, w.job, company, posting.requisition, posting.fingerprint, m)
    {
      DuplicateExactly(s.db, w.job, company, posting.requisition, posting.fingerprint, m);
    }
    match DuplicateOf(s.db, w.job, company, posting.requisition, posting.fingerprint)
    case Some(m) => MergeOf(s.db, w, input, policy, m);
    case None => NothingToMerge(s.db, w, input, policy);
  }

  /** A posting that stays is next for eligibility, and nothing else changes. */
  lemma FetchedGoesToEligibility(s: Sys, i: nat, input: Input, policy: PipelinePolicy)
    requires Reachable(s, policy) && i < |s.workers| && Holds(s.db, s.workers[i])
    requires s.workers[i].pc.Advancing? && input.failure.None?
    ensures var w, after := s.workers[i], Next(s, Stepped(i, input), policy);
      && after.db == s.db.(jobs := s.db.jobs[w.job := s.db.jobs[w.job].(phase := Eligibility)])
      && after.workers[i].phase == Eligibility && after.workers[i].pc == ReadVerdict(w.pc.content)
  {
    hide Next, JobsOk, ContentsOk, DecisionsOk, ResultsOk, SourcesExact;
    ReachableInv(s, policy);
    NextIsStep(s, i, input, policy);
    assert WorkerOk(s.db, s.workers[i], policy);
    assert LeaseRow(s.db.jobs[s.workers[i].job], s.workers[i].job, s.db.attempts);
  }

  // ---- the extraction ----

  /** The last result is `w`'s, on this content, and current. */
  predicate Resulted(db: Db, w: Worker, content: nat) {
    && |db.results| > 0 && w.attempt.Some?
    && var last := db.results[|db.results| - 1];
       last.job == w.job && last.attempt == w.attempt.value && last.content == content && last.current
  }

  lemma ResultIsWritten(db: Db, w: Worker, input: Input, policy: PipelinePolicy)
    requires WorkerOk(db, w, policy) && LeasesHold(db) && Holds(db, w) && w.pc.AcceptingResult? && input.failure.None?
    ensures var (after, w') := Step(db, w, input, policy);
      && w.job < |after.jobs| && after.jobs[w.job].status == CompletedEligible && after.jobs[w.job].phase == Extraction
      && after.jobs[w.job].content == Some(w.pc.content) && Resulted(after, w, w.pc.content)
      && w'.pc == Done(Reported(CompletedEligible))
  {
    hide RetiredResults;
    assert LeaseRow(db.jobs[w.job], w.job, db.attempts);
  }

  lemma ExtractingMovesOn(db: Db, w: Worker, input: Input, policy: PipelinePolicy)
    requires w.attempt.Some? && w.pc.Extracting? && input.failure.None?
    ensures Step(db, w, input, policy) == (db, w.(pc := AcceptingResult(w.pc.content)))
  {
  }

  /** An extraction that validates completes its job, with a current result of this attempt on
      the content that was read. */
  lemma ExtractedIsRecorded(s: Sys, i: nat, first: Input, events: seq<Event>, second: Input, policy: PipelinePolicy)
    requires Reachable(s, policy) && i < |s.workers| && Holds(s.db, s.workers[i]) && s.workers[i].pc.Extracting?
    requires first.failure.None? && second.failure.None? && NotTaken(s, i, first, events, policy)
    ensures var w, after := s.workers[i], Then(s, i, first, events, second, policy);
      && w.job < |after.db.jobs| && after.db.jobs[w.job].status == CompletedEligible
      && after.db.jobs[w.job].content == Some(w.pc.content) && Resulted(after.db, w, w.pc.content)
      && CurrentlyJudged(after.db, w.job, Eligible)
      && i < |after.workers| && after.workers[i].pc == Done(Reported(CompletedEligible))
  {
    hide Next, Step, Inv, Sound, CurrentlyJudged, Meanwhile, Then;
    var mid, after := Meanwhile(s, i, first, events, policy), Then(s, i, first, events, second, policy);
    MeanwhileKeeps(s, i, first, events, policy);
    ThenIsStep(s, i, first, events, second, policy);
    ExtractingMovesOn(s.db, s.workers[i], first, policy);
    InvParts(mid, i, policy);
    ResultIsWritten(mid.db, mid.workers[i], second, policy);
    ThenIsReachable(s, i, first, events, second, policy);
    VerdictsAreCurrent(after, s.workers[i].job, policy);
  }

  // ---- failures ----

  /** What a job comes to that failed with `failure` on its `count`-th try at `now`. */
  predicate IsSettled(job: Job, failure: Failure, count: nat, now: nat, policy: PipelinePolicy) {
    var again := !failure.MissingCheckpointError? && !IsHopeless(failure)
      && count < policy.retryLimit && (failure.OtherError? ==> count < 2);
    && (job.status == Retry <==> again)
    && (job.status == Unavailable <==> IsHopeless(failure))
    && (job.status !in {Retry, Unavailable} ==> job.status == Failed)
    && job.due == (if again then Some(now + policy.retryBackoff * count) else None)
    && job.lease.None?
  }

  /** The rest of the row is as it was. */
  predicate SamePlace(was: Job, job: Job) {
    job.phase == was.phase && job.content == was.content && job.attemptCount == was.attemptCount
    && job.company == was.company && job.key == was.key && job.reprocess == was.reprocess
    && job.mergedInto == was.mergedInto
  }

  lemma FailingMovesOn(db: Db, w: Worker, input: Input, policy: PipelinePolicy)
    requires Holds(db, w) && w.pc.Failing? && input.failure.None?
    ensures var (after, w') := Step(db, w, input, policy);
      var count := db.jobs[w.job].attemptCount;
      && after == db && w'.pc.Releasing? && w' == w.(pc := w'.pc)
      && IsSettled(db.jobs[w.job].(status := w'.pc.status, due := w'.pc.due, lease := None), w.pc.failure, count,
                   input.now, policy)
  {
    FailureLeadsTo(w.pc.failure, db.jobs[w.job].attemptCount, policy, input.now);
  }

  lemma FailureIsWritten(db: Db, w: Worker, input: Input, policy: PipelinePolicy)
    requires WorkerOk(db, w, policy) && LeasesHold(db) && Holds(db, w) && w.pc.Releasing? && input.failure.None?
    ensures var (after, w') := Step(db, w, input, policy);
      && after.jobs == db.jobs[w.job := db.jobs[w.job].(status := w.pc.status, due := w.pc.due, lease := None)]
      && w.attempt.value < |after.attempts| && after.attempts[w.attempt.value].finish.Some?
      && after.attempts[w.attempt.value].finish.value.outcome == Ended(w.pc.status)
      && w'.pc == Done(Reported(w.pc.status))
  {
    assert LeaseRow(db.jobs[w.job], w.job, db.attempts);
  }

  /** A failing holder's job is settled by the policy, on the job's own count: it is retried,
      at the phase where it failed, exactly while the failure is worth it and the budget lasts,
      it becomes unavailable exactly when the posting is gone for good, and it fails otherwise. */
  lemma FailureIsSettled(s: Sys, i: nat, first: Input, events: seq<Event>, second: Input, policy: PipelinePolicy)
    requires Reachable(s, policy) && i < |s.workers| && Holds(s.db, s.workers[i]) && s.workers[i].pc.Failing?
    requires first.failure.None? && second.failure.None? && NotTaken(s, i, first, events, policy)
    ensures var w, after := s.workers[i], Then(s, i, first, events, second, policy);
      && w.job < |after.db.jobs|
      && IsSettled(after.db.jobs[w.job], w.pc.failure, s.db.jobs[w.job].attemptCount, first.now, policy)
      && SamePlace(s.db.jobs[w.job], after.db.jobs[w.job])
      && i < |after.workers| && after.workers[i].pc == Done(Reported(after.db.jobs[w.job].status))
  {
    hide Next, Step, Inv, Sound, Meanwhile, Then, IsHopeless;
    var mid := Meanwhile(s, i, first, events, policy);
    MeanwhileKeeps(s, i, first, events, policy);
    ThenIsStep(s, i, first, events, second, policy);
    FailingMovesOn(s.db, s.workers[i], first, policy);
    InvParts(mid, i, policy);
    FailureIsWritten(mid.db, mid.workers[i], second, policy);
  }

  /** Where an exception is caught by `process_job`. */
  predicate InTry(pc: Pc) {
    Working(pc) && !pc.ReadClaimed? && !pc.Skipping?
    && !(pc.Failing? && pc.inHandler) && !(pc.Releasing? && pc.inHandler)
  }

  /** An exception inside the work leads to settling that very failure, and has itself written
      nothing. */
  lemma ExceptionIsNoted(s: Sys, i: nat, input: Input, policy: PipelinePolicy)
    requires Reachable(s, policy) && i < |s.workers| && Holds(s.db, s.workers[i])
    requires InTry(s.workers[i].pc) && input.failure.Some?
    ensures var after := Next(s, Stepped(i, input), policy);
      && after.db == s.db && Holds(after.db, after.workers[i])
      && after.workers[i].pc
         == Failing(input.failure.value, !(s.workers[i].pc.Acquire? && input.failure.value.AcquisitionFailure?))
  {
    hide Next;
    NextIsStep(s, i, input, policy);
  }
}
