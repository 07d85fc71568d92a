/** What each repository transaction does to the database, as a function of the rows it
    finds.  `Store` runs the statements; the invariants are proved about these functions. */
module Transactions {
  import opened Models

  datatype Error =
    | CheckpointError
    | NotOwned
    | MultipleRows
    | MergeCycle
    | MissingCanonical
    | UnknownJobs
    | ActiveJobs
    | MergedJobs
    | NoContentCheckpoint
    | NoDecisionCheckpoint
    | InvalidDueTime

  /** A transaction either commits rows and a value, or raises and changes nothing. */
  datatype Tx<+T> = Commit(db: Db, value: T) | Raise(error: Error)

  function After<T>(db: Db, tx: Tx<T>): Db {
    if tx.Commit? then tx.db else db
  }

  // ---- reads ----

  predicate LeasedTo(db: Db, j: nat, a: nat) {
    j < |db.jobs| && db.jobs[j].status == InProgress && db.jobs[j].lease == Some(a)
  }

  predicate CurrentFor(decisions: seq<Decision>, j: nat, d: nat) {
    d < |decisions| && decisions[d].current && decisions[d].job == j
  }

  /** `decisions_repo.current`. */
  function CurrentDecision(db: Db, j: nat): One {
    ScalarOneOrNone(Select(|db.decisions|, (d: nat) => CurrentFor(db.decisions, j, d)))
  }

  predicate ResultFor(results: seq<Result>, j: nat, r: nat) {
    r < |results| && results[r].current && results[r].job == j
  }

  /** `results_repo.current`. */
  function CurrentResult(db: Db, j: nat): One {
    ScalarOneOrNone(Select(|db.results|, (r: nat) => ResultFor(db.results, j, r)))
  }

  /** `contents_repo.current`: the row the job points at, if it is the job's own. */
  function CurrentContent(db: Db, j: nat): Option<nat> {
    if j < |db.jobs| && db.jobs[j].content.Some? then
      var c := db.jobs[j].content.value;
      if c < |db.contents| && db.contents[c].job == j then Some(c) else None
    else None
  }

  ghost predicate Owns(db: Db, j: nat, url: string) {
    exists s :: s in db.sources && db.sources[s] == Source(j, url)
  }

  ghost predicate HasSource(db: Db, j: nat) {
    exists s :: s in db.sources && db.sources[s].job == j
  }

  // ---- claiming and ending an attempt ----

  predicate Claimable(job: Job, stage: Stage, now: nat, reprocess: bool) {
    var dueRetry := job.status == Retry && StageOf(job.phase) == stage && job.due.Some? && job.due.value <= now;
    if reprocess then dueRetry && job.reprocess
    else
      !job.reprocess
      && (job.status == (if stage.EligibilityStage? then New else ReadyForExtraction) || dueRetry)
  }

  function Claimed(job: Job, a: nat): Job {
    job.(status := InProgress, attemptCount := job.attemptCount + 1, due := None, lease := Some(a), reprocess := false)
  }

  function ClaimAndStart(db: Db, j: nat, stage: Stage, trigger: Trigger, now: nat): Tx<Option<nat>> {
    if j < |db.jobs| && Claimable(db.jobs[j], stage, now, trigger.Reprocess?) then
      var a := |db.attempts|;
      Commit(db.(jobs := db.jobs[j := Claimed(db.jobs[j], a)],
                 attempts := db.attempts + [Attempt(j, stage, trigger, now, None)]),
             Some(a))
    else Commit(db, None)
  }

  predicate Unfinished(db: Db, a: nat) {
    a < |db.attempts| && db.attempts[a].finish.None?
  }

  function Finished(db: Db, a: nat, finish: Finish): Db
    requires a < |db.attempts|
  {
    db.(attempts := db.attempts[a := db.attempts[a].(finish := Some(finish))])
  }

  /** `finish_owned_attempt`: runs inside the caller's transaction and raises otherwise. */
  function FinishOwned<T>(db: Db, j: nat, a: nat, finish: Finish, value: T): Tx<T> {
    if Unfinished(db, a) && db.attempts[a].job == j then Commit(Finished(db, a, finish), value)
    else Raise(CheckpointError)
  }

  /** `attempts_repo.finish`, as `_skipped` calls it: no ownership is asked for. */
  function FinishUnowned(db: Db, a: nat, finish: Finish): Tx<bool> {
    if Unfinished(db, a) then Commit(Finished(db, a, finish), true) else Commit(db, false)
  }

  // ---- content ----

  predicate HasHash(contents: seq<Content>, j: nat, hash: string, c: nat) {
    c < |contents| && contents[c].job == j && contents[c].posting.hash == hash
  }

  function StoredContent(db: Db, j: nat, hash: string): One {
    ScalarOneOrNone(Select(|db.contents|, (c: nat) => HasHash(db.contents, j, hash, c)))
  }

  function StoreCheckpoint(db: Db, j: nat, a: nat, posting: Posting): Tx<Option<nat>> {
    match StoredContent(db, j, posting.hash)
    case TooMany => Raise(MultipleRows)
    case Row(c) => PointAtContent(db, j, a, c)
    case NoRow =>
      PointAtContent(db.(contents := db.contents + [Content(j, posting)]), j, a, |db.contents|)
  }

  function PointAtContent(db: Db, j: nat, a: nat, c: nat): Tx<Option<nat>> {
    if LeasedTo(db, j, a) then
      Commit(db.(jobs := db.jobs[j := db.jobs[j].(content := Some(c))]), Some(c))
    else Commit(db, None)
  }

  function AdvancePhase(db: Db, j: nat, a: nat, phase: Phase): Tx<bool> {
    if LeasedTo(db, j, a) then Commit(db.(jobs := db.jobs[j := db.jobs[j].(phase := phase)]), true)
    else Commit(db, false)
  }

  // ---- merging ----

  datatype Probe = ByRequisition(requisition: string) | ByFingerprint(fingerprint: string)

  predicate Matches(posting: Posting, probe: Probe) {
    match probe
    case ByRequisition(r) => posting.requisition == Some(r)
    case ByFingerprint(f) => posting.fingerprint == f
  }

  predicate LiveMatch(db: Db, j: nat, company: string, probe: Probe, i: nat) {
    i < |db.jobs| && i != j && db.jobs[i].company == company
    && db.jobs[i].status != Merged && db.jobs[i].mergedInto.None?
    && exists c :: 0 <= c < |db.contents| && db.contents[c].job == i && Matches(db.contents[c].posting, probe)
  }

  function OthersMatching(db: Db, j: nat, company: string, probe: Probe): seq<nat> {
    Select(|db.jobs|, (i: nat) => LiveMatch(db, j, company, probe, i))
  }

  function LatestTitle(db: Db, j: nat): Option<string> {
    var own := Select(|db.contents|, (c: nat) => c < |db.contents| && db.contents[c].job == j);
    if |own| == 0 then None
    else
      assert own[|own| - 1] in own;
      db.contents[own[|own| - 1]].posting.title
  }

  /** The one proven duplicate of `j`, if any. */
  function DuplicateOf(db: Db, j: nat, company: string, requisition: Option<string>, fingerprint: string): Option<nat> {
    var byRequisition := if requisition.Some? then OthersMatching(db, j, company, ByRequisition(requisition.value))
      else [];
    if |byRequisition| == 1 && LatestTitle(db, j).Some? && LatestTitle(db, j) == LatestTitle(db, byRequisition[0]) then
      Some(byRequisition[0])
    else
      var byFingerprint := OthersMatching(db, j, company, ByFingerprint(fingerprint));
      if |byFingerprint| == 1 then Some(byFingerprint[0]) else None
  }

  /** Delete the sources `into` already has, then hand over the rest. */
  function MovedSources(sources: map<nat, Source>, j: nat, into: nat): map<nat, Source> {
    map s | s in sources && !(sources[s].job == j &&
                              exists t :: t in sources && sources[t] == Source(into, sources[s].url))
      :: if sources[s].job == j then sources[s].(job := into) else sources[s]
  }

  predicate CanMerge(db: Db, j: nat, into: nat, allowInProgress: bool) {
    j < |db.jobs| && j > into && (allowInProgress || db.jobs[j].status != InProgress)
  }

  function MergeInto(db: Db, j: nat, into: nat): Db
    requires j < |db.jobs|
  {
    db.(jobs := db.jobs[j := db.jobs[j].(status := Merged, mergedInto := Some(into), due := None, lease := None)],
        sources := MovedSources(db.sources, j, into))
  }

  function MergeDuplicate(db: Db, j: nat, a: nat, company: string, requisition: Option<string>, fingerprint: string,
                          now: nat)
    : Tx<Option<nat>>
  {
    if !LeasedTo(db, j, a) then Commit(db, None)
    else
      match DuplicateOf(db, j, company, requisition, fingerprint)
      case None => Commit(db, Some(j))
      case Some(m) =>
        if m < j then
          FinishOwned(MergeInto(db, j, m), j, a, Finish(Ended(Merged), Some(Fetch), now), Some(m))
        else if CanMerge(db, m, j, false) then Commit(MergeInto(db, m, j), Some(j))
        else Commit(db, Some(j))
  }

  // ---- decisions and results ----

  function RetiredDecisions(decisions: seq<Decision>, j: nat): (retired: seq<Decision>)
    ensures |retired| == |decisions|
    ensures forall d :: 0 <= d < |decisions| ==>
      retired[d] == decisions[d].(current := decisions[d].current && decisions[d].job != j)
  {
    seq(|decisions|, d requires 0 <= d < |decisions| =>
      decisions[d].(current := decisions[d].current && decisions[d].job != j))
  }

  function RetiredResults(results: seq<Result>, j: nat): (retired: seq<Result>)
    ensures |retired| == |results|
    ensures forall r :: 0 <= r < |results| ==>
      retired[r] == results[r].(current := results[r].current && results[r].job != j)
  {
    seq(|results|, r requires 0 <= r < |results| =>
      results[r].(current := results[r].current && results[r].job != j))
  }

  predicate LeasedOnContent(db: Db, j: nat, a: nat, c: nat) {
    LeasedTo(db, j, a) && db.jobs[j].content == Some(c)
  }

  predicate EligibleOn(decisions: seq<Decision>, j: nat, c: nat, d: nat) {
    CurrentFor(decisions, j, d) && decisions[d].content == c && decisions[d].verdict == Eligible
  }

  function EligibleCheckpoint(db: Db, j: nat, c: nat): One {
    ScalarOneOrNone(Select(|db.decisions|, (d: nat) => EligibleOn(db.decisions, j, c, d)))
  }

  function Released(job: Job, status: Status, phase: Phase, due: Option<nat>): Job {
    job.(status := status, phase := phase, due := due, lease := None)
  }

  function WithDecision(db: Db, j: nat, a: nat, c: nat, verdict: Verdict): Db {
    db.(decisions := RetiredDecisions(db.decisions, j) + [Decision(j, a, c, verdict, true)])
  }

  function WithResult(db: Db, j: nat, a: nat, c: nat): Db {
    db.(results := RetiredResults(db.results, j) + [Result(j, a, c, true)])
  }

  function HandOff(db: Db, j: nat, a: nat, c: nat, decision: Option<Verdict>, now: nat): Tx<Option<nat>> {
    if !LeasedOnContent(db, j, a, c) then Commit(db, None)
    else
      var job := Released(db.jobs[j], ReadyForExtraction, Extraction, None).(attemptCount := 0);
      var released := db.(jobs := db.jobs[j := job]);
      var finish := Finish(Ended(ReadyForExtraction), Some(Eligibility), now);
      match decision
      case None =>
        (match EligibleCheckpoint(released, j, c)
         case NoRow => Raise(CheckpointError)
         case TooMany => Raise(MultipleRows)
         case Row(d) => FinishOwned(released, j, a, finish, Some(d)))
      case Some(verdict) =>
        if verdict != Eligible then Raise(CheckpointError)
        else FinishOwned(WithDecision(released, j, a, c, verdict), j, a, finish, Some(|db.decisions|))
  }

  function AcceptDecision(db: Db, j: nat, a: nat, c: nat, verdict: Verdict, status: Status, now: nat): Tx<Option<nat>> {
    if !LeasedOnContent(db, j, a, c) then Commit(db, None)
    else
      var released := db.(jobs := db.jobs[j := Released(db.jobs[j], status, Eligibility, None)]);
      FinishOwned(WithDecision(released, j, a, c, verdict), j, a,
                  Finish(Ended(status), Some(Eligibility), now), Some(|db.decisions|))
  }

  function AcceptResult(db: Db, j: nat, a: nat, c: nat, now: nat): Tx<Option<nat>> {
    if !LeasedOnContent(db, j, a, c) then Commit(db, None)
    else
      var released := db.(jobs := db.jobs[j := Released(db.jobs[j], CompletedEligible, Extraction, None)]);
      FinishOwned(WithResult(released, j, a, c), j, a,
                  Finish(Ended(CompletedEligible), Some(Extraction), now), Some(|db.results|))
  }

  // ---- releasing, reaping, reprocessing ----

  /** `jobs_repo.release` with an attempt id. */
  function Release(db: Db, j: nat, a: nat, status: Status, phase: Phase, due: Option<nat>, now: nat): Tx<bool> {
    if (status == Retry) != due.Some? then Raise(InvalidDueTime)
    else if j < |db.jobs| && db.jobs[j].lease == Some(a) then
      FinishOwned(db.(jobs := db.jobs[j := Released(db.jobs[j], status, phase, due)]), j, a,
                  Finish(Ended(status), Some(phase), now), true)
    else Commit(db, false)
  }

  predicate Stale(db: Db, stage: Stage, cutoff: nat, a: nat) {
    Unfinished(db, a) && db.attempts[a].startedAt < cutoff
    && LeasedTo(db, db.attempts[a].job, a)
    && StageOf(db.jobs[db.attempts[a].job].phase) == stage
  }

  function Interrupt(attempt: Attempt, now: nat): Attempt {
    attempt.(finish := Some(Finish(Interrupted, None, now)))
  }

  function Recovered(job: Job, now: nat): Job {
    job.(status := Retry, due := Some(now), lease := None, reprocess := false)
  }

  predicate LosesLease(db: Db, stage: Stage, cutoff: nat, j: nat) {
    j < |db.jobs| && db.jobs[j].lease.Some?
    && Stale(db, stage, cutoff, db.jobs[j].lease.value) && db.attempts[db.jobs[j].lease.value].job == j
  }

  function ReapStale(db: Db, stage: Stage, cutoff: nat, now: nat): Tx<nat> {
    Commit(
      db.(attempts := seq(|db.attempts|, a requires 0 <= a < |db.attempts| =>
            if Stale(db, stage, cutoff, a) then Interrupt(db.attempts[a], now) else db.attempts[a]),
          jobs := seq(|db.jobs|, j requires 0 <= j < |db.jobs| =>
            if LosesLease(db, stage, cutoff, j) then Recovered(db.jobs[j], now) else db.jobs[j])),
      |Select(|db.attempts|, (a: nat) => Stale(db, stage, cutoff, a))|)
  }

  predicate EligibleFor(decisions: seq<Decision>, j: nat, d: nat) {
    CurrentFor(decisions, j, d) && decisions[d].verdict == Eligible
  }

  function EligibleDecision(db: Db, j: nat): One {
    ScalarOneOrNone(Select(|db.decisions|, (d: nat) => EligibleFor(db.decisions, j, d)))
  }

  /** The content a reprocessed job starts from, or why it has none. */
  function CheckpointFor(db: Db, j: nat, from: Phase): Tx<Option<nat>>
    requires j < |db.jobs|
  {
    match from
    case Fetch => Commit(db, None)
    case Eligibility =>
      if CurrentContent(db, j).Some? then Commit(db, CurrentContent(db, j)) else Raise(NoContentCheckpoint)
    case Extraction =>
      match EligibleDecision(db, j)
      case NoRow => Raise(NoDecisionCheckpoint)
      case TooMany => Raise(MultipleRows)
      case Row(d) =>
        if d < |db.decisions| && db.decisions[d].content < |db.contents|
          && db.contents[db.decisions[d].content].job == j
        then Commit(db, Some(db.decisions[d].content))
        else Raise(NoContentCheckpoint)
  }

  function Prepared(job: Job, from: Phase, content: Option<nat>, now: nat): Job {
    job.(status := Retry, phase := from, attemptCount := 0, due := Some(now), lease := None,
         content := content, reprocess := true, mergedInto := None)
  }

  /** The selected rows in id order, each once. */
  function Selected(db: Db, ids: seq<nat>): seq<nat> {
    Select(|db.jobs|, (i: nat) => i in ids)
  }

  /** The first of these jobs that lacks its checkpoint tells why. */
  function CheckpointFault(db: Db, selected: seq<nat>, from: Phase): Option<Error>
    requires forall k :: 0 <= k < |selected| ==> selected[k] < |db.jobs|
  {
    if |selected| == 0 then None
    else
      var n := |selected| - 1;
      var earlier := CheckpointFault(db, selected[..n], from);
      if earlier.Some? then earlier
      else if CheckpointFor(db, selected[n], from).Raise? then Some(CheckpointFor(db, selected[n], from).error)
      else None
  }

  predicate HasStatus(jobs: seq<Job>, ids: seq<nat>, status: Status) {
    exists i :: i in ids && i < |jobs| && jobs[i].status == status
  }

  function PrepareFault(db: Db, ids: seq<nat>, from: Phase): Option<Error> {
    if !(forall i :: i in ids ==> i < |db.jobs|) then Some(UnknownJobs)
    else if HasStatus(db.jobs, ids, InProgress) then Some(ActiveJobs)
    else if HasStatus(db.jobs, ids, Merged) then Some(MergedJobs)
    else CheckpointFault(db, Selected(db, ids), from)
  }

  function ClearedDecisions(decisions: seq<Decision>, ids: seq<nat>): (cleared: seq<Decision>)
    ensures |cleared| == |decisions|
    ensures forall d :: 0 <= d < |decisions| ==>
      cleared[d] == decisions[d].(current := decisions[d].current && decisions[d].job !in ids)
  {
    seq(|decisions|, d requires 0 <= d < |decisions| =>
      decisions[d].(current := decisions[d].current && decisions[d].job !in ids))
  }

  function ClearedResults(results: seq<Result>, ids: seq<nat>): (cleared: seq<Result>)
    ensures |cleared| == |results|
    ensures forall r :: 0 <= r < |results| ==>
      cleared[r] == results[r].(current := results[r].current && results[r].job !in ids)
  {
    seq(|results|, r requires 0 <= r < |results| =>
      results[r].(current := results[r].current && results[r].job !in ids))
  }

  function RestartedJob(db: Db, ids: seq<nat>, from: Phase, now: nat, j: nat): Job
    requires j < |db.jobs|
  {
    if j in ids && CheckpointFor(db, j, from).Commit?
    then Prepared(db.jobs[j], from, CheckpointFor(db, j, from).value, now)
    else db.jobs[j]
  }

  function PreparedDb(db: Db, ids: seq<nat>, from: Phase, now: nat): Db {
    db.(decisions := if from.Extraction? then db.decisions else ClearedDecisions(db.decisions, ids),
        results := ClearedResults(db.results, ids),
        jobs := seq(|db.jobs|, j requires 0 <= j < |db.jobs| => RestartedJob(db, ids, from, now, j)))
  }

  function PrepareReprocess(db: Db, ids: seq<nat>, from: Phase, now: nat): Tx<seq<nat>> {
    if PrepareFault(db, ids, from).Some? then Raise(PrepareFault(db, ids, from).value)
    else Commit(PreparedDb(db, ids, from, now), Selected(db, ids))
  }

  // ---- observing ----

  function FindKey(jobs: seq<Job>, company: string, key: string): (found: Option<nat>)
    ensures found.Some? ==>
      found.value < |jobs| && jobs[found.value].company == company && jobs[found.value].key == key
    ensures found.None? ==> forall j :: 0 <= j < |jobs| ==> !(jobs[j].company == company && jobs[j].key == key)
  {
    if |jobs| == 0 then None
    else if jobs[|jobs| - 1].company == company && jobs[|jobs| - 1].key == key then Some(|jobs| - 1)
    else FindKey(jobs[..|jobs| - 1], company, key)
  }

  /** The canonical job of `j`: the end of its chain of merges. */
  function Root(jobs: seq<Job>, j: nat): (r: nat)
    ensures r <= j
  {
    if j < |jobs| && jobs[j].mergedInto.Some? && jobs[j].mergedInto.value < j
    then Root(jobs, jobs[j].mergedInto.value)
    else j
  }

  function NewJob(company: string, key: string): Job {
    Job(company, key, New, Fetch, 0, None, None, None, false, None)
  }

  function WithKeys(jobs: seq<Job>, company: string, keys: seq<string>): seq<Job> {
    if |keys| == 0 then jobs
    else
      var before := WithKeys(jobs, company, keys[..|keys| - 1]);
      if FindKey(before, company, keys[|keys| - 1]).Some? then before
      else before + [NewJob(company, keys[|keys| - 1])]
  }

  datatype Observation = Observation(key: string, url: string)

  function Target(jobs: seq<Job>, company: string, key: string): nat {
    match FindKey(jobs, company, key)
    case Some(j) => Root(jobs, j)
    case None => 0
  }

  function WithSource(db: Db, j: nat, url: string): Db {
    if exists s :: s in db.sources && db.sources[s] == Source(j, url) then db
    else db.(sources := db.sources[db.nextSource := Source(j, url)], nextSource := db.nextSource + 1)
  }

  function WithSources(db: Db, company: string, items: seq<Observation>): Db {
    if |items| == 0 then db
    else
      var before := WithSources(db, company, items[..|items| - 1]);
      var item := items[|items| - 1];
      WithSource(before, Target(before.jobs, company, item.key), item.url)
  }

  function KeysOf(items: seq<Observation>): (keys: seq<string>)
    ensures |keys| == |items| && forall i :: 0 <= i < |items| ==> keys[i] == items[i].key
  {
    seq(|items|, i requires 0 <= i < |items| => items[i].key)
  }

  /** `observe`, on a table whose merge chains all end. */
  function Observe(db: Db, company: string, items: seq<Observation>): Db {
    WithSources(db.(jobs := WithKeys(db.jobs, company, KeysOf(items))), company, items)
  }
}
