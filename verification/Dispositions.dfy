/** What a run says about the snapshot: every job of it is counted once, and what the run
    does not list is accounted for. */
module Dispositions {
  import opened Models
  import opened Policy
  import opened Transactions
  import opened Invariants
  import opened Planner
  import opened System

  datatype Disposition = InStatus(status: Status) | RetryIn(stage: Stage, due: bool)

  function DispositionOf(job: Job, now: nat): Disposition {
    if job.status == Retry then RetryIn(StageOf(job.phase), job.due.Some? && job.due.value <= now)
    else InStatus(job.status)
  }

  /** `Counter[d]`. */
  function Get(counts: map<Disposition, nat>, d: Disposition): nat {
    if d in counts then counts[d] else 0
  }

  /** The snapshot's jobs that the table shows in disposition `d`. */
  function InDisposition(jobs: seq<Job>, snapshot: seq<Key>, now: nat, d: Disposition): seq<nat> {
    Where(jobs, (job: Job) => Listed(snapshot, job) && DispositionOf(job, now) == d)
  }

  /** A job is counted under its status, and one that waits for another try under the stage of its
      phase and whether its time has come. */
  lemma DispositionsAreTold(jobs: seq<Job>, snapshot: seq<Key>, now: nat, d: Disposition)
    ensures InDisposition(jobs, snapshot, now, d) ==
      match d
      case InStatus(status) =>
        Where(jobs, (job: Job) =>
          Key(job.company, job.key) in snapshot && job.status == status && status != Retry)
      case RetryIn(stage, due) =>
        Where(jobs, (job: Job) =>
          && Key(job.company, job.key) in snapshot && job.status == Retry
          && (stage == ExtractionStage <==> job.phase == Extraction)
          && (due <==> job.due.Some? && job.due.value <= now))
  {
    hide Where;
    match d
    case InStatus(status) =>
      SameWhere(jobs, (job: Job) => Listed(snapshot, job) && DispositionOf(job, now) == d, (job: Job) =>
                  Key(job.company, job.key) in snapshot && job.status == status && status != Retry);
    case RetryIn(stage, due) =>
      SameWhere(jobs, (job: Job) => Listed(snapshot, job) && DispositionOf(job, now) == d, (job: Job) =>
                  && Key(job.company, job.key) in snapshot && job.status == Retry
                  && (stage == ExtractionStage <==> job.phase == Extraction)
                  && (due <==> job.due.Some? && job.due.value <= now));
  }

  // ---- counting rows ----

  function Tallied(jobs: seq<Job>, ids: seq<nat>, now: nat, d: Disposition): nat
    requires forall k :: 0 <= k < |ids| ==> ids[k] < |jobs|
  {
    if |ids| == 0 then 0
    else
      var n := |ids| - 1;
      Tallied(jobs, ids[..n], now, d) + if DispositionOf(jobs[ids[n]], now) == d then 1 else 0
  }

  lemma {:induction false} TalliedSelect(jobs: seq<Job>, n: nat, p: nat -> bool, q: nat -> bool, now: nat,
                                         d: Disposition)
    requires n <= |jobs| && forall i: nat :: i < n ==> (q(i) <==> p(i) && DispositionOf(jobs[i], now) == d)
    ensures Tallied(jobs, Select(n, p), now, d) == |Select(n, q)|
  {
    hide DispositionOf, Select, Tallied;
    SelectLast(n, p);
    SelectLast(n, q);
    if n == 0 {
      NothingTallied(jobs, now, d);
    } else {
      TalliedSelect(jobs, n - 1, p, q, now, d);
      TallySnoc(jobs, Select(n - 1, p), n - 1, now, d);
    }
  }

  lemma SelectLast(n: nat, p: nat -> bool)
    ensures Select(n, p) == if n == 0 then [] else if p(n - 1) then Select(n - 1, p) + [n - 1] else Select(n - 1, p)
  {
  }

  lemma NothingTallied(jobs: seq<Job>, now: nat, d: Disposition)
    ensures Tallied(jobs, [], now, d) == 0
  {
  }

  lemma TallySnoc(jobs: seq<Job>, ids: seq<nat>, i: nat, now: nat, d: Disposition)
    requires i < |jobs| && forall k :: 0 <= k < |ids| ==> ids[k] < |jobs|
    ensures Tallied(jobs, ids + [i], now, d)
         == Tallied(jobs, ids, now, d) + if DispositionOf(jobs[i], now) == d then 1 else 0
  {
    assert (ids + [i])[..|ids|] == ids;
  }

  function ChunkRows(jobs: seq<Job>, chunk: Chunk): (ids: seq<nat>)
    ensures forall k :: 0 <= k < |ids| ==> ids[k] < |jobs|
  {
    Select(|jobs|, (j: nat) => j < |jobs| && InChunk(chunk, jobs[j].company, jobs[j].key))
  }

  function CountSoFar(jobs: seq<Job>, chunks: seq<Chunk>, now: nat, d: Disposition): nat {
    |Where(jobs, (job: Job) => Held(chunks, job.company, job.key) && DispositionOf(job, now) == d)|
  }

  lemma CountSnoc(jobs: seq<Job>, chunks: seq<Chunk>, chunk: Chunk, now: nat, d: Disposition)
    requires forall c, k :: InChunk(chunk, c, k) ==> !Held(chunks, c, k)
    ensures CountSoFar(jobs, chunks + [chunk], now, d)
         == CountSoFar(jobs, chunks, now, d) + Tallied(jobs, ChunkRows(jobs, chunk), now, d)
  {
    hide Held, Tallied;
    var p := (job: Job) => Held(chunks, job.company, job.key) && DispositionOf(job, now) == d;
    var q := (job: Job) => InChunk(chunk, job.company, job.key) && DispositionOf(job, now) == d;
    var r := (job: Job) => Held(chunks + [chunk], job.company, job.key) && DispositionOf(job, now) == d;
    forall j | 0 <= j < |jobs| ensures (r(jobs[j]) <==> p(jobs[j]) || q(jobs[j])) && !(p(jobs[j]) && q(jobs[j])) {
      HeldSnoc(chunks, chunk, jobs[j].company, jobs[j].key);
    }
    WhereSplits(jobs, p, q, r);
    TalliedSelect(jobs, |jobs|, (j: nat) => j < |jobs| && InChunk(chunk, jobs[j].company, jobs[j].key),
                  (j: nat) => j < |jobs| && q(jobs[j]), now, d);
  }

  lemma AllCounted(jobs: seq<Job>, chunks: seq<Chunk>, snapshot: seq<Key>, now: nat, d: Disposition)
    requires forall c, k :: Held(chunks, c, k) <==> Key(c, k) in snapshot
    ensures CountSoFar(jobs, chunks, now, d) == |InDisposition(jobs, snapshot, now, d)|
  {
    hide Where, Held;
    SameWhere(jobs, (job: Job) => Held(chunks, job.company, job.key) && DispositionOf(job, now) == d,
              (job: Job) => Listed(snapshot, job) && DispositionOf(job, now) == d);
  }

  lemma NoneCounted(jobs: seq<Job>, now: nat, d: Disposition)
    ensures CountSoFar(jobs, [], now, d) == 0
  {
    NoneWhere(jobs, (job: Job) => Held([], job.company, job.key) && DispositionOf(job, now) == d);
  }

  /** Add one chunk's rows to the counter. */
  method CountRows(jobs: seq<Job>, chunk: Chunk, now: nat, before: map<Disposition, nat>)
    returns (counts: map<Disposition, nat>)
    ensures forall d :: Get(counts, d) == Get(before, d) + Tallied(jobs, ChunkRows(jobs, chunk), now, d)
  {
    var rows := ChunkRows(jobs, chunk);
    counts := before;
    for k := 0 to |rows|
      invariant forall d :: Get(counts, d) == Get(before, d) + Tallied(jobs, rows[..k], now, d)
    {
      var d := DispositionOf(jobs[rows[k]], now);
      assert rows[..k + 1][..k] == rows[..k];
      counts := counts[d := Get(counts, d) + 1];
    }
    assert rows[..|rows|] == rows;
  }

  /** `stage_dispositions`: chunk by chunk, every job of the snapshot is counted exactly once. */
  method StageDispositions(jobs: seq<Job>, snapshot: seq<Key>, now: nat) returns (counts: map<Disposition, nat>)
    ensures forall d :: Get(counts, d) == |InDisposition(jobs, snapshot, now, d)|
  {
    hide Held, Apart, InDisposition, CountSoFar, ChunkRows, Tallied;
    var chunks := SnapshotChunks(snapshot, CHUNK_SIZE);
    counts := map[];
    forall d ensures CountSoFar(jobs, [], now, d) == 0 {
      NoneCounted(jobs, now, d);
    }
    for n := 0 to |chunks|
      invariant forall d :: Get(counts, d) == CountSoFar(jobs, chunks[..n], now, d)
    {
      ChunkIsApart(chunks, n);
      assert chunks[..n + 1] == chunks[..n] + [chunks[n]];
      forall d ensures CountSoFar(jobs, chunks[..n + 1], now, d)
                    == CountSoFar(jobs, chunks[..n], now, d) + Tallied(jobs, ChunkRows(jobs, chunks[n]), now, d)
      {
        CountSnoc(jobs, chunks[..n], chunks[n], now, d);
      }
      counts := CountRows(jobs, chunks[n], now, counts);
    }
    assert chunks[..|chunks|] == chunks;
    forall d ensures CountSoFar(jobs, chunks, now, d) == |InDisposition(jobs, snapshot, now, d)| {
      AllCounted(jobs, chunks, snapshot, now, d);
    }
  }

  // ---- what a run reports ----

  function Waiting(stage: Stage): Disposition {
    InStatus(if stage.EligibilityStage? then New else ReadyForExtraction)
  }

  function Other(stage: Stage): Stage {
    if stage.EligibilityStage? then ExtractionStage else EligibilityStage
  }

  /** NON_WORK_DISPOSITIONS. */
  function NonWork(stage: Stage): seq<Disposition> {
    [InStatus(CompletedEligible), InStatus(CompletedIneligible), InStatus(UnknownVerdict), InStatus(Unavailable),
     InStatus(Failed), InStatus(Merged), Waiting(Other(stage)), RetryIn(Other(stage), true),
       RetryIn(Other(stage), false)]
  }

  function Sum(counts: map<Disposition, nat>, ds: seq<Disposition>): nat {
    if |ds| == 0 then 0 else Sum(counts, ds[..|ds| - 1]) + Get(counts, ds[|ds| - 1])
  }

  function SkippedCompleted(counts: map<Disposition, nat>, stage: Stage): nat {
    Sum(counts, NonWork(stage))
  }

  function SkippedNotDue(counts: map<Disposition, nat>, stage: Stage): nat {
    Get(counts, RetryIn(stage, false))
  }

  lemma SumSnoc(counts: map<Disposition, nat>, ds: seq<Disposition>, d: Disposition)
    ensures Sum(counts, ds + [d]) == Sum(counts, ds) + Get(counts, d)
  {
    assert (ds + [d])[..|ds|] == ds;
  }

  lemma {:induction false} SumCounts(jobs: seq<Job>, snapshot: seq<Key>, now: nat, counts: map<Disposition, nat>,
                                     ds: seq<Disposition>)
    requires forall d :: Get(counts, d) == |InDisposition(jobs, snapshot, now, d)|
    requires forall x, y :: 0 <= x < y < |ds| ==> ds[x] != ds[y]
    ensures Sum(counts, ds) == |Where(jobs, (job: Job) => Listed(snapshot, job) && DispositionOf(job, now) in ds)|
  {
    hide Where, Listed, DispositionOf;
    var r := (job: Job) => Listed(snapshot, job) && DispositionOf(job, now) in ds;
    if |ds| == 0 {
      NoneWhere(jobs, r);
    } else {
      var most, last := ds[..|ds| - 1], ds[|ds| - 1];
      SumCounts(jobs, snapshot, now, counts, most);
      var p := (job: Job) => Listed(snapshot, job) && DispositionOf(job, now) in most;
      var q := (job: Job) => Listed(snapshot, job) && DispositionOf(job, now) == last;
      assert forall d :: d in ds <==> d in most || d == last;
      WhereSplits(jobs, p, q, r);
    }
  }

  /** The dispositions a run of this stage reports or works on. */
  function Accounted(stage: Stage): seq<Disposition> {
    NonWork(stage) + [RetryIn(stage, false), InStatus(InProgress), Waiting(stage), RetryIn(stage, true)]
  }

  lemma AccountedForAll(stage: Stage)
    ensures forall x, y :: 0 <= x < y < |Accounted(stage)| ==> Accounted(stage)[x] != Accounted(stage)[y]
    ensures forall job, now :: DispositionOf(job, now) in Accounted(stage)
  {
    var all := Accounted(stage);
    forall job, now ensures DispositionOf(job, now) in all {
      match job.status
      case CompletedEligible => assert all[0] == InStatus(job.status);
      case CompletedIneligible => assert all[1] == InStatus(job.status);
      case UnknownVerdict => assert all[2] == InStatus(job.status);
      case Unavailable => assert all[3] == InStatus(job.status);
      case Failed => assert all[4] == InStatus(job.status);
      case Merged => assert all[5] == InStatus(job.status);
      case InProgress => assert all[10] == InStatus(job.status);
      case New => assert all[if stage.EligibilityStage? then 11 else 6] == InStatus(job.status);
      case ReadyForExtraction => assert all[if stage.EligibilityStage? then 6 else 11] == InStatus(job.status);
      case Retry =>
        var d := DispositionOf(job, now);
        assert all[if d.stage == stage then (if d.due then 12 else 9) else if d.due then 7 else 8] == d;
    }
  }

  /** Whatever the stage, what it skips, waits for, leaves in progress and finds waiting or
      due adds up to the whole snapshot. */
  lemma NothingIsLost(jobs: seq<Job>, snapshot: seq<Key>, now: nat, counts: map<Disposition, nat>, stage: Stage)
    requires forall d :: Get(counts, d) == |InDisposition(jobs, snapshot, now, d)|
    ensures SkippedCompleted(counts, stage) + SkippedNotDue(counts, stage) + Get(counts, InStatus(InProgress))
            + Get(counts, Waiting(stage)) + Get(counts, RetryIn(stage, true))
         == |Where(jobs, (job: Job) => Listed(snapshot, job))|
  {
    hide Where, Listed, DispositionOf, InDisposition, Sum, NonWork;
    var all := Accounted(stage);
    AccountedForAll(stage);
    SumCounts(jobs, snapshot, now, counts, all);
    SameWhere(jobs, (job: Job) => Listed(snapshot, job) && DispositionOf(job, now) in all,
              (job: Job) => Listed(snapshot, job));
    var reported := NonWork(stage) + [RetryIn(stage, false)];
    var busy := reported + [InStatus(InProgress)];
    SumSnoc(counts, NonWork(stage), RetryIn(stage, false));
    SumSnoc(counts, reported, InStatus(InProgress));
    SumSnoc(counts, busy, Waiting(stage));
    SumSnoc(counts, busy + [Waiting(stage)], RetryIn(stage, true));
    assert all == busy + [Waiting(stage)] + [RetryIn(stage, true)];
  }

  /** The stage's scheduled work and its flagged work together are what waits for it and what
      is due: a due job is passed over by a scheduled run only when it is flagged for
      reprocessing, and then the reprocess run takes it. */
  lemma WorkIsWhatIsDue(s: Sys, snapshot: seq<Key>, now: nat, counts: map<Disposition, nat>, stage: Stage,
                        policy: PipelinePolicy)
    requires Reachable(s, policy)
    requires forall d :: Get(counts, d) == |InDisposition(s.db.jobs, snapshot, now, d)|
    ensures |Work(s.db.jobs, snapshot, now, stage, false)| + |Work(s.db.jobs, snapshot, now, stage, true)|
         == Get(counts, Waiting(stage)) + Get(counts, RetryIn(stage, true))
  {
    hide Sound, DistinctAttempts, Where, Listed;
    ReachableInv(s, policy);
    JobsAreRows(s.db);
    var jobs := s.db.jobs;
    var scheduled := (job: Job) => Listed(snapshot, job) && Claimable(job, stage, now, false);
    var flagged := (job: Job) => Listed(snapshot, job) && Claimable(job, stage, now, true);
    var waiting := (job: Job) => Listed(snapshot, job) && DispositionOf(job, now) == Waiting(stage);
    var due := (job: Job) => Listed(snapshot, job) && DispositionOf(job, now) == RetryIn(stage, true);
    var either := (job: Job) => scheduled(job) || flagged(job);
    forall j | 0 <= j < |jobs|
      ensures (either(jobs[j]) <==> waiting(jobs[j]) || due(jobs[j])) && !(waiting(jobs[j]) && due(jobs[j]))
      ensures !(scheduled(jobs[j]) && flagged(jobs[j]))
    {
      assert JobRow(jobs[j]);
    }
    WhereSplits(jobs, scheduled, flagged, either);
    WhereSplits(jobs, waiting, due, either);
    assert Where(jobs, scheduled) == Work(jobs, snapshot, now, stage, false);
    assert Where(jobs, flagged) == Work(jobs, snapshot, now, stage, true);
  }

  lemma JobsAreRows(db: Db)
    requires Sound(db)
    ensures forall j :: 0 <= j < |db.jobs| ==> JobRow(db.jobs[j])
  {
  }
}
