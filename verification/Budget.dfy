/** How often a job can be tried before it rests: the attempt rows themselves are counted,
    since the job was first seen or last prepared for reprocessing. */
module Budget {
  import opened Models
  import opened Policy
  import opened Transactions
  import opened Invariants
  import opened Sources
  import opened Workers
  import opened Leases

  predicate WasInterrupted(row: Attempt) {
    row.finish.Some? && row.finish.value.outcome == Interrupted
  }

  predicate Counts(row: Attempt, j: nat, stage: Stage, interruptedOnly: bool) {
    row.job == j && row.stage == stage && (interruptedOnly ==> WasInterrupted(row))
  }

  /** Attempt rows from id `lo` on that belong to this job and stage. */
  function Tally(attempts: seq<Attempt>, lo: nat, j: nat, stage: Stage, interruptedOnly: bool): nat {
    if |attempts| <= lo then 0
    else
      var n := |attempts| - 1;
      Tally(attempts[..n], lo, j, stage, interruptedOnly)
      + if Counts(attempts[n], j, stage, interruptedOnly) then 1 else 0
  }

  function Claims(attempts: seq<Attempt>, lo: nat, j: nat, stage: Stage): nat {
    Tally(attempts, lo, j, stage, false)
  }

  function Reaps(attempts: seq<Attempt>, lo: nat, j: nat, stage: Stage): nat {
    Tally(attempts, lo, j, stage, true)
  }

  function Counted(attempts: seq<Attempt>, lo: nat, j: nat, stage: Stage, k: bool): set<nat> {
    set a: nat | lo <= a < |attempts| && Counts(attempts[a], j, stage, k)
  }

  lemma CountedSnoc(attempts: seq<Attempt>, lo: nat, j: nat, stage: Stage, k: bool)
    requires lo < |attempts|
    ensures var n: nat, earlier := |attempts| - 1, Counted(attempts[..|attempts| - 1], lo, j, stage, k);
      n !in earlier
      && Counted(attempts, lo, j, stage, k) == earlier + if Counts(attempts[n], j, stage, k) then {n} else {}
  {
    hide Counts;
  }

  /** They are counted as a set: nothing twice, nothing left out. */
  lemma {:induction false} TallyCounts(attempts: seq<Attempt>, lo: nat, j: nat, stage: Stage, k: bool)
    ensures Tally(attempts, lo, j, stage, k) == |Counted(attempts, lo, j, stage, k)|
  {
    hide Counts;
    if |attempts| <= lo {
      assert Counted(attempts, lo, j, stage, k) == {};
    } else {
      hide Counted;
      TallyCounts(attempts[..|attempts| - 1], lo, j, stage, k);
      CountedSnoc(attempts, lo, j, stage, k);
    }
  }

  /** The claims of a job in a stage are its attempts there from `lo` on, and the reaps those of
      them that ended as interrupted. */
  lemma ClaimsAreAttempts(attempts: seq<Attempt>, lo: nat, j: nat, stage: Stage)
    ensures Claims(attempts, lo, j, stage)
         == |set a | lo <= a < |attempts| && attempts[a].job == j && attempts[a].stage == stage|
    ensures Reaps(attempts, lo, j, stage)
         == |set a | lo <= a < |attempts| && attempts[a].job == j && attempts[a].stage == stage
                && attempts[a].finish.Some? && attempts[a].finish.value.outcome == Interrupted|
  {
    hide Tally;
    TallyCounts(attempts, lo, j, stage, false);
    TallyCounts(attempts, lo, j, stage, true);
    assert Counted(attempts, lo, j, stage, false)
        == (set a | lo <= a < |attempts| && attempts[a].job == j && attempts[a].stage == stage);
    assert Counted(attempts, lo, j, stage, true)
        == (set a | lo <= a < |attempts| && attempts[a].job == j && attempts[a].stage == stage
               && attempts[a].finish.Some? && attempts[a].finish.value.outcome == Interrupted);
  }

  lemma {:induction false} TallySame(before: seq<Attempt>, after: seq<Attempt>, lo: nat, j: nat, stage: Stage, k: bool)
    requires |before| == |after|
    requires forall a :: lo <= a < |before| ==> (Counts(before[a], j, stage, k) <==> Counts(after[a], j, stage, k))
    ensures Tally(before, lo, j, stage, k) == Tally(after, lo, j, stage, k)
  {
    if |before| > lo {
      var n := |before| - 1;
      assert forall a :: lo <= a < n ==> before[..n][a] == before[a] && after[..n][a] == after[a];
      TallySame(before[..n], after[..n], lo, j, stage, k);
    }
  }

  lemma {:induction false} TallyOneMore(before: seq<Attempt>, after: seq<Attempt>, lo: nat, j: nat, stage: Stage,
                                        k: bool, x: nat)
    requires |before| == |after| && lo <= x < |before|
    requires !Counts(before[x], j, stage, k) && Counts(after[x], j, stage, k)
    requires forall a :: lo <= a < |before| && a != x ==>
      (Counts(before[a], j, stage, k) <==> Counts(after[a], j, stage, k))
    ensures Tally(after, lo, j, stage, k) == Tally(before, lo, j, stage, k) + 1
  {
    var n := |before| - 1;
    assert forall a :: lo <= a < n ==> before[..n][a] == before[a] && after[..n][a] == after[a];
    if x == n {
      TallySame(before[..n], after[..n], lo, j, stage, k);
    } else {
      TallyOneMore(before[..n], after[..n], lo, j, stage, k, x);
    }
  }

  lemma TallyAppend(attempts: seq<Attempt>, row: Attempt, lo: nat, j: nat, stage: Stage, k: bool)
    requires lo <= |attempts|
    ensures Tally(attempts + [row], lo, j, stage, k)
         == Tally(attempts, lo, j, stage, k) + if Counts(row, j, stage, k) then 1 else 0
  {
    assert (attempts + [row])[..|attempts|] == attempts;
  }

  // ---- the budget of one job ----

  /** A limit of zero still lets a new job be tried once. */
  function Tries(policy: PipelinePolicy): nat {
    if policy.retryLimit == 0 then 1 else policy.retryLimit
  }

  /** Within one stage: a job that waits for a try has one left, beyond those interrupted. */
  predicate Within(status: Status, claims: nat, reaps: nat, tries: nat) {
    && claims <= tries + reaps
    && (status in {New, Retry, ReadyForExtraction} ==> claims < tries + reaps)
    && (status == InProgress ==> claims >= 1)
  }

  ghost predicate BudgetRow(job: Job, j: nat, epoch: nat, attempts: seq<Attempt>, tries: nat) {
    var e, er := Claims(attempts, epoch, j, EligibilityStage), Reaps(attempts, epoch, j, EligibilityStage);
    var x, xr := Claims(attempts, epoch, j, ExtractionStage), Reaps(attempts, epoch, j, ExtractionStage);
    && epoch <= |attempts|
    && (job.lease.Some? ==> epoch <= job.lease.value)
    && if job.phase == Extraction then job.attemptCount == x && e <= tries + er && Within(job.status, x, xr, tries)
       else job.attemptCount == e && x == 0 && Within(job.status, e, er, tries)
  }

  /** `epochs[j]` is the number of attempt rows when `j` was first seen or last prepared. */
  ghost predicate Budgets(db: Db, epochs: seq<nat>, tries: nat) {
    |epochs| == |db.jobs| && forall j :: 0 <= j < |db.jobs| ==> BudgetRow(db.jobs[j], j, epochs[j], db.attempts, tries)
  }

  /** The bound over both stages: every job, however often it was reaped in between. */
  lemma BudgetBound(db: Db, epochs: seq<nat>, tries: nat, j: nat)
    requires Budgets(db, epochs, tries) && j < |db.jobs|
    ensures var rows, lo := db.attempts, epochs[j];
            var claims := Claims(rows, lo, j, EligibilityStage) + Claims(rows, lo, j, ExtractionStage);
            var reaps := Reaps(rows, lo, j, EligibilityStage) + Reaps(rows, lo, j, ExtractionStage);
            && claims <= 2 * tries + reaps
            && (claims == 2 * tries + reaps ==> db.jobs[j].status !in {New, Retry, ReadyForExtraction})
    ensures forall stage :: Claims(db.attempts, epochs[j], j, stage) <= tries + Reaps(db.attempts, epochs[j], j, stage)
  {
    assert BudgetRow(db.jobs[j], j, epochs[j], db.attempts, tries);
    forall stage ensures Claims(db.attempts, epochs[j], j, stage) <= tries + Reaps(db.attempts, epochs[j], j, stage) {
      assert stage == EligibilityStage || stage == ExtractionStage;
    }
  }

  // ---- rows that count the same ----

  ghost predicate SameTallies(before: seq<Attempt>, after: seq<Attempt>) {
    |before| == |after|
    && forall a :: 0 <= a < |before| ==>
         after[a].job == before[a].job && after[a].stage == before[a].stage
           && (WasInterrupted(before[a]) <==> WasInterrupted(after[a]))
  }

  lemma BudgetCarries(before: seq<Attempt>, after: seq<Attempt>, was: Job, job: Job, j: nat, epoch: nat, tries: nat)
    requires BudgetRow(was, j, epoch, before, tries) && SameTallies(before, after)
    requires job.lease.Some? ==> job.lease == was.lease
    requires StageOf(job.phase) == StageOf(was.phase) && job.attemptCount == was.attemptCount
    requires job.status in {New, Retry, ReadyForExtraction} ==>
      job.status == was.status || job.attemptCount < tries
    requires job.status == InProgress ==> was.status == InProgress
    ensures BudgetRow(job, j, epoch, after, tries)
  {
    TallySame(before, after, epoch, j, EligibilityStage, false);
    TallySame(before, after, epoch, j, EligibilityStage, true);
    TallySame(before, after, epoch, j, ExtractionStage, false);
    TallySame(before, after, epoch, j, ExtractionStage, true);
  }

  /** A transaction that rewrites one row, within what its stage still allows. */
  lemma OneRowKeepsBudgets(db: Db, after: Db, epochs: seq<nat>, tries: nat, j: nat)
    requires Budgets(db, epochs, tries) && j < |db.jobs| && SameTallies(db.attempts, after.attempts)
    requires |after.jobs| == |db.jobs| && after.jobs == db.jobs[j := after.jobs[j]]
    requires BudgetRow(after.jobs[j], j, epochs[j], after.attempts, tries)
    ensures Budgets(after, epochs, tries)
  {
    forall i | 0 <= i < |after.jobs| && i != j ensures BudgetRow(after.jobs[i], i, epochs[i], after.attempts, tries) {
      BudgetCarries(db.attempts, after.attempts, db.jobs[i], after.jobs[i], i, epochs[i], tries);
    }
  }

  lemma CarriedRowKeepsBudgets(db: Db, after: Db, epochs: seq<nat>, tries: nat, j: nat)
    requires Budgets(db, epochs, tries) && j < |db.jobs| && SameTallies(db.attempts, after.attempts)
    requires |after.jobs| == |db.jobs| && after.jobs == db.jobs[j := after.jobs[j]]
    requires after.jobs[j].lease.Some? ==> after.jobs[j].lease == db.jobs[j].lease
    requires StageOf(after.jobs[j].phase) == StageOf(db.jobs[j].phase)
      && after.jobs[j].attemptCount == db.jobs[j].attemptCount
    requires after.jobs[j].status in {New, Retry, ReadyForExtraction} ==>
      after.jobs[j].status == db.jobs[j].status || after.jobs[j].attemptCount < tries
    requires after.jobs[j].status == InProgress ==> db.jobs[j].status == InProgress
    ensures Budgets(after, epochs, tries)
  {
    BudgetCarries(db.attempts, after.attempts, db.jobs[j], after.jobs[j], j, epochs[j], tries);
    OneRowKeepsBudgets(db, after, epochs, tries, j);
  }

  // ---- transactions ----

  lemma ClaimKeepsBudgets(db: Db, j: nat, stage: Stage, trigger: Trigger, now: nat, epochs: seq<nat>, tries: nat)
    requires Budgets(db, epochs, tries) && LeasesHold(db) && JobsOk(db)
    ensures Budgets(After(db, ClaimAndStart(db, j, stage, trigger, now)), epochs, tries)
  {
    var tx := ClaimAndStart(db, j, stage, trigger, now);
    if tx.value.Some? {
      var row := Attempt(j, stage, trigger, now, None);
      assert JobRow(db.jobs[j]);
      forall i | 0 <= i < |db.jobs| ensures BudgetRow(tx.db.jobs[i], i, epochs[i], tx.db.attempts, tries) {
        assert BudgetRow(db.jobs[i], i, epochs[i], db.attempts, tries);
        TallyAppend(db.attempts, row, epochs[i], i, EligibilityStage, false);
        TallyAppend(db.attempts, row, epochs[i], i, EligibilityStage, true);
        TallyAppend(db.attempts, row, epochs[i], i, ExtractionStage, false);
        TallyAppend(db.attempts, row, epochs[i], i, ExtractionStage, true);
      }
    }
  }

  lemma HandOffKeepsBudgets(db: Db, j: nat, a: nat, c: nat, decision: Option<Verdict>, now: nat, epochs: seq<nat>,
                            tries: nat)
    requires Budgets(db, epochs, tries) && LeasesHold(db) && LeasedAt(db, j, a, EligibilityStage) && tries >= 1
    ensures Budgets(After(db, HandOff(db, j, a, c, decision, now)), epochs, tries)
  {
    var tx := HandOff(db, j, a, c, decision, now);
    if tx.Commit? && tx.value.Some? {
      assert LeaseRow(db.jobs[j], j, db.attempts) && BudgetRow(db.jobs[j], j, epochs[j], db.attempts, tries);
      assert SameTallies(db.attempts, tx.db.attempts);
      TallySame(db.attempts, tx.db.attempts, epochs[j], j, EligibilityStage, false);
      TallySame(db.attempts, tx.db.attempts, epochs[j], j, EligibilityStage, true);
      TallySame(db.attempts, tx.db.attempts, epochs[j], j, ExtractionStage, false);
      TallySame(db.attempts, tx.db.attempts, epochs[j], j, ExtractionStage, true);
      OneRowKeepsBudgets(db, tx.db, epochs, tries, j);
    }
  }

  lemma ReapKeepsBudgets(db: Db, stage: Stage, cutoff: nat, now: nat, epochs: seq<nat>, tries: nat)
    requires Budgets(db, epochs, tries) && LeasesHold(db) && JobsOk(db)
    ensures Budgets(After(db, ReapStale(db, stage, cutoff, now)), epochs, tries)
  {
    var after := After(db, ReapStale(db, stage, cutoff, now));
    forall j | 0 <= j < |db.jobs| ensures BudgetRow(after.jobs[j], j, epochs[j], after.attempts, tries) {
      assert BudgetRow(db.jobs[j], j, epochs[j], db.attempts, tries) && LeaseRow(db.jobs[j], j, db.attempts);
      ReapedRow(db, stage, cutoff, now, j, epochs[j], tries);
    }
  }

  lemma ReapedRow(db: Db, stage: Stage, cutoff: nat, now: nat, j: nat, epoch: nat, tries: nat)
    requires LeasesHold(db) && j < |db.jobs|
    requires BudgetRow(db.jobs[j], j, epoch, db.attempts, tries)
    ensures var after := After(db, ReapStale(db, stage, cutoff, now));
            BudgetRow(after.jobs[j], j, epoch, after.attempts, tries)
  {
    var after := After(db, ReapStale(db, stage, cutoff, now));
    forall s | true
      ensures Claims(after.attempts, epoch, j, s) == Claims(db.attempts, epoch, j, s)
      ensures Reaps(after.attempts, epoch, j, s)
           == Reaps(db.attempts, epoch, j, s) + if LosesLease(db, stage, cutoff, j) && s == StageOf(db.jobs[j].phase)
             then 1 else 0
    {
      ReapedTally(db, stage, cutoff, now, j, epoch, s);
    }
  }

  /** A reap adds one interruption to exactly the jobs that lose their lease. */
  lemma ReapedTally(db: Db, stage: Stage, cutoff: nat, now: nat, j: nat, epoch: nat, s: Stage)
    requires LeasesHold(db) && j < |db.jobs| && (db.jobs[j].lease.Some? ==> epoch <= db.jobs[j].lease.value)
    ensures var after := After(db, ReapStale(db, stage, cutoff, now));
            && Claims(after.attempts, epoch, j, s) == Claims(db.attempts, epoch, j, s)
            && Reaps(after.attempts, epoch, j, s)
               == Reaps(db.attempts, epoch, j, s) + if LosesLease(db, stage, cutoff, j)
                 && s == StageOf(db.jobs[j].phase) then 1 else 0
  {
    var after := After(db, ReapStale(db, stage, cutoff, now));
    TallySame(db.attempts, after.attempts, epoch, j, s, false);
    assert LeaseRow(db.jobs[j], j, db.attempts);
    if LosesLease(db, stage, cutoff, j) && s == StageOf(db.jobs[j].phase) {
      TallyOneMore(db.attempts, after.attempts, epoch, j, s, true, db.jobs[j].lease.value);
    } else {
      TallySame(db.attempts, after.attempts, epoch, j, s, true);
    }
  }

  function Restarted(epochs: seq<nat>, ids: seq<nat>, moment: nat): (restarted: seq<nat>)
    ensures |restarted| == |epochs|
    ensures forall j :: 0 <= j < |epochs| ==> restarted[j] == if j in ids then moment else epochs[j]
  {
    seq(|epochs|, j requires 0 <= j < |epochs| => if j in ids then moment else epochs[j])
  }

  lemma PrepareKeepsBudgets(db: Db, ids: seq<nat>, from: Phase, now: nat, epochs: seq<nat>, tries: nat)
    requires Budgets(db, epochs, tries) && PrepareFault(db, ids, from).None? && tries >= 1
    ensures Budgets(PreparedDb(db, ids, from, now), Restarted(epochs, ids, |db.attempts|), tries)
  {
    NoFaultMeansCheckpoints(db, ids, from);
    var after := PreparedDb(db, ids, from, now);
    forall j | 0 <= j < |db.jobs|
      ensures BudgetRow(after.jobs[j], j, Restarted(epochs, ids, |db.attempts|)[j], after.attempts, tries)
    {
      assert BudgetRow(db.jobs[j], j, epochs[j], db.attempts, tries);
    }
  }

  function Grown(epochs: seq<nat>, n: nat, moment: nat): seq<nat>
    requires |epochs| <= n
  {
    epochs + seq(n - |epochs|, (_: nat) => moment)
  }

  lemma ObserveKeepsBudgets(db: Db, company: string, items: seq<Observation>, epochs: seq<nat>, tries: nat)
    requires Budgets(db, epochs, tries) && UniqueKeys(db.jobs) && tries >= 1
    ensures |Observe(db, company, items).jobs| >= |epochs|
    ensures var after := Observe(db, company, items);
            Budgets(after, Grown(epochs, |after.jobs|, |db.attempts|), tries)
  {
    NewKeys(db.jobs, company, KeysOf(items));
    SourcesOnly(db.(jobs := WithKeys(db.jobs, company, KeysOf(items))), company, items);
    var after := Observe(db, company, items);
    var grown := Grown(epochs, |after.jobs|, |db.attempts|);
    forall j | 0 <= j < |after.jobs| ensures BudgetRow(after.jobs[j], j, grown[j], after.attempts, tries) {
      if j < |db.jobs| {
        assert after.jobs[j] == db.jobs[j];
        assert BudgetRow(db.jobs[j], j, epochs[j], db.attempts, tries);
      } else {
        assert after.jobs[j] == NewJob(company, after.jobs[j].key);
      }
    }
  }
}
