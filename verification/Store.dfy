/** The repositories: each method is one transaction over tables updated in place, written
    statement by statement, with an exception rolling everything back. */
module Stores {
  import opened Models
  import opened Transactions
  import opened Invariants
  import opened Sources
  import opened Observing

  datatype Ret<+T> = Ok(value: T) | Err(error: Error)

  function Returned<T>(tx: Tx<T>): Ret<T> {
    if tx.Commit? then Ok(tx.value) else Err(tx.error)
  }

  datatype ObserveSummary = ObserveSummary(added: nat, reseen: nat, snapshotKeys: set<string>)

  class Store {
    var jobs: seq<Job>
    var attempts: seq<Attempt>
    var contents: seq<Content>
    var decisions: seq<Decision>
    var results: seq<Result>
    var sources: map<nat, Source>
    var nextSource: nat

    function View(): Db
      reads this
    {
      Db(jobs, attempts, contents, decisions, results, sources, nextSource)
    }

    constructor ()
      ensures View() == EMPTY_DB
    {
      jobs, attempts, contents, decisions, results, sources, nextSource := [], [], [], [], [], map[], 0;
    }

    method Rollback(saved: Db)
      modifies this
      ensures View() == saved
    {
      jobs, attempts, contents, decisions, results, sources, nextSource :=
        saved.jobs, saved.attempts, saved.contents, saved.decisions, saved.results, saved.sources, saved.nextSource;
    }

    // ---- attempts ----

    method ClaimAndStart(j: nat, stage: Stage, trigger: Trigger, now: nat) returns (r: Ret<Option<nat>>)
      modifies this
      ensures View() == After(old(View()), Transactions.ClaimAndStart(old(View()), j, stage, trigger, now))
      ensures r == Returned(Transactions.ClaimAndStart(old(View()), j, stage, trigger, now))
    {
      if j >= |jobs| || !Claimable(jobs[j], stage, now, trigger.Reprocess?) {
        return Ok(None);
      }
      jobs := jobs[j := jobs[j].(status := InProgress, attemptCount := jobs[j].attemptCount + 1, due := None,
                                 lease := None, reprocess := false)];
      var a := |attempts|;
      attempts := attempts + [Attempt(j, stage, trigger, now, None)];
      r := Err(NotOwned);
      if jobs[j].status == InProgress && jobs[j].lease.None? {
        jobs := jobs[j := jobs[j].(lease := Some(a))];
        r := Ok(Some(a));
      } else {
        // Ownership can always be established: the row was just written in this transaction.
        assert false;
      }
    }

    /** `finalize.finish_owned_attempt`: true when it raises. */
    method FinishOwnedAttempt(j: nat, a: nat, finish: Finish) returns (raised: bool)
      modifies this`attempts
      ensures raised <==> !(Unfinished(old(View()), a) && old(attempts)[a].job == j)
      ensures attempts == if raised then old(attempts)
        else old(attempts)[a := old(attempts)[a].(finish := Some(finish))]
    {
      raised := true;
      if a < |attempts| && attempts[a].job == j && attempts[a].finish.None? {
        attempts := attempts[a := attempts[a].(finish := Some(finish))];
        raised := false;
      }
    }

    method Finish(a: nat, finish: Finish) returns (r: Ret<bool>)
      modifies this
      ensures View() == After(old(View()), FinishUnowned(old(View()), a, finish))
      ensures r == Returned(FinishUnowned(old(View()), a, finish))
    {
      if a < |attempts| && attempts[a].finish.None? {
        attempts := attempts[a := attempts[a].(finish := Some(finish))];
        r := Ok(true);
      } else {
        r := Ok(false);
      }
    }

    // ---- contents ----

    method StoreCheckpoint(j: nat, a: nat, posting: Posting) returns (r: Ret<Option<nat>>)
      modifies this
      ensures View() == After(old(View()), Transactions.StoreCheckpoint(old(View()), j, a, posting))
      ensures r == Returned(Transactions.StoreCheckpoint(old(View()), j, a, posting))
    {
      var c;
      match StoredContent(View(), j, posting.hash) {
        case TooMany => return Err(MultipleRows);
        case Row(id) => c := id;
        case NoRow =>
          c := |contents|;
          contents := contents + [Content(j, posting)];
      }
      if j < |jobs| && jobs[j].status == InProgress && jobs[j].lease == Some(a) {
        jobs := jobs[j := jobs[j].(content := Some(c))];
        r := Ok(Some(c));
      } else {
        r := Ok(None);
      }
    }

    // ---- jobs ----

    method AdvancePhase(j: nat, a: nat, phase: Phase) returns (r: Ret<bool>)
      modifies this
      ensures View() == After(old(View()), Transactions.AdvancePhase(old(View()), j, a, phase))
      ensures r == Returned(Transactions.AdvancePhase(old(View()), j, a, phase))
    {
      if j < |jobs| && jobs[j].status == InProgress && jobs[j].lease == Some(a) {
        jobs := jobs[j := jobs[j].(phase := phase)];
        r := Ok(true);
      } else {
        r := Ok(false);
      }
    }

    method Release(j: nat, a: nat, status: Status, phase: Phase, due: Option<nat>, now: nat) returns (r: Ret<bool>)
      modifies this
      ensures View() == After(old(View()), Transactions.Release(old(View()), j, a, status, phase, due, now))
      ensures r == Returned(Transactions.Release(old(View()), j, a, status, phase, due, now))
    {
      var saved := View();
      if (status == Retry) != due.Some? {
        return Err(InvalidDueTime);
      }
      if j >= |jobs| || jobs[j].lease != Some(a) {
        return Ok(false);
      }
      jobs := jobs[j := jobs[j].(status := status, phase := phase, due := due, lease := None)];
      var raised := FinishOwnedAttempt(j, a, Models.Finish(Ended(status), Some(phase), now));
      if raised {
        Rollback(saved);
        return Err(CheckpointError);
      }
      r := Ok(true);
    }

    /** `_merge_into`: the job row is flipped first, and the sources move only if it was. */
    method MergeInto(j: nat, into: nat, allowInProgress: bool) returns (merged: bool)
      modifies this`jobs, this`sources
      ensures merged == CanMerge(old(View()), j, into, allowInProgress)
      ensures View() == if merged then Transactions.MergeInto(old(View()), j, into) else old(View())
    {
      if !(j < |jobs| && j > into && (allowInProgress || jobs[j].status != InProgress)) {
        return false;
      }
      jobs := jobs[j := jobs[j].(status := Merged, mergedInto := Some(into), due := None, lease := None)];
      var existing := set s | s in sources && sources[s].job == into :: sources[s].url;
      var kept := map s | s in sources && !(sources[s].job == j && sources[s].url in existing) :: sources[s];
      var moved := map s | s in kept :: if kept[s].job == j then kept[s].(job := into) else kept[s];
      assert moved == MovedSources(sources, j, into);
      sources := moved;
      merged := true;
    }

    /** The one other job proven to be the same posting: by requisition with an equal title,
        else by fingerprint. */
    method FindDuplicate(j: nat, company: string, requisition: Option<string>, fingerprint: string)
      returns (duplicate: Option<nat>)
      ensures duplicate == DuplicateOf(View(), j, company, requisition, fingerprint)
    {
      hide OthersMatching, LatestTitle;
      if requisition.Some? {
        var byRequisition := OthersMatching(View(), j, company, ByRequisition(requisition.value));
        if |byRequisition| == 1 {
          var ownTitle := LatestTitle(View(), j);
          var otherTitle := LatestTitle(View(), byRequisition[0]);
          if ownTitle.Some? && ownTitle == otherTitle {
            return Some(byRequisition[0]);
          }
        }
      }
      var byFingerprint := OthersMatching(View(), j, company, ByFingerprint(fingerprint));
      duplicate := if |byFingerprint| == 1 then Some(byFingerprint[0]) else None;
    }

    method MergeDuplicate(j: nat, a: nat, company: string, requisition: Option<string>, fingerprint: string, now: nat)
      returns (r: Ret<Option<nat>>)
      modifies this
      ensures View() == After(old(View()),
                              Transactions.MergeDuplicate(old(View()), j, a, company, requisition, fingerprint, now))
      ensures r == Returned(Transactions.MergeDuplicate(old(View()), j, a, company, requisition, fingerprint, now))
    {
      hide DuplicateOf, MovedSources;
      var saved := View();
      if !LeasedTo(View(), j, a) {
        return Ok(None);
      }
      var duplicate := FindDuplicate(j, company, requisition, fingerprint);
      if duplicate.None? {
        return Ok(Some(j));
      }
      if duplicate.value < j {
        var merged := MergeInto(j, duplicate.value, true);
        if merged {
          var raised := FinishOwnedAttempt(j, a, Models.Finish(Ended(Merged), Some(Fetch), now));
          if raised {
            Rollback(saved);
            return Err(CheckpointError);
          }
        }
        r := Ok(Some(if merged then duplicate.value else j));
      } else {
        var _ := MergeInto(duplicate.value, j, false);
        r := Ok(Some(j));
      }
    }

    // ---- decisions and results ----

    method HandOffToExtraction(j: nat, a: nat, c: nat, decision: Option<Verdict>, now: nat)
      returns (r: Ret<Option<nat>>)
      modifies this
      ensures View() == After(old(View()), HandOff(old(View()), j, a, c, decision, now))
      ensures r == Returned(HandOff(old(View()), j, a, c, decision, now))
    {
      var saved := View();
      if !(j < |jobs| && jobs[j].status == InProgress && jobs[j].lease == Some(a) && jobs[j].content == Some(c)) {
        return Ok(None);
      }
      jobs := jobs[j := jobs[j].(status := ReadyForExtraction, phase := Extraction, due := None, lease := None,
                                 attemptCount := 0)];
      var d;
      if decision.None? {
        match EligibleCheckpoint(View(), j, c) {
          case NoRow => Rollback(saved); return Err(CheckpointError);
          case TooMany => Rollback(saved); return Err(MultipleRows);
          case Row(id) => d := id;
        }
      } else {
        if decision.value != Eligible {
          Rollback(saved);
          return Err(CheckpointError);
        }
        decisions := RetiredDecisions(decisions, j);
        d := |decisions|;
        decisions := decisions + [Decision(j, a, c, decision.value, true)];
      }
      var raised := FinishOwnedAttempt(j, a, Models.Finish(Ended(ReadyForExtraction), Some(Eligibility), now));
      if raised {
        Rollback(saved);
        return Err(CheckpointError);
      }
      r := Ok(Some(d));
    }

    method AcceptDecision(j: nat, a: nat, c: nat, verdict: Verdict, status: Status, now: nat)
      returns (r: Ret<Option<nat>>)
      modifies this
      ensures View() == After(old(View()), Transactions.AcceptDecision(old(View()), j, a, c, verdict, status, now))
      ensures r == Returned(Transactions.AcceptDecision(old(View()), j, a, c, verdict, status, now))
    {
      var saved := View();
      if !(j < |jobs| && jobs[j].status == InProgress && jobs[j].lease == Some(a) && jobs[j].content == Some(c)) {
        return Ok(None);
      }
      jobs := jobs[j := jobs[j].(status := status, phase := Eligibility, due := None, lease := None)];
      decisions := RetiredDecisions(decisions, j);
      var d := |decisions|;
      decisions := decisions + [Decision(j, a, c, verdict, true)];
      var raised := FinishOwnedAttempt(j, a, Models.Finish(Ended(status), Some(Eligibility), now));
      if raised {
        Rollback(saved);
        return Err(CheckpointError);
      }
      r := Ok(Some(d));
    }

    method AcceptResult(j: nat, a: nat, c: nat, now: nat) returns (r: Ret<Option<nat>>)
      modifies this
      ensures View() == After(old(View()), Transactions.AcceptResult(old(View()), j, a, c, now))
      ensures r == Returned(Transactions.AcceptResult(old(View()), j, a, c, now))
    {
      var saved := View();
      if !(j < |jobs| && jobs[j].status == InProgress && jobs[j].lease == Some(a) && jobs[j].content == Some(c)) {
        return Ok(None);
      }
      jobs := jobs[j := jobs[j].(status := CompletedEligible, phase := Extraction, due := None, lease := None)];
      results := RetiredResults(results, j);
      var id := |results|;
      results := results + [Result(j, a, c, true)];
      var raised := FinishOwnedAttempt(j, a, Models.Finish(Ended(CompletedEligible), Some(Extraction), now));
      if raised {
        Rollback(saved);
        return Err(CheckpointError);
      }
      r := Ok(Some(id));
    }

    // ---- observing ----

    /** The company's jobs by key; a later row wins, as in a dictionary. */
    method KeyIndex(company: string) returns (existing: map<string, nat>)
      ensures Indexes(existing, jobs, company)
    {
      existing := map[];
      for i := 0 to |jobs|
        invariant Indexes(existing, jobs[..i], company)
      {
        IndexSnoc(existing, jobs[..i], jobs[i], company);
        assert jobs[..i + 1] == jobs[..i] + [jobs[i]];
        if jobs[i].company == company {
          existing := existing[jobs[i].key := i];
        }
      }
      assert jobs[..|jobs|] == jobs;
    }

    /** Follow the merges of job `j` within the company; raises on a cycle or a missing parent. */
    method Canonical(companyJobs: set<nat>, j: nat) returns (r: Ret<nat>)
      requires j in companyJobs && forall i :: i in companyJobs ==> i < |jobs|
      ensures r.Ok? ==> r.value in companyJobs && jobs[r.value].mergedInto.None?
      ensures MergeForest(jobs) && (forall i :: 0 <= i < |jobs| && jobs[i].company == jobs[j].company ==>
        i in companyJobs)
        ==> r == Ok(Root(jobs, j))
    {
      var target := j;
      var seen: set<nat> := {};
      ghost var good := MergeForest(jobs)
        && (forall i :: 0 <= i < |jobs| && jobs[i].company == jobs[j].company ==> i in companyJobs);
      while jobs[target].mergedInto.Some?
        invariant target in companyJobs && seen <= companyJobs
        invariant good ==> Root(jobs, target) == Root(jobs, j) && jobs[target].company == jobs[j].company
        invariant good ==> forall s :: s in seen ==> target < s
        decreases companyJobs - seen
      {
        if target in seen {
          return Err(MergeCycle);
        }
        seen := seen + {target};
        var parent := jobs[target].mergedInto.value;
        if parent !in companyJobs {
          return Err(MissingCanonical);
        }
        target := parent;
      }
      r := Ok(target);
    }

    /** The company's job for this key, inserted if there is none. */
    method FindOrInsert(company: string, key: string, companyJobs: set<nat>, existing: map<string, nat>)
      returns (job: nat, companyJobs': set<nat>, existing': map<string, nat>)
      requires Members(companyJobs, jobs, company) && Indexes(existing, jobs, company)
      modifies this`jobs
      ensures FindKey(jobs, company, key) == Some(job)
      ensures jobs == if FindKey(old(jobs), company, key).Some? then old(jobs) else old(jobs) + [NewJob(company, key)]
      ensures Members(companyJobs', jobs, company) && Indexes(existing', jobs, company)
    {
      hide FindKey;
      companyJobs', existing' := companyJobs, existing;
      if key in existing {
        job := existing[key];
      } else {
        job := |jobs|;
        IndexSnoc(existing, jobs, NewJob(company, key), company);
        jobs := jobs + [NewJob(company, key)];
        companyJobs' := companyJobs + {job};
        existing' := existing[key := job];
      }
    }

    /** Find or insert the job of each key, and resolve it to its canonical job. */
    method ResolveKeys(company: string, keys: seq<string>) returns (r: Ret<map<string, nat>>)
      modifies this`jobs
      ensures r.Ok? ==> jobs == WithKeys(old(jobs), company, keys)
      ensures r.Ok? ==> (forall k :: k in keys <==> k in r.value) && forall k :: k in r.value ==> r.value[k] < |jobs|
      ensures MergeForest(old(jobs)) && UniqueKeys(old(jobs)) ==> r.Ok? && Targets(r.value, jobs, company, keys)
    {
      hide FindKey, MergeForest, UniqueKeys, Targets, WithKeys, Root, Indexes;
      ghost var before := jobs;
      ghost var good := MergeForest(jobs) && UniqueKeys(jobs);
      var companyJobs: set<nat> := set i: nat | i < |jobs| && jobs[i].company == company;
      var existing: map<string, nat> := KeyIndex(company);
      var targets: map<string, nat> := map[];
      NoTargets(jobs, company);
      assert keys[..0] == [];
      for n := 0 to |keys|
        invariant jobs == WithKeys(before, company, keys[..n])
        invariant Members(companyJobs, jobs, company) && Indexes(existing, jobs, company)
        invariant (forall k :: k in keys[..n] <==> k in targets) && forall k :: k in targets ==> targets[k] < |jobs|
        invariant good ==> MergeForest(jobs) && UniqueKeys(jobs) && Targets(targets, jobs, company, keys[..n])
      {
        var key := keys[n];
        assert keys[..n + 1] == keys[..n] + [key];
        KeysSnoc(before, company, keys, n);
        ghost var known := jobs;
        var job: nat;
        job, companyJobs, existing := FindOrInsert(company, key, companyJobs, existing);
        if good {
          KeyAdded(known, jobs, company, keys[..n], key, targets);
        }
        var target := Canonical(companyJobs, job);
        if target.Err? {
          return Err(target.error);
        }
        if good {
          TargetAdded(targets, jobs, company, keys[..n], key);
        }
        targets := targets[key := target.value];
      }
      assert keys[..|keys|] == keys;
      r := Ok(targets);
    }

    /** Insert the raw URLs that the target jobs do not have yet. */
    method AddSources(items: seq<Observation>, company: string, targets: map<string, nat>)
      requires forall i :: 0 <= i < |items| ==> items[i].key in targets
      modifies this`sources, this`nextSource
      ensures (forall i :: 0 <= i < |items| ==> targets[items[i].key] == Target(jobs, company, items[i].key))
        ==> View() == WithSources(old(View()), company, items)
    {
      ghost var before := View();
      ghost var good := forall i :: 0 <= i < |items| ==> targets[items[i].key] == Target(jobs, company, items[i].key);
      for n := 0 to |items|
        invariant good ==> View() == WithSources(before, company, items[..n])
      {
        assert items[..n + 1][..n] == items[..n];
        var item := items[n];
        var row := Source(targets[item.key], item.url);
        if row !in sources.Values {
          sources := sources[nextSource := row];
          nextSource := nextSource + 1;
        }
      }
      assert items[..|items|] == items;
    }

    method Observe(company: string, items: seq<Observation>) returns (r: Ret<ObserveSummary>)
      modifies this
      ensures MergeForest(old(jobs)) && UniqueKeys(old(jobs)) ==>
        && View() == Transactions.Observe(old(View()), company, items)
        && r.Ok?
        && r.value.snapshotKeys == SnapshotKeys(jobs, company, KeySet(KeysOf(items)))
        && |jobs| == |old(jobs)| + r.value.added
        && r.value.added + r.value.reseen == |KeySet(KeysOf(items))|
        && |r.value.snapshotKeys| <= |KeySet(KeysOf(items))|
      ensures r.Err? ==> View() == old(View())
    {
      hide MergeForest, UniqueKeys, FindKey, Target, WithKeys, WithSources, SnapshotKeys, Targets;
      var saved := View();
      var keys := Distinct(KeysOf(items));
      ghost var good := MergeForest(jobs) && UniqueKeys(jobs);
      var resolved := ResolveKeys(company, keys);
      if resolved.Err? {
        Rollback(saved);
        return Err(resolved.error);
      }
      var targets := resolved.value;
      forall i | 0 <= i < |items| ensures items[i].key in targets {
        assert KeysOf(items)[i] in keys;
      }
      ghost var keyed := View();
      var snapshot := set k | k in targets :: jobs[targets[k]].key;
      AddSources(items, company, targets);
      AddedAtMost(saved.jobs, company, keys);
      var added := |jobs| - |saved.jobs|;
      if good {
        DistinctAddsTheSame(saved.jobs, company, KeysOf(items));
        TargetsCover(jobs, company, items, targets);
        TargetsName(jobs, company, keys, targets, snapshot);
        DistinctCount(KeysOf(items));
        assert KeySet(keys) == KeySet(KeysOf(items));
      }
      r := Ok(ObserveSummary(added, |keys| - added, snapshot));
    }

    /** The read-only walk of the same forest. */
    method WalkMerges(companyJobs: set<nat>, start: nat) returns (r: Ret<nat>)
      requires start in companyJobs && forall i :: i in companyJobs ==> i < |jobs|
      ensures r.Ok? ==> r.value < |jobs|
      ensures MergeForest(jobs) && (forall i :: 0 <= i < |jobs| && jobs[i].company == jobs[start].company ==>
        i in companyJobs)
        ==> r == Ok(Root(jobs, start))
    {
      var target := start;
      var seen: set<nat> := {};
      ghost var good := MergeForest(jobs)
        && (forall i :: 0 <= i < |jobs| && jobs[i].company == jobs[start].company ==> i in companyJobs);
      while jobs[target].mergedInto.Some?
        invariant target in companyJobs && seen <= companyJobs
        invariant good ==> Root(jobs, target) == Root(jobs, start) && jobs[target].company == jobs[start].company
        invariant good ==> forall s :: s in seen ==> target < s
        decreases companyJobs - seen
      {
        if target in seen {
          return Err(MergeCycle);
        }
        seen := seen + {target};
        if jobs[target].mergedInto.value !in companyJobs {
          return Err(MissingCanonical);
        }
        target := jobs[target].mergedInto.value;
      }
      r := Ok(target);
    }

    method CanonicalKeys(company: string, keys: set<string>) returns (r: Ret<set<string>>)
      ensures MergeForest(jobs) && UniqueKeys(jobs) ==> r == Ok(SnapshotKeys(jobs, company, keys))
    {
      hide FindKey, UniqueKeys, MergeForest, SnapshotKeys, Root;
      SnapshotOfNone(jobs, company);
      if keys == {} {
        return Ok({});
      }
      ghost var good := MergeForest(jobs) && UniqueKeys(jobs);
      var companyJobs: set<nat> := set i: nat | i < |jobs| && jobs[i].company == company;
      var byKey: map<string, nat> := KeyIndex(company);
      var canonical: set<string> := {};
      var rest := keys;
      assert keys - rest == {};
      while rest != {}
        invariant rest <= keys
        invariant good ==> canonical == SnapshotKeys(jobs, company, keys - rest)
        decreases |rest|
      {
        var key :| key in rest;
        ghost var done := keys - rest;
        rest := rest - {key};
        assert keys - rest == done + {key};
        SnapshotSnoc(jobs, company, done, key);
        if key in byKey {
          var target := WalkMerges(companyJobs, byKey[key]);
          if target.Err? {
            return Err(target.error);
          }
          canonical := canonical + {jobs[target.value].key};
        }
      }
      assert keys - rest == keys;
      r := Ok(canonical);
    }

    // ---- reaping ----

    /** The stale attempts are selected and ended together, then each job gives up its lease
        if that attempt still holds it. */
    method ReapStale(stage: Stage, cutoff: nat, now: nat) returns (r: Ret<nat>)
      modifies this
      ensures View() == After(old(View()), Transactions.ReapStale(old(View()), stage, cutoff, now))
      ensures r == Returned(Transactions.ReapStale(old(View()), stage, cutoff, now))
    {
      ghost var before := View();
      var db := View();
      var stale := Select(|attempts|, (a: nat) => Stale(db, stage, cutoff, a));
      if |stale| == 0 {
        NothingStale(before, stage, cutoff, now, stale);
        return Ok(0);
      }
      attempts := seq(|attempts|, a requires 0 <= a < |db.attempts| =>
        if Stale(db, stage, cutoff, a) then Interrupt(db.attempts[a], now) else db.attempts[a]);
      for k := 0 to |stale|
        invariant View() == before.(jobs := jobs, attempts := attempts)
        invariant attempts == After(before, Transactions.ReapStale(before, stage, cutoff, now)).attempts
        invariant jobs == ReapedJobs(before, stage, cutoff, now, stale[..k])
      {
        var a := stale[k];
        var j := db.attempts[a].job;
        assert Stale(before, stage, cutoff, a);
        ReapedOnce(before, stage, cutoff, now, stale, k);
        if jobs[j].status == InProgress && jobs[j].lease == Some(a) {
          jobs := jobs[j := jobs[j].(status := Retry, due := Some(now), lease := None, reprocess := false)];
        }
      }
      assert stale[..|stale|] == stale;
      AllReaped(before, stage, cutoff, now, stale);
      r := Ok(|stale|);
    }

    // ---- reprocessing ----

    /** Look up each selected job's checkpoint, in id order, until one is missing. */
    method FindCheckpoints(selected: seq<nat>, from: Phase)
      returns (fault: Option<Error>, contentIds: map<nat, Option<nat>>)
      requires forall i :: 0 <= i < |selected| ==> selected[i] < |jobs|
      ensures fault == CheckpointFault(View(), selected, from)
      ensures fault.None? ==> forall j :: j in selected ==>
        CheckpointFor(View(), j, from).Commit? && j in contentIds
          && contentIds[j] == CheckpointFor(View(), j, from).value
    {
      hide CheckpointFor;
      contentIds := map[];
      var db := View();
      for k := 0 to |selected|
        invariant CheckpointFault(db, selected[..k], from).None?
        invariant forall i :: 0 <= i < k ==>
          CheckpointFor(db, selected[i], from).Commit?
          && selected[i] in contentIds && contentIds[selected[i]] == CheckpointFor(db, selected[i], from).value
      {
        FaultSnoc(db, selected, from, k);
        match CheckpointFor(db, selected[k], from) {
          case Raise(error) =>
            FirstFaultStays(db, selected, from, k + 1);
            return Some(error), contentIds;
          case Commit(_, content) =>
            contentIds := contentIds[selected[k] := content];
        }
      }
      assert selected[..|selected|] == selected;
      fault := None;
    }

    method RestartJobs(selected: seq<nat>, contentIds: map<nat, Option<nat>>, from: Phase, now: nat)
      requires forall i :: 0 <= i < |selected| ==> selected[i] < |jobs| && selected[i] in contentIds
      requires forall x, y :: 0 <= x < y < |selected| ==> selected[x] < selected[y]
      modifies this`jobs
      ensures |jobs| == |old(jobs)|
      ensures forall j :: 0 <= j < |jobs| ==>
        jobs[j] == if j in selected then Prepared(old(jobs)[j], from, contentIds[j], now) else old(jobs)[j]
    {
      for k := 0 to |selected|
        invariant |jobs| == |old(jobs)|
        invariant forall j :: 0 <= j < |jobs| ==>
          jobs[j] == if j in selected[..k] then Prepared(old(jobs)[j], from, contentIds[j], now) else old(jobs)[j]
      {
        var j := selected[k];
        assert j !in selected[..k];
        jobs := jobs[j := Prepared(jobs[j], from, contentIds[j], now)];
        assert selected[..k + 1] == selected[..k] + [j];
      }
      assert selected[..|selected|] == selected;
    }

    method PrepareReprocess(requested: seq<nat>, from: Phase, now: nat) returns (r: Ret<seq<nat>>)
      modifies this
      ensures View() == After(old(View()), Transactions.PrepareReprocess(old(View()), requested, from, now))
      ensures r == Returned(Transactions.PrepareReprocess(old(View()), requested, from, now))
    {
      hide CheckpointFor, CheckpointFault, PreparedDb, HasStatus;
      ghost var before := View();
      if !(forall i :: i in requested ==> i < |jobs|) {
        return Err(UnknownJobs);
      }
      if HasStatus(jobs, requested, InProgress) {
        return Err(ActiveJobs);
      }
      if HasStatus(jobs, requested, Merged) {
        return Err(MergedJobs);
      }
      var selected := Selected(View(), requested);
      var fault, contentIds := FindCheckpoints(selected, from);
      if fault.Some? {
        return Err(fault.value);
      }
      if from in {Fetch, Eligibility} {
        decisions := ClearedDecisions(decisions, requested);
      }
      results := ClearedResults(results, requested);
      forall i | 0 <= i < |selected| ensures selected[i] in contentIds {
        assert selected[i] in selected;
      }
      RestartJobs(selected, contentIds, from, now);
      RestartedIsPrepared(before, requested, from, now, contentIds, jobs);
      r := Ok(selected);
    }
  }

  // ---- reaping: the loop against the rows it leaves ----

  predicate Reaped(db: Db, stage: Stage, cutoff: nat, done: seq<nat>, j: nat) {
    LosesLease(db, stage, cutoff, j) && db.jobs[j].lease.value in done
  }

  function ReapedJobs(db: Db, stage: Stage, cutoff: nat, now: nat, done: seq<nat>): (jobs: seq<Job>)
    ensures |jobs| == |db.jobs|
    ensures forall j :: 0 <= j < |jobs| ==>
      jobs[j] == if Reaped(db, stage, cutoff, done, j) then Recovered(db.jobs[j], now) else db.jobs[j]
  {
    seq(|db.jobs|, j requires 0 <= j < |db.jobs| =>
      if Reaped(db, stage, cutoff, done, j) then Recovered(db.jobs[j], now) else db.jobs[j])
  }

  lemma ReapedOnce(db: Db, stage: Stage, cutoff: nat, now: nat, stale: seq<nat>, k: nat)
    requires k < |stale| && forall x, y :: 0 <= x < y < |stale| ==> stale[x] < stale[y]
    requires Stale(db, stage, cutoff, stale[k])
    ensures var a := stale[k];
            var j := db.attempts[a].job;
            var jobs := ReapedJobs(db, stage, cutoff, now, stale[..k]);
            && j < |jobs| && jobs[j].status == InProgress && jobs[j].lease == Some(a)
            && ReapedJobs(db, stage, cutoff, now, stale[..k + 1]) == jobs[j := Recovered(jobs[j], now)]
  {
    var a := stale[k];
    var j := db.attempts[a].job;
    assert stale[..k + 1] == stale[..k] + [a];
    assert a !in stale[..k];
    assert !Reaped(db, stage, cutoff, stale[..k], j);
    forall i | 0 <= i < |db.jobs| && i != j
      ensures Reaped(db, stage, cutoff, stale[..k + 1], i) <==> Reaped(db, stage, cutoff, stale[..k], i)
    {
    }
  }

  lemma AllReaped(db: Db, stage: Stage, cutoff: nat, now: nat, stale: seq<nat>)
    requires forall a: nat :: a in stale <==> a < |db.attempts| && Stale(db, stage, cutoff, a)
    ensures ReapedJobs(db, stage, cutoff, now, stale) == After(db, ReapStale(db, stage, cutoff, now)).jobs
  {
  }

  lemma NothingStale(db: Db, stage: Stage, cutoff: nat, now: nat, stale: seq<nat>)
    requires stale == [] && forall a: nat :: a in stale <==> a < |db.attempts| && Stale(db, stage, cutoff, a)
    ensures After(db, ReapStale(db, stage, cutoff, now)) == db
  {
    var after := After(db, ReapStale(db, stage, cutoff, now));
    forall a: nat | a < |db.attempts| ensures !Stale(db, stage, cutoff, a) {
      assert a !in stale;
    }
    assert after.attempts == db.attempts && after.jobs == db.jobs;
  }

  lemma RestartedIsPrepared(db: Db, requested: seq<nat>, from: Phase, now: nat, contentIds: map<nat, Option<nat>>,
                            jobs: seq<Job>)
    requires forall j :: j in Selected(db, requested) ==>
      CheckpointFor(db, j, from).Commit? && j in contentIds && contentIds[j] == CheckpointFor(db, j, from).value
    requires |jobs| == |db.jobs| && forall j :: 0 <= j < |db.jobs| ==>
      jobs[j] == if j in Selected(db, requested) then Prepared(db.jobs[j], from, contentIds[j], now) else db.jobs[j]
    ensures PreparedDb(db, requested, from, now) == db.(
              decisions := if from.Extraction? then db.decisions else ClearedDecisions(db.decisions, requested),
              results := ClearedResults(db.results, requested),
              jobs := jobs)
  {
    hide CheckpointFor;
    var prepared := PreparedDb(db, requested, from, now);
    forall j | 0 <= j < |db.jobs| ensures jobs[j] == prepared.jobs[j] {
      assert j in Selected(db, requested) <==> j in requested;
    }
    assert jobs == prepared.jobs;
  }

  // ---- reprocessing: the first fault in id order ----

  lemma FaultSnoc(db: Db, selected: seq<nat>, from: Phase, k: nat)
    requires k < |selected| && forall i :: 0 <= i < |selected| ==> selected[i] < |db.jobs|
    requires CheckpointFault(db, selected[..k], from).None?
    ensures CheckpointFault(db, selected[..k + 1], from)
         == if CheckpointFor(db, selected[k], from).Raise? then Some(CheckpointFor(db, selected[k], from).error)
           else None
  {
    assert selected[..k + 1][..k] == selected[..k];
  }

  lemma {:induction false} FirstFaultStays(db: Db, selected: seq<nat>, from: Phase, k: nat)
    requires k <= |selected| && forall i :: 0 <= i < |selected| ==> selected[i] < |db.jobs|
    requires CheckpointFault(db, selected[..k], from).Some?
    ensures CheckpointFault(db, selected, from) == CheckpointFault(db, selected[..k], from)
  {
    if k == |selected| {
      assert selected[..k] == selected;
    } else {
      var most := selected[..|selected| - 1];
      assert most[..k] == selected[..k];
      FirstFaultStays(db, most, from, k);
    }
  }
}
