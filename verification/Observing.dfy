/** Observation: what the transaction's loops build, and how it agrees with the read-only
    resolution of the same keys. */
module Observing {
  import opened Models
  import opened Transactions
  import opened Invariants
  import opened Sources

  /** `dict.fromkeys`: each value once, in order of first occurrence. */
  function Distinct(keys: seq<string>): (distinct: seq<string>)
    ensures forall k :: k in distinct <==> k in keys
    ensures forall x, y :: 0 <= x < y < |distinct| ==> distinct[x] != distinct[y]
    ensures |distinct| <= |keys|
  {
    if |keys| == 0 then []
    else
      var most := Distinct(keys[..|keys| - 1]);
      if keys[|keys| - 1] in most then most else most + [keys[|keys| - 1]]
  }

  lemma DistinctSnoc(keys: seq<string>, key: string)
    ensures Distinct(keys + [key]) == if key in keys then Distinct(keys) else Distinct(keys) + [key]
  {
    assert (keys + [key])[..|keys|] == keys;
  }

  lemma NothingPicked(keys: seq<string>)
    requires keys == []
    ensures IsPick(Distinct(keys), keys, [])
  {
  }

  /** The distinct keys are the first occurrences, all of them, in their order. */
  lemma {:induction false} DistinctAreFirsts(keys: seq<string>) returns (at: seq<nat>)
    ensures IsPick(Distinct(keys), keys, at)
    ensures forall i: nat :: i in at <==> i < |keys| && keys[i] !in keys[..i]
  {
    hide IsPick, Distinct;
    if |keys| == 0 {
      at := [];
      NothingPicked(keys);
    } else {
      var most, last := keys[..|keys| - 1], keys[|keys| - 1];
      var before := DistinctAreFirsts(most);
      PickMore(Distinct(most), most, before, last);
      assert most + [last] == keys;
      DistinctSnoc(most, last);
      at := if last in most then before else before + [|most|];
      forall i: nat ensures i in at <==> i < |keys| && keys[i] !in keys[..i] {
        if i < |most| {
          assert keys[..i] == most[..i] && keys[i] == most[i];
        }
      }
    }
  }

  function KeySet(keys: seq<string>): (ks: set<string>)
    ensures forall k :: k in ks <==> k in keys
  {
    set k | k in keys
  }

  lemma SetSnoc(keys: seq<string>, key: string)
    ensures KeySet(keys + [key]) == KeySet(keys) + {key}
  {
  }

  lemma {:induction false} DistinctCount(keys: seq<string>)
    ensures |Distinct(keys)| == |KeySet(keys)|
  {
    hide KeySet;
    if |keys| == 0 {
      assert KeySet(keys) == {};
    } else {
      var most, last := keys[..|keys| - 1], keys[|keys| - 1];
      DistinctCount(most);
      SetSnoc(most, last);
      assert keys == most + [last];
      if last in Distinct(most) {
        assert KeySet(most) + {last} == KeySet(most);
      } else {
        assert last !in KeySet(most);
      }
    }
  }

  /** The keys of the canonical jobs behind these keys. */
  function SnapshotKeys(jobs: seq<Job>, company: string, keys: set<string>): set<string> {
    set k | k in keys && FindKey(jobs, company, k).Some? :: jobs[Target(jobs, company, k)].key
  }

  // ---- adding the keys ----

  /** A repeated key is found the second time, so each key needs to be looked at once. */
  lemma {:induction false} DistinctAddsTheSame(jobs: seq<Job>, company: string, keys: seq<string>)
    requires UniqueKeys(jobs)
    ensures WithKeys(jobs, company, Distinct(keys)) == WithKeys(jobs, company, keys)
  {
    hide UniqueKeys, FindKey;
    if |keys| > 0 {
      var most, last := keys[..|keys| - 1], keys[|keys| - 1];
      DistinctAddsTheSame(jobs, company, most);
      var distinct := Distinct(most);
      if last in distinct {
        KeysAreKnown(jobs, company, most);
        var i :| 0 <= i < |most| && most[i] == last;
        assert FindKey(WithKeys(jobs, company, most), company, most[i]).Some?;
      } else {
        assert (distinct + [last])[..|distinct|] == distinct;
      }
    }
  }

  /** `existing` maps each of the company's keys to its job. */
  ghost predicate Indexes(existing: map<string, nat>, jobs: seq<Job>, company: string) {
    forall k :: (k in existing <==> FindKey(jobs, company, k).Some?)
      && (k in existing ==> FindKey(jobs, company, k) == Some(existing[k]))
  }

  /** `ids` are the company's jobs. */
  ghost predicate Members(ids: set<nat>, jobs: seq<Job>, company: string) {
    forall i: nat :: i in ids <==> i < |jobs| && jobs[i].company == company
  }

  lemma IndexSnoc(existing: map<string, nat>, jobs: seq<Job>, job: Job, company: string)
    requires Indexes(existing, jobs, company)
    ensures Indexes(if job.company == company then existing[job.key := |jobs|] else existing, jobs + [job], company)
  {
    assert (jobs + [job])[..|jobs|] == jobs;
  }

  /** `targets` maps each of these keys to its canonical job. */
  ghost predicate Targets(targets: map<string, nat>, jobs: seq<Job>, company: string, keys: seq<string>) {
    && (forall k :: k in keys <==> k in targets)
    && (forall k :: k in keys ==> FindKey(jobs, company, k).Some? && targets[k] == Target(jobs, company, k))
  }

  lemma TargetsStay(targets: map<string, nat>, jobs: seq<Job>, after: seq<Job>, company: string, keys: seq<string>)
    requires Targets(targets, jobs, company, keys) && MergeForest(jobs) && UniqueKeys(after) && jobs <= after
    ensures Targets(targets, after, company, keys)
  {
    forall k | k in keys ensures FindKey(after, company, k).Some? && targets[k] == Target(after, company, k) {
      SameTarget(jobs, after, company, k);
    }
  }

  lemma KeysSnoc(jobs: seq<Job>, company: string, keys: seq<string>, n: nat)
    requires n < |keys|
    ensures var before := WithKeys(jobs, company, keys[..n]);
            WithKeys(jobs, company, keys[..n + 1])
            == (if FindKey(before, company, keys[n]).Some? then before else before + [NewJob(company, keys[n])])
  {
    hide FindKey;
    assert keys[..n + 1][..n] == keys[..n];
  }

  lemma NoTargets(jobs: seq<Job>, company: string)
    ensures Targets(map[], jobs, company, []) && WithKeys(jobs, company, []) == jobs
  {
  }

  lemma TargetAdded(targets: map<string, nat>, jobs: seq<Job>, company: string, keys: seq<string>, key: string)
    requires Targets(targets, jobs, company, keys) && FindKey(jobs, company, key).Some?
    ensures Targets(targets[key := Target(jobs, company, key)], jobs, company, keys + [key])
  {
    hide FindKey, Target;
  }

  /** One more key, found or appended, keeps every table the observation relies on. */
  lemma KeyAdded(known: seq<Job>, jobs: seq<Job>, company: string, keys: seq<string>, key: string,
                 targets: map<string, nat>)
    requires MergeForest(known) && UniqueKeys(known) && Targets(targets, known, company, keys)
    requires jobs == if FindKey(known, company, key).Some? then known else known + [NewJob(company, key)]
    ensures MergeForest(jobs) && UniqueKeys(jobs) && Targets(targets, jobs, company, keys)
  {
    hide UniqueKeys, FindKey, MergeForest;
    if FindKey(known, company, key).None? {
      NewKey(known, company, key);
      ForestGrows(known, jobs, company);
      TargetsStay(targets, known, jobs, company, keys);
    }
  }

  lemma SnapshotOfNone(jobs: seq<Job>, company: string)
    ensures SnapshotKeys(jobs, company, {}) == {}
  {
  }

  lemma SnapshotSnoc(jobs: seq<Job>, company: string, keys: set<string>, key: string)
    ensures SnapshotKeys(jobs, company, keys + {key})
         == SnapshotKeys(jobs, company, keys)
            + if FindKey(jobs, company, key).Some? then {jobs[Target(jobs, company, key)].key} else {}
  {
  }

  /** Resolved targets name the canonical jobs of the snapshot. */
  lemma TargetsName(jobs: seq<Job>, company: string, keys: seq<string>, targets: map<string, nat>,
                    snapshot: set<string>)
    requires Targets(targets, jobs, company, keys)
    requires forall k :: k in targets ==> targets[k] < |jobs|
    requires snapshot == set k | k in targets :: jobs[targets[k]].key
    ensures snapshot == SnapshotKeys(jobs, company, KeySet(keys))
    ensures |snapshot| <= |KeySet(keys)|
  {
    hide FindKey, Target;
    assert targets.Keys == KeySet(keys);
    NamesAreFewer(jobs, targets, snapshot);
  }

  /** Every observed item has its target. */
  lemma TargetsCover(jobs: seq<Job>, company: string, items: seq<Observation>, targets: map<string, nat>)
    requires Targets(targets, jobs, company, Distinct(KeysOf(items)))
    ensures forall i :: 0 <= i < |items| ==>
      items[i].key in targets && targets[items[i].key] == Target(jobs, company, items[i].key)
  {
    hide FindKey, Target;
    forall i | 0 <= i < |items| ensures items[i].key in Distinct(KeysOf(items)) {
      assert KeysOf(items)[i] in KeysOf(items);
    }
  }

  lemma {:induction false} AddedAtMost(jobs: seq<Job>, company: string, keys: seq<string>)
    ensures |jobs| <= |WithKeys(jobs, company, keys)| <= |jobs| + |keys|
  {
    hide FindKey;
    if |keys| > 0 {
      AddedAtMost(jobs, company, keys[..|keys| - 1]);
    }
  }

  lemma SubsetIsSmaller(a: set<string>, b: set<string>)
    requires a <= b
    ensures |a| <= |b|
  {
    assert b == a + (b - a);
  }

  lemma {:induction false} NamesAreFewer(jobs: seq<Job>, targets: map<string, nat>, names: set<string>)
    requires forall k :: k in targets ==> targets[k] < |jobs|
    requires names == set k | k in targets :: jobs[targets[k]].key
    ensures |names| <= |targets.Keys|
  {
    if targets.Keys != {} {
      var k :| k in targets;
      var rest := targets - {k};
      var fewer := set x | x in rest :: jobs[rest[x]].key;
      NamesAreFewer(jobs, rest, fewer);
      assert rest.Keys == targets.Keys - {k};
      assert names <= fewer + {jobs[targets[k]].key} by {
        forall n | n in names ensures n in fewer + {jobs[targets[k]].key} {
          var x :| x in targets && n == jobs[targets[x]].key;
          assert x in rest || x == k;
        }
      }
      assert |names| <= |fewer + {jobs[targets[k]].key}| by {
        SubsetIsSmaller(names, fewer + {jobs[targets[k]].key});
      }
    }
  }

  lemma ForestGrows(jobs: seq<Job>, after: seq<Job>, company: string)
    requires MergeForest(jobs) && Extends(jobs, after, company)
    ensures MergeForest(after)
  {
    forall j | 0 <= j < |after| && after[j].mergedInto.Some?
      ensures after[j].mergedInto.value < j && after[after[j].mergedInto.value].company == after[j].company
    {
      assert after[j] == jobs[j];
    }
  }

  // ---- what an observation tells ----

  /** Rows may be added and rewritten, but nothing is renamed and nothing is merged. */
  ghost predicate SameMerges(jobs: seq<Job>, later: seq<Job>) {
    |jobs| <= |later|
    && forall j :: 0 <= j < |jobs| ==>
         jobs[j].company == later[j].company && jobs[j].key == later[j].key && jobs[j].mergedInto == later[j].mergedInto
  }

  /** Resolving the same keys later, as long as nothing was merged in between, names the
      same canonical jobs. */
  lemma SnapshotStays(jobs: seq<Job>, later: seq<Job>, company: string, keys: seq<string>)
    requires MergeForest(jobs) && UniqueKeys(later) && SameMerges(jobs, later) && KeysKnown(jobs, company, keys)
    ensures var ks := KeySet(keys); SnapshotKeys(later, company, ks) == SnapshotKeys(jobs, company, ks)
  {
    hide UniqueKeys, MergeForest, FindKey, Target;
    var ks := KeySet(keys);
    forall k | k in ks
      ensures FindKey(jobs, company, k).Some? && FindKey(later, company, k).Some?
      ensures Target(later, company, k) == Target(jobs, company, k) < |jobs|
      ensures later[Target(later, company, k)].key == jobs[Target(jobs, company, k)].key
    {
      var i :| 0 <= i < |keys| && keys[i] == k;
      assert FindKey(jobs, company, keys[i]).Some?;
      SameTarget(jobs, later, company, k);
      TargetInRange(jobs, company, k);
    }
  }

  lemma TargetInRange(jobs: seq<Job>, company: string, key: string)
    ensures FindKey(jobs, company, key).Some? ==> Target(jobs, company, key) < |jobs|
  {
  }

  /** The read-only resolution of the observed keys names exactly the jobs the observation
      reports, and goes on doing so until something is merged. */
  lemma ObservationAgrees(db: Db, company: string, items: seq<Observation>, later: seq<Job>)
    requires MergeForest(db.jobs) && UniqueKeys(db.jobs) && UniqueKeys(later)
    requires SameMerges(Observe(db, company, items).jobs, later)
    ensures var keys := KeySet(KeysOf(items));
            SnapshotKeys(later, company, keys) == SnapshotKeys(Observe(db, company, items).jobs, company, keys)
  {
    NewKeys(db.jobs, company, KeysOf(items));
    SourcesOnly(db.(jobs := WithKeys(db.jobs, company, KeysOf(items))), company, items);
    var after := Observe(db, company, items).jobs;
    ForestGrows(db.jobs, after, company);
    SnapshotStays(after, later, company, KeysOf(items));
  }

  ghost predicate FreshIds(db: Db) {
    forall s :: s in db.sources ==> s < db.nextSource
  }

  /** Observing the same batch again adds no job and no source. */
  lemma ObservingTwiceAddsNothing(db: Db, company: string, items: seq<Observation>)
    requires MergeForest(db.jobs) && UniqueKeys(db.jobs) && FreshIds(db)
    ensures var once := Observe(db, company, items); Observe(once, company, items) == once
  {
    hide UniqueKeys, MergeForest, Owns;
    var keys := KeysOf(items);
    var keyed := db.(jobs := WithKeys(db.jobs, company, keys));
    var once := Observe(db, company, items);
    NewKeys(db.jobs, company, keys);
    SourcesOnly(keyed, company, items);
    KnownKeysAddNothing(once.jobs, company, keys);
    ObservedAreOwned(keyed, company, items);
    OwnedAddsNothing(once, company, items);
  }

  lemma {:induction false} KnownKeysAddNothing(jobs: seq<Job>, company: string, keys: seq<string>)
    requires KeysKnown(jobs, company, keys)
    ensures WithKeys(jobs, company, keys) == jobs
  {
    hide FindKey;
    if |keys| > 0 {
      var n := |keys| - 1;
      assert forall i :: 0 <= i < n ==> keys[..n][i] == keys[i];
      KnownKeysAddNothing(jobs, company, keys[..n]);
      assert FindKey(jobs, company, keys[n]).Some?;
    }
  }

  lemma StaysOwned(db: Db, i: nat, u: string)
    requires FreshIds(db)
    ensures FreshIds(WithSource(db, i, u))
    ensures forall j, url :: Owns(db, j, url) ==> Owns(WithSource(db, i, u), j, url)
  {
    var after := WithSource(db, i, u);
    forall j, url | Owns(db, j, url) ensures Owns(after, j, url) {
      var s :| s in db.sources && db.sources[s] == Source(j, url);
      assert s in after.sources && after.sources[s] == Source(j, url);
    }
  }

  lemma {:induction false} ObservedAreOwned(db: Db, company: string, items: seq<Observation>)
    requires FreshIds(db)
    ensures FreshIds(WithSources(db, company, items))
    ensures forall i :: 0 <= i < |items| ==>
      Owns(WithSources(db, company, items), Target(db.jobs, company, items[i].key), items[i].url)
  {
    hide Owns;
    if |items| > 0 {
      var most, last := items[..|items| - 1], items[|items| - 1];
      ObservedAreOwned(db, company, most);
      SourcesOnly(db, company, most);
      var before := WithSources(db, company, most);
      StaysOwned(before, Target(before.jobs, company, last.key), last.url);
      NowOwns(before, Target(before.jobs, company, last.key), last.url);
      forall i | 0 <= i < |items|
        ensures Owns(WithSources(db, company, items), Target(db.jobs, company, items[i].key), items[i].url)
      {
        if i < |most| {
          assert items[i] == most[i];
        }
      }
    }
  }

  lemma {:induction false} OwnedAddsNothing(db: Db, company: string, items: seq<Observation>)
    requires forall i :: 0 <= i < |items| ==> Owns(db, Target(db.jobs, company, items[i].key), items[i].url)
    ensures WithSources(db, company, items) == db
  {
    if |items| > 0 {
      var n := |items| - 1;
      assert forall i :: 0 <= i < n ==> items[..n][i] == items[i];
      OwnedAddsNothing(db, company, items[..n]);
    }
  }
}
