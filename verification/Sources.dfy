/** Where every sighting of a posting ends up: the source table is the image of all
    sightings under "the job of the key, followed to its canonical job". */
module Sources {
  import opened Models
  import opened Transactions
  import opened Invariants

  /** One (company, key, raw URL) that some observation has reported. */
  datatype Sighting = Sighting(company: string, key: string, url: string)

  // ---- canonical jobs ----

  /** Every chain of merges ends at a live job of the same company. */
  lemma {:induction false} RootIsCanonical(jobs: seq<Job>, j: nat)
    requires MergeForest(jobs) && j < |jobs|
    ensures jobs[Root(jobs, j)].mergedInto.None? && jobs[Root(jobs, j)].company == jobs[j].company
    ensures Root(jobs, Root(jobs, j)) == Root(jobs, j)
  {
    if jobs[j].mergedInto.Some? {
      RootIsCanonical(jobs, jobs[j].mergedInto.value);
    }
  }

  /** Rows that agree on identity and merges have the same targets. */
  ghost predicate SameIdentity(before: seq<Job>, after: seq<Job>) {
    |before| == |after|
    && forall j :: 0 <= j < |before| ==>
         before[j].company == after[j].company && before[j].key == after[j].key
           && before[j].mergedInto == after[j].mergedInto
  }

  lemma {:induction false} SameRoot(before: seq<Job>, after: seq<Job>, j: nat)
    requires |before| <= |after| && MergeForest(before) && j < |before|
    requires forall i :: 0 <= i < |before| ==> before[i].mergedInto == after[i].mergedInto
    ensures Root(before, j) == Root(after, j)
  {
    if before[j].mergedInto.Some? {
      SameRoot(before, after, before[j].mergedInto.value);
    }
  }

  lemma SameTarget(before: seq<Job>, after: seq<Job>, company: string, key: string)
    requires |before| <= |after| && MergeForest(before) && UniqueKeys(after)
    requires forall j :: 0 <= j < |before| ==>
      before[j].company == after[j].company && before[j].key == after[j].key
        && before[j].mergedInto == after[j].mergedInto
    requires FindKey(before, company, key).Some?
    ensures FindKey(after, company, key) == FindKey(before, company, key)
    ensures Target(after, company, key) == Target(before, company, key)
  {
    SameRoot(before, after, FindKey(before, company, key).value);
  }

  /** Merging a canonical job redirects exactly the chains that ended there. */
  lemma {:induction false} MergedRoot(jobs: seq<Job>, merged: seq<Job>, j: nat, into: nat, i: nat)
    requires MergeForest(jobs) && into < j < |jobs| && i < |jobs|
    requires jobs[j].mergedInto.None? && jobs[into].mergedInto.None?
    requires |merged| == |jobs| && merged[j].mergedInto == Some(into)
    requires forall k :: 0 <= k < |jobs| && k != j ==> merged[k].mergedInto == jobs[k].mergedInto
    ensures Root(merged, i) == if Root(jobs, i) == j then into else Root(jobs, i)
  {
    if i == j {
      assert Root(merged, into) == into;
    } else if jobs[i].mergedInto.Some? {
      MergedRoot(jobs, merged, j, into, jobs[i].mergedInto.value);
    }
  }

  // ---- the refinement ----

  ghost function SourcePairs(sources: map<nat, Source>): set<(nat, string)> {
    set s | s in sources :: (sources[s].job, sources[s].url)
  }

  ghost function Image(jobs: seq<Job>, seen: set<Sighting>): set<(nat, string)> {
    set o | o in seen :: (Target(jobs, o.company, o.key), o.url)
  }

  ghost predicate KnownKeys(jobs: seq<Job>, seen: set<Sighting>) {
    forall o :: o in seen ==> FindKey(jobs, o.company, o.key).Some?
  }

  ghost predicate Sighted(job: Job, seen: set<Sighting>) {
    exists o :: o in seen && o.company == job.company && o.key == job.key
  }

  ghost predicate UniqueSources(sources: map<nat, Source>) {
    forall s, t :: s in sources && t in sources && sources[s] == sources[t] ==> s == t
  }

  ghost predicate SourcesMapped(db: Db, seen: set<Sighting>) {
    && (forall s :: s in db.sources ==> s < db.nextSource)
    && UniqueSources(db.sources)
    && KnownKeys(db.jobs, seen)
    && SourcePairs(db.sources) == Image(db.jobs, seen)
  }

  ghost predicate SourcesExact(db: Db, seen: set<Sighting>) {
    SourcesMapped(db, seen) && forall j :: 0 <= j < |db.jobs| ==> Sighted(db.jobs[j], seen)
  }

  /** Merged jobs own no source, live jobs own at least one. */
  lemma LiveJobsOwnSources(db: Db, seen: set<Sighting>, j: nat)
    requires SourcesExact(db, seen) && MergeForest(db.jobs) && UniqueKeys(db.jobs) && j < |db.jobs|
    ensures HasSource(db, j) <==> db.jobs[j].mergedInto.None?
  {
    if db.jobs[j].mergedInto.None? {
      var o :| o in seen && o.company == db.jobs[j].company && o.key == db.jobs[j].key;
      assert (Target(db.jobs, o.company, o.key), o.url) in Image(db.jobs, seen);
      assert (j, o.url) in SourcePairs(db.sources);
    }
    if s :| s in db.sources && db.sources[s].job == j {
      assert (j, db.sources[s].url) in SourcePairs(db.sources);
      var o :| o in seen && (j, db.sources[s].url) == (Target(db.jobs, o.company, o.key), o.url);
      RootIsCanonical(db.jobs, FindKey(db.jobs, o.company, o.key).value);
    }
  }

  // ---- transactions that leave identity, merges and sources alone ----

  lemma UntouchedSources(db: Db, after: Db, seen: set<Sighting>)
    requires SourcesExact(db, seen) && MergeForest(db.jobs) && UniqueKeys(after.jobs)
    requires SameIdentity(db.jobs, after.jobs)
    requires after.sources == db.sources && after.nextSource == db.nextSource
    ensures SourcesExact(after, seen)
  {
    forall o | o in seen
      ensures FindKey(after.jobs, o.company, o.key).Some?
      ensures Target(after.jobs, o.company, o.key) == Target(db.jobs, o.company, o.key)
    {
      SameTarget(db.jobs, after.jobs, o.company, o.key);
    }
    assert Image(after.jobs, seen) == Image(db.jobs, seen);
    forall j | 0 <= j < |after.jobs| ensures Sighted(after.jobs[j], seen) {
      assert Sighted(db.jobs[j], seen);
    }
  }

  // ---- merges ----

  lemma MovedPairs(sources: map<nat, Source>, j: nat, into: nat)
    requires j != into && UniqueSources(sources)
    ensures var moved := MovedSources(sources, j, into);
            && UniqueSources(moved)
            && forall i, u :: (i, u) in SourcePairs(moved) <==>
                 i != j && ((i, u) in SourcePairs(sources) || (i == into && (j, u) in SourcePairs(sources)))
  {
    var moved := MovedSources(sources, j, into);
    forall i, u
      ensures (i, u) in SourcePairs(moved) <==>
              i != j && ((i, u) in SourcePairs(sources) || (i == into && (j, u) in SourcePairs(sources)))
    {
      if i != j && (i, u) in SourcePairs(sources) {
        var s :| s in sources && sources[s].job == i && sources[s].url == u;
        assert s in moved;
      } else if i == into && (j, u) in SourcePairs(sources) {
        var s :| s in sources && sources[s].job == j && sources[s].url == u;
        assert forall t :: t in sources ==> (sources[t].job, sources[t].url) in SourcePairs(sources);
        assert s in moved;
      }
      if (i, u) in SourcePairs(moved) {
        var s :| s in moved && moved[s].job == i && moved[s].url == u;
        assert (sources[s].job, sources[s].url) in SourcePairs(sources);
      }
    }
  }

  /** A merge redirects exactly the keys that led to the merged job. */
  lemma MergedTargets(jobs: seq<Job>, merged: seq<Job>, seen: set<Sighting>, j: nat, into: nat)
    requires MergeForest(jobs) && KnownKeys(jobs, seen) && UniqueKeys(merged)
    requires into < j < |jobs| && jobs[j].mergedInto.None? && jobs[into].mergedInto.None?
    requires |merged| == |jobs| && merged[j].mergedInto == Some(into)
    requires forall k :: 0 <= k < |jobs| ==> merged[k].company == jobs[k].company && merged[k].key == jobs[k].key
    requires forall k :: 0 <= k < |jobs| && k != j ==> merged[k].mergedInto == jobs[k].mergedInto
    ensures KnownKeys(merged, seen)
    ensures forall o :: o in seen ==>
      Target(merged, o.company, o.key) ==
      if Target(jobs, o.company, o.key) == j then into else Target(jobs, o.company, o.key)
  {
    forall o | o in seen
      ensures FindKey(merged, o.company, o.key) == FindKey(jobs, o.company, o.key)
      ensures Target(merged, o.company, o.key) ==
              if Target(jobs, o.company, o.key) == j then into else Target(jobs, o.company, o.key)
    {
      MergedRoot(jobs, merged, j, into, FindKey(jobs, o.company, o.key).value);
    }
  }

  lemma MergeKeepsSources(db: Db, after: Db, seen: set<Sighting>, j: nat, into: nat)
    requires SourcesExact(db, seen) && MergeForest(db.jobs) && UniqueKeys(db.jobs)
    requires into < j < |db.jobs| && db.jobs[j].mergedInto.None? && db.jobs[into].mergedInto.None?
    requires after.jobs == MergeInto(db, j, into).jobs
    requires after.sources == MovedSources(db.sources, j, into) && after.nextSource == db.nextSource
    ensures SourcesExact(after, seen)
  {
    hide Target, FindKey, MergeForest, KnownKeys, Image, SourcePairs, UniqueSources;
    MovedPairs(db.sources, j, into);
    assert UniqueKeys(after.jobs);
    MergedTargets(db.jobs, after.jobs, seen, j, into);
    assert SourcePairs(after.sources) == Image(after.jobs, seen) by {
      forall p: (nat, string) ensures p in SourcePairs(after.sources) <==> p in Image(after.jobs, seen) {
        MergedPair(db.jobs, after.jobs, seen, j, into, p.0, p.1);
        assert p == (p.0, p.1);
      }
    }
    forall i | 0 <= i < |after.jobs| ensures Sighted(after.jobs[i], seen) {
      assert Sighted(db.jobs[i], seen);
    }
  }

  lemma MergedPair(jobs: seq<Job>, merged: seq<Job>, seen: set<Sighting>, j: nat, into: nat, i: nat, u: string)
    requires j != into
    requires forall o :: o in seen ==>
      Target(merged, o.company, o.key) ==
      if Target(jobs, o.company, o.key) == j then into else Target(jobs, o.company, o.key)
    ensures (i, u) in Image(merged, seen) <==>
            i != j && ((i, u) in Image(jobs, seen) || (i == into && (j, u) in Image(jobs, seen)))
  {
  }

  // ---- observations ----

  function SightingsOf(company: string, items: seq<Observation>): set<Sighting> {
    set i | 0 <= i < |items| :: Sighting(company, items[i].key, items[i].url)
  }

  lemma NowOwns(db: Db, j: nat, url: string)
    ensures Owns(WithSource(db, j, url), j, url)
  {
    if !Owns(db, j, url) {
      assert WithSource(db, j, url).sources[db.nextSource] == Source(j, url);
    }
  }

  lemma NewSource(db: Db, seen: set<Sighting>, company: string, item: Observation)
    requires SourcesMapped(db, seen)
    requires FindKey(db.jobs, company, item.key).Some?
    ensures SourcesMapped(WithSource(db, Target(db.jobs, company, item.key), item.url),
                          seen + {Sighting(company, item.key, item.url)})
  {
    var j := Target(db.jobs, company, item.key);
    var after := WithSource(db, j, item.url);
    var o := Sighting(company, item.key, item.url);
    var seen' := seen + {o};
    assert Image(db.jobs, seen') == Image(db.jobs, seen) + {(j, item.url)} by {
      assert o in seen';
    }
    assert SourcePairs(after.sources) == SourcePairs(db.sources) + {(j, item.url)} by {
      forall p ensures p in SourcePairs(after.sources) <==> p in SourcePairs(db.sources) + {(j, item.url)} {
        if p in SourcePairs(db.sources) {
          var s :| s in db.sources && p == (db.sources[s].job, db.sources[s].url);
          assert s in after.sources && after.sources[s] == db.sources[s];
        }
        if p == (j, item.url) {
          NowOwns(db, j, item.url);
        }
      }
    }
  }

  lemma SightingsSnoc(company: string, items: seq<Observation>, item: Observation)
    ensures SightingsOf(company, items + [item])
      == SightingsOf(company, items) + {Sighting(company, item.key, item.url)}
  {
    var all := items + [item];
    forall x ensures x in SightingsOf(company, all)
      <==> x in SightingsOf(company, items) + {Sighting(company, item.key, item.url)} {
      if x in SightingsOf(company, items) {
        var i :| 0 <= i < |items| && x == Sighting(company, items[i].key, items[i].url);
        assert all[i] == items[i];
      }
      assert all[|items|] == item;
    }
  }

  lemma {:induction false} NewSources(db: Db, seen: set<Sighting>, company: string, items: seq<Observation>)
    requires SourcesMapped(db, seen)
    requires forall i :: 0 <= i < |items| ==> FindKey(db.jobs, company, items[i].key).Some?
    ensures SourcesMapped(WithSources(db, company, items), seen + SightingsOf(company, items))
  {
    if |items| == 0 {
      assert seen + SightingsOf(company, items) == seen;
    } else {
      var most, last := items[..|items| - 1], items[|items| - 1];
      NewSources(db, seen, company, most);
      SourcesOnly(db, company, most);
      NewSource(WithSources(db, company, most), seen + SightingsOf(company, most), company, last);
      SightingsSnoc(company, most, last);
      assert items == most + [last];
      assert seen + SightingsOf(company, items)
          == seen + SightingsOf(company, most) + {Sighting(company, last.key, last.url)};
    }
  }

  /** The new rows an observation appends: one per key nobody had, in a table of unique keys. */
  ghost predicate Extends(before: seq<Job>, after: seq<Job>, company: string) {
    && before <= after
    && forall j :: |before| <= j < |after| ==> after[j] == NewJob(company, after[j].key)
  }

  ghost predicate KeysKnown(jobs: seq<Job>, company: string, keys: seq<string>) {
    forall i :: 0 <= i < |keys| ==> FindKey(jobs, company, keys[i]).Some?
  }

  lemma KnownStaysKnown(jobs: seq<Job>, after: seq<Job>, company: string, key: string)
    requires jobs <= after && FindKey(jobs, company, key).Some?
    ensures FindKey(after, company, key).Some?
  {
    var j := FindKey(jobs, company, key).value;
    assert after[j] == jobs[j];
  }

  lemma NewKey(before: seq<Job>, company: string, key: string)
    requires UniqueKeys(before) && FindKey(before, company, key).None?
    ensures var after := before + [NewJob(company, key)];
            UniqueKeys(after) && FindKey(after, company, key).Some?
  {
    hide FindKey;
    var after := before + [NewJob(company, key)];
    assert after[|before|].company == company && after[|before|].key == key;
    forall j | 0 <= j < |before| ensures !(after[j].company == company && after[j].key == key) {
      assert after[j] == before[j];
    }
  }

  lemma {:induction false} KeysExtend(jobs: seq<Job>, company: string, keys: seq<string>)
    requires UniqueKeys(jobs)
    ensures var after := WithKeys(jobs, company, keys);
            && Extends(jobs, after, company) && UniqueKeys(after)
            && (forall j :: |jobs| <= j < |after| ==> after[j].key in keys)
  {
    hide UniqueKeys, FindKey;
    if |keys| > 0 {
      var most, last := keys[..|keys| - 1], keys[|keys| - 1];
      KeysExtend(jobs, company, most);
      var before, after := WithKeys(jobs, company, most), WithKeys(jobs, company, keys);
      if FindKey(before, company, last).None? {
        NewKey(before, company, last);
      }
      forall j | |jobs| <= j < |after| ensures after[j].key in keys && after[j] == NewJob(company, after[j].key) {
        if j < |before| {
          assert after[j] == before[j] && before[j].key in most;
        }
      }
    }
  }

  lemma {:induction false} KeysAreKnown(jobs: seq<Job>, company: string, keys: seq<string>)
    requires UniqueKeys(jobs)
    ensures KeysKnown(WithKeys(jobs, company, keys), company, keys)
  {
    hide UniqueKeys, FindKey;
    if |keys| > 0 {
      var most, last := keys[..|keys| - 1], keys[|keys| - 1];
      KeysAreKnown(jobs, company, most);
      KeysExtend(jobs, company, most);
      var before, after := WithKeys(jobs, company, most), WithKeys(jobs, company, keys);
      if FindKey(before, company, last).None? {
        NewKey(before, company, last);
      }
      assert FindKey(after, company, last).Some? && before <= after;
      hide WithKeys;
      forall i | 0 <= i < |most| ensures FindKey(after, company, keys[i]).Some? {
        assert keys[i] == most[i];
        KnownStaysKnown(before, after, company, most[i]);
      }
    }
  }

  lemma NewKeys(jobs: seq<Job>, company: string, keys: seq<string>)
    requires UniqueKeys(jobs)
    ensures var after := WithKeys(jobs, company, keys);
            && Extends(jobs, after, company) && UniqueKeys(after) && KeysKnown(after, company, keys)
            && (forall j :: |jobs| <= j < |after| ==> after[j].key in keys)
  {
    hide UniqueKeys, KeysKnown, Extends, WithKeys;
    KeysExtend(jobs, company, keys);
    KeysAreKnown(jobs, company, keys);
  }

  /** New rows do not move the old targets. */
  lemma ExtendedImage(jobs: seq<Job>, after: seq<Job>, seen: set<Sighting>)
    requires MergeForest(jobs) && UniqueKeys(after) && jobs <= after && KnownKeys(jobs, seen)
    ensures KnownKeys(after, seen) && Image(after, seen) == Image(jobs, seen)
  {
    forall o | o in seen
      ensures FindKey(after, o.company, o.key).Some?
      ensures Target(after, o.company, o.key) == Target(jobs, o.company, o.key)
    {
      SameTarget(jobs, after, o.company, o.key);
    }
  }

  lemma ObserveKeepsSources(db: Db, seen: set<Sighting>, company: string, items: seq<Observation>)
    requires SourcesExact(db, seen) && MergeForest(db.jobs) && UniqueKeys(db.jobs)
    ensures SourcesExact(Observe(db, company, items), seen + SightingsOf(company, items))
  {
    var keys := KeysOf(items);
    var jobs := WithKeys(db.jobs, company, keys);
    NewKeys(db.jobs, company, keys);
    ExtendedImage(db.jobs, jobs, seen);
    forall i | 0 <= i < |items| ensures FindKey(jobs, company, items[i].key).Some? {
      assert keys[i] == items[i].key;
    }
    NewSources(db.(jobs := jobs), seen, company, items);
    SourcesOnly(db.(jobs := jobs), company, items);
    NewJobsSighted(db.jobs, jobs, seen, company, items);
  }

  lemma NewJobsSighted(before: seq<Job>, after: seq<Job>, seen: set<Sighting>, company: string, items: seq<Observation>)
    requires forall j :: 0 <= j < |before| ==> Sighted(before[j], seen)
    requires Extends(before, after, company)
    requires forall j :: |before| <= j < |after| ==> after[j].key in KeysOf(items)
    ensures forall j :: 0 <= j < |after| ==> Sighted(after[j], seen + SightingsOf(company, items))
  {
    forall j | 0 <= j < |after| ensures Sighted(after[j], seen + SightingsOf(company, items)) {
      if j < |before| {
        assert after[j] == before[j];
        var o :| o in seen && o.company == before[j].company && o.key == before[j].key;
        assert o in seen + SightingsOf(company, items);
      } else {
        var i :| 0 <= i < |items| && KeysOf(items)[i] == after[j].key;
        assert Sighting(company, items[i].key, items[i].url) in SightingsOf(company, items);
      }
    }
  }

  /** New rows keep everything else sound: nothing else speaks of them yet. */
  lemma NewJobsKeepSound(db: Db, jobs: seq<Job>, company: string)
    requires Sound(db) && UniqueKeys(jobs) && Extends(db.jobs, jobs, company)
    ensures Sound(db.(jobs := jobs))
  {
    forall j | 0 <= j < |jobs|
      ensures JobRow(jobs[j]) && LeaseRow(jobs[j], j, db.attempts) && VerdictMatches(jobs[j], db.decisions, j)
      ensures jobs[j].content.Some? ==> OwnContent(db.contents, j, jobs[j].content.value)
      ensures jobs[j].status == CompletedEligible ==> Extracted(db.results, j, jobs[j].content)
    {
      if j < |db.jobs| {
        assert jobs[j] == db.jobs[j];
      }
    }
    forall j | 0 <= j < |jobs| && jobs[j].mergedInto.Some?
      ensures jobs[j].mergedInto.value < j && jobs[jobs[j].mergedInto.value].company == jobs[j].company
    {
      assert jobs[j] == db.jobs[j];
    }
  }

  lemma ObserveKeepsSound(db: Db, company: string, items: seq<Observation>)
    requires Sound(db)
    ensures Sound(Observe(db, company, items))
  {
    var jobs := WithKeys(db.jobs, company, KeysOf(items));
    NewKeys(db.jobs, company, KeysOf(items));
    NewJobsKeepSound(db, jobs, company);
    SourcesOnly(db.(jobs := jobs), company, items);
  }

  lemma {:induction false} SourcesOnly(db: Db, company: string, items: seq<Observation>)
    ensures var after := WithSources(db, company, items);
            after == db.(sources := after.sources, nextSource := after.nextSource)
  {
    if |items| > 0 {
      SourcesOnly(db, company, items[..|items| - 1]);
    }
  }
}
