/** Observing every selected company in turn, and reading the same snapshot back later. */
module Observer {
  import opened Models
  import opened Transactions
  import opened Invariants
  import opened Sources
  import opened Observing
  import opened Planner
  import opened Stores

  /** What discovery lists for one company. */
  datatype Listing = Listing(company: string, urls: seq<string>)

  datatype CompanyObservation = CompanyObservation(company: string, rawUrls: nat, snapshotJobs: nat, added: nat,
                                                   reseen: nat, malformed: nat)
  {
    function Collapsed(): int {
      rawUrls - malformed - snapshotJobs
    }
  }

  datatype ObservationSummary = ObservationSummary(companies: seq<CompanyObservation>, snapshotKeys: set<Key>)

  /** The URLs that have an identity key, each with its key; `keyOf` is None where `url_key`
      raises. */
  function Keyed(urls: seq<string>, keyOf: string -> Option<string>): seq<Observation> {
    if |urls| == 0 then []
    else
      var n := |urls| - 1;
      var most := Keyed(urls[..n], keyOf);
      match keyOf(urls[n])
      case Some(key) => most + [Observation(key, urls[n])]
      case None => most
  }

  function UrlsOf(pairs: seq<Observation>): (urls: seq<string>)
    ensures |urls| == |pairs| && forall x :: 0 <= x < |urls| ==> urls[x] == pairs[x].url
  {
    seq(|pairs|, x requires 0 <= x < |pairs| => pairs[x].url)
  }

  lemma KeyedSnoc(urls: seq<string>, url: string, keyOf: string -> Option<string>)
    ensures Keyed(urls + [url], keyOf) ==
      if keyOf(url).Some? then Keyed(urls, keyOf) + [Observation(keyOf(url).value, url)] else Keyed(urls, keyOf)
  {
    assert (urls + [url])[..|urls|] == urls;
  }

  lemma UrlsSnoc(pairs: seq<Observation>, pair: Observation)
    ensures UrlsOf(pairs + [pair]) == UrlsOf(pairs) + [pair.url]
  {
  }

  lemma NothingKeyed(urls: seq<string>, keyOf: string -> Option<string>)
    requires urls == []
    ensures IsPick(UrlsOf(Keyed(urls, keyOf)), urls, []) && Keyed(urls, keyOf) == []
  {
  }

  /** One pair for every URL that has a key, with that key, in the order of the URLs. */
  lemma {:induction false} KeyedInOrder(urls: seq<string>, keyOf: string -> Option<string>) returns (at: seq<nat>)
    ensures IsPick(UrlsOf(Keyed(urls, keyOf)), urls, at)
    ensures forall i: nat :: i in at <==> i < |urls| && keyOf(urls[i]).Some?
    ensures forall pair :: pair in Keyed(urls, keyOf) ==> keyOf(pair.url) == Some(pair.key)
  {
    hide IsPick, Keyed, UrlsOf;
    if |urls| == 0 {
      at := [];
      NothingKeyed(urls, keyOf);
    } else {
      var most, last := urls[..|urls| - 1], urls[|urls| - 1];
      var before := KeyedInOrder(most, keyOf);
      PickMore(UrlsOf(Keyed(most, keyOf)), most, before, last);
      assert most + [last] == urls;
      KeyedSnoc(most, last, keyOf);
      at := if keyOf(last).Some? then before + [|most|] else before;
      if keyOf(last).Some? {
        UrlsSnoc(Keyed(most, keyOf), Observation(keyOf(last).value, last));
      }
    }
  }

  /** `keyed_urls`: what is skipped is counted. */
  method KeyedUrls(urls: seq<string>, keyOf: string -> Option<string>) returns (pairs: seq<Observation>, malformed: nat)
    ensures pairs == Keyed(urls, keyOf) && |pairs| + malformed == |urls|
  {
    pairs, malformed := [], 0;
    for n := 0 to |urls|
      invariant pairs == Keyed(urls[..n], keyOf) && |pairs| + malformed == n
    {
      assert urls[..n + 1][..n] == urls[..n];
      match keyOf(urls[n]) {
        case Some(key) => pairs := pairs + [Observation(key, urls[n])];
        case None => malformed := malformed + 1;
      }
    }
    assert urls[..|urls|] == urls;
  }

  function ListedKeys(listing: Listing, keyOf: string -> Option<string>): set<string> {
    KeySet(KeysOf(Keyed(listing.urls, keyOf)))
  }

  /** The canonical jobs behind one listing, named by company and key. */
  function CompanySnapshot(jobs: seq<Job>, listing: Listing, keyOf: string -> Option<string>): set<Key> {
    set k | k in SnapshotKeys(jobs, listing.company, ListedKeys(listing, keyOf)) :: Key(listing.company, k)
  }

  function Snapshot(jobs: seq<Job>, listings: seq<Listing>, keyOf: string -> Option<string>): set<Key> {
    if |listings| == 0 then {}
    else Snapshot(jobs, listings[..|listings| - 1], keyOf) + CompanySnapshot(jobs, listings[|listings| - 1], keyOf)
  }

  function ObserveEach(db: Db, listings: seq<Listing>, keyOf: string -> Option<string>): Db {
    if |listings| == 0 then db
    else
      var n := |listings| - 1;
      Transactions.Observe(ObserveEach(db, listings[..n], keyOf), listings[n].company, Keyed(listings[n].urls, keyOf))
  }

  // ---- one observation leaves the earlier ones as they were ----

  ghost predicate Good(jobs: seq<Job>) {
    MergeForest(jobs) && UniqueKeys(jobs)
  }

  /** Every key of these listings has its job. */
  ghost predicate AllKnown(jobs: seq<Job>, listings: seq<Listing>, keyOf: string -> Option<string>) {
    forall n :: 0 <= n < |listings| ==> KeysKnown(jobs, listings[n].company, KeysOf(Keyed(listings[n].urls, keyOf)))
  }

  lemma ObserveStaysGood(db: Db, company: string, items: seq<Observation>)
    requires Good(db.jobs)
    ensures var after := Transactions.Observe(db, company, items);
      && Good(after.jobs) && SameMerges(db.jobs, after.jobs) && db.jobs <= after.jobs
      && KeysKnown(after.jobs, company, KeysOf(items))
  {
    hide UniqueKeys, KeysKnown, MergeForest, WithKeys;
    NewKeys(db.jobs, company, KeysOf(items));
    SourcesOnly(db.(jobs := WithKeys(db.jobs, company, KeysOf(items))), company, items);
    ForestGrows(db.jobs, Transactions.Observe(db, company, items).jobs, company);
  }

  lemma {:induction false} SnapshotCarries(jobs: seq<Job>, later: seq<Job>, listings: seq<Listing>,
                                           keyOf: string -> Option<string>)
    requires Good(jobs) && Good(later) && SameMerges(jobs, later) && AllKnown(jobs, listings, keyOf)
    ensures Snapshot(later, listings, keyOf) == Snapshot(jobs, listings, keyOf)
  {
    hide SameMerges, MergeForest, UniqueKeys, KeysKnown, SnapshotKeys;
    if |listings| > 0 {
      var n := |listings| - 1;
      assert AllKnown(jobs, listings[..n], keyOf) by {
        assert forall i :: 0 <= i < n ==> listings[..n][i] == listings[i];
      }
      SnapshotCarries(jobs, later, listings[..n], keyOf);
      SnapshotStays(jobs, later, listings[n].company, KeysOf(Keyed(listings[n].urls, keyOf)));
    }
  }

  lemma KnownStays(jobs: seq<Job>, later: seq<Job>, listings: seq<Listing>, keyOf: string -> Option<string>)
    requires jobs <= later && AllKnown(jobs, listings, keyOf)
    ensures AllKnown(later, listings, keyOf)
  {
    hide FindKey;
    forall n | 0 <= n < |listings|
      ensures KeysKnown(later, listings[n].company, KeysOf(Keyed(listings[n].urls, keyOf))) {
      var keys := KeysOf(Keyed(listings[n].urls, keyOf));
      assert KeysKnown(jobs, listings[n].company, keys);
      forall i | 0 <= i < |keys| ensures FindKey(later, listings[n].company, keys[i]).Some? {
        KnownStaysKnown(jobs, later, listings[n].company, keys[i]);
      }
    }
  }

  lemma OneMore(db: Db, listings: seq<Listing>, n: nat, keyOf: string -> Option<string>, after: Db)
    requires n < |listings| && Good(db.jobs) && AllKnown(db.jobs, listings[..n], keyOf)
    requires after == Transactions.Observe(db, listings[n].company, Keyed(listings[n].urls, keyOf))
    ensures Good(after.jobs) && AllKnown(after.jobs, listings[..n + 1], keyOf)
    ensures Snapshot(after.jobs, listings[..n + 1], keyOf)
         == Snapshot(db.jobs, listings[..n], keyOf) + CompanySnapshot(after.jobs, listings[n], keyOf)
  {
    hide Good, KeysKnown, Transactions.Observe, CompanySnapshot, SameMerges;
    ObserveStaysGood(db, listings[n].company, Keyed(listings[n].urls, keyOf));
    SnapshotCarries(db.jobs, after.jobs, listings[..n], keyOf);
    KnownStays(db.jobs, after.jobs, listings[..n], keyOf);
    assert listings[..n + 1][..n] == listings[..n];
    forall i | 0 <= i < n + 1
      ensures KeysKnown(after.jobs, listings[i].company, KeysOf(Keyed(listings[i].urls, keyOf)))
    {
      if i < n {
        assert listings[..n][i] == listings[i];
      }
    }
  }

  // ---- the two loops ----

  /** What is told of one company: its URLs, those without a key, the distinct keys as new and seen
      before, the jobs that were added for them, and the canonical jobs behind them. */
  ghost predicate Summarizes(c: CompanyObservation, listing: Listing, keyOf: string -> Option<string>,
                             before: seq<Job>, after: seq<Job>)
  {
    && c.company == listing.company && c.rawUrls == |listing.urls|
    && c.malformed == |listing.urls| - |Keyed(listing.urls, keyOf)|
    && c.added == |after| - |before| && c.added + c.reseen == |ListedKeys(listing, keyOf)|
    && c.snapshotJobs == |SnapshotKeys(after, listing.company, ListedKeys(listing, keyOf))| && c.Collapsed() >= 0
  }

  /** `observe`: one transaction a company, here one right after the other; in the source a
      merge may fall between two companies, and then the keys of the earlier one are those of
      the moment it was observed.  On a table whose merges end, it reports exactly
      the canonical jobs of everything it was given, and never a negative collapse. */
  method ObserveAll(store: Store, listings: seq<Listing>, keyOf: string -> Option<string>)
    returns (r: Ret<ObservationSummary>)
    modifies store
    ensures Good(old(store.jobs)) ==>
      && r.Ok? && store.View() == ObserveEach(old(store.View()), listings, keyOf)
      && r.value.snapshotKeys == Snapshot(store.jobs, listings, keyOf)
      && |r.value.companies| == |listings|
      && (forall n :: 0 <= n < |listings| ==>
            Summarizes(r.value.companies[n], listings[n], keyOf,
                       ObserveEach(old(store.View()), listings[..n], keyOf).jobs,
                       ObserveEach(old(store.View()), listings[..n + 1], keyOf).jobs))
      && Good(store.jobs) && AllKnown(store.jobs, listings, keyOf)
  {
    hide Good, AllKnown, Transactions.Observe, ListedKeys, SnapshotKeys;
    ghost var before := store.View();
    ghost var good := Good(store.jobs);
    var summaries: seq<CompanyObservation> := [];
    var snapshotKeys: set<Key> := {};
    NothingKnown(store.jobs, keyOf);
    assert listings[..0] == [];
    for n := 0 to |listings|
      invariant good ==>
        && store.View() == ObserveEach(before, listings[..n], keyOf)
        && Good(store.jobs) && AllKnown(store.jobs, listings[..n], keyOf)
        && snapshotKeys == Snapshot(store.jobs, listings[..n], keyOf)
      invariant |summaries| == n
      invariant good ==> forall i :: 0 <= i < n ==>
        Summarizes(summaries[i], listings[i], keyOf, ObserveEach(before, listings[..i], keyOf).jobs,
                   ObserveEach(before, listings[..i + 1], keyOf).jobs)
    {
      var company := listings[n].company;
      var items, malformed := KeyedUrls(listings[n].urls, keyOf);
      ghost var db := store.View();
      var observed := ObserveOne(store, listings[n], items, keyOf);
      if observed.Err? {
        return Err(observed.error);
      }
      var summary := observed.value;
      snapshotKeys := snapshotKeys + set k | k in summary.snapshotKeys :: Key(company, k);
      summaries := summaries
        + [CompanyObservation(company, |listings[n].urls|, |summary.snapshotKeys|, summary.added, summary.reseen,
                              malformed)];
      assert listings[..n + 1][..n] == listings[..n];
      if good {
        OneMore(db, listings, n, keyOf, store.View());
      }
    }
    assert listings[..|listings|] == listings;
    r := Ok(ObservationSummary(summaries, snapshotKeys));
  }

  lemma NothingKnown(jobs: seq<Job>, keyOf: string -> Option<string>)
    ensures AllKnown(jobs, [], keyOf)
  {
  }

  lemma KeySetSize(keys: seq<string>)
    ensures |KeySet(keys)| <= |keys|
  {
    DistinctCount(keys);
  }

  method ObserveOne(store: Store, listing: Listing, items: seq<Observation>, keyOf: string -> Option<string>)
    returns (r: Ret<ObserveSummary>)
    requires items == Keyed(listing.urls, keyOf)
    modifies store
    ensures Good(old(store.jobs)) ==>
      && r.Ok? && store.View() == Transactions.Observe(old(store.View()), listing.company, items)
      && (set k | k in r.value.snapshotKeys :: Key(listing.company, k)) == CompanySnapshot(store.jobs, listing, keyOf)
      && r.value.snapshotKeys == SnapshotKeys(store.jobs, listing.company, ListedKeys(listing, keyOf))
      && |r.value.snapshotKeys| <= |items| && |store.jobs| == |old(store.jobs)| + r.value.added
      && r.value.added + r.value.reseen == |ListedKeys(listing, keyOf)|
  {
    hide MergeForest, UniqueKeys, SnapshotKeys, Transactions.Observe, KeySet;
    r := store.Observe(listing.company, items);
    KeySetSize(KeysOf(items));
  }

  /** `read_snapshot_keys`: the read-only walk, company by company. */
  method ReadSnapshotKeys(store: Store, listings: seq<Listing>, keyOf: string -> Option<string>)
    returns (r: Ret<set<Key>>)
    ensures Good(store.jobs) ==> r == Ok(Snapshot(store.jobs, listings, keyOf))
  {
    hide MergeForest, UniqueKeys, SnapshotKeys;
    var keys: set<Key> := {};
    for n := 0 to |listings|
      invariant Good(store.jobs) ==> keys == Snapshot(store.jobs, listings[..n], keyOf)
    {
      var company := listings[n].company;
      var pairs, _ := KeyedUrls(listings[n].urls, keyOf);
      var canonical := store.CanonicalKeys(company, KeySet(KeysOf(pairs)));
      if canonical.Err? {
        return Err(canonical.error);
      }
      assert listings[..n + 1][..n] == listings[..n];
      keys := keys + set k | k in canonical.value :: Key(company, k);
    }
    assert listings[..|listings|] == listings;
    r := Ok(keys);
  }

  /** Reading the listings back, before anything is merged, gives exactly the snapshot the
      observation reported. */
  method ObserveThenRead(store: Store, listings: seq<Listing>, keyOf: string -> Option<string>)
    returns (observed: Ret<ObservationSummary>, read: Ret<set<Key>>)
    modifies store
    ensures Good(old(store.jobs)) ==> observed.Ok? && read == Ok(observed.value.snapshotKeys)
  {
    observed := ObserveAll(store, listings, keyOf);
    read := ReadSnapshotKeys(store, listings, keyOf);
  }
}
