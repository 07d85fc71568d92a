/** Planning a run: queries over the snapshot in chunks of at most 500 keys, against the
    whole table read at once. */
module Planner {
  import opened Models
  import opened Transactions
  import opened Invariants
  import opened Observing

  const CHUNK_SIZE := 500

  datatype Key = Key(company: string, key: string)

  datatype Chunk = Chunk(company: string, keys: seq<string>)

  predicate InChunk(chunk: Chunk, company: string, key: string) {
    chunk.company == company && key in chunk.keys
  }

  predicate Held(chunks: seq<Chunk>, company: string, key: string) {
    exists i :: 0 <= i < |chunks| && InChunk(chunks[i], company, key)
  }

  lemma HeldSnoc(chunks: seq<Chunk>, chunk: Chunk, company: string, key: string)
    ensures Held(chunks + [chunk], company, key) <==> Held(chunks, company, key) || InChunk(chunk, company, key)
  {
    var all := chunks + [chunk];
    if i :| 0 <= i < |chunks| && InChunk(chunks[i], company, key) {
      assert all[i] == chunks[i];
    }
    assert all[|chunks|] == chunk;
  }

  /** No key is asked for twice. */
  ghost predicate Apart(chunks: seq<Chunk>) {
    forall n, company, key :: 0 <= n < |chunks| && InChunk(chunks[n], company, key) ==> !Held(chunks[..n], company, key)
  }

  lemma ApartSnoc(chunks: seq<Chunk>, chunk: Chunk)
    requires Apart(chunks) && forall company, key :: InChunk(chunk, company, key) ==> !Held(chunks, company, key)
    ensures Apart(chunks + [chunk])
  {
    var all := chunks + [chunk];
    forall n, company, key | 0 <= n < |all| && InChunk(all[n], company, key) ensures !Held(all[..n], company, key) {
      assert all[..n] == if n < |chunks| then chunks[..n] else chunks;
    }
  }

  // ---- chunks ----

  /** The keys of each company, as the snapshot lists them. */
  method Grouped(snapshot: seq<Key>) returns (grouped: map<string, seq<string>>)
    ensures forall c, k :: Key(c, k) in snapshot <==> c in grouped && k in grouped[c]
  {
    grouped := map[];
    for i := 0 to |snapshot|
      invariant forall c, k :: Key(c, k) in snapshot[..i] <==> c in grouped && k in grouped[c]
    {
      var company, key := snapshot[i].company, snapshot[i].key;
      assert snapshot[..i + 1] == snapshot[..i] + [snapshot[i]];
      var keys := if company in grouped then grouped[company] else [];
      grouped := grouped[company := keys + [key]];
    }
    assert snapshot[..|snapshot|] == snapshot;
  }

  /** One company's keys, each once, cut every `size` keys and added to the chunks. */
  method AddChunks(before: seq<Chunk>, company: string, keys: seq<string>, size: nat) returns (chunks: seq<Chunk>)
    requires size > 0 && Apart(before) && forall k :: !Held(before, company, k)
    ensures Apart(chunks)
    ensures forall c, k :: Held(chunks, c, k) <==> Held(before, c, k) || (c == company && k in keys)
    ensures before <= chunks && forall i :: |before| <= i < |chunks| ==> 0 < |chunks[i].keys| <= size
  {
    hide Held, Apart;
    chunks := before;
    var distinct := Distinct(keys);
    var offset := 0;
    assert distinct[..0] == [];
    while offset < |distinct|
      invariant 0 <= offset && Apart(chunks)
      invariant forall c, k :: Held(chunks, c, k) <==>
        Held(before, c, k) || (c == company && k in distinct[..if offset < |distinct| then offset else |distinct|])
      invariant before <= chunks && forall i :: |before| <= i < |chunks| ==> 0 < |chunks[i].keys| <= size
    {
      var end := if offset + size < |distinct| then offset + size else |distinct|;
      var chunk := Chunk(company, distinct[offset..end]);
      forall c, k | InChunk(chunk, c, k) ensures !Held(chunks, c, k) {
        assert !Held(before, company, k) && k !in distinct[..offset];
      }
      ApartSnoc(chunks, chunk);
      assert distinct[..end] == distinct[..offset] + distinct[offset..end];
      forall c, k ensures Held(chunks + [chunk], c, k)
        <==> Held(before, c, k) || (c == company && k in distinct[..end]) {
        HeldSnoc(chunks, chunk, c, k);
      }
      chunks := chunks + [chunk];
      offset := offset + size;
    }
    assert distinct[..|distinct|] == distinct;
  }

  /** `_snapshot_chunks`: the chunks ask for exactly the snapshot's keys, each once.  The
      companies may come in any order. */
  method SnapshotChunks(snapshot: seq<Key>, size: nat) returns (chunks: seq<Chunk>)
    requires size > 0
    ensures Apart(chunks)
    ensures forall c, k :: Held(chunks, c, k) <==> Key(c, k) in snapshot
    ensures forall i :: 0 <= i < |chunks| ==> 0 < |chunks[i].keys| <= size
  {
    hide Held, Apart;
    var grouped := Grouped(snapshot);
    chunks := [];
    NoChunks();
    var rest := grouped.Keys;
    while rest != {}
      invariant rest <= grouped.Keys && Apart(chunks)
      invariant forall c, k :: Held(chunks, c, k) <==> c in grouped && c !in rest && k in grouped[c]
      invariant forall i :: 0 <= i < |chunks| ==> 0 < |chunks[i].keys| <= size
      decreases |rest|
    {
      var company :| company in rest;
      rest := rest - {company};
      chunks := AddChunks(chunks, company, grouped[company], size);
    }
  }

  lemma NoChunks()
    ensures Apart([]) && forall c, k :: !Held([], c, k)
  {
  }

  // ---- rows ----

  /** The ids, in order, of the rows of the whole table that pass `p`. */
  function Where(jobs: seq<Job>, p: Job -> bool): (ids: seq<nat>)
    ensures forall j: nat :: j in ids <==> j < |jobs| && p(jobs[j])
    ensures forall x, y :: 0 <= x < y < |ids| ==> ids[x] < ids[y]
  {
    Select(|jobs|, (j: nat) => j < |jobs| && p(jobs[j]))
  }

  lemma {:induction false} SelectSplits(n: nat, p: nat -> bool, q: nat -> bool, r: nat -> bool)
    requires forall i: nat :: i < n ==> (r(i) <==> p(i) || q(i)) && !(p(i) && q(i))
    ensures |Select(n, r)| == |Select(n, p)| + |Select(n, q)|
  {
    if n > 0 {
      SelectSplits(n - 1, p, q, r);
    }
  }

  /** Rows that pass one of two tests, never both, are counted by the two counts. */
  lemma WhereSplits(jobs: seq<Job>, p: Job -> bool, q: Job -> bool, r: Job -> bool)
    requires forall j :: 0 <= j < |jobs| ==> (r(jobs[j]) <==> p(jobs[j]) || q(jobs[j])) && !(p(jobs[j]) && q(jobs[j]))
    ensures |Where(jobs, r)| == |Where(jobs, p)| + |Where(jobs, q)|
  {
    SelectSplits(|jobs|, (j: nat) => j < |jobs| && p(jobs[j]), (j: nat) => j < |jobs| && q(jobs[j]),
                 (j: nat) => j < |jobs| && r(jobs[j]));
  }

  lemma {:induction false} SameSelect(n: nat, p: nat -> bool, q: nat -> bool)
    requires forall i: nat :: i < n ==> (p(i) <==> q(i))
    ensures Select(n, p) == Select(n, q)
  {
    if n > 0 {
      SameSelect(n - 1, p, q);
    }
  }

  lemma SameWhere(jobs: seq<Job>, p: Job -> bool, q: Job -> bool)
    requires forall j :: 0 <= j < |jobs| ==> (p(jobs[j]) <==> q(jobs[j]))
    ensures Where(jobs, p) == Where(jobs, q)
  {
    SameSelect(|jobs|, (j: nat) => j < |jobs| && p(jobs[j]), (j: nat) => j < |jobs| && q(jobs[j]));
  }

  lemma {:induction false} SelectNone(n: nat, p: nat -> bool)
    requires forall i: nat :: i < n ==> !p(i)
    ensures Select(n, p) == []
  {
    if n > 0 {
      SelectNone(n - 1, p);
    }
  }

  lemma NoneWhere(jobs: seq<Job>, p: Job -> bool)
    requires forall j :: 0 <= j < |jobs| ==> !p(jobs[j])
    ensures Where(jobs, p) == []
  {
    SelectNone(|jobs|, (j: nat) => j < |jobs| && p(jobs[j]));
  }

  // ---- work ----

  predicate Listed(snapshot: seq<Key>, job: Job) {
    Key(job.company, job.key) in snapshot
  }

  /** All work of a stage: the snapshot's claimable jobs, in id order. */
  function Work(jobs: seq<Job>, snapshot: seq<Key>, now: nat, stage: Stage, reprocess: bool): seq<nat> {
    Where(jobs, (job: Job) => Listed(snapshot, job) && Claimable(job, stage, now, reprocess))
  }

  function Cut(ids: seq<nat>, limit: Option<nat>): seq<nat> {
    if limit.Some? && limit.value < |ids| then ids[..limit.value] else ids
  }

  /** What is listed is claimable and in the snapshot, in id order and within the limit; and what
      is left out of it is left out for the limit's sake, and younger than all that is in. */
  lemma OldestAreListed(jobs: seq<Job>, snapshot: seq<Key>, now: nat, limit: Option<nat>, stage: Stage,
                        reprocess: bool)
    ensures var ids := Cut(Work(jobs, snapshot, now, stage, reprocess), limit);
      && Increasing(ids) && (limit.Some? ==> |ids| <= limit.value)
      && (forall j :: j in ids ==>
            j < |jobs| && Key(jobs[j].company, jobs[j].key) in snapshot && Claimable(jobs[j], stage, now, reprocess))
      && (forall j: nat | j < |jobs| && j !in ids ::
            Key(jobs[j].company, jobs[j].key) in snapshot && Claimable(jobs[j], stage, now, reprocess)
            ==> limit == Some(|ids|) && forall k :: k in ids ==> k < j)
  {
    hide Claimable, Where;
    var p := (job: Job) => Listed(snapshot, job) && Claimable(job, stage, now, reprocess);
    var all, ids := Where(jobs, p), Cut(Work(jobs, snapshot, now, stage, reprocess), limit);
    assert Work(jobs, snapshot, now, stage, reprocess) == all;
    forall j | j in ids ensures j in all {
    }
    forall j: nat | j in all && j !in ids ensures limit == Some(|ids|) && forall k :: k in ids ==> k < j {
      var x :| 0 <= x < |all| && all[x] == j;
      assert x >= |ids|;
    }
  }

  function ChunkWork(jobs: seq<Job>, chunk: Chunk, now: nat, stage: Stage, reprocess: bool): (ids: seq<nat>)
    ensures forall j :: j in ids ==> j < |jobs|
  {
    Where(jobs, (job: Job) => InChunk(chunk, job.company, job.key) && Claimable(job, stage, now, reprocess))
  }

  function WorkSoFar(jobs: seq<Job>, chunks: seq<Chunk>, now: nat, stage: Stage, reprocess: bool): seq<nat> {
    Where(jobs, (job: Job) => Held(chunks, job.company, job.key) && Claimable(job, stage, now, reprocess))
  }

  lemma WorkSnoc(jobs: seq<Job>, chunks: seq<Chunk>, chunk: Chunk, now: nat, stage: Stage, reprocess: bool)
    requires forall c, k :: InChunk(chunk, c, k) ==> !Held(chunks, c, k)
    ensures |WorkSoFar(jobs, chunks + [chunk], now, stage, reprocess)|
         == |WorkSoFar(jobs, chunks, now, stage, reprocess)| + |ChunkWork(jobs, chunk, now, stage, reprocess)|
    ensures forall j: nat :: j in WorkSoFar(jobs, chunks + [chunk], now, stage, reprocess) <==>
      j in WorkSoFar(jobs, chunks, now, stage, reprocess) || j in ChunkWork(jobs, chunk, now, stage, reprocess)
  {
    hide Where, Held, Claimable;
    var p := (job: Job) => Held(chunks, job.company, job.key) && Claimable(job, stage, now, reprocess);
    var q := (job: Job) => InChunk(chunk, job.company, job.key) && Claimable(job, stage, now, reprocess);
    var r := (job: Job) => Held(chunks + [chunk], job.company, job.key) && Claimable(job, stage, now, reprocess);
    forall j | 0 <= j < |jobs|
      ensures (r(jobs[j]) <==> p(jobs[j]) || q(jobs[j])) && !(p(jobs[j]) && q(jobs[j]))
    {
      HeldSnoc(chunks, chunk, jobs[j].company, jobs[j].key);
    }
    WhereSplits(jobs, p, q, r);
    assert Where(jobs, r) == WorkSoFar(jobs, chunks + [chunk], now, stage, reprocess);
    assert Where(jobs, p) == WorkSoFar(jobs, chunks, now, stage, reprocess);
    assert Where(jobs, q) == ChunkWork(jobs, chunk, now, stage, reprocess);
  }

  lemma AllChunksAreAllWork(jobs: seq<Job>, chunks: seq<Chunk>, snapshot: seq<Key>, now: nat, stage: Stage,
                            reprocess: bool)
    requires forall c, k :: Held(chunks, c, k) <==> Key(c, k) in snapshot
    ensures WorkSoFar(jobs, chunks, now, stage, reprocess) == Work(jobs, snapshot, now, stage, reprocess)
  {
    hide Where, Held, Claimable;
    SameWhere(jobs, (job: Job) => Held(chunks, job.company, job.key) && Claimable(job, stage, now, reprocess),
              (job: Job) => Listed(snapshot, job) && Claimable(job, stage, now, reprocess));
  }

  lemma NoWork(jobs: seq<Job>, now: nat, stage: Stage, reprocess: bool)
    ensures WorkSoFar(jobs, [], now, stage, reprocess) == []
    ensures Work(jobs, [], now, stage, reprocess) == []
  {
    NoChunks();
    hide Where, Held, Claimable;
    NoneWhere(jobs, (job: Job) => Held([], job.company, job.key) && Claimable(job, stage, now, reprocess));
    NoneWhere(jobs, (job: Job) => Listed([], job) && Claimable(job, stage, now, reprocess));
  }

  /** `list_work`: chunk by chunk into a dictionary by id, then sorted and cut.  This is the
      whole table filtered at once, in id order, cut at the limit. */
  method ListWork(jobs: seq<Job>, snapshot: seq<Key>, now: nat, limit: Option<nat>, stage: Stage, reprocess: bool)
    returns (ids: seq<nat>)
    ensures ids == Cut(Work(jobs, snapshot, now, stage, reprocess), limit)
  {
    hide Where, Held, Apart, Claimable, WorkSoFar, ChunkWork;
    NoWork(jobs, now, stage, reprocess);
    if |snapshot| == 0 || limit == Some(0) {
      return [];
    }
    var chunks := SnapshotChunks(snapshot, CHUNK_SIZE);
    var found: map<nat, Job> := map[];
    for n := 0 to |chunks|
      invariant forall j: nat :: j in found <==> j in WorkSoFar(jobs, chunks[..n], now, stage, reprocess)
    {
      ChunkIsApart(chunks, n);
      WorkSnoc(jobs, chunks[..n], chunks[n], now, stage, reprocess);
      assert chunks[..n + 1] == chunks[..n] + [chunks[n]];
      found := found + map j: nat | j in ChunkWork(jobs, chunks[n], now, stage, reprocess) && j < |jobs| :: jobs[j];
    }
    assert chunks[..|chunks|] == chunks;
    AllChunksAreAllWork(jobs, chunks, snapshot, now, stage, reprocess);
    var ordered := Sorted(|jobs|, found.Keys);
    SortedWork(jobs, snapshot, now, stage, reprocess, found.Keys);
    ids := Cut(ordered, limit);
  }

  function Sorted(n: nat, ids: set<nat>): seq<nat> {
    Select(n, (j: nat) => j in ids)
  }

  lemma SortedWork(jobs: seq<Job>, snapshot: seq<Key>, now: nat, stage: Stage, reprocess: bool, ids: set<nat>)
    requires forall j: nat :: j in ids <==> j in Work(jobs, snapshot, now, stage, reprocess)
    ensures Sorted(|jobs|, ids) == Work(jobs, snapshot, now, stage, reprocess)
  {
    hide Listed, Claimable;
    var p := (job: Job) => Listed(snapshot, job) && Claimable(job, stage, now, reprocess);
    assert forall j: nat :: j in ids <==> j in Where(jobs, p);
    SameSelect(|jobs|, (j: nat) => j in ids, (j: nat) => j < |jobs| && p(jobs[j]));
  }

  lemma ChunkIsApart(chunks: seq<Chunk>, n: nat)
    requires Apart(chunks) && n < |chunks|
    ensures forall c, k :: InChunk(chunks[n], c, k) ==> !Held(chunks[..n], c, k)
  {
  }

  /** `count_work`: the chunk counts add up to the size of the whole list. */
  method CountWork(jobs: seq<Job>, snapshot: seq<Key>, now: nat, stage: Stage) returns (total: nat)
    ensures total == |Work(jobs, snapshot, now, stage, false)|
  {
    hide Where, Held, Apart, Claimable, WorkSoFar, ChunkWork;
    NoWork(jobs, now, stage, false);
    var chunks := SnapshotChunks(snapshot, CHUNK_SIZE);
    total := 0;
    for n := 0 to |chunks|
      invariant total == |WorkSoFar(jobs, chunks[..n], now, stage, false)|
    {
      ChunkIsApart(chunks, n);
      WorkSnoc(jobs, chunks[..n], chunks[n], now, stage, false);
      assert chunks[..n + 1] == chunks[..n] + [chunks[n]];
      total := total + |ChunkWork(jobs, chunks[n], now, stage, false)|;
    }
    assert chunks[..|chunks|] == chunks;
    AllChunksAreAllWork(jobs, chunks, snapshot, now, stage, false);
  }

  /** The preview promises as many jobs as the run then lists, whatever the limit. */
  method Preview(jobs: seq<Job>, snapshot: seq<Key>, now: nat, limit: Option<nat>, stage: Stage) returns (promised: nat)
    ensures promised == |Cut(Work(jobs, snapshot, now, stage, false), limit)|
  {
    var total := CountWork(jobs, snapshot, now, stage);
    promised := if limit.Some? && limit.value < total then limit.value else total;
  }
}
