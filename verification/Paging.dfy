/** The Coveo search loop: pages are requested at the number of records received so far. */
module Paging {
  import opened Models
  import opened Observing

  const PAGE_SIZE := 100
  const MAX_PAGES := 10

  /** One element of a results array: not an object, or a record with its re-verified region
      and its clickUri when that is a string. */
  datatype Record = NotAnObject | Record(inRegion: bool, clickUri: Option<string>)

  /** A response: its results array, unless it is not one, and its integer totalCount. */
  datatype Response = NoResults | Response(records: seq<Record>, totalCount: Option<int>)

  /** What the endpoint answers to a request for PAGE_SIZE records from an offset on. */
  type Endpoint = nat -> Response

  datatype Report = Report(jobs: seq<string>, failed: bool, recordsSeen: nat, pages: nat)

  predicate Usable(record: Record) {
    record.Record? && record.inRegion && record.clickUri.Some? && record.clickUri.value != ""
  }

  /** The click URIs of the usable records, in order. */
  function Uris(records: seq<Record>): seq<string> {
    if |records| == 0 then []
    else
      var n := |records| - 1;
      Uris(records[..n]) + if Usable(records[n]) then [records[n].clickUri.value] else []
  }

  lemma UrisSnoc(records: seq<Record>, record: Record)
    ensures Uris(records + [record]) == if Usable(record) then Uris(records) + [record.clickUri.value]
      else Uris(records)
  {
    assert (records + [record])[..|records|] == records;
  }

  /** One URI for every record in the region that has one, in the order of the records. */
  lemma {:induction false} UrisAreUsable(records: seq<Record>) returns (at: seq<nat>)
    ensures Increasing(at) && |at| == |Uris(records)|
    ensures forall i: nat :: i in at <==> i < |records| && Usable(records[i])
    ensures forall x :: 0 <= x < |at| ==>
      at[x] < |records| && records[at[x]].Record? && records[at[x]].clickUri == Some(Uris(records)[x])
  {
    at := [];
    if |records| > 0 {
      var n := |records| - 1;
      at := UrisAreUsable(records[..n]);
      if Usable(records[n]) {
        at := at + [n];
      }
    }
  }

  /** The inner loop: one page's records, after those already processed. */
  method ProcessPage(before: seq<string>, seenBefore: set<string>, page: seq<Record>, ghost earlier: seq<Record>)
    returns (jobs: seq<string>, seen: set<string>)
    requires before == Distinct(Uris(earlier)) && forall u :: u in seenBefore <==> u in before
    ensures jobs == Distinct(Uris(earlier + page)) && forall u :: u in seen <==> u in jobs
  {
    hide Uris, Distinct;
    jobs, seen := before, seenBefore;
    assert earlier + page[..0] == earlier;
    for n := 0 to |page|
      invariant jobs == Distinct(Uris(earlier + page[..n]))
      invariant forall u :: u in seen <==> u in jobs
    {
      ghost var done := earlier + page[..n];
      assert earlier + page[..n + 1] == done + [page[n]];
      UrisSnoc(done, page[n]);
      match page[n] {
        case NotAnObject =>
        case Record(inRegion, clickUri) =>
          if inRegion && clickUri.Some? && clickUri.value != "" {
            DistinctSnoc(Uris(done), clickUri.value);
            if clickUri.value !in seen {
              seen := seen + {clickUri.value};
              jobs := jobs + [clickUri.value];
            }
          }
      }
    }
    assert page[..|page|] == page;
  }

  /** A server with a fixed list of records: at every offset it answers with a prefix of what
      is left, empty only where nothing is left, and always the same count. */
  ghost predicate Serves(endpoint: Endpoint, records: seq<Record>, total: Option<int>) {
    forall offset: nat :: offset <= |records| ==>
      endpoint(offset).Response? && endpoint(offset).totalCount == total
      && endpoint(offset).records <= records[offset..]
      && (offset < |records| ==> |endpoint(offset).records| > 0)
  }

  /** The paging loop.  Against any server with a fixed list it processes a prefix of the list
      with no gap and no repeat, emits each usable click URI in it once, in order, and stops
      short of the end only without a count, with the count satisfied, or at the page cap. */
  method Extract(endpoint: Endpoint, ghost records: seq<Record>, ghost total: Option<int>) returns (r: Report)
    ensures r.failed ==> r.jobs == []
    ensures r.pages <= 10
    ensures Serves(endpoint, records, total) ==>
      && !r.failed
      && r.recordsSeen <= |records| && r.jobs == Distinct(Uris(records[..r.recordsSeen]))
      && (r.recordsSeen == |records| || total.None? || r.recordsSeen >= total.value || r.pages == MAX_PAGES)
      && (total.None? ==> r.pages == 1 && r.recordsSeen == |endpoint(0).records|)
      && (FullPages(endpoint, records) && total == Some(|records|) ==>
            r.recordsSeen == if |records| < 1000 then |records| else 1000)
  {
    hide Uris, Distinct;
    var jobs: seq<string> := [];
    var seen: set<string> := {};
    var totalCount: Option<int> := None;
    var recordsSeen: nat := 0;
    var page := 0;
    ghost var received: seq<Record> := [];
    ghost var honest := Serves(endpoint, records, total);
    NoUris();
    while page < MAX_PAGES
      invariant 0 <= page <= MAX_PAGES
      invariant page == 0 ==> recordsSeen == 0 && totalCount.None?
      invariant recordsSeen == |received| && jobs == Distinct(Uris(received))
      invariant honest ==>
        && recordsSeen <= |records| && received == records[..recordsSeen]
        && (page > 0 ==> total.Some? && totalCount == total && recordsSeen < total.value)
        && (FullPages(endpoint, records) && total == Some(|records|) ==>
              recordsSeen == if |records| < page * PAGE_SIZE then |records| else page * PAGE_SIZE)
      invariant forall u :: u in seen <==> u in jobs
      decreases MAX_PAGES - page
    {
      page := page + 1;
      var response := endpoint(recordsSeen);
      if response.NoResults? {
        return Report([], true, recordsSeen, page);
      }
      if totalCount.None? {
        totalCount := response.totalCount;
      }
      if honest {
        NextPrefix(endpoint, records, total, recordsSeen);
      }
      jobs, seen := ProcessPage(jobs, seen, response.records, received);
      received := received + response.records;
      recordsSeen := recordsSeen + |response.records|;
      if |response.records| == 0 {
        break;
      }
      if totalCount.None? || recordsSeen >= totalCount.value {
        break;
      }
    }
    r := Report(jobs, false, recordsSeen, page);
  }

  /** Pages as long as asked for, as far as there are records. */
  ghost predicate FullPages(endpoint: Endpoint, records: seq<Record>) {
    forall offset: nat :: offset <= |records| && endpoint(offset).Response? ==>
      |endpoint(offset).records| == if |records| - offset < PAGE_SIZE then |records| - offset else PAGE_SIZE
  }

  lemma NoUris()
    ensures Distinct(Uris([])) == []
  {
  }

  lemma NextPrefix(endpoint: Endpoint, records: seq<Record>, total: Option<int>, offset: nat)
    requires Serves(endpoint, records, total) && offset <= |records|
    ensures endpoint(offset).Response? && endpoint(offset).totalCount == total
    ensures offset < |records| ==> |endpoint(offset).records| > 0
    ensures var page := endpoint(offset).records;
      offset + |page| <= |records| && records[..offset] + page == records[..offset + |page|]
  {
    var page := endpoint(offset).records;
    assert records[offset..][..|page|] == page;
  }
}
