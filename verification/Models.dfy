/** The durable rows of the job pipeline and the values their columns range over.
    A table whose rows are never deleted is a sequence: a row's id is its index, so an
    insert appends and ids grow.  Sources are deleted by merges, so they are a map. */
module Models {

  datatype Option<+T> = None | Some(value: T)

  datatype Status =
    | New
    | InProgress
    | Retry
    | ReadyForExtraction
    | CompletedEligible
    | CompletedIneligible
    | UnknownVerdict
    | Unavailable
    | Failed
    | Merged

  datatype Phase = Fetch | Eligibility | Extraction

  datatype Stage = EligibilityStage | ExtractionStage

  datatype Trigger = Scheduled | Reprocess

  datatype Verdict = Eligible | Ineligible | Unknown

  /** How an attempt ended: with the status its job was released in, interrupted by a
      reaper, or skipped by a worker that had nothing left to write. */
  datatype Outcome = Ended(status: Status) | Interrupted | Skipped

  datatype Finish = Finish(outcome: Outcome, phase: Option<Phase>, at: nat)

  datatype Job = Job(
    company: string,
    key: string,
    status: Status,
    phase: Phase,
    attemptCount: nat,
    due: Option<nat>,
    lease: Option<nat>,
    content: Option<nat>,
    reprocess: bool,
    mergedInto: Option<nat>)

  /** `stage` is the stage of the run that started the attempt. */
  datatype Attempt = Attempt(job: nat, stage: Stage, trigger: Trigger, startedAt: nat, finish: Option<Finish>)

  /** `title` is the comparable title: case-folded, spaces collapsed, None when blank. */
  datatype Posting = Posting(hash: string, fingerprint: string, requisition: Option<string>, title: Option<string>)

  datatype Content = Content(job: nat, posting: Posting)

  datatype Decision = Decision(job: nat, attempt: nat, content: nat, verdict: Verdict, current: bool)

  datatype Result = Result(job: nat, attempt: nat, content: nat, current: bool)

  datatype Source = Source(job: nat, url: string)

  datatype Db = Db(
    jobs: seq<Job>,
    attempts: seq<Attempt>,
    contents: seq<Content>,
    decisions: seq<Decision>,
    results: seq<Result>,
    sources: map<nat, Source>,
    nextSource: nat)

  const EMPTY_DB := Db([], [], [], [], [], map[], 0)

  /** STAGE_PHASES read backwards: each phase belongs to exactly one stage. */
  function StageOf(phase: Phase): Stage {
    if phase.Extraction? then ExtractionStage else EligibilityStage
  }

  /** `SELECT id FROM table WHERE p ORDER BY id`. */
  function Select(n: nat, p: nat -> bool): (ids: seq<nat>)
    ensures forall i: nat :: i in ids <==> i < n && p(i)
    ensures forall x :: 0 <= x < |ids| ==> ids[x] < n && p(ids[x])
    ensures forall x, y :: 0 <= x < y < |ids| ==> ids[x] < ids[y]
  {
    if n == 0 then [] else
      var ids := Select(n - 1, p);
      if p(n - 1) then ids + [n - 1] else ids
  }

  /** Positions in order, no position twice. */
  predicate Increasing(at: seq<nat>) {
    forall x, y :: 0 <= x < y < |at| ==> at[x] < at[y]
  }

  /** `picked` is what `all` has at the positions `at`, in its order. */
  predicate IsPick<T(==)>(picked: seq<T>, all: seq<T>, at: seq<nat>) {
    Increasing(at) && |at| == |picked| && forall x :: 0 <= x < |at| ==> at[x] < |all| && picked[x] == all[at[x]]
  }

  /** One more element, left or picked. */
  lemma PickMore<T>(picked: seq<T>, all: seq<T>, at: seq<nat>, last: T)
    requires IsPick(picked, all, at)
    ensures IsPick(picked, all + [last], at) && IsPick(picked + [last], all + [last], at + [|all|])
  {
  }

  /** The outcome of `scalar_one_or_none`, which raises on more than one row. */
  datatype One = NoRow | Row(id: nat) | TooMany

  function ScalarOneOrNone(ids: seq<nat>): One {
    if |ids| == 0 then NoRow else if |ids| == 1 then Row(ids[0]) else TooMany
  }

  /** A filtered read returns the one row that passes the filter, and raises only if two do. */
  lemma ScalarOneIsUnique(n: nat, p: nat -> bool)
    requires forall i: nat, k: nat :: i < n && k < n && p(i) && p(k) ==> i == k
    ensures match ScalarOneOrNone(Select(n, p))
            case NoRow => forall i: nat :: i < n ==> !p(i)
            case Row(r) => r < n && p(r) && forall i: nat :: i < n && p(i) ==> i == r
            case TooMany => false
  {
    var ids := Select(n, p);
    if |ids| == 0 {
      forall i: nat | i < n ensures !p(i) {
        assert i !in ids;
      }
    } else {
      assert p(ids[0]);
      assert p(ids[|ids| - 1]);
    }
  }
}
