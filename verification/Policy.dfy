/** Retry and failure policy. */
module Policy {
  import opened Models

  datatype Category =
    | NotFound
    | Closed
    | Blocked
    | TimedOut
    | Transport
    | ServerError
    | EmptyContent
    | OffSiteRedirect
    | Malformed
    | ModelCall
    | ValidationFailed
    | UngroundedEvidence
    | MissingCheckpoint
    | Internal

  predicate IsAcquisition(category: Category) {
    category in {NotFound, Closed, Blocked, TimedOut, Transport, ServerError, EmptyContent, OffSiteRedirect, Malformed}
  }

  /** FAILURE_CATEGORIES: what an acquisition can fail with. */
  type FailureCategory = c: Category | IsAcquisition(c) witness NotFound

  /** What a worker step can fail with; an acquisition carries its own category. */
  datatype Failure =
    | MissingCheckpointError
    | AcquisitionFailure(category: FailureCategory)
    | ModelCallError
    | ModelResponseError
    | UngroundedEvidenceError
    | TimeoutError
    | OtherError

  datatype PipelinePolicy = PipelinePolicy(
    httpConcurrency: nat,
    browserConcurrency: nat,
    modelConcurrency: nat,
    perHostConcurrency: nat,
    retryLimit: nat,
    retryBackoff: nat)
  {
    function ClaimCeiling(stage: Stage): nat {
      if stage.EligibilityStage? then httpConcurrency + modelConcurrency else modelConcurrency
    }
  }

  /** TERMINAL_CATEGORIES. */
  predicate IsTerminal(category: Category) {
    category in {NotFound, Closed, Malformed, OffSiteRedirect}
  }

  /** RETRYABLE_CATEGORIES. */
  predicate IsRetryable(category: Category) {
    IsAcquisition(category) && !IsTerminal(category)
  }

  function ClassifyFailure(failure: Failure): (Category, bool) {
    match failure
    case MissingCheckpointError => (MissingCheckpoint, false)
    case AcquisitionFailure(category) => (category, IsRetryable(category))
    case ModelCallError => (ModelCall, true)
    case ModelResponseError => (ValidationFailed, true)
    case UngroundedEvidenceError => (UngroundedEvidence, true)
    case TimeoutError => (TimedOut, true)
    case OtherError => (Internal, true)
  }

  function RetryLimitFor(category: Category, policy: PipelinePolicy): nat {
    if category.Internal? && policy.retryLimit > 2 then 2 else policy.retryLimit
  }

  function NextState(attemptCount: nat, category: Category, retryable: bool, policy: PipelinePolicy, now: nat)
    : (state: (Status, Option<nat>))
    // The due time is set exactly for retry, as `release` demands.
    ensures state.0 == Retry <==> state.1.Some?
    // A retry never exceeds the budget, and each one waits one back-off longer than the last.
    ensures state.0 == Retry ==> retryable && attemptCount < policy.retryLimit
    ensures state.0 == Retry ==> state.1.value == now + policy.retryBackoff * attemptCount
    // A job is unavailable for the posting's sake, failed for any other.
    ensures state.0 == Unavailable <==> IsTerminal(category)
    ensures state.0 in {Retry, Failed, Unavailable}
  {
    if category.MissingCheckpoint? then (Failed, None)
    else if IsTerminal(category) then (Unavailable, None)
    else if retryable && attemptCount < RetryLimitFor(category, policy)
    then (Retry, Some(now + policy.retryBackoff * attemptCount))
    else (Failed, None)
  }

  function StatusAfter(failure: Failure, attemptCount: nat, policy: PipelinePolicy, now: nat): Status {
    var (category, retryable) := ClassifyFailure(failure);
    NextState(attemptCount, category, retryable, policy, now).0
  }

  /** A posting that is gone for good. */
  predicate IsHopeless(failure: Failure) {
    failure.AcquisitionFailure? && IsTerminal(failure.category)
  }

  /** What an attempt that failed leads to, whatever it failed with: the categories retryable
      and terminal are each other's complement, so every failure that is not hopeless is tried
      again as long as the count allows, an error nobody classified twice at most. */
  lemma FailureLeadsTo(failure: Failure, attemptCount: nat, policy: PipelinePolicy, now: nat)
    ensures StatusAfter(failure, attemptCount, policy, now) == Retry <==>
      && !failure.MissingCheckpointError? && !IsHopeless(failure)
      && attemptCount < policy.retryLimit && (failure.OtherError? ==> attemptCount < 2)
    ensures StatusAfter(failure, attemptCount, policy, now) == Unavailable <==> IsHopeless(failure)
  {
  }

  // ---- failing again and again ----

  /** How many attempts a job takes when the n-th of them fails with `failures(n)`. */
  function AttemptsUntilRest(failures: nat -> Failure, n: nat, policy: PipelinePolicy): nat
    decreases if n < policy.retryLimit then policy.retryLimit - n else 0
  {
    if StatusAfter(failures(n), n, policy, 0) == Retry then AttemptsUntilRest(failures, n + 1, policy) else n
  }

  predicate StopsAt(failures: nat -> Failure, n: nat, policy: PipelinePolicy) {
    || n >= policy.retryLimit
    || failures(n).MissingCheckpointError? || IsHopeless(failures(n))
    || (failures(n).OtherError? && n >= 2)
  }

  /** A job that only ever fails rests at the first attempt that exhausts the limit, is
      hopeless, or is the second or later to fail for no known reason. */
  lemma {:induction false} RestsAtTheFirstStop(failures: nat -> Failure, n: nat, policy: PipelinePolicy)
    ensures var last := AttemptsUntilRest(failures, n, policy);
      && n <= last && StopsAt(failures, last, policy) && (forall k :: n <= k < last ==> !StopsAt(failures, k, policy))
      && (n <= policy.retryLimit ==> last <= policy.retryLimit)
    decreases if n < policy.retryLimit then policy.retryLimit - n else 0
  {
    FailureLeadsTo(failures(n), n, policy, 0);
    if StatusAfter(failures(n), n, policy, 0) == Retry {
      RestsAtTheFirstStop(failures, n + 1, policy);
    }
  }
}
