/** The int64 arithmetic of attempt leases and retry delays
    (internal/app/event_personal_attempts.go). Durations count nanoseconds; every
    operation of the functions below is on `int64`, so none of them overflows. */
module AttemptTiming {
  import opened Collections

  newtype int64 = x: int | -0x8000_0000_0000_0000 <= x < 0x8000_0000_0000_0000

  const MAX_INT64: int64 := 0x7FFF_FFFF_FFFF_FFFF
  const SECOND: int64 := 1_000_000_000
  const LEASE_OVERHEAD: int64 := 30 * SECOND
  const MIN_LEASE: int64 := 60 * SECOND
  const MAX_LEASE: int64 := 600 * SECOND
  const DEFAULT_TIMEOUT: int64 := 30 * SECOND

  /** The request timeout of a control client, when it has a positive one. */
  function EffectiveTimeout(client: Option<int64>): (timeout: int64)
    ensures timeout > 0
  {
    if client.Some? && client.value > 0 then client.value else DEFAULT_TIMEOUT
  }

  function AttemptLease(client: Option<int64>, batchSize: int64): int64 {
    var batch := if batchSize < 1 then 1 else batchSize;
    var timeout := EffectiveTimeout(client);
    var maxRequestBudget := MAX_LEASE - LEASE_OVERHEAD;
    if timeout <= 0 || timeout > maxRequestBudget / batch then MAX_LEASE
    else
      FitsBudget(timeout as int, maxRequestBudget as int, batch as int);
      var lease := timeout * batch + LEASE_OVERHEAD;
      if lease < MIN_LEASE then MIN_LEASE else lease
  }

  lemma FitsBudget(timeout: int, budget: int, batch: int)
    requires timeout > 0 && batch > 0
    ensures timeout <= budget / batch <==> timeout * batch <= budget
  {
    if timeout <= budget / batch {
      assert timeout * batch <= budget / batch * batch;
    } else {
      assert timeout * batch >= (budget / batch + 1) * batch;
    }
  }

  /** What the lease is for, over unbounded integers: the time of one request per plan
      and the overhead, held between the two limits. */
  function IdealLease(timeout: int, batch: int): int {
    var wanted := timeout * batch + LEASE_OVERHEAD as int;
    if wanted < MIN_LEASE as int then MIN_LEASE as int
    else if wanted > MAX_LEASE as int then MAX_LEASE as int
    else wanted
  }

  /** The int64 lease is the ideal one for every timeout and batch size: no product
      wraps, and no batch that fits is cut short. */
  lemma LeaseIsIdeal(client: Option<int64>, batchSize: int64)
    ensures AttemptLease(client, batchSize) as int ==
            IdealLease(EffectiveTimeout(client) as int, if batchSize < 1 then 1 else batchSize as int)
  {
    var batch := if batchSize < 1 then 1 else batchSize;
    var timeout := EffectiveTimeout(client);
    FitsBudget(timeout as int, (MAX_LEASE - LEASE_OVERHEAD) as int, batch as int);
  }

  lemma {:induction false} MulMonotone(t: int, small: int, large: int)
    requires t > 0 && small <= large
    ensures t * small <= t * large
    decreases large - small
  {
    if small < large {
      MulMonotone(t, small, large - 1);
    }
  }

  lemma IdealLeaseIsMonotone(timeout: int, small: int, large: int)
    requires timeout > 0 && small <= large
    ensures MIN_LEASE as int <= IdealLease(timeout, small) <= IdealLease(timeout, large) <= MAX_LEASE as int
  {
    MulMonotone(timeout, small, large);
  }

  /** A larger batch never gets a shorter lease, and no lease leaves its limits. */
  lemma LeaseIsMonotone(client: Option<int64>, small: int64, large: int64)
    requires small <= large
    ensures MIN_LEASE <= AttemptLease(client, small) <= AttemptLease(client, large) <= MAX_LEASE
  {
    LeaseIsIdeal(client, small);
    LeaseIsIdeal(client, large);
    var fewer, more := if small < 1 then 1 else small as int, if large < 1 then 1 else large as int;
    IdealLeaseIsMonotone(EffectiveTimeout(client) as int, fewer, more);
  }

  function RetrySeconds(seconds: int64): int64 {
    if seconds <= 0 then 0
    else if seconds > MAX_INT64 / SECOND then MAX_INT64
    else seconds * SECOND
  }

  function MaxDelay(left: int64, right: int64): int64 {
    if right > left then right else left
  }

  /** Whole seconds to report for a delay. Go's division truncates, which is Dafny's
      for the positive delays that reach it. */
  function CeilSeconds(delay: int64): int64 {
    if delay <= 0 then 0
    else
      var seconds := delay / SECOND;
      if delay % SECOND != 0 then seconds + 1 else seconds
  }

  predicate Covers(seconds: int, delay: int64) {
    seconds * SECOND as int >= delay as int
  }

  /** The reported seconds are the least whole number that covers the delay. */
  lemma CeilSecondsIsLeast(delay: int64)
    ensures CeilSeconds(delay) >= 0
    ensures Covers(CeilSeconds(delay) as int, delay)
    ensures forall s: int | 0 <= s && Covers(s, delay) :: CeilSeconds(delay) as int <= s
  {
    if delay > 0 {
      assert delay == delay / SECOND * SECOND + delay % SECOND;
    }
  }

  /** Where seconds to duration and back is the identity: up to and including the first
      number of seconds that saturates. */
  lemma RetryRoundTripIff(seconds: int64)
    ensures CeilSeconds(RetrySeconds(seconds)) == seconds <==> 0 <= seconds <= 9_223_372_037
  {
    CeilSecondsIsLeast(RetrySeconds(seconds));
    if 0 < seconds <= MAX_INT64 / SECOND {
      assert (seconds * SECOND) % SECOND == 0;
    }
  }

  /** The `retry_after` detail of an API error. */
  datatype RetryDetail = NoDetail | Seconds(seconds: int64) | Date(delay: int64) | Garbage

  /** The delay an API error asks for. Dates are given as their distance from now. */
  function ApiRetryDelay(retryAfter: Option<int64>, nextRetry: Option<int64>, detail: RetryDetail): int64 {
    var d0: int64 := 0;
    var d1 := if retryAfter.Some? then MaxDelay(d0, RetrySeconds(retryAfter.value)) else d0;
    var d2 := if nextRetry.Some? then MaxDelay(d1, nextRetry.value) else d1;
    match detail
    case Seconds(seconds) => MaxDelay(d2, RetrySeconds(seconds))
    case Date(delay) => MaxDelay(d2, delay)
    case _ => d2
  }

  /** The delays named by the parts of an API error. */
  function RequestedDelays(retryAfter: Option<int64>, nextRetry: Option<int64>, detail: RetryDetail): set<int64> {
    {0} +
    (if retryAfter.Some? then {RetrySeconds(retryAfter.value)} else {}) +
    (if nextRetry.Some? then {nextRetry.value} else {}) +
    (match detail
     case Seconds(seconds) => {RetrySeconds(seconds)}
     case Date(delay) => {delay}
     case _ => {})
  }

  /** The delay is the longest one asked for, so waiting the reported seconds honours
      every part of the error; without a positive one it is zero. */
  lemma RetryDelayIsLongest(retryAfter: Option<int64>, nextRetry: Option<int64>, detail: RetryDetail)
    ensures
      var delay := ApiRetryDelay(retryAfter, nextRetry, detail);
      && delay in RequestedDelays(retryAfter, nextRetry, detail)
      && forall d | d in RequestedDelays(retryAfter, nextRetry, detail) ::
            d <= delay && Covers(CeilSeconds(delay) as int, d)
  {
    CeilSecondsIsLeast(ApiRetryDelay(retryAfter, nextRetry, detail));
  }

  /** Whole seconds become nanoseconds; what is too large becomes the largest duration, and
      what is negative none. */
  lemma RetrySecondsAre(seconds: int64)
    ensures seconds <= 0 ==> RetrySeconds(seconds) == 0
    ensures 0 < seconds <= 9_223_372_036 ==> RetrySeconds(seconds) as int == seconds as int * 1_000_000_000
    ensures seconds > 9_223_372_036 ==> RetrySeconds(seconds) == 0x7FFF_FFFF_FFFF_FFFF
  {
  }

  /** Part by part: the delay is never negative, never shorter than any part asks, and one of
      them or zero. */
  lemma RetryDelayHonours(retryAfter: Option<int64>, nextRetry: Option<int64>, detail: RetryDetail)
    ensures
      var delay := ApiRetryDelay(retryAfter, nextRetry, detail);
      && delay >= 0
      && (retryAfter.Some? ==> delay >= RetrySeconds(retryAfter.value))
      && (nextRetry.Some? ==> delay >= nextRetry.value)
      && (detail.Seconds? ==> delay >= RetrySeconds(detail.seconds))
      && (detail.Date? ==> delay >= detail.delay)
      && (|| delay == 0
          || (retryAfter.Some? && delay == RetrySeconds(retryAfter.value))
          || (nextRetry.Some? && delay == nextRetry.value)
          || (detail.Seconds? && delay == RetrySeconds(detail.seconds))
          || (detail.Date? && delay == detail.delay))
  {
  }
}
