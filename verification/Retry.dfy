/** Automatic retries after a dispatch failure: the counter in metadata, the policy and the chain of clones. */
module Retry {
  import opened Wrappers
  import Decimal

  type Metadata = map<string, string>

  /** `#getRetryCount`: a missing, unreadable or negative counter reads as 0. */
  function RetryCount(metadata: Metadata): nat {
    if "retryCount" !in metadata then 0
    else
      match Decimal.ParseInt(metadata["retryCount"])
      case Some(parsed) => if parsed >= 0 then parsed else 0
      case None => 0
  }

  /** `#getMaxRetries`: a missing, unreadable or negative limit reads as the policy's default. */
  function MaxRetries(metadata: Metadata, defaultMaxRetries: int): int {
    if "maxRetries" !in metadata then defaultMaxRetries
    else
      match Decimal.ParseInt(metadata["maxRetries"])
      case Some(parsed) => if parsed < 0 then defaultMaxRetries else parsed
      case None => defaultMaxRetries
  }

  predicate ShouldRetry(metadata: Metadata, failureCount: int, defaultMaxRetries: int) {
    failureCount <= MaxRetries(metadata, defaultMaxRetries)
  }

  function Pow2(n: nat): nat {
    if n == 0 then 1 else 2 * Pow2(n - 1)
  }

  function RetryDelay(failureCount: int, baseDelayMs: int): int {
    baseDelayMs * Pow2(if failureCount - 1 > 0 then failureCount - 1 else 0)
  }

  /** The metadata of the clone that `#createRetryJob` makes. */
  function RetryMetadata(metadata: Metadata, retriedFromJobId: string): Metadata {
    metadata["retriedFromJobId" := retriedFromJobId]["retryCount" := Decimal.Print(RetryCount(metadata) + 1)]
  }

  /** A limit that was printed counts as it is; none, a negative one, and one that is no number leave the default. */
  lemma LimitIsRead(metadata: Metadata, n: nat, text: string, defaultMaxRetries: int)
    ensures MaxRetries(metadata["maxRetries" := Decimal.Print(n)], defaultMaxRetries) == n
    ensures MaxRetries(metadata["maxRetries" := "-" + Decimal.Print(n + 1)], defaultMaxRetries) == defaultMaxRetries
    ensures "maxRetries" !in metadata ==> MaxRetries(metadata, defaultMaxRetries) == defaultMaxRetries
    ensures (forall c :: c in text ==> !Decimal.IsDigit(c)) ==>
              MaxRetries(metadata["maxRetries" := text], defaultMaxRetries) == defaultMaxRetries
  {
    Decimal.ParsePrint(n);
    Decimal.ParseNegative(n + 1);
    Decimal.ParseIntIff(text);
  }

  /** So does a counter, which is 0 otherwise. */
  lemma CounterIsRead(metadata: Metadata, n: nat, text: string)
    ensures RetryCount(metadata["retryCount" := Decimal.Print(n)]) == n
    ensures RetryCount(metadata["retryCount" := "-" + Decimal.Print(n + 1)]) == 0
    ensures "retryCount" !in metadata ==> RetryCount(metadata) == 0
    ensures (forall c :: c in text ==> !Decimal.IsDigit(c)) ==> RetryCount(metadata["retryCount" := text]) == 0
  {
    Decimal.ParsePrint(n);
    Decimal.ParseNegative(n + 1);
    Decimal.ParseIntIff(text);
  }

  /** The counter survives its print and parse, and the limit is inherited. */
  lemma RetryMetadataCounts(metadata: Metadata, retriedFromJobId: string, defaultMaxRetries: int)
    ensures RetryCount(RetryMetadata(metadata, retriedFromJobId)) == RetryCount(metadata) + 1
    ensures MaxRetries(RetryMetadata(metadata, retriedFromJobId), defaultMaxRetries) ==
            MaxRetries(metadata, defaultMaxRetries)
  {
    Decimal.ParsePrint(RetryCount(metadata) + 1);
  }

  /**
   The clones made when a job and every clone of it fail to dispatch: the delay before each and its metadata.
   `ids` names the jobs that fail.
   */
  function FailureChain(metadata: Metadata, ids: nat -> string, step: nat, defaultMaxRetries: int, baseDelayMs: int):
      (chain: seq<(int, Metadata)>)
    decreases MaxRetries(metadata, defaultMaxRetries) - RetryCount(metadata)
  {
    var failureCount := RetryCount(metadata) + 1;
    if !ShouldRetry(metadata, failureCount, defaultMaxRetries) then []
    else
      RetryMetadataCounts(metadata, ids(step), defaultMaxRetries);
      var clone := RetryMetadata(metadata, ids(step));
      [(RetryDelay(failureCount, baseDelayMs), clone)]
      + FailureChain(clone, ids, step + 1, defaultMaxRetries, baseDelayMs)
  }

  function TotalDelay(chain: seq<(int, Metadata)>): int {
    if chain == [] then 0 else chain[0].0 + TotalDelay(chain[1..])
  }

  /** A failing job is cloned exactly `limit - count` times, the counter rising by one each time. */
  lemma {:induction false} ChainIsBounded(metadata: Metadata, ids: nat -> string, step: nat, defaultMaxRetries: int,
      baseDelayMs: int)
    ensures var count, limit := RetryCount(metadata), MaxRetries(metadata, defaultMaxRetries);
      var chain := FailureChain(metadata, ids, step, defaultMaxRetries, baseDelayMs);
      && |chain| == (if limit > count then limit - count else 0)
      && forall k :: 0 <= k < |chain| ==> RetryCount(chain[k].1) == count + k + 1
    decreases MaxRetries(metadata, defaultMaxRetries) - RetryCount(metadata)
  {
    var count := RetryCount(metadata);
    if ShouldRetry(metadata, count + 1, defaultMaxRetries) {
      RetryMetadataCounts(metadata, ids(step), defaultMaxRetries);
      var clone := RetryMetadata(metadata, ids(step));
      ChainIsBounded(clone, ids, step + 1, defaultMaxRetries, baseDelayMs);
      var rest := FailureChain(clone, ids, step + 1, defaultMaxRetries, baseDelayMs);
      var chain := FailureChain(metadata, ids, step, defaultMaxRetries, baseDelayMs);
      forall k | 0 <= k < |chain| ensures RetryCount(chain[k].1) == count + k + 1 {
        assert k > 0 ==> chain[k] == rest[k - 1];
      }
    }
  }

  /** A job that was never retried is cloned exactly as often as the limit it asks for, whatever the default is. */
  lemma LimitIsKept(metadata: Metadata, ids: nat -> string, step: nat, limit: nat, defaultMaxRetries: int,
      baseDelayMs: int)
    requires "retryCount" !in metadata
    ensures
      var asked := metadata["maxRetries" := Decimal.Print(limit)];
      |FailureChain(asked, ids, step, defaultMaxRetries, baseDelayMs)| == limit
  {
    var asked := metadata["maxRetries" := Decimal.Print(limit)];
    LimitIsRead(metadata, limit, "", defaultMaxRetries);
    CounterIsRead(asked, 0, "");
    ChainIsBounded(asked, ids, step, defaultMaxRetries, baseDelayMs);
  }

  /** The delays of failures `from + 1` to `limit` in one, as the powers of two telescope. */
  function BackoffSum(from: nat, limit: nat, baseDelayMs: int): int {
    baseDelayMs * (Pow2(limit) - Pow2(from))
  }

  lemma Telescopes(base: int, p: int, limit: int)
    ensures base * p + base * (limit - 2 * p) == base * (limit - p)
  {
  }

  /** One delay, and then the rest. */
  lemma DelaysAddUp(count: nat, limit: nat, baseDelayMs: int)
    ensures RetryDelay(count + 1, baseDelayMs) + BackoffSum(count + 1, limit, baseDelayMs) ==
            BackoffSum(count, limit, baseDelayMs)
    ensures BackoffSum(count, count, baseDelayMs) == 0
  {
    assert Pow2(count + 1) == 2 * Pow2(count);
    Telescopes(baseDelayMs, Pow2(count), Pow2(limit));
  }

  lemma ChainBegins(metadata: Metadata, ids: nat -> string, step: nat, defaultMaxRetries: int, baseDelayMs: int)
    requires ShouldRetry(metadata, RetryCount(metadata) + 1, defaultMaxRetries)
    ensures var clone := RetryMetadata(metadata, ids(step));
      && RetryCount(clone) == RetryCount(metadata) + 1
      && MaxRetries(clone, defaultMaxRetries) == MaxRetries(metadata, defaultMaxRetries)
      && TotalDelay(FailureChain(metadata, ids, step, defaultMaxRetries, baseDelayMs)) ==
           RetryDelay(RetryCount(metadata) + 1, baseDelayMs)
           + TotalDelay(FailureChain(clone, ids, step + 1, defaultMaxRetries, baseDelayMs))
  {
    RetryMetadataCounts(metadata, ids(step), defaultMaxRetries);
    var chain := FailureChain(metadata, ids, step, defaultMaxRetries, baseDelayMs);
    assert chain[1..] ==
           FailureChain(RetryMetadata(metadata, ids(step)), ids, step + 1, defaultMaxRetries, baseDelayMs);
  }

  lemma {:induction false} ChainAddsUp(metadata: Metadata, ids: nat -> string, step: nat, defaultMaxRetries: int,
      baseDelayMs: int, limit: nat)
    requires RetryCount(metadata) <= limit == MaxRetries(metadata, defaultMaxRetries)
    ensures TotalDelay(FailureChain(metadata, ids, step, defaultMaxRetries, baseDelayMs)) ==
            BackoffSum(RetryCount(metadata), limit, baseDelayMs)
    decreases limit - RetryCount(metadata)
  {
    DelaysAddUp(RetryCount(metadata), limit, baseDelayMs);
    if ShouldRetry(metadata, RetryCount(metadata) + 1, defaultMaxRetries) {
      ChainBegins(metadata, ids, step, defaultMaxRetries, baseDelayMs);
      ChainAddsUp(RetryMetadata(metadata, ids(step)), ids, step + 1, defaultMaxRetries, baseDelayMs, limit);
    }
  }

  /** The backoff of a whole chain adds up to a geometric sum. */
  lemma ChainDelay(metadata: Metadata, ids: nat -> string, step: nat, defaultMaxRetries: int, baseDelayMs: int)
    requires RetryCount(metadata) <= MaxRetries(metadata, defaultMaxRetries)
    ensures TotalDelay(FailureChain(metadata, ids, step, defaultMaxRetries, baseDelayMs)) ==
            baseDelayMs * (Pow2(MaxRetries(metadata, defaultMaxRetries)) - Pow2(RetryCount(metadata)))
  {
    ChainAddsUp(metadata, ids, step, defaultMaxRetries, baseDelayMs, MaxRetries(metadata, defaultMaxRetries));
  }
}
