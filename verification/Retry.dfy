/**
 * `withRetry`: run a transaction, and on a retryable SQLSTATE run the whole of it again.
 * The database and the random generator are parameters: `outcome(k)` is what attempt `k` does,
 * `jitter(k)` is the number the generator draws after attempt `k`.
 */
module Retry {

  /** A JavaScript value, as far as reading an SQLSTATE out of it can tell. */
  datatype Code = Nullish | Text(text: string) | NotText

  /** What a `catch` can be given: nothing at all, or an object that may wrap a driver error. */
  datatype Failure =
    | NullishFailure
    | Failure(code: Code, driverCode: Code)

  datatype SqlState = Unknown | SqlState(text: string)

  const SERIALIZATION_FAILURE := "40001"
  const DEADLOCK_DETECTED := "40P01"

  function SqlStateOf(f: Failure): (r: SqlState) {
    match f
    case NullishFailure => Unknown
    case Failure(code, driverCode) =>
      var candidate := if code == Nullish then driverCode else code;
      if candidate.Text? then SqlState(candidate.text) else Unknown
  }

  predicate IsRetryable(f: Failure) {
    var s := SqlStateOf(f);
    s.SqlState? && s.text in {SERIALIZATION_FAILURE, DEADLOCK_DETECTED}
  }

  /** The rule after a failed attempt: replay it all, or let the error out. */
  predicate Replays(f: Failure, attempt: nat, maxAttempts: int) {
    IsRetryable(f) && attempt < maxAttempts
  }

  function Pow2(n: nat): nat {
    if n == 0 then 1 else 2 * Pow2(n - 1)
  }

  function Min(a: int, b: int): int { if a <= b then a else b }

  function Max(a: int, b: int): int { if a >= b then a else b }

  /** `Math.round`. */
  function Round(x: real): int { (x + 0.5).Floor }

  datatype Options = Options(maxAttempts: int, baseDelayMs: int, maxDelayMs: int)

  function Ceiling(o: Options, attempt: nat): int
    requires attempt >= 1
  {
    Min(o.baseDelayMs * Pow2(attempt - 1), o.maxDelayMs)
  }

  function DelayMs(o: Options, attempt: nat, jitter: real): int
    requires attempt >= 1
  {
    Max(1, Round(jitter * (Ceiling(o, attempt) as real)))
  }

  lemma RoundOfScaled(jitter: real, c: int)
    requires 0.0 <= jitter < 1.0
    ensures Round(jitter * (c as real)) <= Max(0, c)
  {
    var r := c as real;
    if c >= 0 {
      assert (1.0 - jitter) * r >= 0.0;
      assert jitter * r <= r;
    } else {
      assert jitter * -r >= 0.0;
    }
  }

  /** Full jitter never sleeps longer than the exponential ceiling, nor less than one millisecond. */
  lemma DelayIsBounded(o: Options, attempt: nat, jitter: real)
    requires attempt >= 1
    requires 0.0 <= jitter < 1.0
    ensures 1 <= DelayMs(o, attempt, jitter) <= Max(1, Min(o.baseDelayMs * Pow2(attempt - 1), o.maxDelayMs))
  {
    RoundOfScaled(jitter, Ceiling(o, attempt));
  }

  datatype Outcome<T> = Returns(value: T) | Throws(failure: Failure)

  datatype RetryInfo = RetryInfo(attempt: nat, sqlState: string, delayMs: int)

  datatype Reply<T> =
    | Resolved(result: T, attempts: nat, retries: seq<RetryInfo>)
    | Rejected(failure: Failure, attempts: nat, retries: seq<RetryInfo>)

  /**
   * The delay is the jittered ceiling, rounded to the nearest millisecond and at least one: for given options, attempt
   * and jitter only one number qualifies.
   */
  predicate IsJittered(o: Options, attempt: nat, jitter: real, delayMs: int)
    requires attempt >= 1
  {
    var target := jitter * (Min(o.baseDelayMs * Pow2(attempt - 1), o.maxDelayMs) as real);
    && delayMs >= 1 && delayMs as real > target - 0.5
    && (delayMs as real <= target + 0.5 || delayMs == 1)
  }

  lemma DelayIsJittered(o: Options, attempt: nat, jitter: real, delayMs: int)
    requires attempt >= 1
    ensures IsJittered(o, attempt, jitter, delayMs) <==> delayMs == DelayMs(o, attempt, jitter)
  {
  }

  /** The failure carries this SQLSTATE: as its own code, or as its driver's when it has none of its own. */
  predicate Carries(f: Failure, text: string) {
    f.Failure? && (f.code == Text(text) || (f.code == Nullish && f.driverCode == Text(text)))
  }

  lemma RetryableCarries(f: Failure)
    ensures IsRetryable(f) <==> Carries(f, "40001") || Carries(f, "40P01")
    ensures forall text :: SqlStateOf(f) == SqlState(text) <==> Carries(f, text)
  {
  }

  /** Attempts 1 .. k-1 all failed in a way that is replayed. */
  ghost predicate ReplayedBefore<T>(outcome: nat -> Outcome<T>, k: nat, maxAttempts: int) {
    forall j: nat {:trigger outcome(j)} :: 1 <= j < k ==>
      outcome(j).Throws? && Replays(outcome(j).failure, j, maxAttempts)
  }

  /** One record per replayed attempt, in order, each with the SQLSTATE that attempt failed with and its own delay. */
  ghost predicate RetriesDescribe<T>(retries: seq<RetryInfo>, outcome: nat -> Outcome<T>, jitter: nat -> real, o: Options) {
    forall i :: 0 <= i < |retries| ==>
      && retries[i].attempt == i + 1
      && outcome(i + 1).Throws?
      && Carries(outcome(i + 1).failure, retries[i].sqlState) && retries[i].sqlState in {"40001", "40P01"}
      && IsJittered(o, i + 1, jitter(i + 1), retries[i].delayMs)
      && 1 <= retries[i].delayMs <= Max(1, Min(o.baseDelayMs * Pow2(i), o.maxDelayMs))
  }

  /**
   * The replay loop. It stops at the first attempt that succeeds, fails for good, or is the last one
   * allowed; there is always at least one attempt.
   */
  method WithRetry<T>(outcome: nat -> Outcome<T>, jitter: nat -> real, o: Options) returns (reply: Reply<T>)
    requires forall k: nat :: 0.0 <= jitter(k) < 1.0
    ensures 1 <= reply.attempts <= Max(1, o.maxAttempts)
    ensures |reply.retries| == reply.attempts - 1
    ensures forall j: nat {:trigger outcome(j)} :: 1 <= j < reply.attempts ==>
      outcome(j).Throws? && (Carries(outcome(j).failure, "40001") || Carries(outcome(j).failure, "40P01"))
    ensures RetriesDescribe(reply.retries, outcome, jitter, o)
    ensures reply.Resolved? ==> outcome(reply.attempts) == Returns(reply.result)
    ensures reply.Rejected? ==>
      && outcome(reply.attempts) == Throws(reply.failure)
      && (reply.attempts >= o.maxAttempts || (!Carries(reply.failure, "40001") && !Carries(reply.failure, "40P01")))
  {
    var retries: seq<RetryInfo> := [];
    var attempt: nat := 1;
    while true
      invariant 1 <= attempt <= Max(1, o.maxAttempts)
      invariant |retries| == attempt - 1
      invariant ReplayedBefore(outcome, attempt, o.maxAttempts)
      invariant RetriesDescribe(retries, outcome, jitter, o)
      decreases o.maxAttempts - attempt
    {
      match outcome(attempt) {
        case Returns(value) =>
          return Resolved(value, attempt, retries);
        case Throws(failure) =>
          RetryableCarries(failure);
          if !Replays(failure, attempt, o.maxAttempts) {
            return Rejected(failure, attempt, retries);
          }
          var delayMs := DelayMs(o, attempt, jitter(attempt));
          DelayIsBounded(o, attempt, jitter(attempt));
          DelayIsJittered(o, attempt, jitter(attempt), delayMs);
          retries := retries + [RetryInfo(attempt, SqlStateOf(failure).text, delayMs)];
          attempt := attempt + 1;
      }
    }
  }
}
