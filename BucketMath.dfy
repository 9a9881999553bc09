/** The arithmetic of one continuous-refill token bucket: its record, the
    default policy, and the lazy refill that runs before every admission
    decision. Token counts and the refill rate are exact reals; timestamps
    are whole milliseconds. */
module BucketMath {

  /** One bucket: `tokens` available now, burst size `cap`, the time
      `periodMs` it takes to refill from empty to `cap`, and the timestamp
      `last` at which `tokens` was last recomputed. */
  datatype Bucket = Bucket(tokens: real, cap: real, periodMs: real, last: int)

  /** Default policy: a burst of 30 requests, refilled over one minute. */
  const CAP: real := 30.0
  const PERIOD: real := 60000.0

  function Min(a: real, b: real): real {
    if a <= b then a else b
  }

  /** The bucket created for a key seen for the first time: full, with the
      default policy, stamped with the current time. */
  function Default(now: int): Bucket {
    Bucket(CAP, CAP, PERIOD, now)
  }

  /** A configuration the refill formula can use: a burst size that is not
      negative and a refill period that is strictly positive. */
  predicate WellConfigured(b: Bucket) {
    b.cap >= 0.0 && b.periodMs > 0.0
  }

  /** The token count lies between zero and the burst size. */
  predicate InRange(b: Bucket) {
    0.0 <= b.tokens <= b.cap
  }

  /** Tokens accrued between `b.last` and `now` at `cap / periodMs` tokens per
      millisecond. Elapsed time is not clamped, so a clock that runs
      backwards yields a negative amount. */
  function Accrued(b: Bucket, now: int): real
    requires b.periodMs > 0.0
  {
    (now - b.last) as real * (b.cap / b.periodMs)
  }

  /** The refill step: add what accrued since `last`, clamp to `cap`, and
      move `last` to `now`. The configuration is kept. */
  function Refilled(b: Bucket, now: int): (r: Bucket)
    requires b.periodMs > 0.0
    ensures r.cap == b.cap && r.periodMs == b.periodMs && r.last == now
    ensures r.tokens <= r.cap
    ensures r.tokens <= b.tokens + Accrued(b, now)
    ensures r.tokens == b.cap || r.tokens == b.tokens + Accrued(b, now)
  {
    b.(tokens := Min(b.cap, b.tokens + Accrued(b, now)), last := now)
  }

  /** Nothing accrues at the instant of the last refill: refilling a bucket
      whose tokens are within its cap at the same timestamp changes nothing. */
  lemma RefillSameInstant(b: Bucket)
    requires b.periodMs > 0.0 && b.tokens <= b.cap
    ensures Refilled(b, b.last) == b
  {
  }

  /** With a clock that does not run backwards, a refill never loses tokens
      and keeps them between zero and the cap. */
  lemma RefillKeepsRange(b: Bucket, now: int)
    requires WellConfigured(b) && InRange(b) && b.last <= now
    ensures InRange(Refilled(b, now))
    ensures Refilled(b, now).tokens >= b.tokens
  {
    var rate := b.cap / b.periodMs;
    assert rate >= 0.0;
    assert (now - b.last) as real >= 0.0;
    assert Accrued(b, now) >= 0.0;
  }

  /** Once a full period has elapsed since the last refill, the bucket is
      full again, whatever it held before. */
  lemma RefillFullAfterPeriod(b: Bucket, now: int)
    requires WellConfigured(b) && b.tokens >= 0.0
    requires (now - b.last) as real >= b.periodMs
    ensures Refilled(b, now).tokens == b.cap
  {
    var rate := b.cap / b.periodMs;
    assert rate >= 0.0;
    assert b.periodMs * rate == b.cap;
    assert Accrued(b, now) >= b.periodMs * rate;
  }
}
