/** How `Set` turns the three expiration fields of a cache entry into the TTL of an etcd lease.
    Instants and durations are counted in ticks of 100 ns, as `DateTimeOffset` and `TimeSpan`
    count them; the clock reading `now` is a parameter. */
module Expiration {
  import opened Wrappers

  const TicksPerSecond: int := 10_000_000
  const MinInt32: int := -0x8000_0000
  const MaxInt32: int := 0x7FFF_FFFF

  /** The expiration fields of a `DistributedCacheEntryOptions`; a null field is `None`. */
  datatype CacheEntryOptions = CacheEntryOptions(
    absoluteExpiration: Option<int>,               // an instant
    absoluteExpirationRelativeToNow: Option<int>,  // a duration
    slidingExpiration: Option<int>)                // a duration

  /** The one expiration mode a write honours, as a tagged union. */
  datatype ExpirationPolicy =
    | RelativeToNow(duration: int)
    | Sliding(duration: int)
    | Absolute(instant: int)
    | NoExpiration

  /** Precedence among the fields: the duration relative to now, then the sliding duration,
      then the absolute instant. */
  function EffectivePolicy(o: CacheEntryOptions): ExpirationPolicy {
    if o.absoluteExpirationRelativeToNow.Some? then RelativeToNow(o.absoluteExpirationRelativeToNow.value)
    else if o.slidingExpiration.Some? then Sliding(o.slidingExpiration.value)
    else if o.absoluteExpiration.Some? then Absolute(o.absoluteExpiration.value)
    else NoExpiration
  }

  /** The lease duration a policy asks for, in ticks. */
  function PolicyTicks(p: ExpirationPolicy, now: int): int {
    match p
    case RelativeToNow(d) => d
    case Sliding(d) => d
    case Absolute(at) => at - now
    case NoExpiration => 0
  }

  /** The working variable `expiryTime` of `Set`: it starts at zero and each non-null field
      overwrites it in turn, absolute instant first, so the last non-null field wins. */
  function ExpiryTicks(o: CacheEntryOptions, now: int): (t: int)
    ensures t == PolicyTicks(EffectivePolicy(o), now)
  {
    var afterAbsolute := if o.absoluteExpiration.Some? then o.absoluteExpiration.value - now else 0;
    var afterSliding := if o.slidingExpiration.Some? then o.slidingExpiration.value else afterAbsolute;
    if o.absoluteExpirationRelativeToNow.Some? then o.absoluteExpirationRelativeToNow.value
    else afterSliding
  }

  function Abs(x: int): nat {
    if x < 0 then -x else x
  }

  /** Seconds rounded to the nearest integer, a tie going to the even neighbour. */
  function RoundHalfEven(ticks: int): (n: int)
    ensures 2 * Abs(ticks - n * TicksPerSecond) <= TicksPerSecond
    ensures 2 * Abs(ticks - n * TicksPerSecond) == TicksPerSecond ==> n % 2 == 0
  {
    var q, r := ticks / TicksPerSecond, ticks % TicksPerSecond;
    if 2 * r > TicksPerSecond || (2 * r == TicksPerSecond && q % 2 == 1) then q + 1 else q
  }

  /** The two properties of RoundHalfEven pick out a single integer. */
  lemma RoundHalfEvenUnique(ticks: int, n: int)
    requires 2 * Abs(ticks - n * TicksPerSecond) <= TicksPerSecond
    requires 2 * Abs(ticks - n * TicksPerSecond) == TicksPerSecond ==> n % 2 == 0
    ensures n == RoundHalfEven(ticks)
  {
  }

  /** Rounding never reverses the order of two durations. */
  lemma RoundHalfEvenMonotone(a: int, b: int)
    requires a <= b
    ensures RoundHalfEven(a) <= RoundHalfEven(b)
  {
  }

  datatype ConvertError = Overflow

  /** `Convert.ToInt32(double)` applied to a number of seconds: it accepts values from
      -2^31 - 0.5 inclusive up to 2^31 - 0.5 exclusive, rounds half to even, and throws
      `OverflowException` outside that range. */
  function ToInt32(ticks: int): (r: Result<int, ConvertError>)
    ensures r.Success? <==> MinInt32 <= RoundHalfEven(ticks) <= MaxInt32
    ensures r.Success? ==> r.value == RoundHalfEven(ticks)
  {
    if (2 * MinInt32 - 1) * TicksPerSecond <= 2 * ticks < (2 * MaxInt32 + 1) * TicksPerSecond
    then Success(RoundHalfEven(ticks))
    else Failure(Overflow)
  }

  /** The TTL in seconds that `Set` asks the lease grant for, or the overflow it throws first. */
  function LeaseTtl(o: CacheEntryOptions, now: int): (r: Result<int, ConvertError>)
    ensures r.Success? <==> MinInt32 <= RoundHalfEven(PolicyTicks(EffectivePolicy(o), now)) <= MaxInt32
    ensures r.Success? ==> r.value == RoundHalfEven(PolicyTicks(EffectivePolicy(o), now))
  {
    ToInt32(ExpiryTicks(o, now))
  }

  /** With no field set the lease is granted with a TTL of zero. */
  lemma NoFieldGivesZeroTtl(now: int)
    ensures LeaseTtl(CacheEntryOptions(None, None, None), now) == Success(0)
  {
  }

  /** Setting the duration relative to now decides the TTL, whatever the other fields say. */
  lemma RelativeToNowWins(o: CacheEntryOptions, d: int, now: int)
    requires o.absoluteExpirationRelativeToNow == Some(d)
    ensures LeaseTtl(o, now) == ToInt32(d)
  {
  }

  /** Without a duration relative to now, the sliding duration decides over the absolute instant. */
  lemma SlidingBeatsAbsolute(o: CacheEntryOptions, d: int, now: int)
    requires o.absoluteExpirationRelativeToNow.None? && o.slidingExpiration == Some(d)
    ensures LeaseTtl(o, now) == ToInt32(d)
  {
  }

  /** An absolute instant that is not in the future is not clamped: it yields a TTL of zero
      or less, or an overflow when it lies too far in the past. */
  lemma PastAbsoluteIsNotPositive(at: int, now: int)
    requires at <= now
    ensures LeaseTtl(CacheEntryOptions(Some(at), None, None), now).Success? ==>
              LeaseTtl(CacheEntryOptions(Some(at), None, None), now).value <= 0
  {
    RoundHalfEvenMonotone(at - now, 0);
  }

  /** Seconds are rounded, not truncated: 0.4 s gives 0, 0.6 s gives 1, and the ties 0.5 s,
      1.5 s and 2.5 s give 0, 2 and 2; -1.5 s gives -2. */
  lemma RoundingExamples()
    ensures RoundHalfEven(4_000_000) == 0 && RoundHalfEven(6_000_000) == 1
    ensures RoundHalfEven(5_000_000) == 0 && RoundHalfEven(15_000_000) == 2
    ensures RoundHalfEven(25_000_000) == 2 && RoundHalfEven(-15_000_000) == -2
  {
  }

  /** A sliding expiration of 30 s asks for a 30 s lease; one of 2^31 s overflows. */
  lemma SlidingExamples(now: int)
    ensures LeaseTtl(CacheEntryOptions(None, None, Some(30 * TicksPerSecond)), now) == Success(30)
    ensures LeaseTtl(CacheEntryOptions(None, None, Some(0x8000_0000 * TicksPerSecond)), now) == Failure(Overflow)
  {
  }
}
