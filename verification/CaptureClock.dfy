/** NTP timestamps and the mapping of RTP timestamps onto the publisher's clock. Times are
    nanoseconds since the Unix epoch. */
module CaptureClock {
  import opened Collections
  import Arithmetic

  const EPOCH_OFFSET := 2_208_988_800
  const SECOND := 1_000_000_000
  const ERA := 0x1_0000_0000
  const DEFAULT_MAX_AGE := 10 * SECOND
  const FIVE_POWER := 1_953_125

  /** A 64-bit NTP value: seconds in the upper half, wrapping every era, fraction in the lower. */
  function ToNtp(time: int): (ntp: nat)
    ensures ntp < ERA * ERA
  {
    (time / SECOND + EPOCH_OFFSET) % ERA * ERA + time % SECOND * ERA / SECOND
  }

  function FromNtp(ntp: nat): int {
    (ntp / ERA - EPOCH_OFFSET) * SECOND + ntp % ERA * SECOND / ERA
  }

  /** Which NTP era a time falls in; era 0 ends in February 2036. */
  function EraOf(time: int): int {
    (time / SECOND + EPOCH_OFFSET) / ERA
  }

  /** A fraction of a second survives exactly if 5^9 divides its nanoseconds; otherwise one
      nanosecond is lost. */
  lemma FractionRoundTrip(n: nat)
    requires n < SECOND
    ensures var f := n * ERA / SECOND;
      0 <= f < ERA && f * SECOND / ERA == if n % FIVE_POWER == 0 then n else n - 1
  {
    var f := n * ERA / SECOND;
    var r := n * ERA % SECOND;
    assert n * ERA == f * SECOND + r;
    FractionExact(n);
    if r == 0 {
      Arithmetic.DivisionIsUnique(f * SECOND, n, 0, ERA);
    } else {
      assert f * SECOND == (n - 1) * ERA + (ERA - r);
      Arithmetic.DivisionIsUnique(f * SECOND, n - 1, ERA - r, ERA);
    }
  }

  /** 10^9 divides n * 2^32 exactly if 5^9 divides n. */
  lemma FractionExact(n: nat)
    ensures n * ERA % SECOND == 0 <==> n % FIVE_POWER == 0
  {
    var q, r := n / FIVE_POWER, n % FIVE_POWER;
    assert n == q * FIVE_POWER + r;
    var k := ERA / 512;
    assert ERA == k * 512 && SECOND == FIVE_POWER * 512 && k == 8388608;
    assert n * ERA == (q * k) * SECOND + r * ERA;
    if r == 0 {
      Arithmetic.DivisionIsUnique(n * ERA, q * k, 0, SECOND);
    } else if n * ERA % SECOND == 0 {
      var m := n * ERA / SECOND;
      assert n * k == m * FIVE_POWER;
      Inverse(n, m);
    }
  }

  /** 2^23 has an inverse modulo 5^9, so it cancels. */
  lemma Inverse(n: nat, m: nat)
    requires n * 8388608 == m * FIVE_POWER
    ensures n % FIVE_POWER == 0
  {
    var a, b := 1241897, 5333907;
    assert 8388608 * a - FIVE_POWER * b == 1;
    assert n == n * (8388608 * a - FIVE_POWER * b) == (n * 8388608) * a - n * b * FIVE_POWER;
    assert n == (m * a - n * b) * FIVE_POWER;
    Arithmetic.DivisionIsUnique(n, m * a - n * b, 0, FIVE_POWER);
  }

  /** Every time comes back short by at most a nanosecond and by a whole number of eras; so it
      comes back unchanged exactly in era 0 with a fraction divisible by 5^9 nanoseconds. */
  lemma NtpRoundTrip(time: int)
    ensures FromNtp(ToNtp(time)) == time - (if time % SECOND % FIVE_POWER == 0 then 0 else 1) - EraOf(time) * ERA * SECOND
    ensures FromNtp(ToNtp(time)) == time <==> EraOf(time) == 0 && time % SECOND % FIVE_POWER == 0
  {
    var seconds, n := time / SECOND + EPOCH_OFFSET, time % SECOND;
    FractionRoundTrip(n);
    var f := n * ERA / SECOND;
    Arithmetic.DivisionIsUnique(ToNtp(time), seconds % ERA, f, ERA);
    assert seconds == EraOf(time) * ERA + seconds % ERA;
  }

  // ------------------------------------------------- RTP timestamps on the capture clock

  /** A wrapped 32-bit difference read as a signed number. */
  function Signed(difference: int): (d: int)
    ensures -0x8000_0000 <= d < 0x8000_0000 && (d - difference) % ERA == 0
  {
    var u := difference % ERA;
    assert difference == difference / ERA * ERA + u;
    if u < 0x8000_0000 then
      Arithmetic.DivisionIsUnique(u - difference, -(difference / ERA), 0, ERA);
      u
    else
      Arithmetic.DivisionIsUnique(u - ERA - difference, -(difference / ERA) - 1, 0, ERA);
      u - ERA
  }

  /** Go's integer division, which truncates toward zero. */
  function Quotient(a: int, b: nat): int
    requires b > 0
  {
    if a >= 0 then a / b else -(-a / b)
  }

  datatype Report = Report(ntp: nat, rtp: nat, observed: int)

  /** Maps an RTP timestamp onto the publisher's clock, unless the report is missing or stale. */
  function CaptureTime(latest: Option<Report>, rtp: nat, now: int, clockRate: nat, maxAge: int): Option<int> {
    if latest.None? || clockRate == 0 then None else
    var limit := if maxAge <= 0 then DEFAULT_MAX_AGE else maxAge;
    var age := now - latest.value.observed;
    if age < 0 || age > limit then None
    else Some(FromNtp(latest.value.ntp) + Quotient(Signed(rtp - latest.value.rtp) * SECOND, clockRate))
  }

  /** The signed difference recovers the true distance of two timestamps, across any wraps, as
      long as it fits 32 bits. */
  lemma SignedRecovers(base: int, distance: int)
    requires -0x8000_0000 <= distance < 0x8000_0000
    ensures Signed((base + distance) % ERA - base % ERA) == distance
  {
    Arithmetic.ModOfDifference(base + distance, base, ERA);
    if distance >= 0 {
      Arithmetic.DivisionIsUnique(distance, 0, distance, ERA);
    } else {
      Arithmetic.DivisionIsUnique(distance, -1, distance + ERA, ERA);
    }
  }

  /** A packet `distance` samples from the report is stamped that many samples from the report's
      time, to within less than a nanosecond and never further away. */
  lemma CaptureFollowsSamples(report: Report, base: int, distance: int, now: int, clockRate: nat, maxAge: int)
    requires report.rtp == base % ERA && -0x8000_0000 <= distance < 0x8000_0000 && clockRate > 0
    requires 0 <= now - report.observed <= if maxAge <= 0 then DEFAULT_MAX_AGE else maxAge
    ensures var time := CaptureTime(Some(report), (base + distance) % ERA, now, clockRate, maxAge);
      && time.Some?
      && var shift := time.value - FromNtp(report.ntp);
         if distance >= 0 then shift >= 0 && distance * SECOND - clockRate < shift * clockRate <= distance * SECOND
         else shift <= 0 && distance * SECOND <= shift * clockRate < distance * SECOND + clockRate
  {
    SignedRecovers(base, distance);
    var product := distance * SECOND;
    if distance >= 0 {
      TruncationError(product, clockRate);
    } else {
      TruncationError(-product, clockRate);
    }
  }

  /** A packet is stamped exactly if there is a report, the clock rate is known, and the report was
      observed no later than now and within the age allowed, which is 10 seconds unless given. */
  lemma CaptureKnownIff(latest: Option<Report>, rtp: nat, now: int, clockRate: nat, maxAge: int)
    ensures CaptureTime(latest, rtp, now, clockRate, maxAge).Some? <==>
      && latest.Some? && clockRate > 0 && latest.value.observed <= now
      && now <= latest.value.observed + if maxAge > 0 then maxAge else DEFAULT_MAX_AGE
  {
  }

  lemma TruncationError(a: nat, b: nat)
    requires b > 0
    ensures 0 <= a / b && a - b < a / b * b <= a
  {
  }
}
