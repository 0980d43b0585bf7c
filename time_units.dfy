/**
 * Conversion of wheel values to milliseconds (`convertTimeToMillis`) and the
 * total that `resetTimer` stores in `countdownStartTime`.
 */
module TimeUnits {
  import opened KotlinInts

  const MillisPerSecond: int := 1000
  const MillisPerMinute: int := 60 * MillisPerSecond
  const MillisPerHour: int := 60 * MillisPerMinute

  /** The largest value the three wheels can give: 99:59:59. */
  const MaxCountdownStartTime: int := 99 * MillisPerHour + 59 * MillisPerMinute + 59 * MillisPerSecond

  /** How many milliseconds one unit of `timeUnit` stands for in `ConvertTimeToMillis`. */
  function UnitMillis(timeUnit: string): (ms: int)
    ensures ms > 0
  {
    match timeUnit
    case "hour" => MillisPerHour
    case "minute" => MillisPerMinute
    case _ => MillisPerSecond
  }

  /**
   * `convertTimeToMillis`: the `Int` is widened to `Long` before multiplying,
   * so no `Int` value can overflow. The tag is matched exactly: anything other
   * than "hour" or "minute" (including "Hour") counts as seconds.
   */
  function ConvertTimeToMillis(timeLength: Int32, timeUnit: string): (r: Int64)
    ensures timeUnit == "hour" ==> r == timeLength * 60 * 60 * MillisPerSecond
    ensures timeUnit == "minute" ==> r == timeLength * 60 * MillisPerSecond
    ensures timeUnit != "hour" && timeUnit != "minute" ==> r == timeLength * MillisPerSecond
    ensures MinInt * MillisPerHour <= r <= MaxInt * MillisPerHour
  {
    if timeUnit == "hour" then timeLength * 3600000
    else if timeUnit == "minute" then timeLength * 60000
    else timeLength * 1000
  }

  /** Dividing the result by the unit's length (as Kotlin divides) gives the wheel value back. */
  lemma ConvertTimeToMillisRoundTrip(timeLength: Int32, timeUnit: string)
    ensures TruncDiv(ConvertTimeToMillis(timeLength, timeUnit), UnitMillis(timeUnit)) == timeLength
  {
    var r, u := ConvertTimeToMillis(timeLength, timeUnit), UnitMillis(timeUnit);
    assert r == timeLength * u;
    var q := TruncDiv(r, u);
    if timeLength >= 0 {
      assert q * u <= timeLength * u < q * u + u;
      MultiplesAreSeparated(q, timeLength, u);
    } else {
      assert q * u - u < timeLength * u <= q * u;
      MultiplesAreSeparated(timeLength, q, u);
    }
  }

  /** Two multiples of `u` that lie less than `u` apart are equal. */
  lemma MultiplesAreSeparated(a: int, b: int, u: int)
    requires u > 0
    requires a * u <= b * u < a * u + u
    ensures a == b
  {
    PositiveFactor(b - a, u);
    PositiveFactor(a - b, u);
  }

  /** A product with a positive factor `u` that exceeds `-u` has a non-negative other factor. */
  lemma PositiveFactor(k: int, u: int)
    requires u > 0 && k * u > -u
    ensures k >= 0
  {
  }

  /** What `resetTimer` stores in `countdownStartTime` for the three wheel values. */
  function CountdownStartTime(hours: Int32, minutes: Int32, seconds: Int32): (t: Int64)
    ensures t == hours * MillisPerHour + minutes * MillisPerMinute + seconds * MillisPerSecond
    ensures t % MillisPerSecond == 0
  {
    ConvertTimeToMillis(hours, "hour") + ConvertTimeToMillis(minutes, "minute") + ConvertTimeToMillis(seconds, "second")
  }

  /**
   * For wheel values in range the start time is the exact total in
   * milliseconds, at most 99:59:59, and the three wheel values can be read
   * back from it.
   */
  lemma CountdownStartTimeDecomposes(hours: Int32, minutes: Int32, seconds: Int32)
    requires 0 <= hours <= 99 && 0 <= minutes <= 59 && 0 <= seconds <= 59
    ensures CountdownStartTime(hours, minutes, seconds)
         == hours * MillisPerHour + minutes * MillisPerMinute + seconds * MillisPerSecond
    ensures 0 <= CountdownStartTime(hours, minutes, seconds) <= MaxCountdownStartTime
    ensures CountdownStartTime(hours, minutes, seconds) / MillisPerHour == hours
    ensures CountdownStartTime(hours, minutes, seconds) % MillisPerHour / MillisPerMinute == minutes
    ensures CountdownStartTime(hours, minutes, seconds) % MillisPerMinute / MillisPerSecond == seconds
  {
    var t := CountdownStartTime(hours, minutes, seconds);
    var below := minutes * MillisPerMinute + seconds * MillisPerSecond;
    assert 0 <= below < MillisPerHour;
    DivModUnique(t, MillisPerHour, hours, below);
    DivModUnique(below, MillisPerMinute, minutes, seconds * MillisPerSecond);
    DivModUnique(t, MillisPerMinute, hours * 60 + minutes, seconds * MillisPerSecond);
    DivModUnique(seconds * MillisPerSecond, MillisPerSecond, seconds, 0);
  }

  /** Euclidean division is determined by quotient and remainder. */
  lemma DivModUnique(x: int, d: int, q: int, r: int)
    requires d > 0 && 0 <= r < d && x == q * d + r
    ensures x / d == q && x % d == r
  {
    var q', r' := x / d, x % d;
    assert (q - q') * d == r' - r;
    PositiveFactor(q - q', d);
    PositiveFactor(q' - q, d);
  }
}
