/**
 * Instants are whole seconds since the Unix epoch (UTC).  A time zone is a
 * fixed offset in seconds east of UTC; Asia/Dhaka, the business's zone, has
 * been UTC+6 without daylight saving time since 2010.  Carbon's startOfDay,
 * endOfDay and its 'h:i A' / 'H:i' formats become arithmetic on instants.
 */
module Clock {
  import opened Text

  const SecondsPerDay := 86400
  const DhakaOffset := 6 * 3600

  /** The calendar day (days since 1970-01-01 in the zone) on which instant `t` falls. */
  function LocalDay(t: int, offset: int): int {
    (t + offset) / SecondsPerDay
  }

  function SecondOfDay(t: int, offset: int): (s: nat)
    ensures s < SecondsPerDay
  {
    (t + offset) % SecondsPerDay
  }

  function LocalHour(t: int, offset: int): (h: nat)
    ensures h < 24
  {
    SecondOfDay(t, offset) / 3600
  }

  function LocalMinute(t: int, offset: int): (m: nat)
    ensures m < 60
  {
    SecondOfDay(t, offset) % 3600 / 60
  }

  /** Carbon's startOfDay() and endOfDay() of local day `day`, at whole-second resolution. */
  function StartOfDay(day: int, offset: int): int {
    day * SecondsPerDay - offset
  }

  function EndOfDay(day: int, offset: int): int {
    StartOfDay(day, offset) + SecondsPerDay - 1
  }

  /** `whereBetween(t, [startOfDay, endOfDay])` holds exactly of the instants on that local day. */
  predicate InDay(t: int, day: int, offset: int) {
    StartOfDay(day, offset) <= t <= EndOfDay(day, offset)
  }

  lemma InDayIff(t: int, day: int, offset: int)
    ensures InDay(t, day, offset) <==> LocalDay(t, offset) == day
  {
    var q, r := (t + offset) / SecondsPerDay, (t + offset) % SecondsPerDay;
    assert t + offset == q * SecondsPerDay + r && 0 <= r < SecondsPerDay;
    if LocalDay(t, offset) == day {
      assert q == day;
    } else if q < day {
      assert (q + 1) * SecondsPerDay <= day * SecondsPerDay;
    } else {
      assert q >= day + 1;
      assert q * SecondsPerDay >= (day + 1) * SecondsPerDay;
    }
  }

  /** The hour on a 12-hour clock: 0 and 12 read 12. */
  function Hour12(h: nat): (r: nat)
    ensures 1 <= r <= 12
    ensures r % 12 == h % 12
  {
    if h % 12 == 0 then 12 else h % 12
  }

  function Meridiem(h: nat): string {
    if h < 12 then "AM" else "PM"
  }

  /** Carbon's format('h:i A'): two-digit 12-hour hour, two-digit minute, AM or PM. */
  function FormatClock12(t: int, offset: int): (r: string)
    ensures |r| == 8 && r[2] == ':' && r[5] == ' '
    ensures r[6..] == (if LocalHour(t, offset) < 12 then "AM" else "PM")
  {
    Pad2(Hour12(LocalHour(t, offset))) + ":" + Pad2(LocalMinute(t, offset)) + " " + Meridiem(LocalHour(t, offset))
  }

  /** Carbon's format('H:i'): two-digit 24-hour hour and minute. */
  function FormatClock24(t: int, offset: int): (r: string)
    ensures |r| == 5 && r[2] == ':'
  {
    Pad2(LocalHour(t, offset)) + ":" + Pad2(LocalMinute(t, offset))
  }
}
