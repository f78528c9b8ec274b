/** Calendar dates as day numbers, and the parsing of ISO-8601 text into them.
    A date is the number of days since 1970-01-01 (negative before it); the time of
    day is dropped, as pandas' `normalize()` drops it. */
module Dates {
  import opened Wrappers

  type Date = int

  const SecondsPerDay: int := 86400

  predicate IsDigit(c: char) {
    '0' <= c <= '9'
  }

  function Pow10(n: nat): nat {
    if n == 0 then 1 else 10 * Pow10(n - 1)
  }

  /** The number written by the `n` characters of `s` that start at `i`, or None when one
      of them is not a decimal digit. */
  function Number(s: string, i: nat, n: nat): (r: Option<nat>)
    requires i + n <= |s|
    ensures r.Some? <==> forall k :: i <= k < i + n ==> IsDigit(s[k])
    ensures r.Some? ==> r.value < Pow10(n)
    decreases n
  {
    if n == 0 then Some(0)
    else
      match Number(s, i, n - 1)
      case None => None
      case Some(v) =>
        if IsDigit(s[i + n - 1]) then Some(10 * v + (s[i + n - 1] as int - '0' as int)) else None
  }

  predicate IsLeapYear(y: int) {
    (y % 4 == 0 && y % 100 != 0) || y % 400 == 0
  }

  function DaysInMonth(y: int, m: int): int
    requires 1 <= m <= 12
  {
    if m == 2 then (if IsLeapYear(y) then 29 else 28)
    else if m == 4 || m == 6 || m == 9 || m == 11 then 30
    else 31
  }

  /** The day number of the proleptic Gregorian date y-m-d (H. Hinnant's days_from_civil;
      Dafny's `/` on a positive divisor rounds down, as the algorithm needs). */
  function DayNumber(y: int, m: int, d: int): Date
    requires 1 <= m <= 12
  {
    var y' := if m <= 2 then y - 1 else y;
    var era := y' / 400;
    var yoe := y' - era * 400;
    var mp := if m > 2 then m - 3 else m + 9;
    var doy := (153 * mp + 2) / 5 + d - 1;
    var doe := yoe * 365 + yoe / 4 - yoe / 100 + doy;
    era * 146097 + doe - 719468
  }

  /** "YYYY-MM-DD" names a real calendar day. */
  predicate IsDayText(s: string) {
    |s| == 10 && s[4] == '-' && s[7] == '-'
    && Number(s, 0, 4).Some? && Number(s, 5, 2).Some? && Number(s, 8, 2).Some?
    && 1 <= Number(s, 5, 2).value <= 12
    && 1 <= Number(s, 8, 2).value <= DaysInMonth(Number(s, 0, 4).value, Number(s, 5, 2).value)
  }

  /** The day written as exactly "YYYY-MM-DD", or None. */
  function ParseDay(s: string): (r: Option<Date>)
    ensures r.Some? <==> IsDayText(s)
  {
    if IsDayText(s) then
      Some(DayNumber(Number(s, 0, 4).value, Number(s, 5, 2).value, Number(s, 8, 2).value))
    else None
  }

  /** The number of decimal digits at the front of `s`. */
  function DigitRun(s: string): (n: nat)
    ensures n <= |s|
    ensures forall k :: 0 <= k < n ==> IsDigit(s[k])
    ensures n < |s| ==> !IsDigit(s[n])
  {
    if |s| > 0 && IsDigit(s[0]) then 1 + DigitRun(s[1..]) else 0
  }

  /** The UTC offset that ends a timestamp, in seconds: "" and "Z" are UTC, "+HH:MM" and
      "-HH:MM" are ahead of and behind it. */
  function ParseZone(z: string): (r: Option<int>)
    ensures r.Some? && (z == "" || z == "Z") ==> r.value == 0
    ensures r.Some? ==> -SecondsPerDay < r.value < SecondsPerDay
  {
    if z == "" || z == "Z" then Some(0)
    else if |z| == 6 && (z[0] == '+' || z[0] == '-') && z[3] == ':'
            && Number(z, 1, 2).Some? && Number(z, 4, 2).Some?
            && Number(z, 1, 2).value < 24 && Number(z, 4, 2).value < 60 then
      var size := Number(z, 1, 2).value * 3600 + Number(z, 4, 2).value * 60;
      Some(if z[0] == '+' then size else -size)
    else None
  }

  /** The clock part "HH:MM[:SS][.fraction][zone]" of a timestamp, as the seconds since the
      local midnight minus the UTC offset; the fraction of a second is dropped, since only
      the day is kept. */
  function ParseClock(t: string): (r: Option<int>)
  {
    if |t| < 5 || t[2] != ':' || Number(t, 0, 2).None? || Number(t, 3, 2).None?
       || Number(t, 0, 2).value >= 24 || Number(t, 3, 2).value >= 60 then None
    else
      var hm := Number(t, 0, 2).value * 3600 + Number(t, 3, 2).value * 60;
      var rest := t[5..];
      var withSeconds := |rest| >= 3 && rest[0] == ':';
      if withSeconds && (Number(rest, 1, 2).None? || Number(rest, 1, 2).value >= 60) then None
      else
        var ss := if withSeconds then Number(rest, 1, 2).value else 0;
        var rest' := if withSeconds then rest[3..] else rest;
        var fraction := if |rest'| > 0 && rest'[0] == '.' then DigitRun(rest'[1..]) else 0;
        if |rest'| > 0 && rest'[0] == '.' && fraction == 0 then None
        else
          var zone := if fraction > 0 then rest'[1 + fraction..] else rest';
          match ParseZone(zone)
          case None => None
          case Some(offset) => Some(hm + ss - offset)
  }

  /** True when the clock part of `s` (after the date and the separator) carries no
      offset other than UTC. */
  predicate InUtc(s: string) {
    |s| == 10 || (|s| > 10 && ParseClock(s[11..]).Some? && 0 <= ParseClock(s[11..]).value < SecondsPerDay)
  }

  /** The UTC day of an ISO-8601 timestamp "YYYY-MM-DD", optionally followed by 'T' or ' '
      and a clock part, or None when the text is not such a timestamp. */
  function ParseTimestamp(s: string): (r: Option<Date>)
    ensures r.Some? <==>
      && |s| >= 10 && ParseDay(s[..10]).Some?
      && (|s| == 10 || ((s[10] == 'T' || s[10] == ' ') && ParseClock(s[11..]).Some?))
    ensures |s| == 10 ==> r == ParseDay(s)
    ensures r.Some? && |s| > 10 ==>
      var instant := ParseDay(s[..10]).value * SecondsPerDay + ParseClock(s[11..]).value;
      r.value * SecondsPerDay <= instant < (r.value + 1) * SecondsPerDay
  {
    assert |s| == 10 ==> s[..10] == s;
    if |s| < 10 then None
    else
      match ParseDay(s[..10])
      case None => None
      case Some(day) =>
        if |s| == 10 then Some(day)
        else if s[10] != 'T' && s[10] != ' ' then None
        else
          match ParseClock(s[11..])
          case None => None
          case Some(seconds) =>
            FloorDay(day * SecondsPerDay + seconds);
            Some((day * SecondsPerDay + seconds) / SecondsPerDay)
  }

  /** The day of an instant, counted in seconds since the epoch, is the one whose midnight
      comes at or before it and whose next midnight comes after it. */
  lemma FloorDay(instant: int)
    ensures instant / SecondsPerDay * SecondsPerDay <= instant < (instant / SecondsPerDay + 1) * SecondsPerDay
  {
  }

  /** Python's `s[:10]`. */
  function Prefix10(s: string): (p: string)
    ensures |s| <= 10 ==> p == s
    ensures |s| > 10 ==> p == s[..10]
  {
    if |s| <= 10 then s else s[..10]
  }

  /** A timestamp in UTC falls on the day its first ten characters name: the date a fetcher
      derives from a timestamp and the text key `timestamp[:10]` agree. */
  lemma UtcTimestampDay(s: string)
    requires ParseTimestamp(s).Some? && InUtc(s)
    ensures ParseTimestamp(s) == ParseDay(Prefix10(s))
  {
    if |s| > 10 {
      var day := ParseDay(s[..10]).value;
      var seconds := ParseClock(s[11..]).value;
      assert Prefix10(s) == s[..10];
      assert ParseTimestamp(s) == Some((day * SecondsPerDay + seconds) / SecondsPerDay);
      SameDay(day, seconds);
    } else {
      assert s[..10] == s;
    }
  }

  /** A time less than a day after midnight is still on that day. */
  lemma SameDay(day: int, seconds: int)
    requires 0 <= seconds < SecondsPerDay
    ensures (day * SecondsPerDay + seconds) / SecondsPerDay == day
  {
    assert day * SecondsPerDay <= day * SecondsPerDay + seconds < (day + 1) * SecondsPerDay;
  }
}
