/** The parts of Go's `time` package the backend relies on: `time.Parse`
    with the RFC 3339 layout `2006-01-02T15:04:05Z07:00` and with the local
    layout `2006-01-02T15:04`, and `Format` of an instant in UTC. The rules
    are Go's general parser's: four-digit year, two-digit month, day, minute
    and second, a one- or two-digit hour, an optional fraction of a second
    after `.` or `,` (truncated to nanoseconds), `Z` or a `+hh:mm`/`-hh:mm`
    offset with hh <= 24 and mm <= 60, and nothing after the last field. */
module GoTime {
  import opened Wrappers
  import opened Strings
  import opened Civil

  /** A point in time: nanoseconds since 1970-01-01T00:00:00Z. */
  type Instant = int

  const NanosPerSecond: int := 1_000_000_000
  const SecondsPerDay: int := 86400

  /** Wall-clock fields read from a layout, before the zone offset applies. */
  datatype Clock = Clock(date: Date, hour: int, minute: int, second: int, nanos: int)

  /** The instant of wall-clock `c` in a zone `offset` seconds east of UTC. */
  function ToInstant(c: Clock, offset: int): Instant
    requires 1 <= c.date.month <= 12
  {
    ((DayNumber(c.date) * SecondsPerDay + c.hour * 3600 + c.minute * 60 + c.second - offset)
      * NanosPerSecond) + c.nanos
  }

  /** A value read from the front of the input and the input left after it. */
  datatype Scanned<T> = Scanned(value: T, rest: string)

  function Literal(s: string, c: char): (r: Option<string>)
    ensures r.Some? <==> |s| > 0 && s[0] == c
    ensures r.Some? ==> s == [c] + r.value
  {
    if |s| > 0 && s[0] == c then
      assert s == [c] + s[1..];
      Some(s[1..])
    else None
  }

  /** Go's `2006`: exactly four digits. */
  function Year4(s: string): (r: Option<Scanned<int>>)
    ensures r.Some? ==> |s| >= 4 && 0 <= r.value.value <= 9999 && r.value.rest == s[4..]
  {
    if |s| >= 4 && IsDigit(s[0]) && IsDigit(s[1]) && IsDigit(s[2]) && IsDigit(s[3]) then
      Some(Scanned(DigitValue(s[0]) * 1000 + DigitValue(s[1]) * 100
                   + DigitValue(s[2]) * 10 + DigitValue(s[3]), s[4..]))
    else None
  }

  /** Go's `getnum(s, true)` (`01`, `02`, `04`, `05`): exactly two digits. */
  function Two(s: string): (r: Option<Scanned<int>>)
    ensures r.Some? ==> |s| >= 2 && 0 <= r.value.value <= 99 && r.value.rest == s[2..]
  {
    if |s| >= 2 && IsDigit(s[0]) && IsDigit(s[1]) then
      Some(Scanned(DigitValue(s[0]) * 10 + DigitValue(s[1]), s[2..]))
    else None
  }

  /** Go's `getnum(s, false)` (`15`): one digit, or two when a second follows. */
  function OneOrTwo(s: string): (r: Option<Scanned<int>>)
    ensures r.Some? ==> 0 <= r.value.value <= 99
    ensures r.Some? ==> |s| >= 1 && (r.value.rest == s[1..] || (|s| >= 2 && r.value.rest == s[2..]))
  {
    if |s| >= 1 && IsDigit(s[0]) then
      if |s| >= 2 && IsDigit(s[1]) then Some(Scanned(DigitValue(s[0]) * 10 + DigitValue(s[1]), s[2..]))
      else Some(Scanned(DigitValue(s[0]), s[1..]))
    else None
  }

  /** The number of digits at the front of `s`. */
  function DigitRun(s: string): (n: nat)
    ensures n <= |s| && AllDigits(s[..n])
    ensures n < |s| ==> !IsDigit(s[n])
  {
    if s == [] || !IsDigit(s[0]) then 0
    else
      var n := 1 + DigitRun(s[1..]);
      assert forall i :: 1 <= i < n ==> s[..n][i] == s[1..][..n - 1][i - 1];
      n
  }

  function Pow10(k: nat): (p: nat)
    ensures p >= 1
  {
    if k == 0 then 1 else 10 * Pow10(k - 1)
  }

  /** Go's fractional-second extension after a seconds field: `.` or `,`
      followed by digits; digits past the ninth are dropped. No fraction
      reads as 0 nanoseconds and consumes nothing. */
  function Fraction(s: string): (r: Scanned<int>)
    ensures 0 <= r.value
    ensures !(|s| >= 2 && (s[0] == '.' || s[0] == ',') && IsDigit(s[1])) ==> r == Scanned(0, s)
  {
    if |s| >= 2 && (s[0] == '.' || s[0] == ',') && IsDigit(s[1]) then
      var n := DigitRun(s[1..]);
      var kept := if n <= 9 then n else 9;
      var digits := s[1..][..kept];
      assert AllDigits(digits) by {
        assert forall i :: 0 <= i < kept ==> digits[i] == s[1..][..n][i];
      }
      Scanned(DecimalValue(digits) * Pow10(9 - kept), s[1 + n..])
    else Scanned(0, s)
  }

  /** Go's `Z07:00`: `Z`, or a sign and `hh:mm`; the result is the offset in
      seconds east of UTC. */
  function Zone(s: string): (r: Option<Scanned<int>>)
    ensures r.Some? ==> -90000 <= r.value.value <= 90000
    ensures |s| >= 1 && s[0] == 'Z' ==> r == Some(Scanned(0, s[1..]))
  {
    if |s| >= 1 && s[0] == 'Z' then Some(Scanned(0, s[1..]))
    else if |s| < 6 || s[3] != ':' then None
    else
      var hh :- Two(s[1..3]);
      var mm :- Two(s[4..6]);
      if hh.value > 24 || mm.value > 60 then None
      else if s[0] == '+' then Some(Scanned((hh.value * 60 + mm.value) * 60, s[6..]))
      else if s[0] == '-' then Some(Scanned(-(hh.value * 60 + mm.value) * 60, s[6..]))
      else None
  }

  /** `2006-01-02T15:04`, the part both booking layouts share, with Go's
      range checks on month, hour and minute. */
  function DateHourMinute(s: string): (r: Option<Scanned<Clock>>)
    ensures r.Some? ==> 1 <= r.value.value.date.month <= 12
    ensures r.Some? ==> 0 <= r.value.value.hour < 24 && 0 <= r.value.value.minute < 60
    ensures r.Some? ==> r.value.value.second == 0 && r.value.value.nanos == 0
  {
    var y :- Year4(s);
    var r1 :- Literal(y.rest, '-');
    var mo :- Two(r1);
    if !(1 <= mo.value <= 12) then None else
    var r2 :- Literal(mo.rest, '-');
    var d :- Two(r2);
    var r3 :- Literal(d.rest, 'T');
    var h :- OneOrTwo(r3);
    if h.value >= 24 then None else
    var r4 :- Literal(h.rest, ':');
    var mi :- Two(r4);
    if mi.value >= 60 then None else
    Some(Scanned(Clock(Date(y.value, mo.value, d.value), h.value, mi.value, 0, 0), mi.rest))
  }

  /** `time.Parse(time.RFC3339, s)`. */
  function ParseRFC3339(s: string): Option<Instant>
  {
    var p :- DateHourMinute(s);
    var r1 :- Literal(p.rest, ':');
    var sec :- Two(r1);
    if sec.value >= 60 then None else
    var frac := Fraction(sec.rest);
    var z :- Zone(frac.rest);
    if z.rest != [] || !ValidDate(p.value.date) then None
    else Some(ToInstant(p.value.(second := sec.value, nanos := frac.value), z.value))
  }

  /** `time.Parse("2006-01-02T15:04", s)`: no zone in the layout, so UTC. */
  function ParseLocalMinute(s: string): Option<Instant>
  {
    var p :- DateHourMinute(s);
    if p.rest != [] || !ValidDate(p.value.date) then None
    else Some(ToInstant(p.value, 0))
  }

  function Pad2(n: int): (s: string)
    requires 0 <= n < 100
    ensures |s| == 2
  {
    [DigitChar(n / 10), DigitChar(n % 10)]
  }

  function Pad4(n: int): (s: string)
    requires 0 <= n < 10000
    ensures |s| == 4
  {
    [DigitChar(n / 1000), DigitChar(n / 100 % 10), DigitChar(n / 10 % 10), DigitChar(n % 10)]
  }

  /** Go's `appendInt(b, year, 4)`: a sign when negative, at least four digits. */
  function FormatYear(y: int): string
  {
    var u := if y < 0 then -y else y;
    (if y < 0 then "-" else "") + (if u < 10000 then Pad4(u) else NatToString(u))
  }

  /** Go's RFC 3339 rendering of UTC wall-clock fields, whole seconds. */
  function RenderUTC(dt: Date, h: int, mi: int, sc: int): string
    requires 1 <= dt.month <= 12 && 1 <= dt.day <= 31
    requires 0 <= h < 24 && 0 <= mi < 60 && 0 <= sc < 60
  {
    FormatYear(dt.year) + ("-" + (Pad2(dt.month) + ("-" + (Pad2(dt.day) + ("T"
      + (Pad2(h) + (":" + (Pad2(mi) + (":" + (Pad2(sc) + "Z"))))))))))
  }

  /** `t.UTC().Format(time.RFC3339)`: whole seconds, `Z` for UTC. */
  function FormatRFC3339UTC(t: Instant): string
  {
    var secs := t / NanosPerSecond;
    var dt := DateOfDay(secs / SecondsPerDay);
    var sod := secs % SecondsPerDay;
    RenderUTC(dt, sod / 3600, sod / 60 % 60, sod % 60)
  }

  /** `t` with its fraction of a second dropped (toward the past). */
  function WholeSeconds(t: Instant): Instant
  {
    t / NanosPerSecond * NanosPerSecond
  }

  /** The year, in UTC, in which instant `t` falls. */
  function YearOf(t: Instant): int
  {
    DateOfDay(t / NanosPerSecond / SecondsPerDay).year
  }

  lemma ScanPad4(n: int, rest: string)
    requires 0 <= n < 10000
    ensures Year4(Pad4(n) + rest) == Some(Scanned(n, rest))
  {
    var s := Pad4(n) + rest;
    assert s[4..] == rest;
    var a, b, c, d := n / 1000, n / 100 % 10, n / 10 % 10, n % 10;
    assert n / 10 == (n / 100) * 10 + c;
    assert n / 100 == a * 10 + b by {
      assert n / 100 == (n / 1000) * 10 + (n / 100) % 10;
    }
    assert n == (n / 10) * 10 + d;
    assert a * 1000 + b * 100 + c * 10 + d == n;
  }

  lemma ScanPad2(n: int, rest: string)
    requires 0 <= n < 100
    ensures Two(Pad2(n) + rest) == Some(Scanned(n, rest))
    ensures OneOrTwo(Pad2(n) + rest) == Some(Scanned(n, rest))
  {
    var s := Pad2(n) + rest;
    assert s[2..] == rest;
  }

  lemma ScanLiteral(c: char, rest: string)
    ensures Literal([c] + rest, c) == Some(rest)
  {
    assert ([c] + rest)[1..] == rest;
  }

  /** Rendered wall-clock fields of a four-digit year parse back to the
      same fields, read in UTC. */
  lemma ParseRendered(dt: Date, h: int, mi: int, sc: int)
    requires ValidDate(dt) && 0 <= dt.year <= 9999
    requires 0 <= h < 24 && 0 <= mi < 60 && 0 <= sc < 60
    ensures ParseRFC3339(RenderUTC(dt, h, mi, sc)) == Some(ToInstant(Clock(dt, h, mi, sc, 0), 0))
  {
    var tail6 := Pad2(sc) + "Z";
    var tail5 := ":" + tail6;
    var tail4 := Pad2(mi) + tail5;
    var tail3 := ":" + tail4;
    var tail2 := Pad2(h) + tail3;
    var tail1 := "T" + tail2;
    var dayPart := Pad2(dt.day) + tail1;
    var restM := "-" + dayPart;
    var monthPart := Pad2(dt.month) + restM;
    var restY := "-" + monthPart;
    var s := Pad4(dt.year) + restY;
    assert FormatYear(dt.year) == Pad4(dt.year);
    assert RenderUTC(dt, h, mi, sc) == s;
    ScanPad4(dt.year, restY);
    ScanLiteral('-', monthPart);
    ScanPad2(dt.month, restM);
    ScanLiteral('-', dayPart);
    ScanPad2(dt.day, tail1);
    ScanLiteral('T', tail2);
    ScanPad2(h, tail3);
    ScanLiteral(':', tail4);
    ScanPad2(mi, tail5);
    ScanLiteral(':', tail6);
    ScanPad2(sc, "Z");
    var clock := Clock(dt, h, mi, 0, 0);
    assert DateHourMinute(s) == Some(Scanned(clock, tail5));
    assert Fraction("Z") == Scanned(0, "Z");
    assert "Z"[1..] == "";
    assert Zone("Z") == Some(Scanned(0, ""));
  }

  lemma ClockOfSeconds(t: Instant, dt: Date)
    requires 1 <= dt.month <= 12 && DayNumber(dt) == t / NanosPerSecond / SecondsPerDay
    ensures var sod := t / NanosPerSecond % SecondsPerDay;
      ToInstant(Clock(dt, sod / 3600, sod / 60 % 60, sod % 60, 0), 0) == WholeSeconds(t)
  {
    var secs := t / NanosPerSecond;
    var sod := secs % SecondsPerDay;
    assert sod / 3600 * 3600 + sod / 60 % 60 * 60 + sod % 60 == sod;
    assert DayNumber(dt) * SecondsPerDay + sod == secs;
  }

  /** Formatting then parsing gives the instant back, truncated to whole
      seconds, for every instant whose UTC year has four digits. */
  lemma FormatParseRoundTrip(t: Instant)
    requires 0 <= YearOf(t) <= 9999
    ensures ParseRFC3339(FormatRFC3339UTC(t)) == Some(WholeSeconds(t))
  {
    var secs := t / NanosPerSecond;
    var dt := DateOfDay(secs / SecondsPerDay);
    var sod := secs % SecondsPerDay;
    var h, mi, sc := sod / 3600, sod / 60 % 60, sod % 60;
    assert ValidDate(dt) && 0 <= dt.year <= 9999;
    assert 0 <= h < 24 && 0 <= mi < 60 && 0 <= sc < 60;
    var text := RenderUTC(dt, h, mi, sc);
    assert FormatRFC3339UTC(t) == text;
    ParseRendered(dt, h, mi, sc);
    ClockOfSeconds(t, dt);

  }
}
