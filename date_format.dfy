/**
 * The `to_datetime` template filter: a millisecond Unix timestamp rendered as
 * `YYYY-MM-DD HH:MM:SS` in UTC on the proleptic Gregorian calendar, and the
 * same civil conversion for the ISO-8601 timestamps of the read API.
 *
 * Days are counted from 0001-01-01 (day 0), the calendar Python's `date`
 * ordinals use; 1970-01-01 is day 719162.
 */
module DateFormat {
  import opened Wrappers
  import Text

  const SecondsPerDay := 86400
  const DaysPer400Years := 146097
  const DaysPer100Years := 36524
  const DaysPer4Years := 1461
  /** Days from 0001-01-01 to 1970-01-01. */
  const EpochDay := 719162
  const MinYear := 1
  const MaxYear := 9999

  predicate IsLeap(y: int) {
    y % 4 == 0 && (y % 100 != 0 || y % 400 == 0)
  }

  function YearLength(y: int): int {
    if IsLeap(y) then 366 else 365
  }

  function DaysInMonth(y: int, m: int): (n: int)
    requires 1 <= m <= 12
    ensures 28 <= n <= 31
  {
    if m == 2 then (if IsLeap(y) then 29 else 28)
    else if m == 4 || m == 6 || m == 9 || m == 11 then 30
    else 31
  }

  /** Days of the year `y` before the first day of month `m` (13 stands for the next January). */
  function DaysBeforeMonth(y: int, m: int): (n: int)
    requires 1 <= m <= 13
    ensures m == 1 ==> n == 0
    ensures m == 13 ==> n == YearLength(y)
  {
    var leap := if IsLeap(y) then 1 else 0;
    if m == 1 then 0 else if m == 2 then 31 else if m == 3 then 59 + leap
    else if m == 4 then 90 + leap else if m == 5 then 120 + leap
    else if m == 6 then 151 + leap else if m == 7 then 181 + leap
    else if m == 8 then 212 + leap else if m == 9 then 243 + leap
    else if m == 10 then 273 + leap else if m == 11 then 304 + leap
    else if m == 12 then 334 + leap else 365 + leap
  }

  /** Days from 0001-01-01 to January 1st of year `y`. */
  function DaysBeforeYear(y: int): int {
    var p := y - 1;
    365 * p + p / 4 - p / 100 + p / 400
  }

  datatype Civil = Civil(year: int, month: int, day: int)

  predicate ValidCivil(c: Civil) {
    1 <= c.month <= 12 && 1 <= c.day <= DaysInMonth(c.year, c.month)
  }

  /** The day number of a civil date: the reference definition the conversion is checked against. */
  function DaysFromCivil(c: Civil): int
    requires 1 <= c.month <= 12
  {
    DaysBeforeYear(c.year) + DaysBeforeMonth(c.year, c.month) + c.day - 1
  }

  /** The month holding day-of-year `doy`, searched downward from month `m`. */
  function MonthOf(y: int, doy: int, m: int): (r: int)
    requires 1 <= m <= 12
    ensures 1 <= r <= m
    decreases m
  {
    if m == 1 || DaysBeforeMonth(y, m) <= doy then m else MonthOf(y, doy, m - 1)
  }

  /** On a day of the year below the start of month `m + 1`, the search finds the month holding it. */
  lemma {:induction false} MonthOfCorrect(y: int, doy: int, m: int)
    requires 0 <= doy < YearLength(y) && 1 <= m <= 12
    requires doy < DaysBeforeMonth(y, m + 1)
    ensures DaysBeforeMonth(y, MonthOf(y, doy, m)) <= doy < DaysBeforeMonth(y, MonthOf(y, doy, m) + 1)
    decreases m
  {
    if m > 1 && doy < DaysBeforeMonth(y, m) {
      MonthOfCorrect(y, doy, m - 1);
    }
  }

  /** The year and day-of-year of a day number, by 400-, 100-, 4- and 1-year cycles. */
  function YearAndDay(z: int): (yd: (int, int))
  {
    YearInCycle(z / DaysPer400Years, z % DaysPer400Years)
  }

  /** The year and day-of-year `r400` days into the 400-year cycle number `n400`. */
  function YearInCycle(n400: int, r400: int): (yd: (int, int))
  {
    var n100 := if r400 / DaysPer100Years < 3 then r400 / DaysPer100Years else 3;
    var r100 := r400 - DaysPer100Years * n100;
    var n4 := r100 / DaysPer4Years;
    var r4 := r100 % DaysPer4Years;
    var n1 := if r4 / 365 < 3 then r4 / 365 else 3;
    (400 * n400 + 100 * n100 + 4 * n4 + n1 + 1, r4 - 365 * n1)
  }

  /** Months are contiguous: month `m` ends where month `m + 1` begins. */
  lemma DaysBeforeMonthStep(y: int, m: int)
    requires 1 <= m <= 12
    ensures DaysBeforeMonth(y, m + 1) == DaysBeforeMonth(y, m) + DaysInMonth(y, m)
  {
  }

  /** Days before a year given by its 400-, 100-, 4- and 1-year cycle counts. */
  lemma CycleDaysBeforeYear(n400: int, n100: int, n4: int, n1: int)
    requires 0 <= n100 <= 3 && 0 <= n4 <= 24 && 0 <= n1 <= 3
    ensures DaysBeforeYear(400 * n400 + 100 * n100 + 4 * n4 + n1 + 1)
         == 146097 * n400 + 36524 * n100 + 1461 * n4 + 365 * n1
  {
    var p := 400 * n400 + 100 * n100 + 4 * n4 + n1;
    assert p == 4 * (100 * n400 + 25 * n100 + n4) + n1;
    assert p / 4 == 100 * n400 + 25 * n100 + n4;
    assert p == 100 * (4 * n400 + n100) + (4 * n4 + n1);
    assert p / 100 == 4 * n400 + n100;
    assert p == 400 * n400 + (100 * n100 + 4 * n4 + n1);
    assert p / 400 == n400;
  }

  /** The leap-year rule in terms of the cycle counts. */
  lemma CycleLeap(n400: int, n100: int, n4: int, n1: int)
    requires 0 <= n100 <= 3 && 0 <= n4 <= 24 && 0 <= n1 <= 3
    ensures IsLeap(400 * n400 + 100 * n100 + 4 * n4 + n1 + 1)
        <==> n1 == 3 && (n4 != 24 || n100 == 3)
  {
    var y := 400 * n400 + 100 * n100 + 4 * n4 + n1 + 1;
    assert y == 4 * (100 * n400 + 25 * n100 + n4) + (n1 + 1);
    assert y % 4 == 0 <==> n1 == 3;
    assert y == 100 * (4 * n400 + n100) + (4 * n4 + n1 + 1);
    assert y % 100 == 0 <==> n1 == 3 && n4 == 24;
    assert y == 400 * n400 + (100 * n100 + 4 * n4 + n1 + 1);
    assert y % 400 == 0 <==> n1 == 3 && n4 == 24 && n100 == 3;
  }

  /**
   * Within one 400-year cycle: the 100-, 4- and 1-year counts stay in range,
   * and the day left over lies inside its year.
   */
  lemma CycleRemainder(r400: int)
    requires 0 <= r400 < DaysPer400Years
    ensures var n100 := if r400 / DaysPer100Years < 3 then r400 / DaysPer100Years else 3;
      var r100 := r400 - DaysPer100Years * n100;
      var n4 := r100 / DaysPer4Years;
      var r4 := r100 % DaysPer4Years;
      var n1 := if r4 / 365 < 3 then r4 / 365 else 3;
      var doy := r4 - 365 * n1;
      && 0 <= n100 <= 3 && 0 <= n4 <= 24 && 0 <= n1 <= 3
      && r400 == 36524 * n100 + 1461 * n4 + 365 * n1 + doy
      && 0 <= doy && (doy < 365 || (doy == 365 && n1 == 3 && (n4 != 24 || n100 == 3)))
  {
    var n100 := if r400 / DaysPer100Years < 3 then r400 / DaysPer100Years else 3;
    var r100 := r400 - DaysPer100Years * n100;
    assert 0 <= r100 < 36525;
    assert n100 < 3 ==> r100 < 36524;
    var n4 := r100 / DaysPer4Years;
    var r4 := r100 % DaysPer4Years;
    assert r100 == 1461 * n4 + r4 && 0 <= r4 < 1461;
    assert 0 <= n4 <= 24;
    assert n4 == 24 && n100 < 3 ==> r4 < 1460;
    var n1 := if r4 / 365 < 3 then r4 / 365 else 3;
    var doy := r4 - 365 * n1;
    assert 0 <= doy < 366;
    assert n1 < 3 ==> doy < 365;
  }

  /** Within a 400-year cycle the decomposition agrees with the leap-year rule. */
  lemma YearInCycleCorrect(n400: int, r400: int)
    requires 0 <= r400 < DaysPer400Years
    ensures var (y, doy) := YearInCycle(n400, r400);
      0 <= doy < YearLength(y) && DaysBeforeYear(y) + doy == DaysPer400Years * n400 + r400
  {
    CycleRemainder(r400);
    var n100 := if r400 / DaysPer100Years < 3 then r400 / DaysPer100Years else 3;
    var r100 := r400 - DaysPer100Years * n100;
    var n4 := r100 / DaysPer4Years;
    var r4 := r100 % DaysPer4Years;
    var n1 := if r4 / 365 < 3 then r4 / 365 else 3;
    var y := 400 * n400 + 100 * n100 + 4 * n4 + n1 + 1;
    CycleDaysBeforeYear(n400, n100, n4, n1);
    CycleLeap(n400, n100, n4, n1);
    assert YearLength(y) == if n1 == 3 && (n4 != 24 || n100 == 3) then 366 else 365;
  }

  /** The cycle decomposition of a day number agrees with the leap-year rule. */
  lemma YearAndDayCorrect(z: int)
    ensures var (y, doy) := YearAndDay(z);
      0 <= doy < YearLength(y) && DaysBeforeYear(y) + doy == z
  {
    assert z == DaysPer400Years * (z / DaysPer400Years) + z % DaysPer400Years;
    YearInCycleCorrect(z / DaysPer400Years, z % DaysPer400Years);
  }

  /** The civil date of a day number. */
  function CivilFromDays(z: int): Civil {
    var (y, doy) := YearAndDay(z);
    var m := MonthOf(y, doy, 12);
    Civil(y, m, doy - DaysBeforeMonth(y, m) + 1)
  }

  /** The conversion is right: a valid date whose day number is the one converted. */
  lemma CivilFromDaysCorrect(z: int)
    ensures ValidCivil(CivilFromDays(z)) && DaysFromCivil(CivilFromDays(z)) == z
  {
    YearAndDayCorrect(z);
    var (y, doy) := YearAndDay(z);
    MonthOfCorrect(y, doy, 12);
    var m := MonthOf(y, doy, 12);
    DaysBeforeMonthStep(y, m);
  }

  /** Two day numbers with the same civil date are the same day. */
  lemma CivilFromDaysInjective(z1: int, z2: int)
    requires CivilFromDays(z1) == CivilFromDays(z2)
    ensures z1 == z2
  {
    CivilFromDaysCorrect(z1);
    CivilFromDaysCorrect(z2);
  }

  /** A broken-down UTC instant. */
  datatype DateTime = DateTime(date: Civil, hour: int, minute: int, second: int)

  predicate ValidDateTime(t: DateTime) {
    ValidCivil(t.date) && 0 <= t.hour < 24 && 0 <= t.minute < 60 && 0 <= t.second < 60
  }

  /** Seconds since 1970-01-01 00:00:00 of a broken-down instant. */
  function EpochSeconds(t: DateTime): int
    requires 1 <= t.date.month <= 12
  {
    (DaysFromCivil(t.date) - EpochDay) * 86400 + t.hour * 3600 + t.minute * 60 + t.second
  }

  /** The broken-down UTC instant `s` seconds after the epoch. */
  function FromEpochSeconds(s: int): DateTime {
    var sod := s % 86400;
    DateTime(CivilFromDays(s / 86400 + EpochDay), sod / 3600, sod % 3600 / 60, sod % 60)
  }

  /** The broken-down instant is valid and counts back to the same second. */
  lemma FromEpochSecondsCorrect(s: int)
    ensures ValidDateTime(FromEpochSeconds(s)) && EpochSeconds(FromEpochSeconds(s)) == s
  {
    SecondsSplit(s);
    CivilFromDaysCorrect(s / 86400 + EpochDay);
  }

  /** A second count splits into whole days and the hour, minute and second of the day. */
  lemma SecondsSplit(s: int)
    ensures var sod := s % 86400;
      s == 86400 * (s / 86400) + sod
      && 0 <= sod / 3600 < 24 && 0 <= sod % 3600 / 60 < 60 && 0 <= sod % 60 < 60
      && sod == 3600 * (sod / 3600) + 60 * (sod % 3600 / 60) + sod % 60
  {
    var sod := s % 86400;
    assert 0 <= sod < 86400;
    assert sod % 3600 == sod - 3600 * (sod / 3600);
  }

  /** Zero padded decimal rendering with exactly `width` digits. */
  function Pad(n: nat, width: nat): (s: string)
    ensures |s| == width
    ensures forall i :: 0 <= i < |s| ==> '0' <= s[i] <= '9'
    decreases width
  {
    if width == 0 then "" else Pad(n / 10, width - 1) + [Text.DigitChar(n % 10)]
  }

  /** Reads a string of decimal digits back as a number. */
  function Digits(s: string): nat
  {
    if s == [] then 0 else 10 * Digits(s[..|s| - 1]) + Text.DigitValue(s[|s| - 1])
  }

  function Pow10(k: nat): nat
  {
    if k == 0 then 1 else 10 * Pow10(k - 1)
  }

  lemma {:induction false} PadRoundTrip(n: nat, width: nat)
    requires n < Pow10(width)
    ensures Digits(Pad(n, width)) == n
  {
    if width > 0 {
      PadRoundTrip(n / 10, width - 1);
      var s := Pad(n, width);
      assert s[..|s| - 1] == Pad(n / 10, width - 1);
      Text.DigitRoundTrip(n % 10);
    }
  }

  /** `%Y-%m-%d` of a valid date whose year has at most four digits. */
  function DateText(c: Civil): (s: string)
    requires 0 <= c.year <= 9999 && ValidCivil(c)
    ensures |s| == 10
  {
    Pad(c.year, 4) + "-" + Pad(c.month, 2) + "-" + Pad(c.day, 2)
  }

  /** `%H:%M:%S` of a valid instant. */
  function ClockText(t: DateTime): (s: string)
    requires ValidDateTime(t)
    ensures |s| == 8
  {
    Pad(t.hour, 2) + ":" + Pad(t.minute, 2) + ":" + Pad(t.second, 2)
  }

  /** The date and the clock time joined by `dateTimeSep`. */
  function Format(t: DateTime, dateTimeSep: char): (s: string)
    requires 0 <= t.date.year <= 9999 && ValidDateTime(t)
    ensures |s| == 19
  {
    DateText(t.date) + [dateTimeSep] + ClockText(t)
  }

  function ParseDate(s: string): Civil
    requires |s| == 10
  {
    Civil(Digits(s[0..4]), Digits(s[5..7]), Digits(s[8..10]))
  }

  /** Reads back the fields of a rendered instant. */
  function Parse(s: string): DateTime
    requires |s| == 19
  {
    var clock := s[11..];
    DateTime(ParseDate(s[..10]), Digits(clock[0..2]), Digits(clock[3..5]), Digits(clock[6..8]))
  }

  lemma Pad1(n: nat)
    requires n < 10
    ensures Pad(n, 1) == [Text.DigitChar(n)]
  {
    assert n / 10 == 0 && n % 10 == n;
    assert Pad(n, 1) == Pad(0, 0) + [Text.DigitChar(n)];
  }

  /** Two-digit padding, digit by digit. */
  lemma Pad2(n: nat)
    requires n < 100
    ensures Pad(n, 2) == [Text.DigitChar(n / 10), Text.DigitChar(n % 10)]
  {
    var hi := n / 10;
    assert hi < 10 && hi % 10 == hi;
    Pad1(hi);
    assert Pad(n, 2) == Pad(hi, 1) + [Text.DigitChar(n % 10)];
  }

  /** Four-digit padding: the two leading digits, then the tens and the units. */
  lemma Pad4(n: nat)
    ensures Pad(n, 4) == Pad(n / 100, 2) + [Text.DigitChar(n / 10 % 10), Text.DigitChar(n % 10)]
  {
    assert n / 10 / 10 == n / 100;
    assert Pad(n, 4) == Pad(n / 10, 3) + [Text.DigitChar(n % 10)];
    assert Pad(n / 10, 3) == Pad(n / 100, 2) + [Text.DigitChar(n / 10 % 10)];
  }

  lemma DatePieces(c: Civil)
    requires 0 <= c.year <= 9999 && ValidCivil(c)
    ensures var s := DateText(c);
      s[0..4] == Pad(c.year, 4) && s[4] == '-' && s[5..7] == Pad(c.month, 2) && s[7] == '-'
      && s[8..10] == Pad(c.day, 2)
  {
  }

  lemma ClockPieces(t: DateTime)
    requires ValidDateTime(t)
    ensures var s := ClockText(t);
      s[0..2] == Pad(t.hour, 2) && s[2] == ':' && s[3..5] == Pad(t.minute, 2) && s[5] == ':'
      && s[6..8] == Pad(t.second, 2)
  {
  }

  lemma FormatPieces(t: DateTime, sep: char)
    requires 0 <= t.date.year <= 9999 && ValidDateTime(t)
    ensures var s := Format(t, sep);
      s[..10] == DateText(t.date) && s[10] == sep && s[11..] == ClockText(t)
  {
  }

  lemma DateParse(c: Civil)
    requires 0 <= c.year <= 9999 && ValidCivil(c)
    ensures ParseDate(DateText(c)) == c
  {
    DatePieces(c);
    assert Pow10(2) == 100 && Pow10(4) == 10000;
    PadRoundTrip(c.year, 4);
    PadRoundTrip(c.month, 2);
    PadRoundTrip(c.day, 2);
  }

  lemma ClockParse(t: DateTime)
    requires ValidDateTime(t)
    ensures var s := ClockText(t);
      Digits(s[0..2]) == t.hour && Digits(s[3..5]) == t.minute && Digits(s[6..8]) == t.second
  {
    ClockPieces(t);
    assert Pow10(2) == 100;
    PadRoundTrip(t.hour, 2);
    PadRoundTrip(t.minute, 2);
    PadRoundTrip(t.second, 2);
  }

  lemma FormatParse(t: DateTime, sep: char)
    requires 0 <= t.date.year <= 9999 && ValidDateTime(t)
    ensures Parse(Format(t, sep)) == t
  {
    FormatPieces(t, sep);
    DateParse(t.date);
    ClockParse(t);
  }

  /** Where the separators sit in a rendering, and that the rest are digits. */
  predicate Shaped(s: string, sep: char) {
    && |s| == 19
    && s[4] == '-' && s[7] == '-' && s[10] == sep && s[13] == ':' && s[16] == ':'
    && (forall i :: 0 <= i < 19 && i !in {4, 7, 10, 13, 16} ==> '0' <= s[i] <= '9')
  }

  lemma FormatShaped(t: DateTime, sep: char)
    requires 0 <= t.date.year <= 9999 && ValidDateTime(t)
    ensures Shaped(Format(t, sep), sep)
  {
    var s := Format(t, sep);
    var date, clock := DateText(t.date), ClockText(t);
    FormatPieces(t, sep);
    DatePieces(t.date);
    ClockPieces(t);
    forall i | 0 <= i < 19 && i !in {4, 7, 10, 13, 16} ensures '0' <= s[i] <= '9' {
      if i < 10 {
        assert s[i] == date[i];
        if i < 4 { assert date[i] == date[0..4][i]; }
        else if i < 7 { assert date[i] == date[5..7][i - 5]; }
        else { assert date[i] == date[8..10][i - 8]; }
      } else {
        assert s[i] == clock[i - 11];
        if i < 13 { assert clock[i - 11] == clock[0..2][i - 11]; }
        else if i < 16 { assert clock[i - 11] == clock[3..5][i - 14]; }
        else { assert clock[i - 11] == clock[6..8][i - 17]; }
      }
    }
    assert s[4] == date[4] && s[7] == date[7] && s[13] == clock[2] && s[16] == clock[5];
  }

  /**
   * `to_datetime(ms)`: the UTC time of `ms` milliseconds after the epoch,
   * sub-second part dropped. Python's datetime refuses years outside
   * 1..9999, which is the `None` case.
   */
  function ToDatetime(ms: int): (r: Option<string>)
    ensures r.Some? ==> |r.value| == 19
  {
    var t := FromEpochSeconds(ms / 1000);
    FromEpochSecondsCorrect(ms / 1000);
    if MinYear <= t.date.year <= MaxYear then Some(Format(t, ' ')) else None
  }

  /** `datetime.isoformat()` of a whole-second timestamp: the date and time joined by `T`. */
  function IsoFormat(s: int): (r: Option<string>)
    ensures r.Some? ==> |r.value| == 19
  {
    var t := FromEpochSeconds(s);
    FromEpochSecondsCorrect(s);
    if MinYear <= t.date.year <= MaxYear then Some(Format(t, 'T')) else None
  }

  /** A rendered timestamp is 19 characters with the fixed separators and in-range fields. */
  lemma ToDatetimeWellFormed(ms: int)
    requires ToDatetime(ms).Some?
    ensures var s := ToDatetime(ms).value;
      && Shaped(s, ' ')
      && ValidDateTime(Parse(s))
      && MinYear <= Parse(s).date.year <= MaxYear
  {
    var t := FromEpochSeconds(ms / 1000);
    FromEpochSecondsCorrect(ms / 1000);
    assert ToDatetime(ms).value == Format(t, ' ');
    FormatShaped(t, ' ');
    FormatParse(t, ' ');
  }

  /** Reading the rendered string back gives the timestamp's whole second. */
  lemma ToDatetimeRoundTrip(ms: int)
    requires ToDatetime(ms).Some?
    ensures ValidDateTime(Parse(ToDatetime(ms).value))
    ensures EpochSeconds(Parse(ToDatetime(ms).value)) == ms / 1000
  {
    var t := FromEpochSeconds(ms / 1000);
    FromEpochSecondsCorrect(ms / 1000);
    assert ToDatetime(ms).value == Format(t, ' ');
    FormatParse(t, ' ');
    assert Parse(ToDatetime(ms).value) == t;
    assert EpochSeconds(t) == ms / 1000;
  }

  /** Reading an ISO rendering back gives the timestamp it came from. */
  lemma IsoFormatRoundTrip(s: int)
    requires IsoFormat(s).Some?
    ensures |IsoFormat(s).value| == 19 && ValidDateTime(Parse(IsoFormat(s).value))
    ensures EpochSeconds(Parse(IsoFormat(s).value)) == s
  {
    var t := FromEpochSeconds(s);
    FromEpochSecondsCorrect(s);
    assert IsoFormat(s).value == Format(t, 'T');
    FormatParse(t, 'T');
  }

  /** Milliseconds within the same second render the same string. */
  lemma ToDatetimeDropsMilliseconds(ms: int, k: int)
    requires 0 <= k < 1000 && ms % 1000 == 0
    ensures ToDatetime(ms + k) == ToDatetime(ms)
  {
    assert (ms + k) / 1000 == ms / 1000;
  }

  /** Distinct whole seconds render distinct strings. */
  lemma ToDatetimeInjective(ms1: int, ms2: int)
    requires ToDatetime(ms1).Some? && ToDatetime(ms1) == ToDatetime(ms2)
    ensures ms1 / 1000 == ms2 / 1000
  {
    ToDatetimeRoundTrip(ms1);
    ToDatetimeRoundTrip(ms2);
  }

  lemma NewYear2021Date()
    ensures CivilFromDays(737790) == Civil(2021, 1, 1)
  {
    assert YearAndDay(737790) == (2021, 0);
    assert MonthOf(2021, 0, 12) == 1;
  }

  lemma SomeDigitChars()
    ensures Text.DigitChar(0) == '0' && Text.DigitChar(1) == '1' && Text.DigitChar(2) == '2'
    ensures Text.DigitChar(4) == '4'
  {
  }

  lemma Year2021()
    ensures Pad(2021, 4) == "2021"
  {
    Pad4(2021);
    Pad2(20);
    SomeDigitChars();
    assert Pad(2021, 4) == [Text.DigitChar(2), Text.DigitChar(0), Text.DigitChar(2), Text.DigitChar(1)];
  }

  lemma Year2024()
    ensures Pad(2024, 4) == "2024"
  {
    Pad4(2024);
    Pad2(20);
    SomeDigitChars();
    assert Pad(2024, 4) == [Text.DigitChar(2), Text.DigitChar(0), Text.DigitChar(2), Text.DigitChar(4)];
  }

  lemma TwoDigitFields()
    ensures Pad(0, 2) == "00" && Pad(1, 2) == "01" && Pad(12, 2) == "12"
  {
    Pad2(0);
    Pad2(1);
    Pad2(12);
    SomeDigitChars();
  }

  lemma NewYear2021Fields()
    ensures Pad(2021, 4) == "2021" && Pad(1, 2) == "01" && Pad(0, 2) == "00"
  {
    Year2021();
    TwoDigitFields();
  }

  lemma NewYear2021Text()
    ensures Format(DateTime(Civil(2021, 1, 1), 0, 0, 0), ' ') == "2021-01-01 00:00:00"
  {
    NewYear2021Fields();
    assert DateText(Civil(2021, 1, 1)) == "2021-01-01";
    assert ClockText(DateTime(Civil(2021, 1, 1), 0, 0, 0)) == "00:00:00";
  }

  lemma NewYear2021Instant()
    ensures FromEpochSeconds(1609459200) == DateTime(Civil(2021, 1, 1), 0, 0, 0)
  {
    NewYear2021Date();
    assert 1609459200 / 86400 == 18628 && 1609459200 % 86400 == 0;
  }

  /** The value the filter's own test pins: midnight of 2021-01-01. */
  lemma ToDatetimeNewYear2021()
    ensures ToDatetime(1609459200000) == Some("2021-01-01 00:00:00")
  {
    NewYear2021Instant();
    NewYear2021Text();
    assert 1609459200000 / 1000 == 1609459200;
  }

  lemma NoonJan2024Date()
    ensures CivilFromDays(738885) == Civil(2024, 1, 1)
  {
    assert YearAndDay(738885) == (2024, 0);
    assert MonthOf(2024, 0, 12) == 1;
  }

  lemma NoonJan2024Fields()
    ensures Pad(2024, 4) == "2024" && Pad(1, 2) == "01" && Pad(12, 2) == "12" && Pad(0, 2) == "00"
  {
    Year2024();
    TwoDigitFields();
  }

  lemma NoonJan2024Text()
    ensures Format(DateTime(Civil(2024, 1, 1), 12, 0, 0), 'T') == "2024-01-01T12:00:00"
  {
    NoonJan2024Fields();
    assert DateText(Civil(2024, 1, 1)) == "2024-01-01";
    assert ClockText(DateTime(Civil(2024, 1, 1), 12, 0, 0)) == "12:00:00";
  }

  lemma NoonJan2024Instant()
    ensures FromEpochSeconds(1704110400) == DateTime(Civil(2024, 1, 1), 12, 0, 0)
  {
    NoonJan2024Date();
    assert 1704110400 / 86400 == 19723 && 1704110400 % 86400 == 43200;
  }

  /** The instant the view's own check stores: noon of 2024-01-01. */
  lemma NoonJan2024()
    ensures IsoFormat(1704110400) == Some("2024-01-01T12:00:00")
  {
    NoonJan2024Instant();
    NoonJan2024Text();
    assert ValidDateTime(DateTime(Civil(2024, 1, 1), 12, 0, 0));
  }
}
