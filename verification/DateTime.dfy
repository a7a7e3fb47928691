/**
 * Date and date-time answers (packages/agent-runtime-contract/src/elicitation.ts:69-101): sections 5.6 and 5.7 and appendix D of
 * RFC 3339, over the day arithmetic that ECMAScript's `Date` is specified by. Instants are counted in minutes.
 */
module DateTime {
  import opened Text

  // ---------------------------------------------------------------- the Gregorian calendar

  predicate IsLeap(y: int)
    ensures IsLeap(y) <==> (y % 400 == 0 || (y % 4 == 0 && y % 100 != 0))
  {
    CenturiesNest(y);
    y % 4 == 0 && (y % 100 != 0 || y % 400 == 0)
  }

  function DaysInMonth(y: int, m: int): (days: int)
    ensures 1 <= m <= 12 ==> days == [31, if IsLeap(y) then 29 else 28, 31, 30, 31, 30, 31, 31, 30, 31, 30, 31][m - 1]
  {
    if m == 2 then if IsLeap(y) then 29 else 28
    else if m == 4 || m == 6 || m == 9 || m == 11 then 30
    else 31
  }

  function DaysInYear(y: int): int {
    if IsLeap(y) then 366 else 365
  }

  /** The day number of the first of January, days counted from 1970-01-01. */
  function DayFromYear(y: int): int {
    365 * (y - 1970) + (y - 1969) / 4 - (y - 1901) / 100 + (y - 1601) / 400
  }

  /** The days of the year before a month; a thirteenth month would begin the next year. */
  function DaysBefore(y: int, m: nat): int {
    if m <= 1 then 0 else DaysBefore(y, m - 1) + DaysInMonth(y, m - 1)
  }

  predicate IsDate(y: int, m: int, d: int) {
    1 <= m <= 12 && 1 <= d <= DaysInMonth(y, m)
  }

  function DayNumber(y: int, m: nat, d: int): int {
    DayFromYear(y) + DaysBefore(y, m) + d - 1
  }

  lemma FourYears(y: int)
    ensures (y - 1968) / 4 - (y - 1969) / 4 == if y % 4 == 0 then 1 else 0
  {
  }

  lemma Century(y: int)
    ensures (y - 1900) / 100 - (y - 1901) / 100 == if y % 100 == 0 then 1 else 0
  {
  }

  lemma FourCenturies(y: int)
    ensures (y - 1600) / 400 - (y - 1601) / 400 == if y % 400 == 0 then 1 else 0
  {
  }

  lemma CenturiesNest(y: int)
    ensures y % 400 == 0 ==> y % 100 == 0
    ensures y % 100 == 0 ==> y % 4 == 0
  {
  }

  lemma YearStep(y: int)
    ensures DayFromYear(y + 1) == DayFromYear(y) + DaysInYear(y)
  {
    FourYears(y);
    Century(y);
    FourCenturies(y);
    CenturiesNest(y);
    assert y + 1 - 1969 == y - 1968 && y + 1 - 1901 == y - 1900 && y + 1 - 1601 == y - 1600;
  }

  lemma MonthsMakeYear(y: int)
    ensures DaysBefore(y, 13) == DaysInYear(y)
  {
    assert DaysBefore(y, 2) == DaysBefore(y, 1) + DaysInMonth(y, 1) == 31;
    assert DaysBefore(y, 3) == 31 + DaysInMonth(y, 2);
    assert DaysBefore(y, 5) == 31 + DaysInMonth(y, 2) + 31 + 30;
    assert DaysBefore(y, 7) == DaysBefore(y, 5) + 31 + 30;
    assert DaysBefore(y, 9) == DaysBefore(y, 7) + 31 + 31;
    assert DaysBefore(y, 11) == DaysBefore(y, 9) + 30 + 31;
    assert DaysBefore(y, 13) == DaysBefore(y, 11) + 30 + 31;
  }

  lemma {:induction false} YearsIncrease(a: int, b: int)
    requires a < b
    ensures DayFromYear(a + 1) <= DayFromYear(b)
    decreases b - a
  {
    hide DayFromYear;
    if a + 1 < b {
      YearsIncrease(a, b - 1);
      YearStep(b - 1);
    }
  }

  lemma {:induction false} MonthsIncrease(y: int, a: nat, b: nat)
    requires 1 <= a < b
    ensures DaysBefore(y, a) + DaysInMonth(y, a) <= DaysBefore(y, b)
    decreases b - a
  {
    if a + 1 < b {
      MonthsIncrease(y, a, b - 1);
    }
  }

  // ---------------------------------------------------------------- from day numbers back to dates

  /** The year a day number falls in, searched from a guess. */
  function FindYear(guess: int, n: int): (y: int)
    ensures DayFromYear(y) <= n < DayFromYear(y + 1)
    decreases if n < DayFromYear(guess) then DayFromYear(guess) - n
              else if n >= DayFromYear(guess + 1) then n - DayFromYear(guess + 1) + 1 else 0
  {
    hide DayFromYear;
    YearStep(guess - 1);
    YearStep(guess);
    YearStep(guess + 1);
    if n < DayFromYear(guess) then FindYear(guess - 1, n)
    else if n >= DayFromYear(guess + 1) then FindYear(guess + 1, n)
    else guess
  }

  function YearOf(n: int): (y: int)
    ensures DayFromYear(y) <= n < DayFromYear(y + 1)
  {
    FindYear(1970 + n / 365, n)
  }

  /** The month whose days hold the `within`-th day of a year, searched from January on. */
  function FindMonth(y: int, within: int, m: nat): (r: nat)
    requires 1 <= m <= 12 && DaysBefore(y, m) <= within < DaysBefore(y, 13)
    ensures m <= r <= 12 && DaysBefore(y, r) <= within < DaysBefore(y, r + 1)
    decreases 12 - m
  {
    if within < DaysBefore(y, m + 1) then m else FindMonth(y, within, m + 1)
  }

  function MonthOf(n: int): (m: nat)
    ensures 1 <= m <= 12 && DaysBefore(YearOf(n), m) <= n - DayFromYear(YearOf(n)) < DaysBefore(YearOf(n), m + 1)
  {
    var y := YearOf(n);
    YearStep(y);
    MonthsMakeYear(y);
    FindMonth(y, n - DayFromYear(y), 1)
  }

  function DateOf(n: int): int {
    n - DayFromYear(YearOf(n)) - DaysBefore(YearOf(n), MonthOf(n)) + 1
  }

  /** Every day number is the day number of its own date. */
  lemma DateOfDay(n: int)
    ensures IsDate(YearOf(n), MonthOf(n), DateOf(n)) && DayNumber(YearOf(n), MonthOf(n), DateOf(n)) == n
  {
    hide DayFromYear;
    var y, m := YearOf(n), MonthOf(n);
    assert DaysBefore(y, m + 1) == DaysBefore(y, m) + DaysInMonth(y, m);
  }

  /** Every date is the date of its own day number: there is no other. */
  lemma DayOfDate(y: int, m: nat, d: int)
    requires IsDate(y, m, d)
    ensures YearOf(DayNumber(y, m, d)) == y && MonthOf(DayNumber(y, m, d)) == m && DateOf(DayNumber(y, m, d)) == d
  {
    hide DayFromYear;
    var n := DayNumber(y, m, d);
    var y', m' := YearOf(n), MonthOf(n);
    YearStep(y);
    MonthsMakeYear(y);
    MonthsIncrease(y, m, 13);
    DaysBeforeNonNegative(y, m);
    if y' < y { YearsIncrease(y', y); }
    if y < y' { YearsIncrease(y, y'); }
    assert DaysBefore(y, m' + 1) == DaysBefore(y, m') + DaysInMonth(y, m');
    if m' < m { MonthsIncrease(y, m', m); }
    if m < m' { MonthsIncrease(y, m, m'); }
  }

  lemma {:induction false} DaysBeforeNonNegative(y: int, m: nat)
    ensures DaysBefore(y, m) >= 0
  {
    if m > 1 { DaysBeforeNonNegative(y, m - 1); }
  }

  // ---------------------------------------------------------------- the end of a month

  ghost predicate IsLastDay(n: int, y: int, m: nat) {
    1 <= m <= 12 && n == DayNumber(y, m, DaysInMonth(y, m))
  }

  ghost predicate IsMonthEnd(n: int) {
    exists y, m :: IsLastDay(n, y, m)
  }

  /** A day ends its month exactly when the next day is a first. */
  lemma MonthEndsBeforeFirst(n: int)
    ensures DateOf(n + 1) == 1 <==> IsMonthEnd(n)
  {
    hide DayFromYear, DateOf;
    if DateOf(n + 1) == 1 {
      FirstFollowsEnd(n);
    }
    if IsMonthEnd(n) {
      var y, m: nat :| IsLastDay(n, y, m);
      EndPrecedesFirst(n, y, m);
    }
  }

  lemma FirstFollowsEnd(n: int)
    requires DateOf(n + 1) == 1
    ensures IsMonthEnd(n)
  {
    hide DayFromYear, DateOf;
    var y, m := YearOf(n + 1), MonthOf(n + 1);
    DateOfDay(n + 1);
    if m > 1 {
      assert IsLastDay(n, y, m - 1);
    } else {
      YearStep(y - 1);
      MonthsMakeYear(y - 1);
      assert DaysBefore(y - 1, 13) == DaysBefore(y - 1, 12) + DaysInMonth(y - 1, 12);
      assert IsLastDay(n, y - 1, 12);
    }
  }

  lemma EndPrecedesFirst(n: int, y: int, m: nat)
    requires IsLastDay(n, y, m)
    ensures DateOf(n + 1) == 1
  {
    hide DayFromYear, DateOf;
    assert DaysBefore(y, m + 1) == DaysBefore(y, m) + DaysInMonth(y, m);
    if m < 12 {
      DayOfDate(y, m + 1, 1);
      assert n + 1 == DayNumber(y, m + 1, 1);
    } else {
      YearStep(y);
      MonthsMakeYear(y);
      DayOfDate(y + 1, 1, 1);
      assert n + 1 == DayNumber(y + 1, 1, 1);
    }
  }

  // ---------------------------------------------------------------- a mutable date, in minutes

  function DayOf(t: int): int {
    t / 1440
  }

  function HourOf(t: int): int {
    t % 1440 / 60
  }

  function MinuteOf(t: int): int {
    t % 60
  }

  /** `setUTCFullYear(y, m - 1, d)`. */
  function WithDate(t: int, y: int, m: nat, d: int): int {
    DayNumber(y, m, d) * 1440 + t % 1440
  }

  /** `setUTCHours(h, m, …)`: whatever the numbers, they are carried. */
  function WithTime(t: int, h: int, m: int): int {
    DayOf(t) * 1440 + h * 60 + m
  }

  /** `setUTCMinutes(m)`. */
  function WithMinute(t: int, m: int): int {
    WithTime(t, HourOf(t), m)
  }

  /** `setUTCDate(d)`: the day is carried from the first of the month. */
  function WithDayOfMonth(t: int, d: int): int {
    (DayNumber(YearOf(DayOf(t)), MonthOf(DayOf(t)), 1) + d - 1) * 1440 + t % 1440
  }

  // ---------------------------------------------------------------- texts

  /** `/^\d{4}-\d{2}-\d{2}$/`. */
  predicate IsDateText(s: string) {
    && |s| == 10 && s[4] == '-' && s[7] == '-'
    && AllDigits(s[..4]) && AllDigits(s[5..7]) && AllDigits(s[8..10])
  }

  predicate ValidElicitationDate(s: string) {
    IsDateText(s) && IsDate(NumberOf(s[..4]), NumberOf(s[5..7]), NumberOf(s[8..10]))
  }

  /** The length of the longest run of digits at the start. */
  function DigitRun(s: string): (n: nat)
    ensures n <= |s| && AllDigits(s[..n]) && (n < |s| ==> !IsDigit(s[n]))
  {
    if s != "" && IsDigit(s[0]) then
      var n := DigitRun(s[1..]);
      assert s[..n + 1] == [s[0]] + s[1..][..n];
      n + 1
    else 0
  }

  /** `[Zz]|[+-]\d{2}:\d{2}`. */
  predicate IsZone(s: string) {
    || s == "Z" || s == "z"
    || (|s| == 6 && (s[0] == '+' || s[0] == '-') && AllDigits(s[1..3]) && s[3] == ':' && AllDigits(s[4..6]))
  }

  datatype Fields = Fields(year: nat, month: nat, day: nat, hour: nat, minute: nat, second: nat, offsetHour: nat, offsetMinute: nat, negative: bool)

  /** The zone left after an optional fraction: a point and at least one digit. */
  function ZoneText(rest: string): Option<string> {
    if rest == "" || rest[0] != '.' then Some(rest)
    else if DigitRun(rest[1..]) == 0 then None
    else Some(rest[1 + DigitRun(rest[1..])..])
  }

  function ParseDateTime(s: string): Option<Fields> {
    if !(|s| >= 20 && IsDateText(s[..10]) && (s[10] == 'T' || s[10] == 't') && AllDigits(s[11..13]) && s[13] == ':' &&
         AllDigits(s[14..16]) && s[16] == ':' && AllDigits(s[17..19])) then None
    else
      var zone := ZoneText(s[19..]);
      if zone.None? || !IsZone(zone.value) then None
      else
        var date, z := s[..10], zone.value;
        var local := |z| == 6;
        Some(Fields(NumberOf(date[..4]), NumberOf(date[5..7]), NumberOf(date[8..10]),
                    NumberOf(s[11..13]), NumberOf(s[14..16]), NumberOf(s[17..19]),
                    if local then NumberOf(z[1..3]) else 0, if local then NumberOf(z[4..6]) else 0, z[0] == '-'))
  }

  function Offset(f: Fields): int {
    (f.offsetHour * 60 + f.offsetMinute) * (if f.negative then -1 else 1)
  }

  /** The UTC minute a date-time denotes, in minutes since 1970-01-01T00:00Z. */
  function UtcMinute(f: Fields): int {
    DayNumber(f.year, f.month, f.day) * 1440 + f.hour * 60 + f.minute - Offset(f)
  }

  predicate InRange(f: Fields) {
    IsDate(f.year, f.month, f.day) && f.hour <= 23 && f.minute <= 59 && f.second <= 60 && f.offsetHour <= 23 && f.offsetMinute <= 59
  }

  /** 23:59 on the last day of some month, in UTC: where a leap second can be. */
  ghost predicate IsLeapMinute(t: int) {
    t % 1440 == 23 * 60 + 59 && IsMonthEnd(t / 1440)
  }

  /** What RFC 3339 asks of a date-time, said of the instant it denotes. */
  ghost predicate Accepts(f: Fields) {
    InRange(f) && (f.second == 60 ==> IsLeapMinute(UtcMinute(f)))
  }

  /** The date arithmetic of `rfc3339DateTime`, with its date changed step by step. */
  method EndsUtcMonth(f: Fields) returns (ok: bool)
    requires f.hour <= 23 && f.minute <= 59
    ensures ok <==> IsLeapMinute(UtcMinute(f))
  {
    hide DayNumber, DateOf, IsMonthEnd, WithTime, WithMinute, HourOf, MinuteOf, WithDayOfMonth, Offset;
    var utc := 0;
    utc := WithDate(utc, f.year, f.month, f.day);
    utc := WithTime(utc, f.hour, f.minute);
    Carried(DayNumber(f.year, f.month, f.day), f.hour, f.minute, Offset(f));
    utc := WithMinute(utc, MinuteOf(utc) - Offset(f));
    Clock(utc);
    if HourOf(utc) != 23 || MinuteOf(utc) != 59 { return false; }
    NextDay(utc);
    utc := WithDayOfMonth(utc, DateOf(DayOf(utc)) + 1);
    MonthEndsBeforeFirst(UtcMinute(f) / 1440);
    return DateOf(DayOf(utc)) == 1;
  }

  lemma ParsedDate(s: string)
    requires ParseDateTime(s).Some?
    ensures |s| >= 20
    ensures var f := ParseDateTime(s).value; ValidElicitationDate(s[..10]) <==> IsDate(f.year, f.month, f.day)
  {
    hide NumberOf, AllDigits, IsZone, ZoneText;
  }

  method Rfc3339DateTime(s: string) returns (ok: bool)
    ensures ok <==> ParseDateTime(s).Some? && Accepts(ParseDateTime(s).value)
  {
    hide ParseDateTime, ValidElicitationDate, IsDate, IsLeapMinute, UtcMinute;
    var parsed := ParseDateTime(s);
    if parsed.None? { return false; }
    ParsedDate(s);
    if !ValidElicitationDate(s[..10]) { return false; }
    var f := parsed.value;
    if f.hour > 23 || f.minute > 59 || f.second > 60 || f.offsetHour > 23 || f.offsetMinute > 59 { return false; }
    if f.second < 60 { return true; }
    ok := EndsUtcMonth(f);
  }

  lemma DayAndRest(day: int, rest: int)
    requires 0 <= rest < 1440
    ensures (day * 1440 + rest) / 1440 == day && (day * 1440 + rest) % 1440 == rest
  {
  }

  lemma HourAndMinute(hours: int, minute: int)
    requires 0 <= minute < 60
    ensures (hours * 60 + minute) % 60 == minute && (hours * 60 + minute) / 60 == hours
  {
  }

  lemma Carried(day: int, hour: int, minute: int, offset: int)
    requires 0 <= hour <= 23 && 0 <= minute <= 59
    ensures var t := WithTime(day * 1440 + 0 % 1440, hour, minute);
      t == day * 1440 + hour * 60 + minute && WithMinute(t, MinuteOf(t) - offset) == t - offset
  {
    DayAndRest(day, 0);
    var t := day * 1440 + hour * 60 + minute;
    assert t == WithTime(day * 1440, hour, minute);
    DayAndRest(day, hour * 60 + minute);
    HourAndMinute(hour, minute);
    HourAndMinute(day * 24 + hour, minute);
    assert t == (day * 24 + hour) * 60 + minute;
    assert DayOf(t) == day && HourOf(t) == hour && MinuteOf(t) == minute;
  }

  lemma Clock(t: int)
    ensures t % 1440 == 23 * 60 + 59 <==> HourOf(t) == 23 && MinuteOf(t) == 59
  {
    assert t % 60 == t % 1440 % 60;
  }

  lemma NextDay(t: int)
    ensures DayOf(WithDayOfMonth(t, DateOf(DayOf(t)) + 1)) == DayOf(t) + 1
  {
    hide DayFromYear, DaysBefore, DateOf;
    DateOfDay(DayOf(t));
  }

  /** Every spelling of one instant gets the same answer: only the UTC minute matters, not the offset it is written with. */
  lemma SpellingsAgree(f: Fields, g: Fields)
    requires InRange(f) && InRange(g) && f.second == g.second == 60 && UtcMinute(f) == UtcMinute(g)
    ensures Accepts(f) <==> Accepts(g)
  {
  }

  /** An offset moves the date by at most one day. */
  lemma DayShiftIsSmall(f: Fields)
    requires InRange(f)
    ensures var shift := UtcMinute(f) / 1440 - DayNumber(f.year, f.month, f.day); -1 <= shift <= 1
  {
    hide DayNumber;
    assert -1439 <= Offset(f) <= 1439;
  }

  /** A leap second is accepted exactly when its UTC minute is 23:59 of the last day of the month the UTC date names. */
  lemma LeapSecondByUtcDate(f: Fields)
    requires InRange(f) && f.second == 60
    ensures var n := UtcMinute(f) / 1440;
      Accepts(f) <==> UtcMinute(f) % 1440 == 1439 && DateOf(n) == DaysInMonth(YearOf(n), MonthOf(n))
  {
    hide DayFromYear, DaysBefore, DateOf, UtcMinute;
    var n := UtcMinute(f) / 1440;
    DateOfDay(n);
    if IsMonthEnd(n) {
      var y, m: nat :| IsLastDay(n, y, m);
      DayOfDate(y, m, DaysInMonth(y, m));
    }
    if DateOf(n) == DaysInMonth(YearOf(n), MonthOf(n)) {
      assert IsLastDay(n, YearOf(n), MonthOf(n));
    }
  }

  // ---------------------------------------------------------------- spelling a date-time

  function Power(width: nat): nat {
    if width == 0 then 1 else 10 * Power(width - 1)
  }

  /** The number in exactly `width` digits. */
  function Digits(n: nat, width: nat): (s: string)
    ensures |s| == width
  {
    if width == 0 then "" else Digits(n / 10, width - 1) + [DigitChar(n % 10)]
  }

  lemma {:induction false} DigitsReadBack(n: nat, width: nat)
    requires n < Power(width)
    ensures AllDigits(Digits(n, width)) && NumberOf(Digits(n, width)) == n
  {
    if width > 0 {
      DigitsReadBack(n / 10, width - 1);
      var s := Digits(n, width);
      assert s[..|s| - 1] == Digits(n / 10, width - 1);
    }
  }

  lemma {:induction false} ReadDigits(s: string)
    requires AllDigits(s)
    ensures Digits(NumberOf(s), |s|) == s && NumberOf(s) < Power(|s|)
  {
    if s != "" {
      var front, last := s[..|s| - 1], s[|s| - 1];
      ReadDigits(front);
      assert s == front + [last] && IsDigit(last);
      assert NumberOf(s) / 10 == NumberOf(front) && DigitChar(NumberOf(s) % 10) == last;
    }
  }

  function DateSpelled(y: nat, m: nat, d: nat): string {
    Digits(y, 4) + "-" + Digits(m, 2) + "-" + Digits(d, 2)
  }

  /** `Z`, or the sign, hours and minutes by which local time is ahead of UTC. */
  function ZoneSpelled(f: Fields, zulu: Option<char>): string {
    if zulu.Some? then [zulu.value] else [if f.negative then '-' else '+'] + Digits(f.offsetHour, 2) + ":" + Digits(f.offsetMinute, 2)
  }

  function Spelled(f: Fields, t: char, fraction: string, zulu: Option<char>): string {
    DateSpelled(f.year, f.month, f.day) + [t] +
    Digits(f.hour, 2) + ":" + Digits(f.minute, 2) + ":" + Digits(f.second, 2) +
    ((if fraction == "" then "" else "." + fraction) + ZoneSpelled(f, zulu))
  }

  /** Fields in their widths, spelled with the letters section 5.6 of RFC 3339 allows. */
  predicate MaySpell(f: Fields, t: char, fraction: string, zulu: Option<char>) {
    && f.year < 10_000 && f.month < 100 && f.day < 100 && f.hour < 100 && f.minute < 100 && f.second < 100
    && f.offsetHour < 100 && f.offsetMinute < 100
    && (t == 'T' || t == 't') && AllDigits(fraction)
    && (zulu.Some? ==> (zulu.value == 'Z' || zulu.value == 'z') && f.offsetHour == 0 && f.offsetMinute == 0 && !f.negative)
  }

  lemma DatePieces(y: nat, m: nat, d: nat)
    requires y < 10_000 && m < 100 && d < 100
    ensures var s := DateSpelled(y, m, d);
      IsDateText(s) && NumberOf(s[..4]) == y && NumberOf(s[5..7]) == m && NumberOf(s[8..10]) == d
  {
    hide Digits, NumberOf, AllDigits;
    Powers();
    DigitsReadBack(y, 4);
    DigitsReadBack(m, 2);
    DigitsReadBack(d, 2);
    var s := DateSpelled(y, m, d);
    assert s[..4] == Digits(y, 4) && s[5..7] == Digits(m, 2) && s[8..10] == Digits(d, 2);
  }

  lemma Powers()
    ensures Power(2) == 100 && Power(4) == 10_000
  {
    assert Power(3) == 10 * Power(2);
  }

  lemma Slices(date: string, t: char, hh: string, mm: string, ss: string, rest: string)
    requires |date| == 10 && |hh| == |mm| == |ss| == 2
    ensures var s := date + [t] + hh + ":" + mm + ":" + ss + rest;
      && |s| == 19 + |rest| && s[..10] == date && s[10] == t && s[11..13] == hh && s[13] == ':' && s[14..16] == mm && s[16] == ':'
      && s[17..19] == ss && s[19..] == rest
  {
  }

  lemma {:induction false} DigitRunIs(digits: string, rest: string)
    requires AllDigits(digits) && (rest == "" || !IsDigit(rest[0]))
    ensures DigitRun(digits + rest) == |digits|
  {
    if digits == "" {
      assert digits + rest == rest;
    } else {
      assert (digits + rest)[0] == digits[0] && (digits + rest)[1..] == digits[1..] + rest;
      DigitRunIs(digits[1..], rest);
    }
  }

  lemma ZoneFollows(fraction: string, zone: string)
    requires AllDigits(fraction) && IsZone(zone)
    ensures ZoneText((if fraction == "" then "" else "." + fraction) + zone) == Some(zone)
  {
    hide AllDigits;
    ZoneStarts(zone);
    if fraction == "" {
      assert "" + zone == zone;
    } else {
      var rest := "." + fraction + zone;
      assert rest[1..] == fraction + zone;
      DigitRunIs(fraction, zone);
      assert rest[1 + |fraction|..] == zone;
    }
  }

  lemma ZoneStarts(zone: string)
    requires IsZone(zone)
    ensures zone != "" && zone[0] != '.' && !IsDigit(zone[0])
  {
  }

  lemma ZonePieces(f: Fields, t: char, fraction: string, zulu: Option<char>)
    requires MaySpell(f, t, fraction, zulu)
    ensures var z := ZoneSpelled(f, zulu);
      && IsZone(z) && (z[0] == '-' <==> f.negative)
      && (if |z| == 6 then NumberOf(z[1..3]) == f.offsetHour && NumberOf(z[4..6]) == f.offsetMinute
          else f.offsetHour == 0 && f.offsetMinute == 0)
  {
    hide Digits, NumberOf, AllDigits;
    Powers();
    DigitsReadBack(f.offsetHour, 2);
    DigitsReadBack(f.offsetMinute, 2);
    var z := ZoneSpelled(f, zulu);
    if zulu.None? { assert z[1..3] == Digits(f.offsetHour, 2) && z[4..6] == Digits(f.offsetMinute, 2); }
  }

  /** Every spelling of some fields is read as those fields: each number from its own place, and the sign of the offset as written. */
  lemma SpelledIsRead(f: Fields, t: char, fraction: string, zulu: Option<char>)
    requires MaySpell(f, t, fraction, zulu)
    ensures ParseDateTime(Spelled(f, t, fraction, zulu)) == Some(f)
  {
    hide Digits, NumberOf, AllDigits, IsZone, ZoneText, DateSpelled, ZoneSpelled, Power;
    var date, hh, mm, ss := DateSpelled(f.year, f.month, f.day), Digits(f.hour, 2), Digits(f.minute, 2), Digits(f.second, 2);
    var rest := (if fraction == "" then "" else "." + fraction) + ZoneSpelled(f, zulu);
    Powers();
    DatePieces(f.year, f.month, f.day);
    DigitsReadBack(f.hour, 2);
    DigitsReadBack(f.minute, 2);
    DigitsReadBack(f.second, 2);
    Slices(date, t, hh, mm, ss, rest);
    ZonePieces(f, t, fraction, zulu);
    ZoneFollows(fraction, ZoneSpelled(f, zulu));
    ZoneIsSome(ZoneSpelled(f, zulu));
  }

  lemma ZoneIsSome(z: string)
    requires IsZone(z)
    ensures z != "" && (|z| == 1 || |z| == 6)
  {
  }

  lemma DigitsOf(s: string, i: nat, j: nat)
    requires i <= j <= |s| && AllDigits(s[i..j])
    ensures Digits(NumberOf(s[i..j]), j - i) == s[i..j] && NumberOf(s[i..j]) < Power(j - i)
  {
    hide Digits, NumberOf, AllDigits, Power;
    ReadDigits(s[i..j]);
  }

  lemma DateIsSpelled(s: string)
    requires IsDateText(s)
    ensures s == DateSpelled(NumberOf(s[..4]), NumberOf(s[5..7]), NumberOf(s[8..10]))
    ensures NumberOf(s[..4]) < 10_000 && NumberOf(s[5..7]) < 100 && NumberOf(s[8..10]) < 100
  {
    hide Digits, NumberOf, AllDigits, Power;
    Powers();
    assert s[0..4] == s[..4];
    DigitsOf(s, 0, 4);
    DigitsOf(s, 5, 7);
    DigitsOf(s, 8, 10);
    assert s == s[..4] + [s[4]] + s[5..7] + [s[7]] + s[8..10];
  }

  lemma RestIsSpelled(rest: string) returns (fraction: string)
    requires ZoneText(rest).Some?
    ensures AllDigits(fraction) && rest == (if fraction == "" then "" else "." + fraction) + ZoneText(rest).value
  {
    if rest == "" || rest[0] != '.' {
      fraction := "";
      assert "" + rest == rest;
    } else {
      var n := DigitRun(rest[1..]);
      fraction := rest[1..][..n];
      assert rest == "." + fraction + rest[1 + n..];
    }
  }

  lemma ZoneIsSpelled(z: string, f: Fields) returns (zulu: Option<char>)
    requires IsZone(z) && f.negative == (z[0] == '-')
    requires f.offsetHour == (if |z| == 6 then NumberOf(z[1..3]) else 0) && f.offsetMinute == (if |z| == 6 then NumberOf(z[4..6]) else 0)
    ensures z == ZoneSpelled(f, zulu) && f.offsetHour < 100 && f.offsetMinute < 100
    ensures zulu.Some? ==> (zulu.value == 'Z' || zulu.value == 'z') && f.offsetHour == 0 && f.offsetMinute == 0 && !f.negative
  {
    hide Digits, NumberOf, AllDigits, Power;
    Powers();
    if |z| == 6 {
      zulu := None;
      DigitsOf(z, 1, 3);
      DigitsOf(z, 4, 6);
      assert z == [z[0]] + z[1..3] + [z[3]] + z[4..6];
    } else {
      zulu := Some(z[0]);
      assert z == [z[0]];
    }
  }

  /** And nothing else is read: a text that is read as some fields is one of their spellings. */
  lemma ReadIsSpelled(s: string) returns (t: char, fraction: string, zulu: Option<char>)
    requires ParseDateTime(s).Some?
    ensures MaySpell(ParseDateTime(s).value, t, fraction, zulu) && s == Spelled(ParseDateTime(s).value, t, fraction, zulu)
  {
    hide Digits, NumberOf, AllDigits, Power, ZoneText, IsZone, DateSpelled, ZoneSpelled, IsDateText;
    var f, z := ParseDateTime(s).value, ZoneText(s[19..]).value;
    Powers();
    t := s[10];
    DateIsSpelled(s[..10]);
    DigitsOf(s, 11, 13);
    DigitsOf(s, 14, 16);
    DigitsOf(s, 17, 19);
    fraction := RestIsSpelled(s[19..]);
    ZoneIsSome(z);
    zulu := ZoneIsSpelled(z, f);
    assert s == s[..10] + [s[10]] + s[11..13] + [s[13]] + s[14..16] + [s[16]] + s[17..19] + s[19..];
  }

  /** Section 5.8 of RFC 3339: one leap second at the end of 1990, spelled in UTC and in Pacific time; and not with the sign turned. */
  lemma LeapSecondExamples()
    ensures Accepts(Fields(1990, 12, 31, 23, 59, 60, 0, 0, false))
    ensures Accepts(Fields(1990, 12, 31, 15, 59, 60, 8, 0, true))
    ensures !Accepts(Fields(1990, 12, 31, 15, 59, 60, 8, 0, false))
    ensures UtcMinute(Fields(1990, 12, 31, 23, 59, 60, 0, 0, false)) == UtcMinute(Fields(1990, 12, 31, 15, 59, 60, 8, 0, true))
  {
    hide DayNumber, IsMonthEnd;
    var n := DayNumber(1990, 12, 31);
    DecemberEnds();
    DayAndRest(n, 1439);
    DayAndRest(n, 7 * 60 + 59);
    assert UtcMinute(Fields(1990, 12, 31, 15, 59, 60, 8, 0, false)) == n * 1440 + 7 * 60 + 59;
  }

  lemma DecemberEnds()
    ensures IsMonthEnd(DayNumber(1990, 12, 31))
  {
    hide DayNumber;
    assert DaysInMonth(1990, 12) == 31;
    assert IsLastDay(DayNumber(1990, 12, 31), 1990, 12);
  }

  /** The day count starts where ECMAScript's does. */
  lemma Epoch()
    ensures DayNumber(1970, 1, 1) == 0 && DayNumber(2000, 1, 1) == 10_957
  {
  }
}
