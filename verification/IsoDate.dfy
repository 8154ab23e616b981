/** `Date.prototype.toISOString` (section 21.4.1 of ECMA-262): the proleptic Gregorian calendar over the whole
    range of time values, four-digit years from 0 to 9999 and signed six-digit years outside. */
module IsoDate {
  import opened Tables
  import opened Base64Url

  const MAX_TIME: int := 8_640_000_000_000_000

  /** The time values of valid Dates. */
  type TimeValue = t: int | -MAX_TIME <= t <= MAX_TIME

  datatype Civil = Civil(year: int, month: int, day: int, hour: int, minute: int, second: int, milli: int)

  predicate Leap(y: int) {
    y % 4 == 0 && (y % 100 != 0 || y % 400 == 0)
  }

  function DaysInYear(y: int): int {
    if Leap(y) then 366 else 365
  }

  /** DayFromYear: the day number of 1 January. */
  function DayFromYear(y: int): int {
    365 * (y - 1970) + (y - 1969) / 4 - (y - 1901) / 100 + (y - 1601) / 400
  }

  lemma LeapMeans(y: int)
    ensures Leap(y) <==> y % 4 == 0 && (y % 100 != 0 || y % 400 == 0)
  {
  }

  lemma CenturyIsFourth(y: int)
    ensures y % 100 == 0 ==> y % 4 == 0
    ensures y % 400 == 0 ==> y % 100 == 0
  {
  }

  /** A floored quotient steps exactly at the multiples. */
  lemma FloorStep(y: int, base: int, n: int)
    requires (base == 1969 && n == 4) || (base == 1901 && n == 100) || (base == 1601 && n == 400)
    ensures (y + 1 - base) / n - (y - base) / n == if y % n == 0 then 1 else 0
  {
  }

  lemma YearLength(y: int)
    ensures DayFromYear(y + 1) - DayFromYear(y) == DaysInYear(y)
  {
    FloorStep(y, 1969, 4);
    FloorStep(y, 1901, 100);
    FloorStep(y, 1601, 400);
    CenturyIsFourth(y);
    hide Leap;
    assert Leap(y) <==> y % 4 == 0 && (y % 100 != 0 || y % 400 == 0) by { LeapMeans(y); }
  }

  /** YearFromTime: the largest year that starts no later than the day. */
  function YearFrom(day: int, y: int): (r: int)
    requires DayFromYear(y) <= day
    ensures DayFromYear(r) <= day < DayFromYear(r + 1)
    ensures y <= r
    decreases day - DayFromYear(y)
  {
    YearLength(y);
    if DayFromYear(y + 1) <= day then YearFrom(day, y + 1) else y
  }

  const FIRST_YEAR: int := -271822

  /** The day within the year on which month m (0 to 12) starts. */
  function MonthStart(m: int, leap: bool): int
    requires 0 <= m <= 12
  {
    [0, 31, 59, 90, 120, 151, 181, 212, 243, 273, 304, 334, 365][m] + if leap && m >= 2 then 1 else 0
  }

  function MonthFrom(dayInYear: int, leap: bool, m: int): (r: int)
    requires 0 <= m < 12 && MonthStart(m, leap) <= dayInYear < MonthStart(12, leap)
    ensures 0 <= r < 12 && MonthStart(r, leap) <= dayInYear < MonthStart(r + 1, leap)
    decreases 12 - m
  {
    if m < 11 && MonthStart(m + 1, leap) <= dayInYear then MonthFrom(dayInYear, leap, m + 1) else m
  }

  lemma MonthLength(m: int, leap: bool)
    requires 0 <= m < 12
    ensures MonthStart(m + 1, leap) - MonthStart(m, leap) <= 31
  {
  }

  /** Years start in order, so the year of a time value lies between those of the extreme ones. */
  lemma YearsOrdered(y: int, low: int, day: int)
    requires DayFromYear(y) <= day < DayFromYear(y + 1) && -100_000_000 <= day <= 100_000_000
    requires low == -271821
    ensures low <= y <= 275760
  {
  }

  /** Year, month from 1, and day of the month. */
  function DateOf(day: int): (r: (int, int, int))
    requires -100_000_000 <= day <= 100_000_000
    ensures -271821 <= r.0 <= 275760 && 1 <= r.1 <= 12 && 1 <= r.2 <= 31
    ensures DayFromYear(r.0) + MonthStart(r.1 - 1, Leap(r.0)) + r.2 - 1 == day
  {
    var y := YearFrom(day, FIRST_YEAR);
    YearLength(y);
    YearsOrdered(y, FIRST_YEAR + 1, day);
    var m := MonthFrom(day - DayFromYear(y), Leap(y), 0);
    MonthLength(m, Leap(y));
    (y, m + 1, day - DayFromYear(y) - MonthStart(m, Leap(y)) + 1)
  }

  function ToCivil(t: TimeValue): (c: Civil)
    ensures -271821 <= c.year <= 275760
    ensures 1 <= c.month <= 12 && 1 <= c.day <= 31
    ensures 0 <= c.hour < 24 && 0 <= c.minute < 60 && 0 <= c.second < 60 && 0 <= c.milli < 1000
  {
    var (y, m, d) := DateOf(t / DAY);
    var ms := t % DAY;
    Civil(y, m, d, ms / 3_600_000, ms / 60_000 % 60, ms / 1000 % 60, ms % 1000)
  }

  lemma {:induction false} StartsGrow(a: int, b: int)
    requires a <= b
    ensures DayFromYear(a) <= DayFromYear(b)
    decreases b - a
  {
    if a < b {
      StartsGrow(a, b - 1);
      YearLength(b - 1);
    }
  }

  /** MakeDate and MakeTime of the fields. */
  function FromCivil(c: Civil): int
    requires 1 <= c.month <= 12
  {
    (DayFromYear(c.year) + MonthStart(c.month - 1, Leap(c.year)) + c.day - 1) * DAY
      + c.hour * 3_600_000 + c.minute * 60_000 + c.second * 1000 + c.milli
  }

  lemma CivilRoundTrip(t: TimeValue)
    ensures FromCivil(ToCivil(t)) == t
  {
    hide MonthStart, DayFromYear, Leap;
    var ms := t % DAY;
    assert ms == ms / 1000 * 1000 + ms % 1000;
    assert ms / 60_000 == ms / 1000 / 60 && ms / 3_600_000 == ms / 60_000 / 60;
    assert t == t / DAY * DAY + ms;
  }

  // ---------------------------------------------------------------- text

  function Pow10(k: nat): int {
    if k == 0 then 1 else 10 * Pow10(k - 1)
  }

  function Digit(v: int): CodeUnit
    requires 0 <= v < 10
  {
    '0' as int + v
  }

  /** n in exactly k decimal digits. */
  function Digits(n: nat, k: nat): (r: JsString)
    ensures |r| == k
  {
    if k == 0 then [] else Digits(n / 10, k - 1) + [Digit(n % 10)]
  }

  function Value(s: JsString): int {
    if s == [] then 0 else 10 * Value(s[..|s| - 1]) + (s[|s| - 1] - '0' as int)
  }

  lemma {:induction false} DigitsRead(n: nat, k: nat)
    requires n < Pow10(k)
    ensures Value(Digits(n, k)) == n
  {
    if k > 0 {
      DigitsRead(n / 10, k - 1);
      assert Digits(n, k)[..k - 1] == Digits(n / 10, k - 1);
    }
  }

  function YearText(y: int): JsString
    requires -1_000_000 < y < 1_000_000
  {
    if 0 <= y <= 9999 then Digits(y, 4)
    else if y < 0 then ['-' as int] + Digits(-y, 6)
    else ['+' as int] + Digits(y, 6)
  }

  function DayText(c: Civil): JsString
    requires 0 <= c.month && 0 <= c.day && 0 <= c.hour && 0 <= c.minute && 0 <= c.second && 0 <= c.milli
  {
    ['-' as int] + Digits(c.month, 2) + ['-' as int] + Digits(c.day, 2) + ['T' as int] + Digits(c.hour, 2)
      + [':' as int] + Digits(c.minute, 2) + [':' as int] + Digits(c.second, 2) + ['.' as int] + Digits(c.milli, 3)
      + ['Z' as int]
  }

  function ToISOString(t: TimeValue): JsString {
    var c := ToCivil(t);
    YearText(c.year) + DayText(c)
  }

  function ReadYear(s: JsString): int {
    if s == [] then 0
    else if s[0] == '-' as int then -Value(s[1..])
    else if s[0] == '+' as int then Value(s[1..])
    else Value(s)
  }

  /** Reads the 20 characters after the year. */
  function ReadDay(year: int, s: JsString): Civil
    requires |s| == 20
  {
    Civil(year, Value(s[1..3]), Value(s[4..6]), Value(s[7..9]), Value(s[10..12]), Value(s[13..15]), Value(s[16..19]))
  }

  predicate IsDigitAt(s: JsString, i: int) {
    0 <= i < |s| && '0' as int <= s[i] <= '9' as int
  }

  /** Digits and separators stand where the format wants them. */
  predicate InFormat(s: JsString) {
    var n := |s| - 20;
    && (n == 4 || (n == 7 && (s[0] == '+' as int || s[0] == '-' as int)))
    && s[n] == '-' as int && s[n + 3] == '-' as int && s[n + 6] == 'T' as int && s[n + 9] == ':' as int
    && s[n + 12] == ':' as int && s[n + 15] == '.' as int && s[n + 19] == 'Z' as int
    && forall i :: 0 <= i < |s| && i !in [n, n + 3, n + 6, n + 9, n + 12, n + 15, n + 19] && !(n == 7 && i == 0) ==>
         IsDigitAt(s, i)
  }

  /** The instant an ISO string in the date-time format of section 21.4.1.32 of ECMA-262 stands for; nothing
      else is read. */
  function ReadISO(s: JsString): Option<int> {
    if |s| < 20 || !InFormat(s) then None
    else
      var c := ReadDay(ReadYear(s[..|s| - 20]), s[|s| - 20..]);
      if 1 <= c.month <= 12 then Some(FromCivil(c)) else None
  }

  lemma Pow10Values()
    ensures Pow10(2) == 100 && Pow10(3) == 1000 && Pow10(4) == 10_000 && Pow10(6) == 1_000_000
  {
  }

  lemma YearReads(y: int)
    requires -1_000_000 < y < 1_000_000
    ensures ReadYear(YearText(y)) == y
  {
    Pow10Values();
    if 0 <= y <= 9999 {
      DigitsRead(y, 4);
      assert Digits(y, 4)[0] == Digits(y / 10, 3)[0] == Digits(y / 10 / 10, 2)[0] == Digits(y / 10 / 10 / 10, 1)[0];
    } else {
      DigitsRead(if y < 0 then -y else y, 6);
      assert YearText(y)[1..] == Digits(if y < 0 then -y else y, 6);
    }
  }

  lemma DayReads(c: Civil)
    requires 0 <= c.month < 100 && 0 <= c.day < 100 && 0 <= c.hour < 100 && 0 <= c.minute < 100
    requires 0 <= c.second < 100 && 0 <= c.milli < 1000
    ensures |DayText(c)| == 20 && ReadDay(c.year, DayText(c)) == c
  {
    hide Digits, Value;
    Pow10Values();
    DigitsRead(c.month, 2);
    DigitsRead(c.day, 2);
    DigitsRead(c.hour, 2);
    DigitsRead(c.minute, 2);
    DigitsRead(c.second, 2);
    DigitsRead(c.milli, 3);
    var s := DayText(c);
    assert s[1..3] == Digits(c.month, 2);
    assert s[4..6] == Digits(c.day, 2);
    assert s[7..9] == Digits(c.hour, 2);
    assert s[10..12] == Digits(c.minute, 2);
    assert s[13..15] == Digits(c.second, 2);
    assert s[16..19] == Digits(c.milli, 3);
  }

  lemma {:induction false} DigitsAre(n: nat, k: nat, i: int)
    requires 0 <= i < k
    ensures '0' as int <= Digits(n, k)[i] <= '9' as int
  {
    if i < k - 1 { DigitsAre(n / 10, k - 1, i); }
  }

  lemma YearFormat(y: int)
    requires -1_000_000 < y < 1_000_000
    ensures var s := YearText(y);
      && (if 0 <= y <= 9999 then |s| == 4
          else |s| == 7 && s[0] == if y < 0 then '-' as int else '+' as int)
      && forall i :: |s| - (if |s| == 4 then 4 else 6) <= i < |s| ==> IsDigitAt(s, i)
  {
    hide Digits;
    var s := YearText(y);
    var v := if y < 0 then -y else y;
    forall i | |s| - (if |s| == 4 then 4 else 6) <= i < |s| ensures IsDigitAt(s, i) {
      if |s| == 4 { DigitsAre(v, 4, i); } else { DigitsAre(v, 6, i - 1); }
    }
  }

  /** n in k digits, standing in s from `at`. */
  lemma DigitsIn(s: JsString, at: nat, n: nat, k: nat)
    requires at + k <= |s| && s[at..at + k] == Digits(n, k)
    ensures forall i :: at <= i < at + k ==> IsDigitAt(s, i)
  {
    forall i | at <= i < at + k ensures IsDigitAt(s, i) {
      DigitsAre(n, k, i - at);
      assert s[i] == s[at..at + k][i - at];
    }
  }

  lemma DayFormat(c: Civil)
    requires 0 <= c.month && 0 <= c.day && 0 <= c.hour && 0 <= c.minute && 0 <= c.second && 0 <= c.milli
    ensures var s := DayText(c);
      && |s| == 20 && s[0] == '-' as int && s[3] == '-' as int && s[6] == 'T' as int && s[9] == ':' as int
      && s[12] == ':' as int && s[15] == '.' as int && s[19] == 'Z' as int
      && forall i :: 0 <= i < 20 && i !in [0, 3, 6, 9, 12, 15, 19] ==> IsDigitAt(s, i)
  {
    hide Digits;
    var s := DayText(c);
    DigitsIn(s, 1, c.month, 2);
    DigitsIn(s, 4, c.day, 2);
    DigitsIn(s, 7, c.hour, 2);
    DigitsIn(s, 10, c.minute, 2);
    DigitsIn(s, 13, c.second, 2);
    DigitsIn(s, 16, c.milli, 3);
  }

  /** The text is in the format of section 21.4.1.32 of ECMA-262: a year of four digits from 0 to 9999, of a sign
      and six digits otherwise, and after it -MM-DDTHH:mm:ss.sssZ. */
  lemma ISOFormat(t: TimeValue)
    ensures var s := ToISOString(t);
            var n := |s| - 20;
            var year := ToCivil(t).year;
      && (if 0 <= year <= 9999 then n == 4
          else n == 7 && s[0] == if year < 0 then '-' as int else '+' as int)
      && s[n] == '-' as int && s[n + 3] == '-' as int && s[n + 6] == 'T' as int && s[n + 9] == ':' as int
      && s[n + 12] == ':' as int && s[n + 15] == '.' as int && s[n + 19] == 'Z' as int
      && (forall i :: n <= i < |s| && i !in [n, n + 3, n + 6, n + 9, n + 12, n + 15, n + 19] ==>
            '0' as int <= s[i] <= '9' as int)
      && (forall i :: (if n == 4 then 0 else 1) <= i < n ==> '0' as int <= s[i] <= '9' as int)
  {
    hide YearText, DayText, ToCivil;
    var c := ToCivil(t);
    YearFormat(c.year);
    DayFormat(c);
    var s, year, day := ToISOString(t), YearText(c.year), DayText(c);
    var n := |s| - 20;
    assert forall i :: 0 <= i < n ==> s[i] == year[i];
    assert forall i :: n <= i < |s| ==> s[i] == day[i - n];
    forall i | n <= i < |s| && i !in [n, n + 3, n + 6, n + 9, n + 12, n + 15, n + 19]
      ensures '0' as int <= s[i] <= '9' as int
    {
      assert IsDigitAt(day, i - n);
    }
    forall i | (if n == 4 then 0 else 1) <= i < n ensures '0' as int <= s[i] <= '9' as int {
      assert IsDigitAt(year, i);
    }
  }

  lemma FormatIsRead(t: TimeValue)
    ensures InFormat(ToISOString(t))
  {
    hide ToISOString, ToCivil;
    ISOFormat(t);
    var s := ToISOString(t);
    var n := |s| - 20;
    forall i | 0 <= i < |s| && i !in [n, n + 3, n + 6, n + 9, n + 12, n + 15, n + 19] && !(n == 7 && i == 0)
      ensures IsDigitAt(s, i)
    {
      if i < n { assert (if n == 4 then 0 else 1) <= i; }
    }
  }

  /** The ISO text of every time value reads back as that time value. */
  lemma ISORoundTrip(t: TimeValue)
    ensures ReadISO(ToISOString(t)) == Some(t)
  {
    hide YearText, DayText, ReadYear, ReadDay, FromCivil, InFormat;
    var c := ToCivil(t);
    YearReads(c.year);
    DayReads(c);
    CivilRoundTrip(t);
    var s := ToISOString(t);
    assert s[..|s| - 20] == YearText(c.year) && s[|s| - 20..] == DayText(c);
    FormatIsRead(t);
  }

  /** Every unit lies between '+' and 'Z'. */
  lemma ISOUnits(t: TimeValue)
    ensures forall i :: 0 <= i < |ToISOString(t)| ==> 0x2B <= ToISOString(t)[i] <= 0x5A
  {
    hide ToISOString, ToCivil;
    ISOFormat(t);
    var s := ToISOString(t);
    var n := |s| - 20;
    forall i | 0 <= i < |s| ensures 0x2B <= s[i] <= 0x5A {
      if i < n { assert i == 0 || '0' as int <= s[i] <= '9' as int; }
    }
  }

  /** Distinct instants have distinct ISO strings, from the year -271821 to the year 275760. */
  lemma ISOInjective(t: TimeValue, u: TimeValue)
    ensures ToISOString(t) == ToISOString(u) <==> t == u
  {
    hide ToISOString, ReadISO;
    ISORoundTrip(t);
    ISORoundTrip(u);
  }

  // ---------------------------------------------------------------- the calendar, day by day

  function DaysInMonth(m: int, leap: bool): int {
    if m == 2 then if leap then 29 else 28
    else if m == 4 || m == 6 || m == 9 || m == 11 then 30
    else 31
  }

  /** The day after a date, by the rules on a wall calendar. */
  function NextDate(date: (int, int, int)): (int, int, int) {
    var (y, m, d) := date;
    if d < DaysInMonth(m, Leap(y)) then (y, m, d + 1)
    else if m < 12 then (y, m + 1, 1)
    else (y + 1, 1, 1)
  }

  lemma MonthSpan(m: int, leap: bool)
    requires 1 <= m <= 12
    ensures MonthStart(m, leap) - MonthStart(m - 1, leap) == DaysInMonth(m, leap)
    ensures MonthStart(0, leap) == 0 && MonthStart(12, leap) == if leap then 366 else 365
  {
  }

  lemma {:induction false} MonthsOrdered(a: int, b: int, leap: bool)
    requires 0 <= a <= b <= 12
    ensures MonthStart(a, leap) <= MonthStart(b, leap)
    decreases b - a
  {
    hide MonthStart;
    if a < b {
      MonthsOrdered(a, b - 1, leap);
      MonthSpan(b, leap);
    }
  }

  predicate IsDate(y: int, m: int, d: int) {
    1 <= m <= 12 && 1 <= d <= DaysInMonth(m, Leap(y))
  }

  function DayOf(y: int, m: int, d: int): int
    requires 1 <= m <= 12
  {
    DayFromYear(y) + MonthStart(m - 1, Leap(y)) + d - 1
  }

  lemma DateOfIsDate(day: int)
    requires -100_000_000 <= day <= 100_000_000
    ensures var (y, m, d) := DateOf(day); IsDate(y, m, d) && DayOf(y, m, d) == day
  {
    hide Leap, DaysInMonth, MonthStart;
    var y := YearFrom(day, FIRST_YEAR);
    YearLength(y);
    MonthSpan(1, Leap(y));
    var m := MonthFrom(day - DayFromYear(y), Leap(y), 0);
    MonthSpan(m + 1, Leap(y));
  }

  lemma WithinYear(y: int, m: int, d: int)
    requires IsDate(y, m, d)
    ensures DayFromYear(y) <= DayOf(y, m, d) < DayFromYear(y + 1)
  {
    hide DayFromYear, Leap, DaysInMonth, MonthStart;
    YearLength(y);
    MonthSpan(m, Leap(y));
    MonthSpan(1, Leap(y));
    MonthsOrdered(0, m - 1, Leap(y));
    MonthsOrdered(m, 12, Leap(y));
  }

  /** A day has one date. */
  lemma DateUnique(y: int, m: int, d: int, v: int, n: int, e: int)
    requires IsDate(y, m, d) && IsDate(v, n, e) && DayOf(y, m, d) == DayOf(v, n, e)
    ensures (y, m, d) == (v, n, e)
  {
    hide DayFromYear, DaysInMonth, MonthStart, Leap;
    WithinYear(y, m, d);
    WithinYear(v, n, e);
    if y < v { StartsGrow(y + 1, v); }
    if v < y { StartsGrow(v + 1, y); }
    MonthSpan(m, Leap(y));
    MonthSpan(n, Leap(v));
    if m < n { MonthsOrdered(m, n - 1, Leap(y)); }
    if n < m { MonthsOrdered(n, m - 1, Leap(y)); }
  }

  lemma NextDateIsNext(y: int, m: int, d: int)
    requires IsDate(y, m, d)
    ensures var (y', m', d') := NextDate((y, m, d));
            IsDate(y', m', d') && DayOf(y', m', d') == DayOf(y, m, d) + 1
  {
    hide DayFromYear, MonthStart, Leap;
    YearLength(y);
    MonthSpan(m, Leap(y));
    MonthSpan(1, Leap(y + 1));
    MonthSpan(1, Leap(y));
  }

  lemma Epoch()
    ensures IsDate(1970, 1, 1) && DayOf(1970, 1, 1) == 0
  {
  }

  /** The date arithmetic is the Gregorian calendar: day 0 is 1 January 1970, and over the whole range of time
      values each day's date is the one after the day before's. */
  lemma CalendarAdvances(day: int)
    requires -100_000_000 <= day < 100_000_000
    ensures DateOf(0) == (1970, 1, 1)
    ensures DateOf(day + 1) == NextDate(DateOf(day))
  {
    hide DayFromYear, DaysInMonth, MonthStart, Leap, DateOf, NextDate;
    DateOfIsDate(day);
    DateOfIsDate(day + 1);
    var (y, m, d) := DateOf(day);
    var (v, n, e) := DateOf(day + 1);
    NextDateIsNext(y, m, d);
    var (y', m', d') := NextDate((y, m, d));
    DateUnique(v, n, e, y', m', d');
    DateOfIsDate(0);
    var (a, b, c) := DateOf(0);
    Epoch();
    DateUnique(a, b, c, 1970, 1, 1);
  }
}
