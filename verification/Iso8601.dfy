/**
 * The hand-written timestamp formatter of mesh-rs, against plain calendar counting in the Gregorian
 * calendar (leap year rule of RFC 3339, appendix C; date-time layout of its section 5.6).
 */
module Iso8601 {
  import opened Util

  datatype Stamp = Stamp(year: int, month: int, day: int, hour: int, minute: int, second: int)

  const MS_PER_DAY := 86_400_000

  // ---- plain calendar counting ----

  predicate Leap(y: int) {
    y % 4 == 0 && (y % 100 != 0 || y % 400 == 0)
  }

  function YearLength(y: int): int {
    if Leap(y) then 366 else 365
  }

  function MonthLength(y: int, m: int): int
    requires 1 <= m <= 12
  {
    if m == 2 then (if Leap(y) then 29 else 28)
    else if m == 4 || m == 6 || m == 9 || m == 11 then 30
    else 31
  }

  /** Days from 1970-01-01 to the first of January of `y`, year by year. */
  function DaysBeforeYear(y: int): int
    requires y >= 1970
    decreases y
  {
    if y == 1970 then 0 else DaysBeforeYear(y - 1) + YearLength(y - 1)
  }

  /** Days from the first of January to the first of month `m`, month by month. */
  function DaysBeforeMonth(y: int, m: int): int
    requires 1 <= m <= 12
    decreases m
  {
    if m == 1 then 0 else DaysBeforeMonth(y, m - 1) + MonthLength(y, m - 1)
  }

  function DayCount(y: int, m: int, d: int): int
    requires y >= 1970 && 1 <= m <= 12
  {
    DaysBeforeYear(y) + DaysBeforeMonth(y, m) + d - 1
  }

  predicate ValidStamp(t: Stamp) {
    && t.year >= 1970
    && 1 <= t.month <= 12
    && 1 <= t.day <= MonthLength(t.year, t.month)
    && 0 <= t.hour < 24 && 0 <= t.minute < 60 && 0 <= t.second < 60
  }

  /** Seconds from 1970-01-01T00:00:00Z to `t`. */
  function Seconds(t: Stamp): int
    requires ValidStamp(t)
  {
    DayCount(t.year, t.month, t.day) * 86400 + t.hour * 3600 + t.minute * 60 + t.second
  }

  // ---- the program's arithmetic ----

  /** Year, month and day of a day count since the epoch. */
  function CivilDate(epochDay: nat): (int, int, int) {
    var days := epochDay + 719468;
    var era := days / 146097;
    var doe := days % 146097;
    var yoe := YearOfEra(doe);
    var doy := doe - (365 * yoe + yoe / 4 - yoe / 100);
    var (mo, d) := MonthDay(doy);
    (yoe + era * 400 + (if mo <= 2 then 1 else 0), mo, d)
  }

  /** Month and day of a day of the year that starts in March. */
  function MonthDay(doy: int): (int, int) {
    var mp := (5 * doy + 2) / 153;
    (if mp < 10 then mp + 3 else mp - 9, doy - (153 * mp + 2) / 5 + 1)
  }

  function YearOfEra(doe: int): int {
    (doe - doe / 1460 + doe / 36524 - doe / 146096) / 365
  }

  /** A zero timestamp is replaced by the present time. */
  function StampOf(ms: nat, now: nat): Stamp {
    var secs := (if ms == 0 then now else ms) / 1000;
    var rem := secs % 86400;
    var (y, mo, d) := CivilDate(secs / 86400);
    Stamp(y, mo, d, rem / 3600, rem % 3600 / 60, rem % 60)
  }

  // ---- years of a 400-year era, counted from the first of March ----

  /** Days from the era's first of March to that of its year `y`. */
  function EraStart(y: int): int {
    365 * y + y / 4 - y / 100
  }

  /** Century, four-year cycle and year inside the cycle, read off a day of the era. */
  lemma YearByCycles(c: int, g: int, s: int)
    requires 0 <= c < 4 && 0 <= g <= 24 && 0 <= s < 1461 && 1461 * g + s < 36524
    ensures
      var doe := 36524 * c + 1461 * g + s;
      var j := if s < 1460 then s / 365 else 3;
      YearOfEra(doe) == 100 * c + 4 * g + j
  {
    var doe := 36524 * c + 1461 * g + s;
    assert doe / 36524 == c && doe / 146096 == 0;
    var e := if 24 * c + g + s >= 1460 then 1 else 0;
    assert doe / 1460 == 25 * c + g + e;
    assert doe - doe / 1460 + doe / 36524 - doe / 146096 == 365 * (100 * c + 4 * g) + (s - e);
  }

  lemma CenturyStart(c: int, k: int)
    requires 0 <= c < 4 && 0 <= k < 100
    ensures EraStart(100 * c + k) == 36524 * c + 365 * k + k / 4
    ensures EraStart(100 * c + k + 1) == 36524 * c + 365 * (k + 1) + (k + 1) / 4 - (k + 1) / 100
  {
    assert (100 * c + k) / 4 == 25 * c + k / 4 && (100 * c + k) / 100 == c;
    assert (100 * c + k + 1) / 4 == 25 * c + (k + 1) / 4 && (100 * c + k + 1) / 100 == c + (k + 1) / 100;
  }

  lemma CycleBracket(c: int, g: int, s: int)
    requires 0 <= c < 4 && 0 <= g <= 24 && 0 <= s < 1461 && 1461 * g + s < 36524
    ensures
      var doe := 36524 * c + 1461 * g + s;
      var y := YearOfEra(doe);
      0 <= y < 400 && EraStart(y) <= doe < EraStart(y + 1)
  {
    YearByCycles(c, g, s);
    var j := if s < 1460 then s / 365 else 3;
    var k := 4 * g + j;
    CenturyStart(c, k);
    assert k / 4 == g;
    assert 365 * j <= s;
    if j == 3 && g == 24 {
      assert (k + 1) / 100 == 1;
    } else {
      assert (k + 1) / 100 == 0;
    }
  }

  /** The program's division picks the year whose days contain `doe`. */
  lemma YearOfEraBracket(doe: int)
    requires 0 <= doe < 146097
    ensures
      var y := YearOfEra(doe);
      0 <= y < 400 && EraStart(y) <= doe && (y < 399 ==> doe < EraStart(y + 1))
  {
    if doe < 146096 {
      var r := doe % 36524;
      CycleBracket(doe / 36524, r / 1461, r % 1461);
    }
  }

  // ---- counting in closed form ----

  /** Days from the first of March of year 0 to that of year `y`. */
  function MarchStart(y: int): int {
    365 * y + y / 4 - y / 100 + y / 400
  }

  lemma LeapStep(y: int)
    requires y >= 1
    ensures MarchStart(y) == MarchStart(y - 1) + YearLength(y)
  {
    DivStep(y, 4);
    DivStep(y, 100);
    DivStep(y, 400);
    MultipleOf(y, 100, 4);
    MultipleOf(y, 4, 25);
  }

  lemma MultipleOf(y: int, a: int, b: int)
    requires y >= 0 && ((a == 100 && b == 4) || (a == 4 && b == 25))
    ensures y % (a * b) == 0 ==> y % a == 0
  {
    if y % (a * b) == 0 {
      var q := y / (a * b);
      assert y == a * (b * q);
    }
  }

  lemma DivStep(y: int, k: int)
    requires y >= 1 && (k == 4 || k == 100 || k == 400)
    ensures y / k == (y - 1) / k + (if y % k == 0 then 1 else 0)
  {
  }

  lemma {:induction false} YearStartClosed(y: int)
    requires y >= 1970
    ensures DaysBeforeYear(y) == MarchStart(y - 1) + 365 - 719527
    decreases y
  {
    if y > 1970 {
      YearStartClosed(y - 1);
      LeapStep(y - 1);
    }
  }

  lemma MonthStarts(y: int)
    ensures DaysBeforeMonth(y, 1) == 0 && DaysBeforeMonth(y, 2) == 31
    ensures
      var f := if Leap(y) then 60 else 59;
      && DaysBeforeMonth(y, 3) == f && DaysBeforeMonth(y, 4) == f + 31 && DaysBeforeMonth(y, 5) == f + 61
      && DaysBeforeMonth(y, 6) == f + 92 && DaysBeforeMonth(y, 7) == f + 122 && DaysBeforeMonth(y, 8) == f + 153
      && DaysBeforeMonth(y, 9) == f + 184 && DaysBeforeMonth(y, 10) == f + 214
      && DaysBeforeMonth(y, 11) == f + 245 && DaysBeforeMonth(y, 12) == f + 275
  {
    assert DaysBeforeMonth(y, 3) == DaysBeforeMonth(y, 2) + MonthLength(y, 2);
    assert DaysBeforeMonth(y, 5) == DaysBeforeMonth(y, 4) + 30;
    assert DaysBeforeMonth(y, 7) == DaysBeforeMonth(y, 6) + 30;
    assert DaysBeforeMonth(y, 9) == DaysBeforeMonth(y, 8) + 31;
    assert DaysBeforeMonth(y, 11) == DaysBeforeMonth(y, 10) + 31;
  }

  /** The month formula: day `doy` of a year that starts in March. */
  lemma MarchMonths(y: int, doy: int)
    requires 0 <= doy < 365 + (if Leap(y + 1) then 1 else 0)
    ensures
      var (mo, d) := MonthDay(doy);
      var yy := if mo <= 2 then y + 1 else y;
      && 1 <= mo <= 12 && 1 <= d <= MonthLength(yy, mo)
      && (mo <= 2 <==> doy >= 306)
      && DaysBeforeMonth(yy, mo) + d - 1 ==
           doy + (if mo <= 2 then -306 else if Leap(y) then 60 else 59)
  {
    MonthStarts(y);
    MonthStarts(y + 1);
  }

  lemma EraSplit(era: int, y: int)
    requires 0 <= era && 0 <= y < 400
    ensures MarchStart(y + 400 * era) == 146097 * era + EraStart(y)
  {
    assert (y + 400 * era) / 4 == y / 4 + 100 * era;
    assert (y + 400 * era) / 100 == y / 100 + 4 * era;
    assert (y + 400 * era) / 400 == era;
  }

  /** The year, starting in March, that the program picks for a day counted from 0000-03-01. */
  function MarchYearOf(days: int): int {
    YearOfEra(days % 146097) + days / 146097 * 400
  }

  /** A day of the March-based calendar lies in the year the program picks. */
  lemma MarchYear(days: int)
    requires days >= 0
    ensures
      var y := MarchYearOf(days);
      && y >= 0
      && MarchStart(y) <= days < MarchStart(y + 1)
      && days % 146097 - EraStart(YearOfEra(days % 146097)) == days - MarchStart(y)
  {
    var era, doe := days / 146097, days % 146097;
    YearOfEraBracket(doe);
    var yoe := YearOfEra(doe);
    EraSplit(era, yoe);
    if yoe < 399 {
      EraSplit(era, yoe + 1);
    } else {
      EraSplit(era + 1, 0);
    }
  }

  lemma MarchStartMonotone(a: int, b: int)
    requires 0 <= a <= b
    ensures MarchStart(a) <= MarchStart(b)
  {
  }

  lemma FirstYear(y: int, days: int)
    requires 719468 <= days < MarchStart(y + 1) && 0 <= y
    ensures y >= 1969 && (y == 1969 ==> days - MarchStart(y) >= 306)
  {
    assert MarchStart(1969) == 719162;
    if y + 1 <= 1969 {
      MarchStartMonotone(y + 1, 1969);
    }
  }

  /** The year, starting in March, of a day from 1970 on. */
  lemma MarchFacts(days: int)
    requires days >= 719468
    ensures
      var y := MarchYearOf(days);
      var doy := days - MarchStart(y);
      && y >= 1969 && 0 <= doy < 365 + (if Leap(y + 1) then 1 else 0)
      && (y == 1969 ==> doy >= 306)
  {
    var y := MarchYearOf(days);
    MarchYear(days);
    LeapStep(y + 1);
    FirstYear(y, days);
  }

  /** The civil date of day `doy` of the year `y` that starts in March. */
  function CivilOf(y: int, doy: int): (int, int, int) {
    (y + (if MonthDay(doy).0 <= 2 then 1 else 0), MonthDay(doy).0, MonthDay(doy).1)
  }

  predicate MarchDay(y: int, doy: int) {
    y >= 1969 && 0 <= doy < 365 + (if Leap(y + 1) then 1 else 0) && (y == 1969 ==> doy >= 306)
  }

  /** The program's date is that of a day of the March-based calendar. */
  lemma CivilShape(epochDay: nat) returns (y: int, doy: int)
    ensures MarchDay(y, doy) && MarchStart(y) + doy == epochDay + 719468
    ensures CivilDate(epochDay) == CivilOf(y, doy)
  {
    var days := epochDay + 719468;
    y := MarchYearOf(days);
    doy := days - MarchStart(y);
    MarchFacts(days);
    MarchYear(days);
  }

  /** The civil date of a March-based day is valid, and its day count is the day's place. */
  lemma CivilOfCounts(y: int, doy: int)
    requires MarchDay(y, doy)
    ensures
      var (cy, m, d) := CivilOf(y, doy);
      && cy >= 1970 && 1 <= m <= 12 && 1 <= d <= MonthLength(cy, m)
      && DayCount(cy, m, d) == MarchStart(y) + doy - 719468
  {
    var (cy, m, d) := CivilOf(y, doy);
    MarchMonths(y, doy);
    YearStartClosed(cy);
    if m > 2 {
      LeapStep(y);
    }
  }

  /** The date computed for a day count is valid and has that day count. */
  lemma CivilDateCounts(epochDay: nat)
    ensures
      var (y, m, d) := CivilDate(epochDay);
      && y >= 1970 && 1 <= m <= 12 && 1 <= d <= MonthLength(y, m)
      && DayCount(y, m, d) == epochDay
  {
    var y, doy := CivilShape(epochDay);
    CivilOfCounts(y, doy);
  }

  /**
   * For every timestamp, the six fields are a valid date and time, the date's day count is the
   * number of whole days in it, and all of them together recompose its seconds.
   */
  lemma StampIsCalendarTime(ms: nat, now: nat)
    ensures
      var t := StampOf(ms, now);
      var at := if ms == 0 then now else ms;
      && ValidStamp(t)
      && DayCount(t.year, t.month, t.day) == at / MS_PER_DAY
      && Seconds(t) == at / 1000
  {
    var at := if ms == 0 then now else ms;
    var secs := at / 1000;
    CivilDateCounts(secs / 86400);
    WholeDays(at);
    ClockParts(secs % 86400);
  }

  lemma WholeDays(at: nat)
    ensures at / 1000 / 86400 == at / MS_PER_DAY
  {
    var secs := at / 1000;
    var d := secs / 86400;
    assert at == 1000 * secs + at % 1000 && secs == 86400 * d + secs % 86400;
    assert at == MS_PER_DAY * d + (1000 * (secs % 86400) + at % 1000);
  }

  lemma ClockParts(rem: nat)
    requires rem < 86400
    ensures 0 <= rem / 3600 < 24 && 0 <= rem % 3600 / 60 < 60 && 0 <= rem % 60 < 60
    ensures rem / 3600 * 3600 + rem % 3600 / 60 * 60 + rem % 60 == rem
  {
    var h := rem / 3600;
    assert rem == 3600 * h + rem % 3600;
    assert rem % 60 == rem % 3600 % 60;
  }

  // ---- the printed form ----

  /** Decimal, zero-padded on the left to at least `w` characters. */
  function Padded(n: nat, w: nat): string {
    var s := Decimal(n);
    if |s| < w then seq(w - |s|, i => '0') + s else s
  }

  function Render(t: Stamp): string
    requires ValidStamp(t)
  {
    Padded(t.year, 4) + ("-" + (Padded(t.month, 2) + ("-" + (Padded(t.day, 2) + ("T" +
    (Padded(t.hour, 2) + (":" + (Padded(t.minute, 2) + (":" + (Padded(t.second, 2) + "Z"))))))))))
  }

  function Iso8601(ms: nat, now: nat): string {
    StampIsCalendarTime(ms, now);
    Render(StampOf(ms, now))
  }

  // ---- reading the printed form back ----

  /** The number a string of decimal digits stands for. */
  function Number(s: string): int {
    if |s| == 0 then 0 else 10 * Number(Front(s)) + (Last(s) as int - '0' as int)
  }

  lemma NumberPush(s: string, c: char)
    ensures Number(s + [c]) == 10 * Number(s) + (c as int - '0' as int)
  {
    assert Front(s + [c]) == s;
  }

  lemma {:induction false} NumberOfDecimal(n: nat)
    ensures Number(Decimal(n)) == n
  {
    if n < 10 {
      NumberPush("", Digit(n));
      assert "" + [Digit(n)] == [Digit(n)];
    } else {
      NumberOfDecimal(n / 10);
      NumberPush(Decimal(n / 10), Digit(n % 10));
    }
  }

  lemma NumberOfTwo(n: nat)
    requires n < 100
    ensures |Padded(n, 2)| == 2 && Number(Padded(n, 2)) == n
  {
    TwoDigits(n);
    NumberPush("", Digit(n / 10));
    NumberPush([Digit(n / 10)], Digit(n % 10));
    assert "" + [Digit(n / 10)] == [Digit(n / 10)];
    assert [Digit(n / 10)] + [Digit(n % 10)] == [Digit(n / 10), Digit(n % 10)];
  }

  lemma YearDigits(n: nat)
    requires n >= 1000
    ensures Padded(n, 4) == Decimal(n) && |Decimal(n)| >= 4 && (|Decimal(n)| == 4 <==> n <= 9999)
  {
    assert |Decimal(n)| == |Decimal(n / 1000)| + 3 by {
      assert n / 10 / 10 == n / 100 && n / 100 / 10 == n / 1000;
      assert |Decimal(n)| == |Decimal(n / 10)| + 1 && |Decimal(n / 10)| == |Decimal(n / 100)| + 1;
    }
    assert n / 1000 >= 10 <==> n > 9999;
  }

  /** The separators and the final Z, at their places before the end. */
  predicate Separated(text: string)
    requires |text| >= 20
  {
    var p := text[|text| - 16..];
    p[0] == '-' && p[3] == '-' && p[6] == 'T' && p[9] == ':' && p[12] == ':' && p[15] == 'Z'
  }

  /** The six numbers between the separators. */
  function Fields(text: string): Stamp
    requires |text| >= 20
  {
    var p := text[|text| - 16..];
    Stamp(Number(text[..|text| - 16]), Number(p[1..3]), Number(p[4..6]),
          Number(p[7..9]), Number(p[10..12]), Number(p[13..15]))
  }

  lemma ClockPlaces(h: string, i: string, s: string)
    requires |h| == 2 && |i| == 2 && |s| == 2
    ensures
      var p := h + (":" + (i + (":" + (s + "Z"))));
      |p| == 9 && p[0..2] == h && p[2] == ':' && p[3..5] == i && p[5] == ':' && p[6..8] == s && p[8] == 'Z'
  {
  }

  lemma DatePlaces(m: string, d: string, clock: string)
    requires |m| == 2 && |d| == 2 && |clock| == 9
    ensures
      var p := "-" + (m + ("-" + (d + ("T" + clock))));
      |p| == 16 && p[0] == '-' && p[1..3] == m && p[3] == '-' && p[4..6] == d && p[6] == 'T' && p[7..] == clock
  {
  }

  lemma TailPlaces(y: string, p: string)
    requires |p| == 16
    ensures |y + p| == |y| + 16 && (y + p)[..|y + p| - 16] == y && (y + p)[|y + p| - 16..] == p
  {
  }

  /** The parts of a slice. */
  lemma SliceOfTail(p: string, a: nat, b: nat)
    requires |p| == 16 && a <= b <= 9
    ensures p[7 + a..7 + b] == p[7..][a..b]
  {
  }

  lemma ClockInTail(p: string, h: string, i: string, s: string)
    requires |h| == 2 && |i| == 2 && |s| == 2
    requires |p| == 16 && p[7..] == h + (":" + (i + (":" + (s + "Z"))))
    ensures p[7..9] == h && p[9] == ':' && p[10..12] == i && p[12] == ':' && p[13..15] == s && p[15] == 'Z'
  {
    var clock := p[7..];
    ClockPlaces(h, i, s);
    SliceOfTail(p, 0, 2);
    SliceOfTail(p, 3, 5);
    SliceOfTail(p, 6, 8);
    assert clock[2] == p[9] && clock[5] == p[12] && clock[8] == p[15];
  }

  lemma RenderPlaces(t: Stamp)
    requires ValidStamp(t)
    ensures |Render(t)| == |Padded(t.year, 4)| + 16
    ensures |Render(t)| >= 20 ==> Separated(Render(t)) && Fields(Render(t)) == t
  {
    NumberOfTwo(t.month);
    NumberOfTwo(t.day);
    NumberOfTwo(t.hour);
    NumberOfTwo(t.minute);
    NumberOfTwo(t.second);
    ClockPlaces(Padded(t.hour, 2), Padded(t.minute, 2), Padded(t.second, 2));
    var clock := ClockText(t);
    DatePlaces(Padded(t.month, 2), Padded(t.day, 2), clock);
    var p := "-" + (Padded(t.month, 2) + ("-" + (Padded(t.day, 2) + ("T" + clock))));
    ClockInTail(p, Padded(t.hour, 2), Padded(t.minute, 2), Padded(t.second, 2));
    assert Render(t) == Padded(t.year, 4) + p;
    TailPlaces(Padded(t.year, 4), p);
    YearDigits(t.year);
    NumberOfDecimal(t.year);
  }

  /**
   * Every printed timestamp reads back: the separators and the final Z stand at their places, the six
   * numbers between them are a date and time that recomposes the seconds, and the text has 20
   * characters exactly up to the year 9999.
   */
  lemma PrintedReadsBack(ms: nat, now: nat)
    ensures
      var text := Iso8601(ms, now);
      && |text| >= 20 && (|text| == 20 <==> Fields(text).year <= 9999)
      && Separated(text)
      && ValidStamp(Fields(text))
      && Seconds(Fields(text)) == (if ms == 0 then now else ms) / 1000
  {
    StampIsCalendarTime(ms, now);
    var t := StampOf(ms, now);
    YearDigits(t.year);
    RenderPlaces(t);
  }

  /** Dictionary order on strings. */
  predicate Before(a: string, b: string) {
    b != "" && (a == "" || a[0] < b[0] || (a[0] == b[0] && Before(a[1..], b[1..])))
  }

  lemma BeforeCons(c: char, x: string, d: char, y: string)
    ensures Before([c] + x, [d] + y) <==> c < d || (c == d && Before(x, y))
  {
    assert ([c] + x)[1..] == x && ([d] + y)[1..] == y;
  }

  lemma BeforeDigit(m: nat, x: string, n: nat, y: string)
    requires m < 10 && n < 10
    ensures Before([Digit(m)] + x, [Digit(n)] + y) <==> m < n || (m == n && Before(x, y))
  {
    BeforeCons(Digit(m), x, Digit(n), y);
  }

  lemma TwoDigits(n: nat)
    requires n < 100
    ensures Padded(n, 2) == [Digit(n / 10), Digit(n % 10)]
  {
    if n >= 10 {
      assert Decimal(n) == Decimal(n / 10) + [Digit(n % 10)];
    } else {
      assert Digit(0) == '0';
    }
  }

  lemma FourDigits(n: nat)
    requires 1000 <= n < 10000
    ensures Padded(n, 4) == Padded(n / 100, 2) + Padded(n % 100, 2)
  {
    assert Decimal(n) == Decimal(n / 10) + [Digit(n % 10)];
    assert Decimal(n / 10) == Decimal(n / 100) + [Digit(n / 10 % 10)];
    assert n / 10 / 10 == n / 100 && n / 10 % 10 == n % 100 / 10 && n % 10 == n % 100 % 10;
    TwoDigits(n / 100);
    TwoDigits(n % 100);
    assert |Decimal(n / 100)| == 2;
  }

  lemma BeforeTwo(m: nat, x: string, n: nat, y: string)
    requires m < 100 && n < 100
    ensures Before(Padded(m, 2) + x, Padded(n, 2) + y) <==> m < n || (m == n && Before(x, y))
  {
    TwoDigits(m);
    TwoDigits(n);
    assert Padded(m, 2) + x == [Digit(m / 10)] + ([Digit(m % 10)] + x);
    assert Padded(n, 2) + y == [Digit(n / 10)] + ([Digit(n % 10)] + y);
    BeforeDigit(m / 10, [Digit(m % 10)] + x, n / 10, [Digit(n % 10)] + y);
    BeforeDigit(m % 10, x, n % 10, y);
  }

  /** A two-digit field followed by one separator. */
  lemma BeforeField(m: nat, x: string, n: nat, y: string, sep: char)
    requires m < 100 && n < 100
    ensures Before(Padded(m, 2) + ([sep] + x), Padded(n, 2) + ([sep] + y)) <==>
            m < n || (m == n && Before(x, y))
  {
    BeforeTwo(m, [sep] + x, n, [sep] + y);
    BeforeCons(sep, x, sep, y);
  }

  lemma YearSplit(m: nat, x: string)
    requires 1000 <= m < 10000
    ensures Padded(m, 4) + ("-" + x) == Padded(m / 100, 2) + (Padded(m % 100, 2) + ("-" + x))
  {
    FourDigits(m);
    Assoc(Padded(m / 100, 2), Padded(m % 100, 2), "-" + x);
  }

  lemma BeforeYear(m: nat, x: string, n: nat, y: string)
    requires 1000 <= m < 10000 && 1000 <= n < 10000
    ensures Before(Padded(m, 4) + ("-" + x), Padded(n, 4) + ("-" + y)) <==>
            m < n || (m == n && Before(x, y))
  {
    YearSplit(m, x);
    YearSplit(n, y);
    BeforeTwo(m / 100, Padded(m % 100, 2) + ("-" + x), n / 100, Padded(n % 100, 2) + ("-" + y));
    BeforeField(m % 100, x, n % 100, y, '-');
    assert m == 100 * (m / 100) + m % 100 && n == 100 * (n / 100) + n % 100;
  }

  /** Field by field, most significant first. */
  predicate FieldsBefore(a: Stamp, b: Stamp) {
    a.year < b.year || (a.year == b.year && (
    a.month < b.month || (a.month == b.month && (
    a.day < b.day || (a.day == b.day && ClockBefore(a, b))))))
  }

  predicate ClockBefore(a: Stamp, b: Stamp) {
    a.hour < b.hour || (a.hour == b.hour && (
    a.minute < b.minute || (a.minute == b.minute && a.second < b.second)))
  }

  function ClockText(t: Stamp): string
    requires ValidStamp(t)
  {
    Padded(t.hour, 2) + (":" + (Padded(t.minute, 2) + (":" + (Padded(t.second, 2) + "Z"))))
  }

  lemma ClockOrder(a: Stamp, b: Stamp)
    requires ValidStamp(a) && ValidStamp(b)
    ensures Before(ClockText(a), ClockText(b)) <==> ClockBefore(a, b)
  {
    BeforeTwo(a.second, "Z", b.second, "Z");
    BeforeField(a.minute, Padded(a.second, 2) + "Z", b.minute, Padded(b.second, 2) + "Z", ':');
    BeforeField(a.hour, Padded(a.minute, 2) + (":" + (Padded(a.second, 2) + "Z")),
                b.hour, Padded(b.minute, 2) + (":" + (Padded(b.second, 2) + "Z")), ':');
  }

  lemma TextOrder(a: Stamp, b: Stamp)
    requires ValidStamp(a) && ValidStamp(b) && a.year <= 9999 && b.year <= 9999
    ensures Before(Render(a), Render(b)) <==> FieldsBefore(a, b)
  {
    ClockOrder(a, b);
    BeforeField(a.day, ClockText(a), b.day, ClockText(b), 'T');
    var x, y := Padded(a.day, 2) + ("T" + ClockText(a)), Padded(b.day, 2) + ("T" + ClockText(b));
    BeforeField(a.month, x, b.month, y, '-');
    BeforeYear(a.year, Padded(a.month, 2) + ("-" + x), b.year, Padded(b.month, 2) + ("-" + y));
  }

  lemma {:induction false} YearsAccumulate(a: int, b: int)
    requires 1970 <= a < b
    ensures DaysBeforeYear(a) + YearLength(a) <= DaysBeforeYear(b)
    decreases b
  {
    if a + 1 < b {
      YearsAccumulate(a, b - 1);
    }
  }

  lemma {:induction false} MonthsAccumulate(y: int, a: int, b: int)
    requires 1 <= a < b <= 13
    ensures b <= 12 ==> DaysBeforeMonth(y, a) + MonthLength(y, a) <= DaysBeforeMonth(y, b)
    ensures b == 13 ==> DaysBeforeMonth(y, a) + MonthLength(y, a) <= YearLength(y)
  {
    MonthStarts(y);
  }

  /** An earlier date and time, field by field, is an earlier second. */
  lemma FieldsOrderSeconds(a: Stamp, b: Stamp)
    requires ValidStamp(a) && ValidStamp(b) && FieldsBefore(a, b)
    ensures Seconds(a) < Seconds(b)
  {
    if a.year < b.year {
      YearsAccumulate(a.year, b.year);
      MonthsAccumulate(a.year, a.month, 13);
      MonthStarts(b.year);
    } else if a.month < b.month {
      MonthsAccumulate(a.year, a.month, b.month);
    }
  }

  /**
   * Up to the year 9999 the printed timestamps sort as the seconds do: one string precedes the other
   * in dictionary order exactly when its second is the earlier one.
   */
  lemma PrintedOrderIsTimeOrder(ms1: nat, ms2: nat, now: nat)
    requires StampOf(ms1, now).year <= 9999 && StampOf(ms2, now).year <= 9999
    ensures
      var at1, at2 := if ms1 == 0 then now else ms1, if ms2 == 0 then now else ms2;
      && (Before(Iso8601(ms1, now), Iso8601(ms2, now)) <==> at1 / 1000 < at2 / 1000)
      && (Iso8601(ms1, now) == Iso8601(ms2, now) <==> at1 / 1000 == at2 / 1000)
  {
    var a, b := StampOf(ms1, now), StampOf(ms2, now);
    StampIsCalendarTime(ms1, now);
    StampIsCalendarTime(ms2, now);
    TextOrder(a, b);
    TextOrder(b, a);
    if FieldsBefore(a, b) {
      FieldsOrderSeconds(a, b);
    } else if FieldsBefore(b, a) {
      FieldsOrderSeconds(b, a);
    }
    BeforeIrreflexive(Iso8601(ms1, now));
  }

  lemma {:induction false} BeforeIrreflexive(a: string)
    ensures !Before(a, a)
  {
    if a != "" {
      BeforeIrreflexive(a[1..]);
    }
  }

  lemma DigitsAround10000()
    ensures Padded(10000, 4)[0] == '1' && Padded(9999, 4)[0] == '9'
  {
    assert Decimal(1)[0] == '1' && Decimal(10)[0] == '1' && Decimal(100)[0] == '1' && Decimal(1000)[0] == '1';
    assert Decimal(9)[0] == '9' && Decimal(99)[0] == '9' && Decimal(999)[0] == '9';
    assert |Decimal(99)| == 2 && |Decimal(9999)| == 4;
  }

  lemma DaysAround10000()
    ensures CivilDate(2932896) == (9999, 12, 31) && CivilDate(2932897) == (10000, 1, 1)
  {
    assert YearOfEra(146036) == 399 && YearOfEra(146037) == 399;
    assert MonthDay(305) == (12, 31) && MonthDay(306) == (1, 1);
    EraDay(2932896, 24, 146036, 399, 305);
    EraDay(2932897, 24, 146037, 399, 306);
  }

  lemma EraDay(epochDay: nat, era: int, doe: int, yoe: int, doy: int)
    requires epochDay + 719468 == era * 146097 + doe && 0 <= doe < 146097
    requires YearOfEra(doe) == yoe && doy == doe - (365 * yoe + yoe / 4 - yoe / 100)
    ensures CivilDate(epochDay) ==
            (yoe + era * 400 + (if MonthDay(doy).0 <= 2 then 1 else 0), MonthDay(doy).0, MonthDay(doy).1)
  {
    assert (epochDay + 719468) / 146097 == era && (epochDay + 719468) % 146097 == doe;
  }

  lemma StampAt(ts: nat, day: nat, sec: nat)
    requires ts >= 1 && ts / 1000 == day * 86400 + sec && sec < 86400
    ensures
      var (y, m, d) := CivilDate(day);
      StampOf(ts, 0) == Stamp(y, m, d, sec / 3600, sec % 3600 / 60, sec % 60)
  {
    SplitDay(day, sec);
  }

  lemma SplitDay(day: nat, sec: nat)
    requires sec < 86400
    ensures (day * 86400 + sec) / 86400 == day && (day * 86400 + sec) % 86400 == sec
  {
  }

  lemma LastStampOf9999()
    ensures StampOf(253402300799000, 0) == Stamp(9999, 12, 31, 23, 59, 59)
  {
    DaysAround10000();
    StampAt(253402300799000, 2932896, 86399);
  }

  lemma FirstStampOf10000()
    ensures StampOf(253402300800000, 0) == Stamp(10000, 1, 1, 0, 0, 0)
  {
    DaysAround10000();
    StampAt(253402300800000, 2932897, 0);
  }

  /** From the year 10000 on the order breaks: the last second of 9999 sorts after its successor. */
  lemma OrderBreaksAtYear10000()
    ensures Before(Iso8601(253402300800000, 0), Iso8601(253402300799000, 0))
  {
    LastStampOf9999();
    FirstStampOf10000();
    DigitsAround10000();
    assert Iso8601(253402300800000, 0)[0] == '1' && Iso8601(253402300799000, 0)[0] == '9';
  }

  /** The first second of the year 10000. */
  const YEAR_10000 := 253402300800

  lemma BeforeYear10000(ms: nat)
    requires 1 <= ms && ms / 1000 < YEAR_10000
    ensures StampOf(ms, 0).year <= 9999
  {
    var t := StampOf(ms, 0);
    StampIsCalendarTime(ms, 0);
    if t.year > 9999 {
      StampIsCalendarTime(253402300799000, 0);
      LastStampOf9999();
      FieldsOrderSeconds(Stamp(9999, 12, 31, 23, 59, 59), t);
      assert false;
    }
  }

  /** Any two timestamps before second `n` print in the order of their seconds. */
  ghost predicate OrderedBelow(n: nat) {
    forall ms1: nat, ms2: nat ::
      1 <= ms1 && 1 <= ms2 && ms1 / 1000 < n && ms2 / 1000 < n ==>
        (Before(Iso8601(ms1, 0), Iso8601(ms2, 0)) <==> ms1 / 1000 < ms2 / 1000)
  }

  /** The order holds for all timestamps before second `n` exactly when `n` is at most the start of 10000. */
  lemma OrderedExactlyBelow10000(n: nat)
    ensures OrderedBelow(n) <==> n <= YEAR_10000
  {
    if n <= YEAR_10000 {
      forall ms1: nat, ms2: nat | 1 <= ms1 && 1 <= ms2 && ms1 / 1000 < n && ms2 / 1000 < n
        ensures Before(Iso8601(ms1, 0), Iso8601(ms2, 0)) <==> ms1 / 1000 < ms2 / 1000
      {
        BeforeYear10000(ms1);
        BeforeYear10000(ms2);
        PrintedOrderIsTimeOrder(ms1, ms2, 0);
      }
    } else {
      OrderBreaksAtYear10000();
    }
  }
}
