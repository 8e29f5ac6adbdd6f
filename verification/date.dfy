/** Day numbers to civil dates, as the response date header needs them. */
module HttpDate {
  import opened Bytes

  datatype Date = Date(year: int, month: int, day: int)

  // --- the calendar ---

  predicate Leap(y: int) {
    y % 4 == 0 && (y % 100 != 0 || y % 400 == 0)
  }

  function MonthLength(y: int, m: int): int {
    if m == 2 then if Leap(y) then 29 else 28
    else if m == 4 || m == 6 || m == 9 || m == 11 then 30 else 31
  }

  predicate Valid(d: Date) {
    1 <= d.month <= 12 && 1 <= d.day <= MonthLength(d.year, d.month)
  }

  function NextDay(d: Date): Date {
    if d.day < MonthLength(d.year, d.month) then d.(day := d.day + 1)
    else if d.month < 12 then Date(d.year, d.month + 1, 1)
    else Date(d.year + 1, 1, 1)
  }

  /** Days from 1 January of year 1 to 1 January of year y. */
  function DaysBeforeYear(y: int): int {
    365 * (y - 1) + (y - 1) / 4 - (y - 1) / 100 + (y - 1) / 400
  }

  function DaysBeforeMonth(y: int, m: int): (r: int)
    requires 1 <= m <= 12
    decreases m
  {
    if m == 1 then 0 else DaysBeforeMonth(y, m - 1) + MonthLength(y, m - 1)
  }

  /** Days from 1 January of year 1. */
  function DayNumber(d: Date): int
    requires Valid(d)
  {
    DaysBeforeYear(d.year) + DaysBeforeMonth(d.year, d.month) + d.day - 1
  }

  const EPOCH := 719_162

  // --- the algorithm ---

  /** Division that truncates toward zero. */
  function Quot(a: int, b: int): int
    requires b > 0
  {
    if a >= 0 then a / b else -((-a) / b)
  }

  function YearOfEra(doe: nat): int { (doe - doe / 1460 + doe / 36524 - doe / 146096) / 365 }

  /** The month counted from March, and its day, of day `doy` of a year that begins in March. */
  function MarchMonth(doy: int): int { (5 * doy + 2) / 153 }

  function MonthStart(mp: int): int { (153 * mp + 2) / 5 }

  /** The date of day `doy` of the year that begins on 1 March of year y. */
  function MarchDate(y: int, doy: int): Date {
    var mp := MarchMonth(doy);
    var d := doy - MonthStart(mp) + 1;
    var m := if mp < 10 then mp + 3 else mp - 9;
    Date(if m <= 2 then y + 1 else y, m, d)
  }

  function DayOfYear(doe: int, yoe: int): int { doe - (365 * yoe + yoe / 4 - yoe / 100) }

  /** The date of day `doe` of the 400-year era `era`, which begins on 1 March. */
  function CivilOfEra(era: int, doe: nat): Date {
    var yoe := YearOfEra(doe);
    MarchDate(yoe + era * 400, DayOfYear(doe, yoe))
  }

  function CivilFromDays(days: int): Date {
    var z := days + 719_468;
    var era := Quot(if z >= 0 then z else z - 146_096, 146_097);
    EraStarts(z);
    CivilOfEra(era, z - era * 146_097)
  }

  /** The truncating division with its correction is a floor. */
  lemma EraStarts(z: int)
    ensures var era := Quot(if z >= 0 then z else z - 146_096, 146_097);
      era == z / 146_097 && 0 <= z - era * 146_097 < 146_097
  {
    if z < 0 {
      var k := (146_096 - z) / 146_097;
      assert -z <= k * 146_097 < -z + 146_097;
    }
  }

  // --- years of an era ---

  /** A day of the era as centuries, four-year cycles, years and days, each as full as it can be. */
  predicate Parts(doe: int, c: int, q: int, t: int, u: int) {
    && 0 <= c <= 3 && 0 <= q <= 24 && 0 <= t <= 3 && 0 <= u <= 365
    && (u == 365 ==> t == 3 && (q == 24 ==> c == 3))
    && doe == 36524 * c + 1461 * q + 365 * t + u
  }

  lemma Decompose(doe: int) returns (c: int, q: int, t: int, u: int)
    requires 0 <= doe < 146_097
    ensures Parts(doe, c, q, t, u)
  {
    c := if doe / 36524 < 3 then doe / 36524 else 3;
    var e := doe - 36524 * c;
    q := if e / 1461 < 24 then e / 1461 else 24;
    var s := e - 1461 * q;
    t := if s / 365 < 3 then s / 365 else 3;
    u := s - 365 * t;
  }

  lemma YearOfParts(doe: int, c: int, q: int, t: int, u: int)
    requires Parts(doe, c, q, t, u)
    ensures doe >= 0 && YearOfEra(doe) == 100 * c + 4 * q + t
  {
    var e := 1461 * q + 365 * t + u;
    var late := if 365 * t + u + q + 24 * c >= 1460 then 1 else 0;
    var last := if doe == 146_096 then 1 else 0;
    assert doe / 36524 == c + last;
    assert doe / 1460 == 25 * c + q + late;
    assert doe / 146096 == last;
    var n := 36500 * c + 1460 * q + 365 * t + u - late;
    assert doe - doe / 1460 + doe / 36524 - doe / 146096 == n;
    assert 0 <= u - late < 365;
  }

  /** Days from 1 March of year 0 to 1 March of year y. */
  function MarchDays(y: int): int { 365 * y + y / 4 - y / 100 + y / 400 }

  lemma MarchDaysOfParts(era: int, y: int, c: int, q: int, t: int)
    requires 0 <= c <= 3 && 0 <= q <= 24 && 0 <= t <= 3 && y == 400 * era + 100 * c + 4 * q + t
    ensures MarchDays(y) == 146_097 * era + 36524 * c + 1461 * q + 365 * t
  {
    assert y / 4 == 100 * era + 25 * c + q;
    assert y / 100 == 4 * era + c;
    assert y / 400 == era;
  }

  lemma {:induction false} Next4(y: int)
    ensures y / 4 == (y - 1) / 4 + if y % 4 == 0 then 1 else 0
  {
  }

  lemma {:induction false} Next100(y: int)
    ensures y / 100 == (y - 1) / 100 + if y % 100 == 0 then 1 else 0
  {
  }

  lemma {:induction false} Next400(y: int)
    ensures y / 400 == (y - 1) / 400 + if y % 400 == 0 then 1 else 0
  {
  }

  lemma {:induction false} LeapAddsADay(y: int)
    ensures DaysBeforeYear(y + 1) == DaysBeforeYear(y) + if Leap(y) then 366 else 365
    ensures MarchDays(y) == DaysBeforeYear(y + 1)
  {
    Next4(y);
    Next100(y);
    Next400(y);
    LeapByRests(y);
  }

  lemma {:induction false} LeapByRests(y: int)
    ensures Leap(y) ==> y % 4 == 0
    ensures y % 400 == 0 ==> y % 100 == 0 && Leap(y)
    ensures y % 100 == 0 ==> y % 4 == 0
  {
    if y % 400 == 0 { Rest100(y, 4 * (y / 400), 0); }
    if y % 100 == 0 { Rest4(y, 25 * (y / 100), 0); }
  }

  lemma {:induction false} Rest4(x: int, q: int, r: int)
    requires x == 4 * q + r && 0 <= r < 4
    ensures x % 4 == r
  {
  }

  lemma {:induction false} Rest100(x: int, q: int, r: int)
    requires x == 100 * q + r && 0 <= r < 100
    ensures x % 100 == r
  {
  }

  lemma {:induction false} Rest400(x: int, q: int, r: int)
    requires x == 400 * q + r && 0 <= r < 400
    ensures x % 400 == r
  {
  }

  lemma {:induction false} LeapOfParts(era: int, y: int, c: int, q: int, t: int)
    requires 0 <= c <= 3 && 0 <= q <= 24 && 0 <= t <= 3 && y == 400 * era + 100 * c + 4 * q + t
    ensures Leap(y + 1) <==> t == 3 && (q == 24 ==> c == 3)
  {
    var x := y + 1;
    if t < 3 {
      Rest4(x, 100 * era + 25 * c + q, t + 1);
    } else if q < 24 {
      Rest4(x, 100 * era + 25 * c + q + 1, 0);
      Rest100(x, 4 * era + c, 4 * (q + 1));
    } else {
      Rest4(x, 100 * era + 25 * c + 25, 0);
      Rest100(x, 4 * era + c + 1, 0);
      if c == 3 { Rest400(x, era + 1, 0); } else { Rest400(x, era, 100 * (c + 1)); }
    }
  }

  // --- months ---

  lemma MonthsOf(y: int)
    ensures var l := if Leap(y) then 1 else 0;
      && DaysBeforeMonth(y, 1) == 0 && DaysBeforeMonth(y, 2) == 31 && DaysBeforeMonth(y, 3) == 59 + l
      && DaysBeforeMonth(y, 4) == 90 + l && DaysBeforeMonth(y, 5) == 120 + l && DaysBeforeMonth(y, 6) == 151 + l
      && DaysBeforeMonth(y, 7) == 181 + l && DaysBeforeMonth(y, 8) == 212 + l && DaysBeforeMonth(y, 9) == 243 + l
      && DaysBeforeMonth(y, 10) == 273 + l && DaysBeforeMonth(y, 11) == 304 + l && DaysBeforeMonth(y, 12) == 334 + l
  {
    assert DaysBeforeMonth(y, 4) == DaysBeforeMonth(y, 3) + 31;
    assert DaysBeforeMonth(y, 6) == DaysBeforeMonth(y, 4) + 61;
    assert DaysBeforeMonth(y, 8) == DaysBeforeMonth(y, 6) + 61;
    assert DaysBeforeMonth(y, 10) == DaysBeforeMonth(y, 8) + 61;
  }

  lemma MarchMonthBounds(u: int)
    requires 0 <= u <= 365
    ensures 0 <= MarchMonth(u) <= 11
    ensures MonthStart(MarchMonth(u)) <= u
    ensures u < MonthStart(MarchMonth(u) + 1)
  {
  }

  /** Valid, and as many days after 1 March of year y as it should be. */
  lemma MarchDateIsRight(y: int, u: int)
    requires 0 <= u <= 365 && (u == 365 ==> Leap(y + 1))
    ensures Valid(MarchDate(y, u)) && DayNumber(MarchDate(y, u)) == MarchDays(y) + u - 306
  {
    MarchMonthBounds(u);
    MonthsOf(y);
    MonthsOf(y + 1);
    LeapAddsADay(y);
    LeapAddsADay(y + 1);
    var mp := MarchMonth(u);
    assert MonthStart(0) == 0 && MonthStart(1) == 31 && MonthStart(2) == 61 && MonthStart(3) == 92
        && MonthStart(4) == 122 && MonthStart(5) == 153 && MonthStart(6) == 184 && MonthStart(7) == 214
        && MonthStart(8) == 245 && MonthStart(9) == 275 && MonthStart(10) == 306 && MonthStart(11) == 337;
  }

  lemma DayOfParts(doe: int, yoe: int, c: int, q: int, t: int, u: int)
    requires Parts(doe, c, q, t, u) && yoe == 100 * c + 4 * q + t
    ensures DayOfYear(doe, yoe) == u
  {
    assert yoe / 4 == 25 * c + q && yoe / 100 == c;
  }

  lemma MarchDateOfParts(era: int, y: int, doe: int, c: int, q: int, t: int, u: int)
    requires Parts(doe, c, q, t, u) && y == 400 * era + 100 * c + 4 * q + t
    ensures Valid(MarchDate(y, u)) && DayNumber(MarchDate(y, u)) == 146_097 * era + doe - 306
  {
    MarchDaysOfParts(era, y, c, q, t);
    LeapOfParts(era, y, c, q, t);
    MarchDateIsRight(y, u);
  }

  lemma CivilOfEraIsRight(era: int, doe: nat)
    requires doe < 146_097
    ensures var d := CivilOfEra(era, doe); Valid(d) && DayNumber(d) == 146_097 * era + doe - 306
  {
    var c, q, t, u := Decompose(doe);
    YearOfParts(doe, c, q, t, u);
    var yoe := YearOfEra(doe);
    DayOfParts(doe, yoe, c, q, t, u);
    MarchDateOfParts(era, yoe + era * 400, doe, c, q, t, DayOfYear(doe, yoe));
  }

  lemma CivilInEra(z: int) returns (era: int, doe: nat)
    ensures CivilFromDays(z) == CivilOfEra(era, doe) && doe < 146_097 && 146_097 * era + doe == z + 719_468
  {
    var w := z + 719_468;
    EraStarts(w);
    era := Quot(if w >= 0 then w else w - 146_096, 146_097);
    doe := w - era * 146_097;
  }

  /** The algorithm finds a valid date with the day number asked for, before and after the epoch alike. */
  lemma CivilHasTheDayNumber(z: int)
    ensures Valid(CivilFromDays(z)) && DayNumber(CivilFromDays(z)) == z + EPOCH
  {
    var era, doe := CivilInEra(z);
    CivilOfEraIsRight(era, doe);
  }

  // --- one date for each day number ---

  predicate Earlier(a: Date, b: Date) {
    a.year < b.year || (a.year == b.year && (a.month < b.month || (a.month == b.month && a.day < b.day)))
  }

  lemma {:induction false} LaterYear(a: int, b: int)
    requires a < b
    ensures DaysBeforeYear(a) + 365 + (if Leap(a) then 1 else 0) <= DaysBeforeYear(b)
    decreases b - a
  {
    LeapAddsADay(b - 1);
    if a < b - 1 {
      LaterYear(a, b - 1);
    }
  }

  lemma {:induction false} LaterMonth(y: int, a: int, b: int)
    requires 1 <= a < b <= 12
    ensures DaysBeforeMonth(y, a) + MonthLength(y, a) <= DaysBeforeMonth(y, b)
    decreases b - a
  {
    if a < b - 1 {
      LaterMonth(y, a, b - 1);
    }
  }

  lemma WithinYear(d: Date)
    requires Valid(d)
    ensures DaysBeforeYear(d.year) <= DayNumber(d) < DaysBeforeYear(d.year) + 365 + if Leap(d.year) then 1 else 0
  {
    MonthsOf(d.year);
  }

  lemma EarlierIsLess(a: Date, b: Date)
    requires Valid(a) && Valid(b) && Earlier(a, b)
    ensures DayNumber(a) < DayNumber(b)
  {
    if a.year < b.year {
      LaterYear(a.year, b.year);
      WithinYear(a);
      WithinYear(b);
    } else if a.month < b.month {
      LaterMonth(a.year, a.month, b.month);
    }
  }

  lemma SameDaySameDate(a: Date, b: Date)
    requires Valid(a) && Valid(b) && DayNumber(a) == DayNumber(b)
    ensures a == b
  {
    if Earlier(a, b) {
      EarlierIsLess(a, b);
    } else if Earlier(b, a) {
      EarlierIsLess(b, a);
    }
  }

  /** The inverse of counting days, for every valid date. */
  lemma CivilInvertsDayNumber(d: Date)
    requires Valid(d)
    ensures CivilFromDays(DayNumber(d) - EPOCH) == d
  {
    CivilHasTheDayNumber(DayNumber(d) - EPOCH);
    SameDaySameDate(CivilFromDays(DayNumber(d) - EPOCH), d);
  }

  lemma NextDayIsNext(d: Date)
    requires Valid(d)
    ensures Valid(NextDay(d)) && DayNumber(NextDay(d)) == DayNumber(d) + 1
  {
    LeapAddsADay(d.year);
    MonthsOf(d.year);
    MonthsOf(d.year + 1);
  }

  lemma EpochIsDayZero()
    ensures CivilFromDays(0) == Date(1970, 1, 1)
  {
    assert DayNumber(Date(1970, 1, 1)) == EPOCH;
    CivilInvertsDayNumber(Date(1970, 1, 1));
  }

  /** Day zero is 1 January 1970, and each day's successor is the next day of the calendar. */
  lemma CivilIsTheCalendar(z: int)
    ensures CivilFromDays(0) == Date(1970, 1, 1)
    ensures CivilFromDays(z + 1) == NextDay(CivilFromDays(z))
  {
    EpochIsDayZero();
    CivilHasTheDayNumber(z);
    CivilHasTheDayNumber(z + 1);
    NextDayIsNext(CivilFromDays(z));
    SameDaySameDate(CivilFromDays(z + 1), NextDay(CivilFromDays(z)));
  }

  // --- the header ---

  datatype Weekday = Mon | Tue | Wed | Thu | Fri | Sat | Sun

  /** 1 January of year 1 was a Monday. */
  function WeekdayOf(dayNumber: int): Weekday {
    [Mon, Tue, Wed, Thu, Fri, Sat, Sun][dayNumber % 7]
  }

  datatype Stamp = Stamp(weekday: Weekday, date: Date, hour: int, minute: int, second: int)

  /** What `http_date` writes out. */
  function StampOf(unixSecs: nat): Stamp {
    var days, rem := unixSecs / 86_400, unixSecs % 86_400;
    Stamp([Thu, Fri, Sat, Sun, Mon, Tue, Wed][days % 7], CivilFromDays(days), rem / 3600, (rem % 3600) / 60, rem % 60)
  }

  lemma TimeOfDay(rem: nat)
    requires rem < 86_400
    ensures var h, m, s := rem / 3600, (rem % 3600) / 60, rem % 60;
      0 <= h < 24 && 0 <= m < 60 && 0 <= s < 60 && 3600 * h + 60 * m + s == rem
  {
    var h := rem / 3600;
    var r := rem - 3600 * h;
    assert rem % 3600 == r && rem % 60 == r % 60;
  }

  lemma {:induction false} Rest7(x: int, q: int, r: int)
    requires x == 7 * q + r && 0 <= r < 7
    ensures x % 7 == r
  {
  }

  /** The epoch was a Thursday. */
  lemma {:induction false} WeekdayAfterEpoch(days: nat)
    ensures [Thu, Fri, Sat, Sun, Mon, Tue, Wed][days % 7] == WeekdayOf(days + EPOCH)
  {
    var q, r := days / 7, days % 7;
    assert days == 7 * q + r && EPOCH == 7 * 102_737 + 3;
    if r < 4 {
      Rest7(days + EPOCH, q + 102_737, r + 3);
    } else {
      Rest7(days + EPOCH, q + 102_738, r - 4);
    }
  }

  /** The header names the calendar's weekday for its date, and its fields add up to the time it was given. */
  lemma StampIsRight(unixSecs: nat)
    ensures var s := StampOf(unixSecs);
      && Valid(s.date) && s.weekday == WeekdayOf(DayNumber(s.date))
      && 0 <= s.hour < 24 && 0 <= s.minute < 60 && 0 <= s.second < 60
      && 86_400 * (DayNumber(s.date) - EPOCH) + 3600 * s.hour + 60 * s.minute + s.second == unixSecs
  {
    var days := unixSecs / 86_400;
    CivilHasTheDayNumber(days);
    WeekdayAfterEpoch(days);
    TimeOfDay(unixSecs % 86_400);
  }

  // --- the header as text ---

  function Digit(n: int): char
    requires 0 <= n < 10
  {
    ('0' as int + n) as char
  }

  function DigitOf(c: char): int { c as int - '0' as int }

  /** `{:02}`. */
  function Two(n: int): (s: string)
    requires 0 <= n < 100
    ensures |s| == 2
  {
    [Digit(n / 10), Digit(n % 10)]
  }

  function Decimal(n: nat): (s: string)
    ensures |s| >= 1
  {
    if n < 10 then [Digit(n)] else Decimal(n / 10) + [Digit(n % 10)]
  }

  function DayName(w: Weekday): (s: string)
    ensures |s| == 3
  {
    match w
    case Mon => "Mon" case Tue => "Tue" case Wed => "Wed" case Thu => "Thu" case Fri => "Fri" case Sat => "Sat"
    case Sun => "Sun"
  }

  function MonthName(m: int): (s: string)
    requires 1 <= m <= 12
    ensures |s| == 3
  {
    ["Jan", "Feb", "Mar", "Apr", "May", "Jun", "Jul", "Aug", "Sep", "Oct", "Nov", "Dec"][m - 1]
  }

  predicate Writable(s: Stamp) {
    Valid(s.date) && s.date.year >= 0 && 0 <= s.hour < 24 && 0 <= s.minute < 60 && 0 <= s.second < 60
  }

  function DayPart(s: Stamp): string
    requires Writable(s)
  {
    DayName(s.weekday) + ", " + Two(s.date.day) + " " + MonthName(s.date.month) + " "
  }

  function TimePart(s: Stamp): string
    requires Writable(s)
  {
    " " + Two(s.hour) + ":" + Two(s.minute) + ":" + Two(s.second) + " GMT"
  }

  /** The text of the header. */
  function Rendered(s: Stamp): string
    requires Writable(s)
  {
    DayPart(s) + Decimal(s.date.year) + TimePart(s)
  }

  function DayNamed(s: string): Option<Weekday> {
    if s == "Mon" then Some(Mon) else if s == "Tue" then Some(Tue) else if s == "Wed" then Some(Wed)
    else if s == "Thu" then Some(Thu) else if s == "Fri" then Some(Fri) else if s == "Sat" then Some(Sat)
    else if s == "Sun" then Some(Sun) else None
  }

  function MonthNamed(s: string): Option<int> {
    if s == "Jan" then Some(1) else if s == "Feb" then Some(2) else if s == "Mar" then Some(3)
    else if s == "Apr" then Some(4) else if s == "May" then Some(5) else if s == "Jun" then Some(6)
    else if s == "Jul" then Some(7) else if s == "Aug" then Some(8) else if s == "Sep" then Some(9)
    else if s == "Oct" then Some(10) else if s == "Nov" then Some(11) else if s == "Dec" then Some(12) else None
  }

  function ReadTwo(s: string, i: nat): int
    requires i + 2 <= |s|
  {
    10 * DigitOf(s[i]) + DigitOf(s[i + 1])
  }

  /** IMF-fixdate of section 5.6.7 of RFC 9110, read by its fixed places. */
  function ReadFixed(h: string): Option<Stamp> {
    if |h| != 29 || DayNamed(h[..3]).None? || MonthNamed(h[8..11]).None?
      || h[3..5] != ", " || h[7] != ' ' || h[11] != ' ' || h[16] != ' ' || h[19] != ':' || h[22] != ':' || h[25..] != " GMT"
    then None
    else
      Some(Stamp(DayNamed(h[..3]).value,
                 Date(100 * ReadTwo(h, 12) + ReadTwo(h, 14), MonthNamed(h[8..11]).value, ReadTwo(h, 5)),
                 ReadTwo(h, 17), ReadTwo(h, 20), ReadTwo(h, 23)))
  }

  lemma {:induction false} DecimalLength(n: nat)
    requires n >= 1000
    ensures |Decimal(n)| == 4 <==> n <= 9999
    ensures n <= 9999 ==> Decimal(n) == Two(n / 100) + Two(n % 100)
  {
    var a, b := n / 10, n / 100;
    assert a / 10 == b && b / 10 == n / 1000;
    assert Decimal(n) == Decimal(a) + [Digit(n % 10)] && Decimal(a) == Decimal(b) + [Digit(a % 10)];
    assert Decimal(b) == Decimal(b / 10) + [Digit(b % 10)];
    if n <= 9999 {
      assert n % 100 / 10 == a % 10 && n % 100 % 10 == n % 10;
    } else {
      assert |Decimal(b / 10)| >= 2;
    }
  }

  lemma {:induction false} NamesReadBack(w: Weekday, m: int)
    requires 1 <= m <= 12
    ensures DayNamed(DayName(w)) == Some(w) && MonthNamed(MonthName(m)) == Some(m)
  {
    DayReadsBack(w);
    MonthReadsBack(m);
  }

  lemma {:induction false} DayReadsBack(w: Weekday)
    ensures DayNamed(DayName(w)) == Some(w)
  {
  }

  lemma {:induction false} MonthReadsBack(m: int)
    requires 1 <= m <= 12
    ensures MonthNamed(MonthName(m)) == Some(m)
  {
  }

  lemma {:induction false} TwoReads(s: string, i: nat, n: int)
    requires 0 <= n < 100 && i + 2 <= |s| && s[i..i + 2] == Two(n)
    ensures ReadTwo(s, i) == n
  {
    assert s[i] == s[i..i + 2][0] && s[i + 1] == s[i..i + 2][1];
  }

  /** The parts of the text, at their places. */
  lemma {:induction false} Places(s: Stamp, h: string)
    requires Writable(s) && 1000 <= s.date.year <= 9999 && h == DayPart(s) + Decimal(s.date.year) + TimePart(s)
    ensures |h| == 29 && h[..3] == DayName(s.weekday) && h[3..5] == ", " && h[5..7] == Two(s.date.day) && h[7] == ' '
    ensures h[8..11] == MonthName(s.date.month) && h[11] == ' '
    ensures h[12..14] == Two(s.date.year / 100) && h[14..16] == Two(s.date.year % 100)
    ensures h[16] == ' ' && h[17..19] == Two(s.hour) && h[19] == ':' && h[20..22] == Two(s.minute) && h[22] == ':'
    ensures h[23..25] == Two(s.second) && h[25..] == " GMT"
  {
    DecimalLength(s.date.year);
    var a, y, t := DayPart(s), Decimal(s.date.year), TimePart(s);
    assert |a| == 12 && |y| == 4 && |t| == 13;
    assert h[..12] == a && h[12..16] == y && h[16..] == t;
    assert h[..3] == a[..3] && h[3..5] == a[3..5] && h[5..7] == a[5..7] && h[8..11] == a[8..11];
    assert h[12..14] == y[..2] && h[14..16] == y[2..];
    assert h[17..19] == t[1..3] && h[20..22] == t[4..6] && h[23..25] == t[7..9] && h[25..] == t[9..];
  }

  lemma {:induction false} RenderedReadsBack(s: Stamp)
    requires Writable(s) && 1000 <= s.date.year <= 9999
    ensures ReadFixed(Rendered(s)) == Some(s)
  {
    var h := Rendered(s);
    Places(s, h);
    NamesReadBack(s.weekday, s.date.month);
    TwoReads(h, 5, s.date.day);
    TwoReads(h, 12, s.date.year / 100);
    TwoReads(h, 14, s.date.year % 100);
    TwoReads(h, 17, s.hour);
    TwoReads(h, 20, s.minute);
    TwoReads(h, 23, s.second);
  }

  lemma {:induction false} NotBefore1970(unixSecs: nat)
    ensures Writable(StampOf(unixSecs)) && StampOf(unixSecs).date.year >= 1970
  {
    StampIsRight(unixSecs);
    var d := StampOf(unixSecs).date;
    if d.year < 1970 {
      EarlierIsLess(d, Date(1970, 1, 1));
    }
  }

  /** A recipient reads the time back from the header exactly up to the year 9999: later ones need a fifth digit. */
  lemma {:induction false} HeaderReadsBack(unixSecs: nat)
    ensures Writable(StampOf(unixSecs))
    ensures ReadFixed(Rendered(StampOf(unixSecs))) == Some(StampOf(unixSecs)) <==> StampOf(unixSecs).date.year <= 9999
  {
    NotBefore1970(unixSecs);
    var s := StampOf(unixSecs);
    DecimalLength(s.date.year);
    if s.date.year <= 9999 {
      RenderedReadsBack(s);
    } else {
      assert |DayPart(s)| == 12 && |TimePart(s)| == 13;
    }
  }
}
