/** Business dates: from a Unix timestamp to the proleptic Gregorian date in the fixed +08:00 offset. */
module Calendar {

  datatype Date = Date(year: int, month: int, day: int)

  predicate Leap(y: int) {
    y % 4 == 0 && (y % 100 != 0 || y % 400 == 0)
  }

  function MonthLength(y: int, m: int): int {
    if m == 2 then (if Leap(y) then 29 else 28)
    else if m == 4 || m == 6 || m == 9 || m == 11 then 30
    else 31
  }

  /** A date of the Gregorian calendar. */
  predicate ValidDate(d: Date) {
    1 <= d.month <= 12 && 1 <= d.day <= MonthLength(d.year, d.month)
  }

  /** The calendar day after. */
  function NextDate(d: Date): Date {
    if d.day < MonthLength(d.year, d.month) then Date(d.year, d.month, d.day + 1)
    else if d.month < 12 then Date(d.year, d.month + 1, 1)
    else Date(d.year + 1, 1, 1)
  }

  // ------------------------------------------------------------------ the arithmetic

  /** Year of the 400-year era, years beginning in March, for a day of the era. */
  function YearOfEra(doe: int): int {
    (doe - doe / 1460 + doe / 36524 - doe / 146096) / 365
  }

  /** Date of a day of an era. */
  function CivilInEra(era: int, doe: int): Date {
    var yoe := YearOfEra(doe);
    var doy := doe - (365 * yoe + yoe / 4 - yoe / 100);
    var mp := (5 * doy + 2) / 153;
    var d := doy - (153 * mp + 2) / 5 + 1;
    var m := if mp < 10 then mp + 3 else mp - 9;
    var y := yoe + era * 400;
    Date(if m <= 2 then y + 1 else y, m, d)
  }

  /** Days since 1970-01-01, moved to begin on a first of March and cut into eras of 400 years. */
  function CivilFromDays(days: int): Date {
    var z := days + 719468;
    CivilInEra(z / 146097, z % 146097)
  }

  /** The usual inverse. */
  function DaysFromCivil(date: Date): int {
    var y := if date.month <= 2 then date.year - 1 else date.year;
    var era := y / 400;
    var yoe := y % 400;
    var mp := (date.month + 9) % 12;
    var doy := (153 * mp + 2) / 5 + date.day - 1;
    era * 146097 + yoe * 365 + yoe / 4 - yoe / 100 + doy - 719468
  }

  function DaysOf(ts: int): int {
    (ts + 8 * 3600) / 86400
  }

  function DateOf(ts: int): Date {
    CivilFromDays(DaysOf(ts))
  }

  // ------------------------------------------------------------------ years and months counted from March

  /** First day of a year of the era. */
  function YearStart(yoe: int): int {
    365 * yoe + yoe / 4 - yoe / 100 + yoe / 400
  }

  /** First day of a month of the year. */
  function MonthStart(mp: int): int {
    (153 * mp + 2) / 5
  }

  /** A day of the era by century, four-year cycle, year of the cycle and day of the year. */
  predicate Parts(doe: int, c: int, q: int, k: int, t: int) {
    && 0 <= c < 4 && 0 <= q < 25 && 0 <= k < 4 && 0 <= t <= 365
    && (t == 365 ==> k == 3 && (q < 24 || c == 3))
    && doe == 36524 * c + 1461 * q + 365 * k + t
  }

  lemma PartsStart(doe: int, c: int, q: int, k: int, t: int)
    requires Parts(doe, c, q, k, t)
    ensures YearStart(100 * c + 4 * q + k) == doe - t
    ensures YearStart(100 * c + 4 * q + k + 1) == doe - t + (if k == 3 && (q < 24 || c == 3) then 366 else 365)
  {
    var y := 100 * c + 4 * q + k;
    assert y / 4 == 25 * c + q && y / 100 == c && y / 400 == 0;
    if k < 3 {
      assert (y + 1) / 4 == 25 * c + q && (y + 1) / 100 == c && (y + 1) / 400 == 0;
    } else if q < 24 {
      assert (y + 1) / 4 == 25 * c + q + 1 && (y + 1) / 100 == c && (y + 1) / 400 == 0;
    } else {
      assert (y + 1) / 4 == 25 * c + 25 && (y + 1) / 100 == c + 1;
    }
  }

  lemma PartsYear(doe: int, c: int, q: int, k: int, t: int)
    requires Parts(doe, c, q, k, t)
    ensures YearOfEra(doe) == 100 * c + 4 * q + k
  {
    var rest := 24 * c + q + 365 * k + t;
    assert doe == 1460 * (25 * c + q) + rest;
    assert doe / 1460 == 25 * c + q + (if rest < 1460 then 0 else 1);
    var last := if doe == 146096 then 1 else 0;
    assert doe / 36524 == c + last;
    assert doe / 146096 == last;
    assert doe - doe / 1460 + doe / 36524 - doe / 146096
        == 365 * (100 * c + 4 * q + k) + t - (if rest < 1460 then 0 else 1);
  }

  lemma PartsExist(doe: int) returns (c: int, q: int, k: int, t: int)
    requires 0 <= doe < 146097
    ensures Parts(doe, c, q, k, t)
  {
    c := if doe < 36524 then 0 else if doe < 73048 then 1 else if doe < 109572 then 2 else 3;
    var r := doe - 36524 * c;
    q := r / 1461;
    var s := r - 1461 * q;
    k := if s < 365 then 0 else if s < 730 then 1 else if s < 1095 then 2 else 3;
    t := s - 365 * k;
  }

  /** The year found is the one the day lies in. */
  lemma YearFound(doe: int)
    requires 0 <= doe < 146097
    ensures var yoe := YearOfEra(doe);
            0 <= yoe < 400 && YearStart(yoe) <= doe < YearStart(yoe + 1) <= YearStart(yoe) + 366
  {
    var c, q, k, t := PartsExist(doe);
    PartsYear(doe, c, q, k, t);
    PartsStart(doe, c, q, k, t);
  }

  lemma YearUnique(doe: int, y: int)
    requires 0 <= y < 400 && YearStart(y) <= doe < YearStart(y + 1)
    ensures 0 <= doe < 146097 && YearOfEra(doe) == y
  {
    var c := y / 100;
    var q := (y - 100 * c) / 4;
    var k := y - 100 * c - 4 * q;
    var first := 36524 * c + 1461 * q + 365 * k;
    assert Parts(first, c, q, k, 0);
    PartsStart(first, c, q, k, 0);
    PartsYear(doe, c, q, k, doe - first);
  }

  lemma MonthFound(doy: int)
    requires 0 <= doy <= 365
    ensures var mp := (5 * doy + 2) / 153;
            0 <= mp < 12 && MonthStart(mp) <= doy && (mp < 11 ==> doy < MonthStart(mp + 1))
  {
  }

  lemma MonthUnique(doy: int, mp: int)
    requires 0 <= doy <= 365 && 0 <= mp < 12 && MonthStart(mp) <= doy && (mp < 11 ==> doy < MonthStart(mp + 1))
    ensures (5 * doy + 2) / 153 == mp
  {
  }

  lemma LeapRepeats(y: int, era: int)
    ensures Leap(y + 400 * era) == Leap(y)
  {
    Repeats4(y, era);
    Repeats100(y, era);
    Repeats400(y, era);
  }

  lemma Repeats4(y: int, era: int)
    ensures (y + 400 * era) % 4 == y % 4
  {
    assert y + 400 * era == 4 * (y / 4 + 100 * era) + y % 4;
  }

  lemma Repeats100(y: int, era: int)
    ensures (y + 400 * era) % 100 == y % 100
  {
    assert y + 400 * era == 100 * (y / 100 + 4 * era) + y % 100;
  }

  lemma Repeats400(y: int, era: int)
    ensures (y + 400 * era) % 400 == y % 400
  {
    assert y + 400 * era == 400 * (y / 400 + era) + y % 400;
  }

  lemma LeapInEra(c: int, q: int, k: int)
    requires 0 <= c < 4 && 0 <= q < 25 && 0 <= k < 4
    ensures Leap(100 * c + 4 * q + k + 1) == (k == 3 && (q < 24 || c == 3))
  {
    var y := 100 * c + 4 * q + k + 1;
    if k == 3 {
      assert y == 4 * (25 * c + q + 1);
      if q < 24 {
        assert y % 100 == 4 * q + 4;
      } else {
        assert y == 100 * (c + 1);
      }
    } else {
      assert y % 4 == k + 1;
    }
  }

  lemma LeapYearLength(yoe: int, era: int)
    requires 0 <= yoe < 400
    ensures YearStart(yoe + 1) - YearStart(yoe) == (if Leap(yoe + 1 + 400 * era) then 366 else 365)
  {
    var c := yoe / 100;
    var q := (yoe - 100 * c) / 4;
    var k := yoe - 100 * c - 4 * q;
    PartsStart(36524 * c + 1461 * q + 365 * k, c, q, k, 0);
    LeapInEra(c, q, k);
    LeapRepeats(yoe + 1, era);
  }

  // ------------------------------------------------------------------ dates by March years

  /** Era, year of the era, month from March and day of the month of a date, and the day they make. */
  predicate Places(date: Date, era: int, yoe: int, mp: int, doy: int) {
    && 0 <= yoe < 400 && 0 <= mp < 12
    && date.month == (if mp < 10 then mp + 3 else mp - 9)
    && date.year == yoe + 400 * era + (if mp < 10 then 0 else 1)
    && date.day == doy - MonthStart(mp) + 1
  }

  /** Days of a year are the days of its months. */
  predicate InMonth(yoe: int, mp: int, doy: int) {
    MonthStart(mp) <= doy && (if mp < 11 then doy < MonthStart(mp + 1) else doy < YearStart(yoe + 1) - YearStart(yoe))
  }

  lemma MonthLengths(date: Date, era: int, yoe: int, mp: int, doy: int)
    requires Places(date, era, yoe, mp, doy)
    ensures ValidDate(date) <==> InMonth(yoe, mp, doy)
  {
    LeapYearLength(yoe, era);
    assert mp >= 10 ==> date.year == yoe + 1 + 400 * era;
  }

  lemma DivideDay(era: int, doe: int)
    requires 0 <= doe < 146097
    ensures (era * 146097 + doe) / 146097 == era && (era * 146097 + doe) % 146097 == doe
  {
  }

  lemma DivideYear(era: int, yoe: int)
    requires 0 <= yoe < 400
    ensures (yoe + 400 * era) / 400 == era && (yoe + 400 * era) % 400 == yoe
  {
  }

  lemma CivilPlaces(days: int) returns (era: int, yoe: int, mp: int, doy: int)
    ensures Places(CivilFromDays(days), era, yoe, mp, doy) && InMonth(yoe, mp, doy)
    ensures days == era * 146097 + YearStart(yoe) + doy - 719468
  {
    var z := days + 719468;
    era := z / 146097;
    var doe := z % 146097;
    yoe := YearOfEra(doe);
    YearFound(doe);
    assert yoe / 400 == 0;
    doy := doe - YearStart(yoe);
    MonthFound(doy);
    mp := (5 * doy + 2) / 153;
  }

  lemma PlacesInEra(era: int, yoe: int, mp: int, doy: int)
    requires 0 <= yoe < 400 && 0 <= mp < 12 && InMonth(yoe, mp, doy)
    ensures 0 <= YearStart(yoe) + doy < 146097
    ensures Places(CivilInEra(era, YearStart(yoe) + doy), era, yoe, mp, doy)
  {
    assert yoe / 400 == 0;
    YearBound(yoe);
    if mp < 11 {
      MonthBound(mp, doy);
    }
    YearUnique(YearStart(yoe) + doy, yoe);
    MonthUnique(doy, mp);
  }

  lemma PlacesCivil(era: int, yoe: int, mp: int, doy: int)
    requires 0 <= yoe < 400 && 0 <= mp < 12 && InMonth(yoe, mp, doy)
    ensures Places(CivilFromDays(era * 146097 + YearStart(yoe) + doy - 719468), era, yoe, mp, doy)
  {
    PlacesInEra(era, yoe, mp, doy);
    DivideDay(era, YearStart(yoe) + doy);
  }

  lemma YearBound(yoe: int)
    requires 0 <= yoe < 400
    ensures 365 <= YearStart(yoe + 1) - YearStart(yoe) <= 366
  {
    LeapYearLength(yoe, 0);
  }

  lemma MonthBound(mp: int, doy: int)
    requires 0 <= mp < 11 && MonthStart(mp) <= doy < MonthStart(mp + 1)
    ensures 0 <= doy < 337
  {
  }

  lemma PlacesDays(date: Date, era: int, yoe: int, mp: int, doy: int)
    requires Places(date, era, yoe, mp, doy)
    ensures DaysFromCivil(date) == era * 146097 + YearStart(yoe) + doy - 719468
  {
    DivideYear(era, yoe);
    assert yoe / 400 == 0;
  }

  lemma PlacesOf(date: Date) returns (era: int, yoe: int, mp: int, doy: int)
    requires 1 <= date.month <= 12
    ensures Places(date, era, yoe, mp, doy)
  {
    var y := if date.month <= 2 then date.year - 1 else date.year;
    era, yoe := y / 400, y % 400;
    mp := if date.month <= 2 then date.month + 9 else date.month - 3;
    doy := MonthStart(mp) + date.day - 1;
  }

  // ------------------------------------------------------------------ the calendar

  /** The date computed for a day is a date of the calendar, and the inverse leads back to the day. */
  lemma CivilIsValid(days: int)
    ensures ValidDate(CivilFromDays(days)) && DaysFromCivil(CivilFromDays(days)) == days
  {
    var era, yoe, mp, doy := CivilPlaces(days);
    MonthLengths(CivilFromDays(days), era, yoe, mp, doy);
    PlacesDays(CivilFromDays(days), era, yoe, mp, doy);
  }

  /** Every date of the calendar is the date of its day. */
  lemma CivilIsInverse(date: Date)
    requires ValidDate(date)
    ensures CivilFromDays(DaysFromCivil(date)) == date
  {
    var era, yoe, mp, doy := PlacesOf(date);
    MonthLengths(date, era, yoe, mp, doy);
    PlacesDays(date, era, yoe, mp, doy);
    PlacesCivil(era, yoe, mp, doy);
  }

  lemma NextDateNextDay(date: Date)
    requires ValidDate(date)
    ensures ValidDate(NextDate(date)) && DaysFromCivil(NextDate(date)) == DaysFromCivil(date) + 1
  {
    var era, yoe, mp, doy := PlacesOf(date);
    MonthLengths(date, era, yoe, mp, doy);
    PlacesDays(date, era, yoe, mp, doy);
    var next := NextDate(date);
    if date.day < MonthLength(date.year, date.month) {
      PlacesDays(next, era, yoe, mp, doy + 1);
    } else {
      MonthLast(date, era, yoe, mp, doy);
      if mp < 11 {
        PlacesDays(next, era, yoe, mp + 1, doy + 1);
      } else if yoe < 399 {
        PlacesDays(next, era, yoe + 1, 0, 0);
      } else {
        PlacesDays(next, era + 1, 0, 0, 0);
      }
    }
  }

  /** The last day of a month is followed by the first day of the next, or of the next year. */
  lemma MonthLast(date: Date, era: int, yoe: int, mp: int, doy: int)
    requires Places(date, era, yoe, mp, doy) && ValidDate(date) && date.day == MonthLength(date.year, date.month)
    ensures doy + 1 == if mp < 11 then MonthStart(mp + 1) else YearStart(yoe + 1) - YearStart(yoe)
  {
    LeapYearLength(yoe, era);
    assert mp >= 10 ==> date.year == yoe + 1 + 400 * era;
  }

  lemma NextDay(days: int)
    ensures CivilFromDays(days + 1) == NextDate(CivilFromDays(days))
  {
    var date := CivilFromDays(days);
    CivilIsValid(days);
    NextDateNextDay(date);
    CivilIsInverse(NextDate(date));
  }

  /** Calendar arithmetic: every timestamp has a valid Gregorian date; timestamps share a date exactly within
      one local day; and the date of the next local day is the next date of the calendar. */
  lemma DateOfTimestamp(ts: int)
    ensures ValidDate(DateOf(ts)) && DaysFromCivil(DateOf(ts)) == DaysOf(ts)
    ensures DateOf(ts + 86400) == NextDate(DateOf(ts))
    ensures forall other :: DateOf(other) == DateOf(ts) <==> DaysOf(other) == DaysOf(ts)
  {
    CivilIsValid(DaysOf(ts));
    NextDay(DaysOf(ts));
    assert DaysOf(ts + 86400) == DaysOf(ts) + 1;
    forall other | DateOf(other) == DateOf(ts) ensures DaysOf(other) == DaysOf(ts) {
      CivilIsValid(DaysOf(other));
    }
  }

  /** The epoch, and with the successor law every other day, is where the calendar puts it. */
  lemma Epoch()
    ensures CivilFromDays(0) == Date(1970, 1, 1)
  {
    var date := Date(1970, 1, 1);
    PlacesDays(date, 4, 369, 10, 306);
    CivilIsInverse(date);
  }

  // ------------------------------------------------------------------ rendering

  function Digit(n: nat): char
    requires n < 10
  {
    ('0' as int + n) as char
  }

  function Digits(n: nat): (r: string)
    ensures r != "" && (n < 100 ==> |r| <= 2) && '0' <= r[0]
  {
    if n < 10 then [Digit(n)] else Digits(n / 10) + [Digit(n % 10)]
  }

  function Pad(s: string, width: nat): (r: string)
    ensures |r| == if |s| < width then width else |s|
    decreases width - |s|
  {
    if |s| >= width then s else Pad("0" + s, width)
  }

  /** The sign counts towards the width. */
  function YearText(y: int): string {
    if y >= 0 then Pad(Digits(y), 4) else "-" + Pad(Digits(-y), 3)
  }

  function DateText(d: Date): string
    requires ValidDate(d)
  {
    YearText(d.year) + "-" + Pad(Digits(d.month), 2) + "-" + Pad(Digits(d.day), 2)
  }

  function Value(s: string): int {
    if s == "" then 0 else 10 * Value(s[..|s| - 1]) + s[|s| - 1] as int - '0' as int
  }

  lemma {:induction false} ValueOfDigits(n: nat)
    ensures Value(Digits(n)) == n
  {
    if n >= 10 {
      var s := Digits(n / 10);
      ValueOfDigits(n / 10);
      assert (s + [Digit(n % 10)])[..|s|] == s;
    } else {
      assert [Digit(n)][..0] == "";
    }
  }

  lemma {:induction false} ValueOfZero(s: string)
    ensures Value("0" + s) == Value(s)
  {
    if s != "" {
      ValueOfZero(s[..|s| - 1]);
      assert ("0" + s)[..|s|] == "0" + s[..|s| - 1];
    } else {
      assert ("0" + s)[..0] == "";
    }
  }

  lemma {:induction false} ValueOfPad(s: string, width: nat)
    requires s != "" && '0' <= s[0]
    ensures Value(Pad(s, width)) == Value(s) && '0' <= Pad(s, width)[0]
    decreases width - |s|
  {
    if |s| < width {
      ValueOfZero(s);
      ValueOfPad("0" + s, width);
    }
  }

  lemma PaddedInjective(m: nat, n: nat, width: nat)
    requires Pad(Digits(m), width) == Pad(Digits(n), width)
    ensures m == n
  {
    ValueOfPad(Digits(m), width);
    ValueOfPad(Digits(n), width);
    ValueOfDigits(m);
    ValueOfDigits(n);
  }

  lemma YearInjective(y: int, z: int)
    requires YearText(y) == YearText(z)
    ensures y == z
  {
    if y >= 0 {
      ValueOfPad(Digits(y), 4);
    }
    if z >= 0 {
      ValueOfPad(Digits(z), 4);
    }
    assert y >= 0 <==> z >= 0;
    if y >= 0 {
      PaddedInjective(y, z, 4);
    } else {
      assert YearText(y)[1..] == Pad(Digits(-y), 3) && YearText(z)[1..] == Pad(Digits(-z), 3);
      PaddedInjective(-y, -z, 3);
    }
  }

  lemma DateTextInjective(a: Date, b: Date)
    requires ValidDate(a) && ValidDate(b) && DateText(a) == DateText(b)
    ensures a == b
  {
    var s, n := DateText(a), |DateText(a)|;
    assert s[n - 2..] == Pad(Digits(a.day), 2) == Pad(Digits(b.day), 2);
    assert s[n - 5..n - 3] == Pad(Digits(a.month), 2) == Pad(Digits(b.month), 2);
    assert s[..n - 6] == YearText(a.year) == YearText(b.year);
    PaddedInjective(a.day, b.day, 2);
    PaddedInjective(a.month, b.month, 2);
    YearInjective(a.year, b.year);
  }

  function BusinessDate(ts: int): string {
    CivilIsValid(DaysOf(ts));
    DateText(DateOf(ts))
  }

  /** Two timestamps render to the same business date exactly when they lie in the same local day. */
  lemma SameTextSameDay(ts: int, other: int)
    ensures BusinessDate(ts) == BusinessDate(other) <==> (ts + 28800) / 86400 == (other + 28800) / 86400
  {
    CivilIsValid(DaysOf(ts));
    CivilIsValid(DaysOf(other));
    if BusinessDate(ts) == BusinessDate(other) {
      DateTextInjective(DateOf(ts), DateOf(other));
    }
  }

  lemma {:induction false} FewDigits(n: nat)
    ensures n < 10 ==> |Digits(n)| == 1
    ensures n < 100 ==> |Digits(n)| <= 2
    ensures n < 10000 ==> |Digits(n)| <= 4
  {
    if n >= 10 {
      FewDigits(n / 10);
      if n < 10000 && n >= 100 {
        FewDigits(n / 100);
        assert n / 100 == n / 10 / 10;
      }
    }
  }

  lemma PaddedReads(n: nat, width: nat)
    ensures Value(Pad(Digits(n), width)) == n
  {
    ValueOfPad(Digits(n), width);
    ValueOfDigits(n);
  }

  lemma YearReads(y: int)
    ensures var text := YearText(y);
            && |text| >= 4 && (0 <= y <= 9999 ==> |text| == 4)
            && if y >= 0 then Value(text) == y else text[0] == '-' && Value(text[1..]) == -y
  {
    if y >= 0 {
      FewDigits(y);
      PaddedReads(y, 4);
    } else {
      PaddedReads(-y, 3);
      assert YearText(y)[1..] == Pad(Digits(-y), 3);
    }
  }

  lemma TextParts(date: Date)
    requires ValidDate(date)
    ensures var text := DateText(date);
            var n := |text|;
            && n >= 6 && text[..n - 6] == YearText(date.year) && text[n - 6] == '-' && text[n - 3] == '-'
            && text[n - 5..n - 3] == Pad(Digits(date.month), 2) && text[n - 2..] == Pad(Digits(date.day), 2)
  {
    FewDigits(date.month);
    FewDigits(date.day);
  }

  /** The text of a day reads back as its date: the year, below zero after a sign, two digits of the month and two of
      the day, between hyphens; the year has four digits from 0 to 9999. */
  lemma TextReadsBack(ts: int)
    ensures var text, date := BusinessDate(ts), DateOf(ts);
            var n := |text|;
            && n >= 10 && text[n - 6] == '-' && text[n - 3] == '-' && (0 <= date.year <= 9999 ==> n == 10)
            && (if date.year >= 0 then Value(text[..n - 6]) == date.year
                else text[0] == '-' && Value(text[..n - 6][1..]) == -date.year)
            && Value(text[n - 5..n - 3]) == date.month && Value(text[n - 2..]) == date.day
  {
    CivilIsValid(DaysOf(ts));
    var date := DateOf(ts);
    TextParts(date);
    YearReads(date.year);
    PaddedReads(date.month, 2);
    PaddedReads(date.day, 2);
  }
}
