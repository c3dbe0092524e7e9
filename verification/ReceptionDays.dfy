/** Reception days: the closed-form civil date, the calendar it stands for, and the order of date texts. */
module ReceptionDays {
  import opened Wrappers
  import Decimal

  datatype Date = Date(year: int, month: int, day: int)

  // ----- the calendar (leap years as in Appendix C of RFC 3339) -----

  predicate Leap(y: int) { y % 4 == 0 && (y % 100 != 0 || y % 400 == 0) }

  function MonthDays(y: int, m: int): int
  {
    if m == 2 then (if Leap(y) then 29 else 28) else if m == 4 || m == 6 || m == 9 || m == 11 then 30 else 31
  }

  predicate ValidDate(d: Date) { 1 <= d.month <= 12 && 1 <= d.day <= MonthDays(d.year, d.month) }

  function NextDay(d: Date): Date
  {
    if d.day < MonthDays(d.year, d.month) then d.(day := d.day + 1)
    else if d.month < 12 then Date(d.year, d.month + 1, 1)
    else Date(d.year + 1, 1, 1)
  }

  /** The date found by counting `n` days from 0000-01-01. */
  function Counted(n: nat): Date
  {
    if n == 0 then Date(0, 1, 1) else NextDay(Counted(n - 1))
  }

  // ----- the closed form -----

  function Era(z: int): int { (if z >= 0 then z else z - 146096) / 146097 }

  function YearOfEra(doe: int): int { (doe - doe / 1460 + doe / 36524 - doe / 146096) / 365 }

  /** The date of a day of a year that begins on 1 March. */
  function MarchDate(year: int, doy: int): Date
  {
    var piece := (5 * doy + 2) / 153;
    var day := doy - (153 * piece + 2) / 5 + 1;
    var month := piece + (if piece < 10 then 3 else -9);
    Date(year + (if month <= 2 then 1 else 0), month, day)
  }

  /** The arithmetic of `from_unix_seconds`; `z` counts days from 0000-03-01. */
  function FromDays(z: int): Date
  {
    var era := Era(z);
    var doe := z - era * 146097;
    var yoe := YearOfEra(doe);
    MarchDate(yoe + era * 400, doe - (365 * yoe + yoe / 4 - yoe / 100))
  }

  // ----- years of an era -----

  /** A day of an era as century, four-year cycle, year and day. */
  predicate Split(doe: int, c: int, q: int, t: int, doy: int)
  {
    && 0 <= c <= 3 && 0 <= q <= 24 && 0 <= t <= 3 && 0 <= doy < YearLength(c, q, t)
    && doe == 36524 * c + 1461 * q + 365 * t + doy
  }

  function YearLength(c: int, q: int, t: int): int
  {
    if t == 3 && (q < 24 || c == 3) then 366 else 365
  }

  lemma SplitExists(doe: int) returns (c: int, q: int, t: int, doy: int)
    requires 0 <= doe < 146097
    ensures Split(doe, c, q, t, doy)
  {
    c := if doe / 36524 < 3 then doe / 36524 else 3;
    var r := doe - 36524 * c;
    q := if r / 1461 < 24 then r / 1461 else 24;
    var s := r - 1461 * q;
    t := if s / 365 < 3 then s / 365 else 3;
    doy := s - 365 * t;
  }

  /** The formula for the year of an era, for every way to split a day. */
  lemma YearIs(doe: int, c: int, q: int, t: int, doy: int)
    requires Split(doe, c, q, t, doy)
    ensures var y := 100 * c + 4 * q + t;
            YearOfEra(doe) == y && doe - (365 * y + y / 4 - y / 100) == doy && 0 <= doe < 146097
  {
    var u := 24 * c + q + 365 * t + doy;
    var e := if u >= 1460 then 1 else 0;
    assert doe / 1460 == 25 * c + q + e;
    var last := if doe == 146096 then 1 else 0;
    assert doe / 36524 == c + last;
    assert doe / 146096 == last;
    var y := 100 * c + 4 * q + t;
    assert doe - doe / 1460 + doe / 36524 - doe / 146096 == 365 * y + (doy - e);
    assert y / 4 == 25 * c + q && y / 100 == c;
  }

  lemma FromDaysIs(era: int, doe: int, c: int, q: int, t: int, doy: int)
    requires era >= 0 && Split(doe, c, q, t, doy)
    ensures FromDays(era * 146097 + doe) == MarchDate(400 * era + 100 * c + 4 * q + t, doy)
  {
    hide Era, YearOfEra, MarchDate, Split;
    YearIs(doe, c, q, t, doy);
    EraIs(era, doe);
  }

  lemma EraIs(era: int, doe: int)
    requires era >= 0 && 0 <= doe < 146097
    ensures era * 146097 + doe >= 0 && Era(era * 146097 + doe) == era
  {}

  lemma LeapIs(era: int, c: int, q: int, t: int)
    requires 0 <= c <= 3 && 0 <= q <= 24 && 0 <= t <= 3
    ensures Leap(400 * era + 100 * c + 4 * q + t + 1) <==> YearLength(c, q, t) == 366
  {
    var y := 400 * era + 100 * c + 4 * q + t + 1;
    Mod4(100 * era + 25 * c + q, t + 1);
    Mod100(4 * era + c, 4 * q + t + 1);
    Mod400(era, 100 * c + 4 * q + t + 1);
    assert y == 4 * (100 * era + 25 * c + q) + (t + 1);
    assert y == 100 * (4 * era + c) + (4 * q + t + 1);
    assert y == 400 * era + (100 * c + 4 * q + t + 1);
  }

  lemma Mod4(k: int, r: int)
    requires 0 < r <= 4
    ensures (4 * k + r) % 4 == 0 <==> r == 4
  {}

  lemma Mod100(k: int, r: int)
    requires 0 < r <= 100
    ensures (100 * k + r) % 100 == 0 <==> r == 100
  {}

  lemma Mod400(k: int, r: int)
    requires 0 < r <= 400
    ensures (400 * k + r) % 400 == 0 <==> r == 400
  {}

  // ----- days of a year -----

  lemma DayStep(year: int, doy: int)
    requires 0 <= doy && doy + 1 < (if Leap(year + 1) then 366 else 365)
    ensures NextDay(MarchDate(year, doy)) == MarchDate(year, doy + 1)
  {
    var p := (5 * doy + 2) / 153;
    assert 0 <= p <= 11;
    if p == 0 {} else if p == 1 {} else if p == 2 {} else if p == 3 {} else if p == 4 {} else if p == 5 {}
    else if p == 6 {} else if p == 7 {} else if p == 8 {} else if p == 9 {} else if p == 10 {} else {}
  }

  lemma YearStep(year: int)
    ensures NextDay(MarchDate(year, if Leap(year + 1) then 365 else 364)) == MarchDate(year + 1, 0)
  {}

  /** One day on, in a year that has it, or the first day of the next year. */
  lemma SplitStep(doe: int, c: int, q: int, t: int, doy: int) returns (c': int, q': int, t': int, doy': int)
    requires Split(doe, c, q, t, doy) && doe < 146096
    ensures Split(doe + 1, c', q', t', doy')
    ensures if doy + 1 < YearLength(c, q, t) then (c', q', t', doy') == (c, q, t, doy + 1)
            else doy' == 0 && 100 * c' + 4 * q' + t' == 100 * c + 4 * q + t + 1
  {
    if doy + 1 < YearLength(c, q, t) { return c, q, t, doy + 1; }
    if t < 3 { return c, q, t + 1, 0; }
    if q < 24 { return c, q + 1, 0, 0; }
    return c + 1, 0, 0, 0;
  }

  lemma StepInEra(era: int, doe: int, c: int, q: int, t: int, doy: int)
    requires era >= 0 && Split(doe, c, q, t, doy) && doe < 146096
    ensures FromDays(era * 146097 + (doe + 1)) == NextDay(FromDays(era * 146097 + doe))
  {
    hide FromDays, MarchDate, NextDay, Leap, Split;
    var year := 400 * era + 100 * c + 4 * q + t;
    FromDaysIs(era, doe, c, q, t, doy);
    SplitDay(doe, c, q, t, doy);
    LeapIs(era, c, q, t);
    var c', q', t', doy' := SplitStep(doe, c, q, t, doy);
    FromDaysIs(era, doe + 1, c', q', t', doy');
    if doy + 1 < YearLength(c, q, t) { DayStep(year, doy); } else { YearStep(year); }
  }

  lemma StepToEra(era: int)
    requires era >= 0
    ensures FromDays((era + 1) * 146097 + 0) == NextDay(FromDays(era * 146097 + 146096))
  {
    hide FromDays, MarchDate, NextDay, Leap, Split;
    EraEnds();
    FromDaysIs(era, 146096, 3, 24, 3, 365);
    FromDaysIs(era + 1, 0, 0, 0, 0, 0);
    LeapIs(era, 3, 24, 3);
    YearStep(400 * era + 399);
  }

  lemma EraEnds()
    ensures Split(146096, 3, 24, 3, 365) && Split(0, 0, 0, 0, 0)
  {}

  /** The closed form of the next day is the next day. */
  lemma FromDaysStep(z: int)
    requires z >= 0
    ensures FromDays(z + 1) == NextDay(FromDays(z))
  {
    hide FromDays, NextDay;
    var era, doe := z / 146097, z % 146097;
    var c, q, t, doy := SplitExists(doe);
    if doe < 146096 {
      StepInEra(era, doe, c, q, t, doy);
    } else {
      StepToEra(era);
    }
  }

  lemma SplitDay(doe: int, c: int, q: int, t: int, doy: int)
    requires Split(doe, c, q, t, doy)
    ensures 0 <= doy < YearLength(c, q, t) && 0 <= c <= 3 && 0 <= q <= 24 && 0 <= t <= 3
  {}

  // ----- the closed form is the calendar -----

  lemma {:induction false} EarlyDays(n: nat)
    requires n <= 60
    ensures Counted(n) == if n < 31 then Date(0, 1, n + 1) else if n < 60 then Date(0, 2, n - 30) else Date(0, 3, 1)
  {
    if n > 0 {
      EarlyDays(n - 1);
    }
  }

  lemma FirstDay(z: int)
    requires z == 0
    ensures FromDays(z) == Date(0, 3, 1)
  {
    hide FromDays, Split;
    EraEnds();
    FromDaysIs(0, z, 0, 0, 0, z);
  }

  /** From 0000-03-01 on, the closed form is the date found by counting days. */
  lemma {:induction false} ClosedFormCounts(z: nat)
    ensures FromDays(z) == Counted(z + 60)
  {
    hide FromDays, NextDay;
    if z == 0 {
      EarlyDays(z + 60);
      FirstDay(z);
    } else {
      ClosedFormCounts(z - 1);
      FromDaysStep(z - 1);
    }
  }

  /** Over all days from 0000-01-01 on, the closed form is right exactly from 0000-02-29 on. */
  lemma ClosedFormExact(z: int)
    requires z >= -60
    ensures FromDays(z) == Counted(z + 60) <==> z >= -1
  {
    hide FromDays;
    if z >= 0 {
      ClosedFormCounts(z);
    } else {
      EarlyDays(z + 60);
      if z < -1 {
        OneDayLate(z);
        EarlyDays(z + 61);
      } else {
        LeapDay();
      }
    }
  }

  /** The first 59 days of year 0000, and the day before them, come out one day late. */
  lemma OneDayLate(z: int)
    requires -61 <= z <= -2
    ensures FromDays(z) == Counted(z + 61)
  {
    EarlyDays(z + 61);
    assert Era(z) == -2;
    var doe := z + 292194;
    LateYear(doe);
    LateDate(doe - 291827);
    hide MarchDate, YearOfEra, Era;
    assert 799 / 4 == 199 && 799 / 100 == 7;
  }

  lemma LateYear(doe: int)
    requires 292133 <= doe <= 292192
    ensures YearOfEra(doe) == 799
  {
    var last := if doe == 292192 then 1 else 0;
    assert doe / 1460 == 200;
    assert doe / 36524 == 7 + last;
    assert doe / 146096 == 1 + last;
  }

  lemma LateDate(doy: int)
    requires 306 <= doy <= 365
    ensures MarchDate(-1, doy) == if doy < 337 then Date(0, 1, doy - 305) else Date(0, 2, doy - 336)
  {
    assert (5 * doy + 2) / 153 == if doy < 337 then 10 else 11;
  }

  lemma LeapDay()
    ensures FromDays(-1) == Date(0, 2, 29)
  {
    assert Era(-1) == -1;
    YearIs(146096, 3, 24, 3, 365);
    LateDate(365);
    hide MarchDate, YearOfEra, Era;
    assert FromDays(-1) == MarchDate(-1, 365);
  }

  lemma SameDateTwice()
    ensures FromDays(-2) == FromDays(-1) == Date(0, 2, 29)
  {
    LeapDay();
    OneDayLate(-2);
    EarlyDays(59);
    hide FromDays;
  }

  // ----- dates as texts -----

  predicate IsDigit(c: char) { '0' <= c <= '9' }

  function Value(c: char): int
  {
    c as int - '0' as int
  }

  /** `YYYY-MM-DD` */
  function DateText(d: Date): string
    requires 0 <= d.year <= 9999 && ValidDate(d)
  {
    assert d.day <= 31;
    [Decimal.Digit(d.year / 1000), Decimal.Digit(d.year / 100 % 10), Decimal.Digit(d.year / 10 % 10),
     Decimal.Digit(d.year % 10), '-', Decimal.Digit(d.month / 10), Decimal.Digit(d.month % 10), '-',
     Decimal.Digit(d.day / 10), Decimal.Digit(d.day % 10)]
  }

  predicate Shaped(t: string)
  {
    && |t| == 10 && t[4] == '-' && t[7] == '-'
    && forall i | 0 <= i < 10 && i != 4 && i != 7 :: IsDigit(t[i])
  }

  function Year(t: string): int
    requires |t| == 10
  {
    Value(t[0]) * 1000 + Value(t[1]) * 100 + Value(t[2]) * 10 + Value(t[3])
  }

  /** `ReceptionDay::parse` with the date it accepts. */
  function ParseDay(t: string): Option<Date>
  {
    if !Shaped(t) then None else
    var d := Date(Year(t), Value(t[5]) * 10 + Value(t[6]), Value(t[8]) * 10 + Value(t[9]));
    if ValidDate(d) then Some(d) else None
  }

  /** A date's text is accepted and read back as that date. */
  lemma TextRoundTrip(d: Date)
    requires 0 <= d.year <= 9999 && ValidDate(d)
    ensures ParseDay(DateText(d)) == Some(d)
  {
    var t := DateText(d);
    YearDigits(d.year);
    assert Value(t[5]) * 10 + Value(t[6]) == d.month;
    assert d.day <= 31;
    assert Value(t[8]) * 10 + Value(t[9]) == d.day;
  }

  lemma YearDigits(y: int)
    requires 0 <= y <= 9999
    ensures y / 1000 * 1000 + y / 100 % 10 * 100 + y / 10 % 10 * 10 + y % 10 == y
    ensures 0 <= y / 1000 <= 9
  {
    TenthOf(y, 1);
    TenthOf(y, 10);
    TenthOf(y, 100);
  }

  /** Dividing by ten once more drops one digit. */
  lemma TenthOf(y: int, k: int)
    requires 0 <= y && (k == 1 || k == 10 || k == 100)
    ensures y / k == 10 * (y / (10 * k)) + y / k % 10
  {
    if k == 10 {
      assert y / 10 / 10 == y / 100;
    } else if k == 100 {
      assert y / 100 / 10 == y / 1000;
    }
  }

  /** An accepted text is the text of the date it was read as. */
  lemma ParseRoundTrip(t: string)
    requires ParseDay(t).Some?
    ensures var d := ParseDay(t).value; 0 <= d.year <= 9999 && ValidDate(d) && DateText(d) == t
  {
    var d := ParseDay(t).value;
    assert forall i | 0 <= i < 10 && i != 4 && i != 7 :: 0 <= Value(t[i]) <= 9 && Decimal.Digit(Value(t[i])) == t[i];
    YearOfText(t);
    assert d.month / 10 == Value(t[5]) && d.month % 10 == Value(t[6]);
    assert d.day / 10 == Value(t[8]) && d.day % 10 == Value(t[9]);
  }

  lemma YearOfText(t: string)
    requires Shaped(t)
    ensures var y := Year(t);
            0 <= y <= 9999 && y / 1000 == Value(t[0]) && y / 100 % 10 == Value(t[1]) && y / 10 % 10 == Value(t[2])
            && y % 10 == Value(t[3])
  {
    FourDigits(Value(t[0]), Value(t[1]), Value(t[2]), Value(t[3]));
  }

  lemma FourDigits(a: int, b: int, c: int, d: int)
    requires 0 <= a <= 9 && 0 <= b <= 9 && 0 <= c <= 9 && 0 <= d <= 9
    ensures var y := a * 1000 + b * 100 + c * 10 + d;
            0 <= y <= 9999 && y / 1000 == a && y / 100 % 10 == b && y / 10 % 10 == c && y % 10 == d
  {
    var y := a * 1000 + b * 100 + c * 10 + d;
    assert y / 100 == 10 * a + b;
    assert y / 10 == 10 * (10 * a + b) + c;
    assert y == 10 * (100 * a + 10 * b + c) + d;
  }

  /** `from_unix_seconds` */
  function FromUnixSeconds(seconds: int): Option<string> { TextOfDay(DayNumber(seconds)) }

  /** Days since 0000-03-01. */
  function DayNumber(seconds: int): int { seconds / 86400 + 719468 }

  function TextOfDay(z: int): Option<string>
  {
    var d := FromDays(z);
    if 0 <= d.year <= 9999 then FromDaysValid(z); Some(DateText(d)) else None
  }

  /** What the text of a day should be: that of its date, if the date is in the years 0000 through 9999. */
  function RightText(z: int): Option<string>
  {
    if z < -60 then None else
    CountedValid(z + 60);
    if Counted(z + 60).year <= 9999 then Some(DateText(Counted(z + 60))) else None
  }

  // ----- order -----

  /** Strings in byte order. */
  predicate TextLess(a: string, b: string)
    decreases |a|
  {
    b != [] && (a == [] || a[0] < b[0] || (a[0] == b[0] && TextLess(a[1..], b[1..])))
  }

  predicate DateLess(a: Date, b: Date)
  {
    a.year < b.year || (a.year == b.year && (a.month < b.month || (a.month == b.month && a.day < b.day)))
  }

  /** Two texts with a common beginning compare by what follows; otherwise the beginning decides. */
  lemma {:induction false} TextLessAfter(a: string, b: string, k: nat)
    requires k < |a| && k < |b| && a[..k] == b[..k]
    ensures a[k] != b[k] ==> (TextLess(a, b) <==> a[k] < b[k])
    decreases k
  {
    if k > 0 {
      assert a[0] == a[..k][0] == b[..k][0] == b[0];
      assert a[1..][..k - 1] == a[..k][1..] && b[1..][..k - 1] == b[..k][1..];
      TextLessAfter(a[1..], b[1..], k - 1);
    }
  }

  lemma {:induction false} NotLessSelf(a: string)
    ensures !TextLess(a, a)
  {
    if a != [] {
      NotLessSelf(a[1..]);
    }
  }

  /** The first place where two texts of the same length differ. */
  lemma {:induction false} FirstDifference(a: string, b: string) returns (k: nat)
    requires |a| == |b| && a != b
    ensures k < |a| && a[..k] == b[..k] && a[k] != b[k]
  {
    if a[0] != b[0] {
      k := 0;
    } else {
      assert a == [a[0]] + a[1..] && b == [b[0]] + b[1..];
      k := FirstDifference(a[1..], b[1..]);
      assert a[..k + 1] == [a[0]] + a[1..][..k] && b[..k + 1] == [b[0]] + b[1..][..k];
      k := k + 1;
    }
  }

  /** The order of date texts is the order of dates. */
  lemma TextOrder(a: Date, b: Date)
    requires 0 <= a.year <= 9999 && ValidDate(a) && 0 <= b.year <= 9999 && ValidDate(b)
    ensures TextLess(DateText(a), DateText(b)) <==> DateLess(a, b)
  {
    var s, t := DateText(a), DateText(b);
    TextRoundTrip(a);
    TextRoundTrip(b);
    if s == t {
      NotLessSelf(s);
    } else {
      var k := FirstDifference(s, t);
      TextLessAfter(s, t, k);
      SamePrefix(s, t, k);
      DigitsDecide(s, t, k, a, b);
    }
  }

  lemma SamePrefix(s: string, t: string, k: nat)
    requires k < |s| && k < |t| && s[..k] == t[..k]
    ensures forall i | 0 <= i < k :: s[i] == t[i]
  {
    forall i | 0 <= i < k ensures s[i] == t[i] {
      assert s[i] == s[..k][i] && t[i] == t[..k][i];
    }
  }

  lemma DigitsDecide(s: string, t: string, k: nat, a: Date, b: Date)
    requires Shaped(s) && Shaped(t) && ParseDay(s) == Some(a) && ParseDay(t) == Some(b) && k < 10
    requires (forall i | 0 <= i < k :: s[i] == t[i]) && s[k] != t[k]
    ensures s[k] < t[k] <==> DateLess(a, b)
  {
    hide ValidDate;
    assert k != 4 && k != 7;
    assert forall i | 0 <= i < 10 && i != 4 && i != 7 :: 0 <= Value(s[i]) <= 9 && 0 <= Value(t[i]) <= 9;
    if k == 0 {} else if k == 1 {} else if k == 2 {} else if k == 3 {} else if k == 5 {} else if k == 6 {}
    else if k == 8 {} else {}
  }

  lemma {:induction false} CountedRises(m: nat, n: nat)
    requires m < n
    ensures ValidDate(Counted(m)) && ValidDate(Counted(n)) && DateLess(Counted(m), Counted(n)) && Counted(m).year >= 0
    decreases n
  {
    CountedValid(m);
    CountedValid(n);
    CountedValid(n - 1);
    if m < n - 1 {
      CountedRises(m, n - 1);
    }
  }

  lemma {:induction false} CountedValid(n: nat)
    ensures ValidDate(Counted(n)) && Counted(n).year >= 0
  {
    if n > 0 {
      CountedValid(n - 1);
    }
  }

  lemma YearOfLongEra(doe: int)
    requires 146096 <= doe <= 292192
    ensures YearOfEra(doe) <= 799
    ensures doe <= 292132 && YearOfEra(doe) == 799 ==> 0 <= doe - 291827 <= 305
  {
    var a, b, c := doe / 1460, doe / 36524, doe / 146096;
    assert b <= 8 && 1 <= c <= 2;
    if a < 200 {
      assert doe < 292000 && b <= 7;
    }
    assert doe - a + b - c < 292000;
  }

  /** Before year 0000 there are only years that no text is made for. */
  lemma EarlierYears(z: int)
    requires z <= -62
    ensures FromDays(z).year < 0
  {
    var era := Era(z);
    var doe := z - era * 146097;
    EraBelow(z);
    YearOfLongEra(doe);
    var yoe := YearOfEra(doe);
    var doy := doe - (365 * yoe + yoe / 4 - yoe / 100);
    if yoe == 799 {
      assert yoe / 4 == 199 && yoe / 100 == 7;
      if era == -2 {
        assert (5 * doy + 2) / 153 <= 9;
      }
    }
  }

  lemma EraBelow(z: int)
    requires z <= -2
    ensures Era(z) <= -2 && 146096 <= z - Era(z) * 146097 <= 292192
    ensures Era(z) == -2 ==> z - Era(z) * 146097 == z + 292194
  {}

  /** A year that a text is made for comes with a date that exists. */
  lemma FromDaysValid(z: int)
    requires FromDays(z).year >= 0
    ensures ValidDate(FromDays(z))
  {
    hide FromDays, ValidDate;
    if z >= 0 {
      ClosedFormCounts(z);
      CountedValid(z + 60);
    } else if z == -1 {
      LeapDay();
      EarlyDays(59);
      CountedValid(59);
    } else if z >= -61 {
      OneDayLate(z);
      CountedValid(z + 61);
    } else {
      EarlierYears(z);
    }
  }

  /**
   Over all days, the text or the refusal is the right one except on the 60 days from the one before 0000-01-01
   through 0000-02-28.
   */
  lemma TextExact(z: int)
    ensures TextOfDay(z) == RightText(z) <==> z >= -1 || z <= -62
  {
    hide FromDays, ValidDate, DateText, Counted;
    if z <= -62 {
      EarlierYears(z);
    } else if z < -1 {
      LateText(z);
    } else {
      ClosedFormExact(z);
      CountedValid(z + 60);
    }
  }

  lemma LateText(z: int)
    requires -61 <= z <= -2
    ensures TextOfDay(z) != RightText(z)
  {
    hide FromDays, ValidDate, DateText, Counted;
    OneDayLate(z);
    EarlyDays(z + 61);
    CountedValid(z + 61);
    if z > -61 {
      EarlyDays(z + 60);
      CountedValid(z + 60);
      TextRoundTrip(Counted(z + 60));
      TextRoundTrip(Counted(z + 61));
    }
  }

  /** The same for instants. */
  lemma InstantExact(seconds: int)
    ensures FromUnixSeconds(seconds) == RightText(DayNumber(seconds))
            <==> DayNumber(seconds) >= -1 || DayNumber(seconds) <= -62
  {
    TextExact(DayNumber(seconds));
  }

  /** Every day from 0000-03-01 through 9999-12-31 has a text, and it is the accepted text of its counted date. */
  lemma TextOfCounted(z: nat)
    ensures var d := Counted(z + 60);
            && ValidDate(d) && d.year >= 0 && (TextOfDay(z).Some? <==> d.year <= 9999)
            && (d.year <= 9999 ==> TextOfDay(z) == Some(DateText(d)) && ParseDay(DateText(d)) == Some(d))
  {
    ClosedFormCounts(z);
    CountedValid(z + 60);
    hide FromDays, Counted, DateText, ValidDate, ParseDay;
    if Counted(z + 60).year <= 9999 { TextRoundTrip(Counted(z + 60)); }
  }

  lemma DayOfInstant(seconds: int)
    requires DayNumber(seconds) >= 0
    ensures var d := Counted(DayNumber(seconds) + 60);
            && ValidDate(d) && d.year >= 0 && (FromUnixSeconds(seconds).Some? <==> d.year <= 9999)
            && (d.year <= 9999 ==> FromUnixSeconds(seconds) == Some(DateText(d)) && ParseDay(DateText(d)) == Some(d))
  {
    TextOfCounted(DayNumber(seconds));
    hide DayNumber, TextOfDay, Counted, DateText, ValidDate, ParseDay;
  }

  /**
   Pruning by text keeps exactly the days at or after the cutoff: the texts of two instants compare as their
   days do.
   */
  lemma PruningKeepsDays(seconds: int, cutoff: int)
    requires DayNumber(seconds) >= 0 && DayNumber(cutoff) >= 0
    requires FromUnixSeconds(seconds).Some? && FromUnixSeconds(cutoff).Some?
    ensures TextLess(FromUnixSeconds(seconds).value, FromUnixSeconds(cutoff).value) <==> seconds / 86400 < cutoff / 86400
  {
    TextsCompare(DayNumber(seconds), DayNumber(cutoff));
    hide TextOfDay, TextLess;
  }

  lemma TextsCompare(y: nat, z: nat)
    requires TextOfDay(y).Some? && TextOfDay(z).Some?
    ensures TextLess(TextOfDay(y).value, TextOfDay(z).value) <==> y < z
  {
    hide TextOfDay, DateText, TextLess, ValidDate, Counted, ParseDay;
    TextOfCounted(y);
    TextOfCounted(z);
    TextOrder(Counted(y + 60), Counted(z + 60));
    if y < z { CountedRises(y + 60, z + 60); } else if z < y { CountedRises(z + 60, y + 60); }
  }
}
