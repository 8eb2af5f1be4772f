/** The names of the timeline shards: UTC days rendered as `%Y%m%d`, and how the order of the names
    relates to the order of the days. */
module Calendar {
  import opened OperationKeys
  import opened TextOrder

  // ---------------------------------------------------------------- the Gregorian calendar

  /** Days in 400 years, and from 1 January of year 0 to the epoch. */
  const DAYS_PER_ERA := 146_097
  const EPOCH := 719_528

  datatype Date = Date(year: int, month: nat, day: nat)

  predicate Leap(year: nat) {
    year % 4 == 0 && (year % 100 != 0 || year % 400 == 0)
  }

  function YearDays(year: nat): nat {
    if Leap(year) then 366 else 365
  }

  function MonthDays(leap: bool, month: nat): nat
    requires 1 <= month <= 12
  {
    if month == 2 then (if leap then 29 else 28)
    else if month in {4, 6, 9, 11} then 30
    else 31
  }

  /** The year that `days` days after 1 January of `year` fall in, and the day of that year. */
  function YearAt(year: nat, days: nat): (nat, nat)
    decreases days
  {
    if days < YearDays(year) then (year, days) else YearAt(year + 1, days - YearDays(year))
  }

  /** Likewise within one year; December takes what is left. */
  function MonthAt(leap: bool, month: nat, days: nat): (nat, nat)
    requires 1 <= month <= 12
    decreases 12 - month
  {
    if month == 12 || days < MonthDays(leap, month) then (month, days + 1)
    else MonthAt(leap, month + 1, days - MonthDays(leap, month))
  }

  /** The date of a day counted from the epoch. */
  function DateOf(day: int): Date {
    var n := day + EPOCH;
    var era, rest := n / DAYS_PER_ERA, n % DAYS_PER_ERA;
    var year := YearAt(0, rest);
    var month := MonthAt(Leap(year.0), 1, year.1);
    Date(400 * era + year.0, month.0, month.1)
  }

  predicate DateBefore(a: Date, b: Date) {
    a.year < b.year || (a.year == b.year && (a.month < b.month || (a.month == b.month && a.day < b.day)))
  }

  /** Days before 1 January of `year`, counted from year 0. */
  function DaysBeforeYear(year: nat): nat {
    365 * year + (year + 3) / 4 - (year + 99) / 100 + (year + 399) / 400
  }

  lemma NextYear(year: nat)
    ensures DaysBeforeYear(year + 1) == DaysBeforeYear(year) + YearDays(year)
  {
    Fours(year);
    Hundreds(year);
    FourHundreds(year);
  }

  lemma Fours(y: nat)
    ensures (y + 4) / 4 == (y + 3) / 4 + if y % 4 == 0 then 1 else 0
  {
  }

  lemma Hundreds(y: nat)
    ensures (y + 100) / 100 == (y + 99) / 100 + if y % 100 == 0 then 1 else 0
    ensures y % 100 == 0 ==> y % 4 == 0
  {
    var q, r := y / 100, y % 100;
    assert y == 100 * q + r && 0 <= r < 100;
    assert (y + 100) / 100 == q + 1;
    assert (y + 99) / 100 == if r == 0 then q else q + 1;
    assert r == 0 ==> y == 4 * (25 * q);
  }

  lemma FourHundreds(y: nat)
    ensures (y + 400) / 400 == (y + 399) / 400 + if y % 400 == 0 then 1 else 0
    ensures y % 400 == 0 ==> y % 100 == 0
  {
  }

  lemma {:induction false} YearAtFacts(year: nat, days: nat)
    ensures var y := YearAt(year, days);
            y.0 >= year && y.1 < YearDays(y.0) && DaysBeforeYear(y.0) + y.1 == DaysBeforeYear(year) + days
    decreases days
  {
    if days >= YearDays(year) {
      NextYear(year);
      YearAtFacts(year + 1, days - YearDays(year));
    }
  }

  lemma {:induction false} YearsGrow(a: nat, b: nat)
    requires a <= b
    ensures DaysBeforeYear(a) <= DaysBeforeYear(b)
    decreases b
  {
    if a < b {
      YearsGrow(a, b - 1);
      NextYear(b - 1);
    }
  }

  /** A day of an era falls in one of its 400 years. */
  lemma {:induction false} WithinEra(rest: nat)
    requires rest < DAYS_PER_ERA
    ensures YearAt(0, rest).0 < 400
  {
    YearAtFacts(0, rest);
    if YearAt(0, rest).0 >= 400 { YearsGrow(400, YearAt(0, rest).0); }
  }

  lemma {:induction false} YearsOrdered(a: nat, b: nat)
    requires a < b
    ensures var x, y := YearAt(0, a), YearAt(0, b); x.0 < y.0 || (x.0 == y.0 && x.1 < y.1)
  {
    hide YearAt, Leap, YearDays, DaysBeforeYear;
    YearAtFacts(0, a);
    YearAtFacts(0, b);
    var x, y := YearAt(0, a), YearAt(0, b);
    if y.0 < x.0 {
      YearsGrow(y.0 + 1, x.0);
      NextYear(y.0);
    }
  }

  lemma {:induction false} MonthsOrdered(leap: bool, month: nat, a: nat, b: nat)
    requires 1 <= month <= 12 && a < b
    ensures var x, y := MonthAt(leap, month, a), MonthAt(leap, month, b);
            x.0 >= month && y.0 >= month && (x.0 < y.0 || (x.0 == y.0 && x.1 < y.1))
    decreases 12 - month
  {
    hide MonthDays;
    MonthAtLeast(leap, month, a);
    MonthAtLeast(leap, month, b);
    if month < 12 && b >= MonthDays(leap, month) {
      MonthAtLeast(leap, month + 1, b - MonthDays(leap, month));
      if a >= MonthDays(leap, month) {
        MonthsOrdered(leap, month + 1, a - MonthDays(leap, month), b - MonthDays(leap, month));
      }
    }
  }

  lemma {:induction false} MonthAtLeast(leap: bool, month: nat, days: nat)
    requires 1 <= month <= 12
    ensures month <= MonthAt(leap, month, days).0 <= 12 && MonthAt(leap, month, days).1 >= 1
    decreases 12 - month
  {
    if month < 12 && days >= MonthDays(leap, month) {
      MonthAtLeast(leap, month + 1, days - MonthDays(leap, month));
    }
  }

  /** Days from the start of `month` to the end of the year. */
  function DaysLeft(leap: bool, month: nat): nat
    requires 1 <= month <= 12
    decreases 12 - month
  {
    MonthDays(leap, month) + if month == 12 then 0 else DaysLeft(leap, month + 1)
  }

  lemma {:induction false} MonthAtBound(leap: bool, month: nat, days: nat)
    requires 1 <= month <= 12 && days < DaysLeft(leap, month)
    ensures MonthAt(leap, month, days).1 <= 31
    decreases 12 - month
  {
    if month < 12 && days >= MonthDays(leap, month) {
      MonthAtBound(leap, month + 1, days - MonthDays(leap, month));
    }
  }

  lemma WholeYear(year: nat)
    ensures DaysLeft(Leap(year), 1) == YearDays(year)
  {
    var leap := Leap(year);
    assert DaysLeft(leap, 10) == 92 by { assert DaysLeft(leap, 12) == 31; assert DaysLeft(leap, 11) == 61; }
    assert DaysLeft(leap, 7) == 184 by { assert DaysLeft(leap, 9) == 122; assert DaysLeft(leap, 8) == 153; }
    assert DaysLeft(leap, 4) == 275 by { assert DaysLeft(leap, 6) == 214; assert DaysLeft(leap, 5) == 245; }
    assert DaysLeft(leap, 3) == 306;
    assert DaysLeft(leap, 2) == 306 + MonthDays(leap, 2);
  }

  lemma DateFacts(day: int)
    ensures 1 <= DateOf(day).month <= 12 && 1 <= DateOf(day).day <= 31
    ensures DateOf(day).year < 0 <==> day + EPOCH < 0
    ensures DateOf(day).year > 9999 <==> day + EPOCH >= 25 * DAYS_PER_ERA
  {
    hide YearAt, MonthAt, Leap, DaysLeft, YearDays, DaysBeforeYear;
    var n := day + EPOCH;
    var era, rest := n / DAYS_PER_ERA, n % DAYS_PER_ERA;
    assert n == era * DAYS_PER_ERA + rest && 0 <= rest < DAYS_PER_ERA;
    WithinEra(rest);
    YearAtFacts(0, rest);
    var year := YearAt(0, rest);
    WholeYear(year.0);
    MonthAtLeast(Leap(year.0), 1, year.1);
    MonthAtBound(Leap(year.0), 1, year.1);
  }

  /** Later days have later dates. */
  lemma DatesOrdered(a: int, b: int)
    requires a < b
    ensures DateBefore(DateOf(a), DateOf(b))
  {
    var m, n := a + EPOCH, b + EPOCH;
    var era1, rest1, era2, rest2 := m / DAYS_PER_ERA, m % DAYS_PER_ERA, n / DAYS_PER_ERA, n % DAYS_PER_ERA;
    assert m == era1 * DAYS_PER_ERA + rest1 && n == era2 * DAYS_PER_ERA + rest2;
    WithinEra(rest1);
    WithinEra(rest2);
    if era1 == era2 {
      YearsOrdered(rest1, rest2);
      var x, y := YearAt(0, rest1), YearAt(0, rest2);
      if x.0 == y.0 { MonthsOrdered(Leap(x.0), 1, x.1, y.1); }
    } else {
      assert era1 < era2;
    }
  }

  // ---------------------------------------------------------------- names

  function TwoDigits(n: nat): (text: string)
    requires n < 100
    ensures |text| == 2
  {
    [Digit(n / 10), Digit(n % 10)]
  }

  function FourDigits(n: nat): (text: string)
    requires n < 10000
    ensures |text| == 4
  {
    TwoDigits(n / 100) + TwoDigits(n % 100)
  }

  /** At least four digits. */
  function Padded(n: nat): string {
    if n <= 9999 then FourDigits(n) else Decimal(n)
  }

  /** `%Y`: four digits, with a sign and as many digits as it takes outside years 0 to 9999. */
  function YearText(year: int): string {
    if 0 <= year <= 9999 then FourDigits(year)
    else if year > 9999 then "+" + Padded(year)
    else "-" + Padded(-year)
  }

  /** `timeline_bucket` */
  function ShardName(day: int): string {
    DateFacts(day);
    var date := DateOf(day);
    YearText(date.year) + (TwoDigits(date.month) + TwoDigits(date.day))
  }

  /** The day lies in a year of four digits: from 1 January of year 0 to 31 December 9999. */
  predicate FourDigitYear(day: int) {
    -EPOCH <= day < 25 * DAYS_PER_ERA - EPOCH
  }

  lemma DigitsOrdered(a: nat, b: nat)
    requires a < 10 && b < 10
    ensures Digit(a) < Digit(b) <==> a < b
    ensures Digit(a) == Digit(b) <==> a == b
  {
  }

  lemma {:induction false} TwoDigitsDecide(a: nat, x: string, b: nat, y: string)
    requires a < 100 && b < 100
    ensures StringBefore(TwoDigits(a) + x, TwoDigits(b) + y) <==> a < b || (a == b && StringBefore(x, y))
  {
    DigitsOrdered(a / 10, b / 10);
    DigitsOrdered(a % 10, b % 10);
    assert TwoDigits(a) + x == [Digit(a / 10)] + ([Digit(a % 10)] + x);
    assert TwoDigits(b) + y == [Digit(b / 10)] + ([Digit(b % 10)] + y);
    HeadsDecide(Digit(a / 10), [Digit(a % 10)] + x, Digit(b / 10), [Digit(b % 10)] + y);
    HeadsDecide(Digit(a % 10), x, Digit(b % 10), y);
  }

  lemma {:induction false} FourDigitsDecide(a: nat, x: string, b: nat, y: string)
    requires a < 10000 && b < 10000
    ensures StringBefore(FourDigits(a) + x, FourDigits(b) + y) <==> a < b || (a == b && StringBefore(x, y))
  {
    assert FourDigits(a) + x == TwoDigits(a / 100) + (TwoDigits(a % 100) + x);
    assert FourDigits(b) + y == TwoDigits(b / 100) + (TwoDigits(b % 100) + y);
    TwoDigitsDecide(a / 100, TwoDigits(a % 100) + x, b / 100, TwoDigits(b % 100) + y);
    TwoDigitsDecide(a % 100, x, b % 100, y);
  }

  lemma NamesFollowDates(a: int, b: int)
    requires FourDigitYear(a) && FourDigitYear(b)
    ensures StringBefore(ShardName(a), ShardName(b)) <==> DateBefore(DateOf(a), DateOf(b))
  {
    hide DateOf, TwoDigits, FourDigits, StringBefore;
    DateFacts(a);
    DateFacts(b);
    var s, t := DateOf(a), DateOf(b);
    assert TwoDigits(s.day) + "" == TwoDigits(s.day) && TwoDigits(t.day) + "" == TwoDigits(t.day);
    TwoDigitsDecide(s.day, "", t.day, "");
    StringsOrdered("", "");
    TwoDigitsDecide(s.month, TwoDigits(s.day), t.month, TwoDigits(t.day));
    FourDigitsDecide(s.year, TwoDigits(s.month) + TwoDigits(s.day), t.year, TwoDigits(t.month) + TwoDigits(t.day));
  }

  /** Within four-digit years the names are ordered as the days are. */
  lemma NamesOrdered(a: int, b: int)
    requires FourDigitYear(a) && FourDigitYear(b)
    ensures StringBefore(ShardName(a), ShardName(b)) <==> a < b
  {
    hide DateOf, ShardName;
    NamesFollowDates(a, b);
    if a < b { DatesOrdered(a, b); }
    if b < a { DatesOrdered(b, a); }
  }

  /** Beyond them they are not: year 10000 and later sort before every four-digit year. */
  lemma LateYearsSortFirst(a: int, b: int)
    requires FourDigitYear(a) && b >= 25 * DAYS_PER_ERA - EPOCH
    ensures a < b && StringBefore(ShardName(b), ShardName(a))
  {
    hide DateOf, Decimal;
    DateFacts(a);
    DateFacts(b);
  }

  /** Different days have different names, so a name stands for one shard file. */
  lemma NamesDistinct(a: int, b: int)
    requires ShardName(a) == ShardName(b)
    ensures a == b
  {
    hide DateOf, YearText, TwoDigits;
    DateFacts(a);
    DateFacts(b);
    var s, t := DateOf(a), DateOf(b);
    SameEnds(YearText(s.year), TwoDigits(s.month) + TwoDigits(s.day), YearText(t.year), TwoDigits(t.month) + TwoDigits(t.day));
    SameEnds(TwoDigits(s.month), TwoDigits(s.day), TwoDigits(t.month), TwoDigits(t.day));
    YearsDistinct(s.year, t.year);
    TwoDigitsDistinct(s.month, t.month);
    TwoDigitsDistinct(s.day, t.day);
    if a < b { DatesOrdered(a, b); }
    if b < a { DatesOrdered(b, a); }
  }

  lemma SameEnds(a: string, x: string, b: string, y: string)
    requires a + x == b + y && |x| == |y|
    ensures a == b && x == y
  {
    assert (a + x)[..|a|] == a && (b + y)[..|b|] == b;
    assert (a + x)[|a|..] == x && (b + y)[|b|..] == y;
  }

  lemma TwoDigitsDistinct(a: nat, b: nat)
    requires a < 100 && b < 100
    ensures TwoDigits(a) == TwoDigits(b) <==> a == b
    ensures |TwoDigits(a)| == 2
  {
    DigitsOrdered(a / 10, b / 10);
    DigitsOrdered(a % 10, b % 10);
    if TwoDigits(a) == TwoDigits(b) {
      assert TwoDigits(a)[0] == TwoDigits(b)[0] && TwoDigits(a)[1] == TwoDigits(b)[1];
    }
  }

  lemma FourDigitsDistinct(a: nat, b: nat)
    requires a < 10000 && b < 10000
    ensures FourDigits(a) == FourDigits(b) <==> a == b
    ensures |FourDigits(a)| == 4 && FourDigits(a)[0] != '+' && FourDigits(a)[0] != '-'
  {
    hide TwoDigits;
    TwoDigitsDistinct(a / 100, b / 100);
    TwoDigitsDistinct(a % 100, b % 100);
    NoSign(a / 100);
    if FourDigits(a) == FourDigits(b) {
      SameEnds(TwoDigits(a / 100), TwoDigits(a % 100), TwoDigits(b / 100), TwoDigits(b % 100));
    }
  }

  lemma NoSign(n: nat)
    requires n < 100
    ensures TwoDigits(n)[0] != '+' && TwoDigits(n)[0] != '-'
  {
  }

  lemma {:induction false} LongDecimal(n: nat)
    requires n >= 10000
    ensures |Decimal(n)| > 4
  {
    assert |Decimal(n / 10000)| >= 1;
    DecimalGrows(n);
    DecimalGrows(n / 10);
    DecimalGrows(n / 100);
    DecimalGrows(n / 1000);
  }

  lemma {:induction false} DecimalGrows(n: nat)
    requires n >= 10
    ensures |Decimal(n)| == |Decimal(n / 10)| + 1
  {
  }

  lemma PaddedDistinct(a: nat, b: nat)
    requires Padded(a) == Padded(b)
    ensures a == b
  {
    hide Decimal, FourDigits;
    if a <= 9999 { FourDigitsDistinct(a, if b <= 9999 then b else 0); } else { LongDecimal(a); }
    if b <= 9999 { FourDigitsDistinct(b, if a <= 9999 then a else 0); } else { LongDecimal(b); }
    if a > 9999 && b > 9999 { DecimalInjective(a, b); }
  }

  lemma YearsDistinct(a: int, b: int)
    requires YearText(a) == YearText(b)
    ensures a == b
  {
    hide Padded;
    SignDecides(a);
    SignDecides(b);
    if 0 <= a <= 9999 {
      FourDigitsDistinct(a, b);
    } else {
      assert YearText(a)[1..] == YearText(b)[1..];
      PaddedDistinct(if a < 0 then -a else a, if b < 0 then -b else b);
    }
  }

  lemma SignDecides(year: int)
    ensures |YearText(year)| > 1
    ensures YearText(year)[0] == '+' <==> year > 9999
    ensures YearText(year)[0] == '-' <==> year < 0
    ensures year > 9999 ==> YearText(year)[1..] == Padded(year)
    ensures year < 0 ==> YearText(year)[1..] == Padded(-year)
    ensures 0 <= year <= 9999 ==> YearText(year) == Padded(year) == FourDigits(year)
  {
    hide Decimal, FourDigits;
    if -9999 <= year <= 9999 { FourDigitsDistinct(if year < 0 then -year else year, 0); }
    if year > 9999 { LongDecimal(year); }
    if year < -9999 { LongDecimal(-year); }
  }
}
