/**
 * The calendar mapper of the insights page: a day's "YYYY-Wn" week key
 * (`getWeek`) and the Monday-to-Sunday label of a key (`getWeekLabelFromKey`).
 */
module Weeks {
  import opened Wrappers
  import opened Calendar
  import Decimal

  /** The year and week number that a key spells out. */
  datatype YearWeek = YearWeek(year: int, week: int)

  /** `${year}-W${weekNo}` */
  function Key(yw: YearWeek): string
  {
    Decimal.IntToString(yw.year) + "-W" + Decimal.IntToString(yw.week)
  }

  /** `Math.ceil(a / 7)` for an integer a. */
  function CeilDiv7(a: int): (r: int)
    ensures 7 * (r - 1) < a <= 7 * r
  {
    (a + 6) / 7
  }

  /** The year `new Date(year, month, day)` uses: a year 0..99 is read as 1900..1999. */
  function ConstructorYear(y: int): int
  {
    if 0 <= y <= 99 then 1900 + y else y
  }

  /** `d.setDate(d.getDate() + 4 - (d.getDay() || 7))`: the Thursday of d's Monday-to-Sunday week. */
  function ThursdayOf(n: Day): (t: Day)
    ensures t == MondayOf(n) + 3 && IsoWeekday(t) == 4
  {
    n + 4 - IsoWeekday(n)
  }

  /**
   * Week 1 of year y in ISO 8601 (section 3.2.2, the week calendar) is the week
   * holding the year's first Thursday, i.e. the week holding January 4.
   */
  function Week1Monday(y: int): (m: Day)
    ensures Jan1(y) - 3 <= m <= Jan1(y) + 3
  {
    MondayOf(Jan1(y) + 3)
  }

  /**
   * getWeek as written: the Thursday's year, and the week count from January 1
   * built with `new Date(year, 0, 1)`, which moves years 0..99 to 1900..1999.
   */
  function YearWeekAsWritten(n: Day): (yw: YearWeek)
    ensures Jan1(yw.year) <= ThursdayOf(n) < Jan1(yw.year + 1)
    ensures 7 * (yw.week - 1) < ThursdayOf(n) - Jan1(ConstructorYear(yw.year)) + 1 <= 7 * yw.week
  {
    var t := ThursdayOf(n);
    var year := YearOf(t);
    YearWeek(year, CeilDiv7(t - Jan1(ConstructorYear(year)) + 1))
  }

  /** getWeek with the week counted from the Thursday's own January 1. */
  function IsoYearWeek(n: Day): (yw: YearWeek)
    ensures 1 <= yw.week <= 53
  {
    YearWeekOfThursday(ThursdayOf(n))
  }

  function YearWeekOfThursday(t: Day): (yw: YearWeek)
    ensures 1 <= yw.week <= 53
  {
    var year := YearOf(t);
    Jan1Step(year);
    YearWeek(year, CeilDiv7(t - Jan1(year) + 1))
  }

  /** The key of the week a day falls in (`getWeek` on a valid `Date`). */
  function WeekKeyOfDay(n: Day): string
  {
    Key(IsoYearWeek(n))
  }

  /** `getWeek(dateString)` */
  function GetWeek(s: string): (r: Option<string>)
    ensures r.None? <==> ParseDate(s).None?
  {
    match ParseDate(s)
    case None => None
    case Some(n) => Some(WeekKeyOfDay(n))
  }

  /**
   * getWeek gives null only for a string that is not a date; otherwise its key
   * reads back as the ISO year and a week number 1..53 of that date.
   */
  lemma GetWeekResult(s: string)
    ensures GetWeek(s).None? <==> ParseDate(s).None?
    ensures GetWeek(s).Some? ==>
      var yw := IsoYearWeek(ParseDate(s).value);
      ParseKey(GetWeek(s).value) == Some(yw) && 1 <= yw.week <= 53
  {
    if ParseDate(s).Some? {
      ParseKeyOfKey(IsoYearWeek(ParseDate(s).value));
    }
  }

  /** The two computations agree on every day whose week year is not 0..99. */
  lemma AsWrittenAgrees(n: Day)
    requires !(0 <= YearOf(ThursdayOf(n)) <= 99)
    ensures YearWeekAsWritten(n) == IsoYearWeek(n)
  {
  }

  /** For a week year 0..99 the written computation yields a week number below 1. */
  lemma AsWrittenWrongInYears0To99(n: Day)
    requires 0 <= YearOf(ThursdayOf(n)) <= 99
    ensures YearWeekAsWritten(n).week <= 0
  {
    var t := ThursdayOf(n);
    var y := YearOf(t);
    Jan1Grows(y + 1, 1900 + y);
  }

  /** ISO 8601 weeks: the key's week is the one counted from the Monday of week 1. */
  lemma IsoWeekReference(n: Day)
    ensures var yw := IsoYearWeek(n);
      && MondayOf(n) == Week1Monday(yw.year) + 7 * (yw.week - 1)
      && MondayOf(n) < Week1Monday(yw.year + 1)
  {
    var t := ThursdayOf(n);
    var y := YearOf(t);
    var t1 := Week1Monday(y) + 3;
    var j := Jan1(y);
    assert j <= t1 <= j + 6;
    assert t1 == ThursdayOf(j + 3);
    SameWeekday(t, t1);
    var k := (t - t1) / 7;
    assert t - t1 == 7 * k;
    assert k >= 0;
    assert IsoYearWeek(n) == YearWeekOfThursday(t);
    assert CeilDiv7(t - j + 1) == k + 1;
    Jan1Step(y);
    assert Jan1(y + 1) <= Week1Monday(y + 1) + 3;
  }

  /** Days with the same weekday are a whole number of weeks apart. */
  lemma SameWeekday(a: Day, b: Day)
    requires IsoWeekday(a) == IsoWeekday(b)
    ensures (a - b) % 7 == 0
  {
  }

  /** Week 1 of a later year starts later. */
  lemma Week1MondayIncreases(a: int, b: int)
    requires a < b
    ensures Week1Monday(a) < Week1Monday(b)
  {
    Jan1Grows(a, b);
  }

  /** Day n's Monday is the Monday of week `yw.week` of ISO year `yw.year`. */
  predicate InIsoWeek(n: Day, yw: YearWeek)
  {
    && 1 <= yw.week
    && MondayOf(n) == Week1Monday(yw.year) + 7 * (yw.week - 1)
    && MondayOf(n) < Week1Monday(yw.year + 1)
  }

  /** The key of a day names its ISO 8601 week and no other. */
  lemma IsoYearWeekCharacterized(n: Day, yw: YearWeek)
    ensures IsoYearWeek(n) == yw <==> InIsoWeek(n, yw)
  {
    IsoWeekReference(n);
    if InIsoWeek(n, yw) {
      IsoWeekUnique(n, IsoYearWeek(n), yw);
    }
  }

  lemma IsoWeekUnique(n: Day, p: YearWeek, q: YearWeek)
    requires InIsoWeek(n, p) && InIsoWeek(n, q)
    ensures p == q
  {
    if p.year < q.year {
      if p.year + 1 < q.year { Week1MondayIncreases(p.year + 1, q.year); }
    } else if q.year < p.year {
      if q.year + 1 < p.year { Week1MondayIncreases(q.year + 1, p.year); }
    }
  }

  // Reading a key back: `weekKey.split("-W").map(Number)`

  /** Index of the first "-W" at or after `pos`, or |s| when there is none. */
  function FindSeparator(s: string, pos: nat): (i: nat)
    requires pos <= |s|
    ensures pos <= i <= |s|
    ensures i < |s| ==> i + 1 < |s| && s[i] == '-' && s[i + 1] == 'W'
    ensures forall j :: pos <= j < i && j + 1 < |s| ==> !(s[j] == '-' && s[j + 1] == 'W')
    decreases |s| - pos
  {
    if pos + 2 > |s| then |s|
    else if s[pos] == '-' && s[pos + 1] == 'W' then pos
    else FindSeparator(s, pos + 1)
  }

  /**
   * `let [year, weekNumber] = weekKey.split("-W").map(Number)`: the texts before
   * the first "-W" and between it and the next one, read as numbers; None when
   * either is NaN (also when there is no "-W", as weekNumber is then undefined).
   */
  function ParseKey(s: string): Option<YearWeek>
  {
    var i := FindSeparator(s, 0);
    if i == |s| then None
    else
      var rest := s[i + 2..];
      var j := FindSeparator(rest, 0);
      match (Decimal.ParseNumber(s[..i]), Decimal.ParseNumber(rest[..j]))
      case (Some(y), Some(w)) => Some(YearWeek(y, w))
      case _ => None
  }

  /** A key reads back as the year and week it was built from. */
  lemma ParseKeyOfKey(yw: YearWeek)
    ensures ParseKey(Key(yw)) == Some(yw)
  {
    var ys, ws := Decimal.IntToString(yw.year), Decimal.IntToString(yw.week);
    var s := Key(yw);
    Decimal.IntToStringHasNoW(yw.year);
    Decimal.IntToStringHasNoW(yw.week);
    assert s[|ys|] == '-' && s[|ys| + 1] == 'W';
    forall j | 0 <= j < |ys| && j + 1 < |s| ensures !(s[j] == '-' && s[j + 1] == 'W') {
      if j + 1 < |ys| { assert s[j + 1] == ys[j + 1]; } else { assert s[j + 1] == '-'; }
    }
    var i := FindSeparator(s, 0);
    assert i == |ys|;
    assert s[..i] == ys;
    var rest := s[i + 2..];
    assert rest == ws;
    assert FindSeparator(rest, 0) == |rest|;
    assert rest[..|rest|] == ws;
    Decimal.ParseIntToString(yw.year);
    Decimal.ParseIntToString(yw.week);
  }

  /** Different weeks have different keys. */
  lemma KeyInjective(a: YearWeek, b: YearWeek)
    requires Key(a) == Key(b)
    ensures a == b
  {
    ParseKeyOfKey(a);
    ParseKeyOfKey(b);
  }

  /** Two days share a key exactly when they share a Monday-to-Sunday week. */
  lemma SameKeyIffSameWeek(a: Day, b: Day)
    ensures WeekKeyOfDay(a) == WeekKeyOfDay(b) <==> MondayOf(a) == MondayOf(b)
  {
    if MondayOf(a) == MondayOf(b) {
      assert ThursdayOf(a) == ThursdayOf(b);
    }
    if WeekKeyOfDay(a) == WeekKeyOfDay(b) {
      KeyInjective(IsoYearWeek(a), IsoYearWeek(b));
      IsoWeekReference(a);
      IsoWeekReference(b);
    }
  }

  /** All seven days from a Monday through the following Sunday have the Monday's key. */
  lemma WeekDaysShareKey(m: Day, i: int)
    requires IsoWeekday(m) == 1 && 0 <= i < 7
    ensures WeekKeyOfDay(m + i) == WeekKeyOfDay(m)
  {
    MondayOfUnique(m + i, m);
    MondayOfUnique(m, m);
    assert ThursdayOf(m + i) == ThursdayOf(m);
  }

  /** Weeks in time order: the key pairs compare as (year, week) in the order of their Mondays. */
  predicate YearWeekBefore(a: YearWeek, b: YearWeek)
  {
    a.year < b.year || (a.year == b.year && a.week < b.week)
  }

  lemma ChronologicalOrder(a: Day, b: Day)
    ensures MondayOf(a) < MondayOf(b) <==> YearWeekBefore(IsoYearWeek(a), IsoYearWeek(b))
  {
    IsoWeekReference(a);
    IsoWeekReference(b);
    WeekOrder(MondayOf(a), IsoYearWeek(a), MondayOf(b), IsoYearWeek(b));
  }

  /** Mondays placed in their ISO weeks compare as their (year, week) pairs. */
  lemma WeekOrder(ma: Day, wa: YearWeek, mb: Day, wb: YearWeek)
    requires 1 <= wa.week && ma == Week1Monday(wa.year) + 7 * (wa.week - 1) && ma < Week1Monday(wa.year + 1)
    requires 1 <= wb.week && mb == Week1Monday(wb.year) + 7 * (wb.week - 1) && mb < Week1Monday(wb.year + 1)
    ensures ma < mb <==> YearWeekBefore(wa, wb)
  {
    if wa.year < wb.year {
      if wa.year + 1 < wb.year { Week1MondayIncreases(wa.year + 1, wb.year); }
    } else if wb.year < wa.year {
      if wb.year + 1 < wa.year { Week1MondayIncreases(wb.year + 1, wa.year); }
    }
  }

  // The label of a key

  datatype MonthDay = MonthDay(month: int, day: int)

  /** What a label shows: the month and day of the week's Monday and of its Sunday. */
  datatype WeekLabel = WeekLabel(monday: MonthDay, sunday: MonthDay)

  function MonthDayOf(n: Day): (md: MonthDay)
    ensures 1 <= md.month <= 12 && 1 <= md.day <= 31
  {
    var c := DateOf(n);
    MonthDay(c.month, c.day)
  }

  /**
   * getWeekLabelFromKey as written, on day numbers: `new Date(year, 0, 1 + (weekNumber - 1) * 7)`,
   * moved back to the Monday on or before it, and the Sunday six days later.
   */
  function LabelDaysAsWritten(yw: YearWeek): (r: (Day, Day))
    ensures var simple := Jan1(ConstructorYear(yw.year)) + 7 * (yw.week - 1);
      IsoWeekday(r.0) == 1 && r.0 <= simple < r.0 + 7 && r.1 == r.0 + 6
  {
    var simple := Jan1(ConstructorYear(yw.year)) + 7 * (yw.week - 1);
    var day := Weekday(simple);
    var monday := if day != 1 then simple - (if day == 0 then 6 else day - 1) else simple;
    (monday, monday + 6)
  }

  /** The label of a key: None stands for the "Invalid Date" text of an unreadable key. */
  function WeekLabelFromKeyAsWritten(key: string): (r: Option<WeekLabel>)
    ensures r.None? <==> ParseKey(key).None?
    ensures r.Some? ==>
      var yw := ParseKey(key).value;
      var simple := Jan1(ConstructorYear(yw.year)) + 7 * (yw.week - 1);
      exists m :: IsoWeekday(m) == 1 && m <= simple < m + 7 && r.value == WeekLabel(MonthDayOf(m), MonthDayOf(m + 6))
  {
    match ParseKey(key)
    case None => None
    case Some(yw) =>
      var (monday, sunday) := LabelDaysAsWritten(yw);
      Some(WeekLabel(MonthDayOf(monday), MonthDayOf(sunday)))
  }

  /** The Monday and Sunday of week `week` of ISO year `year`. */
  function LabelDays(yw: YearWeek): (r: (Day, Day))
    ensures IsoWeekday(r.0) == 1 && r.1 == r.0 + 6
  {
    var monday := Week1Monday(yw.year) + 7 * (yw.week - 1);
    WeekdayPeriodic(Week1Monday(yw.year), yw.week - 1);
    (monday, monday + 6)
  }

  /** The label the key's week evidently calls for: the span of that ISO week. */
  function WeekLabelFromKey(key: string): (r: Option<WeekLabel>)
    ensures r.None? <==> ParseKey(key).None?
    ensures r.Some? ==>
      var yw := ParseKey(key).value;
      exists m :: IsoWeekday(m) == 1 && m - Week1Monday(yw.year) == 7 * (yw.week - 1)
        && r.value == WeekLabel(MonthDayOf(m), MonthDayOf(m + 6))
  {
    match ParseKey(key)
    case None => None
    case Some(yw) =>
      var (monday, sunday) := LabelDays(yw);
      Some(WeekLabel(MonthDayOf(monday), MonthDayOf(sunday)))
  }

  /** Round trip: the label of a day's key is the Monday-to-Sunday span holding that day. */
  lemma LabelOfDayKey(n: Day)
    ensures LabelDays(IsoYearWeek(n)) == (MondayOf(n), MondayOf(n) + 6)
    ensures LabelDays(IsoYearWeek(n)).0 <= n <= LabelDays(IsoYearWeek(n)).1
    ensures WeekLabelFromKey(WeekKeyOfDay(n))
         == Some(WeekLabel(MonthDayOf(MondayOf(n)), MonthDayOf(MondayOf(n) + 6)))
  {
    IsoWeekReference(n);
    ParseKeyOfKey(IsoYearWeek(n));
  }

  /** The Monday of a day seven days later is seven days later. */
  lemma MondayOfShift(n: Day, k: int)
    ensures MondayOf(n + 7 * k) == MondayOf(n) + 7 * k
  {
    MondayOfUnique(n + 7 * k, MondayOf(n) + 7 * k);
  }

  /**
   * The written label agrees with the key's week exactly when January 1 of the
   * year is a Monday, Tuesday, Wednesday or Thursday (years outside 0..99).
   */
  lemma LabelAsWrittenAgrees(yw: YearWeek)
    requires !(0 <= yw.year <= 99)
    ensures LabelDaysAsWritten(yw) == LabelDays(yw) <==> IsoWeekday(Jan1(yw.year)) <= 4
  {
    var j := Jan1(yw.year);
    var simple := j + 7 * (yw.week - 1);
    MondayOfUnique(simple, LabelDaysAsWritten(yw).0);
    MondayOfShift(j, yw.week - 1);
    if IsoWeekday(j) <= 4 {
      MondayOfUnique(j + 3, MondayOf(j));
    } else {
      WeekdayPeriodic(MondayOf(j), 1);
      MondayOfUnique(j + 3, MondayOf(j) + 7);
    }
  }

  /** For a key year 0..99 the written label lies entirely after the key's week. */
  lemma LabelAsWrittenWrongInYears0To99(yw: YearWeek)
    requires 0 <= yw.year <= 99
    ensures LabelDays(yw).1 < LabelDaysAsWritten(yw).0
  {
    Jan1Grows(yw.year, 1900 + yw.year);
  }

  /** 4 January 2021 is in week 2021-W1, but the written label of 2021-W1 is 28 December to 3 January. */
  lemma LabelAsWrittenMissesJanuary4th2021()
    ensures DayNumber(Date(2021, 1, 4)) == 18631
    ensures IsoYearWeek(18631) == YearWeek(2021, 1)
    ensures LabelDaysAsWritten(YearWeek(2021, 1)) == (18624, 18630)
    ensures DateOf(18624) == Date(2020, 12, 28)
  {
    January4th2021IsInWeek1();
    December28th2020(18624, 2020);
  }

  /*
   * The lemmas below take their dates and years as parameters pinned by `requires`
   * instead of literals: with a literal argument Dafny would evaluate the recursive
   * Jan1 and YearOf one year at a time from 1970, which is far slower to check.
   */

  lemma January4th2021IsInWeek1()
    ensures IsoYearWeek(18631) == YearWeek(2021, 1)
    ensures DayNumber(Date(2021, 1, 4)) == 18631
    ensures LabelDaysAsWritten(YearWeek(2021, 1)) == (18624, 18630)
  {
    January4th2021Week(18631, 2021);
    January4th2021Day(2021);
    Week1Of2021AsWritten(2021);
  }

  /** The New Year's days around 2021. */
  lemma Jan1Around2021(y: int)
    ensures y == 2020 ==> Jan1(y) == 18262
    ensures y == 2021 ==> Jan1(y) == 18628
    ensures y == 2022 ==> Jan1(y) == 18993
  {
    Jan1ClosedForm(y);
  }

  lemma January4th2021Week(n: Day, y: int)
    requires n == 18631 && y == 2021
    ensures IsoYearWeek(n) == YearWeek(y, 1)
  {
    assert ThursdayOf(n) == n + 3;
    YearOfJanuary7th2021(n + 3, y);
    Jan1Around2021(y);
  }

  lemma YearOfJanuary7th2021(t: Day, y: int)
    requires t == 18634 && y == 2021
    ensures YearOf(t) == y
  {
    Jan1Around2021(y);
    Jan1Around2021(y + 1);
    YearOfUnique(t, y);
  }

  lemma January4th2021Day(y: int)
    requires y == 2021
    ensures DayNumber(Date(y, 1, 4)) == 18631
  {
    Jan1Around2021(y);
  }

  lemma Week1Of2021AsWritten(y: int)
    requires y == 2021
    ensures LabelDaysAsWritten(YearWeek(y, 1)) == (18624, 18630)
  {
    Jan1Around2021(y);
  }

  lemma December28th2020(n: Day, y: int)
    requires n == 18624 && y == 2020
    ensures DateOf(n) == Date(y, 12, 28)
  {
    Jan1Around2021(y);
    assert DayNumber(Date(y, 12, 28)) == n;
    DateOfDayNumber(Date(y, 12, 28));
  }
}
