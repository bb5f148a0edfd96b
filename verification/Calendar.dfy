/** The date part of `rfc3339`: Howard Hinnant's days-to-civil arithmetic
    against the Gregorian calendar written down independently, and the month
    names (`YYYY-MM`) that the history files are called by. */
module Calendar {

  // ------------------------------------------------ the calendar itself

  datatype Date = Date(year: int, month: int, day: int)

  predicate IsLeap(year: int) {
    year % 4 == 0 && (year % 100 != 0 || year % 400 == 0)
  }

  /** RFC 3339 Appendix C's companion table: the days of a month. */
  function DaysInMonth(year: int, month: int): int {
    if month == 2 then if IsLeap(year) then 29 else 28
    else if month == 4 || month == 6 || month == 9 || month == 11 then 30
    else 31
  }

  predicate Valid(d: Date) {
    1 <= d.month <= 12 && 1 <= d.day <= DaysInMonth(d.year, d.month)
  }

  function NextDay(d: Date): Date {
    if d.day < DaysInMonth(d.year, d.month) then Date(d.year, d.month, d.day + 1)
    else if d.month < 12 then Date(d.year, d.month + 1, 1)
    else Date(d.year + 1, 1, 1)
  }

  predicate Before(a: Date, b: Date) {
    a.year < b.year
    || (a.year == b.year && a.month < b.month)
    || (a.year == b.year && a.month == b.month && a.day < b.day)
  }

  // ------------------------------------------------ Hinnant's arithmetic

  /** Year of the 400-year era, from the day of the era. */
  function YearOfEra(doe: int): int {
    (doe - doe / 1460 + doe / 36524 - doe / 146096) / 365
  }

  /** The first day of year `yoe` of an era whose years start on 1 March. */
  function YearStart(yoe: int): int {
    365 * yoe + yoe / 4 - yoe / 100
  }

  function MonthIndex(doy: int): int {
    (5 * doy + 2) / 153
  }

  /** The first day of the month `mp` months after March. */
  function MonthStart(mp: int): int {
    (153 * mp + 2) / 5
  }

  /** The date `days` days after 1970-01-01. */
  function CivilFromDays(days: nat): Date {
    var z := days + 719468;
    var era := z / 146097;
    var doe := z - era * 146097;
    var yoe := YearOfEra(doe);
    var y := yoe + era * 400;
    var doy := doe - YearStart(yoe);
    var mp := MonthIndex(doy);
    var d := doy - MonthStart(mp) + 1;
    var m := if mp < 10 then mp + 3 else mp - 9;
    Date(if m <= 2 then y + 1 else y, m, d)
  }

  /** Where a day sits in its era: century, four-year cycle, day of the cycle. */
  lemma {:induction false} EraSplit(doe: int) returns (c: int, q: int, r: int)
    requires 0 <= doe < 146097
    ensures 0 <= c < 4 && 0 <= q < 25 && 0 <= r < 1461
    ensures doe == 36524 * c + 1461 * q + r
    ensures c < 3 ==> 1461 * q + r < 36524
  {
    c := if doe / 36524 < 4 then doe / 36524 else 3;
    var rest := doe - 36524 * c;
    q, r := rest / 1461, rest % 1461;
  }

  lemma {:induction false} YearOfEraSplit(doe: int, c: int, q: int, r: int)
    requires 0 <= c < 4 && 0 <= q < 25 && 0 <= r < 1461
    requires doe == 36524 * c + 1461 * q + r < 146097
    requires c < 3 ==> 1461 * q + r < 36524
    ensures YearOfEra(doe) == 100 * c + 4 * q + (if r == 1460 then 3 else r / 365)
  {
    var e := if 24 * c + q + r >= 1460 then 1 else 0;
    assert doe == 1460 * (25 * c + q) + (24 * c + q + r);
    assert doe / 1460 == 25 * c + q + e;
    var last := if doe == 146096 then 1 else 0;
    assert doe / 36524 == c + last;
    assert doe / 146096 == last;
    assert doe - doe / 1460 + doe / 36524 - doe / 146096 == 365 * (100 * c + 4 * q) + (r - e);
  }

  /** The year the arithmetic picks is the one the day lies in. */
  lemma {:induction false} YearOfEraBrackets(doe: int)
    requires 0 <= doe < 146097
    ensures 0 <= YearOfEra(doe) < 400
    ensures YearStart(YearOfEra(doe)) <= doe
    ensures doe < YearStart(YearOfEra(doe) + 1) + (if YearOfEra(doe) == 399 then 1 else 0)
  {
    var c, q, r := EraSplit(doe);
    YearOfEraSplit(doe, c, q, r);
    var s := if r == 1460 then 3 else r / 365;
    YearStartSplit(c, q, s);
  }

  lemma {:induction false} YearStartSplit(c: int, q: int, s: int)
    requires 0 <= c < 4 && 0 <= q < 25 && 0 <= s < 4
    ensures YearStart(100 * c + 4 * q + s) == 36524 * c + 1461 * q + 365 * s
    ensures YearStart(100 * c + 4 * q + s + 1) == 36524 * c + 1461 * q + 365 * (s + 1) + (if s == 3 && q < 24 then 1 else 0)
  {
    var y := 100 * c + 4 * q + s;
    assert y / 4 == 25 * c + q && y / 100 == c;
    assert (y + 1) / 4 == 25 * c + q + (if s == 3 then 1 else 0);
    assert (y + 1) / 100 == c + (if s == 3 && q == 24 then 1 else 0);
  }

  /** A year and the next: at least 365 days apart. */
  lemma {:induction false} YearStartGrows(y: int, y': int)
    requires 0 <= y < y'
    ensures YearStart(y) + 365 <= YearStart(y')
    decreases y' - y
  {
    if y + 1 < y' { YearStartGrows(y + 1, y'); }
    assert YearStart(y + 1) >= YearStart(y) + 365 by {
      assert (y + 1) / 100 > y / 100 ==> (y + 1) / 4 > y / 4;
    }
  }

  /** The brackets determine the year. */
  lemma {:induction false} YearOfEraUnique(doe: int, y: int)
    requires 0 <= doe < 146097 && 0 <= y < 400
    requires YearStart(y) <= doe < YearStart(y + 1) + (if y == 399 then 1 else 0)
    ensures YearOfEra(doe) == y
  {
    YearOfEraBrackets(doe);
    var k := YearOfEra(doe);
    if k < y { YearStartGrows(k, y); if k + 1 < y { YearStartGrows(k + 1, y); } }
    if y < k { YearStartGrows(y, k); if y + 1 < k { YearStartGrows(y + 1, k); } }
  }

  /** The month table: month `mp` after March holds days
      `MonthStart(mp) .. MonthStart(mp + 1)` of the year. */
  lemma {:induction false} MonthBrackets(doy: int)
    requires 0 <= doy < 366
    ensures 0 <= MonthIndex(doy) < 12
    ensures MonthStart(MonthIndex(doy)) <= doy < MonthStart(MonthIndex(doy) + 1)
  {
  }

  /** The civil month and year of the month `mp` months after March of `y`. */
  function CivilMonth(mp: int): int { if mp < 10 then mp + 3 else mp - 9 }
  function CivilYear(y: int, mp: int): int { if mp < 10 then y else y + 1 }

  lemma {:induction false} MonthLengths(y: int, mp: int)
    requires 0 <= mp < 11
    ensures DaysInMonth(CivilYear(y, mp), CivilMonth(mp)) == MonthStart(mp + 1) - MonthStart(mp)
  {
  }

  lemma {:induction false} Period4(n: int, k: int)
    ensures (n + 4 * k) % 4 == n % 4
  {
    assert n + 4 * k == 4 * (n / 4 + k) + n % 4;
  }

  lemma {:induction false} Period100(n: int, k: int)
    ensures (n + 100 * k) % 100 == n % 100
  {
    assert n + 100 * k == 100 * (n / 100 + k) + n % 100;
  }

  lemma {:induction false} Period400(n: int, k: int)
    ensures (n + 400 * k) % 400 == n % 400
  {
    assert n + 400 * k == 400 * (n / 400 + k) + n % 400;
  }

  lemma {:induction false} LeapPeriod(n: int, era: int)
    ensures IsLeap(n + 400 * era) == IsLeap(n)
  {
    Period4(n, 100 * era);
    Period100(n, 4 * era);
    Period400(n, era);
  }

  /** The year that starts in March `y` (of any era) ends with February of
      `y + 1`, so its length is what the leap rule gives that February. */
  lemma {:induction false} YearLength(y: int, era: int)
    requires 0 <= y < 400
    ensures YearStart(y + 1) + (if y == 399 then 1 else 0) - YearStart(y) - MonthStart(11)
         == DaysInMonth(y + 400 * era + 1, 2)
  {
    LeapPeriod(y + 1, era);
    YearLengthFirstEra(y);
  }

  lemma {:induction false} YearLengthFirstEra(y: int)
    requires 0 <= y < 400
    ensures YearStart(y + 1) + (if y == 399 then 1 else 0) - YearStart(y) == 365 + (if IsLeap(y + 1) then 1 else 0)
  {
    var n := y + 1;
    assert n / 4 - y / 4 == if n % 4 == 0 then 1 else 0;
    assert n / 100 - y / 100 == if n % 100 == 0 then 1 else 0;
  }

  /** What the arithmetic yields for day `doy` of the March-based year
      `yoe` of era `era`. */
  function FromParts(era: int, yoe: int, doy: int): Date {
    var mp := MonthIndex(doy);
    Date(CivilYear(yoe + 400 * era, mp), CivilMonth(mp), doy - MonthStart(mp) + 1)
  }

  function Era(days: nat): int { (days + 719468) / 146097 }
  function DayOfEra(days: nat): int { (days + 719468) % 146097 }

  lemma {:induction false} CivilFromParts(days: nat)
    ensures CivilFromDays(days)
         == FromParts(Era(days), YearOfEra(DayOfEra(days)), DayOfEra(days) - YearStart(YearOfEra(DayOfEra(days))))
    ensures 0 <= DayOfEra(days) - YearStart(YearOfEra(DayOfEra(days))) < 366
  {
    hide YearOfEra, YearStart, MonthStart, MonthIndex, IsLeap;
    YearOfEraBrackets(DayOfEra(days));
    var yoe := YearOfEra(DayOfEra(days));
    YearLengthFirstEra(yoe);
    MonthBrackets(DayOfEra(days) - YearStart(yoe));
  }

  lemma {:induction false} PartsValid(era: int, yoe: int, doy: int)
    requires 0 <= yoe < 400
    requires 0 <= doy < YearStart(yoe + 1) + (if yoe == 399 then 1 else 0) - YearStart(yoe)
    ensures Valid(FromParts(era, yoe, doy))
  {
    YearLength(yoe, era);
    MonthBrackets(doy);
    var mp := MonthIndex(doy);
    if mp < 11 { MonthLengths(yoe + 400 * era, mp); }
  }

  /** Inside one March-based year the day after is the calendar's. */
  lemma {:induction false} PartsNext(era: int, yoe: int, doy: int)
    requires 0 <= yoe < 400
    requires 0 <= doy && doy + 1 < YearStart(yoe + 1) + (if yoe == 399 then 1 else 0) - YearStart(yoe)
    ensures FromParts(era, yoe, doy + 1) == NextDay(FromParts(era, yoe, doy))
  {
    YearLength(yoe, era);
    MonthBrackets(doy);
    MonthBrackets(doy + 1);
    var mp := MonthIndex(doy);
    if mp < 11 { MonthLengths(yoe + 400 * era, mp); }
    assert MonthIndex(doy + 1) == if doy + 1 < MonthStart(mp + 1) then mp else mp + 1;
  }

  /** The last day of a March-based year is the end of February. */
  lemma {:induction false} PartsYearEnd(era: int, yoe: int, doy: int)
    requires 0 <= yoe < 400
    requires doy + 1 == YearStart(yoe + 1) + (if yoe == 399 then 1 else 0) - YearStart(yoe)
    ensures NextDay(FromParts(era, yoe, doy)) == Date(yoe + 400 * era + 1, 3, 1)
  {
    YearLength(yoe, era);
    MonthBrackets(doy);
  }

  lemma {:induction false} FirstOfMarch(era: int, yoe: int)
    ensures FromParts(era, yoe, 0) == Date(yoe + 400 * era, 3, 1)
  {
  }

  /** Every day number is a day of the Gregorian calendar. */
  lemma {:induction false} DateIsValid(days: nat)
    ensures Valid(CivilFromDays(days)) && CivilFromDays(days).year >= 1970
  {
    CivilFromParts(days);
    YearOfEraBrackets(DayOfEra(days));
    PartsValid(Era(days), YearOfEra(DayOfEra(days)), DayOfEra(days) - YearStart(YearOfEra(DayOfEra(days))));
    NotBeforeEpoch(days);
  }

  lemma {:induction false} NotBeforeEpoch(days: nat)
    ensures CivilFromDays(days).year >= 1970
  {
    hide CivilFromDays;
    Epoch();
    if days > 0 { NotBeforeEpoch(days - 1); Successor(days - 1); }
  }

  lemma {:induction false} EpochParts()
    ensures YearOfEra(135080) == 369 && YearStart(369) == 134774 && MonthIndex(306) == 10 && MonthStart(10) == 306
  {
  }

  lemma {:induction false} Epoch()
    ensures CivilFromDays(0) == Date(1970, 1, 1)
  {
    hide YearOfEra, YearStart, MonthIndex, MonthStart;
    EpochParts();
  }

  /** The date of the day `doe` of era `era`. */
  function FromEraDay(era: int, doe: int): Date {
    FromParts(era, YearOfEra(doe), doe - YearStart(YearOfEra(doe)))
  }

  /** The eras follow one another: 28/29 February 400k, then 1 March 400k. */
  lemma {:induction false} EraEnd(era: int)
    ensures FromEraDay(era + 1, 0) == NextDay(FromEraDay(era, 146096))
  {
    YearOfEraUnique(146096, 399);
    YearOfEraUnique(0, 0);
    PartsYearEnd(era, 399, 146096 - YearStart(399));
  }

  lemma {:induction false} EraDayNext(era: int, doe: int)
    requires 0 <= doe < 146096
    ensures FromEraDay(era, doe + 1) == NextDay(FromEraDay(era, doe))
  {
    hide YearOfEra, MonthIndex, MonthStart, NextDay;
    var yoe := YearOfEra(doe);
    YearOfEraBrackets(doe);
    var end := YearStart(yoe + 1) + (if yoe == 399 then 1 else 0);
    if doe + 1 < end {
      YearOfEraUnique(doe + 1, yoe);
      PartsNext(era, yoe, doe - YearStart(yoe));
    } else {
      YearStartGrows(yoe + 1, yoe + 2);
      YearOfEraUnique(doe + 1, yoe + 1);
      PartsYearEnd(era, yoe, doe - YearStart(yoe));
      FirstOfMarch(era, yoe + 1);
    }
  }

  /** Day n + 1 is the calendar's next day after day n. */
  lemma {:induction false} Successor(days: nat)
    ensures CivilFromDays(days + 1) == NextDay(CivilFromDays(days))
  {
    hide CivilFromDays, FromParts, YearOfEra, YearStart, NextDay;
    CivilFromParts(days);
    CivilFromParts(days + 1);
    if DayOfEra(days) == 146096 { EraEnd(Era(days)); } else { EraDayNext(Era(days), DayOfEra(days)); }
  }

  lemma {:induction false} NextIsLater(d: Date)
    requires Valid(d)
    ensures Before(d, NextDay(d))
  {
  }

  lemma {:induction false} BeforeTransitive(a: Date, b: Date, c: Date)
    requires Before(a, b) && Before(b, c)
    ensures Before(a, c)
  {
  }

  /** A later day has a later date. */
  lemma {:induction false} Increasing(a: nat, b: nat)
    requires a < b
    ensures Before(CivilFromDays(a), CivilFromDays(b))
    decreases b - a
  {
    hide CivilFromDays, NextDay, Before, Valid;
    Successor(b - 1);
    DateIsValid(b - 1);
    NextIsLater(CivilFromDays(b - 1));
    if a < b - 1 {
      Increasing(a, b - 1);
      BeforeTransitive(CivilFromDays(a), CivilFromDays(b - 1), CivilFromDays(b));
    }
  }
}
