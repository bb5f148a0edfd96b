/** The names the history's month files carry: the first seven characters of
    an RFC 3339 time, the prune cutoff computed from one, and how the strings
    sort. */
module MonthNames {
  import opened Calendar

  /** The byte order of strings, by which file names are sorted and pruned. */
  predicate StrLess(a: string, b: string) {
    b != [] && (a == [] || a[0] < b[0] || (a[0] == b[0] && StrLess(a[1..], b[1..])))
  }

  lemma {:induction false} StrLessTotal(a: string, b: string)
    ensures a == b || StrLess(a, b) || StrLess(b, a)
    ensures !(StrLess(a, b) && StrLess(b, a)) && !StrLess(a, a)
  {
    if a != [] && b != [] {
      StrLessTotal(a[1..], b[1..]);
      assert a == [a[0]] + a[1..] && b == [b[0]] + b[1..];
    }
    if a != [] { StrLessTotal(a[1..], a[1..]); }
  }

  lemma {:induction false} StrLessTransitive(a: string, b: string, c: string)
    requires StrLess(a, b) && StrLess(b, c)
    ensures StrLess(a, c)
  {
    if a != [] && a[0] == b[0] == c[0] { StrLessTransitive(a[1..], b[1..], c[1..]); }
  }

  /** Equal-length prefixes decide before what follows them. */
  lemma {:induction false} StrLessAppend(p: string, q: string, s: string, t: string)
    requires |p| == |q|
    ensures StrLess(p + s, q + t) <==> StrLess(p, q) || (p == q && StrLess(s, t))
  {
    if p == [] {
      assert p + s == s && q + t == t;
    } else {
      assert (p + s)[1..] == p[1..] + s && (q + t)[1..] == q[1..] + t;
      StrLessAppend(p[1..], q[1..], s, t);
      assert p == [p[0]] + p[1..] && q == [q[0]] + q[1..];
    }
  }

  // ------------------------------------------------ decimal numbers

  function Digit(d: int): char requires 0 <= d < 10 { (48 + d) as char }
  function Value(c: char): int { c as int - 48 }

  function Dec(n: nat): string {
    if n < 10 then [Digit(n)] else Dec(n / 10) + [Digit(n % 10)]
  }

  function Zeros(n: nat): string { seq(n, _ => '0') }

  /** Rust's `{:0w$}`: zeros after the sign, to width `w` in all. */
  function Padded(n: int, w: nat): string {
    var digits := Dec(if n < 0 then -n else n);
    var width := if n < 0 && w > 0 then w - 1 else w;
    var body := if |digits| < width then Zeros(width - |digits|) + digits else digits;
    if n < 0 then "-" + body else body
  }

  /** `str::parse` of a run of decimal digits. */
  function Parse(s: string): int {
    if s == [] then 0 else 10 * Parse(s[..|s| - 1]) + Value(s[|s| - 1])
  }

  lemma {:induction false} TwoDigits(n: int)
    requires 0 <= n < 100
    ensures Padded(n, 2) == [Digit(n / 10), Digit(n % 10)]
  {
    if n < 10 { assert Zeros(1) == "0"; }
    else { assert Dec(n / 10) == [Digit(n / 10)]; }
  }

  lemma {:induction false} FourDigits(n: int)
    requires 0 <= n < 10000
    ensures Padded(n, 4) == [Digit(n / 1000), Digit(n / 100 % 10), Digit(n / 10 % 10), Digit(n % 10)]
  {
    if n < 10 { assert Zeros(3) == "000"; }
    else if n < 100 { assert Dec(n / 10) == [Digit(n / 10)]; assert Zeros(2) == "00"; }
    else if n < 1000 {
      assert Dec(n / 100) == [Digit(n / 100)];
      assert Dec(n / 10) == Dec(n / 10 / 10) + [Digit(n / 10 % 10)];
      assert n / 10 / 10 == n / 100;
      assert Zeros(1) == "0";
    } else {
      assert Dec(n / 1000) == [Digit(n / 1000)];
      assert n / 100 / 10 == n / 1000 && n / 10 / 10 == n / 100;
      assert Dec(n / 100) == Dec(n / 100 / 10) + [Digit(n / 100 % 10)];
      assert Dec(n / 10) == Dec(n / 10 / 10) + [Digit(n / 10 % 10)];
    }
  }

  /** Negative numbers start with the sign. */
  lemma {:induction false} NegativeStarts(n: int, w: nat)
    requires n < 0
    ensures Padded(n, w) != [] && Padded(n, w)[0] == '-'
  {
  }

  // ------------------------------------------------ times and months

  function Rfc3339(secs: nat): string {
    var d := CivilFromDays(secs / 86400);
    var rem := secs % 86400;
    Padded(d.year, 4) + "-" + Padded(d.month, 2) + "-" + Padded(d.day, 2)
      + "T" + Padded(rem / 3600, 2) + ":" + Padded(rem % 3600 / 60, 2) + ":" + Padded(rem % 60, 2) + "Z"
  }

  /** Months since year 0: what a month name stands for. */
  function MonthNumber(secs: nat): int {
    var d := CivilFromDays(secs / 86400);
    12 * d.year + d.month - 1
  }

  predicate FourDigitYear(secs: nat) {
    CivilFromDays(secs / 86400).year <= 9999
  }

  function MonthName(number: int): string {
    Padded(number / 12, 4) + "-" + Padded(number % 12 + 1, 2)
  }

  function Month(secs: nat): string {
    if |Rfc3339(secs)| < 7 then [] else Rfc3339(secs)[..7]
  }

  /** The month `keep` months before `m`, counting `m` itself. */
  function Cutoff(m: string, keep: nat): string
    requires |m| >= 7
  {
    var total := 12 * Parse(m[..4]) + (Parse(m[5..7]) - 1) - (if keep == 0 then 0 else keep - 1);
    MonthName(total)
  }

  lemma {:induction false} MonthNameShape(number: int)
    requires 0 <= number < 120000
    ensures var y, m := number / 12, number % 12 + 1;
      MonthName(number) == [Digit(y / 1000), Digit(y / 100 % 10), Digit(y / 10 % 10), Digit(y % 10), '-', Digit(m / 10), Digit(m % 10)]
  {
    FourDigits(number / 12);
    TwoDigits(number % 12 + 1);
  }

  /** A time's month file carries the name of its month. */
  lemma {:induction false} MonthIsItsName(secs: nat)
    requires FourDigitYear(secs)
    ensures Month(secs) == MonthName(MonthNumber(secs)) && |Month(secs)| == 7
    ensures 12 * 1970 <= MonthNumber(secs) < 120000
  {
    hide CivilFromDays, Padded, Dec;
    var d := CivilFromDays(secs / 86400);
    DateIsValid(secs / 86400);
    FourDigits(d.year);
    TwoDigits(d.month);
    var head := Padded(d.year, 4) + "-" + Padded(d.month, 2);
    assert Rfc3339(secs)[..7] == head;
    assert MonthNumber(secs) / 12 == d.year && MonthNumber(secs) % 12 + 1 == d.month;
  }

  /** Later time, no earlier month. */
  lemma {:induction false} MonthsFollowTime(a: nat, b: nat)
    requires a <= b
    ensures MonthNumber(a) <= MonthNumber(b)
  {
    hide CivilFromDays;
    var x, y := a / 86400, b / 86400;
    DateIsValid(x);
    DateIsValid(y);
    if x < y { Increasing(x, y); }
  }

  lemma {:induction false} StrLessSeven(a: string, b: string)
    requires |a| == |b| == 7 && a[4] == b[4]
    ensures StrLess(a, b) <==> StrLess(a[..4], b[..4]) || (a[..4] == b[..4] && StrLess(a[5..], b[5..]))
  {
    assert a == a[..4] + ([a[4]] + a[5..]) && b == b[..4] + ([b[4]] + b[5..]);
    StrLessAppend(a[..4], b[..4], [a[4]] + a[5..], [b[4]] + b[5..]);
    StrLessAppend([a[4]], [b[4]], a[5..], b[5..]);
  }

  lemma {:induction false} StrLessFour(a: string, b: string)
    requires |a| == |b| == 4
    ensures StrLess(a, b) <==>
      a[0] < b[0] || (a[0] == b[0] && (a[1] < b[1] || (a[1] == b[1] && (a[2] < b[2] || (a[2] == b[2] && a[3] < b[3])))))
  {
    assert a[1..][1..][1..] == [a[3]] && b[1..][1..][1..] == [b[3]];
    assert StrLess(a[1..][1..][1..], b[1..][1..][1..]) <==> a[3] < b[3];
    assert StrLess(a[1..][1..], b[1..][1..]) <==> a[2] < b[2] || (a[2] == b[2] && a[3] < b[3]);
  }

  lemma {:induction false} StrLessTwo(a: string, b: string)
    requires |a| == |b| == 2
    ensures StrLess(a, b) <==> a[0] < b[0] || (a[0] == b[0] && a[1] < b[1])
  {
    assert a[1..] == [a[1]] && b[1..] == [b[1]];
    assert StrLess(a[1..], b[1..]) <==> a[1] < b[1];
  }

  /** Numbers compare as their digits do, the highest first. */
  lemma {:induction false} DigitsOrder(a: int, b: int, c: int, d: int, e: int, f: int, g: int, h: int)
    requires 0 <= a < 10 && 0 <= b < 10 && 0 <= c < 10 && 0 <= d < 10
    requires 0 <= e < 10 && 0 <= f < 10 && 0 <= g < 10 && 0 <= h < 10
    ensures 1000 * a + 100 * b + 10 * c + d < 1000 * e + 100 * f + 10 * g + h
      <==> (a < e || (a == e && (b < f || (b == f && (c < g || (c == g && d < h))))))
  {
  }

  lemma {:induction false} DigitOrder(x: int, y: int)
    requires 0 <= x < 10 && 0 <= y < 10
    ensures Digit(x) < Digit(y) <==> x < y
    ensures Digit(x) == Digit(y) <==> x == y
  {
  }

  /** Four digits, highest first. */
  lemma {:induction false} Decompose(n: int) returns (a: int, b: int, c: int, d: int)
    requires 0 <= n < 10000
    ensures 0 <= a < 10 && 0 <= b < 10 && 0 <= c < 10 && 0 <= d < 10
    ensures n == 1000 * a + 100 * b + 10 * c + d
    ensures Padded(n, 4) == [Digit(a), Digit(b), Digit(c), Digit(d)]
  {
    hide Padded, Digit;
    FourDigits(n);
    DigitSum(n);
    a, b, c, d := n / 1000, n / 100 % 10, n / 10 % 10, n % 10;
  }

  lemma {:induction false} DigitSum(n: int)
    requires 0 <= n < 10000
    ensures 0 <= n / 1000 < 10 && n == 1000 * (n / 1000) + 100 * (n / 100 % 10) + 10 * (n / 10 % 10) + n % 10
  {
    assert n / 10 / 10 == n / 100;
    assert n / 100 / 10 == n / 1000;
  }

  lemma {:induction false} FourDigitOrder(m: int, n: int)
    requires 0 <= m < 10000 && 0 <= n < 10000
    ensures StrLess(Padded(m, 4), Padded(n, 4)) <==> m < n
    ensures Padded(m, 4) == Padded(n, 4) <==> m == n
  {
    hide Padded, StrLess, Digit;
    var a, b, c, d := Decompose(m);
    var e, f, g, h := Decompose(n);
    var x, y := Padded(m, 4), Padded(n, 4);
    StrLessFour(x, y);
    StrLessFour(y, x);
    StrLessTotal(x, y);
    DigitOrder(a, e); DigitOrder(b, f); DigitOrder(c, g); DigitOrder(d, h);
    DigitOrder(e, a); DigitOrder(f, b); DigitOrder(g, c); DigitOrder(h, d);
    DigitsOrder(a, b, c, d, e, f, g, h);
    DigitsOrder(e, f, g, h, a, b, c, d);
  }

  lemma {:induction false} TwoDigitOrder(m: int, n: int)
    requires 0 <= m < 100 && 0 <= n < 100
    ensures StrLess(Padded(m, 2), Padded(n, 2)) <==> m < n
  {
    hide Padded, StrLess;
    TwoDigits(m);
    TwoDigits(n);
    StrLessTwo(Padded(m, 2), Padded(n, 2));
  }

  /** Month names sort as the months they name. */
  lemma {:induction false} MonthNamesSort(a: int, b: int)
    requires 0 <= a < 120000 && 0 <= b < 120000
    ensures StrLess(MonthName(a), MonthName(b)) <==> a < b
    ensures MonthName(a) == MonthName(b) <==> a == b
  {
    hide Padded, StrLess;
    FourDigits(a / 12); FourDigits(b / 12);
    TwoDigits(a % 12 + 1); TwoDigits(b % 12 + 1);
    var x, y := MonthName(a), MonthName(b);
    assert x[..4] == Padded(a / 12, 4) && x[5..] == Padded(a % 12 + 1, 2);
    assert y[..4] == Padded(b / 12, 4) && y[5..] == Padded(b % 12 + 1, 2);
    StrLessSeven(x, y);
    FourDigitOrder(a / 12, b / 12);
    TwoDigitOrder(a % 12 + 1, b % 12 + 1);
    StrLessTotal(x, y);
  }

  /** A cutoff before year 0 is a name no month sorts before. */
  lemma {:induction false} NegativeCutoff(a: int, c: int)
    requires 0 <= a < 120000 && c < 0
    ensures !StrLess(MonthName(a), MonthName(c))
  {
    MonthNameShape(a);
    NegativeStarts(c / 12, 4);
  }

  lemma {:induction false} ParseAppend(s: string, c: char)
    ensures Parse(s + [c]) == 10 * Parse(s) + Value(c)
  {
    assert (s + [c])[..|s|] == s;
  }

  lemma {:induction false} ParseFour(n: int)
    requires 0 <= n < 10000
    ensures Parse(Padded(n, 4)) == n
  {
    hide Padded, Parse;
    var a, b, c, d := Decompose(n);
    assert [Digit(a), Digit(b), Digit(c), Digit(d)] == [] + [Digit(a)] + [Digit(b)] + [Digit(c)] + [Digit(d)];
    ParseAppend([], Digit(a));
    ParseAppend([] + [Digit(a)], Digit(b));
    ParseAppend([] + [Digit(a)] + [Digit(b)], Digit(c));
    ParseAppend([] + [Digit(a)] + [Digit(b)] + [Digit(c)], Digit(d));
    ParseEmpty();
  }

  lemma {:induction false} ParseEmpty()
    ensures Parse([]) == 0
  {
  }

  lemma {:induction false} ParseTwo(n: int)
    requires 0 <= n < 100
    ensures Parse(Padded(n, 2)) == n
  {
    hide Padded, Parse;
    TwoDigits(n);
    assert Padded(n, 2) == [] + [Digit(n / 10)] + [Digit(n % 10)];
    ParseAppend([], Digit(n / 10));
    ParseAppend([] + [Digit(n / 10)], Digit(n % 10));
    ParseEmpty();
  }

  /** The cutoff of a month name is the name of the month `keep - 1` earlier,
      and of the month itself for `keep` 0. */
  lemma {:induction false} CutoffIsEarlierMonth(number: int, keep: nat)
    requires 0 <= number < 120000
    ensures |MonthName(number)| == 7
    ensures Cutoff(MonthName(number), keep) == MonthName(number - (if keep == 0 then 0 else keep - 1))
  {
    hide Padded, Parse;
    FourDigits(number / 12);
    TwoDigits(number % 12 + 1);
    var m := MonthName(number);
    assert m[..4] == Padded(number / 12, 4) && m[5..7] == Padded(number % 12 + 1, 2);
    ParseFour(number / 12);
    ParseTwo(number % 12 + 1);
  }

  /** What pruning compares as strings is what it means as months: writing at
      time `now`, the file of time `t` is removed exactly when its month lies
      before the newest `keep` months, or before this month for `keep` 0. */
  lemma {:induction false} PruneComparesMonths(t: nat, now: nat, keep: nat)
    requires FourDigitYear(t) && FourDigitYear(now)
    ensures |Month(now)| == 7
    ensures StrLess(Month(t), Cutoff(Month(now), keep)) <==> MonthNumber(t) < MonthNumber(now) - (if keep == 0 then 0 else keep - 1)
  {
    hide MonthNumber, Month, MonthName, StrLess, FourDigitYear, Cutoff;
    MonthIsItsName(t);
    MonthIsItsName(now);
    CutoffIsEarlierMonth(MonthNumber(now), keep);
    var c := MonthNumber(now) - (if keep == 0 then 0 else keep - 1);
    if c < 0 { NegativeCutoff(MonthNumber(t), c); } else { MonthNamesSort(MonthNumber(t), c); }
  }

  /** Two times' files sort by their months. */
  lemma {:induction false} MonthFilesSort(a: nat, b: nat)
    requires FourDigitYear(a) && FourDigitYear(b)
    ensures StrLess(Month(a), Month(b)) <==> MonthNumber(a) < MonthNumber(b)
    ensures Month(a) == Month(b) <==> MonthNumber(a) == MonthNumber(b)
  {
    hide MonthNumber, Month, MonthName, StrLess, FourDigitYear;
    MonthIsItsName(a);
    MonthIsItsName(b);
    MonthNamesSort(MonthNumber(a), MonthNumber(b));
  }

  /** Past year 9999 the names no longer sort by time: the first second of
      the year 10000 is filed before the last second of 9999. */
  lemma {:induction false} YearTenThousandSortsFirst()
    ensures StrLess(Month(253402300800), Month(253402300799))
  {
    hide Padded, StrLess, CivilFromDays;
    LastDayOf9999();
    FirstDayOf10000();
    FiveDigitYear();
    TwoDigits(1);
    assert Rfc3339(253402300800)[..7] == "10000-0";
    FourDigits(9999);
    TwoDigits(12);
    assert Rfc3339(253402300799)[..7] == "9999-12";
    TenThousandFirst();
  }

  lemma {:induction false} LastDayParts()
    ensures YearOfEra(146036) == 399 && YearStart(399) == 145731 && MonthIndex(305) == 9 && MonthStart(9) == 275
  {
  }

  lemma {:induction false} LastDayOf9999()
    ensures CivilFromDays(2932896) == Date(9999, 12, 31)
  {
    hide YearOfEra, YearStart, MonthIndex, MonthStart;
    LastDayParts();
  }

  lemma {:induction false} FirstDayParts()
    ensures YearOfEra(146037) == 399 && YearStart(399) == 145731 && MonthIndex(306) == 10 && MonthStart(10) == 306
  {
  }

  lemma {:induction false} FirstDayOf10000()
    ensures CivilFromDays(2932897) == Date(10000, 1, 1)
  {
    hide YearOfEra, YearStart, MonthIndex, MonthStart;
    FirstDayParts();
  }

  lemma {:induction false} FiveDigitYear()
    ensures Padded(10000, 4) == "10000"
  {
    assert Dec(1) == "1";
    assert Dec(10) == "10";
    assert Dec(100) == "100";
    assert Dec(1000) == "1000";
  }

  lemma {:induction false} TenThousandFirst()
    ensures StrLess("10000-0", "9999-12")
  {
  }
}
