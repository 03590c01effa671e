/** Times as the store keeps them: RFC3339Nano text in UTC, with the trailing zeros of the fraction
    trimmed, compared as text by SQLite. An instant is a number of nanoseconds since the start of
    the year 0 of the Gregorian calendar; texts are those of the years up to 9999. */
module Timestamps {
  import opened Text

  type Instant = nat

  const SECOND: nat := 1_000_000_000
  const DAY: nat := 86400

  // ---------------------------------------------------------------- the calendar

  predicate IsLeap(y: nat) {
    y % 4 == 0 && (y % 100 != 0 || y % 400 == 0)
  }

  function MonthDays(y: nat, m: nat): (d: nat)
    ensures 28 <= d <= 31
  {
    if m == 2 then (if IsLeap(y) then 29 else 28)
    else if m in {4, 6, 9, 11} then 30 else 31
  }

  function YearDays(y: nat): (d: nat)
    ensures d > 0
  {
    if IsLeap(y) then 366 else 365
  }

  datatype Date = Date(year: nat, month: nat, day: nat)

  /** The date that is `days` days after the first of month `m` of year `y`. */
  function InMonth(days: nat, y: nat, m: nat): (d: Date)
    requires 1 <= m <= 12
    ensures d.year == y && m <= d.month <= 12
    decreases 12 - m
  {
    if m == 12 || days < MonthDays(y, m) then Date(y, m, days + 1) else InMonth(days - MonthDays(y, m), y, m + 1)
  }

  /** The date that is `days` days after the first of January of year `y`. */
  function DateAfter(days: nat, y: nat): (d: Date)
    ensures y <= d.year && 1 <= d.month <= 12
  {
    if days < YearDays(y) then InMonth(days, y, 1) else DateAfter(days - YearDays(y), y + 1)
  }

  predicate Earlier(a: Date, b: Date) {
    a.year < b.year || (a.year == b.year && (a.month < b.month || (a.month == b.month && a.day < b.day)))
  }

  lemma {:induction false} InMonthOrder(a: nat, b: nat, y: nat, m: nat)
    requires a < b && 1 <= m <= 12
    ensures Earlier(InMonth(a, y, m), InMonth(b, y, m))
    decreases 12 - m
  {
    if m < 12 && a >= MonthDays(y, m) {
      InMonthOrder(a - MonthDays(y, m), b - MonthDays(y, m), y, m + 1);
    }
  }

  /** Later days have later dates. */
  lemma {:induction false} DateOrder(a: nat, b: nat, y: nat)
    requires a < b
    ensures Earlier(DateAfter(a, y), DateAfter(b, y))
  {
    if b < YearDays(y) {
      InMonthOrder(a, b, y, 1);
    } else if a >= YearDays(y) {
      DateOrder(a - YearDays(y), b - YearDays(y), y + 1);
    }
  }

  function DaysToMonth(y: nat, from: nat, m: nat): nat
    requires from <= m
    decreases m - from
  {
    if from == m then 0 else MonthDays(y, from) + DaysToMonth(y, from + 1, m)
  }

  function DaysToYear(from: nat, y: nat): nat
    requires from <= y
    decreases y - from
  {
    if from == y then 0 else YearDays(from) + DaysToYear(from + 1, y)
  }

  lemma {:induction false} InMonthCounts(days: nat, y: nat, m: nat)
    requires 1 <= m <= 12 && days < DaysToMonth(y, m, 12) + 31
    ensures var d := InMonth(days, y, m);
      DaysToMonth(y, m, d.month) + d.day == days + 1 && 1 <= d.day <= MonthDays(y, d.month)
    decreases 12 - m
  {
    if m < 12 && days >= MonthDays(y, m) { InMonthCounts(days - MonthDays(y, m), y, m + 1); }
  }

  lemma YearIsItsMonths(y: nat)
    ensures YearDays(y) == DaysToMonth(y, 1, 12) + 31
  {
    assert DaysToMonth(y, 9, 12) == 91 && DaysToMonth(y, 7, 9) == 62 by { assert DaysToMonth(y, 11, 12) == 30; }
    assert DaysToMonth(y, 5, 12) == 214 by { assert DaysToMonth(y, 7, 12) == 153; }
    assert DaysToMonth(y, 3, 12) == 275;
  }

  /** The date is the one that lies the given number of days after the start of the year. */
  lemma {:induction false} DateCounts(days: nat, y: nat)
    ensures var d := DateAfter(days, y);
      && DaysToYear(y, d.year) + DaysToMonth(d.year, 1, d.month) + d.day == days + 1
      && 1 <= d.day <= MonthDays(d.year, d.month)
  {
    if days < YearDays(y) {
      YearIsItsMonths(y);
      InMonthCounts(days, y, 1);
    } else {
      DateCounts(days - YearDays(y), y + 1);
    }
  }

  // ---------------------------------------------------------------- the text

  function Pow10(w: nat): (p: nat)
    ensures p > 0
  {
    if w == 0 then 1 else 10 * Pow10(w - 1)
  }

  /** The last `w` decimal digits. */
  function Digits(n: nat, w: nat): (s: string)
    ensures |s| == w
  {
    if w == 0 then "" else Digits(n / 10, w - 1) + [DigitChar(n % 10)]
  }

  lemma {:induction false} DigitsAreDigits(n: nat, w: nat)
    ensures forall i :: 0 <= i < w ==> IsDigit(Digits(n, w)[i])
  {
    if w > 0 { DigitsAreDigits(n / 10, w - 1); }
  }

  lemma {:induction false} DigitsOrder(a: nat, b: nat, w: nat)
    requires a < b < Pow10(w)
    ensures Less(Digits(a, w), Digits(b, w))
  {
    if a / 10 < b / 10 {
      DigitsOrder(a / 10, b / 10, w - 1);
      LessEqualLength(Digits(a / 10, w - 1), Digits(b / 10, w - 1), [DigitChar(a % 10)], [DigitChar(b % 10)]);
    } else {
      LessAfterPrefix(Digits(a / 10, w - 1), [DigitChar(a % 10)], [DigitChar(b % 10)]);
    }
  }

  /** Digits without trailing zeros. */
  function TrimZeros(s: string): (r: string)
    ensures |r| <= |s|
  {
    if s == "" then ""
    else
      var rest := TrimZeros(s[1..]);
      if rest == "" && s[0] == '0' then "" else [s[0]] + rest
  }

  function Fraction(nanos: nat): string {
    TrimZeros(Digits(nanos, 9))
  }

  /** What follows the seconds. */
  function Tail(fraction: string): string {
    if fraction == "" then "Z" else "." + fraction + "Z"
  }

  function DateText(d: Date): string {
    Digits(d.year, 4) + ("-" + (Digits(d.month, 2) + ("-" + Digits(d.day, 2))))
  }

  function ClockFields(hour: nat, minute: nat, second: nat): string {
    Digits(hour, 2) + (":" + (Digits(minute, 2) + (":" + Digits(second, 2))))
  }

  function ClockText(second: nat): string {
    ClockFields(second / 3600, second / 60 % 60, second % 60)
  }

  function SecondText(second: nat): string {
    DateText(DateAfter(second / DAY, 0)) + ("T" + ClockText(second % DAY))
  }

  /** `t.UTC().Format(time.RFC3339Nano)`. */
  function Stored(t: Instant): string {
    SecondText(t / SECOND) + Tail(Fraction(t % SECOND))
  }

  const YEAR_10000: nat := 3_652_425 * DAY * SECOND

  /** Times before the year 10000, whose year has four digits. */
  predicate Representable(t: Instant) {
    t < YEAR_10000
  }

  function Leaps(y: nat): int {
    (y + 3) / 4 - (y + 99) / 100 + (y + 399) / 400
  }

  lemma {:induction false} OneMoreYear(first: nat, y: nat)
    requires first <= y
    ensures DaysToYear(first, y + 1) == DaysToYear(first, y) + YearDays(y)
    decreases y - first
  {
    if first < y { OneMoreYear(first + 1, y); }
  }

  lemma Quarter(y: nat)
    ensures (y + 4) / 4 - (y + 3) / 4 == if y % 4 == 0 then 1 else 0
  {
    var q, r := y / 4, y % 4;
    assert y == 4 * q + r;
    assert (y + 4) / 4 == q + 1;
    if r == 0 { assert (y + 3) / 4 == q; } else { assert (y + 3) / 4 == q + 1; }
  }

  lemma Century(y: nat)
    ensures (y + 100) / 100 - (y + 99) / 100 == if y % 100 == 0 then 1 else 0
    ensures y % 100 == 0 ==> y % 4 == 0
  {
    var q, r := y / 100, y % 100;
    assert y == 100 * q + r;
    assert (y + 100) / 100 == q + 1;
    if r == 0 {
      assert (y + 99) / 100 == q;
      assert y == 4 * (25 * q);
    } else {
      assert (y + 99) / 100 == q + 1;
    }
  }

  lemma FourCenturies(y: nat)
    ensures (y + 400) / 400 - (y + 399) / 400 == if y % 400 == 0 then 1 else 0
    ensures y % 400 == 0 ==> y % 100 == 0
  {
    var q, r := y / 400, y % 400;
    assert y == 400 * q + r;
    assert (y + 400) / 400 == q + 1;
    if r == 0 {
      assert (y + 399) / 400 == q;
      assert y == 100 * (4 * q);
    } else {
      assert (y + 399) / 400 == q + 1;
    }
  }

  lemma LeapsCount(y: nat)
    ensures Leaps(y + 1) == Leaps(y) + if IsLeap(y) then 1 else 0
  {
    Quarter(y);
    Century(y);
    FourCenturies(y);
  }

  lemma {:induction false} DaysOfYears(y: nat)
    ensures DaysToYear(0, y) == 365 * y + Leaps(y)
  {
    if y > 0 {
      DaysOfYears(y - 1);
      OneMoreYear(0, y - 1);
      LeapsCount(y - 1);
    }
  }

  lemma {:induction false} YearsAddUp(first: nat, mid: nat, y: nat)
    requires first <= mid <= y
    ensures DaysToYear(first, mid) <= DaysToYear(first, y)
    decreases y
  {
    if mid < y {
      YearsAddUp(first, mid, y - 1);
      OneMoreYear(first, y - 1);
    }
  }

  /** Exactly those times have a year of at most four digits. */
  lemma FourDigitYears(t: Instant)
    ensures Representable(t) <==> DateAfter(t / SECOND / DAY, 0).year <= 9999
  {
    var days := t / SECOND / DAY;
    var d := DateAfter(days, 0);
    DateCounts(days, 0);
    InDays(t);
    MonthsFit(d.year, d.month);
    YearsBelow(days, d.year, DaysToMonth(d.year, 1, d.month) + d.day - 1);
  }

  lemma InDays(t: Instant)
    ensures Representable(t) <==> t / SECOND / DAY < 3_652_425
  {
  }

  /** A day of a year is before the year 10000 exactly when its number is. */
  lemma YearsBelow(days: nat, year: nat, within: nat)
    requires days == DaysToYear(0, year) + within && within < YearDays(year)
    ensures days < 3_652_425 <==> year <= 9999
  {
    DaysOfYears(10000);
    if year >= 10000 {
      YearsAddUp(0, 10000, year);
    } else {
      YearsAddUp(0, year + 1, 10000);
      OneMoreYear(0, year);
    }
  }

  /** The days before a month and those of the month are among the days of the year. */
  lemma MonthsFit(y: nat, m: nat)
    requires 1 <= m <= 12
    ensures DaysToMonth(y, 1, m) + MonthDays(y, m) <= YearDays(y)
  {
    YearIsItsMonths(y);
    MonthsAddUp(y, m);
  }

  lemma {:induction false} OneMoreMonth(y: nat, first: nat, m: nat)
    requires first <= m
    ensures DaysToMonth(y, first, m + 1) == DaysToMonth(y, first, m) + MonthDays(y, m)
    decreases m - first
  {
    if first < m { OneMoreMonth(y, first + 1, m); }
  }

  lemma {:induction false} MonthsAddUp(y: nat, m: nat)
    requires 1 <= m <= 12
    ensures DaysToMonth(y, 1, m) + MonthDays(y, m) <= DaysToMonth(y, 1, 12) + 31
    decreases 12 - m
  {
    if m < 12 {
      OneMoreMonth(y, 1, m);
      MonthsAddUp(y, m + 1);
    }
  }

  // ---------------------------------------------------------------- different seconds

  lemma FieldOrder(a: nat, b: nat, w: nat, x: string, y: string)
    requires a < b < Pow10(w)
    ensures Less(Digits(a, w) + x, Digits(b, w) + y)
  {
    DigitsOrder(a, b, w);
    LessEqualLength(Digits(a, w), Digits(b, w), x, y);
  }

  lemma DateTextOrder(a: Date, b: Date)
    requires Earlier(a, b) && b.year <= 9999 && a.month <= 12 && b.month <= 12 && a.day <= 31 && b.day <= 31
    ensures Less(DateText(a), DateText(b)) && |DateText(a)| == |DateText(b)|
  {
    assert Pow10(2) == 100 && Pow10(4) == 10000 by { assert Pow10(1) == 10 && Pow10(3) == 1000; }
    var da, db := Digits(a.day, 2), Digits(b.day, 2);
    var ma, mb := Digits(a.month, 2) + ("-" + da), Digits(b.month, 2) + ("-" + db);
    if a.year < b.year {
      FieldOrder(a.year, b.year, 4, "-" + ma, "-" + mb);
    } else {
      if a.month < b.month {
        FieldOrder(a.month, b.month, 2, "-" + da, "-" + db);
      } else {
        DigitsOrder(a.day, b.day, 2);
        LessAfterPrefix("-", da, db);
        LessAfterPrefix(Digits(a.month, 2), "-" + da, "-" + db);
      }
      LessAfterPrefix("-", ma, mb);
      LessAfterPrefix(Digits(a.year, 4), "-" + ma, "-" + mb);
    }
  }

  lemma ClockFieldsOrder(h: nat, m: nat, s: nat, i: nat, n: nat, t: nat)
    requires h < 100 && m < 100 && s < 100 && i < 100 && n < 100 && t < 100
    requires h < i || (h == i && (m < n || (m == n && s < t)))
    ensures Less(ClockFields(h, m, s), ClockFields(i, n, t))
  {
    assert Pow10(2) == 100 by { assert Pow10(1) == 10; }
    var sa, sb := Digits(s, 2), Digits(t, 2);
    var ma, mb := Digits(m, 2) + (":" + sa), Digits(n, 2) + (":" + sb);
    if h < i {
      FieldOrder(h, i, 2, ":" + ma, ":" + mb);
    } else {
      if m < n {
        FieldOrder(m, n, 2, ":" + sa, ":" + sb);
      } else {
        DigitsOrder(s, t, 2);
        LessAfterPrefix(":", sa, sb);
        LessAfterPrefix(Digits(m, 2), ":" + sa, ":" + sb);
      }
      LessAfterPrefix(":", ma, mb);
      LessAfterPrefix(Digits(h, 2), ":" + ma, ":" + mb);
    }
  }

  lemma ClockParts(a: nat)
    requires a < DAY
    ensures a == 3600 * (a / 3600) + 60 * (a / 60 % 60) + a % 60
    ensures a / 3600 < 24 && a / 60 % 60 < 60 && a % 60 < 60
  {
    var q := a / 60;
    assert a == 60 * q + a % 60;
    assert q == 60 * (q / 60) + q % 60;
    assert q / 60 == a / 3600;
  }

  lemma ClockTextOrder(a: nat, b: nat)
    requires a < b < DAY
    ensures Less(ClockText(a), ClockText(b))
  {
    ClockParts(a);
    ClockParts(b);
    var h, m, s, i, n, t := a / 3600, a / 60 % 60, a % 60, b / 3600, b / 60 % 60, b % 60;
    ClockFieldsOrder(h, m, s, i, n, t);
  }

  lemma SecondTextOrder(a: nat, b: nat)
    requires a < b && DateAfter(b / DAY, 0).year <= 9999
    ensures Less(SecondText(a), SecondText(b)) && |SecondText(a)| == |SecondText(b)|
  {
    var da, db := DateAfter(a / DAY, 0), DateAfter(b / DAY, 0);
    DateCounts(a / DAY, 0);
    DateCounts(b / DAY, 0);
    if a / DAY < b / DAY {
      DateOrder(a / DAY, b / DAY, 0);
      DateTextOrder(da, db);
      LessEqualLength(DateText(da), DateText(db), "T" + ClockText(a % DAY), "T" + ClockText(b % DAY));
    } else {
      ClockTextOrder(a % DAY, b % DAY);
      LessAfterPrefix("T", ClockText(a % DAY), ClockText(b % DAY));
      LessAfterPrefix(DateText(da), "T" + ClockText(a % DAY), "T" + ClockText(b % DAY));
    }
  }

  /** Two stored times in different seconds compare as text exactly as in time. */
  lemma DifferentSecondsOrder(a: Instant, b: Instant)
    requires a / SECOND != b / SECOND && Representable(a) && Representable(b)
    ensures Less(Stored(a), Stored(b)) <==> a < b
  {
    FourDigitYears(a);
    FourDigitYears(b);
    var early, late := if a < b then a else b, if a < b then b else a;
    SecondTextOrder(early / SECOND, late / SECOND);
    LessEqualLength(SecondText(early / SECOND), SecondText(late / SECOND),
                    Tail(Fraction(early % SECOND)), Tail(Fraction(late % SECOND)));
    LessTotal(Stored(a), Stored(b));
  }

  // ---------------------------------------------------------------- the same second

  predicate ProperPrefix(a: string, b: string) {
    |a| < |b| && b[..|a|] == a
  }

  lemma PrefixHeads(a: string, b: string)
    requires a != "" && b != ""
    ensures ProperPrefix(a, b) <==> a[0] == b[0] && ProperPrefix(a[1..], b[1..])
  {
    if |a| < |b| {
      assert b[..|a|] == [b[0]] + b[1..][..|a| - 1];
      assert a == [a[0]] + a[1..];
    }
  }

  /** Digit strings of one length, in order; after trimming and closing with `Z` they are in the
      same order unless the first has become a proper prefix of the second. */
  lemma {:induction false} TrimmedOrder(x: string, y: string)
    requires |x| == |y| && Less(x, y) && forall i :: 0 <= i < |x| ==> IsDigit(x[i]) && IsDigit(y[i])
    ensures var tx, ty := TrimZeros(x), TrimZeros(y);
      && ty != "" && !ProperPrefix(ty, tx)
      && (ProperPrefix(tx, ty) ==> Less(ty + "Z", tx + "Z"))
      && (!ProperPrefix(tx, ty) ==> Less(tx + "Z", ty + "Z"))
  {
    var rx, ry := TrimZeros(x[1..]), TrimZeros(y[1..]);
    if x[0] == y[0] { TrimmedOrder(x[1..], y[1..]); }
    var tx, ty := TrimZeros(x), TrimZeros(y);
    assert ty == [y[0]] + ry;
    assert (ty + "Z")[0] == y[0] && (ty + "Z")[1..] == ry + "Z";
    if tx == "" {
      assert ProperPrefix(tx, ty) && tx + "Z" == "Z";
    } else {
      assert tx == [x[0]] + rx;
      assert (tx + "Z")[0] == x[0] && (tx + "Z")[1..] == rx + "Z";
      PrefixHeads(tx, ty);
      PrefixHeads(ty, tx);
      assert tx[1..] == rx && ty[1..] == ry;
    }
  }

  lemma TailOrder(f: string, g: string)
    requires g != "" && forall i :: 0 <= i < |g| ==> IsDigit(g[i])
    ensures Less(Tail(f), Tail(g)) <==> f != "" && Less(f + "Z", g + "Z")
    ensures Less(Tail(g), Tail(f)) <==> f == "" || Less(g + "Z", f + "Z")
  {
    assert Tail(g) == "." + (g + "Z");
    if f != "" {
      assert Tail(f) == "." + (f + "Z");
      LessAfterPrefix(".", f + "Z", g + "Z");
      LessAfterPrefix(".", g + "Z", f + "Z");
    }
  }

  lemma {:induction false} TrimmedDigits(s: string)
    requires forall i :: 0 <= i < |s| ==> IsDigit(s[i])
    ensures forall i :: 0 <= i < |TrimZeros(s)| ==> IsDigit(TrimZeros(s)[i])
  {
    if s != "" { TrimmedDigits(s[1..]); }
  }

  /** Two stored times within one second compare as text as in time exactly when neither trimmed
      fraction is a proper prefix of the other; otherwise the order is reversed. */
  lemma SameSecondOrder(a: Instant, b: Instant)
    requires a / SECOND == b / SECOND && a < b
    ensures var f, g := Fraction(a % SECOND), Fraction(b % SECOND);
      && !ProperPrefix(g, f)
      && (Less(Stored(a), Stored(b)) <==> !ProperPrefix(f, g))
      && (Less(Stored(b), Stored(a)) <==> ProperPrefix(f, g))
  {
    var x, y := Digits(a % SECOND, 9), Digits(b % SECOND, 9);
    NinePlaces();
    DigitsAreDigits(a % SECOND, 9);
    DigitsAreDigits(b % SECOND, 9);
    DigitsOrder(a % SECOND, b % SECOND, 9);
    TrimmedOrder(x, y);
    TrimmedDigits(y);
    var f, g := Fraction(a % SECOND), Fraction(b % SECOND);
    TailOrder(f, g);
    LessAfterPrefix(SecondText(a / SECOND), Tail(f), Tail(g));
    LessAfterPrefix(SecondText(a / SECOND), Tail(g), Tail(f));
    LessTotal(f + "Z", g + "Z");
    assert f == "" ==> ProperPrefix(f, g);
  }

  lemma {:induction false} NoFraction(w: nat)
    ensures TrimZeros(Digits(0, w)) == ""
  {
    if w > 0 {
      NoFraction(w - 1);
      AllZeros(w);
      AllZeros(w - 1);
      assert Digits(0, w)[1..] == Digits(0, w - 1);
    }
  }

  lemma {:induction false} AllZeros(w: nat)
    ensures forall i :: 0 <= i < w ==> Digits(0, w)[i] == '0'
  {
    if w > 0 { AllZeros(w - 1); }
  }

  /** So the text of a whole second comes after the text of every later time within that second. */
  lemma WholeSecondComesLast(t: Instant, n: nat)
    requires t % SECOND == 0 && 0 < n < SECOND
    ensures Less(Stored(t + n), Stored(t))
  {
    NoFraction(9);
    assert (t + n) / SECOND == t / SECOND && (t + n) % SECOND == n by {
      assert t == SECOND * (t / SECOND);
    }
    SameSecondOrder(t, t + n);
    assert Fraction(n) != "" by {
      NinePlaces();
      DigitsOrder(0, n, 9);
      DigitsAreDigits(0, 9);
      DigitsAreDigits(n, 9);
      TrimmedOrder(Digits(0, 9), Digits(n, 9));
    }
    assert Fraction(n)[..0] == "";
  }

  lemma NinePlaces()
    ensures Pow10(9) == SECOND
  {
    assert Pow10(3) == 1000 by { assert Pow10(1) == 10; }
    assert Pow10(6) == 1_000_000 by { assert Pow10(4) == 10_000; }
    assert Pow10(8) == 100_000_000;
  }

  /** A filter `stored <= now` on texts never misses a time a full second ago, and never admits one
      a full second ahead. */
  lemma FilterWithinASecond(t: Instant, now: Instant)
    requires Representable(t) && Representable(now)
    ensures t + SECOND <= now ==> AtMost(Stored(t), Stored(now))
    ensures AtMost(Stored(t), Stored(now)) ==> t < now + SECOND
  {
    if t / SECOND != now / SECOND {
      DifferentSecondsOrder(now, t);
    }
  }

  // ---------------------------------------------------------------- reading a text back

  /** The number that a string of digits is. */
  function NumberIn(s: string): nat {
    if s == "" then 0
    else 10 * NumberIn(s[..|s| - 1]) + if IsDigit(s[|s| - 1]) then DigitValue(s[|s| - 1]) else 0
  }

  function Zeros(n: nat): (s: string)
    ensures |s| == n
  {
    if n == 0 then "" else ['0'] + Zeros(n - 1)
  }

  /** The days before each month of a year that is no leap year. */
  const DAYS_BEFORE: seq<nat> := [0, 31, 59, 90, 120, 151, 181, 212, 243, 273, 304, 334]

  /** The days from the start of the year 0 to a date of the Gregorian calendar. */
  function DayNumber(year: nat, month: nat, day: nat): int
    requires 1 <= month <= 12
  {
    365 * year + (year + 3) / 4 - (year + 99) / 100 + (year + 399) / 400 + DAYS_BEFORE[month - 1]
    + (if month > 2 && year % 4 == 0 && (year % 100 != 0 || year % 400 == 0) then 1 else 0) + day - 1
  }

  /** A text of section 5.6 of RFC 3339 in UTC: date, `T`, time, perhaps a fraction, `Z`. */
  predicate IsUTC(s: string) {
    && |s| >= 20 && s[4] == '-' && s[7] == '-' && s[10] == 'T' && s[13] == ':' && s[16] == ':' && s[|s| - 1] == 'Z'
    && 1 <= NumberIn(s[5..7]) <= 12
    && (|s| == 20 || (22 <= |s| <= 30 && s[19] == '.'))
  }

  /** The nanoseconds after the seconds. */
  function NanosIn(s: string): nat
    requires IsUTC(s)
  {
    if |s| == 20 then 0 else NumberIn(s[20..|s| - 1] + Zeros(30 - |s|))
  }

  /** The instant that such a text means. */
  function ReadUTC(s: string): int
    requires IsUTC(s)
  {
    var days := DayNumber(NumberIn(s[..4]), NumberIn(s[5..7]), NumberIn(s[8..10]));
    var clock := 3600 * NumberIn(s[11..13]) + 60 * NumberIn(s[14..16]) + NumberIn(s[17..19]);
    (days * 86400 + clock) * 1_000_000_000 + NanosIn(s)
  }

  lemma {:induction false} NumberOfDigits(n: nat, w: nat)
    requires n < Pow10(w)
    ensures NumberIn(Digits(n, w)) == n
  {
    if w > 0 {
      NumberOfDigits(n / 10, w - 1);
      var s := Digits(n, w);
      assert s[..|s| - 1] == Digits(n / 10, w - 1);
    }
  }

  /** What was trimmed are zeros. */
  lemma {:induction false} TrimmedZeros(s: string)
    ensures TrimZeros(s) + Zeros(|s| - |TrimZeros(s)|) == s
  {
    if s != "" {
      var rest := TrimZeros(s[1..]);
      TrimmedZeros(s[1..]);
      assert s == [s[0]] + s[1..];
      if rest == "" && s[0] == '0' {
        assert Zeros(|s|) == ['0'] + Zeros(|s| - 1);
      } else {
        assert TrimZeros(s) + Zeros(|s| - |TrimZeros(s)|) == [s[0]] + (rest + Zeros(|s[1..]| - |rest|));
      }
    }
  }

  lemma {:induction false} DaysBeforeMonth(y: nat, m: nat)
    requires 1 <= m <= 12
    ensures DaysToMonth(y, 1, m) == DAYS_BEFORE[m - 1] + if m > 2 && IsLeap(y) then 1 else 0
  {
    if m > 1 {
      DaysBeforeMonth(y, m - 1);
      OneMoreMonth(y, 1, m - 1);
    }
  }

  lemma DayNumberIs(year: nat, month: nat, day: nat)
    requires 1 <= month <= 12
    ensures DayNumber(year, month, day) == DaysToYear(0, year) + DaysToMonth(year, 1, month) + day - 1
  {
    DaysOfYears(year);
    DaysBeforeMonth(year, month);
  }

  /** A day's date has that day's number. */
  lemma DateHasNumber(days: nat)
    ensures var d := DateAfter(days, 0); DayNumber(d.year, d.month, d.day) == days
  {
    var d := DateAfter(days, 0);
    DateCounts(days, 0);
    DayNumberIs(d.year, d.month, d.day);
  }

  predicate ReadsAsDate(s: string, d: Date) {
    && |s| == 10 && s[4] == '-' && s[7] == '-' && 1 <= d.month <= 12
    && NumberIn(s[..4]) == d.year && NumberIn(s[5..7]) == d.month && NumberIn(s[8..10]) == d.day
  }

  predicate ReadsAsClock(s: string, second: nat) {
    && |s| == 8 && s[2] == ':' && s[5] == ':'
    && 3600 * NumberIn(s[..2]) + 60 * NumberIn(s[3..5]) + NumberIn(s[6..8]) == second
  }

  /** What follows the seconds reads as that many nanoseconds. */
  predicate ReadsAsTail(s: string, nanos: nat) {
    && |s| >= 1 && s[|s| - 1] == 'Z'
    && if |s| == 1 then nanos == 0
       else 3 <= |s| <= 11 && s[0] == '.' && NumberIn(s[1..|s| - 1] + Zeros(11 - |s|)) == nanos
  }

  lemma DateFields(d: Date)
    requires d.year <= 9999 && 1 <= d.month <= 12 && 1 <= d.day <= 31
    ensures ReadsAsDate(DateText(d), d)
  {
    assert Pow10(2) == 100 && Pow10(4) == 10000 by { assert Pow10(1) == 10 && Pow10(3) == 1000; }
    var s := DateText(d);
    NumberOfDigits(d.year, 4);
    NumberOfDigits(d.month, 2);
    NumberOfDigits(d.day, 2);
    assert s[..4] == Digits(d.year, 4) && s[5..7] == Digits(d.month, 2) && s[8..10] == Digits(d.day, 2);
  }

  lemma ClockFieldsRead(second: nat)
    requires second < DAY
    ensures ReadsAsClock(ClockText(second), second)
  {
    assert Pow10(2) == 100 by { assert Pow10(1) == 10; }
    var s := ClockText(second);
    ClockParts(second);
    NumberOfDigits(second / 3600, 2);
    NumberOfDigits(second / 60 % 60, 2);
    NumberOfDigits(second % 60, 2);
    assert s[..2] == Digits(second / 3600, 2) && s[3..5] == Digits(second / 60 % 60, 2);
    assert s[6..8] == Digits(second % 60, 2);
  }

  /** What stands where in a text of date, clock and tail. */
  lemma StampParts(date: string, clock: string, tail: string)
    requires |date| == 10 && |clock| == 8
    ensures var s := date + ("T" + clock) + tail;
      && |s| == 19 + |tail| && s[10] == 'T' && (forall i :: 0 <= i < 10 ==> s[i] == date[i])
      && s[..4] == date[..4] && s[5..7] == date[5..7] && s[8..10] == date[8..10]
      && (forall i :: 0 <= i < 8 ==> s[11 + i] == clock[i])
      && s[11..13] == clock[..2] && s[14..16] == clock[3..5] && s[17..19] == clock[6..8]
      && (forall i :: 0 <= i < |tail| ==> s[19 + i] == tail[i])
  {
  }

  lemma FractionRead(nanos: nat)
    requires nanos < SECOND
    ensures ReadsAsTail(Tail(Fraction(nanos)), nanos)
  {
    NinePlaces();
    var f := Fraction(nanos);
    TrimmedZeros(Digits(nanos, 9));
    NumberOfDigits(nanos, 9);
    if f == "" {
      assert f + Zeros(9) == Zeros(9);
      NoFraction(9);
      DigitsAreZeros(9);
      NumberOfDigits(0, 9);
    } else {
      assert Tail(f)[1..|Tail(f)| - 1] == f;
    }
  }

  lemma {:induction false} DigitsAreZeros(w: nat)
    ensures Digits(0, w) == Zeros(w)
  {
    AllZeros(w);
    ZerosAreZeros(w);
  }

  lemma {:induction false} ZerosAreZeros(w: nat)
    ensures forall i :: 0 <= i < w ==> Zeros(w)[i] == '0'
  {
    if w > 0 { ZerosAreZeros(w - 1); }
  }

  /** A text put together from a date, a clock and a tail means what they mean. */
  lemma StampMeans(date: string, clock: string, tail: string, d: Date, second: nat, nanos: nat)
    requires ReadsAsDate(date, d) && ReadsAsClock(clock, second) && ReadsAsTail(tail, nanos)
    ensures var s := date + ("T" + clock) + tail;
      IsUTC(s) && ReadUTC(s) == (DayNumber(d.year, d.month, d.day) * 86400 + second) * 1_000_000_000 + nanos
  {
    var s := date + ("T" + clock) + tail;
    StampParts(date, clock, tail);
    assert s[13] == clock[2] && s[16] == clock[5];
    assert |tail| > 1 ==> s[20..|s| - 1] == tail[1..|tail| - 1];
    assert IsUTC(s) && NanosIn(s) == nanos;
  }

  /** The text of a second with a tail that reads as some nanoseconds. */
  lemma SecondRead(second: nat, tail: string, nanos: nat)
    requires DateAfter(second / DAY, 0).year <= 9999
    requires ReadsAsTail(tail, nanos)
    ensures var s := SecondText(second) + tail;
      IsUTC(s) && ReadUTC(s) == ((second / DAY) * 86400 + second % DAY) * 1_000_000_000 + nanos
  {
    var days, d := second / DAY, DateAfter(second / DAY, 0);
    DateCounts(days, 0);
    DateHasNumber(days);
    DateFields(d);
    ClockFieldsRead(second % DAY);
    StampMeans(DateText(d), ClockText(second % DAY), tail, d, second % DAY, nanos);
  }

  /** Every stored text is one of RFC 3339 in UTC, and means the instant it was made of. */
  lemma StoredRoundTrip(t: Instant)
    requires Representable(t)
    ensures IsUTC(Stored(t)) && ReadUTC(Stored(t)) == t
  {
    FourDigitYears(t);
    FractionRead(t % SECOND);
    SecondRead(t / SECOND, Tail(Fraction(t % SECOND)), t % SECOND);
    PartsOfInstant(t);
  }

  lemma PartsOfInstant(t: Instant)
    ensures t == ((t / SECOND / DAY) * 86400 + t / SECOND % DAY) * 1_000_000_000 + t % SECOND
  {
    var second := t / SECOND;
    assert t == second * SECOND + t % SECOND;
    assert second == (second / DAY) * DAY + second % DAY;
  }
}
