/** The string operations of the Go standard library that the modelled code relies on:
    splitting, joining, trimming, replacing, decimal formatting and the byte-wise
    order that SQLite uses to compare two texts. */
module Text {
  import opened Wrappers

  // ---------------------------------------------------------------- white space

  /** `unicode.IsSpace`, the class that `strings.TrimSpace` and `strings.Fields` use. */
  predicate IsSpace(c: char) {
    || c in {'\t', '\n', '\U{0B}', '\U{0C}', '\r', ' ', '\U{85}', '\U{A0}', '\U{1680}'}
    || '\U{2000}' <= c <= '\U{200A}'
    || c in {'\U{2028}', '\U{2029}', '\U{202F}', '\U{205F}', '\U{3000}'}
  }

  function TrimLeft(s: string): (r: string)
    ensures |r| <= |s|
    ensures r != "" ==> !IsSpace(r[0])
  {
    if s != "" && IsSpace(s[0]) then TrimLeft(s[1..]) else s
  }

  function TrimRight(s: string): (r: string)
    ensures |r| <= |s|
    ensures r != "" ==> !IsSpace(r[|r| - 1])
  {
    if s != "" && IsSpace(s[|s| - 1]) then TrimRight(s[..|s| - 1]) else s
  }

  function TrimSpace(s: string): string {
    TrimRight(TrimLeft(s))
  }

  /** A text whose first and last characters are not white space is left alone. */
  lemma TrimSpaceFixed(s: string)
    requires s == "" || (!IsSpace(s[0]) && !IsSpace(s[|s| - 1]))
    ensures TrimSpace(s) == s
  {
  }

  lemma {:induction false} TrimRightFirst(s: string)
    requires s != "" && !IsSpace(s[0])
    ensures TrimRight(s) != "" && TrimRight(s)[0] == s[0]
  {
    if IsSpace(s[|s| - 1]) { TrimRightFirst(s[..|s| - 1]); }
  }

  /** Trimming keeps the first visible character. */
  lemma TrimSpaceFirst(s: string)
    requires s != "" && !IsSpace(s[0])
    ensures TrimSpace(s) != "" && TrimSpace(s)[0] == s[0]
  {
    TrimRightFirst(s);
  }

  // ---------------------------------------------------------------- split and join

  /** `strings.Split(s, sep)` for a separator of one character. */
  function Split(s: string, sep: char): (r: seq<string>)
    ensures |r| >= 1
  {
    if s == "" then [""]
    else
      var rest := Split(s[1..], sep);
      if s[0] == sep then [""] + rest else Prepend(s[0], rest)
  }

  function Prepend(c: char, parts: seq<string>): (r: seq<string>)
    requires parts != []
    ensures |r| == |parts|
  {
    [[c] + parts[0]] + parts[1..]
  }

  /** `strings.Join(xs, sep)`. */
  function Join(xs: seq<string>, sep: string): string {
    if xs == [] then ""
    else if |xs| == 1 then xs[0]
    else xs[0] + sep + Join(xs[1..], sep)
  }

  lemma {:induction false} SplitWhole(s: string, sep: char)
    requires sep !in s
    ensures Split(s, sep) == [s]
  {
    if s != "" {
      assert s[0] in s;
      assert forall c :: c in s[1..] ==> c in s;
      SplitWhole(s[1..], sep);
      assert [s[0]] + s[1..] == s;
    }
  }

  lemma {:induction false} SplitConcat(a: string, b: string, sep: char)
    ensures Split(a + [sep] + b, sep) == Split(a, sep) + Split(b, sep)
  {
    var s := a + [sep] + b;
    if a == "" {
      assert s[1..] == b;
    } else {
      var rest := a[1..] + [sep] + b;
      assert s[0] == a[0] && s[1..] == rest;
      SplitConcat(a[1..], b, sep);
      SplitStep(s, sep);
      SplitStep(a, sep);
      PrependConcat(a[0], Split(a[1..], sep), Split(b, sep));
    }
  }

  lemma SplitStep(s: string, sep: char)
    requires s != ""
    ensures Split(s, sep) == if s[0] == sep then [""] + Split(s[1..], sep) else Prepend(s[0], Split(s[1..], sep))
  {
  }

  lemma PrependConcat(c: char, xs: seq<string>, ys: seq<string>)
    requires xs != []
    ensures Prepend(c, xs + ys) == Prepend(c, xs) + ys
    ensures [""] + (xs + ys) == ([""] + xs) + ys
  {
    assert (xs + ys)[1..] == xs[1..] + ys;
  }

  /** Splitting undoes joining when no element contains the separator. */
  lemma {:induction false} SplitJoin(xs: seq<string>, sep: char)
    requires xs != []
    requires forall x :: x in xs ==> sep !in x
    ensures Split(Join(xs, [sep]), sep) == xs
  {
    if |xs| == 1 {
      SplitWhole(xs[0], sep);
    } else {
      assert forall x :: x in xs[1..] ==> x in xs;
      SplitJoin(xs[1..], sep);
      SplitConcat(xs[0], Join(xs[1..], [sep]), sep);
      SplitWhole(xs[0], sep);
      assert [xs[0]] + xs[1..] == xs;
    }
  }

  /** `strings.TrimSuffix`. */
  function TrimSuffix(s: string, suffix: string): string {
    if |suffix| <= |s| && s[|s| - |suffix|..] == suffix then s[..|s| - |suffix|] else s
  }

  // ---------------------------------------------------------------- replacing

  /** `strings.ReplaceAll(s, [c], w)`. */
  function Replace(s: string, c: char, w: string): string {
    if s == "" then "" else (if s[0] == c then w else [s[0]]) + Replace(s[1..], c, w)
  }

  lemma {:induction false} ReplaceConcat(a: string, b: string, c: char, w: string)
    ensures Replace(a + b, c, w) == Replace(a, c, w) + Replace(b, c, w)
  {
    if a == "" {
      assert a + b == b;
    } else {
      assert (a + b)[1..] == a[1..] + b;
      ReplaceConcat(a[1..], b, c, w);
    }
  }

  // ---------------------------------------------------------------- decimal numbers

  function DigitChar(d: nat): (c: char)
    requires d < 10
    ensures '0' <= c <= '9' && DigitValue(c) == d
  {
    '0' + d as char
  }

  function DigitValue(c: char): (d: nat)
    requires '0' <= c <= '9'
    ensures d < 10
  {
    (c - '0') as nat
  }

  predicate IsDigit(c: char) {
    '0' <= c <= '9'
  }

  /** `strconv.Itoa` for a number that is not negative. */
  function Decimal(n: nat): (s: string)
    ensures s != ""
    ensures forall c :: c in s ==> IsDigit(c)
  {
    if n < 10 then [DigitChar(n)] else Decimal(n / 10) + [DigitChar(n % 10)]
  }

  function DecimalValue(s: string): nat
    requires forall c :: c in s ==> IsDigit(c)
  {
    if s == "" then 0
    else
      assert forall c :: c in s[..|s| - 1] ==> c in s;
      var last := s[|s| - 1];
      assert last in s && IsDigit(last);
      10 * DecimalValue(s[..|s| - 1]) + DigitValue(last)
  }

  lemma {:induction false} DecimalRoundTrip(n: nat)
    ensures DecimalValue(Decimal(n)) == n
  {
    if n >= 10 {
      DecimalRoundTrip(n / 10);
      var s := Decimal(n);
      assert s[..|s| - 1] == Decimal(n / 10);
    }
  }

  /** `strconv.Itoa`. */
  function Itoa(n: int): (s: string)
    ensures s != ""
    ensures forall c :: c in s ==> IsDigit(c) || c == '-'
  {
    if n < 0 then "-" + Decimal(-n) else Decimal(n)
  }

  lemma DecimalInjective(m: nat, n: nat)
    requires Decimal(m) == Decimal(n)
    ensures m == n
  {
    DecimalRoundTrip(m);
    DecimalRoundTrip(n);
  }

  lemma SignShows(n: int)
    ensures n < 0 <==> Itoa(n)[0] == '-'
    ensures n < 0 ==> Itoa(n)[1..] == Decimal(-n)
  {
    if n >= 0 { assert Decimal(n)[0] in Decimal(n); }
  }

  /** Two numbers never share a decimal text. */
  lemma ItoaInjective(m: int, n: int)
    requires Itoa(m) == Itoa(n)
    ensures m == n
  {
    SignShows(m);
    SignShows(n);
    if m < 0 { DecimalInjective(-m, -n); } else { DecimalInjective(m, n); }
  }

  predicate AllDigits(s: string) {
    forall i :: 0 <= i < |s| ==> IsDigit(s[i])
  }

  lemma DigitsByIndex(s: string)
    ensures AllDigits(s) <==> forall c :: c in s ==> IsDigit(c)
  {
    forall i | 0 <= i < |s| ensures s[i] in s {}
  }

  /** `strconv.Atoi`: an optional sign and digits, within 64 bits. */
  function Atoi(s: string): Option<int> {
    var signed := s != "" && (s[0] == '+' || s[0] == '-');
    var digits := if signed then s[1..] else s;
    DigitsByIndex(digits);
    if digits == "" || !AllDigits(digits) then None
    else
      var n: int := DecimalValue(digits);
      var value := if signed && s[0] == '-' then -n else n;
      if -0x8000_0000_0000_0000 <= value < 0x8000_0000_0000_0000 then Some(value) else None
  }

  // ---------------------------------------------------------------- text order

  /** The order of `memcmp`, which SQLite's BINARY collation uses: a proper prefix
      comes first, otherwise the first difference decides. */
  predicate Less(a: string, b: string) {
    if b == "" then false
    else if a == "" then true
    else a[0] < b[0] || (a[0] == b[0] && Less(a[1..], b[1..]))
  }

  predicate AtMost(a: string, b: string) {
    !Less(b, a)
  }

  lemma {:induction false} LessTotal(a: string, b: string)
    ensures a == b || Less(a, b) || Less(b, a)
    ensures !(Less(a, b) && Less(b, a))
    ensures !Less(a, a)
  {
    if a != "" {
      LessTotal(a[1..], a[1..]);
      if b != "" {
        LessTotal(a[1..], b[1..]);
        assert a == [a[0]] + a[1..] && b == [b[0]] + b[1..];
      }
    }
  }

  lemma {:induction false} LessTransitive(a: string, b: string, c: string)
    requires Less(a, b) && Less(b, c)
    ensures Less(a, c)
  {
    if a != "" && a[0] == b[0] && b[0] == c[0] {
      LessTransitive(a[1..], b[1..], c[1..]);
    }
  }

  /** Only what follows a shared beginning is compared. */
  lemma {:induction false} LessAfterPrefix(p: string, a: string, b: string)
    ensures Less(p + a, p + b) == Less(a, b)
  {
    if p == "" {
      assert p + a == a && p + b == b;
    } else {
      assert (p + a)[1..] == p[1..] + a && (p + b)[1..] == p[1..] + b;
      LessAfterPrefix(p[1..], a, b);
    }
  }

  /** A difference in beginnings of equal length decides, whatever follows. */
  lemma {:induction false} LessEqualLength(p: string, q: string, a: string, b: string)
    requires |p| == |q| && Less(p, q)
    ensures Less(p + a, q + b)
  {
    assert (p + a)[1..] == p[1..] + a && (q + b)[1..] == q[1..] + b;
    if p[0] == q[0] {
      LessEqualLength(p[1..], q[1..], a, b);
    }
  }
}
