/** Identifiers of runs, events and queued rows: the clock in milliseconds and in nanoseconds. */
module Identifiers {
  import opened Text
  import opened Timestamps

  const UNIX_NANO_END: nat := 0x8000_0000_0000_0000

  function HexChar(d: nat): char
    requires d < 16
  {
    if d < 10 then '0' + d as char else 'a' + (d - 10) as char
  }

  function Pow16(w: nat): (p: nat)
    ensures p > 0
  {
    if w == 0 then 1 else 16 * Pow16(w - 1)
  }

  /** `%016x`, for the width. */
  function HexDigits(n: nat, w: nat): (s: string)
    ensures |s| == w
  {
    if w == 0 then "" else HexDigits(n / 16, w - 1) + [HexChar(n % 16)]
  }

  lemma {:induction false} HexDigitsOrder(a: nat, b: nat, w: nat)
    requires a < b < Pow16(w)
    ensures Less(HexDigits(a, w), HexDigits(b, w))
  {
    if a / 16 < b / 16 {
      HexDigitsOrder(a / 16, b / 16, w - 1);
      LessEqualLength(HexDigits(a / 16, w - 1), HexDigits(b / 16, w - 1), [HexChar(a % 16)], [HexChar(b % 16)]);
    } else {
      LessAfterPrefix(HexDigits(a / 16, w - 1), [HexChar(a % 16)], [HexChar(b % 16)]);
    }
  }

  /** `%0*d` of a number that is not negative. */
  function Padded(n: nat, w: nat): string {
    if n < Pow10(w) then Digits(n, w) else Decimal(n)
  }

  /** `NewID`, from the nanoseconds since 1970 that `UnixNano` tells. */
  function NewID(nanos: nat): string {
    Padded(nanos / 1_000_000, 13) + ("-" + HexDigits(nanos, 16))
  }

  lemma Ranges()
    ensures Pow10(13) == 10_000_000_000_000
    ensures Pow16(16) == 0x1_0000_0000_0000_0000
  {
    NinePlaces();
    assert Pow10(11) == 100_000_000_000;
    assert Pow16(2) == 0x100 && Pow16(4) == 0x1_0000 by { assert Pow16(1) == 16; }
    assert Pow16(6) == 0x100_0000;
    assert Pow16(8) == 0x1_0000_0000;
    assert Pow16(10) == 0x100_0000_0000;
    assert Pow16(12) == 0x1_0000_0000_0000;
    assert Pow16(14) == 0x100_0000_0000_0000;
  }

  lemma InRange(n: nat)
    requires n < UNIX_NANO_END
    ensures n < Pow16(16) && n / 1_000_000 < Pow10(13)
  {
    Ranges();
  }

  lemma PaddedOrder(m: nat, n: nat, w: nat)
    requires m <= n < Pow10(w)
    ensures |Padded(m, w)| == |Padded(n, w)| && (Padded(m, w) == Padded(n, w) || Less(Padded(m, w), Padded(n, w)))
  {
    if m < n { DigitsOrder(m, n, w); }
  }

  lemma JoinedOrder(p: string, q: string, x: string, y: string)
    requires |p| == |q| && (p == q || Less(p, q)) && Less(x, y)
    ensures Less(p + ("-" + x), q + ("-" + y))
  {
    LessAfterPrefix("-", x, y);
    if p == q {
      LessAfterPrefix(p, "-" + x, "-" + y);
    } else {
      LessEqualLength(p, q, "-" + x, "-" + y);
    }
  }

  lemma LaterIsGreater(a: nat, b: nat)
    requires a < b < UNIX_NANO_END
    ensures Less(NewID(a), NewID(b))
  {
    InRange(b);
    HexDigitsOrder(a, b, 16);
    assert a / 1_000_000 <= b / 1_000_000;
    PaddedOrder(a / 1_000_000, b / 1_000_000, 13);
    JoinedOrder(Padded(a / 1_000_000, 13), Padded(b / 1_000_000, 13), HexDigits(a, 16), HexDigits(b, 16));
  }

  /** Two identifiers are the same exactly when the clock has not moved by a nanosecond, and
      otherwise they are ordered as the clock. */
  lemma IdentifiersFollowTheClock(a: nat, b: nat)
    requires a < UNIX_NANO_END && b < UNIX_NANO_END
    ensures NewID(a) == NewID(b) <==> a == b
    ensures Less(NewID(a), NewID(b)) <==> a < b
  {
    LessTotal(NewID(a), NewID(b));
    if a < b {
      LaterIsGreater(a, b);
    } else if b < a {
      LaterIsGreater(b, a);
    }
  }

  function HexValue(c: char): nat {
    if '0' <= c <= '9' then (c - '0') as nat else if 'a' <= c <= 'f' then 10 + (c - 'a') as nat else 0
  }

  /** The number that a string of hexadecimal digits is. */
  function HexIn(s: string): nat {
    if s == "" then 0 else 16 * HexIn(s[..|s| - 1]) + HexValue(s[|s| - 1])
  }

  lemma {:induction false} HexRoundTrip(n: nat, w: nat)
    requires n < Pow16(w)
    ensures HexIn(HexDigits(n, w)) == n
  {
    if w > 0 {
      HexRoundTrip(n / 16, w - 1);
      var s := HexDigits(n, w);
      assert s[..|s| - 1] == HexDigits(n / 16, w - 1);
    }
  }

  lemma PartsOfID(p: string, h: string)
    requires |p| == 13 && |h| == 16
    ensures var s := p + ("-" + h); |s| == 30 && s[13] == '-' && s[..13] == p && s[14..] == h
  {
  }

  /** An identifier is the milliseconds in 13 digits, a hyphen, and the nanoseconds in 16 hexadecimal
      digits. */
  lemma IdentifierIsTheClock(nanos: nat)
    requires nanos < UNIX_NANO_END
    ensures var s := NewID(nanos);
      |s| == 30 && s[13] == '-' && NumberIn(s[..13]) == nanos / 1_000_000 && HexIn(s[14..]) == nanos
  {
    InRange(nanos);
    var s := NewID(nanos);
    NumberOfDigits(nanos / 1_000_000, 13);
    HexRoundTrip(nanos, 16);
    PartsOfID(Digits(nanos / 1_000_000, 13), HexDigits(nanos, 16));
  }
}
