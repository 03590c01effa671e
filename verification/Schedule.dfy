/** A list of clock times on its way to calendar expressions, to a systemd timer and back. */
module Schedule {
  import opened Config
  import opened Sequences
  import opened Text
  import opened Wrappers

  // ---------------------------------------------------------------- clocks

  /** A number below the limit in two characters: two digits, a plus sign and a digit, or minus
      zero. */
  predicate HalfClock(a: char, b: char, limit: nat) {
    && IsDigit(b)
    && (if IsDigit(a) then 10 * DigitValue(a) + DigitValue(b) < limit else a == '+' || (a == '-' && b == '0'))
  }

  /** What is accepted as a clock: besides two digits on each side, some with a sign. */
  predicate ValidClock(value: string) {
    |value| == 5 && HalfClock(value[0], value[1], 24) && value[2] == ':' && HalfClock(value[3], value[4], 60)
  }

  lemma AtoiOfTwo(h: string, limit: nat)
    requires |h| == 2 && 10 <= limit
    ensures HalfClock(h[0], h[1], limit) <==> Atoi(h).Some? && 0 <= Atoi(h).value < limit
  {
    assert h[..1] == [h[0]] && h[1..] == [h[1]];
    assert [h[0]][..0] == "" && [h[1]][..0] == "";
    if AllDigits(h) {
      DigitsByIndex(h);
      assert DecimalValue([h[0]]) == DigitValue(h[0]);
      assert DecimalValue(h) == 10 * DecimalValue(h[..1]) + DigitValue(h[1]);
    } else if AllDigits([h[1]]) {
      assert IsDigit([h[1]][0]);
      assert DecimalValue([h[1]]) == DigitValue(h[1]);
    }
  }

  /** `validClock`. */
  method IsClock(value: string) returns (valid: bool)
    ensures valid <==> ValidClock(value)
  {
    if |value| != 5 || value[2] != ':' { return false; }
    var hour, minute := Atoi(value[..2]), Atoi(value[3..]);
    AtoiOfTwo(value[..2], 24);
    AtoiOfTwo(value[3..], 60);
    return hour.Some? && minute.Some? && hour.value >= 0 && hour.value < 24 && minute.value >= 0 && minute.value < 60;
  }

  /** A clock time with signs passes. */
  lemma SignedClockPasses()
    ensures ValidClock("+1:-0") && Atoi("+1") == Some(1) && Atoi("-0") == Some(0)
  {
    assert "+1"[1..] == "1" && "-0"[1..] == "0";
    assert DecimalValue("1"[..0]) == 0 && DecimalValue("0"[..0]) == 0;
  }

  predicate ClockChar(c: char) {
    IsDigit(c) || c == '+' || c == '-' || c == ':'
  }

  lemma ClockChars(value: string)
    requires ValidClock(value)
    ensures forall c :: c in value ==> ClockChar(c)
  {
    forall i | 0 <= i < |value| ensures ClockChar(value[i]) {
      assert i == 0 || i == 1 || i == 2 || i == 3 || i == 4;
    }
  }

  // ---------------------------------------------------------------- the list that is typed in

  /** The values between commas, trimmed, without the empty ones. */
  function Kept(parts: seq<string>): seq<string> {
    if parts == [] then []
    else Kept(parts[..|parts| - 1])
         + if TrimSpace(parts[|parts| - 1]) != "" then [TrimSpace(parts[|parts| - 1])] else []
  }

  method SplitValues(raw: string) returns (values: seq<string>)
    ensures values == Kept(Split(raw, ','))
  {
    values := [];
    var parts := Split(raw, ',');
    for i := 0 to |parts|
      invariant values == Kept(parts[..i])
    {
      var value := TrimSpace(parts[i]);
      if value != "" { values := values + [value]; }
      assert parts[..i + 1][..i] == parts[..i];
    }
    assert parts[..|parts|] == parts;
  }

  predicate Repeats(values: seq<string>, i: int)
    requires 0 <= i < |values|
  {
    exists k :: 0 <= k < i && values[k] == values[i]
  }

  /** The first occurrence of each of the first `n` values. */
  function FirstSeen(values: seq<string>, n: nat): seq<string>
    requires n <= |values|
  {
    if n == 0 then [] else FirstSeen(values, n - 1) + if Repeats(values, n - 1) then [] else [values[n - 1]]
  }

  function Expression(clock: string): string {
    "*-*-* " + clock + ":00"
  }

  function Expressions(clocks: seq<string>): (r: seq<string>)
    ensures |r| == |clocks|
  {
    seq(|clocks|, i requires 0 <= i < |clocks| => Expression(clocks[i]))
  }

  /** What the typed text is turned into: none if there is no value or one of them is no clock. */
  function FromClocks(raw: string): Option<seq<string>> {
    FromValues(Kept(Split(raw, ',')))
  }

  predicate ClockAt(values: seq<string>, i: int)
    requires 0 <= i < |values|
  {
    ValidClock(values[i])
  }

  function FromValues(values: seq<string>): Option<seq<string>> {
    if values == [] || exists i :: 0 <= i < |values| && !ClockAt(values, i) then None
    else Some(Expressions(FirstSeen(values, |values|)))
  }

  lemma ExpressionsOneMore(clocks: seq<string>, clock: string)
    ensures Expressions(clocks + [clock]) == Expressions(clocks) + [Expression(clock)]
  {
  }

  /** The loop over the values. */
  method Build(values: seq<string>) returns (r: Option<seq<string>>)
    requires values != []
    ensures r == FromValues(values)
  {
    var expressions: seq<string> := [];
    var seen: set<string> := {};
    for i := 0 to |values|
      invariant expressions == Expressions(FirstSeen(values, i))
      invariant seen == set k | 0 <= k < i :: values[k]
      invariant forall k :: 0 <= k < i ==> ClockAt(values, k)
    {
      var valid := IsClock(values[i]);
      assert valid <==> ClockAt(values, i);
      if !valid { return None; }
      assert Repeats(values, i) <==> values[i] in seen;
      ExpressionsOneMore(FirstSeen(values, i), values[i]);
      if values[i] !in seen {
        expressions := expressions + [Expression(values[i])];
        seen := seen + {values[i]};
      } else {
        assert FirstSeen(values, i) + [] == FirstSeen(values, i);
      }
    }
    return Some(expressions);
  }

  /** `clocksToExpressions`. */
  method ClocksToExpressions(raw: string) returns (r: Option<seq<string>>)
    ensures r == FromClocks(raw)
  {
    var values := SplitValues(raw);
    if |values| == 0 { return None; }
    r := Build(values);
  }

  /** Each value once. */
  lemma {:induction false} FirstSeenIsEachOnce(values: seq<string>, n: nat)
    requires n <= |values|
    ensures Distinct(FirstSeen(values, n))
    ensures forall v :: v in FirstSeen(values, n) <==> exists k :: 0 <= k < n && values[k] == v
  {
    if n > 0 {
      FirstSeenIsEachOnce(values, n - 1);
      var older := FirstSeen(values, n - 1);
      forall i | 0 <= i < |older| ensures older[i] == values[n - 1] ==> Repeats(values, n - 1) {
        assert older[i] in older;
      }
      var all := FirstSeen(values, n);
      forall i, j | 0 <= i < j < |all| ensures Differ(all, i, j) {
        if j < |older| { assert Differ(older, i, j); }
      }
    }
  }

  /** In the order of first occurrences: what comes later in the list comes from later values. */
  lemma {:induction false} FirstSeenKeepsOrder(values: seq<string>, m: nat, n: nat)
    requires m <= n <= |values|
    ensures FirstSeen(values, m) <= FirstSeen(values, n)
  {
    if m < n { FirstSeenKeepsOrder(values, m, n - 1); }
  }

  /** Values that are already distinct stay as they are. */
  lemma {:induction false} FirstSeenOfDistinct(values: seq<string>, n: nat)
    requires n <= |values| && Distinct(values)
    ensures FirstSeen(values, n) == values[..n]
  {
    if n > 0 {
      FirstSeenOfDistinct(values, n - 1);
      forall k | 0 <= k < n - 1 ensures values[k] != values[n - 1] {
        assert Differ(values, k, n - 1);
      }
    }
  }

  // ---------------------------------------------------------------- the timer

  function Lines(expressions: seq<string>): string {
    if expressions == [] then ""
    else Lines(expressions[..|expressions| - 1]) + "OnCalendar=" + expressions[|expressions| - 1] + "\n"
  }

  /** An expression that systemd can be given. */
  predicate PlainAt(xs: seq<string>, i: int)
    requires 0 <= i < |xs|
  {
    TrimSpace(xs[i]) != "" && '\n' !in TrimSpace(xs[i]) && '\r' !in TrimSpace(xs[i])
  }

  function Trimmed(xs: seq<string>): (r: seq<string>)
    ensures |r| == |xs|
  {
    seq(|xs|, i requires 0 <= i < |xs| => TrimSpace(xs[i]))
  }

  function LinesOf(parts: seq<string>): Option<string> {
    if forall i :: 0 <= i < |parts| ==> PlainAt(parts, i) then Some(Lines(Trimmed(parts))) else None
  }

  /** The calendar lines of a timer: none if some expression is empty or has a line break. */
  function CalendarLines(expression: string): Option<string> {
    LinesOf(Split(if expression == "" then "*-*-* 02:00:00" else expression, ';'))
  }

  /** The loop over the expressions. */
  method BuildLines(parts: seq<string>) returns (r: Option<string>)
    ensures r == LinesOf(parts)
  {
    var lines := "";
    for i := 0 to |parts|
      invariant lines == Lines(Trimmed(parts[..i])) && forall k :: 0 <= k < i ==> PlainAt(parts, k)
    {
      var value := TrimSpace(parts[i]);
      var broken := value == "" || '\r' in value || '\n' in value;
      assert broken <==> !PlainAt(parts, i);
      if broken { return None; }
      lines := lines + "OnCalendar=" + value + "\n";
      LinesOneMore(parts, i);
    }
    assert parts[..|parts|] == parts;
    return Some(lines);
  }

  /** `timerTrigger`. */
  method TimerTrigger(kind: string, expression: string) returns (r: Option<string>)
    ensures kind == "" || kind == "calendar" ==> r == CalendarLines(expression)
    ensures kind == "interval" ==>
      r == if '\n' in expression || '\r' in expression then None
           else Some("OnBootSec=" + expression + "\nOnUnitActiveSec=" + expression + "\n")
    ensures kind !in {"", "calendar", "interval"} ==> r == None
  {
    if kind == "" || kind == "calendar" {
      r := BuildLines(Split(if expression == "" then "*-*-* 02:00:00" else expression, ';'));
    } else if kind == "interval" {
      if '\r' in expression || '\n' in expression { return None; }
      return Some("OnBootSec=" + expression + "\nOnUnitActiveSec=" + expression + "\n");
    } else {
      return None;
    }
  }

  lemma LinesOneMore(parts: seq<string>, i: nat)
    requires i < |parts|
    ensures Lines(Trimmed(parts[..i + 1])) == Lines(Trimmed(parts[..i])) + "OnCalendar=" + TrimSpace(parts[i]) + "\n"
  {
    var t := Trimmed(parts[..i + 1]);
    assert t[..i] == Trimmed(parts[..i]) && t[i] == TrimSpace(parts[i]);
  }

  // ---------------------------------------------------------------- back to the list

  function Close(word: string): seq<string> {
    if word == "" then [] else [word]
  }

  /** `strings.Fields`, with the word under construction. */
  function FieldsFrom(s: string, word: string): seq<string> {
    if s == "" then Close(word)
    else if IsSpace(s[0]) then Close(word) + FieldsFrom(s[1..], "")
    else FieldsFrom(s[1..], word + [s[0]])
  }

  /** The clock in one expression, if its last field is one. */
  function ClockOf(expression: string): Option<string> {
    var fields := FieldsFrom(expression, "");
    if fields == [] then None
    else
      var clock := TrimSuffix(fields[|fields| - 1], ":00");
      if ValidClock(clock) then Some(clock) else None
  }

  function ClocksOf(parts: seq<string>): seq<string> {
    if parts == [] then []
    else
      var n := |parts| - 1;
      ClocksOf(parts[..n]) + match ClockOf(parts[n]) case Some(c) => [c] case None => []
  }

  /** What is offered as the default when the schedule is edited again. */
  function Offered(kind: string, expression: string, fallback: string): string {
    if kind != "" && kind != "calendar" then fallback
    else
      var clocks := ClocksOf(Split(expression, ';'));
      if clocks == [] then fallback else Join(clocks, ",")
  }

  /** `scheduleClocksDefault`. */
  method ScheduleClocksDefault(kind: string, expression: string, fallback: string) returns (r: string)
    ensures r == Offered(kind, expression, fallback)
  {
    if kind != "calendar" && kind != "" { return fallback; }
    var values := Split(expression, ';');
    var clocks: seq<string> := [];
    for i := 0 to |values|
      invariant clocks == ClocksOf(values[..i])
    {
      assert values[..i + 1][..i] == values[..i];
      var parts := FieldsFrom(values[i], "");
      if |parts| > 0 {
        var clock := TrimSuffix(parts[|parts| - 1], ":00");
        var valid := IsClock(clock);
        if valid { clocks := clocks + [clock]; }
      }
    }
    assert values[..|values|] == values;
    if |clocks| == 0 { return fallback; }
    return Join(clocks, ",");
  }

  // ---------------------------------------------------------------- round trips

  lemma ClockIsTrimmed(clock: string)
    requires ValidClock(clock)
    ensures TrimSpace(clock) == clock && ',' !in clock && clock != ""
  {
    ClockChars(clock);
    assert clock[0] in clock && clock[4] in clock;
    TrimSpaceFixed(clock);
  }

  lemma ExpressionChars(clock: string)
    requires ValidClock(clock)
    ensures var e := Expression(clock); ';' !in e && '\n' !in e && '\r' !in e && e != "" && TrimSpace(e) == e
  {
    ClockChars(clock);
    var e := Expression(clock);
    forall c | c in e ensures c != ';' && c != '\n' && c != '\r' {
      assert c in "*-*-* " || c in clock || c in ":00";
    }
    assert e[0] == '*' && e[|e| - 1] == '0';
    TrimSpaceFixed(e);
  }

  lemma {:induction false} WordThen(w: string, rest: string, word: string)
    requires (forall c :: c in w ==> !IsSpace(c)) && (rest == "" || IsSpace(rest[0]))
    ensures FieldsFrom(w + rest, word) == Close(word + w) + if rest == "" then [] else FieldsFrom(rest[1..], "")
  {
    var s := w + rest;
    if w == "" {
      assert s == rest && word + w == word;
    } else {
      assert s[0] == w[0] && w[0] in w && s[1..] == w[1..] + rest;
      assert forall c :: c in w[1..] ==> c in w;
      WordThen(w[1..], rest, word + [w[0]]);
      assert word + [w[0]] + w[1..] == word + w;
    }
  }

  lemma ClockIsFound(clock: string)
    requires ValidClock(clock)
    ensures ClockOf(Expression(clock)) == Some(clock)
  {
    var date, last := "*-*-*", clock + ":00";
    var rest := [' '] + last;
    assert Expression(clock) == date + rest && rest[1..] == last && last + "" == last;
    ClockChars(clock);
    forall c | c in last ensures !IsSpace(c) {
      assert c in clock || c in ":00";
    }
    WordThen(date, rest, "");
    WordThen(last, "", "");
    assert "" + date == date && "" + last == last;
    assert FieldsFrom(Expression(clock), "") == [date] + [last];
    assert last[|last| - 3..] == ":00" && last[..|last| - 3] == clock;
  }

  predicate AllClocks(clocks: seq<string>) {
    forall i :: 0 <= i < |clocks| ==> ClockAt(clocks, i)
  }

  predicate FoundAt(parts: seq<string>, clocks: seq<string>, i: int)
    requires 0 <= i < |parts| == |clocks|
  {
    ClockOf(parts[i]) == Some(clocks[i])
  }

  lemma {:induction false} ClocksAreFound(parts: seq<string>, clocks: seq<string>, n: nat)
    requires n <= |parts| == |clocks| && forall i :: 0 <= i < |parts| ==> FoundAt(parts, clocks, i)
    ensures ClocksOf(parts[..n]) == clocks[..n]
  {
    if n > 0 {
      ClocksAreFound(parts, clocks, n - 1);
      assert parts[..n][..n - 1] == parts[..n - 1];
      assert FoundAt(parts, clocks, n - 1);
      assert clocks[..n] == clocks[..n - 1] + [clocks[n - 1]];
    }
  }

  lemma {:induction false} ClocksAreKept(clocks: seq<string>, n: nat)
    requires n <= |clocks| && AllClocks(clocks)
    ensures Kept(clocks[..n]) == clocks[..n]
  {
    if n > 0 {
      ClocksAreKept(clocks, n - 1);
      assert clocks[..n][..n - 1] == clocks[..n - 1];
      assert ClockAt(clocks, n - 1);
      ClockIsTrimmed(clocks[n - 1]);
      assert clocks[..n] == clocks[..n - 1] + [clocks[n - 1]];
    }
  }

  lemma JoinedExpressions(clocks: seq<string>)
    requires AllClocks(clocks) && clocks != []
    ensures var e := Expressions(clocks);
      && Split(Join(e, ";"), ';') == e
      && Trimmed(e) == e && (forall i :: 0 <= i < |e| ==> PlainAt(e, i)) && Join(e, ";") != ""
  {
    var e := Expressions(clocks);
    forall i | 0 <= i < |e| ensures ';' !in e[i] && PlainAt(e, i) && Trimmed(e)[i] == e[i] && e[i] != "" {
      assert ClockAt(clocks, i);
      ExpressionChars(clocks[i]);
    }
    SplitJoin(e, ';');
    assert e[0] != "" && Split("", ';') == [""];
  }

  /** The expressions of any clocks pass the calendar check, and the timer gets one line for each. */
  lemma ExpressionsMakeATimer(clocks: seq<string>)
    requires AllClocks(clocks) && clocks != []
    ensures var joined := Join(Expressions(clocks), ";");
      joined != "" && CalendarOk(joined) && CalendarLines(joined) == Some(Lines(Expressions(clocks)))
  {
    var e := Expressions(clocks);
    JoinedExpressions(clocks);
    forall x | x in Split(Join(e, ";"), ';') ensures TrimSpace(x) != "" {
      var i :| 0 <= i < |e| && e[i] == x;
      assert PlainAt(e, i);
    }
  }

  /** The clocks that are offered for editing are those the expressions were made of, and typing
      them in again gives the same expressions. */
  lemma OfferedClocksComeBack(clocks: seq<string>, kind: string, fallback: string)
    requires AllClocks(clocks) && clocks != [] && Distinct(clocks) && kind in {"", "calendar"}
    ensures var offered := Offered(kind, Join(Expressions(clocks), ";"), fallback);
      && offered == Join(clocks, ",")
      && FromClocks(offered) == Some(Expressions(clocks))
  {
    var e := Expressions(clocks);
    JoinedExpressions(clocks);
    forall i | 0 <= i < |e| ensures FoundAt(e, clocks, i) {
      assert ClockAt(clocks, i);
      ClockIsFound(clocks[i]);
    }
    ClocksAreFound(e, clocks, |clocks|);
    assert e[..|clocks|] == e && clocks[..|clocks|] == clocks;
    forall x | x in clocks ensures ',' !in x {
      var i :| 0 <= i < |clocks| && clocks[i] == x;
      assert ClockAt(clocks, i);
      ClockIsTrimmed(x);
    }
    SplitJoin(clocks, ',');
    ClocksAreKept(clocks, |clocks|);
    FirstSeenOfDistinct(clocks, |clocks|);
  }

  lemma ChosenAreClocks(values: seq<string>)
    requires FromValues(values).Some?
    ensures var clocks := FirstSeen(values, |values|);
      AllClocks(clocks) && clocks != [] && Distinct(clocks)
  {
    var clocks := FirstSeen(values, |values|);
    FirstSeenIsEachOnce(values, |values|);
    assert values[0] in clocks;
    forall i | 0 <= i < |clocks| ensures ClockAt(clocks, i) {
      assert clocks[i] in clocks;
      var k :| 0 <= k < |values| && values[k] == clocks[i];
      assert ClockAt(values, k);
    }
  }

  /** For every list of clocks that is accepted: the stored expression passes the calendar check,
      the timer has exactly one line for each distinct clock, in the order in which they were first
      typed, and what is offered for editing leads to the same expressions. */
  lemma ScheduleRoundTrip(raw: string, kind: string, fallback: string)
    requires FromClocks(raw).Some? && kind in {"", "calendar"}
    ensures var values := Kept(Split(raw, ','));
      var clocks := FirstSeen(values, |values|);
      var stored := Join(FromClocks(raw).value, ";");
      && Distinct(clocks) && (forall v :: v in clocks <==> v in values)
      && stored != "" && CalendarOk(stored)
      && CalendarLines(stored) == Some(Lines(Expressions(clocks)))
      && FromClocks(Offered(kind, stored, fallback)) == FromClocks(raw)
  {
    var values := Kept(Split(raw, ','));
    var clocks := FirstSeen(values, |values|);
    ChosenAreClocks(values);
    FirstSeenIsEachOnce(values, |values|);
    ExpressionsMakeATimer(clocks);
    OfferedClocksComeBack(clocks, kind, fallback);
  }

  // ---------------------------------------------------------------- when a timer fires

  datatype Moment = Moment(year: nat, month: nat, day: nat, hour: nat, minute: nat, second: nat)

  function ValueOf(field: string): nat
    requires AllDigits(field)
  {
    if field == "" then 0
    else
      assert forall i :: 0 <= i < |field| - 1 ==> field[..|field| - 1][i] == field[i];
      10 * ValueOf(field[..|field| - 1]) + DigitValue(field[|field| - 1])
  }

  /** A field of a calendar expression: any value, or one number. */
  predicate FieldFits(field: string, value: nat) {
    field == "*" || (field != "" && AllDigits(field) && ValueOf(field) == value)
  }

  predicate FieldsFit(fields: seq<string>, a: nat, b: nat, c: nat) {
    |fields| == 3 && FieldFits(fields[0], a) && FieldFits(fields[1], b) && FieldFits(fields[2], c)
  }

  /** How systemd reads an expression of date and time: year, month and day between hyphens, a blank,
      hour, minute and second between colons. */
  predicate Fires(expression: string, t: Moment) {
    var parts := Split(expression, ' ');
    && |parts| == 2
    && FieldsFit(Split(parts[0], '-'), t.year, t.month, t.day)
    && FieldsFit(Split(parts[1], ':'), t.hour, t.minute, t.second)
  }

  predicate CalendarLineFires(line: string, t: Moment) {
    "OnCalendar=" <= line && Fires(line[11..], t)
  }

  /** A timer fires when one of its calendar lines does. */
  predicate TimerFires(timer: string, t: Moment) {
    exists line :: line in Split(timer, '\n') && CalendarLineFires(line, t)
  }

  /** The value is this time of day, in two digits each. */
  predicate IsTime(value: string, hour: nat, minute: nat) {
    && |value| == 5 && IsDigit(value[0]) && IsDigit(value[1]) && value[2] == ':'
    && IsDigit(value[3]) && IsDigit(value[4])
    && 10 * DigitValue(value[0]) + DigitValue(value[1]) == hour
    && 10 * DigitValue(value[3]) + DigitValue(value[4]) == minute
  }

  /** One of the values that were typed in, between commas and without the white space around it. */
  ghost predicate Typed(raw: string, value: string) {
    value != "" && exists part :: part in Split(raw, ',') && TrimSpace(part) == value
  }

  lemma TwoDigits(h: string, value: nat)
    requires |h| == 2
    ensures FieldFits(h, value) <==>
            IsDigit(h[0]) && IsDigit(h[1]) && 10 * DigitValue(h[0]) + DigitValue(h[1]) == value
  {
    if IsDigit(h[0]) && IsDigit(h[1]) {
      assert h[..1] == [h[0]] && h[..1][..0] == "";
      assert AllDigits(h) && AllDigits(h[..1]) && ValueOf(h[..1]) == DigitValue(h[0]);
    }
  }

  lemma AnyDate(t: Moment)
    ensures FieldsFit(Split("*-*-*", '-'), t.year, t.month, t.day)
  {
    assert "*-*-*" == "*" + ['-'] + ("*" + ['-'] + "*");
    SplitWhole("*", '-');
    SplitConcat("*", "*", '-');
    SplitConcat("*", "*" + ['-'] + "*", '-');
  }

  lemma ClockParts(clock: string)
    requires ValidClock(clock)
    ensures Split(clock + ":00", ':') == [clock[..2], clock[3..], "00"]
  {
    var h, m := clock[..2], clock[3..];
    assert clock + ":00" == h + [':'] + (m + [':'] + "00");
    forall i | 0 <= i < 2 ensures h[i] != ':' && m[i] != ':' && "00"[i] != ':' {
      assert h[i] == clock[i] && m[i] == clock[3 + i];
    }
    SplitWhole(h, ':');
    SplitWhole(m, ':');
    SplitWhole("00", ':');
    SplitConcat(m, "00", ':');
    SplitConcat(h, m + [':'] + "00", ':');
  }

  lemma ExpressionParts(clock: string)
    requires ValidClock(clock)
    ensures Split(Expression(clock), ' ') == ["*-*-*", clock + ":00"]
  {
    ClockChars(clock);
    var last := clock + ":00";
    forall c | c in last ensures c != ' ' {
      assert c in clock || c in ":00";
    }
    assert Expression(clock) == "*-*-*" + [' '] + last;
    SplitWhole("*-*-*", ' ');
    SplitWhole(last, ' ');
    SplitConcat("*-*-*", last, ' ');
  }

  /** An expression fires at its clock's time, on every date, at the full minute. */
  lemma ExpressionFires(clock: string, t: Moment)
    requires ValidClock(clock)
    ensures Fires(Expression(clock), t) <==> IsTime(clock, t.hour, t.minute) && t.second == 0
  {
    ExpressionParts(clock);
    ClockParts(clock);
    AnyDate(t);
    TwoDigits(clock[..2], t.hour);
    TwoDigits(clock[3..], t.minute);
    TwoDigits("00", t.second);
  }

  lemma {:induction false} KeptAreTyped(parts: seq<string>, v: string)
    ensures v in Kept(parts) <==> v != "" && exists part :: part in parts && TrimSpace(part) == v
  {
    if parts != [] {
      var n := |parts| - 1;
      KeptAreTyped(parts[..n], v);
      assert forall part :: part in parts <==> part in parts[..n] || part == parts[n];
    }
  }

  lemma Regroup(a: string, b: string, c: string, d: string, e: string)
    ensures a + b + c + d + e == a + (b + c + d + e)
  {
  }

  lemma LinesByLast(e: seq<string>)
    requires e != []
    ensures Lines(e) == Lines(e[..|e| - 1]) + "OnCalendar=" + e[|e| - 1] + "\n"
  {
  }

  lemma {:induction false} LinesFromFront(e: seq<string>)
    requires e != []
    ensures Lines(e) == "OnCalendar=" + e[0] + "\n" + Lines(e[1..])
  {
    var n := |e| - 1;
    LinesByLast(e);
    if n == 0 {
      assert e[..0] == [] && e[1..] == [];
    } else {
      var first, front, rest := "OnCalendar=" + e[0] + "\n", e[..n], e[1..];
      LinesFromFront(front);
      LinesByLast(rest);
      assert front[1..] == rest[..n - 1] && rest[n - 1] == e[n];
      Regroup(first, Lines(front[1..]), "OnCalendar=", e[n], "\n");
    }
  }

  /** The lines of a timer. */
  lemma {:induction false} LinesOfTimer(e: seq<string>, line: string)
    requires forall i :: 0 <= i < |e| ==> '\n' !in e[i]
    ensures line in Split(Lines(e), '\n') <==> line == "" || exists i :: 0 <= i < |e| && line == "OnCalendar=" + e[i]
  {
    if e != [] {
      var first := "OnCalendar=" + e[0];
      LinesFromFront(e);
      forall c | c in first ensures c != '\n' {
        assert c in "OnCalendar=" || c in e[0];
      }
      SplitWhole(first, '\n');
      assert "\n" == ['\n'];
      SplitConcat(first, Lines(e[1..]), '\n');
      LinesOfTimer(e[1..], line);
      assert forall i :: 0 <= i < |e| - 1 ==> e[1..][i] == e[i + 1];
      assert Split(Lines(e), '\n') == [first] + Split(Lines(e[1..]), '\n');
      OneLineMore(e, line);
    }
  }

  lemma OneLineMore(e: seq<string>, line: string)
    requires e != []
    ensures (exists i :: 0 <= i < |e| && line == "OnCalendar=" + e[i])
            <==> line == "OnCalendar=" + e[0] || exists i :: 0 <= i < |e[1..]| && line == "OnCalendar=" + e[1..][i]
  {
    if i :| 0 < i < |e| && line == "OnCalendar=" + e[i] { assert e[1..][i - 1] == e[i]; }
    if i :| 0 <= i < |e[1..]| && line == "OnCalendar=" + e[1..][i] { assert e[i + 1] == e[1..][i]; }
  }

  /** The timer of some clocks fires when one of them does. */
  lemma TimerOfClocks(clocks: seq<string>, t: Moment)
    requires AllClocks(clocks)
    ensures TimerFires(Lines(Expressions(clocks)), t) <==>
            t.second == 0 && exists i :: 0 <= i < |clocks| && IsTime(clocks[i], t.hour, t.minute)
  {
    var e := Expressions(clocks);
    var text := Lines(e);
    forall i | 0 <= i < |e|
      ensures '\n' !in e[i] && (Fires(e[i], t) <==> IsTime(clocks[i], t.hour, t.minute) && t.second == 0)
    {
      assert ClockAt(clocks, i);
      ExpressionChars(clocks[i]);
      ExpressionFires(clocks[i], t);
    }
    forall i | 0 <= i < |e|
      ensures "OnCalendar=" + e[i] in Split(text, '\n')
      ensures CalendarLineFires("OnCalendar=" + e[i], t) <==> Fires(e[i], t)
    {
      LinesOfTimer(e, "OnCalendar=" + e[i]);
      assert ("OnCalendar=" + e[i])[11..] == e[i];
    }
    if line :| line in Split(text, '\n') && CalendarLineFires(line, t) {
      LinesOfTimer(e, line);
    }
  }

  /** For every list of clocks that is accepted, the timer fires at a moment if and only if one of the
      values typed in is its hour and minute in two digits each, and its second is 0; the date does not
      matter. A value with a sign, which is accepted too, never fires. */
  lemma TimerFiresExactlyWhen(raw: string, t: Moment)
    requires FromClocks(raw).Some?
    ensures CalendarLines(Join(FromClocks(raw).value, ";")).Some?
    ensures TimerFires(CalendarLines(Join(FromClocks(raw).value, ";")).value, t) <==>
            t.second == 0 && exists value :: Typed(raw, value) && IsTime(value, t.hour, t.minute)
  {
    var values := Kept(Split(raw, ','));
    var clocks := FirstSeen(values, |values|);
    ChosenAreClocks(values);
    FirstSeenIsEachOnce(values, |values|);
    ExpressionsMakeATimer(clocks);
    TimerOfClocks(clocks, t);
    forall value ensures Typed(raw, value) <==> value in clocks {
      KeptAreTyped(Split(raw, ','), value);
    }
  }

  /** A list is accepted if and only if something was typed in and all of it are clocks. */
  lemma AcceptedExactlyWhen(raw: string)
    ensures FromClocks(raw).Some? <==>
            (exists value :: Typed(raw, value)) && forall value :: Typed(raw, value) ==> ValidClock(value)
  {
    var values := Kept(Split(raw, ','));
    forall value ensures Typed(raw, value) <==> value in values { KeptAreTyped(Split(raw, ','), value); }
    if values != [] { assert Typed(raw, values[0]); }
    forall i | 0 <= i < |values| ensures Typed(raw, values[i]) { assert values[i] in values; }
    if FromClocks(raw).Some? {
      forall value | Typed(raw, value) ensures ValidClock(value) {
        var i :| 0 <= i < |values| && values[i] == value;
        assert ClockAt(values, i);
      }
    } else if values != [] {
      var i :| 0 <= i < |values| && !ClockAt(values, i);
      assert Typed(raw, values[i]) && !ValidClock(values[i]);
    }
  }

  /** An expression that passes the check of the configuration makes a timer if and only if no part of
      it between semicolons has a line break inside. */
  lemma CheckedMakesATimerExactlyWhen(expression: string)
    requires expression != "" && CalendarOk(expression)
    ensures CalendarLines(expression).Some? <==>
            forall part :: part in Split(expression, ';') ==> '\n' !in TrimSpace(part) && '\r' !in TrimSpace(part)
  {
    var parts := Split(expression, ';');
    forall i | 0 <= i < |parts|
      ensures PlainAt(parts, i) <==> '\n' !in TrimSpace(parts[i]) && '\r' !in TrimSpace(parts[i])
    {
      assert parts[i] in parts;
    }
  }

  /** Such an expression is accepted, and its timer refused. */
  lemma BrokenExpressionPasses()
    ensures CalendarOk("a\nb") && CalendarLines("a\nb") == None
  {
    SplitWhole("a\nb", ';');
    TrimSpaceFixed("a\nb");
    assert "a\nb"[1] == '\n';
    assert !PlainAt(["a\nb"], 0);
  }
}
