/** Texts that other programs read back: the password line for PostgreSQL, the option file for
    MySQL and the shell word in the SFTP command. Each is undone by a reader written from the
    rules of the format, for every input. */
module Escaping {
  import opened Text
  import opened Wrappers

  // ---------------------------------------------------------------- the replacement chains

  function PgpassEscape(value: string): string {
    Replace(Replace(Replace(Replace(value, '\\', "\\\\"), ':', "\\:"), '\n', "\\n"), '\r', "\\r")
  }

  function MySQLConfigValue(value: string): string {
    Replace(Replace(Replace(value, '\\', "\\\\"), '\n', "\\n"), '\r', "\\r")
  }

  /** The text that stands for one character. */
  function EscapedChar(c: char, colon: bool): string {
    if c == '\\' then "\\\\"
    else if c == ':' && colon then "\\:"
    else if c == '\n' then "\\n"
    else if c == '\r' then "\\r"
    else [c]
  }

  /** One pass over the characters. */
  function OnePass(value: string, colon: bool): string {
    if value == "" then "" else EscapedChar(value[0], colon) + OnePass(value[1..], colon)
  }

  lemma ReplaceOne(c: char, from: char, w: string)
    ensures Replace([c], from, w) == if c == from then w else [c]
  {
  }

  lemma ReplaceTwo(c: char, d: char, from: char, w: string)
    requires c != from
    ensures Replace([c, d], from, w) == if d == from then [c] + w else [c, d]
  {
    assert [c, d][1..] == [d];
    ReplaceOne(d, from, w);
  }

  lemma EscapeOneChar(c: char)
    ensures PgpassEscape([c]) == EscapedChar(c, true) && MySQLConfigValue([c]) == EscapedChar(c, false)
  {
    ReplaceOne(c, '\\', "\\\\");
    if c == '\\' {
      ReplaceTwo('\\', '\\', ':', "\\:");
      ReplaceTwo('\\', '\\', '\n', "\\n");
      ReplaceTwo('\\', '\\', '\r', "\\r");
    } else {
      ReplaceOne(c, ':', "\\:");
      ReplaceOne(c, '\n', "\\n");
      ReplaceOne(c, '\r', "\\r");
      ReplaceTwo('\\', ':', '\n', "\\n");
      ReplaceTwo('\\', ':', '\r', "\\r");
      ReplaceTwo('\\', 'n', '\r', "\\r");
    }
  }

  lemma EscapeConcat(a: string, b: string)
    ensures PgpassEscape(a + b) == PgpassEscape(a) + PgpassEscape(b)
    ensures MySQLConfigValue(a + b) == MySQLConfigValue(a) + MySQLConfigValue(b)
  {
    var a1, b1 := Replace(a, '\\', "\\\\"), Replace(b, '\\', "\\\\");
    ReplaceConcat(a, b, '\\', "\\\\");
    var a2, b2 := Replace(a1, ':', "\\:"), Replace(b1, ':', "\\:");
    ReplaceConcat(a1, b1, ':', "\\:");
    ReplaceConcat(a2, b2, '\n', "\\n");
    ReplaceConcat(Replace(a2, '\n', "\\n"), Replace(b2, '\n', "\\n"), '\r', "\\r");
    ReplaceConcat(a1, b1, '\n', "\\n");
    ReplaceConcat(Replace(a1, '\n', "\\n"), Replace(b1, '\n', "\\n"), '\r', "\\r");
  }

  /** No replacement of a chain touches what an earlier one put in: the chain is one pass. */
  lemma {:induction false} ChainIsOnePass(value: string)
    ensures PgpassEscape(value) == OnePass(value, true)
    ensures MySQLConfigValue(value) == OnePass(value, false)
  {
    if value != "" {
      assert value == [value[0]] + value[1..];
      EscapeConcat([value[0]], value[1..]);
      EscapeOneChar(value[0]);
      ChainIsOnePass(value[1..]);
    }
  }

  lemma {:induction false} NoRawControl(value: string, colon: bool)
    ensures '\n' !in OnePass(value, colon) && '\r' !in OnePass(value, colon)
  {
    if value != "" { NoRawControl(value[1..], colon); }
  }

  // ---------------------------------------------------------------- the reader

  /** What a backslash followed by `c` stands for, to a reader that knows the two control
      characters by name and to one that only drops the backslash. */
  function Meaning(c: char, named: bool): char {
    if named && c == 'n' then '\n' else if named && c == 'r' then '\r' else c
  }

  /** The fields of a line, separated by colons that no backslash precedes. */
  function Fields(s: string, named: bool): (r: seq<string>)
    ensures r != []
  {
    if s == "" then [""]
    else if s[0] == '\\' && |s| > 1 then Prepend(Meaning(s[1], named), Fields(s[2..], named))
    else if s[0] == ':' then [""] + Fields(s[1..], named)
    else Prepend(s[0], Fields(s[1..], named))
  }

  /** What a reader makes of an escaped text: the text itself, or, when it only drops the
      backslash, the text with its control characters turned into letters. */
  function Heard(value: string, named: bool): string {
    if value == "" then ""
    else
      var c := if named then value[0] else if value[0] == '\n' then 'n' else if value[0] == '\r' then 'r' else value[0];
      [c] + Heard(value[1..], named)
  }

  predicate HasControl(value: string) {
    '\n' in value || '\r' in value
  }

  lemma {:induction false} HeardExactly(value: string, named: bool)
    ensures Heard(value, named) == value <==> named || !HasControl(value)
  {
    if value != "" {
      var h := Heard(value, named);
      assert value == [value[0]] + value[1..];
      assert h[0] == value[0] && h[1..] == value[1..] <==> h == value;
      HeardExactly(value[1..], named);
    }
  }

  lemma FieldsStep(c: char, rest: string, named: bool)
    ensures Fields(EscapedChar(c, true) + rest, named)
         == Prepend(if named then c else if c == '\n' then 'n' else if c == '\r' then 'r' else c, Fields(rest, named))
  {
    var e := EscapedChar(c, true);
    assert |e| == 1 ==> (e + rest)[1..] == rest;
    assert |e| == 2 ==> (e + rest)[2..] == rest && (e + rest)[1] == e[1];
  }

  lemma {:induction false} FieldsOnePass(value: string, rest: string, named: bool)
    requires rest == "" || rest[0] == ':'
    ensures Fields(OnePass(value, true) + rest, named)
         == [Heard(value, named)] + if rest == "" then [] else Fields(rest[1..], named)
  {
    if value == "" {
      assert OnePass(value, true) + rest == rest;
    } else {
      var more := OnePass(value[1..], true) + rest;
      assert OnePass(value, true) + rest == EscapedChar(value[0], true) + more;
      FieldsStep(value[0], more, named);
      FieldsOnePass(value[1..], rest, named);
    }
  }

  // ---------------------------------------------------------------- the password line

  datatype Postgres = Postgres(host: string, port: int, database: string, username: string, password: string)

  function Host(d: Postgres): string {
    if d.host == "" then "localhost" else d.host
  }

  function Port(d: Postgres): int {
    if d.port == 0 then 5432 else d.port
  }

  function Values(d: Postgres): seq<string> {
    [Host(d), Itoa(Port(d)), d.database, d.username, d.password]
  }

  function PgpassLine(d: Postgres): string {
    Join([PgpassEscape(Host(d)), Itoa(Port(d)), PgpassEscape(d.database), PgpassEscape(d.username),
          PgpassEscape(d.password)], ":") + "\n"
  }

  function EscapedAll(values: seq<string>): (r: seq<string>)
    ensures |r| == |values|
  {
    if values == [] then [] else [OnePass(values[0], true)] + EscapedAll(values[1..])
  }

  lemma {:induction false} EscapedEach(values: seq<string>)
    ensures forall i :: 0 <= i < |values| ==> EscapedAll(values)[i] == OnePass(values[i], true)
  {
    if values != [] { EscapedEach(values[1..]); }
  }

  function HeardAll(values: seq<string>, named: bool): (r: seq<string>)
    ensures |r| == |values|
  {
    if values == [] then [] else [Heard(values[0], named)] + HeardAll(values[1..], named)
  }

  lemma {:induction false} FieldsOfJoin(values: seq<string>, named: bool)
    requires values != []
    ensures Fields(Join(EscapedAll(values), ":"), named) == HeardAll(values, named)
    ensures '\n' !in Join(EscapedAll(values), ":")
  {
    var e := EscapedAll(values);
    NoRawControl(values[0], true);
    if |values| == 1 {
      FieldsOnePass(values[0], "", named);
      assert e[0] + "" == e[0];
    } else {
      assert e[1..] == EscapedAll(values[1..]);
      var rest := Join(e[1..], ":");
      FieldsOfJoin(values[1..], named);
      assert Join(e, ":") == e[0] + (":" + rest);
      FieldsOnePass(values[0], ":" + rest, named);
      assert (":" + rest)[1..] == rest;
    }
  }

  lemma {:induction false} HeardAllExactly(values: seq<string>, named: bool)
    ensures HeardAll(values, named) == values <==> named || forall v :: v in values ==> !HasControl(v)
  {
    if values != [] {
      HeardExactly(values[0], named);
      HeardAllExactly(values[1..], named);
      var h := HeardAll(values, named);
      assert h[1..] == HeardAll(values[1..], named);
      assert values == [values[0]] + values[1..];
      assert h == values <==> h[0] == values[0] && h[1..] == values[1..];
      assert forall v :: v in values <==> v == values[0] || v in values[1..];
    }
  }

  lemma {:induction false} PlainOnePass(value: string)
    requires forall c :: c in value ==> EscapedChar(c, true) == [c]
    ensures OnePass(value, true) == value
  {
    if value != "" {
      assert forall c :: c in value[1..] ==> c in value;
      assert value[0] in value;
      PlainOnePass(value[1..]);
    }
  }

  lemma LineIsJoin(d: Postgres)
    ensures PgpassLine(d) == Join(EscapedAll(Values(d)), ":") + "\n"
  {
    ChainIsOnePass(Host(d));
    ChainIsOnePass(d.database);
    ChainIsOnePass(d.username);
    ChainIsOnePass(d.password);
    PlainOnePass(Itoa(Port(d)));
    var v := Values(d);
    EscapedEach(v);
    assert EscapedAll(v)
        == [OnePass(v[0], true), OnePass(v[1], true), OnePass(v[2], true), OnePass(v[3], true), OnePass(v[4], true)];
  }

  /** The file is one line, and its fields are the host, port, database, user and password it was
      made of: for every text in them when the reader knows `\n` and `\r`, and for a reader that
      only drops the backslash exactly when none of them holds a line break. */
  lemma PgpassRoundTrip(d: Postgres, named: bool)
    ensures var lines := Split(PgpassLine(d), '\n');
      && |lines| == 2 && lines[1] == ""
      && (Fields(lines[0], named)
          == [if d.host == "" then "localhost" else d.host, Itoa(if d.port == 0 then 5432 else d.port),
              d.database, d.username, d.password] <==>
            named || forall v :: v in [Host(d), d.database, d.username, d.password] ==> !HasControl(v))
  {
    var v := Values(d);
    var body := Join(EscapedAll(v), ":");
    LineIsJoin(d);
    FieldsOfJoin(v, named);
    HeardAllExactly(v, named);
    SplitConcat(body, "", '\n');
    SplitWhole(body, '\n');
    assert body + ['\n'] + "" == body + "\n";
    assert !HasControl(Itoa(Port(d)));
    var w := [Host(d), d.database, d.username, d.password];
    assert v[0] == w[0] && v[2] == w[1] && v[3] == w[2] && v[4] == w[3] && v[1] == Itoa(Port(d));
    assert forall x :: x in v <==> x in w || x == Itoa(Port(d));
  }

  /** Two password files are the same only for the same server, port, database, user and password. */
  lemma PgpassTellsApart(d: Postgres, e: Postgres)
    ensures PgpassLine(d) == PgpassLine(e) <==>
      (Host(d), Port(d), d.database, d.username, d.password) == (Host(e), Port(e), e.database, e.username, e.password)
  {
    if PgpassLine(d) == PgpassLine(e) {
      PgpassRoundTrip(d, true);
      PgpassRoundTrip(e, true);
      var v, w := Values(d), Values(e);
      assert v == w;
      assert v[0] == w[0] && v[1] == w[1] && v[2] == w[2] && v[3] == w[3] && v[4] == w[4];
      ItoaInjective(Port(d), Port(e));
    }
  }

  // ---------------------------------------------------------------- the option file

  datatype MySQL = MySQL(host: string, port: int, username: string, password: string)

  function Options(d: MySQL): seq<string> {
    ["[client]", "host=" + MySQLConfigValue(d.host), "port=" + Itoa(if d.port == 0 then 3306 else d.port),
     "user=" + MySQLConfigValue(d.username), "password=" + MySQLConfigValue(d.password)]
  }

  function OptionFile(d: MySQL): string {
    Join(Options(d) + [""], "\n")
  }

  /** What a backslash followed by `c` stands for in an option. */
  function OptionMeaning(c: char): string {
    match c
    case 'n' => "\n"
    case 'r' => "\r"
    case 't' => "\t"
    case 'b' => [8 as char]
    case 's' => " "
    case '\\' => "\\"
    case '"' => "\""
    case '\'' => "'"
    case _ => ['\\', c]
  }

  function Unescape(s: string): string {
    if s == "" then ""
    else if s[0] == '\\' && |s| > 1 then OptionMeaning(s[1]) + Unescape(s[2..])
    else [s[0]] + Unescape(s[1..])
  }

  predicate IsQuote(c: char) { c == '"' || c == '\'' }

  /** White space, without the two characters that are always escaped. */
  predicate IsBlank(c: char) { c == ' ' || c == '\t' || c == 11 as char || c == 12 as char }

  predicate IsWhite(c: char) { IsBlank(c) || c == '\n' || c == '\r' }

  /** The quote that is open after `c`. */
  function Toggle(open: Option<char>, c: char): Option<char> {
    if !IsQuote(c) then open else if open.None? then Some(c) else if open == Some(c) then None else open
  }

  /** A line up to its comment, which starts at a `#` outside quotes. Within quotes a backslash
      protects the next character. */
  function BeforeComment(s: string, open: Option<char>): string {
    if s == "" || (s[0] == '#' && open.None?) then ""
    else if open.Some? && s[0] == '\\' && |s| > 1 then s[..2] + BeforeComment(s[2..], open)
    else [s[0]] + BeforeComment(s[1..], Toggle(open, s[0]))
  }

  function TrimFront(s: string, white: char -> bool): string {
    if s != "" && white(s[0]) then TrimFront(s[1..], white) else s
  }

  function TrimBack(s: string, white: char -> bool): string {
    if s != "" && white(s[|s| - 1]) then TrimBack(s[..|s| - 1], white) else s
  }

  predicate Enclosed(s: string) {
    |s| >= 2 && IsQuote(s[0]) && s[0] == s[|s| - 1]
  }

  function Unquoted(s: string): string {
    if Enclosed(s) then s[1..|s| - 1] else s
  }

  /** How the client reads what follows `=` in an option line: without the comment, the white space
      around it and a pair of quotes around it, and with its escapes undone. */
  function OptionValue(s: string): string {
    Unescape(Unquoted(TrimBack(TrimFront(BeforeComment(s, None), IsWhite), IsWhite)))
  }

  /** A `#` stands outside quotes. */
  predicate HasComment(value: string, open: Option<char>) {
    value != "" && ((value[0] == '#' && open.None?) || HasComment(value[1..], Toggle(open, value[0])))
  }

  /** The value up to there. */
  function Uncommented(value: string, open: Option<char>): (r: string)
    ensures |r| <= |value|
    ensures r == value <==> !HasComment(value, open)
    ensures |r| == |value| ==> r == value
  {
    if value == "" || (value[0] == '#' && open.None?) then ""
    else
      var rest := Uncommented(value[1..], Toggle(open, value[0]));
      assert value == [value[0]] + value[1..];
      [value[0]] + rest
  }

  /** A value that the option file can carry as it is. */
  predicate FitsAnOption(value: string) {
    && !HasComment(value, None) && !Enclosed(value)
    && (value != "" ==> !IsBlank(value[0]) && !IsBlank(value[|value| - 1]))
  }

  lemma OnePassConcat(a: string, b: string)
    ensures OnePass(a + b, false) == OnePass(a, false) + OnePass(b, false)
  {
    EscapeConcat(a, b);
    ChainIsOnePass(a);
    ChainIsOnePass(b);
    ChainIsOnePass(a + b);
  }

  lemma OnePassOne(c: char)
    ensures OnePass([c], false) == EscapedChar(c, false)
  {
    assert OnePass([c][1..], false) == "";
  }

  lemma {:induction false} UnescapeOnePass(value: string)
    ensures Unescape(OnePass(value, false)) == value
  {
    if value != "" {
      var e, rest := EscapedChar(value[0], false), OnePass(value[1..], false);
      assert |e| == 1 ==> (e + rest)[1..] == rest;
      assert |e| == 2 ==> (e + rest)[2..] == rest && (e + rest)[1] == e[1];
      UnescapeOnePass(value[1..]);
      assert value == [value[0]] + value[1..];
    }
  }

  lemma CommentStep(c: char, rest: string, open: Option<char>)
    ensures BeforeComment(EscapedChar(c, false) + rest, open)
         == if c == '#' && open.None? then "" else EscapedChar(c, false) + BeforeComment(rest, Toggle(open, c))
  {
    var e := EscapedChar(c, false);
    var s := e + rest;
    if |e| == 1 {
      assert s[1..] == rest;
    } else {
      assert s[2..] == rest && s[..2] == e;
      if open.None? {
        assert s[1..][1..] == rest;
        assert [e[0]] + ([e[1]] + BeforeComment(rest, open)) == e + BeforeComment(rest, open);
      }
    }
  }

  lemma {:induction false} CommentOfOnePass(value: string, open: Option<char>)
    ensures BeforeComment(OnePass(value, false), open) == OnePass(Uncommented(value, open), false)
  {
    if value != "" {
      var c, rest := value[0], value[1..];
      CommentStep(c, OnePass(rest, false), open);
      CommentOfOnePass(rest, Toggle(open, c));
      if !(c == '#' && open.None?) {
        var u := Uncommented(value, open);
        assert u[0] == c && u[1..] == Uncommented(rest, Toggle(open, c));
      }
    }
  }

  /** The ends of an escaped text are blank where those of the value are. */
  lemma EscapedEnds(c: char)
    ensures var e := EscapedChar(c, false);
      && (IsWhite(e[0]) <==> IsBlank(c)) && (IsWhite(e[|e| - 1]) <==> IsBlank(c))
      && (IsQuote(e[0]) <==> IsQuote(c)) && (IsQuote(e[|e| - 1]) <==> IsQuote(c))
      && (IsBlank(c) || IsQuote(c) ==> e == [c])
  {
  }

  lemma {:induction false} FrontOfOnePass(value: string)
    ensures TrimFront(OnePass(value, false), IsWhite) == OnePass(TrimFront(value, IsBlank), false)
  {
    if value != "" {
      EscapedEnds(value[0]);
      var s := OnePass(value, false);
      if IsBlank(value[0]) {
        assert s[1..] == OnePass(value[1..], false);
        FrontOfOnePass(value[1..]);
      }
    }
  }

  lemma {:induction false} BackOfOnePass(value: string)
    ensures TrimBack(OnePass(value, false), IsWhite) == OnePass(TrimBack(value, IsBlank), false)
  {
    if value != "" {
      var n := |value| - 1;
      var s, first := OnePass(value, false), OnePass(value[..n], false);
      assert value == value[..n] + [value[n]];
      OnePassConcat(value[..n], [value[n]]);
      OnePassOne(value[n]);
      EscapedEnds(value[n]);
      assert s[|s| - 1] == EscapedChar(value[n], false)[|EscapedChar(value[n], false)| - 1];
      if IsBlank(value[n]) {
        assert s[..|s| - 1] == first;
        BackOfOnePass(value[..n]);
      }
    }
  }

  lemma QuotesOfOnePass(value: string)
    ensures Unquoted(OnePass(value, false)) == OnePass(Unquoted(value), false)
  {
    if |value| >= 2 {
      var n := |value| - 1;
      var mid := value[1..n];
      assert value == [value[0]] + mid + [value[n]];
      OnePassConcat([value[0]] + mid, [value[n]]);
      OnePassConcat([value[0]], mid);
      OnePassOne(value[0]);
      OnePassOne(value[n]);
      EscapedEnds(value[0]);
      EscapedEnds(value[n]);
      if Enclosed(value) {
        var s := OnePass(value, false);
        assert s == [value[0]] + OnePass(mid, false) + [value[n]];
        assert s[1..|s| - 1] == OnePass(mid, false);
      }
    } else if |value| == 1 {
      OnePassOne(value[0]);
      assert [value[0]] == value;
      EscapedEnds(value[0]);
    }
  }

  /** The value that the client reads is the one given, without what it takes for a comment, the
      blanks around the rest and a pair of quotes around that. */
  lemma OptionValueIs(value: string)
    ensures OptionValue(MySQLConfigValue(value))
         == Unquoted(TrimBack(TrimFront(Uncommented(value, None), IsBlank), IsBlank))
  {
    var u := Uncommented(value, None);
    var f := TrimFront(u, IsBlank);
    var b := TrimBack(f, IsBlank);
    ChainIsOnePass(value);
    CommentOfOnePass(value, None);
    FrontOfOnePass(u);
    BackOfOnePass(f);
    QuotesOfOnePass(b);
    UnescapeOnePass(Unquoted(b));
  }

  lemma {:induction false} TrimFrontShortens(s: string, white: char -> bool)
    ensures |TrimFront(s, white)| <= |s| && (TrimFront(s, white) == s <==> s == "" || !white(s[0]))
    ensures |TrimFront(s, white)| == |s| ==> TrimFront(s, white) == s
  {
    if s != "" && white(s[0]) { TrimFrontShortens(s[1..], white); }
  }

  lemma {:induction false} TrimBackShortens(s: string, white: char -> bool)
    ensures |TrimBack(s, white)| <= |s| && (TrimBack(s, white) == s <==> s == "" || !white(s[|s| - 1]))
    ensures |TrimBack(s, white)| == |s| ==> TrimBack(s, white) == s
  {
    if s != "" && white(s[|s| - 1]) { TrimBackShortens(s[..|s| - 1], white); }
  }

  /** The client gets a value back if and only if no `#` in it stands outside quotes, it neither
      starts nor ends with a blank, and no pair of quotes is around it. */
  lemma OptionValueRoundTripExactlyWhen(value: string)
    ensures OptionValue(MySQLConfigValue(value)) == value <==> FitsAnOption(value)
  {
    OptionValueIs(value);
    var u := Uncommented(value, None);
    var f := TrimFront(u, IsBlank);
    TrimFrontShortens(u, IsBlank);
    TrimBackShortens(f, IsBlank);
    var b := TrimBack(f, IsBlank);
    assert |Unquoted(b)| <= |b| && (|Unquoted(b)| == |b| <==> !Enclosed(b));
    assert |Unquoted(b)| == |value| ==> b == f == u == value;
  }

  /** A password with a number sign loses everything from there on. */
  lemma NumberSignCutsPassword()
    ensures OptionValue(MySQLConfigValue("pa#ss")) == "pa"
  {
    OptionValueIs("pa#ss");
    assert "pa#ss"[1..] == "a#ss" && "a#ss"[1..] == "#ss";
    assert Uncommented("#ss", None) == "" && Uncommented("a#ss", None) == "a" && Uncommented("pa#ss", None) == "pa";
  }

  /** No value adds a line to the option file. */
  lemma OptionFileLines(d: MySQL)
    ensures Split(OptionFile(d), '\n') == Options(d) + [""]
  {
    var all := Options(d) + [""];
    forall v | v in [d.host, d.username, d.password] ensures '\n' !in MySQLConfigValue(v) {
      ChainIsOnePass(v);
      NoRawControl(v, false);
    }
    assert d.host in [d.host, d.username, d.password] && d.password in [d.host, d.username, d.password];
    assert forall x :: x in all ==> '\n' !in x;
    SplitJoin(all, '\n');
  }

  /** The line that gives this option a value. */
  predicate Gives(line: string, option: string) {
    option + "=" <= line
  }

  /** What the first such line gives, in the group `client` that starts the file. */
  function OptionText(lines: seq<string>, option: string): Option<string> {
    if lines == [] || lines[0] != "[client]" then None else FirstGiven(lines[1..], option)
  }

  function FirstGiven(lines: seq<string>, option: string): Option<string> {
    if lines == [] then None
    else if Gives(lines[0], option) then Some(lines[0][|option| + 1..])
    else FirstGiven(lines[1..], option)
  }

  /** Two different options of one file; neither is the start of the other. */
  lemma GivesItsOwn(own: string, value: string, option: string)
    requires own in {"host", "port", "user", "password"} && option in {"host", "port", "user", "password"}
    ensures Gives(own + "=" + value, option) <==> own == option
    ensures (own + "=" + value)[|own| + 1..] == value
  {
    var line := own + "=" + value;
    assert line[..|own| + 1] == own + "=";
    if own == option {
      assert option + "=" <= line;
    } else if own == "host" {
      assert line[0] == 'h' && option[0] != 'h';
    } else if own == "user" {
      assert line[0] == 'u' && option[0] != 'u';
    } else {
      assert line[0] == 'p' && line[1] == own[1] && (option + "=")[0] == option[0] && (option + "=")[1] == option[1];
    }
  }

  lemma FirstGivenStep(own: string, value: string, rest: seq<string>, option: string)
    requires own in {"host", "port", "user", "password"} && option in {"host", "port", "user", "password"}
    ensures FirstGiven([own + "=" + value] + rest, option)
         == if own == option then Some(value) else FirstGiven(rest, option)
  {
    GivesItsOwn(own, value, option);
    assert ([own + "=" + value] + rest)[1..] == rest;
  }

  lemma OptionsInOrder(d: MySQL, option: string)
    requires option in {"host", "port", "user", "password"}
    ensures OptionText(Options(d) + [""], option)
         == if option == "host" then Some(MySQLConfigValue(d.host))
            else if option == "port" then Some(Itoa(if d.port == 0 then 3306 else d.port))
            else if option == "user" then Some(MySQLConfigValue(d.username))
            else Some(MySQLConfigValue(d.password))
  {
    var host, user, password := MySQLConfigValue(d.host), MySQLConfigValue(d.username), MySQLConfigValue(d.password);
    var port := Itoa(if d.port == 0 then 3306 else d.port);
    var four := ["password" + "=" + password] + [""];
    var three := ["user" + "=" + user] + four;
    var two := ["port" + "=" + port] + three;
    var one := ["host" + "=" + host] + two;
    FirstGivenStep("host", host, two, option);
    FirstGivenStep("port", port, three, option);
    FirstGivenStep("user", user, four, option);
    FirstGivenStep("password", password, [""], option);
    assert "host" + "=" == "host=" && "port" + "=" == "port=" && "user" + "=" == "user=";
    assert "password" + "=" == "password=";
    assert Options(d) + [""] == ["[client]"] + one;
    assert (["[client]"] + one)[1..] == one;
  }

  /** The client reads host, user and password from the file under their own names, each as it was given
      if and only if it fits an option, and the port, 3306 when there is none. */
  lemma OptionFileIsRead(d: MySQL)
    ensures var lines := Split(OptionFile(d), '\n');
      var host, user, password := OptionText(lines, "host"), OptionText(lines, "user"), OptionText(lines, "password");
      && host.Some? && (OptionValue(host.value) == d.host <==> FitsAnOption(d.host))
      && user.Some? && (OptionValue(user.value) == d.username <==> FitsAnOption(d.username))
      && password.Some? && (OptionValue(password.value) == d.password <==> FitsAnOption(d.password))
      && OptionText(lines, "port") == Some(Itoa(if d.port == 0 then 3306 else d.port))
  {
    OptionFileLines(d);
    OptionsInOrder(d, "host");
    OptionsInOrder(d, "port");
    OptionsInOrder(d, "user");
    OptionsInOrder(d, "password");
    OptionValueRoundTripExactlyWhen(d.host);
    OptionValueRoundTripExactlyWhen(d.username);
    OptionValueRoundTripExactlyWhen(d.password);
  }

  // ---------------------------------------------------------------- the shell word

  function ShellQuote(s: string): string {
    "'" + Replace(s, '\'', "'\\''") + "'"
  }

  function SFTPCommand(port: int, key: string): string {
    "ssh -p " + Itoa(if port == 0 then 22 else port) + " -i " + ShellQuote(key)
  }

  /** Characters that mean something to the shell outside quotes (section 2.2 of the POSIX Shell
      Command Language). */
  predicate Special(c: char) {
    c in {'|', '&', ';', '<', '>', '(', ')', '$', '`', '"', '*', '?', '[', '#', '~', '=', '%'}
  }

  predicate Blank(c: char) {
    c in {' ', '\t', '\n'}
  }

  /** The words of a command, `word` being the one under construction: a backslash keeps the next
      character (section 2.2.1 of the POSIX Shell Command Language), single quotes keep everything
      up to the next one (section 2.2.2). `None` is a command with more to it than plain words. */
  function Words(s: string, word: Option<string>, quoted: bool): Option<seq<string>> {
    var now := if word.Some? then word.value else "";
    if s == "" then (if quoted then None else Some(if word.Some? then [now] else []))
    else if quoted then
      if s[0] == '\'' then Words(s[1..], Some(now), false) else Words(s[1..], Some(now + [s[0]]), true)
    else if s[0] == '\'' then Words(s[1..], Some(now), true)
    else if s[0] == '\\' then
      if |s| == 1 then None
      else if s[1] == '\n' then Words(s[2..], word, false)
      else Words(s[2..], Some(now + [s[1]]), false)
    else if Blank(s[0]) then
      var rest := Words(s[1..], None, false);
      if rest.None? then None else Some((if word.Some? then [now] else []) + rest.value)
    else if Special(s[0]) then None
    else Words(s[1..], Some(now + [s[0]]), false)
  }

  /** Leave the quotes, keep a quote by a backslash, enter the quotes again. */
  lemma QuoteInQuotes(rest: string, now: string)
    ensures Words(['\'', '\\', '\'', '\''] + rest, Some(now), true) == Words(rest, Some(now + ['\'']), true)
  {
    var t := ['\'', '\\', '\'', '\''] + rest;
    var u := ['\\', '\'', '\''] + rest;
    var v := ['\''] + rest;
    assert t[1..] == u && u[2..] == v && v[1..] == rest;
    assert Words(t, Some(now), true) == Words(u, Some(now), false);
    assert Words(u, Some(now), false) == Words(v, Some(now + ['\'']), false);
  }

  lemma {:induction false} QuotedWords(s: string, now: string)
    ensures Words(Replace(s, '\'', "'\\''") + "'", Some(now), true) == Some([now + s])
  {
    if s == "" {
      assert Words("'"[1..], Some(now), false) == Some([now]);
      assert now + s == now;
    } else {
      var rest := Replace(s[1..], '\'', "'\\''") + "'";
      QuotedWords(s[1..], now + [s[0]]);
      assert now + [s[0]] + s[1..] == now + s;
      if s[0] == '\'' {
        assert Replace(s, '\'', "'\\''") + "'" == ['\'', '\\', '\'', '\''] + rest;
        QuoteInQuotes(rest, now);
      } else {
        assert Replace(s, '\'', "'\\''") + "'" == [s[0]] + rest;
        assert ([s[0]] + rest)[1..] == rest;
      }
    }
  }

  predicate Plain(s: string) {
    forall c :: c in s ==> c != '\'' && c != '\\' && !Blank(c) && !Special(c)
  }

  lemma {:induction false} PlainWord(p: string, now: string, rest: string, words: seq<string>)
    requires Plain(p) && Words(rest, None, false) == Some(words)
    ensures Words(p + " " + rest, Some(now), false) == Some([now + p] + words)
  {
    var s := p + " " + rest;
    if p == "" {
      assert s[1..] == rest && now + p == now;
    } else {
      assert s[0] == p[0] && p[0] in p && s[1..] == p[1..] + " " + rest;
      assert forall c :: c in p[1..] ==> c in p;
      PlainWord(p[1..], now + [p[0]], rest, words);
      assert now + [p[0]] + p[1..] == now + p;
    }
  }

  lemma FirstPlainWord(p: string, rest: string, words: seq<string>)
    requires p != "" && Plain(p) && Words(rest, None, false) == Some(words)
    ensures Words(p + " " + rest, None, false) == Some([p] + words)
  {
    PlainWord(p, "", rest, words);
    assert p[0] in p;
    assert (p + " " + rest)[0] == p[0];
    assert "" + p == p;
  }

  /** Quoting gives one word, the quoted text, whatever that text is. */
  lemma ShellQuoteRoundTrip(s: string)
    ensures Words(ShellQuote(s), None, false) == Some([s])
  {
    QuotedWords(s, "");
    assert ShellQuote(s)[1..] == Replace(s, '\'', "'\\''") + "'";
    assert "" + s == s;
  }

  lemma TwoPlainWords(a: string, b: string, rest: string, words: seq<string>)
    requires a != "" && Plain(a) && b != "" && Plain(b) && Words(rest, None, false) == Some(words)
    ensures Words(a + " " + (b + " " + rest), None, false) == Some([a, b] + words)
  {
    FirstPlainWord(b, rest, words);
    FirstPlainWord(a, b + " " + rest, [b] + words);
    assert [a] + ([b] + words) == [a, b] + words;
  }

  /** The SFTP command is five words for every port and key path. */
  lemma SFTPCommandWords(port: int, key: string)
    ensures Words(SFTPCommand(port, key), None, false)
         == Some(["ssh", "-p", Itoa(if port == 0 then 22 else port), "-i", key])
  {
    var number, word := Itoa(if port == 0 then 22 else port), ShellQuote(key);
    ShellQuoteRoundTrip(key);
    TwoPlainWords(number, "-i", word, [key]);
    var tail := number + " " + ("-i" + " " + word);
    TwoPlainWords("ssh", "-p", tail, [number, "-i"] + [key]);
    assert SFTPCommand(port, key) == "ssh" + " " + ("-p" + " " + tail);
    assert ["ssh", "-p"] + ([number, "-i"] + [key]) == ["ssh", "-p", number, "-i", key];
  }
}
