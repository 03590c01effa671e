/** Secret redaction of log lines: the replacement that `Redact` makes with the pattern

        (?i)(password|passwd|token|secret|authorization|access[_-]?key)([=: ]+)([^\s,;]+)

    under the leftmost, greedy, backtracking reading of Go's regexp package. */
module Redaction {

  /** Case folding: besides the upper-case letter, U+017F folds to `s` and U+212A to `k`. */
  predicate SameLetter(c: char, lower: char) {
    || c == lower
    || ('a' <= lower <= 'z' && 'A' <= c <= 'Z' && c - 'A' == lower - 'a')
    || (lower == 's' && c == '\U{17F}')
    || (lower == 'k' && c == '\U{212A}')
  }

  predicate HasWord(s: string, w: string) {
    |w| <= |s| && forall i :: 0 <= i < |w| ==> SameLetter(s[i], w[i])
  }

  predicate IsSeparator(c: char) {
    c == '=' || c == ':' || c == ' '
  }

  /** The complement of white space (as the pattern means it), comma and semicolon. */
  predicate IsValue(c: char) {
    c !in {'\t', '\n', '\U{0C}', '\r', ' ', ',', ';'}
  }

  predicate IsLetter(c: char) {
    'a' <= c <= 'z' || c == '_' || c == '-'
  }

  /** The alternatives of the first group and the text that replaces the third. */
  datatype Pattern = Pattern(words: seq<string>, mark: string)

  /** What the proofs need of them: words of letters, none a prefix of another and none able to
      start inside the mark; a mark that is a value and starts with neither separator nor letter. */
  ghost predicate Apt(p: Pattern) {
    && (forall w :: w in p.words ==> Lettered(w))
    && (forall w, x :: w in p.words && x in p.words && w != x ==> Apart(w, x))
    && (forall w, i :: w in p.words && 0 <= i < |p.mark| ==> Missed(p.mark, w, i))
    && "" !in p.words
    && p.mark != "" && !IsSeparator(p.mark[0])
    && (forall i :: 0 <= i < |p.mark| ==> IsValue(p.mark[i]))
    && (forall l :: IsLetter(l) ==> !SameLetter(p.mark[0], l))
  }

  ghost predicate Lettered(w: string) {
    forall i :: 0 <= i < |w| ==> IsLetter(w[i])
  }

  ghost predicate Apart(w: string, x: string) {
    exists i :: 0 <= i < |w| && i < |x| && w[i] != x[i]
  }

  /** The word differs from the part of the mark that starts at `i`. */
  ghost predicate Missed(mark: string, w: string, i: int) {
    exists j :: 0 <= j < |w| && 0 <= i + j < |mark| && !SameLetter(mark[i + j], w[j])
  }

  type Rule = p: Pattern | Apt(p) witness Pattern([], "<")

  /** Length of the first word, from the `j`-th on, that starts the text. */
  function FirstWord(words: seq<string>, j: nat, s: string): nat
    requires j <= |words|
    decreases |words| - j
  {
    if j == |words| then 0 else if HasWord(s, words[j]) then |words[j]| else FirstWord(words, j + 1, s)
  }

  /** Length of the keyword that starts the text, 0 if none does. */
  function Keyword(rule: Rule, s: string): nat {
    FirstWord(rule.words, 0, s)
  }

  /** How far a greedy repetition of separators reaches. */
  function SeparatorRun(s: string): (n: nat)
    ensures n <= |s|
  {
    if s != "" && IsSeparator(s[0]) then 1 + SeparatorRun(s[1..]) else 0
  }

  lemma {:induction false} SeparatorRunIs(s: string)
    ensures forall i :: 0 <= i < SeparatorRun(s) ==> IsSeparator(s[i])
    ensures SeparatorRun(s) < |s| ==> !IsSeparator(s[SeparatorRun(s)])
  {
    if s != "" && IsSeparator(s[0]) { SeparatorRunIs(s[1..]); }
  }

  /** How far a greedy repetition of value characters reaches. */
  function ValueRun(s: string): (n: nat)
    ensures n <= |s|
  {
    if s != "" && IsValue(s[0]) then 1 + ValueRun(s[1..]) else 0
  }

  lemma {:induction false} ValueRunIs(s: string)
    ensures forall i :: 0 <= i < ValueRun(s) ==> IsValue(s[i])
    ensures ValueRun(s) < |s| ==> !IsValue(s[ValueRun(s)])
  {
    if s != "" && IsValue(s[0]) { ValueRunIs(s[1..]); }
  }

  /** Backtracking: separators are given back one at a time until a value character follows. */
  function GiveBack(s: string, n: nat): (m: nat)
    requires n <= |s|
    ensures m <= n
    ensures m > 0 ==> m < |s| && IsValue(s[m])
  {
    if n == 0 then 0
    else if n < |s| && IsValue(s[n]) then n
    else GiveBack(s, n - 1)
  }

  lemma {:induction false} GiveBackIsLast(s: string, n: nat)
    requires n <= |s|
    ensures forall j :: GiveBack(s, n) < j <= n && j < |s| ==> !IsValue(s[j])
  {
    if n > 0 && !(n < |s| && IsValue(s[n])) { GiveBackIsLast(s, n - 1); }
  }

  /** Length of the second group when the keyword has length `k`; 0 when nothing matches. */
  function Separators(s: string, k: nat): (m: nat)
    requires k <= |s|
    ensures k + m <= |s|
  {
    GiveBack(s[k..], SeparatorRun(s[k..]))
  }

  lemma {:induction false} FirstWordFits(words: seq<string>, j: nat, s: string)
    requires j <= |words|
    ensures var k := FirstWord(words, j, s);
      && k <= |s|
      && (k > 0 ==> exists w :: w in words && |w| == k && HasWord(s, w))
      && (k == 0 && "" !in words ==> forall i :: j <= i < |words| ==> !HasWord(s, words[i]))
    decreases |words| - j
  {
    if j < |words| { FirstWordFits(words, j + 1, s); }
  }

  lemma KeywordFits(rule: Rule, s: string)
    ensures Keyword(rule, s) <= |s|
    ensures Keyword(rule, s) > 0 ==> exists w :: w in rule.words && |w| == Keyword(rule, s) && HasWord(s, w)
    ensures Keyword(rule, s) == 0 ==> forall w :: w in rule.words ==> !HasWord(s, w)
  {
    FirstWordFits(rule.words, 0, s);
  }

  /** Whether the whole pattern matches at the start of the text. */
  predicate Matches(rule: Rule, s: string) {
    KeywordFits(rule, s);
    Keyword(rule, s) > 0 && Separators(s, Keyword(rule, s)) > 0
  }

  /** Where the third group starts. */
  function ValueStart(rule: Rule, s: string): (p: nat)
    requires Matches(rule, s)
    ensures 2 <= p < |s| && IsValue(s[p])
  {
    KeywordFits(rule, s);
    Keyword(rule, s) + Separators(s, Keyword(rule, s))
  }

  /** Where the third group ends. */
  function ValueEnd(rule: Rule, s: string): (e: nat)
    requires Matches(rule, s)
    ensures ValueStart(rule, s) < e <= |s|
  {
    ValueStart(rule, s) + ValueRun(s[ValueStart(rule, s)..])
  }

  /** `sensitive.ReplaceAllString(s, "$1$2<redacted>")`. */
  function Redact(rule: Rule, s: string): string {
    if s == "" then ""
    else if Matches(rule, s) then s[..ValueStart(rule, s)] + rule.mark + Redact(rule, s[ValueEnd(rule, s)..])
    else [s[0]] + Redact(rule, s[1..])
  }

  // ---------------------------------------------------------------- the pattern, stated on its own

  /** A way to read the start of the text as keyword, separators and value, greedy or not. */
  ghost predicate Reading(rule: Rule, s: string, w: string, m: nat, v: nat) {
    && w in rule.words && m > 0 && v > 0 && |w| + m + v <= |s|
    && HasWord(s, w)
    && (forall i :: |w| <= i < |w| + m ==> IsSeparator(s[i]))
    && (forall i :: |w| + m <= i < |w| + m + v ==> IsValue(s[i]))
  }

  /** Two keywords never start the same text. */
  lemma KeywordsDiffer(rule: Rule, s: string, w: string, x: string)
    requires w in rule.words && x in rule.words && HasWord(s, w) && HasWord(s, x)
    ensures w == x
  {
    assert forall c, a, b :: IsLetter(a) && IsLetter(b) && SameLetter(c, a) && SameLetter(c, b) ==> a == b;
  }

  /** What `Redact` takes for the match is the greedy reading: it exists exactly when some
      reading does, no reading has more separators, and none with as many has a longer value. */
  lemma MatchIsGreedy(rule: Rule, s: string)
    ensures Matches(rule, s) <==> exists w, m, v :: Reading(rule, s, w, m, v)
    ensures Matches(rule, s) ==> var w := KeywordAt(rule, s);
              && Reading(rule, s, w, ValueStart(rule, s) - |w|, ValueEnd(rule, s) - ValueStart(rule, s))
              && forall x, m, v :: Reading(rule, s, x, m, v) ==>
                   x == w && |w| + m <= ValueStart(rule, s)
                   && (|w| + m == ValueStart(rule, s) ==> |w| + m + v <= ValueEnd(rule, s))
  {
    forall x, m, v | Reading(rule, s, x, m, v)
      ensures Matches(rule, s) && x == KeywordAt(rule, s) && |x| + m <= ValueStart(rule, s)
      ensures |x| + m == ValueStart(rule, s) ==> |x| + m + v <= ValueEnd(rule, s)
    {
      ReadingIsCovered(rule, s, x, m, v);
      KeywordsDiffer(rule, s, KeywordAt(rule, s), x);
    }
    if Matches(rule, s) {
      MatchIsReading(rule, s);
    }
  }

  lemma MatchIsReading(rule: Rule, s: string)
    requires Matches(rule, s)
    ensures var w := KeywordAt(rule, s);
      Reading(rule, s, w, ValueStart(rule, s) - |w|, ValueEnd(rule, s) - ValueStart(rule, s))
  {
    var w := KeywordAt(rule, s);
    var rest := s[|w|..];
    var m := Separators(s, |w|);
    SeparatorRunIs(rest);
    forall i | |w| <= i < |w| + m ensures IsSeparator(s[i]) {
      assert s[i] == rest[i - |w|];
    }
    var tail := s[ValueStart(rule, s)..];
    ValueRunIs(tail);
    forall i | ValueStart(rule, s) <= i < ValueEnd(rule, s) ensures IsValue(s[i]) {
      assert s[i] == tail[i - ValueStart(rule, s)];
    }
  }

  /** Greediness of the second and third groups, given the text after the keyword. */
  lemma GroupsAreGreedy(rest: string, m: nat, v: nat)
    requires m > 0 && v > 0 && m + v <= |rest|
    requires forall i :: 0 <= i < m ==> IsSeparator(rest[i])
    requires forall i :: m <= i < m + v ==> IsValue(rest[i])
    ensures GiveBack(rest, SeparatorRun(rest)) >= m
    ensures GiveBack(rest, SeparatorRun(rest)) == m ==> ValueRun(rest[m..]) >= v
  {
    var tail := rest[m..];
    forall i | 0 <= i < v ensures IsValue(tail[i]) {
      assert tail[i] == rest[m + i];
    }
    SeparatorRunIs(rest);
    ValueRunIs(tail);
    GiveBackIsLast(rest, SeparatorRun(rest));
    assert SeparatorRun(rest) >= m;
    assert IsValue(rest[m]);
  }

  lemma ReadingIsCovered(rule: Rule, s: string, x: string, m: nat, v: nat)
    requires Reading(rule, s, x, m, v)
    ensures Matches(rule, s) && |x| == Keyword(rule, s) && |x| + m <= ValueStart(rule, s)
    ensures |x| + m == ValueStart(rule, s) ==> |x| + m + v <= ValueEnd(rule, s)
  {
    KeywordFits(rule, s);
    var w := KeywordAt(rule, s);
    KeywordsDiffer(rule, s, w, x);
    var rest := s[|x|..];
    GroupsAreGreedy(rest, m, v);
    assert rest[m..] == s[|x| + m..];
  }

  /** The keyword that starts the text. */
  ghost function KeywordAt(rule: Rule, s: string): (w: string)
    requires Keyword(rule, s) > 0
    ensures w in rule.words && |w| == Keyword(rule, s) && HasWord(s, w)
  {
    KeywordFits(rule, s);
    var w :| w in rule.words && |w| == Keyword(rule, s) && HasWord(s, w);
    w
  }

  // ---------------------------------------------------------------- normal form

  /** A match at the start, if there is one, already has the mark as its value. */
  predicate Clean(rule: Rule, s: string) {
    Matches(rule, s) ==> s[ValueStart(rule, s)..ValueEnd(rule, s)] == rule.mark
  }

  /** At every position, overlapping ones included, a keyword that is followed by separators and
      a value is followed by exactly the mark. */
  predicate NormalForm(rule: Rule, s: string) {
    forall i :: 0 <= i <= |s| ==> CleanAt(rule, s, i)
  }

  predicate CleanAt(rule: Rule, s: string, i: nat)
    requires i <= |s|
  {
    Clean(rule, s[i..])
  }

  /** No keyword starts with a separator, a delimiter or inside the mark. */
  lemma KeywordLetters(rule: Rule, s: string)
    requires Keyword(rule, s) > 0
    ensures Keyword(rule, s) <= |s|
    ensures forall i :: 0 <= i < Keyword(rule, s) ==> !IsSeparator(s[i]) && IsValue(s[i]) && s[i] != rule.mark[0]
  {
    var w := KeywordAt(rule, s);
    forall i | 0 <= i < |w| ensures !IsSeparator(s[i]) && IsValue(s[i]) && s[i] != rule.mark[0] {
      assert IsLetter(w[i]) && SameLetter(s[i], w[i]);
    }
  }

  /** Text in normal form is a fixed point: each match is replaced by itself. */
  lemma {:induction false} NormalFormIsFixed(rule: Rule, t: string)
    requires NormalForm(rule, t)
    ensures Redact(rule, t) == t
  {
    assert t[0..] == t && CleanAt(rule, t, 0);
    if t != "" {
      if Matches(rule, t) {
        NormalFormSuffix(rule, t, ValueEnd(rule, t));
        NormalFormIsFixed(rule, t[ValueEnd(rule, t)..]);
        ThreeParts(t, ValueStart(rule, t), ValueEnd(rule, t));
      } else {
        NormalFormSuffix(rule, t, 1);
        NormalFormIsFixed(rule, t[1..]);
      }
    }
  }

  lemma ThreeParts(t: string, a: nat, b: nat)
    requires a <= b <= |t|
    ensures t == t[..a] + t[a..b] + t[b..]
  {
  }

  /** A suffix that starts in the third, or in the second, of three parts. */
  lemma SuffixOfParts(a: string, b: string, c: string, i: nat)
    requires |a| <= i <= |a + b + c|
    ensures i >= |a| + |b| ==> (a + b + c)[i..] == c[i - |a| - |b|..]
    ensures i < |a| + |b| ==> (a + b + c)[i..] == (b + c)[i - |a|..]
  {
  }

  lemma NormalFormSuffix(rule: Rule, t: string, n: nat)
    requires NormalForm(rule, t) && n <= |t|
    ensures NormalForm(rule, t[n..])
  {
    forall i | 0 <= i <= |t[n..]| ensures CleanAt(rule, t[n..], i) {
      assert CleanAt(rule, t, n + i);
      assert t[n..][i..] == t[n + i..];
    }
  }

  /** Two texts agree on their first `q` characters. */
  predicate Agree(a: string, b: string, q: nat) {
    q <= |a| && q <= |b| && forall i :: 0 <= i < q ==> a[i] == b[i]
  }

  lemma AgreeCons(c: char, a: string, b: string, q: nat)
    requires Agree(a, b, q)
    ensures Agree([c] + a, [c] + b, q + 1)
  {
  }

  lemma HeadIsCopied(t: string, q: nat, mark: string, rest: string)
    requires q < |t| && mark != ""
    ensures var r := t[..q] + mark + rest; Agree(r, t, q) && q < |r| && r[q] == mark[0]
  {
  }

  /** Redaction copies the text up to the first value it replaces, and puts the mark there. */
  lemma {:induction false} CopiedPrefix(rule: Rule, t: string) returns (q: nat)
    ensures Agree(Redact(rule, t), t, q)
    ensures q == |t| ==> Redact(rule, t) == t
    ensures q < |t| ==> q < |Redact(rule, t)| && Redact(rule, t)[q] == rule.mark[0] && IsValue(t[q])
  {
    if t == "" {
      q := 0;
    } else if Matches(rule, t) {
      q := ValueStart(rule, t);
      HeadIsCopied(t, q, rule.mark, Redact(rule, t[ValueEnd(rule, t)..]));
    } else {
      var n := CopiedPrefix(rule, t[1..]);
      AgreeCons(t[0], Redact(rule, t[1..]), t[1..], n);
      assert [t[0]] + t[1..] == t;
      q := n + 1;
    }
  }

  /** A match survives in any text that shares its keyword and separators and goes on with a value. */
  lemma MatchCarriesOver(rule: Rule, o: string, s: string, q: nat)
    requires Matches(rule, o) && q < |o| && q < |s| && Agree(o, s, q)
    requires o[q] == rule.mark[0] && IsValue(s[q])
    ensures Matches(rule, s)
  {
    var w, p := KeywordAt(rule, o), ValueStart(rule, o);
    MatchIsReading(rule, o);
    KeywordLetters(rule, o);
    assert p <= q;
    assert Reading(rule, s, w, p - |w|, 1);
    ReadingIsCovered(rule, s, w, p - |w|, 1);
  }

  /** Copying one character in front of redacted text creates no new match. */
  lemma NoNewMatch(rule: Rule, s: string)
    requires s != "" && !Matches(rule, s)
    ensures !Matches(rule, [s[0]] + Redact(rule, s[1..]))
  {
    var t, r := s[1..], Redact(rule, s[1..]);
    var n := CopiedPrefix(rule, t);
    assert [s[0]] + t == s;
    if n == |t| {
    } else if Matches(rule, [s[0]] + r) {
      AgreeCons(s[0], r, t, n);
      MatchCarriesOver(rule, [s[0]] + r, s, n + 1);
    }
  }

  /** A value ends at a delimiter or at the end of the text. */
  lemma DelimiterFollows(rule: Rule, s: string)
    requires Matches(rule, s)
    ensures ValueEnd(rule, s) < |s| ==> !IsValue(s[ValueEnd(rule, s)])
  {
    ValueRunIs(s[ValueStart(rule, s)..]);
  }

  /** A delimiter in front of the rest stays in front of it. */
  lemma DelimiterStays(rule: Rule, rest: string)
    requires rest == "" || !IsValue(rest[0])
    ensures Redact(rule, rest) == "" || !IsValue(Redact(rule, rest)[0])
  {
    if rest != "" && Matches(rule, rest) {
      KeywordLetters(rule, rest);
    }
  }

  /** A keyword, separators, the mark, and then a delimiter or the end, followed by text in
      normal form, is in normal form at every position. */
  lemma MarkedIsNormal(rule: Rule, head: string, k: nat, tail: string)
    requires 0 < k < |head| && Keyword(rule, head) == k
    requires forall i :: k <= i < |head| ==> IsSeparator(head[i])
    requires tail == "" || !IsValue(tail[0])
    requires NormalForm(rule, tail)
    ensures NormalForm(rule, head + rule.mark + tail)
  {
    forall i | 0 <= i <= |head + rule.mark + tail| ensures CleanAt(rule, head + rule.mark + tail, i) {
      if i < |head| {
        MarkedIsClean(rule, head, k, tail, i);
      } else {
        TailIsClean(rule, head, tail, i);
      }
    }
  }

  lemma TailIsClean(rule: Rule, head: string, tail: string, i: nat)
    requires NormalForm(rule, tail)
    requires |head| <= i <= |head + rule.mark + tail|
    ensures CleanAt(rule, head + rule.mark + tail, i)
  {
    SuffixOfParts(head, rule.mark, tail, i);
    if i < |head| + |rule.mark| {
      MarkHasNoKeyword(rule, tail, i - |head|);
    } else {
      assert CleanAt(rule, tail, i - |head| - |rule.mark|);
    }
  }

  lemma MarkHasNoKeyword(rule: Rule, tail: string, i: nat)
    requires i < |rule.mark|
    ensures !Matches(rule, (rule.mark + tail)[i..])
  {
    var u := (rule.mark + tail)[i..];
    forall w | w in rule.words ensures !HasWord(u, w) {
      assert Missed(rule.mark, w, i);
      var j :| 0 <= j < |w| && 0 <= i + j < |rule.mark| && !SameLetter(rule.mark[i + j], w[j]);
      assert j < |u| ==> u[j] == rule.mark[i + j];
    }
    KeywordFits(rule, u);
  }

  /** A keyword followed by a separator, found inside the head, ends where the head's keyword ends. */
  lemma KeywordEndsTogether(rule: Rule, head: string, k: nat, u: string, n: nat, i: nat)
    requires 0 < k < |head| && Keyword(rule, head) == k && i < |head|
    requires |head| - i <= |u| && forall j :: i <= j < |head| ==> head[j] == u[j - i]
    requires forall j :: k <= j < |head| ==> IsSeparator(head[j])
    requires n > 0 && Keyword(rule, u) == n && n < |u| && IsSeparator(u[n])
    ensures i + n == k
  {
    KeywordLetters(rule, u);
    KeywordLetters(rule, head);
    assert head[i] == u[0];
    assert i < k;
    assert head[k] == u[k - i];
    var e := if i + n < |head| then i + n else k;
    assert head[e] == u[e - i];
  }

  lemma MatchHasSeparator(rule: Rule, u: string)
    requires Matches(rule, u)
    ensures 0 < Keyword(rule, u) < |u| && IsSeparator(u[Keyword(rule, u)])
  {
    MatchIsReading(rule, u);
  }

  lemma MarkedIsClean(rule: Rule, head: string, k: nat, tail: string, i: nat)
    requires 0 < k < |head| && Keyword(rule, head) == k
    requires forall j :: k <= j < |head| ==> IsSeparator(head[j])
    requires tail == "" || !IsValue(tail[0])
    requires i < |head|
    ensures Clean(rule, (head + rule.mark + tail)[i..])
  {
    var u := (head + rule.mark + tail)[i..];
    if Matches(rule, u) {
      assert forall j :: i <= j < |head| ==> head[j] == u[j - i];
      MatchHasSeparator(rule, u);
      KeywordEndsTogether(rule, head, k, u, Keyword(rule, u), i);
      SeparatorsOfHead(rule, head, k, tail, i);
      SuffixIsClean(rule, u, k - i, head[k..], tail);
    }
  }

  lemma SeparatorsOfHead(rule: Rule, head: string, k: nat, tail: string, i: nat)
    requires i <= k < |head|
    requires forall j :: k <= j < |head| ==> IsSeparator(head[j])
    ensures (head + rule.mark + tail)[i..][k - i..] == head[k..] + rule.mark + tail
    ensures head[k..] != "" && forall j :: 0 <= j < |head[k..]| ==> IsSeparator(head[k..][j])
  {
    forall j | 0 <= j < |head[k..]| ensures IsSeparator(head[k..][j]) {
      assert head[k..][j] == head[k + j];
    }
  }

  lemma ValueSpan(rule: Rule, u: string, k: nat, n: nat)
    requires Keyword(rule, u) == k && 0 < k && k + n <= |u|
    requires GiveBack(u[k..], SeparatorRun(u[k..])) == n
    ensures Matches(rule, u) ==> ValueStart(rule, u) == k + n && ValueEnd(rule, u) == k + n + ValueRun(u[k + n..])
  {
  }

  lemma SuffixIsClean(rule: Rule, u: string, k: nat, separators: string, tail: string)
    requires Keyword(rule, u) == k && 0 < k <= |u| && u[k..] == separators + rule.mark + tail
    requires separators != "" && forall j :: 0 <= j < |separators| ==> IsSeparator(separators[j])
    requires tail == "" || !IsValue(tail[0])
    ensures Clean(rule, u)
  {
    MarkedGroups(rule, separators, tail);
    var n := |separators|;
    MarkSlices(separators, rule.mark, tail, u, k);
    ValueSpan(rule, u, k, n);
  }

  lemma MarkSlices(separators: string, mark: string, tail: string, u: string, k: nat)
    requires k <= |u| && u[k..] == separators + mark + tail
    ensures var p := k + |separators|;
      u[p..] == mark + tail && u[p..p + |mark|] == mark
  {
    var n, rest := |separators|, separators + mark + tail;
    SliceOfSuffix(u, k, n);
    assert rest[n..] == mark + tail && rest[n..n + |mark|] == mark;
  }

  lemma SliceOfSuffix(u: string, k: nat, n: nat)
    requires k + n <= |u|
    ensures u[k..][n..] == u[k + n..]
    ensures forall m :: n <= m <= |u| - k ==> u[k..][n..m] == u[k + n..k + m]
  {
  }

  /** Separators and the mark are read back as the second and third group. */
  lemma MarkedGroups(rule: Rule, separators: string, tail: string)
    requires separators != "" && forall j :: 0 <= j < |separators| ==> IsSeparator(separators[j])
    requires tail == "" || !IsValue(tail[0])
    ensures var rest := separators + rule.mark + tail; GiveBack(rest, SeparatorRun(rest)) == |separators|
    ensures ValueRun(rule.mark + tail) == |rule.mark|
  {
    var rest := separators + rule.mark + tail;
    var m := |separators|;
    assert rest[m] == rule.mark[0];
    assert forall j :: 0 <= j < m ==> rest[j] == separators[j];
    SeparatorRunIs(rest);
    MarkEnds(rule, tail);
  }

  lemma MarkEnds(rule: Rule, tail: string)
    requires tail == "" || !IsValue(tail[0])
    ensures ValueRun(rule.mark + tail) == |rule.mark|
  {
    var u := rule.mark + tail;
    assert forall j :: 0 <= j < |rule.mark| ==> u[j] == rule.mark[j] && IsValue(rule.mark[j]);
    assert tail != "" ==> u[|rule.mark|] == tail[0];
    ValueRunIs(u);
  }

  /** The output of redaction is in normal form. */
  lemma {:induction false} RedactIsNormal(rule: Rule, s: string)
    ensures NormalForm(rule, Redact(rule, s))
  {
    if s == "" {
    } else if Matches(rule, s) {
      var p, e := ValueStart(rule, s), ValueEnd(rule, s);
      RedactIsNormal(rule, s[e..]);
      DelimiterFollows(rule, s);
      DelimiterStays(rule, s[e..]);
      MatchIsReading(rule, s);
      var w, head := KeywordAt(rule, s), s[..p];
      HeadKeyword(rule, s, w, p);
      MarkedIsNormal(rule, head, |w|, Redact(rule, s[e..]));
    } else {
      var r := Redact(rule, s[1..]);
      RedactIsNormal(rule, s[1..]);
      NoNewMatch(rule, s);
      var o := [s[0]] + r;
      forall i | 0 <= i <= |o| ensures CleanAt(rule, o, i) {
        if i > 0 {
          assert CleanAt(rule, r, i - 1);
          assert o[i..] == r[i - 1..];
        } else {
          assert o[0..] == o;
        }
      }
    }
  }

  lemma HeadKeyword(rule: Rule, s: string, w: string, p: nat)
    requires w in rule.words && HasWord(s, w) && |w| <= p <= |s|
    ensures Keyword(rule, s[..p]) == |w|
  {
    assert HasWord(s[..p], w);
    KeywordFits(rule, s[..p]);
    KeywordsDiffer(rule, s[..p], w, KeywordAt(rule, s[..p]));
  }

  lemma RedactTwice(rule: Rule, s: string)
    ensures Redact(rule, Redact(rule, s)) == Redact(rule, s)
  {
    RedactIsNormal(rule, s);
    NormalFormIsFixed(rule, Redact(rule, s));
  }

  // ---------------------------------------------------------------- the program's own pattern

  const KEYWORDS: seq<string> :=
    ["password", "passwd", "token", "secret", "authorization", "access_key", "access-key", "accesskey"]

  const MARK := "<redacted>"

  const SENSITIVE := Pattern(KEYWORDS, MARK)

  /** Where two of the words first differ. */
  lemma WordsAreApart(w: string, x: string)
    requires w in KEYWORDS && x in KEYWORDS && w != x
    ensures Apart(w, x)
  {
    var i := if w[0] != x[0] then 0 else if w[1] != x[1] then 1 else if w[5] != x[5] then 5 else 6;
    assert i < |w| && i < |x| && w[i] != x[i];
  }

  lemma WordIsMissed(w: string, i: nat)
    requires w in KEYWORDS && i < |MARK|
    ensures Missed(MARK, w, i)
  {
    assert w[0] in {'p', 't', 's', 'a'} && (w[0] == 't' ==> w[1] == 'o')
           && (w[0] == 'a' ==> w[1] == 'u' || w[2] == 'c');
    var j := if i == 4 && w[0] == 'a' then if w[1] == 'u' then 1 else 2 else if i == 6 && w[0] == 't' then 1 else 0;
    assert !SameLetter(MARK[i + j], w[j]);
  }

  lemma LettersOfWords(w: string)
    requires w in KEYWORDS
    ensures Lettered(w)
  {
  }

  lemma CharactersOfMark()
    ensures MARK != "" && !IsSeparator(MARK[0])
    ensures forall i :: 0 <= i < |MARK| ==> IsValue(MARK[i])
    ensures forall l :: IsLetter(l) ==> !SameLetter(MARK[0], l)
  {
  }

  lemma SensitiveIsApt()
    ensures Apt(SENSITIVE)
  {
    CharactersOfMark();
    forall w | w in KEYWORDS ensures Lettered(w) { LettersOfWords(w); }
    forall w, x | w in KEYWORDS && x in KEYWORDS && w != x ensures Apart(w, x) { WordsAreApart(w, x); }
    forall w, i | w in KEYWORDS && 0 <= i < |MARK| ensures Missed(MARK, w, i) { WordIsMissed(w, i); }
  }

  function SensitiveRule(): Rule {
    SensitiveIsApt();
    SENSITIVE
  }

  /** `executor.Redact`. */
  function RedactSecrets(s: string): string {
    Redact(SensitiveRule(), s)
  }

  /** In the output, every keyword followed by separators and a value, wherever it stands and
      however it overlaps others, has exactly the mark as that value. */
  lemma RedactedTextIsNormal(s: string)
    ensures NormalForm(SensitiveRule(), RedactSecrets(s))
  {
    RedactIsNormal(SensitiveRule(), s);
  }

  /** Redacting in `run` and again in `Log` changes nothing further. */
  lemma RedactIdempotent(s: string)
    ensures RedactSecrets(RedactSecrets(s)) == RedactSecrets(s)
  {
    RedactTwice(SensitiveRule(), s);
  }

  /** The texts that redaction leaves alone are exactly those in normal form. */
  lemma FixedExactlyWhenNormal(t: string)
    ensures RedactSecrets(t) == t <==> NormalForm(SensitiveRule(), t)
  {
    if NormalForm(SensitiveRule(), t) {
      NormalFormIsFixed(SensitiveRule(), t);
    } else {
      RedactIsNormal(SensitiveRule(), t);
    }
  }

  // ---------------------------------------------------------------- in so many words

  /** The word stands at `i`, each letter small or capital. */
  predicate Spelled(s: string, i: nat, w: string) {
    && i + |w| <= |s|
    && forall k :: 0 <= k < |w| ==> s[i + k] == w[k] || ('a' <= w[k] <= 'z' && s[i + k] == w[k] - 'a' + 'A')
  }

  /** One of the words that announce a secret. */
  predicate Announces(s: string, i: nat, n: nat) {
    || (n == 8 && Spelled(s, i, "password")) || (n == 6 && Spelled(s, i, "passwd"))
    || (n == 5 && Spelled(s, i, "token")) || (n == 6 && Spelled(s, i, "secret"))
    || (n == 13 && Spelled(s, i, "authorization")) || (n == 9 && Spelled(s, i, "accesskey"))
    || (n == 10 && Spelled(s, i, "access_key")) || (n == 10 && Spelled(s, i, "access-key"))
  }

  /** One or more of equals sign, colon and blank. */
  predicate Separated(s: string, i: nat, m: nat) {
    m > 0 && i + m <= |s| && forall k :: i <= k < i + m ==> s[k] == '=' || s[k] == ':' || s[k] == ' '
  }

  /** The character at `i` belongs to a value. */
  predicate ValueAt(s: string, i: nat) {
    i < |s| && s[i] != '\t' && s[i] != '\n' && s[i] != '\U{0C}' && s[i] != '\r' && s[i] != ' ' && s[i] != ','
    && s[i] != ';'
  }

  /** The text from `i` on is the mark, up to where a value would end. */
  predicate HiddenAt(s: string, i: nat) {
    i + 10 <= |s| && s[i..i + 10] == "<redacted>" && !ValueAt(s, i + 10)
  }

  /** The word as the pattern has it. */
  lemma AnnouncedWord(s: string, i: nat, n: nat) returns (w: string)
    requires Announces(s, i, n)
    ensures w in KEYWORDS && |w| == n && i + n <= |s| && Spelled(s, i, w) && HasWord(s[i..], w)
  {
    if n == 8 {
      w := "password";
    } else if n == 5 {
      w := "token";
    } else if n == 13 {
      w := "authorization";
    } else if n == 9 {
      w := "accesskey";
    } else if n == 6 {
      if Spelled(s, i, "passwd") { w := "passwd"; } else { w := "secret"; }
    } else {
      if Spelled(s, i, "access_key") { w := "access_key"; } else { w := "access-key"; }
    }
    assert w in KEYWORDS by { InKeywords(); }
  }

  lemma InKeywords()
    ensures "password" in KEYWORDS && "passwd" in KEYWORDS && "token" in KEYWORDS && "secret" in KEYWORDS
    ensures "authorization" in KEYWORDS && "accesskey" in KEYWORDS
    ensures "access_key" in KEYWORDS && "access-key" in KEYWORDS
  {
    assert KEYWORDS[0] == "password" && KEYWORDS[1] == "passwd" && KEYWORDS[2] == "token" && KEYWORDS[3] == "secret";
    assert KEYWORDS[4] == "authorization" && KEYWORDS[5] == "access_key";
    assert KEYWORDS[6] == "access-key" && KEYWORDS[7] == "accesskey";
  }

  /** What clean text has after a keyword, separators and a value. */
  lemma CleanReading(rule: Rule, s: string, w: string, m: nat) returns (q: nat)
    requires Clean(rule, s) && Reading(rule, s, w, m, 1)
    ensures q >= m && |w| + q + |rule.mark| <= |s|
    ensures forall k :: |w| <= k < |w| + q ==> IsSeparator(s[k])
    ensures var e := |w| + q + |rule.mark|; s[|w| + q..e] == rule.mark && (e < |s| ==> !IsValue(s[e]))
  {
    ReadingIsCovered(rule, s, w, m, 1);
    MatchIsReading(rule, s);
    KeywordsDiffer(rule, s, w, KeywordAt(rule, s));
    q := ValueStart(rule, s) - |w|;
    var e := ValueEnd(rule, s);
    ValueRunIs(s[|w| + q..]);
    assert e < |s| ==> s[|w| + q..][e - |w| - q] == s[e];
  }

  lemma SuffixReads(rule: Rule, o: string, i: nat, w: string, m: nat)
    requires w in rule.words && i + |w| + m < |o| && HasWord(o[i..], w)
    requires Separated(o, i + |w|, m) && ValueAt(o, i + |w| + m)
    ensures Reading(rule, o[i..], w, m, 1)
  {
    var s := o[i..];
    assert forall k :: 0 <= k < |s| ==> s[k] == o[i + k];
  }

  lemma MarkIsHidden(o: string, i: nat, p: nat)
    requires i + p + 10 <= |o| && o[i..][p..p + 10] == "<redacted>"
    requires p + 10 < |o| - i ==> !IsValue(o[i..][p + 10])
    ensures HiddenAt(o, i + p)
  {
    assert o[i + p..i + p + 10] == o[i..][p..p + 10];
  }

  lemma CleanIsHidden(rule: Rule, o: string, i: nat, w: string, m: nat) returns (q: nat)
    requires NormalForm(rule, o) && w in rule.words && i + |w| + m < |o| && HasWord(o[i..], w)
    requires rule.mark == "<redacted>" && Separated(o, i + |w|, m) && ValueAt(o, i + |w| + m)
    ensures q >= m && Separated(o, i + |w|, q) && HiddenAt(o, i + |w| + q)
  {
    assert CleanAt(rule, o, i);
    SuffixReads(rule, o, i, w, m);
    q := CleanReading(rule, o[i..], w, m);
    MarkIsHidden(o, i, |w| + q);
    assert forall k :: i + |w| <= k < i + |w| + q ==> o[k] == o[i..][k - i];
  }

  /** From `i` on come this many separators and then the mark. */
  predicate HiddenAfter(s: string, i: nat, q: nat) {
    Separated(s, i, q) && HiddenAt(s, i + q)
  }

  /** That many separators, or more. */
  ghost predicate HidesFrom(s: string, i: nat, m: nat) {
    exists q: nat :: q >= m && HiddenAfter(s, i, q)
  }

  lemma CleanTextHides(o: string, i: nat, n: nat, m: nat)
    requires NormalForm(SensitiveRule(), o) && Announces(o, i, n) && Separated(o, i + n, m) && ValueAt(o, i + n + m)
    ensures HidesFrom(o, i + n, m)
    ensures o[i + n + m] != '=' && o[i + n + m] != ':' ==> HiddenAt(o, i + n + m)
  {
    var w := AnnouncedWord(o, i, n);
    var q := CleanIsHidden(SensitiveRule(), o, i, w, m);
    assert HiddenAfter(o, i + n, q);
    if q > m { assert i + n <= i + n + m < i + n + q; }
  }

  /** In the output, one of the words `password`, `passwd`, `token`, `secret`, `authorization`,
      `accesskey`, `access_key` and `access-key`, in small or capital letters, that is followed by
      separators and a value is followed by separators and the mark; and the mark stands right there
      if the value starts with no separator. */
  lemma SecretsAreHidden(s: string, i: nat, n: nat, m: nat)
    requires Announces(RedactSecrets(s), i, n) && Separated(RedactSecrets(s), i + n, m)
    requires ValueAt(RedactSecrets(s), i + n + m)
    ensures HidesFrom(RedactSecrets(s), i + n, m)
    ensures RedactSecrets(s)[i + n + m] != '=' && RedactSecrets(s)[i + n + m] != ':' ==>
      HiddenAt(RedactSecrets(s), i + n + m)
  {
    RedactedTextIsNormal(s);
    CleanTextHides(RedactSecrets(s), i, n, m);
  }

  /** Such a word in the input, with the characters that fold to a letter of it. */
  predicate Foreshadows(s: string, i: nat) {
    i <= |s| && exists w :: w in {"password", "passwd", "token", "secret", "authorization", "accesskey", "access_key",
                                  "access-key"} && HasWord(s[i..], w) && |w| + i < |s| && IsSeparator(s[i + |w|])
  }

  lemma KeywordsAre(w: string)
    requires w in KEYWORDS
    ensures w in {"password", "passwd", "token", "secret", "authorization", "accesskey", "access_key", "access-key"}
  {
  }

  lemma MatchForeshadows(s: string, i: nat)
    requires i <= |s| && Matches(SensitiveRule(), s[i..])
    ensures Foreshadows(s, i)
  {
    var rule := SensitiveRule();
    MatchIsReading(rule, s[i..]);
    var w := KeywordAt(rule, s[i..]);
    KeywordsAre(w);
    assert s[i..][|w|] == s[i + |w|] && IsSeparator(s[i + |w|]);
  }

  /** A text in which no such word is followed by a separator stays as it is. */
  lemma NothingElseIsHidden(s: string)
    requires forall i: nat :: !Foreshadows(s, i)
    ensures RedactSecrets(s) == s
  {
    forall i: nat | i <= |s| && Matches(SensitiveRule(), s[i..]) ensures Foreshadows(s, i) {
      MatchForeshadows(s, i);
    }
    forall i | 0 <= i <= |s| ensures CleanAt(SensitiveRule(), s, i) {
      assert !Foreshadows(s, i);
    }
    NormalFormIsFixed(SensitiveRule(), s);
  }
}
