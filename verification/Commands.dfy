/** How a command line is written to the log. */
module Commands {
  import opened Redaction
  import opened Text

  /** `unicode.ToLower`, for the characters that it maps to a letter of the flags. */
  function Lower(c: char): char {
    if 'A' <= c <= 'Z' then c - 'A' + 'a' else if c == '\U{130}' then 'i' else if c == '\U{212A}' then 'k' else c
  }

  function LowerText(s: string): (r: string)
    ensures |r| == |s|
  {
    seq(|s|, i requires 0 <= i < |s| => Lower(s[i]))
  }

  predicate OccursAt(s: string, part: string, i: int) {
    0 <= i <= |s| - |part| && s[i..i + |part|] == part
  }

  predicate Contains(s: string, part: string) {
    exists i :: 0 <= i <= |s| && OccursAt(s, part, i)
  }

  /** The flags whose value is the next argument. */
  predicate IsFlag(a: string) {
    var l := LowerText(a);
    l == "--password-file" || l == "--password-command" || l == "--key-file"
  }

  const DEFAULTS := "--defaults-extra-file="

  predicate HasInline(a: string) {
    var l := LowerText(a);
    Contains(l, "password=") || Contains(l, "token=") || Contains(l, "secret=") || Contains(l, "authorization=")
  }

  /** What an argument that follows no flag is shown as. */
  function Shown(a: string): string {
    if DEFAULTS <= LowerText(a) then DEFAULTS + "<redacted>"
    else if IsFlag(a) then a
    else if HasInline(a) then RedactSecrets(a)
    else a
  }

  /** How many flags stand directly before argument `i`. */
  function FlagsBefore(args: seq<string>, i: nat): nat
    requires i <= |args|
  {
    if i == 0 || !IsFlag(args[i - 1]) then 0 else 1 + FlagsBefore(args, i - 1)
  }

  /** An argument is the value of a flag exactly when an odd number of flags stand directly before
      it: a flag that is itself the value of another has none. */
  predicate Hidden(args: seq<string>, i: nat)
    requires i <= |args|
  {
    FlagsBefore(args, i) % 2 == 1
  }

  predicate ShownAs(args: seq<string>, i: nat, text: string)
    requires i < |args|
  {
    text == if Hidden(args, i) then "<redacted>" else Shown(args[i])
  }

  /** `safeCommand`: the name and every argument, with exactly the values of the flags hidden and the
      others shown as they may be. */
  method SafeCommand(name: string, args: seq<string>) returns (line: string, safe: array<string>)
    ensures fresh(safe) && safe.Length == |args| && line == name + " " + Join(safe[..], " ")
    ensures forall i :: 0 <= i < |args| ==> ShownAs(args, i, safe[i])
  {
    safe := new string[|args|](_ => "");
    var redactNext := false;
    for i := 0 to |args|
      invariant redactNext <==> i > 0 && IsFlag(args[i - 1]) && !Hidden(args, i - 1)
      invariant forall k :: 0 <= k < i ==> ShownAs(args, k, safe[k])
    {
      HiddenStep(args, i);
      if redactNext {
        safe[i] := "<redacted>";
        redactNext := false;
      } else if DEFAULTS <= LowerText(args[i]) {
        safe[i] := DEFAULTS + "<redacted>";
        NoFlag(args[i]);
      } else if IsFlag(args[i]) {
        safe[i] := args[i];
        redactNext := true;
      } else if HasInline(args[i]) {
        safe[i] := RedactSecrets(args[i]);
      } else {
        safe[i] := args[i];
      }
    }
    line := name + " " + Join(safe[..], " ");
  }

  lemma NoFlag(a: string)
    requires DEFAULTS <= LowerText(a)
    ensures !IsFlag(a)
  {
    assert LowerText(a)[2] == 'd';
  }

  lemma HiddenStep(args: seq<string>, i: nat)
    requires i < |args|
    ensures Hidden(args, i) <==> i > 0 && IsFlag(args[i - 1]) && !Hidden(args, i - 1)
    ensures i == 0 ==> !Hidden(args, i)
  {
  }

  lemma ShownIsNormal(a: string)
    requires HasInline(a) && !IsFlag(a) && !(DEFAULTS <= LowerText(a))
    ensures NormalForm(SensitiveRule(), Shown(a))
  {
    RedactedTextIsNormal(a);
  }

  /** The value of a flag that is shown is hidden, and what is shown of an argument with a secret in
      it is in the normal form of redaction. */
  lemma ValuesAreHidden(args: seq<string>, i: nat, text: string)
    requires i < |args| && ShownAs(args, i, text)
    ensures i > 0 && IsFlag(args[i - 1]) && !Hidden(args, i - 1) ==> text == "<redacted>"
    ensures !Hidden(args, i) && HasInline(args[i]) && !IsFlag(args[i]) && !(DEFAULTS <= LowerText(args[i])) ==>
      NormalForm(SensitiveRule(), text)
  {
    HiddenStep(args, i);
    if HasInline(args[i]) && !IsFlag(args[i]) && !(DEFAULTS <= LowerText(args[i])) { ShownIsNormal(args[i]); }
  }

  /** An argument that is neither a flag nor hidden is shown in normal form if and only if it has one of
      the words that are searched for, or was in normal form already. */
  lemma ShownNormalExactlyWhen(args: seq<string>, i: nat, text: string)
    requires i < |args| && ShownAs(args, i, text) && !Hidden(args, i)
    requires !IsFlag(args[i]) && !(DEFAULTS <= LowerText(args[i]))
    ensures NormalForm(SensitiveRule(), text) <==> HasInline(args[i]) || NormalForm(SensitiveRule(), args[i])
  {
    if HasInline(args[i]) { ShownIsNormal(args[i]); }
  }

  // ---------------------------------------------------------------- in so many words

  /** The text in small or capital letters. */
  predicate Says(a: string, w: string) {
    |a| == |w| && Spelled(a, 0, w)
  }

  predicate SaysFlag(a: string) {
    Says(a, "--password-file") || Says(a, "--password-command") || Says(a, "--key-file")
  }

  lemma SaidIsLower(a: string, k: nat, w: string)
    requires Spelled(a, k, w) && forall i :: 0 <= i < |w| ==> w[i] == '-' || w[i] == '=' || 'a' <= w[i] <= 'z'
    ensures LowerText(a)[k..k + |w|] == w
  {
    forall i | 0 <= i < |w| ensures LowerText(a)[k + i] == w[i] {
      assert a[k + i] == w[i] || a[k + i] == w[i] - 'a' + 'A';
    }
  }

  lemma SaidIsFlag(a: string)
    requires SaysFlag(a)
    ensures IsFlag(a)
  {
    assert LowerText(a)[0..|a|] == LowerText(a);
    if Says(a, "--password-file") {
      SaidIsLower(a, 0, "--password-file");
    } else if Says(a, "--password-command") {
      SaidIsLower(a, 0, "--password-command");
    } else {
      SaidIsLower(a, 0, "--key-file");
    }
  }

  lemma SaidIsDefaults(a: string)
    requires Spelled(a, 0, "--defaults-extra-file=")
    ensures DEFAULTS <= LowerText(a)
  {
    SaidIsLower(a, 0, "--defaults-extra-file=");
  }

  lemma OnlyTheOptionIsShown(a: string)
    requires Spelled(a, 0, "--defaults-extra-file=")
    ensures Shown(a) == "--defaults-extra-file=<redacted>"
  {
    SaidIsDefaults(a);
    assert DEFAULTS + "<redacted>" == "--defaults-extra-file=<redacted>";
  }

  lemma PlainIsShown(a: string)
    requires '=' !in a
    ensures Shown(a) == a
  {
    NoEqualsSign(a);
  }

  /** What follows `--password-file`, `--password-command` or `--key-file`, in small or capital letters,
      is hidden, unless that is itself the value of such a flag; of an option that starts with
      `--defaults-extra-file=` only that is shown; and an argument without an equals sign that follows
      no such flag is shown as it is. */
  lemma FlagsInWords(args: seq<string>, i: nat, text: string)
    requires i < |args| && ShownAs(args, i, text)
    ensures i > 0 && !Hidden(args, i - 1) && SaysFlag(args[i - 1]) ==> text == "<redacted>"
    ensures !Hidden(args, i) && Spelled(args[i], 0, "--defaults-extra-file=") ==>
      text == "--defaults-extra-file=<redacted>"
    ensures !Hidden(args, i) && '=' !in args[i] ==> text == args[i]
    ensures Hidden(args, i) ==>
      i > 0 && LowerText(args[i - 1]) in {"--password-file", "--password-command", "--key-file"}
  {
    FlagsHide(args, i);
    if Spelled(args[i], 0, "--defaults-extra-file=") { OnlyTheOptionIsShown(args[i]); }
    if '=' !in args[i] { PlainIsShown(args[i]); }
  }

  lemma FlagsHide(args: seq<string>, i: nat)
    requires i < |args|
    ensures i > 0 && !Hidden(args, i - 1) && SaysFlag(args[i - 1]) ==> Hidden(args, i)
    ensures Hidden(args, i) ==>
      i > 0 && LowerText(args[i - 1]) in {"--password-file", "--password-command", "--key-file"}
  {
    HiddenStep(args, i);
    if i > 0 && SaysFlag(args[i - 1]) { SaidIsFlag(args[i - 1]); }
  }

  /** Without an equals sign there is no secret to be seen. */
  lemma NoEqualsSign(a: string)
    requires '=' !in a
    ensures !HasInline(a) && !(DEFAULTS <= LowerText(a))
  {
    var l := LowerText(a);
    forall i | 0 <= i < |l| ensures l[i] != '=' { assert a[i] in a; }
    assert DEFAULTS[21] == '=';
    NotContained(l, "password=");
    NotContained(l, "token=");
    NotContained(l, "secret=");
    NotContained(l, "authorization=");
  }

  lemma NotContained(l: string, part: string)
    requires part != "" && part[|part| - 1] == '=' && forall i :: 0 <= i < |l| ==> l[i] != '='
    ensures !Contains(l, part)
  {
    forall i ensures !OccursAt(l, part, i) {
      if 0 <= i <= |l| - |part| { assert l[i..i + |part|][|part| - 1] == l[i + |part| - 1]; }
    }
  }

  /** One of the words that an argument is searched for. */
  predicate Sought(s: string, k: nat, n: nat) {
    || (n == 8 && Spelled(s, k, "password")) || (n == 5 && Spelled(s, k, "token"))
    || (n == 6 && Spelled(s, k, "secret")) || (n == 13 && Spelled(s, k, "authorization"))
  }

  lemma SoughtIsInline(a: string, k: nat, n: nat)
    requires Sought(a, k, n) && k + n < |a| && a[k + n] == '='
    ensures HasInline(a)
  {
    assert "password" + "=" == "password=" && "token" + "=" == "token=";
    assert "secret" + "=" == "secret=" && "authorization" + "=" == "authorization=";
    if n == 8 {
      InlineWord(a, k, "password");
    } else if n == 5 {
      InlineWord(a, k, "token");
    } else if n == 6 {
      InlineWord(a, k, "secret");
    } else {
      InlineWord(a, k, "authorization");
    }
  }

  lemma InlineWord(a: string, k: nat, w: string)
    requires Spelled(a, k, w) && k + |w| < |a| && a[k + |w|] == '='
    requires forall i :: 0 <= i < |w| ==> 'a' <= w[i] <= 'z'
    ensures Contains(LowerText(a), w + "=")
  {
    var l := LowerText(a);
    SaidIsLower(a, k, w);
    assert l[k..k + |w| + 1] == w + "=";
    assert OccursAt(l, w + "=", k);
  }

  lemma LastLetter(s: string, k: nat, n: nat)
    requires Sought(s, k, n)
    ensures n > 0 && k + n <= |s| && s[k + n - 1] in {'d', 'D', 'n', 'N', 't', 'T'}
  {
    if n == 8 {
      assert s[k + 7] == "password"[7] || s[k + 7] == "password"[7] - 'a' + 'A';
    } else if n == 5 {
      assert s[k + 4] == "token"[4] || s[k + 4] == "token"[4] - 'a' + 'A';
    } else if n == 6 {
      assert s[k + 5] == "secret"[5] || s[k + 5] == "secret"[5] - 'a' + 'A';
    } else {
      assert s[k + 12] == "authorization"[12] || s[k + 12] == "authorization"[12] - 'a' + 'A';
    }
  }

  lemma OnlyEqualsSign(j: nat)
    requires j < 32 && "--defaults-extra-file=<redacted>"[j] == '='
    ensures j == 21 && "--defaults-extra-file=<redacted>"[20] == 'e'
  {
  }

  lemma FlagsHaveNoEqualsSign(a: string)
    requires IsFlag(a)
    ensures '=' !in a
  {
    var l := LowerText(a);
    assert forall j :: 0 <= j < |l| ==> l[j] != '=';
    forall j | 0 <= j < |a| ensures a[j] != '=' { assert l[j] == Lower(a[j]); }
  }

  /** The texts that stand for an argument have no such word before an equals sign. */
  lemma StandInsSayNothing(text: string, k: nat, n: nat)
    requires text == "<redacted>" || text == DEFAULTS + "<redacted>" || IsFlag(text)
    requires Sought(text, k, n) && k + n < |text|
    ensures text[k + n] != '='
  {
    LastLetter(text, k, n);
    if text == DEFAULTS + "<redacted>" {
      assert text == "--defaults-extra-file=<redacted>";
      if text[k + n] == '=' { OnlyEqualsSign(k + n); }
    } else if IsFlag(text) {
      FlagsHaveNoEqualsSign(text);
    }
  }

  /** In what is shown of an argument, `password=`, `token=`, `secret=` or `authorization=`, in small or
      capital letters, is followed by the mark wherever a value follows. */
  lemma SecretsOfArgumentsAreHidden(args: seq<string>, i: nat, text: string, k: nat, n: nat, m: nat)
    requires i < |args| && ShownAs(args, i, text)
    requires Sought(text, k, n) && Separated(text, k + n, m) && text[k + n] == '=' && ValueAt(text, k + n + m)
    ensures HidesFrom(text, k + n, m)
    ensures text[k + n + m] != '=' && text[k + n + m] != ':' ==> HiddenAt(text, k + n + m)
  {
    var a := args[i];
    if !Hidden(args, i) && !(DEFAULTS <= LowerText(a)) && !IsFlag(a) && HasInline(a) {
      SecretsAreHidden(a, k, n, m);
    } else if text == "<redacted>" || text == DEFAULTS + "<redacted>" || IsFlag(text) {
      StandInsSayNothing(text, k, n);
      assert false;
    } else {
      SoughtIsInline(text, k, n);
      assert false;
    }
  }

  /** A text whose one equals sign does not end this word. */
  lemma EndsNoWord(l: string, j: nat, part: string)
    requires j < |l| && forall k :: 0 <= k < |l| && l[k] == '=' ==> k == j
    requires part != "" && part[|part| - 1] == '='
    requires j + 1 < |part| || l[j + 1 - |part|] != part[0]
    ensures !Contains(l, part)
  {
    forall i ensures !OccursAt(l, part, i) {
      if 0 <= i <= |l| - |part| {
        assert l[i..i + |part|][|part| - 1] == l[i + |part| - 1];
        assert l[i..i + |part|][0] == l[i];
      }
    }
  }

  /** The other words of the pattern are not searched for: such a password is shown. */
  lemma PasswdIsShown()
    ensures ShownAs(["passwd=abc"], 0, "passwd=abc")
  {
    var l := LowerText("passwd=abc");
    assert l == "passwd=abc";
    EndsNoWord(l, 6, "password=");
    EndsNoWord(l, 6, "token=");
    EndsNoWord(l, 6, "secret=");
    EndsNoWord(l, 6, "authorization=");
  }
}
