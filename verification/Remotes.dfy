/** `ConfigureWebDAV`: add one remote to the rclone configuration, under a lock, by reading the file
    and replacing it. First the text, then the call on the file system, then any number of calls
    at once. */
module Remotes {
  import opened Files
  import opened Saving
  import opened Text
  import opened Wrappers

  /** The remote to add. `pass` is what `rclone obscure` printed, trimmed. */
  datatype Remote = Remote(name: string, endpoint: string, vendor: string, user: string, pass: string)

  predicate NameChar(c: char) {
    'A' <= c <= 'Z' || 'a' <= c <= 'z' || '0' <= c <= '9' || c == '_' || c == '-'
  }

  predicate ValidName(name: string) {
    1 <= |name| <= 64 && forall c :: c in name ==> NameChar(c)
  }

  predicate NoBreak(s: string) {
    '\n' !in s && '\r' !in s
  }

  // ---------------------------------------------------------------- the text

  function Header(name: string): string {
    "[" + name + "]"
  }

  function PassLine(r: Remote): string {
    "pass = " + r.pass
  }

  /** The lines of a section before its last. */
  function FirstLines(r: Remote): seq<string> {
    [Header(r.name), "type = webdav", "url = " + r.endpoint,
     "vendor = " + (if r.vendor == "" then "other" else r.vendor), "user = " + r.user]
  }

  function Section(r: Remote): string {
    Join(FirstLines(r) + [PassLine(r), ""], "\n")
  }

  function TrimNewlines(s: string): string {
    if s != "" && s[|s| - 1] == '\n' then TrimNewlines(s[..|s| - 1]) else s
  }

  function NewContent(existing: string, r: Remote): string {
    var base := TrimNewlines(existing);
    (if base != "" then base + "\n\n" else base) + Section(r)
  }

  function NonEmpty(lines: seq<string>): seq<string> {
    if lines == [] then [] else (if lines[0] == "" then [] else [lines[0]]) + NonEmpty(lines[1..])
  }

  function Count(lines: seq<string>, p: string -> bool): nat {
    if lines == [] then 0 else (if p(lines[0]) then 1 else 0) + Count(lines[1..], p)
  }

  /** Whether a line opens the section of this remote. */
  function Opens(name: string): string -> bool {
    line => TrimSpace(line) == Header(name)
  }

  function Headers(text: string, name: string): nat {
    Count(Split(text, '\n'), Opens(name))
  }

  lemma {:induction false} LinesConcat(a: seq<string>, b: seq<string>, p: string -> bool)
    ensures NonEmpty(a + b) == NonEmpty(a) + NonEmpty(b)
    ensures Count(a + b, p) == Count(a, p) + Count(b, p)
  {
    if a == [] {
      assert a + b == b;
    } else {
      assert (a + b)[1..] == a[1..] + b;
      LinesConcat(a[1..], b, p);
    }
  }

  lemma EmptyLine(p: string -> bool)
    requires !p("")
    ensures NonEmpty([""]) == [] && Count([""], p) == 0
  {
  }

  /** Trimming newlines at the end removes empty lines only. */
  lemma {:induction false} TrimKeepsLines(s: string, p: string -> bool)
    requires !p("")
    ensures NonEmpty(Split(TrimNewlines(s), '\n')) == NonEmpty(Split(s, '\n'))
    ensures Count(Split(TrimNewlines(s), '\n'), p) == Count(Split(s, '\n'), p)
  {
    if s != "" && s[|s| - 1] == '\n' {
      var t := s[..|s| - 1];
      TrimKeepsLines(t, p);
      assert s == t + ['\n'] + "";
      SplitConcat(t, "", '\n');
      LinesConcat(Split(t, '\n'), [""], p);
      EmptyLine(p);
    }
  }

  lemma {:induction false} JoinConcat(a: seq<string>, b: seq<string>)
    requires a != [] && b != []
    ensures Join(a + b, "\n") == Join(a, "\n") + "\n" + Join(b, "\n")
  {
    if |a| == 1 {
      assert (a + b)[1..] == b;
    } else {
      assert (a + b)[1..] == a[1..] + b;
      JoinConcat(a[1..], b);
    }
  }

  predicate Checked(r: Remote) {
    ValidName(r.name) && NoBreak(r.endpoint) && NoBreak(r.vendor) && NoBreak(r.user)
  }

  lemma FirstLinesAreLines(r: Remote)
    requires Checked(r)
    ensures forall x :: x in FirstLines(r) ==> '\n' !in x
  {
    assert forall c :: c in r.name ==> c != '\n';
  }

  /** The lines of a section: the five before the last, and those of the password. */
  lemma SectionLines(r: Remote)
    requires Checked(r)
    ensures Split(Section(r), '\n') == FirstLines(r) + Split(PassLine(r), '\n') + [""]
  {
    var first, tail := FirstLines(r), [PassLine(r), ""];
    FirstLinesAreLines(r);
    JoinConcat(first, tail);
    assert tail[1..] == [""];
    assert Join(tail, "\n") == PassLine(r) + "\n" + "";
    SplitConcat(Join(first, "\n"), Join(tail, "\n"), '\n');
    SplitJoin(first, '\n');
    SplitConcat(PassLine(r), "", '\n');
    assert Split(Section(r), '\n') == first + (Split(PassLine(r), '\n') + [""]);
  }

  /** A line that starts with a visible character other than a bracket opens no section. */
  lemma NotAHeader(line: string, name: string)
    requires line != "" && line[0] != '[' && !IsSpace(line[0])
    ensures TrimSpace(line) != Header(name)
  {
    TrimSpaceFirst(line);
    assert Header(name)[0] == '[';
  }

  lemma HeaderIsTrimmed(name: string)
    ensures TrimSpace(Header(name)) == Header(name)
  {
    var h := Header(name);
    assert h[0] == '[' && h[|h| - 1] == ']';
    TrimSpaceFixed(h);
  }

  lemma HeaderNamesDiffer(a: string, b: string)
    ensures Header(a) == Header(b) <==> a == b
  {
    assert Header(a)[1..|a| + 1] == a && Header(b)[1..|b| + 1] == b;
    assert |Header(a)| == |a| + 2 && |Header(b)| == |b| + 2;
  }

  lemma {:induction false} CountNone(lines: seq<string>, p: string -> bool)
    requires forall k :: 0 <= k < |lines| ==> !p(lines[k])
    ensures Count(lines, p) == 0
  {
    if lines != [] { CountNone(lines[1..], p); }
  }

  lemma FirstLineShapes(r: Remote)
    ensures var f := FirstLines(r);
      |f| == 5 && f[0] == Header(r.name) && forall k :: 1 <= k < 5 ==> f[k] != "" && f[k][0] in {'t', 'u', 'v'}
  {
  }

  lemma OpensItself(line: string, name: string)
    requires TrimSpace(line) == line
    ensures Opens(name)(line) <==> line == Header(name)
  {
  }

  lemma OpensItsHeader(line: string, own: string, name: string)
    requires line == Header(own)
    ensures Opens(name)(line) <==> name == own
  {
    HeaderIsTrimmed(own);
    OpensItself(line, name);
    HeaderNamesDiffer(own, name);
  }

  lemma OpensNoOther(line: string, name: string)
    requires line != "" && line[0] in {'t', 'u', 'v', 'p'}
    ensures !Opens(name)(line)
  {
    NotAHeader(line, name);
  }

  lemma CountFirst(lines: seq<string>, p: string -> bool)
    requires lines != [] && forall k :: 1 <= k < |lines| ==> !p(lines[k])
    ensures Count(lines, p) == if p(lines[0]) then 1 else 0
  {
    CountNone(lines[1..], p);
  }

  lemma HeadersOfFirstLines(r: Remote, name: string)
    ensures Count(FirstLines(r), Opens(name)) == if name == r.name then 1 else 0
  {
    FirstLineShapes(r);
    var f := FirstLines(r);
    OpensItsHeader(f[0], r.name, name);
    forall k | 1 <= k < 5 ensures !Opens(name)(f[k]) {
      OpensNoOther(f[k], name);
    }
    CountFirst(f, Opens(name));
  }

  /** A password of one line adds no section. */
  lemma OneLinePassword(r: Remote, name: string)
    requires '\n' !in r.pass
    ensures Headers(PassLine(r), name) == 0
  {
    SplitWhole(PassLine(r), '\n');
    OpensNoOther(PassLine(r), name);
    CountNone([PassLine(r)], Opens(name));
  }

  lemma LinesAfterABlank(base: string, text: string, p: string -> bool)
    requires !p("")
    ensures var all := Split(base + ['\n'] + ("" + ['\n'] + text), '\n');
      && NonEmpty(all) == NonEmpty(Split(base, '\n')) + NonEmpty(Split(text, '\n'))
      && Count(all, p) == Count(Split(base, '\n'), p) + Count(Split(text, '\n'), p)
  {
    var lines := Split(text, '\n');
    EmptyLine(p);
    SplitConcat(base, "" + ['\n'] + text, '\n');
    SplitConcat("", text, '\n');
    LinesConcat(Split(base, '\n'), [""] + lines, p);
    LinesConcat([""], lines, p);
  }

  /** The new text has the lines of the old one and those of the section, up to empty ones. */
  lemma NewContentLines(existing: string, r: Remote, p: string -> bool)
    requires !p("")
    ensures var before, after, section := Split(existing, '\n'),
                                          Split(NewContent(existing, r), '\n'), Split(Section(r), '\n');
      && NonEmpty(after) == NonEmpty(before) + NonEmpty(section)
      && Count(after, p) == Count(before, p) + Count(section, p)
  {
    var base, section := TrimNewlines(existing), Split(Section(r), '\n');
    TrimKeepsLines(existing, p);
    EmptyLine(p);
    if base == "" {
      assert NewContent(existing, r) == Section(r);
      assert Split(base, '\n') == [""];
    } else {
      assert NewContent(existing, r) == base + ['\n'] + ("" + ['\n'] + Section(r));
      LinesAfterABlank(base, Section(r), p);
    }
  }

  lemma EmptyOpensNothing(name: string)
    ensures !Opens(name)("")
  {
    TrimSpaceFixed("");
  }

  lemma HeadersOfSection(r: Remote, name: string)
    requires Checked(r)
    ensures Headers(Section(r), name) == (if name == r.name then 1 else 0) + Headers(PassLine(r), name)
  {
    var o := Opens(name);
    SectionLines(r);
    HeadersOfFirstLines(r, name);
    EmptyOpensNothing(name);
    EmptyLine(o);
    LinesConcat(FirstLines(r) + Split(PassLine(r), '\n'), [""], o);
    LinesConcat(FirstLines(r), Split(PassLine(r), '\n'), o);
  }

  /** What one call does to the file: every non-empty line stays, in order, followed by the new
      section; and the only sections it opens are its own and those that further lines of the
      password open. */
  lemma NewContentAddsASection(existing: string, r: Remote, name: string)
    requires Checked(r)
    ensures NonEmpty(Split(NewContent(existing, r), '\n'))
         == NonEmpty(Split(existing, '\n')) + NonEmpty(Split(Section(r), '\n'))
    ensures Headers(NewContent(existing, r), name)
         == Headers(existing, name) + (if name == r.name then 1 else 0) + Headers(PassLine(r), name)
  {
    EmptyOpensNothing(name);
    NewContentLines(existing, r, Opens(name));
    HeadersOfSection(r, name);
  }

  // ---------------------------------------------------------------- reading it back

  /** A section header, without the white space around it. */
  predicate IsHeader(line: string) {
    |line| >= 2 && line[0] == '[' && line[|line| - 1] == ']'
  }

  /** The line gives the key a value. */
  predicate HasKey(line: string, key: string) {
    key + " = " <= line
  }

  /** The first value of the key in a section of that name. `inside` says whether the lines start in one. */
  function ValueIn(lines: seq<string>, inside: bool, name: string, key: string): Option<string> {
    if lines == [] then None
    else if IsHeader(TrimSpace(lines[0])) then
      ValueIn(lines[1..], TrimSpace(lines[0]) == "[" + name + "]", name, key)
    else if inside && HasKey(lines[0], key) then Some(lines[0][|key| + 3..])
    else ValueIn(lines[1..], inside, name, key)
  }

  /** How a configuration is read. */
  function Read(text: string, name: string, key: string): Option<string> {
    ValueIn(Split(text, '\n'), false, name, key)
  }

  /** Under its name the text has exactly what the remote says. */
  ghost predicate ReadsAs(text: string, r: Remote) {
    && Read(text, r.name, "type") == Some("webdav") && Read(text, r.name, "url") == Some(r.endpoint)
    && Read(text, r.name, "vendor") == Some(if r.vendor == "" then "other" else r.vendor)
    && Read(text, r.name, "user") == Some(r.user) && Read(text, r.name, "pass") == Some(r.pass)
    && forall key :: ' ' !in key && key !in {"type", "url", "vendor", "user", "pass"} ==>
         Read(text, r.name, key) == None
  }

  /** What other names are read as does not change. */
  ghost predicate OthersReadSame(before: string, after: string, name: string) {
    forall other, key :: other != name && ' ' !in key ==> Read(after, other, key) == Read(before, other, key)
  }

  function InsideAfter(line: string, inside: bool, name: string): bool {
    if IsHeader(TrimSpace(line)) then TrimSpace(line) == "[" + name + "]" else inside
  }

  /** Whether the section goes on after the lines. */
  function StillInside(lines: seq<string>, inside: bool, name: string): bool {
    if lines == [] then inside
    else StillInside(lines[1..], InsideAfter(lines[0], inside, name), name)
  }

  lemma {:induction false} ValueOfConcat(a: seq<string>, b: seq<string>, inside: bool, name: string, key: string)
    ensures ValueIn(a + b, inside, name, key)
         == if ValueIn(a, inside, name, key).Some? then ValueIn(a, inside, name, key)
            else ValueIn(b, StillInside(a, inside, name), name, key)
    decreases a
  {
    if a == [] {
      assert a + b == b;
    } else {
      assert (a + b)[1..] == a[1..] + b;
      ValueOfConcat(a[1..], b, InsideAfter(a[0], inside, name), name, key);
    }
  }

  lemma EmptyLineSaysNothing(key: string)
    ensures !IsHeader(TrimSpace("")) && !HasKey("", key)
  {
    TrimSpaceFixed("");
  }

  lemma {:induction false} EmptyLinesSayNothing(lines: seq<string>, inside: bool, name: string, key: string)
    ensures ValueIn(NonEmpty(lines), inside, name, key) == ValueIn(lines, inside, name, key)
    decreases lines
  {
    if lines != [] {
      EmptyLinesSayNothing(lines[1..], InsideAfter(lines[0], inside, name), name, key);
      EmptyLineSaysNothing(key);
      if lines[0] != "" {
        var kept := NonEmpty(lines);
        assert kept[0] == lines[0] && kept[1..] == NonEmpty(lines[1..]);
      } else {
        assert NonEmpty(lines) == NonEmpty(lines[1..]);
      }
    }
  }

  /** Nothing is read from a text that has no header of that name. */
  lemma {:induction false} NoSectionNoValue(lines: seq<string>, name: string, key: string)
    requires Count(lines, Opens(name)) == 0
    ensures ValueIn(lines, false, name, key) == None && !StillInside(lines, false, name)
    decreases lines
  {
    if lines != [] {
      assert !Opens(name)(lines[0]) && Header(name) == "[" + name + "]";
      NoSectionNoValue(lines[1..], name, key);
    }
  }

  lemma FirstBlank(line: string, a: nat, b: nat)
    requires a < |line| && b < |line| && line[a] == ' ' && line[b] == ' '
    requires (forall i :: 0 <= i < a ==> line[i] != ' ') && forall i :: 0 <= i < b ==> line[i] != ' '
    ensures a == b
  {
  }

  /** A line of key and value. */
  lemma KeyLine(own: string, value: string, key: string)
    requires own != "" && IsKey(own) && ' ' !in key
    ensures var line := own + " = " + value;
      && line != "" && !IsHeader(TrimSpace(line)) && (HasKey(line, key) <==> key == own) && line[|own| + 3..] == value
  {
    var line := own + " = " + value;
    assert line[0] == own[0] && own[0] in own && line[|own|] == ' ' && line[..|own|] == own;
    TrimSpaceFirst(line);
    if HasKey(line, key) {
      assert line[|key|] == (key + " = ")[|key|] == ' ';
      assert line[..|key|] == key;
      forall i | 0 <= i < |own| ensures line[i] != ' ' { assert line[i] == own[i] && own[i] in own; }
      forall i | 0 <= i < |key| ensures line[i] != ' ' { assert line[i] == key[i] && key[i] in key; }
      FirstBlank(line, |own|, |key|);
    }
    if key == own { assert key + " = " <= line; }
  }

  predicate IsKey(own: string) {
    forall c :: c in own ==> 'a' <= c <= 'z'
  }

  /** Reading a line of key and value, and going on. */
  lemma ReadKeyLine(own: string, value: string, rest: seq<string>, inside: bool, name: string, key: string)
    requires own != "" && IsKey(own) && ' ' !in key
    ensures ValueIn([own + " = " + value] + rest, inside, name, key)
         == if inside && key == own then Some(value) else ValueIn(rest, inside, name, key)
  {
    var lines := [own + " = " + value] + rest;
    KeyLine(own, value, key);
    assert lines[1..] == rest;
  }

  lemma ReadHeaderLine(own: string, rest: seq<string>, inside: bool, name: string, key: string)
    ensures ValueIn([Header(own)] + rest, inside, name, key) == ValueIn(rest, name == own, name, key)
  {
    HeaderIsTrimmed(own);
    HeaderNamesDiffer(own, name);
    assert ([Header(own)] + rest)[1..] == rest && Header(name) == "[" + name + "]";
  }

  /** What the lines of a section are read as. */
  lemma ReadSectionLines(r: Remote, inside: bool, name: string, key: string)
    requires ' ' !in key
    ensures ValueIn(FirstLines(r) + [PassLine(r)], inside, name, key)
         == if name != r.name then None
            else if key == "type" then Some("webdav")
            else if key == "url" then Some(r.endpoint)
            else if key == "vendor" then Some(if r.vendor == "" then "other" else r.vendor)
            else if key == "user" then Some(r.user)
            else if key == "pass" then Some(r.pass)
            else None
  {
    var v := if r.vendor == "" then "other" else r.vendor;
    var own := name == r.name;
    var five := ["pass" + " = " + r.pass] + [];
    var four := ["user" + " = " + r.user] + five;
    var three := ["vendor" + " = " + v] + four;
    var two := ["url" + " = " + r.endpoint] + three;
    var one := ["type" + " = " + "webdav"] + two;
    ReadHeaderLine(r.name, one, inside, name, key);
    ReadKeyLine("type", "webdav", two, own, name, key);
    ReadKeyLine("url", r.endpoint, three, own, name, key);
    ReadKeyLine("vendor", v, four, own, name, key);
    ReadKeyLine("user", r.user, five, own, name, key);
    ReadKeyLine("pass", r.pass, [], own, name, key);
    LinesOfASection(r, five, four, three, two, one);
  }

  lemma LinesOfASection(r: Remote, five: seq<string>, four: seq<string>, three: seq<string>, two: seq<string>,
                        one: seq<string>)
    requires five == ["pass" + " = " + r.pass] + [] && four == ["user" + " = " + r.user] + five
    requires three == ["vendor" + " = " + (if r.vendor == "" then "other" else r.vendor)] + four
    requires two == ["url" + " = " + r.endpoint] + three && one == ["type" + " = " + "webdav"] + two
    ensures [Header(r.name)] + one == FirstLines(r) + [PassLine(r)]
  {
    assert "pass" + " = " == "pass = " && "user" + " = " == "user = " && "vendor" + " = " == "vendor = ";
    assert "url" + " = " == "url = " && "type" + " = " + "webdav" == "type = webdav";
  }

  lemma SectionIsRead(r: Remote, inside: bool, name: string, key: string)
    requires Checked(r) && '\n' !in r.pass
    ensures ValueIn(NonEmpty(Split(Section(r), '\n')), inside, name, key)
         == ValueIn(FirstLines(r) + [PassLine(r)], inside, name, key)
  {
    SectionLines(r);
    assert '\n' !in PassLine(r);
    SplitWhole(PassLine(r), '\n');
    var lines := FirstLines(r) + [PassLine(r)];
    EmptyLinesSayNothing(Split(Section(r), '\n'), inside, name, key);
    ValueOfConcat(lines, [""], inside, name, key);
    EmptyLineSaysNothing(key);
    assert [""][1..] == [];
    assert ValueIn([""], StillInside(lines, inside, name), name, key) == None;
  }

  lemma ReadAfterwards(existing: string, r: Remote, name: string, key: string)
    requires Checked(r) && '\n' !in r.pass && Headers(existing, r.name) == 0 && ' ' !in key
    ensures Read(NewContent(existing, r), name, key)
         == if name != r.name then Read(existing, name, key)
            else if key == "type" then Some("webdav")
            else if key == "url" then Some(r.endpoint)
            else if key == "vendor" then Some(if r.vendor == "" then "other" else r.vendor)
            else if key == "user" then Some(r.user)
            else if key == "pass" then Some(r.pass)
            else None
  {
    var before, after := Split(existing, '\n'), Split(NewContent(existing, r), '\n');
    var section := NonEmpty(Split(Section(r), '\n'));
    NewContentAddsASection(existing, r, name);
    EmptyLinesSayNothing(before, false, name, key);
    EmptyLinesSayNothing(after, false, name, key);
    ValueOfConcat(NonEmpty(before), section, false, name, key);
    var inside := StillInside(NonEmpty(before), false, name);
    SectionIsRead(r, inside, name, key);
    ReadSectionLines(r, inside, name, key);
    if name == r.name { NoSectionNoValue(before, name, key); }
  }

  /** Reading the configuration after a call: under the new name exactly the type `webdav`, the address,
      the vendor or `other`, the user and the password; under every other name what was there. */
  lemma NewRemoteIsRead(existing: string, r: Remote)
    requires Checked(r) && '\n' !in r.pass && Headers(existing, r.name) == 0
    ensures ReadsAs(NewContent(existing, r), r)
    ensures OthersReadSame(existing, NewContent(existing, r), r.name)
  {
    ReadAfterwards(existing, r, r.name, "type");
    ReadAfterwards(existing, r, r.name, "url");
    ReadAfterwards(existing, r, r.name, "vendor");
    ReadAfterwards(existing, r, r.name, "user");
    ReadAfterwards(existing, r, r.name, "pass");
    forall key | ' ' !in key && key !in {"type", "url", "vendor", "user", "pass"}
      ensures Read(NewContent(existing, r), r.name, key) == None
    {
      ReadAfterwards(existing, r, r.name, key);
    }
    forall name, key | name != r.name && ' ' !in key
      ensures Read(NewContent(existing, r), name, key) == Read(existing, name, key)
    {
      ReadAfterwards(existing, r, name, key);
    }
  }

  // ---------------------------------------------------------------- the call

  datatype Refusal = BadName | NoPath | HasBreak | NotHTTPS | Exists | ObscureFailed | FileFailed

  /** The text of the file, empty if there is none. */
  ghost function TextOf(d: Disk, path: string): string
    requires WellFormed(d)
  {
    if Visible(d, Named(path)).Some? then Visible(d, Named(path)).value else ""
  }

  /** What holds at every point at which a call may stop: the configuration is as before or has the
      new text, the backup is as before or has the old text. */
  ghost predicate Whole(before: Disk, s: Disk, path: string, existing: string, content: string) {
    && WellFormed(before) && WellFormed(s)
    && (Kept(before, s, Named(path)) || Replaced(before, s, Named(path), content))
    && (Kept(before, s, BackupName(path)) || Replaced(before, s, BackupName(path), existing))
  }

  ghost predicate WholeThroughout(trace: seq<Disk>, from: nat, before: Disk, path: string,
                                  existing: string, content: string) {
    forall i :: from <= i < |trace| ==> Whole(before, trace[i], path, existing, content)
  }

  /** After the backup, successful or not. */
  lemma BackupIsWhole(before: Disk, s: Disk, path: string, existing: string, content: string)
    requires WellFormed(before) && Outcome(before, s, BackupName(path), existing)
    ensures Whole(before, s, path, existing, content) && Kept(before, s, Named(path))
  {
    NamesDiffer(path);
  }

  lemma TargetIsWhole(before: Disk, middle: Disk, s: Disk, path: string, existing: string, content: string)
    requires Whole(before, middle, path, existing, content) && Kept(before, middle, Named(path))
    requires Outcome(middle, s, Named(path), content)
    ensures Whole(before, s, path, existing, content)
  {
    NamesDiffer(path);
    assert Kept(middle, s, BackupName(path));
    if Quiet(middle, s) { assert Kept(middle, s, Named(path)); }
  }

  /** Back up the text that was read, unless it is empty, and write the new one. */
  method ReplaceFile(v: Volume, path: string, existing: string, content: string) returns (ok: bool)
    requires v.Valid() && existing == TextOf(v.disk, path)
    modifies v
    ensures v.Valid() && |old(v.trace)| <= |v.trace| && old(v.trace) == v.trace[..|old(v.trace)|]
    ensures WholeThroughout(v.trace, |old(v.trace)|, old(v.disk), path, existing, content)
    ensures Whole(old(v.disk), v.disk, path, existing, content)
    ensures ok ==> Durable(v.disk, Named(path), content)
    ensures ok && existing != "" ==> OnlySurvivor(v.disk, BackupName(path), existing)
    ensures forall o :: Beside(path, o) ==> Kept(old(v.disk), v.disk, o)
  {
    ghost var start, mark := v.disk, |v.trace|;
    var target, backup := Named(path), BackupName(path);
    NamesDiffer(path);
    QuietIsReflexive(start);
    BackupIsWhole(start, start, path, existing, content);
    ghost var middle, second := start, mark;
    if |existing| > 0 {
      ok := v.WriteFileAtomic(backup, existing);
      forall i | mark <= i < |v.trace| ensures Whole(start, v.trace[i], path, existing, content) {
        BackupIsWhole(start, v.trace[i], path, existing, content);
      }
      BackupIsWhole(start, v.disk, path, existing, content);
      if !ok { return; }
      middle, second := v.disk, |v.trace|;
    }
    ok := v.WriteFileAtomic(target, content);
    forall i | second <= i < |v.trace| ensures Whole(start, v.trace[i], path, existing, content) {
      TargetIsWhole(start, middle, v.trace[i], path, existing, content);
    }
    TargetIsWhole(start, middle, v.disk, path, existing, content);
    if ok { assert Kept(middle, v.disk, backup); }
    forall o | Beside(path, o) ensures Kept(start, v.disk, o) {
      assert Kept(start, middle, o) && Kept(middle, v.disk, o);
    }
  }

  method HasHeader(text: string, name: string) returns (found: bool)
    ensures found <==> Headers(text, name) > 0
  {
    var lines := Split(text, '\n');
    for i := 0 to |lines|
      invariant Count(lines, Opens(name)) == Count(lines[i..], Opens(name))
    {
      assert lines[i..][1..] == lines[i + 1..];
      if Opens(name)(lines[i]) { return true; }
    }
    assert lines[|lines|..] == [];
    return false;
  }

  /** What is wrong with the arguments, in the order in which it is found. */
  function ArgumentRefusal(path: string, r: Remote, secure: bool): Option<Refusal> {
    if !ValidName(r.name) then Some(BadName)
    else if path == "" then Some(NoPath)
    else if !Checked(r) then Some(HasBreak)
    else if !secure then Some(NotHTTPS)
    else None
  }

  /** Accepted are a name of 1 to 64 letters, digits, hyphens and underscores, a path, values without a
      line break, and an HTTPS address. */
  lemma ArgumentsAcceptedExactlyWhen(path: string, r: Remote, secure: bool)
    ensures ArgumentRefusal(path, r, secure).None? <==>
            && 1 <= |r.name| <= 64
            && (forall c :: c in r.name ==>
                  'A' <= c <= 'Z' || 'a' <= c <= 'z' || '0' <= c <= '9' || c == '-' || c == '_')
            && path != "" && secure
            && (forall value :: value in {r.endpoint, r.vendor, r.user} ==> '\n' !in value && '\r' !in value)
  {
    assert NoBreak(r.endpoint) <==> '\n' !in r.endpoint && '\r' !in r.endpoint;
  }

  /** The checks before the file is touched. */
  method Check(path: string, r: Remote, secure: bool) returns (refusal: Option<Refusal>)
    ensures refusal == ArgumentRefusal(path, r, secure)
  {
    if !ValidName(r.name) { return Some(BadName); }
    if path == "" { return Some(NoPath); }
    var values := [r.endpoint, r.vendor, r.user];
    for i := 0 to |values|
      invariant forall k :: 0 <= k < i ==> NoBreak(values[k])
    {
      if '\r' in values[i] || '\n' in values[i] { return Some(HasBreak); }
    }
    assert NoBreak(values[0]) && NoBreak(values[1]) && NoBreak(values[2]);
    if !secure { return Some(NotHTTPS); }
    return None;
  }

  /** The remote with the password as `rclone obscure` printed it. */
  function WithPassword(r: Remote, obscured: Option<string>): Remote {
    r.(pass := if obscured.Some? then TrimSpace(obscured.value) else "")
  }

  /** Making the lock file touches neither the configuration nor its backup. */
  lemma LockIsWhole(before: Disk, s: Disk, path: string, existing: string, content: string)
    requires WellFormed(before) && QuietBut(before, s, LockName(path))
    ensures Whole(before, s, path, existing, content) && TextOf(s, path) == TextOf(before, path)
  {
    NamesDiffer(path);
    assert Kept(before, s, Named(path)) && Kept(before, s, BackupName(path));
  }

  lemma WholeFromLock(before: Disk, locked: Disk, s: Disk, path: string, existing: string, content: string)
    requires WellFormed(before) && QuietBut(before, locked, LockName(path)) && Whole(locked, s, path, existing, content)
    ensures Whole(before, s, path, existing, content)
  {
    NamesDiffer(path);
    assert Kept(before, locked, Named(path)) && Kept(before, locked, BackupName(path));
  }

  lemma WholeAllAlong(before: Disk, locked: Disk, trace: seq<Disk>, mark: nat, second: nat, path: string,
                      existing: string, content: string)
    requires WellFormed(before) && QuietBut(before, locked, LockName(path)) && mark <= second <= |trace|
    requires WholeThroughout(trace[..second], mark, before, path, existing, content)
    requires WholeThroughout(trace, second, locked, path, existing, content)
    ensures WholeThroughout(trace, mark, before, path, existing, content)
  {
    forall i | mark <= i < |trace| ensures Whole(before, trace[i], path, existing, content) {
      if i < second {
        assert trace[..second][i] == trace[i];
      } else {
        WholeFromLock(before, locked, trace[i], path, existing, content);
      }
    }
  }

  /** The lock file is opened, or made. */
  method OpenLock(v: Volume, path: string, ghost content: string) returns (there: bool)
    requires v.Valid()
    modifies v
    ensures v.Valid() && |old(v.trace)| <= |v.trace| && old(v.trace) == v.trace[..|old(v.trace)|]
    ensures QuietBut(old(v.disk), v.disk, LockName(path)) && TextOf(v.disk, path) == TextOf(old(v.disk), path)
    ensures WholeThroughout(v.trace, |old(v.trace)|, old(v.disk), path, TextOf(old(v.disk), path), content)
    ensures forall o :: Beside(path, o) && (o != LockName(path) || o in old(v.disk).dir) ==>
            Kept(old(v.disk), v.disk, o)
  {
    ghost var start, mark, existing := v.disk, |v.trace|, TextOf(v.disk, path);
    there := v.OpenOrCreate(LockName(path));
    forall i | mark <= i < |v.trace| ensures Whole(start, v.trace[i], path, existing, content) {
      LockIsWhole(start, v.trace[i], path, existing, content);
    }
    LockIsWhole(start, v.disk, path, existing, content);
  }

  /** What a successful call has found and left; `r` has the password as it was written. */
  ghost predicate Added(before: Disk, after: Disk, path: string, r: Remote, content: string)
    requires WellFormed(before)
  {
    var existing := TextOf(before, path);
    && Checked(r) && path != "" && Headers(existing, r.name) == 0
    && Durable(after, Named(path), content)
    && (existing != "" ==> OnlySurvivor(after, BackupName(path), existing))
    && ('\n' !in r.pass ==> ReadsAs(content, r) && OthersReadSame(existing, content, r.name))
  }

  /** `ConfigureWebDAV`, given whether the address is a valid HTTPS URL and what `rclone obscure`
      printed. Making the directory, locking and reading may fail. A refusal of the arguments leaves
      the disk alone; every later refusal may leave the lock file behind. */
  method ConfigureWebDAV(v: Volume, path: string, r: Remote, secure: bool, obscured: Option<string>)
    returns (refusal: Option<Refusal>)
    requires v.Valid()
    modifies v
    ensures v.Valid() && |old(v.trace)| <= |v.trace| && old(v.trace) == v.trace[..|old(v.trace)|]
    ensures WholeThroughout(v.trace, |old(v.trace)|, old(v.disk), path, TextOf(old(v.disk), path),
                            NewContent(TextOf(old(v.disk), path), WithPassword(r, obscured)))
    ensures refusal.None? ==> secure && obscured.Some? && Added(old(v.disk), v.disk, path, WithPassword(r, obscured),
                            NewContent(TextOf(old(v.disk), path), WithPassword(r, obscured)))
    ensures refusal == Some(Exists) ==> Headers(TextOf(old(v.disk), path), r.name) > 0
    ensures Headers(TextOf(old(v.disk), path), r.name) > 0 || obscured.None? ==> refusal.Some?
    ensures ArgumentRefusal(path, r, secure).Some? ==>
            refusal == ArgumentRefusal(path, r, secure) && v.disk == old(v.disk)
    ensures refusal.Some? && refusal != Some(FileFailed) ==> QuietBut(old(v.disk), v.disk, LockName(path))
    ensures forall o :: Beside(path, o) && (o != LockName(path) || o in old(v.disk).dir) ==>
            Kept(old(v.disk), v.disk, o)
  {
    ghost var start, mark, oldText := v.disk, |v.trace|, TextOf(v.disk, path);
    ghost var newText := NewContent(oldText, WithPassword(r, obscured));
    QuietIsReflexive(start);
    refusal := Check(path, r, secure);
    if refusal.Some? { return; }
    if * { return Some(FileFailed); }  // os.MkdirAll
    var there := OpenLock(v, path, newText);
    ghost var locked, second := v.disk, |v.trace|;
    if !there { return Some(FileFailed); }
    if * { return Some(FileFailed); }  // flock, os.ReadFile
    refusal := Add(v, path, r, obscured);
    WholeAllAlong(start, locked, v.trace, mark, second, path, oldText, newText);
    forall o | Beside(path, o) && (o != LockName(path) || o in start.dir) ensures Kept(start, v.disk, o) {
      assert Kept(start, locked, o) && Kept(locked, v.disk, o);
    }
  }

  /** What happens under the lock. */
  method Add(v: Volume, path: string, r: Remote, obscured: Option<string>) returns (refusal: Option<Refusal>)
    requires v.Valid() && Checked(r) && path != ""
    modifies v
    ensures v.Valid() && |old(v.trace)| <= |v.trace| && old(v.trace) == v.trace[..|old(v.trace)|]
    ensures WholeThroughout(v.trace, |old(v.trace)|, old(v.disk), path, TextOf(old(v.disk), path),
                            NewContent(TextOf(old(v.disk), path), WithPassword(r, obscured)))
    ensures refusal.None? ==> obscured.Some? && Added(old(v.disk), v.disk, path, WithPassword(r, obscured),
                            NewContent(TextOf(old(v.disk), path), WithPassword(r, obscured)))
    ensures refusal == Some(Exists) <==> Headers(TextOf(old(v.disk), path), r.name) > 0
    ensures refusal == Some(ObscureFailed) <==> Headers(TextOf(old(v.disk), path), r.name) == 0 && obscured.None?
    ensures refusal.Some? ==> refusal.value in {Exists, ObscureFailed, FileFailed}
    ensures refusal.Some? && refusal != Some(FileFailed) ==> v.disk == old(v.disk)
    ensures forall o :: Beside(path, o) ==> Kept(old(v.disk), v.disk, o)
  {
    var existing := if Named(path) in v.disk.dir then v.disk.files[v.disk.dir[Named(path)]].data else "";
    var found := HasHeader(existing, r.name);
    if found { return Some(Exists); }
    if obscured.None? { return Some(ObscureFailed); }
    var content := NewContent(existing, WithPassword(r, obscured));
    if '\n' !in WithPassword(r, obscured).pass { NewRemoteIsRead(existing, WithPassword(r, obscured)); }
    var ok := ReplaceFile(v, path, existing, content);
    return if ok then None else Some(FileFailed);
  }

  // ---------------------------------------------------------------- many calls at once

  /** How far a call has come. `Ready` has read the file under the lock and made the new text. */
  datatype Phase = Waiting | Locked | Ready(content: string) | Written | Done(ok: bool)

  datatype Client = Client(remote: Remote, phase: Phase)

  /** The text that everyone reads, who holds the lock, the calls, and the remotes written so far. */
  datatype State = State(text: string, holder: Option<nat>, clients: map<nat, Client>, written: seq<Remote>)

  /** A call that stops, for any reason and at any point, gives up its lock. */
  datatype Step =
    | Launch(p: nat, r: Remote)
    | Lock(p: nat)
    | Read(p: nat)
    | Write(p: nat)
    | Finish(p: nat)
    | Stop(p: nat)

  predicate InPhase(s: State, p: nat, phase: Phase) {
    p in s.clients && s.clients[p].phase == phase
  }

  predicate Enabled(s: State, step: Step) {
    match step
    case Launch(p, r) => p !in s.clients && Checked(r) && '\n' !in r.pass
    case Lock(p) => InPhase(s, p, Waiting) && s.holder.None?
    case Read(p) => InPhase(s, p, Locked)
    case Write(p) => p in s.clients && s.clients[p].phase.Ready?
    case Finish(p) => InPhase(s, p, Written)
    case Stop(p) => p in s.clients && !s.clients[p].phase.Done?
  }

  function Moved(s: State, p: nat, phase: Phase): map<nat, Client>
    requires p in s.clients
  {
    s.clients[p := s.clients[p].(phase := phase)]
  }

  function Released(s: State, p: nat): Option<nat> {
    if s.holder == Some(p) then None else s.holder
  }

  function Next(s: State, step: Step): State
    requires Enabled(s, step)
  {
    match step
    case Launch(p, r) => s.(clients := s.clients[p := Client(r, Waiting)])
    case Lock(p) => s.(holder := Some(p), clients := Moved(s, p, Locked))
    case Read(p) =>
      var r := s.clients[p].remote;
      if Headers(s.text, r.name) > 0 then s.(holder := Released(s, p), clients := Moved(s, p, Done(false)))
      else s.(clients := Moved(s, p, Ready(NewContent(s.text, r))))
    case Write(p) =>
      s.(text := s.clients[p].phase.content, clients := Moved(s, p, Written),
         written := s.written + [s.clients[p].remote])
    case Finish(p) => s.(holder := Released(s, p), clients := Moved(s, p, Done(true)))
    case Stop(p) => s.(holder := Released(s, p), clients := Moved(s, p, Done(false)))
  }

  /** The text after adding remotes one after the other. */
  function Grown(initial: string, rs: seq<Remote>): string {
    if rs == [] then initial else NewContent(Grown(initial, rs[..|rs| - 1]), rs[|rs| - 1])
  }

  predicate AddedFresh(initial: string, rs: seq<Remote>, i: int)
    requires 0 <= i < |rs|
  {
    Checked(rs[i]) && '\n' !in rs[i].pass && Headers(Grown(initial, rs[..i]), rs[i].name) == 0
  }

  predicate AllFresh(initial: string, rs: seq<Remote>) {
    forall i :: 0 <= i < |rs| ==> AddedFresh(initial, rs, i)
  }

  predicate Holds(c: Client) {
    c.phase.Locked? || c.phase.Ready? || c.phase.Written?
  }

  /** The lock is held by the only call inside it, which has seen the present text; the text is the
      initial one with the written remotes added, each when it was not there. */
  ghost predicate Inv(initial: string, s: State) {
    && s.text == Grown(initial, s.written) && AllFresh(initial, s.written)
    && (forall p :: p in s.clients && Holds(s.clients[p]) ==> s.holder == Some(p))
    && (s.holder.Some? ==> s.holder.value in s.clients && Holds(s.clients[s.holder.value]))
    && (forall p :: p in s.clients ==> ClientInv(s.text, s.written, s.clients[p]))
  }

  predicate ClientInv(text: string, written: seq<Remote>, c: Client) {
    && Checked(c.remote) && '\n' !in c.remote.pass
    && (c.phase.Ready? ==> c.phase.content == NewContent(text, c.remote) && Headers(text, c.remote.name) == 0)
    && (c.phase.Written? || c.phase == Done(true) ==> c.remote in written)
  }

  lemma GrownOneMore(initial: string, rs: seq<Remote>, r: Remote)
    requires AllFresh(initial, rs) && Checked(r) && '\n' !in r.pass && Headers(Grown(initial, rs), r.name) == 0
    ensures Grown(initial, rs + [r]) == NewContent(Grown(initial, rs), r) && AllFresh(initial, rs + [r])
  {
    var more := rs + [r];
    assert more[..|rs|] == rs;
    forall i | 0 <= i < |more| ensures AddedFresh(initial, more, i) {
      if i < |rs| {
        assert AddedFresh(initial, rs, i);
        assert more[..i] == rs[..i];
      }
    }
  }

  /** A call moves without touching the file. */
  lemma OneMoves(initial: string, s: State, t: State, p: nat, c: Client)
    requires Inv(initial, s) && t.text == s.text && t.written == s.written && t.clients == s.clients[p := c]
    requires ClientInv(s.text, s.written, c)
    requires if Holds(c) then t.holder == Some(p) && (s.holder.None? || s.holder == Some(p))
             else t.holder == Released(s, p)
    ensures Inv(initial, t)
  {
  }

  /** A call outside the lock does not depend on the text. */
  lemma NotReady(text: string, next: string, written: seq<Remote>, r: Remote, c: Client)
    requires ClientInv(text, written, c) && !c.phase.Ready?
    ensures ClientInv(next, written + [r], c)
  {
  }

  lemma OthersDoNotHold(initial: string, s: State, p: nat, q: nat)
    requires Inv(initial, s) && p in s.clients && Holds(s.clients[p]) && q in s.clients && q != p
    ensures !Holds(s.clients[q]) && ClientInv(s.text, s.written, s.clients[q])
  {
  }

  lemma WriterIsReady(initial: string, s: State, p: nat)
    requires Inv(initial, s) && p in s.clients && s.clients[p].phase.Ready?
    ensures var r := s.clients[p].remote;
      && Checked(r) && '\n' !in r.pass && s.clients[p].phase.content == NewContent(s.text, r)
      && Headers(s.text, r.name) == 0 && s.text == Grown(initial, s.written) && s.holder == Some(p)
  {
    assert ClientInv(s.text, s.written, s.clients[p]);
  }

  lemma ClientsAfterWrite(initial: string, s: State, p: nat, q: nat)
    requires Inv(initial, s) && Enabled(s, Write(p)) && q in s.clients
    ensures var t := Next(s, Write(p)); ClientInv(t.text, t.written, t.clients[q])
  {
    var t := Next(s, Write(p));
    WriterIsReady(initial, s, p);
    if q != p {
      OthersDoNotHold(initial, s, p, q);
      NotReady(s.text, t.text, s.written, s.clients[p].remote, s.clients[q]);
    }
  }

  lemma WriteKeepsInv(initial: string, s: State, p: nat)
    requires Inv(initial, s) && Enabled(s, Write(p))
    ensures Inv(initial, Next(s, Write(p)))
  {
    var t := Next(s, Write(p));
    WriterIsReady(initial, s, p);
    GrownOneMore(initial, s.written, s.clients[p].remote);
    forall q | q in t.clients ensures ClientInv(t.text, t.written, t.clients[q]) {
      ClientsAfterWrite(initial, s, p, q);
    }
  }

  lemma StepKeepsInv(initial: string, s: State, step: Step)
    requires Inv(initial, s) && Enabled(s, step)
    ensures Inv(initial, Next(s, step))
  {
    var p := step.p;
    if step.Write? {
      WriteKeepsInv(initial, s, p);
    } else {
      if p in s.clients { assert ClientInv(s.text, s.written, s.clients[p]); }
      OneMoves(initial, s, Next(s, step), p, Next(s, step).clients[p]);
    }
  }

  ghost predicate IsRun(initial: string, states: seq<State>, steps: seq<Step>) {
    && |states| == |steps| + 1 && states[0] == State(initial, None, map[], [])
    && forall i :: 0 <= i < |steps| ==> Linked(states, steps, i)
  }

  ghost predicate Linked(states: seq<State>, steps: seq<Step>, i: int)
    requires 0 <= i < |steps| && |states| == |steps| + 1
  {
    Enabled(states[i], steps[i]) && states[i + 1] == Next(states[i], steps[i])
  }

  lemma {:induction false} RunKeepsInv(initial: string, states: seq<State>, steps: seq<Step>, n: nat)
    requires IsRun(initial, states, steps) && n < |states|
    ensures Inv(initial, states[n])
  {
    if n > 0 {
      RunKeepsInv(initial, states, steps, n - 1);
      assert Linked(states, steps, n - 1);
      StepKeepsInv(initial, states[n - 1], steps[n - 1]);
    }
  }

  predicate Names(rs: seq<Remote>, name: string) {
    exists i :: 0 <= i < |rs| && rs[i].name == name
  }

  lemma FreshPrefix(initial: string, rs: seq<Remote>)
    requires AllFresh(initial, rs) && rs != []
    ensures AllFresh(initial, rs[..|rs| - 1]) && AddedFresh(initial, rs, |rs| - 1)
  {
    var older := rs[..|rs| - 1];
    forall i | 0 <= i < |older| ensures AddedFresh(initial, older, i) {
      assert AddedFresh(initial, rs, i);
      assert older[..i] == rs[..i];
    }
  }

  lemma HeadersOneMore(text: string, r: Remote, name: string)
    requires Checked(r) && '\n' !in r.pass
    ensures Headers(NewContent(text, r), name) == Headers(text, name) + if name == r.name then 1 else 0
    ensures NonEmpty(Split(NewContent(text, r), '\n'))
         == NonEmpty(Split(text, '\n')) + NonEmpty(Split(Section(r), '\n'))
  {
    NewContentAddsASection(text, r, name);
    OneLinePassword(r, name);
  }

  lemma NamesOneMore(older: seq<Remote>, r: Remote, name: string)
    ensures Names(older + [r], name) <==> r.name == name || Names(older, name)
  {
    var rs := older + [r];
    assert rs[|older|] == r;
    if Names(older, name) {
      var i :| 0 <= i < |older| && older[i].name == name;
      assert rs[i].name == name;
    }
  }

  lemma GrownIsNewContent(initial: string, rs: seq<Remote>)
    requires AllFresh(initial, rs) && rs != []
    ensures var n := |rs| - 1;
      && Grown(initial, rs) == NewContent(Grown(initial, rs[..n]), rs[n]) && AllFresh(initial, rs[..n])
      && Checked(rs[n]) && '\n' !in rs[n].pass && Headers(Grown(initial, rs[..n]), rs[n].name) == 0
  {
    FreshPrefix(initial, rs);
  }

  lemma {:induction false} GrownHeaders(initial: string, rs: seq<Remote>, name: string)
    requires AllFresh(initial, rs)
    ensures Headers(Grown(initial, rs), name) == if Names(rs, name) then 1 else Headers(initial, name)
    ensures Names(rs, name) ==> Headers(initial, name) == 0
  {
    if rs != [] {
      var n := |rs| - 1;
      GrownIsNewContent(initial, rs);
      GrownHeaders(initial, rs[..n], name);
      HeadersOneMore(Grown(initial, rs[..n]), rs[n], name);
      assert rs == rs[..n] + [rs[n]];
      NamesOneMore(rs[..n], rs[n], name);
    }
  }

  /** The non-empty lines of the sections, in order. */
  function AddedLines(rs: seq<Remote>): seq<string> {
    if rs == [] then [] else AddedLines(rs[..|rs| - 1]) + NonEmpty(Split(Section(rs[|rs| - 1]), '\n'))
  }

  lemma Regroup(a: seq<string>, b: seq<string>, c: seq<string>)
    ensures a + b + c == a + (b + c)
  {
  }

  lemma {:induction false} GrownLines(initial: string, rs: seq<Remote>)
    requires AllFresh(initial, rs)
    ensures NonEmpty(Split(Grown(initial, rs), '\n')) == NonEmpty(Split(initial, '\n')) + AddedLines(rs)
  {
    if rs == [] {
      assert AddedLines(rs) == [];
    } else {
      var n := |rs| - 1;
      FreshPrefix(initial, rs);
      GrownLines(initial, rs[..n]);
      HeadersOneMore(Grown(initial, rs[..n]), rs[n], rs[n].name);
      Regroup(NonEmpty(Split(initial, '\n')), AddedLines(rs[..n]), NonEmpty(Split(Section(rs[n]), '\n')));
    }
  }

  lemma ReadsSame(before: string, after: string, r: Remote, name: string)
    requires ReadsAs(before, r) && OthersReadSame(before, after, name) && r.name != name
    ensures ReadsAs(after, r)
  {
    assert ' ' !in "type" && ' ' !in "url" && ' ' !in "vendor" && ' ' !in "user" && ' ' !in "pass";
    forall key | ' ' !in key ensures Read(after, r.name, key) == Read(before, r.name, key) {}
  }

  /** Names that were not written are read as before. */
  lemma {:induction false} GrownLeavesOthers(initial: string, rs: seq<Remote>, name: string, key: string)
    requires AllFresh(initial, rs) && !Names(rs, name) && ' ' !in key
    ensures Read(Grown(initial, rs), name, key) == Read(initial, name, key)
  {
    if rs != [] {
      var n := |rs| - 1;
      FreshPrefix(initial, rs);
      assert rs == rs[..n] + [rs[n]];
      NamesOneMore(rs[..n], rs[n], name);
      GrownLeavesOthers(initial, rs[..n], name, key);
      NewRemoteIsRead(Grown(initial, rs[..n]), rs[n]);
    }
  }

  lemma EarlierNameDiffers(initial: string, rs: seq<Remote>, i: nat)
    requires AllFresh(initial, rs) && i < |rs| - 1
    ensures rs[i].name != rs[|rs| - 1].name
  {
    var n := |rs| - 1;
    FreshPrefix(initial, rs);
    GrownHeaders(initial, rs[..n], rs[i].name);
    assert rs[..n][i] == rs[i] && Names(rs[..n], rs[i].name);
  }

  lemma OneMoreReads(text: string, r: Remote, earlier: Remote)
    requires Checked(r) && '\n' !in r.pass && Headers(text, r.name) == 0
    requires ReadsAs(text, earlier) && earlier.name != r.name
    ensures ReadsAs(NewContent(text, r), earlier)
  {
    NewRemoteIsRead(text, r);
    ReadsSame(text, NewContent(text, r), earlier, r.name);
  }

  /** Each remote that was written is read as it was given. */
  lemma {:induction false} GrownReads(initial: string, rs: seq<Remote>, i: nat)
    requires AllFresh(initial, rs) && i < |rs|
    ensures ReadsAs(Grown(initial, rs), rs[i])
    decreases |rs|
  {
    var n := |rs| - 1;
    GrownIsNewContent(initial, rs);
    if i == n {
      NewRemoteIsRead(Grown(initial, rs[..n]), rs[n]);
    } else {
      GrownReads(initial, rs[..n], i);
      EarlierNameDiffers(initial, rs, i);
      OneMoreReads(Grown(initial, rs[..n]), rs[n], rs[i]);
    }
  }

  /** No remote is lost: over every interleaving of calls, failures and stops on one file, each call
      that succeeded has exactly one header in it; no name that a call wrote has more than one, even
      when the call then reported an error; every other name has the headers it had; the non-empty
      lines are the earlier ones in their order, followed by the sections written; and each remote of
      a call that succeeded is read as it was given, every name that was not written as before. */
  lemma NoRemoteIsLost(initial: string, states: seq<State>, steps: seq<Step>, n: nat)
    requires IsRun(initial, states, steps) && n < |states|
    ensures var s := states[n];
      && (forall p :: p in s.clients && s.clients[p].phase == Done(true) ==>
            Headers(s.text, s.clients[p].remote.name) == 1)
      && (forall name :: Names(s.written, name) ==> Headers(s.text, name) == 1)
      && (forall name :: !Names(s.written, name) ==> Headers(s.text, name) == Headers(initial, name))
      && NonEmpty(Split(s.text, '\n')) == NonEmpty(Split(initial, '\n')) + AddedLines(s.written)
      && (forall p :: p in s.clients && s.clients[p].phase == Done(true) ==> ReadsAs(s.text, s.clients[p].remote))
      && (forall name, key :: !Names(s.written, name) && ' ' !in key ==>
            Read(s.text, name, key) == Read(initial, name, key))
  {
    RunKeepsInv(initial, states, steps, n);
    var s := states[n];
    forall name
      ensures Headers(s.text, name) == if Names(s.written, name) then 1 else Headers(initial, name)
    {
      GrownHeaders(initial, s.written, name);
    }
    forall p | p in s.clients && s.clients[p].phase == Done(true) ensures Names(s.written, s.clients[p].remote.name) {
      assert ClientInv(s.text, s.written, s.clients[p]);
    }
    GrownLines(initial, s.written);
    forall p | p in s.clients && s.clients[p].phase == Done(true) ensures ReadsAs(s.text, s.clients[p].remote) {
      assert ClientInv(s.text, s.written, s.clients[p]);
      var i :| 0 <= i < |s.written| && s.written[i] == s.clients[p].remote;
      GrownReads(initial, s.written, i);
    }
    forall name, key | !Names(s.written, name) && ' ' !in key
      ensures Read(s.text, name, key) == Read(initial, name, key)
    {
      GrownLeavesOthers(initial, s.written, name, key);
    }
  }
}
