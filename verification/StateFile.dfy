/** The monitor's state file: the crash-safe replacement ends in one of the three ways that the
    runs of the monitor distinguish, and those runs are a faithful account of the disk. */
module StateFile {
  import opened Wrappers
  import opened Files
  import opened Monitor
  import opened Serving

  /** How the disk may differ after a save that ended this way. */
  ghost predicate Ends(before: Disk, after: Disk, n: Name, content: string, outcome: SaveOutcome)
    requires WellFormed(before)
  {
    match outcome
    case NotRenamed => Kept(before, after, n)
    case RenamedOnly => Replaced(before, after, n, content)
    case Saved => Durable(after, n, content)
  }

  /** `saveLocked`, after encoding. Making the directory may fail before anything is written. */
  method SaveLocked(v: Volume, path: string, content: string) returns (ok: bool, ghost outcome: SaveOutcome)
    requires v.Valid()
    modifies v
    ensures v.Valid() && |old(v.trace)| <= |v.trace|
    ensures ok <==> outcome.Saved?
    ensures Ends(old(v.disk), v.disk, Named(path), content, outcome)
    ensures Throughout(v.trace, |old(v.trace)|, old(v.disk), Named(path), content)
  {
    ghost var start := v.disk;
    QuietIsReflexive(start);
    if * { return false, NotRenamed; }
    ok := v.WriteFileAtomic(Named(path), content);
    outcome := if ok then Saved else if Quiet(start, v.disk) then NotRenamed else RenamedOnly;
  }

  /** Contents `c` read as the state of ledger `l`; a file that is not there reads as the empty state. */
  predicate Reads(c: Option<string>, l: Ledger, encode: State -> string) {
    c == Some(encode(l.state)) || (c == None && l.state == EMPTY)
  }

  /** The file of the model accounts for the disk: what is visible, and whatever may survive. */
  ghost predicate Represents(d: Disk, n: Name, f: File, encode: State -> string) {
    && WellFormed(d) && Reads(Visible(d, n), f.visible, encode)
    && forall c :: MaySurvive(d, n, c) ==> exists l :: l in f.survivors && Reads(c, l, encode)
  }

  /** Each outcome of a save on the disk is matched by the model's `Write` with that outcome. */
  lemma SaveRefinesWrite(before: Disk, after: Disk, n: Name, f: File, l: Ledger,
                         outcome: SaveOutcome, encode: State -> string)
    requires Represents(before, n, f, encode) && Ends(before, after, n, encode(l.state), outcome)
    ensures Represents(after, n, Write(f, l, outcome), encode)
  {
    var g := Write(f, l, outcome);
    forall c | MaySurvive(after, n, c) ensures exists k :: k in g.survivors && Reads(c, k, encode) {
      if c == Some(encode(l.state)) && !outcome.NotRenamed? {
        assert l in g.survivors && Reads(c, l, encode);
      } else {
        var k :| k in f.survivors && Reads(c, k, encode);
        assert k in g.survivors;
      }
    }
  }
}
