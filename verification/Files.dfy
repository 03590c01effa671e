/** Replacing a file so that it survives a crash: write a temporary file, sync it, rename it over
    the target, sync the directory. The program does this in three places; the file system
    underneath is modelled with what running processes see and what a power loss may leave. */
module Files {
  import opened Wrappers

  /** Temporary names come from `os.CreateTemp` and never collide with a name given by the program. */
  datatype Name = Named(path: string) | Temporary(serial: nat)

  /** The contents of a file. Until it is synced a power loss may leave anything in it. */
  datatype Inode = Inode(data: string, synced: bool)

  /** One directory. `past` holds, for each name, the bindings it had since the last directory
      sync: any of them, or the present one, may be what a power loss leaves. */
  datatype Disk = Disk(files: map<nat, Inode>, dir: map<Name, nat>, past: map<Name, set<Option<nat>>>, next: nat)

  ghost predicate WellFormed(d: Disk) {
    && (forall i :: i in d.files ==> i < d.next)
    && (forall n :: n in d.dir ==> d.dir[n] in d.files)
    && (forall n, b :: n in d.past && b in d.past[n] && b.Some? ==> b.value in d.files)
    && (forall k: nat :: Temporary(k) in d.dir || Temporary(k) in d.past ==> k < d.next)
  }

  function Binding(d: Disk, n: Name): Option<nat> {
    if n in d.dir then Some(d.dir[n]) else None
  }

  function Past(d: Disk, n: Name): set<Option<nat>> {
    if n in d.past then d.past[n] else {}
  }

  /** What a process that opens the name reads. */
  ghost function Visible(d: Disk, n: Name): Option<string>
    requires WellFormed(d)
  {
    if n in d.dir then Some(d.files[d.dir[n]].data) else None
  }

  /** Whether contents `c` may be found behind an inode, or behind no inode, after a power loss. */
  ghost predicate Holds(d: Disk, b: Option<nat>, c: Option<string>) {
    match b
    case None => c == None
    case Some(i) => i in d.files && c.Some? && (d.files[i].synced ==> c.value == d.files[i].data)
  }

  /** Whether `c` may be what a power loss leaves under the name. */
  ghost predicate MaySurvive(d: Disk, n: Name, c: Option<string>) {
    exists b :: (b == Binding(d, n) || b in Past(d, n)) && Holds(d, b, c)
  }

  /** The name reads the same, and nothing new may survive under it. */
  ghost predicate Kept(before: Disk, after: Disk, n: Name)
    requires WellFormed(before)
  {
    && WellFormed(after)
    && Visible(after, n) == Visible(before, n)
    && forall c :: MaySurvive(after, n, c) ==> MaySurvive(before, n, c)
  }

  /** The name reads as the new contents; a power loss leaves those or something it could have
      left before. */
  ghost predicate Replaced(before: Disk, after: Disk, n: Name, content: string) {
    && WellFormed(after)
    && Visible(after, n) == Some(content)
    && forall c :: MaySurvive(after, n, c) ==> c == Some(content) || MaySurvive(before, n, c)
  }

  /** The name reads as the new contents, and a power loss leaves exactly those. */
  ghost predicate Durable(after: Disk, n: Name, content: string) {
    && WellFormed(after)
    && Visible(after, n) == Some(content)
    && forall c :: MaySurvive(after, n, c) <==> c == Some(content)
  }

  // ---------------------------------------------------------------- effects of the primitives

  function Created(d: Disk): Disk {
    d.(files := d.files[d.next := Inode("", false)], dir := d.dir[Temporary(d.next) := d.next], next := d.next + 1)
  }

  function Made(d: Disk, n: Name): Disk {
    Disk(d.files[d.next := Inode("", false)], d.dir[n := d.next], d.past[n := Past(d, n) + {Binding(d, n)}], d.next + 1)
  }

  function Written(d: Disk, i: nat, data: string): Disk {
    d.(files := d.files[i := Inode(data, false)])
  }

  function Synced(d: Disk, i: nat): Disk
    requires i in d.files
  {
    d.(files := d.files[i := d.files[i].(synced := true)])
  }

  function Renamed(d: Disk, t: Name, n: Name): Disk
    requires t in d.dir
  {
    d.(dir := (d.dir - {t})[n := d.dir[t]],
       past := d.past[n := Past(d, n) + {Binding(d, n)}][t := Past(d, t) + {Binding(d, t)}])
  }

  function Removed(d: Disk, t: Name): Disk {
    d.(dir := d.dir - {t}, past := d.past[t := Past(d, t) + {Binding(d, t)}])
  }

  function DirSynced(d: Disk): Disk {
    d.(past := map[])
  }

  /** The inode backs the temporary name and nothing else, now or in the past. */
  ghost predicate Private(d: Disk, t: Name, i: nat) {
    && t.Temporary? && t in d.dir && d.dir[t] == i
    && (forall n :: n in d.dir && d.dir[n] == i ==> n == t)
    && (forall n :: Some(i) !in Past(d, n))
  }

  // ---------------------------------------------------------------- what one step changes

  /** No name that the program gave changes. */
  ghost predicate Quiet(before: Disk, after: Disk) {
    WellFormed(before) && WellFormed(after) && forall o: Name :: o.Named? ==> Kept(before, after, o)
  }

  /** No name that the program gave changes, but for `n`. */
  ghost predicate QuietBut(before: Disk, after: Disk, n: Name) {
    WellFormed(before) && WellFormed(after) && forall o: Name :: o.Named? && o != n ==> Kept(before, after, o)
  }

  /** Only `n` changes, and it changes to the new contents. */
  ghost predicate Swapped(before: Disk, after: Disk, n: Name, content: string) {
    && WellFormed(before) && Replaced(before, after, n, content)
    && forall o: Name :: o.Named? && o != n ==> Kept(before, after, o)
  }

  /** Every state from position `from` on is as before, or has exactly `n` replaced. */
  ghost predicate Throughout(trace: seq<Disk>, from: nat, before: Disk, n: Name, content: string) {
    forall i :: from <= i < |trace| ==> Outcome(before, trace[i], n, content)
  }

  lemma QuietThenQuiet(a: Disk, b: Disk, c: Disk)
    requires Quiet(a, b) && Quiet(b, c)
    ensures Quiet(a, c)
  {
    forall o: Name | o.Named? ensures Kept(a, c, o) {
      assert Kept(a, b, o) && Kept(b, c, o);
    }
  }

  lemma QuietThenSwapped(a: Disk, b: Disk, c: Disk, n: Name, content: string)
    requires Quiet(a, b) && Swapped(b, c, n, content) && n.Named?
    ensures Swapped(a, c, n, content)
  {
    assert Kept(a, b, n);
    forall o: Name | o.Named? && o != n ensures Kept(a, c, o) {
      assert Kept(a, b, o) && Kept(b, c, o);
    }
  }

  lemma SwappedThenQuiet(a: Disk, b: Disk, c: Disk, n: Name, content: string)
    requires Swapped(a, b, n, content) && Quiet(b, c) && n.Named?
    ensures Swapped(a, c, n, content)
  {
    assert Kept(b, c, n);
    forall o: Name | o.Named? && o != n ensures Kept(a, c, o) {
      assert Kept(a, b, o) && Kept(b, c, o);
    }
  }

  lemma CreatedIsQuiet(d: Disk)
    requires WellFormed(d)
    ensures Quiet(d, Created(d)) && Private(Created(d), Temporary(d.next), d.next)
  {
    var e := Created(d);
    forall n: Name, c | n.Named? && MaySurvive(e, n, c) ensures MaySurvive(d, n, c) {
      var b :| (b == Binding(e, n) || b in Past(e, n)) && Holds(e, b, c);
      assert Holds(d, b, c);
    }
  }

  lemma MadeIsQuietBut(d: Disk, n: Name)
    requires WellFormed(d) && n.Named?
    ensures QuietBut(d, Made(d, n), n)
  {
    var e := Made(d, n);
    forall o: Name, c | o.Named? && o != n && MaySurvive(e, o, c) ensures MaySurvive(d, o, c) {
      var b :| (b == Binding(e, o) || b in Past(e, o)) && Holds(e, b, c);
      assert Holds(d, b, c);
    }
  }

  lemma PrivateWriteIsQuiet(d: Disk, t: Name, i: nat, node: Inode)
    requires WellFormed(d) && Private(d, t, i)
    ensures var e := d.(files := d.files[i := node]); Quiet(d, e) && Private(e, t, i)
  {
    var e := d.(files := d.files[i := node]);
    assert forall n :: Past(e, n) == Past(d, n);
    forall n: Name, c | n.Named? && MaySurvive(e, n, c) ensures MaySurvive(d, n, c) {
      var b :| (b == Binding(e, n) || b in Past(e, n)) && Holds(e, b, c);
      assert b != Some(i);
      assert Holds(d, b, c);
    }
  }

  lemma RemovedIsQuiet(d: Disk, t: Name)
    requires WellFormed(d) && t.Temporary? && t in d.dir
    ensures Quiet(d, Removed(d, t))
  {
    var e := Removed(d, t);
    forall n: Name, c | n.Named? && MaySurvive(e, n, c) ensures MaySurvive(d, n, c) {
      var b :| (b == Binding(e, n) || b in Past(e, n)) && Holds(e, b, c);
      assert Holds(d, b, c);
    }
  }

  lemma RenamedIsSwapped(d: Disk, t: Name, i: nat, n: Name)
    requires WellFormed(d) && Private(d, t, i) && d.files[i].synced && n.Named?
    ensures Swapped(d, Renamed(d, t, n), n, d.files[i].data)
  {
    var e := Renamed(d, t, n);
    forall o: Name, c | o.Named? && MaySurvive(e, o, c)
      ensures MaySurvive(d, o, c) || (o == n && c == Some(d.files[i].data))
    {
      var b :| (b == Binding(e, o) || b in Past(e, o)) && Holds(e, b, c);
      assert Holds(d, b, c);
    }
  }

  lemma DirSyncedIsQuiet(d: Disk)
    requires WellFormed(d)
    ensures Quiet(d, DirSynced(d))
  {
    var e := DirSynced(d);
    forall n: Name, c | n.Named? && MaySurvive(e, n, c) ensures MaySurvive(d, n, c) {
      assert Holds(d, Binding(d, n), c);
    }
  }

  lemma DirSyncedIsDurable(d: Disk, n: Name)
    requires WellFormed(d) && n in d.dir && d.files[d.dir[n]].synced
    ensures Durable(DirSynced(d), n, d.files[d.dir[n]].data)
  {
    var e := DirSynced(d);
    assert Holds(e, Binding(e, n), Some(d.files[d.dir[n]].data));
  }

  // ---------------------------------------------------------------- running the replacement

  /** A mounted directory. `trace` records the state after every primitive, including a write
      that stopped half way: a process or the machine may stop at any of them. */
  class Volume {
    var disk: Disk
    ghost var trace: seq<Disk>

    ghost predicate Valid()
      reads this
    {
      WellFormed(disk) && trace != [] && trace[|trace| - 1] == disk
    }

    constructor (d: Disk)
      requires WellFormed(d)
      ensures Valid() && disk == d && trace == [d]
    {
      disk := d;
      trace := [d];
    }

    /** The effect of one primitive of the file system. */
    method Step(d: Disk)
      requires Valid() && WellFormed(d)
      modifies this
      ensures Valid() && disk == d && trace == old(trace) + [d]
    {
      disk := d;
      trace := trace + [d];
    }

    /** `os.OpenFile` with `O_CREATE`: an empty file comes to be if there was none. Nothing is synced. */
    method OpenOrCreate(n: Name) returns (ok: bool)
      requires Valid() && n.Named?
      modifies this
      ensures Valid() && |old(trace)| <= |trace| && old(trace) == trace[..|old(trace)|]
      ensures forall j :: |old(trace)| <= j < |trace| ==> QuietBut(old(disk), trace[j], n)
      ensures QuietBut(old(disk), disk, n)
      ensures n in old(disk).dir || !ok ==> disk == old(disk)
      ensures ok ==> n in disk.dir && (n !in old(disk).dir ==> Visible(disk, n) == Some(""))
    {
      QuietIsReflexive(disk);
      if * { return false; }
      if n !in disk.dir {
        MadeIsQuietBut(disk, n);
        Step(Made(disk, n));
      }
      return true;
    }

    /** Chmod, write, sync and close of the temporary file. A failed write leaves a part of the
        contents behind. */
    method Fill(t: Name, content: string) returns (ok: bool)
      requires Valid() && t in disk.dir && Private(disk, t, disk.dir[t])
      modifies this
      ensures Valid() && |old(trace)| <= |trace| && old(trace) == trace[..|old(trace)|]
      ensures forall j :: |old(trace)| <= j < |trace| ==> Quiet(old(disk), trace[j])
      ensures Quiet(old(disk), disk) && t in disk.dir && Private(disk, t, disk.dir[t])
      ensures ok ==> disk.files[disk.dir[t]] == Inode(content, true)
    {
      ghost var start := disk;
      var i := disk.dir[t];
      QuietIsReflexive(disk);
      if * { return false; }  // tmp.Chmod
      var n: nat :| n <= |content|;
      PrivateWriteIsQuiet(disk, t, i, Inode(content[..n], false));
      Step(Written(disk, i, content[..n]));
      if * { return false; }  // tmp.Write
      ghost var half := disk;
      PrivateWriteIsQuiet(disk, t, i, Inode(content, false));
      QuietThenQuiet(start, half, Written(disk, i, content));
      Step(Written(disk, i, content));
      if * { return false; }  // tmp.Sync
      ghost var full := disk;
      PrivateWriteIsQuiet(disk, t, i, Inode(content, true));
      QuietThenQuiet(start, full, Synced(disk, i));
      Step(Synced(disk, i));
      if * { return false; }  // tmp.Close
      return true;
    }

    /** Rename over the target, then open and sync the directory. */
    method Publish(t: Name, n: Name, content: string) returns (ok: bool)
      requires Valid() && n.Named? && t in disk.dir && Private(disk, t, disk.dir[t])
      requires disk.files[disk.dir[t]] == Inode(content, true)
      modifies this
      ensures Valid() && |old(trace)| <= |trace| && old(trace) == trace[..|old(trace)|]
      ensures forall j :: |old(trace)| <= j < |trace| ==> Swapped(old(disk), trace[j], n, content)
      ensures Outcome(old(disk), disk, n, content)
      ensures ok ==> Durable(disk, n, content) && t !in disk.dir
    {
      ghost var start := disk;
      QuietIsReflexive(disk);
      if * { return false; }  // os.Rename
      RenamedIsSwapped(disk, t, disk.dir[t], n);
      Step(Renamed(disk, t, n));
      if * { return false; }  // os.Open of the directory, or d.Sync
      DirSyncedIsQuiet(disk);
      DirSyncedIsDurable(disk, n);
      SwappedThenQuiet(start, disk, DirSynced(disk), n, content);
      Step(DirSynced(disk));
      return true;
    }

    /** Everything `writeFileAtomic` does between creating the temporary file and removing it. */
    method FillAndPublish(t: Name, n: Name, content: string) returns (ok: bool)
      requires Valid() && n.Named? && t in disk.dir && Private(disk, t, disk.dir[t])
      modifies this
      ensures Valid() && |old(trace)| <= |trace| && old(trace) == trace[..|old(trace)|]
      ensures Throughout(trace, |old(trace)|, old(disk), n, content)
      ensures Outcome(old(disk), disk, n, content)
      ensures ok ==> Durable(disk, n, content) && t !in disk.dir
    {
      ghost var start := disk;
      ok := Fill(t, content);
      if ok {
        ghost var filled, mark := disk, |trace|;
        ok := Publish(t, n, content);
        OutcomesCompose(start, filled, trace, mark, n, content);
        OutcomeAfterQuiet(start, filled, disk, n, content);
      }
    }

    /** `writeFileAtomic`: any primitive may fail; the temporary file is removed on every path that
        created it, and a failure of that removal is ignored. */
    method WriteFileAtomic(n: Name, content: string) returns (ok: bool)
      requires Valid() && n.Named?
      modifies this
      ensures Valid() && |old(trace)| <= |trace| && old(trace) == trace[..|old(trace)|]
      ensures Throughout(trace, |old(trace)|, old(disk), n, content)
      ensures Outcome(old(disk), disk, n, content)
      ensures ok ==> Swapped(old(disk), disk, n, content) && Durable(disk, n, content)
    {
      ghost var start := disk;
      QuietIsReflexive(disk);
      if * { return false; }  // os.CreateTemp
      var t := Temporary(disk.next);
      CreatedIsQuiet(disk);
      Step(Created(disk));
      ghost var created, mark := disk, |trace|;
      ok := FillAndPublish(t, n, content);
      OutcomesCompose(start, created, trace, mark, n, content);
      OutcomeAfterQuiet(start, created, disk, n, content);
      if ok { DurableIsSwapped(start, disk, n, content); }
      var removed: bool := *; // os.Remove of the temporary file
      if removed && t in disk.dir {
        RemovedIsQuiet(disk, t);
        QuietAfterOutcome(start, disk, Removed(disk, t), n, content);
        Step(Removed(disk, t));
      }
    }
  }

  lemma QuietIsReflexive(d: Disk)
    requires WellFormed(d)
    ensures Quiet(d, d)
  {
  }

  ghost predicate Outcome(before: Disk, after: Disk, n: Name, content: string) {
    Quiet(before, after) || Swapped(before, after, n, content)
  }

  lemma OutcomeAfterQuiet(a: Disk, b: Disk, c: Disk, n: Name, content: string)
    requires n.Named? && Quiet(a, b) && Outcome(b, c, n, content)
    ensures Outcome(a, c, n, content)
  {
    if Quiet(b, c) { QuietThenQuiet(a, b, c); } else { QuietThenSwapped(a, b, c, n, content); }
  }

  lemma QuietAfterOutcome(a: Disk, b: Disk, c: Disk, n: Name, content: string)
    requires n.Named? && Outcome(a, b, n, content) && Quiet(b, c)
    ensures Outcome(a, c, n, content)
  {
    if Quiet(a, b) { QuietThenQuiet(a, b, c); } else { SwappedThenQuiet(a, b, c, n, content); }
  }

  lemma DurableIsSwapped(a: Disk, b: Disk, n: Name, content: string)
    requires n.Named? && Outcome(a, b, n, content) && Durable(b, n, content)
    ensures Swapped(a, b, n, content)
  {
    if Quiet(a, b) { assert Kept(a, b, n); }
  }

  lemma OutcomesCompose(a: Disk, b: Disk, trace: seq<Disk>, from: nat, n: Name, content: string)
    requires n.Named? && Quiet(a, b) && forall j :: from <= j < |trace| ==> Outcome(b, trace[j], n, content)
    ensures forall j :: from <= j < |trace| ==> Outcome(a, trace[j], n, content)
  {
    forall j | from <= j < |trace| ensures Outcome(a, trace[j], n, content) {
      OutcomeAfterQuiet(a, b, trace[j], n, content);
    }
  }
}
