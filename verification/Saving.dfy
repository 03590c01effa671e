/** `config.Save`: keep the old file as a backup, then replace it. Built on the crash-safe
    replacement of one file. */
module Saving {
  import opened Wrappers
  import opened Files

  function BackupName(path: string): Name {
    Named(path + ".bak")
  }

  /** The file that is locked during a save. It is made when it is not there and never removed. */
  function LockName(path: string): Name {
    Named(path + ".lock")
  }

  /** Any other name that the program gave. */
  predicate Beside(path: string, o: Name) {
    o.Named? && o != Named(path) && o != BackupName(path)
  }

  lemma NamesDiffer(path: string)
    ensures Named(path) != BackupName(path) && Named(path) != LockName(path) && BackupName(path) != LockName(path)
  {
    assert |path + ".bak"| != |path| && |path + ".lock"| != |path| && |path + ".bak"| != |path + ".lock"|;
  }

  /** What holds at every point at which a save from state `before` may stop:
      the target is as before or has the new contents; the backup is as before or has the old
      contents; and once the target may differ, the backup can only be the old contents. */
  ghost predicate SafePoint(before: Disk, s: Disk, path: string, content: string) {
    var target, backup := Named(path), BackupName(path);
    && WellFormed(before) && WellFormed(s)
    && (Kept(before, s, target) || Replaced(before, s, target, content))
    && match Visible(before, target)
       case None => Kept(before, s, backup)
       case Some(previous) =>
         && (Kept(before, s, backup) || Replaced(before, s, backup, previous))
         && (Kept(before, s, target) || OnlySurvivor(s, backup, previous))
  }

  ghost predicate OnlySurvivor(s: Disk, n: Name, content: string)
    requires WellFormed(s)
  {
    Visible(s, n) == Some(content) && forall c :: MaySurvive(s, n, c) ==> c == Some(content)
  }

  ghost predicate SafeThroughout(trace: seq<Disk>, from: nat, before: Disk, path: string, content: string) {
    forall i :: from <= i < |trace| ==> SafePoint(before, trace[i], path, content)
  }

  /** `Save` after validation and encoding, on the directory that holds the file. Making the
      directory, opening or taking the lock and the read may fail. */
  method Save(v: Volume, path: string, content: string) returns (ok: bool)
    requires v.Valid()
    modifies v
    ensures v.Valid() && |old(v.trace)| <= |v.trace| && old(v.trace) == v.trace[..|old(v.trace)|]
    ensures SafeThroughout(v.trace, |old(v.trace)|, old(v.disk), path, content)
    ensures SafePoint(old(v.disk), v.disk, path, content)
    ensures ok ==> Durable(v.disk, Named(path), content)
    ensures ok && Visible(old(v.disk), Named(path)).Some? ==>
              OnlySurvivor(v.disk, Named(path + ".bak"), Visible(old(v.disk), Named(path)).value)
    ensures ok && Named(path + ".lock") !in old(v.disk).dir ==> Visible(v.disk, Named(path + ".lock")) == Some("")
    ensures forall o :: Beside(path, o) && (o != Named(path + ".lock") || o in old(v.disk).dir) ==>
            Kept(old(v.disk), v.disk, o)
  {
    ghost var start, mark := v.disk, |v.trace|;
    LockIsSafe(start, start, path, content);
    QuietIsReflexive(start);
    if * { return false; }  // os.MkdirAll
    var there := v.OpenOrCreate(LockName(path));
    ghost var locked, second := v.disk, |v.trace|;
    forall i | mark <= i < second ensures SafePoint(start, v.trace[i], path, content) {
      LockIsSafe(start, v.trace[i], path, content);
    }
    LockIsSafe(start, locked, path, content);
    if !there { return false; }
    if * { return false; }  // flock, os.ReadFile
    ok := SaveUnderLock(v, path, content);
    SafeAfterLock(start, locked, v.trace, second, path, content);
    SafeFromLock(start, locked, v.disk, path, content);
    NamesDiffer(path);
    assert Kept(locked, v.disk, LockName(path));
    forall o | Beside(path, o) && (o != LockName(path) || o in start.dir) ensures Kept(start, v.disk, o) {
      assert Kept(start, locked, o) && Kept(locked, v.disk, o);
    }
  }

  /** The backup, if there is a file, and the new file. */
  method SaveUnderLock(v: Volume, path: string, content: string) returns (ok: bool)
    requires v.Valid()
    modifies v
    ensures v.Valid() && |old(v.trace)| <= |v.trace| && old(v.trace) == v.trace[..|old(v.trace)|]
    ensures SafeThroughout(v.trace, |old(v.trace)|, old(v.disk), path, content)
    ensures SafePoint(old(v.disk), v.disk, path, content)
    ensures ok ==> Durable(v.disk, Named(path), content)
    ensures ok && Visible(old(v.disk), Named(path)).Some? ==>
              OnlySurvivor(v.disk, BackupName(path), Visible(old(v.disk), Named(path)).value)
    ensures forall o :: Beside(path, o) ==> Kept(old(v.disk), v.disk, o)
  {
    ghost var start, mark := v.disk, |v.trace|;
    var target, backup := Named(path), BackupName(path);
    NamesDiffer(path);
    QuietIsReflexive(start);
    ghost var middle, second := start, mark;
    if target in v.disk.dir {
      var previous := v.disk.files[v.disk.dir[target]].data;
      ok := v.WriteFileAtomic(backup, previous);
      FirstHalfIsSafe(start, v.trace, mark, path, content, previous);
      BackupOutcomeIsSafe(start, v.disk, path, content, previous);
      if !ok { return; }
      middle, second := v.disk, |v.trace|;
      assert Kept(start, middle, target);
    }
    ok := v.WriteFileAtomic(target, content);
    SecondHalfIsSafe(start, middle, v.trace, second, path, content);
    TargetOutcomeIsSafe(start, middle, v.disk, path, content);
    forall o | Beside(path, o) ensures Kept(start, v.disk, o) {
      assert Kept(start, middle, o) && Kept(middle, v.disk, o);
    }
  }

  /** Making the lock file touches neither the target nor the backup. */
  lemma LockIsSafe(before: Disk, s: Disk, path: string, content: string)
    requires WellFormed(before) && QuietBut(before, s, LockName(path))
    ensures SafePoint(before, s, path, content)
    ensures Kept(before, s, Named(path)) && Kept(before, s, BackupName(path))
  {
    NamesDiffer(path);
  }

  lemma SafeFromLock(before: Disk, locked: Disk, s: Disk, path: string, content: string)
    requires WellFormed(before) && QuietBut(before, locked, LockName(path)) && SafePoint(locked, s, path, content)
    ensures SafePoint(before, s, path, content)
  {
    LockIsSafe(before, locked, path, content);
  }

  lemma SafeAfterLock(before: Disk, locked: Disk, trace: seq<Disk>, from: nat, path: string, content: string)
    requires WellFormed(before) && QuietBut(before, locked, LockName(path))
    requires SafeThroughout(trace, from, locked, path, content)
    ensures SafeThroughout(trace, from, before, path, content)
  {
    forall i | from <= i < |trace| ensures SafePoint(before, trace[i], path, content) {
      SafeFromLock(before, locked, trace[i], path, content);
    }
  }

  lemma BackupOutcomeIsSafe(before: Disk, s: Disk, path: string, content: string, previous: string)
    requires WellFormed(before) && Visible(before, Named(path)) == Some(previous)
    requires Outcome(before, s, BackupName(path), previous)
    ensures SafePoint(before, s, path, content)
  {
    NamesDiffer(path);
    assert Quiet(before, s) || Kept(before, s, Named(path));
  }

  lemma FirstHalfIsSafe(before: Disk, trace: seq<Disk>, from: nat, path: string, content: string, previous: string)
    requires WellFormed(before) && Visible(before, Named(path)) == Some(previous)
    requires Throughout(trace, from, before, BackupName(path), previous)
    ensures SafeThroughout(trace, from, before, path, content)
  {
    forall i | from <= i < |trace| ensures SafePoint(before, trace[i], path, content) {
      BackupOutcomeIsSafe(before, trace[i], path, content, previous);
    }
  }

  /** The state between the two replacements: the target is untouched and, if it existed, the
      backup can only be its contents. */
  ghost predicate Halfway(before: Disk, middle: Disk, path: string) {
    && WellFormed(before) && WellFormed(middle) && Kept(before, middle, Named(path))
    && match Visible(before, Named(path))
       case None => Kept(before, middle, BackupName(path))
       case Some(previous) => Replaced(before, middle, BackupName(path), previous)
                              && OnlySurvivor(middle, BackupName(path), previous)
  }

  lemma TargetOutcomeIsSafe(before: Disk, middle: Disk, s: Disk, path: string, content: string)
    requires Halfway(before, middle, path)
    requires Outcome(middle, s, Named(path), content)
    ensures SafePoint(before, s, path, content)
    ensures Visible(before, Named(path)).Some? ==>
              OnlySurvivor(s, BackupName(path), Visible(before, Named(path)).value)
  {
    NamesDiffer(path);
    assert Kept(middle, s, BackupName(path));
    if Quiet(middle, s) { assert Kept(middle, s, Named(path)); }
  }

  lemma SecondHalfIsSafe(before: Disk, middle: Disk, trace: seq<Disk>, from: nat, path: string, content: string)
    requires Halfway(before, middle, path)
    requires Throughout(trace, from, middle, Named(path), content)
    ensures SafeThroughout(trace, from, before, path, content)
  {
    forall i | from <= i < |trace| ensures SafePoint(before, trace[i], path, content) {
      TargetOutcomeIsSafe(before, middle, trace[i], path, content);
    }
  }

  lemma VisibleMaySurvive(d: Disk, n: Name)
    requires WellFormed(d)
    ensures MaySurvive(d, n, Visible(d, n))
  {
    assert Holds(d, Binding(d, n), Visible(d, n));
  }

  /** The contents of a name that a process stopped in state `s`, or a power loss then, leaves. */
  ghost predicate Left(s: Disk, n: Name, c: Option<string>)
    requires WellFormed(s)
  {
    c == Visible(s, n) || MaySurvive(s, n, c)
  }

  /** Crash atomicity: wherever the save stops, a stopped process and a power loss alike leave the
      target with its complete new contents or with what it could have been left with before, and
      the backup with the old contents or with what it could have been left with before; and never
      is the old text lost, since the backup holds it whenever the target has become the new one. */
  lemma CrashLeavesOldOrNew(before: Disk, s: Disk, path: string, content: string, c: Option<string>, b: Option<string>)
    requires SafePoint(before, s, path, content) && Left(s, Named(path), c) && Left(s, Named(path + ".bak"), b)
    ensures c == Some(content) || MaySurvive(before, Named(path), c)
    ensures b == Visible(before, Named(path)) || MaySurvive(before, Named(path + ".bak"), b)
    ensures Visible(before, Named(path)).Some? && !MaySurvive(before, Named(path), c) ==>
            b == Visible(before, Named(path))
  {
    VisibleMaySurvive(before, Named(path));
    VisibleMaySurvive(before, BackupName(path));
  }

  /** So the target has its complete old or its complete new contents wherever a save stops, if and
      only if nothing else could be left of it before. */
  lemma OldOrNewExactlyWhen(before: Disk, path: string, content: string)
    requires WellFormed(before)
    ensures (forall s, c :: SafePoint(before, s, path, content) && Left(s, Named(path), c) ==>
              c == Visible(before, Named(path)) || c == Some(content))
            <==> (forall c :: MaySurvive(before, Named(path), c) ==>
                  c == Visible(before, Named(path)) || c == Some(content))
  {
    QuietIsReflexive(before);
    LockIsSafe(before, before, path, content);
    if forall c :: MaySurvive(before, Named(path), c) ==> c == Visible(before, Named(path)) || c == Some(content) {
      forall s, c | SafePoint(before, s, path, content) && Left(s, Named(path), c)
        ensures c == Visible(before, Named(path)) || c == Some(content)
      {
        CrashLeavesOldOrNew(before, s, path, content, c, Visible(s, BackupName(path)));
      }
    }
    if forall s, c :: SafePoint(before, s, path, content) && Left(s, Named(path), c) ==>
         c == Visible(before, Named(path)) || c == Some(content) {
      forall c | MaySurvive(before, Named(path), c) ensures c == Visible(before, Named(path)) || c == Some(content) {
        assert Left(before, Named(path), c);
      }
    }
  }
}
