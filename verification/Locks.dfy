/** The locks of a run: one per job and a number of global slots, taken without waiting. First the
    operations on one table of lock files, then any number of processes that use it at once. */
module Locks {
  import opened Text
  import opened Wrappers

  /** A lock file: its directory and its name without the extension. */
  datatype LockFile = LockFile(dir: string, id: string)

  function JobLock(job: string): string {
    "job-" + job
  }

  function SlotLock(prefix: string, slot: nat): string {
    prefix + "-" + Itoa(slot)
  }

  const GLOBAL := "global"

  lemma LockNamesDiffer(job: string, i: nat, j: nat)
    ensures JobLock(job) != SlotLock(GLOBAL, i)
    ensures SlotLock(GLOBAL, i) == SlotLock(GLOBAL, j) ==> i == j
  {
    assert JobLock(job)[0] == 'j' && SlotLock(GLOBAL, i)[0] == 'g';
    if SlotLock(GLOBAL, i) == SlotLock(GLOBAL, j) {
      assert SlotLock(GLOBAL, i)[|GLOBAL| + 1..] == Itoa(i) && SlotLock(GLOBAL, j)[|GLOBAL| + 1..] == Itoa(j);
      ItoaInjective(i, j);
    }
  }

  lemma JobLocksDiffer(a: string, b: string)
    requires JobLock(a) == JobLock(b)
    ensures a == b
  {
    assert JobLock(a)[4..] == a && JobLock(b)[4..] == b;
  }

  /** The first directory of the list in which the lock file can be opened. It is looked for anew
      for each lock file: `opens` are the lock files that can be created and opened. */
  function FirstOpen(id: string, dirs: seq<string>, opens: set<LockFile>): Option<string> {
    if dirs == [] then None
    else if LockFile(dirs[0], id) in opens then Some(dirs[0])
    else FirstOpen(id, dirs[1..], opens)
  }

  /** The lock file opens in directory `k` of the list and in none before it. */
  predicate OpensFirst(id: string, dirs: seq<string>, opens: set<LockFile>, k: nat)
    requires k < |dirs|
  {
    LockFile(dirs[k], id) in opens && forall j :: 0 <= j < k ==> LockFile(dirs[j], id) !in opens
  }

  /** What is found is the first directory in which the lock file opens. */
  lemma {:induction false} FirstOpenIs(id: string, dirs: seq<string>, opens: set<LockFile>)
    ensures FirstOpen(id, dirs, opens).None? <==> forall k :: 0 <= k < |dirs| ==> LockFile(dirs[k], id) !in opens
    ensures FirstOpen(id, dirs, opens).Some? ==>
      exists k :: 0 <= k < |dirs| && OpensFirst(id, dirs, opens, k) && FirstOpen(id, dirs, opens).value == dirs[k]
  {
    if dirs != [] {
      FirstOpenIs(id, dirs[1..], opens);
      assert forall j :: 0 <= j < |dirs| - 1 ==> dirs[1..][j] == dirs[j + 1];
      if LockFile(dirs[0], id) in opens {
        assert OpensFirst(id, dirs, opens, 0);
      } else if FirstOpen(id, dirs[1..], opens).Some? {
        var k :| 0 <= k < |dirs[1..]| && OpensFirst(id, dirs[1..], opens, k)
          && FirstOpen(id, dirs[1..], opens).value == dirs[1..][k];
        assert OpensFirst(id, dirs, opens, k + 1);
      }
    }
  }

  /** The lock can be had: its file opens somewhere, and nobody holds the lock of that file. */
  predicate Free(held: map<LockFile, nat>, id: string, dirs: seq<string>, opens: set<LockFile>) {
    var dir := FirstOpen(id, dirs, opens);
    dir.Some? && LockFile(dir.value, id) !in held
  }

  /** The kernel's table of `flock` locks. The holder is an open file description. */
  class LockTable {
    var held: map<LockFile, nat>

    constructor ()
      ensures held == map[]
    {
      held := map[];
    }

    /** `Acquire`. */
    method Acquire(id: string, file: nat, dirs: seq<string>, opens: set<LockFile>) returns (lock: Option<LockFile>)
      modifies this
      ensures lock.Some? <==> Free(old(held), id, dirs, opens)
      ensures lock.Some? ==> lock.value == LockFile(FirstOpen(id, dirs, opens).value, id)
                             && held == old(held)[lock.value := file]
      ensures lock.None? ==> held == old(held)
    {
      var dir: Option<string> := None;
      var i := 0;
      while i < |dirs| && dir.None?
        invariant 0 <= i <= |dirs|
        invariant dir.None? ==> FirstOpen(id, dirs, opens) == FirstOpen(id, dirs[i..], opens)
        invariant dir.Some? ==> FirstOpen(id, dirs, opens) == dir
      {
        if LockFile(dirs[i], id) in opens { dir := Some(dirs[i]); } else { assert dirs[i..][1..] == dirs[i + 1..]; }
        i := i + 1;
      }
      if dir.None? { return None; }
      var path := LockFile(dir.value, id);
      if path in held { return None; }
      held := held[path := file];
      return Some(path);
    }

    /** `AcquireSlot` takes the first slot that can be had, and fails exactly when there is none. */
    method AcquireSlot(prefix: string, limit: int, file: nat, dirs: seq<string>, opens: set<LockFile>)
      returns (lock: Option<LockFile>, slot: nat)
      modifies this
      ensures lock.Some? <==> exists i :: 0 <= i < limit && Free(old(held), SlotLock(prefix, i), dirs, opens)
      ensures lock.None? ==> held == old(held)
      ensures lock.Some? ==>
                && slot < limit && Free(old(held), SlotLock(prefix, slot), dirs, opens)
                && lock.value == LockFile(FirstOpen(SlotLock(prefix, slot), dirs, opens).value, SlotLock(prefix, slot))
                && held == old(held)[lock.value := file]
                && forall i :: 0 <= i < slot ==> !Free(old(held), SlotLock(prefix, i), dirs, opens)
    {
      slot := 0;
      if limit < 1 { return None, 0; }
      for i := 0 to limit
        invariant held == old(held)
        invariant forall k :: 0 <= k < i ==> !Free(old(held), SlotLock(prefix, k), dirs, opens)
      {
        lock := Acquire(SlotLock(prefix, i), file, dirs, opens);
        if lock.Some? { return lock, i; }
      }
      return None, 0;
    }

    /** `Release`, also of no lock at all. */
    method Release(lock: Option<LockFile>)
      modifies this
      ensures held == if lock.Some? then old(held) - {lock.value} else old(held)
    {
      if lock.Some? { held := held - {lock.value}; }
    }
  }

  // ---------------------------------------------------------------- many processes

  /** How far a process has come, and in which directories its locks are. `Full` is a scan that
      found no slot, `Leaving` a run whose slot is released and whose job lock is not. */
  datatype Phase =
    | Wanting
    | Scanning(dir: string, next: nat)
    | Running(dir: string, slotDir: string, slot: nat)
    | Full(dir: string)
    | Leaving(dir: string)
    | Gone

  /** A process in `RunWithMode`. */
  datatype Process = Process(job: string, phase: Phase)

  datatype System = System(held: map<LockFile, nat>, procs: map<nat, Process>)

  /** A try names the directory in which the lock file opened, if it did in any. */
  datatype Step =
    | Launch(p: nat, job: string)
    | TryJob(p: nat, found: Option<string>)
    | TrySlot(p: nat, found: Option<string>)
    | GiveUp(p: nat)
    | Leave(p: nat)
    | Finish(p: nat)
    | Kill(p: nat)

  predicate HoldsJob(q: Process) {
    q.phase.Scanning? || q.phase.Running? || q.phase.Full? || q.phase.Leaving?
  }

  function JobPath(q: Process): LockFile
    requires HoldsJob(q)
  {
    LockFile(q.phase.dir, JobLock(q.job))
  }

  function SlotPath(q: Process): LockFile
    requires q.phase.Running?
  {
    LockFile(q.phase.slotDir, SlotLock(GLOBAL, q.phase.slot))
  }

  predicate Enabled(s: System, limit: nat, step: Step) {
    match step
    case Launch(p, _) => p !in s.procs
    case TryJob(p, _) => p in s.procs && s.procs[p].phase.Wanting?
    case TrySlot(p, _) => p in s.procs && s.procs[p].phase.Scanning? && s.procs[p].phase.next < limit
    case GiveUp(p) => p in s.procs && s.procs[p].phase.Scanning? && s.procs[p].phase.next >= limit
    case Leave(p) => p in s.procs && s.procs[p].phase.Running?
    case Finish(p) => p in s.procs && (s.procs[p].phase.Leaving? || s.procs[p].phase.Full?)
    case Kill(p) => p in s.procs
  }

  function Moved(s: System, p: nat, phase: Phase): map<nat, Process>
    requires p in s.procs
  {
    s.procs[p := s.procs[p].(phase := phase)]
  }

  /** The lock that a try can take. */
  predicate Takes(s: System, found: Option<string>, id: string) {
    found.Some? && LockFile(found.value, id) !in s.held
  }

  function Next(s: System, limit: nat, step: Step): System
    requires Enabled(s, limit, step)
  {
    match step
    case Launch(p, job) => s.(procs := s.procs[p := Process(job, Wanting)])
    case TryJob(p, found) =>
      var id := JobLock(s.procs[p].job);
      if Takes(s, found, id) then System(s.held[LockFile(found.value, id) := p], Moved(s, p, Scanning(found.value, 0)))
      else s.(procs := Moved(s, p, Gone))
    case TrySlot(p, found) =>
      var dir, i := s.procs[p].phase.dir, s.procs[p].phase.next;
      var id := SlotLock(GLOBAL, i);
      if Takes(s, found, id) then
        System(s.held[LockFile(found.value, id) := p], Moved(s, p, Running(dir, found.value, i)))
      else s.(procs := Moved(s, p, Scanning(dir, i + 1)))
    case GiveUp(p) => s.(procs := Moved(s, p, Full(s.procs[p].phase.dir)))
    case Leave(p) => System(s.held - {SlotPath(s.procs[p])}, Moved(s, p, Leaving(s.procs[p].phase.dir)))
    case Finish(p) => System(s.held - {JobPath(s.procs[p])}, Moved(s, p, Gone))
    case Kill(p) => System(map f | f in s.held && s.held[f] != p :: s.held[f], Moved(s, p, Gone))
  }

  /** What a process in this phase owns. */
  predicate Owns(q: Process, f: LockFile) {
    (HoldsJob(q) && f == JobPath(q)) || (q.phase.Running? && f == SlotPath(q))
  }

  /** The table says that `p` holds a lock exactly when the phase of `p` says so. */
  ghost predicate Inv(s: System, limit: nat) {
    && (forall f :: f in s.held ==> s.held[f] in s.procs && Owns(s.procs[s.held[f]], f))
    && (forall p, f :: p in s.procs && Owns(s.procs[p], f) ==> f in s.held && s.held[f] == p)
    && (forall p :: p in s.procs && s.procs[p].phase.Running? ==> s.procs[p].phase.slot < limit)
  }

  lemma OwnsDistinct(dir: string, job: string, slotDir: string, i: nat)
    ensures LockFile(dir, JobLock(job)) != LockFile(slotDir, SlotLock(GLOBAL, i))
  {
    LockNamesDiffer(job, i, i);
  }

  /** When one process moves, it is enough that the table follows what it owns and leaves the
      locks of the others alone. */
  lemma OneMoves(s: System, t: System, limit: nat, p: nat, q: Process)
    requires Inv(s, limit) && t.procs == s.procs[p := q] && (q.phase.Running? ==> q.phase.slot < limit)
    requires forall f :: f in t.held && t.held[f] == p <==> Owns(q, f)
    requires forall f :: f in t.held && t.held[f] != p ==> f in s.held && s.held[f] == t.held[f]
    requires forall f :: f in s.held && s.held[f] != p ==> f in t.held && s.held[f] == t.held[f]
    ensures Inv(t, limit)
  {
    forall f | f in t.held ensures t.held[f] in t.procs && Owns(t.procs[t.held[f]], f) {
      if t.held[f] != p { assert f in s.held && s.held[f] == t.held[f]; }
    }
    forall r, f | r in t.procs && Owns(t.procs[r], f) ensures f in t.held && t.held[f] == r {
      if r != p { assert f in s.held && s.held[f] == r; }
    }
  }

  lemma LaunchKeepsInv(s: System, limit: nat, step: Step)
    requires Inv(s, limit) && Enabled(s, limit, step) && step.Launch?
    ensures Inv(Next(s, limit, step), limit)
  {
    OneMoves(s, Next(s, limit, step), limit, step.p, Process(step.job, Wanting));
  }

  lemma TakeKeepsInv(s: System, limit: nat, step: Step)
    requires Inv(s, limit) && Enabled(s, limit, step) && (step.TryJob? || step.TrySlot?)
    ensures Inv(Next(s, limit, step), limit)
  {
    var t, q := Next(s, limit, step), s.procs[step.p];
    assert forall f :: f in s.held && s.held[f] == step.p <==> Owns(q, f);
    OneMoves(s, t, limit, step.p, t.procs[step.p]);
  }

  lemma LeaveKeepsInv(s: System, limit: nat, step: Step)
    requires Inv(s, limit) && Enabled(s, limit, step) && (step.GiveUp? || step.Leave? || step.Finish?)
    ensures Inv(Next(s, limit, step), limit)
  {
    var t, q := Next(s, limit, step), s.procs[step.p];
    assert forall f :: f in s.held && s.held[f] == step.p <==> Owns(q, f);
    if step.Leave? {
      OwnsDistinct(q.phase.dir, q.job, q.phase.slotDir, q.phase.slot);
      assert Owns(q, SlotPath(q));
    }
    if step.Finish? { assert Owns(q, JobPath(q)); }
    OneMoves(s, t, limit, step.p, t.procs[step.p]);
  }

  lemma KillKeepsInv(s: System, limit: nat, step: Step)
    requires Inv(s, limit) && Enabled(s, limit, step) && step.Kill?
    ensures Inv(Next(s, limit, step), limit)
  {
    var t := Next(s, limit, step);
    OneMoves(s, t, limit, step.p, t.procs[step.p]);
  }

  lemma StepKeepsInv(s: System, limit: nat, step: Step)
    requires Inv(s, limit) && Enabled(s, limit, step)
    ensures Inv(Next(s, limit, step), limit)
  {
    match step
    case Launch(_, _) => LaunchKeepsInv(s, limit, step);
    case TryJob(_, _) => TakeKeepsInv(s, limit, step);
    case TrySlot(_, _) => TakeKeepsInv(s, limit, step);
    case GiveUp(_) => LeaveKeepsInv(s, limit, step);
    case Leave(_) => LeaveKeepsInv(s, limit, step);
    case Finish(_) => LeaveKeepsInv(s, limit, step);
    case Kill(_) => KillKeepsInv(s, limit, step);
  }

  ghost predicate IsRun(states: seq<System>, steps: seq<Step>, limit: nat) {
    && |states| == |steps| + 1 && states[0] == System(map[], map[])
    && forall i :: 0 <= i < |steps| ==> Linked(states, steps, limit, i)
  }

  ghost predicate Linked(states: seq<System>, steps: seq<Step>, limit: nat, i: int)
    requires 0 <= i < |steps| && |states| == |steps| + 1
  {
    Enabled(states[i], limit, steps[i]) && states[i + 1] == Next(states[i], limit, steps[i])
  }

  lemma {:induction false} RunKeepsInv(states: seq<System>, steps: seq<Step>, limit: nat, n: nat)
    requires IsRun(states, steps, limit) && n < |states|
    ensures Inv(states[n], limit)
  {
    if n > 0 {
      RunKeepsInv(states, steps, limit, n - 1);
      assert Linked(states, steps, limit, n - 1);
      StepKeepsInv(states[n - 1], limit, steps[n - 1]);
    }
  }

  // ---------------------------------------------------------------- the steps are the operations

  /** The step `TryJob` is a call of `Acquire` for the lock of the job. */
  lemma TryJobIsAcquire(s: System, limit: nat, p: nat, dirs: seq<string>, opens: set<LockFile>)
    requires p in s.procs && s.procs[p].phase.Wanting?
    ensures var id := JobLock(s.procs[p].job);
      var t := Next(s, limit, TryJob(p, FirstOpen(id, dirs, opens)));
      if Free(s.held, id, dirs, opens)
      then t.held == s.held[LockFile(FirstOpen(id, dirs, opens).value, id) := p]
           && t.procs[p].phase == Scanning(FirstOpen(id, dirs, opens).value, 0)
      else t.held == s.held && t.procs[p].phase == Gone
  {
  }

  /** The steps `TrySlot` of one process, none of another in between. */
  function Scanned(s: System, limit: nat, p: nat, dirs: seq<string>, opens: set<LockFile>): System
    requires p in s.procs && s.procs[p].phase.Scanning?
    decreases limit - s.procs[p].phase.next
  {
    var i := s.procs[p].phase.next;
    if i >= limit then s
    else
      var t := Next(s, limit, TrySlot(p, FirstOpen(SlotLock(GLOBAL, i), dirs, opens)));
      if t.procs[p].phase.Running? then t else Scanned(t, limit, p, dirs, opens)
  }

  /** They come to what a call of `AcquireSlot` comes to, `j` being the first slot that can be had,
      or the limit. */
  lemma {:induction false} ScanIsAcquireSlot(s: System, limit: nat, p: nat, dirs: seq<string>,
                                           opens: set<LockFile>, j: nat)
    requires p in s.procs && s.procs[p].phase.Scanning? && s.procs[p].phase.next <= j <= limit
    requires forall i :: s.procs[p].phase.next <= i < j ==> !Free(s.held, SlotLock(GLOBAL, i), dirs, opens)
    requires j < limit ==> Free(s.held, SlotLock(GLOBAL, j), dirs, opens)
    ensures var t, id := Scanned(s, limit, p, dirs, opens), SlotLock(GLOBAL, j);
      if j < limit
      then t.held == s.held[LockFile(FirstOpen(id, dirs, opens).value, id) := p]
           && t.procs == Moved(s, p, Running(s.procs[p].phase.dir, FirstOpen(id, dirs, opens).value, j))
      else t.held == s.held && t.procs == Moved(s, p, Scanning(s.procs[p].phase.dir, limit))
    decreases j - s.procs[p].phase.next
  {
    var i := s.procs[p].phase.next;
    if i < j {
      assert !Free(s.held, SlotLock(GLOBAL, i), dirs, opens);
      var t := Next(s, limit, TrySlot(p, FirstOpen(SlotLock(GLOBAL, i), dirs, opens)));
      ScanIsAcquireSlot(t, limit, p, dirs, opens, j);
    } else if i == limit {
      assert Moved(s, p, s.procs[p].phase) == s.procs;
    }
  }

  // ---------------------------------------------------------------- bounded parallelism

  /** Past the lock of the job, with that lock file in this directory. */
  predicate PastJob(s: System, p: nat, job: string, dir: string) {
    p in s.procs && HoldsJob(s.procs[p]) && s.procs[p].job == job && s.procs[p].phase.dir == dir
  }

  /** Past both locks, with the slot's lock file in this directory. */
  predicate RunsIn(s: System, dir: string, p: nat) {
    p in s.procs && s.procs[p].phase.Running? && s.procs[p].phase.slotDir == dir
  }

  lemma {:induction false} InjectionBound(ps: set<nat>, slot: map<nat, nat>, limit: nat)
    requires ps <= slot.Keys && forall p :: p in ps ==> slot[p] < limit
    requires forall p, q :: p in ps && q in ps && p != q ==> slot[p] != slot[q]
    ensures |ps| <= limit
  {
    if ps != {} {
      var p :| p in ps;
      if limit > 0 {
        // give the slot limit - 1 to p, then remove p
        var swapped := map q | q in slot :: if q != p && slot[q] == limit - 1 then slot[p] else slot[q];
        InjectionBound(ps - {p}, swapped, limit - 1);
      }
    }
  }

  /** Over all interleavings of any number of processes, as far as their lock files are in one
      directory: no two are past the lock of the same job, every run has a slot of its own below the
      limit, and so no more than the limit run at once. */
  lemma BoundedParallelism(states: seq<System>, steps: seq<Step>, limit: nat, n: nat, dir: string)
    requires IsRun(states, steps, limit) && n < |states|
    ensures var s := states[n];
      && (forall job, p, q :: PastJob(s, p, job, dir) && PastJob(s, q, job, dir) ==> p == q)
      && (forall p, q :: RunsIn(s, dir, p) && RunsIn(s, dir, q) && p != q ==>
            s.procs[p].phase.slot != s.procs[q].phase.slot)
      && |set p | p in s.procs && RunsIn(s, dir, p)| <= limit
  {
    RunKeepsInv(states, steps, limit, n);
    var s := states[n];
    forall job, p, q | PastJob(s, p, job, dir) && PastJob(s, q, job, dir) ensures p == q {
      var f := JobPath(s.procs[p]);
      assert Owns(s.procs[p], f) && s.held[f] == p;
      assert Owns(s.procs[q], f) && s.held[f] == q;
    }
    forall p, q | RunsIn(s, dir, p) && RunsIn(s, dir, q) && p != q
      ensures s.procs[p].phase.slot != s.procs[q].phase.slot
    {
      var f := SlotPath(s.procs[p]);
      assert Owns(s.procs[p], f) && s.held[f] == p;
      assert Owns(s.procs[q], SlotPath(s.procs[q]));
    }
    var ps := set p | p in s.procs && RunsIn(s, dir, p);
    InjectionBound(ps, map p | p in ps :: s.procs[p].phase.slot, limit);
  }

  /** The processes past both locks whose slots are in these directories. */
  function RunningIn(s: System, dirs: set<string>): set<nat> {
    set p | p in s.procs && s.procs[p].phase.Running? && s.procs[p].phase.slotDir in dirs
  }

  lemma OneDirectoryMore(s: System, dirs: set<string>, dir: string, limit: nat)
    requires dir in dirs && |set p | p in s.procs && RunsIn(s, dir, p)| <= limit
    ensures |RunningIn(s, dirs)| <= |RunningIn(s, dirs - {dir})| + limit
  {
    var here := set p | p in s.procs && RunsIn(s, dir, p);
    assert RunningIn(s, dirs) == RunningIn(s, dirs - {dir}) + here;
  }

  lemma OneTimeMore(n: nat, limit: nat)
    ensures n * limit + limit == (n + 1) * limit
  {
  }

  /** Over several directories the bounds add up: with two of them, twice the limit. */
  lemma {:induction false} BoundOverDirectories(states: seq<System>, steps: seq<Step>, limit: nat,
                                              n: nat, dirs: set<string>)
    requires IsRun(states, steps, limit) && n < |states|
    ensures |RunningIn(states[n], dirs)| <= |dirs| * limit
    decreases |dirs|
  {
    if dirs == {} {
      assert RunningIn(states[n], dirs) == {};
    } else {
      var dir :| dir in dirs;
      BoundedParallelism(states, steps, limit, n, dir);
      BoundOverDirectories(states, steps, limit, n, dirs - {dir});
      OneDirectoryMore(states[n], dirs, dir, limit);
      OneTimeMore(|dirs| - 1, limit);
    }
  }

  /** Every way out frees both locks: a process that is gone holds nothing. */
  lemma GoneHoldsNothing(states: seq<System>, steps: seq<Step>, limit: nat, n: nat, p: nat)
    requires IsRun(states, steps, limit) && n < |states|
    requires p in states[n].procs && states[n].procs[p].phase.Gone?
    ensures forall f :: f in states[n].held ==> states[n].held[f] != p
  {
    RunKeepsInv(states, steps, limit, n);
  }

  /** Step `t` is the try of slot `k` by the process, and it failed: the lock file opened nowhere, or
      another process held the lock. */
  ghost predicate SawUnavailable(states: seq<System>, steps: seq<Step>, t: nat, p: nat, k: nat)
    requires t < |states| && t < |steps|
  {
    var s, step := states[t], steps[t];
    && step.TrySlot? && step.p == p && p in s.procs && s.procs[p].phase.Scanning? && s.procs[p].phase.next == k
    && (step.found.None?
        || var f := LockFile(step.found.value, SlotLock(GLOBAL, k)); f in s.held && s.held[f] != p)
  }

  ghost predicate SawAllUnavailable(states: seq<System>, steps: seq<Step>, n: nat, p: nat, k: nat)
    requires n < |states| && n <= |steps|
  {
    forall i: nat :: i < k ==> SawSlot(states, steps, n, p, i)
  }

  ghost predicate SawSlot(states: seq<System>, steps: seq<Step>, n: nat, p: nat, i: nat)
    requires n < |states| && n <= |steps|
  {
    exists t: nat :: t < n && SawUnavailable(states, steps, t, p, i)
  }

  lemma SeenStaysSeen(states: seq<System>, steps: seq<Step>, n: nat, p: nat, k: nat)
    requires 0 < n < |states| && n <= |steps| && SawAllUnavailable(states, steps, n - 1, p, k)
    ensures SawAllUnavailable(states, steps, n, p, k)
  {
    forall i: nat | i < k ensures SawSlot(states, steps, n, p, i) {
      assert SawSlot(states, steps, n - 1, p, i);
    }
  }

  /** A refused try is seen. */
  lemma RefusalIsSeen(states: seq<System>, steps: seq<Step>, limit: nat, n: nat, p: nat)
    requires 0 < n < |states| && n <= |steps| && Inv(states[n - 1], limit)
    requires steps[n - 1].TrySlot? && steps[n - 1].p == p
    requires p in states[n - 1].procs && states[n - 1].procs[p].phase.Scanning?
    requires !Takes(states[n - 1], steps[n - 1].found, SlotLock(GLOBAL, states[n - 1].procs[p].phase.next))
    ensures SawSlot(states, steps, n, p, states[n - 1].procs[p].phase.next)
  {
    var q, step := states[n - 1].procs[p], steps[n - 1];
    if step.found.Some? {
      OwnsDistinct(q.phase.dir, q.job, step.found.value, q.phase.next);
    }
    assert SawUnavailable(states, steps, n - 1, p, q.phase.next);
  }

  /** How a process comes to be scanning, or to have found nothing. */
  lemma ScanStep(s: System, limit: nat, step: Step, p: nat)
    requires Enabled(s, limit, step) && p in Next(s, limit, step).procs
    ensures var phase := Next(s, limit, step).procs[p].phase;
      && (phase.Scanning? ==>
            || phase.next == 0
            || (p in s.procs && s.procs[p].phase == phase)
            || (step.TrySlot? && step.p == p && s.procs[p].phase == Scanning(phase.dir, phase.next - 1)
                && !Takes(s, step.found, SlotLock(GLOBAL, phase.next - 1))))
      && (phase.Full? ==>
            p in s.procs
            && (s.procs[p].phase == phase || (s.procs[p].phase.Scanning? && s.procs[p].phase.next >= limit)))
  {
  }

  /** What the phase of a process says of its scan. */
  ghost predicate ScanSeen(states: seq<System>, steps: seq<Step>, limit: nat, n: nat, p: nat)
    requires n < |states| && n <= |steps| && p in states[n].procs
  {
    var phase := states[n].procs[p].phase;
    && (phase.Scanning? ==> SawAllUnavailable(states, steps, n, p, phase.next))
    && (phase.Full? ==> SawAllUnavailable(states, steps, n, p, limit))
  }

  lemma ScanSeenStays(states: seq<System>, steps: seq<Step>, limit: nat, n: nat, p: nat)
    requires 0 < n < |states| && n <= |steps| && p in states[n - 1].procs && ScanSeen(states, steps, limit, n - 1, p)
    ensures var before := states[n - 1].procs[p].phase;
      && (before.Scanning? ==> SawAllUnavailable(states, steps, n, p, before.next))
      && (before.Full? ==> SawAllUnavailable(states, steps, n, p, limit))
  {
    var before := states[n - 1].procs[p].phase;
    if before.Scanning? {
      SeenStaysSeen(states, steps, n, p, before.next);
    } else if before.Full? {
      SeenStaysSeen(states, steps, n, p, limit);
    }
  }

  lemma {:induction false} ScanSees(states: seq<System>, steps: seq<Step>, limit: nat, n: nat, p: nat)
    requires IsRun(states, steps, limit) && n < |states| && p in states[n].procs
    ensures ScanSeen(states, steps, limit, n, p)
  {
    if n > 0 {
      assert Linked(states, steps, limit, n - 1);
      RunKeepsInv(states, steps, limit, n - 1);
      ScanStep(states[n - 1], limit, steps[n - 1], p);
      if p in states[n - 1].procs {
        ScanSees(states, steps, limit, n - 1, p);
        ScanSeenStays(states, steps, limit, n, p);
        var before, phase := states[n - 1].procs[p].phase, states[n].procs[p].phase;
        if phase.Scanning? && phase.next > 0 && before != phase {
          RefusalIsSeen(states, steps, limit, n, p);
        }
      }
    }
  }

  /** `AcquireSlot` reports that the limit is reached only after each slot failed it during its own
      scan: the slot's lock file opened nowhere, or another process held its lock. */
  lemma FullOnlyAfterSeeingAllTaken(states: seq<System>, steps: seq<Step>, limit: nat, n: nat, p: nat, k: nat)
    requires IsRun(states, steps, limit) && n < |states| && p in states[n].procs
    requires states[n].procs[p].phase.Full? && k < limit
    ensures exists t: nat :: t < n && SawUnavailable(states, steps, t, p, k)
  {
    ScanSees(states, steps, limit, n, p);
    assert SawSlot(states, steps, n, p, k);
  }

  // ---------------------------------------------------------------- several directories

  /** A run may go on with any step that is enabled. */
  lemma RunExtends(states: seq<System>, steps: seq<Step>, limit: nat, step: Step)
    returns (more: seq<System>, taken: seq<Step>)
    requires IsRun(states, steps, limit) && Enabled(states[|steps|], limit, step)
    ensures IsRun(more, taken, limit) && |taken| == |steps| + 1
    ensures more[|taken|] == Next(states[|steps|], limit, step)
  {
    more, taken := states + [Next(states[|steps|], limit, step)], steps + [step];
    forall i | 0 <= i < |taken| ensures Linked(more, taken, limit, i) {
      if i < |steps| { assert Linked(states, steps, limit, i); }
    }
  }

  /** A new process gets past the lock of its job in a directory that holds no lock. */
  lemma PassesJobLock(states: seq<System>, steps: seq<Step>, limit: nat, p: nat, dir: string, job: string)
    returns (more: seq<System>, taken: seq<Step>)
    requires IsRun(states, steps, limit) && p !in states[|steps|].procs
    requires forall f :: f in states[|steps|].held ==> f.dir != dir
    ensures IsRun(more, taken, limit)
    ensures more[|taken|].procs == states[|steps|].procs[p := Process(job, Scanning(dir, 0))]
    ensures more[|taken|].held == states[|steps|].held[LockFile(dir, JobLock(job)) := p]
  {
    more, taken := RunExtends(states, steps, limit, Launch(p, job));
    more, taken := RunExtends(more, taken, limit, TryJob(p, Some(dir)));
  }

  /** It gets past both locks, if the limit allows anyone to run. */
  lemma Enters(states: seq<System>, steps: seq<Step>, limit: nat, p: nat, dir: string, job: string)
    returns (more: seq<System>, taken: seq<Step>)
    requires IsRun(states, steps, limit) && limit > 0 && p !in states[|steps|].procs
    requires forall f :: f in states[|steps|].held ==> f.dir != dir
    ensures IsRun(more, taken, limit)
    ensures more[|taken|].procs == states[|steps|].procs[p := Process(job, Running(dir, dir, 0))]
    ensures forall f :: f in more[|taken|].held ==> f in states[|steps|].held || f.dir == dir
  {
    more, taken := PassesJobLock(states, steps, limit, p, dir, job);
    LockNamesDiffer(job, 0, 0);
    more, taken := RunExtends(more, taken, limit, TrySlot(p, Some(dir)));
  }

  /** The bounds hold per directory only: whatever the limit and the job, a process whose lock files
      open in one directory and a process whose lock files open in another run that job at once. */
  lemma TwoDirectoriesShareNothing(limit: nat, job: string, a: string, b: string)
    returns (states: seq<System>, steps: seq<Step>)
    requires limit > 0 && a != b
    ensures IsRun(states, steps, limit)
    ensures var s := states[|steps|];
      RunsIn(s, a, 1) && RunsIn(s, b, 2) && PastJob(s, 1, job, a) && PastJob(s, 2, job, b)
  {
    states, steps := Enters([System(map[], map[])], [], limit, 1, a, job);
    states, steps := Enters(states, steps, limit, 2, b, job);
  }

  /** The run ends with two processes past the lock of the job, one in each directory. */
  ghost predicate EndsWithTwo(states: seq<System>, steps: seq<Step>, limit: nat, job: string, a: string, b: string) {
    && IsRun(states, steps, limit)
    && exists p, q :: p != q && PastJob(states[|steps|], p, job, a) && PastJob(states[|steps|], q, job, b)
  }

  /** Two processes can both be past the lock of one job if and only if its lock file opened for them
      in different directories. */
  lemma OneJobTwiceExactlyWhen(limit: nat, job: string, a: string, b: string)
    ensures (exists states, steps :: EndsWithTwo(states, steps, limit, job, a, b)) <==> a != b
  {
    if a != b {
      var states, steps := PassesJobLock([System(map[], map[])], [], limit, 1, a, job);
      states, steps := PassesJobLock(states, steps, limit, 2, b, job);
      assert PastJob(states[|steps|], 1, job, a) && PastJob(states[|steps|], 2, job, b);
      assert EndsWithTwo(states, steps, limit, job, a, b);
    }
    if states, steps :| EndsWithTwo(states, steps, limit, job, a, b) {
      BoundedParallelism(states, steps, limit, |steps|, a);
    }
  }

  // ---------------------------------------------------------------- the bound is reached

  /** Processes 0 to n - 1 run, each a job of its own; those in `dir` have the slots below `k`. */
  ghost predicate Filled(s: System, n: nat, dir: string, k: nat) {
    && (forall p: nat :: p in s.procs <==> p < n)
    && (forall p :: p in s.procs ==> s.procs[p].phase.Running? && s.procs[p].job == Itoa(p))
    && (forall p :: p in s.procs && s.procs[p].phase.slotDir == dir ==> s.procs[p].phase.slot < k)
    && (forall i :: 0 <= i < k ==> LockFile(dir, SlotLock(GLOBAL, i)) in s.held)
  }

  /** The next process finds the lock of its job and the next slot free. */
  lemma NextIsFree(s: System, limit: nat, n: nat, dir: string, k: nat)
    requires Inv(s, limit) && Filled(s, n, dir, k)
    ensures LockFile(dir, JobLock(Itoa(n))) !in s.held && LockFile(dir, SlotLock(GLOBAL, k)) !in s.held
  {
    if LockFile(dir, JobLock(Itoa(n))) in s.held {
      var p := s.held[LockFile(dir, JobLock(Itoa(n)))];
      LockNamesDiffer(Itoa(n), s.procs[p].phase.slot, 0);
      JobLocksDiffer(Itoa(p), Itoa(n));
      ItoaInjective(p, n);
    }
    if LockFile(dir, SlotLock(GLOBAL, k)) in s.held {
      var p := s.held[LockFile(dir, SlotLock(GLOBAL, k))];
      LockNamesDiffer(Itoa(p), k, k);
      LockNamesDiffer("", s.procs[p].phase.slot, k);
    }
  }

  lemma NextIsFreeInRun(states: seq<System>, steps: seq<Step>, limit: nat, n: nat, dir: string, k: nat)
    requires IsRun(states, steps, limit) && Filled(states[|steps|], n, dir, k)
    ensures LockFile(dir, JobLock(Itoa(n))) !in states[|steps|].held
    ensures LockFile(dir, SlotLock(GLOBAL, k)) !in states[|steps|].held
  {
    RunKeepsInv(states, steps, limit, |steps|);
    NextIsFree(states[|steps|], limit, n, dir, k);
  }

  /** A process passes over the slots that are taken. */
  lemma {:induction false} PassesTaken(states: seq<System>, steps: seq<Step>, limit: nat, p: nat, dir: string, k: nat)
    returns (more: seq<System>, taken: seq<Step>)
    requires IsRun(states, steps, limit) && k <= limit && p in states[|steps|].procs
    requires var q := states[|steps|].procs[p].phase; q.Scanning? && q.dir == dir && q.next <= k
    requires forall i :: 0 <= i < k ==> LockFile(dir, SlotLock(GLOBAL, i)) in states[|steps|].held
    ensures IsRun(more, taken, limit) && more[|taken|].held == states[|steps|].held
    ensures more[|taken|].procs == Moved(states[|steps|], p, Scanning(dir, k))
    decreases k - states[|steps|].procs[p].phase.next
  {
    var s := states[|steps|];
    if s.procs[p].phase.next == k {
      more, taken := states, steps;
      assert s.procs[p] == s.procs[p].(phase := Scanning(dir, k));
      assert Moved(s, p, Scanning(dir, k)) == s.procs;
    } else {
      more, taken := RunExtends(states, steps, limit, TrySlot(p, Some(dir)));
      more, taken := PassesTaken(more, taken, limit, p, dir, k);
    }
  }

  lemma OneMoreFilled(s: System, t: System, n: nat, dir: string, k: nat)
    requires Filled(s, n, dir, k) && t.procs == s.procs[n := Process(Itoa(n), Running(dir, dir, k))]
    requires s.held.Keys <= t.held.Keys && LockFile(dir, SlotLock(GLOBAL, k)) in t.held
    ensures Filled(t, n + 1, dir, k + 1)
  {
  }

  /** The next process is past the lock of its job and has passed over the slots that are taken. */
  lemma ReachesSlot(states: seq<System>, steps: seq<Step>, limit: nat, n: nat, dir: string, k: nat)
    returns (more: seq<System>, taken: seq<Step>)
    requires IsRun(states, steps, limit) && k < limit && Filled(states[|steps|], n, dir, k)
    requires LockFile(dir, JobLock(Itoa(n))) !in states[|steps|].held
    ensures IsRun(more, taken, limit)
    ensures more[|taken|].held == states[|steps|].held[LockFile(dir, JobLock(Itoa(n))) := n]
    ensures more[|taken|].procs == states[|steps|].procs[n := Process(Itoa(n), Scanning(dir, k))]
  {
    var s := states[|steps|];
    more, taken := RunExtends(states, steps, limit, Launch(n, Itoa(n)));
    more, taken := RunExtends(more, taken, limit, TryJob(n, Some(dir)));
    assert more[|taken|].held == s.held[LockFile(dir, JobLock(Itoa(n))) := n];
    more, taken := PassesTaken(more, taken, limit, n, dir, k);
  }

  lemma FillOne(states: seq<System>, steps: seq<Step>, limit: nat, n: nat, dir: string, k: nat)
    returns (more: seq<System>, taken: seq<Step>)
    requires IsRun(states, steps, limit) && k < limit && Filled(states[|steps|], n, dir, k)
    ensures IsRun(more, taken, limit) && Filled(more[|taken|], n + 1, dir, k + 1)
    ensures more[|taken|].procs == states[|steps|].procs[n := Process(Itoa(n), Running(dir, dir, k))]
  {
    var s := states[|steps|];
    NextIsFreeInRun(states, steps, limit, n, dir, k);
    more, taken := ReachesSlot(states, steps, limit, n, dir, k);
    OwnsDistinct(dir, Itoa(n), dir, k);
    var slot := LockFile(dir, SlotLock(GLOBAL, k));
    assert Takes(more[|taken|], Some(dir), slot.id);
    more, taken := RunExtends(more, taken, limit, TrySlot(n, Some(dir)));
    assert more[|taken|].held == s.held[LockFile(dir, JobLock(Itoa(n))) := n][slot := n];
    OneMoreFilled(s, more[|taken|], n, dir, k);
  }

  /** All slots of one more directory. */
  lemma {:induction false} FillDirectory(states: seq<System>, steps: seq<Step>, limit: nat, n: nat, dir: string, k: nat)
    returns (more: seq<System>, taken: seq<Step>)
    requires IsRun(states, steps, limit) && k <= limit && Filled(states[|steps|], n, dir, 0)
    ensures IsRun(more, taken, limit) && Filled(more[|taken|], n + k, dir, k)
    ensures forall p :: p in more[|taken|].procs ==>
      if p < n then p in states[|steps|].procs && more[|taken|].procs[p] == states[|steps|].procs[p]
      else more[|taken|].procs[p].phase.slotDir == dir
    decreases k
  {
    if k == 0 {
      more, taken := states, steps;
    } else {
      more, taken := FillDirectory(states, steps, limit, n, dir, k - 1);
      more, taken := FillOne(more, taken, limit, n + k - 1, dir, k - 1);
    }
  }

  /** The directories in which processes run. */
  ghost predicate Within(s: System, dirs: set<string>) {
    forall p :: p in s.procs ==> s.procs[p].phase.Running? && s.procs[p].phase.slotDir in dirs
  }

  lemma {:induction false} FillAll(limit: nat, dirs: set<string>)
    returns (states: seq<System>, steps: seq<Step>, n: nat)
    ensures IsRun(states, steps, limit) && n == |dirs| * limit && Within(states[|steps|], dirs)
    ensures forall p: nat :: p in states[|steps|].procs <==> p < n
    ensures forall p :: p in states[|steps|].procs ==> states[|steps|].procs[p].job == Itoa(p)
    decreases |dirs|
  {
    if dirs == {} {
      states, steps, n := [System(map[], map[])], [], 0;
    } else {
      var dir :| dir in dirs;
      states, steps, n := FillAll(limit, dirs - {dir});
      assert Filled(states[|steps|], n, dir, 0);
      states, steps := FillDirectory(states, steps, limit, n, dir, limit);
      OneTimeMore(|dirs| - 1, limit);
      n := n + limit;
    }
  }

  lemma {:induction false} BelowSize(ps: set<nat>, n: nat)
    requires forall p: nat :: p in ps <==> p < n
    ensures |ps| == n
  {
    if n == 0 {
      assert ps == {};
    } else {
      BelowSize(ps - {n - 1}, n - 1);
    }
  }

  /** The bound over several directories is reached: for every limit and all directories, some run ends
      with as many processes past both locks as the limit allows in each of them. */
  lemma BoundIsReached(limit: nat, dirs: set<string>) returns (states: seq<System>, steps: seq<Step>)
    ensures IsRun(states, steps, limit) && |RunningIn(states[|steps|], dirs)| == |dirs| * limit
  {
    var n: nat;
    states, steps, n := FillAll(limit, dirs);
    BelowSize(RunningIn(states[|steps|], dirs), n);
  }
}
