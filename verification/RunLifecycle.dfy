/** One run of a job, from its locks to its last save. What other programs and the disk do is an
    input; what the run does to the tables, the locks and its callbacks is the state. */
module RunLifecycle {
  import Locks
  import opened Redaction
  import opened Store
  import opened Text
  import opened Wrappers

  datatype Job = Job(id: string, enabled: bool, backupMode: string, paths: seq<string>, strictPaths: bool,
                     databases: seq<string>, forgetAfterBackup: bool, metadataAfterBackup: bool)

  /** What dumping a database comes to. */
  datatype Dump = Unknown(error: string) | DumpFailed(error: string) | Dumped(path: string)

  datatype Summary = Summary(snapshotID: string, counts: seq<int>)

  /** Everything a run meets. `refused` are the saves that the store refuses: those of a phase, and
      of the phase `Completed` the one of a failed run or the other. `onStarted` and `onFinished` say
      whether those callbacks are set. */
  datatype World = World(
    job: Option<Job>, runID: string, now: string, later: string, logPath: Option<string>,
    webdav: Option<bool>, noStorage: string, runtime: Option<string>, build: Option<string>,
    unreadable: map<string, string>, tempDir: Option<string>, stage: Option<string>,
    dumps: map<string, Dump>, unknown: string,
    restic: Option<string>, expired: Option<string>, summary: Summary, noSummary: string,
    forget: Option<string>, verify: Option<string>,
    refused: map<(Phase, bool), string>,
    onStarted: bool, onFinished: bool)

  datatype Verdict = Verdict(code: Code, message: string)

  /** A call of `SaveRun` and whether the store accepted it. */
  datatype Save = Save(run: Run, ok: bool)

  /** What restic is asked to back up. */
  datatype Request = Request(mode: string, complete: bool, paths: seq<string>)

  // ---------------------------------------------------------------- the mode

  function BackupMode(configured: string, override: string): Option<string> {
    var chosen := if override != "" then override else if configured != "" then configured else "incremental";
    if chosen == "incremental" || chosen == "full" then Some(chosen) else None
  }

  // ---------------------------------------------------------------- what goes wrong first

  function FirstUnreadable(paths: seq<string>, unreadable: map<string, string>): Option<string> {
    if paths == [] then None
    else if paths[0] in unreadable then Some(unreadable[paths[0]])
    else FirstUnreadable(paths[1..], unreadable)
  }

  function DumpOf(w: World, id: string): Dump {
    if id in w.dumps then w.dumps[id] else Unknown(w.unknown)
  }

  /** The first database that cannot be dumped. */
  function FirstBadDump(ids: seq<string>, w: World): Option<Verdict> {
    if ids == [] then None
    else match DumpOf(w, ids[0])
      case Unknown(e) => Some(Verdict(ConfigError, e))
      case DumpFailed(e) => Some(Verdict(DatabaseDumpFailed, e))
      case Dumped(_) => FirstBadDump(ids[1..], w)
  }

  /** The database was dumped to this file. */
  predicate DumpedTo(w: World, id: string, path: string) {
    id in w.dumps && w.dumps[id] == Dumped(path)
  }

  /** Database `i` is the first that cannot be dumped, and this is why. */
  predicate FailsFirst(ids: seq<string>, i: nat, w: World, v: Verdict)
    requires i < |ids|
  {
    && (forall k :: 0 <= k < i ==> DumpOf(w, ids[k]).Dumped?)
    && match DumpOf(w, ids[i])
       case Unknown(e) => v == Verdict(ConfigError, e)
       case DumpFailed(e) => v == Verdict(DatabaseDumpFailed, e)
       case Dumped(_) => false
  }

  /** What is backed up: these paths, then the dump of each database, in order. */
  predicate Sources(paths: seq<string>, own: seq<string>, ids: seq<string>, w: World) {
    && |paths| == |own| + |ids| && paths[..|own|] == own
    && forall i :: 0 <= i < |ids| ==> DumpedTo(w, ids[i], paths[|own| + i])
  }

  /** The requests to restic: one for all that is backed up, unless something fails before it. */
  predicate Asked(requests: seq<Request>, j: Job, mode: string, w: World) {
    if BeforeRequest(j, w).None?
    then |requests| == 1 && requests[0].mode == mode && requests[0].complete == (mode == "full")
         && Sources(requests[0].paths, j.paths, j.databases, w)
    else requests == []
  }

  function Refusal(w: World, p: Phase): Option<Verdict> {
    if (p, false) in w.refused then Some(Verdict(StateSaveFailed, w.refused[(p, false)])) else None
  }

  function Either(a: Option<Verdict>, b: Option<Verdict>): Option<Verdict> {
    if a.Some? then a else b
  }

  function When(c: bool, v: Option<Verdict>): Option<Verdict> {
    if c then v else None
  }

  function Because(e: Option<string>, code: Code): Option<Verdict> {
    if e.Some? then Some(Verdict(code, e.value)) else None
  }

  function BeforeStaging(j: Job, w: World): Option<Verdict> {
    Either(When(w.webdav.None?, Some(Verdict(ConfigError, w.noStorage))),
    Either(When(w.webdav == Some(true), Because(w.runtime, MissingRuntime)),
    Either(Because(w.build, ConfigError),
    Either(When(j.strictPaths, Because(FirstUnreadable(j.paths, w.unreadable), SourceNotReadable)),
    Either(Because(w.tempDir, TempDirFailed),
           Because(w.stage, TempDirFailed))))))
  }

  function WhileDumping(j: Job, w: World): Option<Verdict> {
    When(j.databases != [], Either(Refusal(w, PreparingSources), FirstBadDump(j.databases, w)))
  }

  function WhileBackingUp(w: World): Option<Verdict> {
    Either(Refusal(w, BackingUp),
    Either(When(w.restic.Some?, Either(Because(w.expired, TaskTimeout), Because(w.restic, ResticBackupFailed))),
           When(w.summary.snapshotID == "", Some(Verdict(ResticInvalidOutput, w.noSummary)))))
  }

  function AfterBackup(j: Job, w: World): Option<Verdict> {
    Either(When(j.forgetAfterBackup, Refusal(w, Retention)),
    Either(When(j.metadataAfterBackup, Refusal(w, VerifyingMetadata)),
           Refusal(w, Completed)))
  }

  /** The first thing that fails a run, in the order in which they can happen. */
  function FirstFailure(j: Job, w: World): Option<Verdict> {
    Either(BeforeStaging(j, w), Either(WhileDumping(j, w), Either(WhileBackingUp(w), AfterBackup(j, w))))
  }

  /** What follows the backup may fail without failing the run. */
  function Warnings(j: Job, w: World): seq<string> {
    (if j.forgetAfterBackup && w.forget.Some? then [w.forget.value] else [])
    + (if j.metadataAfterBackup && w.verify.Some? then [w.verify.value] else [])
  }

  // ---------------------------------------------------------------- the saves of a run

  function Rank(p: Phase): nat {
    match p
    case Preflight => 0
    case PreparingSources => 1
    case BackingUp => 2
    case Retention => 3
    case VerifyingMetadata => 4
    case Completed => 5
  }

  predicate SameRun(a: Run, b: Run) {
    a.id == b.id && a.jobID == b.jobID && a.startedAt == b.startedAt && a.startedAt.Some?
  }

  function RankAt(saves: seq<Save>, i: int): nat
    requires 0 <= i < |saves|
  {
    Rank(saves[i].run.state.phase)
  }

  /** The rank of a save that was accepted. */
  function StoredAt(saves: seq<Save>, i: int): int
    requires 0 <= i < |saves|
  {
    if saves[i].ok then RankAt(saves, i) else -1
  }

  predicate PhasesInOrder(saves: seq<Save>, i: int, j: int)
    requires 0 <= i < j < |saves|
  {
    && RankAt(saves, i) <= RankAt(saves, j)
    && (StoredAt(saves, j) >= 0 ==> StoredAt(saves, i) < StoredAt(saves, j))
  }

  /** A run is running exactly until its phase is `Completed`. */
  predicate Consistent(r: Run) {
    r.state.status == Running <==> r.state.phase != Completed
  }

  predicate IsOf(saves: seq<Save>, i: int, r: Run)
    requires 0 <= i < |saves|
  {
    SameRun(saves[i].run, r) && Consistent(saves[i].run)
  }

  /** All saves are of one run in a consistent state, the phases never go back,
      and those that were stored go forward. */
  predicate Orderly(saves: seq<Save>, r: Run) {
    && (forall i :: 0 <= i < |saves| ==> IsOf(saves, i, r))
    && (forall i, j :: 0 <= i < j < |saves| ==> PhasesInOrder(saves, i, j))
  }

  predicate NoneLater(saves: seq<Save>, rank: nat, stored: nat) {
    && (forall i :: 0 <= i < |saves| ==> RankAt(saves, i) <= rank)
    && (forall i :: 0 <= i < |saves| ==> StoredAt(saves, i) <= stored)
  }

  lemma OneMore(saves: seq<Save>, s: Save, r: Run, rank: nat, stored: nat)
    requires Orderly(saves, r) && NoneLater(saves, rank, stored) && SameRun(s.run, r) && Consistent(s.run)
    requires rank <= Rank(s.run.state.phase) && (s.ok ==> stored < Rank(s.run.state.phase))
    ensures Orderly(saves + [s], r)
    ensures NoneLater(saves + [s], Rank(s.run.state.phase), if s.ok then Rank(s.run.state.phase) else stored)
  {
    var more, n := saves + [s], |saves|;
    forall i | 0 <= i < n
      ensures IsOf(more, i, r) && RankAt(more, i) == RankAt(saves, i) && StoredAt(more, i) == StoredAt(saves, i)
    {
      assert IsOf(saves, i, r);
    }
    assert IsOf(more, n, r) && RankAt(more, n) == Rank(s.run.state.phase);
    forall i, j | 0 <= i < j < |more| ensures PhasesInOrder(more, i, j) {
      if j < n { assert PhasesInOrder(saves, i, j); }
    }
  }

  /** The table after the saves that the store accepted. */
  function Table(rows: map<string, RunRow>, saves: seq<Save>): map<string, RunRow> {
    if saves == [] then rows
    else
      var n := |saves| - 1;
      if saves[n].ok then Saved(Table(rows, saves[..n]), saves[n].run) else Table(rows, saves[..n])
  }

  lemma TableOneMore(rows: map<string, RunRow>, saves: seq<Save>, s: Save)
    ensures Table(rows, saves + [s]) == if s.ok then Saved(Table(rows, saves), s.run) else Table(rows, saves)
  {
    assert (saves + [s])[..|saves|] == saves;
  }

  function NewState(w: World, scheduled: bool): RunState {
    RunState(Running, Preflight, if scheduled then Some(w.now) else None, None,
             if w.logPath.Some? then w.logPath.value else "", Result("", [], "", None, ""))
  }

  function NewRun(j: Job, w: World, scheduled: bool): Run {
    Run(w.runID, j.id, Some(w.now), NewState(w, scheduled))
  }

  function FailedRun(r: Run, v: Verdict, w: World, redact: string -> string): Run {
    r.(state := r.state.(status := Failure, phase := Completed, finishedAt := Some(w.later),
                         result := r.state.result.(errorCode := Some(v.code), errorSummary := redact(v.message))))
  }

  /** A run that did not fail, with the text of its warnings if it has any. */
  function CompletedRun(r: Run, warning: Option<string>, w: World): Run {
    r.(state := r.state.(status := if warning.None? then Success else Warning, phase := Completed,
                         finishedAt := Some(w.later),
                         result := if warning.None? then r.state.result
                                   else r.state.result.(warning := warning.value)))
  }

  /** The call of a callback, if it is set. */
  function Called(isSet: bool, r: Run): seq<Run> {
    if isSet then [r] else []
  }

  // ---------------------------------------------------------------- what a run comes to

  /** What a call did: its saves, the callbacks and restic calls it made, and what it returned. */
  datatype Trace = Trace(made: seq<Save>, begun: seq<Run>, ended: seq<Run>, requests: seq<Request>)

  ghost predicate FailedWith(last: Save, err: Option<string>, v: Verdict, w: World, redact: string -> string) {
    var r := last.run;
    && r.state.status == Failure && r.state.result.errorCode == Some(v.code)
    && r.state.result.errorSummary == redact(v.message)
    && (last.ok <==> (Completed, true) !in w.refused)
    && err.Some? && v.message <= err.value && (last.ok ==> err.value == v.message)
  }

  ghost predicate Succeeded(r: Run, j: Job, w: World, redact: string -> string) {
    && r.state.result.snapshotID == w.summary.snapshotID != "" && r.state.result.counts == w.summary.counts
    && r.state.result.errorCode.None?
    && r.state.status == (if Warnings(j, w) == [] then Success else Warning)
    && (Warnings(j, w) != [] ==> r.state.result.warning == redact(Join(Warnings(j, w), "; ")))
  }

  /** The whole outcome of a call that got past its locks. */
  ghost predicate Ran(t: Trace, r: Option<Run>, err: Option<string>, j: Job, mode: string, w: World, scheduled: bool,
                      redact: string -> string) {
    var first := NewRun(j, w, scheduled);
    && t.made != [] && Orderly(t.made, first) && t.made[0].run == first
    && (!t.made[0].ok ==>
          |t.made| == 1 && t.begun == [] && t.ended == [] && t.requests == [] && r.None? && err.Some?)
    && (t.made[0].ok ==>
          && t.begun == Called(w.onStarted, first)
          && Asked(t.requests, j, mode, w)
          && r.Some? && Ended(t.made, t.ended, r.value, err, FirstFailure(j, w), j, w, first, redact))
  }

  predicate Completes(made: seq<Save>, r: Run, first: Run, w: World) {
    && made != [] && made[0] == Save(first, true) && Orderly(made, first) && made[|made| - 1] == Save(r, true)
    && SameRun(r, first) && r.state.phase == Completed && r.state.finishedAt == Some(w.later)
  }

  function BeforeRequest(j: Job, w: World): Option<Verdict> {
    Either(BeforeStaging(j, w), Either(WhileDumping(j, w), Refusal(w, BackingUp)))
  }

  /** How a run that was announced ends, given the first thing that fails it. */
  ghost predicate Ended(made: seq<Save>, ended: seq<Run>, r: Run, err: Option<string>, v: Option<Verdict>,
                        j: Job, w: World, first: Run, redact: string -> string) {
    && made != [] && made[|made| - 1].run == r
    && SameRun(r, first) && r.state.phase == Completed && r.state.finishedAt == Some(w.later)
    && Entered(made) == {Preflight, Completed} + PhasesBetween(j, w)
    && ended == (if made[|made| - 1].ok then Called(w.onFinished, r) else [])
    && match v
       case Some(x) => FailedWith(made[|made| - 1], err, x, w, redact)
       case None => err.None? && made[|made| - 1].ok && Succeeded(r, j, w, redact)
  }

  /** A run under way, all its saves accepted so far. */
  predicate Going(mine: seq<Save>, r: Run, first: Run) {
    && mine != [] && mine[0] == Save(first, true) && Orderly(mine, first)
    && NoneLater(mine, Rank(r.state.phase), Rank(r.state.phase)) && Rank(r.state.phase) < Rank(Completed)
    && SameRun(r, first) && r.state.status == Running && r.state.result.errorCode.None?
  }

  /** The phases that a run was saved in, whether the store accepted that or not. */
  function Entered(saves: seq<Save>): set<Phase> {
    set s | s in saves :: s.run.state.phase
  }

  lemma EnteredOneMore(saves: seq<Save>, s: Save)
    ensures Entered(saves + [s]) == Entered(saves) + {s.run.state.phase}
  {
    forall x ensures x in saves + [s] <==> x in saves || x == s { }
    forall p ensures p in Entered(saves + [s]) <==> p in Entered(saves) || p == s.run.state.phase {
      if p in Entered(saves) {
        var x :| x in saves && x.run.state.phase == p;
        assert x in saves + [s];
      }
      if p == s.run.state.phase { assert s in saves + [s]; }
    }
  }

  lemma EnteredOnce(s: Save)
    ensures Entered([s]) == {s.run.state.phase}
  {
    EnteredOneMore([], s);
    assert [] + [s] == [s];
  }

  /** The phases up to restic's, and those after it. */
  function FirstPhases(j: Job, w: World): set<Phase> {
    (if BeforeStaging(j, w).None? && j.databases != [] then {PreparingSources} else {})
    + (if BeforeStaging(j, w).None? && WhileDumping(j, w).None? then {BackingUp} else {})
  }

  function LaterPhases(j: Job, w: World): set<Phase> {
    (if j.forgetAfterBackup then {Retention} else {})
    + (if When(j.forgetAfterBackup, Refusal(w, Retention)).None? && j.metadataAfterBackup
       then {VerifyingMetadata} else {})
  }

  function PhasesBetween(j: Job, w: World): set<Phase> {
    FirstPhases(j, w)
    + if Either(BeforeStaging(j, w), Either(WhileDumping(j, w), WhileBackingUp(w))).None? then LaterPhases(j, w) else {}
  }

  lemma PhasesOfWork(before: set<Phase>, middle: set<Phase>, after: set<Phase>, j: Job, w: World)
    requires middle == before + FirstPhases(j, w)
    requires if Either(BeforeStaging(j, w), Either(WhileDumping(j, w), WhileBackingUp(w))).None?
             then after + {Completed} == middle + LaterPhases(j, w) + {Completed}
             else after == middle
    ensures after + {Completed} == before + {Completed} + PhasesBetween(j, w)
  {
  }

  /** A run that has not been saved as completed yet. */
  predicate Open(mine: seq<Save>, r: Run, first: Run) {
    && mine != [] && mine[0] == Save(first, true) && Orderly(mine, first)
    && NoneLater(mine, Rank(Completed), Rank(VerifyingMetadata)) && SameRun(r, first)
  }

  lemma FirstPhase(rows: map<string, RunRow>, j: Job, w: World, scheduled: bool, ok: bool)
    ensures var first := NewRun(j, w, scheduled);
      var mine := [Save(first, ok)];
      && Table(rows, mine) == (if ok then Saved(rows, first) else rows)
      && Orderly(mine, first) && (ok ==> Going(mine, first, first))
  {
    var first := NewRun(j, w, scheduled);
    TableOneMore(rows, [], Save(first, ok));
    assert [] + [Save(first, ok)] == [Save(first, ok)];
  }

  lemma NextPhase(mine: seq<Save>, r: Run, first: Run, next: Run, ok: bool)
    requires Going(mine, r, first) && next == r.(state := next.state)
    requires next.state.status == Running && next.state.result.errorCode.None?
    requires Rank(r.state.phase) < Rank(next.state.phase) < Rank(Completed)
    ensures var more := mine + [Save(next, ok)];
      && Open(more, next, first) && (ok ==> Going(more, next, first))
      && Entered(more) == Entered(mine) + {next.state.phase}
  {
    EnteredOneMore(mine, Save(next, ok));
    OneMore(mine, Save(next, ok), first, Rank(r.state.phase), Rank(r.state.phase));
  }

  lemma LastPhase(mine: seq<Save>, r: Run, first: Run, last: Run, ok: bool)
    requires Open(mine, r, first) && SameRun(last, first) && last.state.phase == Completed
    requires last.state.status != Running
    ensures var more := mine + [Save(last, ok)];
      && Orderly(more, first) && more[0] == mine[0] && (!ok ==> Open(more, last, first))
      && Entered(more) == Entered(mine) + {Completed}
  {
    EnteredOneMore(mine, Save(last, ok));
    OneMore(mine, Save(last, ok), first, Rank(Completed), Rank(VerifyingMetadata));
  }

  class Service {
    const store: Store
    const locks: Locks.LockTable
    const redact: string -> string
    ghost var made: seq<Save>
    var begun: seq<Run>
    var ended: seq<Run>
    var requests: seq<Request>

    constructor (store: Store, locks: Locks.LockTable)
      ensures this.store == store && this.locks == locks && redact == RedactSecrets
      ensures made == [] && begun == [] && ended == [] && requests == []
    {
      this.store, this.locks, this.redact := store, locks, RedactSecrets;
      made, begun, ended, requests := [], [], [], [];
    }

    method SaveRun(r: Run, w: World) returns (error: Option<string>)
      requires r.startedAt.Some?
      modifies this`made, store`runs
      ensures var key := (r.state.phase, r.state.status == Failure);
        error == if key in w.refused then Some(w.refused[key]) else None
      ensures made == old(made) + [Save(r, error.None?)]
      ensures store.runs == if error.None? then Saved(old(store.runs), r) else old(store.runs)
    {
      var key := (r.state.phase, r.state.status == Failure);
      var ok := store.SaveRun(r, key in w.refused);
      made := made + [Save(r, ok)];
      return if ok then None else Some(w.refused[key]);
    }

    /** The `fail` closure. */
    method Fail(r: Run, v: Verdict, w: World) returns (f: Run, err: Option<string>)
      requires r.startedAt.Some?
      modifies this`made, this`ended, store`runs
      ensures f == FailedRun(r, v, w, redact)
      ensures made == old(made) + [Save(f, (Completed, true) !in w.refused)]
      ensures var ok := (Completed, true) !in w.refused;
        && store.runs == (if ok then Saved(old(store.runs), f) else old(store.runs))
        && ended == old(ended) + (if ok then Called(w.onFinished, f) else [])
        && err.Some? && v.message <= err.value && (ok ==> err.value == v.message)
    {
      var result := r.state.result.(errorCode := Some(v.code), errorSummary := redact(v.message));
      f := r.(state := r.state.(status := Failure, phase := Completed, result := result, finishedAt := Some(w.later)));
      var refusal := SaveRun(f, w);
      if refusal.Some? { return f, Some(v.message + refusal.value); }
      ended := ended + Called(w.onFinished, f);
      return f, Some(v.message);
    }

    /** The checks before the staging directory exists. */
    method Prepare(j: Job, w: World) returns (v: Option<Verdict>)
      ensures v == BeforeStaging(j, w)
    {
      if w.webdav.None? { return Some(Verdict(ConfigError, w.noStorage)); }
      if w.webdav.value && w.runtime.Some? { return Some(Verdict(MissingRuntime, w.runtime.value)); }
      if w.build.Some? { return Some(Verdict(ConfigError, w.build.value)); }
      for i := 0 to |j.paths|
        invariant j.strictPaths ==>
                    FirstUnreadable(j.paths, w.unreadable) == FirstUnreadable(j.paths[i..], w.unreadable)
      {
        if j.paths[i] in w.unreadable && j.strictPaths {
          return Some(Verdict(SourceNotReadable, w.unreadable[j.paths[i]]));
        }
        assert j.paths[i..][1..] == j.paths[i + 1..];
      }
      if w.tempDir.Some? { return Some(Verdict(TempDirFailed, w.tempDir.value)); }
      if w.stage.Some? { return Some(Verdict(TempDirFailed, w.stage.value)); }
      return None;
    }

    /** The loop over the databases. */
    method DumpAll(j: Job, w: World, sources: seq<string>) returns (v: Option<Verdict>, paths: seq<string>)
      ensures v == FirstBadDump(j.databases, w)
      ensures v.None? ==> Sources(paths, sources, j.databases, w)
      ensures v.None? <==> forall i :: 0 <= i < |j.databases| ==> DumpOf(w, j.databases[i]).Dumped?
      ensures v.Some? ==> exists i :: 0 <= i < |j.databases| && FailsFirst(j.databases, i, w, v.value)
    {
      paths := sources;
      for i := 0 to |j.databases|
        invariant FirstBadDump(j.databases, w) == FirstBadDump(j.databases[i..], w)
        invariant Sources(paths, sources, j.databases[..i], w)
        invariant forall k :: 0 <= k < i ==> DumpOf(w, j.databases[k]).Dumped?
      {
        assert j.databases[i..][1..] == j.databases[i + 1..];
        match DumpOf(w, j.databases[i]) {
          case Unknown(e) =>
            assert FailsFirst(j.databases, i, w, Verdict(ConfigError, e));
            return Some(Verdict(ConfigError, e)), paths;
          case DumpFailed(e) =>
            assert FailsFirst(j.databases, i, w, Verdict(DatabaseDumpFailed, e));
            return Some(Verdict(DatabaseDumpFailed, e)), paths;
          case Dumped(p) => paths := paths + [p];
        }
      }
      assert j.databases[|j.databases|..] == [] && j.databases[..|j.databases|] == j.databases;
      return None, paths;
    }

    /** Since the call began, the saves are `mine`, and the table shows those that were accepted. */
    ghost predicate Mine(before: seq<Save>, rows: map<string, RunRow>, mine: seq<Save>)
      reads this, store
    {
      made == before + mine && store.runs == Table(rows, mine)
    }

    /** A run enters its next phase. */
    method Advance(r: Run, p: Phase, w: World, ghost first: Run,
                   ghost before: seq<Save>, ghost rows: map<string, RunRow>, ghost mine: seq<Save>)
      returns (next: Run, refusal: Option<Verdict>, ghost more: seq<Save>)
      requires Going(mine, r, first) && Mine(before, rows, mine) && Rank(r.state.phase) < Rank(p) < Rank(Completed)
      modifies this`made, store`runs
      ensures next == r.(state := r.state.(phase := p)) && refusal == Refusal(w, p)
      ensures Mine(before, rows, more) && Open(more, next, first) && (refusal.None? ==> Going(more, next, first))
      ensures Entered(more) == Entered(mine) + {p}
    {
      next := r.(state := r.state.(phase := p));
      var error := SaveRun(next, w);
      more := mine + [Save(next, error.None?)];
      TableOneMore(rows, mine, Save(next, error.None?));
      NextPhase(mine, r, first, next, error.None?);
      refusal := Because(error, StateSaveFailed);
    }

    /** `return fail(...)`. */
    method FailRun(r: Run, v: Verdict, w: World, ghost first: Run,
                   ghost before: seq<Save>, ghost rows: map<string, RunRow>, ghost mine: seq<Save>)
      returns (f: Run, err: Option<string>, ghost more: seq<Save>)
      requires Open(mine, r, first) && Mine(before, rows, mine)
      modifies this`made, this`ended, store`runs
      ensures f == FailedRun(r, v, w, redact) && SameRun(f, first)
      ensures Mine(before, rows, more) && Orderly(more, first) && |more| > 1 && more[0] == mine[0]
      ensures Entered(more) == Entered(mine) + {Completed}
      ensures more[|more| - 1] == Save(f, (Completed, true) !in w.refused)
      ensures ended == old(ended) + (if more[|more| - 1].ok then Called(w.onFinished, f) else [])
      ensures err.Some? && v.message <= err.value && (more[|more| - 1].ok ==> err.value == v.message)
    {
      f, err := Fail(r, v, w);
      var ok := (Completed, true) !in w.refused;
      more := mine + [Save(f, ok)];
      TableOneMore(rows, mine, Save(f, ok));
      LastPhase(mine, r, first, f, ok);
    }

    /** Everything up to the list of paths to back up. */
    method Collect(r: Run, j: Job, w: World, ghost first: Run,
                   ghost before: seq<Save>, ghost rows: map<string, RunRow>, ghost mine: seq<Save>)
      returns (next: Run, v: Option<Verdict>, paths: seq<string>, ghost more: seq<Save>)
      requires Going(mine, r, first) && Mine(before, rows, mine) && r.state.phase == Preflight
      modifies this`made, store`runs
      ensures v == Either(BeforeStaging(j, w), WhileDumping(j, w))
      ensures Mine(before, rows, more) && Open(more, next, first)
      ensures Entered(more) == Entered(mine)
                               + if BeforeStaging(j, w).None? && j.databases != [] then {PreparingSources} else {}
      ensures v.None? ==> Going(more, next, first) && Rank(next.state.phase) < Rank(BackingUp)
      ensures v.None? ==> Sources(paths, j.paths, j.databases, w)
    {
      next, paths, more := r, j.paths, mine;
      v := Prepare(j, w);
      if v.Some? { return; }
      if |j.databases| > 0 {
        next, v, more := Advance(next, PreparingSources, w, first, before, rows, more);
        if v.Some? { return; }
        v, paths := DumpAll(j, w, paths);
      }
    }

    /** Restic and its summary. */
    method BackUp(r: Run, mode: string, paths: seq<string>, w: World, ghost first: Run,
                  ghost before: seq<Save>, ghost rows: map<string, RunRow>, ghost mine: seq<Save>)
      returns (next: Run, v: Option<Verdict>, ghost more: seq<Save>)
      requires Going(mine, r, first) && Mine(before, rows, mine) && Rank(r.state.phase) < Rank(BackingUp)
      modifies this`made, this`requests, store`runs
      ensures v == WhileBackingUp(w)
      ensures requests == old(requests)
                          + if Refusal(w, BackingUp).None? then [Request(mode, mode == "full", paths)] else []
      ensures Mine(before, rows, more) && Open(more, next, first) && Entered(more) == Entered(mine) + {BackingUp}
      ensures v.None? ==> Going(more, next, first) && next.state.phase == BackingUp
      ensures v.None? ==> next.state.result.snapshotID == w.summary.snapshotID != ""
                          && next.state.result.counts == w.summary.counts
    {
      next, v, more := Advance(r, BackingUp, w, first, before, rows, mine);
      if v.Some? { return; }
      requests := requests + [Request(mode, mode == "full", paths)];
      if w.restic.Some? {
        if w.expired.Some? { v := Some(Verdict(TaskTimeout, w.expired.value)); return; }
        v := Some(Verdict(ResticBackupFailed, w.restic.value));
        return;
      }
      if w.summary.snapshotID == "" { v := Some(Verdict(ResticInvalidOutput, w.noSummary)); return; }
      var result := next.state.result.(snapshotID := w.summary.snapshotID, counts := w.summary.counts);
      next := next.(state := next.state.(result := result));
    }

    /** The retention policy and the metadata check, whose own failures are warnings. */
    method FollowUp(r: Run, j: Job, w: World, ghost first: Run,
                    ghost before: seq<Save>, ghost rows: map<string, RunRow>, ghost mine: seq<Save>)
      returns (next: Run, v: Option<Verdict>, warnings: seq<string>, ghost more: seq<Save>)
      requires Going(mine, r, first) && Mine(before, rows, mine) && r.state.phase == BackingUp
      modifies this`made, store`runs
      ensures v == Either(When(j.forgetAfterBackup, Refusal(w, Retention)),
                          When(j.metadataAfterBackup, Refusal(w, VerifyingMetadata)))
      ensures Mine(before, rows, more) && Open(more, next, first)
      ensures Entered(more) == Entered(mine) + LaterPhases(j, w)
      ensures v.None? ==> Going(more, next, first) && warnings == Warnings(j, w)
      ensures next.state == r.state.(phase := next.state.phase)
    {
      next, v, warnings, more := r, None, [], mine;
      if j.forgetAfterBackup {
        next, v, more := Advance(next, Retention, w, first, before, rows, more);
        if v.Some? { return; }
        if w.forget.Some? { warnings := warnings + [w.forget.value]; }
      }
      if j.metadataAfterBackup {
        next, v, more := Advance(next, VerifyingMetadata, w, first, before, rows, more);
        if v.Some? { return; }
        if w.verify.Some? { warnings := warnings + [w.verify.value]; }
      }
    }

    /** The last save of a run that did not fail. */
    method Complete(r: Run, warning: Option<string>, w: World, ghost first: Run,
                    ghost before: seq<Save>, ghost rows: map<string, RunRow>, ghost mine: seq<Save>)
      returns (last: Run, v: Option<Verdict>, ghost more: seq<Save>)
      requires Open(mine, r, first) && Mine(before, rows, mine)
      modifies this`made, this`ended, store`runs
      ensures last == CompletedRun(r, warning, w)
      ensures v == Refusal(w, Completed) && Mine(before, rows, more) && Entered(more) == Entered(mine) + {Completed}
      ensures v.Some? ==> Open(more, last, first) && ended == old(ended)
      ensures v.None? ==> Completes(more, last, first, w) && ended == old(ended) + Called(w.onFinished, last)
    {
      var status, result := Success, r.state.result;
      if warning.Some? { status, result := Warning, result.(warning := warning.value); }
      last := r.(state := r.state.(finishedAt := Some(w.later), phase := Completed,
                                   status := status, result := result));
      var error := SaveRun(last, w);
      more := mine + [Save(last, error.None?)];
      TableOneMore(rows, mine, Save(last, error.None?));
      LastPhase(mine, r, first, last, error.None?);
      v := Because(error, StateSaveFailed);
      if error.None? { ended := ended + Called(w.onFinished, last); }
    }

    /** From the first check to restic's summary. */
    method Produce(j: Job, mode: string, w: World, first: Run,
                   ghost before: seq<Save>, ghost rows: map<string, RunRow>, ghost mine: seq<Save>)
      returns (r: Run, v: Option<Verdict>, ghost more: seq<Save>)
      requires Going(mine, first, first) && Mine(before, rows, mine) && first.state.phase == Preflight
      modifies this`made, this`requests, store`runs
      ensures v == Either(BeforeStaging(j, w), Either(WhileDumping(j, w), WhileBackingUp(w)))
      ensures |old(requests)| <= |requests| && requests[..|old(requests)|] == old(requests)
      ensures Asked(requests[|old(requests)|..], j, mode, w)
      ensures Mine(before, rows, more) && Open(more, r, first) && Entered(more) == Entered(mine) + FirstPhases(j, w)
      ensures v.None? ==> Going(more, r, first) && r.state.phase == BackingUp
      ensures v.None? ==> r.state.result.snapshotID == w.summary.snapshotID != ""
                          && r.state.result.counts == w.summary.counts
    {
      var paths: seq<string>;
      r, v, paths, more := Collect(first, j, w, first, before, rows, mine);
      if v.Some? { return; }
      r, v, more := BackUp(r, mode, paths, w, first, before, rows, more);
    }

    /** What follows restic's summary. */
    method Conclude(r: Run, j: Job, w: World, ghost first: Run,
                    ghost before: seq<Save>, ghost rows: map<string, RunRow>, ghost mine: seq<Save>)
      returns (last: Run, v: Option<Verdict>, ghost more: seq<Save>)
      requires Going(mine, r, first) && Mine(before, rows, mine) && r.state.phase == BackingUp
      requires r.state.result.snapshotID == w.summary.snapshotID != "" && r.state.result.counts == w.summary.counts
      modifies this`made, this`ended, store`runs
      ensures v == AfterBackup(j, w) && Mine(before, rows, more)
      ensures Entered(more) + {Completed} == Entered(mine) + LaterPhases(j, w) + {Completed}
      ensures v.Some? ==> Open(more, last, first) && ended == old(ended)
      ensures v.None? ==> Completes(more, last, first, w) && Succeeded(last, j, w, redact) && Completed in Entered(more)
      ensures v.None? ==> ended == old(ended) + Called(w.onFinished, last)
    {
      var warnings: seq<string>;
      last, v, warnings, more := FollowUp(r, j, w, first, before, rows, mine);
      if v.Some? { return; }
      var warning := if |warnings| > 0 then Some(redact(Join(warnings, "; "))) else None;
      last, v, more := Complete(last, warning, w, first, before, rows, more);
    }

    /** Everything after the first save, up to the first thing that fails the run. */
    method Work(j: Job, mode: string, w: World, first: Run,
                ghost before: seq<Save>, ghost rows: map<string, RunRow>, ghost mine: seq<Save>)
      returns (r: Run, v: Option<Verdict>, ghost more: seq<Save>)
      requires Going(mine, first, first) && Mine(before, rows, mine) && first.state.phase == Preflight
      modifies this`made, this`ended, this`requests, store`runs
      ensures v == FirstFailure(j, w) && Mine(before, rows, more)
      ensures Entered(more) + {Completed} == Entered(mine) + {Completed} + PhasesBetween(j, w)
      ensures |old(requests)| <= |requests| && requests[..|old(requests)|] == old(requests)
      ensures Asked(requests[|old(requests)|..], j, mode, w)
      ensures v.Some? ==> Open(more, r, first) && ended == old(ended)
      ensures v.None? ==> Completes(more, r, first, w) && Succeeded(r, j, w, redact) && Completed in Entered(more)
      ensures v.None? ==> ended == old(ended) + Called(w.onFinished, r)
    {
      r, v, more := Produce(j, mode, w, first, before, rows, mine);
      ghost var middle := Entered(more);
      if v.None? { r, v, more := Conclude(r, j, w, first, before, rows, more); }
      PhasesOfWork(Entered(mine), middle, Entered(more), j, w);
    }

    /** The end of a run: the `fail` closure, unless its last save has been made. */
    method Close(r: Run, v: Option<Verdict>, j: Job, w: World, ghost first: Run,
                 ghost before: seq<Save>, ghost rows: map<string, RunRow>, ghost mine: seq<Save>)
      returns (last: Run, err: Option<string>, ghost more: seq<Save>)
      requires Mine(before, rows, mine)
      requires v.Some? ==> Open(mine, r, first)
      requires v.None? ==> Completes(mine, r, first, w) && Succeeded(r, j, w, redact) && Completed in Entered(mine)
      requires Entered(mine) + {Completed} == {Preflight, Completed} + PhasesBetween(j, w)
      modifies this`made, this`ended, store`runs
      ensures Mine(before, rows, more) && more != [] && more[0] == Save(first, true) && Orderly(more, first)
      ensures if v.None? then last == r && ended == old(ended)
              else ended == old(ended) + (if more[|more| - 1].ok then Called(w.onFinished, last) else [])
      ensures Ended(more, if more[|more| - 1].ok then Called(w.onFinished, last) else [], last,
                    err, v, j, w, first, redact)
    {
      if v.None? { return r, None, mine; }
      last, err, more := FailRun(r, v.value, w, first, before, rows, mine);
    }

    /** A run after its first save was accepted. */
    method Proceed(j: Job, mode: string, w: World, first: Run,
                   ghost before: seq<Save>, ghost rows: map<string, RunRow>, ghost mine: seq<Save>)
      returns (run: Run, err: Option<string>, ghost more: seq<Save>)
      requires Going(mine, first, first) && Mine(before, rows, mine) && first.state.phase == Preflight
      requires Entered(mine) == {Preflight}
      modifies this`made, this`ended, this`requests, store`runs
      ensures Mine(before, rows, more) && more != [] && more[0] == Save(first, true) && Orderly(more, first)
      ensures |old(requests)| <= |requests| && requests[..|old(requests)|] == old(requests)
      ensures Asked(requests[|old(requests)|..], j, mode, w)
      ensures ended == old(ended) + (if more[|more| - 1].ok then Called(w.onFinished, run) else [])
      ensures Ended(more, if more[|more| - 1].ok then Called(w.onFinished, run) else [], run, err, FirstFailure(j, w),
                    j, w, first, redact)
    {
      var v: Option<Verdict>;
      run, v, more := Work(j, mode, w, first, before, rows, mine);
      run, err, more := Close(run, v, j, w, first, before, rows, more);
    }

    /** `RunWithMode` once its locks are taken and its log is open. */
    method Execute(j: Job, mode: string, w: World, scheduled: bool)
      returns (r: Option<Run>, err: Option<string>, ghost t: Trace)
      modifies this, store`runs
      ensures made == old(made) + t.made && store.runs == Table(old(store.runs), t.made)
      ensures begun == old(begun) + t.begun && ended == old(ended) + t.ended && requests == old(requests) + t.requests
      ensures Ran(t, r, err, j, mode, w, scheduled, redact)
    {
      ghost var before, rows := made, store.runs;
      var first := NewRun(j, w, scheduled);
      var error := SaveRun(first, w);
      ghost var more := [Save(first, error.None?)];
      FirstPhase(rows, j, w, scheduled, error.None?);
      EnteredOnce(Save(first, error.None?));
      if error.Some? {
        t := Trace(more, [], [], []);
        return None, error, t;
      }
      begun := begun + Called(w.onStarted, first);
      var run: Run;
      run, err, more := Proceed(j, mode, w, first, before, rows, more);
      r := Some(run);
      t := Trace(more, Called(w.onStarted, first), if more[|more| - 1].ok then Called(w.onFinished, run) else [],
                 requests[|old(requests)|..]);
    }

    /** `RunWithMode`. The two files are the descriptors of the lock files, `opens` the lock files that
        can be created and opened. */
    method RunWithMode(override: string, limit: int, scheduled: bool, w: World,
                       jobFile: nat, slotFile: nat, dirs: seq<string>, opens: set<Locks.LockFile>)
      returns (r: Option<Run>, err: Option<string>, ghost t: Trace)
      modifies this, store`runs, locks
      ensures locks.held == old(locks.held)
      ensures made == old(made) + t.made && store.runs == Table(old(store.runs), t.made)
      ensures begun == old(begun) + t.begun && ended == old(ended) + t.ended && requests == old(requests) + t.requests
      ensures if Admitted(old(locks.held), override, limit, w, dirs, opens)
              then Ran(t, r, err, w.job.value, BackupMode(w.job.value.backupMode, override).value, w, scheduled,
                       redact)
              else t == Trace([], [], [], []) && r.None? && err.Some?
    {
      t := Trace([], [], [], []);
      if w.job.None? { return None, Some("no such job"), t; }
      var j := w.job.value;
      if !j.enabled { return None, Some("job is disabled"), t; }
      var mode := BackupMode(j.backupMode, override);
      if mode.None? { return None, Some("invalid mode"), t; }
      var jobLock := locks.Acquire(Locks.JobLock(j.id), jobFile, dirs, opens);
      if jobLock.None? { return None, Some("already running"), t; }
      var slotLock, slot := locks.AcquireSlot(Locks.GLOBAL, limit, slotFile, dirs, opens);
      SlotsBesideTheJob(old(locks.held), jobLock.value, jobFile, j, limit, dirs, opens);
      if slotLock.None? {
        locks.Release(jobLock);
        return None, Some("limit reached"), t;
      }
      if w.logPath.None? {
        r, err := None, Some("no log file");
      } else {
        r, err, t := Execute(j, mode.value, w, scheduled);
      }
      locks.Release(slotLock);
      locks.Release(jobLock);
    }
  }

  /** What stands before a run's first save: the job exists and is enabled, the mode is valid, the
      lock of the job and some slot are free, and the log file opens. */
  ghost predicate Admitted(held: map<Locks.LockFile, nat>, override: string, limit: int, w: World,
                           dirs: seq<string>, opens: set<Locks.LockFile>) {
    && w.job.Some? && w.job.value.enabled && BackupMode(w.job.value.backupMode, override).Some?
    && Locks.Free(held, Locks.JobLock(w.job.value.id), dirs, opens)
    && SlotFree(held, limit, dirs, opens)
    && w.logPath.Some?
  }

  ghost predicate SlotFree(held: map<Locks.LockFile, nat>, limit: int, dirs: seq<string>, opens: set<Locks.LockFile>) {
    exists i :: 0 <= i < limit && Locks.Free(held, Locks.SlotLock(Locks.GLOBAL, i), dirs, opens)
  }

  /** Taking the lock of a job takes no slot. */
  lemma SlotsBesideTheJob(held: map<Locks.LockFile, nat>, lock: Locks.LockFile, file: nat, j: Job, limit: int,
                          dirs: seq<string>, opens: set<Locks.LockFile>)
    requires lock.id == Locks.JobLock(j.id)
    ensures SlotFree(held[lock := file], limit, dirs, opens) <==> SlotFree(held, limit, dirs, opens)
  {
    forall i: nat
      ensures Locks.Free(held[lock := file], Locks.SlotLock(Locks.GLOBAL, i), dirs, opens)
              <==> Locks.Free(held, Locks.SlotLock(Locks.GLOBAL, i), dirs, opens)
    {
      Locks.LockNamesDiffer(j.id, i, i);
    }
  }

  // ---------------------------------------------------------------- what follows

  /** Once its first save is accepted a run ends as success, warning or failure. It reports no error
      exactly when a snapshot was made and no later save was refused; then it is a warning exactly
      when the retention policy or the metadata check failed. A callback that is set is called once
      when it starts, and once when it ends unless the save of its failure is refused. */
  lemma EveryRunEnds(t: Trace, r: Option<Run>, err: Option<string>, j: Job, mode: string, w: World, scheduled: bool,
                     redact: string -> string)
    requires Ran(t, r, err, j, mode, w, scheduled, redact) && t.made[0].ok
    ensures r.Some? && r.value.state.phase == Completed && r.value.state.status in {Success, Warning, Failure}
    ensures err.None? <==> r.value.state.status != Failure
    ensures err.None? ==> r.value.state.result.snapshotID != "" && |t.requests| == 1
    ensures err.None? ==>
      (r.value.state.status == Warning <==>
        (j.forgetAfterBackup && w.forget.Some?) || (j.metadataAfterBackup && w.verify.Some?))
    ensures |t.begun| == (if w.onStarted then 1 else 0) && |t.ended| <= 1
    ensures t.ended == [] <==> !w.onFinished || (err.Some? && (Completed, true) in w.refused)
    ensures forall i, k :: 0 <= i < k < |t.made| && t.made[i].ok && t.made[k].ok ==>
      Rank(t.made[i].run.state.phase) < Rank(t.made[k].run.state.phase)
  {
    assert IsOf(t.made, 0, NewRun(j, w, scheduled));
    forall i, k | 0 <= i < k < |t.made| && t.made[i].ok && t.made[k].ok
      ensures Rank(t.made[i].run.state.phase) < Rank(t.made[k].run.state.phase)
    {
      assert PhasesInOrder(t.made, i, k);
    }
  }

  /** What the first save of a run shows: running in its first phase since now, and scheduled for then
      if it was. */
  lemma EveryRunBegins(t: Trace, r: Option<Run>, err: Option<string>, j: Job, mode: string, w: World, scheduled: bool,
                       redact: string -> string)
    requires Ran(t, r, err, j, mode, w, scheduled, redact)
    ensures var first := t.made[0].run;
      && first.id == w.runID && first.jobID == j.id && first.startedAt == Some(w.now)
      && first.state.status == Running && first.state.phase == Preflight && first.state.finishedAt.None?
      && first.state.scheduledAt == (if scheduled then Some(w.now) else None)
      && (w.logPath.Some? ==> first.state.logPath == w.logPath.value)
    ensures t.begun != [] ==> t.begun[0] == t.made[0].run
  {
  }

  /** The mode is the one asked for, or the job's, or incremental; any other text is refused. */
  lemma ModeIs(configured: string, override: string, mode: string)
    ensures BackupMode(configured, override) == Some(mode) <==>
            mode in {"incremental", "full"}
            && (override == mode
                || (override == "" && (configured == mode || (configured == "" && mode == "incremental"))))
  {
  }

  lemma {:induction false} UnreadableOrNone(paths: seq<string>, unreadable: map<string, string>)
    ensures FirstUnreadable(paths, unreadable).None? <==> forall p :: p in paths ==> p !in unreadable
  {
    if paths != [] {
      assert forall p :: p in paths <==> p == paths[0] || p in paths[1..];
      UnreadableOrNone(paths[1..], unreadable);
    }
  }

  lemma {:induction false} UnreadableIsFirst(paths: seq<string>, w: World)
    ensures var f := FirstUnreadable(paths, w.unreadable);
      f.Some? ==> exists i: nat :: i < |paths| && IsFirstUnreadable(paths, i, w, f.value)
  {
    var f := FirstUnreadable(paths, w.unreadable);
    if paths != [] && paths[0] in w.unreadable {
      assert IsFirstUnreadable(paths, 0, w, f.value);
    } else if paths != [] && f.Some? {
      UnreadableIsFirst(paths[1..], w);
      var i: nat :| i < |paths[1..]| && IsFirstUnreadable(paths[1..], i, w, f.value);
      forall k | 0 <= k < i + 1 ensures paths[k] !in w.unreadable {
        if k > 0 { assert paths[1..][k - 1] == paths[k]; }
      }
      assert IsFirstUnreadable(paths, i + 1, w, f.value);
    }
  }

  lemma {:induction false} BadDumpIsFirst(ids: seq<string>, w: World)
    ensures FirstBadDump(ids, w).None? <==> forall id :: id in ids ==> DumpOf(w, id).Dumped?
    ensures FirstBadDump(ids, w).Some? ==>
      && FirstBadDump(ids, w).value.code in {ConfigError, DatabaseDumpFailed}
      && exists i: nat :: i < |ids| && FailsFirst(ids, i, w, FirstBadDump(ids, w).value)
  {
    if ids != [] {
      assert forall id :: id in ids <==> id == ids[0] || id in ids[1..];
      BadDumpIsFirst(ids[1..], w);
      var v := FirstBadDump(ids, w);
      if !DumpOf(w, ids[0]).Dumped? {
        assert FailsFirst(ids, 0, w, v.value);
      } else if v.Some? {
        var i: nat :| i < |ids[1..]| && FailsFirst(ids[1..], i, w, v.value);
        forall k | 0 <= k < i + 1 ensures DumpOf(w, ids[k]).Dumped? {
          if k > 0 { assert ids[1..][k - 1] == ids[k]; }
        }
        assert FailsFirst(ids, i + 1, w, v.value);
      }
    }
  }

  predicate Saves(w: World, p: Phase) {
    (p, false) !in w.refused
  }

  predicate ChecksPass(j: Job, w: World) {
    && w.webdav.Some? && (w.webdav.value ==> w.runtime.None?) && w.build.None?
    && (j.strictPaths ==> forall p :: p in j.paths ==> p !in w.unreadable)
    && w.tempDir.None? && w.stage.None?
  }

  predicate AllDumped(j: Job, w: World) {
    (j.databases != [] ==> Saves(w, PreparingSources)) && forall id :: id in j.databases ==> DumpOf(w, id).Dumped?
  }

  predicate SnapshotMade(w: World) {
    Saves(w, BackingUp) && w.restic.None? && w.summary.snapshotID != ""
  }

  predicate LastSaved(j: Job, w: World) {
    && (j.forgetAfterBackup ==> Saves(w, Retention)) && (j.metadataAfterBackup ==> Saves(w, VerifyingMetadata))
    && Saves(w, Completed)
  }

  /** Nothing that a run meets fails it. */
  predicate AllGoesWell(j: Job, w: World) {
    ChecksPass(j, w) && AllDumped(j, w) && SnapshotMade(w) && LastSaved(j, w)
  }

  /** A run comes to the phase. */
  predicate Reaches(p: Phase, j: Job, w: World) {
    match p
    case Preflight => true
    case PreparingSources => ChecksPass(j, w) && j.databases != []
    case BackingUp => ChecksPass(j, w) && AllDumped(j, w)
    case Retention => ChecksPass(j, w) && AllDumped(j, w) && SnapshotMade(w) && j.forgetAfterBackup
    case VerifyingMetadata =>
      && ChecksPass(j, w) && AllDumped(j, w) && SnapshotMade(w)
      && (j.forgetAfterBackup ==> Saves(w, Retention)) && j.metadataAfterBackup
    case Completed => true
  }

  /** A run is saved in exactly the phases it comes to, and it comes to each whose time it is. */
  lemma EveryPhaseIsSaved(t: Trace, r: Option<Run>, err: Option<string>, j: Job, mode: string, w: World,
                          scheduled: bool, redact: string -> string, p: Phase)
    requires Ran(t, r, err, j, mode, w, scheduled, redact) && t.made[0].ok
    ensures (exists i :: 0 <= i < |t.made| && t.made[i].run.state.phase == p) <==> Reaches(p, j, w)
  {
    PhasesBetweenAre(j, w, p);
    EnteredIs(t.made, p);
  }

  lemma EnteredIs(saves: seq<Save>, p: Phase)
    ensures p in Entered(saves) <==> exists i :: 0 <= i < |saves| && saves[i].run.state.phase == p
  {
  }

  lemma PhasesBetweenAre(j: Job, w: World, p: Phase)
    ensures p in {Preflight, Completed} + PhasesBetween(j, w) <==> Reaches(p, j, w)
  {
    ChecksAreExplained(j, w);
    DumpsAreExplained(j, w);
    BackupIsExplained(j, w);
    RefusalIsNoSave(w, Retention);
  }

  predicate IsFirstUnreadable(paths: seq<string>, i: nat, w: World, message: string)
    requires i < |paths|
  {
    && (forall k :: 0 <= k < i ==> paths[k] !in w.unreadable)
    && paths[i] in w.unreadable && message == w.unreadable[paths[i]]
  }

  ghost predicate PathsExplain(j: Job, w: World, message: string) {
    j.strictPaths && exists i: nat :: i < |j.paths| && IsFirstUnreadable(j.paths, i, w, message)
  }

  /** The dumps are made, and one of them is the first to fail and does so like this. */
  ghost predicate DumpsExplain(j: Job, w: World, v: Verdict) {
    && ChecksPass(j, w) && Saves(w, PreparingSources)
    && exists i: nat :: i < |j.databases| && FailsFirst(j.databases, i, w, v)
  }

  predicate RuntimeThere(w: World) {
    w.webdav.Some? && (w.webdav.value ==> w.runtime.None?)
  }

  predicate PathsReadable(j: Job, w: World) {
    RuntimeThere(w) && w.build.None? && (j.strictPaths ==> forall p :: p in j.paths ==> p !in w.unreadable)
  }

  predicate Refused(w: World, p: Phase, message: string) {
    (p, false) in w.refused && w.refused[(p, false)] == message
  }

  /** Exactly what must have happened for a run to end like this: all before it went well, and this
      did not. */
  ghost predicate Explains(v: Verdict, j: Job, w: World) {
    match v.code
    case ConfigError =>
      || (w.webdav.None? && v.message == w.noStorage)
      || (RuntimeThere(w) && w.build == Some(v.message))
      || DumpsExplain(j, w, v)
    case MissingRuntime => w.webdav == Some(true) && w.runtime == Some(v.message)
    case SourceNotReadable => RuntimeThere(w) && w.build.None? && PathsExplain(j, w, v.message)
    case TempDirFailed =>
      PathsReadable(j, w) && (w.tempDir == Some(v.message) || (w.tempDir.None? && w.stage == Some(v.message)))
    case StateSaveFailed =>
      || (exists p :: p !in {Preflight, Completed} && Reaches(p, j, w) && Refused(w, p, v.message))
      || (ChecksPass(j, w) && AllDumped(j, w) && SnapshotMade(w) && (j.forgetAfterBackup ==> Saves(w, Retention))
          && (j.metadataAfterBackup ==> Saves(w, VerifyingMetadata)) && Refused(w, Completed, v.message))
    case DatabaseDumpFailed => DumpsExplain(j, w, v)
    case TaskTimeout => ResticFailed(j, w) && w.expired == Some(v.message)
    case ResticBackupFailed => ResticFailed(j, w) && w.expired.None? && w.restic == Some(v.message)
    case ResticInvalidOutput =>
      && Reaches(BackingUp, j, w) && Saves(w, BackingUp) && w.restic.None? && w.summary.snapshotID == ""
      && v.message == w.noSummary
  }

  predicate ResticFailed(j: Job, w: World) {
    Reaches(BackingUp, j, w) && Saves(w, BackingUp) && w.restic.Some?
  }

  /** The run that failed says why. */
  ghost predicate Tells(r: Run, v: Verdict, redact: string -> string) {
    r.state.result.errorCode == Some(v.code) && r.state.result.errorSummary == redact(v.message)
  }

  /** A run succeeds, with or without warnings, if and only if nothing that it meets fails it, and a
      run that failed tells what failed first. */
  lemma SucceedsExactlyWhen(t: Trace, r: Option<Run>, err: Option<string>, j: Job, mode: string, w: World,
                            scheduled: bool, redact: string -> string)
    requires Ran(t, r, err, j, mode, w, scheduled, redact) && t.made[0].ok
    ensures err.None? <==> AllGoesWell(j, w)
    ensures err.Some? ==> exists v :: Explains(v, j, w) && Tells(r.value, v, redact)
  {
    FailureIsExplained(j, w);
    if err.Some? { assert Tells(r.value, FirstFailure(j, w).value, redact); }
  }

  ghost predicate IsExplained(v: Option<Verdict>, j: Job, w: World) {
    v.Some? ==> Explains(v.value, j, w)
  }

  lemma ChecksAreExplained(j: Job, w: World)
    ensures BeforeStaging(j, w).None? <==> ChecksPass(j, w)
    ensures IsExplained(BeforeStaging(j, w), j, w)
  {
    UnreadableOrNone(j.paths, w.unreadable);
    UnreadableIsFirst(j.paths, w);
  }

  lemma RefusalIsNoSave(w: World, p: Phase)
    ensures Refusal(w, p).None? <==> Saves(w, p)
    ensures Refusal(w, p).Some? ==>
      Refusal(w, p).value.code == StateSaveFailed && Refused(w, p, Refusal(w, p).value.message)
  {
  }

  lemma DumpsAreExplained(j: Job, w: World)
    ensures WhileDumping(j, w).None? <==> AllDumped(j, w)
    ensures ChecksPass(j, w) ==> IsExplained(WhileDumping(j, w), j, w)
  {
    RefusalIsNoSave(w, PreparingSources);
    BadDumpIsFirst(j.databases, w);
  }

  lemma BackupIsExplained(j: Job, w: World)
    ensures WhileBackingUp(w).None? <==> SnapshotMade(w)
    ensures ChecksPass(j, w) && AllDumped(j, w) ==> IsExplained(WhileBackingUp(w), j, w)
  {
    RefusalIsNoSave(w, BackingUp);
  }

  lemma LastSavesAreExplained(j: Job, w: World)
    ensures AfterBackup(j, w).None? <==> LastSaved(j, w)
    ensures ChecksPass(j, w) && AllDumped(j, w) && SnapshotMade(w) ==> IsExplained(AfterBackup(j, w), j, w)
  {
    RefusalIsNoSave(w, Retention);
    RefusalIsNoSave(w, VerifyingMetadata);
    RefusalIsNoSave(w, Completed);
  }

  lemma FailureIsExplained(j: Job, w: World)
    ensures FirstFailure(j, w).None? <==> AllGoesWell(j, w)
    ensures IsExplained(FirstFailure(j, w), j, w)
  {
    ChecksAreExplained(j, w);
    DumpsAreExplained(j, w);
    BackupIsExplained(j, w);
    LastSavesAreExplained(j, w);
  }

  /** The runs of the saves that the store accepted. */
  function Kept(saves: seq<Save>): seq<Run> {
    if saves == [] then []
    else
      var n := |saves| - 1;
      Kept(saves[..n]) + if saves[n].ok then [saves[n].run] else []
  }

  lemma {:induction false} TableOfKept(rows: map<string, RunRow>, saves: seq<Save>)
    ensures Table(rows, saves) == SavedAll(rows, Kept(saves))
  {
    if saves != [] {
      var n := |saves| - 1;
      TableOfKept(rows, saves[..n]);
      var older := Kept(saves[..n]);
      if saves[n].ok {
        assert (older + [saves[n].run])[..|older|] == older;
      } else {
        assert older + [] == older;
      }
    }
  }

  lemma {:induction false} KeptAreSaves(made: seq<Save>, i: int)
    requires 0 <= i < |Kept(made)|
    ensures exists k :: 0 <= k < |made| && made[k].ok && made[k].run == Kept(made)[i]
    decreases |made|
  {
    var n := |made| - 1;
    if i < |Kept(made[..n])| {
      KeptAreSaves(made[..n], i);
      var k :| 0 <= k < n && made[..n][k].ok && made[..n][k].run == Kept(made[..n])[i];
      assert made[k].ok;
    } else {
      assert made[n].ok;
    }
  }

  lemma KeptEnds(made: seq<Save>)
    requires made != [] && made[0].ok
    ensures Kept(made) != [] && Kept(made)[0] == made[0].run
    ensures made[|made| - 1].ok ==> Kept(made)[|Kept(made)| - 1] == made[|made| - 1].run
  {
    var n := |made| - 1;
    if n > 0 { KeptEnds(made[..n]); }
  }

  lemma KeptOfOneRun(made: seq<Save>, first: Run)
    requires Orderly(made, first)
    ensures forall i :: 0 <= i < |Kept(made)| ==> SameRun(Kept(made)[i], first) && Consistent(Kept(made)[i])
  {
    forall i | 0 <= i < |Kept(made)| ensures SameRun(Kept(made)[i], first) && Consistent(Kept(made)[i]) {
      KeptAreSaves(made, i);
      var k :| 0 <= k < |made| && made[k].ok && made[k].run == Kept(made)[i];
      assert IsOf(made, k, first);
    }
  }

  lemma OrderlyPrefix(made: seq<Save>, first: Run, n: nat)
    requires Orderly(made, first) && n <= |made|
    ensures Orderly(made[..n], first)
  {
    forall i | 0 <= i < n ensures IsOf(made[..n], i, first) { assert IsOf(made, i, first); }
    forall i, j | 0 <= i < j < n ensures PhasesInOrder(made[..n], i, j) { assert PhasesInOrder(made, i, j); }
  }

  /** The row that saves of one run leave, if the first was accepted. */
  lemma RowOfSaves(rows: map<string, RunRow>, made: seq<Save>, first: Run)
    requires Orderly(made, first) && made != [] && made[0] == Save(first, true) && first.id !in rows
    ensures var after := Table(rows, made);
      && first.id in after && after[first.id].jobID == first.jobID && Some(after[first.id].started) == first.startedAt
      && (after[first.id].state.status == Running <==> after[first.id].state.phase != Completed)
      && (made[|made| - 1].ok ==> after[first.id].state == made[|made| - 1].run.state)
  {
    var runs, id := Kept(made), first.id;
    TableOfKept(rows, made);
    KeptEnds(made);
    KeptOfOneRun(made, first);
    assert Accepted(runs, 0, id) && Accepted(runs, |runs| - 1, id);
    RowIsFirstIdentityAndLastState(rows, runs, id);
    var a, b :| 0 <= a < |runs| && 0 <= b < |runs|
      && FirstAccepted(runs, a, id) && LastAccepted(runs, b, id)
      && SavedAll(rows, runs)[id] == RunRow(runs[a].jobID, runs[a].startedAt.value, runs[b].state);
  }

  /** The stored row of a run with a new identifier, after any number `n` of its saves: its job and
      start never change, and it is running exactly as long as its phase is not completed, so a run
      that stops anywhere leaves either a running row or a finished one. */
  lemma RowAtAnyPoint(rows: map<string, RunRow>, t: Trace, r: Option<Run>, err: Option<string>,
                      j: Job, mode: string, w: World, scheduled: bool, redact: string -> string, n: nat)
    requires Ran(t, r, err, j, mode, w, scheduled, redact) && t.made[0].ok && w.runID !in rows && 0 < n <= |t.made|
    ensures var after := Table(rows, t.made[..n]);
      && w.runID in after && after[w.runID].jobID == j.id && after[w.runID].started == w.now
      && (after[w.runID].state.status == Running <==> after[w.runID].state.phase != Completed)
  {
    var first := NewRun(j, w, scheduled);
    OrderlyPrefix(t.made, first, n);
    RowOfSaves(rows, t.made[..n], first);
  }

  /** At the end, if the last save was accepted, it shows the run as returned. */
  lemma RowOfARun(rows: map<string, RunRow>, t: Trace, r: Option<Run>, err: Option<string>,
                  j: Job, mode: string, w: World, scheduled: bool, redact: string -> string)
    requires Ran(t, r, err, j, mode, w, scheduled, redact) && t.made[0].ok && w.runID !in rows
    ensures var after := Table(rows, t.made);
      && w.runID in after && after[w.runID].jobID == j.id && after[w.runID].started == w.now
      && (t.made[|t.made| - 1].ok ==> after[w.runID].state == r.value.state && r.value.state.phase == Completed)
  {
    RowOfSaves(rows, t.made, NewRun(j, w, scheduled));
  }
}
