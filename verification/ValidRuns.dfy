/** What a valid configuration means for a run: its branches for missing entries are not reached. */
module ValidRuns {
  import opened Config
  import opened RunLifecycle
  import opened Store
  import opened Wrappers

  /** The run meets what the lookups in the configuration find for its job. */
  predicate MeetsLookups(w: World, c: Settings, j: Config.Job) {
    && (match Lookup(StorageIDs(c.storages), c.storages, j.storageID)
        case None => w.webdav.None?
        case Some(s) => w.webdav == Some(s.kind == "webdav"))
    && forall id :: id in j.databases ==>
         (DumpOf(w, id).Unknown? <==> Lookup(DatabaseIDs(c.databases), c.databases, id).None?)
  }

  lemma {:induction false} KnownDumps(ids: seq<string>, w: World)
    requires forall id :: id in ids ==> !DumpOf(w, id).Unknown?
    ensures FirstBadDump(ids, w).Some? ==> FirstBadDump(ids, w).value.code == DatabaseDumpFailed
  {
    if ids != [] {
      assert ids[0] in ids;
      KnownDumps(ids[1..], w);
    }
  }

  /** A job of a valid configuration always has a mode, and there is a slot to be had. */
  lemma ValidJobsCanStart(c: Settings, p: Platform, i: nat)
    requires Valid(c, p) && i < |c.jobs|
    ensures BackupMode(c.jobs[i].backupMode, "").Some? && c.global.maxParallelJobs > 0
  {
    assert JobAt(c, i, p);
  }

  /** With a valid configuration a run ends with a configuration error only when the repository
      settings of its storage cannot be built. */
  lemma ConfigErrorsComeFromTheRepository(c: Settings, p: Platform, i: nat, w: World, j: RunLifecycle.Job)
    requires Valid(c, p) && i < |c.jobs| && MeetsLookups(w, c, c.jobs[i]) && j.databases == c.jobs[i].databases
    ensures w.webdav.Some? && forall id :: id in j.databases ==> !DumpOf(w, id).Unknown?
    ensures FirstFailure(j, w).Some? && FirstFailure(j, w).value.code == ConfigError ==> w.build.Some?
  {
    ReferencesResolve(c, p, i);
    forall id | id in j.databases ensures !DumpOf(w, id).Unknown? {
      assert Resolves(DatabaseIDs(c.databases), c.databases, id);
    }
    KnownDumps(j.databases, w);
  }
}
