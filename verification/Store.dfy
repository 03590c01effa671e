/** The run and outbox tables. Queries compare times by their texts; rows with equal texts come in
    any order. */
module Store {
  import opened Sequences
  import opened Text
  import opened Timestamps
  import opened Wrappers
  import Backoff

  /** The texts of the status, phase and error code columns. */
  datatype Status = Running | Success | Warning | Failure

  datatype Phase = Preflight | PreparingSources | BackingUp | Retention | VerifyingMetadata | Completed

  datatype Code = ConfigError | MissingRuntime | SourceNotReadable | TempDirFailed | StateSaveFailed
    | DatabaseDumpFailed | TaskTimeout | ResticBackupFailed | ResticInvalidOutput

  /** A run, with its times as the texts that `timeValue` makes: none for a time never set. */
  datatype Run = Run(id: string, jobID: string, startedAt: Option<string>, state: RunState)

  /** What a run's later saves change. */
  datatype RunState = RunState(status: Status, phase: Phase, scheduledAt: Option<string>,
                               finishedAt: Option<string>, logPath: string, result: Result)

  datatype Result = Result(snapshotID: string, counts: seq<int>, warning: string, errorCode: Option<Code>,
                           errorSummary: string)

  datatype RunRow = RunRow(jobID: string, started: string, state: RunState)

  datatype Pending = Pending(kind: string, destination: string, payload: string, attempts: int,
                             next: string, created: string, lastError: string)

  // ---------------------------------------------------------------- saving runs

  /** The row an upsert leaves: a conflict keeps the job and the start of the row that is there. */
  function Upserted(rows: map<string, RunRow>, r: Run): RunRow
    requires r.startedAt.Some?
  {
    if r.id in rows then rows[r.id].(state := r.state)
    else RunRow(r.jobID, r.startedAt.value, r.state)
  }

  function Saved(rows: map<string, RunRow>, r: Run): map<string, RunRow> {
    if r.startedAt.Some? then rows[r.id := Upserted(rows, r)] else rows
  }

  function SavedAll(rows: map<string, RunRow>, runs: seq<Run>): map<string, RunRow> {
    if runs == [] then rows else Saved(SavedAll(rows, runs[..|runs| - 1]), runs[|runs| - 1])
  }

  /** Saves of a run that the table accepted. */
  predicate Accepted(runs: seq<Run>, i: int, id: string) {
    0 <= i < |runs| && runs[i].id == id && runs[i].startedAt.Some?
  }

  predicate FirstAccepted(runs: seq<Run>, i: int, id: string) {
    Accepted(runs, i, id) && forall j :: 0 <= j < i ==> !Accepted(runs, j, id)
  }

  predicate LastAccepted(runs: seq<Run>, i: int, id: string) {
    Accepted(runs, i, id) && forall j :: i < j < |runs| ==> !Accepted(runs, j, id)
  }

  /** The row has the job and start of the first accepted save and the rest of the last. */
  predicate RowOf(runs: seq<Run>, id: string, row: RunRow) {
    exists first, last | 0 <= first < |runs| && 0 <= last < |runs| ::
      && FirstAccepted(runs, first, id) && LastAccepted(runs, last, id)
      && row == RunRow(runs[first].jobID, runs[first].startedAt.value, runs[last].state)
  }

  lemma RowOfNext(older: seq<Run>, r: Run, id: string, row: RunRow)
    requires RowOf(older, id, row)
    ensures r.id == id && r.startedAt.Some? ==> RowOf(older + [r], id, row.(state := r.state))
    ensures r.id != id || r.startedAt.None? ==> RowOf(older + [r], id, row)
  {
    var runs, n := older + [r], |older|;
    var first, last :| 0 <= first < n && 0 <= last < n
      && FirstAccepted(older, first, id) && LastAccepted(older, last, id)
      && row == RunRow(older[first].jobID, older[first].startedAt.value, older[last].state);
    assert forall i :: 0 <= i < n ==> (Accepted(runs, i, id) <==> Accepted(older, i, id));
    assert FirstAccepted(runs, first, id);
    assert r.id == id && r.startedAt.Some? ==> LastAccepted(runs, n, id);
    assert r.id != id || r.startedAt.None? ==> LastAccepted(runs, last, id);
  }

  lemma RowOfFirst(older: seq<Run>, r: Run, id: string)
    requires forall i :: 0 <= i < |older| ==> !Accepted(older, i, id)
    requires r.id == id && r.startedAt.Some?
    ensures RowOf(older + [r], id, RunRow(r.jobID, r.startedAt.value, r.state))
  {
    var runs, n := older + [r], |older|;
    assert forall i :: 0 <= i < n ==> (Accepted(runs, i, id) <==> Accepted(older, i, id));
    assert FirstAccepted(runs, n, id) && LastAccepted(runs, n, id);
  }

  /** After any saves, a new row has the job and start of its first accepted save and the rest of
      its last; nothing else makes a row. */
  lemma {:induction false} RowIsFirstIdentityAndLastState(rows: map<string, RunRow>, runs: seq<Run>, id: string)
    requires id !in rows
    ensures id in SavedAll(rows, runs) <==> exists i :: Accepted(runs, i, id)
    ensures id in SavedAll(rows, runs) ==> RowOf(runs, id, SavedAll(rows, runs)[id])
  {
    if runs != [] {
      var n := |runs| - 1;
      var older, r := runs[..n], runs[n];
      RowIsFirstIdentityAndLastState(rows, older, id);
      assert forall i :: 0 <= i < n ==> (Accepted(runs, i, id) <==> Accepted(older, i, id));
      assert runs == older + [r];
      var table := SavedAll(rows, older);
      assert SavedAll(rows, runs) == Saved(table, r);
      if id in table {
        RowOfNext(older, r, id, table[id]);
      } else if r.id == id && r.startedAt.Some? {
        assert Accepted(runs, n, id);
        RowOfFirst(older, r, id);
      }
    }
  }

  // ---------------------------------------------------------------- ordered queries

  /** Whether text `a` may come before text `b` in an ordered query. */
  predicate InOrder(a: string, b: string, descending: bool) {
    if descending then AtMost(b, a) else AtMost(a, b)
  }

  lemma InOrderTotal(a: string, b: string, c: string, descending: bool)
    ensures InOrder(a, a, descending)
    ensures InOrder(a, b, descending) || InOrder(b, a, descending)
    ensures InOrder(a, b, descending) && InOrder(b, c, descending) ==> InOrder(a, c, descending)
  {
    LessTotal(a, b);
    LessTotal(b, c);
    LessTotal(a, c);
    if Less(a, b) && Less(b, c) { LessTransitive(a, b, c); }
    if Less(c, b) && Less(b, a) { LessTransitive(c, b, a); }
    if Less(c, a) && Less(a, b) { LessTransitive(c, a, b); }
    if Less(a, c) && Less(c, b) { LessTransitive(a, c, b); }
  }

  predicate Leads(keys: map<string, string>, id: string, rest: set<string>, descending: bool) {
    id in keys && forall o :: o in rest && o in keys ==> InOrder(keys[id], keys[o], descending)
  }

  lemma {:induction false} SomeLeads(keys: map<string, string>, rest: set<string>, descending: bool)
    requires rest != {} && rest <= keys.Keys
    ensures exists id :: id in rest && Leads(keys, id, rest, descending)
  {
    var id :| id in rest;
    var others := rest - {id};
    if others == {} {
      assert rest == {id};
      InOrderTotal(keys[id], keys[id], keys[id], descending);
      assert Leads(keys, id, rest, descending);
    } else {
      SomeLeads(keys, others, descending);
      var best :| best in others && Leads(keys, best, others, descending);
      InOrderTotal(keys[best], keys[id], keys[id], descending);
      if InOrder(keys[best], keys[id], descending) {
        assert Leads(keys, best, rest, descending);
      } else {
        forall o | o in rest ensures InOrder(keys[id], keys[o], descending) {
          InOrderTotal(keys[id], keys[best], keys[o], descending);
          InOrderTotal(keys[id], keys[id], keys[id], descending);
        }
        assert Leads(keys, id, rest, descending);
      }
    }
  }

  function Least(a: nat, b: nat): nat {
    if a < b then a else b
  }

  /** `SELECT id ... ORDER BY key LIMIT limit`: as many rows as allowed, in order, and no row left
      out comes strictly before one that is in. */
  ghost predicate Selected(keys: map<string, string>, ids: seq<string>, limit: nat, descending: bool) {
    && Distinct(ids) && |ids| == Least(limit, |keys|)
    && (forall i :: 0 <= i < |ids| ==> ids[i] in keys)
    && (forall i, j :: 0 <= i < j < |ids| ==> InOrder(keys[ids[i]], keys[ids[j]], descending))
    && (forall i, o :: 0 <= i < |ids| && o in keys && o !in ids ==> InOrder(keys[ids[i]], keys[o], descending))
  }

  /** A query that returns fewer rows than it may returns all. */
  lemma SelectedMissesNothing(keys: map<string, string>, ids: seq<string>, limit: nat, descending: bool)
    requires Selected(keys, ids, limit, descending) && |ids| < limit
    ensures forall id :: id in keys ==> id in ids
  {
    DistinctSize(ids);
    SubsetSize(Members(ids), keys.Keys);
  }

  method Select(keys: map<string, string>, limit: nat, descending: bool) returns (ids: seq<string>)
    ensures Selected(keys, ids, limit, descending)
  {
    ids := [];
    var rest := keys.Keys;
    while |ids| < limit && rest != {}
      invariant rest <= keys.Keys && |ids| + |rest| == |keys| && |ids| <= limit
      invariant Distinct(ids)
      invariant forall o :: o in keys ==> (o in rest <==> o !in ids)
      invariant forall i :: 0 <= i < |ids| ==> ids[i] in keys && Leads(keys, ids[i], rest, descending)
      invariant forall i, j :: 0 <= i < j < |ids| ==> InOrder(keys[ids[i]], keys[ids[j]], descending)
      decreases |rest|
    {
      SomeLeads(keys, rest, descending);
      var id :| id in rest && Leads(keys, id, rest, descending);
      DistinctAppend(ids, id);
      ids := ids + [id];
      rest := rest - {id};
    }
    assert |keys| == |keys.Keys|;
  }

  // ---------------------------------------------------------------- keeping the newest

  /** The rows that `LIMIT limit` of a newest-first query lists, or that its `OFFSET` leaves. */
  ghost predicate NewestKept(keys: map<string, string>, kept: set<string>, limit: nat) {
    && kept <= keys.Keys && |kept| == Least(limit, |keys|)
    && forall k, r :: k in kept && r in keys && r !in kept ==> AtMost(keys[r], keys[k])
  }

  /** The other rows at least as new as `id`, and those strictly newer. */
  function AsNew(keys: map<string, string>, id: string): set<string>
    requires id in keys
  {
    set o | o in keys && o != id && AtMost(keys[id], keys[o])
  }

  function Newer(keys: map<string, string>, id: string): set<string>
    requires id in keys
  {
    set o | o in keys && Less(keys[id], keys[o])
  }

  /** A cap keeps every row with fewer than `limit` others as new, and removes every row with at
      least `limit` strictly newer. */
  lemma CapKeepsExactlyTheNewest(keys: map<string, string>, kept: set<string>, limit: nat, id: string)
    requires NewestKept(keys, kept, limit) && id in keys
    ensures |AsNew(keys, id)| < limit ==> id in kept
    ensures |Newer(keys, id)| >= limit ==> id !in kept
  {
    SubsetSize(kept, keys.Keys);
    if id !in kept {
      if |keys| > limit {
        assert kept <= AsNew(keys, id);
        SubsetSize(kept, AsNew(keys, id));
      }
    } else {
      LessTotal(keys[id], keys[id]);
      forall o | o in Newer(keys, id) ensures o in kept - {id} {
        LessTotal(keys[id], keys[o]);
      }
      SubsetSize(Newer(keys, id), kept - {id});
    }
  }

  function Keys(runs: map<string, RunRow>): (k: map<string, string>)
    ensures k.Keys == runs.Keys && |k| == |runs|
  {
    var k := map id | id in runs :: runs[id].started;
    assert k.Keys == runs.Keys;
    k
  }

  function Created(outbox: map<string, Pending>): (k: map<string, string>)
    ensures k.Keys == outbox.Keys && |k| == |outbox|
  {
    var k := map id | id in outbox :: outbox[id].created;
    assert k.Keys == outbox.Keys;
    k
  }

  function Only<T>(rows: map<string, T>, kept: set<string>): map<string, T> {
    map id | id in rows && id in kept :: rows[id]
  }

  /** `DELETE FROM runs WHERE id NOT IN (... LIMIT maxRuns)`, when there is a limit. */
  ghost predicate RunsPruned(before: map<string, RunRow>, after: map<string, RunRow>, maxRuns: int) {
    if maxRuns <= 0 then after == before
    else NewestKept(Keys(before), after.Keys, maxRuns) && after == Only(before, after.Keys)
  }

  /** `DELETE FROM outbox WHERE created_at<cutoff`, when there is a retention. */
  function Retained(outbox: map<string, Pending>, cutoff: Option<string>): map<string, Pending> {
    map id | id in outbox && (cutoff.None? || !Less(outbox[id].created, cutoff.value)) :: outbox[id]
  }

  /** Both deletions from the outbox. */
  ghost predicate OutboxPruned(before: map<string, Pending>, after: map<string, Pending>,
                               cutoff: Option<string>, maxPending: int) {
    var retained := Retained(before, cutoff);
    if maxPending <= 0 then after == retained
    else NewestKept(Created(retained), after.Keys, maxPending) && after == Only(retained, after.Keys)
  }

  lemma NewestKeptIsAll(keys: map<string, string>, kept: set<string>, limit: nat)
    requires NewestKept(keys, kept, limit) && |keys| <= limit
    ensures kept == keys.Keys
  {
    SubsetSize(kept, keys.Keys);
  }

  lemma RunsPruneIsIdempotent(runs: map<string, RunRow>, runs1: map<string, RunRow>, runs2: map<string, RunRow>,
                              maxRuns: int)
    requires RunsPruned(runs, runs1, maxRuns) && RunsPruned(runs1, runs2, maxRuns)
    ensures runs2 == runs1
  {
    if maxRuns > 0 {
      NewestKeptIsAll(Keys(runs1), runs2.Keys, maxRuns);
    }
  }

  lemma RetainedTwice(box: map<string, Pending>, kept: map<string, Pending>, cutoff: Option<string>)
    requires kept == Only(Retained(box, cutoff), kept.Keys)
    ensures Retained(kept, cutoff) == kept
  {
  }

  lemma OutboxPruneIsIdempotent(box: map<string, Pending>, box1: map<string, Pending>, box2: map<string, Pending>,
                                cutoff: Option<string>, maxPending: int)
    requires OutboxPruned(box, box1, cutoff, maxPending) && OutboxPruned(box1, box2, cutoff, maxPending)
    ensures box2 == box1
  {
    RetainedTwice(box, box1, cutoff);
    if maxPending > 0 {
      NewestKeptIsAll(Created(box1), box2.Keys, maxPending);
    }
  }

  /** Pruning again with the same cutoff changes nothing. */
  lemma PruneIsIdempotent(runs: map<string, RunRow>, runs1: map<string, RunRow>, runs2: map<string, RunRow>,
                          box: map<string, Pending>, box1: map<string, Pending>, box2: map<string, Pending>,
                          cutoff: Option<string>, maxRuns: int, maxPending: int)
    requires RunsPruned(runs, runs1, maxRuns) && RunsPruned(runs1, runs2, maxRuns)
    requires OutboxPruned(box, box1, cutoff, maxPending) && OutboxPruned(box1, box2, cutoff, maxPending)
    ensures runs2 == runs1 && box2 == box1
  {
    RunsPruneIsIdempotent(runs, runs1, runs2, maxRuns);
    OutboxPruneIsIdempotent(box, box1, box2, cutoff, maxPending);
  }

  /** What a prune leaves of the outbox: never more than the cap, every row within both the
      retention and the cap, unchanged, and no row that either rules out; and no removed row that
      the retention allows is newer than one that stays. */
  lemma PruneKeepsExactlyWhatFits(before: map<string, Pending>, after: map<string, Pending>,
                                  cutoff: Option<string>, maxPending: int, id: string)
    requires OutboxPruned(before, after, cutoff, maxPending) && maxPending > 0 && id in before
    ensures |after| <= maxPending
    ensures id in after ==> after[id] == before[id]
    ensures id !in Retained(before, cutoff) ==> id !in after
    ensures id in Retained(before, cutoff) ==>
      && (|AsNew(Created(Retained(before, cutoff)), id)| < maxPending ==> id in after)
      && (|Newer(Created(Retained(before, cutoff)), id)| >= maxPending ==> id !in after)
      && (id !in after ==> forall k :: k in after ==> AtMost(before[id].created, after[k].created))
  {
    var retained := Retained(before, cutoff);
    if id in retained {
      CapKeepsExactlyTheNewest(Created(retained), after.Keys, maxPending, id);
      forall k | id !in after && k in after ensures AtMost(before[id].created, after[k].created) {
        assert AtMost(Created(retained)[id], Created(retained)[k]);
      }
    }
  }

  /** The same for the runs. */
  lemma PruneKeepsTheNewestRuns(before: map<string, RunRow>, after: map<string, RunRow>, maxRuns: int, id: string)
    requires RunsPruned(before, after, maxRuns) && maxRuns > 0 && id in before
    ensures |after| <= maxRuns
    ensures id in after ==> after[id] == before[id]
    ensures |AsNew(Keys(before), id)| < maxRuns ==> id in after
    ensures |Newer(Keys(before), id)| >= maxRuns ==> id !in after
    ensures id !in after ==> forall k :: k in after ==> AtMost(before[id].started, after[k].started)
  {
    CapKeepsExactlyTheNewest(Keys(before), after.Keys, maxRuns, id);
    forall k | id !in after && k in after ensures AtMost(before[id].started, after[k].started) {
      assert AtMost(Keys(before)[id], Keys(before)[k]);
    }
  }

  /** In time: the retention removes every row a full second past it and none a full second short
      of it. */
  lemma RetentionWithinASecond(box: map<string, Pending>, id: string, created: Instant, cutoff: Instant)
    requires id in box && box[id].created == Stored(created) && Representable(created) && Representable(cutoff)
    ensures created + SECOND <= cutoff ==> id !in Retained(box, Some(Stored(cutoff)))
    ensures cutoff + SECOND <= created ==> id in Retained(box, Some(Stored(cutoff)))
  {
    FilterWithinASecond(cutoff, created);
    if created + SECOND <= cutoff {
      assert created / SECOND != cutoff / SECOND;
      DifferentSecondsOrder(created, cutoff);
    }
  }

  // ---------------------------------------------------------------- the store

  /** The row that a failed attempt leaves. */
  function Failed(row: Pending, message: string, attempts: int, now: Instant): Pending {
    row.(attempts := attempts, next := Stored(now + Backoff.RetryDelay(attempts)), lastError := message)
  }

  datatype Statement = CapRuns | Retain | CapOutbox

  class Store {
    var runs: map<string, RunRow>
    var outbox: map<string, Pending>

    constructor ()
      ensures runs == map[] && outbox == map[]
    {
      runs, outbox := map[], map[];
    }

    /** `SaveRun`: the start of a run may not be missing, and the database may refuse. */
    method SaveRun(r: Run, refused: bool) returns (ok: bool)
      modifies `runs
      ensures ok <==> r.startedAt.Some? && !refused
      ensures runs == if ok then Saved(old(runs), r) else old(runs)
    {
      if r.startedAt.None? || refused { return false; }
      runs := runs[r.id := Upserted(runs, r)];
      return true;
    }

    /** `RecentRuns`: the runs of one job, or of all, newest first. */
    method RecentRuns(jobID: string, limit: int) returns (ids: seq<string>)
      ensures Selected(Keys(RunsOf(runs, jobID)), ids, if limit <= 0 then 20 else limit, true)
      ensures |ids| <= (if limit <= 0 then 20 else limit)
      ensures forall i :: 0 <= i < |ids| ==> ids[i] in runs && (jobID == "" || runs[ids[i]].jobID == jobID)
      ensures forall i, j :: 0 <= i < j < |ids| && ids[i] in runs && ids[j] in runs ==>
        AtMost(runs[ids[j]].started, runs[ids[i]].started)
      ensures |ids| < (if limit <= 0 then 20 else limit) ==>
        forall id :: id in runs && (jobID == "" || runs[id].jobID == jobID) ==> id in ids
    {
      var most: nat := if limit <= 0 then 20 else limit;
      ids := Select(Keys(RunsOf(runs, jobID)), most, true);
      if |ids| < most { SelectedMissesNothing(Keys(RunsOf(runs, jobID)), ids, most, true); }
    }

    /** `LastCompletedBefore`. */
    method LastCompletedBefore(jobID: string, runID: string) returns (previous: Option<string>)
      ensures LastCompleted(runs, jobID, runID, previous)
      ensures previous.Some? ==>
        && previous.value in runs && previous.value != runID && runs[previous.value].jobID == jobID
        && runs[previous.value].state.status in {Success, Warning, Failure}
      ensures forall id :: id in runs && id != runID && runs[id].jobID == jobID && runs[id].state.status != Running ==>
        previous.Some? && AtMost(runs[id].started, runs[previous.value].started)
    {
      var keys := map id | id in runs && Finished(runs, jobID, runID, id) :: runs[id].started;
      var ids := Select(keys, 1, true);
      if ids == [] {
        forall id ensures !Finished(runs, jobID, runID, id) { assert id !in keys; }
        assert forall id :: id in runs && id != runID && runs[id].jobID == jobID && runs[id].state.status != Running ==>
          Finished(runs, jobID, runID, id);
        return None;
      }
      forall id | Finished(runs, jobID, runID, id) ensures AtMost(runs[id].started, runs[ids[0]].started) {
        assert id in keys;
        InOrderTotal(keys[ids[0]], keys[id], keys[id], true);
      }
      return Some(ids[0]);
    }

    /** `Enqueue`, with the new ID and the clock as inputs. */
    method Enqueue(id: string, kind: string, destination: string, payload: string, now: Instant) returns (ok: bool)
      modifies `outbox
      ensures id in old(outbox) ==> !ok
      ensures outbox == if ok
                        then old(outbox)[id := Pending(kind, destination, payload, 0, Stored(now), Stored(now), "")]
                        else old(outbox)
    {
      var refused: bool := *;
      if id in outbox || refused { return false; }
      var text := Stored(now);
      outbox := outbox[id := Pending(kind, destination, payload, 0, text, text, "")];
      return true;
    }

    /** `DueOutbox`: the rows whose time has come, oldest first, at most `limit` of them. */
    method DueOutbox(limit: int, now: Instant) returns (ids: seq<string>)
      ensures Selected(Created(DueRows(outbox, Stored(now))), ids, if limit <= 0 then 100 else limit, false)
      ensures |ids| <= (if limit <= 0 then 100 else limit)
      ensures forall i :: 0 <= i < |ids| ==> ids[i] in outbox && AtMost(outbox[ids[i]].next, Stored(now))
      ensures forall i, j :: 0 <= i < j < |ids| && ids[i] in outbox && ids[j] in outbox ==>
        AtMost(outbox[ids[i]].created, outbox[ids[j]].created)
      ensures |ids| < (if limit <= 0 then 100 else limit) ==>
        forall id :: id in outbox && AtMost(outbox[id].next, Stored(now)) ==> id in ids
    {
      var most: nat := if limit <= 0 then 100 else limit;
      ids := Select(Created(DueRows(outbox, Stored(now))), most, false);
      if |ids| < most { SelectedMissesNothing(Created(DueRows(outbox, Stored(now))), ids, most, false); }
    }

    method CompleteOutbox(id: string) returns (ok: bool)
      modifies `outbox
      ensures outbox == if ok then old(outbox) - {id} else old(outbox)
    {
      ok := *;
      if ok { outbox := outbox - {id}; }
    }

    /** `FailOutbox`: a row that is gone stays gone. */
    method FailOutbox(id: string, message: string, attempts: int, now: Instant) returns (ok: bool)
      modifies `outbox
      ensures outbox == if ok && id in old(outbox)
                        then old(outbox)[id := Failed(old(outbox)[id], message, attempts, now)]
                        else old(outbox)
      ensures ok && id in old(outbox) ==> outbox[id].attempts == attempts && outbox[id].lastError == message
                                          && outbox[id].next == Stored(now + Backoff.RetryDelay(attempts))
                                          && outbox[id].created == old(outbox)[id].created
    {
      var delay := Backoff.RetryDelay(attempts);
      ok := *;
      if ok && id in outbox {
        outbox := outbox[id := outbox[id].(attempts := attempts, next := Stored(now + delay), lastError := message)];
      }
    }

    method KeepNewestRuns(maxRuns: nat) returns (ok: bool)
      requires maxRuns > 0
      modifies `runs
      ensures RunsPruned(old(runs), runs, if ok then maxRuns else 0)
    {
      var fails: bool := *;
      if fails { return false; }
      var ids := Select(Keys(runs), maxRuns, true);
      SelectedIsNewest(Keys(runs), ids, maxRuns);
      runs := Only(runs, Members(ids));
      assert runs.Keys == Members(ids);
      return true;
    }

    method DropOlder(cutoff: string) returns (ok: bool)
      modifies `outbox
      ensures outbox == Retained(old(outbox), if ok then Some(cutoff) else None)
    {
      var fails: bool := *;
      assert outbox == Retained(outbox, None);
      if fails { return false; }
      outbox := map id | id in outbox && !Less(outbox[id].created, cutoff) :: outbox[id];
      return true;
    }

    method KeepNewestPending(maxPending: nat) returns (ok: bool)
      requires maxPending > 0
      modifies `outbox
      ensures OutboxPruned(old(outbox), outbox, None, if ok then maxPending else 0)
    {
      var fails: bool := *;
      assert outbox == Retained(outbox, None);
      if fails { return false; }
      var ids := Select(Created(outbox), maxPending, true);
      SelectedIsNewest(Created(outbox), ids, maxPending);
      outbox := Only(outbox, Members(ids));
      assert outbox.Keys == Members(ids);
      return true;
    }

    /** `Prune`: a statement that fails leaves its table alone and the others still run. */
    method Prune(maxRuns: int, maxPending: int, retention: int, now: Instant) returns (errs: set<Statement>)
      requires retention <= now
      modifies this
      ensures RunsPruned(old(runs), runs, if CapRuns in errs then 0 else maxRuns)
      ensures OutboxPruned(old(outbox), outbox,
                           if retention > 0 && Retain !in errs then Some(Stored(now - retention)) else None,
                           if CapOutbox in errs then 0 else maxPending)
    {
      errs := {};
      if maxRuns > 0 {
        var ok := KeepNewestRuns(maxRuns);
        if !ok { errs := errs + {CapRuns}; }
      }
      assert outbox == Retained(outbox, None);
      ghost var cutoff: Option<string> := None;
      if retention > 0 {
        var oldest := Stored(now - retention);
        var ok := DropOlder(oldest);
        if ok { cutoff := Some(oldest); } else { errs := errs + {Retain}; }
      }
      ghost var retained := outbox;
      assert retained == Retained(retained, None);
      if maxPending > 0 {
        var ok := KeepNewestPending(maxPending);
        if !ok { errs := errs + {CapOutbox}; }
      }
    }
  }

  function RunsOf(runs: map<string, RunRow>, jobID: string): map<string, RunRow> {
    map id | id in runs && (jobID == "" || runs[id].jobID == jobID) :: runs[id]
  }

  /** A finished run of the job other than the given one. */
  predicate Finished(runs: map<string, RunRow>, jobID: string, runID: string, id: string) {
    id in runs && runs[id].jobID == jobID && id != runID && runs[id].state.status != Running
  }

  /** The latest such run, if there is one. */
  ghost predicate LastCompleted(runs: map<string, RunRow>, jobID: string, runID: string, previous: Option<string>) {
    match previous
    case None => forall id :: !Finished(runs, jobID, runID, id)
    case Some(p) =>
      && Finished(runs, jobID, runID, p)
      && forall id :: Finished(runs, jobID, runID, id) ==> AtMost(runs[id].started, runs[p].started)
  }

  function DueRows(outbox: map<string, Pending>, now: string): map<string, Pending> {
    map id | id in outbox && AtMost(outbox[id].next, now) :: outbox[id]
  }

  /** In time: a row due a full second ago is among the candidates, one due a full second ahead
      is not. */
  lemma DueWithinASecond(outbox: map<string, Pending>, id: string, next: Instant, now: Instant)
    requires id in outbox && outbox[id].next == Stored(next) && Representable(next) && Representable(now)
    ensures next + SECOND <= now ==> id in DueRows(outbox, Stored(now))
    ensures id in DueRows(outbox, Stored(now)) ==> next < now + SECOND
  {
    FilterWithinASecond(next, now);
  }

  /** When no more rows are due than the limit allows, every one of them is handed out; otherwise
      only rows at least as old as each row passed over are. */
  lemma DueMissesNothing(keys: map<string, string>, ids: seq<string>, limit: nat, id: string)
    requires Selected(keys, ids, limit, false) && id in keys
    ensures |keys| <= limit ==> id in ids
    ensures id !in ids ==> |ids| == limit && forall i :: 0 <= i < |ids| ==> AtMost(keys[ids[i]], keys[id])
  {
    DistinctSize(ids);
    SubsetSize(Members(ids), keys.Keys);
  }

  lemma SelectedIsNewest(keys: map<string, string>, ids: seq<string>, limit: nat)
    requires Selected(keys, ids, limit, true)
    ensures NewestKept(keys, Members(ids), limit)
  {
    DistinctSize(ids);
  }
}
