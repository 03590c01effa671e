/** Which notification a finished run sends, over the whole history of one job. */
module Recovery {
  import opened Store
  import opened Text
  import opened Timestamps
  import opened Wrappers

  /** A run of the job. A run whose process died keeps the status it was started with. */
  datatype Past = Past(id: string, start: Instant, status: Status)

  predicate Bad(status: Status) {
    status == Failure || status == Warning
  }

  datatype Channels = Channels(onSuccess: seq<string>, onWarning: seq<string>, onFailure: seq<string>,
                               onRecovery: seq<string>)

  /** The list chosen when a run finishes, and whether the title says that the job recovered.
      `previous` is the status of the last completed run, if the query found one. */
  method Choose(channels: Channels, status: Status, previous: Option<Status>)
    returns (ids: seq<string>, recovered: bool)
    ensures recovered <==> status == Success && (previous == Some(Failure) || previous == Some(Warning))
    ensures status == Warning ==> ids == channels.onWarning
    ensures status == Failure ==> ids == channels.onFailure
    ensures status != Warning && status != Failure ==>
      ids == if recovered then channels.onRecovery else channels.onSuccess
  {
    ids, recovered := channels.onSuccess, false;
    if previous.Some? && (previous.value == Failure || previous.value == Warning) && status == Success {
      ids, recovered := channels.onRecovery, true;
    }
    if status == Warning {
      ids := channels.onWarning;
    } else if status == Failure {
      ids := channels.onFailure;
    }
  }

  // ---------------------------------------------------------------- the table and the history

  /** The rows of the job are the history, one each. */
  ghost predicate Listed(runs: map<string, RunRow>, jobID: string, h: seq<Past>) {
    && (forall i :: 0 <= i < |h| ==>
          h[i].id in runs && runs[h[i].id].jobID == jobID && runs[h[i].id].state.status == h[i].status)
    && (forall id :: id in runs && runs[id].jobID == jobID ==> exists i :: 0 <= i < |h| && h[i].id == id)
    && (forall i, j :: 0 <= i < j < |h| ==> h[i].id != h[j].id)
  }

  /** Each row holds its start as text, and the starts lie in different seconds. */
  ghost predicate Timed(runs: map<string, RunRow>, h: seq<Past>) {
    && (forall i :: 0 <= i < |h| && h[i].id in runs ==>
          runs[h[i].id].started == Stored(h[i].start) && Representable(h[i].start))
    && (forall i, j :: 0 <= i < j < |h| ==> h[i].start / SECOND < h[j].start / SECOND)
  }

  predicate TextBefore(runs: map<string, RunRow>, h: seq<Past>, i: nat, j: nat) {
    && i < |h| && j < |h| && h[i].id in runs && h[j].id in runs
    && Less(runs[h[i].id].started, runs[h[j].id].started)
  }

  lemma TextsFollowStarts(runs: map<string, RunRow>, h: seq<Past>, i: nat, j: nat)
    requires Timed(runs, h) && i < j < |h| && h[i].id in runs && h[j].id in runs
    ensures TextBefore(runs, h, i, j)
  {
    DifferentSecondsOrder(h[i].start, h[j].start);
  }

  lemma AllTextsFollowStarts(runs: map<string, RunRow>, jobID: string, h: seq<Past>)
    requires Timed(runs, h) && Listed(runs, jobID, h)
    ensures forall i: nat, j: nat :: i < j < |h| ==> TextBefore(runs, h, i, j)
  {
    forall i: nat, j: nat | i < j < |h| ensures TextBefore(runs, h, i, j) {
      TextsFollowStarts(runs, h, i, j);
    }
  }

  /** The last run before `c` that did not stay `running`, if there is one. */
  predicate Precedes(h: seq<Past>, c: nat, p: nat) {
    p < c <= |h| && h[p].status != Running && forall k :: p < k < c ==> h[k].status == Running
  }

  /** The query finds the last completed run in history order. */
  lemma QueryFindsThePreceding(runs: map<string, RunRow>, jobID: string, h: seq<Past>, previous: Option<string>)
    requires h != [] && Listed(runs, jobID, h)
    requires forall i: nat, j: nat :: i < j < |h| ==> TextBefore(runs, h, i, j)
    requires LastCompleted(runs, jobID, h[|h| - 1].id, previous)
    ensures previous.None? ==> forall p :: 0 <= p < |h| - 1 ==> h[p].status == Running
    ensures previous.Some? ==> exists p: nat :: Precedes(h, |h| - 1, p) && h[p].id == previous.value
  {
    var c := |h| - 1;
    var runID := h[c].id;
    forall p | 0 <= p < c ensures Finished(runs, jobID, runID, h[p].id) <==> h[p].status != Running {
    }
    if previous.Some? {
      var p :| 0 <= p < |h| && h[p].id == previous.value;
      forall k | p < k < c ensures h[k].status == Running {
        assert TextBefore(runs, h, p, k);
        assert !AtMost(runs[h[k].id].started, runs[h[p].id].started);
      }
      assert Precedes(h, c, p);
    }
  }

  // ---------------------------------------------------------------- blocks of trouble

  /** The run at `c` gets the recovery notice: it succeeded, and the run that precedes it did not
      go well. */
  ghost predicate Recovers(h: seq<Past>, c: nat) {
    c < |h| && h[c].status == Success && exists p: nat :: Precedes(h, c, p) && Bad(h[p].status)
  }

  /** What is chosen when the last run of the history finishes. */
  lemma ChosenExactlyWhenItRecovers(runs: map<string, RunRow>, jobID: string, h: seq<Past>, previous: Option<string>)
    requires h != [] && Listed(runs, jobID, h) && Timed(runs, h)
    requires LastCompleted(runs, jobID, h[|h| - 1].id, previous)
    ensures previous.Some? ==> previous.value in runs
    ensures Recovers(h, |h| - 1) <==>
      h[|h| - 1].status == Success && previous.Some? && Bad(runs[previous.value].state.status)
  {
    AllTextsFollowStarts(runs, jobID, h);
    PrecedingDecides(runs, jobID, h, previous);
  }

  lemma PrecedingDecides(runs: map<string, RunRow>, jobID: string, h: seq<Past>, previous: Option<string>)
    requires h != [] && Listed(runs, jobID, h)
    requires forall i: nat, j: nat :: i < j < |h| ==> TextBefore(runs, h, i, j)
    requires LastCompleted(runs, jobID, h[|h| - 1].id, previous)
    ensures previous.Some? ==> previous.value in runs
    ensures Recovers(h, |h| - 1) <==>
      h[|h| - 1].status == Success && previous.Some? && Bad(runs[previous.value].state.status)
  {
    QueryFindsThePreceding(runs, jobID, h, previous);
    var c := |h| - 1;
    if Recovers(h, c) {
      var p: nat :| Precedes(h, c, p) && Bad(h[p].status);
      var q: nat :| Precedes(h, c, q) && h[q].id == previous.value;
      assert p == q;
    }
  }

  /** A maximal block of failed and warning runs, from `a` up to the success at `c` that closes it.
      Runs that stayed `running` may lie before, inside and after it. */
  ghost predicate ClosedBlock(h: seq<Past>, a: nat, c: nat) {
    && a < c < |h| && (h[a].status == Failure || h[a].status == Warning) && h[c].status == Success
    && (forall k :: a < k < c ==> h[k].status == Failure || h[k].status == Warning || h[k].status == Running)
    && (forall p: nat :: Precedes(h, a, p) ==> h[p].status == Success)
  }

  /** Going back from a bad run over bad and running ones leads to the start of its block. */
  lemma {:induction false} BlockStart(h: seq<Past>, b: nat, c: nat) returns (a: nat)
    requires b < c < |h| && Bad(h[b].status) && h[c].status == Success
    requires forall k :: b < k < c ==> Bad(h[k].status) || h[k].status == Running
    ensures ClosedBlock(h, a, c)
    decreases b
  {
    if p: nat :| Precedes(h, b, p) && Bad(h[p].status) {
      a := BlockStart(h, p, c);
    } else {
      a := b;
    }
  }

  /** A run gets the recovery notice exactly when it closes a block; it closes one block only, and
      a block is closed by one run only. */
  lemma OneNoticePerBlock(h: seq<Past>, c: nat)
    ensures Recovers(h, c) <==> exists a: nat :: ClosedBlock(h, a, c)
    ensures forall a: nat, b: nat :: ClosedBlock(h, a, c) && ClosedBlock(h, b, c) ==> a == b
    ensures forall a: nat, d: nat :: ClosedBlock(h, a, c) && ClosedBlock(h, a, d) ==> c == d
  {
    if Recovers(h, c) {
      var p: nat :| Precedes(h, c, p) && Bad(h[p].status);
      var a := BlockStart(h, p, c);
    }
    forall a: nat | ClosedBlock(h, a, c) ensures Recovers(h, c) {
      var p := Preceding(h, a, c);
    }
    forall a: nat, b: nat | ClosedBlock(h, a, c) && ClosedBlock(h, b, c) ensures a == b {
      if a < b { var p := Preceding(h, a, b); }
      if b < a { var p := Preceding(h, b, a); }
    }
  }

  /** Between a bad run and a later point only bad and running ones: the run that precedes the
      point is bad. */
  lemma {:induction false} Preceding(h: seq<Past>, a: nat, c: nat) returns (p: nat)
    requires a < c <= |h| && Bad(h[a].status)
    requires forall k :: a < k < c ==> Bad(h[k].status) || h[k].status == Running
    ensures Precedes(h, c, p) && Bad(h[p].status)
    decreases c
  {
    if h[c - 1].status == Running {
      p := Preceding(h, a, c - 1);
    } else {
      p := c - 1;
    }
  }

  lemma PrefixDecides(h: seq<Past>, c: nat)
    requires c < |h|
    ensures Recovers(h[..c + 1], c) <==> Recovers(h, c)
  {
    forall p: nat ensures Precedes(h[..c + 1], c, p) <==> Precedes(h, c, p) {
    }
    if Recovers(h, c) {
      var p: nat :| Precedes(h, c, p) && Bad(h[p].status);
      assert Precedes(h[..c + 1], c, p);
    }
  }

  /** What the callback of run `c` sees: the rows of the runs so far, and the answer to its query. */
  ghost predicate Seen(jobID: string, h: seq<Past>, c: nat, runs: map<string, RunRow>, previous: Option<string>)
    requires c < |h|
  {
    && Listed(runs, jobID, h[..c + 1]) && Timed(runs, h[..c + 1])
    && LastCompleted(runs, jobID, h[c].id, previous)
  }

  /** Over a whole history the recovery notice goes out for exactly the runs that close a block. */
  lemma RecoveryClosesABlock(jobID: string, h: seq<Past>, c: nat, runs: map<string, RunRow>, previous: Option<string>)
    requires c < |h| && Seen(jobID, h, c, runs, previous)
    ensures previous.Some? ==> previous.value in runs
    ensures h[c].status == Success && previous.Some?
            && (runs[previous.value].state.status == Failure || runs[previous.value].state.status == Warning)
      <==> exists a: nat :: ClosedBlock(h, a, c)
  {
    ChosenExactlyWhenItRecovers(runs, jobID, h[..c + 1], previous);
    PrefixDecides(h, c);
    OneNoticePerBlock(h, c);
  }
}
