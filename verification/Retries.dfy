/** One queued event under many maintenance passes. A pass first reads the row with the others that
    are due, then sends the event, and on failure writes back the attempts it read plus one. */
module Retries {
  import opened Backoff
  import opened Store
  import opened Text
  import opened Timestamps

  // ---------------------------------------------------------------- spacing

  /** A pass that read the row at one time and recorded a failure at another. */
  datatype Pass = Pass(read: Instant, failed: Instant, message: string)

  /** Pass `k` found the row due, failed, and ended before the next pass began. */
  predicate Recorded(rows: seq<Pending>, passes: seq<Pass>, k: nat)
    requires k < |passes| && |rows| == |passes| + 1
  {
    && AtMost(rows[k].next, Stored(passes[k].read))
    && passes[k].read <= passes[k].failed
    && rows[k + 1] == Failed(rows[k], passes[k].message, rows[k].attempts + 1, passes[k].failed)
    && (k + 1 < |passes| ==> passes[k].failed <= passes[k + 1].read)
    && Representable(passes[k].read)
    && Representable(passes[k].failed + RetryDelay(rows[k].attempts + 1))
  }

  /** The waits after attempts `first` up to but not including `last`. */
  function Waits(first: int, last: int): nat
    requires first <= last
    decreases last - first
  {
    if first == last then 0 else Waits(first, last - 1) + RetryDelay(last - 1)
  }

  /** What follows for the numbers: one attempt more, and the wait respected up to a second. */
  predicate Respected(rows: seq<Pending>, passes: seq<Pass>, k: nat)
    requires k < |passes| && |rows| == |passes| + 1
  {
    && rows[k + 1].attempts == rows[k].attempts + 1
    && passes[k].read <= passes[k].failed
    && (k + 1 < |passes| ==> passes[k].failed + RetryDelay(rows[k + 1].attempts) < passes[k + 1].read + SECOND)
  }

  /** A row that failed, and is due again by text when it is read, has waited up to a second. */
  lemma DueAfterFailure(row: Pending, message: string, at: Instant, after: Pending, read: Instant)
    requires after == Failed(row, message, row.attempts + 1, at) && AtMost(after.next, Stored(read))
    requires Representable(read) && Representable(at + RetryDelay(row.attempts + 1))
    ensures at + RetryDelay(after.attempts) < read + SECOND
  {
    FilterWithinASecond(at + RetryDelay(row.attempts + 1), read);
  }

  lemma RecordedRespects(rows: seq<Pending>, passes: seq<Pass>, k: nat)
    requires k < |passes| && |rows| == |passes| + 1
    requires Recorded(rows, passes, k) && (k + 1 < |passes| ==> Recorded(rows, passes, k + 1))
    ensures Respected(rows, passes, k)
  {
    if k + 1 < |passes| {
      DueAfterFailure(rows[k], passes[k].message, passes[k].failed, rows[k + 1], passes[k + 1].read);
    }
  }

  /** The passes follow one another, each on the row that the one before it left. */
  predicate InTurn(rows: seq<Pending>, passes: seq<Pass>) {
    |rows| == |passes| + 1 && forall k :: 0 <= k < |passes| ==> Recorded(rows, passes, k)
  }

  lemma AllRespected(rows: seq<Pending>, passes: seq<Pass>)
    requires |rows| == |passes| + 1 && InTurn(rows, passes)
    ensures forall k :: 0 <= k < |passes| ==> Respected(rows, passes, k)
  {
    forall k | 0 <= k < |passes| ensures Respected(rows, passes, k) {
      RecordedRespects(rows, passes, k);
    }
  }

  lemma {:induction false} RespectedAddsUp(rows: seq<Pending>, passes: seq<Pass>, i: nat, j: nat)
    requires i <= j < |passes| && |rows| == |passes| + 1
    requires forall k :: 0 <= k < |passes| ==> Respected(rows, passes, k)
    ensures rows[j + 1].attempts == rows[i + 1].attempts + (j - i)
    ensures var spacing := Waits(rows[i + 1].attempts, rows[j + 1].attempts) - (j - i) * SECOND;
      passes[j].failed - passes[i].failed >= spacing + (if i < j then 1 else 0)
    decreases j
  {
    if i < j {
      RespectedAddsUp(rows, passes, i, j - 1);
      assert Respected(rows, passes, j - 1) && Respected(rows, passes, j);
      assert (j - i) * SECOND == (j - 1 - i) * SECOND + SECOND;
    }
  }

  /** Passes that do not overlap count every failure, and between two failures at least the waits
      in between have passed, less a second of text slack for each. */
  lemma FailuresAreSpaced(rows: seq<Pending>, passes: seq<Pass>, i: nat, j: nat)
    requires i <= j < |passes| && |rows| == |passes| + 1 && InTurn(rows, passes)
    ensures rows[j + 1].attempts == rows[i].attempts + (j - i) + 1
    ensures var first := rows[i].attempts + 1;
      var spacing := Waits(first, first + (j - i)) - (j - i) * SECOND;
      && passes[j].failed - passes[i].failed >= spacing
      && (i < j ==> passes[j].failed - passes[i].failed > spacing)
  {
    AllRespected(rows, passes);
    RespectedAddsUp(rows, passes, i, j);
    assert Respected(rows, passes, i);
  }

  // ---------------------------------------------------------------- overlapping passes

  /** What several passes at once do to one row. */
  datatype Touch = Read(pass: nat) | Fail(pass: nat)

  /** The attempts in the row, and those each pass has read. */
  datatype Counter = Counter(attempts: int, seen: map<nat, int>)

  function Counted(start: int, h: seq<Touch>): Counter {
    if h == [] then Counter(start, map[])
    else
      var c, t := Counted(start, h[..|h| - 1]), h[|h| - 1];
      match t
      case Read(p) => c.(seen := c.seen[p := c.attempts])
      case Fail(p) => if p in c.seen then c.(attempts := c.seen[p] + 1) else c
  }

  function Failures(h: seq<Touch>): nat {
    if h == [] then 0 else Failures(h[..|h| - 1]) + if h[|h| - 1].Fail? then 1 else 0
  }

  /** `r` is where the pass that touches the row at `i` last read it. */
  predicate ReadAt(h: seq<Touch>, r: nat, i: nat, p: nat) {
    r < i <= |h| && h[r] == Read(p) && forall k :: r < k < i ==> h[k] != Read(p)
  }

  /** Every failure follows a read by the same pass. */
  ghost predicate Possible(h: seq<Touch>) {
    forall i :: 0 <= i < |h| && h[i].Fail? ==> exists r: nat :: ReadAt(h, r, i, h[i].pass)
  }

  /** The failure at `i` was recorded by a pass that had read the row before another pass recorded
      one. */
  ghost predicate Overtaken(h: seq<Touch>, i: nat) {
    && i < |h| && h[i].Fail?
    && exists r: nat, f: nat :: ReadAt(h, r, i, h[i].pass) && r < f < i && h[f].Fail?
  }

  lemma {:induction false} FailuresBetween(h: seq<Touch>, r: nat)
    requires r <= |h|
    ensures Failures(h[..r]) <= Failures(h)
    ensures Failures(h[..r]) == Failures(h) <==> forall f :: r <= f < |h| ==> !h[f].Fail?
    decreases |h|
  {
    if r == |h| {
      assert h[..r] == h;
    } else {
      var older := h[..|h| - 1];
      assert older[..r] == h[..r];
      FailuresBetween(older, r);
      assert forall f :: r <= f < |h| - 1 ==> older[f] == h[f];
    }
  }

  /** What a pass has seen is the count where it last read, and the count does not change without
      a failure. */
  lemma {:induction false} SeenIsRead(start: int, h: seq<Touch>, r: nat, p: nat)
    requires ReadAt(h, r, |h|, p)
    ensures p in Counted(start, h).seen && Counted(start, h).seen[p] == Counted(start, h[..r]).attempts
    ensures (forall f :: r <= f < |h| ==> !h[f].Fail?) ==> Counted(start, h).attempts == Counted(start, h[..r]).attempts
    decreases |h|
  {
    var older := h[..|h| - 1];
    if r < |h| - 1 {
      assert older[..r] == h[..r];
      assert ReadAt(older, r, |older|, p);
      SeenIsRead(start, older, r, p);
    }
  }

  lemma {:induction false} NeverOvercounts(start: int, h: seq<Touch>)
    requires Possible(h)
    ensures Counted(start, h).attempts <= start + Failures(h)
    decreases |h|
  {
    if h != [] {
      var n := |h| - 1;
      PossiblePrefix(h, n);
      NeverOvercounts(start, h[..n]);
      if h[n].Fail? {
        var r: nat :| ReadAt(h, r, n, h[n].pass);
        ReadInPrefix(h, r, n);
        SeenIsRead(start, h[..n], r, h[n].pass);
        assert h[..n][..r] == h[..r];
        PossiblePrefix(h, r);
        NeverOvercounts(start, h[..r]);
        FailuresBetween(h[..n], r);
      }
    }
  }

  lemma ReadInPrefix(h: seq<Touch>, r: nat, n: nat)
    requires n < |h| && ReadAt(h, r, n, h[n].pass)
    ensures ReadAt(h[..n], r, n, h[n].pass)
  {
  }

  lemma PossiblePrefix(h: seq<Touch>, n: nat)
    requires Possible(h) && n <= |h|
    ensures Possible(h[..n])
    ensures forall i: nat :: i < n ==> (Overtaken(h[..n], i) <==> Overtaken(h, i))
  {
    var older := h[..n];
    forall i: nat, r: nat | i < n && h[i].Fail?
      ensures ReadAt(older, r, i, h[i].pass) <==> ReadAt(h, r, i, h[i].pass)
    {
    }
    forall i | 0 <= i < |older| && older[i].Fail? ensures exists r: nat :: ReadAt(older, r, i, older[i].pass) {
      var r: nat :| ReadAt(h, r, i, h[i].pass);
      assert ReadAt(older, r, i, older[i].pass);
    }
    forall i: nat | i < n ensures Overtaken(older, i) <==> Overtaken(h, i) {
      OvertakenInPrefix(h, n, i);
    }
  }

  lemma OvertakenInPrefix(h: seq<Touch>, n: nat, i: nat)
    requires i < n <= |h|
    ensures Overtaken(h[..n], i) <==> Overtaken(h, i)
  {
    var older := h[..n];
    if Overtaken(h, i) {
      var r: nat, f: nat :| ReadAt(h, r, i, h[i].pass) && r < f < i && h[f].Fail?;
      assert ReadAt(older, r, i, older[i].pass) && older[f].Fail?;
    }
    if Overtaken(older, i) {
      var r: nat, f: nat :| ReadAt(older, r, i, older[i].pass) && r < f < i && older[f].Fail?;
      assert ReadAt(h, r, i, h[i].pass) && h[f].Fail?;
    }
  }

  lemma ReadIsUnique(h: seq<Touch>, r: nat, s: nat, i: nat, p: nat)
    requires ReadAt(h, r, i, p) && ReadAt(h, s, i, p)
    ensures r == s
  {
  }

  /** The row counts every failure exactly when no failure was recorded by a pass that another
      pass overtook. */
  lemma {:induction false} CountsExactlyWhenNotOvertaken(start: int, h: seq<Touch>)
    requires Possible(h)
    ensures Counted(start, h).attempts == start + Failures(h) <==> forall i: nat :: !Overtaken(h, i)
    decreases |h|
  {
    if h == [] {
    } else {
      var n := |h| - 1;
      PossiblePrefix(h, n);
      CountsExactlyWhenNotOvertaken(start, h[..n]);
      assert (forall i: nat :: !Overtaken(h, i)) <==> (forall i: nat :: !Overtaken(h[..n], i)) && !Overtaken(h, n);
      if h[n].Fail? {
        LastFailure(start, h);
      }
    }
  }

  /** Two passes that both read the row before either records its failure: two failures, one counted. */
  lemma TwoPassesCountOnce(start: int)
    ensures var h := [Read(0), Read(1), Fail(0), Fail(1)];
      Possible(h) && Failures(h) == 2 && Counted(start, h).attempts == start + 1
  {
    var h := [Read(0), Read(1), Fail(0), Fail(1)];
    assert ReadAt(h, 0, 2, 0) && ReadAt(h, 1, 3, 1);
    assert h[..3] == [Read(0), Read(1), Fail(0)] && h[..3][..2] == [Read(0), Read(1)] && h[..3][..2][..1] == [Read(0)];
    assert h[..3][..2][..1][..0] == [];
    assert Counted(start, [Read(0)]) == Counter(start, map[0 := start]);
    assert Counted(start, [Read(0), Read(1)]) == Counter(start, map[0 := start, 1 := start]);
    assert Counted(start, [Read(0), Read(1), Fail(0)]).attempts == start + 1;
  }

  lemma LastFailure(start: int, h: seq<Touch>)
    requires Possible(h) && h != [] && h[|h| - 1].Fail?
    ensures var n := |h| - 1;
      if Overtaken(h, n) then Counted(start, h).attempts < start + Failures(h)
      else Counted(start, h).attempts == Counted(start, h[..n]).attempts + 1
  {
    var n := |h| - 1;
    var p := h[n].pass;
    var r: nat :| ReadAt(h, r, n, p);
    var older := h[..n];
    ReadInPrefix(h, r, n);
    SeenIsRead(start, older, r, p);
    assert older[..r] == h[..r];
    PossiblePrefix(h, r);
    NeverOvercounts(start, h[..r]);
    FailuresBetween(older, r);
    assert forall f :: r < f < n && h[f].Fail? ==> Overtaken(h, n);
    if Overtaken(h, n) {
      var s: nat, f: nat :| ReadAt(h, s, n, p) && s < f < n && h[f].Fail?;
      ReadIsUnique(h, r, s, n, p);
      assert older[f].Fail?;
    } else {
      assert forall f :: r <= f < n ==> !older[f].Fail?;
    }
  }
}
