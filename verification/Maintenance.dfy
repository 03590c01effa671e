/** The loop of `maintenance` over the rows that are due. */
module Maintenance {
  import Backoff
  import opened Sequences
  import opened Store
  import opened Text
  import opened Timestamps

  /** A row as it was handed out. */
  datatype Item = Item(id: string, attempts: int)

  /** What handling one item does to the rows. */
  function Step(box: map<string, Pending>, i: Item, errors: map<string, string>, at: Instant): map<string, Pending> {
    if i.id !in errors then box - {i.id}
    else if i.id in box then box[i.id := Failed(box[i.id], errors[i.id], i.attempts + 1, at)]
    else box
  }

  /** The outbox after the items, given which sends fail and when each failure is recorded. */
  function Drained(box: map<string, Pending>, items: seq<Item>, errors: map<string, string>, clock: nat -> Instant)
    : map<string, Pending>
  {
    if items == [] then box
    else
      var n := |items| - 1;
      Step(Drained(box, items[..n], errors, clock), items[n], errors, clock(n))
  }

  predicate DistinctItems(items: seq<Item>) {
    forall i, j :: 0 <= i < j < |items| ==> items[i].id != items[j].id
  }

  predicate SameRow(a: map<string, Pending>, b: map<string, Pending>, id: string) {
    (id in a <==> id in b) && (id in a ==> a[id] == b[id])
  }

  lemma StepElsewhere(box: map<string, Pending>, i: Item, errors: map<string, string>, at: Instant, id: string)
    requires i.id != id
    ensures SameRow(Step(box, i, errors, at), box, id)
  {
  }

  /** Rows that are not handed out stay as they are. */
  lemma {:induction false} OthersStay(box: map<string, Pending>, items: seq<Item>, errors: map<string, string>,
                                      clock: nat -> Instant, id: string)
    requires forall i :: 0 <= i < |items| ==> items[i].id != id
    ensures SameRow(Drained(box, items, errors, clock), box, id)
  {
    if items != [] {
      var n := |items| - 1;
      OthersStay(box, items[..n], errors, clock, id);
      StepElsewhere(Drained(box, items[..n], errors, clock), items[n], errors, clock(n), id);
    }
  }

  lemma {:induction false} HandledAlone(box: map<string, Pending>, items: seq<Item>, errors: map<string, string>,
                                       clock: nat -> Instant, i: nat)
    requires DistinctItems(items) && i < |items|
    ensures SameRow(Drained(box, items, errors, clock), Step(box, items[i], errors, clock(i)), items[i].id)
  {
    var n, id := |items| - 1, items[i].id;
    var before := Drained(box, items[..n], errors, clock);
    if i < n {
      HandledAlone(box, items[..n], errors, clock, i);
      StepElsewhere(before, items[n], errors, clock(n), id);
    } else {
      OthersStay(box, items[..n], errors, clock, id);
      StepSame(before, box, items[n], errors, clock(n));
    }
  }

  /** A row that is handed out is handled once: it goes if its send succeeds; otherwise it gets one
      attempt more than it was read with, the error and the time of its next attempt, and keeps the
      rest, unless it is gone already. */
  lemma HandledOnce(box: map<string, Pending>, items: seq<Item>, errors: map<string, string>,
                    clock: nat -> Instant, i: nat)
    requires DistinctItems(items) && i < |items|
    ensures var after, id := Drained(box, items, errors, clock), items[i].id;
      && (id !in errors || id !in box ==> id !in after)
      && (id in errors && id in box ==>
            && id in after && after[id].attempts == items[i].attempts + 1 && after[id].lastError == errors[id]
            && after[id].next == Stored(clock(i) + Backoff.RetryDelay(items[i].attempts + 1))
            && after[id].kind == box[id].kind && after[id].destination == box[id].destination
            && after[id].payload == box[id].payload && after[id].created == box[id].created)
  {
    HandledAlone(box, items, errors, clock, i);
  }

  lemma StepSame(a: map<string, Pending>, b: map<string, Pending>, i: Item, errors: map<string, string>, at: Instant)
    requires SameRow(a, b, i.id)
    ensures SameRow(Step(a, i, errors, at), Step(b, i, errors, at), i.id)
  {
  }

  predicate NotYounger(box: map<string, Pending>, a: string, b: string) {
    a in box && b in box && AtMost(box[a].created, box[b].created)
  }

  lemma DrainedNext(box: map<string, Pending>, items: seq<Item>, errors: map<string, string>,
                    clock: nat -> Instant, k: nat)
    requires k < |items|
    ensures Drained(box, items[..k + 1], errors, clock)
         == Step(Drained(box, items[..k], errors, clock), items[k], errors, clock(k))
  {
    assert items[..k + 1][..k] == items[..k];
  }

  method Handle(s: Store, i: Item, errors: map<string, string>, at: Instant) returns (ok: bool)
    modifies s`outbox
    ensures s.outbox == if ok then Step(old(s.outbox), i, errors, at) else old(s.outbox)
  {
    if i.id !in errors {
      ok := s.CompleteOutbox(i.id);
    } else {
      ok := s.FailOutbox(i.id, errors[i.id], i.attempts + 1, at);
    }
  }

  /** The rows that are due, as they are read. */
  method Read(s: Store, limit: int, now: Instant) returns (items: seq<Item>)
    ensures DistinctItems(items)
    ensures forall i :: 0 <= i < |items| ==>
      items[i].id in DueRows(s.outbox, Stored(now)) && items[i].attempts == s.outbox[items[i].id].attempts
    ensures forall i, j :: 0 <= i < j < |items| ==> NotYounger(s.outbox, items[i].id, items[j].id)
    ensures |items| == Least(if limit <= 0 then 100 else limit, |DueRows(s.outbox, Stored(now))|)
  {
    var ids := s.DueOutbox(limit, now);
    ghost var created := Created(DueRows(s.outbox, Stored(now)));
    forall i, j | 0 <= i < j < |ids| ensures NotYounger(s.outbox, ids[i], ids[j]) && ids[i] != ids[j] {
      assert InOrder(created[ids[i]], created[ids[j]], false);
      assert Differ(ids, i, j);
    }
    items := seq(|ids|, i requires 0 <= i < |ids| && ids[i] in s.outbox reads s
                   => Item(ids[i], s.outbox[ids[i]].attempts));
  }

  /** The loop stops at the first statement that the database refuses. */
  method Drain(s: Store, limit: int, now: Instant, errors: map<string, string>, clock: nat -> Instant)
    returns (ok: bool, items: seq<Item>, handled: nat)
    modifies s`outbox
    ensures handled <= |items| && (ok ==> handled == |items|) && DistinctItems(items)
    ensures forall i :: 0 <= i < |items| ==>
      items[i].id in DueRows(old(s.outbox), Stored(now)) && items[i].attempts == old(s.outbox)[items[i].id].attempts
    ensures forall i, j :: 0 <= i < j < |items| ==> NotYounger(old(s.outbox), items[i].id, items[j].id)
    ensures |items| == Least(if limit <= 0 then 100 else limit, |DueRows(old(s.outbox), Stored(now))|)
    ensures s.outbox == Drained(old(s.outbox), items[..handled], errors, clock)
  {
    items := Read(s, limit, now);
    handled := Work(s, items, errors, clock);
    ok := handled == |items|;
  }

  method Work(s: Store, items: seq<Item>, errors: map<string, string>, clock: nat -> Instant) returns (handled: nat)
    modifies s`outbox
    ensures handled <= |items| && s.outbox == Drained(old(s.outbox), items[..handled], errors, clock)
  {
    handled := 0;
    while handled < |items|
      invariant 0 <= handled <= |items|
      invariant s.outbox == Drained(old(s.outbox), items[..handled], errors, clock)
    {
      var ok := Handle(s, items[handled], errors, clock(handled));
      if !ok { return; }
      DrainedNext(old(s.outbox), items, errors, clock, handled);
      handled := handled + 1;
    }
  }
}
