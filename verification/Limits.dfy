/** Runs that show where the guarantees of the monitor end. */
module Limits {
  import opened Monitor
  import opened History
  import opened Serving
  import opened Text
  import opened Wrappers

  function StartAt(t: Time): Instance {
    Instance(NOTHING, map[], File(NOTHING, {NOTHING}), map[], t, {}, false)
  }

  /** The clock of most of these runs starts at the start of 1970, so that their timestamps are small
      numbers. */
  const NOW := UNIX_EPOCH

  const START := StartAt(NOW)

  function Beat(id: string, name: string): Event {
    Event(id, "node.heartbeat", 7, "n", name, None, None)
  }

  /** A correctly signed report from node `n`. */
  function Report(e: Event, nonce: string, unix: int): Request {
    Request(true, false, true, "n", nonce, Some(unix), Some(1), true, Some("k"), Some(e), 0)
  }

  function Registering(): Step { Register("n", "old", "k", Saved) }

  lemma Enrolled(t: Time) returns (s: Instance)
    ensures Enabled(StartAt(t), Registering()) && s == Next(StartAt(t), Registering())
    ensures s.mem.hist == [Registered("n", "old", "k")] && s.mem.state.reports == []
    ensures s.mem.state.nodes == map["n" := Node("n", "old", "k", 1, 0, Some(map[]))]
    ensures s.nonces == map[] && s.handlers == map[] && s.now == t && s.committed == {} && !s.stale
    ensures s.file == File(s.mem, {s.mem})
  {
    s := Next(StartAt(t), Registering());
    assert s.mem.hist == [Registered("n", "old", "k")];
  }

  lemma ReplayOfOne(op: Op)
    ensures Replay([op]) == Apply(EMPTY, op)
  {
    ReplayStep([], op);
    assert [] + [op] == [op];
  }

  const ENROLLED := Node("n", "old", "k", 1, 0, Some(map[]))

  /** A request that an idle server with the node enrolled admits. */
  lemma Admitting(s: Instance, h: nat, e: Event, nonce: string)
    requires s.mem.state.nodes == map["n" := ENROLLED] && s.nonces == map[] && s.now == NOW && h !in s.handlers
    requires nonce != "" && e.id != "" && e.nodeId == "n"
    ensures var step := Begin(h, Report(e, nonce, 0), NOW, NOW);
      && Enabled(s, step)
      && Next(s, step) ==
         s.(handlers := s.handlers[h := Handler(Report(e, nonce, 0), NOW, NOW, ENROLLED, |s.mem.hist|)])
  {
  }

  /** Two requests of one node overlap; the second is saved and the first then fails to save. The
      log keeps the second event but the node goes back to what it was before it: the view no
      longer is the fold. */
  lemma OverlappingFailureLosesUpdate() returns (states: seq<Instance>, steps: seq<Step>)
    ensures IsRun(states, steps)
    ensures var last := states[|steps|];
      && EventsOf(last.mem.hist) == [Beat("b", "new")] && last.mem.state.reports == [Beat("b", "new")]
      && NodeAfter(last.mem.hist, "n").name == "new" && Lookup(last.mem.state.nodes, "n").name == "old"
  {
    var s1 := Enrolled(NOW);
    states, steps := Grow([START], [], Registering());
    Admitting(s1, 0, Beat("a", "other"), "x");
    states, steps := Grow(states, steps, Begin(0, Report(Beat("a", "other"), "x", 0), NOW, NOW));
    Admitting(states[2], 1, Beat("b", "new"), "y");
    states, steps := Grow(states, steps, Begin(1, Report(Beat("b", "new"), "y", 0), NOW, NOW));
    var s4 := SecondSaved(states[3]);
    states, steps := Grow(states, steps, Finish(1, NOW, NOW, NOW, Saved));
    var s5 := FirstFails(s4);
    states, steps := Grow(states, steps, Finish(0, NOW, NOW, NOW, NotRenamed));
    HistorySaysNew();
  }

  /** One more step of a run. */
  lemma Grow(states: seq<Instance>, steps: seq<Step>, step: Step) returns (more: seq<Instance>, taken: seq<Step>)
    requires IsRun(states, steps) && Enabled(states[|steps|], step)
    ensures IsRun(more, taken)
    ensures more == states + [Next(states[|steps|], step)] && taken == steps + [step]
  {
    RunExtends(states, steps, step);
    more, taken := states + [Next(states[|steps|], step)], steps + [step];
  }

  lemma SecondSaved(s3: Instance) returns (s4: Instance)
    requires s3.mem == Ledger(State(map["n" := ENROLLED], []), [Registered("n", "old", "k")])
    requires s3.nonces == map[] && s3.now == NOW
    requires s3.handlers == map[0 := Handler(Report(Beat("a", "other"), "x", 0), NOW, NOW, ENROLLED, 1),
                                1 := Handler(Report(Beat("b", "new"), "y", 0), NOW, NOW, ENROLLED, 1)]
    ensures Enabled(s3, Finish(1, NOW, NOW, NOW, Saved)) && s4 == Next(s3, Finish(1, NOW, NOW, NOW, Saved))
    ensures s4.mem.hist == [Registered("n", "old", "k"), Reported("n", Beat("b", "new"))]
    ensures s4.mem.state.reports == [Beat("b", "new")] && "n" in s4.mem.state.nodes && s4.now == NOW
    ensures s4.nonces == map[NonceKey("n", "y") := NOW + NONCE_LIFE]
    ensures s4.handlers == map[0 := Handler(Report(Beat("a", "other"), "x", 0), NOW, NOW, ENROLLED, 1)]
  {
    s4 := Next(s3, Finish(1, NOW, NOW, NOW, Saved));
    assert s4.mem.state.reports == [Beat("b", "new")];
  }

  lemma FirstFails(s4: Instance) returns (s5: Instance)
    requires s4.mem.state.reports == [Beat("b", "new")] && "n" in s4.mem.state.nodes && s4.now == NOW
    requires s4.nonces == map[NonceKey("n", "y") := NOW + NONCE_LIFE]
    requires s4.handlers == map[0 := Handler(Report(Beat("a", "other"), "x", 0), NOW, NOW, ENROLLED, 1)]
    ensures Enabled(s4, Finish(0, NOW, NOW, NOW, NotRenamed)) && s5 == Next(s4, Finish(0, NOW, NOW, NOW, NotRenamed))
    ensures s5.mem.hist == s4.mem.hist && s5.mem.state.reports == s4.mem.state.reports
    ensures Lookup(s5.mem.state.nodes, "n").name == "old"
  {
    var x, y := NonceKey("n", "x"), NonceKey("n", "y");
    assert x[2] != y[2];
    s5 := Next(s4, Finish(0, NOW, NOW, NOW, NotRenamed));
  }

  /** What the history of the overlapping requests says. */
  lemma HistorySaysNew()
    ensures var h := [Registered("n", "old", "k"), Reported("n", Beat("b", "new"))];
      EventsOf(h) == [Beat("b", "new")] && NodeAfter(h, "n").name == "new"
  {
    var first, op := Registered("n", "old", "k"), Reported("n", Beat("b", "new"));
    ReplayOfOne(first);
    ReplayStep([first], op);
    ReplayStep([], first);
    assert [] + [first] == [first];
    assert [first] + [op] == [first, op];
  }

  /** A report to an idle server with the node enrolled, fresh, under a nonce that is not in use and
      with an event that is not in the log, is committed. */
  lemma Commits(s: Instance, e: Event, unix: int, arrival: Time, late: Time) returns (t: Instance, u: Instance)
    requires s.handlers == map[] && arrival <= late && s.now <= late && Fresh(arrival, unix)
    requires "n" in s.mem.state.nodes && s.mem.state.nodes["n"].secret == "k" && s.mem.state.nodes["n"].keyVersion == 1
    requires !Live(s.nonces, NonceKey("n", "x"), late)
    requires e.id != "" && e.nodeId == "n" && !HasId(s.mem.state.reports, e.id)
    ensures var begin, finish := Begin(0, Report(e, "x", unix), arrival, late), Finish(0, late, late, late, Saved);
      && Enabled(s, begin) && t == Next(s, begin)
      && 0 in t.handlers && t.handlers[0].request == Report(e, "x", unix) && t.handlers[0].arrival == arrival
      && t.mem == s.mem
      && Enabled(t, finish) && u == Next(t, finish) && Concluded(t, finish).response == Done(false)
  {
    t := Next(s, Begin(0, Report(e, "x", unix), arrival, late));
    assert 0 in t.handlers;
    u := Next(t, Finish(0, late, late, late, Saved));
  }

  /** What the commitment leaves. */
  lemma Committed(t: Instance, late: Time)
    requires var finish := Finish(0, late, late, late, Saved);
      Enabled(t, finish) && t.handlers.Keys == {0} && Concluded(t, finish).response == Done(false)
      && t.handlers[0].request.nodeId == "n" && t.handlers[0].request.nonce == "x"
    requires forall key :: key in t.nonces ==> t.nonces[key] <= late
    requires "n" in t.mem.state.nodes && t.mem.state.nodes["n"].secret == "k" && t.mem.state.nodes["n"].keyVersion == 1
    ensures var finish := Finish(0, late, late, late, Saved);
      var u := Next(t, finish);
      && u.mem == Proposed(t, finish) && u.handlers == map[] && u.now == late
      && (forall key :: key in u.nonces ==> u.nonces[key] <= late + NONCE_LIFE)
      && "n" in u.mem.state.nodes && u.mem.state.nodes["n"].secret == "k" && u.mem.state.nodes["n"].keyVersion == 1
  {
    var finish := Finish(0, late, late, late, Saved);
    FinishShape(t, finish);
    assert t.handlers - {0} == map[];
  }

  /** A report that was fresh at its arrival is committed at the given time. */
  lemma FirstCommitted(unix: int, arrival: Time, stamp: Time) returns (states: seq<Instance>, steps: seq<Step>)
    requires arrival <= stamp && Fresh(arrival, unix)
    ensures IsRun(states, steps) && |steps| == 3
    ensures steps[2] == Finish(0, stamp, stamp, stamp, Saved) && Concluded(states[2], steps[2]).response == Done(false)
    ensures 0 in states[2].handlers && states[2].handlers[0].request == Report(Beat("a", ""), "x", unix)
    ensures states[2].handlers[0].arrival == arrival
    ensures var u := states[3];
      && u.handlers == map[] && u.now == stamp && u.mem.state.reports == [Beat("a", "")]
      && (forall key :: key in u.nonces ==> u.nonces[key] <= stamp + NONCE_LIFE)
      && "n" in u.mem.state.nodes && u.mem.state.nodes["n"].secret == "k" && u.mem.state.nodes["n"].keyVersion == 1
  {
    var s1 := Enrolled(stamp);
    var s2, s3 := Commits(s1, Beat("a", ""), unix, arrival, stamp);
    Committed(s2, stamp);
    assert s3.mem.state.reports == [Beat("a", "")];
    states, steps := Grow([StartAt(stamp)], [], Registering());
    states, steps := Grow(states, steps, Begin(0, Report(Beat("a", ""), "x", unix), arrival, stamp));
    states, steps := Grow(states, steps, Finish(0, stamp, stamp, stamp, Saved));
  }

  /** In one lifetime of the server, step `j` committed a report at `stamp`, and step `i` commits a
      report with the same node, nonce and timestamp that has spent this long between its checks. */
  ghost predicate Reused(states: seq<Instance>, steps: seq<Step>, j: nat, i: nat, unix: int, stamp: Time, spent: Time) {
    && IsRun(states, steps) && i < |steps| && steps[i].Finish?
    && CommittedAt(states, steps, j, i, KeyOf(states[i], steps[i]))
    && TimestampOf(states[j], steps[j]) == TimestampOf(states[i], steps[i]) == Some(unix)
    && steps[j].stamp == stamp && Spent(states[i], steps[i]) == spent
    && Concluded(states[i], steps[i]).response == Done(false)
  }

  /** A timestamp that is fresh at the arrivals of two requests, the second of which is checked ten
      minutes after the first was committed or later. The second carries another event. */
  lemma TwoCommitted(unix: int, arrival: Time, stamp: Time, again: Time, late: Time)
    returns (states: seq<Instance>, steps: seq<Step>)
    requires arrival <= stamp && Fresh(arrival, unix) && again <= late && Fresh(again, unix)
    requires stamp + NONCE_LIFE <= late
    ensures Reused(states, steps, 2, 4, unix, stamp, late - again)
    ensures states[2].handlers[steps[2].h].arrival == arrival && steps[4].check == late
  {
    states, steps := FirstCommitted(unix, arrival, stamp);
    var s4, s5 := Commits(states[3], Beat("b", ""), unix, again, late);
    states, steps := Grow(states, steps, Begin(0, Report(Beat("b", ""), "x", unix), again, late));
    states, steps := Grow(states, steps, Finish(0, late, late, late, Saved));
    assert CommittedAt(states, steps, 2, 4, NonceKey("n", "x"));
  }

  /** Where the replay window ends: for every timestamp, time of commitment and time spent between the
      checks, some run commits a second report with the same node, nonce and timestamp, if and only if
      that time and the lead of the timestamp over the clock at the commitment are at least five
      minutes together. */
  lemma NonceReusedExactlyWhen(unix: int, stamp: Time, spent: Time)
    requires spent >= 0
    ensures (exists states, steps, j: nat, i: nat :: Reused(states, steps, j, i, unix, stamp, spent))
            <==> spent + (UnixTime(unix) - stamp) >= 300_000_000_000
  {
    if spent + (UnixTime(unix) - stamp) >= FRESHNESS {
      var lead := UnixTime(unix) - stamp;
      var arrival := if lead < 0 then UnixTime(unix)
                     else if lead <= FRESHNESS || lead >= -MIN_DURATION then stamp
                     else UnixTime(unix) + MIN_DURATION;
      var again := UnixTime(unix) + FRESHNESS;
      FreshExactlyWhen(arrival, unix);
      FreshExactlyWhen(again, unix);
      var states, steps := TwoCommitted(unix, arrival, stamp, again, again + spent);
      assert Reused(states, steps, 2, 4, unix, stamp, spent);
    }
    if states, steps, j: nat, i: nat :| Reused(states, steps, j, i, unix, stamp, spent) {
      if spent + (UnixTime(unix) - stamp) < FRESHNESS { ReplayRefused(states, steps, j, i, unix); }
    }
  }

  /** At the edge of the window: a timestamp up to five minutes ahead, and a request that takes from
      its freshness check to its second section exactly as long as the timestamp falls short of that. */
  lemma FarTimestampReusesNonce(unix: nat) returns (states: seq<Instance>, steps: seq<Step>)
    requires unix <= 300
    ensures Reused(states, steps, 2, 4, unix, NOW, (300 - unix) * 1_000_000_000)
    ensures states[2].handlers[steps[2].h].arrival == NOW
  {
    var again := UnixTime(unix) + FRESHNESS;
    FreshExactlyWhen(NOW, unix);
    FreshExactlyWhen(again, unix);
    states, steps := TwoCommitted(unix, NOW, NOW, again, NOW + NONCE_LIFE);
  }

  /** A timestamp whose difference from the clock saturates is fresh as long as it does: both requests
      are checked at once, ten minutes apart. */
  lemma SaturatedTimestampReusesNonce(unix: int) returns (states: seq<Instance>, steps: seq<Step>)
    requires unix >= 9_300_000_000
    ensures Reused(states, steps, 2, 4, unix, NOW, 0)
    ensures states[2].handlers[steps[2].h].arrival == NOW && steps[4].check == NOW + 600_000_000_000
  {
    FreshExactlyWhen(NOW, unix);
    FreshExactlyWhen(NOW + NONCE_LIFE, unix);
    states, steps := TwoCommitted(unix, NOW, NOW, NOW + NONCE_LIFE, NOW + NONCE_LIFE);
  }

  /** A save renames without syncing, and the server restarts: it now has the event in memory, and
      a power loss may leave a file without it. */
  lemma UnsyncedThenRestarted() returns (states: seq<Instance>, steps: seq<Step>, left: Ledger)
    ensures IsRun(states, steps) && |steps| == 4
    ensures var s := states[4];
      && s.nonces == map[] && s.handlers == map[] && s.now == NOW
      && left in s.file.survivors && left.hist == [Registered("n", "old", "k")]
      && s.mem.hist == left.hist + [Reported("n", Beat("a", ""))] && s.mem.state.reports == [Beat("a", "")]
      && s.mem.state.nodes == map["n" := FoldNode(ENROLLED, Beat("a", ""))]
  {
    var s1 := Enrolled(NOW);
    left := s1.mem;
    Admitting(s1, 0, Beat("a", ""), "x");
    var two, three := Begin(0, Report(Beat("a", ""), "x", 0), NOW, NOW), Finish(0, NOW, NOW, NOW, RenamedOnly);
    var s2 := Next(s1, two);
    var s3 := Next(s2, three);
    assert s3.file.visible.state.nodes == map["n" := FoldNode(ENROLLED, Beat("a", ""))];
    assert s3.file.visible.state.reports == [Beat("a", "")];
    states, steps := Grow([START], [], Registering());
    states, steps := Grow(states, steps, two);
    states, steps := Grow(states, steps, three);
    states, steps := Grow(states, steps, Restart);
  }

  /** The retry is then answered as a duplicate, and a power loss takes the acknowledged event away. */
  lemma AcknowledgedEventLost() returns (states: seq<Instance>, steps: seq<Step>)
    ensures IsRun(states, steps) && |steps| == 7
    ensures steps[5].Finish? && Concluded(states[5], steps[5]).response.Done?
    ensures OpOf(states[5], steps[5]).event == Beat("a", "")
    ensures Exposed(states[6]) && !HasId(EventsOf(states[7].mem.hist), "a")
  {
    var left: Ledger;
    states, steps, left := UnsyncedThenRestarted();
    var s4 := states[4];
    var six := Finish(0, NOW, NOW, NOW, Saved);
    states, steps := Grow(states, steps, Begin(0, Report(Beat("a", ""), "x", 0), NOW, NOW));
    assert states[5].mem.state.reports[0].id == "a";
    states, steps := Grow(states, steps, six);
    assert states[6].mem == s4.mem && left in states[6].file.survivors;
    ReplayStep(left.hist, Reported("n", Beat("a", "")));
    ReplayStep([], Registered("n", "old", "k"));
    assert [] + [Registered("n", "old", "k")] == left.hist;
    assert EventsOf(left.hist) == [] && EventsOf(s4.mem.hist) == [] + [Beat("a", "")];
    assert EventsOf(s4.mem.hist)[0] == Beat("a", "");
    assert Beat("a", "") in EventsOf(s4.mem.hist) && Lacks(left, s4.mem);
    states, steps := Grow(states, steps, PowerLoss(left));
  }

  // ---------------------------------------------------------------- late retries

  /** A server at rest at the start of minute `10 * k` of 1970, with node `n` enrolled and no nonce
      in use. */
  ghost predicate AtRest(s: Instance, k: nat) {
    && s.handlers == map[] && s.now <= UnixTime(600 * k)
    && (forall key :: key in s.nonces ==> s.nonces[key] <= UnixTime(600 * k))
    && "n" in s.mem.state.nodes && s.mem.state.nodes["n"].secret == "k" && s.mem.state.nodes["n"].keyVersion == 1
  }

  /** One report is accepted, and ten minutes pass. */
  lemma AcceptOne(states: seq<Instance>, steps: seq<Step>, k: nat, id: string)
    returns (more: seq<Instance>, taken: seq<Step>)
    requires IsRun(states, steps) && AtRest(states[|steps|], k)
    requires id != "" && !HasId(states[|steps|].mem.state.reports, id)
    ensures IsRun(more, taken) && AtRest(more[|taken|], k + 1)
    ensures EventsOf(more[|taken|].mem.hist) == EventsOf(states[|steps|].mem.hist) + [Beat(id, "")]
  {
    var s := states[|steps|];
    var t := UnixTime(600 * k);
    FreshExactlyWhen(t, 600 * k);
    assert UnixTime(600 * (k + 1)) == t + NONCE_LIFE;
    var s1, s2 := Commits(s, Beat(id, ""), 600 * k, t, t);
    Committed(s1, t);
    ReplayStep(s.mem.hist, Reported("n", Beat(id, "")));
    more, taken := Grow(states, steps, Begin(0, Report(Beat(id, ""), "x", 600 * k), t, t));
    more, taken := Grow(more, taken, Finish(0, t, t, t, Saved));
  }

  /** The accepted events are the first `k` of a numbered series. */
  ghost predicate Numbered(events: seq<Event>, k: nat) {
    |events| == k && forall j :: 0 <= j < k ==> events[j] == Beat(Decimal(j), "")
  }

  lemma NumberedAreDistinct(events: seq<Event>, k: nat)
    requires Numbered(events, k)
    ensures DistinctIds(events) && !HasId(events, Decimal(k))
  {
    forall i, j | 0 <= i < j < k ensures events[i].id != events[j].id {
      if Decimal(i) == Decimal(j) { DecimalInjective(i, j); }
    }
    forall i | 0 <= i < k ensures events[i].id != Decimal(k) {
      if Decimal(i) == Decimal(k) { DecimalInjective(i, k); }
    }
  }

  lemma AcceptNone() returns (states: seq<Instance>, steps: seq<Step>)
    ensures IsRun(states, steps) && AtRest(states[|steps|], 0) && EventsOf(states[|steps|].mem.hist) == []
  {
    var s := Enrolled(NOW);
    states, steps := Grow([START], [], Registering());
    ReplayStep([], Registered("n", "old", "k"));
    assert [] + [Registered("n", "old", "k")] == s.mem.hist;
  }

  lemma AcceptNext(states: seq<Instance>, steps: seq<Step>, k: nat) returns (more: seq<Instance>, taken: seq<Step>)
    requires IsRun(states, steps) && AtRest(states[|steps|], k) && Numbered(EventsOf(states[|steps|].mem.hist), k)
    ensures IsRun(more, taken) && AtRest(more[|taken|], k + 1) && Numbered(EventsOf(more[|taken|].mem.hist), k + 1)
  {
    NumberedAreDistinct(EventsOf(states[|steps|].mem.hist), k);
    RunKeepsInv(states, steps, |steps|);
    NotLogged(states[|steps|], Decimal(k));
    more, taken := AcceptOne(states, steps, k, Decimal(k));
  }

  /** As many different events as one likes are accepted. */
  lemma {:induction false} AcceptMany(k: nat) returns (states: seq<Instance>, steps: seq<Step>)
    ensures IsRun(states, steps) && AtRest(states[|steps|], k)
    ensures Numbered(EventsOf(states[|steps|].mem.hist), k)
  {
    if k == 0 {
      states, steps := AcceptNone();
    } else {
      states, steps := AcceptMany(k - 1);
      states, steps := AcceptNext(states, steps, k - 1);
    }
  }

  lemma NotLogged(s: Instance, id: string)
    requires Inv(s) && !HasId(EventsOf(s.mem.hist), id)
    ensures !HasId(s.mem.state.reports, id)
  {
    if HasId(s.mem.state.reports, id) { LoggedWasAccepted(EventsOf(s.mem.hist), id); }
  }

  /** The event log forgets: for every number of acceptances of other events from 10000 on, there is
      a run in which the event that came before them is retried after them and folded in again. */
  lemma LateRetryFoldsTwice(others: nat) returns (states: seq<Instance>, steps: seq<Step>)
    requires others >= 10000
    ensures IsRun(states, steps)
    ensures var events := EventsOf(states[|steps|].mem.hist);
      && |events| == others + 2 && events[0] == events[others + 1]
      && forall i, j :: 0 <= i < j <= others ==> events[i].id != events[j].id
  {
    states, steps := AcceptMany(others + 1);
    var s := states[|steps|];
    var events := EventsOf(s.mem.hist);
    NumberedAreDistinct(events, others + 1);
    RunKeepsInv(states, steps, |steps|);
    LoggedWhileRecent(s, 0);
    states, steps := AcceptOne(states, steps, others + 1, Decimal(0));
  }
}
