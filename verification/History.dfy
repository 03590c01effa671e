/** The monitor's state as a function of its history: the registrations and the accepted events,
    in the order in which they were accepted. */
module History {
  import opened Monitor
  import opened Wrappers

  datatype Op = Registered(id: string, name: string, secret: string) | Reported(nodeId: string, event: Event)

  function Apply(s: State, op: Op): State {
    match op
    case Registered(id, name, secret) => State(RegisterNode(s.nodes, id, name, secret), s.reports)
    case Reported(nodeId, e) => Accept(s, nodeId, e)
  }

  /** The state reached from nothing. */
  function Replay(h: seq<Op>): State {
    if h == [] then EMPTY else Apply(Replay(h[..|h| - 1]), h[|h| - 1])
  }

  function EventsOf(h: seq<Op>): seq<Event> {
    if h == [] then []
    else EventsOf(h[..|h| - 1]) + (if h[|h| - 1].Reported? then [h[|h| - 1].event] else [])
  }

  lemma ReplayStep(h: seq<Op>, op: Op)
    ensures Replay(h + [op]) == Apply(Replay(h), op)
    ensures EventsOf(h + [op]) == EventsOf(h) + (if op.Reported? then [op.event] else [])
  {
    assert (h + [op])[..|h|] == h;
  }

  lemma EventsOfOneMore(h: seq<Op>, op: Op)
    ensures EventsOf(h + [op]) == EventsOf(h) + (if op.Reported? then [op.event] else [])
  {
    ReplayStep(h, op);
  }

  lemma {:induction false} EventsOfConcat(h: seq<Op>, k: seq<Op>)
    ensures EventsOf(h + k) == EventsOf(h) + EventsOf(k)
  {
    if k == [] {
      assert h + k == h;
    } else {
      var first, last := k[..|k| - 1], k[|k| - 1];
      EventsOfConcat(h, first);
      assert h + k == (h + first) + [last] && k == first + [last];
      EventsOfOneMore(h + first, last);
      EventsOfOneMore(first, last);
    }
  }

  // ---------------------------------------------------------------- the report log

  lemma NewestAgain(events: seq<Event>, e: Event)
    ensures Newest(Newest(events) + [e]) == Newest(events + [e])
  {
    var n := |events|;
    if n > LOG_LIMIT {
      var kept := events[n - LOG_LIMIT..];
      assert (kept + [e])[1..] == (events + [e])[n + 1 - LOG_LIMIT..];
    }
  }

  /** The log is the newest part of the accepted events. */
  lemma {:induction false} LogIsNewest(h: seq<Op>)
    ensures Replay(h).reports == Newest(EventsOf(h))
    ensures |EventsOf(h)| <= 10000 ==> Replay(h).reports == EventsOf(h)
    ensures |EventsOf(h)| > 10000 ==> Replay(h).reports == EventsOf(h)[|EventsOf(h)| - 10000..]
  {
    if h != [] {
      LogIsNewest(h[..|h| - 1]);
      if h[|h| - 1].Reported? {
        NewestAgain(EventsOf(h[..|h| - 1]), h[|h| - 1].event);
      } else {
        assert EventsOf(h) == EventsOf(h[..|h| - 1]);
      }
    }
  }

  // ---------------------------------------------------------------- the view of one job

  predicate Concerns(op: Op, node: string, job: string) {
    op.Reported? && op.nodeId == node && op.event.job.Some? && op.event.job.value.id == job
  }

  /** The accepted events about one job of one node. */
  function JobEvents(h: seq<Op>, node: string, job: string): (evs: seq<Event>)
    ensures forall e :: e in evs ==> e.job.Some?
  {
    if h == [] then []
    else JobEvents(h[..|h| - 1], node, job) + (if Concerns(h[|h| - 1], node, job) then [h[|h| - 1].event] else [])
  }

  predicate HasRun(e: Event) { e.run.Some? }
  predicate IsFailure(e: Event) { e.run.Some? && e.run.value.status == "failed" }
  predicate IsClosing(e: Event) { e.run.Some? && e.run.value.status in {"success", "warning"} }
  predicate HasNext(e: Event) { e.job.Some? && e.job.value.nextExpectedAt.Some? }

  /** `i` is the position of the last event with the property. */
  ghost predicate LastSuch(evs: seq<Event>, i: int, p: Event -> bool) {
    0 <= i < |evs| && p(evs[i]) && forall j :: i < j < |evs| ==> !p(evs[j])
  }

  ghost predicate NoSuch(evs: seq<Event>, p: Event -> bool) {
    forall j :: 0 <= j < |evs| ==> !p(evs[j])
  }

  /** The events from `cut` on are those since the last success or warning. */
  ghost predicate SinceClosing(evs: seq<Event>, cut: nat) {
    cut <= |evs| && (cut > 0 ==> IsClosing(evs[cut - 1])) && forall j :: cut <= j < |evs| ==> !IsClosing(evs[j])
  }

  function Failures(evs: seq<Event>): nat {
    if evs == [] then 0 else Failures(evs[..|evs| - 1]) + (if IsFailure(evs[|evs| - 1]) then 1 else 0)
  }

  /** What the panel shows of a job, said about its events without folding them. */
  ghost predicate Summarises(js: JobState, evs: seq<Event>)
    requires evs != [] && forall e :: e in evs ==> e.job.Some?
  {
    var last := evs[|evs| - 1].job.value;
    && js.name == last.name && js.graceSeconds == last.graceSeconds
    && (forall i :: LastSuch(evs, i, HasRun) ==>
          js.status == evs[i].run.value.status && js.lastAttempt == evs[i].run.value.startedAt)
    && (NoSuch(evs, HasRun) ==> js.status == "" && js.lastAttempt == 0)
    && (forall i :: LastSuch(evs, i, IsClosing) ==> js.lastSuccess == evs[i].occurredAt)
    && (NoSuch(evs, IsClosing) ==> js.lastSuccess == 0)
    && (forall i :: LastSuch(evs, i, HasNext) ==> js.nextExpected == evs[i].job.value.nextExpectedAt.value)
    && (NoSuch(evs, HasNext) ==> js.nextExpected == 0)
    && (forall cut: nat :: SinceClosing(evs, cut) ==> js.consecutiveFailures == Failures(evs[cut..]))
  }

  function FoldJobs(evs: seq<Event>): JobState
    requires forall e :: e in evs ==> e.job.Some?
  {
    if evs == [] then ZERO_JOB
    else FoldJob(FoldJobs(evs[..|evs| - 1]), evs[|evs| - 1].job.value, evs[|evs| - 1])
  }

  /** One step changes the entry of exactly the job that its event is about. */
  lemma ApplyToJob(s: State, op: Op, node: string, job: string)
    ensures var a, b := Lookup(s.nodes, node), Lookup(Apply(s, op).nodes, node);
      && (job in Jobs(b) <==> job in Jobs(a) || Concerns(op, node, job))
      && (job in Jobs(b) ==>
            Jobs(b)[job] == if Concerns(op, node, job) then FoldJob(JobBefore(a, job), op.event.job.value, op.event)
                            else Jobs(a)[job])
  {
    var a := Lookup(s.nodes, node);
    match op
    case Registered(id, name, secret) =>
    case Reported(id, e) =>
      if id == node { assert Lookup(Apply(s, op).nodes, node) == FoldNode(a, e); }
  }

  /** Every entry of the view is the fold of that job's own events, and there is one exactly for
      the jobs that some accepted event was about. */
  lemma {:induction false} ViewIsFold(h: seq<Op>, node: string, job: string)
    ensures var jobs, evs := Jobs(Lookup(Replay(h).nodes, node)), JobEvents(h, node, job);
      && (job in jobs <==> evs != [])
      && (job in jobs ==> jobs[job] == FoldJobs(evs))
  {
    if h != [] {
      var before, op := h[..|h| - 1], h[|h| - 1];
      ViewIsFold(before, node, job);
      ApplyToJob(Replay(before), op, node, job);
      var evs := JobEvents(before, node, job);
      if Concerns(op, node, job) {
        FoldOneMore(evs, op.event);
      } else {
        assert evs + [] == evs;
      }
    }
  }

  lemma FoldOneMore(evs: seq<Event>, e: Event)
    requires e.job.Some? && forall x :: x in evs ==> x.job.Some?
    ensures FoldJobs(evs + [e]) == FoldJob(FoldJobs(evs), e.job.value, e)
  {
    assert (evs + [e])[..|evs|] == evs;
  }

  /** The last event with the property, found from the end. */
  function FindLast(evs: seq<Event>, p: Event -> bool): Option<Event> {
    if evs == [] then None
    else if p(evs[|evs| - 1]) then Some(evs[|evs| - 1])
    else FindLast(evs[..|evs| - 1], p)
  }

  lemma {:induction false} FindLastFinds(evs: seq<Event>, p: Event -> bool)
    ensures FindLast(evs, p).None? <==> NoSuch(evs, p)
    ensures forall i :: LastSuch(evs, i, p) ==> FindLast(evs, p) == Some(evs[i])
    ensures FindLast(evs, p).Some? ==> p(FindLast(evs, p).value)
  {
    if evs != [] && !p(evs[|evs| - 1]) {
      var before := evs[..|evs| - 1];
      FindLastFinds(before, p);
      forall i | LastSuch(evs, i, p) ensures LastSuch(before, i, p) && before[i] == evs[i] {
        assert i != |evs| - 1;
      }
      assert FindLast(before, p).None? ==> forall j :: 0 <= j < |before| ==> !p(before[j]) && before[j] == evs[j];
      if NoSuch(evs, p) { assert forall j :: 0 <= j < |before| ==> before[j] == evs[j]; }
    }
  }

  /** Failures counted from the end back to the last success or warning. */
  function FailuresSinceClosing(evs: seq<Event>): nat {
    if evs == [] || IsClosing(evs[|evs| - 1]) then 0
    else FailuresSinceClosing(evs[..|evs| - 1]) + (if IsFailure(evs[|evs| - 1]) then 1 else 0)
  }

  lemma {:induction false} CountIsAfterCut(evs: seq<Event>, cut: nat)
    requires SinceClosing(evs, cut)
    ensures FailuresSinceClosing(evs) == Failures(evs[cut..])
  {
    if cut < |evs| {
      var before := evs[..|evs| - 1];
      assert SinceClosing(before, cut);
      CountIsAfterCut(before, cut);
      assert evs[cut..][..|evs[cut..]| - 1] == before[cut..];
      assert evs[cut..][|evs[cut..]| - 1] == evs[|evs| - 1];
    }
  }

  /** One step of the fold, field by field. */
  ghost predicate FieldsAre(js: JobState, evs: seq<Event>) {
    && (match FindLast(evs, HasRun)
        case None => js.status == "" && js.lastAttempt == 0
        case Some(e) => e.run.Some? && js.status == e.run.value.status && js.lastAttempt == e.run.value.startedAt)
    && js.lastSuccess == (match FindLast(evs, IsClosing) case None => 0 case Some(e) => e.occurredAt)
    && (match FindLast(evs, HasNext)
        case None => js.nextExpected == 0
        case Some(e) => HasNext(e) && js.nextExpected == e.job.value.nextExpectedAt.value)
    && js.consecutiveFailures == FailuresSinceClosing(evs)
  }

  lemma FieldsStep(js: JobState, evs: seq<Event>, e: Event)
    requires FieldsAre(js, evs) && e.job.Some?
    ensures FieldsAre(FoldJob(js, e.job.value, e), evs + [e])
  {
    var longer := evs + [e];
    assert longer[..|longer| - 1] == evs && longer[|longer| - 1] == e;
  }

  lemma {:induction false} FoldJobsIs(evs: seq<Event>)
    requires forall e :: e in evs ==> e.job.Some?
    ensures FieldsAre(FoldJobs(evs), evs)
  {
    if evs != [] {
      var before, e := evs[..|evs| - 1], evs[|evs| - 1];
      assert e in evs && forall x :: x in before ==> x in evs;
      FoldJobsIs(before);
      FieldsStep(FoldJobs(before), before, e);
      assert before + [e] == evs;
    }
  }

  lemma FoldSummarises(evs: seq<Event>)
    requires evs != [] && forall e :: e in evs ==> e.job.Some?
    ensures Summarises(FoldJobs(evs), evs)
  {
    FoldJobsIs(evs);
    assert evs[|evs| - 1] in evs;
    FindLastFinds(evs, HasRun);
    FindLastFinds(evs, IsClosing);
    FindLastFinds(evs, HasNext);
    forall cut: nat | SinceClosing(evs, cut) ensures FailuresSinceClosing(evs) == Failures(evs[cut..]) {
      CountIsAfterCut(evs, cut);
    }
  }

  /** The view of a job after any history: what its last events said, when it last succeeded, and
      as many consecutive failures as it had since its last success or warning. */
  lemma JobViewSummarisesHistory(h: seq<Op>, node: string, job: string)
    requires job in Jobs(Lookup(Replay(h).nodes, node))
    ensures JobEvents(h, node, job) != []
    ensures Summarises(Jobs(Lookup(Replay(h).nodes, node))[job], JobEvents(h, node, job))
  {
    ViewIsFold(h, node, job);
    FoldSummarises(JobEvents(h, node, job));
  }

  // ---------------------------------------------------------------- the view of one node

  predicate Registers(op: Op, node: string) {
    op.Registered? && op.id == node
  }

  /** A registration of the node. */
  function Enrolling(node: string): Op -> bool {
    op => Registers(op, node)
  }

  /** A registration of the node, or an accepted event about it that carries a name. */
  function Naming(node: string): Op -> bool {
    (op: Op) => Registers(op, node) || (op.Reported? && op.nodeId == node && op.event.nodeName != "")
  }

  /** An accepted heartbeat of the node. */
  function Beating(node: string): Op -> bool {
    (op: Op) => op.Reported? && op.nodeId == node && op.event.kind == "node.heartbeat"
  }

  /** `i` is the position of the last operation with the property. */
  ghost predicate LastOp(h: seq<Op>, i: int, p: Op -> bool) {
    0 <= i < |h| && p(h[i]) && forall j :: i < j < |h| ==> !p(h[j])
  }

  ghost predicate NoOp(h: seq<Op>, p: Op -> bool) {
    forall j :: 0 <= j < |h| ==> !p(h[j])
  }

  ghost predicate BeatShows(n: Node, h: seq<Op>, node: string) {
    && (forall i {:trigger LastOp(h, i, Beating(node))} :: LastOp(h, i, Beating(node)) ==>
          h[i].Reported? && n.lastHeartbeat == h[i].event.occurredAt)
    && (NoOp(h, Beating(node)) ==> n.lastHeartbeat == 0)
  }

  ghost predicate NameShows(n: Node, h: seq<Op>, node: string) {
    && (forall i {:trigger LastOp(h, i, Naming(node))} :: LastOp(h, i, Naming(node)) ==>
          n.name == if h[i].Registered? then h[i].name else h[i].event.nodeName)
    && (NoOp(h, Naming(node)) ==> n.name == "")
  }

  ghost predicate KeyShows(n: Node, h: seq<Op>, node: string) {
    && (forall i {:trigger LastOp(h, i, Enrolling(node))} :: LastOp(h, i, Enrolling(node)) ==>
          h[i].Registered? && n.id == node && n.secret == h[i].secret && n.keyVersion == 1)
    && (NoOp(h, Enrolling(node)) ==> n.id == "" && n.secret == "" && n.keyVersion == 0)
  }

  /** What is shown of a node, said about the history without folding it. */
  ghost predicate NodeShows(n: Node, h: seq<Op>, node: string) {
    BeatShows(n, h, node) && NameShows(n, h, node) && KeyShows(n, h, node)
  }

  /** One more operation is the last of its kind, or leaves the last of that kind where it was. */
  lemma LastOpStep(h: seq<Op>, op: Op, p: Op -> bool)
    ensures p(op) ==> !NoOp(h + [op], p) && forall i :: LastOp(h + [op], i, p) ==> i == |h|
    ensures !p(op) ==> (NoOp(h + [op], p) <==> NoOp(h, p))
    ensures !p(op) ==> forall i :: LastOp(h + [op], i, p) ==> LastOp(h, i, p)
  {
    var more := h + [op];
    assert more[|h|] == op && forall j :: 0 <= j < |h| ==> more[j] == h[j];
  }

  /** What one operation does to a node, apart from its jobs. */
  ghost predicate Changes(a: Node, b: Node, op: Op, node: string) {
    && b.lastHeartbeat == (if Beating(node)(op) then op.event.occurredAt else a.lastHeartbeat)
    && b.name == (if !Naming(node)(op) then a.name else if op.Registered? then op.name else op.event.nodeName)
    && (if Enrolling(node)(op) then b.id == node && b.secret == op.secret && b.keyVersion == 1
        else b.id == a.id && b.secret == a.secret && b.keyVersion == a.keyVersion)
  }

  lemma ApplyToNode(s: State, op: Op, node: string)
    ensures Changes(Lookup(s.nodes, node), Lookup(Apply(s, op).nodes, node), op, node)
  {
  }

  lemma ShowsStep(a: Node, b: Node, h: seq<Op>, op: Op, node: string)
    requires NodeShows(a, h, node) && Changes(a, b, op, node)
    ensures NodeShows(b, h + [op], node)
  {
    BeatStep(a, b, h, op, node);
    NameStep(a, b, h, op, node);
    KeyStep(a, b, h, op, node);
  }

  lemma BeatStep(a: Node, b: Node, h: seq<Op>, op: Op, node: string)
    requires BeatShows(a, h, node)
    requires b.lastHeartbeat == if Beating(node)(op) then op.event.occurredAt else a.lastHeartbeat
    ensures BeatShows(b, h + [op], node)
  {
    LastOpStep(h, op, Beating(node));
  }

  lemma NameStep(a: Node, b: Node, h: seq<Op>, op: Op, node: string)
    requires NameShows(a, h, node)
    requires b.name == if !Naming(node)(op) then a.name else if op.Registered? then op.name else op.event.nodeName
    ensures NameShows(b, h + [op], node)
  {
    LastOpStep(h, op, Naming(node));
  }

  lemma KeyStep(a: Node, b: Node, h: seq<Op>, op: Op, node: string)
    requires KeyShows(a, h, node)
    requires if Enrolling(node)(op) then b.id == node && b.secret == op.secret && b.keyVersion == 1
             else b.id == a.id && b.secret == a.secret && b.keyVersion == a.keyVersion
    ensures KeyShows(b, h + [op], node)
  {
    LastOpStep(h, op, Enrolling(node));
  }

  /** What the history says of a node. */
  function NodeAfter(h: seq<Op>, id: string): Node {
    Lookup(Replay(h).nodes, id)
  }

  lemma NodeViewStep(h: seq<Op>, op: Op, longer: seq<Op>, node: string)
    requires NodeShows(NodeAfter(h, node), h, node) && longer == h + [op]
    ensures NodeShows(NodeAfter(longer, node), longer, node)
  {
    ReplayStep(h, op);
    ApplyToNode(Replay(h), op, node);
    ShowsStep(NodeAfter(h, node), NodeAfter(longer, node), h, op, node);
  }

  lemma NoOperations(node: string)
    ensures NodeShows(NodeAfter([], node), [], node)
  {
  }

  /** The view of a node after any history: its heartbeat is the time of the last accepted heartbeat
      of that node, its name the one that was given last, its key that of the last registration. */
  lemma {:induction false} NodeViewSummarisesHistory(h: seq<Op>, node: string)
    ensures NodeShows(NodeAfter(h, node), h, node)
  {
    if h == [] {
      NoOperations(node);
    } else {
      var before := h[..|h| - 1];
      NodeViewSummarisesHistory(before, node);
      NodeViewStep(before, h[|h| - 1], h, node);
    }
  }
}
