/** The monitor server: what one report request does to the nodes, the report log and the nonces
    in its two critical sections, and what registering a node does. */
module Monitor {
  import opened Text
  import opened Wrappers

  /** Nanoseconds since the zero value of Go's `time.Time`, the start of the year 1, so that value is 0. */
  type Time = int

  const SECOND: Time := 1_000_000_000

  /** The start of 1970, from which `time.Unix` counts. */
  const UNIX_EPOCH: Time := 62_135_596_800 * SECOND

  function UnixTime(unix: int): Time {
    UNIX_EPOCH + unix * SECOND
  }

  const MINUTE: Time := 60 * SECOND
  const FRESHNESS: Time := 5 * MINUTE
  const NONCE_LIFE: Time := 10 * MINUTE
  const MIN_DURATION: int := -0x8000_0000_0000_0000
  const MAX_DURATION: int := 0x7FFF_FFFF_FFFF_FFFF
  const LOG_LIMIT: nat := 10000

  datatype RunInfo = RunInfo(status: string, startedAt: Time)
  datatype JobInfo = JobInfo(id: string, name: string, graceSeconds: int, nextExpectedAt: Option<Time>)
  datatype Event = Event(id: string, kind: string, occurredAt: Time, nodeId: string, nodeName: string,
                         job: Option<JobInfo>, run: Option<RunInfo>)

  datatype JobState = JobState(name: string, status: string, lastAttempt: Time, lastSuccess: Time,
                               nextExpected: Time, consecutiveFailures: int, graceSeconds: int)

  /** `jobs` is `None` for a nil map, into which Go must not write. */
  datatype Node = Node(id: string, name: string, secret: string, keyVersion: int, lastHeartbeat: Time,
                       jobs: Option<map<string, JobState>>)

  datatype State = State(nodes: map<string, Node>, reports: seq<Event>)

  const ZERO_JOB := JobState("", "", 0, 0, 0, 0, 0)
  const ZERO_NODE := Node("", "", "", 0, 0, None)
  const EMPTY := State(map[], [])

  /** A request as it arrives. Parsing and cryptography are inputs: `timestamp` and `keyVersion` are
      `None` when they do not parse, `signer` is the stored secret under which the signature is
      valid, and `event` is `None` when the body is not an event. `exchange` names the HTTP
      exchange and is not read by the server. */
  datatype Request = Request(isPost: bool, tooLarge: bool, readable: bool, nodeId: string, nonce: string,
                             timestamp: Option<int>, keyVersion: Option<int>, signed: bool,
                             signer: Option<string>, event: Option<Event>, exchange: nat)

  datatype Response = Done(duplicate: bool) | Refused(status: int)

  datatype Admission = Rejected(status: int) | Admitted(snapshot: Node)

  /** How saving the state file ended: with an error before the rename, with an error after it, or well. */
  datatype SaveOutcome = NotRenamed | RenamedOnly | Saved

  // ---------------------------------------------------------------- clock arithmetic

  /** `time.Since(time.Unix(unix, 0))`, which saturates at the ends of the 64-bit range. */
  function Since(now: Time, unix: int): (d: int)
    ensures MIN_DURATION <= d <= MAX_DURATION
  {
    var d := now - UnixTime(unix);
    if d < MIN_DURATION then MIN_DURATION else if d > MAX_DURATION then MAX_DURATION else d
  }

  /** `abs`: negating the smallest duration wraps around to itself. */
  function Abs(d: int): int {
    if d < 0 then (if d == MIN_DURATION then MIN_DURATION else -d) else d
  }

  predicate Fresh(now: Time, unix: int) {
    Abs(Since(now, unix)) <= FRESHNESS
  }

  /** The freshness check admits five minutes on either side, and, because of the wrap-around,
      every timestamp so far ahead that the difference saturates. */
  lemma FreshExactlyWhen(now: Time, unix: int)
    ensures Fresh(now, unix) <==>
            || -300_000_000_000 <= now - UnixTime(unix) <= 300_000_000_000
            || now - UnixTime(unix) <= -0x8000_0000_0000_0000
    ensures UnixTime(unix) == (62_135_596_800 + unix) * 1_000_000_000
  {
  }

  /** At the start of 1970 a timestamp of the year 2264 is fresh. */
  lemma SaturatedIsFresh()
    ensures Fresh(UNIX_EPOCH, 9_300_000_000)
  {
    FreshExactlyWhen(UNIX_EPOCH, 9_300_000_000);
  }

  // ---------------------------------------------------------------- first critical section

  function NonceKey(nodeId: string, nonce: string): string {
    nodeId + ":" + nonce
  }

  /** Nonces of nodes without a colon in their names are told apart; others may be taken for one another. */
  lemma NonceKeysDiffer(a: string, x: string, b: string, y: string)
    requires ':' !in a && ':' !in b && NonceKey(a, x) == NonceKey(b, y)
    ensures a == b && x == y
  {
    var k := NonceKey(a, x);
    assert k[..|a|] == a && k[..|b|] == b && k[|a|] == ':' && k[|b|] == ':';
    forall i | 0 <= i < |a| ensures k[i] != ':' { assert k[i] == a[i] && a[i] in a; }
    forall i | 0 <= i < |b| ensures k[i] != ':' { assert k[i] == b[i] && b[i] in b; }
    assert k[|a| + 1..] == x && k[|b| + 1..] == y;
  }

  lemma NonceKeysMeet()
    ensures NonceKey("a:b", "c") == NonceKey("a", "b:c")
  {
    assert NonceKey("a:b", "c") == "a:b:c" && NonceKey("a", "b:c") == "a:b:c";
  }

  predicate Live(nonces: map<string, Time>, key: string, now: Time) {
    key in nonces && nonces[key] > now
  }

  /** Everything up to the second lock, in the order of the checks. */
  function Admit(nodes: map<string, Node>, nonces: map<string, Time>, r: Request, arrival: Time, now: Time): Admission {
    if !r.isPost then Rejected(405)
    else if r.tooLarge then Rejected(413)
    else if !r.readable then Rejected(400)
    else if r.nodeId == "" || r.nonce == "" || !r.signed || r.timestamp.None? || r.keyVersion.None?
            || !Fresh(arrival, r.timestamp.value) then Rejected(401)
    else if r.nodeId !in nodes then Rejected(401)
    else
      var n := nodes[r.nodeId];
      if n.keyVersion != 0 && r.keyVersion.value != n.keyVersion then Rejected(401)
      else if Live(nonces, NonceKey(r.nodeId, r.nonce), now) then Rejected(401)
      else if r.signer != Some(n.secret) then Rejected(401)
      else if r.event.None? || r.event.value.id == "" then Rejected(400)
      else if r.event.value.nodeId != "" && r.event.value.nodeId != r.nodeId then Rejected(401)
      else Admitted(n)
  }

  /** A request that a monitor with these nodes and nonces has reason to trust: it is fresh, it
      comes from a node that is registered, under the version and the secret of the node's present
      key, its nonce is not in use, and it carries an event with an ID that is about that node. */
  predicate Genuine(nodes: map<string, Node>, nonces: map<string, Time>, r: Request, arrival: Time, now: Time) {
    && r.isPost && !r.tooLarge && r.readable && r.signed && r.nodeId != "" && r.nonce != ""
    && r.timestamp.Some? && Fresh(arrival, r.timestamp.value)
    && r.nodeId in nodes && r.signer == Some(nodes[r.nodeId].secret)
    && r.keyVersion.Some? && nodes[r.nodeId].keyVersion in {0, r.keyVersion.value}
    && !Live(nonces, NonceKey(r.nodeId, r.nonce), now)
    && r.event.Some? && r.event.value.id != "" && r.event.value.nodeId in {"", r.nodeId}
  }

  /** Exactly those requests are admitted, with the node as it is registered. */
  lemma AdmittedExactlyWhen(nodes: map<string, Node>, nonces: map<string, Time>, r: Request, arrival: Time, now: Time)
    ensures var a := Admit(nodes, nonces, r, arrival, now);
      && (a.Admitted? <==> Genuine(nodes, nonces, r, arrival, now))
      && (a.Admitted? ==> a.snapshot == nodes[r.nodeId])
      && (a.Rejected? ==> a.status in {400, 401, 405, 413})
  {
  }

  // ---------------------------------------------------------------- second critical section

  predicate HasId(events: seq<Event>, id: string) {
    exists i :: 0 <= i < |events| && events[i].id == id
  }

  function Sweep(nonces: map<string, Time>, now: Time): map<string, Time> {
    map k | k in nonces && nonces[k] >= now :: nonces[k]
  }

  function Newest(events: seq<Event>): (r: seq<Event>)
    ensures |r| <= LOG_LIMIT
  {
    if |events| > LOG_LIMIT then events[|events| - LOG_LIMIT..] else events
  }

  function Jobs(n: Node): map<string, JobState> {
    if n.jobs.Some? then n.jobs.value else map[]
  }

  function Lookup(nodes: map<string, Node>, id: string): Node {
    if id in nodes then nodes[id] else ZERO_NODE
  }

  function JobBefore(n: Node, id: string): JobState {
    if id in Jobs(n) then Jobs(n)[id] else ZERO_JOB
  }

  predicate Closes(status: string) {
    status == "success" || status == "warning"
  }

  /** What an event says about one job. */
  function FoldJob(js: JobState, job: JobInfo, e: Event): JobState {
    var named := js.(name := job.name, graceSeconds := job.graceSeconds,
                     nextExpected := if job.nextExpectedAt.Some? then job.nextExpectedAt.value else js.nextExpected);
    if e.run.None? then named
    else
      var attempted := named.(status := e.run.value.status, lastAttempt := e.run.value.startedAt);
      if Closes(e.run.value.status) then attempted.(lastSuccess := e.occurredAt, consecutiveFailures := 0)
      else if e.run.value.status == "failed" then attempted.(consecutiveFailures := js.consecutiveFailures + 1)
      else attempted
  }

  /** What an event says about its node. */
  function FoldNode(n: Node, e: Event): Node {
    var named := if e.nodeName != "" then n.(name := e.nodeName) else n;
    var beaten := if e.kind == "node.heartbeat" then named.(lastHeartbeat := e.occurredAt) else named;
    if e.job.None? then beaten
    else
      var job := e.job.value;
      beaten.(jobs := Some(Jobs(beaten)[job.id := FoldJob(JobBefore(beaten, job.id), job, e)]))
  }

  /** The state that an accepted event leads to. */
  function Accept(s: State, nodeId: string, e: Event): State {
    State(s.nodes[nodeId := FoldNode(Lookup(s.nodes, nodeId), e)], Newest(s.reports + [e]))
  }

  /** The end of a request: the state and nonces in memory, the answer, and the state that was
      written to the file, if it was. */
  datatype Conclusion = Conclusion(state: State, nonces: map<string, Time>, response: Response, written: Option<State>)

  /** The second critical section. A failed save puts back the node as the first section saw it. */
  function Conclude(s: State, nonces: map<string, Time>, r: Request, snapshot: Node,
                    check: Time, stamp: Time, sweep: Time, outcome: SaveOutcome): Conclusion
    requires r.event.Some?
  {
    var key, e := NonceKey(r.nodeId, r.nonce), r.event.value;
    if Live(nonces, key, check) then Conclusion(s, nonces, Refused(401), None)
    else if HasId(s.reports, e.id) then Conclusion(s, nonces, Done(true), None)
    else Commit(s, nonces, r.nodeId, key, e, snapshot, stamp, sweep, outcome)
  }

  function Commit(s: State, nonces: map<string, Time>, nodeId: string, key: string, e: Event, snapshot: Node,
                  stamp: Time, sweep: Time, outcome: SaveOutcome): Conclusion
  {
    var kept := Sweep(nonces[key := stamp + NONCE_LIFE], sweep);
    var next := Accept(s, nodeId, e);
    match outcome
    case Saved => Conclusion(next, kept, Done(false), Some(next))
    case RenamedOnly =>
      Conclusion(State(s.nodes[nodeId := snapshot], s.reports), kept - {key}, Refused(500), Some(next))
    case NotRenamed => Conclusion(State(s.nodes[nodeId := snapshot], s.reports), kept - {key}, Refused(500), None)
  }

  // ---------------------------------------------------------------- registering a node

  predicate KeyAccepted(id: string, key: string) {
    id != "" && |TrimSpace(key)| >= 32
  }

  /** `secret` is the hexadecimal digest of the trimmed key. */
  function RegisterNode(nodes: map<string, Node>, id: string, name: string, secret: string): map<string, Node> {
    var n := Lookup(nodes, id);
    nodes[id := n.(id := id, name := name, secret := secret, keyVersion := 1, jobs := Some(Jobs(n)))]
  }

  // ---------------------------------------------------------------- the server object

  ghost predicate JobsPresent(nodes: map<string, Node>) {
    forall id :: id in nodes ==> nodes[id].jobs.Some?
  }

  ghost predicate DistinctIds(events: seq<Event>) {
    forall i, j :: 0 <= i < j < |events| ==> events[i].id != events[j].id
  }

  class Server {
    var nodes: map<string, Node>
    var reports: seq<Event>
    var nonces: map<string, Time>

    /** No job map is nil, and no event is in the log twice. */
    ghost predicate Valid()
      reads this
    {
      JobsPresent(nodes) && DistinctIds(reports) && |reports| <= LOG_LIMIT
    }

    constructor (s: State)
      requires JobsPresent(s.nodes) && DistinctIds(s.reports) && |s.reports| <= LOG_LIMIT
      ensures Valid() && nodes == s.nodes && reports == s.reports && nonces == map[]
    {
      nodes, reports, nonces := s.nodes, s.reports, map[];
    }

    /** `AddNode`, with the outcome of saving as an input. */
    method AddNode(id: string, name: string, key: string, secret: string, outcome: SaveOutcome) returns (ok: bool)
      requires Valid()
      modifies this`nodes
      ensures Valid()
      ensures ok == (KeyAccepted(id, key) && outcome.Saved?)
      ensures nodes == if ok then RegisterNode(old(nodes), id, name, secret) else old(nodes)
    {
      if id == "" || |TrimSpace(key)| < 32 { return false; }
      var n := Lookup(nodes, id);
      var previous, existed := n, id in nodes;
      n := n.(id := id, name := name, secret := secret, keyVersion := 1);
      if n.jobs.None? { n := n.(jobs := Some(map[])); }
      nodes := nodes[id := n];
      if !outcome.Saved? {
        if existed { nodes := nodes[id := previous]; } else { nodes := nodes - {id}; }
        return false;
      }
      return true;
    }

    /** `mapsClone`. */
    method CloneJobs(jobs: map<string, JobState>) returns (out: map<string, JobState>)
      ensures out == jobs
    {
      out := map[];
      var left := jobs.Keys;
      while left != {}
        invariant left <= jobs.Keys
        invariant out == map k | k in jobs && k !in left :: jobs[k]
        decreases left
      {
        var k :| k in left;
        out, left := out[k := jobs[k]], left - {k};
      }
    }

    /** `cleanupNoncesLocked`. */
    method CleanupNonces(now: Time)
      modifies this`nonces
      ensures nonces == Sweep(old(nonces), now)
    {
      var left := nonces.Keys;
      while left != {}
        invariant left <= old(nonces).Keys
        invariant forall k :: k in nonces <==> k in old(nonces) && (k in left || old(nonces)[k] >= now)
        invariant forall k :: k in nonces ==> nonces[k] == old(nonces)[k]
        decreases left
      {
        var k :| k in left;
        if nonces[k] < now { nonces := nonces - {k}; }
        left := left - {k};
      }
    }

    /** The search for an earlier report with the same event ID. */
    method Logged(id: string) returns (found: bool)
      ensures found == HasId(reports, id)
    {
      for i := 0 to |reports|
        invariant forall j :: 0 <= j < i ==> reports[j].id != id
      {
        if reports[i].id == id { return true; }
      }
      return false;
    }

    /** The first half of `report`: it reads under the lock and decides outside it. */
    method Begin(r: Request, arrival: Time, now: Time) returns (a: Admission)
      ensures a == Admit(nodes, nonces, r, arrival, now)
      ensures a.Admitted? <==> Genuine(nodes, nonces, r, arrival, now)
      ensures a.Admitted? ==> a.snapshot == nodes[r.nodeId]
    {
      if !r.isPost { return Rejected(405); }
      if r.tooLarge { return Rejected(413); }
      if !r.readable { return Rejected(400); }
      if r.nodeId == "" || r.nonce == "" || !r.signed || r.timestamp.None? || r.keyVersion.None?
         || !Fresh(arrival, r.timestamp.value) { return Rejected(401); }
      var known := r.nodeId in nodes;
      var seen := NonceKey(r.nodeId, r.nonce) in nonces;
      var expires := if seen then nonces[NonceKey(r.nodeId, r.nonce)] else 0;
      if !known { return Rejected(401); }
      var n := nodes[r.nodeId];
      if n.keyVersion != 0 && r.keyVersion.value != n.keyVersion { return Rejected(401); }
      if seen && expires > now { return Rejected(401); }
      if r.signer != Some(n.secret) { return Rejected(401); }
      if r.event.None? || r.event.value.id == "" { return Rejected(400); }
      if r.event.value.nodeId != "" && r.event.value.nodeId != r.nodeId { return Rejected(401); }
      return Admitted(n);
    }

    /** The part of `report` that folds the event into a copy of its node. */
    method FoldEvent(node: Node, e: Event) returns (n: Node)
      requires node.jobs.Some?
      ensures n == FoldNode(node, e) && n.jobs.Some?
      ensures n.id == node.id && n.secret == node.secret && n.keyVersion == node.keyVersion
      ensures n.name == (if e.nodeName == "" then node.name else e.nodeName)
      ensures n.lastHeartbeat == (if e.kind == "node.heartbeat" then e.occurredAt else node.lastHeartbeat)
      ensures forall id :: e.job.None? || id != e.job.value.id ==>
        (id in n.jobs.value <==> id in node.jobs.value)
        && (id in node.jobs.value ==> n.jobs.value[id] == node.jobs.value[id])
    {
      var jobs := CloneJobs(node.jobs.value);
      n := node.(jobs := Some(jobs));
      if e.nodeName != "" { n := n.(name := e.nodeName); }
      if e.kind == "node.heartbeat" { n := n.(lastHeartbeat := e.occurredAt); }
      if e.job.Some? {
        var job := e.job.value;
        var js := if job.id in n.jobs.value then n.jobs.value[job.id] else ZERO_JOB;
        js := js.(name := job.name, graceSeconds := job.graceSeconds);
        if job.nextExpectedAt.Some? { js := js.(nextExpected := job.nextExpectedAt.value); }
        if e.run.Some? {
          js := js.(status := e.run.value.status, lastAttempt := e.run.value.startedAt);
          if e.run.value.status == "success" || e.run.value.status == "warning" {
            js := js.(lastSuccess := e.occurredAt, consecutiveFailures := 0);
          } else if e.run.value.status == "failed" {
            js := js.(consecutiveFailures := js.consecutiveFailures + 1);
          }
        }
        assert n.jobs.Some?;  // the map that is written to is never nil
        n := n.(jobs := Some(n.jobs.value[job.id := js]));
      }
    }

    /** The second half of `report`, under the lock throughout, with the outcome of saving as an
        input. `snapshot` is the node that the first half found. */
    method Finish(r: Request, snapshot: Node, check: Time, stamp: Time, sweep: Time, outcome: SaveOutcome)
      returns (response: Response, written: Option<State>)
      requires Valid() && r.event.Some? && r.nodeId in nodes && snapshot.jobs.Some?
      modifies this
      ensures Valid()
      ensures Conclusion(State(nodes, reports), nonces, response, written)
              == Conclude(State(old(nodes), old(reports)), old(nonces), r, snapshot, check, stamp, sweep, outcome)
    {
      var key, e := NonceKey(r.nodeId, r.nonce), r.event.value;
      if key in nonces && nonces[key] > check { return Refused(401), None; }
      var found := Logged(e.id);
      if found { return Done(true), None; }
      response, written := Persist(r.nodeId, key, e, snapshot, stamp, sweep, outcome);
    }

    /** The rest of `report`, for an event that is neither replayed nor logged. */
    method Persist(nodeId: string, key: string, e: Event, snapshot: Node,
                   stamp: Time, sweep: Time, outcome: SaveOutcome)
      returns (response: Response, written: Option<State>)
      requires Valid() && nodeId in nodes && snapshot.jobs.Some? && !HasId(reports, e.id)
      modifies this
      ensures Valid()
      ensures Conclusion(State(nodes, reports), nonces, response, written)
              == Commit(State(old(nodes), old(reports)), old(nonces), nodeId, key, e, snapshot, stamp, sweep, outcome)
    {
      nonces := nonces[key := stamp + NONCE_LIFE];
      CleanupNonces(sweep);
      var cloned := CloneJobs(snapshot.jobs.value);
      var previousNode, previousReports := snapshot.(jobs := Some(cloned)), reports;
      var n := FoldEvent(nodes[nodeId], e);
      AppendKeepsDistinct(reports, e);
      nodes := nodes[nodeId := n];
      reports := Newest(reports + [e]);
      var saved := State(nodes, reports);
      assert saved == Accept(State(old(nodes), old(reports)), nodeId, e);
      if !outcome.Saved? {
        assert nodes[nodeId := previousNode] == old(nodes)[nodeId := snapshot];
        nodes := nodes[nodeId := previousNode];
        reports := previousReports;
        nonces := nonces - {key};
        return Refused(500), if outcome.RenamedOnly? then Some(saved) else None;
      }
      return Done(false), Some(saved);
    }
  }

  lemma AppendKeepsDistinct(reports: seq<Event>, e: Event)
    requires DistinctIds(reports) && !HasId(reports, e.id)
    ensures DistinctIds(reports + [e]) && DistinctIds(Newest(reports + [e]))
  {
    var all := reports + [e];
    forall i, j | 0 <= i < j < |all| ensures all[i].id != all[j].id {
      assert reports[i].id != e.id;
    }
    if |all| > LOG_LIMIT { SuffixKeepsDistinct(all, |all| - LOG_LIMIT); }
  }

  lemma SuffixKeepsDistinct(events: seq<Event>, d: nat)
    requires DistinctIds(events) && d <= |events|
    ensures DistinctIds(events[d..])
  {
    assert forall i :: 0 <= i < |events| - d ==> events[d..][i] == events[d + i];
  }
}
