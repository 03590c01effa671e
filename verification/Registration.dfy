/** The monitor beside the processes that register nodes: such a process loads the state file, adds a
    node to its copy and saves the copy, without a lock and without telling the server. */
module Registration {
  import opened Monitor
  import opened History
  import opened Serving
  import opened Limits
  import opened Wrappers

  /** What a process has loaded, and the history that the server had in memory then. */
  datatype Copy = Copy(ledger: Ledger, seen: seq<Op>)

  datatype Site = Site(server: Instance, copies: map<nat, Copy>)

  datatype Act =
    | Serve(step: Step)
    | Load(p: nat)
    | Save(p: nat, id: string, name: string, secret: string, outcome: SaveOutcome)
    | Quit(p: nat)

  predicate Allowed(s: Site, a: Act) {
    match a
    case Serve(step) => Enabled(s.server, step)
    case Load(p) => p !in s.copies
    case Save(p, id, _, _, _) => p in s.copies && id != ""
    case Quit(p) => p in s.copies
  }

  /** The copy with the node added. */
  function Edited(s: Site, a: Act): Ledger
    requires a.Save? && Allowed(s, a)
  {
    var op := Registered(a.id, a.name, a.secret);
    Ledger(Apply(s.copies[a.p].ledger.state, op), s.copies[a.p].ledger.hist + [op])
  }

  function After(s: Site, a: Act): Site
    requires Allowed(s, a)
  {
    match a
    case Serve(step) => Site(Next(s.server, step), if step.PowerLoss? then map[] else s.copies)
    case Load(p) => s.(copies := s.copies[p := Copy(s.server.file.visible, s.server.mem.hist)])
    case Save(p, _, _, _, outcome) =>
      Site(s.server.(file := Write(s.server.file, Edited(s, a), outcome)), s.copies - {p})
    case Quit(p) => s.(copies := s.copies - {p})
  }

  // ---------------------------------------------------------------- what other processes cannot break

  ghost predicate CopyOk(s: Site, p: nat)
    requires p in s.copies
  {
    var l := s.copies[p].ledger;
    Sound(l) && (!s.server.stale ==> l.state == Replay(l.hist))
  }

  ghost predicate SiteInv(s: Site) {
    Core(s.server) && forall p :: p in s.copies ==> CopyOk(s, p)
  }

  lemma EditedIsOk(s: Site, a: Act)
    requires SiteInv(s) && a.Save? && Allowed(s, a)
    ensures Sound(Edited(s, a)) && (!s.server.stale ==> Edited(s, a).state == Replay(Edited(s, a).hist))
  {
    assert CopyOk(s, a.p);
    var op := Registered(a.id, a.name, a.secret);
    RegisterSound(s.copies[a.p].ledger, op);
    ReplayStep(s.copies[a.p].ledger.hist, op);
  }

  lemma SaveKeepsCore(s: Site, a: Act)
    requires SiteInv(s) && a.Save? && Allowed(s, a)
    ensures Core(After(s, a).server)
  {
    EditedIsOk(s, a);
    var t := After(s, a).server;
    assert LedgersOk(t) by {
      match a.outcome
      case Saved =>
      case RenamedOnly =>
      case NotRenamed =>
    }
    forall h | h in t.handlers ensures HandlerOk(t, h) { assert HandlerOk(s.server, h); }
    forall c | c in t.committed ensures Remembered(t, c) { assert Remembered(s.server, c); }
  }

  lemma StaleForGood(s: Instance, step: Step)
    requires Enabled(s, step) && s.stale
    ensures Next(s, step).stale
  {
    if step.Finish? { FinishShape(s, step); }
  }

  lemma ActKeepsInv(s: Site, a: Act)
    requires SiteInv(s) && Allowed(s, a)
    ensures SiteInv(After(s, a))
  {
    var t := After(s, a);
    match a
    case Serve(step) =>
      StepKeepsCore(s.server, step);
      forall p | p in t.copies ensures CopyOk(t, p) {
        assert CopyOk(s, p);
        if s.server.stale { StaleForGood(s.server, step); }
      }
    case Load(p) =>
      forall q | q in t.copies ensures CopyOk(t, q) {
        if q != p { assert CopyOk(s, q); }
      }
    case Save(_, _, _, _, _) =>
      SaveKeepsCore(s, a);
      forall p | p in t.copies ensures CopyOk(t, p) { assert CopyOk(s, p); }
    case Quit(_) =>
      forall p | p in t.copies ensures CopyOk(t, p) { assert CopyOk(s, p); }
  }

  ghost predicate IsHistory(sites: seq<Site>, acts: seq<Act>) {
    && |sites| == |acts| + 1 && Initial(sites[0].server) && sites[0].copies == map[]
    && forall i :: 0 <= i < |acts| ==> Linked(sites, acts, i)
  }

  ghost predicate Linked(sites: seq<Site>, acts: seq<Act>, i: int)
    requires 0 <= i < |acts| && |sites| == |acts| + 1
  {
    Allowed(sites[i], acts[i]) && sites[i + 1] == After(sites[i], acts[i])
  }

  lemma {:induction false} HistoryKeepsInv(sites: seq<Site>, acts: seq<Act>, n: nat)
    requires IsHistory(sites, acts) && n < |sites|
    ensures SiteInv(sites[n])
  {
    if n == 0 {
      InitialInv(sites[0].server);
    } else {
      HistoryKeepsInv(sites, acts, n - 1);
      assert Linked(sites, acts, n - 1);
      ActKeepsInv(sites[n - 1], acts[n - 1]);
    }
  }

  ghost predicate PutsBackAt(sites: seq<Site>, acts: seq<Act>, i: int)
    requires IsHistory(sites, acts) && 0 <= i < |acts|
  {
    assert Linked(sites, acts, i);
    acts[i].Serve? ==> PutsBackTheNode(sites[i].server, acts[i].step)
  }

  lemma {:induction false} NeverStaleBeside(sites: seq<Site>, acts: seq<Act>, n: nat)
    requires IsHistory(sites, acts) && n < |sites| && forall i :: 0 <= i < n ==> PutsBackAt(sites, acts, i)
    ensures !sites[n].server.stale
  {
    if n > 0 {
      NeverStaleBeside(sites, acts, n - 1);
      HistoryKeepsInv(sites, acts, n - 1);
      assert Linked(sites, acts, n - 1) && PutsBackAt(sites, acts, n - 1);
      if acts[n - 1].Serve? { StaleExactlyWhen(sites[n - 1].server, acts[n - 1].step); }
    }
  }

  /** Whatever other processes save, no log in memory or in anything the file may turn out to hold has
      an event ID twice, and each is the newest part of its own history; and each state is the fold of
      its history when every failed save puts back its node as the history has it. */
  lemma OthersKeepTheLedgers(sites: seq<Site>, acts: seq<Act>, n: nat)
    requires IsHistory(sites, acts) && n < |sites|
    ensures var s := sites[n].server; Sound(s.mem) && forall l :: l in s.file.survivors ==> Sound(l)
    ensures (forall i :: 0 <= i < n ==> PutsBackAt(sites, acts, i)) ==> Faithful(sites[n].server)
  {
    HistoryKeepsInv(sites, acts, n);
    if forall i :: 0 <= i < n ==> PutsBackAt(sites, acts, i) { NeverStaleBeside(sites, acts, n); }
  }

  // ---------------------------------------------------------------- what they can: accepted events

  /** The file that a reader finds has every event that the server has in memory. */
  ghost predicate FileHasMemory(s: Site) {
    !Lacks(s.server.file.visible, s.server.mem)
  }

  predicate Renames(a: Act) {
    a.Save? && !a.outcome.NotRenamed?
  }

  /** A process that replaces the file has loaded every event that the server has in memory now. */
  ghost predicate SavesAll(s: Site, a: Act)
    requires Allowed(s, a)
  {
    Renames(a) ==> !Lacks(s.copies[a.p].ledger, s.server.mem)
  }

  /** The registration adds no event. */
  lemma EditedEvents(s: Site, a: Act)
    requires a.Save? && Allowed(s, a)
    ensures EventsOf(Edited(s, a).hist) == EventsOf(s.copies[a.p].ledger.hist)
  {
    var h, op := s.copies[a.p].ledger.hist, Registered(a.id, a.name, a.secret);
    EventsOfOneMore(h, op);
    assert EventsOf(h) + [] == EventsOf(h);
  }

  /** A step of the server leaves the file with all that memory has. */
  lemma ServeKeepsFile(s: Instance, step: Step)
    requires Enabled(s, step) && !Lacks(s.file.visible, s.mem)
    ensures !Lacks(Next(s, step).file.visible, Next(s, step).mem)
  {
    var t := Next(s, step);
    if step.Finish? {
      FinishShape(s, step);
      LongerLacksNothing(Proposed(s, step), s.mem);
    } else if step.Register? {
      var op := Registered(step.id, step.name, step.secret);
      LongerLacksNothing(Ledger(Apply(s.mem.state, op), s.mem.hist + [op]), s.mem);
    }
    assert t.mem.hist == s.mem.hist || t.mem == t.file.visible;
  }

  lemma ActKeepsFileExactlyWhen(s: Site, a: Act)
    requires Allowed(s, a) && FileHasMemory(s)
    ensures FileHasMemory(After(s, a)) <==> SavesAll(s, a)
  {
    match a
    case Serve(step) => ServeKeepsFile(s.server, step);
    case Save(_, _, _, _, _) => EditedEvents(s, a);
    case Load(_) =>
    case Quit(_) =>
  }

  lemma {:induction false} SavingAllKeepsFile(sites: seq<Site>, acts: seq<Act>, n: nat)
    requires IsHistory(sites, acts) && n < |sites| && forall i :: 0 <= i < n ==> SavesAllAt(sites, acts, i)
    ensures FileHasMemory(sites[n])
  {
    if n == 0 {
      LongerLacksNothing(NOTHING, NOTHING);
    } else {
      SavingAllKeepsFile(sites, acts, n - 1);
      assert Linked(sites, acts, n - 1) && SavesAllAt(sites, acts, n - 1);
      ActKeepsFileExactlyWhen(sites[n - 1], acts[n - 1]);
    }
  }

  ghost predicate SavesAllAt(sites: seq<Site>, acts: seq<Act>, i: int)
    requires IsHistory(sites, acts) && 0 <= i < |acts|
  {
    assert Linked(sites, acts, i);
    SavesAll(sites[i], acts[i])
  }

  /** Over every interleaving the file has, at all times, every event that the server has in memory, and
      so every event that it has answered, if and only if each process that replaces the file has
      loaded all that memory has by then. */
  lemma FileHasMemoryExactlyWhen(sites: seq<Site>, acts: seq<Act>, n: nat)
    requires IsHistory(sites, acts) && n < |sites|
    ensures (forall k :: 0 <= k <= n ==> FileHasMemory(sites[k]))
            <==> (forall i :: 0 <= i < n ==> SavesAllAt(sites, acts, i))
  {
    if forall i :: 0 <= i < n ==> SavesAllAt(sites, acts, i) {
      forall k | 0 <= k <= n ensures FileHasMemory(sites[k]) { SavingAllKeepsFile(sites, acts, k); }
    }
    if forall k :: 0 <= k <= n ==> FileHasMemory(sites[k]) {
      forall i | 0 <= i < n ensures SavesAllAt(sites, acts, i) {
        assert Linked(sites, acts, i) && FileHasMemory(sites[i]) && FileHasMemory(sites[i + 1]);
        ActKeepsFileExactlyWhen(sites[i], acts[i]);
      }
    }
  }

  /** An event that is answered with 2xx, the answer that says duplicate included, is then in the file. */
  lemma AnsweredIsInFile(sites: seq<Site>, acts: seq<Act>, i: nat)
    requires IsHistory(sites, acts) && i < |acts| && FileHasMemory(sites[i + 1])
    requires acts[i].Serve? && acts[i].step.Finish? && Enabled(sites[i].server, acts[i].step)
    requires Concluded(sites[i].server, acts[i].step).response.Done?
    ensures HasId(EventsOf(sites[i + 1].server.file.visible.hist), OpOf(sites[i].server, acts[i].step).event.id)
  {
    HistoryKeepsInv(sites, acts, i);
    assert Linked(sites, acts, i);
    AnsweredIsHeld(sites[i].server, acts[i].step);
    var held, id := EventsOf(sites[i + 1].server.mem.hist), OpOf(sites[i].server, acts[i].step).event.id;
    var k :| 0 <= k < |held| && held[k].id == id;
    assert held[k] in EventsOf(sites[i + 1].server.file.visible.hist);
  }

  /** Nothing has come into the server's memory between the load of a process and its save. */
  predicate Undisturbed(s: Site, a: Act)
    requires Allowed(s, a)
  {
    Renames(a) ==> s.server.mem.hist == s.copies[a.p].seen
  }

  /** What a process found in the file when it loaded it includes what the server had in memory then. */
  ghost predicate CopiesCover(s: Site) {
    forall p :: p in s.copies ==> !Lacks(s.copies[p].ledger, Ledger(EMPTY, s.copies[p].seen))
  }

  ghost predicate UndisturbedAt(sites: seq<Site>, acts: seq<Act>, i: int)
    requires IsHistory(sites, acts) && 0 <= i < |acts|
  {
    assert Linked(sites, acts, i);
    Undisturbed(sites[i], acts[i])
  }

  lemma UndisturbedSavesAll(s: Site, a: Act)
    requires Allowed(s, a) && CopiesCover(s) && Undisturbed(s, a)
    ensures SavesAll(s, a)
  {
    if Renames(a) { assert !Lacks(s.copies[a.p].ledger, Ledger(EMPTY, s.copies[a.p].seen)); }
  }

  lemma ActKeepsCover(s: Site, a: Act)
    requires Allowed(s, a) && CopiesCover(s) && FileHasMemory(s)
    ensures CopiesCover(After(s, a))
  {
    var t := After(s, a);
    forall p | p in t.copies ensures !Lacks(t.copies[p].ledger, Ledger(EMPTY, t.copies[p].seen)) {
      if p in s.copies && t.copies[p] == s.copies[p] {
        assert !Lacks(s.copies[p].ledger, Ledger(EMPTY, s.copies[p].seen));
      }
    }
  }

  /** In particular the file has every event in memory at all times when nothing came into the server's
      memory while a process was registering a node. */
  lemma {:induction false} UndisturbedRegistrationsLoseNothing(sites: seq<Site>, acts: seq<Act>, n: nat)
    requires IsHistory(sites, acts) && n < |sites| && forall i :: 0 <= i < n ==> UndisturbedAt(sites, acts, i)
    ensures FileHasMemory(sites[n]) && CopiesCover(sites[n])
  {
    if n == 0 {
      LongerLacksNothing(NOTHING, NOTHING);
    } else {
      UndisturbedRegistrationsLoseNothing(sites, acts, n - 1);
      assert Linked(sites, acts, n - 1) && UndisturbedAt(sites, acts, n - 1);
      UndisturbedSavesAll(sites[n - 1], acts[n - 1]);
      ActKeepsFileExactlyWhen(sites[n - 1], acts[n - 1]);
      ActKeepsCover(sites[n - 1], acts[n - 1]);
    }
  }

  // ---------------------------------------------------------------- what they can: their own registrations

  /** The history of the file that an act leaves, if it replaces the file. */
  function Replacement(s: Site, a: Act): Option<seq<Op>>
    requires Allowed(s, a)
  {
    match a
    case Save(_, _, _, _, outcome) => if outcome.NotRenamed? then None else Some(Edited(s, a).hist)
    case Load(_) => None
    case Quit(_) => None
    case Serve(step) =>
      match step
      case PowerLoss(found) => Some(found.hist)
      case Register(id, name, secret, outcome) =>
        if outcome.NotRenamed? then None else Some(s.server.mem.hist + [Registered(id, name, secret)])
      case Finish(_, _, _, _, _) =>
        if MayWrite(s.server, step) && !HasId(s.server.mem.state.reports, OpOf(s.server, step).event.id)
        then Some(Proposed(s.server, step).hist) else None
      case Tick(_) => None
      case Begin(_, _, _, _) => None
      case Restart => None
  }

  lemma FileAfter(s: Site, a: Act)
    requires Allowed(s, a)
    ensures var r := Replacement(s, a);
      After(s, a).server.file.visible.hist == if r.Some? then r.value else s.server.file.visible.hist
  {
    if a.Serve? && a.step.Finish? { FinishShape(s.server, a.step); }
  }

  /** Whoever replaces the file has the entry in what it loaded or writes it itself. */
  predicate Carries(s: Site, a: Act, op: Op)
    requires Allowed(s, a)
  {
    Replacement(s, a).Some? ==> op in Replacement(s, a).value
  }

  ghost predicate CarriesAt(sites: seq<Site>, acts: seq<Act>, i: int, op: Op)
    requires IsHistory(sites, acts) && 0 <= i < |acts|
  {
    assert Linked(sites, acts, i);
    Carries(sites[i], acts[i], op)
  }

  predicate InFile(s: Site, op: Op) {
    op in s.server.file.visible.hist
  }

  lemma EntryStaysExactlyWhen(sites: seq<Site>, acts: seq<Act>, i: nat, op: Op)
    requires IsHistory(sites, acts) && i < |acts| && InFile(sites[i], op)
    ensures InFile(sites[i + 1], op) <==> CarriesAt(sites, acts, i, op)
  {
    assert Linked(sites, acts, i);
    FileAfter(sites[i], acts[i]);
  }

  lemma {:induction false} CarriedStays(sites: seq<Site>, acts: seq<Act>, j: nat, n: nat, op: Op)
    requires IsHistory(sites, acts) && j <= n < |sites| && InFile(sites[j], op)
    requires forall i :: j <= i < n ==> CarriesAt(sites, acts, i, op)
    ensures InFile(sites[n], op)
  {
    if j < n {
      CarriedStays(sites, acts, j, n - 1, op);
      assert CarriesAt(sites, acts, n - 1, op);
      EntryStaysExactlyWhen(sites, acts, n - 1, op);
    }
  }

  /** A registration that a process saved with success is in the file from then on, if and only if
      everyone who replaces the file later has loaded it by then or makes the same one again. */
  lemma RegistrationStaysExactlyWhen(sites: seq<Site>, acts: seq<Act>, j: nat, n: nat)
    requires IsHistory(sites, acts) && j < n < |sites| && acts[j].Save? && acts[j].outcome.Saved?
    ensures var op := Registered(acts[j].id, acts[j].name, acts[j].secret);
      (forall k :: j < k <= n ==> InFile(sites[k], op)) <==> (forall i :: j < i < n ==> CarriesAt(sites, acts, i, op))
  {
    var op := Registered(acts[j].id, acts[j].name, acts[j].secret);
    assert Linked(sites, acts, j);
    var l := Edited(sites[j], acts[j]);
    assert l.hist[|l.hist| - 1] == op;
    assert InFile(sites[j + 1], op);
    if forall i :: j < i < n ==> CarriesAt(sites, acts, i, op) {
      forall k | j < k <= n ensures InFile(sites[k], op) { CarriedStays(sites, acts, j + 1, k, op); }
    }
    if forall k :: j < k <= n ==> InFile(sites[k], op) {
      forall i | j < i < n ensures CarriesAt(sites, acts, i, op) {
        assert InFile(sites[i], op) && InFile(sites[i + 1], op);
        EntryStaysExactlyWhen(sites, acts, i, op);
      }
    }
  }

  // ---------------------------------------------------------------- two runs

  /** Act `i` is the end of a request that is answered with success, for an event that is new. */
  ghost predicate AcceptedAt(sites: seq<Site>, acts: seq<Act>, i: nat, e: Event)
    requires IsHistory(sites, acts) && i < |acts|
  {
    assert Linked(sites, acts, i);
    && acts[i].Serve? && acts[i].step.Finish?
    && Concluded(sites[i].server, acts[i].step).response == Done(false)
    && OpOf(sites[i].server, acts[i].step).event == e
  }

  lemma Go(sites: seq<Site>, acts: seq<Act>, a: Act) returns (more: seq<Site>, taken: seq<Act>)
    requires IsHistory(sites, acts) && Allowed(sites[|acts|], a)
    ensures IsHistory(more, taken) && more == sites + [After(sites[|acts|], a)] && taken == acts + [a]
  {
    more, taken := sites + [After(sites[|acts|], a)], acts + [a];
    forall i | 0 <= i < |taken| ensures Linked(more, taken, i) {
      if i < |acts| { assert Linked(sites, acts, i); }
    }
  }

  /** The server with node `n` enrolled, and a process that has loaded the file. */
  lemma Loading() returns (sites: seq<Site>, acts: seq<Act>)
    ensures IsHistory(sites, acts) && |acts| == 2
    ensures var s := sites[2];
      && s.copies.Keys == {0} && s.copies[0].ledger.hist == [Registered("n", "old", "k")]
      && s.server.mem.hist == [Registered("n", "old", "k")] && s.server.mem.state.reports == []
      && s.server.mem.state.nodes == map["n" := ENROLLED]
      && s.server.nonces == map[] && s.server.handlers == map[] && s.server.now == NOW
  {
    var s1 := Enrolled(NOW);
    sites, acts := Go([Site(START, map[])], [], Serve(Registering()));
    sites, acts := Go(sites, acts, Load(0));
  }

  /** The server commits a report. */
  lemma Reporting(s: Site) returns (t: Site, u: Site)
    requires s.server.mem.state.nodes == map["n" := ENROLLED] && s.server.mem.state.reports == []
    requires s.server.nonces == map[] && s.server.handlers == map[] && s.server.now == NOW
    ensures var begin, finish := Begin(0, Report(Beat("a", ""), "x", 0), NOW, NOW), Finish(0, NOW, NOW, NOW, Saved);
      && Allowed(s, Serve(begin)) && t == After(s, Serve(begin))
      && Allowed(t, Serve(finish)) && u == After(t, Serve(finish))
      && Concluded(t.server, finish).response == Done(false) && u.copies == s.copies
      && u.server.mem.hist == s.server.mem.hist + [Reported("n", Beat("a", ""))]
      && u.server.file.visible == u.server.mem
  {
    var begin, finish := Begin(0, Report(Beat("a", ""), "x", 0), NOW, NOW), Finish(0, NOW, NOW, NOW, Saved);
    FreshExactlyWhen(NOW, 0);
    var v, w := Commits(s.server, Beat("a", ""), 0, NOW, NOW);
    t, u := After(s, Serve(begin)), After(After(s, Serve(begin)), Serve(finish));
    FinishShape(v, finish);
  }

  /** A process loads the file, the server answers a report with success, and the process saves its
      copy: the event is no longer in the file, whatever survives. */
  lemma OtherProcessTakesEvent() returns (sites: seq<Site>, acts: seq<Act>)
    ensures IsHistory(sites, acts) && |acts| == 5
    ensures AcceptedAt(sites, acts, 3, Beat("a", ""))
    ensures acts[4].Save? && acts[4].outcome.Saved?
    ensures forall l :: l in sites[5].server.file.survivors ==> EventsOf(l.hist) == []
  {
    sites, acts := Loading();
    var t, u := Reporting(sites[2]);
    sites, acts := Go(sites, acts, Serve(Begin(0, Report(Beat("a", ""), "x", 0), NOW, NOW)));
    sites, acts := Go(sites, acts, Serve(Finish(0, NOW, NOW, NOW, Saved)));
    var save := Save(0, "m", "new", "s", Saved);
    EditedEvents(u, save);
    EventsOfOneMore([], Registered("n", "old", "k"));
    assert [] + [Registered("n", "old", "k")] == [Registered("n", "old", "k")];
    sites, acts := Go(sites, acts, save);
    assert AcceptedAt(sites, acts, 3, Beat("a", ""));
  }

  /** A process registers a node with success, and the next report that the server commits takes the
      node out of the file. */
  lemma ServerTakesRegistration() returns (sites: seq<Site>, acts: seq<Act>)
    ensures IsHistory(sites, acts) && |acts| == 5
    ensures acts[2] == Save(0, "m", "new", "s", Saved) && InFile(sites[3], Registered("m", "new", "s"))
    ensures !InFile(sites[5], Registered("m", "new", "s"))
  {
    sites, acts := Loading();
    var save := Save(0, "m", "new", "s", Saved);
    var l := Edited(sites[2], save);
    assert l.hist[|l.hist| - 1] == Registered("m", "new", "s");
    sites, acts := Go(sites, acts, save);
    var t, u := Reporting(sites[3]);
    sites, acts := Go(sites, acts, Serve(Begin(0, Report(Beat("a", ""), "x", 0), NOW, NOW)));
    sites, acts := Go(sites, acts, Serve(Finish(0, NOW, NOW, NOW, Saved)));
  }
}
