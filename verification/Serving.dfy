/** Runs of one monitor: any interleaving of request halves, registrations, saves that fail at
    either end, restarts and power losses. */
module Serving {
  import opened Monitor
  import opened History
  import opened Wrappers

  /** A state together with the history that led to it. */
  datatype Ledger = Ledger(state: State, hist: seq<Op>)

  /** The state file: what a reader finds, and what a power loss may leave of it. A file that is not
      there reads as the empty state. */
  datatype File = File(visible: Ledger, survivors: set<Ledger>)

  /** A request between its two critical sections. `arrival` and `checked` are what the clock showed
      at its freshness check before the first section and at its nonce check after it; `seen` is how
      much of the history the first section found. */
  datatype Handler = Handler(request: Request, arrival: Time, checked: Time, snapshot: Node, seen: nat)

  /** A report that was committed in this lifetime of the server. */
  datatype Commitment = Commitment(key: string, stamp: Time)

  /** `stale` records that some failed save put back a node that had changed in between. */
  datatype Instance = Instance(mem: Ledger, nonces: map<string, Time>, file: File, handlers: map<nat, Handler>,
                           now: Time, committed: set<Commitment>, stale: bool)

  /** A step happens under the lock. `Begin` reads the clock before and after it, so other steps may
      come after its `arrival` and before its `check`. */
  datatype Step =
    | Tick(to: Time)
    | Begin(h: nat, request: Request, arrival: Time, check: Time)
    | Finish(h: nat, check: Time, stamp: Time, sweep: Time, outcome: SaveOutcome)
    | Register(id: string, name: string, secret: string, outcome: SaveOutcome)  // its arguments passed the checks
    | Restart
    | PowerLoss(found: Ledger)

  const NOTHING := Ledger(EMPTY, [])

  predicate Initial(s: Instance) {
    && s.mem == NOTHING && s.file == File(NOTHING, {NOTHING}) && s.nonces == map[]
    && s.handlers == map[] && s.committed == {} && !s.stale
  }

  /** The file after an attempt to save. */
  function Write(f: File, l: Ledger, outcome: SaveOutcome): File {
    match outcome
    case Saved => File(l, {l})
    case RenamedOnly => File(l, f.survivors + {l})
    case NotRenamed => f
  }

  predicate Enabled(s: Instance, step: Step) {
    match step
    case Tick(to) => s.now <= to
    case Begin(h, r, arrival, check) => h !in s.handlers && arrival <= check && s.now <= check
    case Finish(h, check, stamp, sweep, outcome) =>
      && h in s.handlers && s.handlers[h].request.event.Some?
      && s.handlers[h].checked <= check && s.now <= check <= stamp <= sweep
    case Register(id, name, secret, outcome) => id != ""
    case Restart => true
    case PowerLoss(found) => found in s.file.survivors
  }

  /** What the second section of handler `h` computes. */
  function Concluded(s: Instance, step: Step): Conclusion
    requires step.Finish? && Enabled(s, step)
  {
    var hd := s.handlers[step.h];
    Conclude(s.mem.state, s.nonces, hd.request, hd.snapshot, step.check, step.stamp, step.sweep, step.outcome)
  }

  function OpOf(s: Instance, step: Step): Op
    requires step.Finish? && Enabled(s, step)
  {
    var r := s.handlers[step.h].request;
    Reported(r.nodeId, r.event.value)
  }

  function Next(s: Instance, step: Step): Instance
    requires Enabled(s, step)
  {
    match step
    case Tick(to) => s.(now := to)
    case Begin(h, r, arrival, check) =>
      var a := Admit(s.mem.state.nodes, s.nonces, r, arrival, check);
      s.(now := if s.now < arrival then arrival else s.now,
         handlers := if a.Admitted? then s.handlers[h := Handler(r, arrival, check, a.snapshot, |s.mem.hist|)]
                     else s.handlers)
    case Finish(h, check, stamp, sweep, outcome) => Finished(s, step)
    case Register(id, name, secret, outcome) =>
      var op := Registered(id, name, secret);
      var l := Ledger(Apply(s.mem.state, op), s.mem.hist + [op]);
      s.(mem := if outcome.Saved? then l else s.mem, file := Write(s.file, l, outcome))
    case Restart => Loaded(s, s.file.visible, s.file)
    case PowerLoss(found) => Loaded(s, found, File(found, {found}))
  }

  /** What is noted of a report that is committed. */
  function CommitmentOf(s: Instance, step: Step): Commitment
    requires step.Finish? && Enabled(s, step)
  {
    Commitment(KeyOf(s, step), step.stamp)
  }

  function KeyOf(s: Instance, step: Step): string
    requires step.Finish? && Enabled(s, step)
  {
    NonceKey(s.handlers[step.h].request.nodeId, s.handlers[step.h].request.nonce)
  }

  function Finished(s: Instance, step: Step): Instance
    requires step.Finish? && Enabled(s, step)
  {
    var c, op, r := Concluded(s, step), OpOf(s, step), s.handlers[step.h].request;
    var after := s.(nonces := c.nonces, handlers := s.handlers - {step.h}, now := step.sweep);
    if c.written.None? then
      after.(mem := Ledger(c.state, s.mem.hist), stale := s.stale || c.state.nodes != s.mem.state.nodes)
    else
      var l := Ledger(c.written.value, s.mem.hist + [op]);
      if c.response == Done(false) then
        after.(mem := l, file := Write(s.file, l, step.outcome),
               committed := s.committed + {CommitmentOf(s, step)})
      else
        after.(mem := Ledger(c.state, s.mem.hist), file := Write(s.file, l, step.outcome),
               stale := s.stale || c.state.nodes != s.mem.state.nodes)
  }

  /** Memory is lost; the state comes back from the file, the nonces and handlers do not. */
  function Loaded(s: Instance, l: Ledger, f: File): Instance {
    Instance(l, map[], f, map[], s.now, {}, s.stale)
  }

  // ---------------------------------------------------------------- what every run keeps

  ghost predicate Sound(l: Ledger) {
    && l.state.reports == Newest(EventsOf(l.hist))
    && DistinctIds(l.state.reports)
    && JobsPresent(l.state.nodes)
  }

  ghost predicate HandlerOk(s: Instance, h: nat)
    requires h in s.handlers
  {
    var hd := s.handlers[h];
    && hd.request.event.Some? && hd.request.timestamp.Some? && Fresh(hd.arrival, hd.request.timestamp.value)
    && hd.request.nodeId in s.mem.state.nodes && hd.snapshot.jobs.Some? && hd.arrival <= s.now
    && hd.seen <= |s.mem.hist|
    && (!s.stale ==> hd.snapshot == Lookup(Replay(s.mem.hist[..hd.seen]).nodes, hd.request.nodeId))
  }

  /** While its nonce lives, a commitment can be found by it. */
  ghost predicate Remembered(s: Instance, c: Commitment) {
    s.now < c.stamp + NONCE_LIFE ==> c.key in s.nonces && s.nonces[c.key] >= c.stamp + NONCE_LIFE
  }

  ghost predicate LedgersOk(s: Instance) {
    && Sound(s.mem)
    && s.file.visible in s.file.survivors
    && (forall l :: l in s.file.survivors ==> Sound(l))
    && (!s.stale ==> Faithful(s))
  }

  /** What holds even when other processes write to the state file. */
  ghost predicate Core(s: Instance) {
    && LedgersOk(s)
    && (forall h :: h in s.handlers ==> HandlerOk(s, h))
    && (forall c :: c in s.committed ==> Remembered(s, c))
  }

  /** As long as the server alone writes to it, the file has everything that memory has. */
  ghost predicate Inv(s: Instance) {
    Core(s) && s.mem.hist <= s.file.visible.hist
  }

  /** View equals fold: in memory, and in everything the file may turn out to hold. */
  ghost predicate Faithful(s: Instance) {
    && s.mem.state == Replay(s.mem.hist)
    && forall l :: l in s.file.survivors ==> l.state == Replay(l.hist)
  }

  lemma InitialInv(s: Instance)
    requires Initial(s)
    ensures Inv(s)
  {
    assert Replay([]) == EMPTY;
  }

  /** Accepting an event that is not in the log, from a sound ledger. */
  lemma AcceptSound(l: Ledger, nodeId: string, e: Event)
    requires Sound(l) && !HasId(l.state.reports, e.id) && nodeId in l.state.nodes
    ensures Sound(Ledger(Accept(l.state, nodeId, e), l.hist + [Reported(nodeId, e)]))
  {
    ReplayStep(l.hist, Reported(nodeId, e));
    NewestAgain(EventsOf(l.hist), e);
    AppendKeepsDistinct(l.state.reports, e);
  }

  lemma RegisterSound(l: Ledger, op: Op)
    requires Sound(l) && op.Registered?
    ensures Sound(Ledger(Apply(l.state, op), l.hist + [op]))
  {
    ReplayStep(l.hist, op);
    assert EventsOf(l.hist) + [] == EventsOf(l.hist);
  }

  lemma SweepRemembers(s: Instance, step: Step, c: Commitment)
    requires step.Finish? && Enabled(s, step) && Remembered(s, c)
    ensures Remembered(Next(s, step), c)
  {
    var hd := s.handlers[step.h];
    var key := NonceKey(hd.request.nodeId, hd.request.nonce);
    if c.key == key && step.sweep < c.stamp + NONCE_LIFE {
      assert Live(s.nonces, key, step.check);
    }
  }

  /** The ledger that a request tries to save. */
  function Proposed(s: Instance, step: Step): Ledger
    requires step.Finish? && Enabled(s, step)
  {
    var op := OpOf(s, step);
    Ledger(Accept(s.mem.state, op.nodeId, op.event), s.mem.hist + [op])
  }

  /** The three ways in which a request can end. */
  lemma FinishShape(s: Instance, step: Step)
    requires step.Finish? && Enabled(s, step)
    ensures var t, response, l := Next(s, step), Concluded(s, step).response, Proposed(s, step);
      var hd := s.handlers[step.h];
      && t.now == step.sweep && t.handlers == s.handlers - {step.h}
      && match response {
           case Done(true) => t.mem == s.mem && t.file == s.file && t.stale == s.stale && t.committed == s.committed
                              && HasId(s.mem.state.reports, OpOf(s, step).event.id)
           case Done(false) => t.mem == l && t.file == File(l, {l}) && t.stale == s.stale && step.outcome.Saved?
                               && !HasId(s.mem.state.reports, OpOf(s, step).event.id)
           case Refused(status) =>
             && t.committed == s.committed
             && if status == 401 then t.mem == s.mem && t.file == s.file && t.stale == s.stale
                else
                  && !step.outcome.Saved? && !HasId(s.mem.state.reports, OpOf(s, step).event.id)
                  && t.mem.hist == s.mem.hist && t.mem.state.reports == s.mem.state.reports
                  && t.mem.state.nodes == s.mem.state.nodes[hd.request.nodeId := hd.snapshot]
                  && t.file == Write(s.file, l, step.outcome)
                  && t.stale == (s.stale || t.mem.state.nodes != s.mem.state.nodes)
         }
  {
  }

  lemma FinishKeepsHandlers(s: Instance, step: Step)
    requires Core(s) && step.Finish? && Enabled(s, step)
    ensures forall h :: h in Next(s, step).handlers ==> HandlerOk(Next(s, step), h)
  {
    var t := Next(s, step);
    FinishShape(s, step);
    forall h | h in t.handlers ensures HandlerOk(t, h) {
      assert HandlerOk(s, h);
      assert t.mem.hist[..s.handlers[h].seen] == s.mem.hist[..s.handlers[h].seen];
    }
  }

  lemma ProposedIsSound(s: Instance, step: Step)
    requires Core(s) && step.Finish? && Enabled(s, step) && !HasId(s.mem.state.reports, OpOf(s, step).event.id)
    ensures var l := Proposed(s, step);
      Sound(l) && (!s.stale ==> l.state == Replay(l.hist))
  {
    assert HandlerOk(s, step.h);
    var op := OpOf(s, step);
    AcceptSound(s.mem, op.nodeId, op.event);
    ReplayStep(s.mem.hist, op);
  }

  /** Saving ledger `l`, and keeping `kept` in memory if that fails. */
  lemma SaveKeepsLedgers(s: Instance, t: Instance, l: Ledger, kept: Ledger, outcome: SaveOutcome)
    requires LedgersOk(s) && Sound(l) && Sound(kept) && kept.hist == s.mem.hist
    requires !s.stale ==> l.state == Replay(l.hist)
    requires t.stale == (s.stale || (!outcome.Saved? && kept.state != s.mem.state))
    requires t.mem == (if outcome.Saved? then l else kept) && t.file == Write(s.file, l, outcome)
    ensures LedgersOk(t)
  {
    match outcome
    case Saved =>
    case RenamedOnly =>
    case NotRenamed =>
  }

  /** A failed save puts a node with jobs in place of another. */
  lemma RollbackIsSound(s: Instance, step: Step)
    requires Core(s) && step.Finish? && Enabled(s, step)
    ensures var hd := s.handlers[step.h];
      Sound(Ledger(State(s.mem.state.nodes[hd.request.nodeId := hd.snapshot], s.mem.state.reports), s.mem.hist))
  {
    assert HandlerOk(s, step.h);
  }

  lemma FinishKeepsLedgers(s: Instance, step: Step)
    requires Core(s) && step.Finish? && Enabled(s, step)
    ensures LedgersOk(Next(s, step))
  {
    FinishShape(s, step);
    var t, response, hd := Next(s, step), Concluded(s, step).response, s.handlers[step.h];
    if response == Done(false) || response == Refused(500) {
      ProposedIsSound(s, step);
      RollbackIsSound(s, step);
      var kept := State(s.mem.state.nodes[hd.request.nodeId := hd.snapshot], s.mem.state.reports);
      SaveKeepsLedgers(s, t, Proposed(s, step), Ledger(kept, s.mem.hist), step.outcome);
    }
  }

  lemma FinishKeepsCommitted(s: Instance, step: Step)
    requires step.Finish? && Enabled(s, step) && forall c :: c in s.committed ==> Remembered(s, c)
    ensures forall c :: c in Next(s, step).committed ==> Remembered(Next(s, step), c)
  {
    var t := Next(s, step);
    forall k | k in t.committed ensures Remembered(t, k) {
      if k in s.committed { SweepRemembers(s, step, k); }
    }
  }

  lemma FinishKeepsCore(s: Instance, step: Step)
    requires Core(s) && step.Finish? && Enabled(s, step)
    ensures Core(Next(s, step))
  {
    FinishKeepsHandlers(s, step);
    FinishKeepsLedgers(s, step);
    FinishKeepsCommitted(s, step);
  }

  lemma RegisterKeepsHandlers(s: Instance, step: Step)
    requires Core(s) && step.Register? && Enabled(s, step)
    ensures forall h :: h in Next(s, step).handlers ==> HandlerOk(Next(s, step), h)
  {
    var t := Next(s, step);
    forall h | h in t.handlers ensures HandlerOk(t, h) {
      assert HandlerOk(s, h);
      assert t.mem.hist[..s.handlers[h].seen] == s.mem.hist[..s.handlers[h].seen];
    }
  }

  lemma RegisterKeepsLedgers(s: Instance, step: Step)
    requires Core(s) && step.Register? && Enabled(s, step)
    ensures LedgersOk(Next(s, step))
  {
    var op := Registered(step.id, step.name, step.secret);
    var l := Ledger(Apply(s.mem.state, op), s.mem.hist + [op]);
    RegisterSound(s.mem, op);
    ReplayStep(s.mem.hist, op);
    SaveKeepsLedgers(s, Next(s, step), l, s.mem, step.outcome);
  }

  lemma RegisterKeepsCore(s: Instance, step: Step)
    requires Core(s) && step.Register? && Enabled(s, step)
    ensures Core(Next(s, step))
  {
    RegisterKeepsLedgers(s, step);
    RegisterKeepsHandlers(s, step);
    forall c | c in Next(s, step).committed ensures Remembered(Next(s, step), c) { assert Remembered(s, c); }
  }

  lemma BeginKeepsCore(s: Instance, step: Step)
    requires Core(s) && step.Begin? && Enabled(s, step)
    ensures Core(Next(s, step))
  {
    var t := Next(s, step);
    assert s.mem.hist[..|s.mem.hist|] == s.mem.hist;
    forall h | h in t.handlers ensures HandlerOk(t, h) {
      if h != step.h { assert HandlerOk(s, h); }
    }
  }

  lemma StepKeepsCore(s: Instance, step: Step)
    requires Core(s) && Enabled(s, step)
    ensures Core(Next(s, step))
  {
    match step
    case Begin(_, _, _, _) => BeginKeepsCore(s, step);
    case Finish(_, _, _, _, _) => FinishKeepsCore(s, step);
    case Register(_, _, _, _) => RegisterKeepsCore(s, step);
    case Tick(to) =>
      forall h | h in s.handlers ensures HandlerOk(Next(s, step), h) { assert HandlerOk(s, h); }
    case Restart =>
    case PowerLoss(_) =>
  }

  /** What a step leaves in the file goes on from memory. */
  lemma StepKeepsAhead(s: Instance, step: Step)
    requires Enabled(s, step) && s.mem.hist <= s.file.visible.hist
    ensures Next(s, step).mem.hist <= Next(s, step).file.visible.hist
  {
    if step.Finish? { FinishShape(s, step); }
  }

  lemma StepKeepsInv(s: Instance, step: Step)
    requires Inv(s) && Enabled(s, step)
    ensures Inv(Next(s, step))
  {
    StepKeepsCore(s, step);
    StepKeepsAhead(s, step);
  }

  // ---------------------------------------------------------------- runs

  ghost predicate IsRun(states: seq<Instance>, steps: seq<Step>) {
    && |states| == |steps| + 1 && Initial(states[0])
    && forall i :: 0 <= i < |steps| ==> Enabled(states[i], steps[i]) && states[i + 1] == Next(states[i], steps[i])
  }

  lemma {:induction false} RunKeepsInv(states: seq<Instance>, steps: seq<Step>, n: nat)
    requires IsRun(states, steps) && n < |states|
    ensures Inv(states[n])
  {
    if n == 0 {
      InitialInv(states[0]);
    } else {
      RunKeepsInv(states, steps, n - 1);
      StepKeepsInv(states[n - 1], steps[n - 1]);
    }
  }

  /** A run may go on with any step that is enabled. */
  lemma RunExtends(states: seq<Instance>, steps: seq<Step>, step: Step)
    requires IsRun(states, steps) && Enabled(states[|steps|], step)
    ensures IsRun(states + [Next(states[|steps|], step)], steps + [step])
  {
  }

  /** Whatever fails and whoever retries, no log, in memory or in anything the file may turn out to
      hold, has an event ID twice. */
  lemma LogsNeverRepeat(states: seq<Instance>, steps: seq<Step>, n: nat)
    requires IsRun(states, steps) && n < |states|
    ensures DistinctIds(states[n].mem.state.reports)
    ensures DistinctIds(states[n].file.visible.state.reports)
    ensures forall l :: l in states[n].file.survivors ==> DistinctIds(l.state.reports)
  {
    RunKeepsInv(states, steps, n);
  }

  // ---------------------------------------------------------------- folded in once

  lemma RecentIsLogged(events: seq<Event>, i: nat)
    requires i < |events| && DistinctIds(events)
    ensures HasId(Newest(events), events[i].id) <==> |events| - 1 - i < 10000
  {
    var log := Newest(events);
    var d := |events| - |log|;
    assert forall j :: 0 <= j < |log| ==> log[j] == events[d + j];
    if i >= d { assert log[i - d].id == events[i].id; }
  }

  /** An event is in the log exactly while fewer than 10000 others were accepted after it. */
  lemma LoggedWhileRecent(s: Instance, i: nat)
    requires Inv(s) && i < |EventsOf(s.mem.hist)| && DistinctIds(EventsOf(s.mem.hist))
    ensures var events := EventsOf(s.mem.hist);
      HasId(s.mem.state.reports, events[i].id) <==> |events| - 1 - i < 10000
  {
    RecentIsLogged(EventsOf(s.mem.hist), i);
  }

  /** A request that may write now for an event that was accepted before comes before 10000 others
      have been accepted since. */
  predicate Timely(s: Instance, step: Step)
    requires Enabled(s, step)
  {
    step.Finish? && MayWrite(s, step) ==>
      var events, id := EventsOf(s.mem.hist), OpOf(s, step).event.id;
      forall i :: 0 <= i < |events| && events[i].id == id ==> |events| - 1 - i < 10000
  }

  /** The nonce of the request is not in use, and the rename of the save goes through. */
  predicate MayWrite(s: Instance, step: Step)
    requires step.Finish? && Enabled(s, step)
  {
    var r := s.handlers[step.h].request;
    !Live(s.nonces, NonceKey(r.nodeId, r.nonce), step.check) && !step.outcome.NotRenamed?
  }

  /** No history counts an event twice. */
  ghost predicate FoldedOnce(s: Instance) {
    && DistinctIds(EventsOf(s.mem.hist))
    && forall l :: l in s.file.survivors ==> DistinctIds(EventsOf(l.hist))
  }

  lemma OneMoreDistinct(events: seq<Event>, e: Event)
    requires DistinctIds(events)
    ensures DistinctIds(events + [e]) <==> !HasId(events, e.id)
  {
    var all := events + [e];
    if HasId(events, e.id) {
      var i :| 0 <= i < |events| && events[i].id == e.id;
      assert all[i].id == all[|events|].id;
    }
  }

  /** A retry of an event that was accepted before, under a fresh nonce: it is answered as a duplicate
      if and only if fewer than 10000 others were accepted since; and a saved acceptance keeps the
      history free of repetitions if and only if that is so. */
  lemma DuplicateExactlyWhileRecent(s: Instance, step: Step, i: nat)
    requires Inv(s) && FoldedOnce(s) && Enabled(s, step) && step.Finish?
    requires var r := s.handlers[step.h].request; !Live(s.nonces, NonceKey(r.nodeId, r.nonce), step.check)
    requires i < |EventsOf(s.mem.hist)| && EventsOf(s.mem.hist)[i].id == OpOf(s, step).event.id
    ensures var recent := |EventsOf(s.mem.hist)| - 1 - i < 10000;
      && (Concluded(s, step).response == Done(true) <==> recent)
      && (step.outcome.Saved? ==> (DistinctIds(EventsOf(Next(s, step).mem.hist)) <==> recent))
  {
    FinishShape(s, step);
    LoggedWhileRecent(s, i);
    ReplayStep(s.mem.hist, OpOf(s, step));
    OneMoreDistinct(EventsOf(s.mem.hist), OpOf(s, step).event);
  }

  /** What the end of a request proposes, it writes when it may and the event is not in the log. */
  lemma FinishWrites(s: Instance, step: Step)
    requires Inv(s) && Enabled(s, step) && step.Finish?
    ensures MayWrite(s, step) && !HasId(s.mem.state.reports, OpOf(s, step).event.id)
            ==> Proposed(s, step) in Next(s, step).file.survivors
    ensures !MayWrite(s, step) || HasId(s.mem.state.reports, OpOf(s, step).event.id)
            ==> Next(s, step).mem.hist == s.mem.hist && Next(s, step).file == s.file
    ensures Next(s, step).mem.hist == s.mem.hist || Next(s, step).mem == Proposed(s, step)
    ensures forall l :: l in Next(s, step).file.survivors ==> l in s.file.survivors || l == Proposed(s, step)
  {
    FinishShape(s, step);
  }

  /** Whether an event is in the log says whether its acceptance, if there was one, is recent. */
  lemma TimelyIsLogged(s: Instance, step: Step)
    requires Inv(s) && FoldedOnce(s) && Enabled(s, step) && step.Finish? && MayWrite(s, step)
    requires !HasId(s.mem.state.reports, OpOf(s, step).event.id)
    ensures Timely(s, step) <==> !HasId(EventsOf(s.mem.hist), OpOf(s, step).event.id)
  {
    var events, id := EventsOf(s.mem.hist), OpOf(s, step).event.id;
    forall i: nat | i < |events| && events[i].id == id ensures |events| - 1 - i >= LOG_LIMIT {
      LoggedWhileRecent(s, i);
    }
  }

  /** The event of the request is in the log: its acceptance is recent, and the request is timely. */
  lemma LoggedIsTimely(s: Instance, step: Step)
    requires Inv(s) && FoldedOnce(s) && Enabled(s, step) && step.Finish?
    requires HasId(s.mem.state.reports, OpOf(s, step).event.id)
    ensures Timely(s, step)
  {
    var events, id := EventsOf(s.mem.hist), OpOf(s, step).event.id;
    forall i: nat | i < |events| && events[i].id == id ensures |events| - 1 - i < LOG_LIMIT {
      LoggedWhileRecent(s, i);
    }
  }

  /** The end of a request keeps all histories free of repetitions exactly when it is timely. */
  lemma FinishFoldsOnceExactlyWhen(s: Instance, step: Step)
    requires Inv(s) && FoldedOnce(s) && Enabled(s, step) && step.Finish?
    ensures FoldedOnce(Next(s, step)) <==> Timely(s, step)
  {
    FinishWrites(s, step);
    var e, l := OpOf(s, step).event, Proposed(s, step);
    ReplayStep(s.mem.hist, OpOf(s, step));
    OneMoreDistinct(EventsOf(s.mem.hist), e);
    if HasId(s.mem.state.reports, e.id) {
      LoggedIsTimely(s, step);
    } else if MayWrite(s, step) {
      TimelyIsLogged(s, step);
    }
  }

  /** A registration adds no event. */
  lemma RegisterFoldsOnce(s: Instance, step: Step)
    requires FoldedOnce(s) && Enabled(s, step) && step.Register?
    ensures FoldedOnce(Next(s, step))
  {
    ReplayStep(s.mem.hist, Registered(step.id, step.name, step.secret));
    assert EventsOf(s.mem.hist) + [] == EventsOf(s.mem.hist);
  }

  lemma StepFoldsOnceExactlyWhen(s: Instance, step: Step)
    requires Inv(s) && FoldedOnce(s) && Enabled(s, step)
    ensures FoldedOnce(Next(s, step)) <==> Timely(s, step)
  {
    match step
    case Finish(_, _, _, _, _) => FinishFoldsOnceExactlyWhen(s, step);
    case Register(_, _, _, _) => RegisterFoldsOnce(s, step);
    case Begin(_, _, _, _) =>
    case Tick(_) =>
    case Restart =>
    case PowerLoss(_) =>
  }

  lemma {:induction false} TimelyFoldsOnce(states: seq<Instance>, steps: seq<Step>, n: nat)
    requires IsRun(states, steps) && n < |states|
    requires forall i :: 0 <= i < n ==> Timely(states[i], steps[i])
    ensures FoldedOnce(states[n])
  {
    if n > 0 {
      TimelyFoldsOnce(states, steps, n - 1);
      RunKeepsInv(states, steps, n - 1);
      StepFoldsOnceExactlyWhen(states[n - 1], steps[n - 1]);
    }
  }

  /** Exactly-once effect: over a run no event is folded in twice, in memory or in anything the file
      may turn out to hold, if and only if no request writes an event that it repeats after 10000
      others were accepted. */
  lemma FoldedOnceExactlyWhenTimely(states: seq<Instance>, steps: seq<Step>, n: nat)
    requires IsRun(states, steps) && n < |states|
    ensures (forall k :: 0 <= k <= n ==> FoldedOnce(states[k]))
            <==> (forall i :: 0 <= i < n ==> Timely(states[i], steps[i]))
  {
    if forall i :: 0 <= i < n ==> Timely(states[i], steps[i]) {
      forall k | 0 <= k <= n ensures FoldedOnce(states[k]) { TimelyFoldsOnce(states, steps, k); }
    }
    if forall k :: 0 <= k <= n ==> FoldedOnce(states[k]) {
      forall i | 0 <= i < n ensures Timely(states[i], steps[i]) {
        RunKeepsInv(states, steps, i);
        assert FoldedOnce(states[i]) && FoldedOnce(states[i + 1]);
        StepFoldsOnceExactlyWhen(states[i], steps[i]);
      }
    }
  }

  // ---------------------------------------------------------------- view equals fold

  /** A failed save leaves the view equal to the fold exactly when what was accepted between the two
      sections of its request left the request's node as it was. */
  lemma FailedSaveKeepsViewExactlyWhen(s: Instance, step: Step)
    requires Core(s) && !s.stale && Enabled(s, step) && step.Finish?
    requires Concluded(s, step).response == Refused(500)
    ensures var t, hd := Next(s, step), s.handlers[step.h];
      && t.mem.hist == s.mem.hist
      && (t.mem.state == Replay(t.mem.hist)
          <==> NodeAfter(s.mem.hist, hd.request.nodeId) == NodeAfter(s.mem.hist[..hd.seen], hd.request.nodeId))
      && (t.stale <==> t.mem.state != Replay(t.mem.hist))
  {
    FinishShape(s, step);
    var hd := s.handlers[step.h];
    var id, nodes := hd.request.nodeId, s.mem.state.nodes;
    assert HandlerOk(s, step.h);
    assert hd.snapshot == NodeAfter(s.mem.hist[..hd.seen], id);
    assert nodes[id] == NodeAfter(s.mem.hist, id);
    assert nodes[id := hd.snapshot][id] == hd.snapshot;
    assert nodes[id := nodes[id]] == nodes;
  }

  predicate About(op: Op, id: string) {
    match op
    case Registered(i, _, _) => i == id
    case Reported(i, _) => i == id
  }

  /** In particular it does when nothing about that node was accepted in between. */
  lemma {:induction false} UntouchedNode(h: seq<Op>, seen: nat, id: string)
    requires seen <= |h| && forall i :: seen <= i < |h| ==> !About(h[i], id)
    ensures NodeAfter(h, id) == NodeAfter(h[..seen], id)
  {
    if seen == |h| {
      assert h[..seen] == h;
    } else {
      var before := h[..|h| - 1];
      UntouchedNode(before, seen, id);
      assert before[..seen] == h[..seen];
      assert !About(h[|h| - 1], id);
    }
  }

  /** A request that ends in a failed save puts back what the history says of its node. */
  predicate PutsBackTheNode(s: Instance, step: Step)
    requires Enabled(s, step)
  {
    step.Finish? && Concluded(s, step).response == Refused(500) ==>
      var hd := s.handlers[step.h];
      hd.seen <= |s.mem.hist|
      && NodeAfter(s.mem.hist, hd.request.nodeId) == NodeAfter(s.mem.hist[..hd.seen], hd.request.nodeId)
  }

  /** Only such a request makes the view stale, and only when it does not. */
  lemma StaleExactlyWhen(s: Instance, step: Step)
    requires Core(s) && !s.stale && Enabled(s, step)
    ensures !Next(s, step).stale <==> PutsBackTheNode(s, step)
  {
    if step.Finish? {
      FinishShape(s, step);
      if Concluded(s, step).response == Refused(500) {
        FailedSaveKeepsViewExactlyWhen(s, step);
        assert HandlerOk(s, step.h);
      }
    }
  }

  lemma {:induction false} NeverStale(states: seq<Instance>, steps: seq<Step>, n: nat)
    requires IsRun(states, steps) && n < |states|
    requires forall i :: 0 <= i < n ==> PutsBackTheNode(states[i], steps[i])
    ensures !states[n].stale
  {
    if n > 0 {
      NeverStale(states, steps, n - 1);
      RunKeepsInv(states, steps, n - 1);
      StaleExactlyWhen(states[n - 1], steps[n - 1]);
    }
  }

  /** View equals fold: over a run memory, and everything the file may turn out to hold, stays the
      fold of its history if and only if every request whose save fails puts back its node as the
      history has it. */
  lemma ViewIsFoldExactlyWhen(states: seq<Instance>, steps: seq<Step>, n: nat)
    requires IsRun(states, steps) && n < |states|
    ensures (forall k :: 0 <= k <= n ==> Faithful(states[k]))
            <==> (forall i :: 0 <= i < n ==> PutsBackTheNode(states[i], steps[i]))
  {
    if forall i :: 0 <= i < n ==> PutsBackTheNode(states[i], steps[i]) {
      forall k | 0 <= k <= n ensures Faithful(states[k]) {
        NeverStale(states, steps, k);
        RunKeepsInv(states, steps, k);
      }
    } else {
      var i := FirstWrongNode(states, steps, n);
      WrongNodeShows(states, steps, i);
    }
  }

  lemma WrongNodeShows(states: seq<Instance>, steps: seq<Step>, i: nat)
    requires IsRun(states, steps) && i < |steps| && !PutsBackTheNode(states[i], steps[i])
    requires forall k :: 0 <= k < i ==> PutsBackTheNode(states[k], steps[k])
    ensures !Faithful(states[i + 1])
  {
    NeverStale(states, steps, i);
    RunKeepsInv(states, steps, i);
    assert HandlerOk(states[i], steps[i].h);
    FailedSaveKeepsViewExactlyWhen(states[i], steps[i]);
  }

  lemma {:induction false} FirstWrongNode(states: seq<Instance>, steps: seq<Step>, n: nat) returns (i: nat)
    requires IsRun(states, steps) && n < |states| && exists k :: 0 <= k < n && !PutsBackTheNode(states[k], steps[k])
    ensures i < n && !PutsBackTheNode(states[i], steps[i])
    ensures forall k :: 0 <= k < i ==> PutsBackTheNode(states[k], steps[k])
  {
    if k: nat :| k < n - 1 && !PutsBackTheNode(states[k], steps[k]) {
      i := FirstWrongNode(states, steps, n - 1);
    } else {
      i := n - 1;
    }
  }

  /** Nothing about the node of a request whose save fails was accepted between its two sections. */
  predicate NodeLeftAlone(s: Instance, step: Step)
    requires Enabled(s, step)
  {
    step.Finish? && Concluded(s, step).response == Refused(500) ==>
      var hd := s.handlers[step.h];
      forall i :: hd.seen <= i < |s.mem.hist| ==> !About(s.mem.hist[i], hd.request.nodeId)
  }

  /** When that is so in every step of a run, memory and everything the file may turn out to hold are
      the fold of their histories, and every node and every job shows what its events say. */
  lemma ViewEqualsFold(states: seq<Instance>, steps: seq<Step>, n: nat, node: string, job: string)
    requires IsRun(states, steps) && n < |states|
    requires forall i :: 0 <= i < n ==> NodeLeftAlone(states[i], steps[i])
    ensures Faithful(states[n]) && JobsPresent(states[n].mem.state.nodes)
    ensures NodeShows(Lookup(states[n].mem.state.nodes, node), states[n].mem.hist, node)
    ensures var m := states[n].mem;
      job in Jobs(Lookup(m.state.nodes, node)) ==>
        JobEvents(m.hist, node, job) != []
        && Summarises(Jobs(Lookup(m.state.nodes, node))[job], JobEvents(m.hist, node, job))
  {
    forall i | 0 <= i < n ensures PutsBackTheNode(states[i], steps[i]) {
      LeftAloneIsPutBack(states, steps, i);
    }
    NeverStale(states, steps, n);
    RunKeepsInv(states, steps, n);
    var m := states[n].mem;
    NodeViewSummarisesHistory(m.hist, node);
    if job in Jobs(Lookup(m.state.nodes, node)) {
      JobViewSummarisesHistory(m.hist, node, job);
    }
  }

  lemma LeftAloneIsPutBack(states: seq<Instance>, steps: seq<Step>, i: nat)
    requires IsRun(states, steps) && i < |steps| && NodeLeftAlone(states[i], steps[i])
    ensures PutsBackTheNode(states[i], steps[i])
  {
    var s, step := states[i], steps[i];
    RunKeepsInv(states, steps, i);
    if step.Finish? && Concluded(s, step).response == Refused(500) {
      assert HandlerOk(s, step.h);
      UntouchedNode(s.mem.hist, s.handlers[step.h].seen, s.handlers[step.h].request.nodeId);
    }
  }

  // ---------------------------------------------------------------- replays

  /** The entry of the nonce table was made when a report was committed in this lifetime. */
  ghost predicate EntryIsCommitment(s: Instance, key: string)
    requires key in s.nonces
  {
    exists c :: c in s.committed && c.key == key && s.nonces[key] == c.stamp + NONCE_LIFE
  }

  ghost predicate NoncesCommitted(s: Instance) {
    forall key :: key in s.nonces ==> EntryIsCommitment(s, key)
  }

  lemma StepKeepsNonces(s: Instance, step: Step)
    requires NoncesCommitted(s) && Enabled(s, step)
    ensures NoncesCommitted(Next(s, step))
  {
    var t := Next(s, step);
    forall key | key in t.nonces ensures EntryIsCommitment(t, key) {
      if key in s.nonces && t.nonces[key] == s.nonces[key] {
        var c :| c in s.committed && c.key == key && s.nonces[key] == c.stamp + NONCE_LIFE;
        assert c in t.committed;
      } else {
        assert CommitmentOf(s, step) in t.committed;
      }
    }
  }

  lemma {:induction false} RunKeepsNonces(states: seq<Instance>, steps: seq<Step>, n: nat)
    requires IsRun(states, steps) && n < |states|
    ensures NoncesCommitted(states[n])
  {
    if n > 0 {
      RunKeepsNonces(states, steps, n - 1);
      StepKeepsNonces(states[n - 1], steps[n - 1]);
    }
  }

  /** Step `j` committed a report under this key, and the server lives on to state `n`. */
  ghost predicate CommittedAt(states: seq<Instance>, steps: seq<Step>, j: nat, n: nat, key: string)
    requires IsRun(states, steps) && n <= |steps|
  {
    && j < n && steps[j].Finish? && Concluded(states[j], steps[j]).response == Done(false)
    && KeyOf(states[j], steps[j]) == key
    && forall k :: j < k < n ==> !steps[k].Restart? && !steps[k].PowerLoss?
  }

  /** Commitments are made by the end of a request, and forgotten by a restart. */
  lemma CommitmentStep(s: Instance, step: Step)
    requires Enabled(s, step)
    ensures Next(s, step).committed
         == if step.Restart? || step.PowerLoss? then {}
            else if step.Finish? && Concluded(s, step).response == Done(false) then
              s.committed + {CommitmentOf(s, step)}
            else s.committed
  {
    if step.Finish? { FinishShape(s, step); }
  }

  lemma {:induction false} CommitmentHasStep(states: seq<Instance>, steps: seq<Step>, n: nat, c: Commitment)
    returns (j: nat)
    requires IsRun(states, steps) && n < |states| && c in states[n].committed
    ensures CommittedAt(states, steps, j, n, c.key) && steps[j].stamp == c.stamp
  {
    if n == 0 {
      assert false;
    } else {
      CommitmentStep(states[n - 1], steps[n - 1]);
      if c in states[n - 1].committed {
        j := CommitmentHasStep(states, steps, n - 1, c);
      } else {
        j := n - 1;
      }
    }
  }

  lemma {:induction false} StepHasCommitment(states: seq<Instance>, steps: seq<Step>, j: nat, n: nat, key: string)
    requires IsRun(states, steps) && n < |states| && CommittedAt(states, steps, j, n, key)
    ensures Commitment(key, steps[j].stamp) in states[n].committed
  {
    CommitmentStep(states[n - 1], steps[n - 1]);
    if j < n - 1 {
      StepHasCommitment(states, steps, j, n - 1, key);
    }
  }

  lemma LiveExactlyWhen(s: Instance, key: string, check: Time)
    requires NoncesCommitted(s) && s.now <= check && forall c :: c in s.committed ==> Remembered(s, c)
    ensures Live(s.nonces, key, check) <==> exists c :: c in s.committed && c.key == key && check < c.stamp + NONCE_LIFE
  {
    if Live(s.nonces, key, check) {
      assert EntryIsCommitment(s, key);
    }
    if c :| c in s.committed && c.key == key && check < c.stamp + NONCE_LIFE {
      assert Remembered(s, c);
    }
  }

  lemma RefusedExactlyWhenLive(s: Instance, step: Step)
    requires Enabled(s, step) && step.Finish?
    ensures Concluded(s, step).response == Refused(401) <==> Live(s.nonces, KeyOf(s, step), step.check)
  {
  }

  /** Replays, exactly: the second section refuses a request if and only if a report with the same node
      and nonce was committed in this lifetime, less than ten minutes before its nonce check. */
  lemma ReplayRefusedExactlyWhen(states: seq<Instance>, steps: seq<Step>, i: nat)
    requires IsRun(states, steps) && i < |steps| && steps[i].Finish?
    ensures Concluded(states[i], steps[i]).response == Refused(401) <==>
      exists j: nat :: CommittedAt(states, steps, j, i, KeyOf(states[i], steps[i]))
                       && steps[i].check < steps[j].stamp + 600_000_000_000
  {
    var s, check := states[i], steps[i].check;
    var key := KeyOf(s, steps[i]);
    RunKeepsInv(states, steps, i);
    RunKeepsNonces(states, steps, i);
    RefusedExactlyWhenLive(s, steps[i]);
    LiveExactlyWhen(s, key, check);
    if c :| c in s.committed && c.key == key && check < c.stamp + NONCE_LIFE {
      var j := CommitmentHasStep(states, steps, i, c);
      assert CommittedAt(states, steps, j, i, key);
    }
    if j: nat :| CommittedAt(states, steps, j, i, key) && check < steps[j].stamp + NONCE_LIFE {
      StepHasCommitment(states, steps, j, i, key);
    }
  }

  function TimestampOf(s: Instance, step: Step): Option<int>
    requires step.Finish? && Enabled(s, step)
  {
    s.handlers[step.h].request.timestamp
  }

  /** How long the request has spent between its two readings of the clock. */
  function Spent(s: Instance, step: Step): Time
    requires step.Finish? && Enabled(s, step)
  {
    step.check - s.handlers[step.h].arrival
  }

  /** So a request that repeats the node, nonce and timestamp of a committed one is refused whenever
      the time it spends between its checks and the lead of the timestamp over the clock at that
      commitment are less than five minutes together. */
  lemma ReplayRefused(states: seq<Instance>, steps: seq<Step>, j: nat, i: nat, unix: int)
    requires IsRun(states, steps) && i < |steps| && steps[i].Finish?
    requires CommittedAt(states, steps, j, i, KeyOf(states[i], steps[i]))
    requires TimestampOf(states[i], steps[i]) == Some(unix)
    requires Spent(states[i], steps[i]) + (UnixTime(unix) - steps[j].stamp) < 300_000_000_000
    ensures Concluded(states[i], steps[i]).response == Refused(401)
  {
    var s, step := states[i], steps[i];
    RunKeepsInv(states, steps, i);
    assert HandlerOk(s, step.h);
    FreshExactlyWhen(s.handlers[step.h].arrival, unix);
    ReplayRefusedExactlyWhen(states, steps, i);
    assert CommittedAt(states, steps, j, i, KeyOf(s, step)) && step.check < steps[j].stamp + NONCE_LIFE;
  }

  // ---------------------------------------------------------------- what is kept for good

  predicate HoldsEvent(s: Instance, e: Event) {
    e in EventsOf(s.mem.hist)
  }

  lemma LongerHistoryHolds(h: seq<Op>, k: seq<Op>)
    requires h <= k
    ensures forall e :: e in EventsOf(h) ==> e in EventsOf(k)
  {
    assert k == h + k[|h|..];
    EventsOfConcat(h, k[|h|..]);
  }

  /** Some version of the file that a power loss may leave lacks an event that memory holds. */
  ghost predicate Exposed(s: Instance) {
    exists l :: l in s.file.survivors && Lacks(l, s.mem)
  }

  ghost predicate Lacks(l: Ledger, m: Ledger) {
    exists e :: e in EventsOf(m.hist) && e !in EventsOf(l.hist)
  }

  lemma LongerLacksNothing(l: Ledger, m: Ledger)
    requires m.hist <= l.hist
    ensures !Lacks(l, m)
  {
    LongerHistoryHolds(m.hist, l.hist);
  }

  /** An event in the history stays there through every step but a power loss that leaves a version
      of the file without it. */
  lemma StepKeepsEvents(s: Instance, step: Step, e: Event)
    requires Inv(s) && Enabled(s, step) && HoldsEvent(s, e)
    requires step.PowerLoss? ==> e in EventsOf(step.found.hist)
    ensures HoldsEvent(Next(s, step), e)
  {
    if !step.PowerLoss? {
      var t := Next(s, step);
      if step.Finish? { FinishShape(s, step); }
      assert s.mem.hist <= t.mem.hist;
      LongerHistoryHolds(s.mem.hist, t.mem.hist);
    }
  }

  /** No power loss can take away an event that memory holds if and only if the server is not exposed. */
  lemma PowerLossKeepsEventsExactlyWhen(s: Instance)
    ensures (forall found, e :: Enabled(s, PowerLoss(found)) && HoldsEvent(s, e) ==>
              HoldsEvent(Next(s, PowerLoss(found)), e))
            <==> !Exposed(s)
  {
    if Exposed(s) {
      var l :| l in s.file.survivors && Lacks(l, s.mem);
      var e :| e in EventsOf(s.mem.hist) && e !in EventsOf(l.hist);
      assert Enabled(s, PowerLoss(l)) && HoldsEvent(s, e) && !HoldsEvent(Next(s, PowerLoss(l)), e);
    } else {
      forall found, e | Enabled(s, PowerLoss(found)) && HoldsEvent(s, e)
        ensures HoldsEvent(Next(s, PowerLoss(found)), e)
      {
        assert !Lacks(found, s.mem);
      }
    }
  }

  /** A server becomes exposed exactly by a restart that loads an event which some version of the
      file that may survive does not have yet. */
  lemma ExposedExactlyAfter(s: Instance, step: Step)
    requires Inv(s) && Enabled(s, step) && !Exposed(s)
    ensures Exposed(Next(s, step)) <==>
      step.Restart? && exists l :: l in s.file.survivors && Lacks(l, s.file.visible)
  {
    var t := Next(s, step);
    if step.Finish? {
      FinishShape(s, step);
    } else if step.Register? {
      LongerLacksNothing(Ledger(s.mem.state, s.mem.hist + [Registered(step.id, step.name, step.secret)]), s.mem);
    }
    if !step.Restart? {
      forall l | l in t.file.survivors ensures !Lacks(l, t.mem) {
        if t.mem.hist <= l.hist {
          LongerLacksNothing(l, t.mem);
        } else {
          assert l in s.file.survivors && t.mem.hist == s.mem.hist;
          assert !Lacks(l, s.mem);
        }
      }
    }
  }

  lemma LoggedWasAccepted(events: seq<Event>, id: string)
    requires HasId(Newest(events), id)
    ensures HasId(events, id)
  {
    var log := Newest(events);
    var i :| 0 <= i < |log| && log[i].id == id;
    assert events[|events| - |log| + i] == log[i];
  }

  /** A 2xx answer means that the history holds an event with that ID. */
  lemma AnsweredIsHeld(s: Instance, step: Step)
    requires Core(s) && Enabled(s, step) && step.Finish? && Concluded(s, step).response.Done?
    ensures HasId(EventsOf(Next(s, step).mem.hist), OpOf(s, step).event.id)
  {
    FinishShape(s, step);
    var e, events := OpOf(s, step).event, EventsOf(s.mem.hist);
    if Concluded(s, step).response.duplicate {
      LoggedWasAccepted(events, e.id);
    } else {
      ReplayStep(s.mem.hist, OpOf(s, step));
      assert (events + [e])[|events|].id == e.id;
    }
  }

  /** A handler was there before, or is the one that the step began. */
  lemma HandlersComeFrom(s: Instance, step: Step)
    requires Enabled(s, step)
    ensures forall h :: h in Next(s, step).handlers ==>
      || (h in s.handlers && Next(s, step).handlers[h] == s.handlers[h])
      || (step.Begin? && h == step.h && Next(s, step).handlers[h].request == step.request)
  {
    if step.Finish? { FinishShape(s, step); }
  }

  /** An event that memory or the file may hold. */
  ghost predicate MayHold(s: Instance, e: Event) {
    e in EventsOf(s.mem.hist) || exists l :: l in s.file.survivors && e in EventsOf(l.hist)
  }

  /** Only the end of a request brings in an event, and it is the request's. */
  lemma EventsComeFrom(s: Instance, step: Step, e: Event)
    requires Enabled(s, step) && s.file.visible in s.file.survivors && MayHold(Next(s, step), e)
    ensures MayHold(s, e) || (step.Finish? && e == OpOf(s, step).event)
  {
    if step.Finish? {
      FinishShape(s, step);
      ReplayStep(s.mem.hist, OpOf(s, step));
    } else if step.Register? {
      ReplayStep(s.mem.hist, Registered(step.id, step.name, step.secret));
    }
  }

  // ---------------------------------------------------------------- where accepted events come from

  /** Step `i` began the request: it was genuine, judged by the nodes and nonces of that moment. */
  ghost predicate BeganAt(states: seq<Instance>, steps: seq<Step>, i: nat, r: Request)
    requires IsRun(states, steps)
  {
    && i < |steps| && steps[i].Begin? && steps[i].request == r
    && Genuine(states[i].mem.state.nodes, states[i].nonces, r, steps[i].arrival, steps[i].check)
  }

  /** The event came in a request that began before state `n`. */
  ghost predicate CameSigned(states: seq<Instance>, steps: seq<Step>, n: nat, op: Op)
    requires IsRun(states, steps)
  {
    op.Reported? ==>
      exists i: nat, r :: i < n && BeganAt(states, steps, i, r) && r.nodeId == op.nodeId && r.event == Some(op.event)
  }

  ghost predicate HandlerBegan(states: seq<Instance>, steps: seq<Step>, n: nat, r: Request)
    requires IsRun(states, steps)
  {
    exists i: nat :: i < n && BeganAt(states, steps, i, r)
  }

  ghost predicate HistorySigned(states: seq<Instance>, steps: seq<Step>, n: nat, h: seq<Op>)
    requires IsRun(states, steps)
  {
    forall k :: 0 <= k < |h| ==> CameSigned(states, steps, n, h[k])
  }

  lemma SignedLater(states: seq<Instance>, steps: seq<Step>, n: nat, op: Op)
    requires IsRun(states, steps) && CameSigned(states, steps, n, op)
    ensures CameSigned(states, steps, n + 1, op)
  {
    if op.Reported? {
      var i: nat, r :| i < n && BeganAt(states, steps, i, r) && r.nodeId == op.nodeId && r.event == Some(op.event);
      assert i < n + 1;
    }
  }

  lemma HistorySignedLater(states: seq<Instance>, steps: seq<Step>, n: nat, h: seq<Op>)
    requires IsRun(states, steps) && HistorySigned(states, steps, n, h)
    ensures HistorySigned(states, steps, n + 1, h)
  {
    forall k | 0 <= k < |h| ensures CameSigned(states, steps, n + 1, h[k]) {
      SignedLater(states, steps, n, h[k]);
    }
  }

  lemma HistorySignedOneMore(states: seq<Instance>, steps: seq<Step>, n: nat, h: seq<Op>, op: Op)
    requires IsRun(states, steps) && HistorySigned(states, steps, n, h) && CameSigned(states, steps, n, op)
    ensures HistorySigned(states, steps, n, h + [op])
  {
  }

  ghost predicate AllSigned(states: seq<Instance>, steps: seq<Step>, n: nat)
    requires IsRun(states, steps) && n < |states|
  {
    && (forall h :: h in states[n].handlers ==> HandlerBegan(states, steps, n, states[n].handlers[h].request))
    && HistorySigned(states, steps, n, states[n].mem.hist)
    && forall l :: l in states[n].file.survivors ==> HistorySigned(states, steps, n, l.hist)
  }

  lemma HandlersStayBegan(states: seq<Instance>, steps: seq<Step>, n: nat)
    requires IsRun(states, steps) && 0 < n < |states| && AllSigned(states, steps, n - 1)
    ensures forall h :: h in states[n].handlers ==> HandlerBegan(states, steps, n, states[n].handlers[h].request)
  {
    var s, step := states[n - 1], steps[n - 1];
    HandlersComeFrom(s, step);
    forall h | h in states[n].handlers ensures HandlerBegan(states, steps, n, states[n].handlers[h].request) {
      var r := states[n].handlers[h].request;
      if h in s.handlers && states[n].handlers[h] == s.handlers[h] {
        assert HandlerBegan(states, steps, n - 1, r);
        var i: nat :| i < n - 1 && BeganAt(states, steps, i, r);
        assert i < n;
      } else {
        AdmittedExactlyWhen(s.mem.state.nodes, s.nonces, r, step.arrival, step.check);
        assert BeganAt(states, steps, n - 1, r);
      }
    }
  }

  /** The operation that the step adds, if it adds one. */
  lemma OperationIsSigned(states: seq<Instance>, steps: seq<Step>, n: nat)
    requires IsRun(states, steps) && 0 < n < |states| && AllSigned(states, steps, n - 1) && steps[n - 1].Finish?
    ensures CameSigned(states, steps, n, OpOf(states[n - 1], steps[n - 1]))
  {
    var s, step := states[n - 1], steps[n - 1];
    var r := s.handlers[step.h].request;
    assert HandlerBegan(states, steps, n - 1, r);
    var i: nat :| i < n - 1 && BeganAt(states, steps, i, r);
    assert i < n;
  }

  lemma StepKeepsSigned(states: seq<Instance>, steps: seq<Step>, n: nat)
    requires IsRun(states, steps) && 0 < n < |states| && AllSigned(states, steps, n - 1)
    requires states[n - 1].file.visible in states[n - 1].file.survivors
    ensures AllSigned(states, steps, n)
  {
    var s, step, t := states[n - 1], steps[n - 1], states[n];
    HandlersStayBegan(states, steps, n);
    HistorySignedLater(states, steps, n - 1, s.mem.hist);
    forall l | l in s.file.survivors ensures HistorySigned(states, steps, n, l.hist) {
      HistorySignedLater(states, steps, n - 1, l.hist);
    }
    if step.Finish? {
      OperationIsSigned(states, steps, n);
      HistorySignedOneMore(states, steps, n, s.mem.hist, OpOf(s, step));
      FinishShape(s, step);
    } else if step.Register? {
      HistorySignedOneMore(states, steps, n, s.mem.hist, Registered(step.id, step.name, step.secret));
    }
  }

  lemma {:induction false} RunKeepsSigned(states: seq<Instance>, steps: seq<Step>, n: nat)
    requires IsRun(states, steps) && n < |states|
    ensures AllSigned(states, steps, n)
  {
    if n > 0 {
      RunKeepsSigned(states, steps, n - 1);
      RunKeepsInv(states, steps, n - 1);
      StepKeepsSigned(states, steps, n);
    }
  }

  /** Every event that memory or the file may hold came in an earlier request that was genuine at its
      first section: fresh, and signed under the version and the secret of the key that its node had
      then; and it is about that node. */
  lemma AcceptedWasSigned(states: seq<Instance>, steps: seq<Step>, n: nat, l: Ledger, k: nat)
    requires IsRun(states, steps) && n < |states| && (l == states[n].mem || l in states[n].file.survivors)
    requires k < |l.hist| && l.hist[k].Reported?
    ensures exists i: nat, r ::
      && i < n && steps[i].Begin? && steps[i].request == r
      && r.event == Some(l.hist[k].event) && r.nodeId == l.hist[k].nodeId
      && r.timestamp.Some? && Fresh(steps[i].arrival, r.timestamp.value)
      && r.nodeId in states[i].mem.state.nodes && r.signer == Some(states[i].mem.state.nodes[r.nodeId].secret)
      && r.keyVersion.Some? && states[i].mem.state.nodes[r.nodeId].keyVersion in {0, r.keyVersion.value}
      && l.hist[k].event.id != "" && l.hist[k].event.nodeId in {"", r.nodeId}
  {
    RunKeepsSigned(states, steps, n);
    assert CameSigned(states, steps, n, l.hist[k]);
    var i: nat, r :| i < n && BeganAt(states, steps, i, r) && r.nodeId == l.hist[k].nodeId
                     && r.event == Some(l.hist[k].event);
    assert steps[i].request == r;
  }
}
