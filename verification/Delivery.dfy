/** The reporting protocol end to end: clients that send an event and queue it when that fails,
    concurrent maintenance runs that send queued events again, a network that loses, delays and
    repeats requests and loses answers, and the monitor. */
module Delivery {
  import opened Monitor
  import opened History
  import opened Serving
  import opened Wrappers

  /** One row of the outbox as a maintenance run read it. */
  datatype Item = Item(row: string, event: Event)

  datatype Task =
    | Sending(event: Event, exchange: nat)                    // SendOrQueue, waiting for Send
    | Draining(items: seq<Item>)                              // maintenance, between two items
    | Resending(item: Item, exchange: nat, rest: seq<Item>)   // maintenance, waiting for Send

  /** `net` holds the requests that were put on the wire, for good: each may be delivered any number
      of times, or never. `answered` are the exchanges to which the monitor gave a 2xx answer.
      `given` are the events passed to SendOrQueue; the four sets after it say how one may end up
      neither delivered nor queued. */
  datatype World = World(server: Instance, net: map<nat, Request>, exchanges: set<nat>, answered: set<nat>,
                         tasks: map<nat, Task>, outbox: map<string, Event>, rows: set<string>,
                         given: set<Event>, skipped: set<Event>, pruned: set<Event>, refused: set<Event>,
                         abandoned: set<Event>)

  datatype Move =
    | Give(p: nat, event: Event, enabled: bool, exchange: nat, sent: Option<Request>)
    | Acknowledged(p: nat)
    | Queue(p: nat, row: Option<string>)
    | Start(p: nat, items: seq<Item>)
    | Resend(p: nat, enabled: bool, exchange: nat, sent: Option<Request>)
    | Complete(p: nat, deleted: bool)
    | Fail(p: nat, updated: bool)
    | End(p: nat)
    | Prune(removed: set<string>)
    | Stop(p: nat)
    | Serve(step: Step)

  predicate Carries(sent: Option<Request>, exchange: nat, e: Event) {
    sent.Some? ==> sent.value.exchange == exchange && sent.value.event == Some(e)
  }

  ghost predicate Possible(w: World, m: Move) {
    match m
    case Give(p, e, enabled, x, sent) =>
      p !in w.tasks && x !in w.exchanges && Carries(sent, x, e) && forall g :: g in w.given ==> g.id != e.id
    case Acknowledged(p) => p in w.tasks && w.tasks[p].Sending? && w.tasks[p].exchange in w.answered
    case Queue(p, row) => p in w.tasks && w.tasks[p].Sending? && (row.Some? ==> row.value !in w.rows)
    case Start(p, items) =>
      p !in w.tasks && forall i :: i in items ==> i.row in w.outbox && w.outbox[i.row] == i.event
    case Resend(p, enabled, x, sent) =>
      p in w.tasks && w.tasks[p].Draining? && w.tasks[p].items != []
      && x !in w.exchanges && Carries(sent, x, w.tasks[p].items[0].event)
    case Complete(p, deleted) => p in w.tasks && w.tasks[p].Resending? && w.tasks[p].exchange in w.answered
    case Fail(p, updated) => p in w.tasks && w.tasks[p].Resending?
    case End(p) => p in w.tasks && w.tasks[p] == Draining([])
    case Prune(removed) => true
    case Stop(p) => p in w.tasks
    case Serve(step) =>
      Enabled(w.server, step)
      && (step.Begin? ==> step.request.exchange in w.net && w.net[step.request.exchange] == step.request)
  }

  function Wire(net: map<nat, Request>, x: nat, sent: Option<Request>): map<nat, Request> {
    if sent.Some? then net[x := sent.value] else net
  }

  function After(w: World, m: Move): World
    requires Possible(w, m)
  {
    match m
    case Give(p, e, enabled, x, sent) =>
      if !enabled then w.(given := w.given + {e}, skipped := w.skipped + {e})
      else w.(given := w.given + {e}, exchanges := w.exchanges + {x}, net := Wire(w.net, x, sent),
              tasks := w.tasks[p := Sending(e, x)])
    case Acknowledged(p) => w.(tasks := w.tasks - {p})
    case Queue(p, row) =>
      var e := w.tasks[p].event;
      var done := w.(tasks := w.tasks - {p});
      if row.Some? then done.(outbox := w.outbox[row.value := e], rows := w.rows + {row.value})
      else done.(refused := w.refused + {e})
    case Start(p, items) => w.(tasks := w.tasks[p := Draining(items)])
    case Resend(p, enabled, x, sent) =>
      var items := w.tasks[p].items;
      if !enabled then
        w.(tasks := w.tasks[p := Draining(items[1..])], outbox := w.outbox - {items[0].row},
           skipped := w.skipped + {items[0].event})
      else
        w.(tasks := w.tasks[p := Resending(items[0], x, items[1..])], exchanges := w.exchanges + {x},
           net := Wire(w.net, x, sent))
    case Complete(p, deleted) =>
      var t := w.tasks[p];
      if deleted then w.(tasks := w.tasks[p := Draining(t.rest)], outbox := w.outbox - {t.item.row})
      else w.(tasks := w.tasks - {p})
    case Fail(p, updated) =>
      w.(tasks := if updated then w.tasks[p := Draining(w.tasks[p].rest)] else w.tasks - {p})
    case End(p) => w.(tasks := w.tasks - {p})
    case Prune(removed) =>
      w.(outbox := w.outbox - removed, pruned := w.pruned + set r | r in w.outbox && r in removed :: w.outbox[r])
    case Stop(p) =>
      w.(tasks := w.tasks - {p},
         abandoned := if w.tasks[p].Sending? then w.abandoned + {w.tasks[p].event} else w.abandoned)
    case Serve(step) =>
      w.(server := Next(w.server, step),
         answered := if step.Finish? && Concluded(w.server, step).response.Done?
                     then w.answered + {w.server.handlers[step.h].request.exchange} else w.answered)
  }

  ghost predicate Beginning(w: World) {
    && Initial(w.server) && w.net == map[] && w.exchanges == {} && w.answered == {} && w.tasks == map[]
    && w.outbox == map[] && w.rows == {} && w.given == {}
    && w.skipped == {} && w.pruned == {} && w.refused == {} && w.abandoned == {}
  }

  // ---------------------------------------------------------------- the invariant

  /** Requests on the wire carry events that were given, and handlers hold such requests. */
  ghost predicate WireOk(w: World) {
    && (forall x :: x in w.net ==> x in w.exchanges && w.net[x].exchange == x && w.net[x].event.Some?
                                   && w.net[x].event.value in w.given)
    && (forall h :: h in w.server.handlers ==>
          var r := w.server.handlers[h].request; r.exchange in w.net && w.net[r.exchange] == r)
    && (forall e, f :: e in w.given && f in w.given && e.id == f.id ==> e == f)
  }

  /** The monitor holds only events that were given. */
  ghost predicate OnlyGiven(w: World) {
    && (forall e :: e in EventsOf(w.server.mem.hist) ==> e in w.given)
    && (forall l, e :: l in w.server.file.survivors && e in EventsOf(l.hist) ==> e in w.given)
  }

  /** What was answered with 2xx is in the monitor's history. */
  ghost predicate AnswersHold(w: World) {
    forall x :: x in w.answered ==> x in w.net && w.net[x].event.Some? && HoldsEvent(w.server, w.net[x].event.value)
  }

  ghost predicate ItemOk(w: World, i: Item) {
    i.event in w.given && i.row in w.rows && (i.row in w.outbox ==> w.outbox[i.row] == i.event)
  }

  ghost predicate SendOk(w: World, x: nat, e: Event) {
    x in w.exchanges && (x in w.net ==> w.net[x].event == Some(e))
  }

  ghost predicate TaskOk(w: World, t: Task) {
    match t
    case Sending(e, x) => e in w.given && SendOk(w, x, e)
    case Draining(items) => forall i :: i in items ==> ItemOk(w, i)
    case Resending(item, x, rest) =>
      ItemOk(w, item) && SendOk(w, x, item.event) && forall i :: i in rest ==> ItemOk(w, i)
  }

  ghost predicate ClientsOk(w: World) {
    && (forall p :: p in w.tasks ==> TaskOk(w, w.tasks[p]))
    && (forall r :: r in w.outbox ==> r in w.rows && w.outbox[r] in w.given)
  }

  ghost predicate Queued(w: World, e: Event) { exists r :: r in w.outbox && w.outbox[r] == e }
  ghost predicate InFlight(w: World, e: Event) {
    exists p :: p in w.tasks && w.tasks[p].Sending? && w.tasks[p].event == e
  }

  predicate GivenUp(w: World, e: Event) {
    e in w.skipped || e in w.pruned || e in w.refused || e in w.abandoned
  }

  /** Where an event can be. */
  ghost predicate Accounted(w: World, e: Event) {
    HoldsEvent(w.server, e) || Queued(w, e) || InFlight(w, e) || GivenUp(w, e)
  }

  ghost predicate Conserved(w: World) {
    forall e :: e in w.given ==> Accounted(w, e)
  }

  ghost predicate WorldInv(w: World) {
    Inv(w.server) && WireOk(w) && OnlyGiven(w) && AnswersHold(w) && ClientsOk(w) && Conserved(w)
  }

  /** The move is a power loss, and the version of the file that it leaves lacks an event that
      memory held. */
  ghost predicate Forgets(w: World, m: Move, e: Event) {
    m.Serve? && m.step.PowerLoss? && HoldsEvent(w.server, e) && e !in EventsOf(m.step.found.hist)
  }

  ghost predicate Answered(w: World, e: Event) {
    exists x :: x in w.answered && x in w.net && w.net[x].event == Some(e)
  }

  ghost predicate AtHand(w: World, e: Event) {
    Queued(w, e) || InFlight(w, e) || GivenUp(w, e)
  }

  /** The one thing that can undo an acknowledgement is left out: a power loss that forgets an event
      which was answered with 2xx, or which no client has any more. */
  ghost predicate Safe(w: World, m: Move) {
    forall e :: Forgets(w, m, e) ==> !Answered(w, e) && AtHand(w, e)
  }

  /** While the server is not exposed, every power loss is safe. */
  lemma UnexposedIsSafe(w: World, m: Move)
    requires Possible(w, m) && !Exposed(w.server)
    ensures Safe(w, m)
  {
    if m.Serve? && m.step.PowerLoss? { assert !Lacks(m.step.found, w.server.mem); }
  }

  // ---------------------------------------------------------------- moves of the clients

  /** Nothing but the two sends puts a request on the wire, and the one it puts there is for an
      event that was given. */
  lemma WireGrows(w: World, v: World, x: nat, sent: Option<Request>, e: Event)
    requires WireOk(w) && OnlyGiven(w) && AnswersHold(w) && x !in w.exchanges && Carries(sent, x, e)
    requires v.server == w.server && v.answered == w.answered && v.net == Wire(w.net, x, sent)
    requires v.exchanges == w.exchanges + {x}
    requires v.given == w.given + {e} && forall g :: g in w.given && g.id == e.id ==> g == e
    ensures WireOk(v) && OnlyGiven(v) && AnswersHold(v)
  {
  }

  lemma WireSame(w: World, v: World)
    requires WireOk(w) && OnlyGiven(w) && AnswersHold(w)
    requires v.server == w.server && v.answered == w.answered && v.net == w.net && v.exchanges == w.exchanges
    requires w.given <= v.given && forall e, f :: e in v.given && f in v.given && e.id == f.id ==> e == f
    ensures WireOk(v) && OnlyGiven(v) && AnswersHold(v)
  {
  }

  /** What the tasks rely on: nothing they know of is taken back or used again. */
  ghost predicate Extends(w: World, v: World) {
    && w.rows <= v.rows && w.exchanges <= v.exchanges && w.given <= v.given
    && (forall x :: x in w.exchanges && x in v.net ==> x in w.net && v.net[x] == w.net[x])
    && (forall r :: r in w.rows && r in v.outbox ==> r in w.outbox && v.outbox[r] == w.outbox[r])
  }

  lemma TaskStaysOk(w: World, v: World, t: Task)
    requires Extends(w, v) && TaskOk(w, t)
    ensures TaskOk(v, t)
  {
  }

  /** The clients stay in order when one task changes to `t`, or ends. */
  lemma ClientsStayOk(w: World, v: World, p: nat, t: Option<Task>)
    requires ClientsOk(w) && Extends(w, v) && forall r :: r in v.outbox ==> r in v.rows && v.outbox[r] in v.given
    requires v.tasks == if t.Some? then w.tasks[p := t.value] else w.tasks - {p}
    requires t.Some? ==> TaskOk(v, t.value)
    ensures ClientsOk(v)
  {
    forall q | q in v.tasks ensures TaskOk(v, v.tasks[q]) {
      if q != p || t.None? { TaskStaysOk(w, v, w.tasks[q]); }
    }
  }

  /** No event is lost from view between two worlds. */
  ghost predicate KeepsAccount(w: World, v: World) {
    forall e :: e in w.given && Accounted(w, e) ==> Accounted(v, e)
  }

  lemma Kept(w: World, v: World)
    requires Conserved(w) && KeepsAccount(w, v) && forall e :: e in v.given && e !in w.given ==> Accounted(v, e)
    ensures Conserved(v)
  {
  }

  // One lemma for each move of a client.

  lemma GiveKeepsAccount(w: World, m: Move)
    requires Possible(w, m) && m.Give?
    ensures KeepsAccount(w, After(w, m)) && Accounted(After(w, m), m.event)
  {
    var v := After(w, m);
    forall e | e in w.given && Accounted(w, e) ensures Accounted(v, e) {
      if InFlight(w, e) {
        var p :| p in w.tasks && w.tasks[p].Sending? && w.tasks[p].event == e;
        assert p in v.tasks && v.tasks[p] == w.tasks[p];
      } else if Queued(w, e) {
        assert v.outbox == w.outbox;
      }
    }
    if m.enabled { assert v.tasks[m.p].event == m.event; }
  }

  lemma GiveKeepsClients(w: World, m: Move)
    requires WorldInv(w) && Possible(w, m) && m.Give?
    ensures ClientsOk(After(w, m))
  {
    var v := After(w, m);
    if m.enabled {
      ClientsStayOk(w, v, m.p, Some(Sending(m.event, m.exchange)));
    } else {
      forall p | p in v.tasks ensures TaskOk(v, v.tasks[p]) { TaskStaysOk(w, v, w.tasks[p]); }
    }
  }

  lemma GiveKeepsWire(w: World, m: Move)
    requires WorldInv(w) && Possible(w, m) && m.Give?
    ensures WireOk(After(w, m)) && OnlyGiven(After(w, m)) && AnswersHold(After(w, m))
  {
    if m.enabled {
      WireGrows(w, After(w, m), m.exchange, m.sent, m.event);
    } else {
      WireSame(w, After(w, m));
    }
  }

  lemma GiveKeepsInv(w: World, m: Move)
    requires WorldInv(w) && Possible(w, m) && m.Give?
    ensures WorldInv(After(w, m))
  {
    GiveKeepsAccount(w, m);
    GiveKeepsClients(w, m);
    GiveKeepsWire(w, m);
    Kept(w, After(w, m));
  }

  /** A task that was not sending ends or goes on, and rows may leave the outbox: every event that
      leaves it must be accounted for otherwise. */
  lemma AccountAfter(w: World, v: World, p: nat, lost: set<Event>)
    requires v.server == w.server && v.given == w.given
    requires w.skipped <= v.skipped && w.pruned <= v.pruned && w.refused <= v.refused && w.abandoned <= v.abandoned
    requires forall q :: q in w.tasks && q != p ==> q in v.tasks && v.tasks[q] == w.tasks[q]
    requires forall r :: r in w.outbox ==> (r in v.outbox && v.outbox[r] == w.outbox[r]) || w.outbox[r] in lost
    requires p in w.tasks && w.tasks[p].Sending? ==> w.tasks[p].event in lost
    requires forall e :: e in lost ==> HoldsEvent(v.server, e) || Queued(v, e) || GivenUp(v, e)
    ensures KeepsAccount(w, v)
  {
    forall e | e in w.given && Accounted(w, e) ensures Accounted(v, e) {
      if Queued(w, e) {
        var r :| r in w.outbox && w.outbox[r] == e;
        if e !in lost { assert r in v.outbox && v.outbox[r] == e; }
      } else if InFlight(w, e) {
        var q :| q in w.tasks && w.tasks[q].Sending? && w.tasks[q].event == e;
        if q != p { assert v.tasks[q] == w.tasks[q]; }
      }
    }
  }

  lemma AcknowledgedKeepsInv(w: World, m: Move)
    requires WorldInv(w) && Possible(w, m) && m.Acknowledged?
    ensures WorldInv(After(w, m))
  {
    var v, t := After(w, m), w.tasks[m.p];
    WireSame(w, v);
    ClientsStayOk(w, v, m.p, None);
    assert TaskOk(w, t) && HoldsEvent(w.server, t.event);
    AccountAfter(w, v, m.p, {t.event});
    Kept(w, v);
  }

  lemma QueueKeepsAccount(w: World, m: Move)
    requires WorldInv(w) && Possible(w, m) && m.Queue?
    ensures KeepsAccount(w, After(w, m))
  {
    var v, e := After(w, m), w.tasks[m.p].event;
    if m.row.Some? { assert v.outbox[m.row.value] == e && Queued(v, e); }
    AccountAfter(w, v, m.p, {e});
  }

  lemma QueueKeepsInv(w: World, m: Move)
    requires WorldInv(w) && Possible(w, m) && m.Queue?
    ensures WorldInv(After(w, m))
  {
    var v := After(w, m);
    WireSame(w, v);
    ClientsStayOk(w, v, m.p, None);
    QueueKeepsAccount(w, m);
    Kept(w, v);
  }

  lemma StartKeepsInv(w: World, m: Move)
    requires WorldInv(w) && Possible(w, m) && m.Start?
    ensures WorldInv(After(w, m))
  {
    var v := After(w, m);
    WireSame(w, v);
    ClientsStayOk(w, v, m.p, Some(Draining(m.items)));
    AccountAfter(w, v, m.p, {});
    Kept(w, v);
  }

  lemma ItemsStayOk(w: World, v: World, items: seq<Item>)
    requires Extends(w, v) && items != [] && forall i :: i in items ==> ItemOk(w, i)
    ensures ItemOk(v, items[0]) && forall i :: i in items[1..] ==> ItemOk(v, i)
  {
    assert items[0] in items && forall i :: i in items[1..] ==> i in items;
  }

  lemma ResendKeepsInv(w: World, m: Move)
    requires WorldInv(w) && Possible(w, m) && m.Resend?
    ensures WorldInv(After(w, m))
  {
    assert TaskOk(w, w.tasks[m.p]);
    ItemsStayOk(w, w, w.tasks[m.p].items);
    if m.enabled { ResendSends(w, m); } else { ResendSkips(w, m); }
  }

  lemma ResendSends(w: World, m: Move)
    requires WorldInv(w) && Possible(w, m) && m.Resend? && m.enabled
    requires var items := w.tasks[m.p].items; ItemOk(w, items[0]) && forall i :: i in items[1..] ==> ItemOk(w, i)
    ensures WorldInv(After(w, m))
  {
    var v, items := After(w, m), w.tasks[m.p].items;
    WireGrows(w, v, m.exchange, m.sent, items[0].event);
    ResendSendsClients(w, m);
    AccountAfter(w, v, m.p, {});
    Kept(w, v);
  }

  lemma ResendSendsClients(w: World, m: Move)
    requires WorldInv(w) && Possible(w, m) && m.Resend? && m.enabled
    requires var items := w.tasks[m.p].items; ItemOk(w, items[0]) && forall i :: i in items[1..] ==> ItemOk(w, i)
    ensures ClientsOk(After(w, m))
  {
    var items := w.tasks[m.p].items;
    ClientsStayOk(w, After(w, m), m.p, Some(Resending(items[0], m.exchange, items[1..])));
  }

  lemma ResendSkips(w: World, m: Move)
    requires WorldInv(w) && Possible(w, m) && m.Resend? && !m.enabled
    requires var items := w.tasks[m.p].items; ItemOk(w, items[0]) && forall i :: i in items[1..] ==> ItemOk(w, i)
    ensures WorldInv(After(w, m))
  {
    var v, items := After(w, m), w.tasks[m.p].items;
    WireSame(w, v);
    ClientsStayOk(w, v, m.p, Some(Draining(items[1..])));
    AccountAfter(w, v, m.p, {items[0].event});
    Kept(w, v);
  }

  lemma CompleteKeepsAccount(w: World, m: Move)
    requires WorldInv(w) && Possible(w, m) && m.Complete?
    ensures KeepsAccount(w, After(w, m))
  {
    var t := w.tasks[m.p];
    assert TaskOk(w, t) && HoldsEvent(w.server, t.item.event);
    AccountAfter(w, After(w, m), m.p, {t.item.event});
  }

  lemma CompleteKeepsInv(w: World, m: Move)
    requires WorldInv(w) && Possible(w, m) && m.Complete?
    ensures WorldInv(After(w, m))
  {
    var v, t := After(w, m), w.tasks[m.p];
    assert TaskOk(w, t);
    WireSame(w, v);
    ClientsStayOk(w, v, m.p, if m.deleted then Some(Draining(t.rest)) else None);
    CompleteKeepsAccount(w, m);
    Kept(w, v);
  }

  lemma FailKeepsInv(w: World, m: Move)
    requires WorldInv(w) && Possible(w, m) && m.Fail?
    ensures WorldInv(After(w, m))
  {
    var v, t := After(w, m), w.tasks[m.p];
    assert TaskOk(w, t);
    WireSame(w, v);
    ClientsStayOk(w, v, m.p, if m.updated then Some(Draining(t.rest)) else None);
    AccountAfter(w, v, m.p, {});
    Kept(w, v);
  }

  lemma EndKeepsInv(w: World, m: Move)
    requires WorldInv(w) && Possible(w, m) && m.End?
    ensures WorldInv(After(w, m))
  {
    var v := After(w, m);
    WireSame(w, v);
    ClientsStayOk(w, v, m.p, None);
    AccountAfter(w, v, m.p, {});
    Kept(w, v);
  }

  lemma StopKeepsInv(w: World, m: Move)
    requires WorldInv(w) && Possible(w, m) && m.Stop?
    ensures WorldInv(After(w, m))
  {
    var v, t := After(w, m), w.tasks[m.p];
    WireSame(w, v);
    ClientsStayOk(w, v, m.p, None);
    AccountAfter(w, v, m.p, if t.Sending? then {t.event} else {});
    Kept(w, v);
  }

  lemma PruneKeepsInv(w: World, m: Move)
    requires WorldInv(w) && Possible(w, m) && m.Prune?
    ensures WorldInv(After(w, m))
  {
    var v := After(w, m);
    WireSame(w, v);
    forall p | p in v.tasks ensures TaskOk(v, v.tasks[p]) { TaskStaysOk(w, v, w.tasks[p]); }
    forall e | e in w.given && Accounted(w, e) ensures Accounted(v, e) {
      if Queued(w, e) {
        var r :| r in w.outbox && w.outbox[r] == e;
        if r !in m.removed { assert r in v.outbox && v.outbox[r] == e; }
      } else if InFlight(w, e) {
        var q :| q in w.tasks && w.tasks[q].Sending? && w.tasks[q].event == e;
        assert v.tasks[q] == w.tasks[q];
      }
    }
    Kept(w, v);
  }

  // ---------------------------------------------------------------- moves of the monitor

  lemma ServeKeepsHandlers(w: World, m: Move)
    requires WorldInv(w) && Possible(w, m) && m.Serve?
    ensures WireOk(After(w, m))
  {
    HandlersComeFrom(w.server, m.step);
  }

  lemma ServeKeepsOnlyGiven(w: World, m: Move)
    requires WorldInv(w) && Possible(w, m) && m.Serve?
    ensures OnlyGiven(After(w, m))
  {
    var v := After(w, m);
    forall e | MayHold(v.server, e) ensures e in w.given {
      EventsComeFrom(w.server, m.step, e);
    }
    forall l, e | l in v.server.file.survivors && e in EventsOf(l.hist) ensures e in w.given {
      assert MayHold(v.server, e);
    }
    forall e | e in EventsOf(v.server.mem.hist) ensures e in w.given {
      assert MayHold(v.server, e);
    }
  }

  /** An acknowledged event is the very event that the history holds under that ID. */
  lemma AnsweredEventIsHeld(w: World, m: Move)
    requires WorldInv(w) && Possible(w, m) && m.Serve? && OnlyGiven(After(w, m))
    requires m.step.Finish? && Concluded(w.server, m.step).response.Done?
    ensures var r := w.server.handlers[m.step.h].request;
      r.exchange in w.net && w.net[r.exchange].event == Some(OpOf(w.server, m.step).event)
      && HoldsEvent(After(w, m).server, OpOf(w.server, m.step).event)
  {
    var v, e := After(w, m), OpOf(w.server, m.step).event;
    AnsweredIsHeld(w.server, m.step);
    var events := EventsOf(v.server.mem.hist);
    var i :| 0 <= i < |events| && events[i].id == e.id;
    assert events[i] in events;
    assert events[i] in w.given && e in w.given;
  }

  lemma ServeKeepsEvents(w: World, m: Move)
    requires Inv(w.server) && Possible(w, m) && m.Serve?
    ensures forall e :: HoldsEvent(w.server, e) && !Forgets(w, m, e) ==> HoldsEvent(After(w, m).server, e)
  {
    forall e | HoldsEvent(w.server, e) && !Forgets(w, m, e) ensures HoldsEvent(After(w, m).server, e) {
      StepKeepsEvents(w.server, m.step, e);
    }
  }

  lemma EarlierAnswersHold(w: World, m: Move)
    requires Inv(w.server) && AnswersHold(w) && Possible(w, m) && m.Serve? && Safe(w, m)
    ensures forall x :: x in w.answered ==>
      x in w.net && w.net[x].event.Some? && HoldsEvent(After(w, m).server, w.net[x].event.value)
  {
    ServeKeepsEvents(w, m);
    forall x | x in w.answered
      ensures x in w.net && w.net[x].event.Some? && HoldsEvent(After(w, m).server, w.net[x].event.value)
    {
      assert Answered(w, w.net[x].event.value);
    }
  }

  lemma ServeKeepsAnswers(w: World, m: Move)
    requires WorldInv(w) && Possible(w, m) && m.Serve? && Safe(w, m) && OnlyGiven(After(w, m))
    ensures AnswersHold(After(w, m))
  {
    EarlierAnswersHold(w, m);
    if m.step.Finish? && Concluded(w.server, m.step).response.Done? {
      AnsweredEventIsHeld(w, m);
    }
  }

  /** What the clients have does not change when the monitor makes a step. */
  lemma ServeKeepsAtHand(w: World, m: Move, e: Event)
    requires Possible(w, m) && m.Serve?
    ensures AtHand(w, e) <==> AtHand(After(w, m), e)
  {
    var v := After(w, m);
    assert v.outbox == w.outbox && v.tasks == w.tasks;
  }

  lemma ServeKeepsInv(w: World, m: Move)
    requires WorldInv(w) && Possible(w, m) && m.Serve? && Safe(w, m)
    ensures WorldInv(After(w, m))
  {
    var v := After(w, m);
    StepKeepsInv(w.server, m.step);
    ServeKeepsHandlers(w, m);
    ServeKeepsOnlyGiven(w, m);
    ServeKeepsAnswers(w, m);
    ServeKeepsEvents(w, m);
    forall p | p in v.tasks ensures TaskOk(v, v.tasks[p]) { TaskStaysOk(w, v, w.tasks[p]); }
    forall e | e in w.given && Accounted(w, e) ensures Accounted(v, e) {
      ServeKeepsAtHand(w, m, e);
    }
    Kept(w, v);
  }

  lemma MoveKeepsInv(w: World, m: Move)
    requires WorldInv(w) && Possible(w, m) && Safe(w, m)
    ensures WorldInv(After(w, m))
  {
    match m
    case Give(_, _, _, _, _) => GiveKeepsInv(w, m);
    case Acknowledged(_) => AcknowledgedKeepsInv(w, m);
    case Queue(_, _) => QueueKeepsInv(w, m);
    case Start(_, _) => StartKeepsInv(w, m);
    case Resend(_, _, _, _) => ResendKeepsInv(w, m);
    case Complete(_, _) => CompleteKeepsInv(w, m);
    case Fail(_, _) => FailKeepsInv(w, m);
    case End(_) => EndKeepsInv(w, m);
    case Prune(_) => PruneKeepsInv(w, m);
    case Stop(_) => StopKeepsInv(w, m);
    case Serve(_) => ServeKeepsInv(w, m);
  }

  /** Every move keeps the account of the events and of the answers, if and only if it is safe. */
  lemma MoveKeepsInvExactlyWhen(w: World, m: Move)
    requires WorldInv(w) && Possible(w, m)
    ensures WorldInv(After(w, m)) <==> Safe(w, m)
  {
    if Safe(w, m) {
      MoveKeepsInv(w, m);
    } else {
      var e :| Forgets(w, m, e) && !(!Answered(w, e) && AtHand(w, e));
      ServeKeepsAtHand(w, m, e);
      var v := After(w, m);
      assert v.server.mem == m.step.found && !HoldsEvent(v.server, e);
      assert AnswersHold(v) ==> !Answered(w, e);
      assert e in v.given;
    }
  }

  // ---------------------------------------------------------------- runs of the whole system

  ghost predicate IsExecution(worlds: seq<World>, moves: seq<Move>) {
    && |worlds| == |moves| + 1 && Beginning(worlds[0])
    && forall i :: 0 <= i < |moves| ==> Linked(worlds, moves, i)
  }

  ghost predicate Linked(worlds: seq<World>, moves: seq<Move>, i: int)
    requires 0 <= i < |moves| && |worlds| == |moves| + 1
  {
    Possible(worlds[i], moves[i]) && worlds[i + 1] == After(worlds[i], moves[i])
  }

  ghost predicate AllSafe(worlds: seq<World>, moves: seq<Move>, n: nat)
    requires n <= |moves| && n <= |worlds|
  {
    forall i :: 0 <= i < n ==> Safe(worlds[i], moves[i])
  }

  /** The first `n` moves wrote no event that they repeat after 10000 others had been accepted. */
  ghost predicate AllInTime(worlds: seq<World>, moves: seq<Move>, n: nat)
    requires IsExecution(worlds, moves) && n <= |moves|
  {
    forall i :: 0 <= i < n ==> InTimeAt(worlds, moves, i)
  }

  ghost predicate InTimeAt(worlds: seq<World>, moves: seq<Move>, i: int)
    requires 0 <= i < |moves| && IsExecution(worlds, moves)
  {
    assert Linked(worlds, moves, i);
    InTime(worlds[i], moves[i])
  }

  lemma BeginningInv(w: World)
    requires Beginning(w)
    ensures WorldInv(w)
  {
    InitialInv(w.server);
  }

  lemma {:induction false} ExecutionKeepsInv(worlds: seq<World>, moves: seq<Move>, n: nat)
    requires IsExecution(worlds, moves) && n < |worlds| && AllSafe(worlds, moves, n)
    ensures WorldInv(worlds[n])
  {
    if n == 0 {
      BeginningInv(worlds[0]);
    } else {
      ExecutionKeepsInv(worlds, moves, n - 1);
      assert Linked(worlds, moves, n - 1);
      MoveKeepsInv(worlds[n - 1], moves[n - 1]);
    }
  }

  lemma MoveKeepsServer(w: World, m: Move)
    requires Inv(w.server) && Possible(w, m)
    ensures Inv(After(w, m).server)
  {
    if m.Serve? { StepKeepsInv(w.server, m.step); }
  }

  /** The monitor itself stays in order whatever a power loss leaves. */
  lemma {:induction false} ExecutionKeepsServer(worlds: seq<World>, moves: seq<Move>, n: nat)
    requires IsExecution(worlds, moves) && n < |worlds|
    ensures Inv(worlds[n].server)
  {
    if n == 0 {
      InitialInv(worlds[0].server);
    } else {
      ExecutionKeepsServer(worlds, moves, n - 1);
      assert Linked(worlds, moves, n - 1);
      MoveKeepsServer(worlds[n - 1], moves[n - 1]);
    }
  }

  /** The move is no restart that loads an event which some version of the file that may survive does
      not have yet. */
  ghost predicate LoadsDurably(w: World, m: Move) {
    m.Serve? && m.step.Restart? ==> forall l :: l in w.server.file.survivors ==> !Lacks(l, w.server.file.visible)
  }

  lemma MoveStaysUnexposed(w: World, m: Move)
    requires Inv(w.server) && Possible(w, m) && !Exposed(w.server) && LoadsDurably(w, m)
    ensures !Exposed(After(w, m).server)
  {
    if m.Serve? { ExposedExactlyAfter(w.server, m.step); }
  }

  lemma NotExposedAtFirst(w: World)
    requires Beginning(w)
    ensures !Exposed(w.server)
  {
    LongerLacksNothing(NOTHING, NOTHING);
  }

  lemma {:induction false} NeverExposed(worlds: seq<World>, moves: seq<Move>, n: nat)
    requires IsExecution(worlds, moves) && n < |worlds|
    requires forall i :: 0 <= i < n ==> LoadsDurably(worlds[i], moves[i])
    ensures !Exposed(worlds[n].server)
  {
    if n == 0 {
      NotExposedAtFirst(worlds[0]);
    } else {
      NeverExposed(worlds, moves, n - 1);
      ExecutionKeepsServer(worlds, moves, n - 1);
      assert Linked(worlds, moves, n - 1) && LoadsDurably(worlds[n - 1], moves[n - 1]);
      MoveStaysUnexposed(worlds[n - 1], moves[n - 1]);
    }
  }

  /** Without such a restart no power loss is unsafe, whenever it comes and whatever it leaves. */
  lemma DurableRestartsAreSafe(worlds: seq<World>, moves: seq<Move>, n: nat)
    requires IsExecution(worlds, moves) && n < |worlds|
    requires forall i :: 0 <= i < n ==> LoadsDurably(worlds[i], moves[i])
    ensures AllSafe(worlds, moves, n)
  {
    forall i | 0 <= i < n ensures Safe(worlds[i], moves[i]) {
      NeverExposed(worlds, moves, i);
      assert Linked(worlds, moves, i);
      UnexposedIsSafe(worlds[i], moves[i]);
    }
  }

  predicate Persisted(w: World, e: Event) {
    e in EventsOf(w.server.file.visible.hist)
  }

  lemma HeldIsPersisted(w: World, e: Event)
    requires Inv(w.server) && HoldsEvent(w.server, e)
    ensures Persisted(w, e)
  {
    LongerHistoryHolds(w.server.mem.hist, w.server.file.visible.hist);
  }

  /** Conservation: as long as no power loss was unsafe, each event given to SendOrQueue is in the history that
      the monitor's file holds, in the outbox, with a client that is still sending it, pruned,
      skipped because monitoring is disabled, reported to the caller as an enqueue error, or given
      up because its client was stopped in the middle of sending. */
  lemma Conservation(worlds: seq<World>, moves: seq<Move>, n: nat, e: Event)
    requires IsExecution(worlds, moves) && n < |worlds| && AllSafe(worlds, moves, n) && e in worlds[n].given
    ensures Persisted(worlds[n], e) || Queued(worlds[n], e) || InFlight(worlds[n], e) || GivenUp(worlds[n], e)
  {
    ExecutionKeepsInv(worlds, moves, n);
    assert Accounted(worlds[n], e);
    if HoldsEvent(worlds[n].server, e) { HeldIsPersisted(worlds[n], e); }
  }

  function EventOf(t: Task): Option<Event> {
    match t
    case Sending(e, _) => Some(e)
    case Draining(_) => None
    case Resending(item, _, _) => Some(item.event)
  }

  /** A client that saw a 2xx answer, of a direct send or of a retry, knows that the file holds its event. */
  lemma AcknowledgedMeansPersisted(w: World, m: Move)
    requires WorldInv(w) && Possible(w, m) && (m.Complete? || m.Acknowledged?)
    ensures EventOf(w.tasks[m.p]).Some? && Persisted(w, EventOf(w.tasks[m.p]).value)
  {
    var t := w.tasks[m.p];
    assert TaskOk(w, t);
    HeldIsPersisted(w, EventOf(t).value);
  }

  /** A row leaves the outbox only when its event is persisted, by a send that was skipped because
      monitoring is disabled, or by pruning. */
  lemma RowLeavesOnlyWhen(w: World, m: Move, r: string)
    requires WorldInv(w) && Possible(w, m) && r in w.outbox && r !in After(w, m).outbox
    ensures || (m.Complete? && m.deleted && Persisted(w, w.outbox[r]))
            || (m.Resend? && !m.enabled && w.outbox[r] in After(w, m).skipped)
            || (m.Prune? && r in m.removed && w.outbox[r] in After(w, m).pruned)
  {
    if m.Complete? {
      AcknowledgedMeansPersisted(w, m);
      assert TaskOk(w, w.tasks[m.p]);
    } else if m.Resend? {
      var items := w.tasks[m.p].items;
      assert TaskOk(w, w.tasks[m.p]) && items[0] in items;
      assert ItemOk(w, items[0]);
    }
  }

  ghost predicate InTime(w: World, m: Move)
    requires Possible(w, m)
  {
    m.Serve? ==> Timely(w.server, m.step)
  }

  lemma MoveFoldsOnceExactlyWhen(w: World, m: Move)
    requires Inv(w.server) && FoldedOnce(w.server) && Possible(w, m)
    ensures FoldedOnce(After(w, m).server) <==> InTime(w, m)
  {
    if m.Serve? { StepFoldsOnceExactlyWhen(w.server, m.step); }
  }

  lemma BeginningFoldsOnce(w: World)
    requires Beginning(w)
    ensures FoldedOnce(w.server)
  {
  }

  lemma {:induction false} InTimeFoldsOnce(worlds: seq<World>, moves: seq<Move>, n: nat)
    requires IsExecution(worlds, moves) && n < |worlds| && AllInTime(worlds, moves, n)
    ensures FoldedOnce(worlds[n].server)
  {
    if n == 0 {
      BeginningFoldsOnce(worlds[0]);
    } else {
      InTimeFoldsOnce(worlds, moves, n - 1);
      ExecutionKeepsServer(worlds, moves, n - 1);
      assert Linked(worlds, moves, n - 1) && InTimeAt(worlds, moves, n - 1);
      MoveFoldsOnceExactlyWhen(worlds[n - 1], moves[n - 1]);
    }
  }

  /** Whatever the clients, the network and the power do, no event is folded in twice if and only if
      no request wrote an event that it repeats after 10000 others had been accepted. */
  lemma ExecutionFoldsOnce(worlds: seq<World>, moves: seq<Move>, n: nat)
    requires IsExecution(worlds, moves) && n < |worlds|
    ensures (forall k :: 0 <= k <= n ==> FoldedOnce(worlds[k].server)) <==> AllInTime(worlds, moves, n)
  {
    if AllInTime(worlds, moves, n) {
      forall k | 0 <= k <= n ensures FoldedOnce(worlds[k].server) { InTimeFoldsOnce(worlds, moves, k); }
    }
    if forall k :: 0 <= k <= n ==> FoldedOnce(worlds[k].server) {
      forall i | 0 <= i < n ensures InTimeAt(worlds, moves, i) {
        ExecutionKeepsServer(worlds, moves, i);
        assert Linked(worlds, moves, i) && FoldedOnce(worlds[i].server) && FoldedOnce(worlds[i + 1].server);
        MoveFoldsOnceExactlyWhen(worlds[i], moves[i]);
      }
    }
  }

  ghost predicate OccursOnce(events: seq<Event>, e: Event) {
    exists i :: 0 <= i < |events| && events[i] == e && forall j :: 0 <= j < |events| && j != i ==> events[j] != e
  }

  lemma DistinctOccursOnce(events: seq<Event>, e: Event)
    requires DistinctIds(events) && e in events
    ensures OccursOnce(events, e)
  {
    var i :| 0 <= i < |events| && events[i] == e;
    forall j | 0 <= j < |events| && j != i ensures events[j] != e {
      assert events[j].id != events[i].id;
    }
  }

  /** At-least-once delivery into an idempotent receiver is exactly-once: when the outbox is empty,
      no client is sending, nothing was given up, no power loss was unsafe and every retry came
      before 10000 other acceptances, each given event is exactly once in the history that the file
      holds, and that history holds nothing else. */
  lemma DeliveredExactlyOnce(worlds: seq<World>, moves: seq<Move>, n: nat)
    requires IsExecution(worlds, moves) && n < |worlds|
    requires AllSafe(worlds, moves, n) && AllInTime(worlds, moves, n)
    requires worlds[n].outbox == map[] && forall e :: !InFlight(worlds[n], e) && !GivenUp(worlds[n], e)
    ensures var events := EventsOf(worlds[n].server.file.visible.hist);
      && (forall e :: e in worlds[n].given ==> OccursOnce(events, e))
      && (forall e :: e in events ==> e in worlds[n].given)
  {
    var w := worlds[n];
    ExecutionKeepsInv(worlds, moves, n);
    InTimeFoldsOnce(worlds, moves, n);
    var events := EventsOf(w.server.file.visible.hist);
    forall e | e in w.given ensures OccursOnce(events, e) {
      Conservation(worlds, moves, n, e);
      assert !Queued(w, e) && !InFlight(w, e) && !GivenUp(w, e);
      DistinctOccursOnce(events, e);
    }
  }
}
