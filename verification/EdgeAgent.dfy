// The edge agent's own code (internal/agent/agent.go): taking events in and flushing the spool. The methods do exactly
// what the steps of module StoreForward say, so whatever holds of every run there holds of these programs.
module EdgeAgent {
  import opened Wrappers
  import opened Ingest
  import opened StoreForward
  import Q = WalQueue
  import F = FileStore
  import R = Router
  import S = Spool

  // ----- what a flush does ------------------------------------------------------------------------------------

  // An end of the server looks to the agent like a lost response; here the server stays up.
  predicate FlushStep(step: Step) {
    step.DeleteNext? || ((step.SendBatch? || step.SendOne?) && !step.fate.answer.Died?)
  }

  ghost predicate FlushSteps(steps: seq<Step>) { forall i :: 0 <= i < |steps| ==> FlushStep(steps[i]) }

  // The requests among the steps, in order.
  function Asked(steps: seq<Step>): seq<Fate> {
    if steps == [] then []
    else
      var step := steps[|steps| - 1];
      Asked(steps[..|steps| - 1]) + (if step.SendBatch? || step.SendOne? then [step.fate] else [])
  }

  // What the flush is about to delete is recorded, not just known to have been.
  ghost predicate Vouched(w: World) { w.phase.Deleting? ==> forall id :: id in w.phase.ok ==> id in Recorded(w.server) }

  ghost predicate Stays(w: World, id: string) { Q.Find(w.spool.list, id).Some? || id in Recorded(w.server) || id in w.discarded }

  // Nothing recorded is forgotten; an event leaves the spool only if it is settled, and if what is deleted is vouched for,
  // only if it is recorded or was falsely acknowledged.
  ghost predicate OnlySettledLeave(w: World, w': World) {
    && w'.server.forgotten == w.server.forgotten && w.discarded <= w'.discarded
    && (forall id :: id in Recorded(w.server) ==> id in Recorded(w'.server))
    && (forall id :: Q.Find(w.spool.list, id).Some? ==> Stays(w', id) || id in w'.server.forgotten)
    && (Vouched(w) ==> Vouched(w') && forall id :: Q.Find(w.spool.list, id).Some? ==> Stays(w', id))
  }

  lemma LeavesAll(a: World, b: World, c: World)
    requires OnlySettledLeave(a, b) && OnlySettledLeave(b, c)
    ensures OnlySettledLeave(a, c)
  {
    hide Q.Find, Recorded, Vouched;
  }

  ghost predicate ServerKeeps(w: World, w': World) {
    && w'.server.forgotten == w.server.forgotten
    && (forall id :: id in Recorded(w.server) ==> id in Recorded(w'.server))
    && (Vouched(w) ==> Vouched(w'))
  }

  lemma ServerLeaves(w: World, w': World)
    requires w'.spool == w.spool && w'.discarded == w.discarded && ServerKeeps(w, w')
    ensures OnlySettledLeave(w, w')
  {
    hide Q.Find, Recorded, Vouched;
  }

  lemma DeleteLeaves(w: World, w': World, id: string)
    requires WInv(w) && (Noticed(w.server, id) || id in w.discarded) && (Vouched(w) ==> id in Recorded(w.server) || id in w.discarded)
    requires w'.spool == Q.Delete(w.spool, id) && w'.discarded == w.discarded && w'.server == w.server && (Vouched(w) ==> Vouched(w'))
    ensures OnlySettledLeave(w, w')
  {
    hide WInv, Q.Find, Q.Without, Q.Delete, S.Sound, S.InOrder, Recorded, SvInv, PhaseOk, Ready, Vouched;
    WInvFacts(w);
    S.DeleteKeeps(w.spool, id, w.accepted);
    forall x | Q.Find(w.spool.list, x).Some? ensures x == id || Stays(w', x) { Q.FindWithout(w.spool.list, id, x); }
  }

  lemma SendBatchLeaves(site: string, w: World, fate: Fate)
    requires WInv(w) && w.phase.Sending? && !fate.answer.Died?
    ensures OnlySettledLeave(w, DoSendBatch(site, w, fate))
  {
    hide S.Sound, SvInv, Recorded, KeptIn, IngestAll, Sendable, OnlySettledLeave;
    var Sending(items, start) := w.phase;
    var evs := items[start..Min(start + BATCH, |items|)];
    IngestAllKeeps(w.server, site, evs, fate.lucks);
    ServerLeaves(w, DoSendBatch(site, w, fate));
  }

  lemma AcknowledgedLeaves(w: World, id: string)
    requires w.phase.Single?
    ensures OnlySettledLeave(w, Acknowledged(w, id))
    ensures id in Recorded(Acknowledged(w, id).server) || id in Acknowledged(w, id).discarded
  {
    hide Q.Find, Recorded;
  }

  lemma SendOneLeaves(site: string, w: World, fate: Fate)
    requires WInv(w) && w.phase.Single? && !fate.answer.Died?
    ensures OnlySettledLeave(w, DoSendOne(site, w, fate))
  {
    hide WInv, SvInv, Recorded, Ingested, Acknowledged, Remembers, S.Sound, Q.NoDup, S.InOrder, OnlySettledLeave, Q.Delete;
    WInvFacts(w);
    var ev := w.phase.items[w.phase.next];
    var (sv, fine) := Ingested(w.server, site, ev, LuckAt(fate.lucks, 0));
    IngestKeeps(w.server, site, ev, LuckAt(fate.lucks, 0));
    StillRecorded(w.server, site, ev, LuckAt(fate.lucks, 0));
    ServerGrows(w, sv);
    var w1, w2, w' := w.(server := sv), Acknowledged(w, ev.id), DoSendOne(site, w, fate);
    AcknowledgedKeeps(w, ev.id);
    AcknowledgedLeaves(w, ev.id);
    ServerLeaves(w, w1);
    if fate.answer == EmptyResults(false) {
      DeleteLeaves(w2, w', ev.id);
      LeavesAll(w, w2, w');
    } else if (fate.answer.EmptyResults? || fate.answer.Answered?) && fine {
      DeleteLeaves(w1, w', ev.id);
      LeavesAll(w, w1, w');
    } else {
      ServerLeaves(w, w');
    }
  }

  lemma StepLeaves(opts: Q.Options, site: string, w: World, step: Step)
    requires WInv(w) && Ready(w) && FlushStep(step)
    ensures OnlySettledLeave(w, Next(opts, site, w, step))
  {
    hide S.Sound, SvInv, Recorded, KeptIn, Q.Delete, Sendable, OnlySettledLeave, DoSendBatch, DoSendOne;
    match step
    case SendBatch(fate) => if w.phase.Sending? { SendBatchLeaves(site, w, fate); } else { ServerLeaves(w, w); }
    case SendOne(fate) => if w.phase.Single? { SendOneLeaves(site, w, fate); } else { ServerLeaves(w, w); }
    case DeleteNext =>
      var w' := Next(opts, site, w, step);
      if w.phase.Deleting? && w.phase.items[w.phase.next].id in w.phase.ok {
        DeleteLeaves(w, w', w.phase.items[w.phase.next].id);
      } else {
        ServerLeaves(w, w');
      }
  }

  lemma {:induction false} StepsLeave(opts: Q.Options, site: string, w: World, steps: seq<Step>)
    requires WInv(w) && !opts.policy.DropOldest? && FlushSteps(steps)
    ensures OnlySettledLeave(w, From(opts, site, w, steps))
  {
    hide WInv, Next, Ready, OnlySettledLeave, FlushStep;
    if steps == [] {
      ServerSame(w);
    } else {
      var front, step := steps[..|steps| - 1], steps[|steps| - 1];
      StepsLeave(opts, site, w, front);
      FromSnoc(opts, site, w, front, step);
      assert front + [step] == steps;
      StepLeaves(opts, site, From(opts, site, w, front), step);
      LeavesAll(w, From(opts, site, w, front), From(opts, site, w, steps));
    }
  }

  lemma ServerSame(w: World)
    ensures OnlySettledLeave(w, w)
  {
    ServerLeaves(w, w);
  }

  // Whatever becomes of its requests, a flush removes an event from the spool only if it is recorded or was falsely
  // acknowledged, and nothing recorded is forgotten.
  lemma FlushLeaves(opts: Q.Options, site: string, w: World, steps: seq<Step>)
    requires WInv(w) && w.phase.Idle? && !opts.policy.DropOldest? && FlushSteps(steps)
    ensures var w' := From(opts, site, w, [StartFlush] + steps);
            && (forall id :: Q.Find(w.spool.list, id).Some? ==>
                  Q.Find(w'.spool.list, id).Some? || id in Recorded(w'.server) || id in w'.discarded)
            && (forall id :: id in Recorded(w.server) ==> id in Recorded(w'.server))
            && w'.server.forgotten == w.server.forgotten
  {
    hide WInv, From, Recorded, Q.Find, FlushSteps;
    StartFlushing(opts, site, w);
    StepsLeave(opts, site, From(opts, site, w, [StartFlush]), steps);
    FromConcat(opts, site, w, [StartFlush], steps);
  }

  // While no batch is answered with empty results, a flush removes a prefix of the spool.
  lemma {:induction false} FlushSuffix(opts: Q.Options, site: string, w: World, steps: seq<Step>) returns (n: nat)
    requires WInv(w) && !opts.policy.DropOldest? && FlushSteps(steps) && w.inTurn && (w.phase.Single? ==> !w.phase.resume)
    requires forall i :: 0 <= i < |steps| && steps[i].SendBatch? ==> !steps[i].fate.answer.EmptyResults?
    ensures n <= |w.spool.list| && From(opts, site, w, steps).spool.list == w.spool.list[n..]
    ensures var w' := From(opts, site, w, steps); w'.inTurn && (w'.phase.Single? ==> !w'.phase.resume)
  {
    hide WInv, Next, Ready, Recorded;
    if steps == [] {
      n := 0;
    } else {
      var front, step := steps[..|steps| - 1], steps[|steps| - 1];
      n := FlushSuffix(opts, site, w, front);
      FromSnoc(opts, site, w, front, step);
      assert front + [step] == steps;
      var w1 := From(opts, site, w, front);
      assert FlushStep(step);
      FlushStepHead(opts, site, w1, step);
      TurnKept(opts, site, w1, step);
      if From(opts, site, w, steps).spool.list != w1.spool.list { n := n + 1; }
    }
  }

  // ----- a flush that meets no trouble --------------------------------------------------------------------------

  const CLEAN: Fate := Fate(Answered, [])

  predicate Clean(step: Step) { FlushStep(step) && (step.DeleteNext? || step.fate == CLEAN) }

  // What is left to flush is exactly what is spooled, and the server took all it was sent.
  ghost predicate OnCourse(w: World) {
    match w.phase
    case Idle => w.spool.list == []
    case Sending(items, next) => next < |items| && Data(w.spool.list) == items[next..]
    case Deleting(items, next, end, ok) =>
      next < end <= |items| && Data(w.spool.list) == items[next..] && forall i :: next <= i < end ==> items[i].id in ok
    case Single(_, _, _, _) => false
  }

  lemma BatchOnCourse(site: string, w: World)
    requires WInv(w) && OnCourse(w) && w.phase.Sending?
    ensures OnCourse(DoSendBatch(site, w, CLEAN))
  {
    hide S.Sound, SvInv, Recorded, KeptIn, IngestAll, InFront;
    var Sending(items, start) := w.phase;
    var end := Min(start + BATCH, |items|);
    var evs := items[start..end];
    assert forall i :: 0 <= i < |evs| ==> evs[i] == items[start + i];
    IngestAllSucceeds(w.server, site, evs);
    assert forall i :: start <= i < end ==> items[i] == evs[i - start];
  }

  lemma DeleteOnCourse(w: World)
    requires WInv(w) && OnCourse(w) && w.phase.Deleting?
    ensures OnCourse(DoDeleteNext(w))
  {
    hide S.Sound, SvInv, Recorded, KeptIn, Q.Delete, Sendable, InFront;
    var Deleting(items, next, end, ok) := w.phase;
    var l := w.spool.list;
    assert Data(l)[0] == items[next];
    DeleteKeeps(w, items[next].id);
    assert Data(l[1..]) == Data(l)[1..] == items[next + 1..];
  }

  // If every request is answered and nothing fails, a flush that has come to its end leaves the spool empty.
  lemma {:induction false} CleanFlush(opts: Q.Options, site: string, w: World, steps: seq<Step>)
    requires WInv(w) && w.phase.Idle? && !opts.policy.DropOldest? && (forall i :: 0 <= i < |steps| ==> Clean(steps[i]))
    ensures var w' := From(opts, site, w, [StartFlush] + steps);
            OnCourse(w') && (w'.phase.Idle? ==> w'.spool.list == [])
  {
    hide WInv, Ready, DoSendBatch, DoDeleteNext, From;
    if steps == [] {
      FromSnoc(opts, site, w, [], StartFlush);
      FromNone(opts, site, w);
      assert [] + [StartFlush] == [StartFlush] + steps;
      var items := Data(w.spool.list);
      assert items[0..] == items;
    } else {
      var front, step := steps[..|steps| - 1], steps[|steps| - 1];
      CleanFlush(opts, site, w, front);
      FromSnoc(opts, site, w, [StartFlush] + front, step);
      assert ([StartFlush] + front) + [step] == [StartFlush] + steps;
      var w1 := From(opts, site, w, [StartFlush] + front);
      assert Clean(step);
      if step.SendBatch? && w1.phase.Sending? {
        BatchOnCourse(site, w1);
      } else if step.DeleteNext? && w1.phase.Deleting? {
        DeleteOnCourse(w1);
      }
    }
  }

  // Requests of a flush against a server that has no batch endpoint (404), or whose answer to a batch is empty, and that
  // takes events one at a time.
  predicate OneByOne(step: Step, empty: bool) {
    && FlushStep(step) && (step.SendOne? ==> step.fate == CLEAN)
    && (step.SendBatch? ==> if empty then step.fate.answer.EmptyResults? else step.fate.answer.NotFound?)
  }

  // What is left to flush is what is spooled. After a 404 the flush stops with the first batch.
  ghost predicate OnFallback(items: seq<Event>, empty: bool, w: World) {
    var first := Min(BATCH, |items|);
    match w.phase
    case Idle => Data(w.spool.list) == if empty then [] else items[first..]
    case Sending(all, next) =>
      all == items && next < |items| && Data(w.spool.list) == items[next..] && (!empty ==> next == 0)
    case Single(all, next, end, resume) =>
      && all == items && resume == empty && next < end <= |items| && Data(w.spool.list) == items[next..]
      && (!empty ==> end == first)
    case Deleting(_, _, _, _) => false
  }

  lemma HeadDeleted(w: World, items: seq<Event>, next: nat)
    requires WInv(w) && next < |items| && Data(w.spool.list) == items[next..] && Noticed(w.server, items[next].id)
    ensures Data(Q.Delete(w.spool, items[next].id).list) == items[next + 1..]
  {
    hide S.Sound, SvInv, Recorded, KeptIn, Q.Delete, Sendable, InFront;
    var l := w.spool.list;
    assert Data(l)[0] == items[next];
    DeleteKeeps(w, items[next].id);
    assert Data(l[1..]) == Data(l)[1..] == items[next + 1..];
  }

  lemma OneOnFallback(site: string, w: World, items: seq<Event>, empty: bool)
    requires WInv(w) && OnFallback(items, empty, w) && w.phase.Single?
    ensures OnFallback(items, empty, DoSendOne(site, w, CLEAN))
  {
    hide S.Sound, SvInv, Recorded, KeptIn, Q.Delete, InFront, Ingested, Remembers, Data;
    var Single(_, next, end, _) := w.phase;
    var ev := items[next];
    IngestSucceeds(w.server, site, ev, "");
    IngestKeeps(w.server, site, ev, LuckAt([], 0));
    var sv := Ingested(w.server, site, ev, LuckAt([], 0)).0;
    ServerGrows(w, sv);
    HeadDeleted(w.(server := sv), items, next);
    if next + 1 == |items| { assert items[next + 1..] == []; }
  }

  // A server that knows no batches still gets every event: one at a time and at most fifty a flush after a 404, all of
  // them if it answers batches with an empty success.
  lemma {:induction false} FallbackFlush(opts: Q.Options, site: string, w: World, steps: seq<Step>, empty: bool)
    requires WInv(w) && w.phase.Idle? && !opts.policy.DropOldest? && (forall i :: 0 <= i < |steps| ==> OneByOne(steps[i], empty))
    ensures var items, w' := Data(w.spool.list), From(opts, site, w, [StartFlush] + steps);
            && OnFallback(items, empty, w')
            && (w'.phase.Idle? ==> Data(w'.spool.list) == if empty then [] else items[Min(50, |items|)..])
  {
    hide WInv, Ready, DoSendOne, DoDeleteNext, From, IngestAll;
    var items := Data(w.spool.list);
    if steps == [] {
      StartFlushing(opts, site, w);
      assert [StartFlush] + steps == [StartFlush];
      assert items[0..] == items;
    } else {
      var front, step := steps[..|steps| - 1], steps[|steps| - 1];
      FallbackFlush(opts, site, w, front, empty);
      FromSnoc(opts, site, w, [StartFlush] + front, step);
      assert ([StartFlush] + front) + [step] == [StartFlush] + steps;
      var w1 := From(opts, site, w, [StartFlush] + front);
      assert OneByOne(step, empty);
      if step.SendOne? && w1.phase.Single? { OneOnFallback(site, w1, items, empty); }
    }
  }

  lemma FromNone(opts: Q.Options, site: string, w: World)
    requires WInv(w) && !opts.policy.DropOldest?
    ensures From(opts, site, w, []) == w
  {
  }

  lemma {:induction false} AskedAll(steps: seq<Step>, i: nat)
    requires i < |steps| && (steps[i].SendBatch? || steps[i].SendOne?)
    ensures steps[i].fate in Asked(steps)
  {
    if i < |steps| - 1 { AskedAll(steps[..|steps| - 1], i); }
  }

  lemma AskedSnoc(steps: seq<Step>, step: Step)
    ensures Asked(steps + [step]) == Asked(steps) + (if step.SendBatch? || step.SendOne? then [step.fate] else [])
  {
    assert (steps + [step])[..|steps|] == steps;
  }

  // ----- the agent ------------------------------------------------------------------------------------------------

  datatype LocalRoute = LocalRoute(filter: string)

  // What becomes of an event on a local route: a delivery is queued, the route's filter drops it, or the transform or
  // the queue fails.
  datatype LocalFate = Queued | NotKept | Failed

  // Deliveries for the routes up to n that match and keep the event, keyed by event and route.
  function LocalPuts(routes: seq<LocalRoute>, topic: string, id: string, fates: nat -> LocalFate, n: nat): seq<(string, nat)>
    requires n <= |routes|
  {
    if n == 0 then []
    else
      LocalPuts(routes, topic, id, fates, n - 1) + (if LocalMatch(routes[n - 1], topic) && fates(n - 1).Queued? then [(id, n - 1)] else [])
  }

  predicate LocalMatch(rt: LocalRoute, topic: string) { R.Matches(R.LevelsOf(rt.filter), R.LevelsOf(topic)) }

  // Exactly the routes before n that match and keep the event get a delivery, one each and in order.
  lemma {:induction false} LocalPutsIff(routes: seq<LocalRoute>, topic: string, id: string, fates: nat -> LocalFate, n: nat)
    requires n <= |routes|
    ensures var puts := LocalPuts(routes, topic, id, fates, n);
            && (forall e, i: nat :: (e, i) in puts <==> e == id && i < n && LocalMatch(routes[i], topic) && fates(i).Queued?)
            && (forall j, k :: 0 <= j < k < |puts| ==> puts[j].1 < puts[k].1)
  {
    hide LocalMatch;
    if n > 0 {
      LocalPutsIff(routes, topic, id, fates, n - 1);
      var front := LocalPuts(routes, topic, id, fates, n - 1);
      forall j | 0 <= j < |front| ensures front[j].1 < n - 1 { assert (front[j].0, front[j].1) in front; }
    }
  }

  class Agent {
    const site: string
    const routes: seq<LocalRoute>
    const spool: Q.Queue<Event>
    var local: seq<(string, nat)>
    ghost var accepted: seq<string>
    ghost var lost: seq<string>
    ghost var discarded: seq<string>
    ghost var inTurn: bool

    ghost function Here(server: ControlPlane, p: Phase): World
      reads this, spool, server
    {
      World(spool.State(), accepted, lost, discarded, p, inTurn, server.Value())
    }

    ghost predicate At(server: ControlPlane, p: Phase)
      reads this, spool, server, server.store
    {
      spool.Valid() && !spool.opts.policy.DropOldest? && server.Valid() && WInv(Here(server, p))
    }

    ghost predicate Valid(server: ControlPlane)
      reads this, spool, server, server.store
    {
      At(server, Idle)
    }

    constructor (site: string, routes: seq<LocalRoute>, opts: Q.Options, size: Event -> nat, ghost server: ControlPlane)
      requires !opts.policy.DropOldest? && server.Valid() && SvInv(server.Value())
      ensures Valid(server) && fresh(spool) && Here(server, Idle) == START.(server := server.Value()) && local == []
    {
      this.site, this.routes, local := site, routes, [];
      accepted, lost, discarded, inTurn := [], [], [], true;
      spool := new Q.Queue(opts, size, []);
      new;
      StartWith(server.Value());
    }

    // The local deliveries for an event just spooled; the first failure ends it.
    method QueueLocal(id: string, topic: string, fates: nat -> LocalFate) returns (ok: bool, ghost reached: nat)
      modifies this`local
      ensures reached <= |routes| && local == old(local) + LocalPuts(routes, topic, id, fates, reached)
      ensures ok <==> reached == |routes|
      ensures forall i :: 0 <= i < reached && LocalMatch(routes[i], topic) ==> !fates(i).Failed?
      ensures !ok ==> LocalMatch(routes[reached], topic) && fates(reached).Failed?
    {
      hide R.Matches, R.LevelsOf;
      for i := 0 to |routes|
        invariant local == old(local) + LocalPuts(routes, topic, id, fates, i)
        invariant forall j :: 0 <= j < i && LocalMatch(routes[j], topic) ==> !fates(j).Failed?
      {
        var fits := R.Match(routes[i].filter, topic);
        if !fits { continue; }
        match fates(i) {
          case Failed => return false, i;
          case NotKept =>
          case Queued => local := local + [(id, i)];
        }
      }
      return true, |routes|;
    }

    method SpoolEvent(ev: Event, ghost server: ControlPlane) returns (stored: bool)
      requires Valid(server) && !Used(Here(server, Idle), ev.id) && Proper(ev.body)
      modifies this`accepted, spool
      ensures Valid(server)
      ensures Here(server, Idle) == Next(spool.opts, site, old(Here(server, Idle)), Accept(ev.id, ev.body, spool.size(ev)))
      ensures stored <==> ev.id != "" && !Q.Over(spool.opts, |old(spool.list)|, old(spool.bytes), 1, spool.size(ev))
      ensures Data(spool.list) == old(Data(spool.list)) + (if stored then [ev] else [])
      ensures accepted == old(accepted) + (if stored then [ev.id] else [])
    {
      hide WInv, S.Sound, Q.Put, Q.Inv, S.InOrder, SvInv, PhaseOk, Used, Ready, Store, Q.MapOf;
      ghost var w := Here(server, Idle);
      WInvFacts(w);
      NextKeeps(spool.opts, site, w, Accept(ev.id, ev.body, spool.size(ev)));
      NewId(w, ev.id);
      S.PutKeeps(spool.State(), spool.opts, ev, spool.size(ev), accepted);
      var r := spool.PutItem(ev.id, ev);
      if r.Stored? { accepted := accepted + [ev.id]; }
      return r.Stored?;
    }

    // ingestWithTime: spool the event under its new id, then serve the local routes. The caller is told of an error
    // on a local route although the event stays spooled.
    method AcceptEvent(id: string, topic: string, payload: string, fates: nat -> LocalFate, ghost server: ControlPlane)
      returns (ok: bool, ghost stored: bool, ghost reached: nat)
      requires Valid(server) && !Used(Here(server, Idle), id)
      modifies this`accepted, this`local, spool
      ensures Valid(server)
      ensures var ev := F.Doc(id, Body(topic, payload));
              && Here(server, Idle) == Next(spool.opts, site, old(Here(server, Idle)), Accept(id, ev.body, spool.size(ev)))
              && (stored <==> Proper(ev.body) && id != "" && !Q.Over(spool.opts, |old(spool.list)|, old(spool.bytes), 1, spool.size(ev)))
              && Data(spool.list) == old(Data(spool.list)) + (if stored then [ev] else [])
              && accepted == old(accepted) + (if stored then [id] else [])
      ensures reached <= |routes| && local == old(local) + LocalPuts(routes, topic, id, fates, reached)
      ensures ok <==> stored && reached == |routes|
      ensures !stored ==> reached == 0
      ensures stored && !ok ==> LocalMatch(routes[reached], topic) && fates(reached).Failed?
    {
      hide WInv, S.Sound, Q.Put, Q.Inv, S.InOrder, SvInv, PhaseOk, Used, Ready, Store, Q.MapOf, LocalMatch, Q.Over;
      WInvFacts(Here(server, Idle));
      if topic == "" || payload == "" { return false, false, 0; }
      var spooled := SpoolEvent(F.Doc(id, Body(topic, payload)), server);
      if !spooled { return false, false, 0; }
      ok, reached := QueueLocal(id, topic, fates);
      stored := true;
    }

    // One event on its own.
    method SendEvent(server: ControlPlane, ev: Event, fate: Fate, ghost p: Phase) returns (acked: bool)
      requires p.Single? && InBounds(p) && p.items[p.next] == ev && At(server, p) && !fate.answer.Died?
      modifies this`discarded, this`inTurn, spool, server, server.store
      ensures At(server, if acked then AfterAck(p) else AfterLeave(p))
      ensures Here(server, if acked then AfterAck(p) else AfterLeave(p)) == DoSendOne(site, old(Here(server, p)), fate)
    {
      hide WInv, S.Sound, Q.Inv, Store, Q.MapOf, Ingested, Recorded, Q.Delete, DoSendOne;
      ghost var w := Here(server, p);
      SendOneKeeps(site, w, fate);
      SentOne(site, w, fate);
      ghost var w' := DoSendOne(site, w, fate);
      acked := fate.answer == EmptyResults(false);
      if Processed(fate.answer) {
        var fine, _ := server.IngestEvent(site, ev, LuckAt(fate.lucks, 0));
        acked := fine && !fate.answer.LostResponse?;
      }
      if acked { spool.DeleteItem(ev.id); }
      discarded, inTurn := w'.discarded, w'.inTurn;
    }

    // flushOneByOne: send each event on its own, stop at the first that is not acknowledged.
    method FlushOneByOne(server: ControlPlane, items: seq<Event>, from: nat, end: nat, link: nat -> Fate, call: nat, ghost resume: bool)
      returns (calls: nat, ghost steps: seq<Step>)
      requires from < end <= |items| && At(server, Single(items, from, end, resume)) && ServerUp(link)
      modifies this`discarded, this`inTurn, spool, server, server.store
      ensures At(server, if resume then Rest(items, end) else Idle)
      ensures Here(server, if resume then Rest(items, end) else Idle)
              == From(spool.opts, site, old(Here(server, Single(items, from, end, resume))), steps)
      ensures FlushSteps(steps) && Follows(steps, link, call, calls)
    {
      hide WInv, From, Q.Inv, Store, Q.MapOf, DoSendOne, Asked;
      ghost var p, w := Single(items, from, end, resume), Here(server, Single(items, from, end, resume));
      var done := from;
      calls, steps := call, [];
      FromNone(spool.opts, site, w);
      NoneFollow(link, call);
      while done < end
        invariant from <= done <= end
        invariant p == if done < end then Single(items, done, end, resume) else if resume then Rest(items, end) else Idle
        invariant At(server, p) && Here(server, p) == From(spool.opts, site, w, steps)
        invariant FlushSteps(steps) && Follows(steps, link, call, calls)
      {
        var fate := link(calls);
        FromSnoc(spool.opts, site, w, steps, SendOne(fate));
        FollowOn(steps, SendOne(fate), link, call, calls);
        var acked := SendEvent(server, items[done], fate, p);
        p := if acked then AfterAck(p) else AfterLeave(p);
        calls, steps := calls + 1, steps + [SendOne(fate)];
        if !acked { return; }
        done := done + 1;
      }
    }

    // Work through the answers to a batch: delete in order, stop at the first event the server did not accept.
    method SettleBatch(server: ControlPlane, items: seq<Event>, from: nat, end: nat, ok: set<string>)
      returns (all: bool, ghost steps: seq<Step>)
      requires from < end <= |items| && At(server, Deleting(items, from, end, ok))
      modifies spool
      ensures At(server, if all then Rest(items, end) else Idle)
      ensures Here(server, if all then Rest(items, end) else Idle)
              == From(spool.opts, site, old(Here(server, Deleting(items, from, end, ok))), steps)
      ensures FlushSteps(steps) && Asked(steps) == []
    {
      hide WInv, From, Q.Inv, Store, Q.MapOf, Asked, Q.Delete;
      ghost var p, w := Deleting(items, from, end, ok), Here(server, Deleting(items, from, end, ok));
      var done := from;
      steps := [];
      FromNone(spool.opts, site, w);
      NoneAsked();
      while done < end
        invariant from <= done <= end && p == if done < end then Deleting(items, done, end, ok) else Rest(items, end)
        invariant At(server, p) && Here(server, p) == From(spool.opts, site, w, steps)
        invariant FlushSteps(steps) && Asked(steps) == []
      {
        FromSnoc(spool.opts, site, w, steps, DeleteNext);
        AskedSnoc(steps, DeleteNext);
        DeleteNextKeeps(Here(server, p));
        steps := steps + [DeleteNext];
        if items[done].id !in ok { return false, steps; }
        spool.DeleteItem(items[done].id);
        done := done + 1;
        p := if done < end then Deleting(items, done, end, ok) else Rest(items, end);
      }
      return true, steps;
    }

    // The request for a batch and what the server makes of it.
    method PostBatch(server: ControlPlane, items: seq<Event>, from: nat, end: nat, fate: Fate) returns (ok: Option<set<string>>)
      requires from < end <= |items| && end == Min(from + BATCH, |items|) && At(server, Sending(items, from)) && !fate.answer.Died?
      modifies server, server.store
      ensures var w' := DoSendBatch(site, old(Here(server, Sending(items, from))), fate);
              && At(server, w'.phase) && Here(server, w'.phase) == w'
              && (fate.answer.Answered? ==> ok.Some? && w'.phase == Deleting(items, from, end, ok.value))
    {
      hide WInv, Q.Inv, Store, Q.MapOf, IngestAll, S.Sound, S.InOrder, SvInv, PhaseOk, Ready;
      WInvFacts(Here(server, Sending(items, from)));
      SendBatchKeeps(site, Here(server, Sending(items, from)), fate);
      ok := None;
      if Processed(fate.answer) {
        ok := server.IngestBatch(site, items[from..end], fate.lucks);
      }
    }

    // One round of flush: send a batch and act on the answer. `go` tells the loop to continue.
    method FlushBatch(server: ControlPlane, items: seq<Event>, from: nat, end: nat, link: nat -> Fate, call: nat)
      returns (go: bool, calls: nat, ghost steps: seq<Step>)
      requires from < end <= |items| && end == Min(from + BATCH, |items|) && At(server, Sending(items, from)) && ServerUp(link)
      modifies this`discarded, this`inTurn, spool, server, server.store
      ensures At(server, if go then Rest(items, end) else Idle)
      ensures Here(server, if go then Rest(items, end) else Idle)
              == From(spool.opts, site, old(Here(server, Sending(items, from))), steps)
      ensures FlushSteps(steps) && Follows(steps, link, call, calls)
    {
      hide WInv, From, Q.Inv, Store, Q.MapOf, Asked, HandleBatch;
      var fate := link(call);
      ghost var w := Here(server, Sending(items, from));
      ghost var first, more: seq<Step> := [SendBatch(fate)], [];
      FirstRequest(spool.opts, site, w, fate, link, call);
      var ok := PostBatch(server, items, from, end, fate);
      calls, go := call + 1, false;
      ghost var w1 := From(spool.opts, site, w, first);
      FromNone(spool.opts, site, w1);
      NoneFollow(link, calls);
      match fate.answer {
        case Answered =>
          go, more := SettleBatch(server, items, from, end, ok.value);
        case NotFound =>
          calls, more := FlushOneByOne(server, items, from, end, link, calls, false);
        case EmptyResults(_) =>
          calls, more := FlushOneByOne(server, items, from, end, link, calls, true);
          go := true;
        case _ =>
      }
      steps := first + more;
      FromConcat(spool.opts, site, w, first, more);
      FollowBoth(first, more, link, call, call + 1, calls);
    }

    // flush: a run of steps that ends idle and meets the given answers, one per request and in order.
    method Flush(server: ControlPlane, link: nat -> Fate) returns (calls: nat, ghost steps: seq<Step>)
      requires Valid(server) && ServerUp(link)
      modifies this`discarded, this`inTurn, spool, server, server.store
      ensures Valid(server) && Here(server, Idle) == From(spool.opts, site, old(Here(server, Idle)), [StartFlush] + steps)
      ensures FlushSteps(steps) && Follows(steps, link, 0, calls)
    {
      hide WInv, From, Q.Inv, Store, Q.MapOf, Asked;
      ghost var w := Here(server, Idle);
      var items := spool.List();
      assert items == Data(spool.list);
      StartFlushing(spool.opts, site, w);
      inTurn := true;
      var next, go := 0, true;
      calls, steps := 0, [];
      NoneFollow(link, 0);
      assert [StartFlush] + [] == [StartFlush];
      ghost var p := Rest(items, 0);
      while go && next < |items|
        invariant next <= |items| && p == if go then Rest(items, next) else Idle
        invariant At(server, p) && Here(server, p) == From(spool.opts, site, w, [StartFlush] + steps)
        invariant FlushSteps(steps) && Follows(steps, link, 0, calls)
        decreases if go then |items| - next + 1 else 0
      {
        var end := Min(next + BATCH, |items|);
        ghost var more, before := [], calls;
        go, calls, more := FlushBatch(server, items, next, end, link, calls);
        FromConcat(spool.opts, site, w, [StartFlush] + steps, more);
        FollowBoth(steps, more, link, 0, before, calls);
        assert ([StartFlush] + steps) + more == [StartFlush] + (steps + more);
        steps := steps + more;
        next := end;
        p := if go then Rest(items, next) else Idle;
      }
    }
  }

  lemma NewId(w: World, id: string)
    requires !Used(w, id)
    ensures id !in w.accepted
  {
  }

  lemma StartWith(sv: Server)
    requires SvInv(sv)
    ensures WInv(START.(server := sv))
  {
    StartOk();
    hide SvInv;
  }

  ghost predicate ServerUp(link: nat -> Fate) { forall n :: !link(n).answer.Died? }

  // The requests among the steps are answered by the link, from one call number to another.
  ghost predicate Follows(steps: seq<Step>, link: nat -> Fate, from: nat, to: nat) {
    to == from + |Asked(steps)| && forall k :: 0 <= k < |Asked(steps)| ==> Asked(steps)[k] == link(from + k)
  }

  lemma NoneAsked()
    ensures Asked([]) == []
  {
  }

  lemma NoneFollow(link: nat -> Fate, call: nat)
    ensures Follows([], link, call, call)
  {
  }

  lemma FollowOn(steps: seq<Step>, step: Step, link: nat -> Fate, from: nat, to: nat)
    requires Follows(steps, link, from, to) && (step.SendBatch? || step.SendOne?) && step.fate == link(to)
    ensures Follows(steps + [step], link, from, to + 1)
  {
    hide Asked;
    AskedSnoc(steps, step);
  }

  lemma {:induction false} AskedConcat(a: seq<Step>, b: seq<Step>)
    ensures Asked(a + b) == Asked(a) + Asked(b)
  {
    if b == [] {
      assert a + b == a;
    } else {
      AskedConcat(a, b[..|b| - 1]);
      assert (a + b)[..|a + b| - 1] == a + b[..|b| - 1];
    }
  }

  lemma FollowBoth(a: seq<Step>, b: seq<Step>, link: nat -> Fate, from: nat, mid: nat, to: nat)
    requires Follows(a, link, from, mid) && (Follows(b, link, mid, to) || (Asked(b) == [] && mid == to))
    ensures Follows(a + b, link, from, to)
  {
    hide Asked;
    AskedConcat(a, b);
  }

  lemma FirstRequest(opts: Q.Options, site: string, w: World, fate: Fate, link: nat -> Fate, call: nat)
    requires WInv(w) && !opts.policy.DropOldest? && w.phase.Sending? && InBounds(w.phase) && fate == link(call)
    ensures From(opts, site, w, [SendBatch(fate)]) == DoSendBatch(site, w, fate)
    ensures Follows([SendBatch(fate)], link, call, call + 1)
  {
    hide WInv, From, DoSendBatch;
    FromNone(opts, site, w);
    FromSnoc(opts, site, w, [], SendBatch(fate));
    NoneFollow(link, call);
    FollowOn([], SendBatch(fate), link, call, call);
    assert [] + [SendBatch(fate)] == [SendBatch(fate)];
  }

  lemma StartFlushing(opts: Q.Options, site: string, w: World)
    requires WInv(w) && !opts.policy.DropOldest? && w.phase.Idle?
    ensures From(opts, site, w, [StartFlush]) == w.(phase := Rest(Data(w.spool.list), 0), inTurn := true)
  {
    hide WInv, From;
    FromNone(opts, site, w);
    FromSnoc(opts, site, w, [], StartFlush);
    assert [] + [StartFlush] == [StartFlush];
  }

  predicate Processed(answer: Answer) { answer.LostResponse? || answer.Answered? || answer == EmptyResults(true) }

  // The step for a single event, told by what happens to it.
  lemma SentOne(site: string, w: World, fate: Fate)
    requires w.phase.Single? && InBounds(w.phase) && !fate.answer.Died?
    ensures var ev := w.phase.items[w.phase.next]; var w' := DoSendOne(site, w, fate);
            var (sv, fine) := Ingested(w.server, site, ev, LuckAt(fate.lucks, 0));
            var acked := fate.answer == EmptyResults(false) || (Processed(fate.answer) && fine && !fate.answer.LostResponse?);
            && w'.server == (if Processed(fate.answer) then sv else w.server)
            && w'.spool == (if acked then Q.Delete(w.spool, ev.id) else w.spool)
            && w'.phase == (if acked then AfterAck(w.phase) else AfterLeave(w.phase))
            && w'.accepted == w.accepted && w'.lost == w.lost
  {
    hide Ingested, Recorded, Q.Delete, Rest;
  }

  // Where the loop over single events stands after an acknowledgement, and after anything else.
  function AfterAck(p: Phase): Phase
    requires p.Single?
  {
    if p.next + 1 < p.end then p.(next := p.next + 1) else AfterLeave(p)
  }

  function AfterLeave(p: Phase): Phase
    requires p.Single?
  {
    if p.resume then Rest(p.items, p.end) else Idle
  }

  // If every request is answered and nothing fails, the spool is empty after a flush.
  lemma CleanFlushEmpties(opts: Q.Options, site: string, w: World, steps: seq<Step>, link: nat -> Fate, calls: nat)
    requires WInv(w) && w.phase.Idle? && !opts.policy.DropOldest? && (forall n :: link(n) == CLEAN)
    requires FlushSteps(steps) && Follows(steps, link, 0, calls) && From(opts, site, w, [StartFlush] + steps).phase.Idle?
    ensures From(opts, site, w, [StartFlush] + steps).spool.list == []
  {
    hide WInv, From, Asked;
    forall i | 0 <= i < |steps| ensures Clean(steps[i]) {
      assert FlushStep(steps[i]);
      if !steps[i].DeleteNext? { AskedAll(steps, i); }
    }
    CleanFlush(opts, site, w, steps);
  }
}
