// Store and forward, end to end: the edge agent spools events and flushes them in batches (internal/agent/agent.go),
// the control plane ingests them (module Ingest). The network may lose requests and responses or answer from somewhere
// else, other sites send events too, the agent may crash and the server may restart or die at work.
module StoreForward {
  import opened Ingest
  import Q = WalQueue
  import F = FileStore
  import X = SeenIndex
  import S = Spool

  const BATCH: nat := 50

  // Where a flush is: about to send a batch, working through the answers to one, or sending one by one.
  datatype Phase =
    | Idle
    | Sending(items: seq<Event>, next: nat)
    | Deleting(items: seq<Event>, next: nat, end: nat, ok: set<string>)
    | Single(items: seq<Event>, next: nat, end: nat, resume: bool)

  // `lost` are events a crash of the agent took from the spool, `discarded` those deleted on a success answer although
  // they were not recorded.
  datatype World = World(spool: Q.QState<Event>, accepted: seq<string>, lost: seq<string>, discarded: seq<string>,
                         phase: Phase, inTurn: bool, server: Server)

  // What becomes of a request. A lost response includes any error after the server did its work. EmptyResults is a
  // success answer without readable results: undecodable after the server did its work, or from an older or unrelated
  // endpoint that did nothing. Died is the server's end while it records the event at that position.
  datatype Answer =
    | LostRequest
    | LostResponse
    | NotFound
    | Refused
    | EmptyResults(processed: bool)
    | Answered
    | Died(after: nat, torn: bool)

  // What becomes of one request: the answer, and the circumstances of each ingest it causes.
  datatype Fate = Fate(answer: Answer, lucks: seq<Luck>)

  datatype Step =
    | Accept(id: string, body: Body, size: nat)
    | StartFlush
    | SendBatch(fate: Fate)
    | DeleteNext
    | SendOne(fate: Fate)
    | AgentCrash
    | SetRoutes(routes: seq<Route>)
    | StoreOp(op: F.Op<Body>)
    | OtherSite(site: string, ev: Event, luck: Luck)
    | OtherDied(site: string, ev: Event, made: string, torn: bool)
    | ServerRestart

  function Data(l: seq<Q.Item<Event>>): seq<Event> { seq(|l|, i requires 0 <= i < |l| => l[i].data) }

  function Min(a: nat, b: nat): nat { if a < b then a else b }

  // Ids come from random sources and are taken to be new: an accept that reuses one, or another site's event under an
  // accepted id, is no step.
  predicate Used(w: World, id: string) {
    id in w.accepted || exists i :: 0 <= i < |w.server.recordings| && w.server.recordings[i].id == id
  }

  // Where a phase stands; it never rests past the end of its work.
  predicate InBounds(p: Phase) {
    match p
    case Idle => true
    case Sending(items, next) => next < |items|
    case Deleting(items, next, end, _) => next < end <= |items|
    case Single(items, next, end, _) => next < end <= |items|
  }

  ghost predicate Ready(w: World) { Q.NoDup(w.spool.list) && InBounds(w.phase) }

  ghost function DoAccept(opts: Q.Options, w: World, ev: Event, size: nat): World
    requires Ready(w)
  {
    if Used(w, ev.id) || !Proper(ev.body) then w
    else
      var (q, r) := Q.Put(w.spool, opts, ev.id, ev, size);
      if r.Stored? then w.(spool := q, accepted := w.accepted + [ev.id]) else w.(spool := q)
  }

  // The flush loop: the next batch, if there is one.
  function Rest(items: seq<Event>, next: nat): Phase { if next < |items| then Sending(items, next) else Idle }

  function DiedInBatch(sv: Server, site: string, evs: seq<Event>, lucks: seq<Luck>, after: nat, torn: bool): Server {
    var k := Min(after, |evs|);
    var sv1 := IngestAll(sv, site, evs[..k], lucks).0;
    if k < |evs| then DiedRecording(sv1, site, evs[k], "", torn) else Restarted(sv1)
  }

  function DoSendBatch(site: string, w: World, fate: Fate): World
    requires w.phase.Sending? && InBounds(w.phase)
  {
    var Sending(items, start) := w.phase;
    var end := Min(start + BATCH, |items|);
    var (sv, ok) := HandleBatch(w.server, site, items[start..end], fate.lucks);
    match fate.answer
    case LostRequest => w.(phase := Idle)
    case Refused => w.(phase := Idle)
    case LostResponse => w.(phase := Idle, server := sv)
    case NotFound => w.(phase := Single(items, start, end, false))
    case EmptyResults(processed) => w.(phase := Single(items, start, end, true), server := if processed then sv else w.server)
    case Answered => w.(phase := if ok.Some? then Deleting(items, start, end, ok.value) else Idle, server := sv)
    case Died(after, torn) =>
      w.(phase := Idle, server := DiedInBatch(w.server, site, items[start..end], fate.lucks, after, torn))
  }

  // Work through the answers: delete in order, give up at the first event the server did not accept.
  function DoDeleteNext(w: World): World
    requires w.phase.Deleting? && InBounds(w.phase)
  {
    var Deleting(items, next, end, ok) := w.phase;
    if items[next].id in ok then
      w.(spool := Q.Delete(w.spool, items[next].id),
         phase := if next + 1 < end then Deleting(items, next + 1, end, ok) else Rest(items, end))
    else w.(phase := Idle)
  }

  // flushOneByOne returning early: the batch loop goes on after an empty answer and ends after a 404. If it goes on
  // with events left behind, later deletions overtake them.
  function LeaveSingle(w: World): World
    requires w.phase.Single?
  {
    var Single(items, next, end, resume) := w.phase;
    if resume then w.(phase := Rest(items, end), inTurn := false) else w.(phase := Idle)
  }

  // The single event is deleted and the loop goes on to the next.
  function Gone(w: World): World
    requires w.phase.Single? && InBounds(w.phase)
  {
    var Single(items, next, end, resume) := w.phase;
    w.(spool := Q.Delete(w.spool, items[next].id),
       phase := if next + 1 < end then Single(items, next + 1, end, resume) else if resume then Rest(items, end) else Idle)
  }

  // Any success answer to a single event deletes it; its body is not looked at.
  function DoSendOne(site: string, w: World, fate: Fate): World
    requires w.phase.Single? && InBounds(w.phase)
  {
    var ev := w.phase.items[w.phase.next];
    var (sv, fine) := Ingested(w.server, site, ev, LuckAt(fate.lucks, 0));
    match fate.answer
    case LostResponse => LeaveSingle(w.(server := sv))
    case Answered => if fine then Gone(w.(server := sv)) else LeaveSingle(w.(server := sv))
    case EmptyResults(processed) =>
      if !processed then Gone(Acknowledged(w, ev.id))
      else if fine then Gone(w.(server := sv))
      else LeaveSingle(w.(server := sv))
    case Died(_, torn) => LeaveSingle(w.(server := DiedRecording(w.server, site, ev, "", torn)))
    case _ => LeaveSingle(w)
  }

  // A success answer from an endpoint that did nothing with the event.
  function Acknowledged(w: World, id: string): World {
    if id in Recorded(w.server) then w else w.(discarded := w.discarded + [id])
  }

  function ServerDo(sv: Server, op: F.Op<Body>): Server {
    sv.(cmds := sv.cmds + [F.Do(op)], forgotten := sv.forgotten + Dropped(Store(sv), F.Do(op)))
  }

  ghost function Next(opts: Q.Options, site: string, w: World, step: Step): World
    requires Ready(w)
  {
    match step
    case Accept(id, body, size) => DoAccept(opts, w, F.Doc(id, body), size)
    case StartFlush => if w.phase.Idle? then w.(phase := Rest(Data(w.spool.list), 0), inTurn := true) else w
    case SendBatch(fate) => if w.phase.Sending? then DoSendBatch(site, w, fate) else w
    case DeleteNext => if w.phase.Deleting? then DoDeleteNext(w) else w
    case SendOne(fate) => if w.phase.Single? then DoSendOne(site, w, fate) else w
    case AgentCrash => w.(spool := Q.Opened(w.spool.log), lost := w.lost + S.AtRisk(w.spool), phase := Idle)
    case SetRoutes(routes) => w.(server := w.server.(routes := routes))
    case StoreOp(op) => if op.AddEvent? then w else w.(server := ServerDo(w.server, op))
    case OtherSite(s, ev, luck) =>
      if Named(ev, luck.made).id in w.accepted then w else w.(server := Ingested(w.server, s, ev, luck).0)
    case OtherDied(s, ev, made, torn) =>
      if Named(ev, made).id in w.accepted then w else w.(server := DiedRecording(w.server, s, ev, made, torn))
    case ServerRestart => w.(server := Restarted(w.server))
  }

  // ----- the invariant ------------------------------------------------------------------------------------

  // Recorded, though a restart of the server may have forgotten it since.
  predicate Noticed(sv: Server, id: string) { id in Recorded(sv) || id in sv.forgotten }

  ghost predicate KeptIn(l: seq<Q.Item<Event>>, acc: seq<string>, sv: Server, lost: seq<string>, discarded: seq<string>) {
    forall id :: id in acc ==> Q.Find(l, id).Some? || Noticed(sv, id) || id in lost || id in discarded
  }

  ghost predicate Kept(l: seq<Q.Item<Event>>, w: World) { KeptIn(l, w.accepted, w.server, w.lost, w.discarded) }

  // While every deletion has been in turn, what is left of the snapshot is the front of the spool.
  ghost predicate InFront(p: Phase, l: seq<Q.Item<Event>>) {
    p.Idle? ||
    (p.next <= |p.items| && |p.items| - p.next <= |l| &&
     forall i :: p.next <= i < |p.items| ==> l[i - p.next].data == p.items[i])
  }

  // Events on their way are proper and have ids.
  ghost predicate Sendable(p: Phase) {
    p.Idle? || forall i :: 0 <= i < |p.items| ==> Proper(p.items[i].body) && p.items[i].id != ""
  }

  ghost predicate PhaseOk(p: Phase, sv: Server) {
    && InBounds(p)
    && (p.Deleting? ==> forall id :: id in p.ok ==> Noticed(sv, id))
    && Sendable(p)
  }

  ghost predicate WInv(w: World) {
    && S.Sound(w.spool, w.accepted) && Kept(w.spool.list, w) && PhaseOk(w.phase, w.server)
    && (w.inTurn ==> InFront(w.phase, w.spool.list)) && SvInv(w.server)
  }

  lemma WInvFacts(w: World)
    requires WInv(w)
    ensures Ready(w) && S.InOrder(w.spool.list, w.accepted)
    ensures S.Sound(w.spool, w.accepted) && SvInv(w.server) && PhaseOk(w.phase, w.server)
  {
  }

  // Anything that keeps what is recorded keeps the agent's side.
  lemma ServerGrows(w: World, sv: Server)
    requires WInv(w) && SvInv(sv) && Remembers(w.server, sv)
    ensures WInv(w.(server := sv))
  {
    hide S.Sound, SvInv, Recorded, Q.Find, InFront, Sendable;
  }

  lemma StoredKeeps(w: World, ev: Event, q: Q.QState<Event>, it: Q.Item<Event>)
    requires WInv(w) && S.Sound(q, w.accepted + [ev.id]) && q.list == w.spool.list + [it] && it.id == ev.id
    ensures WInv(w.(spool := q, accepted := w.accepted + [ev.id]))
  {
    hide S.Sound, SvInv, Recorded, Q.Find, PhaseOk;
    forall id | id in w.accepted + [ev.id]
      ensures Q.Find(q.list, id).Some? || Noticed(w.server, id) || id in w.lost || id in w.discarded
    {
      Q.SnocDefs(w.spool.list, it, 0, id);
    }
  }

  lemma AcceptKeeps(opts: Q.Options, w: World, ev: Event, size: nat)
    requires WInv(w) && !opts.policy.DropOldest?
    ensures Ready(w) && WInv(DoAccept(opts, w, ev, size))
  {
    hide WInv, S.Sound, Q.Put, Ready, S.InOrder, SvInv, PhaseOk;
    WInvFacts(w);
    if !Used(w, ev.id) && Proper(ev.body) {
      S.PutKeeps(w.spool, opts, ev, size, w.accepted);
      var (q, r) := Q.Put(w.spool, opts, ev.id, ev, size);
      if r.Stored? { StoredKeeps(w, ev, q, Q.Item(ev.id, w.spool.seqNo + 1, ev, size)); }
    }
  }

  // Deleting a settled event from the spool; if it is at the front, exactly the front goes.
  lemma DeleteKeeps(w: World, id: string)
    requires WInv(w) && (Noticed(w.server, id) || id in w.discarded)
    ensures var q := Q.Delete(w.spool, id);
            && S.Sound(q, w.accepted) && Kept(q.list, w)
            && (w.spool.list != [] && w.spool.list[0].data.id == id ==> q.list == w.spool.list[1..])
  {
    WInvFacts(w);
    hide SvInv, Recorded, PhaseOk, Q.Inv, S.InOrder, Q.Replay, Q.Find, Q.Without;
    S.DeleteKeeps(w.spool, id, w.accepted);
    forall x | x in w.accepted
      ensures Q.Find(Q.Delete(w.spool, id).list, x).Some? || Noticed(w.server, x) || x in w.lost || x in w.discarded
    {
      Q.FindWithout(w.spool.list, id, x);
    }
    if w.spool.list != [] {
      S.InOrderAt(w.spool.list, w.accepted, 0);
      Q.WithoutFirst(w.spool.list);
    }
  }

  lemma DeleteNextKeeps(w: World)
    requires WInv(w) && w.phase.Deleting?
    ensures WInv(DoDeleteNext(w))
  {
    hide S.Sound, SvInv, Recorded, KeptIn, Q.Delete, Sendable;
    var Deleting(items, next, end, ok) := w.phase;
    SamePhaseItems(w.phase);
    if items[next].id in ok { DeleteKeeps(w, items[next].id); }
  }

  lemma SamePhaseItems(p: Phase)
    requires Sendable(p) && !p.Idle?
    ensures forall q: Phase :: !q.Idle? && q.items == p.items ==> Sendable(q)
    ensures Sendable(Idle)
  {
  }

  lemma DiedInBatchKeeps(sv: Server, site: string, evs: seq<Event>, lucks: seq<Luck>, after: nat, torn: bool)
    requires SvInv(sv)
    ensures var sv' := DiedInBatch(sv, site, evs, lucks, after, torn);
            SvInv(sv') && Remembers(sv, sv') && |sv'.forgotten| <= |sv.forgotten| + 1
  {
    hide SvInv, Recorded, IngestAll, DiedRecording, Remembers, Dropped;
    var k := Min(after, |evs|);
    var sv1 := IngestAll(sv, site, evs[..k], lucks).0;
    IngestAllKeeps(sv, site, evs[..k], lucks);
    if k < |evs| {
      DiedKeeps(sv1, site, evs[k], "", torn);
      RemembersAll(sv, sv1, DiedRecording(sv1, site, evs[k], "", torn));
    } else {
      RestartKeeps(sv1);
      RemembersAll(sv, sv1, Restarted(sv1));
    }
  }

  lemma RestartKeeps(sv: Server)
    requires SvInv(sv)
    ensures SvInv(Restarted(sv)) && Remembers(sv, Restarted(sv)) && |Restarted(sv).forgotten| <= |sv.forgotten| + 1
  {
    hide SvInv, Remembers;
    CommandKeeps(sv, F.Restart);
  }

  lemma SendBatchKeeps(site: string, w: World, fate: Fate)
    requires WInv(w) && w.phase.Sending?
    ensures WInv(DoSendBatch(site, w, fate))
  {
    hide S.Sound, SvInv, Recorded, KeptIn, IngestAll, DiedInBatch, Sendable, Remembers;
    SamePhaseItems(w.phase);
    var Sending(items, start) := w.phase;
    var evs := items[start..Min(start + BATCH, |items|)];
    IngestAllKeeps(w.server, site, evs, fate.lucks);
    ServerGrows(w, IngestAll(w.server, site, evs, fate.lucks).0);
    if fate.answer.Died? {
      var sv := DiedInBatch(w.server, site, evs, fate.lucks, fate.answer.after, fate.answer.torn);
      DiedInBatchKeeps(w.server, site, evs, fate.lucks, fate.answer.after, fate.answer.torn);
      ServerGrows(w, sv);
    }
  }

  lemma LeaveSingleKeeps(w: World)
    requires WInv(w) && w.phase.Single?
    ensures WInv(LeaveSingle(w))
  {
    hide S.Sound, SvInv, Recorded, KeptIn, Sendable;
    SamePhaseItems(w.phase);
  }

  lemma GoneKeeps(w: World)
    requires WInv(w) && w.phase.Single?
    requires var id := w.phase.items[w.phase.next].id; Noticed(w.server, id) || id in w.discarded
    ensures WInv(Gone(w))
  {
    hide S.Sound, SvInv, Recorded, KeptIn, Q.Delete, Sendable;
    SamePhaseItems(w.phase);
    DeleteKeeps(w, w.phase.items[w.phase.next].id);
  }

  lemma AcknowledgedKeeps(w: World, id: string)
    requires WInv(w)
    ensures var w' := Acknowledged(w, id); WInv(w') && w'.phase == w.phase && (Noticed(w'.server, id) || id in w'.discarded)
  {
    hide S.Sound, SvInv, Recorded, Q.Find, PhaseOk, InFront;
  }

  lemma SendOneKeeps(site: string, w: World, fate: Fate)
    requires WInv(w) && w.phase.Single?
    ensures WInv(DoSendOne(site, w, fate))
  {
    hide WInv, SvInv, Recorded, Ingested, DiedRecording, LeaveSingle, Gone, Acknowledged, Remembers, S.Sound, Q.NoDup, S.InOrder;
    WInvFacts(w);
    LeaveSingleKeeps(w);
    var ev := w.phase.items[w.phase.next];
    var (sv, fine) := Ingested(w.server, site, ev, LuckAt(fate.lucks, 0));
    IngestKeeps(w.server, site, ev, LuckAt(fate.lucks, 0));
    ServerGrows(w, sv);
    LeaveSingleKeeps(w.(server := sv));
    if fine { GoneKeeps(w.(server := sv)); }
    AcknowledgedKeeps(w, ev.id);
    GoneKeeps(Acknowledged(w, ev.id));
    if fate.answer.Died? {
      var dead := DiedRecording(w.server, site, ev, "", fate.answer.torn);
      DiedKeeps(w.server, site, ev, "", fate.answer.torn);
      ServerGrows(w, dead);
      LeaveSingleKeeps(w.(server := dead));
    }
  }

  lemma CrashKeeps(w: World)
    requires WInv(w)
    ensures WInv(w.(spool := Q.Opened(w.spool.log), lost := w.lost + S.AtRisk(w.spool), phase := Idle))
  {
    hide SvInv, Recorded, S.InOrder, Q.Inv, Q.Replay, Q.Find;
    Q.ReopenKeeps(w.spool);
    var w' := w.(spool := Q.Opened(w.spool.log), lost := w.lost + S.AtRisk(w.spool), phase := Idle);
    forall id | id in w'.accepted
      ensures Q.Find(w'.spool.list, id).Some? || Noticed(w'.server, id) || id in w'.lost || id in w'.discarded
    {
      if Q.Find(w.spool.list, id).Some? { S.SurvivesCrash(w.spool, w.accepted, id); }
    }
  }

  lemma StartKeeps(w: World)
    requires WInv(w) && w.phase.Idle?
    ensures WInv(w.(phase := Rest(Data(w.spool.list), 0), inTurn := true))
  {
    WInvFacts(w);
    forall i | 0 <= i < |w.spool.list| ensures Proper(w.spool.list[i].data.body) && w.spool.list[i].data.id != "" {
      S.InOrderAt(w.spool.list, w.accepted, i);
      Q.FindAt(w.spool.list, i);
      Q.NonEmptyIds(w.spool.list, w.spool.seqNo);
    }
    hide S.Sound, SvInv, Recorded, KeptIn;
  }

  lemma ServerStepKeeps(opts: Q.Options, site: string, w: World, step: Step)
    requires WInv(w) && (step.SetRoutes? || step.StoreOp? || step.OtherSite? || step.OtherDied? || step.ServerRestart?)
    ensures Ready(w) && WInv(Next(opts, site, w, step))
  {
    hide WInv, SvInv, Ingested, DiedRecording, Remembers, Store, Recorded, S.Sound, S.InOrder, PhaseOk, Ready, Named, Dropped;
    WInvFacts(w);
    match step
    case SetRoutes(routes) =>
      SameStoreKeeps(w.server, w.server.(routes := routes));
      ServerGrows(w, w.server.(routes := routes));
    case StoreOp(op) =>
      if !op.AddEvent? {
        CommandKeeps(w.server, F.Do(op));
        ServerGrows(w, ServerDo(w.server, op));
      }
    case OtherSite(s, ev, luck) =>
      IngestKeeps(w.server, s, ev, luck);
      ServerGrows(w, Ingested(w.server, s, ev, luck).0);
    case OtherDied(s, ev, made, torn) =>
      DiedKeeps(w.server, s, ev, made, torn);
      ServerGrows(w, DiedRecording(w.server, s, ev, made, torn));
    case ServerRestart =>
      RestartKeeps(w.server);
      ServerGrows(w, Restarted(w.server));
  }

  lemma NextKeeps(opts: Q.Options, site: string, w: World, step: Step)
    requires WInv(w) && !opts.policy.DropOldest?
    ensures Ready(w) && WInv(Next(opts, site, w, step))
  {
    WInvFacts(w);
    hide WInv, DoAccept, DoSendBatch, DoDeleteNext, DoSendOne, Q.Opened, S.AtRisk, Ingested, DiedRecording, Restarted, ServerDo;
    match step
    case Accept(id, body, size) => AcceptKeeps(opts, w, F.Doc(id, body), size);
    case StartFlush => if w.phase.Idle? { StartKeeps(w); }
    case SendBatch(fate) => if w.phase.Sending? { SendBatchKeeps(site, w, fate); }
    case DeleteNext => if w.phase.Deleting? { DeleteNextKeeps(w); }
    case SendOne(fate) => if w.phase.Single? { SendOneKeeps(site, w, fate); }
    case AgentCrash => CrashKeeps(w);
    case _ => ServerStepKeeps(opts, site, w, step);
  }

  // ----- every run ----------------------------------------------------------------------------------------

  const START: World := World(Q.Opened([]), [], [], [], Idle, true, Server([], {}, [], [], []))

  lemma StartOk()
    ensures WInv(START)
  {
    assert Q.Replay<Event>([]) == [];
    assert Recorded(START.server) == [];
  }

  // Any number of steps, from any world the system can be in.
  ghost function From(opts: Q.Options, site: string, w: World, steps: seq<Step>): (w': World)
    requires WInv(w) && !opts.policy.DropOldest?
    ensures WInv(w')
  {
    if steps == [] then w
    else
      var w1 := From(opts, site, w, steps[..|steps| - 1]);
      NextKeeps(opts, site, w1, steps[|steps| - 1]);
      Next(opts, site, w1, steps[|steps| - 1])
  }

  ghost function Run(opts: Q.Options, site: string, steps: seq<Step>): (w: World)
    requires !opts.policy.DropOldest?
    ensures WInv(w)
  {
    StartOk();
    From(opts, site, START, steps)
  }

  lemma FromSnoc(opts: Q.Options, site: string, w: World, steps: seq<Step>, step: Step)
    requires WInv(w) && !opts.policy.DropOldest?
    ensures var w' := From(opts, site, w, steps); Ready(w') && From(opts, site, w, steps + [step]) == Next(opts, site, w', step)
  {
    hide WInv, Next;
    assert (steps + [step])[..|steps|] == steps;
    WInvFacts(From(opts, site, w, steps));
  }

  lemma {:induction false} FromConcat(opts: Q.Options, site: string, w: World, a: seq<Step>, b: seq<Step>)
    requires WInv(w) && !opts.policy.DropOldest?
    ensures From(opts, site, From(opts, site, w, a), b) == From(opts, site, w, a + b)
  {
    hide WInv, Next, Ready;
    if b == [] {
      assert a + b == a;
    } else {
      var front, step := b[..|b| - 1], b[|b| - 1];
      FromConcat(opts, site, w, a, front);
      FromSnoc(opts, site, From(opts, site, w, a), front, step);
      FromSnoc(opts, site, w, a + front, step);
      assert front + [step] == b && (a + front) + [step] == a + b;
    }
  }

  lemma RunSnoc(opts: Q.Options, site: string, steps: seq<Step>, step: Step)
    requires !opts.policy.DropOldest?
    ensures var w := Run(opts, site, steps); Ready(w) && Run(opts, site, steps + [step]) == Next(opts, site, w, step)
  {
    hide WInv, Next, Ready, From;
    StartOk();
    FromSnoc(opts, site, START, steps, step);
  }

  function AgentCrashes(steps: seq<Step>): nat {
    if steps == [] then 0 else AgentCrashes(steps[..|steps| - 1]) + (if steps[|steps| - 1].AgentCrash? then 1 else 0)
  }

  predicate EndsServer(step: Step) {
    step.ServerRestart? || step.OtherDied? || ((step.SendBatch? || step.SendOne?) && step.fate.answer.Died?)
  }

  function ServerEnds(steps: seq<Step>): nat {
    if steps == [] then 0 else ServerEnds(steps[..|steps| - 1]) + (if EndsServer(steps[|steps| - 1]) then 1 else 0)
  }

  // A success answer to a single event from an endpoint that did not process it.
  predicate FalseSuccess(step: Step) { step.SendOne? && step.fate.answer == EmptyResults(false) }

  function FalseSuccesses(steps: seq<Step>): nat {
    if steps == [] then 0 else FalseSuccesses(steps[..|steps| - 1]) + (if FalseSuccess(steps[|steps| - 1]) then 1 else 0)
  }

  lemma LostGrows(opts: Q.Options, site: string, w: World, step: Step)
    requires Ready(w)
    ensures var w' := Next(opts, site, w, step);
            && |w'.lost| <= |w.lost| + (if step.AgentCrash? then 1 else 0)
            && |w'.discarded| <= |w.discarded| + (if FalseSuccess(step) then 1 else 0)
  {
    hide Q.Put, Q.Delete, IngestAll, Ingested, DiedInBatch, DiedRecording, Restarted, Recorded, Used, Proper, Q.Opened;
  }

  // How often a compaction was torn apart.
  function Torns(cmds: seq<F.Command<Body>>): nat {
    if cmds == [] then 0 else Torns(cmds[..|cmds| - 1]) + (if cmds[|cmds| - 1].CrashCompacting? then 1 else 0)
  }

  predicate TearsApart(step: Step) {
    (step.OtherDied? && step.torn) || ((step.SendBatch? || step.SendOne?) && step.fate.answer.Died? && step.fate.answer.torn)
  }

  function TornEnds(steps: seq<Step>): nat {
    if steps == [] then 0 else TornEnds(steps[..|steps| - 1]) + (if TearsApart(steps[|steps| - 1]) then 1 else 0)
  }

  // What a step does to the server's store: the number of times it was reopened, torn or not, what that cost, and how many
  // events it was asked to add.
  ghost predicate Costs(sv: Server, sv': Server, n: nat, t: nat) {
    && F.Restarts(sv'.cmds) <= F.Restarts(sv.cmds) + n && |sv'.forgotten| <= |sv.forgotten| + n
    && Torns(sv'.cmds) <= Torns(sv.cmds) + t
    && X.Adds(sv'.cmds) + |sv.recordings| == X.Adds(sv.cmds) + |sv'.recordings|
  }

  lemma SnocCosts(sv: Server, c: F.Command<Body>)
    ensures F.Restarts(sv.cmds + [c]) == F.Restarts(sv.cmds) + (if c.Do? then 0 else 1)
    ensures Torns(sv.cmds + [c]) == Torns(sv.cmds) + (if c.CrashCompacting? then 1 else 0)
    ensures X.Adds(sv.cmds + [c]) == X.Adds(sv.cmds) + (if X.AddsOne(c) then 1 else 0)
    ensures |Dropped(Store(sv), c)| <= if c.Do? then 0 else 1
  {
    assert (sv.cmds + [c])[..|sv.cmds|] == sv.cmds;
  }

  lemma IngestCosts(sv: Server, site: string, ev: Event, luck: Luck)
    ensures Costs(sv, Ingested(sv, site, ev, luck).0, 0, 0)
  {
    hide F.Restarts, Torns, X.Adds, Dropped, Store, Wanted, Pairs;
    SnocCosts(sv, F.Do(F.AddEvent(Named(ev, luck.made))));
  }

  lemma {:induction false} IngestAllCosts(sv: Server, site: string, evs: seq<Event>, lucks: seq<Luck>)
    ensures Costs(sv, IngestAll(sv, site, evs, lucks).0, 0, 0)
  {
    hide F.Restarts, Torns, X.Adds, Ingested;
    if evs == [] {
    } else {
      var n := |evs| - 1;
      IngestAllCosts(sv, site, evs[..n], lucks);
      IngestCosts(IngestAll(sv, site, evs[..n], lucks).0, site, evs[n], LuckAt(lucks, n));
    }
  }

  lemma RestartCosts(sv: Server)
    ensures Costs(sv, Restarted(sv), 1, 0)
  {
    hide F.Restarts, Torns, X.Adds, Dropped, Store;
    SnocCosts(sv, F.Restart);
  }

  lemma DiedCosts(sv: Server, site: string, raw: Event, made: string, torn: bool)
    ensures Costs(sv, DiedRecording(sv, site, raw, made, torn), 1, if torn then 1 else 0)
  {
    hide F.Restarts, Torns, X.Adds, Dropped, Store, Wanted, Pairs, F.Left;
    RestartCosts(sv);
    var ev := Named(raw, made);
    SnocCosts(sv, if torn then F.CrashCompacting(F.AddEvent(ev)) else F.CrashAppended(F.AddEvent(ev)));
  }

  lemma DiedInBatchCosts(sv: Server, site: string, evs: seq<Event>, lucks: seq<Luck>, after: nat, torn: bool)
    ensures Costs(sv, DiedInBatch(sv, site, evs, lucks, after, torn), 1, if torn then 1 else 0)
  {
    hide F.Restarts, Torns, X.Adds, IngestAll, DiedRecording, Restarted;
    var k := Min(after, |evs|);
    IngestAllCosts(sv, site, evs[..k], lucks);
    var sv1 := IngestAll(sv, site, evs[..k], lucks).0;
    RestartCosts(sv1);
    if k < |evs| { DiedCosts(sv1, site, evs[k], "", torn); }
  }

  lemma SendBatchCosts(site: string, w: World, fate: Fate)
    requires w.phase.Sending? && InBounds(w.phase)
    ensures Costs(w.server, DoSendBatch(site, w, fate).server, if fate.answer.Died? then 1 else 0, if TearsApart(SendBatch(fate)) then 1 else 0)
  {
    hide F.Restarts, Torns, X.Adds, IngestAll, DiedInBatch;
    var Sending(items, start) := w.phase;
    var evs := items[start..Min(start + BATCH, |items|)];
    IngestAllCosts(w.server, site, evs, fate.lucks);
    if fate.answer.Died? { DiedInBatchCosts(w.server, site, evs, fate.lucks, fate.answer.after, fate.answer.torn); }
  }

  lemma SendOneCosts(site: string, w: World, fate: Fate)
    requires w.phase.Single? && InBounds(w.phase)
    ensures Costs(w.server, DoSendOne(site, w, fate).server, if fate.answer.Died? then 1 else 0, if TearsApart(SendOne(fate)) then 1 else 0)
  {
    hide F.Restarts, Torns, X.Adds, Ingested, DiedRecording, Q.Delete, Recorded;
    var ev := w.phase.items[w.phase.next];
    IngestCosts(w.server, site, ev, LuckAt(fate.lucks, 0));
    if fate.answer.Died? { DiedCosts(w.server, site, ev, "", fate.answer.torn); }
  }

  lemma StepCosts(opts: Q.Options, site: string, w: World, step: Step)
    requires Ready(w)
    ensures Costs(w.server, Next(opts, site, w, step).server, if EndsServer(step) then 1 else 0, if TearsApart(step) then 1 else 0)
  {
    hide Q.Put, Used, Proper, DoSendBatch, DoSendOne, Ingested, DiedRecording, Restarted, F.Restarts, Torns, X.Adds, Q.Opened, Q.Delete,
         Store, Dropped, Named;
    match step
    case SendBatch(fate) => if w.phase.Sending? { SendBatchCosts(site, w, fate); }
    case SendOne(fate) => if w.phase.Single? { SendOneCosts(site, w, fate); }
    case StoreOp(op) => SnocCosts(w.server, F.Do(op));
    case OtherSite(s, ev, luck) => IngestCosts(w.server, s, ev, luck);
    case OtherDied(s, ev, made, torn) => DiedCosts(w.server, s, ev, made, torn);
    case ServerRestart => RestartCosts(w.server);
    case _ =>
  }

  lemma {:induction false} RunCosts(opts: Q.Options, site: string, steps: seq<Step>)
    requires !opts.policy.DropOldest?
    ensures var w := Run(opts, site, steps);
            && |w.lost| <= AgentCrashes(steps) && |w.discarded| <= FalseSuccesses(steps)
            && |w.server.forgotten| <= ServerEnds(steps) && F.Restarts(w.server.cmds) <= ServerEnds(steps)
            && Torns(w.server.cmds) <= TornEnds(steps) && X.Adds(w.server.cmds) == |w.server.recordings|
  {
    hide WInv, Next, Costs, EndsServer, TearsApart, FalseSuccess, Ready;
    if steps != [] {
      var front, step := steps[..|steps| - 1], steps[|steps| - 1];
      RunCosts(opts, site, front);
      var w := Run(opts, site, front);
      RunSnoc(opts, site, front, step);
      assert front + [step] == steps;
      LostGrows(opts, site, w, step);
      StepCosts(opts, site, w, step);
      CostsOf(w.server, Next(opts, site, w, step).server, if EndsServer(step) then 1 else 0, if TearsApart(step) then 1 else 0);
    }
  }

  lemma CostsOf(sv: Server, sv': Server, n: nat, t: nat)
    requires Costs(sv, sv', n, t)
    ensures F.Restarts(sv'.cmds) <= F.Restarts(sv.cmds) + n && |sv'.forgotten| <= |sv.forgotten| + n
    ensures Torns(sv'.cmds) <= Torns(sv.cmds) + t
    ensures X.Adds(sv'.cmds) + |sv.recordings| == X.Adds(sv.cmds) + |sv'.recordings|
  {
  }

  // Main theorem: over every run, with requests and responses lost anywhere and other sites sending too, an accepted
  // event is in the spool or recorded, but for at most one per crash of the agent, one per end of the server and one
  // per success answer from an endpoint that did not process the event.
  lemma NothingLost(opts: Q.Options, site: string, steps: seq<Step>)
    requires !opts.policy.DropOldest?
    ensures var w := Run(opts, site, steps);
            && (forall id :: id in w.accepted ==>
                  || Q.Find(w.spool.list, id).Some? || id in Recorded(w.server)
                  || id in w.lost || id in w.server.forgotten || id in w.discarded)
            && |w.lost| <= AgentCrashes(steps)
            && |w.server.forgotten| <= ServerEnds(steps)
            && |w.discarded| <= FalseSuccesses(steps)
  {
    hide S.Sound, SvInv, Recorded, PhaseOk, InFront, Run, Q.Find;
    RunCosts(opts, site, steps);
    var w := Run(opts, site, steps);
    assert Kept(w.spool.list, w);
  }

  // The step at which the promise fails: sending a spooled event on its own keeps it spooled or recorded exactly
  // unless the answer is a success from an endpoint that did not process it and it was not recorded before.
  lemma FalseSuccessIff(site: string, w: World, fate: Fate)
    requires WInv(w) && w.phase.Single? && Q.Find(w.spool.list, w.phase.items[w.phase.next].id).Some?
    ensures var id := w.phase.items[w.phase.next].id; var w' := DoSendOne(site, w, fate);
            Q.Find(w'.spool.list, id).Some? || id in Recorded(w'.server) <==>
            !(fate.answer == EmptyResults(false) && id !in Recorded(w.server))
  {
    hide WInv, SvInv, Recorded, Ingested, DiedRecording, Remembers, S.Sound, Q.NoDup, S.InOrder, Q.Find, Q.Delete;
    WInvFacts(w);
    var ev := w.phase.items[w.phase.next];
    IngestKeeps(w.server, site, ev, LuckAt(fate.lucks, 0));
    S.DeleteKeeps(w.spool, ev.id, w.accepted);
    Q.FindWithout(w.spool.list, ev.id, ev.id);
  }

  // An endpoint that answers everything with an empty success.
  const IMPOSTOR: Fate := Fate(EmptyResults(false), [])

  // Such a run: one event, and only the impostor. Nothing crashed, nothing was recorded, and the event is gone.
  lemma FalseSuccessLoses(opts: Q.Options, site: string, id: string, body: Body, size: nat)
    requires !opts.policy.DropOldest? && id != "" && Proper(body) && !Q.Over(opts, 0, 0, 1, size)
    ensures var w := Run(opts, site, [Accept(id, body, size), StartFlush, SendBatch(IMPOSTOR), SendOne(IMPOSTOR)]);
            w.accepted == [id] && w.spool.list == [] && Recorded(w.server) == [] && w.server.forgotten == [] && w.lost == []
  {
    hide Run, WInv, DoAccept, DoSendBatch, DoSendOne, Recorded, Q.Over, Ready, Data;
    var a, b, c, d := Accept(id, body, size), StartFlush, SendBatch(IMPOSTOR), SendOne(IMPOSTOR);
    var ev := F.Doc(id, body);
    RunSnoc(opts, site, [], a);
    RunSnoc(opts, site, [a], b);
    RunSnoc(opts, site, [a, b], c);
    RunSnoc(opts, site, [a, b, c], d);
    assert [] + [a] == [a] && [a] + [b] == [a, b] && [a, b] + [c] == [a, b, c] && [a, b, c] + [d] == [a, b, c, d];
    FirstAccept(opts, site, ev, size);
    OneEventSent(site, Run(opts, site, [a]), ev);
  }

  // The only event of an otherwise empty spool, acknowledged by the wrong endpoint.
  lemma OneEventSent(site: string, w: World, ev: Event)
    requires WInv(w) && w.phase.Idle? && |w.spool.list| == 1 && w.spool.list[0].data == ev
    ensures |Data(w.spool.list)| == 1
    ensures var w3 := DoSendBatch(site, w.(phase := Rest(Data(w.spool.list), 0), inTurn := true), IMPOSTOR);
            && w3.phase.Single? && InBounds(w3.phase)
            && var w4 := DoSendOne(site, w3, IMPOSTOR);
               w4.spool.list == [] && w4.server == w.server && w4.accepted == w.accepted && w4.lost == w.lost
  {
    WInvFacts(w);
    hide WInv, SvInv, Recorded, Ingested, IngestAll, S.Sound, Q.NoDup, S.InOrder, Q.Find, Q.Delete, PhaseOk;
    S.DeleteKeeps(w.spool, ev.id, w.accepted);
    S.InOrderAt(w.spool.list, w.accepted, 0);
    Q.WithoutFirst(w.spool.list);
  }

  lemma FirstAccept(opts: Q.Options, site: string, ev: Event, size: nat)
    requires !opts.policy.DropOldest? && ev.id != "" && Proper(ev.body) && !Q.Over(opts, 0, 0, 1, size)
    ensures var w := Run(opts, site, [Accept(ev.id, ev.body, size)]);
            && w.phase.Idle? && |w.spool.list| == 1 && w.spool.list[0].data == ev && w.accepted == [ev.id]
            && w.server == START.server && w.lost == [] && Recorded(w.server) == []
  {
    StartOk();
    RunSnoc(opts, site, [], Accept(ev.id, ev.body, size));
    assert [] + [Accept(ev.id, ev.body, size)] == [Accept(ev.id, ev.body, size)];
    hide WInv, S.Sound, Q.Put, Q.NoDup, S.InOrder;
    WInvFacts(START);
    S.PutKeeps(START.spool, opts, ev, size, []);
  }

  // A recorded event had a delivery put for every route that matched it, for its own site, when it was recorded.
  lemma RoutedBeforeRecorded(opts: Q.Options, site: string, steps: seq<Step>)
    requires !opts.policy.DropOldest?
    ensures var sv := Run(opts, site, steps).server;
            && (forall id :: id in Recorded(sv) ==> exists i :: 0 <= i < |sv.recordings| && sv.recordings[i].id == id)
            && forall i, rt :: 0 <= i < |sv.recordings| && rt in sv.recordings[i].table
                               && Wants(rt, sv.recordings[i].site, sv.recordings[i].topic)
                 ==> (sv.recordings[i].id, rt.id) in sv.put
  {
    hide Run, Recorded, Wants;
    assert SvInv(Run(opts, site, steps).server);
  }

  lemma {:induction false} NeverReopened(cmds: seq<F.Command<Body>>, i: nat)
    requires F.Restarts(cmds) == 0 && i < |cmds|
    ensures cmds[i].Do?
  {
    if i < |cmds| - 1 { NeverReopened(cmds[..|cmds| - 1], i); }
  }

  // An event is recorded twice only with at least 20000 other recordings in between, less one per end of the server,
  // however often it is resent; without an end of the server this needs no condition on the store.
  lemma RecordedOnce(opts: Q.Options, site: string, steps: seq<Step>)
    requires !opts.policy.DropOldest?
    requires ServerEnds(steps) == 0 || X.WellSpacedRun(EMPTY, Run(opts, site, steps).server.cmds)
    ensures X.FarApart(Recorded(Run(opts, site, steps).server), ServerEnds(steps))
  {
    hide Run, F.Run, X.WellSpacedAt, X.Recorded;
    RunCosts(opts, site, steps);
    var cmds := Run(opts, site, steps).server.cmds;
    if ServerEnds(steps) == 0 {
      forall i | 0 <= i < |cmds| ensures X.WellSpacedAt(EMPTY, cmds, i) {
        NeverReopened(cmds, i);
        DoIsSpaced(cmds, i);
      }
    }
    X.RecordedTwiceFarApart(EMPTY, cmds);
  }

  lemma DoIsSpaced(cmds: seq<F.Command<Body>>, i: nat)
    requires i < |cmds| && cmds[i].Do?
    ensures X.WellSpacedAt(EMPTY, cmds, i)
  {
    hide F.Run;
  }

  lemma {:induction false} NeverTorn(cmds: seq<F.Command<Body>>, i: nat)
    requires Torns(cmds) == 0 && i < |cmds|
    ensures !cmds[i].CrashCompacting?
  {
    if i < |cmds| - 1 { NeverTorn(cmds[..|cmds| - 1], i); }
  }

  // As long as there were at most 20000 recordings and no compaction was torn apart, the store's history holds no event
  // twice, however often events are resent and however often the server ends.
  lemma RecordedAtMostOnce(opts: Q.Options, site: string, steps: seq<Step>)
    requires !opts.policy.DropOldest? && TornEnds(steps) == 0
    requires |Run(opts, site, steps).server.recordings| <= F.SEEN_CAP
    ensures X.NoDup(Recorded(Run(opts, site, steps).server))
  {
    hide Run, F.Run, X.Recorded, X.NoDup, X.WellSpacedRun;
    RunCosts(opts, site, steps);
    var cmds := Run(opts, site, steps).server.cmds;
    forall i | 0 <= i < |cmds| ensures !cmds[i].CrashCompacting? { NeverTorn(cmds, i); }
    X.RecordedAtMostOnce(EMPTY, cmds);
  }

  // Another site's event under an id of its own goes into the same store, even if the server dies right after.
  lemma OthersRecorded(opts: Q.Options, site: string, w: World, s: string, ev: Event, made: string)
    requires Ready(w) && Proper(ev.body)
    requires var id := if ev.id == "" then made else ev.id; id !in w.accepted && id !in Store(w.server).index
    ensures var d := F.AddEvent(F.Doc(if ev.id == "" then made else ev.id, ev.body));
            var a := Store(Next(opts, site, w, OtherSite(s, ev, Luck(made, NoFault))).server).history;
            var b := Store(Next(opts, site, w, OtherDied(s, ev, made, false)).server).history;
            a != [] && a[|a| - 1] == d && b != [] && b[|b| - 1] == d
  {
    hide Ready, Store, Ingested, DiedRecording;
    IngestRecords(w.server, s, ev, made);
    DiedRecords(w.server, s, ev, made, false);
  }

  // If only the answer to a batch is lost, or its results are, the server has recorded every event of it while all of
  // them are still spooled, to be sent again.
  lemma LostAnswerRecords(site: string, w: World, answer: Answer)
    requires WInv(w) && w.phase.Sending? && (answer.LostResponse? || answer == EmptyResults(true))
    ensures var items, start := w.phase.items, w.phase.next; var w' := DoSendBatch(site, w, Fate(answer, []));
            && w'.spool == w.spool
            && forall i :: start <= i < Min(start + 50, |items|) ==> items[i].id in Recorded(w'.server)
  {
    hide S.Sound, SvInv, Recorded, KeptIn, IngestAll, InFront, Remembers;
    var Sending(items, start) := w.phase;
    var end := Min(start + BATCH, |items|);
    var evs := items[start..end];
    assert forall i :: 0 <= i < |evs| ==> evs[i] == items[start + i];
    IngestAllSucceeds(w.server, site, evs);
    IngestAllKeeps(w.server, site, evs, []);
    assert forall i :: start <= i < end ==> items[i] == evs[i - start];
  }

  // ----- oldest first -------------------------------------------------------------------------------------

  // The spool stays as it is or loses exactly its oldest event, which is recorded, was recorded and then forgotten by a
  // restart of the server, or was wrongly acknowledged.
  ghost predicate HeadGoes(w: World, w': World) {
    || w'.spool.list == w.spool.list
    || (w.spool.list != [] && w'.spool.list == w.spool.list[1..]
        && (Noticed(w'.server, w.spool.list[0].id) || w.spool.list[0].id in w'.discarded))
  }

  lemma HeadKeyed(w: World)
    requires WInv(w) && w.spool.list != []
    ensures w.spool.list[0].data.id == w.spool.list[0].id
  {
    S.InOrderAt(w.spool.list, w.accepted, 0);
  }

  lemma DeleteHead(w: World)
    requires WInv(w) && w.inTurn && w.phase.Deleting?
    ensures HeadGoes(w, DoDeleteNext(w))
  {
    hide S.Sound, SvInv, Recorded, KeptIn, Q.Delete, Sendable;
    var Deleting(items, next, end, ok) := w.phase;
    if items[next].id in ok {
      HeadKeyed(w);
      DeleteKeeps(w, items[next].id);
    }
  }

  lemma GoneHead(w: World)
    requires WInv(w) && w.inTurn && w.phase.Single?
    requires var id := w.phase.items[w.phase.next].id; Noticed(w.server, id) || id in w.discarded
    ensures HeadGoes(w, Gone(w))
  {
    hide S.Sound, SvInv, Recorded, KeptIn, Q.Delete, Sendable;
    HeadKeyed(w);
    DeleteKeeps(w, w.phase.items[w.phase.next].id);
  }

  lemma AckHead(site: string, w: World, fate: Fate)
    requires WInv(w) && w.inTurn && w.phase.Single?
    ensures HeadGoes(w, DoSendOne(site, w, fate))
  {
    hide WInv, SvInv, Recorded, Ingested, DiedRecording, Gone, Remembers, S.Sound, Q.NoDup, S.InOrder;
    WInvFacts(w);
    var ev := w.phase.items[w.phase.next];
    IngestKeeps(w.server, site, ev, LuckAt(fate.lucks, 0));
    var (sv, fine) := Ingested(w.server, site, ev, LuckAt(fate.lucks, 0));
    ServerGrows(w, sv);
    AcknowledgedKeeps(w, ev.id);
    if fine { GoneHead(w.(server := sv)); }
    GoneHead(Acknowledged(w, ev.id));
  }

  lemma FlushStepHead(opts: Q.Options, site: string, w: World, step: Step)
    requires WInv(w) && w.inTurn && Ready(w)
    requires step.SendBatch? || step.DeleteNext? || step.SendOne?
    ensures HeadGoes(w, Next(opts, site, w, step))
  {
    hide WInv, Recorded, DoDeleteNext, DoSendOne, IngestAll, DiedInBatch;
    if step.DeleteNext? && w.phase.Deleting? {
      DeleteHead(w);
    } else if step.SendOne? && w.phase.Single? {
      AckHead(site, w, step.fate);
    }
  }

  // While every deletion has been in turn, a flush step leaves the spool alone or removes exactly its oldest event,
  // which is settled; and the spool is always in acceptance order.
  lemma OldestFirst(opts: Q.Options, site: string, steps: seq<Step>, step: Step)
    requires !opts.policy.DropOldest?
    requires step.SendBatch? || step.DeleteNext? || step.SendOne?
    ensures var w, w' := Run(opts, site, steps), Run(opts, site, steps + [step]);
            S.InOrder(w.spool.list, w.accepted) && (w.inTurn ==> HeadGoes(w, w'))
  {
    var w := Run(opts, site, steps);
    RunSnoc(opts, site, steps, step);
    WInvFacts(w);
    hide Run, WInv, Next, HeadGoes, S.InOrder;
    if w.inTurn { FlushStepHead(opts, site, w, step); }
  }

  lemma TurnKept(opts: Q.Options, site: string, w: World, step: Step)
    requires Ready(w) && w.inTurn && (w.phase.Single? ==> !w.phase.resume)
    requires step.SendBatch? ==> !step.fate.answer.EmptyResults?
    ensures var w' := Next(opts, site, w, step); w'.inTurn && (w'.phase.Single? ==> !w'.phase.resume)
  {
    hide Q.Put, Q.Delete, IngestAll, Ingested, DiedInBatch, DiedRecording, Restarted, Recorded, Used, Proper, Q.Opened;
  }

  // Deletions leave their turn only after an empty answer to a batch.
  lemma {:induction false} InTurnUnlessEmpty(opts: Q.Options, site: string, steps: seq<Step>)
    requires !opts.policy.DropOldest?
    requires forall i :: 0 <= i < |steps| && steps[i].SendBatch? ==> !steps[i].fate.answer.EmptyResults?
    ensures var w := Run(opts, site, steps); w.inTurn && (w.phase.Single? ==> !w.phase.resume)
  {
    hide Next, WInv, Ready;
    if steps != [] {
      var front, step := steps[..|steps| - 1], steps[|steps| - 1];
      InTurnUnlessEmpty(opts, site, front);
      RunSnoc(opts, site, front, step);
      assert front + [step] == steps;
      TurnKept(opts, site, Run(opts, site, front), step);
    }
  }
}
