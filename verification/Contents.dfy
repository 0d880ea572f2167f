// What store and forward carries: an accepted event keeps its body and its site on the way from the agent's spool into
// the server's store, over every run with crashes, retries, lost answers and restarts.
module Contents {
  import opened Ingest
  import opened StoreForward
  import Q = WalQueue
  import F = FileStore
  import X = SeenIndex
  import S = Spool

  // The body each id was accepted with.
  type Ledger = map<string, Body>

  predicate Honest(b: Ledger, ev: Event) { ev.id in b && b[ev.id] == ev.body }

  ghost predicate AllHonest(b: Ledger, evs: seq<Event>) { forall i :: 0 <= i < |evs| ==> Honest(b, evs[i]) }

  // ----- the spool --------------------------------------------------------------------------------------------

  ghost predicate ListHonest(b: Ledger, l: seq<Q.Item<Event>>) { forall i :: 0 <= i < |l| ==> Honest(b, l[i].data) }

  ghost predicate LogHonest(b: Ledger, log: seq<Q.Record<Event>>) {
    forall i :: 0 <= i < |log| && log[i].PutRec? ==> Honest(b, log[i].item.data)
  }

  ghost predicate SpoolHonest(b: Ledger, q: Q.QState<Event>) { ListHonest(b, q.list) && LogHonest(b, q.log) }

  lemma {:induction false} WithoutHonest(b: Ledger, l: seq<Q.Item<Event>>, id: string)
    requires ListHonest(b, l)
    ensures ListHonest(b, Q.Without(l, id))
  {
    if l != [] { WithoutHonest(b, l[..|l| - 1], id); }
  }

  lemma {:induction false} ReplayHonest(b: Ledger, log: seq<Q.Record<Event>>)
    requires LogHonest(b, log)
    ensures ListHonest(b, Q.Replay(log))
  {
    hide Q.Without;
    if log != [] {
      var front, r := log[..|log| - 1], log[|log| - 1];
      ReplayHonest(b, front);
      WithoutHonest(b, Q.Replay(front), r.Id());
    }
  }

  // An append logs one more record, or the whole list instead.
  lemma AppendHonest(b: Ledger, q: Q.QState<Event>, r: Q.Record<Event>)
    requires SpoolHonest(b, q) && (r.PutRec? ==> Honest(b, r.item.data))
    ensures LogHonest(b, Q.Append(q, r).log)
  {
  }

  lemma PutHonest(b: Ledger, q: Q.QState<Event>, opts: Q.Options, ev: Event, n: nat)
    requires Q.NoDup(q.list) && SpoolHonest(b, q) && Honest(b, ev) && !opts.policy.DropOldest?
    ensures SpoolHonest(b, Q.Put(q, opts, ev.id, ev, n).0)
  {
    hide Q.Append, Q.Without, Q.Find, Q.NoDup, LogHonest, Honest;
    AppendHonest(b, q.(seqNo := q.seqNo + 1), Q.PutRec(Q.Item(ev.id, q.seqNo + 1, ev, n)));
    WithoutHonest(b, q.list, ev.id);
  }

  lemma DeleteHonest(b: Ledger, q: Q.QState<Event>, id: string)
    requires SpoolHonest(b, q)
    ensures SpoolHonest(b, Q.Delete(q, id))
  {
    hide Q.Append, Q.Without, Q.Find, LogHonest, Honest;
    AppendHonest(b, q.(seqNo := q.seqNo + 1), Q.DelRec(id, q.seqNo + 1));
    WithoutHonest(b, q.list, id);
  }

  // ----- the server -------------------------------------------------------------------------------------------

  // An event recorded under an accepted id has the body it was accepted with.
  predicate OpHonest(b: Ledger, o: F.Op<Body>) { o.AddEvent? && o.doc.id in b ==> o.doc.body == b[o.doc.id] }

  ghost predicate HistoryHonest(b: Ledger, h: seq<F.Op<Body>>) { forall i :: 0 <= i < |h| ==> OpHonest(b, h[i]) }

  // And it was routed as an event of the agent's site, by its own topic.
  ghost predicate RecordingsHonest(b: Ledger, site: string, rs: seq<Recording>) {
    forall i :: 0 <= i < |rs| && rs[i].id in b ==> rs[i].site == site && rs[i].topic == b[rs[i].id].topic
  }

  ghost predicate ServerHonest(b: Ledger, site: string, sv: Server) {
    HistoryHonest(b, Store(sv).history) && RecordingsHonest(b, site, sv.recordings)
  }

  lemma CommandHonest(b: Ledger, sv: Server, c: F.Command<Body>)
    requires HistoryHonest(b, Store(sv).history) && (c.Restart? || OpHonest(b, c.op))
    ensures HistoryHonest(b, F.Run(EMPTY, sv.cmds + [c]).history)
  {
    StoreSnoc(sv, c);
    F.Recovery(EMPTY, sv.cmds);
    var s := Store(sv);
    hide F.Run, F.Recovered, F.ReplayIndex, F.Apply, F.Indexed, F.Fold, OpHonest;
    assert HistoryHonest(b, F.OnDisk(s));
    WalHonest(b, s.history, s.disk.wal);
  }

  lemma WalHonest(b: Ledger, h: seq<F.Op<Body>>, wal: seq<F.Op<Body>>)
    requires HistoryHonest(b, h) && F.Ends(h, wal)
    ensures HistoryHonest(b, wal)
  {
    hide OpHonest;
    forall i | 0 <= i < |wal| ensures OpHonest(b, wal[i]) { assert wal[i] == h[|h| - |wal| + i]; }
  }

  lemma NotedHonest(b: Ledger, site: string, sv: Server, s: string, ev: Event, c: F.Command<Body>)
    requires ServerHonest(b, site, sv) && !c.Restart? && c.op == F.AddEvent(ev)
    requires ev.id in b ==> s == site && b[ev.id] == ev.body
    ensures ServerHonest(b, site, Noted(sv, s, ev, c))
  {
    hide F.Run, Wanted, Pairs, Dropped, HistoryHonest;
    CommandHonest(b, sv, c);
  }

  // An event is no threat if its id, given or made up, is not an accepted one, or if it is that event of that site.
  predicate Harmless(b: Ledger, site: string, s: string, raw: Event, made: string) {
    if raw.id != "" then raw.id in b ==> s == site && b[raw.id] == raw.body else made !in b
  }

  lemma IngestHonest(b: Ledger, site: string, sv: Server, s: string, raw: Event, luck: Luck)
    requires ServerHonest(b, site, sv) && Harmless(b, site, s, raw, luck.made)
    ensures ServerHonest(b, site, Ingested(sv, s, raw, luck).0)
  {
    hide F.Run, Wanted, Pairs, Noted, HistoryHonest, RecordingsHonest;
    var ev := Named(raw, luck.made);
    NotedHonest(b, site, sv, s, ev, F.Do(F.AddEvent(ev)));
  }

  lemma {:induction false} IngestAllHonest(b: Ledger, site: string, sv: Server, evs: seq<Event>, lucks: seq<Luck>)
    requires ServerHonest(b, site, sv) && AllHonest(b, evs) && "" !in b
    ensures ServerHonest(b, site, IngestAll(sv, site, evs, lucks).0)
  {
    hide ServerHonest, Ingested, Named;
    if evs != [] {
      var n := |evs| - 1;
      IngestAllHonest(b, site, sv, evs[..n], lucks);
      assert Honest(b, evs[n]);
      IngestHonest(b, site, IngestAll(sv, site, evs[..n], lucks).0, site, evs[n], LuckAt(lucks, n));
    }
  }

  lemma RestartHonest(b: Ledger, site: string, sv: Server)
    requires ServerHonest(b, site, sv)
    ensures ServerHonest(b, site, Restarted(sv))
  {
    hide F.Run, Dropped, HistoryHonest, RecordingsHonest;
    CommandHonest(b, sv, F.Restart);
  }

  lemma DiedHonest(b: Ledger, site: string, sv: Server, s: string, raw: Event, made: string, torn: bool)
    requires ServerHonest(b, site, sv) && Harmless(b, site, s, raw, made)
    ensures ServerHonest(b, site, DiedRecording(sv, s, raw, made, torn))
  {
    hide F.Run, F.Left, Noted, Restarted, ServerHonest;
    RestartHonest(b, site, sv);
    var ev := Named(raw, made);
    NotedHonest(b, site, sv, s, ev, if torn then F.CrashCompacting(F.AddEvent(ev)) else F.CrashAppended(F.AddEvent(ev)));
  }

  lemma DiedInBatchHonest(b: Ledger, site: string, sv: Server, evs: seq<Event>, lucks: seq<Luck>, after: nat, torn: bool)
    requires ServerHonest(b, site, sv) && AllHonest(b, evs) && "" !in b
    ensures ServerHonest(b, site, DiedInBatch(sv, site, evs, lucks, after, torn))
  {
    hide ServerHonest, IngestAll, DiedRecording, Restarted;
    var k := Min(after, |evs|);
    var sv1 := IngestAll(sv, site, evs[..k], lucks).0;
    IngestAllHonest(b, site, sv, evs[..k], lucks);
    RestartHonest(b, site, sv1);
    if k < |evs| {
      assert Honest(b, evs[k]);
      DiedHonest(b, site, sv1, site, evs[k], "", torn);
    }
  }

  // ----- every step -------------------------------------------------------------------------------------------

  ghost predicate PhaseHonest(b: Ledger, p: Phase) { p.Idle? || AllHonest(b, p.items) }

  ghost predicate Carried(b: Ledger, site: string, w: World) {
    && "" !in b && (forall id :: id in w.accepted <==> id in b)
    && SpoolHonest(b, w.spool) && PhaseHonest(b, w.phase) && ServerHonest(b, site, w.server)
  }

  // The ledger after a step: an accept that took effect enters its body.
  ghost function Entered(opts: Q.Options, site: string, w: World, b: Ledger, step: Step): Ledger
    requires Ready(w)
  {
    if step.Accept? && step.id !in w.accepted && step.id in Next(opts, site, w, step).accepted then b[step.id := step.body] else b
  }

  // A new id occurs nowhere on the server.
  lemma NewIdHonest(b: Ledger, site: string, sv: Server, id: string, body: Body)
    requires ServerHonest(b, site, sv) && SvInv(sv)
    requires forall i :: 0 <= i < |sv.recordings| ==> sv.recordings[i].id != id
    ensures ServerHonest(b[id := body], site, sv)
  {
    var h := Store(sv).history;
    hide F.Run, Routed;
    assert id !in X.Recorded(h);
    forall i | 0 <= i < |h| ensures OpHonest(b[id := body], h[i]) {
      assert OpHonest(b, h[i]);
      if h[i].AddEvent? { AddedIsRecorded(h, i); }
    }
    hide X.Recorded;
  }

  lemma {:induction false} AddedIsRecorded(h: seq<F.Op<Body>>, i: nat)
    requires i < |h| && h[i].AddEvent?
    ensures h[i].doc.id in X.Recorded(h)
  {
    if i < |h| - 1 { AddedIsRecorded(h[..|h| - 1], i); }
  }

  lemma MoreHonest(b: Ledger, q: Q.QState<Event>, p: Phase, id: string, body: Body)
    requires id !in b && SpoolHonest(b, q) && PhaseHonest(b, p)
    ensures SpoolHonest(b[id := body], q) && PhaseHonest(b[id := body], p)
  {
  }

  // An accept changes nothing, or stores the event under a new id.
  lemma AcceptCases(opts: Q.Options, w: World, ev: Event, size: nat)
    requires Ready(w) && !opts.policy.DropOldest?
    ensures var w' := DoAccept(opts, w, ev, size);
            || w' == w
            || (!Used(w, ev.id) && ev.id != ""
                && w' == w.(spool := Q.Put(w.spool, opts, ev.id, ev, size).0, accepted := w.accepted + [ev.id]))
  {
    hide Used, Q.Find, Q.Evict, Q.PutStep, Q.Over, Q.NoDup;
  }

  lemma AcceptHonest(opts: Q.Options, site: string, w: World, b: Ledger, ev: Event, size: nat)
    requires WInv(w) && Carried(b, site, w) && !opts.policy.DropOldest? && Ready(w)
    ensures var w' := DoAccept(opts, w, ev, size);
            w' == w || (ev.id !in w.accepted && w'.accepted == w.accepted + [ev.id] && Carried(b[ev.id := ev.body], site, w'))
  {
    hide WInv, SvInv, ServerHonest, SpoolHonest, PhaseHonest, Q.Put, Q.NoDup, DoAccept, S.Sound, S.InOrder, PhaseOk;
    WInvFacts(w);
    AcceptCases(opts, w, ev, size);
    if !Used(w, ev.id) && ev.id != "" {
      var b' := b[ev.id := ev.body];
      NewIdHonest(b, site, w.server, ev.id, ev.body);
      MoreHonest(b, w.spool, w.phase, ev.id, ev.body);
      PutHonest(b', w.spool, opts, ev, size);
    }
  }

  lemma EnteredAccept(opts: Q.Options, site: string, w: World, b: Ledger, id: string, body: Body, size: nat)
    requires Ready(w)
    ensures var w' := DoAccept(opts, w, F.Doc(id, body), size); var b' := Entered(opts, site, w, b, Accept(id, body, size));
            && (w' == w ==> b' == b)
            && (id !in w.accepted && w'.accepted == w.accepted + [id] ==> b' == b[id := body])
  {
    hide DoAccept, Ready;
  }

  lemma SendBatchHonest(site: string, w: World, b: Ledger, fate: Fate)
    requires Carried(b, site, w) && w.phase.Sending? && InBounds(w.phase)
    ensures Carried(b, site, DoSendBatch(site, w, fate))
  {
    hide ServerHonest, SpoolHonest, IngestAll, DiedInBatch, Honest;
    var Sending(items, start) := w.phase;
    var evs := items[start..Min(start + BATCH, |items|)];
    assert AllHonest(b, evs);
    IngestAllHonest(b, site, w.server, evs, fate.lucks);
    if fate.answer.Died? { DiedInBatchHonest(b, site, w.server, evs, fate.lucks, fate.answer.after, fate.answer.torn); }
  }

  lemma SendOneHonest(site: string, w: World, b: Ledger, fate: Fate)
    requires Carried(b, site, w) && w.phase.Single? && InBounds(w.phase)
    ensures Carried(b, site, DoSendOne(site, w, fate))
  {
    hide ServerHonest, SpoolHonest, Ingested, DiedRecording, Q.Delete, Recorded;
    var ev := w.phase.items[w.phase.next];
    assert Honest(b, ev);
    DeleteHonest(b, w.spool, ev.id);
    IngestHonest(b, site, w.server, site, ev, LuckAt(fate.lucks, 0));
    if fate.answer.Died? { DiedHonest(b, site, w.server, site, ev, "", fate.answer.torn); }
  }

  lemma StoreOpHonest(b: Ledger, site: string, sv: Server, op: F.Op<Body>)
    requires ServerHonest(b, site, sv) && !op.AddEvent?
    ensures ServerHonest(b, site, ServerDo(sv, op))
  {
    hide F.Run, Dropped, HistoryHonest, RecordingsHonest;
    CommandHonest(b, sv, F.Do(op));
  }

  lemma RoutesHonest(b: Ledger, site: string, sv: Server, routes: seq<Route>)
    requires ServerHonest(b, site, sv)
    ensures ServerHonest(b, site, sv.(routes := routes))
  {
  }

  lemma StepHonest(opts: Q.Options, site: string, w: World, b: Ledger, step: Step)
    requires WInv(w) && Carried(b, site, w) && !opts.policy.DropOldest? && Ready(w)
    ensures Carried(Entered(opts, site, w, b, step), site, Next(opts, site, w, step))
  {
    hide WInv, ServerHonest, DoAccept, DoSendBatch, DoSendOne, Ingested, DiedRecording, Restarted, ServerDo, Q.Delete, Q.NoDup, Q.Replay;
    match step
    case Accept(id, body, size) =>
      AcceptHonest(opts, site, w, b, F.Doc(id, body), size);
      EnteredAccept(opts, site, w, b, id, body, size);
    case StartFlush =>
    case SendBatch(fate) => if w.phase.Sending? { SendBatchHonest(site, w, b, fate); }
    case DeleteNext =>
      if w.phase.Deleting? { DeleteHonest(b, w.spool, w.phase.items[w.phase.next].id); }
    case SendOne(fate) => if w.phase.Single? { SendOneHonest(site, w, b, fate); }
    case AgentCrash => ReplayHonest(b, w.spool.log);
    case SetRoutes(routes) => RoutesHonest(b, site, w.server, routes);
    case StoreOp(op) => if !op.AddEvent? { StoreOpHonest(b, site, w.server, op); }
    case OtherSite(s, ev, luck) => if Named(ev, luck.made).id !in w.accepted { IngestHonest(b, site, w.server, s, ev, luck); }
    case OtherDied(s, ev, made, torn) => if Named(ev, made).id !in w.accepted { DiedHonest(b, site, w.server, s, ev, made, torn); }
    case ServerRestart => RestartHonest(b, site, w.server);
  }

  // ----- every run --------------------------------------------------------------------------------------------

  ghost function Bodies(opts: Q.Options, site: string, steps: seq<Step>): Ledger
    requires !opts.policy.DropOldest?
  {
    if steps == [] then map[]
    else
      var front := steps[..|steps| - 1];
      RunSnoc(opts, site, front, steps[|steps| - 1]);
      Entered(opts, site, Run(opts, site, front), Bodies(opts, site, front), steps[|steps| - 1])
  }

  lemma StartCarried(site: string)
    ensures Carried(map[], site, START)
  {
    assert Q.Replay<Event>([]) == [];
    assert Store(START.server).history == [];
  }

  lemma RunNone(opts: Q.Options, site: string)
    requires !opts.policy.DropOldest?
    ensures Run(opts, site, []) == START
  {
    hide WInv, Next;
    StartOk();
  }

  lemma {:induction false} AlwaysCarried(opts: Q.Options, site: string, steps: seq<Step>)
    requires !opts.policy.DropOldest?
    ensures Carried(Bodies(opts, site, steps), site, Run(opts, site, steps))
  {
    hide Carried, Entered, Next, WInv, Ready, Run;
    if steps == [] {
      StartCarried(site);
      RunNone(opts, site);
    } else {
      var front, step := steps[..|steps| - 1], steps[|steps| - 1];
      AlwaysCarried(opts, site, front);
      RunSnoc(opts, site, front, step);
      assert steps == front + [step];
      StepHonest(opts, site, Run(opts, site, front), Bodies(opts, site, front), step);
    }
  }

  // Step i of the run accepted this id, with this body; no earlier step had.
  ghost predicate AcceptedAt(opts: Q.Options, site: string, steps: seq<Step>, i: nat, id: string, body: Body)
    requires !opts.policy.DropOldest?
  {
    && i < |steps| && steps[i].Accept? && steps[i].id == id && steps[i].body == body
    && id !in Run(opts, site, steps[..i]).accepted && id in Run(opts, site, steps[..i + 1]).accepted
  }

  lemma {:induction false} BodiesAreAccepted(opts: Q.Options, site: string, steps: seq<Step>, id: string)
    requires !opts.policy.DropOldest? && id in Bodies(opts, site, steps)
    ensures exists i: nat :: AcceptedAt(opts, site, steps, i, id, Bodies(opts, site, steps)[id])
  {
    hide Next, WInv, Ready, Run;
    var n := |steps| - 1;
    var front, step := steps[..n], steps[n];
    RunSnoc(opts, site, front, step);
    assert steps == front + [step];
    var body := Bodies(opts, site, steps)[id];
    if step.Accept? && step.id == id && id !in Run(opts, site, front).accepted && id in Run(opts, site, steps).accepted {
      assert steps[..n + 1] == steps;
      assert AcceptedAt(opts, site, steps, n, id, body);
    } else {
      BodiesAreAccepted(opts, site, front, id);
      var i: nat :| AcceptedAt(opts, site, front, i, id, body);
      assert front[..i] == steps[..i] && front[..i + 1] == steps[..i + 1];
      assert AcceptedAt(opts, site, steps, i, id, body);
    }
  }

  // Some step of the run accepted this id with this body.
  ghost predicate WasAccepted(opts: Q.Options, site: string, steps: seq<Step>, id: string, body: Body)
    requires !opts.policy.DropOldest?
  {
    exists i: nat :: AcceptedAt(opts, site, steps, i, id, body)
  }

  lemma BodyAccepted(opts: Q.Options, site: string, steps: seq<Step>, id: string)
    requires !opts.policy.DropOldest? && id in Bodies(opts, site, steps)
    ensures WasAccepted(opts, site, steps, id, Bodies(opts, site, steps)[id])
  {
    hide Bodies, AcceptedAt, Run;
    BodiesAreAccepted(opts, site, steps, id);
  }

  lemma HistoryAt(b: Ledger, site: string, w: World, k: nat)
    requires Carried(b, site, w) && k < |Store(w.server).history|
    ensures var o := Store(w.server).history[k]; o.AddEvent? && o.doc.id in w.accepted ==> Honest(b, o.doc)
  {
    hide F.Run, SpoolHonest, PhaseHonest, RecordingsHonest;
    assert OpHonest(b, Store(w.server).history[k]);
  }

  lemma RecordingAt(b: Ledger, site: string, w: World, k: nat)
    requires Carried(b, site, w) && k < |w.server.recordings| && w.server.recordings[k].id in w.accepted
    ensures var r := w.server.recordings[k]; r.id in b && r.site == site && r.topic == b[r.id].topic
  {
    hide Store, SpoolHonest, PhaseHonest, HistoryHonest;
  }

  lemma SpooledAt(b: Ledger, site: string, w: World, k: nat)
    requires Carried(b, site, w) && k < |w.spool.list|
    ensures Honest(b, w.spool.list[k].data)
  {
    hide ServerHonest, PhaseHonest;
  }

  // Main theorem: over every run, whatever the server's store was given under an accepted id is the event that was
  // accepted under it, with its topic and payload, routed by that topic as an event of the agent's site; and so is
  // whatever waits in the spool.
  lemma RecordedAsAccepted(opts: Q.Options, site: string, steps: seq<Step>)
    requires !opts.policy.DropOldest?
    ensures var w := Run(opts, site, steps);
            && (forall k :: 0 <= k < |Store(w.server).history| ==>
                  var o := Store(w.server).history[k];
                  o.AddEvent? && o.doc.id in w.accepted ==> WasAccepted(opts, site, steps, o.doc.id, o.doc.body))
            && (forall k :: 0 <= k < |w.server.recordings| && w.server.recordings[k].id in w.accepted ==>
                  var r := w.server.recordings[k];
                  r.site == site && exists body: Body :: body.topic == r.topic && WasAccepted(opts, site, steps, r.id, body))
            && (forall k :: 0 <= k < |w.spool.list| ==>
                  var ev := w.spool.list[k].data; WasAccepted(opts, site, steps, ev.id, ev.body))
  {
    hide *;
    AlwaysCarried(opts, site, steps);
    var w, b := Run(opts, site, steps), Bodies(opts, site, steps);
    forall k | 0 <= k < |Store(w.server).history|
      ensures var o := Store(w.server).history[k];
              o.AddEvent? && o.doc.id in w.accepted ==> WasAccepted(opts, site, steps, o.doc.id, o.doc.body)
    {
      HistoryAt(b, site, w, k);
      var o := Store(w.server).history[k];
      if o.AddEvent? && o.doc.id in w.accepted {
        HonestIs(b, o.doc);
        BodyAccepted(opts, site, steps, o.doc.id);
      }
    }
    forall k | 0 <= k < |w.server.recordings| && w.server.recordings[k].id in w.accepted
      ensures var r := w.server.recordings[k];
              r.site == site && exists body: Body :: body.topic == r.topic && WasAccepted(opts, site, steps, r.id, body)
    {
      RecordingAt(b, site, w, k);
      BodyAccepted(opts, site, steps, w.server.recordings[k].id);
    }
    forall k | 0 <= k < |w.spool.list|
      ensures var ev := w.spool.list[k].data; WasAccepted(opts, site, steps, ev.id, ev.body)
    {
      SpooledAt(b, site, w, k);
      HonestIs(b, w.spool.list[k].data);
      BodyAccepted(opts, site, steps, w.spool.list[k].data.id);
    }
  }

  lemma HonestIs(b: Ledger, ev: Event)
    requires Honest(b, ev)
    ensures ev.id in b && b[ev.id] == ev.body
  {
  }
}
