// The control plane's side of store and forward (internal/server/server.go): deduplicate, put one delivery per
// matching route, then record the event in the file-backed store. The process may end between two requests or while
// it records.
module Ingest {
  import opened Wrappers
  import F = FileStore
  import X = SeenIndex
  import R = Router

  const BATCH_LIMIT: nat := 500

  datatype Body = Body(topic: string, payload: string)

  type Event = F.Doc<Body>

  // Both the agent and the server refuse anything else.
  predicate Proper(b: Body) { b.topic != "" && b.payload != "" }

  datatype Route = Route(id: string, enabled: bool, siteId: string, filter: string)

  // `table` are the routes as they were when the event was recorded.
  datatype Recording = Recording(id: string, site: string, topic: string, table: seq<Route>)

  // The event store is given by everything ever asked of it. `put` are the (event, route) pairs a delivery was put
  // for, under an id computed from the pair. `forgotten` are the events a restart of the store dropped.
  datatype Server = Server(routes: seq<Route>, put: set<(string, string)>, cmds: seq<F.Command<Body>>,
                           recordings: seq<Recording>, forgotten: seq<string>)

  // What goes wrong during one ingest: the delivery queue refuses a Put after some succeeded, or the store write fails.
  datatype Fault = NoFault | PutFails(after: nat) | RecordFails

  // The circumstances of one ingest; `made` is the id the server makes up for an event that comes without one.
  datatype Luck = Luck(made: string, fault: Fault)

  const EMPTY: F.State<Body> := F.State(map[], [], [])

  function Store(sv: Server): F.Store<Body> { F.Run(EMPTY, sv.cmds) }

  function Recorded(sv: Server): seq<string> { X.Recorded(Store(sv).history) }

  predicate Wants(rt: Route, site: string, topic: string) {
    rt.enabled && (rt.siteId == "" || rt.siteId == site) && R.Matches(R.LevelsOf(rt.filter), R.LevelsOf(topic))
  }

  function Wanted(routes: seq<Route>, site: string, topic: string): seq<string> {
    if routes == [] then []
    else
      var rt := routes[|routes| - 1];
      Wanted(routes[..|routes| - 1], site, topic) + (if Wants(rt, site, topic) then [rt.id] else [])
  }

  lemma {:induction false} WantedAll(routes: seq<Route>, site: string, topic: string, rt: Route)
    requires rt in routes && Wants(rt, site, topic)
    ensures rt.id in Wanted(routes, site, topic)
  {
    if rt != routes[|routes| - 1] { WantedAll(routes[..|routes| - 1], site, topic, rt); }
  }

  lemma {:induction false} WantedOnly(routes: seq<Route>, site: string, topic: string, rid: string)
    requires rid in Wanted(routes, site, topic)
    ensures exists rt :: rt in routes && Wants(rt, site, topic) && rt.id == rid
  {
    var rt := routes[|routes| - 1];
    if !(Wants(rt, site, topic) && rt.id == rid) {
      WantedOnly(routes[..|routes| - 1], site, topic, rid);
    }
  }

  function Pairs(id: string, routes: seq<string>): set<(string, string)> { set r | r in routes :: (id, r) }

  function Named(ev: Event, made: string): Event { if ev.id == "" then F.Doc(made, ev.body) else ev }

  // One event, and whether it was answered without an error.
  function Ingested(sv: Server, site: string, raw: Event, luck: Luck): (Server, bool) {
    if !Proper(raw.body) then (sv, false) else
    var ev := Named(raw, luck.made);
    if ev.id in Store(sv).index then (sv, true) else
    var wanted := Wanted(sv.routes, site, ev.body.topic);
    if luck.fault.PutFails? && luck.fault.after < |wanted| then
      (sv.(put := sv.put + Pairs(ev.id, wanted[..luck.fault.after])), false)
    else if luck.fault.RecordFails? then
      (sv.(put := sv.put + Pairs(ev.id, wanted)), false)
    else
      (Noted(sv, site, ev, F.Do(F.AddEvent(ev))), true)
  }

  // Deliveries put and the event recorded, by a command that puts it on disk.
  function Noted(sv: Server, site: string, ev: Event, c: F.Command<Body>): Server {
    Server(sv.routes, sv.put + Pairs(ev.id, Wanted(sv.routes, site, ev.body.topic)), sv.cmds + [c],
           sv.recordings + [Recording(ev.id, site, ev.body.topic, sv.routes)], sv.forgotten + Dropped(Store(sv), c))
  }

  // The event whose operation a command drops from the store, if it is one.
  function Dropped(s: F.Store<Body>, c: F.Command<Body>): seq<string> {
    if (c.Restart? || c.CrashAppended?) && s.skipped.Some? && s.skipped.value < |s.history| && s.history[s.skipped.value].AddEvent?
    then [s.history[s.skipped.value].doc.id]
    else []
  }

  function Restarted(sv: Server): Server {
    sv.(cmds := sv.cmds + [F.Restart], forgotten := sv.forgotten + Dropped(Store(sv), F.Restart))
  }

  // The process dies while it records an event that is new and proper: the record made it to the log, and perhaps the
  // snapshot of a compaction was written too. For any other event there is nothing to record.
  function DiedRecording(sv: Server, site: string, raw: Event, made: string, torn: bool): Server {
    var ev := Named(raw, made);
    var c := if torn then F.CrashCompacting(F.AddEvent(ev)) else F.CrashAppended(F.AddEvent(ev));
    if !Proper(raw.body) || F.Left(Store(sv), c).None? then Restarted(sv) else Noted(sv, site, ev, c)
  }

  function LuckAt(lucks: seq<Luck>, i: nat): Luck { if i < |lucks| then lucks[i] else Luck("", NoFault) }

  // The batch handler takes the events in order, whatever becomes of each; the ids answered without an error.
  function IngestAll(sv: Server, site: string, evs: seq<Event>, lucks: seq<Luck>): (Server, set<string>) {
    if evs == [] then (sv, {})
    else
      var n := |evs| - 1;
      var (sv1, ok) := IngestAll(sv, site, evs[..n], lucks);
      var (sv2, fine) := Ingested(sv1, site, evs[n], LuckAt(lucks, n));
      (sv2, if fine then ok + {Named(evs[n], LuckAt(lucks, n).made).id} else ok)
  }

  // A batch that is empty or too long is refused as a whole.
  function HandleBatch(sv: Server, site: string, evs: seq<Event>, lucks: seq<Luck>): (Server, Option<set<string>>) {
    if evs == [] || |evs| > BATCH_LIMIT then (sv, None)
    else
      var (sv', ok) := IngestAll(sv, site, evs, lucks);
      (sv', Some(ok))
  }

  // ----- what the server keeps --------------------------------------------------------------------------------

  // Every route that wanted a recorded event had its delivery put.
  ghost predicate Routed(put: set<(string, string)>, recordings: seq<Recording>) {
    forall i, rt :: 0 <= i < |recordings| && rt in recordings[i].table && Wants(rt, recordings[i].site, recordings[i].topic)
      ==> (recordings[i].id, rt.id) in put
  }

  ghost predicate Recordings(recorded: seq<string>, recordings: seq<Recording>) {
    forall id :: id in recorded ==> exists i :: 0 <= i < |recordings| && recordings[i].id == id
  }

  ghost predicate SvInv(sv: Server) { Routed(sv.put, sv.recordings) && Recordings(Recorded(sv), sv.recordings) }

  // Nothing recorded gets lost but what a restart forgets.
  ghost predicate Remembers(sv: Server, sv': Server) {
    && sv.forgotten <= sv'.forgotten
    && forall id :: id in Recorded(sv) ==> id in Recorded(sv') || id in sv'.forgotten
  }

  lemma RemembersAll(a: Server, b: Server, c: Server)
    requires Remembers(a, b) && Remembers(b, c)
    ensures Remembers(a, c)
  {
    hide Recorded;
  }

  lemma RoutedSnoc(sv: Server, site: string, ev: Event)
    requires Routed(sv.put, sv.recordings)
    ensures Routed(sv.put + Pairs(ev.id, Wanted(sv.routes, site, ev.body.topic)),
                   sv.recordings + [Recording(ev.id, site, ev.body.topic, sv.routes)])
  {
    hide Wanted, Wants;
    var put := sv.put + Pairs(ev.id, Wanted(sv.routes, site, ev.body.topic));
    var rs := sv.recordings + [Recording(ev.id, site, ev.body.topic, sv.routes)];
    forall i, rt | 0 <= i < |rs| && rt in rs[i].table && Wants(rt, rs[i].site, rs[i].topic) ensures (rs[i].id, rt.id) in put {
      if i < |sv.recordings| {
        assert rs[i] == sv.recordings[i];
      } else {
        WantedAll(sv.routes, site, ev.body.topic, rt);
      }
    }
  }

  lemma RecordingsSnoc(recorded: seq<string>, recordings: seq<Recording>, r: Recording)
    requires Recordings(recorded, recordings)
    ensures Recordings(recorded + [r.id], recordings + [r])
  {
    var rs := recordings + [r];
    forall id | id in recorded + [r.id] ensures exists i :: 0 <= i < |rs| && rs[i].id == id {
      if id == r.id {
        assert rs[|recordings|].id == id;
      } else {
        var i :| 0 <= i < |recordings| && recordings[i].id == id;
        assert rs[i].id == id;
      }
    }
  }

  lemma RecordingsFewer(a: seq<string>, b: seq<string>, recordings: seq<Recording>)
    requires Recordings(a, recordings) && forall id :: id in b ==> id in a
    ensures Recordings(b, recordings)
  {
  }

  // What a reopening drops.
  lemma KeptRecorded(s: F.Store<Body>, id: string)
    ensures id in X.Recorded(F.OnDisk(s)) ==> id in X.Recorded(s.history)
    ensures id in X.Recorded(s.history) ==> id in X.Recorded(F.OnDisk(s)) || id in Dropped(s, F.Restart)
  {
    var h := s.history;
    if s.skipped.Some? && s.skipped.value < |h| {
      var k := s.skipped.value;
      var a, b := h[..k], h[k + 1..];
      X.RecordedConcat(a, b);
      assert h == (a + [h[k]]) + b;
      X.RecordedConcat(a + [h[k]], b);
      X.RecordedSnoc(a, h[k]);
    }
  }

  // The recorded ids after a command that ends the process.
  lemma AppendedRecorded(s: F.Store<Body>, o: F.Op<Body>, id: string)
    ensures var r' := X.Recorded(F.OnDisk(s) + [o]);
            && (id in r' ==> id in X.Recorded(s.history) || (o.AddEvent? && id == o.doc.id))
            && (id in X.Recorded(s.history) ==> id in r' || id in Dropped(s, F.CrashAppended(o)))
            && (o.AddEvent? && id == o.doc.id ==> id in r')
  {
    KeptRecorded(s, id);
    hide X.Recorded, F.OnDisk;
    X.RecordedSnoc(F.OnDisk(s), o);
  }

  lemma TornRecorded(s: F.Store<Body>, o: F.Op<Body>, n: nat, id: string)
    requires n <= |F.OnDisk(s)| && s.disk.wal == F.OnDisk(s)[n..]
    ensures var r' := X.Recorded(s.history + s.disk.wal + [o]);
            && (id in r' ==> id in X.Recorded(s.history) || (o.AddEvent? && id == o.doc.id))
            && (id in X.Recorded(s.history) ==> id in r')
            && (o.AddEvent? && id == o.doc.id ==> id in r')
  {
    KeptRecorded(s, id);
    hide X.Recorded, F.OnDisk, Dropped;
    X.RecordedSnoc(s.history + s.disk.wal, o);
    X.RecordedConcat(s.history, s.disk.wal);
    X.RecordedConcat(F.OnDisk(s)[..n], s.disk.wal);
    assert F.OnDisk(s) == F.OnDisk(s)[..n] + s.disk.wal;
  }

  lemma StoreSnoc(sv: Server, c: F.Command<Body>)
    ensures F.Run(EMPTY, sv.cmds + [c]) == F.Next(Store(sv), c)
  {
    F.RunSnoc(EMPTY, sv.cmds, c);
  }

  lemma WalOnDisk(sv: Server) returns (n: nat)
    ensures var s := Store(sv); n <= |F.OnDisk(s)| && s.disk.wal == F.OnDisk(s)[n..]
  {
    F.Recovery(EMPTY, sv.cmds);
    n := |F.OnDisk(Store(sv))| - |Store(sv).disk.wal|;
  }

  // The store after one more command: what is recorded then, and what the command cost.
  lemma NextRecorded(sv: Server, c: F.Command<Body>, id: string)
    ensures var s := Store(sv); var r, r' := Recorded(sv), X.Recorded(F.Run(EMPTY, sv.cmds + [c]).history);
            && (id in r' ==> id in r || (!c.Restart? && c.op.AddEvent? && id == c.op.doc.id))
            && (id in r ==> id in r' || id in Dropped(s, c))
            && (!c.Restart? && c.op.AddEvent? && id == c.op.doc.id && (F.Left(s, c).Some? || (c.Do? && !F.Ignored(s, c.op))) ==> id in r')
  {
    StoreSnoc(sv, c);
    var n := WalOnDisk(sv);
    hide F.Run, X.Recorded, F.Recovered, F.ReplayIndex, F.Apply, F.Indexed, F.OnDisk, F.Ignored;
    var s := Store(sv);
    match c
    case Do(o) => X.RecordedSnoc(s.history, o);
    case Restart => KeptRecorded(s, id);
    case CrashAppended(o) => AppendedRecorded(s, o, id);
    case CrashCompacting(o) => TornRecorded(s, o, n, id);
  }

  lemma NotedKeeps(sv: Server, site: string, ev: Event, c: F.Command<Body>)
    requires SvInv(sv) && !c.Restart? && c.op == F.AddEvent(ev)
    requires F.Left(Store(sv), c).Some? || (c.Do? && !F.Ignored(Store(sv), c.op))
    ensures var sv' := Noted(sv, site, ev, c);
            SvInv(sv') && Remembers(sv, sv') && ev.id in Recorded(sv') && sv.put <= sv'.put
  {
    var sv' := Noted(sv, site, ev, c);
    hide F.Run, X.Recorded, F.Left, F.Next, Routed, Wanted, Pairs, Dropped;
    RoutedSnoc(sv, site, ev);
    var r := Recording(ev.id, site, ev.body.topic, sv.routes);
    RecordingsSnoc(Recorded(sv), sv.recordings, r);
    forall id ensures (id in Recorded(sv') ==> id in Recorded(sv) + [ev.id])
                      && (id in Recorded(sv) ==> id in Recorded(sv') || id in sv'.forgotten)
    {
      NextRecorded(sv, c, id);
    }
    NextRecorded(sv, c, ev.id);
    RecordingsFewer(Recorded(sv) + [ev.id], Recorded(sv'), sv'.recordings);
  }

  // Any other command on the store.
  lemma CommandKeeps(sv: Server, c: F.Command<Body>)
    requires SvInv(sv) && (c.Restart? || !c.op.AddEvent?)
    ensures var sv' := sv.(cmds := sv.cmds + [c], forgotten := sv.forgotten + Dropped(Store(sv), c));
            SvInv(sv') && Remembers(sv, sv')
  {
    var sv' := sv.(cmds := sv.cmds + [c], forgotten := sv.forgotten + Dropped(Store(sv), c));
    hide F.Run, X.Recorded, F.Left, F.Next, Routed, Dropped;
    forall id ensures (id in Recorded(sv') ==> id in Recorded(sv))
                      && (id in Recorded(sv) ==> id in Recorded(sv') || id in sv'.forgotten)
    {
      NextRecorded(sv, c, id);
    }
    RecordingsFewer(Recorded(sv), Recorded(sv'), sv'.recordings);
  }

  lemma SameStoreKeeps(sv: Server, sv': Server)
    requires SvInv(sv) && sv'.cmds == sv.cmds && sv'.recordings == sv.recordings && sv'.forgotten == sv.forgotten && sv.put <= sv'.put
    ensures SvInv(sv') && Remembers(sv, sv')
  {
    hide F.Run, X.Recorded;
  }

  lemma IndexedIsRecorded(sv: Server, id: string)
    requires id in Store(sv).index
    ensures id in Recorded(sv)
  {
    X.DedupWindow(EMPTY, sv.cmds);
    hide F.Run, X.Recorded, F.Suffix;
    InSuffix(Recorded(sv), F.SEEN_CAP, id);
  }

  lemma InSuffix(r: seq<string>, n: nat, id: string)
    ensures id in F.Suffix(r, n) ==> id in r
  {
  }

  // An acknowledged event is recorded, and nothing recorded is lost.
  lemma IngestKeeps(sv: Server, site: string, raw: Event, luck: Luck)
    requires SvInv(sv)
    ensures var (sv', ok) := Ingested(sv, site, raw, luck);
            && SvInv(sv') && Remembers(sv, sv') && sv'.routes == sv.routes && sv'.forgotten == sv.forgotten
            && (ok ==> Named(raw, luck.made).id in Recorded(sv'))
  {
    hide SvInv, Recorded, Store, Wanted, Pairs;
    SameStoreKeeps(sv, sv);
    var (sv', ok) := Ingested(sv, site, raw, luck);
    if Proper(raw.body) {
      var ev := Named(raw, luck.made);
      if ev.id in Store(sv).index {
        IndexedIsRecorded(sv, ev.id);
      } else if ok {
        NotedKeeps(sv, site, ev, F.Do(F.AddEvent(ev)));
      } else {
        SameStoreKeeps(sv, sv');
      }
    }
  }

  lemma {:induction false} IngestAllKeeps(sv: Server, site: string, evs: seq<Event>, lucks: seq<Luck>)
    requires SvInv(sv)
    ensures var (sv', ok) := IngestAll(sv, site, evs, lucks);
            && SvInv(sv') && Remembers(sv, sv') && sv'.routes == sv.routes && sv'.forgotten == sv.forgotten
            && (forall id :: id in Recorded(sv) ==> id in Recorded(sv'))
            && (forall id :: id in ok ==> id in Recorded(sv'))
  {
    hide SvInv, Recorded, Ingested;
    if evs == [] {
    } else {
      var n := |evs| - 1;
      IngestAllKeeps(sv, site, evs[..n], lucks);
      var (sv1, ok) := IngestAll(sv, site, evs[..n], lucks);
      IngestKeeps(sv1, site, evs[n], LuckAt(lucks, n));
      var (sv2, fine) := Ingested(sv1, site, evs[n], LuckAt(lucks, n));
      RemembersAll(sv, sv1, sv2);
      assert forall id :: id in Recorded(sv1) ==> id in Recorded(sv2) || id in sv2.forgotten;
      StillRecorded(sv1, site, evs[n], LuckAt(lucks, n));
    }
  }

  // An ingest that the process survives forgets nothing at all.
  lemma StillRecorded(sv: Server, site: string, raw: Event, luck: Luck)
    ensures forall id :: id in Recorded(sv) ==> id in Recorded(Ingested(sv, site, raw, luck).0)
  {
    hide X.Recorded, F.Run, Wanted, Pairs;
    var sv' := Ingested(sv, site, raw, luck).0;
    if sv'.cmds != sv.cmds {
      var c := F.Do(F.AddEvent(Named(raw, luck.made)));
      assert sv'.cmds == sv.cmds + [c];
      forall id | id in Recorded(sv) ensures id in Recorded(sv') { NextRecorded(sv, c, id); }
    }
  }

  lemma DiedKeeps(sv: Server, site: string, raw: Event, made: string, torn: bool)
    requires SvInv(sv)
    ensures var sv' := DiedRecording(sv, site, raw, made, torn);
            SvInv(sv') && Remembers(sv, sv') && |sv'.forgotten| <= |sv.forgotten| + 1
  {
    hide SvInv, Recorded, Store, Wanted, Pairs, F.Left;
    CommandKeeps(sv, F.Restart);
    var ev := Named(raw, made);
    var c := if torn then F.CrashCompacting(F.AddEvent(ev)) else F.CrashAppended(F.AddEvent(ev));
    if Proper(raw.body) && F.Left(Store(sv), c).Some? { NotedKeeps(sv, site, ev, c); }
  }

  // A new proper event that meets no fault: the store's newest event is the one that was sent, body and all, under its
  // own id or under the one made for it, and exactly the enabled routes of its site whose filter matches got a delivery.
  lemma IngestRecords(sv: Server, site: string, raw: Event, made: string)
    requires Proper(raw.body) && (if raw.id == "" then made else raw.id) !in Store(sv).index
    ensures var id := if raw.id == "" then made else raw.id;
            var (sv', ok) := Ingested(sv, site, raw, Luck(made, NoFault));
            var events := Store(sv').state.events;
            && ok && events != [] && events[|events| - 1] == F.Doc(id, Body(raw.body.topic, raw.body.payload))
            && Store(sv').history == Store(sv).history + [F.AddEvent(F.Doc(id, raw.body))]
            && sv'.recordings == sv.recordings + [Recording(id, site, raw.body.topic, sv.routes)] && sv'.routes == sv.routes
            && forall e, r :: (e, r) in sv'.put <==>
                 || (e, r) in sv.put
                 || (e == id && exists i :: 0 <= i < |sv.routes| && sv.routes[i].id == r && Due(sv.routes[i], site, raw.body.topic))
  {
    var id := if raw.id == "" then made else raw.id;
    var ev := F.Doc(id, raw.body);
    StoreSnoc(sv, F.Do(F.AddEvent(ev)));
    hide F.Run, Wanted, Due, F.Indexed;
    forall r ensures r in Wanted(sv.routes, site, raw.body.topic) <==>
                     exists i :: 0 <= i < |sv.routes| && sv.routes[i].id == r && Due(sv.routes[i], site, raw.body.topic)
    {
      WantedIff(sv.routes, site, raw.body.topic, r);
    }
  }

  // An enabled route, of this site or of all, one of whose topics this is.
  ghost predicate Due(rt: Route, site: string, topic: string) {
    rt.enabled && rt.siteId in {"", site} && R.MatchesPointwise(R.LevelsOf(rt.filter), R.LevelsOf(topic))
  }

  lemma WantedIff(routes: seq<Route>, site: string, topic: string, r: string)
    ensures r in Wanted(routes, site, topic) <==> exists i :: 0 <= i < |routes| && routes[i].id == r && Due(routes[i], site, topic)
  {
    hide Wanted, R.LevelsOf, R.Matches, R.MatchesPointwise;
    forall i | 0 <= i < |routes| && routes[i].id == r && Due(routes[i], site, topic) ensures r in Wanted(routes, site, topic) {
      R.MatchesIffPointwise(R.LevelsOf(routes[i].filter), R.LevelsOf(topic));
      WantedAll(routes, site, topic, routes[i]);
    }
    if r in Wanted(routes, site, topic) {
      WantedOnly(routes, site, topic, r);
      var rt :| rt in routes && Wants(rt, site, topic) && rt.id == r;
      R.MatchesIffPointwise(R.LevelsOf(rt.filter), R.LevelsOf(topic));
    }
  }

  // Nothing else changes the store: not an improper event, not one already indexed, not one whose delivery or record
  // could not be written. Only a known event is acknowledged without being recorded again.
  lemma IngestLeaves(sv: Server, site: string, raw: Event, luck: Luck)
    ensures var id := if raw.id == "" then luck.made else raw.id;
            var (sv', ok) := Ingested(sv, site, raw, luck);
            && (!Proper(raw.body) ==> sv' == sv && !ok)
            && (Proper(raw.body) && id in Store(sv).index ==> sv' == sv && ok)
            && (Proper(raw.body) && id !in Store(sv).index && luck.fault.RecordFails? ==> sv'.cmds == sv.cmds && !ok)
            && (Proper(raw.body) && id !in Store(sv).index && luck.fault.PutFails? ==>
                  luck.fault.after < |Wanted(sv.routes, site, raw.body.topic)| ==> sv'.cmds == sv.cmds && !ok)
  {
    hide F.Run, Wanted, Pairs;
  }

  // A process that dies after the append has recorded the event although nobody was told; dying between the halves of a
  // compaction needs a log that was full.
  lemma DiedRecords(sv: Server, site: string, raw: Event, made: string, torn: bool)
    requires Proper(raw.body) && (if raw.id == "" then made else raw.id) !in Store(sv).index
    requires torn ==> Store(sv).ops + 1 >= 2048
    ensures var id := if raw.id == "" then made else raw.id;
            var h := Store(DiedRecording(sv, site, raw, made, torn)).history;
            h != [] && h[|h| - 1] == F.AddEvent(F.Doc(id, raw.body))
  {
    var ev := F.Doc(if raw.id == "" then made else raw.id, raw.body);
    StoreSnoc(sv, if torn then F.CrashCompacting(F.AddEvent(ev)) else F.CrashAppended(F.AddEvent(ev)));
    hide F.Run, Wanted, Pairs, Dropped, F.ReplayIndex, F.Recovered;
  }

  lemma IngestSucceeds(sv: Server, site: string, raw: Event, made: string)
    requires Proper(raw.body)
    ensures Ingested(sv, site, raw, Luck(made, NoFault)).1
  {
    hide Store, Pairs, Wanted;
  }

  // A proper event that meets no fault is always acknowledged.
  lemma {:induction false} IngestAllSucceeds(sv: Server, site: string, evs: seq<Event>)
    requires forall i :: 0 <= i < |evs| ==> Proper(evs[i].body) && evs[i].id != ""
    ensures forall i :: 0 <= i < |evs| ==> evs[i].id in IngestAll(sv, site, evs, []).1
  {
    hide Ingested, Proper;
    if evs != [] {
      var n := |evs| - 1;
      assert forall i :: 0 <= i < n ==> evs[..n][i] == evs[i];
      IngestAllSucceeds(sv, site, evs[..n]);
      IngestSucceeds(IngestAll(sv, site, evs[..n], []).0, site, evs[n], "");
    }
  }

  // ----- the handlers -------------------------------------------------------------------------------------------

  lemma {:induction false} WantedPrefix(routes: seq<Route>, i: nat, site: string, topic: string)
    requires i <= |routes|
    ensures Wanted(routes[..i], site, topic) <= Wanted(routes, site, topic)
    decreases |routes|
  {
    if i < |routes| {
      WantedPrefix(routes[..|routes| - 1], i, site, topic);
      assert routes[..|routes| - 1][..i] == routes[..i];
    } else {
      assert routes[..i] == routes;
    }
  }

  lemma WantedNone(routes: seq<Route>, site: string, topic: string, id: string)
    ensures Wanted(routes[..0], site, topic) == [] && Pairs(id, []) == {}
  {
  }

  lemma WantedStep(routes: seq<Route>, i: nat, site: string, topic: string, id: string)
    requires i < |routes|
    ensures var wanted := Wanted(routes[..i], site, topic);
            && Wanted(routes[..i + 1], site, topic) == (if Wants(routes[i], site, topic) then wanted + [routes[i].id] else wanted)
            && Pairs(id, wanted + [routes[i].id]) == Pairs(id, wanted) + {(id, routes[i].id)}
  {
    hide Wants;
    assert routes[..i + 1][..i] == routes[..i];
  }

  class ControlPlane {
    var routes: seq<Route>
    var put: set<(string, string)>
    const store: F.FileBackedStore<Body>
    ghost var cmds: seq<F.Command<Body>>
    ghost var recordings: seq<Recording>
    ghost var forgotten: seq<string>

    ghost function Value(): Server
      reads this
    {
      Server(routes, put, cmds, recordings, forgotten)
    }

    ghost predicate Valid()
      reads this, store
    {
      store.Value() == Store(Value())
    }

    constructor (routes: seq<Route>)
      ensures Valid() && fresh(store) && Value() == Server(routes, {}, [], [], [])
    {
      this.routes, put, cmds, recordings, forgotten := routes, {}, [], [], [];
      store := new F.FileBackedStore(F.Disk(EMPTY, []), []);
    }

    // One delivery for each matching route, in order, until the queue refuses one.
    method PutDeliveries(site: string, ev: Event, fault: Fault) returns (ok: bool)
      modifies this`put
      ensures var wanted := Wanted(routes, site, ev.body.topic);
              && ok == !(fault.PutFails? && fault.after < |wanted|)
              && put == old(put) + Pairs(ev.id, if ok then wanted else wanted[..fault.after])
    {
      hide R.Matches, R.LevelsOf, Wanted;
      var matched := 0;
      ghost var wanted := Wanted(routes, site, ev.body.topic);
      WantedNone(routes, site, ev.body.topic, ev.id);
      hide Pairs;
      for i := 0 to |routes|
        invariant put == old(put) + Pairs(ev.id, Wanted(routes[..i], site, ev.body.topic))
        invariant matched == |Wanted(routes[..i], site, ev.body.topic)|
        invariant fault.PutFails? ==> matched <= fault.after
      {
        var rt := routes[i];
        WantedPrefix(routes, i, site, ev.body.topic);
        WantedPrefix(routes, i + 1, site, ev.body.topic);
        WantedStep(routes, i, site, ev.body.topic, ev.id);
        var fits := R.Match(rt.filter, ev.body.topic);
        if !rt.enabled || (rt.siteId != "" && rt.siteId != site) || !fits { continue; }
        if fault.PutFails? && fault.after == matched {
          assert Wanted(routes[..i], site, ev.body.topic) == wanted[..matched];
          return false;
        }
        put := put + {(ev.id, rt.id)};
        matched := matched + 1;
      }
      assert routes[..|routes|] == routes;
      return true;
    }

    // ingestAgentEvent: duplicate check, deliveries, then the event itself.
    method IngestEvent(site: string, raw: Event, luck: Luck) returns (ok: bool, id: string)
      requires Valid()
      modifies this, store
      ensures Valid() && (Value(), ok) == Ingested(old(Value()), site, raw, luck)
      ensures id == if raw.id == "" then luck.made else raw.id
    {
      hide F.Run, F.Next, Wanted, Pairs;
      var ev := if raw.id == "" then F.Doc(luck.made, raw.body) else raw;
      if !Proper(raw.body) { return false, ev.id; }
      if ev.id in store.seen { return true, ev.id; }
      var stored := PutDeliveries(site, ev, luck.fault);
      if !stored || luck.fault.RecordFails? { return false, ev.id; }
      StoreSnoc(Value(), F.Do(F.AddEvent(ev)));
      store.AddEventOnce(ev);
      cmds := cmds + [F.Do(F.AddEvent(ev))];
      recordings := recordings + [Recording(ev.id, site, ev.body.topic, routes)];
      assert forgotten + [] == forgotten;
      return true, ev.id;
    }

    // eventsBatch: every event in order, whatever becomes of each.
    method IngestBatch(site: string, evs: seq<Event>, lucks: seq<Luck>) returns (ok: Option<set<string>>)
      requires Valid()
      modifies this, store
      ensures Valid() && (Value(), ok) == HandleBatch(old(Value()), site, evs, lucks)
      ensures ok.None? <==> |evs| == 0 || |evs| > 500
    {
      hide Ingested, Valid;
      if |evs| == 0 || |evs| > BATCH_LIMIT { return None; }
      var ids: set<string> := {};
      for i := 0 to |evs|
        invariant Valid() && (Value(), ids) == IngestAll(old(Value()), site, evs[..i], lucks)
      {
        assert evs[..i + 1][..i] == evs[..i];
        var fine, id := IngestEvent(site, evs[i], LuckAt(lucks, i));
        if fine { ids := ids + {id}; }
      }
      assert evs[..|evs|] == evs;
      return Some(ids);
    }
  }
}
