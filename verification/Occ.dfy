// Optimistic concurrency on fleet documents (internal/store/postgres.go): replicas read a row with its revision,
// run a callback, and write back only if the revision is unchanged. Every SQL statement is one atomic step.
module Occ {
  import opened Wrappers

  const RETRIES: nat := 8

  type Key = string

  datatype Row<+D> = Row(data: D, rev: nat)

  // Every version a key has had, oldest first.
  type History<+D> = map<Key, seq<D>>

  function Versions<D>(h: History<D>, k: Key): seq<D> { if k in h then h[k] else [] }

  function Newest<D>(h: History<D>, k: Key): D
    requires Versions(h, k) != []
  {
    h[k][|h[k]| - 1]
  }

  function Commit<D>(h: History<D>, k: Key, v: D): History<D> { h[k := Versions(h, k) + [v]] }

  // The table shows the last version of each key, numbered by how many there have been.
  ghost predicate Shows<D>(rows: map<Key, Row<D>>, h: History<D>) {
    && rows.Keys == h.Keys
    && forall k :: k in h ==> |h[k]| >= 1 && rows[k] == Row(h[k][|h[k]| - 1], |h[k]|)
  }

  lemma CommitShows<D>(rows: map<Key, Row<D>>, h: History<D>, k: Key, v: D)
    requires Shows(rows, h)
    ensures Shows(rows[k := Row(v, |Versions(h, k)| + 1)], Commit(h, k, v))
  {
  }

  // ----- any interleaving of replicas -------------------------------------------------------------------

  datatype Phase<D> =
    | Idle
    | Read(key: Key, data: D, rev: nat)
    | Absent(key: Key)

  // Who wrote which version of which key: a callback over what it had read, a callback over a blank document
  // (creation), or a plain upsert.
  datatype Author<!D> = ByCallback(f: D -> D) | ByCreation(f: D -> D) | ByUpsert

  datatype Entry<!D> = Entry(key: Key, rev: nat, author: Author<D>)

  datatype World<!D> = World(rows: map<Key, Row<D>>, past: History<D>, procs: map<nat, Phase<D>>, log: seq<Entry<D>>)

  datatype Step<!D> =
    | Load(p: nat, key: Key)
    | Write(p: nat, f: D -> D)
    | Upsert(key: Key, v: D)
    | Dies(p: nat)

  function Put<D>(s: World<D>, k: Key, v: D, a: Author<D>): World<D> {
    var rev := if k in s.rows then s.rows[k].rev + 1 else 1;
    s.(rows := s.rows[k := Row(v, rev)], past := Commit(s.past, k, v), log := s.log + [Entry(k, rev, a)])
  }

  function Next<D>(s: World<D>, blank: Key -> D, step: Step<D>): World<D> {
    match step
    case Load(p, key) =>
      s.(procs := s.procs[p := if key in s.rows then Read(key, s.rows[key].data, s.rows[key].rev) else Absent(key)])
    case Write(p, f) =>
      if p !in s.procs then s
      else
        var t := s.(procs := s.procs[p := Idle]);
        (match s.procs[p]
         case Idle => s
         // UPDATE ... WHERE revision = rev
         case Read(key, data, rev) =>
           if key in s.rows && s.rows[key].rev == rev then Put(t, key, f(data), ByCallback(f)) else t
         // INSERT ... ON CONFLICT DO NOTHING
         case Absent(key) => if key in s.rows then t else Put(t, key, f(blank(key)), ByCreation(f)))
    case Upsert(key, v) => Put(s, key, v, ByUpsert)
    case Dies(p) => s.(procs := s.procs - {p})
  }

  function Run<D>(blank: Key -> D, steps: seq<Step<D>>): World<D> {
    if steps == [] then World(map[], map[], map[], [])
    else Next(Run(blank, steps[..|steps| - 1]), blank, steps[|steps| - 1])
  }

  // The entry's version is what its author promised, given the version just before it.
  ghost predicate Faithful<D(!new)>(h: History<D>, blank: Key -> D, e: Entry<D>) {
    && 1 <= e.rev <= |Versions(h, e.key)|
    && match e.author
       case ByCallback(f) => e.rev >= 2 && h[e.key][e.rev - 1] == f(h[e.key][e.rev - 2])
       case ByCreation(f) => e.rev == 1 && h[e.key][0] == f(blank(e.key))
       case ByUpsert => true
  }

  function CountFor<D>(log: seq<Entry<D>>, k: Key): nat {
    if log == [] then 0 else CountFor(log[..|log| - 1], k) + (if log[|log| - 1].key == k then 1 else 0)
  }

  // What a process read is the version that revision had.
  ghost predicate Remembers<D(!new)>(h: History<D>, ph: Phase<D>) {
    ph.Read? ==> 1 <= ph.rev <= |Versions(h, ph.key)| && Versions(h, ph.key)[ph.rev - 1] == ph.data
  }

  ghost predicate Inv<D(!new)>(s: World<D>, blank: Key -> D) {
    && Shows(s.rows, s.past)
    && (forall p :: p in s.procs ==> Remembers(s.past, s.procs[p]))
    && (forall i :: 0 <= i < |s.log| ==> Faithful(s.past, blank, s.log[i]))
    && RevsRise(s.log) && CountsAgree(s.past, s.log)
  }

  lemma CommitExtends<D(!new)>(h: History<D>, k: Key, v: D, blank: Key -> D)
    ensures forall e: Entry<D> :: Faithful(h, blank, e) ==> Faithful(Commit(h, k, v), blank, e)
    ensures forall ph: Phase<D> :: Remembers(h, ph) ==> Remembers(Commit(h, k, v), ph)
  {
  }

  lemma LogSnoc<D>(log: seq<Entry<D>>, e: Entry<D>, k: Key)
    ensures CountFor(log + [e], k) == CountFor(log, k) + (if e.key == k then 1 else 0)
  {
    assert (log + [e])[..|log|] == log;
  }

  ghost predicate RevsRise<D>(log: seq<Entry<D>>) {
    forall i, j :: 0 <= i < j < |log| && log[i].key == log[j].key ==> log[i].rev < log[j].rev
  }

  ghost predicate CountsAgree<D>(h: History<D>, log: seq<Entry<D>>) {
    forall k :: |Versions(h, k)| == CountFor(log, k)
  }

  lemma PutLog<D>(h: History<D>, log: seq<Entry<D>>, k: Key, v: D, e: Entry<D>)
    requires RevsRise(log) && CountsAgree(h, log)
    requires forall i :: 0 <= i < |log| ==> log[i].rev <= |Versions(h, log[i].key)|
    requires e.key == k && e.rev == |Versions(h, k)| + 1
    ensures RevsRise(log + [e]) && CountsAgree(Commit(h, k, v), log + [e])
  {
    hide Versions, Commit, CountFor;
    forall x ensures |Versions(Commit(h, k, v), x)| == CountFor(log + [e], x) {
      assert |Versions(h, x)| == CountFor(log, x);
      CommitLength(h, k, v, x);
      LogSnoc(log, e, x);
    }
  }

  lemma CommitLength<D>(h: History<D>, k: Key, v: D, x: Key)
    ensures |Versions(Commit(h, k, v), x)| == |Versions(h, x)| + if x == k then 1 else 0
  {
  }

  lemma LogBounded<D(!new)>(s: World<D>, blank: Key -> D)
    requires Inv(s, blank)
    ensures forall i :: 0 <= i < |s.log| ==> s.log[i].rev <= |Versions(s.past, s.log[i].key)|
  {
  }

  lemma PutKeeps<D(!new)>(s: World<D>, blank: Key -> D, k: Key, v: D, a: Author<D>)
    requires Inv(s, blank)
    requires a.ByCallback? ==> k in s.rows && v == a.f(s.rows[k].data)
    requires a.ByCreation? ==> k !in s.rows && v == a.f(blank(k))
    ensures Inv(Put(s, k, v, a), blank)
  {
    hide Faithful, Remembers, Shows, RevsRise, CountsAgree, Commit, Versions;
    LogBounded(s, blank);
    CommitShows(s.rows, s.past, k, v);
    CommitExtends(s.past, k, v, blank);
    PutFaithful(s, blank, k, v, a);
    RevIsLength(s.rows, s.past, k);
    PutLog(s.past, s.log, k, v, Entry(k, |Versions(s.past, k)| + 1, a));
  }

  lemma RevIsLength<D>(rows: map<Key, Row<D>>, h: History<D>, k: Key)
    requires Shows(rows, h)
    ensures |Versions(h, k)| == if k in rows then rows[k].rev else 0
  {
  }

  lemma PutFaithful<D(!new)>(s: World<D>, blank: Key -> D, k: Key, v: D, a: Author<D>)
    requires Shows(s.rows, s.past)
    requires a.ByCallback? ==> k in s.rows && v == a.f(s.rows[k].data)
    requires a.ByCreation? ==> k !in s.rows && v == a.f(blank(k))
    ensures Faithful(Commit(s.past, k, v), blank, Entry(k, |Versions(s.past, k)| + 1, a))
  {
  }

  lemma StepKeeps<D(!new)>(s: World<D>, blank: Key -> D, step: Step<D>)
    requires Inv(s, blank)
    ensures Inv(Next(s, blank, step), blank)
  {
    match step
    case Load(p, key) =>
    case Write(p, f) =>
      if p in s.procs && !s.procs[p].Idle? {
        var t := s.(procs := s.procs[p := Idle]);
        assert Inv(t, blank);
        assert Remembers(s.past, s.procs[p]);
        var ph := s.procs[p];
        if ph.Read? && ph.key in s.rows && s.rows[ph.key].rev == ph.rev {
          PutKeeps(t, blank, ph.key, f(ph.data), ByCallback(f));
        } else if ph.Absent? && ph.key !in s.rows {
          PutKeeps(t, blank, ph.key, f(blank(ph.key)), ByCreation(f));
        }
      }
    case Upsert(key, v) => PutKeeps(s, blank, key, v, ByUpsert);
    case Dies(p) =>
  }

  lemma {:induction false} Reachable<D(!new)>(blank: Key -> D, steps: seq<Step<D>>)
    ensures Inv(Run(blank, steps), blank)
  {
    if steps != [] {
      Reachable(blank, steps[..|steps| - 1]);
      StepKeeps(Run(blank, steps[..|steps| - 1]), blank, steps[|steps| - 1]);
    }
  }

  // Main theorem: on every interleaving each version written by a callback is that callback applied to the
  // version immediately before it, a key is created at most once, the revision counts the key's successful
  // writes, and the row shows the last of them. No update is lost.
  lemma NoLostUpdate<D(!new)>(blank: Key -> D, steps: seq<Step<D>>)
    ensures var s := Run(blank, steps);
            && Shows(s.rows, s.past)
            && (forall i :: 0 <= i < |s.log| ==> Faithful(s.past, blank, s.log[i]))
            && (forall i, j :: 0 <= i < j < |s.log| && s.log[i].author.ByCreation? && s.log[j].author.ByCreation?
                               ==> s.log[i].key != s.log[j].key)
            && (forall k :: k in s.rows ==> s.rows[k].rev == CountFor(s.log, k))
  {
    Reachable(blank, steps);
    var s := Run(blank, steps);
    forall i, j | 0 <= i < j < |s.log| && s.log[i].author.ByCreation? && s.log[j].author.ByCreation?
      ensures s.log[i].key != s.log[j].key
    {
      assert Faithful(s.past, blank, s.log[i]) && Faithful(s.past, blank, s.log[j]);
    }
    forall k | k in s.rows ensures s.rows[k].rev == CountFor(s.log, k) {
      assert |Versions(s.past, k)| == CountFor(s.log, k);
    }
  }

  // The process a step belongs to, if it is one of a read-modify-write.
  predicate By<D>(step: Step<D>, p: nat) { (step.Load? || step.Write? || step.Dies?) && step.p == p }

  function Loaded<D>(s: World<D>, k: Key): Phase<D> {
    if k in s.rows then Read(k, s.rows[k].data, s.rows[k].rev) else Absent(k)
  }

  lemma OthersStep<D>(s: World<D>, blank: Key -> D, step: Step<D>, p: nat, k: Key)
    requires !By(step, p) && p in s.procs
    ensures var t := Next(s, blank, step);
            p in t.procs && t.procs[p] == s.procs[p] && Versions(s.past, k) <= Versions(t.past, k)
  {
  }

  lemma {:induction false} WhileOthersRun<D>(blank: Key -> D, front: seq<Step<D>>, mid: seq<Step<D>>, p: nat, k: Key)
    requires forall i :: 0 <= i < |mid| ==> !By(mid[i], p)
    ensures var s, t := Run(blank, front), Run(blank, front + [Load(p, k)] + mid);
            && p in t.procs && t.procs[p] == Loaded(s, k)
            && Versions(s.past, k) <= Versions(t.past, k)
  {
    hide By, Versions;
    var steps := front + [Load(p, k)] + mid;
    if mid == [] {
      assert steps[..|front|] == front;
    } else {
      hide Next, Loaded;
      assert steps[..|steps| - 1] == front + [Load(p, k)] + mid[..|mid| - 1];
      WhileOthersRun(blank, front, mid[..|mid| - 1], p, k);
      OthersStep(Run(blank, steps[..|steps| - 1]), blank, mid[|mid| - 1], p, k);
    }
  }

  lemma WriteStep<D(!new)>(s: World<D>, t: World<D>, blank: Key -> D, p: nat, k: Key, f: D -> D)
    requires Shows(s.rows, s.past) && Shows(t.rows, t.past)
    requires p in t.procs && t.procs[p] == Loaded(s, k) && Versions(s.past, k) <= Versions(t.past, k)
    ensures var h, u := Versions(s.past, k), Next(t, blank, Write(p, f));
            && (Versions(t.past, k) == h ==>
                  u.past == t.past[k := h + [f(if h == [] then blank(k) else h[|h| - 1])]] && |u.log| == |t.log| + 1)
            && (Versions(t.past, k) != h ==> u.past == t.past && u.log == t.log)
  {
    RevIsLength(s.rows, s.past, k);
    RevIsLength(t.rows, t.past, k);
  }

  // A read-modify-write takes effect exactly when nobody else wrote the key since the read, and then adds one version:
  // the callback applied to what was read, or to a blank document if there was none.
  lemma WriteCountsIff<D(!new)>(blank: Key -> D, front: seq<Step<D>>, mid: seq<Step<D>>, p: nat, k: Key, f: D -> D)
    requires forall i :: 0 <= i < |mid| ==> !By(mid[i], p)
    ensures var h := Versions(Run(blank, front).past, k);
            var t := Run(blank, front + [Load(p, k)] + mid);
            var u := Run(blank, front + [Load(p, k)] + mid + [Write(p, f)]);
            && (Versions(t.past, k) == h ==>
                  u.past == t.past[k := h + [f(if h == [] then blank(k) else h[|h| - 1])]] && |u.log| == |t.log| + 1)
            && (Versions(t.past, k) != h ==> u.past == t.past && u.log == t.log)
  {
    hide By, Versions, Next, Loaded, Shows;
    var before := front + [Load(p, k)] + mid;
    assert (before + [Write(p, f)])[..|before|] == before;
    WhileOthersRun(blank, front, mid, p, k);
    Reachable(blank, front);
    Reachable(blank, before);
    WriteStep(Run(blank, front), Run(blank, before), blank, p, k, f);
  }

  // A plain upsert always adds its version; a process that died writes nothing any more.
  lemma UpsertCounts<D(!new)>(blank: Key -> D, steps: seq<Step<D>>, k: Key, v: D, p: nat, f: D -> D)
    ensures var s := Run(blank, steps);
            && Run(blank, steps + [Upsert(k, v)]).past == s.past[k := Versions(s.past, k) + [v]]
            && Run(blank, steps + [Dies(p)] + [Write(p, f)]).past == s.past
  {
    assert (steps + [Upsert(k, v)])[..|steps|] == steps;
    assert (steps + [Dies(p)])[..|steps|] == steps;
    assert (steps + [Dies(p)] + [Write(p, f)])[..|steps| + 1] == steps + [Dies(p)];
  }

  ghost predicate Raises<D(!new)>(f: D -> D, counter: D -> int) { forall d :: counter(f(d)) == counter(d) + 1 }

  // So if every callback raises a version counter by one, the counter is the blank document's plus the number of
  // successful writes.
  lemma {:induction false} CounterCountsWrites<D(!new)>(blank: Key -> D, steps: seq<Step<D>>, counter: D -> int, k: Key)
    requires forall i :: 0 <= i < |steps| ==> !steps[i].Upsert? && (steps[i].Write? ==> Raises(steps[i].f, counter))
    requires k in Run(blank, steps).rows
    ensures var row := Run(blank, steps).rows[k]; counter(row.data) == counter(blank(k)) + row.rev
  {
    var front, last := steps[..|steps| - 1], steps[|steps| - 1];
    var s := Run(blank, front);
    if k in s.rows { CounterCountsWrites(blank, front, counter, k); }
    Reachable(blank, front);
    if last.Write? && last.p in s.procs {
      assert Remembers(s.past, s.procs[last.p]);
      assert Raises(last.f, counter);
    }
  }

  // ----- the retry loop of UpdateTwin -------------------------------------------------------------------

  datatype Twin<+B> = Twin(deviceId: string, body: B)

  datatype Outcome = Done | Conflict | NotFound

  // Another replica's successful write, or its deletion of a row.
  datatype Foreign<+B> = Wrote(key: Key, doc: Twin<B>) | Erased(key: Key)

  function Interfered<B>(h: History<Twin<B>>, ws: seq<Foreign<B>>): History<Twin<B>> {
    if ws == [] then h
    else
      var g, w := Interfered(h, ws[..|ws| - 1]), ws[|ws| - 1];
      if w.Wrote? then Commit(g, w.key, w.doc) else g - {w.key}
  }

  // Everything the others did in the first n attempts.
  function Others<B>(h: History<Twin<B>>, env: seq<seq<Foreign<B>>>, n: nat): History<Twin<B>>
    requires n <= |env|
  {
    if n == 0 then h else Interfered(Others(h, env, n - 1), env[n - 1])
  }

  ghost predicate Touches<B(!new)>(ws: seq<Foreign<B>>, k: Key) { exists i :: 0 <= i < |ws| && ws[i].key == k }

  ghost predicate Erases<B(!new)>(ws: seq<Foreign<B>>, k: Key) { exists i :: 0 <= i < |ws| && ws[i] == Erased(k) }

  // An empty device id in the callback's result is filled in.
  function Named<B>(v: Twin<B>, key: Key): Twin<B> { if v.deviceId == "" then v.(deviceId := key) else v }

  // One successful write under `key` of `v`, its device id filled in, after what the others did.
  ghost predicate Adds<B(!new)>(h: History<Twin<B>>, h': History<Twin<B>>, key: Key, v: Twin<B>, id: Key) {
    h' == Commit(h, key, if v.deviceId == "" then Twin(id, v.body) else v)
  }

  // The callback made its version from the one read before `ws`, and the row has that revision still.
  ghost predicate Current<B(!new)>(read: History<Twin<B>>, ws: seq<Foreign<B>>, k: Key) {
    var h := Interfered(read, ws);
    && k in read && k in h && |Versions(h, k)| == |Versions(read, k)| >= 1
    && (!Erases(ws, k) ==> !Touches(ws, k) && Newest(h, k) == Newest(read, k))
  }

  class TwinTable<B(!new)> {
    var rows: map<Key, Row<Twin<B>>>
    ghost var past: History<Twin<B>>

    ghost predicate Valid()
      reads this
    {
      Shows(rows, past)
    }

    method Put(key: Key, v: Twin<B>)
      requires Valid()
      modifies this
      ensures Valid() && past == Commit(old(past), key, v)
    {
      CommitShows(rows, past, key, v);
      rows := rows[key := Row(v, if key in rows then rows[key].rev + 1 else 1)];
      past := Commit(past, key, v);
    }

    method Interfere(ws: seq<Foreign<B>>)
      requires Valid()
      modifies this
      ensures Valid() && past == Interfered(old(past), ws)
    {
      for i := 0 to |ws|
        invariant Valid() && past == Interfered(old(past), ws[..i])
      {
        assert ws[..i + 1][..i] == ws[..i];
        if ws[i].Wrote? {
          Put(ws[i].key, ws[i].doc);
        } else {
          rows := rows - {ws[i].key};
          past := past - {ws[i].key};
        }
      }
      assert ws[..|ws|] == ws;
    }

    // UPDATE ... WHERE revision = rev; the number of rows changed.
    method UpdateRevision(key: Key, rev: nat, v: Twin<B>) returns (n: nat)
      requires Valid()
      modifies this
      ensures Valid() && n == (if key in old(past) && |old(past)[key]| == rev then 1 else 0)
      ensures past == if n == 1 then Commit(old(past), key, v) else old(past)
    {
      n := 0;
      if key in rows && rows[key].rev == rev {
        Put(key, v);
        n := 1;
      }
    }

    method InsertIfAbsent(key: Key, v: Twin<B>) returns (n: nat)
      requires Valid()
      modifies this
      ensures Valid() && n == (if key in old(past) then 0 else 1)
      ensures past == if n == 1 then Commit(old(past), key, v) else old(past)
    {
      n := 0;
      if key !in rows {
        Put(key, v);
        n := 1;
      }
    }

    // env[i] is what other replicas do between the read and the write of attempt i. On success this call added one
    // version: its callback applied to the version then current, or to a blank twin for a device that had none. On
    // conflict it added nothing in all eight attempts. A callback that keeps the device id of a blank twin succeeds
    // no later than in the first attempt during which nobody else touches the device.
    method UpdateTwin(deviceId: Key, blank: B, fn: Twin<B> -> Twin<B>, env: seq<seq<Foreign<B>>>)
      returns (res: Outcome, ghost used: nat)
      requires Valid() && |env| == RETRIES
      modifies this
      ensures Valid() && 1 <= used <= RETRIES && (res.Conflict? ==> used == RETRIES) && !res.NotFound?
      ensures res.Conflict? ==> past == Others(old(past), env, RETRIES)
      ensures res.Done? ==>
                var read, h := Others(old(past), env, used - 1), Others(old(past), env, used);
                || (Current(read, env[used - 1], deviceId) && Adds(h, past, deviceId, fn(Newest(read, deviceId)), deviceId))
                || (var v := fn(Twin(deviceId, blank));
                    var key := if v.deviceId == "" then deviceId else v.deviceId;
                    deviceId !in read && key !in h && Adds(h, past, key, v, deviceId))
      ensures fn(Twin(deviceId, blank)).deviceId in {"", deviceId} ==>
                && (res.Conflict? ==> forall i :: 0 <= i < RETRIES ==> Touches(env[i], deviceId))
                && (forall i :: 0 <= i < RETRIES && !Touches(env[i], deviceId) ==> res.Done? && used <= i + 1)
    {
      hide Shows, Interfered, Commit, Others, Touches, Erases;
      ghost var keeps := fn(Twin(deviceId, blank)).deviceId in {"", deviceId};
      used := 0;
      Begin(past, env);
      for attempt := 0 to RETRIES
        invariant Valid() && used == attempt
        invariant past == Others(old(past), env, attempt)
        invariant keeps ==> forall i :: 0 <= i < attempt ==> Touches(env[i], deviceId)
      {
        var found := Find(deviceId);
        ghost var read := past;
        OneMore(old(past), env, attempt);
        if found.None? {
          Interfere(env[attempt]);
          used := attempt + 1;
          var v := Named(fn(Twin(deviceId, blank)), deviceId);
          StillAbsent(read, env[attempt], deviceId);
          var n := InsertIfAbsent(v.deviceId, v);
          if n == 1 { return Done, used; }
        } else {
          Interfere(env[attempt]);
          used := attempt + 1;
          StillCurrent(read, env[attempt], deviceId);
          var v := Named(fn(found.value.data), deviceId);
          var n := UpdateRevision(deviceId, found.value.rev, v);
          if n == 1 { return Done, used; }
        }
      }
      return Conflict, used;
    }

    // SELECT data, revision.
    method Find(key: Key) returns (row: Option<Row<Twin<B>>>)
      requires Valid()
      ensures row == if key in past then Some(Row(Newest(past, key), |past[key]|)) else None
      ensures key in past ==> |past[key]| >= 1
    {
      row := if key in rows then Some(rows[key]) else None;
    }

    // The same for documents that must exist already: not found exactly when a read finds nothing.
    method OccDoc(id: Key, fn: Twin<B> -> Twin<B>, env: seq<seq<Foreign<B>>>) returns (res: Outcome, ghost used: nat)
      requires Valid() && |env| == RETRIES
      modifies this
      ensures Valid() && used <= RETRIES && (res.Conflict? ==> used == RETRIES) && (res.Done? ==> used >= 1)
      ensures !res.Done? ==> past == Others(old(past), env, used)
      ensures res.Done? ==>
                var read := Others(old(past), env, used - 1);
                && Current(read, env[used - 1], id)
                && past == Commit(Others(old(past), env, used), id, fn(Newest(read, id)))
      ensures res.NotFound? ==> used < RETRIES && id !in Others(old(past), env, used)
      ensures forall i: nat :: i < used ==> id in Others(old(past), env, i)
      ensures res.Conflict? ==> forall i :: 0 <= i < RETRIES ==> Touches(env[i], id)
      ensures forall i :: 0 <= i < RETRIES && !Touches(env[i], id) ==>
                used <= i + 1 && (res.Done? || (res.NotFound? && used <= i))
    {
      hide Shows, Interfered, Commit, Others, Touches, Erases;
      used := 0;
      Begin(past, env);
      for attempt := 0 to RETRIES
        invariant Valid() && used == attempt
        invariant past == Others(old(past), env, attempt)
        invariant forall i: nat :: i < attempt ==> id in Others(old(past), env, i)
        invariant forall i :: 0 <= i < attempt ==> Touches(env[i], id)
      {
        var found := Find(id);
        if found.None? { return NotFound, used; }
        ghost var read := past;
        OneMore(old(past), env, attempt);
        Interfere(env[attempt]);
        used := attempt + 1;
        StillCurrent(read, env[attempt], id);
        var n := UpdateRevision(id, found.value.rev, fn(found.value.data));
        if n == 1 { return Done, used; }
      }
      return Conflict, used;
    }
  }

  lemma Begin<B>(h: History<Twin<B>>, env: seq<seq<Foreign<B>>>)
    ensures Others(h, env, 0) == h
  {
  }

  lemma OneMore<B>(h: History<Twin<B>>, env: seq<seq<Foreign<B>>>, n: nat)
    requires n < |env|
    ensures Others(h, env, n + 1) == Interfered(Others(h, env, n), env[n])
  {
  }

  // Without a deletion interference only adds versions, at least one if it touches the key, and none otherwise.
  lemma {:induction false} VersionsStay<B(!new)>(h: History<Twin<B>>, ws: seq<Foreign<B>>, k: Key)
    ensures !Touches(ws, k) ==> (k in Interfered(h, ws) <==> k in h) && Versions(Interfered(h, ws), k) == Versions(h, k)
    ensures !Erases(ws, k) ==> Versions(h, k) <= Versions(Interfered(h, ws), k)
    ensures !Erases(ws, k) && Touches(ws, k) ==> |Versions(h, k)| < |Versions(Interfered(h, ws), k)|
  {
    if ws != [] {
      var front, last := ws[..|ws| - 1], ws[|ws| - 1];
      VersionsStay(h, front, k);
      assert forall i :: 0 <= i < |front| ==> front[i] == ws[i];
      assert Touches(ws, k) <==> Touches(front, k) || last.key == k;
      assert Erases(ws, k) <==> Erases(front, k) || last == Erased(k);
    }
  }

  lemma StillAbsent<B(!new)>(read: History<Twin<B>>, ws: seq<Foreign<B>>, k: Key)
    requires k !in read
    ensures !Touches(ws, k) ==> k !in Interfered(read, ws)
  {
    hide Interfered, Touches;
    VersionsStay(read, ws, k);
  }

  // A revision that is still the one read means that nobody touched the row, or that it was deleted meanwhile.
  lemma StillCurrent<B(!new)>(read: History<Twin<B>>, ws: seq<Foreign<B>>, k: Key)
    requires k in read && |read[k]| >= 1
    ensures var h := Interfered(read, ws);
            && (k in h && |h[k]| == |read[k]| ==> Current(read, ws, k))
            && (!Touches(ws, k) ==> k in h && |h[k]| == |read[k]|)
  {
    hide Interfered, Touches, Erases;
    VersionsStay(read, ws, k);
  }

  function Rewrites<B>(k: Key, docs: seq<Twin<B>>): seq<Foreign<B>> { seq(|docs|, i requires 0 <= i < |docs| => Wrote(k, docs[i])) }

  // Deleting a row and writing it again as often as it had versions brings its revision back with any content: the
  // conditional update of a process that read the old row then succeeds over the new one.
  lemma {:induction false} RecreatedLooksUnchanged<B(!new)>(h: History<Twin<B>>, k: Key, docs: seq<Twin<B>>)
    ensures var h' := Interfered(h, [Erased(k)] + Rewrites(k, docs)); Versions(h', k) == docs
  {
    var ws := [Erased(k)] + Rewrites(k, docs);
    if docs == [] {
      assert ws[..0] == [];
    } else {
      var n := |docs| - 1;
      RecreatedLooksUnchanged(h, k, docs[..n]);
      assert ws[..|ws| - 1] == [Erased(k)] + Rewrites(k, docs[..n]);
      assert docs == docs[..n] + [docs[n]];
    }
  }
}
