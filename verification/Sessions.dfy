// Persistent MQTT sessions (internal/mqtt/session.go and the session parts of internal/mqtt/broker.go) for one
// ClientID: messages that match while no connection is live go to a WAL queue and are replayed on the next connect.
// Connecting (with its replay), publishing, subscribing and disconnecting are atomic, one connection at a time.
module Sessions {
  import opened Wrappers
  import Q = WalQueue
  import R = Router

  datatype Sub = Sub(filter: string, qos: nat)

  datatype Msg = Msg(topic: string, payload: string, qos: nat)

  datatype Queued = Queued(id: string, msg: Msg)

  // ----- message keys: "m" and the decimal digits of a counter ----------------------------------------------

  function Digit(d: nat): char
    requires d < 10
  {
    '0' + d as char
  }

  // Decimal digits, nothing for zero.
  function Digits(n: nat): string {
    if n == 0 then "" else Digits(n / 10) + [Digit(n % 10)]
  }

  function Itoa(n: nat): string { if n == 0 then "0" else Digits(n) }

  function Value(s: string): int {
    if s == "" then 0 else 10 * Value(s[..|s| - 1]) + (s[|s| - 1] as int - '0' as int)
  }

  lemma {:induction false} DigitsRoundTrip(n: nat)
    ensures Value(Digits(n)) == n
  {
    if n != 0 {
      DigitsRoundTrip(n / 10);
      assert Digits(n)[..|Digits(n)| - 1] == Digits(n / 10);
    }
  }

  lemma ItoaRoundTrip(n: nat)
    ensures Value(Itoa(n)) == n
  {
    DigitsRoundTrip(n);
    assert "0"[..0] == "";
  }

  function Key(n: nat): string { "m" + Itoa(n) }

  lemma KeyInjective(a: nat, b: nat)
    requires Key(a) == Key(b)
    ensures a == b
  {
    assert Itoa(a) == Key(a)[1..] == Key(b)[1..] == Itoa(b);
    ItoaRoundTrip(a);
    ItoaRoundTrip(b);
  }

  function Pow10(k: nat): nat { if k == 0 then 1 else 10 * Pow10(k - 1) }

  // Twenty bytes hold every uint64; digits are written from the back.
  method ItoaBuffer(n: nat) returns (s: string)
    requires n < 0x1_0000_0000_0000_0000
    ensures s == Itoa(n)
  {
    if n == 0 { return "0"; }
    var b := new char[20];
    var i: nat, m: nat := 20, n;
    assert Pow10(20) == 100_000_000_000_000_000_000 by { PowSteps(); }
    assert b[20..] == "";
    while m > 0
      invariant 0 <= i <= 20 && m < Pow10(i)
      invariant Digits(n) == Digits(m) + b[i..]
      decreases m
    {
      i := i - 1;
      b[i] := Digit(m % 10);
      assert b[i..] == [Digit(m % 10)] + b[i + 1..];
      m := m / 10;
    }
    return b[i..];
  }

  lemma PowSteps()
    ensures Pow10(20) == 100_000_000_000_000_000_000
  {
    assert Pow10(4) == 10_000;
    assert Pow10(8) == 100_000_000;
    assert Pow10(12) == 1_000_000_000_000;
    assert Pow10(16) == 10_000_000_000_000_000;
  }

  // ----- matching -------------------------------------------------------------------------------------------

  predicate Fits(sub: Sub, topic: string) { R.Matches(R.LevelsOf(sub.filter), R.LevelsOf(topic)) }

  // The QoS of the first subscription that matches.
  function FirstMatch(subs: seq<Sub>, topic: string): (q: Option<nat>)
    ensures q.Some? <==> exists i :: 0 <= i < |subs| && Fits(subs[i], topic)
  {
    if subs == [] then None
    else if Fits(subs[0], topic) then Some(subs[0].qos)
    else
      assert forall i :: 1 <= i < |subs| ==> subs[i] == subs[1..][i - 1];
      FirstMatch(subs[1..], topic)
  }

  function MinQoS(a: nat, b: nat): nat { if a < b then a else b }

  // The message as this subscriber is to get it, live or replayed.
  function Effective(subs: seq<Sub>, msg: Msg): Option<Msg> {
    match FirstMatch(subs, msg.topic)
    case None => None
    case Some(qos) => Some(msg.(qos := MinQoS(msg.qos, qos)))
  }

  // The first subscription whose filter matches decides: same topic, same payload, the smaller of the two QoS.
  lemma {:induction false} EffectiveExact(subs: seq<Sub>, msg: Msg, i: nat)
    requires i < |subs| && R.MatchesPointwise(R.LevelsOf(subs[i].filter), R.LevelsOf(msg.topic))
    requires forall j :: 0 <= j < i ==> !R.MatchesPointwise(R.LevelsOf(subs[j].filter), R.LevelsOf(msg.topic))
    ensures Effective(subs, msg) == Some(Msg(msg.topic, msg.payload, if msg.qos < subs[i].qos then msg.qos else subs[i].qos))
  {
    hide R.MatchesPointwise, R.Matches, R.LevelsOf;
    R.MatchesIffPointwise(R.LevelsOf(subs[0].filter), R.LevelsOf(msg.topic));
    if i > 0 {
      assert !R.MatchesPointwise(R.LevelsOf(subs[0].filter), R.LevelsOf(msg.topic));
      EffectiveExact(subs[1..], msg, i - 1);
    }
  }

  // And without one nothing is delivered.
  lemma EffectiveNone(subs: seq<Sub>, msg: Msg)
    requires forall j :: 0 <= j < |subs| ==> !R.MatchesPointwise(R.LevelsOf(subs[j].filter), R.LevelsOf(msg.topic))
    ensures Effective(subs, msg).None?
  {
    hide R.MatchesPointwise, R.Matches, R.LevelsOf;
    forall j | 0 <= j < |subs| ensures !Fits(subs[j], msg.topic) {
      R.MatchesIffPointwise(R.LevelsOf(subs[j].filter), R.LevelsOf(msg.topic));
    }
  }

  // ----- the session as a value -----------------------------------------------------------------------------

  datatype Session = Session(subs: seq<Sub>, live: bool, q: Q.QState<Queued>, seqNo: nat)

  function Msgs(l: seq<Q.Item<Queued>>): seq<Msg> { seq(|l|, i requires 0 <= i < |l| => l[i].data.msg) }

  ghost function Enqueue(s: Session, opts: Q.Options, msg: Msg, size: nat): (Session, bool)
    requires Q.NoDup(s.q.list)
  {
    var id := Key(s.seqNo + 1);
    var (q, r) := Q.Put(s.q, opts, id, Queued(id, msg), size);
    (s.(q := q, seqNo := s.seqNo + 1), r.Stored?)
  }

  // Replaying n messages: each is deleted after it was written.
  function Drop(q: Q.QState<Queued>, n: nat): Q.QState<Queued> {
    if n == 0 then q
    else
      var d := Drop(q, n - 1);
      if d.list == [] then d else Q.Delete(d, d.list[0].id)
  }

  lemma {:induction false} DropIsPrefix(q: Q.QState<Queued>, n: nat)
    requires Q.Inv(q) && n <= |q.list|
    ensures Q.Inv(Drop(q, n)) && Drop(q, n).list == q.list[n..] && (n == 0 ==> Drop(q, n) == q)
  {
    hide Q.Inv, Q.Delete;
    if n > 0 {
      DropIsPrefix(q, n - 1);
      DeleteFirst(Drop(q, n - 1));
    }
  }

  lemma DropStep(q: Q.QState<Queued>, n: nat)
    requires Drop(q, n).list != []
    ensures Drop(q, n + 1) == Q.Delete(Drop(q, n), Drop(q, n).list[0].id)
  {
  }

  lemma DeleteFirst(q: Q.QState<Queued>)
    requires Q.Inv(q) && q.list != []
    ensures Q.Inv(Q.Delete(q, q.list[0].id)) && Q.Delete(q, q.list[0].id).list == q.list[1..]
  {
    hide Q.Sorted, Q.Replay, Q.ReplaySeq, Q.Trails, Q.Find, Q.Without;
    Q.DeleteKeeps(q, q.list[0].id);
    Q.FindAt(q.list, 0);
    Q.WithoutFirst(q.list);
  }

  ghost predicate HasKey(id: string, top: nat) { exists k: nat :: k <= top && id == Key(k) }

  // Every queued message has a key the counter has already passed.
  ghost predicate Keyed(l: seq<Q.Item<Queued>>, top: nat) { forall i :: 0 <= i < |l| ==> HasKey(l[i].id, top) }

  lemma HasKeyUp(id: string, top: nat)
    requires HasKey(id, top)
    ensures HasKey(id, top + 1)
  {
    hide Key;
  }

  lemma {:induction false} KeyIsFree(l: seq<Q.Item<Queued>>, top: nat)
    requires Keyed(l, top)
    ensures Q.Find(l, Key(top + 1)).None?
  {
    hide Key;
    if l != [] {
      var front, last := l[..|l| - 1], l[|l| - 1];
      assert forall i :: 0 <= i < |front| ==> front[i] == l[i];
      KeyIsFree(front, top);
      assert HasKey(last.id, top);
      var k: nat :| k <= top && last.id == Key(k);
      if last.id == Key(top + 1) { KeyInjective(k, top + 1); }
    }
  }

  lemma KeyedUp(l: seq<Q.Item<Queued>>, top: nat)
    requires Keyed(l, top)
    ensures Keyed(l, top + 1)
  {
    forall i | 0 <= i < |l| ensures HasKey(l[i].id, top + 1) { HasKeyUp(l[i].id, top); }
  }

  lemma KeyedSnoc(l: seq<Q.Item<Queued>>, top: nat, it: Q.Item<Queued>)
    requires Keyed(l, top) && it.id == Key(top + 1)
    ensures Keyed(l + [it], top + 1)
  {
    hide Key;
    KeyedUp(l, top);
  }

  // Every message is stored under its own id.
  ghost predicate Labelled(l: seq<Q.Item<Queued>>) { forall i :: 0 <= i < |l| ==> l[i].data.id == l[i].id }

  lemma MsgsSnoc(l: seq<Q.Item<Queued>>, it: Q.Item<Queued>)
    ensures Msgs(l + [it]) == Msgs(l) + [it.data.msg]
  {
  }

  lemma MsgsTake(l: seq<Q.Item<Queued>>, n: nat)
    requires n <= |l|
    ensures Msgs(l[..n]) == if n == 0 then [] else Msgs(l[..n - 1]) + [l[n - 1].data.msg]
  {
  }

  // An enqueue goes to the back and overwrites nothing, or is refused and changes nothing but the counter.
  lemma EnqueueAppends(s: Session, opts: Q.Options, msg: Msg, size: nat)
    requires Q.Inv(s.q) && Keyed(s.q.list, s.seqNo) && !opts.policy.DropOldest?
    ensures var (s', ok) := Enqueue(s, opts, msg, size);
            && Q.Inv(s'.q) && Keyed(s'.q.list, s'.seqNo) && s'.subs == s.subs && s'.live == s.live
            && Msgs(s'.q.list) == (if ok then Msgs(s.q.list) + [msg] else Msgs(s.q.list))
            && (!ok ==> s'.q == s.q) && (Labelled(s.q.list) ==> Labelled(s'.q.list))
  {
    hide Q.Inv, Q.Put, Q.Find, Q.NoDup, Key, Keyed, Msgs;
    Q.InvFacts(s.q);
    var id := Key(s.seqNo + 1);
    var it := Q.Item(id, s.q.seqNo + 1, Queued(id, msg), size);
    KeyIsFree(s.q.list, s.seqNo);
    Q.PutFresh(s.q, opts, id, Queued(id, msg), size);
    KeyedUp(s.q.list, s.seqNo);
    KeyedSnoc(s.q.list, s.seqNo, it);
    MsgsSnoc(s.q.list, it);
  }

  // ----- the broker, for one ClientID -----------------------------------------------------------------------

  // `inherited` is the backlog the process found on disk. `offered` are the messages that matched since then,
  // `handed` those written to a live connection, `enqueued` and `refused` the others, `replayed` the backlog sent.
  datatype World = World(session: Option<Session>, disk: seq<Q.Record<Queued>>, inherited: seq<Msg>, offered: seq<Msg>,
                         handed: seq<Msg>, enqueued: seq<Msg>, refused: seq<Msg>, replayed: seq<Msg>)

  datatype Step =
    | ConnectPersistent(connack: bool, writes: nat)
    | ConnectClean
    | Subscribe(subs: seq<Sub>)
    | Publish(msg: Msg, size: nat)
    | Disconnect
    | Restart

  function IsLive(w: World): bool { w.session.Some? && w.session.value.live }

  function Log(w: World): seq<Q.Record<Queued>> { if w.session.Some? then w.session.value.q.log else w.disk }

  function Backlog(w: World): seq<Msg> {
    if w.session.Some? then Msgs(w.session.value.q.list) else Msgs(Q.Replay(w.disk))
  }

  function Fresh(disk: seq<Q.Record<Queued>>): World {
    World(None, disk, Msgs(Q.Replay(disk)), [], [], [], [], [])
  }

  // resumeSession: the session in memory, or a new one over the queue on disk.
  function Resume(w: World): Session {
    if w.session.Some? then w.session.value else Session([], false, Q.Opened(w.disk), 0)
  }

  // Attach, acknowledge, replay until a write fails; a failure ends the connection and detaches.
  function Connect(w: World, connack: bool, writes: nat): World {
    var s := Resume(w);
    var n := if !connack then 0 else if writes < |s.q.list| then writes else |s.q.list|;
    w.(session := Some(s.(q := Drop(s.q, n), live := connack && n == |s.q.list|)), replayed := w.replayed + Msgs(s.q.list[..n]))
  }

  // The live connection gets the message itself; otherwise it is queued.
  ghost function DoPublish(opts: Q.Options, w: World, msg: Msg, size: nat): World
    requires w.session.Some? && Q.NoDup(w.session.value.q.list)
  {
    var s := w.session.value;
    match Effective(s.subs, msg)
    case None => w
    case Some(m) =>
      if s.live then w.(offered := w.offered + [m], handed := w.handed + [m]) else
      var (s', ok) := Enqueue(s, opts, m, size);
      var w' := w.(session := Some(s'), offered := w.offered + [m]);
      if ok then w'.(enqueued := w.enqueued + [m]) else w'.(refused := w.refused + [m])
  }

  ghost function Next(opts: Q.Options, w: World, step: Step): World
    requires w.session.Some? ==> Q.NoDup(w.session.value.q.list)
  {
    match step
    case ConnectPersistent(connack, writes) => if IsLive(w) then w else Connect(w, connack, writes)
    case ConnectClean => if IsLive(w) then w else Fresh([])
    case Subscribe(subs) =>
      if IsLive(w) then w.(session := Some(w.session.value.(subs := w.session.value.subs + subs))) else w
    case Publish(msg, size) => if w.session.Some? then DoPublish(opts, w, msg, size) else w
    case Disconnect => if w.session.Some? then w.(session := Some(w.session.value.(live := false))) else w
    case Restart => Fresh(Log(w))
  }

  // ----- invariant ------------------------------------------------------------------------------------------

  ghost predicate SessionOk(s: Session) {
    && Q.Inv(s.q)
    && (s.live ==> s.q.list == [])
    && (s.subs != [] ==> Keyed(s.q.list, s.seqNo))
  }

  ghost predicate Accounted(w: World) {
    && w.inherited + w.enqueued == w.replayed + Backlog(w)
    && multiset(w.offered) == multiset(w.handed) + multiset(w.enqueued) + multiset(w.refused)
  }

  ghost predicate Inv(w: World) {
    && (w.session.Some? ==> SessionOk(w.session.value))
    && (w.session.None? ==> Q.Inv(Q.Opened(w.disk)))
    && Accounted(w)
  }

  lemma FreshOk(disk: seq<Q.Record<Queued>>)
    requires Q.Inv(Q.Opened(disk))
    ensures Inv(Fresh(disk))
  {
    hide Q.Inv, Q.Replay;
  }

  lemma ResumeOk(w: World)
    requires Inv(w) && !IsLive(w)
    ensures var s := Resume(w); SessionOk(s) && !s.live && Msgs(s.q.list) == Backlog(w)
  {
    hide Q.Inv, Q.Replay, Keyed;
  }

  lemma KeyedSuffix(l: seq<Q.Item<Queued>>, n: nat, top: nat)
    requires n <= |l| && Keyed(l, top)
    ensures Keyed(l[n..], top)
  {
    hide HasKey;
  }

  lemma MsgsSplit(l: seq<Q.Item<Queued>>, n: nat)
    requires n <= |l|
    ensures Msgs(l) == Msgs(l[..n]) + Msgs(l[n..])
  {
  }

  lemma ConnectKeeps(w: World, connack: bool, writes: nat)
    requires Inv(w) && !IsLive(w)
    ensures Inv(Connect(w, connack, writes))
  {
    hide Q.Inv, Q.Replay, Keyed, Drop, Q.Opened, Msgs, Resume;
    ResumeOk(w);
    var s := Resume(w);
    var n := if !connack then 0 else if writes < |s.q.list| then writes else |s.q.list|;
    DropIsPrefix(s.q, n);
    MsgsSplit(s.q.list, n);
    if s.subs != [] { KeyedSuffix(s.q.list, n, s.seqNo); }
  }

  lemma HandedAccounted(w: World, m: Msg)
    requires Accounted(w)
    ensures Accounted(w.(offered := w.offered + [m], handed := w.handed + [m]))
  {
    hide Msgs;
  }

  lemma QueuedAccounted(w: World, s': Session, m: Msg, ok: bool)
    requires Accounted(w) && w.session.Some?
    requires Msgs(s'.q.list) == if ok then Backlog(w) + [m] else Backlog(w)
    ensures var w' := w.(session := Some(s'), offered := w.offered + [m]);
            Accounted(if ok then w'.(enqueued := w.enqueued + [m]) else w'.(refused := w.refused + [m]))
  {
    hide Msgs;
    if ok { AppendBoth(w.inherited, w.enqueued, w.replayed, Backlog(w), m); }
  }

  lemma PublishKeeps(opts: Q.Options, w: World, msg: Msg, size: nat)
    requires Inv(w) && w.session.Some? && !opts.policy.DropOldest?
    ensures Q.NoDup(w.session.value.q.list) && Inv(DoPublish(opts, w, msg, size))
  {
    hide Q.Inv, Q.NoDup, Q.Trails, Q.Replay, Keyed, Enqueue, FirstMatch, Msgs, Accounted;
    var s := w.session.value;
    Q.InvFacts(s.q);
    var e := Effective(s.subs, msg);
    if e.Some? && s.live {
      HandedAccounted(w, e.value);
    } else if e.Some? {
      NoMatchNoSubs(s.subs, msg);
      EnqueueAppends(s, opts, e.value, size);
      var (s', ok) := Enqueue(s, opts, e.value, size);
      QueuedAccounted(w, s', e.value, ok);
    }
  }

  lemma AppendBoth(a: seq<Msg>, b: seq<Msg>, c: seq<Msg>, d: seq<Msg>, m: Msg)
    requires a + b == c + d
    ensures a + (b + [m]) == c + (d + [m])
  {
    assert a + (b + [m]) == (a + b) + [m];
    assert c + (d + [m]) == (c + d) + [m];
  }

  lemma NoMatchNoSubs(subs: seq<Sub>, msg: Msg)
    ensures Effective(subs, msg).Some? ==> subs != []
  {
    hide Fits;
  }

  lemma NextKeeps(opts: Q.Options, w: World, step: Step)
    requires Inv(w) && !opts.policy.DropOldest?
    ensures (w.session.Some? ==> Q.NoDup(w.session.value.q.list)) && Inv(Next(opts, w, step))
  {
    hide Q.Inv, Q.NoDup, Q.Replay, Q.Trails, Connect, DoPublish, Fresh, Q.Opened;
    if w.session.Some? { Q.InvFacts(w.session.value.q); }
    match step
    case ConnectPersistent(connack, writes) => if !IsLive(w) { ConnectKeeps(w, connack, writes); }
    case ConnectClean =>
      EmptyLog();
      FreshOk([]);
    case Subscribe(subs) =>
    case Publish(msg, size) => if w.session.Some? { PublishKeeps(opts, w, msg, size); }
    case Disconnect =>
    case Restart =>
      if w.session.Some? { Q.ReopenKeeps(w.session.value.q); }
      FreshOk(Log(w));
  }

  lemma EmptyLog()
    ensures Q.Inv(Q.Opened<Queued>([]))
  {
  }

  ghost function Run(opts: Q.Options, steps: seq<Step>): (w: World)
    requires !opts.policy.DropOldest?
    ensures Inv(w)
  {
    if steps == [] then
      EmptyLog();
      FreshOk([]);
      Fresh([])
    else
      var w := Run(opts, steps[..|steps| - 1]);
      NextKeeps(opts, w, steps[|steps| - 1]);
      Next(opts, w, steps[|steps| - 1])
  }

  // Main theorem: over every run, the messages that matched since the process started are exactly those handed to the
  // live connection, enqueued, or refused by a full queue; and the backlog found on disk followed by what was
  // enqueued is exactly what was replayed followed by what is still queued, in this order: nothing overtakes, nothing
  // is overwritten, although the counter restarts at zero with the process.
  lemma Conservation(opts: Q.Options, steps: seq<Step>)
    requires !opts.policy.DropOldest?
    ensures var w := Run(opts, steps);
            && multiset(w.offered) == multiset(w.handed) + multiset(w.enqueued) + multiset(w.refused)
            && w.inherited + w.enqueued == w.replayed + Backlog(w)
            && (IsLive(w) ==> Backlog(w) == [])
  {
    assert Inv(Run(opts, steps));
  }

  // Exactly one of the three for each matching publish, with the QoS of the first matching subscription either way.
  lemma ExactlyOne(opts: Q.Options, steps: seq<Step>, msg: Msg, size: nat)
    requires !opts.policy.DropOldest?
    ensures var w := Run(opts, steps); var w' := Run(opts, steps + [Publish(msg, size)]);
            && w'.replayed == w.replayed && w'.inherited == w.inherited
            && (w.session.Some? && Effective(w.session.value.subs, msg).Some? ==>
                  var m := Effective(w.session.value.subs, msg).value;
                  || (IsLive(w) && w'.handed == w.handed + [m] && w'.enqueued == w.enqueued && w'.refused == w.refused)
                  || (!IsLive(w) && w'.handed == w.handed && w'.enqueued == w.enqueued + [m] && w'.refused == w.refused)
                  || (!IsLive(w) && w'.handed == w.handed && w'.enqueued == w.enqueued && w'.refused == w.refused + [m]))
  {
    hide Inv, Effective, Enqueue, Q.NoDup, Msgs;
    RunSnoc(opts, steps, Publish(msg, size));
    hide Run;
  }

  lemma RunSnoc(opts: Q.Options, steps: seq<Step>, step: Step)
    requires !opts.policy.DropOldest?
    ensures var w := Run(opts, steps);
            && (w.session.Some? ==> Q.NoDup(w.session.value.q.list))
            && Run(opts, steps + [step]) == Next(opts, w, step)
  {
    hide Inv, Next;
    assert (steps + [step])[..|steps|] == steps;
    NextKeeps(opts, Run(opts, steps), step);
  }

  // A publish that no subscription matches, or that comes before any session, changes nothing.
  lemma Unmatched(opts: Q.Options, steps: seq<Step>, msg: Msg, size: nat)
    requires !opts.policy.DropOldest?
    requires var w := Run(opts, steps); w.session.Some? ==> Effective(w.session.value.subs, msg).None?
    ensures Run(opts, steps + [Publish(msg, size)]) == Run(opts, steps)
  {
    hide Inv, Effective, Q.NoDup;
    RunSnoc(opts, steps, Publish(msg, size));
    hide Run;
  }

  // Connecting replays as much of the backlog as can be written, oldest first, and takes just that off the queue. The
  // session is live exactly if all of it was written, with the subscriptions it had.
  lemma ConnectReplays(opts: Q.Options, steps: seq<Step>, connack: bool, writes: nat)
    requires !opts.policy.DropOldest? && !IsLive(Run(opts, steps))
    ensures var w := Run(opts, steps); var w' := Run(opts, steps + [ConnectPersistent(connack, writes)]);
            var n := if !connack then 0 else if writes < |Backlog(w)| then writes else |Backlog(w)|;
            && w'.replayed == w.replayed + Backlog(w)[..n] && Backlog(w') == Backlog(w)[n..]
            && (IsLive(w') <==> connack && n == |Backlog(w)|)
            && w'.session.Some? && w'.session.value.subs == (if w.session.Some? then w.session.value.subs else [])
            && w'.offered == w.offered && w'.inherited == w.inherited
  {
    hide Inv, Run, Connect, Q.NoDup, Backlog;
    RunSnoc(opts, steps, ConnectPersistent(connack, writes));
    ConnectDoes(Run(opts, steps), connack, writes);
  }

  lemma MsgsSlices(l: seq<Q.Item<Queued>>, n: nat)
    requires n <= |l|
    ensures Msgs(l[..n]) == Msgs(l)[..n] && Msgs(l[n..]) == Msgs(l)[n..] && |Msgs(l)| == |l|
  {
  }

  lemma ConnectDoes(w: World, connack: bool, writes: nat)
    requires Inv(w) && !IsLive(w)
    ensures var w' := Connect(w, connack, writes);
            var n := if !connack then 0 else if writes < |Backlog(w)| then writes else |Backlog(w)|;
            && w'.replayed == w.replayed + Backlog(w)[..n] && Backlog(w') == Backlog(w)[n..]
            && (IsLive(w') <==> connack && n == |Backlog(w)|)
            && w'.session.Some? && w'.session.value.subs == (if w.session.Some? then w.session.value.subs else [])
            && w'.offered == w.offered && w'.inherited == w.inherited
  {
    hide Q.Inv, Q.Replay, Keyed, Drop, Q.Opened, Msgs, Accounted;
    ResumeOk(w);
    var s := Resume(w);
    MsgsSlices(s.q.list, 0);
    var n := if !connack then 0 else if writes < |s.q.list| then writes else |s.q.list|;
    DropIsPrefix(s.q, n);
    MsgsSlices(s.q.list, n);
  }

  // A clean connect discards session and backlog; a disconnect ends the connection and nothing else.
  lemma CleanAndGone(opts: Q.Options, steps: seq<Step>)
    requires !opts.policy.DropOldest?
    ensures var w, c, d := Run(opts, steps), Run(opts, steps + [ConnectClean]), Run(opts, steps + [Disconnect]);
            && (!IsLive(w) ==> c.session.None? && Backlog(c) == [] && Log(c) == [])
            && !IsLive(d) && Backlog(d) == Backlog(w) && d.handed == w.handed && d.offered == w.offered
            && (w.session.Some? ==> d.session.Some? && d.session.value.subs == w.session.value.subs)
  {
    hide Inv, Run, Q.NoDup;
    RunSnoc(opts, steps, ConnectClean);
    RunSnoc(opts, steps, Disconnect);
    assert Q.Replay<Queued>([]) == [];
  }

  // A live client gets every message that a subscription it just made matches, with that topic and payload.
  lemma SubscribedIsHanded(opts: Q.Options, steps: seq<Step>, subs: seq<Sub>, i: nat, msg: Msg, size: nat)
    requires !opts.policy.DropOldest? && IsLive(Run(opts, steps))
    requires i < |subs| && R.MatchesPointwise(R.LevelsOf(subs[i].filter), R.LevelsOf(msg.topic))
    ensures var w, w' := Run(opts, steps), Run(opts, steps + [Subscribe(subs)] + [Publish(msg, size)]);
            && w'.session.Some? && w'.session.value.subs == w.session.value.subs + subs
            && |w'.handed| == |w.handed| + 1 && w'.handed[..|w.handed|] == w.handed
            && w'.handed[|w.handed|].topic == msg.topic && w'.handed[|w.handed|].payload == msg.payload
            && w'.handed[|w.handed|].qos <= msg.qos
  {
    hide Inv, Q.NoDup, R.MatchesPointwise, R.LevelsOf, R.Matches, FirstMatch;
    var w := Run(opts, steps);
    RunSnoc(opts, steps, Subscribe(subs));
    RunSnoc(opts, steps + [Subscribe(subs)], Publish(msg, size));
    hide Run;
    R.MatchesIffPointwise(R.LevelsOf(subs[i].filter), R.LevelsOf(msg.topic));
    var all := w.session.value.subs + subs;
    assert all[|w.session.value.subs| + i] == subs[i];
    assert FirstMatch(all, msg.topic).Some?;
  }

  // What a restart may change: the reopened backlog is the queued one, up to the one message whose append triggered
  // the latest compaction.
  lemma RestartBacklog(opts: Q.Options, steps: seq<Step>)
    requires !opts.policy.DropOldest?
    ensures var w := Run(opts, steps); var w' := Run(opts, steps + [Restart]);
            && w'.inherited == Msgs(Q.Replay(Log(w)))
            && (w.session.Some? ==> Q.Trails(Q.Replay(Log(w)), w.session.value.q.list, w.session.value.q.lag))
            && (w.session.Some? && w.session.value.q.lag.InSync? ==> w'.inherited == Backlog(w))
  {
    hide Q.Inv, Q.Replay, Q.Trails, Q.NoDup, Msgs, Accounted;
    RunSnoc(opts, steps, Restart);
    var w := Run(opts, steps);
    hide Run;
    if w.session.Some? {
      Q.InvFacts(w.session.value.q);
      if w.session.value.q.lag.InSync? { TrailsInSync(w.session.value.q); }
    }
  }

  lemma TrailsInSync(q: Q.QState<Queued>)
    requires Q.Trails(Q.Replay(q.log), q.list, q.lag) && q.lag.InSync?
    ensures Q.Replay(q.log) == q.list
  {
  }

  // ----- who is connected -----------------------------------------------------------------------------------

  // A newer connection replaces an older one, which unwinds and detaches whenever it gets to it.
  datatype Link = Attached(cl: nat) | Detached(cl: nat)

  function LiveAfter(links: seq<Link>): Option<nat> {
    if links == [] then None
    else
      var live := LiveAfter(links[..|links| - 1]);
      match links[|links| - 1]
      case Attached(cl) => Some(cl)
      case Detached(cl) => if live == Some(cl) then None else live
  }

  ghost predicate AttachedLast(links: seq<Link>, cl: nat, k: nat) {
    k < |links| && links[k] == Attached(cl) && forall i :: k < i < |links| ==> !links[i].Attached? && links[i] != Detached(cl)
  }

  // The latest connection to attach, unless that one has detached since.
  ghost predicate Holder(links: seq<Link>, cl: nat) { exists k: nat :: AttachedLast(links, cl, k) }

  lemma HolderSnoc(links: seq<Link>, link: Link, cl: nat)
    ensures Holder(links + [link], cl) <==> link == Attached(cl) || (Holder(links, cl) && link.Detached? && link.cl != cl)
  {
    var all := links + [link];
    if link == Attached(cl) {
      assert AttachedLast(all, cl, |links|);
    } else if Holder(all, cl) {
      var k: nat :| AttachedLast(all, cl, k);
      assert all[|links|] == link;
      assert AttachedLast(links, cl, k) by {
        forall i | k < i < |links| ensures !links[i].Attached? && links[i] != Detached(cl) { assert all[i] == links[i]; }
      }
    } else if Holder(links, cl) {
      var k: nat :| AttachedLast(links, cl, k);
      if link.Detached? && link.cl != cl { assert AttachedLast(all, cl, k); }
    }
  }

  // A session is live exactly on the connection that attached last, as long as that one has not detached.
  lemma {:induction false} LiveIff(links: seq<Link>, cl: nat)
    ensures LiveAfter(links) == Some(cl) <==> Holder(links, cl)
  {
    if links != [] {
      var front, link := links[..|links| - 1], links[|links| - 1];
      LiveIff(front, cl);
      assert front + [link] == links;
      HolderSnoc(front, link, cl);
    }
  }

  // However many older connections unwind after it, and in whatever order, the newest one stays live.
  lemma LateDetach(links: seq<Link>, cl: nat, late: seq<Link>)
    requires forall i :: 0 <= i < |late| ==> late[i].Detached? && late[i].cl != cl
    ensures LiveAfter(links + [Attached(cl)] + late) == Some(cl)
  {
    hide LiveAfter;
    var all := links + [Attached(cl)] + late;
    LiveIff(all, cl);
    assert AttachedLast(all, cl, |links|) by {
      forall i | |links| < i < |all| ensures !all[i].Attached? && all[i] != Detached(cl) {
        assert all[i] == late[i - |links| - 1];
      }
    }
  }

  lemma LiveSnoc(links: seq<Link>, link: Link)
    ensures LiveAfter(links + [link]) ==
            match link
            case Attached(cl) => Some(cl)
            case Detached(cl) => if LiveAfter(links) == Some(cl) then None else LiveAfter(links)
  {
    assert (links + [link])[..|links|] == links;
  }

  // ----- the session object ---------------------------------------------------------------------------------

  class PersistentSession {
    var subs: seq<Sub>
    var live: Option<nat>
    var seqNo: nat
    const q: Q.Queue<Queued>
    ghost var links: seq<Link>

    ghost function Value(): Session
      reads this, q
    {
      Session(subs, live.Some?, q.State(), seqNo)
    }

    ghost predicate Valid()
      reads this, q
    {
      q.Valid() && !q.opts.policy.DropOldest? && Labelled(q.list) && live == LiveAfter(links)
    }

    constructor (opts: Q.Options, size: Queued -> nat, disk: seq<Q.Record<Queued>>)
      requires !opts.policy.DropOldest? && Q.Inv(Q.Opened(disk)) && Labelled(Q.Replay(disk))
      ensures Valid() && fresh(q) && links == [] && Value() == Session([], false, Q.Opened(disk), 0)
    {
      subs, live, seqNo, links := [], None, 0, [];
      q := new Q.Queue(opts, size, disk);
    }

    method Attach(cl: nat)
      requires Valid()
      modifies this`live, this`links
      ensures Valid() && links == old(links) + [Attached(cl)] && Value() == old(Value()).(live := true)
      ensures forall x: nat :: live == Some(x) <==> Holder(links, x)
    {
      hide Q.Inv, Q.MapOf, Holder, Labelled, LiveAfter;
      LiveSnoc(links, Attached(cl));
      live := Some(cl);
      links := links + [Attached(cl)];
      forall x: nat ensures live == Some(x) <==> Holder(links, x) { LiveIff(links, x); }
    }

    // Only the connection that is attached can detach: an older one unwinding late changes nothing.
    method Detach(cl: nat)
      requires Valid()
      modifies this`live, this`links
      ensures Valid() && links == old(links) + [Detached(cl)]
      ensures forall x: nat :: live == Some(x) <==> Holder(links, x)
      ensures Value() == old(Value()).(live := exists x: nat :: Holder(links, x))
    {
      hide Q.Inv, Q.MapOf, Holder, Labelled, LiveAfter;
      LiveSnoc(links, Detached(cl));
      if live == Some(cl) { live := None; }
      links := links + [Detached(cl)];
      forall x: nat ensures live == Some(x) <==> Holder(links, x) { LiveIff(links, x); }
    }

    method Matches(topic: string) returns (qos: nat, ok: bool)
      ensures FirstMatch(subs, topic) == if ok then Some(qos) else None
    {
      hide R.Matches, R.LevelsOf;
      for i := 0 to |subs|
        invariant FirstMatch(subs, topic) == FirstMatch(subs[i..], topic)
      {
        var fits := R.Match(subs[i].filter, topic);
        if fits { return subs[i].qos, true; }
        assert subs[i..][1..] == subs[i + 1..];
      }
      return 0, false;
    }

    method EnqueueMsg(msg: Msg)
      requires Valid() && Keyed(q.list, seqNo) && seqNo + 1 < 0x1_0000_0000_0000_0000
      modifies this`seqNo, q
      ensures Valid() && Keyed(q.list, seqNo) && seqNo == old(seqNo) + 1
      ensures Value() == Enqueue(old(Value()), q.opts, msg, q.size(Queued(Key(seqNo), msg))).0
      ensures Msgs(q.list) == old(Msgs(q.list)) + [msg] || q.State() == old(q.State())
    {
      hide Q.Put, Q.Inv, Q.MapOf, Keyed, Labelled, LiveAfter, Msgs, Itoa;
      EnqueueAppends(Value(), q.opts, msg, q.size(Queued(Key(seqNo + 1), msg)));
      seqNo := seqNo + 1;
      var digits := ItoaBuffer(seqNo);
      var id := "m" + digits;
      var r := q.PutItem(id, Queued(id, msg));
    }

    // Send the backlog in order, deleting each message after its write; stop at the first write that fails.
    method Replay(writable: nat -> bool) returns (sent: seq<Msg>, ok: bool)
      requires Valid()
      modifies q
      ensures Valid() && |sent| <= old(|q.list|) && q.State() == Drop(old(q.State()), |sent|)
      ensures sent == Msgs(old(q.list)[..|sent|]) && q.list == old(q.list)[|sent|..]
      ensures ok <==> |sent| == old(|q.list|)
      ensures (forall i :: 0 <= i < |sent| ==> writable(i)) && (!ok ==> !writable(|sent|))
    {
      hide Q.Inv, Q.Delete, Drop, Msgs;
      ghost var before := q.State();
      var msgs := q.List();
      sent := [];
      DropIsPrefix(before, 0);
      MsgsTake(before.list, 0);
      for i := 0 to |msgs|
        invariant Valid() && |sent| == i && q.State() == Drop(before, i)
        invariant sent == Msgs(before.list[..i]) && q.list == before.list[i..]
        invariant forall j :: 0 <= j < i ==> writable(j)
      {
        if !writable(i) { return sent, false; }
        DropStep(before, i);
        DropIsPrefix(before, i + 1);
        MsgsTake(before.list, i + 1);
        sent := sent + [msgs[i].msg];
        q.DeleteItem(msgs[i].id);
      }
      return sent, true;
    }
  }
}
