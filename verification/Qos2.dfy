// The QoS 2 handshakes of one broker connection (internal/mqtt/broker.go): inbound messages are held until
// PUBREL and then handed on; outbound messages get packet ids that stay taken until PUBCOMP.
module Qos2 {
  import opened Wrappers

  // ----- inbound: publisher to broker ---------------------------------------------------------------------

  datatype InPacket<+M> = PubIn(pid: nat, msg: M) | RelIn(pid: nat)

  // Messages held, and what the handler was given, in order.
  datatype Inbound<+M> = Inbound(pending: map<nat, M>, delivered: seq<(nat, M)>)

  function OnIn<M>(s: Inbound<M>, p: InPacket<M>): Inbound<M> {
    match p
    case PubIn(pid, msg) => s.(pending := s.pending[pid := msg])
    case RelIn(pid) =>
      if pid in s.pending then Inbound(s.pending - {pid}, s.delivered + [(pid, s.pending[pid])]) else s
  }

  function RunIn<M>(t: seq<InPacket<M>>): Inbound<M> {
    if t == [] then Inbound(map[], []) else OnIn(RunIn(t[..|t| - 1]), t[|t| - 1])
  }

  predicate Publishes<M>(p: InPacket<M>, pid: nat) { p.PubIn? && p.pid == pid }

  predicate Releases<M>(p: InPacket<M>, pid: nat) { p.RelIn? && p.pid == pid }

  // A PUBLISH of pid arrived since the last PUBREL of pid.
  ghost predicate Open<M>(t: seq<InPacket<M>>, pid: nat) {
    exists j :: 0 <= j < |t| && Publishes(t[j], pid) && forall k :: j < k < |t| ==> !Releases(t[k], pid)
  }

  // The content of the latest PUBLISH of pid.
  function Latest<M>(t: seq<InPacket<M>>, pid: nat): Option<M> {
    if t == [] then None
    else if Publishes(t[|t| - 1], pid) then Some(t[|t| - 1].msg)
    else Latest(t[..|t| - 1], pid)
  }

  // What section 4.3.3 of MQTT 3.1.1 asks the receiver to hand on for pid: one message for each PUBREL that
  // closes an open exchange, with the content of its latest PUBLISH.
  ghost function Expected<M>(t: seq<InPacket<M>>, pid: nat): seq<Option<M>> {
    if t == [] then []
    else
      var front, last := t[..|t| - 1], t[|t| - 1];
      if Releases(last, pid) && Open(front, pid) then Expected(front, pid) + [Latest(front, pid)] else Expected(front, pid)
  }

  function HandedFor<M>(d: seq<(nat, M)>, pid: nat): seq<Option<M>> {
    if d == [] then []
    else HandedFor(d[..|d| - 1], pid) + (if d[|d| - 1].0 == pid then [Some(d[|d| - 1].1)] else [])
  }

  lemma HandedSnoc<M>(d: seq<(nat, M)>, e: (nat, M), pid: nat)
    ensures HandedFor(d + [e], pid) == HandedFor(d, pid) + (if e.0 == pid then [Some(e.1)] else [])
  {
    assert (d + [e])[..|d|] == d;
  }

  lemma OpenStep<M>(t: seq<InPacket<M>>, pid: nat)
    requires t != []
    ensures var front, last := t[..|t| - 1], t[|t| - 1];
            Open(t, pid) <==> Publishes(last, pid) || (!Releases(last, pid) && Open(front, pid))
  {
    var front, last := t[..|t| - 1], t[|t| - 1];
    if Open(t, pid) {
      var j :| 0 <= j < |t| && Publishes(t[j], pid) && forall k :: j < k < |t| ==> !Releases(t[k], pid);
      if j < |t| - 1 { assert Publishes(front[j], pid); }
    }
    if Publishes(last, pid) { assert Publishes(t[|t| - 1], pid); }
    if !Releases(last, pid) && Open(front, pid) {
      var j :| 0 <= j < |front| && Publishes(front[j], pid) && forall k :: j < k < |front| ==> !Releases(front[k], pid);
      assert Publishes(t[j], pid);
      assert forall k :: j < k < |t| ==> !Releases(t[k], pid) by {
        forall k | j < k < |t| ensures !Releases(t[k], pid) { if k < |front| { assert front[k] == t[k]; } }
      }
    }
  }

  // On any packet sequence the broker holds exactly the open exchanges, each with its latest content, and
  // has handed on exactly what was expected: as many messages for an id as PUBRELs that closed an open
  // exchange of it, in that order.
  lemma {:induction false} InboundExactlyOnce<M>(t: seq<InPacket<M>>, pid: nat)
    ensures pid in RunIn(t).pending <==> Open(t, pid)
    ensures pid in RunIn(t).pending ==> Some(RunIn(t).pending[pid]) == Latest(t, pid)
    ensures HandedFor(RunIn(t).delivered, pid) == Expected(t, pid)
  {
    if t != [] {
      var front, last := t[..|t| - 1], t[|t| - 1];
      InboundExactlyOnce(front, pid);
      OpenStep(t, pid);
      var s := RunIn(front);
      if last.RelIn? && last.pid in s.pending {
        HandedSnoc(s.delivered, (last.pid, s.pending[last.pid]), pid);
      }
    }
  }

  function Only<M>(t: seq<InPacket<M>>, pid: nat): seq<InPacket<M>> {
    if t == [] then []
    else Only(t[..|t| - 1], pid) + (if t[|t| - 1].pid == pid then [t[|t| - 1]] else [])
  }

  // Packet ids do not interfere: what is handed on for pid depends only on the packets that carry pid.
  lemma {:induction false} InboundPerId<M>(t: seq<InPacket<M>>, pid: nat)
    ensures HandedFor(RunIn(t).delivered, pid) == HandedFor(RunIn(Only(t, pid)).delivered, pid)
    ensures pid in RunIn(t).pending <==> pid in RunIn(Only(t, pid)).pending
    ensures pid in RunIn(t).pending ==> RunIn(t).pending[pid] == RunIn(Only(t, pid)).pending[pid]
  {
    if t != [] {
      var front, last := t[..|t| - 1], t[|t| - 1];
      InboundPerId(front, pid);
      var a, b := RunIn(front), RunIn(Only(front, pid));
      if last.pid == pid {
        assert Only(t, pid)[..|Only(t, pid)| - 1] == Only(front, pid);
      } else {
        assert Only(t, pid) == Only(front, pid);
      }
      if last.RelIn? && last.pid in a.pending { HandedSnoc(a.delivered, (last.pid, a.pending[last.pid]), pid); }
      if last.RelIn? && last.pid in b.pending { HandedSnoc(b.delivered, (last.pid, b.pending[last.pid]), pid); }
    }
  }

  // ----- composition with a retransmitting sender -----------------------------------------------------------

  datatype SenderPhase = Idle | AwaitRec | AwaitComp

  // One packet id used for messages 0, 1, 2, ... in turn over a FIFO connection. A packet in flight is a
  // number: 2m is message m's PUBLISH or the PUBREC answering it, 2m+1 is its PUBREL or PUBCOMP. The sender
  // sees only the kind of an answer, never the message it belongs to.
  datatype Link = Link(cur: nat, phase: SenderPhase, toBroker: seq<int>, toSender: seq<int>, broker: Inbound<int>)

  const PID: nat := 1

  const LINK_START := Link(0, Idle, [], [], Inbound(map[], []))

  datatype LinkStep = Start | ResendPublish | ResendRelease | BrokerReads | SenderReads(eager: bool)

  function PacketOf(x: int): InPacket<int> { if x % 2 == 0 then PubIn(PID, x / 2) else RelIn(PID) }

  function NextLink(s: Link, step: LinkStep): Link {
    match step
    case Start => if s.phase.Idle? then s.(phase := AwaitRec, toBroker := s.toBroker + [2 * s.cur]) else s
    case ResendPublish => if s.phase.AwaitRec? then s.(toBroker := s.toBroker + [2 * s.cur]) else s
    case ResendRelease => if s.phase.AwaitComp? then s.(toBroker := s.toBroker + [2 * s.cur + 1]) else s
    case BrokerReads =>
      if s.toBroker == [] then s
      else s.(toBroker := s.toBroker[1..], toSender := s.toSender + [s.toBroker[0]],
              broker := OnIn(s.broker, PacketOf(s.toBroker[0])))
    case SenderReads(eager) =>
      if s.toSender == [] then s
      else
        var t := s.(toSender := s.toSender[1..]);
        if s.toSender[0] % 2 == 0 then
          if s.phase.AwaitRec? then t.(phase := AwaitComp, toBroker := s.toBroker + [2 * s.cur + 1])
          else if s.phase.AwaitComp? && eager then t.(toBroker := s.toBroker + [2 * s.cur + 1])
          else t
        else if s.phase.AwaitComp? then t.(phase := Idle, cur := s.cur + 1)
        else t
  }

  function RunLink(steps: seq<LinkStep>): Link {
    if steps == [] then LINK_START else NextLink(RunLink(steps[..|steps| - 1]), steps[|steps| - 1])
  }

  // The lowest number that can still be in flight.
  function Floor(s: Link): int {
    match s.phase case Idle => 2 * s.cur - 1 case AwaitRec => 2 * s.cur - 1 case AwaitComp => 2 * s.cur
  }

  function Ceiling(s: Link): int { if s.phase.Idle? then Floor(s) else Floor(s) + 1 }

  // Non-decreasing and within [lo, hi].
  ghost predicate Rising(xs: seq<int>, lo: int, hi: int) {
    && (forall i :: 0 <= i < |xs| ==> lo <= xs[i] <= hi)
    && (forall i, j :: 0 <= i < j < |xs| ==> xs[i] <= xs[j])
  }

  // The broker's state when `x` is the last number it processed.
  ghost predicate BrokerAt(b: Inbound<int>, x: int) {
    && x >= -1
    && b.pending == (if x % 2 == 0 then map[PID := x / 2] else map[])
    && |b.delivered| == (x + 1) / 2
    && forall i :: 0 <= i < |b.delivered| ==> b.delivered[i] == (PID, i)
  }

  // The answers on their way back, the broker's position and the packets on their way out form one rising
  // sequence inside a window of two.
  ghost predicate LinkInv(s: Link, x: int) {
    && BrokerAt(s.broker, x)
    && Rising(s.toSender + [x] + s.toBroker, Floor(s), Ceiling(s))
    && forall i :: 0 <= i < |s.toBroker| ==> s.toBroker[i] >= 0
  }

  lemma RisingSplit(a: seq<int>, x: int, b: seq<int>, lo: int, hi: int)
    ensures Rising(a + [x] + b, lo, hi) <==> Rising(a, lo, x) && lo <= x <= hi && Rising(b, x, hi)
  {
    if Rising(a + [x] + b, lo, hi) { RisingParts(a, x, b, lo, hi); }
    if Rising(a, lo, x) && lo <= x <= hi && Rising(b, x, hi) { RisingWhole(a, x, b, lo, hi); }
  }

  lemma RisingParts(a: seq<int>, x: int, b: seq<int>, lo: int, hi: int)
    requires Rising(a + [x] + b, lo, hi)
    ensures Rising(a, lo, x) && lo <= x <= hi && Rising(b, x, hi)
  {
    var s := a + [x] + b;
    assert s[|a|] == x;
    forall i | 0 <= i < |a| ensures lo <= a[i] <= x { assert s[i] == a[i] && s[i] <= s[|a|]; }
    forall i | 0 <= i < |b| ensures x <= b[i] <= hi { assert s[|a| + 1 + i] == b[i] && s[|a|] <= s[|a| + 1 + i]; }
    forall i, j | 0 <= i < j < |a| ensures a[i] <= a[j] { assert s[i] <= s[j]; }
    forall i, j | 0 <= i < j < |b| ensures b[i] <= b[j] { assert s[|a| + 1 + i] <= s[|a| + 1 + j]; }
  }

  lemma RisingWhole(a: seq<int>, x: int, b: seq<int>, lo: int, hi: int)
    requires Rising(a, lo, x) && lo <= x <= hi && Rising(b, x, hi)
    ensures Rising(a + [x] + b, lo, hi)
  {
    var s := a + [x] + b;
    assert s[|a|] == x;
    assert forall i :: 0 <= i < |a| ==> s[i] == a[i];
    assert forall i :: |a| < i < |s| ==> s[i] == b[i - |a| - 1];
  }

  lemma BrokerMoves(b: Inbound<int>, x: int, y: int)
    requires BrokerAt(b, x) && (y == x || y == x + 1) && y >= 0
    ensures BrokerAt(OnIn(b, PacketOf(y)), y)
  {
    if y % 2 == 1 && x % 2 == 0 {
      assert map[PID := x / 2] - {PID} == map[];
    }
  }

  lemma RisingTail(a: seq<int>, lo: int, hi: int)
    requires Rising(a, lo, hi) && a != []
    ensures Rising(a[1..], a[0], hi) && lo <= a[0] <= hi
  {
  }

  lemma RisingWiden(a: seq<int>, lo: int, hi: int, lo': int, hi': int)
    requires Rising(a, lo, hi) && lo' <= lo && hi <= hi'
    ensures Rising(a, lo', hi')
  {
  }

  lemma RisingSnoc(a: seq<int>, lo: int, hi: int)
    requires Rising(a, lo, hi) && lo <= hi
    ensures Rising(a + [hi], lo, hi)
  {
  }

  lemma BrokerReadsKeeps(s: Link, x: int)
    requires LinkInv(s, x) && s.toBroker != []
    ensures LinkInv(NextLink(s, BrokerReads), s.toBroker[0])
  {
    hide Rising, BrokerAt;
    var lo, hi, y := Floor(s), Ceiling(s), s.toBroker[0];
    RisingSplit(s.toSender, x, s.toBroker, lo, hi);
    RisingTail(s.toBroker, x, hi);
    BrokerMoves(s.broker, x, y);
    RisingWiden(s.toSender, lo, x, lo, y);
    RisingSnoc(s.toSender, lo, y);
    RisingSplit(s.toSender + [y], y, s.toBroker[1..], lo, hi);
  }

  lemma SendKeeps(s: Link, x: int, t: Link)
    requires LinkInv(s, x)
    requires t.broker == s.broker && t.toSender == s.toSender && t.toBroker == s.toBroker + [Ceiling(t)]
    requires Floor(t) == Floor(s) && Ceiling(t) >= Ceiling(s) && Ceiling(t) >= 0
    ensures LinkInv(t, x)
  {
    RisingSplit(s.toSender, x, s.toBroker, Floor(s), Ceiling(s));
    RisingSplit(s.toSender, x, t.toBroker, Floor(t), Ceiling(t));
  }

  // Everything still behind the answer just read is at least as high as it.
  lemma SenderReadsKeeps(s: Link, x: int, eager: bool)
    requires LinkInv(s, x) && s.toSender != []
    ensures LinkInv(NextLink(s, SenderReads(eager)), x)
  {
    var a, t := s.toSender, NextLink(s, SenderReads(eager));
    var lo, hi := Floor(s), Ceiling(s);
    RisingSplit(a, x, s.toBroker, lo, hi);
    RisingTail(a, lo, x);
    hide Rising, BrokerAt;
    assert a[0] == lo || a[0] == lo + 1;
    assert Floor(t) <= a[0] && hi <= Ceiling(t);
    RisingWiden(a[1..], a[0], x, Floor(t), x);
    RisingWiden(s.toBroker, x, hi, x, Ceiling(t));
    RisingSnoc(s.toBroker, x, Ceiling(t));
    RisingSplit(t.toSender, x, t.toBroker, Floor(t), Ceiling(t));
  }

  lemma LinkStepKeeps(s: Link, x: int, step: LinkStep) returns (x': int)
    requires LinkInv(s, x)
    ensures LinkInv(NextLink(s, step), x')
  {
    x' := x;
    match step
    case Start => if s.phase.Idle? { SendKeeps(s, x, NextLink(s, step)); }
    case ResendPublish => if s.phase.AwaitRec? { SendKeeps(s, x, NextLink(s, step)); }
    case ResendRelease => if s.phase.AwaitComp? { SendKeeps(s, x, NextLink(s, step)); }
    case BrokerReads => if s.toBroker != [] { BrokerReadsKeeps(s, x); x' := s.toBroker[0]; }
    case SenderReads(eager) => if s.toSender != [] { SenderReadsKeeps(s, x, eager); }
  }

  lemma {:induction false} LinkReachable(steps: seq<LinkStep>) returns (x: int)
    ensures LinkInv(RunLink(steps), x)
  {
    if steps == [] {
      x := -1;
    } else {
      var y := LinkReachable(steps[..|steps| - 1]);
      x := LinkStepKeeps(RunLink(steps[..|steps| - 1]), y, steps[|steps| - 1]);
    }
  }

  // Main theorem: however often the sender retransmits, and although packet ids are reused and answers carry
  // no message, the messages handed on are 0, 1, 2, ... each exactly once and in order, and every message
  // whose handshake the sender completed is among them.
  lemma ComposedExactlyOnce(steps: seq<LinkStep>)
    ensures var s := RunLink(steps);
            && s.cur <= |s.broker.delivered| <= s.cur + 1
            && forall i :: 0 <= i < |s.broker.delivered| ==> s.broker.delivered[i] == (PID, i)
  {
    var x := LinkReachable(steps);
    var s := RunLink(steps);
    RisingSplit(s.toSender, x, s.toBroker, Floor(s), Ceiling(s));
  }

  // ----- outbound: broker to subscriber ---------------------------------------------------------------------

  const LAST_ID: nat := 65535

  datatype OutPhase = WaitPubrec | WaitPubcomp

  // The k-th identifier tried after `next`: the counter wraps at 65536 and skips 0.
  function Candidate(next: nat, k: nat): nat
    requires k >= 1
  {
    (next + k - 1) % LAST_ID + 1
  }

  function Bump(next: nat): nat {
    var n := (next + 1) % 65536;
    if n == 0 then 1 else n
  }

  lemma BumpIsNext(next: nat, k: nat)
    requires next <= LAST_ID
    ensures Bump(next) == Candidate(next, 1)
    ensures k >= 1 ==> Bump(Candidate(next, k)) == Candidate(next, k + 1)
  {
    if k >= 1 {
      var r := (next + k - 1) % LAST_ID;
      assert (next + k) % LAST_ID == (r + 1) % LAST_ID by {
        assert next + k - 1 == LAST_ID * ((next + k - 1) / LAST_ID) + r;
        ModShift(r + 1, (next + k - 1) / LAST_ID);
      }
    }
  }

  lemma ModShift(a: nat, q: nat)
    ensures (a + LAST_ID * q) % LAST_ID == a % LAST_ID
  {
    var r, d := a % LAST_ID, a / LAST_ID;
    assert a + LAST_ID * q == LAST_ID * (d + q) + r;
  }

  // Every identifier comes up within 65535 tries.
  lemma CandidateCovers(next: nat, id: nat) returns (k: nat)
    requires next <= LAST_ID && 1 <= id <= LAST_ID
    ensures 1 <= k <= LAST_ID && Candidate(next, k) == id
  {
    if id > next {
      k := id - next;
    } else {
      k := id + LAST_ID - next;
      if k == 0 { k := LAST_ID; }
      if k <= LAST_ID { ModShift(id - 1, 1); }
    }
  }

  predicate IsId(id: nat) { 1 <= id <= LAST_ID }

  ghost predicate SomeFree(out: map<nat, OutPhase>) { exists id :: IsId(id) && id !in out }

  // The identifiers 1 to n.
  function UpTo(n: nat): (ids: set<nat>)
    ensures |ids| == n && forall i :: i in ids <==> 1 <= i <= n
  {
    if n == 0 then {} else UpTo(n - 1) + {n}
  }

  // Pigeonhole: fewer than 65535 in flight leaves a free identifier.
  lemma FewInFlight(out: map<nat, OutPhase>)
    requires |out| < LAST_ID
    ensures SomeFree(out)
  {
    if !SomeFree(out) {
      forall i | i in UpTo(LAST_ID) ensures i in out.Keys { assert IsId(i); }
      SubsetSize(UpTo(LAST_ID), out.Keys);
    }
  }

  lemma SubsetSize(a: set<nat>, b: set<nat>)
    requires a <= b
    ensures |a| <= |b|
  {
    assert b == a + (b - a);
  }

  // The allocation loop. It ends, within 65535 turns, exactly because some identifier is free; what it
  // returns is the first free one in cyclic order.
  method NextOutPacketId(next: nat, out: map<nat, OutPhase>) returns (id: nat, tries: nat)
    requires next <= LAST_ID && SomeFree(out)
    ensures 1 <= id <= LAST_ID && id !in out
    ensures 1 <= tries <= LAST_ID && id == Candidate(next, tries)
    ensures forall j :: 1 <= j < tries ==> Candidate(next, j) in out
  {
    ghost var free :| IsId(free) && free !in out;
    ghost var last := CandidateCovers(next, free);
    id := Bump(next);
    tries := 1;
    BumpIsNext(next, 0);
    while id in out
      invariant 1 <= tries <= last && id == Candidate(next, tries)
      invariant forall j :: 1 <= j < tries ==> Candidate(next, j) in out
      decreases last - tries
    {
      BumpIsNext(next, tries);
      id := Bump(id);
      tries := tries + 1;
    }
  }

  // With every identifier in flight no turn of the loop can end it.
  lemma NoFreeNoReturn(next: nat, out: map<nat, OutPhase>)
    requires !SomeFree(out)
    ensures forall k: nat :: k >= 1 ==> Candidate(next, k) in out
  {
    forall k: nat | k >= 1 ensures Candidate(next, k) in out { assert IsId(Candidate(next, k)); }
  }

  // What happens on a connection: a QoS 2 PUBLISH goes out, its write fails, or the subscriber answers.
  datatype OutEvent = Sent(pid: nat) | WriteFailed(pid: nat) | GotRec(pid: nat) | GotComp(pid: nat)

  function OnOut(out: map<nat, OutPhase>, e: OutEvent): map<nat, OutPhase> {
    match e
    case Sent(pid) => out[pid := WaitPubrec]
    case WriteFailed(pid) => out - {pid}
    case GotRec(pid) => if pid in out then out[pid := WaitPubcomp] else out
    case GotComp(pid) => out - {pid}
  }

  function RunOut(t: seq<OutEvent>): map<nat, OutPhase> {
    if t == [] then map[] else OnOut(RunOut(t[..|t| - 1]), t[|t| - 1])
  }

  // Every QoS 2 PUBLISH carries an id the allocator found free at that moment.
  ghost predicate Allocated(t: seq<OutEvent>) {
    forall i :: 0 <= i < |t| && t[i].Sent? ==> t[i].pid !in RunOut(t[..i])
  }

  predicate Frees(e: OutEvent, pid: nat) { (e.GotComp? || e.WriteFailed?) && e.pid == pid }

  // pid was sent at j and nothing has freed it since.
  ghost predicate LiveSince(t: seq<OutEvent>, pid: nat, j: int) {
    0 <= j < |t| && t[j] == Sent(pid) && forall k :: j < k < |t| ==> !Frees(t[k], pid)
  }

  lemma {:induction false} LiveIsTaken(t: seq<OutEvent>, pid: nat, j: int)
    requires LiveSince(t, pid, j)
    ensures pid in RunOut(t)
  {
    var front, last := t[..|t| - 1], t[|t| - 1];
    if j < |t| - 1 {
      assert LiveSince(front, pid, j);
      LiveIsTaken(front, pid, j);
      assert !Frees(last, pid);
    }
  }

  lemma {:induction false} TakenIsLive(t: seq<OutEvent>, pid: nat) returns (j: int)
    requires pid in RunOut(t)
    ensures LiveSince(t, pid, j)
  {
    var front, last := t[..|t| - 1], t[|t| - 1];
    if last == Sent(pid) {
      j := |t| - 1;
    } else {
      j := TakenIsLive(front, pid);
      assert !Frees(last, pid);
      forall k | j < k < |t| ensures !Frees(t[k], pid) { if k < |front| { assert t[k] == front[k]; } }
    }
  }

  // The in-flight map holds exactly the ids sent and not yet freed.
  lemma InFlightIff(t: seq<OutEvent>, pid: nat)
    ensures pid in RunOut(t) <==> exists j :: LiveSince(t, pid, j)
  {
    if pid in RunOut(t) { var j := TakenIsLive(t, pid); }
    if j :| LiveSince(t, pid, j) { LiveIsTaken(t, pid, j); }
  }

  // ... and an id is past PUBREC exactly when a PUBREC arrived after its latest PUBLISH.
  lemma {:induction false} PhaseIff(t: seq<OutEvent>, pid: nat)
    requires pid in RunOut(t)
    ensures RunOut(t)[pid] == WaitPubcomp <==>
              exists k :: 0 <= k < |t| && t[k] == GotRec(pid) && forall m :: k < m < |t| ==> t[m] != Sent(pid) && !Frees(t[m], pid)
  {
    var front, last := t[..|t| - 1], t[|t| - 1];
    if last == Sent(pid) {
      assert t[|t| - 1] == Sent(pid);
    } else if last == GotRec(pid) {
      assert t[|t| - 1] == GotRec(pid);
    } else {
      PhaseIff(front, pid);
      assert !Frees(last, pid);
      if k :| 0 <= k < |t| && t[k] == GotRec(pid) && forall m :: k < m < |t| ==> t[m] != Sent(pid) && !Frees(t[m], pid) {
        assert front[k] == GotRec(pid);
        assert forall m :: k < m < |front| ==> front[m] == t[m];
      }
      if k :| 0 <= k < |front| && front[k] == GotRec(pid) && forall m :: k < m < |front| ==> front[m] != Sent(pid) && !Frees(front[m], pid) {
        assert t[k] == GotRec(pid);
        forall m | k < m < |t| ensures t[m] != Sent(pid) && !Frees(t[m], pid) { if m < |front| { assert t[m] == front[m]; } }
      }
    }
  }

  // Main theorem: between two PUBLISHes that carry the same id the id was freed.
  lemma NeverReusedInFlight(t: seq<OutEvent>, i: nat, j: nat, pid: nat)
    requires Allocated(t) && i < j < |t| && t[i] == Sent(pid) && t[j] == Sent(pid)
    ensures exists k :: i < k < j && Frees(t[k], pid)
  {
    if forall k :: i < k < j ==> !Frees(t[k], pid) {
      var p := t[..j];
      assert LiveSince(p, pid, i);
      LiveIsTaken(p, pid, i);
    }
  }

  // ----- the connection's own state ---------------------------------------------------------------------

  datatype Wire<+M> = Publish(pid: nat, msg: M) | Pubrec(pid: nat) | Pubrel(pid: nat) | Pubcomp(pid: nat)

  class Client<M> {
    var pending: map<nat, M>
    var nextOutId: nat
    var out: map<nat, OutPhase>
    var written: seq<Wire<M>>
    // Cleared when serve returns; nothing is read after that.
    var open: bool
    ghost var delivered: seq<(nat, M)>
    ghost var inTrace: seq<InPacket<M>>
    ghost var outTrace: seq<OutEvent>

    // The two maps are what the traces say they should be.
    ghost predicate Valid()
      reads this
    {
      && nextOutId <= LAST_ID
      && (open ==> Inbound(pending, delivered) == RunIn(inTrace))
      && out == RunOut(outTrace) && Allocated(outTrace)
    }

    constructor ()
      ensures Valid() && open && inTrace == [] && outTrace == [] && written == []
    {
      pending, nextOutId, out, written, open := map[], 0, map[], [], true;
      delivered, inTrace, outTrace := [], [], [];
    }

    ghost method Record(e: OutEvent)
      requires Allocated(outTrace) && (e.Sent? ==> e.pid !in RunOut(outTrace))
      modifies this`outTrace
      ensures outTrace == old(outTrace) + [e] && Allocated(outTrace)
      ensures RunOut(outTrace) == OnOut(RunOut(old(outTrace)), e)
    {
      ghost var t := outTrace;
      outTrace := outTrace + [e];
      assert outTrace[..|t|] == t;
      forall i | 0 <= i < |outTrace| && outTrace[i].Sent? ensures outTrace[i].pid !in RunOut(outTrace[..i]) {
        if i < |t| { assert outTrace[..i] == t[..i]; }
      }
    }

    // A publisher over its cap or without permission is cut off before anything is held.
    method OnPublish2(pid: nat, msg: M, permitted: bool, writeOk: bool)
      requires Valid() && open
      modifies this
      ensures Valid() && outTrace == old(outTrace) && out == old(out) && nextOutId == old(nextOutId) && delivered == old(delivered)
      ensures inTrace == old(inTrace) + (if permitted then [PubIn(pid, msg)] else [])
      ensures written == old(written) + (if permitted && writeOk then [Pubrec(pid)] else [])
      ensures open == (permitted && writeOk)
    {
      open := permitted;
      if !permitted { return; }
      pending := pending[pid := msg];
      inTrace := inTrace + [PubIn(pid, msg)];
      assert inTrace[..|inTrace| - 1] == old(inTrace);
      open := writeOk;
      if writeOk { written := written + [Pubrec(pid)]; }
    }

    // The handler runs only for an id that is held and whose topic is still permitted; otherwise a held message is
    // dropped with the connection. PUBCOMP goes out whether or not the id was held.
    method OnPubrel(pid: nat, permitted: bool, writeOk: bool) returns (handed: Option<M>)
      requires Valid() && open
      modifies this
      ensures Valid() && outTrace == old(outTrace) && out == old(out) && nextOutId == old(nextOutId)
      ensures handed == (if pid in old(pending) && permitted then Some(old(pending)[pid]) else None)
      ensures delivered == old(delivered) + (if handed.Some? then [(pid, handed.value)] else [])
      ensures var refused := pid in old(pending) && !permitted;
              && open == (!refused && writeOk)
              && inTrace == old(inTrace) + (if refused then [] else [RelIn(pid)])
              && written == old(written) + (if open then [Pubcomp(pid)] else [])
    {
      handed := None;
      if pid in pending {
        var msg := pending[pid];
        pending := pending - {pid};
        if !permitted {
          open := false;
          return;
        }
        handed := Some(msg);
        delivered := delivered + [(pid, msg)];
      }
      inTrace := inTrace + [RelIn(pid)];
      assert inTrace[..|inTrace| - 1] == old(inTrace);
      open := writeOk;
      if writeOk { written := written + [Pubcomp(pid)]; }
    }

    // A QoS 2 sendPublish: allocate, register before writing, unregister if the write fails.
    method SendPublish2(msg: M, writeOk: bool) returns (pid: nat)
      requires Valid() && SomeFree(out)
      modifies this
      ensures Valid() && 1 <= pid <= LAST_ID && pid !in old(out) && nextOutId == pid
      ensures outTrace == old(outTrace) + [Sent(pid)] + (if writeOk then [] else [WriteFailed(pid)])
      ensures out == (if writeOk then old(out)[pid := WaitPubrec] else old(out))
      ensures written == old(written) + (if writeOk then [Publish(pid, msg)] else [])
      ensures inTrace == old(inTrace) && pending == old(pending) && open == old(open)
    {
      hide RunOut, RunIn, Allocated, SomeFree;
      var tries;
      pid, tries := NextOutPacketId(nextOutId, out);
      nextOutId := pid;
      Record(Sent(pid));
      out := out[pid := WaitPubrec];
      if writeOk {
        written := written + [Publish(pid, msg)];
      } else {
        Record(WriteFailed(pid));
        out := out - {pid};
        assert old(out)[pid := WaitPubrec] - {pid} == old(out);
      }
    }

    // A QoS 1 sendPublish draws from the same counter, avoids the ids in flight, and holds nothing.
    method SendPublish1(msg: M, writeOk: bool) returns (pid: nat)
      requires Valid() && SomeFree(out)
      modifies this`nextOutId, this`written
      ensures Valid() && 1 <= pid <= LAST_ID && pid !in out && nextOutId == pid
      ensures written == old(written) + (if writeOk then [Publish(pid, msg)] else [])
    {
      var tries;
      pid, tries := NextOutPacketId(nextOutId, out);
      nextOutId := pid;
      if writeOk { written := written + [Publish(pid, msg)]; }
    }

    // PUBREC is answered by PUBREL exactly when the id is in flight.
    method OnPubrec(pid: nat, writeOk: bool)
      requires Valid() && open
      modifies this
      ensures Valid() && outTrace == old(outTrace) + [GotRec(pid)] && inTrace == old(inTrace) && nextOutId == old(nextOutId)
      ensures open == (pid in old(out) ==> writeOk)
      ensures written == old(written) + (if pid in old(out) && writeOk then [Pubrel(pid)] else [])
    {
      Record(GotRec(pid));
      if pid in out {
        out := out[pid := WaitPubcomp];
        open := writeOk;
        if writeOk { written := written + [Pubrel(pid)]; }
      }
    }

    method OnPubcomp(pid: nat)
      requires Valid() && open
      modifies this
      ensures Valid() && open && outTrace == old(outTrace) + [GotComp(pid)] && inTrace == old(inTrace) && nextOutId == old(nextOutId)
      ensures pid !in out && written == old(written)
    {
      Record(GotComp(pid));
      out := out - {pid};
    }
  }
}
