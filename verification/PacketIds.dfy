// Outbound packet ids with several publishers at once (sendPublish in internal/mqtt/broker.go): an id is taken in one
// critical section and registered as in flight in a later one, so for a while it is neither free nor in flight.
module PacketIds {
  import opened Qos2

  type Publisher = nat

  // An id taken and not yet registered, and how often the counter had moved by then.
  datatype Held = Held(pid: nat, at: nat)

  // `moves` counts how often the counter has moved.
  datatype Ids = Ids(next: nat, moves: nat, out: map<nat, OutPhase>, held: map<Publisher, Held>)

  // A QoS 2 publisher takes an id and registers it later; a QoS 1 publish draws from the same counter and holds nothing.
  datatype Step = Take(p: Publisher) | Register(p: Publisher) | Pass | Heard(e: OutEvent)

  const FRESH := Ids(0, 0, map[], map[])

  // How many candidates the loop looks at, from the k-th on.
  function Tries(next: nat, out: map<nat, OutPhase>, k: nat): (n: nat)
    requires k >= 1
    ensures n >= k
    decreases LAST_ID + 1 - k
  {
    if k > LAST_ID || Candidate(next, k) !in out then k else Tries(next, out, k + 1)
  }

  // With no free id the loop never ends and there is no step.
  ghost function Next(s: Ids, step: Step): Ids {
    match step
    case Take(p) =>
      if p in s.held || !SomeFree(s.out) then s
      else
        var n := Tries(s.next, s.out, 1);
        var pid := Candidate(s.next, n);
        Ids(pid, s.moves + n, s.out, s.held[p := Held(pid, s.moves + n)])
    case Pass =>
      if !SomeFree(s.out) then s
      else
        var n := Tries(s.next, s.out, 1);
        s.(next := Candidate(s.next, n), moves := s.moves + n)
    case Register(p) =>
      if p !in s.held then s
      else s.(out := OnOut(s.out, Sent(s.held[p].pid)), held := s.held - {p})
    case Heard(e) => if e.Sent? then s else s.(out := OnOut(s.out, e))
  }

  ghost function Run(steps: seq<Step>): Ids {
    if steps == [] then FRESH else Next(Run(steps[..|steps| - 1]), steps[|steps| - 1])
  }

  lemma RunSnoc(steps: seq<Step>, step: Step)
    ensures Run(steps + [step]) == Next(Run(steps), step)
  {
    assert (steps + [step])[..|steps|] == steps;
  }

  // ----- the search -------------------------------------------------------------------------------------------

  lemma {:induction false} TriesFinds(next: nat, out: map<nat, OutPhase>, k: nat, last: nat)
    requires 1 <= k <= last <= LAST_ID && Candidate(next, last) !in out
    ensures var n := Tries(next, out, k); k <= n <= last && Candidate(next, n) !in out
    decreases last - k
  {
    if k < last && Candidate(next, k) in out { TriesFinds(next, out, k + 1, last); }
  }

  lemma {:induction false} TriesIs(next: nat, out: map<nat, OutPhase>, k: nat, n: nat)
    requires 1 <= k <= n <= LAST_ID && Candidate(next, n) !in out
    requires forall j :: k <= j < n ==> Candidate(next, j) in out
    ensures Tries(next, out, k) == n
    decreases n - k
  {
    if k < n { TriesIs(next, out, k + 1, n); }
  }

  lemma TakesFree(next: nat, out: map<nat, OutPhase>)
    requires next <= LAST_ID && SomeFree(out)
    ensures var n := Tries(next, out, 1); 1 <= n <= LAST_ID && Candidate(next, n) !in out && IsId(Candidate(next, n))
  {
    var free :| IsId(free) && free !in out;
    var last := CandidateCovers(next, free);
    TriesFinds(next, out, 1, last);
  }

  // ----- where the counter is --------------------------------------------------------------------------------

  // The id the counter shows m turns after it showed pid.
  function Around(pid: nat, m: nat): nat
    requires pid >= 1
  {
    (pid - 1 + m) % LAST_ID + 1
  }

  lemma AroundMore(pid: nat, m: nat, n: nat)
    requires IsId(pid) && n >= 1
    ensures Candidate(Around(pid, m), n) == Around(pid, m + n)
  {
    var r, d := (pid - 1 + m) % LAST_ID, (pid - 1 + m) / LAST_ID;
    assert pid - 1 + m + n == (r + n) + LAST_ID * d;
    ModShift(r + n, d);
  }

  // The counter is back at an id exactly after a multiple of 65535 turns.
  lemma AroundIff(pid: nat, m: nat)
    requires IsId(pid)
    ensures Around(pid, m) == pid <==> m % LAST_ID == 0
  {
    var r, d := m % LAST_ID, m / LAST_ID;
    assert pid - 1 + m == (pid - 1 + r) + LAST_ID * d;
    ModShift(pid - 1 + r, d);
    if r > 0 && pid - 1 + r >= LAST_ID { ModShift(pid - 1 + r - LAST_ID, 1); }
  }

  predicate HeldAt(s: Ids, h: Held) { IsId(h.pid) && h.at <= s.moves && s.next == Around(h.pid, s.moves - h.at) }

  ghost predicate Placed(s: Ids) {
    s.next <= LAST_ID && forall p :: p in s.held ==> HeldAt(s, s.held[p])
  }

  // The counter moves on to the next free id, whoever draws it.
  lemma MovedOn(s: Ids, p: Publisher)
    requires Placed(s) && SomeFree(s.out) && p in s.held
    ensures var n := Tries(s.next, s.out, 1);
            HeldAt(s.(next := Candidate(s.next, n), moves := s.moves + n), s.held[p])
  {
    hide SomeFree, Tries, Candidate;
    TakesFree(s.next, s.out);
    assert HeldAt(s, s.held[p]);
    AroundMore(s.held[p].pid, s.moves - s.held[p].at, Tries(s.next, s.out, 1));
  }

  lemma NextPlaced(s: Ids, step: Step)
    requires Placed(s)
    ensures Placed(Next(s, step))
  {
    hide SomeFree, Tries, Candidate;
    if (step.Pass? || (step.Take? && step.p !in s.held)) && SomeFree(s.out) {
      TakesFree(s.next, s.out);
      var t := Next(s, step);
      forall p | p in t.held ensures HeldAt(t, t.held[p]) {
        if !(step.Take? && p == step.p) { MovedOn(s, p); }
      }
    }
  }

  lemma {:induction false} RunPlaced(steps: seq<Step>)
    ensures Placed(Run(steps))
  {
    hide Next, Placed;
    if steps == [] {
      FreshPlaced();
    } else {
      RunPlaced(steps[..|steps| - 1]);
      NextPlaced(Run(steps[..|steps| - 1]), steps[|steps| - 1]);
    }
  }

  lemma FreshPlaced()
    ensures Placed(FRESH)
  {
  }

  // ----- no id twice -------------------------------------------------------------------------------------------

  // No two publishers hold one id, and none holds an id in flight.
  ghost predicate Distinct(s: Ids) {
    && (forall p, q :: p in s.held && q in s.held && s.held[p].pid == s.held[q].pid ==> p == q)
    && (forall p :: p in s.held ==> s.held[p].pid !in s.out)
  }

  // The number of moves since h was taken, the next take's included, is a multiple of 65535.
  predicate Round(s: Ids, h: Held) { (s.moves + Tries(s.next, s.out, 1) - h.at) % LAST_ID == 0 }

  // The step draws an id.
  ghost predicate Draws(s: Ids, step: Step) { (step.Pass? || (step.Take? && step.p !in s.held)) && SomeFree(s.out) }

  // The step draws an id just when the counter has come all the way round to one that is still held.
  ghost predicate ComesRound(s: Ids, step: Step) { Draws(s, step) && exists p :: p in s.held && Round(s, s.held[p]) }

  // The next id drawn is that of publisher p exactly when the counter has come round for p.
  lemma SharesIff(s: Ids, p: Publisher)
    requires Placed(s) && p in s.held && SomeFree(s.out)
    ensures var n := Tries(s.next, s.out, 1);
            Candidate(s.next, n) == s.held[p].pid <==> Round(s, s.held[p])
  {
    hide SomeFree, Tries, Candidate, Around;
    TakesFree(s.next, s.out);
    var n := Tries(s.next, s.out, 1);
    assert HeldAt(s, s.held[p]);
    AroundMore(s.held[p].pid, s.moves - s.held[p].at, n);
    AroundIff(s.held[p].pid, s.moves - s.held[p].at + n);
  }

  lemma DistinctTake(s: Ids, p: Publisher)
    requires Placed(s) && Distinct(s) && p !in s.held && SomeFree(s.out)
    ensures Distinct(Next(s, Take(p))) <==> !ComesRound(s, Take(p))
  {
    hide SomeFree, Tries, Candidate, Around, IsId, HeldAt, Round;
    var t := Next(s, Take(p));
    TakesFree(s.next, s.out);
    forall q | q in s.held ensures t.held[p].pid == s.held[q].pid <==> Round(s, s.held[q]) { SharesIff(s, q); }
    if ComesRound(s, Take(p)) {
      var q :| q in s.held && Round(s, s.held[q]);
      assert t.held[q].pid == t.held[p].pid && p != q;
    }
  }

  lemma DistinctStep(s: Ids, step: Step)
    requires Placed(s) && Distinct(s)
    ensures Distinct(Next(s, step)) <==> !(step.Take? && ComesRound(s, step))
  {
    hide SomeFree, Tries, Candidate, Placed;
    if step.Take? && step.p !in s.held && SomeFree(s.out) { DistinctTake(s, step.p); }
  }

  // The id the step draws, if it draws one, is neither in flight nor held.
  ghost predicate DrawsFresh(s: Ids, step: Step) {
    Draws(s, step) ==>
      var id := Candidate(s.next, Tries(s.next, s.out, 1));
      IsId(id) && id !in s.out && forall p :: p in s.held ==> s.held[p].pid != id
  }

  lemma FreshStep(s: Ids, step: Step)
    requires Placed(s)
    ensures DrawsFresh(s, step) <==> !ComesRound(s, step)
  {
    hide SomeFree, Tries, Candidate, Around, HeldAt, Round;
    if Draws(s, step) {
      TakesFree(s.next, s.out);
      var id := Candidate(s.next, Tries(s.next, s.out, 1));
      forall p | p in s.held ensures id == s.held[p].pid <==> Round(s, s.held[p]) { SharesIff(s, p); }
    }
  }

  ghost predicate DistinctAt(steps: seq<Step>, i: nat)
    requires i <= |steps|
  {
    Distinct(Run(steps[..i]))
  }

  ghost predicate FreshAt(steps: seq<Step>, i: nat)
    requires i < |steps|
  {
    DrawsFresh(Run(steps[..i]), steps[i])
  }

  ghost predicate RoundAt(steps: seq<Step>, i: nat)
    requires i < |steps|
  {
    ComesRound(Run(steps[..i]), steps[i])
  }

  // In mixed traffic every id drawn is neither in flight nor held, at QoS 1 and at QoS 2, if and only if the counter never
  // comes round to an id still held.
  lemma FreshIff(steps: seq<Step>)
    ensures (forall i :: 0 <= i < |steps| ==> FreshAt(steps, i)) <==> (forall i :: 0 <= i < |steps| ==> !RoundAt(steps, i))
  {
    forall i | 0 <= i < |steps| ensures FreshAt(steps, i) <==> !RoundAt(steps, i) {
      hide Run, Placed, DrawsFresh, ComesRound;
      RunPlaced(steps[..i]);
      FreshStep(Run(steps[..i]), steps[i]);
    }
  }

  // And no two QoS 2 publishers ever hold one id, nor one in flight, if and only if it never does so for a QoS 2 publisher.
  lemma {:induction false} DistinctIff(steps: seq<Step>)
    ensures (forall i :: 0 <= i <= |steps| ==> DistinctAt(steps, i)) <==>
            (forall i :: 0 <= i < |steps| && steps[i].Take? ==> !RoundAt(steps, i))
  {
    hide Next, Placed, Distinct, ComesRound;
    assert steps[..|steps|] == steps;
    if steps == [] {
      FreshDistinct();
    } else {
      var front, step := steps[..|steps| - 1], steps[|steps| - 1];
      DistinctIff(front);
      RunPlaced(front);
      forall i | 0 <= i <= |front| ensures DistinctAt(steps, i) == DistinctAt(front, i) { assert steps[..i] == front[..i]; }
      forall i | 0 <= i < |front| ensures RoundAt(steps, i) == RoundAt(front, i) { assert steps[..i] == front[..i]; }
      assert front[..|front|] == front;
      assert DistinctAt(front, |front|) == Distinct(Run(front));
      assert DistinctAt(steps, |steps|) == Distinct(Run(steps));
      assert RoundAt(steps, |front|) == ComesRound(Run(front), step);
      if Distinct(Run(front)) { DistinctStep(Run(front), step); }
    }
  }

  lemma FreshDistinct()
    ensures Distinct(FRESH)
  {
  }

  // What the subscriber sees and answers: an id goes out when it is registered.
  ghost function Trace(steps: seq<Step>): seq<OutEvent> {
    if steps == [] then []
    else
      var front, step := steps[..|steps| - 1], steps[|steps| - 1];
      match step
      case Take(_) => Trace(front)
      case Pass => Trace(front)
      case Register(p) => if p in Run(front).held then Trace(front) + [Sent(Run(front).held[p].pid)] else Trace(front)
      case Heard(e) => if e.Sent? then Trace(front) else Trace(front) + [e]
  }

  lemma OutSnoc(t: seq<OutEvent>, e: OutEvent)
    ensures RunOut(t + [e]) == OnOut(RunOut(t), e)
    ensures Allocated(t) && (e.Sent? ==> e.pid !in RunOut(t)) ==> Allocated(t + [e])
  {
    var all := t + [e];
    assert all[..|t|] == t;
    if Allocated(t) && (e.Sent? ==> e.pid !in RunOut(t)) {
      forall i | 0 <= i < |all| && all[i].Sent? ensures all[i].pid !in RunOut(all[..i]) {
        if i < |t| { assert all[..i] == t[..i]; }
      }
    }
  }

  lemma {:induction false} TraceTells(steps: seq<Step>)
    requires forall i :: 0 <= i < |steps| && steps[i].Take? ==> !RoundAt(steps, i)
    ensures Run(steps).out == RunOut(Trace(steps)) && Allocated(Trace(steps))
  {
    hide SomeFree, Tries, Candidate, RoundAt, RunOut, Allocated, OnOut;
    if steps == [] {
      NothingOut();
    } else {
      var front, step := steps[..|steps| - 1], steps[|steps| - 1];
      forall i | 0 <= i < |front| && front[i].Take? ensures !RoundAt(front, i) { SameRound(steps, i); }
      TraceTells(front);
      DistinctIff(front);
      assert DistinctAt(front, |front|) && front[..|front|] == front;
      if step.Register? && step.p in Run(front).held {
        OutSnoc(Trace(front), Sent(Run(front).held[step.p].pid));
      } else if step.Heard? {
        OutSnoc(Trace(front), step.e);
      }
    }
  }

  lemma SameRound(steps: seq<Step>, i: nat)
    requires i < |steps| - 1
    ensures RoundAt(steps[..|steps| - 1], i) == RoundAt(steps, i)
  {
    assert steps[..|steps| - 1][..i] == steps[..i];
  }

  lemma NothingOut()
    ensures RunOut([]) == map[] && Allocated([])
  {
  }

  // Main theorem: with any number of publishers of either kind, if no QoS 2 publisher takes an id when the counter has come
  // round to it while it is held, then between two QoS 2 PUBLISHes that carry one id the id was freed.
  lemma NeverReused(steps: seq<Step>, i: nat, j: nat, pid: nat)
    requires forall k :: 0 <= k < |steps| && steps[k].Take? ==> !RoundAt(steps, k)
    requires var t := Trace(steps); i < j < |t| && t[i] == Sent(pid) && t[j] == Sent(pid)
    ensures exists k :: i < k < j && Frees(Trace(steps)[k], pid)
  {
    hide RoundAt, Trace, Allocated;
    TraceTells(steps);
    NeverReusedInFlight(Trace(steps), i, j, pid);
  }

  // ----- and when it does come round ----------------------------------------------------------------------------

  function Filled(k: nat): map<nat, OutPhase> { if k == 0 then map[] else Filled(k - 1)[k := WaitPubrec] }

  lemma {:induction false} FilledIs(k: nat, id: nat)
    ensures id in Filled(k) <==> 1 <= id <= k
  {
    if k > 0 { FilledIs(k - 1, id); }
  }

  lemma {:induction false} Fill(k: nat) returns (steps: seq<Step>)
    requires k < LAST_ID
    ensures Run(steps) == Ids(k, k, Filled(k), map[])
  {
    hide Run;
    if k == 0 {
      steps := [];
      NothingRun();
    } else {
      steps := Fill(k - 1);
      FilledIs(k - 1, k);
      assert IsId(k) && k !in Filled(k - 1);
      assert Candidate(k - 1, 1) == k;
      TriesIs(k - 1, Filled(k - 1), 1, 1);
      RunSnoc(steps, Take(0));
      steps := steps + [Take(0)];
      assert Run(steps) == Ids(k, k, Filled(k - 1), map[0 := Held(k, k)]);
      RunSnoc(steps, Register(0));
      steps := steps + [Register(0)];
      assert map[0 := Held(k, k)] - {0} == map[];
    }
  }

  lemma NothingRun()
    ensures Run([]) == FRESH
  {
  }

  lemma LastFree(out: map<nat, OutPhase>)
    requires forall id: nat :: id in out <==> 1 <= id < LAST_ID
    ensures Tries(LAST_ID - 1, out, 1) == 1 && Candidate(LAST_ID - 1, 1) == LAST_ID
    ensures Tries(LAST_ID, out, 1) == LAST_ID && Candidate(LAST_ID, LAST_ID) == LAST_ID
    ensures SomeFree(out)
  {
    assert IsId(LAST_ID);
    TriesIs(LAST_ID - 1, out, 1, 1);
    forall j | 1 <= j < LAST_ID ensures Candidate(LAST_ID, j) in out { ModShift(j - 1, 1); }
    ModShift(LAST_ID - 1, 1);
    TriesIs(LAST_ID, out, 1, LAST_ID);
  }

  // With 65534 ids in flight, the last free one goes to two publishers.
  lemma RoundShares() returns (steps: seq<Step>)
    ensures var held := Run(steps).held; 0 in held && 1 in held && held[0].pid == held[1].pid
  {
    hide Run, Filled, Tries, Candidate, SomeFree;
    var out := Filled(LAST_ID - 1);
    steps := Fill(LAST_ID - 1);
    forall id: nat ensures id in out <==> 1 <= id < LAST_ID { FilledIs(LAST_ID - 1, id); }
    LastFree(out);
    RunSnoc(steps, Take(0));
    steps := steps + [Take(0)];
    assert Run(steps) == Ids(LAST_ID, LAST_ID, out, map[0 := Held(LAST_ID, LAST_ID)]);
    RunSnoc(steps, Take(1));
    steps := steps + [Take(1)];
  }
}
