// Replicas sharing one delivery queue (processDeliveries in internal/server/server.go over the claims of
// internal/queue/postgres.go): a replica claims, waits for a worker slot, delivers and settles; any replica may crash
// at any moment.
module Claims {
  import opened Wrappers
  import T = ClaimTable

  type Id = T.Id

  type Replica = T.Replica

  type Claim = T.Claim

  // A held claim: taken at `claimed`; delivery running since `started`.
  datatype Run = Run(claimed: nat, started: nat)

  datatype Wait = Wait(id: Id, claimed: nat)

  // The dispatcher waits for a slot with at most one claim in hand; `running` are the occupied slots.
  datatype Node = Node(waiting: Option<Wait>, running: map<Id, Run>)

  datatype Config = Config(slots: nat, timeout: nat, lease: nat)

  // `rows` is the table: a row's claimed_by and claimed_at, or none.
  datatype Cluster = Cluster(now: nat, rows: T.Rows, nodes: map<Replica, Node>)

  datatype Outcome = Deleted | Requeued | Untouched

  datatype Step =
    | Tick
    | TryClaim(r: Replica, id: Id)
    | Begin(r: Replica)
    | Settle(r: Replica, id: Id, how: Outcome)
    | Crash(r: Replica)
    | Insert(id: Id)

  const START := Cluster(0, map[], map[])

  const IDLE := Node(None, map[])

  function NodeOf(s: Cluster, r: Replica): Node { if r in s.nodes then s.nodes[r] else IDLE }

  predicate Holds(s: Cluster, r: Replica, id: Id) {
    id in NodeOf(s, r).running || (NodeOf(s, r).waiting.Some? && NodeOf(s, r).waiting.value.id == id)
  }

  predicate Claimable(c: Config, s: Cluster, id: Id) { T.Claimable(s.rows, id, s.now, c.lease) }

  // Time passes only while every running delivery is within its timeout, and no node sits on a claim with a
  // slot free.
  ghost predicate CanTick(c: Config, s: Cluster) {
    forall r :: r in s.nodes ==>
      && (forall id :: id in s.nodes[r].running ==> s.now + 1 <= s.nodes[r].running[id].started + c.timeout)
      && (s.nodes[r].waiting.Some? ==> |s.nodes[r].running| >= c.slots)
  }

  ghost predicate Unheld(s: Cluster, id: Id) { forall r :: r in s.nodes ==> !Holds(s, r, id) }

  ghost function Next(c: Config, s: Cluster, step: Step): Cluster {
    match step
    case Tick => if CanTick(c, s) then s.(now := s.now + 1) else s
    case TryClaim(r, id) =>
      var n := NodeOf(s, r);
      if n.waiting.Some? || !Claimable(c, s, id) then s
      // Already in flight here: give the claim back.
      else if id in n.running then s.(rows := s.rows[id := None])
      else s.(rows := s.rows[id := Some(T.Claim(r, s.now))], nodes := s.nodes[r := n.(waiting := Some(Wait(id, s.now)))])
    case Begin(r) =>
      var n := NodeOf(s, r);
      if n.waiting.None? || |n.running| >= c.slots then s
      else s.(nodes := s.nodes[r := Node(None, n.running[n.waiting.value.id := Run(n.waiting.value.claimed, s.now)])])
    case Settle(r, id, how) =>
      var n := NodeOf(s, r);
      if id !in n.running then s
      else
        s.(rows := (match how
                    case Deleted => s.rows - {id}
                    case Requeued => s.rows[id := None]
                    case Untouched => s.rows),
           nodes := s.nodes[r := n.(running := n.running - {id})])
    case Crash(r) => s.(nodes := s.nodes[r := IDLE])
    // A Put from outside clears any claim, whoever holds it.
    case Insert(id) => s.(rows := s.rows[id := None])
  }

  ghost function RunAll(c: Config, steps: seq<Step>): Cluster {
    if steps == [] then START else Next(c, RunAll(c, steps[..|steps| - 1]), steps[|steps| - 1])
  }

  // Node r's own bookkeeping is in time: it has waited at most one timeout for a slot, and each running
  // delivery began at most one timeout after its claim and ends within another.
  ghost predicate InTime(c: Config, now: nat, n: Node) {
    && (forall id :: id in n.running ==>
          var u := n.running[id];
          u.claimed <= u.started <= now && u.started <= u.claimed + c.timeout && now <= u.started + c.timeout)
    && (n.waiting.Some? ==>
          && n.waiting.value.claimed <= now <= n.waiting.value.claimed + c.timeout
          && n.waiting.value.id !in n.running
          && forall id :: id in n.running ==> n.running[id].started <= n.waiting.value.claimed)
  }

  // The row of everything node r holds is claimed by r, since then.
  ghost predicate Owned(rows: T.Rows, r: Replica, n: Node) {
    && (forall id :: id in n.running ==> id in rows && rows[id] == Some(T.Claim(r, n.running[id].claimed)))
    && (n.waiting.Some? ==> n.waiting.value.id in rows
                            && rows[n.waiting.value.id] == Some(T.Claim(r, n.waiting.value.claimed)))
  }

  ghost predicate Inv(c: Config, s: Cluster) {
    forall r :: r in s.nodes ==> InTime(c, s.now, s.nodes[r]) && Owned(s.rows, r, s.nodes[r])
  }

  // Whatever is held has a claim younger than the lease, so nobody can take it.
  lemma HeldIsSafe(c: Config, s: Cluster, r: Replica, id: Id)
    requires Inv(c, s) && 2 * c.timeout <= c.lease && Holds(s, r, id)
    ensures !Claimable(c, s, id)
  {
    assert r in s.nodes;
  }

  lemma TickKeeps(c: Config, s: Cluster)
    requires Inv(c, s) && c.slots >= 1 && CanTick(c, s)
    ensures Inv(c, s.(now := s.now + 1))
  {
    forall r | r in s.nodes ensures InTime(c, s.now + 1, s.nodes[r]) && Owned(s.rows, r, s.nodes[r]) {
      var n := s.nodes[r];
      if n.waiting.Some? {
        assert |n.running| > 0;
        var id :| id in n.running;
      }
    }
  }

  lemma OthersKeep(c: Config, s: Cluster, rows': T.Rows, id: Id, r: Replica)
    requires Inv(c, s) && r in s.nodes && !Holds(s, r, id)
    requires forall k :: k != id ==> (k in rows' <==> k in s.rows) && (k in s.rows ==> rows'[k] == s.rows[k])
    ensures Owned(rows', r, s.nodes[r])
  {
  }

  lemma TryClaimKeeps(c: Config, s: Cluster, r: Replica, id: Id)
    requires Inv(c, s) && 2 * c.timeout <= c.lease
    ensures Inv(c, Next(c, s, TryClaim(r, id)))
  {
    var t := Next(c, s, TryClaim(r, id));
    if NodeOf(s, r).waiting.None? && Claimable(c, s, id) {
      forall q | q in s.nodes ensures !Holds(s, q, id) { if Holds(s, q, id) { HeldIsSafe(c, s, q, id); } }
      assert id !in NodeOf(s, r).running;
      forall q | q in t.nodes ensures InTime(c, t.now, t.nodes[q]) && Owned(t.rows, q, t.nodes[q]) {
        if q in s.nodes { OthersKeep(c, s, t.rows, id, q); }
      }
    }
  }

  lemma HolderUnique(c: Config, s: Cluster, r: Replica, q: Replica, id: Id)
    requires Inv(c, s) && Holds(s, r, id) && Holds(s, q, id)
    ensures r == q
  {
    assert r in s.nodes && q in s.nodes;
  }

  lemma SettleKeeps(c: Config, s: Cluster, r: Replica, id: Id, how: Outcome)
    requires Inv(c, s)
    ensures Inv(c, Next(c, s, Settle(r, id, how)))
  {
    var t := Next(c, s, Settle(r, id, how));
    if id in NodeOf(s, r).running {
      assert Holds(s, r, id);
      forall q | q in t.nodes ensures InTime(c, t.now, t.nodes[q]) && Owned(t.rows, q, t.nodes[q]) {
        if q != r {
          if Holds(s, q, id) { HolderUnique(c, s, r, q, id); }
          OthersKeep(c, s, t.rows, id, q);
        }
      }
    }
  }

  lemma StepKeeps(c: Config, s: Cluster, step: Step)
    requires Inv(c, s) && c.slots >= 1 && 2 * c.timeout <= c.lease && (step.Insert? ==> Unheld(s, step.id))
    ensures Inv(c, Next(c, s, step))
  {
    match step
    case Tick => if CanTick(c, s) { TickKeeps(c, s); }
    case TryClaim(r, id) => TryClaimKeeps(c, s, r, id);
    case Begin(r) => BeginKeeps(c, s, r);
    case Settle(r, id, how) => SettleKeeps(c, s, r, id, how);
    case Crash(r) =>
    case Insert(id) => InsertKeeps(c, s, id);
  }

  lemma BeginKeeps(c: Config, s: Cluster, r: Replica)
    requires Inv(c, s)
    ensures Inv(c, Next(c, s, Begin(r)))
  {
    var n, t := NodeOf(s, r), Next(c, s, Begin(r));
    if n.waiting.Some? && |n.running| < c.slots {
      BeginNode(c, s.now, s.rows, r, n);
      forall q | q in t.nodes ensures InTime(c, t.now, t.nodes[q]) && Owned(t.rows, q, t.nodes[q]) {
        if q != r { assert t.nodes[q] == s.nodes[q]; }
      }
    }
  }

  lemma BeginNode(c: Config, now: nat, rows: T.Rows, r: Replica, n: Node)
    requires InTime(c, now, n) && Owned(rows, r, n) && n.waiting.Some?
    ensures var n' := Node(None, n.running[n.waiting.value.id := Run(n.waiting.value.claimed, now)]);
            InTime(c, now, n') && Owned(rows, r, n')
  {
  }

  lemma InsertKeeps(c: Config, s: Cluster, id: Id)
    requires Inv(c, s) && Unheld(s, id)
    ensures Inv(c, Next(c, s, Insert(id)))
  {
    var t := Next(c, s, Insert(id));
    forall q | q in t.nodes ensures InTime(c, t.now, t.nodes[q]) && Owned(t.rows, q, t.nodes[q]) {
      OthersKeep(c, s, t.rows, id, q);
    }
  }

  // No Put from outside hits an id while a replica holds it.
  ghost predicate NoHeldPut(c: Config, steps: seq<Step>) {
    steps == [] ||
    (var front, step := steps[..|steps| - 1], steps[|steps| - 1];
     NoHeldPut(c, front) && (step.Insert? ==> Unheld(RunAll(c, front), step.id)))
  }

  lemma {:induction false} Reachable(c: Config, steps: seq<Step>)
    requires c.slots >= 1 && 2 * c.timeout <= c.lease && NoHeldPut(c, steps)
    ensures Inv(c, RunAll(c, steps))
  {
    if steps != [] {
      Reachable(c, steps[..|steps| - 1]);
      StepKeeps(c, RunAll(c, steps[..|steps| - 1]), steps[|steps| - 1]);
    }
  }

  // Main theorem: with any number of replicas and crashes, if the lease is at least twice the largest delivery
  // timeout and no Put hits a held id, no id is ever held by two replicas, and claim to settle takes at most two
  // timeouts.
  lemma MutualExclusion(c: Config, steps: seq<Step>, r: Replica, q: Replica, id: Id)
    requires c.slots >= 1 && 2 * c.timeout <= c.lease && NoHeldPut(c, steps)
    requires Holds(RunAll(c, steps), r, id) && Holds(RunAll(c, steps), q, id)
    ensures r == q
    ensures var s := RunAll(c, steps); id in s.rows && s.rows[id].Some? && s.now <= s.rows[id].value.at + 2 * c.timeout
  {
    Reachable(c, steps);
    HolderUnique(c, RunAll(c, steps), r, q, id);
  }

  // The condition on Puts is exact: at any state the protocol keeps, a Put leaves the held ids safe from every other
  // replica if and only if nobody holds its id.
  lemma HeldPutIff(c: Config, s: Cluster, id: Id)
    requires Inv(c, s) && 2 * c.timeout <= c.lease
    ensures var t := Next(c, s, Insert(id));
            (forall r, x :: Holds(t, r, x) ==> !Claimable(c, t, x)) <==> Unheld(s, id)
  {
    var t := Next(c, s, Insert(id));
    if Unheld(s, id) {
      InsertKeeps(c, s, id);
      forall r, x | Holds(t, r, x) ensures !Claimable(c, t, x) { HeldIsSafe(c, t, r, x); }
    } else {
      var r :| r in s.nodes && Holds(s, r, id);
      assert Holds(t, r, id) && Claimable(c, t, id);
    }
  }

  // However long the lease, a Put that hits a held id lets a second replica claim it.
  lemma HeldPutShares(c: Config)
    ensures var steps := [Insert(1), TryClaim(0, 1), Insert(1), TryClaim(1, 1)];
            Holds(RunAll(c, steps), 0, 1) && Holds(RunAll(c, steps), 1, 1)
  {
    hide RunAll, Next, Holds;
    NoSteps(c);
    Extend(c, [], Insert(1));
    Extend(c, [Insert(1)], TryClaim(0, 1));
    Extend(c, [Insert(1), TryClaim(0, 1)], Insert(1));
    Extend(c, [Insert(1), TryClaim(0, 1), Insert(1)], TryClaim(1, 1));
    assert [] + [Insert(1)] == [Insert(1)];
    assert [Insert(1)] + [TryClaim(0, 1)] == [Insert(1), TryClaim(0, 1)];
    assert [Insert(1), TryClaim(0, 1)] + [Insert(1)] == [Insert(1), TryClaim(0, 1), Insert(1)];
    assert [Insert(1), TryClaim(0, 1), Insert(1)] + [TryClaim(1, 1)] == [Insert(1), TryClaim(0, 1), Insert(1), TryClaim(1, 1)];
    PutBetween(c);
  }

  lemma PutBetween(c: Config)
    ensures var s := Next(c, Next(c, START, Insert(1)), TryClaim(0, 1));
            var t := Next(c, Next(c, s, Insert(1)), TryClaim(1, 1));
            Holds(t, 0, 1) && Holds(t, 1, 1)
  {
    var s := Next(c, Next(c, START, Insert(1)), TryClaim(0, 1));
    assert s.nodes == map[0 := Node(Some(Wait(1, 0)), map[])];
    assert Claimable(c, Next(c, s, Insert(1)), 1);
  }

  // ----- twice the timeout is the least safe lease ----------------------------------------------------------

  lemma Extend(c: Config, steps: seq<Step>, step: Step)
    ensures RunAll(c, steps + [step]) == Next(c, RunAll(c, steps), step)
    ensures NoHeldPut(c, steps) && (step.Insert? ==> Unheld(RunAll(c, steps), step.id)) ==> NoHeldPut(c, steps + [step])
  {
    assert (steps + [step])[..|steps|] == steps;
  }

  // Let time pass while one node holds everything and stays in time.
  lemma {:induction false} Wait1(c: Config, steps: seq<Step>, n: nat) returns (out: seq<Step>)
    requires NoHeldPut(c, steps)
    requires var s := RunAll(c, steps);
             && s.nodes.Keys == {0}
             && (s.nodes[0].waiting.Some? ==> |s.nodes[0].running| >= c.slots)
             && forall id :: id in s.nodes[0].running ==> s.now + n <= s.nodes[0].running[id].started + c.timeout
    ensures NoHeldPut(c, out) && RunAll(c, out) == RunAll(c, steps).(now := RunAll(c, steps).now + n)
    decreases n
  {
    hide RunAll, NoHeldPut;
    out := steps;
    if n > 0 {
      Extend(c, steps, Tick);
      out := Wait1(c, steps + [Tick], n - 1);
    }
  }

  // Ids 1 to k running since time 0, and their rows.
  function Busy(k: nat): map<Id, Run> { if k == 0 then map[] else Busy(k - 1)[k := Run(0, 0)] }

  function Taken(k: nat): T.Rows { if k == 0 then map[] else Taken(k - 1)[k := Some(T.Claim(0, 0))] }

  lemma {:induction false} BusyIs(k: nat)
    ensures (forall id :: id in Busy(k) ==> id <= k && Busy(k)[id].started == 0) && |Busy(k)| == k
  {
    if k > 0 { BusyIs(k - 1); }
  }

  // Node 0 alone, with k slots occupied at time 0.
  ghost predicate Filled(s: Cluster, k: nat) {
    s.now == 0 && s.rows == Taken(k) && s.nodes.Keys <= {0} && NodeOf(s, 0) == Node(None, Busy(k))
  }

  lemma {:induction false} Fill(c: Config, k: nat) returns (steps: seq<Step>)
    requires k <= c.slots
    ensures NoHeldPut(c, steps) && Filled(RunAll(c, steps), k)
  {
    hide RunAll, NoHeldPut;
    if k == 0 {
      steps := [];
      NoSteps(c);
      assert Busy(0) == map[] && Taken(0) == map[];
    } else {
      steps := Fill(c, k - 1);
      BusyIs(k - 1);
      steps := TakeNext(c, steps, k);
      Extend(c, steps, Begin(0));
      steps := steps + [Begin(0)];
      assert Busy(k) == Busy(k - 1)[k := Run(0, 0)];
    }
  }

  lemma NoSteps(c: Config)
    ensures RunAll(c, []) == START && NoHeldPut(c, [])
  {
  }

  // Node 0 takes one more claim.
  lemma TakeNext(c: Config, before: seq<Step>, k: nat) returns (steps: seq<Step>)
    requires k >= 1 && NoHeldPut(c, before) && Filled(RunAll(c, before), k - 1)
    ensures NoHeldPut(c, steps)
    ensures RunAll(c, steps) == Cluster(0, Taken(k), map[0 := Node(Some(Wait(k, 0)), Busy(k - 1))])
    ensures k in Taken(k) && Taken(k)[k] == Some(T.Claim(0, 0))
  {
    hide RunAll, NoHeldPut;
    BusyIs(k - 1);
    Extend(c, before, Insert(k));
    steps := before + [Insert(k)];
    assert RunAll(c, steps).rows == Taken(k - 1)[k := None];
    Extend(c, steps, TryClaim(0, k));
    steps := steps + [TryClaim(0, k)];
    assert Taken(k) == Taken(k - 1)[k := None][k := Some(T.Claim(0, 0))];
    var s := RunAll(c, steps);
    assert s.nodes == map[0 := Node(Some(Wait(k, 0)), Busy(k - 1))];
  }

  // Everything node 0 runs is delivered.
  lemma {:induction false} Drain(c: Config, before: seq<Step>, k: nat, wait: Wait, at: Claim) returns (steps: seq<Step>)
    requires var s := RunAll(c, before);
             && NoHeldPut(c, before) && s.nodes == map[0 := Node(Some(wait), Busy(k))]
             && wait.id > k && wait.id in s.rows && s.rows[wait.id] == Some(at)
    ensures var s, t := RunAll(c, before), RunAll(c, steps);
            && NoHeldPut(c, steps) && t.nodes == map[0 := Node(Some(wait), map[])] && t.now == s.now
            && wait.id in t.rows && t.rows[wait.id] == Some(at)
    decreases k
  {
    hide RunAll, NoHeldPut;
    if k == 0 {
      steps := before;
      assert Busy(0) == map[];
    } else {
      BusyIs(k - 1);
      Extend(c, before, Settle(0, k, Deleted));
      assert Busy(k) - {k} == Busy(k - 1);
      steps := Drain(c, before + [Settle(0, k, Deleted)], k - 1, wait, at);
    }
  }

  // With any number of worker slots and any shorter lease, some run has two replicas on one id: all slots fill up at
  // time 0, one more claim waits for a whole timeout and is then delivered for another.
  lemma ShorterLeaseFails(c: Config) returns (steps: seq<Step>)
    requires c.slots >= 1 && c.timeout >= 1 && c.lease < 2 * c.timeout
    ensures NoHeldPut(c, steps) && Holds(RunAll(c, steps), 0, c.slots + 1) && Holds(RunAll(c, steps), 1, c.slots + 1)
  {
    hide RunAll, NoHeldPut, Busy, Taken, Holds;
    var id := c.slots + 1;
    BusyIs(c.slots);
    steps := Fill(c, c.slots);
    steps := TakeNext(c, steps, id);
    steps := Wait1(c, steps, c.timeout);
    steps := Drain(c, steps, c.slots, Wait(id, 0), T.Claim(0, 0));
    Extend(c, steps, Begin(0));
    steps := steps + [Begin(0)];
    assert RunAll(c, steps).nodes == map[0 := Node(None, map[][id := Run(0, c.timeout)])];
    steps := Steal(c, steps, id);
  }

  // A claim taken at time 0 and running since the first timeout can be stolen before the second is over.
  lemma Steal(c: Config, before: seq<Step>, id: Id) returns (steps: seq<Step>)
    requires c.timeout >= 1 && c.lease < 2 * c.timeout && NoHeldPut(c, before)
    requires var s := RunAll(c, before);
             && s.now == c.timeout && id in s.rows && s.rows[id] == Some(T.Claim(0, 0))
             && s.nodes == map[0 := Node(None, map[id := Run(0, c.timeout)])]
    ensures NoHeldPut(c, steps) && Holds(RunAll(c, steps), 0, id) && Holds(RunAll(c, steps), 1, id)
  {
    hide RunAll, NoHeldPut;
    steps := before;
    steps := Wait1(c, steps, if c.lease < c.timeout then 0 else c.lease + 1 - c.timeout);
    Extend(c, steps, TryClaim(1, id));
    steps := steps + [TryClaim(1, id)];
  }

  ghost predicate Exclusive(c: Config, steps: seq<Step>) {
    forall r, q, id :: Holds(RunAll(c, steps), r, id) && Holds(RunAll(c, steps), q, id) ==> r == q
  }

  // So the least lease that works is exactly twice the timeout.
  lemma LeaseIff(c: Config)
    requires c.slots >= 1 && c.timeout >= 1
    ensures (forall steps :: NoHeldPut(c, steps) ==> Exclusive(c, steps)) <==> 2 * c.timeout <= c.lease
  {
    hide RunAll, NoHeldPut, Holds;
    if 2 * c.timeout <= c.lease {
      forall steps | NoHeldPut(c, steps) ensures Exclusive(c, steps) {
        forall r, q, id | Holds(RunAll(c, steps), r, id) && Holds(RunAll(c, steps), q, id) ensures r == q {
          MutualExclusion(c, steps, r, q, id);
        }
      }
    } else {
      var steps := ShorterLeaseFails(c);
      assert !Exclusive(c, steps);
    }
  }

  // No node ever runs more deliveries than it has slots.
  lemma {:induction false} SlotsKept(c: Config, steps: seq<Step>, r: Replica)
    ensures |NodeOf(RunAll(c, steps), r).running| <= c.slots
  {
    if steps != [] {
      SlotsKept(c, steps[..|steps| - 1], r);
      SlotStep(c, RunAll(c, steps[..|steps| - 1]), steps[|steps| - 1], r);
    }
  }

  lemma SlotStep(c: Config, s: Cluster, step: Step, r: Replica)
    requires |NodeOf(s, r).running| <= c.slots
    ensures |NodeOf(Next(c, s, step), r).running| <= c.slots
  {
    hide CanTick, Claimable;
    if step.Begin? {
      BeginSlots(c, s, step.r, r);
    } else if step.Settle? {
      SettleSlots(c, s, step.r, step.id, step.how, r);
    }
  }

  lemma BeginSlots(c: Config, s: Cluster, q: Replica, r: Replica)
    requires |NodeOf(s, r).running| <= c.slots
    ensures |NodeOf(Next(c, s, Begin(q)), r).running| <= c.slots
  {
    var n := NodeOf(s, q);
    if n.waiting.Some? { Grows(n.running, n.waiting.value.id, Run(n.waiting.value.claimed, s.now)); }
  }

  lemma SettleSlots(c: Config, s: Cluster, q: Replica, id: Id, how: Outcome, r: Replica)
    requires |NodeOf(s, r).running| <= c.slots
    ensures |NodeOf(Next(c, s, Settle(q, id, how)), r).running| <= c.slots
  {
    Shrinks(NodeOf(s, q).running, id);
  }

  lemma Grows(m: map<Id, Run>, id: Id, u: Run)
    ensures |m[id := u]| <= |m| + 1
  {
    assert m[id := u].Keys == m.Keys + {id};
  }

  lemma Shrinks(m: map<Id, Run>, id: Id)
    ensures |m - {id}| <= |m|
  {
    assert (m - {id}).Keys == m.Keys - {id};
    assert m.Keys - {id} <= m.Keys;
    if id in m.Keys { assert m.Keys == (m.Keys - {id}) + {id}; }
  }

  // ----- what a settlement leaves -----------------------------------------------------------------------------

  ghost function Onward(c: Config, s: Cluster, steps: seq<Step>): Cluster {
    if steps == [] then s else Next(c, Onward(c, s, steps[..|steps| - 1]), steps[|steps| - 1])
  }

  // A step that puts the id's row: an insert, or a settlement that requeues it.
  predicate Puts(step: Step, id: Id) { step == Insert(id) || (step.Settle? && step.id == id && step.how.Requeued?) }

  lemma {:induction false} GoneStays(c: Config, s: Cluster, id: Id, later: seq<Step>)
    requires id !in s.rows && forall i :: 0 <= i < |later| ==> !Puts(later[i], id)
    ensures id !in Onward(c, s, later).rows
  {
    if later != [] {
      assert !Puts(later[|later| - 1], id);
      GoneStays(c, s, id, later[..|later| - 1]);
    }
  }

  // The row still shows the claim taken at `at`, or the lease on it has run out.
  ghost predicate LeasedSince(c: Config, s: Cluster, id: Id, at: nat) {
    && id in s.rows && (at + c.lease < s.now || (s.rows[id].Some? && s.rows[id].value.at == at))
  }

  predicate Writes(step: Step, id: Id) { step == Insert(id) || (step.Settle? && step.id == id) }

  // Nobody puts or settles the id; nobody tries to claim it.
  ghost predicate LeftAlone(steps: seq<Step>, id: Id) { forall i :: 0 <= i < |steps| ==> !Writes(steps[i], id) }

  ghost predicate Untried(steps: seq<Step>, id: Id) { forall i :: 0 <= i < |steps| ==> !(steps[i].TryClaim? && steps[i].id == id) }

  lemma LeaseStep(c: Config, s: Cluster, id: Id, at: nat, step: Step)
    requires LeasedSince(c, s, id, at) && !Writes(step, id)
    ensures LeasedSince(c, Next(c, s, step), id, at) && Next(c, s, step).now >= s.now
    ensures !(step.TryClaim? && step.id == id) ==> id in Next(c, s, step).rows && Next(c, s, step).rows[id] == s.rows[id]
  {
  }

  lemma {:induction false} LeaseStays(c: Config, s: Cluster, id: Id, at: nat, later: seq<Step>)
    requires id in s.rows && s.rows[id].Some? && s.rows[id].value.at == at
    requires LeftAlone(later, id)
    ensures LeasedSince(c, Onward(c, s, later), id, at)
    ensures Untried(later, id) ==> id in Onward(c, s, later).rows && Onward(c, s, later).rows[id] == s.rows[id]
  {
    hide Next, Writes;
    if later != [] {
      var front, last := later[..|later| - 1], later[|later| - 1];
      LeaseStays(c, s, id, at, front);
      LeaseStep(c, Onward(c, s, front), id, at, last);
    }
  }

  // After a delivery that settled as deleted nobody claims its id until it is put again; after one that was requeued
  // anybody can at once; after one that could not be settled nobody can within the lease, and anybody can after it.
  lemma SettleDecides(c: Config, front: seq<Step>, r: Replica, id: Id, how: Outcome, later: seq<Step>)
    requires c.slots >= 1 && 2 * c.timeout <= c.lease && NoHeldPut(c, front)
    requires id in NodeOf(RunAll(c, front), r).running
    ensures var s := Next(c, RunAll(c, front), Settle(r, id, how));
            var at, t := NodeOf(RunAll(c, front), r).running[id].claimed, Onward(c, s, later);
            && !Holds(s, r, id)
            && (how.Deleted? && (forall i :: 0 <= i < |later| ==> !Puts(later[i], id)) ==> !Claimable(c, t, id))
            && (how.Requeued? ==> Claimable(c, s, id))
            && (how.Untouched? && LeftAlone(later, id) && t.now <= at + c.lease ==> !Claimable(c, t, id))
            && (how.Untouched? && LeftAlone(later, id) && Untried(later, id) && t.now > at + c.lease ==> Claimable(c, t, id))
  {
    Reachable(c, front);
    var s0 := RunAll(c, front);
    assert r in s0.nodes;
    assert Owned(s0.rows, r, s0.nodes[r]) && InTime(c, s0.now, s0.nodes[r]);
    var s, at := Next(c, s0, Settle(r, id, how)), s0.nodes[r].running[id].claimed;
    hide RunAll, Inv, InTime, CanTick;
    if how.Deleted? && (forall i :: 0 <= i < |later| ==> !Puts(later[i], id)) { GoneStays(c, s, id, later); }
    if how.Untouched? && LeftAlone(later, id) { LeaseStays(c, s, id, at, later); }
  }

  // ----- one replica's use of the table -----------------------------------------------------------------------

  // One turn of the dispatch loop for a listed id, in any cluster this table is part of: claim, and give the claim
  // back if the id is in flight here already. It does what the protocol's step does.
  method Dispatch(c: Config, table: T.Table, r: Replica, inflight: set<Id>, id: Id, ghost s: Cluster) returns (got: bool)
    requires table.Valid() && table.rows == s.rows && table.now == s.now && table.lease == c.lease
    requires NodeOf(s, r).waiting.None? && NodeOf(s, r).running.Keys == inflight
    modifies table`rows, table`ops
    ensures var t := Next(c, s, TryClaim(r, id));
            && table.Valid() && table.rows == t.rows
            && (got <==> NodeOf(t, r).waiting == Some(Wait(id, s.now)))
            && (got ==> id !in inflight)
    ensures id in inflight && T.Claimable(s.rows, id, s.now, c.lease) ==> table.rows == s.rows[id := None]
  {
    hide T.After, T.Elapsed, T.Listed, T.Guarded;
    got := table.TryClaim(id, r);
    if got && id in inflight {
      table.ReleaseClaim(id);
      got := false;
    }
  }
}
