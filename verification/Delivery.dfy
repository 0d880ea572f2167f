// Delivery workers, the dead-letter queue and its replay (internal/server/server.go): every queue call is one
// atomic step, and any number of workers, replays and administrators interleave and crash.
module Delivery {

  // Delivery ids are only compared.
  type Id = nat

  datatype Record = Record(attempts: nat, maxAttempts: nat)

  datatype WorkerPhase =
    | Sending(d: Record)  // deliver in progress
    | Acking              // delivered; the queued record is still to be deleted
    | Burying             // dead letter written; the queued record is still to be deleted

  datatype Worker = Worker(id: Id, phase: WorkerPhase)

  datatype ReplayPhase =
    | Requeueing(d: Record)  // dead letter read; to be put back on the queue
    | Unburying              // put back; the dead letter is still to be deleted

  datatype Replayer = Replayer(id: Id, phase: ReplayPhase)

  // The two queues, what is in progress, and the history: ids ever put, delivered, deleted by an administrator.
  datatype Plane = Plane(queue: map<Id, Record>, dlq: map<Id, Record>,
                         workers: map<nat, Worker>, replays: map<nat, Replayer>,
                         known: set<Id>, delivered: set<Id>, removed: set<Id>)

  const START := Plane(map[], map[], map[], map[], {}, {}, {})

  // `ok` is whether the queue call succeeds (a full or failing queue leaves everything as it was).
  datatype Step =
    | Ingest(id: Id, d: Record)
    | Pick(w: nat, id: Id, d: Record)
    | Succeed(w: nat)
    | Fail(w: nat, ok: bool)
    | Settle(w: nat, ok: bool)
    | WorkerDies(w: nat)
    | ReplayReads(r: nat, id: Id)
    | ReplayPuts(r: nat, ok: bool)
    | ReplayDeletes(r: nat, ok: bool)
    | ReplayDies(r: nat)
    | AdminDeletes(id: Id)

  function Next(s: Plane, step: Step): Plane {
    match step
    case Ingest(id, d) => s.(queue := s.queue[id := d], known := s.known + {id})
    case Pick(w, id, d) =>
      // The record may come from a stale listing.
      if w in s.workers || id !in s.known then s else s.(workers := s.workers[w := Worker(id, Sending(d))])
    case Succeed(w) =>
      if w !in s.workers || !s.workers[w].phase.Sending? then s
      else s.(workers := s.workers[w := Worker(s.workers[w].id, Acking)], delivered := s.delivered + {s.workers[w].id})
    case Fail(w, ok) =>
      if w !in s.workers || !s.workers[w].phase.Sending? then s
      else
        var id := s.workers[w].id;
        var d := s.workers[w].phase.d.(attempts := s.workers[w].phase.d.attempts + 1);
        if !ok then s.(workers := s.workers - {w})
        else if d.attempts >= d.maxAttempts
        then s.(dlq := s.dlq[id := d], workers := s.workers[w := Worker(id, Burying)])
        else s.(queue := s.queue[id := d], workers := s.workers - {w})
    case Settle(w, ok) =>
      if w !in s.workers || s.workers[w].phase.Sending? then s
      else s.(queue := if ok then s.queue - {s.workers[w].id} else s.queue, workers := s.workers - {w})
    case WorkerDies(w) => s.(workers := s.workers - {w})
    case ReplayReads(r, id) =>
      if r in s.replays || id !in s.dlq then s
      else s.(replays := s.replays[r := Replayer(id, Requeueing(s.dlq[id].(attempts := 0)))])
    case ReplayPuts(r, ok) =>
      if r !in s.replays || !s.replays[r].phase.Requeueing? then s
      else if !ok then s.(replays := s.replays - {r})
      else
        var id := s.replays[r].id;
        s.(queue := s.queue[id := s.replays[r].phase.d], replays := s.replays[r := Replayer(id, Unburying)])
    case ReplayDeletes(r, ok) =>
      if r !in s.replays || !s.replays[r].phase.Unburying? then s
      else s.(dlq := if ok then s.dlq - {s.replays[r].id} else s.dlq, replays := s.replays - {r})
    case ReplayDies(r) => s.(replays := s.replays - {r})
    case AdminDeletes(id) =>
      if id !in s.dlq then s else s.(dlq := s.dlq - {id}, removed := s.removed + {id})
  }

  function Run(steps: seq<Step>): Plane {
    if steps == [] then START else Next(Run(steps[..|steps| - 1]), steps[|steps| - 1])
  }

  predicate Over(s: Plane, id: Id) { id in s.delivered || id in s.removed }

  predicate Accounted(s: Plane, id: Id) { id in s.queue || id in s.dlq || Over(s, id) }

  // No delivery that was ever accepted has vanished.
  ghost predicate Conserved(s: Plane) { forall id :: id in s.known ==> Accounted(s, id) }

  predicate BuryingId(s: Plane, w: nat, id: Id) { w in s.workers && s.workers[w] == Worker(id, Burying) }

  predicate UnburyingId(s: Plane, r: nat, id: Id) { r in s.replays && s.replays[r] == Replayer(id, Unburying) }

  // No worker between its dead-letter Put and its Delete coincides with a replay between its Put and its Delete
  // on the same id.
  ghost predicate NoOverlap(s: Plane) {
    forall w, r, id :: !(BuryingId(s, w, id) && UnburyingId(s, r, id))
  }

  ghost predicate NoOverlapAlong(steps: seq<Step>) {
    forall i :: 0 <= i <= |steps| ==> NoOverlap(Run(steps[..i]))
  }

  // Whoever is about to delete one copy knows of another.
  ghost predicate Inv(s: Plane) {
    && Conserved(s)
    && s.dlq.Keys <= s.known
    && (forall w :: w in s.workers ==> s.workers[w].id in s.known)
    && (forall r :: r in s.replays ==> s.replays[r].id in s.known)
    && (forall w :: w in s.workers && s.workers[w].phase.Acking? ==> s.workers[w].id in s.delivered)
    && (forall w, id :: BuryingId(s, w, id) ==> id in s.dlq || Over(s, id))
    && (forall r, id :: UnburyingId(s, r, id) ==> id in s.queue || Over(s, id))
  }

  // A change that keeps every copy, up to ids that are over, and starts no new deletion.
  lemma GrowKeeps(s: Plane, t: Plane)
    requires Inv(s)
    requires s.queue.Keys <= t.queue.Keys && t.dlq.Keys <= t.known
    requires forall id :: id in s.dlq ==> id in t.dlq || Over(t, id)
    requires s.known <= t.known <= s.known + t.queue.Keys
    requires s.delivered <= t.delivered && s.removed <= t.removed
    requires forall w :: w in t.workers ==>
               || (w in s.workers && t.workers[w] == s.workers[w])
               || (t.workers[w].phase.Sending? && t.workers[w].id in t.known)
               || (t.workers[w].phase.Acking? && t.workers[w].id in t.known && t.workers[w].id in t.delivered)
               || (t.workers[w].phase.Burying? && t.workers[w].id in t.known && t.workers[w].id in t.dlq)
    requires forall r :: r in t.replays ==>
               || (r in s.replays && t.replays[r] == s.replays[r])
               || (t.replays[r].phase.Requeueing? && t.replays[r].id in t.known)
               || (t.replays[r].phase.Unburying? && t.replays[r].id in t.known && t.replays[r].id in t.queue)
    ensures Inv(t)
  {
    forall id | id in t.known ensures Accounted(t, id) {
      if id in s.known { assert Accounted(s, id); }
    }
    forall w, id | BuryingId(t, w, id) ensures id in t.dlq || Over(t, id) {
      if w in s.workers && t.workers[w] == s.workers[w] { assert BuryingId(s, w, id); }
    }
    forall r, id | UnburyingId(t, r, id) ensures id in t.queue || Over(t, id) {
      if r in s.replays && t.replays[r] == s.replays[r] { assert UnburyingId(s, r, id); }
    }
  }

  lemma WorkerStepKeeps(s: Plane, step: Step)
    requires Inv(s) && (step.Pick? || step.Succeed? || step.WorkerDies?)
    ensures Inv(Next(s, step))
  {
    GrowKeeps(s, Next(s, step));
  }

  lemma FailKeeps(s: Plane, w: nat, ok: bool)
    requires Inv(s)
    ensures Inv(Next(s, Fail(w, ok)))
  {
    GrowKeeps(s, Next(s, Fail(w, ok)));
  }

  lemma ReplayStepKeeps(s: Plane, step: Step)
    requires Inv(s) && (step.ReplayReads? || step.ReplayPuts? || step.ReplayDies?)
    ensures Inv(Next(s, step))
  {
    GrowKeeps(s, Next(s, step));
  }

  lemma OutsideStepKeeps(s: Plane, step: Step)
    requires Inv(s) && (step.Ingest? || step.AdminDeletes?)
    ensures Inv(Next(s, step))
  {
    GrowKeeps(s, Next(s, step));
  }

  lemma StepKeeps(s: Plane, step: Step)
    requires Inv(s) && NoOverlap(s)
    ensures Inv(Next(s, step))
  {
    hide Inv, NoOverlap, Next;
    match step
    case Fail(w, ok) => FailKeeps(s, w, ok);
    case Settle(w, ok) => SettleKeeps(s, w, ok);
    case ReplayDeletes(r, ok) => ReplayDeletesKeeps(s, r, ok);
    case Ingest(_, _) => OutsideStepKeeps(s, step);
    case AdminDeletes(_) => OutsideStepKeeps(s, step);
    case Pick(_, _, _) => WorkerStepKeeps(s, step);
    case Succeed(_) => WorkerStepKeeps(s, step);
    case WorkerDies(_) => WorkerStepKeeps(s, step);
    case ReplayReads(_, _) => ReplayStepKeeps(s, step);
    case ReplayPuts(_, _) => ReplayStepKeeps(s, step);
    case ReplayDies(_) => ReplayStepKeeps(s, step);
  }

  lemma SettleKeeps(s: Plane, w: nat, ok: bool)
    requires Inv(s) && NoOverlap(s)
    ensures Inv(Next(s, Settle(w, ok)))
  {
    var t := Next(s, Settle(w, ok));
    if w in s.workers && !s.workers[w].phase.Sending? {
      var x := s.workers[w].id;
      assert s.workers[w].phase.Burying? ==> BuryingId(s, w, x);
      forall id | id in t.known ensures Accounted(t, id) { assert Accounted(s, id); }
      forall v, id | BuryingId(t, v, id) ensures id in t.dlq || Over(t, id) { assert BuryingId(s, v, id); }
      forall r, id | UnburyingId(t, r, id) ensures id in t.queue || Over(t, id) { assert UnburyingId(s, r, id); }
    }
  }

  lemma ReplayDeletesKeeps(s: Plane, r: nat, ok: bool)
    requires Inv(s) && NoOverlap(s)
    ensures Inv(Next(s, ReplayDeletes(r, ok)))
  {
    var t := Next(s, ReplayDeletes(r, ok));
    if r in s.replays && s.replays[r].phase.Unburying? {
      assert UnburyingId(s, r, s.replays[r].id);
      forall id | id in t.known ensures Accounted(t, id) { assert Accounted(s, id); }
      forall v, id | BuryingId(t, v, id) ensures id in t.dlq || Over(t, id) { assert BuryingId(s, v, id); }
      forall q, id | UnburyingId(t, q, id) ensures id in t.queue || Over(t, id) { assert UnburyingId(s, q, id); }
    }
  }

  lemma {:induction false} ReachableInv(steps: seq<Step>)
    requires NoOverlapAlong(steps)
    ensures Inv(Run(steps))
  {
    if steps != [] {
      var front := steps[..|steps| - 1];
      forall i | 0 <= i <= |front| ensures NoOverlap(Run(front[..i])) { assert front[..i] == steps[..i]; }
      ReachableInv(front);
      assert NoOverlap(Run(steps[..|steps| - 1]));
      StepKeeps(Run(front), steps[|steps| - 1]);
    }
  }

  // Main theorem: on every interleaving in which no replay overlaps a worker burying the same id, every
  // delivery ever put is queued, in the dead-letter queue, delivered, or deleted by an administrator.
  lemma DeliveryConservation(steps: seq<Step>)
    requires NoOverlapAlong(steps)
    ensures Conserved(Run(steps))
  {
    ReachableInv(steps);
  }

  // The hypothesis cannot be dropped: from any state with such an overlap on an id that is neither delivered
  // nor administratively deleted, letting the two finish loses the id.
  lemma OverlapLoses(s: Plane, w: nat, r: nat, id: Id)
    requires BuryingId(s, w, id) && UnburyingId(s, r, id) && id in s.known && !Over(s, id)
    ensures !Conserved(Next(Next(s, Settle(w, true)), ReplayDeletes(r, true)))
    ensures !Conserved(Next(Next(s, ReplayDeletes(r, true)), Settle(w, true)))
  {
    var a := Next(Next(s, Settle(w, true)), ReplayDeletes(r, true));
    var b := Next(Next(s, ReplayDeletes(r, true)), Settle(w, true));
    assert !Accounted(a, id) && id in a.known;
    assert !Accounted(b, id) && id in b.known;
  }

  // ... and it is exactly the overlap that loses: letting a worker and a replay finish keeps everything if and only
  // if they are not on one id that is neither delivered nor deleted by an administrator.
  lemma FinishingLosesIff(s: Plane, w: nat, r: nat)
    requires Inv(s)
    ensures Conserved(Next(Next(s, Settle(w, true)), ReplayDeletes(r, true))) <==>
              forall id :: BuryingId(s, w, id) && UnburyingId(s, r, id) ==> Over(s, id)
  {
    hide Next, Accounted, Over;
    var b := Next(Next(s, Settle(w, true)), ReplayDeletes(r, true));
    if id :| BuryingId(s, w, id) && UnburyingId(s, r, id) && !Over(s, id) {
      OverlapLoses(s, w, r, id);
    } else {
      forall id | id in b.known ensures Accounted(b, id) { FinishingKeeps(s, w, r, id); }
    }
  }

  lemma FinishingKeeps(s: Plane, w: nat, r: nat, id: Id)
    requires Inv(s) && (BuryingId(s, w, id) && UnburyingId(s, r, id) ==> Over(s, id))
    ensures var b := Next(Next(s, Settle(w, true)), ReplayDeletes(r, true)); id in b.known ==> Accounted(b, id)
  {
    assert id in s.known ==> Accounted(s, id);
    assert w in s.workers && s.workers[w] == Worker(id, Burying) ==> BuryingId(s, w, id);
    assert r in s.replays && s.replays[r] == Replayer(id, Unburying) ==> UnburyingId(s, r, id);
  }

  lemma Extend(steps: seq<Step>, step: Step)
    ensures Run(steps + [step]) == Next(Run(steps), step)
  {
    assert (steps + [step])[..|steps|] == steps;
  }

  // The overlap, and with it a loss, can be reached: a replay runs between a worker's dead-letter put and its
  // delete.
  lemma LossReachable() returns (steps: seq<Step>)
    ensures !Conserved(Run(steps))
  {
    var d := Record(0, 1);
    steps := [];
    assert Run(steps) == START;
    hide Run;
    Extend(steps, Ingest(7, d));
    steps := steps + [Ingest(7, d)];
    Extend(steps, Pick(0, 7, d));
    steps := steps + [Pick(0, 7, d)];
    Extend(steps, Fail(0, true));
    steps := steps + [Fail(0, true)];
    var s := Run(steps);
    assert BuryingId(s, 0, 7) && 7 in s.dlq && 7 in s.known && !Over(s, 7) && 0 !in s.replays;
    Extend(steps, ReplayReads(0, 7));
    steps := steps + [ReplayReads(0, 7)];
    Extend(steps, ReplayPuts(0, true));
    steps := steps + [ReplayPuts(0, true)];
    OverlapLoses(Run(steps), 0, 0, 7);
    Extend(steps, ReplayDeletes(0, true));
    steps := steps + [ReplayDeletes(0, true)];
    Extend(steps, Settle(0, true));
    steps := steps + [Settle(0, true)];
  }

  // Who takes what away: a queued record goes only when a worker that delivered or buried it settles, a dead letter only
  // when an administrator deletes it or a replay that put it back does.
  lemma LeavesIff(s: Plane, step: Step, id: Id)
    ensures id in s.queue ==> (id !in Next(s, step).queue <==>
              step.Settle? && step.ok && step.w in s.workers && s.workers[step.w].id == id && !s.workers[step.w].phase.Sending?)
    ensures id in s.dlq ==> (id !in Next(s, step).dlq <==>
              || step == AdminDeletes(id)
              || (step.ReplayDeletes? && step.ok && UnburyingId(s, step.r, id)))
    ensures id in Next(s, step).removed <==> id in s.removed || (step == AdminDeletes(id) && id in s.dlq)
    ensures id in Next(s, step).delivered <==>
              id in s.delivered || (step.Succeed? && step.w in s.workers && s.workers[step.w].id == id && s.workers[step.w].phase.Sending?)
  {
  }

  // ----- processOne and deadletterReplay run without interruption -------------------------------------------

  // An attempt as steps of the protocol: pick, then succeed and delete, or fail and (after a dead letter) delete.
  function Attempt(s: Plane, id: Id, d: Record, sent: bool, putOk: bool, delOk: bool): Plane {
    var p := Next(s, Pick(0, id, d));
    Next(if sent then Next(p, Succeed(0)) else Next(p, Fail(0, putOk)), Settle(0, delOk))
  }

  // An attempt up to its outcome.
  function Tried(s: Plane, id: Id, d: Record, sent: bool, putOk: bool): Plane {
    var p := Next(s, Pick(0, id, d));
    if sent then Next(p, Succeed(0)) else Next(p, Fail(0, putOk))
  }

  lemma TriedQueues(s: Plane, id: Id, d: Record, sent: bool, putOk: bool)
    requires id in s.known && 0 !in s.workers
    ensures var t, failed := Tried(s, id, d, sent, putOk), Record(d.attempts + 1, d.maxAttempts);
            var dead := !sent && failed.attempts >= failed.maxAttempts;
            && t.dlq == (if dead && putOk then s.dlq[id := failed] else s.dlq)
            && t.queue == (if !sent && !dead && putOk then s.queue[id := failed] else s.queue)
            && t.workers == (if sent then s.workers[0 := Worker(id, Acking)]
                             else if dead && putOk then s.workers[0 := Worker(id, Burying)] else s.workers)
            && t.known == s.known && t.replays == s.replays && t.delivered == (if sent then s.delivered + {id} else s.delivered)
  {
    var p := Next(s, Pick(0, id, d));
    assert p.workers == s.workers[0 := Worker(id, Sending(d))];
    assert p.workers - {0} == s.workers;
  }

  lemma SettledQueues(t: Plane, ok: bool)
    ensures var u := Next(t, Settle(0, ok)); var acting := 0 in t.workers && !t.workers[0].phase.Sending?;
            && u.queue == (if acting && ok then t.queue - {t.workers[0].id} else t.queue)
            && u.workers == (if acting then t.workers - {0} else t.workers)
            && u.dlq == t.dlq && u.known == t.known && u.replays == t.replays && u.delivered == t.delivered
  {
  }

  lemma AttemptQueues(s: Plane, id: Id, d: Record, sent: bool, putOk: bool, delOk: bool)
    requires id in s.known && 0 !in s.workers
    ensures var t := Attempt(s, id, d, sent, putOk, delOk);
            var failed := d.(attempts := d.attempts + 1);
            var dead := !sent && failed.attempts >= failed.maxAttempts;
            && t.dlq == (if dead && putOk then s.dlq[id := failed] else s.dlq)
            && t.queue == (if sent || dead then (if delOk && (sent || putOk) then s.queue - {id} else s.queue)
                           else if putOk then s.queue[id := failed] else s.queue)
            && t.workers == s.workers && t.known == s.known && t.replays == s.replays
            && t.delivered == (if sent then s.delivered + {id} else s.delivered)
  {
    hide Next;
    TriedQueues(s, id, d, sent, putOk);
    var t := Tried(s, id, d, sent, putOk);
    SettledQueues(t, delOk);
    assert s.workers[0 := Worker(id, Acking)] - {0} == s.workers && s.workers[0 := Worker(id, Burying)] - {0} == s.workers;
  }

  // The record queued after a replay is the dead letter with its attempts back at zero; the dead letter goes last.
  lemma ReplayQueues(s: Plane, id: Id, putOk: bool, delOk: bool)
    requires id in s.dlq && 0 !in s.replays
    ensures var t := Next(Next(Next(s, ReplayReads(0, id)), ReplayPuts(0, putOk)), ReplayDeletes(0, delOk));
            && t.queue == (if putOk then s.queue[id := Record(0, s.dlq[id].maxAttempts)] else s.queue)
            && t.dlq == (if putOk && delOk then s.dlq - {id} else s.dlq)
            && t.workers == s.workers && t.known == s.known && t.replays == s.replays
  {
    var p := Next(s, ReplayReads(0, id));
    assert p.replays[0] == Replayer(id, Requeueing(Record(0, s.dlq[id].maxAttempts)));
  }

  // k failing attempts in a row, as long as the delivery is queued.
  function Failing(s: Plane, id: Id, k: nat): Plane {
    if k == 0 then s
    else
      var t := Failing(s, id, k - 1);
      if id in t.queue then Attempt(t, id, t.queue[id], false, true, true) else t
  }

  // A delivery gets exactly its number of attempts, but at least one: until then it stays queued with its failures
  // counted, after the last it is a dead letter and queued no more.
  lemma {:induction false} RetriesExactly(s: Plane, id: Id, k: nat)
    requires id in s.queue && id in s.known && 0 !in s.workers && s.queue[id].attempts == 0
    ensures var m, t := s.queue[id].maxAttempts, Failing(s, id, k);
            && t.workers == s.workers && t.known == s.known
            && (k < m || k == 0 ==> t.queue == s.queue[id := Record(k, m)] && t.dlq == s.dlq)
            && (k >= m && k >= 1 ==> t.queue == s.queue - {id} && t.dlq == s.dlq[id := Record(if m == 0 then 1 else m, m)])
  {
    hide Attempt;
    if k > 0 {
      RetriesExactly(s, id, k - 1);
      var t := Failing(s, id, k - 1);
      if id in t.queue { AttemptQueues(t, id, t.queue[id], false, true, true); }
    } else {
      assert s.queue[id] == Record(0, s.queue[id].maxAttempts);
    }
  }

  // So after a replay it takes that many failures again until it is a dead letter.
  lemma ReplayRenews(s: Plane, id: Id, k: nat)
    requires id in s.dlq && id in s.known && 0 !in s.replays && 0 !in s.workers
    ensures var m := s.dlq[id].maxAttempts;
            var t := Failing(Next(Next(Next(s, ReplayReads(0, id)), ReplayPuts(0, true)), ReplayDeletes(0, true)), id, k);
            && (id in t.queue <==> k < m || k == 0) && (id in t.dlq <==> k >= m && k >= 1)
  {
    hide Next;
    ReplayQueues(s, id, true, true);
    RetriesExactly(Next(Next(Next(s, ReplayReads(0, id)), ReplayPuts(0, true)), ReplayDeletes(0, true)), id, k);
  }

  class Server {
    var queue: map<Id, Record>
    var dlq: map<Id, Record>
    ghost var plane: Plane

    ghost predicate Valid()
      reads this
    {
      plane.queue == queue && plane.dlq == dlq
    }

    // One delivery attempt. putOk answers for the reschedule or the dead-letter put, delOk for the delete.
    method ProcessOne(id: Id, d: Record, sent: bool, putOk: bool, delOk: bool)
      requires Valid() && id in plane.known && 0 !in plane.workers
      modifies this
      ensures Valid() && plane == Attempt(old(plane), id, d, sent, putOk, delOk)
      ensures var dead := !sent && d.attempts + 1 >= d.maxAttempts;
              && dlq == (if dead && putOk then old(dlq)[id := Record(d.attempts + 1, d.maxAttempts)] else old(dlq))
              && queue == (if sent || dead then (if delOk && (sent || putOk) then old(queue) - {id} else old(queue))
                           else if putOk then old(queue)[id := Record(d.attempts + 1, d.maxAttempts)] else old(queue))
    {
      hide Attempt;
      AttemptQueues(plane, id, d, sent, putOk, delOk);
      plane := Attempt(plane, id, d, sent, putOk, delOk);
      if sent {
        if delOk { queue := queue - {id}; }
        return;
      }
      var failed := d.(attempts := d.attempts + 1);
      if failed.attempts >= failed.maxAttempts {
        if !putOk { return; }
        dlq := dlq[id := failed];
        if !delOk { return; }
        queue := queue - {id};
        return;
      }
      if putOk { queue := queue[id := failed]; }
    }

    method DeadletterReplay(id: Id, putOk: bool, delOk: bool) returns (found: bool)
      requires Valid() && 0 !in plane.replays
      modifies this
      ensures Valid() && found == (id in old(dlq))
      ensures plane == if found then Next(Next(Next(old(plane), ReplayReads(0, id)), ReplayPuts(0, putOk)), ReplayDeletes(0, delOk))
                       else old(plane)
      ensures queue == if found && putOk then old(queue)[id := Record(0, old(dlq)[id].maxAttempts)] else old(queue)
      ensures dlq == if found && putOk && delOk then old(dlq) - {id} else old(dlq)
    {
      found := id in dlq;
      if found {
        plane := Next(Next(Next(plane, ReplayReads(0, id)), ReplayPuts(0, putOk)), ReplayDeletes(0, delOk));
        var d := dlq[id].(attempts := 0);
        if !putOk { return; }
        queue := queue[id := d];
        if !delOk { return; }
        dlq := dlq - {id};
      }
    }
  }
}
