// The agent's spool (internal/agent/agent.go over internal/queue/queue.go): a WAL queue that holds accepted events in
// acceptance order.
module Spool {
  import opened Ingest
  import Q = WalQueue

  // The queue holds accepted events, each proper and under its own id, in acceptance order.
  ghost predicate InOrder(l: seq<Q.Item<Event>>, acc: seq<string>)
    decreases |acc|
  {
    l == [] ||
    (acc != [] &&
     var it := l[|l| - 1];
     if acc[|acc| - 1] == it.id then it.data.id == it.id && Proper(it.data.body) && InOrder(l[..|l| - 1], acc[..|acc| - 1])
     else InOrder(l, acc[..|acc| - 1]))
  }

  lemma InOrderSnoc(l: seq<Q.Item<Event>>, acc: seq<string>, it: Q.Item<Event>)
    requires InOrder(l, acc) && it.data.id == it.id && Proper(it.data.body)
    ensures InOrder(l + [it], acc + [it.id])
  {
    assert (l + [it])[..|l|] == l && (acc + [it.id])[..|acc|] == acc;
  }

  lemma {:induction false} InOrderShorter(l: seq<Q.Item<Event>>, acc: seq<string>)
    requires InOrder(l, acc) && l != []
    ensures InOrder(l[..|l| - 1], acc)
    decreases |acc|, 0
  {
    var it := l[|l| - 1];
    if acc[|acc| - 1] == it.id {
      InOrderMore(l[..|l| - 1], acc[..|acc| - 1], acc[|acc| - 1]);
      assert acc == acc[..|acc| - 1] + [acc[|acc| - 1]];
    } else {
      InOrderShorter(l, acc[..|acc| - 1]);
      InOrderMore(l[..|l| - 1], acc[..|acc| - 1], acc[|acc| - 1]);
      assert acc == acc[..|acc| - 1] + [acc[|acc| - 1]];
    }
  }

  lemma {:induction false} InOrderMore(l: seq<Q.Item<Event>>, acc: seq<string>, x: string)
    requires InOrder(l, acc)
    ensures InOrder(l, acc + [x])
    decreases |acc|, 1
  {
    assert (acc + [x])[..|acc|] == acc;
    if l != [] && l[|l| - 1].id == x {
      InOrderKeyed(l, acc);
      InOrderShorter(l, acc);
    }
  }

  lemma {:induction false} InOrderKeyed(l: seq<Q.Item<Event>>, acc: seq<string>)
    requires InOrder(l, acc) && l != []
    ensures l[|l| - 1].data.id == l[|l| - 1].id && Proper(l[|l| - 1].data.body)
    decreases |acc|
  {
    if acc[|acc| - 1] != l[|l| - 1].id { InOrderKeyed(l, acc[..|acc| - 1]); }
  }

  lemma {:induction false} InOrderWithout(l: seq<Q.Item<Event>>, acc: seq<string>, x: string)
    requires InOrder(l, acc)
    ensures InOrder(Q.Without(l, x), acc)
    decreases |acc|
  {
    if l != [] {
      var it, front := l[|l| - 1], acc[..|acc| - 1];
      assert acc == front + [acc[|acc| - 1]];
      if acc[|acc| - 1] == it.id {
        InOrderWithout(l[..|l| - 1], front, x);
        if it.id == x {
          InOrderMore(Q.Without(l, x), front, it.id);
        } else {
          InOrderSnoc(Q.Without(l[..|l| - 1], x), front, it);
        }
      } else {
        InOrderWithout(l, front, x);
        InOrderMore(Q.Without(l, x), front, acc[|acc| - 1]);
      }
    }
  }

  lemma {:induction false} InOrderMember(l: seq<Q.Item<Event>>, acc: seq<string>, id: string)
    requires InOrder(l, acc) && Q.Find(l, id).Some?
    ensures id in acc
    decreases |acc|
  {
    var it := l[|l| - 1];
    if acc[|acc| - 1] != it.id {
      InOrderMember(l, acc[..|acc| - 1], id);
    } else if it.id != id {
      InOrderMember(l[..|l| - 1], acc[..|acc| - 1], id);
    }
  }

  lemma {:induction false} InOrderAt(l: seq<Q.Item<Event>>, acc: seq<string>, i: nat)
    requires InOrder(l, acc) && i < |l|
    ensures l[i].data.id == l[i].id && Proper(l[i].data.body)
    decreases |acc|
  {
    var it := l[|l| - 1];
    if acc[|acc| - 1] != it.id {
      InOrderAt(l, acc[..|acc| - 1], i);
    } else if i < |l| - 1 {
      InOrderAt(l[..|l| - 1], acc[..|acc| - 1], i);
    }
  }

  // Queue and log agree up to the lag, and both hold accepted events in acceptance order.
  ghost predicate Sound(q: Q.QState<Event>, acc: seq<string>) {
    Q.Inv(q) && InOrder(q.list, acc) && InOrder(Q.Replay(q.log), acc)
  }

  lemma StoredKeeps(q: Q.QState<Event>, ev: Event, n: nat, charged: nat, acc: seq<string>)
    requires Sound(q, acc) && ev.id !in acc && ev.id != "" && Proper(ev.body)
    ensures var q' := Q.PutStep(q, ev.id, ev, n, charged);
            Sound(q', acc + [ev.id]) && q'.list == q.list + [Q.Item(ev.id, q.seqNo + 1, ev, n)]
  {
    hide Q.Inv, Q.Find, Q.Without, Q.Replay, InOrder;
    var it := Q.Item(ev.id, q.seqNo + 1, ev, n);
    Q.PutStepKeeps(q, ev.id, ev, n, charged);
    if Q.Find(q.list, ev.id).Some? { InOrderMember(q.list, acc, ev.id); }
    Q.WithoutAbsent(q.list, ev.id);
    InOrderSnoc(q.list, acc, it);
    if q.ops + 1 >= Q.COMPACT_AFTER {
      Compacted(q);
      InOrderMore(q.list, acc, ev.id);
    } else {
      Q.ReplayAppend(q.log, Q.PutRec(it));
      InOrderWithout(Q.Replay(q.log), acc, ev.id);
      InOrderSnoc(Q.Without(Q.Replay(q.log), ev.id), acc, it);
    }
  }

  lemma Fresh(q: Q.QState<Event>, id: string, acc: seq<string>)
    requires Sound(q, acc) && id !in acc
    ensures Q.Find(q.list, id).None?
  {
    if Q.Find(q.list, id).Some? { InOrderMember(q.list, acc, id); }
  }

  lemma PutKeeps(q: Q.QState<Event>, opts: Q.Options, ev: Event, n: nat, acc: seq<string>)
    requires Sound(q, acc) && ev.id !in acc && !opts.policy.DropOldest? && Proper(ev.body)
    ensures var (q', r) := Q.Put(q, opts, ev.id, ev, n);
            && (r.Stored? <==> ev.id != "" && !Q.Over(opts, |q.list|, q.bytes, 1, n))
            && (r.Stored? ==> Sound(q', acc + [ev.id]) && q'.list == q.list + [Q.Item(ev.id, q.seqNo + 1, ev, n)])
            && (!r.Stored? ==> q' == q)
  {
    Fresh(q, ev.id, acc);
    hide Sound, Q.Find, Q.Without, Q.PutStep, Q.Over;
    if ev.id != "" { StoredKeeps(q, ev, n, Q.BytesOf(q.list, ev.id), acc); }
  }

  lemma Compacted(q: Q.QState<Event>)
    requires Q.Inv(q)
    ensures Q.Replay(Q.CompactLog(q.list)) == q.list
  {
    Q.CompactionExact(q.list);
  }

  lemma DeleteKeeps(q: Q.QState<Event>, id: string, acc: seq<string>)
    requires Sound(q, acc)
    ensures Sound(Q.Delete(q, id), acc) && Q.Delete(q, id).list == Q.Without(q.list, id)
  {
    hide Q.Inv, Q.Find, Q.Without, Q.Replay, InOrder;
    Q.DeleteKeeps(q, id);
    if Q.Find(q.list, id).Some? {
      InOrderWithout(q.list, acc, id);
      if q.ops + 1 >= Q.COMPACT_AFTER {
        Compacted(q);
      } else {
        Q.ReplayAppend(q.log, Q.DelRec(id, q.seqNo + 1));
        InOrderWithout(Q.Replay(q.log), acc, id);
      }
    } else {
      Q.WithoutAbsent(q.list, id);
    }
  }

  // The one spooled event a crash can lose: its Put was the append that triggered the latest compaction.
  function AtRisk(q: Q.QState<Event>): seq<string> {
    if q.lag.Behind? && q.lag.before.None? && Q.Find(q.list, q.lag.id).Some? then [q.lag.id] else []
  }

  lemma SurvivesCrash(q: Q.QState<Event>, acc: seq<string>, id: string)
    requires Sound(q, acc) && Q.Find(q.list, id).Some?
    ensures id in AtRisk(q) || Q.Find(Q.Opened(q.log).list, id).Some?
  {
    if q.lag.Behind? && id != q.lag.id {
      Q.FindWithout(q.list, q.lag.id, id);
      Q.FindWithout(Q.Replay(q.log), q.lag.id, id);
    }
  }

  lemma EvictDropsHead(q: Q.QState<Event>, opts: Q.Options, ai: nat, ab: int)
    requires Q.BytesExact(q) && q.list != [] && Q.Over(opts, |q.list|, q.bytes, ai, ab)
    ensures Q.NoDup(Q.Evict(q, opts, ai, ab).list) && Q.Find(Q.Evict(q, opts, ai, ab).list, q.list[0].id).None?
  {
    hide Q.Evict, Q.NoDup, Q.Find, Q.Sum;
    var k := Q.EvictShortestPrefix(q, opts, ai, ab);
    assert q.list[0..] == q.list;
    assert !Q.HasRoom(q.list, opts, ai, ab);
    Q.GoneFromSuffix(q.list, 0, k);
  }

  lemma StoredHides(e: Q.QState<Event>, ev: Event, n: nat, charged: nat, x: string)
    requires Q.NoDup(e.list) && Q.Find(e.list, x).None? && x != ev.id
    ensures Q.Find(Q.PutStep(e, ev.id, ev, n, charged).list, x).None?
    ensures Q.Find(Q.PutStep(e, ev.id, ev, n, charged).list, ev.id).Some?
  {
    hide Q.NoDup, Q.Find, Q.Without;
    var it := Q.Item(ev.id, e.seqNo + 1, ev, n);
    Q.PutListKeeps(e.list, it, 0);
    Q.FindWithout(e.list, ev.id, x);
    Q.SnocDefs(Q.Without(e.list, ev.id), it, 0, x);
  }

  // Under drop-oldest the promise fails: an accepted event that finds the spool full takes the place of the oldest
  // one, recorded or not.
  lemma DropOldestDiscards(q: Q.QState<Event>, opts: Q.Options, ev: Event, n: nat)
    requires Q.BytesExact(q) && q.list != [] && opts.policy.DropOldest? && Q.Find(q.list, ev.id).None?
    requires Q.Over(opts, |q.list|, q.bytes, 1, n)
    ensures var (q', r) := Q.Put(q, opts, ev.id, ev, n);
            r.Stored? ==> Q.Find(q'.list, ev.id).Some? && Q.Find(q'.list, q.list[0].id).None?
  {
    hide Q.Evict, Q.NoDup, Q.Find, Q.Over, Q.PutStep;
    Q.FindAt(q.list, 0);
    EvictDropsHead(q, opts, 1, n);
    StoredHides(Q.Evict(q, opts, 1, n), ev, n, Q.BytesOf(q.list, ev.id), q.list[0].id);
  }
}
