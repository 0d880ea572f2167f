// A crash between the two halves of a compaction (internal/store/store.go): the new snapshot stands beside the old log,
// which is replayed over it together with the operation that triggered the compaction.
module TornLog {
  import opened Wrappers
  import opened FileStore
  import opened SeenIndex
  import opened LogReplay

  // ----- one list of documents --------------------------------------------------------------------------------------

  // One list, and the operation that triggers the compaction if it concerns the list.
  function StepMaybe<B>(l: seq<Doc<B>>, x: Option<ListOp<B>>): seq<Doc<B>> { if x.Some? then StepList(l, x.value) else l }

  // Every id the log adds is deleted in it, or by the trigger.
  ghost predicate AddsDeletedBy<B>(ops: seq<ListOp<B>>, x: Option<ListOp<B>>) {
    forall o :: o in ops && o.Append? ==> Remove(o.doc.id) in ops || x == Some(Remove(o.doc.id))
  }

  lemma {:induction false} KeepGone<B>(l: seq<Doc<B>>, id: string, gone: set<string>)
    requires id in gone
    ensures Keep(Without(l, id), gone) == Keep(l, gone)
  {
    hide Keep, Without;
    if l == [] {
      NoneLeft<B>(id, gone);
    } else {
      var front, e := l[..|l| - 1], l[|l| - 1];
      assert l == front + [e];
      KeepGone(front, id, gone);
      WithoutSnoc(front, e, id);
      KeepSnoc(front, e, gone);
      KeepSnoc(Without(front, id), e, gone);
    }
  }

  // A log followed by a deletion does not care whether the deletion was made before.
  lemma DeletedAnyway<B>(l: seq<Doc<B>>, ops: seq<ListOp<B>>, id: string)
    requires Remove(id) in ops
    ensures ApplyList(Without(l, id), ops) == ApplyList(l, ops)
  {
    hide ApplyList, Keep, Without, Removed;
    RemovedIff(ops, id);
    KeepGone(l, id, Removed(ops));
    OnlySurvivors(l, ops);
    OnlySurvivors(Without(l, id), ops);
  }

  lemma TornDeletion<B>(l: seq<Doc<B>>, ops: seq<ListOp<B>>, id: string)
    requires NoUpserts(ops) && AddsDeletedBy(ops, Some(Remove(id)))
    ensures var m := ApplyList(l, ops); Without(ApplyList(m, ops), id) == Without(m, id)
  {
    hide ApplyList, Without;
    var m, x: ListOp<B> := ApplyList(l, ops), Remove(id);
    var all := ops + [x];
    forall o | o in all ensures !o.Upsert? && (o.Append? ==> Remove(o.doc.id) in all) { assert x in all; }
    ReplayDeleted(l, all);
    ApplySnoc(l, ops, x);
    ApplySnoc(m, ops, x);
    assert x in all;
    DeletedAnyway(m, all, id);
  }

  lemma TornCount<B>(l: seq<Doc<B>>, ops: seq<ListOp<B>>, x: Option<ListOp<B>>, o: ListOp<B>)
    requires o in ops && o.Append? && Remove(o.doc.id) !in ops && x != Some(Remove(o.doc.id))
    ensures var m := ApplyList(l, ops); StepMaybe(ApplyList(m, ops), x) != StepMaybe(m, x)
  {
    hide ApplyList, StepList, Count;
    var m, id := ApplyList(l, ops), o.doc.id;
    var i :| 0 <= i < |ops| && ops[i] == o;
    AddsPositive(ops, i);
    CountGrows(l, ops, id);
    CountGrows(m, ops, id);
    if x.Some? {
      CountStep(m, x.value, id);
      CountStep(ApplyList(m, ops), x.value, id);
    }
  }

  // Replaying a log before the trigger leaves no trace exactly if whatever it adds is deleted.
  lemma ListTornIff<B>(l: seq<Doc<B>>, ops: seq<ListOp<B>>, x: Option<ListOp<B>>)
    requires NoUpserts(ops) || (NoRemoves(ops) && !(x.Some? && x.value.Remove?))
    ensures var m := ApplyList(l, ops); StepMaybe(ApplyList(m, ops), x) == StepMaybe(m, x) <==> AddsDeletedBy(ops, x)
  {
    hide ApplyList, Without, SetIn, ReplaceIn;
    if !AddsDeletedBy(ops, x) {
      var o :| o in ops && o.Append? && Remove(o.doc.id) !in ops && x != Some(Remove(o.doc.id));
      TornCount(l, ops, x, o);
    } else if x.Some? && x.value.Remove? {
      TornDeletion(l, ops, x.value.id);
    } else {
      assert AddsDeletedIn(ops);
      ListReplayIff(l, ops);
    }
  }

  // ----- the trigger is an alert ------------------------------------------------------------------------------------

  // The log without the changes it makes to an alert before it adds the next one: over a list that already holds the
  // alert, these go to the old copy.
  function Delayed<B>(ops: seq<ListOp<B>>): seq<ListOp<B>> {
    if ops == [] then []
    else
      var front, o := ops[..|ops| - 1], ops[|ops| - 1];
      if o.Swap? && AddedIds(front) != [] && o.doc.id == AddedIds(front)[|AddedIds(front)| - 1] then Delayed(front)
      else Delayed(front) + [o]
  }

  // What a log of alerts writes.
  function Written<B>(ops: seq<ListOp<B>>): seq<Doc<B>> { ApplyList([], ops) }

  predicate AlertsSafe<B(==)>(ops: seq<ListOp<B>>, x: Option<ListOp<B>>) {
    || NoneOrFull(|AddedIds(ops)|, ALERT_CAP)
    || (|AddedIds(ops)| == ALERT_CAP - 1 && x.Some? && x.value.Append? && Written(Delayed(ops)) == Written(ops))
  }

  function StepAlertMaybe<B>(l: seq<Doc<B>>, x: Option<ListOp<B>>): seq<Doc<B>> {
    if x.Some? then StepAlerts(l, x.value) else l
  }

  ghost predicate TailIs<B>(l: seq<Doc<B>>, docs: seq<Doc<B>>) { |docs| <= |l| && l[|l| - |docs|..] == docs }

  lemma TailAppend<B>(l: seq<Doc<B>>, docs: seq<Doc<B>>, d: Doc<B>)
    requires TailIs(l, docs) && |docs| < ALERT_CAP
    ensures TailIs(Suffix(l + [d], ALERT_CAP), docs + [d])
  {
  }

  // A change of one document, on a list cut in two.
  lemma TailReplace<B>(l: seq<Doc<B>>, docs: seq<Doc<B>>, d: Doc<B>)
    requires TailIs(l, docs)
    ensures var front := l[..|l| - |docs|];
            && (Has(front, d.id) ==> TailIs(ReplaceIn(l, d), docs))
            && (!(Has(front, d.id) && Has(docs, d.id)) ==> TailIs(ReplaceIn(l, d), ReplaceIn(docs, d)))
  {
    var front := l[..|l| - |docs|];
    assert l == front + docs;
    hide Has;
    if !(Has(front, d.id) && Has(docs, d.id)) { ReplaceConcat(front, docs, d); }
    if Has(front, d.id) { ReplaceFront(front, docs, d); }
    ReplaceSize(front, d);
    ReplaceSize(docs, d);
  }

  lemma ReplaceFront<B>(a: seq<Doc<B>>, b: seq<Doc<B>>, d: Doc<B>)
    requires Has(a, d.id)
    ensures ReplaceIn(a + b, d) == ReplaceIn(a, d) + b
  {
    FirstIs(a + b, d.id, First(a, d.id));
  }

  lemma ReplaceSize<B>(l: seq<Doc<B>>, d: Doc<B>)
    ensures |ReplaceIn(l, d)| == |l|
  {
  }

  lemma HasIds<B>(l: seq<Doc<B>>, id: string)
    ensures Has(l, id) <==> id in Ids(l)
  {
    if id in Ids(l) {
      var i :| 0 <= i < |l| && Ids(l)[i] == id;
      assert l[i].id == id;
    }
    if Has(l, id) { assert Ids(l)[First(l, id)] == id; }
  }

  lemma WrittenSnoc<B>(ops: seq<ListOp<B>>, o: ListOp<B>)
    ensures Written(ops + [o]) == StepList(Written(ops), o)
  {
    assert (ops + [o])[..|ops|] == ops;
  }

  lemma IdsSnoc<B>(l: seq<Doc<B>>, d: Doc<B>)
    ensures Ids(l + [d]) == Ids(l) + [d.id]
  {
  }

  lemma IdsSplit<B>(l: seq<Doc<B>>, n: nat)
    requires n <= |l|
    ensures Ids(l[..n]) == Ids(l)[..n] && Ids(l[n..]) == Ids(l)[n..]
  {
  }

  lemma TwoParts(ids: seq<string>, n: nat, id: string)
    requires NoDup(ids) && n <= |ids|
    ensures !(id in ids[..n] && id in ids[n..])
  {
    if id in ids[..n] {
      var i :| 0 <= i < n && ids[..n][i] == id;
      forall j | 0 <= j < |ids| - n ensures ids[n..][j] != id { assert ids[i] != ids[n + j]; }
    }
  }

  // The first time, every change goes to the one copy there is: what the log wrote is the end of the list.
  lemma {:induction false} FirstPass<B>(l: seq<Doc<B>>, ops: seq<ListOp<B>>)
    requires AlertOps(ops) && |l| <= ALERT_CAP && NeverTwice(Ids(l), AddedIds(ops)) && |AddedIds(ops)| < ALERT_CAP
    ensures TailIs(ApplyAlerts(l, ops), Written(ops)) && Ids(Written(ops)) == AddedIds(ops)
  {
    if ops != [] {
      var front, o := ops[..|ops| - 1], ops[|ops| - 1];
      AlertOpsFront(ops);
      NeverTwiceFront(Ids(l), ops);
      FirstPass(l, front);
      AlertIdsWindow(l, front);
      var m, w := ApplyAlerts(l, front), Written(front);
      assert front + [o] == ops;
      WrittenSnoc(front, o);
      assert AddedIds(front)[..|AddedIds(front)|] == AddedIds(front);
      assert NoDup(Ids(m));
      hide TailIs, NoDup, Ids, Has, Written, ReplaceIn, Suffix, NeverTwice;
      if o.Append? {
        TailAppend(m, w, o.doc);
        IdsSnoc(w, o.doc);
      } else {
        TailOnce(m, w, o.doc);
        IdsReplace(w, o.doc);
      }
    }
  }

  lemma TailOnce<B>(m: seq<Doc<B>>, w: seq<Doc<B>>, d: Doc<B>)
    requires TailIs(m, w) && NoDup(Ids(m))
    ensures TailIs(ReplaceIn(m, d), ReplaceIn(w, d))
  {
    hide NoDup, Ids, Has, ReplaceIn;
    var n := |m| - |w|;
    TailReplace(m, w, d);
    IdsSplit(m, n);
    HasIds(m[..n], d.id);
    HasIds(w, d.id);
    TwoParts(Ids(m), n, d.id);
  }

  lemma DelayedAdds<B>(ops: seq<ListOp<B>>)
    requires ops != []
    ensures var front, o := ops[..|ops| - 1], ops[|ops| - 1]; var a := AddedIds(front);
            && (o.Append? ==> Delayed(ops) == Delayed(front) + [o])
            && (o.Swap? && a != [] && o.doc.id == a[|a| - 1] ==> Delayed(ops) == Delayed(front))
            && (o.Swap? && !(a != [] && o.doc.id == a[|a| - 1]) ==> Delayed(ops) == Delayed(front) + [o])
  {
  }

  lemma SuffixLen<T>(s: seq<T>, n: nat)
    ensures |Suffix(s, n)| == if |s| < n then |s| else n
  {
  }

  lemma SuffixAt<T>(s: seq<T>, n: nat, i: nat)
    requires n <= |s| && i < n
    ensures |Suffix(s, n)| == n && Suffix(s, n)[i] == s[|s| - n + i]
  {
  }

  lemma SuffixEnds<T>(a: seq<T>, b: seq<T>, n: nat)
    requires |b| <= n
    ensures var s := Suffix(a + b, n); |s| >= |b| && s == s[..|s| - |b|] + b
  {
  }

  // Where the window stands after t of the 1999 added ids have come again: the others, the one added last, and the t.
  lemma WindowAgain(pre: seq<string>, added: seq<string>, t: nat)
    requires |added| == ALERT_CAP - 1 && t <= |added|
    ensures var m := Suffix(pre + added, ALERT_CAP); var w := Suffix(m + added[..t], ALERT_CAP);
            && |w| >= t && (t >= 1 ==> w[..|w| - t] == added[t - 1..])
  {
    hide Suffix;
    var m := Suffix(pre + added, ALERT_CAP);
    SuffixEnds(pre, added, ALERT_CAP);
    SuffixLen(m + added[..t], ALERT_CAP);
    if t >= 1 {
      var y, left := m[..|m| - |added|], added[t - 1..];
      var rest := left + added[..t];
      assert |rest| == ALERT_CAP;
      assert m + added[..t] == (y + added[..t - 1]) + rest;
      SuffixOfTail(y + added[..t - 1], rest, ALERT_CAP);
      SuffixWhole(rest);
      assert rest[..|left|] == left;
    }
  }

  lemma SuffixWhole<T>(s: seq<T>)
    ensures Suffix(s, |s|) == s
  {
  }

  lemma NoneWritten<B>(m: seq<Doc<B>>)
    ensures Written<B>(Delayed([])) == [] && TailIs(m, []) && Ids<B>([]) == [] && AddedIds<B>([]) == []
  {
  }

  // Over a list that already ends with them, a change of the alert added last goes to its old copy, every other one to the
  // new: the list ends with what the log writes without the former.
  lemma {:induction false} SecondPass<B>(m: seq<Doc<B>>, ops: seq<ListOp<B>>, pre: seq<string>, added: seq<string>)
    requires AlertOps(ops) && AddedIds(ops) <= added && |added| == ALERT_CAP - 1 && NoDup(added)
    requires |m| <= ALERT_CAP && Ids(m) == Suffix(pre + added, ALERT_CAP)
    ensures TailIs(ApplyAlerts(m, ops), Written(Delayed(ops))) && Ids(Written(Delayed(ops))) == AddedIds(ops)
  {
    hide TailIs, NoDup, Ids, Has, Written, Delayed, ReplaceIn, Suffix, AlertOps;
    if ops == [] {
      NoneWritten(m);
    } else {
      var front, o := ops[..|ops| - 1], ops[|ops| - 1];
      AlertOpsFront(ops);
      SecondPass(m, front, pre, added);
      var w, docs, t := ApplyAlerts(m, front), Written(Delayed(front)), |AddedIds(front)|;
      assert AddedIds(front) == added[..t];
      AlertIdsWindow(m, front);
      WindowAgain(pre, added, t);
      IdsLength(w);
      IdsLength(docs);
      DelayedAdds(ops);
      WrittenSnoc(Delayed(front), o);
      if o.Append? {
        TailAppend(w, docs, o.doc);
        IdsSnoc(docs, o.doc);
      } else {
        TailAgain(w, docs, added, t, o.doc);
        IdsReplace(docs, o.doc);
      }
    }
  }

  lemma TailAgain<B>(w: seq<Doc<B>>, docs: seq<Doc<B>>, added: seq<string>, t: nat, d: Doc<B>)
    requires TailIs(w, docs) && NoDup(added) && t <= |added| && Ids(docs) == added[..t] && |docs| == t
    requires t >= 1 ==> Ids(w)[..|w| - t] == added[t - 1..]
    ensures t >= 1 && d.id == added[t - 1] ==> TailIs(ReplaceIn(w, d), docs)
    ensures !(t >= 1 && d.id == added[t - 1]) ==> TailIs(ReplaceIn(w, d), ReplaceIn(docs, d))
  {
    TailReplace(w, docs, d);
    IdsSplit(w, |w| - t);
    hide Ids, Has, ReplaceIn;
    HasIds(w[..|w| - t], d.id);
    HasIds(docs, d.id);
    if t >= 1 {
      assert added[t - 1..][0] == added[t - 1];
      if d.id != added[t - 1] { OldAndNewIds(added, t, d.id); }
    }
  }

  lemma OldAndNewIds(added: seq<string>, t: nat, id: string)
    requires NoDup(added) && 1 <= t <= |added| && id != added[t - 1]
    ensures !(id in added[t - 1..] && id in added[..t])
  {
    TwoParts(added, t - 1, id);
    assert added[..t] == added[..t - 1] + [added[t - 1]];
  }

  lemma TailThen<B>(l: seq<Doc<B>>, docs: seq<Doc<B>>, d: Doc<B>)
    requires TailIs(l, docs) && |docs| == ALERT_CAP - 1
    ensures Suffix(l + [d], ALERT_CAP) == docs + [d]
  {
  }

  lemma AddedDistinct(pre: seq<string>, added: seq<string>)
    requires NoDup(pre + added)
    ensures NoDup(added)
  {
    assert forall i :: 0 <= i < |added| ==> (pre + added)[|pre| + i] == added[i];
  }

  lemma TornAlert<B>(l: seq<Doc<B>>, ops: seq<ListOp<B>>, d: Doc<B>)
    requires AlertOps(ops) && |l| <= ALERT_CAP && NoDup(Ids(l) + AddedIds(ops)) && |AddedIds(ops)| == ALERT_CAP - 1
    ensures var m := ApplyAlerts(l, ops);
            Suffix(ApplyAlerts(m, ops) + [d], ALERT_CAP) == Suffix(m + [d], ALERT_CAP) <==> Written(Delayed(ops)) == Written(ops)
  {
    hide ApplyAlerts, NeverTwice, TailIs, Written, Delayed, Ids, NoDup, Suffix;
    var m := ApplyAlerts(l, ops);
    DistinctNeverTwice(Ids(l), AddedIds(ops));
    AddedDistinct(Ids(l), AddedIds(ops));
    FirstPass(l, ops);
    AlertIdsWindow(l, ops);
    IdsLength(m);
    SuffixLen(Ids(l) + AddedIds(ops), ALERT_CAP);
    SecondPass(m, ops, Ids(l), AddedIds(ops));
    WrittenSize(ops);
    TailThen(m, Written(ops), d);
    TailThen(ApplyAlerts(m, ops), Written(Delayed(ops)), d);
    var a, b := Written(Delayed(ops)), Written(ops);
    if a + [d] == b + [d] { assert a == (a + [d])[..|a|] && b == (b + [d])[..|b|]; }
  }

  lemma WrittenSize<B>(ops: seq<ListOp<B>>)
    ensures |Ids(Written(ops))| == |Written(ops)| && |Ids(Written(Delayed(ops)))| == |Written(Delayed(ops))|
  {
  }

  // Fewer ids than that still show after one more.
  lemma AppendShiftDiffers(j: seq<string>, added: seq<string>, cap: nat, x: string)
    requires NoDup(j) && |j| <= cap && 0 < |added| <= |j| && |added| < cap - 1
    ensures Suffix(Suffix(j + added, cap) + [x], cap) != Suffix(j + [x], cap)
  {
    hide Suffix;
    var a, b := j + added + [x], j + [x];
    SuffixSnoc(j + added, x, cap);
    SuffixLen(a, cap);
    SuffixLen(b, cap);
    if |j| >= cap - 1 {
      var k := |j| + 1 - cap;
      SuffixAt(a, cap, 0);
      SuffixAt(b, cap, 0);
      assert b[k] == j[k] && a[k + |added|] == j[k + |added|];
      assert j[k] != j[k + |added|];
    }
  }

  // The alerts after the crash are those without it exactly if the log adds none, or at least 2000, or 1999 with one more
  // as the trigger and no change that the old copies swallow.
  lemma AlertsTornIff<B>(l: seq<Doc<B>>, ops: seq<ListOp<B>>, x: Option<ListOp<B>>)
    requires AlertOps(ops) && |l| <= ALERT_CAP && NoDup(Ids(l) + AddedIds(ops)) && (x.Some? ==> x.value.Append? || x.value.Swap?)
    ensures var m := ApplyAlerts(l, ops);
            StepAlertMaybe(ApplyAlerts(m, ops), x) == StepAlertMaybe(m, x) <==> AlertsSafe(ops, x)
  {
    hide ApplyAlerts, NoDup, ReplaceIn, Suffix, Written, Delayed;
    var m, n := ApplyAlerts(l, ops), |AddedIds(ops)|;
    AlertsReplayIff(l, ops);
    if 0 < n < ALERT_CAP {
      AlertsShift(l, ops);
      if x.Some? && x.value.Swap? {
        IdsReplace(m, x.value.doc);
        IdsReplace(ApplyAlerts(m, ops), x.value.doc);
      } else if x.Some? && n == ALERT_CAP - 1 {
        TornAlert(l, ops, x.value.doc);
      } else if x.Some? {
        FewerAlerts(l, ops, x.value.doc);
      }
    }
  }

  lemma FewerAlerts<B>(l: seq<Doc<B>>, ops: seq<ListOp<B>>, d: Doc<B>)
    requires AlertOps(ops) && |l| <= ALERT_CAP && NoDup(Ids(l) + AddedIds(ops)) && 0 < |AddedIds(ops)| < ALERT_CAP - 1
    ensures var m := ApplyAlerts(l, ops); Suffix(ApplyAlerts(m, ops) + [d], ALERT_CAP) != Suffix(m + [d], ALERT_CAP)
  {
    hide ApplyAlerts, NoDup, Ids, Suffix;
    var m := ApplyAlerts(l, ops);
    AlertIdsWindow(l, ops);
    WindowDistinct(Ids(l), AddedIds(ops));
    IdsLength(m);
    AlertIdsWindow(m, ops);
    IdsSuffix(m, d);
    IdsSuffix(ApplyAlerts(m, ops), d);
    AppendShiftDiffers(Ids(m), AddedIds(ops), ALERT_CAP, d.id);
  }

  // Such a change does show: an alert added and changed at once is back to what it was added as.
  lemma LateChangeShows<B>(front: seq<ListOp<B>>, a: Doc<B>, b: Doc<B>)
    requires AlertOps(front) && NoDup(AddedIds(front) + [a.id]) && |AddedIds(front)| < ALERT_CAP && b.id == a.id && b != a
    ensures var ops := front + [Append(a)] + [Swap(b)]; Written(Delayed(ops)) != Written(ops)
  {
    hide NoDup, NeverTwice, TailIs, Delayed, Written;
    var one := front + [Append(a)];
    var ops := one + [Swap(b)];
    assert one[..|front|] == front && ops[..|one|] == one;
    WrittenSnoc(front, Append(a));
    WrittenSnoc(one, Swap(b));
    WrittenSnoc(Delayed(front), Append(a));
    DelayedAdds(one);
    DelayedAdds(ops);
    NewAlert(AddedIds(front), a.id);
    assert [] + AddedIds(front) == AddedIds(front) && Ids<B>([]) == [];
    DistinctNeverTwice([], AddedIds(front));
    FirstPass([], front);
    ChangeLast(Written(front), a, b);
    assert Written(Delayed(ops))[|Written(Delayed(ops))| - 1] == a;
  }

  lemma NewAlert(ids: seq<string>, id: string)
    requires NoDup(ids + [id])
    ensures NoDup(ids) && id !in ids
  {
    var all := ids + [id];
    forall i | 0 <= i < |ids| ensures ids[i] != id { assert all[i] != all[|ids|]; }
    assert forall i :: 0 <= i < |ids| ==> all[i] == ids[i];
  }

  lemma ChangeLast<B>(l: seq<Doc<B>>, a: Doc<B>, b: Doc<B>)
    requires a.id == b.id && a.id !in Ids(l)
    ensures ReplaceIn(l + [a], b) == l + [b]
  {
    forall i | 0 <= i < |l| ensures l[i].id != b.id { assert Ids(l)[i] in Ids(l); }
    FirstIs(l + [a], b.id, |l|);
  }

  // ----- the whole state -------------------------------------------------------------------------------------------

  predicate EventsSafe(n: nat, trigger: bool) { NoneOrFull(n, SEEN_CAP) || (n == SEEN_CAP - 1 && trigger) }

  // What makes a log and the operation that triggers its compaction safe: whatever the log adds is deleted in it or by the
  // trigger; it adds no alert, or at least 2000, or one less with the trigger adding one and no change to an alert before
  // the next was added that shows in the end; and the same for events, which are never changed, and their 20000.
  ghost predicate SafeToTear<B>(ops: seq<Op<B>>, o: Op<B>) {
    && (forall a :: a in ops && a.Add? ==> Del(a.kind, a.doc.id) in ops || o == Del(a.kind, a.doc.id))
    && AlertsSafe(OnKind(ops, Alerts), ToList(o, Alerts))
    && EventsSafe(|Recorded(ops)|, o.AddEvent?)
  }

  lemma KindsDelete<B>(ops: seq<Op<B>>, o: Op<B>)
    requires AllShaped(ops)
    ensures (forall k :: k != Alerts ==> AddsDeletedBy(OnKind(ops, k), ToList(o, k))) <==>
            (forall a :: a in ops && a.Add? ==> Del(a.kind, a.doc.id) in ops || o == Del(a.kind, a.doc.id))
  {
    if forall a :: a in ops && a.Add? ==> Del(a.kind, a.doc.id) in ops || o == Del(a.kind, a.doc.id) {
      forall k | k != Alerts ensures AddsDeletedBy(OnKind(ops, k), ToList(o, k)) { KindDeletes(ops, o, k); }
    }
    if forall k :: k != Alerts ==> AddsDeletedBy(OnKind(ops, k), ToList(o, k)) {
      forall a | a in ops && a.Add? ensures Del(a.kind, a.doc.id) in ops || o == Del(a.kind, a.doc.id) { KindDeleted(ops, o, a); }
    }
  }

  lemma KindDeletes<B>(ops: seq<Op<B>>, o: Op<B>, k: Kind)
    requires AllShaped(ops) && k != Alerts
    requires forall a :: a in ops && a.Add? ==> Del(a.kind, a.doc.id) in ops || o == Del(a.kind, a.doc.id)
    ensures AddsDeletedBy(OnKind(ops, k), ToList(o, k))
  {
    forall x | x in OnKind(ops, k) && x.Append?
      ensures Remove(x.doc.id) in OnKind(ops, k) || ToList(o, k) == Some(Remove(x.doc.id))
    {
      OnKindMember(ops, k, x);
      var a :| a in ops && ToList(a, k) == Some(x);
      OnKindMember(ops, k, Remove(x.doc.id));
      var del: Op<B> := Del(k, x.doc.id);
      assert ToList(del, k) == Some(Remove(x.doc.id));
    }
  }

  lemma KindDeleted<B>(ops: seq<Op<B>>, o: Op<B>, a: Op<B>)
    requires AllShaped(ops) && a in ops && a.Add? && forall k :: k != Alerts ==> AddsDeletedBy(OnKind(ops, k), ToList(o, k))
    ensures Del(a.kind, a.doc.id) in ops || o == Del(a.kind, a.doc.id)
  {
    var k, id := a.kind, a.doc.id;
    assert Shaped(a) && ToList(a, k) == Some(Append(a.doc));
    OnKindMember(ops, k, Append(a.doc));
    assert AddsDeletedBy(OnKind(ops, k), ToList(o, k));
    OnKindMember(ops, k, Remove(id));
    if Remove(id) in OnKind(ops, k) {
      var d :| d in ops && ToList(d, k) == Some(Remove(id));
      assert d == Del(k, id);
    }
  }

  ghost predicate KindTorn<B>(s: State<B>, ops: seq<Op<B>>, o: Op<B>, k: Kind) {
    var t := Fold(s, ops);
    Get(Apply(Fold(t, ops), o), k) == Get(Apply(t, o), k) <==>
      (if k == Alerts then AlertsSafe(OnKind(ops, k), ToList(o, k)) else AddsDeletedBy(OnKind(ops, k), ToList(o, k)))
  }

  lemma ShapedTrigger<B>(ops: seq<Op<B>>, o: Op<B>, k: Kind)
    requires AllShaped(ops) && Shaped(o)
    ensures var x := ToList(o, k);
            && (k == Alerts ==> AlertOps(OnKind(ops, k)) && (x.Some? ==> x.value.Append? || x.value.Swap?))
            && (NoUpserts(OnKind(ops, k)) || (NoRemoves(OnKind(ops, k)) && !(x.Some? && x.value.Remove?)))
  {
    forall x | x in OnKind(ops, k)
      ensures (k == Alerts ==> x.Append? || x.Swap?)
              && (k == Sites || k == Devices || k == Twins ==> !x.Remove?)
              && (!(k == Sites || k == Devices || k == Twins) ==> !x.Upsert?)
    {
      OnKindMember(ops, k, x);
      var a :| a in ops && ToList(a, k) == Some(x);
      assert Shaped(a);
    }
  }

  lemma KindTornIff<B>(s: State<B>, ops: seq<Op<B>>, o: Op<B>, k: Kind)
    requires AllShaped(ops) && Shaped(o) && Distinct(s, ops)
    ensures KindTorn(s, ops, o, k)
  {
    var t := Fold(s, ops);
    hide Get, Fold, Apply, ApplyList, ApplyAlerts, Aligned, NoDup, Ids, StepList, StepAlerts, AlertsSafe, AddsDeletedBy, ToList, OnKind, Shaped;
    FoldKind(s, ops, k);
    FoldKind(t, ops, k);
    GetApply(t, o, k);
    GetApply(Fold(t, ops), o, k);
    ShapedTrigger(ops, o, k);
    if k == Alerts {
      AlertsTornIff(Get(s, k), OnKind(ops, k), ToList(o, k));
    } else {
      ListTornIff(Get(s, k), OnKind(ops, k), ToList(o, k));
    }
  }

  // What an operation does to the events.
  lemma ApplyEvents<B>(s: State<B>, o: Op<B>)
    ensures Apply(s, o).seen == (if o.AddEvent? then Suffix(s.seen + [o.doc.id], SEEN_CAP) else s.seen)
    ensures Apply(s, o).events == (if o.AddEvent? then Suffix(s.events + [o.doc], EVENT_CAP) else s.events)
  {
    hide SetIn, ReplaceIn, Without, Suffix;
  }

  lemma SeenTorn<B>(s: State<B>, ops: seq<Op<B>>, o: Op<B>)
    requires Distinct(s, ops) && o.AddEvent? && 0 < |Recorded(ops)| < SEEN_CAP
    ensures var t := Fold(s, ops);
            Suffix(Fold(t, ops).seen + [o.doc.id], SEEN_CAP) == Suffix(t.seen + [o.doc.id], SEEN_CAP) <==> |Recorded(ops)| == SEEN_CAP - 1
  {
    var t, r, x := Fold(s, ops), Recorded(ops), o.doc.id;
    FoldSeen(s, ops);
    FoldSeen(t, ops);
    hide Fold, Ids, Get, NoDup, Suffix, Recorded, Aligned;
    SuffixEnds(s.seen, r, SEEN_CAP);
    SuffixLen(s.seen + r, SEEN_CAP);
    if |r| == SEEN_CAP - 1 {
      SuffixSnoc(t.seen + r, x, SEEN_CAP);
      var y := t.seen[..|t.seen| - |r|];
      assert t.seen + [x] == y + (r + [x]) && t.seen + r + [x] == t.seen + (r + [x]);
      SuffixOfTail(y, r + [x], SEEN_CAP);
      SuffixOfTail(t.seen, r + [x], SEEN_CAP);
    } else {
      AppendShiftDiffers(t.seen, r, SEEN_CAP, x);
    }
  }

  lemma EventsTorn<B>(s: State<B>, ops: seq<Op<B>>)
    requires |s.events| <= EVENT_CAP && |Recorded(ops)| >= EVENT_CAP
    ensures Fold(Fold(s, ops), ops).events == Fold(s, ops).events
  {
    var t := Fold(s, ops);
    FoldEvents(s, ops);
    SuffixLen(s.events + Events(ops), EVENT_CAP);
    FoldEvents(t, ops);
    hide Fold, Suffix, Recorded;
    SuffixOfTail(s.events, Events(ops), EVENT_CAP);
    SuffixOfTail(t.events, Events(ops), EVENT_CAP);
  }

  ghost predicate SeenTornAgrees<B>(s: State<B>, ops: seq<Op<B>>, o: Op<B>) {
    var t := Fold(s, ops); var a, b := Apply(Fold(t, ops), o), Apply(t, o);
    && (a.seen == b.seen <==> EventsSafe(|Recorded(ops)|, o.AddEvent?))
    && (EventsSafe(|Recorded(ops)|, o.AddEvent?) ==> a.events == b.events)
  }

  lemma SeenTornIff<B>(s: State<B>, ops: seq<Op<B>>, o: Op<B>)
    requires Distinct(s, ops)
    ensures SeenTornAgrees(s, ops, o)
  {
    var t := Fold(s, ops);
    hide Fold, Apply, Ids, Get, NoDup, Recorded, Suffix;
    ApplyEvents(t, o);
    ApplyEvents(Fold(t, ops), o);
    SeenReplayIff(s, ops);
    if o.AddEvent? && 0 < |Recorded(ops)| < SEEN_CAP {
      SeenTorn(s, ops, o);
      if |Recorded(ops)| == SEEN_CAP - 1 {
        AlignedEvents(s);
        EventsTorn(s, ops);
      }
    }
  }

  lemma AlignedEvents<B>(s: State<B>)
    requires Aligned(s)
    ensures |s.events| <= EVENT_CAP
  {
    IdsLength(s.events);
    SuffixLen(s.seen, EVENT_CAP);
  }

  // Main theorem: replaying a log over the state it led to, and then the trigger, gives the state the trigger alone gives
  // if and only if log and trigger are safe to tear.
  lemma TornReplayIff<B>(s: State<B>, ops: seq<Op<B>>, o: Op<B>)
    requires AllShaped(ops) && Shaped(o) && Distinct(s, ops)
    ensures var t := Fold(s, ops); Apply(Fold(t, ops), o) == Apply(t, o) <==> SafeToTear(ops, o)
  {
    hide Fold, Get, Distinct, AllShaped, AddsDeletedBy, AlertsSafe, EventsSafe, Apply, Shaped;
    var t := Fold(s, ops);
    var a, b := Apply(Fold(t, ops), o), Apply(t, o);
    SeenTornIff(s, ops, o);
    KindsDelete(ops, o);
    forall k ensures KindTorn(s, ops, o, k) { KindTornIff(s, ops, o, k); }
    if SafeToTear(ops, o) {
      forall k ensures (k in a.docs <==> k in b.docs) && Get(a, k) == Get(b, k) {
        assert KindTorn(s, ops, o, k);
        FoldKind(s, ops, k);
        FoldKind(t, ops, k);
        GetApply(t, o, k);
        GetApply(Fold(t, ops), o, k);
      }
      SameState(a, b);
    }
    if a == b {
      forall k | k != Alerts ensures AddsDeletedBy(OnKind(ops, k), ToList(o, k)) { assert KindTorn(s, ops, o, k); }
      assert KindTorn(s, ops, o, Alerts);
    }
  }

  // ----- the crash --------------------------------------------------------------------------------------------------

  // The state the log was written from.
  function Base<B>(s: Store<B>, empty: State<B>): State<B>
    requires |s.disk.wal| <= |s.history|
  {
    Fold(empty, s.history[..|s.history| - |s.disk.wal|])
  }

  // A crash that leaves the new snapshot beside the old log loses and duplicates nothing, not even the operation that
  // triggered the compaction, if and only if log and trigger are safe to tear.
  lemma TornCompactionIff<B>(s: Store<B>, empty: State<B>, o: Op<B>)
    requires Durable(s, empty) && Left(s, CrashCompacting(o)).Some?
    requires AllShaped(s.disk.wal) && Shaped(o) && Distinct(Base(s, empty), s.disk.wal)
    ensures Next(s, CrashCompacting(o)).state == Apply(s.state, o) <==> SafeToTear(s.disk.wal, o)
    ensures Fold(s.state, s.disk.wal) == s.state <==> Harmless(s.disk.wal)
    ensures Harmless(s.disk.wal) ==> SafeToTear(s.disk.wal, o)
  {
    hide Fold, Apply, Harmless, Distinct, AllShaped, ReplayIndex, SafeToTear, Shaped;
    var n := |s.history| - |s.disk.wal|;
    FoldConcat(empty, s.history[..n], s.disk.wal);
    assert s.history == s.history[..n] + s.disk.wal;
    ReplayTwiceIff(Base(s, empty), s.disk.wal);
    TornReplayIff(Base(s, empty), s.disk.wal, o);
    FoldSnoc(s.state, s.disk.wal, o);
  }
}
