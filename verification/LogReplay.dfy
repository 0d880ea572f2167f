// Replaying a log of the file store over a state that already holds it (internal/store/store.go): what a crash
// between writing a snapshot and truncating the log makes the next start do.
module LogReplay {
  import opened Wrappers
  import opened FileStore
  import opened SeenIndex

  // ----- one list of documents ------------------------------------------------------------------------------

  datatype ListOp<+B> = Upsert(doc: Doc<B>) | Append(doc: Doc<B>) | Swap(doc: Doc<B>) | Remove(id: string)

  function StepList<B>(l: seq<Doc<B>>, o: ListOp<B>): seq<Doc<B>> {
    match o
    case Upsert(d) => SetIn(l, d)
    case Append(d) => l + [d]
    case Swap(d) => ReplaceIn(l, d)
    case Remove(id) => Without(l, id)
  }

  function ApplyList<B>(l: seq<Doc<B>>, ops: seq<ListOp<B>>): seq<Doc<B>> {
    if ops == [] then l else StepList(ApplyList(l, ops[..|ops| - 1]), ops[|ops| - 1])
  }

  predicate Has<B>(l: seq<Doc<B>>, id: string) { First(l, id) < |l| }

  lemma FirstIs<B>(l: seq<Doc<B>>, id: string, i: nat)
    requires i < |l| && l[i].id == id && forall j :: 0 <= j < i ==> l[j].id != id
    ensures First(l, id) == i
  {
  }

  lemma FirstSnoc<B>(l: seq<Doc<B>>, d: Doc<B>, id: string)
    ensures First(l + [d], id) == if Has(l, id) then First(l, id) else if d.id == id then |l| else |l| + 1
  {
    var m := l + [d];
    if Has(l, id) {
      FirstIs(m, id, First(l, id));
    } else if d.id == id {
      FirstIs(m, id, |l|);
    } else {
      assert forall i :: 0 <= i < |m| ==> m[i].id != id;
    }
  }

  lemma ReplaceSnoc<B>(l: seq<Doc<B>>, e: Doc<B>, d: Doc<B>)
    ensures ReplaceIn(l + [e], d) == if Has(l, d.id) then ReplaceIn(l, d) + [e] else if e.id == d.id then l + [d] else l + [e]
  {
    FirstSnoc(l, e, d.id);
  }

  // ----- documents that are deleted later do not matter -------------------------------------------------------

  function Keep<B>(l: seq<Doc<B>>, gone: set<string>): seq<Doc<B>> {
    if l == [] then []
    else if l[|l| - 1].id in gone then Keep(l[..|l| - 1], gone)
    else Keep(l[..|l| - 1], gone) + [l[|l| - 1]]
  }

  lemma KeepSnoc<B>(l: seq<Doc<B>>, d: Doc<B>, gone: set<string>)
    ensures Keep(l + [d], gone) == if d.id in gone then Keep(l, gone) else Keep(l, gone) + [d]
  {
    assert (l + [d])[..|l|] == l;
  }

  lemma WithoutSnoc<B>(l: seq<Doc<B>>, d: Doc<B>, id: string)
    ensures Without(l + [d], id) == if d.id == id then Without(l, id) else Without(l, id) + [d]
  {
    assert (l + [d])[..|l|] == l;
  }

  lemma {:induction false} KeepHas<B>(l: seq<Doc<B>>, gone: set<string>, id: string)
    ensures Has(Keep(l, gone), id) <==> Has(l, id) && id !in gone
  {
    hide First;
    if l != [] {
      var front, e := l[..|l| - 1], l[|l| - 1];
      assert l == front + [e];
      KeepHas(front, gone, id);
      FirstSnoc(front, e, id);
      KeepSnoc(front, e, gone);
      FirstSnoc(Keep(front, gone), e, id);
    }
  }

  lemma {:induction false} KeepReplace<B>(l: seq<Doc<B>>, d: Doc<B>, gone: set<string>)
    ensures Keep(ReplaceIn(l, d), gone) == if d.id in gone then Keep(l, gone) else ReplaceIn(Keep(l, gone), d)
  {
    hide First, ReplaceIn, Keep;
    if l == [] {
      KeepEmpty<B>(gone, d);
    } else {
      var front, e := l[..|l| - 1], l[|l| - 1];
      assert l == front + [e];
      KeepReplace(front, d, gone);
      KeepHas(front, gone, d.id);
      ReplaceSnoc(front, e, d);
      ReplaceSnoc(Keep(front, gone), e, d);
      KeepSnoc(front, e, gone);
      KeepSnoc(front, d, gone);
      KeepSnoc(ReplaceIn(front, d), e, gone);
      ReplaceAbsent(Keep(front, gone), d);
    }
  }

  lemma KeepEmpty<B>(gone: set<string>, d: Doc<B>)
    ensures Keep<B>([], gone) == [] && ReplaceIn([], d) == []
  {
  }

  lemma ReplaceAbsent<B>(l: seq<Doc<B>>, d: Doc<B>)
    ensures !Has(l, d.id) ==> ReplaceIn(l, d) == l
  {
  }

  lemma {:induction false} KeepWithout<B>(l: seq<Doc<B>>, id: string, gone: set<string>)
    ensures Keep(Without(l, id), gone - {id}) == Without(Keep(l, gone), id)
  {
    hide Keep, Without;
    if l == [] {
      NoneLeft<B>(id, gone);
    } else {
      var front, e := l[..|l| - 1], l[|l| - 1];
      assert l == front + [e];
      KeepWithout(front, id, gone);
      KeepSnoc(front, e, gone);
      WithoutSnoc(front, e, id);
      WithoutSnoc(Keep(front, gone), e, id);
      KeepSnoc(Without(front, id), e, gone - {id});
    }
  }

  lemma NoneLeft<B>(id: string, gone: set<string>)
    ensures Keep<B>([], gone - {id}) == [] && Without<B>([], id) == [] && Keep<B>([], gone) == []
  {
  }

  function Removed<B>(ops: seq<ListOp<B>>): set<string> {
    if ops == [] then {}
    else Removed(ops[..|ops| - 1]) + (if ops[|ops| - 1].Remove? then {ops[|ops| - 1].id} else {})
  }

  lemma KeepStep<B>(a: seq<Doc<B>>, b: seq<Doc<B>>, o: ListOp<B>, gone: set<string>)
    requires Keep(a, gone) == Keep(b, gone)
    ensures var left := gone - (if o.Remove? then {o.id} else {});
            Keep(StepList(a, o), left) == Keep(StepList(b, o), left)
  {
    hide Keep, First, Without;
    assert gone - {} == gone;
    match o
    case Append(d) =>
      KeepSnoc(a, d, gone);
      KeepSnoc(b, d, gone);
    case Swap(d) =>
      KeepReplace(a, d, gone);
      KeepReplace(b, d, gone);
    case Remove(id) =>
      KeepWithout(a, id, gone);
      KeepWithout(b, id, gone);
    case Upsert(d) =>
      KeepHas(a, gone, d.id);
      KeepHas(b, gone, d.id);
      KeepReplace(a, d, gone);
      KeepReplace(b, d, gone);
      KeepSnoc(a, d, gone);
      KeepSnoc(b, d, gone);
  }

  lemma {:induction false} DoomedDontMatter<B>(a: seq<Doc<B>>, b: seq<Doc<B>>, ops: seq<ListOp<B>>, gone: set<string>)
    requires Keep(a, gone) == Keep(b, gone)
    ensures Keep(ApplyList(a, ops), gone - Removed(ops)) == Keep(ApplyList(b, ops), gone - Removed(ops))
  {
    if ops == [] {
      assert gone - {} == gone;
    } else {
      var front, o := ops[..|ops| - 1], ops[|ops| - 1];
      DoomedDontMatter(a, b, front, gone);
      hide Keep, StepList;
      var left := gone - Removed(front);
      KeepStep(ApplyList(a, front), ApplyList(b, front), o, left);
      assert left - (if o.Remove? then {o.id} else {}) == gone - Removed(ops);
    }
  }

  lemma {:induction false} KeepAll<B>(l: seq<Doc<B>>, gone: set<string>)
    requires NoneIn(l, gone)
    ensures Keep(l, gone) == l
  {
    if l != [] {
      var front := l[..|l| - 1];
      assert forall i :: 0 <= i < |front| ==> front[i] == l[i];
      KeepAll(front, gone);
    }
  }

  ghost predicate NoneIn<B>(l: seq<Doc<B>>, ids: set<string>) { forall i :: 0 <= i < |l| ==> l[i].id !in ids }

  ghost predicate AllIn<B>(l: seq<Doc<B>>, ids: set<string>) { forall i :: 0 <= i < |l| ==> l[i].id in ids }

  lemma {:induction false} KeepNoneIn<B>(l: seq<Doc<B>>, gone: set<string>)
    ensures NoneIn(Keep(l, gone), gone) && Keep(Keep(l, gone), gone) == Keep(l, gone)
  {
    if l != [] { KeepNoneIn(l[..|l| - 1], gone); }
    KeepAll(Keep(l, gone), gone);
  }

  // A log's result depends on its list only through the ids it never deletes.
  lemma OnlySurvivors<B>(l: seq<Doc<B>>, ops: seq<ListOp<B>>)
    ensures ApplyList(l, ops) == ApplyList(Keep(l, Removed(ops)), ops)
  {
    hide ApplyList, Keep, Removed;
    var gone := Removed(ops);
    KeepNoneIn(l, gone);
    DoomedDontMatter(l, Keep(l, gone), ops, gone);
    assert gone - gone == {};
    KeepAll(ApplyList(l, ops), {});
    KeepAll(ApplyList(Keep(l, gone), ops), {});
  }

  // ----- logs without upserts ---------------------------------------------------------------------------------

  lemma ReplaceConcat<B>(a: seq<Doc<B>>, b: seq<Doc<B>>, d: Doc<B>)
    requires !(Has(a, d.id) && Has(b, d.id))
    ensures ReplaceIn(a + b, d) == ReplaceIn(a, d) + ReplaceIn(b, d)
  {
    var c := a + b;
    if Has(a, d.id) {
      FirstIs(c, d.id, First(a, d.id));
    } else if Has(b, d.id) {
      FirstIs(c, d.id, |a| + First(b, d.id));
    } else {
      assert forall i :: 0 <= i < |c| ==> c[i].id != d.id;
    }
  }

  lemma {:induction false} WithoutConcat<B>(a: seq<Doc<B>>, b: seq<Doc<B>>, id: string)
    requires !Has(a, id)
    ensures Without(a + b, id) == a + Without(b, id)
  {
    if b == [] {
      assert a + b == a;
      WithoutAbsent(a, id);
    } else {
      var front, e := b[..|b| - 1], b[|b| - 1];
      WithoutConcat(a, front, id);
      assert a + b == (a + front) + [e] && b == front + [e];
      WithoutSnoc(a + front, e, id);
      WithoutSnoc(front, e, id);
    }
  }

  lemma {:induction false} WithoutAbsent<B>(l: seq<Doc<B>>, id: string)
    requires forall i :: 0 <= i < |l| ==> l[i].id != id
    ensures Without(l, id) == l
  {
    if l != [] {
      var front := l[..|l| - 1];
      assert forall i :: 0 <= i < |front| ==> front[i] == l[i];
      WithoutAbsent(front, id);
    }
  }

  lemma {:induction false} WithoutIn<B>(l: seq<Doc<B>>, id: string, ids: set<string>)
    requires AllIn(l, ids)
    ensures AllIn(Without(l, id), ids)
  {
    if l != [] {
      var front := l[..|l| - 1];
      assert forall i :: 0 <= i < |front| ==> front[i] == l[i];
      WithoutIn(front, id, ids);
    }
  }

  function Swaps<B>(ops: seq<ListOp<B>>): seq<ListOp<B>> {
    if ops == [] then []
    else if ops[|ops| - 1].Swap? then Swaps(ops[..|ops| - 1]) + [ops[|ops| - 1]]
    else Swaps(ops[..|ops| - 1])
  }

  lemma ApplySnoc<B>(l: seq<Doc<B>>, ops: seq<ListOp<B>>, o: ListOp<B>)
    ensures ApplyList(l, ops + [o]) == StepList(ApplyList(l, ops), o)
  {
    assert (ops + [o])[..|ops|] == ops;
  }

  // Everything is appended or deleted under one set of ids.
  ghost predicate Within<B>(ops: seq<ListOp<B>>, ids: set<string>) {
    forall i :: 0 <= i < |ops| ==>
      !ops[i].Upsert? && (ops[i].Append? ==> ops[i].doc.id in ids) && (ops[i].Remove? ==> ops[i].id in ids)
  }

  // From a list that has none of those ids, the log swaps in place and builds what it appends behind it.
  lemma {:induction false} OldAndNew<B>(a: seq<Doc<B>>, ops: seq<ListOp<B>>, ids: set<string>)
    requires Within(ops, ids) && NoneIn(a, ids)
    ensures ApplyList(a, ops) == ApplyList(a, Swaps(ops)) + ApplyList([], ops)
    ensures NoneIn(ApplyList(a, Swaps(ops)), ids) && AllIn(ApplyList([], ops), ids)
  {
    if ops != [] {
      var front, o := ops[..|ops| - 1], ops[|ops| - 1];
      assert forall i :: 0 <= i < |front| ==> front[i] == ops[i];
      OldAndNew(a, front, ids);
      var x, y := ApplyList(a, Swaps(front)), ApplyList([], front);
      match o
      case Append(d) => assert x + y + [d] == x + (y + [d]);
      case Remove(id) =>
        WithoutConcat(x, y, id);
        WithoutIn(y, id, ids);
      case Swap(d) =>
        ApplySnoc(a, Swaps(front), o);
        ReplaceConcat(x, y, d);
    }
  }

  // ----- logs without deletions ---------------------------------------------------------------------------------

  // The last document written under an id.
  function LastWrite<B>(ops: seq<ListOp<B>>, id: string): Option<Doc<B>> {
    if ops == [] then None
    else
      var o := ops[|ops| - 1];
      if (o.Upsert? || o.Swap?) && o.doc.id == id then Some(o.doc) else LastWrite(ops[..|ops| - 1], id)
  }

  ghost predicate Writes<B>(ops: seq<ListOp<B>>) { forall i :: 0 <= i < |ops| ==> ops[i].Upsert? || ops[i].Swap? }

  lemma FirstAfterReplace<B>(l: seq<Doc<B>>, d: Doc<B>, id: string)
    ensures var m := ReplaceIn(l, d);
            && |m| == |l| && First(m, id) == First(l, id)
            && (Has(l, id) ==> m[First(m, id)] == if id == d.id then d else l[First(l, id)])
            && (forall i :: 0 <= i < |l| ==> m[i].id == l[i].id)
            && (forall i :: 0 <= i < |l| ==> m[i] == if i == First(l, d.id) then d else l[i])
  {
    var m := ReplaceIn(l, d);
    if Has(l, id) { FirstIs(m, id, First(l, id)); } else { assert forall j :: 0 <= j < |m| ==> m[j].id != id; }
  }

  lemma FirstAfterWrite<B>(l: seq<Doc<B>>, o: ListOp<B>, id: string)
    requires o.Upsert? || o.Swap?
    ensures var m := StepList(l, o);
            && (id == o.doc.id && (o.Upsert? || Has(l, id)) ==> Has(m, id) && m[First(m, id)] == o.doc)
            && (id == o.doc.id && o.Swap? && !Has(l, id) ==> m == l)
            && (id != o.doc.id ==> (Has(m, id) <==> Has(l, id)) && (Has(l, id) ==> m[First(m, id)] == l[First(l, id)]))
  {
    FirstAfterReplace(l, o.doc, id);
    FirstSnoc(l, o.doc, id);
  }

  // After a log of writes, the first document of every id it writes that is there at all is the last one written.
  lemma {:induction false} WritesLand<B>(l: seq<Doc<B>>, ops: seq<ListOp<B>>, id: string)
    requires Writes(ops)
    ensures var m := ApplyList(l, ops);
            && (Has(l, id) ==> Has(m, id))
            && (Has(m, id) && LastWrite(ops, id).Some? ==> Some(m[First(m, id)]) == LastWrite(ops, id))
  {
    if ops != [] {
      var front, o := ops[..|ops| - 1], ops[|ops| - 1];
      assert forall i :: 0 <= i < |front| ==> front[i] == ops[i];
      WritesLand(l, front, id);
      hide First, StepList;
      FirstAfterWrite(ApplyList(l, front), o, id);
    }
  }

  lemma {:induction false} UpsertStays<B>(l: seq<Doc<B>>, ops: seq<ListOp<B>>, i: nat)
    requires Writes(ops) && i < |ops| && ops[i].Upsert?
    ensures Has(ApplyList(l, ops), ops[i].doc.id)
  {
    var front, o := ops[..|ops| - 1], ops[|ops| - 1];
    assert forall i :: 0 <= i < |front| ==> front[i] == ops[i];
    if i < |front| { UpsertStays(l, front, i); }
    hide First, StepList;
    FirstAfterWrite(ApplyList(l, front), o, ops[i].doc.id);
  }

  predicate Overwritten<B>(l: seq<Doc<B>>, ops: seq<ListOp<B>>, i: nat)
    requires i < |l|
  {
    First(l, l[i].id) == i && LastWrite(ops, l[i].id).Some?
  }

  // Where every upserted id is present already, a log of writes rewrites documents in place.
  lemma {:induction false} WritesInPlace<B>(l: seq<Doc<B>>, ops: seq<ListOp<B>>)
    requires Writes(ops) && forall i :: 0 <= i < |ops| && ops[i].Upsert? ==> Has(l, ops[i].doc.id)
    ensures var m := ApplyList(l, ops);
            && |m| == |l|
            && (forall i :: 0 <= i < |l| ==> m[i].id == l[i].id)
            && (forall i :: 0 <= i < |l| ==> m[i] == if Overwritten(l, ops, i) then LastWrite(ops, l[i].id).value else l[i])
  {
    if ops != [] {
      var front, o := ops[..|ops| - 1], ops[|ops| - 1];
      assert forall i :: 0 <= i < |front| ==> front[i] == ops[i];
      WritesInPlace(l, front);
      var m := ApplyList(l, front);
      SameIdsSameFirst(l, m, o.doc.id);
      FirstAfterReplace(m, o.doc, o.doc.id);
      assert StepList(m, o) == ReplaceIn(m, o.doc);
      var m' := ReplaceIn(m, o.doc);
      forall i | 0 <= i < |l|
        ensures m'[i].id == l[i].id && m'[i] == if Overwritten(l, ops, i) then LastWrite(ops, l[i].id).value else l[i]
      {
        assert m[i].id == l[i].id;
      }
    }
  }

  lemma SameIdsSameFirst<B>(l: seq<Doc<B>>, m: seq<Doc<B>>, id: string)
    requires |l| == |m| && forall i :: 0 <= i < |l| ==> m[i].id == l[i].id
    ensures First(m, id) == First(l, id)
  {
    if Has(l, id) { FirstIs(m, id, First(l, id)); } else { assert forall j :: 0 <= j < |m| ==> m[j].id != id; }
  }

  lemma WritesIdempotent<B>(l: seq<Doc<B>>, ops: seq<ListOp<B>>)
    requires Writes(ops)
    ensures ApplyList(ApplyList(l, ops), ops) == ApplyList(l, ops)
  {
    hide ApplyList, First;
    var m := ApplyList(l, ops);
    forall i | 0 <= i < |ops| && ops[i].Upsert? ensures Has(m, ops[i].doc.id) { UpsertStays(l, ops, i); }
    WritesInPlace(m, ops);
    forall i | 0 <= i < |m| ensures ApplyList(m, ops)[i] == m[i] { WritesLand(l, ops, m[i].id); }
  }

  // ----- what is added and never deleted piles up ---------------------------------------------------------------

  function Count<B>(l: seq<Doc<B>>, id: string): nat {
    if l == [] then 0 else Count(l[..|l| - 1], id) + (if l[|l| - 1].id == id then 1 else 0)
  }

  function Adds<B>(ops: seq<ListOp<B>>, id: string): nat {
    if ops == [] then 0
    else Adds(ops[..|ops| - 1], id) + (if ops[|ops| - 1].Append? && ops[|ops| - 1].doc.id == id then 1 else 0)
  }

  lemma CountSnoc<B>(l: seq<Doc<B>>, d: Doc<B>, id: string)
    ensures Count(l + [d], id) == Count(l, id) + (if d.id == id then 1 else 0)
  {
    assert (l + [d])[..|l|] == l;
  }

  lemma {:induction false} CountHas<B>(l: seq<Doc<B>>, id: string)
    ensures Count(l, id) > 0 <==> Has(l, id)
  {
    if l != [] {
      var front, e := l[..|l| - 1], l[|l| - 1];
      CountHas(front, id);
      assert l == front + [e];
      FirstSnoc(front, e, id);
    }
  }

  lemma {:induction false} CountWithout<B>(l: seq<Doc<B>>, x: string, id: string)
    requires x != id
    ensures Count(Without(l, x), id) == Count(l, id)
  {
    if l != [] {
      var front, e := l[..|l| - 1], l[|l| - 1];
      CountWithout(front, x, id);
      assert l == front + [e];
      WithoutSnoc(front, e, x);
      CountSnoc(Without(front, x), e, id);
    }
  }

  lemma {:induction false} CountReplace<B>(l: seq<Doc<B>>, d: Doc<B>, id: string)
    ensures Count(ReplaceIn(l, d), id) == Count(l, id)
  {
    hide First, ReplaceIn;
    if l == [] {
      KeepEmpty<B>({}, d);
    } else {
      var front, e := l[..|l| - 1], l[|l| - 1];
      assert l == front + [e];
      CountReplace(front, d, id);
      ReplaceSnoc(front, e, d);
      CountSnoc(ReplaceIn(front, d), e, id);
      CountSnoc(front, d, id);
      CountSnoc(front, e, id);
    }
  }

  lemma SetCases<B>(l: seq<Doc<B>>, d: Doc<B>)
    ensures SetIn(l, d) == if Has(l, d.id) then ReplaceIn(l, d) else l + [d]
  {
  }

  lemma CountStep<B>(l: seq<Doc<B>>, o: ListOp<B>, id: string)
    requires o != Remove(id)
    ensures var n := Count(StepList(l, o), id);
            && (o.Append? && o.doc.id == id ==> n == Count(l, id) + 1)
            && (!(o.Append? && o.doc.id == id) ==> n >= Count(l, id) && (Count(l, id) > 0 ==> n == Count(l, id)))
  {
    hide First, Without, ReplaceIn, SetIn, Count;
    match o
    case Append(d) => CountSnoc(l, d, id);
    case Swap(d) => CountReplace(l, d, id);
    case Remove(x) => CountWithout(l, x, id);
    case Upsert(d) =>
      CountHas(l, id);
      CountReplace(l, d, id);
      CountSnoc(l, d, id);
      SetCases(l, d);
  }

  lemma {:induction false} CountGrows<B>(l: seq<Doc<B>>, ops: seq<ListOp<B>>, id: string)
    requires Remove(id) !in ops
    ensures Count(ApplyList(l, ops), id) >= Adds(ops, id)
    ensures Count(ApplyList(l, ops), id) >= Count(l, id)
    ensures Count(l, id) > 0 ==> Count(ApplyList(l, ops), id) == Count(l, id) + Adds(ops, id)
  {
    if ops != [] {
      var front, o := ops[..|ops| - 1], ops[|ops| - 1];
      CountGrows(l, front, id);
      hide Count, StepList;
      CountStep(ApplyList(l, front), o, id);
    }
  }

  lemma {:induction false} AddsPositive<B>(ops: seq<ListOp<B>>, i: nat)
    requires i < |ops| && ops[i].Append?
    ensures Adds(ops, ops[i].doc.id) > 0
  {
    if i < |ops| - 1 { AddsPositive(ops[..|ops| - 1], i); }
  }

  // ----- the exact condition for one list -----------------------------------------------------------------------

  // Every id that is added is also deleted somewhere in the log.
  ghost predicate AddsDeletedIn<B>(ops: seq<ListOp<B>>) {
    forall o :: o in ops && o.Append? ==> Remove(o.doc.id) in ops
  }

  ghost predicate NoUpserts<B>(ops: seq<ListOp<B>>) { forall o :: o in ops ==> !o.Upsert? }

  ghost predicate NoRemoves<B>(ops: seq<ListOp<B>>) { forall o :: o in ops ==> !o.Remove? }

  lemma {:induction false} RemovedIff<B>(ops: seq<ListOp<B>>, id: string)
    ensures id in Removed(ops) <==> Remove(id) in ops
  {
    if ops != [] {
      var front, o := ops[..|ops| - 1], ops[|ops| - 1];
      RemovedIff(front, id);
      assert ops == front + [o];
    }
  }

  lemma {:induction false} SwapsAreWrites<B>(ops: seq<ListOp<B>>)
    ensures Writes(Swaps(ops))
  {
    if ops != [] { SwapsAreWrites(ops[..|ops| - 1]); }
  }

  lemma ReplayDeleted<B>(l: seq<Doc<B>>, ops: seq<ListOp<B>>)
    requires NoUpserts(ops) && AddsDeletedIn(ops)
    ensures ApplyList(ApplyList(l, ops), ops) == ApplyList(l, ops)
  {
    var gone := Removed(ops);
    forall i | 0 <= i < |ops|
      ensures !ops[i].Upsert? && (ops[i].Append? ==> ops[i].doc.id in gone) && (ops[i].Remove? ==> ops[i].id in gone)
    {
      assert ops[i] in ops;
      if ops[i].Append? { RemovedIff(ops, ops[i].doc.id); }
      if ops[i].Remove? { RemovedIff(ops, ops[i].id); }
    }
    hide ApplyList, Removed, Keep, Swaps;
    OnlySurvivors(l, ops);
    var k, m := Keep(l, gone), ApplyList(l, ops);
    KeepNoneIn(l, gone);
    OldAndNew(k, ops, gone);
    var p, q := ApplyList(k, Swaps(ops)), ApplyList([], ops);
    KeepOldPart(p, q, gone);
    OnlySurvivors(m, ops);
    OldAndNew(p, ops, gone);
    SwapsAreWrites(ops);
    WritesIdempotent(k, Swaps(ops));
  }

  lemma {:induction false} KeepOldPart<B>(p: seq<Doc<B>>, q: seq<Doc<B>>, gone: set<string>)
    requires NoneIn(p, gone) && AllIn(q, gone)
    ensures Keep(p + q, gone) == p
  {
    if q == [] {
      assert p + q == p;
      KeepAll(p, gone);
    } else {
      var front, e := q[..|q| - 1], q[|q| - 1];
      assert forall i :: 0 <= i < |front| ==> front[i] == q[i];
      KeepOldPart(p, front, gone);
      assert p + q == (p + front) + [e];
      KeepSnoc(p + front, e, gone);
    }
  }

  // A log of one list that does not mix upserts and deletions can be replayed over a list that already holds it if
  // and only if it deletes every id it adds.
  lemma ListReplayIff<B>(l: seq<Doc<B>>, ops: seq<ListOp<B>>)
    requires NoUpserts(ops) || NoRemoves(ops)
    ensures ApplyList(ApplyList(l, ops), ops) == ApplyList(l, ops) <==> AddsDeletedIn(ops)
  {
    hide ApplyList;
    if AddsDeletedIn(ops) {
      if NoUpserts(ops) {
        ReplayDeleted(l, ops);
      } else {
        forall i | 0 <= i < |ops| ensures ops[i].Upsert? || ops[i].Swap? { assert ops[i] in ops; }
        WritesIdempotent(l, ops);
      }
    } else {
      var o :| o in ops && o.Append? && Remove(o.doc.id) !in ops;
      var i :| 0 <= i < |ops| && ops[i] == o;
      AddsPositive(ops, i);
      CountGrows(l, ops, o.doc.id);
      CountGrows(ApplyList(l, ops), ops, o.doc.id);
    }
  }

  // ----- the capped list of alerts --------------------------------------------------------------------------------

  function StepAlerts<B>(l: seq<Doc<B>>, o: ListOp<B>): seq<Doc<B>> {
    if o.Append? then Suffix(l + [o.doc], ALERT_CAP) else StepList(l, o)
  }

  function ApplyAlerts<B>(l: seq<Doc<B>>, ops: seq<ListOp<B>>): seq<Doc<B>> {
    if ops == [] then l else StepAlerts(ApplyAlerts(l, ops[..|ops| - 1]), ops[|ops| - 1])
  }

  function AddedIds<B>(ops: seq<ListOp<B>>): seq<string> {
    if ops == [] then []
    else if ops[|ops| - 1].Append? then AddedIds(ops[..|ops| - 1]) + [ops[|ops| - 1].doc.id]
    else AddedIds(ops[..|ops| - 1])
  }

  ghost predicate AlertOps<B>(ops: seq<ListOp<B>>) { forall o :: o in ops ==> o.Append? || o.Swap? }

  lemma AlertOpsFront<B>(ops: seq<ListOp<B>>)
    requires AlertOps(ops) && ops != []
    ensures AlertOps(ops[..|ops| - 1]) && (ops[|ops| - 1].Append? || ops[|ops| - 1].Swap?)
  {
    assert forall o :: o in ops[..|ops| - 1] ==> o in ops;
    assert ops[|ops| - 1] in ops;
  }

  lemma IdsReplace<B>(l: seq<Doc<B>>, d: Doc<B>)
    ensures Ids(ReplaceIn(l, d)) == Ids(l)
  {
    FirstAfterReplace(l, d, d.id);
  }

  lemma IdsSuffix<B>(l: seq<Doc<B>>, d: Doc<B>)
    ensures Ids(Suffix(l + [d], ALERT_CAP)) == Suffix(Ids(l) + [d.id], ALERT_CAP)
  {
    assert Ids(l + [d]) == Ids(l) + [d.id];
  }

  // The ids are the last 2000 of those there were and those added.
  lemma {:induction false} AlertIdsWindow<B>(l: seq<Doc<B>>, ops: seq<ListOp<B>>)
    requires AlertOps(ops) && |l| <= ALERT_CAP
    ensures Ids(ApplyAlerts(l, ops)) == Suffix(Ids(l) + AddedIds(ops), ALERT_CAP)
  {
    if ops == [] {
      assert Ids(l) + [] == Ids(l);
    } else {
      var front, o := ops[..|ops| - 1], ops[|ops| - 1];
      AlertOpsFront(ops);
      AlertIdsWindow(l, front);
      hide Ids, First;
      var m := ApplyAlerts(l, front);
      if o.Append? {
        IdsSuffix(m, o.doc);
        SuffixSnoc(Ids(l) + AddedIds(front), o.doc.id, ALERT_CAP);
        assert Ids(l) + AddedIds(ops) == Ids(l) + AddedIds(front) + [o.doc.id];
      } else {
        IdsReplace(m, o.doc);
      }
    }
  }

  lemma {:induction false} NoneAdded<B>(l: seq<Doc<B>>, ops: seq<ListOp<B>>)
    requires AlertOps(ops) && AddedIds(ops) == []
    ensures Writes(ops) && ApplyAlerts(l, ops) == ApplyList(l, ops)
  {
    if ops != [] {
      AlertOpsFront(ops);
      NoneAdded(l, ops[..|ops| - 1]);
    }
  }

  function Back<B>(l: seq<Doc<B>>, i: nat): Doc<B>
    requires 1 <= i <= |l|
  {
    l[|l| - i]
  }

  // The last n documents of both are the same.
  ghost predicate Shared<B>(a: seq<Doc<B>>, b: seq<Doc<B>>, n: nat) {
    n <= |a| && n <= |b| && forall i :: 1 <= i <= n ==> Back(a, i) == Back(b, i)
  }

  lemma SharedReplace<B>(a: seq<Doc<B>>, b: seq<Doc<B>>, n: nat, d: Doc<B>)
    requires Shared(a, b, n) && NoDup(Ids(a)) && NoDup(Ids(b))
    ensures Shared(ReplaceIn(a, d), ReplaceIn(b, d), n)
  {
    SharedAt(a, b, n, d.id);
    SharedAt(b, a, n, d.id);
    var a', b' := ReplaceIn(a, d), ReplaceIn(b, d);
    forall i | 1 <= i <= n ensures Back(a', i) == Back(b', i) { assert Back(a, i) == Back(b, i); }
  }

  lemma FirstHas<B>(l: seq<Doc<B>>, id: string)
    requires Has(l, id)
    ensures l[First(l, id)].id == id
  {
  }

  lemma OnlyFirst<B>(l: seq<Doc<B>>, j: nat)
    requires NoDup(Ids(l)) && j < |l|
    ensures First(l, l[j].id) == j
  {
    forall k | 0 <= k < j ensures l[k].id != l[j].id { assert Ids(l)[k] != Ids(l)[j]; }
    FirstIs(l, l[j].id, j);
  }

  lemma SharedBack<B>(a: seq<Doc<B>>, b: seq<Doc<B>>, n: nat, i: nat)
    requires Shared(a, b, n) && 1 <= i <= n
    ensures i <= |a| && i <= |b| && a[|a| - i] == b[|b| - i]
  {
    assert Back(a, i) == Back(b, i);
  }

  // In a list of distinct ids, the first document of an id that is shared is the shared one.
  lemma SharedAt<B>(a: seq<Doc<B>>, b: seq<Doc<B>>, n: nat, id: string)
    requires Shared(a, b, n) && NoDup(Ids(b))
    ensures Has(a, id) && |a| - First(a, id) <= n ==> Has(b, id) && |b| - First(b, id) == |a| - First(a, id)
  {
    hide NoDup, Ids, First, Shared;
    if Has(a, id) && |a| - First(a, id) <= n {
      var i := |a| - First(a, id);
      FirstHas(a, id);
      SharedBack(a, b, n, i);
      OnlyFirst(b, |b| - i);
    }
  }

  lemma SharedAppend<B>(a: seq<Doc<B>>, b: seq<Doc<B>>, n: nat, d: Doc<B>)
    requires Shared(a, b, n) && n <= ALERT_CAP
    ensures Shared(Suffix(a + [d], ALERT_CAP), Suffix(b + [d], ALERT_CAP), if n < ALERT_CAP then n + 1 else ALERT_CAP)
  {
    var a', b' := Suffix(a + [d], ALERT_CAP), Suffix(b + [d], ALERT_CAP);
    forall i | 1 <= i <= (if n < ALERT_CAP then n + 1 else ALERT_CAP) ensures Back(a', i) == Back(b', i) {
      BackSuffix(a, d, i);
      BackSuffix(b, d, i);
      if i > 1 { assert Back(a, i - 1) == Back(b, i - 1); }
    }
  }

  lemma BackSuffix<B>(l: seq<Doc<B>>, d: Doc<B>, i: nat)
    requires 1 <= i <= |l| + 1 && i <= ALERT_CAP
    ensures i <= |Suffix(l + [d], ALERT_CAP)| && Back(Suffix(l + [d], ALERT_CAP), i) == if i == 1 then d else Back(l, i - 1)
  {
  }

  function Min(a: nat, b: nat): nat { if a < b then a else b }

  // From two lists that never hold an id twice, the log builds the same documents at the end.
  lemma {:induction false} SharedRun<B>(a: seq<Doc<B>>, b: seq<Doc<B>>, ops: seq<ListOp<B>>)
    requires AlertOps(ops) && |a| <= ALERT_CAP && |b| <= ALERT_CAP
    requires NeverTwice(Ids(a), AddedIds(ops)) && NeverTwice(Ids(b), AddedIds(ops))
    ensures Shared(ApplyAlerts(a, ops), ApplyAlerts(b, ops), Min(|AddedIds(ops)|, ALERT_CAP))
  {
    if ops != [] {
      var front, o := ops[..|ops| - 1], ops[|ops| - 1];
      AlertOpsFront(ops);
      NeverTwiceFront(Ids(a), ops);
      NeverTwiceFront(Ids(b), ops);
      SharedRun(a, b, front);
      hide Shared, First, NoDup, Ids;
      var x, y, n := ApplyAlerts(a, front), ApplyAlerts(b, front), Min(|AddedIds(front)|, ALERT_CAP);
      if o.Append? {
        SharedAppend(x, y, n, o.doc);
      } else {
        AlertIdsWindow(a, front);
        AlertIdsWindow(b, front);
        assert AddedIds(front)[..|AddedIds(front)|] == AddedIds(front);
        SharedReplace(x, y, n, o.doc);
      }
    }
  }

  // At no point of the log does the window hold an id twice.
  ghost predicate NeverTwice(ids: seq<string>, added: seq<string>) {
    forall t :: 0 <= t <= |added| ==> NoDup(Suffix(ids + added[..t], ALERT_CAP))
  }

  lemma NeverTwiceFront<B>(ids: seq<string>, ops: seq<ListOp<B>>)
    requires ops != [] && NeverTwice(ids, AddedIds(ops))
    ensures NeverTwice(ids, AddedIds(ops[..|ops| - 1]))
  {
    hide NoDup, Suffix;
    var f, all := AddedIds(ops[..|ops| - 1]), AddedIds(ops);
    forall t | 0 <= t <= |f| ensures NoDup(Suffix(ids + f[..t], ALERT_CAP)) {
      assert all[..t] == f[..t];
    }
  }

  lemma DistinctNeverTwice(ids: seq<string>, added: seq<string>)
    requires NoDup(ids + added)
    ensures NeverTwice(ids, added)
  {
    var all := ids + added;
    forall t | 0 <= t <= |added| ensures NoDup(Suffix(ids + added[..t], ALERT_CAP)) {
      var part := ids + added[..t];
      assert forall i :: 0 <= i < |part| ==> part[i] == all[i];
      var off := |part| - |Suffix(part, ALERT_CAP)|;
      assert forall i :: 0 <= i < |part| - off ==> Suffix(part, ALERT_CAP)[i] == part[off + i];
    }
  }

  // Replayed over its own last 2000 ids, a log that adds at least that many shifts each out before it comes again.
  lemma ReplayNeverTwice(added: seq<string>)
    requires NoDup(added) && |added| >= ALERT_CAP
    ensures NeverTwice(Suffix(added, ALERT_CAP), added)
  {
    var w, k := Suffix(added, ALERT_CAP), |added|;
    forall t | 0 <= t <= k ensures NoDup(Suffix(w + added[..t], ALERT_CAP)) {
      var part := w + added[..t];
      var s := Suffix(part, ALERT_CAP);
      forall i, j | 0 <= i < j < |s| ensures s[i] != s[j] {
        assert s[i] == part[t + i] && s[j] == part[t + j];
        var i' := if t + i < ALERT_CAP then k - ALERT_CAP + t + i else t + i - ALERT_CAP;
        var j' := if t + j < ALERT_CAP then k - ALERT_CAP + t + j else t + j - ALERT_CAP;
        assert part[t + i] == added[i'] && part[t + j] == added[j'];
        assert i' != j';
      }
    }
  }

  lemma AlertsSettle<B>(l: seq<Doc<B>>, ops: seq<ListOp<B>>)
    requires AlertOps(ops) && |l| <= ALERT_CAP && NoDup(Ids(l) + AddedIds(ops)) && |AddedIds(ops)| >= ALERT_CAP
    ensures ApplyAlerts(ApplyAlerts(l, ops), ops) == ApplyAlerts(l, ops)
  {
    hide ApplyAlerts, NeverTwice;
    var m, added := ApplyAlerts(l, ops), AddedIds(ops);
    AlertIdsWindow(l, ops);
    SuffixOfTail(Ids(l), added, ALERT_CAP);
    AlertIdsWindow(m, ops);
    DistinctNeverTwice(Ids(l), added);
    assert forall i :: 0 <= i < |added| ==> (Ids(l) + added)[|Ids(l)| + i] == added[i];
    ReplayNeverTwice(added);
    SharedRun(l, m, ops);
    SuffixOfTail(Ids(m), added, ALERT_CAP);
    SharedWhole(ApplyAlerts(l, ops), ApplyAlerts(m, ops));
  }

  lemma SharedWhole<B>(a: seq<Doc<B>>, b: seq<Doc<B>>)
    requires |a| == |b| && Shared(a, b, |a|)
    ensures a == b
  {
    forall i | 0 <= i < |a| ensures a[i] == b[i] { assert Back(a, |a| - i) == Back(b, |a| - i); }
  }

  lemma SuffixOfTail<T>(a: seq<T>, b: seq<T>, n: nat)
    requires |b| >= n
    ensures Suffix(a + b, n) == Suffix(b, n)
  {
  }

  lemma WindowDistinct(pre: seq<string>, added: seq<string>)
    requires NoDup(pre + added)
    ensures NoDup(Suffix(pre + added, ALERT_CAP)) && Min(|added|, ALERT_CAP) <= |Suffix(pre + added, ALERT_CAP)| <= ALERT_CAP
  {
    var all := pre + added;
    var j := Suffix(all, ALERT_CAP);
    assert forall i :: 0 <= i < |j| ==> j[i] == all[|all| - |j| + i];
  }

  lemma IdsLength<B>(l: seq<Doc<B>>)
    ensures |Ids(l)| == |l|
  {
  }

  lemma AlertsShift<B>(l: seq<Doc<B>>, ops: seq<ListOp<B>>)
    requires AlertOps(ops) && |l| <= ALERT_CAP && NoDup(Ids(l) + AddedIds(ops)) && 0 < |AddedIds(ops)| < ALERT_CAP
    ensures Ids(ApplyAlerts(ApplyAlerts(l, ops), ops)) != Ids(ApplyAlerts(l, ops))
  {
    hide ApplyAlerts, NoDup, Ids, Suffix;
    var m := ApplyAlerts(l, ops);
    AlertIdsWindow(l, ops);
    WindowDistinct(Ids(l), AddedIds(ops));
    IdsLength(m);
    AlertIdsWindow(m, ops);
    ShiftDiffers(Ids(m), AddedIds(ops), ALERT_CAP);
  }

  // Appending fewer ids than fit to a window of distinct ids changes it.
  lemma ShiftDiffers(j: seq<string>, added: seq<string>, cap: nat)
    requires NoDup(j) && |j| <= cap && 0 < |added| <= |j| && |added| < cap
    ensures Suffix(j + added, cap) != j
  {
    var s := Suffix(j + added, cap);
    if |j| == cap {
      assert s[0] == j[|added|];
      assert j[0] != j[|added|];
    }
  }

  // A log of alerts with distinct ids can be replayed over a list that already holds it if and only if it adds none,
  // or at least as many as the list holds.
  lemma AlertsReplayIff<B>(l: seq<Doc<B>>, ops: seq<ListOp<B>>)
    requires AlertOps(ops) && |l| <= ALERT_CAP && NoDup(Ids(l) + AddedIds(ops))
    ensures ApplyAlerts(ApplyAlerts(l, ops), ops) == ApplyAlerts(l, ops) <==>
              AddedIds(ops) == [] || |AddedIds(ops)| >= ALERT_CAP
  {
    if AddedIds(ops) == [] {
      NoneAdded(l, ops);
      NoneAdded(ApplyAlerts(l, ops), ops);
      WritesIdempotent(l, ops);
    } else if |AddedIds(ops)| >= ALERT_CAP {
      AlertsSettle(l, ops);
    } else {
      AlertsShift(l, ops);
    }
  }

  // ----- the whole state -------------------------------------------------------------------------------------------

  // The operation types that exist for each kind.
  predicate Shaped<B>(o: Op<B>) {
    match o
    case Add(k, _) => k != Devices && k != Twins && k != Alerts
    case Set(k, _) => k == Sites || k == Devices || k == Twins
    case Replace(k, _) => k == Deployments || k == Policies || k == Campaigns || k == Orgs || k == Alerts
    case Del(k, _) => k == Routes || k == Deployments || k == Policies || k == Orgs
    case _ => true
  }

  ghost predicate AllShaped<B>(ops: seq<Op<B>>) { forall o :: o in ops ==> Shaped(o) }

  function ToList<B>(o: Op<B>, k: Kind): Option<ListOp<B>> {
    match o
    case Add(k', d) => if k' == k then Some(Append(d)) else None
    case Set(k', d) => if k' == k then Some(Upsert(d)) else None
    case Replace(k', d) => if k' == k then Some(Swap(d)) else None
    case Del(k', id) => if k' == k then Some(Remove(id)) else None
    case AddAlert(d) => if k == Alerts then Some(Append(d)) else None
    case AddEvent(_) => None
  }

  // What a log does to one kind of document.
  function OnKind<B>(ops: seq<Op<B>>, k: Kind): seq<ListOp<B>> {
    if ops == [] then []
    else
      var o := ToList(ops[|ops| - 1], k);
      if o.Some? then OnKind(ops[..|ops| - 1], k) + [o.value] else OnKind(ops[..|ops| - 1], k)
  }

  lemma {:induction false} OnKindMember<B>(ops: seq<Op<B>>, k: Kind, x: ListOp<B>)
    ensures x in OnKind(ops, k) <==> exists o :: o in ops && ToList(o, k) == Some(x)
  {
    hide ToList;
    if ops != [] {
      var front, last := ops[..|ops| - 1], ops[|ops| - 1];
      OnKindMember(front, k, x);
      assert ops == front + [last];
    }
  }

  lemma ShapedKind<B>(ops: seq<Op<B>>, k: Kind)
    requires AllShaped(ops)
    ensures k == Alerts ==> AlertOps(OnKind(ops, k))
    ensures NoUpserts(OnKind(ops, k)) || NoRemoves(OnKind(ops, k))
  {
    forall x | x in OnKind(ops, k)
      ensures (k == Alerts ==> x.Append? || x.Swap?)
              && (k == Sites || k == Devices || k == Twins ==> !x.Remove?)
              && (!(k == Sites || k == Devices || k == Twins) ==> !x.Upsert?)
    {
      OnKindMember(ops, k, x);
      var o :| o in ops && ToList(o, k) == Some(x);
      assert Shaped(o);
    }
  }

  function ApplyKind<B>(l: seq<Doc<B>>, ops: seq<ListOp<B>>, k: Kind): seq<Doc<B>> {
    if k == Alerts then ApplyAlerts(l, ops) else ApplyList(l, ops)
  }

  lemma ApplyKindSnoc<B>(l: seq<Doc<B>>, ops: seq<ListOp<B>>, o: ListOp<B>, k: Kind)
    ensures ApplyKind(l, ops + [o], k) == if k == Alerts then StepAlerts(ApplyKind(l, ops, k), o) else StepList(ApplyKind(l, ops, k), o)
  {
    assert (ops + [o])[..|ops|] == ops;
  }

  lemma GetApply<B>(s: State<B>, o: Op<B>, k: Kind)
    requires Shaped(o)
    ensures Get(Apply(s, o), k) ==
              (match ToList(o, k) case None => Get(s, k)
                                  case Some(x) => if k == Alerts then StepAlerts(Get(s, k), x) else StepList(Get(s, k), x))
    ensures k in Apply(s, o).docs <==> k in s.docs || ToList(o, k).Some?
  {
    hide SetIn, ReplaceIn, Without, Suffix;
  }

  lemma {:induction false} FoldKind<B>(s: State<B>, ops: seq<Op<B>>, k: Kind)
    requires AllShaped(ops)
    ensures Get(Fold(s, ops), k) == ApplyKind(Get(s, k), OnKind(ops, k), k)
    ensures k in Fold(s, ops).docs <==> k in s.docs || OnKind(ops, k) != []
  {
    if ops != [] {
      var front, o := ops[..|ops| - 1], ops[|ops| - 1];
      assert o in ops && forall x :: x in front ==> x in ops;
      FoldKind(s, front, k);
      hide Apply, ApplyKind, StepList, StepAlerts, Get;
      GetApply(Fold(s, front), o, k);
      if ToList(o, k).Some? { ApplyKindSnoc(Get(s, k), OnKind(front, k), ToList(o, k).value, k); }
    }
  }

  function Events<B>(ops: seq<Op<B>>): seq<Doc<B>> {
    if ops == [] then []
    else if ops[|ops| - 1].AddEvent? then Events(ops[..|ops| - 1]) + [ops[|ops| - 1].doc]
    else Events(ops[..|ops| - 1])
  }

  lemma {:induction false} FoldEvents<B>(s: State<B>, ops: seq<Op<B>>)
    requires |s.events| <= EVENT_CAP
    ensures Fold(s, ops).events == Suffix(s.events + Events(ops), EVENT_CAP) && |Events(ops)| == |Recorded(ops)|
  {
    if ops == [] {
      assert s.events + [] == s.events;
    } else {
      var front, o := ops[..|ops| - 1], ops[|ops| - 1];
      FoldEvents(s, front);
      hide SetIn, ReplaceIn, Without;
      if o.AddEvent? {
        SuffixSnoc(s.events + Events(front), o.doc, EVENT_CAP);
        assert s.events + Events(ops) == s.events + Events(front) + [o.doc];
      }
    }
  }

  ghost predicate AddsDeleted<B>(ops: seq<Op<B>>) {
    forall o :: o in ops && o.Add? ==> Del(o.kind, o.doc.id) in ops
  }

  predicate NoneOrFull(n: nat, cap: nat) { n == 0 || n >= cap }

  // What makes a log safe to replay over a state that holds it: it deletes whatever it adds, and adds no alert and no
  // event, or enough of them to fill their lists.
  ghost predicate Harmless<B>(ops: seq<Op<B>>) {
    AddsDeleted(ops) && NoneOrFull(|AddedIds(OnKind(ops, Alerts))|, ALERT_CAP) && NoneOrFull(|Recorded(ops)|, SEEN_CAP)
  }

  lemma AddsDeletedOnKind<B>(ops: seq<Op<B>>, k: Kind)
    requires AllShaped(ops) && AddsDeleted(ops) && k != Alerts
    ensures AddsDeletedIn(OnKind(ops, k))
  {
    forall x | x in OnKind(ops, k) && x.Append? ensures Remove(x.doc.id) in OnKind(ops, k) {
      OnKindMember(ops, k, x);
      var o :| o in ops && ToList(o, k) == Some(x);
      OnKindMember(ops, k, Remove(x.doc.id));
      var del: Op<B> := Del(k, x.doc.id);
      assert ToList(del, k) == Some(Remove(x.doc.id));
    }
  }

  lemma AddsDeletedFromKinds<B>(ops: seq<Op<B>>)
    requires AllShaped(ops) && forall k :: k != Alerts ==> AddsDeletedIn(OnKind(ops, k))
    ensures AddsDeleted(ops)
  {
    forall o | o in ops && o.Add? ensures Del(o.kind, o.doc.id) in ops {
      var k, id := o.kind, o.doc.id;
      assert Shaped(o) && ToList(o, k) == Some(Append(o.doc));
      OnKindMember(ops, k, Append(o.doc));
      assert AddsDeletedIn(OnKind(ops, k));
      OnKindMember(ops, k, Remove(id));
      var d :| d in ops && ToList(d, k) == Some(Remove(id));
      assert d == Del(k, id);
    }
  }

  // The states in which ids are distinct where the code makes them so: seen events, and alerts with those to come.
  ghost predicate Distinct<B>(s: State<B>, ops: seq<Op<B>>) {
    && Aligned(s) && NoDup(Fold(s, ops).seen)
    && |Get(s, Alerts)| <= ALERT_CAP && NoDup(Ids(Get(s, Alerts)) + AddedIds(OnKind(ops, Alerts)))
  }

  lemma KindReplayIff<B>(s: State<B>, ops: seq<Op<B>>, k: Kind)
    requires AllShaped(ops) && Distinct(s, ops)
    ensures Get(Fold(Fold(s, ops), ops), k) == Get(Fold(s, ops), k) <==>
              (if k == Alerts then NoneOrFull(|AddedIds(OnKind(ops, k))|, ALERT_CAP) else AddsDeletedIn(OnKind(ops, k)))
  {
    hide Get, Fold, ApplyList, ApplyAlerts, Aligned, NoDup, Ids;
    FoldKind(s, ops, k);
    FoldKind(Fold(s, ops), ops, k);
    ShapedKind(ops, k);
    if k == Alerts {
      AlertsReplayIff(Get(s, k), OnKind(ops, k));
    } else {
      ListReplayIff(Get(s, k), OnKind(ops, k));
    }
  }

  lemma SeenReplayIff<B>(s: State<B>, ops: seq<Op<B>>)
    requires Distinct(s, ops)
    ensures Fold(Fold(s, ops), ops).seen == Fold(s, ops).seen <==> NoneOrFull(|Recorded(ops)|, SEEN_CAP)
    ensures NoneOrFull(|Recorded(ops)|, SEEN_CAP) ==> Fold(Fold(s, ops), ops).events == Fold(s, ops).events
  {
    var t, r := Fold(s, ops), Recorded(ops);
    FoldSeen(s, ops);
    FoldSeen(t, ops);
    FoldEvents(s, ops);
    FoldEvents(t, ops);
    hide Fold, Ids, Get, NoDup;
    if |r| == 0 {
      assert t.seen + [] == t.seen && t.events + [] == t.events;
    } else if |r| >= SEEN_CAP {
      SuffixOfTail(s.seen, r, SEEN_CAP);
      SuffixOfTail(t.seen, r, SEEN_CAP);
      SuffixOfTail(s.events, Events(ops), EVENT_CAP);
      SuffixOfTail(t.events, Events(ops), EVENT_CAP);
    } else {
      ShiftDiffers(t.seen, r, SEEN_CAP);
    }
  }

  lemma SameState<B>(a: State<B>, b: State<B>)
    requires a.events == b.events && a.seen == b.seen
    requires forall k :: (k in a.docs <==> k in b.docs) && Get(a, k) == Get(b, k)
    ensures a == b
  {
    assert a.docs.Keys == b.docs.Keys;
    forall k | k in a.docs ensures a.docs[k] == b.docs[k] { assert Get(a, k) == Get(b, k); }
  }

  // Main theorem: a log of the operations the code has can be replayed over a state that already holds it if and only
  // if it is harmless.
  lemma ReplayTwiceIff<B>(s: State<B>, ops: seq<Op<B>>)
    requires AllShaped(ops) && Distinct(s, ops)
    ensures Fold(Fold(s, ops), ops) == Fold(s, ops) <==> Harmless(ops)
  {
    hide Fold, Get, Distinct, AllShaped, AddsDeletedIn, AddsDeleted;
    var t := Fold(s, ops);
    SeenReplayIff(s, ops);
    forall k ensures KindAgrees(s, ops, k) { KindReplayIff(s, ops, k); }
    if Harmless(ops) {
      forall k ensures (k in Fold(t, ops).docs <==> k in t.docs) && Get(Fold(t, ops), k) == Get(t, k) {
        assert KindAgrees(s, ops, k);
        if k != Alerts { AddsDeletedOnKind(ops, k); }
        FoldKind(s, ops, k);
        FoldKind(t, ops, k);
      }
      SameState(Fold(t, ops), t);
    }
    if Fold(t, ops) == t {
      forall k | k != Alerts ensures AddsDeletedIn(OnKind(ops, k)) { assert KindAgrees(s, ops, k); }
      AddsDeletedFromKinds(ops);
      assert KindAgrees(s, ops, Alerts);
    }
  }

  ghost predicate KindAgrees<B>(s: State<B>, ops: seq<Op<B>>, k: Kind) {
    Get(Fold(Fold(s, ops), ops), k) == Get(Fold(s, ops), k) <==>
      (if k == Alerts then NoneOrFull(|AddedIds(OnKind(ops, k))|, ALERT_CAP) else AddsDeletedIn(OnKind(ops, k)))
  }
}
