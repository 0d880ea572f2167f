// The index of event ids against the list it should agree with (internal/store/store.go), over every run with
// restarts and crashes. The list is a window on the recorded ids; the index is kept beside it in memory and rebuilt
// when the store is reopened.
module SeenIndex {
  import opened Wrappers
  import opened FileStore

  predicate NoDup(ids: seq<string>) { forall i, j :: 0 <= i < j < |ids| ==> ids[i] != ids[j] }

  function Ids<B>(docs: seq<Doc<B>>): (ids: seq<string>)
    ensures |ids| == |docs|
  {
    seq(|docs|, i requires 0 <= i < |docs| => docs[i].id)
  }

  // Ids recorded by a log, in order.
  function Recorded<B>(ops: seq<Op<B>>): seq<string> {
    if ops == [] then []
    else if ops[|ops| - 1].AddEvent? then Recorded(ops[..|ops| - 1]) + [ops[|ops| - 1].doc.id]
    else Recorded(ops[..|ops| - 1])
  }

  lemma RecordedSnoc<B>(ops: seq<Op<B>>, o: Op<B>)
    ensures Recorded(ops + [o]) == if o.AddEvent? then Recorded(ops) + [o.doc.id] else Recorded(ops)
  {
    assert (ops + [o])[..|ops|] == ops;
  }

  lemma {:induction false} RecordedConcat<B>(a: seq<Op<B>>, b: seq<Op<B>>)
    ensures Recorded(a + b) == Recorded(a) + Recorded(b)
  {
    if b == [] {
      assert a + b == a;
    } else {
      var front, o := b[..|b| - 1], b[|b| - 1];
      RecordedConcat(a, front);
      assert a + b == (a + front) + [o] && b == front + [o];
      RecordedSnoc(a + front, o);
      RecordedSnoc(front, o);
    }
  }

  // ----- the list is a window -------------------------------------------------------------------------------

  lemma SuffixSnoc<T>(s: seq<T>, x: T, n: nat)
    ensures Suffix(Suffix(s, n) + [x], n) == Suffix(s + [x], n)
  {
  }

  lemma SuffixOfSuffix<T>(s: seq<T>, m: nat, n: nat)
    requires m <= n
    ensures Suffix(Suffix(s, n), m) == Suffix(s, m)
  {
  }

  lemma EventSuffix<B>(events: seq<Doc<B>>, seen: seq<string>, d: Doc<B>)
    requires Ids(events) == Suffix(seen, EVENT_CAP)
    ensures Ids(Suffix(events + [d], EVENT_CAP)) == Suffix(Suffix(seen + [d.id], SEEN_CAP), EVENT_CAP)
  {
    assert Ids(events + [d]) == Ids(events) + [d.id];
    assert Ids(Suffix(events + [d], EVENT_CAP)) == Suffix(Ids(events + [d]), EVENT_CAP);
    SuffixSnoc(seen, d.id, EVENT_CAP);
    SuffixOfSuffix(seen + [d.id], EVENT_CAP, SEEN_CAP);
  }

  ghost predicate Aligned<B>(s: State<B>) {
    Ids(s.events) == Suffix(s.seen, EVENT_CAP) && |s.seen| <= SEEN_CAP
  }

  // Whatever is replayed, the list is the last 20000 of what it was and what was recorded, and the events go with it.
  lemma {:induction false} FoldSeen<B>(s: State<B>, ops: seq<Op<B>>)
    requires Aligned(s)
    ensures Fold(s, ops).seen == Suffix(s.seen + Recorded(ops), SEEN_CAP) && Aligned(Fold(s, ops))
  {
    hide Ids;
    if ops == [] {
      assert s.seen + [] == s.seen;
    } else {
      var front, o := ops[..|ops| - 1], ops[|ops| - 1];
      FoldSeen(s, front);
      var t := Fold(s, front);
      if o.AddEvent? {
        EventSuffix(t.events, t.seen, o.doc);
        SuffixSnoc(s.seen + Recorded(front), o.doc.id, SEEN_CAP);
        assert s.seen + Recorded(ops) == s.seen + Recorded(front) + [o.doc.id];
      }
    }
  }

  // ----- the index, exactly -----------------------------------------------------------------------------------

  // x was recorded inside the window, and longer after its last recording outside the window than the window is long.
  ghost predicate InIndex(l: seq<string>, x: string) {
    exists p :: 0 <= p < |l| && |l| - SEEN_CAP <= p && l[p] == x && ClearOf(l, x, p)
  }

  // No recording of x that has left the window took the one at p with it.
  ghost predicate ClearOf(l: seq<string>, x: string, p: int) {
    forall q :: 0 <= q < |l| - SEEN_CAP && l[q] == x ==> q + SEEN_CAP < p
  }

  // One event.add on index and window.
  lemma IndexStep(l: seq<string>, y: string, x: string)
    ensures InIndex(l + [y], x) <==>
              (InIndex(l, x) || x == y) && !(|l| >= SEEN_CAP && x == l[|l| - SEEN_CAP])
  {
    var m, n := l + [y], |l|;
    if InIndex(m, x) {
      var p :| 0 <= p < |m| && |m| - SEEN_CAP <= p && m[p] == x && ClearOf(m, x, p);
      if p < n { assert l[p] == x && ClearOf(l, x, p) by { assert forall q :: 0 <= q < n - SEEN_CAP ==> m[q] == l[q]; } }
      if n >= SEEN_CAP { assert m[n - SEEN_CAP] == l[n - SEEN_CAP]; }
    }
    if InIndex(l, x) && !(n >= SEEN_CAP && x == l[n - SEEN_CAP]) {
      var p :| 0 <= p < n && n - SEEN_CAP <= p && l[p] == x && ClearOf(l, x, p);
      assert m[p] == x && ClearOf(m, x, p);
    }
    if x == y && !(n >= SEEN_CAP && x == l[n - SEEN_CAP]) {
      assert m[n] == x && ClearOf(m, x, n);
    }
  }

  lemma StepOnSet(index: set<string>, l: seq<string>, y: string, x: string)
    requires x in index <==> InIndex(l, x)
    ensures x in Indexed(index, Suffix(l, SEEN_CAP), y) <==> InIndex(l + [y], x)
  {
    hide InIndex;
    IndexStep(l, y, x);
    var w := Suffix(l, SEEN_CAP) + [y];
    if |l| >= SEEN_CAP {
      assert w[..1] == [l[|l| - SEEN_CAP]];
      assert SetOf(w[..1]) == {l[|l| - SEEN_CAP]};
    }
  }

  lemma ListIndex(l: seq<string>, x: string)
    requires |l| <= SEEN_CAP
    ensures x in SetOf(l) <==> InIndex(l, x)
  {
    if x in l {
      var p :| 0 <= p < |l| && l[p] == x;
      assert ClearOf(l, x, p);
    }
  }

  lemma {:induction false} ReplayIndexExact<B>(s: State<B>, ops: seq<Op<B>>, x: string)
    requires Aligned(s)
    ensures x in ReplayIndex(s, ops) <==> InIndex(s.seen + Recorded(ops), x)
  {
    hide InIndex, Indexed, Ids, Fold;
    if ops == [] {
      assert s.seen + [] == s.seen;
      ListIndex(s.seen, x);
    } else {
      var front, o := ops[..|ops| - 1], ops[|ops| - 1];
      ReplayIndexExact(s, front, x);
      if o.AddEvent? {
        FoldSeen(s, front);
        StepOnSet(ReplayIndex(s, front), s.seen + Recorded(front), o.doc.id, x);
        assert s.seen + Recorded(ops) == s.seen + Recorded(front) + [o.doc.id];
      }
    }
  }

  // ----- when the two agree -------------------------------------------------------------------------------------

  ghost predicate Agree<B>(s: State<B>, index: set<string>) {
    Aligned(s) && NoDup(s.seen) && index == SetOf(s.seen)
  }

  // No id of the window was recorded before, closer than the window is long.
  ghost predicate SpacedEnd(l: seq<string>) {
    forall i, j :: 0 <= i < j < |l| && |l| - SEEN_CAP <= j && l[i] == l[j] ==> j - i > SEEN_CAP
  }

  lemma InWindow(l: seq<string>, x: string)
    ensures x in Suffix(l, SEEN_CAP) <==> exists p :: 0 <= p < |l| && |l| - SEEN_CAP <= p && l[p] == x
  {
    var w := Suffix(l, SEEN_CAP);
    var off := |l| - |w|;
    if x in w {
      var k :| 0 <= k < |w| && w[k] == x;
      assert l[off + k] == x;
    }
    if p :| 0 <= p < |l| && |l| - SEEN_CAP <= p && l[p] == x { assert w[p - off] == x; }
  }

  lemma IndexInWindow(l: seq<string>, x: string)
    requires InIndex(l, x)
    ensures x in Suffix(l, SEEN_CAP)
  {
    InWindow(l, x);
  }

  lemma SpacedNoDup(l: seq<string>)
    requires SpacedEnd(l)
    ensures NoDup(Suffix(l, SEEN_CAP))
  {
    var w := Suffix(l, SEEN_CAP);
    var off := |l| - |w|;
    forall i, j | 0 <= i < j < |w| ensures w[i] != w[j] { assert l[off + i] == w[i] && l[off + j] == w[j]; }
  }

  lemma SpacedIndex(l: seq<string>, x: string)
    requires SpacedEnd(l)
    ensures InIndex(l, x) <==> x in Suffix(l, SEEN_CAP)
  {
    InWindow(l, x);
    if p :| 0 <= p < |l| && |l| - SEEN_CAP <= p && l[p] == x {
      assert ClearOf(l, x, p);
    }
  }

  // The exact condition, on the ids alone.
  lemma SpacedIff(l: seq<string>)
    ensures SpacedEnd(l) <==> NoDup(Suffix(l, SEEN_CAP)) && forall x :: InIndex(l, x) <==> x in Suffix(l, SEEN_CAP)
  {
    if SpacedEnd(l) {
      SpacedNoDup(l);
      forall x ensures InIndex(l, x) <==> x in Suffix(l, SEEN_CAP) { SpacedIndex(l, x); }
    }
    if NoDup(Suffix(l, SEEN_CAP)) && forall x :: InIndex(l, x) <==> x in Suffix(l, SEEN_CAP) {
      forall i, j | 0 <= i < j < |l| && |l| - SEEN_CAP <= j && l[i] == l[j] ensures j - i > SEEN_CAP {
        SpacedPair(l, i, j);
      }
    }
  }

  lemma SpacedPair(l: seq<string>, i: nat, j: nat)
    requires NoDup(Suffix(l, SEEN_CAP)) && forall x :: InIndex(l, x) <==> x in Suffix(l, SEEN_CAP)
    requires i < j < |l| && |l| - SEEN_CAP <= j && l[i] == l[j]
    ensures j - i > SEEN_CAP
  {
    var w, x := Suffix(l, SEEN_CAP), l[j];
    var off := |l| - |w|;
    InWindow(l, x);
    assert InIndex(l, x);
    var p :| 0 <= p < |l| && |l| - SEEN_CAP <= p && l[p] == x && ClearOf(l, x, p);
    assert w[p - off] == w[j - off];
    assert p == j;
    TwiceInWindow(l, i, j);
  }

  lemma TwiceInWindow(l: seq<string>, i: nat, j: nat)
    requires i < j < |l| && l[i] == l[j]
    ensures |l| - SEEN_CAP <= i ==> !NoDup(Suffix(l, SEEN_CAP))
  {
    var w := Suffix(l, SEEN_CAP);
    var off := |l| - |w|;
    if off <= i { assert w[i - off] == w[j - off]; }
  }

  // Ids a disk holds: the snapshot's list and the log's events.
  function DiskIds<B>(d: Disk<B>): seq<string> { d.snapshot.seen + Recorded(d.wal) }

  // Reopening a directory yields a list and an index that agree exactly when the ids on disk are spaced.
  lemma ReopenAgreesIff<B>(d: Disk<B>)
    requires Aligned(d.snapshot)
    ensures Agree(Recovered(d), ReplayIndex(d.snapshot, d.wal)) <==> SpacedEnd(DiskIds(d))
  {
    hide InIndex, Aligned, SpacedEnd, NoDup, Fold, Suffix, ReplayIndex;
    var l, index := DiskIds(d), ReplayIndex(d.snapshot, d.wal);
    FoldSeen(d.snapshot, d.wal);
    SpacedIff(l);
    forall x ensures x in index <==> InIndex(l, x) { ReplayIndexExact(d.snapshot, d.wal, x); }
    assert index == SetOf(Suffix(l, SEEN_CAP)) <==> forall x :: InIndex(l, x) <==> x in Suffix(l, SEEN_CAP) by {
      hide *;
      SetIff(index, Suffix(l, SEEN_CAP));
    }
  }

  lemma SetIff(index: set<string>, w: seq<string>)
    ensures index == SetOf(w) <==> forall x :: x in index <==> x in w
  {
    if forall x :: x in index <==> x in w { assert index == SetOf(w); }
    if index == SetOf(w) { assert forall x :: x in SetOf(w) <==> x in w; }
  }

  // ----- one event.add in memory --------------------------------------------------------------------------------

  lemma IndexKept(seen: seq<string>, index: set<string>, id: string)
    requires NoDup(seen) && index == SetOf(seen) && |seen| <= SEEN_CAP && id !in seen
    ensures var seen' := Suffix(seen + [id], SEEN_CAP);
            NoDup(seen') && |seen'| <= SEEN_CAP && Indexed(index, seen, id) == SetOf(seen')
  {
    var all := seen + [id];
    var seen' := Suffix(all, SEEN_CAP);
    assert NoDup(all);
    if |all| > SEEN_CAP {
      var cut := |all| - SEEN_CAP;
      assert seen' == all[cut..];
      forall x ensures x in Indexed(index, seen, id) <==> x in SetOf(seen') { SplitMember(all, cut, x); }
    }
  }

  // In a list without duplicates an id is before the cut or behind it.
  lemma SplitMember(l: seq<string>, cut: nat, x: string)
    requires NoDup(l) && cut <= |l|
    ensures x in l[cut..] <==> x in l && x !in l[..cut]
  {
    assert l == l[..cut] + l[cut..];
    if x in l[cut..] {
      var j :| 0 <= j < |l| - cut && l[cut..][j] == x;
      forall i | 0 <= i < cut ensures l[..cut][i] != x { assert l[i] != l[cut + j]; }
    }
  }

  lemma ReAddBreaks(seen: seq<string>, index: set<string>, id: string)
    requires id in seen && |seen| <= SEEN_CAP
    ensures var seen' := Suffix(seen + [id], SEEN_CAP);
            !NoDup(seen') || Indexed(index, seen, id) != SetOf(seen')
  {
    var all := seen + [id];
    var seen' := Suffix(all, SEEN_CAP);
    var i :| 0 <= i < |seen| && seen[i] == id;
    if |all| > SEEN_CAP {
      assert |all| == SEEN_CAP + 1;
      assert seen'[|seen'| - 1] == id;
      if i == 0 {
        assert all[..1][0] == id;
        assert id in SetOf(seen') && id !in Indexed(index, seen, id);
      } else {
        assert seen'[i - 1] == id;
      }
    } else {
      assert seen'[i] == id && seen'[|seen|] == id;
    }
  }

  // An event.add keeps list and index in agreement exactly when its id is not already listed.
  lemma AgreeKeptIff<B>(s: State<B>, index: set<string>, d: Doc<B>)
    requires Agree(s, index)
    ensures Agree(Apply(s, AddEvent(d)), Indexed(index, s.seen, d.id)) <==> d.id !in s.seen
  {
    EventSuffix(s.events, s.seen, d);
    if d.id !in s.seen {
      IndexKept(s.seen, index, d.id);
    } else {
      ReAddBreaks(s.seen, index, d.id);
    }
  }

  // ----- every run ------------------------------------------------------------------------------------------------

  ghost predicate Blank<B>(empty: State<B>) { empty.events == [] && empty.seen == [] }

  lemma BlankAligned<B>(empty: State<B>)
    requires Blank(empty)
    ensures Aligned(empty)
  {
    assert Ids(empty.events) == Suffix(empty.seen, EVENT_CAP);
  }

  lemma HistoryWindow<B>(empty: State<B>, h: seq<Op<B>>)
    requires Blank(empty)
    ensures Fold(empty, h).seen == Suffix(Recorded(h), SEEN_CAP) && Aligned(Fold(empty, h))
  {
    BlankAligned(empty);
    FoldSeen(empty, h);
    assert [] + Recorded(h) == Recorded(h);
  }

  // In every state of every run the list is exactly the last 20000 recorded ids and the events are its last 2000.
  lemma Window<B>(empty: State<B>, s: Store<B>)
    requires Blank(empty) && Durable(s, empty)
    ensures s.state.seen == Suffix(Recorded(s.history), SEEN_CAP)
    ensures Aligned(s.state) && Aligned(s.disk.snapshot)
  {
    hide Fold, Aligned, Recorded;
    HistoryWindow(empty, s.history);
    HistoryWindow(empty, OnDisk(s)[..|OnDisk(s)| - |s.disk.wal|]);
  }

  lemma LeftAligned<B>(empty: State<B>, s: Store<B>, c: Command<B>)
    requires Blank(empty) && Durable(s, empty) && Left(s, c).Some?
    ensures Aligned(Left(s, c).value.0.snapshot)
  {
    hide Fold, Aligned, Recorded;
    Window(empty, s);
  }

  // The index never claims more than the list holds.
  lemma IndexedInside(index: set<string>, seen: seq<string>, id: string)
    requires index <= SetOf(seen)
    ensures Indexed(index, seen, id) <= SetOf(Suffix(seen + [id], SEEN_CAP))
  {
    var all := seen + [id];
    var w := Suffix(all, SEEN_CAP);
    forall x | x in Indexed(index, seen, id) ensures x in w {
      if |all| > SEEN_CAP {
        var cut := |all| - SEEN_CAP;
        assert all == all[..cut] + w;
        assert x in all <==> x in all[..cut] || x in w;
      }
    }
  }

  lemma ReopenInside<B>(d: Disk<B>)
    requires Aligned(d.snapshot)
    ensures ReplayIndex(d.snapshot, d.wal) <= SetOf(Recovered(d).seen)
  {
    hide InIndex, Fold, Suffix, Aligned;
    FoldSeen(d.snapshot, d.wal);
    forall x | x in ReplayIndex(d.snapshot, d.wal) ensures x in Recovered(d).seen {
      ReplayIndexExact(d.snapshot, d.wal, x);
      IndexInWindow(DiskIds(d), x);
    }
  }

  lemma InsideStep<B>(empty: State<B>, s: Store<B>, c: Command<B>)
    requires Blank(empty) && Durable(s, empty) && s.index <= SetOf(s.state.seen)
    ensures Next(s, c).index <= SetOf(Next(s, c).state.seen)
  {
    hide Durable, ReplayIndex, Recovered, Indexed, Suffix;
    if Left(s, c).Some? {
      LeftAligned(empty, s, c);
      ReopenInside(Left(s, c).value.0);
    } else if c.Do? && c.op.AddEvent? {
      IndexedInside(s.index, s.state.seen, c.op.doc.id);
    }
  }

  lemma {:induction false} IndexInside<B>(empty: State<B>, cmds: seq<Command<B>>)
    requires Blank(empty)
    ensures Run(empty, cmds).index <= SetOf(Run(empty, cmds).state.seen)
  {
    if cmds != [] {
      IndexInside(empty, cmds[..|cmds| - 1]);
      Recovery(empty, cmds[..|cmds| - 1]);
      hide Next, Durable;
      InsideStep(empty, Run(empty, cmds[..|cmds| - 1]), cmds[|cmds| - 1]);
    }
  }

  ghost predicate AgreeIn<B>(s: Store<B>) { Agree(s.state, s.index) }

  // A command keeps agreement, except that one that ends the process does exactly if the ids it leaves are spaced.
  lemma AgreeStepIff<B>(empty: State<B>, s: Store<B>, c: Command<B>)
    requires Blank(empty) && Durable(s, empty) && AgreeIn(s)
    ensures AgreeIn(Next(s, c)) <==> (Left(s, c).Some? ==> SpacedEnd(DiskIds(Left(s, c).value.0)))
  {
    hide Durable, ReplayIndex, Recovered, Indexed, SpacedEnd, Suffix, NoDup, Ids;
    if Left(s, c).Some? {
      LeftAligned(empty, s, c);
      hide Agree;
      ReopenAgreesIff(Left(s, c).value.0);
    } else if c.Do? && c.op.AddEvent? {
      AgreeKeptIff(s.state, s.index, c.op.doc);
    }
  }

  // What each command that ends the process leaves on disk is spaced.
  ghost predicate SpacedRun<B>(empty: State<B>, cmds: seq<Command<B>>) {
    forall i :: 0 <= i < |cmds| ==> SpacedAt(empty, cmds, i)
  }

  ghost predicate SpacedAt<B>(empty: State<B>, cmds: seq<Command<B>>, i: nat)
    requires i < |cmds|
  {
    var left := Left(Run(empty, cmds[..i]), cmds[i]);
    left.Some? ==> SpacedEnd(DiskIds(left.value.0))
  }

  ghost predicate AgreeAt<B>(empty: State<B>, cmds: seq<Command<B>>, i: nat)
    requires i <= |cmds|
  {
    AgreeIn(Run(empty, cmds[..i]))
  }

  lemma AgreeNext<B>(empty: State<B>, cmds: seq<Command<B>>, i: nat)
    requires Blank(empty) && i < |cmds| && AgreeAt(empty, cmds, i)
    ensures AgreeAt(empty, cmds, i + 1) <==> SpacedAt(empty, cmds, i)
  {
    hide AgreeIn, SpacedEnd, Durable, Next;
    Recovery(empty, cmds[..i]);
    AgreeStepIff(empty, Run(empty, cmds[..i]), cmds[i]);
    assert cmds[..i + 1] == cmds[..i] + [cmds[i]];
    RunSnoc(empty, cmds[..i], cmds[i]);
  }

  lemma AgreeStart<B>(empty: State<B>, cmds: seq<Command<B>>)
    requires Blank(empty)
    ensures AgreeAt(empty, cmds, 0)
  {
    BlankAligned(empty);
    assert cmds[..0] == [];
  }

  lemma {:induction false} SpacedAgrees<B>(empty: State<B>, cmds: seq<Command<B>>, i: nat)
    requires Blank(empty) && i <= |cmds| && SpacedRun(empty, cmds)
    ensures AgreeAt(empty, cmds, i)
  {
    hide AgreeAt, SpacedAt;
    if i == 0 {
      AgreeStart(empty, cmds);
    } else {
      SpacedAgrees(empty, cmds, i - 1);
      AgreeNext(empty, cmds, i - 1);
    }
  }

  // Main theorem: over every run of operations, restarts and crashes the list and the index agree at every point if
  // and only if every directory that was reopened had its ids spaced: none listed or logged twice within the window.
  lemma AgreeAlongIff<B>(empty: State<B>, cmds: seq<Command<B>>)
    requires Blank(empty)
    ensures (forall i :: 0 <= i <= |cmds| ==> AgreeAt(empty, cmds, i)) <==> SpacedRun(empty, cmds)
  {
    hide AgreeAt, SpacedAt;
    if SpacedRun(empty, cmds) {
      forall i | 0 <= i <= |cmds| ensures AgreeAt(empty, cmds, i) { SpacedAgrees(empty, cmds, i); }
    }
    if forall i :: 0 <= i <= |cmds| ==> AgreeAt(empty, cmds, i) {
      forall i | 0 <= i < |cmds| ensures SpacedAt(empty, cmds, i) {
        assert AgreeAt(empty, cmds, i + 1);
        AgreeNext(empty, cmds, i);
      }
    }
  }

  // So HasEvent answers membership in the last 20000 recorded ids in every state of a spaced run, and in every state
  // of any run a positive answer is right.
  lemma DedupWindow<B>(empty: State<B>, cmds: seq<Command<B>>)
    requires Blank(empty)
    ensures var s := Run(empty, cmds); var w := Suffix(Recorded(s.history), SEEN_CAP);
            && s.state.seen == w && Ids(s.state.events) == Suffix(w, EVENT_CAP)
            && (forall id :: id in s.index ==> id in w)
            && (SpacedRun(empty, cmds) ==> NoDup(w) && forall id :: id in s.index <==> id in w)
  {
    var s := Run(empty, cmds);
    Recovery(empty, cmds);
    Window(empty, s);
    IndexInside(empty, cmds);
    hide Run, Durable, SpacedRun, Recorded, Suffix, NoDup, Ids;
    if SpacedRun(empty, cmds) {
      SpacedAgrees(empty, cmds, |cmds|);
      assert cmds[..|cmds|] == cmds;
    }
  }

  // ----- recorded twice -------------------------------------------------------------------------------------------

  ghost predicate FarApart(r: seq<string>, slack: nat) {
    forall i, j :: 0 <= i < j < |r| && r[i] == r[j] ==> j - i + slack > SEEN_CAP
  }

  ghost predicate SpacedAll(l: seq<string>) {
    forall i, j :: 0 <= i < j < |l| && l[i] == l[j] ==> j - i > SEEN_CAP
  }

  // id was last recorded longer ago than the window is long, up to the slack.
  ghost predicate LongAgo(r: seq<string>, id: string, slack: nat) {
    forall i :: 0 <= i < |r| && r[i] == id ==> |r| - i + slack > SEEN_CAP
  }

  lemma OutOfWindow(r: seq<string>, id: string)
    requires id !in Suffix(r, SEEN_CAP)
    ensures LongAgo(r, id, 0)
  {
    InWindow(r, id);
  }

  lemma FarSnoc(r: seq<string>, id: string, slack: nat)
    requires FarApart(r, slack) && LongAgo(r, id, slack)
    ensures FarApart(r + [id], slack)
  {
  }

  function Drop<T>(r: seq<T>, p: nat): seq<T>
    requires p < |r|
  {
    r[..p] + r[p + 1..]
  }

  lemma FarDrop(r: seq<string>, p: nat, slack: nat)
    requires FarApart(r, slack) && p < |r|
    ensures FarApart(Drop(r, p), slack + 1)
  {
    var d := Drop(r, p);
    forall i, j | 0 <= i < j < |d| && d[i] == d[j] ensures j - i + slack + 1 > SEEN_CAP {
      var i', j' := if i < p then i else i + 1, if j < p then j else j + 1;
      assert r[i'] == d[i] && r[j'] == d[j];
    }
  }

  lemma LongAgoDrop(r: seq<string>, p: nat, id: string)
    requires LongAgo(r, id, 0) && p < |r|
    ensures LongAgo(Drop(r, p), id, 1)
  {
    var d := Drop(r, p);
    forall i | 0 <= i < |d| && d[i] == id ensures |d| - i + 1 > SEEN_CAP {
      var i' := if i < p then i else i + 1;
      assert r[i'] == d[i];
    }
  }

  lemma FarReplay(r: seq<string>, w: seq<string>, slack: nat)
    requires FarApart(r, slack) && SpacedAll(Suffix(r, SEEN_CAP) + w)
    ensures FarApart(r + w, slack)
  {
    var l := Suffix(r, SEEN_CAP) + w;
    var off := |r + w| - |l|;
    forall i, j | 0 <= i < j < |r + w| && (r + w)[i] == (r + w)[j] ensures j - i + slack > SEEN_CAP {
      if j < |r| {
      } else if i >= off {
        assert l[i - off] == (r + w)[i] && l[j - off] == (r + w)[j];
      }
    }
  }

  // Dropping one operation drops at most one recorded id.
  lemma RecordedKept<B>(h: seq<Op<B>>, skipped: Option<nat>) returns (p: Option<nat>)
    ensures p.Some? ==> p.value < |Recorded(h)| && Recorded(Kept(h, skipped)) == Drop(Recorded(h), p.value)
    ensures p.None? ==> Recorded(Kept(h, skipped)) == Recorded(h)
  {
    hide Recorded;
    p := None;
    if skipped.Some? && skipped.value < |h| {
      var k := skipped.value;
      var a, b := h[..k], h[k + 1..];
      RecordedConcat(a, b);
      assert h == (a + [h[k]]) + b;
      RecordedConcat(a + [h[k]], b);
      RecordedSnoc(a, h[k]);
      if h[k].AddEvent? {
        p := Some(|Recorded(a)|);
        assert Drop(Recorded(h), |Recorded(a)|) == Recorded(a) + Recorded(b);
      }
    }
  }

  lemma FarKept<B>(h: seq<Op<B>>, skipped: Option<nat>, slack: nat)
    requires FarApart(Recorded(h), slack)
    ensures FarApart(Recorded(Kept(h, skipped)), slack + 1)
  {
    var p := RecordedKept(h, skipped);
    if p.Some? { FarDrop(Recorded(h), p.value, slack); }
  }

  lemma LongAgoKept<B>(h: seq<Op<B>>, skipped: Option<nat>, id: string)
    requires LongAgo(Recorded(h), id, 0)
    ensures LongAgo(Recorded(Kept(h, skipped)), id, 1)
  {
    var p := RecordedKept(h, skipped);
    if p.Some? { LongAgoDrop(Recorded(h), p.value, id); }
  }

  // An id that AddEvent does not ignore was last recorded more than 20000 recordings ago.
  lemma NotIgnored<B>(empty: State<B>, s: Store<B>, o: Op<B>)
    requires Blank(empty) && Durable(s, empty) && AgreeIn(s) && o.AddEvent? && !Ignored(s, o)
    ensures LongAgo(Recorded(s.history), o.doc.id, 0)
  {
    Window(empty, s);
    OutOfWindow(Recorded(s.history), o.doc.id);
  }

  lemma FarOp<B>(empty: State<B>, s: Store<B>, o: Op<B>, slack: nat)
    requires Blank(empty) && Durable(s, empty) && AgreeIn(s) && !Ignored(s, o) && FarApart(Recorded(s.history), slack)
    ensures FarApart(Recorded(s.history + [o]), slack)
    ensures FarApart(Recorded(OnDisk(s) + [o]), slack + 1)
  {
    hide Recorded, Kept, AgreeIn, Durable, FarApart, LongAgo;
    RecordedSnoc(s.history, o);
    RecordedSnoc(OnDisk(s), o);
    FarKept(s.history, s.skipped, slack);
    if o.AddEvent? {
      NotIgnored(empty, s, o);
      LongAgoKept(s.history, s.skipped, o.doc.id);
      LongAgoMore(Recorded(s.history), o.doc.id, 0, slack);
      LongAgoMore(Recorded(OnDisk(s)), o.doc.id, 1, slack + 1);
      FarSnoc(Recorded(s.history), o.doc.id, slack);
      FarSnoc(Recorded(OnDisk(s)), o.doc.id, slack + 1);
    }
  }

  lemma LongAgoMore(r: seq<string>, id: string, slack: nat, slack': nat)
    requires LongAgo(r, id, slack) && slack <= slack'
    ensures LongAgo(r, id, slack')
  {
  }

  lemma FarMore(r: seq<string>, slack: nat)
    requires FarApart(r, slack)
    ensures FarApart(r, slack + 1)
  {
  }

  lemma FarTorn<B>(empty: State<B>, s: Store<B>, o: Op<B>, slack: nat)
    requires Blank(empty) && Durable(s, empty) && FarApart(Recorded(s.history), slack)
    requires Left(s, CrashCompacting(o)).Some? && SpacedAll(DiskIds(Left(s, CrashCompacting(o)).value.0))
    ensures FarApart(Recorded(Left(s, CrashCompacting(o)).value.1), slack + 1)
  {
    hide FarApart, SpacedAll, Recorded, Suffix, Durable;
    Window(empty, s);
    var w := s.disk.wal + [o];
    assert s.history + s.disk.wal + [o] == s.history + w;
    RecordedConcat(s.history, w);
    FarReplay(Recorded(s.history), Recorded(w), slack);
    FarMore(Recorded(s.history) + Recorded(w), slack);
  }

  lemma FarStep<B>(empty: State<B>, s: Store<B>, c: Command<B>, slack: nat)
    requires Blank(empty) && Durable(s, empty) && AgreeIn(s) && FarApart(Recorded(s.history), slack)
    requires Left(s, c).Some? ==> SpacedAll(DiskIds(Left(s, c).value.0))
    ensures FarApart(Recorded(Next(s, c).history), slack + (if c.Do? then 0 else 1))
  {
    hide FarApart, SpacedAll, Recorded, Durable, AgreeIn, Ignored, Kept, Recovered, ReplayIndex, Apply, Indexed;
    FarMore(Recorded(s.history), slack);
    match c
    case Do(o) => if !Ignored(s, o) { FarOp(empty, s, o, slack); }
    case Restart => FarKept(s.history, s.skipped, slack);
    case CrashAppended(o) => if !Ignored(s, o) { FarOp(empty, s, o, slack); }
    case CrashCompacting(o) => if Left(s, c).Some? { FarTorn(empty, s, o, slack); }
  }

  ghost predicate WellSpacedRun<B>(empty: State<B>, cmds: seq<Command<B>>) {
    forall i :: 0 <= i < |cmds| ==> WellSpacedAt(empty, cmds, i)
  }

  ghost predicate WellSpacedAt<B>(empty: State<B>, cmds: seq<Command<B>>, i: nat)
    requires i < |cmds|
  {
    var left := Left(Run(empty, cmds[..i]), cmds[i]);
    left.Some? ==> SpacedAll(DiskIds(left.value.0))
  }

  lemma WellSpacedAgrees<B>(empty: State<B>, cmds: seq<Command<B>>)
    requires Blank(empty) && WellSpacedRun(empty, cmds)
    ensures AgreeIn(Run(empty, cmds))
  {
    forall i | 0 <= i < |cmds| ensures SpacedAt(empty, cmds, i) { assert WellSpacedAt(empty, cmds, i); }
    hide SpacedAt, WellSpacedAt, AgreeIn;
    SpacedAgrees(empty, cmds, |cmds|);
    assert cmds[..|cmds|] == cmds;
  }

  lemma WellSpacedFront<B>(empty: State<B>, cmds: seq<Command<B>>)
    requires WellSpacedRun(empty, cmds) && cmds != []
    ensures var front, c := cmds[..|cmds| - 1], cmds[|cmds| - 1];
            WellSpacedRun(empty, front)
            && (Left(Run(empty, front), c).Some? ==> SpacedAll(DiskIds(Left(Run(empty, front), c).value.0)))
  {
    hide Run, Left, SpacedAll;
    var front := cmds[..|cmds| - 1];
    assert WellSpacedAt(empty, cmds, |front|);
    forall i | 0 <= i < |front| ensures WellSpacedAt(empty, front, i) {
      assert WellSpacedAt(empty, cmds, i);
      assert front[..i] == cmds[..i] && front[i] == cmds[i];
    }
  }

  // An id is recorded twice only with at least 20000 others in between, less one for each time the process ended,
  // provided no reopened directory held an id twice within the window.
  lemma {:induction false} RecordedTwiceFarApart<B>(empty: State<B>, cmds: seq<Command<B>>)
    requires Blank(empty) && WellSpacedRun(empty, cmds)
    ensures FarApart(Recorded(Run(empty, cmds).history), Restarts(cmds))
  {
    hide FarApart, SpacedAll, Durable, AgreeIn, Next, Left, WellSpacedRun, ReplayIndex;
    if cmds == [] {
      NoneFarApart();
    } else {
      var front, c := cmds[..|cmds| - 1], cmds[|cmds| - 1];
      WellSpacedFront(empty, cmds);
      RecordedTwiceFarApart(empty, front);
      Recovery(empty, front);
      WellSpacedAgrees(empty, front);
      FarStep(empty, Run(empty, front), c, Restarts(front));
    }
  }

  lemma NoneFarApart()
    ensures FarApart([], 0)
  {
  }

  // ----- without a torn compaction ----------------------------------------------------------------------------------

  // How many events a run records at most.
  function Adds<B>(cmds: seq<Command<B>>): nat {
    if cmds == [] then 0
    else Adds(cmds[..|cmds| - 1]) + (if AddsOne(cmds[|cmds| - 1]) then 1 else 0)
  }

  predicate AddsOne<B>(c: Command<B>) { !c.Restart? && c.op.AddEvent? }

  ghost predicate Untorn<B>(cmds: seq<Command<B>>) { forall i :: 0 <= i < |cmds| ==> !cmds[i].CrashCompacting? }

  lemma NoDupSpaced(l: seq<string>)
    requires NoDup(l)
    ensures SpacedAll(l)
  {
  }

  lemma NoDupDrop(l: seq<string>, p: nat)
    requires NoDup(l) && p < |l|
    ensures NoDup(Drop(l, p)) && |Drop(l, p)| == |l| - 1 && forall x :: x in Drop(l, p) ==> x in l
  {
  }

  lemma NoDupSnoc(l: seq<string>, x: string)
    requires NoDup(l) && x !in l
    ensures NoDup(l + [x])
  {
  }

  // While nothing has left the window, a directory holds exactly the ids its operations recorded.
  lemma SplitIds<B>(d: Disk<B>, h: seq<Op<B>>, empty: State<B>)
    requires Blank(empty) && Splits(d, h, empty) && |Recorded(h)| <= SEEN_CAP
    ensures DiskIds(d) == Recorded(h)
  {
    hide Recorded, Fold, Aligned;
    var n := |h| - |d.wal|;
    HistoryWindow(empty, h[..n]);
    RecordedConcat(h[..n], d.wal);
    assert h == h[..n] + d.wal;
  }

  lemma KeptOnce<B>(h: seq<Op<B>>, skipped: Option<nat>)
    requires NoDup(Recorded(h))
    ensures NoDup(Recorded(Kept(h, skipped))) && |Recorded(Kept(h, skipped))| <= |Recorded(h)|
    ensures forall x :: x in Recorded(Kept(h, skipped)) ==> x in Recorded(h)
  {
    hide Recorded, Kept, NoDup, Drop;
    var p := RecordedKept(h, skipped);
    if p.Some? { NoDupDrop(Recorded(h), p.value); }
  }

  // An id that AddEvent does not ignore has not been recorded.
  lemma NotYet<B>(empty: State<B>, s: Store<B>, o: Op<B>)
    requires Blank(empty) && Durable(s, empty) && AgreeIn(s) && o.AddEvent? && !Ignored(s, o) && |Recorded(s.history)| <= SEEN_CAP
    ensures o.doc.id !in Recorded(s.history)
  {
    Window(empty, s);
  }

  // The operations a command leaves behind record no id twice.
  lemma OnceStep<B>(empty: State<B>, s: Store<B>, c: Command<B>)
    requires Blank(empty) && Durable(s, empty) && AgreeIn(s) && !c.CrashCompacting? && NoDup(Recorded(s.history))
    requires |Recorded(s.history)| + (if AddsOne(c) then 1 else 0) <= SEEN_CAP
    ensures var r := Recorded(Next(s, c).history);
            NoDup(r) && |r| <= |Recorded(s.history)| + (if AddsOne(c) then 1 else 0)
  {
    hide Recorded, Durable, AgreeIn, Ignored, Kept, Recovered, ReplayIndex, Apply, Indexed, NoDup;
    KeptOnce(s.history, s.skipped);
    if !c.Restart? && !Ignored(s, c.op) {
      RecordedSnoc(s.history, c.op);
      RecordedSnoc(OnDisk(s), c.op);
      if c.op.AddEvent? {
        NotYet(empty, s, c.op);
        NoDupSnoc(Recorded(s.history), c.op.doc.id);
        NoDupSnoc(Recorded(OnDisk(s)), c.op.doc.id);
      }
    }
  }

  lemma OnceSpaced<B>(empty: State<B>, s: Store<B>, c: Command<B>)
    requires Blank(empty) && Durable(s, empty) && Left(s, c).Some? && NoDup(Recorded(Next(s, c).history))
    requires |Recorded(Next(s, c).history)| <= SEEN_CAP
    ensures SpacedAll(DiskIds(Left(s, c).value.0))
  {
    hide Recorded, Durable, NoDup, SpacedAll, Splits, Recovered, ReplayIndex, DiskIds;
    LeftSplits(s, empty, c);
    SplitIds(Left(s, c).value.0, Left(s, c).value.1, empty);
    NoDupSpaced(DiskIds(Left(s, c).value.0));
  }

  lemma WellSpacedSnoc<B>(empty: State<B>, cmds: seq<Command<B>>)
    requires cmds != []
    requires var front, c := cmds[..|cmds| - 1], cmds[|cmds| - 1];
             WellSpacedRun(empty, front)
             && (Left(Run(empty, front), c).Some? ==> SpacedAll(DiskIds(Left(Run(empty, front), c).value.0)))
    ensures WellSpacedRun(empty, cmds)
  {
    hide Run, Left, SpacedAll;
    var front := cmds[..|cmds| - 1];
    forall i | 0 <= i < |cmds| ensures WellSpacedAt(empty, cmds, i) {
      if i < |front| {
        assert WellSpacedAt(empty, front, i);
        assert front[..i] == cmds[..i] && front[i] == cmds[i];
      }
    }
  }

  // In a run whose compactions were not torn and that records at most 20000 events, however often the process ends, no id
  // is recorded twice, and every reopened directory is spaced.
  lemma {:induction false} RecordedAtMostOnce<B>(empty: State<B>, cmds: seq<Command<B>>)
    requires Blank(empty) && Untorn(cmds) && Adds(cmds) <= SEEN_CAP
    ensures NoDup(Recorded(Run(empty, cmds).history)) && |Recorded(Run(empty, cmds).history)| <= Adds(cmds)
    ensures WellSpacedRun(empty, cmds)
  {
    hide SpacedAll, Durable, AgreeIn, Next, Left, WellSpacedRun, NoDup, AddsOne;
    if cmds == [] {
      NoneRecorded(empty);
    } else {
      var front, c := cmds[..|cmds| - 1], cmds[|cmds| - 1];
      RecordedAtMostOnce(empty, front);
      Recovery(empty, front);
      WellSpacedAgrees(empty, front);
      OnceStep(empty, Run(empty, front), c);
      if Left(Run(empty, front), c).Some? { OnceSpaced(empty, Run(empty, front), c); }
      WellSpacedSnoc(empty, cmds);
    }
  }

  lemma NoneRecorded<B>(empty: State<B>)
    ensures Recorded(Run(empty, []).history) == [] && NoDup([]) && WellSpacedRun(empty, [])
  {
  }

  // ----- the condition can fail -------------------------------------------------------------------------------------

  const QUIET: Op<nat> := Del(Routes, "")

  // One event, and then operations that touch nothing until the log is one short of full.
  function Calm(d: Doc<nat>, k: nat): seq<Command<nat>> {
    if k == 0 then [Do(AddEvent(d))] else Calm(d, k - 1) + [Do(QUIET)]
  }

  const NOTHING: State<nat> := State(map[], [], [])

  ghost predicate Calmed(s: Store<nat>, d: Doc<nat>, k: nat) {
    s.ops == k + 1 && s.state.seen == [d.id] && s.index == {d.id} && Recorded(s.disk.wal) == [d.id]
  }

  lemma CalmStart(d: Doc<nat>)
    ensures Calmed(Run(NOTHING, Calm(d, 0)), d, 0)
  {
    var s := Run(NOTHING, []);
    assert Calm(d, 0)[..0] == [];
    assert s == Store(NOTHING, {}, Disk(NOTHING, []), 0, [], None);
    assert Run(NOTHING, Calm(d, 0)) == Mutate(s, AddEvent(d));
    RecordedSnoc([], AddEvent(d));
    assert [] + [AddEvent(d)] == [AddEvent(d)];
  }

  lemma CalmStep(s: Store<nat>, d: Doc<nat>, k: nat)
    requires Calmed(s, d, k) && k + 2 < COMPACT_AFTER
    ensures Calmed(Next(s, Do(QUIET)), d, k + 1)
  {
    RecordedSnoc(s.disk.wal, QUIET);
  }

  lemma {:induction false} Calms(d: Doc<nat>, k: nat)
    requires k + 1 < COMPACT_AFTER
    ensures Calmed(Run(NOTHING, Calm(d, k)), d, k)
  {
    hide Calmed, Next, Run;
    if k == 0 {
      CalmStart(d);
    } else {
      Calms(d, k - 1);
      RunSnoc(NOTHING, Calm(d, k - 1), Do(QUIET));
      CalmStep(Run(NOTHING, Calm(d, k - 1)), d, k - 1);
    }
  }

  lemma TornStep(s: Store<nat>, d: Doc<nat>)
    requires Calmed(s, d, COMPACT_AFTER - 2) && Aligned(s.state)
    ensures var left := Left(s, CrashCompacting(QUIET)); left.Some? && DiskIds(left.value.0) == [d.id, d.id]
    ensures Next(s, CrashCompacting(QUIET)).state.seen == [d.id, d.id]
  {
    hide Aligned, Recorded, Fold, ReplayIndex;
    var disk := Left(s, CrashCompacting(QUIET)).value.0;
    RecordedSnoc(s.disk.wal, QUIET);
    assert DiskIds(disk) == [d.id] + [d.id] == [d.id, d.id];
    FoldSeen(disk.snapshot, disk.wal);
  }

  lemma TwiceNotSpaced(x: string)
    ensures !SpacedEnd([x, x]) && !NoDup([x, x])
  {
    var l := [x, x];
    assert l[0] == l[1];
  }

  // A reachable failure: a crash between the two halves of a compaction lists the one recorded event twice.
  lemma TornCompaction(d: Doc<nat>)
    ensures var cmds := Calm(d, COMPACT_AFTER - 2) + [CrashCompacting(QUIET)];
            var s := Run(NOTHING, cmds);
            s.state.seen == [d.id, d.id] && !AgreeIn(s) && !SpacedRun(NOTHING, cmds)
  {
    var calm := Calm(d, COMPACT_AFTER - 2);
    var cmds := calm + [CrashCompacting(QUIET)];
    Calms(d, COMPACT_AFTER - 2);
    Recovery(NOTHING, calm);
    hide Run, Calm, Calmed, Left, Next, SpacedEnd, Durable, NoDup, Aligned;
    Window(NOTHING, Run(NOTHING, calm));
    TornStep(Run(NOTHING, calm), d);
    TwiceNotSpaced(d.id);
    RunSnoc(NOTHING, calm, CrashCompacting(QUIET));
    assert cmds[..|calm|] == calm && cmds[|calm|] == CrashCompacting(QUIET);
    assert !SpacedAt(NOTHING, cmds, |calm|);
  }
}
