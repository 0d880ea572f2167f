// The file-backed fleet store (internal/store/store.go): a state of document lists, a snapshot and a log of
// operations, compacted every COMPACT_AFTER appends, and an index of the event ids seen recently.
module FileStore {
  import opened Wrappers

  const COMPACT_AFTER: nat := 2048
  const EVENT_CAP: nat := 2000
  const SEEN_CAP: nat := 20000
  const ALERT_CAP: nat := 2000

  datatype Kind = Sites | Devices | Twins | Routes | Deployments | Policies | Campaigns | Orgs | Alerts

  datatype Doc<+B> = Doc(id: string, body: B)

  // The shapes the operation types come in: plain append (site.add, route.add, deployment.add, policy.add,
  // ota_campaign.add, org.add), replace or append (site.set, device.add, twin.set), replace if present
  // (deployment.set, policy.set, ota_campaign.set, org.set, alert.set), delete (route.del, deployment.del,
  // policy.del, org.del), and the two capped lists (alert.add, event.add).
  datatype Op<+B> =
    | Add(kind: Kind, doc: Doc<B>)
    | Set(kind: Kind, doc: Doc<B>)
    | Replace(kind: Kind, doc: Doc<B>)
    | Del(kind: Kind, id: string)
    | AddAlert(doc: Doc<B>)
    | AddEvent(doc: Doc<B>)

  datatype State<+B> = State(docs: map<Kind, seq<Doc<B>>>, events: seq<Doc<B>>, seen: seq<string>)

  // ----- lists of documents -----------------------------------------------------------------------------

  function Suffix<T>(s: seq<T>, n: nat): seq<T> { if |s| > n then s[|s| - n..] else s }

  // The position of the first document with this id, or the length.
  function First<B>(l: seq<Doc<B>>, id: string): (i: nat)
    ensures i <= |l| && (i < |l| ==> l[i].id == id) && forall j :: 0 <= j < i ==> l[j].id != id
  {
    if l == [] || l[0].id == id then 0 else 1 + First(l[1..], id)
  }

  // The first document with this id stands at i; at the length, there is none.
  ghost predicate FirstAt<B>(l: seq<Doc<B>>, id: string, i: nat) {
    i <= |l| && (i < |l| ==> l[i].id == id) && forall j :: 0 <= j < i ==> l[j].id != id
  }

  function ReplaceIn<B>(l: seq<Doc<B>>, d: Doc<B>): seq<Doc<B>> {
    if First(l, d.id) < |l| then l[First(l, d.id) := d] else l
  }

  function SetIn<B>(l: seq<Doc<B>>, d: Doc<B>): seq<Doc<B>> {
    if First(l, d.id) < |l| then l[First(l, d.id) := d] else l + [d]
  }

  function Without<B>(l: seq<Doc<B>>, id: string): seq<Doc<B>> {
    if l == [] then [] else Without(l[..|l| - 1], id) + (if l[|l| - 1].id == id then [] else [l[|l| - 1]])
  }

  function Get<B>(s: State<B>, k: Kind): seq<Doc<B>> { if k in s.docs then s.docs[k] else [] }

  function Put<B>(s: State<B>, k: Kind, l: seq<Doc<B>>): State<B> { s.(docs := s.docs[k := l]) }

  function Apply<B>(s: State<B>, o: Op<B>): State<B> {
    match o
    case Add(k, d) => Put(s, k, Get(s, k) + [d])
    case Set(k, d) => Put(s, k, SetIn(Get(s, k), d))
    case Replace(k, d) => Put(s, k, ReplaceIn(Get(s, k), d))
    case Del(k, id) => Put(s, k, Without(Get(s, k), id))
    case AddAlert(d) => Put(s, Alerts, Suffix(Get(s, Alerts) + [d], ALERT_CAP))
    case AddEvent(d) => s.(events := Suffix(s.events + [d], EVENT_CAP), seen := Suffix(s.seen + [d.id], SEEN_CAP))
  }

  function Fold<B>(s: State<B>, ops: seq<Op<B>>): State<B> {
    if ops == [] then s else Apply(Fold(s, ops[..|ops| - 1]), ops[|ops| - 1])
  }

  lemma FoldSnoc<B>(s: State<B>, ops: seq<Op<B>>, o: Op<B>)
    ensures Fold(s, ops + [o]) == Apply(Fold(s, ops), o)
  {
    assert (ops + [o])[..|ops|] == ops;
  }

  lemma {:induction false} FoldConcat<B>(s: State<B>, a: seq<Op<B>>, b: seq<Op<B>>)
    ensures Fold(s, a + b) == Fold(Fold(s, a), b)
  {
    hide Apply;
    if b == [] {
      assert a + b == a;
    } else {
      FoldConcat(s, a, b[..|b| - 1]);
      assert (a + b)[..|a + b| - 1] == a + b[..|b| - 1];
    }
  }

  // ----- the index of seen events -------------------------------------------------------------------------

  function SetOf(ids: seq<string>): set<string> { set x | x in ids }

  // The index after event.add: the new id goes in, then every id trimmed from the list goes out.
  function Indexed(index: set<string>, seen: seq<string>, id: string): set<string> {
    var all := seen + [id];
    index + {id} - (if |all| > SEEN_CAP then SetOf(all[..|all| - SEEN_CAP]) else {})
  }

  // The index that reopening rebuilds: the snapshot's listed ids, then one update for each replayed event.
  function ReplayIndex<B>(s: State<B>, ops: seq<Op<B>>): set<string> {
    if ops == [] then SetOf(s.seen)
    else
      var front, o := ops[..|ops| - 1], ops[|ops| - 1];
      if o.AddEvent? then Indexed(ReplayIndex(s, front), Fold(s, front).seen, o.doc.id) else ReplayIndex(s, front)
  }

  // ----- snapshot, log and recovery -----------------------------------------------------------------------

  datatype Disk<+B> = Disk(snapshot: State<B>, wal: seq<Op<B>>)

  // `history` are the operations the state stands for; `skipped` is the position of the one that is not on disk.
  datatype Store<+B> = Store(state: State<B>, index: set<string>, disk: Disk<B>, ops: nat,
                             history: seq<Op<B>>, skipped: Option<nat>)

  // mutate: append, compact from the state if the log is full, and only then apply.
  function Mutate<B>(s: Store<B>, o: Op<B>): Store<B> {
    var index := if o.AddEvent? then Indexed(s.index, s.state.seen, o.doc.id) else s.index;
    if s.ops + 1 >= COMPACT_AFTER
    then Store(Apply(s.state, o), index, Disk(s.state, []), 0, s.history + [o], Some(|s.history|))
    else Store(Apply(s.state, o), index, Disk(s.disk.snapshot, s.disk.wal + [o]), s.ops + 1, s.history + [o], s.skipped)
  }

  function Recovered<B>(d: Disk<B>): State<B> { Fold(d.snapshot, d.wal) }

  function Kept<T>(h: seq<T>, skipped: Option<nat>): seq<T> {
    if skipped.Some? && skipped.value < |h| then h[..skipped.value] + h[skipped.value + 1..] else h
  }

  // What is on disk, as operations.
  function OnDisk<B>(s: Store<B>): seq<Op<B>> { Kept(s.history, s.skipped) }

  function Reopen<B>(disk: Disk<B>, history: seq<Op<B>>): Store<B> {
    Store(Recovered(disk), ReplayIndex(disk.snapshot, disk.wal), disk, 0, history, None)
  }

  // Besides running an operation and restarting between two: the process may die right after the append, or between
  // the two halves of a compaction, when the new snapshot stands beside the old log.
  datatype Command<+B> = Do(op: Op<B>) | Restart | CrashAppended(op: Op<B>) | CrashCompacting(op: Op<B>)

  // AddEvent returns at once for an id in the index.
  predicate Ignored<B>(s: Store<B>, o: Op<B>) { o.AddEvent? && o.doc.id in s.index }

  // The disk a command leaves for a reopening, if it ends the process, and the operations that disk stands for.
  function Left<B>(s: Store<B>, c: Command<B>): Option<(Disk<B>, seq<Op<B>>)> {
    match c
    case Do(o) => None
    case Restart => Some((s.disk, OnDisk(s)))
    case CrashAppended(o) =>
      if Ignored(s, o) then None else Some((s.disk.(wal := s.disk.wal + [o]), OnDisk(s) + [o]))
    case CrashCompacting(o) =>
      if Ignored(s, o) || s.ops + 1 < COMPACT_AFTER then None
      else Some((Disk(s.state, s.disk.wal + [o]), s.history + s.disk.wal + [o]))
  }

  function Next<B>(s: Store<B>, c: Command<B>): Store<B> {
    if Left(s, c).Some? then Reopen(Left(s, c).value.0, Left(s, c).value.1)
    else if c.Do? && !Ignored(s, c.op) then Mutate(s, c.op)
    else s
  }

  function Run<B>(empty: State<B>, cmds: seq<Command<B>>): Store<B> {
    if cmds == [] then Reopen(Disk(empty, []), [])
    else Next(Run(empty, cmds[..|cmds| - 1]), cmds[|cmds| - 1])
  }

  lemma RunSnoc<B>(empty: State<B>, cmds: seq<Command<B>>, c: Command<B>)
    ensures Run(empty, cmds + [c]) == Next(Run(empty, cmds), c)
  {
    assert (cmds + [c])[..|cmds|] == cmds;
  }

  // The disk's snapshot and log split the operations it stands for in two.
  ghost predicate Splits<B>(d: Disk<B>, h: seq<Op<B>>, empty: State<B>) {
    && |d.wal| <= |h| && d.wal == h[|h| - |d.wal|..]
    && d.snapshot == Fold(empty, h[..|h| - |d.wal|])
  }

  ghost predicate Durable<B>(s: Store<B>, empty: State<B>) {
    && s.state == Fold(empty, s.history)
    && (s.skipped.Some? ==> s.skipped.value < |s.history|)
    && Splits(s.disk, OnDisk(s), empty)
    && Ends(s.history, s.disk.wal)
  }

  // The log is the end of the history: a skipped operation comes before it.
  ghost predicate Ends<B>(h: seq<Op<B>>, wal: seq<Op<B>>) { |wal| <= |h| && h[|h| - |wal|..] == wal }

  lemma SplitRecovers<B>(d: Disk<B>, h: seq<Op<B>>, empty: State<B>)
    requires Splits(d, h, empty)
    ensures Recovered(d) == Fold(empty, h) && Ends(h, d.wal)
  {
    hide Fold;
    FoldConcat(empty, h[..|h| - |d.wal|], d.wal);
    assert h == h[..|h| - |d.wal|] + d.wal;
  }

  lemma SplitSnoc<B>(d: Disk<B>, h: seq<Op<B>>, empty: State<B>, o: Op<B>)
    requires Splits(d, h, empty)
    ensures Splits(d.(wal := d.wal + [o]), h + [o], empty)
  {
    hide Fold;
    var h', n := h + [o], |h| - |d.wal|;
    assert h'[|h'| - |d.wal + [o]|..] == h[n..] + [o];
    assert h'[..n] == h[..n];
  }

  lemma SplitFresh<B>(s: State<B>, h: seq<Op<B>>, wal: seq<Op<B>>, empty: State<B>)
    requires s == Fold(empty, h)
    ensures Splits(Disk(s, wal), h + wal, empty)
  {
    hide Fold;
    assert (h + wal)[..|h|] == h && (h + wal)[|h|..] == wal;
  }

  lemma MutateKeeps<B>(s: Store<B>, empty: State<B>, o: Op<B>)
    requires Durable(s, empty)
    ensures Durable(Mutate(s, o), empty)
  {
    hide Fold, Apply, Indexed, Splits;
    FoldSnoc(empty, s.history, o);
    var h := s.history + [o];
    if s.ops + 1 >= COMPACT_AFTER {
      SplitFresh(s.state, s.history, [], empty);
      assert Kept(h, Some(|s.history|)) == s.history + [];
    } else {
      SplitSnoc(s.disk, OnDisk(s), empty, o);
      assert Kept(h, s.skipped) == OnDisk(s) + [o];
      assert h[|h| - |s.disk.wal + [o]|..] == s.history[|s.history| - |s.disk.wal|..] + [o];
    }
  }

  // Whatever a command leaves on disk splits the operations it stands for.
  lemma LeftSplits<B>(s: Store<B>, empty: State<B>, c: Command<B>)
    requires Durable(s, empty) && Left(s, c).Some?
    ensures Splits(Left(s, c).value.0, Left(s, c).value.1, empty)
  {
    hide Fold, Splits;
    match c
    case Restart =>
    case CrashAppended(o) => SplitSnoc(s.disk, OnDisk(s), empty, o);
    case CrashCompacting(o) =>
      SplitFresh(s.state, s.history, s.disk.wal + [o], empty);
      assert s.history + (s.disk.wal + [o]) == s.history + s.disk.wal + [o];
  }

  lemma NextKeeps<B>(s: Store<B>, empty: State<B>, c: Command<B>)
    requires Durable(s, empty)
    ensures Durable(Next(s, c), empty)
  {
    hide Fold, Splits, Mutate, ReplayIndex;
    if Left(s, c).Some? {
      LeftSplits(s, empty, c);
      SplitRecovers(Left(s, c).value.0, Left(s, c).value.1, empty);
    } else if c.Do? {
      MutateKeeps(s, empty, c.op);
    }
  }

  // Main theorem: after any run of operations, restarts and crashes the state is that of its history, and reopening
  // the directory yields the same with at most one operation skipped: the one whose append triggered the latest
  // compaction. `Ledger` below relates the history to the run.
  lemma {:induction false} Recovery<B>(empty: State<B>, cmds: seq<Command<B>>)
    ensures var s := Run(empty, cmds); Durable(s, empty) && Recovered(s.disk) == Fold(empty, OnDisk(s))
  {
    if cmds != [] {
      Recovery(empty, cmds[..|cmds| - 1]);
      hide Durable, Next;
      NextKeeps(Run(empty, cmds[..|cmds| - 1]), empty, cmds[|cmds| - 1]);
    }
    DurableRecovers(Run(empty, cmds), empty);
  }

  lemma DurableRecovers<B>(s: Store<B>, empty: State<B>)
    requires Durable(s, empty) || (s == Reopen(Disk(empty, []), []))
    ensures Durable(s, empty) && Recovered(s.disk) == Fold(empty, OnDisk(s))
  {
    if Durable(s, empty) { SplitRecovers(s.disk, OnDisk(s), empty); }
  }

  // The skip is real: the operation that fills the log is applied but gone after a restart.
  lemma SkipIsReal<B>(s: Store<B>, empty: State<B>, o: Op<B>)
    requires Durable(s, empty) && s.ops == COMPACT_AFTER - 1 && !Ignored(s, o)
    ensures Next(s, Do(o)).state == Apply(s.state, o) && Next(Next(s, Do(o)), Restart).state == s.state
  {
    hide Fold, Apply, ReplayIndex, Durable, Ignored, Indexed;
    FoldNone(s.state);
  }

  lemma FoldNone<B>(s: State<B>)
    ensures Fold(s, []) == s
  {
  }

  // ----- what the history has to do with the run ------------------------------------------------------------

  // Every operation ever carried out, numbered in order. `numbers` are those of the history, `triggers` those whose
  // append triggered a compaction, `dropped` those a reopening lost.
  datatype Ledger<+B> = Ledger(issued: seq<Op<B>>, numbers: seq<nat>, triggers: set<nat>, dropped: seq<nat>)

  function Lost(numbers: seq<nat>, skipped: Option<nat>): seq<nat> {
    if skipped.Some? && skipped.value < |numbers| then [numbers[skipped.value]] else []
  }

  function Tail<T>(s: seq<T>, n: nat): seq<T> { if n <= |s| then s[|s| - n..] else s }

  function Book<B>(b: Ledger<B>, s: Store<B>, c: Command<B>): Ledger<B> {
    var n := |b.issued|;
    match c
    case Do(o) =>
      if Ignored(s, o) then b
      else Ledger(b.issued + [o], b.numbers + [n], if s.ops + 1 >= COMPACT_AFTER then b.triggers + {n} else b.triggers, b.dropped)
    case Restart => b.(numbers := Kept(b.numbers, s.skipped), dropped := b.dropped + Lost(b.numbers, s.skipped))
    case CrashAppended(o) =>
      if Ignored(s, o) then b
      else b.(issued := b.issued + [o], numbers := Kept(b.numbers, s.skipped) + [n],
              dropped := b.dropped + Lost(b.numbers, s.skipped))
    case CrashCompacting(o) =>
      if Left(s, c).None? then b
      else b.(issued := b.issued + [o], triggers := b.triggers + {n},
              numbers := b.numbers + Tail<nat>(Kept<nat>(b.numbers, s.skipped), |s.disk.wal|) + [n])
  }

  function Books<B>(empty: State<B>, cmds: seq<Command<B>>): Ledger<B> {
    if cmds == [] then Ledger([], [], {}, [])
    else Book(Books(empty, cmds[..|cmds| - 1]), Run(empty, cmds[..|cmds| - 1]), cmds[|cmds| - 1])
  }

  function Restarts<B>(cmds: seq<Command<B>>): nat {
    if cmds == [] then 0 else Restarts(cmds[..|cmds| - 1]) + (if cmds[|cmds| - 1].Do? then 0 else 1)
  }

  // The history is the issued operations with these numbers.
  ghost predicate Numbered<B>(h: seq<Op<B>>, numbers: seq<nat>, issued: seq<Op<B>>) {
    |numbers| == |h| && forall i :: 0 <= i < |h| ==> numbers[i] < |issued| && issued[numbers[i]] == h[i]
  }

  // Nothing is missing but what was dropped, and only compacting operations are.
  ghost predicate Complete<B>(b: Ledger<B>) {
    && (forall n :: 0 <= n < |b.issued| ==> n in b.numbers || n in b.dropped)
    && (forall n :: n in b.dropped ==> n in b.triggers)
  }

  predicate Rising(numbers: seq<nat>) { forall i, j :: 0 <= i < j < |numbers| ==> numbers[i] < numbers[j] }

  ghost predicate Booked<B>(s: Store<B>, b: Ledger<B>) {
    && Numbered(s.history, b.numbers, b.issued) && Complete(b)
    && (s.skipped.Some? ==> s.skipped.value < |b.numbers| && b.numbers[s.skipped.value] in b.triggers)
  }

  lemma NumberedSnoc<B>(h: seq<Op<B>>, numbers: seq<nat>, issued: seq<Op<B>>, o: Op<B>)
    requires Numbered(h, numbers, issued)
    ensures Numbered(h + [o], numbers + [|issued|], issued + [o])
  {
  }

  lemma NumberedKept<B>(h: seq<Op<B>>, numbers: seq<nat>, issued: seq<Op<B>>, skipped: Option<nat>)
    requires Numbered(h, numbers, issued)
    ensures Numbered(Kept(h, skipped), Kept(numbers, skipped), issued)
    ensures forall n :: n in numbers ==> n in Kept(numbers, skipped) || n in Lost(numbers, skipped)
  {
    if skipped.Some? && skipped.value < |numbers| {
      var k := skipped.value;
      assert numbers == numbers[..k] + [numbers[k]] + numbers[k + 1..];
    }
  }

  lemma NumberedTwice<B>(h: seq<Op<B>>, hn: seq<nat>, t: seq<Op<B>>, tn: seq<nat>, issued: seq<Op<B>>)
    requires Numbered(h, hn, issued) && Numbered(t, tn, issued)
    ensures Numbered(h + t, hn + tn, issued)
  {
  }

  lemma BookRestart<B>(s: Store<B>, b: Ledger<B>)
    requires Booked(s, b)
    ensures var b' := Book(b, s, Restart);
            Numbered(OnDisk(s), b'.numbers, b'.issued) && Complete(b') && |b'.dropped| <= |b.dropped| + 1
  {
    NumberedKept(s.history, b.numbers, b.issued, s.skipped);
    hide Numbered, Kept;
  }

  lemma BookSnoc<B>(h: seq<Op<B>>, b: Ledger<B>, o: Op<B>, triggers: set<nat>)
    requires Numbered(h, b.numbers, b.issued) && Complete(b) && b.triggers <= triggers
    ensures var b' := Ledger(b.issued + [o], b.numbers + [|b.issued|], triggers, b.dropped);
            Numbered(h + [o], b'.numbers, b'.issued) && Complete(b')
  {
    NumberedSnoc(h, b.numbers, b.issued, o);
  }

  lemma BookCompacting<B>(s: Store<B>, b: Ledger<B>, empty: State<B>, o: Op<B>)
    requires Durable(s, empty) && Booked(s, b) && Left(s, CrashCompacting(o)).Some?
    ensures Booked(Next(s, CrashCompacting(o)), Book(b, s, CrashCompacting(o)))
  {
    hide Fold, ReplayIndex, Apply, Numbered, Kept, Tail, Recovered;
    NumberedKept(s.history, b.numbers, b.issued, s.skipped);
    var wn := Tail<nat>(Kept<nat>(b.numbers, s.skipped), |s.disk.wal|);
    NumberedTail(OnDisk(s), Kept(b.numbers, s.skipped), b.issued, s.disk.wal);
    NumberedTwice(s.history, b.numbers, s.disk.wal, wn, b.issued);
    NumberedSnoc(s.history + s.disk.wal, b.numbers + wn, b.issued, o);
    CompleteMore(b, wn, o);
  }

  lemma NumberedTail<B>(h: seq<Op<B>>, numbers: seq<nat>, issued: seq<Op<B>>, wal: seq<Op<B>>)
    requires Numbered(h, numbers, issued) && |wal| <= |h| && wal == h[|h| - |wal|..]
    ensures Numbered(wal, Tail(numbers, |wal|), issued)
  {
  }

  lemma CompleteMore<B>(b: Ledger<B>, again: seq<nat>, o: Op<B>)
    requires Complete(b)
    ensures Complete(b.(issued := b.issued + [o], triggers := b.triggers + {|b.issued|}, numbers := b.numbers + again + [|b.issued|]))
  {
  }

  lemma BookKeeps<B>(s: Store<B>, b: Ledger<B>, empty: State<B>, c: Command<B>)
    requires Durable(s, empty) && Booked(s, b)
    ensures Booked(Next(s, c), Book(b, s, c))
    ensures |Book(b, s, c).dropped| <= |b.dropped| + (if c.Do? then 0 else 1)
  {
    hide Durable, Complete, Numbered, Recovered, ReplayIndex, Apply, Indexed;
    BookRestart(s, b);
    match c
    case Do(o) =>
      BookSnoc(s.history, b, o, b.triggers);
      BookSnoc(s.history, b, o, b.triggers + {|b.issued|});
    case Restart =>
    case CrashAppended(o) => BookSnoc(OnDisk(s), Book(b, s, Restart), o, b.triggers);
    case CrashCompacting(o) => if Left(s, c).Some? { BookCompacting(s, b, empty, o); }
  }

  lemma RisingKept(numbers: seq<nat>, skipped: Option<nat>)
    requires Rising(numbers)
    ensures Rising(Kept(numbers, skipped))
  {
  }

  lemma BookRises<B>(s: Store<B>, b: Ledger<B>, c: Command<B>)
    requires Booked(s, b) && Rising(b.numbers) && !c.CrashCompacting?
    ensures Rising(Book(b, s, c).numbers)
  {
    hide Complete;
    NumberedKept(s.history, b.numbers, b.issued, s.skipped);
    RisingKept(b.numbers, s.skipped);
  }

  // The history is made of the operations of the run: each is in it, except at most one for each time the process
  // ended, and what is missing are operations whose append triggered a compaction. Unless a crash tore a compaction
  // apart, they are in it once and in order.
  lemma {:induction false} LedgerHolds<B>(empty: State<B>, cmds: seq<Command<B>>)
    ensures var b := Books(empty, cmds);
            && Booked(Run(empty, cmds), b) && |b.dropped| <= Restarts(cmds)
            && ((forall i :: 0 <= i < |cmds| ==> !cmds[i].CrashCompacting?) ==> Rising(b.numbers))
  {
    if cmds != [] {
      var front, c := cmds[..|cmds| - 1], cmds[|cmds| - 1];
      LedgerHolds(empty, front);
      Recovery(empty, front);
      hide Durable, Booked, Book, Next, Rising;
      BookKeeps(Run(empty, front), Books(empty, front), empty, c);
      if forall i :: 0 <= i < |cmds| ==> !cmds[i].CrashCompacting? {
        assert forall i :: 0 <= i < |front| ==> front[i] == cmds[i];
        BookRises(Run(empty, front), Books(empty, front), c);
      }
    }
  }

  // ----- the store object ---------------------------------------------------------------------------------

  // The replace-or-append loop of site.set, device.add and twin.set.
  method SetDoc<B>(l: seq<Doc<B>>, d: Doc<B>) returns (m: seq<Doc<B>>)
    ensures m == SetIn(l, d)
    ensures forall i: nat :: FirstAt(l, d.id, i) ==> m == if i < |l| then l[i := d] else l + [d]
  {
    for i := 0 to |l|
      invariant forall j :: 0 <= j < i ==> l[j].id != d.id
    {
      if l[i].id == d.id {
        assert First(l, d.id) == i;
        return l[i := d];
      }
    }
    return l + [d];
  }

  method ReplaceDoc<B>(l: seq<Doc<B>>, d: Doc<B>) returns (m: seq<Doc<B>>)
    ensures m == ReplaceIn(l, d)
    ensures forall i: nat :: FirstAt(l, d.id, i) ==> m == if i < |l| then l[i := d] else l
  {
    for i := 0 to |l|
      invariant forall j :: 0 <= j < i ==> l[j].id != d.id
    {
      if l[i].id == d.id {
        assert First(l, d.id) == i;
        return l[i := d];
      }
    }
    return l;
  }

  method DeleteDoc<B>(l: seq<Doc<B>>, id: string) returns (out: seq<Doc<B>>)
    ensures out == Without(l, id)
  {
    out := [];
    for i := 0 to |l|
      invariant out == Without(l[..i], id)
    {
      assert l[..i + 1][..i] == l[..i];
      if l[i].id != id { out := out + [l[i]]; }
    }
    assert l[..|l|] == l;
  }

  class FileBackedStore<B> {
    var state: State<B>
    var seen: set<string>
    var snapshot: State<B>
    var wal: seq<Op<B>>
    var ops: nat
    ghost var history: seq<Op<B>>
    ghost var skipped: Option<nat>

    ghost function Value(): Store<B>
      reads this
    {
      Store(state, seen, Disk(snapshot, wal), ops, history, skipped)
    }

    // Open: load the snapshot, rebuild the index from its list, replay the log.
    constructor (disk: Disk<B>, ghost history: seq<Op<B>>)
      ensures Value() == Reopen(disk, history)
    {
      snapshot, wal, ops := disk.snapshot, disk.wal, 0;
      state, seen := disk.snapshot, SetOf(disk.snapshot.seen);
      this.history, skipped := history, None;
      new;
      for i := 0 to |disk.wal|
        invariant state == Fold(disk.snapshot, disk.wal[..i])
        invariant snapshot == disk.snapshot && wal == disk.wal && ops == 0 && this.history == history && skipped == None
        invariant seen == ReplayIndex(disk.snapshot, disk.wal[..i])
      {
        assert disk.wal[..i + 1][..i] == disk.wal[..i];
        ApplyOp(disk.wal[i]);
      }
      assert disk.wal[..|disk.wal|] == disk.wal;
    }

    method ApplyOp(o: Op<B>)
      modifies this`state, this`seen
      ensures state == Apply(old(state), o)
      ensures seen == if o.AddEvent? then Indexed(old(seen), old(state).seen, o.doc.id) else old(seen)
    {
      match o {
        case Add(k, d) => state := Put(state, k, Get(state, k) + [d]);
        case Set(k, d) =>
          var l := SetDoc(Get(state, k), d);
          state := Put(state, k, l);
        case Replace(k, d) =>
          var l := ReplaceDoc(Get(state, k), d);
          state := Put(state, k, l);
        case Del(k, id) =>
          var l := DeleteDoc(Get(state, k), id);
          state := Put(state, k, l);
        case AddAlert(d) =>
          var l := Get(state, Alerts) + [d];
          if |l| > ALERT_CAP { l := l[|l| - ALERT_CAP..]; }
          state := Put(state, Alerts, l);
        case AddEvent(d) => RecordEvent(d);
      }
    }

    method RecordEvent(d: Doc<B>)
      modifies this`state, this`seen
      ensures state == Apply(old(state), AddEvent(d))
      ensures seen == Indexed(old(seen), old(state).seen, d.id)
    {
      var events, list := state.events + [d], state.seen + [d.id];
      seen := seen + {d.id};
      if |events| > EVENT_CAP { events := events[|events| - EVENT_CAP..]; }
      if |list| > SEEN_CAP {
        var cut := |list| - SEEN_CAP;
        ghost var before := seen;
        assert list[..0] == [];
        for i := 0 to cut
          invariant state == old(state) && seen == before - SetOf(list[..i])
        {
          assert list[..i + 1] == list[..i] + [list[i]];
          seen := seen - {list[i]};
        }
        list := list[cut..];
      }
      assert seen == Indexed(old(seen), old(state).seen, d.id);
      state := state.(events := events, seen := list);
    }

    method MutateOp(o: Op<B>)
      modifies this
      ensures Value() == Mutate(old(Value()), o)
    {
      hide Apply, Indexed;
      wal := wal + [o];
      ops := ops + 1;
      if ops >= COMPACT_AFTER {
        snapshot, wal, ops := state, [], 0;
        skipped := Some(|history|);
      }
      history := history + [o];
      ApplyOp(o);
    }

    method AddEventOnce(d: Doc<B>)
      modifies this
      ensures Value() == Next(old(Value()), Do(AddEvent(d)))
    {
      hide Mutate;
      if d.id in seen { return; }
      MutateOp(AddEvent(d));
    }
  }
}
