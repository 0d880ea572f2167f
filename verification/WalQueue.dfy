// The file-backed durable queue (internal/queue/queue.go): an in-memory map whose entries carry sequence
// numbers, an append-only log rewritten every COMPACT_AFTER appends, item and byte caps and three overflow
// policies.
//
// The queue is first given as a value, a list in FIFO order with one function per operation. The class at
// the end is the imperative queue over a map, proved to implement those functions. Values of type T stand
// for their JSON encoding, of which only the length is used.
module WalQueue {
  import opened Wrappers

  const COMPACT_AFTER: nat := 4096

  datatype Policy = Reject | DropOldest | DropNewest

  // Caps of zero or less mean "no cap".
  datatype Options = Options(maxItems: int, maxBytes: int, policy: Policy)

  datatype Item<+T> = Item(id: string, seqNo: nat, data: T, bytes: nat)

  datatype Record<+T> = PutRec(item: Item<T>) | DelRec(delId: string, delSeq: nat) {
    function Id(): string { if PutRec? then item.id else delId }
    function SeqNo(): nat { if PutRec? then item.seqNo else delSeq }
  }

  // How the log may trail memory: the record whose append triggered the latest compaction is dropped with
  // the old log, so the log still describes that id as it was before.
  datatype Lag<+T> = InSync | Behind(id: string, before: Option<Item<T>>)

  datatype QState<+T> = QState(list: seq<Item<T>>, seqNo: nat, bytes: int, ops: nat, log: seq<Record<T>>, lag: Lag<T>)

  datatype PutResult = Stored | Full | BadId

  // ----- lists of items ---------------------------------------------------------------------------------

  function Find<T>(l: seq<Item<T>>, id: string): (r: Option<Item<T>>)
    ensures r.Some? ==> r.value.id == id && r.value in l
  {
    if l == [] then None
    else if l[|l| - 1].id == id then Some(l[|l| - 1])
    else Find(l[..|l| - 1], id)
  }

  function Without<T>(l: seq<Item<T>>, id: string): seq<Item<T>> {
    if l == [] then []
    else if l[|l| - 1].id == id then Without(l[..|l| - 1], id)
    else Without(l[..|l| - 1], id) + [l[|l| - 1]]
  }

  function Sum<T>(l: seq<Item<T>>): nat {
    if l == [] then 0 else Sum(l[..|l| - 1]) + l[|l| - 1].bytes
  }

  // Strictly increasing sequence numbers up to `top`, no empty id.
  predicate Sorted<T>(l: seq<Item<T>>, top: int) {
    l == [] || (l[|l| - 1].seqNo <= top && l[|l| - 1].id != "" && Sorted(l[..|l| - 1], l[|l| - 1].seqNo - 1))
  }

  predicate NoDup<T>(l: seq<Item<T>>) {
    l == [] || (Find(l[..|l| - 1], l[|l| - 1].id).None? && NoDup(l[..|l| - 1]))
  }

  lemma Snoc<T>(l: seq<Item<T>>, it: Item<T>)
    ensures (l + [it])[..|l|] == l
  {
  }

  // The list functions unfolded once at the back, and at the empty list.
  lemma SnocDefs<T>(l: seq<Item<T>>, it: Item<T>, top: int, x: string)
    ensures Find(l + [it], x) == if it.id == x then Some(it) else Find(l, x)
    ensures Without(l + [it], x) == if it.id == x then Without(l, x) else Without(l, x) + [it]
    ensures Sum(l + [it]) == Sum(l) + it.bytes
    ensures Sorted(l + [it], top) <==> it.seqNo <= top && it.id != "" && Sorted(l, it.seqNo - 1)
    ensures NoDup(l + [it]) <==> Find(l, it.id).None? && NoDup(l)
    ensures Sum<T>([]) == 0 && NoDup<T>([]) && Sorted<T>([], top) && Find<T>([], x).None? && Without<T>([], x) == []
  {
    Snoc(l, it);
  }

  lemma {:induction false} FindAt<T>(l: seq<Item<T>>, i: nat)
    requires NoDup(l) && i < |l|
    ensures Find(l, l[i].id) == Some(l[i])
  {
    if i < |l| - 1 {
      var front := l[..|l| - 1];
      FindAt(front, i);
      assert front[i] == l[i];
    }
  }

  lemma {:induction false} FindWithout<T>(l: seq<Item<T>>, x: string, id: string)
    ensures Find(Without(l, x), id) == if id == x then None else Find(l, id)
  {
    if l != [] {
      var front, last := l[..|l| - 1], l[|l| - 1];
      FindWithout(front, x, id);
      if last.id != x { Snoc(Without(front, x), last); }
    }
  }

  lemma {:induction false} WithoutAbsent<T>(l: seq<Item<T>>, x: string)
    requires Find(l, x).None?
    ensures Without(l, x) == l
  {
    if l != [] {
      WithoutAbsent(l[..|l| - 1], x);
      assert l == l[..|l| - 1] + [l[|l| - 1]];
    }
  }

  lemma {:induction false} WithoutCommutes<T>(l: seq<Item<T>>, x: string, y: string)
    ensures Without(Without(l, x), y) == Without(Without(l, y), x)
  {
    if l != [] {
      var front, last := l[..|l| - 1], l[|l| - 1];
      WithoutCommutes(front, x, y);
      if last.id != x { Snoc(Without(front, x), last); }
      if last.id != y { Snoc(Without(front, y), last); }
    }
  }

  lemma {:induction false} WithoutKeeps<T>(l: seq<Item<T>>, x: string, top: int)
    ensures Sorted(l, top) ==> Sorted(Without(l, x), top)
    ensures NoDup(l) ==> NoDup(Without(l, x))
  {
    hide Find;
    if l != [] {
      var front, last := l[..|l| - 1], l[|l| - 1];
      WithoutKeeps(front, x, last.seqNo - 1);
      FindWithout(front, x, last.id);
      if last.id != x {
        Snoc(Without(front, x), last);
      } else if Sorted(l, top) {
        SortedUp(Without(front, x), last.seqNo - 1, top);
      }
    }
  }

  lemma SortedUp<T>(l: seq<Item<T>>, top: int, top': int)
    requires Sorted(l, top) && top <= top'
    ensures Sorted(l, top')
  {
  }

  lemma {:induction false} SortedBetween<T>(l: seq<Item<T>>, top: int, i: nat, j: nat)
    requires Sorted(l, top) && i < j < |l|
    ensures l[i].seqNo < l[j].seqNo <= top && l[i].id != ""
  {
    var front, last := l[..|l| - 1], l[|l| - 1];
    if j < |l| - 1 {
      SortedBetween(front, last.seqNo - 1, i, j);
    } else if i < |front| - 1 {
      SortedBetween(front, last.seqNo - 1, i, |front| - 1);
    }
  }

  lemma {:induction false} SumWithout<T>(l: seq<Item<T>>, x: string)
    requires NoDup(l)
    ensures Sum(l) == Sum(Without(l, x)) + BytesOf(l, x)
    ensures |l| == |Without(l, x)| + (if Find(l, x).Some? then 1 else 0)
  {
    if l != [] {
      var front, last := l[..|l| - 1], l[|l| - 1];
      SumWithout(front, x);
      if last.id == x { WithoutAbsent(front, x); } else { Snoc(Without(front, x), last); }
    }
  }

  lemma {:induction false} WithoutFirst<T>(l: seq<Item<T>>)
    requires NoDup(l) && l != []
    ensures Without(l, l[0].id) == l[1..]
  {
    var front, last := l[..|l| - 1], l[|l| - 1];
    if |l| > 1 {
      WithoutFirst(front);
      FindAt(front, 0);
      assert front[1..] + [last] == l[1..];
    } else {
      assert Without(front, l[0].id) == [];
    }
  }

  function BytesOf<T>(l: seq<Item<T>>, id: string): nat {
    match Find(l, id) case None => 0 case Some(it) => it.bytes
  }

  // Put sends its item to the back and leaves the order of everything else alone.
  function PutList<T>(l: seq<Item<T>>, it: Item<T>): seq<Item<T>> { Without(l, it.id) + [it] }

  lemma PutListKeeps<T>(l: seq<Item<T>>, it: Item<T>, top: int)
    requires NoDup(l)
    ensures NoDup(PutList(l, it))
    ensures Sorted(l, top) && top < it.seqNo && it.id != "" ==> Sorted(PutList(l, it), it.seqNo)
    ensures Sum(PutList(l, it)) == Sum(l) - BytesOf(l, it.id) + it.bytes
    ensures |PutList(l, it)| == |l| + (if Find(l, it.id).Some? then 0 else 1)
    ensures Find(PutList(l, it), it.id) == Some(it)
  {
    hide Sorted, NoDup, Without, Find, Sum;
    WithoutKeeps(l, it.id, top);
    FindWithout(l, it.id, it.id);
    SumWithout(l, it.id);
    SnocDefs(Without(l, it.id), it, it.seqNo, it.id);
    if Sorted(l, top) && top < it.seqNo { SortedUp(Without(l, it.id), top, it.seqNo - 1); }
  }

  // ----- the log ----------------------------------------------------------------------------------------

  function ReplayOne<T>(l: seq<Item<T>>, r: Record<T>): seq<Item<T>> {
    if r.PutRec? then PutList(l, r.item) else Without(l, r.delId)
  }

  function Replay<T>(log: seq<Record<T>>): seq<Item<T>> {
    if log == [] then [] else ReplayOne(Replay(log[..|log| - 1]), log[|log| - 1])
  }

  function ReplaySeq<T>(log: seq<Record<T>>): nat {
    if log == [] then 0
    else
      var s := ReplaySeq(log[..|log| - 1]);
      if log[|log| - 1].SeqNo() > s then log[|log| - 1].SeqNo() else s
  }

  lemma ReplayAppend<T>(log: seq<Record<T>>, r: Record<T>)
    ensures Replay(log + [r]) == ReplayOne(Replay(log), r)
    ensures ReplaySeq(log + [r]) == if r.SeqNo() > ReplaySeq(log) then r.SeqNo() else ReplaySeq(log)
  {
    assert (log + [r])[..|log|] == log;
  }

  predicate Covered<T>(l: seq<Item<T>>, top: nat) {
    l == [] || (l[|l| - 1].seqNo <= top && Covered(l[..|l| - 1], top))
  }

  lemma {:induction false} CoveredWithout<T>(l: seq<Item<T>>, x: string, top: nat, top': nat)
    requires Covered(l, top) && top <= top'
    ensures Covered(Without(l, x), top')
  {
    if l != [] {
      CoveredWithout(l[..|l| - 1], x, top, top');
      if l[|l| - 1].id != x { Snoc(Without(l[..|l| - 1], x), l[|l| - 1]); }
    }
  }

  // Whatever the log holds, replay yields each id once and its counter covers every live entry, so a Put
  // after reopening goes to the back.
  lemma {:induction false} ReplaySound<T>(log: seq<Record<T>>)
    ensures NoDup(Replay(log)) && Covered(Replay(log), ReplaySeq(log))
  {
    if log != [] {
      var front, r := log[..|log| - 1], log[|log| - 1];
      ReplaySound(front);
      WithoutKeeps(Replay(front), r.Id(), 0);
      CoveredWithout(Replay(front), r.Id(), ReplaySeq(front), ReplaySeq(log));
      if r.PutRec? {
        PutListKeeps(Replay(front), r.item, 0);
        Snoc(Without(Replay(front), r.Id()), r.item);
      }
    }
  }

  // The log that compaction writes: one put per live item, oldest first.
  function CompactLog<T>(l: seq<Item<T>>): (log: seq<Record<T>>)
    ensures |log| == |l|
  {
    seq(|l|, i requires 0 <= i < |l| => PutRec(l[i]))
  }

  // Compaction alone never loses, changes or reorders anything.
  lemma {:induction false} CompactionExact<T>(l: seq<Item<T>>)
    requires NoDup(l)
    ensures Replay(CompactLog(l)) == l
  {
    hide Sorted, Without, Find, CompactLog, Replay;
    if l == [] {
      CompactNone<T>();
    } else {
      var front, last := l[..|l| - 1], l[|l| - 1];
      CompactionExact(front);
      CompactSnoc(front, last);
      ReplayAppend(CompactLog(front), PutRec(last));
      WithoutAbsent(front, last.id);
      assert l == front + [last];
    }
  }

  lemma CompactNone<T>()
    ensures CompactLog<T>([]) == [] && Replay<T>([]) == []
  {
  }

  lemma CompactSnoc<T>(l: seq<Item<T>>, it: Item<T>)
    ensures CompactLog(l + [it]) == CompactLog(l) + [PutRec(it)]
  {
  }

  lemma {:induction false} CompactionSeq<T>(l: seq<Item<T>>, top: nat)
    requires Sorted(l, top)
    ensures ReplaySeq(CompactLog(l)) <= top
  {
    if l != [] {
      var front, last := l[..|l| - 1], l[|l| - 1];
      SortedUp(front, last.seqNo - 1, top);
      CompactionSeq(front, top);
      assert CompactLog(l)[..|l| - 1] == CompactLog(front);
    }
  }

  // ----- operations as functions of the state -----------------------------------------------------------

  function Append<T>(q: QState<T>, r: Record<T>): QState<T> {
    if q.ops + 1 >= COMPACT_AFTER
    then q.(log := CompactLog(q.list), ops := 0, lag := Behind(r.Id(), Find(q.list, r.Id())))
    else q.(log := q.log + [r], ops := q.ops + 1, lag := if q.lag.Behind? && q.lag.id == r.Id() then InSync else q.lag)
  }

  function DelStep<T>(q: QState<T>, id: string): QState<T> {
    Append(q.(seqNo := q.seqNo + 1), DelRec(id, q.seqNo + 1))
    .(bytes := q.bytes - BytesOf(q.list, id), list := Without(q.list, id))
  }

  // `charged` is what is subtracted from the byte counter for the value being replaced.
  function PutStep<T>(q: QState<T>, id: string, v: T, n: nat, charged: nat): QState<T> {
    var it := Item(id, q.seqNo + 1, v, n);
    Append(q.(seqNo := q.seqNo + 1), PutRec(it)).(bytes := q.bytes - charged + n, list := PutList(q.list, it))
  }

  predicate Over(opts: Options, count: nat, bytes: int, addItems: nat, addBytes: int) {
    || (opts.maxItems > 0 && count + addItems > opts.maxItems)
    || (opts.maxBytes > 0 && bytes + addBytes > opts.maxBytes)
  }

  ghost function Evict<T>(q: QState<T>, opts: Options, ai: nat, ab: int): (e: QState<T>)
    requires NoDup(q.list)
    ensures NoDup(e.list)
    ensures Over(opts, |e.list|, e.bytes, ai, ab) ==> e.list == []
    decreases |q.list|
  {
    if Over(opts, |q.list|, q.bytes, ai, ab) && q.list != []
    then
      WithoutFirst(q.list);
      WithoutKeeps(q.list, q.list[0].id, 0);
      Evict(DelStep(q, q.list[0].id), opts, ai, ab)
    else q
  }

  function AddItems<T>(q: QState<T>, id: string): nat { if Find(q.list, id).Some? then 0 else 1 }

  function AddBytes<T>(q: QState<T>, id: string, n: nat): int { n - BytesOf(q.list, id) }

  ghost function Put<T>(q: QState<T>, opts: Options, id: string, v: T, n: nat): (QState<T>, PutResult)
    requires NoDup(q.list)
  {
    if id == "" then (q, BadId) else
    var ai, ab, charged := AddItems(q, id), AddBytes(q, id, n), BytesOf(q.list, id);
    if !Over(opts, |q.list|, q.bytes, ai, ab) then (PutStep(q, id, v, n, charged), Stored) else
    if !opts.policy.DropOldest? then (q, Full) else
    var e := Evict(q, opts, ai, ab);
    if Over(opts, |e.list|, e.bytes, ai, ab) then (e, Full) else (PutStep(e, id, v, n, charged), Stored)
  }

  function Delete<T>(q: QState<T>, id: string): QState<T> {
    if Find(q.list, id).Some? then DelStep(q, id) else q
  }

  // Opening a directory: replay whatever log is there.
  function Opened<T>(log: seq<Record<T>>): QState<T> {
    var l := Replay(log);
    QState(l, ReplaySeq(log), Sum(l), 0, log, InSync)
  }

  // ----- the log refines memory -------------------------------------------------------------------------

  // A reader of the log sees `disk` when memory holds `mem`: the same items in the same order, except that
  // the lagging id is as it was before its last operation.
  ghost predicate Trails<T>(disk: seq<Item<T>>, mem: seq<Item<T>>, lag: Lag<T>) {
    match lag
    case InSync => disk == mem
    case Behind(x, before) => Without(disk, x) == Without(mem, x) && Find(disk, x) == before
  }

  ghost predicate Inv<T>(q: QState<T>) {
    && NoDup(q.list) && Sorted(q.list, q.seqNo)
    && Sorted(Replay(q.log), q.seqNo) && ReplaySeq(q.log) <= q.seqNo
    && Trails(Replay(q.log), q.list, q.lag)
  }

  lemma InvFacts<T>(q: QState<T>)
    requires Inv(q)
    ensures NoDup(q.list) && Trails(Replay(q.log), q.list, q.lag)
  {
  }

  lemma TrailsStep<T>(disk: seq<Item<T>>, mem: seq<Item<T>>, lag: Lag<T>, r: Record<T>)
    requires Trails(disk, mem, lag)
    ensures Trails(ReplayOne(disk, r), ReplayOne(mem, r), if lag.Behind? && lag.id == r.Id() then InSync else lag)
  {
    if lag.Behind? && lag.id != r.Id() {
      var x, y := lag.id, r.Id();
      WithoutCommutes(disk, x, y);
      WithoutCommutes(mem, x, y);
      FindWithout(disk, y, x);
      if r.PutRec? {
        Snoc(Without(disk, y), r.item);
        Snoc(Without(mem, y), r.item);
      }
    }
  }

  lemma AppendKeeps<T>(q: QState<T>, r: Record<T>)
    requires Inv(q) && r.SeqNo() == q.seqNo + 1 && r.Id() != ""
    ensures Inv(Append(q.(seqNo := q.seqNo + 1), r).(list := ReplayOne(q.list, r)))
  {
    WithoutKeeps(q.list, r.Id(), q.seqNo);
    if r.PutRec? { PutListKeeps(q.list, r.item, q.seqNo); } else { SortedUp(Without(q.list, r.Id()), q.seqNo, q.seqNo + 1); }
    if q.ops + 1 >= COMPACT_AFTER {
      CompactionExact(q.list);
      CompactionSeq(q.list, q.seqNo);
      SortedUp(q.list, q.seqNo, q.seqNo + 1);
      var x := r.Id();
      FindWithout(q.list, x, x);
      WithoutAbsent(Without(q.list, x), x);
      if r.PutRec? { Snoc(Without(q.list, x), r.item); }
    } else {
      ReplayAppend(q.log, r);
      TrailsStep(Replay(q.log), q.list, q.lag, r);
      ReplaySound(q.log);
      WithoutKeeps(Replay(q.log), r.Id(), q.seqNo);
      if r.PutRec? { PutListKeeps(Replay(q.log), r.item, q.seqNo); }
      else { SortedUp(Without(Replay(q.log), r.Id()), q.seqNo, q.seqNo + 1); }
    }
  }

  lemma DelStepKeeps<T>(q: QState<T>, id: string)
    requires Inv(q) && id != ""
    ensures Inv(DelStep(q, id))
  {
    hide Sorted, NoDup, Replay, ReplaySeq, Without, Find;
    AppendKeeps(q, DelRec(id, q.seqNo + 1));
  }

  lemma PutStepKeeps<T>(q: QState<T>, id: string, v: T, n: nat, charged: nat)
    requires Inv(q) && id != ""
    ensures Inv(PutStep(q, id, v, n, charged))
  {
    hide Sorted, NoDup, Replay, ReplaySeq, Without, Find;
    AppendKeeps(q, PutRec(Item(id, q.seqNo + 1, v, n)));
  }

  lemma {:induction false} NonEmptyIds<T>(l: seq<Item<T>>, top: int)
    requires Sorted(l, top)
    ensures Find(l, "").None? && (l != [] ==> l[0].id != "")
  {
    if l != [] { NonEmptyIds(l[..|l| - 1], l[|l| - 1].seqNo - 1); }
  }

  lemma {:induction false} EvictKeeps<T>(q: QState<T>, opts: Options, ai: nat, ab: int)
    requires Inv(q)
    ensures Inv(Evict(q, opts, ai, ab))
    decreases |q.list|
  {
    if Over(opts, |q.list|, q.bytes, ai, ab) && q.list != [] {
      NonEmptyIds(q.list, q.seqNo);
      WithoutFirst(q.list);
      DelStepKeeps(q, q.list[0].id);
      EvictKeeps(DelStep(q, q.list[0].id), opts, ai, ab);
    }
  }

  lemma PutKeeps<T>(q: QState<T>, opts: Options, id: string, v: T, n: nat)
    requires Inv(q)
    ensures Inv(Put(q, opts, id, v, n).0)
  {
    hide Sorted, NoDup, Without, Find, Sum, Evict, Trails, Replay, ReplaySeq;
    if id != "" {
      var ai, ab, charged := AddItems(q, id), AddBytes(q, id, n), BytesOf(q.list, id);
      EvictKeeps(q, opts, ai, ab);
      PutStepKeeps(q, id, v, n, charged);
      PutStepKeeps(Evict(q, opts, ai, ab), id, v, n, charged);
    }
  }

  lemma PutStepFresh<T>(q: QState<T>, id: string, v: T, n: nat, charged: nat)
    requires Inv(q) && id != "" && Find(q.list, id).None?
    ensures var q' := PutStep(q, id, v, n, charged); Inv(q') && q'.list == q.list + [Item(id, q.seqNo + 1, v, n)]
  {
    hide Inv, Find, Without;
    PutStepKeeps(q, id, v, n, charged);
    WithoutAbsent(q.list, id);
  }

  // Without drop-oldest, putting a fresh id appends one item or changes nothing.
  lemma PutFresh<T>(q: QState<T>, opts: Options, id: string, v: T, n: nat)
    requires Inv(q) && !opts.policy.DropOldest? && Find(q.list, id).None?
    ensures var (q', r) := Put(q, opts, id, v, n);
            && Inv(q')
            && (r.Stored? ==> q'.list == q.list + [Item(id, q.seqNo + 1, v, n)])
            && (!r.Stored? ==> q' == q)
  {
    assert NoDup(q.list);
    hide Inv, Find, PutStep, Over;
    if id != "" { PutStepFresh(q, id, v, n, BytesOf(q.list, id)); }
  }

  lemma DeleteKeeps<T>(q: QState<T>, id: string)
    requires Inv(q)
    ensures Inv(Delete(q, id))
  {
    if Find(q.list, id).Some? {
      NonEmptyIds(q.list, q.seqNo);
      DelStepKeeps(q, id);
    }
  }

  lemma {:induction false} SortedTight<T>(l: seq<Item<T>>, top: int, cover: nat)
    requires Sorted(l, top) && Covered(l, cover)
    ensures Sorted(l, cover)
  {
  }

  // Reopening after a crash.
  lemma ReopenKeeps<T>(q: QState<T>)
    requires Inv(q)
    ensures Inv(Opened(q.log))
  {
    ReplaySound(q.log);
    SortedTight(Replay(q.log), q.seqNo, ReplaySeq(q.log));
  }

  datatype Op<+T> = PutOp(id: string, v: T, n: nat) | DeleteOp(id: string) | CrashOp

  ghost function Step<T>(q: QState<T>, opts: Options, op: Op<T>): QState<T>
    requires Inv(q)
  {
    match op
    case PutOp(id, v, n) => Put(q, opts, id, v, n).0
    case DeleteOp(id) => Delete(q, id)
    case CrashOp => Opened(q.log)
  }

  lemma StepKeeps<T>(q: QState<T>, opts: Options, op: Op<T>)
    requires Inv(q)
    ensures Inv(Step(q, opts, op))
  {
    match op
    case PutOp(id, v, n) => PutKeeps(q, opts, id, v, n);
    case DeleteOp(id) => DeleteKeeps(q, id);
    case CrashOp => ReopenKeeps(q);
  }

  ghost function Run<T>(opts: Options, ops: seq<Op<T>>): (q: QState<T>)
    ensures Inv(q)
  {
    if ops == [] then Opened([])
    else
      var before := Run(opts, ops[..|ops| - 1]);
      StepKeeps(before, opts, ops[|ops| - 1]);
      Step(before, opts, ops[|ops| - 1])
  }

  // Main theorem: after any run of Puts, Deletes and crashes, with any number of compactions, the log
  // replays to the in-memory queue, values and FIFO order, except that the one id whose append triggered
  // the latest compaction may still read as before that operation. The reopened queue accounts its bytes
  // exactly and counts on from at least every live sequence number.
  lemma WalRefinement<T>(opts: Options, ops: seq<Op<T>>)
    ensures var q := Run(opts, ops); var disk := Opened(q.log);
            && Trails(disk.list, q.list, q.lag)
            && (q.lag.Behind? ==>
                  forall id :: id != q.lag.id ==> Find(disk.list, id) == Find(q.list, id))
            && disk.bytes == Sum(disk.list)
            && Sorted(disk.list, disk.seqNo) && Covered(disk.list, disk.seqNo)
  {
    var q := Run(opts, ops);
    ReopenKeeps(q);
    ReplaySound(q.log);
    if q.lag.Behind? {
      forall id | id != q.lag.id ensures Find(Opened(q.log).list, id) == Find(q.list, id) {
        FindWithout(q.list, q.lag.id, id);
        FindWithout(Opened(q.log).list, q.lag.id, id);
      }
    }
  }

  // The lag is real: the append that fills the log drops its own record, so an accepted Put of a fresh id
  // vanishes if the process dies before the next compaction or the next write of that id.
  lemma LagIsReal<T>(q: QState<T>, opts: Options, id: string, v: T, n: nat)
    requires Inv(q) && q.ops == COMPACT_AFTER - 1 && id != "" && Find(q.list, id).None?
    requires !Over(opts, |q.list|, q.bytes, 1, n)
    ensures var p := Put(q, opts, id, v, n);
            p.1 == Stored && Find(p.0.list, id).Some? && Opened(p.0.log).list == q.list
  {
    CompactionExact(q.list);
    PutListKeeps(q.list, Item(id, q.seqNo + 1, v, n), q.seqNo);
  }

  // ----- caps and eviction ------------------------------------------------------------------------------

  predicate BytesExact<T>(q: QState<T>) { NoDup(q.list) && q.bytes == Sum(q.list) }

  predicate WithinCaps<T>(q: QState<T>, opts: Options) { !Over(opts, |q.list|, q.bytes, 0, 0) }

  lemma DropFirst<T>(q: QState<T>)
    requires BytesExact(q) && q.list != []
    ensures var d := DelStep(q, q.list[0].id); BytesExact(d) && d.list == q.list[1..]
  {
    WithoutFirst(q.list);
    SumWithout(q.list, q.list[0].id);
    WithoutKeeps(q.list, q.list[0].id, 0);
  }

  predicate HasRoom<T>(l: seq<Item<T>>, opts: Options, ai: nat, ab: int) { !Over(opts, |l|, Sum(l), ai, ab) }

  // Eviction drops the shortest FIFO prefix that makes room; if no prefix does, it drops everything.
  lemma {:induction false} EvictShortestPrefix<T>(q: QState<T>, opts: Options, ai: nat, ab: int) returns (k: nat)
    requires BytesExact(q)
    ensures var e := Evict(q, opts, ai, ab);
            && BytesExact(e) && k <= |q.list| && e.list == q.list[k..]
            && (HasRoom(e.list, opts, ai, ab) || e.list == [])
            && (forall j: nat :: j < k ==> !HasRoom(q.list[j..], opts, ai, ab))
    decreases |q.list|
  {
    if Over(opts, |q.list|, q.bytes, ai, ab) && q.list != [] {
      DropFirst(q);
      var d := DelStep(q, q.list[0].id);
      var k' := EvictShortestPrefix(d, opts, ai, ab);
      k := k' + 1;
      assert q.list[k..] == d.list[k'..];
      forall j: nat | j < k ensures !HasRoom(q.list[j..], opts, ai, ab) {
        if j > 0 { assert q.list[j..] == d.list[j - 1..]; } else { assert q.list[0..] == q.list; }
      }
    } else {
      k := 0;
      assert q.list[0..] == q.list;
    }
  }

  lemma {:induction false} FindSuffix<T>(l: seq<Item<T>>, k: nat, id: string)
    requires k <= |l| && Find(l, id).None?
    ensures Find(l[k..], id).None?
  {
    if k < |l| {
      assert l[k..][..|l| - k - 1] == l[..|l| - 1][k..];
      FindSuffix(l[..|l| - 1], k, id);
    }
  }

  // Byte accounting and caps survive every Put under `reject` and `drop-newest`, and every Put of a fresh
  // id under `drop-oldest`; under the first two a refused Put changes nothing.
  lemma CapsKept<T>(q: QState<T>, opts: Options, id: string, v: T, n: nat)
    requires BytesExact(q) && WithinCaps(q, opts)
    requires opts.policy.DropOldest? ==> Find(q.list, id).None?
    ensures var p := Put(q, opts, id, v, n);
            && BytesExact(p.0) && WithinCaps(p.0, opts)
            && (!opts.policy.DropOldest? && p.1.Full? ==> p.0 == q)
            && (p.1.Stored? ==> Find(p.0.list, id) == Some(Item(id, p.0.seqNo, v, n)))
  {
    hide Sorted, NoDup, Without, Find, Sum, Evict, Replay;
    SnocDefs<T>([], Item(id, 0, v, n), 0, "");
    if id != "" {
      var ai, ab := AddItems(q, id), AddBytes(q, id, n);
      if !Over(opts, |q.list|, q.bytes, ai, ab) {
        PutListKeeps(q.list, Item(id, q.seqNo + 1, v, n), 0);
      } else if opts.policy.DropOldest? {
        var e := Evict(q, opts, ai, ab);
        var k := EvictShortestPrefix(q, opts, ai, ab);
        FindSuffix(q.list, k, id);
        PutListKeeps(e.list, Item(id, e.seqNo + 1, v, n), 0);
      }
    }
  }

  // At every point of every crash-free run the counter is exact and the caps hold, provided a `drop-oldest`
  // queue only ever sees fresh ids.
  lemma {:induction false} CapsOverRun<T>(opts: Options, ops: seq<Op<T>>)
    requires forall i :: 0 <= i < |ops| ==> !ops[i].CrashOp?
    requires opts.policy.DropOldest? ==>
               forall i :: 0 <= i < |ops| && ops[i].PutOp? ==> Find(Run(opts, ops[..i]).list, ops[i].id).None?
    ensures BytesExact(Run(opts, ops)) && WithinCaps(Run(opts, ops), opts)
  {
    if ops != [] {
      var front, op := ops[..|ops| - 1], ops[|ops| - 1];
      forall i | 0 <= i < |front| && front[i].PutOp? && opts.policy.DropOldest?
        ensures Find(Run(opts, front[..i]).list, front[i].id).None?
      {
        assert front[..i] == ops[..i];
      }
      CapsOverRun(opts, front);
      var q := Run(opts, front);
      match op
      case PutOp(id, v, n) => CapsKept(q, opts, id, v, n);
      case DeleteOp(id) => SumWithout(q.list, id); WithoutKeeps(q.list, id, 0);
    }
  }

  // A crash brings back or forgets at most the lagging id, and only this can carry a reopened queue past
  // its item cap, by one.
  lemma CrashDrift<T>(opts: Options, ops: seq<Op<T>>)
    ensures var q := Run(opts, ops); var disk := Opened(q.log);
            match q.lag
            case InSync => disk.list == q.list
            case Behind(x, before) =>
              && |disk.list| + (if Find(q.list, x).Some? then 1 else 0) == |q.list| + (if before.Some? then 1 else 0)
              && Sum(disk.list) + BytesOf(q.list, x) == Sum(q.list) + (if before.Some? then before.value.bytes else 0)
  {
    var q := Run(opts, ops);
    ReplaySound(q.log);
    hide Sorted, NoDup, Without, Find, Sum, Replay, Run;
    if q.lag.Behind? {
      SumWithout(q.list, q.lag.id);
      SumWithout(Replay(q.log), q.lag.id);
    }
  }

  // `drop-oldest` refuses a fresh id exactly when the new value alone is over the byte cap, and by then it
  // has already emptied the queue.
  lemma DropOldestFullIff<T>(q: QState<T>, opts: Options, id: string, v: T, n: nat)
    requires BytesExact(q) && WithinCaps(q, opts)
    requires opts.policy.DropOldest? && id != "" && Find(q.list, id).None?
    ensures var p := Put(q, opts, id, v, n);
            && (p.1.Full? <==> opts.maxBytes > 0 && n > opts.maxBytes)
            && (p.1.Full? ==> p.0.list == [])
  {
    var k := EvictShortestPrefix(q, opts, 1, n);
  }

  // What putting v under an id leaves of the list l, in which the id stands at i or, with i == |l|, not at all.
  function Replaced<T>(l: seq<Item<T>>, i: nat, it: Item<T>): seq<Item<T>>
    requires i <= |l|
  {
    (if i < |l| then l[..i] + l[i + 1..] else l) + [it]
  }

  // The id stands at i, or nowhere if i is the length.
  ghost predicate StandsAt<T>(l: seq<Item<T>>, id: string, i: nat) {
    && i <= |l| && (i < |l| ==> l[i].id == id)
    && forall j :: 0 <= j < |l| && j != i ==> l[j].id != id
  }

  lemma {:induction false} StandsSomewhere<T>(l: seq<Item<T>>, id: string)
    requires NoDup(l)
    ensures exists i: nat :: StandsAt(l, id, i)
  {
    if l == [] {
      assert StandsAt(l, id, 0);
    } else {
      var front, last := l[..|l| - 1], l[|l| - 1];
      StandsSomewhere(front, id);
      var i: nat :| StandsAt(front, id, i);
      WithoutAt(front, id, i);
      assert forall j :: 0 <= j < |front| ==> front[j] == l[j];
      assert StandsAt(l, id, if i < |front| then i else if last.id == id then |front| else |l|);
    }
  }

  lemma {:induction false} FindNowhere<T>(l: seq<Item<T>>, id: string)
    requires forall j :: 0 <= j < |l| ==> l[j].id != id
    ensures Find(l, id).None?
  {
    if l != [] { FindNowhere(l[..|l| - 1], id); }
  }

  lemma CutSnoc<T>(l: seq<Item<T>>, i: nat, it: Item<T>)
    requires i < |l|
    ensures (l + [it])[..i] + (l + [it])[i + 1..] == l[..i] + l[i + 1..] + [it]
  {
  }

  lemma {:induction false} WithoutAt<T>(l: seq<Item<T>>, id: string, i: nat)
    requires StandsAt(l, id, i)
    ensures Without(l, id) == if i < |l| then l[..i] + l[i + 1..] else l
    ensures Find(l, id) == if i < |l| then Some(l[i]) else None
  {
    hide Find, Without;
    if i == |l| {
      FindNowhere(l, id);
      WithoutAbsent(l, id);
    } else {
      var front, last := l[..|l| - 1], l[|l| - 1];
      assert l == front + [last];
      SnocDefs(front, last, 0, id);
      assert forall j :: 0 <= j < |front| ==> front[j] == l[j];
      if i < |front| {
        WithoutAt(front, id, i);
        CutSnoc(front, i, last);
      } else {
        FindNowhere(front, id);
        WithoutAbsent(front, id);
        assert l[..i] + l[i + 1..] == front;
      }
    }
  }

  // Every Put that leaves both caps met is stored, whatever the policy and whether or not the id is queued: the old
  // entry goes, the new one stands at the back. Without drop-oldest nothing else is stored, and nothing changes then.
  lemma StoredIff<T>(q: QState<T>, opts: Options, id: string, v: T, n: nat, i: nat)
    requires NoDup(q.list) && StandsAt(q.list, id, i)
    ensures var (q', r) := Put(q, opts, id, v, n);
            var items := if i < |q.list| then |q.list| else |q.list| + 1;
            var bytes := if i < |q.list| then q.bytes - q.list[i].bytes + n else q.bytes + n;
            var fits := (opts.maxItems <= 0 || items <= opts.maxItems) && (opts.maxBytes <= 0 || bytes <= opts.maxBytes);
            && (r.BadId? <==> id == "")
            && (id != "" && fits ==>
                  r.Stored? && q'.list == Replaced(q.list, i, Item(id, q.seqNo + 1, v, n)) && q'.bytes == bytes)
            && (!opts.policy.DropOldest? && id != "" && !fits ==> r.Full?)
            && (!opts.policy.DropOldest? && !r.Stored? ==> q' == q)
  {
    hide NoDup, Without, Find, Evict, Append;
    WithoutAt(q.list, id, i);
  }

  // Deleting takes out that one entry and its bytes.
  lemma DeletedExactly<T>(q: QState<T>, id: string, i: nat)
    requires StandsAt(q.list, id, i)
    ensures i < |q.list| ==> Delete(q, id).list == q.list[..i] + q.list[i + 1..] && Delete(q, id).bytes == q.bytes - q.list[i].bytes
    ensures i == |q.list| ==> Delete(q, id) == q
  {
    hide Without, Find, Append;
    WithoutAt(q.list, id, i);
  }

  // Both caps hold for n more bytes under a new id once the first k entries are gone.
  predicate FitsAfter<T>(l: seq<Item<T>>, opts: Options, k: nat, n: nat)
    requires k <= |l|
  {
    (opts.maxItems <= 0 || |l| - k + 1 <= opts.maxItems) && (opts.maxBytes <= 0 || Sum(l[k..]) + n <= opts.maxBytes)
  }

  // Under drop-oldest a fresh id whose value is not over the byte cap is stored behind what is left after dropping
  // the fewest oldest entries.
  lemma DropOldestStores<T>(q: QState<T>, opts: Options, id: string, v: T, n: nat)
    requires BytesExact(q) && WithinCaps(q, opts)
    requires opts.policy.DropOldest? && id != "" && Find(q.list, id).None? && (opts.maxBytes <= 0 || n <= opts.maxBytes)
    ensures var (q', r) := Put(q, opts, id, v, n);
            && r.Stored?
            && exists k: nat :: k <= |q.list| && FitsAfter(q.list, opts, k, n) && q'.list == q.list[k..] + [Item(id, q'.seqNo, v, n)]
                               && forall j: nat :: j < k ==> !FitsAfter(q.list, opts, j, n)
  {
    hide Sorted, NoDup, Without, Find, Sum, Evict, Replay;
    SnocDefs<T>([], Item(id, 0, v, n), 0, "");
    var k := EvictShortestPrefix(q, opts, 1, n);
    var e := Evict(q, opts, 1, n);
    DropOldestFullIff(q, opts, id, v, n);
    EvictNothing(q, opts, 1, n);
    FindSuffix(q.list, k, id);
    WithoutAbsent(e.list, id);
    if k == |q.list| { assert q.list[k..] == []; }
    assert FitsAfter(q.list, opts, k, n);
    forall j: nat | j < k ensures !FitsAfter(q.list, opts, j, n) {
      assert !HasRoom(q.list[j..], opts, 1, n);
    }
  }

  // ----- re-putting a queued id under drop-oldest -------------------------------------------------------

  lemma {:induction false} SumSplit<T>(l: seq<Item<T>>, k: nat)
    requires k <= |l|
    ensures Sum(l) == Sum(l[..k]) + Sum(l[k..])
  {
    if k < |l| {
      SumSplit(l[..|l| - 1], k);
      assert l[..|l| - 1][..k] == l[..k];
      assert l[k..][..|l| - k - 1] == l[..|l| - 1][k..];
    } else {
      assert l[..k] == l;
    }
  }

  // Eviction reaches the id being re-put exactly when its new value does not fit beside the entries queued
  // after it.
  lemma {:induction false} SelfEviction<T>(q: QState<T>, opts: Options, i: nat, n: nat)
    requires BytesExact(q) && i < |q.list|
    requires opts.maxBytes > 0 && (opts.maxItems > 0 ==> |q.list| <= opts.maxItems)
    ensures var e := Evict(q, opts, 0, n - q.list[i].bytes);
            |e.list| < |q.list| - i <==> Sum(q.list[i + 1..]) + n > opts.maxBytes
    decreases |q.list|
  {
    hide Sorted, NoDup, Without, Find, Sum, Append;
    var ab := n - q.list[i].bytes;
    SumSplit(q.list, i + 1);
    SumSplit(q.list[..i + 1], i);
    assert q.list[..i + 1][i..] == [] + [q.list[i]];
    SnocDefs([], q.list[i], 0, "");
    if Over(opts, |q.list|, q.bytes, 0, ab) {
      DropFirst(q);
      var d := DelStep(q, q.list[0].id);
      if i == 0 {
        var k := EvictShortestPrefix(d, opts, 0, ab);
      } else {
        assert d.list[i - 1] == q.list[i] && d.list[i..] == q.list[i + 1..];
        SelfEviction(d, opts, i - 1, n);
      }
    }
  }

  // Re-putting a queued id under `drop-oldest` subtracts its bytes twice when eviction removes it first.
  // The counter stays exact if and only if that does not happen (or the Put is refused, or the old value
  // had no bytes).
  lemma RePutAccountsIff<T>(q: QState<T>, opts: Options, i: nat, v: T, n: nat)
    requires BytesExact(q) && WithinCaps(q, opts) && i < |q.list| && q.list[i].id != ""
    requires opts.policy.DropOldest?
    ensures BytesExact(Put(q, opts, q.list[i].id, v, n).0)
            <==> || opts.maxBytes <= 0
                 || Sum(q.list[i + 1..]) + n <= opts.maxBytes
                 || n - q.list[i].bytes > opts.maxBytes
                 || q.list[i].bytes == 0
  {
    hide Sorted, NoDup, Without, Find, Evict, Sum, Put;
    if Over(opts, |q.list|, q.bytes, 0, n - q.list[i].bytes) {
      RePutOver(q, opts, i, v, n);
    } else {
      RePutFits(q, opts, i, v, n);
    }
  }

  lemma RePutFits<T>(q: QState<T>, opts: Options, i: nat, v: T, n: nat)
    requires BytesExact(q) && i < |q.list| && q.list[i].id != "" && opts.policy.DropOldest?
    requires !Over(opts, |q.list|, q.bytes, 0, n - q.list[i].bytes)
    ensures BytesExact(Put(q, opts, q.list[i].id, v, n).0)
    ensures opts.maxBytes <= 0 || Sum(q.list[i + 1..]) + n <= opts.maxBytes || n - q.list[i].bytes > opts.maxBytes
  {
    hide Sorted, NoDup, Without, Find, Evict, Sum;
    SnocDefs<T>([], q.list[i], 0, "");
    EvictNothing(q, opts, 0, n - q.list[i].bytes);
    FindAt(q.list, i);
    if opts.maxBytes > 0 { SelfEviction(q, opts, i, n); }
    PutListKeeps(q.list, Item(q.list[i].id, q.seqNo + 1, v, n), 0);
  }

  lemma RePutOver<T>(q: QState<T>, opts: Options, i: nat, v: T, n: nat)
    requires BytesExact(q) && WithinCaps(q, opts) && i < |q.list| && q.list[i].id != "" && opts.policy.DropOldest?
    requires Over(opts, |q.list|, q.bytes, 0, n - q.list[i].bytes)
    ensures BytesExact(Put(q, opts, q.list[i].id, v, n).0)
            <==> || opts.maxBytes <= 0
                 || Sum(q.list[i + 1..]) + n <= opts.maxBytes
                 || n - q.list[i].bytes > opts.maxBytes
                 || q.list[i].bytes == 0
  {
    hide Sorted, NoDup, Without, Find, Evict, Sum;
    SnocDefs<T>([], q.list[i], 0, "");
    var it := q.list[i];
    var ab := n - it.bytes;
    EvictNothing(q, opts, 0, ab);
    FindAt(q.list, i);
    if opts.maxBytes > 0 { SelfEviction(q, opts, i, n); }
    var k := EvictShortestPrefix(q, opts, 0, ab);
    var e := Evict(q, opts, 0, ab);
    PutListKeeps(e.list, Item(it.id, e.seqNo + 1, v, n), 0);
    if k <= i {
      assert e.list[i - k] == it;
      FindAt(e.list, i - k);
      EvictedRoom(q, opts, i, k, n);
    } else {
      GoneFromSuffix(q.list, i, k);
    }
  }

  lemma EvictNothing<T>(q: QState<T>, opts: Options, ai: nat, ab: int)
    requires NoDup(q.list)
    ensures !Over(opts, |q.list|, q.bytes, ai, ab) ==> Evict(q, opts, ai, ab) == q
  {
  }

  lemma {:induction false} GoneFromSuffix<T>(l: seq<Item<T>>, i: nat, k: nat)
    requires NoDup(l) && i < k <= |l|
    ensures Find(l[k..], l[i].id).None?
  {
    if k < |l| {
      assert l[k..][..|l| - k - 1] == l[..|l| - 1][k..];
      GoneFromSuffix(l[..|l| - 1], i, k);
      FindAt(l[..|l| - 1], i);
    }
  }

  lemma EvictedRoom<T>(q: QState<T>, opts: Options, i: nat, k: nat, n: nat)
    requires BytesExact(q) && k <= i < |q.list| && opts.maxBytes > 0
    requires HasRoom(q.list[k..], opts, 0, n - q.list[i].bytes)
    ensures n - q.list[i].bytes <= opts.maxBytes
  {
  }

  // A concrete failure: byte cap 10, one queued value of 6 bytes re-put with 11. The counter then reads 5
  // while 11 bytes are queued, over the cap.
  lemma RePutCounterexample()
    ensures var opts := Options(0, 10, DropOldest);
            var q := QState([Item("a", 1, 'x', 6)], 1, 6, 1, [PutRec(Item("a", 1, 'x', 6))], InSync);
            var p := Put(q, opts, "a", 'y', 11);
            Inv(q) && BytesExact(q) && p.1 == Stored && p.0.bytes == 5 && Sum(p.0.list) == 11
  {
    var opts := Options(0, 10, DropOldest);
    var it := Item("a", 1, 'x', 6);
    var q := QState([it], 1, 6, 1, [PutRec(it)], InSync);
    hide Without, Replay;
    CompactionExact([it]);
    CompactionSeq([it], 1);
    assert CompactLog([it]) == [PutRec(it)];
    var k := EvictShortestPrefix(q, opts, 0, 5);
    assert q.list[0..] == [it];
    var e := Evict(q, opts, 0, 5);
    assert e.list == [];
    PutListKeeps(e.list, Item("a", e.seqNo + 1, 'y', 11), 0);
  }

  // ----- the queue object -------------------------------------------------------------------------------

  type Items<+T> = map<string, Item<T>>

  function MapOf<T>(l: seq<Item<T>>): Items<T> {
    if l == [] then map[] else MapOf(l[..|l| - 1])[l[|l| - 1].id := l[|l| - 1]]
  }

  lemma {:induction false} MapOfFind<T>(l: seq<Item<T>>, id: string)
    ensures id in MapOf(l) <==> Find(l, id).Some?
    ensures id in MapOf(l) ==> Find(l, id) == Some(MapOf(l)[id])
  {
    if l != [] { MapOfFind(l[..|l| - 1], id); }
  }

  lemma {:induction false} MapOfWithout<T>(l: seq<Item<T>>, x: string)
    ensures MapOf(Without(l, x)) == MapOf(l) - {x}
  {
    if l != [] {
      var front, last := l[..|l| - 1], l[|l| - 1];
      MapOfWithout(front, x);
      if last.id != x { Snoc(Without(front, x), last); }
    }
  }

  lemma MapOfPut<T>(l: seq<Item<T>>, it: Item<T>)
    ensures MapOf(PutList(l, it)) == MapOf(l)[it.id := it]
  {
    MapOfWithout(l, it.id);
    Snoc(Without(l, it.id), it);
  }

  lemma {:induction false} MapOfSize<T>(l: seq<Item<T>>)
    requires NoDup(l)
    ensures |MapOf(l)| == |l|
  {
    if l != [] {
      var front, last := l[..|l| - 1], l[|l| - 1];
      MapOfSize(front);
      MapOfFind(front, last.id);
      assert MapOf(l).Keys == MapOf(front).Keys + {last.id};
    }
  }

  // One pass over the map in any order, keeping the least sequence number seen.
  method FindOldest<T>(m: Items<T>, ghost l: seq<Item<T>>, ghost top: int) returns (id: string)
    requires m == MapOf(l) && l != [] && NoDup(l) && Sorted(l, top)
    ensures id == l[0].id
  {
    NonEmptyIds(l, top);
    MapOfFind(l, "");
    FindAt(l, 0);
    MapOfFind(l, l[0].id);
    id := "";
    var least := 0;
    var rest := m.Keys;
    while rest != {}
      invariant rest <= m.Keys
      invariant id == "" ==> rest == m.Keys
      invariant id != "" ==> id in m && least == m[id].seqNo
      invariant id != "" ==> forall k :: k in m && k !in rest ==> least <= m[k].seqNo
      decreases |rest|
    {
      var k :| k in rest;
      if id == "" || m[k].seqNo < least {
        id, least := k, m[k].seqNo;
      }
      rest := rest - {k};
    }
    assert l[0].id in m.Keys;
    MapOfFind(l, id);
    ghost var i :| 0 <= i < |l| && l[i] == m[id];
    if i > 0 { SortedBetween(l, top, 0, i); }
  }

  // The live items sorted by sequence number.
  method SortedItems<T>(m: Items<T>, ghost l: seq<Item<T>>, ghost top: int) returns (out: seq<Item<T>>)
    requires m == MapOf(l) && NoDup(l) && Sorted(l, top)
    ensures out == l
  {
    hide Sorted, NoDup, Without, Find, MapOf;
    MapOfSize(l);
    out := [];
    var rest := m;
    ghost var left := l;
    while rest != map[]
      invariant rest == MapOf(left) && NoDup(left) && Sorted(left, top)
      invariant |rest| == |left| && out + left == l
      decreases |rest|
    {
      assert left != [];
      var o := FindOldest(rest, left, top);
      WithoutFirst(left);
      WithoutKeeps(left, o, top);
      MapOfWithout(left, o);
      FindAt(left, 0);
      MapOfFind(left, o);
      out := out + [rest[o]];
      assert (rest - {o}).Keys == rest.Keys - {o};
      rest := rest - {o};
      left := left[1..];
      MapOfSize(left);
    }
  }

  class Queue<T> {
    var items: Items<T>
    var seqNo: nat
    var bytes: int
    var ops: nat
    var log: seq<Record<T>>
    ghost var list: seq<Item<T>>
    ghost var lag: Lag<T>
    const opts: Options
    const size: T -> nat

    ghost function State(): QState<T>
      reads this
    {
      QState(list, seqNo, bytes, ops, log, lag)
    }

    ghost predicate Valid()
      reads this
    {
      items == MapOf(list) && Inv(State())
    }

    // Open: replay an existing log record by record.
    constructor (opts: Options, size: T -> nat, log: seq<Record<T>>)
      ensures this.opts == opts && this.size == size
      ensures State() == Opened(log) && items == MapOf(list)
    {
      this.opts, this.size := opts, size;
      this.log, this.lag, this.ops := log, InSync, 0;
      items, seqNo, bytes, list := map[], 0, 0, [];
      new;
      assert log[..0] == [];
      hide Sorted, NoDup, Covered, Without, Find, ReplayOne;
      for i := 0 to |log|
        invariant this.log == log && this.lag == InSync && this.ops == 0
        invariant list == Replay(log[..i]) && seqNo == ReplaySeq(log[..i])
        invariant items == MapOf(list) && bytes == Sum(list)
      {
        assert log[..i + 1] == log[..i] + [log[i]];
        ReplayAppend(log[..i], log[i]);
        ReplaySound(log[..i]);
        ReplayRecord(log[i]);
      }
      assert log[..|log|] == log;
    }

    method ReplayRecord(r: Record<T>)
      requires items == MapOf(list) && NoDup(list) && bytes == Sum(list)
      modifies this`items, this`seqNo, this`bytes, this`list
      ensures list == ReplayOne(old(list), r) && items == MapOf(list) && bytes == Sum(list)
      ensures seqNo == if r.SeqNo() > old(seqNo) then r.SeqNo() else old(seqNo)
    {
      hide Sorted, NoDup, Without, Find, MapOf, Sum;
      MapOfFind(list, r.Id());
      SumWithout(list, r.Id());
      MapOfWithout(list, r.Id());
      if r.PutRec? {
        PutListKeeps(list, r.item, 0);
        MapOfPut(list, r.item);
      } else if r.delId !in items {
        WithoutAbsent(list, r.delId);
      }
      if r.SeqNo() > seqNo { seqNo := r.SeqNo(); }
      match r {
        case PutRec(it) =>
          if it.id in items { bytes := bytes - items[it.id].bytes; }
          items := items[it.id := it];
          bytes := bytes + it.bytes;
        case DelRec(id, _) =>
          if id in items {
            bytes := bytes - items[id].bytes;
            items := items - {id};
          }
      }
      list := ReplayOne(list, r);
    }

    method CompactLocked()
      requires items == MapOf(list) && NoDup(list) && Sorted(list, seqNo)
      modifies this`log, this`ops
      ensures log == CompactLog(list) && ops == 0
    {
      var es := SortedItems(items, list, seqNo);
      log := CompactLog(es);
      ops := 0;
    }

    method AppendLocked(r: Record<T>)
      requires items == MapOf(list) && NoDup(list) && Sorted(list, seqNo)
      modifies this`log, this`ops, this`lag
      ensures State() == Append(old(State()), r)
    {
      log := log + [r];
      ops := ops + 1;
      if ops >= COMPACT_AFTER {
        CompactLocked();
        lag := Behind(r.Id(), Find(list, r.Id()));
      } else if lag.Behind? && lag.id == r.Id() {
        lag := InSync;
      }
    }

    method RemoveItem(id: string)
      requires Valid() && id in items
      modifies this
      ensures Valid() && State() == DelStep(old(State()), id) && items == old(items) - {id}
    {
      hide Sorted, NoDup, Replay, ReplaySeq, Without, Find, MapOf;
      MapOfFind(list, id);
      NonEmptyIds(list, seqNo);
      DelStepKeeps(State(), id);
      MapOfWithout(list, id);
      SortedUp(list, seqNo, seqNo + 1);
      seqNo := seqNo + 1;
      AppendLocked(DelRec(id, seqNo));
      bytes := bytes - items[id].bytes;
      items := items - {id};
      list := Without(list, id);
    }

    method StoreItem(id: string, v: T, n: nat, charged: nat)
      requires Valid() && id != ""
      modifies this
      ensures Valid() && State() == PutStep(old(State()), id, v, n, charged)
    {
      hide Sorted, NoDup, Replay, ReplaySeq, Without, Find, MapOf;
      PutStepKeeps(State(), id, v, n, charged);
      SortedUp(list, seqNo, seqNo + 1);
      seqNo := seqNo + 1;
      var it := Item(id, seqNo, v, n);
      MapOfPut(list, it);
      AppendLocked(PutRec(it));
      bytes := bytes - charged;
      items := items[id := it];
      bytes := bytes + n;
      list := PutList(list, it);
    }

    method MakeRoom(addItems: nat, addBytes: int)
      requires Valid()
      modifies this
      ensures Valid() && State() == Evict(old(State()), opts, addItems, addBytes)
    {
      MapOfSize(list);
      while Over(opts, |items|, bytes, addItems, addBytes) && |items| > 0
        invariant Valid() && |items| == |list|
        invariant Evict(State(), opts, addItems, addBytes) == Evict(old(State()), opts, addItems, addBytes)
        decreases |items|
      {
        var oid := FindOldest(items, list, seqNo);
        FindAt(list, 0);
        MapOfFind(list, oid);
        WithoutFirst(list);
        RemoveItem(oid);
        MapOfSize(list);
      }
    }

    method PutItem(id: string, v: T) returns (res: PutResult)
      requires Valid()
      modifies this
      ensures Valid()
      ensures (State(), res) == Put(old(State()), opts, id, v, size(v))
    {
      hide Sorted, NoDup, Replay, ReplaySeq, Without, Find, MapOf, Evict;
      if id == "" { return BadId; }
      MapOfFind(list, id);
      MapOfSize(list);
      var n := size(v);
      var charged := if id in items then items[id].bytes else 0;
      var addItems: nat := if id in items then 0 else 1;
      var addBytes := n - charged;
      if Over(opts, |items|, bytes, addItems, addBytes) {
        if !opts.policy.DropOldest? { return Full; }
        MakeRoom(addItems, addBytes);
        MapOfSize(list);
        if Over(opts, |items|, bytes, addItems, addBytes) { return Full; }
      }
      StoreItem(id, v, n, charged);
      return Stored;
    }

    method DeleteItem(id: string)
      requires Valid()
      modifies this
      ensures Valid() && State() == Delete(old(State()), id)
    {
      MapOfFind(list, id);
      if id in items { RemoveItem(id); }
    }

    // The live values, oldest first.
    method List() returns (out: seq<T>)
      requires Valid()
      ensures |out| == |list| && forall i :: 0 <= i < |list| ==> out[i] == list[i].data
    {
      var es := SortedItems(items, list, seqNo);
      out := [];
      for i := 0 to |es|
        invariant |out| == i && forall j :: 0 <= j < i ==> out[j] == es[j].data
      {
        out := out + [es[i].data];
      }
    }
  }
}
