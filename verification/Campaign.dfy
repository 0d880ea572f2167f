// Staged OTA campaigns (internal/server/ota_campaign.go): a campaign resolves its target devices, rolls an update out
// to growing prefixes of them, follows the devices' reports through their twins, and completes or aborts. Handlers are
// atomic.
module Campaign {
  import opened Wrappers

  datatype Status = Draft | Running | Paused | Completed | Aborted

  datatype OtaState = NotReported | InProgress(name: string) | Committed | Failed | RolledBack

  // One selected device.
  datatype Dev = Dev(deviceId: string, updateId: string, stage: int, state: OtaState)

  datatype Camp = Camp(id: string, status: Status, siteIds: seq<string>, deviceIds: seq<string>, stages: seq<int>,
                       threshold: int, targets: seq<string>, stage: int, devices: seq<Dev>)

  datatype Report = Report(updateId: string, state: OtaState)

  // The "ota" entries of a device twin: the update asked for and the latest report.
  datatype Twin = Twin(desired: Option<string>, version: nat, reported: Option<Report>)

  type Twins = map<string, Twin>

  datatype Device = Device(id: string, site: string)

  // ----- the order of strings -----------------------------------------------------------------------------

  predicate Lex(a: string, b: string) {
    b != [] && (a == [] || a[0] < b[0] || (a[0] == b[0] && Lex(a[1..], b[1..])))
  }

  lemma {:induction false} LexTotal(a: string, b: string)
    ensures a == b || Lex(a, b) || Lex(b, a)
    ensures !(Lex(a, b) && Lex(b, a)) && !Lex(a, a)
  {
    if a != [] && b != [] {
      LexTotal(a[1..], b[1..]);
      if a[0] == b[0] && a[1..] == b[1..] {
        assert a == [a[0]] + a[1..] && b == [b[0]] + b[1..];
      }
    }
    if a != [] { LexTotal(a[1..], a[1..]); }
  }

  lemma {:induction false} LexTransitive(a: string, b: string, c: string)
    requires Lex(a, b) && Lex(b, c)
    ensures Lex(a, c)
  {
    if a != [] && a[0] == b[0] && b[0] == c[0] { LexTransitive(a[1..], b[1..], c[1..]); }
  }

  ghost predicate StrictlySorted(l: seq<string>) { forall i, j :: 0 <= i < j < |l| ==> Lex(l[i], l[j]) }

  // Insertion into a sorted list, dropping a duplicate.
  method Insert(l: seq<string>, x: string) returns (r: seq<string>)
    requires StrictlySorted(l)
    ensures StrictlySorted(r) && forall y :: y in r <==> y in l || y == x
  {
    var i := 0;
    while i < |l| && Lex(l[i], x)
      invariant 0 <= i <= |l| && forall j :: 0 <= j < i ==> Lex(l[j], x)
    {
      i := i + 1;
    }
    if i < |l| && l[i] == x { return l; }
    r := l[..i] + [x] + l[i..];
    SortedInsert(l, i, x);
    forall y ensures y in r <==> y in l || y == x {
      assert l == l[..i] + l[i..];
      assert y in l <==> y in l[..i] || y in l[i..];
    }
  }

  lemma SortedInsert(l: seq<string>, i: nat, x: string)
    requires StrictlySorted(l) && i <= |l| && (forall j :: 0 <= j < i ==> Lex(l[j], x))
    requires i < |l| ==> !Lex(l[i], x) && l[i] != x
    ensures StrictlySorted(l[..i] + [x] + l[i..])
  {
    hide Lex;
    var r := l[..i] + [x] + l[i..];
    if i < |l| { LexTotal(l[i], x); }
    forall a, b | 0 <= a < b < |r| ensures Lex(r[a], r[b]) {
      if a == i && b > i + 1 { LexTransitive(x, l[i], l[b - 1]); }
      if a < i && b > i { assert r[b] == x || r[b] == l[b - 1]; }
    }
  }

  // ----- targets ------------------------------------------------------------------------------------------

  function SiteOf(devs: seq<Device>, id: string): Option<string> {
    if devs == [] then None
    else if devs[|devs| - 1].id == id then Some(devs[|devs| - 1].site)
    else SiteOf(devs[..|devs| - 1], id)
  }

  predicate Allowed(c: Camp, site: string) { c.siteIds == [] || site in c.siteIds }

  // An explicitly listed device must exist, and belong to a listed site if sites are listed.
  predicate Listable(c: Camp, devs: seq<Device>, id: string) {
    SiteOf(devs, id).Some? && Allowed(c, SiteOf(devs, id).value)
  }

  ghost predicate IsTarget(c: Camp, devs: seq<Device>, id: string) {
    if c.deviceIds != [] then id in c.deviceIds
    else exists i :: 0 <= i < |devs| && devs[i].id == id && devs[i].site in c.siteIds
  }

  // resolveCampaignTargets: the targets, sorted and without duplicates, or an error if a listed device cannot be one.
  method ResolveTargets(c: Camp, devs: seq<Device>) returns (r: Option<seq<string>>)
    ensures r.Some? <==> forall i :: 0 <= i < |c.deviceIds| ==> Listable(c, devs, c.deviceIds[i])
    ensures r.Some? ==> StrictlySorted(r.value) && forall id :: id in r.value <==> IsTarget(c, devs, id)
  {
    hide Lex;
    var out: seq<string> := [];
    if |c.deviceIds| > 0 {
      for i := 0 to |c.deviceIds|
        invariant StrictlySorted(out) && forall id :: id in out <==> id in c.deviceIds[..i]
        invariant forall j :: 0 <= j < i ==> Listable(c, devs, c.deviceIds[j])
      {
        var site := SiteOf(devs, c.deviceIds[i]);
        if site.None? || !Allowed(c, site.value) {
          assert !Listable(c, devs, c.deviceIds[i]);
          return None;
        }
        out := Insert(out, c.deviceIds[i]);
        assert c.deviceIds[..i + 1] == c.deviceIds[..i] + [c.deviceIds[i]];
      }
      assert c.deviceIds[..|c.deviceIds|] == c.deviceIds;
    } else {
      for i := 0 to |devs|
        invariant StrictlySorted(out)
        invariant forall id :: id in out <==> exists j :: 0 <= j < i && devs[j].id == id && devs[j].site in c.siteIds
      {
        if devs[i].site in c.siteIds { out := Insert(out, devs[i].id); }
      }
    }
    return Some(out);
  }

  // ----- validation ---------------------------------------------------------------------------------------

  ghost predicate ValidPlan(stages: seq<int>, threshold: int) {
    && stages != [] && stages[|stages| - 1] == 100 && 0 <= threshold <= 100
    && (forall i :: 0 <= i < |stages| ==> 1 <= stages[i] <= 100)
    && (forall i, j :: 0 <= i < j < |stages| ==> stages[i] < stages[j])
  }

  // unicode.IsSpace.
  predicate IsSpace(ch: char) {
    || '\t' <= ch <= '\r' || ch == ' ' || ch == '\U{85}' || ch == '\U{A0}' || ch == '\U{1680}' || '\U{2000}' <= ch <= '\U{200A}'
    || ch == '\U{2028}' || ch == '\U{2029}' || ch == '\U{202F}' || ch == '\U{205F}' || ch == '\U{3000}'
  }

  // What a caller asks for; the manifest and the policy's timeout are checked elsewhere.
  datatype Input = Input(name: string, siteIds: seq<string>, deviceIds: seq<string>, stages: seq<int>, threshold: int,
                         manifestOk: bool, policyOk: bool)

  ghost predicate ValidInput(input: Input) {
    && (exists i :: 0 <= i < |input.name| && !IsSpace(input.name[i]))
    && (input.siteIds != [] || input.deviceIds != [])
    && ValidPlan(input.stages, input.threshold) && input.manifestOk && input.policyOk
  }

  // strings.TrimSpace leaves nothing.
  method IsBlank(name: string) returns (blank: bool)
    ensures blank <==> forall i :: 0 <= i < |name| ==> IsSpace(name[i])
  {
    for i := 0 to |name|
      invariant forall j :: 0 <= j < i ==> IsSpace(name[j])
    {
      if !IsSpace(name[i]) { return false; }
    }
    return true;
  }

  // validateOTACampaignInput.
  method ValidateInput(input: Input) returns (ok: bool)
    ensures ok <==> ValidInput(input)
  {
    hide IsSpace;
    var blank := IsBlank(input.name);
    if blank { return false; }
    if |input.siteIds| == 0 && |input.deviceIds| == 0 { return false; }
    var stages := input.stages;
    if |stages| == 0 { return false; }
    var prev := 0;
    for i := 0 to |stages|
      invariant forall j :: 0 <= j < i ==> 1 <= stages[j] <= prev
      invariant if i > 0 then prev == stages[i - 1] else prev == 0
      invariant 0 <= prev <= 100
      invariant forall j, k :: 0 <= j < k < i ==> stages[j] < stages[k]
    {
      if stages[i] < 1 || stages[i] > 100 { return false; }
      if stages[i] <= prev {
        assert stages[i - 1] >= stages[i];
        return false;
      }
      prev := stages[i];
    }
    if stages[|stages| - 1] != 100 || !input.manifestOk || !input.policyOk { return false; }
    return 0 <= input.threshold <= 100;
  }

  // ----- waves --------------------------------------------------------------------------------------------

  function Want(n: nat, percent: int): int {
    var w := (n * percent + 99) / 100;
    var w1 := if w < 1 && n > 0 then 1 else w;
    if w1 > n then n else w1
  }

  lemma Scaled(n: nat, a: int, b: int)
    requires a <= b
    ensures n * a <= n * b
  {
  }

  // The wave size is the ceiling of n * percent / 100, grows with the percentage and is everything at 100.
  lemma WantIsCeiling(n: nat, p: int)
    requires 1 <= p <= 100
    ensures 100 * (Want(n, p) - 1) < n * p <= 100 * Want(n, p) && 0 <= Want(n, p) <= n
    ensures n > 0 ==> Want(n, p) >= 1
  {
    Scaled(n, p, 100);
    Scaled(n, 1, p);
  }

  lemma WantGrows(n: nat, p: int, p': int)
    requires 1 <= p <= p' <= 100
    ensures Want(n, p) <= Want(n, p') && Want(n, 100) == n
  {
    Scaled(n, p, p');
    WantIsCeiling(n, p);
    WantIsCeiling(n, p');
    WantIsCeiling(n, 100);
  }

  function Ids(ds: seq<Dev>): (r: seq<string>)
    ensures |r| == |ds|
  {
    seq(|ds|, i requires 0 <= i < |ds| => ds[i].deviceId)
  }

  function UpdateId(c: Camp, id: string): string { c.id + "-" + id }

  function TwinOf(twins: Twins, id: string): Twin { if id in twins then twins[id] else Twin(None, 0, None) }

  function Ask(twins: Twins, id: string, updateId: string): Twins {
    twins[id := TwinOf(twins, id).(desired := Some(updateId), version := TwinOf(twins, id).version + 1)]
  }

  datatype Waved = Waved(ok: bool, c: Camp, twins: Twins)

  // The selection loop from the i-th target on; `budget` writes succeed before one fails.
  function Wave(c: Camp, twins: Twins, devs: set<string>, i: nat, need: int, budget: nat): Waved
    decreases |c.targets| - i
  {
    if need <= 0 || i >= |c.targets| then Waved(true, c, twins)
    else if c.targets[i] in Ids(c.devices) then Wave(c, twins, devs, i + 1, need, budget)
    else if c.targets[i] !in devs || budget == 0 then Waved(false, c, twins)
    else
      var id := c.targets[i];
      Wave(c.(devices := c.devices + [Dev(id, UpdateId(c, id), c.stage, NotReported)]), Ask(twins, id, UpdateId(c, id)),
           devs, i + 1, need - 1, budget - 1)
  }

  function ApplyWave(c: Camp, twins: Twins, devs: set<string>, budget: nat): Waved {
    if c.stage < 0 || c.stage >= |c.stages| then Waved(false, c, twins)
    else Wave(c, twins, devs, 0, Want(|c.targets|, c.stages[c.stage]) - |c.devices|, budget)
  }

  // The selected devices are the first m targets, each with its own update id.
  ghost predicate Selected(c: Camp, m: nat) {
    && m <= |c.targets| && |c.devices| == m
    && forall i :: 0 <= i < m ==> c.devices[i].deviceId == c.targets[i] && c.devices[i].updateId == UpdateId(c, c.targets[i])
  }

  lemma SortedDistinct(l: seq<string>, i: nat, j: nat)
    requires StrictlySorted(l) && i < j < |l|
    ensures l[i] != l[j]
  {
    LexTotal(l[i], l[j]);
    LexTotal(l[i], l[i]);
  }

  lemma SelectedIn(c: Camp, m: nat, i: nat)
    requires Selected(c, m) && StrictlySorted(c.targets) && i < |c.targets|
    ensures c.targets[i] in Ids(c.devices) <==> i < m
  {
    if i < m { assert Ids(c.devices)[i] == c.targets[i]; }
    if c.targets[i] in Ids(c.devices) {
      var k :| 0 <= k < m && Ids(c.devices)[k] == c.targets[i];
      if k < i { SortedDistinct(c.targets, k, i); } else if i < k { SortedDistinct(c.targets, i, k); }
    }
  }

  // What the loop does from a prefix selection: extend the prefix by exactly what is needed, or stop short on an error.
  lemma {:induction false} WaveExtends(c: Camp, twins: Twins, devs: set<string>, i: nat, m: nat, need: int, budget: nat)
    requires StrictlySorted(c.targets) && Selected(c, m) && i <= m && m + need <= |c.targets|
    ensures var w := Wave(c, twins, devs, i, need, budget);
            && w.c == c.(devices := w.c.devices) && c.devices <= w.c.devices
            && Selected(w.c, |w.c.devices|)
            && (w.ok ==> |w.c.devices| == if need > 0 then m + need else m)
            && ((forall k :: 0 <= k < |c.targets| ==> c.targets[k] in devs) && budget >= need ==> w.ok)
    decreases |c.targets| - i
  {
    hide StrictlySorted, Ask;
    if need > 0 && i < |c.targets| {
      SelectedIn(c, m, i);
      if i < m {
        WaveExtends(c, twins, devs, i + 1, m, need, budget);
      } else if c.targets[i] in devs && budget > 0 {
        var id := c.targets[i];
        var c' := c.(devices := c.devices + [Dev(id, UpdateId(c, id), c.stage, NotReported)]);
        WaveExtends(c', Ask(twins, id, UpdateId(c, id)), devs, i + 1, m + 1, need - 1, budget - 1);
      }
    }
  }

  // ----- following the devices ----------------------------------------------------------------------------

  // What a selected device currently reports about this campaign's update.
  function Reported(d: Dev, twins: Twins): Option<OtaState> {
    if d.deviceId in twins && twins[d.deviceId].reported.Some?
       && (twins[d.deviceId].reported.value.updateId == "" || twins[d.deviceId].reported.value.updateId == d.updateId)
    then Some(twins[d.deviceId].reported.value.state)
    else None
  }

  function Observe(d: Dev, twins: Twins): Dev {
    match Reported(d, twins) case None => d case Some(st) => d.(state := st)
  }

  function ObserveAll(ds: seq<Dev>, twins: Twins): (r: seq<Dev>)
    ensures |r| == |ds|
  {
    seq(|ds|, i requires 0 <= i < |ds| => Observe(ds[i], twins))
  }

  predicate HasFailed(s: Option<OtaState>) { s == Some(Failed) || s == Some(RolledBack) }

  function CountFailed(ds: seq<Dev>, twins: Twins): nat {
    if ds == [] then 0
    else CountFailed(ds[..|ds| - 1], twins) + (if HasFailed(Reported(ds[|ds| - 1], twins)) then 1 else 0)
  }

  function CountCommitted(ds: seq<Dev>, twins: Twins): nat {
    if ds == [] then 0
    else CountCommitted(ds[..|ds| - 1], twins) + (if Reported(ds[|ds| - 1], twins) == Some(Committed) then 1 else 0)
  }

  // The count is full exactly when every device reports the update committed.
  lemma {:induction false} AllCommittedIff(ds: seq<Dev>, twins: Twins)
    ensures CountCommitted(ds, twins) <= |ds|
    ensures CountCommitted(ds, twins) == |ds| <==> forall i :: 0 <= i < |ds| ==> Reported(ds[i], twins) == Some(Committed)
  {
    hide Reported;
    if ds != [] {
      var front := ds[..|ds| - 1];
      AllCommittedIff(front, twins);
      assert forall i :: 0 <= i < |front| ==> front[i] == ds[i];
    }
  }

  // The floored percentage test.
  predicate TooManyFailed(failed: nat, n: nat, threshold: int) {
    n > 0 && failed > 0 && failed * 100 / n >= threshold
  }

  // Flooring loses nothing: the test says exactly that the failed share reaches the threshold.
  lemma AbortExact(failed: nat, n: nat, threshold: int)
    requires n > 0
    ensures TooManyFailed(failed, n, threshold) <==> failed > 0 && failed * 100 >= threshold * n
  {
    var q := failed * 100 / n;
    assert n * q <= failed * 100 < n * (q + 1);
    if q >= threshold { Scaled(n, threshold, q); } else { Scaled(n, q + 1, threshold); }
  }

  predicate Finished(s: OtaState) { s == Committed || s == Failed || s == RolledBack }

  predicate AskedFor(tw: Twin, updateId: string) {
    tw.desired.Some? && (tw.desired.value == "" || tw.desired.value == updateId)
  }

  // Taking back one request.
  function ClearOne(twins: Twins, devs: set<string>, d: Dev): Twins {
    if !Finished(d.state) && d.deviceId in devs && d.deviceId in twins && AskedFor(twins[d.deviceId], d.updateId)
    then twins[d.deviceId := twins[d.deviceId].(desired := None, version := twins[d.deviceId].version + 1)]
    else twins
  }

  function ClearAll(twins: Twins, devs: set<string>, ds: seq<Dev>): Twins {
    if ds == [] then twins else ClearOne(ClearAll(twins, devs, ds[..|ds| - 1]), devs, ds[|ds| - 1])
  }

  // No unfinished registered device of the list is still asked for its update, nothing else is taken back, no report
  // changes, and a twin's version goes up by one with its change.
  lemma {:induction false} ClearedExactly(twins: Twins, devs: set<string>, ds: seq<Dev>)
    ensures ClearAll(twins, devs, ds).Keys == twins.Keys
    ensures forall i :: 0 <= i < |ds| && !Finished(ds[i].state) && ds[i].deviceId in devs && ds[i].deviceId in twins
              ==> !AskedFor(ClearAll(twins, devs, ds)[ds[i].deviceId], ds[i].updateId)
    ensures forall id :: id in twins ==>
              var tw := ClearAll(twins, devs, ds)[id];
              tw == twins[id] || tw == Twin(None, twins[id].version + 1, twins[id].reported)
    ensures forall id :: id in twins && ClearAll(twins, devs, ds)[id] != twins[id] ==>
              id in devs &&
              exists i :: 0 <= i < |ds| && ds[i].deviceId == id && !Finished(ds[i].state) && AskedFor(twins[id], ds[i].updateId)
  {
    if ds != [] {
      var front, d := ds[..|ds| - 1], ds[|ds| - 1];
      assert forall i :: 0 <= i < |front| ==> front[i] == ds[i];
      ClearedExactly(twins, devs, front);
      ClearStep(ClearAll(twins, devs, front), devs, d);
      var t, t' := ClearAll(twins, devs, front), ClearAll(twins, devs, ds);
      forall id | id in twins && t'[id] != twins[id]
        ensures id in devs
        ensures exists i :: 0 <= i < |ds| && ds[i].deviceId == id && !Finished(ds[i].state) && AskedFor(twins[id], ds[i].updateId)
      {
        if t[id] != twins[id] {
          var i :| 0 <= i < |front| && front[i].deviceId == id && !Finished(front[i].state) && AskedFor(twins[id], front[i].updateId);
          assert ds[i] == front[i];
        } else {
          assert ds[|ds| - 1] == d;
        }
      }
    }
  }

  lemma ClearStep(t: Twins, devs: set<string>, d: Dev)
    ensures var t' := ClearOne(t, devs, d);
            && t'.Keys == t.Keys
            && (forall id :: id in t ==> t'[id] == t[id] || t'[id] == Twin(None, t[id].version + 1, t[id].reported))
            && (forall id :: id in t && t'[id] != t[id] ==> id == d.deviceId && id in devs && !Finished(d.state) && AskedFor(t[id], d.updateId))
  {
  }

  // ----- handlers -----------------------------------------------------------------------------------------

  datatype World = World(c: Camp, twins: Twins, devs: set<string>)

  // What refreshOTACampaign makes of a campaign: note what the devices report; abort on too many failures, complete when
  // all have committed.
  function Verdict(w: World): World {
    var c := w.c;
    if c.status != Running && c.status != Paused then w else
    var ds, n := ObserveAll(c.devices, w.twins), |c.devices|;
    var c1 := c.(devices := ds);
    if TooManyFailed(CountFailed(c.devices, w.twins), n, c.threshold) then
      w.(c := c1.(status := Aborted), twins := ClearAll(w.twins, w.devs, ds))
    else if c.status == Running && c.stage == |c.stages| - 1 && n > 0 && CountCommitted(c.devices, w.twins) == n && n == |c.targets| then
      w.(c := c1.(status := Completed))
    else w.(c := c1)
  }

  // If the campaign cannot be saved the stored one counts, but requests taken back stay so.
  function Refresh(w: World, saved: bool): World { if saved then Verdict(w) else w.(twins := Verdict(w).twins) }

  // Which writes of a handler succeed: twins, the campaign in a refresh before it, its own, and in a refresh after it.
  datatype Writes = Writes(budget: nat, before: bool, own: bool, after: bool)

  // `targets` is what resolveCampaignTargets answers.
  function Start(w: World, targets: Option<seq<string>>, wr: Writes): World {
    if w.c.status != Draft || targets.None? || targets.value == [] then w else
    var r := ApplyWave(w.c.(targets := targets.value, stage := 0, status := Running), w.twins, w.devs, wr.budget);
    if r.ok && wr.own then Refresh(World(r.c, r.twins, w.devs), wr.after) else w.(twins := r.twins)
  }

  function Promote(w: World, wr: Writes): World {
    var w1 := Refresh(w, wr.before);
    if w1.c.status != Running || w1.c.stage < 0 || w1.c.stage >= |w1.c.stages| - 1 then w1 else
    var r := ApplyWave(w1.c.(stage := w1.c.stage + 1), w1.twins, w1.devs, wr.budget);
    if r.ok && wr.own then Refresh(World(r.c, r.twins, w1.devs), wr.after) else w1.(twins := r.twins)
  }

  function Pause(w: World, saved: bool): World {
    if w.c.status == Running && saved then w.(c := w.c.(status := Paused)) else w
  }

  function Resume(w: World, wr: Writes): World {
    if w.c.status == Paused && wr.own then Refresh(w.(c := w.c.(status := Running)), wr.after) else w
  }

  // The requests are taken back before the campaign is saved.
  function Abort(w: World, saved: bool): World {
    if w.c.status == Completed || w.c.status == Aborted then w
    else w.(c := if saved then w.c.(status := Aborted) else w.c, twins := ClearAll(w.twins, w.devs, w.c.devices))
  }

  datatype Step =
    | DoStart(targets: Option<seq<string>>, wr: Writes)
    | DoPromote(wr: Writes)
    | DoPause(saved: bool)
    | DoResume(wr: Writes)
    | DoAbort(saved: bool)
    | DoRefresh(saved: bool)
    | SetTwins(twins: Twins)
    | SetDevices(devs: set<string>)

  // Twins and devices may change in any way between handlers.
  function Next(w: World, step: Step): World {
    match step
    case DoStart(targets, wr) => Start(w, targets, wr)
    case DoPromote(wr) => Promote(w, wr)
    case DoPause(saved) => Pause(w, saved)
    case DoResume(wr) => Resume(w, wr)
    case DoAbort(saved) => Abort(w, saved)
    case DoRefresh(saved) => Refresh(w, saved)
    case SetTwins(twins) => w.(twins := twins)
    case SetDevices(devs) => w.(devs := devs)
  }

  // A start is given targets as resolveCampaignTargets computes them.
  ghost predicate Proper(step: Step) { step.DoStart? && step.targets.Some? ==> StrictlySorted(step.targets.value) }

  // ----- the invariant ------------------------------------------------------------------------------------

  ghost predicate NotStarted(c: Camp) {
    (c.status == Draft || c.status == Aborted) && c.stage == -1 && c.devices == [] && c.targets == []
  }

  ghost predicate Started(c: Camp) {
    && c.status != Draft && 0 <= c.stage < |c.stages| && StrictlySorted(c.targets) && c.targets != []
    && Selected(c, Want(|c.targets|, c.stages[c.stage]))
    && (c.status == Completed ==> |c.devices| == |c.targets| && forall i :: 0 <= i < |c.devices| ==> c.devices[i].state == Committed)
  }

  ghost predicate CInv(c: Camp) { ValidPlan(c.stages, c.threshold) && (NotStarted(c) || Started(c)) }

  lemma SelectedObserved(c: Camp, twins: Twins, m: nat, status: Status)
    requires Selected(c, m)
    ensures Selected(c.(devices := ObserveAll(c.devices, twins), status := status), m)
  {
  }

  lemma CompletedStates(ds: seq<Dev>, twins: Twins)
    requires CountCommitted(ds, twins) == |ds|
    ensures forall i :: 0 <= i < |ds| ==> ObserveAll(ds, twins)[i].state == Committed
  {
    AllCommittedIff(ds, twins);
  }

  lemma RefreshKeeps(w: World, saved: bool)
    requires CInv(w.c)
    ensures var w' := Refresh(w, saved);
            && CInv(w'.c) && Ids(w'.c.devices) == Ids(w.c.devices)
            && w'.c.targets == w.c.targets && w'.c.stages == w.c.stages && w'.c.stage == w.c.stage
  {
    hide StrictlySorted, Want, TooManyFailed, CountFailed, CountCommitted, Reported, ValidPlan, ClearAll;
    if w.c.status == Running || w.c.status == Paused {
      var m := Want(|w.c.targets|, w.c.stages[w.c.stage]);
      SelectedObserved(w.c, w.twins, m, Running);
      SelectedObserved(w.c, w.twins, m, Paused);
      SelectedObserved(w.c, w.twins, m, Aborted);
      SelectedObserved(w.c, w.twins, m, Completed);
      if CountCommitted(w.c.devices, w.twins) == |w.c.devices| { CompletedStates(w.c.devices, w.twins); }
      assert Ids(ObserveAll(w.c.devices, w.twins)) == Ids(w.c.devices);
    }
  }

  // A wave that succeeds selects exactly the stage's prefix.
  lemma WaveSelects(c: Camp, twins: Twins, devs: set<string>, budget: nat)
    requires ValidPlan(c.stages, c.threshold) && c.status == Running && 0 <= c.stage < |c.stages|
    requires StrictlySorted(c.targets) && c.targets != [] && Selected(c, |c.devices|)
    requires |c.devices| <= Want(|c.targets|, c.stages[c.stage])
    ensures var r := ApplyWave(c, twins, devs, budget);
            r.ok ==> Started(r.c) && c.devices <= r.c.devices && r.c == c.(devices := r.c.devices)
  {
    var n, p := |c.targets|, c.stages[c.stage];
    WantIsCeiling(n, p);
    WaveExtends(c, twins, devs, 0, |c.devices|, Want(n, p) - |c.devices|, budget);
  }

  lemma IdsPrefix(a: seq<Dev>, b: seq<Dev>)
    requires a <= b
    ensures Ids(a) <= Ids(b)
  {
  }

  lemma StartKeeps(w: World, targets: Option<seq<string>>, wr: Writes)
    requires CInv(w.c) && (targets.Some? ==> StrictlySorted(targets.value))
    ensures CInv(Start(w, targets, wr).c)
  {
    hide StrictlySorted, Want, ApplyWave, Refresh, ValidPlan;
    if w.c.status == Draft && targets.Some? && targets.value != [] {
      var c := w.c.(targets := targets.value, stage := 0, status := Running);
      FirstStage(c);
      WaveSelects(c, w.twins, w.devs, wr.budget);
      var r := ApplyWave(c, w.twins, w.devs, wr.budget);
      if r.ok { RefreshKeeps(World(r.c, r.twins, w.devs), wr.after); }
    }
  }

  lemma FirstStage(c: Camp)
    requires ValidPlan(c.stages, c.threshold)
    ensures c.stages != [] && 0 <= Want(|c.targets|, c.stages[0])
  {
    WantIsCeiling(|c.targets|, c.stages[0]);
  }

  lemma PromoteKeeps(w: World, wr: Writes)
    requires CInv(w.c)
    ensures CInv(Promote(w, wr).c) && Ids(w.c.devices) <= Ids(Promote(w, wr).c.devices)
  {
    hide StrictlySorted, Want, ApplyWave, Refresh, ValidPlan, Ids;
    RefreshKeeps(w, wr.before);
    var w1 := Refresh(w, wr.before);
    if w1.c.status == Running && 0 <= w1.c.stage < |w1.c.stages| - 1 {
      var c := w1.c.(stage := w1.c.stage + 1);
      NextStage(w1.c);
      WaveSelects(c, w1.twins, w1.devs, wr.budget);
      var r := ApplyWave(c, w1.twins, w1.devs, wr.budget);
      if r.ok {
        IdsPrefix(c.devices, r.c.devices);
        RefreshKeeps(World(r.c, r.twins, w1.devs), wr.after);
      }
    }
  }

  lemma NextStage(c: Camp)
    requires ValidPlan(c.stages, c.threshold) && 0 <= c.stage < |c.stages| - 1
    ensures Want(|c.targets|, c.stages[c.stage]) <= Want(|c.targets|, c.stages[c.stage + 1])
  {
    WantGrows(|c.targets|, c.stages[c.stage], c.stages[c.stage + 1]);
  }

  // Every step keeps the invariant, never shrinks the selection, and leaves a finished campaign as it is.
  lemma NextKeeps(w: World, step: Step)
    requires CInv(w.c) && Proper(step)
    ensures CInv(Next(w, step).c) && Ids(w.c.devices) <= Ids(Next(w, step).c.devices)
    ensures w.c.status == Completed || w.c.status == Aborted ==> Next(w, step).c == w.c
  {
    hide StrictlySorted, Want, ApplyWave, ValidPlan, Ids, TooManyFailed, ObserveAll, ClearAll;
    match step
    case DoStart(targets, wr) =>
      StartKeeps(w, targets, wr);
      EmptyIds(w.c.devices, Start(w, targets, wr).c.devices);
    case DoPromote(wr) => PromoteKeeps(w, wr);
    case DoPause(_) =>
    case DoResume(wr) => if w.c.status == Paused { RefreshKeeps(w.(c := w.c.(status := Running)), wr.after); }
    case DoAbort(_) =>
    case DoRefresh(saved) => RefreshKeeps(w, saved);
    case SetTwins(_) =>
    case SetDevices(_) =>
  }

  lemma EmptyIds(a: seq<Dev>, b: seq<Dev>)
    ensures a == [] ==> Ids(a) <= Ids(b)
  {
  }

  // ----- every run ----------------------------------------------------------------------------------------

  function Created(id: string, siteIds: seq<string>, deviceIds: seq<string>, stages: seq<int>, threshold: int): Camp {
    Camp(id, Draft, siteIds, deviceIds, stages, threshold, [], -1, [])
  }

  ghost function Run(c: Camp, steps: seq<Step>): (w: World)
    requires CInv(c) && forall i :: 0 <= i < |steps| ==> Proper(steps[i])
    ensures CInv(w.c)
  {
    if steps == [] then World(c, map[], {})
    else
      var w := Run(c, steps[..|steps| - 1]);
      NextKeeps(w, steps[|steps| - 1]);
      Next(w, steps[|steps| - 1])
  }

  lemma RunSnoc(c: Camp, steps: seq<Step>, step: Step)
    requires CInv(c) && (forall i :: 0 <= i < |steps| ==> Proper(steps[i])) && Proper(step)
    ensures Run(c, steps + [step]) == Next(Run(c, steps), step)
  {
    hide CInv, Next, Proper;
    assert (steps + [step])[..|steps|] == steps;
  }

  // Main theorem: after any run, a started campaign has selected exactly the first ceil(n * percent / 100) targets, in
  // order and each once; all of them in the last stage; and a completed one has every target committed.
  lemma Waves(c: Camp, steps: seq<Step>)
    requires CInv(c) && forall i :: 0 <= i < |steps| ==> Proper(steps[i])
    ensures var c' := Run(c, steps).c;
            && (NotStarted(c') || Started(c'))
            && (Started(c') ==>
                  var n, p := |c'.targets|, c'.stages[c'.stage];
                  && Ids(c'.devices) == c'.targets[..|c'.devices|]
                  && 100 * (|c'.devices| - 1) < n * p <= 100 * |c'.devices|
                  && (c'.stage == |c'.stages| - 1 ==> Ids(c'.devices) == c'.targets))
            && (c'.status == Completed ==>
                  Ids(c'.devices) == c'.targets && forall i :: 0 <= i < |c'.devices| ==> c'.devices[i].state == Committed)
  {
    var c' := Run(c, steps).c;
    hide Run;
    if Started(c') { StartedShape(c'); }
  }

  lemma StartedShape(c: Camp)
    requires ValidPlan(c.stages, c.threshold) && Started(c)
    ensures Ids(c.devices) == c.targets[..|c.devices|]
    ensures 100 * (|c.devices| - 1) < |c.targets| * c.stages[c.stage] <= 100 * |c.devices|
    ensures |c.devices| == |c.targets| || c.stage == |c.stages| - 1 ==> Ids(c.devices) == c.targets
  {
    var n, p := |c.targets|, c.stages[c.stage];
    WantIsCeiling(n, p);
    WantGrows(n, p, 100);
    hide Want, StrictlySorted;
    assert Ids(c.devices) == c.targets[..|c.devices|];
    if |c.devices| == n { assert c.targets[..n] == c.targets; }
  }

  // The stage moves only by a start, to the first, and by a promotion, to the next.
  lemma StageMoves(w: World, step: Step)
    requires CInv(w.c)
    ensures var c' := Next(w, step).c;
            || c'.stage == w.c.stage
            || (step.DoStart? && w.c.status == Draft && c'.stage == 0)
            || (step.DoPromote? && c'.stage == w.c.stage + 1)
  {
    hide CInv, TooManyFailed, ObserveAll, ClearAll, Wave, Want, CountFailed, CountCommitted;
    if step.DoStart? && step.targets.Some? {
      WaveKeepsRest(w.c.(targets := step.targets.value, stage := 0, status := Running), w.twins, w.devs, step.wr.budget);
    } else if step.DoPromote? {
      var w1 := Refresh(w, step.wr.before);
      WaveKeepsRest(w1.c.(stage := w1.c.stage + 1), w1.twins, w1.devs, step.wr.budget);
    }
  }

  lemma WaveKeepsRest(c: Camp, twins: Twins, devs: set<string>, budget: nat)
    ensures var r := ApplyWave(c, twins, devs, budget); r.c == c.(devices := r.c.devices)
  {
    if 0 <= c.stage < |c.stages| {
      WaveOnlyAdds(c, twins, devs, 0, Want(|c.targets|, c.stages[c.stage]) - |c.devices|, budget);
    }
  }

  lemma {:induction false} WaveOnlyAdds(c: Camp, twins: Twins, devs: set<string>, i: nat, need: int, budget: nat)
    ensures var r := Wave(c, twins, devs, i, need, budget); r.c == c.(devices := r.c.devices)
    decreases |c.targets| - i
  {
    hide Ask, Ids;
    if need > 0 && i < |c.targets| {
      var id := c.targets[i];
      WaveOnlyAdds(c, twins, devs, i + 1, need, budget);
      if budget > 0 {
        WaveOnlyAdds(c.(devices := c.devices + [Dev(id, UpdateId(c, id), c.stage, NotReported)]),
                     Ask(twins, id, UpdateId(c, id)), devs, i + 1, need - 1, budget - 1);
      }
    }
  }

  // Over any continuation of a run the selection only grows, and a completed or aborted campaign never changes again.
  lemma {:induction false} Monotone(c: Camp, steps: seq<Step>, more: seq<Step>)
    requires CInv(c) && (forall i :: 0 <= i < |steps| ==> Proper(steps[i])) && (forall i :: 0 <= i < |more| ==> Proper(more[i]))
    ensures var w, w' := Run(c, steps), Run(c, steps + more);
            && Ids(w.c.devices) <= Ids(w'.c.devices)
            && (w.c.status == Completed || w.c.status == Aborted ==> w'.c == w.c)
    decreases |more|
  {
    hide Next, CInv, Ids, Proper;
    if more == [] {
      assert steps + more == steps;
    } else {
      var front, step := more[..|more| - 1], more[|more| - 1];
      Monotone(c, steps, front);
      assert (steps + front) + [step] == steps + more;
      RunSnoc(c, steps + front, step);
      NextKeeps(Run(c, steps + front), step);
    }
  }

  // A refresh aborts a campaign exactly when the failed share of the selected devices reaches the threshold, with at
  // least one failure; otherwise it completes exactly a running campaign in its last stage whose every target committed.
  lemma RefreshDecides(w: World)
    requires CInv(w.c) && (w.c.status == Running || w.c.status == Paused)
    ensures var failed, n := CountFailed(w.c.devices, w.twins), |w.c.devices|; var c' := Verdict(w).c;
            && (c'.status == Aborted <==> failed > 0 && failed * 100 >= w.c.threshold * n)
            && (c'.status == Completed <==>
                  && c'.status != Aborted && w.c.status == Running && w.c.stage == |w.c.stages| - 1
                  && forall i :: 0 <= i < n ==> Reported(w.c.devices[i], w.twins) == Some(Committed))
  {
    var n, p := |w.c.targets|, w.c.stages[w.c.stage];
    WantIsCeiling(n, p);
    AbortExact(CountFailed(w.c.devices, w.twins), |w.c.devices|, w.c.threshold);
    AllCommittedIff(w.c.devices, w.twins);
    WantGrows(n, p, 100);
  }

  // The device's twin reports this state, for this update or for none in particular.
  ghost predicate Says(d: Dev, twins: Twins, st: OtaState) {
    && d.deviceId in twins && twins[d.deviceId].reported.Some?
    && var r := twins[d.deviceId].reported.value; r.updateId in {"", d.updateId} && r.state == st
  }

  // The positions of the devices that report a failure or a rollback.
  ghost function Failures(ds: seq<Dev>, twins: Twins): set<nat> {
    set i: nat | i < |ds| && (Says(ds[i], twins, Failed) || Says(ds[i], twins, RolledBack))
  }

  lemma FailuresSnoc(ds: seq<Dev>, d: Dev, twins: Twins)
    ensures Failures(ds + [d], twins) == Failures(ds, twins) + if HasFailed(Reported(d, twins)) then {|ds|} else {}
  {
    SaysReported(d, twins);
    hide Says, Reported;
    var a, b := Failures(ds + [d], twins), Failures(ds, twins) + if HasFailed(Reported(d, twins)) then {|ds|} else {};
    forall i: nat ensures i in a <==> i in b {
      if i < |ds| { assert (ds + [d])[i] == ds[i]; }
    }
  }

  lemma {:induction false} CountsFailures(ds: seq<Dev>, twins: Twins)
    ensures CountFailed(ds, twins) == |Failures(ds, twins)|
  {
    hide Says, Reported, HasFailed;
    if ds == [] {
      assert Failures(ds, twins) == {};
    } else {
      var n := |ds| - 1;
      CountsFailures(ds[..n], twins);
      assert ds == ds[..n] + [ds[n]];
      FailuresSnoc(ds[..n], ds[n], twins);
      assert n !in Failures(ds[..n], twins);
    }
  }

  lemma SaysReported(d: Dev, twins: Twins)
    ensures forall st :: Reported(d, twins) == Some(st) <==> Says(d, twins, st)
  {
  }

  // The same in terms of what the twins say: the campaign is aborted exactly when the devices that report a failure or a
  // rollback make up the threshold's share of those selected, it completes exactly when it runs in its last stage and
  // every one reports committed, and each device is noted as it reports.
  lemma RefreshRule(w: World)
    requires CInv(w.c) && (w.c.status == Running || w.c.status == Paused)
    ensures var ds := w.c.devices; var f, c' := |Failures(ds, w.twins)|, Verdict(w).c;
            && (c'.status == Aborted <==> f >= 1 && 100 * f >= w.c.threshold * |ds|)
            && (c'.status == Completed <==>
                  && c'.status != Aborted && w.c.status == Running && w.c.stage == |w.c.stages| - 1
                  && forall i :: 0 <= i < |ds| ==> Says(ds[i], w.twins, Committed))
            && |c'.devices| == |ds|
            && (forall i, st :: 0 <= i < |ds| && Says(ds[i], w.twins, st) ==> c'.devices[i] == ds[i].(state := st))
            && (forall i :: 0 <= i < |ds| && (forall st :: !Says(ds[i], w.twins, st)) ==> c'.devices[i] == ds[i])
  {
    RefreshDecides(w);
    CountsFailures(w.c.devices, w.twins);
    hide CInv, Says, CountFailed, CountCommitted, Failures, ClearAll, Reported, TooManyFailed;
    forall i | 0 <= i < |w.c.devices|
      ensures forall st :: Reported(w.c.devices[i], w.twins) == Some(st) <==> Says(w.c.devices[i], w.twins, st)
    {
      SaysReported(w.c.devices[i], w.twins);
    }
  }

  lemma {:induction false} CountsObserved(ds: seq<Dev>, twins: Twins)
    ensures CountFailed(ObserveAll(ds, twins), twins) == CountFailed(ds, twins)
    ensures CountCommitted(ObserveAll(ds, twins), twins) == CountCommitted(ds, twins)
  {
    if ds != [] {
      var n := |ds| - 1;
      CountsObserved(ds[..n], twins);
      assert ObserveAll(ds, twins)[..n] == ObserveAll(ds[..n], twins);
      assert Reported(Observe(ds[n], twins), twins) == Reported(ds[n], twins);
    }
  }

  // A refresh leaves nothing for a second one to do.
  lemma RefreshSettles(w: World)
    ensures Verdict(Verdict(w)) == Verdict(w)
  {
    CountsObserved(w.c.devices, w.twins);
    assert ObserveAll(ObserveAll(w.c.devices, w.twins), w.twins) == ObserveAll(w.c.devices, w.twins);
    hide CountFailed, CountCommitted, ObserveAll, TooManyFailed, ClearAll;
  }

  // So the campaign that a start, a promotion or a resumption answers with is up to date, if its last write went through.
  lemma AnsweredFresh(w: World, targets: Option<seq<string>>, wr: Writes)
    requires wr.after
    ensures Start(w, targets, wr).c.status == Draft || w.c.status != Draft || Verdict(Start(w, targets, wr)) == Start(w, targets, wr)
    ensures w.c.status == Paused && wr.own ==> Verdict(Resume(w, wr)) == Resume(w, wr)
    ensures Promote(w, wr).c.stage != Refresh(w, wr.before).c.stage ==> Verdict(Promote(w, wr)) == Promote(w, wr)
  {
    hide ApplyWave, Verdict;
    var c := w.c.(targets := if targets.Some? then targets.value else [], stage := 0, status := Running);
    var r := ApplyWave(c, w.twins, w.devs, wr.budget);
    RefreshSettles(World(r.c, r.twins, w.devs));
    RefreshSettles(w.(c := w.c.(status := Running)));
    var w1 := Refresh(w, wr.before);
    var r1 := ApplyWave(w1.c.(stage := w1.c.stage + 1), w1.twins, w1.devs, wr.budget);
    RefreshSettles(World(r1.c, r1.twins, w1.devs));
  }

  // Pausing and resuming a running campaign changes nothing but what a refresh after it notes.
  lemma ResumeUndoesPause(w: World, wr: Writes)
    requires w.c.status == Running && wr.own
    ensures Pause(w, true) == w.(c := w.c.(status := Paused)) && Pause(w, false) == w
    ensures Resume(Pause(w, true), wr) == Refresh(w, wr.after)
  {
    hide Refresh;
    assert w.c.(status := Paused).(status := Running) == w.c;
  }

  // ----- the stage of a device ------------------------------------------------------------------------------

  // A device added to a wave: its own update id, the wave's stage, nothing reported yet, its twin asked and one version on.
  ghost predicate Added(c: Camp, twins: Twins, after: Twins, d: Dev) {
    && d == Dev(d.deviceId, c.id + "-" + d.deviceId, c.stage, NotReported) && d.deviceId !in Ids(c.devices)
    && d.deviceId in after
    && var tw := TwinOf(twins, d.deviceId); after[d.deviceId] == Twin(Some(d.updateId), tw.version + 1, tw.reported)
  }

  ghost predicate NotAmong(ds: seq<Dev>, n: nat, id: string) { forall k :: n <= k < |ds| ==> ds[k].deviceId != id }

  ghost predicate SameTwin(a: Twins, b: Twins, id: string) { (id in a <==> id in b) && (id in a ==> a[id] == b[id]) }

  lemma AddedBefore(c: Camp, twins: Twins, after: Twins, id: string, d: Dev)
    requires Added(c.(devices := c.devices + [Dev(id, UpdateId(c, id), c.stage, NotReported)]), Ask(twins, id, UpdateId(c, id)), after, d)
    ensures Added(c, twins, after, d) && d.deviceId != id
  {
    IdsSnoc(c.devices, Dev(id, UpdateId(c, id), c.stage, NotReported));
    hide Ids;
  }

  lemma AddedNow(c: Camp, twins: Twins, after: Twins, id: string)
    requires id !in Ids(c.devices) && SameTwin(after, Ask(twins, id, UpdateId(c, id)), id)
    ensures Added(c, twins, after, Dev(id, UpdateId(c, id), c.stage, NotReported))
  {
    hide Ids;
  }

  lemma OthersSame(twins: Twins, after: Twins, id: string, u: string, x: string)
    requires SameTwin(after, Ask(twins, id, u), x) && x != id
    ensures SameTwin(after, twins, x)
  {
  }

  // What a wave does: it adds devices and asks them, and every other twin stays as it is.
  lemma {:induction false} WaveAdds(c: Camp, twins: Twins, devs: set<string>, i: nat, need: int, budget: nat)
    ensures var w := Wave(c, twins, devs, i, need, budget); var n := |c.devices|;
            && c.devices <= w.c.devices
            && (forall k :: n <= k < |w.c.devices| ==> Added(c, twins, w.twins, w.c.devices[k]))
            && (forall id :: NotAmong(w.c.devices, n, id) ==> SameTwin(w.twins, twins, id))
    decreases |c.targets| - i
  {
    hide UpdateId, Ids, Added, SameTwin, Ask;
    if need > 0 && i < |c.targets| {
      var id := c.targets[i];
      if id in Ids(c.devices) {
        WaveAdds(c, twins, devs, i + 1, need, budget);
      } else if id in devs && budget > 0 {
        var d, n := Dev(id, UpdateId(c, id), c.stage, NotReported), |c.devices|;
        var c', t' := c.(devices := c.devices + [d]), Ask(twins, id, UpdateId(c, id));
        WaveAdds(c', t', devs, i + 1, need - 1, budget - 1);
        var w := Wave(c', t', devs, i + 1, need - 1, budget - 1);
        assert w.c.devices[n] == d;
        forall k | n + 1 <= k < |w.c.devices| ensures Added(c, twins, w.twins, w.c.devices[k]) && w.c.devices[k].deviceId != id {
          AddedBefore(c, twins, w.twins, id, w.c.devices[k]);
        }
        assert NotAmong(w.c.devices, n + 1, id);
        AddedNow(c, twins, w.twins, id);
        forall x | NotAmong(w.c.devices, n, x) ensures SameTwin(w.twins, twins, x) {
          assert w.c.devices[n].deviceId != x;
          assert NotAmong(w.c.devices, n + 1, x);
          OthersSame(twins, w.twins, id, UpdateId(c, id), x);
        }
      }
    } else {
      NothingAdded(c, twins);
    }
    if need > 0 && i < |c.targets| && c.targets[i] !in Ids(c.devices) && !(c.targets[i] in devs && budget > 0) { NothingAdded(c, twins); }
  }

  lemma NothingAdded(c: Camp, twins: Twins)
    ensures forall id :: SameTwin(twins, twins, id)
  {
  }

  // The device at i was selected by the stage it carries: the first whose share of the targets reaches that far.
  ghost predicate StageFits(c: Camp, i: nat)
    requires i < |c.devices|
  {
    var st, n := c.devices[i].stage, |c.targets|;
    && 0 <= st <= c.stage < |c.stages| && i < Want(n, c.stages[st])
    && (st > 0 ==> i >= Want(n, c.stages[st - 1]))
  }

  ghost predicate Staged(c: Camp) { forall i :: 0 <= i < |c.devices| ==> StageFits(c, i) }

  lemma RefreshStaged(w: World, saved: bool)
    requires Staged(w.c)
    ensures Staged(Refresh(w, saved).c)
  {
    hide Want, TooManyFailed, CountFailed, CountCommitted, Reported, ClearAll;
    var c' := Refresh(w, saved).c;
    forall i | 0 <= i < |c'.devices| ensures StageFits(c', i) { assert StageFits(w.c, i); }
  }

  lemma WaveStaged(c: Camp, twins: Twins, devs: set<string>, budget: nat)
    requires ValidPlan(c.stages, c.threshold) && StrictlySorted(c.targets) && Selected(c, |c.devices|)
    requires 0 <= c.stage < |c.stages| && |c.devices| == if c.stage > 0 then Want(|c.targets|, c.stages[c.stage - 1]) else 0
    requires c.stage > 0 ==> Staged(c.(stage := c.stage - 1))
    ensures var r := ApplyWave(c, twins, devs, budget); r.ok ==> Staged(r.c)
  {
    hide Wave, StrictlySorted, StageFits, Selected, Added, NotAmong, SameTwin, Want;
    var n, p := |c.targets|, c.stages[c.stage];
    WantIsCeiling(n, p);
    if c.stage > 0 { NextStage(c.(stage := c.stage - 1)); }
    var need := Want(n, p) - |c.devices|;
    WaveExtends(c, twins, devs, 0, |c.devices|, need, budget);
    WaveAdds(c, twins, devs, 0, need, budget);
    var r := ApplyWave(c, twins, devs, budget);
    if r.ok {
      forall i | 0 <= i < |r.c.devices| ensures StageFits(r.c, i) {
        if i < |c.devices| {
          OldFits(c, r.c, i);
        } else {
          NewFits(c, twins, r.twins, r.c, i);
        }
      }
    }
  }

  lemma OldFits(c: Camp, c': Camp, i: nat)
    requires i < |c.devices| && c.stage > 0 && StageFits(c.(stage := c.stage - 1), i) && c.stage < |c.stages|
    requires c' == c.(devices := c'.devices) && c.devices <= c'.devices
    ensures StageFits(c', i)
  {
    hide Want;
  }

  lemma NewFits(c: Camp, twins: Twins, after: Twins, c': Camp, i: nat)
    requires 0 <= c.stage < |c.stages| && |c.devices| <= i < |c'.devices| <= Want(|c.targets|, c.stages[c.stage])
    requires c.stage > 0 ==> |c.devices| == Want(|c.targets|, c.stages[c.stage - 1])
    requires c' == c.(devices := c'.devices) && Added(c, twins, after, c'.devices[i])
    ensures StageFits(c', i)
  {
    hide Want, Ids, TwinOf;
  }

  lemma StartStaged(w: World, targets: Option<seq<string>>, wr: Writes)
    requires CInv(w.c) && Staged(w.c) && (targets.Some? ==> StrictlySorted(targets.value))
    ensures Staged(Start(w, targets, wr).c)
  {
    hide StrictlySorted, Want, ApplyWave, Refresh, ValidPlan, Staged;
    if w.c.status == Draft && targets.Some? && targets.value != [] {
      var c := w.c.(targets := targets.value, stage := 0, status := Running);
      FirstStage(c);
      WaveStaged(c, w.twins, w.devs, wr.budget);
      var r := ApplyWave(c, w.twins, w.devs, wr.budget);
      if r.ok { RefreshStaged(World(r.c, r.twins, w.devs), wr.after); }
    }
  }

  lemma PromoteStaged(w: World, wr: Writes)
    requires CInv(w.c) && Staged(w.c)
    ensures Staged(Promote(w, wr).c)
  {
    hide StrictlySorted, Want, ApplyWave, Refresh, ValidPlan, Ids, Staged;
    RefreshKeeps(w, wr.before);
    RefreshStaged(w, wr.before);
    var w1 := Refresh(w, wr.before);
    if w1.c.status == Running && 0 <= w1.c.stage < |w1.c.stages| - 1 {
      var c := w1.c.(stage := w1.c.stage + 1);
      assert c.(stage := c.stage - 1) == w1.c;
      WaveStaged(c, w1.twins, w1.devs, wr.budget);
      var r := ApplyWave(c, w1.twins, w1.devs, wr.budget);
      if r.ok { RefreshStaged(World(r.c, r.twins, w1.devs), wr.after); }
    }
  }

  lemma NextStaged(w: World, step: Step)
    requires CInv(w.c) && Staged(w.c) && Proper(step)
    ensures Staged(Next(w, step).c)
  {
    hide CInv, StrictlySorted, Want, ApplyWave, Refresh, ClearAll;
    match step
    case DoStart(targets, wr) => StartStaged(w, targets, wr);
    case DoPromote(wr) => PromoteStaged(w, wr);
    case DoPause(_) => StagedStatus(w.c, Paused);
    case DoResume(wr) =>
      StagedStatus(w.c, Running);
      RefreshStaged(w.(c := w.c.(status := Running)), wr.after);
    case DoAbort(_) => StagedStatus(w.c, Aborted);
    case DoRefresh(saved) => RefreshStaged(w, saved);
    case SetTwins(_) =>
    case SetDevices(_) =>
  }

  lemma StagedStatus(c: Camp, status: Status)
    requires Staged(c)
    ensures Staged(c.(status := status))
  {
    hide Want;
    forall i | 0 <= i < |c.devices| ensures StageFits(c.(status := status), i) { assert StageFits(c, i); }
  }

  // Over every run each selected device carries the stage that selected it.
  lemma {:induction false} StagesRecorded(c: Camp, steps: seq<Step>)
    requires CInv(c) && c.devices == [] && forall i :: 0 <= i < |steps| ==> Proper(steps[i])
    ensures Staged(Run(c, steps).c)
  {
    hide Next, CInv, Proper;
    if steps != [] {
      hide Staged;
      var front, step := steps[..|steps| - 1], steps[|steps| - 1];
      StagesRecorded(c, front);
      RunSnoc(c, front, step);
      assert front + [step] == steps;
      NextStaged(Run(c, front), step);
    }
  }

  ghost predicate NoneAsked(c: Camp, twins: Twins, devs: set<string>) {
    forall i :: 0 <= i < |c.devices| && !Finished(c.devices[i].state) && c.devices[i].deviceId in devs * twins.Keys
      ==> !AskedFor(twins[c.devices[i].deviceId], c.devices[i].updateId)
  }

  // The device's twin asks for this campaign's update.
  predicate Asks(c: Camp, twins: Twins, id: string) { id in twins && twins[id].desired == Some(UpdateId(c, id)) }

  // A selected device that is registered and has not finished.
  ghost predicate InFlight(ds: seq<Dev>, devs: set<string>, id: string) {
    id in devs && exists i :: 0 <= i < |ds| && ds[i].deviceId == id && !Finished(ds[i].state)
  }

  ghost predicate OwnUpdates(c: Camp, ds: seq<Dev>) {
    forall i :: 0 <= i < |ds| ==> ds[i].updateId == UpdateId(c, ds[i].deviceId)
  }

  // Clearing takes back exactly the requests of devices in flight.
  lemma ClearLeaves(c: Camp, twins: Twins, devs: set<string>, ds: seq<Dev>, id: string)
    requires OwnUpdates(c, ds)
    ensures Asks(c, ClearAll(twins, devs, ds), id) <==> Asks(c, twins, id) && !InFlight(ds, devs, id)
  {
    hide ClearAll, UpdateId;
    ClearedExactly(twins, devs, ds);
  }

  lemma CampaignUpdates(w: World)
    requires CInv(w.c)
    ensures OwnUpdates(w.c, w.c.devices) && OwnUpdates(w.c, ObserveAll(w.c.devices, w.twins))
  {
    hide StrictlySorted, Want, ValidPlan, UpdateId;
  }

  // Whether an operator or the threshold aborts, and even if the campaign itself cannot be saved, exactly the requests of
  // devices in flight are taken back; so no unfinished registered device that was selected is asked any more.
  lemma AbortStops(w: World, saved: bool)
    requires CInv(w.c) && w.c.status != Completed && w.c.status != Aborted
    ensures NoneAsked(w.c, Abort(w, saved).twins, w.devs) && (Abort(w, saved).c.status == Aborted <==> saved)
    ensures forall id :: Asks(w.c, Abort(w, saved).twins, id) <==> Asks(w.c, w.twins, id) && !InFlight(w.c.devices, w.devs, id)
    ensures Verdict(w).c.status == Aborted ==>
              && NoneAsked(Verdict(w).c, Refresh(w, saved).twins, w.devs)
              && forall id :: Asks(w.c, Refresh(w, saved).twins, id) <==>
                              Asks(w.c, w.twins, id) && !InFlight(Verdict(w).c.devices, w.devs, id)
  {
    hide CInv, TooManyFailed, CountFailed, CountCommitted, ClearAll, ObserveAll, Asks, InFlight, OwnUpdates, UpdateId;
    var ds := ObserveAll(w.c.devices, w.twins);
    ClearedExactly(w.twins, w.devs, w.c.devices);
    ClearedExactly(w.twins, w.devs, ds);
    CampaignUpdates(w);
    forall id
      ensures Asks(w.c, ClearAll(w.twins, w.devs, w.c.devices), id) <==> Asks(w.c, w.twins, id) && !InFlight(w.c.devices, w.devs, id)
      ensures Asks(w.c, ClearAll(w.twins, w.devs, ds), id) <==> Asks(w.c, w.twins, id) && !InFlight(ds, w.devs, id)
    {
      ClearLeaves(w.c, w.twins, w.devs, w.c.devices, id);
      ClearLeaves(w.c, w.twins, w.devs, ds, id);
    }
  }

  // ----- the server's loops -------------------------------------------------------------------------------

  class CampaignServer {
    var c: Camp
    var twins: Twins
    var devices: seq<Device>

    function Devs(): set<string>
      reads this
    {
      set i | 0 <= i < |devices| :: devices[i].id
    }

    ghost function Value(): World
      reads this
    {
      World(c, twins, Devs())
    }

    constructor (id: string, siteIds: seq<string>, deviceIds: seq<string>, stages: seq<int>, threshold: int)
      requires ValidPlan(stages, threshold)
      ensures CInv(c) && Value() == World(Created(id, siteIds, deviceIds, stages, threshold), map[], {})
    {
      c, twins, devices := Created(id, siteIds, deviceIds, stages, threshold), map[], [];
    }

    // applyCampaignWave on a copy of the campaign: the copy and whether it went through. Twins are written as it goes.
    method ApplyCampaignWave(copy: Camp, budget: nat) returns (out: Camp, ok: bool)
      requires forall i, j :: 0 <= i < j < |copy.devices| ==> copy.devices[i].deviceId != copy.devices[j].deviceId
      modifies this`twins
      ensures Waved(ok, out, twins) == ApplyWave(copy, old(twins), Devs(), budget)
    {
      hide Ask, Want, Ids;
      out := copy;
      if copy.stage < 0 || copy.stage >= |copy.stages| { return copy, false; }
      var want := Want(|copy.targets|, copy.stages[copy.stage]);
      var selected := set i | 0 <= i < |copy.devices| :: copy.devices[i].deviceId;
      DistinctSize(copy.devices);
      IdsAsSet(copy.devices);
      var need := want - |selected|;
      var left := budget;
      var i := 0;
      while i < |copy.targets| && need > 0
        invariant 0 <= i <= |copy.targets| && out == copy.(devices := out.devices) && left >= 0
        invariant forall x :: x in selected <==> x in Ids(out.devices)
        invariant Wave(out, twins, Devs(), i, need, left) == ApplyWave(copy, old(twins), Devs(), budget)
      {
        var id := copy.targets[i];
        if id !in selected {
          if id !in Devs() || left == 0 { return out, false; }
          twins := Ask(twins, id, UpdateId(copy, id));
          IdsSnoc(out.devices, Dev(id, UpdateId(copy, id), copy.stage, NotReported));
          out := out.(devices := out.devices + [Dev(id, UpdateId(copy, id), copy.stage, NotReported)]);
          selected := selected + {id};
          need, left := need - 1, left - 1;
        }
        i := i + 1;
      }
      return out, true;
    }

    // refreshOTACampaign: one pass over the devices, then the verdict.
    method RefreshCampaign(saved: bool)
      modifies this`c, this`twins
      ensures Value() == Refresh(old(Value()), saved)
    {
      if c.status != Running && c.status != Paused { return; }
      hide Reported;
      var failed, committed := 0, 0;
      var ds: seq<Dev> := [];
      for i := 0 to |c.devices|
        invariant c == old(c) && twins == old(twins)
        invariant ds == ObserveAll(c.devices[..i], twins)
        invariant failed == CountFailed(c.devices[..i], twins) && committed == CountCommitted(c.devices[..i], twins)
      {
        assert c.devices[..i + 1][..i] == c.devices[..i];
        var st := Reported(c.devices[i], twins);
        ds := ds + [Observe(c.devices[i], twins)];
        if st == Some(Failed) || st == Some(RolledBack) {
          failed := failed + 1;
        } else if st == Some(Committed) {
          committed := committed + 1;
        }
      }
      assert c.devices[..|c.devices|] == c.devices;
      var n := |c.devices|;
      if n > 0 && failed > 0 && failed * 100 / n >= c.threshold {
        ClearInFlight(ds);
        if saved { c := c.(devices := ds, status := Aborted); }
      } else if c.status == Running && c.stage == |c.stages| - 1 && n > 0 && committed == n && n == |c.targets| {
        if saved { c := c.(devices := ds, status := Completed); }
      } else if saved {
        c := c.(devices := ds);
      }
    }

    // clearInFlightCampaignOTA.
    method ClearInFlight(ds: seq<Dev>)
      modifies this`twins
      ensures twins == ClearAll(old(twins), Devs(), ds)
    {
      for i := 0 to |ds|
        invariant twins == ClearAll(old(twins), Devs(), ds[..i])
      {
        assert ds[..i + 1][..i] == ds[..i];
        var d := ds[i];
        if !Finished(d.state) && d.deviceId in Devs() && d.deviceId in twins && AskedFor(twins[d.deviceId], d.updateId) {
          var tw := twins[d.deviceId];
          twins := twins[d.deviceId := tw.(desired := None, version := tw.version + 1)];
        }
      }
      assert ds[..|ds|] == ds;
    }

    method StartCampaign(wr: Writes) returns (code: nat, ghost targets: Option<seq<string>>)
      requires CInv(c)
      modifies this`c, this`twins
      ensures CInv(c) && Value() == Start(old(Value()), targets, wr)
      ensures code != 200 ==> c == old(c)
      ensures code == 200 ==> old(c.status) == Draft && Started(c) && forall id :: id in c.targets <==> IsTarget(old(c), devices, id)
      ensures code == 409 <==> old(c.status) != Draft
      ensures code == 507 ==> targets.Some? && targets.value != []
    {
      hide StrictlySorted, Refresh, ApplyWave, Want, ValidPlan, IsTarget;
      targets := None;
      if c.status != Draft { return 409, targets; }
      var resolved := ResolveTargets(c, devices);
      targets := resolved;
      if resolved.None? || |resolved.value| == 0 { return 400, targets; }
      var copy := c.(targets := resolved.value, stage := 0, status := Running);
      FirstStage(copy);
      WaveSelects(copy, twins, Devs(), wr.budget);
      var out, ok := ApplyCampaignWave(copy, wr.budget);
      if !ok || !wr.own { return 507, targets; }
      c := out;
      RefreshKeeps(Value(), wr.after);
      RefreshCampaign(wr.after);
      return 200, targets;
    }

    method PromoteCampaign(wr: Writes) returns (code: nat)
      requires CInv(c)
      modifies this`c, this`twins
      ensures CInv(c) && Value() == Promote(old(Value()), wr)
      ensures c.stage == if code == 200 then old(c.stage) + 1 else old(c.stage)
    {
      hide StrictlySorted, Refresh, ApplyWave, Want, ValidPlan, Ids;
      PromoteKeeps(Value(), wr);
      RefreshKeeps(Value(), wr.before);
      RefreshCampaign(wr.before);
      if c.status != Running || c.stage < 0 || c.stage >= |c.stages| - 1 { return 409; }
      StartedDistinct(c);
      NextStage(c);
      WaveSelects(c.(stage := c.stage + 1), twins, Devs(), wr.budget);
      var out, ok := ApplyCampaignWave(c.(stage := c.stage + 1), wr.budget);
      if !ok || !wr.own { return 507; }
      c := out;
      RefreshKeeps(Value(), wr.after);
      RefreshCampaign(wr.after);
      return 200;
    }

    method PauseCampaign(saved: bool) returns (code: nat)
      requires CInv(c)
      modifies this`c
      ensures CInv(c) && Value() == Pause(old(Value()), saved) && (code == 200 <==> old(c.status) == Running && saved)
      ensures c == if code == 200 then old(c).(status := Paused) else old(c)
    {
      NextKeeps(Value(), DoPause(saved));
      if c.status != Running { return 409; }
      if !saved { return 507; }
      c := c.(status := Paused);
      return 200;
    }

    method ResumeCampaign(wr: Writes) returns (code: nat)
      requires CInv(c)
      modifies this`c, this`twins
      ensures CInv(c) && Value() == Resume(old(Value()), wr) && (code == 200 <==> old(c.status) == Paused && wr.own)
      ensures code == 200 ==> c.status != Paused && (!wr.after ==> c == old(c).(status := Running))
      ensures code != 200 ==> Value() == old(Value())
    {
      NextKeeps(Value(), DoResume(wr));
      if c.status != Paused { return 409; }
      if !wr.own { return 507; }
      c := c.(status := Running);
      RefreshCampaign(wr.after);
      return 200;
    }

    method AbortCampaign(saved: bool) returns (code: nat)
      requires CInv(c)
      modifies this`c, this`twins
      ensures CInv(c) && Value() == Abort(old(Value()), saved)
      ensures code == 409 <==> old(c.status) == Completed || old(c.status) == Aborted
      ensures code != 409 ==> NoneAsked(c, twins, Devs()) && (code == 200 <==> saved)
      ensures c == if code == 200 then old(c).(status := Aborted) else old(c)
      ensures code != 409 ==> forall id :: Asks(c, twins, id) <==> old(Asks(c, twins, id) && !InFlight(c.devices, Devs(), id))
    {
      NextKeeps(Value(), DoAbort(saved));
      if c.status == Completed || c.status == Aborted { return 409; }
      AbortStops(Value(), saved);
      ClearInFlight(c.devices);
      if !saved { return 507; }
      c := c.(status := Aborted);
      return 200;
    }
  }

  lemma StartedDistinct(c: Camp)
    requires Started(c)
    ensures forall i, j :: 0 <= i < j < |c.devices| ==> c.devices[i].deviceId != c.devices[j].deviceId
  {
    forall i, j | 0 <= i < j < |c.devices| ensures c.devices[i].deviceId != c.devices[j].deviceId {
      SortedDistinct(c.targets, i, j);
    }
  }

  lemma IdsAsSet(ds: seq<Dev>)
    ensures forall x :: x in Ids(ds) <==> x in set i | 0 <= i < |ds| :: ds[i].deviceId
  {
    forall x ensures x in Ids(ds) <==> x in set i | 0 <= i < |ds| :: ds[i].deviceId {
      if i :| 0 <= i < |ds| && ds[i].deviceId == x { assert Ids(ds)[i] == x; }
    }
  }

  lemma IdsSnoc(ds: seq<Dev>, d: Dev)
    ensures Ids(ds + [d]) == Ids(ds) + [d.deviceId]
  {
  }

  lemma DistinctSize(ds: seq<Dev>)
    requires forall i, j :: 0 <= i < j < |ds| ==> ds[i].deviceId != ds[j].deviceId
    ensures |set i | 0 <= i < |ds| :: ds[i].deviceId| == |ds|
  {
    if ds != [] {
      var front := ds[..|ds| - 1];
      DistinctSize(front);
      assert (set i | 0 <= i < |ds| :: ds[i].deviceId) == (set i | 0 <= i < |front| :: front[i].deviceId) + {ds[|ds| - 1].deviceId};
    }
  }
}
