// What an abort leaves behind (internal/server/ota_campaign.go): a wave asks devices one by one and only then saves the
// campaign, and an abort takes requests back from the devices the saved campaign knows.
module CampaignAbort {
  import opened Wrappers
  import opened Campaign

  // After an abort no twin asks for the campaign's update if and only if, before it, every twin that did belongs to a
  // selected, registered device that has not finished.
  lemma AbortStopsIff(w: World, saved: bool)
    requires CInv(w.c) && w.c.status != Completed && w.c.status != Aborted
    ensures (forall id :: !Asks(w.c, Abort(w, saved).twins, id)) <==>
            (forall id :: Asks(w.c, w.twins, id) ==> InFlight(w.c.devices, w.devs, id))
  {
    hide CInv, Asks, InFlight, Abort, Verdict, NoneAsked, Refresh;
    AbortStops(w, saved);
  }

  // ----- what a wave asks -----------------------------------------------------------------------------------

  // A wave goes through exactly if every target it needs is registered and every write succeeds.
  lemma {:induction false} WaveOkIff(c: Camp, twins: Twins, devs: set<string>, i: nat, m: nat, need: int, budget: nat)
    requires StrictlySorted(c.targets) && Selected(c, m) && i <= m && m + need <= |c.targets|
    ensures Wave(c, twins, devs, i, need, budget).ok <==>
            need <= 0 || (budget >= need && forall k :: m <= k < m + need ==> c.targets[k] in devs)
    decreases |c.targets| - i
  {
    hide StrictlySorted, Ask;
    if need > 0 {
      SelectedIn(c, m, i);
      if i < m {
        WaveOkIff(c, twins, devs, i + 1, m, need, budget);
      } else if c.targets[i] in devs && budget > 0 {
        var id := c.targets[i];
        var c' := WithDevice(c, id);
        WaveOkIff(c', Ask(twins, id, UpdateId(c, id)), devs, i + 1, m + 1, need - 1, budget - 1);
      }
    }
  }

  // A wave selects somebody exactly if it needs somebody, the first target not yet selected is registered and its write
  // succeeds.
  lemma {:induction false} WaveBegins(c: Camp, twins: Twins, devs: set<string>, i: nat, m: nat, need: int, budget: nat)
    requires StrictlySorted(c.targets) && Selected(c, m) && i <= m && m + need <= |c.targets|
    ensures var w := Wave(c, twins, devs, i, need, budget);
            |w.c.devices| > m <==> need > 0 && c.targets[m] in devs && budget > 0
    decreases |c.targets| - i
  {
    hide StrictlySorted, Ask;
    if need > 0 {
      SelectedIn(c, m, i);
      if i < m {
        WaveBegins(c, twins, devs, i + 1, m, need, budget);
      } else if c.targets[i] in devs && budget > 0 {
        var id := c.targets[i];
        var c' := WithDevice(c, id);
        WaveExtends(c', Ask(twins, id, UpdateId(c, id)), devs, i + 1, m + 1, need - 1, budget - 1);
      }
    }
  }

  lemma AskAsks(c: Camp, twins: Twins, x: string, id: string)
    ensures Asks(c, Ask(twins, x, UpdateId(c, x)), id) <==> id == x || Asks(c, twins, id)
  {
  }

  function WithDevice(c: Camp, id: string): Camp {
    c.(devices := c.devices + [Dev(id, UpdateId(c, id), c.stage, NotReported)])
  }

  // The loop, one target at a time.
  lemma WaveUnfolds(c: Camp, twins: Twins, devs: set<string>, i: nat, m: nat, need: int, budget: nat)
    requires StrictlySorted(c.targets) && Selected(c, m) && i <= m && m + need <= |c.targets|
    ensures var w := Wave(c, twins, devs, i, need, budget);
            if need <= 0 then w == Waved(true, c, twins)
            else if i < m then w == Wave(c, twins, devs, i + 1, need, budget)
            else if c.targets[m] !in devs || budget == 0 then w == Waved(false, c, twins)
            else
              && Selected(WithDevice(c, c.targets[m]), m + 1)
              && w == Wave(WithDevice(c, c.targets[m]), Ask(twins, c.targets[m], UpdateId(c, c.targets[m])), devs, m + 1, need - 1, budget - 1)
  {
    hide StrictlySorted, Ask;
    if need > 0 { SelectedIn(c, m, i); }
  }

  ghost predicate Among(targets: seq<string>, from: nat, to: nat, id: string) {
    exists k :: from <= k < to && k < |targets| && targets[k] == id
  }

  lemma AmongNext(targets: seq<string>, from: nat, to: nat, id: string)
    ensures from < to && from < |targets| ==> (Among(targets, from, to, id) <==> targets[from] == id || Among(targets, from + 1, to, id))
    ensures to <= from ==> !Among(targets, from, to, id)
  {
  }

  lemma WaveGrows(c: Camp, twins: Twins, devs: set<string>, i: nat, m: nat, need: int, budget: nat)
    requires StrictlySorted(c.targets) && Selected(c, m) && i <= m && m + need <= |c.targets|
    ensures m <= |Wave(c, twins, devs, i, need, budget).c.devices|
  {
    hide StrictlySorted, Wave;
    WaveExtends(c, twins, devs, i, m, need, budget);
  }

  // Whether or not it goes through, a wave asks exactly the devices it got to select.
  lemma {:induction false} WaveAsks(c: Camp, twins: Twins, devs: set<string>, i: nat, m: nat, need: int, budget: nat, id: string)
    requires StrictlySorted(c.targets) && Selected(c, m) && i <= m && m + need <= |c.targets|
    ensures var w := Wave(c, twins, devs, i, need, budget);
            Asks(c, w.twins, id) <==> Asks(c, twins, id) || Among(c.targets, m, |w.c.devices|, id)
    decreases |c.targets| - i
  {
    var devices := |c.devices|;
    assert devices == m;
    hide StrictlySorted, Ask, Asks, Among, Wave, Selected, UpdateId;
    WaveUnfolds(c, twins, devs, i, m, need, budget);
    AmongNext(c.targets, m, |Wave(c, twins, devs, i, need, budget).c.devices|, id);
    if need > 0 {
      if i < m {
        WaveAsks(c, twins, devs, i + 1, m, need, budget, id);
      } else if c.targets[m] in devs && budget > 0 {
        var x := c.targets[m];
        var c', twins' := WithDevice(c, x), Ask(twins, x, UpdateId(c, x));
        WaveAsks(c', twins', devs, m + 1, m + 1, need - 1, budget - 1, id);
        WaveGrows(c', twins', devs, m + 1, m + 1, need - 1, budget - 1);
        SameCampaign(c, c', twins', id);
        SameCampaign(c, c', Wave(c', twins', devs, m + 1, need - 1, budget - 1).twins, id);
        AskAsks(c, twins, x, id);
      }
    }
  }

  lemma SameCampaign(c: Camp, c': Camp, twins: Twins, id: string)
    requires c.id == c'.id
    ensures Asks(c, twins, id) == Asks(c', twins, id)
  {
  }

  // ----- requests the campaign does not know of ---------------------------------------------------------------

  // A twin asks for the update although its device is not selected: no abort will take that back.
  predicate Stray(c: Camp, twins: Twins, id: string) { Asks(c, twins, id) && id !in Ids(c.devices) }

  ghost predicate NoStray(c: Camp, twins: Twins) { forall id :: !Stray(c, twins, id) }

  lemma SameStrays(c: Camp, c': Camp, twins: Twins)
    requires c.id == c'.id && Ids(c.devices) == Ids(c'.devices)
    ensures NoStray(c, twins) == NoStray(c', twins)
  {
    hide Ids;
    forall id ensures Stray(c, twins, id) == Stray(c', twins, id) { SameCampaign(c, c', twins, id); }
  }

  lemma AmongSelected(c: Camp, m: nat, to: nat, id: string)
    requires StrictlySorted(c.targets) && Selected(c, m) && to <= |c.targets|
    ensures Among(c.targets, m, to, id) ==> id !in Ids(c.devices)
    ensures Among(c.targets, 0, m, id) ==> id in Ids(c.devices)
  {
    hide StrictlySorted, Ids;
    if k :| m <= k < to && c.targets[k] == id { SelectedIn(c, m, k); }
    if k :| 0 <= k < m && c.targets[k] == id { SelectedIn(c, m, k); }
  }

  lemma AmongMore(targets: seq<string>, from: nat, to: nat, id: string)
    ensures Among(targets, from, to, id) ==> Among(targets, 0, to, id)
    ensures from < to && from < |targets| ==> Among(targets, from, to, targets[from])
  {
  }

  lemma WaveStray(c: Camp, twins: Twins, devs: set<string>, m: nat, need: int, budget: nat, id: string)
    requires StrictlySorted(c.targets) && Selected(c, m) && m + need <= |c.targets|
    ensures var r := Wave(c, twins, devs, 0, need, budget);
            && (Stray(c, r.twins, id) <==> Stray(c, twins, id) || Among(c.targets, m, |r.c.devices|, id))
            && (Stray(r.c, r.twins, id) ==> Stray(c, twins, id))
  {
    var r := Wave(c, twins, devs, 0, need, budget);
    WaveExtends(c, twins, devs, 0, m, need, budget);
    IdsPrefix(c.devices, r.c.devices);
    var to := |r.c.devices|;
    assert Selected(r.c, to) && to >= m;
    hide StrictlySorted, Wave, Selected, Among, Asks, Ids;
    WaveAsks(c, twins, devs, 0, m, need, budget, id);
    SameCampaign(c, r.c, r.twins, id);
    AmongSelected(c, m, to, id);
    AmongSelected(r.c, to, to, id);
    AmongMore(c.targets, m, to, id);
    assert Ids(r.c.devices) == Ids(c.devices) + Ids(r.c.devices)[|Ids(c.devices)|..];
  }

  // Measured by the selection before it, a wave adds strays exactly if it selects somebody; measured by its own, none.
  lemma WaveStrays(c: Camp, twins: Twins, devs: set<string>, m: nat, need: int, budget: nat)
    requires StrictlySorted(c.targets) && Selected(c, m) && m + need <= |c.targets|
    ensures var r := Wave(c, twins, devs, 0, need, budget);
            && (NoStray(c, r.twins) <==> NoStray(c, twins) && |r.c.devices| == m)
            && (NoStray(c, twins) ==> NoStray(r.c, r.twins))
  {
    hide StrictlySorted, Wave, Selected, Among, Stray;
    var r := Wave(c, twins, devs, 0, need, budget);
    WaveExtends(c, twins, devs, 0, m, need, budget);
    var to := |r.c.devices|;
    WaveGrows(c, twins, devs, 0, m, need, budget);
    SelectedBounds(r.c, to);
    forall id
      ensures Stray(c, r.twins, id) <==> Stray(c, twins, id) || Among(c.targets, m, to, id)
      ensures Stray(r.c, r.twins, id) ==> Stray(c, twins, id)
    {
      WaveStray(c, twins, devs, m, need, budget, id);
    }
    AmongMore(c.targets, m, to, "");
    forall id ensures to == m ==> !Among(c.targets, m, to, id) { AmongNext(c.targets, m, to, id); }
  }

  lemma SelectedBounds(c: Camp, m: nat)
    requires Selected(c, m)
    ensures m <= |c.targets| && |c.devices| == m
  {
  }

  // A refresh takes requests back from selected devices only.
  lemma RefreshStrays(w: World, saved: bool)
    requires CInv(w.c)
    ensures NoStray(Refresh(w, saved).c, Refresh(w, saved).twins) <==> NoStray(w.c, w.twins)
  {
    var w' := Refresh(w, saved);
    RefreshKeeps(w, saved);
    CampaignUpdates(w);
    hide CInv, TooManyFailed, CountFailed, CountCommitted, ClearAll, Asks, InFlight, OwnUpdates, UpdateId, StrictlySorted;
    var ds := ObserveAll(w.c.devices, w.twins);
    assert w'.c.id == w.c.id;
    SameStrays(w.c, w'.c, w'.twins);
    if w'.twins != w.twins {
      forall id ensures Stray(w.c, w'.twins, id) == Stray(w.c, w.twins, id) {
        ClearLeaves(w.c, w.twins, w.devs, ds, id);
        InFlightSelected(w.c.devices, w.twins, w.devs, id);
      }
    }
  }

  lemma InFlightSelected(devices: seq<Dev>, twins: Twins, devs: set<string>, id: string)
    ensures InFlight(ObserveAll(devices, twins), devs, id) ==> id in Ids(devices)
  {
    var ds := ObserveAll(devices, twins);
    if i :| 0 <= i < |ds| && ds[i].deviceId == id { assert Ids(devices)[i] == id; }
  }

  // ----- starting and promoting ---------------------------------------------------------------------------------

  // What a wave of this campaign needs, whether it can go through, and whether it gets to ask anybody.
  function Needs(c: Camp): int
    requires 0 <= c.stage < |c.stages|
  {
    Want(|c.targets|, c.stages[c.stage]) - |c.devices|
  }

  ghost predicate GoesThrough(c: Camp, devs: set<string>, wr: Writes)
    requires 0 <= c.stage < |c.stages|
  {
    && wr.own
    && (Needs(c) <= 0 ||
        (wr.budget >= Needs(c) && forall k :: |c.devices| <= k < |c.devices| + Needs(c) && k < |c.targets| ==> c.targets[k] in devs))
  }

  predicate AsksSomebody(c: Camp, devs: set<string>, wr: Writes)
    requires 0 <= c.stage < |c.stages|
  {
    Needs(c) > 0 && |c.devices| < |c.targets| && c.targets[|c.devices|] in devs && wr.budget > 0
  }

  // The wave of a start or a promotion, on a copy of the campaign.
  lemma CopyStrays(c: Camp, twins: Twins, devs: set<string>, wr: Writes)
    requires ValidPlan(c.stages, c.threshold) && 0 <= c.stage < |c.stages| && StrictlySorted(c.targets) && Selected(c, |c.devices|)
    ensures var r := ApplyWave(c, twins, devs, wr.budget);
            && (r.ok && wr.own <==> GoesThrough(c, devs, wr))
            && (NoStray(c, r.twins) <==> NoStray(c, twins) && !AsksSomebody(c, devs, wr))
            && (NoStray(c, twins) ==> NoStray(r.c, r.twins))
  {
    var m, need := |c.devices|, Needs(c);
    WantIsCeiling(|c.targets|, c.stages[c.stage]);
    hide StrictlySorted, Wave, NoStray, Want;
    WaveOkIff(c, twins, devs, 0, m, need, wr.budget);
    WaveBegins(c, twins, devs, 0, m, need, wr.budget);
    WaveGrows(c, twins, devs, 0, m, need, wr.budget);
    WaveStrays(c, twins, devs, m, need, wr.budget);
  }

  function StartCopy(c: Camp, targets: seq<string>): Camp { c.(targets := targets, stage := 0, status := Running) }

  lemma StartCopyOk(c: Camp, targets: seq<string>)
    requires CInv(c) && c.status == Draft && StrictlySorted(targets)
    ensures var d := StartCopy(c, targets);
            && ValidPlan(d.stages, d.threshold) && 0 <= d.stage < |d.stages| && Selected(d, 0) && d.devices == []
            && (targets != [] ==> Needs(d) >= 1)
  {
    hide StrictlySorted;
    WantIsCeiling(|targets|, c.stages[0]);
  }

  // A start that fails leaves a stray exactly if its first target is registered and the write to it succeeds; one that
  // goes through leaves none.
  lemma StartLeaves(w: World, targets: seq<string>, wr: Writes)
    requires CInv(w.c) && w.c.status == Draft && StrictlySorted(targets) && targets != []
    ensures var c, w' := StartCopy(w.c, targets), Start(w, Some(targets), wr);
            && 0 <= c.stage < |c.stages|
            && (w'.c.status == Draft <==> !GoesThrough(c, w.devs, wr))
            && (w'.c.status == Draft ==>
                  w'.c == w.c && (NoStray(w'.c, w'.twins) <==> NoStray(w.c, w.twins) && !(targets[0] in w.devs && wr.budget > 0)))
            && (w'.c.status != Draft && NoStray(w.c, w.twins) ==> NoStray(w'.c, w'.twins))
  {
    var c := StartCopy(w.c, targets);
    StartCopyOk(w.c, targets);
    CopyStrays(c, w.twins, w.devs, wr);
    SameStrays(w.c, c, w.twins);
    var r := ApplyWave(c, w.twins, w.devs, wr.budget);
    SameStrays(w.c, c, r.twins);
    WaveSelects(c, w.twins, w.devs, wr.budget);
    hide StrictlySorted, ApplyWave, NoStray, Want, ValidPlan, GoesThrough, ObserveAll, TooManyFailed, CountFailed, CountCommitted, ClearAll;
    if r.ok && wr.own { RefreshStrays(World(r.c, r.twins, w.devs), wr.after); }
  }

  // The same for a promotion that gets as far as its wave, and its first target not yet selected.
  lemma PromoteLeaves(w: World, wr: Writes)
    requires CInv(w.c)
    requires var c := Refresh(w, wr.before).c; c.status == Running && c.stage < |c.stages| - 1
    ensures var c1 := Refresh(w, wr.before).c; var c, w' := c1.(stage := c1.stage + 1), Promote(w, wr);
            && 0 <= c.stage < |c.stages|
            && (w'.c.stage == w.c.stage <==> !GoesThrough(c, w.devs, wr))
            && (w'.c.stage == w.c.stage ==>
                  w'.c == c1 && (NoStray(w'.c, w'.twins) <==> NoStray(w.c, w.twins) && !AsksSomebody(c, w.devs, wr)))
            && (w'.c.stage != w.c.stage && NoStray(w.c, w.twins) ==> NoStray(w'.c, w'.twins))
  {
    hide Refresh, NoStray, CInv, ApplyWave, GoesThrough, AsksSomebody, Selected, StrictlySorted, ValidPlan, Needs, Ids;
    RefreshKeeps(w, wr.before);
    RefreshStrays(w, wr.before);
    RefreshDevs(w, wr.before);
    var w1 := Refresh(w, wr.before);
    PromoteCopyOk(w1, wr);
    var c := w1.c.(stage := w1.c.stage + 1);
    CopyStrays(c, w1.twins, w1.devs, wr);
    SameStrays(w1.c, c, w1.twins);
    var r := ApplyWave(c, w1.twins, w1.devs, wr.budget);
    SameStrays(w1.c, c, r.twins);
    if r.ok && wr.own {
      RefreshKeeps(World(r.c, r.twins, w1.devs), wr.after);
      RefreshStrays(World(r.c, r.twins, w1.devs), wr.after);
    }
  }

  lemma PromoteCopyOk(w: World, wr: Writes)
    requires CInv(w.c) && w.c.status == Running && w.c.stage < |w.c.stages| - 1
    ensures var c := w.c.(stage := w.c.stage + 1);
            && w.c.stage >= 0
            && ValidPlan(c.stages, c.threshold) && 0 <= c.stage < |c.stages| && StrictlySorted(c.targets) && Selected(c, |c.devices|)
            && var r := ApplyWave(c, w.twins, w.devs, wr.budget);
               r.ok ==> CInv(r.c) && r.c.stage == c.stage
  {
    hide StrictlySorted, Want, ValidPlan, ApplyWave;
    var c := w.c.(stage := w.c.stage + 1);
    NextStage(w.c);
    WaveSelects(c, w.twins, w.devs, wr.budget);
  }

  lemma RefreshDevs(w: World, saved: bool)
    ensures Refresh(w, saved).devs == w.devs && Refresh(w, saved).c.id == w.c.id
  {
    hide TooManyFailed, CountFailed, CountCommitted, ClearAll, ObserveAll;
  }

  // ----- every run ------------------------------------------------------------------------------------------------

  // The steps that leave a request the campaign does not know of.
  ghost predicate LeavesStray(w: World, step: Step) {
    match step
    case DoStart(targets, wr) =>
      && w.c.status == Draft && targets.Some? && targets.value != [] && w.c.stages != []
      && !GoesThrough(StartCopy(w.c, targets.value), w.devs, wr) && targets.value[0] in w.devs && wr.budget > 0
    case DoPromote(wr) =>
      var c := Refresh(w, wr.before).c;
      && c.status == Running && 0 <= c.stage < |c.stages| - 1
      && var d := c.(stage := c.stage + 1); !GoesThrough(d, w.devs, wr) && AsksSomebody(d, w.devs, wr)
    // A twin set from outside to ask for the campaign's update.
    case SetTwins(twins) => !NoStray(w.c, twins)
    case _ => false
  }

  lemma AbortStrays(w: World, saved: bool)
    requires CInv(w.c) && NoStray(w.c, w.twins)
    ensures NoStray(Abort(w, saved).c, Abort(w, saved).twins)
  {
    hide CInv, ClearAll, InFlight, OwnUpdates, NoneAsked, Verdict, Refresh, Asks;
    if w.c.status != Completed && w.c.status != Aborted {
      AbortStops(w, saved);
      SameStrays(w.c, Abort(w, saved).c, Abort(w, saved).twins);
      forall id ensures !Stray(w.c, Abort(w, saved).twins, id) { assert !Stray(w.c, w.twins, id); }
    }
  }

  lemma StepStrays(w: World, step: Step)
    requires CInv(w.c) && Proper(step) && NoStray(w.c, w.twins)
    ensures NoStray(Next(w, step).c, Next(w, step).twins) <==> !LeavesStray(w, step)
  {
    hide StrictlySorted, CInv, NoStray, Abort, GoesThrough, AsksSomebody, Refresh, Start, Promote;
    match step
    case DoStart(targets, wr) => StartStep(w, targets, wr);
    case DoPromote(wr) => PromoteStep(w, wr);
    case DoPause(saved) => SameStrays(w.c, Pause(w, saved).c, w.twins);
    case DoResume(wr) =>
      if w.c.status == Paused && wr.own { ResumeStrays(w, wr); }
    case DoAbort(saved) => AbortStrays(w, saved);
    case DoRefresh(saved) => RefreshStrays(w, saved);
    case SetTwins(_) =>
    case SetDevices(_) =>
  }

  lemma ResumeStrays(w: World, wr: Writes)
    requires CInv(w.c) && w.c.status == Paused && NoStray(w.c, w.twins)
    ensures var v := Refresh(w.(c := w.c.(status := Running)), wr.after); NoStray(v.c, v.twins)
  {
    hide NoStray, Refresh, StrictlySorted, Want, ValidPlan;
    var v := w.(c := w.c.(status := Running));
    SameStrays(w.c, v.c, w.twins);
    RefreshStrays(v, wr.after);
  }

  lemma StartStep(w: World, targets: Option<seq<string>>, wr: Writes)
    requires CInv(w.c) && (targets.Some? ==> StrictlySorted(targets.value)) && NoStray(w.c, w.twins)
    ensures var w' := Start(w, targets, wr);
            NoStray(w'.c, w'.twins) <==> !LeavesStray(w, DoStart(targets, wr))
  {
    hide StrictlySorted, CInv, NoStray, GoesThrough, ApplyWave, Refresh;
    if w.c.status == Draft && targets.Some? && targets.value != [] { StartLeaves(w, targets.value, wr); }
  }

  lemma PromoteStep(w: World, wr: Writes)
    requires CInv(w.c) && NoStray(w.c, w.twins)
    ensures NoStray(Promote(w, wr).c, Promote(w, wr).twins) <==> !LeavesStray(w, DoPromote(wr))
  {
    hide StrictlySorted, NoStray, GoesThrough, AsksSomebody, ApplyWave, Refresh, Want, ValidPlan;
    RefreshKeeps(w, wr.before);
    RefreshStrays(w, wr.before);
    var c := Refresh(w, wr.before).c;
    if c.status == Running && c.stage < |c.stages| - 1 { PromoteLeaves(w, wr); }
  }

  ghost predicate AllProper(steps: seq<Step>) { forall i :: 0 <= i < |steps| ==> Proper(steps[i]) }

  ghost predicate CleanAt(c: Camp, steps: seq<Step>, i: nat)
    requires CInv(c) && AllProper(steps) && i <= |steps|
  {
    NoStray(Run(c, steps[..i]).c, Run(c, steps[..i]).twins)
  }

  ghost predicate LeavesAt(c: Camp, steps: seq<Step>, i: nat)
    requires CInv(c) && AllProper(steps) && i < |steps|
  {
    LeavesStray(Run(c, steps[..i]), steps[i])
  }

  // Over every run, no twin ever asks for the update of a device the campaign does not know as selected, if and only if
  // no start or promotion fails after it has asked somebody and no twin is set to ask from outside.
  lemma {:induction false} NoStrayIff(c: Camp, steps: seq<Step>)
    requires CInv(c) && AllProper(steps)
    ensures (forall i :: 0 <= i <= |steps| ==> CleanAt(c, steps, i)) <==> (forall i :: 0 <= i < |steps| ==> !LeavesAt(c, steps, i))
  {
    hide Next, CInv, NoStray, LeavesStray, Proper;
    assert steps[..|steps|] == steps;
    if steps == [] {
      NothingAsked(c);
    } else {
      var front, step := steps[..|steps| - 1], steps[|steps| - 1];
      NoStrayIff(c, front);
      forall i | 0 <= i <= |front| ensures CleanAt(c, steps, i) == CleanAt(c, front, i) { assert steps[..i] == front[..i]; }
      forall i | 0 <= i < |front| ensures LeavesAt(c, steps, i) == LeavesAt(c, front, i) { assert steps[..i] == front[..i]; }
      assert front[..|front|] == front && front + [step] == steps;
      RunSnoc(c, front, step);
      assert CleanAt(c, front, |front|) == NoStray(Run(c, front).c, Run(c, front).twins);
      assert CleanAt(c, steps, |steps|) == NoStray(Run(c, steps).c, Run(c, steps).twins);
      assert LeavesAt(c, steps, |front|) == LeavesStray(Run(c, front), step);
      if NoStray(Run(c, front).c, Run(c, front).twins) { StepStrays(Run(c, front), step); }
    }
  }

  lemma NothingAsked(c: Camp)
    requires CInv(c)
    ensures NoStray(Run(c, []).c, Run(c, []).twins)
  {
  }

  // Such a run can be aborted at any point, and then only devices that have finished, or are no longer registered, are
  // still asked.
  lemma AbortCompletes(c: Camp, steps: seq<Step>, saved: bool)
    requires CInv(c) && AllProper(steps) && forall i :: 0 <= i < |steps| ==> !LeavesAt(c, steps, i)
    requires var s := Run(c, steps).c.status; s != Completed && s != Aborted
    ensures var w := Run(c, steps);
            forall id :: Asks(w.c, Abort(w, saved).twins, id) ==> id in Ids(w.c.devices) && !InFlight(w.c.devices, w.devs, id)
  {
    var w := Run(c, steps);
    NoStrayIff(c, steps);
    assert CleanAt(c, steps, |steps|) && steps[..|steps|] == steps;
    hide Run, CInv, Abort, InFlight, Asks, Verdict, Refresh, NoneAsked, LeavesAt, Ids;
    AbortStops(w, saved);
    forall id | Asks(w.c, Abort(w, saved).twins, id) ensures id in Ids(w.c.devices) { assert !Stray(w.c, w.twins, id); }
  }

  // ----- and when it goes wrong -----------------------------------------------------------------------------------

  // Any draft: a start whose campaign cannot be saved has asked its first device, and the abort that follows succeeds
  // without taking the request back.
  lemma AbortLeavesAsked(c: Camp, id: string)
    requires CInv(c) && c.status == Draft
    ensures var steps := [SetDevices({id}), DoStart(Some([id]), Writes(1, true, false, true)), DoAbort(true)];
            && AllProper(steps)
            && var w := Run(c, steps); w.c.status == Aborted && Asks(w.c, w.twins, id)
  {
    hide Run, CInv, Start, Abort, Asks, InFlight, NoneAsked, Refresh, Verdict;
    var a, b, d := SetDevices({id}), DoStart(Some([id]), Writes(1, true, false, true)), DoAbort(true);
    assert StrictlySorted([id]);
    assert [] + [a] == [a] && [a] + [b] == [a, b] && [a, b] + [d] == [a, b, d];
    NothingRun(c);
    RunSnoc(c, [], a);
    RunSnoc(c, [a], b);
    RunSnoc(c, [a, b], d);
    var w1 := World(c, map[], {id});
    UnsavedStart(w1, id);
    StrayStays(Start(w1, Some([id]), b.wr), id);
  }

  lemma NothingRun(c: Camp)
    requires CInv(c)
    ensures Run(c, []) == World(c, map[], {})
  {
  }

  // No abort takes a stray request back.
  lemma StrayStays(w: World, id: string)
    requires CInv(w.c) && w.c.status != Completed && w.c.status != Aborted && Stray(w.c, w.twins, id)
    ensures var v := Abort(w, true); v.c.status == Aborted && Asks(v.c, v.twins, id)
  {
    AbortStops(w, true);
    SameCampaign(w.c, Abort(w, true).c, Abort(w, true).twins, id);
    hide CInv, ClearAll, Verdict, Refresh, NoneAsked, Asks, ObserveAll;
    if InFlight(w.c.devices, w.devs, id) { SelectedMember(w.c.devices, w.devs, id); }
  }

  lemma SelectedMember(ds: seq<Dev>, devs: set<string>, id: string)
    requires InFlight(ds, devs, id)
    ensures id in Ids(ds)
  {
    var i :| 0 <= i < |ds| && ds[i].deviceId == id;
    assert Ids(ds)[i] == id;
  }

  // Even if every write succeeds: a promotion that needs a device which is gone fails after asking those before it, and
  // the abort that follows leaves the first of them asked.
  lemma MissingDeviceLeaves(w: World, wr: Writes, k: nat)
    requires CInv(w.c)
    requires var c := Refresh(w, wr.before).c; c.status == Running && c.stage < |c.stages| - 1
    requires var c1 := Refresh(w, wr.before).c; var c := c1.(stage := c1.stage + 1);
             && 0 <= c.stage && AsksSomebody(c, w.devs, wr)
             && |c.devices| <= k < |c.targets| && k < |c.devices| + Needs(c) && c.targets[k] !in w.devs
    ensures var c := Refresh(w, wr.before).c; var v := Abort(Promote(w, wr), true);
            v.c.status == Aborted && Asks(v.c, v.twins, c.targets[|c.devices|])
  {
    PromoteAsks(w, wr);
    var c1 := Refresh(w, wr.before).c;
    PromoteKeeps(w, wr);
    PromoteLeaves(w, wr);
    hide CInv, Refresh, Promote, Abort, Asks, NoStray, AsksSomebody;
    StrayStays(Promote(w, wr), c1.targets[|c1.devices|]);
  }

  lemma PromoteAsks(w: World, wr: Writes)
    requires CInv(w.c)
    requires var c := Refresh(w, wr.before).c; c.status == Running && c.stage < |c.stages| - 1
    requires var c1 := Refresh(w, wr.before).c; var c := c1.(stage := c1.stage + 1);
             0 <= c.stage && AsksSomebody(c, w.devs, wr) && !GoesThrough(c, w.devs, wr)
    ensures var c := Refresh(w, wr.before).c; Stray(c, Promote(w, wr).twins, c.targets[|c.devices|])
  {
    hide Refresh, CInv, Selected, StrictlySorted, ValidPlan, Ids, GoesThrough, NoStray, ApplyWave, Asks, AsksSomebody;
    RefreshKeeps(w, wr.before);
    RefreshDevs(w, wr.before);
    var w1 := Refresh(w, wr.before);
    PromoteCopyOk(w1, wr);
    var c := w1.c.(stage := w1.c.stage + 1);
    CopyStrays(c, w1.twins, w1.devs, wr);
    CopyAsks(c, w1.twins, w1.devs, wr);
    SameCampaign(c, w1.c, Promote(w, wr).twins, c.targets[|c.devices|]);
  }

  lemma CopyAsks(c: Camp, twins: Twins, devs: set<string>, wr: Writes)
    requires ValidPlan(c.stages, c.threshold) && 0 <= c.stage < |c.stages| && StrictlySorted(c.targets) && Selected(c, |c.devices|)
    requires AsksSomebody(c, devs, wr)
    ensures |c.devices| < |c.targets| && Stray(c, ApplyWave(c, twins, devs, wr.budget).twins, c.targets[|c.devices|])
  {
    WantIsCeiling(|c.targets|, c.stages[c.stage]);
    hide Selected, StrictlySorted, ValidPlan, Ids, Wave, Want, Asks, Among;
    var m, id := |c.devices|, c.targets[|c.devices|];
    WaveStray(c, twins, devs, m, Needs(c), wr.budget, id);
    WaveBegins(c, twins, devs, 0, m, Needs(c), wr.budget);
    AmongMore(c.targets, m, |Wave(c, twins, devs, 0, Needs(c), wr.budget).c.devices|, id);
  }

  lemma UnsavedStart(w: World, id: string)
    requires CInv(w.c) && w.c.status == Draft && id in w.devs
    ensures var w' := Start(w, Some([id]), Writes(1, true, false, true));
            w'.c == w.c && w'.devs == w.devs && Stray(w'.c, w'.twins, id)
  {
    var c := StartCopy(w.c, [id]);
    StartCopyOk(w.c, [id]);
    WantIsCeiling(1, c.stages[0]);
    WaveAsks(c, w.twins, w.devs, 0, 0, Needs(c), 1, id);
    WaveBegins(c, w.twins, w.devs, 0, 0, Needs(c), 1);
    AmongMore(c.targets, 0, |Wave(c, w.twins, w.devs, 0, Needs(c), 1).c.devices|, id);
  }
}
