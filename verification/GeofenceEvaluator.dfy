// The geofence evaluator of one vehicle: candidate fences from the bounding-box
// prefilter, exact re-checks of far fences, elided writes, and state reloaded
// from storage before every position.
module GeofenceEvaluator {
  import opened GeofenceFsm
  import opened Optional

  type FenceId = string

  datatype Row = Row(fsm: FenceState, lastSeenAt: int)

  datatype Candidate = Candidate(id: FenceId, rule: Rule, contains: bool)

  datatype Signal = Signal(id: FenceId, event: Event)

  // What an ACTIVE fence says about a position.
  datatype Fence = Fence(rule: Rule, contains: bool)

  // One position: the ACTIVE fences, and those of them the prefilter returns.
  datatype Scene = Scene(at: int, active: map<FenceId, Fence>, candidates: seq<Candidate>)

  type Rows = map<FenceId, Row>

  // Far fences are stepped with every alert on: their own settings are not read.
  const FAR_RULE := Rule(None, {AlertEnter, AlertExit, AlertDwell})

  // ----- one fence -----

  function Snapshot(rows: Rows, id: FenceId): FenceState {
    if id in rows then rows[id].fsm else FRESH
  }

  predicate StateChanged(rows: Rows, id: FenceId, s: FenceState) {
    if id !in rows then !s.state.Outside? || s.confirmCount != 0 else rows[id].fsm != s
  }

  predicate Emits(rule: Rule, e: Event) {
    && (e.Entered? ==> AlertEnter in rule.alertOn)
    && (e.Exited? ==> AlertExit in rule.alertOn)
  }

  function Emitted(rule: Rule, events: seq<Event>): seq<Event> {
    if events == [] then []
    else (if Emits(rule, events[0]) then [events[0]] else []) + Emitted(rule, events[1..])
  }

  datatype Outcome = Outcome(patch: Option<Row>, events: seq<Event>)

  function StepFence(cfg: Config, rows: Rows, id: FenceId, rule: Rule, contains: bool, at: int): Outcome {
    var (s, events) := Advance(Snapshot(rows, id), cfg, rule, Obs(contains, at));
    Outcome(if StateChanged(rows, id, s) || contains then Some(Row(s, at)) else None, Emitted(rule, events))
  }

  // A far fence: skipped while outside, reset silently once it is gone.
  function StepFar(cfg: Config, rows: Rows, id: FenceId, exact: Option<bool>, at: int): Outcome {
    if Snapshot(rows, id).state.Outside? then Outcome(None, [])
    else if exact.None? then Outcome(Some(Row(FRESH, at)), [])
    else StepFence(cfg, rows, id, FAR_RULE, exact.value, at)
  }

  predicate Near(scene: Scene, id: FenceId) {
    exists i :: 0 <= i < |scene.candidates| && scene.candidates[i].id == id
  }

  function ExactContains(scene: Scene, id: FenceId): Option<bool> {
    if id in scene.active then Some(scene.active[id].contains) else None
  }

  // Candidates are distinct ACTIVE fences as they are.
  ghost predicate Consistent(scene: Scene) {
    && (forall i, j :: 0 <= i < j < |scene.candidates| ==> scene.candidates[i].id != scene.candidates[j].id)
    && (forall i :: 0 <= i < |scene.candidates| ==>
          var c := scene.candidates[i];
          c.id in scene.active && scene.active[c.id] == Fence(c.rule, c.contains))
  }

  // The prefilter does not miss the fence where it contains the position.
  ghost predicate Seen(scene: Scene, id: FenceId) {
    id in scene.active && scene.active[id].contains ==> Near(scene, id)
  }

  // What the evaluator does for one fence.
  function Evaluate(cfg: Config, rows: Rows, scene: Scene, id: FenceId): Outcome {
    if Near(scene, id) && id in scene.active then
      StepFence(cfg, rows, id, scene.active[id].rule, scene.active[id].contains, scene.at)
    else if id in rows then StepFar(cfg, rows, id, ExactContains(scene, id), scene.at)
    else Outcome(None, [])
  }

  // ----- the naive evaluator: step every active fence, save every time -----

  function Naive(cfg: Config, s: FenceState, scene: Scene, id: FenceId): (FenceState, seq<Event>) {
    if id in scene.active then
      Advance(s, cfg, scene.active[id].rule, Obs(scene.active[id].contains, scene.at))
    else (if s.state.Outside? then s else FRESH, [])
  }

  function NaiveRun(cfg: Config, scenes: seq<Scene>, id: FenceId): FenceState {
    if scenes == [] then FRESH
    else
      var k := |scenes| - 1;
      Naive(cfg, NaiveRun(cfg, scenes[..k], id), scenes[k], id).0
  }

  // ----- refinement -----

  // An outside observation of an outside fence changes nothing and says nothing.
  lemma QuietOutside(cfg: Config, s: FenceState, rule: Rule, at: int)
    requires s.state.Outside?
    ensures Advance(s, cfg, rule, Obs(false, at)) == (s, [])
  {
  }

  // Only contained observations consult the fence's settings.
  lemma OutsideIgnoresRule(cfg: Config, s: FenceState, rule: Rule, other: Rule, at: int)
    ensures Advance(s, cfg, rule, Obs(false, at)) == Advance(s, cfg, other, Obs(false, at))
    ensures forall e :: e in Advance(s, cfg, rule, Obs(false, at)).1 ==> e.Exited?
  {
  }

  function Patched(rows: Rows, id: FenceId, o: Outcome): FenceState {
    if o.patch.Some? then o.patch.value.fsm else Snapshot(rows, id)
  }

  // Eliding a write never loses a state: without a row the machine can only have
  // stayed fresh.
  lemma ElisionKeeps(cfg: Config, rows: Rows, id: FenceId, rule: Rule, contains: bool, at: int)
    ensures Patched(rows, id, StepFence(cfg, rows, id, rule, contains, at))
            == Advance(Snapshot(rows, id), cfg, rule, Obs(contains, at)).0
  {
    if id !in rows && !contains {
      QuietOutside(cfg, FRESH, rule, at);
    }
  }

  // The events of a fence as the naive evaluator finds them, filtered by its
  // alert settings, which the far path does not know.
  function NaiveSignals(cfg: Config, s: FenceState, scene: Scene, id: FenceId): seq<Event> {
    var events := Naive(cfg, s, scene, id).1;
    if Near(scene, id) && id in scene.active then Emitted(scene.active[id].rule, events) else Emitted(FAR_RULE, events)
  }

  lemma {:induction false} EmitsAll(events: seq<Event>)
    ensures Emitted(FAR_RULE, events) == events
  {
    if events != [] {
      EmitsAll(events[1..]);
    }
  }

  // One position: same state, same signals.
  lemma EvaluateRefines(cfg: Config, rows: Rows, scene: Scene, id: FenceId)
    requires Seen(scene, id)
    ensures var s, o := Snapshot(rows, id), Evaluate(cfg, rows, scene, id);
            && Patched(rows, id, o) == Naive(cfg, s, scene, id).0
            && o.events == NaiveSignals(cfg, s, scene, id)
            && (!Near(scene, id) ==> forall e :: e in o.events ==> e.Exited?)
  {
    hide Advance, StepFence, Near;
    var s, at := Snapshot(rows, id), scene.at;
    if id in scene.active {
      var f := scene.active[id];
      ElisionKeeps(cfg, rows, id, f.rule, f.contains, at);
      StepEvents(cfg, rows, id, f.rule, f.contains, at);
      if !Near(scene, id) {
        assert !f.contains;
        OutsideIgnoresRule(cfg, s, f.rule, FAR_RULE, at);
        ElisionKeeps(cfg, rows, id, FAR_RULE, false, at);
        StepEvents(cfg, rows, id, FAR_RULE, false, at);
        EmitsAll(Advance(s, cfg, FAR_RULE, Obs(false, at)).1);
        if s.state.Outside? {
          QuietOutside(cfg, s, f.rule, at);
        }
      }
    }
  }

  lemma StepEvents(cfg: Config, rows: Rows, id: FenceId, rule: Rule, contains: bool, at: int)
    ensures StepFence(cfg, rows, id, rule, contains, at).events
            == Emitted(rule, Advance(Snapshot(rows, id), cfg, rule, Obs(contains, at)).1)
  {
  }

  // A row is written exactly where its state changes or the fence contains the
  // position, and with the position's time.
  lemma ElidesExactly(cfg: Config, rows: Rows, scene: Scene, id: FenceId)
    requires Seen(scene, id)
    ensures var o, s := Evaluate(cfg, rows, scene, id), Snapshot(rows, id);
            && (o.patch.Some? <==>
                Naive(cfg, s, scene, id).0 != s || (id in scene.active && scene.active[id].contains))
            && (o.patch.Some? ==> o.patch.value == Row(Naive(cfg, s, scene, id).0, scene.at))
  {
    var s, at := Snapshot(rows, id), scene.at;
    if id in scene.active {
      var f := scene.active[id];
      OutsideIgnoresRule(cfg, s, f.rule, FAR_RULE, at);
      if id !in rows {
        QuietOutside(cfg, FRESH, f.rule, at);
      }
      if s.state.Outside? {
        QuietOutside(cfg, s, f.rule, at);
      }
    }
    hide Near, Advance;
  }

  // ----- whole runs -----

  // The rows after a position: every fence as evaluated on the rows loaded before.
  ghost predicate Processed(cfg: Config, rows: Rows, scene: Scene, after: Rows) {
    forall id :: RowAfter(cfg, rows, scene, id, after)
  }

  ghost predicate RowAfter(cfg: Config, rows: Rows, scene: Scene, id: FenceId, after: Rows) {
    var o := Evaluate(cfg, rows, scene, id);
    if o.patch.Some? then id in after && after[id] == o.patch.value
    else (id in after <==> id in rows) && (id in rows ==> after[id] == rows[id])
  }

  // Storage through a run of positions.
  ghost predicate StoredRun(cfg: Config, scenes: seq<Scene>, stored: seq<Rows>) {
    && |stored| == |scenes| + 1 && stored[0] == map[]
    && forall i, j :: 0 <= i < |scenes| && j == i + 1 ==> Processed(cfg, stored[i], scenes[i], stored[j])
  }

  // After every run, storage holds for every fence the state of the naive
  // evaluator, given only that no prefilter missed that fence.
  lemma {:induction false} StoredIsNaive(cfg: Config, scenes: seq<Scene>, stored: seq<Rows>, k: nat, id: FenceId)
    requires StoredRun(cfg, scenes, stored) && k <= |scenes|
    requires forall i :: 0 <= i < k ==> Seen(scenes[i], id)
    ensures Snapshot(stored[k], id) == NaiveRun(cfg, scenes[..k], id)
  {
    if k > 0 {
      hide Evaluate, Naive, Seen;
      var j := k - 1;
      StoredIsNaive(cfg, scenes, stored, j, id);
      EvaluateRefines(cfg, stored[j], scenes[j], id);
      assert Processed(cfg, stored[j], scenes[j], stored[k]);
      assert RowAfter(cfg, stored[j], scenes[j], id, stored[k]);
      assert scenes[..k][..j] == scenes[..j];
    }
  }

  // The signals of a position are the naive evaluator's events, filtered.
  lemma SignalsAreNaive(cfg: Config, scenes: seq<Scene>, stored: seq<Rows>, k: nat, id: FenceId)
    requires StoredRun(cfg, scenes, stored) && k < |scenes|
    requires forall i :: 0 <= i <= k ==> Seen(scenes[i], id)
    ensures Evaluate(cfg, stored[k], scenes[k], id).events
            == NaiveSignals(cfg, NaiveRun(cfg, scenes[..k], id), scenes[k], id)
  {
    hide Evaluate, Naive, Seen, NaiveSignals;
    StoredIsNaive(cfg, scenes, stored, k, id);
    EvaluateRefines(cfg, stored[k], scenes[k], id);
  }

  // Without that the two differ: a missed fence is never entered.
  lemma MissedFence(cfg: Config, rule: Rule, at: int)
    requires cfg.confirmationPoints >= 2
    ensures var scene := Scene(at, map["f" := Fence(rule, true)], []);
            && Consistent(scene) && !Seen(scene, "f")
            && Evaluate(cfg, map[], scene, "f").patch.None?
            && NaiveRun(cfg, [scene], "f").state.CandidateIn?
  {
    var scene := Scene(at, map["f" := Fence(rule, true)], []);
    assert scene.active["f"].contains && !Near(scene, "f");
    assert [scene][..0] == [];
  }

  // The state in which a contained observation checks for a dwell.
  ghost function Rechecked(s: FenceState): FenceState {
    if s.state.CandidateOut? then s.(state := Inside, confirmCount := 0) else s
  }

  // A contained observation differs by the fence's settings in the dwell alone.
  lemma ContainedUnderRules(cfg: Config, s: FenceState, rule: Rule, other: Rule, at: int)
    ensures Advance(s, cfg, rule, Obs(true, at)).0 == Advance(s, cfg, other, Obs(true, at)).0
            <==> (DwellDue(Rechecked(s), cfg, rule, at) <==> DwellDue(Rechecked(s), cfg, other, at))
  {
    hide Threshold;
  }

  // Entering, an outside fence never stays as it was.
  lemma ContainedMoves(cfg: Config, s: FenceState, rule: Rule, at: int)
    requires s.state.Outside?
    ensures Advance(s, cfg, rule, Obs(true, at)).0 != s
  {
  }

  // When a fence missed by the prefilter makes a difference to what is stored: when
  // it is outside, so that it is not entered; or when a dwell is due under every
  // alert on and the default time and not under the fence's settings, or the other
  // way round.
  lemma MissedFenceExactly(cfg: Config, rows: Rows, scene: Scene, id: FenceId)
    requires id in scene.active && scene.active[id].contains && !Near(scene, id)
    ensures var s, rule := Snapshot(rows, id), scene.active[id].rule;
            Patched(rows, id, Evaluate(cfg, rows, scene, id)) != Naive(cfg, s, scene, id).0 <==>
            || s.state.Outside?
            || (DwellDue(Rechecked(s), cfg, rule, scene.at) <==> !DwellDue(Rechecked(s), cfg, FAR_RULE, scene.at))
  {
    hide Advance, StepFence, Near, DwellDue;
    var s, f := Snapshot(rows, id), scene.active[id];
    if s.state.Outside? {
      ContainedMoves(cfg, s, f.rule, scene.at);
    } else {
      ElisionKeeps(cfg, rows, id, FAR_RULE, true, scene.at);
      ContainedUnderRules(cfg, s, f.rule, FAR_RULE, scene.at);
    }
  }

  // An outside observation confirms an exit at the end of a window.
  predicate LeavesNow(cfg: Config, s: FenceState) {
    || (s.state.Inside? && Window(cfg) == 1)
    || (s.state.CandidateOut? && s.confirmCount + 1 >= Window(cfg))
  }

  lemma ExitsWhenLeaving(cfg: Config, s: FenceState, rule: Rule, at: int)
    ensures Advance(s, cfg, rule, Obs(false, at)).1 == if LeavesNow(cfg, s) then [ExitEvent(s, at)] else []
  {
    hide ExitEvent;
  }

  // And when a far fence's signals are not those its settings allow: when it leaves
  // at that position and its settings suppress exits.
  lemma FarExitExactly(cfg: Config, rows: Rows, scene: Scene, id: FenceId)
    requires Seen(scene, id) && id in scene.active && !Near(scene, id)
    ensures var s, rule := Snapshot(rows, id), scene.active[id].rule;
            Evaluate(cfg, rows, scene, id).events != Emitted(rule, Naive(cfg, s, scene, id).1) <==>
            AlertExit !in rule.alertOn && LeavesNow(cfg, s)
  {
    var s, f := Snapshot(rows, id), scene.active[id];
    EvaluateRefines(cfg, rows, scene, id);
    var events := Naive(cfg, s, scene, id).1;
    EmitsAll(events);
    ExitsWhenLeaving(cfg, s, f.rule, scene.at);
    hide Advance, Evaluate, Near, LeavesNow;
    OnlyExits(f.rule, events);
  }

  lemma {:induction false} OnlyExits(rule: Rule, events: seq<Event>)
    requires forall e :: e in events ==> e.Exited?
    ensures Emitted(rule, events) == if AlertExit in rule.alertOn then events else []
  {
    if events != [] {
      OnlyExits(rule, events[1..]);
      assert events[0] in events;
    }
  }

  // ----- what is stored means what it should -----

  // The fence is active at every position; its settings may change.
  ghost predicate AlwaysActive(scenes: seq<Scene>, id: FenceId) {
    forall i :: 0 <= i < |scenes| ==> id in scenes[i].active
  }

  function History(scenes: seq<Scene>, id: FenceId): (h: seq<Obs>)
    requires AlwaysActive(scenes, id)
    ensures |h| == |scenes|
    ensures forall i :: 0 <= i < |h| ==> h[i] == Obs(scenes[i].active[id].contains, scenes[i].at)
  {
    seq(|scenes|, i requires 0 <= i < |scenes| => Obs(scenes[i].active[id].contains, scenes[i].at))
  }

  ghost predicate SameMembership(s: FenceState, t: FenceState) {
    s.state == t.state && s.confirmCount == t.confirmCount && s.enteredAt == t.enteredAt
  }

  // Membership, the candidate's count and the entry depend neither on a fence's
  // settings nor on the dwells fired.
  lemma MembershipIgnoresRule(cfg: Config, s: FenceState, t: FenceState, rule: Rule, other: Rule, o: Obs)
    requires SameMembership(s, t)
    ensures SameMembership(Advance(s, cfg, rule, o).0, Advance(t, cfg, other, o).0)
  {
    hide Threshold, Window;
  }

  lemma {:induction false} NaiveFollowsRun(cfg: Config, scenes: seq<Scene>, id: FenceId, rule: Rule, k: nat)
    requires AlwaysActive(scenes, id) && k <= |scenes|
    ensures SameMembership(NaiveRun(cfg, scenes[..k], id), Run(cfg, rule, History(scenes, id), k))
  {
    if k > 0 {
      hide Advance;
      var h, j := History(scenes, id), k - 1;
      NaiveFollowsRun(cfg, scenes, id, rule, j);
      assert scenes[..k][..j] == scenes[..j];
      MembershipIgnoresRule(cfg, NaiveRun(cfg, scenes[..j], id), Run(cfg, rule, h, j), scenes[j].active[id].rule, rule,
                            h[j]);
    }
  }

  // A fence that stays active, whatever becomes of its settings, is stored as inside
  // exactly when the latest window of equal observations says so, and as a candidate
  // with the trailing run, whatever the prefilter and the elision did.
  lemma StoredMembership(cfg: Config, scenes: seq<Scene>, stored: seq<Rows>, id: FenceId)
    requires StoredRun(cfg, scenes, stored) && AlwaysActive(scenes, id)
    requires forall i :: 0 <= i < |scenes| ==> Seen(scenes[i], id)
    ensures var s, h, n := Snapshot(stored[|scenes|], id), History(scenes, id), Window(cfg);
            && (s.state.Inside? || s.state.CandidateOut? <==> Confirmed(h, |h|, n))
            && (s.state.CandidateIn? || s.state.CandidateOut? <==>
                h != [] && h[|h| - 1].contains != Confirmed(h, |h|, n))
            && (s.state.CandidateIn? || s.state.CandidateOut? ==> s.confirmCount == Trailing(h, |h|) < n)
  {
    hide Seen, Advance;
    var k := |scenes|;
    StoredIsNaive(cfg, scenes, stored, k, id);
    assert scenes[..k] == scenes;
    NaiveFollowsRun(cfg, scenes, id, FAR_RULE, k);
    DebounceMeaning(cfg, FAR_RULE, History(scenes, id));
  }

  ghost predicate Within(s: FenceState) { s.state.Inside? || s.state.CandidateOut? }

  // The naive evaluator of a fence that stays active is where the windows of its
  // observations say, and has the entry that they have.
  lemma NaiveWithin(cfg: Config, scenes: seq<Scene>, id: FenceId, k: nat)
    requires AlwaysActive(scenes, id) && k <= |scenes|
    ensures var s, h, n := NaiveRun(cfg, scenes[..k], id), History(scenes, id), Window(cfg);
            && (Within(s) <==> Confirmed(h, k, n))
            && (Within(s) ==> LastEntry(h, k, n).Some? && s.enteredAt == Some(h[LastEntry(h, k, n).value].at))
  {
    hide Uniform, Threshold;
    var h := History(scenes, id);
    NaiveFollowsRun(cfg, scenes, id, FAR_RULE, k);
    RunFacts(cfg, FAR_RULE, h, k);
    if Confirmed(h, k, Window(cfg)) {
      ConfirmedHasEntry(h, k, Window(cfg));
    }
  }

  // Under the settings of position i, a vehicle that came at position e has stayed
  // long enough for a dwell.
  ghost predicate DwellsAt(cfg: Config, scenes: seq<Scene>, id: FenceId, e: nat, i: nat)
    requires AlwaysActive(scenes, id) && e < |scenes| && i < |scenes|
  {
    var rule := scenes[i].active[id].rule;
    && AlertDwell in rule.alertOn
    && Stayed(History(scenes, id), e, i, if rule.dwellSec.Some? then rule.dwellSec.value else cfg.dwellSeconds)
  }

  ghost predicate DwelledSince(cfg: Config, scenes: seq<Scene>, id: FenceId, e: nat, k: nat)
    requires AlwaysActive(scenes, id) && e < k <= |scenes|
  {
    exists i: nat :: e < i < k && DwellsAt(cfg, scenes, id, e, i)
  }

  // What a step does within: it leaves, or stays with or without a dwell.
  lemma StepWithin(cfg: Config, s: FenceState, rule: Rule, o: Obs)
    requires Within(s) && s.enteredAt.Some?
    ensures var t, events := Advance(s, cfg, rule, o).0, Advance(s, cfg, rule, o).1;
            var stay := o.at - s.enteredAt.value;
            var dwells := s.dwellFiredAt.None? && o.contains && AlertDwell in rule.alertOn
                          && stay >= 1000 * Threshold(cfg, rule);
            if Within(t) then
              && events == (if dwells then [Dwelled(o.at, Seconds(stay))] else [])
              && (t.dwellFiredAt.Some? <==> dwells || s.dwellFiredAt.Some?)
            else t.dwellFiredAt.None? && events == [Exited(o.at, Some(Max(0, Seconds(stay))))]
  {
    var stay := o.at - s.enteredAt.value;
    AtLeastOne(stay);
    hide Threshold, Seconds, Window;
    assert Threshold(cfg, rule) >= 1 by {
      SomeThreshold(cfg, rule);
    }
  }

  lemma SomeThreshold(cfg: Config, rule: Rule)
    ensures Threshold(cfg, rule) >= 1
  {
  }

  // And outside: it comes in, or says nothing.
  lemma StepWithout(cfg: Config, s: FenceState, rule: Rule, o: Obs)
    requires !Within(s)
    ensures var t, events := Advance(s, cfg, rule, o).0, Advance(s, cfg, rule, o).1;
            if Within(t) then t.dwellFiredAt.None? && events == [Entered(o.at)]
            else t.dwellFiredAt == s.dwellFiredAt && events == []
  {
  }

  lemma DwellsWhenDue(cfg: Config, scenes: seq<Scene>, id: FenceId, e: nat, i: nat)
    requires AlwaysActive(scenes, id) && e < |scenes| && i < |scenes|
    ensures var rule, h := scenes[i].active[id].rule, History(scenes, id);
            DwellsAt(cfg, scenes, id, e, i) <==>
            h[i].contains && AlertDwell in rule.alertOn && h[i].at - h[e].at >= 1000 * Threshold(cfg, rule)
  {
  }

  lemma DwelledNext(cfg: Config, scenes: seq<Scene>, id: FenceId, e: nat, k: nat)
    requires AlwaysActive(scenes, id) && e < k < |scenes|
    ensures DwelledSince(cfg, scenes, id, e, k + 1) <==>
            DwelledSince(cfg, scenes, id, e, k) || DwellsAt(cfg, scenes, id, e, k)
  {
    hide DwellsAt, AlwaysActive;
  }

  lemma NoneSince(cfg: Config, scenes: seq<Scene>, id: FenceId, e: nat)
    requires AlwaysActive(scenes, id) && e < |scenes|
    ensures !DwelledSince(cfg, scenes, id, e, e + 1)
  {
  }

  lemma EntryNext(h: seq<Obs>, k: nat, n: nat)
    requires n >= 1 && k < |h| && Confirmed(h, k + 1, n)
    ensures LastEntry(h, k + 1, n) == if Confirmed(h, k, n) then LastEntry(h, k, n) else Some(k)
  {
    hide Confirmed;
  }

  // What is on record of a stay: a dwell exactly when one came due since the entry,
  // each position judged by the settings it found.
  ghost predicate OnRecord(cfg: Config, scenes: seq<Scene>, id: FenceId, k: nat, s: FenceState)
    requires AlwaysActive(scenes, id) && k <= |scenes|
  {
    var e := LastEntry(History(scenes, id), k, Window(cfg));
    if Within(s) then e.Some? && (s.dwellFiredAt.Some? <==> DwelledSince(cfg, scenes, id, e.value, k))
    else s.dwellFiredAt.None?
  }

  lemma {:induction false} DwellOnRecord(cfg: Config, scenes: seq<Scene>, id: FenceId, k: nat)
    requires AlwaysActive(scenes, id) && k <= |scenes|
    ensures OnRecord(cfg, scenes, id, k, NaiveRun(cfg, scenes[..k], id))
  {
    hide Advance, Threshold, Window, Stayed, DwellsAt, DwelledSince, Confirmed, LastEntry;
    NaiveWithin(cfg, scenes, id, k);
    if k > 0 {
      var h, j, n := History(scenes, id), k - 1, Window(cfg);
      var s, rule := NaiveRun(cfg, scenes[..j], id), scenes[j].active[id].rule;
      DwellOnRecord(cfg, scenes, id, j);
      NaiveWithin(cfg, scenes, id, j);
      assert scenes[..k][..j] == scenes[..j];
      if Confirmed(h, k, n) {
        EntryNext(h, j, n);
        NoneSince(cfg, scenes, id, j);
      }
      if Within(s) {
        var e := LastEntry(h, j, n).value;
        StepWithin(cfg, s, rule, h[j]);
        DwellsWhenDue(cfg, scenes, id, e, j);
        DwelledNext(cfg, scenes, id, e, j);
      } else {
        StepWithout(cfg, s, rule, h[j]);
      }
    }
  }

  // The alerts that a position's signals for a fence are filtered by.
  function AlertsFor(scene: Scene, id: FenceId): set<Alert>
    requires id in scene.active
  {
    if Near(scene, id) then scene.active[id].rule.alertOn else FAR_RULE.alertOn
  }

  // The signals of position k, in terms of the observations, and for dwells the
  // settings, alone.
  ghost predicate SignalsMean(events: seq<Event>, cfg: Config, scenes: seq<Scene>, id: FenceId, k: nat)
    requires AlwaysActive(scenes, id) && k < |scenes|
  {
    var h, n, alerts := History(scenes, id), Window(cfg), AlertsFor(scenes[k], id);
    var before, after, e, at := Confirmed(h, k, n), Confirmed(h, k + 1, n), LastEntry(h, k, n), h[k].at;
    if !before then events == if after && AlertEnter in alerts then [Entered(at)] else []
    else
      && e.Some?
      && (var stay := at - h[e.value].at;
          if !after then events == if AlertExit in alerts then [Exited(at, Some(Max(0, Seconds(stay))))] else []
          else events == if DwellsAt(cfg, scenes, id, e.value, k) && !DwelledSince(cfg, scenes, id, e.value, k)
                         then [Dwelled(at, Seconds(stay))] else [])
  }

  lemma EmittedOne(rule: Rule, e: Event)
    ensures Emitted(rule, [e]) == if Emits(rule, e) then [e] else []
  {
    assert [e][1..] == [];
  }

  // A fence that stays active, whatever becomes of its settings, is announced as
  // entered and left exactly where the windows of equal observations say so; and
  // its dwells exactly where, by the settings of the positions since the entry,
  // the first comes due.
  lemma StoredCrossings(cfg: Config, scenes: seq<Scene>, stored: seq<Rows>, k: nat, id: FenceId)
    requires StoredRun(cfg, scenes, stored) && AlwaysActive(scenes, id) && k < |scenes|
    requires forall i :: 0 <= i <= k ==> Seen(scenes[i], id)
    ensures SignalsMean(Evaluate(cfg, stored[k], scenes[k], id).events, cfg, scenes, id, k)
  {
    hide Seen, Advance, Evaluate, Near, StoredRun, DwellsAt, DwelledSince, Confirmed, Window, Threshold, Seconds;
    var h, s, scene := History(scenes, id), NaiveRun(cfg, scenes[..k], id), scenes[k];
    var rule := scene.active[id].rule;
    SignalsAreNaive(cfg, scenes, stored, k, id);
    NaiveWithin(cfg, scenes, id, k);
    NaiveWithin(cfg, scenes, id, k + 1);
    DwellOnRecord(cfg, scenes, id, k);
    assert scenes[..k + 1][..k] == scenes[..k];
    var events, heard := Naive(cfg, s, scene, id).1, if Near(scene, id) then rule else FAR_RULE;
    if Within(s) {
      StepWithin(cfg, s, rule, h[k]);
      DwellsWhenDue(cfg, scenes, id, LastEntry(h, k, Window(cfg)).value, k);
    } else {
      StepWithout(cfg, s, rule, h[k]);
    }
    if events != [] {
      EmittedOne(heard, events[0]);
    }
  }

  // ----- the objects of the program -----

  class MutableState {
    var state: Membership
    var confirmCount: int
    var enteredAt: Option<int>
    var dwellFiredAt: Option<int>

    ghost function View(): FenceState
      reads this
    {
      FenceState(state, confirmCount, enteredAt, dwellFiredAt)
    }

    constructor (s: FenceState)
      ensures View() == s
    {
      state, confirmCount, enteredAt, dwellFiredAt := s.state, s.confirmCount, s.enteredAt, s.dwellFiredAt;
    }

    method Enter(at: int)
      modifies this
      ensures View() == ConfirmEnter(old(View()), at)
    {
      state, confirmCount, enteredAt, dwellFiredAt := Inside, 0, Some(at), None;
    }

    method Exit()
      modifies this
      ensures View() == ConfirmExit(old(View()))
    {
      state, confirmCount, dwellFiredAt := Outside, 0, None;
    }

    method Dwell(cfg: Config, rule: Rule, at: int) returns (events: seq<Event>)
      modifies this
      ensures (View(), events) == CheckDwell(old(View()), cfg, rule, at)
    {
      events := [];
      if !state.Inside? || dwellFiredAt.Some? || enteredAt.None? {
        return;
      }
      if AlertDwell !in rule.alertOn {
        return;
      }
      var elapsed := at - enteredAt.value;
      if elapsed >= 1000 * Threshold(cfg, rule) {
        dwellFiredAt := Some(at);
        events := [Dwelled(at, Max(1, Seconds(elapsed)))];
      }
    }

    method Advance(cfg: Config, rule: Rule, o: Obs) returns (events: seq<Event>)
      modifies this
      ensures (View(), events) == GeofenceFsm.Advance(old(View()), cfg, rule, o)
    {
      var n := Window(cfg);
      events := [];
      if state.Outside? {
        if !o.contains {
          return;
        }
        if n <= 1 {
          Enter(o.at);
          events := [Entered(o.at)];
        } else {
          state, confirmCount := CandidateIn, 1;
        }
      } else if state.CandidateIn? {
        if o.contains {
          confirmCount := confirmCount + 1;
          if confirmCount >= n {
            Enter(o.at);
            events := [Entered(o.at)];
          }
        } else {
          state, confirmCount := Outside, 0;
        }
      } else if state.Inside? {
        if o.contains {
          events := Dwell(cfg, rule, o.at);
        } else if n <= 1 {
          events := [ExitEvent(FenceState(state, confirmCount, enteredAt, dwellFiredAt), o.at)];
          Exit();
        } else {
          state, confirmCount := CandidateOut, 1;
        }
      } else if !o.contains {
        confirmCount := confirmCount + 1;
        if confirmCount >= n {
          events := [ExitEvent(FenceState(state, confirmCount, enteredAt, dwellFiredAt), o.at)];
          Exit();
        }
      } else {
        state, confirmCount := Inside, 0;
        events := Dwell(cfg, rule, o.at);
      }
    }
  }

  function SignalsOf(signals: seq<Signal>, id: FenceId): seq<Event> {
    if signals == [] then []
    else
      var k := |signals| - 1;
      SignalsOf(signals[..k], id) + (if signals[k].id == id then [signals[k].event] else [])
  }

  // The signals of one evaluation, added to those before.
  ghost predicate Told(before: seq<Signal>, after: seq<Signal>, id: FenceId, events: seq<Event>) {
    forall f :: SignalsOf(after, f) == SignalsOf(before, f) + (if f == id then events else [])
  }

  function Tagged(id: FenceId, events: seq<Event>): seq<Signal> {
    seq(|events|, i requires 0 <= i < |events| => Signal(id, events[i]))
  }

  lemma TaggedAppend(id: FenceId, events: seq<Event>, e: Event)
    ensures Tagged(id, events + [e]) == Tagged(id, events) + [Signal(id, e)]
  {
  }

  // The signals of the fences of a list, one after the other.
  function TellAll(cfg: Config, rows: Rows, scene: Scene, order: seq<FenceId>): seq<Signal> {
    if order == [] then []
    else
      var k := |order| - 1;
      TellAll(cfg, rows, scene, order[..k]) + Tagged(order[k], Evaluate(cfg, rows, scene, order[k]).events)
  }

  lemma TellOneMore(cfg: Config, rows: Rows, scene: Scene, order: seq<FenceId>, id: FenceId)
    ensures TellAll(cfg, rows, scene, order + [id])
            == TellAll(cfg, rows, scene, order) + Tagged(id, Evaluate(cfg, rows, scene, id).events)
  {
    assert (order + [id])[..|order|] == order;
  }

  // Each fence with something to say once: the candidates first, as the prefilter
  // gives them, then the far ones.
  ghost predicate CandidatesFirst(scene: Scene, rows: Rows, order: seq<FenceId>) {
    && |order| >= |scene.candidates|
    && (forall i :: 0 <= i < |scene.candidates| ==> order[i] == scene.candidates[i].id)
    && (forall i, j :: 0 <= i < j < |order| ==> order[i] != order[j])
    && (forall id :: id in order <==> Near(scene, id) || id in rows)
  }

  lemma {:induction false} EmittedAppend(rule: Rule, events: seq<Event>, e: Event)
    ensures Emitted(rule, events + [e]) == Emitted(rule, events) + (if Emits(rule, e) then [e] else [])
  {
    if events != [] {
      EmittedAppend(rule, events[1..], e);
      assert (events + [e])[1..] == events[1..] + [e];
    }
  }

  lemma SignalsAppend(signals: seq<Signal>, s: Signal)
    ensures forall f :: SignalsOf(signals + [s], f)
                        == SignalsOf(signals, f) + (if f == s.id then [s.event] else [])
  {
    assert (signals + [s])[..|signals|] == signals;
  }

  lemma NothingTold(signals: seq<Signal>, id: FenceId)
    ensures Told(signals, signals, id, []) && signals + Tagged(id, []) == signals
  {
    forall f ensures SignalsOf(signals, f) + [] == SignalsOf(signals, f) {
    }
  }

  lemma ToldAppend(before: seq<Signal>, signals: seq<Signal>, id: FenceId, events: seq<Event>, e: Event)
    requires Told(before, signals, id, events)
    ensures Told(before, signals + [Signal(id, e)], id, events + [e])
  {
    SignalsAppend(signals, Signal(id, e));
    forall f ensures SignalsOf(before, f) + (if f == id then events + [e] else [])
                     == SignalsOf(before, f) + (if f == id then events else []) + (if f == id then [e] else []) {
    }
  }

  class Evaluator {
    var rows: Rows
    var signals: seq<Signal>
    const cfg: Config

    constructor (cfg: Config)
      ensures rows == map[] && signals == [] && this.cfg == cfg
    {
      rows, signals := map[], [];
      this.cfg := cfg;
    }

    method Emit(id: FenceId, rule: Rule, events: seq<Event>)
      modifies this`signals
      ensures Told(old(signals), signals, id, Emitted(rule, events))
      ensures signals == old(signals) + Tagged(id, Emitted(rule, events))
    {
      hide Told, Tagged;
      ghost var before := signals;
      NothingTold(signals, id);
      for i := 0 to |events|
        invariant Told(before, signals, id, Emitted(rule, events[..i]))
        invariant signals == before + Tagged(id, Emitted(rule, events[..i]))
      {
        var e := events[i];
        EmittedAppend(rule, events[..i], e);
        assert events[..i + 1] == events[..i] + [e];
        assert Emitted(rule, events[..i]) + [] == Emitted(rule, events[..i]);
        if e.Entered? && AlertEnter !in rule.alertOn {
          continue;
        }
        if e.Exited? && AlertExit !in rule.alertOn {
          continue;
        }
        ToldAppend(before, signals, id, Emitted(rule, events[..i]), e);
        TaggedAppend(id, Emitted(rule, events[..i]), e);
        signals := signals + [Signal(id, e)];
      }
      assert events[..|events|] == events;
    }

    // One fence, near or far: the state as loaded, the events, the patch.
    method StepOne(states: Rows, id: FenceId, rule: Rule, contains: bool, at: int) returns (patch: Option<Row>)
      modifies this`signals
      ensures patch == StepFence(cfg, states, id, rule, contains, at).patch
      ensures Told(old(signals), signals, id, StepFence(cfg, states, id, rule, contains, at).events)
      ensures signals == old(signals) + Tagged(id, StepFence(cfg, states, id, rule, contains, at).events)
    {
      var mutable := new MutableState(Snapshot(states, id));
      var events := mutable.Advance(cfg, rule, Obs(contains, at));
      Emit(id, rule, events);
      var s := FenceState(mutable.state, mutable.confirmCount, mutable.enteredAt, mutable.dwellFiredAt);
      patch := if StateChanged(states, id, s) || contains then Some(Row(s, at)) else None;
    }

    // A far fence with a row.
    method StepOneFar(states: Rows, id: FenceId, exact: Option<bool>, at: int) returns (patch: Option<Row>)
      requires id in states
      modifies this`signals
      ensures patch == StepFar(cfg, states, id, exact, at).patch
      ensures Told(old(signals), signals, id, StepFar(cfg, states, id, exact, at).events)
      ensures signals == old(signals) + Tagged(id, StepFar(cfg, states, id, exact, at).events)
    {
      if states[id].fsm.state.Outside? {
        return None;
      }
      if exact.None? {
        return Some(Row(FRESH, at));
      }
      patch := StepOne(states, id, FAR_RULE, exact.value, at);
    }

    // Every fence as evaluated on the rows loaded before; its signals added, in the
    // order in which the fences are visited.
    method Process(scene: Scene) returns (ghost order: seq<FenceId>)
      requires Consistent(scene)
      modifies this
      ensures Processed(cfg, old(rows), scene, rows)
      ensures forall id :: SignalsOf(signals, id)
                           == SignalsOf(old(signals), id) + Evaluate(cfg, old(rows), scene, id).events
      ensures CandidatesFirst(scene, old(rows), order)
      ensures signals == old(signals) + TellAll(cfg, old(rows), scene, order)
    {
      hide StepFence, Told, Evaluate, Tagged, Near, Progress;
      var states := rows;
      ghost var told := signals;
      var candidateIds: set<FenceId> := {};
      order := [];
      NoProgress(cfg, states, scene, told);
      for i := 0 to |scene.candidates|
        invariant |order| == i && candidateIds == CandidateIds(scene, i)
        invariant Progress(cfg, states, scene, told, i, order, candidateIds, rows, signals)
      {
        var c := scene.candidates[i];
        ghost var rows0, signals0 := rows, signals;
        var patch := StepOne(states, c.id, c.rule, c.contains, scene.at);
        if patch.Some? {
          rows := rows[c.id := patch.value];
        }
        NearProgress(cfg, states, scene, told, i, order, candidateIds, rows0, signals0, rows, signals);
        candidateIds := candidateIds + {c.id};
        order := order + [c.id];
      }
      AllCandidates(scene);
      order := RefreshFarStates(scene, states, candidateIds, told, order);
    }

    // The fences with a row that are no candidates.
    method RefreshFarStates(scene: Scene, states: Rows, candidateIds: set<FenceId>,
                            ghost told: seq<Signal>, ghost before: seq<FenceId>)
      returns (ghost order: seq<FenceId>)
      requires forall id :: id in candidateIds <==> Near(scene, id)
      requires Progress(cfg, states, scene, told, |scene.candidates|, before, candidateIds, rows, signals)
      modifies this
      ensures Processed(cfg, states, scene, rows)
      ensures forall id :: SignalsOf(signals, id) == SignalsOf(told, id) + Evaluate(cfg, states, scene, id).events
      ensures CandidatesFirst(scene, states, order) && signals == told + TellAll(cfg, states, scene, order)
    {
      hide StepFar, Told, Evaluate, Tagged, Near, Progress;
      order := before;
      var todo := states.Keys - candidateIds;
      ghost var done := candidateIds;
      while todo != {}
        invariant forall id :: id in done <==> Near(scene, id) || (id in states && id !in todo)
        invariant todo <= states.Keys && todo !! done
        invariant Progress(cfg, states, scene, told, |scene.candidates|, order, done, rows, signals)
        decreases todo
      {
        var id :| id in todo;
        todo := todo - {id};
        ghost var rows0, signals0 := rows, signals;
        var patch := StepOneFar(states, id, ExactContains(scene, id), scene.at);
        if patch.Some? {
          rows := rows[id := patch.value];
        }
        FarProgress(cfg, states, scene, told, order, done, rows0, signals0, rows, signals, id);
        done := done + {id};
        order := order + [id];
      }
      AllProgress(cfg, states, scene, told, order, done, rows, signals);
    }
  }

  // A position under way: the fences visited are done, in order, the others not.
  ghost predicate Progress(cfg: Config, states: Rows, scene: Scene, told: seq<Signal>, n: nat, order: seq<FenceId>,
                           done: set<FenceId>, rows: Rows, signals: seq<Signal>)
  {
    && Visited(scene, n, order, done) && Half(cfg, states, scene, told, done, rows, signals)
    && signals == told + TellAll(cfg, states, scene, order)
  }

  lemma NoProgress(cfg: Config, states: Rows, scene: Scene, told: seq<Signal>)
    ensures Progress(cfg, states, scene, told, 0, [], {}, states, told)
  {
    NothingDone(cfg, states, scene, told);
    NothingVisited(scene);
  }

  lemma NearProgress(cfg: Config, states: Rows, scene: Scene, told: seq<Signal>, i: nat, order: seq<FenceId>,
                     done: set<FenceId>, rows: Rows, signals: seq<Signal>, rows': Rows, signals': seq<Signal>)
    requires Consistent(scene) && i < |scene.candidates| && |order| == i && done == CandidateIds(scene, i)
    requires Progress(cfg, states, scene, told, i, order, done, rows, signals)
    requires var c := scene.candidates[i];
             var o := StepFence(cfg, states, c.id, c.rule, c.contains, scene.at);
             && Told(signals, signals', c.id, o.events) && signals' == signals + Tagged(c.id, o.events)
             && rows' == if o.patch.Some? then rows[c.id := o.patch.value] else rows
    ensures var id := scene.candidates[i].id;
            && done + {id} == CandidateIds(scene, i + 1)
            && Progress(cfg, states, scene, told, i + 1, order + [id], done + {id}, rows', signals')
  {
    hide StepFence, Evaluate, Half, Told, Tagged, Visited, Near, CandidateIds;
    var id := scene.candidates[i].id;
    NextCandidate(scene, i, order, done);
    NearStep(cfg, states, scene, i);
    OneMore(cfg, states, scene, told, done, rows, signals, id, rows', signals');
    TellOneMore(cfg, states, scene, order, id);
  }

  lemma FarProgress(cfg: Config, states: Rows, scene: Scene, told: seq<Signal>, order: seq<FenceId>,
                    done: set<FenceId>, rows: Rows, signals: seq<Signal>, rows': Rows, signals': seq<Signal>,
                    id: FenceId)
    requires id in states && id !in done && !Near(scene, id)
    requires Progress(cfg, states, scene, told, |scene.candidates|, order, done, rows, signals)
    requires var o := StepFar(cfg, states, id, ExactContains(scene, id), scene.at);
             && Told(signals, signals', id, o.events) && signals' == signals + Tagged(id, o.events)
             && rows' == if o.patch.Some? then rows[id := o.patch.value] else rows
    ensures Progress(cfg, states, scene, told, |scene.candidates|, order + [id], done + {id}, rows', signals')
  {
    hide StepFar, Evaluate, Half, Told, Tagged, Visited, Near;
    NextFar(scene, order, done, id);
    FarStep(cfg, states, scene, id);
    OneMore(cfg, states, scene, told, done, rows, signals, id, rows', signals');
    TellOneMore(cfg, states, scene, order, id);
  }

  lemma AllProgress(cfg: Config, states: Rows, scene: Scene, told: seq<Signal>, order: seq<FenceId>,
                    done: set<FenceId>, rows: Rows, signals: seq<Signal>)
    requires Progress(cfg, states, scene, told, |scene.candidates|, order, done, rows, signals)
    requires forall id :: id in done <==> Near(scene, id) || id in states
    ensures Processed(cfg, states, scene, rows)
    ensures forall id :: SignalsOf(signals, id) == SignalsOf(told, id) + Evaluate(cfg, states, scene, id).events
    ensures CandidatesFirst(scene, states, order) && signals == told + TellAll(cfg, states, scene, order)
  {
    hide Near, Evaluate, Half, Visited, Processed;
    AllVisited(scene, states, order, done);
    AllDone(cfg, states, scene, told, done, rows, signals);
  }

  // The fences visited, with the first n candidates in front.
  ghost predicate Visited(scene: Scene, n: nat, order: seq<FenceId>, done: set<FenceId>) {
    && n <= |scene.candidates| && n <= |order|
    && (forall i :: 0 <= i < n ==> order[i] == scene.candidates[i].id)
    && (forall i, j :: 0 <= i < j < |order| ==> order[i] != order[j])
    && (forall id :: id in order <==> id in done)
  }

  ghost function CandidateIds(scene: Scene, n: nat): set<FenceId>
    requires n <= |scene.candidates|
  {
    set i | 0 <= i < n :: scene.candidates[i].id
  }

  lemma NothingVisited(scene: Scene)
    ensures Visited(scene, 0, [], {})
  {
  }

  lemma NextCandidate(scene: Scene, i: nat, order: seq<FenceId>, done: set<FenceId>)
    requires Consistent(scene) && i < |scene.candidates| && |order| == i
    requires Visited(scene, i, order, done) && done == CandidateIds(scene, i)
    ensures var id := scene.candidates[i].id;
            && id !in done && Visited(scene, i + 1, order + [id], done + {id})
            && done + {id} == CandidateIds(scene, i + 1)
  {
    var id := scene.candidates[i].id;
    assert forall k :: 0 <= k < i ==> scene.candidates[k].id != id;
  }

  lemma NextFar(scene: Scene, order: seq<FenceId>, done: set<FenceId>, id: FenceId)
    requires Visited(scene, |scene.candidates|, order, done) && id !in done
    ensures Visited(scene, |scene.candidates|, order + [id], done + {id})
  {
  }

  lemma AllCandidates(scene: Scene)
    ensures forall id :: id in CandidateIds(scene, |scene.candidates|) <==> Near(scene, id)
  {
  }

  lemma AllVisited(scene: Scene, rows: Rows, order: seq<FenceId>, done: set<FenceId>)
    requires Visited(scene, |scene.candidates|, order, done)
    requires forall id :: id in done <==> Near(scene, id) || id in rows
    ensures CandidatesFirst(scene, rows, order)
  {
    hide Near;
  }

  // Halfway through a position: a fence is done, or untouched.
  ghost predicate HalfFor(cfg: Config, states: Rows, scene: Scene, told: seq<Signal>, done: bool,
                          rows: Rows, signals: seq<Signal>, id: FenceId)
  {
    if done then
      && RowAfter(cfg, states, scene, id, rows)
      && SignalsOf(signals, id) == SignalsOf(told, id) + Evaluate(cfg, states, scene, id).events
    else
      && (id in rows <==> id in states) && (id in rows ==> rows[id] == states[id])
      && SignalsOf(signals, id) == SignalsOf(told, id)
  }

  ghost predicate Half(cfg: Config, states: Rows, scene: Scene, told: seq<Signal>, done: set<FenceId>,
                       rows: Rows, signals: seq<Signal>)
  {
    forall id :: HalfFor(cfg, states, scene, told, id in done, rows, signals, id)
  }

  lemma NothingDone(cfg: Config, states: Rows, scene: Scene, told: seq<Signal>)
    ensures Half(cfg, states, scene, told, {}, states, told)
  {
  }

  lemma OneMore(cfg: Config, states: Rows, scene: Scene, told: seq<Signal>, done: set<FenceId>,
                rows: Rows, signals: seq<Signal>, id: FenceId, rows': Rows, signals': seq<Signal>)
    requires Half(cfg, states, scene, told, done, rows, signals) && id !in done
    requires Told(signals, signals', id, Evaluate(cfg, states, scene, id).events)
    requires var p := Evaluate(cfg, states, scene, id).patch;
             rows' == if p.Some? then rows[id := p.value] else rows
    ensures Half(cfg, states, scene, told, done + {id}, rows', signals')
  {
    hide Evaluate, HalfFor, Told;
    forall f ensures HalfFor(cfg, states, scene, told, f in done + {id}, rows', signals', f) {
      OneMoreFor(cfg, states, scene, told, f in done, rows, signals, id, rows', signals', f);
    }
  }

  lemma OneMoreFor(cfg: Config, states: Rows, scene: Scene, told: seq<Signal>, done: bool,
                   rows: Rows, signals: seq<Signal>, id: FenceId, rows': Rows, signals': seq<Signal>, f: FenceId)
    requires HalfFor(cfg, states, scene, told, done, rows, signals, f) && (f == id ==> !done)
    requires Told(signals, signals', id, Evaluate(cfg, states, scene, id).events)
    requires var p := Evaluate(cfg, states, scene, id).patch;
             rows' == if p.Some? then rows[id := p.value] else rows
    ensures HalfFor(cfg, states, scene, told, done || f == id, rows', signals', f)
  {
    hide Evaluate;
    assert SignalsOf(signals, f) + [] == SignalsOf(signals, f);
  }

  lemma NearStep(cfg: Config, states: Rows, scene: Scene, i: nat)
    requires Consistent(scene) && i < |scene.candidates|
    ensures var c := scene.candidates[i];
            Evaluate(cfg, states, scene, c.id) == StepFence(cfg, states, c.id, c.rule, c.contains, scene.at)
  {
  }

  lemma FarStep(cfg: Config, states: Rows, scene: Scene, id: FenceId)
    requires !Near(scene, id) && id in states
    ensures Evaluate(cfg, states, scene, id) == StepFar(cfg, states, id, ExactContains(scene, id), scene.at)
  {
  }

  lemma AllDone(cfg: Config, states: Rows, scene: Scene, told: seq<Signal>, done: set<FenceId>,
                rows: Rows, signals: seq<Signal>)
    requires Half(cfg, states, scene, told, done, rows, signals)
    requires forall id :: id in done <==> Near(scene, id) || id in states
    ensures Processed(cfg, states, scene, rows)
    ensures forall id :: SignalsOf(signals, id) == SignalsOf(told, id) + Evaluate(cfg, states, scene, id).events
  {
    hide StepFence, StepFar, RowAfter, Near;
    forall id
      ensures RowAfter(cfg, states, scene, id, rows)
      ensures SignalsOf(signals, id) == SignalsOf(told, id) + Evaluate(cfg, states, scene, id).events
    {
      assert HalfFor(cfg, states, scene, told, id in done, rows, signals, id);
      if id !in done {
        Untouched(cfg, states, scene, rows, id);
        assert SignalsOf(told, id) + [] == SignalsOf(told, id);
      }
    }
  }

  lemma Untouched(cfg: Config, states: Rows, scene: Scene, rows: Rows, id: FenceId)
    requires !Near(scene, id) && id !in states && id !in rows
    ensures RowAfter(cfg, states, scene, id, rows) && Evaluate(cfg, states, scene, id).events == []
  {
  }
}
