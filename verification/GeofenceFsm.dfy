// The debounce state machine of one vehicle and one geofence, and what its
// states and events mean in terms of the observations alone.
module GeofenceFsm {
  import opened Optional

  datatype Membership = Outside | CandidateIn | Inside | CandidateOut

  datatype FenceState = FenceState(
    state: Membership, confirmCount: int, enteredAt: Option<int>, dwellFiredAt: Option<int>)

  const FRESH := FenceState(Outside, 0, None, None)

  // Times are milliseconds, dwell durations seconds.
  datatype Event = Entered(at: int) | Exited(at: int, stayed: Option<int>) | Dwelled(at: int, dwellSec: int)

  datatype Alert = AlertEnter | AlertExit | AlertDwell

  datatype Rule = Rule(dwellSec: Option<int>, alertOn: set<Alert>)

  datatype Config = Config(confirmationPoints: int, dwellSeconds: int)

  datatype Obs = Obs(contains: bool, at: int)

  function Max(a: int, b: int): (m: int)
    ensures m >= a && m >= b && m in {a, b}
  {
    if a >= b then a else b
  }

  function Window(cfg: Config): (n: nat)
    ensures n >= 1 && (cfg.confirmationPoints >= 1 ==> n == cfg.confirmationPoints)
    ensures cfg.confirmationPoints < 1 ==> n == 1
  {
    Max(1, cfg.confirmationPoints)
  }

  function Threshold(cfg: Config, rule: Rule): int {
    Max(1, if rule.dwellSec.Some? then rule.dwellSec.value else cfg.dwellSeconds)
  }

  // Milliseconds to the nearest second, halves up.
  function Seconds(ms: int): (s: int)
    ensures 1000 * s - 500 <= ms < 1000 * s + 500
  {
    (ms + 500) / 1000
  }

  // ----- the machine -----

  function ConfirmEnter(s: FenceState, at: int): FenceState {
    FenceState(Inside, 0, Some(at), None)
  }

  function ConfirmExit(s: FenceState): FenceState {
    FenceState(Outside, 0, s.enteredAt, None)
  }

  function ExitEvent(s: FenceState, at: int): Event {
    Exited(at, if s.enteredAt.Some? then Some(Max(0, Seconds(at - s.enteredAt.value))) else None)
  }

  predicate DwellDue(s: FenceState, cfg: Config, rule: Rule, at: int) {
    && s.state.Inside? && s.dwellFiredAt.None? && s.enteredAt.Some?
    && AlertDwell in rule.alertOn
    && at - s.enteredAt.value >= 1000 * Threshold(cfg, rule)
  }

  function CheckDwell(s: FenceState, cfg: Config, rule: Rule, at: int): (FenceState, seq<Event>) {
    if DwellDue(s, cfg, rule, at)
    then (s.(dwellFiredAt := Some(at)), [Dwelled(at, Max(1, Seconds(at - s.enteredAt.value)))])
    else (s, [])
  }

  function Advance(s: FenceState, cfg: Config, rule: Rule, o: Obs): (FenceState, seq<Event>) {
    var n := Window(cfg);
    match s.state
    case Outside =>
      if !o.contains then (s, [])
      else if n <= 1 then (ConfirmEnter(s, o.at), [Entered(o.at)])
      else (s.(state := CandidateIn, confirmCount := 1), [])
    case CandidateIn =>
      if !o.contains then (s.(state := Outside, confirmCount := 0), [])
      else if s.confirmCount + 1 >= n then (ConfirmEnter(s, o.at), [Entered(o.at)])
      else (s.(confirmCount := s.confirmCount + 1), [])
    case Inside =>
      if o.contains then CheckDwell(s, cfg, rule, o.at)
      else if n <= 1 then (ConfirmExit(s), [ExitEvent(s, o.at)])
      else (s.(state := CandidateOut, confirmCount := 1), [])
    case CandidateOut =>
      if o.contains then CheckDwell(s.(state := Inside, confirmCount := 0), cfg, rule, o.at)
      else if s.confirmCount + 1 >= n then (ConfirmExit(s), [ExitEvent(s, o.at)])
      else (s.(confirmCount := s.confirmCount + 1), [])
  }

  // The state after the first k observations of a history.
  function Run(cfg: Config, rule: Rule, h: seq<Obs>, k: nat): FenceState
    requires k <= |h|
  {
    if k == 0 then FRESH else Advance(Run(cfg, rule, h, k - 1), cfg, rule, h[k - 1]).0
  }

  // The events of observation k of a history.
  function EventsAt(cfg: Config, rule: Rule, h: seq<Obs>, k: nat): seq<Event>
    requires k < |h|
  {
    Advance(Run(cfg, rule, h, k), cfg, rule, h[k]).1
  }

  // ----- the meaning, without the machine -----

  ghost predicate Uniform(h: seq<Obs>, from: nat, to: nat)
    requires from <= to <= |h|
  {
    forall i, j :: from <= i < j < to ==> h[i].contains == h[j].contains
  }

  // The value of the most recent n equal consecutive observations among the
  // first k, or outside.
  ghost function Confirmed(h: seq<Obs>, k: nat, n: nat): bool
    requires n >= 1 && k <= |h|
  {
    if k < n then false
    else if Uniform(h, k - n, k) then h[k - 1].contains
    else Confirmed(h, k - 1, n)
  }

  // The length of the run of equal observations that ends the first k.
  function Trailing(h: seq<Obs>, k: nat): (t: nat)
    requires k <= |h|
    ensures t <= k && (t == 0 <==> k == 0)
  {
    if k <= 1 then k
    else if h[k - 1].contains == h[k - 2].contains then Trailing(h, k - 1) + 1
    else 1
  }

  // Where the vehicle last came to be confirmed inside.
  ghost function LastEntry(h: seq<Obs>, k: nat, n: nat): (e: Option<nat>)
    requires n >= 1 && k <= |h|
    ensures e.Some? ==> e.value < k
  {
    if k == 0 then None
    else if Confirmed(h, k, n) && !Confirmed(h, k - 1, n) then Some(k - 1)
    else LastEntry(h, k - 1, n)
  }

  // Observation i is inside and at least the threshold after the entry e.
  ghost predicate Due(h: seq<Obs>, e: nat, i: nat, threshold: int)
    requires e < |h| && i < |h|
  {
    h[i].contains && h[i].at - h[e].at >= 1000 * threshold
  }

  ghost predicate FirstDue(h: seq<Obs>, e: nat, i: nat, threshold: int)
    requires e < |h| && i < |h|
  {
    e < i && Due(h, e, i, threshold) && forall j :: e < j < i ==> !Due(h, e, j, threshold)
  }

  // The time of the first due observation after the entry e, found by a scan.
  ghost function DueTime(h: seq<Obs>, k: nat, e: nat, threshold: int): Option<int>
    requires e < k <= |h|
  {
    if k == e + 1 then None
    else
      var earlier := DueTime(h, k - 1, e, threshold);
      if earlier.None? && Due(h, e, k - 1, threshold) then Some(h[k - 1].at) else earlier
  }

  lemma {:induction false} NoDueTime(h: seq<Obs>, k: nat, e: nat, threshold: int)
    requires e < k <= |h|
    ensures DueTime(h, k, e, threshold).None? <==> forall i :: e < i < k ==> !Due(h, e, i, threshold)
  {
    if k > e + 1 {
      NoDueTime(h, k - 1, e, threshold);
    }
  }

  lemma {:induction false} TrailingRun(h: seq<Obs>, k: nat, n: nat)
    requires 1 <= n <= k <= |h|
    ensures Trailing(h, k) >= n <==> Uniform(h, k - n, k)
  {
    if n >= 2 {
      TrailingRun(h, k - 1, n - 1);
    }
  }

  lemma ConfirmedNext(h: seq<Obs>, k: nat, n: nat)
    requires n >= 1 && k < |h|
    ensures Confirmed(h, k + 1, n) ==
            if Trailing(h, k + 1) >= n then h[k].contains else Confirmed(h, k, n)
  {
    if k + 1 >= n {
      TrailingRun(h, k + 1, n);
    }
  }

  // ----- the state means what it should -----

  function StateFor(confirmed: bool, last: bool): Membership {
    if confirmed then (if last then Inside else CandidateOut)
    else (if last then CandidateIn else Outside)
  }

  // What of a history the machine has to know.
  datatype Facts = Facts(confirmed: bool, last: bool, trailing: nat, entry: Option<int>, due: Option<int>)

  ghost function FactsOf(h: seq<Obs>, k: nat, n: nat, threshold: int): Facts
    requires n >= 1 && k <= |h|
  {
    var e := LastEntry(h, k, n);
    Facts(Confirmed(h, k, n), k > 0 && h[k - 1].contains, Trailing(h, k),
          if e.Some? then Some(h[e.value].at) else None,
          if e.Some? then DueTime(h, k, e.value, threshold) else None)
  }

  function NextFacts(f: Facts, o: Obs, n: nat, threshold: int): Facts {
    var trailing := if f.trailing > 0 && f.last == o.contains then f.trailing + 1 else 1;
    var confirmed := if trailing >= n then o.contains else f.confirmed;
    if confirmed && !f.confirmed then Facts(confirmed, o.contains, trailing, Some(o.at), None)
    else
      var due := f.entry.Some? && f.due.None? && o.contains && o.at - f.entry.value >= 1000 * threshold;
      Facts(confirmed, o.contains, trailing, f.entry, if due then Some(o.at) else f.due)
  }

  predicate ValidFacts(f: Facts, n: nat) {
    && (f.confirmed ==> f.entry.Some?)
    && (f.trailing == 0 ==> !f.last && !f.confirmed)
    && (f.trailing >= n ==> f.confirmed == f.last)
  }

  function StateOf(f: Facts, rule: Rule): FenceState {
    FenceState(StateFor(f.confirmed, f.last), if f.confirmed != f.last then f.trailing else 0,
               f.entry, if f.confirmed && AlertDwell in rule.alertOn then f.due else None)
  }

  function EventsOf(f: Facts, g: Facts, rule: Rule, at: int): seq<Event> {
    if !f.confirmed && g.confirmed then [Entered(at)]
    else if f.confirmed && !g.confirmed && f.entry.Some? then [Exited(at, Some(Max(0, Seconds(at - f.entry.value))))]
    else if f.confirmed && f.entry.Some? && AlertDwell in rule.alertOn && f.due.None? && g.due.Some? then
      [Dwelled(at, Max(1, Seconds(at - f.entry.value)))]
    else []
  }

  // One step of the machine, on facts.
  lemma AdvanceFacts(f: Facts, cfg: Config, rule: Rule, o: Obs)
    requires ValidFacts(f, Window(cfg))
    ensures var g := NextFacts(f, o, Window(cfg), Threshold(cfg, rule));
            && ValidFacts(g, Window(cfg))
            && Advance(StateOf(f, rule), cfg, rule, o) == (StateOf(g, rule), EventsOf(f, g, rule, o.at))
  {
    hide Seconds;
  }

  // One more observation, on facts.
  lemma FactsNext(h: seq<Obs>, k: nat, n: nat, threshold: int)
    requires n >= 1 && k < |h|
    ensures FactsOf(h, k + 1, n, threshold) == NextFacts(FactsOf(h, k, n, threshold), h[k], n, threshold)
  {
    hide Uniform;
    ConfirmedNext(h, k, n);
  }

  // The machine's state is a function of the history's facts.
  lemma {:induction false} RunFacts(cfg: Config, rule: Rule, h: seq<Obs>, k: nat)
    requires k <= |h|
    ensures var f := FactsOf(h, k, Window(cfg), Threshold(cfg, rule));
            ValidFacts(f, Window(cfg)) && Run(cfg, rule, h, k) == StateOf(f, rule)
  {
    if k > 0 {
      hide Uniform, Advance, NextFacts, ValidFacts, StateOf, Threshold, FactsOf;
      var n, t := Window(cfg), Threshold(cfg, rule);
      RunFacts(cfg, rule, h, k - 1);
      FactsNext(h, k - 1, n, t);
      AdvanceFacts(FactsOf(h, k - 1, n, t), cfg, rule, h[k - 1]);
    }
  }

  // Confirmed membership is the value of the latest window of equal observations,
  // and a candidate counts the trailing run.
  lemma DebounceMeaning(cfg: Config, rule: Rule, h: seq<Obs>)
    ensures var s, n, k := Run(cfg, rule, h, |h|), Window(cfg), |h|;
            && (s.state.Inside? || s.state.CandidateOut? <==> Confirmed(h, k, n))
            && (s.state.CandidateIn? || s.state.CandidateOut? <==>
                k > 0 && h[k - 1].contains != Confirmed(h, k, n))
            && (s.state.CandidateIn? || s.state.CandidateOut? ==> s.confirmCount == Trailing(h, k) < n)
  {
    hide Uniform, Threshold;
    RunFacts(cfg, rule, h, |h|);
  }

  // The events of observation k, in terms of the observations alone.
  ghost predicate EventsMean(events: seq<Event>, cfg: Config, rule: Rule, h: seq<Obs>, k: nat)
    requires k < |h|
  {
    var n, at := Window(cfg), h[k].at;
    var before, after, e := Confirmed(h, k, n), Confirmed(h, k + 1, n), LastEntry(h, k, n);
    if !before && after then events == [Entered(at)]
    else if before && !after then e.Some? && events == [Exited(at, Some(Max(0, Seconds(at - h[e.value].at))))]
    else if before && after && e.Some? && AlertDwell in rule.alertOn && FirstDue(h, e.value, k, Threshold(cfg, rule))
    then events == [Dwelled(at, Max(1, Seconds(at - h[e.value].at)))]
    else events == []
  }

  // Every event of every run, decided by the observations alone.
  lemma EventMeaning(cfg: Config, rule: Rule, h: seq<Obs>, k: nat)
    requires k < |h|
    ensures EventsMean(EventsAt(cfg, rule, h, k), cfg, rule, h, k)
  {
    hide Uniform, Advance, Threshold, Seconds;
    var n, t := Window(cfg), Threshold(cfg, rule);
    var e := LastEntry(h, k, n);
    RunFacts(cfg, rule, h, k);
    FactsNext(h, k, n, t);
    AdvanceFacts(FactsOf(h, k, n, t), cfg, rule, h[k]);
    if e.Some? {
      NoDueTime(h, k, e.value, t);
    }
  }

  // Observation i is inside, and d seconds and at least one after the entry e.
  ghost predicate Stayed(h: seq<Obs>, e: nat, i: nat, d: int)
    requires e < |h| && i < |h|
  {
    h[i].contains && h[i].at - h[e].at >= 1000 * d && h[i].at - h[e].at >= 1000
  }

  // A fence's own dwell time, or the default where it has none.
  ghost predicate DwellTime(cfg: Config, rule: Rule, d: int) {
    rule.dwellSec == Some(d) || (rule.dwellSec.None? && cfg.dwellSeconds == d)
  }

  lemma DueStayed(cfg: Config, rule: Rule, h: seq<Obs>, e: nat, i: nat, d: int)
    requires e < |h| && i < |h| && DwellTime(cfg, rule, d)
    ensures Due(h, e, i, Threshold(cfg, rule)) <==> Stayed(h, e, i, d)
  {
  }

  lemma {:induction false} ConfirmedHasEntry(h: seq<Obs>, k: nat, n: nat)
    requires n >= 1 && k <= |h| && Confirmed(h, k, n)
    ensures LastEntry(h, k, n).Some?
  {
    hide Uniform;
    if k > 0 && Confirmed(h, k - 1, n) {
      ConfirmedHasEntry(h, k - 1, n);
    }
  }

  // Inside and staying inside, the event of an observation is a dwell, and that
  // exactly where the fence alerts of dwells and its own dwell time, or the default,
  // has passed since the entry for the first time.
  lemma DwellExactly(cfg: Config, rule: Rule, h: seq<Obs>, k: nat, d: int)
    requires k < |h| && DwellTime(cfg, rule, d)
    requires Confirmed(h, k, Window(cfg)) && Confirmed(h, k + 1, Window(cfg))
    ensures LastEntry(h, k, Window(cfg)).Some?
    ensures var events, e := EventsAt(cfg, rule, h, k), LastEntry(h, k, Window(cfg)).value;
            && (events != [] <==>
                && AlertDwell in rule.alertOn && Stayed(h, e, k, d)
                && forall j :: e < j < k ==> !Stayed(h, e, j, d))
            && (events != [] ==> events == [Dwelled(h[k].at, Seconds(h[k].at - h[e].at))])
  {
    hide Uniform, EventsAt, Threshold, Seconds;
    EventMeaning(cfg, rule, h, k);
    ConfirmedHasEntry(h, k, Window(cfg));
    var e := LastEntry(h, k, Window(cfg)).value;
    forall i: nat | i <= k ensures Due(h, e, i, Threshold(cfg, rule)) <==> Stayed(h, e, i, d) {
      DueStayed(cfg, rule, h, e, i, d);
    }
    hide Due;
    AtLeastOne(h[k].at - h[e].at);
  }

  lemma AtLeastOne(ms: int)
    ensures ms >= 1000 ==> Max(1, Seconds(ms)) == Seconds(ms)
  {
  }

  // ----- the event grammar -----

  // The membership change that observation k confirms, as the value changed to.
  ghost function Change(h: seq<Obs>, k: nat, n: nat): seq<bool>
    requires n >= 1 && k < |h|
  {
    var now := Confirmed(h, k + 1, n);
    if now != Confirmed(h, k, n) then [now] else []
  }

  ghost function Crossings(h: seq<Obs>, k: nat, n: nat): seq<bool>
    requires n >= 1 && k <= |h|
  {
    if k == 0 then [] else Crossings(h, k - 1, n) + Change(h, k - 1, n)
  }

  // The enter and exit events of a run, true for an enter.
  function MembershipOf(e: Event): seq<bool> {
    match e
    case Entered(_) => [true]
    case Exited(_, _) => [false]
    case Dwelled(_, _) => []
  }

  function Memberships(events: seq<Event>): seq<bool> {
    if events == [] then [] else MembershipOf(events[0]) + Memberships(events[1..])
  }

  function EventMemberships(cfg: Config, rule: Rule, h: seq<Obs>, k: nat): seq<bool>
    requires k <= |h|
  {
    if k == 0 then []
    else EventMemberships(cfg, rule, h, k - 1) + Memberships(EventsAt(cfg, rule, h, k - 1))
  }

  lemma LastCrossing(cfg: Config, rule: Rule, h: seq<Obs>, k: nat)
    requires k < |h|
    ensures Memberships(EventsAt(cfg, rule, h, k)) == Change(h, k, Window(cfg))
  {
    hide Uniform, Threshold, Seconds, FirstDue, EventsAt;
    EventMeaning(cfg, rule, h, k);
  }

  lemma {:induction false} EventsAreCrossings(cfg: Config, rule: Rule, h: seq<Obs>, k: nat)
    requires k <= |h|
    ensures EventMemberships(cfg, rule, h, k) == Crossings(h, k, Window(cfg))
  {
    hide Change, EventsAt, Window, MembershipOf, Uniform;
    if k > 0 {
      EventsAreCrossings(cfg, rule, h, k - 1);
      LastCrossing(cfg, rule, h, k - 1);
    }
  }

  lemma {:induction false} CrossingsAlternate(h: seq<Obs>, k: nat, n: nat)
    requires n >= 1 && k <= |h|
    ensures forall i :: 0 <= i < |Crossings(h, k, n)| ==> Crossings(h, k, n)[i] == (i % 2 == 0)
    ensures |Crossings(h, k, n)| % 2 == if Confirmed(h, k, n) then 1 else 0
  {
    hide Uniform;
    if k > 0 {
      CrossingsAlternate(h, k - 1, n);
    }
  }

  // The observations that count towards the next crossing.
  ghost function Pending(h: seq<Obs>, k: nat, n: nat): nat
    requires n >= 1 && k <= |h|
  {
    if k > 0 && h[k - 1].contains != Confirmed(h, k, n) then Trailing(h, k) else 0
  }

  lemma PendingNext(h: seq<Obs>, k: nat, n: nat)
    requires n >= 1 && k < |h|
    ensures Change(h, k, n) == [] ==> Pending(h, k + 1, n) <= Pending(h, k, n) + 1
    ensures Change(h, k, n) != [] ==>
              |Change(h, k, n)| == 1 && Pending(h, k + 1, n) == 0 && Pending(h, k, n) == n - 1
  {
    hide Uniform;
    ConfirmedNext(h, k, n);
    if k > 0 {
      ConfirmedNext(h, k - 1, n);
    }
  }

  lemma StepCost(c: nat, d: nat, n: nat, p: nat, q: nat, k: nat)
    requires n >= 1 && c * n + p <= k
    requires d == 0 ==> q <= p + 1
    requires d != 0 ==> d == 1 && q == 0 && p == n - 1
    ensures (c + d) * n + q <= k + 1
  {
  }

  // Each crossing uses up a window of observations of its own.
  lemma {:induction false} CrossingsCost(h: seq<Obs>, k: nat, n: nat, c: nat)
    requires n >= 1 && k <= |h| && c == |Crossings(h, k, n)|
    ensures c * n + Pending(h, k, n) <= k
  {
    hide Pending, Change;
    if k == 0 {
      NoPending(h, n);
    } else {
      var b, d := |Crossings(h, k - 1, n)|, |Change(h, k - 1, n)|;
      CrossingsCost(h, k - 1, n, b);
      PendingNext(h, k - 1, n);
      StepCost(b, d, n, Pending(h, k - 1, n), Pending(h, k, n), k - 1);
    }
  }

  lemma NoPending(h: seq<Obs>, n: nat)
    requires n >= 1
    ensures Pending(h, 0, n) == 0
  {
  }

  // Over m observations enter and exit events strictly alternate, starting with
  // an enter, and number at most m divided by the window.
  lemma EventGrammar(cfg: Config, rule: Rule, h: seq<Obs>)
    ensures var ms := EventMemberships(cfg, rule, h, |h|);
            && (forall i :: 0 <= i < |ms| ==> ms[i] == (i % 2 == 0))
            && |ms| * Window(cfg) <= |h|
  {
    EventsAreCrossings(cfg, rule, h, |h|);
    CrossingsAlternate(h, |h|, Window(cfg));
    CrossingsCost(h, |h|, Window(cfg), |Crossings(h, |h|, Window(cfg))|);
  }

  // An occupancy, named by its entry, has at most one dwell event.
  lemma DwellOncePerOccupancy(cfg: Config, rule: Rule, h: seq<Obs>, i: nat, j: nat, d: Event, e: Event)
    requires i < j < |h| && d.Dwelled? && e.Dwelled?
    requires d in EventsAt(cfg, rule, h, i) && e in EventsAt(cfg, rule, h, j)
    ensures LastEntry(h, i, Window(cfg)) != LastEntry(h, j, Window(cfg))
  {
    hide Uniform, Threshold, Seconds, EventsAt, Due;
    EventMeaning(cfg, rule, h, i);
    EventMeaning(cfg, rule, h, j);
  }
}
