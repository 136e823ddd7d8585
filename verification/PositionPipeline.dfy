// The staged processor of inbound positions: validate, dedupe, filter, persist,
// trip-engine gate, geofences, cache, broadcast.
module PositionPipeline {

  // A coordinate as it may arrive.
  datatype Coordinate = NotFinite | At(degrees: real)

  datatype Quality = Valid | Stale | LowAccuracy | SuspectJump

  datatype Position = Position(tenantId: string, vehicleId: string, messageId: string,
                               latitude: Coordinate, longitude: Coordinate, capturedAt: int, quality: Quality)

  type Vehicle = (string, string)

  datatype Config = Config(staleAfterSeconds: int, futureThresholdSeconds: int, prevTtlSeconds: int)

  const MAX_SEEN := 10_000

  // The previous position of a vehicle, as Redis holds it until its TTL is over.
  datatype Prev = Prev(capturedAt: int, setAt: int)

  // What the outside does, if asked: the plausibility filter's verdict, whether
  // the position is persisted, whether Redis gives and takes the previous
  // position, and whether the trip engine fails before its gate. (One that fails
  // behind it does not get to write the previous position.)
  datatype Answers = Answers(verdict: Quality, persisted: bool, prevRead: bool, prevWritten: bool, engineFails: bool)

  // seen is the dedupe window, oldest first; marks is every key ever marked. fed
  // went to the geofence evaluator, live was cached and broadcast.
  datatype State = State(seen: seq<string>, marks: seq<string>, persisted: seq<Position>,
                         prev: map<Vehicle, Prev>, fed: seq<Position>, live: seq<Position>)

  const START := State([], [], [], map[], [], [])

  function VehicleOf(p: Position): Vehicle { (p.tenantId, p.vehicleId) }

  function KeyOf(p: Position): string { p.vehicleId + ":" + p.messageId }

  predicate InRange(c: Coordinate, limit: real) { c.At? && -limit <= c.degrees <= limit }

  predicate Accepted(p: Position, config: Config, now: int) {
    && InRange(p.latitude, 90.0) && InRange(p.longitude, 180.0)
    && now - p.capturedAt >= -1000 * config.futureThresholdSeconds
  }

  // The freshness gate's quality, which the filter's verdict cannot lift.
  function Graded(p: Position, verdict: Quality, config: Config, now: int): Position {
    if now - p.capturedAt > 1000 * config.staleAfterSeconds then p.(quality := Stale)
    else p.(quality := if verdict.Stale? then Valid else verdict)
  }

  predicate Duplicate(s: State, p: Position) { KeyOf(p) in s.seen }

  function Marked(seen: seq<string>, key: string): seq<string> {
    var more := if key in seen then seen else seen + [key];
    if |more| > MAX_SEEN then more[1..] else more
  }

  function PrevOf(s: State, v: Vehicle, a: Answers, config: Config, now: int): (prev: seq<Prev>) {
    if a.prevRead && v in s.prev && now < s.prev[v].setAt + 1000 * config.prevTtlSeconds then [s.prev[v]] else []
  }

  // The trip engine's gate; an engine that fails lets the position pass.
  predicate OutOfOrder(s: State, p: Position, a: Answers, config: Config, now: int) {
    var prev := PrevOf(s, VehicleOf(p), a, config, now);
    !a.engineFails && prev != [] && p.capturedAt < prev[0].capturedAt
  }

  predicate LiveQuality(p: Position) { !p.quality.Stale? && !p.quality.SuspectJump? }

  // A persisted position goes on through the engine to the map.
  function Show(s: State, p: Position, a: Answers, config: Config, now: int): State {
    if OutOfOrder(s, p, a, config, now) then s
    else s.(prev := if a.engineFails || !a.prevWritten then s.prev
                    else s.prev[VehicleOf(p) := Prev(p.capturedAt, now)],
            fed := if p.quality.Stale? then s.fed else s.fed + [p],
            live := if LiveQuality(p) then s.live + [p] else s.live)
  }

  function Recorded(s: State, p: Position): State {
    s.(persisted := s.persisted + [p], seen := Marked(s.seen, KeyOf(p)), marks := s.marks + [KeyOf(p)])
  }

  // Past the gates that drop it, and stored.
  predicate Admitted(s: State, p: Position, a: Answers, config: Config, now: int) {
    Accepted(p, config, now) && !Duplicate(s, p) && a.persisted
  }

  function Process(s: State, p: Position, a: Answers, config: Config, now: int): State {
    if !Admitted(s, p, a, config, now) then s
    else
      var q := Graded(p, a.verdict, config, now);
      Show(Recorded(s, q), q, a, config, now)
  }

  // ----- runs -----

  datatype Arrival = Arrival(position: Position, answers: Answers, now: int)

  function Receive(s: State, e: Arrival, config: Config): State {
    Process(s, e.position, e.answers, config, e.now)
  }

  function Run(arrivals: seq<Arrival>, n: nat, config: Config): State
    requires n <= |arrivals|
  {
    if n == 0 then START
    else Receive(Run(arrivals, n - 1, config), arrivals[n - 1], config)
  }

  // ----- the dedupe window -----

  ghost predicate Window(s: State) {
    && |s.seen| == (if |s.marks| < MAX_SEEN then |s.marks| else MAX_SEEN)
    && s.seen == s.marks[|s.marks| - |s.seen|..]
    && (forall i, j :: 0 <= i < j < |s.seen| ==> s.seen[i] != s.seen[j])
  }

  lemma ProcessKeepsWindow(s: State, p: Position, a: Answers, config: Config, now: int)
    requires Window(s)
    ensures Window(Process(s, p, a, config, now))
  {
    if Admitted(s, p, a, config, now) {
      var q := Graded(p, a.verdict, config, now);
      RecordedKeepsWindow(s, q);
    }
  }

  lemma StartWindow()
    ensures Window(START)
  {
  }

  lemma RecordedKeepsWindow(s: State, p: Position)
    requires Window(s) && !Duplicate(s, p)
    ensures Window(Recorded(s, p))
  {
    var r, d := Recorded(s, p), |s.marks| - |s.seen|;
    assert s.seen + [KeyOf(p)] == r.marks[d..];
    assert r.marks[d..][1..] == r.marks[d + 1..];
  }

  // After every run seen is exactly the last ten thousand keys marked.
  lemma {:induction false} RunWindow(arrivals: seq<Arrival>, n: nat, config: Config)
    requires n <= |arrivals|
    ensures Window(Run(arrivals, n, config))
  {
    if n > 0 {
      hide Window;
      RunWindow(arrivals, n - 1, config);
      var e := arrivals[n - 1];
      ProcessKeepsWindow(Run(arrivals, n - 1, config), e.position, e.answers, config, e.now);
    } else {
      assert Run(arrivals, n, config) == START;
    }
  }

  // A redelivery within the window does nothing, whatever the outside does.
  lemma RedeliveryDoesNothing(arrivals: seq<Arrival>, n: nat, config: Config, p: Position, a: Answers, now: int, i: nat)
    requires n <= |arrivals|
    requires var marks := Run(arrivals, n, config).marks; i < |marks| && marks[i] == KeyOf(p) && |marks| - i <= MAX_SEEN
    ensures Process(Run(arrivals, n, config), p, a, config, now) == Run(arrivals, n, config)
  {
    var s := Run(arrivals, n, config);
    RunWindow(arrivals, n, config);
    assert s.seen[i - (|s.marks| - |s.seen|)] == s.marks[i];
  }

  // A delivery that could not be persisted is forgotten: every run goes on as if it
  // had never come, so that the retry, and all else, meets the same state.
  lemma {:induction false} FailedPersistForgotten(arrivals: seq<Arrival>, i: nat, n: nat, config: Config)
    requires i < n <= |arrivals| && !arrivals[i].answers.persisted
    ensures Run(arrivals, n, config) == Run(arrivals[..i] + arrivals[i + 1..], n - 1, config)
    decreases n
  {
    var rest := arrivals[..i] + arrivals[i + 1..];
    if n == i + 1 {
      SameRun(arrivals, rest, i, config);
    } else {
      hide Receive;
      FailedPersistForgotten(arrivals, i, n - 1, config);
      assert rest[n - 2] == arrivals[n - 1];
    }
  }

  lemma {:induction false} SameRun(one: seq<Arrival>, two: seq<Arrival>, n: nat, config: Config)
    requires n <= |one| && n <= |two| && forall j :: 0 <= j < n ==> one[j] == two[j]
    ensures Run(one, n, config) == Run(two, n, config)
  {
    if n > 0 {
      hide Receive;
      SameRun(one, two, n - 1, config);
    }
  }

  // ----- one arrival, spelled out -----

  // Finite coordinates on the globe, and no capture time too far in the future.
  ghost predicate Plausible(p: Position, config: Config, now: int) {
    && p.latitude.At? && -90.0 <= p.latitude.degrees <= 90.0
    && p.longitude.At? && -180.0 <= p.longitude.degrees <= 180.0
    && p.capturedAt <= now + 1000 * config.futureThresholdSeconds
  }

  // Marked among the last ten thousand.
  ghost predicate MarkedLately(marks: seq<string>, key: string) {
    exists i :: 0 <= i < |marks| && |marks| <= i + 10_000 && marks[i] == key
  }

  // Old positions are stale whatever the filter says, and others are what it says,
  // but never stale.
  ghost predicate GradedAs(q: Position, p: Position, verdict: Quality, config: Config, now: int) {
    && q == p.(quality := q.quality)
    && (now > p.capturedAt + 1000 * config.staleAfterSeconds ==> q.quality == Stale)
    && (now <= p.capturedAt + 1000 * config.staleAfterSeconds ==>
          q.quality == if verdict == Stale then Valid else verdict)
  }

  // The gate reads a previous position of the vehicle that is newer.
  ghost predicate KnowsNewer(s: State, p: Position, a: Answers, config: Config, now: int) {
    var v := (p.tenantId, p.vehicleId);
    && !a.engineFails && a.prevRead && v in s.prev && now - s.prev[v].setAt < 1000 * config.prevTtlSeconds
    && p.capturedAt < s.prev[v].capturedAt
  }

  // From s to t: a position q was stored and its key marked; behind a gate that knows
  // no newer one it was remembered as the previous, fed to the geofences unless
  // stale, and shown unless stale or a suspected jump.
  ghost predicate Taken(s: State, t: State, q: Position, a: Answers, config: Config, now: int) {
    var passed := !KnowsNewer(s, q, a, config, now);
    && t.persisted == s.persisted + [q] && t.marks == s.marks + [q.vehicleId + ":" + q.messageId]
    && t.fed == s.fed + (if passed && q.quality != Stale then [q] else [])
    && t.live == s.live + (if passed && q.quality in {Valid, LowAccuracy} then [q] else [])
    && t.prev == if passed && !a.engineFails && a.prevWritten
                 then s.prev[(q.tenantId, q.vehicleId) := Prev(q.capturedAt, now)] else s.prev
  }

  lemma GradedExactly(p: Position, verdict: Quality, config: Config, now: int)
    ensures GradedAs(Graded(p, verdict, config, now), p, verdict, config, now)
  {
  }

  lemma SeenExactly(s: State, p: Position)
    requires Window(s)
    ensures Duplicate(s, p) <==> MarkedLately(s.marks, p.vehicleId + ":" + p.messageId)
  {
    var d, key := |s.marks| - |s.seen|, p.vehicleId + ":" + p.messageId;
    if Duplicate(s, p) {
      var i :| 0 <= i < |s.seen| && s.seen[i] == KeyOf(p);
      assert s.marks[d + i] == key;
    }
    if MarkedLately(s.marks, key) {
      var i :| 0 <= i < |s.marks| && |s.marks| <= i + 10_000 && s.marks[i] == key;
      assert s.seen[i - d] == key;
    }
  }

  lemma ShowExactly(s: State, q: Position, a: Answers, config: Config, now: int)
    ensures Taken(s, Show(Recorded(s, q), q, a, config, now), q, a, config, now)
  {
    assert s.fed + [] == s.fed && s.live + [] == s.live;
  }

  lemma AcceptedExactly(p: Position, config: Config, now: int)
    ensures Accepted(p, config, now) <==> Plausible(p, config, now)
  {
  }

  // It is stored, and goes on, exactly when it is plausible, not marked lately, and
  // can be persisted; otherwise nothing at all happens.
  ghost predicate ArrivesAs(s: State, t: State, e: Arrival, config: Config) {
    var p := e.position;
    if Plausible(p, config, e.now) && !MarkedLately(s.marks, p.vehicleId + ":" + p.messageId) && e.answers.persisted
    then exists q :: GradedAs(q, p, e.answers.verdict, config, e.now) && Taken(s, t, q, e.answers, config, e.now)
    else t == s
  }

  lemma ReceiveExactly(s: State, e: Arrival, config: Config)
    requires Window(s)
    ensures ArrivesAs(s, Receive(s, e, config), e, config)
  {
    var p := e.position;
    var q := Graded(p, e.answers.verdict, config, e.now);
    SeenExactly(s, p);
    GradedExactly(p, e.answers.verdict, config, e.now);
    AcceptedExactly(p, config, e.now);
    ShowExactly(s, q, e.answers, config, e.now);
    hide Window, MarkedLately, Duplicate, Show, Recorded, Graded, GradedAs, Taken, Accepted, Plausible;
  }

  // In every run.
  lemma ArrivalExactly(arrivals: seq<Arrival>, n: nat, config: Config)
    requires n < |arrivals|
    ensures ArrivesAs(Run(arrivals, n, config), Run(arrivals, n + 1, config), arrivals[n], config)
  {
    hide Window, ArrivesAs, Receive;
    RunWindow(arrivals, n, config);
    ReceiveExactly(Run(arrivals, n, config), arrivals[n], config);
  }

  // The marks of a run are the keys of what is stored.
  lemma {:induction false} MarksAreStored(arrivals: seq<Arrival>, n: nat, config: Config)
    requires n <= |arrivals|
    ensures var s := Run(arrivals, n, config);
            |s.marks| == |s.persisted| && forall i :: 0 <= i < |s.marks| ==> s.marks[i] == KeyOf(s.persisted[i])
  {
    if n > 0 {
      MarksAreStored(arrivals, n - 1, config);
      ArrivalExactly(arrivals, n - 1, config);
      hide Receive, Plausible, MarkedLately, GradedAs;
    }
  }

  // In every run, of any ten thousand positions stored in a row no two are one
  // message of one vehicle.
  lemma {:induction false} StoredOnce(arrivals: seq<Arrival>, n: nat, config: Config, i: nat, j: nat)
    requires n <= |arrivals| && i < j < |Run(arrivals, n, config).persisted| && j <= i + 10_000
    ensures var stored := Run(arrivals, n, config).persisted;
            KeyOf(stored[i]) != KeyOf(stored[j])
  {
    var s := Run(arrivals, n - 1, config);
    MarksAreStored(arrivals, n - 1, config);
    ArrivalExactly(arrivals, n - 1, config);
    hide Receive, Plausible;
    if j < |s.persisted| {
      hide MarkedLately, GradedAs;
      StoredOnce(arrivals, n - 1, config, i, j);
    } else {
      assert s.marks[i] == KeyOf(s.persisted[i]);
    }
  }

  // ----- the live view of one vehicle -----

  ghost predicate InOrder(log: seq<Position>, v: Vehicle) {
    forall i, j :: 0 <= i < j < |log| && VehicleOf(log[i]) == v && VehicleOf(log[j]) == v ==>
      log[i].capturedAt <= log[j].capturedAt
  }

  ghost predicate NoneNewer(log: seq<Position>, v: Vehicle, capturedAt: int) {
    forall i :: 0 <= i < |log| && VehicleOf(log[i]) == v ==> log[i].capturedAt <= capturedAt
  }

  // The gate knows a previous position no older than anything shown or fed.
  ghost predicate Guarded(s: State, v: Vehicle) {
    && InOrder(s.live, v) && InOrder(s.fed, v)
    && (if v in s.prev then NoneNewer(s.live, v, s.prev[v].capturedAt) && NoneNewer(s.fed, v, s.prev[v].capturedAt)
        else (forall p :: p in s.live || p in s.fed ==> VehicleOf(p) != v))
  }

  // The gate is blind: the engine fails, or the previous position is unreadable
  // or has expired since the vehicle was last heard.
  ghost predicate Blind(s: State, v: Vehicle, a: Answers, config: Config, now: int) {
    a.engineFails || (v in s.prev && PrevOf(s, v, a, config, now) == [])
  }

  // An arrival the gate watches and remembers.
  ghost predicate Watched(s: State, p: Position, a: Answers, config: Config, now: int) {
    Admitted(s, p, a, config, now) ==> !Blind(s, VehicleOf(p), a, config, now) && a.prevWritten
  }

  lemma AppendInOrder(log: seq<Position>, v: Vehicle, p: Position)
    requires InOrder(log, v) && (VehicleOf(p) == v ==> NoneNewer(log, v, p.capturedAt))
    ensures InOrder(log + [p], v)
    ensures VehicleOf(p) == v ==> NoneNewer(log + [p], v, p.capturedAt)
  {
  }

  lemma Raise(log: seq<Position>, v: Vehicle, low: int, high: int)
    requires NoneNewer(log, v, low) && low <= high
    ensures NoneNewer(log, v, high)
  {
  }

  lemma NoneOfVehicle(s: State, v: Vehicle, capturedAt: int)
    requires Guarded(s, v) && v !in s.prev
    ensures NoneNewer(s.live, v, capturedAt) && NoneNewer(s.fed, v, capturedAt)
  {
    assert forall i :: 0 <= i < |s.live| ==> s.live[i] in s.live;
    assert forall i :: 0 <= i < |s.fed| ==> s.fed[i] in s.fed;
  }

  lemma OtherKeepsGuarded(s: State, p: Position, a: Answers, config: Config, now: int, v: Vehicle)
    requires Guarded(s, v) && VehicleOf(p) != v
    ensures Guarded(Show(s, p, a, config, now), v)
  {
    hide OutOfOrder, VehicleOf;
    AppendInOrder(s.live, v, p);
    AppendInOrder(s.fed, v, p);
  }

  lemma ShowKeepsGuarded(s: State, p: Position, a: Answers, config: Config, now: int)
    requires Guarded(s, VehicleOf(p)) && !Blind(s, VehicleOf(p), a, config, now) && a.prevWritten
    ensures Guarded(Show(s, p, a, config, now), VehicleOf(p))
  {
    var v := VehicleOf(p);
    if !OutOfOrder(s, p, a, config, now) {
      if v in s.prev {
        Raise(s.live, v, s.prev[v].capturedAt, p.capturedAt);
        Raise(s.fed, v, s.prev[v].capturedAt, p.capturedAt);
      } else {
        NoneOfVehicle(s, v, p.capturedAt);
      }
      hide NoneNewer, InOrder;
      AppendInOrder(s.live, v, p);
      AppendInOrder(s.fed, v, p);
    }
  }

  lemma ProcessKeepsGuarded(s: State, p: Position, a: Answers, config: Config, now: int, v: Vehicle)
    requires Guarded(s, v) && (VehicleOf(p) == v ==> Watched(s, p, a, config, now))
    ensures Guarded(Process(s, p, a, config, now), v)
  {
    if Admitted(s, p, a, config, now) {
      var q := Graded(p, a.verdict, config, now);
      hide Show;
      if VehicleOf(p) == v {
        ShowKeepsGuarded(Recorded(s, q), q, a, config, now);
      } else {
        OtherKeepsGuarded(Recorded(s, q), q, a, config, now, v);
      }
    }
  }

  // Every arrival of the vehicle among the first n is watched.
  ghost predicate WatchedRun(arrivals: seq<Arrival>, n: nat, config: Config, v: Vehicle)
    requires n <= |arrivals|
  {
    forall i :: 0 <= i < n && VehicleOf(arrivals[i].position) == v ==>
      Watched(Run(arrivals, i, config), arrivals[i].position, arrivals[i].answers, config, arrivals[i].now)
  }

  lemma {:induction false} RunGuarded(arrivals: seq<Arrival>, n: nat, config: Config, v: Vehicle)
    requires n <= |arrivals| && WatchedRun(arrivals, n, config, v)
    ensures Guarded(Run(arrivals, n, config), v)
  {
    if n > 0 {
      hide Guarded, Watched;
      RunGuarded(arrivals, n - 1, config, v);
      var e := arrivals[n - 1];
      ProcessKeepsGuarded(Run(arrivals, n - 1, config), e.position, e.answers, config, e.now, v);
    } else {
      assert Run(arrivals, n, config) == START;
    }
  }

  // Over any order of arrival, what is cached and broadcast of a vehicle never
  // goes back in time, nor what its geofences are fed, while the gate watches.
  lemma NeverRegresses(arrivals: seq<Arrival>, n: nat, config: Config, v: Vehicle)
    requires n <= |arrivals| && WatchedRun(arrivals, n, config, v)
    ensures InOrder(Run(arrivals, n, config).live, v)
    ensures InOrder(Run(arrivals, n, config).fed, v)
  {
    RunGuarded(arrivals, n, config, v);
  }

  // The gate lets a position pass: it is blind, or knows no previous position, or
  // one that is not newer.
  ghost predicate Passes(s: State, p: Position, a: Answers, config: Config, now: int) {
    var v := VehicleOf(p);
    Blind(s, v, a, config, now) || v !in s.prev || s.prev[v].capturedAt <= p.capturedAt
  }

  // An arrival sets the live view back: past every gate and of live quality, it is
  // older than one shown.
  ghost predicate SetsBack(s: State, e: Arrival, config: Config) {
    && Admitted(s, e.position, e.answers, config, e.now)
    && LiveQuality(Graded(e.position, e.answers.verdict, config, e.now))
    && !NoneNewer(s.live, VehicleOf(e.position), e.position.capturedAt)
    && Passes(s, e.position, e.answers, config, e.now)
  }

  lemma NewerShown(log: seq<Position>, p: Position)
    requires !NoneNewer(log, VehicleOf(p), p.capturedAt)
    ensures !InOrder(log + [p], VehicleOf(p))
  {
    var i :| 0 <= i < |log| && VehicleOf(log[i]) == VehicleOf(p) && log[i].capturedAt > p.capturedAt;
    var more := log + [p];
    assert more[i] == log[i] && more[|log|] == p;
  }

  lemma PrefixInOrder(log: seq<Position>, p: Position, v: Vehicle)
    requires InOrder(log + [p], v)
    ensures InOrder(log, v)
  {
    var more := log + [p];
    forall i, j | 0 <= i < j < |log| && VehicleOf(log[i]) == v && VehicleOf(log[j]) == v
      ensures log[i].capturedAt <= log[j].capturedAt
    {
      assert more[i] == log[i] && more[j] == log[j];
    }
  }

  lemma ShowRegresses(s: State, p: Position, a: Answers, config: Config, now: int, v: Vehicle)
    ensures InOrder(Show(s, p, a, config, now).live, v) <==>
            InOrder(s.live, v) && !(VehicleOf(p) == v && LiveQuality(p) && !NoneNewer(s.live, v, p.capturedAt)
                                    && Passes(s, p, a, config, now))
  {
    hide InOrder, NoneNewer, LiveQuality;
    assert OutOfOrder(s, p, a, config, now) <==> !Passes(s, p, a, config, now);
    if LiveQuality(p) && Passes(s, p, a, config, now) {
      if InOrder(s.live + [p], v) {
        PrefixInOrder(s.live, p, v);
      }
      if VehicleOf(p) == v && !NoneNewer(s.live, v, p.capturedAt) {
        NewerShown(s.live, p);
      } else if InOrder(s.live, v) {
        AppendInOrder(s.live, v, p);
      }
    }
  }

  // One arrival, whatever came before it.
  lemma ArrivalRegresses(s: State, e: Arrival, config: Config, v: Vehicle)
    ensures InOrder(Receive(s, e, config).live, v) <==>
            InOrder(s.live, v) && !(VehicleOf(e.position) == v && SetsBack(s, e, config))
  {
    hide InOrder, NoneNewer, LiveQuality, Show;
    var q := Graded(e.position, e.answers.verdict, config, e.now);
    if Admitted(s, e.position, e.answers, config, e.now) {
      ShowRegresses(Recorded(s, q), q, e.answers, config, e.now, v);
    }
  }

  // The i-th arrival sets the live view of the vehicle back.
  ghost predicate BackAt(arrivals: seq<Arrival>, i: nat, config: Config, v: Vehicle)
    requires i < |arrivals|
  {
    VehicleOf(arrivals[i].position) == v && SetsBack(Run(arrivals, i, config), arrivals[i], config)
  }

  lemma NextRegresses(arrivals: seq<Arrival>, n: nat, config: Config, v: Vehicle)
    requires 0 < n <= |arrivals|
    ensures InOrder(Run(arrivals, n, config).live, v) <==>
            InOrder(Run(arrivals, n - 1, config).live, v) && !BackAt(arrivals, n - 1, config, v)
  {
    hide InOrder, SetsBack, Receive;
    ArrivalRegresses(Run(arrivals, n - 1, config), arrivals[n - 1], config, v);
  }

  // In every run, with reads and writes lost, keys expired and engines failing at
  // any point, the live view of a vehicle goes back just when some arrival sets it
  // back.
  lemma {:induction false} RegressesExactly(arrivals: seq<Arrival>, n: nat, config: Config, v: Vehicle)
    requires n <= |arrivals|
    ensures !InOrder(Run(arrivals, n, config).live, v) <==>
            exists i :: 0 <= i < n && BackAt(arrivals, i, config, v)
  {
    if n > 0 {
      hide InOrder, BackAt, Receive;
      RegressesExactly(arrivals, n - 1, config, v);
      NextRegresses(arrivals, n, config, v);
    } else {
      assert Run(arrivals, n, config) == START;
    }
  }

  // It does happen: once a vehicle has been silent for the TTL of its previous
  // position, an older one that comes late is shown as the latest.
  lemma ExpiryRegresses(tenant: string, vehicle: string, config: Config) returns (arrivals: seq<Arrival>)
    requires config.prevTtlSeconds > 0 && config.futureThresholdSeconds >= 0
    requires config.staleAfterSeconds > config.prevTtlSeconds
    ensures |arrivals| == 2 && forall e :: e in arrivals ==> e.answers == Answers(Valid, true, true, true, false)
    ensures arrivals[1].now == arrivals[0].now + 1000 * config.prevTtlSeconds
    ensures !InOrder(Run(arrivals, 2, config).live, (tenant, vehicle))
  {
    hide InOrder;
    var well := Answers(Valid, true, true, true, false);
    var first := Position(tenant, vehicle, "first", At(0.0), At(0.0), 0, Valid);
    var late := Position(tenant, vehicle, "late", At(0.0), At(0.0), -1, Valid);
    arrivals := [Arrival(first, well, 0), Arrival(late, well, 1000 * config.prevTtlSeconds)];
    var v := (tenant, vehicle);
    assert Run(arrivals, 0, config) == START;
    var s := Run(arrivals, 1, config);
    assert s == Process(START, first, well, config, 0);
    assert s.live == [first] && s.prev == map[v := Prev(0, 0)] && s.seen == [KeyOf(first)];
    assert KeyOf(late)[|vehicle| + 1] == 'l' && KeyOf(first)[|vehicle| + 1] == 'f';
    var q := Process(s, late, well, config, 1000 * config.prevTtlSeconds);
    assert Run(arrivals, 2, config) == q;
    assert q.live == [first, late];
    BackInTime(first, late);
  }

  // So it is once a write of the previous position is lost, although every read
  // succeeds and nothing has expired: the gate compares with an older one.
  lemma LostWriteRegresses(tenant: string, vehicle: string, config: Config) returns (arrivals: seq<Arrival>)
    requires config.prevTtlSeconds > 0 && config.futureThresholdSeconds >= 0 && config.staleAfterSeconds > 0
    ensures |arrivals| == 3 && forall e :: e in arrivals ==> e.now == 20 && e.answers.prevRead && !e.answers.engineFails
    ensures forall i :: 0 <= i < 3 ==> (arrivals[i].answers.prevWritten <==> i != 1)
    ensures forall i :: 0 <= i < 3 ==>
              !Blind(Run(arrivals, i, config), (tenant, vehicle), arrivals[i].answers, config, arrivals[i].now)
    ensures !InOrder(Run(arrivals, 3, config).live, (tenant, vehicle))
  {
    hide InOrder;
    var well, lost := Answers(Valid, true, true, true, false), Answers(Valid, true, true, false, false);
    var p0 := Position(tenant, vehicle, "0", At(0.0), At(0.0), 0, Valid);
    var p1 := Position(tenant, vehicle, "1", At(0.0), At(0.0), 20, Valid);
    var p2 := Position(tenant, vehicle, "2", At(0.0), At(0.0), 10, Valid);
    arrivals := [Arrival(p0, well, 20), Arrival(p1, lost, 20), Arrival(p2, well, 20)];
    var v := (tenant, vehicle);
    assert KeyOf(p0)[|vehicle| + 1] == '0' && KeyOf(p1)[|vehicle| + 1] == '1' && KeyOf(p2)[|vehicle| + 1] == '2';
    assert Run(arrivals, 0, config) == START;
    var s0 := ShowsFirst(p0, well, config);
    assert Run(arrivals, 1, config) == Receive(START, arrivals[0], config) == s0;
    var s1 := Receive(s0, arrivals[1], config);
    assert Run(arrivals, 2, config) == s1;
    assert s1.live == [p0, p1] && s1.prev == s0.prev && s1.seen == [KeyOf(p0), KeyOf(p1)];
    hide NoneNewer;
    var s2 := Receive(s1, arrivals[2], config);
    assert Run(arrivals, 3, config) == s2;
    assert s2.live == [p0, p1] + [p2];
    OneNewer(p0, p1, p2);
  }

  lemma OneNewer(p: Position, q: Position, late: Position)
    requires VehicleOf(q) == VehicleOf(late) && q.capturedAt > late.capturedAt
    ensures !InOrder([p, q] + [late], VehicleOf(late))
  {
    hide InOrder;
    var log := [p, q];
    assert VehicleOf(log[1]) == VehicleOf(late) && log[1].capturedAt > late.capturedAt;
    NewerShown(log, late);
  }

  lemma ShowsFirst(p: Position, a: Answers, config: Config) returns (s: State)
    requires p.quality.Valid? && p.capturedAt == 0 && p.latitude == p.longitude == At(0.0)
    requires config.futureThresholdSeconds >= 0 && config.staleAfterSeconds > 0
    requires a == Answers(Valid, true, true, true, false)
    ensures s == Process(START, p, a, config, 20)
    ensures s.live == [p] && s.prev == map[VehicleOf(p) := Prev(0, 20)] && s.seen == [KeyOf(p)]
  {
    s := Process(START, p, a, config, 20);
  }

  lemma BackInTime(p: Position, q: Position)
    requires VehicleOf(p) == VehicleOf(q) && p.capturedAt > q.capturedAt
    ensures !InOrder([p, q], VehicleOf(p))
  {
    var log := [p, q];
    assert VehicleOf(log[0]) == VehicleOf(log[1]) && log[0].capturedAt > log[1].capturedAt;
  }

  // ----- the pipeline -----

  class Pipeline {
    const config: Config
    var seen: seq<string>
    // The database, Redis, and what went to the evaluator, the cache and the bus.
    var persisted: seq<Position>
    var prev: map<Vehicle, Prev>
    var fed: seq<Position>
    var cached: seq<Position>
    var broadcast: seq<Position>
    ghost var marks: seq<string>

    ghost predicate Valid()
      reads this
    {
      cached == broadcast && Window(View())
    }

    ghost function View(): State
      reads this
    {
      State(seen, marks, persisted, prev, fed, broadcast)
    }

    constructor (config: Config)
      ensures Valid() && View() == START && this.config == config
    {
      this.config := config;
      seen, persisted, prev, fed, cached, broadcast, marks := [], [], map[], [], [], [], [];
      new;
      hide *;
      Opened();
    }

    lemma Opened()
      requires seen == [] && marks == [] && persisted == [] && prev == map[]
      requires fed == [] && cached == [] && broadcast == []
      ensures Valid() && View() == START
    {
      hide Window;
      StartWindow();
    }

    method MarkSeen(key: string)
      modifies this`seen, this`marks
      ensures seen == Marked(old(seen), key) && marks == old(marks) + [key]
    {
      if key !in seen {
        seen := seen + [key];
      }
      if |seen| > MAX_SEEN {
        seen := seen[1..];
      }
      marks := marks + [key];
    }

    // The trip engine's part: whether it skips the position as out of order.
    method RunTripEngine(position: Position, a: Answers, now: int) returns (skipped: bool)
      modifies this`prev
      ensures skipped == OutOfOrder(old(View()), position, a, config, now)
      ensures prev == if skipped || a.engineFails || !a.prevWritten then old(prev)
                      else old(prev)[VehicleOf(position) := Prev(position.capturedAt, now)]
    {
      if a.engineFails {
        return false;
      }
      var v := VehicleOf(position);
      if a.prevRead && v in prev && now < prev[v].setAt + 1000 * config.prevTtlSeconds {
        if position.capturedAt < prev[v].capturedAt {
          return true;
        }
      }
      if a.prevWritten {
        prev := prev[v := Prev(position.capturedAt, now)];
      }
      skipped := false;
    }

    // Engine, geofences, cache and broadcast.
    method ShowPosition(validated: Position, a: Answers, now: int)
      requires cached == broadcast
      modifies this`prev, this`fed, this`cached, this`broadcast
      ensures cached == broadcast && View() == Show(old(View()), validated, a, config, now)
    {
      hide OutOfOrder;
      var skipped := RunTripEngine(validated, a, now);
      if !validated.quality.Stale? && !skipped {
        fed := fed + [validated];
      }
      var live := LiveQuality(validated) && !skipped;
      if live {
        cached := cached + [validated];
      }
      if live {
        broadcast := broadcast + [validated];
      }
    }

    // Store the position and mark its key.
    method RecordPosition(validated: Position)
      modifies this`persisted, this`seen, this`marks
      ensures View() == Recorded(old(View()), validated)
    {
      hide Marked, KeyOf;
      persisted := persisted + [validated];
      MarkSeen(KeyOf(validated));
    }

    lemma Validated(s: State)
      requires cached == broadcast && View() == s && Window(s)
      ensures Valid()
    {
      hide Window;
    }

    // False where persisting has failed, which is the caller's to retry.
    method ProcessPosition(event: Position, a: Answers, now: int) returns (ok: bool)
      requires Valid()
      modifies this
      ensures Valid() && View() == Process(old(View()), event, a, config, now)
      ensures ok <==> !(Accepted(event, config, now) && !Duplicate(old(View()), event) && !a.persisted)
    {
      hide *;
      ghost var s := View();
      GatesAre(s, event, a, now);
      if !Accepted(event, config, now) || KeyOf(event) in seen {
        return true;
      }
      var validated := Graded(event, a.verdict, config, now);
      if !a.persisted {
        return false;
      }
      RecordPosition(validated);
      ShowPosition(validated, a, now);
      Validated(Process(s, event, a, config, now));
      ok := true;
    }

    // What the gates decide, and the state they leave.
    lemma GatesAre(s: State, event: Position, a: Answers, now: int)
      requires Valid() && s == View()
      ensures s.seen == seen && cached == broadcast && Window(Process(s, event, a, config, now))
      ensures Duplicate(s, event) <==> KeyOf(event) in seen
      ensures var q := Graded(event, a.verdict, config, now);
              Process(s, event, a, config, now) ==
              if Accepted(event, config, now) && KeyOf(event) !in seen && a.persisted
              then Show(Recorded(s, q), q, a, config, now) else s
    {
      ProcessKeepsWindow(s, event, a, config, now);
      hide Window, Show, Graded, Recorded;
    }
  }
}
