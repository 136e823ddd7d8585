// What one liveness sweep does to the registry value, session by session.
module SessionSweep {
  import opened DeviceSession
  import opened Optional
  import opened SessionRegistry

  datatype Options = Options(authGraceMs: int, udpTtlSeconds: int, supersededCheckIntervalMs: int)

  // The sessions of other instances: who holds the global slot of (tenant,
  // device). A lookup that fails finds nothing; no store at all is None.
  type Slots = Option<map<(string, string), string>>

  function LastCheck(r: Registry, id: string): int {
    if id in r.checkedAt then r.checkedAt[id] else 0
  }

  // Due for a look at its global slot: throttled per session.
  predicate Checkable(r: Registry, options: Options, id: string, now: int)
    requires id in r.sessions
  {
    && IsLive(r.sessions[id]) && r.sessions[id].identity.Some?
    && now - LastCheck(r, id) >= options.supersededCheckIntervalMs
  }

  predicate Outbid(who: Identity, id: string, slots: Slots) {
    && slots.Some? && (who.tenantId, who.deviceId) in slots.value
    && slots.value[(who.tenantId, who.deviceId)] != id
  }

  // Why a session is out of time, if it is.
  function OutOfTime(p: Props, options: Options, now: int): Option<CloseReason> {
    if !IsLive(p) then None
    else if Unauthenticated(p) && now - p.createdAt >= options.authGraceMs then Some(IdleTimeout)
    else if p.transport.Udp? && now - p.lastSeenAt >= options.udpTtlSeconds * 1000 then Some(TtlExpired)
    else None
  }

  predicate Superseded(r: Registry, options: Options, slots: Slots, id: string, now: int)
    requires id in r.sessions
  {
    Checkable(r, options, id, now) && Outbid(r.sessions[id].identity.value, id, slots)
  }

  // The reason a sweep closes a session for, if it does.
  function Fate(r: Registry, options: Options, slots: Slots, id: string, now: int): Option<CloseReason>
    requires id in r.sessions
  {
    var late := OutOfTime(r.sessions[id], options, now);
    if late.Some? then late
    else if Superseded(r, options, slots, id, now) then Some(DuplicateSession)
    else None
  }

  // ----- the fates, spelled out -----

  // A session that has not logged in within the grace period.
  ghost predicate NeverLoggedIn(p: Props, options: Options, now: int) {
    p.state in {New, Identify} && now - p.createdAt >= options.authGraceMs
  }

  // A live UDP session from which nothing has come for the TTL.
  ghost predicate GoneQuiet(p: Props, options: Options, now: int) {
    && p.transport == Udp && p.state in {New, Identify, Authenticated, Active}
    && now - p.lastSeenAt >= 1000 * options.udpTtlSeconds
  }

  // A live session with a device, not looked at for the interval, whose slot names
  // another session.
  ghost predicate TakenOver(r: Registry, options: Options, slots: Slots, id: string, now: int)
    requires id in r.sessions
  {
    var p := r.sessions[id];
    && p.state in {New, Identify, Authenticated, Active} && p.identity.Some?
    && (id in r.checkedAt ==> now >= r.checkedAt[id] + options.supersededCheckIntervalMs)
    && (id !in r.checkedAt ==> now >= options.supersededCheckIntervalMs)
    && slots.Some?
    && exists other: string :: other != id && SlotNames(slots.value, p.identity.value, other)
  }

  ghost predicate SlotNames(slots: map<(string, string), string>, who: Identity, id: string) {
    (who.tenantId, who.deviceId) in slots && slots[(who.tenantId, who.deviceId)] == id
  }

  lemma SupersededExactly(r: Registry, options: Options, slots: Slots, id: string, now: int)
    requires id in r.sessions
    ensures Superseded(r, options, slots, id, now) <==> TakenOver(r, options, slots, id, now)
  {
    var p := r.sessions[id];
    if slots.Some? && p.identity.Some? && (p.identity.value.tenantId, p.identity.value.deviceId) in slots.value {
      var holder := slots.value[(p.identity.value.tenantId, p.identity.value.deviceId)];
      assert SlotNames(slots.value, p.identity.value, holder);
    }
  }

  lemma RivalledExactly(r: Registry, options: Options, slots: Slots, now: int)
    ensures forall id :: id in r.tracked && id in r.sessions ==>
              (id in Rivalled(r, options, slots, now) <==> TakenOver(r, options, slots, id, now))
  {
    hide Superseded, TakenOver;
    forall id | id in r.tracked && id in r.sessions
      ensures id in Rivalled(r, options, slots, now) <==> TakenOver(r, options, slots, id, now)
    {
      SupersededExactly(r, options, slots, id, now);
    }
  }

  // Why a sweep closes a session, and that it does for no other reason.
  lemma FateExactly(r: Registry, options: Options, slots: Slots, id: string, now: int)
    requires id in r.sessions
    ensures var p, fate := r.sessions[id], Fate(r, options, slots, id, now);
            && (fate == Some(IdleTimeout) <==> NeverLoggedIn(p, options, now))
            && (fate == Some(TtlExpired) <==> GoneQuiet(p, options, now) && !NeverLoggedIn(p, options, now))
            && (fate == Some(DuplicateSession) <==>
                && TakenOver(r, options, slots, id, now)
                && !GoneQuiet(p, options, now) && !NeverLoggedIn(p, options, now))
            && fate in {None, Some(IdleTimeout), Some(TtlExpired), Some(DuplicateSession)}
  {
    hide Superseded, TakenOver;
    SupersededExactly(r, options, slots, id, now);
  }

  // What a sweep makes of every session, in those terms.
  ghost predicate SweptExactly(r: Registry, q: Registry, options: Options, slots: Slots, now: int) {
    && q.sessions.Keys == r.sessions.Keys
    && forall id :: id in r.sessions ==> SweptTo(r, options, slots, id, now, q.sessions[id])
  }

  ghost predicate SweptTo(r: Registry, options: Options, slots: Slots, id: string, now: int, after: Props)
    requires id in r.sessions
  {
    var p := r.sessions[id];
    after == if NeverLoggedIn(p, options, now) then ClosedFor(p, IdleTimeout, now)
             else if GoneQuiet(p, options, now) then ClosedFor(p, TtlExpired, now)
             else if TakenOver(r, options, slots, id, now) then ClosedFor(p, DuplicateSession, now)
             else p
  }

  lemma FatedLives(r: Registry, options: Options, slots: Slots, id: string, now: int)
    requires id in r.sessions && Fate(r, options, slots, id, now).Some?
    ensures IsLive(r.sessions[id])
  {
  }

  lemma SweptMeans(r: Registry, q: Registry, options: Options, slots: Slots, now: int)
    requires Swept(r, q, options, slots, now)
    ensures SweptExactly(r, q, options, slots, now)
  {
    hide Fate, Torn, TakenOver, GoneQuiet, NeverLoggedIn, ClosedFor, IsLive;
    forall id | id in r.sessions ensures SweptTo(r, options, slots, id, now, q.sessions[id]) {
      var fate := Fate(r, options, slots, id, now);
      assert Met(r, q, fate, id, now);
      FateExactly(r, options, slots, id, now);
      if fate.Some? {
        FatedLives(r, options, slots, id, now);
        TornClosed(r.sessions[id], fate.value, now);
      }
    }
  }

  // A session that holds its own slot is no duplicate to any sweep.
  lemma OwnSlotStays(r: Registry, q: Registry, options: Options, slots: Slots, now: int, id: string)
    requires SweptExactly(r, q, options, slots, now) && slots.Some? && id in r.sessions
    requires r.sessions[id].identity.Some? && SlotNames(slots.value, r.sessions[id].identity.value, id)
    requires !NeverLoggedIn(r.sessions[id], options, now) && !GoneQuiet(r.sessions[id], options, now)
    ensures id in q.sessions && q.sessions[id] == r.sessions[id]
  {
    assert SweptTo(r, options, slots, id, now, q.sessions[id]);
  }

  // The tracked sessions that are out of time for a reason.
  ghost function Late(r: Registry, options: Options, reason: CloseReason, now: int): set<string> {
    set id | id in r.tracked && id in r.sessions && OutOfTime(r.sessions[id], options, now) == Some(reason)
  }

  ghost function Rivalled(r: Registry, options: Options, slots: Slots, now: int): set<string> {
    set id | id in r.tracked && id in r.sessions && Superseded(r, options, slots, id, now)
  }

  // The sessions of ids are closed, and no other is touched.
  ghost predicate ClosedExactly(r: Registry, q: Registry, ids: set<string>, reason: CloseReason, now: int) {
    && q.sessions.Keys == r.sessions.Keys && q.tracked == r.tracked - ids
    && (forall id :: id in r.sessions ==>
          q.sessions[id] == if id in ids then Torn(r.sessions[id], reason, now) else r.sessions[id])
  }

  lemma ClosedNone(r: Registry, reason: CloseReason, now: int)
    ensures ClosedExactly(r, r, {}, reason, now)
  {
  }

  // One more; closing once more what is closed already changes nothing.
  lemma ClosedOneMore(r: Registry, q: Registry, ids: set<string>, id: string, reason: CloseReason, now: int)
    requires ClosedExactly(r, q, ids, reason, now) && id in q.sessions
    ensures ClosedExactly(r, Close(q, id, reason, now), ids + {id}, reason, now)
  {
    hide Torn, Farewell;
    TornTwice(r.sessions[id], reason, now);
  }

  lemma TornTwice(p: Props, reason: CloseReason, now: int)
    ensures Torn(Torn(p, reason, now), reason, now) == Torn(p, reason, now)
  {
  }

  // Closing some sessions leaves the others' last check.
  lemma CloseSparesChecks(r: Registry, id: string, reason: CloseReason, now: int)
    requires id in r.sessions
    ensures forall other :: other != id ==> LastCheck(Close(r, id, reason, now), other) == LastCheck(r, other)
  {
  }

  ghost predicate SameChecks(r: Registry, q: Registry, ids: set<string>) {
    forall id :: id !in ids ==> LastCheck(q, id) == LastCheck(r, id)
  }

  // A look at the global slot.
  function Checked(r: Registry, id: string, now: int): Registry {
    r.(checkedAt := r.checkedAt[id := now])
  }

  lemma CheckedKeeps(r: Registry, id: string, now: int)
    requires Inv(r)
    ensures Inv(Checked(r, id, now))
  {
    var q := Checked(r, id, now);
    forall other ensures FarewellDue(q, other) {
      assert FarewellDue(r, other);
    }
    forall other | other in q.tracked && other in q.sessions ensures Indexed(q, other) {
      assert Indexed(r, other);
    }
  }

  // The looks taken at the slots of seen: each session that could be checked has
  // been, at now.
  ghost predicate ChecksDone(r: Registry, q: Registry, options: Options, seen: set<string>, now: int) {
    forall id :: id in q.tracked && id in r.sessions ==>
      LastCheck(q, id) == (if id in seen && Checkable(r, options, id, now) then now else LastCheck(r, id))
  }

  ghost predicate Met(r: Registry, q: Registry, fate: Option<CloseReason>, id: string, now: int)
    requires id in r.sessions
  {
    id in q.sessions && q.sessions[id] == if fate.Some? then Torn(r.sessions[id], fate.value, now) else r.sessions[id]
  }

  // One session's turn in the search for rivals.
  function CheckOne(r: Registry, options: Options, slots: Slots, id: string, now: int): Registry
    requires id in r.sessions
  {
    if !Checkable(r, options, id, now) then r
    else if Outbid(r.sessions[id].identity.value, id, slots) then Close(Checked(r, id, now), id, DuplicateSession, now)
    else Checked(r, id, now)
  }

  lemma CheckOneKeeps(r: Registry, options: Options, slots: Slots, id: string, now: int)
    requires Inv(r) && id in r.sessions
    ensures Inv(CheckOne(r, options, slots, id, now))
  {
    hide Checked, Close, InvBut;
    CheckedKeeps(r, id, now);
    if id in Checked(r, id, now).sessions {
      CloseKeeps(Checked(r, id, now), id, DuplicateSession, now, {});
    }
    assert Checked(r, id, now).sessions == r.sessions by {
      CheckedSessions(r, id, now);
    }
  }

  lemma CheckedSessions(r: Registry, id: string, now: int)
    ensures Checked(r, id, now).sessions == r.sessions
  {
  }

  // The search so far: of the sessions of r, those of todo are still to come.
  ghost predicate Searched(r: Registry, q: Registry, options: Options, slots: Slots, todo: set<string>, now: int) {
    && ClosedExactly(r, q, Rivalled(r, options, slots, now) - todo, DuplicateSession, now)
    && ChecksDone(r, q, options, r.tracked - todo, now)
  }

  lemma SearchStarts(r: Registry, options: Options, slots: Slots, now: int)
    ensures Searched(r, r, options, slots, r.tracked, now)
  {
    assert Rivalled(r, options, slots, now) - r.tracked == {};
  }

  // Until its turn a session is as it was.
  lemma SearchSpares(r: Registry, q: Registry, options: Options, slots: Slots, todo: set<string>, id: string, now: int)
    requires Searched(r, q, options, slots, todo, now)
    requires id in todo && todo <= r.tracked <= r.sessions.Keys
    ensures id in q.sessions && id in q.tracked
    ensures q.sessions[id] == r.sessions[id] && LastCheck(q, id) == LastCheck(r, id)
    ensures Superseded(q, options, slots, id, now) <==> id in Rivalled(r, options, slots, now)
  {
    hide Torn, Outbid;
  }

  lemma SearchCloses(r: Registry, q: Registry, options: Options, slots: Slots, todo: set<string>, id: string, now: int)
    requires Searched(r, q, options, slots, todo, now)
    requires id in todo && todo <= r.tracked <= r.sessions.Keys
    ensures id in q.sessions
    ensures ClosedExactly(r, CheckOne(q, options, slots, id, now), Rivalled(r, options, slots, now) - (todo - {id}),
                          DuplicateSession, now)
  {
    hide Torn, Farewell, Outbid, Checkable, IsLive, ChecksDone;
    SearchSpares(r, q, options, slots, todo, id, now);
    var rivals := Rivalled(r, options, slots, now);
    if id in rivals {
      assert rivals - (todo - {id}) == rivals - todo + {id};
      ClosedOneMore(r, Checked(q, id, now), rivals - todo, id, DuplicateSession, now);
    } else {
      assert rivals - (todo - {id}) == rivals - todo;
    }
  }

  lemma SearchChecks(r: Registry, q: Registry, options: Options, slots: Slots, todo: set<string>, id: string, now: int)
    requires Searched(r, q, options, slots, todo, now)
    requires id in todo && todo <= r.tracked <= r.sessions.Keys
    ensures id in q.sessions
    ensures ChecksDone(r, CheckOne(q, options, slots, id, now), options, r.tracked - (todo - {id}), now)
  {
    hide Torn, Farewell, Outbid, ClosedExactly, IsLive;
    SearchSpares(r, q, options, slots, todo, id, now);
  }

  lemma SearchStep(r: Registry, q: Registry, options: Options, slots: Slots, todo: set<string>, id: string, now: int)
    requires Searched(r, q, options, slots, todo, now)
    requires id in todo && todo <= r.tracked <= r.sessions.Keys
    ensures id in q.sessions
    ensures Searched(r, CheckOne(q, options, slots, id, now), options, slots, todo - {id}, now)
  {
    hide CheckOne, ClosedExactly, ChecksDone;
    SearchCloses(r, q, options, slots, todo, id, now);
    SearchChecks(r, q, options, slots, todo, id, now);
  }

  // A whole sweep: every session tracked meets its fate, and no other is touched.
  ghost predicate Swept(r: Registry, q: Registry, options: Options, slots: Slots, now: int) {
    && q.sessions.Keys == r.sessions.Keys && q.tracked <= r.tracked
    && (forall id :: id in r.sessions ==> Met(r, q, Fate(r, options, slots, id, now), id, now))
  }

  // The sessions a sweep closes for a reason.
  ghost function Fated(r: Registry, options: Options, slots: Slots, reason: CloseReason, now: int): set<string> {
    set id | id in r.tracked && id in r.sessions && Fate(r, options, slots, id, now) == Some(reason)
  }

  // The three rounds of a sweep make a whole one.
  lemma RoundsSweep(r: Registry, a: Registry, b: Registry, q: Registry, options: Options, slots: Slots, now: int)
    requires Inv(r) && Inv(b)
    requires ClosedExactly(r, a, Late(r, options, IdleTimeout, now), IdleTimeout, now)
    requires ClosedExactly(a, b, Late(r, options, TtlExpired, now), TtlExpired, now)
    requires SameChecks(r, b, Late(r, options, IdleTimeout, now) + Late(r, options, TtlExpired, now))
    requires ClosedExactly(b, q, Rivalled(b, options, slots, now), DuplicateSession, now)
    ensures Swept(r, q, options, slots, now)
  {
    forall id | id in r.sessions
      ensures Met(r, q, Fate(r, options, slots, id, now), id, now)
    {
      RoundsFate(r, a, b, q, options, slots, now, id);
    }
  }

  lemma RoundsFate(r: Registry, a: Registry, b: Registry, q: Registry, options: Options, slots: Slots, now: int,
                   id: string)
    requires Inv(r) && Inv(b) && id in r.sessions
    requires ClosedExactly(r, a, Late(r, options, IdleTimeout, now), IdleTimeout, now)
    requires ClosedExactly(a, b, Late(r, options, TtlExpired, now), TtlExpired, now)
    requires SameChecks(r, b, Late(r, options, IdleTimeout, now) + Late(r, options, TtlExpired, now))
    requires ClosedExactly(b, q, Rivalled(b, options, slots, now), DuplicateSession, now)
    ensures Met(r, q, Fate(r, options, slots, id, now), id, now)
  {
    hide Torn, IndexSound, IndexComplete, UdpSound, FarewellsDue, Bound, Outbid;
    if OutOfTime(r.sessions[id], options, now).Some? {
      assert id !in b.tracked;
    } else {
      assert b.sessions[id] == r.sessions[id] && LastCheck(b, id) == LastCheck(r, id);
    }
  }

  // A sweep leaves nothing to do: swept again at once, every session it has left
  // would stay.
  lemma NoneOverdue(r: Registry, b: Registry, q: Registry, options: Options, slots: Slots, now: int, id: string)
    requires Inv(r) && Inv(b) && Inv(q) && Swept(r, q, options, slots, now)
    requires b.sessions.Keys == r.sessions.Keys && q.tracked <= b.tracked <= r.tracked
    requires id in q.tracked && id in q.sessions
    requires b.sessions[id] == r.sessions[id] && LastCheck(b, id) == LastCheck(r, id)
    requires slots.Some? ==> ChecksDone(b, q, options, b.tracked, now)
    ensures Fate(q, options, slots, id, now).None?
  {
    hide IndexSound, IndexComplete, UdpSound, FarewellsDue, Bound;
    assert Met(r, q, Fate(r, options, slots, id, now), id, now);
  }

  // Those the rounds close for a reason are those fated to it.
  lemma RoundsFated(r: Registry, a: Registry, b: Registry, options: Options, slots: Slots, now: int)
    requires Inv(r) && Inv(b)
    requires ClosedExactly(r, a, Late(r, options, IdleTimeout, now), IdleTimeout, now)
    requires ClosedExactly(a, b, Late(r, options, TtlExpired, now), TtlExpired, now)
    requires SameChecks(r, b, Late(r, options, IdleTimeout, now) + Late(r, options, TtlExpired, now))
    ensures Late(r, options, IdleTimeout, now) == Fated(r, options, slots, IdleTimeout, now)
    ensures Late(r, options, TtlExpired, now) == Fated(r, options, slots, TtlExpired, now)
    ensures Rivalled(b, options, slots, now) == Fated(r, options, slots, DuplicateSession, now)
  {
    hide Torn, IndexSound, IndexComplete, UdpSound, FarewellsDue, Bound, Outbid;
    forall id | id in r.sessions
      ensures id in Rivalled(b, options, slots, now) <==> id in Fated(r, options, slots, DuplicateSession, now)
    {
      if id in b.tracked {
        assert b.sessions[id] == r.sessions[id] && LastCheck(b, id) == LastCheck(r, id);
      }
    }
  }

  lemma NoRivals(r: Registry, options: Options, now: int)
    ensures Rivalled(r, options, None, now) == {}
    ensures ClosedExactly(r, r, Rivalled(r, options, None, now), DuplicateSession, now)
  {
    assert Rivalled(r, options, None, now) == {};
    ClosedNone(r, DuplicateSession, now);
  }

  lemma RivalledTracked(r: Registry, options: Options, slots: Slots, now: int)
    ensures Rivalled(r, options, slots, now) - r.tracked == {}
    ensures forall id :: id in Rivalled(r, options, slots, now) ==> id in r.tracked
  {
  }

  lemma TrackedKnown(r: Registry)
    requires Inv(r)
    ensures r.tracked <= r.sessions.Keys
  {
  }

  lemma SearchEnds(r: Registry, q: Registry, options: Options, slots: Slots, now: int)
    requires Searched(r, q, options, slots, {}, now)
    ensures ClosedExactly(r, q, Rivalled(r, options, slots, now), DuplicateSession, now)
    ensures ChecksDone(r, q, options, r.tracked, now)
  {
    hide ClosedExactly, ChecksDone;
    assert Rivalled(r, options, slots, now) - {} == Rivalled(r, options, slots, now);
    assert r.tracked - {} == r.tracked;
  }

  lemma SameChecksTwice(r: Registry, a: Registry, b: Registry, one: set<string>, two: set<string>)
    requires SameChecks(r, a, one) && SameChecks(a, b, two)
    ensures SameChecks(r, b, one + two)
  {
  }

  lemma NothingLeftToSweep(r: Registry, a: Registry, b: Registry, q: Registry, options: Options, slots: Slots, now: int)
    requires Inv(r) && Inv(b) && Inv(q) && Swept(r, q, options, slots, now)
    requires ClosedExactly(r, a, Late(r, options, IdleTimeout, now), IdleTimeout, now)
    requires ClosedExactly(a, b, Late(r, options, TtlExpired, now), TtlExpired, now)
    requires SameChecks(r, b, Late(r, options, IdleTimeout, now) + Late(r, options, TtlExpired, now))
    requires ClosedExactly(b, q, Rivalled(b, options, slots, now), DuplicateSession, now)
    requires slots.Some? ==> ChecksDone(b, q, options, b.tracked, now)
    ensures forall id :: id in q.tracked && id in q.sessions ==> Fate(q, options, slots, id, now).None?
  {
    hide InvBut, Swept, ChecksDone, OutOfTime, Superseded, Fate, LastCheck;
    forall id | id in q.tracked && id in q.sessions
      ensures Fate(q, options, slots, id, now).None?
    {
      NoneOverdue(r, b, q, options, slots, now, id);
    }
  }
}
