// The local session registry of a gateway as a value: newest connection wins.
// Every public operation is one atomic step, and so is authenticating a session
// together with registering it.
module SessionRegistry {
  import opened DeviceSession
  import opened Optional

  datatype Endpoint = Endpoint(protocolId: string, address: string, port: int)

  datatype Lifecycle = Lifecycle(sessionId: string, deviceId: string, state: State, reason: Option<CloseReason>)

  // sessions holds every session ever tracked; the indexes name sessions by id.
  // lastAuth is history: who last authenticated for a device.
  datatype Registry = Registry(
    sessions: map<string, Props>, tracked: set<string>, byDevice: map<string, string>,
    byUdp: map<Endpoint, string>, terminators: set<string>, checkedAt: map<string, int>,
    emitted: seq<Lifecycle>, destroyed: seq<string>, lastAuth: map<string, string>)

  const EMPTY := Registry(map[], {}, map[], map[], {}, map[], [], [], map[])

  function EndpointOf(p: Props): Endpoint { Endpoint(p.protocolId, p.remoteAddress, p.remotePort) }

  function DeviceOf(p: Props): Option<string> {
    if p.identity.Some? then Some(p.identity.value.deviceId) else None
  }

  // ----- operations -----

  function Track(r: Registry, id: string, p: Props): Registry {
    r.(sessions := r.sessions[id := p], tracked := r.tracked + {id},
       byUdp := if p.transport.Udp? then r.byUdp[EndpointOf(p) := id] else r.byUdp)
  }

  function Torn(p: Props, reason: CloseReason, now: int): Props {
    Finish(if IsLive(p) then Disconnect(p, reason, now) else p, now)
  }

  function Farewell(p: Props, id: string, reason: CloseReason): seq<Lifecycle> {
    if IsLive(p) && p.identity.Some? then [Lifecycle(id, p.identity.value.deviceId, Disconnected, Some(reason))] else []
  }

  // Tear a session down, or clean up once more after one torn down before.
  function Close(r: Registry, id: string, reason: CloseReason, now: int): Registry
    requires id in r.sessions
  {
    var p := r.sessions[id];
    var d := DeviceOf(p);
    r.(sessions := r.sessions[id := Torn(p, reason, now)],
       byDevice := if d.Some? && d.value in r.byDevice && r.byDevice[d.value] == id then r.byDevice - {d.value}
                   else r.byDevice,
       tracked := r.tracked - {id}, byUdp := r.byUdp - {EndpointOf(p)},
       checkedAt := r.checkedAt - {id}, terminators := r.terminators - {id},
       destroyed := r.destroyed + (if id in r.terminators then [id] else []),
       emitted := r.emitted + Farewell(p, id, reason))
  }

  // authenticate
  function Bind(r: Registry, id: string, who: Identity, now: int): Registry
    requires id in r.sessions && Unauthenticated(r.sessions[id])
  {
    r.(sessions := r.sessions[id := Admitted(r.sessions[id], who, now)])
  }

  // evictLocalDuplicate
  function Evict(r: Registry, id: string, deviceId: string, now: int): Registry {
    if deviceId in r.byDevice && r.byDevice[deviceId] != id && r.byDevice[deviceId] in r.sessions
       && IsLive(r.sessions[r.byDevice[deviceId]])
    then Close(r, r.byDevice[deviceId], DuplicateSession, now)
    else r
  }

  function Enter(r: Registry, id: string, deviceId: string): Registry {
    r.(byDevice := r.byDevice[deviceId := id], lastAuth := r.lastAuth[deviceId := id],
       emitted := r.emitted + [Lifecycle(id, deviceId, Authenticated, None)])
  }

  function Login(r: Registry, id: string, who: Identity, now: int): Registry
    requires id in r.sessions && Unauthenticated(r.sessions[id])
  {
    Enter(Evict(Bind(r, id, who, now), id, who.deviceId, now), id, who.deviceId)
  }

  // Anything else that happens to a tracked session: a frame, data.
  function Update(r: Registry, id: string, p: Props): Registry {
    r.(sessions := r.sessions[id := p])
  }

  // ----- the invariant -----

  function Farewells(events: seq<Lifecycle>, id: string): nat {
    if events == [] then 0
    else
      var k := |events| - 1;
      Farewells(events[..k], id) + (if events[k].sessionId == id && events[k].state.Disconnected? then 1 else 0)
  }

  lemma FarewellsAppend(events: seq<Lifecycle>, e: Lifecycle, id: string)
    ensures Farewells(events + [e], id)
            == Farewells(events, id) + (if e.sessionId == id && e.state.Disconnected? then 1 else 0)
  {
    assert (events + [e])[..|events|] == events;
  }

  // A tracked session is a live one.
  ghost predicate TracksLive(r: Registry) {
    && r.tracked <= r.sessions.Keys
    && (forall id :: id in r.sessions ==> Bound(r.sessions[id]) && (id in r.tracked <==> IsLive(r.sessions[id])))
  }

  // The device index names live sessions of that device, the last to log in.
  ghost predicate IndexSound(r: Registry) {
    forall d :: d in r.byDevice ==>
      var id := r.byDevice[d];
      id in r.tracked && id in r.sessions && DeviceOf(r.sessions[id]) == Some(d)
      && d in r.lastAuth && r.lastAuth[d] == id
  }

  ghost predicate Indexed(r: Registry, id: string)
    requires id in r.sessions
  {
    var d := DeviceOf(r.sessions[id]);
    d.Some? ==> d.value in r.byDevice && r.byDevice[d.value] == id
  }

  // And every live session with a device is indexed, but for one in flux.
  ghost predicate IndexComplete(r: Registry, flux: set<string>) {
    forall id :: id in r.tracked && id in r.sessions && id !in flux ==> Indexed(r, id)
  }

  ghost predicate UdpSound(r: Registry) {
    forall e :: e in r.byUdp ==>
      r.byUdp[e] in r.tracked && r.byUdp[e] in r.sessions && EndpointOf(r.sessions[r.byUdp[e]]) == e
  }

  // A session says farewell once, when it stops being live after having had a
  // device; one never tracked says nothing.
  ghost predicate FarewellDue(r: Registry, id: string) {
    Farewells(r.emitted, id) ==
    if id in r.sessions && !IsLive(r.sessions[id]) && r.sessions[id].identity.Some? then 1 else 0
  }

  ghost predicate FarewellsDue(r: Registry) {
    forall id :: FarewellDue(r, id)
  }

  ghost predicate InvBut(r: Registry, flux: set<string>) {
    TracksLive(r) && IndexSound(r) && IndexComplete(r, flux) && UdpSound(r) && FarewellsDue(r)
  }

  ghost predicate Inv(r: Registry) { InvBut(r, {}) }

  lemma TrackKeeps(r: Registry, id: string, p: Props)
    requires Inv(r) && id !in r.sessions && p.state.New? && Bound(p)
    ensures Inv(Track(r, id, p))
  {
    var q := Track(r, id, p);
    forall other ensures FarewellDue(q, other) {
      assert FarewellDue(r, other);
    }
    forall other | other in q.tracked && other in q.sessions ensures Indexed(q, other) {
      assert other != id ==> Indexed(r, other);
    }
  }

  lemma TornIsDead(p: Props, reason: CloseReason, now: int)
    requires Bound(p)
    ensures var q := Torn(p, reason, now);
            q.state.Closed? && Bound(q) && q.identity == p.identity && EndpointOf(q) == EndpointOf(p)
  {
  }

  lemma CloseTracks(r: Registry, id: string, reason: CloseReason, now: int)
    requires TracksLive(r) && id in r.sessions
    ensures TracksLive(Close(r, id, reason, now))
  {
    hide Torn, Farewell;
    TornIsDead(r.sessions[id], reason, now);
  }

  lemma CloseIndexSound(r: Registry, id: string, reason: CloseReason, now: int)
    requires TracksLive(r) && IndexSound(r) && id in r.sessions
    ensures IndexSound(Close(r, id, reason, now))
  {
    hide Torn, Farewell, TracksLive;
    var q := Close(r, id, reason, now);
    forall d | d in q.byDevice
      ensures q.byDevice[d] == r.byDevice[d] != id && q.byDevice[d] in q.sessions
              && q.sessions[q.byDevice[d]] == r.sessions[r.byDevice[d]]
    {
    }
  }

  lemma CloseIndexComplete(r: Registry, id: string, reason: CloseReason, now: int, flux: set<string>)
    requires IndexComplete(r, flux) && id in r.sessions
    ensures IndexComplete(Close(r, id, reason, now), flux)
  {
    hide Torn, Farewell;
    var q := Close(r, id, reason, now);
    forall other | other in q.tracked && other in q.sessions && other !in flux ensures Indexed(q, other) {
      assert Indexed(r, other) && q.sessions[other] == r.sessions[other];
    }
  }

  lemma CloseUdpSound(r: Registry, id: string, reason: CloseReason, now: int)
    requires UdpSound(r) && id in r.sessions
    ensures UdpSound(Close(r, id, reason, now))
  {
    hide Torn, Farewell;
  }

  lemma CloseFarewell(r: Registry, id: string, reason: CloseReason, now: int, other: string)
    requires TracksLive(r) && FarewellDue(r, other) && id in r.sessions
    ensures FarewellDue(Close(r, id, reason, now), other)
  {
    hide Torn, TracksLive, Farewell, EndpointOf;
    var p, q := r.sessions[id], Close(r, id, reason, now);
    BoundOf(r, id);
    hide Bound;
    TornIsDead(p, reason, now);
    CloseEmits(r, id, reason, now, other);
  }

  lemma CloseEmits(r: Registry, id: string, reason: CloseReason, now: int, other: string)
    requires id in r.sessions
    ensures var p := r.sessions[id];
            Farewells(Close(r, id, reason, now).emitted, other)
            == Farewells(r.emitted, other) + (if other == id && IsLive(p) && p.identity.Some? then 1 else 0)
  {
    hide Torn, EndpointOf;
    var p, q := r.sessions[id], Close(r, id, reason, now);
    if Farewell(p, id, reason) != [] {
      FarewellsAppend(r.emitted, Farewell(p, id, reason)[0], other);
      assert q.emitted == r.emitted + [Farewell(p, id, reason)[0]];
    } else {
      assert q.emitted == r.emitted;
    }
  }

  lemma BoundOf(r: Registry, id: string)
    requires TracksLive(r) && id in r.sessions
    ensures Bound(r.sessions[id])
  {
  }

  lemma CloseKeeps(r: Registry, id: string, reason: CloseReason, now: int, flux: set<string>)
    requires InvBut(r, flux) && id in r.sessions
    ensures InvBut(Close(r, id, reason, now), flux)
  {
    hide Close, TracksLive, IndexSound, IndexComplete, UdpSound, FarewellDue;
    CloseTracks(r, id, reason, now);
    CloseIndexSound(r, id, reason, now);
    CloseIndexComplete(r, id, reason, now, flux);
    CloseUdpSound(r, id, reason, now);
    var q := Close(r, id, reason, now);
    forall other ensures FarewellDue(q, other) {
      assert FarewellDue(r, other);
      CloseFarewell(r, id, reason, now, other);
    }
  }

  // Binding an identity puts the session in flux: live, with a device, and not
  // indexed yet.
  lemma BindKeeps(r: Registry, id: string, who: Identity, now: int)
    requires Inv(r) && id in r.sessions && Unauthenticated(r.sessions[id])
    ensures InvBut(Bind(r, id, who, now), {id})
    ensures id in Bind(r, id, who, now).tracked
  {
    var q := Bind(r, id, who, now);
    assert TracksLive(q);
    assert IndexSound(q);
    assert UdpSound(q);
    BindFarewells(r, id, who, now);
  }

  lemma BindFarewells(r: Registry, id: string, who: Identity, now: int)
    requires FarewellsDue(r) && id in r.sessions && Unauthenticated(r.sessions[id])
    ensures FarewellsDue(Bind(r, id, who, now))
  {
    forall other ensures FarewellDue(Bind(r, id, who, now), other) {
      assert FarewellDue(r, other);
    }
  }

  // Eviction clears the way: no live session is left with the device but the one
  // in flux.
  lemma EvictClears(r: Registry, id: string, deviceId: string, now: int)
    requires InvBut(r, {id}) && id in r.tracked && DeviceOf(r.sessions[id]) == Some(deviceId)
    requires deviceId in r.byDevice ==> r.byDevice[deviceId] != id
    ensures var q := Evict(r, id, deviceId, now);
            && InvBut(q, {id}) && id in q.tracked && deviceId !in q.byDevice
            && id in q.sessions && q.sessions[id] == r.sessions[id]
  {
    hide IndexComplete, UdpSound, FarewellsDue;
    if deviceId in r.byDevice {
      CloseKeeps(r, r.byDevice[deviceId], DuplicateSession, now, {id});
    }
  }

  lemma EnterKeeps(r: Registry, id: string, deviceId: string)
    requires InvBut(r, {id}) && id in r.tracked && deviceId !in r.byDevice
    requires id in r.sessions && DeviceOf(r.sessions[id]) == Some(deviceId)
    ensures Inv(Enter(r, id, deviceId))
  {
    var q := Enter(r, id, deviceId);
    EnterFarewells(r, id, deviceId);
    EnterComplete(r, id, deviceId);
    assert TracksLive(q) && UdpSound(q);
  }

  lemma EnterFarewells(r: Registry, id: string, deviceId: string)
    requires FarewellsDue(r)
    ensures FarewellsDue(Enter(r, id, deviceId))
  {
    forall other ensures FarewellDue(Enter(r, id, deviceId), other) {
      assert FarewellDue(r, other);
      FarewellsAppend(r.emitted, Lifecycle(id, deviceId, Authenticated, None), other);
    }
  }

  lemma EnterComplete(r: Registry, id: string, deviceId: string)
    requires IndexComplete(r, {id}) && deviceId !in r.byDevice
    requires id in r.sessions && DeviceOf(r.sessions[id]) == Some(deviceId)
    ensures IndexComplete(Enter(r, id, deviceId), {})
  {
    var q := Enter(r, id, deviceId);
    forall other | other in q.tracked && other in q.sessions ensures Indexed(q, other) {
      if other != id {
        assert Indexed(r, other);
      }
    }
  }

  // Newest wins: the login leaves its session indexed, with the one it displaces
  // closed.
  lemma LoginKeeps(r: Registry, id: string, who: Identity, now: int)
    requires Inv(r) && id in r.sessions && Unauthenticated(r.sessions[id])
    ensures Inv(Login(r, id, who, now))
    ensures Login(r, id, who, now).byDevice[who.deviceId] == id
  {
    hide IndexComplete, UdpSound, FarewellsDue, Close;
    BindKeeps(r, id, who, now);
    var b := Bind(r, id, who, now);
    EvictClears(b, id, who.deviceId, now);
    EnterKeeps(Evict(b, id, who.deviceId, now), id, who.deviceId);
  }

  // A frame or data on a tracked session changes neither its identity nor its
  // being live.
  lemma UpdateKeeps(r: Registry, id: string, p: Props)
    requires Inv(r) && id in r.tracked && Bound(p) && IsLive(p)
    requires p.identity == r.sessions[id].identity && EndpointOf(p) == EndpointOf(r.sessions[id])
    ensures Inv(Update(r, id, p))
  {
    var q := Update(r, id, p);
    forall other ensures FarewellDue(q, other) {
      assert FarewellDue(r, other);
    }
    forall other | other in q.tracked && other in q.sessions ensures Indexed(q, other) {
      assert Indexed(r, other);
    }
  }

  // ----- what the invariant gives -----

  // At most one live session per device: the last to authenticate, and the one
  // byDevice names.
  lemma OneSessionPerDevice(r: Registry, one: string, two: string, deviceId: string)
    requires Inv(r)
    requires one in r.sessions && IsLive(r.sessions[one]) && DeviceOf(r.sessions[one]) == Some(deviceId)
    requires two in r.sessions && IsLive(r.sessions[two]) && DeviceOf(r.sessions[two]) == Some(deviceId)
    ensures one == two == r.lastAuth[deviceId] == r.byDevice[deviceId]
  {
    assert Indexed(r, one) && Indexed(r, two);
  }

  // A close that comes late, after its session was displaced, leaves the index
  // and the events alone.
  lemma LateClose(r: Registry, id: string, reason: CloseReason, now: int)
    requires Inv(r) && id in r.sessions && !IsLive(r.sessions[id])
    ensures var q := Close(r, id, reason, now);
            q.byDevice == r.byDevice && q.tracked == r.tracked && q.emitted == r.emitted
  {
  }

  // Logging in closes exactly the session it displaces: any other keeps its
  // state, its place and its index.
  lemma LoginSpares(r: Registry, id: string, who: Identity, now: int, other: string)
    requires Inv(r) && id in r.sessions && Unauthenticated(r.sessions[id])
    requires other in r.sessions && other != id
    ensures var q, d := Login(r, id, who, now), who.deviceId;
            if IsLive(r.sessions[other]) && DeviceOf(r.sessions[other]) == Some(d)
            then q.sessions[other] == Torn(r.sessions[other], DuplicateSession, now) && other !in q.tracked
            else q.sessions[other] == r.sessions[other] && (other in q.tracked <==> other in r.tracked)
  {
    hide UdpSound, FarewellsDue, Torn, Farewell;
    if other in r.tracked {
      assert Indexed(r, other);
    }
  }

  // ----- runs -----

  datatype Op =
    | OpTrack(id: string, transport: Transport, protocolId: string, address: string, port: int)
    | OpLogin(id: string, who: Identity)
    | OpFrame(id: string, data: bool)
    | OpClose(id: string, reason: CloseReason)

  // An operation on a session that is not there, or not in the right state, is
  // refused and changes nothing.
  function Perform(r: Registry, op: Op, now: int): Registry {
    match op
    case OpTrack(id, t, protocolId, address, port) =>
      if id in r.sessions then r else Track(r, id, Opened(t, protocolId, address, port, now))
    case OpLogin(id, who) =>
      if id in r.sessions && Unauthenticated(r.sessions[id]) then Login(r, id, who, now) else r
    case OpFrame(id, data) =>
      if id in r.tracked && id in r.sessions then
        var p := r.sessions[id];
        Update(r, id, if data then Or(Activate(p, now), p) else p.(lastSeenAt := now))
      else r
    case OpClose(id, reason) => if id in r.sessions then Close(r, id, reason, now) else r
  }

  function RunOps(ops: seq<(Op, int)>): Registry {
    if ops == [] then EMPTY
    else
      var k := |ops| - 1;
      Perform(RunOps(ops[..k]), ops[k].0, ops[k].1)
  }

  lemma PerformKeeps(r: Registry, op: Op, now: int)
    requires Inv(r)
    ensures Inv(Perform(r, op, now))
  {
    hide InvBut, Track, Login, Close, Update;
    match op
    case OpTrack(id, t, protocolId, address, port) =>
      if id !in r.sessions {
        TrackKeeps(r, id, Opened(t, protocolId, address, port, now));
      }
    case OpLogin(id, who) =>
      if id in r.sessions && Unauthenticated(r.sessions[id]) {
        LoginKeeps(r, id, who, now);
      }
    case OpFrame(id, data) =>
      if id in r.tracked && id in r.sessions {
        FrameKeeps(r, id, data, now);
      }
    case OpClose(id, reason) =>
      if id in r.sessions {
        CloseKeeps(r, id, reason, now, {});
      }
  }

  lemma FrameKeeps(r: Registry, id: string, data: bool, now: int)
    requires Inv(r) && id in r.tracked && id in r.sessions
    ensures Inv(Perform(r, OpFrame(id, data), now))
  {
    hide IndexSound, IndexComplete, UdpSound, FarewellsDue;
    var p := r.sessions[id];
    UpdateKeeps(r, id, if data then Or(Activate(p, now), p) else p.(lastSeenAt := now));
  }

  // After every run of operations.
  lemma {:induction false} RunKeeps(ops: seq<(Op, int)>)
    ensures Inv(RunOps(ops))
  {
    if ops == [] {
      assert forall id :: FarewellDue(EMPTY, id);
    } else {
      hide InvBut, Perform;
      RunKeeps(ops[..|ops| - 1]);
      PerformKeeps(RunOps(ops[..|ops| - 1]), ops[|ops| - 1].0, ops[|ops| - 1].1);
    }
  }

  // In every run a session is announced as disconnected at most once, and exactly
  // once when it has had a device and is gone.
  lemma DisconnectedOnce(ops: seq<(Op, int)>, id: string)
    ensures Farewells(RunOps(ops).emitted, id) <= 1
    ensures Farewells(RunOps(ops).emitted, id) == 1 <==>
            var r := RunOps(ops);
            id in r.sessions && !IsLive(r.sessions[id]) && r.sessions[id].identity.Some?
  {
    RunKeeps(ops);
    assert FarewellDue(RunOps(ops), id);
  }

  // ----- one operation, spelled out -----

  ghost function ClosedFor(p: Props, reason: CloseReason, now: int): Props {
    p.(state := Closed, closeReason := Some(reason), lastSeenAt := now)
  }

  lemma TornClosed(p: Props, reason: CloseReason, now: int)
    ensures IsLive(p) ==> Torn(p, reason, now) == ClosedFor(p, reason, now)
    ensures !IsLive(p) ==>
              Torn(p, reason, now) == if p.state == Closed then p else p.(state := Closed, lastSeenAt := now)
  {
  }

  // A session that is opened: new, of its transport and endpoint.
  ghost predicate TrackedAs(r: Registry, q: Registry, id: string, t: Transport, protocolId: string, address: string,
                            port: int, now: int)
  {
    q == r.(sessions := r.sessions[id := Props(t, protocolId, address, port, now, New, now, None, None, None, None)],
            tracked := r.tracked + {id},
            byUdp := if t == Udp then r.byUdp[Endpoint(protocolId, address, port) := id] else r.byUdp)
  }

  // A login: bound, indexed and announced, after the session it displaces was closed
  // as a duplicate and that announced.
  ghost predicate LoggedInAs(r: Registry, q: Registry, id: string, who: Identity, now: int)
    requires id in r.sessions
  {
    var d := who.deviceId;
    var bound := r.sessions[id].(state := Authenticated, identity := Some(who), lastSeenAt := now);
    var entered := Lifecycle(id, d, Authenticated, None);
    && d in q.byDevice && q.byDevice[d] == id && q.lastAuth == r.lastAuth[d := id]
    && (if d in r.byDevice && r.byDevice[d] in r.sessions then
          var prior := r.byDevice[d];
          && q.sessions == r.sessions[id := bound][prior := ClosedFor(r.sessions[prior], DuplicateSession, now)]
          && q.tracked == r.tracked - {prior}
          && q.emitted == r.emitted + [Lifecycle(prior, d, Disconnected, Some(DuplicateSession)), entered]
        else
          q.sessions == r.sessions[id := bound] && q.tracked == r.tracked && q.emitted == r.emitted + [entered])
  }

  // A frame, with or without data, of a session that is there.
  ghost predicate FramedAs(r: Registry, q: Registry, id: string, data: bool, now: int)
    requires id in r.sessions
  {
    var p := r.sessions[id];
    q == r.(sessions := r.sessions[id :=
      if !data then p.(lastSeenAt := now)
      else if p.state == Authenticated then
        p.(state := Active, lastSeenAt := now, firstDataAt := Some(now), lastDataAt := Some(now))
      else if p.state == Active then p.(lastSeenAt := now, lastDataAt := Some(now))
      else p])
  }

  // A session that is closed: gone from every index, its socket destroyed, and with
  // a device announced.
  ghost predicate ClosedAs(r: Registry, q: Registry, id: string, reason: CloseReason, now: int)
    requires id in r.sessions
  {
    var p := r.sessions[id];
    && q.sessions == r.sessions[id := ClosedFor(p, reason, now)] && q.tracked == r.tracked - {id}
    && q.byDevice == (if p.identity.Some? then r.byDevice - {p.identity.value.deviceId} else r.byDevice)
    && q.byUdp == r.byUdp - {Endpoint(p.protocolId, p.remoteAddress, p.remotePort)}
    && q.terminators == r.terminators - {id} && q.checkedAt == r.checkedAt - {id}
    && q.destroyed == r.destroyed + (if id in r.terminators then [id] else []) && q.lastAuth == r.lastAuth
    && q.emitted == r.emitted + (if p.identity.None? then []
                                 else [Lifecycle(id, p.identity.value.deviceId, Disconnected, Some(reason))])
  }

  // What an operation makes of a registry: what is named, or nothing where its
  // session is not there or not in the right state; a close of one closed before
  // announces nothing and leaves all sessions as they were.
  ghost predicate Performed(r: Registry, q: Registry, op: Op, now: int) {
    match op
    case OpTrack(id, t, protocolId, address, port) =>
      if id in r.sessions then q == r else TrackedAs(r, q, id, t, protocolId, address, port, now)
    case OpLogin(id, who) =>
      if id in r.sessions && r.sessions[id].state in {New, Identify} then LoggedInAs(r, q, id, who, now) else q == r
    case OpFrame(id, data) =>
      if id in r.tracked && id in r.sessions then FramedAs(r, q, id, data, now) else q == r
    case OpClose(id, reason) =>
      if id !in r.sessions then q == r
      else if id in r.tracked then ClosedAs(r, q, id, reason, now)
      else q.sessions == r.sessions && q.tracked == r.tracked && q.byDevice == r.byDevice && q.emitted == r.emitted
  }

  // Every session is live or closed: no other state outlasts an operation.
  ghost predicate LiveOrClosed(r: Registry) {
    forall id :: id in r.sessions ==> IsLive(r.sessions[id]) || r.sessions[id].state == Closed
  }

  lemma CloseLive(r: Registry, id: string, reason: CloseReason, now: int)
    requires id in r.sessions && IsLive(r.sessions[id]) && Indexed(r, id)
    ensures ClosedAs(r, Close(r, id, reason, now), id, reason, now)
  {
    hide Torn;
    TornClosed(r.sessions[id], reason, now);
  }

  lemma CloseAgain(r: Registry, id: string, reason: CloseReason, now: int)
    requires id in r.sessions && r.sessions[id].state == Closed && id !in r.tracked
    requires forall d :: d in r.byDevice ==> r.byDevice[d] in r.tracked
    ensures var q := Close(r, id, reason, now);
            q.sessions == r.sessions && q.tracked == r.tracked && q.byDevice == r.byDevice && q.emitted == r.emitted
  {
    hide Torn;
    TornClosed(r.sessions[id], reason, now);
    assert r.sessions[id := r.sessions[id]] == r.sessions;
    assert r.emitted + [] == r.emitted;
  }

  lemma CloseExactly(r: Registry, id: string, reason: CloseReason, now: int)
    requires Inv(r) && LiveOrClosed(r) && id in r.sessions
    ensures Performed(r, Close(r, id, reason, now), OpClose(id, reason), now)
  {
    assert id in r.tracked ==> Indexed(r, id);
    hide UdpSound, FarewellsDue, Indexed, Close, ClosedAs;
    if id in r.tracked {
      CloseLive(r, id, reason, now);
    } else {
      CloseAgain(r, id, reason, now);
    }
  }

  lemma LoginExactly(r: Registry, id: string, who: Identity, now: int)
    requires Inv(r) && id in r.sessions && Unauthenticated(r.sessions[id])
    ensures LoggedInAs(r, Login(r, id, who, now), id, who, now)
  {
    hide UdpSound, FarewellsDue, Torn;
    if who.deviceId in r.byDevice {
      TornClosed(r.sessions[r.byDevice[who.deviceId]], DuplicateSession, now);
    }
  }

  lemma PerformExactly(r: Registry, op: Op, now: int)
    requires Inv(r) && LiveOrClosed(r)
    ensures Performed(r, Perform(r, op, now), op, now)
  {
    hide Login, Close;
    match op
    case OpTrack(_, _, _, _, _) =>
    case OpLogin(id, who) =>
      if id in r.sessions && Unauthenticated(r.sessions[id]) {
        LoginExactly(r, id, who, now);
      }
    case OpFrame(_, _) =>
    case OpClose(id, reason) =>
      if id in r.sessions {
        CloseExactly(r, id, reason, now);
      }
  }

  lemma PerformedLiveOrClosed(r: Registry, q: Registry, op: Op, now: int)
    requires Inv(r) && LiveOrClosed(r) && Performed(r, q, op, now)
    ensures LiveOrClosed(q)
  {
    hide UdpSound, FarewellsDue, IndexComplete;
  }

  lemma {:induction false} RunLiveOrClosed(ops: seq<(Op, int)>)
    ensures LiveOrClosed(RunOps(ops))
  {
    if ops != [] {
      hide InvBut, Perform, LiveOrClosed, Performed;
      var k := |ops| - 1;
      RunKeeps(ops[..k]);
      RunLiveOrClosed(ops[..k]);
      PerformExactly(RunOps(ops[..k]), ops[k].0, ops[k].1);
      PerformedLiveOrClosed(RunOps(ops[..k]), RunOps(ops), ops[k].0, ops[k].1);
    }
  }

  // In every run, what the next operation does.
  lemma OperationExactly(ops: seq<(Op, int)>, op: Op, now: int)
    ensures Performed(RunOps(ops), RunOps(ops + [(op, now)]), op, now)
  {
    hide InvBut, Perform, LiveOrClosed, Performed;
    var more := ops + [(op, now)];
    assert more[..|more| - 1] == ops;
    RunKeeps(ops);
    RunLiveOrClosed(ops);
    PerformExactly(RunOps(ops), op, now);
  }
}
