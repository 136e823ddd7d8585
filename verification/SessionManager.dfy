// The session manager object: maps of live session objects, kept in step with
// the registry value that SessionRegistry specifies.
module SessionManager {
  import opened DeviceSession
  import opened Optional
  import opened SessionRegistry
  import opened SessionSweep

  // ----- session objects and the values they stand for -----

  // The objects carry the ids they are known by, and the state the registry says.
  ghost predicate Mirror(known: map<string, Session>, sessions: map<string, Props>)
    reads known.Values
  {
    && known.Keys == sessions.Keys
    && (forall id :: id in known ==> known[id].id == id && known[id].props == sessions[id])
  }

  // A map of objects names, key by key, the sessions that a map of ids does.
  ghost predicate Names<K>(objects: map<K, Session>, ids: map<K, string>, known: map<string, Session>) {
    && objects.Keys == ids.Keys
    && (forall k :: k in objects ==> ids[k] in known && known[ids[k]] == objects[k])
  }

  ghost predicate Members(objects: map<string, Session>, ids: set<string>, known: map<string, Session>) {
    && objects.Keys == ids
    && (forall id :: id in objects ==> id in known && known[id] == objects[id])
  }

  ghost predicate Knows(known: map<string, Session>, s: Session) {
    s.id in known && known[s.id] == s
  }

  lemma NamesDrop<K>(objects: map<K, Session>, ids: map<K, string>, known: map<string, Session>, k: K)
    requires Names(objects, ids, known)
    ensures Names(objects - {k}, ids - {k}, known)
  {
  }

  lemma NamesAdd<K>(objects: map<K, Session>, ids: map<K, string>, known: map<string, Session>, k: K, s: Session)
    requires Names(objects, ids, known) && Knows(known, s)
    ensures Names(objects[k := s], ids[k := s.id], known)
  {
  }

  lemma NamesGrow<K>(objects: map<K, Session>, ids: map<K, string>, known: map<string, Session>, s: Session)
    requires Names(objects, ids, known) && s.id !in known
    ensures Names(objects, ids, known[s.id := s])
  {
  }

  // Naming the object and naming its id are the same.
  lemma NamesSame<K>(objects: map<K, Session>, ids: map<K, string>, known: map<string, Session>, k: K, s: Session)
    requires Names(objects, ids, known) && Knows(known, s)
    requires forall id :: id in known ==> known[id].id == id
    ensures k in objects <==> k in ids
    ensures k in objects ==>
              Knows(known, objects[k]) && objects[k].id == ids[k] && (objects[k] == s <==> ids[k] == s.id)
  {
    if k in objects {
      assert known[ids[k]] == objects[k];
    }
  }

  lemma MembersDrop(objects: map<string, Session>, ids: set<string>, known: map<string, Session>, id: string)
    requires Members(objects, ids, known)
    ensures Members(objects - {id}, ids - {id}, known)
  {
  }

  lemma MembersAdd(objects: map<string, Session>, ids: set<string>, known: map<string, Session>, s: Session)
    requires Members(objects, ids, known) && s.id !in known
    ensures Members(objects[s.id := s], ids + {s.id}, known[s.id := s])
  {
  }

  // Disconnect if live, then close.
  method TearDown(session: Session, reason: CloseReason, now: int,
                  ghost known: map<string, Session>, ghost sessions: map<string, Props>)
    requires Mirror(known, sessions) && Knows(known, session)
    modifies session
    ensures session.props == Torn(old(session.props), reason, now)
    ensures Mirror(known, sessions[session.id := session.props])
  {
    if IsLive(session.props) {
      session.DoDisconnect(reason, now);
    }
    session.DoClose(now);
  }

  // Identify if new, then authenticate.
  method Admit(session: Session, who: Identity, now: int,
               ghost known: map<string, Session>, ghost sessions: map<string, Props>)
    requires Mirror(known, sessions) && Knows(known, session) && Unauthenticated(session.props)
    modifies session
    ensures session.props == Admitted(old(session.props), who, now)
    ensures Mirror(known, sessions[session.id := session.props])
  {
    if session.props.state.New? {
      var identified := session.DoIdentify(now);
    }
    var authenticated := session.DoAuthenticate(who, now);
  }

  lemma TornSame(p: Props, reason: CloseReason, now: int)
    ensures var q := Torn(p, reason, now);
            q.identity == p.identity && DeviceOf(q) == DeviceOf(p) && EndpointOf(q) == EndpointOf(p)
  {
  }

  lemma LoginIs(r: Registry, id: string, who: Identity, now: int)
    requires id in r.sessions && Unauthenticated(r.sessions[id])
    ensures var b := Bind(r, id, who, now);
            && SessionRegistry.Login(r, id, who, now) == Enter(Evict(b, id, who.deviceId, now), id, who.deviceId)
            && b == r.(sessions := r.sessions[id := Admitted(r.sessions[id], who, now)])
            && (forall q: Registry :: Enter(q, id, who.deviceId) ==
                  q.(byDevice := q.byDevice[who.deviceId := id], lastAuth := q.lastAuth[who.deviceId := id],
                     emitted := q.emitted + [Lifecycle(id, who.deviceId, Authenticated, None)]))
  {
    hide Evict;
  }

  ghost function Ids(list: seq<Session>): set<string> {
    set s | s in list :: s.id
  }

  // A list that names each session of a set once.
  ghost predicate Gathered(known: map<string, Session>, list: seq<Session>, ids: set<string>) {
    (forall s :: s in list ==> Knows(known, s)) && Ids(list) == ids && |list| == |ids|
  }

  lemma GatherOne(known: map<string, Session>, list: seq<Session>, ids: set<string>, s: Session)
    requires Gathered(known, list, ids) && Knows(known, s) && s.id !in ids
    ensures Gathered(known, list + [s], ids + {s.id})
  {
    assert Ids(list + [s]) == Ids(list) + {s.id};
  }

  // One less to do, one more done.
  lemma OneLess(all: set<string>, todo: set<string>, id: string)
    requires id in todo
    ensures id !in all - todo
    ensures id in all ==> all - (todo - {id}) == (all - todo) + {id} && |all - (todo - {id})| == |all - todo| + 1
    ensures id !in all ==> all - (todo - {id}) == all - todo
  {
    if id in all {
      assert all - (todo - {id}) == (all - todo) + {id};
    } else {
      assert all - (todo - {id}) == all - todo;
    }
  }

  lemma GatherNone(known: map<string, Session>)
    ensures Gathered(known, [], {})
  {
  }

  lemma GatheredKnows(known: map<string, Session>, list: seq<Session>, ids: set<string>)
    requires Gathered(known, list, ids)
    ensures (forall s :: s in list ==> Knows(known, s)) && Ids(list) == ids && |list| == |ids|
  {
  }

  lemma NoneLeft(r: Registry, q: Registry, reason: CloseReason, now: int)
    requires ClosedExactly(r, q, r.tracked, reason, now) && Inv(q)
    ensures q.tracked == {} && q.byDevice == map[]
  {
    hide InvBut;
    NoneIndexed(q);
  }

  lemma IndexedAreTracked(r: Registry)
    requires Inv(r)
    ensures r.byDevice.Values <= r.tracked
  {
  }

  lemma NoneIndexed(r: Registry)
    requires Inv(r) && r.tracked == {}
    ensures r.byDevice == map[]
  {
    hide Inv;
    IndexedAreTracked(r);
    NoValues(r.byDevice);
  }

  lemma NoValues(m: map<string, string>)
    ensures m.Values == {} ==> m == map[]
  {
    if m != map[] {
      var k :| k in m.Keys;
      assert m[k] in m.Values;
    }
  }

  lemma NoneNamed(bySession: map<string, Session>, byDevice: map<string, Session>, r: Registry,
                  known: map<string, Session>)
    requires Members(bySession, r.tracked, known) && Names(byDevice, r.byDevice, known)
    requires r.tracked == {} && r.byDevice == map[]
    ensures bySession == map[] && byDevice == map[]
  {
  }

  lemma LateIs(r: Registry, options: Options, now: int, id: string)
    requires id in r.sessions && id in r.tracked
    ensures var p := r.sessions[id];
            && (id in Late(r, options, IdleTimeout, now) <==>
                IsLive(p) && Unauthenticated(p) && now - p.createdAt >= options.authGraceMs)
            && (id in Late(r, options, TtlExpired, now) <==>
                IsLive(p) && !(Unauthenticated(p) && now - p.createdAt >= options.authGraceMs)
                && p.transport.Udp? && now - p.lastSeenAt >= options.udpTtlSeconds * 1000)
  {
  }

  lemma LateTracked(r: Registry, options: Options, now: int)
    ensures Late(r, options, IdleTimeout, now) <= r.tracked && Late(r, options, TtlExpired, now) <= r.tracked
  {
  }

  lemma StartClosing(r: Registry, reason: CloseReason, now: int)
    ensures ClosedExactly(r, r, Ids([]), reason, now) && SameChecks(r, r, Ids([]))
  {
    ClosedNone(r, reason, now);
  }

  lemma IdsAppend(list: seq<Session>, i: nat)
    requires i < |list|
    ensures Ids(list[..i + 1]) == Ids(list[..i]) + {list[i].id}
  {
    assert list[..i + 1] == list[..i] + [list[i]];
  }

  lemma ChecksOneMore(r: Registry, q: Registry, ids: set<string>, id: string, reason: CloseReason, now: int)
    requires SameChecks(r, q, ids) && id in q.sessions
    ensures SameChecks(r, Close(q, id, reason, now), ids + {id})
  {
    CloseSparesChecks(q, id, reason, now);
  }

  lemma CloseKeepsInv(r: Registry, id: string, reason: CloseReason, now: int)
    requires Inv(r) && id in r.sessions
    ensures Inv(Close(r, id, reason, now))
  {
    hide InvBut, Close;
    CloseKeeps(r, id, reason, now, {});
  }

  lemma KnowsItself(known: map<string, Session>, s: Session)
    requires Knows(known, s)
    ensures s.id in known && known[s.id] == s
  {
  }

  lemma CloseIs(r: Registry, id: string, reason: CloseReason, now: int)
    requires id in r.sessions
    ensures var p, q := r.sessions[id], Close(r, id, reason, now);
            && q.sessions == r.sessions[id := Torn(p, reason, now)]
            && q.tracked == r.tracked - {id} && q.byUdp == r.byUdp - {EndpointOf(p)}
            && q.checkedAt == r.checkedAt - {id} && q.terminators == r.terminators - {id}
            && q.destroyed == (if id in r.terminators then r.destroyed + [id] else r.destroyed)
            && q.emitted == (if IsLive(p) && p.identity.Some?
                             then r.emitted + [Lifecycle(id, p.identity.value.deviceId, Disconnected, Some(reason))]
                             else r.emitted)
            && q.byDevice == (if p.identity.Some? && p.identity.value.deviceId in r.byDevice
                                 && r.byDevice[p.identity.value.deviceId] == id
                              then r.byDevice - {p.identity.value.deviceId} else r.byDevice)
  {
  }

  // The device index without a session that is closed.
  lemma UnindexKeeps(byDevice: map<string, Session>, r: Registry, known: map<string, Session>, session: Session,
                     reason: CloseReason, now: int)
    requires Names(byDevice, r.byDevice, known) && Knows(known, session) && session.id in r.sessions
    requires forall id :: id in known ==> known[id].id == id
    ensures var d := DeviceOf(r.sessions[session.id]);
            Names(if d.Some? && d.value in byDevice && byDevice[d.value] == session then byDevice - {d.value}
                  else byDevice,
                  Close(r, session.id, reason, now).byDevice, known)
  {
    hide Names, Torn, Farewell;
    var d := DeviceOf(r.sessions[session.id]);
    if d.Some? {
      NamesSame(byDevice, r.byDevice, known, d.value, session);
      NamesDrop(byDevice, r.byDevice, known, d.value);
    }
  }

  lemma MirrorHas(known: map<string, Session>, sessions: map<string, Props>, s: Session)
    requires Mirror(known, sessions) && Knows(known, s)
    ensures s.id in sessions && sessions[s.id] == s.props
    ensures forall id :: id in known ==> known[id].id == id
  {
  }

  class Manager {
    var byDevice: map<string, Session>
    var bySession: map<string, Session>
    var byUdpSource: map<Endpoint, Session>
    var terminators: set<string>
    var supersededCheckedAt: map<string, int>
    // The lifecycle events emitted and the sockets destroyed, in order.
    var emitted: seq<Lifecycle>
    var destroyed: seq<string>
    const options: Options
    // The registry value, and every session object ever tracked.
    ghost var view: Registry
    ghost var known: map<string, Session>

    // The fields are the registry value, with objects for ids.
    ghost predicate Agrees()
      reads this, known.Values
    {
      && Mirror(known, view.sessions)
      && Indexes()
      && terminators == view.terminators && supersededCheckedAt == view.checkedAt
      && emitted == view.emitted && destroyed == view.destroyed
    }

    ghost predicate Indexes()
      reads this
    {
      && Members(bySession, view.tracked, known)
      && Names(byDevice, view.byDevice, known)
      && Names(byUdpSource, view.byUdp, known)
    }

    lemma Agreed()
      requires Agrees()
      ensures Mirror(known, view.sessions) && Members(bySession, view.tracked, known)
      ensures Names(byDevice, view.byDevice, known) && Names(byUdpSource, view.byUdp, known)
      ensures terminators == view.terminators && supersededCheckedAt == view.checkedAt
      ensures emitted == view.emitted && destroyed == view.destroyed
    {
      hide Mirror, Members, Names;
    }

    lemma Agree()
      requires Mirror(known, view.sessions) && Members(bySession, view.tracked, known)
      requires Names(byDevice, view.byDevice, known) && Names(byUdpSource, view.byUdp, known)
      requires terminators == view.terminators && supersededCheckedAt == view.checkedAt
      requires emitted == view.emitted && destroyed == view.destroyed
      ensures Agrees()
    {
      hide Mirror, Members, Names;
    }

    ghost predicate Valid()
      reads this, known.Values
    {
      Agrees() && Inv(view)
    }

    lemma Validate()
      requires Agrees() && Inv(view)
      ensures Valid()
    {
      hide Agrees, Inv;
    }

    lemma Validated()
      requires Valid()
      ensures Agrees() && Inv(view)
    {
      hide Agrees, Inv;
    }

    constructor (options: Options)
      ensures Valid() && view == EMPTY && this.options == options
    {
      byDevice, bySession, byUdpSource := map[], map[], map[];
      terminators, supersededCheckedAt, emitted, destroyed := {}, map[], [], [];
      known, view := map[], EMPTY;
      this.options := options;
      new;
      RunKeeps([]);
    }

    method TrackSession(session: Session)
      requires Valid() && session.id !in known && session.props.state.New? && Bound(session.props)
      modifies this
      ensures Valid() && known == old(known)[session.id := session]
      ensures view == Track(old(view), session.id, session.props)
    {
      hide *;
      ghost var all, r, q := known[session.id := session], view, Track(view, session.id, session.props);
      MayTrack(session);
      Tracked(session);
      bySession := bySession[session.id := session];
      if session.props.transport.Udp? {
        byUdpSource := byUdpSource[EndpointOf(session.props) := session];
      }
      view, known := q, all;
      Agree();
      Validate();
    }

    lemma MayTrack(session: Session)
      requires Valid() && session.id !in known && session.props.state.New? && Bound(session.props)
      ensures Agrees() && Inv(Track(view, session.id, session.props))
    {
      hide InvBut, Members, Names;
      TrackKeeps(view, session.id, session.props);
    }

    // What the maps will be with one more session.
    lemma Tracked(session: Session)
      requires Agrees() && session.id !in known
      ensures var all, q := known[session.id := session], Track(view, session.id, session.props);
              && Mirror(all, q.sessions)
              && Members(bySession[session.id := session], q.tracked, all)
              && Names(byDevice, q.byDevice, all)
              && Names(if session.props.transport.Udp? then byUdpSource[EndpointOf(session.props) := session]
                       else byUdpSource, q.byUdp, all)
              && q.terminators == view.terminators && q.checkedAt == view.checkedAt
              && q.emitted == view.emitted && q.destroyed == view.destroyed
              && terminators == view.terminators && supersededCheckedAt == view.checkedAt
              && emitted == view.emitted && destroyed == view.destroyed
    {
      hide Members, Names;
      ghost var all := known[session.id := session];
      MembersAdd(bySession, view.tracked, known, session);
      NamesGrow(byDevice, view.byDevice, known, session);
      NamesGrow(byUdpSource, view.byUdp, known, session);
      NamesAdd(byUdpSource, view.byUdp, all, EndpointOf(session.props), session);
    }

    // The live session of a datagram's source, if any.
    method UdpSessionFor(e: Endpoint) returns (s: Session?)
      requires Valid()
      ensures s != null ==> Knows(known, s) && IsLive(s.props) && EndpointOf(s.props) == e
      ensures s == null <==> e !in byUdpSource
    {
      hide IndexSound, IndexComplete, FarewellsDue;
      s := if e in byUdpSource && IsLive(byUdpSource[e].props) then byUdpSource[e] else null;
    }

    method RegisterTerminator(id: string)
      requires Agrees()
      modifies this`terminators, this`view
      ensures Agrees() && view == old(view).(terminators := old(terminators) + {id})
    {
      hide Names, Members;
      terminators := terminators + {id};
      view := view.(terminators := terminators);
    }

    method CloseSession(session: Session, reason: CloseReason, now: int)
      requires Agrees() && Knows(known, session)
      modifies this, session
      ensures Agrees() && known == old(known)
      ensures view == Close(old(view), session.id, reason, now)
    {
      hide *;
      ghost var p, r := session.props, view;
      Agreed();
      KnowsItself(known, session);
      MirrorHas(known, r.sessions, session);
      NamesDrop(byUdpSource, r.byUdp, known, EndpointOf(p));
      MembersDrop(bySession, r.tracked, known, session.id);
      TornSame(p, reason, now);
      UnindexKeeps(byDevice, r, known, session, reason, now);
      CloseIs(r, session.id, reason, now);
      var wasLive := IsLive(session.props);
      TearDown(session, reason, now, known, view.sessions);
      Unindex(session);
      DestroySocket(session.id);
      if wasLive && session.props.identity.Some? {
        emitted := emitted + [Lifecycle(session.id, session.props.identity.value.deviceId, Disconnected, Some(reason))];
      }
      view := Close(view, session.id, reason, now);
      Agree();
    }

    // Bind the device the registry resolved, and take its place: newest wins.
    method Login(session: Session, who: Identity, now: int)
      requires Valid() && Knows(known, session) && Unauthenticated(session.props)
      modifies this, known.Values
      ensures Valid() && known == old(known)
      ensures view == SessionRegistry.Login(old(view), session.id, who, now)
    {
      hide *;
      ghost var r := view;
      Validated();
      Agreed();
      MirrorHas(known, r.sessions, session);
      KnowsItself(known, session);
      LoginKeeps(r, session.id, who, now);
      LoginIs(r, session.id, who, now);
      Admit(session, who, now, known, r.sessions);
      view := Bind(r, session.id, who, now);
      Agree();
      EvictLocalDuplicate(session, who.deviceId, now);
      Agreed();
      MirrorHas(known, view.sessions, session);
      NamesAdd(byDevice, view.byDevice, known, who.deviceId, session);
      byDevice := byDevice[who.deviceId := session];
      emitted := emitted + [Lifecycle(session.id, who.deviceId, Authenticated, None)];
      view := Enter(view, session.id, who.deviceId);
      Agree();
      Validate();
    }

    method EvictLocalDuplicate(incoming: Session, deviceId: string, now: int)
      requires Agrees() && Knows(known, incoming)
      modifies this, known.Values
      ensures Agrees() && known == old(known)
      ensures view == Evict(old(view), incoming.id, deviceId, now)
    {
      hide Agrees, Close, Mirror, Names, Members, Knows;
      Agreed();
      MirrorHas(known, view.sessions, incoming);
      NamesSame(byDevice, view.byDevice, known, deviceId, incoming);
      if deviceId in byDevice {
        var prior := byDevice[deviceId];
        MirrorHas(known, view.sessions, prior);
        if prior != incoming && IsLive(prior.props) {
          CloseSession(prior, DuplicateSession, now);
        }
      }
    }

    // Close the sessions of a list one after the other.
    method CloseEach(list: seq<Session>, reason: CloseReason, now: int)
      requires Valid() && forall s :: s in list ==> Knows(known, s)
      modifies this, known.Values
      ensures Valid() && known == old(known)
      ensures ClosedExactly(old(view), view, Ids(list), reason, now)
      ensures SameChecks(old(view), view, Ids(list))
    {
      hide *;
      ghost var r := view;
      StartClosing(r, reason, now);
      for i := 0 to |list|
        invariant Valid() && known == old(known)
        invariant ClosedExactly(r, view, Ids(list[..i]), reason, now)
        invariant SameChecks(r, view, Ids(list[..i]))
      {
        Validated();
        Agreed();
        KnowsItself(known, list[i]);
        MirrorHas(known, view.sessions, list[i]);
        ClosedOneMore(r, view, Ids(list[..i]), list[i].id, reason, now);
        ChecksOneMore(r, view, Ids(list[..i]), list[i].id, reason, now);
        IdsAppend(list, i);
        CloseKeepsInv(view, list[i].id, reason, now);
        CloseSession(list[i], reason, now);
        Validate();
      }
      assert list[..|list|] == list;
    }

    lemma TrackedObjects()
      requires Valid()
      ensures bySession.Keys == view.tracked
      ensures forall id :: id in bySession ==>
                Knows(known, bySession[id]) && bySession[id].id == id
                && id in view.sessions && bySession[id].props == view.sessions[id]
    {
      hide Inv, Names;
    }

    // A snapshot of the tracked sessions.
    method TrackedSessions() returns (list: seq<Session>)
      requires Valid()
      ensures Gathered(known, list, view.tracked)
    {
      hide *;
      TrackedObjects();
      var todo := bySession.Keys;
      list := [];
      GatherNone(known);
      ghost var got := {};
      while todo != {}
        invariant todo <= bySession.Keys
        invariant Gathered(known, list, got) && got == bySession.Keys - todo
        decreases |todo|
      {
        var id :| id in todo;
        GatherOne(known, list, got, bySession[id]);
        todo, got := todo - {id}, got + {id};
        list := list + [bySession[id]];
      }
      assert got == bySession.Keys;
    }

    // Close every tracked session, on shutdown.
    method CloseAll(reason: CloseReason, now: int)
      requires Valid()
      modifies this, known.Values
      ensures Valid() && known == old(known)
      ensures ClosedExactly(old(view), view, old(view).tracked, reason, now)
      ensures view.tracked == {} && byDevice == map[] && bySession == map[]
    {
      hide *;
      ghost var r := view;
      var list := TrackedSessions();
      GatheredKnows(known, list, view.tracked);
      CloseEach(list, reason, now);
      Validated();
      Agreed();
      NoneLeft(r, view, reason, now);
      NoneNamed(bySession, byDevice, view, known);
    }

    // The tracked sessions that are out of time, by what for.
    method CollectLate(now: int) returns (authGrace: seq<Session>, udpTtl: seq<Session>)
      requires Valid()
      ensures Gathered(known, authGrace, Late(view, options, IdleTimeout, now))
      ensures Gathered(known, udpTtl, Late(view, options, TtlExpired, now))
    {
      hide *;
      TrackedObjects();
      var todo := bySession.Keys;
      authGrace, udpTtl := [], [];
      GatherNone(known);
      LateTracked(view, options, now);
      ghost var idle, expired := Late(view, options, IdleTimeout, now), Late(view, options, TtlExpired, now);
      assert idle - todo == {} && expired - todo == {};
      while todo != {}
        invariant todo <= bySession.Keys
        invariant Gathered(known, authGrace, idle - todo)
        invariant Gathered(known, udpTtl, expired - todo)
        decreases |todo|
      {
        var id :| id in todo;
        var session := bySession[id];
        LateIs(view, options, now, id);
        OneLess(idle, todo, id);
        OneLess(expired, todo, id);
        GatherOne(known, authGrace, idle - todo, session);
        GatherOne(known, udpTtl, expired - todo, session);
        todo := todo - {id};
        if IsLive(session.props) {
          if Unauthenticated(session.props) && now - session.props.createdAt >= options.authGraceMs {
            authGrace := authGrace + [session];
          } else if session.props.transport.Udp? && now - session.props.lastSeenAt >= options.udpTtlSeconds * 1000 {
            udpTtl := udpTtl + [session];
          }
        }
      }
      assert idle - todo == idle && expired - todo == expired;
    }

    method CheckSuperseded(session: Session, slots: map<(string, string), string>, now: int) returns (closed: bool)
      requires Valid() && Knows(known, session)
      modifies this, known.Values
      ensures Valid() && known == old(known) && session.id in old(view).sessions
      ensures view == CheckOne(old(view), options, Some(slots), session.id, now)
      ensures closed == Superseded(old(view), options, Some(slots), session.id, now)
    {
      hide Agrees, Inv, Mirror, Names, Members, Knows, Close;
      Validated();
      Agreed();
      KnowsItself(known, session);
      MirrorHas(known, view.sessions, session);
      CheckOneKeeps(view, options, Some(slots), session.id, now);
      closed := false;
      var last := if session.id in supersededCheckedAt then supersededCheckedAt[session.id] else 0;
      if IsLive(session.props) && session.props.identity.Some? && now - last >= options.supersededCheckIntervalMs {
        var slot := (session.props.identity.value.tenantId, session.props.identity.value.deviceId);
        supersededCheckedAt := supersededCheckedAt[session.id := now];
        view := Checked(view, session.id, now);
        Agree();
        if slot in slots && slots[slot] != session.id {
          CloseSession(session, DuplicateSession, now);
          closed := true;
        }
      }
      Validate();
    }

    // Close the sessions another instance has taken the slot of; without a store
    // there is nothing to see.
    method DetectSuperseded(slots: Slots, now: int) returns (closed: nat)
      requires Valid()
      modifies this, known.Values
      ensures Valid() && known == old(known)
      ensures ClosedExactly(old(view), view, Rivalled(old(view), options, slots, now), DuplicateSession, now)
      ensures slots.Some? ==> ChecksDone(old(view), view, options, old(view).tracked, now)
      ensures closed == |Rivalled(old(view), options, slots, now)|
      ensures forall id :: id in old(view).tracked && id in old(view).sessions ==>
                (id in Rivalled(old(view), options, slots, now) <==> TakenOver(old(view), options, slots, id, now))
    {
      hide *;
      ghost var r := view;
      RivalledExactly(r, options, slots, now);
      closed := 0;
      if slots.None? {
        NoRivals(r, options, now);
        return;
      }
      Validated();
      TrackedKnown(r);
      TrackedObjects();
      SearchStarts(r, options, slots, now);
      var todo := bySession.Keys;
      ghost var rivals := Rivalled(r, options, slots, now);
      RivalledTracked(r, options, slots, now);
      while todo != {}
        invariant Valid() && known == old(known)
        invariant todo <= r.tracked && Searched(r, view, options, slots, todo, now)
        invariant closed == |rivals - todo|
        decreases |todo|
      {
        var id :| id in todo;
        SearchStep(r, view, options, slots, todo, id, now);
        SearchSpares(r, view, options, slots, todo, id, now);
        OneLess(rivals, todo, id);
        TrackedObjects();
        todo := todo - {id};
        var outbid := CheckSuperseded(bySession[id], slots.value, now);
        if outbid {
          closed := closed + 1;
        }
      }
      SearchEnds(r, view, options, slots, now);
      assert rivals - todo == rivals;
    }

    // One liveness sweep.
    method Sweep(slots: Slots, now: int) returns (closedAuthGrace: nat, closedUdpTtl: nat, closedSuperseded: nat)
      requires Valid()
      modifies this, known.Values
      ensures Valid() && known == old(known)
      ensures SweptExactly(old(view), view, options, slots, now)
      ensures closedAuthGrace == |Fated(old(view), options, slots, IdleTimeout, now)|
      ensures closedUdpTtl == |Fated(old(view), options, slots, TtlExpired, now)|
      ensures closedSuperseded == |Fated(old(view), options, slots, DuplicateSession, now)|
      ensures forall id :: id in view.tracked && id in view.sessions ==> Fate(view, options, slots, id, now).None?
    {
      hide *;
      ghost var r := view;
      Validated();
      var authGrace, udpTtl := CollectLate(now);
      GatheredKnows(known, authGrace, Late(r, options, IdleTimeout, now));
      GatheredKnows(known, udpTtl, Late(r, options, TtlExpired, now));
      closedAuthGrace, closedUdpTtl := |authGrace|, |udpTtl|;
      CloseEach(authGrace, IdleTimeout, now);
      ghost var a := view;
      CloseEach(udpTtl, TtlExpired, now);
      ghost var b := view;
      Validated();
      SameChecksTwice(r, a, b, Ids(authGrace), Ids(udpTtl));
      closedSuperseded := DetectSuperseded(slots, now);
      Validated();
      RoundsSweep(r, a, b, view, options, slots, now);
      RoundsFated(r, a, b, options, slots, now);
      NothingLeftToSweep(r, a, b, view, options, slots, now);
      SweptMeans(r, view, options, slots, now);
    }

    method Unindex(session: Session)
      modifies this`byDevice, this`bySession, this`byUdpSource, this`supersededCheckedAt
      ensures var d := DeviceOf(session.props);
              byDevice == if d.Some? && d.value in old(byDevice) && old(byDevice)[d.value] == session
                          then old(byDevice) - {d.value} else old(byDevice)
      ensures bySession == old(bySession) - {session.id}
      ensures byUdpSource == old(byUdpSource) - {EndpointOf(session.props)}
      ensures supersededCheckedAt == old(supersededCheckedAt) - {session.id}
    {
      var who := session.props.identity;
      if who.Some? && who.value.deviceId in byDevice && byDevice[who.value.deviceId] == session {
        byDevice := byDevice - {who.value.deviceId};
      }
      bySession := bySession - {session.id};
      byUdpSource := byUdpSource - {EndpointOf(session.props)};
      supersededCheckedAt := supersededCheckedAt - {session.id};
    }

    method DestroySocket(id: string)
      modifies this`terminators, this`destroyed
      ensures terminators == old(terminators) - {id}
      ensures destroyed == (if id in old(terminators) then old(destroyed) + [id] else old(destroyed))
    {
      var terminator := id in terminators;
      terminators := terminators - {id};
      if terminator {
        destroyed := destroyed + [id];
      }
    }
  }
}
