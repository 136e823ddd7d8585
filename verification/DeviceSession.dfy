// The session aggregate of the device gateway: the live association between a
// resolved device and its transport endpoint.
module DeviceSession {
  import opened Optional

  datatype State = New | Identify | Authenticated | Active | Disconnected | Closing | Closed

  datatype Transport = Tcp | Udp

  datatype CloseReason =
    | IdleTimeout | ProtocolError | AuthFailed | DuplicateSession
    | RemoteDisconnect | TtlExpired | Admin | Shutdown

  // What the registry resolves a device to.
  datatype Identity = Identity(deviceId: string, tenantId: string, serialOrImei: string, vehicleId: Option<string>)

  datatype Props = Props(
    transport: Transport, protocolId: string, remoteAddress: string, remotePort: int, createdAt: int,
    state: State, lastSeenAt: int, identity: Option<Identity>,
    firstDataAt: Option<int>, lastDataAt: Option<int>, closeReason: Option<CloseReason>)

  function Opened(transport: Transport, protocolId: string, address: string, port: int, now: int): Props {
    Props(transport, protocolId, address, port, now, New, now, None, None, None, None)
  }

  predicate IsLive(p: Props) { p.state in {New, Identify, Authenticated, Active} }

  // The gate of publishing and of command dispatch.
  predicate CanPublish(p: Props) { p.state in {Authenticated, Active} }

  // ----- transitions; None is an illegal-transition error -----

  function Identified(p: Props, now: int): Option<Props> {
    if p.state.New? then Some(p.(state := Identify, lastSeenAt := now)) else None
  }

  function Authenticate(p: Props, who: Identity, now: int): Option<Props> {
    if p.state.Identify? then Some(p.(identity := Some(who), state := Authenticated, lastSeenAt := now)) else None
  }

  function RecordData(p: Props, now: int): Props {
    if p.state.Active? then p.(lastDataAt := Some(now), lastSeenAt := now) else p
  }

  function Activate(p: Props, now: int): Option<Props> {
    if p.state.Active? then Some(RecordData(p, now))
    else if p.state.Authenticated? then
      Some(p.(state := Active, firstDataAt := Some(now), lastDataAt := Some(now), lastSeenAt := now))
    else None
  }

  function BeginClosing(p: Props, reason: CloseReason, now: int): Props {
    if p.state.Closed? || p.state.Disconnected? then p.(closeReason := Some(reason))
    else p.(state := Closing, closeReason := Some(reason), lastSeenAt := now)
  }

  function Disconnect(p: Props, reason: CloseReason, now: int): Props {
    if p.state.Closed? then p
    else
      var q := if CanPublish(p) then p else BeginClosing(p, reason, now);
      q.(state := Disconnected, closeReason := Some(reason), lastSeenAt := now)
  }

  function Finish(p: Props, now: int): Props {
    if p.state.Closed? then p else p.(state := Closed, lastSeenAt := now)
  }

  predicate Unauthenticated(p: Props) { p.state.New? || p.state.Identify? }

  // A login: identify if new, then authenticate.
  function Admitted(p: Props, who: Identity, now: int): Props
    requires Unauthenticated(p)
  {
    Authenticate(if p.state.New? then Identified(p, now).value else p, who, now).value
  }

  // ----- whole lives -----

  datatype Op =
    | DoIdentify(now: int) | DoAuthenticate(who: Identity, now: int) | DoActivate(now: int)
    | DoRecordData(now: int) | DoTouch(now: int) | DoBeginClosing(reason: CloseReason, now: int)
    | DoDisconnect(reason: CloseReason, now: int) | DoFinish(now: int)

  function Or(q: Option<Props>, p: Props): Props { if q.Some? then q.value else p }

  function Apply(p: Props, op: Op): Props {
    match op
    case DoIdentify(now) => Or(Identified(p, now), p)
    case DoAuthenticate(who, now) => Or(Authenticate(p, who, now), p)
    case DoActivate(now) => Or(Activate(p, now), p)
    case DoRecordData(now) => RecordData(p, now)
    case DoTouch(now) => p.(lastSeenAt := now)
    case DoBeginClosing(reason, now) => BeginClosing(p, reason, now)
    case DoDisconnect(reason, now) => Disconnect(p, reason, now)
    case DoFinish(now) => Finish(p, now)
  }

  function Live(p: Props, ops: seq<Op>): Props
    decreases |ops|
  {
    if ops == [] then p else Live(Apply(p, ops[0]), ops[1..])
  }

  // What each operation makes of a session: q is p but for what is named, and p as
  // a whole where the operation is refused or has nothing to do.
  ghost predicate Steps(p: Props, op: Op, q: Props) {
    match op
    case DoIdentify(now) =>
      q == if p.state == New then p.(state := Identify, lastSeenAt := now) else p
    case DoAuthenticate(who, now) =>
      q == if p.state == Identify then p.(state := Authenticated, lastSeenAt := now, identity := Some(who)) else p
    case DoActivate(now) =>
      q == if p.state == Authenticated then
             p.(state := Active, lastSeenAt := now, firstDataAt := Some(now), lastDataAt := Some(now))
           else if p.state == Active then p.(lastSeenAt := now, lastDataAt := Some(now)) else p
    case DoRecordData(now) =>
      q == if p.state == Active then p.(lastSeenAt := now, lastDataAt := Some(now)) else p
    case DoTouch(now) => q == p.(lastSeenAt := now)
    case DoBeginClosing(reason, now) =>
      q == if p.state == Disconnected || p.state == Closed then p.(closeReason := Some(reason))
           else p.(state := Closing, lastSeenAt := now, closeReason := Some(reason))
    case DoDisconnect(reason, now) =>
      q == if p.state == Closed then p
           else p.(state := Disconnected, lastSeenAt := now, closeReason := Some(reason))
    case DoFinish(now) => q == if p.state == Closed then p else p.(state := Closed, lastSeenAt := now)
  }

  lemma StepsExactly(p: Props, op: Op)
    ensures Steps(p, op, Apply(p, op))
  {
  }

  // Over every life, each operation takes its step, from where those before it led.
  lemma {:induction false} LifeSteps(p: Props, ops: seq<Op>, op: Op)
    ensures Live(p, []) == p && Steps(Live(p, ops), op, Live(p, ops + [op]))
    decreases |ops|
  {
    if ops == [] {
      assert [op][1..] == [];
      StepsExactly(p, op);
    } else {
      LifeSteps(Apply(p, ops[0]), ops[1..], op);
      assert (ops + [op])[1..] == ops[1..] + [op];
    }
  }

  // The identity is there exactly once authenticated.
  ghost predicate Bound(p: Props) {
    && (p.state in {New, Identify} ==> p.identity.None?)
    && (p.state in {Authenticated, Active} ==> p.identity.Some?)
    && (p.state.Active? ==> p.firstDataAt.Some? && p.lastDataAt.Some?)
  }

  lemma ApplyKeeps(p: Props, op: Op)
    requires Bound(p)
    ensures var q := Apply(p, op);
            && Bound(q)
            && (p.identity.Some? ==> q.identity == p.identity)
            && (!IsLive(p) ==> !IsLive(q) && q.identity == p.identity)
            && (p.state.Closed? ==> q.state.Closed?)
            && (q.identity != p.identity ==> op.DoAuthenticate? && q.identity == Some(op.who))
  {
  }

  // Over every life: an identity once bound never changes, a session once dead
  // never lives again, and what may publish has an identity.
  lemma {:induction false} LifeKeeps(p: Props, ops: seq<Op>)
    requires Bound(p)
    ensures var q := Live(p, ops);
            && Bound(q)
            && (p.identity.Some? ==> q.identity == p.identity)
            && (!IsLive(p) ==> !IsLive(q) && q.identity == p.identity)
            && (p.state.Closed? ==> q.state.Closed?)
            && (CanPublish(q) ==> q.identity.Some?)
    decreases |ops|
  {
    if ops != [] {
      ApplyKeeps(p, ops[0]);
      LifeKeeps(Apply(p, ops[0]), ops[1..]);
    }
  }

  // An active session has come all the way: of the operations since it was opened
  // one identified it, a later one authenticated it and a later one activated it.
  lemma {:induction false} CameThrough(p: Props, ops: seq<Op>) returns (i: nat, j: nat, k: nat)
    requires Bound(p) && p.state == New && Live(p, ops).state == Active
    ensures i < j < k < |ops| && ops[i].DoIdentify? && ops[j].DoAuthenticate? && ops[k].DoActivate?
    decreases |ops|
  {
    var q, rest := Apply(p, ops[0]), ops[1..];
    ApplyKeeps(p, ops[0]);
    LifeKeeps(q, rest);
    if q.state == New {
      i, j, k := CameThrough(q, rest);
    } else {
      i := 0;
      j, k := CameFromIdentify(q, rest);
      j, k := j + 1, k + 1;
      return;
    }
    i, j, k := i + 1, j + 1, k + 1;
  }

  lemma {:induction false} CameFromIdentify(p: Props, ops: seq<Op>) returns (j: nat, k: nat)
    requires Bound(p) && p.state == Identify && Live(p, ops).state == Active
    ensures j < k < |ops| && ops[j].DoAuthenticate? && ops[k].DoActivate?
    decreases |ops|
  {
    var q, rest := Apply(p, ops[0]), ops[1..];
    ApplyKeeps(p, ops[0]);
    LifeKeeps(q, rest);
    if q.state == Identify {
      j, k := CameFromIdentify(q, rest);
    } else {
      j := 0;
      k := CameFromAuthenticated(q, rest);
      k := k + 1;
      return;
    }
    j, k := j + 1, k + 1;
  }

  lemma {:induction false} CameFromAuthenticated(p: Props, ops: seq<Op>) returns (k: nat)
    requires Bound(p) && p.state == Authenticated && Live(p, ops).state == Active
    ensures k < |ops| && ops[k].DoActivate?
    decreases |ops|
  {
    var q, rest := Apply(p, ops[0]), ops[1..];
    ApplyKeeps(p, ops[0]);
    LifeKeeps(q, rest);
    if q.state == Authenticated {
      k := CameFromAuthenticated(q, rest);
      k := k + 1;
    } else {
      k := 0;
    }
  }

  // An identity a session ends up with is one it was authenticated with, and the
  // session had been identified just before.
  lemma {:induction false} IdentityIsGranted(p: Props, ops: seq<Op>) returns (k: nat)
    requires Bound(p) && p.identity.None? && Live(p, ops).identity.Some?
    ensures k < |ops| && ops[k].DoAuthenticate? && Live(p, ops).identity == Some(ops[k].who)
    ensures Live(p, ops[..k]).state.Identify?
    decreases |ops|
  {
    var q := Apply(p, ops[0]);
    ApplyKeeps(p, ops[0]);
    if q.identity.Some? {
      k := 0;
      LifeKeeps(q, ops[1..]);
      assert ops[..0] == [];
    } else {
      var j := IdentityIsGranted(q, ops[1..]);
      k := j + 1;
      assert ops[..k][1..] == ops[1..][..j];
    }
  }

  // ----- the aggregate -----

  class Session {
    const id: string
    var props: Props

    constructor (id: string, transport: Transport, protocolId: string, address: string, port: int, now: int)
      ensures this.id == id && props == Opened(transport, protocolId, address, port, now)
    {
      this.id := id;
      props := Opened(transport, protocolId, address, port, now);
    }

    method DoIdentify(now: int) returns (ok: bool)
      modifies this
      ensures ok == Identified(old(props), now).Some?
      ensures props == Or(Identified(old(props), now), old(props))
    {
      if !props.state.New? {
        return false;
      }
      props := props.(state := Identify);
      props := props.(lastSeenAt := now);
      ok := true;
    }

    method DoAuthenticate(who: Identity, now: int) returns (ok: bool)
      modifies this
      ensures ok == Authenticate(old(props), who, now).Some?
      ensures props == Or(Authenticate(old(props), who, now), old(props))
    {
      if !props.state.Identify? {
        return false;
      }
      props := props.(identity := Some(who));
      props := props.(state := Authenticated);
      props := props.(lastSeenAt := now);
      ok := true;
    }

    method DoActivate(now: int) returns (ok: bool)
      modifies this
      ensures ok == Activate(old(props), now).Some?
      ensures props == Or(Activate(old(props), now), old(props))
    {
      if props.state.Active? {
        DoRecordData(now);
        return true;
      }
      if !props.state.Authenticated? {
        return false;
      }
      props := props.(state := Active, firstDataAt := Some(now), lastDataAt := Some(now));
      props := props.(lastSeenAt := now);
      ok := true;
    }

    method DoRecordData(now: int)
      modifies this
      ensures props == RecordData(old(props), now)
    {
      if !props.state.Active? {
        return;
      }
      props := props.(lastDataAt := Some(now));
      props := props.(lastSeenAt := now);
    }

    method DoBeginClosing(reason: CloseReason, now: int)
      modifies this
      ensures props == BeginClosing(old(props), reason, now)
    {
      if props.state.Closed? || props.state.Disconnected? {
        props := props.(closeReason := Some(reason));
        return;
      }
      props := props.(state := Closing, closeReason := Some(reason));
      props := props.(lastSeenAt := now);
    }

    method DoDisconnect(reason: CloseReason, now: int)
      modifies this
      ensures props == Disconnect(old(props), reason, now)
    {
      if props.state.Closed? {
        return;
      }
      if !props.state.Active? && !props.state.Authenticated? {
        DoBeginClosing(reason, now);
      }
      props := props.(state := Disconnected, closeReason := Some(reason));
      props := props.(lastSeenAt := now);
    }

    method DoClose(now: int)
      modifies this
      ensures props == Finish(old(props), now)
    {
      if props.state.Closed? {
        return;
      }
      props := props.(state := Closed);
      props := props.(lastSeenAt := now);
    }
  }
}
