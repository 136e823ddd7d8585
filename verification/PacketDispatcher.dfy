// The staged packet pipeline of one session: decode has given the messages, and
// this resolves, authenticates, stamps and publishes them, failing closed.
module PacketDispatcher {
  import opened DeviceSession
  import opened Optional

  datatype Kind = Login | Position | Telemetry | Photo | CommandAck | Other

  datatype Message = Message(
    messageId: string, deviceId: string, tenantId: string, vehicleId: Option<string>,
    correlationId: Option<string>, serialOrImei: string, kind: Kind, body: string)

  // The auth resolver's answer; Failed where the call itself fails.
  datatype Resolution = Granted(deviceId: string, tenantId: string, pairedVehicleId: Option<string>) | Denied | Failed

  // A photo whose last chunk this message was.
  datatype PhotoDone = PhotoDone(messageId: string, body: string)

  // A decoded message, with what the outside world answers to it: the auth
  // resolver, the broker and the photo assembler, if they are asked.
  datatype Inbound = Inbound(msg: Message, resolution: Resolution, delivered: bool, photo: Option<PhotoDone>)

  // The identity of the session, as the registry granted it, goes on the message.
  function BindIdentity(m: Message, who: Option<Identity>, sessionId: string): Message {
    m.(deviceId := if who.Some? then who.value.deviceId else m.deviceId,
       tenantId := if who.Some? then who.value.tenantId else m.tenantId,
       vehicleId := if who.Some? && who.value.vehicleId.Some? then who.value.vehicleId else m.vehicleId,
       correlationId := Some(sessionId),
       serialOrImei := if m.serialOrImei != "" then m.serialOrImei
                       else if who.Some? then who.value.serialOrImei else "")
  }

  function PhotoAck(m: Message, done: PhotoDone): Message {
    m.(messageId := done.messageId, kind := CommandAck, body := done.body)
  }

  // What Kafka is handed of a stamped message.
  function Handed(bound: Message, inb: Inbound): seq<Message> {
    if inb.delivered && bound.kind.Photo? && inb.photo.Some? then [bound, PhotoAck(bound, inb.photo.value)] else [bound]
  }

  // One dispatch under way. sent is what was handed to Kafka, delivered or not.
  datatype Run = Run(props: Props, sent: seq<Message>, published: nat, failures: nat,
                     authenticated: bool, grants: seq<Identity>)

  // Refused closes the session; Unresolved and Illegal leave the dispatch by
  // exception, in the middle of the packet.
  datatype Step = Next(run: Run) | Refused(run: Run) | Unresolved(run: Run) | Illegal(run: Run)

  // A stamped message at the gate.
  function PublishOne(r: Run, bound: Message, inb: Inbound, broker: bool): Run {
    if !CanPublish(r.props) then r.(failures := r.failures + 1)
    else if !broker then r.(published := r.published + 1)
    else if !inb.delivered then r.(sent := r.sent + Handed(bound, inb), failures := r.failures + 1)
    else r.(sent := r.sent + Handed(bound, inb), published := r.published + 1)
  }

  function GrantOf(inb: Inbound): Identity
    requires inb.resolution.Granted?
  {
    Identity(inb.resolution.deviceId, inb.resolution.tenantId, inb.msg.serialOrImei, inb.resolution.pairedVehicleId)
  }

  // Identify if new, authenticate, register.
  function Admit(r: Run, inb: Inbound, now: int): Run
    requires inb.resolution.Granted? && Unauthenticated(r.props)
  {
    r.(props := Admitted(r.props, GrantOf(inb), now), authenticated := true, grants := r.grants + [GrantOf(inb)])
  }

  // The first useful payload activates the session; later ones are recorded.
  function Useful(p: Props, kind: Kind, now: int): Props {
    if kind.Position? || kind.Telemetry? then
      if p.state.Authenticated? then Activate(p, now).value else RecordData(p, now)
    else p
  }

  function Payload(r: Run, inb: Inbound, id: string, broker: bool, now: int): Run {
    var bound := BindIdentity(inb.msg, r.props.identity, id);
    PublishOne(r.(props := Useful(r.props, bound.kind, now)), bound, inb, broker)
  }

  function LoggedIn(r: Run, inb: Inbound, now: int): Run
    requires inb.resolution.Granted?
  {
    (if Unauthenticated(r.props) then Admit(r, inb, now) else r).(authenticated := true)
  }

  // Where the resolver does not grant.
  function Stopped(r: Run, resolution: Resolution): Step {
    if resolution.Denied? then Refused(r) else Unresolved(r)
  }

  function Handle(r: Run, inb: Inbound, id: string, broker: bool, now: int): Step {
    if inb.msg.kind.Login? then
      if !inb.resolution.Granted? then Stopped(r, inb.resolution)
      else
        var a := LoggedIn(r, inb, now);
        Next(PublishOne(a, BindIdentity(inb.msg, a.props.identity, id), inb, broker))
    else if CanPublish(r.props) then Next(Payload(r, inb, id, broker, now))
    else if inb.msg.serialOrImei == "" then Next(r)
    else if !inb.resolution.Granted? then Stopped(r, inb.resolution)
    else if !Unauthenticated(r.props) then Illegal(r)
    else Next(Payload(Admit(r, inb, now), inb, id, broker, now))
  }

  function Start(p: Props): Run { Run(p, [], 0, 0, false, []) }

  // After the first k messages of a packet; a step that is not Next ends it.
  function After(p: Props, ins: seq<Inbound>, k: nat, id: string, broker: bool, now: int): Step
    requires k <= |ins|
  {
    if k == 0 then Next(Start(p))
    else
      var s := After(p, ins, k - 1, id, broker, now);
      if s.Next? then Handle(s.run, ins[k - 1], id, broker, now) else s
  }

  // What the caller is told.
  datatype Result = Returned(published: nat, authenticated: bool, close: bool) | Threw

  function Verdict(s: Step): Result {
    match s
    case Next(r) => if r.failures > 0 then Threw else Returned(r.published, r.authenticated, false)
    case Refused(_) => Returned(0, false, true)
    case Unresolved(_) => Threw
    case Illegal(_) => Threw
  }

  // Whether the held commands of the device are flushed, and whether the device
  // may drop the records of the packet from its cache.
  predicate Flushes(s: Step) { s.Next? && s.run.props.identity.Some? && CanPublish(s.run.props) }
  predicate AcksCache(s: Step, meitrack: bool) {
    s.Next? && s.run.failures == 0 && meitrack && CanPublish(s.run.props)
  }

  // ----- the gate -----

  ghost predicate Carries(m: Message, who: Identity) { m.deviceId == who.deviceId && m.tenantId == who.tenantId }

  // Everything handed to Kafka carries the identity of the session, which is the
  // one it came with or the one granted on the way.
  ghost predicate Sealed(p: Props, r: Run) {
    && Bound(r.props)
    && (r.sent != [] ==> r.props.identity.Some?)
    && (forall m :: m in r.sent ==> r.props.identity.Some? && Carries(m, r.props.identity.value))
    && (p.identity.Some? ==> r.props.identity == p.identity && r.grants == [])
    && (p.identity.None? ==> r.grants == if r.props.identity.Some? then [r.props.identity.value] else [])
  }

  lemma PublishKeepsSealed(p: Props, r: Run, bound: Message, inb: Inbound, broker: bool)
    requires Sealed(p, r)
    requires CanPublish(r.props) ==> r.props.identity.Some? && Carries(bound, r.props.identity.value)
    ensures Sealed(p, PublishOne(r, bound, inb, broker))
  {
  }

  lemma AdmitKeepsSealed(p: Props, r: Run, inb: Inbound, now: int)
    requires Sealed(p, r) && inb.resolution.Granted? && Unauthenticated(r.props)
    ensures Sealed(p, Admit(r, inb, now)) && CanPublish(Admit(r, inb, now).props)
  {
  }

  lemma PayloadKeepsSealed(p: Props, r: Run, inb: Inbound, id: string, broker: bool, now: int)
    requires Sealed(p, r)
    ensures Sealed(p, Payload(r, inb, id, broker, now))
  {
    var q := r.(props := Useful(r.props, inb.msg.kind, now));
    PublishKeepsSealed(p, q, BindIdentity(inb.msg, r.props.identity, id), inb, broker);
  }

  lemma HandleKeepsSealed(p: Props, r: Run, inb: Inbound, id: string, broker: bool, now: int)
    requires Sealed(p, r)
    ensures Sealed(p, Handle(r, inb, id, broker, now).run)
  {
    hide Payload, PublishOne, Admit, Bound, BindIdentity;
    if inb.resolution.Granted? && Unauthenticated(r.props) {
      AdmitKeepsSealed(p, r, inb, now);
      PayloadKeepsSealed(p, Admit(r, inb, now), inb, id, broker, now);
    }
    PayloadKeepsSealed(p, r, inb, id, broker, now);
    if inb.msg.kind.Login? && inb.resolution.Granted? {
      LoginKeepsSealed(p, r, inb, id, broker, now);
    }
  }

  lemma LoginKeepsSealed(p: Props, r: Run, inb: Inbound, id: string, broker: bool, now: int)
    requires Sealed(p, r) && inb.resolution.Granted?
    ensures var a := LoggedIn(r, inb, now);
            Sealed(p, PublishOne(a, BindIdentity(inb.msg, a.props.identity, id), inb, broker))
  {
    var a := LoggedIn(r, inb, now);
    PublishKeepsSealed(p, a, BindIdentity(inb.msg, a.props.identity, id), inb, broker);
  }

  lemma {:induction false} AfterSealed(p: Props, ins: seq<Inbound>, k: nat, id: string, broker: bool, now: int)
    requires Bound(p) && k <= |ins|
    ensures Sealed(p, After(p, ins, k, id, broker, now).run)
  {
    if k > 0 {
      hide Handle, Sealed;
      AfterSealed(p, ins, k - 1, id, broker, now);
      var s := After(p, ins, k - 1, id, broker, now);
      if s.Next? {
        HandleKeepsSealed(p, s.run, ins[k - 1], id, broker, now);
      }
    } else {
      assert After(p, ins, k, id, broker, now) == Next(Start(p));
    }
  }

  // The identity is what the resolver answered for the message, with its serial.
  ghost predicate GrantedFor(who: Identity, inb: Inbound) {
    && inb.resolution.Granted?
    && who == Identity(inb.resolution.deviceId, inb.resolution.tenantId, inb.msg.serialOrImei,
                       inb.resolution.pairedVehicleId)
  }

  // An identity bound in a packet is one the resolver granted for a message of
  // that packet, before anything was handed to Kafka.
  lemma {:induction false} GrantResolved(p: Props, ins: seq<Inbound>, k: nat, id: string, broker: bool, now: int)
    returns (j: nat)
    requires Bound(p) && p.identity.None? && k <= |ins|
    requires After(p, ins, k, id, broker, now).run.props.identity.Some?
    ensures j < k && GrantedFor(After(p, ins, k, id, broker, now).run.props.identity.value, ins[j])
    ensures After(p, ins, j, id, broker, now).run.sent == []
  {
    hide Handle, Sealed, GrantedFor;
    assert k > 0;
    var s := After(p, ins, k - 1, id, broker, now);
    AfterSealed(p, ins, k - 1, id, broker, now);
    NothingUnsealed(p, s.run);
    if s.run.props.identity.Some? {
      j := GrantResolved(p, ins, k - 1, id, broker, now);
      if s.Next? {
        HandleKeepsIdentity(s.run, ins[k - 1], id, broker, now);
      }
    } else {
      j := k - 1;
      HandleGrants(s.run, ins[k - 1], id, broker, now);
    }
  }

  lemma NothingUnsealed(p: Props, r: Run)
    requires Sealed(p, r)
    ensures Bound(r.props) && (r.props.identity.None? ==> r.sent == [])
  {
  }

  lemma HandleKeepsIdentity(r: Run, inb: Inbound, id: string, broker: bool, now: int)
    requires Bound(r.props) && r.props.identity.Some?
    ensures Handle(r, inb, id, broker, now).run.props.identity == r.props.identity
  {
  }

  lemma HandleGrants(r: Run, inb: Inbound, id: string, broker: bool, now: int)
    requires Bound(r.props) && r.props.identity.None? && Handle(r, inb, id, broker, now).run.props.identity.Some?
    ensures GrantedFor(Handle(r, inb, id, broker, now).run.props.identity.value, inb)
  {
  }

  // ----- what a dispatch publishes, message by message -----

  predicate Identifies(m: Message) { m.kind.Login? || m.serialOrImei != "" }

  // The gate stands open at the k-th message: it did from the start, or one of
  // the messages before names a device.
  ghost predicate OpenAt(open: bool, ins: seq<Inbound>, k: nat)
    requires k <= |ins|
  {
    open || exists j :: 0 <= j < k && Identifies(ins[j].msg)
  }

  // A resolver that does not grant ends a packet where a LOGIN asks, or where the
  // gate is shut.
  ghost predicate Stops(open: bool, ins: seq<Inbound>, j: nat)
    requires j < |ins|
  {
    !ins[j].resolution.Granted? && Identifies(ins[j].msg) && (ins[j].msg.kind.Login? || !OpenAt(open, ins, j))
  }

  // Each message that finds the gate open, itself included, is handed over once,
  // in order; the others never.
  ghost function Expected(open: bool, ins: seq<Inbound>, k: nat, who: Option<Identity>, id: string): seq<Message>
    requires k <= |ins|
  {
    if k == 0 then []
    else Expected(open, ins, k - 1, who, id)
         + (if OpenAt(open, ins, k) then Handed(BindIdentity(ins[k - 1].msg, who, id), ins[k - 1]) else [])
  }

  // The j-th message finds the gate open and is delivered.
  ghost predicate LetThrough(open: bool, ins: seq<Inbound>, j: nat, broker: bool)
    requires j < |ins|
  {
    OpenAt(open, ins, j + 1) && (!broker || ins[j].delivered)
  }

  ghost function Counted(open: bool, ins: seq<Inbound>, k: nat, broker: bool): nat
    requires k <= |ins|
  {
    if k == 0 then 0
    else Counted(open, ins, k - 1, broker)
         + (if LetThrough(open, ins, k - 1, broker) then 1 else 0)
  }

  ghost function Undelivered(open: bool, ins: seq<Inbound>, k: nat): nat
    requires k <= |ins|
  {
    if k == 0 then 0
    else Undelivered(open, ins, k - 1) + (if OpenAt(open, ins, k) && !ins[k - 1].delivered then 1 else 0)
  }

  lemma OpenNext(open: bool, ins: seq<Inbound>, k: nat)
    requires 0 < k <= |ins|
    ensures OpenAt(open, ins, k) <==> OpenAt(open, ins, k - 1) || Identifies(ins[k - 1].msg)
  {
  }

  lemma {:induction false} NothingWhileShut(open: bool, ins: seq<Inbound>, k: nat, who: Option<Identity>, id: string,
                                            broker: bool)
    requires k <= |ins| && !OpenAt(open, ins, k)
    ensures Expected(open, ins, k, who, id) == [] && Counted(open, ins, k, broker) == 0
            && Undelivered(open, ins, k) == 0
  {
    if k > 0 {
      OpenNext(open, ins, k);
      NothingWhileShut(open, ins, k - 1, who, id, broker);
    }
  }

  // The dispatch loop does exactly that, for a live session.
  ghost predicate Tallies(p: Props, ins: seq<Inbound>, k: nat, id: string, broker: bool, r: Run)
    requires k <= |ins|
  {
    var open := CanPublish(p);
    && Bound(r.props) && IsLive(r.props)
    && (CanPublish(r.props) <==> OpenAt(open, ins, k))
    && r.sent == (if broker then Expected(open, ins, k, r.props.identity, id) else [])
    && r.published == Counted(open, ins, k, broker)
    && r.failures == (if broker then Undelivered(open, ins, k) else 0)
  }

  lemma {:induction false} DispatchTallies(p: Props, ins: seq<Inbound>, k: nat, id: string, broker: bool, now: int)
    requires Bound(p) && IsLive(p) && k <= |ins|
    ensures var s := After(p, ins, k, id, broker, now);
            && (s.Next? <==> forall j :: 0 <= j < k ==> !Stops(CanPublish(p), ins, j))
            && (s.Next? ==> Tallies(p, ins, k, id, broker, s.run))
            && !s.Illegal?
  {
    if k > 0 {
      hide Stops, Handle, Tallies;
      DispatchTallies(p, ins, k - 1, id, broker, now);
      var s := After(p, ins, k - 1, id, broker, now);
      if s.Next? {
        HandleTallies(p, ins, k, id, broker, now, s.run);
      }
    }
  }

  // With the k-th message at an open gate and those before it tallied.
  ghost predicate AtOpenGate(open: bool, ins: seq<Inbound>, k: nat, id: string, broker: bool, r: Run)
    requires 0 < k <= |ins|
  {
    && Bound(r.props) && CanPublish(r.props) && OpenAt(open, ins, k)
    && r.sent == (if broker then Expected(open, ins, k - 1, r.props.identity, id) else [])
    && r.published == Counted(open, ins, k - 1, broker)
    && r.failures == (if broker then Undelivered(open, ins, k - 1) else 0)
  }

  lemma PublishTallies(p: Props, ins: seq<Inbound>, k: nat, id: string, broker: bool, r: Run)
    requires 0 < k <= |ins| && AtOpenGate(CanPublish(p), ins, k, id, broker, r)
    ensures Tallies(p, ins, k, id, broker,
                    PublishOne(r, BindIdentity(ins[k - 1].msg, r.props.identity, id), ins[k - 1], broker))
  {
    hide OpenAt, Handed, BindIdentity;
  }

  lemma PayloadTallies(p: Props, ins: seq<Inbound>, k: nat, id: string, broker: bool, now: int, r: Run)
    requires 0 < k <= |ins| && AtOpenGate(CanPublish(p), ins, k, id, broker, r)
    ensures Tallies(p, ins, k, id, broker, Payload(r, ins[k - 1], id, broker, now))
  {
    hide OpenAt, BindIdentity, Tallies, PublishOne;
    PublishTallies(p, ins, k, id, broker, r.(props := Useful(r.props, ins[k - 1].msg.kind, now)));
    assert BindIdentity(ins[k - 1].msg, r.props.identity, id).kind == ins[k - 1].msg.kind by {
      SameKind(ins[k - 1].msg, r.props.identity, id);
    }
  }

  lemma SameKind(m: Message, who: Option<Identity>, id: string)
    ensures BindIdentity(m, who, id).kind == m.kind
  {
  }

  // A login or an implicit login opens it.
  lemma AdmitTallies(p: Props, ins: seq<Inbound>, k: nat, id: string, broker: bool, now: int, r: Run)
    requires 0 < k <= |ins| && Tallies(p, ins, k - 1, id, broker, r)
    requires Identifies(ins[k - 1].msg) && ins[k - 1].resolution.Granted? && Unauthenticated(r.props)
    ensures AtOpenGate(CanPublish(p), ins, k, id, broker, Admit(r, ins[k - 1], now))
  {
    hide OpenAt;
    var open := CanPublish(p);
    OpenNext(open, ins, k);
    NothingWhileShut(open, ins, k - 1, r.props.identity, id, broker);
    NothingWhileShut(open, ins, k - 1, Some(GrantOf(ins[k - 1])), id, broker);
  }

  // Open before, open still.
  lemma StillOpen(p: Props, ins: seq<Inbound>, k: nat, id: string, broker: bool, r: Run)
    requires 0 < k <= |ins| && Tallies(p, ins, k - 1, id, broker, r) && CanPublish(r.props)
    ensures AtOpenGate(CanPublish(p), ins, k, id, broker, r)
    ensures AtOpenGate(CanPublish(p), ins, k, id, broker, r.(authenticated := true))
  {
    hide OpenAt;
    OpenNext(CanPublish(p), ins, k);
  }

  // An anonymous message at a shut gate is dropped.
  lemma DropTallies(p: Props, ins: seq<Inbound>, k: nat, id: string, broker: bool, r: Run)
    requires 0 < k <= |ins| && Tallies(p, ins, k - 1, id, broker, r)
    requires !CanPublish(r.props) && !Identifies(ins[k - 1].msg)
    ensures Tallies(p, ins, k, id, broker, r)
  {
    hide OpenAt, Handed, BindIdentity;
    OpenNext(CanPublish(p), ins, k);
  }

  lemma HandleTallies(p: Props, ins: seq<Inbound>, k: nat, id: string, broker: bool, now: int, r: Run)
    requires 0 < k <= |ins| && Tallies(p, ins, k - 1, id, broker, r)
    ensures var s := Handle(r, ins[k - 1], id, broker, now);
            && (s.Next? <==> !Stops(CanPublish(p), ins, k - 1))
            && (s.Next? ==> Tallies(p, ins, k, id, broker, s.run))
            && !s.Illegal?
  {
    var inb := ins[k - 1];
    LiveGate(p, ins, k, id, broker, r);
    hide OpenAt, Admit, Payload, PublishOne, Tallies, AtOpenGate, BindIdentity, CanPublish, Unauthenticated;
    if CanPublish(r.props) {
      StillOpen(p, ins, k, id, broker, r);
      PayloadTallies(p, ins, k, id, broker, now, r);
      PublishTallies(p, ins, k, id, broker, r.(authenticated := true));
    } else if !Identifies(inb.msg) {
      DropTallies(p, ins, k, id, broker, r);
    } else if inb.resolution.Granted? {
      AdmitTallies(p, ins, k, id, broker, now, r);
      AdmitMarks(r, inb, now);
      PayloadTallies(p, ins, k, id, broker, now, Admit(r, inb, now));
      PublishTallies(p, ins, k, id, broker, Admit(r, inb, now));
    }
  }

  lemma AdmitMarks(r: Run, inb: Inbound, now: int)
    requires inb.resolution.Granted? && Unauthenticated(r.props)
    ensures Admit(r, inb, now).authenticated
  {
  }

  lemma LiveGate(p: Props, ins: seq<Inbound>, k: nat, id: string, broker: bool, r: Run)
    requires 0 < k <= |ins| && Tallies(p, ins, k - 1, id, broker, r)
    ensures CanPublish(r.props) <==> !Unauthenticated(r.props)
    ensures CanPublish(r.props) <==> OpenAt(CanPublish(p), ins, k - 1)
  {
    hide OpenAt;
  }

  // A step that ends the packet is where it stays.
  lemma {:induction false} Ended(p: Props, ins: seq<Inbound>, j: nat, k: nat, id: string, broker: bool, now: int)
    requires j <= k <= |ins| && !After(p, ins, j, id, broker, now).Next?
    ensures After(p, ins, k, id, broker, now) == After(p, ins, j, id, broker, now)
    decreases k
  {
    if j < k {
      Ended(p, ins, j, k - 1, id, broker, now);
    }
  }

  // A packet ends at the first message that stops it, with what was done before
  // done: closed where the resolver denies, by exception where it fails.
  lemma StopEnds(p: Props, ins: seq<Inbound>, j: nat, k: nat, id: string, broker: bool, now: int)
    requires Bound(p) && IsLive(p) && j < k <= |ins|
    requires Stops(CanPublish(p), ins, j) && forall i :: 0 <= i < j ==> !Stops(CanPublish(p), ins, i)
    ensures var s := After(p, ins, j, id, broker, now);
            && s.Next? && Tallies(p, ins, j, id, broker, s.run)
            && After(p, ins, k, id, broker, now) ==
               (if ins[j].resolution.Denied? then Refused(s.run) else Unresolved(s.run))
  {
    hide Stops, Handle, Tallies;
    DispatchTallies(p, ins, j, id, broker, now);
    DispatchTallies(p, ins, j + 1, id, broker, now);
    var s := After(p, ins, j, id, broker, now);
    HandleStops(s.run, ins[j], id, broker, now);
    StopAsks(CanPublish(p), ins, j);
    Ended(p, ins, j + 1, k, id, broker, now);
  }

  lemma HandleStops(r: Run, inb: Inbound, id: string, broker: bool, now: int)
    ensures var s := Handle(r, inb, id, broker, now);
            !s.Next? && !s.Illegal? ==> s == Stopped(r, inb.resolution)
  {
    hide Payload, PublishOne;
  }

  lemma StopAsks(open: bool, ins: seq<Inbound>, j: nat)
    requires j < |ins| && Stops(open, ins, j)
    ensures !ins[j].resolution.Granted?
  {
  }

  // ----- what a dispatch makes of the session -----

  // The j-th message is data at an open gate.
  ghost predicate DataAt(open: bool, ins: seq<Inbound>, j: nat)
    requires j < |ins|
  {
    OpenAt(open, ins, j + 1) && (ins[j].msg.kind == Position || ins[j].msg.kind == Telemetry)
  }

  ghost predicate AnyData(open: bool, ins: seq<Inbound>, k: nat)
    requires k <= |ins|
  {
    exists j: nat :: j < k && DataAt(open, ins, j)
  }

  // The session after the first k messages: authenticated where the gate opened,
  // active where there was data behind it, with the time of the first and of the
  // last of it; all else as before.
  ghost predicate Progressed(p: Props, ins: seq<Inbound>, k: nat, now: int, q: Props)
    requires k <= |ins|
  {
    var open := CanPublish(p);
    var unlocked, data := OpenAt(open, ins, k), AnyData(open, ins, k);
    q == p.(state := if data || p.state == Active then Active else if unlocked then Authenticated else p.state,
            lastSeenAt := if data || (unlocked && !open) then now else p.lastSeenAt,
            firstDataAt := if data && p.state != Active then Some(now) else p.firstDataAt,
            lastDataAt := if data then Some(now) else p.lastDataAt,
            identity := q.identity)
  }

  lemma DataNext(open: bool, ins: seq<Inbound>, k: nat)
    requires 0 < k <= |ins|
    ensures AnyData(open, ins, k) <==> AnyData(open, ins, k - 1) || DataAt(open, ins, k - 1)
    ensures AnyData(open, ins, k) ==> OpenAt(open, ins, k)
    ensures OpenAt(open, ins, k) <==> OpenAt(open, ins, k - 1) || Identifies(ins[k - 1].msg)
  {
  }

  lemma HandleProgress(p: Props, ins: seq<Inbound>, k: nat, id: string, broker: bool, now: int, r: Run)
    requires 0 < k <= |ins| && Bound(p) && IsLive(p) && Progressed(p, ins, k - 1, now, r.props)
    requires Bound(r.props) && (CanPublish(r.props) <==> OpenAt(CanPublish(p), ins, k - 1))
    requires Handle(r, ins[k - 1], id, broker, now).Next?
    ensures Progressed(p, ins, k, now, Handle(r, ins[k - 1], id, broker, now).run.props)
  {
    DataNext(CanPublish(p), ins, k);
    if k > 1 {
      DataNext(CanPublish(p), ins, k - 1);
    }
    hide OpenAt, AnyData, BindIdentity, PublishOne, GrantOf, IsLive;
    PublishKeepsProps(r, ins[k - 1], id, broker);
  }

  lemma PublishKeepsProps(r: Run, inb: Inbound, id: string, broker: bool)
    ensures forall q: Run, m: Message :: PublishOne(q, m, inb, broker).props == q.props
    ensures forall who: Option<Identity> :: BindIdentity(inb.msg, who, id).kind == inb.msg.kind
  {
  }

  // What a dispatch makes of a live session, message by message.
  lemma {:induction false} DispatchProgresses(p: Props, ins: seq<Inbound>, k: nat, id: string, broker: bool, now: int)
    requires Bound(p) && IsLive(p) && k <= |ins| && After(p, ins, k, id, broker, now).Next?
    ensures Progressed(p, ins, k, now, After(p, ins, k, id, broker, now).run.props)
  {
    if k > 0 {
      hide Stops, Handle, Progressed, OpenAt, Bound;
      DispatchProgresses(p, ins, k - 1, id, broker, now);
      DispatchTallies(p, ins, k - 1, id, broker, now);
      HandleProgress(p, ins, k, id, broker, now, After(p, ins, k - 1, id, broker, now).run);
    }
  }

  // What the j-th message, at an open gate, hands over with a broker: itself, for the
  // session's device and tenant, and its vehicle and serial with those it lacks from
  // the session; and behind a delivered photo that is complete an acknowledgement.
  ghost predicate HandsOver(inb: Inbound, who: Identity, id: string, more: seq<Message>) {
    var m := inb.msg;
    var stamped := Message(
      m.messageId, who.deviceId, who.tenantId, if who.vehicleId == None then m.vehicleId else who.vehicleId, Some(id),
      if m.serialOrImei == "" then who.serialOrImei else m.serialOrImei, m.kind, m.body);
    if inb.delivered && m.kind == Photo && inb.photo != None then
      var ack := inb.photo.value;
      more == [stamped, stamped.(messageId := ack.messageId, kind := CommandAck, body := ack.body)]
    else more == [stamped]
  }

  lemma HandedExactly(p: Props, ins: seq<Inbound>, j: nat, id: string, now: int)
    requires Bound(p) && IsLive(p) && j < |ins| && After(p, ins, j + 1, id, true, now).Next?
    ensures var r, q := After(p, ins, j, id, true, now).run, After(p, ins, j + 1, id, true, now).run;
            && r.sent <= q.sent
            && (if OpenAt(CanPublish(p), ins, j + 1)
                then q.props.identity.Some? && HandsOver(ins[j], q.props.identity.value, id, q.sent[|r.sent|..])
                else q.sent == r.sent)
  {
    hide Stops, Handle;
    DispatchTallies(p, ins, j, id, true, now);
    DispatchTallies(p, ins, j + 1, id, true, now);
    AfterGrows(p, ins, j, j + 1, id, true, now);
    var open, r, q := CanPublish(p), After(p, ins, j, id, true, now).run, After(p, ins, j + 1, id, true, now).run;
    if r.props.identity != q.props.identity {
      NothingSent(p, ins, j, id, now, r);
      NothingWhileShut(open, ins, j, q.props.identity, id, true);
    }
  }

  lemma NothingSent(p: Props, ins: seq<Inbound>, j: nat, id: string, now: int, r: Run)
    requires Bound(p) && j <= |ins| && r == After(p, ins, j, id, true, now).run
    requires Tallies(p, ins, j, id, true, r) && r.props.identity.None?
    ensures !OpenAt(CanPublish(p), ins, j) && r.sent == []
  {
    hide OpenAt;
    AfterSealed(p, ins, j, id, true, now);
  }

  // ----- what the caller is told -----

  // The packet is one that nothing stops.
  ghost predicate Unstopped(open: bool, ins: seq<Inbound>) {
    forall j :: 0 <= j < |ins| ==> !Stops(open, ins, j)
  }

  lemma HandleAuthenticates(r: Run, inb: Inbound, id: string, broker: bool, now: int)
    requires Bound(r.props) && IsLive(r.props) && Handle(r, inb, id, broker, now).Next?
    ensures Handle(r, inb, id, broker, now).run.authenticated <==>
            r.authenticated || inb.msg.kind.Login? || (!CanPublish(r.props) && Identifies(inb.msg))
  {
  }

  lemma {:induction false} Authenticates(p: Props, ins: seq<Inbound>, k: nat, id: string, broker: bool, now: int)
    requires Bound(p) && IsLive(p) && k <= |ins| && After(p, ins, k, id, broker, now).Next?
    ensures After(p, ins, k, id, broker, now).run.authenticated <==>
            || (exists j :: 0 <= j < k && ins[j].msg.kind.Login?)
            || (OpenAt(CanPublish(p), ins, k) && !CanPublish(p))
  {
    if k > 0 {
      hide Stops, Handle, OpenAt;
      Authenticates(p, ins, k - 1, id, broker, now);
      DispatchTallies(p, ins, k - 1, id, broker, now);
      HandleAuthenticates(After(p, ins, k - 1, id, broker, now).run, ins[k - 1], id, broker, now);
      OpenNext(CanPublish(p), ins, k);
      NothingOpensTwice(CanPublish(p), ins, k);
    }
  }

  lemma NothingOpensTwice(open: bool, ins: seq<Inbound>, k: nat)
    requires k <= |ins|
    ensures open ==> OpenAt(open, ins, k)
  {
  }

  // A packet that nothing stops is reported with the number of messages let through,
  // and as an authentication where it held a LOGIN or opened the gate; it is left by
  // exception where the broker failed a message. The held commands of the device are
  // flushed where it leaves the gate open.
  lemma VerdictExactly(p: Props, ins: seq<Inbound>, id: string, broker: bool, now: int)
    requires Bound(p) && IsLive(p)
    ensures var s, open := After(p, ins, |ins|, id, broker, now), CanPublish(p);
            && (s.Next? <==> Unstopped(open, ins))
            && (Flushes(s) <==> Unstopped(open, ins) && OpenAt(open, ins, |ins|))
            && (Unstopped(open, ins) ==>
                Verdict(s) == if broker && !AllDelivered(open, ins, |ins|) then Threw
                              else Returned(Counted(open, ins, |ins|, broker),
                                            (exists j :: 0 <= j < |ins| && ins[j].msg.kind.Login?)
                                            || (OpenAt(open, ins, |ins|) && !open), false))
  {
    hide Stops, OpenAt, AllDelivered;
    DispatchTallies(p, ins, |ins|, id, broker, now);
    NoneUndelivered(CanPublish(p), ins, |ins|);
    if Unstopped(CanPublish(p), ins) {
      Authenticates(p, ins, |ins|, id, broker, now);
    }
  }

  lemma {:induction false} CountedIsSome(open: bool, ins: seq<Inbound>, k: nat, broker: bool)
    requires k <= |ins|
    ensures Counted(open, ins, k, broker) > 0 <==>
            exists j :: 0 <= j < k && LetThrough(open, ins, j, broker)
  {
    hide LetThrough;
    if k > 0 {
      CountedIsSome(open, ins, k - 1, broker);
    }
  }

  // A packet refused at its k-th message reports that nothing was published. That
  // is so unless a message ahead of it was let through and delivered; and then
  // the refused message is a LOGIN.
  lemma RefusalReports(p: Props, ins: seq<Inbound>, k: nat, id: string, broker: bool, now: int)
    requires Bound(p) && IsLive(p) && k < |ins|
    requires forall j :: 0 <= j < k ==> !Stops(CanPublish(p), ins, j)
    requires Stops(CanPublish(p), ins, k) && ins[k].resolution.Denied?
    ensures After(p, ins, k + 1, id, broker, now).Refused?
    ensures var s := After(p, ins, k + 1, id, broker, now);
            Verdict(s).published == s.run.published <==>
            forall j :: 0 <= j < k ==> !LetThrough(CanPublish(p), ins, j, broker)
    ensures !ins[k].msg.kind.Login? ==> After(p, ins, k + 1, id, broker, now).run.published == 0
  {
    hide Stops, LetThrough, Handle;
    DispatchTallies(p, ins, k, id, broker, now);
    StopEnds(p, ins, k, k + 1, id, broker, now);
    CountedIsSome(CanPublish(p), ins, k, broker);
    if !ins[k].msg.kind.Login? {
      RefusedAtShutGate(CanPublish(p), ins, k);
      NothingWhileShut(CanPublish(p), ins, k, None, id, broker);
    }
  }

  lemma RefusedAtShutGate(open: bool, ins: seq<Inbound>, k: nat)
    requires k < |ins| && Stops(open, ins, k) && !ins[k].msg.kind.Login?
    ensures !OpenAt(open, ins, k)
  {
  }

  // And there are such packets: a position that is published, then a LOGIN for a
  // device the registry does not know.
  lemma PublishedUnreported(p: Props, id: string, now: int)
    requires Bound(p) && CanPublish(p)
    ensures exists ins: seq<Inbound> ::
              && |ins| == 2 && After(p, ins, 2, id, true, now).Refused?
              && After(p, ins, 2, id, true, now).run.published == 1
              && Verdict(After(p, ins, 2, id, true, now)) == Returned(0, false, true)
  {
    var fix := Inbound(Message("m1", "", "", None, None, "111", Position, ""), Denied, true, None);
    var login := Inbound(Message("m2", "", "", None, None, "222", Login, ""), Denied, true, None);
    var ins := [fix, login];
    assert After(p, ins, 0, id, true, now) == Next(Start(p));
    var one := After(p, ins, 1, id, true, now);
    assert one == Handle(Start(p), ins[0], id, true, now);
    assert one.Next? && one.run.published == 1;
    assert After(p, ins, 2, id, true, now) == Handle(one.run, login, id, true, now);
  }

  // Every message at the open gate was delivered.
  ghost predicate AllDelivered(open: bool, ins: seq<Inbound>, k: nat)
    requires k <= |ins|
  {
    forall j, i :: 0 <= j < k && i == j + 1 && OpenAt(open, ins, i) ==> ins[j].delivered
  }

  // The device is told to drop a packet's records exactly when the packet ran to
  // its end with the gate open there, and, where there is a broker, every message
  // at the open gate was delivered.
  lemma AcksExactly(p: Props, ins: seq<Inbound>, id: string, broker: bool, now: int, meitrack: bool)
    requires Bound(p) && IsLive(p)
    ensures AcksCache(After(p, ins, |ins|, id, broker, now), meitrack) <==>
            && meitrack && (forall j :: 0 <= j < |ins| ==> !Stops(CanPublish(p), ins, j))
            && OpenAt(CanPublish(p), ins, |ins|) && (broker ==> AllDelivered(CanPublish(p), ins, |ins|))
  {
    hide Stops, OpenAt, AllDelivered;
    DispatchTallies(p, ins, |ins|, id, broker, now);
    NoneUndelivered(CanPublish(p), ins, |ins|);
  }

  // So with a broker nothing at the open gate is lost, and without one all of it
  // is; and the records number what is reported published exactly when there is
  // no anonymous one ahead of the first that opens the gate.
  lemma AckLosesNothing(p: Props, ins: seq<Inbound>, id: string, broker: bool, now: int, meitrack: bool)
    requires Bound(p) && IsLive(p)
    requires AcksCache(After(p, ins, |ins|, id, broker, now), meitrack)
    ensures var s, open := After(p, ins, |ins|, id, broker, now), CanPublish(p);
            && (if broker then AllDelivered(open, ins, |ins|) else s.run.sent == [])
            && (Verdict(s).published == |ins| <==> ins == [] || open || Identifies(ins[0].msg))
  {
    hide Stops, LetThrough, Handle;
    var open := CanPublish(p);
    DispatchTallies(p, ins, |ins|, id, broker, now);
    AcksExactly(p, ins, id, broker, now, meitrack);
    CountedIsAll(open, ins, |ins|, broker);
    LetThroughFrom(open, ins, broker);
  }

  lemma {:induction false} NoneUndelivered(open: bool, ins: seq<Inbound>, k: nat)
    requires k <= |ins|
    ensures Undelivered(open, ins, k) == 0 <==> AllDelivered(open, ins, k)
  {
    if k > 0 {
      hide OpenAt;
      NoneUndelivered(open, ins, k - 1);
    }
  }

  lemma {:induction false} CountedIsAll(open: bool, ins: seq<Inbound>, k: nat, broker: bool)
    requires k <= |ins|
    ensures Counted(open, ins, k, broker) <= k
    ensures Counted(open, ins, k, broker) == k <==> forall j :: 0 <= j < k ==> LetThrough(open, ins, j, broker)
  {
    hide LetThrough;
    if k > 0 {
      CountedIsAll(open, ins, k - 1, broker);
    }
  }

  lemma LetThroughFrom(open: bool, ins: seq<Inbound>, broker: bool)
    requires broker ==> AllDelivered(open, ins, |ins|)
    ensures (forall j :: 0 <= j < |ins| ==> LetThrough(open, ins, j, broker)) <==>
            ins == [] || open || Identifies(ins[0].msg)
  {
    if ins != [] {
      assert OpenAt(open, ins, 1) <==> open || Identifies(ins[0].msg);
      assert LetThrough(open, ins, 0, broker) ==> OpenAt(open, ins, 1);
      if OpenAt(open, ins, 1) {
        forall j | 0 <= j < |ins| ensures LetThrough(open, ins, j, broker) {
          assert OpenAt(open, ins, j + 1);
        }
      }
    }
  }

  // A position that nobody was handed, reported as published and acknowledged.
  lemma NoBrokerAcks(p: Props, id: string, now: int)
    requires Bound(p) && CanPublish(p)
    ensures exists ins: seq<Inbound> ::
              var s := After(p, ins, |ins|, id, false, now);
              && |ins| == 1 && ins[0].msg.kind.Position? && !ins[0].delivered
              && s.run.sent == [] && AcksCache(s, true) && Verdict(s) == Returned(1, false, false)
  {
    var ins := [Inbound(Message("m1", "", "", None, None, "111", Position, ""), Denied, false, None)];
    assert After(p, ins, 0, id, false, now) == Next(Start(p));
    assert After(p, ins, 1, id, false, now) == Handle(Start(p), ins[0], id, false, now);
    assert |ins| == 1 && ins[0].msg.kind.Position?;
  }

  // ----- the serial a message carries -----

  // All that one message has handed over carries the session's identity, but the
  // serial is the message's own where it has one.
  ghost predicate SerialOwn(m: Message, inb: Inbound, who: Option<Identity>) {
    && who.Some? && Carries(m, who.value)
    && (m.serialOrImei == who.value.serialOrImei <==> inb.msg.serialOrImei in {"", who.value.serialOrImei})
  }

  ghost predicate SerialsOwn(before: seq<Message>, after: seq<Message>, inb: Inbound, who: Option<Identity>) {
    before <= after && forall m :: m in after[|before|..] ==> SerialOwn(m, inb, who)
  }

  lemma PublishSerials(r: Run, inb: Inbound, id: string, broker: bool)
    requires Bound(r.props)
    ensures var q := PublishOne(r, BindIdentity(inb.msg, r.props.identity, id), inb, broker);
            q.props == r.props && SerialsOwn(r.sent, q.sent, inb, r.props.identity)
  {
    var bound := BindIdentity(inb.msg, r.props.identity, id);
    var q := PublishOne(r, bound, inb, broker);
    if q.sent != r.sent {
      assert q.sent[|r.sent|..] == Handed(bound, inb);
    }
  }

  lemma HandleSerials(r: Run, inb: Inbound, id: string, broker: bool, now: int)
    requires Bound(r.props)
    ensures var q := Handle(r, inb, id, broker, now).run;
            SerialsOwn(r.sent, q.sent, inb, q.props.identity)
  {
    hide PublishOne, SerialOwn, BindIdentity, Useful;
    UsefulKeeps(r, inb, id, now);
    UsefulBound(r.props, inb.msg.kind, now);
    PublishSerials(r.(props := Useful(r.props, inb.msg.kind, now)), inb, id, broker);
    if inb.resolution.Granted? {
      var a := LoggedIn(r, inb, now);
      PublishSerials(a, inb, id, broker);
      UsefulKeeps(a, inb, id, now);
      UsefulBound(a.props, inb.msg.kind, now);
      PublishSerials(a.(props := Useful(a.props, inb.msg.kind, now)), inb, id, broker);
    }
  }

  lemma UsefulBound(p: Props, kind: Kind, now: int)
    requires Bound(p)
    ensures Bound(Useful(p, kind, now))
  {
  }

  lemma UsefulKeeps(r: Run, inb: Inbound, id: string, now: int)
    ensures Useful(r.props, inb.msg.kind, now).identity == r.props.identity
    ensures BindIdentity(inb.msg, r.props.identity, id).kind == inb.msg.kind
  {
  }

  // What is handed over stays so, and an identity once bound.
  lemma {:induction false} AfterGrows(p: Props, ins: seq<Inbound>, j: nat, k: nat, id: string, broker: bool, now: int)
    requires Bound(p) && j <= k <= |ins|
    ensures var r, q := After(p, ins, j, id, broker, now).run, After(p, ins, k, id, broker, now).run;
            r.sent <= q.sent && (r.props.identity.Some? ==> q.props.identity == r.props.identity)
    decreases k
  {
    if j < k {
      hide Handle, SerialOwn, Sealed;
      AfterGrows(p, ins, j, k - 1, id, broker, now);
      AfterSealed(p, ins, k - 1, id, broker, now);
      var s := After(p, ins, k - 1, id, broker, now);
      NothingUnsealed(p, s.run);
      if s.Next? {
        HandleSerials(s.run, ins[k - 1], id, broker, now);
        if s.run.props.identity.Some? {
          HandleKeepsIdentity(s.run, ins[k - 1], id, broker, now);
        }
      }
    }
  }

  // In every packet, at every message: what the j-th message hands over, a photo
  // acknowledgement included, carries the session's device and tenant; and its
  // serial is the session's just when the message came with none or with that one.
  lemma SerialExactly(p: Props, ins: seq<Inbound>, j: nat, id: string, broker: bool, now: int)
    requires Bound(p) && j < |ins|
    ensures var r, q := After(p, ins, j, id, broker, now).run, After(p, ins, j + 1, id, broker, now).run;
            SerialsOwn(r.sent, q.sent, ins[j], q.props.identity)
  {
    hide Handle, SerialOwn, Sealed;
    AfterSealed(p, ins, j, id, broker, now);
    var s := After(p, ins, j, id, broker, now);
    NothingUnsealed(p, s.run);
    if s.Next? {
      HandleSerials(s.run, ins[j], id, broker, now);
    }
  }

  // A later LOGIN that the registry grants, for whatever device and anywhere in a
  // packet, changes nothing of the session and is published as its own device.
  lemma LaterLogin(p: Props, ins: seq<Inbound>, j: nat, id: string, broker: bool, now: int)
    requires Bound(p) && j < |ins| && After(p, ins, j, id, broker, now).Next?
    requires CanPublish(After(p, ins, j, id, broker, now).run.props)
    requires ins[j].msg.kind.Login? && ins[j].resolution.Granted?
    ensures var r, s := After(p, ins, j, id, broker, now).run, After(p, ins, j + 1, id, broker, now);
            && s.Next? && s.run.props == r.props && s.run.grants == r.grants
            && r.props.identity.Some? && SerialsOwn(r.sent, s.run.sent, ins[j], r.props.identity)
            && |s.run.sent| == |r.sent| + (if broker then 1 else 0)
  {
    hide Sealed, SerialsOwn, BindIdentity;
    var r := After(p, ins, j, id, broker, now).run;
    AfterSealed(p, ins, j, id, broker, now);
    NothingUnsealed(p, r);
    SerialExactly(p, ins, j, id, broker, now);
    SameKind(ins[j].msg, r.props.identity, id);
  }

  // ----- a session that is gone -----

  ghost function Logins(ins: seq<Inbound>, k: nat): nat
    requires k <= |ins|
  {
    if k == 0 then 0 else Logins(ins, k - 1) + (if ins[k - 1].msg.kind == Login then 1 else 0)
  }

  // It takes a message further only where that names no device, or is a LOGIN.
  ghost predicate GoesOn(inb: Inbound) {
    !Identifies(inb.msg) || (inb.msg.kind == Login && inb.resolution.Granted?)
  }

  lemma GoneStep(r: Run, inb: Inbound, id: string, broker: bool, now: int)
    requires !IsLive(r.props)
    ensures var s := Handle(r, inb, id, broker, now);
            && (s.Next? <==> GoesOn(inb)) && s.run.props == r.props && s.run.sent == r.sent
            && s.run.grants == r.grants && s.run.published == r.published
            && (s.Next? ==> s.run.failures == r.failures + (if inb.msg.kind == Login then 1 else 0))
  {
    hide BindIdentity;
  }

  // A packet for a session that is closing or closed hands over nothing and leaves the
  // session alone: every LOGIN that is granted fails at the gate, and whatever else
  // names a device, or is not granted, ends it.
  lemma {:induction false} GoneHandsNothing(p: Props, ins: seq<Inbound>, k: nat, id: string, broker: bool, now: int)
    requires !IsLive(p) && k <= |ins|
    ensures var s := After(p, ins, k, id, broker, now);
            && s.run.props == p && s.run.sent == [] && s.run.grants == [] && s.run.published == 0
            && (s.Next? <==> forall j :: 0 <= j < k ==> GoesOn(ins[j]))
            && (s.Next? ==> s.run.failures == Logins(ins, k))
            && (s.Next? && s.run.failures > 0 ==> Verdict(s) == Threw)
  {
    if k > 0 {
      hide Handle, GoesOn, IsLive;
      GoneHandsNothing(p, ins, k - 1, id, broker, now);
      GoneStep(After(p, ins, k - 1, id, broker, now).run, ins[k - 1], id, broker, now);
    }
  }

  // ----- whole runs of a session -----

  // Packets, and whatever else happens to the session; only the dispatch of a
  // packet authenticates it.
  datatype Event = Packet(ins: seq<Inbound>, now: int) | Elsewhere(op: Op)

  datatype Record = Record(props: Props, sent: seq<Message>, grants: seq<Identity>)

  function OnEvent(h: Record, e: Event, id: string, broker: bool): Record {
    match e
    case Packet(ins, now) =>
      var r := After(h.props, ins, |ins|, id, broker, now).run;
      Record(r.props, h.sent + r.sent, h.grants + r.grants)
    case Elsewhere(op) => if op.DoAuthenticate? then h else h.(props := Apply(h.props, op))
  }

  function Lifetime(p: Props, events: seq<Event>, k: nat, id: string, broker: bool): Record
    requires k <= |events|
  {
    if k == 0 then Record(p, [], []) else OnEvent(Lifetime(p, events, k - 1, id, broker), events[k - 1], id, broker)
  }

  // What the next event of a life does: a packet is dispatched, with what it hands
  // over and grants on record; anything else takes its step, hands over nothing and
  // grants nothing.
  lemma NextEvent(p: Props, events: seq<Event>, n: nat, id: string, broker: bool)
    requires n < |events|
    ensures var h, q := Lifetime(p, events, n, id, broker), Lifetime(p, events, n + 1, id, broker);
            match events[n]
            case Packet(ins, now) =>
              var r := After(h.props, ins, |ins|, id, broker, now).run;
              q.props == r.props && q.sent == h.sent + r.sent && q.grants == h.grants + r.grants
            case Elsewhere(op) =>
              && q.sent == h.sent && q.grants == h.grants
              && (if op.DoAuthenticate? then q.props == h.props else Steps(h.props, op, q.props))
  {
    if events[n].Elsewhere? {
      StepsExactly(Lifetime(p, events, n, id, broker).props, events[n].op);
    }
  }

  // Once it is gone a session hands nothing over any more, and stays gone.
  lemma {:induction false} SilentOnceGone(p: Props, events: seq<Event>, j: nat, k: nat, id: string, broker: bool)
    requires p.state.New? && Bound(p) && j <= k <= |events| && !IsLive(Lifetime(p, events, j, id, broker).props)
    ensures !IsLive(Lifetime(p, events, k, id, broker).props)
    ensures Lifetime(p, events, k, id, broker).sent == Lifetime(p, events, j, id, broker).sent
    decreases k
  {
    if j < k {
      hide After, IsLive, Bound, Apply, FailClosed;
      SilentOnceGone(p, events, j, k - 1, id, broker);
      var h := Lifetime(p, events, k - 1, id, broker);
      match events[k - 1]
      case Packet(ins, now) => GoneHandsNothing(h.props, ins, |ins|, id, broker, now);
      case Elsewhere(op) =>
        EverBound(p, events, k - 1, id, broker);
        ApplyKeeps(h.props, op);
    }
  }

  ghost predicate FailClosed(h: Record) {
    && Bound(h.props)
    && (h.props.identity.None? ==> h.sent == [] && h.grants == [])
    && (h.props.identity.Some? ==> h.grants == [h.props.identity.value])
    && (forall m :: m in h.sent ==> h.props.identity.Some? && Carries(m, h.props.identity.value))
  }

  lemma OnEventFailsClosed(h: Record, e: Event, id: string, broker: bool)
    requires FailClosed(h)
    ensures FailClosed(OnEvent(h, e, id, broker))
    ensures h.props.identity.Some? ==> OnEvent(h, e, id, broker).props.identity == h.props.identity
  {
    match e
    case Packet(ins, now) => AfterSealed(h.props, ins, |ins|, id, broker, now);
    case Elsewhere(op) => ApplyKeeps(h.props, op);
  }

  // On every run of a session: all that was ever handed to Kafka carries the
  // device and tenant of the one grant it was authenticated with; before that
  // there is nothing.
  lemma {:induction false} EverFailsClosed(p: Props, events: seq<Event>, k: nat, id: string, broker: bool)
    requires p.state.New? && Bound(p) && k <= |events|
    ensures FailClosed(Lifetime(p, events, k, id, broker))
  {
    if k > 0 {
      hide FailClosed, OnEvent;
      EverFailsClosed(p, events, k - 1, id, broker);
      OnEventFailsClosed(Lifetime(p, events, k - 1, id, broker), events[k - 1], id, broker);
    } else {
      assert Lifetime(p, events, 0, id, broker) == Record(p, [], []);
    }
  }

  lemma {:induction false} LifeGrows(p: Props, events: seq<Event>, j: nat, k: nat, id: string, broker: bool)
    requires j <= k <= |events|
    ensures Lifetime(p, events, j, id, broker).sent <= Lifetime(p, events, k, id, broker).sent
    decreases k
  {
    if j < k {
      LifeGrows(p, events, j, k - 1, id, broker);
      hide After;
    }
  }

  lemma {:induction false} IdentityStays(p: Props, events: seq<Event>, j: nat, k: nat, id: string, broker: bool)
    requires p.state.New? && Bound(p) && j <= k <= |events|
    requires Lifetime(p, events, j, id, broker).props.identity.Some?
    ensures Lifetime(p, events, k, id, broker).props.identity == Lifetime(p, events, j, id, broker).props.identity
    decreases k
  {
    if j < k {
      hide FailClosed, OnEvent, Bound;
      IdentityStays(p, events, j, k - 1, id, broker);
      EverFailsClosed(p, events, k - 1, id, broker);
      OnEventFailsClosed(Lifetime(p, events, k - 1, id, broker), events[k - 1], id, broker);
    }
  }

  lemma UnboundYet(h: Record)
    requires FailClosed(h) && h.props.identity.None?
    ensures Bound(h.props) && h.sent == []
  {
  }

  // An identity that a session has at any time of its life was granted: by the
  // resolver, for a message of one of its packets, with nothing handed to Kafka
  // before that message.
  lemma {:induction false} IdentityResolved(p: Props, events: seq<Event>, k: nat, id: string, broker: bool)
    returns (e: nat, j: nat)
    requires p.state.New? && Bound(p) && k <= |events|
    requires Lifetime(p, events, k, id, broker).props.identity.Some?
    ensures e < k && events[e].Packet? && j < |events[e].ins|
    ensures GrantedFor(Lifetime(p, events, k, id, broker).props.identity.value, events[e].ins[j])
    ensures var h := Lifetime(p, events, e, id, broker);
            && h.props.identity.None? && h.sent == []
            && After(h.props, events[e].ins, j, id, broker, events[e].now).run.sent == []
  {
    assert k > 0;
    hide FailClosed, After, Apply, Bound, GrantedFor;
    var h := Lifetime(p, events, k - 1, id, broker);
    EverFailsClosed(p, events, k - 1, id, broker);
    if h.props.identity.Some? {
      e, j := IdentityResolved(p, events, k - 1, id, broker);
      OnEventFailsClosed(h, events[k - 1], id, broker);
    } else {
      e := k - 1;
      UnboundYet(h);
      match events[e]
      case Packet(ins, now) => j := GrantResolved(h.props, ins, |ins|, id, broker, now);
      case Elsewhere(op) =>
        ApplyKeeps(h.props, op);
        assert false;
    }
  }

  lemma GrantsAre(h: Record)
    requires FailClosed(h) && h.props.identity.Some?
    ensures h.grants == [h.props.identity.value]
  {
  }

  // No later LOGIN rebinds the session, and what was sent stays sent.
  lemma NeverRebound(p: Props, events: seq<Event>, j: nat, k: nat, id: string, broker: bool)
    requires p.state.New? && Bound(p) && j <= k <= |events|
    requires Lifetime(p, events, j, id, broker).props.identity.Some?
    ensures Lifetime(p, events, k, id, broker).props.identity == Lifetime(p, events, j, id, broker).props.identity
    ensures Lifetime(p, events, k, id, broker).grants == Lifetime(p, events, j, id, broker).grants
    ensures Lifetime(p, events, j, id, broker).sent <= Lifetime(p, events, k, id, broker).sent
  {
    hide FailClosed, OnEvent, Bound;
    IdentityStays(p, events, j, k, id, broker);
    EverFailsClosed(p, events, j, id, broker);
    EverFailsClosed(p, events, k, id, broker);
    GrantsAre(Lifetime(p, events, j, id, broker));
    GrantsAre(Lifetime(p, events, k, id, broker));
    LifeGrows(p, events, j, k, id, broker);
  }

  // Over every run of a session, for every message of every packet: what it handed
  // over is in the session's log for good, with the serial its own or the session's.
  lemma SerialOverLife(p: Props, events: seq<Event>, e: nat, j: nat, k: nat, id: string, broker: bool)
    requires p.state.New? && Bound(p) && e < k <= |events| && events[e].Packet? && j < |events[e].ins|
    ensures var h, last := Lifetime(p, events, e, id, broker), Lifetime(p, events, k, id, broker);
            var ins, now := events[e].ins, events[e].now;
            var r := After(h.props, ins, j, id, broker, now).run;
            var q := After(h.props, ins, j + 1, id, broker, now).run;
            && h.sent + q.sent <= last.sent
            && r.sent <= q.sent && (r.sent != q.sent ==> SerialsOwn(r.sent, q.sent, ins[j], last.props.identity))
  {
    hide FailClosed, Handle, SerialOwn;
    var h, ins, now := Lifetime(p, events, e, id, broker), events[e].ins, events[e].now;
    EverBound(p, events, e, id, broker);
    SerialExactly(h.props, ins, j, id, broker, now);
    AfterGrows(h.props, ins, j + 1, |ins|, id, broker, now);
    var r, q := After(h.props, ins, j, id, broker, now).run, After(h.props, ins, j + 1, id, broker, now).run;
    var next := Lifetime(p, events, e + 1, id, broker);
    assert next == OnEvent(h, events[e], id, broker);
    LifeGrows(p, events, e + 1, k, id, broker);
    assert h.sent + q.sent <= next.sent;
    if r.sent != q.sent {
      assert q.sent[|r.sent|] in q.sent[|r.sent|..];
      assert SerialOwn(q.sent[|r.sent|], ins[j], q.props.identity);
      SerialHasIdentity(q.sent[|r.sent|], ins[j], q.props.identity);
      NeverRebound(p, events, e + 1, k, id, broker);
    }
  }

  lemma SerialHasIdentity(m: Message, inb: Inbound, who: Option<Identity>)
    requires SerialOwn(m, inb, who)
    ensures who.Some?
  {
  }

  lemma EverBound(p: Props, events: seq<Event>, k: nat, id: string, broker: bool)
    requires p.state.New? && Bound(p) && k <= |events|
    ensures Bound(Lifetime(p, events, k, id, broker).props)
  {
    EverFailsClosed(p, events, k, id, broker);
  }

  // ----- the dispatcher -----

  // What became of one message: tried at the gate, dropped, or the packet's end,
  // by refusal or by exception.
  datatype Fate = Tried(authenticated: bool, ok: bool) | Dropped | Refusal | Broken

  lemma AdmitIs(r: Run, inb: Inbound, now: int)
    requires inb.resolution.Granted?
    ensures Unauthenticated(r.props) ==>
              Admit(r, inb, now) == r.(props := Admit(Start(r.props), inb, now).props, authenticated := true,
                                       grants := r.grants + [GrantOf(inb)])
  {
  }

  class Dispatcher {
    const broker: bool
    const meitrack: bool
    // What was handed to Kafka, whom sessions were registered as, and for which
    // sessions held commands were flushed and the record cache acknowledged.
    var sent: seq<Message>
    var registered: seq<Identity>
    var flushed: seq<string>
    var acked: seq<string>

    constructor (broker: bool, meitrack: bool)
      ensures sent == [] && registered == [] && flushed == [] && acked == []
      ensures this.broker == broker && this.meitrack == meitrack
    {
      this.broker, this.meitrack := broker, meitrack;
      sent, registered, flushed, acked := [], [], [], [];
    }

    // Publish a stamped message; false where it was not.
    method Publish(session: Session, bound: Message, inb: Inbound, ghost r: Run, ghost before: seq<Message>)
      returns (ok: bool)
      requires session.props == r.props && sent == before + r.sent
      modifies this`sent
      ensures var q := PublishOne(r, bound, inb, broker);
              && sent == before + q.sent
              && q.props == r.props && q.grants == r.grants && q.authenticated == r.authenticated
              && q.published == r.published + (if ok then 1 else 0)
              && q.failures == r.failures + (if ok then 0 else 1)
    {
      if !CanPublish(session.props) {
        return false;
      }
      if !broker {
        return true;
      }
      sent := sent + [bound];
      if !inb.delivered {
        return false;
      }
      if bound.kind.Photo? && inb.photo.Some? {
        sent := sent + [PhotoAck(bound, inb.photo.value)];
      }
      ok := true;
    }

    // Authenticate as whom the resolver says, and register.
    method Authenticate(session: Session, inb: Inbound, now: int) returns (ok: bool)
      requires inb.resolution.Granted?
      modifies this`registered, session
      ensures ok == Unauthenticated(old(session.props))
      ensures registered == old(registered) + (if ok then [GrantOf(inb)] else [])
      ensures session.props == if ok then Admit(Start(old(session.props)), inb, now).props else old(session.props)
    {
      if session.props.state.New? {
        var identified := session.DoIdentify(now);
      }
      ok := session.DoAuthenticate(GrantOf(inb), now);
      if ok {
        registered := registered + [GrantOf(inb)];
      }
    }

    // Transition on a first useful payload, or record it.
    method NoteUseful(session: Session, kind: Kind, now: int)
      modifies session
      ensures session.props == Useful(old(session.props), kind, now)
    {
      if session.props.state.Authenticated? && (kind.Position? || kind.Telemetry?) {
        var active := session.DoActivate(now);
      } else if CanPublish(session.props) && session.props.state.Active? && (kind.Position? || kind.Telemetry?) {
        session.DoRecordData(now);
      }
    }

    // A LOGIN the resolver has granted.
    method OnLogin(session: Session, inb: Inbound, now: int,
              ghost r: Run, ghost before: seq<Message>, ghost known: seq<Identity>)
      returns (ok: bool)
      requires inb.resolution.Granted?
      requires session.props == r.props && sent == before + r.sent && registered == known + r.grants
      modifies this`sent, this`registered, session
      ensures var a := LoggedIn(r, inb, now);
              var q := PublishOne(a, BindIdentity(inb.msg, a.props.identity, session.id), inb, broker);
              && session.props == q.props && sent == before + q.sent && registered == known + q.grants
              && q.authenticated && q.published == r.published + (if ok then 1 else 0)
              && q.failures == r.failures + (if ok then 0 else 1)
    {
      hide PublishOne, BindIdentity, Admit, GrantOf;
      AdmitIs(r, inb, now);
      if Unauthenticated(session.props) {
        ok := Authenticate(session, inb, now);
      }
      var bound := BindIdentity(inb.msg, session.props.identity, session.id);
      ok := Publish(session, bound, inb, LoggedIn(r, inb, now), before);
    }

    // A payload at the open gate.
    method OnPayload(session: Session, inb: Inbound, now: int, ghost r: Run, ghost before: seq<Message>)
      returns (ok: bool)
      requires session.props == r.props && sent == before + r.sent
      modifies this`sent, session
      ensures var q := Payload(r, inb, session.id, broker, now);
              && session.props == q.props && sent == before + q.sent && q.grants == r.grants
              && q.authenticated == r.authenticated && q.published == r.published + (if ok then 1 else 0)
              && q.failures == r.failures + (if ok then 0 else 1)
    {
      hide PublishOne, BindIdentity, Useful;
      UsefulKeeps(r, inb, session.id, now);
      var bound := BindIdentity(inb.msg, session.props.identity, session.id);
      NoteUseful(session, bound.kind, now);
      ok := Publish(session, bound, inb, r.(props := Useful(r.props, bound.kind, now)), before);
    }

    // One message of the packet.
    method HandleOne(session: Session, inb: Inbound, now: int,
              ghost r: Run, ghost before: seq<Message>, ghost known: seq<Identity>)
      returns (fate: Fate)
      requires session.props == r.props && sent == before + r.sent && registered == known + r.grants
      modifies this`sent, this`registered, session
      ensures var s := Handle(r, inb, session.id, broker, now);
              && session.props == s.run.props && sent == before + s.run.sent && registered == known + s.run.grants
              && (fate.Refusal? <==> s.Refused?) && (fate.Broken? <==> s.Illegal? || s.Unresolved?)
              && s.run.authenticated == (r.authenticated || (fate.Tried? && fate.authenticated))
              && s.run.published == r.published + (if fate.Tried? && fate.ok then 1 else 0)
              && s.run.failures == r.failures + (if fate.Tried? && !fate.ok then 1 else 0)
    {
      hide PublishOne, BindIdentity, Useful, Admit, GrantOf, Payload, LoggedIn;
      if inb.msg.kind.Login? {
        if !inb.resolution.Granted? {
          return if inb.resolution.Denied? then Refusal else Broken;
        }
        var ok := OnLogin(session, inb, now, r, before, known);
        return Tried(true, ok);
      }
      ghost var q := r;
      var authenticated := false;
      if !CanPublish(session.props) {
        if inb.msg.serialOrImei == "" {
          return Dropped;
        }
        if !inb.resolution.Granted? {
          return if inb.resolution.Denied? then Refusal else Broken;
        }
        AdmitIs(r, inb, now);
        authenticated := Authenticate(session, inb, now);
        if !authenticated {
          return Broken;
        }
        q := Admit(r, inb, now);
      }
      var ok := OnPayload(session, inb, now, q, before);
      return Tried(authenticated, ok);
    }

    // Dispatch one framed packet, decoded or not.
    method Dispatch(session: Session, decoded: Option<seq<Inbound>>, now: int) returns (result: Result)
      modifies this, session
      ensures decoded.None? ==>
                result == Returned(0, false, false) && session.props == old(session.props)
                && sent == old(sent) && registered == old(registered)
                && flushed == old(flushed) && acked == old(acked)
      ensures decoded.Some? ==>
                var s := After(old(session.props), decoded.value, |decoded.value|, session.id, broker, now);
                && result == Verdict(s) && session.props == s.run.props
                && sent == old(sent) + s.run.sent && registered == old(registered) + s.run.grants
                && flushed == old(flushed) + (if Flushes(s) then [session.id] else [])
                && acked == old(acked) + (if AcksCache(s, meitrack) then [session.id] else [])
                && (Bound(old(session.props)) && IsLive(old(session.props)) && s.Next? ==>
                    Progressed(old(session.props), decoded.value, |decoded.value|, now, session.props))
    {
      if decoded.None? {
        return Returned(0, false, false);
      }
      hide Handle, Progressed;
      var ins, id := decoded.value, session.id;
      var authenticated, published, failures := false, 0, 0;
      ghost var p, before, known := session.props, sent, registered;
      ghost var r := Start(p);
      for k := 0 to |ins|
        invariant After(p, ins, k, id, broker, now) == Next(r)
        invariant session.props == r.props && sent == before + r.sent && registered == known + r.grants
        invariant authenticated == r.authenticated && published == r.published && failures == r.failures
        invariant flushed == old(flushed) && acked == old(acked)
      {
        var fate := HandleOne(session, ins[k], now, r, before, known);
        ghost var s := Handle(r, ins[k], id, broker, now);
        match fate {
          case Refusal =>
            Ended(p, ins, k + 1, |ins|, id, broker, now);
            return Returned(0, false, true);
          case Broken =>
            Ended(p, ins, k + 1, |ins|, id, broker, now);
            return Threw;
          case Dropped =>
          case Tried(auth, ok) =>
            authenticated := authenticated || auth;
            if ok {
              published := published + 1;
            } else {
              failures := failures + 1;
            }
        }
        r := s.run;
      }
      result := Conclude(session, published, authenticated, failures);
      if Bound(p) && IsLive(p) {
        DispatchProgresses(p, ins, |ins|, id, broker, now);
      }
    }

    method Conclude(session: Session, published: nat, authenticated: bool, failures: nat) returns (result: Result)
      modifies this`flushed, this`acked
      ensures result == if failures > 0 then Threw else Returned(published, authenticated, false)
      ensures flushed == old(flushed)
                         + (if session.props.identity.Some? && CanPublish(session.props) then [session.id] else [])
      ensures acked == old(acked)
                       + (if failures == 0 && meitrack && CanPublish(session.props) then [session.id] else [])
    {
      if session.props.identity.Some? && CanPublish(session.props) {
        flushed := flushed + [session.id];
      }
      if failures > 0 {
        return Threw;
      }
      if meitrack && CanPublish(session.props) {
        acked := acked + [session.id];
      }
      return Returned(published, authenticated, false);
    }
  }
}
