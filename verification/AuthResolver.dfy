// Device resolution down a ladder of caches: the local LRU of a pod, the Redis
// all pods share, the registry.
module AuthResolver {
  import opened LruCache
  import opened Optional

  datatype Status = Active | Suspended | Decommissioned | Unpaired

  datatype Device = Device(deviceId: string, tenantId: string, status: Status, pairedVehicleId: Option<string>)

  datatype Options = Options(l1TtlMs: nat, l2TtlSeconds: nat, autoEnroll: bool)

  const L1_MAX_ENTRIES := 10_000
  const ENROLLABLE_PROTOCOLS := {"gt06", "jt808", "meitrack", "stub"}

  datatype L1Entry = L1Entry(device: Device, expiresAt: int)
  type L1 = Entries<string, L1Entry>

  // A Redis value, with the moment it was set; it is there until its TTL is over.
  datatype L2Entry = L2Entry(device: Device, setAt: int)
  type L2 = map<string, L2Entry>

  // What the outside answers, if asked: whether Redis can be read and written,
  // what the registry resolves and enrolls (None: not found, unable or
  // unreachable), and whether it holds the tenant for active (None: the call
  // fails).
  datatype Answers = Answers(l2Read: bool, l2Write: bool, resolved: Option<Device>, enrolled: Option<Device>,
                             tenantActive: Option<bool>)

  datatype Reason = Unknown | Disabled | TenantSuspended
  datatype Outcome = Ok(device: Device) | Rejected(reason: Reason) | Threw

  // The registry found this device for the serial, and its tenant was active.
  datatype Grant = Grant(serial: string, device: Device, at: int)

  datatype Resolved = Resolved(l1: L1, l2: L2, outcome: Outcome, grant: Option<Grant>)

  function L2Get(l2: L2, serial: string, options: Options, readable: bool, now: int): Option<Device> {
    if readable && serial in l2 && now < l2[serial].setAt + 1000 * options.l2TtlSeconds
    then Some(l2[serial].device) else None
  }

  function CheckEnabled(device: Device): Outcome {
    if device.status.Suspended? || device.status.Decommissioned? then Rejected(Disabled) else Ok(device)
  }

  // The device the registry has for a serial, enrolled now if need be.
  function FromRegistry(hint: Option<string>, answers: Answers, options: Options): Option<Device> {
    if answers.resolved.Some? then answers.resolved
    else if options.autoEnroll && hint.Some? && hint.value in ENROLLABLE_PROTOCOLS then answers.enrolled
    else None
  }

  function L1Put(l1: L1, serial: string, device: Device, options: Options, now: int): L1 {
    Stored(l1, L1_MAX_ENTRIES, serial, L1Entry(device, now + options.l1TtlMs))
  }

  function ResolveL3(l1: L1, l2: L2, serial: string, hint: Option<string>, answers: Answers, options: Options, now: int)
    : Resolved
  {
    var found := FromRegistry(hint, answers, options);
    if found.None? then Resolved(l1, l2, Rejected(Unknown), None)
    else if answers.tenantActive.None? then Resolved(l1, l2, Threw, None)
    else if !answers.tenantActive.value then Resolved(l1, l2, Rejected(TenantSuspended), None)
    else
      var device := found.value;
      var caches := device.status.Active?;
      Resolved(if caches then L1Put(l1, serial, device, options, now) else l1,
               if caches && answers.l2Write then l2[serial := L2Entry(device, now)] else l2,
               CheckEnabled(device), Some(Grant(serial, device, now)))
  }

  function ResolveL2(l1: L1, l2: L2, serial: string, hint: Option<string>, answers: Answers, options: Options, now: int)
    : Resolved
  {
    var hit := L2Get(l2, serial, options, answers.l2Read, now);
    if hit.Some? then Resolved(L1Put(l1, serial, hit.value, options, now), l2, CheckEnabled(hit.value), None)
    else ResolveL3(l1, l2, serial, hint, answers, options, now)
  }

  predicate L1Serves(hit: Option<L1Entry>, now: int) {
    hit.Some? && hit.value.expiresAt > now && hit.value.device.status.Active?
  }

  function Resolve(l1: L1, l2: L2, serial: string, hint: Option<string>, answers: Answers, options: Options, now: int)
    : Resolved
  {
    var hit := Lookup(l1, serial);
    var refreshed := Refreshed(l1, serial);
    if L1Serves(hit, now) then Resolved(refreshed, l2, Ok(hit.value.device), None)
    else ResolveL2(refreshed, l2, serial, hint, answers, options, now)
  }

  // ----- the ladder, spelled out -----

  // The pod itself holds the device, active and not expired.
  ghost predicate InL1(l1: L1, serial: string, d: Device, now: int) {
    d.status == Active && exists e :: e in l1 && e.0 == serial && e.1.device == d && now < e.1.expiresAt
  }

  ghost predicate InL2(l2: L2, serial: string, d: Device, answers: Answers, options: Options, now: int) {
    && answers.l2Read && serial in l2 && l2[serial].device == d
    && now < l2[serial].setAt + 1000 * options.l2TtlSeconds
  }

  // The registry resolves the device, or enrols it for a protocol that may.
  ghost predicate InRegistry(d: Device, hint: Option<string>, answers: Answers, options: Options) {
    || answers.resolved == Some(d)
    || (answers.resolved == None && options.autoEnroll && answers.enrolled == Some(d)
        && hint in {Some("gt06"), Some("jt808"), Some("meitrack"), Some("stub")})
  }

  // Where a resolve finds a device, as far down the ladder as it has to go.
  datatype Source = FromL1(device: Device) | FromL2(device: Device) | FromL3(device: Device) | Nowhere

  ghost predicate Finds(l1: L1, l2: L2, serial: string, hint: Option<string>, answers: Answers, options: Options,
                        now: int, source: Source)
  {
    && (source.FromL1? ==> InL1(l1, serial, source.device, now))
    && (!source.FromL1? ==> forall d :: !InL1(l1, serial, d, now))
    && (source.FromL2? ==> InL2(l2, serial, source.device, answers, options, now))
    && (source.FromL3? || source.Nowhere? ==> forall d :: !InL2(l2, serial, d, answers, options, now))
    && (source.FromL3? ==> InRegistry(source.device, hint, answers, options))
    && (source.Nowhere? ==> forall d :: !InRegistry(d, hint, answers, options))
  }

  // A device is found in one place, or in none.
  lemma FindsOne(l1: L1, l2: L2, serial: string, hint: Option<string>, answers: Answers, options: Options, now: int)
    returns (source: Source)
    requires Sound(l1, L1_MAX_ENTRIES)
    ensures forall other :: Finds(l1, l2, serial, hint, answers, options, now, other) <==> other == source
    ensures var hit, l2Hit := Lookup(l1, serial), L2Get(l2, serial, options, answers.l2Read, now);
            var found := FromRegistry(hint, answers, options);
            source == if L1Serves(hit, now) then FromL1(hit.value.device)
                      else if l2Hit.Some? then FromL2(l2Hit.value)
                      else if found.Some? then FromL3(found.value)
                      else Nowhere
  {
    var hit, l2Hit := Lookup(l1, serial), L2Get(l2, serial, options, answers.l2Read, now);
    var found := FromRegistry(hint, answers, options);
    L1Holds(l1, serial, now);
    L2Holds(l2, serial, answers, options, now);
    RegistryHolds(hint, answers, options);
    hide InL1, InL2, InRegistry, L1Serves, L2Get, FromRegistry;
    if L1Serves(hit, now) {
      source := FromL1(hit.value.device);
      assert InL1(l1, serial, hit.value.device, now);
    } else if l2Hit.Some? {
      source := FromL2(l2Hit.value);
      assert InL2(l2, serial, l2Hit.value, answers, options, now);
    } else if found.Some? {
      source := FromL3(found.value);
      assert InRegistry(found.value, hint, answers, options);
    } else {
      source := Nowhere;
    }
  }

  lemma L1Holds(l1: L1, serial: string, now: int)
    requires Sound(l1, L1_MAX_ENTRIES)
    ensures var hit := Lookup(l1, serial);
            && (L1Serves(hit, now) ==> hit.Some?)
            && (forall d :: InL1(l1, serial, d, now) <==> L1Serves(hit, now) && hit.value.device == d)
  {
    LookupKeys(l1, serial);
    forall e | e in l1 && e.0 == serial ensures Lookup(l1, serial) == Some(e.1) {
      var i :| 0 <= i < |l1| && l1[i] == e;
      assert (serial, Lookup(l1, serial).value) in l1;
      var j :| 0 <= j < |l1| && l1[j] == (serial, Lookup(l1, serial).value);
    }
  }

  lemma L2Holds(l2: L2, serial: string, answers: Answers, options: Options, now: int)
    ensures forall d :: InL2(l2, serial, d, answers, options, now) <==>
                        L2Get(l2, serial, options, answers.l2Read, now) == Some(d)
  {
  }

  lemma RegistryHolds(hint: Option<string>, answers: Answers, options: Options)
    ensures forall d :: InRegistry(d, hint, answers, options) <==> FromRegistry(hint, answers, options) == Some(d)
  {
  }

  ghost predicate MayConnect(d: Device) { d.status == Active || d.status == Unpaired }

  // What a resolve answers, and what it leaves in the caches, for every place where
  // it may find the device: the tenant is asked about, and a grant made, at the
  // registry alone; the rungs passed on the way down are filled on the way up, and
  // by the registry with active devices only.
  ghost predicate ResolvedFrom(r: Resolved, l1: L1, l2: L2, serial: string, answers: Answers, options: Options,
                               now: int, source: Source)
  {
    match source
    case FromL1(d) =>
      && r.outcome == Ok(d) && r.grant == None && r.l2 == l2
      && Lookup(r.l1, serial) == Lookup(l1, serial)
    case FromL2(d) =>
      && r.outcome == (if MayConnect(d) then Ok(d) else Rejected(Disabled)) && r.grant == None && r.l2 == l2
      && Lookup(r.l1, serial) == Some(L1Entry(d, now + options.l1TtlMs))
    case FromL3(d) =>
      var granted := answers.tenantActive == Some(true);
      var caches := granted && d.status == Active;
      && r.outcome == (if answers.tenantActive == None then Threw
                       else if !granted then Rejected(TenantSuspended)
                       else if MayConnect(d) then Ok(d) else Rejected(Disabled))
      && r.grant == (if granted then Some(Grant(serial, d, now)) else None)
      && r.l2 == (if caches && answers.l2Write then l2[serial := L2Entry(d, now)] else l2)
      && Lookup(r.l1, serial) == (if caches then Some(L1Entry(d, now + options.l1TtlMs)) else Lookup(l1, serial))
    case Nowhere =>
      && r.outcome == Rejected(Unknown) && r.grant == None && r.l2 == l2
      && Lookup(r.l1, serial) == Lookup(l1, serial)
  }

  lemma ResolvesExactly(l1: L1, l2: L2, serial: string, hint: Option<string>, answers: Answers, options: Options,
                        now: int, source: Source)
    requires Sound(l1, L1_MAX_ENTRIES) && Finds(l1, l2, serial, hint, answers, options, now, source)
    ensures ResolvedFrom(Resolve(l1, l2, serial, hint, answers, options, now), l1, l2, serial, answers, options, now,
                         source)
  {
    var one := FindsOne(l1, l2, serial, hint, answers, options, now);
    assert source == one;
    RefreshKeeps(l1, serial);
    hide Finds, L1Serves, L2Get, FromRegistry, L1Put, Refreshed, Sound;
    if source.FromL2? {
      PutFound(Refreshed(l1, serial), serial, source.device, options, now);
    } else if source.FromL3? {
      hide ResolveL3, ResolvedFrom;
      L3Exactly(Refreshed(l1, serial), l2, serial, hint, answers, options, now, source.device);
      SameLookup(Resolve(l1, l2, serial, hint, answers, options, now), Refreshed(l1, serial), l1, l2, serial, answers,
                 options, now, source);
    }
  }

  lemma L3Exactly(l1: L1, l2: L2, serial: string, hint: Option<string>, answers: Answers, options: Options, now: int,
                  d: Device)
    requires Sound(l1, L1_MAX_ENTRIES) && FromRegistry(hint, answers, options) == Some(d)
    ensures ResolvedFrom(ResolveL3(l1, l2, serial, hint, answers, options, now), l1, l2, serial, answers, options, now,
                         FromL3(d))
  {
    PutFound(l1, serial, d, options, now);
    hide FromRegistry, L1Put, Sound;
  }

  lemma SameLookup(r: Resolved, one: L1, two: L1, l2: L2, serial: string, answers: Answers, options: Options, now: int,
                   source: Source)
    requires ResolvedFrom(r, one, l2, serial, answers, options, now, source)
    requires Lookup(one, serial) == Lookup(two, serial)
    ensures ResolvedFrom(r, two, l2, serial, answers, options, now, source)
  {
  }

  lemma PutFound(l1: L1, serial: string, d: Device, options: Options, now: int)
    requires Sound(l1, L1_MAX_ENTRIES)
    ensures Lookup(L1Put(l1, serial, d, options, now), serial) == Some(L1Entry(d, now + options.l1TtlMs))
  {
    SetSound(l1, L1_MAX_ENTRIES, serial, L1Entry(d, now + options.l1TtlMs));
  }

  // Below ten thousand entries, another device cached costs none its place.
  lemma PutSpares(l1: L1, serial: string, d: Device, options: Options, now: int, other: string)
    requires Sound(l1, L1_MAX_ENTRIES) && |l1| < 10_000 && other != serial
    ensures Lookup(L1Put(l1, serial, d, options, now), other) == Lookup(l1, other)
  {
    var rest, e := Remove(l1, serial), L1Entry(d, now + options.l1TtlMs);
    RemoveKeys(l1, serial);
    LookupRemoved(l1, serial, other);
    LookupKeys(rest, other);
    LookupSplit(rest, [(serial, e)], other);
    assert Lookup([(serial, e)], other) == Lookup([(serial, e)][1..], other) == None;
  }

  lemma RefreshKeeps(l1: L1, serial: string)
    requires Sound(l1, L1_MAX_ENTRIES)
    ensures Lookup(Refreshed(l1, serial), serial) == Lookup(l1, serial) && Sound(Refreshed(l1, serial), L1_MAX_ENTRIES)
  {
    GetSound(l1, L1_MAX_ENTRIES, serial);
    if Lookup(l1, serial).Some? {
      var rest := Remove(l1, serial);
      RemoveKeys(l1, serial);
      LookupSplit(rest, [(serial, Lookup(l1, serial).value)], serial);
    }
  }

  // So a device that is found is accepted just when it may connect, and where the
  // registry had to be asked its tenant is active.
  lemma AcceptsExactly(l1: L1, l2: L2, serial: string, hint: Option<string>, answers: Answers, options: Options,
                       now: int, d: Device)
    requires Sound(l1, L1_MAX_ENTRIES)
    ensures Resolve(l1, l2, serial, hint, answers, options, now).outcome == Ok(d) <==>
            || InL1(l1, serial, d, now)
            || ((forall other :: !InL1(l1, serial, other, now)) && MayConnect(d)
                && (|| InL2(l2, serial, d, answers, options, now)
                    || ((forall other :: !InL2(l2, serial, other, answers, options, now))
                        && InRegistry(d, hint, answers, options) && answers.tenantActive == Some(true))))
  {
    var source := FindsOne(l1, l2, serial, hint, answers, options, now);
    assert Finds(l1, l2, serial, hint, answers, options, now, source);
    assert forall other :: Finds(l1, l2, serial, hint, answers, options, now, other) ==> other == source;
    ResolvesExactly(l1, l2, serial, hint, answers, options, now, source);
    L1Holds(l1, serial, now);
    L2Holds(l2, serial, answers, options, now);
    RegistryHolds(hint, answers, options);
    hide InL1, InL2, InRegistry, Resolve, L2Get, FromRegistry, Sound;
  }

  // And once cached it is served for the L1 TTL, whatever has become of Redis and
  // the registry.
  lemma ServedAgain(l1: L1, l2: L2, serial: string, hint: Option<string>, answers: Answers, options: Options, now: int,
                    d: Device, l2': L2, hint': Option<string>, answers': Answers, later: int)
    requires Sound(l1, L1_MAX_ENTRIES) && d.status == Active && now <= later < now + options.l1TtlMs
    requires Resolve(l1, l2, serial, hint, answers, options, now).outcome == Ok(d)
    requires forall other :: !InL1(l1, serial, other, now)
    ensures var r := Resolve(l1, l2, serial, hint, answers, options, now);
            Resolve(r.l1, l2', serial, hint', answers', options, later).outcome == Ok(d)
  {
    var source := FindsOne(l1, l2, serial, hint, answers, options, now);
    assert Finds(l1, l2, serial, hint, answers, options, now, source);
    ResolvesExactly(l1, l2, serial, hint, answers, options, now, source);
    hide InL1, InL2, InRegistry, ResolveL2, Refreshed, Sound;
  }

  // ----- all the pods of a deployment -----

  datatype Op =
    | DoResolve(pod: nat, serial: string, hint: Option<string>, answers: Answers)
    | DoInvalidate(pod: nat, serial: string, deleted: bool)

  datatype Event = Event(op: Op, now: int)

  // grants is the history of what the registry has granted, to any pod.
  datatype World = World(l1: map<nat, L1>, l2: L2, grants: set<Grant>)

  function Pod(w: World, pod: nat): L1 { if pod in w.l1 then w.l1[pod] else [] }

  function ResolveOn(w: World, op: Op, options: Options, now: int): Resolved
    requires op.DoResolve?
  {
    Resolve(Pod(w, op.pod), w.l2, op.serial, op.hint, op.answers, options, now)
  }

  function Apply(w: World, e: Event, options: Options): World {
    match e.op
    case DoResolve(pod, _, _, _) =>
      var r := ResolveOn(w, e.op, options, e.now);
      World(w.l1[pod := r.l1], r.l2, w.grants + (if r.grant.Some? then {r.grant.value} else {}))
    case DoInvalidate(pod, serial, deleted) =>
      World(w.l1[pod := Remove(Pod(w, pod), serial)], if deleted then w.l2 - {serial} else w.l2, w.grants)
  }

  function Run(events: seq<Event>, n: nat, options: Options): World
    requires n <= |events|
  {
    if n == 0 then World(map[], map[], {}) else Apply(Run(events, n - 1, options), events[n - 1], options)
  }

  ghost predicate ClockRuns(events: seq<Event>) {
    forall i, j :: 0 <= i < j < |events| ==> events[i].now <= events[j].now
  }

  // ----- staleness -----

  function Patience(options: Options): nat { options.l1TtlMs + 1000 * options.l2TtlSeconds }

  // The registry granted the device for the serial, at or before now, and at
  // least until deadline it is fresh enough.
  ghost predicate Backed(grants: set<Grant>, serial: string, device: Device, deadline: int, now: int, options: Options)
  {
    exists g :: g in grants && g.serial == serial && g.device == device
                && g.at <= now && deadline <= g.at + Patience(options)
  }

  ghost predicate L1Backed(l1: L1, grants: set<Grant>, now: int, options: Options) {
    forall e :: e in l1 ==>
      e.1.device.status.Active? && Backed(grants, e.0, e.1.device, e.1.expiresAt, now, options)
  }

  ghost predicate L2Backed(l2: L2, grants: set<Grant>, now: int) {
    forall serial :: serial in l2 ==>
      l2[serial].device.status.Active? && l2[serial].setAt <= now
      && Grant(serial, l2[serial].device, l2[serial].setAt) in grants
  }

  // Both tiers hold active devices only, each granted not too long ago.
  ghost predicate Fresh(w: World, now: int, options: Options) {
    && (forall pod :: pod in w.l1 ==> L1Backed(w.l1[pod], w.grants, now, options))
    && L2Backed(w.l2, w.grants, now)
  }

  lemma L1Later(l1: L1, grants: set<Grant>, now: int, more: set<Grant>, later: int, options: Options)
    requires L1Backed(l1, grants, now, options) && grants <= more && now <= later
    ensures L1Backed(l1, more, later, options)
  {
    forall e | e in l1 ensures Backed(more, e.0, e.1.device, e.1.expiresAt, later, options) {
      assert Backed(grants, e.0, e.1.device, e.1.expiresAt, now, options);
    }
  }

  lemma PutBacked(l1: L1, grants: set<Grant>, serial: string, device: Device, options: Options, now: int)
    requires L1Backed(l1, grants, now, options) && Sound(l1, L1_MAX_ENTRIES)
    requires device.status.Active? && Backed(grants, serial, device, now + options.l1TtlMs, now, options)
    ensures L1Backed(L1Put(l1, serial, device, options, now), grants, now, options)
    ensures Sound(L1Put(l1, serial, device, options, now), L1_MAX_ENTRIES)
  {
    hide Backed;
    SetSound(l1, L1_MAX_ENTRIES, serial, L1Entry(device, now + options.l1TtlMs));
  }

  // What a resolve gives and keeps, wherever it ends on the ladder.
  ghost predicate ResolvedWell(r: Resolved, serial: string, grants: set<Grant>, options: Options, now: int) {
    var all := grants + (if r.grant.Some? then {r.grant.value} else {});
    && L1Backed(r.l1, all, now, options) && Sound(r.l1, L1_MAX_ENTRIES) && L2Backed(r.l2, all, now)
    && (r.outcome.Ok? ==> MayConnect(r.outcome.device) && Backed(all, serial, r.outcome.device, now, now, options))
  }

  lemma L3ResolvesWell(l1: L1, l2: L2, grants: set<Grant>, serial: string, hint: Option<string>, answers: Answers,
                       options: Options, now: int)
    requires L1Backed(l1, grants, now, options) && Sound(l1, L1_MAX_ENTRIES) && L2Backed(l2, grants, now)
    ensures ResolvedWell(ResolveL3(l1, l2, serial, hint, answers, options, now), serial, grants, options, now)
  {
    hide L1Backed, L2Backed, Backed, Sound, L1Put, FromRegistry;
    var r := ResolveL3(l1, l2, serial, hint, answers, options, now);
    if r.grant.Some? {
      var device, all := r.grant.value.device, grants + {r.grant.value};
      L1Later(l1, grants, now, all, now, options);
      L2Later(l2, grants, now, all);
      GrantBacks(all, r.grant.value, options);
      if device.status.Active? {
        PutBacked(l1, all, serial, device, options, now);
        L2PutBacked(l2, all, serial, device, now);
      }
    } else {
      assert grants + {} == grants;
    }
  }

  lemma L2Later(l2: L2, grants: set<Grant>, now: int, more: set<Grant>)
    requires L2Backed(l2, grants, now) && grants <= more
    ensures L2Backed(l2, more, now)
  {
  }

  lemma L2PutBacked(l2: L2, grants: set<Grant>, serial: string, device: Device, now: int)
    requires L2Backed(l2, grants, now) && device.status.Active? && Grant(serial, device, now) in grants
    ensures L2Backed(l2[serial := L2Entry(device, now)], grants, now)
  {
  }

  lemma GrantBacks(grants: set<Grant>, g: Grant, options: Options)
    requires g in grants
    ensures Backed(grants, g.serial, g.device, g.at + options.l1TtlMs, g.at, options)
    ensures Backed(grants, g.serial, g.device, g.at, g.at, options)
  {
  }

  lemma L2ResolvesWell(l1: L1, l2: L2, grants: set<Grant>, serial: string, hint: Option<string>, answers: Answers,
                       options: Options, now: int)
    requires L1Backed(l1, grants, now, options) && Sound(l1, L1_MAX_ENTRIES) && L2Backed(l2, grants, now)
    ensures ResolvedWell(ResolveL2(l1, l2, serial, hint, answers, options, now), serial, grants, options, now)
  {
    var hit := L2Get(l2, serial, options, answers.l2Read, now);
    if hit.Some? {
      assert Grant(serial, hit.value, l2[serial].setAt) in grants;
      assert Backed(grants, serial, hit.value, now + options.l1TtlMs, now, options);
      assert Backed(grants, serial, hit.value, now, now, options);
      PutBacked(l1, grants, serial, hit.value, options, now);
      hide L1Backed, L1Put, Backed;
      assert grants + {} == grants;
    } else {
      hide ResolvedWell, ResolveL3;
      L3ResolvesWell(l1, l2, grants, serial, hint, answers, options, now);
    }
  }

  lemma ResolvesWell(l1: L1, l2: L2, grants: set<Grant>, serial: string, hint: Option<string>, answers: Answers,
                     options: Options, now: int)
    requires L1Backed(l1, grants, now, options) && Sound(l1, L1_MAX_ENTRIES) && L2Backed(l2, grants, now)
    ensures ResolvedWell(Resolve(l1, l2, serial, hint, answers, options, now), serial, grants, options, now)
  {
    var hit := Lookup(l1, serial);
    LookupKeys(l1, serial);
    GetSound(l1, L1_MAX_ENTRIES, serial);
    if L1Serves(hit, now) {
      assert (serial, hit.value) in l1;
      assert Backed(grants, serial, hit.value.device, now, now, options);
      hide Backed;
      assert grants + {} == grants;
    } else {
      hide ResolvedWell, ResolveL2, Backed;
      L2ResolvesWell(Refreshed(l1, serial), l2, grants, serial, hint, answers, options, now);
    }
  }

  ghost predicate Sized(w: World) {
    forall pod :: pod in w.l1 ==> Sound(w.l1[pod], L1_MAX_ENTRIES)
  }

  lemma PodIs(w: World, pod: nat, now: int, options: Options)
    requires Fresh(w, now, options) && Sized(w)
    ensures L1Backed(Pod(w, pod), w.grants, now, options) && Sound(Pod(w, pod), L1_MAX_ENTRIES)
    ensures L2Backed(w.l2, w.grants, now)
  {
  }

  lemma FreshLater(w: World, now: int, later: int, options: Options)
    requires Fresh(w, now, options) && now <= later
    ensures Fresh(w, later, options)
  {
    forall pod | pod in w.l1 ensures L1Backed(w.l1[pod], w.grants, later, options) {
      L1Later(w.l1[pod], w.grants, now, w.grants, later, options);
    }
  }

  lemma ApplyKeepsFresh(w: World, e: Event, options: Options)
    requires Fresh(w, e.now, options) && Sized(w)
    ensures Fresh(Apply(w, e, options), e.now, options) && Sized(Apply(w, e, options))
  {
    var q := Apply(w, e, options);
    PodIs(w, e.op.pod, e.now, options);
    match e.op
    case DoResolve(pod, serial, hint, answers) =>
      hide Resolve, Backed, L1Backed, Sound;
      ResolvesWell(Pod(w, pod), w.l2, w.grants, serial, hint, answers, options, e.now);
      forall other | other in q.l1 ensures L1Backed(q.l1[other], q.grants, e.now, options) {
        if other != pod {
          L1Later(w.l1[other], w.grants, e.now, q.grants, e.now, options);
        }
      }
    case DoInvalidate(pod, serial, deleted) =>
      hide Backed;
      DeleteSound(Pod(w, pod), L1_MAX_ENTRIES, serial);
  }

  lemma {:induction false} RunFresh(events: seq<Event>, n: nat, options: Options, now: int)
    requires ClockRuns(events) && n <= |events| && (n > 0 ==> events[n - 1].now <= now)
    ensures Fresh(Run(events, n, options), now, options) && Sized(Run(events, n, options))
  {
    if n > 0 {
      hide Fresh, Sized, Apply;
      RunFresh(events, n - 1, options, events[n - 1].now);
      ApplyKeepsFresh(Run(events, n - 1, options), events[n - 1], options);
      FreshLater(Run(events, n, options), events[n - 1].now, now, options);
    }
  }

  // In every run, on every pod: a device is accepted only if it is enabled and
  // the registry has granted it for that serial, its tenant active, at most the
  // L1 TTL and the L2 TTL together ago.
  lemma StalenessBound(events: seq<Event>, n: nat, options: Options) returns (g: Grant)
    requires ClockRuns(events) && n < |events| && events[n].op.DoResolve?
    requires ResolveOn(Run(events, n, options), events[n].op, options, events[n].now).outcome.Ok?
    ensures var device := ResolveOn(Run(events, n, options), events[n].op, options, events[n].now).outcome.device;
            && MayConnect(device) && g in Run(events, n + 1, options).grants
            && g.serial == events[n].op.serial && g.device == device
            && 0 <= events[n].now - g.at <= Patience(options)
  {
    var w, op, now := Run(events, n, options), events[n].op, events[n].now;
    hide Resolve, Fresh, Sized, Sound, L1Backed, L2Backed;
    RunFresh(events, n, options, now);
    PodIs(w, op.pod, now, options);
    ResolvesWell(Pod(w, op.pod), w.l2, w.grants, op.serial, op.hint, op.answers, options, now);
    var r := ResolveOn(w, op, options, now);
    assert Run(events, n + 1, options) == Apply(w, events[n], options);
    g :| g in w.grants + (if r.grant.Some? then {r.grant.value} else {})
         && g.serial == op.serial && g.device == r.outcome.device && g.at <= now && now <= g.at + Patience(options);
  }

  // In every run, both tiers hold active devices only, and no L1 grows beyond its
  // size.
  lemma OnlyActiveCached(events: seq<Event>, n: nat, options: Options)
    requires ClockRuns(events) && n <= |events|
    ensures var w := Run(events, n, options);
            && (forall pod, e :: pod in w.l1 && e in w.l1[pod] ==> e.1.device.status.Active?)
            && (forall serial :: serial in w.l2 ==> w.l2[serial].device.status.Active?)
            && (forall pod :: pod in w.l1 ==> |w.l1[pod]| <= 10_000)
  {
    RunFresh(events, n, options, if n > 0 then events[n - 1].now else 0);
    hide Backed;
  }

  // The bound is met to within two milliseconds: a device the registry suspends
  // right after granting it is accepted for that long, through the L2 entry of
  // one pod and the L1 entry another pod makes of it at the last moment.
  lemma BoundReached(device: Device, serial: string, options: Options) returns (events: seq<Event>)
    requires device.status.Active? && options.l1TtlMs > 0 && options.l2TtlSeconds > 0
    ensures |events| == 3 && ClockRuns(events) && events[2].op.DoResolve?
    ensures events[2].now - events[0].now == Patience(options) - 2
    ensures events[2].op.answers.resolved == Some(device.(status := Suspended))
    ensures ResolveOn(Run(events, 2, options), events[2].op, options, events[2].now).outcome == Ok(device)
    ensures Run(events, 3, options).grants == {Grant(serial, device, events[0].now)}
  {
    var yes := Answers(true, true, Some(device), None, Some(true));
    var no := Answers(true, true, Some(device.(status := Suspended)), None, Some(true));
    var t1, t2 := 1000 * options.l2TtlSeconds - 1, Patience(options) - 2;
    events := [Event(DoResolve(0, serial, None, yes), 0), Event(DoResolve(1, serial, None, no), t1),
               Event(DoResolve(1, serial, None, no), t2)];
    var w0 := Run(events, 0, options);
    var w1 := Apply(w0, events[0], options);
    assert Run(events, 1, options) == w1;
    assert w1.l2 == map[serial := L2Entry(device, 0)] && w1.grants == {Grant(serial, device, 0)};
    var w2 := Apply(w1, events[1], options);
    assert Run(events, 2, options) == w2;
    assert Pod(w1, 1) == [];
    assert Pod(w2, 1) == L1Put([], serial, device, options, t1) == [(serial, L1Entry(device, t1 + options.l1TtlMs))];
    assert w2.grants == w1.grants;
    assert Run(events, 3, options) == Apply(w2, events[2], options);
  }

  // A resolve fails, instead of refusing, just when it has come down to the
  // registry, has a device, and the tenant check fails.
  lemma ThrowsExactly(l1: L1, l2: L2, serial: string, hint: Option<string>, answers: Answers, options: Options,
                      now: int)
    ensures Resolve(l1, l2, serial, hint, answers, options, now).outcome.Threw? <==>
            && !L1Serves(Lookup(l1, serial), now) && L2Get(l2, serial, options, answers.l2Read, now).None?
            && FromRegistry(hint, answers, options).Some? && answers.tenantActive.None?
  {
  }

  // In every run, what the next event does: a resolve is a resolve on its pod and the
  // Redis, with its grant on record; an invalidation takes the serial out of its pod,
  // and where it reaches Redis out of that, and nothing else.
  ghost predicate Happened(w: World, q: World, e: Event, options: Options) {
    && (forall other :: other != e.op.pod ==> Pod(q, other) == Pod(w, other))
    && match e.op
       case DoResolve(pod, serial, hint, answers) =>
         var r := Resolve(Pod(w, pod), w.l2, serial, hint, answers, options, e.now);
         && Pod(q, pod) == r.l1 && q.l2 == r.l2
         && q.grants == if r.grant == None then w.grants else w.grants + {r.grant.value}
       case DoInvalidate(pod, serial, deleted) =>
         && (forall k :: Lookup(Pod(q, pod), k) == if k == serial then None else Lookup(Pod(w, pod), k))
         && q.l2.Keys == (if deleted then w.l2.Keys - {serial} else w.l2.Keys)
         && (forall k :: k in q.l2 ==> q.l2[k] == w.l2[k]) && q.grants == w.grants
  }

  lemma ApplyExactly(w: World, e: Event, options: Options)
    requires Sized(w)
    ensures Happened(w, Apply(w, e, options), e, options)
  {
    hide Resolve;
    if e.op.DoInvalidate? {
      assert Sound(Pod(w, e.op.pod), L1_MAX_ENTRIES);
      forall k
        ensures Lookup(Remove(Pod(w, e.op.pod), e.op.serial), k)
                == if k == e.op.serial then None else Lookup(Pod(w, e.op.pod), k)
      {
        LookupRemoved(Pod(w, e.op.pod), e.op.serial, k);
      }
    }
  }

  lemma EventExactly(events: seq<Event>, n: nat, options: Options)
    requires ClockRuns(events) && n < |events|
    ensures Happened(Run(events, n, options), Run(events, n + 1, options), events[n], options)
  {
    hide Happened, Apply, Fresh, Sized;
    RunFresh(events, n, options, events[n].now);
    ApplyExactly(Run(events, n, options), events[n], options);
  }

  // Once an invalidation has reached both tiers, the pod accepts the serial again
  // only by a grant made there and then.
  lemma InvalidateForces(w: World, pod: nat, serial: string, hint: Option<string>, answers: Answers, options: Options,
                         then': int, now: int)
    requires Sized(w)
    ensures var r := ResolveOn(Apply(w, Event(DoInvalidate(pod, serial, true), then'), options),
                               DoResolve(pod, serial, hint, answers), options, now);
            r.outcome.Ok? ==> r.grant == Some(Grant(serial, r.outcome.device, now))
  {
    assert Sound(Pod(w, pod), L1_MAX_ENTRIES);
    DeleteSound(Pod(w, pod), L1_MAX_ENTRIES, serial);
  }

  // ----- the resolver of a pod -----

  // The Redis the pods share.
  class RedisStore {
    var entries: L2

    constructor ()
      ensures entries == map[]
    {
      entries := map[];
    }
  }

  class Resolver {
    const options: Options
    const l1: Cache<string, L1Entry>
    const redis: RedisStore

    constructor (options: Options, redis: RedisStore)
      ensures this.options == options && this.redis == redis
      ensures fresh(l1) && l1.entries == [] && l1.max == L1_MAX_ENTRIES
    {
      this.options, this.redis := options, redis;
      l1 := new Cache(L1_MAX_ENTRIES);
    }

    ghost predicate Valid()
      reads l1
    {
      l1.max == L1_MAX_ENTRIES && Sound(l1.entries, L1_MAX_ENTRIES)
    }

    method TryEnroll(hint: Option<string>, answers: Answers) returns (found: Option<Device>)
      ensures answers.resolved.None? && options.autoEnroll ==> found == FromRegistry(hint, answers, options)
    {
      if hint.None? || hint.value !in ENROLLABLE_PROTOCOLS {
        return None;
      }
      found := answers.enrolled;
    }

    method ResolveDevice(serial: string, hint: Option<string>, answers: Answers, now: int)
      returns (outcome: Outcome, ghost grant: Option<Grant>)
      requires Valid()
      modifies l1, redis
      ensures Valid()
      ensures var r := Resolve(old(l1.entries), old(redis.entries), serial, hint, answers, options, now);
              l1.entries == r.l1 && redis.entries == r.l2 && outcome == r.outcome && grant == r.grant
    {
      hide Refreshed, Stored, FromRegistry;
      grant := None;
      GetSound(l1.entries, L1_MAX_ENTRIES, serial);
      var l1Hit := l1.Get(serial);
      if l1Hit.Some? && l1Hit.value.expiresAt > now && l1Hit.value.device.status.Active? {
        return Ok(l1Hit.value.device), grant;
      }
      var l2Hit := L2Get(redis.entries, serial, options, answers.l2Read, now);
      if l2Hit.Some? {
        PutInL1(serial, l2Hit.value, now);
        return CheckEnabled(l2Hit.value), grant;
      }
      outcome, grant := AskRegistry(serial, hint, answers, now);
    }

    method PutInL1(serial: string, device: Device, now: int)
      requires Valid()
      modifies l1
      ensures Valid() && l1.entries == L1Put(old(l1.entries), serial, device, options, now)
    {
      SetSound(l1.entries, L1_MAX_ENTRIES, serial, L1Entry(device, now + options.l1TtlMs));
      l1.Set(serial, L1Entry(device, now + options.l1TtlMs));
    }

    method AskRegistry(serial: string, hint: Option<string>, answers: Answers, now: int)
      returns (outcome: Outcome, ghost grant: Option<Grant>)
      requires Valid()
      modifies l1, redis
      ensures Valid()
      ensures var r := ResolveL3(old(l1.entries), old(redis.entries), serial, hint, answers, options, now);
              l1.entries == r.l1 && redis.entries == r.l2 && outcome == r.outcome && grant == r.grant
    {
      hide L1Put;
      grant := None;
      var resolution := answers.resolved;
      if resolution.None? && options.autoEnroll {
        resolution := TryEnroll(hint, answers);
      }
      if resolution.None? {
        return Rejected(Unknown), grant;
      }
      var device := resolution.value;
      if answers.tenantActive.None? {
        return Threw, grant;
      }
      if !answers.tenantActive.value {
        return Rejected(TenantSuspended), grant;
      }
      grant := Some(Grant(serial, device, now));
      if device.status.Active? {
        PutInL1(serial, device, now);
        if answers.l2Write {
          redis.entries := redis.entries[serial := L2Entry(device, now)];
        }
      }
      outcome := CheckEnabled(device);
    }

    method Invalidate(serial: string, deleted: bool)
      requires Valid()
      modifies l1, redis
      ensures Valid()
      ensures l1.entries == Remove(old(l1.entries), serial)
      ensures redis.entries == if deleted then old(redis.entries) - {serial} else old(redis.entries)
    {
      DeleteSound(l1.entries, L1_MAX_ENTRIES, serial);
      l1.Delete(serial);
      if deleted {
        redis.entries := redis.entries - {serial};
      }
    }
  }
}
