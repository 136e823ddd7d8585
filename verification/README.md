# Fleet platform: verified models of the core protocols

This project models, in Dafny, the parts of the fleet-tracking platform whose
behaviour is hardest to see by reading one function: a computational-geometry
helper, a binary stream parser fed by TCP chunks, two wire codecs, a debounce
state machine behind a prefilter and elided writes, the session tier of the
device gateway, its auth caches, the position pipeline, the refresh-token family
and the selection among held commands.

Each imperative part of the source is a class or a method with loops whose
`ensures` ties it to a specification function; the properties the platform relies
on are lemmas about those functions, most of them over every run. `dafny verify
dfyconfig.toml` checks everything.

| file | what it models |
|---|---|
| `MonotoneChain.dfy`, `ProjectArea.dfy` | convex hull and working area of a fleet, over exact numbers |
| `Bytes.dfy`, `MediaPacket.dfy`, `VideoServer.dfy` | the MDVR media packet (section 3.16 of the Meitrack MDVR GPRS Protocol V2.0) and the resynchronising socket handler |
| `Nal.dfy` | Annex-B splitting (Annex B of ITU-T H.264) and access-unit assembly |
| `GprsFrame.dfy` | the Meitrack GPRS text frame (section 1.1 of the same protocol) |
| `GeofenceFsm.dfy`, `GeofenceEvaluator.dfy` | the geofence debounce machine and the evaluator around it |
| `DeviceSession.dfy`, `SessionRegistry.dfy`, `SessionSweep.dfy`, `SessionManager.dfy` | the session aggregate; the registry as a value; one liveness sweep; the manager object with its maps of session objects |
| `PacketDispatcher.dfy` | the fail-closed publish pipeline of one session |
| `LruCache.dfy`, `AuthResolver.dfy` | the LRU cache and the three-tier auth resolver, for all pods that share one Redis |
| `PositionPipeline.dfy` | dedupe window, out-of-order gate and live view |
| `RefreshTokenFamily.dfy` | token rotation and theft detection |
| `HeldCommands.dfy` | commands held for an offline device and what is sent of them |
| `Optional.dfy` | a value that may be missing |

What is outside (Redis, Kafka, the registry, clocks, the database, the plausibility
filter) enters as parameters that answer each call, so every lemma holds for all of
its behaviours. Device, tenant and session ids are taken to be non-empty strings, as
the registry issues them.

Each public operation of the session tier is one atomic step, and so is
authenticating a session together with registering it. With other work scheduled at
the `await` between lines 189 and 190 of
`apps/device-gateway-service/src/application/session-manager.ts` two logins for one
device could both pass the eviction, and the one-session invariant is not claimed
for that.

## What the code does where its documentation says more

- A dispatch that ends in `AUTH_FAILED` reports `published: 0` even when messages
  ahead of the refused one went to Kafka; `PacketDispatcher.RefusalReports` says
  exactly when, and that it takes a LOGIN.
- A packet's records are to be acknowledged once stored, so that a device keeps what
  was not published; without a broker nothing is handed over and they are acknowledged
  all the same (`PacketDispatcher.AcksExactly`, `PacketDispatcher.NoBrokerAcks`).
- Alerts are said to be filtered on the far path as they are for a candidate; a far
  fence's exit is announced whatever its settings (`GeofenceEvaluator.FarExitExactly`).
- The identity is said to be bound to every message; device and tenant are, but every
  message, of any kind, keeps its own serial number where it has one
  (`PacketDispatcher.SerialExactly`, `PacketDispatcher.SerialOverLife`).
- `AuthResolver.resolve` is documented never to throw; it does when the tenant check
  fails (`AuthResolver.ThrowsExactly`), and then a dispatch is left by exception in the
  middle of its packet (`PacketDispatcher.StopEnds`).
- An older packet is documented never to regress the latest-position view; it does
  when the gate is blind (the trip engine fails before it, or the previous position has
  expired or cannot be read) or knows an older previous position than the one shown,
  since an earlier write of it was lost or an expiry let an older one in
  (`PositionPipeline.RegressesExactly`, `PositionPipeline.ExpiryRegresses`,
  `PositionPipeline.LostWriteRegresses`).
- Opening and closing a camera is meant to keep the newest intent; it keeps the one
  with the latest time, and of equal times the one under the key first held last. So
  holds within one millisecond and a clock that steps back can lose the newest
  (`HeldCommands.LastIntentIsSent`, `HeldCommands.TieLosesIntent`,
  `HeldCommands.ClockLosesIntent`).
- Reuse of a consumed token is detected unless its hash is issued again
  (`RefreshTokenFamily.ReuseUnnoticed`, `RefreshTokenFamily.ReissueUnnoticed`).

## Model

| member | source | states |
|---|---|---|
| MonotoneChain.SortUniqueSorts | apps/gps-engine-service/src/domain/spatial-analytics.ts:103-105 | deduplicating and sorting keeps the points as a set and puts them in strictly ascending order |
| MonotoneChain.Transitive | apps/gps-engine-service/src/domain/spatial-analytics.ts:107-108 | over directions within one half plane the cross product is transitive, strictly where both steps are strict |
| MonotoneChain.ExtendSupports | apps/gps-engine-service/src/domain/spatial-analytics.ts:110-117 | popping and pushing for the next point of a sweep gives a chain that again supports every point seen |
| MonotoneChain.ChainSupports | apps/gps-engine-service/src/domain/spatial-analytics.ts:118-121 | over points in sweep order the chain runs from the first to the last, consists of input points, turns strictly left everywhere, and has every point on or left of every edge |
| MonotoneChain.RingEncloses | apps/gps-engine-service/src/domain/spatial-analytics.ts:122-124 | no input point lies right of an edge of the closed ring |
| MonotoneChain.RingConvex | apps/gps-engine-service/src/domain/spatial-analytics.ts:122-124 | unless all points are on one line every corner of the ring, the two joints included, is a strict left turn |
| MonotoneChain.RingFlat | apps/gps-engine-service/src/domain/spatial-analytics.ts:122-124 | the ring has two points exactly when all input is on one line |
| MonotoneChain.HullCorrect | apps/gps-engine-service/src/domain/spatial-analytics.ts:102-125 | for every finite list of points, repeated or in any order, the result is a hull of them: input points only, none twice, rising from the first point in sort order to the last and falling back, enclosing all, strictly convex unless all are on one line |
| MonotoneChain.FlatHull | apps/gps-engine-service/src/domain/spatial-analytics.ts:102-125 | a hull of points on one line is their two ends, or their one point |
| MonotoneChain.HullUnique | apps/gps-engine-service/src/domain/spatial-analytics.ts:102-125 | and no other ring of points is one, so that says all there is to say of the result |
| MonotoneChain.BuildChain | apps/gps-engine-service/src/domain/spatial-analytics.ts:110-121 | the pop-and-push loop over an array computes the chain |
| MonotoneChain.ConvexHull | apps/gps-engine-service/src/domain/spatial-analytics.ts:102-125 | the method returns a hull of its input, and so, there being one only, the hull |
| ProjectArea.SortSorts | apps/gps-engine-service/src/domain/spatial-analytics.ts:170 | sorting by weight is a descending permutation |
| ProjectArea.SortStable | apps/gps-engine-service/src/domain/spatial-analytics.ts:170 | cells of equal weight keep their order |
| ProjectArea.HeaviestOutweigh | apps/gps-engine-service/src/domain/spatial-analytics.ts:170-177 | no choice of at most k cells outweighs the k heaviest (an exchange argument) |
| ProjectArea.KeepsFewest | apps/gps-engine-service/src/domain/spatial-analytics.ts:163-177 | the cells kept reach the share of all activity, and no set of fewer cells, however chosen, does |
| ProjectArea.KeepsFewestExactly | apps/gps-engine-service/src/domain/spatial-analytics.ts:163-177 | that holds exactly for a share in (0, 1] |
| ProjectArea.Keep | apps/gps-engine-service/src/domain/spatial-analytics.ts:171-177 | the loop stops at the shortest non-empty prefix of the sorted cells that reaches the share, or at all of them |
| ProjectArea.GrowBounds | apps/gps-engine-service/src/domain/spatial-analytics.ts:191-194 | a box grown by a cell is the smallest box around the cells and that one |
| ProjectArea.Wrap | apps/gps-engine-service/src/domain/spatial-analytics.ts:178-195 | the loop returns all cell corners and their smallest bounding box |
| ProjectArea.GridLaw | apps/gps-engine-service/src/domain/spatial-analytics.ts:31-42 | the bounds of a cell hold exactly the points whose latitude and longitude fall to it in whole steps |
| ProjectArea.CoversKept | apps/gps-engine-service/src/domain/spatial-analytics.ts:178-196 | every point of the ground of a kept cell is inside the box and the hull, and every corner of the hull is a grid corner of a kept cell |
| ProjectArea.ProjectArea | apps/gps-engine-service/src/domain/spatial-analytics.ts:163-204 | no area exactly when there is no activity; else the kept prefix, a hull of its corners, its bounding box and its exact share; the kept cells are the fewest that reach the share exactly when that lies in (0, 1], and box and hull cover their ground |
| MediaPacket.AlignedNeverInvalid | packages/meitrack-media-protocol/src/media-packet.ts:158-162 | a buffer that starts with 0x12 is never invalid |
| MediaPacket.ParseExactly | packages/meitrack-media-protocol/src/media-packet.ts:158-203 | every buffer, byte by byte: incomplete, invalid, or a packet whose every field is read off named bytes of the header, nibble by nibble for the IMEI |
| MediaPacket.ParseStable | packages/meitrack-media-protocol/src/media-packet.ts:158-203 | a parsed packet is decided by its own bytes, whatever follows |
| MediaPacket.IncompleteBound | packages/meitrack-media-protocol/src/media-packet.ts:159-181 | an incomplete packet asks for more than there is, and less than a header and 64 KiB |
| MediaPacket.ParseBuilt | packages/meitrack-media-protocol/src/media-packet.ts:158-245 | a built packet, with anything behind it, parses to its fields cut to their widths |
| MediaPacket.ImeiRoundTrip | packages/meitrack-media-protocol/src/media-packet.ts:129-148 | the IMEI survives padding, BCD and normalising exactly when it is fifteen digits, or sixteen not starting with 0 |
| MediaPacket.FieldsRoundTrip | packages/meitrack-media-protocol/src/media-packet.ts:158-245 | all fields come back one by one exactly when all are in range |
| MediaPacket.DecodeBcd | packages/meitrack-media-protocol/src/media-packet.ts:129-137 | the nibble loop decodes the BCD string |
| MediaPacket.FillBcd | packages/meitrack-media-protocol/src/media-packet.ts:226-232 | the in-place loop packs the padded digits, two to a byte |
| MediaPacket.WriteBigEndian | packages/meitrack-media-protocol/src/media-packet.ts:236-243 | writes a big-endian number at an offset and nothing else |
| MediaPacket.BuildMediaPacket | packages/meitrack-media-protocol/src/media-packet.ts:216-245 | filling the header buffer in place builds the wire bytes, or fails for a field the writers reject |
| VideoServer.LostCounts | apps/mdvr-streamer-service/src/video-server.ts:79-85 | if k packets are missing after a number, the wrap-around difference is k modulo 2^16 |
| VideoServer.StepMore | apps/mdvr-streamer-service/src/video-server.ts:46-91 | more data behind a turn of the loop changes nothing of what the turn does, and a turn that would stop for lack of data is redone |
| VideoServer.ChunkIndependence | apps/mdvr-streamer-service/src/video-server.ts:43-92 | however a byte stream is cut into chunks, packets, gaps, binding and residual buffer are those of receiving it at once |
| VideoServer.AnyTwoCuttings | apps/mdvr-streamer-service/src/video-server.ts:43-92 | any two cuttings of one stream have the same outcome |
| VideoServer.DrainSettles | apps/mdvr-streamer-service/src/video-server.ts:46-92 | a drain ends, with less than one packet unread and the log, gaps, binding and sequence state all those of the packets fed |
| VideoServer.RunSettles | apps/mdvr-streamer-service/src/video-server.ts:39-92 | so it is after every data event of every run |
| VideoServer.RunGaps | apps/mdvr-streamer-service/src/video-server.ts:79-85 | in every run the log has one gap for every packet fed that leaves out between 1 and 999 numbers, modulo 2^16, in order, with what was expected, what came and how many were lost |
| VideoServer.StreamRoundTrip | apps/mdvr-streamer-service/src/video-server.ts:46-91 | built packets with 0x12-free junk before, between and after them, in any chunks, are all recovered in order with nothing left over |
| VideoServer.SentFields | packages/meitrack-media-protocol/src/media-packet.ts:216-245 | and field by field, where the fields are in range |
| VideoServer.VideoConnection.Turn | apps/mdvr-streamer-service/src/video-server.ts:47-90 | the loop body on the mutable buffer, sequence number and IMEI is one step |
| VideoServer.VideoConnection.Accept | apps/mdvr-streamer-service/src/video-server.ts:62-90 | a whole packet binds the connection or has it refused, and is then logged, fed and taken off the buffer |
| VideoServer.VideoConnection.OnData | apps/mdvr-streamer-service/src/video-server.ts:43-92 | the data callback is one receive |
| Nal.SplitFree | apps/mdvr-streamer-service/src/nal.ts:48-78 | no unit of any input contains a start code |
| Nal.SplitReassembles | apps/mdvr-streamer-service/src/nal.ts:48-78 | code-free prefix, start codes and units concatenate to the input; only an empty last unit is left out |
| Nal.SplitRoundTrip | apps/mdvr-streamer-service/src/nal.ts:48-78 | units joined with 3- and 4-byte codes come back exactly when none contains a code, none that ends in 00 precedes a 3-byte code, and the last is not empty |
| Nal.SplitNalus | apps/mdvr-streamer-service/src/nal.ts:48-78 | the index loop computes the split |
| Nal.Assembled | apps/mdvr-streamer-service/src/nal.ts:100-124 | the access units of a channel are its packet bodies cut in front of every COMPLETE, all but the open group; other channels do not matter and no byte is lost |
| Nal.AccessUnitAssembler.FeedPacket | apps/mdvr-streamer-service/src/nal.ts:100-124 | feeding a packet updates the per-channel map and flushes as specified |
| GprsFrame.ChecksumIsSum | packages/meitrack-media-protocol/src/gprs-frame.ts:33-37 | the running masked sum is the byte sum modulo 256 |
| GprsFrame.GprsChecksum | packages/meitrack-media-protocol/src/gprs-frame.ts:33-37 | the loop computes it |
| GprsFrame.DecimalRoundTrip | packages/meitrack-media-protocol/src/gprs-frame.ts:56-57 | the printed length is read back |
| GprsFrame.HexRoundTrip | packages/meitrack-media-protocol/src/gprs-frame.ts:94-125 | two upper-case hex digits are read back |
| GprsFrame.ParseIntExactly | packages/meitrack-media-protocol/src/gprs-frame.ts:56-57 | numbers are read as the language does: white space, a sign and a hex prefix are skipped, digits of either case taken up to the first that is none, and a text without one is no number |
| GprsFrame.SealParses | packages/meitrack-media-protocol/src/gprs-frame.ts:43-127 | a sealed comma block, with any bytes behind it, parses to its length, its comma-separated parts and a valid checksum |
| GprsFrame.SealExactly | packages/meitrack-media-protocol/src/gprs-frame.ts:112-127 | the bytes of every frame: flags, data id, the decimal length from comma to end, the block, a star, the byte sum in two upper-case hex digits, CR and LF |
| GprsFrame.NoFrame | packages/meitrack-media-protocol/src/gprs-frame.ts:43-52 | every buffer without two equal flags, or without a comma |
| GprsFrame.FrameExactly | packages/meitrack-media-protocol/src/gprs-frame.ts:43-107 | every buffer with a comma: how its length is read, when it is invalid or incomplete, and, where a frame parses, its bounds and fields cut at the first two commas, its direction and whether its checksum is the byte sum |
| GprsFrame.TextRoundTrip | packages/meitrack-media-protocol/src/gprs-frame.ts:43-146 | a text command or reply comes back whole exactly when data id, IMEI and command hold no comma; the content may hold anything |
| GprsFrame.BinaryRoundTrip | packages/meitrack-media-protocol/src/gprs-frame.ts:185-203 | the same for a binary reply |
| GprsFrame.PrefixVerdict | packages/meitrack-media-protocol/src/gprs-frame.ts:43-65 | what every proper prefix of a frame parses to, the two refusals for long ones and the one for a comma as data id included |
| GprsFrame.ShortFrameWaits | packages/meitrack-media-protocol/src/gprs-frame.ts:43-65 | a proper prefix of a frame up to 65536 bytes waits for more exactly when the data id is no comma or not reached |
| GprsFrame.ParseStable | packages/meitrack-media-protocol/src/gprs-frame.ts:43-107 | a parsed frame is decided by its own bytes |
| GprsFrame.OneByteDetected | packages/meitrack-media-protocol/src/gprs-frame.ts:49-105 | one changed byte between the first comma and the star keeps the framing and makes the checksum invalid |
| GeofenceFsm.AdvanceFacts | apps/gps-engine-service/src/application/geofence-evaluator.ts:150-250 | one step of the machine, state and events, is one step on what it has to know of the observations |
| GeofenceFsm.DebounceMeaning | apps/gps-engine-service/src/application/geofence-evaluator.ts:150-219 | after any history confirmed membership is the value of the latest window of N equal observations, or outside, and a candidate counts the trailing run |
| GeofenceFsm.EventMeaning | apps/gps-engine-service/src/application/geofence-evaluator.ts:150-250 | every event of every run, its time and duration, is decided by the observations alone; a dwell comes at the first contained observation past the threshold |
| GeofenceFsm.DwellExactly | apps/gps-engine-service/src/application/geofence-evaluator.ts:232-250 | within an occupancy an observation has an event exactly where the fence alerts of dwells and its own dwell time, or the default where it has none, has passed since the entry for the first time, no less than a second; the event is the dwell, in whole seconds |
| GeofenceFsm.EventGrammar | apps/gps-engine-service/src/application/geofence-evaluator.ts:150-219 | over m observations enters and exits alternate, starting with an enter, and number at most m / N |
| GeofenceFsm.DwellOncePerOccupancy | apps/gps-engine-service/src/application/geofence-evaluator.ts:232-250 | an occupancy has at most one dwell |
| GeofenceEvaluator.ElisionKeeps | apps/gps-engine-service/src/application/geofence-evaluator.ts:124-126 | a write that is left out loses no state |
| GeofenceEvaluator.ElidesExactly | apps/gps-engine-service/src/application/geofence-evaluator.ts:118-127 | a row is written exactly where its state changes or the fence contains the position, with the time of the position |
| GeofenceEvaluator.EvaluateRefines | apps/gps-engine-service/src/application/geofence-evaluator.ts:104-133 | where the prefilter does not miss the fence, one position leaves the state and the events of an evaluator that steps every active fence; off the candidate path only exits occur |
| GeofenceEvaluator.StoredIsNaive | apps/gps-engine-service/src/application/geofence-evaluator.ts:104-133 | after every run storage holds, for every fence that no prefilter missed, the state of that naive evaluator |
| GeofenceEvaluator.SignalsAreNaive | apps/gps-engine-service/src/application/geofence-evaluator.ts:252-371 | and every position's signals for it are the naive evaluator's events, filtered by alert settings except on the far path |
| GeofenceEvaluator.MissedFence | apps/gps-engine-service/src/application/geofence-evaluator.ts:107-127 | without that assumption the two differ |
| GeofenceEvaluator.MissedFenceExactly | apps/gps-engine-service/src/application/geofence-evaluator.ts:107-336 | a containing fence the prefilter misses is stored otherwise exactly when it is outside, or a dwell is due under the far path's settings and not its own, or the other way round |
| GeofenceEvaluator.FarExitExactly | apps/gps-engine-service/src/application/geofence-evaluator.ts:314-327 | a far fence's signals are not those its settings allow exactly when they suppress exits and it leaves: from inside with a window of one, or as a candidate whose window ends with this position |
| GeofenceEvaluator.StoredMembership | apps/gps-engine-service/src/application/geofence-evaluator.ts:104-371 | a fence that stays active, whatever becomes of its settings meanwhile, is stored as inside exactly when the latest window of equal observations says so, and as a candidate with the trailing run exactly when the latest observation differs |
| GeofenceEvaluator.StoredCrossings | apps/gps-engine-service/src/application/geofence-evaluator.ts:104-371 | and it is announced as entered and left, with the time stayed, exactly where the windows of equal observations change value, and as dwelling exactly where, each position judged by the settings it found, the dwell time since the entry has passed for the first time; as far as its alerts at that position allow |
| GeofenceEvaluator.MutableState.Advance | apps/gps-engine-service/src/application/geofence-evaluator.ts:150-204 | the step that mutates the state and pushes events is the machine's |
| GeofenceEvaluator.MutableState.Dwell | apps/gps-engine-service/src/application/geofence-evaluator.ts:232-250 | the dwell check on the mutable state |
| GeofenceEvaluator.Evaluator.Process | apps/gps-engine-service/src/application/geofence-evaluator.ts:104-339 | leaves every fence's row as evaluated on the rows loaded before, and tells every fence's signals in order, the candidates first |
| GeofenceEvaluator.Evaluator.RefreshFarStates | apps/gps-engine-service/src/application/geofence-evaluator.ts:287-339 | the far refresh completes it for the fences with a row that are no candidates |
| DeviceSession.LifeKeeps | apps/device-gateway-service/src/domain/device-session.ts:186-293 | over every life: an identity once bound never changes, a dead session never lives again, and what may publish has an identity |
| DeviceSession.StepsExactly | apps/device-gateway-service/src/domain/device-session.ts:186-284 | what each operation makes of a session in each state, and that all else stays |
| DeviceSession.LifeSteps | apps/device-gateway-service/src/domain/device-session.ts:186-284 | and so in every life, from where the operations before it led |
| DeviceSession.CameThrough | apps/device-gateway-service/src/domain/device-session.ts:186-228 | a session that became active was identified, later authenticated and later activated |
| DeviceSession.IdentityIsGranted | apps/device-gateway-service/src/domain/device-session.ts:200-215 | an identity a session ends up with was given to an authenticate, in state IDENTIFY |
| DeviceSession.Session.DoAuthenticate | apps/device-gateway-service/src/domain/device-session.ts:200-215 | binds the identity from IDENTIFY, and is refused from any other state |
| DeviceSession.Session.DoActivate | apps/device-gateway-service/src/domain/device-session.ts:218-228 | activates from AUTHENTICATED, records from ACTIVE, is refused otherwise |
| DeviceSession.Session.DoDisconnect | apps/device-gateway-service/src/domain/device-session.ts:259-270 | disconnects from any state but CLOSED |
| SessionRegistry.CloseKeeps | apps/device-gateway-service/src/application/session-manager.ts:253-302 | closing keeps the registry invariant, also with a login in flux |
| SessionRegistry.LoginKeeps | apps/device-gateway-service/src/application/session-manager.ts:187-209 | a login keeps the invariant and leaves its session the one byDevice names |
| SessionRegistry.LoginSpares | apps/device-gateway-service/src/application/session-manager.ts:368-378 | a login closes exactly the live session it displaces and touches no other |
| SessionRegistry.OneSessionPerDevice | apps/device-gateway-service/src/application/session-manager.ts:187-209 | at most one live session has a device: the last to authenticate, named by byDevice |
| SessionRegistry.LateClose | apps/device-gateway-service/src/application/session-manager.ts:253-302 | a late close of a displaced session leaves its successor indexed and says nothing |
| SessionRegistry.RunKeeps | apps/device-gateway-service/src/application/session-manager.ts:128-378 | the invariant holds after every run of operations |
| SessionRegistry.OperationExactly | apps/device-gateway-service/src/application/session-manager.ts:128-378 | in every run, what the next operation does, written out: the session opened, bound, touched or closed, the indexes, sockets and announcements, the session a login displaces, and nothing where the operation is refused |
| SessionRegistry.DisconnectedOnce | apps/device-gateway-service/src/application/session-manager.ts:258-302 | in every run a session is announced DISCONNECTED at most once, and once exactly when it had a device and is gone |
| SessionSweep.RoundsSweep | apps/device-gateway-service/src/application/session-manager.ts:330-408 | the three rounds of a sweep amount to closing every tracked session by its own fate, decided on the state before the sweep |
| SessionSweep.FateExactly | apps/device-gateway-service/src/application/session-manager.ts:330-408 | why a sweep closes a session, written out: not logged in within the grace period; else a UDP session quiet for its TTL; else a live session with a device, not looked at for the interval, whose slot names another session |
| SessionSweep.SweptMeans | apps/device-gateway-service/src/application/session-manager.ts:330-408 | so every session is closed for that reason at that time, or left exactly as it was |
| SessionSweep.OwnSlotStays | apps/device-gateway-service/src/application/session-manager.ts:394-405 | a session that is in time and holds its own slot is left as it was |
| SessionSweep.NoneOverdue | apps/device-gateway-service/src/application/session-manager.ts:330-408 | a session that a sweep leaves would be left by another at once |
| SessionSweep.SearchStep | apps/device-gateway-service/src/application/session-manager.ts:384-408 | one turn of the throttled search for superseded sessions, among sessions that earlier turns may have closed |
| SessionManager.Manager.TrackSession | apps/device-gateway-service/src/application/session-manager.ts:128-138 | tracking indexes the session object and keeps the invariant |
| SessionManager.Manager.UdpSessionFor | apps/device-gateway-service/src/application/session-manager.ts:144-152 | what is found for an endpoint is a live session of that endpoint |
| SessionManager.Manager.Login | apps/device-gateway-service/src/application/session-manager.ts:187-209 | on the maps of mutable sessions: newest wins |
| SessionManager.Manager.CloseSession | apps/device-gateway-service/src/application/session-manager.ts:253-302 | tears down the session, its index entries and its socket, and announces it once |
| SessionManager.Manager.CloseAll | apps/device-gateway-service/src/application/session-manager.ts:305-314 | shutdown closes exactly the tracked sessions and leaves no index |
| SessionManager.Manager.Sweep | apps/device-gateway-service/src/application/session-manager.ts:330-364 | leaves every session closed with the reason written out, or as it was; counts the closed by reason, and leaves none that is due |
| SessionManager.Manager.DetectSuperseded | apps/device-gateway-service/src/application/session-manager.ts:384-408 | closes exactly the tracked sessions whose slot names another session, looking at each no more often than the interval, and counts them |
| PacketDispatcher.AfterSealed | apps/device-gateway-service/src/application/packet-dispatcher.ts:115-243 | all a dispatch hands to Kafka, photo acknowledgements included, carries the session's device and tenant, granted once |
| PacketDispatcher.GrantResolved | apps/device-gateway-service/src/application/packet-dispatcher.ts:117-187 | the identity bound has the device, tenant and vehicle that the resolver granted for a message of the packet, and its serial, with nothing handed over before |
| PacketDispatcher.DispatchTallies | apps/device-gateway-service/src/application/packet-dispatcher.ts:115-243 | for a live session, independently of the loop: a message is handed over exactly when the gate is open or it opens it, in order, stamped with the final identity; the packet goes on exactly while no LOGIN and no message at a shut gate meets a resolver that does not grant |
| PacketDispatcher.StopEnds | apps/device-gateway-service/src/application/packet-dispatcher.ts:117-172 | the first such message ends it with all before it done, by closing where the resolver denies and by exception where it fails |
| PacketDispatcher.DispatchProgresses | apps/device-gateway-service/src/application/packet-dispatcher.ts:117-220 | what a dispatch makes of a live session: authenticated where the gate opened, active where a position or telemetry came behind it, with the times of the first and the last of these; nothing else but the identity changes |
| PacketDispatcher.HandedExactly | apps/device-gateway-service/src/application/packet-dispatcher.ts:293-337 | what each message hands over, written out: itself, stamped with the session's device, tenant, id, vehicle and missing serial; and behind a delivered, completed photo its acknowledgement |
| PacketDispatcher.VerdictExactly | apps/device-gateway-service/src/application/packet-dispatcher.ts:72-243 | what the caller is told of a packet that nothing stops: the number let through, an authentication where there was a LOGIN or the gate opened, an exception where the broker failed a message; held commands are flushed exactly where the gate is left open |
| PacketDispatcher.GoneHandsNothing | apps/device-gateway-service/src/application/packet-dispatcher.ts:115-172 | a packet for a session that is gone hands over nothing and changes nothing of it; a granted LOGIN fails at the gate, and what else names a device ends it |
| PacketDispatcher.RefusalReports | apps/device-gateway-service/src/application/packet-dispatcher.ts:119-131 | the reported count of a refused packet is right exactly when no message ahead of the refused one was let through; wrong only for a LOGIN |
| PacketDispatcher.PublishedUnreported | apps/device-gateway-service/src/application/packet-dispatcher.ts:119-131 | a packet that publishes one message and reports none |
| PacketDispatcher.AcksExactly | apps/device-gateway-service/src/application/packet-dispatcher.ts:229-243 | records are acknowledged exactly when no message stopped the packet, the gate stands open at its end, and, where there is a broker, every message at the open gate was delivered |
| PacketDispatcher.AckLosesNothing | apps/device-gateway-service/src/application/packet-dispatcher.ts:229-243 | where records are acknowledged to the device, with a broker every message at the open gate was delivered, and without one nothing was handed over; all are counted as published exactly when the gate was open or the first opens it |
| PacketDispatcher.NoBrokerAcks | apps/device-gateway-service/src/application/packet-dispatcher.ts:229-329 | a position that nobody was handed, reported as published and acknowledged |
| PacketDispatcher.SerialExactly | apps/device-gateway-service/src/application/packet-dispatcher.ts:293-317 | in every packet, what each message hands over carries the session's device and tenant, and its serial exactly when the message came with none or that one |
| PacketDispatcher.SerialOverLife | apps/device-gateway-service/src/application/packet-dispatcher.ts:293-317 | so it is for every message of every packet in every run, with the identity the session has ever after |
| PacketDispatcher.LaterLogin | apps/device-gateway-service/src/application/packet-dispatcher.ts:117-156 | a later granted LOGIN, anywhere in a packet, changes nothing of the session and is published as its device and tenant |
| PacketDispatcher.EverFailsClosed | apps/device-gateway-service/src/application/packet-dispatcher.ts:115-326 | on every run of packets, failing resolvers and brokers included, and other events: everything ever handed to Kafka carries the one granted device and tenant, and before the grant there is nothing |
| PacketDispatcher.IdentityResolved | apps/device-gateway-service/src/application/packet-dispatcher.ts:115-187 | over every run, the identity a session has was granted by the resolver for a message of one of its packets, the session having had none and nothing having been handed to Kafka before that message |
| PacketDispatcher.NeverRebound | apps/device-gateway-service/src/domain/device-session.ts:200-215 | on every run the identity, once bound, is the identity for good |
| PacketDispatcher.NextEvent | apps/device-gateway-service/src/application/packet-dispatcher.ts:72-243 | what the next event of a life does: a packet is dispatched on record; anything else takes its own step of the session and hands nothing over |
| PacketDispatcher.SilentOnceGone | apps/device-gateway-service/src/application/packet-dispatcher.ts:115-326 | on every run a session that is gone stays gone and hands nothing over any more |
| PacketDispatcher.Dispatcher.Dispatch | apps/device-gateway-service/src/application/packet-dispatcher.ts:72-243 | the message loop over the mutable session and counters has the specified result or exception, log, flush and acknowledgement, and leaves a live session progressed as above |
| PacketDispatcher.Dispatcher.Publish | apps/device-gateway-service/src/application/packet-dispatcher.ts:322-337 | one publish behind the gate |
| LruCache.StateSound | apps/device-gateway-service/src/application/auth-resolver.ts:223-254 | in every run keys are distinct and no more than the maximum |
| LruCache.HitIsLastStored | apps/device-gateway-service/src/application/auth-resolver.ts:223-254 | in every run a hit returns the value last stored under the key, and none after a deletion |
| LruCache.Retained | apps/device-gateway-service/src/application/auth-resolver.ts:223-254 | a key touched last at some operation has the value last stored under it while fewer than max distinct other keys are touched after that; without deletions not longer |
| LruCache.Cache.Get | apps/device-gateway-service/src/application/auth-resolver.ts:228-235 | a hit moves to the end |
| LruCache.Cache.Set | apps/device-gateway-service/src/application/auth-resolver.ts:237-245 | the entry goes to the end and the oldest are cut |
| AuthResolver.ResolvesWell | apps/device-gateway-service/src/application/auth-resolver.ts:84-119 | wherever a resolve ends on the ladder, what it accepts is enabled and backed by a recent enough grant, and both tiers stay backed |
| AuthResolver.StalenessBound | apps/device-gateway-service/src/application/auth-resolver.ts:84-119 | in every run of all pods an accepted device was granted for that serial, its tenant active, at most both TTLs together ago |
| AuthResolver.BoundReached | apps/device-gateway-service/src/application/auth-resolver.ts:94-112 | the bound is met to within two milliseconds |
| AuthResolver.OnlyActiveCached | apps/device-gateway-service/src/application/auth-resolver.ts:110-114 | both tiers hold active devices only, and L1 stays within its size |
| AuthResolver.ResolvesExactly | apps/device-gateway-service/src/application/auth-resolver.ts:84-163 | for every rung on which a device may be found, or none: what is answered, refused or thrown, whether a grant is made, and what L1 and L2 hold afterwards |
| AuthResolver.AcceptsExactly | apps/device-gateway-service/src/application/auth-resolver.ts:84-163 | a device is accepted exactly when L1 holds it unexpired and active; or else it is active or unpaired and L2 has it within its TTL; or else the registry resolves or enrols it and its tenant is active |
| AuthResolver.ServedAgain | apps/device-gateway-service/src/application/auth-resolver.ts:88-114 | an active device once accepted is accepted by that pod for the L1 TTL, whatever Redis and the registry then say |
| AuthResolver.PutSpares | apps/device-gateway-service/src/application/auth-resolver.ts:237-245 | below ten thousand entries a device cached costs no other its place |
| AuthResolver.EventExactly | apps/device-gateway-service/src/application/auth-resolver.ts:84-125 | in every run, what the next event does to the pods, Redis and the record of grants: an invalidation takes the serial out of its pod, out of Redis where it gets there, and nothing else |
| AuthResolver.ThrowsExactly | apps/device-gateway-service/src/application/auth-resolver.ts:98-108 | when a resolve fails instead of refusing |
| AuthResolver.InvalidateForces | apps/device-gateway-service/src/application/auth-resolver.ts:122-125 | after an invalidation of both tiers the pod accepts only by a new grant |
| AuthResolver.Resolver.ResolveDevice | apps/device-gateway-service/src/application/auth-resolver.ts:84-119 | the ladder over the mutable LRU and Redis is the resolve these lemmas describe |
| AuthResolver.Resolver.AskRegistry | apps/device-gateway-service/src/application/auth-resolver.ts:98-156 | its last rung: resolve or enroll, check the tenant, cache upward |
| PositionPipeline.RunWindow | apps/gps-engine-service/src/application/position-pipeline.ts:201-212 | after every run the dedupe set is exactly the last 10 000 keys marked |
| PositionPipeline.ArrivalExactly | apps/gps-engine-service/src/application/position-pipeline.ts:86-172 | in every run, what the next arrival does, written out: stored with its graded quality, remembered, fed and shown exactly when it is plausible, not marked among the last 10 000, persisted and not known to be older; else nothing |
| PositionPipeline.StoredOnce | apps/gps-engine-service/src/application/position-pipeline.ts:104-134 | of any ten thousand positions stored in a row no two are one message of one vehicle |
| PositionPipeline.RedeliveryDoesNothing | apps/gps-engine-service/src/application/position-pipeline.ts:104-112 | a redelivery within that window has no effect |
| PositionPipeline.FailedPersistForgotten | apps/gps-engine-service/src/application/position-pipeline.ts:126-134 | every run goes on from a failed persist as if the delivery had never come |
| PositionPipeline.NeverRegresses | apps/gps-engine-service/src/application/position-pipeline.ts:136-172 | over any order of arrival, while the previous position is read and written, per vehicle the cached, broadcast and geofence-fed capture times never go back |
| PositionPipeline.RegressesExactly | apps/gps-engine-service/src/application/trip-engine.ts:115-212 | in every run whatsoever, the live view of a vehicle goes back exactly when some arrival is admitted, of live quality, older than one shown, and meets a gate that is blind or knows no newer previous position |
| PositionPipeline.ExpiryRegresses | apps/gps-engine-service/src/application/trip-engine.ts:115-125 | a silence as long as the TTL is enough |
| PositionPipeline.LostWriteRegresses | apps/gps-engine-service/src/application/trip-engine.ts:211-212 | so is one lost write of the previous position, with the gate never blind |
| PositionPipeline.Pipeline.ProcessPosition | apps/gps-engine-service/src/application/position-pipeline.ts:86-172 | the stages over the mutable state |
| PositionPipeline.Pipeline.MarkSeen | apps/gps-engine-service/src/application/position-pipeline.ts:205-212 | insertion with eviction of the oldest |
| PositionPipeline.Pipeline.RunTripEngine | apps/gps-engine-service/src/application/trip-engine.ts:115-125 | the out-of-order gate and the previous position it keeps |
| RefreshTokenFamily.OneUnspentToken | apps/identity-service/src/domain/refresh-token-family.ts:54-165 | in every run an active family has exactly one token neither consumed nor revoked, the one issued last; in any other every token is revoked |
| RefreshTokenFamily.RotatesExactly | apps/identity-service/src/domain/refresh-token-family.ts:115-143 | a token rotates exactly when the family is active and it is the one issued last; anything else revokes every token |
| RefreshTokenFamily.EventExactly | apps/identity-service/src/domain/refresh-token-family.ts:115-165 | in every run, what the next event does: the token issued last is consumed and the next recorded, or all are revoked with time and reason and that is announced once |
| RefreshTokenFamily.DeadForGood | apps/identity-service/src/domain/refresh-token-family.ts:115-165 | once not active, a family stays so, issues nothing, and nothing rotates |
| RefreshTokenFamily.ReuseKills | apps/identity-service/src/domain/refresh-token-family.ts:128-132 | to present a token once consumed and not issued again compromises the family for good |
| RefreshTokenFamily.ReuseUnnoticed | apps/identity-service/src/domain/refresh-token-family.ts:128-142 | reuse goes unnoticed exactly where that hash is the one issued last, which takes its being issued again |
| RefreshTokenFamily.ReissueUnnoticed | apps/identity-service/src/domain/refresh-token-family.ts:133-142 | a run in which it does |
| RefreshTokenFamily.Aggregate.ConsumeToken | apps/identity-service/src/domain/refresh-token-family.ts:115-143 | rotates exactly the last issued token of an active family, on the token map |
| RefreshTokenFamily.Aggregate.RevokeTokens | apps/identity-service/src/domain/refresh-token-family.ts:146-165 | the loop revokes every record |
| HeldCommands.StartNamesCamera | apps/device-gateway-service/src/application/command-dispatcher.ts:122-130 | a start body spelled in hex gives the camera behind its length-prefixed address |
| HeldCommands.StopNamesCamera | apps/device-gateway-service/src/application/command-dispatcher.ts:118-121 | a stop body spelled in hex gives its camera |
| HeldCommands.ChannelExactly | apps/device-gateway-service/src/application/command-dispatcher.ts:112-134 | the stream every hex body is about: a camera, its own where a start is cut short, else the shared one |
| HeldCommands.NoChannel | apps/device-gateway-service/src/application/command-dispatcher.ts:112-117 | without a hex body, or a comma in it, the stream is the shared one |
| HeldCommands.HexDecodes | apps/device-gateway-service/src/application/command-dispatcher.ts:115 | a text is decoded to exactly the bytes it spells, two digits of either case each, up to the first pair that is none |
| HeldCommands.TwoStages | apps/device-gateway-service/src/application/command-dispatcher.ts:270-274 | the second stage of the selection changes nothing: it finds the group's latest |
| HeldCommands.OnePerCamera | apps/device-gateway-service/src/application/command-dispatcher.ts:256-281 | of the live controls for one camera exactly one is sent |
| HeldCommands.PartitionHeld | apps/device-gateway-service/src/application/command-dispatcher.ts:256-281 | every pending command is in exactly one of send and drop, once; sent are, in order, all that are no live control and each camera's latest by first appearance |
| HeldCommands.LastIntentIsSent | apps/device-gateway-service/src/application/command-dispatcher.ts:208-281 | over every sequence of holds and whatever the clock, a pending live control is sent exactly when no pending one for its camera was held later, or at the same time under a key first held later |
| HeldCommands.LaterHoldIsSent | apps/device-gateway-service/src/application/command-dispatcher.ts:208-281 | so the command held last for a camera is sent where its time is later than those of the others before it |
| HeldCommands.TieLosesIntent | apps/device-gateway-service/src/application/command-dispatcher.ts:336-345 | start, stop and start again within a millisecond sends the stop |
| HeldCommands.ClockLosesIntent | apps/device-gateway-service/src/application/command-dispatcher.ts:270-274 | a stop held after a start at an earlier clock time is dropped for it |
| HeldCommands.LastIsHolding | apps/device-gateway-service/src/application/command-dispatcher.ts:336-345 | over every sequence of holds the last command under each key is pending |
| HeldCommands.ReplacesExactly | apps/device-gateway-service/src/application/command-dispatcher.ts:342-345 | of commands held while offline one replaces another exactly when both have one code and one body, or failing a body one id |
| HeldCommands.TwoCameras | apps/device-gateway-service/src/application/command-dispatcher.ts:336-345 | live controls for two cameras never replace each other |
| HeldCommands.PendingExactly | apps/device-gateway-service/src/application/command-dispatcher.ts:208-223 | pending are the last holds of their keys that are no more than ten minutes old |
| HeldCommands.HoldQueue.Hold | apps/device-gateway-service/src/application/command-dispatcher.ts:336-345 | one pending command per key, a replacement keeping its place |
| HeldCommands.HoldQueue.FlushHeld | apps/device-gateway-service/src/application/command-dispatcher.ts:208-232 | takes a device's commands out, leaves the expired, rejects the dropped and dispatches the rest, each in order |

## Left out

- Rounding to six decimals, kilometres of area and time stamps above 2^53: coordinates and weights are exact reals, so the hull and coverage are those before rounding.
- Non-finite weights, and points whose printed coordinates differ though the numbers are equal.
- Names of payload types, data types and flags, and the unused previous-frame fields of a media header.
- The `need` of an incomplete GPRS frame, and decoding of the A9A body.
- A refused media connection is taken as the end of it: what a destroyed socket might still deliver is not modelled.
- The stream registry behind `feed`, codec switches, the FLV and ffmpeg side.
- Geofence geometry: whether a fence contains a point is a given of each position, the same for prefilter and exact check; that the prefilter does not miss the fence in question is an explicit assumption of the lemmas that need it. Both assume a fence that is asked for is assigned to the vehicle, which the exact check does not look at.
- The switch that turns geofences off, and a failure of storage in the middle of one geofence position: a redelivery could count twice for the fences already written.
- ProjectArea.ProjectArea: the area in square kilometres is not among its results, and none of them is rounded.
- GeofenceEvaluator.Evaluator.Process: the order of far fences among themselves is any; storage gives it. Every read and write of storage succeeds.
- The global session snapshot in Redis, its `displaced` answer, keepalive and ACTIVE lifecycle events, session writers and establishment times.
- SessionManager.Manager.UdpSessionFor: every indexed endpoint has a live session, not the converse; a close removes the endpoint's key whoever holds it.
- The order in which a sweep visits sessions, and so the order of its events.
- Raw retention, CAN snapshots, logging, the photo assembler (whether a photo is complete is a given of each message) and the bytes of the cache acknowledgement.
- The vehicle of a published message: it falls back to the message's own where the session has none, so only device and tenant are claimed.
- JSON encoding of the L2 value, and a Redis clock apart from the pods' clock: one clock runs forward, and a resolve happens at one moment.
- The trip, idle, parking and engine-hours machines, the plausibility filter's rules and the last-seen throttle.
- An L1 size of the caller's: the code builds L1 with the default 10 000 entries whatever `l1MaxEntries` says, and the model has that constant.
- Exceptions of the CAN store and of the held-command flush in the middle of a dispatch.
- Expiry of a refresh token, which the family does not look at, and the EXPIRED status, which nothing sets.
- A command dispatch that finds the gate shut again while flushing, and so holds the command anew; adapters, encoding and socket writes.
- HeldCommands.LastIsHolding: nothing is said of a command whose key is held again; it is replaced without any feedback, as are the expired ones.
