# Virtual office voice sessions, modelled in Dafny

The system is a browser-based virtual office. Avatars move on a 2000 x 1125
map, and peer-to-peer voice calls (PeerJS) connect people who should hear
each other. A Node.js/socket.io server keeps the `users` registry and
broadcasts it after every change. This project models three parts:

- **The registry** (`server.js`), in `registry.dfy`. It is the `users`
  dictionary, changed in place by the connection, `joinVoice`, `move` and
  disconnect handlers. A ghost log records every `updateUsers` broadcast.
  The pure function `Applied` gives the effect of one event. `Run` folds a
  sequence of events.
- **The current client** (`public/script.js`):
  - `office.dfy` holds the geometry and pure decisions: the silent booth,
    `getCurrentZone`, the microphone decision of `checkAudioStatus`, the
    `moveMe` clamp, the meeting-room hit-test, the seat count, the join
    position and the volume rule.
  - `sessions.dfy` holds the reconcile loop of `connectToUsers` on values.
    It covers which peer warrants a call, the tie-break `myPeer.id > u.peerId`
    and one pass as a fold over the key order. When no two other users
    share a PeerJS id, that fold is proved equal to a declarative target
    that does not depend on the order, and proved idempotent; a concrete
    snapshot shows that a shared id makes the pass dial and close the same
    call on every run. Other lemmas state what a pass never does, that two clients
    never both dial each other, and what a pass does with the snapshots this
    server actually sends.
  - `voice_client.dfy` holds the client's globals as a class. Its handlers
    and timer callbacks are methods proved against those functions.
- **The older client** (`public/public.js`), in `legacy_client.dfy`. It
  covers the three vertical bands of `getZone`, the add-only
  `connectToUsers`, `checkZone` and arrow-key movement.

The JavaScript values are modelled as follows:

- **Strings** are sequences of UTF-16 code units (`JsCore.JsString`). The
  JavaScript `<` on strings is `JsCore.StringLess`, a lexicographic order
  on code units.
- **`null` and `undefined`** are `None`, and the truthiness of an optional
  string is `JsCore.Truthy`.
- **Coordinates** are `real`s. The distance test compares squared
  distances.
- **Socket emits and PeerJS calls** are recorded in ghost logs rather than
  performed.
- **`Object.keys` order** is an explicit parameter (`order`) that lists
  each key once.

## Model

| member | source | states |
|---|---|---|
| JsCore.StringLess | public/script.js:200 | the comparison of two PeerJS ids is false for equal ids, and a proper prefix is always smaller than the longer id |
| JsCore.StringLessIsLexicographic | public/script.js:200 | the string comparison used by the tie-break holds exactly when the left string is a proper prefix of the right one or is smaller at the first differing code unit |
| JsCore.StringLessIrreflexive | public/script.js:200 | no PeerJS id is smaller than itself |
| JsCore.StringLessAsymmetric | public/script.js:200 | two ids are never each smaller than the other |
| JsCore.StringLessTotal | public/script.js:200 | of two distinct ids one is smaller |
| JsCore.StringLessTransitive | public/script.js:200 | the comparison is transitive |
| Office.CurrentZone | public/script.js:33-36 | the zone is SILENT exactly inside 750 < x < 1600, y < 450, and the microphone is allowed exactly outside it |
| Office.CanSpeak | public/script.js:145-158 | speaking is allowed exactly when the client is in a meeting room or outside the silent booth |
| Office.MicEnabled | public/script.js:160 | the track is never enabled while the user has muted; when the user has not muted, it is enabled exactly when speaking is allowed |
| Office.Clamp | public/script.js:277-278 | the result lies within the bounds, equals the input inside them and equals the nearer bound outside |
| Office.ClampIdempotent | public/script.js:277-278 | clamping a clamped coordinate leaves it unchanged |
| Office.RoomAt | public/script.js:267-269 | no room is found exactly when no room contains the point (edges inclusive); a found room is listed and contains the point; it is the first room in the list that contains the point |
| Office.ClickFindsTheOnlyRoom | public/script.js:28-31 | the two meeting rooms do not overlap, so a found room is the only one under the click |
| Office.Occupancy | public/script.js:290 | the number of entries carrying the room id never exceeds the number of entries |
| Office.HasSeat | public/script.js:291 | a room with a free seat has positive capacity, and a snapshot smaller than the capacity always leaves a seat |
| Office.EntryPoint | public/script.js:299-300 | the join position lies inside any room at least 100 x 100 |
| Office.EntryPointPlacement | public/script.js:28-31 | joining room A or B lands inside the world bounds, inside the room and outside the silent booth |
| Office.Volume | public/script.js:221-234 | the volume is 0 or 1: inside a room it is 1 exactly for the same room; on the open floor it is 1 exactly for an entry in no room within 120 units |
| Office.VolumeIsMutual | public/script.js:225-232 | two participants compute the same volume for each other |
| Registry.Applied | server.js:28-58 | only the sender's record changes: connect puts a fresh record at (50, 200) with no peerId; joinVoice sets only peerId and move sets only x and y, both only for a known sender; enterRoom changes nothing; disconnect removes the record |
| Registry.Broadcasts | server.js:28-58 | connect and disconnect always broadcast; enterRoom never does; joinVoice and move broadcast only for a sender present in the registry |
| Registry.SilentEventsChangeNothing | server.js:38-52 | an event that is not broadcast leaves the registry unchanged |
| Registry.NoJoinVoiceNoPeerIds | server.js:38-43 | without a joinVoice event, no record ever gets a peerId |
| Registry.RunKeys | server.js:28-58 | after a run of events, an id is present exactly when its last connect or disconnect was a connect, or it was present and neither occurred |
| Registry.PresenceServer.constructor | server.js:26 | the registry starts empty with nothing broadcast |
| Registry.PresenceServer.OnConnection | server.js:28-35 | adds the spawn record, broadcasts the new registry and keeps every client's last snapshot equal to the registry |
| Registry.PresenceServer.OnJoinVoice | server.js:38-43 | a known sender's peerId is set and broadcast; an unknown sender changes nothing and nothing is sent |
| Registry.PresenceServer.OnMove | server.js:46-52 | a known sender's coordinates are set and broadcast, and any room id is dropped; an unknown sender changes nothing |
| Registry.PresenceServer.OnDisconnect | server.js:55-58 | the record is deleted and the registry broadcast, even for an unknown id |
| Registry.PresenceServer.Handle | server.js:28-58 | the registry becomes `Applied` of the event, and a broadcast is logged exactly when `Broadcasts` holds |
| Sessions.Eligible | public/script.js:181-183 | the own socket id and an entry without a non-empty PeerJS id are never considered |
| Sessions.Initiates | public/script.js:200 | without an own PeerJS id this side never dials, and it never dials its own id |
| Sessions.Warranted | public/script.js:185-196 | in a room, a call is warranted exactly with the same room; on the open floor, exactly with a peer in no room while neither avatar is in the silent booth |
| Sessions.Decide | public/script.js:181-212 | dials only an eligible, warranted, uncalled peer with a smaller id; hangs up only an eligible, unwarranted, called peer; otherwise does nothing |
| Sessions.Apply | public/script.js:198-212 | a dial adds exactly the callee's key and a hang-up removes exactly its key; every other entry is kept, and doing nothing leaves `peers` exactly as it was |
| Sessions.Pass | public/script.js:180-213 | a pass logs at most one event per key visited; every key it adds was dialled and every key it removes was closed |
| Sessions.PassMatchesTarget | public/script.js:176-214 | when no two users share a PeerJS id, a pass in any key order gives the declarative target: unwarranted calls removed, warranted calls kept, and missing warranted calls added exactly where this side wins the tie-break |
| Sessions.PassEventsMatchPeers | public/script.js:198-212 | when no two users share a PeerJS id, every dialled key was absent before the pass and present after it, and every closed key was present before and absent after |
| Sessions.ReconcileIdempotent | public/script.js:198-212 | when no two users share a PeerJS id, a second pass over the same snapshot places and closes nothing |
| Sessions.SharedClaimFlaps | public/script.js:198-212 | with two entries claiming one PeerJS id, a pass dials that id and then closes the call, so the reconcile never settles |
| Sessions.PassFrame | public/script.js:180-183 | a key claimed by no other user with a PeerJS id is neither touched, dialled nor closed |
| Sessions.PassDialsOnlyInitiated | public/script.js:199-203 | every call placed goes to an id smaller than the own PeerJS id, never to the own id |
| Sessions.PassKeepsOnlyInitiated | public/script.js:198-212 | if every entry of `peers` is a call this side placed, that still holds after a pass |
| Sessions.NoWarrantHangsUpAll | public/script.js:206-211 | when no entry warrants a call, a pass adds no key, only closes calls, and leaves no call to a listed peer |
| Sessions.SilentBoothHangsUpAll | public/script.js:190-194 | standing in the silent booth on the open floor closes every call to a listed peer and places none |
| Sessions.WarrantIsMutual | public/script.js:185-196 | a warrants a call with b exactly when b warrants one with a |
| Sessions.ExactlyOneSideInitiates | public/script.js:200 | for two distinct PeerJS ids, exactly one side wins the tie-break |
| Sessions.NoDuplicateSessions | public/script.js:199-202 | two clients never both hold an outgoing call to each other |
| Sessions.AtMostOneSideDials | public/script.js:199-202 | in one round, two clients never both dial each other |
| Sessions.Received | public/script.js:123 | a server snapshot is read with the same keys, coordinates and peerIds, and no room id |
| Sessions.InRoomWithServerSnapshotHangsUpAll | public/script.js:187-188 | with the snapshots this server sends, a client in a meeting room closes every call and places none |
| Sessions.ServerSnapshotRoomsLookEmpty | public/script.js:290-291 | with the snapshots this server sends, every room counts zero occupants, so a room is never full |
| Sessions.NoPeerIdsNoCalls | public/script.js:183 | when no snapshot entry carries a PeerJS id, a pass changes nothing and places no call |
| VoiceClient.Client.constructor | public/script.js:4-12 | the globals start at (1400, 900), outside any room, muted, with the track off and nothing called |
| VoiceClient.Client.OnSocketConnect | public/script.js:122 | the socket id becomes `myId` |
| VoiceClient.Client.OnPeerOpen | public/script.js:126 | the own PeerJS id is stored and announced with `enterRoom` |
| VoiceClient.Client.OnUpdateUsers | public/script.js:123 | the snapshot replaces `users` |
| VoiceClient.Client.ConnectToUsers | public/script.js:176-214 | without `myId`, nothing changes; otherwise `peers` and the call log become those of the pass, which equals the declarative target when no two users share a PeerJS id; the only-placed-calls invariant is kept |
| VoiceClient.Client.VisitEntry | public/script.js:181-212 | one entry's step applies that entry's decision to `peers` and logs its call or close |
| VoiceClient.Client.OnCallEnded | public/script.js:250-251 | a closed or failed call removes exactly the entry under its peer id |
| VoiceClient.Client.CheckAudioStatus | public/script.js:140-162 | the track ends enabled exactly as `MicEnabled` decides |
| VoiceClient.Client.ToggleMic | public/script.js:405 | the mute flag flips and the track is re-decided |
| VoiceClient.Client.MoveMe | public/script.js:275-282 | the position is clamped into the world, emitted with the room id, and the track re-decided |
| VoiceClient.Client.ShowRoomModal | public/script.js:289-292 | the join dialog opens exactly when the room has fewer occupants than its capacity |
| VoiceClient.Client.OnCanvasClick | public/script.js:262-273 | a click is ignored exactly when the client is inside a room; a click on a room opens its dialog or reports it full without moving or touching the track; anywhere else the avatar walks there and the track is re-decided for the new position |
| VoiceClient.Client.JoinRoom | public/script.js:297-306 | with a dialog open, the client enters that room at its entry point inside the room, emits the move and closes the dialog; the track turns on unless muted |
| VoiceClient.Client.CloseRoomModal | public/script.js:310 | the dialog is closed |
| VoiceClient.Client.LeaveMeetingRoom | public/script.js:312-318 | the client leaves the room for (1300, 900), emits the move without a room, and the track turns on unless muted |
| LegacyClient.GetZone | public/public.js:130-134 | the work band is x < 400, the living band 400 <= x < 800, the meeting band everything from 800 on; the microphone is on exactly from 400 on |
| LegacyClient.GetZoneMonotone | public/public.js:37-41 | moving right never moves to a band further left |
| LegacyClient.Stepped | public/public.js:139-143 | an arrow key moves exactly 15 units in its direction along its axis, with no clamp; other keys leave the position |
| LegacyClient.NewCalls | public/public.js:117-127 | the added calls are disjoint from existing ones, never target the own socket id, and go only to users with a PeerJS id standing at x >= 400, keyed by socket id |
| LegacyClient.Callable | public/public.js:118-122 | a callable entry has a non-empty PeerJS id, stands at x >= 400, is not yet called and is not the own socket id |
| LegacyClient.ConnectIdempotent | public/public.js:122 | a second run over the same snapshot adds nothing |
| LegacyClient.Runs | public/public.js:80-84 | running the connect loop on each update in turn never adds a call under the own socket id |
| LegacyClient.LogsOnce | public/public.js:117-127 | a log that records the added calls exactly has one entry per added call and no socket id twice |
| LegacyClient.PeersOnlyGrow | public/public.js:112-128 | over any sequence of snapshots, wherever the avatar stands at each snapshot, no call is removed or replaced, and the own socket id is never called |
| LegacyClient.WorkBandNeverCalls | public/public.js:114-115 | while the avatar stays in the work band, no sequence of snapshots causes a call |
| LegacyClient.Client.constructor | public/public.js:20-26 | the globals start at (50, 200) with nothing called; the closing zone check leaves the track off |
| LegacyClient.Client.OnSocketConnect | public/public.js:74-78 | the socket id becomes `myId` |
| LegacyClient.Client.OnPeerOpen | public/public.js:89-91 | the own PeerJS id is announced with `joinVoice` |
| LegacyClient.Client.OnUpdateUsers | public/public.js:80-84 | the snapshot replaces `users`; the earlier log is kept, and the calls appended record exactly the calls the connect loop adds (none in the work band) |
| LegacyClient.Client.ConnectToUsers | public/public.js:112-128 | in the work band nothing changes and nothing is logged; elsewhere `peers` gains exactly the new calls, and the entries appended to the call log record exactly those calls |
| LegacyClient.Client.CallEach | public/public.js:117-127 | the loop adds exactly the new calls and logs each of them exactly once: as many log entries as calls, no socket id twice |
| LegacyClient.Client.VisitEntry | public/public.js:118-126 | one entry is called and stored exactly when it is callable |
| LegacyClient.Client.CheckZone | public/public.js:148-157 | the track is enabled exactly from x = 400 on |
| LegacyClient.Client.KeyDown | public/public.js:137-146 | the position takes one step, is emitted without a room id, and the track is re-decided |

## Left out

- I/O is left out. Drawing, zoom, `getWorldPos`, the d-pad, DOM text, the
  settings and device dialogs, audio elements and `removeAudio` are not
  modelled. Clicks are given in world coordinates.
- The phase before `startConnection` is left out: the entry dialog, the
  microphone test and the `!socket` / `!myPeer` / `!myStream` guards. Both
  clients are modelled after it has run.
- Timers are left out. The 1.5 s and 200 ms intervals are calls the caller
  makes. `updateVolumes` is modelled only as the per-entry rule
  `Office.Volume`, without its loop over audio elements.
- Floating point is replaced by `real`. `Math.sqrt(d) <= 120` is modelled
  as `d <= 14400`.
- `Math.random()` is the parameter pair `offsetX`, `offsetY` in [0, 1).
- Answering an incoming call (`myPeer.on('call')`) is not modelled as a
  step: it stores nothing in `peers`. The call's close and error handlers
  (public/script.js:250-251) do delete `peers[call.peer]`. That end of an
  incoming call is modelled by `VoiceClient.Client.OnCallEnded`, like the
  end of any other call.
- The `stream` callbacks that create audio elements are not modelled.
- `VoiceClient.Client.OnCallEnded` takes the call as given. The model does
  not check that it is still the object stored under `call.peer`. A close
  event from an older call to the same peer would delete a newer entry.
- `VoiceClient.Client.JoinRoom` does not recount seats. Neither does the
  source: the count is taken only when the dialog opens.
- PeerJS reports its id before `enterRoom` is sent. Comparing against a
  still-null `myPeer.id` is modelled as "never dial" (`Sessions.Initiates`).
- Client and server disagree about the protocol. `public/script.js`
  announces its PeerJS id with `enterRoom`, which `server.js` does not
  handle. It also sends `roomId` with `move`, which the server drops. With
  this server, such clients never learn each other's PeerJS ids
  (`Sessions.NoPeerIdsNoCalls`) and rooms always look empty
  (`Sessions.ServerSnapshotRoomsLookEmpty`). The client is modelled as
  written, with `roomId` kept as an input, so its own decisions can be
  stated.
- Socket.io delivery, reconnection and the order of messages between
  clients are not modelled. The server handlers are atomic steps.
