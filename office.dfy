/** The geometry of the office map in public/script.js: the world bounds,
    the silent focus booth, the meeting rooms with their capacities, the
    position clamp, the microphone decision and the volume rule. */
module Office {
  import opened JsCore

  const WorldW: real := 2000.0
  const WorldH: real := 1125.0
  /** How close an avatar may come to the world's edge. */
  const Margin: real := 20.0
  /** Hearing distance on the open floor. */
  const TalkDistance: real := 120.0

  /** An entry of the `users` snapshot as public/script.js reads it. The
      server shown never stores `roomId`; it is kept here as an input. */
  datatype User = User(x: real, y: real, peerId: Option<JsString>, roomId: Option<JsString>)

  /** The two entries of `ZONES`. */
  datatype Zone = Silent | Living {
    /** `allowMic`. */
    predicate AllowMic() {
      Living?
    }
  }

  /** `ZONES.SILENT.check`: the focus booth, bounded strictly on three sides
      and open towards negative y. */
  predicate InSilentBooth(x: real, y: real) {
    x > 750.0 && x < 1600.0 && y < 450.0
  }

  /** `getCurrentZone`: SILENT is tried first and LIVING matches everything else. */
  function CurrentZone(x: real, y: real): (z: Zone)
    ensures z == Silent <==> 750.0 < x < 1600.0 && y < 450.0
    ensures z.AllowMic() <==> !(750.0 < x < 1600.0 && y < 450.0)
  {
    if InSilentBooth(x, y) then Silent else Living
  }

  /** The `canSpeak` decision of `checkAudioStatus`: inside a meeting room
      one may always speak, on the open floor only outside the booth. */
  function CanSpeak(myRoomId: Option<JsString>, x: real, y: real): (b: bool)
    ensures b <==> Truthy(myRoomId) || !InSilentBooth(x, y)
  {
    if Truthy(myRoomId) then true
    else CurrentZone(x, y).AllowMic()
  }

  /** The track's `enabled` flag after `checkAudioStatus`: the user's own
      mute always wins, and otherwise the zone decides. */
  function MicEnabled(myRoomId: Option<JsString>, x: real, y: real, mutedByUser: bool): (on: bool)
    ensures on ==> !mutedByUser
    ensures !mutedByUser ==> (on <==> Truthy(myRoomId) || !InSilentBooth(x, y))
  {
    CanSpeak(myRoomId, x, y) && !mutedByUser
  }

  /** `Math.max(lo, Math.min(v, hi))`. */
  function Clamp(v: real, lo: real, hi: real): (r: real)
    requires lo <= hi
    ensures lo <= r <= hi
    ensures lo <= v <= hi ==> r == v
    ensures v < lo ==> r == lo
    ensures v > hi ==> r == hi
  {
    var m := if v < hi then v else hi;
    if lo > m then lo else m
  }

  /** Where `moveMe` may put an avatar. */
  predicate InWorld(x: real, y: real) {
    Margin <= x <= WorldW - Margin && Margin <= y <= WorldH - Margin
  }

  /** Clamping is idempotent: a clamped position is left where it is. */
  lemma ClampIdempotent(v: real, lo: real, hi: real)
    requires lo <= hi
    ensures Clamp(Clamp(v, lo, hi), lo, hi) == Clamp(v, lo, hi)
  {
  }

  /** A meeting room of `MEETING_ROOMS` (the display name and shape tag are left out). */
  datatype Room = Room(id: JsString, x: real, y: real, w: real, h: real, capacity: nat)

  const RoomA: Room := Room([0x41], 40.0, 180.0, 680.0, 800.0, 10)
  const RoomB: Room := Room([0x42], 820.0, 550.0, 500.0, 450.0, 6)
  const MeetingRooms: seq<Room> := [RoomA, RoomB]

  /** The click hit-test: edges count as inside. */
  predicate Contains(r: Room, px: real, py: real) {
    r.x <= px <= r.x + r.w && r.y <= py <= r.y + r.h
  }

  /** `MEETING_ROOMS.find(...)`: the first room, in list order, containing the point. */
  function RoomAt(rooms: seq<Room>, px: real, py: real): (found: Option<Room>)
    ensures found.None? <==> forall i | 0 <= i < |rooms| :: !Contains(rooms[i], px, py)
    ensures found.Some? ==> found.value in rooms && Contains(found.value, px, py)
    ensures found.Some? ==> exists i | 0 <= i < |rooms| :: rooms[i] == found.value && forall j | 0 <= j < i :: !Contains(rooms[j], px, py)
    decreases |rooms|
  {
    if rooms == [] then None
    else if Contains(rooms[0], px, py) then Some(rooms[0])
    else RoomAt(rooms[1..], px, py)
  }

  /** The two meeting rooms do not overlap, so the room a click finds is
      the only one under the click. */
  lemma ClickFindsTheOnlyRoom(px: real, py: real)
    ensures var found := RoomAt(MeetingRooms, px, py);
      found.Some? ==> forall r | r in MeetingRooms && Contains(r, px, py) :: r == found.value
  {
  }

  /** `Object.values(users).filter(u => u.roomId === room.id).length`; the
      own record counts too when it carries the id. */
  function Occupancy(users: map<JsString, User>, roomId: JsString): (n: nat)
    ensures n <= |users|
  {
    var inRoom := set id | id in users && users[id].roomId == Some(roomId);
    assert inRoom <= users.Keys;
    SubsetCardinality(inRoom, users.Keys);
    |inRoom|
  }

  lemma {:induction false} SubsetCardinality(a: set<JsString>, b: set<JsString>)
    requires a <= b
    ensures |a| <= |b|
    decreases |b|
  {
    if a != {} {
      var x :| x in a;
      SubsetCardinality(a - {x}, b - {x});
    }
  }

  /** The capacity gate of `showRoomModal`: the room may be entered only
      while fewer users than its capacity carry its id. */
  function HasSeat(users: map<JsString, User>, room: Room): (ok: bool)
    ensures ok ==> room.capacity > 0
    ensures |users| < room.capacity ==> ok
  {
    Occupancy(users, room.id) < room.capacity
  }

  /** Where the join button places the avatar: a 100 x 100 square around
      the room's centre, `offsetX` and `offsetY` standing for the two
      `Math.random()` draws. */
  function EntryPoint(room: Room, offsetX: real, offsetY: real): (p: (real, real))
    requires 0.0 <= offsetX < 1.0 && 0.0 <= offsetY < 1.0
    ensures room.w >= 100.0 && room.h >= 100.0 ==> Contains(room, p.0, p.1)
  {
    (room.x + room.w / 2.0 - 50.0 + offsetX * 100.0,
     room.y + room.h / 2.0 - 50.0 + offsetY * 100.0)
  }

  /** Joining either meeting room lands inside the world bounds, inside the
      room, and outside the silent booth. */
  lemma EntryPointPlacement(room: Room, offsetX: real, offsetY: real)
    requires room in MeetingRooms
    requires 0.0 <= offsetX < 1.0 && 0.0 <= offsetY < 1.0
    ensures var p := EntryPoint(room, offsetX, offsetY);
      InWorld(p.0, p.1) && Contains(room, p.0, p.1) && !InSilentBooth(p.0, p.1)
  {
  }

  /** Squared distance; the source compares `Math.sqrt` of it with the hearing distance. */
  function DistanceSquared(x1: real, y1: real, x2: real, y2: real): real {
    (x1 - x2) * (x1 - x2) + (y1 - y2) * (y1 - y2)
  }

  /** The volume rule of `updateVolumes` for the entry `u`. */
  function Volume(myRoomId: Option<JsString>, myX: real, myY: real, u: User): (v: real)
    ensures v == 0.0 || v == 1.0
    ensures Truthy(myRoomId) ==> (v == 1.0 <==> u.roomId == myRoomId)
    ensures !Truthy(myRoomId) ==> (v == 1.0 <==>
      !Truthy(u.roomId) && DistanceSquared(myX, myY, u.x, u.y) <= TalkDistance * TalkDistance)
  {
    if Truthy(myRoomId) then
      (if u.roomId == myRoomId then 1.0 else 0.0)
    else if !Truthy(u.roomId) then
      (if DistanceSquared(myX, myY, u.x, u.y) <= TalkDistance * TalkDistance then 1.0 else 0.0)
    else 0.0
  }

  /** Two participants hear each other at the same volume: whoever computes
      it, with their own room and position and the other's snapshot entry. */
  lemma VolumeIsMutual(a: User, b: User)
    ensures Volume(a.roomId, a.x, a.y, b) == Volume(b.roomId, b.x, b.y, a)
  {
    assert DistanceSquared(a.x, a.y, b.x, b.y) == DistanceSquared(b.x, b.y, a.x, a.y);
  }
}
