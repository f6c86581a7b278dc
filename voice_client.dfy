/** The client of public/script.js: its globals as the fields of one object,
    and the handlers and timer callbacks that update them. Socket emits and
    PeerJS calls are recorded in ghost logs instead of being sent. */
module VoiceClient {
  import opened JsCore
  import opened Office
  import opened Sessions
  import Registry

  /** What a click on the canvas led to. */
  datatype Click = Ignored | RoomFull(room: Room) | ModalOpened(room: Room) | Walked

  /** Where leaving a meeting room puts the avatar (public/script.js:314). */
  const LeaveX: real := 1300.0
  const LeaveY: real := 900.0

  /** A client after `startConnection` has run: the socket, the PeerJS
      object and the microphone stream exist. */
  class Client {
    var myId: Option<JsString>
    var myPeerId: Option<JsString>
    var myName: JsString
    var users: map<JsString, User>
    /** Outgoing calls, keyed by the callee's PeerJS id. */
    var peers: map<JsString, MediaCall>
    var myX: real
    var myY: real
    var myRoomId: Option<JsString>
    /** `isMicMutedByUser`. */
    var micMuted: bool
    /** The `enabled` flag of the outgoing audio track. */
    var micOn: bool
    /** The room whose join dialog is showing, if any. */
    var modalRoom: Option<Room>
    /** Every `myPeer.call` and `close()` made, oldest first. */
    ghost var calls: seq<CallEvent>
    /** Every `socket.emit`, oldest first. */
    ghost var sent: seq<Registry.Inbound>

    ghost predicate Valid()
      reads this
    {
      OnlyInitiated(myPeerId, peers) &&
      InWorld(myX, myY) &&
      (modalRoom.Some? ==> modalRoom.value in MeetingRooms)
    }

    /** The state the reconcile loop reads. */
    function Me(): Self
      reads this
      requires myId.Some?
    {
      Self(myId.value, myPeerId, myX, myY, myRoomId)
    }

    /** The globals after the entry dialog succeeded (public/script.js:4-12, 100, 113-115). */
    constructor (name: JsString)
      ensures Valid()
      ensures myId == None && myPeerId == None && myName == name
      ensures users == map[] && peers == map[]
      ensures myX == 1400.0 && myY == 900.0 && myRoomId == None
      ensures micMuted && !micOn && modalRoom == None
      ensures calls == [] && sent == []
    {
      myId, myPeerId, myName := None, None, name;
      users, peers := map[], map[];
      myX, myY, myRoomId := 1400.0, 900.0, None;
      micMuted, micOn, modalRoom := true, false, None;
      calls, sent := [], [];
    }

    /** `socket.on('connect')`. */
    method OnSocketConnect(id: JsString)
      modifies this`myId
      ensures myId == Some(id)
    {
      myId := Some(id);
    }

    /** `myPeer.on('open')`: PeerJS reports the own id once, and the client
        announces it with `enterRoom`. */
    method OnPeerOpen(id: JsString)
      requires Valid() && myPeerId == None
      modifies this`myPeerId, this`sent
      ensures Valid()
      ensures myPeerId == Some(id)
      ensures sent == old(sent) + [Registry.EnterRoom(myName, id)]
    {
      myPeerId := Some(id);
      sent := sent + [Registry.EnterRoom(myName, id)];
    }

    /** `socket.on('updateUsers')`: the snapshot replaces `users`. */
    method OnUpdateUsers(data: map<JsString, User>)
      modifies this`users
      ensures users == data
    {
      users := data;
    }

    /** `connectToUsers` (public/script.js:176-214), run on the 1.5 s timer.
        `order` is the order `Object.keys(users)` lists the entries in. */
    method ConnectToUsers(order: seq<JsString>)
      requires Valid() && KeyOrder(order, users)
      modifies this`peers, this`calls
      ensures Valid()
      ensures !Truthy(myId) ==> peers == old(peers) && calls == old(calls)
      ensures Truthy(myId) ==>
        var t := Pass(Me(), users, order, old(peers));
        peers == t.peers && calls == old(calls) + t.events
      ensures Truthy(myId) && UniqueClaims(Me(), users) ==>
        peers == Target(Me(), users, users.Keys, old(peers))
    {
      if !Truthy(myId) {
        return;
      }
      var me := Me();
      ghost var final := Pass(me, users, order, peers);
      var i := 0;
      while i < |order|
        invariant 0 <= i <= |order|
        invariant var t := Pass(me, users, order[i..], peers);
          t.peers == final.peers && calls + t.events == old(calls) + final.events
      {
        ghost var before, logged := peers, calls;
        ghost var a := Decide(me, peers, order[i], users[order[i]]);
        PassUnfold(me, users, order, i, peers);
        VisitEntry(me, order[i]);
        AppendAssociative(logged, EventOf(a), Pass(me, users, order[i + 1..], peers).events);
        i := i + 1;
      }
      assert order[|order|..] == [];
      PassKeepsOnlyInitiated(me, users, order, old(peers));
      if UniqueClaims(me, users) {
        PassReachesTarget(me, users, order, old(peers));
      }
    }

    /** The `forEach` callback of `connectToUsers` for the entry `id`. */
    method VisitEntry(me: Self, id: JsString)
      requires id in users
      modifies this`peers, this`calls
      ensures peers == Apply(old(peers), Decide(me, old(peers), id, users[id]))
      ensures calls == old(calls) + EventOf(Decide(me, old(peers), id, users[id]))
    {
      if id == me.socketId {
        return;
      }
      var u := users[id];
      if !Truthy(u.peerId) {
        return;
      }
      var p := u.peerId.value;
      var shouldConnect := Warranted(me, u);
      if shouldConnect {
        if p !in peers && Initiates(me, p) {
          peers := peers[p := MediaCall(p)];
          calls := calls + [Dialled(p)];
        }
      } else if p in peers {
        peers := peers - {p};
        calls := calls + [Closed(p)];
      }
    }

    /** The `close` and `error` callbacks of `handleStream`: they delete the
        entry under `call.peer` and nothing else. */
    method OnCallEnded(call: MediaCall)
      requires Valid()
      modifies this`peers
      ensures Valid()
      ensures peers == old(peers) - {call.peer}
    {
      peers := peers - {call.peer};
    }

    /** `checkAudioStatus`: the track is enabled when the user has not muted
        and the zone or a meeting room allows speaking. */
    method CheckAudioStatus()
      modifies this`micOn
      ensures micOn == MicEnabled(myRoomId, myX, myY, micMuted)
    {
      var canSpeak := false;
      if Truthy(myRoomId) {
        canSpeak := true;
      } else if !CurrentZone(myX, myY).AllowMic() {
        canSpeak := false;
      } else {
        canSpeak := true;
      }
      micOn := canSpeak && !micMuted;
    }

    /** `toggleMic`. */
    method ToggleMic()
      modifies this`micMuted, this`micOn
      ensures micMuted == !old(micMuted)
      ensures micOn == MicEnabled(myRoomId, myX, myY, micMuted)
    {
      micMuted := !micMuted;
      CheckAudioStatus();
    }

    /** `moveMe`: the position is clamped into the world, emitted, and the
        microphone re-evaluated. */
    method MoveMe(x: real, y: real)
      requires Valid()
      modifies this`myX, this`myY, this`sent, this`micOn
      ensures Valid()
      ensures myX == Clamp(x, Margin, WorldW - Margin) && myY == Clamp(y, Margin, WorldH - Margin)
      ensures sent == old(sent) + [Registry.Move(myX, myY, myRoomId)]
      ensures micOn == MicEnabled(myRoomId, myX, myY, micMuted)
    {
      myX := Clamp(x, Margin, WorldW - Margin);
      myY := Clamp(y, Margin, WorldH - Margin);
      sent := sent + [Registry.Move(myX, myY, myRoomId)];
      CheckAudioStatus();
    }

    /** `showRoomModal`: the join dialog opens only while the room has a free seat. */
    method ShowRoomModal(room: Room) returns (shown: bool)
      requires Valid() && room in MeetingRooms
      modifies this`modalRoom
      ensures Valid()
      ensures shown <==> Occupancy(users, room.id) < room.capacity
      ensures modalRoom == if shown then Some(room) else old(modalRoom)
    {
      var count := Occupancy(users, room.id);
      if count >= room.capacity {
        return false;
      }
      modalRoom := Some(room);
      return true;
    }

    /** The canvas click handler: ignored inside a meeting room; a click on
        a room asks to join it, anywhere else walks there. `px`, `py` are
        the click in world coordinates. */
    method OnCanvasClick(px: real, py: real) returns (c: Click)
      requires Valid()
      modifies this`myX, this`myY, this`sent, this`micOn, this`modalRoom
      ensures Valid()
      ensures c.Ignored? <==> Truthy(myRoomId)
      ensures Truthy(old(myRoomId)) ==> c == Ignored && unchanged(this)
      ensures c.Walked? <==> !Truthy(myRoomId) && RoomAt(MeetingRooms, px, py).None?
      ensures c.Walked? ==> myX == Clamp(px, Margin, WorldW - Margin) && myY == Clamp(py, Margin, WorldH - Margin) &&
                            sent == old(sent) + [Registry.Move(myX, myY, myRoomId)] && modalRoom == old(modalRoom) &&
                            micOn == MicEnabled(myRoomId, myX, myY, micMuted)
      ensures c.RoomFull? || c.ModalOpened? ==>
        !Truthy(myRoomId) && RoomAt(MeetingRooms, px, py) == Some(c.room) &&
        myX == old(myX) && myY == old(myY) && sent == old(sent) && micOn == old(micOn) &&
        (c.RoomFull? <==> !HasSeat(users, c.room)) &&
        modalRoom == if c.ModalOpened? then Some(c.room) else old(modalRoom)
    {
      if Truthy(myRoomId) {
        return Ignored;
      }
      var room := RoomAt(MeetingRooms, px, py);
      if room.Some? {
        var shown := ShowRoomModal(room.value);
        c := if shown then ModalOpened(room.value) else RoomFull(room.value);
      } else {
        MoveMe(px, py);
        c := Walked;
      }
    }

    /** The join button of the dialog: enter the room, stand near its
        centre (`offsetX`, `offsetY` stand for `Math.random()`), emit the
        move with the room id and close the dialog. The seat count is not
        checked again. */
    method JoinRoom(offsetX: real, offsetY: real)
      requires Valid()
      requires 0.0 <= offsetX < 1.0 && 0.0 <= offsetY < 1.0
      modifies this`myRoomId, this`myX, this`myY, this`sent, this`modalRoom, this`micOn
      ensures Valid()
      ensures old(modalRoom) == None ==> unchanged(this)
      ensures old(modalRoom).Some? ==>
        var room := old(modalRoom).value;
        myRoomId == Some(room.id) && (myX, myY) == EntryPoint(room, offsetX, offsetY) &&
        Contains(room, myX, myY) &&
        sent == old(sent) + [Registry.Move(myX, myY, myRoomId)] &&
        modalRoom == None && micOn == !micMuted
    {
      if modalRoom.Some? {
        var room := modalRoom.value;
        EntryPointPlacement(room, offsetX, offsetY);
        myRoomId := Some(room.id);
        var p := EntryPoint(room, offsetX, offsetY);
        myX, myY := p.0, p.1;
        sent := sent + [Registry.Move(myX, myY, myRoomId)];
        modalRoom := None;
        CheckAudioStatus();
      }
    }

    /** `closeRoomModal`. */
    method CloseRoomModal()
      requires Valid()
      modifies this`modalRoom
      ensures Valid() && modalRoom == None
    {
      modalRoom := None;
    }

    /** `leaveMeetingRoom`: back to the open floor at a fixed spot. */
    method LeaveMeetingRoom()
      requires Valid()
      modifies this`myRoomId, this`myX, this`myY, this`sent, this`micOn
      ensures Valid()
      ensures myRoomId == None && myX == LeaveX && myY == LeaveY
      ensures sent == old(sent) + [Registry.Move(LeaveX, LeaveY, None)]
      ensures micOn == !micMuted
    {
      myRoomId := None;
      MoveMe(LeaveX, LeaveY);
      CheckAudioStatus();
    }
  }
}
