/** The presence registry of server.js: the module-level `users` dictionary,
    changed in place by the socket handlers, each change followed by a
    broadcast of the whole dictionary to every connected client. */
module Registry {
  import opened JsCore

  /** One entry of `users` as the server stores it (server.js:32). */
  datatype Record = Record(x: real, y: real, peerId: Option<JsString>)

  /** Socket events a client can raise. `EnterRoom` is what public/script.js
      emits; the server registers no handler for it. */
  datatype Inbound =
    | Connect
    | JoinVoice(peerId: JsString)
    | Move(x: real, y: real, roomId: Option<JsString>)
    | EnterRoom(name: JsString, peerId: JsString)
    | Disconnect

  /** An event raised on the socket whose id is `sid`. */
  datatype Event = Event(sid: JsString, msg: Inbound)

  /** Where a fresh connection is placed (server.js:31-32). */
  const SpawnX: real := 50.0
  const SpawnY: real := 200.0

  /** The registry after one handler has run. Only the sender's entry may
      change; `JoinVoice` touches only `peerId`, `Move` only the coordinates
      (any `roomId` in the payload is dropped), and both do nothing for an
      id the registry does not hold. */
  function Applied(users: map<JsString, Record>, e: Event): (r: map<JsString, Record>)
    ensures forall k | k != e.sid :: (k in r <==> k in users) && (k in r ==> r[k] == users[k])
    ensures e.msg.Connect? ==> e.sid in r && r[e.sid] == Record(SpawnX, SpawnY, None)
    ensures e.msg.JoinVoice? ==>
      (e.sid in r <==> e.sid in users) &&
      (e.sid in users ==> r[e.sid].peerId == Some(e.msg.peerId) &&
                          r[e.sid].x == users[e.sid].x && r[e.sid].y == users[e.sid].y)
    ensures e.msg.Move? ==>
      (e.sid in r <==> e.sid in users) &&
      (e.sid in users ==> r[e.sid].x == e.msg.x && r[e.sid].y == e.msg.y &&
                          r[e.sid].peerId == users[e.sid].peerId)
    ensures e.msg.EnterRoom? ==> r == users
    ensures e.msg.Disconnect? ==> e.sid !in r
  {
    match e.msg
    case Connect => users[e.sid := Record(SpawnX, SpawnY, None)]
    case JoinVoice(p) =>
      if e.sid in users then users[e.sid := users[e.sid].(peerId := Some(p))] else users
    case Move(x, y, _) =>
      if e.sid in users then users[e.sid := users[e.sid].(x := x, y := y)] else users
    case EnterRoom(_, _) => users
    case Disconnect => users - {e.sid}
  }

  /** Whether the handler for `e` calls `io.emit("updateUsers", users)`:
      connect and disconnect always do, `joinVoice` and `move` only for a
      known sender, and an event without a handler never does. */
  function Broadcasts(users: map<JsString, Record>, e: Event): (b: bool)
    ensures e.msg.Connect? || e.msg.Disconnect? ==> b
    ensures e.msg.EnterRoom? ==> !b
    ensures b && (e.msg.JoinVoice? || e.msg.Move?) ==> e.sid in users
  {
    match e.msg
    case Connect => true
    case JoinVoice(_) => e.sid in users
    case Move(_, _, _) => e.sid in users
    case EnterRoom(_, _) => false
    case Disconnect => true
  }

  /** A handler that does not broadcast leaves the registry as it was. */
  lemma SilentEventsChangeNothing(users: map<JsString, Record>, e: Event)
    requires !Broadcasts(users, e)
    ensures Applied(users, e) == users
  {
  }

  /** The registry after a sequence of events, handled one at a time. */
  function Run(users: map<JsString, Record>, events: seq<Event>): map<JsString, Record>
    decreases |events|
  {
    if events == [] then users else Run(Applied(users, events[0]), events[1..])
  }

  /** Only `joinVoice` ever stores a PeerJS id: as long as no client sends it,
      every record keeps `peerId == null`. The clients of public/script.js
      announce their id with `enterRoom` instead, so they never get one. */
  lemma {:induction false} NoJoinVoiceNoPeerIds(users: map<JsString, Record>, events: seq<Event>)
    requires forall k | k in users :: users[k].peerId == None
    requires forall e | e in events :: !e.msg.JoinVoice?
    ensures forall k | k in Run(users, events) :: Run(users, events)[k].peerId == None
    decreases |events|
  {
    if events != [] {
      var next := Applied(users, events[0]);
      assert forall k | k in next :: next[k].peerId == None;
      assert forall e | e in events[1..] :: e in events;
      NoJoinVoiceNoPeerIds(next, events[1..]);
    }
  }

  /** Each record is added by a connect and removed by a disconnect: after a
      run, the ids present are those that were present or connected, minus
      those whose last connect-or-disconnect event was a disconnect. */
  lemma {:induction false} RunKeys(users: map<JsString, Record>, events: seq<Event>, sid: JsString)
    ensures sid in Run(users, events) <==> LastPresence(sid in users, sid, events)
    decreases |events|
  {
    if events != [] {
      var e := events[0];
      RunKeys(Applied(users, e), events[1..], sid);
    }
  }

  /** Presence of `sid` after `events`, starting from `present`: a connect
      of `sid` makes it present and a disconnect makes it absent. */
  predicate LastPresence(present: bool, sid: JsString, events: seq<Event>)
    decreases |events|
  {
    if events == [] then present
    else
      var e := events[0];
      var now := if e.sid != sid then present
                 else if e.msg.Connect? then true
                 else if e.msg.Disconnect? then false
                 else present;
      LastPresence(now, sid, events[1..])
  }

  /** The `users` dictionary of server.js together with a log of what was
      broadcast. */
  class PresenceServer {
    var users: map<JsString, Record>
    /** Every snapshot sent with `io.emit("updateUsers", users)`, oldest first. */
    ghost var broadcasts: seq<map<JsString, Record>>

    /** Every client that has received the latest broadcast holds the
        registry exactly as it is now. */
    ghost predicate Valid()
      reads this
    {
      if broadcasts == [] then users == map[] else broadcasts[|broadcasts| - 1] == users
    }

    constructor ()
      ensures Valid() && users == map[] && broadcasts == []
    {
      users := map[];
      broadcasts := [];
    }

    /** The "connection" handler (server.js:28-35). */
    method OnConnection(sid: JsString)
      requires Valid()
      modifies this
      ensures Valid()
      ensures users == Applied(old(users), Event(sid, Connect))
      ensures users == old(users)[sid := Record(SpawnX, SpawnY, None)]
      ensures broadcasts == old(broadcasts) + [users]
    {
      users := users[sid := Record(SpawnX, SpawnY, None)];
      broadcasts := broadcasts + [users];
    }

    /** The "joinVoice" handler (server.js:38-43). */
    method OnJoinVoice(sid: JsString, peerId: JsString)
      requires Valid()
      modifies this
      ensures Valid()
      ensures users == Applied(old(users), Event(sid, JoinVoice(peerId)))
      ensures sid in old(users) ==> users == old(users)[sid := old(users)[sid].(peerId := Some(peerId))]
      ensures broadcasts == if sid in old(users) then old(broadcasts) + [users] else old(broadcasts)
      ensures sid !in old(users) ==> users == old(users)
    {
      if sid in users {
        users := users[sid := users[sid].(peerId := Some(peerId))];
        broadcasts := broadcasts + [users];
      }
    }

    /** The "move" handler (server.js:46-52). */
    method OnMove(sid: JsString, x: real, y: real, roomId: Option<JsString>)
      requires Valid()
      modifies this
      ensures Valid()
      ensures users == Applied(old(users), Event(sid, Move(x, y, roomId)))
      ensures sid in old(users) ==> users == old(users)[sid := old(users)[sid].(x := x, y := y)]
      ensures broadcasts == if sid in old(users) then old(broadcasts) + [users] else old(broadcasts)
      ensures sid !in old(users) ==> users == old(users)
    {
      if sid in users {
        users := users[sid := users[sid].(x := x, y := y)];
        broadcasts := broadcasts + [users];
      }
    }

    /** The "disconnect" handler (server.js:55-58): it deletes and broadcasts
        even when the id is unknown. */
    method OnDisconnect(sid: JsString)
      requires Valid()
      modifies this
      ensures Valid()
      ensures users == Applied(old(users), Event(sid, Disconnect))
      ensures users == old(users) - {sid}
      ensures broadcasts == old(broadcasts) + [users]
    {
      users := users - {sid};
      broadcasts := broadcasts + [users];
    }

    /** Dispatches one socket event to its handler; an event without a
        handler (`enterRoom`) is dropped. */
    method Handle(e: Event)
      requires Valid()
      modifies this
      ensures Valid()
      ensures users == Applied(old(users), e)
      ensures broadcasts == if Broadcasts(old(users), e) then old(broadcasts) + [users] else old(broadcasts)
    {
      match e.msg
      case Connect => OnConnection(e.sid);
      case JoinVoice(p) => OnJoinVoice(e.sid, p);
      case Move(x, y, room) => OnMove(e.sid, x, y, room);
      case EnterRoom(_, _) =>
      case Disconnect => OnDisconnect(e.sid);
    }
  }
}
