/** The older client of public/public.js: three vertical bands of the map,
    a connect loop that only ever adds calls (keyed by socket id), and
    arrow-key movement in fixed steps. */
module LegacyClient {
  import opened JsCore
  import Registry

  /** The three entries of `ZONES`, each a vertical band from `x` of width `w`. */
  datatype Zone = Work | Living | Meeting {
    function X(): real {
      match this
      case Work => 0.0
      case Living => 400.0
      case Meeting => 800.0
    }
    function W(): real {
      match this
      case Work => 400.0
      case Living => 400.0
      case Meeting => 1200.0
    }
    /** `mic`: only the work band is silent. */
    predicate Mic() {
      !Work?
    }
    /** Position of the band from left to right. */
    function Rank(): nat {
      match this
      case Work => 0
      case Living => 1
      case Meeting => 2
    }
  }

  /** `getZone`: the first band whose right edge lies beyond `x`; everything
      from 800 on, however far, is the meeting band. */
  function GetZone(x: real): (z: Zone)
    ensures z == Work <==> x < 400.0
    ensures z == Living <==> 400.0 <= x < 800.0
    ensures z == Meeting <==> x >= 800.0
    ensures z.Mic() <==> x >= 400.0
  {
    if x < Work.X() + Work.W() then Work
    else if x < Living.X() + Living.W() then Living
    else Meeting
  }

  /** Moving right never moves to a band further left. */
  lemma GetZoneMonotone(x1: real, x2: real)
    requires x1 <= x2
    ensures GetZone(x1).Rank() <= GetZone(x2).Rank()
  {
  }

  /** An arrow key of the keydown handler; any other key is `OtherKey`. */
  datatype Key = ArrowUp | ArrowDown | ArrowLeft | ArrowRight | OtherKey

  const StepSize: real := 15.0

  /** The position after one keydown: exactly one step along the key's axis
      in the key's direction, with no clamping; other keys leave it. */
  function Stepped(key: Key, x: real, y: real): (p: (real, real))
    ensures key == OtherKey ==> p == (x, y)
    ensures key == ArrowUp ==> p.0 == x && p.1 < y
    ensures key == ArrowDown ==> p.0 == x && p.1 > y
    ensures key == ArrowLeft ==> p.0 < x && p.1 == y
    ensures key == ArrowRight ==> p.0 > x && p.1 == y
    ensures (p.0 - x) * (p.0 - x) + (p.1 - y) * (p.1 - y) == if key == OtherKey then 0.0 else StepSize * StepSize
  {
    match key
    case ArrowUp => (x, y - StepSize)
    case ArrowDown => (x, y + StepSize)
    case ArrowLeft => (x - StepSize, y)
    case ArrowRight => (x + StepSize, y)
    case OtherKey => (x, y)
  }

  /** The loop of `connectToUsers` would call the entry `id`: someone else,
      with a PeerJS id, standing in a band with the microphone on, and not
      called yet. */
  function Callable(myId: Option<JsString>, peers: map<JsString, MediaCall>, id: JsString, u: Registry.Record): (c: bool)
    ensures c ==> u.peerId.Some? && u.peerId.value != [] && u.x >= 400.0 && id !in peers
    ensures myId == Some(id) ==> !c
  {
    Some(id) != myId && Truthy(u.peerId) && GetZone(u.x).Mic() && id !in peers
  }

  /** The calls one run of `connectToUsers` adds, keyed by socket id. */
  function NewCalls(myId: Option<JsString>, users: map<JsString, Registry.Record>, peers: map<JsString, MediaCall>): (r: map<JsString, MediaCall>)
    ensures r.Keys !! peers.Keys
    ensures myId.Some? ==> myId.value !in r
    ensures forall id | id in r :: id in users && users[id].x >= 400.0 && Truthy(users[id].peerId) && r[id] == MediaCall(users[id].peerId.value)
    ensures forall id | id in users && Callable(myId, peers, id, users[id]) :: id in r
  {
    map id | id in users && Callable(myId, peers, id, users[id]) :: MediaCall(users[id].peerId.value)
  }

  /** A second run on the same snapshot adds nothing. */
  lemma ConnectIdempotent(myId: Option<JsString>, users: map<JsString, Registry.Record>, peers: map<JsString, MediaCall>)
    ensures NewCalls(myId, users, peers + NewCalls(myId, users, peers)) == map[]
  {
    var once := peers + NewCalls(myId, users, peers);
    forall id | id in users
      ensures !Callable(myId, once, id, users[id])
    {
      if Callable(myId, peers, id, users[id]) {
        assert id in NewCalls(myId, users, peers);
      }
    }
    assert NewCalls(myId, users, once).Keys == {};
  }

  /** A snapshot arriving while the avatar stands at `x` (keydowns between
      snapshots may have moved it). */
  datatype Update = Update(x: real, snapshot: map<JsString, Registry.Record>)

  /** `peers` after `connectToUsers` has run on each update in turn. The
      own socket id is never added, whatever the updates. */
  function Runs(myId: Option<JsString>, updates: seq<Update>, peers: map<JsString, MediaCall>): (r: map<JsString, MediaCall>)
    ensures forall id | id in r && id !in peers :: Some(id) != myId
    decreases |updates|
  {
    if updates == [] then peers
    else
      var u := updates[0];
      var next := if GetZone(u.x).Mic() then peers + NewCalls(myId, u.snapshot, peers) else peers;
      Runs(myId, updates[1..], next)
  }

  /** `peers` only grows: no call is ever removed or replaced, whatever
      snapshots arrive and wherever the avatar stands (nothing in
      public/public.js deletes an entry). */
  lemma {:induction false} PeersOnlyGrow(myId: Option<JsString>, updates: seq<Update>, peers: map<JsString, MediaCall>)
    ensures var r := Runs(myId, updates, peers);
      peers.Keys <= r.Keys && forall id | id in peers :: r[id] == peers[id]
    decreases |updates|
  {
    if updates != [] {
      var u := updates[0];
      var next := if GetZone(u.x).Mic() then peers + NewCalls(myId, u.snapshot, peers) else peers;
      PeersOnlyGrow(myId, updates[1..], next);
    }
  }

  /** While the avatar stays in the work band nothing is ever called,
      whatever snapshots arrive. */
  lemma {:induction false} WorkBandNeverCalls(myId: Option<JsString>, updates: seq<Update>, peers: map<JsString, MediaCall>)
    requires forall i | 0 <= i < |updates| :: updates[i].x < 400.0
    ensures Runs(myId, updates, peers) == peers
    decreases |updates|
  {
    if updates != [] {
      WorkBandNeverCalls(myId, updates[1..], peers);
    }
  }

  /** The entries of `added` whose key the loop has already visited. */
  function Visited(added: map<JsString, MediaCall>, todo: set<JsString>): (v: map<JsString, MediaCall>)
    ensures v.Keys <= added.Keys
  {
    map id | id in added && id !in todo :: added[id]
  }

  /** One turn of the loop of `connectToUsers`: the entry `id`, not visited
      yet, is callable exactly when the whole run adds it. */
  lemma VisitedStep(myId: Option<JsString>, users: map<JsString, Registry.Record>, peers: map<JsString, MediaCall>,
                    todo: set<JsString>, id: JsString)
    requires id in todo && todo <= users.Keys
    ensures var added := NewCalls(myId, users, peers);
      var now := peers + Visited(added, todo);
      (Callable(myId, now, id, users[id]) <==> id in added) &&
      (id in added ==> added[id] == MediaCall(users[id].peerId.value) &&
                       now[id := added[id]] == peers + Visited(added, todo - {id})) &&
      (id !in added ==> now == peers + Visited(added, todo - {id}))
  {
    var added := NewCalls(myId, users, peers);
    if id in added {
      assert Visited(added, todo - {id}) == Visited(added, todo)[id := added[id]];
    } else {
      assert Visited(added, todo - {id}) == Visited(added, todo);
    }
  }

  /** A call placed by the loop: the callee's socket id and PeerJS id. */
  datatype Placed = Placed(socketId: JsString, peer: JsString)

  /** The calls of `added` as log entries, one per key. */
  function Placements(added: map<JsString, MediaCall>): set<Placed> {
    set id | id in added :: Placed(id, added[id].peer)
  }

  /** `log` records each call of `added` exactly once, and nothing else. */
  ghost predicate LogsExactly(log: seq<Placed>, added: map<JsString, MediaCall>) {
    multiset(log) == multiset(Placements(added))
  }

  /** A log that records `added` exactly has one entry per added call, and
      no socket id appears in it twice. */
  lemma LogsOnce(log: seq<Placed>, added: map<JsString, MediaCall>)
    requires LogsExactly(log, added)
    ensures |log| == |added|
    ensures forall i, j | 0 <= i < j < |log| :: log[i].socketId != log[j].socketId
  {
    PlacementsCardinality(added);
    assert |log| == |multiset(log)|;
    forall i, j | 0 <= i < j < |log|
      ensures log[i] != log[j]
    {
      assert log == log[..j] + [log[j]] + log[j + 1..];
      assert log[i] in multiset(log[..j]);
      assert multiset(log)[log[j]] >= multiset(log[..j])[log[j]] + 1;
    }
    forall i, j | 0 <= i < j < |log|
      ensures log[i].socketId != log[j].socketId
    {
      assert log[i] in multiset(log) && log[j] in multiset(log);
      assert log[i] in Placements(added) && log[j] in Placements(added);
      assert log[i] == Placed(log[i].socketId, added[log[i].socketId].peer);
      assert log[j] == Placed(log[j].socketId, added[log[j].socketId].peer);
    }
  }

  /** Adding a key adds exactly its own log entry. */
  lemma PlacementsInsert(m: map<JsString, MediaCall>, k: JsString, v: MediaCall)
    requires k !in m
    ensures Placements(m[k := v]) == Placements(m) + {Placed(k, v.peer)}
    ensures Placed(k, v.peer) !in Placements(m)
  {
    var m' := m[k := v];
    forall x | x in Placements(m')
      ensures x in Placements(m) + {Placed(k, v.peer)}
    {
      var j :| j in m' && x == Placed(j, m'[j].peer);
      if j != k {
        assert x == Placed(j, m[j].peer);
      }
    }
    forall x | x in Placements(m)
      ensures x in Placements(m') && x.socketId != k
    {
      var j :| j in m && x == Placed(j, m[j].peer);
      assert m'[j] == m[j];
    }
    assert Placed(k, v.peer) == Placed(k, m'[k].peer);
  }

  /** One log entry per key. */
  lemma {:induction false} PlacementsCardinality(added: map<JsString, MediaCall>)
    ensures |Placements(added)| == |added|
    decreases |added|
  {
    if added != map[] {
      var k :| k in added;
      var rest := added - {k};
      PlacementsCardinality(rest);
      assert added == rest[k := added[k]];
      PlacementsInsert(rest, k, added[k]);
      assert |added| == |rest| + 1;
    }
  }

  /** Before the loop nothing is visited and nothing logged. */
  lemma LogStart(added: map<JsString, MediaCall>, todo: set<JsString>)
    requires added.Keys <= todo
    ensures Visited(added, todo) == map[]
    ensures LogsExactly([], Visited(added, todo))
  {
    assert Visited(added, todo).Keys == {};
    assert Placements(map[]) == {};
  }

  /** Visiting `id` logs its call exactly when `added` holds it. */
  lemma LogStep(placed: seq<Placed>, added: map<JsString, MediaCall>, todo: set<JsString>, id: JsString)
    requires LogsExactly(placed, Visited(added, todo)) && id in todo
    ensures LogsExactly(if id in added then placed + [Placed(id, added[id].peer)] else placed, Visited(added, todo - {id}))
  {
    if id in added {
      var v := Visited(added, todo);
      var p := Placed(id, added[id].peer);
      assert Visited(added, todo - {id}) == v[id := added[id]];
      assert id !in v;
      PlacementsInsert(v, id, added[id]);
      assert multiset(Placements(v) + {p}) == multiset(Placements(v)) + multiset{p};
    } else {
      assert Visited(added, todo - {id}) == Visited(added, todo);
    }
  }

  /** A client of public/public.js after `startConnection` has run. */
  class Client {
    var myId: Option<JsString>
    var users: map<JsString, Registry.Record>
    /** Outgoing calls, keyed by the callee's socket id. */
    var peers: map<JsString, MediaCall>
    var myX: real
    var myY: real
    /** The `enabled` flag of the outgoing audio track. */
    var micOn: bool
    ghost var calls: seq<Placed>
    ghost var sent: seq<Registry.Inbound>

    /** The globals as declared (public/public.js:20-26), after the
        `checkZone` that ends `startConnection`: the spawn point lies in the
        work band, so the track starts disabled. */
    constructor ()
      ensures myId == None && users == map[] && peers == map[]
      ensures myX == 50.0 && myY == 200.0 && !micOn
      ensures calls == [] && sent == []
    {
      myId, users, peers := None, map[], map[];
      myX, myY, micOn := 50.0, 200.0, true;
      calls, sent := [], [];
      new;
      CheckZone();
    }

    /** `socket.on('connect')`. */
    method OnSocketConnect(id: JsString)
      modifies this`myId
      ensures myId == Some(id)
    {
      myId := Some(id);
    }

    /** `myPeer.on('open')`: the own PeerJS id is announced with `joinVoice`. */
    method OnPeerOpen(id: JsString)
      modifies this`sent
      ensures sent == old(sent) + [Registry.JoinVoice(id)]
    {
      sent := sent + [Registry.JoinVoice(id)];
    }

    /** `socket.on('updateUsers')`: store the snapshot, then run `connectToUsers`. */
    method OnUpdateUsers(data: map<JsString, Registry.Record>)
      modifies this`users, this`peers, this`calls
      ensures users == data
      ensures peers == if GetZone(myX).Mic() then old(peers) + NewCalls(myId, data, old(peers)) else old(peers)
      ensures |calls| >= |old(calls)| && calls[..|old(calls)|] == old(calls)
      ensures LogsExactly(calls[|old(calls)|..], if GetZone(myX).Mic() then NewCalls(myId, data, old(peers)) else map[])
    {
      users := data;
      ConnectToUsers();
    }

    /** `connectToUsers` (public/public.js:112-128): nothing at all in the
        work band; elsewhere every callable entry is called once and stored
        under its socket id. */
    method ConnectToUsers()
      modifies this`peers, this`calls
      ensures !GetZone(myX).Mic() ==> peers == old(peers) && calls == old(calls)
      ensures GetZone(myX).Mic() ==> peers == old(peers) + NewCalls(myId, users, old(peers))
      ensures |calls| >= |old(calls)| && calls[..|old(calls)|] == old(calls)
      ensures LogsExactly(calls[|old(calls)|..], if GetZone(myX).Mic() then NewCalls(myId, users, old(peers)) else map[])
    {
      var myZone := GetZone(myX);
      if !myZone.Mic() {
        assert calls[|old(calls)|..] == [];
        assert LogsExactly([], map[]);
        return;
      }
      ghost var added := NewCalls(myId, users, peers);
      ghost var placed := CallEach(added);
      assert calls[|old(calls)|..] == placed;
      assert LogsExactly(calls[|old(calls)|..], added);
    }

    /** The `forEach` loop of `connectToUsers`, given the calls it will add. */
    method CallEach(ghost added: map<JsString, MediaCall>) returns (ghost placed: seq<Placed>)
      requires added == NewCalls(myId, users, peers)
      modifies this`peers, this`calls
      ensures peers == old(peers) + added
      ensures calls == old(calls) + placed
      ensures LogsExactly(placed, added)
      ensures |placed| == |added|
      ensures forall i, j | 0 <= i < j < |placed| :: placed[i].socketId != placed[j].socketId
    {
      placed := [];
      var todo := users.Keys;
      LogStart(added, todo);
      while todo != {}
        invariant todo <= users.Keys
        invariant peers == old(peers) + Visited(added, todo)
        invariant calls == old(calls) + placed
        invariant LogsExactly(placed, Visited(added, todo))
        decreases todo
      {
        var id :| id in todo;
        placed := Visit(id, old(peers), old(calls), added, todo, placed);
        todo := todo - {id};
      }
      assert Visited(added, {}) == added;
      LogsOnce(placed, added);
    }

    /** One turn of the loop: visit `id` and extend the ghost log by its
        call, if any. `base` and `log0` are `peers` and `calls` before the loop. */
    method Visit(id: JsString, ghost base: map<JsString, MediaCall>, ghost log0: seq<Placed>,
                 ghost added: map<JsString, MediaCall>, ghost todo: set<JsString>, ghost placed: seq<Placed>)
      returns (ghost placed': seq<Placed>)
      requires added == NewCalls(myId, users, base) && id in todo && todo <= users.Keys
      requires peers == base + Visited(added, todo)
      requires calls == log0 + placed && LogsExactly(placed, Visited(added, todo))
      modifies this`peers, this`calls
      ensures peers == base + Visited(added, todo - {id})
      ensures calls == log0 + placed' && LogsExactly(placed', Visited(added, todo - {id}))
    {
      VisitedStep(myId, users, base, todo, id);
      LogStep(placed, added, todo, id);
      VisitEntry(id);
      if id in added {
        AppendAssociative(log0, placed, [Placed(id, added[id].peer)]);
      }
      placed' := if id in added then placed + [Placed(id, added[id].peer)] else placed;
    }

    /** The `forEach` callback of `connectToUsers` for the entry `id`. */
    method VisitEntry(id: JsString)
      requires id in users
      modifies this`peers, this`calls
      ensures Callable(myId, old(peers), id, users[id]) ==>
        peers == old(peers)[id := MediaCall(users[id].peerId.value)] &&
        calls == old(calls) + [Placed(id, users[id].peerId.value)]
      ensures !Callable(myId, old(peers), id, users[id]) ==> peers == old(peers) && calls == old(calls)
    {
      if Some(id) == myId {
        return;
      }
      var u := users[id];
      var userZone := GetZone(u.x);
      if Truthy(u.peerId) && userZone.Mic() && id !in peers {
        peers := peers[id := MediaCall(u.peerId.value)];
        calls := calls + [Placed(id, u.peerId.value)];
      }
    }

    /** `checkZone`: the track is enabled exactly outside the work band. */
    method CheckZone()
      modifies this`micOn
      ensures micOn == GetZone(myX).Mic()
      ensures micOn <==> myX >= 400.0
    {
      var zone := GetZone(myX);
      micOn := zone.Mic();
    }

    /** The keydown handler (public/public.js:137-146): step, emit the new
        position (without a room id), re-check the zone. */
    method KeyDown(key: Key)
      modifies this`myX, this`myY, this`sent, this`micOn
      ensures (myX, myY) == Stepped(key, old(myX), old(myY))
      ensures sent == old(sent) + [Registry.Move(myX, myY, None)]
      ensures micOn == GetZone(myX).Mic()
    {
      var step := StepSize;
      if key == ArrowUp { myY := myY - step; }
      if key == ArrowDown { myY := myY + step; }
      if key == ArrowLeft { myX := myX - step; }
      if key == ArrowRight { myX := myX + step; }
      sent := sent + [Registry.Move(myX, myY, None)];
      CheckZone();
    }
  }
}
