/** The session rules of `connectToUsers` in public/script.js: which peers a
    client should be in a call with, the tie-break that decides which side
    dials, and what one pass over the `users` snapshot does to the `peers`
    dictionary (keyed by PeerJS id). */
module Sessions {
  import opened JsCore
  import opened Office
  import Registry

  /** The globals of the client that the reconcile loop reads: socket id
      `myId`, PeerJS id `myPeer.id` (null until PeerJS opens), position and
      meeting room. */
  datatype Self = Self(socketId: JsString, peerId: Option<JsString>, x: real, y: real, roomId: Option<JsString>)

  /** The snapshot entry other clients see for `me`. */
  function EntryOf(me: Self): User {
    User(me.x, me.y, me.peerId, me.roomId)
  }

  /** What the loop body does for one entry. */
  datatype Action = Skip | Dial(peer: JsString) | Hangup(peer: JsString)

  /** What the ghost log of calls records: a `myPeer.call` or a `close()`. */
  datatype CallEvent = Dialled(peer: JsString) | Closed(peer: JsString)

  /** The `peers` dictionary after a pass, and the calls it made. */
  datatype Tick = Tick(peers: map<JsString, MediaCall>, events: seq<CallEvent>)

  /** Entry `id` is someone else who has announced a PeerJS id (public/script.js:181-183). */
  function Eligible(me: Self, id: JsString, u: User): (e: bool)
    ensures id == me.socketId ==> !e
    ensures u.peerId == None || u.peerId == Some([]) ==> !e
    ensures e ==> u.peerId.Some?
  {
    id != me.socketId && Truthy(u.peerId)
  }

  /** `shouldConnect` (public/script.js:185-196). In a meeting room only the
      same room counts, wherever either avatar stands; on the open floor the
      peer must be in no room and neither avatar in the silent booth.
      Distance is not consulted. */
  function Warranted(me: Self, u: User): (w: bool)
    ensures Truthy(me.roomId) ==> (w <==> u.roomId == me.roomId)
    ensures !Truthy(me.roomId) ==>
      (w <==> !Truthy(u.roomId) && !InSilentBooth(me.x, me.y) && !InSilentBooth(u.x, u.y))
  {
    if Truthy(me.roomId) then u.roomId == me.roomId
    else !Truthy(u.roomId) && CurrentZone(me.x, me.y).AllowMic() && !InSilentBooth(u.x, u.y)
  }

  /** The tie-break `myPeer.id > u.peerId`: this side dials `peer` only when
      its own PeerJS id is greater. While the own id is still null nothing is dialled. */
  function Initiates(me: Self, peer: JsString): (r: bool)
    ensures me.peerId.None? ==> !r
    ensures r ==> me.peerId != Some(peer)
  {
    me.peerId.Some? && StringLess(peer, me.peerId.value)
  }

  /** The loop body of `connectToUsers` for the entry `id` (public/script.js:181-212). */
  function Decide(me: Self, peers: map<JsString, MediaCall>, id: JsString, u: User): (a: Action)
    ensures a.Dial? ==> Eligible(me, id, u) && Warranted(me, u) && a.peer == u.peerId.value &&
                        a.peer !in peers && Initiates(me, a.peer)
    ensures a.Hangup? ==> Eligible(me, id, u) && !Warranted(me, u) && a.peer == u.peerId.value &&
                          a.peer in peers
    ensures a.Skip? && Eligible(me, id, u) ==>
      if Warranted(me, u) then u.peerId.value in peers || !Initiates(me, u.peerId.value)
      else u.peerId.value !in peers
  {
    if !Eligible(me, id, u) then Skip
    else
      var p := u.peerId.value;
      if Warranted(me, u) then
        if p !in peers && Initiates(me, p) then Dial(p) else Skip
      else if p in peers then Hangup(p)
      else Skip
  }

  /** The effect of one action on `peers`: a dial adds exactly its own key,
      a hang-up deletes exactly its own key, and doing nothing keeps `peers`. */
  function Apply(peers: map<JsString, MediaCall>, a: Action): (r: map<JsString, MediaCall>)
    ensures a.Dial? ==> r.Keys == peers.Keys + {a.peer} && r[a.peer] == MediaCall(a.peer)
    ensures a.Hangup? ==> r.Keys == peers.Keys - {a.peer}
    ensures a.Skip? ==> r == peers
    ensures forall k | k in r && !(a.Dial? && k == a.peer) :: k in peers && r[k] == peers[k]
  {
    match a
    case Skip => peers
    case Dial(p) => peers[p := MediaCall(p)]
    case Hangup(p) => peers - {p}
  }

  function EventOf(a: Action): seq<CallEvent> {
    match a
    case Skip => []
    case Dial(p) => [Dialled(p)]
    case Hangup(p) => [Closed(p)]
  }

  /** One run of `connectToUsers`: the loop body applied to the entries in
      `order`, the order `Object.keys(users)` lists them in. */
  function Pass(me: Self, users: map<JsString, User>, order: seq<JsString>, peers: map<JsString, MediaCall>): (t: Tick)
    requires forall id | id in order :: id in users
    ensures |t.events| <= |order|
    ensures forall k | k in t.peers && k !in peers :: Dialled(k) in t.events
    ensures forall k | k in peers && k !in t.peers :: Closed(k) in t.events
    decreases |order|
  {
    if order == [] then Tick(peers, [])
    else
      var a := Decide(me, peers, order[0], users[order[0]]);
      var rest := Pass(me, users, order[1..], Apply(peers, a));
      Tick(rest.peers, EventOf(a) + rest.events)
  }

  /** One step of the pass, taken at position `i` of `order`. */
  lemma PassUnfold(me: Self, users: map<JsString, User>, order: seq<JsString>, i: nat, peers: map<JsString, MediaCall>)
    requires forall id | id in order :: id in users
    requires i < |order|
    ensures var a := Decide(me, peers, order[i], users[order[i]]);
      var rest := Pass(me, users, order[i + 1..], Apply(peers, a));
      Pass(me, users, order[i..], peers) == Tick(rest.peers, EventOf(a) + rest.events)
  {
    assert order[i..][1..] == order[i + 1..];
  }

  /** `order` lists each key of `users` exactly once. */
  predicate KeyOrder(order: seq<JsString>, users: map<JsString, User>) {
    (forall id | id in order :: id in users) &&
    (forall id | id in users :: id in order) &&
    (forall i, j | 0 <= i < j < |order| :: order[i] != order[j])
  }

  /** No two other users have announced the same PeerJS id. */
  predicate UniqueClaims(me: Self, users: map<JsString, User>) {
    forall id1, id2 | id1 in users && id2 in users && id1 != id2 &&
                      Eligible(me, id1, users[id1]) && Eligible(me, id2, users[id2]) ::
      users[id1].peerId.value != users[id2].peerId.value
  }

  /** Every entry of `peers` is a call this side placed: it is keyed by the
      callee's id and that id is smaller than the own PeerJS id. */
  predicate OnlyInitiated(myPeerId: Option<JsString>, peers: map<JsString, MediaCall>) {
    forall k | k in peers :: peers[k] == MediaCall(k) && myPeerId.Some? && StringLess(k, myPeerId.value)
  }

  // ---------------------------------------------------------------------
  // The declarative reference: which keys a pass keeps, adds and removes.

  /** PeerJS ids of the entries among `ids` that warrant a call. */
  function Wanted(me: Self, users: map<JsString, User>, ids: set<JsString>): set<JsString>
    requires ids <= users.Keys
  {
    set id | id in ids && Eligible(me, id, users[id]) && Warranted(me, users[id]) :: users[id].peerId.value
  }

  /** PeerJS ids of the entries among `ids` that do not warrant a call. */
  function Unwanted(me: Self, users: map<JsString, User>, ids: set<JsString>): set<JsString>
    requires ids <= users.Keys
  {
    set id | id in ids && Eligible(me, id, users[id]) && !Warranted(me, users[id]) :: users[id].peerId.value
  }

  /** `peers` after reconciling the entries `ids`: unwarranted calls are gone,
      warranted ones are kept, and a missing warranted call is added exactly
      when this side wins the tie-break. */
  function Target(me: Self, users: map<JsString, User>, ids: set<JsString>, peers: map<JsString, MediaCall>): map<JsString, MediaCall>
    requires ids <= users.Keys
  {
    (peers - Unwanted(me, users, ids)) +
    (map k | k in Wanted(me, users, ids) && k !in peers && Initiates(me, k) :: MediaCall(k))
  }

  /** Membership in the target, key by key. */
  lemma TargetAt(me: Self, users: map<JsString, User>, ids: set<JsString>, peers: map<JsString, MediaCall>, j: JsString)
    requires ids <= users.Keys
    ensures var t := Target(me, users, ids, peers);
      (j in t <==> (j in peers && j !in Unwanted(me, users, ids)) ||
                   (j in Wanted(me, users, ids) && j !in peers && Initiates(me, j))) &&
      (j in t && j in peers ==> t[j] == peers[j]) &&
      (j in t && j !in peers ==> t[j] == MediaCall(j))
  {
  }

  /** Adding the entry `id` to the entries considered adds at most its own
      PeerJS id to the wanted and unwanted sets. */
  lemma ClaimsInsert(me: Self, users: map<JsString, User>, id: JsString, rest: set<JsString>, j: JsString)
    requires id in users && rest <= users.Keys
    ensures j in Wanted(me, users, {id} + rest) <==>
      j in Wanted(me, users, rest) ||
      (Eligible(me, id, users[id]) && Warranted(me, users[id]) && j == users[id].peerId.value)
    ensures j in Unwanted(me, users, {id} + rest) <==>
      j in Unwanted(me, users, rest) ||
      (Eligible(me, id, users[id]) && !Warranted(me, users[id]) && j == users[id].peerId.value)
  {
    if j in Wanted(me, users, {id} + rest) {
      var x :| x in {id} + rest && Eligible(me, x, users[x]) && Warranted(me, users[x]) && users[x].peerId.value == j;
      if x != id {
        assert j in Wanted(me, users, rest);
      }
    }
    if j in Unwanted(me, users, {id} + rest) {
      var x :| x in {id} + rest && Eligible(me, x, users[x]) && !Warranted(me, users[x]) && users[x].peerId.value == j;
      if x != id {
        assert j in Unwanted(me, users, rest);
      }
    }
  }

  /** Under unique claims, the PeerJS id of an entry outside `rest` is claimed by nobody in `rest`. */
  lemma UnclaimedByOthers(me: Self, users: map<JsString, User>, id: JsString, rest: set<JsString>)
    requires id in users && rest <= users.Keys && id !in rest
    requires UniqueClaims(me, users)
    requires Eligible(me, id, users[id])
    ensures users[id].peerId.value !in Wanted(me, users, rest)
    ensures users[id].peerId.value !in Unwanted(me, users, rest)
  {
    var k := users[id].peerId.value;
    forall x | x in rest && Eligible(me, x, users[x])
      ensures users[x].peerId.value != k
    {
      assert x != id;
    }
  }

  /** Reconciling one more entry first and the rest afterwards gives the
      target of all of them, provided no two entries share a PeerJS id. */
  lemma TargetStep(me: Self, users: map<JsString, User>, id: JsString, rest: set<JsString>, peers: map<JsString, MediaCall>)
    requires id in users && rest <= users.Keys && id !in rest
    requires UniqueClaims(me, users)
    ensures Target(me, users, rest, Apply(peers, Decide(me, peers, id, users[id]))) == Target(me, users, {id} + rest, peers)
  {
    var u := users[id];
    var all := {id} + rest;
    var p1 := Apply(peers, Decide(me, peers, id, u));
    var L := Target(me, users, rest, p1);
    var R := Target(me, users, all, peers);
    if Eligible(me, id, u) {
      UnclaimedByOthers(me, users, id, rest);
    }
    forall j
      ensures (j in L <==> j in R) && (j in L ==> L[j] == R[j])
    {
      TargetAt(me, users, rest, p1, j);
      TargetAt(me, users, all, peers, j);
      ClaimsInsert(me, users, id, rest, j);
    }
    assert L == R;
  }

  /** The entries listed by `order`. */
  function Listed(order: seq<JsString>): set<JsString> {
    set id | id in order
  }

  /** Splitting off the head of a duplicate-free order. */
  lemma ListedSplit(order: seq<JsString>)
    requires order != []
    requires forall i, j | 0 <= i < j < |order| :: order[i] != order[j]
    ensures Listed(order) == {order[0]} + Listed(order[1..])
    ensures order[0] !in order[1..]
    ensures forall i, j | 0 <= i < j < |order[1..]| :: order[1..][i] != order[1..][j]
  {
    assert order == [order[0]] + order[1..];
    forall i | 0 <= i < |order[1..]| ensures order[1..][i] != order[0] {
      assert order[1..][i] == order[i + 1];
    }
    forall i, j | 0 <= i < j < |order[1..]| ensures order[1..][i] != order[1..][j] {
      assert order[1..][i] == order[i + 1] && order[1..][j] == order[j + 1];
    }
  }

  /** One pass equals the declarative target, whatever order the keys come
      in, when no two other users share a PeerJS id. */
  lemma {:induction false} PassMatchesTarget(me: Self, users: map<JsString, User>, order: seq<JsString>, peers: map<JsString, MediaCall>)
    requires forall id | id in order :: id in users
    requires forall i, j | 0 <= i < j < |order| :: order[i] != order[j]
    requires UniqueClaims(me, users)
    ensures Listed(order) <= users.Keys
    ensures Pass(me, users, order, peers).peers == Target(me, users, Listed(order), peers)
    decreases |order|
  {
    if order == [] {
      assert Listed(order) == {};
      assert Wanted(me, users, {}) == {} && Unwanted(me, users, {}) == {};
      assert Target(me, users, {}, peers) == peers;
    } else {
      var id := order[0];
      var rest := order[1..];
      var p1 := Apply(peers, Decide(me, peers, id, users[id]));
      ListedSplit(order);
      assert Pass(me, users, order, peers).peers == Pass(me, users, rest, p1).peers;
      PassMatchesTarget(me, users, rest, p1);
      TargetStep(me, users, id, Listed(rest), peers);
    }
  }

  /** With every key listed once, a pass reaches the target of the whole snapshot. */
  lemma PassReachesTarget(me: Self, users: map<JsString, User>, order: seq<JsString>, peers: map<JsString, MediaCall>)
    requires KeyOrder(order, users)
    requires UniqueClaims(me, users)
    ensures Pass(me, users, order, peers).peers == Target(me, users, users.Keys, peers)
  {
    PassMatchesTarget(me, users, order, peers);
    assert Listed(order) == users.Keys;
  }

  /** A pass in which every entry's decision is to do nothing changes nothing and calls no one. */
  lemma {:induction false} QuietPass(me: Self, users: map<JsString, User>, order: seq<JsString>, peers: map<JsString, MediaCall>)
    requires forall id | id in order :: id in users
    requires forall id | id in order :: Decide(me, peers, id, users[id]) == Skip
    ensures Pass(me, users, order, peers) == Tick(peers, [])
    decreases |order|
  {
    if order != [] {
      QuietPass(me, users, order[1..], peers);
    }
  }

  /** Reconciling is idempotent: a second run with the same snapshot, room
      and position places no call and closes none (public/script.js:198-212). */
  lemma ReconcileIdempotent(me: Self, users: map<JsString, User>, order: seq<JsString>, peers: map<JsString, MediaCall>)
    requires KeyOrder(order, users)
    requires UniqueClaims(me, users)
    ensures var first := Pass(me, users, order, peers);
      Pass(me, users, order, first.peers) == Tick(first.peers, [])
  {
    var first := Pass(me, users, order, peers);
    PassMatchesTarget(me, users, order, peers);
    assert Listed(order) == users.Keys;
    var t := first.peers;
    forall id | id in order
      ensures Decide(me, t, id, users[id]) == Skip
    {
      var u := users[id];
      if Eligible(me, id, u) {
        var k := u.peerId.value;
        if Warranted(me, u) {
          assert k in Wanted(me, users, users.Keys);
          assert k !in Unwanted(me, users, users.Keys);
        } else {
          assert k in Unwanted(me, users, users.Keys);
          assert k !in Wanted(me, users, users.Keys);
        }
      }
    }
    QuietPass(me, users, order, t);
  }

  /** Without unique claims the reconcile does not settle: two entries with
      the same PeerJS id "p", one warranted and one inside a meeting room,
      make every run dial "p" and then close that call again. */
  lemma SharedClaimFlaps()
    ensures var me := Self([0x6D], Some([0x7A]), 100.0, 900.0, None);
      var p: JsString := [0x70];
      var users := map[[0x61] := User(100.0, 900.0, Some(p), None),
                       [0x62] := User(100.0, 900.0, Some(p), Some([0x41]))];
      Pass(me, users, [[0x61], [0x62]], map[]) == Tick(map[], [Dialled(p), Closed(p)])
  {
    var p: JsString := [0x70];
    assert StringLess(p, [0x7A]);
  }

  // ---------------------------------------------------------------------
  // What a pass never does.

  /** A key that no other user with a PeerJS id claims is left exactly as it
      was: the own entry and entries without `peerId` are never touched. */
  lemma {:induction false} PassFrame(me: Self, users: map<JsString, User>, order: seq<JsString>, peers: map<JsString, MediaCall>, k: JsString)
    requires forall id | id in order :: id in users
    requires forall id | id in order && Eligible(me, id, users[id]) :: users[id].peerId.value != k
    ensures var t := Pass(me, users, order, peers);
      (k in t.peers <==> k in peers) && (k in peers ==> t.peers[k] == peers[k]) &&
      Dialled(k) !in t.events && Closed(k) !in t.events
    decreases |order|
  {
    if order != [] {
      var p1 := Apply(peers, Decide(me, peers, order[0], users[order[0]]));
      PassFrame(me, users, order[1..], p1, k);
    }
  }

  /** The call log of a pass is exact when no two other users share a PeerJS
      id: a dialled key was absent before and is present after, and a closed
      key was present before and is absent after. */
  lemma {:induction false} PassEventsMatchPeers(me: Self, users: map<JsString, User>, order: seq<JsString>, peers: map<JsString, MediaCall>)
    requires forall id | id in order :: id in users
    requires forall i, j | 0 <= i < j < |order| :: order[i] != order[j]
    requires UniqueClaims(me, users)
    ensures var t := Pass(me, users, order, peers);
      (forall k | Dialled(k) in t.events :: k !in peers && k in t.peers) &&
      (forall k | Closed(k) in t.events :: k in peers && k !in t.peers)
    decreases |order|
  {
    if order != [] {
      var id := order[0];
      var a := Decide(me, peers, id, users[id]);
      var p1 := Apply(peers, a);
      ListedSplit(order);
      PassEventsMatchPeers(me, users, order[1..], p1);
      var rest := Pass(me, users, order[1..], p1);
      if !a.Skip? {
        forall x | x in order[1..] && Eligible(me, x, users[x])
          ensures users[x].peerId.value != a.peer
        {
          assert x != id;
        }
        PassFrame(me, users, order[1..], p1, a.peer);
      }
      assert Pass(me, users, order, peers) == Tick(rest.peers, EventOf(a) + rest.events);
    }
  }

  /** Every call a pass places goes to a peer whose id is smaller than the
      own PeerJS id, so never to the own id. */
  lemma {:induction false} PassDialsOnlyInitiated(me: Self, users: map<JsString, User>, order: seq<JsString>, peers: map<JsString, MediaCall>)
    requires forall id | id in order :: id in users
    ensures forall e | e in Pass(me, users, order, peers).events && e.Dialled? ::
      Initiates(me, e.peer) && me.peerId != Some(e.peer)
    decreases |order|
  {
    if order != [] {
      var a := Decide(me, peers, order[0], users[order[0]]);
      PassDialsOnlyInitiated(me, users, order[1..], Apply(peers, a));
      if a.Dial? {
        StringLessIrreflexive(a.peer);
      }
    }
  }

  /** The invariant "every entry of `peers` is a call this side placed" survives a pass. */
  lemma {:induction false} PassKeepsOnlyInitiated(me: Self, users: map<JsString, User>, order: seq<JsString>, peers: map<JsString, MediaCall>)
    requires forall id | id in order :: id in users
    requires OnlyInitiated(me.peerId, peers)
    ensures OnlyInitiated(me.peerId, Pass(me, users, order, peers).peers)
    decreases |order|
  {
    if order != [] {
      var a := Decide(me, peers, order[0], users[order[0]]);
      assert OnlyInitiated(me.peerId, Apply(peers, a));
      PassKeepsOnlyInitiated(me, users, order[1..], Apply(peers, a));
    }
  }

  /** When no entry warrants a call, a pass places none and hangs up every
      call to a listed peer; it never adds a key. */
  lemma {:induction false} NoWarrantHangsUpAll(me: Self, users: map<JsString, User>, order: seq<JsString>, peers: map<JsString, MediaCall>)
    requires forall id | id in order :: id in users
    requires forall id | id in order :: !Warranted(me, users[id])
    ensures var t := Pass(me, users, order, peers);
      t.peers.Keys <= peers.Keys &&
      (forall e | e in t.events :: e.Closed?) &&
      (forall id | id in order && Eligible(me, id, users[id]) :: users[id].peerId.value !in t.peers)
    decreases |order|
  {
    if order != [] {
      var id := order[0];
      var p1 := Apply(peers, Decide(me, peers, id, users[id]));
      NoWarrantHangsUpAll(me, users, order[1..], p1);
    }
  }

  /** Standing in the silent booth on the open floor hangs up every call to
      a listed peer and places none. */
  lemma SilentBoothHangsUpAll(me: Self, users: map<JsString, User>, order: seq<JsString>, peers: map<JsString, MediaCall>)
    requires forall id | id in order :: id in users
    requires !Truthy(me.roomId) && InSilentBooth(me.x, me.y)
    ensures var t := Pass(me, users, order, peers);
      (forall e | e in t.events :: e.Closed?) &&
      (forall id | id in order && Eligible(me, id, users[id]) :: users[id].peerId.value !in t.peers)
  {
    NoWarrantHangsUpAll(me, users, order, peers);
  }

  // ---------------------------------------------------------------------
  // Both sides of a pair.

  /** The decision is mutual: `a` warrants a call with `b` exactly when `b`
      warrants one with `a`, each judging with its own room and position. */
  lemma WarrantIsMutual(a: Self, b: Self)
    ensures Warranted(a, EntryOf(b)) == Warranted(b, EntryOf(a))
  {
  }

  /** The tie-break picks exactly one dialler for two distinct PeerJS ids. */
  lemma ExactlyOneSideInitiates(a: Self, b: Self)
    requires a.peerId.Some? && b.peerId.Some? && a.peerId != b.peerId
    ensures Initiates(a, b.peerId.value) != Initiates(b, a.peerId.value)
  {
    StringLessTotal(a.peerId.value, b.peerId.value);
    StringLessAsymmetric(a.peerId.value, b.peerId.value);
  }

  /** Two clients never both hold an outgoing call to each other: at most
      one call object exists per pair. */
  lemma NoDuplicateSessions(pa: JsString, peersA: map<JsString, MediaCall>, pb: JsString, peersB: map<JsString, MediaCall>)
    requires OnlyInitiated(Some(pa), peersA) && OnlyInitiated(Some(pb), peersB)
    ensures !(pb in peersA && pa in peersB)
  {
    StringLessAsymmetric(pa, pb);
  }

  /** Within one round, two clients never both dial each other. */
  lemma AtMostOneSideDials(a: Self, usersA: map<JsString, User>, orderA: seq<JsString>, peersA: map<JsString, MediaCall>,
                           b: Self, usersB: map<JsString, User>, orderB: seq<JsString>, peersB: map<JsString, MediaCall>)
    requires forall id | id in orderA :: id in usersA
    requires forall id | id in orderB :: id in usersB
    requires a.peerId.Some? && b.peerId.Some?
    ensures !(Dialled(b.peerId.value) in Pass(a, usersA, orderA, peersA).events &&
              Dialled(a.peerId.value) in Pass(b, usersB, orderB, peersB).events)
  {
    PassDialsOnlyInitiated(a, usersA, orderA, peersA);
    PassDialsOnlyInitiated(b, usersB, orderB, peersB);
    StringLessAsymmetric(a.peerId.value, b.peerId.value);
  }

  // ---------------------------------------------------------------------
  // Snapshots sent by the registry of server.js.

  /** A registry snapshot as public/script.js reads it: `roomId` is undefined
      in every entry, since the server never stores one. */
  function Received(snapshot: map<JsString, Registry.Record>): (users: map<JsString, User>)
    ensures users.Keys == snapshot.Keys
    ensures forall id | id in users ::
      users[id].roomId == None && users[id].peerId == snapshot[id].peerId &&
      users[id].x == snapshot[id].x && users[id].y == snapshot[id].y
  {
    map id | id in snapshot :: User(snapshot[id].x, snapshot[id].y, snapshot[id].peerId, None)
  }

  /** With the server shown, a client inside a meeting room is never
      warranted a call, so the reconcile loop hangs up every call. */
  lemma InRoomWithServerSnapshotHangsUpAll(me: Self, snapshot: map<JsString, Registry.Record>, order: seq<JsString>, peers: map<JsString, MediaCall>)
    requires forall id | id in order :: id in snapshot
    requires Truthy(me.roomId)
    ensures var users := Received(snapshot); var t := Pass(me, users, order, peers);
      (forall e | e in t.events :: e.Closed?) &&
      (forall id | id in order && Eligible(me, id, users[id]) :: users[id].peerId.value !in t.peers)
  {
    NoWarrantHangsUpAll(me, Received(snapshot), order, peers);
  }

  /** With the server shown, no room ever looks occupied. */
  lemma ServerSnapshotRoomsLookEmpty(snapshot: map<JsString, Registry.Record>, room: Room)
    ensures Occupancy(Received(snapshot), room.id) == 0
    ensures room.capacity > 0 ==> HasSeat(Received(snapshot), room)
  {
    var users := Received(snapshot);
    assert (set id | id in users && users[id].roomId == Some(room.id)) == {};
  }

  /** When no entry of the snapshot carries a PeerJS id (as with clients that
      announce it only through `enterRoom`), a pass changes nothing and calls no one. */
  lemma NoPeerIdsNoCalls(me: Self, snapshot: map<JsString, Registry.Record>, order: seq<JsString>, peers: map<JsString, MediaCall>)
    requires forall id | id in order :: id in snapshot
    requires forall id | id in snapshot :: snapshot[id].peerId == None
    ensures Pass(me, Received(snapshot), order, peers) == Tick(peers, [])
  {
    QuietPass(me, Received(snapshot), order, peers);
  }
}
