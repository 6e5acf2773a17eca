/**
 * The networked entity registry of EntityNetworkState.tsx: the receptors for
 * the spawnObject, destroyObject and transferAuthorityOfObject world actions,
 * the owner-side handler for authority requests, and the per-frame system
 * that runs both.
 *
 * The reducer is stated once as pure functions over `NetState`; the class
 * `EntityNetworkStateSystem` holds the same state in mutable fields and each
 * of its receptor methods is proved to follow the reducer.
 */
module EntityNetworkState {
  import opened Wrappers

  type EntityUUID = string
  type UserID = string
  type PeerID = string
  type NetworkId = int

  datatype Vector3 = Vector3(x: real, y: real, z: real)
  datatype Quaternion = Quaternion(x: real, y: real, z: real, w: real)

  /** What `new Vector3()` and `new Quaternion()` hold. */
  const ZeroVector := Vector3(0.0, 0.0, 0.0)
  const IdentityRotation := Quaternion(0.0, 0.0, 0.0, 1.0)

  /** World network actions, as they arrive and as the action cache keeps them.
      `from` and `peer` are the action's `$from` and `$peer` tags. */
  datatype Action =
    | SpawnObject(from: UserID, peer: PeerID, entityUUID: EntityUUID, networkId: NetworkId,
                  prefab: string, position: Option<Vector3>, rotation: Option<Quaternion>)
    | DestroyObject(entityUUID: EntityUUID)
    | TransferAuthorityOfObject(ownerId: UserID, networkId: NetworkId, newAuthority: PeerID)
    | OtherAction(kind: string, entityUUID: EntityUUID)

  /** A requestAuthorityOverObject action. */
  datatype AuthorityRequest = AuthorityRequest(ownerId: UserID, networkId: NetworkId, newAuthority: PeerID)

  /** One entry of the EntityNetworkState record. */
  datatype EntityRecord = EntityRecord(ownerId: UserID, networkId: NetworkId, peerId: PeerID, prefab: string,
                                       spawnPosition: Vector3, spawnRotation: Quaternion)

  /** The NetworkObjectComponent of a live entity. */
  datatype NetworkObject = NetworkObject(ownerId: UserID, authorityPeerID: PeerID, networkId: NetworkId)

  /** A live simulation entity: its UUID, its NetworkObjectComponent and the
      pose its TransformComponent was given. */
  datatype LiveEntity = LiveEntity(uuid: EntityUUID, network: NetworkObject, position: Vector3, rotation: Quaternion)

  /** The record map, the live networked entities in query order, and the
      store's cache of actions. */
  datatype NetState = NetState(records: map<EntityUUID, EntityRecord>, entities: seq<LiveEntity>, cached: seq<Action>)

  // ---------------------------------------------------------------------------
  // Lookups

  /** UUIDComponent.getEntityByUUID: the index of the live entity with UUID `u`, or -1. */
  function IndexOfUUID(es: seq<LiveEntity>, u: EntityUUID): (i: int)
    ensures -1 <= i < |es|
    ensures i >= 0 ==> es[i].uuid == u && forall j :: 0 <= j < i ==> es[j].uuid != u
    ensures i == -1 <==> forall j :: 0 <= j < |es| ==> es[j].uuid != u
  {
    if |es| == 0 then -1
    else if es[0].uuid == u then 0
    else
      var k := IndexOfUUID(es[1..], u);
      if k < 0 then -1 else k + 1
  }

  predicate IsNetworkObject(e: LiveEntity, ownerId: UserID, networkId: NetworkId)
  {
    e.network.ownerId == ownerId && e.network.networkId == networkId
  }

  /** NetworkObjectComponent.getNetworkObject: the first live entity, in query
      order, whose network object has this owner and network id; -1 if none. */
  function FindNetworkObject(es: seq<LiveEntity>, ownerId: UserID, networkId: NetworkId): (i: int)
    ensures -1 <= i < |es|
    ensures i >= 0 ==> IsNetworkObject(es[i], ownerId, networkId)
                       && forall j :: 0 <= j < i ==> !IsNetworkObject(es[j], ownerId, networkId)
    ensures i == -1 <==> forall j :: 0 <= j < |es| ==> !IsNetworkObject(es[j], ownerId, networkId)
  {
    if |es| == 0 then -1
    else if IsNetworkObject(es[0], ownerId, networkId) then 0
    else
      var k := FindNetworkObject(es[1..], ownerId, networkId);
      if k < 0 then -1 else k + 1
  }

  // ---------------------------------------------------------------------------
  // The action cache

  predicate IsSpawnOrDestroyOf(c: Action, u: EntityUUID)
  {
    (c.SpawnObject? || c.DestroyObject?) && c.entityUUID == u
  }

  /** The cached actions the destroy receptor selects for removal. */
  function Matching(cached: seq<Action>, u: EntityUUID): (r: seq<Action>)
    ensures forall c :: c in r <==> c in cached && IsSpawnOrDestroyOf(c, u)
  {
    if cached == [] then []
    else (if IsSpawnOrDestroyOf(cached[0], u) then [cached[0]] else []) + Matching(cached[1..], u)
  }

  /** The cache with the spawn and destroy actions for `u` taken out and every
      other action kept, in its original relative order. */
  function Keep(cached: seq<Action>, u: EntityUUID): (r: seq<Action>)
    ensures forall c :: c in r <==> c in cached && !IsSpawnOrDestroyOf(c, u)
    ensures |r| + |Matching(cached, u)| == |cached|
  {
    if cached == [] then []
    else (if IsSpawnOrDestroyOf(cached[0], u) then [] else [cached[0]]) + Keep(cached[1..], u)
  }

  /** Array.prototype.indexOf. */
  function IndexOf(s: seq<Action>, x: Action): (i: int)
    ensures -1 <= i < |s|
    ensures i >= 0 ==> s[i] == x && x !in s[..i]
    ensures i == -1 <==> x !in s
  {
    if |s| == 0 then -1
    else if s[0] == x then 0
    else
      var k := IndexOf(s[1..], x);
      assert k >= 0 ==> s[1..][..k] == s[1..k + 1];
      if k < 0 then -1 else k + 1
  }

  /** `s.splice(i, 1)`; a start of -1 counts from the end and removes the last element. */
  function Splice1(s: seq<Action>, i: int): seq<Action>
    requires -1 <= i < |s|
  {
    if i >= 0 then s[..i] + s[i + 1..]
    else if |s| == 0 then s
    else s[..|s| - 1]
  }

  lemma {:induction false} NoMatchKeepsAll(r: seq<Action>, u: EntityUUID)
    requires Matching(r, u) == []
    ensures Keep(r, u) == r
  {
    if r != [] {
      assert !IsSpawnOrDestroyOf(r[0], u) by { assert r[0] in r; }
      NoMatchKeepsAll(r[1..], u);
      assert r == [r[0]] + r[1..];
    }
  }

  lemma SpliceTail(r: seq<Action>, i: int)
    requires 0 <= i < |r| - 1
    ensures Splice1(r, i + 1) == [r[0]] + Splice1(r[1..], i)
  {
    var a := r[..i + 1] + r[i + 2..];
    var b := [r[0]] + (r[1..][..i] + r[1..][i + 1..]);
    assert |a| == |b|;
    forall k | 0 <= k < |a| ensures a[k] == b[k] {
      if k == 0 {
      } else if k <= i {
        assert a[k] == r[k];
      } else {
        assert a[k] == r[k + 1];
      }
    }
  }

  /** One turn of the destroy receptor's splice loop: the first selected action
      is found by indexOf (never -1) and its removal drops exactly that action. */
  lemma {:induction false} RemoveFirstMatch(r: seq<Action>, u: EntityUUID)
    requires Matching(r, u) != []
    ensures var i := IndexOf(r, Matching(r, u)[0]);
      && 0 <= i
      && Keep(Splice1(r, i), u) == Keep(r, u)
      && Matching(Splice1(r, i), u) == Matching(r, u)[1..]
  {
    var x := Matching(r, u)[0];
    assert IsSpawnOrDestroyOf(x, u) by { assert x in Matching(r, u); }
    if IsSpawnOrDestroyOf(r[0], u) {
      assert Matching(r, u) == [r[0]] + Matching(r[1..], u);
      assert Keep(r, u) == Keep(r[1..], u);
      assert x == r[0];
      assert IndexOf(r, x) == 0;
      assert Splice1(r, 0) == r[1..];
    } else {
      assert Matching(r, u) == Matching(r[1..], u);
      assert Keep(r, u) == [r[0]] + Keep(r[1..], u);
      assert r[0] != x;
      RemoveFirstMatch(r[1..], u);
      var i := IndexOf(r[1..], x);
      assert IndexOf(r, x) == i + 1;
      var t := Splice1(r[1..], i);
      SpliceTail(r, i);
      var r' := [r[0]] + t;
      assert r'[0] == r[0] && r'[1..] == t;
      assert Keep(r', u) == [r[0]] + Keep(t, u);
      assert Matching(r', u) == Matching(t, u);
    }
  }

  /** The destroy receptor's loop: select the spawn/destroy actions for `u`,
      then splice each one out at the index indexOf finds for it. */
  method PruneCachedActions(cached: seq<Action>, u: EntityUUID) returns (r: seq<Action>)
    ensures r == Keep(cached, u)
  {
    var peerCachedActions := Matching(cached, u);
    r := cached;
    for k := 0 to |peerCachedActions|
      invariant Keep(r, u) == Keep(cached, u)
      invariant Matching(r, u) == peerCachedActions[k..]
    {
      RemoveFirstMatch(r, u);
      var i := IndexOf(r, peerCachedActions[k]);
      r := Splice1(r, i);
    }
    NoMatchKeepsAll(r, u);
  }

  // ---------------------------------------------------------------------------
  // The reducer

  function ApplySpawn(s: NetState, a: Action): NetState
    requires a.SpawnObject?
  {
    var position := a.position.GetOr(ZeroVector);
    var rotation := a.rotation.GetOr(IdentityRotation);
    var live := LiveEntity(a.entityUUID, NetworkObject(a.from, a.peer, a.networkId), position, rotation);
    var i := IndexOfUUID(s.entities, a.entityUUID);
    NetState(s.records[a.entityUUID := EntityRecord(a.from, a.networkId, a.peer, a.prefab, position, rotation)],
             if i >= 0 then s.entities[i := live] else s.entities + [live],
             s.cached)
  }

  function ApplyDestroy(s: NetState, a: Action): NetState
    requires a.DestroyObject?
  {
    var i := IndexOfUUID(s.entities, a.entityUUID);
    NetState(s.records - {a.entityUUID},
             if i >= 0 then s.entities[..i] + s.entities[i + 1..] else s.entities,
             Keep(s.cached, a.entityUUID))
  }

  function ApplyTransfer(s: NetState, a: Action): NetState
    requires a.TransferAuthorityOfObject?
  {
    var i := FindNetworkObject(s.entities, a.ownerId, a.networkId);
    if i < 0 then s
    else
      var e := s.entities[i];
      s.(entities := s.entities[i := e.(network := e.network.(authorityPeerID := a.newAuthority))])
  }

  /** receiveActions: the receptor for the action's kind; other kinds are ignored. */
  function Apply(s: NetState, a: Action): NetState
  {
    match a
    case SpawnObject(_, _, _, _, _, _, _) => ApplySpawn(s, a)
    case DestroyObject(_) => ApplyDestroy(s, a)
    case TransferAuthorityOfObject(_, _, _) => ApplyTransfer(s, a)
    case OtherAction(_, _) => s
  }

  /** The queued actions applied in queue order. */
  function ApplyAll(s: NetState, actions: seq<Action>): NetState
  {
    if actions == [] then s
    else Apply(ApplyAll(s, actions[..|actions| - 1]), actions[|actions| - 1])
  }

  /** receiveRequestAuthorityOverObject: only the owner's process answers, and
      only for an object that exists; the answer is one transfer action. */
  function Decide(userID: UserID, es: seq<LiveEntity>, req: AuthorityRequest): (r: Option<Action>)
    ensures r.Some? <==> userID == req.ownerId
                         && exists j :: 0 <= j < |es| && IsNetworkObject(es[j], req.ownerId, req.networkId)
    ensures r.Some? ==> r.value == TransferAuthorityOfObject(req.ownerId, req.networkId, req.newAuthority)
  {
    if userID != req.ownerId then None
    else if FindNetworkObject(es, req.ownerId, req.networkId) < 0 then None
    else Some(TransferAuthorityOfObject(req.ownerId, req.networkId, req.newAuthority))
  }

  /** The actions dispatched for a queue of requests, in queue order. */
  function Dispatches(userID: UserID, es: seq<LiveEntity>, reqs: seq<AuthorityRequest>): seq<Action>
  {
    if reqs == [] then []
    else
      var last := Decide(userID, es, reqs[|reqs| - 1]);
      Dispatches(userID, es, reqs[..|reqs| - 1]) + (if last.Some? then [last.value] else [])
  }

  // ---------------------------------------------------------------------------
  // Properties of the reducer

  /** Spawn records `$from`, `$peer`, the network id and prefab under the UUID;
      the entity's network object takes `$peer` as its authority; a missing pose
      defaults to the zero vector and the identity rotation. */
  lemma SpawnEffect(s: NetState, a: Action)
    requires a.SpawnObject?
    ensures var s' := ApplySpawn(s, a);
      && a.entityUUID in s'.records
      && s'.records[a.entityUUID] == EntityRecord(a.from, a.networkId, a.peer, a.prefab,
                                                  a.position.GetOr(ZeroVector), a.rotation.GetOr(IdentityRotation))
      && (a.position.None? ==> s'.records[a.entityUUID].spawnPosition == Vector3(0.0, 0.0, 0.0))
      && (a.rotation.None? ==> s'.records[a.entityUUID].spawnRotation == Quaternion(0.0, 0.0, 0.0, 1.0))
      && (var i := IndexOfUUID(s'.entities, a.entityUUID);
          i >= 0 && s'.entities[i].network == NetworkObject(a.from, a.peer, a.networkId))
      && (var i := IndexOfUUID(s.entities, a.entityUUID);
          && |s'.entities| == |s.entities| + (if i < 0 then 1 else 0)
          && forall j :: 0 <= j < |s.entities| && j != i ==> s'.entities[j] == s.entities[j])
      && s'.cached == s.cached
      && forall u :: u != a.entityUUID && u in s.records ==> u in s'.records && s'.records[u] == s.records[u]
  {
    var i := IndexOfUUID(s.entities, a.entityUUID);
    var s' := ApplySpawn(s, a);
    if i < 0 {
      assert s'.entities[|s.entities|].uuid == a.entityUUID;
    } else {
      assert s'.entities[i].uuid == a.entityUUID;
    }
  }

  /** After destroying `u` no cached spawn or destroy action for `u` is left,
      every other cached action is, the record for `u` is gone (whether or not a
      live entity existed) and a missing entity removes nothing. */
  lemma DestroyEffect(s: NetState, a: Action)
    requires a.DestroyObject?
    ensures var s' := ApplyDestroy(s, a);
      && (forall c :: c in s'.cached ==> !IsSpawnOrDestroyOf(c, a.entityUUID))
      && (forall c :: c in s.cached && !IsSpawnOrDestroyOf(c, a.entityUUID) ==> c in s'.cached)
      && a.entityUUID !in s'.records
      && s'.records == s.records - {a.entityUUID}
      && (IndexOfUUID(s.entities, a.entityUUID) == -1 ==> s'.entities == s.entities)
      && (IndexOfUUID(s.entities, a.entityUUID) >= 0 ==> |s'.entities| == |s.entities| - 1)
      && (DistinctUUIDs(s.entities) ==> forall j :: 0 <= j < |s'.entities| ==> s'.entities[j].uuid != a.entityUUID)
  {
    var i := IndexOfUUID(s.entities, a.entityUUID);
    if i >= 0 {
      RemoveAtDropsUUID(s.entities, i, ApplyDestroy(s, a).entities);
    }
  }

  /** Destroy leaves every other live entity as it was and in its order. */
  lemma DestroyKeepsOtherEntities(s: NetState, a: Action)
    requires a.DestroyObject?
    ensures var r := ApplyDestroy(s, a).entities;
      var i := IndexOfUUID(s.entities, a.entityUUID);
      i >= 0 ==> forall j :: 0 <= j < |r| ==> r[j] == s.entities[if j < i then j else j + 1]
  {
    var i := IndexOfUUID(s.entities, a.entityUUID);
    if i >= 0 {
      RemoveAtDropsUUID(s.entities, i, ApplyDestroy(s, a).entities);
    }
  }

  /** With distinct UUIDs, destroy leaves exactly the live entities with
      another UUID. */
  lemma DestroyLeavesOthers(s: NetState, a: Action)
    requires a.DestroyObject? && DistinctUUIDs(s.entities)
    ensures forall e :: e in ApplyDestroy(s, a).entities <==> e in s.entities && e.uuid != a.entityUUID
  {
    var i := IndexOfUUID(s.entities, a.entityUUID);
    var r := ApplyDestroy(s, a).entities;
    if i >= 0 {
      assert r == s.entities[..i] + s.entities[i + 1..];
      assert s.entities[i].uuid == a.entityUUID;
      RemoveAtMembers(s.entities, i, r);
    } else {
      assert r == s.entities;
      AbsentUUID(s.entities, a.entityUUID);
    }
  }

  /** No entity of a list without the UUID has it. */
  lemma AbsentUUID(es: seq<LiveEntity>, u: EntityUUID)
    requires forall j :: 0 <= j < |es| ==> es[j].uuid != u
    ensures forall e :: e in es ==> e.uuid != u
  {
    forall e | e in es ensures e.uuid != u {
      var k :| 0 <= k < |es| && es[k] == e;
    }
  }

  /** Removing the entity at `i` keeps the others in their order; with
      distinct UUIDs none with its UUID is left. */
  lemma RemoveAtDropsUUID(es: seq<LiveEntity>, i: int, r: seq<LiveEntity>)
    requires 0 <= i < |es| && r == es[..i] + es[i + 1..]
    ensures |r| == |es| - 1
    ensures forall j :: 0 <= j < |r| ==> r[j] == es[if j < i then j else j + 1]
    ensures DistinctUUIDs(es) ==> forall j :: 0 <= j < |r| ==> r[j].uuid != es[i].uuid
  {
    assert forall j :: 0 <= j < |r| ==> r[j] == (if j < i then es[j] else es[j + 1]);
  }

  /** With distinct UUIDs, removing the entity at `i` leaves exactly the
      entities with another UUID. */
  lemma RemoveAtMembers(es: seq<LiveEntity>, i: int, r: seq<LiveEntity>)
    requires 0 <= i < |es| && r == es[..i] + es[i + 1..] && DistinctUUIDs(es)
    ensures forall e :: e in r <==> e in es && e.uuid != es[i].uuid
  {
    RemoveAtDropsUUID(es, i, r);
    forall e | e in r ensures e in es && e.uuid != es[i].uuid {
      var j :| 0 <= j < |r| && r[j] == e;
      assert es[if j < i then j else j + 1] == e;
    }
    forall e | e in es && e.uuid != es[i].uuid ensures e in r {
      var k :| 0 <= k < |es| && es[k] == e;
      assert r[if k < i then k else k - 1] == e;
    }
  }

  /** A transfer with no matching object changes nothing; otherwise only that
      object's authority peer changes: records, cache and every other field stay. */
  lemma TransferEffect(s: NetState, a: Action)
    requires a.TransferAuthorityOfObject?
    ensures var s' := ApplyTransfer(s, a);
      && s'.records == s.records && s'.cached == s.cached
      && |s'.entities| == |s.entities|
      && ((forall j :: 0 <= j < |s.entities| ==> !IsNetworkObject(s.entities[j], a.ownerId, a.networkId))
            ==> s' == s)
      && forall j :: 0 <= j < |s.entities| ==>
           && s'.entities[j].uuid == s.entities[j].uuid
           && s'.entities[j].network.ownerId == s.entities[j].network.ownerId
           && s'.entities[j].network.networkId == s.entities[j].network.networkId
           && (j != FindNetworkObject(s.entities, a.ownerId, a.networkId) ==> s'.entities[j] == s.entities[j])
           && (j == FindNetworkObject(s.entities, a.ownerId, a.networkId) ==>
                 s'.entities[j].network.authorityPeerID == a.newAuthority)
  {
  }

  /** A spawn followed by a transfer of the same object: the record's `peerId`
      keeps the spawning peer while the network object's authority moves on. */
  lemma {:induction false} TransferLeavesRecordPeer(s: NetState, spawn: Action, p: PeerID)
    requires spawn.SpawnObject? && spawn.peer != p
    requires forall j :: 0 <= j < |s.entities| ==> !IsNetworkObject(s.entities[j], spawn.from, spawn.networkId)
    ensures var s' := ApplyTransfer(ApplySpawn(s, spawn), TransferAuthorityOfObject(spawn.from, spawn.networkId, p));
      && s'.records[spawn.entityUUID].peerId == spawn.peer
      && (var i := IndexOfUUID(s'.entities, spawn.entityUUID);
          i >= 0 && s'.entities[i].network.authorityPeerID == p)
  {
    var s1 := ApplySpawn(s, spawn);
    var i := IndexOfUUID(s.entities, spawn.entityUUID);
    var k := if i >= 0 then i else |s.entities|;
    assert s1.entities[k].uuid == spawn.entityUUID;
    assert IsNetworkObject(s1.entities[k], spawn.from, spawn.networkId);
    assert FindNetworkObject(s1.entities, spawn.from, spawn.networkId) == k;
    var s2 := ApplyTransfer(s1, TransferAuthorityOfObject(spawn.from, spawn.networkId, p));
    assert s2.entities[k].uuid == spawn.entityUUID;
    assert IndexOfUUID(s1.entities, spawn.entityUUID) == k;
    assert IndexOfUUID(s2.entities, spawn.entityUUID) == k by {
      forall j | 0 <= j < k ensures s2.entities[j].uuid != spawn.entityUUID {
        assert s2.entities[j] == s1.entities[j];
      }
    }
  }

  /** The request handler and the transfer receptor together: an owner's
      request for an existing object, once its transfer is applied, gives that
      object the requested authority. */
  lemma RequestThenTransfer(userID: UserID, s: NetState, req: AuthorityRequest)
    requires Decide(userID, s.entities, req).Some?
    ensures var s' := ApplyTransfer(s, Decide(userID, s.entities, req).value);
      var i := FindNetworkObject(s.entities, req.ownerId, req.networkId);
      && 0 <= i < |s'.entities|
      && s'.entities[i].network.authorityPeerID == req.newAuthority
      && s'.records == s.records
  {
  }

  // ---------------------------------------------------------------------------
  // The record/entity bijection

  function UUIDs(es: seq<LiveEntity>): set<EntityUUID>
  {
    set j | 0 <= j < |es| :: es[j].uuid
  }

  predicate DistinctUUIDs(es: seq<LiveEntity>)
  {
    forall i, j :: 0 <= i < j < |es| ==> es[i].uuid != es[j].uuid
  }

  /** Each live entity has a record that agrees with it on owner and network id. */
  predicate Agree(records: map<EntityUUID, EntityRecord>, es: seq<LiveEntity>)
  {
    forall j :: 0 <= j < |es| ==>
      && es[j].uuid in records
      && records[es[j].uuid].ownerId == es[j].network.ownerId
      && records[es[j].uuid].networkId == es[j].network.networkId
  }

  /** One record per live entity and one live entity per record, agreeing on
      owner and network id. */
  predicate Bijective(s: NetState)
  {
    DistinctUUIDs(s.entities) && s.records.Keys == UUIDs(s.entities) && Agree(s.records, s.entities)
  }

  lemma {:induction false} DistinctCount(es: seq<LiveEntity>)
    requires DistinctUUIDs(es)
    ensures |UUIDs(es)| == |es|
  {
    if es != [] {
      var t := es[..|es| - 1];
      DistinctCount(t);
      assert UUIDs(es) == UUIDs(t) + {es[|es| - 1].uuid} by {
        assert es == t + [es[|es| - 1]];
      }
      assert es[|es| - 1].uuid !in UUIDs(t);
    }
  }

  /** Spec-level bijection: as many records as live entities. */
  lemma LiveCountMatchesRecords(s: NetState)
    requires Bijective(s)
    ensures |s.records| == |s.entities|
  {
    DistinctCount(s.entities);
    assert |s.records| == |s.records.Keys|;
  }

  lemma RemoveAtUUIDs(es: seq<LiveEntity>, i: int)
    requires DistinctUUIDs(es) && 0 <= i < |es|
    ensures DistinctUUIDs(es[..i] + es[i + 1..])
    ensures UUIDs(es[..i] + es[i + 1..]) == UUIDs(es) - {es[i].uuid}
  {
    var r := es[..i] + es[i + 1..];
    assert forall j :: 0 <= j < |r| ==> r[j] == (if j < i then es[j] else es[j + 1]);
    forall x | x in UUIDs(es) - {es[i].uuid} ensures x in UUIDs(r) {
      var j :| 0 <= j < |es| && es[j].uuid == x;
      assert j != i;
      if j < i { assert r[j] == es[j]; } else { assert r[j - 1] == es[j]; }
    }
  }

  lemma AppendKeepsBijective(records: map<EntityUUID, EntityRecord>, es: seq<LiveEntity>,
                             live: LiveEntity, rec: EntityRecord)
    requires DistinctUUIDs(es) && records.Keys == UUIDs(es) && Agree(records, es)
    requires rec.ownerId == live.network.ownerId && rec.networkId == live.network.networkId
    requires IndexOfUUID(es, live.uuid) == -1
    ensures var es', rs := es + [live], records[live.uuid := rec];
      DistinctUUIDs(es') && rs.Keys == UUIDs(es') && Agree(rs, es')
  {
    var u := live.uuid;
    var es' := es + [live];
    assert u !in UUIDs(es);
    forall x | x in UUIDs(es') ensures x in UUIDs(es) + {u} {
      var j :| 0 <= j < |es'| && es'[j].uuid == x;
      if j < |es| { assert es[j].uuid == x; }
    }
    forall x | x in UUIDs(es) + {u} ensures x in UUIDs(es') {
      if x == u { assert es'[|es|].uuid == x; }
      else { var j :| 0 <= j < |es| && es[j].uuid == x; assert es'[j].uuid == x; }
    }
    AgreeAfterInsert(records, es, es', live, rec);
  }

  lemma ReplaceKeepsBijective(records: map<EntityUUID, EntityRecord>, es: seq<LiveEntity>,
                              live: LiveEntity, rec: EntityRecord, i: int)
    requires DistinctUUIDs(es) && records.Keys == UUIDs(es) && Agree(records, es)
    requires rec.ownerId == live.network.ownerId && rec.networkId == live.network.networkId
    requires 0 <= i < |es| && es[i].uuid == live.uuid
    ensures var es', rs := es[i := live], records[live.uuid := rec];
      DistinctUUIDs(es') && rs.Keys == UUIDs(es') && Agree(rs, es')
  {
    var es' := es[i := live];
    forall x | x in UUIDs(es) ensures x in UUIDs(es') {
      var j :| 0 <= j < |es| && es[j].uuid == x;
      assert es'[j].uuid == x;
    }
    assert UUIDs(es') == UUIDs(es);
    AgreeAfterInsert(records, es, es', live, rec);
  }

  lemma AgreeAfterInsert(records: map<EntityUUID, EntityRecord>, es: seq<LiveEntity>, es': seq<LiveEntity>,
                         live: LiveEntity, rec: EntityRecord)
    requires Agree(records, es)
    requires rec.ownerId == live.network.ownerId && rec.networkId == live.network.networkId
    requires forall j :: 0 <= j < |es'| ==> es'[j] == live || (j < |es| && es'[j] == es[j] && es[j].uuid != live.uuid)
    ensures Agree(records[live.uuid := rec], es')
  {
    var rs := records[live.uuid := rec];
    forall j | 0 <= j < |es'|
      ensures es'[j].uuid in rs
      ensures rs[es'[j].uuid].ownerId == es'[j].network.ownerId
      ensures rs[es'[j].uuid].networkId == es'[j].network.networkId
    {
      if es'[j] != live {
        assert es'[j] == es[j];
        assert es[j].uuid in records;
      }
    }
  }

  lemma SpawnKeepsBijective(s: NetState, a: Action)
    requires Bijective(s) && a.SpawnObject?
    ensures Bijective(ApplySpawn(s, a))
  {
    var position := a.position.GetOr(ZeroVector);
    var rotation := a.rotation.GetOr(IdentityRotation);
    var live := LiveEntity(a.entityUUID, NetworkObject(a.from, a.peer, a.networkId), position, rotation);
    var rec := EntityRecord(a.from, a.networkId, a.peer, a.prefab, position, rotation);
    var i := IndexOfUUID(s.entities, a.entityUUID);
    if i >= 0 {
      ReplaceKeepsBijective(s.records, s.entities, live, rec, i);
    } else {
      AppendKeepsBijective(s.records, s.entities, live, rec);
    }
  }

  lemma RemoveKeepsBijective(records: map<EntityUUID, EntityRecord>, es: seq<LiveEntity>, i: int)
    requires DistinctUUIDs(es) && records.Keys == UUIDs(es) && Agree(records, es)
    requires 0 <= i < |es|
    ensures var r := es[..i] + es[i + 1..];
      var rs := records - {es[i].uuid};
      DistinctUUIDs(r) && rs.Keys == UUIDs(r) && Agree(rs, r)
  {
    RemoveAtUUIDs(es, i);
    var r := es[..i] + es[i + 1..];
    var rs := records - {es[i].uuid};
    forall j | 0 <= j < |r|
      ensures r[j].uuid in rs
      ensures rs[r[j].uuid].ownerId == r[j].network.ownerId
      ensures rs[r[j].uuid].networkId == r[j].network.networkId
    {
      var j' := if j < i then j else j + 1;
      assert r[j] == es[j'];
    }
  }

  lemma DestroyKeepsBijective(s: NetState, a: Action)
    requires Bijective(s) && a.DestroyObject?
    ensures Bijective(ApplyDestroy(s, a))
  {
    var u := a.entityUUID;
    var i := IndexOfUUID(s.entities, u);
    var s' := ApplyDestroy(s, a);
    if i >= 0 {
      RemoveKeepsBijective(s.records, s.entities, i);
      assert s'.entities == s.entities[..i] + s.entities[i + 1..];
      assert s'.records == s.records - {s.entities[i].uuid};
    } else {
      assert u !in UUIDs(s.entities);
      assert s'.records == s.records;
      assert s'.entities == s.entities;
    }
  }

  lemma TransferKeepsBijective(s: NetState, a: Action)
    requires Bijective(s) && a.TransferAuthorityOfObject?
    ensures Bijective(ApplyTransfer(s, a))
  {
    var s' := ApplyTransfer(s, a);
    assert UUIDs(s'.entities) == UUIDs(s.entities) by {
      forall x | x in UUIDs(s.entities) ensures x in UUIDs(s'.entities) {
        var j :| 0 <= j < |s.entities| && s.entities[j].uuid == x;
        assert s'.entities[j].uuid == x;
      }
    }
  }

  /** Every receptor keeps the bijection between records and live entities. */
  lemma ApplyKeepsBijective(s: NetState, a: Action)
    requires Bijective(s)
    ensures Bijective(Apply(s, a))
  {
    match a
    case SpawnObject(_, _, _, _, _, _, _) => SpawnKeepsBijective(s, a);
    case DestroyObject(_) => DestroyKeepsBijective(s, a);
    case TransferAuthorityOfObject(_, _, _) => TransferKeepsBijective(s, a);
    case OtherAction(_, _) =>
  }

  /** For any sequence of actions applied in order, the bijection holds after each. */
  lemma {:induction false} ApplyAllKeepsBijective(s: NetState, actions: seq<Action>)
    requires Bijective(s)
    ensures Bijective(ApplyAll(s, actions))
  {
    if actions != [] {
      ApplyAllKeepsBijective(s, actions[..|actions| - 1]);
      ApplyKeepsBijective(ApplyAll(s, actions[..|actions| - 1]), actions[|actions| - 1]);
    }
  }

  /** A request on a process whose user is not the owner dispatches nothing;
      from the owner it dispatches exactly one transfer iff the object exists. */
  lemma {:induction false} DispatchesOnlyFromOwner(userID: UserID, es: seq<LiveEntity>, reqs: seq<AuthorityRequest>)
    requires forall k :: 0 <= k < |reqs| ==> reqs[k].ownerId != userID
    ensures Dispatches(userID, es, reqs) == []
  {
    if reqs != [] {
      DispatchesOnlyFromOwner(userID, es, reqs[..|reqs| - 1]);
    }
  }

  /** The authority requests of a frame see the state after that frame's queued
      actions: an object spawned by the local user earlier in the same frame can
      already be handed over. */
  lemma SameFrameSpawnThenRequest(userID: UserID, s: NetState, spawn: Action, p: PeerID)
    requires spawn.SpawnObject? && spawn.from == userID
    ensures Dispatches(userID, ApplyAll(s, [spawn]).entities, [AuthorityRequest(userID, spawn.networkId, p)])
            == [TransferAuthorityOfObject(userID, spawn.networkId, p)]
  {
    var s1 := ApplyAll(s, [spawn]);
    assert [spawn][..0] == [];
    assert ApplyAll(s, [spawn]) == Apply(ApplyAll(s, []), spawn);
    assert s1 == ApplySpawn(s, spawn);
    var i := IndexOfUUID(s.entities, spawn.entityUUID);
    var k := if i >= 0 then i else |s.entities|;
    assert IsNetworkObject(s1.entities[k], userID, spawn.networkId);
    var reqs := [AuthorityRequest(userID, spawn.networkId, p)];
    assert reqs[..0] == [];
  }

  /** The end-to-end scenario: spawn e1 for userA with network id 7; userB's
      process ignores a request for peerB; userA's process grants it and the
      transfer sets the authority; destroying e1 leaves no record and no cached
      spawn or destroy for it. */
  lemma AuthorityScenario()
    ensures
      var spawn := SpawnObject("userA", "peerA", "e1", 7, "prefab", None, None);
      var s1 := ApplySpawn(NetState(map[], [], [spawn]), spawn);
      var req := AuthorityRequest("userA", 7, "peerB");
      && Decide("userB", s1.entities, req) == None
      && Decide("userA", s1.entities, req) == Some(TransferAuthorityOfObject("userA", 7, "peerB"))
      && var s2 := ApplyTransfer(s1, TransferAuthorityOfObject("userA", 7, "peerB"));
         && s2.entities[0].network.authorityPeerID == "peerB"
         && s2.records["e1"].peerId == "peerA"
         && var s3 := ApplyDestroy(s2, DestroyObject("e1"));
            && "e1" !in s3.records && s3.entities == [] && s3.cached == []
  {
    var spawn := SpawnObject("userA", "peerA", "e1", 7, "prefab", None, None);
    var s1 := ApplySpawn(NetState(map[], [], [spawn]), spawn);
    assert s1.entities == [LiveEntity("e1", NetworkObject("userA", "peerA", 7), ZeroVector, IdentityRotation)];
    var s2 := ApplyTransfer(s1, TransferAuthorityOfObject("userA", 7, "peerB"));
    assert IndexOfUUID(s2.entities, "e1") == 0;
    assert Keep([spawn], "e1") == [] by {
      assert IsSpawnOrDestroyOf(spawn, "e1");
      assert [spawn][1..] == [];
    }
  }

  // ---------------------------------------------------------------------------
  // The system, with its state held in place

  class EntityNetworkStateSystem {
    /** Engine.instance.userID of this process. */
    const userID: UserID
    var records: map<EntityUUID, EntityRecord>
    var entities: seq<LiveEntity>
    /** Engine.instance.store.actions.cached */
    var cached: seq<Action>
    /** The actions this process has handed to dispatchAction. */
    var dispatched: seq<Action>

    function State(): NetState
      reads this
    {
      NetState(records, entities, cached)
    }

    constructor (userID: UserID, cached: seq<Action>)
      ensures this.userID == userID && this.cached == cached
      ensures records == map[] && entities == [] && dispatched == []
    {
      this.userID := userID;
      this.cached := cached;
      records := map[];
      entities := [];
      dispatched := [];
    }

    method ReceiveSpawnObject(a: Action)
      requires a.SpawnObject?
      modifies this
      ensures State() == ApplySpawn(old(State()), a)
      ensures dispatched == old(dispatched)
    {
      var i := IndexOfUUID(entities, a.entityUUID);
      var position := ZeroVector;
      if a.position.Some? { position := a.position.value; }
      var rotation := IdentityRotation;
      if a.rotation.Some? { rotation := a.rotation.value; }
      var live := LiveEntity(a.entityUUID, NetworkObject(a.from, a.peer, a.networkId), position, rotation);
      if i >= 0 {
        entities := entities[i := live];
      } else {
        entities := entities + [live];
      }
      records := records[a.entityUUID := EntityRecord(a.from, a.networkId, a.peer, a.prefab, position, rotation)];
    }

    method ReceiveDestroyObject(a: Action)
      requires a.DestroyObject?
      modifies this
      ensures State() == ApplyDestroy(old(State()), a)
      ensures dispatched == old(dispatched)
    {
      cached := PruneCachedActions(cached, a.entityUUID);
      records := records - {a.entityUUID};
      var i := IndexOfUUID(entities, a.entityUUID);
      if i < 0 {
        return;
      }
      entities := entities[..i] + entities[i + 1..];
    }

    method ReceiveTransferAuthorityOfObject(a: Action)
      requires a.TransferAuthorityOfObject?
      modifies this
      ensures State() == ApplyTransfer(old(State()), a)
      ensures dispatched == old(dispatched)
    {
      var i := FindNetworkObject(entities, a.ownerId, a.networkId);
      if i < 0 {
        return;
      }
      var e := entities[i];
      entities := entities[i := e.(network := e.network.(authorityPeerID := a.newAuthority))];
    }

    method ReceiveAction(a: Action)
      modifies this
      ensures State() == Apply(old(State()), a)
      ensures dispatched == old(dispatched)
    {
      match a
      case SpawnObject(_, _, _, _, _, _, _) => ReceiveSpawnObject(a);
      case DestroyObject(_) => ReceiveDestroyObject(a);
      case TransferAuthorityOfObject(_, _, _) => ReceiveTransferAuthorityOfObject(a);
      case OtherAction(_, _) =>
    }

    method ReceiveRequestAuthorityOverObject(req: AuthorityRequest)
      modifies this
      ensures State() == old(State())
      ensures req.ownerId != userID ==> dispatched == old(dispatched)
      ensures dispatched == old(dispatched) + Dispatches(userID, entities, [req])
    {
      assert [req][..0] == [];
      if userID != req.ownerId {
        return;
      }
      var i := FindNetworkObject(entities, req.ownerId, req.networkId);
      if i < 0 {
        return;
      }
      dispatched := dispatched + [TransferAuthorityOfObject(req.ownerId, req.networkId, req.newAuthority)];
    }

    /** One frame: every queued state action, in order, then every queued
        authority request, in order. */
    method Execute(actions: seq<Action>, requests: seq<AuthorityRequest>)
      modifies this
      ensures State() == ApplyAll(old(State()), actions)
      ensures dispatched == old(dispatched) + Dispatches(userID, entities, requests)
    {
      for k := 0 to |actions|
        invariant State() == ApplyAll(old(State()), actions[..k])
        invariant dispatched == old(dispatched)
      {
        assert actions[..k + 1][..k] == actions[..k];
        ReceiveAction(actions[k]);
      }
      assert actions[..|actions|] == actions;
      for k := 0 to |requests|
        invariant State() == ApplyAll(old(State()), actions)
        invariant dispatched == old(dispatched) + Dispatches(userID, entities, requests[..k])
      {
        assert requests[..k + 1][..k] == requests[..k];
        ghost var before := dispatched;
        ReceiveRequestAuthorityOverObject(requests[k]);
        assert [requests[k]][..0] == [];
      }
      assert requests[..|requests|] == requests;
    }
  }
}
