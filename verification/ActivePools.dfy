/** The pools in memory: each is fetched from the database when it is needed, changed, and given up
    when nobody is connected to it. */
module ActivePools {
  import opened Ids
  import opened Membership

  /** A pool in memory: its list of users, and the ids of the connected nodes. */
  datatype ActivePool = ActivePool(users: Record, nodes: set<Id>)

  datatype Server = Server(active: map<Id, ActivePool>, stored: map<Id, Record>)

  const EMPTY_SERVER := Server(map[], map[])

  /** A request; `ok` is whether its write to the database, if it comes to one, succeeds. */
  datatype Call =
    | CreatePool(poolID: Id, owner: UserRecord, ok: bool)
    | UserExistsInPool(poolID: Id, userID: Id)
    | JoinPool(poolID: Id, user: UserRecord, ok: bool)
    | LeavePool(poolID: Id, userID: Id, deviceID: Id, ok: bool)
    | ConnectToPool(poolID: Id, nodeID: Id, userID: Id, deviceID: Id, ok: bool)
    | DisconnectFromPool(poolID: Id, nodeID: Id)

  /** The pool is in memory, or can be made from its record. */
  predicate CanFetch(s: Server, poolID: Id) {
    poolID in s.active || poolID in s.stored
  }

  function FetchPool(s: Server, poolID: Id): ActivePool
    requires CanFetch(s, poolID)
  {
    if poolID in s.active then s.active[poolID] else ActivePool(s.stored[poolID], {})
  }

  /** After an action the pool stays in memory only if somebody is connected. */
  function Settle(s: Server, poolID: Id, pool: ActivePool, stored: map<Id, Record>): Server {
    Server(if pool.nodes == {} then s.active - {poolID} else s.active[poolID := pool], stored)
  }

  /** A list of users that was written, or was to be written. */
  function Written(s: Server, poolID: Id, users: Record, ok: bool): map<Id, Record> {
    if ok then Store(s.stored, poolID, users) else s.stored
  }

  function Perform(s: Server, c: Call): Server {
    if c.CreatePool? then
      if c.ok then s.(stored := Store(s.stored, c.poolID, [c.owner])) else s
    else if c.DisconnectFromPool? then
      if c.poolID !in s.active then s
      else
        var pool := s.active[c.poolID];
        Settle(s, c.poolID, pool.(nodes := pool.nodes - {c.nodeID}), s.stored)
    else if !CanFetch(s, c.poolID) then s
    else
      var pool := FetchPool(s, c.poolID);
      match c
      case UserExistsInPool(_, _) => Settle(s, c.poolID, pool, s.stored)
      case JoinPool(_, user, ok) =>
        var users := UserAdded(pool.users, user, ok);
        Settle(s, c.poolID, pool.(users := users), Written(s, c.poolID, users, ok && !Has(pool.users, user.userID)))
      case LeavePool(_, userID, deviceID, ok) =>
        var users := DeviceRemoved(pool.users, userID, deviceID, ok);
        Settle(s, c.poolID, pool.(users := users),
          Written(s, c.poolID, users, ok && HasDevice(pool.users, userID, deviceID)))
      case ConnectToPool(_, nodeID, userID, deviceID, ok) =>
        var users := DeviceAdded(pool.users, userID, deviceID, ok);
        var done := Has(pool.users, userID) && (ok || HasDevice(pool.users, userID, deviceID));
        Settle(s, c.poolID, ActivePool(users, if done then pool.nodes + {nodeID} else pool.nodes),
          Written(s, c.poolID, users, ok && Has(pool.users, userID) && !HasDevice(pool.users, userID, deviceID)))
  }

  // ---- What a call does not do ----

  /** The node is connected to this pool. */
  predicate IsLive(s: Server, poolID: Id, nodeID: Id) {
    poolID in s.active && nodeID in s.active[poolID].nodes
  }

  /** Nodes come by a granted connection and go by being disconnected, and by nothing else: fetching a pool and
      giving it up costs nobody the connection. */
  lemma WhoIsLive(s: Server, c: Call, poolID: Id, k: Id)
    ensures IsLive(Perform(s, c), poolID, k) <==>
      || (IsLive(s, poolID, k) && !(c == DisconnectFromPool(poolID, k)))
      || (&& c.ConnectToPool? && c.poolID == poolID && c.nodeID == k && CanFetch(s, poolID)
          && Has(FetchPool(s, poolID).users, c.userID)
          && (c.ok || HasDevice(FetchPool(s, poolID).users, c.userID, c.deviceID)))
  {
    hide UserAdded, DeviceRemoved, DeviceAdded, Store, Has, HasDevice;
    if !c.CreatePool? && c.poolID == poolID && CanFetch(s, poolID) && (c.DisconnectFromPool? ==> poolID in s.active) {
      var nodes := FetchPool(s, poolID).nodes;
      if c.ConnectToPool? {
        assert forall j :: j in nodes + {c.nodeID} <==> j in nodes || j == c.nodeID;
      } else if c.DisconnectFromPool? {
        assert k in nodes - {c.nodeID} <==> k in nodes && k != c.nodeID;
      }
      assert k in nodes ==> nodes != {};
    }
  }

  lemma WhoIsLeft(s: Server, c: Call)
    requires c.DisconnectFromPool?
    ensures forall k :: IsLive(Perform(s, c), c.poolID, k) <==> IsLive(s, c.poolID, k) && k != c.nodeID
    ensures Perform(s, c).stored == s.stored
  {
    forall k
      ensures IsLive(Perform(s, c), c.poolID, k) <==> IsLive(s, c.poolID, k) && k != c.nodeID
    {
      WhoIsLive(s, c, c.poolID, k);
    }
    hide IsLive;
  }

  /** A call is about one pool; what is in memory and on record of all others stays as it is. */
  lemma OtherPoolsStay(s: Server, c: Call, id: Id)
    requires id != c.poolID
    ensures var t := Perform(s, c);
      && (id in t.active <==> id in s.active) && (id in s.active ==> t.active[id] == s.active[id])
      && (id in t.stored <==> id in s.stored) && (id in s.stored ==> t.stored[id] == s.stored[id])
  {
    hide UserAdded, DeviceRemoved, DeviceAdded, Has, HasDevice;
  }

  /** A node that comes with a listed device and goes again leaves no trace. */
  lemma ComeAndGo(s: Server, poolID: Id, nodeID: Id, userID: Id, deviceID: Id, ok: bool)
    requires Consistent(s) && CanFetch(s, poolID) && !IsLive(s, poolID, nodeID)
    requires HasDevice(FetchPool(s, poolID).users, userID, deviceID)
    ensures var t := Perform(s, ConnectToPool(poolID, nodeID, userID, deviceID, ok));
      Perform(t, DisconnectFromPool(poolID, nodeID)) == s
  {
    var t := Perform(s, ConnectToPool(poolID, nodeID, userID, deviceID, ok));
    var users, nodes := FetchPool(s, poolID).users, FetchPool(s, poolID).nodes;
    assert Has(users, userID) && DeviceAdded(users, userID, deviceID, ok) == users;
    assert nodeID in nodes + {nodeID} && nodes + {nodeID} - {nodeID} == nodes;
    hide HasDevice, Has, DeviceAdded, Store;
    assert t.active[poolID] == ActivePool(users, nodes + {nodeID});
    if poolID in s.active {
      assert nodes != {} && s.active[poolID := s.active[poolID]] == s.active;
    } else {
      assert s.active[poolID := t.active[poolID]] - {poolID} == s.active;
    }
  }

  // ---- What an answer means ----

  /** A connection is granted only to a device of a member of a pool that exists, and always to a device that is
      listed already; then the node is in the pool, with everybody who was there, and the device is listed. */
  lemma ConnectionGranted(s: Server, c: Call)
    requires c.ConnectToPool?
    requires c.ok ==> CanFetch(s, c.poolID) && Has(FetchPool(s, c.poolID).users, c.userID)
    requires CanFetch(s, c.poolID) && HasDevice(FetchPool(s, c.poolID).users, c.userID, c.deviceID) ==> c.ok
    ensures var t := Perform(s, c);
      && (c.ok ==>
            && c.poolID in t.active && t.active[c.poolID].nodes == FetchPool(s, c.poolID).nodes + {c.nodeID}
            && HasDevice(t.active[c.poolID].users, c.userID, c.deviceID))
      && (!c.ok ==> t.stored == s.stored)
      && (!c.ok && c.poolID in t.active ==>
            CanFetch(s, c.poolID) && t.active[c.poolID] == FetchPool(s, c.poolID))
  {
    if CanFetch(s, c.poolID) {
      var users := FetchPool(s, c.poolID).users;
      if c.ok { AddedIsListed(users, c.userID, c.deviceID); }
      hide DeviceAdded, Has, HasDevice, Store;
      if c.ok { assert c.nodeID in FetchPool(s, c.poolID).nodes + {c.nodeID}; }
      RefusedChangesNothing(users, c.userID, c.deviceID);
    }
  }

  lemma AddedIsListed(users: Record, userID: Id, deviceID: Id)
    requires Has(users, userID)
    ensures HasDevice(DeviceAdded(users, userID, deviceID, true), userID, deviceID)
  {
    var t := DeviceAdded(users, userID, deviceID, true);
    assert t[FindUser(users, userID)].userID == userID && FindUser(t, userID) == FindUser(users, userID);
  }

  lemma RefusedChangesNothing(users: Record, userID: Id, deviceID: Id)
    ensures DeviceAdded(users, userID, deviceID, false) == users
    ensures HasDevice(users, userID, deviceID) ==> Has(users, userID)
  {
  }

  /** A user joins only a pool that exists and of which it is no member; then its record has the user. */
  lemma JoiningGranted(s: Server, c: Call)
    requires c.JoinPool? && (c.ok ==> CanFetch(s, c.poolID) && !Has(FetchPool(s, c.poolID).users, c.user.userID))
    ensures var t := Perform(s, c);
      && (c.ok ==>
            && c.poolID in t.stored && Has(t.stored[c.poolID], c.user.userID)
            && t.stored[c.poolID] == FetchPool(s, c.poolID).users + [c.user])
      && (!c.ok ==> t.stored == s.stored)
  {
    if c.ok { JoinedIsListed(FetchPool(s, c.poolID).users, c.user); }
    hide Has;
  }

  lemma JoinedIsListed(users: Record, user: UserRecord)
    requires !Has(users, user.userID)
    ensures UserAdded(users, user, true) == users + [user] && Has(users + [user], user.userID)
  {
    var i := FindUser(users + [user], user.userID);
    assert (users + [user])[|users|] == user;
  }

  /** A device leaves only when it is listed; then its user has one of it less on record. */
  lemma LeavingGranted(s: Server, c: Call)
    requires c.LeavePool?
    requires c.ok ==> CanFetch(s, c.poolID) && HasDevice(FetchPool(s, c.poolID).users, c.userID, c.deviceID)
    requires c.ok ==> Unique(FetchPool(s, c.poolID).users)
    ensures var t := Perform(s, c);
      && (c.ok && c.poolID in t.stored ==>
            Held(t.stored[c.poolID], c.userID) == Held(FetchPool(s, c.poolID).users, c.userID) - multiset{c.deviceID})
      && (!c.ok ==> t.stored == s.stored)
  {
    if c.ok { DeviceIsRemoved(FetchPool(s, c.poolID).users, c.userID, c.deviceID, c.userID); }
    hide DeviceRemoved, HasDevice, Held, Unique;
  }

  /** Every record stands for at least one user and names nobody twice; every pool in memory has
      somebody connected and says what its record says. */
  ghost predicate Consistent(s: Server) {
    && (forall id | id in s.stored :: s.stored[id] != [] && Unique(s.stored[id]))
    && (forall id | id in s.active :: s.active[id].nodes != {} && Matches(s.active[id].users, s.stored, id))
  }

  /** A failed write takes the last device, and with it the user, from a pool that stays in memory. */
  predicate LosesUser(s: Server, c: Call) {
    && c.LeavePool? && !c.ok && c.poolID in s.active
    && IsOnlyDevice(s.active[c.poolID].users, c.userID, c.deviceID)
  }

  /** New pools get ids that are not in use. */
  predicate Legal(s: Server, c: Call) {
    c.CreatePool? ==> !CanFetch(s, c.poolID)
  }

  lemma OtherRecord(users: Record, stored: map<Id, Record>, stored': map<Id, Record>, poolID: Id, id: Id)
    requires id != poolID && stored - {poolID} == stored' - {poolID}
    ensures (id in stored <==> id in stored') && (id in stored ==> stored[id] == stored'[id])
    ensures Matches(users, stored, id) == Matches(users, stored', id)
  {
    assert id in stored <==> id in stored - {poolID};
    assert id in stored' <==> id in stored' - {poolID};
    if id in stored { assert (stored - {poolID})[id] == stored[id]; }
    if id in stored' { assert (stored' - {poolID})[id] == stored'[id]; }
  }

  lemma FetchedMatches(s: Server, poolID: Id)
    requires Consistent(s) && CanFetch(s, poolID)
    ensures Matches(FetchPool(s, poolID).users, s.stored, poolID) && Unique(FetchPool(s, poolID).users)
    ensures FetchPool(s, poolID).nodes == {} <==> poolID !in s.active
  {
  }

  /** What an action does to one pool decides about everything. */
  lemma Settles(s: Server, poolID: Id, pool: ActivePool, stored: map<Id, Record>)
    requires Consistent(s) && s.stored - {poolID} == stored - {poolID}
    requires poolID in stored ==> stored[poolID] != [] && Unique(stored[poolID])
    ensures Consistent(Settle(s, poolID, pool, stored)) <==> pool.nodes == {} || Matches(pool.users, stored, poolID)
  {
    var s' := Settle(s, poolID, pool, stored);
    forall id | id != poolID
      ensures id in stored ==> stored[id] != [] && Unique(stored[id])
      ensures id in s'.active ==> s'.active[id].nodes != {} && Matches(s'.active[id].users, stored, id)
    {
      OtherRecord(if id in s.active then s.active[id].users else [], s.stored, stored, poolID, id);
    }
    if pool.nodes != {} { assert s'.active[poolID] == pool; }
  }

  lemma WrittenElsewhere(s: Server, poolID: Id, users: Record, ok: bool)
    requires Consistent(s) && Unique(users)
    ensures s.stored - {poolID} == Written(s, poolID, users, ok) - {poolID}
    ensures var stored := Written(s, poolID, users, ok);
      poolID in stored ==> stored[poolID] != [] && Unique(stored[poolID])
  {
  }

  lemma JoinKeeps(s: Server, c: Call)
    requires Consistent(s) && c.JoinPool? && CanFetch(s, c.poolID)
    ensures Consistent(Perform(s, c))
  {
  }

  lemma LeaveKeeps(s: Server, c: Call)
    requires Consistent(s) && c.LeavePool? && CanFetch(s, c.poolID)
    ensures Consistent(Perform(s, c)) <==> !LosesUser(s, c)
  {
    var pool := FetchPool(s, c.poolID);
    var users := DeviceRemoved(pool.users, c.userID, c.deviceID, c.ok);
    FetchedMatches(s, c.poolID);
    var had := HasDevice(pool.users, c.userID, c.deviceID);
    if had { DeviceRemovedMatches(pool.users, s.stored, c.poolID, c.userID, c.deviceID, c.ok); }
    RemovalStaysUnique(pool.users, c.userID, c.deviceID, c.ok);
    hide Consistent, Settle;
    WrittenElsewhere(s, c.poolID, users, c.ok && had);
    Settles(s, c.poolID, pool.(users := users), Written(s, c.poolID, users, c.ok && had));
  }

  lemma RemovalStaysUnique(users: Record, userID: Id, deviceID: Id, ok: bool)
    requires Unique(users)
    ensures Unique(DeviceRemoved(users, userID, deviceID, ok))
  {
  }

  lemma ConnectKeeps(s: Server, c: Call)
    requires Consistent(s) && c.ConnectToPool? && CanFetch(s, c.poolID)
    ensures Consistent(Perform(s, c))
  {
  }

  lemma OthersKeep(s: Server, c: Call)
    requires Consistent(s) && Legal(s, c) && (c.CreatePool? || c.UserExistsInPool? || c.DisconnectFromPool?)
    ensures Consistent(Perform(s, c))
  {
  }

  /** Every call keeps memory and database consistent, except exactly the one that loses a user. */
  lemma CallsKeepConsistency(s: Server, c: Call)
    requires Consistent(s) && Legal(s, c)
    ensures Consistent(Perform(s, c)) <==> !LosesUser(s, c)
  {
    hide Consistent, Settle;
    if c.CreatePool? || c.UserExistsInPool? || c.DisconnectFromPool? {
      OthersKeep(s, c);
    } else if CanFetch(s, c.poolID) {
      match c
      case JoinPool(_, _, _) => JoinKeeps(s, c);
      case LeavePool(_, _, _, _) => LeaveKeeps(s, c);
      case ConnectToPool(_, _, _, _, _) => ConnectKeeps(s, c);
    }
  }

  /** The server after a list of calls, from an empty one on. */
  function After(calls: seq<Call>): Server {
    if calls == [] then EMPTY_SERVER else Perform(After(calls[..|calls|-1]), calls[|calls|-1])
  }

  ghost predicate Benign(calls: seq<Call>) {
    forall i {:trigger calls[i]} | 0 <= i < |calls| ::
      Legal(After(calls[..i]), calls[i]) && !LosesUser(After(calls[..i]), calls[i])
  }

  /** Over any run of calls in which no write fails for a last device in use, user ids stay unique,
      pools in memory have nodes, and their membership is that of their records. */
  lemma {:induction false} RunsStayConsistent(calls: seq<Call>)
    requires Benign(calls)
    ensures Consistent(After(calls))
  {
    if calls != [] {
      var before := calls[..|calls|-1];
      forall i {:trigger before[i]} | 0 <= i < |before|
        ensures Legal(After(before[..i]), before[i]) && !LosesUser(After(before[..i]), before[i])
      {
        assert before[..i] == calls[..i] && before[i] == calls[i];
      }
      RunsStayConsistent(before);
      CallsKeepConsistency(After(before), calls[|calls|-1]);
    }
  }
}
