/** The pools in memory as objects: each is fetched when a request needs it, changed, and given up when
    nobody is connected to it. Every request does what `ActivePools` says about values. */
module Servers {
  import opened Ids
  import opened Membership
  import opened ActivePools
  import opened NodePools
  import PoolManager

  /** A pool in memory: its nodes, and its users as they are stored. */
  class PoolInMemory {
    const nodes: Pool
    const members: StorePool

    constructor (nodes: Pool, members: StorePool)
      ensures this.nodes == nodes && this.members == members
    {
      this.nodes := nodes;
      this.members := members;
    }
  }

  /** The objects of a pool's nodes and of its users, which other pools do not share. */
  datatype Parts = Parts(core: set<object>, folk: set<object>)

  ghost predicate NodesKept(nodes: Pool, core: set<object>, lines: set<Channel>)
    reads core
  {
    && nodes in core && nodes.Repr <= core && nodes.memory <= core
    && (forall p | p in nodes.panels :: nodes.panels[p] in core)
    && (forall c | c in nodes.clusters :: nodes.clusters[c] in core)
    && (forall i | i in nodes.nodeMap :: nodes.nodeMap[i] in core && nodes.nodeMap[i].nodeChan in lines)
    && nodes.Valid()
  }

  ghost predicate UsersKept(members: StorePool, folk: set<object>)
    reads folk
  {
    members in folk && (forall u | u in members.users :: u in folk) && Unique(Infos(members.users))
  }

  lemma NodesAre(nodes: Pool, core: set<object>, lines: set<Channel>)
    requires NodesKept(nodes, core, lines)
    ensures nodes in core && nodes.Repr <= core && nodes.memory <= core && nodes.Valid()
    ensures nodes.panels.Values <= core && nodes.nodeMap.Values <= core && nodes.Channels() <= lines
  {
  }

  lemma UsersAre(members: StorePool, folk: set<object>)
    requires UsersKept(members, folk)
    ensures members in folk && (forall u | u in members.users :: u in folk) && Unique(Infos(members.users))
  {
  }

  /** A consistent pool and its parts, when its map of nodes has grown or shrunk. */
  lemma KeepNodes(nodes: Pool, core: set<object>, lines: set<Channel>)
    requires nodes.Valid() && nodes.Repr <= core && nodes.memory <= core && nodes.Channels() <= lines
    ensures NodesKept(nodes, core, lines)
  {
    nodes.SupportedState();
    nodes.StateIsShape();
    nodes.ShapeIs(0);
    hide Pool.Valid, Pool.State, Pool.Shape, Pool.ShapeUpTo, Pool.Covers, Pool.Wired, Pool.Listed, Pool.PlacedIn;
    forall i | i in nodes.nodeMap
      ensures nodes.nodeMap[i].nodeChan in lines
    {
      nodes.OnChannel(i);
    }
  }

  // ---- Actions on one pool ----

  /** The device is added to the user, and then the node to the pool. */
  method ConnectTo(p: PoolInMemory, ghost parts: Parts, ghost lines: set<Channel>, nodeID: Id, userID: Id,
                   deviceID: Id, nodeChan: Channel, now: nat)
    returns (ok: bool, ghost core: set<object>)
    requires NodesKept(p.nodes, parts.core, lines) && UsersKept(p.members, parts.folk)
    requires parts.core !! parts.folk && p.members.db !in parts.core + parts.folk
    requires lines !! parts.core + parts.folk
    requires nodeChan !in lines && nodeChan !in parts.core + parts.folk
    requires nodeID != NOBODY && now > 0
    modifies parts.core, parts.folk, p.members.db, lines`sent, nodeChan`sent
    ensures !ok || nodeID !in old(p.nodes.nodeMap) ==> NodesKept(p.nodes, core, lines + {nodeChan})
    ensures UsersKept(p.members, parts.folk)
    ensures p.nodes in core && parts.core <= core && fresh(core - parts.core)
    ensures Infos(p.members.users) == DeviceAdded(old(Infos(p.members.users)), userID, deviceID, ok)
    ensures !old(Has(Infos(p.members.users), userID)) ==> !ok
    ensures old(HasDevice(Infos(p.members.users), userID, deviceID)) ==> ok
    ensures p.members.db.stored ==
      if ok && !old(HasDevice(Infos(p.members.users), userID, deviceID))
      then Store(old(p.members.db.stored), p.members.poolID, Infos(p.members.users)) else old(p.members.db.stored)
    ensures p.nodes.nodeMap.Keys == old(p.nodes.nodeMap.Keys) + if ok then {nodeID} else {}
  {
    hide *;
    NodesAre(p.nodes, parts.core, lines);
    UsersAre(p.members, parts.folk);
    ok := p.members.AddDevice(userID, deviceID);
    AddedStaysUnique(old(Infos(p.members.users)), userID, deviceID, ok);
    KeepUsers(p.members, parts.folk);
    core := parts.core;
    if ok {
      core := Enter(p.nodes, parts.core, lines, nodeID, userID, nodeChan, now);
    } else {
      MoreLines(p.nodes, core, lines, {nodeChan});
    }
  }

  lemma MoreLines(nodes: Pool, core: set<object>, lines: set<Channel>, more: set<Channel>)
    requires NodesKept(nodes, core, lines)
    ensures NodesKept(nodes, core, lines + more)
  {
    hide Pool.Valid;
  }

  lemma KeepUsers(members: StorePool, folk: set<object>)
    requires members in folk && (forall u | u in members.users :: u in folk) && Unique(Infos(members.users))
    ensures UsersKept(members, folk)
  {
  }

  lemma AddedStaysUnique(users: Record, userID: Id, deviceID: Id, ok: bool)
    requires Unique(users)
    ensures Unique(DeviceAdded(users, userID, deviceID, ok))
  {
  }

  method Enter(nodes: Pool, ghost core: set<object>, ghost lines: set<Channel>, nodeID: Id, userID: Id,
               nodeChan: Channel, now: nat)
    returns (ghost core': set<object>)
    requires NodesKept(nodes, core, lines) && nodeChan !in lines && nodeChan !in core
    requires nodeID != NOBODY && now > 0
    modifies core, lines`sent, nodeChan`sent
    ensures nodeID !in old(nodes.nodeMap) ==> NodesKept(nodes, core', lines + {nodeChan})
    ensures nodes in core && core <= core' && fresh(core' - core)
    ensures nodes.nodeMap.Keys == old(nodes.nodeMap.Keys) + {nodeID}
  {
    hide *;
    NodesAre(nodes, core, lines);
    nodes.NowAre();
    var node, listing, crew :=
      PoolManager.Connect(nodes, nodeID, userID, nodeChan, now, nodes.Mail());
    nodes.OneMore(old(nodes.nodeMap), old(nodes.Channels()), nodeID, node);
    core' := core + nodes.Repr + nodes.memory;
    if nodeID !in old(nodes.nodeMap) { KeepNodes(nodes, core', lines + {nodeChan}); }
  }

  method DisconnectFrom(p: PoolInMemory, ghost parts: Parts, ghost lines: set<Channel>, nodeID: Id)
    requires NodesKept(p.nodes, parts.core, lines) && UsersKept(p.members, parts.folk)
    requires parts.core !! parts.folk && lines !! parts.core + parts.folk
    modifies parts.core, lines`sent
    ensures NodesKept(p.nodes, parts.core, lines) && UsersKept(p.members, parts.folk)
    ensures Infos(p.members.users) == old(Infos(p.members.users))
    ensures p.nodes.nodeMap.Keys == old(p.nodes.nodeMap.Keys) - {nodeID}
  {
    hide *;
    NodesAre(p.nodes, parts.core, lines);
    UsersAre(p.members, parts.folk);
    p.nodes.NowAre();
    ghost var births := p.nodes.Births();
    ghost var chain := PoolManager.Disconnect(p.nodes, nodeID, p.nodes.Mail());
    p.nodes.OneLess(old(p.nodes.nodeMap), births, old(p.nodes.Channels()), nodeID);
    KeepNodes(p.nodes, parts.core, lines);
  }

  /** The user is added, and everybody who is connected is told. */
  method JoinTo(p: PoolInMemory, ghost parts: Parts, ghost lines: set<Channel>, user: UserInfo) returns (ok: bool)
    requires NodesKept(p.nodes, parts.core, lines) && UsersKept(p.members, parts.folk)
    requires parts.core !! parts.folk + {user} && p.members.db !in parts.core + parts.folk && user !in parts.folk
    requires lines !! parts.core + parts.folk + {user}
    modifies p.members`users, p.members.db, lines`sent
    ensures NodesKept(p.nodes, parts.core, lines) && UsersKept(p.members, parts.folk + {user})
    ensures Infos(p.members.users) ==
      UserAdded(old(Infos(p.members.users)), UserRecord(user.userID, user.devices), ok)
    ensures old(Has(Infos(p.members.users), user.userID)) ==> !ok
    ensures p.members.db.stored ==
      if ok then Store(old(p.members.db.stored), p.members.poolID, Infos(p.members.users))
      else old(p.members.db.stored)
    ensures p.nodes.nodeMap == old(p.nodes.nodeMap)
    ensures PoolManager.Sent(p.nodes.nodeMap, old(p.nodes.Mail()), if ok then p.nodes.nodeMap.Keys else {}, NOBODY,
                             UserCame(user.userID, user.devices))
  {
    hide *;
    NodesAre(p.nodes, parts.core, lines);
    UsersAre(p.members, parts.folk);
    ok := p.members.AddUser(user);
    JoinedStaysUnique(old(Infos(p.members.users)), UserRecord(user.userID, user.devices), ok);
    KeepUsers(p.members, parts.folk + {user});
    PoolManager.NothingSent(p.nodes, UserCame(user.userID, user.devices));
    if ok { PoolManager.TellAll(p.nodes, UserCame(user.userID, user.devices)); }
    KeepNodes(p.nodes, parts.core, lines);
  }

  lemma JoinedStaysUnique(users: Record, user: UserRecord, ok: bool)
    requires Unique(users)
    ensures Unique(UserAdded(users, user, ok))
  {
  }

  /** The device goes; if the user goes with it, everybody who is connected is told. */
  method LeaveFrom(p: PoolInMemory, ghost parts: Parts, ghost lines: set<Channel>, userID: Id, deviceID: Id)
    returns (ok: bool)
    requires NodesKept(p.nodes, parts.core, lines) && UsersKept(p.members, parts.folk)
    requires parts.core !! parts.folk && p.members.db !in parts.core + parts.folk && lines !! parts.core + parts.folk
    modifies parts.folk, p.members.db, lines`sent
    ensures NodesKept(p.nodes, parts.core, lines) && UsersKept(p.members, parts.folk)
    ensures Infos(p.members.users) == DeviceRemoved(old(Infos(p.members.users)), userID, deviceID, ok)
    ensures !old(HasDevice(Infos(p.members.users), userID, deviceID)) ==> !ok
    ensures p.members.db.stored ==
      if ok then Store(old(p.members.db.stored), p.members.poolID, Infos(p.members.users))
      else old(p.members.db.stored)
    ensures p.nodes.nodeMap == old(p.nodes.nodeMap)
    ensures PoolManager.Sent(p.nodes.nodeMap, old(p.nodes.Mail()),
      if ok && old(IsOnlyDevice(Infos(p.members.users), userID, deviceID)) then p.nodes.nodeMap.Keys else {}, NOBODY,
      UserWent(userID))
  {
    hide *;
    NodesAre(p.nodes, parts.core, lines);
    UsersAre(p.members, parts.folk);
    var userRemoved;
    ok, userRemoved := p.members.RemoveDevice(userID, deviceID);
    RemovalStaysUnique(old(Infos(p.members.users)), userID, deviceID, ok);
    KeepUsers(p.members, parts.folk);
    PoolManager.NothingSent(p.nodes, UserWent(userID));
    if ok && userRemoved { PoolManager.TellAll(p.nodes, UserWent(userID)); }
    KeepNodes(p.nodes, parts.core, lines);
  }

  /** Nobody is connected to a pool that has just come into memory. */
  method NewInMemory(members: StorePool, ghost lines: set<Channel>) returns (p: PoolInMemory, ghost parts: Parts)
    requires Unique(Infos(members.users))
    ensures Kept(p, parts, lines + {}, members.poolID, members.db) && fresh(parts.core) && fresh(p)
    ensures p.members == members && parts.folk == {members} + set u: object | u in members.users
    ensures p.nodes.nodeMap.Keys == {} && parts.core !! parts.folk
  {
    hide *;
    var nodes := new Pool.NewNodePool();
    p := new PoolInMemory(nodes, members);
    parts := Parts(nodes.Repr + nodes.memory, {members} + set u: object | u in members.users);
    NoChannels(nodes);
    assert nodes.nodeMap.Keys == {};
    KeepNodes(nodes, parts.core, lines + {});
    KeepUsers(members, parts.folk);
    IsKept(p, parts, lines + {}, members.poolID, members.db);
  }

  // ---- All pools ----

  /** The pool with this id, of the server with this database. */
  ghost predicate Kept(p: PoolInMemory, parts: Parts, lines: set<Channel>, id: Id, db: Database)
    reads parts.core, parts.folk
  {
    && p.members.poolID == id && p.members.db == db
    && NodesKept(p.nodes, parts.core, lines) && UsersKept(p.members, parts.folk)
  }

  /** The objects of a pool are among its parts. */
  ghost predicate HasParts(p: PoolInMemory, parts: Parts)
    reads parts.core, parts.folk
  {
    p.nodes in parts.core && p.members in parts.folk && forall u | u in p.members.users :: u in parts.folk
  }

  /** The pool as a value. */
  ghost function ValueOf(p: PoolInMemory, parts: Parts): ActivePool
    requires HasParts(p, parts)
    reads parts.core, parts.folk
  {
    ActivePool(Infos(p.members.users), p.nodes.nodeMap.Keys)
  }

  lemma KeptHasValue(p: PoolInMemory, parts: Parts, lines: set<Channel>, id: Id, db: Database)
    requires Kept(p, parts, lines, id, db)
    ensures HasParts(p, parts) && ValueOf(p, parts) == ActivePool(Infos(p.members.users), p.nodes.nodeMap.Keys)
    ensures NodesKept(p.nodes, parts.core, lines) && UsersKept(p.members, parts.folk)
    ensures p.members.poolID == id && p.members.db == db && Unique(Infos(p.members.users))
  {
    hide NodesKept;
    NodesAre(p.nodes, parts.core, lines);
  }

  /** Pool id is kept, and is what s says. */
  ghost predicate StandsAs(p: PoolInMemory, parts: Parts, lines: set<Channel>, id: Id, db: Database, s: Server)
    reads parts.core, parts.folk
  {
    && Kept(p, parts, lines, id, db)
    && HasParts(p, parts) && id in s.active && s.active[id] == ValueOf(p, parts)
  }

  lemma ValueIsOf(p: PoolInMemory, parts: Parts)
    requires HasParts(p, parts)
    ensures ValueOf(p, parts) == ActivePool(Infos(p.members.users), p.nodes.nodeMap.Keys)
  {
  }

  lemma UsersHaveParts(p: PoolInMemory, parts: Parts)
    requires p.nodes in parts.core && UsersKept(p.members, parts.folk)
    ensures HasParts(p, parts)
  {
  }

  lemma StandsWithMore(p: PoolInMemory, parts: Parts, lines: set<Channel>, more: set<Channel>, id: Id, db: Database,
                       s: Server)
    requires StandsAs(p, parts, lines, id, db, s)
    ensures StandsAs(p, parts, lines + more, id, db, s)
  {
    hide NodesKept, UsersKept;
    MoreLines(p.nodes, parts.core, lines, more);
  }

  lemma SameKeys<V, W>(a: map<Id, V>, b: map<Id, W>, id: Id, v: V, w: W)
    requires a.Keys - {id} == b.Keys - {id}
    ensures a[id := v].Keys == b[id := w].Keys
  {
    assert a[id := v].Keys == (a.Keys - {id}) + {id};
    assert b[id := w].Keys == (b.Keys - {id}) + {id};
  }

  lemma AreObjects(parts: map<Id, Parts>, objects: set<object>)
    requires Disjoint(parts, objects)
    ensures forall id | id in parts :: parts[id].core <= objects && parts[id].folk <= objects
  {
  }

  lemma StandsHas(p: PoolInMemory, parts: Parts, lines: set<Channel>, id: Id, db: Database, s: Server)
    requires StandsAs(p, parts, lines, id, db, s)
    ensures HasParts(p, parts) && Kept(p, parts, lines, id, db) && id in s.active && s.active[id] == ValueOf(p, parts)
  {
    hide Kept, ValueOf;
  }

  lemma StandsElsewhere(p: PoolInMemory, parts: Parts, lines: set<Channel>, id: Id, db: Database, s: Server, s': Server)
    requires StandsAs(p, parts, lines, id, db, s) && id in s'.active && s'.active[id] == s.active[id]
    ensures StandsAs(p, parts, lines, id, db, s')
  {
    hide Kept, ValueOf;
  }

  /** Pools do not share objects, and have only these. */
  ghost predicate Disjoint(parts: map<Id, Parts>, objects: set<object>) {
    && (forall id | id in parts :: parts[id].core <= objects && parts[id].folk <= objects)
    && (forall i, j | i in parts && j in parts :: parts[i].core !! parts[j].folk)
    && (forall i, j | i in parts && j in parts && i != j ::
          parts[i].core !! parts[j].core && parts[i].folk !! parts[j].folk)
  }

  class PoolServer {
    var active: map<Id, PoolInMemory>
    const db: Database

    ghost var parts: map<Id, Parts>
    /** All objects of all pools, except the channels of nodes. */
    ghost var objects: set<object>
    ghost var lines: set<Channel>

    constructor (db: Database)
      requires db.stored == map[]
      ensures Valid() && View() == EMPTY_SERVER && this.db == db && active == map[] && lines == {} && objects == {}
    {
      this.db := db;
      active, parts, objects, lines := map[], map[], {}, {};
    }

    ghost predicate Valid()
      reads this, db, objects
    {
      && active.Keys == parts.Keys && this !in objects && db !in objects && lines !! objects
      && Disjoint(parts, objects) && (forall id | id in db.stored :: Unique(db.stored[id]))
      && forall id | id in active :: Kept(active[id], parts[id], lines, id, db)
    }

    /** The objects that make up pool id belong to the server. */
    ghost predicate HasValue(id: Id)
      reads this, objects
    {
      && id in active && id in parts && parts[id].core <= objects && parts[id].folk <= objects
      && HasParts(active[id], parts[id])
    }

    /** The server as a value. */
    ghost function View(): Server
      reads this, db, objects
    {
      Server(map id | id in active && HasValue(id) :: ValueOf(active[id], parts[id]), db.stored)
    }

    lemma Opened(id: Id)
      requires Valid() && id in active
      ensures id in parts && StandsAs(active[id], parts[id], lines, id, db, View())
      ensures View().active.Keys == active.Keys && View().stored == db.stored
      ensures parts[id].core !! parts[id].folk && this !in parts[id].core + parts[id].folk
      ensures db !in parts[id].core + parts[id].folk && lines !! parts[id].core + parts[id].folk
      ensures parts[id].core <= objects && parts[id].folk <= objects
    {
      hide Kept;
      forall i | i in active
        ensures HasValue(i)
      {
        KeptHasValue(active[i], parts[i], lines, i, db);
      }
    }

    /** Other pools share nothing with pool id. */
    lemma Elsewhere(id: Id)
      requires Valid() && id in active
      ensures id in parts && active.Keys == parts.Keys
      ensures forall i | i in active && i != id ::
        && StandsAs(active[i], parts[i], lines, i, db, View())
        && parts[i].core + parts[i].folk !! parts[id].core + parts[id].folk
        && db !in parts[i].core + parts[i].folk && lines !! parts[i].core + parts[i].folk
        && parts[i].core <= objects && parts[i].folk <= objects
    {
      forall i | i in active && i != id
        ensures StandsAs(active[i], parts[i], lines, i, db, View())
      {
        Opened(i);
      }
      hide View;
    }

    /** The server is valid as far as pools other than pool id go. */
    ghost predicate OpenAt(id: Id)
      reads this, db, objects
    {
      && active.Keys == parts.Keys && this !in objects && db !in objects && lines !! objects
      && Disjoint(parts, objects) && (forall i | i in db.stored :: Unique(db.stored[i]))
      && (id in active ==> HasValue(id))
      && forall i | i in active && i != id :: Kept(active[i], parts[i], lines, i, db)
    }

    lemma ViewIs(s: Server)
      requires active.Keys == parts.Keys && this !in objects && db !in objects && lines !! objects
      requires Disjoint(parts, objects) && (forall i | i in db.stored :: Unique(db.stored[i]))
      requires forall i | i in active :: StandsAs(active[i], parts[i], lines, i, db, s)
      requires s.active.Keys == active.Keys && s.stored == db.stored
      ensures Valid() && View() == s
    {
      hide *;
      AreObjects(parts, objects);
      forall i | i in active
        ensures i in parts && HasParts(active[i], parts[i]) && Kept(active[i], parts[i], lines, i, db)
        ensures i in s.active && s.active[i] == ValueOf(active[i], parts[i])
      {
        StandsHas(active[i], parts[i], lines, i, db, s);
      }
      ValuesMake(s);
      KeptMake();
    }

    lemma ValuesMake(s: Server)
      requires active.Keys == parts.Keys == s.active.Keys && s.stored == db.stored
      requires forall i | i in parts :: parts[i].core <= objects && parts[i].folk <= objects
      requires forall i | i in active :: HasParts(active[i], parts[i]) && s.active[i] == ValueOf(active[i], parts[i])
      ensures View() == s
    {
      hide HasParts, ValueOf;
    }

    lemma KeptMake()
      requires active.Keys == parts.Keys && this !in objects && db !in objects && lines !! objects
      requires Disjoint(parts, objects) && (forall i | i in db.stored :: Unique(db.stored[i]))
      requires forall i | i in active :: Kept(active[i], parts[i], lines, i, db)
      ensures Valid()
    {
      hide Kept, Disjoint, Unique;
    }

    lemma ViewOpen(id: Id, s: Server)
      requires active.Keys == parts.Keys && this !in objects && db !in objects && lines !! objects
      requires Disjoint(parts, objects) && (forall i | i in db.stored :: Unique(db.stored[i]))
      requires forall i | i in active && i != id :: StandsAs(active[i], parts[i], lines, i, db, s)
      requires id in active ==> HasParts(active[id], parts[id]) && id in s.active
      requires id in active ==> s.active[id] == ValueOf(active[id], parts[id])
      requires s.active.Keys == active.Keys && s.stored == db.stored
      ensures OpenAt(id) && View() == s
    {
      hide Kept, ValueOf;
      forall i | i in active
        ensures HasValue(i) && s.active[i] == ValueOf(active[i], parts[i])
      {
      }
    }

    /** What holds when a pool's state is open. */
    lemma IsOpen(id: Id)
      requires OpenAt(id)
      ensures active.Keys == parts.Keys == View().active.Keys && View().stored == db.stored
      ensures this !in objects && db !in objects && lines !! objects && Disjoint(parts, objects)
      ensures forall i | i in db.stored :: Unique(db.stored[i])
      ensures forall i | i in active && i != id :: StandsAs(active[i], parts[i], lines, i, db, View())
      ensures id in active ==> HasParts(active[id], parts[id]) && id in View().active
      ensures id in active ==> View().active[id] == ValueOf(active[id], parts[id])
    {
      hide Kept;
      forall i | i in active && i != id
        ensures HasValue(i) && Kept(active[i], parts[i], lines, i, db)
      {
        KeptHasValue(active[i], parts[i], lines, i, db);
      }
    }

    lemma ValidIsOpen(id: Id)
      requires Valid()
      ensures OpenAt(id)
      ensures id in active ==> id in parts && Kept(active[id], parts[id], lines, id, db)
    {
      hide Kept;
      if id in active { KeptHasValue(active[id], parts[id], lines, id, db); }
    }

    lemma OpenIsValid(id: Id)
      requires OpenAt(id) && (id in active ==> id in parts && Kept(active[id], parts[id], lines, id, db))
      ensures Valid()
    {
      hide Kept;
    }

    /** A pool with new parts is kept under its id; the other pools stand where they did. */
    method Keep(id: Id, p: PoolInMemory, ghost ps: Parts, ghost more: set<Channel>, ghost s: Server)
      requires active.Keys == parts.Keys && this !in objects && db !in objects && lines + more !! objects
      requires Disjoint(parts[id := ps], objects + ps.core + ps.folk)
      requires this !in ps.core + ps.folk && db !in ps.core + ps.folk && lines + more !! ps.core + ps.folk
      requires forall i | i in db.stored :: Unique(db.stored[i])
      requires HasParts(p, ps)
      requires forall i | i in active && i != id :: StandsAs(active[i], parts[i], lines, i, db, s)
      requires s.active.Keys - {id} == active.Keys - {id}
      modifies this
      ensures active == old(active)[id := p] && parts == old(parts)[id := ps] && lines == old(lines) + more
      ensures objects == old(objects) + ps.core + ps.folk
      ensures OpenAt(id) && (old(Kept(p, ps, lines + more, id, db)) ==> Valid())
      ensures View() ==
        Server(s.active[id := old(ActivePool(Infos(p.members.users), p.nodes.nodeMap.Keys))], db.stored)
    {
      hide *;
      ghost var s' := Server(s.active[id := ActivePool(Infos(p.members.users), p.nodes.nodeMap.Keys)], db.stored);
      SameKeys(s.active, active, id, s'.active[id], p);
      AreObjects(parts[id := ps], objects + ps.core + ps.folk);
      forall i | i in active && i != id
        ensures StandsAs(active[i], parts[i], lines + more, i, db, s')
      {
        StandsWithMore(active[i], parts[i], lines, more, i, db, s);
        StandsHaveKey(active[i], parts[i], lines, i, db, s);
        StandsElsewhere(active[i], parts[i], lines + more, i, db, s, s');
      }
      active := active[id := p];
      parts := parts[id := ps];
      objects := objects + ps.core + ps.folk;
      lines := lines + more;
      ValueIsOf(p, ps);
      ViewOpen(id, s');
      if old(Kept(p, ps, lines + more, id, db)) { OpenIsValid(id); }
    }

    /** What else holds of a valid server. */
    lemma IsValid()
      requires Valid()
      ensures active.Keys == parts.Keys == View().active.Keys && View().stored == db.stored
      ensures this !in objects && db !in objects && lines !! objects && Disjoint(parts, objects)
      ensures forall i | i in db.stored :: Unique(db.stored[i])
      ensures forall i | i in active :: StandsAs(active[i], parts[i], lines, i, db, View())
    {
      forall i | i in active
        ensures HasValue(i) && StandsAs(active[i], parts[i], lines, i, db, View())
      {
        Opened(i);
      }
      hide Kept, StandsAs, Disjoint;
    }

    /** The pool in memory, or one that is made from its record. */
    method Fetch(id: Id) returns (p: PoolInMemory?)
      requires Valid()
      modifies this
      ensures Valid() && fresh(objects - old(objects)) && lines == old(lines)
      ensures p == null <==> !CanFetch(old(View()), id)
      ensures p == null ==> id !in old(active) && View() == old(View())
      ensures p != null ==> id in active && active[id] == p && (id in old(active) ==> active == old(active))
      ensures p != null ==>
        View() == old(View()).(active := old(View()).active[id := FetchPool(old(View()), id)])
    {
      hide *;
      IsValid();
      ghost var s := View();
      FetchIs(s, id);
      if id in active {
        p := active[id];
      } else {
        var members := StorePool.GetStoredPool(id, db);
        if members == null {
          return null;
        }
        p := Load(id, members);
      }
    }

    /** A pool without nodes, for a list of users that was made from the pool's record. */
    method Load(id: Id, members: StorePool) returns (p: PoolInMemory)
      requires Valid() && id !in active && id in db.stored && Infos(members.users) == db.stored[id]
      requires Unique(db.stored[id])
      requires members.poolID == id && members.db == db && members !in objects
      requires (set u: object | u in members.users) !! objects
      modifies this
      ensures Valid() && fresh(objects - old(objects) - ({members} + set u: object | u in members.users))
      ensures lines == old(lines) && active == old(active)[id := p] && id !in old(View()).active
      ensures View() == old(View()).(active := old(View()).active[id := ActivePool(db.stored[id], {})])
    {
      hide *;
      ghost var s, ps := View(), Parts({}, {});
      p, ps := NewInMemory(members, lines);
      IsValid();
      DisjointWithNew(parts, objects, id, ps);
      KeptHasValue(p, ps, lines + {}, id, db);
      Keep(id, p, ps, {}, s);
    }

    /** A pool without nodes is given up. */
    method GiveUp(id: Id)
      requires OpenAt(id) && id in active
      modifies this
      ensures OpenAt(id) && (old(Valid()) ==> Valid())
      ensures objects == old(objects) && lines == old(lines) && id in old(View()).active
      ensures View() ==
        if old(View()).active[id].nodes == {} then old(View()).(active := old(View()).active - {id}) else old(View())
    {
      hide *;
      IsOpen(id);
      ghost var s := View();
      ValueIsOf(active[id], parts[id]);
      var empty := active[id].nodes.IsEmpty();
      if empty {
        IsOpen(id);
        ghost var s' := s.(active := s.active - {id});
        forall i | i in active && i != id
          ensures StandsAs(active[i], parts[i], lines, i, db, s')
        {
          StandsHaveKey(active[i], parts[i], lines, i, db, s);
          StandsElsewhere(active[i], parts[i], lines, i, db, s, s');
        }
        DisjointWithout(parts, objects, id);
        AreObjects(parts, objects);
        active := active - {id};
        parts := parts - {id};
        ViewIs(s');
        ValidIsOpen(id);
      }
    }

    /** What an action has done to one pool is kept, and the pool is given up when it is empty. */
    method Finish(id: Id, p: PoolInMemory, ghost ps: Parts, ghost more: set<Channel>, ghost s: Server)
      requires active.Keys == parts.Keys && this !in objects && db !in objects && lines + more !! objects
      requires Disjoint(parts[id := ps], objects + ps.core + ps.folk)
      requires this !in ps.core + ps.folk && db !in ps.core + ps.folk && lines + more !! ps.core + ps.folk
      requires forall i | i in db.stored :: Unique(db.stored[i])
      requires HasParts(p, ps)
      requires forall i | i in active && i != id :: StandsAs(active[i], parts[i], lines, i, db, s)
      requires s.active.Keys - {id} == active.Keys - {id}
      modifies this
      ensures objects == old(objects) + ps.core + ps.folk && lines == old(lines) + more
      ensures OpenAt(id) && (old(Kept(p, ps, lines + more, id, db)) ==> Valid())
      ensures View() ==
        Settle(s, id, old(ActivePool(Infos(p.members.users), p.nodes.nodeMap.Keys)), db.stored)
    {
      hide *;
      ghost var pool := ActivePool(Infos(p.members.users), p.nodes.nodeMap.Keys);
      Keep(id, p, ps, more, s);
      GiveUp(id);
      Settled(s, id, pool, db.stored);
    }

    // ---- Requests ----

    /** Pool id has been fetched, from server s. */
    ghost predicate Fetched(id: Id, p: PoolInMemory, s: Server)
      requires Valid()
      reads this, db, objects
    {
      && id in active && active[id] == p && CanFetch(s, id)
      && View() == s.(active := s.active[id := FetchPool(s, id)])
    }

    lemma IsFetched(id: Id, p: PoolInMemory, s: Server)
      requires Valid() && id in active && active[id] == p && CanFetch(s, id)
      requires View() == s.(active := s.active[id := FetchPool(s, id)])
      ensures Fetched(id, p, s)
    {
    }

    /** What holds before an action on a pool that has been fetched. */
    lemma Ready(id: Id, p: PoolInMemory, s: Server)
      requires Valid() && Fetched(id, p, s)
      ensures id in active && active[id] == p && CanFetch(s, id)
      ensures View().active.Keys == s.active.Keys + {id}
      ensures forall i | i in s.active && i != id :: View().active[i] == s.active[i]
      ensures active.Keys == parts.Keys && View().active.Keys == active.Keys && View().stored == db.stored == s.stored
      ensures NodesKept(p.nodes, parts[id].core, lines) && UsersKept(p.members, parts[id].folk)
      ensures p.members.poolID == id && p.members.db == db
      ensures FetchPool(s, id) == ActivePool(Infos(p.members.users), p.nodes.nodeMap.Keys)
      ensures parts[id].core !! parts[id].folk && db !in parts[id].core + parts[id].folk
      ensures this !in objects && db !in objects && lines !! objects && Disjoint(parts, objects)
      ensures parts[id].core <= objects && parts[id].folk <= objects
      ensures forall i | i in db.stored :: Unique(db.stored[i])
    {
      hide *;
      WasFetched(id, p, s);
      IsValid();
      Opened(id);
      ValueIs(p, parts[id], lines, id, db, View());
    }

    lemma WasFetched(id: Id, p: PoolInMemory, s: Server)
      requires Valid() && Fetched(id, p, s)
      ensures id in active && active[id] == p && CanFetch(s, id)
      ensures View() == s.(active := s.active[id := FetchPool(s, id)])
    {
    }

    /** Nobody checks whether the node is live already. When it is, the pool is afterwards one in which an id
        sits twice; the server as a value says the same, and all other pools are in order. */
    method ConnectToPool(poolID: Id, nodeID: Id, userID: Id, deviceID: Id, nodeChan: Channel, now: nat)
      returns (ok: bool)
      requires Valid() && nodeChan !in lines && nodeChan !in objects && nodeID != NOBODY && now > 0
      modifies this, db, objects, lines`sent, nodeChan`sent
      ensures OpenAt(poolID) && (!ok || !old(IsLive(View(), poolID, nodeID)) ==> Valid())
      ensures fresh(objects - old(objects)) && lines <= old(lines) + {nodeChan}
      ensures View() == Perform(old(View()), Call.ConnectToPool(poolID, nodeID, userID, deviceID, ok))
      ensures ok ==> CanFetch(old(View()), poolID) && Has(FetchPool(old(View()), poolID).users, userID)
      ensures CanFetch(old(View()), poolID) && HasDevice(FetchPool(old(View()), poolID).users, userID, deviceID) ==> ok
      ensures ok ==>
        && poolID in View().active && HasDevice(View().active[poolID].users, userID, deviceID)
        && View().active[poolID].nodes == FetchPool(old(View()), poolID).nodes + {nodeID}
      ensures !ok ==> View().stored == old(View()).stored
      ensures !old(IsLive(View(), poolID, nodeID)) ==> (ok <==> IsLive(View(), poolID, nodeID))
    {
      hide *;
      ghost var s := View();
      var q := Fetch(poolID);
      if q == null {
        ok := false;
        NobodyIn(s, poolID, nodeID);
        NothingPerformed(s, Call.ConnectToPool(poolID, nodeID, userID, deviceID, ok));
        ValidIsOpen(poolID);
        return;
      }
      IsFetched(poolID, q, s);
      ok := ConnectFetched(poolID, q, nodeID, userID, deviceID, nodeChan, now, s);
      ConnectionGranted(s, Call.ConnectToPool(poolID, nodeID, userID, deviceID, ok));
      NowLive(s, View(), poolID, nodeID, ok);
    }

    method ConnectFetched(poolID: Id, p: PoolInMemory, nodeID: Id, userID: Id, deviceID: Id, nodeChan: Channel,
                          now: nat, ghost s: Server)
      returns (ok: bool)
      requires Valid() && nodeChan !in lines && nodeChan !in objects && nodeID != NOBODY && now > 0
      requires Fetched(poolID, p, s)
      modifies this, db, objects, lines`sent, nodeChan`sent
      ensures OpenAt(poolID) && (!ok || !IsLive(s, poolID, nodeID) ==> Valid())
      ensures fresh(objects - old(objects)) && lines == old(lines) + {nodeChan}
      ensures View() == Perform(s, Call.ConnectToPool(poolID, nodeID, userID, deviceID, ok))
      ensures CanFetch(s, poolID) && (ok ==> Has(FetchPool(s, poolID).users, userID))
      ensures HasDevice(FetchPool(s, poolID).users, userID, deviceID) ==> ok
    {
      hide *;
      Ready(poolID, p, s);
      Elsewhere(poolID);
      NotYetIn(s, poolID, nodeID);
      ghost var s', ps, core := View(), parts[poolID], parts[poolID].core;
      ok, core := ConnectTo(p, ps, lines, nodeID, userID, deviceID, nodeChan, now);
      DisjointGrown(parts, objects, poolID, Parts(core, ps.folk));
      UsersHaveParts(p, Parts(core, ps.folk));
      if !ok || !IsLive(s, poolID, nodeID) { IsKept(p, Parts(core, ps.folk), lines + {nodeChan}, poolID, db); }
      UsersAre(p.members, ps.folk);
      ghost var users, stored := Infos(p.members.users), db.stored;
      StaysUnique(s.stored, poolID, users, stored);
      Finish(poolID, p, Parts(core, ps.folk), {nodeChan}, s');
      ConnectPerforms(s, Call.ConnectToPool(poolID, nodeID, userID, deviceID, ok), users, stored);
      SettleSame(s, s', poolID);
    }

    method DisconnectFromPool(poolID: Id, nodeID: Id)
      requires Valid()
      modifies this, db, objects, lines`sent
      ensures Valid() && objects == old(objects) && lines == old(lines)
      ensures View() == Perform(old(View()), Call.DisconnectFromPool(poolID, nodeID))
      ensures forall k :: IsLive(View(), poolID, k) <==> old(IsLive(View(), poolID, k)) && k != nodeID
      ensures View().stored == old(View()).stored
    {
      hide *;
      IsValid();
      ghost var s, c := View(), Call.DisconnectFromPool(poolID, nodeID);
      WhoIsLeft(s, c);
      DisconnectPerforms(s, c);
      if poolID in active {
        var p := active[poolID];
        InMemoryIsFetched(poolID);
        Ready(poolID, p, s);
        Elsewhere(poolID);
        FetchIs(s, poolID);
        ghost var ps := parts[poolID];
        DisconnectFrom(p, ps, lines, nodeID);
        SameParts(parts, objects, poolID);
        assert lines + {} == lines;
        IsKept(p, ps, lines + {}, poolID, db);
        KeptHasValue(p, ps, lines + {}, poolID, db);
        Finish(poolID, p, ps, {}, s);
      }
    }

    lemma InMemoryIsFetched(id: Id)
      requires Valid() && id in active
      ensures Fetched(id, active[id], View())
    {
      hide *;
      IsValid();
      FetchIs(View(), id);
      IsFetched(id, active[id], View());
    }

    method UserExistsInPool(poolID: Id, userID: Id) returns (found: bool)
      requires Valid()
      modifies this
      ensures Valid() && fresh(objects - old(objects)) && lines == old(lines)
      ensures View() == Perform(old(View()), Call.UserExistsInPool(poolID, userID))
      ensures found <==> CanFetch(old(View()), poolID) && Has(FetchPool(old(View()), poolID).users, userID)
    {
      hide *;
      ghost var s, c := View(), Call.UserExistsInPool(poolID, userID);
      var p := Fetch(poolID);
      if p == null {
        NothingPerformed(s, c);
        return false;
      }
      IsFetched(poolID, p, s);
      Ready(poolID, p, s);
      ghost var s' := View();
      found := p.members.HasUser(userID);
      ExistsPerforms(s, c);
      ValidIsOpen(poolID);
      GiveUp(poolID);
      GivenUp(s, s', poolID, FetchPool(s, poolID));
    }

    lemma PartsAreKnown(id: Id)
      requires Valid() && id in active
      ensures active[id].nodes in objects && active[id].nodes.Channels() <= lines
      ensures active[id].members in objects && forall u | u in active[id].members.users :: u in objects
    {
      hide *;
      Opened(id);
      ValueIs(active[id], parts[id], lines, id, db, View());
      NodesAre(active[id].nodes, parts[id].core, lines);
      UsersAre(active[id].members, parts[id].folk);
    }

    /** Everybody who is connected to the pool hears of the new user. */
    method JoinPool(poolID: Id, user: UserInfo) returns (ok: bool)
      requires Valid() && user !in objects
      modifies this, db, objects, lines`sent
      ensures Valid() && fresh(objects - old(objects) - {user}) && lines == old(lines)
      ensures View() ==
        Perform(old(View()), Call.JoinPool(poolID, old(UserRecord(user.userID, user.devices)), ok))
      ensures ok ==> CanFetch(old(View()), poolID) && !Has(FetchPool(old(View()), poolID).users, user.userID)
      ensures ok ==> poolID in View().stored && Has(View().stored[poolID], user.userID)
      ensures !ok ==> View().stored == old(View()).stored
      ensures poolID in old(active) ==>
        var nodes := old(active[poolID]).nodes;
        PoolManager.Sent(nodes.nodeMap, old(active[poolID].nodes.Mail()), if ok then nodes.nodeMap.Keys else {}, NOBODY,
                         UserCame(user.userID, old(user.devices)))
    {
      hide *;
      ghost var s := View();
      if poolID in active { PartsAreKnown(poolID); }
      var p := Fetch(poolID);
      if p == null {
        ok := false;
        NothingPerformed(s, Call.JoinPool(poolID, UserRecord(user.userID, user.devices), ok));
        JoiningGranted(s, Call.JoinPool(poolID, UserRecord(user.userID, user.devices), ok));
        return;
      }
      assert poolID in old(active) ==> p == old(active[poolID]) && p.nodes.Mail() == old(active[poolID].nodes.Mail());
      IsFetched(poolID, p, s);
      ok := JoinFetched(poolID, p, user, s);
      JoiningGranted(s, Call.JoinPool(poolID, old(UserRecord(user.userID, user.devices)), ok));
    }

    method JoinFetched(poolID: Id, p: PoolInMemory, user: UserInfo, ghost s: Server) returns (ok: bool)
      requires Valid() && user !in objects && Fetched(poolID, p, s)
      modifies this, db, objects, lines`sent
      ensures Valid() && objects <= old(objects) + {user} && lines == old(lines)
      ensures View() == Perform(s, Call.JoinPool(poolID, old(UserRecord(user.userID, user.devices)), ok))
      ensures CanFetch(s, poolID) && (ok ==> !Has(FetchPool(s, poolID).users, user.userID))
      ensures PoolManager.Sent(p.nodes.nodeMap, old(p.nodes.Mail()), if ok then p.nodes.nodeMap.Keys else {}, NOBODY,
                               UserCame(user.userID, old(user.devices)))
    {
      hide *;
      Ready(poolID, p, s);
      Elsewhere(poolID);
      ghost var s', ps, info := View(), parts[poolID], UserRecord(user.userID, user.devices);
      ghost var qs := Parts(ps.core, ps.folk + {user});
      UsersAre(p.members, ps.folk);
      ok := JoinTo(p, ps, lines, user);
      DisjointGrown(parts, objects, poolID, qs);
      assert lines + {} == lines;
      IsKept(p, qs, lines + {}, poolID, db);
      KeptHasValue(p, qs, lines + {}, poolID, db);
      UsersAre(p.members, qs.folk);
      ghost var users, stored := Infos(p.members.users), db.stored;
      StaysUnique(s.stored, poolID, users, stored);
      Finish(poolID, p, qs, {}, s');
      JoinPerforms(s, Call.JoinPool(poolID, info, ok), users, stored);
      SettleSame(s, s', poolID);
    }

    /** When the user goes with its last device, everybody who is connected to the pool hears of it. */
    method LeavePool(poolID: Id, userID: Id, deviceID: Id) returns (ok: bool)
      requires Valid()
      modifies this, db, objects, lines`sent
      ensures Valid() && fresh(objects - old(objects)) && lines == old(lines)
      ensures View() == Perform(old(View()), Call.LeavePool(poolID, userID, deviceID, ok))
      ensures ok ==> CanFetch(old(View()), poolID) && HasDevice(FetchPool(old(View()), poolID).users, userID, deviceID)
      ensures ok && poolID in View().stored ==>
        Held(View().stored[poolID], userID) ==
        Held(FetchPool(old(View()), poolID).users, userID) - multiset{deviceID}
      ensures !ok ==> View().stored == old(View()).stored
      ensures poolID in old(active) ==>
        var nodes := old(active[poolID]).nodes;
        PoolManager.Sent(nodes.nodeMap, old(active[poolID].nodes.Mail()),
          if ok && old(IsOnlyDevice(Infos(active[poolID].members.users), userID, deviceID)) then nodes.nodeMap.Keys
          else {}, NOBODY, UserWent(userID))
    {
      hide *;
      ghost var s := View();
      if poolID in active { PartsAreKnown(poolID); }
      var p := Fetch(poolID);
      if p == null {
        ok := false;
        NothingPerformed(s, Call.LeavePool(poolID, userID, deviceID, ok));
        LeavingGranted(s, Call.LeavePool(poolID, userID, deviceID, ok));
        return;
      }
      assert poolID in old(active) ==> p == old(active[poolID]) && p.nodes.Mail() == old(active[poolID].nodes.Mail());
      assert poolID in old(active) ==> Infos(p.members.users) == old(Infos(active[poolID].members.users));
      IsFetched(poolID, p, s);
      ok := LeaveFetched(poolID, p, userID, deviceID, s);
      LeavingGranted(s, Call.LeavePool(poolID, userID, deviceID, ok));
    }

    method LeaveFetched(poolID: Id, p: PoolInMemory, userID: Id, deviceID: Id, ghost s: Server) returns (ok: bool)
      requires Valid() && Fetched(poolID, p, s)
      modifies this, db, objects, lines`sent
      ensures Valid() && objects == old(objects) && lines == old(lines)
      ensures View() == Perform(s, Call.LeavePool(poolID, userID, deviceID, ok))
      ensures CanFetch(s, poolID) && Unique(FetchPool(s, poolID).users)
      ensures ok ==> HasDevice(FetchPool(s, poolID).users, userID, deviceID)
      ensures PoolManager.Sent(p.nodes.nodeMap, old(p.nodes.Mail()),
        if ok && old(IsOnlyDevice(Infos(p.members.users), userID, deviceID)) then p.nodes.nodeMap.Keys else {}, NOBODY,
        UserWent(userID))
    {
      hide *;
      Ready(poolID, p, s);
      Elsewhere(poolID);
      ghost var s', ps := View(), parts[poolID];
      UsersAre(p.members, ps.folk);
      ok := LeaveFrom(p, ps, lines, userID, deviceID);
      SameParts(parts, objects, poolID);
      assert lines + {} == lines;
      IsKept(p, ps, lines + {}, poolID, db);
      KeptHasValue(p, ps, lines + {}, poolID, db);
      UsersAre(p.members, ps.folk);
      ghost var users, stored := Infos(p.members.users), db.stored;
      StaysUnique(s.stored, poolID, users, stored);
      Finish(poolID, p, ps, {}, s');
      LeavePerforms(s, Call.LeavePool(poolID, userID, deviceID, ok), users, stored);
      SettleSame(s, s', poolID);
    }

    /** A new pool is in the database only. */
    method CreatePool(poolID: Id, owner: UserInfo) returns (ok: bool)
      requires Valid()
      modifies db
      ensures Valid()
      ensures View() ==
        Perform(old(View()), Call.CreatePool(poolID, UserRecord(owner.userID, owner.devices), ok))
      ensures ok ==> poolID in View().stored && View().stored[poolID] == [UserRecord(owner.userID, owner.devices)]
      ensures !ok ==> View().stored == old(View()).stored
    {
      hide *;
      IsValid();
      ghost var s, info := View(), UserRecord(owner.userID, owner.devices);
      AreObjects(parts, objects);
      var pool := StorePool.NewPool(poolID, db, owner);
      ok := pool != null;
      StaysUnique(s.stored, poolID, [info], db.stored);
      CreatePerforms(s, Call.CreatePool(poolID, info, ok));
      StoredIs(s.stored, poolID, [info]);
      OtherRecords(s);
    }

    /** The same pools, with other records. */
    lemma OtherRecords(s: Server)
      requires active.Keys == parts.Keys && this !in objects && db !in objects && lines !! objects
      requires Disjoint(parts, objects) && (forall i | i in db.stored :: Unique(db.stored[i]))
      requires forall i | i in active :: StandsAs(active[i], parts[i], lines, i, db, s)
      requires s.active.Keys == active.Keys
      ensures Valid() && View() == s.(stored := db.stored)
    {
      var s' := s.(stored := db.stored);
      hide *;
      forall i | i in active
        ensures StandsAs(active[i], parts[i], lines, i, db, s')
      {
        StandsHaveKey(active[i], parts[i], lines, i, db, s);
        StandsElsewhere(active[i], parts[i], lines, i, db, s, s');
      }
      ViewIs(s');
    }
  }

  lemma SameParts(parts: map<Id, Parts>, objects: set<object>, id: Id)
    requires Disjoint(parts, objects) && id in parts
    ensures Disjoint(parts[id := parts[id]], objects + parts[id].core + parts[id].folk)
    ensures objects + parts[id].core + parts[id].folk == objects
  {
    assert parts[id := parts[id]] == parts;
  }

  lemma DisconnectPerforms(s: Server, c: Call)
    requires c.DisconnectFromPool?
    ensures Perform(s, c) ==
      if c.poolID !in s.active then s
      else
        Settle(s, c.poolID, ActivePool(s.active[c.poolID].users, s.active[c.poolID].nodes - {c.nodeID}), s.stored)
  {
  }

  lemma ExistsPerforms(s: Server, c: Call)
    requires c.UserExistsInPool? && CanFetch(s, c.poolID)
    ensures Perform(s, c) == Settle(s, c.poolID, FetchPool(s, c.poolID), s.stored)
  {
  }

  lemma GivenUp(s: Server, s': Server, id: Id, pool: ActivePool)
    requires s' == s.(active := s.active[id := pool])
    ensures Settle(s, id, pool, s.stored) == if pool.nodes == {} then s'.(active := s'.active - {id}) else s'
  {
    Settled(s, id, pool, s.stored);
  }

  lemma JoinPerforms(s: Server, c: Call, users: Record, stored: map<Id, Record>)
    requires c.JoinPool? && CanFetch(s, c.poolID)
    requires var u := FetchPool(s, c.poolID).users;
      && users == UserAdded(u, c.user, c.ok) && (Has(u, c.user.userID) ==> !c.ok)
      && stored == if c.ok then Store(s.stored, c.poolID, users) else s.stored
    ensures Perform(s, c) == Settle(s, c.poolID, ActivePool(users, FetchPool(s, c.poolID).nodes), stored)
  {
    hide UserAdded, Store, FetchPool;
  }

  lemma LeavePerforms(s: Server, c: Call, users: Record, stored: map<Id, Record>)
    requires c.LeavePool? && CanFetch(s, c.poolID)
    requires var u := FetchPool(s, c.poolID).users;
      && users == DeviceRemoved(u, c.userID, c.deviceID, c.ok) && (!HasDevice(u, c.userID, c.deviceID) ==> !c.ok)
      && stored == if c.ok then Store(s.stored, c.poolID, users) else s.stored
    ensures Perform(s, c) == Settle(s, c.poolID, ActivePool(users, FetchPool(s, c.poolID).nodes), stored)
  {
    hide DeviceRemoved, Store, FetchPool;
  }

  lemma CreatePerforms(s: Server, c: Call)
    requires c.CreatePool?
    ensures Perform(s, c) == if c.ok then s.(stored := Store(s.stored, c.poolID, [c.owner])) else s
  {
  }

  lemma StoredIs(stored: map<Id, Record>, id: Id, users: Record)
    requires users != []
    ensures id in Store(stored, id, users) && Store(stored, id, users)[id] == users
  {
  }

  lemma NobodyIn(s: Server, poolID: Id, nodeID: Id)
    requires !CanFetch(s, poolID)
    ensures !IsLive(s, poolID, nodeID)
  {
  }

  lemma NowLive(s: Server, s': Server, poolID: Id, nodeID: Id, ok: bool)
    requires ok ==> poolID in s'.active && nodeID in s'.active[poolID].nodes
    requires !ok && poolID in s'.active ==> CanFetch(s, poolID) && s'.active[poolID] == FetchPool(s, poolID)
    ensures !IsLive(s, poolID, nodeID) ==> (ok <==> IsLive(s', poolID, nodeID))
  {
  }

  lemma NothingPerformed(s: Server, c: Call)
    requires !c.CreatePool? && !c.DisconnectFromPool? && !CanFetch(s, c.poolID)
    ensures Perform(s, c) == s
  {
  }

  lemma NotYetIn(s: Server, id: Id, nodeID: Id)
    requires CanFetch(s, id)
    ensures nodeID in FetchPool(s, id).nodes <==> IsLive(s, id, nodeID)
  {
  }

  lemma StaysUnique(stored: map<Id, Record>, id: Id, users: Record, stored': map<Id, Record>)
    requires (forall i | i in stored :: Unique(stored[i])) && Unique(users)
    requires stored' == stored || stored' == Store(stored, id, users)
    ensures forall i | i in stored' :: Unique(stored'[i])
  {
  }

  lemma ConnectPerforms(s: Server, c: Call, users: Record, stored: map<Id, Record>)
    requires c.ConnectToPool? && CanFetch(s, c.poolID)
    requires var u := FetchPool(s, c.poolID).users;
      && users == DeviceAdded(u, c.userID, c.deviceID, c.ok)
      && (!Has(u, c.userID) ==> !c.ok) && (HasDevice(u, c.userID, c.deviceID) ==> c.ok)
      && stored == if c.ok && !HasDevice(u, c.userID, c.deviceID) then Store(s.stored, c.poolID, users) else s.stored
    ensures Perform(s, c) == Settle(s, c.poolID,
      ActivePool(users, FetchPool(s, c.poolID).nodes + if c.ok then {c.nodeID} else {}), stored)
  {
    hide DeviceAdded, Store, FetchPool;
    var nodes := FetchPool(s, c.poolID).nodes;
    assert nodes + {} == nodes;
  }

  lemma SettleSame(s: Server, s': Server, id: Id)
    requires s'.active.Keys == s.active.Keys + {id}
    requires forall i | i in s.active && i != id :: s'.active[i] == s.active[i]
    ensures forall pool, stored :: Settle(s', id, pool, stored) == Settle(s, id, pool, stored)
  {
    forall pool: ActivePool, stored
      ensures Settle(s', id, pool, stored) == Settle(s, id, pool, stored)
    {
      SameElsewhere(s.active, s'.active, id, pool);
    }
  }

  lemma SameElsewhere<V>(a: map<Id, V>, b: map<Id, V>, id: Id, v: V)
    requires b.Keys == a.Keys + {id} && forall i | i in a && i != id :: b[i] == a[i]
    ensures b[id := v] == a[id := v] && b - {id} == a - {id}
  {
    var x, y := a[id := v], b[id := v];
    assert x.Keys == y.Keys;
    forall i | i in x
      ensures i in y && x[i] == y[i]
    {
      assert i in y.Keys;
    }
    assert x == y;
    assert b - {id} == y - {id} && a - {id} == x - {id};
  }

  lemma FetchIs(s: Server, id: Id)
    ensures CanFetch(s, id) <==> id in s.active || id in s.stored
    ensures id in s.active ==>
      FetchPool(s, id) == s.active[id] && s.active[id := s.active[id]] == s.active
    ensures id !in s.active && id in s.stored ==> FetchPool(s, id) == ActivePool(s.stored[id], {})
  {
  }

  lemma NoChannels(nodes: Pool)
    requires nodes.nodeMap == map[]
    ensures nodes.Channels() == {}
  {
  }

  lemma IsKept(p: PoolInMemory, parts: Parts, lines: set<Channel>, id: Id, db: Database)
    requires p.members.poolID == id && p.members.db == db
    requires NodesKept(p.nodes, parts.core, lines) && UsersKept(p.members, parts.folk)
    ensures Kept(p, parts, lines, id, db)
  {
  }

  lemma DisjointWithNew(parts: map<Id, Parts>, objects: set<object>, id: Id, ps: Parts)
    requires Disjoint(parts, objects) && ps.core !! objects && ps.folk !! objects && ps.core !! ps.folk
    ensures Disjoint(parts[id := ps], objects + ps.core + ps.folk)
  {
  }

  lemma DisjointWithout(parts: map<Id, Parts>, objects: set<object>, id: Id)
    requires Disjoint(parts, objects)
    ensures Disjoint(parts - {id}, objects)
  {
  }

  /** A pool's parts have grown by objects that no pool had. */
  lemma DisjointGrown(parts: map<Id, Parts>, objects: set<object>, id: Id, ps: Parts)
    requires Disjoint(parts, objects) && id in parts && ps.core !! ps.folk
    requires ps.core - parts[id].core !! objects && ps.folk - parts[id].folk !! objects
    ensures Disjoint(parts[id := ps], objects + ps.core + ps.folk)
  {
  }

  lemma ValueIs(p: PoolInMemory, parts: Parts, lines: set<Channel>, id: Id, db: Database, s: Server)
    requires StandsAs(p, parts, lines, id, db, s)
    ensures id in s.active && s.active[id] == ActivePool(Infos(p.members.users), p.nodes.nodeMap.Keys)
    ensures NodesKept(p.nodes, parts.core, lines) && UsersKept(p.members, parts.folk)
    ensures p.members.poolID == id && p.members.db == db
  {
    hide NodesKept, UsersKept, Infos;
  }

  lemma Settled(s: Server, id: Id, pool: ActivePool, stored: map<Id, Record>)
    ensures Settle(s, id, pool, stored) ==
      if pool.nodes == {} then Server(s.active[id := pool] - {id}, stored) else Server(s.active[id := pool], stored)
  {
    assert s.active[id := pool] - {id} == s.active - {id};
  }

  lemma StandsHaveKey(p: PoolInMemory, parts: Parts, lines: set<Channel>, id: Id, db: Database, s: Server)
    requires StandsAs(p, parts, lines, id, db, s)
    ensures id in s.active
  {
  }
}
