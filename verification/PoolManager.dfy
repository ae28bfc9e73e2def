/** What connecting to a pool and disconnecting from it send to everybody. */
module PoolManager {
  import opened Sets
  import opened ClusterTree
  import opened Ids
  import opened Paths
  import opened Placement
  import opened Promotion
  import opened Views
  import opened Directory
  import opened NodePools

  /** What is put on the channel of the holder of slot k when node `id` has come to slot l. */
  function ArrivalMail(t: Tree, l: Loc, id: Id, k: Loc, listing: seq<NodeEntry>): seq<ChanMessage> {
    Letters(Inbox(t, [Announcement(l, id)], k)) +
    [ToClient(if k == l then InitPool(listing) else AddNode(NodeEntry(id, Reported(l.panel))))]
  }

  /** What is put on the channel of the holder of slot k when the node of chain[0] has left. */
  function DepartureMail(t: Tree, chain: seq<Loc>, k: Loc): seq<ChanMessage>
    requires |chain| > 0
  {
    Letters(Inbox(Shifted(t, chain), RemovalNews(t, chain), k)) +
    [ToClient(RemoveNode(t.Get(chain[0]), PromotedEntries(t, chain)))]
  }

  /** es lists the nodes with ids in `done`. */
  ghost predicate Lists(nodes: map<Id, PoolNode>, done: set<Id>, es: seq<NodeEntry>)
    reads nodes.Values
  {
    && (forall id | id in done && id in nodes :: NodeEntry(id, Reported(nodes[id].Place().panel)) in es)
    && (forall e | e in es :: e.id in done && e.id in nodes && e.path == Reported(nodes[e.id].Place().panel))
  }

  /** The nodes with ids in `done`, except `self`, have got one more message since `mail`. */
  ghost predicate Sent(nodes: map<Id, PoolNode>, mail: Mailboxes, done: set<Id>, self: Id, m: ChanMessage)
    reads set k | k in nodes :: nodes[k].nodeChan
  {
    nodes.Keys == mail.Keys && forall k | k in nodes ::
      nodes[k].nodeChan.sent == if k in done && k != self then mail[k] + [m] else mail[k]
  }

  /** Everybody has on the channel what was there before and what the arrival of `id` in slot l adds. */
  ghost predicate ToldOfArrival(pool: Pool, before: Mailboxes, l: Loc, id: Id, listing: seq<NodeEntry>)
    reads pool, pool.nodeMap.Values, pool.Channels()
  {
    before.Keys == pool.nodeMap.Keys && forall k | k in pool.nodeMap ::
      pool.nodeMap[k].nodeChan.sent == before[k] + ArrivalMail(pool.tree, l, id, pool.Where(k), listing)
  }

  /** What follows the position messages of an arrival: the list of all nodes for the newcomer, its entry
      for everybody else, and nothing for a node that has the same id, which is not in the node map. */
  function Sequel(t: Tree, l: Loc, id: Id, k: Loc, listing: seq<NodeEntry>): seq<ChanMessage> {
    if k == l then [ToClient(InitPool(listing))]
    else if t.Get(k) == id then []
    else [ToClient(AddNode(NodeEntry(id, Reported(l.panel))))]
  }

  /** Everybody in a slot has on the channel what was there before and what the arrival adds. */
  ghost predicate SeatsTold(crew: Crew, mail: SlotMail, l: Loc, id: Id, listing: seq<NodeEntry>)
    reads crew.Channels()
  {
    mail.Keys == crew.seats.Keys && forall k | k in crew.seats ::
      crew.seats[k].nodeChan.sent ==
      mail[k] + Letters(SentTo(crew.tree, l, id, k)) + Sequel(crew.tree, l, id, k, listing)
  }

  /** A device comes. Its id may be that of a live node, when the device comes a second time: then the
      older node keeps its slot but is in nobody's reach. */
  method Connect(pool: Pool, nodeID: Id, userID: Id, nodeChan: Channel, now: nat, ghost before: Mailboxes)
    returns (node: PoolNode, initNodes: seq<NodeEntry>, ghost crew: Crew)
    requires pool.Valid() && nodeID != NOBODY && now > 0
    requires nodeChan !in pool.Channels() && nodeChan !in pool.Repr && Recorded(pool.nodeMap, before)
    modifies pool, pool.panels.Values, pool.Channels()`sent, nodeChan`sent, pool.memory`cells
    ensures fresh(pool.Repr - old(pool.Repr)) && fresh(node) && fresh(pool.memory - old(pool.memory))
    ensures Adds(old(pool.tree), nodeID, node.Place(), pool.tree) && pool.nodeMap == old(pool.nodeMap)[nodeID := node]
    ensures node.nodeChan == nodeChan && node.created == now && node.userID == userID
    ensures crew == Crew(pool.tree, Pool.SeatsOf(old(pool.tree), old(pool.nodeMap))[node.Place() := node])
    ensures pool.Seats(crew) && Lists(pool.nodeMap, pool.nodeMap.Keys, initNodes)
    ensures SeatsTold(crew, Pool.BySeat(old(pool.tree), before)[node.Place() := old(nodeChan.sent)],
                      node.Place(), nodeID, initNodes)
    ensures nodeID !in old(pool.nodeMap) ==>
      && pool.Valid() && IsListing(pool.tree, initNodes)
      && ToldOfArrival(pool, before[nodeID := old(nodeChan.sent)], node.Place(), nodeID, initNodes)
    ensures nodeID in old(pool.nodeMap) ==> !pool.tree.WellFormed()
  {
    hide *;
    pool.NowAre();
    ghost var t, nodes, first := pool.tree, pool.nodeMap, nodeChan.sent;
    Starts(pool, before);
    node, crew := pool.AddNode(nodeID, userID, nodeChan, now, before);
    pool.OneMore(old(pool.nodeMap), old(pool.Channels()), nodeID, node);
    NowIn(pool, crew, t, nodes, before, nodeID, node);
    initNodes := Introduce(pool, crew, t, nodes, before, nodeID, node, first);
  }

  /** What follows the announcement of a newcomer. */
  method Introduce(pool: Pool, ghost crew: Crew, ghost t: Tree, ghost nodes: map<Id, PoolNode>,
                   ghost before: Mailboxes, nodeID: Id, node: PoolNode, ghost first: seq<ChanMessage>)
    returns (initNodes: seq<NodeEntry>)
    requires IsIn(pool, crew, t, nodes, before, nodeID, node)
    requires node.nodeChan !in (set k | k in nodes :: nodes[k].nodeChan)
    requires pool.Readable(pool.nodeMap) && Apart(pool.nodeMap)
    requires crew.Heard(Pool.BySeat(t, before)[node.Place() := first], node.Place(), nodeID)
    requires nodeID !in nodes ==>
      pool.Valid() && pool.Informed(before[nodeID := first], [Announcement(node.Place(), nodeID)])
    modifies pool.Channels()`sent
    ensures Lists(pool.nodeMap, pool.nodeMap.Keys, initNodes)
    ensures SeatsTold(crew, Pool.BySeat(t, before)[node.Place() := first], node.Place(), nodeID, initNodes)
    ensures nodeID !in nodes ==>
      && pool.Valid() && IsListing(pool.tree, initNodes)
      && ToldOfArrival(pool, before[nodeID := first], node.Place(), nodeID, initNodes)
  {
    hide *;
    ghost var mail, told := pool.Mail(), before[nodeID := first];
    MailOfSeats(pool, crew, t, nodes, before, nodeID, node, first, mail);
    OwnSeat(pool, crew, t, nodes, before, nodeID, node, first);
    if nodeID !in nodes { MailNow(pool, mail, told, [Announcement(node.Place(), nodeID)]); }
    initNodes := Broadcast(pool, node, nodeID, mail);
    SeatsAreTold(pool, crew, t, nodes, before, nodeID, node, first, mail, initNodes);
    if nodeID !in nodes {
      pool.SupportedState();
      AllListed(pool, initNodes);
      ArrivalIsTold(pool, told, mail, nodeID, node, initNodes);
    }
  }

  /** The node has been put into a slot of the pool with tree t, and into the node map. */
  ghost predicate IsIn(pool: Pool, crew: Crew, t: Tree, nodes: map<Id, PoolNode>, before: Mailboxes, id: Id,
                       node: PoolNode)
    reads pool`nodeMap, node
  {
    && t.at.Values == nodes.Keys == before.Keys && node.Place() !in t.at && pool.nodeMap == nodes[id := node]
    && Apart(nodes)
    && crew.tree.at == t.at[node.Place() := id] && crew.seats == Pool.SeatsOf(t, nodes)[node.Place() := node]
  }

  /** `mail`, seat by seat: what a seat had before, and the announcement. A node with the same id is on
      no channel of the pool any more. */
  ghost predicate AnnouncedTo(crew: Crew, t: Tree, before: Mailboxes, id: Id, l: Loc, first: seq<ChanMessage>,
                              mail: Mailboxes) {
    && l in crew.seats && id in mail && mail[id] == first + Letters(SentTo(crew.tree, l, id, l))
    && forall k | k in t.at && t.at[k] != id ::
         t.at[k] in mail && t.at[k] in before && mail[t.at[k]] == before[t.at[k]] + Letters(SentTo(crew.tree, l, id, k))
  }

  lemma NowIn(pool: Pool, crew: Crew, t: Tree, nodes: map<Id, PoolNode>, before: Mailboxes, id: Id, node: PoolNode)
    requires t.at.Values == nodes.Keys == before.Keys && Apart(nodes) && Adds(t, id, node.Place(), pool.tree)
    requires pool.nodeMap == nodes[id := node]
    requires crew == Crew(pool.tree, Pool.SeatsOf(t, nodes)[node.Place() := node])
    ensures IsIn(pool, crew, t, nodes, before, id, node)
  {
    AddsOne(t, id, node.Place(), pool.tree);
  }

  lemma SeatOf(pool: Pool, crew: Crew, t: Tree, nodes: map<Id, PoolNode>, before: Mailboxes, id: Id,
               node: PoolNode, first: seq<ChanMessage>, k: Loc)
    requires IsIn(pool, crew, t, nodes, before, id, node) && k in t.at
    ensures k in crew.seats && k != node.Place() && t.at[k] in nodes && crew.seats[k] == nodes[t.at[k]]
    ensures t.at[k] in before && k in Pool.BySeat(t, before)
    ensures Pool.BySeat(t, before)[node.Place() := first][k] == before[t.at[k]]
    ensures crew.tree.Get(k) == t.at[k]
  {
    assert t.at[k] in t.at.Values;
  }

  lemma OwnSeat(pool: Pool, crew: Crew, t: Tree, nodes: map<Id, PoolNode>, before: Mailboxes, id: Id,
                node: PoolNode, first: seq<ChanMessage>)
    requires IsIn(pool, crew, t, nodes, before, id, node)
    ensures node.Place() in crew.seats && crew.seats[node.Place()] == node && id in pool.nodeMap
    ensures pool.nodeMap[id] == node
    ensures forall k | k in nodes && k != id :: k in pool.nodeMap && pool.nodeMap[k] == nodes[k]
    ensures forall k | k in crew.seats && k != node.Place() :: k in t.at
    ensures Pool.BySeat(t, before)[node.Place() := first].Keys == crew.seats.Keys
  {
    forall k | k in t.at
      ensures t.at[k] in nodes
    {
      assert t.at[k] in t.at.Values;
    }
  }

  lemma OlderIsOff(pool: Pool, nodes: map<Id, PoolNode>, id: Id, node: PoolNode)
    requires pool.nodeMap == nodes[id := node] && Apart(nodes) && id in nodes
    requires node.nodeChan !in (set k | k in nodes :: nodes[k].nodeChan)
    ensures nodes[id].nodeChan !in pool.Channels()
  {
    assert nodes[id].nodeChan in set k | k in nodes :: nodes[k].nodeChan;
  }

  lemma RecordedOf(nodes: map<Id, PoolNode>, mail: Mailboxes, k: Id)
    requires Recorded(nodes, mail) && k in nodes
    ensures k in mail && mail[k] == nodes[k].nodeChan.sent
  {
  }

  lemma HeardAt(crew: Crew, mail: SlotMail, l: Loc, id: Id, k: Loc)
    requires crew.Heard(mail, l, id) && k in crew.seats
    ensures k in mail && crew.seats[k].nodeChan.sent == mail[k] + Letters(SentTo(crew.tree, l, id, k))
  {
  }

  lemma MailOfSeats(pool: Pool, crew: Crew, t: Tree, nodes: map<Id, PoolNode>, before: Mailboxes, id: Id,
                    node: PoolNode, first: seq<ChanMessage>, mail: Mailboxes)
    requires IsIn(pool, crew, t, nodes, before, id, node) && Recorded(pool.nodeMap, mail)
    requires node.nodeChan !in (set k | k in nodes :: nodes[k].nodeChan)
    requires crew.Heard(Pool.BySeat(t, before)[node.Place() := first], node.Place(), id)
    ensures AnnouncedTo(crew, t, before, id, node.Place(), first, mail)
    ensures id in nodes ==> nodes[id].nodeChan !in pool.Channels()
    ensures forall k | k in t.at && t.at[k] == id ::
      id in nodes && id in before &&
      nodes[id].nodeChan.sent == before[id] + Letters(SentTo(crew.tree, node.Place(), id, k))
  {
    IsApart(pool, crew, t, nodes, before, id, node);
    if id in nodes { OlderIsOff(pool, nodes, id, node); }
    OwnSeat(pool, crew, t, nodes, before, id, node, first);
    RecordedOf(pool.nodeMap, mail, id);
    var mails := Pool.BySeat(t, before)[node.Place() := first];
    HeardAt(crew, mails, node.Place(), id, node.Place());
    hide IsIn, Recorded, Crew.Heard, Pool.BySeat, Pool.SeatsOf, Letters, SentTo, Apart, Pool.Channels;
    forall k | k in t.at
      ensures t.at[k] in nodes && t.at[k] in before
      ensures nodes[t.at[k]].nodeChan.sent == before[t.at[k]] + Letters(SentTo(crew.tree, node.Place(), id, k))
      ensures t.at[k] != id ==> t.at[k] in mail && mail[t.at[k]] == nodes[t.at[k]].nodeChan.sent
    {
      SeatOf(pool, crew, t, nodes, before, id, node, first, k);
      HeardAt(crew, mails, node.Place(), id, k);
      if t.at[k] != id { RecordedOf(pool.nodeMap, mail, t.at[k]); }
    }
  }

  lemma IsApart(pool: Pool, crew: Crew, t: Tree, nodes: map<Id, PoolNode>, before: Mailboxes, id: Id, node: PoolNode)
    requires IsIn(pool, crew, t, nodes, before, id, node)
    ensures Apart(nodes) && pool.nodeMap == nodes[id := node]
  {
  }

  lemma SentAt(nodes: map<Id, PoolNode>, mail: Mailboxes, id: Id, own: ChanMessage, m: ChanMessage, k: Id)
    requires id in mail && Sent(nodes, mail[id := mail[id] + [own]], nodes.Keys, id, m) && k in nodes
    ensures k in mail && nodes[k].nodeChan.sent == mail[k] + [if k == id then own else m]
  {
  }

  lemma SeatsAreTold(pool: Pool, crew: Crew, t: Tree, nodes: map<Id, PoolNode>, before: Mailboxes, id: Id,
                     node: PoolNode, first: seq<ChanMessage>, mail: Mailboxes, listing: seq<NodeEntry>)
    requires IsIn(pool, crew, t, nodes, before, id, node)
    requires AnnouncedTo(crew, t, before, id, node.Place(), first, mail)
    requires forall k | k in t.at && t.at[k] == id ::
      id in nodes && id in before &&
      nodes[id].nodeChan.sent == before[id] + Letters(SentTo(crew.tree, node.Place(), id, k))
    requires Sent(pool.nodeMap, mail[id := mail[id] + [ToClient(InitPool(listing))]],
      pool.nodeMap.Keys, id, ToClient(AddNode(NodeEntry(id, Reported(node.Place().panel)))))
    ensures SeatsTold(crew, Pool.BySeat(t, before)[node.Place() := first], node.Place(), id, listing)
  {
    var l, mails := node.Place(), Pool.BySeat(t, before)[node.Place() := first];
    var own, news := ToClient(InitPool(listing)), ToClient(AddNode(NodeEntry(id, Reported(l.panel))));
    OwnSeat(pool, crew, t, nodes, before, id, node, first);
    hide IsIn, Sent, Pool.BySeat, Pool.SeatsOf, Letters, SentTo, Reported;
    forall k | k in crew.seats
      ensures crew.seats[k].nodeChan.sent ==
        mails[k] + Letters(SentTo(crew.tree, l, id, k)) + Sequel(crew.tree, l, id, k, listing)
    {
      if k == l {
        SentAt(pool.nodeMap, mail, id, own, news, id);
      } else {
        SeatOf(pool, crew, t, nodes, before, id, node, first, k);
        if t.at[k] != id { SentAt(pool.nodeMap, mail, id, own, news, t.at[k]); }
      }
    }
  }

  lemma Starts(pool: Pool, before: Mailboxes)
    requires pool.Valid() && Recorded(pool.nodeMap, before)
    ensures pool.tree.at.Values == pool.nodeMap.Keys == before.Keys && Apart(pool.nodeMap)
  {
    pool.StateIsShape();
    pool.ChannelsAreApart();
  }

  lemma AddsOne(t: Tree, id: Id, l: Loc, t': Tree)
    requires Adds(t, id, l, t')
    ensures l !in t.at && t'.at == t.at[l := id]
  {
  }

  lemma MailNow(pool: Pool, mail: Mailboxes, before: Mailboxes, news: seq<Announcement>)
    requires pool.Informed(before, news) && Recorded(pool.nodeMap, mail)
    ensures pool.Delivered(before, news, mail) && mail.Keys == before.Keys == pool.nodeMap.Keys
  {
  }

  lemma ArrivalIsTold(pool: Pool, before: Mailboxes, mail: Mailboxes, nodeID: Id,
                      node: PoolNode, listing: seq<NodeEntry>)
    requires nodeID in pool.nodeMap && pool.nodeMap[nodeID] == node && pool.State()
    requires pool.Delivered(before, [Announcement(node.Place(), nodeID)], mail)
    requires nodeID in mail && Sent(pool.nodeMap, mail[nodeID := mail[nodeID] + [ToClient(InitPool(listing))]],
      pool.nodeMap.Keys, nodeID, ToClient(AddNode(NodeEntry(nodeID, Reported(node.Place().panel)))))
    ensures ToldOfArrival(pool, before, node.Place(), nodeID, listing)
  {
    hide Pool.State, Inbox, Letters;
    forall k | k in pool.nodeMap
      ensures pool.nodeMap[k].nodeChan.sent ==
        before[k] + ArrivalMail(pool.tree, node.Place(), nodeID, pool.Where(k), listing)
      ensures k in before
    {
      pool.WhereIsOccupied(k);
      pool.WhereIsOccupied(nodeID);
      assert pool.Where(k) == node.Place() <==> k == nodeID;
    }
  }

  /** Puts one message on the channel of one more node. */
  method Send(ghost nodes: map<Id, PoolNode>, ghost mail: Mailboxes, ghost done: set<Id>, ghost self: Id,
              m: ChanMessage, ghost k: Id, node: PoolNode)
    requires Apart(nodes) && Sent(nodes, mail, done, self, m)
    requires k in nodes && nodes[k] == node && k !in done && k != self
    modifies node.nodeChan`sent
    ensures Sent(nodes, mail, done + {k}, self, m)
  {
    node.nodeChan.sent := node.nodeChan.sent + [m];
  }

  lemma NotSent(nodes: map<Id, PoolNode>, mail: Mailboxes, done: set<Id>, self: Id, m: ChanMessage)
    requires Sent(nodes, mail, done, self, m)
    ensures Sent(nodes, mail, done + {self}, self, m)
  {
  }

  lemma ListMore(nodes: map<Id, PoolNode>, done: set<Id>, k: Id, es: seq<NodeEntry>)
    requires Lists(nodes, done, es) && k in nodes
    ensures Lists(nodes, done + {k}, es + [NodeEntry(k, Reported(nodes[k].Place().panel))])
  {
  }

  lemma AllListed(pool: Pool, es: seq<NodeEntry>)
    requires pool.State() && Lists(pool.nodeMap, pool.nodeMap.Keys, es)
    ensures IsListing(pool.tree, es)
  {
    hide Pool.State;
    forall e | e in es
      ensures exists l :: l in pool.tree.at && e == NodeEntry(pool.tree.at[l], Reported(l.panel))
    {
      pool.WhereIsOccupied(e.id);
    }
    forall l | l in pool.tree.at
      ensures NodeEntry(pool.tree.at[l], Reported(l.panel)) in es
    {
      pool.WhereIs(l);
    }
  }

  /** Tells everybody else about the new node, and the new node about everybody. */
  method Broadcast(pool: Pool, node: PoolNode, nodeID: Id, ghost mail: Mailboxes)
    returns (initNodes: seq<NodeEntry>)
    requires pool.Readable(pool.nodeMap) && Apart(pool.nodeMap) && Recorded(pool.nodeMap, mail)
    requires nodeID in pool.nodeMap && pool.nodeMap[nodeID] == node
    modifies pool.Channels()`sent
    ensures Lists(pool.nodeMap, pool.nodeMap.Keys, initNodes)
    ensures Sent(pool.nodeMap, mail[nodeID := mail[nodeID] + [ToClient(InitPool(initNodes))]],
                 pool.nodeMap.Keys, nodeID, ToClient(AddNode(NodeEntry(nodeID, Reported(node.Place().panel)))))
  {
    hide *;
    pool.PathOfNode(nodeID);
    pool.OnChannel(nodeID);
    var news := ToClient(AddNode(NodeEntry(node.nodeID, node.GetPath())));
    initNodes := [];
    var rest := pool.nodeMap.Keys;
    ghost var done: set<Id> := {};
    NobodyListed(pool, mail, nodeID, news);
    while rest != {}
      invariant pool.nodeMap.Keys == done + rest && done !! rest && pool.Readable(pool.nodeMap)
      invariant Lists(pool.nodeMap, done, initNodes) && Sent(pool.nodeMap, mail, done, nodeID, news)
    {
      SomebodyIn(rest);
      var k :| k in rest;
      var other := pool.nodeMap[k];
      pool.PathOfNode(k);
      pool.OnChannel(k);
      ListMore(pool.nodeMap, done, k, initNodes);
      initNodes := initNodes + [NodeEntry(other.nodeID, other.GetPath())];
      if other.nodeID != nodeID {
        Send(pool.nodeMap, mail, done, nodeID, news, k, other);
      } else {
        NotSent(pool.nodeMap, mail, done, nodeID, news);
      }
      rest, done := rest - {k}, done + {k};
    }
    SendSelf(pool.nodeMap, mail, nodeID, news, node, ToClient(InitPool(initNodes)));
  }

  method SendSelf(ghost nodes: map<Id, PoolNode>, ghost mail: Mailboxes, ghost self: Id, ghost m: ChanMessage,
              node: PoolNode, own: ChanMessage)
    requires Apart(nodes) && Sent(nodes, mail, nodes.Keys, self, m) && self in nodes && nodes[self] == node
    modifies node.nodeChan`sent
    ensures self in mail && Sent(nodes, mail[self := mail[self] + [own]], nodes.Keys, self, m)
  {
    node.nodeChan.sent := node.nodeChan.sent + [own];
  }

  lemma NobodyListed(pool: Pool, mail: Mailboxes, self: Id, m: ChanMessage)
    requires Recorded(pool.nodeMap, mail)
    ensures Lists(pool.nodeMap, {}, []) && Sent(pool.nodeMap, mail, {}, self, m)
    ensures pool.nodeMap.Keys == mail.Keys
  {
  }

  // ---- Disconnecting ----

  /** Everybody who is left has on the channel what was there before and what the departure adds. */
  ghost predicate ToldOfDeparture(pool: Pool, before: Mailboxes, t: Tree, chain: seq<Loc>)
    requires |chain| > 0
    reads pool, pool.nodeMap.Values, pool.Channels()
  {
    before.Keys == pool.nodeMap.Keys && forall k | k in pool.nodeMap ::
      pool.nodeMap[k].nodeChan.sent == before[k] + DepartureMail(t, chain, pool.Where(k))
  }

  method Disconnect(pool: Pool, nodeID: Id, ghost before: Mailboxes) returns (ghost chain: seq<Loc>)
    requires pool.Valid() && Recorded(pool.nodeMap, before)
    modifies pool`nodeMap, pool`tree, pool.panels.Values`nodes, pool.Channels()`sent
    modifies pool.nodeMap.Values`nodeID, pool.nodeMap.Values`containerNodePanel, pool.nodeMap.Values`partnerInt
    ensures pool.Valid() && pool.nodeMap == old(pool.nodeMap) - {nodeID}
    ensures nodeID !in old(pool.nodeMap) ==>
      && unchanged(pool) && Sent(pool.nodeMap, before, pool.nodeMap.Keys, NOBODY, ToClient(RemoveNode(nodeID, [])))
    ensures nodeID in old(pool.nodeMap) ==>
      && IsChain(old(pool.tree), old(pool.Births()), chain) && old(pool.tree).at[chain[0]] == nodeID
      && pool.tree == Shifted(old(pool.tree), chain)
      && ToldOfDeparture(pool, before - {nodeID}, old(pool.tree), chain)
      && old(pool.nodeMap[nodeID].nodeChan).sent == before[nodeID]
  {
    hide *;
    pool.NowAre();
    StartsSound(pool, nodeID);
    ghost var t, births := pool.tree, pool.Births();
    var promoted, node;
    promoted, node, chain := pool.RemoveNode(nodeID, before);
    pool.OneLess(old(pool.nodeMap), births, old(pool.Channels()), nodeID);
    if node != null { ChainStarts(t, births, chain); }
    Dismiss(pool, nodeID, promoted, node != null, t, births, chain, before);
  }

  /** What follows the announcements of a removal. */
  method Dismiss(pool: Pool, nodeID: Id, promoted: seq<PoolNode>, ghost removed: bool, ghost t: Tree,
                 ghost births: Births, ghost chain: seq<Loc>, ghost before: Mailboxes)
    requires pool.Valid()
    requires !removed ==> promoted == [] && Recorded(pool.nodeMap, before)
    requires removed ==>
      && t.Sound() && IsChain(t, births, chain) && t.Get(chain[0]) == nodeID && pool.tree == Shifted(t, chain)
      && pool.AreOfChain(promoted, t, chain) && pool.Informed(before - {nodeID}, RemovalNews(t, chain))
    modifies pool.Channels()`sent
    ensures pool.Valid()
    ensures !removed ==> Sent(pool.nodeMap, before, pool.nodeMap.Keys, NOBODY, ToClient(RemoveNode(nodeID, [])))
    ensures removed ==> ToldOfDeparture(pool, before - {nodeID}, t, chain)
  {
    hide *;
    pool.SupportedState();
    ghost var mail := pool.Mail();
    if removed {
      ChainStarts(t, births, chain);
      MailNow(pool, mail, before - {nodeID}, RemovalNews(t, chain));
    }
    StillReadable(pool);
    PromotedRead(pool, t, chain, promoted);
    var entries := BasicNodes(promoted);
    if !removed {
      SameMail(pool.nodeMap, before, mail);
    } else {
      EntriesOfPromoted(pool, t, births, chain, promoted, entries);
    }
    SendAll(pool, mail, ToClient(RemoveNode(nodeID, entries)));
    if removed { DepartureIsTold(pool, before - {nodeID}, mail, t, births, chain); }
    StillValid(pool);
  }

  lemma StillValid(pool: Pool)
    requires pool.State() && pool.PathsRead() && pool.tree.Supported()
    ensures pool.Valid()
  {
  }

  lemma SameMail(nodes: map<Id, PoolNode>, before: Mailboxes, mail: Mailboxes)
    requires Recorded(nodes, before) && Recorded(nodes, mail)
    ensures before == mail
  {
    forall k | k in before
      ensures k in mail && before[k] == mail[k]
    {
      assert k in nodes;
    }
  }

  lemma StartsSound(pool: Pool, id: Id)
    requires pool.Valid()
    ensures pool.State() && pool.tree.Sound()
    ensures id in pool.nodeMap ==> Pool.HasOwnChannel(pool.nodeMap, id)
  {
    pool.ChannelsAreApart();
  }

  lemma ChainStarts(t: Tree, births: Births, chain: seq<Loc>)
    requires IsChain(t, births, chain)
    ensures |chain| > 0 && chain[0] in t.at && t.Get(chain[0]) == t.at[chain[0]]
  {
  }

  lemma EntriesOfPromoted(pool: Pool, t: Tree, births: Births, chain: seq<Loc>, promoted: seq<PoolNode>,
                          entries: seq<NodeEntry>)
    requires pool.State() && |chain| > 0 && pool.AreOfChain(promoted, t, chain)
    requires t.Sound() && IsChain(t, births, chain) && pool.tree == Shifted(t, chain)
    requires |entries| == |promoted|
    requires forall i | 0 <= i < |entries| ::
      entries[i] == NodeEntry(promoted[i].nodeID, Reported(promoted[i].Place().panel))
    ensures entries == PromotedEntries(t, chain)
  {
    RemovalEffect(t, births, chain);
    ChainHolds(t, chain);
    assert |promoted| == |chain| - 1;
    hide *;
    forall i: nat | i < |promoted|
      ensures entries[i] == NodeEntry(t.Get(chain[i+1]), Reported(chain[i].panel))
    {
      EntryOfPromoted(pool, t, chain, promoted, i);
    }
    AllEntries(t, chain, entries);
  }

  lemma AllEntries(t: Tree, chain: seq<Loc>, entries: seq<NodeEntry>)
    requires |entries| == |chain| - 1
    requires forall i: nat | i < |entries| :: entries[i] == NodeEntry(t.Get(chain[i+1]), Reported(chain[i].panel))
    ensures entries == PromotedEntries(t, chain)
  {
  }

  lemma EntryOfPromoted(pool: Pool, t: Tree, chain: seq<Loc>, promoted: seq<PoolNode>, i: nat)
    requires pool.State() && pool.AreOfChain(promoted, t, chain) && i < |promoted| == |chain| - 1
    requires chain[i] in pool.tree.at && pool.tree.at[chain[i]] == t.Get(chain[i+1])
    ensures promoted[i].nodeID == t.Get(chain[i+1]) && promoted[i].Place().panel == chain[i].panel
  {
    hide Pool.State;
    assert pool.IsOfChain(promoted, t, chain, i);
    pool.WhereIs(chain[i]);
    pool.WhereIsOccupied(t.Get(chain[i+1]));
  }

  lemma ChainHolds(t: Tree, chain: seq<Loc>)
    requires t.WellFormed() && RunsDown(t, chain)
    ensures forall i: nat | i < |chain| - 1 ::
      chain[i] in Shifted(t, chain).at && Shifted(t, chain).at[chain[i]] == t.Get(chain[i+1])
  {
    ShiftedSlots(t, chain);
    forall i: nat | i < |chain| - 1
      ensures chain[i] in Shifted(t, chain).at
    {
      assert chain[i].panel.Level() < Last(chain).panel.Level();
    }
  }

  lemma LiveHaveNames(pool: Pool)
    requires pool.State()
    ensures NOBODY !in pool.nodeMap
  {
  }

  lemma DepartureIsTold(pool: Pool, before: Mailboxes, mail: Mailboxes, t: Tree, births: Births,
                        chain: seq<Loc>)
    requires pool.State() && IsChain(t, births, chain) && pool.tree == Shifted(t, chain)
    requires pool.Delivered(before, RemovalNews(t, chain), mail)
    requires Sent(pool.nodeMap, mail, pool.nodeMap.Keys, NOBODY,
                  ToClient(RemoveNode(t.Get(chain[0]), PromotedEntries(t, chain))))
    ensures ToldOfDeparture(pool, before, t, chain)
  {
    hide *;
    ChainStarts(t, births, chain);
    LiveHaveNames(pool);
    SameIds(pool, before, RemovalNews(t, chain), mail);
    forall k | k in pool.nodeMap
      ensures k in before && pool.nodeMap[k].nodeChan.sent == before[k] + DepartureMail(t, chain, pool.Where(k))
    {
      DeliveredAt(pool, before, RemovalNews(t, chain), mail, k);
      SentToAll(pool.nodeMap, mail, ToClient(RemoveNode(t.Get(chain[0]), PromotedEntries(t, chain))), k);
      DepartureMailIs(t, chain, pool.Where(k));
    }
    AllTold(pool, before, t, chain);
  }

  lemma SameIds(pool: Pool, before: Mailboxes, news: seq<Announcement>, mail: Mailboxes)
    requires pool.Delivered(before, news, mail)
    ensures before.Keys == pool.nodeMap.Keys
  {
  }

  lemma DeliveredAt(pool: Pool, before: Mailboxes, news: seq<Announcement>, mail: Mailboxes, k: Id)
    requires pool.Delivered(before, news, mail) && k in pool.nodeMap
    ensures k in before && k in mail && mail[k] == before[k] + Letters(Inbox(pool.tree, news, pool.Where(k)))
  {
  }

  lemma SentToAll(nodes: map<Id, PoolNode>, mail: Mailboxes, m: ChanMessage, k: Id)
    requires Sent(nodes, mail, nodes.Keys, NOBODY, m) && NOBODY !in nodes && k in nodes
    ensures k in mail && nodes[k].nodeChan.sent == mail[k] + [m]
  {
  }

  lemma DepartureMailIs(t: Tree, chain: seq<Loc>, k: Loc)
    requires |chain| > 0
    ensures DepartureMail(t, chain, k) ==
      Letters(Inbox(Shifted(t, chain), RemovalNews(t, chain), k)) +
      [ToClient(RemoveNode(t.Get(chain[0]), PromotedEntries(t, chain)))]
  {
  }

  lemma AllTold(pool: Pool, before: Mailboxes, t: Tree, chain: seq<Loc>)
    requires |chain| > 0 && before.Keys == pool.nodeMap.Keys
    requires forall k | k in pool.nodeMap ::
      pool.nodeMap[k].nodeChan.sent == before[k] + DepartureMail(t, chain, pool.Where(k))
    ensures ToldOfDeparture(pool, before, t, chain)
  {
  }

  lemma StillReadable(pool: Pool)
    requires pool.Valid()
    ensures pool.Readable(pool.nodeMap) && Apart(pool.nodeMap)
  {
    pool.AreReadable();
  }

  lemma PromotedRead(pool: Pool, t: Tree, chain: seq<Loc>, promoted: seq<PoolNode>)
    requires pool.Readable(pool.nodeMap)
    requires promoted == [] || pool.AreOfChain(promoted, t, chain)
    ensures forall node | node in promoted :: node.containerNodePanel.PathReads()
  {
    forall i | 0 <= i < |promoted|
      ensures promoted[i].containerNodePanel.PathReads()
    {
      assert pool.IsOfChain(promoted, t, chain, i);
      pool.PathOfNode(t.Get(chain[i+1]));
    }
  }

  /** The promoted nodes with the paths of the panels they are in now. */
  method BasicNodes(promoted: seq<PoolNode>) returns (entries: seq<NodeEntry>)
    requires forall node | node in promoted :: node.containerNodePanel.PathReads()
    ensures |entries| == |promoted|
    ensures forall i | 0 <= i < |entries| ::
      entries[i] == NodeEntry(promoted[i].nodeID, Reported(promoted[i].Place().panel))
  {
    entries := [];
    for i := 0 to |promoted|
      invariant |entries| == i
      invariant forall j | 0 <= j < i ::
        entries[j] == NodeEntry(promoted[j].nodeID, Reported(promoted[j].Place().panel))
    {
      entries := entries + [NodeEntry(promoted[i].nodeID, promoted[i].GetPath())];
    }
  }

  method SendAll(pool: Pool, ghost mail: Mailboxes, m: ChanMessage)
    requires pool.State() && Recorded(pool.nodeMap, mail)
    modifies pool.Channels()`sent
    ensures pool.State() && Sent(pool.nodeMap, mail, pool.nodeMap.Keys, NOBODY, m)
  {
    hide Pool.State, Lists, Sent, Recorded, Apart;
    var rest := pool.nodeMap.Keys;
    ghost var done: set<Id> := {};
    pool.ChannelsAreApart();
    NobodyListed(pool, mail, NOBODY, m);
    while rest != {}
      invariant pool.nodeMap.Keys == done + rest && done !! rest && pool.State()
      invariant Sent(pool.nodeMap, mail, done, NOBODY, m)
    {
      SomebodyIn(rest);
      var k :| k in rest;
      pool.WhereIsOccupied(k);
      Send(pool.nodeMap, mail, done, NOBODY, m, k, pool.nodeMap[k]);
      rest, done := rest - {k}, done + {k};
    }
  }

  /** Tells everybody who is connected about a user. */
  method TellAll(pool: Pool, m: ChanMessage)
    requires pool.Valid()
    modifies pool.Channels()`sent
    ensures pool.Valid() && pool.nodeMap == old(pool.nodeMap)
    ensures Sent(pool.nodeMap, old(pool.Mail()), pool.nodeMap.Keys, NOBODY, m)
  {
    hide *;
    pool.SupportedState();
    StillReadable(pool);
    SendAll(pool, pool.Mail(), m);
    StillValid(pool);
  }

  lemma NothingSent(pool: Pool, m: ChanMessage)
    ensures Sent(pool.nodeMap, pool.Mail(), {}, NOBODY, m)
  {
  }
}
