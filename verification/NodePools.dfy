/** The pool as the server keeps it: nodes, panels and clusters that point at each other and are
    changed in place, tied to the occupancy of `ClusterTree` by ghost fields. */
module NodePools {
  import opened ClusterTree
  import opened Ids
  import opened Placement
  import opened Paths
  import opened Promotion
  import opened Slices
  import opened Views
  import opened Directory

  datatype ChanMessage =
    | Position(position: PositionMessage)
    | ToClient(news: DirectoryMessage)
    | UserCame(userID: Id, devices: seq<Id>)
    | UserWent(userID: Id)

  /** What is on the channels of nodes. */
  type Mailboxes = map<Id, seq<ChanMessage>>

  /** The same, by the slots that hold them. */
  type SlotMail = map<Loc, seq<ChanMessage>>

  function Letters(ms: seq<PositionMessage>): (r: seq<ChanMessage>)
    ensures |r| == |ms|
  {
    seq(|ms|, (i: nat) requires i < |ms| => Position(ms[i]))
  }

  /** A node's channel, as the sequence of messages put on it so far. */
  class Channel {
    var sent: seq<ChanMessage>

    constructor ()
      ensures sent == []
    {
      sent := [];
    }
  }

  class PoolNode {
    var nodeID: Id
    const userID: Id
    const nodeChan: Channel
    var containerNodePanel: PoolNodePanel
    var partnerInt: nat
    const created: nat

    constructor (nodeID: Id, userID: Id, nodeChan: Channel, panel: PoolNodePanel, partnerInt: nat, created: nat)
      ensures this.nodeID == nodeID && this.userID == userID && this.nodeChan == nodeChan
      ensures containerNodePanel == panel && this.partnerInt == partnerInt && this.created == created
      ensures Place() == Loc(panel.place, partnerInt)
    {
      this.nodeID := nodeID;
      this.userID := userID;
      this.nodeChan := nodeChan;
      this.containerNodePanel := panel;
      this.partnerInt := partnerInt;
      this.created := created;
    }

    ghost function Place(): Loc
      reads this
    {
      Loc(containerNodePanel.place, partnerInt)
    }

    lemma StandsInPanel()
      ensures Place() == Loc(containerNodePanel.place, partnerInt)
    {
    }

    /** The path as clients are told it. */
    function GetPath(): (path: seq<int>)
      requires containerNodePanel.PathReads()
      reads this, containerNodePanel.path.backing`cells
      ensures path == Reported(Place().panel)
    {
      containerNodePanel.path.Elements()
    }

    method UpdateSingleNodePosition(position: nat, nodeID: Id)
      modifies nodeChan`sent
      ensures nodeChan.sent == old(nodeChan.sent) + [Position(Single(position, nodeID))]
    {
      nodeChan.sent := nodeChan.sent + [Position(Single(position, nodeID))];
    }

    /** What an announcement relies on: the node stands in its slot, or it has left and its slot is
        empty. */
    ghost predicate StandsIn(crew: Crew)
      reads this
    {
      && Place().panel.Valid() && partnerInt < 3
      && nodeID == crew.tree.Get(Place())
      && (if nodeID != NOBODY then Place() in crew.seats && crew.seats[Place()] == this else this !in crew.seats.Values)
    }

    /** The clusters around the node's panel hold the crew. */
    ghost predicate Surrounded(crew: Crew)
      requires crew.Manned()
      reads this, containerNodePanel, containerNodePanel.path.backing`cells
      reads containerNodePanel.parentCluster, containerNodePanel.parentCluster.panels
      reads containerNodePanel.childCluster
      reads if containerNodePanel.childCluster != null then containerNodePanel.childCluster.panels else []
      reads crew.seats.Values
    {
      && containerNodePanel.PathReads()
      && containerNodePanel.parentCluster.center == containerNodePanel.place.Centre?
      && crew.Shows(containerNodePanel.parentCluster, Home(containerNodePanel.place), 3)
      && if containerNodePanel.childCluster != null
         then crew.Shows(containerNodePanel.childCluster, Below(containerNodePanel.place), 2)
         else forall u | u in crew.tree.at :: !RightBelow(u, containerNodePanel.place)
    }

    lemma ReadyToTell(crew: Crew, before: SlotMail)
      requires crew.Manned() && StandsIn(crew) && Surrounded(crew) && before == crew.Mail()
      ensures before.Keys == crew.seats.Keys && Place() == Loc(containerNodePanel.place, partnerInt)
      ensures Place().panel.Valid() && crew.Announces(this, nodeID, Place())
      ensures crew.ToldUpTo(before, Place(), nodeID, 0)
      ensures containerNodePanel.PathReads()
      ensures crew.Shows(containerNodePanel.parentCluster, Home(containerNodePanel.place), 3)
      ensures containerNodePanel.parentCluster.center == containerNodePanel.place.Centre?
      ensures if containerNodePanel.childCluster != null
        then crew.Shows(containerNodePanel.childCluster, Below(containerNodePanel.place), 2)
        else forall u | u in crew.tree.at :: !RightBelow(u, containerNodePanel.place)
      ensures forall k | k in crew.seats :: crew.seats[k].nodeChan.sent == before[k]
    {
    }

    /** Tells every node nearby under which code it now finds this node, and tells the node
        itself its whole neighbourhood. */
    method UpdateNodePosition(ghost crew: Crew)
      requires crew.Manned() && StandsIn(crew) && Surrounded(crew)
      modifies crew.Channels()`sent
      ensures forall k | k in crew.seats ::
        crew.seats[k].nodeChan.sent ==
        old(crew.seats[k].nodeChan.sent) + Letters(SentTo(crew.tree, Place(), nodeID, k))
    {
      hide *;
      ghost var before := crew.Mail();
      ReadyToTell(crew, before);
      var panel := containerNodePanel;
      ghost var place := panel.place;
      var id, slot := nodeID, partnerInt;
      var center := panel.parentCluster.center;
      var childCluster := panel.childCluster;
      PathReadsReported(panel);
      var number := panel.GetPanelNumber();
      var path := panel.path.Elements();
      var parentIDs := TellCluster(crew, before, this, id, place, number, slot, panel.parentCluster);
      var childIDs := [[NOBODY, NOBODY, NOBODY], [NOBODY, NOBODY, NOBODY]];
      if childCluster != null {
        childIDs := TellChildren(crew, before, this, id, place, slot, childCluster);
      } else {
        crew.NobodyBelow(before, Loc(place, slot), id);
      }
      TellSelf(crew, before, this, id, place, NodePosition(path, slot, center, parentIDs, childIDs));
    }
  }

  /** Serves slot u, known under code c: returns who is there and tells it, unless it is the
      announcing node itself. */
  method TellSlot(ghost crew: Crew, ghost before: SlotMail, self: PoolNode, id: Id, ghost l: Loc,
                  ghost c: nat, ghost u: Loc, position: nat, node: PoolNode?)
    returns (seen: Id)
    requires crew.Manned() && crew.Announces(self, id, l) && before.Keys == crew.seats.Keys && c < 15
    requires crew.ToldUpTo(before, l, id, c)
    requires u == SlotSeen(l.panel, c) && crew.Seat(u, node) && (u != l ==> position == CodeSent(u.panel, l))
    modifies crew.Channels()`sent
    ensures crew.ToldUpTo(before, l, id, c + 1)
    ensures seen == crew.tree.Get(u)
  {
    seen := NOBODY;
    if node != null {
      seen := node.nodeID;
      if node != self {
        Tell(crew, before, l, id, c, position, node);
      } else {
        crew.NotServed(before, l, id, c);
      }
    } else {
      crew.NotServed(before, l, id, c);
    }
  }

  /** Serves the three slots of one panel, whose codes begin at c, and copies their ids. */
  method TellPanel(ghost crew: Crew, ghost before: SlotMail, self: PoolNode, id: Id, ghost l: Loc,
                   ghost c: nat, ghost p: Path, position: nat, nodes: seq<PoolNode?>)
    returns (row: seq<Id>)
    requires crew.Manned() && crew.Announces(self, id, l) && before.Keys == crew.seats.Keys && c + 3 <= 15
    requires crew.ToldUpTo(before, l, id, c)
    requires crew.Row(p, nodes)
    requires l.slot < 3 && Codes(l, c, p, position)
    modifies crew.Channels()`sent
    ensures crew.ToldUpTo(before, l, id, c + 3)
    ensures CopiedRow(crew.tree, p, 3, row)
  {
    row := [];
    ghost var k := c;
    for j := 0 to 3
      invariant k == c + j && crew.ToldUpTo(before, l, id, k)
      invariant CopiedRow(crew.tree, p, j, row)
    {
      var seen := TellSlot(crew, before, self, id, l, k, Loc(p, j), position, nodes[j]);
      CopiedEntry(crew.tree, p, j, row, seen);
      row := row + [seen];
      k := k + 1;
    }
  }

  method TellCluster(ghost crew: Crew, ghost before: SlotMail, self: PoolNode, id: Id,
                     ghost place: Path, number: nat, slot: nat, cluster: PoolNodeCluster)
    returns (parentIDs: seq<seq<Id>>)
    requires crew.Manned() && crew.Announces(self, id, Loc(place, slot)) && number == AsRead(place).number
    requires crew.Shows(cluster, Home(place), 3) && cluster.center == place.Centre?
    requires before.Keys == crew.seats.Keys && crew.ToldUpTo(before, Loc(place, slot), id, 0)
    modifies crew.Channels()`sent
    ensures crew.ToldUpTo(before, Loc(place, slot), id, 9)
    ensures Copied(crew.tree, Home(place), 3, parentIDs)
  {
    hide *;
    ghost var c := 0;
    parentIDs := [];
    NothingCopied(crew.tree, Home(place));
    crew.AnnouncedPlace(self, id, Loc(place, slot));
    for i := 0 to 3
      invariant c == 3 * i && crew.ToldUpTo(before, Loc(place, slot), id, c)
      invariant Copied(crew.tree, Home(place), i, parentIDs)
    {
      var position := number * 3 + slot;
      if i == 2 && !cluster.center {
        position := position + 9;
      }
      ClusterSlots(Loc(place, slot), i);
      crew.ShownRow(cluster, Home(place), 3, i);
      var row := TellPanel(crew, before, self, id, Loc(place, slot), c, Home(place).Panel(i), position,
                           cluster.panels[i].nodes);
      CopiedMore(crew.tree, Home(place), i, parentIDs, row);
      parentIDs := parentIDs + [row];
      c := c + 3;
    }
  }

  method TellChildren(ghost crew: Crew, ghost before: SlotMail, self: PoolNode, id: Id,
                      ghost place: Path, slot: nat, cluster: PoolNodeCluster)
    returns (childIDs: seq<seq<Id>>)
    requires crew.Manned() && crew.Announces(self, id, Loc(place, slot)) && crew.Shows(cluster, Below(place), 2)
    requires before.Keys == crew.seats.Keys && crew.ToldUpTo(before, Loc(place, slot), id, 9)
    modifies crew.Channels()`sent
    ensures crew.ToldUpTo(before, Loc(place, slot), id, 15)
    ensures Copied(crew.tree, Below(place), 2, childIDs)
  {
    hide *;
    ghost var c := 9;
    var position := 6 + slot;
    childIDs := [];
    NothingCopied(crew.tree, Below(place));
    crew.AnnouncedPlace(self, id, Loc(place, slot));
    for i := 0 to 2
      invariant c == 9 + 3 * i && crew.ToldUpTo(before, Loc(place, slot), id, c)
      invariant Copied(crew.tree, Below(place), i, childIDs)
    {
      BelowSlots(Loc(place, slot), i);
      crew.ShownRow(cluster, Below(place), 2, i);
      var row := TellPanel(crew, before, self, id, Loc(place, slot), c, Under(place, i), position,
                           cluster.panels[i].nodes);
      CopiedMore(crew.tree, Below(place), i, childIDs, row);
      childIDs := childIDs + [row];
      c := c + 3;
    }
  }

  method TellSelf(ghost crew: Crew, ghost before: SlotMail, self: PoolNode, id: Id, ghost place: Path,
                  view: NodePosition)
    requires crew.Manned() && crew.Announces(self, id, Loc(place, view.partnerInt))
    requires before.Keys == crew.seats.Keys && crew.ToldUpTo(before, Loc(place, view.partnerInt), id, 15)
    requires view.path == Reported(place) && view.centerCluster == place.Centre?
    requires Copied(crew.tree, Home(place), 3, view.parentClusterNodeIDs)
    requires Copied(crew.tree, Below(place), 2, view.childClusterNodeIDs)
    modifies crew.Channels()`sent
    ensures forall k | k in crew.seats ::
      crew.seats[k].nodeChan.sent == before[k] + Letters(SentTo(crew.tree, Loc(place, view.partnerInt), id, k))
  {
    hide *;
    ghost var l := Loc(place, view.partnerInt);
    crew.AnnouncedPlace(self, id, l);
    crew.EverybodyTold(before, l, id);
    if id != NOBODY {
      crew.Announcer(self, id, l);
      CopiedView(crew.tree, l, view.parentClusterNodeIDs, view.childClusterNodeIDs);
      self.nodeChan.sent := self.nodeChan.sent + [Position(Full(view))];
      SelfTold(crew.tree, l, id, view);
    } else {
      crew.NoAnnouncer(self, id, l);
    }
  }

  /** The ids of the first n slots of panel p, and of the first n panels of cluster c, as the tree has them. */
  ghost predicate CopiedRow(t: Tree, p: Path, n: nat, row: seq<Id>) {
    |row| == n && forall b: nat | b < n :: row[b] == t.Get(Loc(p, b))
  }

  ghost predicate Copied(t: Tree, c: Cluster, n: nat, ids: seq<seq<Id>>)
    requires n <= 3
  {
    |ids| == n && forall a: nat | a < n :: CopiedRow(t, c.Panel(a), 3, ids[a])
  }

  lemma PathReadsReported(panel: PoolNodePanel)
    requires panel.PathReads()
    ensures panel.path.Fits() && panel.path.Elements() == Reported(panel.place)
  {
  }

  lemma NothingCopied(t: Tree, c: Cluster)
    ensures Copied(t, c, 0, [])
  {
  }

  lemma CopiedEntry(t: Tree, p: Path, n: nat, row: seq<Id>, id: Id)
    requires CopiedRow(t, p, n, row) && id == t.Get(Loc(p, n))
    ensures CopiedRow(t, p, n + 1, row + [id])
  {
  }

  lemma CopiedMore(t: Tree, c: Cluster, n: nat, ids: seq<seq<Id>>, row: seq<Id>)
    requires n < 3 && Copied(t, c, n, ids) && CopiedRow(t, c.Panel(n), 3, row)
    ensures Copied(t, c, n + 1, ids + [row])
  {
  }

  /** The slots of panel p have the codes from c, and are told that slot l has code `position`. */
  ghost predicate Codes(l: Loc, c: nat, p: Path, position: nat)
    requires c + 3 <= 15
  {
    CodeSent(p, l) == position && forall j: nat | j < 3 :: SlotSeen(l.panel, c + j) == Loc(p, j)
  }

  lemma ClusterSlots(l: Loc, i: nat)
    requires l.panel.Valid() && l.slot < 3 && i < 3
    ensures Codes(l, 3 * i, Home(l.panel).Panel(i),
      AsRead(l.panel).number * 3 + l.slot + if i == 2 && l.panel.Under? then 9 else 0)
  {
    var p := Home(l.panel).Panel(i);
    assert l.panel.Under? ==> l.panel.up.Level() < l.panel.Level();
    assert p.Under? ==> p.up.Level() < p.Level();
    forall j: nat | j < 3
      ensures SlotSeen(l.panel, 3 * i + j) == Loc(p, j)
    {
      assert (3 * i + j) / 3 == i && (3 * i + j) % 3 == j;
    }
  }

  lemma BelowSlots(l: Loc, i: nat)
    requires l.panel.Valid() && l.slot < 3 && i < 2
    ensures Codes(l, 9 + 3 * i, Under(l.panel, i), 6 + l.slot)
  {
    assert l.panel.Level() < Under(l.panel, i).Level();
    forall j: nat | j < 3
      ensures SlotSeen(l.panel, 9 + 3 * i + j) == Loc(Under(l.panel, i), j)
    {
      assert (3 * i + j) / 3 == i && (3 * i + j) % 3 == j;
    }
  }

  lemma CopiedView(t: Tree, l: Loc, parentIDs: seq<seq<Id>>, childIDs: seq<seq<Id>>)
    requires l.panel.Valid() && l.slot < 3
    requires Copied(t, Home(l.panel), 3, parentIDs) && Copied(t, Below(l.panel), 2, childIDs)
    ensures NodePosition(Reported(l.panel), l.slot, l.panel.Centre?, parentIDs, childIDs) == SentView(t, l)
  {
    var v := NodePosition(Reported(l.panel), l.slot, l.panel.Centre?, parentIDs, childIDs);
    IntsShape(AsRead(l.panel));
    forall pos: nat | pos < 15
      ensures v.At(pos) == SentView(t, l).At(pos)
    {
    }
    SameEntries(v, SentView(t, l));
  }

  lemma SelfTold(t: Tree, l: Loc, id: Id, view: NodePosition)
    requires l.panel.Valid() && l.slot < 3 && id != NOBODY && view == SentView(t, l)
    ensures [Position(Full(view))] == Letters(SentTo(t, l, id, l))
  {
  }

  /** No two nodes share a channel. */
  ghost predicate Apart<K>(nodes: map<K, PoolNode>) {
    forall i, j | i in nodes && j in nodes && nodes[i].nodeChan == nodes[j].nodeChan :: i == j
  }

  /** The nodes that the slots hold. */
  datatype Crew = Crew(tree: Tree, seats: map<Loc, PoolNode>)
  {
    ghost function Channels(): set<Channel> {
      set k | k in seats :: seats[k].nodeChan
    }

    ghost predicate Manned() {
      && seats.Keys == tree.at.Keys
      && (forall l | l in tree.at :: l.panel.Valid() && l.slot < 3 && tree.at[l] != NOBODY)
      && Apart(seats)
    }

    /** `self` announces `id` for slot l: it stands there, or it has left and the slot is empty. */
    ghost predicate Announces(self: PoolNode, id: Id, l: Loc) {
      && l.panel.Valid() && l.slot < 3 && id == tree.Get(l)
      && (if id != NOBODY then l in seats && seats[l] == self else self !in seats.Values)
    }

    /** The array of a panel holds the nodes of the slots of p. */
    ghost predicate Row(p: Path, held: seq<PoolNode?>)
      requires Manned()
      reads seats.Values
    {
      |held| == 3 && forall j: nat | j < 3 :: Seat(Loc(p, j), held[j])
    }

    /** Slot u holds this node, or nobody. */
    ghost predicate Seat(u: Loc, held: PoolNode?)
      requires Manned()
      reads seats.Values
    {
      if u in seats then held != null && held == seats[u] && held.nodeID == tree.at[u] else held == null
    }

    /** The first n panels of the cluster object hold the nodes of the panels of c. */
    ghost predicate Shows(cluster: PoolNodeCluster, c: Cluster, n: nat)
      requires Manned() && n <= 3
      reads seats.Values, cluster, cluster.panels
    {
      && |cluster.panels| == 3
      && forall i: nat | i < n :: Row(c.Panel(i), cluster.panels[i].nodes)
    }

    lemma AnnouncedPlace(self: PoolNode, id: Id, l: Loc)
      requires Manned() && Announces(self, id, l)
      ensures l.panel.Valid() && l.slot < 3
    {
    }

    lemma ShownRow(cluster: PoolNodeCluster, c: Cluster, n: nat, i: nat)
      requires Manned() && n <= 3 && Shows(cluster, c, n) && i < n
      ensures |cluster.panels| == 3 && Row(c.Panel(i), cluster.panels[i].nodes)
      ensures c.Below? && i < 2 ==> c.Panel(i) == Under(c.connector, i)
    {
    }

    /** The announcing node is live and alone on its channel. */
    lemma Announcer(self: PoolNode, id: Id, l: Loc)
      requires Manned() && Announces(self, id, l) && id != NOBODY
      ensures l in seats && seats[l] == self && self.nodeChan in Channels()
      ensures forall k | k in seats && k != l :: seats[k].nodeChan != self.nodeChan
    {
    }

    /** A node that has left announces an empty slot. */
    lemma NoAnnouncer(self: PoolNode, id: Id, l: Loc)
      requires Manned() && Announces(self, id, l) && id == NOBODY
      ensures l !in seats
    {
    }

    ghost function Mail(): SlotMail
      reads Channels()
    {
      map k | k in seats :: seats[k].nodeChan.sent
    }

    lemma OneMore(more: Crew, node: PoolNode)
      requires Manned() && node.Place() !in seats && node.Place().panel.Valid() && node.partnerInt < 3
      requires node.nodeID != NOBODY && node.nodeChan !in Channels()
      requires more.tree.at == tree.at[node.Place() := node.nodeID] && more.seats == seats[node.Place() := node]
      ensures more.Manned() && node.StandsIn(more) && more.Channels() == Channels() + {node.nodeChan}
    {
      forall k | k in seats
        ensures seats[k].nodeChan in Channels()
      {
      }
      forall c | c in Channels()
        ensures c in more.Channels()
      {
        var k :| k in seats && c == seats[k].nodeChan;
        assert more.seats[k].nodeChan == c;
      }
      assert more.seats[node.Place()].nodeChan == node.nodeChan;
    }

    /** Since `mail`, every seat has been sent the announcement of node `id` in slot l. */
    ghost predicate Heard(mail: SlotMail, l: Loc, id: Id)
      reads Channels()
    {
      mail.Keys == seats.Keys && forall k | k in seats ::
        seats[k].nodeChan.sent == mail[k] + Letters(SentTo(tree, l, id, k))
    }

    /** What every node has on its channel when node `id` of slot l has announced itself to the
        slots with codes below c, given what was on the channels before. */
    ghost predicate ToldUpTo(before: SlotMail, l: Loc, id: Id, c: nat)
      requires before.Keys == seats.Keys
      reads Channels()
    {
      forall k | k in seats :: seats[k].nodeChan.sent == before[k] + Part(tree, l, id, k, c)
    }

    lemma NotServed(before: SlotMail, l: Loc, id: Id, c: nat)
      requires Manned() && before.Keys == seats.Keys && l.panel.Valid() && c < 15
      requires ToldUpTo(before, l, id, c) && (SlotSeen(l.panel, c) !in tree.at || SlotSeen(l.panel, c) == l)
      ensures ToldUpTo(before, l, id, c + 1)
    {
      forall k | k in seats
        ensures Part(tree, l, id, k, c + 1) == Part(tree, l, id, k, c)
      {
        PartStep(tree, l, id, k, c);
      }
    }

    lemma NobodyBelow(before: SlotMail, l: Loc, id: Id)
      requires Manned() && before.Keys == seats.Keys && l.panel.Valid() && ToldUpTo(before, l, id, 9)
      requires forall u | u in tree.at :: !RightBelow(u, l.panel)
      ensures ToldUpTo(before, l, id, 15)
      ensures Copied(tree, Below(l.panel), 2, [[NOBODY, NOBODY, NOBODY], [NOBODY, NOBODY, NOBODY]])
    {
    }

    lemma EverybodyTold(before: SlotMail, l: Loc, id: Id)
      requires Manned() && before.Keys == seats.Keys && l.panel.Valid() && ToldUpTo(before, l, id, 15)
      ensures forall k | k in seats ::
        seats[k].nodeChan.sent == before[k] + if k == l then [] else Letters(SentTo(tree, l, id, k))
    {
      forall k | k in seats && k != l
        ensures Part(tree, l, id, k, 15) == Letters(SentTo(tree, l, id, k))
      {
        AllServed(tree, l, id, k);
      }
    }
  }

  /** Serves the node in the slot that the holder of slot l knows under code c. */
  method Tell(ghost crew: Crew, ghost before: SlotMail, ghost l: Loc, id: Id, ghost c: nat,
              position: nat, node: PoolNode)
    requires crew.Manned() && before.Keys == crew.seats.Keys && l.panel.Valid() && c < 15
    requires crew.ToldUpTo(before, l, id, c)
    requires var u := SlotSeen(l.panel, c);
      u in crew.seats && u != l && crew.seats[u] == node && position == CodeSent(u.panel, l)
    modifies crew.Channels()`sent
    ensures crew.ToldUpTo(before, l, id, c + 1)
  {
    node.UpdateSingleNodePosition(position, id);
    ghost var u := SlotSeen(l.panel, c);
    forall k | k in crew.seats
      ensures crew.seats[k].nodeChan.sent == before[k] + Part(crew.tree, l, id, k, c + 1)
    {
      PartStep(crew.tree, l, id, k, c);
      if k != u { assert crew.seats[k].nodeChan != node.nodeChan; }
    }
  }

  /** The path of panel p as the server keeps it. */
  ghost predicate ReadsAs(path: Slice, p: Path)
    reads path.backing`cells
  {
    && path.len == p.Level() + 1 && |path.backing.cells| == PathCapacity(p.Level())
    && path.Elements() == Reported(p)
  }

  /** The paths of the two panels below panel p: when the connector's slice has spare capacity, both
      are written into the same cell, and both read 1 there. */
  method PathsBelow(path: Slice, ghost p: Path) returns (a: Slice, b: Slice)
    requires ReadsAs(path, p)
    modifies path.backing`cells
    ensures ReadsAs(path, p) && ReadsAs(a, Under(p, 0)) && ReadsAs(b, Under(p, 1))
    ensures a.backing == path.backing || fresh(a.backing)
    ensures b.backing == path.backing || fresh(b.backing)
    ensures || path.backing.cells == old(path.backing.cells)
            || OverwrittenAt(path.len, old(path.backing.cells), path.backing.cells)
  {
    a := Append(path, 0);
    b := Append(path, 1);
  }

  ghost predicate OverwrittenAt(d: nat, before: seq<int>, cells: seq<int>) {
    d < |before| && !OwnCell(d) && cells == before[d := 1]
  }

  /** A panel whose path is at most d + 1 long does not notice. */
  lemma StillReads(p: Path, d: nat, before: seq<int>, cells: seq<int>)
    requires p.Level() <= d && OverwrittenAt(d, before, cells)
    requires p.Level() < |before| && before[..p.Level() + 1] == Reported(p)
    ensures cells[..p.Level() + 1] == Reported(p)
  {
    if p.Level() == d {
      IntsShape(AsRead(p));
      assert before[d] == Reported(p)[d] == 1;
    }
  }

  class PoolNodePanel {
    const path: Slice
    ghost const place: Path
    var nodes: seq<PoolNode?>
    var parentCluster: PoolNodeCluster
    var childCluster: PoolNodeCluster?

    constructor (path: Slice, ghost place: Path, parentCluster: PoolNodeCluster)
      ensures this.path == path && this.place == place && this.parentCluster == parentCluster
      ensures nodes == [null, null, null] && childCluster == null
    {
      this.path := path;
      this.place := place;
      this.nodes := [null, null, null];
      this.parentCluster := parentCluster;
      this.childCluster := null;
    }

    ghost predicate PathReads()
      reads path.backing`cells
    {
      ReadsAs(path, place)
    }

    /** The number of its sibling, when the sibling has overwritten the shared element. */
    function GetPanelNumber(): (number: nat)
      requires PathReads()
      reads path.backing`cells
      ensures number == AsRead(place).number
    {
      IntsShape(AsRead(place));
      assert path.Elements()[path.len - 1] == path.backing.cells[path.len - 1];
      path.backing.cells[path.len - 1]
    }

    ghost function Held(i: nat): nat
      requires i < 3 && |nodes| == 3
      reads this
    {
      if nodes[i] != null then 1 else 0
    }

    method GetNodeAmount() returns (amount: nat)
      requires |nodes| == 3
      ensures amount == Held(0) + Held(1) + Held(2)
    {
      amount := 0;
      for i := 0 to 3
        invariant amount ==
          (if i > 0 then Held(0) else 0) + (if i > 1 then Held(1) else 0) + (if i > 2 then Held(2) else 0)
      {
        if nodes[i] != null { amount := amount + 1; }
      }
    }

    method GetChildNodeAmount(ghost pool: Pool) returns (amount: nat)
      requires pool.State() && place in pool.panels && pool.panels[place] == this
      ensures amount == pool.tree.SubtreeCount(place)
      decreases pool.tree.levels - place.Level()
    {
      hide Pool.State;
      amount := 0;
      pool.HeldIsTaken(place);
      pool.ChildPanels(place);
      for i := 0 to 3
        invariant amount ==
          (if i > 0 then Held(0) else 0) + (if i > 1 then Held(1) else 0) + (if i > 2 then Held(2) else 0)
      {
        if nodes[i] != null { amount := amount + 1; }
      }
      if childCluster != null {
        for i := 0 to 2
          invariant amount == pool.tree.PanelCount(place) +
            (if i > 0 then pool.tree.SubtreeCount(Under(place, 0)) else 0) +
            (if i > 1 then pool.tree.SubtreeCount(Under(place, 1)) else 0)
        {
          var below := childCluster.panels[i].GetChildNodeAmount(pool);
          amount := amount + below;
        }
      }
    }
  }

  class PoolNodeCluster {
    const center: bool
    var panels: seq<PoolNodePanel>

    constructor (center: bool)
      ensures this.center == center && panels == []
    {
      this.center := center;
      this.panels := [];
    }

    method GetNodeAmount() returns (amount: nat)
      requires |panels| == 3 && forall i | 0 <= i < 3 :: |panels[i].nodes| == 3
      ensures amount ==
        panels[0].Held(0) + panels[0].Held(1) + panels[0].Held(2) +
        panels[1].Held(0) + panels[1].Held(1) + panels[1].Held(2) +
        if center then panels[2].Held(0) + panels[2].Held(1) + panels[2].Held(2) else 0
    {
      amount := 0;
      var panelsNum := if center then 3 else 2;
      for i := 0 to panelsNum
        invariant amount ==
          (if i > 0 then panels[0].Held(0) + panels[0].Held(1) + panels[0].Held(2) else 0) +
          (if i > 1 then panels[1].Held(0) + panels[1].Held(1) + panels[1].Held(2) else 0) +
          (if i > 2 then panels[2].Held(0) + panels[2].Held(1) + panels[2].Held(2) else 0)
      {
        ghost var before := amount;
        for j := 0 to 3
          invariant amount == before + (if j > 0 then panels[i].Held(0) else 0)
            + (if j > 1 then panels[i].Held(1) else 0) + (if j > 2 then panels[i].Held(2) else 0)
        {
          if panels[i].nodes[j] != null { amount := amount + 1; }
        }
      }
    }
  }

  /** Number of clusters of a level, and the cluster with a given index in it. */
  function Width(d: nat): nat {
    if d == 0 then 1 else if d == 1 then 3 else 2 * Width(d - 1)
  }

  function PathAt(d: nat, j: nat): Path {
    if d == 0 then Centre(j) else Under(PathAt(d - 1, j / 2), j % 2)
  }

  function ClusterAt(d: nat, j: nat): Cluster {
    if d == 0 then Hub else Below(PathAt(d - 1, j))
  }

  lemma {:induction false} PathAtIsValid(d: nat, j: nat)
    requires j < Width(d + 1)
    ensures PathAt(d, j).Valid() && PathAt(d, j).Level() == d && PathAt(d, j).Rank() == j
  {
    if d > 0 { PathAtIsValid(d - 1, j / 2); }
  }

  lemma {:induction false} RankIsIndex(p: Path)
    requires p.Valid()
    ensures p.Rank() < Width(p.Level() + 1) && PathAt(p.Level(), p.Rank()) == p
  {
    if p.Under? { RankIsIndex(p.up); }
  }

  lemma ClusterAtIsValid(d: nat, j: nat)
    requires j < Width(d)
    ensures ClusterAt(d, j).Valid() && ClusterAt(d, j).Level() == d && ClusterAt(d, j).Rank() == j
  {
    if d > 0 { PathAtIsValid(d - 1, j); }
  }

  lemma ClusterIsIndexed(c: Cluster)
    requires c.Valid()
    ensures c.Rank() < Width(c.Level()) && ClusterAt(c.Level(), c.Rank()) == c
  {
    if c.Below? { RankIsIndex(c.connector); }
  }

  /** The announcement of node `id` of slot l as far as it has reached slot u when the slots
      with codes below c have been served. */
  ghost function Part(t: Tree, l: Loc, id: Id, u: Loc, c: nat): seq<ChanMessage> {
    if u != l && Near(l.panel, u.panel) && Code(l.panel, u) < c then Letters(SentTo(t, l, id, u)) else []
  }

  lemma PartStep(t: Tree, l: Loc, id: Id, u: Loc, c: nat)
    requires l.panel.Valid() && u.panel.Valid() && u.slot < 3 && c < 15
    ensures u != SlotSeen(l.panel, c) ==> Part(t, l, id, u, c + 1) == Part(t, l, id, u, c)
    ensures u == SlotSeen(l.panel, c) ==> Part(t, l, id, u, c) == []
    ensures u == SlotSeen(l.panel, c) && u != l ==>
      Part(t, l, id, u, c + 1) == [Position(Single(CodeSent(u.panel, l), id))]
    ensures u == l ==> Part(t, l, id, u, c + 1) == []
  {
    if Near(l.panel, u.panel) { CodeIsSeen(l.panel, u); }
    if u == SlotSeen(l.panel, c) {
      SeenIsNear(l.panel, c);
      SlotSeenOnce(l.panel, c, Code(l.panel, u));
    }
  }

  lemma AllServed(t: Tree, l: Loc, id: Id, u: Loc)
    requires l.panel.Valid() && u.panel.Valid() && u.slot < 3 && u != l
    ensures Part(t, l, id, u, 15) == Letters(SentTo(t, l, id, u))
  {
    if Near(l.panel, u.panel) { CodeIsSeen(l.panel, u); }
  }

  lemma {:induction false} WidthIsPositive(d: nat)
    ensures Width(d) > 0
  {
    if d > 1 { WidthIsPositive(d - 1); }
  }

  /** Of the first n clusters of level d, the one with this index is the least loaded, and the
      last of the least loaded ones. */
  ghost predicate LeastOfClusters(t: Tree, d: nat, n: nat, index: nat) {
    forall j: nat | j < n ::
      && t.ClusterCount(ClusterAt(d, index)) <= t.ClusterCount(ClusterAt(d, j))
      && (index < j ==> t.ClusterCount(ClusterAt(d, index)) < t.ClusterCount(ClusterAt(d, j)))
  }

  lemma LeastClusterStart(t: Tree, d: nat)
    ensures LeastOfClusters(t, d, 1, 0)
  {
  }

  lemma LeastClusterStep(t: Tree, d: nat, n: nat, index: nat)
    requires index < n && LeastOfClusters(t, d, n, index)
    ensures LeastOfClusters(t, d, n + 1,
      if t.ClusterCount(ClusterAt(d, n)) <= t.ClusterCount(ClusterAt(d, index)) then n else index)
  {
  }

  /** The same for the first n panels of a cluster. */
  ghost predicate LeastOfPanels(t: Tree, c: Cluster, n: nat, index: nat)
    requires n <= 3 && index < n
  {
    forall j: nat | j < n ::
      && t.PanelCount(c.Panel(index)) <= t.PanelCount(c.Panel(j))
      && (index < j ==> t.PanelCount(c.Panel(index)) < t.PanelCount(c.Panel(j)))
  }

  lemma LeastPanelStart(t: Tree, c: Cluster)
    ensures LeastOfPanels(t, c, 1, 0)
  {
  }

  lemma LeastPanelStep(t: Tree, c: Cluster, n: nat, index: nat)
    requires index < n < 3 && LeastOfPanels(t, c, n, index)
    ensures LeastOfPanels(t, c, n + 1, if t.PanelCount(c.Panel(n)) <= t.PanelCount(c.Panel(index)) then n else index)
  {
  }

  /** The slots hold exactly the nodes that the node map has under the ids of the tree. */
  ghost predicate Seating(t: Tree, nodes: map<Id, PoolNode>, held: map<Path, seq<PoolNode?>>) {
    && nodes.Keys == t.at.Values
    && (forall id | id in nodes :: nodes[id].created > 0)
    && (forall l | l in t.at :: l.panel in held)
    && (forall p {:trigger held[p]} | p in held :: |held[p]| == 3)
    && (forall p, s: nat {:trigger held[p][s]} | p in held && s < 3 ::
          held[p][s] == if Loc(p, s) in t.at then nodes[t.at[Loc(p, s)]] else null)
  }

  lemma SeatingAdd(t: Tree, nodes: map<Id, PoolNode>, held: map<Path, seq<PoolNode?>>, l: Loc, id: Id, node: PoolNode)
    requires Seating(t, nodes, held) && l !in t.at && l.panel in held && l.slot < 3 && id !in nodes && node.created > 0
    ensures Seating(t.(at := t.at[l := id]), nodes[id := node], held[l.panel := held[l.panel][l.slot := node]])
  {
    EntriesGrow(t.at, l, id);
    forall k | k in t.at
      ensures t.at[k] in nodes
    {
      assert t.at[k] in t.at.Values;
    }
  }

  lemma SeatingGrow(t: Tree, nodes: map<Id, PoolNode>, held: map<Path, seq<PoolNode?>>, p: Path)
    requires Seating(t, nodes, held) && p !in held
    ensures Seating(t, nodes, held[p := [null, null, null]])
  {
  }

  /** A node leaves its slot, and the node map. */
  lemma SeatingRemove(t: Tree, nodes: map<Id, PoolNode>, held: map<Path, seq<PoolNode?>>, l: Loc)
    requires t.WellFormed() && Seating(t, nodes, held) && l in t.at
    ensures Seating(Shifted(t, [l]), nodes - {t.at[l]}, held[l.panel := held[l.panel][l.slot := null]])
    ensures Shifted(t, [l]).WellFormed() && l !in Shifted(t, [l]).at
  {
    ShiftedIsWellFormed(t, [l]);
    ShiftedValues(t, [l]);
  }

  /** A node moves from slot l to the empty slot h of another panel. */
  lemma SeatingMove(t: Tree, nodes: map<Id, PoolNode>, held: map<Path, seq<PoolNode?>>, l: Loc, h: Loc)
    requires t.WellFormed() && Seating(t, nodes, held)
    requires l in t.at && h !in t.at && h.panel in held && h.slot < 3 && h.panel != l.panel
    ensures Seating(Moved(t, l, h), nodes,
      held[h.panel := held[h.panel][h.slot := nodes[t.at[l]]]][l.panel := held[l.panel][l.slot := null]])
  {
    MovedValues(t, l, h);
    assert t.at[l] in nodes;
  }

  lemma MovedValues(t: Tree, l: Loc, h: Loc)
    requires t.WellFormed() && l in t.at && h !in t.at
    ensures Moved(t, l, h).at.Values == t.at.Values
  {
    var m := Moved(t, l, h).at;
    assert m[h] == t.at[l];
    forall v | v in t.at.Values
      ensures v in m.Values
    {
      var k :| k in t.at && t.at[k] == v;
      assert v == if k == l then m[h] else m[k];
    }
  }

  lemma MovedIsWellFormed(t: Tree, l: Loc, h: Loc)
    requires t.WellFormed() && l in t.at && h !in t.at && t.HasSlot(h)
    ensures Moved(t, l, h).WellFormed()
  {
  }

  lemma SeatingLevel(t: Tree, nodes: map<Id, PoolNode>, held: map<Path, seq<PoolNode?>>)
    requires Seating(t, nodes, held)
    ensures Seating(t.(levels := t.levels + 1), nodes, held)
  {
  }

  lemma ConnectorPath(d: nat, i: nat, j: nat, panelsNum: nat, r: nat)
    requires i < Width(d) && j < panelsNum && r == panelsNum * i + j && panelsNum == if d > 0 then 2 else 3
    ensures r < Width(d + 1)
    ensures ClusterAt(d, i).Panel(j) == PathAt(d, r)
    ensures PathAt(d, r).Level() == d && PathAt(d, r).Rank() == r
  {
    PathAtIsValid(d, r);
  }

  /** `before` is what is on the nodes' channels now. */
  ghost predicate Recorded(nodes: map<Id, PoolNode>, before: Mailboxes)
    reads set k | k in nodes :: nodes[k].nodeChan
  {
    before.Keys == nodes.Keys && forall k | k in nodes :: nodes[k].nodeChan.sent == before[k]
  }

  class Pool {
    var clusterTree: seq<seq<PoolNodeCluster>>
    var nodeMap: map<Id, PoolNode>

    ghost var tree: Tree
    ghost var panels: map<Path, PoolNodePanel>
    ghost var clusters: map<Cluster, PoolNodeCluster>
    ghost var Repr: set<object>
    /** What the paths of the panels are kept in; different panels may share it. */
    ghost var memory: set<Backing>

    /** A pool with three empty panels in a centre cluster. */
    constructor NewNodePool()
      ensures Valid() && tree == NEW_TREE && nodeMap == map[] && fresh(Repr) && fresh(memory)
    {
      hide *;
      var centerCluster := new PoolNodeCluster(true);
      var centerPanels := CentrePanels(centerCluster);
      centerCluster.panels := centerPanels;
      clusterTree := [[centerCluster]];
      nodeMap := map[];
      tree := NEW_TREE;
      panels := map[Centre(0) := centerPanels[0], Centre(1) := centerPanels[1], Centre(2) := centerPanels[2]];
      clusters := map[Hub := centerCluster];
      Repr := {this, centerCluster, centerPanels[0], centerPanels[1], centerPanels[2]};
      memory := {centerPanels[0].path.backing, centerPanels[1].path.backing, centerPanels[2].path.backing};
      new;
      NewIsWired(centerCluster, centerPanels);
    }

    static method CentrePanels(cluster: PoolNodeCluster) returns (ps: seq<PoolNodePanel>)
      ensures |ps| == 3 && fresh(ps)
      ensures forall j: nat | j < 3 :: fresh(ps[j].path.backing) && IsEmptyCentrePanel(ps[j], j, cluster)
    {
      ps := [];
      for i := 0 to 3
        invariant |ps| == i && fresh(ps)
        invariant forall j: nat | j < i :: fresh(ps[j].path.backing) && IsEmptyCentrePanel(ps[j], j, cluster)
      {
        var path := new Backing([i]);
        var panel := new PoolNodePanel(Slice(path, 1), Centre(i), cluster);
        ps := ps + [panel];
      }
    }

    lemma NewIsWired(cluster: PoolNodeCluster, ps: seq<PoolNodePanel>)
      requires |ps| == 3 && clusterTree == [[cluster]] && tree == NEW_TREE && nodeMap == map[]
      requires cluster.center && cluster.panels == ps && clusters == map[Hub := cluster]
      requires panels == map[Centre(0) := ps[0], Centre(1) := ps[1], Centre(2) := ps[2]]
      requires Repr == {this, cluster, ps[0], ps[1], ps[2]}
      requires memory == {ps[0].path.backing, ps[1].path.backing, ps[2].path.backing}
      requires forall j: nat | j < 3 :: IsEmptyCentrePanel(ps[j], j, cluster)
      ensures Valid()
    {
      forall p
        ensures p in panels <==> HasPanel(p, 0)
      {
        assert p.Centre? && p.number < 3 ==> p.number in {0, 1, 2};
      }
      forall p {:trigger PanelWired(p)} | p in panels
        ensures PanelWired(p) && panels[p].nodes == [null, null, null]
      {
        assert IsEmptyCentrePanel(ps[p.number], p.number, cluster);
      }
      assert ClusterWired(Hub);
      assert IsAt(0, 0);
    }

    static ghost predicate IsEmptyCentrePanel(panel: PoolNodePanel, i: nat, cluster: PoolNodeCluster)
      reads panel, panel.path.backing`cells
    {
      && panel.place == Centre(i) && panel.PathReads() && panel.nodes == [null, null, null]
      && panel.parentCluster == cluster && panel.childCluster == null
    }

    /** Whether nobody is in the pool, which is when it is given up. */
    method IsEmpty() returns (empty: bool)
      ensures empty <==> nodeMap == map[]
      ensures State() ==> (empty <==> tree.at == map[])
    {
      empty := |nodeMap| == 0;
      if State() { NobodyIn(); }
    }

    lemma NobodyIn()
      requires State()
      ensures |nodeMap| == 0 <==> tree.at == map[]
    {
    }

    /** The panels and clusters of the listed levels, and of the first r clusters of the next one. */
    ghost predicate HasPanel(p: Path, r: nat)
      reads this`clusterTree
    {
      p.Valid() && (p.Level() < |clusterTree| || (p.Level() == |clusterTree| && p.Under? && p.up.Rank() < r))
    }

    ghost predicate HasCluster(c: Cluster, r: nat)
      reads this`clusterTree
    {
      c.Hub? || HasPanel(Under(c.connector, 0), r)
    }

    /** The panel of path p names its path and points at the clusters above and below it. */
    ghost predicate PanelWired(p: Path)
      requires p in panels
      reads this`panels, this`clusters, panels.Values`parentCluster, panels.Values`childCluster
    {
      && panels[p].place == p
      && Home(p) in clusters && panels[p].parentCluster == clusters[Home(p)]
      && panels[p].childCluster == if Below(p) in clusters then clusters[Below(p)] else null
    }

    ghost predicate Links(c: Cluster, i: nat)
      requires c in clusters && i < 3
      reads this`panels, this`clusters, clusters[c]
    {
      |clusters[c].panels| == 3 && c.Panel(i) in panels && clusters[c].panels[i] == panels[c.Panel(i)]
    }

    ghost predicate ClusterWired(c: Cluster)
      requires c in clusters
      reads this`panels, this`clusters, clusters[c]
    {
      clusters[c].center == c.Hub? && Links(c, 0) && Links(c, 1) && Links(c, 2)
    }

    /** Panels and clusters exist for exactly these paths and point at each other as the paths say. */
    ghost predicate WiredUpTo(r: nat)
      reads this`panels, this`clusters, this`clusterTree
      reads panels.Values`parentCluster, panels.Values`childCluster, clusters.Values
    {
      Covers(r) && Wired()
    }

    ghost predicate Covers(r: nat)
      reads this`panels, this`clusters, this`clusterTree
    {
      (forall p :: p in panels <==> HasPanel(p, r)) && (forall c :: c in clusters <==> HasCluster(c, r))
    }

    ghost predicate Wired()
      reads this`panels, this`clusters
      reads panels.Values`parentCluster, panels.Values`childCluster, clusters.Values
    {
      && (forall p {:trigger PanelWired(p)} | p in panels :: PanelWired(p))
      && (forall c {:trigger ClusterWired(c)} | c in clusters :: ClusterWired(c))
    }

    ghost predicate IsAt(d: nat, j: nat)
      requires d < |clusterTree| && j < |clusterTree[d]|
      reads this`clusterTree, this`clusters
    {
      ClusterAt(d, j) in clusters && clusterTree[d][j] == clusters[ClusterAt(d, j)]
    }

    /** The levels list the clusters in tree order. */
    ghost predicate Listed()
      reads this`clusterTree, this`clusters
    {
      && (forall d: nat | d < |clusterTree| :: |clusterTree[d]| == Width(d))
      && (forall d: nat, j: nat {:trigger IsAt(d, j)} | d < |clusterTree| && j < |clusterTree[d]| :: IsAt(d, j))
    }

    /** Slot s of panel p is empty when the tree says so; otherwise it holds the node that the node
        map has under the id in the tree, and that node knows its own slot. */
    ghost predicate SlotSeated(p: Path, s: nat)
      requires p in panels && s < 3
      reads this`panels, this`tree, this`nodeMap, panels.Values`nodes
      reads nodeMap.Values`nodeID, nodeMap.Values`containerNodePanel, nodeMap.Values`partnerInt
    {
      && |panels[p].nodes| == 3
      && var id := tree.Get(Loc(p, s));
         if Loc(p, s) in tree.at then
           && id in nodeMap && panels[p].nodes[s] == nodeMap[id] && nodeMap[id].created > 0
           && nodeMap[id].nodeID == id && nodeMap[id].containerNodePanel == panels[p] && nodeMap[id].partnerInt == s
         else panels[p].nodes[s] == null
    }

    ghost function HeldNodes(): map<Path, seq<PoolNode?>>
      reads this`panels, panels.Values`nodes
    {
      map p | p in panels :: panels[p].nodes
    }

    /** Every node of t knows its own id and slot. */
    static ghost predicate PlacedIn(t: Tree, nodes: map<Id, PoolNode>, ps: map<Path, PoolNodePanel>)
      reads nodes.Values`nodeID, nodes.Values`containerNodePanel, nodes.Values`partnerInt
    {
      forall l {:trigger t.at[l]} | l in t.at ::
        && l.panel in ps && t.at[l] in nodes && nodes[t.at[l]].nodeID == t.at[l]
        && nodes[t.at[l]].containerNodePanel == ps[l.panel] && nodes[t.at[l]].partnerInt == l.slot
    }

    /** The nodes have channels of their own, outside the pool's objects. */
    ghost predicate ApartIn(nodes: map<Id, PoolNode>)
      reads this`Repr
    {
      && (forall id | id in nodes :: nodes[id] in Repr && nodes[id].nodeChan !in Repr)
      && Apart(nodes)
    }

    /** The pool's own objects. */
    ghost predicate Owned()
      reads this`Repr, this`panels, this`clusters
    {
      && this in Repr
      && (forall p | p in panels :: panels[p] in Repr)
      && (forall c | c in clusters :: clusters[c] in Repr)
    }

    /** All that does not depend on what the panels hold, while r clusters of a new level exist. */
    ghost predicate ShapeUpTo(r: nat)
      reads this`clusterTree, this`nodeMap, this`tree, this`panels, this`clusters, this`Repr
      reads panels.Values`parentCluster, panels.Values`childCluster, clusters.Values, nodeMap.Values
    {
      && WiredUpTo(r) && Listed() && Owned() && PlacedIn(tree, nodeMap, panels) && ApartIn(nodeMap)
      && tree.WellFormed() && 1 <= tree.levels == |clusterTree|
    }

    ghost predicate Shape()
      reads this, panels.Values`parentCluster, panels.Values`childCluster, clusters.Values, nodeMap.Values
    {
      ShapeUpTo(0)
    }

    /** Consistency: the links between panels, clusters and
        levels are right, NodeMap and the occupied slots are in bijection, and every node knows
        its own slot. */
    ghost predicate State()
      reads this, panels.Values, clusters.Values, nodeMap.Values
    {
      Shape() && Seating(tree, nodeMap, HeldNodes())
    }

    /** Whatever panels share memory, every one of them reads this path. */
    ghost predicate PathsRead()
      reads this`panels, this`memory, memory`cells
    {
      forall p {:trigger PathRead(p)} | p in panels :: panels[p].path.backing in memory && PathRead(p)
    }

    ghost predicate PathRead(p: Path)
      requires p in panels
      reads this`panels, panels[p].path.backing`cells
    {
      panels[p].place == p && panels[p].PathReads()
    }

    /** The panels of a pool all read their own paths if and only if there are at most three levels. */
    lemma OwnPathsAreRead()
      requires State() && PathsRead()
      ensures forall p | p in panels :: panels[p].place == p && panels[p].path.Fits()
      ensures (forall p | p in panels :: panels[p].path.Elements() == p.Ints()) <==> tree.levels <= 3
    {
      forall p | p in panels
        ensures panels[p].place == p && panels[p].path.Fits() && panels[p].path.Elements() == Reported(p)
        ensures p.Valid() && p.Level() < tree.levels
      {
        assert PathRead(p);
        StillHasPanel(p);
      }
      forall p: Path | p.Valid() && p.Level() < tree.levels
        ensures p in panels
      {
        assert HasPanel(p, 0);
      }
      hide *;
      PathsReadRight(tree.levels);
    }

    ghost predicate Valid()
      reads this, panels.Values, clusters.Values, nodeMap.Values, memory`cells
    {
      State() && PathsRead() && tree.Supported()
    }

    ghost function Channels(): set<Channel>
      reads this`nodeMap
    {
      set id | id in nodeMap :: nodeMap[id].nodeChan
    }

    ghost function Births(): Births
      reads this`nodeMap
    {
      map id | id in nodeMap :: nodeMap[id].created
    }

    static ghost predicate HasOwnChannel(nodes: map<Id, PoolNode>, id: Id)
      requires id in nodes
    {
      forall k | k in nodes && k != id :: nodes[k].nodeChan != nodes[id].nodeChan
    }

    /** The channels and creation times of those who stay when `nodes` loses one. */
    lemma OneLess(nodes: map<Id, PoolNode>, births: Births, channels: set<Channel>, id: Id)
      requires nodeMap == nodes - {id}
      requires channels == (set k | k in nodes :: nodes[k].nodeChan) && births == map k | k in nodes :: nodes[k].created
      ensures Births() == births - {id} && Channels() <= channels && (id in nodes ==> nodes[id] in nodes.Values)
      ensures id in nodes && HasOwnChannel(nodes, id) ==> nodes[id].nodeChan !in Channels()
    {
    }

    /** The channels of everybody when `nodes` has got one more. */
    lemma OneMore(nodes: map<Id, PoolNode>, channels: set<Channel>, id: Id, node: PoolNode)
      requires nodeMap == nodes[id := node] && channels == (set k | k in nodes :: nodes[k].nodeChan)
      ensures Channels() <= channels + {node.nodeChan}
    {
    }

    lemma OnChannel(id: Id)
      requires id in nodeMap
      ensures nodeMap[id].nodeChan in Channels()
    {
    }

    lemma NowAre()
      ensures Channels() == (set k | k in nodeMap :: nodeMap[k].nodeChan)
      ensures Births() == map k | k in nodeMap :: nodeMap[k].created
    {
    }

    /** The slot in which a live node stands. */
    ghost function Where(id: Id): Loc
      requires id in nodeMap
      reads this`nodeMap, nodeMap[id]
    {
      nodeMap[id].Place()
    }

    /** The nodes in the slots. */
    ghost function Roster(): Crew
      reads this`tree, this`nodeMap
    {
      Crew(tree, SeatsOf(tree, nodeMap))
    }

    static ghost function SeatsOf(t: Tree, nodes: map<Id, PoolNode>): map<Loc, PoolNode> {
      map l | l in t.at && t.at[l] in nodes :: nodes[t.at[l]]
    }

    static ghost function BySeat(t: Tree, mail: Mailboxes): SlotMail {
      map l | l in t.at && t.at[l] in mail :: mail[t.at[l]]
    }

    /** What the panels hold is exactly these nodes. */
    static ghost predicate SeatsIn(seats: map<Loc, PoolNode>, held: map<Path, seq<PoolNode?>>) {
      && (forall l | l in seats :: l.panel in held)
      && (forall p {:trigger held[p]} | p in held :: |held[p]| == 3)
      && (forall p, s: nat {:trigger held[p][s]} | p in held && s < 3 ::
            held[p][s] == if Loc(p, s) in seats then seats[Loc(p, s)] else null)
    }

    /** The panels hold exactly the nodes of the crew, and these know their ids. */
    ghost predicate Seats(crew: Crew)
      reads this`panels, panels.Values`nodes, crew.seats.Values`nodeID
    {
      && SeatsIn(crew.seats, HeldNodes())
      && forall l | l in crew.seats :: l in crew.tree.at && crew.seats[l].nodeID == crew.tree.at[l]
    }

    static lemma OneMoreSeat(seats: map<Loc, PoolNode>, held: map<Path, seq<PoolNode?>>, l: Loc, node: PoolNode)
      requires SeatsIn(seats, held) && l.panel in held && l.slot < 3
      ensures SeatsIn(seats[l := node], held[l.panel := held[l.panel][l.slot := node]])
    {
    }

    lemma SlotIsSeated(l: Loc)
      requires State() && l.panel in panels && l.slot < 3
      ensures PanelWired(l.panel) && SlotSeated(l.panel, l.slot)
    {
      assert PanelWired(l.panel);
      assert HeldNodes()[l.panel] == panels[l.panel].nodes;
      assert HeldNodes()[l.panel][l.slot] == panels[l.panel].nodes[l.slot];
    }

    lemma WhereIs(l: Loc)
      requires State() && l in tree.at
      ensures tree.at[l] in nodeMap && Where(tree.at[l]) == l
    {
      SlotIsSeated(l);
    }

    lemma WhereIsOccupied(id: Id)
      requires State() && id in nodeMap
      ensures Where(id) in tree.at && tree.at[Where(id)] == id && nodeMap[id].nodeID == id
      ensures Where(id).panel in panels && panels[Where(id).panel] == nodeMap[id].containerNodePanel
      ensures Where(id).slot < 3
      ensures tree.WellFormed()
    {
      assert id in tree.at.Values;
      var l :| l in tree.at && tree.at[l] == id;
      SlotIsSeated(l);
    }

    /** These nodes know their ids and can read their paths. */
    ghost predicate Readable(nodes: map<Id, PoolNode>)
      reads nodes.Values, this`memory, memory`cells
    {
      forall id | id in nodes ::
        && nodes[id].nodeID == id && nodes[id].containerNodePanel.path.backing in memory
        && nodes[id].containerNodePanel.PathReads()
    }

    lemma AreReadable()
      requires Shape() && PathsRead() && nodeMap.Keys == tree.at.Values
      ensures Readable(nodeMap) && Apart(nodeMap)
    {
      forall id | id in nodeMap
        ensures nodeMap[id].nodeID == id && nodeMap[id].containerNodePanel.path.backing in memory
        ensures nodeMap[id].containerNodePanel.PathReads()
      {
        assert id in tree.at.Values;
        var l :| l in tree.at && tree.at[l] == id;
        assert PathRead(l.panel);
      }
    }

    /** One more node, or another one, that reads its path. */
    lemma OneMoreReadable(nodes: map<Id, PoolNode>, id: Id, node: PoolNode)
      requires Readable(nodes) && Apart(nodes) && node.nodeID == id && node.containerNodePanel.PathReads()
      requires node.containerNodePanel.path.backing in memory
      requires node.nodeChan !in set k | k in nodes :: nodes[k].nodeChan
      ensures Readable(nodes[id := node]) && Apart(nodes[id := node])
    {
      forall k | k in nodes
        ensures nodes[k].nodeChan != node.nodeChan
      {
        assert nodes[k].nodeChan in set j | j in nodes :: nodes[j].nodeChan;
      }
    }

    lemma PathOfNode(id: Id)
      requires Readable(nodeMap) && id in nodeMap
      ensures nodeMap[id].nodeID == id && nodeMap[id].containerNodePanel.PathReads()
    {
    }

    lemma ChildPanels(p: Path)
      requires State() && p in panels
      ensures PanelWired(p)
      ensures panels[p].childCluster != null <==> p.Level() + 1 < tree.levels
      ensures panels[p].childCluster != null ==>
        && |panels[p].childCluster.panels| == 3
        && ChildPanel(p, 0) && ChildPanel(p, 1)
    {
      assert PanelWired(p);
      if panels[p].childCluster != null {
        assert ClusterWired(Below(p));
        assert PanelWired(Under(p, 0)) && PanelWired(Under(p, 1));
      }
    }

    ghost predicate ChildPanel(p: Path, i: nat)
      requires p in panels && i < 2
      reads this, panels[p], panels[p].childCluster
    {
      && panels[p].childCluster != null && |panels[p].childCluster.panels| == 3
      && Under(p, i) in panels && Under(p, i).Level() == p.Level() + 1 < tree.levels
      && panels[p].childCluster.panels[i] == panels[Under(p, i)]
      && panels[Under(p, i)].place == Under(p, i)
    }

    lemma HeldIsTaken(p: Path)
      requires State() && p in panels
      ensures |panels[p].nodes| == 3
      ensures forall i: nat | i < 3 :: panels[p].Held(i) == tree.Taken(Loc(p, i))
    {
      SlotIsSeated(Loc(p, 0));
      SlotIsSeated(Loc(p, 1));
      SlotIsSeated(Loc(p, 2));
    }

    lemma HeldInCluster(c: Cluster)
      requires State() && c in clusters
      ensures ClusterWired(c)
      ensures forall i: nat | i < 3 :: |clusters[c].panels[i].nodes| == 3
      ensures forall i: nat, j: nat | i < 3 && j < 3 :: clusters[c].panels[i].Held(j) == tree.Taken(Loc(c.Panel(i), j))
    {
      assert ClusterWired(c);
      HeldIsTaken(c.Panel(0));
      HeldIsTaken(c.Panel(1));
      HeldIsTaken(c.Panel(2));
    }

    lemma RosterIsSeated()
      requires State()
      ensures Roster().Manned() && Seats(Roster()) && Roster().Channels() == Channels()
      ensures Roster().seats.Values == nodeMap.Values && Apart(nodeMap)
    {
      forall l | l in tree.at
        ensures tree.at[l] in nodeMap && nodeMap[tree.at[l]].nodeID == tree.at[l]
      {
        WhereIs(l);
      }
      forall id | id in nodeMap
        ensures Where(id) in tree.at && tree.at[Where(id)] == id && Roster().seats[Where(id)] == nodeMap[id]
      {
        WhereIsOccupied(id);
      }
    }

    lemma PanelIsShown(crew: Crew, p: Path)
      requires Seats(crew) && crew.Manned() && p in panels
      ensures crew.Row(p, panels[p].nodes)
    {
      assert HeldNodes()[p] == panels[p].nodes;
      forall j: nat | j < 3
        ensures |panels[p].nodes| == 3 && crew.Seat(Loc(p, j), panels[p].nodes[j])
      {
        assert HeldNodes()[p][j] == panels[p].nodes[j];
      }
    }

    lemma ClusterIsShown(crew: Crew, c: Cluster, n: nat)
      requires Wired() && Seats(crew) && crew.Manned() && c in clusters && n <= 3
      ensures crew.Shows(clusters[c], c, n)
    {
      assert ClusterWired(c);
      PanelIsShown(crew, c.Panel(0));
      PanelIsShown(crew, c.Panel(1));
      PanelIsShown(crew, c.Panel(2));
    }

    lemma NobodyBelowLastLevel(crew: Crew, p: Path)
      requires Wired() && Seats(crew) && crew.Manned() && p in panels && panels[p].childCluster == null
      ensures forall u | u in crew.tree.at :: !RightBelow(u, p)
    {
      assert PanelWired(p);
      forall u | u in crew.tree.at
        ensures Home(u.panel) in clusters
      {
        assert u in crew.seats;
        assert PanelWired(u.panel);
      }
    }

    // ---- Announcing ----

    /** The node stands in its slot, or it has left and its slot is empty. */
    ghost predicate Standing(node: PoolNode)
      reads this, nodeMap.Values, node
    {
      && node.containerNodePanel.place in panels && panels[node.containerNodePanel.place] == node.containerNodePanel
      && node.partnerInt < 3 && node.nodeID == tree.Get(node.Place())
      && (if node.nodeID != NOBODY then node.nodeID in nodeMap && nodeMap[node.nodeID] == node
          else node !in nodeMap.Values)
    }

    method Announce(node: PoolNode, ghost before: Mailboxes)
      requires State() && PathsRead() && Standing(node)
      requires Recorded(nodeMap, before)
      modifies Channels()`sent
      ensures State() && unchanged(this) && unchanged(node)
      ensures Heard(before, node.Place(), node.nodeID)
    {
      hide *;
      ghost var crew := Roster();
      RosterIs(before);
      StandsInRoster(node);
      SurroundedByCrew(node, crew);
      node.UpdateNodePosition(crew);
      HaveHeard(crew, before, node.Place(), node.nodeID);
    }

    lemma RosterIs(before: Mailboxes)
      requires State() && Recorded(nodeMap, before)
      ensures before.Keys == nodeMap.Keys && forall k | k in nodeMap :: before[k] == nodeMap[k].nodeChan.sent
      ensures Roster().tree == tree && Roster().Channels() == Channels()
      ensures forall k | k in nodeMap :: Where(k) in Roster().seats && Roster().seats[Where(k)] == nodeMap[k]
    {
      RosterIsSeated();
      forall k | k in nodeMap
        ensures Where(k) in Roster().seats && Roster().seats[Where(k)] == nodeMap[k]
      {
        WhereIsOccupied(k);
      }
    }

    lemma HaveHeard(crew: Crew, before: Mailboxes, l: Loc, id: Id)
      requires crew.tree == tree && before.Keys == nodeMap.Keys
      requires forall k | k in nodeMap :: Where(k) in crew.seats && crew.seats[Where(k)] == nodeMap[k]
      requires forall k | k in nodeMap ::
        nodeMap[k].nodeChan.sent == before[k] + Letters(SentTo(crew.tree, l, id, Where(k)))
      ensures Heard(before, l, id)
    {
    }

    lemma StandsInRoster(node: PoolNode)
      requires State() && Standing(node)
      ensures Shape() && Roster().Manned() && Seats(Roster()) && node.StandsIn(Roster())
      ensures node.containerNodePanel.place in panels
      ensures panels[node.containerNodePanel.place] == node.containerNodePanel
    {
      RosterIsSeated();
      SlotIsSeated(node.Place());
      StillHasPanel(node.Place().panel);
    }

    lemma SurroundedByCrew(node: PoolNode, crew: Crew)
      requires Shape() && PathsRead() && crew.Manned() && Seats(crew)
      requires node.containerNodePanel.place in panels
      requires panels[node.containerNodePanel.place] == node.containerNodePanel
      ensures node.Surrounded(crew)
    {
      hide SeatsIn;
      var p := node.Place().panel;
      assert PathRead(p);
      assert PanelWired(p);
      assert ClusterWired(Home(p));
      ClusterIsShown(crew, Home(p), 3);
      if panels[p].childCluster != null {
        ClusterIsShown(crew, Below(p), 2);
      } else {
        NobodyBelowLastLevel(crew, p);
      }
    }

    // ---- Adding a node ----

    lemma ClusterInLevel(i: nat, j: nat)
      requires State() && i < |clusterTree| && j < |clusterTree[i]|
      ensures IsAt(i, j) && ClusterWired(ClusterAt(i, j)) && clusterTree[i][j].center == (i == 0)
    {
    }

    /** GetNodeAmount of a cluster is its share of the tree's occupancy. */
    method ClusterNodeAmount(i: nat, j: nat) returns (amount: nat)
      requires State() && i < |clusterTree| && j < |clusterTree[i]|
      ensures amount == tree.ClusterCount(ClusterAt(i, j))
    {
      ClusterInLevel(i, j);
      HeldInCluster(ClusterAt(i, j));
      amount := clusterTree[i][j].GetNodeAmount();
    }

    method PanelNodeAmount(ghost c: Cluster, cluster: PoolNodeCluster, i: nat) returns (amount: nat)
      requires State() && c in clusters && clusters[c] == cluster && i < 3
      ensures amount == tree.PanelCount(c.Panel(i))
    {
      HeldInCluster(c);
      amount := cluster.panels[i].GetNodeAmount();
    }

    lemma LevelIsListed(i: nat)
      requires State() && i < |clusterTree|
      ensures |clusterTree[i]| == Width(i)
    {
    }

    /** The least loaded cluster of a level, the last one among equals. */
    method LeastLoadedCluster(i: nat) returns (lowest: nat, index: nat)
      requires State() && i < |clusterTree|
      ensures index < Width(i) && lowest == tree.ClusterCount(ClusterAt(i, index))
      ensures LeastOfClusters(tree, i, Width(i), index)
    {
      LevelIsListed(i);
      hide *;
      WidthIsPositive(i);
      LeastClusterStart(tree, i);
      lowest := ClusterNodeAmount(i, 0);
      index := 0;
      for j := 1 to |clusterTree[i]|
        invariant index < j && lowest == tree.ClusterCount(ClusterAt(i, index))
        invariant LeastOfClusters(tree, i, j, index)
      {
        var amount := ClusterNodeAmount(i, j);
        LeastClusterStep(tree, i, j, index);
        if amount <= lowest {
          lowest := amount;
          index := j;
        }
      }
    }

    /** The least loaded of the first panels of a cluster, the last one among equals. */
    method LeastLoadedPanel(ghost c: Cluster, cluster: PoolNodeCluster, panelsNum: nat) returns (index: nat)
      requires State() && c in clusters && clusters[c] == cluster && panelsNum == c.OwnPanels()
      ensures index < panelsNum && LeastOfPanels(tree, c, panelsNum, index)
    {
      hide State, LeastOfPanels, Tree.PanelCount;
      var lowest := PanelNodeAmount(c, cluster, 0);
      LeastPanelStart(tree, c);
      index := 0;
      for j := 1 to panelsNum
        invariant index < j && lowest == tree.PanelCount(c.Panel(index))
        invariant LeastOfPanels(tree, c, j, index)
      {
        var amount := PanelNodeAmount(c, cluster, j);
        LeastPanelStep(tree, c, j, index);
        if amount <= lowest {
          lowest := amount;
          index := j;
        }
      }
    }

    /** The first empty slot of a panel. */
    method FirstFreeSlot(ghost p: Path, panel: PoolNodePanel) returns (slot: nat)
      requires State() && p in panels && panels[p] == panel && tree.PanelCount(p) < 3
      ensures slot < 3 && Loc(p, slot) !in tree.at && forall s: nat | s < slot :: Loc(p, s) in tree.at
    {
      hide State;
      slot := 0;
      SlotIsSeated(Loc(p, 0));
      while slot < 3 && panel.nodes[slot] != null
        invariant slot <= 3 && forall s: nat | s < slot :: Loc(p, s) in tree.at
      {
        SlotIsSeated(Loc(p, slot));
        slot := slot + 1;
      }
      if slot < 3 { SlotIsSeated(Loc(p, slot)); }
    }

    /** Writes one entry of a panel's array. */
    method Hold(panel: PoolNodePanel, slot: nat, node: PoolNode?)
      requires Shape() && panel.place in panels && panels[panel.place] == panel && slot < |panel.nodes|
      modifies panel`nodes
      ensures panel.nodes == old(panel.nodes)[slot := node]
      ensures Shape()
      ensures HeldNodes() == old(HeldNodes())[panel.place := old(panel.nodes)[slot := node]]
    {
      panel.nodes := panel.nodes[slot := node];
      forall p | p in panels && p != panel.place
        ensures panels[p] != panel
      {
        assert PanelWired(p);
      }
    }

    /** Puts a node that is in its slot already into the node map; whoever has had this id is no
        longer in it. */
    method Enter(ghost l: Loc, id: Id, node: PoolNode)
      requires Shape() && l.panel in panels && l.slot < 3 && l !in tree.at && id != NOBODY
      requires id !in nodeMap ==> Seating(tree.(at := tree.at[l := id]), nodeMap[id := node], HeldNodes())
      requires node.nodeID == id && node.containerNodePanel == panels[l.panel] && node.partnerInt == l.slot
      requires node.nodeChan !in Channels() && node.nodeChan !in Repr
      modifies this`nodeMap, this`tree, this`Repr
      ensures Repr == old(Repr) + {node}
      ensures nodeMap == old(nodeMap)[id := node] && tree == old(tree).(at := old(tree.at)[l := id])
      ensures id !in old(nodeMap) ==> State()
    {
      Adopt(node);
      if id !in nodeMap { StaysPlaced(l, id, node); }
      SwitchTo(nodeMap[id := node], tree.(at := tree.at[l := id]), id !in nodeMap);
    }

    /** Switches to another node map and occupancy; the pool is consistent when they agree with each
        other and with what the panels hold. */
    method SwitchTo(nodes: map<Id, PoolNode>, ghost t: Tree, ghost agree: bool)
      requires Shape()
      requires agree ==> t.WellFormed() && t.levels == tree.levels
      requires agree ==> PlacedIn(t, nodes, panels) && ApartIn(nodes) && Seating(t, nodes, HeldNodes())
      modifies this`nodeMap, this`tree
      ensures nodeMap == nodes && tree == t
      ensures agree ==> State()
    {
      nodeMap := nodes;
      tree := t;
    }

    ghost method Adopt(node: PoolNode)
      requires Shape() && node.nodeChan !in Channels() && node.nodeChan !in Repr
      modifies this`Repr
      ensures Shape() && Repr == old(Repr) + {node} && node.nodeChan !in Repr
    {
      Repr := Repr + {node};
    }

    lemma StaysPlaced(l: Loc, id: Id, node: PoolNode)
      requires Shape() && l.panel in panels && l.slot < 3
      requires l !in tree.at && id != NOBODY && id !in nodeMap && node in Repr
      requires Seating(tree.(at := tree.at[l := id]), nodeMap[id := node], HeldNodes())
      requires node.nodeID == id && node.containerNodePanel == panels[l.panel] && node.partnerInt == l.slot
      requires node.nodeChan !in Channels() && node.nodeChan !in Repr
      ensures tree.(at := tree.at[l := id]).WellFormed()
      ensures PlacedIn(tree.(at := tree.at[l := id]), nodeMap[id := node], panels)
      ensures ApartIn(nodeMap[id := node])
    {
      forall k | k in tree.at
        ensures tree.at[k] in nodeMap && tree.at[k] != id
      {
      }
      forall i | i in nodeMap
        ensures nodeMap[i].nodeChan != node.nodeChan
      {
        assert nodeMap[i].nodeChan in Channels();
      }
    }

    /** The panel and the slot for a new node in a least loaded cluster that has room. */
    method ChoosePlace(ghost c: Cluster, cluster: PoolNodeCluster, panelsNum: nat)
      returns (panel: PoolNodePanel, slot: nat)
      requires State() && c in clusters && clusters[c] == cluster && panelsNum == c.OwnPanels()
      requires LeastCluster(tree, c) && (forall d: nat | d < c.Level() :: tree.LevelFull(d))
      requires tree.ClusterCount(c) < 3 * panelsNum
      ensures panel.place in panels && panels[panel.place] == panel && slot < 3
      ensures IsNextSlot(tree, Loc(panel.place, slot))
    {
      var k := LeastLoadedPanel(c, cluster, panelsNum);
      LeastPanelHasRoom(tree, c, k);
      PanelOfCluster(c, k);
      panel := cluster.panels[k];
      slot := FirstFreeSlot(c.Panel(k), panel);
      FoundNextSlot(c, k, slot);
    }

    lemma PanelOfCluster(c: Cluster, k: nat)
      requires State() && c in clusters && k < 3
      ensures |clusters[c].panels| == 3 && c.Panel(k) in panels && clusters[c].panels[k] == panels[c.Panel(k)]
      ensures panels[c.Panel(k)].place == c.Panel(k)
    {
      assert ClusterWired(c) && PanelWired(c.Panel(k));
    }

    /** Of a level whose least loaded cluster is full, every panel is full. */
    lemma LevelIsFull(d: nat, index: nat)
      requires State() && d < |clusterTree| && index < Width(d)
      requires LeastOfClusters(tree, d, Width(d), index)
      requires tree.ClusterCount(ClusterAt(d, index)) == 3 * ClusterAt(d, index).OwnPanels()
      ensures tree.LevelFull(d)
    {
      hide State;
      forall p: Path | p.Valid() && p.Level() == d
        ensures tree.Full(p)
      {
        var c := Home(p);
        HomePanel(p);
        ClusterIsIndexed(c);
        assert tree.ClusterCount(ClusterAt(d, index)) <= tree.ClusterCount(ClusterAt(d, c.Rank()));
        assert p.number in {0, 1, 2};
      }
    }

    lemma LevelHasLeast(d: nat, index: nat)
      requires d < |clusterTree| && index < Width(d) && LeastOfClusters(tree, d, Width(d), index)
      ensures LeastCluster(tree, ClusterAt(d, index)) && ClusterAt(d, index).Level() == d
    {
      ClusterAtIsValid(d, index);
      var c := ClusterAt(d, index);
      forall k: Cluster | k.Valid() && k.Level() == c.Level()
        ensures tree.ClusterCount(c) <= tree.ClusterCount(k)
        ensures c.Rank() < k.Rank() ==> tree.ClusterCount(c) < tree.ClusterCount(k)
      {
        ClusterIsIndexed(k);
        assert tree.ClusterCount(ClusterAt(d, index)) <= tree.ClusterCount(ClusterAt(d, k.Rank()));
      }
    }

    lemma FoundNextSlot(c: Cluster, k: nat, slot: nat)
      requires State() && c in clusters && k < c.OwnPanels() && slot < 3
      requires LeastCluster(tree, c) && (forall d: nat | d < c.Level() :: tree.LevelFull(d))
      requires LeastOfPanels(tree, c, c.OwnPanels(), k)
      requires Loc(c.Panel(k), slot) !in tree.at && forall s: nat | s < slot :: Loc(c.Panel(k), s) in tree.at
      ensures IsNextSlot(tree, Loc(c.Panel(k), slot))
    {
      assert ClusterWired(c);
      ClusterPanels(c, k, k);
      assert LeastPanel(tree, c.Panel(k));
    }

    /** A cluster with two empty panels of its own and `panel` as connector. Their paths are made by
        appending to the connector's, which may overwrite memory that other panels share. */
    method BuildCluster(panel: PoolNodePanel) returns (cluster: PoolNodeCluster, a: PoolNodePanel, b: PoolNodePanel)
      requires PathsRead() && panel.place in panels && panels[panel.place] == panel
      requires forall p | p in panels :: p.Level() <= panel.place.Level() + 1
      modifies panel.path.backing`cells
      ensures PathsRead() && a.PathReads() && b.PathReads()
      ensures a.path.backing == panel.path.backing || fresh(a.path.backing)
      ensures b.path.backing == panel.path.backing || fresh(b.path.backing)
      ensures fresh(cluster) && fresh(a) && fresh(b)
      ensures !cluster.center && cluster.panels == [a, b, panel]
      ensures a.place == Under(panel.place, 0) && a.parentCluster == cluster
      ensures a.nodes == [null, null, null] && a.childCluster == null
      ensures b.place == Under(panel.place, 1) && b.parentCluster == cluster
      ensures b.nodes == [null, null, null] && b.childCluster == null
    {
      hide *;
      cluster := new PoolNodeCluster(false);
      var pathA, pathB := PathsOfCluster(panel);
      a := new PoolNodePanel(pathA, Under(panel.place, 0), cluster);
      b := new PoolNodePanel(pathB, Under(panel.place, 1), cluster);
      cluster.panels := [a, b, panel];
      ReadsItsPlace(a);
      ReadsItsPlace(b);
    }

    static lemma ReadsItsPlace(panel: PoolNodePanel)
      requires ReadsAs(panel.path, panel.place)
      ensures panel.PathReads()
    {
    }

    /** Everybody reads the same path as before when two more are made. */
    method PathsOfCluster(panel: PoolNodePanel) returns (a: Slice, b: Slice)
      requires PathsRead() && panel.place in panels && panels[panel.place] == panel
      requires forall p | p in panels :: p.Level() <= panel.place.Level() + 1
      modifies panel.path.backing`cells
      ensures PathsRead() && ReadsAs(a, Under(panel.place, 0)) && ReadsAs(b, Under(panel.place, 1))
      ensures a.backing == panel.path.backing || fresh(a.backing)
      ensures b.backing == panel.path.backing || fresh(b.backing)
    {
      hide *;
      ghost var before := panel.path.backing.cells;
      AllReadBefore(panel);
      a, b := PathsBelow(panel.path, panel.place);
      forall p | p in panels
        ensures PathRead(p)
      {
        if panels[p].path.backing == panel.path.backing { ReadsStill(p, panel, before); }
      }
      AllRead();
    }

    static ghost predicate ReadsFrom(cells: seq<int>, path: Slice, p: Path) {
      path.len == p.Level() + 1 <= |cells| == PathCapacity(p.Level()) && cells[..path.len] == Reported(p)
    }

    lemma AllReadBefore(panel: PoolNodePanel)
      requires PathsRead() && panel.place in panels && panels[panel.place] == panel
      ensures ReadsAs(panel.path, panel.place) && panel.path.backing in memory
      ensures forall p | p in panels :: panels[p].path.backing in memory && panels[p].place == p && PathRead(p)
      ensures forall p | p in panels && panels[p].path.backing == panel.path.backing ::
        ReadsFrom(panel.path.backing.cells, panels[p].path, p)
    {
      assert PathRead(panel.place);
      forall p | p in panels
        ensures panels[p].path.backing in memory && panels[p].place == p && PathRead(p)
        ensures ReadsFrom(panels[p].path.backing.cells, panels[p].path, p)
      {
        assert PathRead(p);
      }
    }

    lemma ReadsStill(p: Path, panel: PoolNodePanel, before: seq<int>)
      requires p in panels && panels[p].place == p && panels[p].path.backing == panel.path.backing
      requires ReadsFrom(before, panels[p].path, p) && p.Level() <= panel.place.Level() + 1
      requires ReadsAs(panel.path, panel.place)
      requires panel.path.backing.cells == before || OverwrittenAt(panel.path.len, before, panel.path.backing.cells)
      ensures PathRead(p)
    {
      if panel.path.backing.cells != before { StillReads(p, panel.path.len, before, panel.path.backing.cells); }
    }

    lemma AllRead()
      requires forall p | p in panels :: panels[p].path.backing in memory && PathRead(p)
      ensures PathsRead()
    {
    }

    ghost predicate Attachable(panel: PoolNodePanel, r: nat)
      reads this`panels, this`clusterTree
    {
      && panel.place in panels && panels[panel.place] == panel
      && panel.place.Level() + 1 == |clusterTree| && panel.place.Rank() == r
    }

    lemma NewPaths(panel: PoolNodePanel, r: nat)
      requires (forall p :: p in panels <==> HasPanel(p, r)) && (forall c :: c in clusters <==> HasCluster(c, r))
      requires Attachable(panel, r)
      ensures Under(panel.place, 0) !in panels && Under(panel.place, 1) !in panels && Below(panel.place) !in clusters
      ensures forall p ::
        HasPanel(p, r + 1) <==> p in panels || p == Under(panel.place, 0) || p == Under(panel.place, 1)
      ensures forall c :: HasCluster(c, r + 1) <==> c in clusters || c == Below(panel.place)
    {
      forall p | HasPanel(p, r + 1) && !HasPanel(p, r)
        ensures p == Under(panel.place, 0) || p == Under(panel.place, 1)
      {
        RankIdentifies(p.up, panel.place);
      }
      forall c | HasCluster(c, r + 1) && !HasCluster(c, r)
        ensures c == Below(panel.place)
      {
        RankIdentifies(c.connector, panel.place);
      }
    }

    method LinkCluster(panel: PoolNodePanel, ghost r: nat, cluster: PoolNodeCluster, ghost a: PoolNodePanel,
                       ghost b: PoolNodePanel)
      requires WiredUpTo(r) && Listed() && Attachable(panel, r)
      requires !cluster.center && cluster.panels == [a, b, panel] && cluster !in clusters.Values
      requires a.place == Under(panel.place, 0) && a.parentCluster == cluster && a.childCluster == null
      requires b.place == Under(panel.place, 1) && b.parentCluster == cluster && b.childCluster == null
      modifies this`panels, this`clusters, panel`childCluster
      ensures WiredUpTo(r + 1) && Listed()
      ensures clusters == old(clusters)[Below(panel.place) := cluster]
      ensures panels == old(panels)[Under(panel.place, 0) := a][Under(panel.place, 1) := b]
    {
      NewPaths(panel, r);
      panel.childCluster := cluster;
      panels := panels[a.place := a][b.place := b];
      clusters := clusters[Below(panel.place) := cluster];
      forall p {:trigger PanelWired(p)} | p in panels
        ensures PanelWired(p)
      {
        if p in old(panels) { assert old(PanelWired(p)); }
      }
      forall c {:trigger ClusterWired(c)} | c in clusters
        ensures ClusterWired(c)
      {
        if c in old(clusters) { assert old(ClusterWired(c)); }
      }
      forall d: nat, j: nat {:trigger IsAt(d, j)} | d < |clusterTree| && j < |clusterTree[d]|
        ensures IsAt(d, j)
      {
        assert old(IsAt(d, j));
      }
    }

    /** Hangs a new cluster with two empty panels under a panel of the last level. */
    method Attach(panel: PoolNodePanel, ghost r: nat) returns (cluster: PoolNodeCluster)
      requires ShapeUpTo(r) && Seating(tree, nodeMap, HeldNodes()) && Attachable(panel, r) && PathsRead()
      modifies this`panels, this`clusters, this`Repr, this`memory, panel`childCluster, panel.path.backing`cells
      ensures ShapeUpTo(r + 1) && Seating(tree, nodeMap, HeldNodes()) && PathsRead()
      ensures fresh(memory - old(memory))
      ensures Below(panel.place) !in old(clusters) && clusters == old(clusters)[Below(panel.place) := cluster]
      ensures fresh(Repr - old(Repr)) && fresh(panels.Values - old(panels.Values))
      ensures forall p :: p in panels <==> p in old(panels) || p == Under(panel.place, 0) || p == Under(panel.place, 1)
      ensures forall p | p in old(panels) && p != Under(panel.place, 0) && p != Under(panel.place, 1) ::
        panels[p] == old(panels)[p]
    {
      hide *;
      var a, b;
      PanelsSoFar(panel, r);
      InMemory(panel);
      cluster, a, b := BuildCluster(panel);
      AttachBuilt(panel, r, cluster, a, b);
    }

    method AttachBuilt(panel: PoolNodePanel, ghost r: nat, cluster: PoolNodeCluster, a: PoolNodePanel, b: PoolNodePanel)
      requires ShapeUpTo(r) && Seating(tree, nodeMap, HeldNodes()) && Attachable(panel, r) && PathsRead()
      requires !cluster.center && cluster.panels == [a, b, panel] && cluster !in Repr && a !in Repr && b !in Repr
      requires a.place == Under(panel.place, 0) && a.PathReads() && a.parentCluster == cluster && a.childCluster == null
      requires b.place == Under(panel.place, 1) && b.PathReads() && b.parentCluster == cluster && b.childCluster == null
      requires a.nodes == [null, null, null] && b.nodes == [null, null, null]
      modifies this`panels, this`clusters, this`Repr, this`memory, panel`childCluster
      ensures ShapeUpTo(r + 1) && Seating(tree, nodeMap, HeldNodes()) && PathsRead()
      ensures memory == old(memory) + {a.path.backing, b.path.backing} && Repr == old(Repr) + {cluster, a, b}
      ensures Below(panel.place) !in old(clusters) && clusters == old(clusters)[Below(panel.place) := cluster]
      ensures panels.Values <= old(panels.Values) + {a, b}
      ensures forall p :: p in panels <==> p in old(panels) || p == Under(panel.place, 0) || p == Under(panel.place, 1)
      ensures forall p | p in old(panels) && p != Under(panel.place, 0) && p != Under(panel.place, 1) ::
        panels[p] == old(panels)[p]
    {
      hide *;
      ghost var ps := panels;
      AllReadRight();
      AdoptCluster(panel, r, cluster, a, b);
      PanelsGrew(ps, panel.place, a, b);
      memory := memory + {a.path.backing, b.path.backing};
      MorePathsRead(ps, panel.place, a, b);
    }

    lemma PanelsGrew(ps: map<Path, PoolNodePanel>, p: Path, a: PoolNodePanel, b: PoolNodePanel)
      requires panels == ps[Under(p, 0) := a][Under(p, 1) := b]
      ensures panels.Values <= ps.Values + {a, b}
      ensures forall q :: q in panels <==> q in ps || q == Under(p, 0) || q == Under(p, 1)
      ensures forall q | q in ps && q != Under(p, 0) && q != Under(p, 1) :: panels[q] == ps[q]
    {
    }

    lemma PanelsSoFar(panel: PoolNodePanel, r: nat)
      requires ShapeUpTo(r) && Attachable(panel, r)
      ensures forall p | p in panels :: p.Level() <= panel.place.Level() + 1
      ensures panel.place in panels && panels[panel.place] == panel
    {
    }

    ghost predicate ReadsRight(p: Path, panel: PoolNodePanel)
      reads panel.path.backing`cells
    {
      panel.place == p && panel.PathReads()
    }

    lemma AllReadRight()
      requires PathsRead()
      ensures forall p {:trigger panels[p]} | p in panels ::
        panels[p].path.backing in memory && ReadsRight(p, panels[p])
    {
      forall p | p in panels
        ensures panels[p].path.backing in memory && ReadsRight(p, panels[p])
      {
        assert PathRead(p);
      }
    }

    lemma MorePathsRead(ps: map<Path, PoolNodePanel>, p: Path, a: PoolNodePanel, b: PoolNodePanel)
      requires panels == ps[Under(p, 0) := a][Under(p, 1) := b]
      requires forall q {:trigger ps[q]} | q in ps :: ps[q].path.backing in memory && ReadsRight(q, ps[q])
      requires a.place == Under(p, 0) && a.PathReads() && a.path.backing in memory
      requires b.place == Under(p, 1) && b.PathReads() && b.path.backing in memory
      ensures PathsRead()
    {
    }

    method AdoptCluster(panel: PoolNodePanel, ghost r: nat, cluster: PoolNodeCluster, a: PoolNodePanel,
                        b: PoolNodePanel)
      requires ShapeUpTo(r) && Seating(tree, nodeMap, HeldNodes()) && Attachable(panel, r)
      requires !cluster.center && cluster.panels == [a, b, panel] && cluster !in Repr && a !in Repr && b !in Repr
      requires a.place == Under(panel.place, 0) && a.parentCluster == cluster && a.childCluster == null
      requires b.place == Under(panel.place, 1) && b.parentCluster == cluster && b.childCluster == null
      requires a.nodes == [null, null, null] && b.nodes == [null, null, null]
      modifies this`panels, this`clusters, this`Repr, panel`childCluster
      ensures ShapeUpTo(r + 1) && Seating(tree, nodeMap, HeldNodes())
      ensures Below(panel.place) !in old(clusters) && clusters == old(clusters)[Below(panel.place) := cluster]
      ensures Repr == old(Repr) + {cluster, a, b}
      ensures panels == old(panels)[Under(panel.place, 0) := a][Under(panel.place, 1) := b]
    {
      hide *;
      ghost var held, ps, cs := HeldNodes(), panels, clusters;
      BeforeAdopting(panel, r, cluster);
      OwnCluster(r, cluster, a, b);
      LinkCluster(panel, r, cluster, a, b);
      SeatedAfterLink(held, ps, panel.place, a, b);
      OwnsMore(ps, cs, panel.place, cluster, a, b);
      ShapeUpToIs(r + 1);
    }

    lemma BeforeAdopting(panel: PoolNodePanel, r: nat, cluster: PoolNodeCluster)
      requires ShapeUpTo(r) && Attachable(panel, r) && cluster !in Repr
      ensures WiredUpTo(r) && Listed() && PlacedIn(tree, nodeMap, panels) && ApartIn(nodeMap)
      ensures tree.WellFormed() && 1 <= tree.levels == |clusterTree| && cluster !in clusters.Values
      ensures Under(panel.place, 0) !in panels && Under(panel.place, 1) !in panels && Below(panel.place) !in clusters
      ensures HeldNodes().Keys == panels.Keys && forall q | q in panels :: HeldNodes()[q] == panels[q].nodes
    {
      NewPaths(panel, r);
    }

    lemma OwnsMore(ps: map<Path, PoolNodePanel>, cs: map<Cluster, PoolNodeCluster>, p: Path,
                   cluster: PoolNodeCluster, a: PoolNodePanel, b: PoolNodePanel)
      requires this in Repr && (forall q | q in ps :: ps[q] in Repr) && (forall c | c in cs :: cs[c] in Repr)
      requires cluster in Repr && a in Repr && b in Repr
      requires panels == ps[Under(p, 0) := a][Under(p, 1) := b] && clusters == cs[Below(p) := cluster]
      ensures Owned()
    {
    }

    lemma ShapeUpToIs(r: nat)
      requires WiredUpTo(r) && Listed() && Owned() && PlacedIn(tree, nodeMap, panels) && ApartIn(nodeMap)
      requires tree.WellFormed() && 1 <= tree.levels == |clusterTree|
      ensures ShapeUpTo(r)
    {
    }

    ghost method OwnCluster(r: nat, cluster: PoolNodeCluster, a: PoolNodePanel, b: PoolNodePanel)
      requires ShapeUpTo(r)
      modifies this`Repr
      ensures ShapeUpTo(r) && Repr == old(Repr) + {cluster, a, b} && this in Repr && ApartIn(nodeMap)
      ensures (forall p | p in panels :: panels[p] in Repr) && (forall c | c in clusters :: clusters[c] in Repr)
    {
      Repr := Repr + {cluster, a, b};
    }

    lemma SeatedAfterLink(held: map<Path, seq<PoolNode?>>, ps: map<Path, PoolNodePanel>, p: Path,
                          a: PoolNodePanel, b: PoolNodePanel)
      requires Seating(tree, nodeMap, held) && PlacedIn(tree, nodeMap, ps)
      requires held.Keys == ps.Keys && forall q | q in held :: held[q] == ps[q].nodes
      requires Under(p, 0) !in ps && Under(p, 1) !in ps && panels == ps[Under(p, 0) := a][Under(p, 1) := b]
      requires a.nodes == [null, null, null] && b.nodes == [null, null, null]
      ensures Seating(tree, nodeMap, HeldNodes())
      ensures PlacedIn(tree, nodeMap, panels)
    {
      SeatingGrow(tree, nodeMap, held, Under(p, 0));
      SeatingGrow(tree, nodeMap, held[Under(p, 0) := [null, null, null]], Under(p, 1));
      assert HeldNodes() == held[Under(p, 0) := [null, null, null]][Under(p, 1) := [null, null, null]];
    }

    /** The clusters built so far for the new level d, in tree order. */
    static ghost predicate IsLevelSoFar(d: nat, cs: map<Cluster, PoolNodeCluster>, level: seq<PoolNodeCluster>) {
      forall k: nat {:trigger level[k]} | k < |level| :: ClusterAt(d, k) in cs && level[k] == cs[ClusterAt(d, k)]
    }

    /** Panel j of cluster i of the last level is the connector of cluster (panelsNum * i + j) of the next. */
    lemma ConnectorAt(i: nat, j: nat, panelsNum: nat, r: nat)
      requires ShapeUpTo(r) && r == panelsNum * i + j && j < panelsNum
      requires i < |clusterTree[|clusterTree|-1]| && panelsNum == if |clusterTree| > 1 then 2 else 3
      ensures |clusterTree[|clusterTree|-1][i].panels| == 3
      ensures Attachable(clusterTree[|clusterTree|-1][i].panels[j], r)
      ensures clusterTree[|clusterTree|-1][i].panels[j].place == PathAt(|clusterTree| - 1, r)
    {
      var d := |clusterTree| - 1;
      assert IsAt(d, i);
      var c := ClusterAt(d, i);
      ClusterAtIsValid(d, i);
      assert ClusterWired(c);
      ConnectorPath(d, i, j, panelsNum, r);
      assert PanelWired(c.Panel(j));
    }

    /** Adds a level of empty clusters, one under each panel of the last level. */
    method AddNewClusterTreeLevel()
      requires State() && PathsRead()
      modifies this`clusterTree, this`tree, this`panels, this`clusters, this`Repr, this`memory
      modifies panels.Values`childCluster, memory`cells
      ensures State() && PathsRead() && fresh(Repr - old(Repr)) && fresh(memory - old(memory))
      ensures tree == old(tree).(levels := old(tree.levels) + 1)
      ensures forall p | p in old(panels) :: p in panels && panels[p] == old(panels)[p]
      ensures fresh(panels.Values - old(panels.Values))
    {
      hide State, ShapeUpTo, Seating, IsLevelSoFar;
      var level := BuildLevel();
      ListLevel(level);
    }

    /** The state while the clusters `level` of a new level exist, over the panels `ps` of before. */
    ghost predicate Building(level: seq<PoolNodeCluster>, ps: map<Path, PoolNodePanel>)
      reads this, panels.Values, clusters.Values, nodeMap.Values
    {
      && ShapeUpTo(|level|) && Seating(tree, nodeMap, HeldNodes()) && IsLevelSoFar(|clusterTree|, clusters, level)
      && SoFar(ps, panels)
    }

    method BuildLevel() returns (level: seq<PoolNodeCluster>)
      requires State() && PathsRead()
      modifies this`panels, this`clusters, this`Repr, this`memory, panels.Values`childCluster, memory`cells
      ensures |level| == Width(|clusterTree|) && Building(level, old(panels))
      ensures PathsRead() && fresh(memory - old(memory))
      ensures fresh(Repr - old(Repr)) && fresh(panels.Values - old(panels.Values))
    {
      hide *;
      BuildingStarts();
      var last := clusterTree[|clusterTree|-1];
      var panelsNum := if |clusterTree| > 1 then 2 else 3;
      level := [];
      ghost var ps := panels;
      for i := 0 to |last|
        invariant |level| == panelsNum * i && Building(level, ps)
        invariant PathsRead() && fresh(memory - old(memory))
        invariant fresh(Repr - old(Repr)) && fresh(panels.Values - ps.Values)
      {
        level := AttachRow(i, panelsNum, level, ps);
      }
    }

    method AttachRow(i: nat, panelsNum: nat, level0: seq<PoolNodeCluster>, ghost ps: map<Path, PoolNodePanel>)
      returns (level: seq<PoolNodeCluster>)
      requires Building(level0, ps) && PathsRead() && |clusterTree| > 0 && |level0| == panelsNum * i
      requires i < |clusterTree[|clusterTree|-1]| && panelsNum == if |clusterTree| > 1 then 2 else 3
      modifies this`panels, this`clusters, this`Repr, this`memory, ps.Values`childCluster, memory`cells
      ensures |level| == |level0| + panelsNum && Building(level, ps)
      ensures PathsRead() && fresh(memory - old(memory))
      ensures fresh(Repr - old(Repr)) && fresh(panels.Values - old(panels.Values))
    {
      hide *;
      level := level0;
      for j := 0 to panelsNum
        invariant |level| == |level0| + j && Building(level, ps)
        invariant PathsRead() && fresh(memory - old(memory))
        invariant fresh(Repr - old(Repr)) && fresh(panels.Values - old(panels.Values))
      {
        var cluster := AttachNext(i, j, panelsNum, level, ps);
        level := level + [cluster];
      }
    }

    lemma BuildingStarts()
      requires State()
      ensures Building([], panels) && |clusterTree| > 0
      ensures (if |clusterTree| > 1 then 2 else 3) * |clusterTree[|clusterTree|-1]| == Width(|clusterTree|)
    {
    }

    /** The turn of panel j of cluster i of the last level. */
    method AttachNext(i: nat, j: nat, panelsNum: nat, ghost level: seq<PoolNodeCluster>,
                      ghost ps: map<Path, PoolNodePanel>)
      returns (cluster: PoolNodeCluster)
      requires Building(level, ps) && PathsRead() && |clusterTree| > 0
      requires |level| == panelsNum * i + j && j < panelsNum
      requires i < |clusterTree[|clusterTree|-1]| && panelsNum == if |clusterTree| > 1 then 2 else 3
      modifies this`panels, this`clusters, this`Repr, this`memory, ps.Values`childCluster, memory`cells
      ensures Building(level + [cluster], ps) && PathsRead() && fresh(memory - old(memory))
      ensures fresh(Repr - old(Repr)) && fresh(panels.Values - old(panels.Values))
    {
      hide *;
      IsBuilding(level, ps);
      ConnectorAt(i, j, panelsNum, |level|);
      cluster := AttachTo(clusterTree[|clusterTree|-1][i].panels[j], level, ps);
    }

    method AttachTo(panel: PoolNodePanel, ghost level: seq<PoolNodeCluster>, ghost ps: map<Path, PoolNodePanel>)
      returns (cluster: PoolNodeCluster)
      requires Building(level, ps) && PathsRead() && |clusterTree| > 0
      requires Attachable(panel, |level|) && panel.place == PathAt(|clusterTree| - 1, |level|)
      modifies this`panels, this`clusters, this`Repr, this`memory, ps.Values`childCluster, memory`cells
      ensures Building(level + [cluster], ps) && PathsRead() && fresh(memory - old(memory))
      ensures fresh(Repr - old(Repr)) && fresh(panels.Values - old(panels.Values))
    {
      hide *;
      IsBuilding(level, ps);
      NextConnector(level, ps, panel);
      InMemory(panel);
      ghost var cs, old_ps := clusters, panels;
      cluster := Attach(panel, |level|);
      LevelGrows(|clusterTree|, cs, level, cluster);
      StillBuilding(level + [cluster], ps, old_ps, panel.place);
    }

    lemma IsBuilding(level: seq<PoolNodeCluster>, ps: map<Path, PoolNodePanel>)
      requires Building(level, ps)
      ensures ShapeUpTo(|level|) && Seating(tree, nodeMap, HeldNodes()) && IsLevelSoFar(|clusterTree|, clusters, level)
    {
    }

    lemma InMemory(panel: PoolNodePanel)
      requires PathsRead() && panel.place in panels && panels[panel.place] == panel
      ensures panel.path.backing in memory && panel.PathReads()
    {
      assert PathRead(panel.place);
    }

    lemma NextConnector(level: seq<PoolNodeCluster>, ps: map<Path, PoolNodePanel>, panel: PoolNodePanel)
      requires Building(level, ps) && Attachable(panel, |level|) && |clusterTree| > 0
      requires panel.place == PathAt(|clusterTree| - 1, |level|)
      ensures panel.place in ps && ps[panel.place] == panel && panel.place.Level() + 1 == |clusterTree|
      ensures Below(panel.place) == ClusterAt(|clusterTree|, |level|)
      ensures SoFar(ps, panels)
    {
    }

    /** ps are the panels of the levels that are complete. */
    ghost predicate SoFar(ps: map<Path, PoolNodePanel>, now: map<Path, PoolNodePanel>)
      reads this`clusterTree
    {
      && (forall p | p in ps :: p in now && now[p] == ps[p])
      && (forall p | p in now :: p in ps <==> p.Level() < |clusterTree|)
    }

    lemma StillBuilding(level: seq<PoolNodeCluster>, ps: map<Path, PoolNodePanel>, was: map<Path, PoolNodePanel>,
                        p: Path)
      requires ShapeUpTo(|level|) && Seating(tree, nodeMap, HeldNodes())
      requires IsLevelSoFar(|clusterTree|, clusters, level) && SoFar(ps, was) && p.Level() + 1 == |clusterTree|
      requires forall q :: q in panels <==> q in was || q == Under(p, 0) || q == Under(p, 1)
      requires forall q | q in was && q != Under(p, 0) && q != Under(p, 1) :: panels[q] == was[q]
      ensures Building(level, ps)
    {
      assert Under(p, 0).Level() == Under(p, 1).Level() == |clusterTree|;
    }

    static lemma LevelGrows(d: nat, cs: map<Cluster, PoolNodeCluster>, level: seq<PoolNodeCluster>,
                            cluster: PoolNodeCluster)
      requires IsLevelSoFar(d, cs, level) && ClusterAt(d, |level|) !in cs
      ensures IsLevelSoFar(d, cs[ClusterAt(d, |level|) := cluster], level + [cluster])
    {
      forall k: nat | k < |level + [cluster]|
        ensures ClusterAt(d, k) in cs[ClusterAt(d, |level|) := cluster]
        ensures (level + [cluster])[k] == cs[ClusterAt(d, |level|) := cluster][ClusterAt(d, k)]
      {
        if k < |level| { assert (level + [cluster])[k] == level[k]; }
      }
    }

    method ListLevel(level: seq<PoolNodeCluster>)
      requires |level| == Width(|clusterTree|) && ShapeUpTo(|level|)
      requires Seating(tree, nodeMap, HeldNodes()) && IsLevelSoFar(|clusterTree|, clusters, level)
      modifies this`clusterTree, this`tree
      ensures State() && tree == old(tree).(levels := old(tree.levels) + 1)
    {
      hide *;
      ShapeIs(|level|);
      NextLevelIsComplete(|level|);
      LevelKeepsPlaces(tree, nodeMap, panels);
      SeatingLevel(tree, nodeMap, HeldNodes());
      AppendLevel(level);
      CoversLevels();
      StateIs();
    }

    /** The levels list the clusters in tree order, one more level now. */
    method AppendLevel(level: seq<PoolNodeCluster>)
      requires Listed() && |level| == Width(|clusterTree|) && IsLevelSoFar(|clusterTree|, clusters, level)
      modifies this`clusterTree, this`tree
      ensures Listed() && clusterTree == old(clusterTree) + [level]
      ensures tree == old(tree).(levels := old(tree.levels) + 1)
    {
      clusterTree := clusterTree + [level];
      tree := tree.(levels := tree.levels + 1);
      forall d: nat, j: nat {:trigger IsAt(d, j)} | d < |clusterTree| && j < |clusterTree[d]|
        ensures IsAt(d, j)
      {
        if d + 1 < |clusterTree| {
          assert old(IsAt(d, j));
        } else {
          assert clusterTree[d][j] == level[j];
        }
      }
    }

    lemma ShapeIs(r: nat)
      requires ShapeUpTo(r)
      ensures Covers(r) && Wired() && Listed() && Owned() && PlacedIn(tree, nodeMap, panels) && ApartIn(nodeMap)
      ensures tree.WellFormed() && 1 <= tree.levels == |clusterTree|
    {
    }

    lemma StateIs()
      requires Covers(0) && Wired() && Listed() && Owned() && PlacedIn(tree, nodeMap, panels) && ApartIn(nodeMap)
      requires tree.WellFormed() && 1 <= tree.levels == |clusterTree| && Seating(tree, nodeMap, HeldNodes())
      ensures State()
    {
    }

    lemma CoversLevels()
      requires forall p :: p in panels <==> p.Valid() && p.Level() < |clusterTree|
      requires forall c: Cluster ::
        c in clusters <==> c.Hub? || (c.connector.Valid() && c.connector.Level() + 1 < |clusterTree|)
      ensures Covers(0)
    {
    }

    static lemma LevelKeepsPlaces(t: Tree, nodes: map<Id, PoolNode>, ps: map<Path, PoolNodePanel>)
      requires t.WellFormed() && PlacedIn(t, nodes, ps)
      ensures t.(levels := t.levels + 1).WellFormed() && PlacedIn(t.(levels := t.levels + 1), nodes, ps)
    {
    }

    /** With all clusters of the next level, its panels are those of one more whole level. */
    lemma NextLevelIsComplete(r: nat)
      requires r == Width(|clusterTree|) && |clusterTree| > 0 && Covers(r)
      ensures forall p :: p in panels <==> p.Valid() && p.Level() < |clusterTree| + 1
      ensures forall c: Cluster ::
        c in clusters <==> c.Hub? || (c.connector.Valid() && c.connector.Level() + 1 < |clusterTree| + 1)
    {
      forall p: Path | p.Valid() && p.Level() == |clusterTree|
        ensures p.Under? && p.up.Rank() < r
      {
        RankIsIndex(p.up);
      }
    }

    /** Adds a node: to the shallowest level that has room, or, when none has, to a new level. `before`
        is what is on the nodes' channels, `crew` is who sits where afterwards. Nobody checks the id: when
        a live node has it already, both keep their slots, and the node map has the new one only. */
    method AddNode(id: Id, userID: Id, nodeChan: Channel, now: nat, ghost before: Mailboxes)
      returns (node: PoolNode, ghost crew: Crew)
      requires Valid() && id != NOBODY && now > 0
      requires nodeChan !in Channels() && nodeChan !in Repr && Recorded(nodeMap, before)
      modifies this, panels.Values, Channels()`sent, nodeChan`sent, memory`cells
      ensures fresh(Repr - old(Repr)) && fresh(node) && fresh(memory - old(memory))
      ensures Adds(old(tree), id, node.Place(), tree) && nodeMap == old(nodeMap)[id := node]
      ensures node.nodeID == id && node.userID == userID && node.nodeChan == nodeChan && node.created == now
      ensures crew == Crew(tree, SeatsOf(old(tree), old(nodeMap))[node.Place() := node]) && Seats(crew)
      ensures crew.Heard(BySeat(old(tree), before)[node.Place() := old(nodeChan.sent)], node.Place(), id)
      ensures id !in old(nodeMap) ==>
        Valid() && Informed(before[id := old(nodeChan.sent)], [Announcement(node.Place(), id)])
      ensures id in old(nodeMap) ==> !tree.WellFormed()
      ensures Readable(nodeMap) && Apart(nodeMap)
      decreases if HasRoom(tree) then 0 else 1, 1
    {
      hide *;
      SupportedState();
      var panel, slot := FindPlace();
      if panel == null {
        node, crew := GrowAndAdd(id, userID, nodeChan, now, before);
      } else {
        node, crew := AddAt(panel, slot, id, userID, nodeChan, now, before);
      }
    }

    lemma SupportedState()
      requires Valid()
      ensures State() && PathsRead() && tree.Supported()
    {
    }

    method GrowAndAdd(id: Id, userID: Id, nodeChan: Channel, now: nat, ghost before: Mailboxes)
      returns (node: PoolNode, ghost crew: Crew)
      requires State() && PathsRead() && tree.Supported() && !HasRoom(tree) && id != NOBODY && now > 0
      requires nodeChan !in Channels() && nodeChan !in Repr && Recorded(nodeMap, before)
      modifies this, panels.Values, Channels()`sent, nodeChan`sent, memory`cells
      ensures fresh(Repr - old(Repr)) && fresh(node) && fresh(memory - old(memory))
      ensures Adds(old(tree), id, node.Place(), tree) && nodeMap == old(nodeMap)[id := node]
      ensures node.nodeID == id && node.userID == userID && node.nodeChan == nodeChan && node.created == now
      ensures crew == Crew(tree, SeatsOf(old(tree), old(nodeMap))[node.Place() := node]) && Seats(crew)
      ensures crew.Heard(BySeat(old(tree), before)[node.Place() := old(nodeChan.sent)], node.Place(), id)
      ensures id !in old(nodeMap) ==>
        Valid() && Informed(before[id := old(nodeChan.sent)], [Announcement(node.Place(), id)])
      ensures id in old(nodeMap) ==> !tree.WellFormed()
      ensures Readable(nodeMap) && Apart(nodeMap)
      decreases 1, 0
    {
      hide *;
      ghost var t := tree;
      NewLevelHasRoom();
      AddNewClusterTreeLevel();
      GrownState(t);
      SameSeats(t, tree, nodeMap, before);
      node, crew := AddNode(id, userID, nodeChan, now, before);
      AddsAfterGrowth(t, id, node.Place(), tree);
    }

    static lemma SameSeats(t: Tree, u: Tree, nodes: map<Id, PoolNode>, mail: Mailboxes)
      requires t.at == u.at
      ensures SeatsOf(t, nodes) == SeatsOf(u, nodes) && BySeat(t, mail) == BySeat(u, mail)
    {
    }

    method AddAt(panel: PoolNodePanel, slot: nat, id: Id, userID: Id, nodeChan: Channel, now: nat,
                 ghost before: Mailboxes)
      returns (node: PoolNode, ghost crew: Crew)
      requires State() && PathsRead() && tree.Supported() && id != NOBODY && now > 0
      requires nodeChan !in Channels() && nodeChan !in Repr && Recorded(nodeMap, before)
      requires panel.place in panels && panels[panel.place] == panel && slot < 3
      requires HasRoom(tree) && IsNextSlot(tree, Loc(panel.place, slot))
      modifies this`nodeMap, this`tree, this`Repr, panel`nodes, Channels()`sent, nodeChan`sent
      ensures fresh(Repr - old(Repr)) && fresh(node)
      ensures Adds(old(tree), id, node.Place(), tree) && nodeMap == old(nodeMap)[id := node]
      ensures node.nodeID == id && node.userID == userID && node.nodeChan == nodeChan && node.created == now
      ensures crew == Crew(tree, SeatsOf(old(tree), old(nodeMap))[node.Place() := node]) && Seats(crew)
      ensures crew.Heard(BySeat(old(tree), before)[node.Place() := old(nodeChan.sent)], node.Place(), id)
      ensures id !in old(nodeMap) ==>
        Valid() && Informed(before[id := old(nodeChan.sent)], [Announcement(node.Place(), id)])
      ensures id in old(nodeMap) ==> !tree.WellFormed()
      ensures Readable(nodeMap) && Apart(nodeMap)
    {
      hide *;
      PlaceIsNext(id, Loc(panel.place, slot));
      node := new PoolNode(id, userID, nodeChan, panel, slot, now);
      crew := SitAndTell(node, panel, before);
      EnterLast(crew, id, node, before, old(nodeChan.sent));
    }

    /** The node map is written when everybody has been told. */
    method EnterLast(ghost crew: Crew, id: Id, node: PoolNode, ghost before: Mailboxes, ghost first: seq<ChanMessage>)
      requires Shape() && PathsRead() && before.Keys == nodeMap.Keys == tree.at.Values
      requires node.containerNodePanel.place in panels
      requires panels[node.containerNodePanel.place] == node.containerNodePanel
      requires node.partnerInt < 3 && node.Place() !in tree.at && node.nodeID == id != NOBODY
      requires node.nodeChan !in Channels() && node.nodeChan !in Repr
      requires crew.tree == tree.(at := tree.at[node.Place() := id])
      requires crew.seats == SeatsOf(tree, nodeMap)[node.Place() := node]
      requires crew.seats.Keys == BySeat(tree, before).Keys + {node.Place()}
      requires forall k | k in crew.seats ::
        crew.seats[k].nodeChan.sent ==
        BySeat(tree, before)[node.Place() := first][k] + Letters(SentTo(crew.tree, node.Place(), id, k))
      requires id !in nodeMap ==> crew.tree.Supported() && Seating(crew.tree, nodeMap[id := node], HeldNodes())
      modifies this`nodeMap, this`tree, this`Repr
      ensures Repr == old(Repr) + {node} && nodeMap == old(nodeMap)[id := node] && tree == crew.tree
      ensures crew.Heard(BySeat(old(tree), before)[node.Place() := first], node.Place(), id)
      ensures id !in old(nodeMap) ==> Valid() && Informed(before[id := first], [Announcement(node.Place(), id)])
      ensures Readable(nodeMap) && Apart(nodeMap)
    {
      hide *;
      node.StandsInPanel();
      NowAre();
      AreReadable();
      InMemory(node.containerNodePanel);
      ghost var l, t, nodes := node.Place(), tree, nodeMap;
      Enter(l, id, node);
      HeardBySeats(crew, BySeat(t, before)[l := first], l, id);
      OneMoreReadable(nodes, id, node);
      if id !in nodes { NewcomerIsHeard(crew, t, nodes, before, l, id, node, first); }
    }

    /** A new node takes an empty slot and tells its neighbourhood. */
    method SitAndTell(node: PoolNode, panel: PoolNodePanel, ghost before: Mailboxes) returns (ghost crew: Crew)
      requires State() && PathsRead() && Recorded(nodeMap, before)
      requires panel.place in panels && panels[panel.place] == panel == node.containerNodePanel
      requires node.partnerInt < 3 && node.Place() !in tree.at && node.nodeID != NOBODY && node.created > 0
      requires node.nodeChan !in Channels()
      modifies panel`nodes, Channels()`sent, node.nodeChan`sent
      ensures Shape() && before.Keys == nodeMap.Keys == tree.at.Values
      ensures crew.tree == tree.(at := tree.at[node.Place() := node.nodeID])
      ensures crew.seats == SeatsOf(tree, nodeMap)[node.Place() := node]
      ensures Seats(crew) && crew.seats.Keys == BySeat(tree, before).Keys + {node.Place()}
      ensures forall k | k in crew.seats ::
        crew.seats[k].nodeChan.sent ==
        BySeat(tree, before)[node.Place() := old(node.nodeChan.sent)][k] +
        Letters(SentTo(crew.tree, node.Place(), node.nodeID, k))
      ensures node.nodeID !in nodeMap ==> Seating(crew.tree, nodeMap[node.nodeID := node], HeldNodes())
    {
      hide *;
      RecordedFor(before);
      StateIsShape();
      crew := Sit(node, panel);
      SeatsRecorded(crew, tree, nodeMap, before, node.Place(), node);
      node.UpdateNodePosition(crew);
    }

    lemma RecordedFor(before: Mailboxes)
      requires Recorded(nodeMap, before)
      ensures before.Keys == nodeMap.Keys
    {
    }

    /** Puts a new node into an empty slot. */
    method Sit(node: PoolNode, panel: PoolNodePanel) returns (ghost crew: Crew)
      requires State() && PathsRead()
      requires panel.place in panels && panels[panel.place] == panel == node.containerNodePanel
      requires node.partnerInt < 3 && node.Place() !in tree.at && node.nodeID != NOBODY && node.created > 0
      requires node.nodeChan !in Channels()
      modifies panel`nodes
      ensures Shape()
      ensures crew.tree == tree.(at := tree.at[node.Place() := node.nodeID])
      ensures crew.seats == SeatsOf(tree, nodeMap)[node.Place() := node]
      ensures crew.Manned() && Seats(crew) && node.StandsIn(crew) && node.Surrounded(crew)
      ensures crew.Channels() == Channels() + {node.nodeChan}
      ensures node.nodeID !in nodeMap ==> Seating(crew.tree, nodeMap[node.nodeID := node], HeldNodes())
    {
      hide *;
      crew := Crew(tree.(at := tree.at[node.Place() := node.nodeID]), SeatsOf(tree, nodeMap)[node.Place() := node]);
      NewSeat(node, panel, crew);
      NewRow(node, panel, crew);
      Hold(panel, node.partnerInt, node);
      SeatsNow(node, crew);
      SurroundedByCrew(node, crew);
    }

    lemma NewSeat(node: PoolNode, panel: PoolNodePanel, crew: Crew)
      requires State() && panel.place in panels && panels[panel.place] == panel == node.containerNodePanel
      requires node.partnerInt < 3 && node.Place() !in tree.at && node.nodeID != NOBODY
      requires node.nodeChan !in Channels()
      requires crew.tree == tree.(at := tree.at[node.Place() := node.nodeID])
      requires crew.seats == SeatsOf(tree, nodeMap)[node.Place() := node]
      ensures Shape() && node.Place() == Loc(panel.place, node.partnerInt)
      ensures crew.Manned() && node.StandsIn(crew) && crew.Channels() == Channels() + {node.nodeChan}
    {
      hide *;
      RosterIsSeated();
      RosterIsOf();
      StateIsShape();
      StillHasPanel(panel.place);
      node.StandsInPanel();
      Roster().OneMore(crew, node);
    }

    lemma RosterIsOf()
      ensures Roster().tree == tree && Roster().seats == SeatsOf(tree, nodeMap)
      ensures forall l | l in Roster().seats :: l in tree.at
      ensures forall p | tree.HasPanel(p) :: p.Valid()
    {
    }

    lemma NewRow(node: PoolNode, panel: PoolNodePanel, crew: Crew)
      requires State() && panel.place in panels && panels[panel.place] == panel == node.containerNodePanel
      requires node.partnerInt < 3 && node.Place() !in tree.at && node.created > 0
      requires crew.tree == tree.(at := tree.at[node.Place() := node.nodeID])
      requires crew.seats == SeatsOf(tree, nodeMap)[node.Place() := node]
      ensures |panel.nodes| == 3
      ensures var held := HeldNodes()[panel.place := panel.nodes[node.partnerInt := node]];
        && SeatsIn(crew.seats, held)
        && (node.nodeID !in nodeMap ==> Seating(crew.tree, nodeMap[node.nodeID := node], held))
    {
      hide State, Shape, Seating, SeatsIn, Crew.Manned;
      var l := node.Place();
      RosterIsSeated();
      SlotIsSeated(l);
      StateIsShape();
      OneMoreSeat(Roster().seats, HeldNodes(), l, node);
      if node.nodeID !in nodeMap { SeatingAdd(tree, nodeMap, HeldNodes(), l, node.nodeID, node); }
    }

    lemma SeatsNow(node: PoolNode, crew: Crew)
      requires Shape() && SeatsIn(crew.seats, HeldNodes())
      requires crew.tree == tree.(at := tree.at[node.Place() := node.nodeID])
      requires crew.seats == SeatsOf(tree, nodeMap)[node.Place() := node]
      ensures Seats(crew)
    {
      hide SeatsIn;
    }

    lemma SeatsRecorded(crew: Crew, t: Tree, nodes: map<Id, PoolNode>, before: Mailboxes, l: Loc, node: PoolNode)
      requires crew.seats == SeatsOf(t, nodes)[l := node] && Recorded(nodes, before)
      ensures BySeat(t, before)[l := node.nodeChan.sent].Keys == crew.seats.Keys
      ensures l !in t.at ==> forall k | k in crew.seats ::
        crew.seats[k].nodeChan.sent == BySeat(t, before)[l := node.nodeChan.sent][k]
    {
      forall k | k in SeatsOf(t, nodes)
        ensures k in BySeat(t, before) && SeatsOf(t, nodes)[k].nodeChan.sent == BySeat(t, before)[k]
      {
        var id := t.at[k];
        assert id in nodes && nodes[id].nodeChan.sent == before[id];
        assert SeatsOf(t, nodes)[k] == nodes[id];
        assert BySeat(t, before)[k] == before[id];
      }
    }

    lemma StateIsShape()
      requires State()
      ensures Shape() && Seating(tree, nodeMap, HeldNodes()) && nodeMap.Keys == tree.at.Values
    {
    }

    lemma PlaceIsNext(id: Id, l: Loc)
      requires State() && tree.Supported() && id != NOBODY && HasRoom(tree) && IsNextSlot(tree, l)
      ensures Adds(tree, id, l, tree.(at := tree.at[l := id])) && l !in tree.at
      ensures id !in nodeMap ==> tree.(at := tree.at[l := id]).Supported()
      ensures id in nodeMap ==> !tree.(at := tree.at[l := id]).WellFormed()
    {
      AddNeedsFreshId(tree, id, l, tree.(at := tree.at[l := id]));
      NewcomerHasSupport(tree, id, l, tree.(at := tree.at[l := id]));
    }

    lemma HeardBySeats(crew: Crew, mail: SlotMail, l: Loc, id: Id)
      requires mail.Keys == crew.seats.Keys
      requires forall k | k in crew.seats ::
        crew.seats[k].nodeChan.sent == mail[k] + Letters(SentTo(crew.tree, l, id, k))
      ensures crew.Heard(mail, l, id)
    {
    }

    /** A newcomer with a fresh id has told every live node. */
    lemma NewcomerIsHeard(crew: Crew, t: Tree, nodes: map<Id, PoolNode>, before: Mailboxes,
                          l: Loc, id: Id, node: PoolNode, first: seq<ChanMessage>)
      requires State() && PathsRead() && tree.Supported()
      requires l !in t.at && id !in nodes && before.Keys == nodes.Keys == t.at.Values
      requires tree == t.(at := t.at[l := id]) && nodeMap == nodes[id := node]
      requires crew == Crew(tree, SeatsOf(t, nodes)[l := node])
      requires crew.Heard(BySeat(t, before)[l := first], l, id)
      ensures Valid() && Informed(before[id := first], [Announcement(l, id)])
    {
      hide State, Letters, SentTo, Inbox;
      forall k | k in nodeMap
        ensures k in before[id := first]
        ensures nodeMap[k].nodeChan.sent ==
          before[id := first][k] + Letters(Inbox(tree, [Announcement(l, id)], Where(k)))
      {
        WhereIsOccupied(k);
        InboxOfOne(tree, Announcement(l, id), Where(k));
      }
    }

    static lemma InboxOfOne(t: Tree, a: Announcement, u: Loc)
      ensures Inbox(t, [a], u) == SentTo(t, a.loc, a.id, u)
    {
      assert [a][..0] == [];
    }

    lemma NewLevelHasRoom()
      requires State()
      ensures HasRoom(tree.(levels := tree.levels + 1))
    {
      var t' := tree.(levels := tree.levels + 1);
      var p := PathAt(tree.levels, 0);
      WidthIsPositive(tree.levels + 1);
      PathAtIsValid(tree.levels, 0);
      assert Loc(p, 0) !in t'.at && !t'.Full(p);
      assert !t'.LevelFull(tree.levels);
    }

    lemma GrownState(t: Tree)
      requires State() && PathsRead() && t.Supported() && tree.at == t.at
      ensures Valid()
    {
    }

    lemma AddsAfterGrowth(t: Tree, id: Id, l: Loc, u: Tree)
      requires !HasRoom(t) && HasRoom(t.(levels := t.levels + 1)) && Adds(t.(levels := t.levels + 1), id, l, u)
      ensures Adds(t, id, l, u)
    {
    }

    /** The search of AddNode: the place of the next node, if any level has room. */
    method FindPlace() returns (panel: PoolNodePanel?, slot: nat)
      requires State()
      ensures panel != null <==> HasRoom(tree)
      ensures panel != null ==> panel.place in panels && panels[panel.place] == panel && slot < 3
      ensures panel != null ==> IsNextSlot(tree, Loc(panel.place, slot))
    {
      hide *;
      panel, slot := null, 0;
      var i := 0;
      while i < |clusterTree|
        invariant i <= |clusterTree| && forall d: nat | d < i :: tree.LevelFull(d)
      {
        LevelIsListed(i);
        var lowest, index := LeastLoadedCluster(i);
        var cluster := clusterTree[i][index];
        PlaceOfCluster(i, index);
        var panelsNum := if cluster.center then 3 else 2;
        if lowest != 3 * panelsNum {
          LevelHasLeast(i, index);
          ClusterCountBound(tree, ClusterAt(i, index));
          panel, slot := ChoosePlace(ClusterAt(i, index), cluster, panelsNum);
          NextSlotIsRoom(tree, Loc(panel.place, slot));
          return;
        }
        LevelIsFull(i, index);
        i := i + 1;
      }
      AllLevelsFull();
    }

    lemma PlaceOfCluster(i: nat, j: nat)
      requires State() && i < |clusterTree| && j < |clusterTree[i]|
      ensures ClusterAt(i, j) in clusters && clusters[ClusterAt(i, j)] == clusterTree[i][j]
      ensures ClusterAt(i, j).OwnPanels() == if clusterTree[i][j].center then 3 else 2
    {
      ClusterInLevel(i, j);
    }

    static lemma NextSlotIsRoom(t: Tree, l: Loc)
      requires IsNextSlot(t, l)
      ensures HasRoom(t)
    {
      FullHasNoGap(t, l);
    }

    lemma AllLevelsFull()
      requires State() && forall d: nat | d < |clusterTree| :: tree.LevelFull(d)
      ensures !HasRoom(tree)
    {
    }

    // ---- Removing a node ----

    /** Panels a and b are those of the cluster below panel p. */
    ghost predicate Siblings(p: Path, a: PoolNodePanel, b: PoolNodePanel)
      reads this`panels
    {
      && Under(p, 0) in panels && panels[Under(p, 0)] == a && a.place == Under(p, 0)
      && Under(p, 1) in panels && panels[Under(p, 1)] == b && b.place == Under(p, 1)
    }

    /** Empties the slot of a node and takes it out of the node map. */
    method Vacate(node: PoolNode)
      requires State() && node.nodeID in nodeMap && nodeMap[node.nodeID] == node
      modifies this`nodeMap, this`tree, node.containerNodePanel`nodes
      ensures State() && node !in nodeMap.Values
      ensures nodeMap == old(nodeMap) - {node.nodeID} && tree == Shifted(old(tree), [node.Place()])
    {
      hide Shape, Seating;
      ghost var l := node.Place();
      WhereIsOccupied(node.nodeID);
      SlotIsSeated(l);
      SeatingRemove(tree, nodeMap, HeldNodes(), l);
      LeaverIsGone(node.nodeID);
      Hold(node.containerNodePanel, node.partnerInt, null);
      OthersStayPlaced(l);
      SwitchTo(nodeMap - {node.nodeID}, Shifted(tree, [l]), true);
    }

    lemma LeaverIsGone(id: Id)
      requires State() && id in nodeMap
      ensures nodeMap[id] !in (nodeMap - {id}).Values
    {
    }

    lemma OthersStayPlaced(l: Loc)
      requires Shape() && l in tree.at
      ensures PlacedIn(Shifted(tree, [l]), nodeMap - {tree.at[l]}, panels) && ApartIn(nodeMap - {tree.at[l]})
    {
    }

    /** Of the first n slots of the two panels below p, l is the one with the youngest node; it was
        created at `created`, which is 0 when they are all empty. */
    static ghost predicate YoungestOfFirst(t: Tree, births: Births, p: Path, n: nat, created: nat, l: Loc) {
      if created == 0 then forall k: nat | k < n :: Candidate(p, k) !in t.at
      else
        && l in t.at && RightBelow(l, p) && Order(l) < n && Born(births, t.at[l]) == created
        && forall k | k in t.at && RightBelow(k, p) && Order(k) < n && k != l ::
             if Order(k) < Order(l) then Born(births, t.at[k]) < created else Born(births, t.at[k]) <= created
    }

    static lemma YoungestStep(t: Tree, births: Births, p: Path, n: nat, created: nat, l: Loc)
      requires t.WellFormed() && n < 6 && YoungestOfFirst(t, births, p, n, created, l)
      requires Candidate(p, n) in t.at ==> Born(births, t.at[Candidate(p, n)]) > 0
      ensures var c := Candidate(p, n);
        if c in t.at && Born(births, t.at[c]) > created
        then YoungestOfFirst(t, births, p, n + 1, Born(births, t.at[c]), c)
        else YoungestOfFirst(t, births, p, n + 1, created, l)
    {
      var c := Candidate(p, n);
      assert Order(c) == n;
      forall k | k in t.at && RightBelow(k, p) && Order(k) < n + 1
        ensures k == Candidate(p, Order(k))
      {
      }
    }

    static lemma YoungestOfAll(t: Tree, births: Births, p: Path, created: nat, l: Loc)
      requires YoungestOfFirst(t, births, p, 6, created, l) && !t.EmptyBelow(p)
      requires forall k | k in t.at && RightBelow(k, p) :: k == Candidate(p, Order(k)) && Order(k) < 6
      ensures created > 0 && IsYoungest(t, births, p, l)
    {
    }

    static lemma CandidatesBelow(t: Tree, p: Path)
      requires t.WellFormed()
      ensures forall k | k in t.at && RightBelow(k, p) :: k == Candidate(p, Order(k)) && Order(k) < 6
    {
    }

    lemma BornIsCreated(l: Loc)
      requires State() && l.panel in panels && l.slot < 3
      ensures |panels[l.panel].nodes| == 3
      ensures if l in tree.at
        then
          && panels[l.panel].nodes[l.slot] != null
          && Born(Births(), tree.at[l]) == panels[l.panel].nodes[l.slot].created > 0
        else panels[l.panel].nodes[l.slot] == null
    {
      SlotIsSeated(l);
    }

    /** Looks for a younger node in one of the two panels below p. */
    method ScanForYoungest(ghost p: Path, ghost n: nat, panel: PoolNodePanel, created0: nat, target0: PoolNodePanel,
                           slot0: nat)
      returns (created: nat, target: PoolNodePanel, slot: nat)
      requires State() && n < 2 && Under(p, n) in panels && panels[Under(p, n)] == panel && panel.place == Under(p, n)
      requires YoungestOfFirst(tree, Births(), p, 3 * n, created0, Loc(target0.place, slot0))
      requires created0 > 0 ==> target0.place in panels && panels[target0.place] == target0
      ensures YoungestOfFirst(tree, Births(), p, 3 * n + 3, created, Loc(target.place, slot))
      ensures created > 0 ==> target.place in panels && panels[target.place] == target
    {
      hide State, YoungestOfFirst;
      created, target, slot := created0, target0, slot0;
      for i := 0 to 3
        invariant YoungestOfFirst(tree, Births(), p, 3 * n + i, created, Loc(target.place, slot))
        invariant created > 0 ==> target.place in panels && panels[target.place] == target
      {
        assert Candidate(p, 3 * n + i) == Loc(panel.place, i);
        BornIsCreated(Loc(panel.place, i));
        StateIsWellFormed();
        YoungestStep(tree, Births(), p, 3 * n + i, created, Loc(target.place, slot));
        var node := panel.nodes[i];
        if node != null && node.created > created {
          created := node.created;
          target := panel;
          slot := i;
        }
      }
    }

    lemma ChannelsAreApart()
      requires State()
      ensures Apart(nodeMap)
    {
    }

    lemma StateIsWellFormed()
      requires State()
      ensures tree.WellFormed() && nodeMap.Keys == tree.at.Values
    {
    }

    /** Which node moves up into slot `hole` of panel p. */
    method ChooseTarget(ghost p: Path, panelA: PoolNodePanel, panelB: PoolNodePanel, hole: nat, amountA: nat,
                        amountB: nat,
                        curTarget: PoolNodePanel)
      returns (target: PoolNodePanel, slot: nat)
      requires State() && Siblings(p, panelA, panelB) && hole < 3 && !tree.EmptyBelow(p)
      requires amountA == tree.SubtreeCount(Under(p, 0)) && amountB == tree.SubtreeCount(Under(p, 1))
      ensures Promotes(tree, Births(), p, hole, Loc(target.place, slot))
      ensures target.place in panels && panels[target.place] == target
      ensures Loc(target.place, slot) in tree.at && RightBelow(Loc(target.place, slot), p)
    {
      hide State, IsYoungest, YoungestOfFirst, Tree.SubtreeCount, Tree.EmptyBelow;
      StateIsWellFormed();
      BornIsCreated(Loc(panelA.place, hole));
      BornIsCreated(Loc(panelB.place, hole));
      target, slot := curTarget, hole;
      if panelA.nodes[hole] == null && panelB.nodes[hole] == null {
        var created;
        NoneYet(tree, Births(), p, Loc(target.place, slot));
        created, target, slot := ScanForYoungest(p, 0, panelA, 0, target, slot);
        created, target, slot := ScanForYoungest(p, 1, panelB, created, target, slot);
        CandidatesBelow(tree, p);
        YoungestOfAll(tree, Births(), p, created, Loc(target.place, slot));
        YoungestIsBelow(tree, Births(), p, Loc(target.place, slot));
      } else if panelA.nodes[hole] == null {
        target := panelB;
      } else if panelB.nodes[hole] == null {
        target := panelA;
      } else if amountA == amountB {
        if panelA.nodes[hole].created > panelB.nodes[hole].created {
          target := panelA;
        } else {
          target := panelB;
        }
      } else if amountA > amountB {
        target := panelA;
      } else {
        target := panelB;
      }
    }

    static lemma NoneYet(t: Tree, births: Births, p: Path, l: Loc)
      ensures YoungestOfFirst(t, births, p, 0, 0, l)
    {
    }

    static lemma YoungestIsBelow(t: Tree, births: Births, p: Path, l: Loc)
      requires IsYoungest(t, births, p, l)
      ensures l in t.at && RightBelow(l, p)
    {
    }

    /** Moves the node of a slot up into an empty slot of the panel above. */
    method Promote(panel: PoolNodePanel, slot: nat, target: PoolNodePanel, from: nat) returns (node: PoolNode)
      requires State() && panel.place in panels && panels[panel.place] == panel && slot < 3
      requires target.place in panels && panels[target.place] == target
      requires RightBelow(Loc(target.place, from), panel.place)
      requires Loc(panel.place, slot) !in tree.at && Loc(target.place, from) in tree.at
      modifies this`tree, panel`nodes, target`nodes
      modifies nodeMap.Values`containerNodePanel, nodeMap.Values`partnerInt
      ensures State() && tree == Moved(old(tree), Loc(target.place, from), Loc(panel.place, slot))
      ensures old(tree).at[Loc(target.place, from)] in nodeMap && node == nodeMap[old(tree).at[Loc(target.place, from)]]
    {
      hide *;
      ghost var l, h := Loc(target.place, from), Loc(panel.place, slot);
      StateIsWellFormed();
      StateIsShape();
      TwoSlots(panel, slot, target, from);
      SeatingMove(tree, nodeMap, HeldNodes(), l, h);
      node := target.nodes[from];
      Resettle(node, l, panel, slot);
      Hold(panel, slot, node);
      Hold(target, from, null);
      ShapeIsState();
    }

    lemma TwoSlots(panel: PoolNodePanel, slot: nat, target: PoolNodePanel, from: nat)
      requires State() && panel.place in panels && panels[panel.place] == panel && slot < 3
      requires target.place in panels && panels[target.place] == target
      requires RightBelow(Loc(target.place, from), panel.place)
      requires Loc(panel.place, slot) !in tree.at && Loc(target.place, from) in tree.at
      ensures |panel.nodes| == |target.nodes| == 3 && from < 3 && target != panel && target.place != panel.place
      ensures target.place in HeldNodes() && HeldNodes()[target.place] == target.nodes
      ensures panel.place in HeldNodes() && HeldNodes()[panel.place] == panel.nodes
      ensures var id := tree.at[Loc(target.place, from)]; id in nodeMap && target.nodes[from] == nodeMap[id]
    {
      hide State;
      StateIsWellFormed();
      SlotIsSeated(Loc(target.place, from));
      SlotIsSeated(Loc(panel.place, slot));
      assert target.place.up.Level() < target.place.Level();
    }

    lemma ShapeIsState()
      requires Shape() && Seating(tree, nodeMap, HeldNodes())
      ensures State()
    {
    }

    lemma StillHasPanel(p: Path)
      requires Shape() && p in panels
      ensures tree.WellFormed() && tree.HasPanel(p)
    {
      assert HasPanel(p, 0);
    }

    /** A node is told its new slot. */
    method Resettle(node: PoolNode, ghost l: Loc, panel: PoolNodePanel, slot: nat)
      requires Shape() && l in tree.at && tree.at[l] in nodeMap && nodeMap[tree.at[l]] == node
      requires panel.place in panels && panels[panel.place] == panel && slot < 3 && Loc(panel.place, slot) !in tree.at
      modifies this`tree, node`containerNodePanel, node`partnerInt
      ensures Shape() && tree == Moved(old(tree), l, Loc(panel.place, slot))
    {
      StillHasPanel(panel.place);
      hide WiredUpTo, Listed, Owned, ApartIn, HeldNodes;
      node.containerNodePanel := panel;
      node.partnerInt := slot;
      MovedIsWellFormed(tree, l, Loc(panel.place, slot));
      ghost var t := tree;
      tree := Moved(tree, l, Loc(panel.place, slot));
      forall k {:trigger tree.at[k]} | k in tree.at
        ensures k.panel in panels && tree.at[k] in nodeMap && nodeMap[tree.at[k]].nodeID == tree.at[k]
        ensures nodeMap[tree.at[k]].containerNodePanel == panels[k.panel] && nodeMap[tree.at[k]].partnerInt == k.slot
      {
        if k != Loc(panel.place, slot) {
          assert t.at[k] == tree.at[k] != t.at[l];
        }
      }
    }

    /** While RemoveNode runs: `chain` lists the slots vacated so far, from the leaving node's own
        slot on; the tree is the old one with these promotions done; panel and slot are the hole. */
    ghost predicate Removing(t: Tree, births: Births, chain: seq<Loc>, node: PoolNode, panel: PoolNodePanel, slot: nat)
      requires |chain| > 0
      reads this, panels.Values, clusters.Values, nodeMap.Values, node
    {
      && State() && t.Sound() && IsChainPrefix(t, births, chain) && tree == Shifted(t, chain)
      && panel.place in panels && panels[panel.place] == panel && Loc(panel.place, slot) == Last(chain)
      && Outside(node) && node.Place() == chain[0]
      && births.Keys == t.at.Values && Births() == births - {t.at[chain[0]]}
    }

    /** The leaving node is in no map any more, but still remembers its slot. */
    ghost predicate Outside(node: PoolNode)
      reads this`nodeMap, this`panels, node
    {
      && node !in nodeMap.Values
      && node.Place().panel in panels && panels[node.Place().panel] == node.containerNodePanel
    }

    /** l is the next slot of a chain that has turned t into u so far. */
    static ghost predicate Follows(t: Tree, births: Births, chain: seq<Loc>, l: Loc, u: Tree, left: Births) {
      && |chain| > 0 && t.Sound() && IsChainPrefix(t, births, chain + [l])
      && l in u.at && Shifted(t, chain + [l]) == Moved(u, l, Last(chain)) && t.Get(l) == u.at[l]
      && births.Keys == t.at.Values && left == births - {t.Get(chain[0])}
    }

    /** The promoted nodes are those of the chain's slots after the first. */
    ghost predicate AreOfChain(promoted: seq<PoolNode>, t: Tree, chain: seq<Loc>)
      reads this`nodeMap
    {
      |promoted| == |chain| - 1 && forall i | 0 <= i < |promoted| :: IsOfChain(promoted, t, chain, i)
    }

    ghost predicate IsOfChain(promoted: seq<PoolNode>, t: Tree, chain: seq<Loc>, i: int)
      requires 0 <= i < |promoted| == |chain| - 1
      reads this`nodeMap
    {
      t.Get(chain[i+1]) in nodeMap && promoted[i] == nodeMap[t.Get(chain[i+1])]
    }

    /** Takes a node out of the pool and lets a chain of nodes below it move up, one level each.
        `before` is what is on the nodes' channels, `chain` the slots that are vacated one after the other. */
    method RemoveNode(id: Id, ghost before: Mailboxes)
      returns (promoted: seq<PoolNode>, node: PoolNode?, ghost chain: seq<Loc>)
      requires Valid() && Recorded(nodeMap, before)
      modifies this`nodeMap, this`tree, panels.Values`nodes, Channels()`sent
      modifies nodeMap.Values`nodeID, nodeMap.Values`containerNodePanel, nodeMap.Values`partnerInt
      ensures Valid()
      ensures id !in old(nodeMap) ==> node == null && promoted == [] && unchanged(this) && Recorded(nodeMap, before)
      ensures id in old(nodeMap) ==>
        && node == old(nodeMap)[id] && nodeMap == old(nodeMap) - {id}
        && IsChain(old(tree), old(Births()), chain) && old(tree).at[chain[0]] == id && tree == Shifted(old(tree), chain)
        && AreOfChain(promoted, old(tree), chain)
        && node.nodeID == NOBODY && node.Place() == Last(chain) && node.nodeChan.sent == before[id]
        && Informed(before - {id}, RemovalNews(old(tree), chain))
    {
      hide *;
      promoted, node, chain := [], null, [];
      SupportedState();
      if id in nodeMap {
        node := nodeMap[id];
        ghost var t, births := tree, Births();
        NowAre();
        RemovalStarts(id);
        chain := [node.Place()];
        var curPanel, partnerInt := node.containerNodePanel, node.partnerInt;
        Vacate(node);
        StillRecorded(old(nodeMap), before, id);
        OneLess(old(nodeMap), births, old(Channels()), id);
        IsOutside(node);
        RemovalOpens(t, births, node);
        curPanel, partnerInt, promoted, chain := PromoteChain(node, curPanel, partnerInt, t, births);
        Depart(node, curPanel, partnerInt, promoted, t, births, chain, before - {id});
      }
    }

    lemma StillRecorded(nodes: map<Id, PoolNode>, before: Mailboxes, id: Id)
      requires Recorded(nodes, before)
      ensures Recorded(nodes - {id}, before - {id})
      ensures id in nodes ==> id in before && nodes[id].nodeChan.sent == before[id]
    {
    }

    lemma IsOutside(node: PoolNode)
      requires node !in nodeMap.Values && node.Place().panel in panels
      requires panels[node.Place().panel] == node.containerNodePanel
      ensures Outside(node)
    {
    }

    lemma RemovalOpens(t: Tree, births: Births, node: PoolNode)
      requires State() && t.Sound() && IsChainPrefix(t, births, [node.Place()]) && Outside(node)
      requires tree == Shifted(t, [node.Place()]) && births.Keys == t.at.Values
      requires node.Place() in t.at && Births() == births - {t.at[node.Place()]}
      ensures Removing(t, births, [node.Place()], node, node.containerNodePanel, node.partnerInt)
    {
    }

    /** The loop of RemoveNode: nodes move up until nobody is left below the hole. */
    method PromoteChain(node: PoolNode, panel0: PoolNodePanel, slot0: nat, ghost t: Tree, ghost births: Births)
      returns (curPanel: PoolNodePanel, partnerInt: nat, promoted: seq<PoolNode>, ghost chain: seq<Loc>)
      requires Removing(t, births, [node.Place()], node, panel0, slot0)
      modifies this`tree, panels.Values`nodes, nodeMap.Values`containerNodePanel, nodeMap.Values`partnerInt
      ensures |chain| > 0 && chain[0] == node.Place()
      ensures Removing(t, births, chain, node, curPanel, partnerInt) && AreOfChain(promoted, t, chain)
      ensures t.EmptyBelow(Last(chain).panel)
    {
      hide *;
      curPanel, partnerInt, promoted := panel0, slot0, [];
      var targetPanel := curPanel;
      chain := [node.Place()];
      assert AreOfChain(promoted, t, chain) by { NobodyPromoted(t, chain); }
      while true
        invariant |chain| > 0 && chain[0] == node.Place()
        invariant Removing(t, births, chain, node, curPanel, partnerInt) && AreOfChain(promoted, t, chain)
        decreases t.levels - curPanel.place.Level()
      {
        HoleIsInTree(t, births, chain, node, curPanel, partnerInt);
        var more, panelA, panelB, amountA, amountB := LookBelow(curPanel);
        if !more {
          ChainEnds(t, births, chain, node, curPanel, partnerInt);
          break;
        }
        ChainGoesOn(t, births, chain, node, curPanel, partnerInt);
        targetPanel, partnerInt :=
          ChooseTarget(curPanel.place, panelA, panelB, node.partnerInt, amountA, amountB, targetPanel);
        ghost var l := Loc(targetPanel.place, partnerInt);
        NextInChain(t, births, chain, node, curPanel, l);
        ghost var u := tree;
        var targetNode := Promote(curPanel, node.partnerInt, targetPanel, partnerInt);
        NextRemoving(t, births, chain, l, u, node, targetPanel, partnerInt);
        OneMorePromoted(promoted, t, chain, l, targetNode);
        curPanel := targetPanel;
        promoted := promoted + [targetNode];
        chain := chain + [l];
      }
    }

    lemma NobodyPromoted(t: Tree, chain: seq<Loc>)
      requires |chain| == 1
      ensures AreOfChain([], t, chain)
    {
    }

    lemma HoleIsInTree(t: Tree, births: Births, chain: seq<Loc>, node: PoolNode, panel: PoolNodePanel, slot: nat)
      requires |chain| > 0 && Removing(t, births, chain, node, panel, slot)
      ensures State() && panel.place in panels && panels[panel.place] == panel
      ensures panel.place.Level() < t.levels
    {
    }

    /** Is anybody left below a panel, and how many in each half? */
    method LookBelow(panel: PoolNodePanel)
      returns (more: bool, panelA: PoolNodePanel, panelB: PoolNodePanel, amountA: nat, amountB: nat)
      requires State() && panel.place in panels && panels[panel.place] == panel
      ensures !more ==> tree.EmptyBelow(panel.place)
      ensures more ==> Siblings(panel.place, panelA, panelB)
      ensures more ==> amountA == tree.SubtreeCount(Under(panel.place, 0))
      ensures more ==> amountB == tree.SubtreeCount(Under(panel.place, 1))
      ensures more ==> amountA > 0 || amountB > 0
    {
      hide State, Tree.SubtreeCount, Tree.EmptyBelow;
      more, panelA, panelB, amountA, amountB := false, panel, panel, 0, 0;
      ChildPanels(panel.place);
      StateIsWellFormed();
      if panel.childCluster == null {
        LastLevelIsEmptyBelow(tree, panel.place);
      } else {
        panelA, panelB := panel.childCluster.panels[0], panel.childCluster.panels[1];
        amountA := panelA.GetChildNodeAmount(this);
        amountB := panelB.GetChildNodeAmount(this);
        more := amountA != 0 || amountB != 0;
        if !more { NobodyCounted(tree, panel.place); }
      }
    }

    static lemma NobodyCounted(t: Tree, p: Path)
      requires t.SubtreeCount(Under(p, 0)) == 0 == t.SubtreeCount(Under(p, 1))
      ensures t.EmptyBelow(p)
    {
    }

    static lemma LastLevelIsEmptyBelow(t: Tree, p: Path)
      requires t.WellFormed() && p.Level() + 1 >= t.levels
      ensures t.EmptyBelow(p)
    {
    }

    lemma ChainEnds(t: Tree, births: Births, chain: seq<Loc>, node: PoolNode, panel: PoolNodePanel, slot: nat)
      requires |chain| > 0 && Removing(t, births, chain, node, panel, slot) && tree.EmptyBelow(panel.place)
      ensures t.EmptyBelow(Last(chain).panel)
    {
    }

    lemma SameBelowHole(t: Tree, births: Births, chain: seq<Loc>, node: PoolNode, panel: PoolNodePanel, slot: nat)
      requires |chain| > 0 && Removing(t, births, chain, node, panel, slot)
      ensures SameBelow(t, births, tree, Births(), panel.place.Level())
      ensures forall n: nat :: t.PanelCount(Under(panel.place, n)) == tree.PanelCount(Under(panel.place, n))
      ensures forall n: nat :: t.SubtreeCount(Under(panel.place, n)) == tree.SubtreeCount(Under(panel.place, n))
    {
      ShiftedBelow(t, births, Births(), chain);
      forall n: nat
        ensures t.PanelCount(Under(panel.place, n)) == tree.PanelCount(Under(panel.place, n))
        ensures t.SubtreeCount(Under(panel.place, n)) == tree.SubtreeCount(Under(panel.place, n))
      {
        SameCounts(t, births, tree, Births(), panel.place.Level(), Under(panel.place, n));
      }
    }

    lemma ChainGoesOn(t: Tree, births: Births, chain: seq<Loc>, node: PoolNode, panel: PoolNodePanel, slot: nat)
      requires |chain| > 0 && Removing(t, births, chain, node, panel, slot)
      requires tree.SubtreeCount(Under(panel.place, 0)) > 0 || tree.SubtreeCount(Under(panel.place, 1)) > 0
      ensures !tree.EmptyBelow(panel.place) && !t.EmptyBelow(panel.place)
      ensures node.partnerInt == slot < 3 && Loc(panel.place, slot) !in tree.at
    {
      SameBelowHole(t, births, chain, node, panel, slot);
      SubtreeCountZero(t, Under(panel.place, 0));
      SubtreeCountZero(t, Under(panel.place, 1));
      HoleKeepsSlot(t, births, chain);
      RemovalEffect(t, births, chain);
    }

    lemma NextInChain(t: Tree, births: Births, chain: seq<Loc>, node: PoolNode, panel: PoolNodePanel, l: Loc)
      requires |chain| > 0 && Removing(t, births, chain, node, panel, node.partnerInt) && !t.EmptyBelow(panel.place)
      requires Promotes(tree, Births(), panel.place, node.partnerInt, l)
      ensures Follows(t, births, chain, l, tree, Births()) && l in tree.at && t.Get(l) == tree.at[l]
      ensures Outside(node) && Loc(panel.place, node.partnerInt) == Last(chain)
      ensures l.panel.Level() == panel.place.Level() + 1
    {
      SameBelowHole(t, births, chain, node, panel, node.partnerInt);
      SamePromotion(t, births, tree, Births(), panel.place, node.partnerInt, l);
      PrefixGrows(t, births, chain, l);
      ShiftedStep(t, births, chain, l);
      PromotedIsBelow(t, births, panel.place, node.partnerInt, l);
    }

    lemma RemovalStarts(id: Id)
      requires Valid() && id in nodeMap
      ensures State() && tree.Sound() && nodeMap[id].nodeID == id
      ensures var l := nodeMap[id].Place();
        && l in tree.at && tree.at[l] == id && IsChainPrefix(tree, Births(), [l])
        && l.panel in panels && panels[l.panel] == nodeMap[id].containerNodePanel
      ensures Births().Keys == tree.at.Values && HasOwnChannel(nodeMap, id)
    {
      WhereIsOccupied(id);
      StateIsWellFormed();
    }

    lemma NextRemoving(t: Tree, births: Births, chain: seq<Loc>, l: Loc, u: Tree, node: PoolNode,
                       panel: PoolNodePanel, slot: nat)
      requires State() && Follows(t, births, chain, l, u, Births())
      requires l in u.at && |chain| > 0 && tree == Moved(u, l, Last(chain))
      requires panel.place in panels && panels[panel.place] == panel && Loc(panel.place, slot) == l
      requires Outside(node) && node.Place() == chain[0]
      ensures |chain + [l]| > 0 && Removing(t, births, chain + [l], node, panel, slot)
    {
    }

    lemma OneMorePromoted(promoted: seq<PoolNode>, t: Tree, chain: seq<Loc>, l: Loc, node: PoolNode)
      requires AreOfChain(promoted, t, chain) && |chain| > 0
      requires t.Get(l) in nodeMap && nodeMap[t.Get(l)] == node
      ensures AreOfChain(promoted + [node], t, chain + [l])
    {
      var more, longer := promoted + [node], chain + [l];
      forall i | 0 <= i < |more|
        ensures IsOfChain(more, t, longer, i)
      {
        if i < |promoted| {
          assert IsOfChain(promoted, t, chain, i);
        }
      }
    }

    // ---- Telling about a removal ----

    /** Since `before`, every node has been sent these announcements, in order. */
    ghost predicate Informed(before: Mailboxes, news: seq<Announcement>)
      reads this, nodeMap.Values, Channels()
    {
      before.Keys == nodeMap.Keys && forall k | k in nodeMap ::
        nodeMap[k].nodeChan.sent == before[k] + Letters(Inbox(tree, news, Where(k)))
    }

    ghost function Mail(): (m: Mailboxes)
      reads this`nodeMap, Channels()
      ensures Recorded(nodeMap, m)
    {
      map k | k in nodeMap :: nodeMap[k].nodeChan.sent
    }

    /** The promoted nodes announce their new slots, from the top down; then the leaving node
        announces the slot that is empty now. */
    method Depart(node: PoolNode, panel: PoolNodePanel, slot: nat, promoted: seq<PoolNode>,
                  ghost t: Tree, ghost births: Births, ghost chain: seq<Loc>, ghost before: Mailboxes)
      requires |chain| > 0 && Removing(t, births, chain, node, panel, slot) && AreOfChain(promoted, t, chain)
      requires t.EmptyBelow(Last(chain).panel) && Recorded(nodeMap, before) && PathsRead()
      modifies Channels()`sent, node`nodeID, node`containerNodePanel, node`partnerInt
      ensures Valid() && IsChain(t, births, chain) && tree == Shifted(t, chain)
      ensures node.nodeID == NOBODY && node.Place() == Last(chain)
      ensures Informed(before, RemovalNews(t, chain))
    {
      hide *;
      ChainIsComplete(t, births, chain, node, panel, slot);
      ghost var news := PromotedStand(t, births, chain, node, panel, slot, promoted);
      AnnounceAll(promoted, news, before);
      Vanish(node, panel, slot, |promoted| > 0, before, news);
      StaysValid();
      NewsOfRemoval(t, births, chain, news);
    }

    lemma StaysValid()
      requires State() && PathsRead() && tree.Supported()
      ensures Valid()
    {
    }

    /** The leaving node takes the place of the last promoted node, if any moved, loses its id and
        announces its place, which is empty. */
    method Vanish(node: PoolNode, panel: PoolNodePanel, slot: nat, moved: bool,
                  ghost before: Mailboxes, ghost news: seq<Announcement>)
      requires State() && PathsRead() && node !in nodeMap.Values && Informed(before, news)
      requires panel.place in panels && panels[panel.place] == panel && slot < 3 && Loc(panel.place, slot) !in tree.at
      requires moved || (node.containerNodePanel == panel && node.partnerInt == slot)
      modifies Channels()`sent, node`nodeID, node`containerNodePanel, node`partnerInt
      ensures State() && node.nodeID == NOBODY && node.Place() == Loc(panel.place, slot)
      ensures Informed(before, news + [Announcement(Loc(panel.place, slot), NOBODY)])
    {
      hide *;
      ghost var mail := Mail();
      InformedSoFar(before, news, mail);
      if moved {
        node.containerNodePanel := panel;
        node.partnerInt := slot;
      }
      node.nodeID := NOBODY;
      LeaverStands(node, panel, slot);
      Announce(node, mail);
      InformedMore(before, mail, news, Announcement(Loc(panel.place, slot), NOBODY));
    }

    lemma LeaverStands(node: PoolNode, panel: PoolNodePanel, slot: nat)
      requires State() && node !in nodeMap.Values && node.nodeID == NOBODY
      requires panel.place in panels && panels[panel.place] == panel && node.containerNodePanel == panel
      requires node.partnerInt == slot < 3 && Loc(panel.place, slot) !in tree.at
      ensures node.Place() == Loc(panel.place, slot) && Standing(node)
    {
    }

    static lemma NewsOfRemoval(t: Tree, births: Births, chain: seq<Loc>, news: seq<Announcement>)
      requires t.Sound() && IsChain(t, births, chain) && |news| == |chain| - 1
      requires forall i | 0 <= i < |news| :: news[i] == Announcement(chain[i], t.Get(chain[i+1]))
      ensures news + [Announcement(Last(chain), NOBODY)] == RemovalNews(t, chain)
    {
      hide *;
      NewsLength(t, chain);
      forall i: nat | i < |chain|
        ensures (news + [Announcement(Last(chain), NOBODY)])[i] == RemovalNews(t, chain)[i]
      {
        NewsAt(t, chain, i);
        AfterRemoval(t, births, chain, i);
      }
    }

    static lemma AfterRemoval(t: Tree, births: Births, chain: seq<Loc>, i: nat)
      requires t.Sound() && IsChain(t, births, chain) && i < |chain|
      ensures Last(chain) == chain[|chain|-1]
      ensures Shifted(t, chain).Get(chain[i]) == if i < |chain| - 1 then t.Get(chain[i+1]) else NOBODY
    {
      RemovalEffect(t, births, chain);
    }

    static lemma NewsLength(t: Tree, chain: seq<Loc>)
      requires |chain| > 0
      ensures |RemovalNews(t, chain)| == |chain|
    {
    }

    static lemma NewsAt(t: Tree, chain: seq<Loc>, i: nat)
      requires i < |chain|
      ensures |RemovalNews(t, chain)| == |chain|
      ensures RemovalNews(t, chain)[i] == Announcement(chain[i], Shifted(t, chain).Get(chain[i]))
    {
    }

    lemma ChainIsComplete(t: Tree, births: Births, chain: seq<Loc>, node: PoolNode, panel: PoolNodePanel, slot: nat)
      requires |chain| > 0 && Removing(t, births, chain, node, panel, slot) && t.EmptyBelow(Last(chain).panel)
      ensures tree.Supported() && State() && t.Sound() && IsChain(t, births, chain) && tree == Shifted(t, chain)
      ensures panel.place in panels && panels[panel.place] == panel && Loc(panel.place, slot) == Last(chain)
      ensures Last(chain) !in tree.at && slot < 3 && node !in nodeMap.Values
      ensures |chain| == 1 ==> node.containerNodePanel == panel && node.partnerInt == slot
    {
      RemovalKeepsSound(t, births, chain);
      RemovalEffect(t, births, chain);
    }

    /** The announcing nodes are live and stand in the slots they announce. */
    ghost predicate Speak(promoted: seq<PoolNode>, news: seq<Announcement>)
      reads this`nodeMap, promoted
    {
      |news| == |promoted| && forall i | 0 <= i < |promoted| :: Speaks(promoted, news, i)
    }

    lemma PromotedStand(t: Tree, births: Births, chain: seq<Loc>, node: PoolNode, panel: PoolNodePanel, slot: nat,
                        promoted: seq<PoolNode>)
      returns (news: seq<Announcement>)
      requires |chain| > 0 && Removing(t, births, chain, node, panel, slot) && AreOfChain(promoted, t, chain)
      ensures |news| == |promoted| == |chain| - 1 && Speak(promoted, news)
      ensures forall i | 0 <= i < |news| :: news[i] == Announcement(chain[i], t.Get(chain[i+1]))
    {
      news := seq(|promoted|, (i: nat) requires i < |promoted| => Announcement(chain[i], t.Get(chain[i+1])));
      ChainMoved(t, births, chain, node, panel, slot);
      hide *;
      forall i | 0 <= i < |promoted|
        ensures Speaks(promoted, news, i)
      {
        PromotedAnnounces(t, chain, promoted, news, i);
      }
      assert Speak(promoted, news) by { AllStand(promoted, news); }
    }

    ghost predicate Speaks(promoted: seq<PoolNode>, news: seq<Announcement>, i: int)
      requires 0 <= i < |promoted| == |news|
      reads this`nodeMap, promoted
    {
      && promoted[i].nodeID in nodeMap && nodeMap[promoted[i].nodeID] == promoted[i]
      && news[i] == Announcement(promoted[i].Place(), promoted[i].nodeID)
    }

    lemma AllStand(promoted: seq<PoolNode>, news: seq<Announcement>)
      requires |promoted| == |news| && forall i | 0 <= i < |promoted| :: Speaks(promoted, news, i)
      ensures Speak(promoted, news)
    {
    }

    lemma PromotedAnnounces(t: Tree, chain: seq<Loc>, promoted: seq<PoolNode>, news: seq<Announcement>, i: int)
      requires State() && AreOfChain(promoted, t, chain) && 0 <= i < |promoted| == |news|
      requires chain[i] in tree.at && tree.at[chain[i]] == t.Get(chain[i+1])
      requires news[i] == Announcement(chain[i], t.Get(chain[i+1]))
      ensures Speaks(promoted, news, i)
    {
      assert IsOfChain(promoted, t, chain, i);
      hide State;
      WhereIs(chain[i]);
      WhereIsOccupied(t.Get(chain[i+1]));
    }

    lemma ChainMoved(t: Tree, births: Births, chain: seq<Loc>, node: PoolNode, panel: PoolNodePanel, slot: nat)
      requires |chain| > 0 && Removing(t, births, chain, node, panel, slot)
      ensures State()
      ensures forall i: nat | i < |chain| - 1 :: chain[i] in tree.at && tree.at[chain[i]] == t.Get(chain[i+1])
    {
      RemovalEffect(t, births, chain);
      forall i: nat | i < |chain| - 1
        ensures chain[i] in tree.at && tree.at[chain[i]] == t.Get(chain[i+1])
      {
        assert Shifted(t, chain).Get(chain[i]) == t.Get(chain[i+1]);
        assert chain[i].panel.Level() < Last(chain).panel.Level();
      }
    }

    method AnnounceAll(promoted: seq<PoolNode>, ghost news: seq<Announcement>, ghost before: Mailboxes)
      requires State() && PathsRead() && |news| == |promoted| && Speak(promoted, news)
      requires Recorded(nodeMap, before)
      modifies Channels()`sent
      ensures State() && Informed(before, news)
    {
      hide *;
      NothingSaid(before);
      assert news[..0] == [];
      for i := 0 to |promoted|
        invariant State() && Speak(promoted, news) && Informed(before, news[..i])
      {
        ghost var mail := Mail();
        LiveStands(promoted, news, i);
        InformedSoFar(before, news[..i], mail);
        Announce(promoted[i], mail);
        InformedMore(before, mail, news[..i], news[i]);
        assert news[..i+1] == news[..i] + [news[i]];
      }
      assert news[..|promoted|] == news;
    }

    lemma NothingSaid(before: Mailboxes)
      requires Recorded(nodeMap, before)
      ensures Informed(before, [])
    {
    }

    lemma LiveStands(promoted: seq<PoolNode>, news: seq<Announcement>, i: nat)
      requires State() && Speak(promoted, news) && i < |promoted|
      ensures |news| == |promoted| && Standing(promoted[i])
      ensures promoted[i].Place() == news[i].loc && promoted[i].nodeID == news[i].id
    {
      assert Speaks(promoted, news, i);
      WhereIsOccupied(promoted[i].nodeID);
    }

    /** Once `before` and these announcements had been put on the channels, they held `mail`. */
    ghost predicate Delivered(before: Mailboxes, news: seq<Announcement>, mail: Mailboxes)
      reads this, nodeMap.Values
    {
      before.Keys == mail.Keys == nodeMap.Keys && forall k | k in nodeMap ::
        mail[k] == before[k] + Letters(Inbox(tree, news, Where(k)))
    }

    lemma InformedSoFar(before: Mailboxes, news: seq<Announcement>, mail: Mailboxes)
      requires Informed(before, news) && Recorded(nodeMap, mail)
      ensures Delivered(before, news, mail)
    {
    }

    lemma InformedMore(before: Mailboxes, mail: Mailboxes, news: seq<Announcement>, more: Announcement)
      requires Delivered(before, news, mail) && Heard(mail, more.loc, more.id)
      ensures Informed(before, news + [more])
    {
    }

    /** Since `before`, every node has been sent the announcement of node `id` in slot l. */
    ghost predicate Heard(before: Mailboxes, l: Loc, id: Id)
      reads this, nodeMap.Values, Channels()
    {
      before.Keys == nodeMap.Keys && forall k | k in nodeMap ::
        nodeMap[k].nodeChan.sent == before[k] + Letters(SentTo(tree, l, id, Where(k)))
    }
  }

  lemma LeastPanelHasRoom(t: Tree, c: Cluster, k: nat)
    requires k < c.OwnPanels() && LeastOfPanels(t, c, c.OwnPanels(), k) && t.ClusterCount(c) < 3 * c.OwnPanels()
    ensures t.PanelCount(c.Panel(k)) < 3
  {
  }

  lemma ClusterCountBound(t: Tree, c: Cluster)
    ensures t.ClusterCount(c) <= 3 * c.OwnPanels()
  {
  }
}
