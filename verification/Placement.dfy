/** Where the next node goes, and what adding it preserves. */
module Placement {
  import opened ClusterTree
  import opened Ids

  ghost predicate HasRoom(t: Tree) {
    exists d: nat | d < t.levels :: !t.LevelFull(d)
  }

  /** The least loaded cluster of a level; among equals the last one. */
  ghost predicate LeastCluster(t: Tree, c: Cluster) {
    forall k: Cluster | k.Valid() && k.Level() == c.Level() ::
      && t.ClusterCount(c) <= t.ClusterCount(k)
      && (c.Rank() < k.Rank() ==> t.ClusterCount(c) < t.ClusterCount(k))
  }

  /** The least loaded panel of its own cluster; among equals the last one. */
  ghost predicate LeastPanel(t: Tree, p: Path) {
    forall i: nat | i < Home(p).OwnPanels() ::
      && t.PanelCount(p) <= t.PanelCount(Home(p).Panel(i))
      && (p.number < i ==> t.PanelCount(p) < t.PanelCount(Home(p).Panel(i)))
  }

  /** The slot that the next node of a tree with room is given. */
  ghost predicate IsNextSlot(t: Tree, l: Loc) {
    && t.HasSlot(l) && l !in t.at
    && (forall d: nat | d < l.panel.Level() :: t.LevelFull(d))
    && LeastCluster(t, Home(l.panel))
    && LeastPanel(t, l.panel)
    && (forall s: nat | s < l.slot :: Loc(l.panel, s) in t.at)
  }

  /** The tree with one more level when, and only when, the old one has no room. */
  ghost function WithRoom(t: Tree): Tree {
    if HasRoom(t) then t else t.(levels := t.levels + 1)
  }

  ghost predicate Adds(t: Tree, id: Id, l: Loc, t': Tree) {
    && IsNextSlot(WithRoom(t), l)
    && t' == WithRoom(t).(at := t.at[l := id])
  }

  /** Whatever its id, a newcomer leaves every panel above an occupied one full. */
  lemma NewcomerHasSupport(t: Tree, id: Id, l: Loc, t': Tree)
    requires t.Sound() && Adds(t, id, l, t')
    ensures t'.Supported() && t'.EmptyBelow(l.panel) && l !in t.at
  {
    forall k | k in t'.at && k.panel.Under?
      ensures t'.Full(k.panel.up)
    {
      if k == l { assert WithRoom(t).LevelFull(l.panel.up.Level()); }
    }
    NothingBelowRoom(WithRoom(t), l);
  }

  lemma AddKeepsSound(t: Tree, id: Id, l: Loc, t': Tree)
    requires t.Sound() && Adds(t, id, l, t')
    requires id != NOBODY && id !in t.at.Values
    ensures t'.Sound()
    ensures t'.at.Values == t.at.Values + {id}
    ensures t'.EmptyBelow(l.panel)
  {
    NewcomerHasSupport(t, id, l, t');
    assert t'.at[l] == id;
    forall v | v in t.at.Values
      ensures v in t'.at.Values
    {
      var k :| k in t.at && t.at[k] == v;
      assert t'.at[k] == v;
    }
  }

  /** The id of a newcomer, which nobody checks, decides whether the tree stays sound. */
  lemma AddNeedsFreshId(t: Tree, id: Id, l: Loc, t': Tree)
    requires t.Sound() && Adds(t, id, l, t')
    ensures t'.Sound() <==> id != NOBODY && id !in t.at.Values
  {
    assert t'.at[l] == id;
    if id != NOBODY && id !in t.at.Values {
      AddKeepsSound(t, id, l, t');
    } else if id != NOBODY {
      var k :| k in t.at && t.at[k] == id;
      assert t'.at[k] == id && k != l;
    }
  }

  /** A panel with an empty slot has nobody below it, which is why a new node has no children. */
  lemma NothingBelowRoom(t: Tree, l: Loc)
    requires t.Supported() && l !in t.at && l.slot < 3
    ensures t.EmptyBelow(l.panel)
  {
  }

  lemma {:induction false} RankIdentifies(p: Path, q: Path)
    requires p.Valid() && q.Valid() && p.Level() == q.Level() && p.Rank() == q.Rank()
    ensures p == q
  {
    if p.Under? { RankIdentifies(p.up, q.up); }
  }

  lemma FullHasNoGap(t: Tree, l: Loc)
    requires t.HasSlot(l) && l !in t.at
    ensures !t.LevelFull(l.panel.Level())
  {
  }

  /** In a tree of one level, an empty panel that is the last of the emptiest ones is next. */
  lemma NextInCentre(t: Tree, n: nat)
    requires t.levels == 1 && n < 3 && LeastPanel(t, Centre(n)) && t.PanelCount(Centre(n)) == 0
    ensures HasRoom(t) && IsNextSlot(t, Loc(Centre(n), 0))
  {
    var l := Loc(Centre(n), 0);
    assert !t.Full(l.panel) && l.panel.Valid() && l.panel.Level() == 0;
    assert !t.LevelFull(0);
    assert Home(l.panel) == Hub;
    forall k: Cluster | k.Valid() && k.Level() == 0
      ensures k == Hub
    {
    }
  }

  /** Among equals the last one is taken: the first node of a pool gets the first slot of the last panel. */
  lemma FirstNode(id: Id)
    ensures Adds(NEW_TREE, id, Loc(Centre(2), 0), NEW_TREE.(at := map[Loc(Centre(2), 0) := id]))
  {
    forall i: nat | i < 3
      ensures NEW_TREE.PanelCount(Hub.Panel(i)) == 0
    {
    }
    NextInCentre(NEW_TREE, 2);
  }

  /** A device that connects twice is an input that breaks the tree: it sits in two slots. */
  lemma SameNodeTwice(id: Id)
    requires id != NOBODY
    ensures var t := NEW_TREE.(at := map[Loc(Centre(2), 0) := id]);
      && t.Sound() && Adds(t, id, Loc(Centre(1), 0), t.(at := t.at[Loc(Centre(1), 0) := id]))
      && !t.(at := t.at[Loc(Centre(1), 0) := id]).Sound()
  {
    var t := NEW_TREE.(at := map[Loc(Centre(2), 0) := id]);
    assert t.PanelCount(Centre(0)) == t.PanelCount(Centre(1)) == 0 && t.PanelCount(Centre(2)) == 1;
    assert Hub.Panel(0) == Centre(0) && Hub.Panel(1) == Centre(1) && Hub.Panel(2) == Centre(2);
    NextInCentre(t, 1);
    assert t.at[Loc(Centre(2), 0)] == id;
    AddNeedsFreshId(t, id, Loc(Centre(1), 0), t.(at := t.at[Loc(Centre(1), 0) := id]));
  }

  lemma NotShallower(t: Tree, k: Loc, l: Loc)
    requires IsNextSlot(t, k) && IsNextSlot(t, l)
    ensures l.panel.Level() <= k.panel.Level()
  {
    if k.panel.Level() < l.panel.Level() {
      FullHasNoGap(t, k);
      assert false;
    }
  }

  /** The rule leaves no choice: every tree gives the newcomer at most one slot. */
  lemma NextSlotIsUnique(t: Tree, k: Loc, l: Loc)
    requires IsNextSlot(t, k) && IsNextSlot(t, l)
    ensures k == l
  {
    NotShallower(t, k, l);
    NotShallower(t, l, k);
    var c, e := Home(k.panel), Home(l.panel);
    HomePanel(k.panel);
    HomePanel(l.panel);
    assert c.Level() == e.Level();
    assert c.Rank() == e.Rank();
    if c.Below? { RankIdentifies(c.connector, e.connector); }
    assert k.panel.number == l.panel.number;
  }

  // ---- Among equals the last one ----

  /** The last panel of a level, in tree order. */
  function LastPanel(d: nat): Path {
    if d == 0 then Centre(2) else Under(LastPanel(d - 1), 1)
  }

  lemma {:induction false} LastPanelIsLast(d: nat, p: Path)
    requires p.Valid() && p.Level() == d
    ensures LastPanel(d).Valid() && LastPanel(d).Level() == d && p.Rank() <= LastPanel(d).Rank()
    decreases d
  {
    if d > 0 { LastPanelIsLast(d - 1, p.up); }
  }

  lemma NextLevelsFull(t: Tree, l: Loc)
    requires IsNextSlot(WithRoom(t), l)
    ensures l.panel.Valid() && l.slot < 3 && l !in t.at
    ensures forall d: nat | d < l.panel.Level() :: t.LevelFull(d)
  {
    forall d: nat | d < l.panel.Level()
      ensures t.LevelFull(d)
    {
      assert WithRoom(t).LevelFull(d);
    }
  }

  lemma FirstFreeSlot(t: Tree, l: Loc)
    requires IsNextSlot(WithRoom(t), l) && l.slot > 0
    ensures Loc(l.panel, 0) in t.at && t.PanelCount(l.panel) > 0
  {
    assert WithRoom(t).at == t.at;
  }

  lemma NextOfClusters(t: Tree, l: Loc, k: Cluster)
    requires IsNextSlot(WithRoom(t), l) && k.Valid() && k.Level() == Home(l.panel).Level()
    ensures t.ClusterCount(Home(l.panel)) <= t.ClusterCount(k)
    ensures Home(l.panel).Rank() < k.Rank() ==> t.ClusterCount(Home(l.panel)) < t.ClusterCount(k)
  {
    RoomCounts(t, k);
    RoomCounts(t, Home(l.panel));
    hide WithRoom, Tree.ClusterCount;
    assert WithRoom(t).ClusterCount(Home(l.panel)) <= WithRoom(t).ClusterCount(k);
  }

  lemma NextOfPanels(t: Tree, l: Loc, i: nat)
    requires IsNextSlot(WithRoom(t), l) && i < Home(l.panel).OwnPanels()
    ensures t.PanelCount(l.panel) <= t.PanelCount(Home(l.panel).Panel(i))
    ensures l.panel.number < i ==> t.PanelCount(l.panel) < t.PanelCount(Home(l.panel).Panel(i))
  {
    assert WithRoom(t).at == t.at;
    assert WithRoom(t).PanelCount(l.panel) <= WithRoom(t).PanelCount(Home(l.panel).Panel(i));
  }

  ghost predicate EvenClusters(t: Tree, d: nat) {
    forall c: Cluster, k: Cluster | c.Valid() && k.Valid() && c.Level() == k.Level() == d ::
      t.ClusterCount(c) == t.ClusterCount(k)
  }

  ghost predicate EvenPanels(t: Tree, c: Cluster) {
    forall i: nat, j: nat | i < c.OwnPanels() && j < c.OwnPanels() ::
      t.PanelCount(c.Panel(i)) == t.PanelCount(c.Panel(j))
  }

  lemma EvenTakesLastCluster(t: Tree, l: Loc)
    requires IsNextSlot(WithRoom(t), l) && EvenClusters(t, l.panel.Level())
    ensures Home(l.panel) == Home(LastPanel(l.panel.Level()))
  {
    var d := l.panel.Level();
    NextLevelsFull(t, l);
    HomePanel(l.panel);
    LastPanelIsLast(d, l.panel);
    HomePanel(LastPanel(d));
    NextOfClusters(t, l, Home(LastPanel(d)));
    hide IsNextSlot, WithRoom, Tree.ClusterCount;
    if d > 0 {
      LastPanelIsLast(d - 1, l.panel.up);
      RankIdentifies(l.panel.up, LastPanel(d - 1));
    }
  }

  /** In a level in which all clusters, and in the chosen one all panels, are equally loaded, the newcomer is
      put into the very last panel. */
  lemma EqualsTakeLast(t: Tree, l: Loc)
    requires IsNextSlot(WithRoom(t), l) && EvenClusters(t, l.panel.Level()) && EvenPanels(t, Home(l.panel))
    ensures l.panel == LastPanel(l.panel.Level())
  {
    EvenTakesLastCluster(t, l);
    NextLevelsFull(t, l);
    HomePanel(l.panel);
    NextOfPanels(t, l, Home(l.panel).OwnPanels() - 1);
    hide IsNextSlot, WithRoom, Tree.PanelCount, EvenClusters;
    assert t.PanelCount(Home(l.panel).Panel(l.panel.number)) ==
      t.PanelCount(Home(l.panel).Panel(Home(l.panel).OwnPanels() - 1));
  }

  /** The first node of a level gets the first slot of its last panel. */
  lemma FirstOfLevel(t: Tree, l: Loc)
    requires IsNextSlot(WithRoom(t), l) && forall k | k in t.at :: k.panel.Level() != l.panel.Level()
    ensures l == Loc(LastPanel(l.panel.Level()), 0)
  {
    NextLevelsFull(t, l);
    HomePanel(l.panel);
    if l.slot > 0 { FirstFreeSlot(t, l); }
    forall c: Cluster, i: nat | c.Valid() && c.Level() == l.panel.Level() && i < c.OwnPanels()
      ensures t.PanelCount(c.Panel(i)) == 0
    {
      ClusterPanels(c, i, i);
    }
    hide IsNextSlot, WithRoom;
    EqualsTakeLast(t, l);
  }

  // ---- Balance ----

  ghost predicate ClustersWithin(t: Tree, d: nat, b: nat) {
    forall c: Cluster, k: Cluster | c.Valid() && k.Valid() && c.Level() == d && k.Level() == d ::
      t.ClusterCount(c) <= t.ClusterCount(k) + b
  }

  ghost predicate PanelsWithin(t: Tree, c: Cluster, b: nat) {
    forall i: nat, j: nat | i < c.OwnPanels() && j < c.OwnPanels() ::
      t.PanelCount(c.Panel(i)) <= t.PanelCount(c.Panel(j)) + b
  }

  lemma AddCountsPanel(t: Tree, id: Id, l: Loc, t': Tree, p: Path)
    requires Adds(t, id, l, t')
    ensures t'.PanelCount(p) == t.PanelCount(p) + if p == l.panel then 1 else 0
  {
  }

  lemma AddCountsCluster(t: Tree, id: Id, l: Loc, t': Tree, c: Cluster)
    requires Adds(t, id, l, t') && c.Valid()
    ensures t'.ClusterCount(c) == t.ClusterCount(c) + if c == Home(l.panel) then 1 else 0
  {
    AddCountsPanel(t, id, l, t', c.Panel(0));
    AddCountsPanel(t, id, l, t', c.Panel(1));
    AddCountsPanel(t, id, l, t', c.Panel(2));
    HomePanel(l.panel);
    ClusterPanels(c, 0, 1);
    ClusterPanels(c, 1, 2);
    ClusterPanels(c, 0, 2);
    assert l.panel.number in {0, 1, 2};
  }

  lemma LeastInWithRoom(t: Tree, l: Loc, c: Cluster)
    requires IsNextSlot(WithRoom(t), l) && c.Valid() && c.Level() == l.panel.Level()
    ensures t.ClusterCount(Home(l.panel)) <= t.ClusterCount(c)
  {
    hide *;
    NextIsLeast(WithRoom(t), l, c);
    RoomCounts(t, c);
    RoomCounts(t, Home(l.panel));
  }

  lemma NextIsLeast(t: Tree, l: Loc, c: Cluster)
    requires IsNextSlot(t, l) && c.Valid() && c.Level() == l.panel.Level()
    ensures t.ClusterCount(Home(l.panel)) <= t.ClusterCount(c)
  {
  }

  lemma RoomCounts(t: Tree, c: Cluster)
    ensures WithRoom(t).ClusterCount(c) == t.ClusterCount(c)
  {
    assert WithRoom(t).at == t.at;
    hide HasRoom, WithRoom;
  }

  /** An add never raises the spread of cluster sizes within a level above the larger of what
      it was and 1. */
  lemma AddKeepsClusterSpread(t: Tree, id: Id, l: Loc, t': Tree, d: nat, b: nat)
    requires Adds(t, id, l, t') && 1 <= b && ClustersWithin(t, d, b)
    ensures ClustersWithin(t', d, b)
  {
    HomePanel(l.panel);
    forall c: Cluster, k: Cluster | c.Valid() && k.Valid() && c.Level() == d && k.Level() == d
      ensures t'.ClusterCount(c) <= t'.ClusterCount(k) + b
    {
      AddCountsCluster(t, id, l, t', c);
      AddCountsCluster(t, id, l, t', k);
      if c == Home(l.panel) { LeastInWithRoom(t, l, k); }
    }
  }

  /** The same for the panels of one cluster. */
  lemma AddKeepsPanelSpread(t: Tree, id: Id, l: Loc, t': Tree, c: Cluster, b: nat)
    requires Adds(t, id, l, t') && 1 <= b && c.Valid() && PanelsWithin(t, c, b)
    ensures PanelsWithin(t', c, b)
  {
    forall i: nat, j: nat | i < c.OwnPanels() && j < c.OwnPanels()
      ensures t'.PanelCount(c.Panel(i)) <= t'.PanelCount(c.Panel(j)) + b
    {
      ClusterPanels(c, i, j);
      AddCountsPanel(t, id, l, t', c.Panel(i));
      AddCountsPanel(t, id, l, t', c.Panel(j));
      assert t.PanelCount(c.Panel(i)) <= t.PanelCount(c.Panel(j)) + b;
      if c.Panel(i) == l.panel {
        assert WithRoom(t).PanelCount(l.panel) <= WithRoom(t).PanelCount(Home(l.panel).Panel(j));
      }
    }
  }

  ghost predicate AddsSome(t: Tree, t': Tree) {
    exists id, l :: Adds(t, id, l, t')
  }

  ghost predicate AddsSomeAt(run: seq<Tree>, i: nat)
    requires i + 1 < |run|
  {
    AddsSome(run[i], run[i+1])
  }

  /** Nodes only come, from a new pool on. */
  ghost predicate IsAddRun(run: seq<Tree>) {
    |run| > 0 && run[0] == NEW_TREE && forall i: nat | i < |run| - 1 :: AddsSomeAt(run, i)
  }

  /** As long as nodes only come, clusters of a level and panels of a cluster differ by at most one node. */
  lemma {:induction false} AddRunsAreBalanced(run: seq<Tree>, n: nat, d: nat, c: Cluster)
    requires IsAddRun(run) && n < |run| && c.Valid()
    ensures ClustersWithin(run[n], d, 1) && PanelsWithin(run[n], c, 1)
  {
    if n > 0 {
      AddRunsAreBalanced(run, n - 1, d, c);
      assert AddsSomeAt(run, n - 1);
      var id, l :| Adds(run[n-1], id, l, run[n]);
      AddKeepsClusterSpread(run[n-1], id, l, run[n], d, 1);
      AddKeepsPanelSpread(run[n-1], id, l, run[n], c, 1);
    }
  }
}
