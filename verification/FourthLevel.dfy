/** Where nodes can sit as long as no path is misread: with 75 nodes every cluster of the fourth level has
    one, and the 76th gets the first panel whose path is misread. */
module FourthLevel {
  import opened Sets
  import opened ClusterTree
  import opened Ids
  import opened Placement
  import opened Capacity
  import opened Paths

  // ---- Panels of a level ----

  ghost function Halves(s: set<Path>, n: nat): set<Path> {
    set p | p in s :: Under(p, n)
  }

  ghost function LevelPanels(d: nat): set<Path> {
    if d == 0 then {Centre(0), Centre(1), Centre(2)}
    else Halves(LevelPanels(d - 1), 0) + Halves(LevelPanels(d - 1), 1)
  }

  lemma {:induction false} LevelPanelsAre(d: nat, p: Path)
    ensures p in LevelPanels(d) <==> p.Valid() && p.Level() == d
    decreases d
  {
    if d > 0 && p.Under? { LevelPanelsAre(d - 1, p.up); }
  }

  lemma {:induction false} HalvesSize(s: set<Path>, n: nat)
    ensures |Halves(s, n)| == |s|
  {
    if s != {} {
      var x :| x in s;
      HalvesSize(s - {x}, n);
      assert Halves(s, n) == Halves(s - {x}, n) + {Under(x, n)};
    }
  }

  lemma {:induction false} LevelPanelsSize(d: nat)
    ensures |LevelPanels(d)| == 3 * Pow2(d)
  {
    hide *;
    PanelsSplit(d);
    if d > 0 {
      var s := LevelPanels(d - 1);
      LevelPanelsSize(d - 1);
      HalvesSize(s, 0);
      HalvesSize(s, 1);
    }
  }

  lemma PanelsSplit(d: nat)
    ensures d == 0 ==> |LevelPanels(d)| == 3 && Pow2(d) == 1
    ensures d > 0 ==> Pow2(d) == 2 * Pow2(d - 1)
    ensures d > 0 ==> |LevelPanels(d)| == |Halves(LevelPanels(d - 1), 0)| + |Halves(LevelPanels(d - 1), 1)|
  {
    if d > 0 { assert Halves(LevelPanels(d - 1), 0) !! Halves(LevelPanels(d - 1), 1); }
  }

  // ---- Who sits in the fourth level ----

  ghost predicate InFirstPlace(l: Loc) {
    l.panel.Under? && l.panel.number == 1 && l.slot == 0
  }

  /** Nobody is below the fourth level, and in it only the first slot of a panel 1 can be taken. */
  ghost predicate Sparse(t: Tree) {
    forall l | l in t.at ::
      l.panel.Valid() && l.slot < 3 && l.panel.Level() <= 3 && (l.panel.Level() == 3 ==> InFirstPlace(l))
  }

  /** The slot that a newcomer in a panel 0 is taken for. */
  function Sibling(l: Loc): Loc
    requires l.panel.Under?
  {
    Loc(Under(l.panel.up, 1), l.slot)
  }

  lemma PanelZeroIsMisread(p: Path)
    requires p.Level() == 3 && p.Under? && p.number == 0
    ensures !Legible(p)
  {
    assert PathCapacity(0) == 1 && PathCapacity(1) == 2 && PathCapacity(2) == 4;
    assert AsRead(p).number == 1;
  }

  /** In the fourth level the paths of panels 1 read right, those of panels 0 do not. */
  lemma LegibleFourth(p: Path)
    requires p.Valid() && p.Level() == 3
    ensures p.Under? && AsRead(p).number == 1 && (Legible(p) <==> p.number == 1)
  {
    assert PathCapacity(0) == 1 && PathCapacity(1) == 2 && PathCapacity(2) == 4;
    ShallowIsLegible(p.up);
    if p.number == 0 { PanelZeroIsMisread(p); }
  }

  lemma SparseIsLegible(t: Tree)
    requires Sparse(t)
    ensures LegibleTree(t)
  {
    forall l | l in t.at
      ensures Legible(l.panel)
    {
      if l.panel.Level() == 3 { LegibleFourth(l.panel); } else { ShallowIsLegible(l.panel); }
    }
  }

  ghost function Deep(t: Tree): set<Loc> {
    set l | l in t.at && l.panel.Level() == 3
  }

  /** The connectors of the clusters of some slots. */
  ghost function Connectors(s: set<Loc>): set<Path> {
    set l | l in s && l.panel.Under? :: l.panel.up
  }

  lemma {:induction false} ConnectorsAtMost(s: set<Loc>)
    ensures |Connectors(s)| <= |s|
  {
    if s != {} {
      var x :| x in s;
      ConnectorsAtMost(s - {x});
      if x.panel.Under? {
        assert Connectors(s) == Connectors(s - {x}) + {x.panel.up};
      } else {
        assert Connectors(s) == Connectors(s - {x});
      }
    }
  }

  lemma {:induction false} ConnectorsOneToOne(s: set<Loc>)
    requires forall k, l | k in s && l in s && k.panel.Under? && l.panel.Under? && k.panel.up == l.panel.up :: k == l
    requires forall l | l in s :: l.panel.Under?
    ensures |Connectors(s)| == |s|
  {
    if s != {} {
      var x :| x in s;
      ConnectorsOneToOne(s - {x});
      assert Connectors(s) == Connectors(s - {x}) + {x.panel.up};
      assert x.panel.up !in Connectors(s - {x});
    }
  }

  lemma FewDeep(t: Tree)
    requires Sparse(t)
    ensures |Deep(t)| <= 12
  {
    var s := Deep(t);
    forall l | l in s
      ensures l.panel.Under? && l.panel == Under(l.panel.up, 1) && l.slot == 0 && l.panel.up in LevelPanels(2)
    {
      LevelPanelsAre(2, l.panel.up);
    }
    ConnectorsOneToOne(s);
    SubsetSize(Connectors(s), LevelPanels(2));
    TwelvePanels();
  }

  lemma TwelvePanels()
    ensures |LevelPanels(2)| == 12 && |SlotsAbove(3)| == 63
  {
    assert Pow2(0) == 1 && Pow2(1) == 2 && Pow2(2) == 4 && Pow2(3) == 8;
    LevelPanelsSize(2);
    SizeAbove(3);
  }

  lemma AboveIsNotDeep(t: Tree)
    ensures SlotsAbove(3) !! Deep(t)
  {
    forall l
      ensures !(l in SlotsAbove(3) && l in Deep(t))
    {
      SlotsAboveAre(3, l);
    }
  }

  /** There is room for 75 nodes. */
  lemma SparseIsSmall(t: Tree)
    requires Sparse(t)
    ensures |t.at| <= 75
  {
    forall l | l in t.at.Keys
      ensures l in SlotsAbove(3) + Deep(t)
    {
      SlotsAboveAre(3, l);
    }
    hide *;
    SubsetSize(t.at.Keys, SlotsAbove(3) + Deep(t));
    AboveIsNotDeep(t);
    DisjointUnionSize(SlotsAbove(3), Deep(t));
    TwelvePanels();
    FewDeep(t);
    assert |t.at| == |t.at.Keys|;
  }

  lemma OccupiedBelow(t: Tree, q: Path) returns (l: Loc)
    requires q in LevelPanels(2) && t.ClusterCount(Below(q)) > 0
    ensures l in Deep(t) && l.panel.Under? && l.panel.up == q && q in Connectors(Deep(t))
  {
    LevelPanelsAre(2, q);
    var i := if t.PanelCount(Under(q, 0)) > 0 then 0 else 1;
    var p := Under(q, i);
    l := Loc(p, if Loc(p, 0) in t.at then 0 else if Loc(p, 1) in t.at then 1 else 2);
    assert l.panel.Level() == 3;
  }

  /** Twelve clusters with somebody in them, below three full levels. */
  lemma NoneEmpty(t: Tree)
    requires SlotsAbove(3) <= t.at.Keys && forall q | q in LevelPanels(2) :: t.ClusterCount(Below(q)) > 0
    ensures |t.at| >= 75
  {
    forall q | q in LevelPanels(2)
      ensures q in Connectors(Deep(t))
    {
      var l := OccupiedBelow(t, q);
    }
    SubsetSize(LevelPanels(2), Connectors(Deep(t)));
    ConnectorsAtMost(Deep(t));
    TwelvePanels();
    assert SlotsAbove(3) + Deep(t) <= t.at.Keys;
    hide *;
    AboveIsNotDeep(t);
    DisjointUnionSize(SlotsAbove(3), Deep(t));
    SubsetSize(SlotsAbove(3) + Deep(t), t.at.Keys);
    assert |t.at| == |t.at.Keys|;
  }

  // ---- The next slot ----

  lemma FourthIsNotFull(t: Tree)
    requires Sparse(t)
    ensures !t.LevelFull(3)
  {
    var p := Under(Under(Under(Centre(0), 0), 0), 0);
    assert p.Valid() && p.Level() == 3;
    assert !InFirstPlace(Loc(p, 0));
    assert !t.Full(p);
  }

  /** The next slot is at most in the fourth level, and there the first one of an empty cluster's
      panel 1, or of a panel 0 whose sibling has its first slot taken. */
  ghost predicate NextToSparse(t: Tree, l: Loc) {
    && l.panel.Valid() && l.slot < 3 && l !in t.at && l.panel.Level() <= 3
    && (l.panel.Level() == 3 ==>
          && l.panel.Under? && l.slot == 0 && t.Full(l.panel.up)
          && (l.panel.number == 1 || (l.panel.number == 0 && Sibling(l) in t.at)))
  }

  lemma NextOfSparse(t: Tree, id: Id, l: Loc, t': Tree)
    requires Sparse(t) && Adds(t, id, l, t')
    ensures NextToSparse(t, l)
  {
    NextLevelsFull(t, l);
    FourthIsNotFull(t);
    if l.panel.Level() == 3 { FirstSlotOfSparse(t, l); }
  }

  lemma FirstSlotOfSparse(t: Tree, l: Loc)
    requires Sparse(t) && IsNextSlot(WithRoom(t), l) && l.panel.Valid() && l.panel.Level() == 3
    ensures l.panel.Under? && l.slot == 0 && t.Full(l.panel.up)
    ensures l.panel.number == 1 || (l.panel.number == 0 && Sibling(l) in t.at)
  {
    var q := l.panel.up;
    NextLevelsFull(t, l);
    assert l.slot > 0 ==> Loc(l.panel, 0) in WithRoom(t).at;
    assert q.Valid() && q.Level() == 2 && t.LevelFull(2);
    NextOfPanels(t, l, 0);
    NextOfPanels(t, l, 1);
    assert Under(q, 1).Level() == 3 == Under(q, 0).Level();
    assert forall s: nat :: !InFirstPlace(Loc(Under(q, 0), s));
    assert t.PanelCount(Under(q, 0)) == 0;
    assert !InFirstPlace(Loc(Under(q, 1), 1)) && !InFirstPlace(Loc(Under(q, 1), 2));
  }

  lemma AddKeepsSparse(t: Tree, id: Id, l: Loc, t': Tree)
    requires Sparse(t) && Adds(t, id, l, t') && Legible(l.panel)
    ensures Sparse(t')
  {
    NextOfSparse(t, id, l, t');
    if l.panel.Level() == 3 { LegibleFourth(l.panel); }
    hide Legible;
  }

  /** A panel 0 of the fourth level is only used when all clusters there have a node. */
  lemma PanelZeroNeedsMany(t: Tree, id: Id, l: Loc, t': Tree)
    requires Sparse(t) && Adds(t, id, l, t') && !Legible(l.panel)
    ensures l.panel.Level() == 3 && l.panel.Under? && l.panel.number == 0 && |t.at| == 75
  {
    NextOfSparse(t, id, l, t');
    if l.panel.Level() < 3 { ShallowIsLegible(l.panel); }
    LegibleFourth(l.panel);
    NextLevelsFull(t, l);
    FullAbove(t, 3);
    forall q | q in LevelPanels(2)
      ensures t.ClusterCount(Below(q)) > 0
    {
      LevelPanelsAre(2, q);
      NextOfClusters(t, l, Below(q));
      assert t.PanelCount(Home(l.panel).Panel(1)) > 0;
    }
    NoneEmpty(t);
    SparseIsSmall(t);
  }

  // ---- Trees that only grow ----

  lemma AddsOneNode(t: Tree, id: Id, l: Loc, t': Tree)
    requires Adds(t, id, l, t')
    ensures |t'.at| == |t.at| + 1 && t'.at.Keys == t.at.Keys + {l}
  {
    assert l !in t.at && t'.at.Keys == t.at.Keys + {l};
    assert |t'.at| == |t'.at.Keys| && |t.at| == |t.at.Keys|;
  }

  lemma {:induction false} AddRunSize(run: seq<Tree>, n: nat)
    requires IsAddRun(run) && n < |run|
    ensures |run[n].at| == n
  {
    if n > 0 {
      AddRunSize(run, n - 1);
      assert AddsSomeAt(run, n - 1);
      var id, l :| Adds(run[n-1], id, l, run[n]);
      AddsOneNode(run[n-1], id, l, run[n]);
    }
  }

  lemma {:induction false} AddRunIsSparse(run: seq<Tree>, n: nat)
    requires IsAddRun(run) && n < |run| && n <= 75
    ensures Sparse(run[n])
  {
    if n > 0 {
      AddRunIsSparse(run, n - 1);
      AddRunSize(run, n - 1);
      assert AddsSomeAt(run, n - 1);
      var id, l :| Adds(run[n-1], id, l, run[n]);
      if !Legible(l.panel) { PanelZeroNeedsMany(run[n-1], id, l, run[n]); }
      AddKeepsSparse(run[n-1], id, l, run[n]);
    }
  }

  lemma {:induction false} MisreadStays(run: seq<Tree>, n: nat)
    requires IsAddRun(run) && 76 <= n < |run|
    ensures !LegibleTree(run[n])
  {
    assert AddsSomeAt(run, n - 1);
    var id, l :| Adds(run[n-1], id, l, run[n]);
    AddsOneNode(run[n-1], id, l, run[n]);
    if n == 76 {
      AddRunIsSparse(run, 75);
      AddRunSize(run, 76);
      if Legible(l.panel) {
        AddKeepsSparse(run[75], id, l, run[76]);
        SparseIsSmall(run[76]);
      }
      assert l in run[76].at.Keys;
    } else {
      MisreadStays(run, n - 1);
      assert forall k | k in run[n-1].at :: k in run[n].at.Keys;
    }
  }

  /** While nodes only come, all paths of occupied panels read right with up to 75 nodes, and never
      again from the 76th on. */
  lemma GrowingPoolsReadRight(run: seq<Tree>, n: nat)
    requires IsAddRun(run) && n < |run|
    ensures LegibleTree(run[n]) <==> n <= 75
  {
    if n <= 75 {
      AddRunIsSparse(run, n);
      SparseIsLegible(run[n]);
    } else {
      MisreadStays(run, n);
    }
  }
}
