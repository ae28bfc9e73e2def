/** The links a node keeps, computed from its own view alone, and the network they form. */
module Overlay {
  import opened Sets
  import opened ClusterTree
  import opened Ids
  import opened Placement
  import opened Paths
  import opened Views

  // ---- The peer rule on a view ----

  /** Of three panels, the one that is neither of two different ones. */
  function Third(a: nat, b: nat): nat {
    if (a == 1 && b == 2) || (a == 2 && b == 1) then 0
    else if (a == 0 && b == 2) || (a == 2 && b == 0) then 1
    else 2
  }

  /** The slot of a row that answers for slot s: s itself, or, when s is empty,
      the next occupied slot to the right or to the left. */
  function StandIn(row: seq<Id>, s: nat, right: bool): (r: nat)
    requires |row| == 3 && s < 3
    ensures r < 3
  {
    if row[s] != NOBODY then s
    else
      var first, second := if right then (s + 1) % 3 else (s + 2) % 3, if right then (s + 2) % 3 else (s + 1) % 3;
      if row[first] != NOBODY then first else second
  }

  /** The row of the node's own panel, in which the node itself is certainly present. */
  function OwnRow(v: NodePosition): (r: seq<Id>)
    requires v.WellShaped()
    ensures |r| == 3
  {
    v.parentClusterNodeIDs[v.PanelNumber()][v.partnerInt := SOMEBODY]
  }

  /** The node is linked to all its panel mates; to a node of another panel of its cluster when
      one of the two answers for the other's slot; and in each panel below it to the node that
      answers for its own slot. */
  predicate PeerAt(v: NodePosition, pos: nat)
    requires v.WellShaped() && pos < 15
  {
    var m, s, k, r := v.PanelNumber(), v.partnerInt, pos / 3, pos % 3;
    v.At(pos) != NOBODY &&
    if pos >= 9 then StandIn(v.childClusterNodeIDs[k - 3], s, true) == r
    else if k == m then r != s
    else StandIn(v.parentClusterNodeIDs[k], s, m > Third(k, m)) == r || StandIn(OwnRow(v), r, k > Third(k, m)) == s
  }

  function Peers(v: NodePosition): set<Id>
    requires v.WellShaped()
  {
    set pos: nat | pos < 15 && PeerAt(v, pos) :: v.At(pos)
  }

  /** On a new link to the entry at `pos` this node is the one that asks for the connection. */
  predicate Initiates(v: NodePosition, promoted: bool, pos: nat) {
    if pos >= 9 then true
    else if pos / 3 == v.PanelNumber() then promoted
    else v.PanelNumber() > pos / 3
  }

  /** The nodes for which a CONNECT_NODE request goes out when the links were `links`. */
  function Asks(links: set<Id>, v: NodePosition, promoted: bool): set<Id>
    requires v.WellShaped()
  {
    set pos: nat | pos < 15 && PeerAt(v, pos) && v.At(pos) !in links && Initiates(v, promoted, pos) :: v.At(pos)
  }

  // ---- The overlay of a tree whose views agree with it ----

  ghost predicate Linked(t: Tree, a: Loc, b: Loc)
    requires t.WellFormed()
  {
    a in t.at && b in t.at && t.at[b] in Peers(View(t, a))
  }

  function Row(t: Tree, p: Path): seq<Id> {
    [t.Get(Loc(p, 0)), t.Get(Loc(p, 1)), t.Get(Loc(p, 2))]
  }

  lemma LinkedAt(t: Tree, a: Loc, b: Loc)
    requires t.WellFormed() && a in t.at && b in t.at
    ensures Near(a.panel, b.panel) ==> Code(a.panel, b) < 15 && View(t, a).At(Code(a.panel, b)) == t.at[b]
    ensures Linked(t, a, b) <==> Near(a.panel, b.panel) && PeerAt(View(t, a), Code(a.panel, b))
  {
    var v := View(t, a);
    if Near(a.panel, b.panel) { CodeIsSeen(a.panel, b); }
    if t.at[b] in Peers(v) {
      var pos: nat :| pos < 15 && PeerAt(v, pos) && v.At(pos) == t.at[b];
      assert SlotSeen(a.panel, pos) == b;
      SeenIsNear(a.panel, pos);
      CodeIsSeen(a.panel, b);
      SlotSeenOnce(a.panel, pos, Code(a.panel, b));
    }
  }

  lemma RowsOfView(t: Tree, a: Loc)
    requires t.WellFormed() && a in t.at
    ensures forall k: nat | k < 3 :: View(t, a).parentClusterNodeIDs[k] == Row(t, Home(a.panel).Panel(k))
    ensures forall k: nat | k < 2 :: View(t, a).childClusterNodeIDs[k] == Row(t, Under(a.panel, k))
    ensures View(t, a).parentClusterNodeIDs[a.panel.number] == Row(t, a.panel)
    ensures forall s: nat, right: bool | s < 3 ::
      StandIn(OwnRow(View(t, a)), s, right) == StandIn(Row(t, a.panel), s, right)
  {
    HomePanel(a.panel);
    var v := View(t, a);
    forall k: nat, j: nat | k < 3 && j < 3
      ensures v.parentClusterNodeIDs[k][j] == Row(t, Home(a.panel).Panel(k))[j]
    {
      assert v.At(3 * k + j) == t.Get(SlotSeen(a.panel, 3 * k + j));
    }
    forall k: nat, j: nat | k < 2 && j < 3
      ensures v.childClusterNodeIDs[k][j] == Row(t, Under(a.panel, k))[j]
    {
      assert v.At(9 + 3 * k + j) == t.Get(SlotSeen(a.panel, 9 + 3 * k + j));
    }
    assert a.slot in {0, 1, 2};
    assert t.at[a] != NOBODY;
  }

  /** Two panels of one cluster, seen from either side. */
  ghost predicate Crossed(t: Tree, a: Loc, b: Loc, i: nat, k: nat)
    requires a.slot < 3 && b.slot < 3
  {
    || StandIn(Row(t, b.panel), a.slot, i > Third(k, i)) == b.slot
    || StandIn(Row(t, a.panel), b.slot, k > Third(k, i)) == a.slot
  }

  lemma CrossedBothWays(t: Tree, a: Loc, b: Loc, i: nat, k: nat)
    requires a.slot < 3 && b.slot < 3 && i < 3 && k < 3
    ensures Crossed(t, a, b, i, k) == Crossed(t, b, a, k, i)
  {
  }

  lemma MatesPeer(t: Tree, a: Loc, b: Loc)
    requires t.Sound() && a in t.at && b in t.at && a.panel == b.panel
    ensures PeerAt(View(t, a), Code(a.panel, b)) <==> a != b
  {
    LinkedAt(t, a, b);
    assert a.panel.Under? ==> a.panel.up.Level() < a.panel.Level();
    assert Code(a.panel, b) / 3 == b.panel.number && Code(a.panel, b) % 3 == b.slot;
  }

  lemma AcrossPeer(t: Tree, a: Loc, b: Loc)
    requires t.Sound() && a in t.at && b in t.at && a.panel != b.panel && Home(a.panel) == Home(b.panel)
    ensures PeerAt(View(t, a), Code(a.panel, b)) <==> Crossed(t, a, b, a.panel.number, b.panel.number)
  {
    LinkedAt(t, a, b);
    RowsOfView(t, a);
    HomePanel(a.panel);
    HomePanel(b.panel);
    hide View, SlotSeen, OwnRow, StandIn;
    assert a.panel.Under? ==> a.panel.up.Level() < a.panel.Level() == b.panel.Level();
    assert Code(a.panel, b) / 3 == b.panel.number && Code(a.panel, b) % 3 == b.slot;
  }

  lemma UpPeer(t: Tree, a: Loc, b: Loc)
    requires t.Sound() && a in t.at && b in t.at && a.panel.Under? && a.panel.up == b.panel
    ensures PeerAt(View(t, a), Code(a.panel, b)) <==> StandIn(Row(t, a.panel), b.slot, true) == a.slot
  {
    LinkedAt(t, a, b);
    RowsOfView(t, a);
    hide View, SlotSeen, OwnRow;
    assert b.panel.Level() < a.panel.Level();
    assert !(b.panel.Under? && b.panel.up == a.panel);
    assert Code(a.panel, b) / 3 == 2 && Code(a.panel, b) % 3 == b.slot;
    assert t.Full(b.panel) && a.slot in {0, 1, 2};
    assert Row(t, b.panel)[a.slot] != NOBODY;
  }

  lemma DownPeer(t: Tree, a: Loc, b: Loc)
    requires t.Sound() && a in t.at && b in t.at && b.panel.Under? && b.panel.up == a.panel
    ensures PeerAt(View(t, a), Code(a.panel, b)) <==> StandIn(Row(t, b.panel), a.slot, true) == b.slot
  {
    LinkedAt(t, a, b);
    RowsOfView(t, a);
    hide View, SlotSeen, OwnRow, StandIn;
    assert a.panel.Level() < b.panel.Level();
    assert !(a.panel.Under? && a.panel.up == b.panel);
    assert Code(a.panel, b) / 3 - 3 == b.panel.number && Code(a.panel, b) % 3 == b.slot;
  }

  /** What a link is, in terms of the tree. */
  lemma LinkShape(t: Tree, a: Loc, b: Loc)
    requires t.Sound() && a in t.at && b in t.at
    ensures Linked(t, a, b) <==>
      if a.panel == b.panel then a != b
      else if Home(a.panel) == Home(b.panel) then Crossed(t, a, b, a.panel.number, b.panel.number)
      else if a.panel.Under? && a.panel.up == b.panel then StandIn(Row(t, a.panel), b.slot, true) == a.slot
      else if b.panel.Under? && b.panel.up == a.panel then StandIn(Row(t, b.panel), a.slot, true) == b.slot
      else false
  {
    LinkedAt(t, a, b);
    hide Linked, PeerAt, Crossed, StandIn, Code, View;
    if a.panel == b.panel {
      MatesPeer(t, a, b);
    } else if Home(a.panel) == Home(b.panel) {
      AcrossPeer(t, a, b);
    } else if a.panel.Under? && a.panel.up == b.panel {
      UpPeer(t, a, b);
    } else if b.panel.Under? && b.panel.up == a.panel {
      DownPeer(t, a, b);
    }
  }

  /** Both ends of a link compute it: a lists b exactly when b lists a. */
  lemma LinksAreSymmetric(t: Tree, a: Loc, b: Loc)
    requires t.Sound()
    ensures Linked(t, a, b) <==> Linked(t, b, a)
  {
    if a in t.at && b in t.at {
      LinkShape(t, a, b);
      LinkShape(t, b, a);
      CrossedBothWays(t, a, b, a.panel.number, b.panel.number);
      assert a.panel.Under? ==> a.panel.up.Level() < a.panel.Level();
      assert b.panel.Under? ==> b.panel.up.Level() < b.panel.Level();
    }
  }

  // ---- Degree ----

  lemma AtMostSix<T>(s: set<T>, a: T, b: T, c: T, d: T, e: T, f: T)
    requires s <= {a, b, c, d, e, f}
    ensures |s| <= 6
  {
    assert |{a, b, c, d, e, f}| <= 6;
    SubsetSize(s, {a, b, c, d, e, f});
  }

  /** Every node has at most six peers and is not one of them.  A node without two panel mates
      needs the full-ancestor property: it has nobody below it to link to. */
  lemma DegreeBound(t: Tree, a: Loc)
    requires t.Sound() && a in t.at
    ensures |Peers(View(t, a))| <= 6 && t.at[a] !in Peers(View(t, a))
  {
    LinkShape(t, a, a);
    RowsOfView(t, a);
    var v, m, s := View(t, a), a.panel.number, a.slot;
    var k, h := (m + 1) % 3, (m + 2) % 3;
    if t.Full(a.panel) {
      var own := OwnRow(v);
      assert own[0] != NOBODY && own[1] != NOBODY && own[2] != NOBODY;
      FullPanelPeers(v);
    } else {
      NothingBelow(t, a);
      ChildlessPeers(v);
    }
  }

  lemma NothingBelow(t: Tree, a: Loc)
    requires t.Sound() && a in t.at && !t.Full(a.panel)
    ensures forall pos: nat | 9 <= pos < 15 :: View(t, a).At(pos) == NOBODY
  {
  }

  function Opposite(v: NodePosition, k: nat): nat
    requires v.WellShaped() && k < 3
  {
    3 * k + StandIn(v.parentClusterNodeIDs[k], v.partnerInt, v.PanelNumber() > Third(k, v.PanelNumber()))
  }

  /** Entries among six positions are at most six nodes. */
  lemma FewPeers(v: NodePosition, a: nat, b: nat, c: nat, d: nat, e: nat, f: nat)
    requires v.WellShaped() && a < 15 && b < 15 && c < 15 && d < 15 && e < 15 && f < 15
    requires forall pos: nat | pos < 15 && PeerAt(v, pos) ::
      pos == a || pos == b || pos == c || pos == d || pos == e || pos == f
    ensures |Peers(v)| <= 6
  {
    AtMostSix(Peers(v), v.At(a), v.At(b), v.At(c), v.At(d), v.At(e), v.At(f));
  }

  lemma FullPanelPeers(v: NodePosition)
    requires v.WellShaped() && OwnRow(v)[0] != NOBODY && OwnRow(v)[1] != NOBODY && OwnRow(v)[2] != NOBODY
    ensures |Peers(v)| <= 6
  {
    var m, s := v.PanelNumber(), v.partnerInt;
    var k, h := (m + 1) % 3, (m + 2) % 3;
    var p, q := 3 * m + (s + 1) % 3, 3 * m + (s + 2) % 3;
    var c := 9 + StandIn(v.childClusterNodeIDs[0], s, true);
    var d := 12 + StandIn(v.childClusterNodeIDs[1], s, true);
    forall pos: nat | pos < 15 && PeerAt(v, pos)
      ensures pos == p || pos == q || pos == Opposite(v, k) || pos == Opposite(v, h) || pos == c || pos == d
    {
      FullPanelPeer(v, pos);
    }
    FewPeers(v, p, q, Opposite(v, k), Opposite(v, h), c, d);
  }

  lemma FullPanelPeer(v: NodePosition, pos: nat)
    requires v.WellShaped() && OwnRow(v)[0] != NOBODY && OwnRow(v)[1] != NOBODY && OwnRow(v)[2] != NOBODY
    requires pos < 15 && PeerAt(v, pos)
    ensures pos >= 9 ==> pos % 3 == StandIn(v.childClusterNodeIDs[pos / 3 - 3], v.partnerInt, true)
    ensures pos / 3 == v.PanelNumber() ==> pos % 3 != v.partnerInt
    ensures pos < 9 && pos / 3 != v.PanelNumber() ==> pos == Opposite(v, pos / 3)
  {
  }

  lemma ChildlessPeers(v: NodePosition)
    requires v.WellShaped() && (forall pos: nat | 9 <= pos < 15 :: v.At(pos) == NOBODY)
    requires OwnRow(v)[0] == NOBODY || OwnRow(v)[1] == NOBODY || OwnRow(v)[2] == NOBODY
    ensures |Peers(v)| <= 6
  {
    var m, s := v.PanelNumber(), v.partnerInt;
    var own, x, y := OwnRow(v), (s + 1) % 3, (s + 2) % 3;
    if own[x] == NOBODY && own[y] == NOBODY {
      LonePeers(v);
    } else if own[x] != NOBODY {
      PairPeers(v, x, y);
    } else {
      PairPeers(v, y, x);
    }
  }

  lemma LonePeers(v: NodePosition)
    requires v.WellShaped() && (forall pos: nat | 9 <= pos < 15 :: v.At(pos) == NOBODY)
    requires OwnRow(v)[(v.partnerInt + 1) % 3] == NOBODY && OwnRow(v)[(v.partnerInt + 2) % 3] == NOBODY
    ensures |Peers(v)| <= 6
  {
    var m := v.PanelNumber();
    var k, h := 3 * ((m + 1) % 3), 3 * ((m + 2) % 3);
    forall pos: nat | pos < 15 && PeerAt(v, pos)
      ensures pos == k || pos == k + 1 || pos == k + 2 || pos == h || pos == h + 1 || pos == h + 2
    {
      LonePeer(v, pos);
    }
    FewPeers(v, k, k + 1, k + 2, h, h + 1, h + 2);
  }

  lemma LonePeer(v: NodePosition, pos: nat)
    requires v.WellShaped() && pos < 15 && PeerAt(v, pos) && (pos >= 9 ==> v.At(pos) == NOBODY)
    requires OwnRow(v)[(v.partnerInt + 1) % 3] == NOBODY && OwnRow(v)[(v.partnerInt + 2) % 3] == NOBODY
    ensures pos < 9 && pos / 3 != v.PanelNumber()
  {
  }

  lemma PairPeers(v: NodePosition, mate: nat, gap: nat)
    requires v.WellShaped() && (forall pos: nat | 9 <= pos < 15 :: v.At(pos) == NOBODY)
    requires mate < 3 && gap < 3 && mate != v.partnerInt && gap != v.partnerInt && mate != gap
    requires OwnRow(v)[mate] != NOBODY && OwnRow(v)[gap] == NOBODY
    ensures |Peers(v)| <= 6
  {
    var m := v.PanelNumber();
    var k, h := (m + 1) % 3, (m + 2) % 3;
    var p := 3 * m + mate;
    forall pos: nat | pos < 15 && PeerAt(v, pos)
      ensures pos == p || pos == Opposite(v, k) || pos == Opposite(v, h) || pos == 3 * k + gap || pos == 3 * h + gap
    {
      PairPeer(v, mate, gap, pos);
    }
    FewPeers(v, p, Opposite(v, k), Opposite(v, h), 3 * k + gap, 3 * h + gap, p);
  }

  lemma PairPeer(v: NodePosition, mate: nat, gap: nat, pos: nat)
    requires v.WellShaped() && pos < 15 && PeerAt(v, pos) && (pos >= 9 ==> v.At(pos) == NOBODY)
    requires mate < 3 && gap < 3 && mate != v.partnerInt && gap != v.partnerInt && mate != gap
    requires OwnRow(v)[mate] != NOBODY && OwnRow(v)[gap] == NOBODY
    ensures pos < 9
    ensures pos == 3 * v.PanelNumber() + mate
         || (pos / 3 != v.PanelNumber() && (pos == Opposite(v, pos / 3) || pos == 3 * (pos / 3) + gap))
  {
  }

  // ---- Connectivity ----

  /** b is reached from a in at most n hops of the overlay. */
  ghost predicate Within(t: Tree, a: Loc, b: Loc, n: nat)
    requires t.WellFormed()
    decreases n
  {
    a == b || (n > 0 && exists c :: Linked(t, a, c) && Within(t, c, b, n - 1))
  }

  lemma WithinStep(t: Tree, a: Loc, c: Loc, b: Loc, n: nat)
    requires t.WellFormed() && Linked(t, a, c) && Within(t, c, b, n)
    ensures Within(t, a, b, n + 1)
  {
  }

  lemma {:induction false} WithinMore(t: Tree, a: Loc, c: Loc, b: Loc, n: nat)
    requires t.WellFormed() && Within(t, a, c, n) && Linked(t, c, b)
    ensures Within(t, a, b, n + 1)
    decreases n
  {
    if a == c {
      assert Within(t, b, b, n);
    } else {
      var x :| Linked(t, a, x) && Within(t, x, c, n - 1);
      WithinMore(t, x, c, b, n - 1);
    }
  }

  /** Every node keeps a link to the node in its own slot number of its connector panel. */
  lemma LinkUp(t: Tree, a: Loc)
    requires t.Sound() && a in t.at && a.panel.Under?
    ensures Linked(t, a, Loc(a.panel.up, a.slot)) && Linked(t, Loc(a.panel.up, a.slot), a)
  {
    var u := Loc(a.panel.up, a.slot);
    assert t.Full(a.panel.up);
    assert a.slot in {0, 1, 2};
    assert Row(t, a.panel)[a.slot] != NOBODY;
    assert a.panel.up.Level() < a.panel.Level();
    LinkShape(t, a, u);
    LinksAreSymmetric(t, a, u);
  }

  lemma CentreWithinTwo(t: Tree, a: Loc, b: Loc)
    requires t.Sound() && a in t.at && b in t.at && a.panel.Centre? && b.panel.Centre?
    ensures Within(t, a, b, 2)
  {
    if a.panel == b.panel {
      LinkShape(t, a, b);
      assert Within(t, b, b, 1);
    } else {
      var c := Loc(b.panel, StandIn(Row(t, b.panel), a.slot, a.panel.number > Third(b.panel.number, a.panel.number)));
      assert b.slot in {0, 1, 2};
      assert Row(t, b.panel)[b.slot] != NOBODY;
      assert c in t.at;
      LinkShape(t, a, c);
      LinkShape(t, c, b);
      assert Within(t, b, b, 0);
      assert Within(t, c, b, 1);
    }
  }

  /** The overlay is connected, and levels bound the distance. */
  lemma {:induction false} Connected(t: Tree, a: Loc, b: Loc, n: nat)
    requires t.Sound() && a in t.at && b in t.at
    requires n == a.panel.Level() + b.panel.Level()
    ensures Within(t, a, b, n + 2)
    decreases n
  {
    hide Within, Linked, Tree.Supported, Tree.Full, Tree.HasSlot, Tree.HasPanel;
    if a.panel.Under? {
      var u := Loc(a.panel.up, a.slot);
      LinkUp(t, a);
      Connected(t, u, b, n - 1);
      WithinStep(t, a, u, b, n + 1);
    } else if b.panel.Under? {
      var u := Loc(b.panel.up, b.slot);
      LinkUp(t, b);
      Connected(t, a, u, n - 1);
      WithinMore(t, a, u, b, n + 1);
    } else {
      CentreWithinTwo(t, a, b);
    }
  }

  // ---- What a misread path does ----

  /** Peers depend on the path only by its last element. */
  lemma PeersByNumber(v: NodePosition, w: NodePosition)
    requires v.WellShaped() && v.PanelNumber() == w.PanelNumber() && w == v.(path := w.path)
    ensures Peers(v) == Peers(w)
  {
    assert forall pos: nat | pos < 15 :: v.At(pos) == w.At(pos) && PeerAt(v, pos) == PeerAt(w, pos);
  }

  /** A node becomes its own peer, and is asked to connect to itself, if and only if its panel's number is
      misread. */
  lemma OwnPeerIffMisread(t: Tree, a: Loc)
    requires t.Sound() && a in t.at
    ensures t.at[a] in Peers(SentView(t, a)) <==> AsRead(a.panel).number != a.panel.number
    ensures t.at[a] in Asks({}, SentView(t, a), true) <==> AsRead(a.panel).number != a.panel.number
  {
    if AsRead(a.panel).number == a.panel.number {
      PeersByNumber(View(t, a), SentView(t, a));
      DegreeBound(t, a);
    } else {
      var v := SentView(t, a);
      assert SlotSeen(a.panel, a.slot) == a by { assert a.slot in {0, 1, 2}; }
      assert v.At(a.slot) == t.at[a] && PeerAt(v, a.slot) && Initiates(v, true, a.slot);
    }
  }

  /** In a sound tree all paths read right as soon as all panel numbers do: whoever has somebody below
      is occupied itself. */
  lemma {:induction false} NumbersMakePaths(t: Tree, a: Loc)
    requires t.Sound() && a in t.at
    requires forall l | l in t.at :: AsRead(l.panel).number == l.panel.number
    ensures Legible(a.panel)
    decreases a.panel
  {
    if a.panel.Under? {
      assert t.Full(a.panel.up);
      NumbersMakePaths(t, Loc(a.panel.up, 0));
    }
  }

  // ---- Links that an add creates ----

  lemma OldStandIn(t: Tree, id: Id, l: Loc, t': Tree, p: Path, s: nat, right: bool, r: nat)
    requires Adds(t, id, l, t') && s < 3 && r < 3 && Loc(p, r) in t.at
    requires StandIn(Row(t', p), s, right) == r && Row(t', p)[r] != NOBODY
    ensures StandIn(Row(t, p), s, right) == r
  {
  }

  lemma OldCrossed(t: Tree, id: Id, l: Loc, t': Tree, a: Loc, b: Loc, i: nat, k: nat)
    requires Adds(t, id, l, t') && t'.WellFormed() && a in t.at && b in t.at && a.slot < 3 && b.slot < 3
    requires Crossed(t', a, b, i, k)
    ensures Crossed(t, a, b, i, k)
  {
    RowHolds(t', a);
    RowHolds(t', b);
    hide Tree.WellFormed, Adds, Row, StandIn;
    if StandIn(Row(t', b.panel), a.slot, i > Third(k, i)) == b.slot {
      OldStandIn(t, id, l, t', b.panel, a.slot, i > Third(k, i), b.slot);
    } else {
      OldStandIn(t, id, l, t', a.panel, b.slot, k > Third(k, i), a.slot);
    }
  }

  lemma RowHolds(t: Tree, a: Loc)
    requires t.WellFormed() && a in t.at
    ensures a.slot < 3 && Row(t, a.panel)[a.slot] != NOBODY
  {
  }

  /** Every link that appears with an add has the new node at one end. */
  lemma NewLinksHaveNewcomer(t: Tree, id: Id, l: Loc, t': Tree, a: Loc, b: Loc)
    requires t.Sound() && t'.Sound() && Adds(t, id, l, t')
    requires Linked(t', a, b) && a != l && b != l
    ensures Linked(t, a, b)
  {
    assert a in t.at && b in t.at && a in t'.at && b in t'.at;
    RowHolds(t', a);
    RowHolds(t', b);
    LinkShape(t', a, b);
    LinkShape(t, a, b);
    hide Linked, StandIn, Tree.Supported, Tree.WellFormed, Adds, Row, Crossed;
    if a.panel == b.panel {
    } else if Home(a.panel) == Home(b.panel) {
      OldCrossed(t, id, l, t', a, b, a.panel.number, b.panel.number);
    } else if a.panel.Under? && a.panel.up == b.panel {
      OldStandIn(t, id, l, t', a.panel, b.slot, true, a.slot);
    } else {
      OldStandIn(t, id, l, t', b.panel, a.slot, true, b.slot);
    }
  }

  /** On a link of the new node exactly one end is the asking one: the new node processes its
      placement as promoted, its peers process a single-position message. */
  lemma OneEndInitiates(t: Tree, l: Loc, b: Loc)
    requires t.Sound() && Linked(t, l, b) && t.EmptyBelow(l.panel)
    ensures Near(l.panel, b.panel) && Near(b.panel, l.panel)
    ensures Initiates(View(t, l), true, Code(l.panel, b)) <==> !Initiates(View(t, b), false, Code(b.panel, l))
  {
    LinkedAt(t, l, b);
    LinksAreSymmetric(t, l, b);
    LinkedAt(t, b, l);
    LinkShape(t, l, b);
    CodeIsSeen(l.panel, b);
    CodeIsSeen(b.panel, l);
    HomePanel(l.panel);
    HomePanel(b.panel);
    assert l.panel.Under? ==> l.panel.up.Level() < l.panel.Level();
    assert b.panel.Under? ==> b.panel.up.Level() < b.panel.Level();
    if b.panel.Under? && b.panel.up == l.panel {
      OccupantsShow(t, b);
      assert false;
    }
  }

  // ---- Which end asks ----

  /** Of the nodes in slots a and b, a is the one that asks: between two panels of a cluster the one in the
      later panel, between a panel and those below it the one above; between panel mates the one that has
      got the full position. */
  ghost predicate Asker(a: Loc, b: Loc, promoted: bool) {
    if a.panel == b.panel then promoted
    else if Home(a.panel) == Home(b.panel) then a.panel.number > b.panel.number
    else b.panel.Under? && b.panel.up == a.panel
  }

  lemma AsksHow(t: Tree, a: Loc, b: Loc, links: set<Id>, promoted: bool)
    requires t.WellFormed() && Linked(t, a, b) && t.at[b] !in links
    ensures Near(a.panel, b.panel) && Code(a.panel, b) < 15
    ensures t.at[b] in Asks(links, View(t, a), promoted) <==> Initiates(View(t, a), promoted, Code(a.panel, b))
  {
    LinkedAt(t, a, b);
    CodeIsSeen(a.panel, b);
    forall pos: nat | pos < 15 && View(t, a).At(pos) == t.at[b]
      ensures pos == Code(a.panel, b)
    {
      ViewHasNoTwins(t, a, pos, Code(a.panel, b));
    }
    hide View, Code, Near, SlotSeen, Initiates, PeerAt;
  }

  /** On a new link it is settled by the two slots which end asks. */
  lemma WhoAsks(t: Tree, a: Loc, b: Loc, links: set<Id>, promoted: bool)
    requires t.Sound() && Linked(t, a, b) && t.at[b] !in links
    ensures t.at[b] in Asks(links, View(t, a), promoted) <==> Asker(a, b, promoted)
  {
    AsksHow(t, a, b, links, promoted);
    HomePanel(a.panel);
    HomePanel(b.panel);
    assert a.slot < 3 && b.slot < 3;
    assert a.panel.Under? ==> a.panel.up.Level() < a.panel.Level();
    assert b.panel.Under? ==> b.panel.up.Level() < b.panel.Level();
    hide Asks, Linked, Tree.Sound;
  }

  /** The slot that stands in for an empty slot s: the next taken one of the panel, looked for to the right or
      to the left. */
  ghost predicate NextTaken(t: Tree, p: Path, s: nat, right: bool, b: Loc) {
    var near, far := Loc(p, (s + if right then 1 else 2) % 3), Loc(p, (s + if right then 2 else 1) % 3);
    Loc(p, s) !in t.at && b in t.at && (b == near || (near !in t.at && b == far))
  }

  lemma StandInIsNext(t: Tree, p: Path, s: nat, right: bool, b: Loc)
    requires t.WellFormed() && s < 3 && NextTaken(t, p, s, right, b)
    ensures b.panel == p && b.slot < 3 && StandIn(Row(t, p), s, right) == b.slot
  {
    assert s == 0 || s == 1 || s == 2;
    assert t.at[b] != NOBODY;
  }

  /** A node whose slot is empty in another panel of its cluster is linked to the next taken one there: to the
      right from panel 2 and from panel 1 to panel 2, to the left otherwise. */
  lemma AcrossGap(t: Tree, a: Loc, b: Loc)
    requires t.Sound() && a in t.at && Home(b.panel) == Home(a.panel) && b.panel != a.panel
    requires NextTaken(t, b.panel, a.slot, a.panel.number == 2 || (a.panel.number == 1 && b.panel.number == 2), b)
    ensures Linked(t, a, b)
  {
    assert a.slot < 3 && b.slot < 3;
    HomePanel(a.panel);
    HomePanel(b.panel);
    assert a.panel.number != b.panel.number;
    StandInIsNext(t, b.panel, a.slot, a.panel.number == 2 || (a.panel.number == 1 && b.panel.number == 2), b);
    LinkShape(t, a, b);
    hide Linked, Tree.Sound, StandIn, NextTaken, Row;
  }

  /** A node whose slot is empty in a panel below it is linked to the next taken one there, to the right. */
  lemma BelowGap(t: Tree, a: Loc, b: Loc)
    requires t.Sound() && a in t.at && b.panel.Under? && b.panel.up == a.panel
    requires NextTaken(t, b.panel, a.slot, true, b)
    ensures Linked(t, a, b)
  {
    assert a.slot < 3 && b.slot < 3;
    StandInIsNext(t, b.panel, a.slot, true, b);
    LinkShape(t, a, b);
    assert a.panel.Level() < b.panel.Level();
    assert Home(a.panel).Level() != Home(b.panel).Level();
    hide Linked, Tree.Sound, StandIn, NextTaken, Row;
  }
}
