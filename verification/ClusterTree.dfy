/** The shape of a pool's cluster tree: panels, slots, clusters, and who sits where.

    A panel's path is the non-empty list of panel numbers from the centre cluster
    down to the panel.  Here it is read from its end, so that the panel's own number
    and its connector panel are the two fields of the last step. */
module ClusterTree {
  import opened Ids

  datatype Path = Centre(number: nat) | Under(up: Path, number: nat)
  {
    function Level(): nat {
      if Centre? then 0 else 1 + up.Level()
    }

    predicate Valid() {
      if Centre? then number < 3 else number < 2 && up.Valid()
    }

    /** The path as the list of panel numbers that travels in messages. */
    function Ints(): seq<int> {
      if Centre? then [number] else up.Ints() + [number]
    }

    /** Position of the panel among the panels of its level, in tree order. */
    function Rank(): nat {
      if Centre? then number else 2 * up.Rank() + number
    }

    ghost predicate IsBelow(p: Path) {
      Under? && (up == p || up.IsBelow(p))
    }
  }

  lemma {:induction false} IntsIdentifyPath(p: Path, q: Path)
    requires p.Ints() == q.Ints()
    ensures |p.Ints()| == p.Level() + 1 && p.Ints()[p.Level()] == p.number
    ensures p == q
    decreases p
  {
    IntsShape(p);
    IntsShape(q);
    if p.Under? {
      assert p.up.Ints() == p.Ints()[..p.Level()] == q.up.Ints();
      IntsIdentifyPath(p.up, q.up);
    }
  }

  lemma {:induction false} IntsShape(p: Path)
    ensures |p.Ints()| == p.Level() + 1 && p.Ints()[p.Level()] == p.number
  {
    if p.Under? { IntsShape(p.up); }
  }

  /** One of the three places of a panel. */
  datatype Loc = Loc(panel: Path, slot: nat)

  /** A cluster is the centre one, or the one hanging under a connector panel. */
  datatype Cluster = Hub | Below(connector: Path)
  {
    function Level(): nat {
      if Hub? then 0 else 1 + connector.Level()
    }

    predicate Valid() {
      Hub? || connector.Valid()
    }

    /** The panels that belong to the cluster itself; index 2 of the others is the connector. */
    function OwnPanels(): nat {
      if Hub? then 3 else 2
    }

    function Panel(i: nat): Path
      requires i < 3
    {
      if Hub? then Centre(i) else if i < 2 then Under(connector, i) else connector
    }

    function Rank(): nat {
      if Hub? then 0 else connector.Rank()
    }
  }

  function Home(p: Path): Cluster {
    if p.Centre? then Hub else Below(p.up)
  }

  /** Who occupies which slot.  Slots that are not in `at` are empty. */
  datatype Tree = Tree(levels: nat, at: map<Loc, Id>)
  {
    /** The node id in a slot, NOBODY when the slot is empty or does not exist. */
    function Get(l: Loc): Id {
      if l in at then at[l] else NOBODY
    }

    predicate HasPanel(p: Path) {
      p.Valid() && p.Level() < levels
    }

    predicate HasSlot(l: Loc) {
      HasPanel(l.panel) && l.slot < 3
    }

    predicate Full(p: Path) {
      Loc(p, 0) in at && Loc(p, 1) in at && Loc(p, 2) in at
    }

    function Taken(l: Loc): nat {
      if l in at then 1 else 0
    }

    function PanelCount(p: Path): nat {
      Taken(Loc(p, 0)) + Taken(Loc(p, 1)) + Taken(Loc(p, 2))
    }

    function ClusterCount(c: Cluster): nat {
      PanelCount(c.Panel(0)) + PanelCount(c.Panel(1)) + if c.Hub? then PanelCount(c.Panel(2)) else 0
    }

    /** Nodes in a panel and in everything below it. */
    function SubtreeCount(p: Path): nat
      decreases levels - p.Level()
    {
      PanelCount(p) +
      if p.Level() + 1 < levels then SubtreeCount(Under(p, 0)) + SubtreeCount(Under(p, 1)) else 0
    }

    ghost predicate EmptyBelow(p: Path) {
      PanelCount(Under(p, 0)) == 0 && PanelCount(Under(p, 1)) == 0
    }

    ghost predicate LevelFull(d: nat) {
      forall p: Path | p.Valid() && p.Level() == d :: Full(p)
    }

    /** Slots exist, occupants have names, and nobody sits twice. */
    ghost predicate WellFormed() {
      && 1 <= levels
      && (forall l | l in at :: HasSlot(l) && at[l] != NOBODY)
      && (forall k, l | k in at && l in at && at[k] == at[l] :: k == l)
    }

    /** Below a panel that is not full there is nobody in the next panels. */
    ghost predicate Supported() {
      forall l | l in at && l.panel.Under? :: Full(l.panel.up)
    }

    ghost predicate Sound() {
      WellFormed() && Supported()
    }
  }

  const NEW_TREE := Tree(1, map[])

  /** The full-ancestor property: whoever has anybody below it, at any depth, is full. */
  lemma {:induction false} AncestorsAreFull(t: Tree, p: Path, l: Loc)
    requires t.Supported() && l in t.at && l.panel.IsBelow(p)
    ensures t.Full(p)
    decreases l.panel
  {
    if l.panel.up != p {
      AncestorsAreFull(t, p, Loc(l.panel.up, 0));
    }
  }

  /** The recursive count is zero exactly when the panel and all panels below it are empty;
      in a supported tree looking at the panel alone is enough. */
  lemma {:induction false} SubtreeCountZero(t: Tree, p: Path)
    requires t.WellFormed()
    ensures t.Supported() ==> (t.SubtreeCount(p) == 0 <==> t.PanelCount(p) == 0)
    ensures t.SubtreeCount(p) == 0 <==> forall l | l in t.at :: l.panel != p && !l.panel.IsBelow(p)
    decreases t.levels - p.Level()
  {
    if p.Level() + 1 < t.levels {
      SubtreeCountZero(t, Under(p, 0));
      SubtreeCountZero(t, Under(p, 1));
    }
    forall l | l in t.at && l.panel.IsBelow(p)
      ensures p.Level() + 1 < t.levels
      ensures l.panel in {Under(p, 0), Under(p, 1)} || l.panel.IsBelow(Under(p, 0)) || l.panel.IsBelow(Under(p, 1))
    {
      BelowSplits(l.panel, p);
    }
    forall l | l in t.at && l.panel == p
      ensures t.PanelCount(p) > 0
    {
      assert l.slot in {0, 1, 2};
    }
    if t.PanelCount(p) > 0 {
      var s :| 0 <= s < 3 && Loc(p, s) in t.at;
    }
    forall l, n: nat | l in t.at && n < 2 && (l.panel == Under(p, n) || l.panel.IsBelow(Under(p, n)))
      ensures l.panel.IsBelow(p)
    {
      BelowTransitive(l.panel, Under(p, n), p);
    }
  }

  lemma {:induction false} BelowSplits(q: Path, p: Path)
    requires q.Valid() && q.IsBelow(p)
    ensures p.Valid() && p.Level() < q.Level()
    ensures q in {Under(p, 0), Under(p, 1)} || q.IsBelow(Under(p, 0)) || q.IsBelow(Under(p, 1))
  {
    if q.up != p { BelowSplits(q.up, p); } else { assert q == Under(p, q.number); }
  }

  lemma {:induction false} BelowTransitive(q: Path, m: Path, p: Path)
    requires (q == m || q.IsBelow(m)) && m.IsBelow(p)
    ensures q.IsBelow(p)
    decreases q
  {
    if q != m && q.up != m { BelowTransitive(q.up, m, p); }
  }

  lemma OccupantsShow(t: Tree, l: Loc)
    requires t.WellFormed() && l in t.at && l.panel.Under?
    ensures !t.EmptyBelow(l.panel.up)
  {
  }

  // ---- Panels of a cluster ----

  lemma ClusterPanels(c: Cluster, i: nat, j: nat)
    requires i < 3 && j < 3 && c.Valid()
    ensures c.Panel(i).Valid()
    ensures c.Panel(i) == c.Panel(j) ==> i == j
    ensures i < c.OwnPanels() ==> Home(c.Panel(i)) == c && c.Panel(i).number == i && c.Panel(i).Level() == c.Level()
  {
    if c.Below? {
      assert Under(c.connector, 0).Level() == Under(c.connector, 1).Level() == 1 + c.connector.Level();
    }
  }

  lemma HomePanel(p: Path)
    requires p.Valid()
    ensures p.number < Home(p).OwnPanels() <= 3 && Home(p).Valid()
    ensures Home(p).Panel(p.number) == p && Home(p).Level() == p.Level()
  {
  }
}
