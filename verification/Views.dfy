/** What a node is told about its neighbourhood, and why the telling is enough. */
module Views {
  import opened ClusterTree
  import opened Ids
  import opened Paths
  import opened Promotion

  /** A node's local copy of its neighbourhood: the three panels of its own cluster
      (connector last) and the two panels of the cluster below it. */
  datatype NodePosition = NodePosition(
    path: seq<int>,
    partnerInt: nat,
    centerCluster: bool,
    parentClusterNodeIDs: seq<seq<Id>>,
    childClusterNodeIDs: seq<seq<Id>>)
  {
    /** The last element of the path, by which a node knows its own panel. */
    function PanelNumber(): nat {
      if path != [] && path[|path|-1] >= 0 then path[|path|-1] else 0
    }

    predicate WellShaped() {
      && PanelNumber() < 3 && partnerInt < 3
      && |parentClusterNodeIDs| == 3 && (forall i | 0 <= i < 3 :: |parentClusterNodeIDs[i]| == 3)
      && |childClusterNodeIDs| == 2 && (forall i | 0 <= i < 2 :: |childClusterNodeIDs[i]| == 3)
    }

    /** The entry with position code `pos`: 0..8 the own cluster, 9..14 the cluster below. */
    function At(pos: nat): Id
      requires WellShaped() && pos < 15
    {
      if pos < 9 then parentClusterNodeIDs[pos / 3][pos % 3] else childClusterNodeIDs[(pos - 9) / 3][pos % 3]
    }

    predicate SamePlace(v: NodePosition) {
      path == v.path && partnerInt == v.partnerInt && centerCluster == v.centerCluster
    }
  }

  datatype PositionMessage = Full(view: NodePosition) | Single(position: nat, nodeID: Id)

  /** The slot that a node in panel `own` knows under position code `pos`. */
  function SlotSeen(own: Path, pos: nat): Loc
    requires pos < 15
  {
    Loc(if pos < 9 then Home(own).Panel(pos / 3) else Under(own, (pos - 9) / 3), pos % 3)
  }

  /** The neighbourhood of slot l recomputed from the whole tree. */
  function View(t: Tree, l: Loc): (v: NodePosition)
    requires l.panel.Valid() && l.slot < 3
    ensures v.WellShaped() && v.PanelNumber() == l.panel.number
    ensures forall pos: nat | pos < 15 :: v.At(pos) == t.Get(SlotSeen(l.panel, pos))
  {
    IntsShape(l.panel);
    NodePosition(l.panel.Ints(), l.slot, l.panel.Centre?,
      seq(3, (i: nat) requires i < 3 => seq(3, (j: nat) => t.Get(Loc(Home(l.panel).Panel(i), j)))),
      seq(2, (i: nat) => seq(3, (j: nat) => t.Get(Loc(Under(l.panel, i), j)))))
  }

  lemma SlotSeenOnce(own: Path, p: nat, q: nat)
    requires own.Valid() && p < 15 && q < 15 && SlotSeen(own, p) == SlotSeen(own, q)
    ensures p == q
  {
    assert forall i: nat | i < 3 :: Home(own).Panel(i).Level() <= own.Level();
    assert forall i: nat :: Under(own, i).Level() == own.Level() + 1;
    ClusterPanels(Home(own), if p < 9 then p / 3 else 0, if q < 9 then q / 3 else 0);
  }

  /** A manager's position before the first message: no path yet. */
  const NEW_POSITION := NodePosition([], 0, false, EMPTY_ROWS, EMPTY_ROWS[..2])

  const EMPTY_ROWS: seq<seq<Id>> := [[NOBODY, NOBODY, NOBODY], [NOBODY, NOBODY, NOBODY], [NOBODY, NOBODY, NOBODY]]

  // ---- Who is told, and under which code ----

  /** Panels p and q show up in each other's neighbourhood. */
  predicate Near(p: Path, q: Path) {
    Home(p) == Home(q) || (q.Under? && q.up == p) || (p.Under? && p.up == q)
  }

  /** The code under which a node in panel `own` knows slot l. */
  function Code(own: Path, l: Loc): nat {
    3 * (if own.Under? && own.up == l.panel then 2 else l.panel.number) + l.slot +
    if l.panel.Under? && l.panel.up == own then 9 else 0
  }

  lemma CodeIsSeen(own: Path, l: Loc)
    requires own.Valid() && l.panel.Valid() && l.slot < 3 && Near(own, l.panel)
    ensures Code(own, l) < 15 && SlotSeen(own, Code(own, l)) == l
  {
  }

  /** The code that is sent, by the number that the panel's path reads. */
  function CodeSent(own: Path, l: Loc): nat {
    3 * (if own.Under? && own.up == l.panel then 2 else AsRead(l.panel).number) + l.slot +
    if l.panel.Under? && l.panel.up == own then 9 else 0
  }

  /** The code that is sent names the announced slot exactly when the panel's number reads right, or
      the receiver hangs below the panel. */
  lemma CodeSentIsSeen(own: Path, l: Loc)
    requires own.Valid() && l.panel.Valid() && l.slot < 3 && Near(own, l.panel)
    ensures CodeSent(own, l) < 15
    ensures SlotSeen(own, CodeSent(own, l)) == l <==>
      (own.Under? && own.up == l.panel) || AsRead(l.panel).number == l.panel.number
  {
    if own.Under? && own.up == l.panel {
      assert l.panel.Level() < own.Level();
      assert !(l.panel.Under? && l.panel.up == own);
      CodeIsSeen(own, l);
    } else {
      var m := if l.panel.Centre? then l.panel else Under(l.panel.up, AsRead(l.panel).number);
      CodeOfSibling(own, l, m);
      CodeIsSeen(own, Loc(m, l.slot));
    }
  }

  lemma CodeOfSibling(own: Path, l: Loc, m: Path)
    requires own.Valid() && l.panel.Valid() && Near(own, l.panel) && !(own.Under? && own.up == l.panel)
    requires m == if l.panel.Centre? then l.panel else Under(l.panel.up, AsRead(l.panel).number)
    ensures CodeSent(own, l) == Code(own, Loc(m, l.slot)) && Near(own, m) && m.Valid()
  {
    assert own.Under? ==> own.up.Level() < own.Level();
    assert m.Level() == l.panel.Level();
  }

  lemma LegibleCode(own: Path, l: Loc)
    requires Legible(l.panel)
    ensures CodeSent(own, l) == Code(own, l)
  {
  }

  lemma SeenIsNear(own: Path, pos: nat)
    requires own.Valid() && pos < 15
    ensures Near(own, SlotSeen(own, pos).panel)
  {
  }

  /** The neighbourhood as it is sent to the holder of slot l: with the path that is read back. */
  function SentView(t: Tree, l: Loc): (v: NodePosition)
    requires l.panel.Valid() && l.slot < 3
    ensures v.WellShaped() && v.PanelNumber() == AsRead(l.panel).number && v.path != []
    ensures forall pos: nat | pos < 15 :: v.At(pos) == t.Get(SlotSeen(l.panel, pos))
    ensures v == View(t, l) <==> Legible(l.panel)
  {
    IntsShape(AsRead(l.panel));
    LegibleIffReported(l.panel);
    View(t, l).(path := Reported(l.panel))
  }

  /** What the holder of slot u is sent when the occupant `id` of slot l announces its place. */
  function SentTo(t: Tree, l: Loc, id: Id, u: Loc): seq<PositionMessage> {
    if u == l then
      if id != NOBODY && l.panel.Valid() && l.slot < 3 then [Full(SentView(t, l))] else []
    else if Near(u.panel, l.panel) then [Single(CodeSent(u.panel, l), id)]
    else []
  }

  datatype Announcement = Announcement(loc: Loc, id: Id)

  /** All that the holder of slot u is sent, in order, by a list of announcements. */
  function Inbox(t: Tree, news: seq<Announcement>, u: Loc): seq<PositionMessage> {
    if news == [] then []
    else Inbox(t, news[..|news|-1], u) + SentTo(t, news[|news|-1].loc, news[|news|-1].id, u)
  }

  /** The announcements of a removal: the promoted nodes from the top down, then the emptied slot. */
  function RemovalNews(t: Tree, chain: seq<Loc>): seq<Announcement>
    requires |chain| > 0
  {
    seq(|chain|, (i: nat) requires i < |chain| => Announcement(chain[i], Shifted(t, chain).Get(chain[i])))
  }

  // ---- How a view is updated by a message ----

  function ClearRow(row: seq<Id>, id: Id): (r: seq<Id>)
    ensures |r| == |row|
  {
    if |row| == 3 then
      if row[0] == id then row[0 := NOBODY] else if row[1] == id then row[1 := NOBODY]
      else if row[2] == id then row[2 := NOBODY] else row
    else row
  }

  function Clear(v: NodePosition, id: Id): (r: NodePosition)
    requires v.WellShaped()
    ensures r.WellShaped() && r.SamePlace(v)
  {
    if id in v.parentClusterNodeIDs[0] || id in v.parentClusterNodeIDs[1] || id in v.parentClusterNodeIDs[2] then
      v.(parentClusterNodeIDs := seq(3, (i: nat) requires i < 3 => ClearRow(v.parentClusterNodeIDs[i], id)))
    else
      v.(childClusterNodeIDs := seq(2, (i: nat) requires i < 2 => ClearRow(v.childClusterNodeIDs[i], id)))
  }

  function Put(v: NodePosition, pos: nat, id: Id): (r: NodePosition)
    requires v.WellShaped() && pos < 15
    ensures r.WellShaped() && r.SamePlace(v)
    ensures forall p: nat | p < 15 :: r.At(p) == if p == pos then id else v.At(p)
  {
    if pos < 9 then
      v.(parentClusterNodeIDs := v.parentClusterNodeIDs[pos / 3 := v.parentClusterNodeIDs[pos / 3][pos % 3 := id]])
    else
      v.(childClusterNodeIDs :=
        v.childClusterNodeIDs[(pos - 9) / 3 := v.childClusterNodeIDs[(pos - 9) / 3][pos % 3 := id]])
  }

  /** A single-position message first forgets the node's old entry, then writes the new one. */
  function Move(v: NodePosition, pos: nat, id: Id): (r: NodePosition)
    requires v.WellShaped() && pos < 15
    ensures r.WellShaped() && r.SamePlace(v)
  {
    Put(if id != NOBODY then Clear(v, id) else v, pos, id)
  }

  predicate Acceptable(m: PositionMessage) {
    if m.Full? then m.view.WellShaped() && m.view.path != [] else m.position < 15
  }

  function Receive(v: NodePosition, m: PositionMessage): (r: NodePosition)
    requires v.WellShaped() && Acceptable(m)
    ensures r.WellShaped()
  {
    match m
    case Full(w) => w
    case Single(pos, id) => Move(v, pos, id)
  }

  function ReceiveAll(v: NodePosition, ms: seq<PositionMessage>): (r: NodePosition)
    requires v.WellShaped() && forall m | m in ms :: Acceptable(m)
    ensures r.WellShaped()
  {
    if ms == [] then v else Receive(ReceiveAll(v, ms[..|ms|-1]), ms[|ms|-1])
  }

  // ---- Agreement with the tree ----

  lemma ClearEntry(v: NodePosition, id: Id, p: nat)
    requires v.WellShaped() && p < 15
    ensures Clear(v, id).At(p) == v.At(p) || (v.At(p) == id && Clear(v, id).At(p) == NOBODY)
  {
  }

  /** Two entries of a recomputed view never hold the same node. */
  lemma ViewHasNoTwins(t: Tree, u: Loc, p: nat, q: nat)
    requires t.WellFormed() && u.panel.Valid() && u.slot < 3 && p < 15 && q < 15
    requires View(t, u).At(p) == View(t, u).At(q) != NOBODY
    ensures p == q
  {
  }

  /** A message that is right about the tree makes its own entry right and never
      spoils another one, whatever the view held before. */
  lemma RightMessageHelps(t: Tree, u: Loc, v: NodePosition, pos: nat, p: nat)
    requires t.WellFormed() && u.panel.Valid() && u.slot < 3 && v.WellShaped() && pos < 15 && p < 15
    ensures var r := Move(v, pos, View(t, u).At(pos));
      p == pos || v.At(p) == View(t, u).At(p) ==> r.At(p) == View(t, u).At(p)
  {
    var id := View(t, u).At(pos);
    if id != NOBODY {
      ClearEntry(v, id, p);
      if p != pos && View(t, u).At(p) == id { ViewHasNoTwins(t, u, p, pos); }
    }
  }

  lemma SameEntries(v: NodePosition, w: NodePosition)
    requires v.WellShaped() && w.WellShaped() && v.SamePlace(w)
    requires forall p: nat | p < 15 :: v.At(p) == w.At(p)
    ensures v == w
  {
    forall i, j | 0 <= i < 3 && 0 <= j < 3
      ensures v.parentClusterNodeIDs[i][j] == w.parentClusterNodeIDs[i][j]
    {
      assert v.At(3 * i + j) == w.At(3 * i + j);
    }
    forall i, j | 0 <= i < 2 && 0 <= j < 3
      ensures v.childClusterNodeIDs[i][j] == w.childClusterNodeIDs[i][j]
    {
      assert v.At(9 + 3 * i + j) == w.At(9 + 3 * i + j);
    }
    assert forall i | 0 <= i < 3 :: v.parentClusterNodeIDs[i] == w.parentClusterNodeIDs[i];
    assert forall i | 0 <= i < 2 :: v.childClusterNodeIDs[i] == w.childClusterNodeIDs[i];
    assert v.parentClusterNodeIDs == w.parentClusterNodeIDs;
    assert v.childClusterNodeIDs == w.childClusterNodeIDs;
  }

  /** Every announcement is about a slot of the tree and true of it. */
  ghost predicate TrueNews(t: Tree, news: seq<Announcement>) {
    forall a | a in news :: Legible(a.loc.panel) && a.loc.panel.Valid() && a.loc.slot < 3 && a.id == t.Get(a.loc)
  }

  ghost predicate Announced(news: seq<Announcement>, l: Loc) {
    exists a :: a in news && a.loc == l
  }

  /** The old view differs from the tree at most where something is announced. */
  ghost predicate StaleOnlyWhereAnnounced(t: Tree, news: seq<Announcement>, u: Loc, v: NodePosition)
    requires u.panel.Valid() && u.slot < 3
  {
    && v.WellShaped() && v.SamePlace(View(t, u))
    && forall p: nat | p < 15 :: v.At(p) == View(t, u).At(p) || Announced(news, SlotSeen(u.panel, p))
  }

  /** Every announcement is about a slot. */
  ghost predicate NewsOfSlots(news: seq<Announcement>) {
    forall a | a in news :: a.loc.panel.Valid() && a.loc.slot < 3
  }

  lemma {:induction false} InboxAcceptable(t: Tree, news: seq<Announcement>, u: Loc)
    requires NewsOfSlots(news) && u.panel.Valid()
    ensures forall m | m in Inbox(t, news, u) :: Acceptable(m)
  {
    if news != [] {
      var a := news[|news|-1];
      assert a in news;
      InboxAcceptable(t, news[..|news|-1], u);
      if Near(u.panel, a.loc.panel) { CodeSentIsSeen(u.panel, a.loc); }
    }
  }

  lemma ReceiveMore(v: NodePosition, ms: seq<PositionMessage>, more: seq<PositionMessage>)
    requires v.WellShaped() && |more| <= 1 && forall m | m in ms + more :: Acceptable(m)
    ensures forall m | m in ms :: Acceptable(m)
    ensures forall m | m in more :: Acceptable(m)
    ensures ReceiveAll(v, ms + more) == if more == [] then ReceiveAll(v, ms) else Receive(ReceiveAll(v, ms), more[0])
  {
    if more == [] {
      assert ms + more == ms;
    } else {
      assert (ms + more)[..|ms|] == ms;
      assert more[0] in ms + more;
    }
    forall m | m in ms
      ensures Acceptable(m)
    {
      assert m in ms + more;
    }
  }

  /** Once all announcements are processed in order, the local copy equals the
      recomputation from the tree, however many intermediate moves there were. */
  lemma {:induction false} NewsSettlesViews(t: Tree, news: seq<Announcement>, u: Loc, v: NodePosition)
    requires t.WellFormed() && u in t.at && TrueNews(t, news) && v.WellShaped()
    requires Announced(news, u) || StaleOnlyWhereAnnounced(t, news, u, v)
    ensures forall m | m in Inbox(t, news, u) :: Acceptable(m)
    ensures ReceiveAll(v, Inbox(t, news, u)) == View(t, u)
  {
    InboxAcceptable(t, news, u);
    var r := ReceiveAll(v, Inbox(t, news, u));
    if Announced(news, u) {
      PlacedByNews(t, news, u, v);
    } else {
      PlaceKept(t, news, u, v);
      forall p: nat | p < 15
        ensures r.At(p) == View(t, u).At(p)
      {
        EntryAfterNews(t, news, u, v, p);
      }
      SameEntries(r, View(t, u));
    }
  }

  /** What one announcement about another slot does to one entry of a view. */
  lemma EntryAfterOne(t: Tree, u: Loc, w: NodePosition, a: Announcement, p: nat)
    requires t.WellFormed() && u in t.at && Legible(a.loc.panel) && a.loc.panel.Valid() && a.loc.slot < 3
    requires a.id == t.Get(a.loc)
    requires w.WellShaped() && p < 15 && a.loc != u
    ensures var m := SentTo(t, a.loc, a.id, u);
      && (m != [] ==> Acceptable(m[0]))
      && (w.At(p) == View(t, u).At(p) || a.loc == SlotSeen(u.panel, p) ==>
            (if m == [] then w else Receive(w, m[0])).At(p) == View(t, u).At(p))
  {
    if Near(u.panel, a.loc.panel) {
      LegibleCode(u.panel, a.loc);
      CodeIsSeen(u.panel, a.loc);
      if a.loc == SlotSeen(u.panel, p) { SlotSeenOnce(u.panel, p, Code(u.panel, a.loc)); }
      RightMessageHelps(t, u, w, Code(u.panel, a.loc), p);
    } else {
      SeenIsNear(u.panel, p);
    }
  }

  /** An entry that is right stays right; an entry about an announced slot becomes right. */
  lemma {:induction false} EntryAfterNews(t: Tree, news: seq<Announcement>, u: Loc, v: NodePosition, p: nat)
    requires t.WellFormed() && u in t.at && TrueNews(t, news) && p < 15
    requires v.WellShaped() && !Announced(news, u)
    requires v.At(p) == View(t, u).At(p) || Announced(news, SlotSeen(u.panel, p))
    requires forall m | m in Inbox(t, news, u) :: Acceptable(m)
    ensures ReceiveAll(v, Inbox(t, news, u)).At(p) == View(t, u).At(p)
  {
    if news != [] {
      var n := |news| - 1;
      var a, before := news[n], news[..n];
      assert a in news && news == before + [a];
      assert forall b | b in before :: b in news;
      InboxAcceptable(t, before, u);
      ReceiveMore(v, Inbox(t, before, u), SentTo(t, a.loc, a.id, u));
      var w := ReceiveAll(v, Inbox(t, before, u));
      if v.At(p) == View(t, u).At(p) || Announced(before, SlotSeen(u.panel, p)) {
        EntryAfterNews(t, before, u, v, p);
      } else {
        assert a.loc == SlotSeen(u.panel, p);
      }
      EntryAfterOne(t, u, w, a, p);
    }
  }

  lemma {:induction false} PlaceKept(t: Tree, news: seq<Announcement>, u: Loc, v: NodePosition)
    requires u.panel.Valid() && TrueNews(t, news) && v.WellShaped() && !Announced(news, u)
    requires forall m | m in Inbox(t, news, u) :: Acceptable(m)
    ensures ReceiveAll(v, Inbox(t, news, u)).SamePlace(v)
  {
    if news != [] {
      var n := |news| - 1;
      var a, before := news[n], news[..n];
      assert a in news;
      assert forall b | b in before :: b in news;
      InboxAcceptable(t, before, u);
      PlaceKept(t, before, u, v);
      ReceiveMore(v, Inbox(t, before, u), SentTo(t, a.loc, a.id, u));
    }
  }

  /** A node that announces its own place ends with the right view, whatever it held before. */
  lemma {:induction false} PlacedByNews(t: Tree, news: seq<Announcement>, u: Loc, v: NodePosition)
    requires t.WellFormed() && u in t.at && TrueNews(t, news) && v.WellShaped() && Announced(news, u)
    requires forall m | m in Inbox(t, news, u) :: Acceptable(m)
    ensures ReceiveAll(v, Inbox(t, news, u)) == View(t, u)
  {
    var n := |news| - 1;
    var a, before := news[n], news[..n];
    assert a in news && news == before + [a];
    assert forall b | b in before :: b in news;
    InboxAcceptable(t, before, u);
    ReceiveMore(v, Inbox(t, before, u), SentTo(t, a.loc, a.id, u));
    var w := ReceiveAll(v, Inbox(t, before, u));
    if a.loc == u {
      assert a.id == t.at[u] != NOBODY;
    } else {
      assert Announced(before, u);
      PlacedByNews(t, before, u, v);
      var r := ReceiveAll(v, Inbox(t, news, u));
      forall p: nat | p < 15
        ensures r.At(p) == View(t, u).At(p)
      {
        EntryAfterOne(t, u, w, a, p);
      }
      SameEntries(r, View(t, u));
    }
  }
}
