/** Pools can always grow and shrink: a next slot exists, so that runs with any number of nodes do, and every
    live node can leave. With the 76th node somebody is linked to itself, and somebody is cut off. */
module Growth {
  import opened ClusterTree
  import opened Ids
  import opened Placement
  import opened Promotion
  import opened Capacity
  import opened Paths
  import opened Views
  import opened Overlay
  import opened Directory
  import opened FourthLevel
  import opened Runs
  import opened CutOff

  // ---- There is a next slot ----

  /** Of some clusters, the least loaded one, and the last of the least loaded ones. */
  ghost predicate LeastOf(t: Tree, s: set<Cluster>, c: Cluster) {
    c in s && forall k | k in s ::
      t.ClusterCount(c) <= t.ClusterCount(k) && (c.Rank() < k.Rank() ==> t.ClusterCount(c) < t.ClusterCount(k))
  }

  lemma {:induction false} SomeLeast(t: Tree, s: set<Cluster>, x: Cluster) returns (c: Cluster)
    requires x in s
    ensures LeastOf(t, s, c)
  {
    var rest := s - {x};
    assert forall k | k in s :: k == x || k in rest;
    if y :| y in rest {
      var d := SomeLeast(t, rest, y);
      var m, n := t.ClusterCount(x), t.ClusterCount(d);
      c := if m < n || (m == n && d.Rank() <= x.Rank()) then x else d;
    } else {
      c := x;
    }
  }

  lemma LeastClusterExists(t: Tree, d: nat) returns (c: Cluster)
    ensures c.Valid() && c.Level() == d && LeastCluster(t, c)
  {
    var s := set l | l in LevelSlots(d) :: Home(l.panel);
    forall k: Cluster | k.Valid() && k.Level() == d
      ensures k in s
    {
      ClusterPanels(k, 0, 0);
      LevelSlotsAre(d, Loc(k.Panel(0), 0));
      assert Home(Loc(k.Panel(0), 0).panel) == k;
    }
    LevelSize(d);
    Pow2Grows(0, d);
    var x :| x in LevelSlots(d);
    c := SomeLeast(t, s, Home(x.panel));
    var l :| l in LevelSlots(d) && Home(l.panel) == c;
    LevelSlotsAre(d, l);
    HomePanel(l.panel);
  }

  lemma LeastPanelExists(t: Tree, c: Cluster) returns (i: nat)
    requires c.Valid()
    ensures i < c.OwnPanels() && LeastPanel(t, c.Panel(i))
    ensures t.ClusterCount(c) < 3 * c.OwnPanels() ==> t.PanelCount(c.Panel(i)) < 3
  {
    ClusterPanels(c, 0, 0);
    ClusterPanels(c, 1, 1);
    ClusterPanels(c, 2, 2);
    var a, b := t.PanelCount(c.Panel(0)), t.PanelCount(c.Panel(1));
    i := if b <= a then 1 else 0;
    if c.Hub? && t.PanelCount(c.Panel(2)) <= t.PanelCount(c.Panel(i)) { i := 2; }
  }

  lemma FirstOpenLevel(t: Tree) returns (d: nat)
    requires HasRoom(t)
    ensures d < t.levels && !t.LevelFull(d) && forall i: nat | i < d :: t.LevelFull(i)
  {
    d := 0;
    while t.LevelFull(d)
      invariant forall i: nat | i < d :: t.LevelFull(i)
      invariant exists j: nat | j < t.levels :: !t.LevelFull(j)
      invariant d <= t.levels
      decreases t.levels - d
    {
      d := d + 1;
    }
  }

  lemma OpenLevelHasRoom(t: Tree, d: nat, c: Cluster)
    requires !t.LevelFull(d) && c.Level() == d && c.Valid() && LeastCluster(t, c)
    ensures t.ClusterCount(c) < 3 * c.OwnPanels()
  {
    var p: Path :| p.Valid() && p.Level() == d && !t.Full(p);
    HomePanel(p);
    assert p.number in {0, 1, 2};
    assert t.PanelCount(p) < 3;
    assert t.ClusterCount(c) <= t.ClusterCount(Home(p));
  }

  lemma NextSlotExists(t: Tree) returns (l: Loc)
    requires HasRoom(t)
    ensures IsNextSlot(t, l)
  {
    var d := FirstOpenLevel(t);
    var c := LeastClusterExists(t, d);
    OpenLevelHasRoom(t, d, c);
    var i := LeastPanelExists(t, c);
    ClusterPanels(c, i, i);
    var p := c.Panel(i);
    var s := if Loc(p, 0) !in t.at then 0 else if Loc(p, 1) !in t.at then 1 else 2;
    l := Loc(p, s);
  }

  lemma NewLevelIsOpen(t: Tree)
    requires t.WellFormed()
    ensures HasRoom(WithRoom(t))
  {
    if !HasRoom(t) {
      TreeFits(t);
      TreeFits(WithRoom(t));
      assert Pow2(t.levels + 1) == 2 * Pow2(t.levels);
    }
  }

  // ---- Everybody hears of a change ----

  ghost function SlotOf(t: Tree, id: Id): (l: Loc)
    requires id in t.at.Values
    ensures l in t.at && t.at[l] == id
  {
    var l :| l in t.at && t.at[l] == id;
    l
  }

  lemma {:induction false} ListingOf(s: set<NodeEntry>) returns (es: seq<NodeEntry>)
    ensures forall e :: e in es <==> e in s
  {
    if e :| e in s {
      es := ListingOf(s - {e});
      es := es + [e];
    } else {
      es := [];
    }
  }

  lemma ListingExists(t: Tree) returns (es: seq<NodeEntry>)
    ensures IsListing(t, es)
  {
    var s := set l | l in t.at :: NodeEntry(t.at[l], Reported(l.panel));
    es := ListingOf(s);
    forall l | l in t.at
      ensures NodeEntry(t.at[l], Reported(l.panel)) in s
    {
    }
  }

  /** What one node makes of an operation: of the announcements, and of a directory message. */
  ghost function Hearing(s: State, t: Tree, news: seq<Announcement>, told: DirectoryMessage, k: Loc): Member
    requires k in t.at && Earlier(s, t.at[k]).view.WellShaped() && k.panel.Valid() && NewsOfSlots(news)
  {
    InboxAcceptable(t, news, k);
    var m := Earlier(s, t.at[k]);
    Process(m, Inbox(t, news, k)).(directory := Apply(m.directory, told))
  }

  lemma HasView(s: State, id: Id)
    requires Records(s)
    ensures Earlier(s, id).view.WellShaped()
  {
    if id in s.members {
      var k := SlotOf(s.tree, id);
      assert KnowsAll(s, k);
    }
  }

  lemma Everybody(s: State, t: Tree, news: seq<Announcement>, told: Loc -> DirectoryMessage)
    returns (members: map<Id, Member>)
    requires Records(s) && t.WellFormed() && NewsOfSlots(news)
    ensures members.Keys == t.at.Values
    ensures forall k | k in t.at ::
      k.panel.Valid() && Earlier(s, t.at[k]).view.WellShaped() && t.at[k] in members &&
      members[t.at[k]] == Hearing(s, t, news, told(k), k)
  {
    hide Records, Hearing, NewsOfSlots;
    forall i
      ensures Earlier(s, i).view.WellShaped()
    {
      HasView(s, i);
    }
    members := map i | i in t.at.Values :: Hearing(s, t, news, told(SlotOf(t, i)), SlotOf(t, i));
    forall k | k in t.at
      ensures t.at[k] in t.at.Values && SlotOf(t, t.at[k]) == k && t.HasSlot(k)
    {
      assert t.at[k] in t.at.Values;
    }
  }

  lemma HearingIsEnough(s: State, s': State, news: seq<Announcement>, told: DirectoryMessage, k: Loc)
    requires k in s'.tree.at && Earlier(s, s'.tree.at[k]).view.WellShaped()
    requires k.panel.Valid() && NewsOfSlots(news) && s'.tree.at[k] in s'.members
    requires s'.members[s'.tree.at[k]] == Hearing(s, s'.tree, news, told, k)
    ensures Informed(s, s', news, k) && Reads(s, s', k, told)
  {
    InboxAcceptable(s'.tree, news, k);
    hide Peers, Inbox, ReceiveAll, Apply;
  }

  // ---- Somebody joins ----

  /** From any state of a run a fresh node can join. */
  lemma SomebodyJoins(s: State, id: Id, birth: nat) returns (l: Loc, listing: seq<NodeEntry>, s': State)
    requires Records(s) && id != NOBODY && id !in s.tree.at.Values && birth > 0
    ensures Joins(s, id, birth, l, listing, s')
  {
    NewLevelIsOpen(s.tree);
    l := NextSlotExists(WithRoom(s.tree));
    var t := WithRoom(s.tree).(at := s.tree.at[l := id]);
    AddKeepsSound(s.tree, id, l, t);
    listing := ListingExists(t);
    s' := JoinedState(s, t, id, birth, l, listing);
  }

  lemma JoinedState(s: State, t: Tree, id: Id, birth: nat, l: Loc, listing: seq<NodeEntry>) returns (s': State)
    requires Records(s) && id != NOBODY && id !in s.tree.at.Values && birth > 0
    requires Adds(s.tree, id, l, t) && t.Sound() && IsListing(t, listing)
    ensures Joins(s, id, birth, l, listing, s') && s'.tree == t
  {
    AddsIn(s.tree, id, l, t);
    hide *;
    var news := [Announcement(l, id)];
    var told := k => if k == l then InitPool(listing) else AddNode(NodeEntry(id, Reported(l.panel)));
    var members := Everybody(s, t, news, told);
    s' := State(t, s.births[id := birth], members, Max(s.peak, |t.at|));
    forall k | k in t.at
      ensures Informed(s, s', news, k) && Reads(s, s', k, told(k))
    {
      HearingIsEnough(s, s', news, told(k), k);
    }
    ToldAndJoined(s, id, birth, l, listing, s');
  }

  lemma AddsIn(t: Tree, id: Id, l: Loc, t': Tree)
    requires Adds(t, id, l, t') && t'.Sound()
    ensures l in t'.at && t'.WellFormed() && NewsOfSlots([Announcement(l, id)])
  {
    assert l in t'.at && t'.HasSlot(l);
  }

  lemma ToldAndJoined(s: State, id: Id, birth: nat, l: Loc, listing: seq<NodeEntry>, s': State)
    requires id != NOBODY && id !in s.tree.at.Values && birth > 0 && Adds(s.tree, id, l, s'.tree)
    requires IsListing(s'.tree, listing) && s'.members.Keys == s'.tree.at.Values
    requires s'.births == s.births[id := birth] && s'.peak == Max(s.peak, |s'.tree.at|)
    requires forall k | k in s'.tree.at ::
      && Informed(s, s', [Announcement(l, id)], k)
      && Reads(s, s', k, if k == l then InitPool(listing) else AddNode(NodeEntry(id, Reported(l.panel))))
    ensures Joins(s, id, birth, l, listing, s')
  {
    hide Informed, Reads, IsListing, Adds;
  }

  // ---- Somebody leaves ----

  /** Whatever chain of promotions has been begun, it can be carried on to its end. */
  lemma {:induction false} ChainGoesOn(t: Tree, births: Births, begun: seq<Loc>) returns (chain: seq<Loc>)
    requires t.Sound() && IsChainPrefix(t, births, begun)
    ensures IsChain(t, births, chain) && chain[0] == begun[0]
    decreases t.levels - Last(begun).panel.Level()
  {
    hide *;
    EndOfChain(t, births, begun);
    if t.EmptyBelow(Last(begun).panel) {
      WholeChain(t, births, begun);
      chain := begun;
    } else {
      SomebodyToPromote(t, births, Last(begun).panel, begun[0].slot);
      var l :| Promotes(t, births, Last(begun).panel, begun[0].slot, l);
      PrefixGrows(t, births, begun, l);
      EndOfChain(t, births, begun + [l]);
      PromotedIsBelow(t, births, Last(begun).panel, begun[0].slot, l);
      LastIs(begun, l);
      chain := ChainGoesOn(t, births, begun + [l]);
    }
  }

  lemma LastIs(chain: seq<Loc>, l: Loc)
    ensures Last(chain + [l]) == l
  {
  }

  lemma EndOfChain(t: Tree, births: Births, chain: seq<Loc>)
    requires t.Sound() && IsChainPrefix(t, births, chain)
    ensures |chain| > 0 && chain[0].slot < 3 && Last(chain).panel.Level() < t.levels
  {
    ChainShape(t, births, chain, |chain| - 1);
    assert t.HasSlot(chain[0]) && t.HasSlot(Last(chain));
  }

  lemma WholeChain(t: Tree, births: Births, chain: seq<Loc>)
    requires IsChainPrefix(t, births, chain) && t.EmptyBelow(Last(chain).panel)
    ensures IsChain(t, births, chain)
  {
  }

  /** From any state of a run any live node can leave. */
  lemma SomebodyLeaves(s: State, l: Loc) returns (chain: seq<Loc>, s': State)
    requires Records(s) && l in s.tree.at
    ensures Leaves(s, chain, s') && chain[0] == l
  {
    assert IsChainPrefix(s.tree, s.births, [l]);
    chain := ChainGoesOn(s.tree, s.births, [l]);
    s' := StateWithout(s, chain);
  }

  lemma StateWithout(s: State, chain: seq<Loc>) returns (s': State)
    requires Records(s) && IsChain(s.tree, s.births, chain)
    ensures Leaves(s, chain, s')
  {
    ShiftedNews(s, chain);
    hide *;
    var t, news := Shifted(s.tree, chain), RemovalNews(s.tree, chain);
    var told := RemoveNode(s.tree.at[chain[0]], PromotedEntries(s.tree, chain));
    var members := Everybody(s, t, news, (k: Loc) => told);
    s' := State(t, s.births - {s.tree.at[chain[0]]}, members, s.peak);
    forall k | k in t.at
      ensures Informed(s, s', news, k) && Reads(s, s', k, told)
    {
      HearingIsEnough(s, s', news, told, k);
    }
    ToldAndGone(s, chain, s');
  }

  lemma ShiftedNews(s: State, chain: seq<Loc>)
    requires Records(s) && IsChain(s.tree, s.births, chain)
    ensures |chain| > 0 && chain[0] in s.tree.at
    ensures Shifted(s.tree, chain).WellFormed() && NewsOfSlots(RemovalNews(s.tree, chain))
  {
    RemovalEffect(s.tree, s.births, chain);
    RemovalNewsIsTrue(s.tree, s.births, chain);
  }

  lemma ToldAndGone(s: State, chain: seq<Loc>, s': State)
    requires IsChain(s.tree, s.births, chain) && s'.tree == Shifted(s.tree, chain)
    requires s'.births == s.births - {s.tree.at[chain[0]]} && s'.members.Keys == s'.tree.at.Values
    requires s'.peak == s.peak
    requires forall k | k in s'.tree.at ::
      && Informed(s, s', RemovalNews(s.tree, chain), k)
      && Reads(s, s', k, RemoveNode(s.tree.at[chain[0]], PromotedEntries(s.tree, chain)))
    ensures Leaves(s, chain, s')
  {
    hide Informed, Reads, Shifted, RemovalNews, PromotedEntries;
  }

  // ---- Runs of any size ----

  /** n nodes with the ids 1 to n, and never more. */
  ghost predicate HasGrown(s: State, n: nat) {
    |s.tree.at| == s.peak == n && forall id | id in s.tree.at.Values :: 0 < id <= n
  }

  /** For every number of nodes there is a run in which that many nodes join. */
  lemma {:induction false} GrowingRun(n: nat) returns (run: seq<State>)
    ensures IsRun(run) && |run| == n + 1 && HasGrown(run[n], n) && OnlyJoins(run)
  {
    if n == 0 {
      run := [State(NEW_TREE, map[], map[], 0)];
    } else {
      hide *;
      var before := GrowingRun(n - 1);
      RunsKeepRecords(before, n - 1);
      run := OneMore(before, n);
    }
  }

  lemma OneMore(before: seq<State>, n: nat) returns (run: seq<State>)
    requires IsRun(before) && |before| == n > 0 && HasGrown(before[n-1], n - 1) && Records(before[n-1])
    requires OnlyJoins(before)
    ensures IsRun(run) && |run| == n + 1 && HasGrown(run[n], n) && OnlyJoins(run)
  {
    hide *;
    var s := before[n-1];
    IdIsFresh(s, n);
    var l, listing, s' := SomebodyJoins(s, n, 1);
    GrownByOne(s, n, l, listing, s');
    run := before + [s'];
    LongerRun(before, n, 1, l, listing, s');
  }

  lemma IdIsFresh(s: State, n: nat)
    requires n > 0 && HasGrown(s, n - 1)
    ensures n != NOBODY && n !in s.tree.at.Values
  {
  }

  ghost predicate IsJoin(s: State, s': State) {
    exists id, birth, l, listing :: Joins(s, id, birth, l, listing, s')
  }

  ghost predicate SomebodyJoinsAt(run: seq<State>, i: nat)
    requires i + 1 < |run|
  {
    IsJoin(run[i], run[i+1])
  }

  /** Nobody leaves. */
  ghost predicate OnlyJoins(run: seq<State>) {
    forall i: nat | i < |run| - 1 :: SomebodyJoinsAt(run, i)
  }

  lemma LongerRun(run: seq<State>, id: Id, birth: nat, l: Loc, listing: seq<NodeEntry>, s: State)
    requires IsRun(run) && OnlyJoins(run) && Joins(run[|run|-1], id, birth, l, listing, s)
    ensures IsRun(run + [s]) && OnlyJoins(run + [s])
  {
    hide Joins;
    var more := run + [s];
    forall i: nat | i < |run|
      ensures StepAt(more, i) && SomebodyJoinsAt(more, i)
    {
      if i < |run| - 1 {
        assert StepAt(run, i) && SomebodyJoinsAt(run, i);
        assert more[i] == run[i] && more[i+1] == run[i+1];
      } else {
        assert Joins(more[i], id, birth, l, listing, more[i+1]);
      }
    }
  }

  lemma GrownByOne(s: State, id: Id, l: Loc, listing: seq<NodeEntry>, s': State)
    requires Joins(s, id, 1, l, listing, s') && Records(s) && id > 0 && HasGrown(s, id - 1)
    ensures HasGrown(s', id)
  {
    hide *;
    GrownSize(s, id, l, listing, s');
    GrownIds(s, id, s');
  }

  lemma GrownSize(s: State, id: Id, l: Loc, listing: seq<NodeEntry>, s': State)
    requires Joins(s, id, 1, l, listing, s') && Records(s) && id > 0 && HasGrown(s, id - 1)
    ensures |s'.tree.at| == s'.peak == id && s'.tree.at.Values == s.tree.at.Values + {id}
  {
    AddKeepsSound(s.tree, id, l, s'.tree);
    AddKeepsPeak(s.tree, id, l, s'.tree, s.peak);
    hide Records, Adds, ToldOfArrival, LevelsFitPeak;
  }

  lemma GrownIds(s: State, id: Id, s': State)
    requires id > 0 && HasGrown(s, id - 1) && |s'.tree.at| == s'.peak == id
    requires s'.tree.at.Values == s.tree.at.Values + {id}
    ensures HasGrown(s', id)
  {
  }

  // ---- Who is linked to itself ----

  ghost function Trees(run: seq<State>): seq<Tree> {
    seq(|run|, (i: nat) requires i < |run| => run[i].tree)
  }

  lemma TreesGrow(run: seq<State>)
    requires IsRun(run) && OnlyJoins(run)
    ensures IsAddRun(Trees(run))
  {
    hide Steps, Adds;
    forall i: nat | i < |run| - 1
      ensures AddsSomeAt(Trees(run), i)
    {
      assert SomebodyJoinsAt(run, i);
      var id, birth, l, listing :| Joins(run[i], id, birth, l, listing, run[i+1]);
      assert Adds(Trees(run)[i], id, l, Trees(run)[i+1]);
    }
  }

  /** While nodes only come, nobody is linked to itself, the links are symmetric, everybody reaches everybody,
      and nobody is cut off: each of these exactly as long as there are at most 75 nodes. */
  lemma GrowingRunsLinkRight(run: seq<State>, n: nat)
    requires IsRun(run) && OnlyJoins(run) && n < |run|
    ensures (forall i: nat, id | i <= n && id in run[i].members :: id !in run[i].members[id].links) <==> n <= 75
    ensures (forall i: nat | i <= n :: Symmetric(run[i])) <==> n <= 75
    ensures (forall i: nat | i <= n :: AllReach(run[i])) <==> n <= 75
    ensures (forall i: nat | i <= n :: NobodyIsCutOff(run[i])) <==> n <= 75
  {
    hide *;
    RunGrows(run, n);
    SelfLinksIffMisread(run, n);
    OverlayIffLegible(run, n);
  }

  lemma RunGrows(run: seq<State>, n: nat)
    requires IsRun(run) && OnlyJoins(run) && n < |run|
    ensures LegibleUntil(run, n) <==> n <= 75
  {
    TreesGrow(run);
    forall i: nat | i <= n
      ensures LegibleTree(run[i].tree) <==> i <= 75
    {
      GrowingPoolsReadRight(Trees(run), i);
    }
    hide IsRun, OnlyJoins, LegibleTree;
    assert LegibleTree(run[n].tree) <==> n <= 75;
  }

  /** There is such a run: its 76th node makes some node be linked to itself, and some node be cut off. */
  lemma SelfLinkIsReached() returns (run: seq<State>, id: Id, m: Id)
    ensures IsRun(run) && OnlyJoins(run) && |run| == 77 && |run[76].tree.at| == 76
    ensures id in run[76].members && id in run[76].members[id].links
    ensures IsCutOff(run[76], m)
  {
    hide *;
    run := GrowingRun(76);
    SizeGrown(run[76], 76);
    id := SelfLinkOf(run);
    m := CutOffOf(run);
  }

  lemma SizeGrown(s: State, n: nat)
    requires HasGrown(s, n)
    ensures |s.tree.at| == n
  {
  }

  lemma SelfLinkOf(run: seq<State>) returns (id: Id)
    requires IsRun(run) && OnlyJoins(run) && |run| == 77
    ensures id in run[76].members && id in run[76].members[id].links
  {
    hide *;
    GrowingRunsLinkRight(run, 75);
    GrowingRunsLinkRight(run, 76);
    var i: nat, j :| i <= 76 && j in run[i].members && j in run[i].members[j].links;
    id := j;
  }

  lemma CutOffOf(run: seq<State>) returns (m: Id)
    requires IsRun(run) && OnlyJoins(run) && |run| == 77
    ensures IsCutOff(run[76], m)
  {
    hide IsRun, OnlyJoins, IsCutOff;
    GrowingCutsOff(run, 75);
    GrowingCutsOff(run, 76);
    var i: nat :| i <= 76 && !NobodyIsCutOff(run[i]);
    m :| m in run[76].members && IsCutOff(run[76], m);
  }

  lemma GrowingCutsOff(run: seq<State>, n: nat)
    requires IsRun(run) && OnlyJoins(run) && n < |run|
    ensures (forall i: nat | i <= n :: NobodyIsCutOff(run[i])) <==> n <= 75
  {
    hide *;
    GrowingRunsLinkRight(run, n);
  }
}
