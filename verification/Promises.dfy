/** What a pool promises about its network, and exactly when it keeps that: as long as it never held more
    than 75 nodes at once. */
module Promises {
  import opened ClusterTree
  import opened Ids
  import opened Placement
  import opened Paths
  import opened Directory
  import opened FourthLevel
  import opened Runs
  import opened CutOff
  import opened Requests

  // ---- What clients are told ----

  /** Every client has everybody's own path. */
  ghost predicate DirectoriesRight(s: State) {
    forall x | x in s.members :: ShowsRight(s.tree, s.members[x].directory)
  }

  lemma ClientKnowsAll(s: State, x: Id)
    requires Records(s) && x in s.members
    ensures IsDirectory(s.tree, s.members[x].directory)
  {
    assert x in s.tree.at.Values;
    var k :| k in s.tree.at && s.tree.at[k] == x;
    assert KnowsAll(s, k);
  }

  lemma RecordsAreRight(s: State)
    requires Records(s)
    ensures DirectoriesRight(s) <==> LegibleTree(s.tree)
  {
    forall x | x in s.members
      ensures ShowsRight(s.tree, s.members[x].directory) <==> LegibleTree(s.tree)
    {
      ClientKnowsAll(s, x);
      DirectoryIsRight(s.tree, s.members[x].directory);
    }
    SomebodyKnows(s);
    hide Records, LegibleTree, ShowsRight;
  }

  lemma SomebodyKnows(s: State)
    requires Records(s)
    ensures s.members == map[] ==> LegibleTree(s.tree)
  {
    forall l | l in s.tree.at
      ensures s.members != map[]
    {
      assert s.tree.at[l] in s.tree.at.Values;
    }
  }

  /** All clients always had everybody's own path if and only if no path was misread. */
  lemma DirectoriesIffLegible(run: seq<State>, n: nat)
    requires IsRun(run) && n < |run|
    ensures (forall i: nat | i <= n :: DirectoriesRight(run[i])) <==> LegibleUntil(run, n)
  {
    hide DirectoriesRight, Records, IsRun, LegibleTree;
    forall i: nat | i <= n
      ensures DirectoriesRight(run[i]) <==> LegibleTree(run[i].tree)
    {
      RunsKeepRecords(run, i);
      RecordsAreRight(run[i]);
    }
  }

  // ---- What has to be looked at to know ----

  /** Nobody sits in a panel 0 of the fourth level. */
  ghost predicate PanelsZeroEmpty(t: Tree) {
    forall l | l in t.at && l.panel.Level() == 3 :: l.panel.number != 0
  }

  lemma LegibleHasNoPanelZero(t: Tree)
    requires t.WellFormed() && LegibleTree(t)
    ensures PanelsZeroEmpty(t)
  {
    forall l | l in t.at && l.panel.Level() == 3
      ensures l.panel.number != 0
    {
      assert t.HasSlot(l);
      LegibleFourth(l.panel);
    }
  }

  lemma MisreadIsInPanelZero(s: State, s': State)
    requires Records(s) && Sparse(s.tree) && Steps(s, s') && LegibleTree(s.tree) && !LegibleTree(s'.tree)
    ensures !PanelsZeroEmpty(s'.tree)
  {
    hide Records, Sparse, Joins, Legible, LegibleTree, TakenForSibling;
    MisreadByJoin(s, s');
    var id, birth, l, listing :| Joins(s, id, birth, l, listing, s') && !Legible(l.panel);
    NewSlotIsLegible(s, id, birth, l, listing, s');
    NewInPanelZero(s, id, birth, l, listing, s');
  }

  lemma NewInPanelZero(s: State, id: Id, birth: nat, l: Loc, listing: seq<NodeEntry>, s': State)
    requires Records(s) && Sparse(s.tree) && Joins(s, id, birth, l, listing, s') && !Legible(l.panel)
    ensures l.panel.Level() == 3 && l.panel.number == 0
  {
    FirstInPanelZero(s.tree, id, l, s'.tree);
  }

  /** No path was misread in a run if and only if nobody ever got a slot in a panel 0 of the fourth level. */
  lemma LegibleIffPanelsZeroEmpty(run: seq<State>, n: nat)
    requires IsRun(run) && n < |run|
    ensures LegibleUntil(run, n) <==> forall i: nat | i <= n :: PanelsZeroEmpty(run[i].tree)
  {
    hide Records, Sparse, Steps, LegibleTree, PanelsZeroEmpty;
    if LegibleUntil(run, n) {
      forall i: nat | i <= n
        ensures PanelsZeroEmpty(run[i].tree)
      {
        RunsKeepRecords(run, i);
        RecordsAreWellFormed(run[i]);
        LegibleHasNoPanelZero(run[i].tree);
      }
    } else {
      var i := FirstMisread(run, n);
      RunsKeepRecords(run, i - 1);
      RunsAreSparse(run, i - 1);
      assert StepAt(run, i - 1);
      MisreadIsInPanelZero(run[i-1], run[i]);
    }
  }

  lemma RecordsAreWellFormed(s: State)
    requires Records(s)
    ensures s.tree.WellFormed()
  {
  }

  lemma StepKeepsPeakSmall(s: State, s': State)
    requires Steps(s, s') && Sparse(s'.tree) && s.peak <= 75
    ensures s'.peak <= 75
  {
    hide Sparse, Adds, ToldOfArrival, Informed, Reads;
    SparseIsSmall(s'.tree);
  }

  lemma {:induction false} SmallWhileLegible(run: seq<State>, n: nat)
    requires IsRun(run) && n < |run| && LegibleUntil(run, n)
    ensures run[n].peak <= 75
  {
    hide Sparse, Steps, LegibleTree;
    if n > 0 {
      SmallWhileLegible(run, n - 1);
      RunsAreSparse(run, n);
      assert StepAt(run, n - 1);
      StepKeepsPeakSmall(run[n-1], run[n]);
    }
  }

  lemma MisreadHasMany(s: State, s': State)
    requires Records(s) && Sparse(s.tree) && Steps(s, s') && LegibleTree(s.tree) && !LegibleTree(s'.tree)
    ensures s'.peak >= 76
  {
    hide Records, Sparse, Joins, Legible, LegibleTree;
    MisreadByJoin(s, s');
    var id, birth, l, listing :| Joins(s, id, birth, l, listing, s') && !Legible(l.panel);
    JoinHasPeak(s, id, birth, l, listing, s');
    PanelZeroNeedsMany(s.tree, id, l, s'.tree);
    AddsOneNode(s.tree, id, l, s'.tree);
  }

  lemma JoinHasPeak(s: State, id: Id, birth: nat, l: Loc, listing: seq<NodeEntry>, s': State)
    requires Joins(s, id, birth, l, listing, s')
    ensures Adds(s.tree, id, l, s'.tree) && s'.peak >= |s'.tree.at|
  {
  }

  /** No path was misread in a run if and only if there were never more than 75 nodes at once. */
  lemma LegibleIffSmall(run: seq<State>, n: nat)
    requires IsRun(run) && n < |run|
    ensures LegibleUntil(run, n) <==> run[n].peak <= 75
  {
    hide Records, Sparse, Steps, LegibleTree;
    if LegibleUntil(run, n) {
      SmallWhileLegible(run, n);
    } else {
      var i := FirstMisread(run, n);
      RunsKeepRecords(run, n);
      RunsKeepRecords(run, i - 1);
      RunsAreSparse(run, i - 1);
      assert StepAt(run, i - 1);
      MisreadHasMany(run[i-1], run[i]);
    }
  }

  /** What a pool promises about its network is kept, in each of its parts, if and only if it never held more
      than 75 nodes at once: views and links agree with the tree; nobody is linked to itself; links are
      symmetric; everybody reaches everybody; nobody is cut off; the links that a join creates are asked for
      exactly once; and clients have everybody's own path. */
  lemma PromisesKeptIffSmall(run: seq<State>, n: nat)
    requires IsRun(run) && n < |run|
    ensures (forall i: nat | i <= n :: Invariant(run[i])) <==> run[n].peak <= 75
    ensures (forall i: nat, id | i <= n && id in run[i].members ::
      id !in run[i].members[id].links) <==> run[n].peak <= 75
    ensures (forall i: nat | i <= n :: Symmetric(run[i])) <==> run[n].peak <= 75
    ensures (forall i: nat | i <= n :: AllReach(run[i])) <==> run[n].peak <= 75
    ensures (forall i: nat | i <= n :: NobodyIsCutOff(run[i])) <==> run[n].peak <= 75
    ensures (forall i: nat | i < n :: AskedOnceAt(run, i)) <==> run[n].peak <= 75
    ensures (forall i: nat | i <= n :: DirectoriesRight(run[i])) <==> run[n].peak <= 75
  {
    hide *;
    LegibleIffSmall(run, n);
    ViewsAgreeIffLegible(run, n);
    SelfLinksIffMisread(run, n);
    OverlayIffLegible(run, n);
    RequestsIffLegible(run, n);
    DirectoriesIffLegible(run, n);
  }

  /** In such a pool nodes at levels d and e are at most d + e + 2 hops apart, and have at most six links. */
  lemma SmallPoolsKeepOverlay(run: seq<State>, n: nat, a: Loc, b: Loc, hops: nat)
    requires IsRun(run) && n < |run| && run[n].peak <= 75 && a in run[n].tree.at && b in run[n].tree.at
    requires hops == a.panel.Level() + b.panel.Level() + 2
    ensures Invariant(run[n]) && SoundLinks(run[n], run[n].tree.at[a], run[n].tree.at[b])
    ensures Hops(run[n], run[n].tree.at[a], run[n].tree.at[b], hops)
  {
    hide *;
    LegibleIffSmall(run, n);
    RunsKeepInvariant(run, n);
    RunsKeepOverlay(run, n, a, b, hops);
  }
}
