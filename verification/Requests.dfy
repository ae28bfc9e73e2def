/** Who is asked to connect when a node joins: of each new link exactly one end, unless the newcomer sits in
    a panel whose path is misread; then it is asked to connect to itself. */
module Requests {
  import opened ClusterTree
  import opened Ids
  import opened Placement
  import opened Paths
  import opened Views
  import opened Overlay
  import opened Directory
  import opened Runs
  import opened CutOff

  /** While the arrival of a newcomer is processed, the manager of x asks its client to connect to y. */
  ghost predicate AsksIn(s: State, s': State, newcomer: Id, x: Id, y: Id) {
    && x in s'.members && s'.members[x].view.WellShaped()
    && y in Asks(Earlier(s, x).links, s'.members[x].view, x == newcomer)
  }

  /** Exactly one end of every new link is asked to connect. */
  ghost predicate AskedOnce(s: State, s': State, newcomer: Id) {
    forall x, y | x in s'.members && y in s'.members[x].links && y !in Earlier(s, x).links ::
      AsksIn(s, s', newcomer, x, y) <==> !AsksIn(s, s', newcomer, y, x)
  }

  /** Both states agree with their trees, between which id arrived in slot l. */
  ghost predicate SoundJoin(s: State, id: Id, l: Loc, s': State) {
    && Invariant(s) && Invariant(s') && Adds(s.tree, id, l, s'.tree)
    && id != NOBODY && id !in s.tree.at.Values && l !in s.tree.at && s'.tree.at == s.tree.at[l := id]
  }

  lemma LegibleJoinIsSound(s: State, id: Id, birth: nat, l: Loc, listing: seq<NodeEntry>, s': State)
    requires Invariant(s) && Joins(s, id, birth, l, listing, s') && Legible(l.panel)
    ensures SoundJoin(s, id, l, s')
  {
    hide *;
    WhoJoins(s, id, birth, l, listing, s');
    InvariantHasRecords(s);
    JoinKeepsRecords(s, id, birth, l, listing, s');
    NewSlotIsLegible(s, id, birth, l, listing, s');
    JoinKeepsAgreement(s, id, l, listing, s');
    SoundJoinIs(s, id, l, s');
  }

  lemma SoundJoinIs(s: State, id: Id, l: Loc, s': State)
    requires Invariant(s) && Records(s') && Adds(s.tree, id, l, s'.tree)
    requires forall k {:trigger Agrees(s', k)} | k in s'.tree.at :: Agrees(s', k)
    requires id != NOBODY && id !in s.tree.at.Values && l !in s.tree.at && s'.tree.at == s.tree.at[l := id]
    ensures SoundJoin(s, id, l, s')
  {
    hide Records, Agrees, Adds;
  }

  lemma MemberSits(s: State, x: Id) returns (a: Loc)
    requires Invariant(s) && x in s.members
    ensures a in s.tree.at && s.tree.at[a] == x && s.tree.WellFormed() && s.tree.Sound()
    ensures a.panel.Valid() && a.slot < 3
    ensures s.members[x].view == View(s.tree, a) && s.members[x].links == Peers(View(s.tree, a))
  {
    assert x in s.tree.at.Values;
    a :| a in s.tree.at && s.tree.at[a] == x;
    assert Agrees(s, a);
  }

  lemma LinksBefore(s: State, id: Id, l: Loc, s': State, a: Loc)
    requires SoundJoin(s, id, l, s') && a in s'.tree.at
    ensures s.tree.WellFormed() && (a != l ==> a in s.tree.at && a.panel.Valid() && a.slot < 3)
    ensures s'.tree.at[a] == id <==> a == l
    ensures Earlier(s, s'.tree.at[a]).links == if a == l then {} else Peers(View(s.tree, a))
  {
    if a == l {
      assert id !in s.members;
    } else {
      assert s.tree.at[a] == s'.tree.at[a] && s.tree.at[a] in s.tree.at.Values;
      assert Agrees(s, a);
    }
  }

  lemma AsksInIs(s: State, id: Id, l: Loc, s': State, a: Loc, b: Loc)
    requires SoundJoin(s, id, l, s') && a in s'.tree.at && b in s'.tree.at
    ensures s.tree.WellFormed() && s'.tree.WellFormed() && (a == l || a in s.tree.at)
    ensures AsksIn(s, s', id, s'.tree.at[a], s'.tree.at[b]) <==> AsksFor(s.tree, l, s'.tree, a, b)
  {
    LinksBefore(s, id, l, s', a);
    assert Agrees(s', a);
    hide View, Peers, Asks, Adds;
  }

  lemma NotLinkedBefore(s: State, id: Id, l: Loc, s': State, a: Loc, b: Loc)
    requires SoundJoin(s, id, l, s') && a in s'.tree.at && b in s'.tree.at
    requires s'.tree.at[b] !in Earlier(s, s'.tree.at[a]).links
    ensures s.tree.WellFormed() && !Linked(s.tree, a, b)
  {
    LinksBefore(s, id, l, s', a);
    hide View, Peers, Adds;
  }

  lemma SoundJoinAsksOnce(s: State, id: Id, l: Loc, s': State, x: Id, y: Id)
    requires SoundJoin(s, id, l, s') && x in s'.members && y in s'.members[x].links && y !in Earlier(s, x).links
    ensures AsksIn(s, s', id, x, y) <==> !AsksIn(s, s', id, y, x)
  {
    hide *;
    SoundJoinHas(s, id, l, s');
    var a := MemberSits(s', x);
    PeersAreLive(s'.tree, a);
    var b := SlotOfLive(s'.tree, y);
    NotLinkedBefore(s, id, l, s', a, b);
    LinkedNow(s'.tree, a, b);
    ArrivalAsksOnce(s.tree, id, l, s'.tree, a, b);
    AsksInIs(s, id, l, s', a, b);
    AsksInIs(s, id, l, s', b, a);
  }

  /** Which end of a new link is asked is settled by the two slots, and between panel mates by who has come:
      the end in the later panel of the cluster, the end above, the newcomer. */
  lemma JoinAsksBySlots(s: State, id: Id, l: Loc, s': State, a: Loc, b: Loc)
    requires SoundJoin(s, id, l, s') && a in s'.tree.at && b in s'.tree.at && s'.tree.at[a] in s'.members
    requires s'.tree.at[b] in s'.members[s'.tree.at[a]].links && s'.tree.at[b] !in Earlier(s, s'.tree.at[a]).links
    ensures AsksIn(s, s', id, s'.tree.at[a], s'.tree.at[b]) <==> Asker(a, b, a == l)
  {
    hide *;
    SoundJoinHas(s, id, l, s');
    IsLinkedNow(s', a, b);
    AsksInIs(s, id, l, s', a, b);
    LinksBefore(s, id, l, s', a);
    AsksForIs(s.tree, l, s'.tree, a, b);
    WhoAsks(s'.tree, a, b, if a == l then {} else Peers(View(s.tree, a)), a == l);
  }

  lemma IsLinkedNow(s: State, a: Loc, b: Loc)
    requires Invariant(s) && a in s.tree.at && b in s.tree.at && s.tree.at[a] in s.members
    requires s.tree.at[b] in s.members[s.tree.at[a]].links
    ensures s.tree.WellFormed() && Linked(s.tree, a, b) && a.panel.Valid() && a.slot < 3
  {
    assert Agrees(s, a);
  }

  lemma AsksForIs(t: Tree, l: Loc, t': Tree, a: Loc, b: Loc)
    requires t.WellFormed() && t'.WellFormed() && a in t'.at && b in t'.at && (a == l || a in t.at)
    ensures a.panel.Valid() && a.slot < 3
    ensures AsksFor(t, l, t', a, b) <==>
      t'.at[b] in Asks(if a == l then {} else Peers(View(t, a)), View(t', a), a == l)
  {
    hide Asks, View, Peers;
  }

  lemma LinkedNow(t: Tree, a: Loc, b: Loc)
    requires t.WellFormed() && a in t.at && b in t.at && a.panel.Valid() && a.slot < 3 && t.at[b] in Peers(View(t, a))
    ensures Linked(t, a, b)
  {
  }

  lemma SlotOfLive(t: Tree, id: Id) returns (l: Loc)
    requires id in t.at.Values
    ensures l in t.at && t.at[l] == id
  {
    l :| l in t.at && t.at[l] == id;
  }

  lemma SoundJoinHas(s: State, id: Id, l: Loc, s': State)
    requires SoundJoin(s, id, l, s')
    ensures Invariant(s) && Invariant(s') && s.tree.Sound() && s'.tree.Sound() && Adds(s.tree, id, l, s'.tree)
    ensures s.tree.WellFormed() && s'.tree.WellFormed()
    ensures id != NOBODY && id !in s.tree.at.Values
  {
  }

  /** After a run without misread paths, exactly one end of each link that a join creates is asked to connect
      if and only if the newcomer's path reads right; otherwise the newcomer is asked to connect to itself. */
  lemma AskedOnceIffLegible(s: State, id: Id, birth: nat, l: Loc, listing: seq<NodeEntry>, s': State)
    requires Invariant(s) && LegibleTree(s.tree) && Joins(s, id, birth, l, listing, s')
    ensures AskedOnce(s, s', id) <==> Legible(l.panel)
    ensures !Legible(l.panel) ==> AsksIn(s, s', id, id, id)
  {
    hide Invariant, Joins, LegibleTree, Legible;
    if Legible(l.panel) {
      LegibleJoinIsSound(s, id, birth, l, listing, s');
      hide AsksIn, Earlier, SoundJoin;
      forall x, y | x in s'.members && y in s'.members[x].links && y !in Earlier(s, x).links
        ensures AsksIn(s, s', id, x, y) <==> !AsksIn(s, s', id, y, x)
      {
        SoundJoinAsksOnce(s, id, l, s', x, y);
      }
    } else {
      MisreadAsksItself(s, id, birth, l, listing, s');
    }
  }

  lemma MisreadAsksItself(s: State, id: Id, birth: nat, l: Loc, listing: seq<NodeEntry>, s': State)
    requires Invariant(s) && LegibleTree(s.tree) && Joins(s, id, birth, l, listing, s') && !Legible(l.panel)
    ensures AsksIn(s, s', id, id, id) && id in s'.members && id in s'.members[id].links && id !in Earlier(s, id).links
  {
    hide *;
    WhoJoins(s, id, birth, l, listing, s');
    InvariantHasRecords(s);
    NewcomerTakes(s, id, birth, l, listing, s');
    MisreadNumber(s.tree, id, l, s'.tree);
    OwnPeerIffMisread(s'.tree, l);
    NewHasNoLinks(s, id);
    AsksItself(s, s', id, l);
  }

  lemma NewHasNoLinks(s: State, id: Id)
    requires Records(s) && id !in s.tree.at.Values
    ensures Earlier(s, id).links == {}
  {
  }

  lemma AsksItself(s: State, s': State, id: Id, l: Loc)
    requires id in s'.members && l.panel.Valid() && l.slot < 3 && s'.members[id].view == SentView(s'.tree, l)
    requires id in Asks({}, SentView(s'.tree, l), true) && Earlier(s, id).links == {}
    ensures AsksIn(s, s', id, id, id)
  {
  }

  /** If this step is a join, exactly one end of each new link is asked to connect. */
  ghost predicate JoinsAskOnce(s: State, s': State) {
    forall id, birth, l, listing | Joins(s, id, birth, l, listing, s') :: AskedOnce(s, s', id)
  }

  ghost predicate AskedOnceAt(run: seq<State>, i: nat)
    requires i + 1 < |run|
  {
    JoinsAskOnce(run[i], run[i+1])
  }

  /** All joins of a run made exactly one request for each new link if and only if nobody ever sat in a panel
      whose path is misread. */
  lemma RequestsIffLegible(run: seq<State>, n: nat)
    requires IsRun(run) && n < |run|
    ensures (forall i: nat | i < n :: AskedOnceAt(run, i)) <==> LegibleUntil(run, n)
  {
    hide *;
    if LegibleUntil(run, n) {
      forall i: nat | i < n
        ensures AskedOnceAt(run, i)
      {
        LegibleAsksOnce(run, n, i);
      }
    } else {
      var i := FirstMisread(run, n);
      MisreadDoesNotAskOnce(run, i - 1);
    }
  }

  lemma LegibleAsksOnce(run: seq<State>, n: nat, i: nat)
    requires IsRun(run) && i < n < |run| && LegibleUntil(run, n)
    ensures AskedOnceAt(run, i)
  {
    assert LegibleUntil(run, i) && LegibleTree(run[i].tree) && LegibleTree(run[i+1].tree);
    hide LegibleUntil, IsRun, LegibleTree, JoinsAskOnce, Invariant;
    RunsKeepInvariant(run, i);
    LegibleStepAsksOnce(run[i], run[i+1]);
  }

  lemma LegibleStepAsksOnce(s: State, s': State)
    requires Invariant(s) && LegibleTree(s.tree) && LegibleTree(s'.tree)
    ensures JoinsAskOnce(s, s')
  {
    hide LegibleTree, Joins, AskedOnce, Legible, Invariant;
    forall id, birth, l, listing | Joins(s, id, birth, l, listing, s')
      ensures AskedOnce(s, s', id)
    {
      NewSlotIsLegible(s, id, birth, l, listing, s');
      AskedOnceIffLegible(s, id, birth, l, listing, s');
    }
  }

  lemma MisreadDoesNotAskOnce(run: seq<State>, i: nat)
    requires IsRun(run) && i + 1 < |run| && LegibleUntil(run, i) && !LegibleTree(run[i+1].tree)
    ensures !AskedOnceAt(run, i)
  {
    assert StepAt(run, i) && LegibleTree(run[i].tree);
    hide LegibleUntil, IsRun, LegibleTree, JoinsAskOnce, Invariant, Records, Steps;
    RunsKeepInvariant(run, i);
    InvariantHasRecords(run[i]);
    MisreadStepAsksItself(run[i], run[i+1]);
  }

  lemma MisreadStepAsksItself(s: State, s': State)
    requires Invariant(s) && Records(s) && Steps(s, s') && LegibleTree(s.tree) && !LegibleTree(s'.tree)
    ensures !JoinsAskOnce(s, s')
  {
    hide LegibleTree, Joins, AskedOnce, Legible, Invariant, Records;
    MisreadByJoin(s, s');
    var id, birth, l, listing :| Joins(s, id, birth, l, listing, s') && !Legible(l.panel);
    AskedOnceIffLegible(s, id, birth, l, listing, s');
  }
}
