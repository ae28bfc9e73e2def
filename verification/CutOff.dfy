/** What the first node in a panel whose path is misread does to the overlay: it is announced under the
    code of its sibling panel, and the node that sits there is cut off from everybody. */
module CutOff {
  import opened ClusterTree
  import opened Ids
  import opened Placement
  import opened Paths
  import opened Views
  import opened Overlay
  import opened Directory
  import opened FourthLevel
  import opened Runs

  // ---- Where nodes sit while all paths read right ----

  lemma JoinKeepsSparse(s: State, id: Id, birth: nat, l: Loc, listing: seq<NodeEntry>, s': State)
    requires Sparse(s.tree) && Joins(s, id, birth, l, listing, s') && LegibleTree(s'.tree)
    ensures Sparse(s'.tree)
  {
    NewSlotIsLegible(s, id, birth, l, listing, s');
    AddKeepsSparse(s.tree, id, l, s'.tree);
  }

  lemma StepKeepsSparse(s: State, s': State)
    requires Records(s) && Sparse(s.tree) && Steps(s, s') && LegibleTree(s'.tree)
    ensures Sparse(s'.tree)
  {
    hide Records, Joins, LegibleTree;
    if id, birth, l, listing :| Joins(s, id, birth, l, listing, s') {
      JoinKeepsSparse(s, id, birth, l, listing, s');
    } else {
      var chain :| Leaves(s, chain, s');
      CountsAfterLeave(s, chain, s');
      hide Leaves;
    }
  }

  lemma {:induction false} RunsAreSparse(run: seq<State>, n: nat)
    requires IsRun(run) && n < |run| && LegibleUntil(run, n)
    ensures Sparse(run[n].tree)
  {
    hide Sparse, Steps, Records;
    if n == 0 {
      NewIsSparse(run[0]);
    } else {
      RunsAreSparse(run, n - 1);
      RunsKeepRecords(run, n - 1);
      assert StepAt(run, n - 1);
      StepKeepsSparse(run[n-1], run[n]);
    }
  }

  lemma NewIsSparse(s: State)
    requires IsStart(s)
    ensures Sparse(s.tree)
  {
  }

  // ---- What is said about the first node in a panel 0 ----

  /** A newcomer to a panel 0 of the fourth level, next to a node in the sibling's slot of the same number. */
  ghost predicate TakenForSibling(t: Tree, id: Id, l: Loc) {
    && t.WellFormed() && Sparse(t) && id != NOBODY && id !in t.at.Values
    && l.panel.Valid() && l.panel.Level() == 3 && l.panel.Under? && l.panel.number == 0 && l.slot == 0
    && l !in t.at && t.Full(l.panel.up) && Sibling(l) in t.at
  }

  lemma FirstInPanelZero(t: Tree, id: Id, l: Loc, t': Tree)
    requires t.WellFormed() && Sparse(t) && Adds(t, id, l, t') && !Legible(l.panel)
    requires id != NOBODY && id !in t.at.Values
    ensures TakenForSibling(t, id, l)
  {
    NextOfSparse(t, id, l, t');
    PanelZeroNeedsMany(t, id, l, t');
  }

  lemma NearSibling(t: Tree, id: Id, l: Loc, u: Loc)
    requires TakenForSibling(t, id, l) && u in t.at
    ensures u.panel.Valid() && u.slot < 3 && !(u.panel.Under? && u.panel.up == l.panel)
    ensures Near(u.panel, l.panel) <==> Near(u.panel, Sibling(l).panel)
    ensures Near(u.panel, l.panel) ==>
      CodeSent(u.panel, l) < 15 && CodeSent(u.panel, l) == Code(u.panel, Sibling(l))
      && SlotSeen(u.panel, CodeSent(u.panel, l)) == Sibling(l)
  {
    assert t.HasSlot(u) && Under(l.panel.up, 1).Level() == 3;
    LegibleFourth(l.panel);
    if Near(u.panel, l.panel) {
      CodeOfSibling(u.panel, l, Under(l.panel.up, 1));
      CodeIsSeen(u.panel, Sibling(l));
    }
  }

  /** What the holder of slot u has for its view once it has heard of the newcomer. */
  ghost function Heard(t: Tree, id: Id, l: Loc, u: Loc): (v: NodePosition)
    requires TakenForSibling(t, id, l) && u in t.at
    ensures u.panel.Valid() && u.slot < 3 && v.WellShaped() && v.SamePlace(View(t, u))
  {
    NearSibling(t, id, l, u);
    if Near(u.panel, l.panel) then Move(View(t, u), CodeSent(u.panel, l), id) else View(t, u)
  }

  lemma FreshEntry(t: Tree, id: Id, u: Loc, pos: nat)
    requires t.WellFormed() && u in t.at && id != NOBODY && id !in t.at.Values && pos < 15
    ensures View(t, u).At(pos) != id
  {
  }

  /** The newcomer is entered for its sibling, and nothing else changes. */
  lemma HeardEntry(t: Tree, id: Id, l: Loc, u: Loc, pos: nat)
    requires TakenForSibling(t, id, l) && u in t.at && pos < 15
    ensures u.panel.Valid() && u.slot < 3
    ensures Heard(t, id, l, u).At(pos) ==
      if Near(u.panel, l.panel) && SlotSeen(u.panel, pos) == Sibling(l) then id else View(t, u).At(pos)
  {
    NearSibling(t, id, l, u);
    FreshEntry(t, id, u, pos);
    hide TakenForSibling, View;
    if Near(u.panel, l.panel) {
      ClearEntry(View(t, u), id, pos);
      if SlotSeen(u.panel, pos) == Sibling(l) { SlotSeenOnce(u.panel, pos, CodeSent(u.panel, l)); }
    }
  }

  /** Nobody has the sibling's node in its view any more. */
  lemma Forgotten(t: Tree, id: Id, l: Loc, u: Loc, pos: nat)
    requires TakenForSibling(t, id, l) && u in t.at && pos < 15
    ensures Heard(t, id, l, u).At(pos) != t.at[Sibling(l)]
  {
    HeardEntry(t, id, l, u, pos);
    NearSibling(t, id, l, u);
    SeenIsNear(u.panel, pos);
    assert t.at[Sibling(l)] in t.at.Values;
    hide Heard, Near, CodeSent, Sparse;
  }

  lemma NotListed(v: NodePosition, id: Id)
    requires v.WellShaped() && forall pos: nat | pos < 15 :: v.At(pos) != id
    ensures id !in Peers(v)
  {
  }

  lemma ForgottenByOthers(t: Tree, id: Id, l: Loc, u: Loc)
    requires TakenForSibling(t, id, l) && u in t.at
    ensures t.at[Sibling(l)] !in Peers(Heard(t, id, l, u))
  {
    forall pos: nat | pos < 15
      ensures Heard(t, id, l, u).At(pos) != t.at[Sibling(l)]
    {
      Forgotten(t, id, l, u, pos);
    }
    hide *;
    NotListed(Heard(t, id, l, u), t.at[Sibling(l)]);
  }

  /** The newcomer takes the sibling's place for its own, and itself for its panel mate. */
  lemma ForgottenByNewcomer(t: Tree, id: Id, l: Loc, t': Tree)
    requires TakenForSibling(t, id, l) && t'.WellFormed() && t'.at == t.at[l := id]
    ensures t.at[Sibling(l)] !in Peers(SentView(t', l))
  {
    var v, m := SentView(t', l), t.at[Sibling(l)];
    LegibleFourth(l.panel);
    assert t'.at[Sibling(l)] == m != NOBODY;
    forall pos: nat | pos < 15 && v.At(pos) == m
      ensures !PeerAt(v, pos)
    {
      assert SlotSeen(l.panel, pos) == Sibling(l);
      assert SlotSeen(l.panel, 3) == Sibling(l);
      SlotSeenOnce(l.panel, pos, 3);
    }
  }

  /** The sibling's node goes on listing the node above it. */
  lemma StillLists(t: Tree, id: Id, l: Loc)
    requires TakenForSibling(t, id, l)
    ensures t.at[Loc(l.panel.up, 0)] in Peers(Heard(t, id, l, Sibling(l)))
    ensures t.at[Loc(l.panel.up, 0)] != t.at[Sibling(l)]
  {
    var k, v := Sibling(l), Heard(t, id, l, Sibling(l));
    assert l.panel.up.Level() < k.panel.Level();
    assert SlotSeen(k.panel, 6) == Loc(l.panel.up, 0) != k;
    HeardEntry(t, id, l, k, 6);
    assert v.At(6) == t.at[Loc(l.panel.up, 0)] != NOBODY;
    assert v.PanelNumber() == View(t, k).PanelNumber() == 1 && v.partnerInt == 0;
    assert PeerAt(v, 6);
  }

  // ---- The state after such a join ----

  lemma InboxOfOne(t: Tree, id: Id, l: Loc, u: Loc)
    requires u != l
    ensures Inbox(t, [Announcement(l, id)], u) ==
      if Near(u.panel, l.panel) then [Single(CodeSent(u.panel, l), id)] else []
  {
    assert [Announcement(l, id)][..0] == [];
  }

  lemma ProcessMove(m: Member, pos: nat, id: Id)
    requires m.view.WellShaped() && pos < 15
    ensures Process(m, [Single(pos, id)]).links == Peers(Move(m.view, pos, id))
  {
    assert [Single(pos, id)][..0] == [];
    assert ReceiveAll(m.view, []) == m.view;
  }

  lemma LinksWere(s: State, u: Loc)
    requires Invariant(s) && u in s.tree.at
    ensures s.tree.at[u] in s.members && s.tree.Sound()
    ensures u.panel.Valid() && u.slot < 3 && s.members[s.tree.at[u]].view == View(s.tree, u)
    ensures s.members[s.tree.at[u]].links == Peers(View(s.tree, u))
  {
    assert Agrees(s, u);
  }

  lemma LinksAre(s: State, id: Id, l: Loc, listing: seq<NodeEntry>, s': State, u: Loc)
    requires ToldOfArrival(s, id, l, listing, s') && s'.tree.at == s.tree.at[l := id] && l !in s.tree.at
    requires u in s.tree.at
    ensures u != l && u in s'.tree.at && s'.tree.at[u] == s.tree.at[u] && s.tree.at[u] in s'.members
    ensures Earlier(s, s.tree.at[u]).view.WellShaped()
    ensures forall m | m in Inbox(s'.tree, [Announcement(l, id)], u) :: Acceptable(m)
    ensures s'.members[s.tree.at[u]].links ==
      Process(Earlier(s, s.tree.at[u]), Inbox(s'.tree, [Announcement(l, id)], u)).links
  {
    assert u != l && u in s'.tree.at && s'.tree.at[u] == s.tree.at[u];
    assert Informed(s, s', [Announcement(l, id)], u);
    hide Inbox, Process, Reads, IsListing, Acceptable;
  }

  lemma SiblingIsFree(t: Tree, id: Id, l: Loc)
    requires TakenForSibling(t, id, l)
    ensures l !in t.at && l.panel.Under? && Sibling(l) in t.at && Loc(l.panel.up, 0) in t.at
  {
  }

  lemma NothingHeard(m: Member)
    requires m.view.WellShaped()
    ensures Process(m, []) == m
  {
  }

  lemma HeardIs(t: Tree, id: Id, l: Loc, u: Loc)
    requires TakenForSibling(t, id, l) && u in t.at
    ensures u.panel.Valid() && u.slot < 3 && (Near(u.panel, l.panel) ==> CodeSent(u.panel, l) < 15)
    ensures Heard(t, id, l, u) ==
      if Near(u.panel, l.panel) then Move(View(t, u), CodeSent(u.panel, l), id) else View(t, u)
  {
    NearSibling(t, id, l, u);
    hide TakenForSibling, Near, CodeSent, Code, SlotSeen, Move, View;
  }

  /** The links of everybody who was there before. */
  lemma OthersTake(s: State, id: Id, l: Loc, listing: seq<NodeEntry>, s': State, u: Loc)
    requires Invariant(s) && TakenForSibling(s.tree, id, l) && ToldOfArrival(s, id, l, listing, s')
    requires s'.tree.at == s.tree.at[l := id] && u in s.tree.at
    ensures s.tree.at[u] in s'.members
    ensures s'.members[s.tree.at[u]].links == Peers(Heard(s.tree, id, l, u))
  {
    hide *;
    SiblingIsFree(s.tree, id, l);
    LinksWere(s, u);
    LinksAre(s, id, l, listing, s', u);
    HeardIs(s.tree, id, l, u);
    EarlierIs(s, s.tree.at[u]);
    InboxOfOne(s'.tree, id, l, u);
    if Near(u.panel, l.panel) {
      ProcessMove(Earlier(s, s.tree.at[u]), CodeSent(u.panel, l), id);
    } else {
      NothingHeard(Earlier(s, s.tree.at[u]));
    }
  }

  lemma EarlierIs(s: State, id: Id)
    requires id in s.members
    ensures Earlier(s, id) == s.members[id]
  {
  }

  /** Node m is linked to another live node, but nobody is linked to m. */
  ghost predicate IsCutOff(s: State, m: Id) {
    && m in s.members && (exists x :: x in s.members[m].links && x in s.members && x != m)
    && forall x | x in s.members :: m !in s.members[x].links
  }

  lemma SlotOfMember(s: State, id: Id, l: Loc, listing: seq<NodeEntry>, s': State, x: Id) returns (u: Loc)
    requires ToldOfArrival(s, id, l, listing, s') && s'.tree.at == s.tree.at[l := id] && x in s'.members
    ensures u in s'.tree.at && s'.tree.at[u] == x
    ensures u != l ==> u in s.tree.at && s.tree.at[u] == x
  {
    assert x in s'.tree.at.Values;
    u :| u in s'.tree.at && s'.tree.at[u] == x;
  }

  lemma NobodyLists(s: State, id: Id, birth: nat, l: Loc, listing: seq<NodeEntry>, s': State, x: Id)
    requires Invariant(s) && TakenForSibling(s.tree, id, l) && Joins(s, id, birth, l, listing, s')
    requires s'.tree.Sound() && x in s'.members
    ensures s.tree.at[Sibling(l)] !in s'.members[x].links
  {
    hide *;
    WhoJoins(s, id, birth, l, listing, s');
    SiblingIsFree(s.tree, id, l);
    InvariantHasRecords(s);
    var u := SlotOfMember(s, id, l, listing, s', x);
    if u == l {
      NewcomerTakes(s, id, birth, l, listing, s');
      ForgottenByNewcomer(s.tree, id, l, s'.tree);
    } else {
      OthersTake(s, id, l, listing, s', u);
      ForgottenByOthers(s.tree, id, l, u);
    }
  }

  /** The first node in a misread panel cuts off the node in its sibling's slot, which goes on being linked
      to the node above it. */
  lemma SiblingIsCutOff(s: State, id: Id, birth: nat, l: Loc, listing: seq<NodeEntry>, s': State)
    requires Invariant(s) && Sparse(s.tree) && Joins(s, id, birth, l, listing, s') && !Legible(l.panel)
    ensures TakenForSibling(s.tree, id, l) && IsCutOff(s', s.tree.at[Sibling(l)])
    ensures s.tree.at[Loc(l.panel.up, 0)] in s'.members[s.tree.at[Sibling(l)]].links
    ensures s.tree.at[Loc(l.panel.up, 0)] in s'.members
    ensures s.tree.at[Loc(l.panel.up, 0)] != s.tree.at[Sibling(l)]
  {
    hide *;
    WhoJoins(s, id, birth, l, listing, s');
    FirstInPanelZero(s.tree, id, l, s'.tree);
    SiblingIsFree(s.tree, id, l);
    forall x | x in s'.members
      ensures s.tree.at[Sibling(l)] !in s'.members[x].links
    {
      NobodyLists(s, id, birth, l, listing, s', x);
    }
    OthersTake(s, id, l, listing, s', Sibling(l));
    OthersTake(s, id, l, listing, s', Loc(l.panel.up, 0));
    StillLists(s.tree, id, l);
    CutOffBy(s', s.tree.at[Sibling(l)], s.tree.at[Loc(l.panel.up, 0)]);
  }

  lemma CutOffBy(s: State, m: Id, x: Id)
    requires m in s.members && x in s.members[m].links && x in s.members && x != m
    requires forall y | y in s.members :: m !in s.members[y].links
    ensures IsCutOff(s, m)
  {
  }

  lemma WhoJoins(s: State, id: Id, birth: nat, l: Loc, listing: seq<NodeEntry>, s': State)
    requires Invariant(s) && Joins(s, id, birth, l, listing, s')
    ensures s.tree.WellFormed() && Adds(s.tree, id, l, s'.tree) && id != NOBODY && id !in s.tree.at.Values
    ensures s'.tree.Sound() && s'.tree.WellFormed() && s'.tree.at == s.tree.at[l := id] && l.panel.Valid() && l.slot < 3
    ensures ToldOfArrival(s, id, l, listing, s')
  {
    AddKeepsSound(s.tree, id, l, s'.tree);
    assert l in s'.tree.at && s'.tree.HasSlot(l);
  }

  // ---- Exactly when the nodes' own links form the overlay ----

  ghost predicate Symmetric(s: State) {
    forall x, y | x in s.members && y in s.members :: y in s.members[x].links <==> x in s.members[y].links
  }

  ghost predicate Reaches(s: State, x: Id, y: Id) {
    exists n: nat :: Hops(s, x, y, n)
  }

  ghost predicate AllReach(s: State) {
    forall x, y | x in s.members && y in s.members :: Reaches(s, x, y)
  }

  ghost predicate NobodyIsCutOff(s: State) {
    forall m | m in s.members :: !IsCutOff(s, m)
  }

  lemma {:induction false} NoHopsTo(s: State, x: Id, m: Id, n: nat)
    requires x != m && forall y | y in s.members :: m !in s.members[y].links
    ensures !Hops(s, x, m, n)
    decreases n
  {
    if n > 0 && x in s.members {
      forall y | y in s.members[x].links
        ensures !Hops(s, y, m, n - 1)
      {
        NoHopsTo(s, y, m, n - 1);
      }
    }
  }

  lemma CutOffIsNotReached(s: State, m: Id)
    requires IsCutOff(s, m)
    ensures !Symmetric(s) && !AllReach(s) && !NobodyIsCutOff(s)
  {
    var x :| x in s.members[m].links && x in s.members && x != m;
    forall n: nat
      ensures !Hops(s, x, m, n)
    {
      NoHopsTo(s, x, m, n);
    }
    assert !Reaches(s, x, m);
  }

  lemma PairReaches(s: State, x: Id, y: Id)
    requires Invariant(s) && x in s.members && y in s.members
    ensures SoundLinks(s, x, y) && Reaches(s, x, y)
  {
    assert x in s.tree.at.Values && y in s.tree.at.Values;
    var a :| a in s.tree.at && s.tree.at[a] == x;
    var b :| b in s.tree.at && s.tree.at[b] == y;
    hide Invariant, SoundLinks, Hops;
    InvariantGivesLinks(s, a, b);
    InvariantGivesHops(s, a, b, a.panel.Level() + b.panel.Level() + 2);
  }

  lemma AgreementReaches(s: State)
    requires Invariant(s)
    ensures Symmetric(s) && AllReach(s) && NobodyIsCutOff(s)
  {
    hide Invariant, Reaches;
    forall x, y | x in s.members && y in s.members
      ensures SoundLinks(s, x, y) && Reaches(s, x, y)
    {
      PairReaches(s, x, y);
    }
  }

  lemma StepCutsOff(s: State, s': State) returns (m: Id)
    requires Invariant(s) && Records(s) && Sparse(s.tree) && Steps(s, s')
    requires LegibleTree(s.tree) && !LegibleTree(s'.tree)
    ensures IsCutOff(s', m)
  {
    hide Invariant, Records, Sparse, LegibleTree, IsCutOff, Joins, Legible, TakenForSibling;
    MisreadByJoin(s, s');
    var id, birth, l, listing :| Joins(s, id, birth, l, listing, s') && !Legible(l.panel);
    SiblingIsCutOff(s, id, birth, l, listing, s');
    SiblingIsFree(s.tree, id, l);
    m := s.tree.at[Sibling(l)];
  }

  /** When somebody comes to sit in a panel whose path is misread for the first time, some live node is then
      in nobody's links, while it is itself linked to another live node. */
  lemma MisreadCutsOff(run: seq<State>, n: nat) returns (i: nat, m: Id)
    requires IsRun(run) && n < |run| && !LegibleUntil(run, n)
    ensures 0 < i <= n && LegibleUntil(run, i - 1) && IsCutOff(run[i], m)
  {
    hide Invariant, Records, Steps, LegibleTree, IsCutOff, Sparse;
    i := FirstMisread(run, n);
    RunsKeepInvariant(run, i - 1);
    RunsAreSparse(run, i - 1);
    RunsKeepRecords(run, i - 1);
    assert StepAt(run, i - 1);
    m := StepCutsOff(run[i-1], run[i]);
  }

  lemma LegibleReaches(run: seq<State>, n: nat, i: nat)
    requires IsRun(run) && i <= n < |run| && LegibleUntil(run, n)
    ensures Symmetric(run[i]) && AllReach(run[i]) && NobodyIsCutOff(run[i])
  {
    assert LegibleUntil(run, i);
    hide *;
    RunsKeepInvariant(run, i);
    AgreementReaches(run[i]);
  }

  /** The nodes' own links have been symmetric all along, every live node has been able to reach every other
      one, nobody has been cut off: each of these holds if and only if nobody ever sat in a panel whose path
      is misread. */
  lemma OverlayIffLegible(run: seq<State>, n: nat)
    requires IsRun(run) && n < |run|
    ensures (forall i: nat | i <= n :: Symmetric(run[i])) <==> LegibleUntil(run, n)
    ensures (forall i: nat | i <= n :: AllReach(run[i])) <==> LegibleUntil(run, n)
    ensures (forall i: nat | i <= n :: NobodyIsCutOff(run[i])) <==> LegibleUntil(run, n)
  {
    hide *;
    if LegibleUntil(run, n) {
      forall i: nat | i <= n
        ensures Symmetric(run[i]) && AllReach(run[i]) && NobodyIsCutOff(run[i])
      {
        LegibleReaches(run, n, i);
      }
    } else {
      var i, m := MisreadCutsOff(run, n);
      CutOffIsNotReached(run[i], m);
    }
  }
}
