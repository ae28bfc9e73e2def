/** Whole runs of a pool: nodes join and leave one at a time, every node applies what it is
    sent, and after each join or leave the nodes' local states fit together. */
module Runs {
  import opened Sets
  import opened ClusterTree
  import opened Ids
  import opened Placement
  import opened Promotion
  import opened Capacity
  import opened Paths
  import opened Views
  import opened Overlay
  import opened Directory

  /** What one live node keeps: its view, the nodes it is linked to, and its client's directory. */
  datatype Member = Member(view: NodePosition, links: set<Id>, directory: Map)

  datatype State = State(tree: Tree, births: Births, members: map<Id, Member>, peak: nat)

  /** A node manager before its first message. */
  const NEWCOMER := Member(NEW_POSITION, {}, map[])

  /** Every position message replaces the view; the links always become the peers of the view. */
  function Process(m: Member, ms: seq<PositionMessage>): Member
    requires m.view.WellShaped() && forall x | x in ms :: Acceptable(x)
  {
    if ms == [] then m
    else m.(view := ReceiveAll(m.view, ms), links := Peers(ReceiveAll(m.view, ms)))
  }

  ghost predicate IsStart(s: State) {
    s.tree == NEW_TREE && s.births == map[] && s.members == map[] && s.peak == 0
  }

  function Earlier(s: State, id: Id): Member {
    if id in s.members then s.members[id] else NEWCOMER
  }

  /** The holder of slot k after a change of the tree, given the announcements of the change. */
  ghost predicate Informed(s: State, s': State, news: seq<Announcement>, k: Loc)
    requires k in s'.tree.at
  {
    var m := Earlier(s, s'.tree.at[k]);
    && s'.tree.at[k] in s'.members
    && m.view.WellShaped() && k.panel.Valid() && (forall x | x in Inbox(s'.tree, news, k) :: Acceptable(x))
    && s'.members[s'.tree.at[k]].view == Process(m, Inbox(s'.tree, news, k)).view
    && s'.members[s'.tree.at[k]].links == Process(m, Inbox(s'.tree, news, k)).links
  }

  /** The client of the holder of slot k reads one directory message. */
  ghost predicate Reads(s: State, s': State, k: Loc, m: DirectoryMessage)
    requires k in s'.tree.at
  {
    && s'.tree.at[k] in s'.members
    && s'.members[s'.tree.at[k]].directory == Apply(Earlier(s, s'.tree.at[k]).directory, m)
  }

  /** Everybody hears of the new node `id` in slot l, and the new node hears of everybody. */
  ghost predicate ToldOfArrival(s: State, id: Id, l: Loc, listing: seq<NodeEntry>, s': State) {
    && s'.members.Keys == s'.tree.at.Values
    && IsListing(s'.tree, listing)
    && (forall k {:trigger Informed(s, s', [Announcement(l, id)], k)} | k in s'.tree.at ::
          && Informed(s, s', [Announcement(l, id)], k)
          && Reads(s, s', k, if k == l then InitPool(listing) else AddNode(NodeEntry(id, Reported(l.panel)))))
  }

  ghost predicate Joins(s: State, id: Id, birth: nat, l: Loc, listing: seq<NodeEntry>, s': State) {
    && id != NOBODY && id !in s.tree.at.Values && birth > 0
    && Adds(s.tree, id, l, s'.tree)
    && s'.births == s.births[id := birth]
    && s'.peak == Max(s.peak, |s'.tree.at|)
    && ToldOfArrival(s, id, l, listing, s')
  }

  ghost predicate Leaves(s: State, chain: seq<Loc>, s': State) {
    && IsChain(s.tree, s.births, chain)
    && s'.tree == Shifted(s.tree, chain)
    && s'.births == s.births - {s.tree.at[chain[0]]}
    && s'.members.Keys == s'.tree.at.Values
    && s'.peak == s.peak
    && (forall k {:trigger Informed(s, s', RemovalNews(s.tree, chain), k)} | k in s'.tree.at ::
          && Informed(s, s', RemovalNews(s.tree, chain), k)
          && Reads(s, s', k, RemoveNode(s.tree.at[chain[0]], PromotedEntries(s.tree, chain))))
  }

  ghost predicate Steps(s: State, s': State) {
    || (exists id, birth, l, listing :: Joins(s, id, birth, l, listing, s'))
    || (exists chain :: Leaves(s, chain, s'))
  }

  ghost predicate StepAt(run: seq<State>, i: nat)
    requires i + 1 < |run|
  {
    Steps(run[i], run[i+1])
  }

  ghost predicate IsRun(run: seq<State>) {
    |run| > 0 && IsStart(run[0]) && forall i: nat | i < |run| - 1 :: StepAt(run, i)
  }

  // ---- The invariant ----

  /** The view and the links of the holder of slot k are what a recomputation from the tree gives. */
  ghost predicate Agrees(s: State, k: Loc)
    requires s.tree.WellFormed() && k in s.tree.at
  {
    && s.tree.at[k] in s.members
    && s.members[s.tree.at[k]].view == View(s.tree, k)
    && s.members[s.tree.at[k]].links == Peers(View(s.tree, k))
  }

  /** The holder of slot k has a view, and its client knows everybody, with the path that the server reads. */
  ghost predicate KnowsAll(s: State, k: Loc)
    requires k in s.tree.at
  {
    && s.tree.at[k] in s.members && s.members[s.tree.at[k]].view.WellShaped()
    && IsDirectory(s.tree, s.members[s.tree.at[k]].directory)
  }

  /** The tree is sound, has the least number of levels for the most nodes it ever held, and
      every live node has a creation time. */
  ghost predicate Accounted(s: State) {
    && s.tree.Sound()
    && LevelsFitPeak(s.tree.levels, s.peak) && |s.tree.at| <= s.peak
    && s.births.Keys == s.tree.at.Values && (forall id | id in s.births :: s.births[id] > 0)
  }

  /** What holds in trees of any depth. */
  ghost predicate Records(s: State) {
    && Accounted(s)
    && s.members.Keys == s.tree.at.Values
    && forall k {:trigger KnowsAll(s, k)} | k in s.tree.at :: KnowsAll(s, k)
  }

  /** What holds as long as all occupied panels read right. */
  ghost predicate Invariant(s: State) {
    Records(s) && forall k {:trigger Agrees(s, k)} | k in s.tree.at :: Agrees(s, k)
  }

  lemma StartInvariant(s: State)
    requires IsStart(s)
    ensures Invariant(s) && LegibleTree(s.tree)
  {
  }

  /** A node that is not announced holds a view that is stale at most at announced slots. */
  lemma StaleView(t: Tree, t': Tree, news: seq<Announcement>, k: Loc)
    requires t.WellFormed() && t'.WellFormed() && k in t.at
    requires forall l | !Announced(news, l) :: t.Get(l) == t'.Get(l)
    ensures StaleOnlyWhereAnnounced(t', news, k, View(t, k))
  {
  }

  lemma InformedAgrees(s: State, s': State, news: seq<Announcement>, k: Loc)
    requires s'.tree.WellFormed() && k in s'.tree.at && TrueNews(s'.tree, news) && Informed(s, s', news, k)
    requires Announced(news, k) ||
      (&& s.tree.WellFormed() && k in s.tree.at && s.tree.at[k] == s'.tree.at[k] && Agrees(s, k)
       && (forall l | !Announced(news, l) :: s.tree.Get(l) == s'.tree.Get(l)))
    ensures s'.members[s'.tree.at[k]].view == View(s'.tree, k)
    ensures s'.members[s'.tree.at[k]].links == Peers(View(s'.tree, k))
  {
    var m := Earlier(s, s'.tree.at[k]);
    if !Announced(news, k) { StaleView(s.tree, s'.tree, news, k); }
    NewsSettlesViews(s'.tree, news, k, m.view);
    if Announced(news, k) { AnnouncedHears(s'.tree, news, k); }
  }

  lemma {:induction false} AnnouncedHears(t: Tree, news: seq<Announcement>, k: Loc)
    requires t.WellFormed() && k in t.at && TrueNews(t, news) && Announced(news, k)
    ensures Inbox(t, news, k) != []
  {
    var a := news[|news|-1];
    if a.loc == k {
      assert a in news;
    } else {
      assert forall b | b in news[..|news|-1] :: b in news;
      var b :| b in news && b.loc == k;
      assert b in news[..|news|-1];
      AnnouncedHears(t, news[..|news|-1], k);
    }
  }

  lemma InformedIsShaped(s: State, s': State, news: seq<Announcement>, k: Loc)
    requires k in s'.tree.at && Informed(s, s', news, k)
    ensures s'.members[s'.tree.at[k]].view.WellShaped()
  {
  }

  lemma DirectoryAfterJoin(s: State, id: Id, l: Loc, listing: seq<NodeEntry>, s': State, k: Loc)
    requires Records(s) && s'.tree.WellFormed() && ToldOfArrival(s, id, l, listing, s') && k in s'.tree.at
    requires l !in s.tree.at && s'.tree.at == s.tree.at[l := id]
    ensures KnowsAll(s', k)
  {
    assert Informed(s, s', [Announcement(l, id)], k);
    InformedIsShaped(s, s', [Announcement(l, id)], k);
    hide Informed, NodePosition.WellShaped;
    if k == l {
      InitGivesDirectory(s'.tree, Earlier(s, id).directory, listing);
    } else {
      assert KnowsAll(s, k);
      AddKeepsDirectory(s.tree, id, l, s'.tree, s.members[s.tree.at[k]].directory);
    }
  }

  lemma OnlyOneAnnounced(t: Tree, t': Tree, id: Id, l: Loc)
    requires l !in t.at && t'.at == t.at[l := id] && t'.WellFormed()
    ensures forall k :: Announced([Announcement(l, id)], k) <==> k == l
    ensures forall k | k != l :: t.Get(k) == t'.Get(k)
    ensures Legible(l.panel) ==> TrueNews(t', [Announcement(l, id)])
    ensures NewsOfSlots([Announcement(l, id)])
  {
    assert [Announcement(l, id)][0] in [Announcement(l, id)];
    assert l in t'.at && t'.Get(l) == id;
  }

  lemma AgreesAfterJoin(s: State, id: Id, l: Loc, listing: seq<NodeEntry>, s': State, k: Loc)
    requires Invariant(s) && s'.tree.WellFormed() && ToldOfArrival(s, id, l, listing, s') && k in s'.tree.at
    requires l !in s.tree.at && s'.tree.at == s.tree.at[l := id] && Legible(l.panel)
    ensures Agrees(s', k)
  {
    var news := [Announcement(l, id)];
    OnlyOneAnnounced(s.tree, s'.tree, id, l);
    assert Informed(s, s', news, k);
    if k != l { assert Agrees(s, k); }
    InformedAgrees(s, s', news, k);
  }

  lemma JoinKeepsAccounts(s: State, id: Id, birth: nat, l: Loc, listing: seq<NodeEntry>, s': State)
    requires Accounted(s) && Joins(s, id, birth, l, listing, s')
    ensures Accounted(s')
  {
    AddKeepsSound(s.tree, id, l, s'.tree);
    AddKeepsPeak(s.tree, id, l, s'.tree, s.peak);
    BirthsGrow(s.births, id, birth, s.tree.at.Values);
  }

  lemma BirthsGrow(births: Births, id: Id, birth: nat, ids: set<Id>)
    requires births.Keys == ids && (forall i | i in births :: births[i] > 0) && birth > 0
    ensures var more := births[id := birth]; more.Keys == ids + {id} && forall i | i in more :: more[i] > 0
  {
  }

  lemma JoinKeepsRecords(s: State, id: Id, birth: nat, l: Loc, listing: seq<NodeEntry>, s': State)
    requires Records(s) && Joins(s, id, birth, l, listing, s')
    ensures Records(s')
  {
    JoinKeepsAccounts(s, id, birth, l, listing, s');
    forall k | k in s'.tree.at
      ensures KnowsAll(s', k)
    {
      DirectoryAfterJoin(s, id, l, listing, s', k);
    }
  }

  lemma JoinKeepsAgreement(s: State, id: Id, l: Loc, listing: seq<NodeEntry>, s': State)
    requires Invariant(s) && s'.tree.WellFormed() && ToldOfArrival(s, id, l, listing, s')
    requires l !in s.tree.at && s'.tree.at == s.tree.at[l := id] && Legible(l.panel)
    ensures forall k {:trigger Agrees(s', k)} | k in s'.tree.at :: Agrees(s', k)
  {
    forall k | k in s'.tree.at
      ensures Agrees(s', k)
    {
      AgreesAfterJoin(s, id, l, listing, s', k);
    }
  }

  lemma RemovalNewsIsTrue(t: Tree, births: Births, chain: seq<Loc>)
    requires t.Sound() && IsChain(t, births, chain)
    ensures LegibleTree(t) ==> TrueNews(Shifted(t, chain), RemovalNews(t, chain))
    ensures NewsOfSlots(RemovalNews(t, chain))
    ensures forall l :: Announced(RemovalNews(t, chain), l) <==> l in chain
  {
    RemovalEffect(t, births, chain);
    var news := RemovalNews(t, chain);
    forall a | a in news
      ensures a.loc in chain && a.loc in t.at && a.loc.panel.Valid() && a.loc.slot < 3
      ensures a.id == Shifted(t, chain).Get(a.loc)
    {
      var i :| 0 <= i < |news| && news[i] == a;
      assert chain[i] in t.at;
    }
    forall l | l in chain
      ensures Announced(news, l)
    {
      var i :| 0 <= i < |chain| && chain[i] == l;
      assert news[i] in news;
    }
  }

  lemma AgreesAfterLeave(s: State, chain: seq<Loc>, s': State, k: Loc)
    requires Invariant(s) && LegibleTree(s.tree) && Leaves(s, chain, s') && s'.tree.Sound() && k in s'.tree.at
    ensures Agrees(s', k)
  {
    var news := RemovalNews(s.tree, chain);
    RemovalNewsIsTrue(s.tree, s.births, chain);
    assert Informed(s, s', news, k);
    OthersStay(s.tree, s.births, chain, k);
    if k !in chain { assert Agrees(s, k); }
    InformedAgrees(s, s', news, k);
  }

  lemma OthersStay(t: Tree, births: Births, chain: seq<Loc>, k: Loc)
    requires t.Sound() && IsChain(t, births, chain) && k in Shifted(t, chain).at
    ensures forall l | l !in chain :: t.Get(l) == Shifted(t, chain).Get(l)
    ensures k in t.at && (k !in chain ==> t.at[k] == Shifted(t, chain).at[k])
  {
  }

  lemma LeaveKeepsRecords(s: State, chain: seq<Loc>, s': State)
    requires Records(s) && Leaves(s, chain, s')
    ensures Records(s')
  {
    RemovalKeepsSound(s.tree, s.births, chain);
    CountsAfterLeave(s, chain, s');
    forall k | k in s'.tree.at
      ensures KnowsAll(s', k)
    {
      DirectoryAfterLeave(s, chain, s', k);
    }
  }

  lemma LeaveKeepsAgreement(s: State, chain: seq<Loc>, s': State)
    requires Invariant(s) && LegibleTree(s.tree) && Leaves(s, chain, s') && s'.tree.Sound()
    ensures forall k {:trigger Agrees(s', k)} | k in s'.tree.at :: Agrees(s', k)
  {
    forall k | k in s'.tree.at
      ensures Agrees(s', k)
    {
      AgreesAfterLeave(s, chain, s', k);
    }
  }

  lemma CountsAfterLeave(s: State, chain: seq<Loc>, s': State)
    requires Records(s) && Leaves(s, chain, s')
    ensures s'.tree.levels == s.tree.levels && |s'.tree.at| <= |s.tree.at|
    ensures s'.births.Keys == s'.tree.at.Values && s'.tree.at.Keys <= s.tree.at.Keys
  {
    RemovalEffect(s.tree, s.births, chain);
    SubsetSize(s'.tree.at.Keys, s.tree.at.Keys);
  }

  lemma WasThere(s: State, chain: seq<Loc>, s': State, k: Loc) returns (was: Loc)
    requires Records(s) && Leaves(s, chain, s') && k in s'.tree.at
    ensures |chain| > 0 && chain[0] in s.tree.at && s'.tree == Shifted(s.tree, chain)
    ensures s.tree.Sound() && IsChain(s.tree, s.births, chain) && Informed(s, s', RemovalNews(s.tree, chain), k)
    ensures was in s.tree.at && s.tree.at[was] == s'.tree.at[k]
    ensures s'.tree.at[k] in s.members && IsDirectory(s.tree, s.members[s'.tree.at[k]].directory)
  {
    RemovalEffect(s.tree, s.births, chain);
    assert Informed(s, s', RemovalNews(s.tree, chain), k);
    assert s'.tree.at[k] in s.tree.at.Values;
    was :| was in s.tree.at && s.tree.at[was] == s'.tree.at[k];
    assert KnowsAll(s, was);
  }

  lemma KnowsAfterLeave(s: State, chain: seq<Loc>, s': State, k: Loc)
    requires Leaves(s, chain, s') && k in s'.tree.at && s'.tree.at[k] in s.members && s'.tree.at[k] in s'.members
    requires s'.members[s'.tree.at[k]].view.WellShaped()
    requires IsDirectory(s'.tree, Apply(s.members[s'.tree.at[k]].directory,
      RemoveNode(s.tree.at[chain[0]], PromotedEntries(s.tree, chain))))
    ensures KnowsAll(s', k)
  {
    assert Informed(s, s', RemovalNews(s.tree, chain), k);
    hide Informed, IsDirectory, Apply, NodePosition.WellShaped, PromotedEntries, Shifted, IsChain;
  }

  lemma DirectoryAfterLeave(s: State, chain: seq<Loc>, s': State, k: Loc)
    requires Records(s) && Leaves(s, chain, s') && k in s'.tree.at
    ensures KnowsAll(s', k)
  {
    hide *;
    var id := s'.tree.at[k];
    var was := WasThere(s, chain, s', k);
    InformedIsShaped(s, s', RemovalNews(s.tree, chain), k);
    RemoveKeepsDirectory(s.tree, s.births, chain, s.members[id].directory);
    KnowsAfterLeave(s, chain, s', k);
  }

  lemma StepKeepsRecords(s: State, s': State)
    requires Records(s) && Steps(s, s')
    ensures Records(s') && s.peak <= s'.peak
  {
    hide Records;
    if id, birth, l, listing :| Joins(s, id, birth, l, listing, s') {
      JoinKeepsRecords(s, id, birth, l, listing, s');
    } else {
      var chain :| Leaves(s, chain, s');
      LeaveKeepsRecords(s, chain, s');
    }
  }

  lemma StepKeepsInvariant(s: State, s': State)
    requires Invariant(s) && LegibleTree(s.tree) && Steps(s, s') && LegibleTree(s'.tree)
    ensures Invariant(s')
  {
    StepKeepsRecords(s, s');
    if id, birth, l, listing :| Joins(s, id, birth, l, listing, s') {
      NewSlotIsLegible(s, id, birth, l, listing, s');
      JoinKeepsAgreement(s, id, l, listing, s');
    } else {
      var chain :| Leaves(s, chain, s');
      LeaveKeepsAgreement(s, chain, s');
    }
  }

  lemma NewSlotIsLegible(s: State, id: Id, birth: nat, l: Loc, listing: seq<NodeEntry>, s': State)
    requires Joins(s, id, birth, l, listing, s')
    ensures l !in s.tree.at && s'.tree.at == s.tree.at[l := id] && l in s'.tree.at
    ensures LegibleTree(s'.tree) ==> Legible(l.panel)
    ensures LegibleTree(s.tree) && Legible(l.panel) ==> LegibleTree(s'.tree)
  {
    assert l in s'.tree.at;
  }

  /** In every state of every run the tree is sound, with the least number of levels for its peak, and
      every client's directory is what the server reads. */
  lemma {:induction false} RunsKeepRecords(run: seq<State>, n: nat)
    requires IsRun(run) && n < |run|
    ensures Records(run[n])
    ensures forall i: nat | i <= n :: run[i].peak <= run[n].peak
  {
    hide Invariant, Records, Steps, IsStart;
    if n == 0 {
      StartInvariant(run[0]);
      InvariantHasRecords(run[0]);
    } else {
      RunsKeepRecords(run, n - 1);
      assert StepAt(run, n - 1);
      StepKeepsRecords(run[n-1], run[n]);
    }
  }

  lemma InvariantHasRecords(s: State)
    requires Invariant(s)
    ensures Records(s)
  {
  }

  /** Up to state n nobody ever sat in a panel whose path is misread. */
  ghost predicate LegibleUntil(run: seq<State>, n: nat)
    requires n < |run|
  {
    forall i: nat | i <= n :: LegibleTree(run[i].tree)
  }

  /** As long as nobody sits in a panel whose path is misread, every live node's view and links agree
      with the tree after each join or leave. */
  lemma {:induction false} RunsKeepInvariant(run: seq<State>, n: nat)
    requires IsRun(run) && n < |run| && LegibleUntil(run, n)
    ensures Invariant(run[n])
  {
    hide Invariant, Steps, IsStart, LegibleTree;
    if n == 0 {
      StartInvariant(run[0]);
    } else {
      RunsKeepInvariant(run, n - 1);
      assert StepAt(run, n - 1);
      StepKeepsInvariant(run[n-1], run[n]);
    }
  }

  // ---- Exactly when views agree, and when nobody is linked to itself ----

  /** The newcomer's view and links are made of the one message that it is sent. */
  lemma NewcomerTakes(s: State, id: Id, birth: nat, l: Loc, listing: seq<NodeEntry>, s': State)
    requires Records(s) && Joins(s, id, birth, l, listing, s') && s'.tree.Sound()
    ensures l in s'.tree.at && s'.tree.at[l] == id && id in s'.members
    ensures s'.members[id].view == SentView(s'.tree, l) && s'.members[id].links == Peers(SentView(s'.tree, l))
  {
    assert l in s'.tree.at && s'.tree.HasSlot(l);
    assert Informed(s, s', [Announcement(l, id)], l);
    hide Adds, Records, ToldOfArrival, Inbox, SentView, ReceiveAll, Peers, Tree.Sound;
    TellsItself(s'.tree, l, id);
    ProcessOne(Earlier(s, id), SentView(s'.tree, l));
  }

  lemma TellsItself(t: Tree, l: Loc, id: Id)
    requires id != NOBODY && l.panel.Valid() && l.slot < 3
    ensures Inbox(t, [Announcement(l, id)], l) == [Full(SentView(t, l))]
  {
    assert [Announcement(l, id)][..0] == [];
  }

  lemma ProcessOne(m: Member, v: NodePosition)
    requires m.view.WellShaped() && v.WellShaped() && v.path != []
    ensures Process(m, [Full(v)]) == m.(view := v, links := Peers(v))
  {
    assert [Full(v)][..0] == [];
  }

  /** A node in a misread panel comes by a join. */
  lemma MisreadByJoin(s: State, s': State)
    requires Records(s) && Steps(s, s') && LegibleTree(s.tree) && !LegibleTree(s'.tree)
    ensures exists id, birth, l, listing :: Joins(s, id, birth, l, listing, s') && !Legible(l.panel)
  {
    if id, birth, l, listing :| Joins(s, id, birth, l, listing, s') {
      NewSlotIsLegible(s, id, birth, l, listing, s');
    } else {
      var chain :| Leaves(s, chain, s');
      CountsAfterLeave(s, chain, s');
    }
  }

  lemma AgreeingView(s: State, k: Loc)
    requires Records(s) && k in s.tree.at && s.tree.at[k] in s.members
    ensures Invariant(s) ==> s.members[s.tree.at[k]].view == View(s.tree, k)
  {
    if Invariant(s) { assert Agrees(s, k); }
  }

  lemma DisagreesWhenMisread(s: State, s': State)
    requires Records(s) && Steps(s, s') && LegibleTree(s.tree) && !LegibleTree(s'.tree) && Records(s')
    ensures !Invariant(s')
    ensures exists id :: id in s'.members && id in s'.members[id].links
  {
    MisreadByJoin(s, s');
    var id, birth, l, listing :| Joins(s, id, birth, l, listing, s') && !Legible(l.panel);
    NewcomerTakes(s, id, birth, l, listing, s');
    NewSlotIsLegible(s, id, birth, l, listing, s');
    AgreeingView(s', l);
    MisreadNumber(s.tree, id, l, s'.tree);
    OwnPeerIffMisread(s'.tree, l);
  }

  /** When all others sit in panels that read right, a misread path is misread in its last element. */
  lemma MisreadNumber(t: Tree, id: Id, l: Loc, t': Tree)
    requires t'.Sound() && t'.at == t.at[l := id] && LegibleTree(t) && !Legible(l.panel)
    ensures AsRead(l.panel).number != l.panel.number
  {
    if AsRead(l.panel).number == l.panel.number {
      NumbersMakePaths(t', l);
    }
  }

  /** All views and links of all states of a run agree with the tree if and only if nobody ever sits
      in a panel whose path is misread. */
  lemma {:induction false} ViewsAgreeIffLegible(run: seq<State>, n: nat)
    requires IsRun(run) && n < |run|
    ensures (forall i: nat | i <= n :: Invariant(run[i])) <==> LegibleUntil(run, n)
  {
    hide Invariant, Records, Steps, LegibleTree;
    if LegibleUntil(run, n) {
      forall i: nat | i <= n
        ensures Invariant(run[i])
      {
        RunsKeepInvariant(run, i);
      }
    } else {
      var i := FirstMisread(run, n);
      RunsKeepRecords(run, i - 1);
      RunsKeepRecords(run, i);
      assert StepAt(run, i - 1);
      DisagreesWhenMisread(run[i-1], run[i]);
    }
  }

  /** No node is ever linked to itself if and only if nobody ever sits in a panel whose path is misread. */
  lemma SelfLinksIffMisread(run: seq<State>, n: nat)
    requires IsRun(run) && n < |run|
    ensures (forall i: nat, id | i <= n && id in run[i].members ::
      id !in run[i].members[id].links) <==> LegibleUntil(run, n)
  {
    hide Invariant, Records, Steps, LegibleTree;
    if LegibleUntil(run, n) {
      forall i: nat, id | i <= n && id in run[i].members
        ensures id !in run[i].members[id].links
      {
        RunsKeepInvariant(run, i);
        NoSelfLinks(run[i], id);
      }
    } else {
      var i := FirstMisread(run, n);
      RunsKeepRecords(run, i - 1);
      RunsKeepRecords(run, i);
      assert StepAt(run, i - 1);
      DisagreesWhenMisread(run[i-1], run[i]);
    }
  }

  lemma NoSelfLinks(s: State, id: Id)
    requires Invariant(s) && id in s.members
    ensures id !in s.members[id].links
  {
    assert id in s.tree.at.Values;
    var k :| k in s.tree.at && s.tree.at[k] == id;
    assert Agrees(s, k);
    DegreeBound(s.tree, k);
  }

  lemma {:induction false} FirstMisread(run: seq<State>, n: nat) returns (i: nat)
    requires IsRun(run) && n < |run| && !LegibleUntil(run, n)
    ensures 0 < i <= n && LegibleUntil(run, i - 1) && LegibleTree(run[i-1].tree) && !LegibleTree(run[i].tree)
  {
    hide LegibleTree, IsStart, StepAt;
    StartIsLegible(run);
    if n > 0 && LegibleUntil(run, n - 1) {
      i := n;
    } else {
      i := FirstMisread(run, n - 1);
    }
  }

  lemma StartIsLegible(run: seq<State>)
    requires IsRun(run)
    ensures LegibleTree(run[0].tree)
  {
    StartInvariant(run[0]);
  }

  // ---- The overlay of a run, in terms of the nodes' own link sets ----

  ghost predicate Hops(s: State, a: Id, b: Id, n: nat)
    decreases n
  {
    a == b || (n > 0 && a in s.members && exists c :: c in s.members[a].links && Hops(s, c, b, n - 1))
  }

  lemma {:induction false} WithinIsHops(s: State, a: Loc, b: Loc, n: nat)
    requires Invariant(s) && a in s.tree.at && b in s.tree.at && Within(s.tree, a, b, n)
    ensures Hops(s, s.tree.at[a], s.tree.at[b], n)
    decreases n
  {
    if a != b {
      var c :| Linked(s.tree, a, c) && Within(s.tree, c, b, n - 1);
      WithinIsHops(s, c, b, n - 1);
      assert Agrees(s, a);
    }
  }

  /** As long as nobody sits in a panel whose path is misread, the nodes' own link sets form a symmetric
      network of degree at most 6, without self-links, among live nodes, connected, in which nodes at
      levels d and e are at most d + e + 2 hops apart. */
  lemma RunsKeepOverlay(run: seq<State>, n: nat, a: Loc, b: Loc, hops: nat)
    requires IsRun(run) && n < |run| && LegibleUntil(run, n) && a in run[n].tree.at && b in run[n].tree.at
    requires hops == a.panel.Level() + b.panel.Level() + 2
    ensures SoundLinks(run[n], run[n].tree.at[a], run[n].tree.at[b])
    ensures Hops(run[n], run[n].tree.at[a], run[n].tree.at[b], hops)
  {
    RunsKeepInvariant(run, n);
    InvariantGivesLinks(run[n], a, b);
    InvariantGivesHops(run[n], a, b, hops);
  }

  ghost predicate SoundLinks(s: State, x: Id, y: Id) {
    && x in s.members && y in s.members
    && (y in s.members[x].links <==> x in s.members[y].links)
    && |s.members[x].links| <= 6 && x !in s.members[x].links
    && s.members[x].links <= s.members.Keys
  }

  lemma InvariantGivesLinks(s: State, a: Loc, b: Loc)
    requires Invariant(s) && a in s.tree.at && b in s.tree.at
    ensures SoundLinks(s, s.tree.at[a], s.tree.at[b])
  {
    assert Agrees(s, a) && Agrees(s, b);
    LinksAreSymmetric(s.tree, a, b);
    DegreeBound(s.tree, a);
    PeersAreLive(s.tree, a);
  }

  lemma InvariantGivesHops(s: State, a: Loc, b: Loc, n: nat)
    requires Invariant(s) && a in s.tree.at && b in s.tree.at && n == a.panel.Level() + b.panel.Level() + 2
    ensures Hops(s, s.tree.at[a], s.tree.at[b], n)
  {
    assert s.tree.Sound();
    hide *;
    Connected(s.tree, a, b, n - 2);
    WithinIsHops(s, a, b, n);
  }

  lemma PeersAreLive(t: Tree, a: Loc)
    requires t.WellFormed() && a in t.at
    ensures Peers(View(t, a)) <= t.at.Values
  {
  }

  /** The full-ancestor property over whole runs. */
  lemma RunsKeepAncestorsFull(run: seq<State>, n: nat, p: Path, l: Loc)
    requires IsRun(run) && n < |run| && l in run[n].tree.at && l.panel.IsBelow(p)
    ensures run[n].tree.Full(p)
  {
    RunsKeepRecords(run, n);
    AncestorsAreFull(run[n].tree, p, l);
  }

  /** At any time the tree has the least number of levels, at least one, that holds as many nodes
      as were ever live at once. */
  lemma RunsHaveLeastLevels(run: seq<State>, n: nat, levels: nat)
    requires IsRun(run) && n < |run|
    ensures run[n].peak <= 9 * (Pow2(run[n].tree.levels) - 1)
    ensures 1 <= levels && run[n].peak <= 9 * (Pow2(levels) - 1) ==> run[n].tree.levels <= levels
  {
    RunsKeepRecords(run, n);
    if 1 <= levels && run[n].peak <= 9 * (Pow2(levels) - 1) {
      LevelsAreLeast(run[n].tree.levels, run[n].peak, levels);
    }
  }

  // ---- One initiator ----

  /** The requests the holder of slot a issues for the node in slot b while processing the
      arrival of a node in slot l. */
  ghost predicate AsksFor(t: Tree, l: Loc, t': Tree, a: Loc, b: Loc)
    requires t.WellFormed() && t'.WellFormed() && a in t'.at && b in t'.at && (a == l || a in t.at)
  {
    if a == l then t'.at[b] in Asks({}, View(t', l), true)
    else t'.at[b] in Asks(Peers(View(t, a)), View(t', a), false)
  }

  lemma AsksAt(t: Tree, a: Loc, b: Loc, links: set<Id>, promoted: bool)
    requires t.WellFormed() && a in t.at && b in t.at && Linked(t, a, b) && t.at[b] !in links
    requires Near(a.panel, b.panel)
    ensures t.at[b] in Asks(links, View(t, a), promoted) <==> Initiates(View(t, a), promoted, Code(a.panel, b))
  {
  }

  /** Every link that an arrival creates has the new node at one end, and exactly one of
      its two ends issues the request to connect. */
  lemma ArrivalAsksOnce(t: Tree, id: Id, l: Loc, t': Tree, a: Loc, b: Loc)
    requires t.Sound() && Adds(t, id, l, t') && id != NOBODY && id !in t.at.Values
    requires t'.WellFormed() && Linked(t', a, b) && !Linked(t, a, b)
    ensures a == l || b == l
    ensures AsksFor(t, l, t', a, b) <==> !AsksFor(t, l, t', b, a)
  {
    AddKeepsSound(t, id, l, t');
    if a != l && b != l {
      NewLinksHaveNewcomer(t, id, l, t', a, b);
      assert false;
    }
    LinkShape(t', a, b);
    var o := if a == l then b else a;
    LinksAreSymmetric(t', a, b);
    OneEndInitiates(t', l, o);
    PeersAreLive(t, o);
    AsksAt(t', l, o, {}, true);
    AsksAt(t', o, l, Peers(View(t, o)), false);
  }

  // ---- Round trip ----

  /** A device that comes a second time gets a second slot. The node map then has the newer node only;
      nobody is below that one, so that it leaves alone, and the older one stays in its slot, with an id
      under which the node map has nobody to remove. */
  lemma ComeTwiceAndGo(t: Tree, id: Id, k: Loc, l: Loc, t': Tree, births: Births, chain: seq<Loc>)
    requires t.Sound() && k in t.at && t.at[k] == id && Adds(t, id, l, t')
    requires IsChain(t', births, chain) && chain[0] == l
    ensures !t'.Sound() && k != l && t'.Get(k) == t'.Get(l) == id
    ensures chain == [l] && Shifted(t', chain).at == t.at && Shifted(t', chain).Get(k) == id
  {
    NewcomerHasSupport(t, id, l, t');
    AddNeedsFreshId(t, id, l, t');
    assert t.at[k] in t.at.Values;
    if |chain| > 1 {
      NoStepFromEnd(t', births, chain, 0);
      assert false;
    }
  }

  /** A node that leaves right after it came promotes nobody, and everybody else is where
      it was, even when its arrival grew the tree. */
  lemma ComeAndGo(t: Tree, id: Id, l: Loc, t': Tree, births: Births, chain: seq<Loc>)
    requires t.Sound() && Adds(t, id, l, t') && id != NOBODY && id !in t.at.Values
    requires IsChain(t', births, chain) && t'.at[chain[0]] == id
    ensures chain == [l] && Shifted(t', chain).at == t.at
  {
    AddKeepsSound(t, id, l, t');
    assert chain[0] == l;
    if |chain| > 1 {
      NoStepFromEnd(t', births, chain, 0);
      assert false;
    }
  }
}
