/** The parts fit together.  What the pool puts on the channels makes its joins and leaves steps of
    a run; a manager that processes its position messages has the view and the links of a member of
    the run, and asks for what the run says. */
module Conformance {
  import opened ClusterTree
  import opened Ids
  import opened Placement
  import opened Paths
  import opened Views
  import opened Overlay
  import opened Promotion
  import opened Capacity
  import opened Directory
  import opened NodeManagers
  import opened Handshake
  import CutOff
  import NodePools
  import PoolManager
  import Requests
  import Runs

  lemma ViewsHaveNoTwins(t: Tree, l: Loc)
    requires t.WellFormed() && l.panel.Valid() && l.slot < 3
    ensures NoTwins(View(t, l))
  {
  }

  /** The manager and its member agree. */
  ghost predicate Shows(m: Manager, x: Runs.Member) {
    m.curNodePosition == x.view && m.nodeStates == x.links
  }

  /** A manager without a client error that processes the announcements of a join or a leave ends
      with the view and the links that the run gives to the holder of slot k. */
  lemma ManagersAreInformed(s: Runs.State, s': Runs.State, news: seq<Announcement>, k: Loc, run: seq<Manager>)
    requires k in s'.tree.at && k.panel.Valid() && s'.tree.at[k] in s'.members
    requires Positioned(run, Inbox(s'.tree, news, k)) && NewsOfSlots(news)
    requires Runs.Earlier(s, s'.tree.at[k]).view.WellShaped()
    requires Shows(run[0], Runs.Earlier(s, s'.tree.at[k])) && Shows(run[|run|-1], s'.members[s'.tree.at[k]])
    ensures Runs.Informed(s, s', news, k)
  {
    var ms := Inbox(s'.tree, news, k);
    InboxAcceptable(s'.tree, news, k);
    LinksFollowViews(run, ms, |ms|);
    assert ms[..|ms|] == ms;
  }

  ghost predicate IsAsked(qs: seq<Question>, e: Event) {
    exists q :: q in qs && e == Asked(q.op, q.responseOp, q.target)
  }

  lemma {:induction false} EventOfQuestion(qs: seq<Question>, e: Event)
    ensures e in EventsOf(qs) <==> IsAsked(qs, e)
  {
    if qs != [] {
      var before, last := qs[..|qs|-1], qs[|qs|-1];
      EventOfQuestion(before, e);
      assert qs == before + [last];
    }
  }

  /** On a new position the client is told the position, is asked to connect to exactly the nodes that the rule
      names, and to disconnect from exactly those who are peers no more. */
  lemma RequestsAreAsks(m: Manager, v: NodePosition, promoted: bool, m': Manager) returns (events: seq<Event>)
    requires v.WellShaped() && NoTwins(v) && Updates(m, v, promoted, m')
    ensures m'.events == m.events + events && m'.nodeStates == Peers(v)
    ensures forall id :: Asked(CONNECT_NODE, SEND_OFFER, id) in events <==> id in Asks(m.nodeStates, v, promoted)
    ensures forall id ::
      Asked(DISCONNECT_NODE, DISCONNECT_NODE, id) in events <==> id in m.nodeStates && id !in Peers(v)
    ensures forall id :: Asked(UPDATE_NODE_POSITION, UPDATE_NODE_POSITION, id) in events <==> id == m.nodeID
  {
    var first, cs, ds :| UpdateRequests(m, v, promoted, first, cs, ds) && m' == Repositioned(m, v, [first] + cs + ds);
    var qs := [first] + cs + ds;
    AllUpdate(m, v, promoted, first, cs, ds);
    AskAllEvents(m, qs, OFFER, NOBODY);
    events := EventsOf(qs);
    hide UpdateRequests;
    forall id
      ensures Asked(CONNECT_NODE, SEND_OFFER, id) in events <==> id in Asks(m.nodeStates, v, promoted)
      ensures Asked(DISCONNECT_NODE, DISCONNECT_NODE, id) in events <==> id in m.nodeStates && id !in Peers(v)
      ensures Asked(UPDATE_NODE_POSITION, UPDATE_NODE_POSITION, id) in events <==> id == m.nodeID
    {
      EventOfQuestion(qs, Asked(CONNECT_NODE, SEND_OFFER, id));
      EventOfQuestion(qs, Asked(DISCONNECT_NODE, DISCONNECT_NODE, id));
      EventOfQuestion(qs, Asked(UPDATE_NODE_POSITION, UPDATE_NODE_POSITION, id));
      WhatIsAsked(m, v, promoted, first, cs, ds, id);
    }
  }

  lemma WhatIsAsked(m: Manager, v: NodePosition, promoted: bool, first: Question, cs: seq<Question>,
                    ds: seq<Question>, id: Id)
    requires v.WellShaped() && NoTwins(v) && UpdateRequests(m, v, promoted, first, cs, ds)
    ensures id in Asks(m.nodeStates, v, promoted) <==>
      IsAsked([first] + cs + ds, Asked(CONNECT_NODE, SEND_OFFER, id))
    ensures id in m.nodeStates && id !in Peers(v) <==>
      IsAsked([first] + cs + ds, Asked(DISCONNECT_NODE, DISCONNECT_NODE, id))
    ensures id == m.nodeID <==>
      IsAsked([first] + cs + ds, Asked(UPDATE_NODE_POSITION, UPDATE_NODE_POSITION, id))
  {
    assert first in [first] + cs + ds;
    assert forall q :: q in [first] + cs + ds <==> q == first || q in cs || q in ds;
    assert id in m.nodeStates - Peers(v) <==> exists q :: q in ds && q.target == id;
  }

  /** The announcement of a newcomer, as it reaches the holder of slot a. */
  lemma NewsOfJoin(t: Tree, id: Id, l: Loc, a: Loc)
    requires id != NOBODY && l.panel.Valid() && l.slot < 3 && Near(a.panel, l.panel)
    ensures Inbox(t, [Announcement(l, id)], a) ==
      if a == l then [Full(SentView(t, l))] else [Single(CodeSent(a.panel, l), id)]
  {
    if a == l { Runs.TellsItself(t, l, id); } else { CutOff.InboxOfOne(t, id, l, a); }
  }

  lemma NearNewcomer(s: Runs.State, id: Id, l: Loc, s': Runs.State, a: Loc, b: Loc)
    requires Requests.SoundJoin(s, id, l, s') && a in s'.tree.at && b in s'.tree.at && s'.tree.at[a] in s'.members
    requires s'.tree.at[b] in s'.members[s'.tree.at[a]].links
    requires s'.tree.at[b] !in Runs.Earlier(s, s'.tree.at[a]).links
    ensures id != NOBODY && l.panel.Valid() && l.slot < 3 && Near(a.panel, l.panel) && Near(b.panel, l.panel)
  {
    hide *;
    Requests.SoundJoinHas(s, id, l, s');
    Requests.IsLinkedNow(s', a, b);
    Requests.NotLinkedBefore(s, id, l, s', a, b);
    Runs.ArrivalAsksOnce(s.tree, id, l, s'.tree, a, b);
    LinkedAt(s'.tree, a, b);
    LinksAreSymmetric(s'.tree, a, b);
    BothTaken(s'.tree, a, b);
    LinkedAt(s'.tree, b, a);
    IsNearItself(l.panel);
  }

  lemma IsNearItself(p: Path)
    ensures Near(p, p)
  {
  }

  lemma BothTaken(t: Tree, a: Loc, b: Loc)
    requires t.WellFormed() && Linked(t, a, b)
    ensures a in t.at && b in t.at && a.panel.Valid() && b.panel.Valid() && a.slot < 3 && b.slot < 3
  {
  }

  /** A manager that takes in one position message, having been a member of the run before. */
  ghost predicate Hears(m: Manager, p: PositionMessage, m': Manager) {
    !m.clientErr && m.curNodePosition.WellShaped() && CanTake(m, Position(p)) && Steps(m, Position(p), m')
  }

  lemma HeardOne(x: Runs.Member, p: PositionMessage, m: Manager, m': Manager, y: Runs.Member)
    requires Shows(m, x) && Hears(m, p, m') && x.view.WellShaped() && Acceptable(p)
    requires y.view == Runs.Process(x, [p]).view
    ensures y.view == Receive(x.view, p) && Updates(m, Receive(x.view, p), p.Full?, m')
  {
    assert [p][..0] == [];
    assert ReceiveAll(x.view, []) == x.view;
  }

  /** The requests of the manager of slot a when it hears of the newcomer in slot l. */
  lemma RequestsOnArrival(s: Runs.State, id: Id, birth: nat, l: Loc, listing: seq<NodeEntry>, s': Runs.State,
                          a: Loc, m: Manager, p: PositionMessage, m': Manager)
    returns (es: seq<Event>)
    requires Runs.Invariant(s) && Runs.Joins(s, id, birth, l, listing, s') && Legible(l.panel)
    requires a in s'.tree.at && Near(a.panel, l.panel) && Inbox(s'.tree, [Announcement(l, id)], a) == [p]
    requires Shows(m, Runs.Earlier(s, s'.tree.at[a])) && Hears(m, p, m') && (p.Full? <==> a == l)
    ensures m'.events == m.events + es
    ensures forall y :: Asked(CONNECT_NODE, SEND_OFFER, y) in es <==> Requests.AsksIn(s, s', id, s'.tree.at[a], y)
  {
    hide *;
    var x := s'.tree.at[a];
    Requests.LegibleJoinIsSound(s, id, birth, l, listing, s');
    Requests.SoundJoinHas(s, id, l, s');
    Requests.LinksBefore(s, id, l, s', a);
    CutOff.WhoJoins(s, id, birth, l, listing, s');
    InformedBy(s, id, l, listing, s', a, p);
    HeardOne(Runs.Earlier(s, x), p, m, m', s'.members[x]);
    var c := Requests.MemberSits(s', x);
    ViewsHaveNoTwins(s'.tree, c);
    ShowsLinks(m, Runs.Earlier(s, x));
    es := RequestsAreAsks(m, s'.members[x].view, p.Full?, m');
    forall y
      ensures Asked(CONNECT_NODE, SEND_OFFER, y) in es <==> Requests.AsksIn(s, s', id, x, y)
    {
      AsksByRule(s, s', id, x, y);
    }
  }

  lemma ShowsLinks(m: Manager, x: Runs.Member)
    requires Shows(m, x)
    ensures m.nodeStates == x.links
  {
  }

  lemma InformedBy(s: Runs.State, id: Id, l: Loc, listing: seq<NodeEntry>, s': Runs.State, a: Loc, p: PositionMessage)
    requires Runs.ToldOfArrival(s, id, l, listing, s') && a in s'.tree.at
    requires Inbox(s'.tree, [Announcement(l, id)], a) == [p]
    ensures s'.tree.at[a] in s'.members && Runs.Earlier(s, s'.tree.at[a]).view.WellShaped() && Acceptable(p)
    ensures s'.members[s'.tree.at[a]].view == Runs.Process(Runs.Earlier(s, s'.tree.at[a]), [p]).view
  {
    assert Runs.Informed(s, s', [Announcement(l, id)], a);
    assert p in Inbox(s'.tree, [Announcement(l, id)], a);
    hide Inbox, Runs.Process, Acceptable, Runs.Reads, IsListing;
  }

  /** In runs without misread paths, each link that a join creates is asked for by exactly one of the managers
      of its two ends, when they take in what is on their channels; which one is settled by the slots. */
  lemma OneRequestPerLink(s: Runs.State, id: Id, birth: nat, l: Loc, listing: seq<NodeEntry>, s': Runs.State,
                          a: Loc, m: Manager, p: PositionMessage, m': Manager,
                          b: Loc, o: Manager, q: PositionMessage, o': Manager)
    returns (es: seq<Event>, fs: seq<Event>)
    requires Runs.Invariant(s) && Runs.Joins(s, id, birth, l, listing, s') && Legible(l.panel)
    requires a in s'.tree.at && b in s'.tree.at && s'.tree.at[a] in s'.members
    requires s'.tree.at[b] in s'.members[s'.tree.at[a]].links
    requires s'.tree.at[b] !in Runs.Earlier(s, s'.tree.at[a]).links
    requires Shows(m, Runs.Earlier(s, s'.tree.at[a])) && Shows(o, Runs.Earlier(s, s'.tree.at[b]))
    requires Inbox(s'.tree, [Announcement(l, id)], a) == [p] && Hears(m, p, m')
    requires Inbox(s'.tree, [Announcement(l, id)], b) == [q] && Hears(o, q, o')
    ensures m'.events == m.events + es && o'.events == o.events + fs
    ensures Asked(CONNECT_NODE, SEND_OFFER, s'.tree.at[b]) in es <==> Asker(a, b, a == l)
    ensures Asked(CONNECT_NODE, SEND_OFFER, s'.tree.at[b]) in es <==>
      Asked(CONNECT_NODE, SEND_OFFER, s'.tree.at[a]) !in fs
  {
    hide *;
    Requests.LegibleJoinIsSound(s, id, birth, l, listing, s');
    NearNewcomer(s, id, l, s', a, b);
    NewsOfJoin(s'.tree, id, l, a);
    NewsOfJoin(s'.tree, id, l, b);
    es := RequestsOnArrival(s, id, birth, l, listing, s', a, m, p, m');
    fs := RequestsOnArrival(s, id, birth, l, listing, s', b, o, q, o');
    Requests.SoundJoinAsksOnce(s, id, l, s', s'.tree.at[a], s'.tree.at[b]);
    Requests.JoinAsksBySlots(s, id, l, s', a, b);
  }

  lemma AsksByRule(s: Runs.State, s': Runs.State, newcomer: Id, x: Id, y: Id)
    requires x in s'.members && s'.members[x].view.WellShaped()
    ensures Requests.AsksIn(s, s', newcomer, x, y) <==>
      y in Asks(Runs.Earlier(s, x).links, s'.members[x].view, x == newcomer)
  {
  }

  // ---- From the pool's channels to the runs ----

  /** A member takes in what is on its channel: positions by the manager, news by the client. */
  function Read(m: Runs.Member, mail: seq<NodePools.ChanMessage>): Runs.Member {
    if mail == [] then m
    else
      var n := Read(m, mail[..|mail|-1]);
      match mail[|mail|-1]
      case Position(p) =>
        if n.view.WellShaped() && Acceptable(p)
        then n.(view := Receive(n.view, p), links := Peers(Receive(n.view, p)))
        else n
      case ToClient(d) => n.(directory := Apply(n.directory, d))
      case UserCame(_, _) => n
      case UserWent(_) => n
  }

  lemma {:induction false} ReadLetters(m: Runs.Member, ms: seq<PositionMessage>)
    requires m.view.WellShaped() && forall x | x in ms :: Acceptable(x)
    ensures Read(m, NodePools.Letters(ms)) == Runs.Process(m, ms)
  {
    if ms != [] {
      var before, last := ms[..|ms|-1], ms[|ms|-1];
      assert last in ms;
      assert NodePools.Letters(ms)[..|ms|-1] == NodePools.Letters(before);
      ReadLetters(m, before);
    }
  }

  lemma ReadMail(m: Runs.Member, ms: seq<PositionMessage>, d: DirectoryMessage)
    requires m.view.WellShaped() && forall x | x in ms :: Acceptable(x)
    ensures Read(m, NodePools.Letters(ms) + [NodePools.ToClient(d)]) ==
      Runs.Process(m, ms).(directory := Apply(m.directory, d))
  {
    var mail := NodePools.Letters(ms) + [NodePools.ToClient(d)];
    assert mail[..|mail|-1] == NodePools.Letters(ms);
    ReadLetters(m, ms);
  }

  /** The holder of slot k has taken in this mail. */
  ghost predicate Takes(s: Runs.State, s': Runs.State, k: Loc, mail: seq<NodePools.ChanMessage>)
    requires k in s'.tree.at
  {
    s'.tree.at[k] in s'.members && s'.members[s'.tree.at[k]] == Read(Runs.Earlier(s, s'.tree.at[k]), mail)
  }

  lemma EarlierIsShaped(s: Runs.State, id: Id)
    requires Runs.Records(s)
    ensures Runs.Earlier(s, id).view.WellShaped()
  {
    if id in s.members {
      assert id in s.tree.at.Values;
      var k :| k in s.tree.at && s.tree.at[k] == id;
      assert Runs.KnowsAll(s, k);
    }
  }

  /** If everybody takes in what a connect puts on the channels, the connect is a join of the run. */
  lemma ConnectIsJoin(s: Runs.State, s': Runs.State, id: Id, birth: nat, l: Loc, listing: seq<NodeEntry>)
    requires Runs.Records(s) && id != NOBODY && id !in s.tree.at.Values && birth > 0
    requires Adds(s.tree, id, l, s'.tree) && IsListing(s'.tree, listing)
    requires s'.births == s.births[id := birth] && s'.peak == Max(s.peak, |s'.tree.at|)
    requires s'.members.Keys == s'.tree.at.Values
    requires forall k | k in s'.tree.at :: Takes(s, s', k, PoolManager.ArrivalMail(s'.tree, l, id, k, listing))
    ensures Runs.Joins(s, id, birth, l, listing, s')
  {
    hide Runs.Records, Adds, Takes, NewsOfSlots, Tree.WellFormed, Runs.Informed, Runs.Reads, IsListing;
    hide PoolManager.ArrivalMail;
    ArrivalIsTrue(s, s', id, l);
    forall k | k in s'.tree.at
      ensures Runs.Informed(s, s', [Announcement(l, id)], k)
      ensures Runs.Reads(s, s', k, if k == l then InitPool(listing) else AddNode(NodeEntry(id, Reported(l.panel))))
    {
      ArrivalIsTaken(s, s', id, l, listing, k);
    }
  }

  lemma ArrivalIsTrue(s: Runs.State, s': Runs.State, id: Id, l: Loc)
    requires Runs.Records(s) && id != NOBODY && id !in s.tree.at.Values && Adds(s.tree, id, l, s'.tree)
    ensures s'.tree.WellFormed() && NewsOfSlots([Announcement(l, id)])
  {
    AddKeepsSound(s.tree, id, l, s'.tree);
    Runs.OnlyOneAnnounced(s.tree, s'.tree, id, l);
  }

  lemma ArrivalIsTaken(s: Runs.State, s': Runs.State, id: Id, l: Loc, listing: seq<NodeEntry>, k: Loc)
    requires Runs.Records(s) && s'.tree.WellFormed() && k in s'.tree.at && NewsOfSlots([Announcement(l, id)])
    requires Takes(s, s', k, PoolManager.ArrivalMail(s'.tree, l, id, k, listing))
    ensures Runs.Informed(s, s', [Announcement(l, id)], k)
    ensures Runs.Reads(s, s', k, if k == l then InitPool(listing) else AddNode(NodeEntry(id, Reported(l.panel))))
  {
    var m, news := Runs.Earlier(s, s'.tree.at[k]), [Announcement(l, id)];
    EarlierIsShaped(s, s'.tree.at[k]);
    InboxAcceptable(s'.tree, news, k);
    ReadMail(m, Inbox(s'.tree, news, k),
             if k == l then InitPool(listing) else AddNode(NodeEntry(id, Reported(l.panel))));
  }

  /** If everybody takes in what a disconnect puts on the channels, the disconnect is a leave of the run. */
  lemma DisconnectIsLeave(s: Runs.State, s': Runs.State, chain: seq<Loc>)
    requires Runs.Records(s) && IsChain(s.tree, s.births, chain) && s'.tree == Shifted(s.tree, chain)
    requires s'.births == s.births - {s.tree.at[chain[0]]} && s'.peak == s.peak
    requires s'.members.Keys == s'.tree.at.Values
    requires forall k | k in s'.tree.at :: Takes(s, s', k, PoolManager.DepartureMail(s.tree, chain, k))
    ensures Runs.Leaves(s, chain, s')
  {
    RemovalEffect(s.tree, s.births, chain);
    Runs.RemovalNewsIsTrue(s.tree, s.births, chain);
    var news := RemovalNews(s.tree, chain);
    var d := RemoveNode(s.tree.at[chain[0]], PromotedEntries(s.tree, chain));
    forall k | k in s'.tree.at
      ensures Runs.Informed(s, s', news, k) && Runs.Reads(s, s', k, d)
    {
      var m := Runs.Earlier(s, s'.tree.at[k]);
      EarlierIsShaped(s, s'.tree.at[k]);
      InboxAcceptable(s'.tree, news, k);
      ReadMail(m, Inbox(s'.tree, news, k), d);
    }
  }
}
