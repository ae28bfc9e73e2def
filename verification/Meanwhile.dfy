/** What a bystander sees between the announcements of one removal: because they come from the top down, no
    node that it keeps in its view is ever missing from it. */
module Meanwhile {
  import opened ClusterTree
  import opened Ids
  import opened Promotion
  import opened Paths
  import opened Views
  import opened Runs
  import opened Thinning

  /** The view of the holder of slot u after the first j announcements. */
  ghost function ViewAfter(t: Tree, births: Births, chain: seq<Loc>, u: Loc, j: nat): (v: NodePosition)
    requires t.Sound() && IsChain(t, births, chain) && u in t.at && j <= |chain|
    ensures v.WellShaped()
  {
    RemovalNewsIsTrue(t, births, chain);
    assert t.HasSlot(u);
    assert NewsOfSlots(RemovalNews(t, chain)[..j]);
    InboxAcceptable(Shifted(t, chain), RemovalNews(t, chain)[..j], u);
    ReceiveAll(View(t, u), Inbox(Shifted(t, chain), RemovalNews(t, chain)[..j], u))
  }

  /** What an announcement does to a view. */
  ghost function Told(w: NodePosition, own: Path, a: Announcement): (v: NodePosition)
    requires w.WellShaped() && own.Valid() && a.loc.panel.Valid() && a.loc.slot < 3
    ensures v.WellShaped()
  {
    if Near(own, a.loc.panel) then
      CodeSentIsSeen(own, a.loc);
      Move(w, CodeSent(own, a.loc), a.id)
    else w
  }

  /** The j-th announcement is about the j-th slot of the chain and the node that moves there. */
  lemma NewsAt(t: Tree, births: Births, chain: seq<Loc>, j: nat)
    requires t.Sound() && IsChain(t, births, chain) && j < |chain|
    ensures RemovalNews(t, chain)[j] == Announcement(chain[j], if j + 1 < |chain| then t.Get(chain[j+1]) else NOBODY)
    ensures |RemovalNews(t, chain)| == |chain| && chain[j] in t.at && chain[j].panel.Valid() && chain[j].slot < 3
  {
    RemovalEffect(t, births, chain);
    ChainShape(t, births, chain, j);
    assert t.HasSlot(chain[j]);
    if j + 1 == |chain| { assert chain[j] == Last(chain) && chain[j] !in Shifted(t, chain).at.Keys; }
  }

  lemma OneMoreTold(t: Tree, births: Births, chain: seq<Loc>, u: Loc, j: nat)
    requires t.Sound() && IsChain(t, births, chain) && u in t.at && u !in chain && j < |chain|
    ensures u.panel.Valid() && chain[j].panel.Valid() && chain[j].slot < 3
    ensures RemovalNews(t, chain)[j].loc == chain[j]
    ensures ViewAfter(t, births, chain, u, j + 1) ==
      Told(ViewAfter(t, births, chain, u, j), u.panel, RemovalNews(t, chain)[j])
  {
    var news, s := RemovalNews(t, chain), Shifted(t, chain);
    NewsAt(t, births, chain, j);
    assert t.HasSlot(u) && chain[j] in chain;
    RemovalNewsIsTrue(t, births, chain);
    assert NewsOfSlots(news[..j+1]);
    hide RemovalNews, IsChain, Tree.Sound, Shifted, Acceptable, Inbox, SentTo, ReceiveAll, Move, Near, Announced;
    InboxAcceptable(s, news[..j+1], u);
    InboxGrows(s, news, u, j);
    ReceiveMore(View(t, u), Inbox(s, news[..j], u), SentTo(s, news[j].loc, news[j].id, u));
    SentToBystander(s, news[j], u);
  }

  lemma InboxGrows(s: Tree, news: seq<Announcement>, u: Loc, j: nat)
    requires j < |news|
    ensures Inbox(s, news[..j+1], u) == Inbox(s, news[..j], u) + SentTo(s, news[j].loc, news[j].id, u)
  {
    assert news[..j+1][..j] == news[..j];
  }

  lemma SentToBystander(s: Tree, a: Announcement, u: Loc)
    requires a.loc != u
    ensures SentTo(s, a.loc, a.id, u) ==
      if Near(u.panel, a.loc.panel) then [Single(CodeSent(u.panel, a.loc), a.id)] else []
  {
  }

  /** An announcement about another slot and another node leaves an entry alone. */
  lemma EntryStays(w: NodePosition, own: Path, a: Announcement, p: nat)
    requires w.WellShaped() && own.Valid() && a.loc.panel.Valid() && a.loc.slot < 3 && p < 15
    requires w.At(p) != NOBODY && a.id != w.At(p) && SlotSeen(own, p) != a.loc && Legible(a.loc.panel)
    ensures Told(w, own, a).At(p) == w.At(p)
  {
    if Near(own, a.loc.panel) {
      LegibleCode(own, a.loc);
      CodeIsSeen(own, a.loc);
      ClearEntry(w, a.id, p);
    }
  }

  /** An announcement about a slot that is seen makes its entry. */
  lemma EntryComes(w: NodePosition, own: Path, a: Announcement, p: nat)
    requires w.WellShaped() && own.Valid() && a.loc.panel.Valid() && a.loc.slot < 3 && p < 15
    requires SlotSeen(own, p) == a.loc && Legible(a.loc.panel)
    ensures Told(w, own, a).At(p) == a.id
  {
    SeenIsNear(own, p);
    LegibleCode(own, a.loc);
    CodeIsSeen(own, a.loc);
    SlotSeenOnce(own, p, Code(own, a.loc));
  }

  /** Neither slot k nor node id is announced from the i-th announcement on up to the j-th. */
  ghost predicate Undisturbed(news: seq<Announcement>, i: nat, j: nat, k: Loc, id: Id)
    requires j <= |news|
  {
    forall n: nat | i <= n < j :: news[n].loc != k && news[n].id != id
  }

  /** After j announcements the holder of slot u has node id under position code p. */
  ghost predicate Sees(t: Tree, births: Births, chain: seq<Loc>, u: Loc, j: nat, p: nat, id: Id) {
    && t.Sound() && IsChain(t, births, chain) && LegibleTree(t) && u in t.at && u !in chain && u.panel.Valid()
    && j <= |chain| == |RemovalNews(t, chain)| && p < 15 && ViewAfter(t, births, chain, u, j).At(p) == id != NOBODY
  }

  lemma SeesOn(t: Tree, births: Births, chain: seq<Loc>, news: seq<Announcement>, u: Loc, j: nat, p: nat, id: Id)
    requires Sees(t, births, chain, u, j, p, id) && |chain| > 0 && j < |news| && news == RemovalNews(t, chain)
    requires p < 15 && news[j].loc != SlotSeen(u.panel, p) && news[j].id != id
    ensures Sees(t, births, chain, u, j + 1, p, id)
  {
    OneMoreTold(t, births, chain, u, j);
    ChainIsLegible(t, births, chain, j);
    hide ViewAfter, Told, IsChain, Tree.Sound, LegibleTree, Legible, RemovalNews, SlotSeen;
    EntryStays(ViewAfter(t, births, chain, u, j), u.panel, RemovalNews(t, chain)[j], p);
  }

  lemma {:induction false} EntryStaysLong(t: Tree, births: Births, chain: seq<Loc>, news: seq<Announcement>, u: Loc,
                                          i: nat, j: nat, p: nat, id: Id)
    requires |chain| > 0 && news == RemovalNews(t, chain) && i <= j <= |news| && p < 15
    requires Sees(t, births, chain, u, i, p, id) && Undisturbed(news, i, j, SlotSeen(u.panel, p), id)
    ensures Sees(t, births, chain, u, j, p, id)
    decreases j
  {
    hide *;
    if i < j {
      LessDisturbed(news, i, j, SlotSeen(u.panel, p), id);
      EntryStaysLong(t, births, chain, news, u, i, j - 1, p, id);
      SeesOn(t, births, chain, news, u, j - 1, p, id);
    }
  }

  lemma LessDisturbed(news: seq<Announcement>, i: nat, j: nat, k: Loc, id: Id)
    requires i < j <= |news| && Undisturbed(news, i, j, k, id)
    ensures Undisturbed(news, i, j - 1, k, id) && news[j-1].loc != k && news[j-1].id != id
  {
  }

  lemma ChainIsLegible(t: Tree, births: Births, chain: seq<Loc>, i: nat)
    requires t.Sound() && IsChain(t, births, chain) && LegibleTree(t) && i < |chain|
    ensures Legible(chain[i].panel)
  {
    ChainShape(t, births, chain, i);
  }

  /** Slots of a chain, and the nodes in them, are all different. */
  lemma ChainIsOneToOne(t: Tree, births: Births, chain: seq<Loc>, i: nat, j: nat)
    requires t.Sound() && IsChain(t, births, chain) && i < |chain| && j < |chain| && i != j
    ensures chain[i] != chain[j] && t.Get(chain[i]) != t.Get(chain[j]) && t.Get(chain[i]) != NOBODY
  {
    ChainShape(t, births, chain, i);
    ChainShape(t, births, chain, j);
  }

  lemma NewsIsAsLong(t: Tree, chain: seq<Loc>)
    requires |chain| > 0
    ensures |RemovalNews(t, chain)| == |chain|
  {
  }

  /** Who neither moves nor leaves is not announced, nor is its slot. */
  lemma StayersAreQuiet(t: Tree, births: Births, chain: seq<Loc>, k: Loc, j: nat)
    requires t.Sound() && IsChain(t, births, chain) && k in t.at && k !in chain && j <= |chain|
    ensures |RemovalNews(t, chain)| == |chain| && Undisturbed(RemovalNews(t, chain), 0, j, k, t.at[k])
  {
    hide *;
    ChainBegins(t, births, chain);
    NewsIsAsLong(t, chain);
    forall n: nat | n < j
      ensures RemovalNews(t, chain)[n].loc != k && RemovalNews(t, chain)[n].id != t.at[k]
    {
      StayerIsQuietAt(t, births, chain, k, n);
    }
    IsUndisturbed(RemovalNews(t, chain), 0, j, k, t.at[k]);
  }

  lemma StayerIsQuietAt(t: Tree, births: Births, chain: seq<Loc>, k: Loc, n: nat)
    requires t.Sound() && IsChain(t, births, chain) && k in t.at && k !in chain && n < |chain|
    ensures |RemovalNews(t, chain)| == |chain|
    ensures RemovalNews(t, chain)[n].loc != k && RemovalNews(t, chain)[n].id != t.at[k]
  {
    NewsAt(t, births, chain, n);
    if n + 1 < |chain| {
      ChainShape(t, births, chain, n + 1);
      assert chain[n+1] in chain && t.Get(chain[n+1]) == t.at[chain[n+1]];
    }
    hide RemovalNews;
  }

  lemma MoverIsQuietAt(t: Tree, births: Births, chain: seq<Loc>, i: nat, n: nat)
    requires t.Sound() && IsChain(t, births, chain) && i + 1 < |chain| && n < |chain| && n != i
    ensures |RemovalNews(t, chain)| == |chain|
    ensures RemovalNews(t, chain)[n].loc == chain[n] && RemovalNews(t, chain)[n].id != t.Get(chain[i+1])
    ensures chain[n] != chain[i] && (n != i + 1 ==> chain[n] != chain[i+1])
  {
    hide *;
    NewsAt(t, births, chain, n);
    ChainIsOneToOne(t, births, chain, n, i);
    ChainIsOneToOne(t, births, chain, i + 1, i);
    if n != i + 1 { ChainIsOneToOne(t, births, chain, n, i + 1); }
    if n + 1 < |chain| { ChainIsOneToOne(t, births, chain, n + 1, i + 1); }
  }

  /** The node that moves from slot i + 1 of a chain to slot i is announced once, there. */
  lemma MoversAreQuiet(t: Tree, births: Births, chain: seq<Loc>, i: nat, j: nat)
    requires t.Sound() && IsChain(t, births, chain) && i + 1 < |chain| && j <= |chain|
    ensures |RemovalNews(t, chain)| == |chain|
    ensures j <= i ==> Undisturbed(RemovalNews(t, chain), 0, j, chain[i+1], t.Get(chain[i+1]))
    ensures i < j ==> Undisturbed(RemovalNews(t, chain), i + 1, j, chain[i], t.Get(chain[i+1]))
  {
    hide *;
    ChainBegins(t, births, chain);
    NewsIsAsLong(t, chain);
    var news, id := RemovalNews(t, chain), t.Get(chain[i+1]);
    if j <= i {
      forall n: nat | n < j
        ensures news[n].loc != chain[i+1] && news[n].id != id
      {
        MoverIsQuietAt(t, births, chain, i, n);
      }
      IsUndisturbed(news, 0, j, chain[i+1], id);
    } else {
      forall n: nat | i + 1 <= n < j
        ensures news[n].loc != chain[i] && news[n].id != id
      {
        MoverIsQuietAt(t, births, chain, i, n);
      }
      IsUndisturbed(news, i + 1, j, chain[i], id);
    }
  }

  lemma IsUndisturbed(news: seq<Announcement>, i: nat, j: nat, k: Loc, id: Id)
    requires j <= |news| && forall n: nat | i <= n < j :: news[n].loc != k && news[n].id != id
    ensures Undisturbed(news, i, j, k, id)
  {
  }

  lemma NothingTold(t: Tree, births: Births, chain: seq<Loc>, u: Loc)
    requires t.Sound() && IsChain(t, births, chain) && u in t.at
    ensures u.panel.Valid() && u.slot < 3 && ViewAfter(t, births, chain, u, 0) == View(t, u)
  {
    assert t.HasSlot(u);
    assert RemovalNews(t, chain)[..0] == [];
  }

  lemma StayerIsSeen(t: Tree, births: Births, chain: seq<Loc>, u: Loc, j: nat, p: nat, k: Loc)
    requires t.Sound() && IsChain(t, births, chain) && LegibleTree(t) && u in t.at && u !in chain && j <= |chain|
    requires p < 15 && SlotSeen(u.panel, p) == k && k in t.at && k !in chain
    ensures Sees(t, births, chain, u, j, p, t.at[k])
  {
    StayersAreQuiet(t, births, chain, k, j);
    NothingTold(t, births, chain, u);
    assert t.at[k] != NOBODY;
    assert Sees(t, births, chain, u, 0, p, t.at[k]);
    hide *;
    EntryStaysLong(t, births, chain, RemovalNews(t, chain), u, 0, j, p, t.at[k]);
  }

  lemma MoverIsSeen(t: Tree, births: Births, chain: seq<Loc>, u: Loc, i: nat, j: nat, p: nat, q: nat)
    requires t.Sound() && IsChain(t, births, chain) && LegibleTree(t) && u in t.at && u !in chain && j <= |chain|
    requires i + 1 < |chain| && p < 15 && q < 15
    requires SlotSeen(u.panel, p) == chain[i+1] && SlotSeen(u.panel, q) == chain[i]
    ensures Sees(t, births, chain, u, j, if j <= i then p else q, t.Get(chain[i+1]))
  {
    hide *;
    MoversAreQuiet(t, births, chain, i, j);
    if j <= i {
      MoverWas(t, births, chain, u, i, p);
      EntryStaysLong(t, births, chain, RemovalNews(t, chain), u, 0, j, p, t.Get(chain[i+1]));
    } else {
      MoverComes(t, births, chain, u, i, q);
      EntryStaysLong(t, births, chain, RemovalNews(t, chain), u, i + 1, j, q, t.Get(chain[i+1]));
    }
  }

  lemma MoverWas(t: Tree, births: Births, chain: seq<Loc>, u: Loc, i: nat, p: nat)
    requires t.Sound() && IsChain(t, births, chain) && LegibleTree(t) && u in t.at && u !in chain
    requires i + 1 < |chain| && p < 15 && SlotSeen(u.panel, p) == chain[i+1]
    ensures Sees(t, births, chain, u, 0, p, t.Get(chain[i+1]))
  {
    NewsIsAsLong(t, chain);
    ChainIsOneToOne(t, births, chain, i + 1, i);
    NothingTold(t, births, chain, u);
    hide ViewAfter, IsChain, Tree.Sound, LegibleTree, RemovalNews;
  }

  lemma MoverComes(t: Tree, births: Births, chain: seq<Loc>, u: Loc, i: nat, q: nat)
    requires t.Sound() && IsChain(t, births, chain) && LegibleTree(t) && u in t.at && u !in chain
    requires i + 1 < |chain| && q < 15 && SlotSeen(u.panel, q) == chain[i]
    ensures Sees(t, births, chain, u, i + 1, q, t.Get(chain[i+1]))
  {
    NewsIsAsLong(t, chain);
    ChainIsOneToOne(t, births, chain, i + 1, i);
    OneMoreTold(t, births, chain, u, i);
    NewsAt(t, births, chain, i);
    ChainIsLegible(t, births, chain, i);
    hide ViewAfter, Told, IsChain, Tree.Sound, LegibleTree, Legible, RemovalNews, SlotSeen;
    EntryComes(ViewAfter(t, births, chain, u, i), u.panel, RemovalNews(t, chain)[i], q);
  }

  lemma WhereItWas(t: Tree, births: Births, chain: seq<Loc>, k: Loc, l: Loc) returns (i: nat)
    requires t.Sound() && IsChain(t, births, chain) && t.Get(k) == Shifted(t, chain).Get(l) != NOBODY
    ensures k in t.at && k == l ==> k !in chain
    ensures k != l ==> i + 1 < |chain| && l == chain[i] && k == chain[i+1]
  {
    RemovalEffect(t, births, chain);
    i := 0;
    if l in chain {
      i :| 0 <= i < |chain| && chain[i] == l;
      NewsAt(t, births, chain, i);
      if i + 1 < |chain| { ChainIsOneToOne(t, births, chain, i, i + 1); }
    }
  }

  /** A bystander that has a node in its view before a removal, and has it there afterwards, has it there all
      the time: in its old place, or already in its new one. */
  lemma NobodyIsMissed(t: Tree, births: Births, chain: seq<Loc>, u: Loc, j: nat, p: nat, q: nat)
    requires t.Sound() && IsChain(t, births, chain) && LegibleTree(t) && u in t.at && u !in chain && j <= |chain|
    requires p < 15 && q < 15 && u.panel.Valid() && u.slot < 3
    requires View(t, u).At(p) == View(Shifted(t, chain), u).At(q) != NOBODY
    ensures var v := ViewAfter(t, births, chain, u, j);
      v.At(p) == View(t, u).At(p) || v.At(q) == View(t, u).At(p)
  {
    var k, l := SlotSeen(u.panel, p), SlotSeen(u.panel, q);
    var i := WhereItWas(t, births, chain, k, l);
    hide ViewAfter, IsChain, Tree.Sound, SlotSeen, Shifted, RemovalNews, LegibleTree;
    if k == l {
      StayerIsSeen(t, births, chain, u, j, p, k);
    } else {
      MoverIsSeen(t, births, chain, u, i, j, p, q);
    }
  }
}
