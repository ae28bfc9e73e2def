/** The replicated node directory: what clients are sent, and what they make of it. */
module Directory {
  import opened ClusterTree
  import opened Ids
  import opened Paths
  import opened Promotion

  datatype NodeEntry = NodeEntry(id: Id, path: seq<int>)

  datatype DirectoryMessage =
    | InitPool(nodes: seq<NodeEntry>)
    | AddNode(node: NodeEntry)
    | RemoveNode(id: Id, promoted: seq<NodeEntry>)

  type Map = map<Id, seq<int>>

  function Enter(d: Map, es: seq<NodeEntry>): Map {
    if es == [] then d else Enter(d, es[..|es|-1])[es[|es|-1].id := es[|es|-1].path]
  }

  /** A client's reading of the messages. */
  function Apply(d: Map, m: DirectoryMessage): Map {
    match m
    case InitPool(es) => Enter(map[], es)
    case AddNode(e) => d[e.id := e.path]
    case RemoveNode(id, es) => Enter(d - {id}, es)
  }

  /** d maps exactly the live nodes to the paths that their panels read. */
  ghost predicate IsDirectory(t: Tree, d: Map) {
    d.Keys == t.at.Values && forall l | l in t.at :: d[t.at[l]] == Reported(l.panel)
  }

  /** es lists the live nodes, in any order. */
  ghost predicate IsListing(t: Tree, es: seq<NodeEntry>) {
    && (forall e | e in es :: exists l :: l in t.at && e == NodeEntry(t.at[l], Reported(l.panel)))
    && (forall l | l in t.at :: NodeEntry(t.at[l], Reported(l.panel)) in es)
  }

  /** The promoted nodes of a removal, each with the path of the panel it moved into. */
  function PromotedEntries(t: Tree, chain: seq<Loc>): seq<NodeEntry>
    requires |chain| > 0
  {
    seq(|chain| - 1, (i: nat) requires i < |chain| - 1 => NodeEntry(t.Get(chain[i+1]), Reported(chain[i].panel)))
  }

  lemma {:induction false} EnterAt(d: Map, es: seq<NodeEntry>, id: Id, p: seq<int>)
    requires forall e | e in es && e.id == id :: e.path == p
    ensures NodeEntry(id, p) in es ==> id in Enter(d, es) && Enter(d, es)[id] == p
    ensures NodeEntry(id, p) !in es ==> (id in Enter(d, es) <==> id in d) && (id in d ==> Enter(d, es)[id] == d[id])
  {
    if es != [] {
      var before, last := es[..|es|-1], es[|es|-1];
      assert es == before + [last];
      assert last in es;
      EnterAt(d, before, id, p);
    }
  }

  lemma {:induction false} EnteredFrom(d: Map, es: seq<NodeEntry>, id: Id) returns (p: seq<int>)
    requires id in Enter(d, es)
    ensures id in d || NodeEntry(id, p) in es
  {
    p := [];
    if es != [] {
      var last := es[|es|-1];
      if id == last.id { p := last.path; } else { p := EnteredFrom(d, es[..|es|-1], id); }
    }
  }

  /** INIT_POOL gives the newcomer the whole directory. */
  lemma InitGivesDirectory(t: Tree, d: Map, es: seq<NodeEntry>)
    requires t.WellFormed() && IsListing(t, es)
    ensures IsDirectory(t, Apply(d, InitPool(es)))
  {
    var r := Enter(map[], es);
    forall l | l in t.at
      ensures t.at[l] in r && r[t.at[l]] == Reported(l.panel)
    {
      EnterAt(map[], es, t.at[l], Reported(l.panel));
    }
    forall id | id in r
      ensures id in t.at.Values
    {
      var p := EnteredFrom(map[], es, id);
    }
  }

  /** d has everybody's own path. */
  ghost predicate ShowsRight(t: Tree, d: Map) {
    forall l | l in t.at :: t.at[l] in d && d[t.at[l]] == l.panel.Ints()
  }

  /** A directory shows everybody in the right panel if and only if all occupied panels read right. */
  lemma DirectoryIsRight(t: Tree, d: Map)
    requires IsDirectory(t, d)
    ensures ShowsRight(t, d) <==> LegibleTree(t)
  {
    forall l | l in t.at
      ensures t.at[l] in d && (d[t.at[l]] == l.panel.Ints() <==> Legible(l.panel))
    {
      assert t.at[l] in t.at.Values;
      LegibleIffReported(l.panel);
    }
  }

  lemma EntriesGrow(m: map<Loc, Id>, l: Loc, id: Id)
    requires l !in m
    ensures m[l := id].Values == m.Values + {id}
  {
    var m' := m[l := id];
    assert m'[l] == id;
    forall v | v in m.Values
      ensures v in m'.Values
    {
      var k :| k in m && m[k] == v;
      assert m'[k] == v;
    }
  }

  /** ADD_NODE keeps the directory of everybody else. */
  lemma AddKeepsDirectory(t: Tree, id: Id, l: Loc, t': Tree, d: Map)
    requires t'.WellFormed() && l !in t.at && t'.at == t.at[l := id] && IsDirectory(t, d)
    ensures IsDirectory(t', Apply(d, AddNode(NodeEntry(id, Reported(l.panel)))))
  {
    EntriesGrow(t.at, l, id);
    forall k | k in t'.at && k != l
      ensures d[t'.at[k]] == Reported(k.panel) && t'.at[k] != id
    {
      assert t.at[k] == t'.at[k];
      assert t'.at[l] == id;
    }
  }

  /** REMOVE_NODE with its promoted nodes keeps the directory of everybody who stays. */
  lemma RemoveKeepsDirectory(t: Tree, births: Births, chain: seq<Loc>, d: Map)
    requires t.Sound() && IsChain(t, births, chain) && IsDirectory(t, d)
    ensures IsDirectory(Shifted(t, chain), Apply(d, RemoveNode(t.at[chain[0]], PromotedEntries(t, chain))))
  {
    var t', r := Shifted(t, chain), Apply(d, RemoveNode(t.at[chain[0]], PromotedEntries(t, chain)));
    hide Shifted, PromotedEntries, IsChain, Tree.Sound, Apply, IsDirectory;
    forall l | l in t'.at
      ensures t'.at[l] in r && r[t'.at[l]] == Reported(l.panel)
    {
      StillListed(t, births, chain, d, l);
    }
    forall id | id in r
      ensures id in t'.at.Values
    {
      ListedIsLive(t, births, chain, d, id);
    }
    ListsAll(t', r);
  }

  lemma ListsAll(t: Tree, d: Map)
    requires forall l | l in t.at :: t.at[l] in d && d[t.at[l]] == Reported(l.panel)
    requires forall id | id in d :: id in t.at.Values
    ensures IsDirectory(t, d)
  {
    forall v
      ensures v in d.Keys <==> v in t.at.Values
    {
      if v in t.at.Values { var l :| l in t.at && t.at[l] == v; }
    }
  }

  lemma StillListed(t: Tree, births: Births, chain: seq<Loc>, d: Map, l: Loc)
    requires t.Sound() && IsChain(t, births, chain) && IsDirectory(t, d) && l in Shifted(t, chain).at
    ensures var r, id := Apply(d, RemoveNode(t.at[chain[0]], PromotedEntries(t, chain))), Shifted(t, chain).at[l];
      id in r && r[id] == Reported(l.panel)
  {
    EntriesAbout(t, births, chain, l);
    EnterAt(d - {t.at[chain[0]]}, PromotedEntries(t, chain), Shifted(t, chain).at[l], Reported(l.panel));
  }

  lemma ListedIsLive(t: Tree, births: Births, chain: seq<Loc>, d: Map, id: Id)
    requires t.Sound() && IsChain(t, births, chain) && IsDirectory(t, d)
    requires id in Apply(d, RemoveNode(t.at[chain[0]], PromotedEntries(t, chain)))
    ensures id in Shifted(t, chain).at.Values
  {
    RemovalEffect(t, births, chain);
    var p := EnteredFrom(d - {t.at[chain[0]]}, PromotedEntries(t, chain), id);
    if NodeEntry(id, p) in PromotedEntries(t, chain) { PromotedIsLive(t, births, chain, NodeEntry(id, p)); }
  }

  lemma PromotedIsLive(t: Tree, births: Births, chain: seq<Loc>, e: NodeEntry)
    requires t.Sound() && IsChain(t, births, chain) && e in PromotedEntries(t, chain)
    ensures exists l :: l in Shifted(t, chain).at && e == NodeEntry(Shifted(t, chain).at[l], Reported(l.panel))
  {
    RemovalEffect(t, births, chain);
    var i :| 0 <= i < |chain| - 1 && PromotedEntries(t, chain)[i] == e;
    assert chain[i] != Last(chain);
    assert Shifted(t, chain).Get(chain[i]) == e.id;
  }

  lemma EntriesAbout(t: Tree, births: Births, chain: seq<Loc>, l: Loc)
    requires t.Sound() && IsChain(t, births, chain) && l in Shifted(t, chain).at
    ensures var id := Shifted(t, chain).at[l];
      && (forall e | e in PromotedEntries(t, chain) && e.id == id :: e.path == Reported(l.panel))
      && (|| NodeEntry(id, Reported(l.panel)) in PromotedEntries(t, chain)
          || (l in t.at && t.at[l] == id && id != t.at[chain[0]]))
  {
    RemovalEffect(t, births, chain);
    var t', es := Shifted(t, chain), PromotedEntries(t, chain);
    var id := t'.at[l];
    forall e | e in es && e.id == id
      ensures e.path == Reported(l.panel)
    {
      PromotedIsLive(t, births, chain, e);
    }
    if Refilled(chain, l) {
      var i := l.panel.Level() - chain[0].panel.Level();
      assert es[i] == NodeEntry(id, Reported(l.panel));
    } else {
      SourceIsOneToOne(t, chain, l, l);
    }
  }
}
