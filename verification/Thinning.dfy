/** From which side of the tree a removal takes its node: what the choice of each promoted node does to the
    number of nodes below. */
module Thinning {
  import opened ClusterTree
  import opened Promotion

  /** Panel p or somebody below it has slot l. */
  ghost predicate Holds(p: Path, l: Loc) {
    l.panel == p || l.panel.IsBelow(p)
  }

  lemma {:induction false} SidesAreApart(p: Path, l: Loc)
    requires p.Valid()
    ensures !(Holds(Under(p, 0), l) && Holds(Under(p, 1), l))
  {
    if Holds(Under(p, 0), l) && Holds(Under(p, 1), l) {
      SiblingsApart(l.panel, p);
    }
  }

  lemma {:induction false} SiblingsApart(q: Path, p: Path)
    requires q == Under(p, 0) || q.IsBelow(Under(p, 0))
    ensures q != Under(p, 1) && !q.IsBelow(Under(p, 1))
  {
    if q == Under(p, 0) {
      BelowIsDeeper(q, Under(p, 1));
    } else {
      BelowIsDeeper(q, Under(p, 0));
      if q.up == Under(p, 0) { BelowIsDeeper(q.up, Under(p, 1)); }
      SiblingsApart(q.up, p);
    }
  }

  lemma {:induction false} BelowIsDeeper(q: Path, p: Path)
    ensures q.IsBelow(p) ==> p.Level() < q.Level()
  {
    if q.Under? { BelowIsDeeper(q.up, p); }
  }

  /** Taking one slot away makes exactly the subtrees that hold it smaller, by one. */
  lemma {:induction false} CountWithout(t: Tree, u: Tree, x: Loc, p: Path)
    requires u.levels == t.levels && u.at.Keys == t.at.Keys - {x} && x in t.at && t.HasSlot(x) && p.Valid()
    ensures t.SubtreeCount(p) == u.SubtreeCount(p) + if Holds(p, x) then 1 else 0
    decreases t.levels - p.Level()
  {
    PanelWithout(t, u, x, p);
    BelowIsDeeper(x.panel, p);
    if p.Level() + 1 < t.levels {
      CountWithout(t, u, x, Under(p, 0));
      CountWithout(t, u, x, Under(p, 1));
      SidesAreApart(p, x);
      SplitHolds(p, x);
    }
  }

  lemma PanelWithout(t: Tree, u: Tree, x: Loc, p: Path)
    requires u.at.Keys == t.at.Keys - {x} && x in t.at && x.slot < 3
    ensures t.PanelCount(p) == u.PanelCount(p) + if x.panel == p then 1 else 0
  {
    assert x.slot in {0, 1, 2};
    assert forall l :: l in u.at <==> l in u.at.Keys;
  }

  lemma SplitHolds(p: Path, x: Loc)
    requires x.panel.Valid()
    ensures Holds(p, x) <==> x.panel == p || Holds(Under(p, 0), x) || Holds(Under(p, 1), x)
    ensures x.panel == p ==> !Holds(Under(p, 0), x) && !Holds(Under(p, 1), x)
  {
    if x.panel.IsBelow(p) { BelowSplits(x.panel, p); }
    BelowIsDeeper(x.panel, p);
    forall n: nat | n < 2 && Holds(Under(p, n), x)
      ensures x.panel.IsBelow(p)
    {
      BelowTransitive(x.panel, Under(p, n), p);
    }
  }

  ghost function Holders(t: Tree, p: Path): set<Loc> {
    set l | l in t.at && Holds(p, l)
  }

  /** The recursive count is the number of taken slots in a panel and everywhere below it. */
  lemma {:induction false} CountIsSize(t: Tree, p: Path)
    requires p.Valid() && forall l | l in t.at :: t.HasSlot(l)
    ensures t.SubtreeCount(p) == |Holders(t, p)|
    decreases |t.at|
  {
    if x :| x in t.at {
      var u := t.(at := t.at - {x});
      assert u.at.Keys == t.at.Keys - {x} && |u.at| == |t.at| - 1;
      CountIsSize(u, p);
      CountWithout(t, u, x, p);
      HoldersWithout(t, u, x, p);
    } else {
      EmptyCount(t, p);
    }
  }

  lemma HoldersWithout(t: Tree, u: Tree, x: Loc, p: Path)
    requires u.at.Keys == t.at.Keys - {x} && x in t.at
    ensures |Holders(t, p)| == |Holders(u, p)| + if Holds(p, x) then 1 else 0
  {
    hide Holds;
    assert forall l :: l in u.at <==> l in u.at.Keys;
    if Holds(p, x) {
      assert Holders(t, p) == Holders(u, p) + {x};
    } else {
      assert Holders(t, p) == Holders(u, p);
    }
  }

  lemma {:induction false} EmptyCount(t: Tree, p: Path)
    requires t.at == map[]
    ensures t.SubtreeCount(p) == 0 && Holders(t, p) == {}
    decreases t.levels - p.Level()
  {
    if p.Level() + 1 < t.levels {
      EmptyCount(t, Under(p, 0));
      EmptyCount(t, Under(p, 1));
    }
  }

  /** The last slot of a chain is held by the panel of every slot of it. */
  lemma {:induction false} ChainGoesUnder(t: Tree, births: Births, chain: seq<Loc>, i: nat)
    requires t.Sound() && IsChainPrefix(t, births, chain) && i < |chain|
    ensures Holds(chain[i].panel, Last(chain))
    decreases |chain| - i
  {
    if i + 1 < |chain| {
      ChainGoesUnder(t, births, chain, i + 1);
      ChainShape(t, births, chain, i + 1);
      BelowTransitive(Last(chain).panel, chain[i+1].panel, chain[i].panel);
    }
  }

  /** Of the two sides below p, side n has given up one node, and the other one none. */
  ghost predicate GivesUp(t: Tree, u: Tree, p: Path, n: nat)
    requires n < 2
  {
    && t.SubtreeCount(Under(p, n)) == u.SubtreeCount(Under(p, n)) + 1
    && t.SubtreeCount(Under(p, 1 - n)) == u.SubtreeCount(Under(p, 1 - n))
  }

  lemma GivesUpOne(t: Tree, u: Tree, x: Loc, p: Path, n: nat)
    requires u.levels == t.levels && u.at.Keys == t.at.Keys - {x} && x in t.at && t.HasSlot(x) && p.Valid() && n < 2
    requires Holds(Under(p, n), x)
    ensures GivesUp(t, u, p, n)
  {
    CountWithout(t, u, x, Under(p, 0));
    CountWithout(t, u, x, Under(p, 1));
    SidesAreApart(p, x);
    hide Holds, Tree.SubtreeCount;
    assert n == 0 || n == 1;
  }

  lemma ChainSlots(t: Tree, births: Births, chain: seq<Loc>, i: nat)
    requires t.Sound() && IsChain(t, births, chain) && i < |chain| - 1
    ensures IsChainPrefix(t, births, chain)
    ensures chain[i+1] in t.at && t.HasSlot(Last(chain)) && Last(chain) in t.at && chain[i].panel.Valid()
    ensures chain[i+1].panel.Under? && chain[i+1].panel.number < 2
    ensures chain[i+1].panel == Under(chain[i].panel, chain[i+1].panel.number)
  {
    hide *;
    ChainBegins(t, births, chain);
    ChainShape(t, births, chain, i);
    ChainShape(t, births, chain, i + 1);
    ChainShape(t, births, chain, |chain| - 1);
    Seated(t, chain[i]);
    Seated(t, chain[i+1]);
    Seated(t, Last(chain));
    IsRightBelow(chain[i+1], chain[i].panel);
  }

  lemma ChainBegins(t: Tree, births: Births, chain: seq<Loc>)
    requires IsChain(t, births, chain)
    ensures |chain| > 0 && IsChainPrefix(t, births, chain) && Last(chain) == chain[|chain|-1]
  {
  }

  lemma Seated(t: Tree, l: Loc)
    requires t.Sound() && l in t.at
    ensures t.HasSlot(l) && l.panel.Valid() && (l.panel.Under? ==> l.panel.number < 2)
  {
  }

  lemma IsRightBelow(l: Loc, p: Path)
    requires RightBelow(l, p)
    ensures l.panel.Under? && l.panel == Under(p, l.panel.number)
  {
  }

  /** The side from which a node moves up is the side that ends up with one node less. */
  lemma SideOfStep(t: Tree, births: Births, chain: seq<Loc>, i: nat)
    requires t.Sound() && IsChain(t, births, chain) && i < |chain| - 1
    ensures chain[i+1].panel.Under? && chain[i+1].panel.number < 2 && chain[i+1] in t.at
    ensures chain[i+1].panel == Under(chain[i].panel, chain[i+1].panel.number)
    ensures GivesUp(t, Shifted(t, chain), chain[i].panel, chain[i+1].panel.number)
    ensures Shifted(t, chain).Get(chain[i]) == t.at[chain[i+1]]
  {
    hide *;
    ChainSlots(t, births, chain, i);
    RemovalEffect(t, births, chain);
    ChainGoesUnder(t, births, chain, i + 1);
    GivesUpOne(t, Shifted(t, chain), Last(chain), chain[i].panel, chain[i+1].panel.number);
    assert t.Get(chain[i+1]) == t.at[chain[i+1]] by { GetTaken(t, chain[i+1]); }
  }

  lemma GetTaken(t: Tree, l: Loc)
    requires l in t.at
    ensures t.Get(l) == t.at[l]
  {
  }

  lemma StepPromotes(t: Tree, births: Births, chain: seq<Loc>, i: nat)
    requires IsChain(t, births, chain) && i < |chain| - 1
    ensures Promotes(t, births, chain[i].panel, chain[0].slot, chain[i+1])
  {
    assert ChainStep(t, births, chain, i);
  }

  function Apart(a: nat, b: nat): nat {
    if a < b then b - a else a - b
  }

  /** Where both sides below a vacated slot have somebody in the slot's number, the larger side gives up a
      node; of two equal ones, the side whose candidate is the younger, and else the second side. */
  lemma LargerSideGives(t: Tree, births: Births, chain: seq<Loc>, i: nat)
    requires t.Sound() && IsChain(t, births, chain) && i < |chain| - 1
    requires Loc(Under(chain[i].panel, 0), chain[0].slot) in t.at
    requires Loc(Under(chain[i].panel, 1), chain[0].slot) in t.at
    ensures var u, p := Shifted(t, chain), chain[i].panel;
      var a, b := t.at[Loc(Under(p, 0), chain[0].slot)], t.at[Loc(Under(p, 1), chain[0].slot)];
      var m, n := t.SubtreeCount(Under(p, 0)), t.SubtreeCount(Under(p, 1));
      && (m > n ==> GivesUp(t, u, p, 0) && u.Get(chain[i]) == a)
      && (m < n ==> GivesUp(t, u, p, 1) && u.Get(chain[i]) == b)
      && (m == n && Born(births, a) > Born(births, b) ==> GivesUp(t, u, p, 0) && u.Get(chain[i]) == a)
      && (m == n && Born(births, a) <= Born(births, b) ==> GivesUp(t, u, p, 1) && u.Get(chain[i]) == b)
  {
    SideOfStep(t, births, chain, i);
    StepPromotes(t, births, chain, i);
    hide GivesUp, Shifted, Tree.SubtreeCount, IsChain, Tree.Sound;
  }

  /** Removals even the two sides out: a difference shrinks by one, and two equal sides differ by one. */
  lemma SidesEvenOut(t: Tree, births: Births, chain: seq<Loc>, i: nat)
    requires t.Sound() && IsChain(t, births, chain) && i < |chain| - 1
    requires Loc(Under(chain[i].panel, 0), chain[0].slot) in t.at
    requires Loc(Under(chain[i].panel, 1), chain[0].slot) in t.at
    ensures var u, p := Shifted(t, chain), chain[i].panel;
      var before := Apart(t.SubtreeCount(Under(p, 0)), t.SubtreeCount(Under(p, 1)));
      Apart(u.SubtreeCount(Under(p, 0)), u.SubtreeCount(Under(p, 1))) == if before == 0 then 1 else before - 1
  {
    LargerSideGives(t, births, chain, i);
    hide Shifted, Tree.SubtreeCount;
  }

  /** Where only one side has somebody in that slot number, it is this node that moves up. */
  lemma OnlySideGives(t: Tree, births: Births, chain: seq<Loc>, i: nat, n: nat)
    requires t.Sound() && IsChain(t, births, chain) && i < |chain| - 1 && n < 2
    requires Loc(Under(chain[i].panel, n), chain[0].slot) in t.at
    requires Loc(Under(chain[i].panel, 1 - n), chain[0].slot) !in t.at
    ensures GivesUp(t, Shifted(t, chain), chain[i].panel, n)
    ensures Shifted(t, chain).Get(chain[i]) == t.at[Loc(Under(chain[i].panel, n), chain[0].slot)]
  {
    hide *;
    SideOfStep(t, births, chain, i);
    StepPromotes(t, births, chain, i);
    OnlyOneCan(t, births, chain[i].panel, chain[0].slot, chain[i+1], n);
  }

  lemma OnlyOneCan(t: Tree, births: Births, p: Path, s: nat, l: Loc, n: nat)
    requires Promotes(t, births, p, s, l) && n < 2 && Loc(Under(p, n), s) in t.at && Loc(Under(p, 1 - n), s) !in t.at
    ensures l == Loc(Under(p, n), s)
  {
    assert n == 0 || n == 1;
  }

  /** Where neither side has, nobody right below was born later than the node that moves up, and those who
      come before it in the two panels were all born earlier; it is the last one to move. */
  lemma YoungestMovesUp(t: Tree, births: Births, chain: seq<Loc>, i: nat, k: Loc)
    requires t.Sound() && IsChain(t, births, chain) && i < |chain| - 1
    requires Loc(Under(chain[i].panel, 0), chain[0].slot) !in t.at
    requires Loc(Under(chain[i].panel, 1), chain[0].slot) !in t.at
    requires k in t.at && RightBelow(k, chain[i].panel)
    ensures Born(births, t.at[k]) <= Born(births, Shifted(t, chain).Get(chain[i])) && i == |chain| - 2
    ensures Order(k) < Order(chain[i+1]) ==> Born(births, t.at[k]) < Born(births, Shifted(t, chain).Get(chain[i]))
  {
    SideOfStep(t, births, chain, i);
    StepPromotes(t, births, chain, i);
    ChainShape(t, births, chain, i + 1);
    hide GivesUp, Shifted, Tree.SubtreeCount;
  }
}
