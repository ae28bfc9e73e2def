/** How many nodes the levels of a tree hold, and when a tree grows. */
module Capacity {
  import opened Sets
  import opened ClusterTree
  import opened Ids
  import opened Placement

  function Pow2(n: nat): nat {
    if n == 0 then 1 else 2 * Pow2(n - 1)
  }

  function Child(l: Loc, n: nat): Loc {
    Loc(Under(l.panel, n), l.slot)
  }

  ghost function Children(s: set<Loc>, n: nat): set<Loc> {
    set l | l in s :: Child(l, n)
  }

  ghost function LevelSlots(d: nat): set<Loc> {
    if d == 0 then set n: nat, s: nat | n < 3 && s < 3 :: Loc(Centre(n), s)
    else Children(LevelSlots(d - 1), 0) + Children(LevelSlots(d - 1), 1)
  }

  function Three(n: nat): set<Loc> {
    {Loc(Centre(n), 0), Loc(Centre(n), 1), Loc(Centre(n), 2)}
  }

  ghost function SlotsAbove(d: nat): set<Loc> {
    set k: nat, l | k < d && l in LevelSlots(k) :: l
  }

  lemma {:induction false} LevelSlotsAre(d: nat, l: Loc)
    ensures l in LevelSlots(d) <==> l.panel.Valid() && l.panel.Level() == d && l.slot < 3
    decreases d
  {
    if d > 0 {
      if l.panel.Under? {
        var k := Loc(l.panel.up, l.slot);
        LevelSlotsAre(d - 1, k);
        assert l == Child(k, l.panel.number);
      }
    }
  }

  lemma SlotsAboveAre(d: nat, l: Loc)
    ensures l in SlotsAbove(d) <==> l.panel.Valid() && l.panel.Level() < d && l.slot < 3
  {
    forall k: nat | l in LevelSlots(k)
      ensures l.panel.Valid() && l.panel.Level() == k && l.slot < 3
    {
      LevelSlotsAre(k, l);
    }
    LevelSlotsAre(l.panel.Level(), l);
  }

  lemma {:induction false} ChildrenSize(s: set<Loc>, n: nat)
    ensures |Children(s, n)| == |s|
  {
    if s != {} {
      var x :| x in s;
      ChildrenSize(s - {x}, n);
      assert Children(s, n) == Children(s - {x}, n) + {Child(x, n)};
    }
  }

  lemma CentreSize()
    ensures |LevelSlots(0)| == 9
  {
    assert LevelSlots(0) == Three(0) + Three(1) + Three(2);
    DisjointUnionSize(Three(0), Three(1));
    DisjointUnionSize(Three(0) + Three(1), Three(2));
  }

  lemma FamilySize(s: set<Loc>)
    ensures |Children(s, 0) + Children(s, 1)| == 2 * |s|
  {
    ChildrenSize(s, 0);
    ChildrenSize(s, 1);
    DisjointUnionSize(Children(s, 0), Children(s, 1));
  }

  /** Level d of the tree has exactly 9 * 2^d slots. */
  lemma {:induction false} LevelSize(d: nat)
    ensures |LevelSlots(d)| == 9 * Pow2(d)
  {
    hide *;
    if d == 0 {
      CentreSize();
      FirstPower();
    } else {
      LevelSize(d - 1);
      FamilySize(LevelSlots(d - 1));
      LevelSplits(d);
    }
  }

  lemma FirstPower()
    ensures Pow2(0) == 1
  {
  }

  lemma LevelSplits(d: nat)
    requires d > 0
    ensures LevelSlots(d) == Children(LevelSlots(d - 1), 0) + Children(LevelSlots(d - 1), 1)
    ensures Pow2(d) == 2 * Pow2(d - 1)
  {
  }

  lemma OneMoreLevel(d: nat)
    ensures |SlotsAbove(d + 1)| == |SlotsAbove(d)| + 9 * Pow2(d)
  {
    LevelIsNew(d);
    LevelSize(d);
    assert SlotsAbove(d + 1) == SlotsAbove(d) + LevelSlots(d);
    DisjointUnionSize(SlotsAbove(d), LevelSlots(d));
  }

  lemma {:induction false} SizeAbove(d: nat)
    ensures |SlotsAbove(d)| == 9 * (Pow2(d) - 1)
  {
    if d > 0 {
      SizeAbove(d - 1);
      OneMoreLevel(d - 1);
    }
  }

  lemma LevelIsNew(d: nat)
    ensures SlotsAbove(d) !! LevelSlots(d)
  {
    forall l: Loc
      ensures !(l in SlotsAbove(d) && l in LevelSlots(d))
    {
      SlotsAboveAre(d, l);
      LevelSlotsAre(d, l);
    }
  }

  lemma TreeFits(t: Tree)
    requires t.WellFormed()
    ensures |t.at| <= 9 * (Pow2(t.levels) - 1)
    ensures |t.at| == 9 * (Pow2(t.levels) - 1) <==> !HasRoom(t)
  {
    forall l | l in t.at.Keys
      ensures l in SlotsAbove(t.levels)
    {
      SlotsAboveAre(t.levels, l);
    }
    SubsetSize(t.at.Keys, SlotsAbove(t.levels));
    SizeAbove(t.levels);
    if t.at.Keys == SlotsAbove(t.levels) {
      forall p: Path | p.Valid() && p.Level() < t.levels
        ensures t.Full(p)
      {
        SlotsAboveAre(t.levels, Loc(p, 0));
        SlotsAboveAre(t.levels, Loc(p, 1));
        SlotsAboveAre(t.levels, Loc(p, 2));
      }
    }
    if !HasRoom(t) {
      FullAbove(t, t.levels);
    }
  }

  lemma FullAbove(t: Tree, d: nat)
    requires forall i: nat | i < d :: t.LevelFull(i)
    ensures SlotsAbove(d) <= t.at.Keys
  {
    forall l | l in SlotsAbove(d)
      ensures l in t.at.Keys
    {
      SlotsAboveAre(d, l);
      assert t.LevelFull(l.panel.Level());
      assert l.slot in {0, 1, 2};
    }
  }

  /** A node is only put at level d when at least 9 * (2^d - 1) nodes are there already. */
  lemma DepthNeedsNodes(t: Tree, id: Id, l: Loc, t': Tree)
    requires t.WellFormed() && Adds(t, id, l, t')
    ensures |t.at| >= 9 * (Pow2(l.panel.Level()) - 1)
  {
    assert forall i: nat | i < l.panel.Level() :: WithRoom(t).LevelFull(i);
    assert forall i: nat | i < l.panel.Level() :: t.LevelFull(i);
    FullAbove(t, l.panel.Level());
    SizeAbove(l.panel.Level());
    SubsetSize(SlotsAbove(l.panel.Level()), t.at.Keys);
  }

  /** `levels` is the least number of levels, at least 1, that has held `peak` nodes. */
  predicate LevelsFitPeak(levels: nat, peak: nat) {
    && 1 <= levels && peak <= 9 * (Pow2(levels) - 1)
    && (levels > 1 ==> 9 * (Pow2(levels - 1) - 1) < peak)
  }

  function Max(a: nat, b: nat): nat {
    if a < b then b else a
  }

  lemma AddKeepsPeak(t: Tree, id: Id, l: Loc, t': Tree, peak: nat)
    requires t.WellFormed() && t'.WellFormed() && Adds(t, id, l, t')
    requires LevelsFitPeak(t.levels, peak) && |t.at| <= peak
    ensures LevelsFitPeak(t'.levels, Max(peak, |t'.at|))
    ensures |t'.at| == |t.at| + 1
  {
    TreeFits(t);
    TreeFits(t');
    assert l !in t.at;
    assert Pow2(t.levels + 1) == 2 * Pow2(t.levels);
  }

  lemma {:induction false} Pow2Grows(a: nat, b: nat)
    requires a <= b
    ensures Pow2(a) <= Pow2(b)
  {
    if a < b { Pow2Grows(a, b - 1); }
  }

  /** No smaller number of levels holds that many nodes. */
  lemma LevelsAreLeast(levels: nat, peak: nat, n: nat)
    requires LevelsFitPeak(levels, peak) && 1 <= n && peak <= 9 * (Pow2(n) - 1)
    ensures levels <= n
  {
    if n < levels { Pow2Grows(n, levels - 1); }
  }
}
