/** How a leaving node's place is filled: a chain of nodes moves up one level each. */
module Promotion {
  import opened ClusterTree
  import opened Ids

  /** Creation times of the live nodes; a missing entry reads as the zero time. */
  type Births = map<Id, nat>

  function Born(births: Births, id: Id): nat {
    if id in births then births[id] else 0
  }

  function Order(l: Loc): nat {
    3 * l.panel.number + l.slot
  }

  ghost predicate RightBelow(l: Loc, p: Path) {
    l.panel.Under? && l.panel.up == p
  }

  /** The youngest node in the two panels below p; among equals the first one. */
  ghost predicate IsYoungest(t: Tree, births: Births, p: Path, l: Loc) {
    && l in t.at && RightBelow(l, p)
    && forall k | k in t.at && RightBelow(k, p) && k != l ::
         if Order(k) < Order(l)
         then Born(births, t.at[k]) < Born(births, t.at[l])
         else Born(births, t.at[k]) <= Born(births, t.at[l])
  }

  /** The slot whose node moves up into slot s of panel p. */
  ghost predicate Promotes(t: Tree, births: Births, p: Path, s: nat, l: Loc) {
    var a, b := Loc(Under(p, 0), s), Loc(Under(p, 1), s);
    if a in t.at && b in t.at then
      var na, nb := t.SubtreeCount(a.panel), t.SubtreeCount(b.panel);
      l == if na > nb || (na == nb && Born(births, t.at[a]) > Born(births, t.at[b])) then a else b
    else if a in t.at then l == a
    else if b in t.at then l == b
    else IsYoungest(t, births, p, l)
  }

  /** Step i of a chain: somebody is below its slot i, and slot i + 1 is the one that moves up. */
  ghost predicate ChainStep(t: Tree, births: Births, chain: seq<Loc>, i: nat)
    requires i + 1 < |chain|
  {
    !t.EmptyBelow(chain[i].panel) && Promotes(t, births, chain[i].panel, chain[0].slot, chain[i+1])
  }

  /** The beginning of the chain of vacated slots: all are promoted one after the other,
      always into the slot number of the node that left. */
  ghost predicate IsChainPrefix(t: Tree, births: Births, chain: seq<Loc>) {
    && |chain| > 0 && chain[0] in t.at
    && forall i: nat | i < |chain| - 1 :: ChainStep(t, births, chain, i)
  }

  ghost predicate IsChain(t: Tree, births: Births, chain: seq<Loc>) {
    && IsChainPrefix(t, births, chain)
    && t.EmptyBelow(chain[|chain|-1].panel)
  }

  function Last(chain: seq<Loc>): Loc
    requires |chain| > 0
  {
    chain[|chain|-1]
  }

  /** l is a slot of the chain that is filled again, from the next slot of the chain. */
  predicate Refilled(chain: seq<Loc>, l: Loc)
    requires |chain| > 0
  {
    var i := l.panel.Level() - chain[0].panel.Level();
    0 <= i < |chain| - 1 && chain[i] == l
  }

  /** The slot from which the occupant of l came. */
  function Source(chain: seq<Loc>, l: Loc): Loc
    requires |chain| > 0
  {
    if Refilled(chain, l) then chain[l.panel.Level() - chain[0].panel.Level() + 1] else l
  }

  function Shifted(t: Tree, chain: seq<Loc>): Tree
    requires |chain| > 0
  {
    t.(at := map l | l in t.at && l != Last(chain) :: t.Get(Source(chain, l)))
  }

  lemma PromotedIsBelow(t: Tree, births: Births, p: Path, s: nat, l: Loc)
    requires t.Sound() && s < 3 && Promotes(t, births, p, s, l)
    ensures l in t.at && RightBelow(l, p) && l.panel.Level() == p.Level() + 1
    ensures l.slot != s ==> t.EmptyBelow(l.panel)
  {
    if l.slot != s {
      assert l.panel.number in {0, 1};
      assert l.panel == Under(p, l.panel.number);
      assert Loc(l.panel, s) !in t.at;
      assert !t.Full(l.panel) by { assert s in {0, 1, 2}; }
    }
  }

  /** The chain runs through occupied slots, one level deeper each, in the slot number of the
      node that left; only its last slot may have another number. */
  lemma {:induction false} ChainShape(t: Tree, births: Births, chain: seq<Loc>, i: nat)
    requires t.Sound() && IsChainPrefix(t, births, chain) && i < |chain|
    ensures chain[i] in t.at && chain[i].panel.Level() == chain[0].panel.Level() + i
    ensures i < |chain| - 1 ==> chain[i].slot == chain[0].slot
    ensures chain[i].slot != chain[0].slot ==> t.EmptyBelow(chain[i].panel)
    ensures i > 0 ==> RightBelow(chain[i], chain[i-1].panel)
  {
    if i > 0 {
      ChainShape(t, births, chain, i - 1);
      assert ChainStep(t, births, chain, i - 1);
      PromotedIsBelow(t, births, chain[i-1].panel, chain[0].slot, chain[i]);
    }
    if i < |chain| - 1 { assert ChainStep(t, births, chain, i); }
  }

  ghost predicate RunsDown(t: Tree, chain: seq<Loc>) {
    && |chain| > 0
    && (forall i | 0 <= i < |chain| :: chain[i] in t.at && chain[i].panel.Level() == chain[0].panel.Level() + i)
  }

  lemma ChainRunsDown(t: Tree, births: Births, chain: seq<Loc>)
    requires t.Sound() && IsChainPrefix(t, births, chain)
    ensures RunsDown(t, chain)
  {
    forall i | 0 <= i < |chain|
      ensures chain[i] in t.at && chain[i].panel.Level() == chain[0].panel.Level() + i
    {
      ChainShape(t, births, chain, i);
    }
  }

  lemma SourceIsOneToOne(t: Tree, chain: seq<Loc>, k: Loc, l: Loc)
    requires RunsDown(t, chain)
    requires k in t.at && k != Last(chain) && l in t.at && l != Last(chain)
    ensures Source(chain, l) in t.at && Source(chain, l) != chain[0]
    ensures Source(chain, k) == Source(chain, l) ==> k == l
  {
  }

  /** What a removal does: exactly the node of chain[0] goes; the nodes of chain[1..] move up one
      slot of the chain each; everybody else stays; the last slot of the chain becomes empty. */
  lemma RemovalEffect(t: Tree, births: Births, chain: seq<Loc>)
    requires t.Sound() && IsChainPrefix(t, births, chain)
    ensures RunsDown(t, chain)
    ensures Shifted(t, chain).WellFormed() && Shifted(t, chain).levels == t.levels
    ensures Shifted(t, chain).at.Keys == t.at.Keys - {Last(chain)}
    ensures Shifted(t, chain).at.Values == t.at.Values - {t.at[chain[0]]}
    ensures forall i: nat | i < |chain| - 1 :: Shifted(t, chain).Get(chain[i]) == t.Get(chain[i+1])
    ensures forall l | l !in chain :: Shifted(t, chain).Get(l) == t.Get(l)
  {
    ChainRunsDown(t, births, chain);
    ShiftedIsWellFormed(t, chain);
    ShiftedValues(t, chain);
    ShiftedSlots(t, chain);
  }

  lemma ShiftedIsWellFormed(t: Tree, chain: seq<Loc>)
    requires t.WellFormed() && RunsDown(t, chain)
    ensures Shifted(t, chain).WellFormed() && Shifted(t, chain).at.Keys == t.at.Keys - {Last(chain)}
  {
    var u := Shifted(t, chain);
    forall k, l | k in u.at && l in u.at
      ensures Source(chain, l) in t.at && Source(chain, l) != chain[0]
      ensures u.at[k] == u.at[l] ==> k == l
    {
      SourceIsOneToOne(t, chain, k, l);
    }
  }

  lemma ShiftedSlots(t: Tree, chain: seq<Loc>)
    requires t.WellFormed() && RunsDown(t, chain)
    ensures forall i: nat | i < |chain| - 1 :: Shifted(t, chain).Get(chain[i]) == t.Get(chain[i+1])
    ensures forall l | l !in chain :: Shifted(t, chain).Get(l) == t.Get(l)
  {
  }

  lemma Destination(t: Tree, chain: seq<Loc>, k: Loc) returns (l: Loc)
    requires RunsDown(t, chain) && k in t.at && k != chain[0]
    ensures l in t.at && l != Last(chain) && Source(chain, l) == k
  {
    if j :| 0 <= j < |chain| && chain[j] == k {
      l := chain[j-1];
    } else {
      l := k;
    }
  }

  lemma ShiftedValues(t: Tree, chain: seq<Loc>)
    requires t.WellFormed() && RunsDown(t, chain)
    ensures Shifted(t, chain).at.Values == t.at.Values - {t.at[chain[0]]}
  {
    var u := Shifted(t, chain);
    forall v | v in u.at.Values
      ensures v in t.at.Values - {t.at[chain[0]]}
    {
      var l :| l in u.at && u.at[l] == v;
      SourceIsOneToOne(t, chain, l, l);
      assert t.at[Source(chain, l)] == v;
    }
    forall v | v in t.at.Values - {t.at[chain[0]]}
      ensures v in u.at.Values
    {
      var k :| k in t.at && t.at[k] == v;
      var l := Destination(t, chain, k);
      assert u.at[l] == v;
    }
  }

  /** After a whole removal nobody hangs below a panel with a free slot. */
  lemma RemovalKeepsSound(t: Tree, births: Births, chain: seq<Loc>)
    requires t.Sound() && IsChain(t, births, chain)
    ensures Shifted(t, chain).Sound()
  {
    RemovalEffect(t, births, chain);
    var u, e := Shifted(t, chain), Last(chain);
    forall l | l in u.at && l.panel.Under?
      ensures u.Full(l.panel.up)
    {
      assert t.Full(l.panel.up);
      if l.panel.up == e.panel {
        OccupantsShow(t, l);
        assert false;
      }
    }
  }

  /** While anybody is below a slot's panel there is a node to promote. */
  lemma SomebodyToPromote(t: Tree, births: Births, p: Path, s: nat)
    requires t.Sound() && !t.EmptyBelow(p) && s < 3
    ensures exists l :: Promotes(t, births, p, s, l) && l in t.at && RightBelow(l, p)
  {
    var a, b := Loc(Under(p, 0), s), Loc(Under(p, 1), s);
    if a in t.at || b in t.at {
      var na, nb := t.SubtreeCount(a.panel), t.SubtreeCount(b.panel);
      var l :=
        if b !in t.at || (a in t.at && (na > nb || (na == nb && Born(births, t.at[a]) > Born(births, t.at[b]))))
        then a else b;
      assert Promotes(t, births, p, s, l);
    } else {
      var n: nat := if t.PanelCount(Under(p, 0)) > 0 then 0 else 1;
      var m: nat := if Loc(Under(p, n), 0) in t.at then 0 else if Loc(Under(p, n), 1) in t.at then 1 else 2;
      assert Candidate(p, 3 * n + m) in t.at;
      var l := Youngest(t, births, p, 6);
      assert Promotes(t, births, p, s, l);
    }
  }

  function Candidate(p: Path, k: nat): Loc {
    Loc(Under(p, k / 3), k % 3)
  }

  lemma {:induction false} Youngest(t: Tree, births: Births, p: Path, n: nat) returns (l: Loc)
    requires t.Sound() && n <= 6
    requires exists k: nat | k < n :: Candidate(p, k) in t.at
    ensures l in t.at && RightBelow(l, p) && Order(l) < n
    ensures forall k | k in t.at && RightBelow(k, p) && Order(k) < n && k != l ::
              if Order(k) < Order(l) then Born(births, t.at[k]) < Born(births, t.at[l])
              else Born(births, t.at[k]) <= Born(births, t.at[l])
    ensures n == 6 ==> IsYoungest(t, births, p, l)
  {
    var c := Candidate(p, n - 1);
    forall k | k in t.at && RightBelow(k, p)
      ensures k == Candidate(p, Order(k)) && Order(k) < 6
    {
    }
    if exists k: nat | k < n - 1 :: Candidate(p, k) in t.at {
      l := Youngest(t, births, p, n - 1);
      if c in t.at && Born(births, t.at[c]) > Born(births, t.at[l]) { l := c; }
    } else {
      l := c;
    }
  }

  /** The rule leaves no choice. */
  lemma PromotesIsUnique(t: Tree, births: Births, p: Path, s: nat, k: Loc, l: Loc)
    requires t.WellFormed() && Promotes(t, births, p, s, k) && Promotes(t, births, p, s, l)
    ensures k == l
  {
  }

  lemma NoStepFromEnd(t: Tree, births: Births, chain: seq<Loc>, i: nat)
    requires IsChainPrefix(t, births, chain) && i < |chain| - 1
    ensures !t.EmptyBelow(chain[i].panel)
  {
    assert ChainStep(t, births, chain, i);
  }

  /** Removing the node that leaves has one outcome. */
  lemma {:induction false} ChainIsUnique(t: Tree, births: Births, a: seq<Loc>, b: seq<Loc>, n: nat)
    requires t.Sound() && IsChain(t, births, a) && IsChain(t, births, b) && a[0] == b[0]
    requires n <= |a|
    ensures n <= |b| && a[..n] == b[..n]
    ensures n == |a| ==> a == b
  {
    if n > 1 {
      ChainIsUnique(t, births, a, b, n - 1);
      assert a[n-2] == a[..n-1][n-2] == b[..n-1][n-2] == b[n-2];
      assert ChainStep(t, births, a, n - 2);
      assert n <= |b|;
      assert ChainStep(t, births, b, n - 2);
      PromotesIsUnique(t, births, a[n-2].panel, a[0].slot, a[n-1], b[n-1]);
      assert a[..n] == a[..n-1] + [a[n-1]];
      assert b[..n] == b[..n-1] + [b[n-1]];
    }
    if n == |a| {
      assert a[n-1] == a[..n][n-1] == b[..n][n-1] == b[n-1];
      if n < |b| {
        NoStepFromEnd(t, births, b, n - 1);
        assert false;
      }
      assert a[..n] == a && b[..n] <= b;
    }
  }

  // ---- The chain as it is followed, while the tree has a hole ----

  /** One more promotion: slot l moves into the hole, and l is the next hole. */
  lemma ShiftedStep(t: Tree, births: Births, chain: seq<Loc>, l: Loc)
    requires t.Sound() && IsChainPrefix(t, births, chain + [l]) && |chain| > 0
    ensures IsChainPrefix(t, births, chain)
    ensures l in Shifted(t, chain).at && Last(chain) !in Shifted(t, chain).at && Last(chain) != l
    ensures Shifted(t, chain + [l]) == Moved(Shifted(t, chain), l, Last(chain))
  {
    var more, h := chain + [l], Last(chain);
    forall i: nat | i < |chain| - 1
      ensures ChainStep(t, births, chain, i)
    {
      assert ChainStep(t, births, more, i);
    }
    ChainRunsDown(t, births, more);
    ShiftedStepSlots(t, chain, l);
  }

  /** The occupant of l moves to the empty slot h. */
  function Moved(t: Tree, l: Loc, h: Loc): Tree
    requires l in t.at
  {
    t.(at := t.at[h := t.at[l]] - {l})
  }

  lemma ShiftedStepSlots(t: Tree, chain: seq<Loc>, l: Loc)
    requires |chain| > 0 && RunsDown(t, chain + [l])
    ensures l in Shifted(t, chain).at && Last(chain) !in Shifted(t, chain).at && Last(chain) != l
    ensures Shifted(t, chain + [l]) == Moved(Shifted(t, chain), l, Last(chain))
  {
    var more, n := chain + [l], |chain|;
    assert more[n] == l && more[n-1] == chain[n-1] && more[0] == chain[0];
    assert l.panel.Level() == chain[0].panel.Level() + n;
    forall k | k in t.at && k != l
      ensures Source(more, k) == if k == Last(chain) then l else Source(chain, k)
    {
      SourceStep(t, chain, l, k);
    }
    assert Source(chain, l) == l;
    hide Source, Refilled, RunsDown;
    assert Shifted(t, more).at == Moved(Shifted(t, chain), l, Last(chain)).at;
  }

  lemma SourceStep(t: Tree, chain: seq<Loc>, l: Loc, k: Loc)
    requires |chain| > 0 && RunsDown(t, chain + [l]) && k in t.at && k != l
    ensures Source(chain + [l], k) == if k == Last(chain) then l else Source(chain, k)
  {
    var more, n := chain + [l], |chain|;
    assert more[n] == l && more[n-1] == chain[n-1] && more[0] == chain[0];
    var i := k.panel.Level() - chain[0].panel.Level();
    if 0 <= i < n - 1 { assert more[i] == chain[i] && more[i+1] == chain[i+1]; }
  }

  /** Below the level of the hole nothing has changed yet. */
  ghost predicate SameBelow(t: Tree, births: Births, u: Tree, left: Births, d: nat) {
    && t.levels == u.levels
    && (forall k: Loc | k.panel.Level() > d :: (k in t.at <==> k in u.at) && t.Get(k) == u.Get(k))
    && (forall k | k in u.at && k.panel.Level() > d :: Born(births, u.at[k]) == Born(left, u.at[k]))
  }

  lemma {:induction false} SameCounts(t: Tree, births: Births, u: Tree, left: Births, d: nat, p: Path)
    requires SameBelow(t, births, u, left, d) && p.Level() > d
    ensures t.SubtreeCount(p) == u.SubtreeCount(p) && t.PanelCount(p) == u.PanelCount(p)
    decreases t.levels - p.Level()
  {
    assert forall s: nat :: Loc(p, s).panel.Level() > d;
    if p.Level() + 1 < t.levels {
      SameCounts(t, births, u, left, d, Under(p, 0));
      SameCounts(t, births, u, left, d, Under(p, 1));
    }
  }

  /** What the loop picks by looking at the tree with the hole is what the rule names. */
  lemma SamePromotion(t: Tree, births: Births, u: Tree, left: Births, p: Path, s: nat, l: Loc)
    requires SameBelow(t, births, u, left, p.Level()) && Promotes(u, left, p, s, l)
    ensures Promotes(t, births, p, s, l)
  {
    assert Under(p, 0).Level() == Under(p, 1).Level() == p.Level() + 1;
    SameCounts(t, births, u, left, p.Level(), Under(p, 0));
    SameCounts(t, births, u, left, p.Level(), Under(p, 1));
    var a, b := Loc(Under(p, 0), s), Loc(Under(p, 1), s);
    assert a.panel.Level() == b.panel.Level() == p.Level() + 1;
    if a !in t.at && b !in t.at {
      assert forall k | RightBelow(k, p) :: k.panel.Level() > p.Level();
    }
  }

  /** Nobody has moved below the last slot of the chain. */
  lemma ShiftedBelow(t: Tree, births: Births, left: Births, chain: seq<Loc>)
    requires t.Sound() && IsChainPrefix(t, births, chain)
    requires forall id | id in t.at.Values && id != t.at[chain[0]] :: Born(births, id) == Born(left, id)
    ensures SameBelow(t, births, Shifted(t, chain), left, Last(chain).panel.Level())
  {
    RemovalEffect(t, births, chain);
    var u := Shifted(t, chain);
    forall k: Loc | k.panel.Level() > Last(chain).panel.Level()
      ensures k !in chain
    {
    }
    forall k | k in u.at
      ensures u.at[k] in t.at.Values && u.at[k] != t.at[chain[0]]
    {
      assert u.at[k] in u.at.Values;
    }
  }

  /** A hole with somebody below it is in the slot number of the node that left. */
  lemma HoleKeepsSlot(t: Tree, births: Births, chain: seq<Loc>)
    requires t.Sound() && IsChainPrefix(t, births, chain) && !t.EmptyBelow(Last(chain).panel)
    ensures Last(chain).slot == chain[0].slot
  {
    ChainShape(t, births, chain, |chain| - 1);
  }

  lemma PrefixGrows(t: Tree, births: Births, chain: seq<Loc>, l: Loc)
    requires IsChainPrefix(t, births, chain) && !t.EmptyBelow(Last(chain).panel)
    requires Promotes(t, births, Last(chain).panel, chain[0].slot, l)
    ensures IsChainPrefix(t, births, chain + [l])
  {
    var more := chain + [l];
    forall i: nat | i < |more| - 1
      ensures ChainStep(t, births, more, i)
    {
      if i < |chain| - 1 {
        assert ChainStep(t, births, chain, i);
      }
    }
  }
}
