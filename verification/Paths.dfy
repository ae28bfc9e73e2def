/** A panel's path as the server keeps it: a slice, made by appending to the connector's slice.
    Appending to a slice with spare capacity writes into memory that sibling panels share. */
module Paths {
  import opened ClusterTree
  import opened Capacity

  /** The capacity of the slice of a panel of level d, which is d + 1 elements long: appending to
      a full slice moves it to memory of twice the size. */
  function PathCapacity(d: nat): (c: nat)
    ensures d < c
  {
    if d == 0 then 1 else if PathCapacity(d - 1) == d then 2 * d else PathCapacity(d - 1)
  }

  /** The element that a panel of level d adds has a cell of its own; otherwise its sibling
      writes the same cell, and the last one to write is panel 1. */
  predicate OwnCell(d: nat) {
    d == 0 || PathCapacity(d - 1) == d
  }

  /** The path that is read back. */
  function AsRead(p: Path): (q: Path)
    ensures q.Level() == p.Level() && (p.Valid() ==> q.Valid()) && q.Centre? == p.Centre?
  {
    if p.Centre? then p else Under(AsRead(p.up), if OwnCell(p.Level()) then p.number else 1)
  }

  /** The elements that are read back, and sent. */
  function Reported(p: Path): seq<int> {
    AsRead(p).Ints()
  }

  predicate Legible(p: Path) {
    AsRead(p) == p
  }

  /** Everybody sits in a panel whose path reads right. */
  ghost predicate LegibleTree(t: Tree) {
    forall l | l in t.at :: Legible(l.panel)
  }

  lemma {:induction false} CapacityIsPower(d: nat) returns (e: nat)
    ensures PathCapacity(d) == Pow2(e) && (e > 0 ==> Pow2(e - 1) <= d)
  {
    if d == 0 {
      e := 0;
    } else {
      e := CapacityIsPower(d - 1);
      if PathCapacity(d - 1) == d { e := e + 1; }
    }
  }

  lemma {:induction false} PowersApart(a: nat, b: nat)
    requires Pow2(a) < Pow2(b)
    ensures 2 * Pow2(a) <= Pow2(b)
  {
    if a + 1 <= b {
      Pow2Grows(a + 1, b);
    } else {
      Pow2Grows(b, a);
    }
  }

  /** The levels whose panels have cells of their own are the powers of two. */
  lemma OwnCellIffPower(d: nat)
    requires d > 0
    ensures OwnCell(d) <==> exists e :: Pow2(e) == d
  {
    var c := CapacityIsPower(d - 1);
    if e :| Pow2(e) == d {
      if Pow2(e) < Pow2(c) { PowersApart(e, c); }
    }
  }

  /** What exactly is read back: the number itself at index 0 and at powers of two, 1 elsewhere. */
  lemma {:induction false} ReadBack(p: Path, k: nat)
    requires k <= p.Level()
    ensures |p.Ints()| == |Reported(p)| == p.Level() + 1
    ensures Reported(p)[k] == if k == 0 || exists e :: Pow2(e) == k then p.Ints()[k] else 1
  {
    IntsShape(p);
    IntsShape(AsRead(p));
    if k < p.Level() {
      ReadBack(p.up, k);
    } else if k > 0 {
      OwnCellIffPower(k);
    }
  }

  lemma {:induction false} ShallowIsLegible(p: Path)
    requires p.Level() <= 2
    ensures Legible(p)
  {
    assert PathCapacity(0) == 1 && PathCapacity(1) == 2;
    if p.Under? { ShallowIsLegible(p.up); }
  }

  /** Level 3 is where it goes wrong: panel 0 reads as panel 1. */
  lemma FourthLevelMisread(n: nat, a: nat, b: nat)
    ensures var p := Under(Under(Under(Centre(n), a), b), 0);
      Reported(p) == [n, a, b, 1] && p.Ints() == [n, a, b, 0] && !Legible(p)
  {
    assert PathCapacity(0) == 1 && PathCapacity(1) == 2 && PathCapacity(2) == 4;
    var q := Under(Under(Centre(n), a), b);
    assert q.up.Ints() == [n, a] && q.Ints() == [n, a, b];
    assert AsRead(q.up) == q.up && AsRead(q) == q;
    assert AsRead(Under(q, 0)) == Under(q, 1);
    assert Under(q, 0).Ints() == [n, a, b, 0] && Under(q, 1).Ints() == [n, a, b, 1];
  }

  /** Every panel of a tree reads its own path if and only if there are at most three levels. */
  lemma PathsReadRight(levels: nat)
    ensures (forall p: Path | p.Valid() && p.Level() < levels :: Reported(p) == p.Ints()) <==> levels <= 3
  {
    if levels <= 3 {
      forall p: Path | p.Valid() && p.Level() < levels
        ensures Reported(p) == p.Ints()
      {
        ShallowIsLegible(p);
      }
    } else {
      FourthLevelMisread(0, 0, 0);
      var p := Under(Under(Under(Centre(0), 0), 0), 0);
      assert p.Valid() && p.Level() == 3;
    }
  }

  lemma LegibleIffReported(p: Path)
    ensures Legible(p) <==> Reported(p) == p.Ints()
  {
    if Reported(p) == p.Ints() { IntsIdentifyPath(AsRead(p), p); }
  }
}
