/** Slices of Go, as far as appending needs them: part of a backing array, whose length is the
    capacity and which other slices may share. */
module Slices {

  class Backing {
    var cells: seq<int>

    constructor (cells: seq<int>)
      ensures this.cells == cells
    {
      this.cells := cells;
    }
  }

  datatype Slice = Slice(backing: Backing, len: nat)
  {
    ghost predicate Fits()
      reads backing`cells
    {
      len <= |backing.cells|
    }

    function Elements(): seq<int>
      requires Fits()
      reads backing`cells
    {
      backing.cells[..len]
    }
  }

  /** With spare capacity the element is written behind the slice, into memory that other slices may
      read; a full slice is copied to new memory of twice the size. */
  method Append(s: Slice, x: int) returns (r: Slice)
    requires 0 < s.len && s.Fits()
    modifies s.backing`cells
    ensures r.len == s.len + 1 && r.Fits() && r.Elements() == old(s.Elements()) + [x]
    ensures old(s.len < |s.backing.cells|) ==>
      r.backing == s.backing && s.backing.cells == old(s.backing.cells)[s.len := x]
    ensures old(s.len == |s.backing.cells|) ==>
      fresh(r.backing) && s.backing.cells == old(s.backing.cells) && |r.backing.cells| == 2 * s.len
  {
    if s.len < |s.backing.cells| {
      s.backing.cells := s.backing.cells[s.len := x];
      r := Slice(s.backing, s.len + 1);
    } else {
      var more := new Backing(s.backing.cells + [x] + seq(s.len - 1, _ => 0));
      r := Slice(more, s.len + 1);
    }
  }
}
