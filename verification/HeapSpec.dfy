/**
  The free list of the K&R allocator as a value: an address-ordered sequence of blocks
  no two of which touch.  Addresses are bytes; a block of n units starts with its
  header and covers n * HEADER bytes.
 */
module HeapSpec {

  const HEADER := 16

  datatype Block = Block(addr: int, units: nat) {
    function End(): (e: int) {
      addr + HEADER * units
    }

    predicate Covers(u: int) {
      addr <= u < End()
    }

    predicate Apart(b: Block) {
      End() <= b.addr || b.End() <= addr
    }
  }

  /** Address order, with a gap between neighbours. */
  ghost predicate Spaced(free: seq<Block>) {
    && (forall i :: 0 <= i < |free| ==> free[i].units > 0)
    && (forall i, j :: 0 <= i < j < |free| ==> free[i].End() < free[j].addr)
  }

  ghost predicate InFree(free: seq<Block>, u: int) {
    exists i :: 0 <= i < |free| && free[i].Covers(u)
  }

  /** b lies after the first j blocks and before the others. */
  ghost predicate Fits(free: seq<Block>, j: nat, b: Block) {
    && j <= |free| && b.units > 0
    && (forall i :: 0 <= i < j ==> free[i].End() <= b.addr)
    && (forall i :: j <= i < |free| ==> b.End() <= free[i].addr)
  }

  ghost predicate TouchesBelow(free: seq<Block>, j: nat, b: Block) {
    0 < j <= |free| && free[j - 1].End() == b.addr
  }

  ghost predicate TouchesAbove(free: seq<Block>, j: nat, b: Block) {
    j < |free| && b.End() == free[j].addr
  }

  /** b merged with the block above if they touch, and the blocks then left above. */
  ghost function MergedUp(free: seq<Block>, j: nat, b: Block): (m: Block)
    requires j <= |free|
  {
    if TouchesAbove(free, j, b) then Block(b.addr, b.units + free[j].units) else b
  }

  ghost function Above(free: seq<Block>, j: nat, b: Block): (r: seq<Block>)
    requires j <= |free|
  {
    if TouchesAbove(free, j, b) then free[j + 1..] else free[j..]
  }

  /** Put b at position j, merging it with the neighbours it touches. */
  ghost function Insert(free: seq<Block>, j: nat, b: Block): (r: seq<Block>)
    requires j <= |free|
  {
    var m := MergedUp(free, j, b);
    if TouchesBelow(free, j, b) then
      free[..j - 1] + [Block(free[j - 1].addr, free[j - 1].units + m.units)] + Above(free, j, b)
    else
      free[..j] + [m] + Above(free, j, b)
  }

  /** A block between two runs of blocks, touching neither. */
  lemma SpliceSpaced(front: seq<Block>, m: Block, back: seq<Block>)
    requires Spaced(front) && Spaced(back) && m.units > 0
    requires forall i :: 0 <= i < |front| ==> front[i].End() < m.addr
    requires forall i :: 0 <= i < |back| ==> m.End() < back[i].addr
    ensures Spaced(front + [m] + back)
  {
  }

  lemma AppendCovers(front: seq<Block>, back: seq<Block>, u: int)
    ensures InFree(front + back, u) <==> InFree(front, u) || InFree(back, u)
  {
    var r := front + back;
    if i :| 0 <= i < |front| && front[i].Covers(u) {
      assert r[i].Covers(u);
    }
    if i :| 0 <= i < |back| && back[i].Covers(u) {
      assert r[|front| + i].Covers(u);
    }
    if i :| 0 <= i < |r| && r[i].Covers(u) {
      assert i < |front| ==> front[i].Covers(u);
      assert i >= |front| ==> back[i - |front|].Covers(u);
    }
  }

  lemma SpliceCovers(front: seq<Block>, m: Block, back: seq<Block>, u: int)
    ensures InFree(front + [m] + back, u) <==> InFree(front, u) || m.Covers(u) || InFree(back, u)
  {
    AppendCovers(front + [m], back, u);
    AppendCovers(front, [m], u);
    assert [m][0] == m;
  }

  lemma MergeUpSpaced(free: seq<Block>, j: nat, b: Block)
    requires Spaced(free) && Fits(free, j, b)
    ensures var m, back := MergedUp(free, j, b), Above(free, j, b);
            && Spaced(back) && m.units > 0 && m.addr == b.addr
            && forall i :: 0 <= i < |back| ==> m.End() < back[i].addr
  {
  }

  lemma InsertSpaced(free: seq<Block>, j: nat, b: Block)
    requires Spaced(free) && Fits(free, j, b)
    ensures Spaced(Insert(free, j, b))
  {
    var m, back := MergedUp(free, j, b), Above(free, j, b);
    MergeUpSpaced(free, j, b);
    if TouchesBelow(free, j, b) {
      var low := Block(free[j - 1].addr, free[j - 1].units + m.units);
      assert low.End() == m.End();
      SpliceSpaced(free[..j - 1], low, back);
    } else {
      SpliceSpaced(free[..j], m, back);
    }
  }

  /** Merging with the block above, if any, keeps the bytes. */
  lemma MergeUpCovers(free: seq<Block>, j: nat, b: Block, u: int)
    requires j <= |free|
    ensures MergedUp(free, j, b).Covers(u) || InFree(Above(free, j, b), u) <==> b.Covers(u) || InFree(free[j..], u)
  {
    if TouchesAbove(free, j, b) {
      assert free[j..] == [free[j]] + free[j + 1..];
      AppendCovers([free[j]], free[j + 1..], u);
      assert [free[j]][0] == free[j];
    }
  }

  lemma SplitCovers(free: seq<Block>, j: nat, u: int)
    requires j <= |free|
    ensures InFree(free, u) <==> InFree(free[..j], u) || InFree(free[j..], u)
    ensures j > 0 ==> (InFree(free[..j], u) <==> InFree(free[..j - 1], u) || free[j - 1].Covers(u))
  {
    assert free == free[..j] + free[j..];
    AppendCovers(free[..j], free[j..], u);
    if j > 0 {
      var low := free[j - 1];
      assert free[..j] == free[..j - 1] + [low];
      AppendCovers(free[..j - 1], [low], u);
      assert [low][0] == low;
    }
  }

  /** Freeing adds exactly the bytes of b to the free bytes. */
  lemma InsertCovers(free: seq<Block>, j: nat, b: Block, u: int)
    requires j <= |free|
    ensures InFree(Insert(free, j, b), u) <==> InFree(free, u) || b.Covers(u)
  {
    var m, back := MergedUp(free, j, b), Above(free, j, b);
    MergeUpCovers(free, j, b, u);
    SplitCovers(free, j, u);
    if TouchesBelow(free, j, b) {
      SpliceCovers(free[..j - 1], Block(free[j - 1].addr, free[j - 1].units + m.units), back, u);
    } else {
      SpliceCovers(free[..j], m, back, u);
    }
  }

  /** Some block is now at least as large as b. */
  lemma InsertLarge(free: seq<Block>, j: nat, b: Block)
    requires j <= |free|
    ensures exists i :: 0 <= i < |Insert(free, j, b)| && Insert(free, j, b)[i].units >= b.units
  {
    var m := if TouchesBelow(free, j, b) then j - 1 else j;
    assert Insert(free, j, b)[m].units >= b.units;
  }

  /** Only the last block is new, or larger, and it ends at e. */
  ghost predicate Topped(free: seq<Block>, free': seq<Block>, e: int) {
    && free' != [] && free'[|free'| - 1].End() == e
    && forall k :: 0 <= k < |free'| - 1 ==> k < |free| && free'[k] == free[k]
  }

  /** A block above all others is the last, or the end of the last. */
  lemma InsertLast(free: seq<Block>, j: nat, b: Block)
    requires Fits(free, j, b) && Spaced(free) && forall i :: 0 <= i < |free| ==> free[i].End() <= b.addr
    ensures Topped(free, Insert(free, j, b), b.End())
  {
    assert j == |free| by {
      assert free != [] ==> free[|free| - 1].addr < b.End();
    }
  }

  /** Take n units from the tail of block i, or all of it. */
  ghost function Carve(free: seq<Block>, i: nat, n: nat): (r: seq<Block>)
    requires i < |free| && n <= free[i].units
  {
    if free[i].units == n then free[..i] + free[i + 1..]
    else free[i := Block(free[i].addr, free[i].units - n)]
  }

  ghost function Carved(free: seq<Block>, i: nat, n: nat): (b: Block)
    requires i < |free| && n <= free[i].units
  {
    Block(free[i].addr + HEADER * (free[i].units - n), n)
  }

  lemma CarveSpaced(free: seq<Block>, i: nat, n: nat)
    requires Spaced(free) && i < |free| && 0 < n <= free[i].units
    ensures Spaced(Carve(free, i, n))
  {
  }

  /** Allocation moves exactly the bytes of the carved block out of the free bytes. */
  lemma CarveCovers(free: seq<Block>, i: nat, n: nat, u: int)
    requires Spaced(free) && i < |free| && 0 < n <= free[i].units
    ensures InFree(Carve(free, i, n), u) <==> InFree(free, u) && !Carved(free, i, n).Covers(u)
    ensures Carved(free, i, n).Covers(u) ==> InFree(free, u)
  {
    var r := Carve(free, i, n);
    if InFree(free, u) && !Carved(free, i, n).Covers(u) {
      var k :| 0 <= k < |free| && free[k].Covers(u);
      if free[i].units == n && k > i {
        assert r[k - 1] == free[k];
      } else {
        assert r[k].Covers(u);
      }
    }
    if InFree(r, u) {
      var k :| 0 <= k < |r| && r[k].Covers(u);
      if free[i].units == n && k >= i {
        assert r[k] == free[k + 1];
      } else {
        assert free[k].Covers(u);
      }
    }
    if Carved(free, i, n).Covers(u) {
      assert free[i].Covers(u);
    }
  }

  // ---------------------------------------------------------------- request sizes

  /** Units for a request of nbytes: the payload rounded up, and one header. */
  function UnitsFor(nbytes: nat): (n: nat) {
    (nbytes + HEADER - 1) / HEADER + 1
  }

  /** The units morecore asks for. */
  function CoreUnits(n: nat): (nu: nat)
    ensures nu >= n && nu >= 4096 && (nu == n || nu == 4096)
  {
    if n < 4096 then 4096 else n
  }

  /** sbrk takes an int: the argument is reduced to 32 bits and read as signed. */
  function SbrkArgument(nu: nat): (k: int) {
    var low := nu * HEADER % 0x1_0000_0000;
    if low < 0x8000_0000 then low else low - 0x1_0000_0000
  }

  /** The payload fits behind the header, with less than one unit to spare. */
  lemma UnitsForFits(nbytes: nat)
    ensures 2 <= UnitsFor(nbytes) || nbytes == 0
    ensures nbytes <= HEADER * (UnitsFor(nbytes) - 1) < nbytes + HEADER
  {
  }

  /** sbrk is asked for what morecore believes it gets exactly below 2^27 units. */
  lemma SbrkArgumentExact(nu: nat)
    ensures SbrkArgument(nu) == nu * HEADER <==> nu < 0x800_0000
    ensures SbrkArgument(nu) <= nu * HEADER
  {
  }
}
