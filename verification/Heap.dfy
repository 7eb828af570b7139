/**
  malloc and free over header words in memory.  The free list is a ring through the
  `ptr` words, entered at `freep`; the static header `base` lies below the heap and is
  always on the ring.
 */
module Heap {
  import opened HeapSpec

  /** Node 0 of the ring is the base header, node i + 1 is free block i. */
  ghost function Node(base: int, free: seq<Block>, i: nat): (a: int)
    requires i <= |free|
  {
    if i == 0 then base else free[i - 1].addr
  }

  ghost function Units(free: seq<Block>, i: nat): (n: nat)
    requires i <= |free|
  {
    if i == 0 then 0 else free[i - 1].units
  }

  function Succ(n: nat, i: nat): (j: nat)
    requires i <= n
    ensures j <= n
  {
    if i == n then 0 else i + 1
  }

  /** Node i carries its size and points to the next node. */
  ghost predicate Linked(ptr: map<int, int>, size: map<int, int>, base: int, free: seq<Block>, i: nat)
    requires i <= |free|
  {
    var a := Node(base, free, i);
    && a in ptr && ptr[a] == Node(base, free, Succ(|free|, i))
    && a in size && size[a] == Units(free, i)
  }

  /** The header words form one cycle through base and the free blocks in address order. */
  ghost predicate Ring(ptr: map<int, int>, size: map<int, int>, base: int, free: seq<Block>) {
    forall i {:trigger Linked(ptr, size, base, free, i)} :: 0 <= i <= |free| ==> Linked(ptr, size, base, free, i)
  }

  ghost predicate OnRing(base: int, free: seq<Block>, a: int) {
    exists i :: 0 <= i <= |free| && Node(base, free, i) == a
  }

  /** Free blocks, live allocations, and the regions obtained from sbrk below brk. */
  datatype Store = Store(free: seq<Block>, live: map<int, nat>, granted: seq<Block>, brk: int) {
    ghost predicate InLive(u: int) {
      exists a :: a in live && Block(a, live[a]).Covers(u)
    }

    ghost predicate Disjoint() {
      && (forall a, i :: a in live && 0 <= i < |free| ==> Block(a, live[a]).Apart(free[i]))
      && (forall a, b :: a in live && b in live && a != b ==> Block(a, live[a]).Apart(Block(b, live[b])))
    }

    ghost predicate Above(base: int) {
      && (forall i :: 0 <= i < |free| ==> base < free[i].addr && free[i].End() <= brk)
      && (forall a :: a in live ==> base < a && live[a] > 0 && Block(a, live[a]).End() <= brk)
    }

    /** Every byte obtained from sbrk is in exactly one free or live block. */
    ghost predicate Conserved() {
      forall u :: InFree(granted, u) <==> InFree(free, u) || InLive(u)
    }

    ghost predicate Valid(base: int) {
      Spaced(free) && Disjoint() && Above(base) && Conserved()
    }
  }

  datatype Result =
    | Pointer(addr: int)   // first byte after the header
    | Null                 // sbrk refused
    | Overrun              // sbrk was asked for less than the block that morecore records

  lemma NodesIncrease(base: int, free: seq<Block>, i: nat, j: nat)
    requires Spaced(free) && i < j <= |free| && forall k :: 0 <= k < |free| ==> base < free[k].addr
    ensures Node(base, free, i) < Node(base, free, j)
  {
  }

  /** A block apart from all free blocks has a place among them. */
  lemma {:induction false} PlaceOf(free: seq<Block>, b: Block) returns (j: nat)
    requires Spaced(free) && b.units > 0 && forall i :: 0 <= i < |free| ==> b.Apart(free[i])
    ensures Fits(free, j, b)
  {
    if free == [] || free[|free| - 1].End() <= b.addr {
      j := |free|;
    } else {
      j := PlaceOf(free[..|free| - 1], b);
    }
  }

  /** The ring walk from k reaches j after this many steps. */
  function Steps(n: nat, k: nat, j: nat): (d: nat)
    requires k <= n && j <= n
  {
    if k <= j then j - k else n + 1 - k + j
  }

  class Allocator {
    const base: int
    var ptr: map<int, int>
    var size: map<int, int>
    var freep: int                 // 0 before the first call
    ghost var store: Store

    ghost predicate Valid()
      reads this
    {
      && base > 0 && base < store.brk && store.Valid(base)
      && (forall a :: a in store.live ==> a in size && size[a] == store.live[a])
      && if freep == 0 then store.free == [] && store.live == map[]
         else Ring(ptr, size, base, store.free) && OnRing(base, store.free, freep)
    }

    constructor (base: int, brk: int)
      requires 0 < base < brk
      ensures Valid() && this.base == base && store == Store([], map[], [], brk)
    {
      this.base, ptr, size, freep := base, map[], map[], 0;
      store := Store([], map[], [], brk);
    }

    /** free's search: the node after which bp belongs. */
    method FindPlace(bp: int, ghost j: nat) returns (p: int)
      requires Ring(ptr, size, base, store.free) && OnRing(base, store.free, freep)
      requires Spaced(store.free) && forall k :: 0 <= k < |store.free| ==> base < store.free[k].addr
      requires base < bp && j <= |store.free| && (j > 0 ==> store.free[j - 1].addr < bp) && (j < |store.free| ==> bp < store.free[j].addr)
      ensures p == Node(base, store.free, j)
    {
      ghost var free := store.free;
      ghost var k :| 0 <= k <= |free| && Node(base, free, k) == freep;
      p := freep;
      assert Linked(ptr, size, base, free, k);
      while !(bp > p && bp < ptr[p])
        invariant 0 <= k <= |free| && p == Node(base, free, k)
        invariant p in ptr && ptr[p] == Node(base, free, Succ(|free|, k))
        decreases Steps(|free|, k, j)
      {
        WalkStep(base, free, bp, j, k);
        if p >= ptr[p] && (bp > p || bp < ptr[p]) {
          break;
        }
        p := ptr[p];
        k := Succ(|free|, k);
        assert Linked(ptr, size, base, free, k);
      }
      WalkStep(base, free, bp, j, k);
    }

    /** The pointer surgery of free: bp goes after p, merged with what it touches. */
    method Relink(bp: int, p: int, ghost j: nat)
      requires Ring(ptr, size, base, store.free) && Spaced(store.free) && base < bp
      requires forall k :: 0 <= k < |store.free| ==> base < store.free[k].addr
      requires bp in size && size[bp] > 0 && Fits(store.free, j, Block(bp, size[bp])) && p == Node(base, store.free, j)
      modifies this`ptr, this`size, this`freep
      ensures Relinked(old(ptr), old(size), ptr, size, base, store.free, j, Block(bp, old(size)[bp]))
      ensures freep == p
    {
      PlaceFacts(ptr, size, base, store.free, j, Block(bp, size[bp]));
      assert size[bp := size[bp]] == size;
      if bp + HEADER * size[bp] == ptr[p] {
        var next := ptr[p];
        size, ptr := size[bp := size[bp] + size[next]], ptr[bp := ptr[next]];
      } else {
        ptr := ptr[bp := ptr[p]];
      }
      if p + HEADER * size[p] == bp {
        size, ptr := size[p := size[p] + size[bp]], ptr[p := ptr[bp]];
      } else {
        ptr := ptr[p := bp];
      }
      freep := p;
    }

    /**
      free's body, shared with morecore: link the block at bp into the ring, merging
      it with the neighbours it touches.
     */
    method Link(bp: int) returns (ghost j: nat)
      requires base > 0 && Ring(ptr, size, base, store.free) && OnRing(base, store.free, freep)
      requires Spaced(store.free) && forall k :: 0 <= k < |store.free| ==> base < store.free[k].addr
      requires base < bp && bp in size && size[bp] > 0
      requires forall i :: 0 <= i < |store.free| ==> Block(bp, size[bp]).Apart(store.free[i])
      modifies this`ptr, this`size, this`freep
      ensures Fits(store.free, j, Block(bp, old(size)[bp]))
      ensures Ring(ptr, size, base, Insert(store.free, j, Block(bp, old(size)[bp])))
      ensures freep != 0 && OnRing(base, Insert(store.free, j, Block(bp, old(size)[bp])), freep)
      ensures Below(store.free, base, bp, freep)
      ensures forall a :: a in old(size) && a != bp && !OnRing(base, store.free, a) ==> a in size && size[a] == old(size)[a]
    {
      ghost var free, b := store.free, Block(bp, size[bp]);
      j := PlaceOf(free, b);
      var p := FindPlace(bp, j);
      Relink(bp, p, j);
      assert Below(free, base, bp, freep);
      RingInserted(old(ptr), old(size), ptr, size, base, free, j, b);
    }

    /** free of a live allocation: it leaves `live`, and nothing else does. */
    method Free(ap: int)
      requires Valid() && ap - HEADER in store.live
      modifies this
      ensures Valid()
      ensures store.live == old(store.live) - {ap - HEADER}
      ensures store.granted == old(store.granted) && store.brk == old(store.brk)
      ensures forall u :: InFree(store.free, u) <==>
                          InFree(old(store.free), u) || Block(ap - HEADER, old(store.live)[ap - HEADER]).Covers(u)
      ensures Below(old(store.free), base, ap - HEADER, freep)
    {
      var bp := ap - HEADER;
      ghost var st, b := store, Block(bp, store.live[bp]);
      ghost var j := Link(bp);
      store := Store(Insert(st.free, j, b), st.live - {bp}, st.granted, st.brk);
      FreedValid(st, base, bp, j);
      LiveSizesKept(st, base, old(size), size, bp);
    }

    /** sbrk has returned hp; record nu units there and free them into the ring. */
    method Morecore(hp: int, nu: nat)
      requires Valid() && freep != 0 && hp >= store.brk && nu > 0
      modifies this
      ensures Valid() && freep != 0 && store.live == old(store.live)
      ensures store.granted == old(store.granted) + [Block(hp, nu)] && store.brk == Block(hp, nu).End()
      ensures exists i :: 0 <= i < |store.free| && store.free[i].units >= nu
      ensures Topped(old(store.free), store.free, store.brk)
    {
      hide Insert, Ring, OnRing, Below, Topped, Spaced, Store.Disjoint, Store.Conserved;
      ghost var st, b := store, Block(hp, nu);
      size := size[hp := nu];
      FreshHeader(ptr, old(size), size, base, st, hp);
      ghost var mid := size;
      ghost var j := Link(hp);
      store := Store(Insert(st.free, j, b), st.live, st.granted + [b], b.End());
      InsertLarge(st.free, j, b);
      InsertLast(st.free, j, b);
      GrownValid(st, base, b, j);
      LiveSizesKept(st, base, mid, size, hp);
    }

    /**
      malloc's walk around the ring from freep, up to the first block of n units; p is
      freep itself if there is none.
     */
    method Search(n: nat) returns (prevp: int, p: int, found: bool, ghost i: nat)
      requires Valid() && freep != 0 && n > 0
      ensures found ==> NextFit(store.free, freep, n, i) && prevp == Node(base, store.free, i) && p == store.free[i].addr
      ensures !found ==> forall k :: 0 <= k < |store.free| ==> store.free[k].units < n
    {
      ghost var free := store.free;
      ghost var f :| 0 <= f <= |free| && Node(base, free, f) == freep;
      ghost var k, seen := f, 0;
      assert Linked(ptr, size, base, free, f);
      prevp := freep;
      p := ptr[prevp];
      while true
        invariant 0 <= k <= |free| && 0 <= seen <= |free| && k == Ahead(|free|, f, seen)
        invariant prevp == Node(base, free, k) && p == Node(base, free, Succ(|free|, k))
        invariant SeenSmall(free, f, seen, n)
        decreases |free| - seen
      {
        assert Linked(ptr, size, base, free, Succ(|free|, k));
        if size[p] >= n {
          NextFitFound(base, free, f, seen, n, k);
          return prevp, p, true, k;
        }
        SeenOneMore(base, free, f, seen, n);
        if p == freep {
          return prevp, p, false, 0;
        }
        prevp, k, seen := p, Succ(|free|, k), seen + 1;
        p := ptr[prevp];
      }
    }

    /** malloc's allocation from the block at p, whose predecessor on the ring is prevp. */
    method Take(prevp: int, p: int, n: nat, ghost i: nat) returns (q: int)
      requires Valid() && freep != 0 && n > 0 && i < |store.free| && n <= store.free[i].units
      requires prevp == Node(base, store.free, i) && p == store.free[i].addr
      modifies this
      ensures Valid() && freep != 0
      ensures q == Carved(old(store.free), i, n).addr && q !in old(store.live)
      ensures store.live == old(store.live)[q := n]
      ensures store.free == Carve(old(store.free), i, n) && freep == prevp
      ensures store.granted == old(store.granted) && store.brk == old(store.brk)
    {
      hide OnRing, Spaced, Store.Disjoint, Store.Conserved;
      ghost var st := store;
      assert Linked(ptr, size, base, st.free, i + 1);
      assert Linked(ptr, size, base, st.free, i);
      q := p;
      if size[p] == n {
        ptr := ptr[prevp := ptr[p]];
      } else {
        size := size[p := size[p] - n];
        q := p + HEADER * size[p];
        size := size[q := n];
      }
      freep := prevp;
      store := Store(Carve(st.free, i, n), st.live[q := n], st.granted, st.brk);
      RingCarved(old(ptr), old(size), ptr, size, base, st.free, i, n);
      TakenValid(st, base, i, n);
      TakenSizes(st, base, old(size), size, i, n);
    }

    /**
      malloc, given what sbrk would answer (negative: refused).  A pointer is to a new
      live block of UnitsFor(nbytes) units; Null exactly when no free block is large
      enough and sbrk refuses.
     */
    method Malloc(nbytes: nat, sbrk: int) returns (r: Result)
      requires Valid() && nbytes < 0x1_0000_0000 && (sbrk < 0 || sbrk >= store.brk)
      modifies this
      ensures r.Overrun? || Valid()
      ensures r.Pointer? ==> r.addr - HEADER !in old(store.live)
      ensures r.Pointer? ==> store.live == old(store.live)[r.addr - HEADER := UnitsFor(nbytes)]
      ensures !r.Pointer? ==> store.live == old(store.live) && store.granted == old(store.granted)
      ensures store.granted == old(store.granted) || store.granted == old(store.granted) + [Block(sbrk, CoreUnits(UnitsFor(nbytes)))]
      ensures !r.Pointer? || store.granted != old(store.granted) ==>
                forall k :: 0 <= k < |old(store.free)| ==> old(store.free)[k].units < UnitsFor(nbytes)
      ensures var none := forall k :: 0 <= k < |old(store.free)| ==> old(store.free)[k].units < UnitsFor(nbytes);
              && (r.Null? <==> none && sbrk < 0)
              && (r.Overrun? <==> none && sbrk >= 0 && CoreUnits(UnitsFor(nbytes)) >= 0x800_0000)
      ensures r.Overrun? ==> SbrkArgument(CoreUnits(UnitsFor(nbytes))) < CoreUnits(UnitsFor(nbytes)) * HEADER
      ensures r.Pointer? && store.granted == old(store.granted) ==>
                exists i: nat :: NextFit(old(store.free), old(freep), UnitsFor(nbytes), i) && TailOf(old(store.free)[i], r.addr, UnitsFor(nbytes))
                                 && store.free == Carve(old(store.free), i, UnitsFor(nbytes)) && freep == Node(base, old(store.free), i)
      ensures r.Pointer? && store.granted != old(store.granted) ==> TailOf(Block(sbrk, CoreUnits(UnitsFor(nbytes))), r.addr, UnitsFor(nbytes))
    {
      hide SbrkArgument, CoreUnits, Ring, OnRing, Carve, Sooner, Spaced, Store.Disjoint, Store.Conserved, Store.Above;
      var n := UnitsFor(nbytes);
      if freep == 0 {
        ptr, size, freep := ptr[base := base], size[base := 0], base;
        RingAlone(ptr, size, base);
      }
      var prevp, p, found;
      ghost var i;
      prevp, p, found, i := Search(n);
      if !found {
        var nu := CoreUnits(n);
        if sbrk < 0 {
          return Null;
        }
        SbrkArgumentExact(nu);
        if SbrkArgument(nu) != nu * HEADER {
          return Overrun;
        }
        Morecore(sbrk, nu);
        prevp, p, found, i := Search(n);
      }
      var q := Take(prevp, p, n, i);
      return Pointer(q + HEADER);
    }
  }

  lemma RingAlone(ptr: map<int, int>, size: map<int, int>, base: int)
    requires base in ptr && ptr[base] == base && base in size && size[base] == 0
    ensures Ring(ptr, size, base, []) && OnRing(base, [], base)
  {
    assert Node(base, [], 0) == base;
  }

  // ---------------------------------------------------------------- the store

  lemma FreedValid(st: Store, base: int, a: int, j: nat)
    requires st.Valid(base) && a in st.live && Fits(st.free, j, Block(a, st.live[a]))
    ensures Store(Insert(st.free, j, Block(a, st.live[a])), st.live - {a}, st.granted, st.brk).Valid(base)
    ensures forall u :: InFree(Insert(st.free, j, Block(a, st.live[a])), u) <==> InFree(st.free, u) || Block(a, st.live[a]).Covers(u)
  {
    var b := Block(a, st.live[a]);
    var st' := Store(Insert(st.free, j, b), st.live - {a}, st.granted, st.brk);
    InsertSpaced(st.free, j, b);
    InsertWithin(st.free, j, b, base, st.brk);
    forall x | x in st'.live
      ensures forall i :: 0 <= i < |st'.free| ==> Block(x, st'.live[x]).Apart(st'.free[i])
    {
      InsertApart(st.free, j, b, Block(x, st.live[x]));
    }
    forall u
      ensures InFree(st'.free, u) <==> InFree(st.free, u) || b.Covers(u)
    {
      InsertCovers(st.free, j, b, u);
    }
    forall u
      ensures InFree(st'.granted, u) <==> InFree(st'.free, u) || st'.InLive(u)
    {
      if st.InLive(u) {
        var x :| x in st.live && Block(x, st.live[x]).Covers(u);
        assert x != a ==> x in st'.live && Block(x, st'.live[x]).Covers(u);
      }
      if st'.InLive(u) {
        var x :| x in st'.live && Block(x, st'.live[x]).Covers(u);
        assert x in st.live && Block(x, st.live[x]).Covers(u);
      }
    }
  }

  lemma GrownValid(st: Store, base: int, b: Block, j: nat)
    requires st.Valid(base) && b.addr >= st.brk > base && b.units > 0 && Fits(st.free, j, b)
    ensures Store(Insert(st.free, j, b), st.live, st.granted + [b], b.End()).Valid(base)
  {
    var st' := Store(Insert(st.free, j, b), st.live, st.granted + [b], b.End());
    InsertSpaced(st.free, j, b);
    InsertWithin(st.free, j, b, base, b.End());
    forall x | x in st'.live
      ensures forall i :: 0 <= i < |st'.free| ==> Block(x, st'.live[x]).Apart(st'.free[i])
    {
      InsertApart(st.free, j, b, Block(x, st.live[x]));
    }
    forall u
      ensures InFree(st'.granted, u) <==> InFree(st'.free, u) || st'.InLive(u)
    {
      InsertCovers(st.free, j, b, u);
      AppendCovers(st.granted, [b], u);
      assert [b][0] == b;
      assert st'.InLive(u) <==> st.InLive(u) by {
        if st.InLive(u) {
          var x :| x in st.live && Block(x, st.live[x]).Covers(u);
          assert x in st'.live && Block(x, st'.live[x]).Covers(u);
        }
        if st'.InLive(u) {
          var x :| x in st'.live && Block(x, st'.live[x]).Covers(u);
          assert x in st.live && Block(x, st.live[x]).Covers(u);
        }
      }
    }
  }

  lemma TakenValid(st: Store, base: int, i: nat, n: nat)
    requires st.Valid(base) && i < |st.free| && 0 < n <= st.free[i].units
    ensures var c := Carved(st.free, i, n);
            c.addr !in st.live && Store(Carve(st.free, i, n), st.live[c.addr := n], st.granted, st.brk).Valid(base)
  {
    var c := Carved(st.free, i, n);
    var st' := Store(Carve(st.free, i, n), st.live[c.addr := n], st.granted, st.brk);
    assert c.addr in st.live ==> Block(c.addr, st.live[c.addr]).Apart(st.free[i]);
    CarveSpaced(st.free, i, n);
    CarveApart(st.free, i, n);
    forall u
      ensures InFree(st'.granted, u) <==> InFree(st'.free, u) || st'.InLive(u)
    {
      CarveCovers(st.free, i, n, u);
      if st.InLive(u) {
        var x :| x in st.live && Block(x, st.live[x]).Covers(u);
        assert x in st'.live && Block(x, st'.live[x]).Covers(u);
      }
      if c.Covers(u) {
        assert c.addr in st'.live && Block(c.addr, st'.live[c.addr]).Covers(u);
      }
      if st'.InLive(u) {
        var x :| x in st'.live && Block(x, st'.live[x]).Covers(u);
        assert x != c.addr ==> x in st.live && Block(x, st.live[x]).Covers(u);
      }
    }
    forall x, k | x in st'.live && 0 <= k < |st'.free|
      ensures Block(x, st'.live[x]).Apart(st'.free[k])
    {
      if x != c.addr {
        CarveKeepsApart(st.free, i, n, Block(x, st.live[x]), k);
      }
    }
    forall x, y | x in st'.live && y in st'.live && x != y
      ensures Block(x, st'.live[x]).Apart(Block(y, st'.live[y]))
    {
      assert x in st.live ==> Block(x, st.live[x]).Apart(st.free[i]);
      assert y in st.live ==> Block(y, st.live[y]).Apart(st.free[i]);
    }
    forall k | 0 <= k < |st'.free|
      ensures base < st'.free[k].addr && st'.free[k].End() <= st.brk
    {
      CarvedFrom(st.free, i, n, k);
    }
  }

  /** Each block after carving lies inside a block from before. */
  lemma CarvedFrom(free: seq<Block>, i: nat, n: nat, k: nat)
    requires i < |free| && n <= free[i].units && k < |Carve(free, i, n)|
    ensures exists m :: 0 <= m < |free| && free[m].addr == Carve(free, i, n)[k].addr && Carve(free, i, n)[k].End() <= free[m].End()
  {
    var m := if free[i].units == n && k >= i then k + 1 else k;
    assert free[m].addr == Carve(free, i, n)[k].addr && Carve(free, i, n)[k].End() <= free[m].End();
  }

  lemma CarveKeepsApart(free: seq<Block>, i: nat, n: nat, b: Block, k: nat)
    requires i < |free| && n <= free[i].units && k < |Carve(free, i, n)|
    requires forall m :: 0 <= m < |free| ==> b.Apart(free[m])
    ensures b.Apart(Carve(free, i, n)[k])
  {
    CarvedFrom(free, i, n, k);
  }

  lemma CarveApart(free: seq<Block>, i: nat, n: nat)
    requires Spaced(free) && i < |free| && 0 < n <= free[i].units
    ensures forall k :: 0 <= k < |Carve(free, i, n)| ==> Carved(free, i, n).Apart(Carve(free, i, n)[k])
  {
  }

  lemma InsertWithin(free: seq<Block>, j: nat, b: Block, lo: int, hi: int)
    requires j <= |free| && forall i :: 0 <= i < |free| ==> lo < free[i].addr && free[i].End() <= hi
    requires lo < b.addr && b.End() <= hi
    ensures forall i :: 0 <= i < |Insert(free, j, b)| ==> lo < Insert(free, j, b)[i].addr && Insert(free, j, b)[i].End() <= hi
  {
  }

  /** A non-empty block apart from two touching blocks is apart from their union. */
  lemma ApartUnion(x: Block, y: Block, c: Block)
    requires x.End() == y.addr && c.units > 0 && x.units > 0 && y.units > 0 && c.Apart(x) && c.Apart(y)
    ensures c.Apart(Block(x.addr, x.units + y.units))
  {
  }

  lemma MergedUpApart(free: seq<Block>, j: nat, b: Block, c: Block)
    requires j <= |free| && b.units > 0 && c.units > 0 && c.Apart(b)
    requires forall i :: 0 <= i < |free| ==> free[i].units > 0 && c.Apart(free[i])
    ensures c.Apart(MergedUp(free, j, b)) && MergedUp(free, j, b).units > 0 && MergedUp(free, j, b).addr == b.addr
  {
    if TouchesAbove(free, j, b) {
      ApartUnion(b, free[j], c);
    }
  }

  lemma InsertApart(free: seq<Block>, j: nat, b: Block, c: Block)
    requires j <= |free| && b.units > 0 && c.units > 0 && c.Apart(b)
    requires forall i :: 0 <= i < |free| ==> free[i].units > 0 && c.Apart(free[i])
    ensures forall i :: 0 <= i < |Insert(free, j, b)| ==> c.Apart(Insert(free, j, b)[i])
  {
    MergedUpApart(free, j, b, c);
    if TouchesBelow(free, j, b) {
      ApartUnion(free[j - 1], MergedUp(free, j, b), c);
    }
  }

  /** Linking a block leaves the headers of the other live blocks alone. */
  lemma LiveSizesKept(st: Store, base: int, size: map<int, int>, size': map<int, int>, bp: int)
    requires st.Valid(base) && (forall a :: a in st.live && a != bp ==> a in size && size[a] == st.live[a])
    requires forall a :: a in size && a != bp && !OnRing(base, st.free, a) ==> a in size' && size'[a] == size[a]
    ensures forall a :: a in st.live && a != bp ==> a in size' && size'[a] == st.live[a]
  {
    forall a | a in st.live && a != bp
      ensures !OnRing(base, st.free, a)
    {
      forall i | 0 <= i <= |st.free|
        ensures Node(base, st.free, i) != a
      {
        if i > 0 {
          assert Block(a, st.live[a]).Apart(st.free[i - 1]);
        }
      }
    }
  }

  /** A header written above the break disturbs neither the ring nor the live blocks. */
  lemma FreshHeader(ptr: map<int, int>, size: map<int, int>, size': map<int, int>, base: int, st: Store, hp: int)
    requires st.Valid(base) && Ring(ptr, size, base, st.free) && base < st.brk <= hp
    requires hp in size' && size' == size[hp := size'[hp]]
    ensures Ring(ptr, size', base, st.free)
    ensures forall i :: 0 <= i < |st.free| && size'[hp] >= 0 ==> Block(hp, size'[hp]).Apart(st.free[i])
    ensures hp !in st.live
  {
    forall i | 0 <= i <= |st.free|
      ensures Linked(ptr, size', base, st.free, i)
    {
      assert Linked(ptr, size, base, st.free, i);
    }
  }

  lemma TakenSizes(st: Store, base: int, size: map<int, int>, size': map<int, int>, i: nat, n: nat)
    requires st.Valid(base) && i < |st.free| && 0 < n <= st.free[i].units
    requires forall a :: a in st.live ==> a in size && size[a] == st.live[a]
    requires st.free[i].addr in size && size[st.free[i].addr] == st.free[i].units
    requires var c, p := Carved(st.free, i, n), st.free[i].addr;
             size' == if st.free[i].units == n then size else size[p := st.free[i].units - n][c.addr := n]
    ensures var live := st.live[Carved(st.free, i, n).addr := n];
            forall a :: a in live ==> a in size' && size'[a] == live[a]
  {
    forall a | a in st.live
      ensures a != st.free[i].addr && a != Carved(st.free, i, n).addr
    {
      assert Block(a, st.live[a]).Apart(st.free[i]);
    }
  }

  // ---------------------------------------------------------------- ring lemmas

  /** free's two tests stop the walk exactly at the place of bp. */
  lemma WalkStep(base: int, free: seq<Block>, bp: int, j: nat, k: nat)
    requires Spaced(free) && forall i :: 0 <= i < |free| ==> base < free[i].addr
    requires base < bp && j <= |free| && (j > 0 ==> free[j - 1].addr < bp) && (j < |free| ==> bp < free[j].addr)
    requires k <= |free|
    ensures var p, q := Node(base, free, k), Node(base, free, Succ(|free|, k));
            (bp > p && bp < q) || (p >= q && (bp > p || bp < q)) <==> k == j
    ensures k != j ==> Steps(|free|, Succ(|free|, k), j) < Steps(|free|, k, j)
  {
  }

  /** What the merge tests of free see at the place of b. */
  lemma PlaceFacts(ptr: map<int, int>, size: map<int, int>, base: int, free: seq<Block>, j: nat, b: Block)
    requires Ring(ptr, size, base, free) && Spaced(free) && base < b.addr && Fits(free, j, b)
    requires forall i :: 0 <= i < |free| ==> base < free[i].addr
    ensures var p, q := Node(base, free, j), Node(base, free, Succ(|free|, j));
            && p in ptr && p in size && ptr[p] == q && q in ptr && q in size && p != b.addr && q != b.addr
            && size[p] == Units(free, j) && size[q] == Units(free, Succ(|free|, j))
            && ptr[q] == Node(base, free, Succ(|free|, Succ(|free|, j)))
            && (b.End() == q <==> TouchesAbove(free, j, b))
            && (p + HEADER * size[p] == b.addr <==> TouchesBelow(free, j, b))
  {
    assert Linked(ptr, size, base, free, j);
    assert Linked(ptr, size, base, free, Succ(|free|, j));
  }

  /** The header words after linking b at place j. */
  ghost predicate Relinked(ptr: map<int, int>, size: map<int, int>, ptr': map<int, int>, size': map<int, int>,
                           base: int, free: seq<Block>, j: nat, b: Block)
    requires j <= |free|
  {
    var p := Node(base, free, j);
    var m := MergedUp(free, j, b);
    var next := Node(base, free, if TouchesAbove(free, j, b) then Succ(|free|, j + 1) else Succ(|free|, j));
    if TouchesBelow(free, j, b)
    then ptr' == ptr[b.addr := next][p := next] && size' == size[b.addr := m.units][p := Units(free, j) + m.units]
    else ptr' == ptr[b.addr := next][p := b.addr] && size' == size[b.addr := m.units]
  }

  /** The old index of the node that is node i after the insertion, other than the merged one. */
  ghost function OldIndex(free: seq<Block>, j: nat, b: Block, i: nat): (k: nat)
    requires j <= |free|
  {
    var m := if TouchesBelow(free, j, b) then j else j + 1;   // the merged node
    if i <= m then i else i - m + j + (if TouchesAbove(free, j, b) then 1 else 0)
  }

  lemma InsertedNode(base: int, free: seq<Block>, j: nat, b: Block, i: nat)
    requires j <= |free| && i <= |Insert(free, j, b)|
    ensures var m := if TouchesBelow(free, j, b) then j else j + 1;
            var r := Insert(free, j, b);
            && m <= |r|
            && (i != m ==> OldIndex(free, j, b, i) <= |free|
                           && Node(base, r, i) == Node(base, free, OldIndex(free, j, b, i))
                           && Units(r, i) == Units(free, OldIndex(free, j, b, i)))
            && Node(base, r, m) == (if TouchesBelow(free, j, b) then Node(base, free, j) else b.addr)
            && Units(r, m) == MergedUp(free, j, b).units + (if TouchesBelow(free, j, b) then Units(free, j) else 0)
  {
  }

  lemma RingInserted(ptr: map<int, int>, size: map<int, int>, ptr': map<int, int>, size': map<int, int>,
                     base: int, free: seq<Block>, j: nat, b: Block)
    requires Ring(ptr, size, base, free) && Spaced(free) && base < b.addr && Fits(free, j, b)
    requires forall i :: 0 <= i < |free| ==> base < free[i].addr
    requires Relinked(ptr, size, ptr', size', base, free, j, b)
    ensures Ring(ptr', size', base, Insert(free, j, b))
    ensures OnRing(base, Insert(free, j, b), Node(base, free, j))
  {
    var r := Insert(free, j, b);
    forall i | 0 <= i <= |r|
      ensures Linked(ptr', size', base, r, i)
    {
      NodeInserted(ptr, size, ptr', size', base, free, j, b, i);
    }
    InsertedNode(base, free, j, b, j);
  }

  /** No node of the ring has the address of b. */
  lemma NotANode(base: int, free: seq<Block>, j: nat, b: Block, k: nat)
    requires Spaced(free) && base < b.addr && Fits(free, j, b) && k <= |free|
    ensures Node(base, free, k) != b.addr
  {
  }

  /** A node other than the place of b and b itself keeps its words. */
  lemma OtherNodeKept(ptr: map<int, int>, size: map<int, int>, ptr': map<int, int>, size': map<int, int>,
                      base: int, free: seq<Block>, j: nat, b: Block, k: nat)
    requires Ring(ptr, size, base, free) && Spaced(free) && base < b.addr && Fits(free, j, b)
    requires forall i :: 0 <= i < |free| ==> base < free[i].addr
    requires Relinked(ptr, size, ptr', size', base, free, j, b) && k <= |free| && k != j
    ensures var a := Node(base, free, k);
            && a in ptr' && ptr'[a] == Node(base, free, Succ(|free|, k))
            && a in size' && size'[a] == Units(free, k)
  {
    assert Linked(ptr, size, base, free, k);
    NotANode(base, free, j, b, k);
    if k < j { NodesIncrease(base, free, k, j); } else { NodesIncrease(base, free, j, k); }
  }

  /** Where the node after node i of the new ring was in the old one. */
  lemma InsertedSucc(base: int, free: seq<Block>, j: nat, b: Block, i: nat)
    requires j <= |free| && i <= |Insert(free, j, b)|
    ensures var r := Insert(free, j, b);
            var m := if TouchesBelow(free, j, b) then j else j + 1;
            var next := Node(base, r, Succ(|r|, i));
            if i == m then next == Node(base, free, if TouchesAbove(free, j, b) then Succ(|free|, j + 1) else Succ(|free|, j))
            else if i == j then next == b.addr
            else OldIndex(free, j, b, i) <= |free| && next == Node(base, free, Succ(|free|, OldIndex(free, j, b, i)))
  {
    var r := Insert(free, j, b);
    InsertedNode(base, free, j, b, i);
    InsertedNode(base, free, j, b, Succ(|r|, i));
    assert |r| == |free| + 1 - (if TouchesAbove(free, j, b) then 1 else 0) - (if TouchesBelow(free, j, b) then 1 else 0);
  }

  lemma NodeInserted(ptr: map<int, int>, size: map<int, int>, ptr': map<int, int>, size': map<int, int>,
                     base: int, free: seq<Block>, j: nat, b: Block, i: nat)
    requires Ring(ptr, size, base, free) && Spaced(free) && base < b.addr && Fits(free, j, b)
    requires forall i :: 0 <= i < |free| ==> base < free[i].addr
    requires Relinked(ptr, size, ptr', size', base, free, j, b) && i <= |Insert(free, j, b)|
    ensures Linked(ptr', size', base, Insert(free, j, b), i)
  {
    InsertedNode(base, free, j, b, i);
    InsertedSucc(base, free, j, b, i);
    if i == j || i == j + 1 {
      NotANode(base, free, j, b, j);
      assert Linked(ptr, size, base, free, j);
    }
    if i != j && (i != j + 1 || TouchesBelow(free, j, b)) {
      OtherNodeKept(ptr, size, ptr', size', base, free, j, b, OldIndex(free, j, b, i));
    }
  }

  /** t nodes ahead of node f on a ring of n + 1 nodes. */
  function Ahead(n: nat, f: nat, t: nat): (k: nat)
    requires f <= n && t <= n + 1
    ensures k <= n
  {
    if f + t <= n then f + t else f + t - n - 1
  }

  /** On the way around the ring from node `from`, a comes before b. */
  ghost predicate Sooner(from: int, a: int, b: int) {
    if b > from then from < a < b else a > from || a < b
  }

  /** Block i is the first with n units on the way around the ring from node `from`. */
  ghost predicate NextFit(free: seq<Block>, from: int, n: nat, i: nat) {
    i < |free| && n <= free[i].units && forall k :: 0 <= k < |free| && Sooner(from, free[k].addr, free[i].addr) ==> free[k].units < n
  }

  /** The n units at the end of block b, for which a is the address behind the header. */
  ghost predicate TailOf(b: Block, a: int, n: nat) {
    a - HEADER + HEADER * n == b.End()
  }

  /** p is base or the block that is next below bp. */
  ghost predicate Below(free: seq<Block>, base: int, bp: int, p: int) {
    && p < bp && (p == base || exists k :: 0 <= k < |free| && free[k].addr == p)
    && forall k :: 0 <= k < |free| && free[k].addr < bp ==> free[k].addr <= p
  }

  /** The first `seen` nodes after node f are too small. */
  ghost predicate SeenSmall(free: seq<Block>, f: nat, seen: nat, n: nat)
    requires f <= |free| && seen <= |free| + 1
  {
    forall t {:trigger Ahead(|free|, f, t)} :: 1 <= t <= seen ==> Units(free, Ahead(|free|, f, t)) < n
  }

  /** The walk is back at node f exactly when it has seen every block. */
  lemma SeenOneMore(base: int, free: seq<Block>, f: nat, seen: nat, n: nat)
    requires Spaced(free) && forall k :: 0 <= k < |free| ==> base < free[k].addr
    requires f <= |free| && seen <= |free| && SeenSmall(free, f, seen, n)
    requires Units(free, Succ(|free|, Ahead(|free|, f, seen))) < n
    ensures Ahead(|free|, f, seen + 1) == Succ(|free|, Ahead(|free|, f, seen))
    ensures SeenSmall(free, f, seen + 1, n)
    ensures Node(base, free, Succ(|free|, Ahead(|free|, f, seen))) == Node(base, free, f) ==>
              forall k :: 0 <= k < |free| ==> free[k].units < n
    ensures Node(base, free, Succ(|free|, Ahead(|free|, f, seen))) != Node(base, free, f) ==> seen < |free|
  {
    var e := Ahead(|free|, f, seen + 1);
    if e < f { NodesIncrease(base, free, e, f); } else if f < e { NodesIncrease(base, free, f, e); }
    if e == f {
      forall k | 0 <= k < |free|
        ensures free[k].units < n
      {
        var t := if k + 1 > f then k + 1 - f else k + 1 + |free| + 1 - f;
        assert Ahead(|free|, f, t) == k + 1;
      }
    }
  }

  lemma NextFitFound(base: int, free: seq<Block>, f: nat, seen: nat, n: nat, i: nat)
    requires Spaced(free) && forall k :: 0 <= k < |free| ==> base < free[k].addr
    requires f <= |free| && seen <= |free| && SeenSmall(free, f, seen, n) && i == Ahead(|free|, f, seen)
    requires i < |free| && n <= free[i].units
    ensures NextFit(free, Node(base, free, f), n, i)
  {
    forall k | 0 <= k < |free| && Sooner(Node(base, free, f), free[k].addr, free[i].addr)
      ensures free[k].units < n
    {
      var t := if k + 1 > f then k + 1 - f else k + 1 + |free| + 1 - f;
      assert Ahead(|free|, f, t) == k + 1;
    }
  }

  /** The ring after block i is unlinked, when it is taken whole. */
  lemma RingUnlinked(ptr: map<int, int>, size: map<int, int>, ptr': map<int, int>, base: int, free: seq<Block>, i: nat)
    requires Ring(ptr, size, base, free) && Spaced(free) && i < |free|
    requires forall k :: 0 <= k < |free| ==> base < free[k].addr
    requires ptr' == ptr[Node(base, free, i) := Node(base, free, Succ(|free|, i + 1))]
    ensures Ring(ptr', size, base, free[..i] + free[i + 1..])
  {
    var r := free[..i] + free[i + 1..];
    forall k | 0 <= k <= |r|
      ensures Linked(ptr', size, base, r, k)
    {
      var o := if k > i then k + 1 else k;
      assert Linked(ptr, size, base, free, o);
      assert Node(base, r, k) == Node(base, free, o) && Units(r, k) == Units(free, o);
      if o < i { NodesIncrease(base, free, o, i); } else if i < o { NodesIncrease(base, free, i, o); }
    }
  }

  /** The ring after block i has shrunk, when its tail is taken. */
  lemma RingShrunk(ptr: map<int, int>, size: map<int, int>, size': map<int, int>, base: int, free: seq<Block>, i: nat, n: nat)
    requires Ring(ptr, size, base, free) && Spaced(free) && i < |free| && 0 < n < free[i].units
    requires forall k :: 0 <= k < |free| ==> base < free[k].addr
    requires size' == size[free[i].addr := free[i].units - n][Carved(free, i, n).addr := n]
    ensures Ring(ptr, size', base, free[i := Block(free[i].addr, free[i].units - n)])
  {
    var r := free[i := Block(free[i].addr, free[i].units - n)];
    forall k | 0 <= k <= |r|
      ensures Linked(ptr, size', base, r, k)
    {
      assert Linked(ptr, size, base, free, k);
      assert Node(base, r, k) == Node(base, free, k);
      assert Node(base, r, Succ(|r|, k)) == Node(base, free, Succ(|free|, k));
      if k <= i { NodesIncrease(base, free, k, i + 1); } else if i + 1 < k { NodesIncrease(base, free, i + 1, k); }
    }
  }

  /** The ring after carving n units from block i. */
  lemma RingCarved(ptr: map<int, int>, size: map<int, int>, ptr': map<int, int>, size': map<int, int>,
                   base: int, free: seq<Block>, i: nat, n: nat)
    requires Ring(ptr, size, base, free) && Spaced(free) && i < |free| && 0 < n <= free[i].units
    requires forall k :: 0 <= k < |free| ==> base < free[k].addr
    requires if free[i].units == n
             then ptr' == ptr[Node(base, free, i) := Node(base, free, Succ(|free|, i + 1))] && size' == size
             else ptr' == ptr && size' == size[free[i].addr := free[i].units - n][Carved(free, i, n).addr := n]
    ensures Ring(ptr', size', base, Carve(free, i, n))
    ensures OnRing(base, Carve(free, i, n), Node(base, free, i))
  {
    if free[i].units == n {
      RingUnlinked(ptr, size, ptr', base, free, i);
    } else {
      RingShrunk(ptr, size, size', base, free, i, n);
    }
    assert Node(base, Carve(free, i, n), i) == Node(base, free, i);
  }
}
