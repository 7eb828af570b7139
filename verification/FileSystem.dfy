/**
  The file-system code of fs.c over the disk as the buffer cache shows it: block
  allocator, block map, truncation, and reading and writing of file contents.
 */
module FileSystem {
  import opened Collections
  import opened Params
  import opened DiskBytes
  import opened FsSpec

  /** filewrite's chunk: ((MAXOPBLOCKS-1-1-2) / 2) * BSIZE */
  const CHUNK := (MAXOPBLOCKS - 1 - 1 - 2) / 2 * BSIZE

  lemma MapIndex(l: Layout, b: nat, bi: nat)
    requires l.Valid() && b % BPB == 0 && bi < BPB && b + bi < l.size
    ensures l.MapBlock(b + bi) == l.MapBlock(b) && (b + bi) % BPB == bi && (b + bi) % 8 == bi % 8
  {
    var q := b / BPB;
    assert b == BPB * q && b == 8 * (BSIZE * q);
    assert (b + bi) / BPB == q;
  }

  class Volume {
    const l: Layout
    const inodeBlock: nat -> nat      // IBLOCK
    var disk: seq<Block>
    var inodes: seq<Inode>
    ghost var logged: set<nat>        // blocks passed to log_write in this transaction

    constructor (l: Layout, inodeBlock: nat -> nat, disk: seq<Block>, inodes: seq<Inode>)
      ensures this.l == l && this.inodeBlock == inodeBlock && this.disk == disk && this.inodes == inodes && logged == {}
    {
      this.l, this.inodeBlock, this.disk, this.inodes, logged := l, inodeBlock, disk, inodes, {};
    }

    ghost function St(): (fs: Fs)
      reads this`disk, this`inodes
    {
      Fs(disk, inodes)
    }

    ghost predicate Valid()
      reads this`disk, this`inodes
    {
      Ownership(l, St())
    }

    /** balloc's scan of one block of the free map, that of the blocks from b on. */
    method ScanMapBlock(b: nat) returns (found: bool, r: nat)
      requires l.Valid() && |disk| == l.size && b % BPB == 0 && b < l.size
      ensures b <= r <= b + BPB && (found ==> r < l.size && !Used(l, disk, r)) && (!found ==> r >= l.size || r == b + BPB)
      ensures forall x :: b <= x < r && x < l.size ==> Used(l, disk, x)
    {
      hide Bit;
      var m := disk[l.MapBlock(b)];
      var bi := 0;
      while bi < BPB && b + bi < l.size
        invariant 0 <= bi <= BPB
        invariant forall x :: b <= x < b + bi && x < l.size ==> Used(l, disk, x)
      {
        MapIndex(l, b, bi);
        if !Bit(m[bi / 8], bi % 8) {
          return true, b + bi;
        }
        bi := bi + 1;
      }
      return false, b + bi;
    }

    /** balloc's scan of the free map; l.size if every block is used. */
    method FindFree() returns (r: nat)
      requires l.Valid() && |disk| == l.size
      ensures r <= l.size && (r < l.size ==> !Used(l, disk, r))
      ensures forall b :: 0 <= b < r ==> Used(l, disk, b)
    {
      hide Used;
      var b := 0;
      while b < l.size
        invariant 0 <= b && b % BPB == 0
        invariant forall x :: 0 <= x < b && x < l.size ==> Used(l, disk, x)
        decreases l.size - b
      {
        var found;
        found, r := ScanMapBlock(b);
        if found {
          return;
        }
        b := b + BPB;
      }
      return l.size;
    }

    /** balloc: the lowest free block, marked and zeroed; 0 if there is none. */
    method Balloc() returns (r: uint)
      requires Valid()
      modifies this`disk, this`logged
      ensures r == 0 ==> disk == old(disk) && logged == old(logged) && forall b :: 0 <= b < l.size ==> Used(l, disk, b)
      ensures r != 0 ==> l.dataStart <= r < l.size && !Used(l, old(disk), r) && disk == Claimed(l, old(disk), r)
      ensures r != 0 ==> forall b :: 0 <= b < r ==> Used(l, old(disk), b)
      ensures r != 0 ==> logged == old(logged) + {l.MapBlock(r), r}
    {
      var b := FindFree();
      if b == l.size {
        return 0;
      }
      assert b >= l.dataStart;
      var m, bi := l.MapBlock(b), b % BPB;
      disk := disk[m := disk[m][bi / 8 := Or(disk[m][bi / 8], b % 8)]];
      disk := disk[b := ZeroBlock()];
      logged := logged + {m, b};
      return b;
    }

    /** bfree; false is the panic "freeing free block". */
    method Bfree(b: uint) returns (ok: bool)
      requires l.Valid() && |disk| == l.size && b < l.size
      modifies this`disk, this`logged
      ensures ok <==> Used(l, old(disk), b)
      ensures ok ==> disk == Unmarked(l, old(disk), b) && logged == old(logged) + {l.MapBlock(b)}
      ensures !ok ==> disk == old(disk) && logged == old(logged)
    {
      var m, bi := l.MapBlock(b), b % BPB;
      if !Bit(disk[m][bi / 8], b % 8) {
        return false;
      }
      disk := disk[m := disk[m][bi / 8 := AndNot(disk[m][bi / 8], b % 8)]];
      logged := logged + {m};
      return true;
    }

    /** The part of bmap that fills an empty slot of the inode itself. */
    method FillInodeSlot(i: nat, s: nat) returns (b: uint)
      requires Valid() && i < |inodes| && s <= NDIRECT && Addr(St(), i, s) == 0
      modifies this`disk, this`inodes, this`logged
      ensures b == 0 ==> St() == old(St()) && logged == old(logged) && forall x :: 0 <= x < l.size ==> Used(l, disk, x)
      ensures b != 0 ==> Grown(l, old(St()), St(), i, s, b) && Valid() && SameBytes(old(St()), St())
      ensures b != 0 ==> logged == old(logged) + {l.MapBlock(b), b}
      ensures Framed(old(disk), disk, logged)
    {
      b := Balloc();
      if b != 0 {
        InodeSlotGrown(l, old(St()), i, s, b);
        inodes := inodes[i := InodeRecord(inodes[i].size, inodes[i].addrs[s := b])];
        assert St() == WithAddr(old(St()), i, s, b, Claimed(l, old(disk), b));
        GrownOwnership(l, old(St()), St(), i, s, b);
        GrownBytes(l, old(St()), St(), i, s, b);
      }
    }

    /** The part of bmap that fills an empty entry of the indirect block p. */
    method FillEntry(i: nat, p: uint, k: nat) returns (b: uint)
      requires Valid() && i < |inodes| && k < NINDIRECT
      requires p == Addr(St(), i, NDIRECT) != 0 && Addr(St(), i, NDIRECT + 1 + k) == 0
      modifies this`disk, this`logged
      ensures b == 0 ==> St() == old(St()) && logged == old(logged) && forall x :: 0 <= x < l.size ==> Used(l, disk, x)
      ensures b != 0 ==> Grown(l, old(St()), St(), i, NDIRECT + 1 + k, b) && Valid() && SameBytes(old(St()), St())
      ensures b != 0 ==> logged == old(logged) + {l.MapBlock(b), b, p}
      ensures Framed(old(disk), disk, logged)
    {
      hide ByteAt, SameBytes, Used;
      assert Slot(St(), i, NDIRECT);
      b := Balloc();
      if b != 0 {
        EntrySlotGrown(l, old(St()), i, k, b);
        disk := disk[p := WithWord(disk[p], k, b)];
        logged := logged + {p};
        assert St() == WithEntry(old(St()), p, k, b, Claimed(l, old(disk), b));
        GrownOwnership(l, old(St()), St(), i, NDIRECT + 1 + k, b);
        GrownBytes(l, old(St()), St(), i, NDIRECT + 1 + k, b);
      }
    }

    /** bmap beyond the direct blocks, once the indirect block p exists. */
    method BmapEntry(i: nat, p: uint, k: nat) returns (addr: uint)
      requires Valid() && i < |inodes| && k < NINDIRECT && p == Addr(St(), i, NDIRECT) != 0
      modifies this`disk, this`logged
      ensures Valid() && SameBytes(old(St()), St())
      ensures addr == Addr(St(), i, NDIRECT + 1 + k)
      ensures addr == 0 ==> forall b :: 0 <= b < l.size ==> Used(l, disk, b)
      ensures Addr(old(St()), i, NDIRECT + 1 + k) != 0 ==> St() == old(St()) && logged == old(logged)
      ensures Kept(old(St()), St(), i, NDIRECT + 1 + k)
      ensures addr == 0 ==> logged == old(logged)
      ensures addr != 0 ==> addr < l.size && logged <= old(logged) + {l.MapBlock(addr), addr, p}
      ensures old(logged) <= logged && Framed(old(disk), disk, logged)
      ensures addr != 0 && Addr(old(St()), i, NDIRECT + 1 + k) == 0 ==> {l.MapBlock(addr), addr, p} <= logged
    {
      assert Slot(St(), i, NDIRECT) && Slot(St(), i, NDIRECT + 1 + k);
      addr := Word(disk[p], k);
      assert addr == Addr(St(), i, NDIRECT + 1 + k);
      if addr == 0 {
        addr := FillEntry(i, p, k);
      }
    }

    /**
      bmap: the address of file block bn, allocating it and the indirect block if need
      be.  No byte of any file changes; 0 means that no block is free.
     */
    method Bmap(i: nat, bn: nat) returns (addr: uint)
      requires Valid() && i < |inodes| && bn < MAXFILE
      modifies this`disk, this`inodes, this`logged
      ensures Valid() && SameBytes(old(St()), St())
      ensures addr == Addr(St(), i, SlotOf(bn))
      ensures addr == 0 ==> forall b :: 0 <= b < l.size ==> Used(l, disk, b)
      ensures Addr(old(St()), i, SlotOf(bn)) != 0 ==> St() == old(St()) && logged == old(logged)
      ensures Mapped(old(St()), St(), i, bn)
      ensures logged <= old(logged) + NewlyLogged(l, old(St()), St(), i, bn)
      ensures old(logged) <= logged && (addr != 0 ==> Needs(l, old(St()), St(), i, bn) <= logged + {addr})
      ensures Framed(old(disk), disk, logged)
    {
      hide AddressesUsed, AddressesDistinct, MapExact, ByteAt;
      if bn < NDIRECT {
        addr := inodes[i].addrs[bn];
        if addr == 0 {
          addr := FillInodeSlot(i, bn);
        }
        return;
      }
      ghost var fs0 := St();
      var p := inodes[i].addrs[NDIRECT];
      if p == 0 {
        assert Slot(St(), i, NDIRECT) && Slot(St(), i, SlotOf(bn));
        p := FillInodeSlot(i, NDIRECT);
        if p == 0 {
          return 0;
        }
      }
      assert Slot(fs0, i, NDIRECT) && p == Addr(St(), i, NDIRECT) != 0;
      ghost var fs1 := St();
      addr := BmapEntry(i, p, bn - NDIRECT);
      KeptTwice(fs0, fs1, St(), i, bn);
    }

    /** One turn of itrunc's loop over the direct blocks. */
    method FreeDirectTurn(i: nat, s: nat, ghost fs0: Fs) returns (ok: bool)
      requires Ownership(l, fs0) && |disk| == l.size && i < |inodes| == |fs0.inodes| && s < NDIRECT
      requires inodes[i].addrs[s] == fs0.inodes[i].addrs[s]
      requires forall x :: 0 <= x < l.size ==>
                 (Used(l, disk, x) <==> Used(l, fs0.disk, x) && !InDirect(fs0.inodes[i], s, x))
      modifies this`disk, this`inodes, this`logged
      ensures ok && old(logged) <= logged && Framed(old(disk), disk, logged) && LogsOnly(l, old(logged), logged)
      ensures |disk| == l.size && forall x :: l.dataStart <= x < l.size ==> disk[x] == old(disk)[x]
      ensures inodes == old(inodes)[i := InodeRecord(old(inodes)[i].size, old(inodes)[i].addrs[s := 0])]
      ensures forall x :: 0 <= x < l.size ==>
                (Used(l, disk, x) <==> Used(l, fs0.disk, x) && !InDirect(fs0.inodes[i], s + 1, x))
    {
      hide LogsOnly;
      var a := inodes[i].addrs[s];
      ok := true;
      OnlyNothing(l, logged);
      if a != 0 {
        DirectStillUsed(l, fs0, i, s);
        OnlyMap(l, logged, logged, a);
        ok := Bfree(a);
        forall x | 0 <= x < l.size
          ensures Used(l, disk, x) <==> Used(l, old(disk), x) && x != a
        {
          UnmarkedUsed(l, old(disk), a, x);
        }
        inodes := inodes[i := InodeRecord(inodes[i].size, inodes[i].addrs[s := 0])];
      } else {
        assert inodes[i].addrs[s := 0] == inodes[i].addrs;
      }
    }

    /** itrunc's loop over the direct blocks. */
    method FreeDirect(i: nat) returns (ok: bool)
      requires Valid() && i < |inodes|
      modifies this`disk, this`inodes, this`logged
      ensures ok && old(logged) <= logged && Framed(old(disk), disk, logged) && LogsOnly(l, old(logged), logged)
      ensures |disk| == l.size && forall x :: l.dataStart <= x < l.size ==> disk[x] == old(disk)[x]
      ensures |inodes| == |old(inodes)| && inodes == old(inodes)[i := inodes[i]]
      ensures inodes[i].addrs == seq(NDIRECT, s => 0) + [old(inodes)[i].addrs[NDIRECT]]
      ensures forall x :: 0 <= x < l.size ==>
                (Used(l, disk, x) <==> Used(l, old(disk), x) && !InDirect(old(inodes)[i], NDIRECT, x))
    {
      hide LogsOnly;
      ghost var fs0 := St();
      ok := true;
      OnlyNothing(l, logged);
      for s := 0 to NDIRECT
        invariant ok && old(logged) <= logged && Framed(old(disk), disk, logged) && LogsOnly(l, old(logged), logged)
        invariant |disk| == l.size && forall x :: l.dataStart <= x < l.size ==> disk[x] == old(disk)[x]
        invariant |inodes| == |fs0.inodes| && inodes == fs0.inodes[i := inodes[i]]
        invariant inodes[i].addrs == seq(s, k => 0) + fs0.inodes[i].addrs[s..]
        invariant forall x :: 0 <= x < l.size ==>
                    (Used(l, disk, x) <==> Used(l, fs0.disk, x) && !InDirect(fs0.inodes[i], s, x))
      {
        ghost var logged1 := logged;
        var freed := FreeDirectTurn(i, s, fs0);
        OnlyTwice(l, old(logged), logged1, logged);
        ok := ok && freed;
        assert inodes[i].addrs == seq(s + 1, k => 0) + fs0.inodes[i].addrs[s + 1..];
      }
      assert inodes[i].addrs == seq(NDIRECT, s => 0) + [fs0.inodes[i].addrs[NDIRECT]];
    }

    /** itrunc's loop over the entries of the indirect block p. */
    method FreeEntries(p: uint, ghost fs0: Fs, ghost i: nat) returns (ok: bool)
      requires Ownership(l, fs0) && i < |fs0.inodes| && p == fs0.inodes[i].addrs[NDIRECT] != 0
      requires |disk| == l.size && forall x :: l.dataStart <= x < l.size ==> disk[x] == fs0.disk[x]
      requires forall x :: 0 <= x < l.size ==>
                 (Used(l, disk, x) <==> Used(l, fs0.disk, x) && !InDirect(fs0.inodes[i], NDIRECT, x))
      modifies this`disk, this`logged
      ensures ok && old(logged) <= logged && Framed(old(disk), disk, logged) && LogsOnly(l, old(logged), logged)
      ensures |disk| == l.size && forall x :: l.dataStart <= x < l.size ==> disk[x] == fs0.disk[x]
      ensures forall x :: 0 <= x < l.size ==>
                (Used(l, disk, x) <==> Used(l, fs0.disk, x) && !InDirect(fs0.inodes[i], NDIRECT, x) && !InEntries(fs0, i, NINDIRECT, x))
    {
      hide LogsOnly, Framed;
      IndirectInRange(l, fs0, i);
      ok := true;
      OnlyNothing(l, logged);
      FramedNothing(disk, logged);
      for j := 0 to NINDIRECT
        invariant ok && old(logged) <= logged && Framed(old(disk), disk, logged) && LogsOnly(l, old(logged), logged)
        invariant |disk| == l.size && forall x :: l.dataStart <= x < l.size ==> disk[x] == fs0.disk[x]
        invariant forall x :: 0 <= x < l.size ==>
                    (Used(l, disk, x) <==> Used(l, fs0.disk, x) && !InDirect(fs0.inodes[i], NDIRECT, x) && !InEntries(fs0, i, j, x))
      {
        var a := Word(disk[p], j);
        assert a == Addr(fs0, i, NDIRECT + 1 + j);
        if a != 0 {
          EntryStillUsed(l, fs0, i, j);
          ghost var before := disk;
          OnlyMap(l, old(logged), logged, a);
          FramedUnmarked(l, old(disk), disk, a, logged);
          var freed := Bfree(a);
          ok := ok && freed;
          forall x | 0 <= x < l.size
            ensures Used(l, disk, x) <==> Used(l, before, x) && x != a
          {
            UnmarkedUsed(l, before, a, x);
          }
        }
      }
    }

    /**
      itrunc.  It frees exactly the blocks of the inode, never one that is already
      free (ok: no call of bfree panics), and every other file keeps its blocks and bytes.
      It changes no block that it does not log.
     */
    method Itrunc(i: nat) returns (ok: bool)
      requires Valid() && i < |inodes|
      modifies this`disk, this`inodes, this`logged
      ensures ok && Valid()
      ensures old(logged) <= logged && inodeBlock(i) in logged && Framed(old(disk), disk, logged)
      ensures LogsOnly(l, old(logged) + {inodeBlock(i)}, logged)
      ensures inodes == old(inodes)[i := EmptyInode()]
      ensures forall x :: 0 <= x < l.size ==> (Used(l, disk, x) <==> Used(l, old(disk), x) && !OwnedBy(old(St()), i, x))
      ensures forall j, t :: Slot(St(), j, t) ==> Addr(St(), j, t) == if j == i then 0 else Addr(old(St()), j, t)
      ensures forall j, x :: 0 <= j < |inodes| && j != i && 0 <= x < MAXBYTES ==> ByteAt(St(), j, x) == ByteAt(old(St()), j, x)
    {
      hide LogsOnly, Framed;
      ghost var fs0 := St();
      ok := FreeDirect(i);
      ghost var disk1, logged1 := disk, logged;
      var p := inodes[i].addrs[NDIRECT];
      assert p == fs0.inodes[i].addrs[NDIRECT];
      if p != 0 {
        var freed := FreeEntries(p, fs0, i);
        ok := ok && freed;
        OnlyTwice(l, old(logged), logged1, logged);
        FramedTwice(old(disk), disk1, disk, logged1, logged);
        IndirectInRange(l, fs0, i);
        PointerStillUsed(l, fs0, i);
        ghost var before := disk;
        OnlyMap(l, old(logged), logged, p);
        FramedUnmarked(l, old(disk), disk, p, logged);
        freed := Bfree(p);
        ok := ok && freed;
        forall x | 0 <= x < l.size
          ensures Used(l, disk, x) <==> Used(l, before, x) && x != p
        {
          UnmarkedUsed(l, before, p, x);
        }
        assert forall x :: l.dataStart <= x < l.size ==> disk[x] == before[x];
      }
      inodes := inodes[i := InodeRecord(0, inodes[i].addrs[NDIRECT := 0])];
      OnlyInode(l, old(logged), logged, inodeBlock(i));
      FramedTwice(old(disk), disk, disk, logged, logged + {inodeBlock(i)});
      logged := logged + {inodeBlock(i)};
      assert inodes[i] == EmptyInode();
      forall x | 0 <= x < l.size
        ensures Used(l, disk, x) <==> Used(l, old(disk), x) && !OwnedBy(fs0, i, x)
      {
        OwnedByParts(l, fs0, i, x);
      }
      TruncatedOwnership(l, fs0, St(), i);
    }

    /**
      The loop body of writei for one block: bmap, copy into the buffer, and, when the
      whole piece could be copied, log_write.
     */
    method WritePiece(i: nat, off: nat, piece: seq<byte>, whole: bool) returns (addr: uint)
      requires Valid() && i < |inodes| && off < MAXBYTES && off % BSIZE + |piece| <= BSIZE
      modifies this`disk, this`inodes, this`logged
      ensures Valid() && Mapped(old(St()), St(), i, off / BSIZE)
      ensures SameSizes(old(St()), St()) && Overlaid(old(St()), St(), i, off, if addr == 0 then [] else piece)
      ensures addr == Addr(St(), i, SlotOf(off / BSIZE))
      ensures addr == 0 ==> forall b :: 0 <= b < l.size ==> Used(l, disk, b)
      ensures logged <= old(logged) + NewlyLogged(l, old(St()), St(), i, off / BSIZE) + {addr}
      ensures old(logged) <= logged && (whole && addr != 0 ==> Needs(l, old(St()), St(), i, off / BSIZE) <= logged)
      ensures Framed(old(disk), disk, if whole || addr == 0 || piece == [] then logged else logged + {addr})
      ensures LogsOnly(l, old(logged), logged)
    {
      hide AddressesUsed, AddressesDistinct, MapExact, NewlyLogged, Needs, LogsOnly;
      addr := Bmap(i, off / BSIZE);
      NewlyOnly(l, old(St()), St(), i, off / BSIZE, old(logged), logged);
      if addr == 0 {
        return;
      }
      ghost var fs1 := St();
      AddressInRange(l, fs1, i, SlotOf(off / BSIZE));
      ghost var before := disk;
      disk := disk[addr := Patched(disk[addr], off % BSIZE, piece)];
      assert piece == [] ==> disk[addr] == before[addr];
      PieceWritten(l, old(St()), fs1, St(), i, off, piece);
      if whole {
        OnlyMore(l, old(logged), logged, addr);
        logged := logged + {addr};
      }
    }

    /** The end of writei: a larger size, and iupdate. */
    method Resize(i: nat, size: nat)
      requires Valid() && i < |inodes|
      modifies this`inodes, this`logged
      ensures Valid() && |inodes| == |old(inodes)|
      ensures forall j :: 0 <= j < |inodes| ==> inodes[j].size == if j == i then size else old(inodes)[j].size
      ensures forall j, t :: Slot(St(), j, t) ==> Addr(St(), j, t) == Addr(old(St()), j, t)
      ensures Overlaid(old(St()), St(), i, 0, [])
      ensures logged == old(logged) + {inodeBlock(i)}
    {
      inodes := inodes[i := InodeRecord(size, inodes[i].addrs)];
      logged := logged + {inodeBlock(i)};
      SameAddrsOwnership(l, old(St()), St());
    }

    /** One turn of writei's loop: bytes tot up to end of the source, turn number `turns`. */
    method WriteTurn(i: nat, off: nat, ghost n: nat, src: seq<byte>, tot: nat, end: nat, whole: bool, ghost fs0: Fs, ghost turns: nat,
                     ghost budget: Budget, ghost first: bool)
      returns (addr: uint, ghost budget': Budget)
      requires i < |fs0.inodes| && (off + tot) / BSIZE == off / BSIZE + turns
      requires first ==> off / BSIZE < MAXFILE && Addr(fs0, i, SlotOf(off / BSIZE)) != 0
      requires tot < n && Confined(fs0, St(), i, off, n)
      requires tot <= end <= |src| && off + end <= MAXBYTES && off + tot < MAXBYTES && (off + tot) % BSIZE + end - tot <= BSIZE
      requires Written(l, fs0, St(), i, off, src[..tot], tot)
      requires budget.Within(turns, first) && budget.About(St(), i)
      requires LoggedSoFar(l, fs0, St(), i, off / BSIZE, off / BSIZE + turns, logged)
      modifies this`disk, this`inodes, this`logged
      ensures addr == 0 ==> Written(l, fs0, St(), i, off, src[..tot], tot)
      ensures addr == 0 ==> forall b :: 0 <= b < l.size ==> Used(l, disk, b)
      ensures addr != 0 ==> Written(l, fs0, St(), i, off, src[..end], tot) && Written(l, fs0, St(), i, off, src[..end], end)
      ensures |inodes| == |fs0.inodes| && budget'.Within(turns + 1, first) && budget'.About(St(), i)
      ensures Confined(fs0, St(), i, off, n) && old(logged) <= logged
      ensures addr == Addr(St(), i, SlotOf((off + tot) / BSIZE))
      ensures Framed(old(disk), disk, if whole || addr == 0 || tot == end then logged else logged + {addr})
      ensures logged - old(logged) <= budget'.All() && budget.All() <= budget'.All()
      ensures whole && addr != 0 ==> LoggedSoFar(l, fs0, St(), i, off / BSIZE, off / BSIZE + turns + 1, logged)
      ensures LogsOnly(l, old(logged), logged)
    {
      hide LogsOnly;
      hide Ownership, Overlaid, Dense, Needs, LoggedSoFar, Written, Mapped, AllKept, SameSizes, Confined, Framed;
      hide NewlyLogged, BudgetTurn, Budget.All, Budget.Within, Budget.About;
      ghost var fs1 := St();
      WrittenParts(l, fs0, fs1, i, off, src[..tot], tot);
      addr := WritePiece(i, off + tot, src[tot..end], whole);
      WrittenTurn(l, fs0, fs1, St(), i, off, src, tot, end, addr);
      MappedSize(fs1, St(), i, (off + tot) / BSIZE);
      ConfinedTurn(fs0, fs1, St(), i, off, n, (off + tot) / BSIZE);
      budget' := BudgetTurn(l, fs0, fs1, St(), i, off / BSIZE, (off + tot) / BSIZE, turns, budget, first);
      if whole && addr != 0 {
        LoggedTurn(l, fs0, fs1, St(), i, off / BSIZE, off / BSIZE + turns, old(logged), logged);
      }
    }

    /**
      writei's loop.  It copies block by block until n bytes are written, the disk is
      full or the source faults; `turns` blocks were visited.
     */
    method WriteLoop(i: nat, off: nat, n: nat, src: seq<byte>, ghost first: bool)
      returns (tot: nat, ghost w: nat, ghost turns: nat, ghost budget: Budget)
      requires Valid() && i < |inodes| && |src| <= n && off <= inodes[i].size && off + n <= MAXBYTES
      requires first ==> off / BSIZE < MAXFILE && Addr(St(), i, SlotOf(off / BSIZE)) != 0
      modifies this`disk, this`inodes, this`logged
      ensures tot <= w <= |src| && Written(l, old(St()), St(), i, off, src[..w], tot)
      ensures WriteEnd(n, off, |src|, tot, w, forall b :: 0 <= b < l.size ==> Used(l, disk, b))
      ensures (turns - 1) * BSIZE < off % BSIZE + n
      ensures logged - old(logged) <= budget.All() && budget.Within(turns, first)
      ensures tot == n > 0 ==> off % BSIZE + n <= turns * BSIZE
      ensures tot == n ==> LoggedSoFar(l, old(St()), St(), i, off / BSIZE, off / BSIZE + turns, logged)
      ensures Confined(old(St()), St(), i, off, n) && old(logged) <= logged && |inodes| == |old(inodes)|
      ensures Framed(old(disk), disk, logged + FaultBlock(St(), i, off, tot, w)) && LogsOnly(l, old(logged), logged)
    {
      hide LogsOnly, WriteEnd, FaultBlock, FaultStart;
      hide Needs, LoggedSoFar, Written, Ownership, Dense, Budget.All, Budget.Within, Budget.About, Confined, Framed, Used;
      ghost var fs0 := St();
      OwnershipLayout(l, fs0);
      LoggedNothing(l, fs0, i, off / BSIZE, logged);
      WrittenStart(l, fs0, i, off, src);
      BudgetStart(fs0, i, first);
      NothingYet(fs0, i, off, n, logged);
      OnlyNothing(l, logged);
      tot, w, turns, budget := 0, 0, 0, NoBudget();
      while tot < n
        invariant tot <= n && tot == w <= |src|
        invariant Written(l, fs0, St(), i, off, src[..tot], tot)
        invariant tot < n ==> off % BSIZE + tot == turns * BSIZE || (tot == 0 && turns == 0)
        invariant (turns - 1) * BSIZE < off % BSIZE + n
        invariant tot > 0 ==> off % BSIZE + tot <= turns * BSIZE
        invariant LoggedSoFar(l, fs0, St(), i, off / BSIZE, off / BSIZE + turns, logged)
        invariant logged - old(logged) <= budget.All()
        invariant |inodes| == |fs0.inodes| && budget.Within(turns, first) && budget.About(St(), i)
        invariant Confined(fs0, St(), i, off, n) && old(logged) <= logged && Framed(old(disk), disk, logged)
        invariant LogsOnly(l, old(logged), logged)
        decreases n - tot
      {
        var o := off + tot;
        var m := if n - tot < BSIZE - o % BSIZE then n - tot else BSIZE - o % BSIZE;
        var whole := tot + m <= |src|;
        var end := if whole then tot + m else |src|;
        TurnPosition(off, tot, m, turns);
        ghost var before, logged1 := disk, logged;
        var addr;
        addr, budget := WriteTurn(i, off, n, src, tot, end, whole, fs0, turns, budget, first);
        FramedTwice(old(disk), before, disk, logged1, if whole || addr == 0 || tot == end then logged else logged + {addr});
        OnlyTwice(l, old(logged), logged1, logged);
        turns := turns + 1;
        if addr == 0 {
          FullEnd(l, disk, n, off, |src|, tot);
          FaultNone(St(), i, off, tot, logged);
          return;
        }
        w := end;
        if !whole {
          FaultEnd(off, n, |src|, tot, m);
          FaultThere(St(), i, off, tot, w, addr, logged);
          return;
        }
        tot := end;
      }
      DoneEnd(n, off);
      FaultNone(St(), i, off, tot, logged);
    }

    /**
      writei with a source of which |src| <= n bytes are mapped.  -1 is a bad range;
      otherwise the first w source bytes lie over the file from off, every other byte
      of every file is as before, and the size covers what was written.  w exceeds the
      result only when the source faults inside a block.
     */
    method Writei(i: nat, off: uint, n: uint, src: seq<byte>) returns (r: int, ghost w: nat)
      requires Valid() && i < |inodes| && |src| <= n
      modifies this`disk, this`inodes, this`logged
      ensures r == -1 <==> off > old(inodes)[i].size || off + n >= UINT || off + n > MAXBYTES
      ensures r == -1 ==> St() == old(St()) && logged == old(logged) && w == 0
      ensures r != -1 ==> Valid() && 0 <= r <= w <= |src| && Overlaid(old(St()), St(), i, off, src[..w])
      ensures r != -1 ==> SizesAfterWrite(old(St()), St(), i, off + r)
      ensures r != -1 ==> forall j :: 0 <= j < |inodes| && Dense(old(St()), j) ==> Dense(St(), j)
      ensures r != -1 ==> WriteEnd(n, off, |src|, r, w, forall b :: 0 <= b < l.size ==> Used(l, disk, b))
      ensures r != -1 ==> Confined(old(St()), St(), i, off, n)
      ensures r != -1 && n <= CHUNK && old(logged) == {} && FirstBlockThere(old(St()), i, off) ==> |logged| <= MAXOPBLOCKS
      ensures r == n > 0 ==> AllLogged(l, old(St()), St(), i, off, n, logged)
      ensures r != -1 ==> inodeBlock(i) in logged && Framed(old(disk), disk, logged + FaultBlock(St(), i, off, r, w))
      ensures r != -1 ==> LogsOnly(l, old(logged) + {inodeBlock(i)}, logged)
    {
      hide LogsOnly, WriteEnd, FaultBlock, Used;
      hide Needs, LoggedSoFar, Confined, Framed, Ownership, Overlaid, Dense, Written;
      if off > inodes[i].size || (off + n) % UINT < off {
        return -1, 0;
      }
      if off + n > MAXBYTES {
        return -1, 0;
      }
      var tot;
      ghost var turns, budget;
      ghost var first := off / BSIZE < MAXFILE && Addr(St(), i, SlotOf(off / BSIZE)) != 0;
      tot, w, turns, budget := WriteLoop(i, off, n, src, first);
      ghost var fs2, logged2 := St(), logged;
      WrittenParts(l, old(St()), fs2, i, off, src[..w], tot);
      Resize(i, if off + tot > inodes[i].size then off + tot else inodes[i].size);
      WriteEnds(l, old(St()), fs2, St(), i, off, src[..w], tot);
      ConfinedSame(old(St()), fs2, St(), i, off, n);
      FaultSame(fs2, St(), i, off, tot, w);
      FramedTwice(old(disk), disk, disk, logged2 + FaultBlock(St(), i, off, tot, w), logged + FaultBlock(St(), i, off, tot, w));
      if n <= CHUNK && old(logged) == {} && FirstBlockThere(old(St()), i, off) {
        BudgetTotal(budget, turns, off % BSIZE, n, logged, inodeBlock(i), first);
      }
      OnlyInode(l, old(logged), logged2, inodeBlock(i));
      if tot == n > 0 {
        LoggedAll(l, old(St()), fs2, St(), i, off, n, turns, logged2, logged);
      }
      return tot, w;
    }

    /** The loop body of readi for one block: bmap and copy out m bytes; [] if out of space. */
    method ReadPiece(i: nat, o: nat, m: nat) returns (piece: seq<byte>)
      requires Valid() && i < |inodes| && o + m <= MAXBYTES && 0 < m && o % BSIZE + m <= BSIZE
      modifies this`disk, this`inodes, this`logged
      ensures Valid() && SameBytes(old(St()), St())
      ensures piece == [] || (|piece| == m && Shows(old(St()), i, o, piece))
      ensures Addr(old(St()), i, SlotOf(o / BSIZE)) != 0 ==> piece != [] && St() == old(St()) && logged == old(logged)
    {
      var addr := Bmap(i, o / BSIZE);
      if addr == 0 {
        return [];
      }
      AddressInRange(l, St(), i, SlotOf(o / BSIZE));
      piece := disk[addr][o % BSIZE..o % BSIZE + m];
      BlockShows(old(St()), St(), i, o, m);
    }

    /** readi's loop; -1 if the destination faults before n bytes, fewer than n bytes if blocks run out. */
    method ReadLoop(i: nat, off: nat, n: nat, room: nat) returns (r: int, data: seq<byte>)
      requires Valid() && i < |inodes| && inodes[i].size <= MAXBYTES && off + n <= inodes[i].size
      modifies this`disk, this`inodes, this`logged
      ensures Valid() && SameBytes(old(St()), St())
      ensures r == -1 ==> room < n
      ensures r != -1 ==> 0 <= r <= n && r <= room && |data| == r && Shows(old(St()), i, off, data)
      ensures Dense(old(St()), i) ==> St() == old(St()) && logged == old(logged) && (r == -1 || r == n)
    {
      hide AddressesUsed, AddressesDistinct, MapExact, ByteAt;
      ghost var fs0 := St();
      var tot := 0;
      data := [];
      while tot < n
        invariant 0 <= tot <= n && tot <= room && |data| == tot
        invariant ReadSoFar(l, fs0, St(), i, off, data) && (Dense(fs0, i) ==> logged == old(logged))
        decreases n - tot
      {
        var o := off + tot;
        var m := if n - tot < BSIZE - o % BSIZE then n - tot else BSIZE - o % BSIZE;
        ghost var fs1 := St();
        OffsetPosition(fs0, i, o);
        var piece := ReadPiece(i, o, m);
        ReadTurn(l, fs0, fs1, St(), i, off, data, piece);
        if piece == [] {
          return tot, data;
        }
        if tot + m > room {
          return -1, data;
        }
        data := data + piece;
        tot := tot + m;
      }
      return tot, data;
    }

    /**
      readi into a destination of which `room` bytes are mapped.  What it delivers is
      the file's contents from off; a dense file is read in full and left alone.
     */
    method Readi(i: nat, off: uint, n: uint, room: nat) returns (r: int, data: seq<byte>)
      requires Valid() && i < |inodes| && inodes[i].size <= MAXBYTES
      modifies this`disk, this`inodes, this`logged
      ensures Valid() && SameBytes(old(St()), St())
      ensures off > old(inodes)[i].size || off + n >= UINT ==> r == 0 && data == [] && St() == old(St())
      ensures r == -1 ==> room < n
      ensures r != -1 ==> 0 <= r <= n && r <= room && |data| == r
      ensures 0 < r ==> off + r <= old(inodes)[i].size && data == Contents(old(St()), i)[off..off + r]
      ensures Dense(old(St()), i) ==> St() == old(St()) && logged == old(logged)
      ensures Dense(old(St()), i) && off <= old(inodes)[i].size && off + n < UINT ==>
                var want := if off + n > old(inodes)[i].size then old(inodes)[i].size - off else n;
                r == if room < want then -1 else want
    {
      if off > inodes[i].size || (off + n) % UINT < off {
        return 0, [];
      }
      var want := if off + n > inodes[i].size then inodes[i].size - off else n;
      r, data := ReadLoop(i, off, want, room);
      if r > 0 {
        ShowsContents(old(St()), i, off, data);
      }
    }

    /** writei inside one transaction. */
    method LoggedWrite(i: nat, off: uint, n: uint, piece: seq<byte>) returns (r: int, ghost w: nat)
      requires Valid() && i < |inodes| && |piece| <= n <= CHUNK
      modifies this`disk, this`inodes, this`logged
      ensures Valid() && -1 <= r <= w <= |piece| && (r == n ==> w == n)
      ensures r == -1 <==> off > old(inodes)[i].size || off + n >= UINT || off + n > MAXBYTES
      ensures r == -1 ==> w == 0
      ensures r != -1 ==> WriteEnd(n, off, |piece|, r, w, forall b :: 0 <= b < l.size ==> Used(l, disk, b))
      ensures Advanced(old(St()), St(), i, off, piece[..w], r)
      ensures Dense(old(St()), i) ==> |logged| <= MAXOPBLOCKS
    {
      hide Ownership, Overlaid, Dense, Confined, Framed, Used, AllLogged, FaultBlock;
      logged := {};
      r, w := Writei(i, off, n, piece);
      TransactionAdvanced(old(St()), St(), i, off, n, piece[..w], r);
      if r != -1 && Dense(old(St()), i) {
        DenseFirst(old(St()), i, off);
      }
    }

    /** One turn of filewrite: source bytes from k, at most n of them. */
    method WriteTransaction(i: nat, off: nat, k: nat, n: nat, src: seq<byte>, ghost fs0: Fs) returns (r: int, ghost w: nat)
      requires Valid() && off + k < UINT && k <= |src| && 0 < n <= CHUNK
      requires i < |fs0.inodes| && Advanced(fs0, St(), i, off, src[..k], k) && (k > 0 ==> off <= fs0.inodes[i].size)
      modifies this`disk, this`inodes, this`logged
      ensures Valid() && k + w <= |src| && -1 <= r <= w && (r == n ==> w == n)
      ensures Advanced(fs0, St(), i, off, src[..k + w], if r > 0 then k + r else k)
      ensures r != n ==> w < n
      ensures r != n ==> |src| < k + n || (forall b :: 0 <= b < l.size ==> Used(l, disk, b))
                         || off > fs0.inodes[i].size || off + k + n > MAXBYTES
      ensures r == n ==> off <= fs0.inodes[i].size && off + k + n <= MAXBYTES
      ensures Dense(fs0, i) ==> |logged| <= MAXOPBLOCKS
    {
      hide Ownership, Advanced, Dense, Used, FaultStart;
      ghost var fs1 := St();
      var end := if k + n < |src| then k + n else |src|;
      AdvancedFacts(fs0, fs1, i, off, src[..k], k);
      r, w := LoggedWrite(i, off + k, n, src[k..end]);
      AdvancedTwice(fs0, fs1, St(), i, off, src, k, end, w, r);
    }

    /**
      filewrite on an inode: transactions of at most CHUNK bytes.  The result is n
      exactly when everything was written; otherwise the source faulted, no block was
      free, or the range was bad.  `sizes` records how many distinct blocks each of the
      transactions logged.
     */
    method FileWrite(i: nat, off: uint, n: int, src: seq<byte>) returns (ret: int, off': nat, ghost w: nat, ghost sizes: seq<nat>)
      requires Valid() && i < |inodes| && n < UINT && (|src| <= n || src == [])
      modifies this`disk, this`inodes, this`logged
      ensures Valid() && off <= off' && w <= |src|
      ensures Advanced(old(St()), St(), i, off, src[..w], off' - off)
      ensures n <= 0 ==> St() == old(St()) && ret == if n == 0 then 0 else -1
      ensures n > 0 ==> (ret == n || ret == -1) && (ret == n <==> w == n)
      ensures n > 0 && ret == n ==> off' == off + n && |src| == n && off <= old(inodes)[i].size && off + n <= MAXBYTES
      ensures n > 0 && ret == -1 ==> |src| < n || (forall b :: 0 <= b < l.size ==> Used(l, disk, b))
                                     || off > old(inodes)[i].size || off + n > MAXBYTES
      ensures |sizes| == if n <= 0 then 0 else Turns(if ret == n then n - 1 else w)
      ensures Dense(old(St()), i) ==> forall k :: 0 <= k < |sizes| ==> sizes[k] <= MAXOPBLOCKS
    {
      hide Ownership, Dense, Advanced, Used, Turns;
      ghost var fs0 := St();
      var k := 0;
      off', w, sizes := off, 0, [];
      AdvancedStart(fs0, i, off, src);
      while k < n
        invariant 0 <= k == w <= |src| && off' == off + k && (k <= n || k == 0) && (k == 0 ==> St() == fs0)
        invariant Valid() && |inodes| == |fs0.inodes| && Advanced(fs0, St(), i, off, src[..w], k)
        invariant k > 0 ==> off' <= MAXBYTES && off <= fs0.inodes[i].size
        invariant Dense(fs0, i) ==> forall t :: 0 <= t < |sizes| ==> sizes[t] <= MAXOPBLOCKS
        invariant if k < n then k == |sizes| * CHUNK else |sizes| == if n <= 0 then 0 else Turns(n - 1)
        decreases n - k
      {
        var n1 := if n - k > CHUNK then CHUNK else n - k;
        var r;
        ghost var w1;
        r, w1 := WriteTransaction(i, off, k, n1, src, fs0);
        AdvancedFacts(fs0, St(), i, off, src[..k + w1], if r > 0 then k + r else k);
        w := k + w1;
        sizes := sizes + [|logged|];
        if r > 0 {
          off' := off' + r;
        }
        TurnsIs(|sizes| - 1, w);
        if r != n1 {
          return -1, off', w, sizes;
        }
        k := k + r;
        TurnsIs(|sizes| - 1, k - 1);
      }
      ret := if k == n then n else -1;
    }
  }

  /** filewrite's turns up to the one in which byte x is due. */
  ghost function Turns(x: nat): (t: nat) {
    x / CHUNK + 1
  }

  lemma TurnsIs(t: nat, x: nat)
    ensures t * CHUNK <= x < (t + 1) * CHUNK ==> Turns(x) == t + 1
  {
  }

  /** Only blocks of the free map and data blocks have been logged in addition. */
  ghost predicate LogsOnly(l: Layout, logged: set<nat>, logged': set<nat>) {
    forall b :: b in logged' ==> b in logged || l.bmapstart <= b < l.size
  }

  lemma OnlyNothing(l: Layout, logged: set<nat>)
    ensures LogsOnly(l, logged, logged)
  {
  }

  lemma OnlyMore(l: Layout, logged: set<nat>, logged': set<nat>, b: nat)
    requires LogsOnly(l, logged, logged') && l.bmapstart <= b < l.size
    ensures LogsOnly(l, logged, logged' + {b})
  {
  }

  lemma OnlyMap(l: Layout, logged: set<nat>, logged': set<nat>, b: nat)
    requires l.Valid() && b < l.size && LogsOnly(l, logged, logged')
    ensures LogsOnly(l, logged, logged' + {l.MapBlock(b)})
  {
    OnlyMore(l, logged, logged', l.MapBlock(b));
  }

  lemma FramedNothing(disk: seq<Block>, logged: set<nat>)
    ensures Framed(disk, disk, logged)
  {
  }

  lemma FramedUnmarked(l: Layout, disk: seq<Block>, disk': seq<Block>, b: nat, logged: set<nat>)
    requires l.Valid() && |disk'| == l.size && b < l.size && Framed(disk, disk', logged)
    ensures Framed(disk, Unmarked(l, disk', b), logged + {l.MapBlock(b)})
  {
  }

  lemma OnlyTwice(l: Layout, logged: set<nat>, logged1: set<nat>, logged2: set<nat>)
    requires LogsOnly(l, logged, logged1) && LogsOnly(l, logged1, logged2)
    ensures LogsOnly(l, logged, logged2)
  {
  }

  lemma OnlyInode(l: Layout, logged: set<nat>, logged': set<nat>, inode: nat)
    requires LogsOnly(l, logged, logged')
    ensures LogsOnly(l, logged + {inode}, logged' + {inode})
  {
  }

  lemma NewlyOnly(l: Layout, fs: Fs, fs': Fs, i: nat, bn: nat, logged: set<nat>, logged': set<nat>)
    requires Ownership(l, fs') && i < |fs.inodes| && i < |fs'.inodes| && bn < MAXFILE
    requires logged' <= logged + NewlyLogged(l, fs, fs', i, bn)
    ensures LogsOnly(l, logged, logged')
  {
    hide AddressesDistinct, MapExact, Used, Addr;
    assert Slot(fs', i, SlotOf(bn)) && Slot(fs', i, NDIRECT);
  }

  /** Blocks that were not logged are as they were. */
  ghost predicate Framed(disk: seq<Block>, disk': seq<Block>, logged: set<nat>) {
    |disk'| == |disk| && forall b: nat :: b < |disk| && b !in logged ==> disk'[b] == disk[b]
  }

  lemma FramedTwice(d: seq<Block>, d1: seq<Block>, d2: seq<Block>, logged: set<nat>, logged': set<nat>)
    requires Framed(d, d1, logged) && Framed(d1, d2, logged') && logged <= logged'
    ensures Framed(d, d2, logged')
  {
  }

  // ---------------------------------------------------------------- helpers for reading

  lemma OffsetPosition(fs: Fs, i: nat, o: nat)
    requires i < |fs.inodes| && fs.inodes[i].size <= MAXBYTES && o < fs.inodes[i].size
    ensures o / BSIZE < MAXFILE && Slot(fs, i, SlotOf(o / BSIZE))
    ensures Dense(fs, i) ==> Addr(fs, i, SlotOf(o / BSIZE)) != 0
  {
    assert o / BSIZE * BSIZE <= o;
  }

  /** data are bytes of file i from offset o. */
  ghost predicate Shows(fs: Fs, i: nat, o: nat, data: seq<byte>) {
    && i < |fs.inodes| && o + |data| <= MAXBYTES
    && forall k :: 0 <= k < |data| ==> data[k] == ByteAt(fs, i, o + k)
  }

  lemma ShowsContents(fs: Fs, i: nat, off: nat, data: seq<byte>)
    requires Shows(fs, i, off, data) && off + |data| <= fs.inodes[i].size <= MAXBYTES
    ensures data == Contents(fs, i)[off..off + |data|]
  {
  }

  lemma SameBytesTwice(fs: Fs, fs1: Fs, fs': Fs)
    requires SameBytes(fs, fs1) && SameBytes(fs1, fs')
    ensures SameBytes(fs, fs')
  {
  }

  /** A run of bytes inside one allocated block is a run of bytes of the file. */
  lemma BlockShows(fs0: Fs, fs: Fs, i: nat, o: nat, m: nat)
    requires SameBytes(fs0, fs) && i < |fs.inodes| && o + m <= MAXBYTES && o % BSIZE + m <= BSIZE && 0 < m
    requires 0 < Addr(fs, i, SlotOf(o / BSIZE)) < |fs.disk|
    ensures Shows(fs0, i, o, fs.disk[Addr(fs, i, SlotOf(o / BSIZE))][o % BSIZE..o % BSIZE + m])
  {
    var data := fs.disk[Addr(fs, i, SlotOf(o / BSIZE))][o % BSIZE..o % BSIZE + m];
    forall k | 0 <= k < |data|
      ensures data[k] == ByteAt(fs0, i, o + k)
    {
      assert (o + k) / BSIZE == o / BSIZE && (o + k) % BSIZE == o % BSIZE + k;
      assert ByteAt(fs, i, o + k) == ByteAt(fs0, i, o + k);
    }
  }

  ghost predicate ReadSoFar(l: Layout, fs: Fs, fs': Fs, i: nat, off: nat, data: seq<byte>) {
    && Ownership(l, fs') && SameBytes(fs, fs') && Shows(fs, i, off, data)
    && (Dense(fs, i) ==> fs' == fs)
  }

  lemma ReadTurn(l: Layout, fs: Fs, fs1: Fs, fs': Fs, i: nat, off: nat, data: seq<byte>, piece: seq<byte>)
    requires ReadSoFar(l, fs, fs1, i, off, data) && Ownership(l, fs') && SameBytes(fs1, fs')
    requires Dense(fs, i) ==> fs' == fs1
    requires piece == [] || Shows(fs1, i, off + |data|, piece)
    ensures ReadSoFar(l, fs, fs', i, off, data + piece)
    ensures piece == [] ==> ReadSoFar(l, fs, fs', i, off, data)
  {
    SameBytesTwice(fs, fs1, fs');
    if piece != [] {
      ShowsConcat(fs, fs1, i, off, data, piece);
    } else {
      assert data + piece == data;
    }
  }

  lemma ShowsConcat(fs: Fs, fs1: Fs, i: nat, off: nat, data: seq<byte>, piece: seq<byte>)
    requires SameBytes(fs, fs1) && Shows(fs, i, off, data) && Shows(fs1, i, off + |data|, piece)
    ensures Shows(fs, i, off, data + piece)
  {
    forall k | 0 <= k < |data + piece|
      ensures (data + piece)[k] == ByteAt(fs, i, off + k)
    {
      if k >= |data| {
        assert off + |data| + (k - |data|) == off + k;
      }
    }
  }

  /** `bytes` lie over file i from off, and r of them count as written. */
  ghost predicate Advanced(fs: Fs, fs': Fs, i: nat, off: nat, bytes: seq<byte>, r: int) {
    && Overlaid(fs, fs', i, off, bytes)
    && (if r > 0 then off + r <= MAXBYTES && SizesAfterWrite(fs, fs', i, off + r) else SameSizes(fs, fs'))
    && forall j :: 0 <= j < |fs.inodes| && Dense(fs, j) ==> Dense(fs', j)
  }

  lemma TransactionAdvanced(fs: Fs, fs': Fs, i: nat, off: nat, n: nat, bytes: seq<byte>, r: int)
    requires i < |fs.inodes| && r <= |bytes| <= n
    requires r == -1 <==> off > fs.inodes[i].size || off + n >= UINT || off + n > MAXBYTES
    requires r == -1 ==> fs' == fs && bytes == []
    requires r != -1 ==> 0 <= r && Overlaid(fs, fs', i, off, bytes) && SizesAfterWrite(fs, fs', i, off + r)
    requires r != -1 ==> forall j :: 0 <= j < |fs'.inodes| && Dense(fs, j) ==> Dense(fs', j)
    ensures Advanced(fs, fs', i, off, bytes, r)
  {
  }

  lemma AdvancedFacts(fs: Fs, fs': Fs, i: nat, off: nat, bytes: seq<byte>, r: int)
    requires i < |fs.inodes| && Advanced(fs, fs', i, off, bytes, r)
    ensures |fs'.inodes| == |fs.inodes| && (Dense(fs, i) ==> Dense(fs', i)) && (r > 0 ==> off + r <= MAXBYTES)
    ensures if r > 0 then fs'.inodes[i].size >= off + r else fs'.inodes[i].size == fs.inodes[i].size
  {
    hide Overlaid, Dense;
  }

  lemma AdvancedStart(fs: Fs, i: nat, off: nat, src: seq<byte>)
    ensures Advanced(fs, fs, i, off, src[..0], 0)
  {
    hide ByteAt, Dense;
  }

  lemma AdvancedTwice(fs: Fs, fs1: Fs, fs': Fs, i: nat, off: nat, src: seq<byte>, k: nat, end: nat, w: nat, r: int)
    requires k <= end <= |src| && k + w <= end && r <= w && Advanced(fs, fs1, i, off, src[..k], k)
    requires Advanced(fs1, fs', i, off + k, src[k..end][..w], r)
    ensures Advanced(fs, fs', i, off, src[..k + w], if r > 0 then k + r else k)
  {
    assert src[k..end][..w] == src[k..k + w];
    OverlaidTwice(fs, fs1, fs', i, off, src, k, k + w);
    forall j | 0 <= j < |fs.inodes| && Dense(fs, j)
      ensures Dense(fs', j)
    {
      assert Dense(fs1, j);
    }
  }

  /** An overlay, read back as file contents: what write promises to the next read. */
  lemma OverlaidContents(fs: Fs, fs': Fs, i: nat, off: nat, bytes: seq<byte>, j: nat)
    requires i < |fs.inodes| && j < |fs.inodes| && fs.inodes[j].size <= MAXBYTES && off <= fs.inodes[i].size
    requires off + |bytes| <= MAXBYTES && Overlaid(fs, fs', i, off, bytes) && SizesAfterWrite(fs, fs', i, off + |bytes|)
    ensures fs'.inodes[j].size <= MAXBYTES
    ensures j != i ==> Contents(fs', j) == Contents(fs, j)
    ensures j == i ==> Contents(fs', i) == Contents(fs, i)[..off] + bytes
                                           + (if off + |bytes| < |Contents(fs, i)| then Contents(fs, i)[off + |bytes|..] else [])
  {
    hide ByteAt;
  }

  // ---------------------------------------------------------------- helpers for writing

  ghost predicate SameSizes(fs: Fs, fs': Fs) {
    |fs'.inodes| == |fs.inodes| && forall j :: 0 <= j < |fs.inodes| ==> fs'.inodes[j].size == fs.inodes[j].size
  }

  /** bytes lie over file i from off; every other byte of every file is as before. */
  ghost predicate Overlaid(fs: Fs, fs': Fs, i: nat, off: nat, bytes: seq<byte>) {
    && |fs'.inodes| == |fs.inodes|
    && forall j, x :: 0 <= j < |fs.inodes| && 0 <= x < MAXBYTES ==>
         ByteAt(fs', j, x) == if j == i && off <= x < off + |bytes| then bytes[x - off] else ByteAt(fs, j, x)
  }

  lemma AddressInRange(l: Layout, fs: Fs, i: nat, s: nat)
    requires Ownership(l, fs) && Slot(fs, i, s) && Addr(fs, i, s) != 0
    ensures l.dataStart <= Addr(fs, i, s) < l.size
  {
  }

  /** bmap followed by a copy into the block found. */
  lemma PieceWritten(l: Layout, fs: Fs, fs1: Fs, fs': Fs, i: nat, off: nat, piece: seq<byte>)
    requires Ownership(l, fs1) && i < |fs.inodes| && off < MAXBYTES && off % BSIZE + |piece| <= BSIZE
    requires SameBytes(fs, fs1) && Mapped(fs, fs1, i, off / BSIZE)
    requires var a := Addr(fs1, i, SlotOf(off / BSIZE));
             0 < a < l.size && fs' == Fs(fs1.disk[a := Patched(fs1.disk[a], off % BSIZE, piece)], fs1.inodes)
    ensures Ownership(l, fs') && Mapped(fs, fs', i, off / BSIZE) && SameSizes(fs, fs')
    ensures Addr(fs', i, SlotOf(off / BSIZE)) == Addr(fs1, i, SlotOf(off / BSIZE))
    ensures Overlaid(fs, fs', i, off, piece)
    ensures NewlyLogged(l, fs, fs', i, off / BSIZE) == NewlyLogged(l, fs, fs1, i, off / BSIZE)
    ensures Needs(l, fs, fs', i, off / BSIZE) == Needs(l, fs, fs1, i, off / BSIZE)
  {
    hide AddressesUsed, AddressesDistinct, MapExact;
    PatchBytes(l, fs1, i, off / BSIZE, off % BSIZE, piece);
    assert fs' == fs1.(disk := fs'.disk);
    assert off == off / BSIZE * BSIZE + off % BSIZE;
    assert Slot(fs1, i, NDIRECT) && Slot(fs1, i, SlotOf(off / BSIZE));
    forall j: nat, t: nat | Slot(fs, j, t)
      ensures Addr(fs', j, t) == Addr(fs1, j, t)
    {
      assert Slot(fs1, j, t);
    }
  }

  lemma OverlaidTwice(fs: Fs, fs1: Fs, fs': Fs, i: nat, off: nat, src: seq<byte>, a: nat, b: nat)
    requires a <= b <= |src|
    requires Overlaid(fs, fs1, i, off, src[..a]) && Overlaid(fs1, fs', i, off + a, src[a..b])
    ensures Overlaid(fs, fs', i, off, src[..b])
  {
  }

  /** No address that was set has changed. */
  ghost predicate AllKept(fs: Fs, fs': Fs) {
    && |fs'.inodes| == |fs.inodes|
    && forall j, t :: Slot(fs, j, t) && Addr(fs, j, t) != 0 ==> Addr(fs', j, t) == Addr(fs, j, t)
  }

  lemma AllKeptTwice(fs: Fs, fs1: Fs, fs': Fs, i: nat, bn: nat)
    requires AllKept(fs, fs1) && Mapped(fs1, fs', i, bn)
    ensures AllKept(fs, fs')
  {
    forall j: nat, t: nat | Slot(fs, j, t) && Addr(fs, j, t) != 0
      ensures Addr(fs', j, t) == Addr(fs, j, t)
    {
      assert Slot(fs1, j, t);
    }
  }

  /** Every block below offset `to` is allocated. */
  ghost predicate CoveredTo(fs: Fs, i: nat, to: nat)
    requires i < |fs.inodes| && to <= MAXBYTES
  {
    forall bn :: 0 <= bn && bn * BSIZE < to ==> Addr(fs, i, SlotOf(bn)) != 0
  }

  lemma CoveredExtend(fs: Fs, fs': Fs, i: nat, o: nat, m: nat)
    requires i < |fs.inodes| && o + m <= MAXBYTES && o % BSIZE + m <= BSIZE && 0 < m
    requires CoveredTo(fs, i, o) && Mapped(fs, fs', i, o / BSIZE) && Addr(fs', i, SlotOf(o / BSIZE)) != 0
    ensures CoveredTo(fs', i, o + m)
  {
    forall bn | 0 <= bn && bn * BSIZE < o + m
      ensures Addr(fs', i, SlotOf(bn)) != 0
    {
      if bn * BSIZE < o {
        assert Slot(fs, i, SlotOf(bn));
      } else {
        assert bn == o / BSIZE;
      }
    }
  }

  /** writei's loop: `bytes` lie over the file, and blocks are allocated up to off + tot. */
  ghost predicate Written(l: Layout, fs: Fs, fs': Fs, i: nat, off: nat, bytes: seq<byte>, tot: nat) {
    && Ownership(l, fs') && SameSizes(fs, fs') && Overlaid(fs, fs', i, off, bytes)
    && AllKept(fs, fs') && i < |fs.inodes| && off + tot <= MAXBYTES && (Dense(fs, i) ==> CoveredTo(fs', i, off + tot))
  }

  lemma WrittenParts(l: Layout, fs: Fs, fs': Fs, i: nat, off: nat, bytes: seq<byte>, tot: nat)
    requires Written(l, fs, fs', i, off, bytes, tot)
    ensures Ownership(l, fs') && l.Valid() && AllKept(fs, fs') && i < |fs.inodes| == |fs'.inodes|
  {
  }

  lemma MappedSize(fs: Fs, fs': Fs, i: nat, bn: nat)
    requires Mapped(fs, fs', i, bn)
    ensures |fs'.inodes| == |fs.inodes|
  {
  }

  lemma OwnershipLayout(l: Layout, fs: Fs)
    requires Ownership(l, fs)
    ensures l.Valid()
  {
  }

  lemma WrittenStart(l: Layout, fs: Fs, i: nat, off: nat, src: seq<byte>)
    requires Ownership(l, fs) && i < |fs.inodes| && off <= fs.inodes[i].size && off <= MAXBYTES
    ensures Written(l, fs, fs, i, off, src[..0], 0)
  {
    hide Ownership, ByteAt;
  }

  lemma WrittenTurn(l: Layout, fs: Fs, fs1: Fs, fs': Fs, i: nat, off: nat, src: seq<byte>, tot: nat, end: nat, addr: nat)
    requires tot <= end <= |src| && Written(l, fs, fs1, i, off, src[..tot], tot)
    requires off + end <= MAXBYTES && off + tot < MAXBYTES && (off + tot) % BSIZE + end - tot <= BSIZE
    requires Ownership(l, fs') && Mapped(fs1, fs', i, (off + tot) / BSIZE) && SameSizes(fs1, fs')
    requires Overlaid(fs1, fs', i, off + tot, if addr == 0 then [] else src[tot..end])
    requires addr == Addr(fs', i, SlotOf((off + tot) / BSIZE))
    ensures Written(l, fs, fs', i, off, if addr == 0 then src[..tot] else src[..end], tot)
    ensures addr != 0 ==> Written(l, fs, fs', i, off, src[..end], end)
  {
    hide Ownership;
    AllKeptTwice(fs, fs1, fs', i, (off + tot) / BSIZE);
    OverlaidTwice(fs, fs1, fs', i, off, src, tot, if addr == 0 then tot else end);
    if Dense(fs, i) {
      CoveredStays(fs1, fs', i, off + tot, (off + tot) / BSIZE);
      if addr != 0 && tot < end {
        CoveredExtend(fs1, fs', i, off + tot, end - tot);
      }
    }
  }

  lemma CoveredStays(fs: Fs, fs': Fs, i: nat, to: nat, bn: nat)
    requires i < |fs.inodes| && to <= MAXBYTES && CoveredTo(fs, i, to) && Mapped(fs, fs', i, bn)
    ensures CoveredTo(fs', i, to)
  {
    hide Addr;
    forall k | 0 <= k && k * BSIZE < to
      ensures Addr(fs', i, SlotOf(k)) != 0
    {
      assert Slot(fs, i, SlotOf(k));
    }
  }

  /** File i now reaches at least to `end`; no other size changed. */
  ghost predicate SizesAfterWrite(fs: Fs, fs': Fs, i: nat, end: int) {
    && |fs'.inodes| == |fs.inodes|
    && forall j :: 0 <= j < |fs.inodes| ==>
         fs'.inodes[j].size == if j == i && end > fs.inodes[j].size then end else fs.inodes[j].size
  }

  lemma WriteEnds(l: Layout, fs: Fs, fs2: Fs, fs': Fs, i: nat, off: nat, bytes: seq<byte>, tot: nat)
    requires Written(l, fs, fs2, i, off, bytes, tot)
    requires Overlaid(fs2, fs', i, 0, []) && SizesAfterWrite(fs2, fs', i, off + tot)
    requires forall j, t :: Slot(fs', j, t) ==> Addr(fs', j, t) == Addr(fs2, j, t)
    ensures Overlaid(fs, fs', i, off, bytes) && SizesAfterWrite(fs, fs', i, off + tot)
    ensures forall j :: 0 <= j < |fs.inodes| && Dense(fs, j) ==> Dense(fs', j)
  {
    hide Ownership, Addr, ByteAt;
    forall j | 0 <= j < |fs.inodes| && Dense(fs, j)
      ensures Dense(fs', j)
    {
      forall bn | 0 <= bn && bn * BSIZE < fs'.inodes[j].size
        ensures Addr(fs', j, SlotOf(bn)) != 0
      {
        assert Slot(fs', j, SlotOf(bn)) && Slot(fs, j, SlotOf(bn));
      }
    }
  }

  // ---------------------------------------------------------------- how a write ends, and what it leaves alone

  /** Where the block begins in which a source of k bytes ends, counted from the start of the source. */
  function FaultStart(off: nat, k: nat): (r: nat)
    ensures r <= k
  {
    if off % BSIZE + k < BSIZE then 0 else k - (off + k) % BSIZE
  }

  /**
    How writei of n bytes with |src| == k ends, having counted r and copied w of them: all is
    written, or no block is free, or the source faults.  A fault is counted from the start of
    its block, although what came before it in the block was copied.
   */
  ghost predicate WriteEnd(n: nat, off: nat, k: nat, r: int, w: nat, full: bool) {
    || (r == w == n == k)
    || (r == w < n && full && (r == 0 || (off + r) % BSIZE == 0))
    || (k < n && w == k && r == FaultStart(off, k))
  }

  /**
    Bytes are changed beyond the count exactly when the source was read to its end, which
    the disk's filling up before can prevent, and the source ends early and inside a block.
   */
  lemma FaultChangesMore(n: nat, off: nat, k: nat, r: int, w: nat, full: bool)
    requires WriteEnd(n, off, k, r, w, full)
    ensures r < w <==> w == k && 0 < k < n && (off + k) % BSIZE != 0
  {
  }

  /** Writing 1024 bytes at offset 0 from a source of which 512 can be read changes 512 bytes and counts none. */
  lemma FaultExample()
    ensures FaultStart(0, 512) == 0
    ensures forall r: int, w: nat :: WriteEnd(1024, 0, 512, r, w, false) <==> r == 0 && w == 512
  {
  }

  lemma FaultEnd(off: nat, n: nat, k: nat, tot: nat, m: nat)
    requires tot <= k < tot + m <= n && m <= BSIZE - (off + tot) % BSIZE && (tot == 0 || (off + tot) % BSIZE == 0)
    ensures forall full :: WriteEnd(n, off, k, tot, k, full)
  {
    var o := (off + tot) % BSIZE;
    assert (off + k) % BSIZE == o + (k - tot) by {
      assert off + k == (off + tot) / BSIZE * BSIZE + (o + (k - tot));
    }
  }

  lemma FullEnd(l: Layout, disk: seq<Block>, n: nat, off: nat, k: nat, tot: nat)
    requires tot < n && (tot == 0 || (off + tot) % BSIZE == 0)
    ensures WriteEnd(n, off, k, tot, tot, true)
  {
  }

  /** The data block of a piece that faulted: changed in the cache, and not logged. */
  ghost function FaultBlock(fs: Fs, i: nat, off: nat, r: nat, w: nat): (s: set<nat>) {
    if w > r && i < |fs.inodes| && off + r < MAXBYTES then {Addr(fs, i, SlotOf((off + r) / BSIZE))} else {}
  }

  lemma DoneEnd(n: nat, off: nat)
    ensures forall full :: WriteEnd(n, off, n, n, n, full)
  {
  }

  lemma FaultNone(fs: Fs, i: nat, off: nat, r: nat, logged: set<nat>)
    ensures logged + FaultBlock(fs, i, off, r, r) == logged
  {
  }

  lemma FaultThere(fs: Fs, i: nat, off: nat, r: nat, w: nat, addr: nat, logged: set<nat>)
    requires i < |fs.inodes| && off + r < MAXBYTES && addr == Addr(fs, i, SlotOf((off + r) / BSIZE)) && r <= w
    ensures logged + FaultBlock(fs, i, off, r, w) == if r == w then logged else logged + {addr}
  {
  }

  lemma FaultSame(fs: Fs, fs': Fs, i: nat, off: nat, r: nat, w: nat)
    requires i < |fs.inodes| == |fs'.inodes| && forall j, t :: Slot(fs', j, t) ==> Addr(fs', j, t) == Addr(fs, j, t)
    ensures FaultBlock(fs', i, off, r, w) == FaultBlock(fs, i, off, r, w)
  {
    hide Addr;
    assert off + r < MAXBYTES ==> Slot(fs', i, SlotOf((off + r) / BSIZE));
  }

  /** Slot t is the indirect pointer or belongs to a block of the written range. */
  ghost predicate Spanned(t: nat, off: nat, n: nat) {
    t == NDIRECT || exists bn: nat :: off / BSIZE <= bn && bn * BSIZE < off + n && SlotOf(bn) == t
  }

  /** Only empty slots of file i in the written range, and its empty indirect pointer, have changed. */
  ghost predicate Confined(fs: Fs, fs': Fs, i: nat, off: nat, n: nat) {
    && |fs'.inodes| == |fs.inodes|
    && forall j, t :: Slot(fs, j, t) && (j != i || Addr(fs, j, t) != 0 || !Spanned(t, off, n)) ==> Addr(fs', j, t) == Addr(fs, j, t)
  }

  lemma NothingYet(fs: Fs, i: nat, off: nat, n: nat, logged: set<nat>)
    ensures Confined(fs, fs, i, off, n) && Framed(fs.disk, fs.disk, logged)
  {
  }

  lemma ConfinedTurn(fs0: Fs, fs1: Fs, fs': Fs, i: nat, off: nat, n: nat, bn: nat)
    requires Confined(fs0, fs1, i, off, n) && Mapped(fs1, fs', i, bn) && off / BSIZE <= bn && bn * BSIZE < off + n
    ensures Confined(fs0, fs', i, off, n)
  {
    hide Addr;
    forall j: nat, t: nat | Slot(fs0, j, t) && (j != i || Addr(fs0, j, t) != 0 || !Spanned(t, off, n))
      ensures Addr(fs', j, t) == Addr(fs0, j, t)
    {
      assert Slot(fs1, j, t);
      assert Spanned(SlotOf(bn), off, n);
    }
  }

  lemma ConfinedSame(fs: Fs, fs2: Fs, fs': Fs, i: nat, off: nat, n: nat)
    requires Confined(fs, fs2, i, off, n) && |fs'.inodes| == |fs2.inodes|
    requires forall j, t :: Slot(fs', j, t) ==> Addr(fs', j, t) == Addr(fs2, j, t)
    ensures Confined(fs, fs', i, off, n)
  {
    hide Addr;
    forall j: nat, t: nat | Slot(fs, j, t) && (j != i || Addr(fs, j, t) != 0 || !Spanned(t, off, n))
      ensures Addr(fs', j, t) == Addr(fs, j, t)
    {
      assert Slot(fs', j, t);
    }
  }

  /** Turn number, block number and offset of writei's loop agree. */
  lemma TurnPosition(off: nat, tot: nat, m: nat, turns: nat)
    requires off % BSIZE + tot == turns * BSIZE || (tot == 0 && turns == 0)
    requires m <= BSIZE - (off + tot) % BSIZE
    ensures (off + tot) / BSIZE == off / BSIZE + turns
    ensures m == BSIZE - (off + tot) % BSIZE ==> off % BSIZE + tot + m == (turns + 1) * BSIZE
    ensures off % BSIZE + tot + m <= (turns + 1) * BSIZE
  {
  }

  // ---------------------------------------------------------------- blocks logged by one write

  /** Blocks logged so far: data blocks, their map blocks, the indirect block and its map block. */
  datatype Budget = Budget(data: set<nat>, maps: set<nat>, ind: set<nat>, indMap: set<nat>) {
    ghost function All(): (s: set<nat>) {
      data + maps + ind + indMap
    }

    /** One data block and one map block a turn, but no map block for a first block that existed. */
    ghost predicate Within(turns: nat, firstExists: bool) {
      && |data| <= turns && |ind| <= 1 && |indMap| <= 1
      && |maps| <= if firstExists && turns > 0 then turns - 1 else turns
    }

    ghost predicate About(fs: Fs, i: nat)
      requires i < |fs.inodes|
    {
      && ind <= {Addr(fs, i, NDIRECT)}
      && (Addr(fs, i, NDIRECT) == 0 ==> ind == {} && indMap == {})
    }
  }

  ghost function NoBudget(): (b: Budget) {
    Budget({}, {}, {}, {})
  }

  lemma BudgetStart(fs: Fs, i: nat, firstExists: bool)
    requires i < |fs.inodes|
    ensures NoBudget().Within(0, firstExists) && NoBudget().About(fs, i)
  {
  }

  ghost function BudgetTurn(l: Layout, fs0: Fs, fs: Fs, fs': Fs, i: nat, from: nat, bn: nat, turns: nat, b: Budget, first: bool): (b': Budget)
    requires l.Valid() && i < |fs.inodes| == |fs'.inodes| == |fs0.inodes| && bn < MAXFILE
    requires Mapped(fs, fs', i, bn) && AllKept(fs0, fs)
    requires b.Within(turns, first) && b.About(fs, i) && bn == from + turns && (first ==> Addr(fs0, i, SlotOf(from)) != 0)
    ensures b'.Within(turns + 1, first) && b'.About(fs', i)
    ensures b.All() + NewlyLogged(l, fs, fs', i, bn) + {Addr(fs', i, SlotOf(bn))} <= b'.All()
  {
    BudgetTurnOk(l, fs0, fs, fs', i, from, bn, turns, b, first);
    Charged(l, fs, fs', i, bn, b)
  }

  ghost function Charged(l: Layout, fs: Fs, fs': Fs, i: nat, bn: nat, b: Budget): (b': Budget)
    requires l.Valid() && i < |fs.inodes| == |fs'.inodes| && bn < MAXFILE
  {
    var a, p := Addr(fs', i, SlotOf(bn)), Addr(fs', i, NDIRECT);
    var maps := if a == 0 || Addr(fs, i, SlotOf(bn)) != 0 || a >= l.size then {} else {l.MapBlock(a)};
    Budget(b.data + {a}, b.maps + maps,
           if bn < NDIRECT || p == 0 then b.ind else {p},
           if p == 0 || Addr(fs, i, NDIRECT) != 0 || p >= l.size then b.indMap else {l.MapBlock(p)})
  }

  lemma BudgetTurnOk(l: Layout, fs0: Fs, fs: Fs, fs': Fs, i: nat, from: nat, bn: nat, turns: nat, b: Budget, first: bool)
    requires l.Valid() && i < |fs.inodes| == |fs'.inodes| == |fs0.inodes| && bn < MAXFILE
    requires Mapped(fs, fs', i, bn) && AllKept(fs0, fs)
    requires b.Within(turns, first) && b.About(fs, i) && bn == from + turns && (first ==> Addr(fs0, i, SlotOf(from)) != 0)
    ensures Charged(l, fs, fs', i, bn, b).Within(turns + 1, first) && Charged(l, fs, fs', i, bn, b).About(fs', i)
    ensures b.All() + NewlyLogged(l, fs, fs', i, bn) + {Addr(fs', i, SlotOf(bn))} <= Charged(l, fs, fs', i, bn, b).All()
  {
    hide Addr;
    assert Slot(fs, i, NDIRECT) && Slot(fs, i, SlotOf(bn)) && Slot(fs0, i, SlotOf(bn));
    ChargedWithin(l, fs, fs', i, bn, b, turns, first);
    ChargedAbout(l, fs, fs', i, bn, b);
    ChargedCovers(l, fs, fs', i, bn, b);
  }

  lemma ChargedWithin(l: Layout, fs: Fs, fs': Fs, i: nat, bn: nat, b: Budget, turns: nat, firstExists: bool)
    requires l.Valid() && i < |fs.inodes| == |fs'.inodes| && bn < MAXFILE && b.Within(turns, firstExists)
    requires b.About(fs, i) && (turns == 0 && firstExists ==> Addr(fs, i, SlotOf(bn)) != 0)
    ensures Charged(l, fs, fs', i, bn, b).Within(turns + 1, firstExists)
  {
    hide Addr;
  }

  lemma ChargedAbout(l: Layout, fs: Fs, fs': Fs, i: nat, bn: nat, b: Budget)
    requires l.Valid() && i < |fs.inodes| == |fs'.inodes| && bn < MAXFILE && b.About(fs, i)
    requires Mapped(fs, fs', i, bn)
    ensures Charged(l, fs, fs', i, bn, b).About(fs', i)
  {
    hide Addr;
    assert Slot(fs, i, NDIRECT);
  }

  lemma ChargedCovers(l: Layout, fs: Fs, fs': Fs, i: nat, bn: nat, b: Budget)
    requires l.Valid() && i < |fs.inodes| == |fs'.inodes| && bn < MAXFILE && b.About(fs, i)
    requires Mapped(fs, fs', i, bn)
    ensures b.All() + NewlyLogged(l, fs, fs', i, bn) + {Addr(fs', i, SlotOf(bn))} <= Charged(l, fs, fs', i, bn, b).All()
  {
    hide Addr;
    assert Slot(fs, i, NDIRECT);
  }

  /** A write that begins inside a block finds that block allocated. */
  ghost predicate FirstBlockThere(fs: Fs, i: nat, off: nat) {
    off % BSIZE != 0 ==> off / BSIZE < MAXFILE && i < |fs.inodes| && Addr(fs, i, SlotOf(off / BSIZE)) != 0
  }

  lemma DenseFirst(fs: Fs, i: nat, off: nat)
    requires i < |fs.inodes| && Dense(fs, i) && off <= fs.inodes[i].size
    ensures FirstBlockThere(fs, i, off)
  {
    hide Addr;
    if off % BSIZE != 0 {
      assert off == off / BSIZE * BSIZE + off % BSIZE;
      assert off / BSIZE * BSIZE < fs.inodes[i].size;
    }
  }

  /** Ten blocks at most: four data, three maps, the indirect block, its map, the inode. */
  lemma BudgetTotal(b: Budget, turns: nat, rest: nat, n: nat, logged: set<nat>, inode: nat, first: bool)
    requires n <= CHUNK && rest < BSIZE && (turns - 1) * BSIZE < rest + n && (rest != 0 ==> first)
    requires b.Within(turns, first) && logged <= b.All() + {inode}
    ensures |logged| <= MAXOPBLOCKS
  {
    SubsetSize(logged, b.All() + {inode});
    assert |b.data + b.maps| <= |b.data| + |b.maps|;
    assert |b.data + b.maps + b.ind| <= |b.data + b.maps| + |b.ind|;
    assert |b.All()| <= |b.data + b.maps + b.ind| + |b.indMap|;
  }

  // ---------------------------------------------------------------- blocks that one write must log

  ghost function MapOf(l: Layout, b: nat): (s: set<nat>)
    requires l.Valid()
  {
    if b < l.size then {l.MapBlock(b)} else {}
  }

  /** What a write of file block bn passes to log_write, when it takes the file system from fs to fs'. */
  ghost function Needs(l: Layout, fs: Fs, fs': Fs, i: nat, bn: nat): (s: set<nat>)
    requires l.Valid() && i < |fs.inodes| && i < |fs'.inodes| && bn < MAXFILE
  {
    var a, p := Addr(fs', i, SlotOf(bn)), Addr(fs', i, NDIRECT);
    {a} + (if Addr(fs, i, SlotOf(bn)) != 0 then {} else MapOf(l, a) + if bn < NDIRECT then {} else {p})
    + (if bn < NDIRECT || Addr(fs, i, NDIRECT) != 0 then {} else {p} + MapOf(l, p))
  }

  ghost predicate NeedsLogged(l: Layout, fs: Fs, fs': Fs, i: nat, bn: nat, logged: set<nat>) {
    && l.Valid() && i < |fs.inodes| && i < |fs'.inodes| && bn < MAXFILE
    && Addr(fs', i, SlotOf(bn)) != 0 && Needs(l, fs, fs', i, bn) <= logged
  }

  /** Blocks from .. to are written and logged, the file blocks after them are as in fs0. */
  ghost predicate LoggedSoFar(l: Layout, fs0: Fs, fs: Fs, i: nat, from: nat, to: nat, logged: set<nat>) {
    && l.Valid() && i < |fs0.inodes| && i < |fs.inodes|
    && (forall bn: nat {:trigger NeedsLogged(l, fs0, fs, i, bn, logged)} :: from <= bn < to ==> NeedsLogged(l, fs0, fs, i, bn, logged))
    && (forall bn: nat {:trigger SlotOf(bn)} :: to <= bn < MAXFILE ==> Addr(fs, i, SlotOf(bn)) == Addr(fs0, i, SlotOf(bn)))
    && (Addr(fs0, i, NDIRECT) == 0 != Addr(fs, i, NDIRECT) ==> {Addr(fs, i, NDIRECT)} + MapOf(l, Addr(fs, i, NDIRECT)) <= logged)
  }

  ghost predicate AllLogged(l: Layout, fs: Fs, fs': Fs, i: nat, off: nat, n: nat, logged: set<nat>) {
    forall bn: nat {:trigger NeedsLogged(l, fs, fs', i, bn, logged)} ::
      off / BSIZE <= bn && bn * BSIZE < off + n ==> NeedsLogged(l, fs, fs', i, bn, logged)
  }

  lemma LoggedNothing(l: Layout, fs: Fs, i: nat, from: nat, logged: set<nat>)
    requires l.Valid() && i < |fs.inodes|
    ensures LoggedSoFar(l, fs, fs, i, from, from, logged)
  {
  }

  /** An entry has an indirect block above it. */
  lemma PointerPresent(fs: Fs, i: nat, bn: nat)
    requires i < |fs.inodes| && NDIRECT <= bn < MAXFILE && Addr(fs, i, SlotOf(bn)) != 0
    ensures Addr(fs, i, NDIRECT) != 0
  {
  }

  lemma LoggedTurn(l: Layout, fs0: Fs, fs1: Fs, fs': Fs, i: nat, from: nat, to: nat, logged: set<nat>, logged': set<nat>)
    requires LoggedSoFar(l, fs0, fs1, i, from, to, logged) && logged <= logged' && from <= to < MAXFILE
    requires Mapped(fs1, fs', i, to) && Addr(fs', i, SlotOf(to)) != 0 && Needs(l, fs1, fs', i, to) <= logged'
    requires AllKept(fs0, fs1)
    ensures LoggedSoFar(l, fs0, fs', i, from, to + 1, logged')
  {
    hide Addr;
    assert Slot(fs1, i, NDIRECT) && Slot(fs0, i, NDIRECT);
    forall bn: nat | from <= bn < to + 1
      ensures NeedsLogged(l, fs0, fs', i, bn, logged')
    {
      assert Slot(fs1, i, SlotOf(bn));
      if bn < to {
        assert NeedsLogged(l, fs0, fs1, i, bn, logged);
        if bn >= NDIRECT {
          PointerPresent(fs1, i, bn);
        }
      }
    }
    forall bn: nat | to + 1 <= bn < MAXFILE
      ensures Addr(fs', i, SlotOf(bn)) == Addr(fs0, i, SlotOf(bn))
    {
      assert Slot(fs1, i, SlotOf(bn));
    }
  }

  lemma LoggedAll(l: Layout, fs: Fs, fs2: Fs, fs': Fs, i: nat, off: nat, n: nat, turns: nat, logged: set<nat>, logged': set<nat>)
    requires LoggedSoFar(l, fs, fs2, i, off / BSIZE, off / BSIZE + turns, logged) && logged <= logged' && off % BSIZE + n <= turns * BSIZE
    requires |fs'.inodes| == |fs2.inodes| && forall j, t :: Slot(fs', j, t) ==> Addr(fs', j, t) == Addr(fs2, j, t)
    ensures AllLogged(l, fs, fs', i, off, n, logged')
  {
    hide Addr;
    assert Slot(fs', i, NDIRECT);
    forall bn: nat | off / BSIZE <= bn && bn * BSIZE < off + n
      ensures NeedsLogged(l, fs, fs', i, bn, logged')
    {
      assert off == off / BSIZE * BSIZE + off % BSIZE;
      assert bn < off / BSIZE + turns;
      assert NeedsLogged(l, fs, fs2, i, bn, logged) && Slot(fs', i, SlotOf(bn));
    }
  }

  function MapNumber(l: Layout, b: nat): (m: nat)
    requires l.Valid()
  {
    if b < l.size then l.MapBlock(b) else 0
  }

  /** The map blocks of the three data blocks and the indirect block that an unaligned write adds, and the inode's block. */
  ghost function MetaOf(l: Layout, fs: Fs, i: nat, b: nat, inode: nat): (s: seq<nat>)
    requires l.Valid() && i < |fs.inodes| && b + 3 < MAXFILE
  {
    [MapNumber(l, Addr(fs, i, SlotOf(b + 1))), MapNumber(l, Addr(fs, i, SlotOf(b + 2))), MapNumber(l, Addr(fs, i, SlotOf(b + 3))),
     MapNumber(l, Addr(fs, i, NDIRECT)), inode]
  }

  /** The four data blocks of such a write and the indirect block. */
  ghost function DataOf(fs: Fs, i: nat, b: nat): (s: seq<nat>)
    requires i < |fs.inodes| && b + 3 < MAXFILE
  {
    [Addr(fs, i, SlotOf(b)), Addr(fs, i, SlotOf(b + 1)), Addr(fs, i, SlotOf(b + 2)), Addr(fs, i, SlotOf(b + 3)), Addr(fs, i, NDIRECT)]
  }

  lemma DataDifferent(l: Layout, fs: Fs, i: nat, b: nat)
    requires Ownership(l, fs) && i < |fs.inodes| && NDIRECT <= b + 3 < MAXFILE
    requires forall bn: nat :: b <= bn <= b + 3 ==> Addr(fs, i, SlotOf(bn)) != 0
    ensures Distinct(DataOf(fs, i, b)) && forall x :: x in DataOf(fs, i, b) ==> l.dataStart <= x < l.size
  {
    hide Addr, MapExact, Used;
    var s := [SlotOf(b), SlotOf(b + 1), SlotOf(b + 2), SlotOf(b + 3), NDIRECT];
    PointerPresent(fs, i, b + 3);
    assert forall k :: 0 <= k < 5 ==> Slot(fs, i, s[k]) && DataOf(fs, i, b)[k] == Addr(fs, i, s[k]) && Addr(fs, i, s[k]) != 0;
  }

  /**
    The bound is reached: a full chunk written from inside the last existing block of a file
    that has no indirect block yet, across the end of the direct blocks, logs ten blocks
    when the four blocks that it allocates lie in four different blocks of the free map.
   */
  lemma TenBlocks(l: Layout, fs: Fs, fs': Fs, i: nat, off: nat, logged: set<nat>, inode: nat)
    requires Ownership(l, fs') && i < |fs.inodes| == |fs'.inodes| && off % BSIZE != 0 && NDIRECT <= off / BSIZE + 3 < MAXFILE
    requires AllLogged(l, fs, fs', i, off, CHUNK, logged) && inode in logged && |logged| <= MAXOPBLOCKS
    requires Addr(fs, i, NDIRECT) == 0 && forall bn: nat :: off / BSIZE < bn <= off / BSIZE + 3 ==> Addr(fs, i, SlotOf(bn)) == 0
    requires inode < l.dataStart && Distinct(MetaOf(l, fs', i, off / BSIZE, inode))
    ensures |logged| == MAXOPBLOCKS
  {
    hide Addr, Ownership, Needs, NeedsLogged, AllLogged, DataOf, MetaOf;
    var b := off / BSIZE;
    ChunkLogged(l, fs, fs', i, off, logged);
    OwnershipLayout(l, fs');
    DataDifferent(l, fs', i, b);
    TenLogged(l, fs, fs', i, b, logged, inode);
    var data, meta := DataOf(fs', i, b), MetaOf(l, fs', i, b, inode);
    DistinctCount(data);
    DistinctCount(meta);
    MetaBelow(l, fs', i, b, inode);
    assert Elements(data) !! Elements(meta);
    SubsetSize(Elements(data) + Elements(meta), logged);
    FiveEach(fs', l, i, b, inode);
  }

  lemma FiveEach(fs: Fs, l: Layout, i: nat, b: nat, inode: nat)
    requires l.Valid() && i < |fs.inodes| && b + 3 < MAXFILE
    ensures |DataOf(fs, i, b)| == |MetaOf(l, fs, i, b, inode)| == 5
  {
  }

  lemma MetaBelow(l: Layout, fs: Fs, i: nat, b: nat, inode: nat)
    requires l.Valid() && i < |fs.inodes| && b + 3 < MAXFILE && inode < l.dataStart
    ensures forall x :: x in MetaOf(l, fs, i, b, inode) ==> x < l.dataStart
  {
    hide Addr;
  }

  /** An unaligned chunk touches four file blocks. */
  lemma ChunkLogged(l: Layout, fs: Fs, fs': Fs, i: nat, off: nat, logged: set<nat>)
    requires AllLogged(l, fs, fs', i, off, CHUNK, logged) && off % BSIZE != 0 && i < |fs'.inodes| && off / BSIZE + 3 < MAXFILE
    ensures forall bn: nat :: off / BSIZE <= bn <= off / BSIZE + 3 ==>
              NeedsLogged(l, fs, fs', i, bn, logged) && Addr(fs', i, SlotOf(bn)) != 0
  {
    hide Addr, Needs;
    assert off == off / BSIZE * BSIZE + off % BSIZE;
    forall bn: nat | off / BSIZE <= bn <= off / BSIZE + 3
      ensures NeedsLogged(l, fs, fs', i, bn, logged)
    {
      assert bn * BSIZE < off + CHUNK;
    }
  }

  lemma TenLogged(l: Layout, fs: Fs, fs': Fs, i: nat, b: nat, logged: set<nat>, inode: nat)
    requires l.Valid() && i < |fs.inodes| == |fs'.inodes| && NDIRECT <= b + 3 < MAXFILE && inode in logged
    requires forall bn: nat :: b <= bn <= b + 3 ==> NeedsLogged(l, fs, fs', i, bn, logged)
    requires Addr(fs, i, NDIRECT) == 0 && forall bn: nat :: b < bn <= b + 3 ==> Addr(fs, i, SlotOf(bn)) == 0
    requires forall x :: x in DataOf(fs', i, b) ==> x < l.size
    ensures Elements(DataOf(fs', i, b)) <= logged && Elements(MetaOf(l, fs', i, b, inode)) <= logged
  {
    hide Addr;
    var data := DataOf(fs', i, b);
    assert data[1] in data && data[2] in data && data[3] in data && data[4] in data;
    assert NeedsLogged(l, fs, fs', i, b, logged) && NeedsLogged(l, fs, fs', i, b + 1, logged);
    assert NeedsLogged(l, fs, fs', i, b + 2, logged) && NeedsLogged(l, fs, fs', i, b + 3, logged);
  }

  // ---------------------------------------------------------------- helpers for truncation

  ghost predicate InDirect(r: Inode, n: nat, x: nat)
    requires n <= NDIRECT
  {
    x != 0 && exists s :: 0 <= s < n && r.addrs[s] == x
  }

  ghost predicate InEntries(fs: Fs, i: nat, n: nat, x: nat)
    requires i < |fs.inodes| && n <= NINDIRECT
  {
    x != 0 && exists s :: NDIRECT < s <= NDIRECT + n && Addr(fs, i, s) == x
  }

  lemma DirectStillUsed(l: Layout, fs: Fs, i: nat, s: nat)
    requires Ownership(l, fs) && i < |fs.inodes| && s < NDIRECT && fs.inodes[i].addrs[s] != 0
    ensures var a := fs.inodes[i].addrs[s]; a < l.size && Used(l, fs.disk, a) && !InDirect(fs.inodes[i], s, a)
  {
    var a := fs.inodes[i].addrs[s];
    assert Slot(fs, i, s) && Addr(fs, i, s) == a;
    forall t | 0 <= t < s
      ensures fs.inodes[i].addrs[t] != a
    {
      assert Slot(fs, i, t) && Addr(fs, i, t) == fs.inodes[i].addrs[t];
    }
  }

  lemma IndirectInRange(l: Layout, fs: Fs, i: nat)
    requires Ownership(l, fs) && i < |fs.inodes| && fs.inodes[i].addrs[NDIRECT] != 0
    ensures l.dataStart <= fs.inodes[i].addrs[NDIRECT] < l.size
  {
    assert Slot(fs, i, NDIRECT) && Addr(fs, i, NDIRECT) == fs.inodes[i].addrs[NDIRECT];
  }

  lemma EntryStillUsed(l: Layout, fs: Fs, i: nat, k: nat)
    requires Ownership(l, fs) && i < |fs.inodes| && k < NINDIRECT && Addr(fs, i, NDIRECT + 1 + k) != 0
    ensures var a := Addr(fs, i, NDIRECT + 1 + k);
            a < l.size && Used(l, fs.disk, a) && !InDirect(fs.inodes[i], NDIRECT, a) && !InEntries(fs, i, k, a)
  {
    var a := Addr(fs, i, NDIRECT + 1 + k);
    assert Slot(fs, i, NDIRECT + 1 + k);
    forall t | 0 <= t < NDIRECT
      ensures fs.inodes[i].addrs[t] != a
    {
      assert Slot(fs, i, t) && Addr(fs, i, t) == fs.inodes[i].addrs[t];
    }
    forall t | NDIRECT < t <= NDIRECT + k
      ensures Addr(fs, i, t) != a
    {
      assert Slot(fs, i, t);
    }
  }

  lemma PointerStillUsed(l: Layout, fs: Fs, i: nat)
    requires Ownership(l, fs) && i < |fs.inodes| && fs.inodes[i].addrs[NDIRECT] != 0
    ensures var p := fs.inodes[i].addrs[NDIRECT];
            p < l.size && Used(l, fs.disk, p) && !InDirect(fs.inodes[i], NDIRECT, p) && !InEntries(fs, i, NINDIRECT, p)
  {
    var p := fs.inodes[i].addrs[NDIRECT];
    assert Slot(fs, i, NDIRECT) && Addr(fs, i, NDIRECT) == p;
    forall t | 0 <= t < NDIRECT
      ensures fs.inodes[i].addrs[t] != p
    {
      assert Slot(fs, i, t) && Addr(fs, i, t) == fs.inodes[i].addrs[t];
    }
    forall t | NDIRECT < t < SLOTS
      ensures Addr(fs, i, t) != p
    {
      assert Slot(fs, i, t);
    }
  }

  /** An inode owns its direct blocks, its indirect block and the entries of that. */
  lemma OwnedByParts(l: Layout, fs: Fs, i: nat, x: nat)
    requires i < |fs.inodes|
    ensures OwnedBy(fs, i, x) <==>
            x != 0 && (InDirect(fs.inodes[i], NDIRECT, x) || x == fs.inodes[i].addrs[NDIRECT]
                       || (fs.inodes[i].addrs[NDIRECT] != 0 && InEntries(fs, i, NINDIRECT, x)))
  {
    var r := fs.inodes[i];
    assert forall s :: 0 <= s <= NDIRECT ==> Slot(fs, i, s) && Addr(fs, i, s) == r.addrs[s];
    assert forall s :: NDIRECT < s < SLOTS ==> Slot(fs, i, s) && (Addr(fs, i, s) != 0 ==> r.addrs[NDIRECT] != 0);
  }

  /** All addresses but slot (i, s) are as before, and that one if it was set. */
  ghost predicate Kept(fs: Fs, fs': Fs, i: nat, s: nat) {
    && |fs'.inodes| == |fs.inodes|
    && forall j, t :: Slot(fs, j, t) && (j != i || t != s || Addr(fs, j, t) != 0) ==> Addr(fs', j, t) == Addr(fs, j, t)
  }

  /** bmap touches only the slot of block bn and, past the direct blocks, the pointer. */
  ghost predicate Mapped(fs: Fs, fs': Fs, i: nat, bn: nat) {
    && |fs'.inodes| == |fs.inodes|
    && forall j, t :: Slot(fs, j, t) && (j != i || Addr(fs, j, t) != 0 || (t != SlotOf(bn) && (t != NDIRECT || bn < NDIRECT)))
         ==> Addr(fs', j, t) == Addr(fs, j, t)
  }

  lemma KeptTwice(fs: Fs, fs1: Fs, fs': Fs, i: nat, bn: nat)
    requires NDIRECT <= bn && Kept(fs, fs1, i, NDIRECT) && Kept(fs1, fs', i, SlotOf(bn))
    ensures Mapped(fs, fs', i, bn)
  {
    forall j: nat, t: nat | Slot(fs, j, t) && (j != i || Addr(fs, j, t) != 0 || (t != SlotOf(bn) && t != NDIRECT))
      ensures Addr(fs', j, t) == Addr(fs, j, t)
    {
      assert Slot(fs1, j, t);
    }
  }

  /** What bmap may pass to log_write when it allocates. */
  ghost function NewlyLogged(l: Layout, fs: Fs, fs': Fs, i: nat, bn: nat): (s: set<nat>)
    requires l.Valid() && i < |fs.inodes| && i < |fs'.inodes| && bn < MAXFILE
  {
    var a, p := Addr(fs', i, SlotOf(bn)), Addr(fs', i, NDIRECT);
    (if a == 0 || Addr(fs, i, SlotOf(bn)) != 0 || a >= l.size then {} else {a, l.MapBlock(a)})
    + (if bn < NDIRECT || p == 0 then {} else {p})
    + (if p == 0 || Addr(fs, i, NDIRECT) != 0 || p >= l.size then {} else {l.MapBlock(p)})
  }
}
