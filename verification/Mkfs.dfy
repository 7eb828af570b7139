/**
  mkfs: an image is built by appending to files while a counter hands out blocks, and the
  free map is written at the end.  Throughout, the files own exactly the blocks below the
  counter, as if the free map already said so.
 */
module Mkfs {
  import opened DiskBytes
  import opened FsSpec
  import opened FileSystem

  const FSSIZE := 2000
  const NLOG := 30
  const NINODES := 200
  const NINODEBLOCKS := NINODES / 16 + 1
  const BMAPSTART := 2 + NLOG + NINODEBLOCKS
  const NMETA := BMAPSTART + FSSIZE / BPB + 1
  const ROOTINO := 1

  const Image := Layout(FSSIZE, BMAPSTART, NMETA)

  // ---------------------------------------------------------------- the free map

  /** balloc's buffer after its first n turns. */
  function MapUpTo(n: nat): (b: Block)
    requires n <= BPB
  {
    if n == 0 then ZeroBlock()
    else
      var m := MapUpTo(n - 1);
      m[(n - 1) / 8 := Or(m[(n - 1) / 8], (n - 1) % 8)]
  }

  lemma BitOfZero(k: nat)
    ensures !Bit(0, k)
  {
    if k > 0 {
      BitOfZero(k - 1);
    }
  }

  lemma {:induction false} MapUpToBit(n: nat, x: nat)
    requires n <= BPB && x < BPB
    ensures Bit(MapUpTo(n)[x / 8], x % 8) <==> x < n
  {
    if n == 0 {
      BitOfZero(x % 8);
    } else {
      MapUpToBit(n - 1, x);
      MapUpToBit(n - 1, n - 1);
      if x / 8 == (n - 1) / 8 {
        BitSetAt(MapUpTo(n - 1)[x / 8], (n - 1) % 8, x % 8);
      }
    }
  }

  /** The image as it will be once the map of the first n blocks is written. */
  ghost function Planned(disk: seq<Block>, inodes: seq<Inode>, n: nat): (fs: Fs)
    requires |disk| == FSSIZE && n <= FSSIZE
    ensures fs.inodes == inodes && |fs.disk| == FSSIZE
  {
    Fs(disk[BMAPSTART := MapUpTo(n)], inodes)
  }

  lemma UsedBelow(disk: seq<Block>, inodes: seq<Inode>, n: nat, x: nat)
    requires |disk| == FSSIZE && n <= FSSIZE && x < FSSIZE
    ensures Used(Image, Planned(disk, inodes, n).disk, x) <==> x < n
  {
    hide MapUpTo, Bit;
    MapUpToBit(n, x);
  }

  /** Counting up is allocating the lowest free block, if the block is zero. */
  lemma CountClaims(disk: seq<Block>, inodes: seq<Inode>, n: nat)
    requires |disk| == FSSIZE && NMETA <= n < FSSIZE && disk[n] == ZeroBlock()
    ensures !Used(Image, Planned(disk, inodes, n).disk, n)
    ensures Planned(disk, inodes, n + 1).disk == Claimed(Image, Planned(disk, inodes, n).disk, n)
  {
    UsedBelow(disk, inodes, n, n);
  }

  /** The blocks from the counter on are zero. */
  ghost predicate ZeroFrom(disk: seq<Block>, n: nat) {
    forall b :: n <= b < |disk| ==> disk[b] == ZeroBlock()
  }

  class Builder {
    var disk: seq<Block>
    var inodes: seq<Inode>
    var freeblock: nat
    var freeinode: nat

    ghost predicate Shaped()
      reads this
    {
      |disk| == FSSIZE && NMETA <= freeblock <= FSSIZE && |inodes| == NINODES && ZeroFrom(disk, freeblock)
    }

    ghost function V(): (fs: Fs)
      reads this
      requires Shaped()
    {
      Planned(disk, inodes, freeblock)
    }

    ghost predicate Valid()
      reads this
    {
      Shaped() && Ownership(Image, V())
    }

    /** The empty image. */
    constructor ()
      ensures Valid() && freeinode == 1 && freeblock == NMETA && forall i :: 0 <= i < NINODES ==> inodes[i] == EmptyInode()
    {
      disk := seq(FSSIZE, i => ZeroBlock());
      inodes := seq(NINODES, i => EmptyInode());
      freeblock := NMETA;
      freeinode := 1;
      new;
      EmptyOwnership(disk, inodes);
    }

    /** An address slot of the inode itself gets the next block. */
    method FillSlot(i: nat, s: nat)
      requires Valid() && i < NINODES && s <= NDIRECT && inodes[i].addrs[s] == 0 && freeblock < FSSIZE
      modifies this`inodes, this`freeblock
      ensures Valid() && freeblock == old(freeblock) + 1 && SameBytes(old(V()), V()) && Kept(old(V()), V(), i, s)
      ensures inodes[i].addrs[s] == old(freeblock)
    {
      hide Ownership, SameBytes, Kept, Planned;
      SlotStep(disk, inodes, freeblock, i, s);
      var b := freeblock;
      inodes := inodes[i := InodeRecord(inodes[i].size, inodes[i].addrs[s := b])];
      freeblock := freeblock + 1;
    }

    /** Entry k of the indirect block gets the next block. */
    method FillEntry(i: nat, k: nat)
      requires Valid() && i < NINODES && k < NINDIRECT && inodes[i].addrs[NDIRECT] != 0 && freeblock < FSSIZE
      requires Addr(V(), i, NDIRECT + 1 + k) == 0
      modifies this`disk, this`freeblock
      ensures Valid() && freeblock == old(freeblock) + 1 && SameBytes(old(V()), V()) && Kept(old(V()), V(), i, NDIRECT + 1 + k)
      ensures Addr(V(), i, NDIRECT + 1 + k) == old(freeblock)
    {
      hide Ownership, SameBytes, Kept, Planned;
      EntryStep(disk, inodes, freeblock, i, k);
      var b := freeblock;
      var p := inodes[i].addrs[NDIRECT];
      disk := disk[p := WithWord(disk[p], k, b)];
      freeblock := freeblock + 1;
    }

    /** The part of iappend that finds the block for file block fbn; not ok is a read past the image, which ends mkfs. */
    method BlockFor(i: nat, fbn: nat) returns (ok: bool, x: nat)
      requires Valid() && i < NINODES && fbn < MAXFILE
      modifies this`disk, this`inodes, this`freeblock
      ensures ok ==> Valid() && SameBytes(old(V()), V()) && Mapped(old(V()), V(), i, fbn)
      ensures ok ==> x == Addr(V(), i, SlotOf(fbn)) && NMETA <= x < FSSIZE
      ensures ok <==> old(freeblock) + Missing(old(V()), i, fbn) <= FSSIZE
      ensures ok ==> freeblock == old(freeblock) + Missing(old(V()), i, fbn)
    {
      hide Ownership, SameBytes, Planned;
      if fbn < NDIRECT {
        SameSelf(V(), i);
        InodeAddr(disk, inodes, freeblock, i, fbn);
        if inodes[i].addrs[fbn] == 0 {
          if freeblock >= FSSIZE {
            return false, 0;
          }
          FillSlot(i, fbn);
        }
        x := inodes[i].addrs[fbn];
        InodeAddr(disk, inodes, freeblock, i, fbn);
        return true, x;
      }
      ok, x := IndirectFor(i, fbn - NDIRECT);
    }

    method IndirectFor(i: nat, k: nat) returns (ok: bool, x: nat)
      requires Valid() && i < NINODES && k < NINDIRECT
      modifies this`disk, this`inodes, this`freeblock
      ensures ok ==> Valid() && SameBytes(old(V()), V()) && Mapped(old(V()), V(), i, NDIRECT + k)
      ensures ok ==> x == Addr(V(), i, NDIRECT + 1 + k) && NMETA <= x < FSSIZE
      ensures ok <==> old(freeblock) + Missing(old(V()), i, NDIRECT + k) <= FSSIZE
      ensures ok ==> freeblock == old(freeblock) + Missing(old(V()), i, NDIRECT + k)
    {
      hide Ownership, SameBytes, Planned, Mapped;
      ghost var fs := V();
      SameSelf(fs, i);
      InodeAddr(disk, inodes, freeblock, i, NDIRECT);
      NoPointer(fs, i, k);
      if inodes[i].addrs[NDIRECT] == 0 {
        if freeblock >= FSSIZE {
          return false, 0;
        }
        FillSlot(i, NDIRECT);
        StillNoEntry(fs, V(), i, k);
      }
      ghost var fs1 := V();
      SameSelf(fs1, i);
      InodeAddr(disk, inodes, freeblock, i, NDIRECT);
      EntryAddr(disk, inodes, freeblock, i, k);
      if Word(disk[inodes[i].addrs[NDIRECT]], k) == 0 {
        if freeblock >= FSSIZE {
          return false, 0;
        }
        FillEntry(i, k);
      }
      InodeAddr(disk, inodes, freeblock, i, NDIRECT);
      EntryAddr(disk, inodes, freeblock, i, k);
      x := Word(disk[inodes[i].addrs[NDIRECT]], k);
      KeptTwice(fs, fs1, V(), i, NDIRECT + k);
      SameBytesTwice(fs, fs1, V());
      return true, x;
    }

    /** One turn of iappend's loop. */
    method AppendPiece(i: nat, o: nat, piece: seq<byte>) returns (ok: bool)
      requires Valid() && i < NINODES && o < MAXBYTES && o % BSIZE + |piece| <= BSIZE
      modifies this`disk, this`inodes, this`freeblock
      ensures ok ==> Valid() && Mapped(old(V()), V(), i, o / BSIZE) && SameSizes(old(V()), V())
      ensures ok ==> Overlaid(old(V()), V(), i, o, piece) && Addr(V(), i, SlotOf(o / BSIZE)) != 0
      ensures ok <==> old(freeblock) + Missing(old(V()), i, o / BSIZE) <= FSSIZE
      ensures ok ==> freeblock == old(freeblock) + Missing(old(V()), i, o / BSIZE)
    {
      hide Ownership, SameBytes, Planned, Mapped, Overlaid, SameSizes;
      var x;
      ok, x := BlockFor(i, o / BSIZE);
      if !ok {
        return;
      }
      ghost var fs1 := V();
      BlockBelow(disk, inodes, freeblock, i, SlotOf(o / BSIZE));
      PlannedPatch(disk, inodes, freeblock, x, o % BSIZE, piece);
      disk := disk[x := Patched(disk[x], o % BSIZE, piece)];
      PieceWritten(Image, old(V()), fs1, V(), i, o, piece);
    }

    /**
      iappend.  It ends mkfs if the image or the file is full; otherwise the bytes are at
      the end of the file and no other file has changed.
     */
    method Iappend(i: nat, src: seq<byte>) returns (ok: bool)
      requires Valid() && i < NINODES && Dense(V(), i)
      modifies this`disk, this`inodes, this`freeblock
      ensures ok ==> Valid() && inodes[i].size == old(inodes)[i].size + |src| <= MAXBYTES
      ensures ok ==> Overlaid(old(V()), V(), i, old(inodes)[i].size, src) && SizesAfterWrite(old(V()), V(), i, inodes[i].size)
      ensures ok ==> forall j :: 0 <= j < NINODES && Dense(old(V()), j) ==> Dense(V(), j)
      ensures ok ==> OthersSame(old(V()), V(), i) && (Exact(old(V()), i, old(inodes)[i].size) ==> Exact(V(), i, inodes[i].size))
      ensures Exact(old(V()), i, old(inodes)[i].size) ==>
                var m := old(inodes)[i].size;
                var need := old(freeblock) + Blocks(m + |src|) - Blocks(m);
                (ok <==> m + |src| <= MAXBYTES && need <= FSSIZE) && (ok ==> freeblock == need)
    {
      hide Exact, Missing, Blocks;
      hide Ownership, Planned, Overlaid, Dense, Written, Mapped, SizesAfterWrite, SameSizes, OthersSame;
      ghost var fs0 := V();
      var off := inodes[i].size;
      var tot := 0;
      DenseBound(fs0, i);
      WrittenStart(Image, fs0, i, off, src);
      OthersSelf(fs0, i);
      while tot < |src|
        invariant tot <= |src| && Shaped() && Written(Image, fs0, V(), i, off, src[..tot], tot)
        invariant OthersSame(fs0, V(), i) && (Exact(fs0, i, off) ==> Exact(V(), i, off + tot))
        invariant Exact(fs0, i, off) ==> freeblock == old(freeblock) + Blocks(off + tot) - Blocks(off)
      {
        BlocksMonotone(off + tot, off + |src|);
        if (off + tot) / BSIZE >= MAXFILE {
          TooLong(off + tot);
          return false;
        }
        ghost var fs1 := V();
        var room := BSIZE - (off + tot) % BSIZE;
        var n1 := if |src| - tot < room then |src| - tot else room;
        WrittenParts(Image, fs0, fs1, i, off, src[..tot], tot);
        PieceFits(off + tot, n1);
        PieceNeeds(fs1, i, off + tot, n1);
        BlocksMonotone(off + tot + n1, off + |src|);
        ok := AppendPiece(i, off + tot, src[tot..tot + n1]);
        if !ok {
          return;
        }
        AppendTurn(fs0, fs1, V(), i, off, off + tot, n1);
        WrittenTurn(Image, fs0, fs1, V(), i, off, src, tot, tot + n1, Addr(V(), i, SlotOf((off + tot) / BSIZE)));
        tot := tot + n1;
      }
      assert src[..tot] == src;
      SetSize(i, off + tot, fs0, src);
      ok := true;
    }

    /** The end of iappend: the inode goes back with its new size. */
    method SetSize(i: nat, size: nat, ghost fs0: Fs, ghost src: seq<byte>)
      requires Shaped() && i < NINODES && i < |fs0.inodes| && size == fs0.inodes[i].size + |src|
      requires Written(Image, fs0, V(), i, fs0.inodes[i].size, src, |src|)
      modifies this`inodes
      ensures Valid() && inodes[i].size == size <= MAXBYTES
      ensures Overlaid(fs0, V(), i, fs0.inodes[i].size, src) && SizesAfterWrite(fs0, V(), i, size)
      ensures forall j :: 0 <= j < |fs0.inodes| && Dense(fs0, j) ==> Dense(V(), j)
      ensures OthersSame(fs0, old(V()), i) ==> OthersSame(fs0, V(), i)
      ensures Exact(old(V()), i, size) ==> Exact(V(), i, size)
    {
      hide Ownership, Overlaid, Dense;
      ghost var fs2 := V();
      inodes := inodes[i := InodeRecord(size, inodes[i].addrs)];
      Resized(fs2, V(), i, size);
      ExactSame(fs2, V(), i, size);
      WriteEnds(Image, fs0, fs2, V(), i, fs0.inodes[i].size, src, |src|);
    }

    /** iappend, in terms of what all files hold. */
    method Append(i: nat, src: seq<byte>, ghost want: seq<seq<byte>>) returns (ok: bool)
      requires Valid() && i < NINODES && Holds(V(), want)
      modifies this`disk, this`inodes, this`freeblock
      ensures ok ==> Valid() && Holds(V(), want[i := want[i] + src])
      ensures var need := old(freeblock) + Blocks(|want[i]| + |src|) - Blocks(|want[i]|);
              (ok <==> |want[i]| + |src| <= MAXBYTES && need <= FSSIZE) && (ok ==> freeblock == need)
    {
      hide Ownership, Planned, Overlaid, SizesAfterWrite, Exact, OthersSame, FileHolds, Dense;
      HoldsFile(V(), want, i);
      ok := Iappend(i, src);
      if ok {
        AppendHolds(old(V()), V(), i, src, want);
      }
    }

    /** ialloc: the next inode, empty. */
    method Ialloc() returns (inum: nat)
      requires freeinode < NINODES
      modifies this`freeinode
      ensures inum == old(freeinode) && freeinode == inum + 1
    {
      inum := freeinode;
      freeinode := freeinode + 1;
    }

    /** main's loop over the contents of one file, each read returning at most a block. */
    method CopyFile(inum: nat, data: seq<byte>, ghost want: seq<seq<byte>>) returns (ok: bool)
      requires Valid() && inum < NINODES && Holds(V(), want) && want[inum] == []
      modifies this`disk, this`inodes, this`freeblock
      ensures ok ==> Valid() && Holds(V(), want[inum := data])
      ensures ok <==> |data| <= MAXBYTES && old(freeblock) + Blocks(|data|) <= FSSIZE
      ensures ok ==> freeblock == old(freeblock) + Blocks(|data|)
    {
      hide Ownership, Planned, FileHolds, Blocks;
      NoBlocks();
      var pos := 0;
      assert want[inum := data[..0]] == want;
      while pos < |data|
        invariant pos <= |data| && Valid() && Holds(V(), want[inum := data[..pos]])
        invariant pos <= MAXBYTES && freeblock == old(freeblock) + Blocks(pos)
      {
        var cc :| 0 < cc <= BSIZE && pos + cc <= |data|;
        BlocksMonotone(pos + cc, |data|);
        ok := Append(inum, data[pos..pos + cc], want[inum := data[..pos]]);
        if !ok {
          return;
        }
        assert data[..pos] + data[pos..pos + cc] == data[..pos + cc];
        assert want[inum := data[..pos]][inum := data[..pos + cc]] == want[inum := data[..pos + cc]];
        pos := pos + cc;
      }
      assert data[..pos] == data;
      ok := true;
    }

    /** balloc: the free map of the first `used` blocks. */
    method WriteMap(used: nat)
      requires used < BPB && |disk| == FSSIZE
      modifies this`disk
      ensures disk == old(disk)[BMAPSTART := MapUpTo(used)]
    {
      hide Or;
      var buf: Block := ZeroBlock();
      for i := 0 to used
        invariant buf == MapUpTo(i)
      {
        buf := buf[i / 8 := Or(buf[i / 8], i % 8)];
      }
      disk := disk[BMAPSTART := buf];
    }

    /** The end of main: the root directory's size is rounded, and the free map written. */
    method Finish(ghost want: seq<seq<byte>>)
      requires Valid() && Holds(V(), want)
      modifies this`disk, this`inodes
      ensures |disk| == FSSIZE && |inodes| == NINODES && Ownership(Image, Fs(disk, inodes))
      ensures forall j :: 0 <= j < NINODES && j != ROOTINO ==> FileHolds(Fs(disk, inodes), j, want[j])
      ensures inodes[ROOTINO].size == (|want[ROOTINO]| / BSIZE + 1) * BSIZE
      ensures forall x :: 0 <= x < |want[ROOTINO]| ==> ByteAt(Fs(disk, inodes), ROOTINO, x) == want[ROOTINO][x]
      ensures Dense(Fs(disk, inodes), ROOTINO) <==> |want[ROOTINO]| % BSIZE != 0
    {
      hide Ownership, Planned, FileHolds, ByteAt, Dense;
      HoldsFile(V(), want, ROOTINO);
      ghost var fs := V();
      var off := inodes[ROOTINO].size;
      off := (off / BSIZE + 1) * BSIZE;
      inodes := inodes[ROOTINO := InodeRecord(off, inodes[ROOTINO].addrs)];
      WriteMap(freeblock);
      FinishedImage(old(disk), old(inodes), freeblock, disk, inodes);
      RootFinished(fs, Fs(disk, inodes), off, want);
    }

    /**
      mkfs of the given files.  It succeeds exactly when they fit; then the image has the block
      ownership that the file system relies on, every file holds its data, and the root
      directory begins with its entries; but the last block that the directory's size
      covers is missing exactly when the entries fill whole blocks.
     */
    method Build(files: seq<File>) returns (ok: bool)
      requires |files| + 2 <= NINODES && Valid() && freeinode == 1 && freeblock == NMETA
      requires forall i :: 0 <= i < NINODES ==> inodes[i] == EmptyInode()
      modifies this
      ensures ok <==> FilesFit(files)
      ensures ok ==> |disk| == FSSIZE && |inodes| == NINODES && Ownership(Image, Fs(disk, inodes))
      ensures ok ==> forall k :: 0 <= k < |files| ==> FileHolds(Fs(disk, inodes), k + 2, files[k].data)
      ensures ok ==> forall x :: 0 <= x < |Directory(files)| ==> ByteAt(Fs(disk, inodes), ROOTINO, x) == Directory(files)[x]
      ensures ok ==> EntryReads(Fs(disk, inodes), 0, ROOTINO, ['.' as int]) && EntryReads(Fs(disk, inodes), 1, ROOTINO, ['.' as int, '.' as int])
      ensures ok ==> forall k :: 0 <= k < |files| ==> EntryReads(Fs(disk, inodes), k + 2, k + 2, files[k].name)
      ensures ok ==> (Dense(Fs(disk, inodes), ROOTINO) <==> (|files| + 2) % 64 != 0)
    {
      hide EntryReads;
      hide Ownership, Planned, FileHolds, ByteAt, Dense, Directory, Holds, Listed, Blocks, FilesFit, FilesNeed;
      ghost var want := seq(NINODES, i => []);
      EmptyHolds(V(), want);
      want := MakeRoot(files, want);
      FitStarts(files);
      var i := 0;
      while i < |files|
        invariant 0 <= i <= |files| && freeinode == i + 2 && Valid() && Holds(V(), want) && Listed(want, files, i)
        invariant FitSoFar(files, i, freeblock)
      {
        FitTurn(files, i, freeblock);
        ok, want := AddFile(files, i, want);
        if !ok {
          return;
        }
        i := i + 1;
      }
      FitEnds(files, freeblock);
      AllListed(want, files);
      Finish(want);
      EntriesRead(Fs(disk, inodes), files);
      ok := true;
    }

    /** The root directory with its first two entries, which always fit. */
    method MakeRoot(files: seq<File>, ghost empty: seq<seq<byte>>) returns (ghost want: seq<seq<byte>>)
      requires Valid() && freeinode == 1 && freeblock == NMETA && Holds(V(), empty) && |files| + 2 <= NINODES && |empty| == NINODES
      requires forall i :: 0 <= i < NINODES ==> empty[i] == []
      modifies this
      ensures Valid() && freeinode == 2 && freeblock == NMETA + 1 && Holds(V(), want) && Listed(want, files, 0)
    {
      hide Ownership, Planned, FileHolds, Holds, Directory;
      want := empty;
      var rootino := Ialloc();
      assert Blocks(0) == 0 && Blocks(16) == 1 && Blocks(32) == 1;
      var ok := Append(rootino, Dirent(ROOTINO, ['.' as int]), want);
      want := want[ROOTINO := want[ROOTINO] + Dirent(ROOTINO, ['.' as int])];
      ok := Append(rootino, Dirent(ROOTINO, ['.' as int, '.' as int]), want);
      want := want[ROOTINO := want[ROOTINO] + Dirent(ROOTINO, ['.' as int, '.' as int])];
      DirectoryStarts(files);
    }

    /** One turn of main's loop over the files. */
    method AddFile(files: seq<File>, i: nat, ghost was: seq<seq<byte>>) returns (ok: bool, ghost want: seq<seq<byte>>)
      requires i < |files| && freeinode == i + 2 && Valid() && Holds(V(), was) && Listed(was, files, i)
      modifies this
      ensures ok ==> Valid() && freeinode == i + 3 && Holds(V(), want) && Listed(want, files, i + 1)
      ensures ok <==> |files[i].data| <= MAXBYTES && old(freeblock) + EntryBlocks(i) + Blocks(|files[i].data|) <= FSSIZE
      ensures ok ==> freeblock == old(freeblock) + EntryBlocks(i) + Blocks(|files[i].data|)
    {
      hide Ownership, Planned, FileHolds, Holds, Directory, Blocks;
      want := was;
      EntryGrows16(i);
      var inum := Ialloc();
      ok := Append(ROOTINO, Dirent(inum, files[i].name), want);
      if !ok {
        return;
      }
      want := want[ROOTINO := want[ROOTINO] + Dirent(inum, files[i].name)];
      ok := CopyFile(inum, files[i].data, want);
      if !ok {
        return;
      }
      want := want[inum := files[i].data];
      DirectoryNext(files, i);
    }
  }

  // ---------------------------------------------------------------- what fits

  /** The blocks that the directory gains with the entry of file i. */
  ghost function EntryBlocks(i: nat): (n: int) {
    Blocks(16 * (i + 3)) - Blocks(16 * (i + 2))
  }

  lemma EntryGrows16(i: nat)
    ensures EntryBlocks(i) >= 0
  {
    BlocksMonotone(16 * (i + 2), 16 * (i + 3));
  }

  /** The data and indirect blocks of all files. */
  ghost function FilesNeed(files: seq<File>): (n: nat) {
    if files == [] then 0 else FilesNeed(files[..|files| - 1]) + Blocks(|files[|files| - 1].data|)
  }

  /** No file is too long, and all files and the root directory fit behind the metadata. */
  ghost predicate FilesFit(files: seq<File>) {
    && (forall k :: 0 <= k < |files| ==> |files[k].data| <= MAXBYTES)
    && NMETA + Blocks(16 * (|files| + 2)) + FilesNeed(files) <= FSSIZE
  }

  ghost predicate FitSoFar(files: seq<File>, i: nat, freeblock: nat) {
    && i <= |files| && freeblock == NMETA + Blocks(16 * (i + 2)) + FilesNeed(files[..i])
    && forall k :: 0 <= k < i ==> |files[k].data| <= MAXBYTES
  }

  lemma FitStarts(files: seq<File>)
    ensures FitSoFar(files, 0, NMETA + 1)
  {
    assert Blocks(32) == 1;
  }

  lemma {:induction false} FilesNeedMonotone(files: seq<File>, i: nat)
    requires i <= |files|
    ensures FilesNeed(files[..i]) <= FilesNeed(files)
    decreases |files| - i
  {
    hide Blocks;
    if i == |files| {
      assert files[..i] == files;
    } else {
      assert files[..i + 1][..i] == files[..i];
      FilesNeedMonotone(files, i + 1);
    }
  }

  /** The next file is added exactly if it fits, and if it does not, the files do not. */
  lemma FitTurn(files: seq<File>, i: nat, freeblock: nat)
    requires FitSoFar(files, i, freeblock) && i < |files|
    ensures var next := freeblock + EntryBlocks(i) + Blocks(|files[i].data|);
            && (|files[i].data| <= MAXBYTES ==> FitSoFar(files, i + 1, next))
            && (!(|files[i].data| <= MAXBYTES && next <= FSSIZE) ==> !FilesFit(files))
  {
    hide Blocks;
    assert files[..i + 1][..i] == files[..i];
    FilesNeedMonotone(files, i + 1);
    BlocksMonotone(16 * (i + 3), 16 * (|files| + 2));
  }

  lemma FitEnds(files: seq<File>, freeblock: nat)
    requires FitSoFar(files, |files|, freeblock) && freeblock <= FSSIZE
    ensures FilesFit(files)
  {
    assert files[..|files|] == files;
  }

  /** The directory and the first i files are in place, and the rest is empty. */
  ghost predicate Listed(want: seq<seq<byte>>, files: seq<File>, i: nat) {
    && |want| == NINODES && i <= |files| <= NINODES - 2 && want[ROOTINO] == Directory(files[..i])
    && (forall k :: 0 <= k < i ==> want[k + 2] == files[k].data)
    && (forall k :: i + 2 <= k < NINODES ==> want[k] == [])
  }

  lemma AllListed(want: seq<seq<byte>>, files: seq<File>)
    requires Listed(want, files, |files|)
    ensures |want| == NINODES && |files| <= NINODES - 2 && want[ROOTINO] == Directory(files)
    ensures forall k :: 0 <= k < |files| ==> want[k + 2] == files[k].data
  {
    assert files[..|files|] == files;
  }

  // ---------------------------------------------------------------- what the files hold

  datatype File = File(name: seq<byte>, data: seq<byte>)

  /** A directory entry: a 16-bit inode number and 14 bytes of name. */
  function Dirent(inum: nat, name: seq<byte>): (d: seq<byte>)
    ensures |d| == 16
  {
    [inum % 256, inum / 256 % 256] + seq(14, i => if 0 <= i < |name| then name[i] else 0)
  }

  function Directory(files: seq<File>): (d: seq<byte>)
    ensures |d| == 16 * (|files| + 2)
  {
    if files == [] then Dirent(ROOTINO, ['.' as int]) + Dirent(ROOTINO, ['.' as int, '.' as int])
    else Directory(files[..|files| - 1]) + Dirent(|files| + 1, files[|files| - 1].name)
  }

  /** Entry k of the root directory is, read little-endian, for inode inum, under the first 14 bytes of the name. */
  ghost predicate EntryReads(fs: Fs, k: nat, inum: nat, name: seq<byte>) {
    && ROOTINO < |fs.inodes| && 16 * k + 16 <= MAXBYTES
    && ByteAt(fs, ROOTINO, 16 * k) + 256 * ByteAt(fs, ROOTINO, 16 * k + 1) == inum
    && NameReads(fs, k, name)
  }

  ghost predicate NameReads(fs: Fs, k: nat, name: seq<byte>)
    requires ROOTINO < |fs.inodes| && 16 * k + 16 <= MAXBYTES
  {
    forall x :: 16 * k + 2 <= x < 16 * k + 16 ==>
      ByteAt(fs, ROOTINO, x) == if x - 16 * k - 2 < |name| then name[x - 16 * k - 2] else 0
  }

  lemma {:induction false} DirectoryAt(files: seq<File>, k: nat)
    requires k < |files| + 2
    ensures Directory(files)[16 * k..16 * k + 16]
            == if k == 0 then Dirent(ROOTINO, ['.' as int]) else if k == 1 then Dirent(ROOTINO, ['.' as int, '.' as int])
               else Dirent(k, files[k - 2].name)
    decreases |files|
  {
    hide Dirent;
    if files != [] {
      var n := |files| - 1;
      if k < |files| + 1 {
        DirectoryAt(files[..n], k);
        assert Directory(files)[16 * k..16 * k + 16] == Directory(files[..n])[16 * k..16 * k + 16];
      }
    }
  }

  lemma EntryRead(fs: Fs, d: seq<byte>, k: nat, inum: nat, name: seq<byte>)
    requires ROOTINO < |fs.inodes| && |d| <= MAXBYTES && 16 * k + 16 <= |d| && inum < 0x1_0000
    requires (forall x :: 0 <= x < |d| ==> ByteAt(fs, ROOTINO, x) == d[x]) && d[16 * k..16 * k + 16] == Dirent(inum, name)
    ensures EntryReads(fs, k, inum, name)
  {
    hide ByteAt;
    var e := d[16 * k..16 * k + 16];
    assert e[0] == d[16 * k] && e[1] == d[16 * k + 1];
    forall x | 16 * k + 2 <= x < 16 * k + 16
      ensures d[x] == if x - 16 * k - 2 < |name| then name[x - 16 * k - 2] else 0
    {
      assert d[x] == e[x - 16 * k];
    }
  }

  lemma EntriesRead(fs: Fs, files: seq<File>)
    requires ROOTINO < |fs.inodes| && |files| + 2 <= NINODES
    requires forall x :: 0 <= x < |Directory(files)| ==> ByteAt(fs, ROOTINO, x) == Directory(files)[x]
    ensures EntryReads(fs, 0, ROOTINO, ['.' as int]) && EntryReads(fs, 1, ROOTINO, ['.' as int, '.' as int])
    ensures forall k :: 0 <= k < |files| ==> EntryReads(fs, k + 2, k + 2, files[k].name)
  {
    hide ByteAt, Dirent, EntryReads, Directory;
    DirectoryAt(files, 0);
    DirectoryAt(files, 1);
    EntryRead(fs, Directory(files), 0, ROOTINO, ['.' as int]);
    EntryRead(fs, Directory(files), 1, ROOTINO, ['.' as int, '.' as int]);
    forall k | 0 <= k < |files|
      ensures EntryReads(fs, k + 2, k + 2, files[k].name)
    {
      DirectoryAt(files, k + 2);
      EntryRead(fs, Directory(files), k + 2, k + 2, files[k].name);
    }
  }

  lemma DirectoryStarts(files: seq<File>)
    ensures Directory(files[..0]) == Dirent(ROOTINO, ['.' as int]) + Dirent(ROOTINO, ['.' as int, '.' as int])
    ensures [] + Dirent(ROOTINO, ['.' as int]) == Dirent(ROOTINO, ['.' as int])
  {
  }

  lemma DirectoryNext(files: seq<File>, i: nat)
    requires i < |files|
    ensures Directory(files[..i + 1]) == Directory(files[..i]) + Dirent(i + 2, files[i].name)
  {
    assert files[..i + 1][..i] == files[..i];
  }

  /** File i has exactly these bytes, in exactly the blocks that they need. */
  ghost predicate FileHolds(fs: Fs, i: nat, data: seq<byte>) {
    && i < |fs.inodes| && fs.inodes[i].size == |data| <= MAXBYTES && Contents(fs, i) == data
    && Dense(fs, i) && Exact(fs, i, |data|)
  }

  ghost predicate Holds(fs: Fs, want: seq<seq<byte>>) {
    |want| == |fs.inodes| && forall i :: 0 <= i < |want| ==> FileHolds(fs, i, want[i])
  }

  lemma HoldsFile(fs: Fs, want: seq<seq<byte>>, i: nat)
    requires Holds(fs, want) && i < |want|
    ensures i < |fs.inodes| && Dense(fs, i) && fs.inodes[i].size == |want[i]| <= MAXBYTES && Exact(fs, i, |want[i]|) && Contents(fs, i) == want[i]
  {
    assert FileHolds(fs, i, want[i]);
  }

  lemma AppendHolds(fs: Fs, fs': Fs, i: nat, src: seq<byte>, want: seq<seq<byte>>)
    requires Holds(fs, want) && i < |want| && |want[i]| + |src| <= MAXBYTES
    requires Overlaid(fs, fs', i, |want[i]|, src) && SizesAfterWrite(fs, fs', i, |want[i]| + |src|) && OthersSame(fs, fs', i)
    requires Exact(fs, i, |want[i]|) ==> Exact(fs', i, |want[i]| + |src|)
    requires forall j :: 0 <= j < |fs.inodes| && Dense(fs, j) ==> Dense(fs', j)
    ensures Holds(fs', want[i := want[i] + src])
  {
    hide Dense, Contents, Overlaid, Exact;
    var want' := want[i := want[i] + src];
    forall j | 0 <= j < |want'|
      ensures FileHolds(fs', j, want'[j])
    {
      HoldsFile(fs, want, j);
      HoldsFile(fs, want, i);
      OverlaidContents(fs, fs', i, |want[i]|, src, j);
      if j != i {
        StillExact(fs, fs', i, j, |want[j]|);
      } else {
        assert want[i][..|want[i]|] + src + [] == want[i] + src;
      }
    }
  }

  lemma StillExact(fs: Fs, fs': Fs, i: nat, j: nat, to: nat)
    requires Exact(fs, j, to) && OthersSame(fs, fs', i) && j != i
    ensures Exact(fs', j, to)
  {
    hide Addr;
    assert Slot(fs, j, NDIRECT);
    forall bn: nat | bn < MAXFILE
      ensures Addr(fs', j, SlotOf(bn)) == Addr(fs, j, SlotOf(bn))
    {
      assert Slot(fs, j, SlotOf(bn));
    }
  }

  lemma EmptyHolds(fs: Fs, want: seq<seq<byte>>)
    requires |fs.inodes| == |want| == NINODES && forall i :: 0 <= i < NINODES ==> fs.inodes[i] == EmptyInode() && want[i] == []
    ensures Holds(fs, want)
  {
  }

  // ---------------------------------------------------------------- the finished image

  lemma FinishedImage(disk: seq<Block>, inodes: seq<Inode>, n: nat, disk': seq<Block>, inodes': seq<Inode>)
    requires |disk| == FSSIZE && n <= FSSIZE && |inodes| == NINODES && disk' == disk[BMAPSTART := MapUpTo(n)]
    requires exists size :: inodes' == inodes[ROOTINO := InodeRecord(size, inodes[ROOTINO].addrs)]
    requires Ownership(Image, Planned(disk, inodes, n))
    ensures Ownership(Image, Fs(disk', inodes')) && Overlaid(Planned(disk, inodes, n), Fs(disk', inodes'), ROOTINO, 0, [])
    ensures forall j, t :: Slot(Fs(disk', inodes'), j, t) ==> Addr(Fs(disk', inodes'), j, t) == Addr(Planned(disk, inodes, n), j, t)
  {
    hide Ownership, MapUpTo, Overlaid;
    var size :| inodes' == inodes[ROOTINO := InodeRecord(size, inodes[ROOTINO].addrs)];
    Resized(Planned(disk, inodes, n), Fs(disk', inodes'), ROOTINO, size);
  }

  lemma RootFinished(fs: Fs, fs': Fs, size: nat, want: seq<seq<byte>>)
    requires Holds(fs, want) && |want| == NINODES && size == (|want[ROOTINO]| / BSIZE + 1) * BSIZE
    requires fs'.inodes == fs.inodes[ROOTINO := InodeRecord(size, fs.inodes[ROOTINO].addrs)] && Overlaid(fs, fs', ROOTINO, 0, [])
    requires forall j, t :: Slot(fs', j, t) ==> Addr(fs', j, t) == Addr(fs, j, t)
    ensures forall j :: 0 <= j < NINODES && j != ROOTINO ==> FileHolds(fs', j, want[j])
    ensures forall x :: 0 <= x < |want[ROOTINO]| ==> ByteAt(fs', ROOTINO, x) == want[ROOTINO][x]
    ensures Dense(fs', ROOTINO) <==> |want[ROOTINO]| % BSIZE != 0
  {
    hide Addr, ByteAt, Holds;
    forall j | 0 <= j < NINODES && j != ROOTINO
      ensures FileHolds(fs', j, want[j])
    {
      HoldsFile(fs, want, j);
      OtherFinished(fs, fs', j, want[j]);
    }
    HoldsFile(fs, want, ROOTINO);
    RootBytes(fs, fs', want[ROOTINO]);
    RootDense(fs, fs', |want[ROOTINO]|);
  }

  lemma RootBytes(fs: Fs, fs': Fs, data: seq<byte>)
    requires ROOTINO < |fs.inodes| && fs.inodes[ROOTINO].size == |data| <= MAXBYTES && Contents(fs, ROOTINO) == data
    requires Overlaid(fs, fs', ROOTINO, 0, [])
    ensures forall x :: 0 <= x < |data| ==> ByteAt(fs', ROOTINO, x) == data[x]
  {
    hide ByteAt;
    forall x | 0 <= x < |data|
      ensures ByteAt(fs', ROOTINO, x) == data[x]
    {
      assert Contents(fs, ROOTINO)[x] == ByteAt(fs, ROOTINO, x);
    }
  }

  lemma OtherFinished(fs: Fs, fs': Fs, j: nat, data: seq<byte>)
    requires FileHolds(fs, j, data) && |fs'.inodes| == |fs.inodes| && fs'.inodes[j] == fs.inodes[j] && Overlaid(fs, fs', ROOTINO, 0, [])
    requires forall i, t :: Slot(fs', i, t) ==> Addr(fs', i, t) == Addr(fs, i, t)
    ensures FileHolds(fs', j, data)
  {
    hide Addr, ByteAt;
    forall bn: nat | bn < MAXFILE
      ensures Addr(fs', j, SlotOf(bn)) == Addr(fs, j, SlotOf(bn))
    {
      assert Slot(fs', j, SlotOf(bn));
    }
    assert Contents(fs', j) == Contents(fs, j);
  }

  /** The rounded size covers a block too many exactly when the directory ends at the end of a block. */
  lemma RootDense(fs: Fs, fs': Fs, n: nat)
    requires ROOTINO < |fs.inodes| == |fs'.inodes| && Dense(fs, ROOTINO) && Exact(fs, ROOTINO, n) && fs.inodes[ROOTINO].size == n <= MAXBYTES
    requires fs'.inodes[ROOTINO].size == (n / BSIZE + 1) * BSIZE
    requires forall i, t :: Slot(fs', i, t) ==> Addr(fs', i, t) == Addr(fs, i, t)
    ensures Dense(fs', ROOTINO) <==> n % BSIZE != 0
  {
    hide Addr;
    var b := n / BSIZE;
    assert n == b * BSIZE + n % BSIZE;
    if n % BSIZE != 0 {
      forall bn | 0 <= bn && bn * BSIZE < fs'.inodes[ROOTINO].size
        ensures Addr(fs', ROOTINO, SlotOf(bn)) != 0
      {
        assert bn <= b && bn * BSIZE < n;
        assert Slot(fs', ROOTINO, SlotOf(bn));
      }
    } else if b < MAXFILE {
      assert Slot(fs', ROOTINO, SlotOf(b)) && b * BSIZE >= n;
      assert Addr(fs', ROOTINO, SlotOf(b)) == 0 && b * BSIZE < fs'.inodes[ROOTINO].size;
    }
  }


  ghost predicate OthersSame(fs: Fs, fs': Fs, i: nat) {
    |fs'.inodes| == |fs.inodes| && forall j, t :: Slot(fs, j, t) && j != i ==> Addr(fs', j, t) == Addr(fs, j, t)
  }

  lemma OthersSelf(fs: Fs, i: nat)
    ensures OthersSame(fs, fs, i)
  {
  }

  lemma AppendTurn(fs0: Fs, fs1: Fs, fs': Fs, i: nat, off: nat, o: nat, n: nat)
    requires OthersSame(fs0, fs1, i) && (Exact(fs0, i, off) ==> Exact(fs1, i, o)) && Mapped(fs1, fs', i, o / BSIZE) && 0 < n
    requires i < |fs0.inodes| && o / BSIZE < MAXFILE && o % BSIZE + n <= BSIZE && Addr(fs', i, SlotOf(o / BSIZE)) != 0
    ensures OthersSame(fs0, fs', i) && (Exact(fs0, i, off) ==> Exact(fs', i, o + n))
  {
    hide Addr;
    forall j: nat, t: nat | Slot(fs0, j, t) && j != i
      ensures Addr(fs', j, t) == Addr(fs0, j, t)
    {
      assert Slot(fs1, j, t);
    }
    if Exact(fs0, i, off) {
      ExactTurn(fs1, fs', i, o, n);
    }
  }

  lemma ExactTurn(fs1: Fs, fs': Fs, i: nat, o: nat, n: nat)
    requires Exact(fs1, i, o) && Mapped(fs1, fs', i, o / BSIZE) && 0 < n && o / BSIZE < MAXFILE && o % BSIZE + n <= BSIZE
    requires i < |fs'.inodes| && Addr(fs', i, SlotOf(o / BSIZE)) != 0
    ensures Exact(fs', i, o + n)
  {
    hide Addr;
    var b := o / BSIZE;
    assert o == b * BSIZE + o % BSIZE;
    assert Slot(fs1, i, NDIRECT);
    if b >= NDIRECT {
      PointerPresent(fs', i, b);
    }
    forall bn: nat | bn < MAXFILE
      ensures Addr(fs', i, SlotOf(bn)) != 0 <==> bn * BSIZE < o + n
    {
      assert Slot(fs1, i, SlotOf(bn));
      assert Addr(fs1, i, SlotOf(bn)) != 0 <==> bn * BSIZE < o;
    }
  }

  /** The file has exactly the blocks that `to` bytes need, and the indirect block exactly if they need one. */
  ghost predicate Exact(fs: Fs, i: nat, to: nat) {
    && i < |fs.inodes| && (Addr(fs, i, NDIRECT) != 0 <==> to > NDIRECT * BSIZE)
    && forall bn: nat {:trigger SlotOf(bn)} :: bn < MAXFILE ==> (Addr(fs, i, SlotOf(bn)) != 0 <==> bn * BSIZE < to)
  }

  lemma ExactSame(fs: Fs, fs': Fs, i: nat, to: nat)
    requires |fs'.inodes| == |fs.inodes| && forall j, t :: Slot(fs', j, t) ==> Addr(fs', j, t) == Addr(fs, j, t)
    ensures Exact(fs, i, to) ==> Exact(fs', i, to)
  {
    hide Addr;
    if Exact(fs, i, to) {
      assert Slot(fs', i, NDIRECT);
      forall bn: nat | bn < MAXFILE
        ensures Addr(fs', i, SlotOf(bn)) == Addr(fs, i, SlotOf(bn))
      {
        assert Slot(fs', i, SlotOf(bn));
      }
    }
  }

  /** The blocks that a file of n bytes takes. */
  function Blocks(n: nat): (b: nat) {
    (n + BSIZE - 1) / BSIZE + if n > NDIRECT * BSIZE then 1 else 0
  }

  lemma NoBlocks()
    ensures Blocks(0) == 0
  {
  }

  lemma BlocksMonotone(a: nat, b: nat)
    requires a <= b
    ensures Blocks(a) <= Blocks(b)
  {
  }

  /** The blocks that must be added before file block fbn can be written. */
  ghost function Missing(fs: Fs, i: nat, fbn: nat): (n: nat)
    requires i < |fs.inodes| && fbn < MAXFILE
  {
    if Addr(fs, i, SlotOf(fbn)) != 0 then 0 else if fbn >= NDIRECT && Addr(fs, i, NDIRECT) == 0 then 2 else 1
  }

  lemma NoPointer(fs: Fs, i: nat, k: nat)
    requires i < |fs.inodes| && k < NINDIRECT
    ensures Addr(fs, i, NDIRECT) == 0 ==> Addr(fs, i, NDIRECT + 1 + k) == 0
  {
  }

  lemma StillNoEntry(fs: Fs, fs': Fs, i: nat, k: nat)
    requires Kept(fs, fs', i, NDIRECT) && i < |fs.inodes| && k < NINDIRECT && Addr(fs, i, NDIRECT + 1 + k) == 0
    ensures Addr(fs', i, NDIRECT + 1 + k) == 0
  {
    hide Addr;
    assert Slot(fs, i, NDIRECT + 1 + k);
  }

  lemma TooLong(o: nat)
    requires o / BSIZE >= MAXFILE
    ensures o >= MAXBYTES
  {
  }

  /** What a piece needs is what it adds to the blocks of the file. */
  lemma PieceNeeds(fs: Fs, i: nat, o: nat, n: nat)
    requires i < |fs.inodes| && o / BSIZE < MAXFILE && 0 < n && o % BSIZE + n <= BSIZE
    ensures Exact(fs, i, o) ==> Missing(fs, i, o / BSIZE) == Blocks(o + n) - Blocks(o)
  {
    hide Addr;
    if Exact(fs, i, o) {
      var b := o / BSIZE;
      assert o == b * BSIZE + o % BSIZE;
      BlocksOf(b, o % BSIZE);
      BlocksOf(b, o % BSIZE + n);
      assert Addr(fs, i, SlotOf(b)) != 0 <==> b * BSIZE < o;
    }
  }

  lemma BlocksOf(b: nat, x: nat)
    requires x <= BSIZE
    ensures (b * BSIZE + x + BSIZE - 1) / BSIZE == if x == 0 then b else b + 1
  {
  }

  lemma DenseBound(fs: Fs, i: nat)
    requires i < |fs.inodes| && Dense(fs, i)
    ensures fs.inodes[i].size <= MAXBYTES
  {
  }

  lemma Resized(fs: Fs, fs': Fs, i: nat, size: nat)
    requires Ownership(Image, fs) && i < |fs.inodes| && fs' == Fs(fs.disk, fs.inodes[i := InodeRecord(size, fs.inodes[i].addrs)])
    ensures Ownership(Image, fs') && Overlaid(fs, fs', i, 0, []) && forall j, t :: Slot(fs', j, t) ==> Addr(fs', j, t) == Addr(fs, j, t)
  {
    hide AddressesUsed, AddressesDistinct, MapExact;
    SameAddrsOwnership(Image, fs, fs');
  }

  lemma PieceFits(o: nat, n: nat)
    requires o / BSIZE < MAXFILE && n <= BSIZE - o % BSIZE
    ensures o < MAXBYTES && o + n <= MAXBYTES && o % BSIZE + n <= BSIZE
  {
    assert o == o / BSIZE * BSIZE + o % BSIZE;
  }

  lemma SameSelf(fs: Fs, i: nat)
    requires i < |fs.inodes|
    ensures SameBytes(fs, fs) && (forall bn :: Mapped(fs, fs, i, bn)) && (forall s :: Kept(fs, fs, i, s))
  {
  }

  /** The address in the inode is the one of the planned image, and lies below the counter. */
  lemma InodeAddr(disk: seq<Block>, inodes: seq<Inode>, n: nat, i: nat, s: nat)
    requires |disk| == FSSIZE && NMETA <= n <= FSSIZE && Ownership(Image, Planned(disk, inodes, n)) && i < |inodes| && s <= NDIRECT
    ensures Addr(Planned(disk, inodes, n), i, s) == inodes[i].addrs[s]
    ensures inodes[i].addrs[s] != 0 ==> NMETA <= inodes[i].addrs[s] < n
  {
    BlockBelow(disk, inodes, n, i, s);
  }

  lemma BlockBelow(disk: seq<Block>, inodes: seq<Inode>, n: nat, i: nat, s: nat)
    requires |disk| == FSSIZE && NMETA <= n <= FSSIZE && Ownership(Image, Planned(disk, inodes, n)) && i < |inodes| && s < SLOTS
    ensures var a := Addr(Planned(disk, inodes, n), i, s); a != 0 ==> NMETA <= a < n
  {
    hide AddressesDistinct, MapExact, Used;
    var fs := Planned(disk, inodes, n);
    assert Slot(fs, i, s);
    var a := Addr(fs, i, s);
    if a != 0 {
      UsedBelow(disk, inodes, n, a);
    }
  }

  lemma EntryAddr(disk: seq<Block>, inodes: seq<Inode>, n: nat, i: nat, k: nat)
    requires |disk| == FSSIZE && NMETA <= n <= FSSIZE && Ownership(Image, Planned(disk, inodes, n)) && i < |inodes| && k < NINDIRECT
    requires NMETA <= inodes[i].addrs[NDIRECT] < n
    ensures Addr(Planned(disk, inodes, n), i, NDIRECT + 1 + k) == Word(disk[inodes[i].addrs[NDIRECT]], k)
    ensures Word(disk[inodes[i].addrs[NDIRECT]], k) != 0 ==> NMETA <= Word(disk[inodes[i].addrs[NDIRECT]], k) < n
  {
    BlockBelow(disk, inodes, n, i, NDIRECT + 1 + k);
  }

  lemma PlannedPatch(disk: seq<Block>, inodes: seq<Inode>, n: nat, x: nat, at: nat, piece: seq<byte>)
    requires |disk| == FSSIZE && NMETA <= x < FSSIZE && n <= FSSIZE && at + |piece| <= BSIZE
    ensures var fs := Planned(disk, inodes, n);
            Planned(disk[x := Patched(disk[x], at, piece)], inodes, n) == Fs(fs.disk[x := Patched(fs.disk[x], at, piece)], inodes)
  {
    hide MapUpTo, Patched;
  }

  lemma SlotStep(disk: seq<Block>, inodes: seq<Inode>, n: nat, i: nat, s: nat)
    requires |disk| == FSSIZE && NMETA <= n < FSSIZE && ZeroFrom(disk, n) && i < |inodes| && s <= NDIRECT && inodes[i].addrs[s] == 0
    requires Ownership(Image, Planned(disk, inodes, n))
    ensures var fs, fs' := Planned(disk, inodes, n), Planned(disk, inodes[i := InodeRecord(inodes[i].size, inodes[i].addrs[s := n])], n + 1);
            Ownership(Image, fs') && SameBytes(fs, fs') && Kept(fs, fs', i, s)
  {
    hide Ownership, SameBytes, Kept, MapUpTo, Claimed, Used;
    var fs := Planned(disk, inodes, n);
    CountClaims(disk, inodes, n);
    SlotGrows(fs, i, s, n);
    assert Planned(disk, inodes[i := InodeRecord(inodes[i].size, inodes[i].addrs[s := n])], n + 1)
           == WithAddr(fs, i, s, n, Claimed(Image, fs.disk, n));
  }

  lemma EntryStep(disk: seq<Block>, inodes: seq<Inode>, n: nat, i: nat, k: nat)
    requires |disk| == FSSIZE && NMETA <= n < FSSIZE && ZeroFrom(disk, n) && i < |inodes| && k < NINDIRECT && inodes[i].addrs[NDIRECT] != 0
    requires Ownership(Image, Planned(disk, inodes, n)) && Addr(Planned(disk, inodes, n), i, NDIRECT + 1 + k) == 0
    ensures NMETA <= inodes[i].addrs[NDIRECT] < n
    ensures var p := inodes[i].addrs[NDIRECT];
            var fs, fs' := Planned(disk, inodes, n), Planned(disk[p := WithWord(disk[p], k, n)], inodes, n + 1);
            && Ownership(Image, fs') && SameBytes(fs, fs') && Kept(fs, fs', i, NDIRECT + 1 + k) && Addr(fs', i, NDIRECT + 1 + k) == n
  {
    hide Ownership, SameBytes, Kept, MapUpTo, Used, WithWord;
    var fs := Planned(disk, inodes, n);
    var p := inodes[i].addrs[NDIRECT];
    CountClaims(disk, inodes, n);
    EntryGrows(fs, i, k, n);
    PointerBelow(fs, inodes, disk, i, n);
    PlannedEntry(disk, inodes, n, p, k);
  }

  lemma PlannedEntry(disk: seq<Block>, inodes: seq<Inode>, n: nat, p: nat, k: nat)
    requires |disk| == FSSIZE && NMETA <= p < n < FSSIZE && k < NINDIRECT
    requires Planned(disk, inodes, n + 1).disk == Claimed(Image, Planned(disk, inodes, n).disk, n)
    ensures Planned(disk[p := WithWord(disk[p], k, n)], inodes, n + 1)
            == WithEntry(Planned(disk, inodes, n), p, k, n, Claimed(Image, Planned(disk, inodes, n).disk, n))
  {
    hide MapUpTo, Claimed, WithWord;
  }

  lemma EmptyOwnership(disk: seq<Block>, inodes: seq<Inode>)
    requires |disk| == FSSIZE && |inodes| == NINODES && forall i :: 0 <= i < NINODES ==> inodes[i] == EmptyInode()
    ensures Ownership(Image, Planned(disk, inodes, NMETA))
  {
    forall x | 0 <= x < FSSIZE
      ensures Used(Image, Planned(disk, inodes, NMETA).disk, x) <==> x < NMETA
    {
      UsedBelow(disk, inodes, NMETA, x);
    }
  }

  lemma SlotGrows(fs: Fs, i: nat, s: nat, b: nat)
    requires Ownership(Image, fs) && i < |fs.inodes| && s <= NDIRECT && fs.inodes[i].addrs[s] == 0
    requires NMETA <= b < FSSIZE && !Used(Image, fs.disk, b)
    ensures var fs' := WithAddr(fs, i, s, b, Claimed(Image, fs.disk, b));
            Ownership(Image, fs') && SameBytes(fs, fs') && Kept(fs, fs', i, s)
  {
    hide AddressesUsed, AddressesDistinct, MapExact, SameBytes;
    var fs' := WithAddr(fs, i, s, b, Claimed(Image, fs.disk, b));
    assert Addr(fs, i, s) == 0;
    InodeSlotGrown(Image, fs, i, s, b);
    GrownOwnership(Image, fs, fs', i, s, b);
    GrownBytes(Image, fs, fs', i, s, b);
  }

  lemma EntryGrows(fs: Fs, i: nat, k: nat, b: nat)
    requires Ownership(Image, fs) && i < |fs.inodes| && k < NINDIRECT && fs.inodes[i].addrs[NDIRECT] != 0
    requires Addr(fs, i, NDIRECT + 1 + k) == 0 && NMETA <= b < FSSIZE && !Used(Image, fs.disk, b)
    ensures NMETA <= fs.inodes[i].addrs[NDIRECT] < FSSIZE && fs.inodes[i].addrs[NDIRECT] != b && |fs.disk| == FSSIZE
    ensures var fs' := WithEntry(fs, fs.inodes[i].addrs[NDIRECT], k, b, Claimed(Image, fs.disk, b));
            && Ownership(Image, fs') && SameBytes(fs, fs') && Kept(fs, fs', i, NDIRECT + 1 + k)
            && Addr(fs', i, NDIRECT + 1 + k) == b
  {
    hide SameBytes, AddressesDistinct, MapExact;
    var p := fs.inodes[i].addrs[NDIRECT];
    assert Slot(fs, i, NDIRECT) && Addr(fs, i, NDIRECT) == p;
    var fs' := WithEntry(fs, p, k, b, Claimed(Image, fs.disk, b));
    EntrySlotGrown(Image, fs, i, k, b);
    GrownOwnership(Image, fs, fs', i, NDIRECT + 1 + k, b);
    GrownBytes(Image, fs, fs', i, NDIRECT + 1 + k, b);
    assert Slot(fs, i, NDIRECT + 1 + k);
  }

  /** The indirect block lies below the counter. */
  lemma PointerBelow(fs: Fs, inodes: seq<Inode>, disk: seq<Block>, i: nat, n: nat)
    requires |disk| == FSSIZE && NMETA <= n < FSSIZE && fs == Planned(disk, inodes, n) && Ownership(Image, fs)
    requires i < |inodes| && inodes[i].addrs[NDIRECT] != 0
    ensures NMETA <= inodes[i].addrs[NDIRECT] < n
  {
    var p := inodes[i].addrs[NDIRECT];
    assert Slot(fs, i, NDIRECT) && Addr(fs, i, NDIRECT) == p;
    UsedBelow(disk, inodes, n, p);
  }
}
