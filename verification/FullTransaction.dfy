/**
  A volume on which one chunk of filewrite logs MAXOPBLOCKS blocks.  One block is free under
  each of its five map blocks; all blocks between them belong to files of maximal length.
 */
module FullTransaction {
  import opened Collections
  import opened Params
  import opened DiskBytes
  import opened FsSpec
  import opened FileSystem

  const BMAPSTART := 46
  const DATASTART := 8179
  const SIZE := 32944
  const FULL := 92              // files of maximal length
  const TARGET := 0             // the file that is written: twelve direct blocks from DATASTART on

  const Wide := Layout(SIZE, BMAPSTART, DATASTART)

  /** The free blocks, one under each map block. */
  function Free(m: nat): (b: nat)
    requires m < 5
    ensures b / BPB == m && DATASTART <= b < SIZE
  {
    if m == 0 then 8191 else if m == 1 then 8192 else if m == 2 then 16532 else if m == 3 then 24603 else 32943
  }

  ghost predicate IsFree(b: nat) {
    exists m: nat :: m < 5 && Free(m) == b
  }

  /** The first block of the j-th full file, which takes SLOTS blocks in a row. */
  function Start(j: nat): (b: nat)
    requires j < FULL
    ensures 8193 <= b && b + 269 <= SIZE - 1
  {
    if j < 31 then 8193 + 269 * j else if j < 61 then 16533 + 269 * (j - 31) else 24604 + 269 * (j - 61)
  }

  lemma StartsApart(j: nat, k: nat)
    requires j < k < FULL
    ensures Start(j) + 269 <= Start(k)
  {
  }

  // ---------------------------------------------------------------- blocks

  /** As an indirect block: the words b+1, b+2, and so on. */
  function Successors(b: nat): (d: Block)
    requires b < SIZE
  {
    seq(BSIZE, i requires 0 <= i < BSIZE => SmallByte(b + 1 + i / 4, i % 4))
  }

  /** The bytes of a word below 2^16. */
  function SmallByte(w: nat, k: nat): (x: byte)
    requires w < 0x1_0000
  {
    if k == 0 then w % 0x100 else if k == 1 then w / 0x100 else 0
  }

  lemma SuccessorsAt(b: nat, k: nat, r: nat)
    requires b < SIZE && k < NINDIRECT && r < 4
    ensures Successors(b)[4 * k + r] == SmallByte(b + 1 + k, r)
  {
    assert (4 * k + r) / 4 == k && (4 * k + r) % 4 == r;
  }

  lemma SuccessorsWord(b: nat, k: nat)
    requires b < SIZE && k < NINDIRECT
    ensures Word(Successors(b), k) == b + 1 + k
  {
    hide Successors;
    SuccessorsAt(b, k, 0);
    SuccessorsAt(b, k, 1);
    SuccessorsAt(b, k, 2);
    SuccessorsAt(b, k, 3);
  }

  /** A map block with every bit set but bit k. */
  function AllBut(k: nat): (d: Block)
    requires k < BPB
  {
    seq(BSIZE, i requires 0 <= i < BSIZE => if i == k / 8 then AndNot(255, k % 8) else 255)
  }

  lemma {:induction false} Ones(n: nat, k: nat)
    requires k < n
    ensures Mask(n) > 0 && Bit(Mask(n) - 1, k)
  {
    if k > 0 {
      Ones(n - 1, k - 1);
      assert (Mask(n) - 1) / 2 == Mask(n - 1) - 1;
    } else if n > 1 {
      Ones(n - 1, 0);
    }
  }

  lemma AllButBit(k: nat, x: nat)
    requires k < BPB && x < BPB
    ensures Bit(AllBut(k)[x / 8], x % 8) <==> x != k
  {
    assert Mask(4) == 16 && Mask(8) == 16 * Mask(4);
    Ones(8, x % 8);
    Ones(8, k % 8);
    BitClearedAt(255, k % 8, x % 8);
  }

  function DiskBlock(b: nat): (d: Block)
    requires b < SIZE
  {
    if BMAPSTART <= b < BMAPSTART + 5 then AllBut(Free(b - BMAPSTART) % BPB) else Successors(b)
  }

  function Disk(): (d: seq<Block>)
    ensures |d| == SIZE && forall b :: 0 <= b < SIZE ==> d[b] == DiskBlock(b)
  {
    seq(SIZE, b requires 0 <= b < SIZE => DiskBlock(b))
  }

  /** Addresses in a row. */
  function Row(b: nat): (r: seq<uint>)
    requires b < SIZE
    ensures |r| == NDIRECT + 1 && forall s :: 0 <= s <= NDIRECT ==> r[s] == b + s
  {
    seq(NDIRECT + 1, s requires 0 <= s <= NDIRECT => var a: uint := b + s; a)
  }

  function FullInode(j: nat): (r: Inode)
    requires j < FULL
  {
    InodeRecord(MAXBYTES, Row(Start(j)))
  }

  function TargetInode(): (r: Inode) {
    InodeRecord(NDIRECT * BSIZE, Row(DATASTART)[NDIRECT := 0])
  }

  function Inodes(): (r: seq<Inode>)
    ensures |r| == FULL + 1 && r[TARGET] == TargetInode() && forall j :: 0 <= j < FULL ==> r[j + 1] == FullInode(j)
  {
    [TargetInode()] + seq(FULL, j requires 0 <= j < FULL => FullInode(j))
  }

  ghost function Vol(): (fs: Fs)
    ensures |fs.inodes| == FULL + 1
  {
    Fs(Disk(), Inodes())
  }

  // ---------------------------------------------------------------- ownership

  lemma FreeIs(x: nat)
    requires x < SIZE
    ensures x / BPB < 5 && (IsFree(x) <==> x % BPB == Free(x / BPB) % BPB)
  {
    assert x == x / BPB * BPB + x % BPB;
    assert Free(x / BPB) == x / BPB * BPB + Free(x / BPB) % BPB;
  }

  lemma UsedIs(x: nat)
    requires x < SIZE
    ensures Used(Wide, Disk(), x) <==> !IsFree(x)
  {
    hide Bit, AllBut, Successors, Free, Disk;
    FreeIs(x);
    AllButBit(Free(x / BPB) % BPB, x % BPB);
    assert x % BPB % 8 == x % 8;
    assert Wide.MapBlock(x) == BMAPSTART + x / BPB;
  }

  lemma AddrFull(j: nat, t: nat)
    requires j < FULL && t < SLOTS
    ensures Addr(Vol(), j + 1, t) == Start(j) + t
  {
    hide Inodes, Disk, Start, Row, Successors, Word;
    assert Inodes()[j + 1] == FullInode(j);
    if t > NDIRECT {
      SuccessorsWord(Start(j) + NDIRECT, t - NDIRECT - 1);
    }
  }

  lemma AddrTarget(t: nat)
    requires t < SLOTS
    ensures Addr(Vol(), TARGET, t) == if t < NDIRECT then DATASTART + t else 0
  {
  }

  lemma AddrRange(i: nat, t: nat)
    requires Slot(Vol(), i, t) && Addr(Vol(), i, t) != 0
    ensures DATASTART <= Addr(Vol(), i, t) < SIZE && !IsFree(Addr(Vol(), i, t))
  {
    hide Addr, Vol;
    if i == TARGET {
      AddrTarget(t);
    } else {
      AddrFull(i - 1, t);
    }
  }

  lemma AddrDistinct(i: nat, s: nat, j: nat, t: nat)
    requires Slot(Vol(), i, s) && Slot(Vol(), j, t) && Addr(Vol(), i, s) != 0 && Addr(Vol(), i, s) == Addr(Vol(), j, t)
    ensures i == j && s == t
  {
    hide Addr;
    AddrTarget(s);
    AddrTarget(t);
    if i > 0 {
      AddrFull(i - 1, s);
    }
    if j > 0 {
      AddrFull(j - 1, t);
    }
    if 0 < i < j {
      StartsApart(i - 1, j - 1);
    } else if 0 < j < i {
      StartsApart(j - 1, i - 1);
    }
  }

  lemma OwnedBlock(b: nat)
    requires DATASTART <= b < SIZE && !IsFree(b)
    ensures Owned(Vol(), b)
  {
    hide Addr, Vol;
    assert b != Free(0) && b != Free(1) && b != Free(2) && b != Free(3) && b != Free(4);
    if b < 8191 {
      AddrTarget(b - DATASTART);
      assert Slot(Vol(), TARGET, b - DATASTART);
    } else {
      var j := if b < 16532 then (b - 8193) / 269 else if b < 24603 then 31 + (b - 16533) / 269 else 61 + (b - 24604) / 269;
      var t := b - Start(j);
      AddrFull(j, t);
      assert Slot(Vol(), j + 1, t);
    }
  }

  lemma WideOwnership()
    ensures Wide.Valid() && Ownership(Wide, Vol())
  {
    hide Addr, IsFree, Used;
    var fs := Vol();
    forall b | 0 <= b < SIZE
      ensures Used(Wide, fs.disk, b) <==> !IsFree(b)
    {
      UsedIs(b);
    }
    forall i: nat, s: nat | Slot(fs, i, s) && Addr(fs, i, s) != 0
      ensures DATASTART <= Addr(fs, i, s) < SIZE && !IsFree(Addr(fs, i, s))
    {
      AddrRange(i, s);
    }
    forall i: nat, s: nat, j: nat, t: nat | Slot(fs, i, s) && Slot(fs, j, t) && Addr(fs, i, s) != 0 && Addr(fs, i, s) == Addr(fs, j, t)
      ensures i == j && s == t
    {
      AddrDistinct(i, s, j, t);
    }
    forall b | 0 <= b < DATASTART
      ensures !IsFree(b)
    {
      NotFreeBelow(b);
    }
    forall b | DATASTART <= b < SIZE && !IsFree(b)
      ensures Owned(fs, b)
    {
      OwnedBlock(b);
    }
  }

  lemma NotFreeBelow(b: nat)
    requires b < DATASTART
    ensures !IsFree(b)
  {
  }

  // ---------------------------------------------------------------- the write

  const OFFSET := 11 * BSIZE + 512     // inside the last direct block of the file
  const INODE_BLOCK := 33              // the first of the blocks that hold the inodes, below the free map

  /** A state that a write of one chunk at OFFSET can lead to. */
  ghost predicate Outcome(fs: Fs) {
    Ownership(Wide, fs) && Confined(Vol(), fs, TARGET, OFFSET, CHUNK)
  }

  ghost function NewAddr(fs: Fs, k: nat): (a: nat)
    requires Outcome(fs) && k < 4
  {
    Addr(fs, TARGET, NDIRECT + k)
  }

  lemma SpannedSlots(t: nat)
    requires Spanned(t, OFFSET, CHUNK)
    ensures NDIRECT - 1 <= t <= NDIRECT + 3
  {
  }

  lemma KeptAddr(fs: Fs, i: nat, t: nat)
    requires Outcome(fs) && Slot(Vol(), i, t) && (i != TARGET || !(NDIRECT <= t <= NDIRECT + 3))
    ensures Slot(fs, i, t) && Addr(fs, i, t) == Addr(Vol(), i, t)
  {
    hide Addr, Ownership, Spanned, Vol;
    AddrTarget(t);
    if i == TARGET && Spanned(t, OFFSET, CHUNK) {
      SpannedSlots(t);
    }
  }

  /** A free block that has come into use is one of the four new ones. */
  lemma NewOwner(fs: Fs, m: nat)
    requires Outcome(fs) && m < 5 && Used(Wide, fs.disk, Free(m))
    ensures Free(m) in {NewAddr(fs, 0), NewAddr(fs, 1), NewAddr(fs, 2), NewAddr(fs, 3)}
  {
    hide Addr, Used, Free, Vol;
    assert Owned(fs, Free(m));
    var i: nat, t: nat :| Slot(fs, i, t) && Addr(fs, i, t) == Free(m);
    if i != TARGET || !(NDIRECT <= t <= NDIRECT + 3) {
      KeptAddr(fs, i, t);
      AddrRange(i, t);
    }
  }

  /** There are five free blocks and the write takes at most four. */
  lemma NotFull(fs: Fs)
    requires Outcome(fs)
    ensures exists m: nat :: m < 5 && !Used(Wide, fs.disk, Free(m))
  {
    hide Outcome, Used, NewAddr;
    OutcomeLayout(fs);
    if forall m: nat :: m < 5 ==> Used(Wide, fs.disk, Free(m)) {
      NewOwner(fs, 0);
      NewOwner(fs, 1);
      NewOwner(fs, 2);
      NewOwner(fs, 3);
      NewOwner(fs, 4);
    }
  }

  lemma OutcomeLayout(fs: Fs)
    requires Outcome(fs)
    ensures Wide.Valid() && |fs.disk| == SIZE && |fs.inodes| == FULL + 1
  {
  }

  lemma NewWasFree(fs: Fs, k: nat)
    requires Outcome(fs) && k < 4 && NewAddr(fs, k) != 0
    ensures DATASTART <= NewAddr(fs, k) < SIZE && IsFree(NewAddr(fs, k))
  {
    hide Addr, Used, IsFree, Vol;
    var a := NewAddr(fs, k);
    assert Slot(fs, TARGET, NDIRECT + k);
    if !IsFree(a) {
      OwnedBlock(a);
      var i: nat, t: nat :| Slot(Vol(), i, t) && Addr(Vol(), i, t) == a;
      AddrTarget(t);
      KeptAddr(fs, i, t);
    }
  }

  lemma NewApart(fs: Fs, j: nat, k: nat)
    requires Outcome(fs) && j < k < 4 && NewAddr(fs, j) != 0 && NewAddr(fs, k) != 0
    ensures MapNumber(Wide, NewAddr(fs, j)) != MapNumber(Wide, NewAddr(fs, k))
    ensures INODE_BLOCK < MapNumber(Wide, NewAddr(fs, j)) && INODE_BLOCK < MapNumber(Wide, NewAddr(fs, k))
  {
    hide Addr, Used, Confined;
    OutcomeLayout(fs);
    NewWasFree(fs, j);
    NewWasFree(fs, k);
    assert Slot(fs, TARGET, NDIRECT + j) && Slot(fs, TARGET, NDIRECT + k);
    assert NewAddr(fs, j) != NewAddr(fs, k);
  }

  lemma MetaApart(fs: Fs)
    requires Outcome(fs) && forall k: nat :: k < 4 ==> NewAddr(fs, k) != 0
    ensures Distinct(MetaOf(Wide, fs, TARGET, 11, INODE_BLOCK))
  {
    hide Addr, Outcome, MapNumber;
    OutcomeLayout(fs);
    NewApart(fs, 0, 1);
    NewApart(fs, 0, 2);
    NewApart(fs, 0, 3);
    NewApart(fs, 1, 2);
    NewApart(fs, 1, 3);
    NewApart(fs, 2, 3);
  }

  /** All four addresses are set when the whole chunk is logged. */
  lemma NewThere(fs: Fs, logged: set<nat>)
    requires Outcome(fs) && AllLogged(Wide, Vol(), fs, TARGET, OFFSET, CHUNK, logged)
    ensures forall k: nat :: k < 4 ==> NewAddr(fs, k) != 0
  {
    hide Addr, AllLogged, Outcome, Vol, NeedsLogged;
    OutcomeLayout(fs);
    ChunkLogged(Wide, Vol(), fs, TARGET, OFFSET, logged);
    PointerPresent(fs, TARGET, 12);
    assert SlotOf(12) == 13 && SlotOf(13) == 14 && SlotOf(14) == 15;
  }

  lemma TenHere(fs: Fs, logged: set<nat>)
    requires Outcome(fs) && AllLogged(Wide, Vol(), fs, TARGET, OFFSET, CHUNK, logged)
    requires INODE_BLOCK in logged && |logged| <= MAXOPBLOCKS
    ensures |logged| == MAXOPBLOCKS
  {
    hide Addr, AllLogged, Vol, MetaOf, NewAddr;
    NewThere(fs, logged);
    MetaApart(fs);
    forall t: nat | t < SLOTS
      ensures Addr(Vol(), TARGET, t) == if t < NDIRECT then DATASTART + t else 0
    {
      AddrTarget(t);
    }
    TenBlocks(Wide, Vol(), fs, TARGET, OFFSET, logged, INODE_BLOCK);
  }

  /** One chunk, written whole, logs exactly MAXOPBLOCKS blocks. */
  method WriteTen(src: seq<byte>) returns (v: Volume, r: int)
    requires |src| == CHUNK
    ensures fresh(v) && v.Valid() && r == CHUNK && |v.logged| == MAXOPBLOCKS
  {
    v := new Volume(Wide, i => INODE_BLOCK + i / 16, Disk(), Inodes());
    hide Ownership, Confined, Overlaid, Dense, Used, Addr, AllLogged, Disk, Inodes, Framed;
    WideOwnership();
    assert v.St() == Vol();
    ghost var w;
    r, w := v.Writei(TARGET, OFFSET, CHUNK, src);
    NotFull(v.St());
    AddrTarget(11);
    assert FirstBlockThere(Vol(), TARGET, OFFSET);
    TenHere(v.St(), v.logged);
  }
}
