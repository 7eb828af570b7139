/**
  The block-mapped file system: which blocks an inode owns, when the free map agrees
  with that, and what bytes a file holds.  The invariant says that all block addresses
  reachable from all inodes are distinct data blocks, and that the free map marks used
  exactly these and the metadata blocks.
 */
module FsSpec {
  import opened DiskBytes

  const NDIRECT := 12
  const MAXFILE := NDIRECT + NINDIRECT
  const MAXBYTES := MAXFILE * BSIZE

  /** Address slots of an inode: the direct blocks, the indirect block, its entries. */
  const SLOTS := NDIRECT + 1 + NINDIRECT

  datatype InodeRecord = InodeRecord(size: nat, addrs: seq<uint>)

  type Inode = r: InodeRecord | |r.addrs| == NDIRECT + 1 witness InodeRecord(0, seq(NDIRECT + 1, i => 0))

  function EmptyInode(): (r: Inode) {
    InodeRecord(0, seq(NDIRECT + 1, i => 0))
  }

  datatype Fs = Fs(disk: seq<Block>, inodes: seq<Inode>)

  /** `size` blocks in all, the free map from `bmapstart`, data blocks from `dataStart`. */
  datatype Layout = Layout(size: nat, bmapstart: nat, dataStart: nat) {
    ghost predicate Valid() {
      && 0 < size < UINT && 0 < dataStart <= size
      && bmapstart + (size - 1) / BPB < dataStart
    }

    /** BBLOCK(b, sb) */
    function MapBlock(b: nat): (m: nat)
      requires Valid() && b < size
      ensures m < dataStart
    {
      assert b / BPB <= (size - 1) / BPB;
      b / BPB + bmapstart
    }
  }

  // ---------------------------------------------------------------- free map

  /** The bit of block b in the free map. */
  ghost predicate Used(l: Layout, disk: seq<Block>, b: nat)
    requires l.Valid() && |disk| == l.size && b < l.size
  {
    Bit(disk[l.MapBlock(b)][b % BPB / 8], b % 8)
  }

  ghost function Marked(l: Layout, disk: seq<Block>, b: nat): (disk': seq<Block>)
    requires l.Valid() && |disk| == l.size && b < l.size
  {
    var m, k := disk[l.MapBlock(b)], b % BPB / 8;
    disk[l.MapBlock(b) := m[k := Or(m[k], b % 8)]]
  }

  ghost function Unmarked(l: Layout, disk: seq<Block>, b: nat): (disk': seq<Block>)
    requires l.Valid() && |disk| == l.size && b < l.size
  {
    var m, k := disk[l.MapBlock(b)], b % BPB / 8;
    disk[l.MapBlock(b) := m[k := AndNot(m[k], b % 8)]]
  }

  /** Block, byte and bit number determine the block that a free-map bit speaks of. */
  lemma MapPosition(b: nat, x: nat)
    requires b / BPB == x / BPB && b % BPB / 8 == x % BPB / 8 && b % 8 == x % 8
    ensures b == x
  {
    assert b % BPB == 8 * (b % BPB / 8) + b % 8;
    assert x % BPB == 8 * (x % BPB / 8) + x % 8;
  }

  lemma MarkedUsed(l: Layout, disk: seq<Block>, b: nat, x: nat)
    requires l.Valid() && |disk| == l.size && b < l.size && x < l.size && !Used(l, disk, b)
    ensures Used(l, Marked(l, disk, b), x) <==> x == b || Used(l, disk, x)
  {
    if l.MapBlock(b) == l.MapBlock(x) && b % BPB / 8 == x % BPB / 8 {
      BitSetAt(disk[l.MapBlock(b)][b % BPB / 8], b % 8, x % 8);
      if b % 8 == x % 8 {
        MapPosition(b, x);
      }
    }
  }

  lemma UnmarkedUsed(l: Layout, disk: seq<Block>, b: nat, x: nat)
    requires l.Valid() && |disk| == l.size && b < l.size && x < l.size && Used(l, disk, b)
    ensures Used(l, Unmarked(l, disk, b), x) <==> x != b && Used(l, disk, x)
  {
    if l.MapBlock(b) == l.MapBlock(x) && b % BPB / 8 == x % BPB / 8 {
      BitClearedAt(disk[l.MapBlock(b)][b % BPB / 8], b % 8, x % 8);
      if b % 8 == x % 8 {
        MapPosition(b, x);
      }
    }
  }

  /** The free map depends on the metadata blocks only. */
  lemma UsedFrame(l: Layout, disk: seq<Block>, disk': seq<Block>, x: nat)
    requires l.Valid() && |disk| == |disk'| == l.size && x < l.size
    requires forall b :: 0 <= b < l.dataStart ==> disk'[b] == disk[b]
    ensures Used(l, disk', x) <==> Used(l, disk, x)
  {
  }

  // ---------------------------------------------------------------- ownership

  /** The address in slot s of inode i; 0 is "none". */
  ghost function Addr(fs: Fs, i: nat, s: nat): (a: nat)
    requires i < |fs.inodes| && s < SLOTS
  {
    var addrs := fs.inodes[i].addrs;
    if s <= NDIRECT then addrs[s]
    else if addrs[NDIRECT] == 0 || addrs[NDIRECT] >= |fs.disk| then 0
    else Word(fs.disk[addrs[NDIRECT]], s - NDIRECT - 1)
  }

  /** The slot that holds the address of file block bn. */
  function SlotOf(bn: nat): (s: nat) {
    if bn < NDIRECT then bn else bn + 1
  }

  ghost predicate Slot(fs: Fs, i: nat, s: nat) {
    i < |fs.inodes| && s < SLOTS
  }

  ghost predicate Owned(fs: Fs, b: nat) {
    exists i, s :: Slot(fs, i, s) && Addr(fs, i, s) == b
  }

  /** Every address is a data block that the free map marks used. */
  ghost predicate AddressesUsed(l: Layout, fs: Fs)
    requires l.Valid() && |fs.disk| == l.size
  {
    forall i, s :: Slot(fs, i, s) && Addr(fs, i, s) != 0 ==>
      l.dataStart <= Addr(fs, i, s) < l.size && Used(l, fs.disk, Addr(fs, i, s))
  }

  /** No block is reachable in two ways. */
  ghost predicate AddressesDistinct(fs: Fs) {
    forall i, s, j, t :: Slot(fs, i, s) && Slot(fs, j, t) && Addr(fs, i, s) != 0 && Addr(fs, i, s) == Addr(fs, j, t) ==>
      i == j && s == t
  }

  /** Metadata blocks are marked used, and no data block is marked used for nothing. */
  ghost predicate MapExact(l: Layout, fs: Fs)
    requires l.Valid() && |fs.disk| == l.size
  {
    && (forall b :: 0 <= b < l.dataStart ==> Used(l, fs.disk, b))
    && (forall b :: l.dataStart <= b < l.size && Used(l, fs.disk, b) ==> Owned(fs, b))
  }

  ghost predicate Ownership(l: Layout, fs: Fs) {
    && l.Valid() && |fs.disk| == l.size
    && AddressesUsed(l, fs) && AddressesDistinct(fs) && MapExact(l, fs)
  }

  /** Every block below the file size is allocated. */
  ghost predicate Dense(fs: Fs, i: nat)
    requires i < |fs.inodes|
  {
    && fs.inodes[i].size <= MAXBYTES
    && forall bn :: 0 <= bn && bn * BSIZE < fs.inodes[i].size ==> Addr(fs, i, SlotOf(bn)) != 0
  }

  // ---------------------------------------------------------------- file contents

  /** Byte x of file i; a block not allocated reads as zero. */
  ghost function ByteAt(fs: Fs, i: nat, x: nat): (v: byte)
    requires i < |fs.inodes| && x < MAXBYTES
  {
    var a := Addr(fs, i, SlotOf(x / BSIZE));
    if a == 0 || a >= |fs.disk| then 0 else fs.disk[a][x % BSIZE]
  }

  ghost function EntryOf(t: Block, k: nat): (a: nat)
    requires k < 256
  {
    t[4 * k] as nat + 256 * (t[4 * k + 1] as nat) + 65536 * (t[4 * k + 2] as nat) + 16777216 * (t[4 * k + 3] as nat)
  }

  /** On the disk: twelve direct blocks of 1024 bytes, then those that the indirect block names in little-endian words. */
  lemma ByteOnDisk(fs: Fs, i: nat, x: nat)
    requires i < |fs.inodes| && x < MAXBYTES
    ensures var a := fs.inodes[i].addrs[12]; x >= 12288 && 0 < a < |fs.disk| ==> x / 1024 - 12 < 256
    ensures var a := if x < 12288 then fs.inodes[i].addrs[x / 1024]
                     else if 0 < fs.inodes[i].addrs[12] < |fs.disk| then EntryOf(fs.disk[fs.inodes[i].addrs[12]], x / 1024 - 12)
                     else 0;
            ByteAt(fs, i, x) == if 0 < a < |fs.disk| then fs.disk[a][x % 1024] else 0
  {
  }

  /** On the disk: a bit for each block, 8192 to a block of the map, the lowest bit of a byte first. */
  lemma UsedOnDisk(l: Layout, disk: seq<Block>, b: nat)
    requires l.Valid() && |disk| == l.size && b < l.size
    ensures l.bmapstart + b / 8192 < |disk|
    ensures Used(l, disk, b) <==> disk[l.bmapstart + b / 8192][b % 8192 / 8] / [1, 2, 4, 8, 16, 32, 64, 128][b % 8] % 2 == 1
  {
    BitIsDigit(disk[l.MapBlock(b)][b % BPB / 8], b % 8);
  }

  ghost function Contents(fs: Fs, i: nat): (s: seq<byte>)
    requires i < |fs.inodes| && fs.inodes[i].size <= MAXBYTES
    ensures |s| == fs.inodes[i].size
  {
    seq(fs.inodes[i].size, x requires 0 <= x < fs.inodes[i].size => ByteAt(fs, i, x))
  }

  ghost predicate SameBytes(fs: Fs, fs': Fs) {
    && |fs'.inodes| == |fs.inodes|
    && (forall i :: 0 <= i < |fs.inodes| ==> fs'.inodes[i].size == fs.inodes[i].size)
    && forall i, x :: 0 <= i < |fs.inodes| && 0 <= x < MAXBYTES ==> ByteAt(fs', i, x) == ByteAt(fs, i, x)
  }

  // ---------------------------------------------------------------- one slot gains a block

  /** Slot (i, s) was empty and now holds the formerly free block b; nothing else moved. */
  ghost predicate Grown(l: Layout, fs: Fs, fs': Fs, i: nat, s: nat, b: nat) {
    && l.Valid() && |fs.disk| == |fs'.disk| == l.size && |fs'.inodes| == |fs.inodes|
    && Slot(fs, i, s) && Addr(fs, i, s) == 0
    && l.dataStart <= b < l.size && !Used(l, fs.disk, b)
    && (forall x :: 0 <= x < l.size ==> (Used(l, fs'.disk, x) <==> x == b || Used(l, fs.disk, x)))
    && (forall j, t :: Slot(fs, j, t) ==> Addr(fs', j, t) == if j == i && t == s then b else Addr(fs, j, t))
  }

  lemma GrownOwnership(l: Layout, fs: Fs, fs': Fs, i: nat, s: nat, b: nat)
    requires Ownership(l, fs) && Grown(l, fs, fs', i, s, b)
    ensures Ownership(l, fs')
  {
    forall x | l.dataStart <= x < l.size && Used(l, fs'.disk, x)
      ensures Owned(fs', x)
    {
      if x == b {
        assert Slot(fs', i, s) && Addr(fs', i, s) == b;
      } else {
        var j, t :| Slot(fs, j, t) && Addr(fs, j, t) == x;
        assert Slot(fs', j, t) && Addr(fs', j, t) == x;
      }
    }
    forall j: nat, t: nat | Slot(fs', j, t) && Addr(fs', j, t) != 0
      ensures l.dataStart <= Addr(fs', j, t) < l.size && Used(l, fs'.disk, Addr(fs', j, t))
    {
      assert Slot(fs, j, t);
    }
    forall j: nat, t: nat, j': nat, t': nat | Slot(fs', j, t) && Slot(fs', j', t') && Addr(fs', j, t) != 0 && Addr(fs', j, t) == Addr(fs', j', t')
      ensures j == j' && t == t'
    {
      assert Slot(fs, j, t) && Slot(fs, j', t');
    }
  }

  /** Blocks that hold file data keep their contents. */
  ghost predicate DataKept(fs: Fs, fs': Fs) {
    && |fs'.disk| == |fs.disk| && |fs'.inodes| == |fs.inodes|
    && forall j, t :: Slot(fs, j, t) && t != NDIRECT && 0 < Addr(fs, j, t) < |fs.disk| ==>
         fs'.disk[Addr(fs, j, t)] == fs.disk[Addr(fs, j, t)]
  }

  lemma GrownBytes(l: Layout, fs: Fs, fs': Fs, i: nat, s: nat, b: nat)
    requires Grown(l, fs, fs', i, s, b) && DataKept(fs, fs')
    requires s != NDIRECT ==> fs'.disk[b] == ZeroBlock()
    requires forall j :: 0 <= j < |fs.inodes| ==> fs'.inodes[j].size == fs.inodes[j].size
    ensures SameBytes(fs, fs')
  {
    forall j, x | 0 <= j < |fs.inodes| && 0 <= x < MAXBYTES
      ensures ByteAt(fs', j, x) == ByteAt(fs, j, x)
    {
      assert Slot(fs, j, SlotOf(x / BSIZE));
    }
  }

  /** An inode whose indirect block is untouched keeps all its addresses. */
  lemma AddrFrame(fs: Fs, fs': Fs, j: nat)
    requires j < |fs.inodes| == |fs'.inodes| && |fs.disk| == |fs'.disk|
    requires fs'.inodes[j].addrs == fs.inodes[j].addrs
    requires var p := fs.inodes[j].addrs[NDIRECT];
             0 < p < |fs.disk| ==> fs'.disk[p] == fs.disk[p]
    ensures forall t :: Slot(fs, j, t) ==> Addr(fs', j, t) == Addr(fs, j, t)
  {
  }

  /** The disk after balloc returns b: marked used and zeroed. */
  ghost function Claimed(l: Layout, disk: seq<Block>, b: nat): (disk': seq<Block>)
    requires l.Valid() && |disk| == l.size && b < l.size
  {
    Marked(l, disk, b)[b := ZeroBlock()]
  }

  lemma ClaimedUsed(l: Layout, disk: seq<Block>, b: nat, x: nat)
    requires l.Valid() && |disk| == l.size && l.dataStart <= b < l.size && !Used(l, disk, b) && x < l.size
    ensures Used(l, Claimed(l, disk, b), x) <==> x == b || Used(l, disk, x)
  {
    MarkedUsed(l, disk, b, x);
    UsedFrame(l, Marked(l, disk, b), Claimed(l, disk, b), x);
  }

  /** Storing a fresh block in a slot of the inode itself (direct, or the indirect pointer). */
  ghost function WithAddr(fs: Fs, i: nat, s: nat, b: uint, disk': seq<Block>): (fs': Fs)
    requires i < |fs.inodes| && s <= NDIRECT
  {
    Fs(disk', fs.inodes[i := InodeRecord(fs.inodes[i].size, fs.inodes[i].addrs[s := b])])
  }

  /** A block that is not marked used is nobody's indirect block. */
  lemma IndirectNotFree(l: Layout, fs: Fs, j: nat, b: nat)
    requires Ownership(l, fs) && j < |fs.inodes| && b < l.size && !Used(l, fs.disk, b)
    ensures var p := fs.inodes[j].addrs[NDIRECT]; p != 0 ==> l.dataStart <= p < l.size && p != b
  {
    assert Slot(fs, j, NDIRECT);
    assert fs.inodes[j].addrs[NDIRECT] == Addr(fs, j, NDIRECT);
  }

  lemma InodeSlotAddr(l: Layout, fs: Fs, i: nat, s: nat, b: nat, j: nat, t: nat)
    requires Ownership(l, fs) && i < |fs.inodes| && s <= NDIRECT && Addr(fs, i, s) == 0
    requires l.dataStart <= b < l.size && !Used(l, fs.disk, b) && Slot(fs, j, t)
    ensures Addr(WithAddr(fs, i, s, b, Claimed(l, fs.disk, b)), j, t) == if j == i && t == s then b else Addr(fs, j, t)
  {
    IndirectNotFree(l, fs, j, b);
    if t > NDIRECT {
      WordOfZero(t - NDIRECT - 1);
    }
  }

  lemma InodeSlotGrown(l: Layout, fs: Fs, i: nat, s: nat, b: nat)
    requires Ownership(l, fs) && i < |fs.inodes| && s <= NDIRECT && Addr(fs, i, s) == 0
    requires l.dataStart <= b < l.size && !Used(l, fs.disk, b)
    ensures var fs' := WithAddr(fs, i, s, b, Claimed(l, fs.disk, b));
            Grown(l, fs, fs', i, s, b) && DataKept(fs, fs')
  {
    var fs' := WithAddr(fs, i, s, b, Claimed(l, fs.disk, b));
    forall x | 0 <= x < l.size
      ensures Used(l, fs'.disk, x) <==> x == b || Used(l, fs.disk, x)
    {
      ClaimedUsed(l, fs.disk, b, x);
    }
    forall j: nat, t: nat | Slot(fs, j, t)
      ensures Addr(fs', j, t) == if j == i && t == s then b else Addr(fs, j, t)
    {
      InodeSlotAddr(l, fs, i, s, b, j, t);
    }
  }

  /** Storing a fresh block in entry k of the indirect block of inode i. */
  ghost function WithEntry(fs: Fs, p: nat, k: nat, b: uint, disk': seq<Block>): (fs': Fs)
    requires p < |disk'| && k < NINDIRECT
  {
    Fs(disk'[p := WithWord(disk'[p], k, b)], fs.inodes)
  }

  lemma EntrySlotAddr(l: Layout, fs: Fs, i: nat, k: nat, b: nat, j: nat, t: nat)
    requires Ownership(l, fs) && i < |fs.inodes| && k < NINDIRECT
    requires l.dataStart <= Addr(fs, i, NDIRECT) < l.size
    requires l.dataStart <= b < l.size && !Used(l, fs.disk, b) && Slot(fs, j, t)
    ensures Addr(WithEntry(fs, Addr(fs, i, NDIRECT), k, b, Claimed(l, fs.disk, b)), j, t)
            == if j == i && t == NDIRECT + 1 + k then b else Addr(fs, j, t)
  {
    IndirectNotFree(l, fs, i, b);
    IndirectNotFree(l, fs, j, b);
    assert Slot(fs, i, NDIRECT) && Slot(fs, j, NDIRECT);
    assert Addr(fs, j, NDIRECT) == Addr(fs, i, NDIRECT) ==> j == i;
    if t > NDIRECT {
      WordOfWithWord(fs.disk[Addr(fs, i, NDIRECT)], k, b, t - NDIRECT - 1);
    }
  }

  lemma EntrySlotGrown(l: Layout, fs: Fs, i: nat, k: nat, b: nat)
    requires Ownership(l, fs) && i < |fs.inodes| && k < NINDIRECT
    requires l.dataStart <= Addr(fs, i, NDIRECT) < l.size && Addr(fs, i, NDIRECT + 1 + k) == 0
    requires l.dataStart <= b < l.size && !Used(l, fs.disk, b)
    ensures var fs' := WithEntry(fs, Addr(fs, i, NDIRECT), k, b, Claimed(l, fs.disk, b));
            Grown(l, fs, fs', i, NDIRECT + 1 + k, b) && DataKept(fs, fs') && fs'.disk[b] == ZeroBlock()
  {
    var p := Addr(fs, i, NDIRECT);
    var disk' := Claimed(l, fs.disk, b);
    var fs' := WithEntry(fs, p, k, b, disk');
    assert Slot(fs, i, NDIRECT);
    forall x | 0 <= x < l.size
      ensures Used(l, fs'.disk, x) <==> x == b || Used(l, fs.disk, x)
    {
      ClaimedUsed(l, fs.disk, b, x);
      UsedFrame(l, disk', fs'.disk, x);
    }
    forall j: nat, t: nat | Slot(fs, j, t)
      ensures Addr(fs', j, t) == if j == i && t == NDIRECT + 1 + k then b else Addr(fs, j, t)
    {
      EntrySlotAddr(l, fs, i, k, b, j, t);
    }
  }

  // ---------------------------------------------------------------- bytes written

  /** Overlay src on s from position at. */
  function Patched(s: seq<byte>, at: nat, src: seq<byte>): (r: seq<byte>)
    requires at + |src| <= |s|
    ensures |r| == |s|
  {
    s[..at] + src + s[at + |src|..]
  }

  /** Writing into the data block of file block bn of inode i shows in that file only. */
  lemma PatchBytes(l: Layout, fs: Fs, i: nat, bn: nat, at: nat, src: seq<byte>)
    requires Ownership(l, fs) && i < |fs.inodes| && bn < MAXFILE && at + |src| <= BSIZE
    requires Addr(fs, i, SlotOf(bn)) != 0
    ensures var a := Addr(fs, i, SlotOf(bn));
            && l.dataStart <= a < l.size
            && var fs' := fs.(disk := fs.disk[a := Patched(fs.disk[a], at, src)]);
            && Ownership(l, fs')
            && (forall j, t :: Slot(fs, j, t) ==> Addr(fs', j, t) == Addr(fs, j, t))
            && (forall j, x :: 0 <= j < |fs.inodes| && 0 <= x < MAXBYTES ==>
                  ByteAt(fs', j, x) ==
                  if j == i && bn * BSIZE + at <= x < bn * BSIZE + at + |src|
                  then src[x - bn * BSIZE - at] else ByteAt(fs, j, x))
  {
    var a := Addr(fs, i, SlotOf(bn));
    assert Slot(fs, i, SlotOf(bn));
    var fs' := fs.(disk := fs.disk[a := Patched(fs.disk[a], at, src)]);
    forall j: nat, t: nat | Slot(fs, j, t)
      ensures Addr(fs', j, t) == Addr(fs, j, t)
    {
      assert Slot(fs, j, NDIRECT);
      assert fs.inodes[j].addrs[NDIRECT] == Addr(fs, j, NDIRECT);
      AddrFrame(fs, fs', j);
    }
    SameAddrsOwnership(l, fs, fs');
    forall j, x | 0 <= j < |fs.inodes| && 0 <= x < MAXBYTES
      ensures ByteAt(fs', j, x) ==
              if j == i && bn * BSIZE + at <= x < bn * BSIZE + at + |src|
              then src[x - bn * BSIZE - at] else ByteAt(fs, j, x)
    {
      PatchByte(fs, fs', i, bn, at, src, j, x);
    }
  }

  lemma PatchByte(fs: Fs, fs': Fs, i: nat, bn: nat, at: nat, src: seq<byte>, j: nat, x: nat)
    requires AddressesDistinct(fs) && i < |fs.inodes| && j < |fs.inodes| && x < MAXBYTES && bn < MAXFILE && at + |src| <= BSIZE
    requires 0 < Addr(fs, i, SlotOf(bn)) < |fs.disk|
    requires var a := Addr(fs, i, SlotOf(bn)); fs' == fs.(disk := fs.disk[a := Patched(fs.disk[a], at, src)])
    requires forall t :: Slot(fs, j, t) ==> Addr(fs', j, t) == Addr(fs, j, t)
    ensures ByteAt(fs', j, x) ==
            if j == i && bn * BSIZE + at <= x < bn * BSIZE + at + |src|
            then src[x - bn * BSIZE - at] else ByteAt(fs, j, x)
  {
    assert Slot(fs, j, SlotOf(x / BSIZE)) && Slot(fs, i, SlotOf(bn));
    assert x == x / BSIZE * BSIZE + x % BSIZE;
  }

  lemma SameAddrsOwnership(l: Layout, fs: Fs, fs': Fs)
    requires Ownership(l, fs) && |fs'.disk| == l.size && |fs'.inodes| == |fs.inodes|
    requires forall j, t :: Slot(fs, j, t) ==> Addr(fs', j, t) == Addr(fs, j, t)
    requires forall b :: 0 <= b < l.dataStart ==> fs'.disk[b] == fs.disk[b]
    ensures Ownership(l, fs')
  {
    forall x | 0 <= x < l.size
      ensures Used(l, fs'.disk, x) <==> Used(l, fs.disk, x)
    {
      UsedFrame(l, fs.disk, fs'.disk, x);
    }
    forall j: nat, t: nat | Slot(fs', j, t) && Addr(fs', j, t) != 0
      ensures l.dataStart <= Addr(fs', j, t) < l.size && Used(l, fs'.disk, Addr(fs', j, t))
    {
      assert Slot(fs, j, t);
    }
    forall x | l.dataStart <= x < l.size && Used(l, fs'.disk, x)
      ensures Owned(fs', x)
    {
      var j, t :| Slot(fs, j, t) && Addr(fs, j, t) == x;
      assert Slot(fs', j, t) && Addr(fs', j, t) == x;
    }
    forall j: nat, t: nat, j': nat, t': nat | Slot(fs', j, t) && Slot(fs', j', t') && Addr(fs', j, t) != 0 && Addr(fs', j, t) == Addr(fs', j', t')
      ensures j == j' && t == t'
    {
      assert Slot(fs, j, t) && Slot(fs, j', t');
    }
  }

  // ---------------------------------------------------------------- truncation

  /** Emptying inode i and unmarking exactly what it owned keeps the invariant. */
  lemma TruncatedOwnership(l: Layout, fs: Fs, fs': Fs, i: nat)
    requires Ownership(l, fs) && i < |fs.inodes| && |fs'.disk| == l.size
    requires fs'.inodes == fs.inodes[i := EmptyInode()]
    requires forall x :: l.dataStart <= x < l.size ==> fs'.disk[x] == fs.disk[x]
    requires forall x :: 0 <= x < l.size ==>
               (Used(l, fs'.disk, x) <==> Used(l, fs.disk, x) && !OwnedBy(fs, i, x))
    ensures Ownership(l, fs')
    ensures forall j, t :: Slot(fs, j, t) ==> Addr(fs', j, t) == if j == i then 0 else Addr(fs, j, t)
    ensures forall j, x :: 0 <= j < |fs.inodes| && j != i && 0 <= x < MAXBYTES ==> ByteAt(fs', j, x) == ByteAt(fs, j, x)
  {
    forall j: nat, t: nat | Slot(fs, j, t)
      ensures Addr(fs', j, t) == if j == i then 0 else Addr(fs, j, t)
    {
      assert Slot(fs, j, NDIRECT);
      assert fs.inodes[j].addrs[NDIRECT] == Addr(fs, j, NDIRECT);
    }
    forall j: nat, t: nat | Slot(fs', j, t) && Addr(fs', j, t) != 0
      ensures l.dataStart <= Addr(fs', j, t) < l.size && Used(l, fs'.disk, Addr(fs', j, t))
    {
      assert Slot(fs, j, t);
    }
    forall x | l.dataStart <= x < l.size && Used(l, fs'.disk, x)
      ensures Owned(fs', x)
    {
      var j, t :| Slot(fs, j, t) && Addr(fs, j, t) == x;
      assert Slot(fs', j, t) && Addr(fs', j, t) == x;
    }
    forall b | 0 <= b < l.dataStart
      ensures Used(l, fs'.disk, b)
    {
      assert Used(l, fs.disk, b);
    }
    forall j: nat, t: nat, j': nat, t': nat | Slot(fs', j, t) && Slot(fs', j', t') && Addr(fs', j, t) != 0 && Addr(fs', j, t) == Addr(fs', j', t')
      ensures j == j' && t == t'
    {
      assert Slot(fs, j, t) && Slot(fs, j', t');
    }
    forall j, x | 0 <= j < |fs.inodes| && j != i && 0 <= x < MAXBYTES
      ensures ByteAt(fs', j, x) == ByteAt(fs, j, x)
    {
      assert Slot(fs, j, SlotOf(x / BSIZE));
    }
  }

  ghost predicate OwnedBy(fs: Fs, i: nat, b: nat)
    requires i < |fs.inodes|
  {
    b != 0 && exists s :: Slot(fs, i, s) && Addr(fs, i, s) == b
  }
}
