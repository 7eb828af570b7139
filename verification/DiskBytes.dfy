/**
  Raw disk blocks as bytes, the two views that the file system takes of them (bits of
  the free map, little-endian 32-bit words of an indirect block), and how an update
  through one view shows in it.
 */
module DiskBytes {

  const BSIZE := 1024
  const BPB := BSIZE * 8
  const NINDIRECT := BSIZE / 4
  const UINT := 0x1_0000_0000

  type byte = x: int | 0 <= x < 256
  type uint = x: int | 0 <= x < UINT
  type Block = b: seq<byte> | |b| == BSIZE witness seq(BSIZE, i => 0)

  function ZeroBlock(): (b: Block)
    ensures forall i :: 0 <= i < BSIZE ==> b[i] == 0
  {
    seq(BSIZE, i => 0)
  }

  // ---------------------------------------------------------------- bits

  /** 1 << k */
  function Mask(k: nat): (m: nat) {
    if k == 0 then 1 else 2 * Mask(k - 1)
  }

  /** x & (1 << k) */
  predicate Bit(x: nat, k: nat) {
    if k == 0 then x % 2 == 1 else Bit(x / 2, k - 1)
  }

  lemma {:induction false} BitIsDigit(x: nat, k: nat)
    requires k < 8
    ensures Bit(x, k) <==> x / [1, 2, 4, 8, 16, 32, 64, 128][k] % 2 == 1
  {
    if k > 0 {
      BitIsDigit(x / 2, k - 1);
      Halved(x);
    }
  }

  lemma Halved(x: nat)
    ensures x / 2 / 2 == x / 4 && x / 2 / 4 == x / 8 && x / 2 / 8 == x / 16 && x / 2 / 16 == x / 32
    ensures x / 2 / 32 == x / 64 && x / 2 / 64 == x / 128
  {
  }

  /** x |= 1 << k, for a clear bit, leaves the other bits. */
  lemma {:induction false} BitSetAt(x: nat, k: nat, j: nat)
    requires !Bit(x, k)
    ensures Bit(x + Mask(k), j) <==> j == k || Bit(x, j)
  {
    if k > 0 && j > 0 {
      BitSetAt(x / 2, k - 1, j - 1);
      assert (x + Mask(k)) / 2 == x / 2 + Mask(k - 1);
    } else if j > 0 {
      assert (x + 1) / 2 == x / 2;
    }
  }

  /** x &= ~(1 << k), for a set bit, leaves the other bits. */
  lemma {:induction false} BitClearedAt(x: nat, k: nat, j: nat)
    requires Bit(x, k)
    ensures Mask(k) <= x
    ensures Bit(x - Mask(k), j) <==> j != k && Bit(x, j)
  {
    if k > 0 {
      BitClearedAt(x / 2, k - 1, if j > 0 then j - 1 else 0);
      assert (x - Mask(k)) / 2 == x / 2 - Mask(k - 1);
    } else if j > 0 {
      assert (x - 1) / 2 == x / 2;
    }
  }

  /** A byte stays a byte when a clear bit is set. */
  lemma {:induction false} BitSetFits(x: nat, k: nat, n: nat)
    requires x < Mask(n) && k < n && !Bit(x, k)
    ensures x + Mask(k) < Mask(n)
  {
    if k > 0 {
      BitSetFits(x / 2, k - 1, n - 1);
    }
  }

  /** x | (1 << k) on a byte. */
  function Or(x: byte, k: nat): (y: byte)
    requires k < 8
  {
    if Bit(x, k) then x else (BitSetFits(x, k, 8); x + Mask(k))
  }

  /** x & ~(1 << k) on a byte. */
  function AndNot(x: byte, k: nat): (y: byte) {
    if Bit(x, k) then (BitClearedAt(x, k, 0); x - Mask(k)) else x
  }

  // ---------------------------------------------------------------- words

  /** ((uint*)b)[i] */
  function Word(b: Block, i: nat): (w: uint)
    requires i < NINDIRECT
  {
    var s: seq<int> := b;
    s[4 * i] + 0x100 * s[4 * i + 1] + 0x1_0000 * s[4 * i + 2] + 0x100_0000 * s[4 * i + 3]
  }

  /** ((uint*)b)[i] = w */
  function WithWord(b: Block, i: nat, w: uint): (b': Block)
    requires i < NINDIRECT
  {
    b[4 * i := w % 0x100][4 * i + 1 := w / 0x100 % 0x100][4 * i + 2 := w / 0x1_0000 % 0x100][4 * i + 3 := w / 0x100_0000]
  }

  lemma FourBytes(w: uint)
    ensures w == w % 0x100 + 0x100 * (w / 0x100 % 0x100) + 0x1_0000 * (w / 0x1_0000 % 0x100) + 0x100_0000 * (w / 0x100_0000)
  {
    var h := w / 0x100;
    assert w == w % 0x100 + 0x100 * h;
    assert w / 0x1_0000 == h / 0x100 && h == h % 0x100 + 0x100 * (h / 0x100);
    assert w / 0x100_0000 == h / 0x100 / 0x100;
  }

  lemma WordOfWithWord(b: Block, i: nat, w: uint, j: nat)
    requires i < NINDIRECT && j < NINDIRECT
    ensures Word(WithWord(b, i, w), j) == if j == i then w else Word(b, j)
  {
    FourBytes(w);
  }

  lemma WordOfZero(j: nat)
    requires j < NINDIRECT
    ensures Word(ZeroBlock(), j) == 0
  {
  }
}
