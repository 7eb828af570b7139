/**
  The file system over the log.  A volume is laid out on the disk, inodes included; its
  transactions pass blocks to the log, one at a time, while other operations begin and end,
  commits run, buffers are recycled and the machine crashes.  Whatever happens, recovery
  finds the volume as some number of whole transactions have left it.
 */
module CrashConsistency {
  import opened DiskBytes
  import opened FsSpec
  import opened FileSystem
  import L = LogSpec

  // ---------------------------------------------------------------- a volume on the disk

  const IPB := 16               // inodes in a block
  const INODE_WORDS := 16       // words of an inode: type and links in two, size, addresses

  /** The parts of the disk: a log, the blocks of `inodes` inodes, free map, data. */
  datatype Format = Format(log: L.Config, l: Layout, inodeStart: nat, inodes: nat) {
    ghost predicate Valid() {
      && log.Valid() && l.Valid() && log.blocks == l.size && log.start + log.size <= inodeStart
      && inodeStart + (inodes + IPB - 1) / IPB <= l.bmapstart
    }

    /** IBLOCK(i, sb) */
    function InodeBlock(i: nat): (b: nat) {
      inodeStart + i / IPB
    }
  }

  ghost predicate Fitting(f: Format, fs: Fs) {
    f.Valid() && |fs.disk| == f.l.size && |fs.inodes| == f.inodes
  }

  /** The inode that word w of block b belongs to. */
  function InodeAt(f: Format, b: nat, w: nat): (i: nat)
    requires f.inodeStart <= b
  {
    (b - f.inodeStart) * IPB + w / INODE_WORDS
  }

  /** Word w of block b is the size or an address of an inode. */
  predicate IsField(f: Format, b: nat, w: nat) {
    f.inodeStart <= b && InodeAt(f, b, w) < f.inodes && w % INODE_WORDS >= 2
  }

  ghost function WordOf(f: Format, fs: Fs, b: nat, w: nat): (x: int)
    requires Fitting(f, fs) && b < f.l.size && w < L.WORDS
  {
    if IsField(f, b, w) then
      var r := fs.inodes[InodeAt(f, b, w)];
      if w % INODE_WORDS == 2 then r.size else r.addrs[w % INODE_WORDS - 3]
    else Word(fs.disk[b], w)
  }

  /** The disk with the inodes where iupdate puts them. */
  ghost function Image(f: Format, fs: Fs): (d: L.Disk)
    requires Fitting(f, fs)
    ensures |d| == f.l.size && forall b, w :: 0 <= b < |d| && 0 <= w < L.WORDS ==> d[b][w] == WordOf(f, fs, b, w)
  {
    seq(f.l.size, b requires 0 <= b < f.l.size => BlockOf(f, fs, b))
  }

  ghost function BlockOf(f: Format, fs: Fs, b: nat): (d: L.Block)
    requires Fitting(f, fs) && b < f.l.size
    ensures forall w :: 0 <= w < L.WORDS ==> d[w] == WordOf(f, fs, b, w)
  {
    seq(L.WORDS, w requires 0 <= w < L.WORDS => WordOf(f, fs, b, w))
  }

  lemma ImageBlock(f: Format, fs: Fs, fs': Fs, b: nat)
    requires Fitting(f, fs) && Fitting(f, fs') && b < f.l.size && fs'.disk[b] == fs.disk[b]
    requires forall i :: 0 <= i < f.inodes && f.InodeBlock(i) == b ==> fs'.inodes[i] == fs.inodes[i]
    ensures Image(f, fs')[b] == Image(f, fs)[b]
  {
    forall w | 0 <= w < L.WORDS
      ensures WordOf(f, fs', b, w) == WordOf(f, fs, b, w)
    {
      if IsField(f, b, w) {
        InodePlace(f, b, w);
      }
    }
  }

  lemma InodePlace(f: Format, b: nat, w: nat)
    requires f.inodeStart <= b && w < L.WORDS
    ensures f.InodeBlock(InodeAt(f, b, w)) == b
  {
    var k := b - f.inodeStart;
    assert w / INODE_WORDS < IPB;
    assert (k * IPB + w / INODE_WORDS) / IPB == k;
  }

  // ---------------------------------------------------------------- the disk decides the volume

  lemma WordDecides(a: Block, b: Block, k: nat, r: nat)
    requires k < NINDIRECT && r < 4 && Word(a, k) == Word(b, k)
    ensures a[4 * k + r] == b[4 * k + r]
  {
    var s: seq<int>, t: seq<int> := a, b;
    assert s[4 * k] == t[4 * k] && s[4 * k + 1] == t[4 * k + 1] && s[4 * k + 2] == t[4 * k + 2] && s[4 * k + 3] == t[4 * k + 3];
  }

  lemma WordsDecide(a: Block, b: Block)
    requires forall k :: 0 <= k < NINDIRECT ==> Word(a, k) == Word(b, k)
    ensures a == b
  {
    forall x | 0 <= x < BSIZE
      ensures a[x] == b[x]
    {
      WordDecides(a, b, x / 4, x % 4);
    }
  }

  /** Outside the inode blocks the image is the disk. */
  lemma PlainBlock(f: Format, fs: Fs, g: Fs, b: nat)
    requires Fitting(f, fs) && Fitting(f, g) && f.l.bmapstart <= b < f.l.size && Image(f, fs)[b] == Image(f, g)[b]
    ensures g.disk[b] == fs.disk[b]
  {
    forall w | 0 <= w < NINDIRECT
      ensures Word(fs.disk[b], w) == Word(g.disk[b], w)
    {
      NoField(f, b, w);
      assert Image(f, fs)[b][w] == WordOf(f, fs, b, w) && Image(f, g)[b][w] == WordOf(f, g, b, w);
    }
    WordsDecide(fs.disk[b], g.disk[b]);
  }

  lemma NoField(f: Format, b: nat, w: nat)
    requires f.Valid() && f.l.bmapstart <= b
    ensures !IsField(f, b, w)
  {
    var n := (f.inodes + IPB - 1) / IPB;
    assert n * IPB >= f.inodes;
    assert (b - f.inodeStart) * IPB >= n * IPB;
  }

  lemma FieldPlace(f: Format, i: nat, k: nat)
    requires f.Valid() && i < f.inodes && 2 <= k < INODE_WORDS
    ensures var b, w := f.InodeBlock(i), i % IPB * INODE_WORDS + k;
            && f.log.Home(b) && b < f.l.size && w < L.WORDS && IsField(f, b, w) && InodeAt(f, b, w) == i && w % INODE_WORDS == k
  {
    var n := (f.inodes + IPB - 1) / IPB;
    assert n * IPB >= f.inodes;
    assert i / IPB < n;
    assert (i % IPB * INODE_WORDS + k) / INODE_WORDS == i % IPB;
    assert (i % IPB * INODE_WORDS + k) % INODE_WORDS == k;
    assert i == i / IPB * IPB + i % IPB;
  }

  /** The k-th word of inode i. */
  ghost function FieldOf(r: Inode, k: nat): (x: int)
    requires 2 <= k < INODE_WORDS
  {
    if k == 2 then r.size else r.addrs[k - 3]
  }

  lemma FieldDecided(f: Format, fs: Fs, g: Fs, i: nat, k: nat)
    requires Fitting(f, fs) && Fitting(f, g) && L.EqHome(f.log, Image(f, fs), Image(f, g)) && i < f.inodes && 2 <= k < INODE_WORDS
    ensures FieldOf(g.inodes[i], k) == FieldOf(fs.inodes[i], k)
  {
    hide Image, IsField, InodeAt;
    var b, w := f.InodeBlock(i), i % IPB * INODE_WORDS + k;
    FieldPlace(f, i, k);
    assert Image(f, fs)[b] == Image(f, g)[b];
    assert WordOf(f, fs, b, w) == Image(f, fs)[b][w] == Image(f, g)[b][w] == WordOf(f, g, b, w);
  }

  lemma InodeDecided(f: Format, fs: Fs, g: Fs, i: nat)
    requires Fitting(f, fs) && Fitting(f, g) && L.EqHome(f.log, Image(f, fs), Image(f, g)) && i < f.inodes
    ensures g.inodes[i] == fs.inodes[i]
  {
    hide Image, L.EqHome;
    FieldDecided(f, fs, g, i, 2);
    forall s | 0 <= s <= NDIRECT
      ensures fs.inodes[i].addrs[s] == g.inodes[i].addrs[s]
    {
      FieldDecided(f, fs, g, i, s + 3);
    }
  }

  /** A volume that the disk can be read as. */
  ghost predicate Holds(f: Format, d: L.Disk, fs: Fs) {
    Fitting(f, fs) && L.EqHome(f.log, d, Image(f, fs))
  }

  /** All volumes that a disk can be read as have the same files, and one has the ownership invariant if another has. */
  lemma DiskDecides(f: Format, d: L.Disk, fs: Fs, g: Fs)
    requires Holds(f, d, fs) && Holds(f, d, g) && Ownership(f.l, fs)
    ensures Ownership(f.l, g) && SameBytes(fs, g) && g.inodes == fs.inodes
  {
    hide Image, Ownership, Addr, ByteAt;
    forall i | 0 <= i < f.inodes
      ensures g.inodes[i] == fs.inodes[i]
    {
      InodeDecided(f, fs, g, i);
    }
    assert g.inodes == fs.inodes;
    forall b | f.l.bmapstart <= b < f.l.size
      ensures g.disk[b] == fs.disk[b]
    {
      assert f.log.Home(b);
      PlainBlock(f, fs, g, b);
    }
    SameFiles(f, fs, g);
  }

  /** The two volumes have the same inodes, free map and data blocks. */
  ghost predicate Alike(f: Format, fs: Fs, g: Fs) {
    && Fitting(f, fs) && Fitting(f, g) && g.inodes == fs.inodes
    && forall b :: f.l.bmapstart <= b < f.l.size ==> g.disk[b] == fs.disk[b]
  }

  lemma SameAddr(f: Format, fs: Fs, g: Fs, i: nat, s: nat)
    requires Alike(f, fs, g) && Ownership(f.l, fs) && Slot(fs, i, s)
    ensures Addr(g, i, s) == Addr(fs, i, s) && (Addr(fs, i, s) != 0 ==> f.l.dataStart <= Addr(fs, i, s) < f.l.size)
  {
    hide AddressesDistinct, MapExact, Used;
    assert Slot(fs, i, NDIRECT);
    assert Addr(fs, i, NDIRECT) == fs.inodes[i].addrs[NDIRECT];
  }

  lemma SameByte(f: Format, fs: Fs, g: Fs, i: nat, x: nat)
    requires Alike(f, fs, g) && Ownership(f.l, fs) && i < |fs.inodes| && x < MAXBYTES
    ensures ByteAt(g, i, x) == ByteAt(fs, i, x)
  {
    hide Ownership, Addr;
    assert x / BSIZE < MAXFILE;
    SameAddr(f, fs, g, i, SlotOf(x / BSIZE));
  }

  lemma SameFiles(f: Format, fs: Fs, g: Fs)
    requires Alike(f, fs, g) && Ownership(f.l, fs)
    ensures Ownership(f.l, g) && SameBytes(fs, g)
  {
    hide Ownership, Addr, Used, ByteAt;
    forall i: nat, s: nat | Slot(fs, i, s)
      ensures Addr(g, i, s) == Addr(fs, i, s)
    {
      SameAddr(f, fs, g, i, s);
    }
    SameMap(f, fs, g);
    SameOwners(f.l, fs, g);
    forall i, x | 0 <= i < |fs.inodes| && 0 <= x < MAXBYTES
      ensures ByteAt(g, i, x) == ByteAt(fs, i, x)
    {
      SameByte(f, fs, g, i, x);
    }
  }

  lemma SameMap(f: Format, fs: Fs, g: Fs)
    requires Fitting(f, fs) && Fitting(f, g) && forall b :: f.l.bmapstart <= b < f.l.size ==> g.disk[b] == fs.disk[b]
    ensures forall x :: 0 <= x < f.l.size ==> (Used(f.l, g.disk, x) <==> Used(f.l, fs.disk, x))
  {
    forall x | 0 <= x < f.l.size
      ensures Used(f.l, g.disk, x) <==> Used(f.l, fs.disk, x)
    {
      assert f.l.bmapstart <= f.l.MapBlock(x) < f.l.size;
    }
  }

  lemma SameOwners(l: Layout, fs: Fs, g: Fs)
    requires Ownership(l, fs) && |g.disk| == l.size && |g.inodes| == |fs.inodes|
    requires forall i: nat, s: nat :: Slot(fs, i, s) ==> Addr(g, i, s) == Addr(fs, i, s)
    requires forall x :: 0 <= x < l.size ==> (Used(l, g.disk, x) <==> Used(l, fs.disk, x))
    ensures Ownership(l, g)
  {
    hide Addr, Used;
    assert forall i, s :: Slot(g, i, s) <==> Slot(fs, i, s);
    forall b | l.dataStart <= b < l.size && Used(l, g.disk, b)
      ensures Owned(g, b)
    {
      assert Owned(fs, b);
      var i, s :| Slot(fs, i, s) && Addr(fs, i, s) == b;
      assert Slot(g, i, s);
    }
  }

  // ---------------------------------------------------------------- transactions

  /** One log_write: a block and its contents at that time. */
  datatype Put = Put(block: nat, data: L.Block)

  ghost function Stored(d: L.Disk, puts: seq<Put>): (d': L.Disk)
    ensures |d'| == |d|
    decreases |puts|
  {
    if puts == [] then d
    else
      var p := puts[0];
      Stored(if p.block < |d| then d[p.block := p.data] else d, puts[1..])
  }

  /** The volume fits its format and has the ownership invariant. */
  ghost predicate Good(f: Format, fs: Fs) {
    Fitting(f, fs) && Ownership(f.l, fs)
  }

  /** Puts on home blocks that turn the image of fs into that of fs'. */
  ghost predicate Transaction(f: Format, fs: Fs, fs': Fs, puts: seq<Put>) {
    && Good(f, fs) && Good(f, fs') && puts != [] && (forall p :: p in puts ==> f.log.Home(p.block))
    && Holds(f, Stored(Image(f, fs), puts), fs')
  }

  /** Some transaction leads from fs to fs'. */
  ghost predicate Leads(f: Format, fs: Fs, fs': Fs) {
    exists puts :: Transaction(f, fs, fs', puts)
  }

  /** The puts are on exactly the logged blocks, and the last one on each block has its final contents. */
  ghost predicate Carries(f: Format, fs': Fs, logged: set<nat>, puts: seq<Put>)
    requires Fitting(f, fs')
  {
    && (forall p :: p in puts ==> p.block in logged)
    && (forall b :: b in logged ==> b < f.l.size && LastPut(puts, b, Image(f, fs')[b]))
  }

  ghost predicate LastPut(puts: seq<Put>, b: nat, data: L.Block) {
    exists k :: 0 <= k < |puts| && puts[k] == Put(b, data) && forall j :: k < j < |puts| ==> puts[j].block != b
  }

  lemma {:induction false} StoredMiss(d: L.Disk, puts: seq<Put>, b: nat)
    requires b < |d| && forall p :: p in puts ==> p.block != b
    ensures Stored(d, puts)[b] == d[b]
    decreases |puts|
  {
    if puts != [] {
      assert puts[0] in puts;
      var d1 := if puts[0].block < |d| then d[puts[0].block := puts[0].data] else d;
      StoredMiss(d1, puts[1..], b);
    }
  }

  lemma {:induction false} StoredLast(d: L.Disk, puts: seq<Put>, b: nat, k: nat)
    requires b < |d| && k < |puts| && puts[k].block == b && forall j :: k < j < |puts| ==> puts[j].block != b
    ensures Stored(d, puts)[b] == puts[k].data
    decreases |puts|
  {
    var d1 := if puts[0].block < |d| then d[puts[0].block := puts[0].data] else d;
    if k > 0 {
      StoredLast(d1, puts[1..], b, k - 1);
    } else {
      forall p | p in puts[1..]
        ensures p.block != b
      {
        var j :| 0 <= j < |puts[1..]| && puts[1..][j] == p;
        assert puts[j + 1] == p;
      }
      StoredMiss(d1, puts[1..], b);
    }
  }

  /**
    What a file-system operation on inode i has done is a transaction, when every block that
    it changed is logged.  Any log_writes will do that leave each logged block as it is at
    the end.
   */
  lemma LoggedTransaction(f: Format, fs: Fs, fs': Fs, i: nat, logged: set<nat>, puts: seq<Put>)
    requires Good(f, fs) && Good(f, fs') && i < f.inodes && f.InodeBlock(i) in logged
    requires Framed(fs.disk, fs'.disk, logged) && LogsOnly(f.l, {f.InodeBlock(i)}, logged)
    requires forall j :: 0 <= j < f.inodes && j != i ==> fs'.inodes[j] == fs.inodes[j]
    requires Carries(f, fs', logged, puts)
    ensures Transaction(f, fs, fs', puts)
  {
    hide Ownership, Image;
    FieldPlace(f, i, 2);
    assert LastPut(puts, f.InodeBlock(i), Image(f, fs')[f.InodeBlock(i)]);
    var d := Stored(Image(f, fs), puts);
    forall b | f.log.Home(b)
      ensures d[b] == Image(f, fs')[b]
    {
      StoredBlock(f, fs, fs', i, logged, puts, b);
    }
    forall p | p in puts
      ensures f.log.Home(p.block)
    {
    }
  }

  lemma StoredBlock(f: Format, fs: Fs, fs': Fs, i: nat, logged: set<nat>, puts: seq<Put>, b: nat)
    requires Fitting(f, fs) && Fitting(f, fs') && i < f.inodes && f.InodeBlock(i) in logged && b < f.l.size
    requires Framed(fs.disk, fs'.disk, logged) && Carries(f, fs', logged, puts)
    requires forall j :: 0 <= j < f.inodes && j != i ==> fs'.inodes[j] == fs.inodes[j]
    ensures Stored(Image(f, fs), puts)[b] == Image(f, fs')[b]
  {
    hide Image, Stored;
    if b in logged {
      var k :| 0 <= k < |puts| && puts[k] == Put(b, Image(f, fs')[b]) && forall j :: k < j < |puts| ==> puts[j].block != b;
      StoredLast(Image(f, fs), puts, b, k);
    } else {
      StoredMiss(Image(f, fs), puts, b);
      ImageBlock(f, fs, fs', b);
    }
  }

  /** writei of a source that can be read to its end, as one transaction. */
  method WriteFile(f: Format, v: Volume, i: nat, off: uint, src: seq<byte>) returns (r: int)
    requires Good(f, v.St()) && v.l == f.l && i < f.inodes && v.logged == {} && |src| < UINT
    requires forall j: nat :: v.inodeBlock(j) == f.InodeBlock(j)
    modifies v`disk, v`inodes, v`logged
    ensures r == -1 ==> v.St() == old(v.St())
    ensures r != -1 ==> 0 <= r <= |src| && Good(f, v.St()) && Overlaid(old(v.St()), v.St(), i, off, src[..r])
    ensures r != -1 ==> SizesAfterWrite(old(v.St()), v.St(), i, off + r)
    ensures r != -1 ==> forall puts :: Carries(f, v.St(), v.logged, puts) ==> Transaction(f, old(v.St()), v.St(), puts)
  {
    hide Ownership, Overlaid, Confined, Image, Carries, Dense, Used;
    ghost var w;
    ghost var fs := v.St();
    r, w := v.Writei(i, off, |src|, src);
    if r != -1 {
      assert r == w && v.logged + FaultBlock(v.St(), i, off, r, w) == v.logged;
      OthersKept(fs, v.St(), i, off, |src|, off + r);
      forall puts | Carries(f, v.St(), v.logged, puts)
        ensures Transaction(f, fs, v.St(), puts)
      {
        assert {} + {f.InodeBlock(i)} == {f.InodeBlock(i)};
        LoggedTransaction(f, fs, v.St(), i, v.logged, puts);
      }
    }
  }

  lemma OthersKept(fs: Fs, fs': Fs, i: nat, off: nat, n: nat, end: nat)
    requires Confined(fs, fs', i, off, n) && i < |fs.inodes| && SizesAfterWrite(fs, fs', i, end)
    ensures |fs'.inodes| == |fs.inodes| && forall j :: 0 <= j < |fs.inodes| && j != i ==> fs'.inodes[j] == fs.inodes[j]
  {
    forall j | 0 <= j < |fs.inodes| && j != i
      ensures fs'.inodes[j] == fs.inodes[j]
    {
      forall s | 0 <= s <= NDIRECT
        ensures fs'.inodes[j].addrs[s] == fs.inodes[j].addrs[s]
      {
        assert Slot(fs, j, s);
        assert Addr(fs', j, s) == Addr(fs, j, s);
      }
    }
  }

  /** itrunc as one transaction. */
  method TruncateFile(f: Format, v: Volume, i: nat)
    requires Good(f, v.St()) && v.l == f.l && i < f.inodes && v.logged == {}
    requires forall j: nat :: v.inodeBlock(j) == f.InodeBlock(j)
    modifies v`disk, v`inodes, v`logged
    ensures Good(f, v.St()) && v.inodes == old(v.inodes)[i := EmptyInode()]
    ensures forall j, x :: 0 <= j < |v.inodes| && j != i && 0 <= x < MAXBYTES ==> ByteAt(v.St(), j, x) == ByteAt(old(v.St()), j, x)
    ensures forall puts :: Carries(f, v.St(), v.logged, puts) ==> Transaction(f, old(v.St()), v.St(), puts)
  {
    hide Ownership, Image, Carries, Used;
    ghost var fs := v.St();
    var ok := v.Itrunc(i);
    forall puts | Carries(f, v.St(), v.logged, puts)
      ensures Transaction(f, fs, v.St(), puts)
    {
      assert {} + {f.InodeBlock(i)} == {f.InodeBlock(i)};
      LoggedTransaction(f, fs, v.St(), i, v.logged, puts);
    }
  }

  // ---------------------------------------------------------------- file system and log together

  /** The volume after a transaction, and the length of the history then. */
  datatype Mark = Mark(fs: Fs, at: nat)

  /** A transaction that operation `op` has begun: the volume that it leads to, and the puts still to come. */
  datatype Work = None | Busy(op: L.OpId, goal: Fs, rest: seq<Put>)

  /** `trail` begins with the first volume and has one mark for each transaction since. */
  datatype State = State(log: L.State, trail: seq<Mark>, work: Work)

  datatype Step =
    | Log(a: L.Action)                                  // anything but a log_write, crashes included
    | Plan(op: L.OpId, goal: Fs, puts: seq<Put>)        // an operation settles on its changes
    | LogWrite                                          // its next log_write

  ghost function Now(s: State): (fs: Fs)
    requires s.trail != []
  {
    s.trail[|s.trail| - 1].fs
  }

  /** How many marks there are up to length j of the history. */
  ghost function Upto(trail: seq<Mark>, j: nat): (n: nat)
    ensures n <= |trail|
  {
    if trail == [] then 0
    else if trail[|trail| - 1].at <= j then |trail|
    else Upto(trail[..|trail| - 1], j)
  }

  ghost predicate Enabled(f: Format, s: State, a: Step) {
    match a
    case Log(a) => L.Enabled(f.log, s.log, a) && !a.LogWrite? && !(a.EndOp? && s.work.Busy? && a.op == s.work.op)
    case Plan(op, goal, puts) =>
      s.work.None? && s.log.mode.Idle? && op in s.log.ops && s.trail != [] && Transaction(f, Now(s), goal, puts)
    case LogWrite =>
      s.work.Busy? && s.work.rest != [] && L.Enabled(f.log, s.log, L.LogWrite(s.work.op, s.work.rest[0].block, s.work.rest[0].data))
  }

  ghost function Do(f: Format, s: State, a: Step): (s': State)
    requires Enabled(f, s, a)
  {
    match a
    case Log(a) =>
      var log := L.Do(f.log, s.log, a);
      if a.Crash? then State(log, s.trail[..Upto(s.trail, s.log.cut)], None) else s.(log := log)
    case Plan(op, goal, puts) => s.(work := Busy(op, goal, puts))
    case LogWrite =>
      var w := s.work;
      var log := L.Do(f.log, s.log, L.LogWrite(w.op, w.rest[0].block, w.rest[0].data));
      if log.mode.Panicked? then s.(log := log)
      else if |w.rest| > 1 then State(log, s.trail, w.(rest := w.rest[1..]))
      else State(log, s.trail + [Mark(w.goal, |log.hist|)], None)
  }

  /** A log that has not been booted, on a disk from which it recovers a good volume. */
  ghost predicate Init(f: Format, s: State) {
    && f.Valid() && L.Init(f.log, s.log) && s.work.None? && |s.trail| == 1 && s.trail[0].at == 0
    && Good(f, s.trail[0].fs) && Holds(f, L.Recovered(f.log, s.log.disk), s.trail[0].fs)
  }

  datatype Run = Start(s: State) | Then(before: Run, a: Step, s: State) {
    ghost predicate Legal(f: Format) {
      match this
      case Start(s) => Init(f, s)
      case Then(before, a, s) => before.Legal(f) && Enabled(f, before.s, a) && s == Do(f, before.s, a)
    }

    ghost function First(): (s0: State) {
      match this
      case Start(s) => s
      case Then(before, a, s) => before.First()
    }
  }

  // ---------------------------------------------------------------- invariant

  ghost predicate NoWrites(hist: seq<L.Event>, lo: nat, hi: nat) {
    lo <= hi <= |hist| && forall j :: lo <= j < hi ==> !hist[j].Write?
  }

  /** The mark at position k is the volume that the history up to there leaves. */
  ghost predicate MarkOk(f: Format, base: L.Disk, hist: seq<L.Event>, m: Mark) {
    m.at <= |hist| && Good(f, m.fs) && Holds(f, L.Replay(base, hist[..m.at]), m.fs)
  }

  ghost predicate TrailOk(f: Format, base: L.Disk, hist: seq<L.Event>, trail: seq<Mark>) {
    && trail != [] && trail[0].at == 0
    && (forall j, k :: 0 <= j < k < |trail| ==> trail[j].at <= trail[k].at)
    && (forall k {:trigger trail[k]} :: 0 <= k < |trail| ==> MarkOk(f, base, hist, trail[k]))
    && (forall k {:trigger Follows(f, trail, k)} :: 0 < k < |trail| ==> Follows(f, trail, k))
  }

  /** Mark k comes from the one before it by a transaction. */
  ghost predicate Follows(f: Format, trail: seq<Mark>, k: nat) {
    0 < k < |trail| && Leads(f, trail[k - 1].fs, trail[k].fs)
  }

  /** Where no operation is open, nothing has been written since the last mark. */
  ghost predicate WholeAt(hist: seq<L.Event>, trail: seq<Mark>, j: nat) {
    && j <= |hist|
    && (L.OpenOps(hist[..j]) == {} ==> Upto(trail, j) > 0 && NoWrites(hist, trail[Upto(trail, j) - 1].at, j))
  }

  ghost predicate Whole(hist: seq<L.Event>, trail: seq<Mark>) {
    forall j: nat {:trigger WholeAt(hist, trail, j)} :: j <= |hist| ==> WholeAt(hist, trail, j)
  }

  ghost predicate Inv(f: Format, base: L.Disk, s: State) {
    && f.Valid() && L.Inv(f.log, base, s.log) && TrailOk(f, base, s.log.hist, s.trail)
    && Whole(s.log.hist, s.trail)
    && match s.work
       case None => NoWrites(s.log.hist, s.trail[|s.trail| - 1].at, |s.log.hist|)
       case Busy(op, goal, rest) =>
         && (s.log.mode.Idle? || s.log.mode.Panicked?) && op in L.OpenOps(s.log.hist) && rest != []
         && Good(f, goal) && Holds(f, Stored(L.Replay(base, s.log.hist), rest), goal)
         && Leads(f, Now(s), goal)
  }

  // ---------------------------------------------------------------- the history grows

  lemma TrailGrow(f: Format, base: L.Disk, hist: seq<L.Event>, e: L.Event, trail: seq<Mark>)
    requires TrailOk(f, base, hist, trail)
    ensures TrailOk(f, base, hist + [e], trail)
  {
    hide Good, Holds, Follows;
    forall k | 0 <= k < |trail|
      ensures MarkOk(f, base, hist + [e], trail[k])
    {
      assert MarkOk(f, base, hist, trail[k]);
      assert (hist + [e])[..trail[k].at] == hist[..trail[k].at];
    }
  }

  lemma WholeGrow(hist: seq<L.Event>, e: L.Event, trail: seq<Mark>)
    requires Whole(hist, trail) && trail != [] && trail[|trail| - 1].at <= |hist|
    requires L.OpenOps(hist + [e]) == {} ==> NoWrites(hist + [e], trail[|trail| - 1].at, |hist| + 1)
    ensures Whole(hist + [e], trail)
  {
    hide L.OpenOps;
    var hist' := hist + [e];
    forall j: nat | j <= |hist'|
      ensures WholeAt(hist', trail, j)
    {
      if j <= |hist| {
        assert WholeAt(hist, trail, j);
        assert hist'[..j] == hist[..j];
      } else {
        assert hist'[..j] == hist';
      }
    }
  }

  lemma WholeMark(hist: seq<L.Event>, trail: seq<Mark>, fs: Fs)
    requires hist != [] && (forall j: nat :: j < |hist| ==> WholeAt(hist, trail, j))
    ensures Whole(hist, trail + [Mark(fs, |hist|)])
  {
    hide L.OpenOps;
    var trail' := trail + [Mark(fs, |hist|)];
    assert trail'[..|trail|] == trail;
    forall j: nat | j <= |hist|
      ensures WholeAt(hist, trail', j)
    {
      if j < |hist| {
        assert WholeAt(hist, trail, j);
      }
    }
  }

  // ---------------------------------------------------------------- marks up to a length

  lemma {:induction false} UptoBound(trail: seq<Mark>, j: nat, k: nat)
    requires (forall i, k :: 0 <= i < k < |trail| ==> trail[i].at <= trail[k].at) && k < |trail|
    ensures k < Upto(trail, j) <==> trail[k].at <= j
  {
    if trail[|trail| - 1].at > j && k < |trail| - 1 {
      UptoBound(trail[..|trail| - 1], j, k);
    }
  }

  lemma {:induction false} UptoPrefix(trail: seq<Mark>, cut: nat, j: nat)
    requires j <= cut
    ensures Upto(trail[..Upto(trail, cut)], j) == Upto(trail, j)
  {
    if trail != [] {
      if trail[|trail| - 1].at <= cut {
        assert trail[..|trail|] == trail;
      } else {
        var init := trail[..|trail| - 1];
        UptoPrefix(init, cut, j);
        assert init[..Upto(init, cut)] == trail[..Upto(trail, cut)];
      }
    }
  }

  lemma {:induction false} UptoMonotone(trail: seq<Mark>, i: nat, j: nat)
    requires i <= j
    ensures Upto(trail, i) <= Upto(trail, j)
  {
    if trail != [] && trail[|trail| - 1].at > j {
      UptoMonotone(trail[..|trail| - 1], i, j);
    }
  }

  // ---------------------------------------------------------------- steps keep the invariant

  lemma CrashTrail(f: Format, base: L.Disk, hist: seq<L.Event>, trail: seq<Mark>, cut: nat)
    requires TrailOk(f, base, hist, trail) && cut <= |hist| && Upto(trail, cut) > 0
    ensures TrailOk(f, base, hist[..cut], trail[..Upto(trail, cut)])
  {
    hide Good, Holds, Leads;
    var n := Upto(trail, cut);
    forall k | 0 <= k < n
      ensures MarkOk(f, base, hist[..cut], trail[..n][k])
    {
      UptoBound(trail, cut, k);
      assert MarkOk(f, base, hist, trail[k]);
      assert hist[..cut][..trail[k].at] == hist[..trail[k].at];
    }
    forall k | 0 < k < n
      ensures Follows(f, trail[..n], k)
    {
      assert Follows(f, trail, k);
    }
  }

  lemma CrashWhole(hist: seq<L.Event>, trail: seq<Mark>, cut: nat)
    requires Whole(hist, trail) && cut <= |hist|
    ensures Whole(hist[..cut], trail[..Upto(trail, cut)])
  {
    hide L.OpenOps;
    var hist', trail' := hist[..cut], trail[..Upto(trail, cut)];
    forall j: nat | j <= cut
      ensures WholeAt(hist', trail', j)
    {
      assert WholeAt(hist, trail, j);
      assert hist'[..j] == hist[..j];
      UptoPrefix(trail, cut, j);
    }
  }

  lemma CrashInv(f: Format, base: L.Disk, s: State)
    requires Inv(f, base, s) && Enabled(f, s, Log(L.Crash))
    ensures Inv(f, base, Do(f, s, Log(L.Crash)))
  {
    hide TrailOk, L.OpenOps, L.Recovered, L.Formatted, L.EqHome, L.Inv, Good, Holds, Leads;
    var hist, cut := s.log.hist, s.log.cut;
    L.StepInv(f.log, base, s.log, L.Crash);
    DurableParts(f.log, base, s.log);
    assert WholeAt(hist, s.trail, cut);
    CrashTrail(f, base, hist, s.trail, cut);
    CrashWhole(hist, s.trail, cut);
  }

  /** The other steps of the log add no write to the history. */
  lemma LogHistory(c: L.Config, s: L.State, a: L.Action)
    requires L.Enabled(c, s, a) && !a.LogWrite? && !a.Crash?
    ensures var s' := L.Do(c, s, a);
            s'.hist == if a.BeginOp? then s.hist + [L.Begin(a.op)] else if a.EndOp? then s.hist + [L.End(a.op)] else s.hist
  {
  }

  lemma GrowInv(f: Format, base: L.Disk, s: State, log: L.State, e: L.Event)
    requires Inv(f, base, s) && L.Inv(f.log, base, log) && log.hist == s.log.hist + [e] && !e.Write?
    requires s.work.Busy? ==> log.mode.Idle? && !(e.End? && e.op == s.work.op)
    ensures Inv(f, base, s.(log := log))
  {
    hide TrailOk, L.Inv, Good, Holds, Leads, L.OpenOps, L.Replay, Stored;
    TrailLast(f, base, s.log.hist, s.trail);
    L.HistorySnoc(base, s.log.hist, e);
    TrailGrow(f, base, s.log.hist, e, s.trail);
    if s.work.Busy? {
      assert s.work.op in L.OpenOps(s.log.hist + [e]);
    } else {
      QuietMore(s.log.hist, e, s.trail[|s.trail| - 1].at);
    }
    WholeGrow(s.log.hist, e, s.trail);
  }

  lemma QuietMore(hist: seq<L.Event>, e: L.Event, from: nat)
    requires NoWrites(hist, from, |hist|) && !e.Write?
    ensures NoWrites(hist + [e], from, |hist| + 1)
  {
  }

  lemma TrailLast(f: Format, base: L.Disk, hist: seq<L.Event>, trail: seq<Mark>)
    requires TrailOk(f, base, hist, trail)
    ensures trail != [] && trail[|trail| - 1].at <= |hist| && Good(f, trail[|trail| - 1].fs)
  {
    assert MarkOk(f, base, hist, trail[|trail| - 1]);
  }

  lemma LogInv(f: Format, base: L.Disk, s: State, a: L.Action)
    requires Inv(f, base, s) && Enabled(f, s, Log(a)) && !a.Crash?
    ensures Inv(f, base, Do(f, s, Log(a)))
  {
    hide TrailOk, Whole, Good, Holds, Leads, L.Inv, L.Do, L.OpenOps, L.Replay, Stored;
    var log := L.Do(f.log, s.log, a);
    L.StepInv(f.log, base, s.log, a);
    LogHistory(f.log, s.log, a);
    if s.work.Busy? {
      BusyMode(f, base, s, a);
    }
    if a.BeginOp? {
      GrowInv(f, base, s, log, L.Begin(a.op));
    } else if a.EndOp? {
      GrowInv(f, base, s, log, L.End(a.op));
    }
  }

  /** While a transaction is under way no commit begins. */
  lemma BusyMode(f: Format, base: L.Disk, s: State, a: L.Action)
    requires Inv(f, base, s) && Enabled(f, s, Log(a)) && !a.Crash? && s.work.Busy?
    ensures var m := L.Do(f.log, s.log, a).mode; m.Idle? || (m.Panicked? && !a.BeginOp? && !a.EndOp?)
  {
    hide TrailOk, Whole, Good, Holds, Leads, L.OpenOps, L.Replay, Stored, L.Recovered, L.Formatted;
    if a.EndOp? {
      assert s.work.op in s.log.ops - {a.op};
    }
  }

  lemma PlanInv(f: Format, base: L.Disk, s: State, op: L.OpId, goal: Fs, puts: seq<Put>)
    requires Inv(f, base, s) && Enabled(f, s, Plan(op, goal, puts))
    ensures Inv(f, base, Do(f, s, Plan(op, goal, puts)))
  {
    hide Good, L.OpenOps, L.Recovered, L.Formatted, Image, Stored, L.Replay, Whole;
    assert Leads(f, Now(s), goal);
    assert op in L.OpenOps(s.log.hist);
    TrailLast(f, base, s.log.hist, s.trail);
    QuietNow(f, base, s);
    StoredHome(f, L.Replay(base, s.log.hist), Image(f, Now(s)), puts);
  }

  /** Nothing is written since the last mark, so the history leaves the volume of that mark. */
  lemma QuietNow(f: Format, base: L.Disk, s: State)
    requires TrailOk(f, base, s.log.hist, s.trail) && NoWrites(s.log.hist, s.trail[|s.trail| - 1].at, |s.log.hist|)
    ensures Holds(f, L.Replay(base, s.log.hist), Now(s))
  {
    hide Good, Holds, Follows, L.Replay;
    var m := s.trail[|s.trail| - 1];
    assert MarkOk(f, base, s.log.hist, m);
    QuietReplay(base, s.log.hist, m.at, |s.log.hist|);
    assert s.log.hist[..|s.log.hist|] == s.log.hist;
  }

  lemma {:induction false} QuietReplay(base: L.Disk, hist: seq<L.Event>, lo: nat, hi: nat)
    requires NoWrites(hist, lo, hi)
    ensures L.Replay(base, hist[..hi]) == L.Replay(base, hist[..lo])
    decreases hi
  {
    if lo < hi {
      QuietReplay(base, hist, lo, hi - 1);
      assert hist[..hi] == hist[..hi - 1] + [hist[hi - 1]];
      L.HistorySnoc(base, hist[..hi - 1], hist[hi - 1]);
    }
  }

  /** Puts on disks with the same home blocks leave the same home blocks. */
  lemma {:induction false} StoredHome(f: Format, d: L.Disk, e: L.Disk, puts: seq<Put>)
    requires L.EqHome(f.log, d, e)
    ensures L.EqHome(f.log, Stored(d, puts), Stored(e, puts))
    decreases |puts|
  {
    if puts != [] {
      var p := puts[0];
      StoredHome(f, if p.block < |d| then d[p.block := p.data] else d, if p.block < |e| then e[p.block := p.data] else e, puts[1..]);
    }
  }

  lemma LogWriteInv(f: Format, base: L.Disk, s: State)
    requires Inv(f, base, s) && Enabled(f, s, LogWrite)
    ensures Inv(f, base, Do(f, s, LogWrite))
  {
    hide TrailOk, Good, Holds, Leads, L.OpenOps, L.Replay, L.Inv, Whole, L.Do, L.Enabled;
    var w := s.work;
    var a := L.LogWrite(w.op, w.rest[0].block, w.rest[0].data);
    var log := L.Do(f.log, s.log, a);
    L.StepInv(f.log, base, s.log, a);
    PutHistory(f.log, s.log, a);
    if !log.mode.Panicked? {
      var e := L.Write(a.op, a.block, a.data);
      L.HistorySnoc(base, s.log.hist, e);
      PutReplay(f, base, s.log, w.rest);
      TrailLast(f, base, s.log.hist, s.trail);
      TrailGrow(f, base, s.log.hist, e, s.trail);
      assert w.op in L.OpenOps(log.hist);
      WholeGrow(s.log.hist, e, s.trail);
      if |w.rest| == 1 {
        assert w.rest[1..] == [];
        MarkInv(f, base, s, log);
      }
    }
  }

  lemma PutHistory(c: L.Config, s: L.State, a: L.Action)
    requires L.Enabled(c, s, a) && a.LogWrite?
    ensures var s' := L.Do(c, s, a);
            if s'.mode.Panicked? then s'.hist == s.hist else s'.mode.Idle? && s'.hist == s.hist + [L.Write(a.op, a.block, a.data)]
  {
  }

  lemma PutReplay(f: Format, base: L.Disk, s: L.State, rest: seq<Put>)
    requires rest != []
    ensures Stored(L.Effect(L.Replay(base, s.hist), L.Write(0, rest[0].block, rest[0].data)), rest[1..]) == Stored(L.Replay(base, s.hist), rest)
  {
  }

  /** The last put of a transaction: the goal is reached. */
  lemma MarkInv(f: Format, base: L.Disk, s: State, log: L.State)
    requires TrailOk(f, base, log.hist, s.trail) && Whole(log.hist, s.trail) && L.Inv(f.log, base, log) && f.Valid() && log.hist != []
    requires s.work.Busy? && Good(f, s.work.goal) && Leads(f, Now(s), s.work.goal)
    requires Holds(f, L.Replay(base, log.hist), s.work.goal)
    ensures Inv(f, base, State(log, s.trail + [Mark(s.work.goal, |log.hist|)], None))
  {
    hide Good, Holds, Leads, L.OpenOps, L.Replay, L.Inv, WholeAt;
    WholeMark(log.hist, s.trail, s.work.goal);
    TrailMark(f, base, log.hist, s.trail, s.work.goal);
  }

  lemma TrailMark(f: Format, base: L.Disk, hist: seq<L.Event>, trail: seq<Mark>, goal: Fs)
    requires TrailOk(f, base, hist, trail) && Good(f, goal) && Leads(f, trail[|trail| - 1].fs, goal) && Holds(f, L.Replay(base, hist), goal)
    ensures TrailOk(f, base, hist, trail + [Mark(goal, |hist|)])
  {
    hide Good, Holds, Leads, L.Replay;
    var trail' := trail + [Mark(goal, |hist|)];
    assert hist[..|hist|] == hist;
    forall k | 0 <= k < |trail'|
      ensures MarkOk(f, base, hist, trail'[k]) && trail'[k].at <= |hist|
    {
      if k < |trail| {
        assert MarkOk(f, base, hist, trail[k]);
      }
    }
    forall k | 0 < k < |trail'|
      ensures Follows(f, trail', k)
    {
      if k < |trail| {
        assert Follows(f, trail, k);
      }
    }
  }

  lemma StepInv(f: Format, base: L.Disk, s: State, a: Step)
    requires Inv(f, base, s) && Enabled(f, s, a)
    ensures Inv(f, base, Do(f, s, a))
  {
    hide Inv, Do, Enabled;
    match a
    case Log(a) =>
      if a.Crash? {
        CrashInv(f, base, s);
      } else {
        LogInv(f, base, s, a);
      }
    case Plan(op, goal, puts) => PlanInv(f, base, s, op, goal, puts);
    case LogWrite => LogWriteInv(f, base, s);
  }

  lemma InitInv(f: Format, s: State)
    requires Init(f, s)
    ensures Inv(f, L.Recovered(f.log, s.log.disk), s)
  {
    hide Good, Holds, L.Recovered;
    L.InitInv(f.log, s.log);
  }

  lemma {:induction false} RunInv(f: Format, r: Run)
    requires r.Legal(f)
    ensures L.Formatted(f.log, r.First().log.disk) && Inv(f, L.Recovered(f.log, r.First().log.disk), r.s)
    ensures r.s.trail != [] && r.First().trail != [] && r.s.trail[0] == r.First().trail[0]
  {
    hide Inv, Do, Enabled;
    match r
    case Start(s) => InitInv(f, s);
    case Then(before, a, s) =>
      RunInv(f, before);
      StepInv(f, L.Recovered(f.log, r.First().log.disk), before.s, a);
      FirstMark(f, L.Recovered(f.log, r.First().log.disk), before.s, a);
  }

  lemma FirstMark(f: Format, base: L.Disk, s: State, a: Step)
    requires Enabled(f, s, a) && s.trail != [] && Inv(f, base, Do(f, s, a))
    ensures Do(f, s, a).trail != [] && Do(f, s, a).trail[0] == s.trail[0]
  {
    hide L.Inv, Good, Holds, Leads, Whole, L.Do, L.Enabled;
  }

  // ---------------------------------------------------------------- main results

  /** The transactions that recovery would keep now. */
  ghost function Kept(s: State): (n: nat)
    ensures n <= |s.trail|
  {
    Upto(s.trail, s.log.cut)
  }

  /**
    Crash consistency.  Stop any run at any disk write: recovery rebuilds the volume that the
    first so many transactions have left, with the ownership invariant, and whoever reads the
    recovered disk as a volume finds those files.
   */
  lemma CrashConsistent(f: Format, r: Run)
    requires r.Legal(f)
    ensures L.Formatted(f.log, r.s.log.disk) && 0 < Kept(r.s)
    ensures var fs := r.s.trail[Kept(r.s) - 1].fs;
            && Ownership(f.l, fs) && Holds(f, L.Recovered(f.log, r.s.log.disk), fs)
            && forall g :: Holds(f, L.Recovered(f.log, r.s.log.disk), g) ==> Ownership(f.l, g) && SameBytes(fs, g)
  {
    hide Inv, L.Recovered, L.Formatted, Ownership, Holds, SameBytes, Kept;
    RunInv(f, r);
    KeptVolume(f, L.Recovered(f.log, r.First().log.disk), r.s);
    var fs, d := r.s.trail[Kept(r.s) - 1].fs, L.Recovered(f.log, r.s.log.disk);
    forall g | Holds(f, d, g)
      ensures Ownership(f.l, g) && SameBytes(fs, g)
    {
      DiskDecides(f, d, fs, g);
    }
  }

  lemma DurableParts(c: L.Config, base: L.Disk, s: L.State)
    requires L.Inv(c, base, s)
    ensures L.Formatted(c, s.disk) && s.cut <= |s.hist| && L.OpenOps(s.hist[..s.cut]) == {}
    ensures L.EqHome(c, L.Recovered(c, s.disk), L.Replay(base, s.hist[..s.cut]))
  {
  }

  lemma KeptVolume(f: Format, base: L.Disk, s: State)
    requires Inv(f, base, s)
    ensures L.Formatted(f.log, s.log.disk) && 0 < Kept(s)
    ensures Ownership(f.l, s.trail[Kept(s) - 1].fs) && Holds(f, L.Recovered(f.log, s.log.disk), s.trail[Kept(s) - 1].fs)
  {
    hide L.Inv, L.OpenOps, L.Recovered, L.Formatted, Ownership, Image, L.Replay, Leads;
    DurableParts(f.log, base, s.log);
    var hist, cut, k := s.log.hist, s.log.cut, Kept(s) - 1;
    assert WholeAt(hist, s.trail, cut);
    assert MarkOk(f, base, hist, s.trail[k]);
    QuietReplay(base, hist, s.trail[k].at, cut);
  }

  /** The volumes that are kept are those of a sequence of transactions from the first volume on. */
  lemma TrailOfTransactions(f: Format, r: Run, k: nat)
    requires r.Legal(f) && 0 < k < |r.s.trail|
    ensures r.First().trail != [] && r.s.trail[0].fs == r.First().trail[0].fs && Leads(f, r.s.trail[k - 1].fs, r.s.trail[k].fs)
  {
    hide L.Inv, Good, Holds, Whole, Leads;
    RunInv(f, r);
    assert Follows(f, r.s.trail, k);
  }

  /** The header write of a commit makes every transaction so far durable. */
  lemma CommitKeepsAll(f: Format, r: Run)
    requires r.Legal(f) && r.Then? && r.a == Log(L.WriteHead)
    ensures Kept(r.s) == |r.s.trail|
  {
    hide L.Inv, Good, Holds, Whole, Follows;
    RunInv(f, r);
    TrailLast(f, L.Recovered(f.log, r.First().log.disk), r.s.log.hist, r.s.trail);
  }

  /** What is durable stays durable, through crashes and everything else. */
  lemma DurableStays(f: Format, r: Run)
    requires r.Legal(f) && r.Then?
    ensures Kept(r.before.s) <= Kept(r.s) && r.s.trail[..Kept(r.before.s)] == r.before.s.trail[..Kept(r.before.s)]
  {
    hide Inv, Do, Enabled, Kept;
    RunInv(f, r.before);
    StepKeeps(f, L.Recovered(f.log, r.First().log.disk), r.before.s, r.a);
  }

  lemma StepKeeps(f: Format, base: L.Disk, s: State, a: Step)
    requires Inv(f, base, s) && Enabled(f, s, a)
    ensures var s' := Do(f, s, a); Kept(s) <= Kept(s') && s'.trail[..Kept(s)] == s.trail[..Kept(s)]
  {
    hide Inv, L.Do, L.Enabled, Transaction, Upto;
    var s' := Do(f, s, a);
    CutKept(f, base, s, a);
    if a == Log(L.Crash) {
      UptoPrefix(s.trail, s.log.cut, s.log.cut);
      UptoMonotone(s'.trail, s.log.cut, s'.log.cut);
    } else {
      UptoMonotone(s.trail, s.log.cut, s'.log.cut);
      if a.LogWrite? && |s'.trail| > |s.trail| {
        UptoMore(s.trail, s'.trail[|s.trail|], s'.log.cut);
        assert s'.trail[..|s.trail|] == s.trail;
      }
    }
  }

  lemma CutKept(f: Format, base: L.Disk, s: State, a: Step)
    requires Inv(f, base, s) && Enabled(f, s, a)
    ensures s.log.cut <= Do(f, s, a).log.cut
  {
    hide L.OpenOps, L.Recovered, L.Formatted, Good, Holds, Whole, TrailOk;
  }

  lemma UptoMore(trail: seq<Mark>, m: Mark, j: nat)
    ensures Upto(trail, j) <= Upto(trail + [m], j)
  {
    assert (trail + [m])[..|trail|] == trail;
  }

  /** Between transactions, reads see the current volume; with no operation open it is on disk. */
  lemma CurrentVolume(f: Format, r: Run)
    requires r.Legal(f) && r.s.log.mode.Idle? && r.s.work.None?
    ensures r.s.trail != [] && Holds(f, r.s.log.mem, Now(r.s))
    ensures r.s.log.ops == map[] ==> Holds(f, r.s.log.disk, Now(r.s))
  {
    hide L.OpenOps, L.Recovered, L.Formatted, Good, Whole, TrailOk, Image, L.Replay;
    RunInv(f, r);
    var base := L.Recovered(f.log, r.First().log.disk);
    TrailLast(f, base, r.s.log.hist, r.s.trail);
    QuietNow(f, base, r.s);
  }

  /** Runs begin with any good volume under an empty log. */
  lemma AnyVolume(f: Format, fs: Fs) returns (s: State)
    requires Good(f, fs)
    ensures Init(f, s) && s.trail[0].fs == fs
  {
    hide Image, Ownership;
    var empty: L.Block := seq(L.WORDS, i => 0);
    var d := Image(f, fs)[f.log.start := empty];
    assert L.DecodeHeader(d[f.log.start]) == [];
    L.RecoveredEmpty(f.log, d);
    s := State(L.State(d, d, [], map[], L.Booting, [], 0), [Mark(fs, 0)], None);
  }
}
