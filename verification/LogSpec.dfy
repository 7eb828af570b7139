/**
  The redo log as a state machine: one action per atomic step of the log code, and
  one action per single-block disk write, so that a crash can be placed between any
  two writes, including the writes that recovery itself makes.

  The machine refines an atomic disk.  `hist` is the history of file-system
  operations since the machine was created, `cut` the length of its durable prefix.
  In every reachable state the home blocks that recovery would rebuild from the
  current disk are those of replaying `hist[..cut]`, and that prefix contains only
  finished operations.  A crash truncates `hist` to `hist[..cut]`, and only the first
  header write of a commit moves `cut`.
 */
module LogSpec {
  import opened Collections
  import opened Params

  const LOGSIZE := MAXOPBLOCKS * 3

  /** A 1024-byte block seen as the 256 words that the header code addresses. */
  const WORDS := 256

  type Block = b: seq<int> | |b| == WORDS witness seq(WORDS, i => 0)
  type Disk = seq<Block>
  type OpId = nat

  /** `blocks` disk blocks; the log occupies [start, start + size), header first. */
  datatype Config = Config(start: nat, size: nat, blocks: nat) {
    ghost predicate Valid() {
      1 <= size && start + size <= blocks
    }

    /** A block outside the log area. */
    predicate Home(b: int) {
      0 <= b < blocks && !(start <= b < start + size)
    }

    /** The bound that log_write's guard enforces on the header length. */
    function Capacity(): (k: nat)
      requires Valid()
    {
      if LOGSIZE < size - 1 then LOGSIZE else size - 1
    }
  }

  /** What an operation did, in the order the log saw it. */
  datatype Event =
    | Begin(op: OpId)
    | Write(op: OpId, block: int, data: Block)
    | End(op: OpId)

  /** Where the commit or recovery code stands, between two disk writes. */
  datatype Mode =
    | Idle
    | Logging(tail: nat)      // write_log has written `tail` blocks
    | Installing(tail: nat)   // header is on disk, install_trans has written `tail` blocks
    | Booting                 // memory lost, read_head not yet done
    | Recovering(tail: nat)   // recovery's install_trans has written `tail` blocks
    | Panicked                // a panic halted the machine

  datatype State = State(
    disk: Disk,               // durable
    mem: Disk,                // what bread returns
    lh: seq<int>,             // in-memory header: the first n block numbers
    ops: map<OpId, nat>,      // open operations, with the entries each one added
    mode: Mode,
    hist: seq<Event>,
    cut: nat)

  datatype Action =
    | BeginOp(op: OpId)
    | LogWrite(op: OpId, block: int, data: Block)
    | EndOp(op: OpId)
    | WriteLogBlock
    | WriteHead
    | InstallBlock
    | ClearHead
    | Evict(block: int)
    | Crash
    | ReadHead
    | RecoverBlock
    | RecoverClear

  // ---------------------------------------------------------------- header block

  /** write_head: the count and the entries overwrite a prefix, the rest is stale. */
  function EncodeHeader(stale: Block, h: seq<int>): (b: Block)
    requires |h| <= LOGSIZE
  {
    [|h|] + h + stale[1 + |h|..]
  }

  predicate HeaderShape(b: Block) {
    0 <= b[0] <= LOGSIZE
  }

  /** read_head. */
  function DecodeHeader(b: Block): (h: seq<int>)
    requires HeaderShape(b)
  {
    b[1..1 + b[0]]
  }

  lemma HeaderRoundTrip(stale: Block, h: seq<int>)
    requires |h| <= LOGSIZE
    ensures HeaderShape(EncodeHeader(stale, h))
    ensures DecodeHeader(EncodeHeader(stale, h)) == h
    ensures EncodeHeader(stale, h)[0] == |h| && forall i :: 0 <= i < |h| ==> EncodeHeader(stale, h)[1 + i] == h[i]
  {
    var b := EncodeHeader(stale, h);
    assert b[0] == |h|;
    assert b[1..1 + |h|] == h;
  }

  // ---------------------------------------------------------------- redo

  ghost predicate GoodHeader(c: Config, h: seq<int>)
    requires c.Valid()
  {
    && |h| <= c.Capacity()
    && Distinct(h)
    && forall i :: 0 <= i < |h| ==> c.Home(h[i])
  }

  ghost predicate Sized(c: Config, d: Disk) {
    |d| == c.blocks
  }

  /** The disk carries a well-formed header. */
  ghost predicate Formatted(c: Config, d: Disk) {
    && c.Valid()
    && Sized(c, d)
    && HeaderShape(d[c.start])
    && GoodHeader(c, DecodeHeader(d[c.start]))
  }

  ghost function OnDisk(c: Config, d: Disk): (h: seq<int>)
    requires Formatted(c, d)
  {
    DecodeHeader(d[c.start])
  }

  /** Copy the first k logged blocks of d home, in order. */
  ghost function Redo(c: Config, d: Disk, h: seq<int>, k: nat): (r: Disk)
    requires c.Valid() && Sized(c, d) && GoodHeader(c, h) && k <= |h|
    ensures |r| == |d|
  {
    if k == 0 then d else Redo(c, d, h, k - 1)[h[k - 1] := d[c.start + k]]
  }

  /** The disk that an uninterrupted recovery leaves, up to the cleared header. */
  ghost function Recovered(c: Config, d: Disk): (r: Disk)
    requires Formatted(c, d)
    ensures |r| == |d|
  {
    Redo(c, d, OnDisk(c, d), |OnDisk(c, d)|)
  }

  ghost predicate EqHome(c: Config, d: Disk, e: Disk) {
    && |d| == |e| == c.blocks
    && forall b :: c.Home(b) ==> d[b] == e[b]
  }

  lemma {:induction false} RedoMiss(c: Config, d: Disk, h: seq<int>, k: nat, b: int)
    requires c.Valid() && Sized(c, d) && GoodHeader(c, h) && k <= |h|
    requires 0 <= b < |d| && forall i :: 0 <= i < k ==> h[i] != b
    ensures Redo(c, d, h, k)[b] == d[b]
  {
    if k > 0 {
      RedoMiss(c, d, h, k - 1, b);
    }
  }

  lemma {:induction false} RedoHit(c: Config, d: Disk, h: seq<int>, k: nat, i: nat)
    requires c.Valid() && Sized(c, d) && GoodHeader(c, h) && i < k <= |h|
    ensures Redo(c, d, h, k)[h[i]] == d[c.start + 1 + i]
  {
    if i < k - 1 {
      RedoHit(c, d, h, k - 1, i);
    }
  }

  // ---------------------------------------------------------------- the atomic disk

  /** The effect of one event on the atomic disk. */
  ghost function Effect(d: Disk, e: Event): (d': Disk)
    ensures |d'| == |d|
  {
    if e.Write? && 0 <= e.block < |d| then d[e.block := e.data] else d
  }

  ghost function Replay(base: Disk, hist: seq<Event>): (d: Disk)
    ensures |d| == |base|
  {
    if hist == [] then base else Effect(Replay(base, hist[..|hist| - 1]), hist[|hist| - 1])
  }

  ghost function OpenAfter(s: set<OpId>, e: Event): (s': set<OpId>) {
    if e.Begin? then s + {e.op} else if e.End? then s - {e.op} else s
  }

  /** Operations begun and not ended. */
  ghost function OpenOps(hist: seq<Event>): (s: set<OpId>) {
    if hist == [] then {} else OpenAfter(OpenOps(hist[..|hist| - 1]), hist[|hist| - 1])
  }

  lemma HistorySnoc(base: Disk, hist: seq<Event>, e: Event)
    ensures Replay(base, hist + [e]) == Effect(Replay(base, hist), e)
    ensures OpenOps(hist + [e]) == OpenAfter(OpenOps(hist), e)
  {
    assert (hist + [e])[..|hist + [e]| - 1] == hist;
  }

  // ---------------------------------------------------------------- the machine

  ghost predicate Init(c: Config, s: State) {
    && Formatted(c, s.disk)
    && s.mem == s.disk
    && s.lh == [] && s.ops == map[] && s.mode == Booting && s.hist == [] && s.cut == 0
  }

  /** log_write's panic condition (the guard precedes absorption). */
  predicate TooBig(c: Config, s: State) {
    |s.lh| >= LOGSIZE || |s.lh| >= c.size - 1
  }

  ghost predicate Enabled(c: Config, s: State, a: Action)
  {
    && c.Valid() && |s.disk| == |s.mem| == c.blocks
    && match a
       case BeginOp(t) => s.mode.Idle? && t !in s.ops && |s.lh| + (|s.ops| + 1) * MAXOPBLOCKS <= LOGSIZE
       case LogWrite(t, b, data) => s.mode.Idle? && t in s.ops && c.Home(b)
       case EndOp(t) => s.mode.Idle? && t in s.ops
       case WriteLogBlock => s.mode.Logging? && s.mode.tail < |s.lh| <= c.Capacity() && c.Home(s.lh[s.mode.tail])
       case WriteHead => s.mode.Logging? && s.mode.tail == |s.lh| <= LOGSIZE
       case InstallBlock => s.mode.Installing? && s.mode.tail < |s.lh| <= c.Capacity() && c.Home(s.lh[s.mode.tail])
       case ClearHead => s.mode.Installing? && s.mode.tail == |s.lh|
       case Evict(b) => !s.mode.Panicked? && 0 <= b < c.blocks && b !in s.lh
       case Crash => true
       case ReadHead => s.mode.Booting? && HeaderShape(s.mem[c.start])
       case RecoverBlock => s.mode.Recovering? && s.mode.tail < |s.lh| <= c.Capacity() && c.Home(s.lh[s.mode.tail])
       case RecoverClear => s.mode.Recovering? && s.mode.tail == |s.lh|
  }

  ghost function Do(c: Config, s: State, a: Action): (s': State)
    requires Enabled(c, s, a)
    ensures |s'.disk| == |s'.mem| == c.blocks
  {
    match a
    case BeginOp(t) =>
      s.(ops := s.ops[t := 0], hist := s.hist + [Begin(t)])
    case LogWrite(t, b, data) =>
      if TooBig(c, s) then s.(mode := Panicked)
      else if b in s.lh then
        s.(mem := s.mem[b := data], hist := s.hist + [Write(t, b, data)])
      else
        s.(mem := s.mem[b := data], lh := s.lh + [b], ops := s.ops[t := s.ops[t] + 1],
           hist := s.hist + [Write(t, b, data)])
    case EndOp(t) =>
      var ops := s.ops - {t};
      s.(ops := ops, hist := s.hist + [End(t)],
         mode := if ops == map[] && s.lh != [] then Logging(0) else Idle)
    case WriteLogBlock =>
      var l := c.start + 1 + s.mode.tail;
      var data := s.mem[s.lh[s.mode.tail]];
      s.(disk := s.disk[l := data], mem := s.mem[l := data], mode := Logging(s.mode.tail + 1))
    case WriteHead =>
      var hb := EncodeHeader(s.mem[c.start], s.lh);
      s.(disk := s.disk[c.start := hb], mem := s.mem[c.start := hb], mode := Installing(0), cut := |s.hist|)
    case InstallBlock =>
      var b := s.lh[s.mode.tail];
      var data := s.mem[c.start + 1 + s.mode.tail];
      s.(disk := s.disk[b := data], mem := s.mem[b := data], mode := Installing(s.mode.tail + 1))
    case ClearHead =>
      var hb := EncodeHeader(s.mem[c.start], []);
      s.(disk := s.disk[c.start := hb], mem := s.mem[c.start := hb], lh := [], mode := Idle)
    case Evict(b) =>
      s.(mem := s.mem[b := s.disk[b]])
    case Crash =>
      s.(mem := s.disk, lh := [], ops := map[], mode := Booting,
         hist := if s.cut <= |s.hist| then s.hist[..s.cut] else s.hist)
    case ReadHead =>
      s.(lh := DecodeHeader(s.mem[c.start]), mode := Recovering(0))
    case RecoverBlock =>
      var b := s.lh[s.mode.tail];
      var data := s.mem[c.start + 1 + s.mode.tail];
      s.(disk := s.disk[b := data], mem := s.mem[b := data], mode := Recovering(s.mode.tail + 1))
    case RecoverClear =>
      var hb := EncodeHeader(s.mem[c.start], []);
      s.(disk := s.disk[c.start := hb], mem := s.mem[c.start := hb], lh := [], mode := Idle)
  }

  /** A run: an initial state and the actions taken since, each with its outcome. */
  datatype Run = Start(s: State) | Then(before: Run, a: Action, s: State) {
    ghost function First(): (s0: State) {
      match this
      case Start(s) => s
      case Then(r, _, _) => r.First()
    }

    ghost function Acts(): (acts: seq<Action>) {
      match this
      case Start(_) => []
      case Then(r, a, _) => r.Acts() + [a]
    }

    /** Every prefix of a legal run is legal, so results about legal runs hold at any cut. */
    ghost predicate Legal(c: Config) {
      match this
      case Start(s) => Init(c, s)
      case Then(r, a, s) => r.Legal(c) && Enabled(c, r.s, a) && s == Do(c, r.s, a)
    }
  }

  // ---------------------------------------------------------------- the invariant

  /** The home blocks recovery would rebuild now are those of the durable history. */
  ghost predicate Durable(c: Config, base: Disk, s: State) {
    && Formatted(c, s.disk)
    && s.cut <= |s.hist|
    && OpenOps(s.hist[..s.cut]) == {}
    && EqHome(c, Recovered(c, s.disk), Replay(base, s.hist[..s.cut]))
  }

  /** Every buffer that may be recycled agrees with the disk. */
  ghost predicate CleanExcept(c: Config, s: State, dirty: seq<int>)
    requires |s.disk| == |s.mem| == c.blocks
  {
    forall b :: 0 <= b < c.blocks && b !in dirty ==> s.mem[b] == s.disk[b]
  }

  ghost predicate Current(c: Config, base: Disk, s: State) {
    EqHome(c, s.mem, Replay(base, s.hist))
  }

  ghost predicate LogFilled(c: Config, s: State, k: nat)
    requires c.Valid() && |s.disk| == |s.mem| == c.blocks && k <= |s.lh| <= c.Capacity()
  {
    forall i :: 0 <= i < k ==> c.Home(s.lh[i]) && s.disk[c.start + 1 + i] == s.mem[s.lh[i]]
  }

  /** The header is on disk; blocks still to be installed are in the log. */
  ghost predicate InstallingOk(c: Config, base: Disk, s: State) {
    && Sized(c, s.mem) && Formatted(c, s.disk) && GoodHeader(c, s.lh)
    && OnDisk(c, s.disk) == s.lh && s.ops == map[] && OpenOps(s.hist) == {} && s.cut == |s.hist|
    && Current(c, base, s)
    && s.mode.Installing? && s.mode.tail <= |s.lh| && CleanExcept(c, s, s.lh[s.mode.tail..])
    && LogFilled(c, s, |s.lh|)
  }

  ghost predicate Inv(c: Config, base: Disk, s: State) {
    && c.Valid() && Sized(c, s.disk) && Sized(c, s.mem) && Sized(c, base)
    && GoodHeader(c, s.lh)
    && Durable(c, base, s)
    && match s.mode
       case Idle =>
         && OnDisk(c, s.disk) == [] && s.ops.Keys == OpenOps(s.hist)
         && Current(c, base, s) && CleanExcept(c, s, s.lh)
         && (s.ops == map[] ==> s.lh == [])
       case Logging(tail) =>
         && OnDisk(c, s.disk) == [] && s.ops == map[] && OpenOps(s.hist) == {}
         && Current(c, base, s) && CleanExcept(c, s, s.lh)
         && tail <= |s.lh| && LogFilled(c, s, tail)
       case Installing(tail) =>
         InstallingOk(c, base, s)
       case Booting =>
         s.mem == s.disk && s.cut == |s.hist| && s.ops == map[] && s.lh == []
       case Recovering(tail) =>
         && s.mem == s.disk && s.cut == |s.hist| && s.ops == map[]
         && OnDisk(c, s.disk) == s.lh && tail <= |s.lh|
         && forall i :: 0 <= i < tail ==> s.disk[s.lh[i]] == s.disk[c.start + 1 + i]
       case Panicked => true
  }

  /** With an empty header on disk recovery changes nothing. */
  lemma RecoveredEmpty(c: Config, d: Disk)
    requires Formatted(c, d) && OnDisk(c, d) == []
    ensures Recovered(c, d) == d
  {
  }

  lemma InitInv(c: Config, s: State)
    requires Init(c, s)
    ensures Inv(c, Recovered(c, s.disk), s)
  {
  }

  lemma BeginInv(c: Config, base: Disk, s: State, t: OpId)
    requires Inv(c, base, s) && Enabled(c, s, BeginOp(t))
    ensures Inv(c, base, Do(c, s, BeginOp(t)))
  {
    HistorySnoc(base, s.hist, Begin(t));
    assert (s.hist + [Begin(t)])[..s.cut] == s.hist[..s.cut];
  }

  lemma LogWriteInv(c: Config, base: Disk, s: State, t: OpId, b: int, data: Block)
    requires Inv(c, base, s) && Enabled(c, s, LogWrite(t, b, data))
    ensures Inv(c, base, Do(c, s, LogWrite(t, b, data)))
  {
    var s' := Do(c, s, LogWrite(t, b, data));
    if !TooBig(c, s) {
      HistorySnoc(base, s.hist, Write(t, b, data));
      assert s'.hist[..s.cut] == s.hist[..s.cut];
      assert s'.ops.Keys == s.ops.Keys;
      assert t in s'.ops;
    }
  }

  lemma EndInv(c: Config, base: Disk, s: State, t: OpId)
    requires Inv(c, base, s) && Enabled(c, s, EndOp(t))
    ensures Inv(c, base, Do(c, s, EndOp(t)))
  {
    HistorySnoc(base, s.hist, End(t));
    assert (s.hist + [End(t)])[..s.cut] == s.hist[..s.cut];
    assert (s.ops - {t}).Keys == s.ops.Keys - {t};
  }

  /** Writing log-area blocks other than the header leaves an empty log empty. */
  lemma WriteLogInv(c: Config, base: Disk, s: State)
    requires Inv(c, base, s) && Enabled(c, s, WriteLogBlock)
    ensures Inv(c, base, Do(c, s, WriteLogBlock))
  {
    var s' := Do(c, s, WriteLogBlock);
    assert s'.disk[c.start] == s.disk[c.start];
    RecoveredEmpty(c, s.disk);
    RecoveredEmpty(c, s'.disk);
  }

  /** Once every logged block is in the log, redoing the header rebuilds memory. */
  lemma RedoIsCurrent(c: Config, s: State)
    requires c.Valid() && Sized(c, s.disk) && Sized(c, s.mem) && GoodHeader(c, s.lh)
    requires Formatted(c, s.disk) && OnDisk(c, s.disk) == s.lh
    requires LogFilled(c, s, |s.lh|) && CleanExcept(c, s, s.lh)
    ensures EqHome(c, Recovered(c, s.disk), s.mem)
  {
    forall b | c.Home(b)
      ensures Recovered(c, s.disk)[b] == s.mem[b]
    {
      if b in s.lh {
        var i :| 0 <= i < |s.lh| && s.lh[i] == b;
        RedoHit(c, s.disk, s.lh, |s.lh|, i);
      } else {
        RedoMiss(c, s.disk, s.lh, |s.lh|, b);
      }
    }
  }

  /** From the header write on, what is durable is what memory holds. */
  lemma InstallingInv(c: Config, base: Disk, s: State)
    requires InstallingOk(c, base, s)
    ensures Inv(c, base, s)
  {
    assert s.hist[..s.cut] == s.hist;
    assert CleanExcept(c, s, s.lh);
    RedoIsCurrent(c, s);
  }

  lemma WriteHeadInv(c: Config, base: Disk, s: State)
    requires Inv(c, base, s) && Enabled(c, s, WriteHead)
    ensures Inv(c, base, Do(c, s, WriteHead))
  {
    hide Redo, Replay, OpenOps;
    var s' := Do(c, s, WriteHead);
    HeaderRoundTrip(s.mem[c.start], s.lh);
    assert s'.lh[0..] == s'.lh;
    assert LogFilled(c, s', |s'.lh|) by {
      forall i | 0 <= i < |s.lh|
        ensures c.Home(s'.lh[i]) && s'.disk[c.start + 1 + i] == s'.mem[s'.lh[i]]
      {
        assert c.Home(s.lh[i]) && s.disk[c.start + 1 + i] == s.mem[s.lh[i]];
      }
    }
    InstallingInv(c, base, s');
  }

  /** Installing block k copies a value that memory already holds. */
  lemma InstallKeepsMemory(c: Config, s: State, k: nat)
    requires c.Valid() && Sized(c, s.disk) && Sized(c, s.mem) && GoodHeader(c, s.lh) && k < |s.lh|
    requires LogFilled(c, s, |s.lh|) && CleanExcept(c, s, s.lh[k..])
    ensures s.mem[c.start + 1 + k] == s.mem[s.lh[k]]
  {
    assert c.Home(s.lh[k]) && s.disk[c.start + 1 + k] == s.mem[s.lh[k]];
    assert c.start + 1 + k !in s.lh[k..];
  }

  lemma InstallCleans(c: Config, s: State, s': State, k: nat)
    requires Sized(c, s.disk) && Sized(c, s.mem) && k < |s.lh| && 0 <= s.lh[k] < c.blocks
    requires CleanExcept(c, s, s.lh[k..])
    requires s'.mem == s.mem && s'.disk == s.disk[s.lh[k] := s.mem[s.lh[k]]] && s'.lh == s.lh
    ensures CleanExcept(c, s', s.lh[k + 1..])
  {
    forall b | 0 <= b < c.blocks && b !in s.lh[k + 1..]
      ensures s'.mem[b] == s'.disk[b]
    {
      assert b != s.lh[k] ==> b !in s.lh[k..];
    }
  }

  lemma InstallKeepsLog(c: Config, s: State, s': State, k: nat)
    requires c.Valid() && Sized(c, s.disk) && Sized(c, s.mem) && |s.lh| <= c.Capacity()
    requires k < |s.lh| && LogFilled(c, s, |s.lh|)
    requires s'.mem == s.mem && s'.disk == s.disk[s.lh[k] := s.mem[s.lh[k]]] && s'.lh == s.lh
    ensures LogFilled(c, s', |s.lh|)
  {
    assert c.Home(s.lh[k]);
    forall i | 0 <= i < |s.lh|
      ensures c.Home(s'.lh[i]) && s'.disk[c.start + 1 + i] == s'.mem[s'.lh[i]]
    {
      assert c.Home(s.lh[i]) && s.disk[c.start + 1 + i] == s.mem[s.lh[i]];
    }
  }

  lemma InstallStep(c: Config, base: Disk, s: State)
    requires InstallingOk(c, base, s) && Enabled(c, s, InstallBlock)
    ensures InstallingOk(c, base, Do(c, s, InstallBlock))
  {
    hide Redo, Replay, OpenOps, HeaderShape;
    var s' := Do(c, s, InstallBlock);
    InstallKeepsMemory(c, s, s.mode.tail);
    InstallCleans(c, s, s', s.mode.tail);
    InstallKeepsLog(c, s, s', s.mode.tail);
    assert s'.disk[c.start] == s.disk[c.start];
  }

  lemma ClearHeadInv(c: Config, base: Disk, s: State)
    requires Inv(c, base, s) && Enabled(c, s, ClearHead)
    ensures Inv(c, base, Do(c, s, ClearHead))
  {
    var s' := Do(c, s, ClearHead);
    HeaderRoundTrip(s.mem[c.start], []);
    assert s'.hist[..s'.cut] == s'.hist;
    RecoveredEmpty(c, s'.disk);
  }

  lemma EvictInv(c: Config, base: Disk, s: State, b: int)
    requires Inv(c, base, s) && Enabled(c, s, Evict(b))
    ensures Do(c, s, Evict(b)) == s
  {
    assert s.mode.Installing? ==> b !in s.lh[s.mode.tail..];
    assert s.mem[b := s.disk[b]] == s.mem;
  }

  lemma CrashInv(c: Config, base: Disk, s: State)
    requires Inv(c, base, s)
    ensures Inv(c, base, Do(c, s, Crash))
  {
    var s' := Do(c, s, Crash);
    assert s'.hist[..s'.cut] == s.hist[..s.cut];
  }

  /** Redoing one block early does not change what a redo from scratch gives. */
  lemma RedoAbsorbs(c: Config, d: Disk, h: seq<int>, k: nat)
    requires c.Valid() && Sized(c, d) && GoodHeader(c, h) && k < |h|
    ensures EqHome(c, Redo(c, d[h[k] := d[c.start + 1 + k]], h, |h|), Redo(c, d, h, |h|))
  {
    var d' := d[h[k] := d[c.start + 1 + k]];
    forall b | c.Home(b)
      ensures Redo(c, d', h, |h|)[b] == Redo(c, d, h, |h|)[b]
    {
      if i :| 0 <= i < |h| && h[i] == b {
        RedoHit(c, d, h, |h|, i);
        RedoHit(c, d', h, |h|, i);
      } else {
        RedoMiss(c, d, h, |h|, b);
        RedoMiss(c, d', h, |h|, b);
      }
    }
  }

  lemma RecoverBlockInv(c: Config, base: Disk, s: State)
    requires Inv(c, base, s) && Enabled(c, s, RecoverBlock)
    ensures Inv(c, base, Do(c, s, RecoverBlock))
  {
    hide Redo, Replay, OpenOps, HeaderShape;
    var s' := Do(c, s, RecoverBlock);
    assert s'.disk[c.start] == s.disk[c.start];
    RedoAbsorbs(c, s.disk, s.lh, s.mode.tail);
  }

  lemma RecoverClearInv(c: Config, base: Disk, s: State)
    requires Inv(c, base, s) && Enabled(c, s, RecoverClear)
    ensures Inv(c, base, Do(c, s, RecoverClear))
  {
    var s' := Do(c, s, RecoverClear);
    HeaderRoundTrip(s.mem[c.start], []);
    RecoveredEmpty(c, s'.disk);
    assert s'.hist[..s'.cut] == s'.hist;
    forall b | c.Home(b)
      ensures Recovered(c, s.disk)[b] == s'.disk[b]
    {
      if b in s.lh {
        var i :| 0 <= i < |s.lh| && s.lh[i] == b;
        RedoHit(c, s.disk, s.lh, |s.lh|, i);
      } else {
        RedoMiss(c, s.disk, s.lh, |s.lh|, b);
      }
    }
  }

  lemma StepInv(c: Config, base: Disk, s: State, a: Action)
    requires Inv(c, base, s) && Enabled(c, s, a)
    ensures Inv(c, base, Do(c, s, a))
  {
    match a
    case BeginOp(t) => BeginInv(c, base, s, t);
    case LogWrite(t, b, data) => LogWriteInv(c, base, s, t, b, data);
    case EndOp(t) => EndInv(c, base, s, t);
    case WriteLogBlock => WriteLogInv(c, base, s);
    case WriteHead => WriteHeadInv(c, base, s);
    case InstallBlock =>
      InstallStep(c, base, s);
      InstallingInv(c, base, Do(c, s, a));
    case ClearHead => ClearHeadInv(c, base, s);
    case Evict(b) => EvictInv(c, base, s, b);
    case Crash => CrashInv(c, base, s);
    case ReadHead =>
    case RecoverBlock => RecoverBlockInv(c, base, s);
    case RecoverClear => RecoverClearInv(c, base, s);
  }

  /** What the machine was given: the home blocks that the first boot recovers. */
  ghost function Base(c: Config, r: Run): (d: Disk)
    requires r.Legal(c)
  {
    FirstFormatted(c, r);
    Recovered(c, r.First().disk)
  }

  lemma {:induction false} FirstFormatted(c: Config, r: Run)
    requires r.Legal(c)
    ensures Formatted(c, r.First().disk)
  {
    if r.Then? {
      FirstFormatted(c, r.before);
    }
  }

  lemma {:induction false} RunInv(c: Config, r: Run)
    requires r.Legal(c)
    ensures Inv(c, Base(c, r), r.s)
  {
    match r
    case Start(s) => InitInv(c, s);
    case Then(q, a, s) =>
      RunInv(c, q);
      StepInv(c, Base(c, q), q.s, a);
  }

  // ---------------------------------------------------------------- main results

  /** What was asked for, after one more action; n is how much of it is covered by a commit. */
  ghost function AskedNext(es: seq<Event>, n: nat, a: Action, panicked: bool): (es': seq<Event>) {
    match a
    case BeginOp(t) => es + [Begin(t)]
    case LogWrite(t, b, data) => if panicked then es else es + [Write(t, b, data)]
    case EndOp(t) => es + [End(t)]
    case Crash => if n <= |es| then es[..n] else es
    case _ => es
  }

  /** What the calls of the run have asked for, as far as no crash has undone it. */
  ghost function Asked(r: Run): (es: seq<Event>) {
    match r
    case Start(s) => []
    case Then(before, a, s) => AskedNext(Asked(before), Covered(before), a, s.mode.Panicked?)
  }

  /** How much of it the last header write of a commit has covered. */
  ghost function Covered(r: Run): (n: nat) {
    match r
    case Start(s) => 0
    case Then(before, a, s) => if a.WriteHead? then |Asked(before)| else Covered(before)
  }

  lemma StepAsked(c: Config, s: State, a: Action)
    requires Enabled(c, s, a) && s.cut <= |s.hist|
    ensures var s' := Do(c, s, a);
            && s'.hist == AskedNext(s.hist, s.cut, a, s'.mode.Panicked?) && s'.cut == (if a.WriteHead? then |s.hist| else s.cut)
            && s'.cut <= |s'.hist|
  {
    hide EncodeHeader, DecodeHeader, HeaderShape;
  }

  lemma {:induction false} HistoryIsAsked(c: Config, r: Run)
    requires r.Legal(c)
    ensures r.s.hist == Asked(r) && r.s.cut == Covered(r) <= |Asked(r)|
  {
    hide Do, Enabled, AskedNext;
    if r.Then? {
      HistoryIsAsked(c, r.before);
      StepAsked(c, r.before.s, r.a);
    }
  }

  /**
    Crash safety.  Cut any run at any point: the home blocks that recovery rebuilds
    are those of replaying a prefix of what was asked for, in which every operation that
    began has also ended.
   */
  lemma CrashSafety(c: Config, r: Run)
    requires r.Legal(c)
    ensures Formatted(c, r.s.disk) && r.s.cut == Covered(r) <= |Asked(r)| && r.s.hist == Asked(r)
    ensures OpenOps(Asked(r)[..Covered(r)]) == {}
    ensures EqHome(c, Recovered(c, r.s.disk), Replay(Base(c, r), Asked(r)[..Covered(r)]))
  {
    RunInv(c, r);
    HistoryIsAsked(c, r);
  }

  lemma StepHistory(c: Config, s: State, a: Action)
    requires Enabled(c, s, a) && s.cut <= |s.hist|
    ensures var s' := Do(c, s, a);
            && s'.cut <= |s'.hist|
            && s'.hist[..s'.cut] == (if a.WriteHead? then s.hist else s.hist[..s.cut])
            && (if a.Crash? then s'.hist == s.hist[..s.cut] else s.hist <= s'.hist)
  {
  }

  /**
    The commit point.  The durable prefix grows exactly at the header write of a
    commit, and then to the whole history; a crash discards what lies beyond it; no
    other action changes what is durable.
   */
  lemma CommitPoint(c: Config, r: Run)
    requires r.Legal(c) && r.Then?
    ensures var s, s' := r.before.s, r.s;
            && s.cut <= |s.hist| && s'.cut <= |s'.hist|
            && s'.hist[..s'.cut] == (if r.a.WriteHead? then s.hist else s.hist[..s.cut])
            && (if r.a.Crash? then s'.hist == s.hist[..s.cut] else s.hist <= s'.hist)
  {
    CrashSafety(c, r.before);
    StepHistory(c, r.before.s, r.a);
  }

  /** While operations run, reads see every write of the history, durable or not. */
  lemma ReadsSeeWrites(c: Config, r: Run, b: int)
    requires r.Legal(c) && c.Home(b)
    requires r.s.mode.Idle? || r.s.mode.Logging? || r.s.mode.Installing?
    ensures |r.s.mem| == c.blocks == |Replay(Base(c, r), Asked(r))|
    ensures r.s.hist == Asked(r) && r.s.mem[b] == Replay(Base(c, r), Asked(r))[b]
  {
    RunInv(c, r);
    HistoryIsAsked(c, r);
  }

  /** A quiescent machine has installed everything: the disk itself is the history. */
  lemma QuiescentDiskIsHistory(c: Config, r: Run)
    requires r.Legal(c) && r.s.mode.Idle? && r.s.ops == map[]
    ensures r.s.hist == Asked(r) && EqHome(c, r.s.disk, Replay(Base(c, r), Asked(r)))
    ensures r.s.mem == r.s.disk && r.s.lh == []
  {
    RunInv(c, r);
    HistoryIsAsked(c, r);
  }

  /** What the code relies on between two disk writes. */
  lemma HeaderFacts(c: Config, r: Run)
    requires r.Legal(c)
    ensures c.Valid() && |r.s.disk| == |r.s.mem| == c.blocks
    ensures GoodHeader(c, r.s.lh)
    ensures r.s.mode.Logging? || r.s.mode.Installing? || r.s.mode.Recovering? ==> r.s.mode.tail <= |r.s.lh|
    ensures r.s.mode.Booting? ==> HeaderShape(r.s.mem[c.start])
    ensures !r.s.mode.Idle? && !r.s.mode.Panicked? ==> r.s.ops == map[]
  {
    RunInv(c, r);
  }
}
