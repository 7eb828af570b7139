/**
  The log code itself: an object whose fields are the C globals plus the disk and the
  buffer cache it works on.  Every method proves that what it does is a sequence of
  actions of the machine in LogSpec, one action per disk write, so that the results
  proved there for every prefix of a run hold wherever the code is cut.
 */
module Log {
  import opened Params
  import opened LogSpec

  /** log_write's outcome; TooBig and Outside are its panics. */
  datatype Logging = Logged | TooBig | Outside

  class LogDevice {
    const c: Config
    var disk: Disk
    var mem: Disk                 // the buffer cache as seen through bread
    var n: nat                    // log.lh.n
    const block: array<int>       // log.lh.block
    var outstanding: nat
    var committing: bool

    ghost var run: Run            // the actions taken since power-on

    /** The fields are those of the last state of a legal run of the machine. */
    ghost predicate Consistent()
      reads this, block
    {
      && c.Valid() && |disk| == |mem| == c.blocks
      && block.Length == LOGSIZE && n <= LOGSIZE
      && run.Legal(c)
      && run.s.disk == disk && run.s.mem == mem && run.s.lh == block[..n]
      && |run.s.ops| == outstanding
    }

    ghost predicate Valid()
      reads this, block
    {
      Consistent() && !run.s.mode.Panicked? && (committing <==> run.s.mode.Logging? || run.s.mode.Installing?)
    }

    /** Note an action whose effect on the fields has just been carried out. */
    ghost method Take(a: Action)
      requires run.Legal(c) && Enabled(c, run.s, a)
      modifies this`run
      ensures run.Legal(c) && run == Then(old(run), a, Do(c, old(run).s, a))
    {
      run := Then(run, a, Do(c, run.s, a));
    }

    /** Power on over whatever the disk holds. */
    constructor (c: Config, disk: Disk)
      requires Formatted(c, disk)
      ensures this.c == c && this.disk == disk && Valid() && fresh(block)
      ensures run == Start(State(disk, disk, [], map[], Booting, [], 0))
    {
      this.c, this.disk, this.mem, n, outstanding, committing := c, disk, disk, 0, 0, false;
      var a := new int[LOGSIZE];
      block := a;
      run := Start(State(disk, disk, [], map[], Booting, [], 0));
    }

    /** write_head: bread, overwrite the header words, bwrite. */
    method StoreHead()
      requires c.Valid() && |disk| == |mem| == c.blocks && block.Length == LOGSIZE && n <= LOGSIZE
      modifies this`disk, this`mem
      ensures var hb := EncodeHeader(old(mem)[c.start], block[..n]);
              mem == old(mem)[c.start := hb] && disk == old(disk)[c.start := hb]
    {
      var b := mem[c.start];
      var hb: seq<int> := b[0 := n];
      for i := 0 to n
        invariant hb == [n] + block[..i] + b[1 + i..]
      {
        hb := hb[1 + i := block[i]];
      }
      mem := mem[c.start := hb];
      disk := disk[c.start := mem[c.start]];
    }

    /** read_head. */
    method LoadHead()
      requires Valid() && run.s.mode.Booting?
      modifies this, block
      ensures Valid() && run.s.mode == Recovering(0)
      ensures run.Then? && run.before == old(run) && run.a == ReadHead && run.s.hist == old(run).s.hist
    {
      HeaderFacts(c, run);
      var hb := mem[c.start];
      n := hb[0];
      for i := 0 to n
        invariant forall j :: 0 <= j < i ==> block[j] == hb[1 + j]
        invariant run == old(run) && disk == old(disk) && mem == old(mem) && n == hb[0]
        invariant outstanding == old(outstanding) && committing == old(committing)
      {
        block[i] := hb[1 + i];
      }
      assert block[..n] == DecodeHeader(hb);
      Take(ReadHead);
    }

    /** One turn of write_log's loop: one disk write. */
    method WriteLogTurn(tail: nat)
      requires Valid() && run.s.mode == Logging(tail) && tail < n
      modifies this`disk, this`mem, this`run
      ensures Valid() && run.s.mode == Logging(tail + 1)
      ensures run.Then? && run.before == old(run) && run.a == WriteLogBlock && run.s.hist == old(run).s.hist
    {
      hide EncodeHeader, DecodeHeader, Formatted;
      HeaderFacts(c, run);
      var l := c.start + tail + 1;
      mem := mem[l := mem[block[tail]]];
      disk := disk[l := mem[l]];
      Take(WriteLogBlock);
    }

    method WriteLog()
      requires Valid() && run.s.mode == Logging(0)
      modifies this`disk, this`mem, this`run
      ensures Valid() && run.s.mode == Logging(n)
      ensures run.Acts() == old(run).Acts() + seq(n, i => WriteLogBlock) && run.s.hist == old(run).s.hist
    {
      assert seq(0, i => WriteLogBlock) == [];
      for tail := 0 to n
        invariant Valid() && run.s.mode == Logging(tail)
        invariant run.Acts() == old(run).Acts() + seq(tail, i => WriteLogBlock) && run.s.hist == old(run).s.hist
      {
        WriteLogTurn(tail);
        assert seq(tail, i => WriteLogBlock) + [WriteLogBlock] == seq(tail + 1, i => WriteLogBlock);
      }
    }

    /** One turn of install_trans's loop, for a commit or for recovery. */
    method InstallTurn(recovering: bool, tail: nat)
      requires Valid() && run.s.mode == (if recovering then Recovering(tail) else Installing(tail)) && tail < n
      modifies this`disk, this`mem, this`run
      ensures Valid() && run.s.mode == (if recovering then Recovering(tail + 1) else Installing(tail + 1))
      ensures run.Then? && run.before == old(run) && run.a == (if recovering then RecoverBlock else InstallBlock)
      ensures run.s.hist == old(run).s.hist
    {
      hide EncodeHeader, DecodeHeader, Formatted, Do, Enabled;
      HeaderFacts(c, run);
      CopiesHome(c, run.s, recovering, tail);
      var b := block[tail];
      mem := mem[b := mem[c.start + tail + 1]];
      disk := disk[b := mem[b]];
      Take(if recovering then RecoverBlock else InstallBlock);
    }

    method InstallTrans(recovering: bool)
      requires Valid() && run.s.mode == (if recovering then Recovering(0) else Installing(0))
      modifies this`disk, this`mem, this`run
      ensures Valid() && run.s.mode == (if recovering then Recovering(n) else Installing(n))
      ensures var a := if recovering then RecoverBlock else InstallBlock;
              run.Acts() == old(run).Acts() + seq(n, i => a)
      ensures run.s.hist == old(run).s.hist
    {
      ghost var a := if recovering then RecoverBlock else InstallBlock;
      assert seq(0, i => a) == [];
      for tail := 0 to n
        invariant Valid() && run.s.mode == (if recovering then Recovering(tail) else Installing(tail))
        invariant run.Acts() == old(run).Acts() + seq(tail, i => a) && run.s.hist == old(run).s.hist
      {
        InstallTurn(recovering, tail);
        assert seq(tail, i => a) + [a] == seq(tail + 1, i => a);
      }
    }

    /** The tail of commit and of recovery: clear the in-memory header and write it. */
    method ClearLog(recovering: bool)
      requires Valid() && run.s.mode == (if recovering then Recovering(n) else Installing(n))
      modifies this`disk, this`mem, this`run, this`n
      ensures Consistent() && run.s.mode.Idle? && n == 0 && outstanding == 0 && mem == disk
      ensures run.Acts() == old(run).Acts() + [if recovering then RecoverClear else ClearHead]
      ensures run.s.hist == old(run).s.hist
      ensures EqHome(c, disk, Replay(Base(c, run), run.s.hist))
    {
      HeaderFacts(c, run);
      n := 0;
      StoreHead();
      assert block[..n] == [];
      Take(if recovering then RecoverClear else ClearHead);
      QuiescentDiskIsHistory(c, run);
    }

    /**
      recover_from_log.  Afterwards the home blocks on disk are what the atomic disk
      holds, and the log is empty.
     */
    method RecoverFromLog() returns (ghost k: nat)
      requires Valid() && run.s.mode.Booting?
      modifies this, block
      ensures Valid() && run.s.mode.Idle? && n == 0 && outstanding == 0 && mem == disk
      ensures run.s.hist == old(run).s.hist
      ensures EqHome(c, disk, Replay(Base(c, run), run.s.hist))
      ensures run.Acts() == old(run).Acts() + [ReadHead] + seq(k, i => RecoverBlock) + [RecoverClear]
    {
      LoadHead();
      k := n;
      InstallTrans(true);
      ClearLog(true);
    }

    /**
      One turn of begin_op's loop: it either reserves space or has to sleep, the latter
      exactly while a commit runs or the open operations might exhaust the log.
     */
    method TryBeginOp(ghost op: OpId) returns (admitted: bool)
      requires Valid() && (run.s.mode.Idle? || committing) && op !in run.s.ops
      modifies this`outstanding, this`run
      ensures Valid()
      ensures admitted <==> !committing && n + (old(outstanding) + 1) * MAXOPBLOCKS <= LOGSIZE
      ensures admitted ==> outstanding == old(outstanding) + 1 && run.Then? && run.before == old(run) && run.a == BeginOp(op)
      ensures !admitted ==> outstanding == old(outstanding) && run == old(run)
    {
      if committing {
        return false;
      } else if n + (outstanding + 1) * MAXOPBLOCKS > LOGSIZE {
        return false;
      }
      outstanding := outstanding + 1;
      Take(BeginOp(op));
      return true;
    }

    /** The absorption loop of log_write: the first entry for b, or the end. */
    method FindEntry(b: int) returns (i: nat)
      requires n <= block.Length
      ensures i <= n && b !in block[..i]
      ensures i < n ==> block[i] == b
    {
      i := 0;
      while i < n && block[i] != b
        invariant i <= n && b !in block[..i]
      {
        i := i + 1;
      }
    }

    /**
      The caller's modified buffer and log_write, on behalf of operation op if there is one.
      Its two panics come in the code's order; neither leaves anything in the log.
     */
    method LogWrite(ghost op: OpId, b: int, data: Block) returns (r: Logging)
      requires Valid() && run.s.mode.Idle? && (outstanding > 0 ==> op in run.s.ops) && c.Home(b)
      modifies this`mem, this`n, this`run, block
      ensures r.TooBig? <==> old(n) >= c.Capacity()
      ensures r.Outside? <==> old(n) < c.Capacity() && outstanding == 0
      ensures Consistent() && (outstanding > 0 ==> run.Then? && run.before == old(run) && run.a == LogSpec.LogWrite(op, b, data))
      ensures r.Logged? ==> Valid() && run.s.mode.Idle? && mem == old(mem)[b := data]
      ensures r.Logged? ==> block[..n] == if b in old(block[..n]) then old(block[..n]) else old(block[..n]) + [b]
      ensures !r.Logged? ==> mem == old(mem) && block[..n] == old(block[..n]) && (outstanding > 0 ==> run.s.mode.Panicked?)
    {
      ghost var lh := block[..n];
      if n >= LOGSIZE || n >= c.size - 1 {
        if outstanding > 0 {
          Take(LogSpec.LogWrite(op, b, data));
        }
        return TooBig;
      }
      if outstanding < 1 {
        return Outside;
      }
      mem := mem[b := data];
      var i := FindEntry(b);
      block[i] := b;
      if i == n {
        n := n + 1;
        assert block[..n] == lh + [b];
      } else {
        assert lh[i] == b;
        assert block[..n] == lh;
      }
      Take(LogSpec.LogWrite(op, b, data));
      return Logged;
    }

    /**
      commit.  The disk writes are the logged blocks, the header, the home blocks, the
      cleared header, in that order; the header write is the one that makes the
      history durable.
     */
    method Commit()
      requires Valid() && run.s.mode == Logging(0)
      modifies this`disk, this`mem, this`run, this`n
      ensures Consistent() && run.s.mode.Idle? && n == 0 && outstanding == 0 && mem == disk
      ensures run.Acts() == old(run).Acts() + seq(old(n), i => WriteLogBlock) + [WriteHead]
                            + seq(old(n), i => InstallBlock) + [ClearHead]
      ensures run.s.hist == old(run).s.hist
      ensures EqHome(c, disk, Replay(Base(c, run), run.s.hist))
    {
      WriteLog();
      HeaderFacts(c, run);
      StoreHead();
      Take(WriteHead);
      InstallTrans(false);
      ClearLog(false);
    }

    /** end_op: the last operation out commits for the whole group. */
    method EndOp(ghost op: OpId)
      requires Valid() && run.s.mode.Idle? && op in run.s.ops
      modifies this
      ensures Valid() && run.s.mode.Idle? && outstanding == old(outstanding) - 1
      ensures run.s.hist == old(run).s.hist + [End(op)]
      ensures outstanding > 0 ==> run.Acts() == old(run).Acts() + [LogSpec.EndOp(op)] && disk == old(disk)
      ensures outstanding == 0 ==> n == 0 && mem == disk
      ensures outstanding == 0 ==> EqHome(c, disk, Replay(Base(c, run), run.s.hist))
    {
      ghost var ops := run.s.ops;
      assert |(ops - {op}).Keys| == |ops.Keys| - 1 by {
        assert (ops - {op}).Keys == ops.Keys - {op};
      }
      outstanding := outstanding - 1;
      Take(LogSpec.EndOp(op));
      if outstanding == 0 {
        assert run.s.ops == map[];
        committing := n > 0;
        if n > 0 {
          Commit();
        }
        committing := false;
        QuiescentDiskIsHistory(c, run);
      }
    }
  }

  /** One block copied home, in the machine's terms. */
  lemma CopiesHome(c: Config, s: State, recovering: bool, tail: nat)
    requires c.Valid() && |s.disk| == |s.mem| == c.blocks && tail < |s.lh| <= c.Capacity() && c.Home(s.lh[tail])
    requires s.mode == if recovering then Recovering(tail) else Installing(tail)
    ensures var a := if recovering then RecoverBlock else InstallBlock;
            && Enabled(c, s, a)
            && Do(c, s, a) == s.(disk := s.disk[s.lh[tail] := s.mem[c.start + 1 + tail]], mem := s.mem[s.lh[tail] := s.mem[c.start + 1 + tail]],
                                 mode := if recovering then Recovering(tail + 1) else Installing(tail + 1))
  {
  }
}
