/**
  Log space.  begin_op admits an operation only if every open operation could still
  add MAXOPBLOCKS entries; this module proves what that admission rule buys, and for
  which log sizes log_write's own guard can still fire.
 */
module LogSpace {
  import opened Collections
  import opened Params
  import opened LogSpec

  /** Entries that the open operations may still add. */
  ghost function Unused(ops: map<OpId, nat>): (u: int)
    decreases ops.Keys
  {
    if ops == map[] then 0 else
      var t :| t in ops;
      MAXOPBLOCKS - ops[t] + Unused(ops - {t})
  }

  /** A caller adds at most MAXOPBLOCKS distinct blocks in one operation. */
  ghost predicate Disciplined(s: State, a: Action) {
    a.LogWrite? && a.op in s.ops && a.block !in s.lh ==> s.ops[a.op] < MAXOPBLOCKS
  }

  ghost predicate DisciplinedRun(c: Config, r: Run) {
    r.Legal(c) && (r.Then? ==> DisciplinedRun(c, r.before) && Disciplined(r.before.s, r.a))
  }

  lemma {:induction false} UnusedRemove(ops: map<OpId, nat>, t: OpId)
    requires t in ops
    ensures Unused(ops) == MAXOPBLOCKS - ops[t] + Unused(ops - {t})
    decreases ops.Keys
  {
    var u :| u in ops && Unused(ops) == MAXOPBLOCKS - ops[u] + Unused(ops - {u});
    if u != t {
      UnusedRemove(ops - {u}, t);
      UnusedRemove(ops - {t}, u);
      assert ops - {u} - {t} == ops - {t} - {u};
    }
  }

  lemma UnusedSet(ops: map<OpId, nat>, t: OpId, n: nat)
    ensures Unused(ops[t := n]) == MAXOPBLOCKS - n + Unused(ops - {t})
  {
    UnusedRemove(ops[t := n], t);
    assert ops[t := n] - {t} == ops - {t};
  }

  lemma {:induction false} UnusedBounds(ops: map<OpId, nat>)
    requires forall t :: t in ops ==> ops[t] <= MAXOPBLOCKS
    ensures 0 <= Unused(ops) <= |ops| * MAXOPBLOCKS
    decreases ops.Keys
  {
    if ops != map[] {
      var t :| t in ops && Unused(ops) == MAXOPBLOCKS - ops[t] + Unused(ops - {t});
      UnusedBounds(ops - {t});
      assert (ops - {t}).Keys == ops.Keys - {t};
      assert |ops.Keys| == |ops.Keys - {t}| + 1;
    }
  }

  ghost predicate Reserved(s: State) {
    && |s.lh| + Unused(s.ops) <= LOGSIZE
    && forall t :: t in s.ops ==> s.ops[t] <= MAXOPBLOCKS
  }

  lemma BeginReserved(s: State, ops: map<OpId, nat>, t: OpId)
    requires Reserved(s) && t !in s.ops && ops == s.ops[t := 0]
    requires |s.lh| + (|s.ops| + 1) * MAXOPBLOCKS <= LOGSIZE
    ensures |s.lh| + Unused(ops) <= LOGSIZE
  {
    UnusedSet(s.ops, t, 0);
    assert s.ops - {t} == s.ops;
    UnusedBounds(s.ops);
  }

  lemma LogWriteReserved(s: State, ops: map<OpId, nat>, t: OpId)
    requires Reserved(s) && t in s.ops && ops == s.ops[t := s.ops[t] + 1]
    ensures |s.lh| + 1 + Unused(ops) <= LOGSIZE
  {
    UnusedSet(s.ops, t, s.ops[t] + 1);
    UnusedRemove(s.ops, t);
  }

  lemma StepReserved(c: Config, base: Disk, s: State, a: Action)
    requires Inv(c, base, s) && Enabled(c, s, a) && Disciplined(s, a) && Reserved(s)
    ensures Reserved(Do(c, s, a))
  {
    var s' := Do(c, s, a);
    if a.BeginOp? {
      BeginReserved(s, s'.ops, a.op);
    } else if a.LogWrite? {
      if !TooBig(c, s) && a.block !in s.lh {
        LogWriteReserved(s, s'.ops, a.op);
      }
    } else if a.EndOp? {
      UnusedRemove(s.ops, a.op);
    }
  }

  lemma {:induction false} RunReserved(c: Config, r: Run)
    requires DisciplinedRun(c, r)
    ensures Reserved(r.s)
  {
    match r
    case Start(s) =>
      assert Unused(s.ops) == 0;
    case Then(q, a, s) =>
      RunReserved(c, q);
      RunInv(c, q);
      StepReserved(c, Base(c, q), q.s, a);
  }

  /** The header never outgrows the log: every reservation can be honoured. */
  lemma LogSpaceSuffices(c: Config, r: Run)
    requires DisciplinedRun(c, r)
    ensures |r.s.lh| + Unused(r.s.ops) <= LOGSIZE
    ensures 0 <= Unused(r.s.ops) && forall t :: t in r.s.ops ==> r.s.ops[t] <= MAXOPBLOCKS
    ensures |r.s.lh| <= LOGSIZE
  {
    RunReserved(c, r);
    UnusedBounds(r.s.ops);
  }

  /**
    When log_write panics.  Of a block not yet in the header: exactly when the log has
    at most LOGSIZE blocks and is full.  Of a block already there: also when LOGSIZE
    entries are in use, because the guard precedes absorption.
   */
  lemma LogWritePanics(c: Config, r: Run)
    requires DisciplinedRun(c, r) && r.Then? && r.a.LogWrite?
    ensures r.a.block !in r.before.s.lh ==>
              (r.s.mode.Panicked? <==> c.size <= LOGSIZE && |r.before.s.lh| == c.size - 1)
    ensures r.a.block in r.before.s.lh ==>
              (r.s.mode.Panicked? <==> |r.before.s.lh| == c.Capacity())
  {
    var s := r.before.s;
    RunInv(c, r.before);
    LogSpaceSuffices(c, r.before);
    if r.a.block !in s.lh {
      UnusedRemove(s.ops, r.a.op);
      UnusedBounds(s.ops - {r.a.op});
    }
  }

  // ------------------------------------------------- the log can fill up

  /** The i-th block past the log. */
  function Past(c: Config, i: nat): (b: int) {
    c.start + c.size + i
  }

  ghost function Extend(c: Config, r: Run, a: Action): (r': Run)
    requires DisciplinedRun(c, r) && Enabled(c, r.s, a) && Disciplined(r.s, a)
    ensures DisciplinedRun(c, r')
  {
    Then(r, a, Do(c, r.s, a))
  }

  /** Boot an empty log and open operations 0, 1 and 2. */
  lemma ThreeOpen(c: Config, d: Disk) returns (r: Run)
    requires Formatted(c, d) && OnDisk(c, d) == []
    ensures DisciplinedRun(c, r)
    ensures r.s.mode.Idle? && r.s.lh == [] && r.s.ops == map[0 := 0, 1 := 0, 2 := 0]
    ensures |r.s.disk| == |r.s.mem| == c.blocks
  {
    r := Start(State(d, d, [], map[], Booting, [], 0));
    r := Extend(c, r, ReadHead);
    r := Extend(c, r, RecoverClear);
    r := Extend(c, r, BeginOp(0));
    assert r.s.ops == map[0 := 0];
    r := Extend(c, r, BeginOp(1));
    assert r.s.ops == map[0 := 0, 1 := 0];
    r := Extend(c, r, BeginOp(2));
  }

  /** Entries of operation t after n writes, ten to an operation. */
  function Share(n: nat, t: nat): (k: nat) {
    if n <= t * MAXOPBLOCKS then 0 else if n < (t + 1) * MAXOPBLOCKS then n - t * MAXOPBLOCKS else MAXOPBLOCKS
  }

  /** n blocks are logged, shared among three operations. */
  ghost predicate Filled(c: Config, s: State, n: nat) {
    && s.mode.Idle? && |s.disk| == |s.mem| == c.blocks
    && |s.lh| == n && (forall i :: 0 <= i < n ==> s.lh[i] == Past(c, i))
    && s.ops == map[0 := Share(n, 0), 1 := Share(n, 1), 2 := Share(n, 2)]
  }

  lemma FillStep(c: Config, s: State, n: nat, b: Block)
    requires c.Valid() && Filled(c, s, n) && n < LOGSIZE && Past(c, LOGSIZE) <= c.blocks
    ensures var a := LogWrite(n / MAXOPBLOCKS, Past(c, n), b);
            && a.block !in s.lh && Enabled(c, s, a) && Disciplined(s, a)
            && (if n < c.size - 1 then Filled(c, Do(c, s, a), n + 1) else Do(c, s, a).mode.Panicked?)
  {
  }

  lemma {:induction false} Fill(c: Config, d: Disk, b: Block, n: nat) returns (r: Run)
    requires Formatted(c, d) && OnDisk(c, d) == []
    requires n <= c.Capacity() && Past(c, LOGSIZE) <= c.blocks
    ensures DisciplinedRun(c, r) && Filled(c, r.s, n)
  {
    if n == 0 {
      r := ThreeOpen(c, d);
    } else {
      r := Fill(c, d, b, n - 1);
      FillStep(c, r.s, n - 1, b);
      r := Extend(c, r, LogWrite((n - 1) / MAXOPBLOCKS, Past(c, n - 1), b));
    }
  }

  /**
    mkfs formats LOGSIZE log blocks.  With that many or fewer, three operations that
    each keep to MAXOPBLOCKS reach a panic; LogWritePanics shows that one block more
    rules it out for blocks not yet logged.
   */
  lemma SmallLogPanics(c: Config, d: Disk, b: Block) returns (r: Run)
    requires Formatted(c, d) && OnDisk(c, d) == []
    requires c.size <= LOGSIZE && Past(c, LOGSIZE) <= c.blocks
    ensures DisciplinedRun(c, r) && r.s.mode.Panicked?
    ensures r.Then? && r.a.LogWrite? && r.a.block !in r.before.s.lh
  {
    var n := c.size - 1;
    r := Fill(c, d, b, n);
    FillStep(c, r.s, n, b);
    r := Extend(c, r, LogWrite(n / MAXOPBLOCKS, Past(c, n), b));
  }

  /** With a larger log, a write that only repeats a block already logged reaches the panic all the same. */
  lemma LargeLogPanics(c: Config, d: Disk, b: Block) returns (r: Run)
    requires Formatted(c, d) && OnDisk(c, d) == []
    requires c.size > LOGSIZE && Past(c, LOGSIZE) <= c.blocks
    ensures DisciplinedRun(c, r) && r.s.mode.Panicked?
    ensures r.Then? && r.a.LogWrite? && r.a.block in r.before.s.lh
  {
    r := Fill(c, d, b, LOGSIZE);
    assert r.s.lh[0] == Past(c, 0);
    r := Extend(c, r, LogWrite(0, Past(c, 0), b));
  }

  // ------------------------------------------------- operations of the file system

  /** All of the blocks have been logged on behalf of operation t, which has an entry for each at most. */
  ghost predicate Charged(s: State, t: OpId, blocks: seq<nat>) {
    t in s.ops && s.ops[t] <= |Elements(blocks)| && forall b :: b in blocks ==> b in s.lh
  }

  lemma ChargeStep(c: Config, s: State, t: OpId, some: seq<nat>, b: nat, d: Block)
    requires c.Valid() && s.mode.Idle? && |s.disk| == |s.mem| == c.blocks && Charged(s, t, some) && c.Home(b)
    requires |Elements(some + [b])| <= MAXOPBLOCKS
    ensures var a := LogWrite(t, b, d);
            && Enabled(c, s, a) && Disciplined(s, a) && |Do(c, s, a).disk| == |Do(c, s, a).mem| == c.blocks
            && if TooBig(c, s) then Do(c, s, a).mode.Panicked? else Do(c, s, a).mode.Idle? && Charged(Do(c, s, a), t, some + [b])
  {
    assert Elements(some + [b]) == Elements(some) + {b};
    if b !in s.lh {
      assert b !in Elements(some);
    }
    SubsetSize(Elements(some), Elements(some + [b]));
  }

  /**
    An operation that logs any blocks in any order, as often as it likes, keeps the
    callers' discipline if there are at most MAXOPBLOCKS different ones.
   */
  lemma {:induction false} OperationDisciplined(c: Config, r: Run, t: OpId, blocks: seq<nat>, data: seq<Block>) returns (r': Run)
    requires DisciplinedRun(c, r) && c.Valid() && r.s.mode.Idle? && t in r.s.ops && r.s.ops[t] == 0 && |r.s.disk| == |r.s.mem| == c.blocks
    requires |data| == |blocks| && |Elements(blocks)| <= MAXOPBLOCKS && forall i :: 0 <= i < |blocks| ==> c.Home(blocks[i])
    ensures DisciplinedRun(c, r') && |r'.s.disk| == |r'.s.mem| == c.blocks
    ensures r'.s.mode.Panicked? || (r'.s.mode.Idle? && Charged(r'.s, t, blocks))
    ensures r'.s.mode.Panicked? ==> r'.Then? && r'.a.LogWrite? && TooBig(c, r'.before.s)
    decreases |blocks|
  {
    hide Do, Enabled, Disciplined, Charged, TooBig;
    if blocks == [] {
      r' := r;
      NothingCharged(r.s, t);
    } else {
      var k := |blocks| - 1;
      assert blocks[..k] + [blocks[k]] == blocks;
      SubsetSize(Elements(blocks[..k]), Elements(blocks));
      r' := OperationDisciplined(c, r, t, blocks[..k], data[..k]);
      if r'.s.mode.Idle? {
        ChargeStep(c, r'.s, t, blocks[..k], blocks[k], data[k]);
        r' := Extend(c, r', LogWrite(t, blocks[k], data[k]));
      }
    }
  }

  lemma NothingCharged(s: State, t: OpId)
    requires t in s.ops && s.ops[t] == 0
    ensures Charged(s, t, [])
  {
  }
}
