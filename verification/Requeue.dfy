/**
  What becomes of the queue table after sys_nice has requeued a process that runs.  The
  table is followed by the writes of enqueue and removeFromQueue alone, since it stands for
  no queues any more.
 */
module Requeue {
  import opened QueueTable
  import opened ProcSpec
  import opened ProcTable

  // ---------------------------------------------------------------- the table by itself

  /** enqueue and removeFromQueue, of any process at any time. */
  datatype TableOp = In(level: nat, p: nat) | Out(p: nat)

  predicate Proper(op: TableOp) {
    op.p < NPROC && (op.In? ==> op.level < NUM_QUEUES)
  }

  ghost function Applied(qt: seq<QEntry>, op: TableOp): (qt': seq<QEntry>)
    requires InTable(qt) && Proper(op)
    ensures InTable(qt')
  {
    if op.In? then Appended(qt, op.level, op.p) else Unlinked(qt, op.p)
  }

  ghost function AppliedAll(qt: seq<QEntry>, ops: seq<TableOp>): (qt': seq<QEntry>)
    requires InTable(qt) && forall i :: 0 <= i < |ops| ==> Proper(ops[i])
    ensures InTable(qt')
  {
    if ops == [] then qt else Applied(AppliedAll(qt, ops[..|ops| - 1]), ops[|ops| - 1])
  }

  /** The entry that dequeue takes, NPROC if every queue looks empty to it. */
  function Picked(qt: seq<QEntry>): (p: nat)
    requires |qt| == NPROC + 2 * NUM_QUEUES
  {
    if qt[Head(0)].next != Tail(0) then qt[Head(0)].next
    else if qt[Head(1)].next != Tail(1) then qt[Head(1)].next
    else if qt[Head(2)].next != Tail(2) then qt[Head(2)].next
    else NPROC
  }

  // ---------------------------------------------------------------- a head that never moves

  /** p is at the head of queue l, and no entry leads back to the head. */
  ghost predicate Stuck(qt: seq<QEntry>, l: nat, p: nat) {
    && InTable(qt) && l < NUM_QUEUES && p < NPROC
    && qt[Head(l)].next == p && forall x :: 0 <= x < |qt| ==> qt[x].prev != Head(l)
  }

  lemma StuckOn(qt: seq<QEntry>, l: nat, p: nat, op: TableOp)
    requires Stuck(qt, l, p) && Proper(op)
    ensures Stuck(Applied(qt, op), l, p)
  {
  }

  /** No enqueue and no removal, of p or of anyone, ever changes that. */
  lemma {:induction false} StuckForever(qt: seq<QEntry>, l: nat, p: nat, ops: seq<TableOp>)
    requires Stuck(qt, l, p) && forall i :: 0 <= i < |ops| ==> Proper(ops[i])
    ensures Stuck(AppliedAll(qt, ops), l, p)
  {
    hide Stuck, Applied;
    StuckTable(qt, l, p);
    if ops != [] {
      StuckForever(qt, l, p, ops[..|ops| - 1]);
      StuckOn(AppliedAll(qt, ops[..|ops| - 1]), l, p, ops[|ops| - 1]);
    }
  }

  lemma StuckTable(qt: seq<QEntry>, l: nat, p: nat)
    requires Stuck(qt, l, p)
    ensures InTable(qt)
  {
  }

  /** So dequeue takes p or someone from a better queue, and nobody else. */
  lemma StuckPicked(qt: seq<QEntry>, l: nat, p: nat)
    requires Stuck(qt, l, p)
    ensures Picked(qt) == p || exists m :: 0 <= m < l && Picked(qt) == qt[Head(m)].next
  {
  }

  /** Enqueuing a process twice at one level links it to itself, in front of the tail. */
  lemma EnqueuedTwice(qt: seq<QEntry>, l: nat, p: nat)
    requires InTable(qt) && l < NUM_QUEUES && p < NPROC
    ensures var qt' := Appended(Appended(qt, l, p), l, p);
            qt'[p] == QEntry(l, p, p) && qt'[Tail(l)].prev == p
  {
  }

  /** When that makes the process the head for good. */
  lemma TwiceSticks(qt: seq<QEntry>, l: nat, p: nat)
    requires InTable(qt) && l < NUM_QUEUES && p < NPROC
    ensures Stuck(Appended(Appended(qt, l, p), l, p), l, p) <==>
              && (qt[Tail(l)].prev == Head(l) || qt[Head(l)].next == p)
              && forall x :: 0 <= x < |qt| && x != p && x != Tail(l) ==> qt[x].prev != Head(l)
  {
    var qt' := Appended(Appended(qt, l, p), l, p);
    EnqueuedTwice(qt, l, p);
    assert forall x :: 0 <= x < |qt| && x != p && x != Tail(l) ==> qt'[x].prev == qt[x].prev;
  }

  // ---------------------------------------------------------------- a process that nobody finds

  /** No link leads to p. */
  ghost predicate Lost(qt: seq<QEntry>, p: nat) {
    InTable(qt) && p < NPROC && forall x :: 0 <= x < |qt| ==> qt[x].next != p
  }

  lemma LostOn(qt: seq<QEntry>, p: nat, op: TableOp)
    requires Lost(qt, p) && Proper(op) && !(op.In? && op.p == p)
    ensures Lost(Applied(qt, op), p)
  {
  }

  /** Nothing but an enqueue of p itself brings it back, and dequeue does not take it. */
  lemma {:induction false} LostForever(qt: seq<QEntry>, p: nat, ops: seq<TableOp>)
    requires Lost(qt, p) && forall i :: 0 <= i < |ops| ==> Proper(ops[i]) && !(ops[i].In? && ops[i].p == p)
    ensures Lost(AppliedAll(qt, ops), p) && Picked(AppliedAll(qt, ops)) != p
  {
    if ops != [] {
      LostForever(qt, p, ops[..|ops| - 1]);
      LostOn(AppliedAll(qt, ops[..|ops| - 1]), p, ops[|ops| - 1]);
    }
  }

  // ---------------------------------------------------------------- both happen

  lemma FirstTableIs()
    ensures var qt := FirstTable();
            && InTable(qt) && qt[INIT] == QEntry(1, Head(1), Tail(1)) && qt[Head(1)].next == INIT && qt[Tail(1)].prev == INIT
            && (forall x :: 0 <= x < |qt| && x != INIT ==> qt[x].prev != Head(1))
            && (forall x :: 0 <= x < |qt| && x != Head(1) ==> qt[x].next == INIT || qt[x].next >= NPROC)
  {
    var blank := seq(NPROC + 2 * NUM_QUEUES, i => QEntry(0, 0, 0));
    assert forall x :: 0 <= x < |blank| ==> blank[x] == QEntry(0, 0, 0);
    assert SetUp(blank)[Tail(1)].prev == Head(1);
  }

  /** The first process runs, alone; its entry still has the links that it had in its queue. */
  method FirstDispatched() returns (k: Kernel)
    ensures fresh(k) && k.Valid() && k.qtable == Unlinked(FirstTable(), INIT) && Runs(k.St(), INIT) && k.nextpid == 2
    ensures k.procs[INIT].nice == 0 && k.procs[INIT].queue == 1 && k.procs[INIT].quanta == 0 && NeverRequeues(k.run)
    ensures forall p :: 0 < p < NPROC ==>
              k.procs[p].state == Unused && k.procs[p].nice == k.procs[p].queue == k.procs[p].quanta == 0
  {
    hide Do, Booted;
    k := new Kernel();
    BootedShape();
    FirstTableIs();
    k.SchedulerTurn();
    ghost var r := FirstRuns();
  }

  /**
    The first process asks for no change of its nice value and yields.  From then on
    process 0 is at the head of its queue for good: until the next boost no other process
    of that level or below is ever taken.
   */
  method NiceThenYield() returns (k: Kernel, nice: int)
    ensures fresh(k) && nice == 0 && Stuck(k.qtable, 1, INIT)
  {
    hide Scheduling, Rep, FirstTable;
    k := FirstDispatched();
    FirstTableIs();
    ghost var qt := Unlinked(k.qtable, INIT);
    var requeued;
    nice, requeued := k.SysNice(INIT, 0);
    k.YieldAnyway(INIT);
    assert k.qtable == Appended(Appended(qt, 1, INIT), 1, INIT);
    TwiceSticks(qt, 1, INIT);
  }

  /** The second removal joins head and tail across the child that was enqueued between them. */
  lemma LosesChild()
    ensures var qt := Unlinked(FirstTable(), INIT);
            InTable(qt) && Lost(Appended(Unlinked(Appended(qt, 1, 1), INIT), 1, INIT), 1)
  {
    hide FirstTable;
    FirstTableIs();
    var qt := Unlinked(FirstTable(), INIT);
    var qt1 := Appended(qt, 1, 1);
    assert qt1[INIT].prev == Head(1) && qt1[INIT].next == Tail(1);
    var qt2 := Unlinked(qt1, INIT);
    assert qt2[Head(1)].next == Tail(1) && qt2[Tail(1)].prev == Head(1);
    assert forall x :: 0 <= x < |qt2| ==> qt2[x].next != 1;
  }

  /**
    The first process forks and asks for no change of its nice value.  The child is RUNNABLE,
    but no queue leads to it any more.
   */
  method ForkThenNice() returns (k: Kernel, pid: nat, nice: int)
    ensures fresh(k) && pid == 2 && nice == 0 && k.procs[1].state == Runnable && k.procs[1].pid == pid && Lost(k.qtable, 1)
  {
    hide Scheduling, Rep, FirstTable;
    hide Appended, Unlinked, Lost;
    k := FirstDispatched();
    FirstTableIs();
    SlotFree(k.procs, 1);
    LosesChild();
    pid := k.Fork(INIT, false);
    assert k.procs[1].queue == 1 && k.procs[INIT].nice == 0;
    var requeued;
    nice, requeued := k.SysNice(INIT, 0);
  }
}
