/** The process table and the scheduler of proc.c, each operation as the code performs it. */
module ProcTable {
  import opened QueueTable
  import opened ProcSpec
  import opened ProcEffects

  datatype WaitResult = Reaped(pid: nat) | NoChild | CopyFault | Slept

  class Kernel {
    var qtable: seq<QEntry>
    var procs: Table
    var clock: nat          // timeSincePriorityBoost
    var nextpid: nat
    ghost var qs: Queues    // the queues that qtable stands for
    ghost var run: Run

    ghost function St(): (s: Sched)
      reads this`procs, this`qs, this`clock, this`nextpid
    {
      Sched(procs, qs, clock, nextpid)
    }

    ghost predicate Valid()
      reads this
    {
      Rep(qtable, qs) && run.Legal() && run.s == St()
    }

    /** The step just completed is the machine's step a. */
    ghost method Take(a: Step)
      requires run.Legal() && Enabled(run.s, a) && St() == Do(run.s, a)
      modifies this`run
      ensures run.Legal() && run == Then(old(run), a, St())
    {
      run := Then(run, a, St());
    }

    /** setupQueue */
    method SetupQueue()
      requires InTable(qtable)
      modifies this`qtable, this`qs
      ensures Rep(qtable, qs) && qs == [[], [], []] && qtable == SetUp(old(qtable))
    {
      for i := 0 to NPROC
        invariant InTable(qtable) && forall p :: 0 <= p < |qtable| ==> qtable[p] == if p < i then SetUp(old(qtable))[p] else old(qtable)[p]
      {
        qtable := qtable[i := qtable[i].(queue := EMPTY)];
      }
      for l := 0 to NUM_QUEUES
        invariant InTable(qtable)
        invariant forall p :: 0 <= p < |qtable| ==> qtable[p] == if p < Head(l) then SetUp(old(qtable))[p] else old(qtable)[p]
      {
        qtable := qtable[Head(l) := qtable[Head(l)].(queue := l, next := Tail(l))];
        qtable := qtable[Tail(l) := qtable[Tail(l)].(queue := l, prev := Head(l))];
      }
      assert qtable == SetUp(old(qtable));
      SetupRep(qtable);
      qs := [[], [], []];
    }

    /** enqueue's choice of level. */
    method Choose(p: nat) returns (level: nat)
      requires p < NPROC
      modifies this`procs
      ensures var r := old(procs)[p];
              var a := Chosen(r.nice, r.queue, r.quanta);
              level == a.level && procs == old(procs)[p := r.(queue := a.level, quanta := a.quanta)]
    {
      var r := procs[p];
      if r.nice > 10 {
        level := 0;
        if r.queue > 0 {
          r := r.(quanta := 0);
        }
      } else if r.nice <= 10 && r.nice > -10 {
        level := 1;
        if r.queue > 1 {
          r := r.(quanta := 0);
        }
      } else {
        level := 2;
      }
      if r.quanta > 15 && level == 0 {
        level, r := level + 1, r.(quanta := 0);
      } else if r.quanta > 10 && level == 1 {
        level, r := level + 1, r.(quanta := 0);
      } else if r.quanta > 1 && level == 2 {
        r := r.(quanta := 0);
      }
      procs := procs[p := r.(queue := level)];
    }

    /** enqueue's links: p goes in front of the tail of the queue, wherever it was before. */
    method Link(p: nat, level: nat)
      requires InTable(qtable) && p < NPROC && level < NUM_QUEUES
      modifies this`qtable
      ensures InTable(qtable) && qtable == Appended(old(qtable), level, p)
    {
      var oldTail := qtable[Tail(level)].prev;
      qtable := qtable[p := QEntry(level, oldTail, Tail(level))];
      qtable := qtable[oldTail := qtable[oldTail].(next := p)];
      qtable := qtable[Tail(level) := qtable[Tail(level)].(prev := p)];
    }

    /** removeFromQueue, whatever the links of p are. */
    method Unlink(p: nat)
      requires InTable(qtable) && p < NPROC
      modifies this`qtable
      ensures InTable(qtable) && qtable == Unlinked(old(qtable), p)
    {
      qtable := qtable[p := qtable[p].(queue := EMPTY)];
      var oldPrev, oldNext := qtable[p].prev, qtable[p].next;
      qtable := qtable[oldPrev := qtable[oldPrev].(next := oldNext)];
      qtable := qtable[oldNext := qtable[oldNext].(prev := oldPrev)];
    }

    /** enqueue of a process that is in no queue. */
    method Enqueue(p: nat)
      requires Rep(qtable, qs) && p < NPROC && !Queued(qs, p)
      modifies this`qtable, this`procs, this`qs
      ensures Rep(qtable, qs) && St() == Enqueued(old(St()), p) && qtable == Appended(old(qtable), procs[p].queue, p)
    {
      hide Chosen;
      var level := Choose(p);
      QueuedWhere(qtable, qs, p);
      AppendRep(qtable, qs, level, p);
      Link(p, level);
      qs := qs[level := qs[level] + [p]];
    }

    /** removeFromQueue of the process at position k of queue l. */
    method RemoveFromQueue(p: nat, ghost l: nat, ghost k: nat)
      requires Rep(qtable, qs) && l < NUM_QUEUES && k < |qs[l]| && qs[l][k] == p && p < NPROC
      modifies this`qtable, this`qs
      ensures Rep(qtable, qs) && qs == old(qs)[l := Without(old(qs)[l], k)] && qtable == Unlinked(old(qtable), p)
    {
      RemoveRep(qtable, qs, l, k);
      Unlink(p);
      qs := qs[l := Without(qs[l], k)];
    }

    /** dequeue's choice; NPROC if every queue is empty. */
    method Oldest() returns (p: nat)
      requires Rep(qtable, qs)
      ensures if FirstLevel(qs) == NUM_QUEUES then p == NPROC else p < NPROC && p == qs[FirstLevel(qs)][0]
    {
      FirstNode(qtable, qs, 0);
      FirstNode(qtable, qs, 1);
      FirstNode(qtable, qs, 2);
      if qtable[Head(0)].next != Tail(0) {
        p := qtable[Head(0)].next;
      } else if qtable[Head(1)].next != Tail(1) {
        p := qtable[Head(1)].next;
      } else if qtable[Head(2)].next != Tail(2) {
        p := qtable[Head(2)].next;
      } else {
        p := NPROC;
      }
    }

    /** dequeue: remove the chosen process and run it. */
    method Dequeue()
      requires Rep(qtable, qs)
      modifies this`qtable, this`procs, this`qs
      ensures Rep(qtable, qs) && St() == Dispatched(old(St()))
      ensures qtable == TakenFrom(old(qtable), old(qs))
    {
      var p := Oldest();
      if p == NPROC {
        return;
      }
      ghost var l := FirstLevel(qs);
      RemoveFromQueue(p, l, 0);
      assert Without(old(qs)[l], 0) == old(qs)[l][1..];
      procs := procs[p := procs[p].(state := Running)];
    }

    /** One turn of the scheduler's loop, with the boost if it is due. */
    method SchedulerTurn()
      requires Valid()
      modifies this
      ensures Valid() && run.Then? && run.before == old(run) && run.a == Round
      ensures old(clock) <= BOOST ==> qtable == TakenFrom(old(qtable), old(qs))
    {
      hide Rep, Do, Scheduling;
      if clock > BOOST {
        Boost();
        clock := 0;
      }
      Dequeue();
      TakesRound(old(St()));
      Take(Round);
    }

    /** The boost: empty the queues and enqueue every RUNNABLE process again. */
    method Boost()
      requires Valid()
      modifies this`qtable, this`procs, this`qs
      ensures Rep(qtable, qs) && St() == Requeued(old(St()), NPROC)
    {
      hide Scheduling;
      RunInv(run);
      SetupQueue();
      for p := 0 to NPROC
        invariant Rep(qtable, qs) && St() == Requeued(old(St()), p)
      {
        RequeuedNext(old(St()), p);
        if procs[p].state == Runnable {
          Enqueue(p);
        }
      }
    }

    /** p->state = RUNNABLE; enqueue(p) */
    method Ready(p: nat)
      requires Rep(qtable, qs) && p < NPROC && !Queued(qs, p)
      modifies this`qtable, this`procs, this`qs
      ensures Rep(qtable, qs) && St() == Readied(old(St()), p) && qtable == Appended(old(qtable), procs[p].queue, p)
    {
      procs := procs[p := procs[p].(state := Runnable)];
      Enqueue(p);
    }

    /** yield by the running process p. */
    method Yield(p: nat)
      requires Valid() && Runs(St(), p)
      modifies this
      ensures Valid() && run.Then? && run.before == old(run) && run.a == ProcSpec.Yield(p)
    {
      hide Chosen;
      NotQueued(run, p);
      QueuedWhere(qtable, qs, p);
      ghost var qt := qtable;
      YieldAnyway(p);
      ghost var level := procs[p].queue;
      AppendRep(qt, qs, level, p);
      qs := qs[level := qs[level] + [p]];
      Take(ProcSpec.Yield(p));
    }

    /**
      sys_nice by the running process p.  As long as it does not requeue p it is the machine's
      Nice step.  A requeue leaves a table that stands for no queues of exactly the RUNNABLE
      processes, whatever the links of p were.
     */
    method SysNice(p: nat, inc: int) returns (nice: int, requeued: bool)
      requires Valid() && Runs(St(), p)
      modifies this
      ensures nice == procs[p].nice == Reniced(old(procs)[p].nice, inc)
      ensures var n := old(procs)[p].nice + inc; nice == if n > 19 then 19 else if n < -20 then -20 else n
      ensures requeued <==> NiceQueue(nice) != old(procs)[p].queue
      ensures var q := old(procs)[p].queue; !requeued <==> (nice > 10 && q == 0) || (nice < -10 && q == 1) || (nice == -10 && q == 2)
      ensures !requeued ==> Valid() && run == Then(old(run), ProcSpec.Nice(p, inc), St()) && qtable == old(qtable)
      ensures requeued ==> InTable(qtable) && procs == Enqueued(Do(old(St()), ProcSpec.Nice(p, inc)), p).procs
                           && qtable == Appended(Unlinked(old(qtable), p), procs[p].queue, p)
      ensures requeued ==> clock == old(clock) && forall qs' :: !(Rep(qtable, qs') && Scheduling(Sched(procs, qs', clock, nextpid), NPROC))
    {
      hide Rep, Scheduling, Chosen, Enqueued;
      LevelBound(run, p);
      RepInTable(qtable, qs);
      ghost var qt := qtable;
      var tempQueue;
      nice, tempQueue := Renice(p, inc);
      requeued := tempQueue != procs[p].queue;
      if requeued {
        Requeue(p);
        RequeueBreaks(Unlinked(qt, p), p, St());
      } else {
        Take(ProcSpec.Nice(p, inc));
      }
    }

    /** sys_nice up to its test whether to requeue. */
    method Renice(p: nat, inc: int) returns (nice: int, tempQueue: int)
      requires p < NPROC
      modifies this`procs
      ensures nice == Reniced(old(procs)[p].nice, inc) && tempQueue == NiceQueue(nice)
      ensures procs == old(procs)[p := old(procs)[p].(nice := nice)]
    {
      procs := procs[p := procs[p].(nice := procs[p].nice + inc)];
      if procs[p].nice > 19 {
        procs := procs[p := procs[p].(nice := 19)];
      }
      if procs[p].nice < -20 {
        procs := procs[p := procs[p].(nice := -20)];
      }
      nice := procs[p].nice;
      tempQueue := -1;
      if nice > 10 {
        tempQueue := 0;
      } else if nice < -10 && nice <= 10 {
        tempQueue := 1;
      } else if nice <= -10 {
        tempQueue := 2;
      }
    }

    /** removeFromQueue(p); enqueue(p) */
    method Requeue(p: nat)
      requires InTable(qtable) && p < NPROC
      modifies this`qtable, this`procs
      ensures procs == Enqueued(old(St()), p).procs && procs[p].queue < NUM_QUEUES
      ensures procs[p].state == old(procs)[p].state && procs[p].nice == old(procs)[p].nice
      ensures InTable(qtable) && qtable == Appended(Unlinked(old(qtable), p), procs[p].queue, p)
    {
      hide Chosen;
      Unlink(p);
      var level := Choose(p);
      Link(p, level);
    }

    /** yield's changes by p, which may be in a queue already. */
    method YieldAnyway(p: nat)
      requires InTable(qtable) && p < NPROC
      modifies this`qtable, this`procs, this`clock
      ensures clock == old(clock) + 1
      ensures procs == Readied(WithProc(old(St()), p, old(procs)[p].(quanta := old(procs)[p].quanta + 1)), p).procs
      ensures InTable(qtable) && qtable == Appended(old(qtable), procs[p].queue, p)
    {
      hide Chosen;
      procs := procs[p := procs[p].(quanta := procs[p].quanta + 1)];
      clock := clock + 1;
      procs := procs[p := procs[p].(state := Runnable)];
      var level := Choose(p);
      Link(p, level);
    }

    /** sleep by the running process p on a channel that is no process, up to its call of sched. */
    method Sleep(p: nat, chan: nat)
      requires Valid() && Runs(St(), p) && chan > NPROC
      modifies this
      ensures Valid() && run.Then? && run.before == old(run) && run.a == ProcSpec.Sleep(p, chan)
    {
      procs := procs[p := procs[p].(chan := chan)];
      procs := procs[p := procs[p].(state := Sleeping)];
      Take(ProcSpec.Sleep(p, chan));
    }

    /** wakeup's scan, called by me. */
    method WakeScan(chan: nat, me: nat)
      requires Rep(qtable, qs) && Scheduling(St(), NPROC)
      modifies this`qtable, this`procs, this`qs
      ensures Rep(qtable, qs) && St() == Woken(old(St()), chan, me, NPROC)
    {
      hide Scheduling, Rep;
      for p := 0 to NPROC
        invariant Rep(qtable, qs) && St() == Woken(old(St()), chan, me, p)
      {
        if p != me {
          if procs[p].state == Sleeping && procs[p].chan == chan {
            WokenScheduling(old(St()), chan, me, p);
            NotRunnable(St(), p);
            Ready(p);
          }
        }
      }
    }

    method Wakeup(chan: nat, me: nat)
      requires Valid()
      modifies this
      ensures Valid() && run.Then? && run.before == old(run) && run.a == ProcSpec.Wakeup(me, chan)
    {
      RunInv(run);
      WakeScan(chan, me);
      Take(ProcSpec.Wakeup(me, chan));
    }

    /** userinit over an empty table. */
    constructor ()
      ensures Valid() && run == Start(Booted()) && qtable == FirstTable()
    {
      qtable := seq(NPROC + 2 * NUM_QUEUES, i => QEntry(0, 0, 0));
      procs := seq(NPROC, i => Proc(Unused, 0, 0, NOBODY, 0, 0, 0, false));
      clock, nextpid, qs, run := 0, 1, [[], [], []], Start(Booted());
      new;
      procs := procs[INIT := procs[INIT].(pid := nextpid)];
      nextpid := nextpid + 1;
      SetupQueue();
      ghost var s := St();
      assert s.procs == seq(NPROC, i => if i == INIT then Proc(Unused, 0, 1, NOBODY, 0, 0, 0, false) else Proc(Unused, 0, 0, NOBODY, 0, 0, 0, false));
      Ready(INIT);
    }

    /** kill(pid); found is false when no slot has that pid. */
    method Kill(pid: nat) returns (found: bool)
      requires Valid()
      modifies this
      ensures Valid() && run.Then? && run.before == old(run) && run.a == ProcSpec.Kill(pid)
      ensures found <==> exists p :: 0 <= p < NPROC && old(procs)[p].pid == pid
      ensures KillOf(old(St()), St(), pid)
    {
      hide Rep, Queued, Enqueued, KillOf;
      found := false;
      var p := 0;
      while p < NPROC && procs[p].pid != pid
        invariant 0 <= p <= NPROC && FindPid(procs, pid, 0) == FindPid(procs, pid, p)
        invariant forall i :: 0 <= i < p ==> procs[i].pid != pid
      {
        p := p + 1;
      }
      if p < NPROC {
        found := true;
        procs := procs[p := procs[p].(killed := true)];
        if procs[p].state == Sleeping {
          NotQueued(run, p);
          Ready(p);
        }
      }
      assert St() == Killed(run.s, pid);
      KilledEffect(run.s, pid);
      Take(ProcSpec.Kill(pid));
    }

    /** fork by the running process p; 0 stands for -1, and `fails` a failed allocation for the child. */
    method Fork(p: nat, fails: bool) returns (pid: nat)
      requires Valid() && Runs(St(), p)
      modifies this
      ensures Valid() && run.Then? && run.before == old(run) && run.a == ProcSpec.Fork(p, fails)
      ensures pid == if fails || FreeSlot(old(procs), 0) == NPROC then 0 else old(nextpid)
      ensures pid != 0 ==> var np := FreeSlot(old(procs), 0); np < NPROC && qtable == Appended(old(qtable), procs[np].queue, np)
    {
      hide Rep, Queued, Enqueued, Do, Appended, Readied, FreeSlot;
      RepInTable(qtable, qs);
      var np := FindSlot();
      pid := 0;
      if np < NPROC {
        procs := procs[np := procs[np].(pid := nextpid)];
        nextpid := nextpid + 1;
        if fails {
          procs := procs[np := Freed(procs[np])];
        } else {
          pid := procs[np].pid;
          procs := procs[np := procs[np].(parent := p)];
          NotQueued(run, np);
          assert procs == old(procs)[np := old(procs)[np].(pid := old(nextpid), parent := p)];
          Ready(np);
        }
      }
      assert St() == Forked(run.s, p, fails);
      ForksTo(run.s, p, fails);
      Take(ProcSpec.Fork(p, fails));
    }

    /** allocproc's search. */
    method FindSlot() returns (np: nat)
      ensures np == FreeSlot(procs, 0)
    {
      np := 0;
      while np < NPROC && procs[np].state != Unused
        invariant 0 <= np <= NPROC && FreeSlot(procs, 0) == FreeSlot(procs, np)
      {
        np := np + 1;
      }
    }

    /** reparent(p) */
    method Reparent(p: nat)
      requires Rep(qtable, qs) && Scheduling(St(), NPROC)
      modifies this`qtable, this`procs, this`qs
      ensures Rep(qtable, qs) && St() == Adopted(old(St()), p, NPROC)
    {
      hide Scheduling, Rep, Woken;
      for i := 0 to NPROC
        invariant Rep(qtable, qs) && St() == Adopted(old(St()), p, i)
      {
        if procs[i].parent == p {
          AdoptedScheduling(old(St()), p, i);
          MarkedScheduling(St(), i, procs[i].(parent := INIT));
          procs := procs[i := procs[i].(parent := INIT)];
          WakeScan(ChanOf(INIT), p);
        }
      }
    }

    /** exit by the running process p, up to its call of sched; not ok is the panic of init. */
    method Exit(p: nat) returns (ok: bool)
      requires Valid() && Runs(St(), p)
      modifies this
      ensures ok <==> p != INIT
      ensures !ok ==> St() == old(St())
      ensures ok ==> Valid() && run.Then? && run.before == old(run) && run.a == ProcSpec.Exit(p)
    {
      hide Scheduling, Rep, Woken, Adopted;
      if p == INIT {
        return false;
      }
      RunScheduling(run);
      Reparent(p);
      AdoptedScheduling(old(St()), p, NPROC);
      WakeScan(ChanOf(procs[p].parent), p);
      procs := procs[p := procs[p].(state := Zombie)];
      Take(ProcSpec.Exit(p));
      return true;
    }

    /**
      One turn of wait's loop by the running process p, under wait_lock from the scan to the
      sleep: it reaps the first dead child, or fails, or sleeps until a child exits.
     */
    method Wait(p: nat, fault: bool) returns (r: WaitResult)
      requires Valid() && Runs(St(), p)
      modifies this
      ensures Valid()
      ensures r.Reaped? <==> !NoDeadChild(old(procs), p) && !fault
      ensures r.CopyFault? <==> !NoDeadChild(old(procs), p) && fault
      ensures r.NoChild? <==> NoDeadChild(old(procs), p) && (!HasChild(old(procs), p) || old(procs)[p].killed)
      ensures r.Reaped? ==> run.Then? && run.before == old(run) && run.a.Reap? && run.a.p == p
                            && old(procs)[run.a.child].pid == r.pid
                            && forall c :: 0 <= c < run.a.child && old(procs)[c].parent == p ==> old(procs)[c].state != Zombie
      ensures r.Slept? ==> run.Then? && run.before == old(run) && run.a == WaitSleep(p)
      ensures r.CopyFault? || r.NoChild? ==> St() == old(St()) && run == old(run)
    {
      var havekids := false;
      for c := 0 to NPROC
        invariant Valid() && St() == old(St()) && run == old(run)
        invariant havekids <==> exists i :: 0 <= i < c && procs[i].parent == p
        invariant forall i :: 0 <= i < c && procs[i].parent == p ==> procs[i].state != Zombie
      {
        if procs[c].parent == p {
          havekids := true;
          if procs[c].state == Zombie {
            if fault {
              return CopyFault;
            }
            var pid := procs[c].pid;
            procs := procs[c := Freed(procs[c])];
            Take(Reap(p, c));
            return Reaped(pid);
          }
        }
      }
      if !havekids || procs[p].killed {
        return NoChild;
      }
      procs := procs[p := procs[p].(chan := ChanOf(p))];
      procs := procs[p := procs[p].(state := Sleeping)];
      Take(WaitSleep(p));
      return Slept;
    }
  }

  /** The table after dequeue. */
  ghost function TakenFrom(qt: seq<QEntry>, qs: Queues): (qt': seq<QEntry>)
    requires InTable(qt)
    ensures |qt'| == |qt|
  {
    var l := FirstLevel(qs);
    if l == NUM_QUEUES || qs[l][0] >= NPROC then qt else Unlinked(qt, qs[l][0])
  }

  /** The table after userinit. */
  ghost function FirstTable(): (qt: seq<QEntry>) {
    Appended(SetUp(seq(NPROC + 2 * NUM_QUEUES, i => QEntry(0, 0, 0))), 1, INIT)
  }

  /** A table in which a running process was just enqueued stands for no queues of exactly the RUNNABLE processes. */
  lemma RequeueBreaks(qt: seq<QEntry>, p: nat, s: Sched)
    requires InTable(qt) && p < NPROC && s.procs[p].state == Running && s.procs[p].queue < NUM_QUEUES
    ensures forall qs :: !(Rep(Appended(qt, s.procs[p].queue, p), qs) && Scheduling(s.(qs := qs), NPROC))
  {
    forall qs: Queues
      ensures !(Rep(Appended(qt, s.procs[p].queue, p), qs) && Scheduling(s.(qs := qs), NPROC))
    {
      if Rep(Appended(qt, s.procs[p].queue, p), qs) && Scheduling(s.(qs := qs), NPROC) {
        QueuedWhere(Appended(qt, s.procs[p].queue, p), qs, p);
        NotRunnable(s.(qs := qs), p);
        assert false;
      }
    }
  }

  // ---------------------------------------------------------------- helpers

  lemma RepInTable(qt: seq<QEntry>, qs: Queues)
    requires Rep(qt, qs)
    ensures InTable(qt)
  {
  }

  lemma LevelBound(r: Run, p: nat)
    requires r.Legal() && p < NPROC
    ensures r.s.procs[p].queue < NUM_QUEUES
  {
    RunInv(r);
  }

  lemma RunScheduling(r: Run)
    requires r.Legal()
    ensures Scheduling(r.s, NPROC)
  {
    RunInv(r);
  }

  lemma FirstNode(qt: seq<QEntry>, qs: Queues, l: nat)
    requires Rep(qt, qs) && l < NUM_QUEUES
    ensures if qs[l] == [] then qt[Head(l)].next == Tail(l) else qt[Head(l)].next == qs[l][0] < NPROC
  {
    assert ListOk(qt, qs[l], l);
    JoinedAt(qt, qs[l], l, 0);
  }

  lemma NotRunnable(s: Sched, p: nat)
    requires Scheduling(s, NPROC) && p < NPROC && s.procs[p].state != Runnable
    ensures !Queued(s.qs, p)
  {
  }

  lemma NotQueued(r: Run, p: nat)
    requires r.Legal() && p < NPROC && r.s.procs[p].state != Runnable
    ensures !Queued(r.s.qs, p)
  {
    RunInv(r);
    NotRunnable(r.s, p);
  }

  lemma RequeuedNext(s: Sched, n: nat)
    requires Scheduling(s, NPROC) && n < NPROC
    ensures !Queued(Requeued(s, n).qs, n)
  {
    RequeuedScheduling(s, n);
  }

  lemma ForksTo(s: Sched, p: nat, fails: bool)
    requires Enabled(s, Fork(p, fails))
    ensures Do(s, Fork(p, fails)) == Forked(s, p, fails)
  {
  }

  lemma TakesRound(s: Sched)
    ensures Do(s, Round) == Dispatched(Boosted(s))
  {
  }
}
