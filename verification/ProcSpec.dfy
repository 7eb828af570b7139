/**
  The process table as a state machine: scheduling through three queues, sleeping and
  waking, forking, exiting and reaping.  Each step stands for what one call of proc.c does
  to the table while it holds the locks that it takes.
 */
module ProcSpec {
  import opened Collections
  import opened QueueTable

  datatype PState = Unused | Sleeping | Runnable | Running | Zombie

  datatype Proc = Proc(state: PState, chan: nat, pid: nat, parent: nat, nice: int, queue: nat, quanta: nat, killed: bool)

  type Table = t: seq<Proc> | |t| == NPROC witness seq(NPROC, i => Proc(Unused, 0, 0, NOBODY, 0, 0, 0, false))

  const INIT := 0             // the slot of the first process
  const NOBODY := NPROC       // a null proc pointer
  const BOOST := 60

  /** The address of a slot, as a sleep channel. */
  function ChanOf(p: nat): (c: nat) {
    p + 1
  }

  datatype Sched = Sched(procs: Table, qs: Queues, clock: nat, nextpid: nat)

  // ---------------------------------------------------------------- levels and quanta

  datatype Place = Place(level: nat, quanta: nat)

  /** enqueue's choice of queue, from nice, the last queue and the quanta used up. */
  function Chosen(nice: int, queue: nat, quanta: nat): (a: Place)
    ensures a.level < NUM_QUEUES
  {
    var want := if nice > 10 then 0 else if nice > -10 then 1 else 2;
    var q := if want < 2 && queue > want then 0 else quanta;
    if q > 15 && want == 0 then Place(1, 0)
    else if q > 10 && want == 1 then Place(2, 0)
    else if q > 1 && want == 2 then Place(2, 0)
    else Place(want, q)
  }

  /** The most quanta that a process waiting at a level has used up. */
  function Limit(level: nat): (n: nat) {
    if level == 0 then 15 else if level == 1 then 10 else 1
  }

  lemma ChosenWithinLimit(nice: int, queue: nat, quanta: nat)
    ensures Chosen(nice, queue, quanta).quanta <= Limit(Chosen(nice, queue, quanta).level)
  {
  }

  /** What one yield makes of a process's place. */
  function Yielded(nice: int, a: Place): (b: Place) {
    Chosen(nice, a.level, a.quanta + 1)
  }

  function Yields(nice: int, a: Place, n: nat): (b: Place) {
    if n == 0 then a else Yielded(nice, Yields(nice, a, n - 1))
  }

  /** The length of the cycle that a nice value leads to, and its places in order. */
  function Period(nice: int): (n: nat)
    ensures n > 0
  {
    if nice > 10 then 17 else if nice > -10 then 12 else 2
  }

  function OnCycle(nice: int, c: nat): (a: Place) {
    if nice > 10 then (if c < 16 then Place(0, c) else Place(1, 0))
    else if nice > -10 then (if c < 11 then Place(1, c) else Place(2, 0))
    else Place(2, c)
  }

  /** j places on, for at most one round of n. */
  function Wrap(c: nat, j: nat, n: nat): (d: nat) {
    if c + j < n then c + j else c + j - n
  }

  lemma YieldAdvances(nice: int, c: nat)
    requires c < Period(nice)
    ensures Yielded(nice, OnCycle(nice, c)) == OnCycle(nice, Wrap(c, 1, Period(nice)))
  {
  }

  lemma {:induction false} YieldsAdvance(nice: int, a: Place, k: nat, c: nat, m: nat)
    requires c < Period(nice) && Yields(nice, a, k) == OnCycle(nice, c) && k <= m <= k + Period(nice)
    ensures Yields(nice, a, m) == OnCycle(nice, Wrap(c, m - k, Period(nice)))
  {
    if m > k {
      YieldsAdvance(nice, a, k, c, m - 1);
      YieldAdvances(nice, Wrap(c, m - 1 - k, Period(nice)));
    }
  }

  /** One yield brings any place onto the cycle, and further ones keep it there. */
  lemma {:induction false} CyclePosition(nice: int, a: Place, k: nat) returns (c: nat)
    requires a.level < NUM_QUEUES && 1 <= k
    ensures c < Period(nice) && Yields(nice, a, k) == OnCycle(nice, c)
  {
    if k == 1 {
      var b := Yielded(nice, Yields(nice, a, 0));
      c := if nice > 10 then (if b.level == 0 then b.quanta else 16)
           else if nice > -10 then (if b.level == 1 then b.quanta else 11)
           else b.quanta;
    } else {
      var d := CyclePosition(nice, a, k - 1);
      YieldAdvances(nice, d);
      c := Wrap(d, 1, Period(nice));
    }
  }

  lemma CycleInjective(nice: int, c: nat, d: nat)
    requires c < Period(nice) && d < Period(nice) && c != d
    ensures OnCycle(nice, c) != OnCycle(nice, d)
  {
  }

  /** The level that a process has from its nice value alone. */
  function Own(nice: int): (l: nat) {
    if nice > 10 then 0 else if nice > -10 then 1 else 2
  }

  /** In the round of yields from the k-th on, only the m-th leads below level `own`. */
  ghost predicate OnlyDemotion(nice: int, a: Place, k: nat, own: nat, m: nat) {
    && k <= m < k + Period(nice) && Yields(nice, a, m).level == own + 1
    && forall i :: k <= i < k + Period(nice) && i != m ==> Yields(nice, a, i).level == own
  }

  /**
    With a fixed nice value and no boost, consecutive yields have least period 17, 12 or 2,
    and each round visits the level below the process's own exactly once, if there is one.
   */
  lemma YieldCycle(nice: int, a: Place, k: nat)
    requires a.level < NUM_QUEUES && 1 <= k
    ensures Yields(nice, a, k + Period(nice)) == Yields(nice, a, k)
    ensures forall m :: k < m < k + Period(nice) ==> Yields(nice, a, m) != Yields(nice, a, k)
    ensures nice > -10 ==> exists m :: OnlyDemotion(nice, a, k, Own(nice), m)
  {
    hide Yields;
    var c := CyclePosition(nice, a, k);
    var n := Period(nice);
    YieldsAdvance(nice, a, k, c, k + n);
    forall m | k <= m < k + n
      ensures Yields(nice, a, m) == OnCycle(nice, Wrap(c, m - k, n))
    {
      YieldsAdvance(nice, a, k, c, m);
    }
    forall m | k < m < k + n
      ensures Yields(nice, a, m) != Yields(nice, a, k)
    {
      CycleInjective(nice, Wrap(c, m - k, n), c);
    }
    if nice > -10 {
      var m := k + n - 1 - c;
      assert Yields(nice, a, m) == OnCycle(nice, n - 1);
      assert OnlyDemotion(nice, a, k, Own(nice), m);
    }
  }

  // ---------------------------------------------------------------- effects

  function WithProc(s: Sched, p: nat, r: Proc): (s': Sched)
    requires p < NPROC
  {
    s.(procs := s.procs[p := r])
  }

  /** enqueue(p) */
  function Enqueued(s: Sched, p: nat): (s': Sched)
    requires p < NPROC
  {
    var r := s.procs[p];
    var a := Chosen(r.nice, r.queue, r.quanta);
    s.(procs := s.procs[p := r.(queue := a.level, quanta := a.quanta)], qs := s.qs[a.level := s.qs[a.level] + [p]])
  }

  /** p->state = RUNNABLE; enqueue(p) */
  function Readied(s: Sched, p: nat): (s': Sched)
    requires p < NPROC
  {
    Enqueued(WithProc(s, p, s.procs[p].(state := Runnable)), p)
  }

  function Sleeps(s: Sched, p: nat, chan: nat): (b: bool)
    requires p < NPROC
  {
    s.procs[p].state == Sleeping && s.procs[p].chan == chan
  }

  /** wakeup(chan), called by me, after the first n slots. */
  function Woken(s: Sched, chan: nat, me: nat, n: nat): (s': Sched)
    requires n <= NPROC
  {
    if n == 0 then s
    else
      var s1 := Woken(s, chan, me, n - 1);
      if n - 1 != me && Sleeps(s1, n - 1, chan) then Readied(s1, n - 1) else s1
  }

  /** The boost's second loop, after the first n slots. */
  function Requeued(s: Sched, n: nat): (s': Sched)
    requires n <= NPROC
  {
    if n == 0 then s.(qs := [[], [], []])
    else
      var s1 := Requeued(s, n - 1);
      if s1.procs[n - 1].state == Runnable then Enqueued(s1, n - 1) else s1
  }

  function Boosted(s: Sched): (s': Sched) {
    if s.clock > BOOST then Requeued(s, NPROC).(clock := 0) else s
  }

  /** The level that dequeue takes from, NUM_QUEUES if every queue is empty. */
  function FirstLevel(qs: Queues): (l: nat)
    ensures l < NUM_QUEUES ==> qs[l] != []
    ensures forall m :: 0 <= m < l && m < NUM_QUEUES ==> qs[m] == []
  {
    if qs[0] != [] then 0 else if qs[1] != [] then 1 else if qs[2] != [] then 2 else 3
  }

  /** dequeue */
  function Dispatched(s: Sched): (s': Sched) {
    var l := FirstLevel(s.qs);
    if l == NUM_QUEUES || s.qs[l][0] >= NPROC then s
    else
      var p := s.qs[l][0];
      s.(procs := s.procs[p := s.procs[p].(state := Running)], qs := s.qs[l := s.qs[l][1..]])
  }

  /** The first unused slot, NPROC if there is none. */
  function FreeSlot(t: Table, from: nat): (p: nat)
    requires from <= NPROC
    ensures from <= p <= NPROC && (p < NPROC ==> t[p].state == Unused)
    ensures forall i :: from <= i < p ==> t[i].state != Unused
    decreases NPROC - from
  {
    if from == NPROC || t[from].state == Unused then from else FreeSlot(t, from + 1)
  }

  /** freeproc; queue and quanta stay as they were. */
  function Freed(r: Proc): (r': Proc) {
    r.(state := Unused, chan := 0, pid := 0, parent := NOBODY, nice := 0, killed := false)
  }

  /** fork by p; `fails` is a failure of an allocation for the child. */
  function Forked(s: Sched, p: nat, fails: bool): (s': Sched) {
    var np := FreeSlot(s.procs, 0);
    if np == NPROC then s
    else
      var s1 := s.(nextpid := s.nextpid + 1);
      if fails then WithProc(s1, np, Freed(s.procs[np]))
      else Readied(WithProc(s1, np, s.procs[np].(pid := s.nextpid, parent := p)), np)
  }

  /** reparent(p), after the first n slots. */
  function Adopted(s: Sched, p: nat, n: nat): (s': Sched)
    requires n <= NPROC
  {
    if n == 0 then s
    else
      var s1 := Adopted(s, p, n - 1);
      if s1.procs[n - 1].parent == p
      then Woken(WithProc(s1, n - 1, s1.procs[n - 1].(parent := INIT)), ChanOf(INIT), p, NPROC)
      else s1
  }

  /** exit by p */
  function Exited(s: Sched, p: nat): (s': Sched)
    requires p < NPROC
  {
    var s1 := Adopted(s, p, NPROC);
    var s2 := Woken(s1, ChanOf(s1.procs[p].parent), p, NPROC);
    WithProc(s2, p, s2.procs[p].(state := Zombie))
  }

  /** The first slot from `from` on with that pid, NPROC if there is none. */
  function FindPid(t: Table, pid: nat, from: nat): (p: nat)
    requires from <= NPROC
    ensures from <= p <= NPROC && (p < NPROC ==> t[p].pid == pid)
    decreases NPROC - from
  {
    if from == NPROC || t[from].pid == pid then from else FindPid(t, pid, from + 1)
  }

  /** kill(pid) */
  function Killed(s: Sched, pid: nat): (s': Sched) {
    var p := FindPid(s.procs, pid, 0);
    if p == NPROC then s
    else
      var s1 := WithProc(s, p, s.procs[p].(killed := true));
      if s1.procs[p].state == Sleeping then Readied(s1, p) else s1
  }

  // ---------------------------------------------------------------- steps

  datatype Step =
    | Yield(p: nat)
    | Nice(p: nat, inc: int)                  // sys_nice's assignment
    | Sleep(p: nat, chan: nat)                // on anything but a process
    | WaitSleep(p: nat)                       // wait finds no dead child and sleeps, under wait_lock throughout
    | Wakeup(me: nat, chan: nat)              // me is NOBODY in an interrupt without a process
    | Kill(pid: nat)
    | Fork(p: nat, fails: bool)
    | Exit(p: nat)
    | Reap(p: nat, child: nat)                // a successful wait
    | Round                                   // one turn of the scheduler's loop

  predicate Runs(s: Sched, p: nat) {
    p < NPROC && s.procs[p].state == Running
  }

  predicate HasChild(t: Table, p: nat) {
    exists c :: 0 <= c < NPROC && t[c].parent == p
  }

  predicate NoDeadChild(t: Table, p: nat) {
    forall c :: 0 <= c < NPROC && t[c].parent == p ==> t[c].state != Zombie
  }

  /** nice += inc, kept between -20 and 19. */
  function Reniced(nice: int, inc: int): (n: int)
    ensures -20 <= n <= 19
  {
    if nice + inc > 19 then 19 else if nice + inc < -20 then -20 else nice + inc
  }

  predicate Enabled(s: Sched, a: Step) {
    match a
    case Yield(p) => Runs(s, p)
    case Nice(p, inc) => Runs(s, p)
    case Sleep(p, chan) => Runs(s, p) && chan > NPROC
    case WaitSleep(p) => Runs(s, p) && !s.procs[p].killed && HasChild(s.procs, p) && NoDeadChild(s.procs, p)
    case Wakeup(me, chan) => true
    case Kill(pid) => true
    case Fork(p, fails) => Runs(s, p)
    case Exit(p) => Runs(s, p) && p != INIT
    case Reap(p, child) => Runs(s, p) && child < NPROC && s.procs[child].parent == p && s.procs[child].state == Zombie
    case Round => true
  }

  function Do(s: Sched, a: Step): (s': Sched)
    requires Enabled(s, a)
  {
    match a
    case Yield(p) =>
      Readied(WithProc(s.(clock := s.clock + 1), p, s.procs[p].(quanta := s.procs[p].quanta + 1)), p)
    case Nice(p, inc) => WithProc(s, p, s.procs[p].(nice := Reniced(s.procs[p].nice, inc)))
    case Sleep(p, chan) => WithProc(s, p, s.procs[p].(state := Sleeping, chan := chan))
    case WaitSleep(p) => WithProc(s, p, s.procs[p].(state := Sleeping, chan := ChanOf(p)))
    case Wakeup(me, chan) => Woken(s, chan, me, NPROC)
    case Kill(pid) => Killed(s, pid)
    case Fork(p, fails) => Forked(s, p, fails)
    case Exit(p) => Exited(s, p)
    case Reap(p, child) => WithProc(s, child, Freed(s.procs[child]))
    case Round => Dispatched(Boosted(s))
  }

  /** After userinit: one process, enqueued. */
  function Booted(): (s: Sched) {
    var blank := Proc(Unused, 0, 0, NOBODY, 0, 0, 0, false);
    Readied(Sched(seq(NPROC, i => if i == INIT then blank.(pid := 1) else blank), [[], [], []], 0, 2), INIT)
  }

  /** The states that some run reaches. */
  datatype Run = Start(s: Sched) | Then(before: Run, a: Step, s: Sched) {
    ghost predicate Legal() {
      match this
      case Start(s) => s == Booted()
      case Then(before, a, s) => before.Legal() && Enabled(before.s, a) && s == Do(before.s, a)
    }
  }

  // ---------------------------------------------------------------- queue invariant

  ghost predicate QueuesOk(qs: Queues) {
    && (forall l :: 0 <= l < NUM_QUEUES ==> Distinct(qs[l]) && forall k :: 0 <= k < |qs[l]| ==> qs[l][k] < NPROC)
    && (forall l, m, p :: 0 <= l < NUM_QUEUES && 0 <= m < NUM_QUEUES && p in qs[l] && p in qs[m] ==> l == m)
  }

  /** A waiting process knows its level, and has not used up its quanta there. */
  ghost predicate LevelLaw(s: Sched) {
    forall l, p :: 0 <= l < NUM_QUEUES && p in s.qs[l] ==> p < NPROC && s.procs[p].queue == l && s.procs[p].quanta <= Limit(l)
  }

  ghost predicate LevelsOk(t: Table) {
    forall p :: 0 <= p < NPROC ==> t[p].queue < NUM_QUEUES
  }

  /** Exactly the RUNNABLE processes below slot n are queued. */
  ghost predicate QueuedBelow(s: Sched, n: nat) {
    forall p: nat {:trigger Queued(s.qs, p)} :: Queued(s.qs, p) <==> p < n && p < NPROC && s.procs[p].state == Runnable
  }

  ghost predicate Scheduling(s: Sched, n: nat) {
    QueuesOk(s.qs) && LevelLaw(s) && LevelsOk(s.procs) && QueuedBelow(s, n)
  }

  /** Changes to a process that is not queued before or after. */
  lemma QuietStep(s: Sched, p: nat, r: Proc, n: nat)
    requires Scheduling(s, n) && p < NPROC && s.procs[p].state != Runnable && r.state != Runnable && r.queue < NUM_QUEUES
    ensures Scheduling(WithProc(s, p, r), n)
  {
    assert !Queued(s.qs, p);
  }

  /** Everyone but p is queued as the invariant says, and p is RUNNABLE but not yet queued. */
  ghost predicate Pending(s: Sched, p: nat, n: nat) {
    && QueuesOk(s.qs) && LevelLaw(s) && LevelsOk(s.procs) && p < NPROC && s.procs[p].state == Runnable && !Queued(s.qs, p)
    && forall x: nat {:trigger Queued(s.qs, x)} :: x != p ==> (Queued(s.qs, x) <==> x < n && x < NPROC && s.procs[x].state == Runnable)
  }

  lemma EnqueuedScheduling(s: Sched, p: nat, n: nat)
    requires Pending(s, p, n) && p < n
    ensures Scheduling(Enqueued(s, p), n)
  {
    hide QueuesOk, Chosen, Queued;
    var s' := Enqueued(s, p);
    var a := Chosen(s.procs[p].nice, s.procs[p].queue, s.procs[p].quanta);
    ChosenWithinLimit(s.procs[p].nice, s.procs[p].queue, s.procs[p].quanta);
    EnqueuedQueues(s.qs, a.level, p);
    forall x: nat
      ensures Queued(s'.qs, x) <==> x < n && x < NPROC && s'.procs[x].state == Runnable
    {
      assert x != p ==> (Queued(s.qs, x) <==> x < n && x < NPROC && s.procs[x].state == Runnable);
    }
  }

  lemma EnqueuedQueues(qs: Queues, l: nat, p: nat)
    requires QueuesOk(qs) && l < NUM_QUEUES && p < NPROC && !Queued(qs, p)
    ensures var qs' := qs[l := qs[l] + [p]];
            && QueuesOk(qs') && (forall x :: Queued(qs', x) <==> Queued(qs, x) || x == p)
            && (forall m, x :: 0 <= m < NUM_QUEUES ==> (x in qs'[m] <==> x in qs[m] || (m == l && x == p)))
            && (forall m :: 0 <= m < NUM_QUEUES ==> p !in qs[m])
  {
    var qs' := qs[l := qs[l] + [p]];
    assert p !in qs[0] && p !in qs[1] && p !in qs[2];
    forall m, x | 0 <= m < NUM_QUEUES
      ensures x in qs'[m] <==> x in qs[m] || (m == l && x == p)
    {
    }
    forall x: nat
      ensures Queued(qs', x) <==> Queued(qs, x) || x == p
    {
      assert x in qs'[0] <==> x in qs[0] || (0 == l && x == p);
      assert x in qs'[1] <==> x in qs[1] || (1 == l && x == p);
      assert x in qs'[2] <==> x in qs[2] || (2 == l && x == p);
    }
  }

  lemma ReadiedScheduling(s: Sched, p: nat)
    requires Scheduling(s, NPROC) && p < NPROC && s.procs[p].state != Runnable
    ensures Scheduling(Readied(s, p), NPROC)
  {
    assert !Queued(s.qs, p);
    EnqueuedScheduling(WithProc(s, p, s.procs[p].(state := Runnable)), p, NPROC);
  }

  lemma {:induction false} WokenScheduling(s: Sched, chan: nat, me: nat, n: nat)
    requires Scheduling(s, NPROC) && n <= NPROC
    ensures Scheduling(Woken(s, chan, me, n), NPROC)
  {
    if n > 0 {
      WokenScheduling(s, chan, me, n - 1);
      var s1 := Woken(s, chan, me, n - 1);
      if n - 1 != me && Sleeps(s1, n - 1, chan) {
        ReadiedScheduling(s1, n - 1);
      }
    }
  }

  lemma {:induction false} RequeuedScheduling(s: Sched, n: nat)
    requires Scheduling(s, NPROC) && n <= NPROC
    ensures Scheduling(Requeued(s, n), n)
    ensures forall p :: 0 <= p < NPROC ==> Requeued(s, n).procs[p].state == s.procs[p].state
  {
    if n == 0 {
    } else {
      RequeuedScheduling(s, n - 1);
      var s1 := Requeued(s, n - 1);
      if s1.procs[n - 1].state == Runnable {
        assert !Queued(s1.qs, n - 1);
        EnqueuedScheduling(s1, n - 1, n);
      }
    }
  }

  lemma DispatchedScheduling(s: Sched)
    requires Scheduling(s, NPROC)
    ensures Scheduling(Dispatched(s), NPROC)
  {
    hide QueuesOk, Queued;
    var l := FirstLevel(s.qs);
    if l < NUM_QUEUES {
      var p := s.qs[l][0];
      assert p in s.qs[l];
      DequeuedQueues(s.qs, l);
      var s' := Dispatched(s);
      forall x: nat
        ensures Queued(s'.qs, x) <==> x < NPROC && s'.procs[x].state == Runnable
      {
        assert Queued(s.qs, x) <==> x < NPROC && s.procs[x].state == Runnable;
      }
    }
  }

  lemma DequeuedQueues(qs: Queues, l: nat)
    requires QueuesOk(qs) && l < NUM_QUEUES && qs[l] != []
    ensures var qs' := qs[l := qs[l][1..]];
            && QueuesOk(qs') && (forall x :: Queued(qs', x) <==> Queued(qs, x) && x != qs[l][0])
            && (forall m, x :: 0 <= m < NUM_QUEUES ==> (x in qs'[m] <==> x in qs[m] && x != qs[l][0]))
  {
    var qs' := qs[l := qs[l][1..]];
    var p := qs[l][0];
    assert p in qs[l];
    forall m, x | 0 <= m < NUM_QUEUES
      ensures x in qs'[m] <==> x in qs[m] && x != p
    {
      if m == l {
        TailMembers(qs[l], x);
      }
    }
    forall x: nat
      ensures Queued(qs', x) <==> Queued(qs, x) && x != p
    {
      assert x in qs'[0] <==> x in qs[0] && x != p;
      assert x in qs'[1] <==> x in qs[1] && x != p;
      assert x in qs'[2] <==> x in qs[2] && x != p;
    }
  }

  lemma TailMembers(q: seq<nat>, x: nat)
    requires q != [] && Distinct(q)
    ensures x in q[1..] <==> x in q && x != q[0]
  {
    if x in q && x != q[0] {
      var i :| 0 <= i < |q| && q[i] == x;
      assert q[1..][i - 1] == x;
    }
  }

  // ---------------------------------------------------------------- process tree

  datatype Life = Gone | Live | Dead

  datatype KinEntry = KinEntry(pid: nat, parent: nat, life: Life)

  function KinOf(r: Proc): (e: KinEntry) {
    KinEntry(r.pid, r.parent, if r.state == Unused then Gone else if r.state == Zombie then Dead else Live)
  }

  /** What the process tree depends on. */
  ghost function Kin(t: Table): (k: seq<KinEntry>)
    ensures |k| == NPROC && forall i :: 0 <= i < NPROC ==> k[i] == KinOf(t[i])
  {
    seq(NPROC, i requires 0 <= i < NPROC => KinOf(t[i]))
  }

  /** A process has a live parent, older than itself; a free slot has none. */
  ghost predicate ParentOk(k: seq<KinEntry>, q: nat)
    requires |k| == NPROC && q < NPROC
  {
    if k[q].life == Gone then k[q].parent == NOBODY && k[q].pid == 0
    else if q == INIT then k[q] == KinEntry(1, NOBODY, Live)
    else k[q].parent < NPROC && k[k[q].parent].life == Live && k[k[q].parent].pid < k[q].pid && 1 < k[q].pid
  }

  ghost predicate TreeOk(k: seq<KinEntry>, nextpid: nat) {
    && |k| == NPROC && k[INIT].life == Live && 1 < nextpid
    && (forall q {:trigger ParentOk(k, q)} :: 0 <= q < NPROC ==> ParentOk(k, q))
    && (forall q :: 0 <= q < NPROC ==> k[q].pid < nextpid)
    && (forall p, q :: 0 <= p < q < NPROC && k[p].life != Gone ==> k[p].pid != k[q].pid)
  }

  /** A process sleeps on its own address, in wait, or on something that is no process. */
  ghost predicate ChannelOk(t: Table, p: nat)
    requires p < NPROC
  {
    t[p].state == Sleeping && t[p].chan <= NPROC ==> t[p].chan == ChanOf(p)
  }

  ghost predicate AsleepInWait(t: Table, p: nat)
    requires p < NPROC
  {
    t[p].state == Sleeping && t[p].chan == ChanOf(p)
  }

  /** A process asleep in wait has a child, and no dead one. */
  ghost predicate WaiterOk(t: Table, p: nat)
    requires p < NPROC
  {
    AsleepInWait(t, p) ==> HasChild(t, p) && NoDeadChild(t, p)
  }

  ghost predicate Waiting(t: Table) {
    && (forall p {:trigger ChannelOk(t, p)} :: 0 <= p < NPROC ==> ChannelOk(t, p))
    && (forall p {:trigger WaiterOk(t, p)} :: 0 <= p < NPROC ==> WaiterOk(t, p))
  }

  ghost predicate Inv(s: Sched) {
    Scheduling(s, NPROC) && TreeOk(Kin(s.procs), s.nextpid) && Waiting(s.procs)
  }

  lemma KinUpdate(t: Table, p: nat, r: Proc)
    requires p < NPROC
    ensures Kin(t[p := r]) == Kin(t)[p := KinOf(r)]
  {
  }

  lemma ReadiedKin(s: Sched, p: nat)
    requires p < NPROC && KinOf(s.procs[p]).life == Live
    ensures Kin(Readied(s, p).procs) == Kin(s.procs) && Readied(s, p).nextpid == s.nextpid
  {
    assert Kin(Readied(s, p).procs) == Kin(s.procs);
  }

  lemma {:induction false} WokenKin(s: Sched, chan: nat, me: nat, n: nat)
    requires n <= NPROC
    ensures Kin(Woken(s, chan, me, n).procs) == Kin(s.procs) && Woken(s, chan, me, n).nextpid == s.nextpid
  {
    if n > 0 {
      WokenKin(s, chan, me, n - 1);
      var s1 := Woken(s, chan, me, n - 1);
      if n - 1 != me && Sleeps(s1, n - 1, chan) {
        ReadiedKin(s1, n - 1);
      }
    }
  }

  lemma {:induction false} RequeuedKin(s: Sched, n: nat)
    requires n <= NPROC
    ensures Kin(Requeued(s, n).procs) == Kin(s.procs) && Requeued(s, n).nextpid == s.nextpid
  {
    if n > 0 {
      RequeuedKin(s, n - 1);
      assert Kin(Requeued(s, n).procs) == Kin(Requeued(s, n - 1).procs);
    }
  }

  /** The tree after reparenting the children of p to init and p's death. */
  ghost function Orphaned(k: seq<KinEntry>, p: nat): (k': seq<KinEntry>)
    requires |k| == NPROC && p < NPROC
    ensures |k'| == NPROC
  {
    seq(NPROC, i requires 0 <= i < NPROC =>
      KinEntry(k[i].pid, if k[i].parent == p then INIT else k[i].parent, if i == p then Dead else k[i].life))
  }

  lemma OrphanedTree(k: seq<KinEntry>, p: nat, nextpid: nat)
    requires TreeOk(k, nextpid) && p < NPROC && p != INIT && k[p].life == Live
    ensures TreeOk(Orphaned(k, p), nextpid)
  {
    var k' := Orphaned(k, p);
    assert ParentOk(k, INIT);
    forall q | 0 <= q < NPROC
      ensures ParentOk(k', q)
    {
      assert ParentOk(k, q);
    }
  }

  lemma ReapedTree(k: seq<KinEntry>, c: nat, nextpid: nat)
    requires TreeOk(k, nextpid) && c < NPROC && k[c].life == Dead
    ensures TreeOk(k[c := KinEntry(0, NOBODY, Gone)], nextpid)
  {
    var k' := k[c := KinEntry(0, NOBODY, Gone)];
    forall q | 0 <= q < NPROC
      ensures ParentOk(k', q) && (k[q].life != Gone ==> k[q].pid > 0)
    {
      assert ParentOk(k, q);
    }
  }

  lemma BornTree(k: seq<KinEntry>, p: nat, c: nat, nextpid: nat)
    requires TreeOk(k, nextpid) && c < NPROC && k[c].life == Gone && p < NPROC && k[p].life == Live
    ensures TreeOk(k[c := KinEntry(nextpid, p, Live)], nextpid + 1)
  {
    var k' := k[c := KinEntry(nextpid, p, Live)];
    forall q | 0 <= q < NPROC
      ensures ParentOk(k', q)
    {
      assert ParentOk(k, q);
    }
  }

  // ---------------------------------------------------------------- every step keeps the invariant

  lemma BoostedScheduling(s: Sched)
    requires Scheduling(s, NPROC)
    ensures Scheduling(Boosted(s), NPROC)
  {
    RequeuedScheduling(s, NPROC);
  }

  lemma ForkedScheduling(s: Sched, p: nat, fails: bool)
    requires Scheduling(s, NPROC)
    ensures Scheduling(Forked(s, p, fails), NPROC)
  {
    var np := FreeSlot(s.procs, 0);
    if np < NPROC {
      var s1 := s.(nextpid := s.nextpid + 1);
      if fails {
        QuietStep(s1, np, Freed(s.procs[np]), NPROC);
      } else {
        QuietStep(s1, np, s.procs[np].(pid := s.nextpid, parent := p), NPROC);
        ReadiedScheduling(WithProc(s1, np, s.procs[np].(pid := s.nextpid, parent := p)), np);
      }
    }
  }

  lemma KilledScheduling(s: Sched, pid: nat)
    requires Scheduling(s, NPROC)
    ensures Scheduling(Killed(s, pid), NPROC)
  {
    var p := FindPid(s.procs, pid, 0);
    if p < NPROC {
      MarkedScheduling(s, p, s.procs[p].(killed := true));
      var s1 := WithProc(s, p, s.procs[p].(killed := true));
      if s1.procs[p].state == Sleeping {
        ReadiedScheduling(s1, p);
      }
    }
  }

  /** A change that leaves state, queue and quanta alone. */
  lemma MarkedScheduling(s: Sched, p: nat, r: Proc)
    requires Scheduling(s, NPROC) && p < NPROC
    requires r.state == s.procs[p].state && r.queue == s.procs[p].queue && r.quanta == s.procs[p].quanta
    ensures Scheduling(WithProc(s, p, r), NPROC)
  {
    var s' := WithProc(s, p, r);
    forall x: nat
      ensures Queued(s'.qs, x) <==> x < NPROC && s'.procs[x].state == Runnable
    {
      assert Queued(s.qs, x) <==> x < NPROC && s.procs[x].state == Runnable;
    }
  }

  /** Waking others leaves the caller running. */
  lemma {:induction false} WokenCaller(s: Sched, chan: nat, me: nat, n: nat)
    requires me < NPROC && n <= NPROC
    ensures Woken(s, chan, me, n).procs[me] == s.procs[me]
  {
    if n > 0 {
      WokenCaller(s, chan, me, n - 1);
    }
  }

  lemma {:induction false} AdoptedScheduling(s: Sched, p: nat, n: nat)
    requires Scheduling(s, NPROC) && n <= NPROC
    ensures Scheduling(Adopted(s, p, n), NPROC)
  {
    hide Scheduling, Woken;
    if n > 0 {
      var s1 := Adopted(s, p, n - 1);
      AdoptedScheduling(s, p, n - 1);
      MarkedScheduling(s1, n - 1, s1.procs[n - 1].(parent := INIT));
      WokenScheduling(WithProc(s1, n - 1, s1.procs[n - 1].(parent := INIT)), ChanOf(INIT), p, NPROC);
    }
  }

  /** The tree after reparenting the children of p among the first n slots. */
  ghost function Handed(k: seq<KinEntry>, p: nat, n: nat): (k': seq<KinEntry>)
    requires |k| == NPROC
    ensures |k'| == NPROC
  {
    seq(NPROC, i requires 0 <= i < NPROC => if i < n && k[i].parent == p then k[i].(parent := INIT) else k[i])
  }

  lemma {:induction false} AdoptedKin(s: Sched, p: nat, n: nat)
    requires n <= NPROC && p < NPROC
    ensures Kin(Adopted(s, p, n).procs) == Handed(Kin(s.procs), p, n) && Adopted(s, p, n).nextpid == s.nextpid
    ensures Adopted(s, p, n).procs[p].state == s.procs[p].state
  {
    hide Woken;
    if n == 0 {
      assert Handed(Kin(s.procs), p, 0) == Kin(s.procs);
    } else {
      var s1 := Adopted(s, p, n - 1);
      AdoptedKin(s, p, n - 1);
      var r := s1.procs[n - 1].(parent := INIT);
      KinUpdate(s1.procs, n - 1, r);
      WokenKin(WithProc(s1, n - 1, r), ChanOf(INIT), p, NPROC);
      WokenCaller(WithProc(s1, n - 1, r), ChanOf(INIT), p, NPROC);
      assert Kin(s1.procs)[n - 1] == KinOf(s1.procs[n - 1]);
      assert Kin(Adopted(s, p, n).procs) == Handed(Kin(s.procs), p, n);
    }
  }

  lemma ExitedScheduling(s: Sched, p: nat)
    requires Scheduling(s, NPROC) && Runs(s, p)
    ensures Scheduling(Exited(s, p), NPROC)
    ensures Kin(Exited(s, p).procs) == Orphaned(Kin(s.procs), p) && Exited(s, p).nextpid == s.nextpid
  {
    hide Scheduling, Woken, Adopted;
    var s1 := Adopted(s, p, NPROC);
    AdoptedScheduling(s, p, NPROC);
    AdoptedKin(s, p, NPROC);
    var chan := ChanOf(s1.procs[p].parent);
    WokenScheduling(s1, chan, p, NPROC);
    WokenKin(s1, chan, p, NPROC);
    WokenCaller(s1, chan, p, NPROC);
    var s2 := Woken(s1, chan, p, NPROC);
    DiesScheduling(s2, p);
    KinUpdate(s2.procs, p, s2.procs[p].(state := Zombie));
    assert Handed(Kin(s.procs), p, NPROC)[p := KinOf(s2.procs[p].(state := Zombie))] == Orphaned(Kin(s.procs), p) by {
      assert Kin(s2.procs)[p] == KinOf(s2.procs[p]);
    }
  }

  lemma DiesScheduling(s: Sched, p: nat)
    requires Scheduling(s, NPROC) && p < NPROC && s.procs[p].state != Runnable
    ensures Scheduling(WithProc(s, p, s.procs[p].(state := Zombie)), NPROC)
  {
    QuietStep(s, p, s.procs[p].(state := Zombie), NPROC);
  }

  lemma YieldScheduling(s: Sched, p: nat)
    requires Scheduling(s, NPROC) && Runs(s, p)
    ensures Scheduling(Do(s, Yield(p)), NPROC)
  {
    var r := s.procs[p].(quanta := s.procs[p].quanta + 1);
    var s1 := s.(clock := s.clock + 1);
    QuietStep(s1, p, r, NPROC);
    ReadiedScheduling(WithProc(s1, p, r), p);
  }

  lemma StepScheduling(s: Sched, a: Step)
    requires Scheduling(s, NPROC) && Enabled(s, a)
    ensures Scheduling(Do(s, a), NPROC)
  {
    hide Scheduling;
    match a
    case Yield(p) => YieldScheduling(s, p);
    case Nice(p, inc) => MarkedScheduling(s, p, s.procs[p].(nice := Reniced(s.procs[p].nice, inc)));
    case Sleep(p, chan) => SleepScheduling(s, p, chan);
    case WaitSleep(p) => SleepScheduling(s, p, ChanOf(p));
    case Wakeup(me, chan) => WokenScheduling(s, chan, me, NPROC);
    case Kill(pid) => KilledScheduling(s, pid);
    case Fork(p, fails) => ForkedScheduling(s, p, fails);
    case Exit(p) => ExitedScheduling(s, p);
    case Reap(p, child) => ReapScheduling(s, child);
    case Round =>
      BoostedScheduling(s);
      DispatchedScheduling(Boosted(s));
  }

  lemma SleepScheduling(s: Sched, p: nat, chan: nat)
    requires Scheduling(s, NPROC) && Runs(s, p)
    ensures Scheduling(WithProc(s, p, s.procs[p].(state := Sleeping, chan := chan)), NPROC)
  {
    QuietStep(s, p, s.procs[p].(state := Sleeping, chan := chan), NPROC);
  }

  lemma ReapScheduling(s: Sched, child: nat)
    requires Scheduling(s, NPROC) && child < NPROC && s.procs[child].state == Zombie
    ensures Scheduling(WithProc(s, child, Freed(s.procs[child])), NPROC)
  {
    QuietStep(s, child, Freed(s.procs[child]), NPROC);
  }

  // ---------------------------------------------------------------- every run

  /** What a step does to the process tree. */
  ghost function KinAfter(s: Sched, a: Step): (k: seq<KinEntry>)
    requires Enabled(s, a)
  {
    var k := Kin(s.procs);
    match a
    case Fork(p, fails) =>
      var np := FreeSlot(s.procs, 0);
      if np == NPROC then k else if fails then k[np := KinEntry(0, NOBODY, Gone)] else k[np := KinEntry(s.nextpid, p, Live)]
    case Exit(p) => Orphaned(k, p)
    case Reap(p, child) => k[child := KinEntry(0, NOBODY, Gone)]
    case _ => k
  }

  lemma StepKin(s: Sched, a: Step)
    requires Scheduling(s, NPROC) && Enabled(s, a)
    ensures Kin(Do(s, a).procs) == KinAfter(s, a)
    ensures Do(s, a).nextpid == if a.Fork? && FreeSlot(s.procs, 0) < NPROC then s.nextpid + 1 else s.nextpid
  {
    hide Scheduling, Woken, Requeued, Kin;
    match a
    case Yield(p) =>
      KinUpdate(s.procs, p, s.procs[p].(quanta := s.procs[p].quanta + 1));
      ReadiedKin(WithProc(s.(clock := s.clock + 1), p, s.procs[p].(quanta := s.procs[p].quanta + 1)), p);
    case Nice(p, inc) => KinUpdate(s.procs, p, s.procs[p].(nice := Reniced(s.procs[p].nice, inc)));
    case Sleep(p, chan) => KinUpdate(s.procs, p, s.procs[p].(state := Sleeping, chan := chan));
    case WaitSleep(p) => KinUpdate(s.procs, p, s.procs[p].(state := Sleeping, chan := ChanOf(p)));
    case Wakeup(me, chan) => WokenKin(s, chan, me, NPROC);
    case Kill(pid) => KilledKin(s, pid);
    case Fork(p, fails) => ForkedKin(s, p, fails);
    case Exit(p) => ExitedScheduling(s, p);
    case Reap(p, child) => KinUpdate(s.procs, child, Freed(s.procs[child]));
    case Round =>
      RequeuedKin(s, NPROC);
      BoostedScheduling(s);
      DispatchedKin(Boosted(s));
  }

  lemma KilledKin(s: Sched, pid: nat)
    ensures Kin(Killed(s, pid).procs) == Kin(s.procs) && Killed(s, pid).nextpid == s.nextpid
  {
    assert Kin(Killed(s, pid).procs) == Kin(s.procs);
  }

  lemma ForkedKin(s: Sched, p: nat, fails: bool)
    requires Runs(s, p)
    ensures Kin(Forked(s, p, fails).procs) == KinAfter(s, Fork(p, fails))
  {
    assert Kin(Forked(s, p, fails).procs) == KinAfter(s, Fork(p, fails));
  }

  lemma DispatchedKin(s: Sched)
    requires Scheduling(s, NPROC)
    ensures Kin(Dispatched(s).procs) == Kin(s.procs) && Dispatched(s).nextpid == s.nextpid
  {
    var l := FirstLevel(s.qs);
    if l < NUM_QUEUES {
      assert Queued(s.qs, s.qs[l][0]);
    }
    assert Kin(Dispatched(s).procs) == Kin(s.procs);
  }

  // ---------------------------------------------------------------- wait and exit

  ghost predicate ChannelsOk(t: Table) {
    forall p {:trigger ChannelOk(t, p)} :: 0 <= p < NPROC ==> ChannelOk(t, p)
  }

  lemma ChannelsKnown(t: Table)
    requires Waiting(t)
    ensures ChannelsOk(t)
  {
  }

  /** A wakeup on a process's address wakes at most that process. */
  lemma {:induction false} WakesOne(s: Sched, x: nat, me: nat, n: nat)
    requires ChannelsOk(s.procs) && x < NPROC && n <= NPROC
    ensures Woken(s, ChanOf(x), me, n) == if x < n && x != me && AsleepInWait(s.procs, x) then Readied(s, x) else s
  {
    hide Chosen;
    if n > 0 {
      WakesOne(s, x, me, n - 1);
      assert ChannelOk(s.procs, n - 1);
    }
  }

  /** The table after the children of p among the first n slots went to init. */
  function HandedTable(t: Table, p: nat, n: nat): (t': Table)
    ensures forall i :: 0 <= i < NPROC ==> t'[i] == if i < n && t[i].parent == p then t[i].(parent := INIT) else t[i]
  {
    seq(NPROC, i requires 0 <= i < NPROC => if i < n && t[i].parent == p then t[i].(parent := INIT) else t[i])
  }

  ghost predicate ChildBelow(t: Table, p: nat, n: nat) {
    exists c :: 0 <= c < n && c < NPROC && t[c].parent == p
  }

  /** reparent(p) in one go: init is readied if it waits and p has a child among the first n slots. */
  ghost function Orphans(s: Sched, p: nat, n: nat): (s': Sched) {
    var s1 := s.(procs := HandedTable(s.procs, p, n));
    if AsleepInWait(s.procs, INIT) && ChildBelow(s.procs, p, n) then Readied(s1, INIT) else s1
  }

  lemma ReadiedCommutes(s: Sched, x: nat, c: nat)
    requires x < NPROC && c < NPROC
    ensures var s1 := Readied(s, x);
            WithProc(s1, c, s1.procs[c].(parent := INIT)) == Readied(WithProc(s, c, s.procs[c].(parent := INIT)), x)
  {
    hide Chosen;
    var s1 := Readied(s, x);
    assert s1.procs[c := s1.procs[c].(parent := INIT)] == Readied(WithProc(s, c, s.procs[c].(parent := INIT)), x).procs;
  }

  lemma {:induction false} AdoptedIs(s: Sched, p: nat, n: nat)
    requires ChannelsOk(s.procs) && p < NPROC && p != INIT && n <= NPROC
    ensures Adopted(s, p, n) == Orphans(s, p, n)
  {
    hide Chosen, Woken;
    if n == 0 {
      assert HandedTable(s.procs, p, 0) == s.procs;
    } else {
      AdoptedIs(s, p, n - 1);
      var c := n - 1;
      var s1 := Orphans(s, p, c);
      if s.procs[c].parent == p {
        var w := WithProc(s1, c, s1.procs[c].(parent := INIT));
        ChannelsOf(s, w);
        WakesOne(w, INIT, p, NPROC);
        assert HandedTable(s.procs, p, c)[c := s.procs[c].(parent := INIT)] == HandedTable(s.procs, p, n);
        ReadiedCommutes(s.(procs := HandedTable(s.procs, p, c)), INIT, c);
      } else {
        assert HandedTable(s.procs, p, n) == HandedTable(s.procs, p, c);
      }
    }
  }

  lemma ChannelsOf(s: Sched, s': Sched)
    requires ChannelsOk(s.procs)
    requires forall q :: 0 <= q < NPROC && s'.procs[q].state == Sleeping ==> s.procs[q].state == Sleeping && s'.procs[q].chan == s.procs[q].chan
    ensures ChannelsOk(s'.procs)
  {
    forall q | 0 <= q < NPROC
      ensures ChannelOk(s'.procs, q)
    {
      assert ChannelOk(s.procs, q);
    }
  }

  ghost predicate WakesParent(s: Sched, p: nat, q: nat) {
    q < NPROC && q != p && AsleepInWait(s.procs, q)
  }

  /** exit: init is readied if it waits and gets a child, then the parent if it waits, and the process is dead. */
  lemma ExitedIs(s: Sched, p: nat)
    requires ChannelsOk(s.procs) && Runs(s, p) && p != INIT && s.procs[p].parent < NPROC && s.procs[p].parent != p
    ensures var s1, q := Orphans(s, p, NPROC), s.procs[p].parent;
            var s2 := if WakesParent(s1, p, q) then Readied(s1, q) else s1;
            Exited(s, p) == WithProc(s2, p, s2.procs[p].(state := Zombie))
  {
    hide Adopted, Woken, Chosen;
    AdoptedIs(s, p, NPROC);
    var s1 := Orphans(s, p, NPROC);
    ChannelsOf(s, s1);
    WakesOne(s1, s.procs[p].parent, p, NPROC);
  }

  /** Which slots an exit changes, and how. */
  lemma ExitedSlots(s: Sched, p: nat)
    requires ChannelsOk(s.procs) && Runs(s, p) && p != INIT && s.procs[p].parent < NPROC && s.procs[p].parent != p
    ensures var t, t' := s.procs, Exited(s, p).procs;
            && t'[p].state == Zombie && !AsleepInWait(t', t[p].parent) && (HasChild(t, p) ==> !AsleepInWait(t', INIT))
            && (forall q :: 0 <= q < NPROC ==> t'[q].parent == if t[q].parent == p then INIT else t[q].parent)
            && (forall q :: 0 <= q < NPROC && q != p && t'[q].state == Zombie ==> t[q].state == Zombie)
            && (forall q :: 0 <= q < NPROC && t'[q].state == Sleeping ==> t[q].state == Sleeping && t'[q].chan == t[q].chan)
  {
    hide Adopted, Woken, Chosen;
    ExitedIs(s, p);
  }

  lemma ExitWaiting(s: Sched, p: nat)
    requires Waiting(s.procs) && Runs(s, p) && p != INIT && s.procs[p].parent < NPROC && s.procs[p].parent != p
    ensures Waiting(Exited(s, p).procs)
  {
    hide Exited;
    ChannelsKnown(s.procs);
    ExitedSlots(s, p);
    var t, t' := s.procs, Exited(s, p).procs;
    forall q | 0 <= q < NPROC
      ensures ChannelOk(t', q) && WaiterOk(t', q)
    {
      assert ChannelOk(t, q) && WaiterOk(t, q);
      if AsleepInWait(t', q) {
        var c :| 0 <= c < NPROC && t[c].parent == q;
        assert t'[c].parent == q;
      }
    }
  }

  /** Nobody falls asleep, nobody dies, and no parent changes. */
  lemma CalmWaiting(t: Table, t': Table)
    requires Waiting(t)
    requires forall q :: 0 <= q < NPROC ==> t'[q].parent == t[q].parent && (t'[q].state == Zombie ==> t[q].state == Zombie)
    requires forall q :: 0 <= q < NPROC && t'[q].state == Sleeping ==> t[q].state == Sleeping && t'[q].chan == t[q].chan
    ensures Waiting(t')
  {
    forall q | 0 <= q < NPROC
      ensures ChannelOk(t', q) && WaiterOk(t', q)
    {
      assert ChannelOk(t, q) && WaiterOk(t, q);
      if AsleepInWait(t', q) {
        var c :| 0 <= c < NPROC && t[c].parent == q;
        assert t'[c].parent == q;
      }
    }
  }

  /** Slot c, which is not asleep afterwards, changes hands between processes that are not asleep. */
  lemma SlotWaiting(t: Table, c: nat, r: Proc)
    requires Waiting(t) && c < NPROC && r.state != Zombie && r.state != Sleeping
    requires t[c].parent < NPROC ==> t[t[c].parent].state != Sleeping
    requires r.parent < NPROC ==> t[r.parent].state != Sleeping
    ensures Waiting(t[c := r])
  {
    var t' := t[c := r];
    forall q | 0 <= q < NPROC
      ensures ChannelOk(t', q) && WaiterOk(t', q)
    {
      assert ChannelOk(t, q) && WaiterOk(t, q);
      if AsleepInWait(t', q) {
        var d :| 0 <= d < NPROC && t[d].parent == q;
        assert t'[d].parent == q;
      }
    }
  }

  lemma SleepWaiting(t: Table, p: nat, chan: nat)
    requires Waiting(t) && p < NPROC && t[p].state != Zombie
    requires chan > NPROC || (chan == ChanOf(p) && HasChild(t, p) && NoDeadChild(t, p))
    ensures Waiting(t[p := t[p].(state := Sleeping, chan := chan)])
  {
    var t' := t[p := t[p].(state := Sleeping, chan := chan)];
    forall q | 0 <= q < NPROC
      ensures ChannelOk(t', q) && WaiterOk(t', q)
    {
      assert ChannelOk(t, q) && WaiterOk(t, q);
      if AsleepInWait(t', q) {
        var d :| 0 <= d < NPROC && t[d].parent == q;
        assert t'[d].parent == q;
      }
    }
  }

  lemma {:induction false} WokenSlots(s: Sched, chan: nat, me: nat, n: nat)
    requires n <= NPROC
    ensures var t, t' := s.procs, Woken(s, chan, me, n).procs;
            && (forall q :: 0 <= q < NPROC ==> t'[q].parent == t[q].parent && (t'[q].state == Zombie ==> t[q].state == Zombie))
            && (forall q :: 0 <= q < NPROC && t'[q].state == Sleeping ==> t[q].state == Sleeping && t'[q].chan == t[q].chan)
  {
    hide Chosen;
    if n > 0 {
      WokenSlots(s, chan, me, n - 1);
    }
  }

  lemma {:induction false} RequeuedSlots(s: Sched, n: nat)
    requires n <= NPROC
    ensures forall q :: 0 <= q < NPROC ==>
              var r, r' := s.procs[q], Requeued(s, n).procs[q]; r'.parent == r.parent && r'.state == r.state && r'.chan == r.chan
  {
    hide Chosen;
    if n > 0 {
      RequeuedSlots(s, n - 1);
    }
  }

  lemma StepWaiting(s: Sched, a: Step)
    requires Inv(s) && Enabled(s, a)
    ensures Waiting(Do(s, a).procs)
  {
    hide Scheduling, TreeOk, Woken, Requeued, Chosen, Adopted, Waiting, Exited;
    match a
    case Yield(p) => CalmWaiting(s.procs, Do(s, a).procs);
    case Nice(p, inc) => CalmWaiting(s.procs, Do(s, a).procs);
    case Sleep(p, chan) => SleepWaiting(s.procs, p, chan);
    case WaitSleep(p) => SleepWaiting(s.procs, p, ChanOf(p));
    case Wakeup(me, chan) =>
      WokenSlots(s, chan, me, NPROC);
      CalmWaiting(s.procs, Do(s, a).procs);
    case Kill(pid) => CalmWaiting(s.procs, Do(s, a).procs);
    case Fork(p, fails) => ForkWaiting(s, p, fails);
    case Exit(p) =>
      HasParent(s, p);
      ExitWaiting(s, p);
    case Reap(p, child) => SlotWaiting(s.procs, child, Freed(s.procs[child]));
    case Round =>
      RequeuedSlots(s, NPROC);
      CalmWaiting(s.procs, Do(s, a).procs);
  }

  lemma HasParent(s: Sched, p: nat)
    requires Inv(s) && p < NPROC && p != INIT && s.procs[p].state != Unused
    ensures s.procs[p].parent < NPROC && s.procs[p].parent != p
  {
    hide Scheduling, Waiting;
    assert ParentOk(Kin(s.procs), p) && Kin(s.procs)[p] == KinOf(s.procs[p]);
  }

  lemma ForkWaiting(s: Sched, p: nat, fails: bool)
    requires Inv(s) && Runs(s, p)
    ensures Waiting(Forked(s, p, fails).procs)
  {
    hide Scheduling, Waiting, Chosen;
    var np := FreeSlot(s.procs, 0);
    if np < NPROC {
      assert ParentOk(Kin(s.procs), np) && Kin(s.procs)[np] == KinOf(s.procs[np]);
      SlotWaiting(s.procs, np, Forked(s, p, fails).procs[np]);
      assert Forked(s, p, fails).procs == s.procs[np := Forked(s, p, fails).procs[np]];
    }
  }

  /** No wakeup is lost between exit and wait: in every reachable state a process asleep in wait has a child, and none that is dead. */
  lemma WaitersHaveLiveChildren(r: Run, p: nat)
    requires r.Legal() && p < NPROC && AsleepInWait(r.s.procs, p)
    ensures HasChild(r.s.procs, p) && NoDeadChild(r.s.procs, p)
  {
    hide Scheduling, TreeOk;
    RunInv(r);
    assert WaiterOk(r.s.procs, p);
  }

  /** Process p went to sleep last in wait. */
  ghost predicate InWait(r: Run, p: nat) {
    r.Then? && (r.a == WaitSleep(p) || (!(r.a.Sleep? && r.a.p == p) && InWait(r.before, p)))
  }

  /** A process that sleeps has slept since its last call of sleep, on the same channel. */
  lemma StepSleeping(s: Sched, a: Step, p: nat)
    requires Inv(s) && Enabled(s, a) && p < NPROC && Do(s, a).procs[p].state == Sleeping && a != WaitSleep(p) && !(a.Sleep? && a.p == p)
    ensures s.procs[p].state == Sleeping && Do(s, a).procs[p].chan == s.procs[p].chan
  {
    hide Scheduling, TreeOk, Woken, Requeued, Chosen, Adopted, Exited;
    match a
    case Wakeup(me, chan) => WokenSlots(s, chan, me, NPROC);
    case Exit(x) => ExitSleeping(s, x);
    case Round => RequeuedSlots(s, NPROC);
    case _ =>
  }

  lemma ExitSleeping(s: Sched, p: nat)
    requires Inv(s) && Enabled(s, Exit(p))
    ensures forall q :: 0 <= q < NPROC && Exited(s, p).procs[q].state == Sleeping ==>
              s.procs[q].state == Sleeping && Exited(s, p).procs[q].chan == s.procs[q].chan
  {
    hide Exited, Scheduling;
    HasParent(s, p);
    ChannelsKnown(s.procs);
    ExitedSlots(s, p);
  }

  lemma {:induction false} InWaitChannel(r: Run, p: nat)
    requires r.Legal() && p < NPROC && r.s.procs[p].state == Sleeping
    ensures InWait(r, p) <==> AsleepInWait(r.s.procs, p)
  {
    hide Inv, Exited, Woken, Requeued, Chosen, Adopted, Killed, Forked, Readied, Dispatched, Boosted;
    if r.Then? {
      RunInv(r.before);
      if r.a != WaitSleep(p) && !(r.a.Sleep? && r.a.p == p) {
        StepSleeping(r.before.s, r.a, p);
        InWaitChannel(r.before, p);
      }
    } else {
      BootAwake(p);
    }
  }

  lemma BootAwake(p: nat)
    requires p < NPROC
    ensures Booted().procs[p].state != Sleeping
  {
  }

  /** A process that sleeps, and last did so in wait, has a child and none that is dead. */
  lemma WaitersWoken(r: Run, p: nat)
    requires r.Legal() && p < NPROC && r.s.procs[p].state == Sleeping && InWait(r, p)
    ensures HasChild(r.s.procs, p) && NoDeadChild(r.s.procs, p)
  {
    InWaitChannel(r, p);
    WaitersHaveLiveChildren(r, p);
  }

  lemma StepInv(s: Sched, a: Step)
    requires Inv(s) && Enabled(s, a)
    ensures Inv(Do(s, a))
  {
    hide Scheduling, TreeOk, Do, Waiting;
    StepScheduling(s, a);
    StepKin(s, a);
    StepTree(s, a);
    StepWaiting(s, a);
  }

  lemma StepTree(s: Sched, a: Step)
    requires Inv(s) && Enabled(s, a)
    ensures TreeOk(KinAfter(s, a), if a.Fork? && FreeSlot(s.procs, 0) < NPROC then s.nextpid + 1 else s.nextpid)
  {
    hide Scheduling, TreeOk, Orphaned;
    var k := Kin(s.procs);
    if a.Exit? {
      OrphanedTree(k, a.p, s.nextpid);
    } else if a.Reap? {
      ReapedTree(k, a.child, s.nextpid);
    } else if a.Fork? && FreeSlot(s.procs, 0) < NPROC {
      if a.fails {
        UnbornTree(k, FreeSlot(s.procs, 0), s.nextpid);
      } else {
        BornTree(k, a.p, FreeSlot(s.procs, 0), s.nextpid);
      }
    }
  }

  lemma UnbornTree(k: seq<KinEntry>, c: nat, nextpid: nat)
    requires TreeOk(k, nextpid) && c < NPROC && k[c].life == Gone
    ensures TreeOk(k[c := KinEntry(0, NOBODY, Gone)], nextpid + 1)
  {
    assert ParentOk(k, c);
    assert k[c := KinEntry(0, NOBODY, Gone)] == k;
  }

  lemma BootedInv()
    ensures Inv(Booted())
  {
    var blank := Proc(Unused, 0, 0, NOBODY, 0, 0, 0, false);
    var s := Sched(seq(NPROC, i => if i == INIT then blank.(pid := 1) else blank), [[], [], []], 0, 2);
    ReadiedScheduling(s, INIT);
    var k := Kin(Booted().procs);
    forall q | 0 <= q < NPROC
      ensures ParentOk(k, q)
    {
    }
  }

  /** In every reachable state the queues hold exactly the RUNNABLE processes, and the process tree is sound. */
  lemma {:induction false} RunInv(r: Run)
    requires r.Legal()
    ensures Inv(r.s)
  {
    match r
    case Start(s) => BootedInv();
    case Then(before, a, s) =>
      RunInv(before);
      StepInv(before.s, a);
  }

  /** p is at position i of queue l. */
  ghost predicate Waits(qs: Queues, l: nat, i: nat, p: nat) {
    l < NUM_QUEUES && i < |qs[l]| && qs[l][i] == p
  }

  /** A RUNNABLE process is in exactly one place of exactly one queue, any other in none. */
  lemma RunnableOnce(r: Run, p: nat)
    requires r.Legal() && p < NPROC
    ensures r.s.procs[p].state == Runnable <==> exists l, i :: Waits(r.s.qs, l, i, p)
    ensures forall l, i, m, j :: Waits(r.s.qs, l, i, p) && Waits(r.s.qs, m, j, p) ==> l == m && i == j
    ensures forall l, i :: Waits(r.s.qs, l, i, p) ==> r.s.procs[p].queue == l && r.s.procs[p].quanta <= Limit(l)
  {
    hide Scheduling, Waits, TreeOk;
    RunInv(r);
    WaitsSomewhere(r.s, p);
    WaitsOnce(r.s, p);
  }

  lemma WaitsSomewhere(s: Sched, p: nat)
    requires Scheduling(s, NPROC) && p < NPROC
    ensures s.procs[p].state == Runnable <==> exists l, i :: Waits(s.qs, l, i, p)
  {
    assert Queued(s.qs, p) <==> s.procs[p].state == Runnable;
    if Queued(s.qs, p) {
      var l: nat :| l < NUM_QUEUES && p in s.qs[l];
      var i :| 0 <= i < |s.qs[l]| && s.qs[l][i] == p;
      assert Waits(s.qs, l, i, p);
    }
    if l: nat, i: nat :| Waits(s.qs, l, i, p) {
      assert p in s.qs[l] && Queued(s.qs, p);
    }
  }

  lemma WaitsOnce(s: Sched, p: nat)
    requires Scheduling(s, NPROC)
    ensures forall l, i, m, j :: Waits(s.qs, l, i, p) && Waits(s.qs, m, j, p) ==> l == m && i == j
    ensures forall l, i :: Waits(s.qs, l, i, p) ==> p < NPROC && s.procs[p].queue == l && s.procs[p].quanta <= Limit(l)
  {
    hide QueuedBelow;
    forall l: nat, i: nat | Waits(s.qs, l, i, p)
      ensures p in s.qs[l]
    {
    }
    forall l: nat, i: nat, m: nat, j: nat | Waits(s.qs, l, i, p) && Waits(s.qs, m, j, p)
      ensures l == m && i == j
    {
      assert p in s.qs[l] && p in s.qs[m];
    }
  }

  // ---------------------------------------------------------------- first in, first out

  /** The processes among the first n slots that become RUNNABLE at level l, in slot order. */
  ghost function ArrivedBelow(t: Table, t': Table, l: nat, n: nat): (q: seq<nat>)
    requires n <= NPROC
  {
    if n == 0 then []
    else
      ArrivedBelow(t, t', l, n - 1)
      + if t[n - 1].state != Runnable && t'[n - 1].state == Runnable && t'[n - 1].queue == l then [n - 1] else []
  }

  /** The processes among the first n slots that were RUNNABLE at level l and no longer are. */
  ghost function DepartedBelow(t: Table, t': Table, l: nat, n: nat): (q: seq<nat>)
    requires n <= NPROC
  {
    if n == 0 then []
    else
      DepartedBelow(t, t', l, n - 1)
      + if t[n - 1].state == Runnable && t'[n - 1].state != Runnable && t[n - 1].queue == l then [n - 1] else []
  }

  /** Those who leave, and then the queue, are the queue as it was and then those who come. */
  ghost predicate Fifo(s: Sched, s': Sched, l: nat)
    requires l < NUM_QUEUES
  {
    DepartedBelow(s.procs, s'.procs, l, NPROC) + s'.qs[l] == s.qs[l] + ArrivedBelow(s.procs, s'.procs, l, NPROC)
  }

  lemma {:induction false} NoArrivals(t: Table, t': Table, l: nat, n: nat)
    requires n <= NPROC && forall p :: 0 <= p < n ==> t[p].state != Runnable ==> t'[p].state != Runnable
    ensures ArrivedBelow(t, t', l, n) == []
  {
    if n > 0 {
      NoArrivals(t, t', l, n - 1);
    }
  }

  lemma {:induction false} NoDepartures(t: Table, t': Table, l: nat, n: nat)
    requires n <= NPROC && forall p :: 0 <= p < n ==> t[p].state == Runnable ==> t'[p].state == Runnable
    ensures DepartedBelow(t, t', l, n) == []
  {
    if n > 0 {
      NoDepartures(t, t', l, n - 1);
    }
  }

  lemma {:induction false} OneArrival(t: Table, t': Table, l: nat, x: nat, n: nat)
    requires n <= NPROC && x < NPROC && t[x].state != Runnable && t'[x].state == Runnable
    requires forall p :: 0 <= p < NPROC && p != x ==> t[p].state != Runnable ==> t'[p].state != Runnable
    ensures ArrivedBelow(t, t', l, n) == if x < n && t'[x].queue == l then [x] else []
  {
    if n > 0 {
      OneArrival(t, t', l, x, n - 1);
    }
  }

  lemma {:induction false} OneDeparture(t: Table, t': Table, l: nat, x: nat, n: nat)
    requires n <= NPROC && x < NPROC && t[x].state == Runnable && t'[x].state != Runnable
    requires forall p :: 0 <= p < NPROC && p != x ==> t[p].state == Runnable ==> t'[p].state == Runnable
    ensures DepartedBelow(t, t', l, n) == if x < n && t[x].queue == l then [x] else []
  {
    if n > 0 {
      OneDeparture(t, t', l, x, n - 1);
    }
  }

  lemma {:induction false} SameArrivals(t: Table, t1: Table, t2: Table, l: nat, n: nat)
    requires n <= NPROC && forall p :: 0 <= p < n ==> t1[p].state == t2[p].state && t1[p].queue == t2[p].queue
    ensures ArrivedBelow(t, t1, l, n) == ArrivedBelow(t, t2, l, n)
  {
    if n > 0 {
      SameArrivals(t, t1, t2, l, n - 1);
    }
  }

  /** A step that changes no state from or to RUNNABLE, and no queue. */
  lemma QuietFifo(s: Sched, s': Sched, l: nat)
    requires l < NUM_QUEUES && s'.qs == s.qs
    requires forall p :: 0 <= p < NPROC ==> (s.procs[p].state == Runnable <==> s'.procs[p].state == Runnable)
    ensures Fifo(s, s', l)
  {
    NoArrivals(s.procs, s'.procs, l, NPROC);
    NoDepartures(s.procs, s'.procs, l, NPROC);
  }

  /** s' is s, but for other fields of the table, with x made RUNNABLE. */
  ghost predicate OneReadied(s: Sched, s': Sched, x: nat) {
    && x < NPROC && s.procs[x].state != Runnable && s'.procs[x].state == Runnable
    && (forall p :: 0 <= p < NPROC && p != x ==> (s.procs[p].state == Runnable <==> s'.procs[p].state == Runnable))
    && var a := s'.procs[x].queue; a < NUM_QUEUES && s'.qs == s.qs[a := s.qs[a] + [x]]
  }

  lemma OneReadiedFifo(s: Sched, s': Sched, x: nat, l: nat)
    requires OneReadied(s, s', x) && l < NUM_QUEUES
    ensures Fifo(s, s', l)
  {
    OneArrival(s.procs, s'.procs, l, x, NPROC);
    NoDepartures(s.procs, s'.procs, l, NPROC);
  }

  lemma ReadiedOne(s: Sched, s1: Sched, x: nat)
    requires x < NPROC && s.procs[x].state != Runnable && s1.qs == s.qs
    requires forall p :: 0 <= p < NPROC && p != x ==> (s.procs[p].state == Runnable <==> s1.procs[p].state == Runnable)
    ensures OneReadied(s, Readied(s1, x), x)
  {
    hide Chosen;
  }

  lemma {:induction false} WokenArrivals(s: Sched, chan: nat, me: nat, n: nat, l: nat)
    requires n <= NPROC && l < NUM_QUEUES
    ensures Woken(s, chan, me, n).qs[l] == s.qs[l] + ArrivedBelow(s.procs, Woken(s, chan, me, n).procs, l, n)
    ensures forall p :: n <= p < NPROC ==> Woken(s, chan, me, n).procs[p] == s.procs[p]
    ensures forall p :: 0 <= p < NPROC && s.procs[p].state == Runnable ==> Woken(s, chan, me, n).procs[p].state == Runnable
  {
    hide Chosen;
    if n > 0 {
      WokenArrivals(s, chan, me, n - 1, l);
      SameArrivals(s.procs, Woken(s, chan, me, n - 1).procs, Woken(s, chan, me, n).procs, l, n - 1);
    }
  }

  lemma WokenFifo(s: Sched, chan: nat, me: nat, l: nat)
    requires l < NUM_QUEUES
    ensures Fifo(s, Woken(s, chan, me, NPROC), l)
  {
    hide Woken;
    WokenArrivals(s, chan, me, NPROC, l);
    NoDepartures(s.procs, Woken(s, chan, me, NPROC).procs, l, NPROC);
  }

  lemma DispatchedFifo(s: Sched, l: nat)
    requires Scheduling(s, NPROC) && l < NUM_QUEUES
    ensures Fifo(s, Dispatched(s), l)
  {
    var m := FirstLevel(s.qs);
    if m == NUM_QUEUES {
      QuietFifo(s, s, l);
    } else {
      HeadRunnable(s, m);
      TakenFifo(s, Dispatched(s), m, l);
    }
  }

  lemma HeadRunnable(s: Sched, m: nat)
    requires Scheduling(s, NPROC) && m < NUM_QUEUES && s.qs[m] != []
    ensures var p := s.qs[m][0]; p < NPROC && s.procs[p].state == Runnable && s.procs[p].queue == m
  {
    var p := s.qs[m][0];
    assert p in s.qs[m] && Queued(s.qs, p);
  }

  lemma TakenFifo(s: Sched, s': Sched, m: nat, l: nat)
    requires l < NUM_QUEUES && m < NUM_QUEUES && s.qs[m] != [] && s'.qs == s.qs[m := s.qs[m][1..]]
    requires var p := s.qs[m][0];
             && p < NPROC && s.procs[p].state == Runnable && s.procs[p].queue == m
             && s'.procs == s.procs[p := s.procs[p].(state := Running)]
    ensures Fifo(s, s', l)
  {
    var p := s.qs[m][0];
    OneDeparture(s.procs, s'.procs, l, p, NPROC);
    NoArrivals(s.procs, s'.procs, l, NPROC);
    assert s.qs[m] == [p] + s.qs[m][1..];
  }

  predicate Boosts(s: Sched, a: Step) {
    a.Round? && s.clock > BOOST
  }

  lemma StepFifo(s: Sched, a: Step, l: nat)
    requires Inv(s) && Enabled(s, a) && !Boosts(s, a) && l < NUM_QUEUES
    ensures Fifo(s, Do(s, a), l)
  {
    hide Fifo, Woken, TreeOk, Scheduling, Adopted, Waiting, Readied;
    match a
    case Yield(p) =>
      var s1 := WithProc(s.(clock := s.clock + 1), p, s.procs[p].(quanta := s.procs[p].quanta + 1));
      ReadiedOne(s, s1, p);
      OneReadiedFifo(s, Readied(s1, p), p, l);
    case Wakeup(me, chan) => WokenFifo(s, chan, me, l);
    case Kill(pid) => KilledFifo(s, pid, l);
    case Fork(p, fails) => ForkedFifo(s, p, fails, l);
    case Exit(p) => ExitedFifo(s, p, l);
    case Round => DispatchedFifo(s, l);
    case _ => QuietFifo(s, Do(s, a), l);
  }

  lemma KilledFifo(s: Sched, pid: nat, l: nat)
    requires l < NUM_QUEUES
    ensures Fifo(s, Killed(s, pid), l)
  {
    hide Fifo, Readied;
    var p := FindPid(s.procs, pid, 0);
    if p == NPROC || s.procs[p].state != Sleeping {
      QuietFifo(s, Killed(s, pid), l);
    } else {
      var s1 := WithProc(s, p, s.procs[p].(killed := true));
      ReadiedOne(s, s1, p);
      OneReadiedFifo(s, Readied(s1, p), p, l);
    }
  }

  lemma ForkedFifo(s: Sched, p: nat, fails: bool, l: nat)
    requires l < NUM_QUEUES
    ensures Fifo(s, Forked(s, p, fails), l)
  {
    hide Fifo, Readied;
    var np := FreeSlot(s.procs, 0);
    if np == NPROC || fails {
      QuietFifo(s, Forked(s, p, fails), l);
    } else {
      var s1 := WithProc(s.(nextpid := s.nextpid + 1), np, s.procs[np].(pid := s.nextpid, parent := p));
      ReadiedOne(s, s1, np);
      OneReadiedFifo(s, Readied(s1, np), np, l);
    }
  }

  /** Arrivals of two transitions add up if the second ones are at higher slots. */
  lemma {:induction false} ArrivalsTwice(t: Table, t1: Table, t2: Table, l: nat, m: nat, n: nat)
    requires n <= NPROC && m <= NPROC
    requires forall p :: 0 <= p < NPROC && t[p].state == Runnable ==> t1[p].state == Runnable
    requires forall p :: 0 <= p < NPROC && t1[p].state == Runnable ==> t2[p].state == Runnable && t2[p].queue == t1[p].queue
    requires forall p :: m <= p < NPROC && t1[p].state == Runnable ==> t[p].state == Runnable
    requires forall p :: 0 <= p < m && t2[p].state == Runnable ==> t1[p].state == Runnable
    ensures ArrivedBelow(t, t2, l, n) == ArrivedBelow(t, t1, l, n) + ArrivedBelow(t1, t2, l, n)
    ensures n <= m ==> ArrivedBelow(t1, t2, l, n) == []
  {
    if n > 0 {
      ArrivalsTwice(t, t1, t2, l, m, n - 1);
    }
  }

  lemma ExitedFifo(s: Sched, p: nat, l: nat)
    requires Inv(s) && Runs(s, p) && p != INIT && l < NUM_QUEUES
    ensures Fifo(s, Exited(s, p), l)
  {
    hide TreeOk, Scheduling, Adopted, Woken, Waiting, Chosen, Fifo;
    ChannelsKnown(s.procs);
    HasParent(s, p);
    ExitedIs(s, p);
    var s1, q := Orphans(s, p, NPROC), s.procs[p].parent;
    var s' := Exited(s, p);
    var init := AsleepInWait(s.procs, INIT) && ChildBelow(s.procs, p, NPROC);
    if WakesParent(s1, p, q) && init {
      BothWoken(s, s1, s', q, l);
    } else if WakesParent(s1, p, q) {
      OneReadiedFifo(s, s', q, l);
    } else if init {
      OneReadiedFifo(s, s', INIT, l);
    } else {
      QuietFifo(s, s', l);
    }
  }

  lemma BothWoken(s: Sched, s1: Sched, s': Sched, q: nat, l: nat)
    requires OneReadied(s, s1, INIT) && OneReadied(s1, s', q) && l < NUM_QUEUES && s'.procs[INIT].queue == s1.procs[INIT].queue
    requires forall p :: 0 <= p < NPROC && s1.procs[p].state == Runnable ==> s'.procs[p].queue == s1.procs[p].queue
    ensures Fifo(s, s', l)
  {
    OneReadiedFifo(s, s1, INIT, l);
    OneReadiedFifo(s1, s', q, l);
    ArrivalsTwice(s.procs, s1.procs, s'.procs, l, INIT + 1, NPROC);
    NoDepartures(s.procs, s'.procs, l, NPROC);
    NoDepartures(s.procs, s1.procs, l, NPROC);
    NoDepartures(s1.procs, s'.procs, l, NPROC);
    var a, b := ArrivedBelow(s.procs, s1.procs, l, NPROC), ArrivedBelow(s1.procs, s'.procs, l, NPROC);
    assert [] + s1.qs[l] == s1.qs[l] && [] + s'.qs[l] == s'.qs[l];
    assert (s.qs[l] + a) + b == s.qs[l] + (a + b);
  }

  /** r continues r0 without a boost. */
  ghost predicate Continues(r0: Run, r: Run) {
    r == r0 || (r.Then? && !Boosts(r.before.s, r.a) && Continues(r0, r.before))
  }

  /** All processes that became RUNNABLE at level l after r0, in order. */
  ghost function Arrivals(r0: Run, r: Run, l: nat): (q: seq<nat>) {
    if r == r0 || r.Start? then [] else Arrivals(r0, r.before, l) + ArrivedBelow(r.before.s.procs, r.s.procs, l, NPROC)
  }

  /** All processes that were taken from level l after r0, in order. */
  ghost function Departures(r0: Run, r: Run, l: nat): (q: seq<nat>) {
    if r == r0 || r.Start? then [] else Departures(r0, r.before, l) + DepartedBelow(r.before.s.procs, r.s.procs, l, NPROC)
  }

  /**
    Between boosts every level serves in order of arrival: those taken so far, followed by
    the queue, are the queue at the start followed by those who came.
   */
  lemma {:induction false} RunFifo(r0: Run, r: Run, l: nat)
    requires r.Legal() && Continues(r0, r) && l < NUM_QUEUES
    ensures Departures(r0, r, l) + r.s.qs[l] == r0.s.qs[l] + Arrivals(r0, r, l)
  {
    hide Do, Inv;
    if r != r0 {
      RunFifo(r0, r.before, l);
      RunInv(r.before);
      StepFifo(r.before.s, r.a, l);
      var d, a := DepartedBelow(r.before.s.procs, r.s.procs, l, NPROC), ArrivedBelow(r.before.s.procs, r.s.procs, l, NPROC);
      Spliced(Departures(r0, r.before, l), r.before.s.qs[l], r0.s.qs[l], Arrivals(r0, r.before, l), d, r.s.qs[l], a);
    }
  }

  lemma Spliced(d: seq<nat>, q1: seq<nat>, q0: seq<nat>, a: seq<nat>, d1: seq<nat>, q2: seq<nat>, a1: seq<nat>)
    requires d + q1 == q0 + a && d1 + q2 == q1 + a1
    ensures (d + d1) + q2 == q0 + (a + a1)
  {
    assert (d + d1) + q2 == d + (d1 + q2);
    assert d + (q1 + a1) == (d + q1) + a1;
    assert (q0 + a) + a1 == q0 + (a + a1);
  }

  /** Nobody overtakes: of two processes in a queue, the one behind is taken only after the one in front. */
  lemma NoOvertaking(r0: Run, r: Run, l: nat, i: nat, j: nat)
    requires r.Legal() && Continues(r0, r) && l < NUM_QUEUES && i < j < |r0.s.qs[l]|
    ensures j < |Departures(r0, r, l)| ==> Departures(r0, r, l)[i] == r0.s.qs[l][i] && Departures(r0, r, l)[j] == r0.s.qs[l][j]
    ensures |Departures(r0, r, l)| <= i ==>
      var d := |Departures(r0, r, l)|;
      j - d < |r.s.qs[l]| && r.s.qs[l][i - d] == r0.s.qs[l][i] && r.s.qs[l][j - d] == r0.s.qs[l][j]
  {
    hide Departures, Arrivals;
    RunFifo(r0, r, l);
    InLine(Departures(r0, r, l), r.s.qs[l], r0.s.qs[l], Arrivals(r0, r, l), i);
    InLine(Departures(r0, r, l), r.s.qs[l], r0.s.qs[l], Arrivals(r0, r, l), j);
  }

  lemma InLine(d: seq<nat>, q: seq<nat>, q0: seq<nat>, a: seq<nat>, k: nat)
    requires d + q == q0 + a && k < |q0|
    ensures if k < |d| then d[k] == q0[k] else k - |d| < |q| && q[k - |d|] == q0[k]
  {
    assert (d + q)[k] == (q0 + a)[k];
    assert |d + q| == |q0 + a|;
  }

  /** Without a requeue, runs reach the two lower levels at once. */
  lemma LowerLevelsReached() returns (r: Run)
    ensures r.Legal() && NeverRequeues(r) && r.s.qs == [[], [1, 2], [0]] && r.s.clock <= BOOST
    ensures r.s.procs[1].nice == 0 && r.s.procs[1].queue == 1 && r.s.procs[1].quanta == 0
  {
    hide Do, Chosen, Booted;
    r := FirstRuns();
    var c := Forks(r, 1);
    r := c;
    c := Forks(r, 2);
    r := c;
    c := Renices(r, 0, -20);
    r := c;
    assert [] + [1] + [2] == [1, 2] && [] + [0] == [0];
  }

  /** The machine reaches all three levels at once; the code would requeue at the second change of a nice value. */
  lemma AllLevelsReached() returns (r: Run)
    ensures r.Legal() && r.s.qs[0] != [] && r.s.qs[1] != [] && r.s.qs[2] != []
  {
    hide Do, Chosen, Booted, NeverRequeues;
    r := LowerLevelsReached();
    var c := Rounds(r);
    r := c;
    c := Renices(r, 1, 19);
    r := c;
  }

  lemma FirstRuns() returns (r: Run)
    ensures r.Legal() && NeverRequeues(r) && r == Then(Start(Booted()), Round, r.s)
    ensures r.s.qs == [[], [], []] && r.s.clock == 0 && r.s.nextpid == 2 && Runs(r.s, 0) && r.s.procs[0].nice == 0
    ensures r.s.procs[0].queue == 1 && r.s.procs[0].quanta == 0
    ensures forall p :: 0 < p < NPROC ==> r.s.procs[p].state == Unused && r.s.procs[p].nice == r.s.procs[p].queue == r.s.procs[p].quanta == 0
  {
    hide Woken, Requeued;
    r := Start(Booted());
    BootedShape();
    assert FirstLevel(r.s.qs) == 1;
    r := Then(r, Round, Do(r.s, Round));
    assert [0][1..] == [];
    assert r.s.qs == [[], [], []];
  }

  lemma BootedShape()
    ensures var s := Booted();
            && s.qs == [[], [0], []] && s.clock == 0 && s.nextpid == 2 && s.procs[0].nice == 0 && s.procs[0].queue == 1 && s.procs[0].quanta == 0
            && forall p :: 0 < p < NPROC ==> s.procs[p].state == Unused && s.procs[p].nice == s.procs[p].queue == s.procs[p].quanta == 0
  {
    var blank := Proc(Unused, 0, 0, NOBODY, 0, 0, 0, false);
    var s := Sched(seq(NPROC, i => if i == INIT then blank.(pid := 1) else blank), [[], [], []], 0, 2);
    assert s.procs[INIT] == blank.(pid := 1);
    assert Chosen(0, 0, 0) == Place(1, 0);
    assert s.qs[1] + [INIT] == [0];
    assert s.qs[1 := s.qs[1] + [INIT]] == [[], [0], []];
    assert Booted() == Readied(s, INIT);
  }

  /** The first process forks into slot c. */
  lemma Forks(r: Run, c: nat) returns (r': Run)
    requires r.Legal() && 0 < c < NPROC && Runs(r.s, 0) && (forall p :: 0 < p < c ==> r.s.procs[p].state == Runnable)
    requires forall p :: c <= p < NPROC ==> r.s.procs[p].state == Unused && r.s.procs[p].nice == r.s.procs[p].queue == r.s.procs[p].quanta == 0
    ensures r'.Legal() && (NeverRequeues(r) ==> NeverRequeues(r')) && r'.s.clock == r.s.clock && r'.s.qs == r.s.qs[1 := r.s.qs[1] + [c]]
    ensures forall p :: 0 <= p < NPROC && p != c ==> r'.s.procs[p] == r.s.procs[p]
    ensures var q := r'.s.procs[c]; q.state == Runnable && q.nice == 0 && q.queue == 1 && q.quanta == 0
  {
    hide Woken, Requeued, Chosen, Readied, FreeSlot;
    SlotFree(r.s.procs, c);
    r' := Then(r, Fork(0, false), Do(r.s, Fork(0, false)));
    FirstReadied(WithProc(r.s.(nextpid := r.s.nextpid + 1), c, r.s.procs[c].(pid := r.s.nextpid, parent := 0)), c);
  }

  lemma SlotFree(t: Table, c: nat)
    requires c < NPROC && t[c].state == Unused && forall p :: 0 <= p < c ==> t[p].state != Unused
    ensures FreeSlot(t, 0) == c
  {
  }

  lemma FirstReadied(s: Sched, c: nat)
    requires c < NPROC && s.procs[c].nice == s.procs[c].queue == s.procs[c].quanta == 0
    ensures var s' := Readied(s, c);
            && s'.clock == s.clock && s'.qs == s.qs[1 := s.qs[1] + [c]]
            && s'.procs == s.procs[c := s.procs[c].(state := Runnable, queue := 1)]
  {
  }

  /** The running process p changes its nice value and yields. */
  lemma Renices(r: Run, p: nat, inc: int) returns (r': Run)
    requires r.Legal() && Runs(r.s, p) && r.s.procs[p].nice == 0 && r.s.procs[p].queue == 1 && r.s.procs[p].quanta == 0 && (inc == 19 || inc == -20)
    ensures r'.Legal() && (NeverRequeues(r) && inc == -20 ==> NeverRequeues(r')) && r'.s.clock == r.s.clock + 1
    ensures var l := if inc == 19 then 0 else 2; r'.s.qs == r.s.qs[l := r.s.qs[l] + [p]]
    ensures forall q :: 0 <= q < NPROC && q != p ==> r'.s.procs[q] == r.s.procs[q]
  {
    r' := Then(r, Nice(p, inc), Do(r.s, Nice(p, inc)));
    r' := Then(r', Yield(p), Do(r'.s, Yield(p)));
  }

  lemma Rounds(r: Run) returns (r': Run)
    requires r.Legal() && r.s.clock <= BOOST && r.s.qs[0] == [] && r.s.qs[1] != [] && r.s.qs[1][0] < NPROC
    ensures r'.Legal() && r'.s.qs == r.s.qs[1 := r.s.qs[1][1..]] && Runs(r'.s, r.s.qs[1][0])
    ensures r'.s.procs == r.s.procs[r.s.qs[1][0] := r.s.procs[r.s.qs[1][0]].(state := Running)]
  {
    r' := Then(r, Round, Do(r.s, Round));
  }

  // ---------------------------------------------------------------- nice without a requeue

  /** sys_nice's idea of the queue that a nice value belongs to. */
  function NiceQueue(nice: int): (q: int) {
    if nice > 10 then 0 else if nice < -10 && nice <= 10 then 1 else if nice <= -10 then 2 else -1
  }

  /** No change of a nice value meets sys_nice's condition for a requeue. */
  ghost predicate NeverRequeues(r: Run) {
    match r
    case Start(s) => true
    case Then(before, a, s) =>
      && NeverRequeues(before)
      && (a.Nice? && a.p < NPROC ==> NiceQueue(Reniced(before.s.procs[a.p].nice, a.inc)) == before.s.procs[a.p].queue)
  }

  /** The top queue is empty, and nobody is on the way there. */
  ghost predicate TopIdle(s: Sched) {
    && s.qs[0] == []
    && forall p :: 0 <= p < NPROC ==>
         s.procs[p].nice <= 10 && (s.procs[p].state in {Runnable, Running, Sleeping} ==> s.procs[p].queue != 0)
  }

  lemma EnqueuedIdle(s: Sched, p: nat)
    requires s.qs[0] == [] && p < NPROC && forall x :: 0 <= x < NPROC ==>
               s.procs[x].nice <= 10 && (x != p && s.procs[x].state in {Runnable, Running, Sleeping} ==> s.procs[x].queue != 0)
    ensures TopIdle(Enqueued(s, p))
  {
  }

  lemma {:induction false} WokenIdle(s: Sched, chan: nat, me: nat, n: nat)
    requires TopIdle(s) && n <= NPROC
    ensures TopIdle(Woken(s, chan, me, n))
  {
    hide Chosen, Enqueued, TopIdle;
    if n > 0 {
      WokenIdle(s, chan, me, n - 1);
      ReadiedIdle(Woken(s, chan, me, n - 1), n - 1);
    }
  }

  lemma ReadiedIdle(s: Sched, p: nat)
    requires TopIdle(s) && p < NPROC
    ensures TopIdle(Readied(s, p))
  {
    EnqueuedIdle(WithProc(s, p, s.procs[p].(state := Runnable)), p);
  }

  lemma {:induction false} RequeuedIdle(s: Sched, n: nat)
    requires TopIdle(s) && n <= NPROC
    ensures TopIdle(Requeued(s, n))
  {
    hide Chosen, Enqueued;
    if n > 0 {
      RequeuedIdle(s, n - 1);
      EnqueuedIdle(Requeued(s, n - 1), n - 1);
    }
  }

  lemma ChangedIdle(s: Sched, p: nat, r: Proc)
    requires TopIdle(s) && p < NPROC && r.nice <= 10 && (r.state in {Runnable, Running, Sleeping} ==> r.queue != 0)
    ensures TopIdle(WithProc(s, p, r))
  {
  }

  lemma {:induction false} AdoptedIdle(s: Sched, p: nat, n: nat)
    requires TopIdle(s) && n <= NPROC
    ensures TopIdle(Adopted(s, p, n))
  {
    hide Woken;
    if n > 0 {
      AdoptedIdle(s, p, n - 1);
      var s1 := Adopted(s, p, n - 1);
      if s1.procs[n - 1].parent == p {
        var s2 := WithProc(s1, n - 1, s1.procs[n - 1].(parent := INIT));
        WokenIdle(s2, ChanOf(INIT), p, NPROC);
      }
    }
  }

  lemma ExitedIdle(s: Sched, p: nat)
    requires TopIdle(s) && p < NPROC
    ensures TopIdle(Exited(s, p))
  {
    hide Woken, Adopted;
    AdoptedIdle(s, p, NPROC);
    var s1 := Adopted(s, p, NPROC);
    WokenIdle(s1, ChanOf(s1.procs[p].parent), p, NPROC);
  }

  lemma DispatchedIdle(s: Sched)
    requires TopIdle(s) && forall l, k :: 0 <= l < NUM_QUEUES && 0 <= k < |s.qs[l]| && s.qs[l][k] < NPROC ==> s.procs[s.qs[l][k]].state == Runnable
    ensures TopIdle(Dispatched(s))
  {
  }

  lemma RoundIdle(s: Sched)
    requires TopIdle(s) && Scheduling(s, NPROC)
    ensures TopIdle(Do(s, Round))
  {
    hide Requeued, TopIdle, Scheduling;
    RequeuedScheduling(s, NPROC);
    RequeuedIdle(s, NPROC);
    ClockIdle(Requeued(s, NPROC));
    var b := Boosted(s);
    MembersRunnable(s);
    MembersRunnable(Requeued(s, NPROC));
    DispatchedIdle(b);
  }

  lemma ClockIdle(s: Sched)
    requires TopIdle(s)
    ensures TopIdle(s.(clock := 0))
  {
  }

  lemma MembersRunnable(s: Sched)
    requires Scheduling(s, NPROC)
    ensures forall l, k :: 0 <= l < NUM_QUEUES && 0 <= k < |s.qs[l]| && s.qs[l][k] < NPROC ==> s.procs[s.qs[l][k]].state == Runnable
  {
    forall l, k | 0 <= l < NUM_QUEUES && 0 <= k < |s.qs[l]| && s.qs[l][k] < NPROC
      ensures s.procs[s.qs[l][k]].state == Runnable
    {
      assert s.qs[l][k] in s.qs[l];
      assert Queued(s.qs, s.qs[l][k]);
    }
  }

  lemma KilledIdle(s: Sched, pid: nat)
    requires TopIdle(s)
    ensures TopIdle(Killed(s, pid))
  {
    hide Readied;
    var p := FindPid(s.procs, pid, 0);
    if p < NPROC {
      ChangedIdle(s, p, s.procs[p].(killed := true));
      ReadiedIdle(WithProc(s, p, s.procs[p].(killed := true)), p);
    }
  }

  lemma ForkedIdle(s: Sched, p: nat, fails: bool)
    requires TopIdle(s)
    ensures TopIdle(Forked(s, p, fails))
  {
    hide Readied;
    var np := FreeSlot(s.procs, 0);
    if np < NPROC {
      var s1 := s.(nextpid := s.nextpid + 1);
      ChangedIdle(s1, np, Freed(s.procs[np]));
      ReadiedIdle(WithProc(s1, np, s.procs[np].(pid := s.nextpid, parent := p)), np);
    }
  }

  lemma StepIdle(s: Sched, a: Step)
    requires TopIdle(s) && Scheduling(s, NPROC) && Enabled(s, a)
    requires a.Nice? ==> NiceQueue(Reniced(s.procs[a.p].nice, a.inc)) == s.procs[a.p].queue
    ensures TopIdle(Do(s, a))
  {
    hide Woken, Adopted, Requeued, Chosen, Enqueued, Scheduling, Dispatched, Boosted, Exited, Killed, Forked;
    match a
    case Yield(p) => ReadiedIdle(WithProc(s.(clock := s.clock + 1), p, s.procs[p].(quanta := s.procs[p].quanta + 1)), p);
    case Nice(p, inc) => ChangedIdle(s, p, s.procs[p].(nice := Reniced(s.procs[p].nice, inc)));
    case Sleep(p, chan) => ChangedIdle(s, p, s.procs[p].(state := Sleeping, chan := chan));
    case WaitSleep(p) => ChangedIdle(s, p, s.procs[p].(state := Sleeping, chan := ChanOf(p)));
    case Wakeup(me, chan) => WokenIdle(s, chan, me, NPROC);
    case Kill(pid) => KilledIdle(s, pid);
    case Fork(p, fails) => ForkedIdle(s, p, fails);
    case Exit(p) => ExitedIdle(s, p);
    case Reap(p, child) => ChangedIdle(s, child, Freed(s.procs[child]));
    case Round => RoundIdle(s);
  }

  /**
    The top queue is used only after a requeue: in every run without one it is empty, and
    every nice value is at most 10.
   */
  lemma {:induction false} TopNeedsRequeue(r: Run)
    requires r.Legal() && NeverRequeues(r)
    ensures TopIdle(r.s)
  {
    hide TopIdle, Scheduling, Do, Booted;
    match r
    case Start(s) => BootedIdle();
    case Then(before, a, s) =>
      TopNeedsRequeue(before);
      RunInv(before);
      StepIdle(before.s, a);
  }

  lemma BootedIdle()
    ensures TopIdle(Booted())
  {
    BootedShape();
  }

  /** p is the oldest entry of queue l, and every better queue is empty. */
  ghost predicate First(qs: Queues, l: nat, p: nat) {
    l < NUM_QUEUES && qs[l] != [] && qs[l][0] == p && forall m :: 0 <= m < l ==> qs[m] == []
  }

  /** A turn of the scheduler runs the process that waits longest at the best level that has one. */
  lemma RoundPicks(r: Run)
    requires r.Legal()
    ensures var s := Boosted(r.s);
            var s' := Do(r.s, Round);
            forall p :: 0 <= p < NPROC && r.s.procs[p].state == Runnable ==> (s'.procs[p].state == Running <==> exists l: nat :: First(s.qs, l, p))
    ensures (exists p :: 0 <= p < NPROC && r.s.procs[p].state == Runnable) ==> exists l: nat, p: nat :: First(Boosted(r.s).qs, l, p)
  {
    hide TreeOk, Requeued, QueuesOk, LevelsOk;
    RunInv(r);
    var s := Boosted(r.s);
    var l := FirstLevel(s.qs);
    RequeuedScheduling(r.s, NPROC);
    forall p | 0 <= p < NPROC && r.s.procs[p].state == Runnable
      ensures Queued(s.qs, p)
    {
    }
    if l < NUM_QUEUES {
      assert Queued(s.qs, s.qs[l][0]);
      assert First(s.qs, l, s.qs[l][0]);
      assert forall m: nat, p: nat :: First(s.qs, m, p) ==> m == l;
    }
  }

  // ---------------------------------------------------------------- wakeup

  /**
    wakeup readies every process that sleeps on the channel, and no other: afterwards
    nobody but the caller sleeps on it, and everybody else is as before.
   */
  lemma {:induction false} WokenEffect(s: Sched, chan: nat, me: nat, n: nat, p: nat)
    requires n <= NPROC && p < NPROC
    ensures var r := Woken(s, chan, me, n).procs[p];
            if p < n && p != me && Sleeps(s, p, chan) then r.state == Runnable && r.pid == s.procs[p].pid && r.nice == s.procs[p].nice
            else r == s.procs[p]
  {
    if n > 0 {
      WokenEffect(s, chan, me, n - 1, p);
      WokenEffect(s, chan, me, n - 1, n - 1);
    }
  }

  // ---------------------------------------------------------------- births, exits and reaps

  ghost function Count(b: bool): (n: nat) {
    if b then 1 else 0
  }

  /** How often a run gave out, retired and reclaimed a pid. */
  ghost function Births(r: Run, pid: nat): (n: nat) {
    match r
    case Start(s) => Count(pid == 1)
    case Then(before, a, s) =>
      Births(before, pid) + Count(a.Fork? && !a.fails && FreeSlot(before.s.procs, 0) < NPROC && before.s.nextpid == pid)
  }

  ghost function Exits(r: Run, pid: nat): (n: nat) {
    match r
    case Start(s) => 0
    case Then(before, a, s) => Exits(before, pid) + Count(a.Exit? && a.p < NPROC && before.s.procs[a.p].pid == pid)
  }

  ghost function Reaps(r: Run, pid: nat): (n: nat) {
    match r
    case Start(s) => 0
    case Then(before, a, s) => Reaps(before, pid) + Count(a.Reap? && a.child < NPROC && before.s.procs[a.child].pid == pid)
  }

  ghost predicate Present(k: seq<KinEntry>, pid: nat) {
    exists q :: 0 <= q < |k| && k[q].pid == pid
  }

  ghost predicate Lies(k: seq<KinEntry>, pid: nat) {
    exists q :: 0 <= q < |k| && k[q].pid == pid && k[q].life == Dead
  }

  /** How one step changes who is present and who is dead. */
  lemma StepPresent(s: Sched, a: Step, pid: nat)
    requires Inv(s) && Enabled(s, a) && pid > 0
    ensures var k, k' := Kin(s.procs), KinAfter(s, a);
            var born := a.Fork? && !a.fails && FreeSlot(s.procs, 0) < NPROC && s.nextpid == pid;
            var exits := a.Exit? && s.procs[a.p].pid == pid;
            var reaped := a.Reap? && s.procs[a.child].pid == pid;
            && Count(Present(k', pid)) + Count(reaped) == Count(Present(k, pid)) + Count(born)
            && Count(Lies(k', pid)) + Count(reaped) == Count(Lies(k, pid)) + Count(exits)
            && (Present(k, pid) ==> pid < s.nextpid)
  {
    hide Scheduling, TreeOk, Orphaned, Present, Lies;
    var k, k' := Kin(s.procs), KinAfter(s, a);
    if Present(k, pid) {
      PresentBelow(k, s.nextpid, pid);
    }
    if a.Fork? && FreeSlot(s.procs, 0) < NPROC {
      BornPresent(k, FreeSlot(s.procs, 0), a.p, s.nextpid, a.fails, pid);
    } else if a.Exit? {
      ExitPresent(k, a.p, s.nextpid, pid);
    } else if a.Reap? {
      ReapPresent(k, a.child, s.nextpid, pid);
    }
  }

  lemma PresentBelow(k: seq<KinEntry>, nextpid: nat, pid: nat)
    requires TreeOk(k, nextpid) && Present(k, pid)
    ensures pid < nextpid
  {
  }

  lemma BornPresent(k: seq<KinEntry>, c: nat, p: nat, nextpid: nat, fails: bool, pid: nat)
    requires TreeOk(k, nextpid) && c < NPROC && k[c].life == Gone && pid > 0
    ensures var k' := k[c := if fails then KinEntry(0, NOBODY, Gone) else KinEntry(nextpid, p, Live)];
            && (Present(k', pid) <==> Present(k, pid) || (!fails && pid == nextpid))
            && (Lies(k', pid) <==> Lies(k, pid)) && !Present(k, nextpid)
  {
    assert ParentOk(k, c);
    var k' := k[c := if fails then KinEntry(0, NOBODY, Gone) else KinEntry(nextpid, p, Live)];
    if Present(k, pid) {
      var q :| 0 <= q < |k| && k[q].pid == pid;
      assert k'[q] == k[q];
    }
    if Lies(k, pid) {
      var q :| 0 <= q < |k| && k[q].pid == pid && k[q].life == Dead;
      assert k'[q] == k[q];
    }
    assert !fails ==> k'[c].pid == nextpid;
  }

  lemma ExitPresent(k: seq<KinEntry>, p: nat, nextpid: nat, pid: nat)
    requires TreeOk(k, nextpid) && p < NPROC && k[p].life == Live && pid > 0
    ensures (Present(Orphaned(k, p), pid) <==> Present(k, pid))
    ensures (Lies(Orphaned(k, p), pid) <==> Lies(k, pid) || k[p].pid == pid) && (k[p].pid == pid ==> !Lies(k, pid))
  {
    var k' := Orphaned(k, p);
    assert forall q :: 0 <= q < NPROC ==> k'[q].pid == k[q].pid;
    if Lies(k, pid) {
      var q :| 0 <= q < |k| && k[q].pid == pid && k[q].life == Dead;
      assert k'[q].life == Dead;
    }
    if Present(k, pid) {
      var q :| 0 <= q < |k| && k[q].pid == pid;
      assert k'[q].pid == pid;
    }
    assert k'[p].life == Dead;
  }

  lemma ReapPresent(k: seq<KinEntry>, c: nat, nextpid: nat, pid: nat)
    requires TreeOk(k, nextpid) && c < NPROC && k[c].life == Dead && pid > 0
    ensures var k' := k[c := KinEntry(0, NOBODY, Gone)];
            && (Present(k', pid) <==> Present(k, pid) && k[c].pid != pid)
            && (Lies(k', pid) <==> Lies(k, pid) && k[c].pid != pid)
            && (k[c].pid == pid ==> Lies(k, pid) && Present(k, pid))
  {
    var k' := k[c := KinEntry(0, NOBODY, Gone)];
    forall q | 0 <= q < NPROC && q != c && k[q].pid == pid
      ensures k[c].pid != pid && k'[q] == k[q]
    {
      assert ParentOk(k, q);
    }
  }

  /**
    Every pid is born at most once; it is reaped, by a wait of whoever is then its parent,
    exactly once after it exits; and it is in the table from birth to reaping.
   */
  lemma {:induction false} LifeCycle(r: Run, pid: nat)
    requires r.Legal() && pid > 0
    ensures Births(r, pid) == Reaps(r, pid) + Count(Present(Kin(r.s.procs), pid))
    ensures Exits(r, pid) == Reaps(r, pid) + Count(Lies(Kin(r.s.procs), pid))
    ensures Births(r, pid) <= 1 && (pid >= r.s.nextpid ==> Births(r, pid) == 0)
  {
    hide Inv, Do, Kin, Present, Lies;
    match r
    case Start(s) => BootPresent(pid);
    case Then(before, a, s) =>
      LifeCycle(before, pid);
      RunInv(before);
      StepPresent(before.s, a, pid);
      InvScheduling(before.s);
      StepKin(before.s, a);
  }

  lemma InvScheduling(s: Sched)
    requires Inv(s)
    ensures Scheduling(s, NPROC)
  {
  }

  lemma BootPresent(pid: nat)
    requires pid > 0
    ensures (Present(Kin(Booted().procs), pid) <==> pid == 1) && !Lies(Kin(Booted().procs), pid) && Booted().nextpid == 2
  {
    var k := Kin(Booted().procs);
    assert k[INIT].pid == 1;
  }

  // ---------------------------------------------------------------- kill of pid 0

  /** The free slots are those with pid 0. */
  lemma {:induction false} PidZero(s: Sched, from: nat)
    requires Inv(s) && from <= NPROC
    ensures FindPid(s.procs, 0, from) == FreeSlot(s.procs, from)
    decreases NPROC - from
  {
    hide Scheduling;
    if from < NPROC {
      assert ParentOk(Kin(s.procs), from);
      assert Kin(s.procs)[from] == KinOf(s.procs[from]);
      PidZero(s, from + 1);
    }
  }

  /** kill(0) marks a free slot, and the child that the next fork puts there is killed from birth. */
  lemma KillZeroMarksNextChild(r: Run, p: nat)
    requires r.Legal() && Runs(r.s, p) && FreeSlot(r.s.procs, 0) < NPROC
    ensures var s1 := Killed(r.s, 0);
            var c := FreeSlot(r.s.procs, 0);
            && Runs(s1, p) && Forked(s1, p, false).procs[c].state == Runnable && Forked(s1, p, false).procs[c].killed
  {
    hide Inv, Forked;
    RunInv(r);
    PidZero(r.s, 0);
    var c := FreeSlot(r.s.procs, 0);
    var s1 := Killed(r.s, 0);
    FreeSlotSame(r.s.procs, s1.procs, 0);
    ForkChild(s1, p);
  }

  lemma ForkChild(s: Sched, p: nat)
    requires FreeSlot(s.procs, 0) < NPROC
    ensures var c := FreeSlot(s.procs, 0);
            Forked(s, p, false).procs[c].state == Runnable && Forked(s, p, false).procs[c].killed == s.procs[c].killed
  {
    hide Chosen;
  }

  lemma {:induction false} FreeSlotSame(t: Table, t': Table, from: nat)
    requires from <= NPROC && forall i :: 0 <= i < NPROC ==> (t'[i].state == Unused <==> t[i].state == Unused)
    ensures FreeSlot(t', from) == FreeSlot(t, from)
    decreases NPROC - from
  {
    if from < NPROC {
      FreeSlotSame(t, t', from + 1);
    }
  }

  /** The free slots that a kill(0) has marked and no fork has taken since. */
  ghost function Marked(r: Run): (m: set<nat>) {
    match r
    case Start(s) => {}
    case Then(before, a, s) =>
      var c := FreeSlot(before.s.procs, 0);
      if c == NPROC then Marked(before)
      else if a == Kill(0) then Marked(before) + {c}
      else if a.Fork? then Marked(before) - {c}
      else Marked(before)
  }

  ghost predicate MarksOk(t: Table, m: set<nat>) {
    && (forall p :: 0 <= p < NPROC && t[p].state == Unused ==> (t[p].killed <==> p in m))
    && (forall p :: p in m ==> p < NPROC && t[p].state == Unused)
  }

  /** An unused slot is killed exactly if it is marked; so is the child that the next fork puts there. */
  lemma {:induction false} BornKilled(r: Run)
    requires r.Legal()
    ensures MarksOk(r.s.procs, Marked(r))
    ensures r.Then? && r.a.Fork? && !r.a.fails && FreeSlot(r.before.s.procs, 0) < NPROC ==>
      var c := FreeSlot(r.before.s.procs, 0);
      r.s.procs[c].state == Runnable && (r.s.procs[c].killed <==> c in Marked(r.before))
  {
    hide Inv, Do, MarksOk, Marked, FreeSlot;
    match r
    case Start(s) => BootMarks();
    case Then(before, a, s) =>
      BornKilled(before);
      RunInv(before);
      StepMarks(before, a);
      if a.Fork? && !a.fails && FreeSlot(before.s.procs, 0) < NPROC {
        ForkChild(before.s, a.p);
        ForkedFrom(before.s, a.p, Marked(before));
      }
  }

  lemma BootMarks()
    ensures MarksOk(Booted().procs, Marked(Start(Booted())))
  {
  }

  lemma ForkedFrom(s: Sched, p: nat, m: set<nat>)
    requires Runs(s, p) && MarksOk(s.procs, m) && FreeSlot(s.procs, 0) < NPROC
    ensures Do(s, Fork(p, false)) == Forked(s, p, false) && (s.procs[FreeSlot(s.procs, 0)].killed <==> FreeSlot(s.procs, 0) in m)
  {
    hide Forked;
  }

  lemma StepMarks(r: Run, a: Step)
    requires Inv(r.s) && Enabled(r.s, a) && MarksOk(r.s.procs, Marked(r))
    ensures MarksOk(Do(r.s, a).procs, Marked(Then(r, a, Do(r.s, a))))
  {
    hide Inv, Marked, MarksOk, SameUnused, FreeSlot, Killed, Forked, Exited, Boosted, Dispatched, Woken, Readied;
    var s, m := r.s, Marked(r);
    MarkedStep(r, a);
    match a
    case Kill(pid) => KillMarks(s, pid, m);
    case Fork(p, fails) => ForkMarks(s, p, fails, m);
    case Reap(p, child) => ReapMarks(s.procs, child, m);
    case _ =>
      StepUnused(s, a);
      SameMarks(s.procs, Do(s, a).procs, m);
  }

  lemma ReapMarks(t: Table, c: nat, m: set<nat>)
    requires MarksOk(t, m) && c < NPROC && t[c].state == Zombie
    ensures MarksOk(t[c := Freed(t[c])], m)
  {
  }

  lemma StepUnused(s: Sched, a: Step)
    requires Inv(s) && Enabled(s, a) && !a.Kill? && !a.Fork? && !a.Reap?
    ensures SameUnused(s.procs, Do(s, a).procs)
  {
    hide Inv, Woken, Requeued, Chosen, Adopted;
    match a
    case Wakeup(me, chan) => WokenMarks(s, chan, me, NPROC);
    case Exit(p) =>
      AdoptedMarks(s, p, NPROC);
      var s1 := Adopted(s, p, NPROC);
      WokenMarks(s1, ChanOf(s1.procs[p].parent), p, NPROC);
    case Round =>
      RequeuedMarks(s, NPROC);
      RoundMarks(s);
    case _ =>
  }

  lemma ForkMarks(s: Sched, p: nat, fails: bool, m: set<nat>)
    requires MarksOk(s.procs, m)
    ensures MarksOk(Forked(s, p, fails).procs, if FreeSlot(s.procs, 0) == NPROC then m else m - {FreeSlot(s.procs, 0)})
  {
    hide Chosen;
  }

  lemma MarkedStep(r: Run, a: Step)
    requires Enabled(r.s, a)
    ensures var c := FreeSlot(r.s.procs, 0);
            Marked(Then(r, a, Do(r.s, a)))
            == if c == NPROC then Marked(r) else if a == Kill(0) then Marked(r) + {c} else if a.Fork? then Marked(r) - {c} else Marked(r)
  {
    hide Do;
  }

  /** The unused slots, their marks and nice values are the same. */
  ghost predicate SameUnused(t: Table, t': Table) {
    forall p :: 0 <= p < NPROC ==>
      (t[p].state == Unused <==> t'[p].state == Unused) && (t[p].state == Unused ==> t'[p].killed == t[p].killed && t'[p].nice == t[p].nice)
  }

  lemma SameMarks(t: Table, t': Table, m: set<nat>)
    requires MarksOk(t, m) && SameUnused(t, t')
    ensures MarksOk(t', m)
  {
  }

  lemma KillMarks(s: Sched, pid: nat, m: set<nat>)
    requires Inv(s) && MarksOk(s.procs, m)
    ensures var c := FreeSlot(s.procs, 0);
            MarksOk(Killed(s, pid).procs, if c < NPROC && pid == 0 then m + {c} else m)
  {
    hide Inv;
    var p := FindPid(s.procs, pid, 0);
    if pid == 0 {
      PidZero(s, 0);
      if p < NPROC {
        MarkAdds(s.procs, Killed(s, pid).procs, p, m);
      }
    } else {
      if p < NPROC {
        UsedPid(s, p);
      }
      KillUsed(s, pid);
      SameMarks(s.procs, Killed(s, pid).procs, m);
    }
  }

  lemma MarkAdds(t: Table, t': Table, p: nat, m: set<nat>)
    requires MarksOk(t, m) && p < NPROC && t[p].state == Unused && t' == t[p := t[p].(killed := true)]
    ensures MarksOk(t', m + {p})
  {
  }

  lemma KillUsed(s: Sched, pid: nat)
    requires var p := FindPid(s.procs, pid, 0); p < NPROC ==> s.procs[p].state != Unused
    ensures SameUnused(s.procs, Killed(s, pid).procs)
  {
    hide Chosen;
  }

  lemma RoundMarks(s: Sched)
    requires Inv(s) && SameUnused(s.procs, Requeued(s, NPROC).procs)
    ensures SameUnused(s.procs, Do(s, Round).procs)
  {
    hide TreeOk, Waiting, Requeued;
    BoostedScheduling(s);
    var b := Boosted(s);
    var l := FirstLevel(b.qs);
    if l < NUM_QUEUES {
      assert Queued(b.qs, b.qs[l][0]);
    }
  }

  lemma UsedPid(s: Sched, p: nat)
    requires Inv(s) && p < NPROC && s.procs[p].pid > 0
    ensures s.procs[p].state != Unused
  {
    hide Scheduling, Waiting;
    assert ParentOk(Kin(s.procs), p) && Kin(s.procs)[p] == KinOf(s.procs[p]);
  }

  lemma {:induction false} WokenMarks(s: Sched, chan: nat, me: nat, n: nat)
    requires n <= NPROC
    ensures SameUnused(s.procs, Woken(s, chan, me, n).procs)
  {
    hide Chosen;
    if n > 0 {
      WokenMarks(s, chan, me, n - 1);
    }
  }

  lemma {:induction false} AdoptedMarks(s: Sched, p: nat, n: nat)
    requires n <= NPROC
    ensures SameUnused(s.procs, Adopted(s, p, n).procs)
  {
    hide Woken;
    if n > 0 {
      var s1 := Adopted(s, p, n - 1);
      AdoptedMarks(s, p, n - 1);
      WokenMarks(WithProc(s1, n - 1, s1.procs[n - 1].(parent := INIT)), ChanOf(INIT), p, NPROC);
    }
  }

  lemma {:induction false} RequeuedMarks(s: Sched, n: nat)
    requires n <= NPROC
    ensures SameUnused(s.procs, Requeued(s, n).procs)
  {
    hide Chosen;
    if n > 0 {
      RequeuedMarks(s, n - 1);
    }
  }
}
