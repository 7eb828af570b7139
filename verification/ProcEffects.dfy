/**
  What the calls of proc.c come to for the processes concerned: who runs, sleeps or waits
  where, in which queue and behind whom, and that nobody else is touched.
 */
module ProcEffects {
  import opened QueueTable
  import opened ProcSpec

  // ---------------------------------------------------------------- joining a queue

  /**
    The rules for a process that is enqueued.  Its nice value gives its own level.  From a
    lower level it moves up with its quanta cleared; with its quanta used up it goes one level
    down, or starts anew at the lowest; else it stays with what it has used.
   */
  ghost predicate PlaceRule(r: Proc, level: nat, quanta: nat) {
    var own := if r.nice > 10 then 0 else if r.nice > -10 then 1 else 2;
    if own < 2 && r.queue > own then level == own && quanta == 0
    else if r.quanta > (if own == 0 then 15 else if own == 1 then 10 else 1) then level == (if own < 2 then own + 1 else own) && quanta == 0
    else level == own && quanta == r.quanta
  }

  lemma ChosenRule(r: Proc)
    ensures PlaceRule(r, Chosen(r.nice, r.queue, r.quanta).level, Chosen(r.nice, r.queue, r.quanta).quanta)
  {
  }

  /** Process p, with record r up to then, is RUNNABLE and last in the queue of its level; nothing else has changed. */
  ghost predicate Joins(s: Sched, s': Sched, p: nat, r: Proc) {
    p < NPROC
    && var r' := s'.procs[p];
       && PlaceRule(r, r'.queue, r'.quanta) && r'.queue < NUM_QUEUES
       && r' == r.(state := Runnable, queue := r'.queue, quanta := r'.quanta)
       && s'.procs == s.procs[p := r'] && s'.qs == s.qs[r'.queue := s.qs[r'.queue] + [p]]
  }

  lemma ReadiedJoins(s: Sched, p: nat, r: Proc)
    requires p < NPROC
    ensures Joins(s, Readied(WithProc(s, p, r), p), p, r)
  {
    ChosenRule(r.(state := Runnable));
    assert s.procs[p := r][p := r.(state := Runnable)] == s.procs[p := r.(state := Runnable)];
  }

  // ---------------------------------------------------------------- kill

  ghost predicate FirstWith(t: Table, pid: nat, p: nat) {
    p < NPROC && t[p].pid == pid && forall i :: 0 <= i < p ==> t[i].pid != pid
  }

  /** The first slot with the pid is killed, and if it slept it is awake and queued; nobody else is touched. */
  ghost predicate KillOf(s: Sched, s': Sched, pid: nat) {
    && s'.clock == s.clock && s'.nextpid == s.nextpid
    && (forall p: nat :: FirstWith(s.procs, pid, p) ==>
          var r := s.procs[p].(killed := true);
          if s.procs[p].state == Sleeping then Joins(s, s', p, r) else s'.procs == s.procs[p := r] && s'.qs == s.qs)
    && ((forall p :: 0 <= p < NPROC ==> s.procs[p].pid != pid) ==> s' == s)
  }

  lemma {:induction false} FindFirst(t: Table, pid: nat, from: nat)
    requires from <= NPROC && forall i :: 0 <= i < from ==> t[i].pid != pid
    ensures if FindPid(t, pid, from) < NPROC then FirstWith(t, pid, FindPid(t, pid, from)) else forall i :: 0 <= i < NPROC ==> t[i].pid != pid
    decreases NPROC - from
  {
    if from < NPROC && t[from].pid != pid {
      FindFirst(t, pid, from + 1);
    }
  }

  lemma KilledEffect(s: Sched, pid: nat)
    ensures KillOf(s, Killed(s, pid), pid)
  {
    hide Readied, FindPid;
    FindFirst(s.procs, pid, 0);
    var p := FindPid(s.procs, pid, 0);
    if p < NPROC {
      assert FirstWith(s.procs, pid, p);
      assert forall q: nat :: FirstWith(s.procs, pid, q) ==> q == p;
      ReadiedJoins(s, p, s.procs[p].(killed := true));
      ReadiedRest(WithProc(s, p, s.procs[p].(killed := true)), p);
    }
  }

  lemma ReadiedRest(s: Sched, p: nat)
    requires p < NPROC
    ensures Readied(s, p).clock == s.clock && Readied(s, p).nextpid == s.nextpid
  {
  }

  // ---------------------------------------------------------------- yield, fork

  /** yield counts a quantum and a tick, and sends the process to the end of the queue that its cycle says. */
  lemma YieldEffect(s: Sched, p: nat)
    requires Enabled(s, Yield(p))
    ensures var s', r := Do(s, Yield(p)), s.procs[p];
            && s'.clock == s.clock + 1 && s'.nextpid == s.nextpid && Joins(s, s', p, r.(quanta := r.quanta + 1))
            && Place(s'.procs[p].queue, s'.procs[p].quanta) == Yielded(r.nice, Place(r.queue, r.quanta))
  {
    hide Chosen;
    var r := s.procs[p].(quanta := s.procs[p].quanta + 1);
    ReadiedJoins(s.(clock := s.clock + 1), p, r);
  }

  ghost predicate FirstUnused(t: Table, c: nat) {
    c < NPROC && t[c].state == Unused && forall i :: 0 <= i < c ==> t[i].state != Unused
  }

  /** fork: the first unused slot becomes a RUNNABLE child with the next pid, or is blank again after a failure. */
  lemma ForkEffect(s: Sched, p: nat, fails: bool, c: nat)
    requires Enabled(s, Fork(p, fails)) && FirstUnused(s.procs, c)
    ensures var s', r := Do(s, Fork(p, fails)), s.procs[c];
            && s'.clock == s.clock && s'.nextpid == s.nextpid + 1
            && if fails then
                 s'.qs == s.qs && s'.procs[c].state == Unused && s'.procs[c].pid == 0 && s'.procs[c].parent == NOBODY && !s'.procs[c].killed
                 && s'.procs[c].nice == 0 && forall x :: 0 <= x < NPROC && x != c ==> s'.procs[x] == s.procs[x]
               else Joins(s, s', c, r.(pid := s.nextpid, parent := p))
  {
    hide FreeSlot, Readied;
    FreeFirst(s.procs, c);
    var r := s.procs[c].(pid := s.nextpid, parent := p);
    ReadiedJoins(s.(nextpid := s.nextpid + 1), c, r);
    ReadiedRest(WithProc(s.(nextpid := s.nextpid + 1), c, r), c);
  }

  lemma FreeFirst(t: Table, c: nat)
    requires FirstUnused(t, c)
    ensures FreeSlot(t, 0) == c
  {
    var f := FreeSlot(t, 0);
    assert f < c || c < f || f == c;
  }

  lemma ForkFull(s: Sched, p: nat, fails: bool)
    requires Enabled(s, Fork(p, fails)) && forall c :: 0 <= c < NPROC ==> s.procs[c].state != Unused
    ensures Do(s, Fork(p, fails)) == s
  {
    assert FreeSlot(s.procs, 0) == NPROC;
  }

  /** A slot that is not in use has no trace of its last process. */
  lemma {:induction false} UnusedBlank(r: Run, p: nat)
    requires r.Legal() && p < NPROC && r.s.procs[p].state == Unused
    ensures r.s.procs[p].pid == 0 && r.s.procs[p].parent == NOBODY && r.s.procs[p].nice == 0
  {
    hide Scheduling, Waiting;
    RunInv(r);
    assert ParentOk(Kin(r.s.procs), p) && Kin(r.s.procs)[p] == KinOf(r.s.procs[p]);
    NiceZero(r);
  }

  ghost predicate UnusedNice(t: Table) {
    forall p :: 0 <= p < NPROC && t[p].state == Unused ==> t[p].nice == 0
  }

  lemma {:induction false} NiceZero(r: Run)
    requires r.Legal()
    ensures UnusedNice(r.s.procs)
  {
    hide Inv, Do;
    match r
    case Start(s) => BootNice();
    case Then(before, a, s) =>
      NiceZero(before);
      RunInv(before);
      StepNice(before.s, a);
  }

  lemma BootNice()
    ensures UnusedNice(Booted().procs)
  {
    BootedShape();
  }

  lemma StepNice(s: Sched, a: Step)
    requires Inv(s) && Enabled(s, a) && UnusedNice(s.procs)
    ensures UnusedNice(Do(s, a).procs)
  {
    hide Inv, Killed, Forked, Exited, Boosted, Dispatched, Woken, Readied;
    match a
    case Kill(pid) => KilledNice(s, pid);
    case Fork(p, fails) => ForkedNice(s, p, fails);
    case Reap(p, child) =>
    case _ => StepUnused(s, a);
  }

  lemma KilledNice(s: Sched, pid: nat)
    requires UnusedNice(s.procs)
    ensures UnusedNice(Killed(s, pid).procs)
  {
    hide Chosen;
  }

  lemma ForkedNice(s: Sched, p: nat, fails: bool)
    requires UnusedNice(s.procs)
    ensures UnusedNice(Forked(s, p, fails).procs)
  {
    hide Chosen;
  }

  // ---------------------------------------------------------------- sleep and wakeup

  /** A process that sleeps on a channel is in no queue, is readied by a wakeup of that channel and by no other. */
  lemma SleepWake(r: Run, p: nat, chan: nat, me: nat, other: nat)
    requires r.Legal() && Enabled(r.s, Sleep(p, chan)) && me != p && other != chan
    ensures var s1 := Do(r.s, Sleep(p, chan));
            && s1.procs[p].state == Sleeping && !Queued(s1.qs, p)
            && Do(s1, Wakeup(me, chan)).procs[p].state == Runnable
            && Do(s1, Wakeup(me, other)).procs[p] == s1.procs[p]
            && forall x :: 0 <= x < NPROC && x != p ==> s1.procs[x] == r.s.procs[x]
  {
    hide Woken, Inv;
    var s1 := Do(r.s, Sleep(p, chan));
    RunInv(r);
    RunsUnqueued(r.s, p);
    WokenEffect(s1, chan, me, NPROC, p);
    WokenEffect(s1, other, me, NPROC, p);
  }

  lemma RunsUnqueued(s: Sched, p: nat)
    requires Inv(s) && Runs(s, p)
    ensures !Queued(s.qs, p)
  {
    hide TreeOk, Waiting;
  }

  // ---------------------------------------------------------------- the boost

  ghost predicate Rising(q: seq<nat>) {
    forall i, j :: 0 <= i < j < |q| ==> q[i] < q[j]
  }

  /** A queue of some of the first n slots, in their order. */
  ghost predicate InOrder(q: seq<nat>, n: nat) {
    Rising(q) && forall k :: 0 <= k < |q| ==> q[k] < n
  }

  /** Slot p has been enqueued anew by the rules, if it is one of the first n and RUNNABLE. */
  ghost predicate SlotRenewed(t: Table, t': Table, qs: Queues, n: nat, p: nat)
    requires p < NPROC
  {
    var r, r' := t[p], t'[p];
    if p < n && r.state == Runnable then
      && PlaceRule(r, r'.queue, r'.quanta) && r'.queue < NUM_QUEUES && p in qs[r'.queue]
      && r' == r.(queue := r'.queue, quanta := r'.quanta)
    else r' == r
  }

  /** Nobody else is in the queues. */
  ghost predicate OnlyRenewed(t: Table, t': Table, qs: Queues, n: nat) {
    forall l, p: nat {:trigger p in qs[l]} :: 0 <= l < NUM_QUEUES && p in qs[l] ==> p < n && p < NPROC && t[p].state == Runnable && t'[p].queue == l
  }

  /** The first n slots have been enqueued anew, and nobody else: in each queue in the order of their slots. */
  ghost predicate Renewed(t: Table, t': Table, qs: Queues, n: nat) {
    && (forall l :: 0 <= l < NUM_QUEUES ==> InOrder(qs[l], n))
    && (forall p :: 0 <= p < NPROC ==> SlotRenewed(t, t', qs, n, p))
    && OnlyRenewed(t, t', qs, n)
  }

  lemma {:induction false} RequeuedRenews(s: Sched, n: nat)
    requires n <= NPROC
    ensures Renewed(s.procs, Requeued(s, n).procs, Requeued(s, n).qs, n)
  {
    hide Chosen, PlaceRule, Renewed, Enqueued;
    if n == 0 {
      NoneRenewed(s.procs);
    } else {
      RequeuedRenews(s, n - 1);
      var s1 := Requeued(s, n - 1);
      if s1.procs[n - 1].state == Runnable {
        RenewOne(s.procs, s1, n - 1);
      } else {
        SkipOne(s.procs, s1.procs, s1.qs, n - 1);
      }
    }
  }

  lemma NoneRenewed(t: Table)
    ensures Renewed(t, t, [[], [], []], 0)
  {
  }

  lemma SkipOne(t: Table, t': Table, qs: Queues, p: nat)
    requires Renewed(t, t', qs, p) && p < NPROC && t'[p].state != Runnable
    ensures Renewed(t, t', qs, p + 1)
  {
    hide PlaceRule;
    var n := p + 1;
    assert SlotRenewed(t, t', qs, p, p);
    forall x | 0 <= x < NPROC
      ensures SlotRenewed(t, t', qs, n, x)
    {
      assert SlotRenewed(t, t', qs, p, x);
    }
  }

  lemma RenewOne(t: Table, s: Sched, p: nat)
    requires Renewed(t, s.procs, s.qs, p) && p < NPROC && s.procs[p].state == Runnable
    ensures Renewed(t, Enqueued(s, p).procs, Enqueued(s, p).qs, p + 1)
  {
    hide Chosen, PlaceRule, InOrder, OnlyRenewed;
    assert SlotRenewed(t, s.procs, s.qs, p, p);
    ChosenRule(t[p]);
    var s', n := Enqueued(s, p), p + 1;
    forall m | 0 <= m < NUM_QUEUES
      ensures InOrder(s'.qs[m], n)
    {
      OrderMore(s.qs[m], p);
    }
    QueuedMore(s.qs, s'.qs, s'.procs[p].queue, p);
    forall x | 0 <= x < NPROC
      ensures SlotRenewed(t, s'.procs, s'.qs, n, x)
    {
      assert SlotRenewed(t, s.procs, s.qs, p, x);
    }
    OnlyMore(t, s.procs, s.qs, s'.procs, s'.qs, p);
  }

  lemma OrderMore(q: seq<nat>, p: nat)
    requires InOrder(q, p)
    ensures InOrder(q, p + 1) && InOrder(q + [p], p + 1)
  {
  }

  lemma QueuedMore(qs: Queues, qs': Queues, l: nat, p: nat)
    requires l < NUM_QUEUES && qs' == qs[l := qs[l] + [p]]
    ensures p in qs'[l] && forall m, x :: 0 <= m < NUM_QUEUES && x in qs[m] ==> x in qs'[m]
  {
  }

  lemma OnlyMore(t: Table, t1: Table, qs: Queues, t': Table, qs': Queues, p: nat)
    requires OnlyRenewed(t, t1, qs, p) && p < NPROC && t[p].state == Runnable
    requires t'[p].queue < NUM_QUEUES && t' == t1[p := t'[p]] && qs' == qs[t'[p].queue := qs[t'[p].queue] + [p]]
    ensures OnlyRenewed(t, t', qs', p + 1)
  {
    forall l, x | 0 <= l < NUM_QUEUES && x in qs'[l]
      ensures x < p + 1 && x < NPROC && t[x].state == Runnable && t'[x].queue == l
    {
      assert x in qs[l] || (x == p && l == t'[p].queue);
    }
  }

  /** The boost, when it is due: every RUNNABLE process is queued anew in slot order, and the clock starts again. */
  lemma BoostEffect(s: Sched)
    requires s.clock > BOOST
    ensures Renewed(s.procs, Boosted(s).procs, Boosted(s).qs, NPROC) && Boosted(s).clock == 0
  {
    hide Requeued;
    RequeuedRenews(s, NPROC);
  }
}
