/**
  A sleep lock shared by any number of processes, interleaved at every acquisition and
  release of the two kinds of spin lock involved: the one inside the sleep lock and each
  process's own.  The steps are those of acquiresleep and releasesleep with sleep, wakeup
  and the scheduler's part in them.
 */
module SleepLock {

  /** Where a process is; its next step is what the comment says. */
  datatype Pc =
    | Out                 // acquiresleep is called
    | Want                // acquire(&lk->lk)
    | Test                // while (lk->locked), else lk->locked = 1
    | Doze                // sleep: acquire(&p->lock)
    | Drop                // release(lk)
    | Fall                // p->state = SLEEPING
    | Sunk                // sched: the scheduler releases p->lock
    | Asleep              // once RUNNABLE: the scheduler acquires p->lock and runs p
    | Awake               // release(&p->lock)
    | Relock              // acquire(lk)
    | Leave               // release(&lk->lk), end of acquiresleep
    | Owner               // releasesleep is called
    | Enter               // acquire(&lk->lk)
    | Unset               // lk->locked = 0
    | Scan(i: nat)        // wakeup: acquire(&proc[i].lock)
    | Check(i: nat)       // make proc[i] RUNNABLE if it sleeps; release(&proc[i].lock)
    | Done                // release(&lk->lk), end of releasesleep

  datatype Holder = Nobody | By(p: nat)

  datatype RunState = Running | Sleeping | Runnable

  /** `pid` is Nobody exactly when lk->locked is 0. */
  datatype State = State(pcs: seq<Pc>, states: seq<RunState>, plocks: seq<Holder>, lk: Holder, pid: Holder)

  datatype Action = Move(p: nat) | Kill(p: nat)

  ghost predicate Shaped(s: State) {
    |s.pcs| == |s.states| == |s.plocks|
  }

  predicate CanMove(s: State, p: nat)
    requires p < |s.pcs| == |s.states| == |s.plocks|
  {
    match s.pcs[p]
    case Want => s.lk == Nobody
    case Doze => s.plocks[p] == Nobody
    case Asleep => s.states[p] == Runnable && s.plocks[p] == Nobody
    case Relock => s.lk == Nobody
    case Enter => s.lk == Nobody
    case Scan(i) => i >= |s.pcs| || i == p || s.plocks[i] == Nobody
    case _ => true
  }

  ghost predicate Enabled(s: State, a: Action) {
    Shaped(s) && a.p < |s.pcs| && if a.Move? then CanMove(s, a.p) else s.plocks[a.p] == Nobody
  }

  function At(s: State, p: nat, pc: Pc): (s': State)
    requires p < |s.pcs|
  {
    s.(pcs := s.pcs[p := pc])
  }

  function Moved(s: State, p: nat): (s': State)
    requires p < |s.pcs| == |s.states| == |s.plocks|
  {
    match s.pcs[p]
    case Out => At(s, p, Want)
    case Want => At(s, p, Test).(lk := By(p))
    case Test => if s.pid != Nobody then At(s, p, Doze) else At(s, p, Leave).(pid := By(p))
    case Doze => At(s, p, Drop).(plocks := s.plocks[p := By(p)])
    case Drop => At(s, p, Fall).(lk := Nobody)
    case Fall => At(s, p, Sunk).(states := s.states[p := Sleeping])
    case Sunk => At(s, p, Asleep).(plocks := s.plocks[p := Nobody])
    case Asleep => At(s, p, Awake).(states := s.states[p := Running], plocks := s.plocks[p := By(p)])
    case Awake => At(s, p, Relock).(plocks := s.plocks[p := Nobody])
    case Relock => At(s, p, Test).(lk := By(p))
    case Leave => At(s, p, Owner).(lk := Nobody)
    case Owner => At(s, p, Enter)
    case Enter => At(s, p, Unset).(lk := By(p))
    case Unset => At(s, p, Scan(0)).(pid := Nobody)
    case Scan(i) =>
      if i >= |s.pcs| then At(s, p, Done)
      else if i == p then At(s, p, Scan(i + 1))
      else At(s, p, Check(i)).(plocks := s.plocks[i := By(p)])
    case Check(i) =>
      if i >= |s.pcs| then s
      else
        var woken := if s.states[i] == Sleeping then s.states[i := Runnable] else s.states;
        At(s, p, Scan(i + 1)).(states := woken, plocks := s.plocks[i := Nobody])
    case Done => At(s, p, Out).(lk := Nobody)
  }

  function Do(s: State, a: Action): (s': State)
    requires a.p < |s.pcs| == |s.states| == |s.plocks|
  {
    if a.Move? then Moved(s, a.p)
    else if s.states[a.p] == Sleeping then s.(states := s.states[a.p := Runnable])
    else s
  }

  ghost predicate Init(s: State) {
    && Shaped(s) && s.lk == Nobody && s.pid == Nobody
    && forall p :: 0 <= p < |s.pcs| ==> s.pcs[p] == Out && s.states[p] == Running && s.plocks[p] == Nobody
  }

  datatype Run = Start(s: State) | Then(before: Run, a: Action, s: State) {
    ghost predicate Legal() {
      match this
      case Start(s) => Init(s)
      case Then(before, a, s) => before.Legal() && Enabled(before.s, a) && s == Do(before.s, a)
    }
  }

  // ---------------------------------------------------------------- invariant

  predicate HoldsLk(pc: Pc) {
    pc.Test? || pc.Doze? || pc.Drop? || pc.Leave? || pc.Unset? || pc.Scan? || pc.Check? || pc.Done?
  }

  predicate HoldsOwn(pc: Pc) {
    pc.Drop? || pc.Fall? || pc.Sunk? || pc.Awake?
  }

  /** Between setting and clearing lk->locked. */
  predicate Owns(pc: Pc) {
    pc.Leave? || pc.Owner? || pc.Enter? || pc.Unset?
  }

  predicate Scanning(pc: Pc) {
    pc.Scan? || pc.Check?
  }

  /** The process sleeps, or has let go of lk and is about to. */
  predicate Sleeps(s: State, p: nat)
    requires p < |s.pcs| == |s.states|
  {
    s.states[p] == Sleeping || s.pcs[p].Fall?
  }

  /** Who holds the inner lock and who owns the sleep lock. */
  ghost predicate LkOk(s: State, p: nat)
    requires p < |s.pcs|
  {
    && (HoldsLk(s.pcs[p]) <==> s.lk == By(p)) && (Owns(s.pcs[p]) <==> s.pid == By(p))
    && (s.pcs[p].Doze? || s.pcs[p].Drop? ==> s.pid != Nobody)
  }

  /** Which process locks a process holds. */
  ghost predicate OwnOk(s: State, p: nat)
    requires Shaped(s) && p < |s.pcs|
  {
    && (HoldsOwn(s.pcs[p]) <==> s.plocks[p] == By(p))
    && (s.pcs[p].Check? ==> s.pcs[p].i < |s.pcs| && s.pcs[p].i != p && s.plocks[s.pcs[p].i] == By(p))
  }

  ghost predicate StateOk(s: State, p: nat)
    requires Shaped(s) && p < |s.pcs|
  {
    (s.pcs[p].Sunk? ==> s.states[p] == Sleeping) && (s.states[p] == Running <==> !s.pcs[p].Sunk? && !s.pcs[p].Asleep?)
  }

  ghost predicate ProcOk(s: State, p: nat)
    requires Shaped(s) && p < |s.pcs|
  {
    LkOk(s, p) && OwnOk(s, p) && StateOk(s, p)
  }

  /** Someone who holds a process's lock is that process or is checking it. */
  ghost predicate LockOk(s: State, q: nat)
    requires Shaped(s) && q < |s.pcs|
  {
    match s.plocks[q]
    case Nobody => true
    case By(p) => p == q || (p < |s.pcs| && s.pcs[p] == Check(q))
  }

  /** While the lock is free, a sleeper is still ahead of a waker's scan. */
  ghost predicate WakeOk(s: State, p: nat)
    requires Shaped(s) && p < |s.pcs|
  {
    s.pid == Nobody && Sleeps(s, p) ==>
      s.lk.By? && s.lk.p < |s.pcs| && Scanning(s.pcs[s.lk.p]) && s.pcs[s.lk.p].i <= p
  }

  ghost predicate Inv(s: State) {
    && Shaped(s)
    && (s.lk.By? ==> s.lk.p < |s.pcs|) && (s.pid.By? ==> s.pid.p < |s.pcs|)
    && (forall p {:trigger ProcOk(s, p)} :: 0 <= p < |s.pcs| ==> ProcOk(s, p))
    && (forall p {:trigger LockOk(s, p)} :: 0 <= p < |s.pcs| ==> LockOk(s, p))
    && (forall p {:trigger WakeOk(s, p)} :: 0 <= p < |s.pcs| ==> WakeOk(s, p))
  }

  lemma InitInv(s: State)
    requires Init(s)
    ensures Inv(s)
  {
  }

  lemma MoveSelf(s: State, p: nat)
    requires Inv(s) && p < |s.pcs| && CanMove(s, p)
    ensures Shaped(Moved(s, p)) && ProcOk(Moved(s, p), p)
  {
    SelfOk(s, p);
  }

  lemma SelfOk(s: State, p: nat)
    requires Shaped(s) && p < |s.pcs| && ProcOk(s, p) && LockOk(s, p) && CanMove(s, p)
    ensures Shaped(Moved(s, p)) && ProcOk(Moved(s, p), p)
  {
    hide LkOk, OwnOk, StateOk, LockOk;
    SelfLk(s, p);
    SelfOwn(s, p);
    SelfState(s, p);
  }

  lemma SelfLk(s: State, p: nat)
    requires Shaped(s) && p < |s.pcs| && LkOk(s, p) && CanMove(s, p)
    ensures Shaped(Moved(s, p)) && LkOk(Moved(s, p), p)
  {
  }

  lemma SelfOwn(s: State, p: nat)
    requires Shaped(s) && p < |s.pcs| && OwnOk(s, p) && LockOk(s, p) && CanMove(s, p)
    ensures Shaped(Moved(s, p)) && OwnOk(Moved(s, p), p)
  {
  }

  lemma SelfState(s: State, p: nat)
    requires Shaped(s) && p < |s.pcs| && OwnOk(s, p) && StateOk(s, p) && CanMove(s, p)
    ensures Shaped(Moved(s, p)) && StateOk(Moved(s, p), p)
  {
  }

  lemma MoveOther(s: State, p: nat, q: nat)
    requires Inv(s) && p < |s.pcs| && q < |s.pcs| && p != q && CanMove(s, p)
    ensures Shaped(Moved(s, p)) && ProcOk(Moved(s, p), q)
  {
    hide WakeOk;
    OtherOk(s, p, q);
  }

  lemma OtherOk(s: State, p: nat, q: nat)
    requires Shaped(s) && p < |s.pcs| && q < |s.pcs| && p != q && ProcOk(s, p) && ProcOk(s, q) && LockOk(s, q) && CanMove(s, p)
    ensures Shaped(Moved(s, p)) && ProcOk(Moved(s, p), q)
  {
    hide LkOk, OwnOk, StateOk;
    OtherLk(s, p, q);
    OtherOwn(s, p, q);
    OtherState(s, p, q);
  }

  lemma OtherLk(s: State, p: nat, q: nat)
    requires Shaped(s) && p < |s.pcs| && q < |s.pcs| && p != q && LkOk(s, p) && LkOk(s, q) && CanMove(s, p)
    ensures LkOk(Moved(s, p), q)
  {
  }

  lemma OtherOwn(s: State, p: nat, q: nat)
    requires Shaped(s) && p < |s.pcs| && q < |s.pcs| && p != q && LkOk(s, p) && LkOk(s, q) && OwnOk(s, p) && OwnOk(s, q) && CanMove(s, p)
    ensures Shaped(Moved(s, p)) && OwnOk(Moved(s, p), q)
  {
  }

  lemma OtherState(s: State, p: nat, q: nat)
    requires Shaped(s) && p < |s.pcs| && q < |s.pcs| && p != q && OwnOk(s, p) && OwnOk(s, q) && StateOk(s, q) && CanMove(s, p)
    ensures Shaped(Moved(s, p)) && StateOk(Moved(s, p), q)
  {
  }

  lemma MoveLock(s: State, p: nat, q: nat)
    requires Inv(s) && p < |s.pcs| && q < |s.pcs| && CanMove(s, p)
    ensures Shaped(Moved(s, p)) && LockOk(Moved(s, p), q)
  {
    assert ProcOk(s, p) && LockOk(s, q) && LockOk(s, p);
  }

  lemma MoveWake(s: State, p: nat, q: nat)
    requires Inv(s) && p < |s.pcs| && q < |s.pcs| && CanMove(s, p)
    ensures Shaped(Moved(s, p)) && WakeOk(Moved(s, p), q)
  {
    assert ProcOk(s, p) && ProcOk(s, q) && WakeOk(s, q) && LockOk(s, q);
  }

  lemma MoveInv(s: State, p: nat)
    requires Inv(s) && p < |s.pcs| && CanMove(s, p)
    ensures Inv(Moved(s, p))
  {
    hide CanMove, ProcOk, LockOk, WakeOk;
    var s' := Moved(s, p);
    forall q | 0 <= q < |s.pcs|
      ensures ProcOk(s', q) && LockOk(s', q) && WakeOk(s', q)
    {
      MoveSelf(s, p);
      if q != p {
        MoveOther(s, p, q);
      }
      MoveLock(s, p, q);
      MoveWake(s, p, q);
    }
  }

  lemma KillInv(s: State, p: nat)
    requires Inv(s) && p < |s.pcs| && s.plocks[p] == Nobody
    ensures Inv(Do(s, Kill(p)))
  {
    var s' := Do(s, Kill(p));
    assert ProcOk(s, p);
    forall q | 0 <= q < |s.pcs|
      ensures ProcOk(s', q) && LockOk(s', q) && WakeOk(s', q)
    {
      assert ProcOk(s, q) && LockOk(s, q) && WakeOk(s, q);
    }
  }

  lemma {:induction false} RunInv(r: Run)
    requires r.Legal()
    ensures Inv(r.s)
  {
    hide Inv;
    match r
    case Start(s) => InitInv(s);
    case Then(before, a, s) =>
      RunInv(before);
      if a.Move? {
        MoveInv(before.s, a.p);
      } else {
        KillInv(before.s, a.p);
      }
  }

  // ---------------------------------------------------------------- what it comes to

  /** At most one process is between acquiresleep and releasesleep, and lk->locked says whether there is one. */
  lemma MutualExclusion(r: Run, p: nat, q: nat)
    requires r.Legal() && p < |r.s.pcs| && q < |r.s.pcs| && Owns(r.s.pcs[p]) && Owns(r.s.pcs[q])
    ensures p == q && r.s.pid == By(p)
  {
    RunInv(r);
    assert ProcOk(r.s, p) && ProcOk(r.s, q);
  }

  /**
    No wakeup is lost: while the lock is free nobody sleeps, or is committed to sleeping,
    unless a release is in progress whose scan has yet to reach that process.
   */
  lemma NoLostWakeup(r: Run, p: nat)
    requires r.Legal() && p < |r.s.pcs| && Sleeps(r.s, p) && r.s.pid == Nobody
    ensures exists w :: 0 <= w < |r.s.pcs| && Scanning(r.s.pcs[w]) && r.s.pcs[w].i <= p
  {
    RunInv(r);
    assert WakeOk(r.s, p);
  }

  /** Somebody can go on: the holder of the inner lock, or one who holds the process lock that it waits for. */
  lemma HolderGoesOn(s: State, h: nat) returns (p: nat)
    requires Inv(s) && h < |s.pcs| && s.lk == By(h)
    ensures p < |s.pcs| && CanMove(s, p) && s.pcs[p] != Out
  {
    assert ProcOk(s, h) && LockOk(s, h);
    p := h;
    var pc := s.pcs[h];
    if pc.Doze? && s.plocks[h] != Nobody {
      var w := s.plocks[h].p;
      assert ProcOk(s, w);
      p := w;
    } else if pc.Scan? && pc.i < |s.pcs| && pc.i != h && s.plocks[pc.i] != Nobody {
      var w := s.plocks[pc.i].p;
      assert LockOk(s, pc.i) && ProcOk(s, pc.i) && ProcOk(s, w);
      p := w;
    }
  }

  /** As long as some process has work to do, some process can take a step. */
  lemma DeadlockFree(r: Run, q: nat) returns (p: nat)
    requires r.Legal() && q < |r.s.pcs|
    ensures p < |r.s.pcs| && CanMove(r.s, p) && (r.s.pcs[q] != Out ==> r.s.pcs[p] != Out)
  {
    RunInv(r);
    var s := r.s;
    assert ProcOk(s, q) && LockOk(s, q) && WakeOk(s, q);
    if CanMove(s, q) {
      p := q;
    } else if s.lk.By? {
      p := HolderGoesOn(s, s.lk.p);
    } else if s.plocks[q].By? {
      p := s.plocks[q].p;
    } else {
      p := s.pid.p;
      assert ProcOk(s, p);
    }
  }
}
