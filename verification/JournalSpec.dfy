/**
  The journaling pipeline as interleaved steps of any number of writers and of its three
  threads.  A thread takes requests from one ring and, but for the last, hands them on to
  the next; each step is one semaphore operation, one ring operation, or a call into the
  layers around the journal.
 */
module JournalSpec {
  import opened RingBuffer

  const STAGES := 3

  /** A writer, in request_write. */
  datatype Writer =
    | Reserve             // sem_wait(HasSpace)
    | Lock                // sem_wait(mutex)
    | Fill                // enqueue
    | Unlock              // sem_post(mutex)
    | Announce            // sem_post(NotEmpty)
    | Finished

  /** A thread; the last one completes the request instead of passing it on. */
  datatype Pc =
    | Idle                // sem_wait(NotEmpty)
    | LockIn              // sem_wait(mutex)
    | Take                // dequeue, and issue the writes of this stage
    | UnlockIn            // sem_post(mutex)
    | Release             // sem_post(HasSpace)
    | Claim               // sem_wait(HasSpace) of the next ring; the last thread: write_complete
    | LockOut             // sem_wait(mutex)
    | Pass                // enqueue into the next ring
    | PostFirst           // sem_post(NotEmpty) of the next ring, before the mutex
    | UnlockOut           // sem_post(mutex)
    | PostLast            // sem_post(NotEmpty) of the next ring, after the mutex

  datatype Kind = Data | TxBegin | JournalBitmap | JournalInode | TxEnd | Bitmap | Inode | Complete

  datatype Event = Event(kind: Kind, request: nat)

  /** Ring j feeds thread j.  `arrived`, `taken`, `passed` and `trace` record the history. */
  datatype State = State(
    writers: seq<Writer>, pcs: seq<Pc>, hand: seq<nat>, rings: seq<Ring>,
    mutex: nat, space: seq<nat>, items: seq<nat>,
    arrived: seq<nat>, taken: seq<nat>, passed: seq<nat>, trace: seq<Event>)

  datatype Action = Write(i: nat) | Step(j: nat)

  /** Thread 1 posts before it unlocks, thread 2 after. */
  predicate PostsFirst(j: nat) {
    j == 0
  }

  function Issued(j: nat, w: nat): (es: seq<Event>) {
    if j == 0 then [Event(Data, w), Event(TxBegin, w), Event(JournalBitmap, w), Event(JournalInode, w)]
    else if j == 1 then [Event(TxEnd, w)]
    else [Event(Bitmap, w), Event(Inode, w)]
  }

  ghost predicate Shaped(s: State) {
    && |s.pcs| == |s.hand| == |s.rings| == |s.space| == |s.items| == |s.taken| == |s.passed| == STAGES
    && forall j :: 0 <= j < STAGES ==> Ok(s.rings[j])
  }

  // ---------------------------------------------------------------- steps

  ghost predicate Enabled(s: State, a: Action)
    requires Shaped(s)
  {
    match a
    case Write(i) =>
      i < |s.writers| &&
      (match s.writers[i]
       case Reserve => s.space[0] > 0
       case Lock => s.mutex > 0
       case Finished => false
       case _ => true)
    case Step(j) =>
      j < STAGES &&
      (match s.pcs[j]
       case Idle => s.items[j] > 0
       case LockIn => s.mutex > 0
       case Claim => j == STAGES - 1 || s.space[j + 1] > 0
       case LockOut => s.mutex > 0
       case _ => true)
  }

  ghost function DoWrite(s: State, i: nat): (s': State)
    requires Shaped(s) && Enabled(s, Write(i))
  {
    match s.writers[i]
    case Reserve => s.(writers := s.writers[i := Lock], space := s.space[0 := s.space[0] - 1])
    case Lock => s.(writers := s.writers[i := Fill], mutex := s.mutex - 1)
    case Fill => s.(writers := s.writers[i := Unlock], rings := s.rings[0 := Put(s.rings[0], i)], arrived := s.arrived + [i])
    case Unlock => s.(writers := s.writers[i := Announce], mutex := s.mutex + 1)
    case Announce => s.(writers := s.writers[i := Finished], items := s.items[0 := s.items[0] + 1])
    case Finished => s
  }

  ghost function DoStep(s: State, j: nat): (s': State)
    requires Shaped(s) && Enabled(s, Step(j))
  {
    match s.pcs[j]
    case Idle => s.(pcs := s.pcs[j := LockIn], items := s.items[j := s.items[j] - 1])
    case LockIn => s.(pcs := s.pcs[j := Take], mutex := s.mutex - 1)
    case Take =>
      var w := First(s.rings[j]);
      s.(pcs := s.pcs[j := UnlockIn], hand := s.hand[j := w], rings := s.rings[j := Get(s.rings[j])],
         taken := s.taken[j := s.taken[j] + 1], trace := s.trace + Issued(j, w))
    case UnlockIn => s.(pcs := s.pcs[j := Release], mutex := s.mutex + 1)
    case Release => s.(pcs := s.pcs[j := Claim], space := s.space[j := s.space[j] + 1])
    case Claim =>
      if j == STAGES - 1
      then s.(pcs := s.pcs[j := Idle], passed := s.passed[j := s.passed[j] + 1], trace := s.trace + [Event(Complete, s.hand[j])])
      else s.(pcs := s.pcs[j := LockOut], space := s.space[j + 1 := s.space[j + 1] - 1])
    case LockOut => s.(pcs := s.pcs[j := Pass], mutex := s.mutex - 1)
    case Pass =>
      if j == STAGES - 1 then s
      else s.(pcs := s.pcs[j := if PostsFirst(j) then PostFirst else UnlockOut],
              rings := s.rings[j + 1 := Put(s.rings[j + 1], s.hand[j])], passed := s.passed[j := s.passed[j] + 1])
    case PostFirst =>
      if j == STAGES - 1 then s
      else s.(pcs := s.pcs[j := UnlockOut], items := s.items[j + 1 := s.items[j + 1] + 1])
    case UnlockOut => s.(pcs := s.pcs[j := if PostsFirst(j) then Idle else PostLast], mutex := s.mutex + 1)
    case PostLast =>
      if j == STAGES - 1 then s
      else s.(pcs := s.pcs[j := Idle], items := s.items[j + 1 := s.items[j + 1] + 1])
  }

  ghost function Do(s: State, a: Action): (s': State)
    requires Shaped(s) && Enabled(s, a)
  {
    if a.Write? then DoWrite(s, a.i) else DoStep(s, a.j)
  }

  /** init_journal, with n writers about to call request_write. */
  ghost predicate Init(s: State) {
    && Shaped(s) && (forall i :: 0 <= i < |s.writers| ==> s.writers[i] == Reserve)
    && s.mutex == 1 && s.arrived == [] && s.trace == []
    && forall j :: 0 <= j < STAGES ==>
         s.pcs[j] == Idle && s.rings[j].size == 0 && s.space[j] == BUFFER_SIZE && s.items[j] == 0 && s.taken[j] == 0 && s.passed[j] == 0
  }

  datatype Run = Start(s: State) | Then(before: Run, a: Action, s: State) {
    ghost predicate Legal() {
      match this
      case Start(s) => Init(s)
      case Then(before, a, s) => before.Legal() && Shaped(before.s) && Enabled(before.s, a) && s == Do(before.s, a)
    }
  }

  // ---------------------------------------------------------------- counting writers

  ghost function Bit(b: bool): (n: nat) {
    if b then 1 else 0
  }

  /** Writers that hold space in ring 0 but have not filled it. */
  ghost function Reserved(ws: seq<Writer>): (n: nat) {
    if ws == [] then 0 else Reserved(ws[1..]) + Bit(ws[0].Lock? || ws[0].Fill?)
  }

  /** Writers that have filled ring 0 but not announced it. */
  ghost function Unannounced(ws: seq<Writer>): (n: nat) {
    if ws == [] then 0 else Unannounced(ws[1..]) + Bit(ws[0].Unlock? || ws[0].Announce?)
  }

  /** Writers in the critical section. */
  ghost function Inside(ws: seq<Writer>): (n: nat) {
    if ws == [] then 0 else Inside(ws[1..]) + Bit(ws[0].Fill? || ws[0].Unlock?)
  }

  lemma {:induction false} CountsUpdate(ws: seq<Writer>, i: nat, w: Writer)
    requires i < |ws|
    ensures Reserved(ws[i := w]) + Bit(ws[i].Lock? || ws[i].Fill?) == Reserved(ws) + Bit(w.Lock? || w.Fill?)
    ensures Unannounced(ws[i := w]) + Bit(ws[i].Unlock? || ws[i].Announce?) == Unannounced(ws) + Bit(w.Unlock? || w.Announce?)
    ensures Inside(ws[i := w]) + Bit(ws[i].Fill? || ws[i].Unlock?) == Inside(ws) + Bit(w.Fill? || w.Unlock?)
  {
    if i == 0 {
      assert ws[0 := w][1..] == ws[1..];
    } else {
      CountsUpdate(ws[1..], i - 1, w);
      assert ws[i := w][1..] == ws[1..][i - 1 := w];
    }
  }

  lemma {:induction false} CountsAt(ws: seq<Writer>, i: nat)
    requires i < |ws|
    ensures (ws[i].Lock? || ws[i].Fill?) ==> Reserved(ws) > 0
    ensures (ws[i].Unlock? || ws[i].Announce?) ==> Unannounced(ws) > 0
    ensures (ws[i].Fill? || ws[i].Unlock?) ==> Inside(ws) > 0
  {
    if i > 0 {
      CountsAt(ws[1..], i - 1);
    }
  }

  lemma {:induction false} CountsZero(ws: seq<Writer>)
    requires forall i :: 0 <= i < |ws| ==> ws[i] == Reserve || ws[i] == Finished
    ensures Reserved(ws) == Unannounced(ws) == Inside(ws) == 0
  {
    if ws != [] {
      CountsZero(ws[1..]);
    }
  }

  /** A writer found where a count is positive. */
  lemma {:induction false} InsideWitness(ws: seq<Writer>) returns (i: nat)
    requires Inside(ws) > 0
    ensures i < |ws| && (ws[i].Fill? || ws[i].Unlock?)
  {
    if ws[0].Fill? || ws[0].Unlock? {
      i := 0;
    } else {
      i := InsideWitness(ws[1..]);
      i := i + 1;
    }
  }

  // ---------------------------------------------------------------- the semaphores

  /** Space taken in ring j and not yet filled, by whoever feeds it. */
  ghost function Owing(s: State, j: nat): (n: nat)
    requires Shaped(s) && j < STAGES
  {
    if j == 0 then Reserved(s.writers) else Bit(s.pcs[j - 1].LockOut? || s.pcs[j - 1].Pass?)
  }

  /** Requests in ring j that are not yet announced. */
  ghost function Silent(s: State, j: nat): (n: nat)
    requires Shaped(s) && j < STAGES
  {
    if j == 0 then Unannounced(s.writers)
    else Bit(s.pcs[j - 1].PostFirst? || s.pcs[j - 1].PostLast? || (s.pcs[j - 1].UnlockOut? && !PostsFirst(j - 1)))
  }

  ghost predicate PcOk(s: State, j: nat)
    requires Shaped(s) && j < STAGES
  {
    && (j == STAGES - 1 ==> !s.pcs[j].LockOut? && !s.pcs[j].Pass? && !s.pcs[j].PostFirst? && !s.pcs[j].UnlockOut? && !s.pcs[j].PostLast?)
    && (s.pcs[j].PostFirst? ==> PostsFirst(j)) && (s.pcs[j].PostLast? ==> !PostsFirst(j))
  }

  /** Free slots, requests in the ring, and slots on their way between the two make up the ring. */
  ghost predicate SpaceOk(s: State, j: nat)
    requires Shaped(s) && j < STAGES
  {
    s.space[j] + s.rings[j].size + Owing(s, j) + Bit(s.pcs[j].UnlockIn? || s.pcs[j].Release?) == BUFFER_SIZE
  }

  /** Every request in the ring is announced, about to be, or claimed by the thread that takes it. */
  ghost predicate ItemsOk(s: State, j: nat)
    requires Shaped(s) && j < STAGES
  {
    s.items[j] + Silent(s, j) + Bit(s.pcs[j].LockIn? || s.pcs[j].Take?) == s.rings[j].size
  }

  predicate InCritical(pc: Pc, j: nat) {
    pc.Take? || pc.UnlockIn? || pc.Pass? || pc.PostFirst? || pc.UnlockOut?
  }

  ghost predicate MutexOk(s: State)
    requires Shaped(s)
  {
    s.mutex + Inside(s.writers) + Bit(InCritical(s.pcs[0], 0)) + Bit(InCritical(s.pcs[1], 1)) + Bit(InCritical(s.pcs[2], 2)) == 1
  }

  ghost predicate Semaphores(s: State) {
    Shaped(s) && MutexOk(s) && forall j :: 0 <= j < STAGES ==> PcOk(s, j) && SpaceOk(s, j) && ItemsOk(s, j)
  }

  /** No ring overflows or underflows. */
  lemma RingFits(s: State, a: Action)
    requires Semaphores(s) && Enabled(s, a)
    ensures a.Write? && s.writers[a.i].Fill? ==> s.rings[0].size < BUFFER_SIZE
    ensures a.Step? && s.pcs[a.j].Take? ==> s.rings[a.j].size > 0
    ensures a.Step? && s.pcs[a.j].Pass? ==> a.j + 1 < STAGES && s.rings[a.j + 1].size < BUFFER_SIZE
  {
    if a.Write? {
      CountsAt(s.writers, a.i);
      assert SpaceOk(s, 0);
    } else {
      assert ItemsOk(s, a.j) && PcOk(s, a.j);
      if a.j + 1 < STAGES {
        assert SpaceOk(s, a.j + 1);
      }
    }
  }

  lemma WriteSemaphores(s: State, i: nat)
    requires Semaphores(s) && Enabled(s, Write(i))
    ensures Semaphores(DoWrite(s, i))
  {
    var s' := DoWrite(s, i);
    CountsUpdate(s.writers, i, s'.writers[i]);
    RingFits(s, Write(i));
    if s.writers[i].Fill? {
      PutAppends(s.rings[0], i);
    }
    forall j | 0 <= j < STAGES
      ensures PcOk(s', j) && SpaceOk(s', j) && ItemsOk(s', j)
    {
      assert PcOk(s, j) && SpaceOk(s, j) && ItemsOk(s, j);
    }
  }

  lemma StepShaped(s: State, j: nat)
    requires Semaphores(s) && Enabled(s, Step(j))
    ensures Shaped(DoStep(s, j))
  {
    RingFits(s, Step(j));
    if s.pcs[j].Take? {
      GetTakes(s.rings[j]);
    }
    if s.pcs[j].Pass? {
      PutAppends(s.rings[j + 1], s.hand[j]);
    }
  }

  /** The parts of the state that thread j's step leaves alone. */
  lemma StepElsewhere(s: State, j: nat, k: nat)
    requires Shaped(s) && Enabled(s, Step(j)) && k < STAGES && k != j
    ensures var s' := DoStep(s, j);
            && s'.writers == s.writers && s'.arrived == s.arrived
            && |s'.pcs| == |s'.hand| == |s'.taken| == |s'.passed| == STAGES && s'.pcs[k] == s.pcs[k] && s'.hand[k] == s.hand[k]
            && s'.taken[k] == s.taken[k] && s'.passed[k] == s.passed[k]
            && (k != j + 1 ==> |s'.rings| == |s'.space| == |s'.items| == STAGES
                               && s'.rings[k] == s.rings[k] && s'.space[k] == s.space[k] && s'.items[k] == s.items[k])
  {
  }

  lemma StepOwnSemaphores(s: State, j: nat)
    requires Shaped(s) && Enabled(s, Step(j)) && Shaped(DoStep(s, j)) && PcOk(s, j) && SpaceOk(s, j) && ItemsOk(s, j)
    ensures PcOk(DoStep(s, j), j) && SpaceOk(DoStep(s, j), j) && ItemsOk(DoStep(s, j), j)
  {
    hide Ok, DoStep, SpaceOk, ItemsOk, PcOk;
    StepOwnPc(s, j);
    StepOwnSpace(s, j);
    StepOwnItems(s, j);
  }

  lemma StepOwnSpace(s: State, j: nat)
    requires Shaped(s) && Enabled(s, Step(j)) && Shaped(DoStep(s, j)) && PcOk(s, j) && SpaceOk(s, j)
    ensures SpaceOk(DoStep(s, j), j)
  {
    hide Ok;
  }

  lemma StepOwnPc(s: State, j: nat)
    requires Shaped(s) && Enabled(s, Step(j)) && Shaped(DoStep(s, j)) && PcOk(s, j)
    ensures PcOk(DoStep(s, j), j)
  {
    hide Ok;
  }

  lemma StepOwnItems(s: State, j: nat)
    requires Shaped(s) && Enabled(s, Step(j)) && Shaped(DoStep(s, j)) && PcOk(s, j) && ItemsOk(s, j)
    ensures ItemsOk(DoStep(s, j), j)
  {
    hide Ok;
  }

  lemma StepNextSemaphores(s: State, j: nat)
    requires j + 1 < STAGES && Shaped(s) && Enabled(s, Step(j)) && Shaped(DoStep(s, j))
    requires PcOk(s, j) && SpaceOk(s, j + 1) && ItemsOk(s, j + 1)
    ensures SpaceOk(DoStep(s, j), j + 1) && ItemsOk(DoStep(s, j), j + 1)
  {
    hide Ok;
    assert SpaceOk(DoStep(s, j), j + 1);
  }

  lemma StepMutex(s: State, j: nat)
    requires Semaphores(s) && Enabled(s, Step(j)) && Shaped(DoStep(s, j))
    ensures MutexOk(DoStep(s, j))
  {
    assert PcOk(s, j);
  }

  lemma StepOtherSemaphores(s: State, j: nat, k: nat)
    requires Shaped(s) && Enabled(s, Step(j)) && Shaped(DoStep(s, j)) && k < STAGES && k != j
    requires PcOk(s, k) && SpaceOk(s, k) && ItemsOk(s, k)
    ensures PcOk(DoStep(s, j), k) && (k != j + 1 ==> SpaceOk(DoStep(s, j), k) && ItemsOk(DoStep(s, j), k))
  {
    hide DoStep;
    StepElsewhere(s, j, k);
    if 0 < k && k - 1 != j {
      StepElsewhere(s, j, k - 1);
    }
  }

  lemma StepSemaphores(s: State, j: nat)
    requires Semaphores(s) && Enabled(s, Step(j))
    ensures Semaphores(DoStep(s, j))
  {
    hide PcOk, SpaceOk, ItemsOk, MutexOk, DoStep;
    StepShaped(s, j);
    StepMutex(s, j);
    forall k | 0 <= k < STAGES
      ensures PcOk(DoStep(s, j), k) && SpaceOk(DoStep(s, j), k) && ItemsOk(DoStep(s, j), k)
    {
      if k == j {
        StepOwnSemaphores(s, j);
      } else {
        StepElsewhere(s, j, k);
        if k == j + 1 {
          StepNextSemaphores(s, j);
        }
        StepOtherSemaphores(s, j, k);
      }
    }
  }

  // ---------------------------------------------------------------- the requests

  predicate InHand(pc: Pc) {
    pc.UnlockIn? || pc.Release? || pc.Claim? || pc.LockOut? || pc.Pass?
  }

  /** How many requests have entered ring j. */
  ghost function Entered(s: State, j: nat): (n: nat)
    requires Shaped(s) && j < STAGES
  {
    if j == 0 then |s.arrived| else s.passed[j - 1]
  }

  /** Ring j holds, in arrival order, what has entered it and not been taken; thread j has the one before in hand. */
  ghost predicate FlowOk(s: State, j: nat)
    requires Shaped(s) && j < STAGES
  {
    && s.taken[j] <= Entered(s, j) <= |s.arrived|
    && Items(s.rings[j]) == s.arrived[s.taken[j]..Entered(s, j)]
    && s.taken[j] == s.passed[j] + Bit(InHand(s.pcs[j]))
    && (InHand(s.pcs[j]) ==> s.hand[j] == s.arrived[s.passed[j]])
  }

  predicate HasFilled(w: Writer) {
    w.Unlock? || w.Announce? || w.Finished?
  }

  /** The arrived requests are those of the writers that have filled the first ring, once each. */
  ghost predicate ArrivedOk(s: State) {
    && (forall i, j :: 0 <= i < j < |s.arrived| ==> s.arrived[i] != s.arrived[j])
    && forall i: nat :: i in s.arrived <==> i < |s.writers| && HasFilled(s.writers[i])
  }

  ghost predicate Flow(s: State) {
    Shaped(s) && ArrivedOk(s) && forall j :: 0 <= j < STAGES ==> FlowOk(s, j)
  }

  lemma WriteFlow(s: State, i: nat)
    requires Semaphores(s) && Flow(s) && Enabled(s, Write(i)) && Shaped(DoWrite(s, i))
    ensures Flow(DoWrite(s, i))
  {
    hide SpaceOk, ItemsOk, MutexOk;
    var s' := DoWrite(s, i);
    RingFits(s, Write(i));
    if s.writers[i].Fill? {
      PutAppends(s.rings[0], i);
    }
    forall j | 0 <= j < STAGES
      ensures FlowOk(s', j)
    {
      assert FlowOk(s, j);
    }
    assert ArrivedOk(s') by {
      forall x: nat
        ensures x in s'.arrived <==> x < |s'.writers| && HasFilled(s'.writers[x])
      {
        assert x in s.arrived <==> x < |s.writers| && HasFilled(s.writers[x]);
      }
    }
  }

  lemma StepOwnFlow(s: State, j: nat)
    requires Shaped(s) && Enabled(s, Step(j)) && Shaped(DoStep(s, j)) && PcOk(s, j) && FlowOk(s, j)
    requires s.pcs[j].Take? ==> s.rings[j].size > 0
    ensures FlowOk(DoStep(s, j), j)
  {
    hide Ok, Items;
    if s.pcs[j].Take? {
      GetTakes(s.rings[j]);
    }
    if j > 0 {
      StepElsewhere(s, j, j - 1);
    }
  }

  lemma StepNextFlow(s: State, j: nat)
    requires j + 1 < STAGES && Shaped(s) && Enabled(s, Step(j)) && Shaped(DoStep(s, j)) && PcOk(s, j) && FlowOk(s, j) && FlowOk(s, j + 1)
    requires s.pcs[j].Pass? ==> s.rings[j + 1].size < BUFFER_SIZE
    ensures FlowOk(DoStep(s, j), j + 1)
  {
    hide Ok, Items;
    if s.pcs[j].Pass? {
      PutAppends(s.rings[j + 1], s.hand[j]);
      assert s.arrived[s.taken[j + 1]..s.passed[j] + 1] == s.arrived[s.taken[j + 1]..s.passed[j]] + [s.arrived[s.passed[j]]];
    } else {
      NextQuiet(s, j);
    }
  }

  /** But for Pass, nothing of what enters the next ring changes. */
  lemma NextQuiet(s: State, j: nat)
    requires j + 1 < STAGES && Shaped(s) && Enabled(s, Step(j)) && Shaped(DoStep(s, j)) && !s.pcs[j].Pass?
    ensures var s' := DoStep(s, j);
            && s'.rings[j + 1] == s.rings[j + 1] && s'.passed == s.passed && s'.arrived == s.arrived
            && s'.taken[j + 1] == s.taken[j + 1] && s'.pcs[j + 1] == s.pcs[j + 1] && s'.hand[j + 1] == s.hand[j + 1]
  {
    hide Ok;
  }

  lemma StepOtherFlow(s: State, j: nat, k: nat)
    requires Shaped(s) && Enabled(s, Step(j)) && Shaped(DoStep(s, j)) && k < STAGES && k != j && k != j + 1 && FlowOk(s, k)
    ensures FlowOk(DoStep(s, j), k)
  {
    hide DoStep, Items;
    StepElsewhere(s, j, k);
    if 0 < k && k - 1 != j {
      StepElsewhere(s, j, k - 1);
    }
  }

  lemma StepArrived(s: State, j: nat)
    requires Shaped(s) && Enabled(s, Step(j)) && ArrivedOk(s)
    ensures ArrivedOk(DoStep(s, j))
  {
  }

  lemma StepFlow(s: State, j: nat)
    requires Semaphores(s) && Flow(s) && Enabled(s, Step(j)) && Shaped(DoStep(s, j))
    ensures Flow(DoStep(s, j))
  {
    hide PcOk, SpaceOk, ItemsOk, MutexOk, FlowOk, DoStep, ArrivedOk;
    RingFits(s, Step(j));
    StepArrived(s, j);
    forall k | 0 <= k < STAGES
      ensures FlowOk(DoStep(s, j), k)
    {
      if k == j {
        StepOwnFlow(s, j);
      } else if k == j + 1 {
        StepNextFlow(s, j);
      } else {
        StepOtherFlow(s, j, k);
      }
    }
  }

  // ---------------------------------------------------------------- the trace

  /** What the trace says about request w, in order. */
  ghost function Kinds(t: seq<Event>, w: nat): (ks: seq<Kind>) {
    if t == [] then []
    else Kinds(t[..|t| - 1], w) + if t[|t| - 1].request == w then [t[|t| - 1].kind] else []
  }

  lemma {:induction false} KindsAppend(t: seq<Event>, es: seq<Event>, w: nat)
    ensures Kinds(t + es, w) == Kinds(t, w) + Kinds(es, w)
  {
    if es == [] {
      assert t + es == t;
    } else {
      KindsAppend(t, es[..|es| - 1], w);
      assert (t + es)[..|t + es| - 1] == t + es[..|es| - 1];
    }
  }

  function StageKinds(j: nat): (ks: seq<Kind>) {
    if j == 0 then [Data, TxBegin, JournalBitmap, JournalInode] else if j == 1 then [TxEnd] else [Bitmap, Inode]
  }

  lemma IssuedKinds(j: nat, w: nat, x: nat)
    ensures Kinds(Issued(j, w), x) == if x == w then StageKinds(j) else []
  {
    if j == 0 {
      var d, b, m, n := Event(Data, w), Event(TxBegin, w), Event(JournalBitmap, w), Event(JournalInode, w);
      OneKind(d, x);
      OneKind(b, x);
      OneKind(m, x);
      OneKind(n, x);
      KindsAppend([d], [b], x);
      KindsAppend([d, b], [m], x);
      KindsAppend([d, b, m], [n], x);
      assert [d] + [b] == [d, b] && [d, b] + [m] == [d, b, m] && [d, b, m] + [n] == Issued(j, w);
    } else if j == 1 {
      OneKind(Event(TxEnd, w), x);
    } else {
      OneKind(Event(Bitmap, w), x);
      OneKind(Event(Inode, w), x);
      KindsAppend([Event(Bitmap, w)], [Event(Inode, w)], x);
      assert [Event(Bitmap, w)] + [Event(Inode, w)] == Issued(j, w);
    }
  }

  /** What must have been issued for the k-th request. */
  ghost function Script(s: State, k: nat): (ks: seq<Kind>)
    requires Shaped(s)
  {
    (if k < s.taken[0] then StageKinds(0) else []) + (if k < s.taken[1] then StageKinds(1) else [])
    + (if k < s.taken[2] then StageKinds(2) else []) + (if k < s.passed[2] then [Complete] else [])
  }

  ghost predicate TraceOk(s: State)
    requires Shaped(s)
  {
    && (forall k {:trigger s.arrived[k]} :: 0 <= k < |s.arrived| ==> Kinds(s.trace, s.arrived[k]) == Script(s, k))
    && (forall w: nat {:trigger Kinds(s.trace, w)} :: w !in s.arrived ==> Kinds(s.trace, w) == [])
  }

  /** No thread is ahead of the one before it. */
  lemma Chain(s: State)
    requires Flow(s)
    ensures s.passed[2] <= s.taken[2] <= s.passed[1] <= s.taken[1] <= s.passed[0] <= s.taken[0] <= |s.arrived|
  {
    assert FlowOk(s, 0) && FlowOk(s, 1) && FlowOk(s, 2);
  }

  lemma TakeTrace(s: State, j: nat)
    requires Flow(s) && TraceOk(s) && Enabled(s, Step(j)) && Shaped(DoStep(s, j)) && s.pcs[j].Take? && s.rings[j].size > 0
    ensures TraceOk(DoStep(s, j))
  {
    hide Items, Kinds, HasFilled, Script;
    var s' := DoStep(s, j);
    var w := First(s.rings[j]);
    Chain(s);
    assert FlowOk(s, j);
    GetTakes(s.rings[j]);
    assert w == s.arrived[s.taken[j]];
    forall x: nat
      ensures Kinds(s'.trace, x) == Kinds(s.trace, x) + if x == w then StageKinds(j) else []
    {
      KindsAppend(s.trace, Issued(j, w), x);
      IssuedKinds(j, w, x);
    }
    forall k | 0 <= k < |s.arrived|
      ensures Kinds(s'.trace, s.arrived[k]) == Script(s', k)
    {
      ScriptTake(s, s', j, k);
    }
  }

  lemma ScriptTake(s: State, s': State, j: nat, k: nat)
    requires Shaped(s) && Shaped(s') && j < STAGES && s'.taken == s.taken[j := s.taken[j] + 1] && s'.passed == s.passed
    requires s.passed[2] <= s.taken[2] <= s.taken[1] <= s.taken[0] && (j > 0 ==> s.taken[j] < s.taken[j - 1])
    ensures Script(s', k) == Script(s, k) + if k == s.taken[j] then StageKinds(j) else []
  {
  }

  lemma CompleteTrace(s: State)
    requires Flow(s) && TraceOk(s) && Enabled(s, Step(2)) && Shaped(DoStep(s, 2)) && s.pcs[2].Claim?
    ensures TraceOk(DoStep(s, 2))
  {
    hide Items, Kinds, HasFilled;
    var s' := DoStep(s, 2);
    var e := Event(Complete, s.hand[2]);
    Chain(s);
    assert FlowOk(s, 2);
    forall x: nat
      ensures Kinds(s'.trace, x) == Kinds(s.trace, x) + if x == s.hand[2] then [Complete] else []
    {
      KindsAppend(s.trace, [e], x);
      OneKind(e, x);
    }
  }

  lemma OneKind(e: Event, x: nat)
    ensures Kinds([e], x) == if x == e.request then [e.kind] else []
  {
    assert [e][..0] == [];
  }

  lemma StepTrace(s: State, j: nat)
    requires Semaphores(s) && Flow(s) && TraceOk(s) && Enabled(s, Step(j)) && Shaped(DoStep(s, j))
    ensures TraceOk(DoStep(s, j))
  {
    hide PcOk, SpaceOk, ItemsOk, MutexOk, FlowOk, ArrivedOk, Kinds;
    RingFits(s, Step(j));
    if s.pcs[j].Take? {
      TakeTrace(s, j);
    } else if s.pcs[j].Claim? && j == 2 {
      CompleteTrace(s);
    } else {
      QuietTrace(s, j);
    }
  }

  lemma QuietTrace(s: State, j: nat)
    requires Shaped(s) && TraceOk(s) && Enabled(s, Step(j)) && Shaped(DoStep(s, j)) && !s.pcs[j].Take? && !(s.pcs[j].Claim? && j == 2)
    requires j == 2 ==> !s.pcs[j].Pass?
    ensures TraceOk(DoStep(s, j))
  {
    hide Kinds, Ok;
    var s' := DoStep(s, j);
    assert s'.trace == s.trace && s'.arrived == s.arrived && s'.taken == s.taken && s'.passed[2] == s.passed[2];
  }

  lemma WriteTrace(s: State, i: nat)
    requires Semaphores(s) && Flow(s) && TraceOk(s) && Enabled(s, Write(i)) && Shaped(DoWrite(s, i))
    ensures TraceOk(DoWrite(s, i))
  {
    hide PcOk, SpaceOk, ItemsOk, MutexOk, Kinds;
    Chain(s);
    assert s.writers[i].Fill? ==> i !in s.arrived;
  }

  // ---------------------------------------------------------------- every run

  ghost predicate Inv(s: State) {
    Semaphores(s) && Flow(s) && TraceOk(s)
  }

  lemma InitInv(s: State)
    requires Init(s)
    ensures Inv(s)
  {
    CountsZero(s.writers);
  }

  lemma {:induction false} RunInv(r: Run)
    requires r.Legal()
    ensures Inv(r.s)
  {
    hide Semaphores, Flow, TraceOk, DoWrite, DoStep;
    match r
    case Start(s) => InitInv(s);
    case Then(before, a, s) =>
      RunInv(before);
      if a.Write? {
        WriteSemaphores(before.s, a.i);
        SemaphoresShaped(s);
        WriteFlow(before.s, a.i);
        WriteTrace(before.s, a.i);
      } else {
        StepSemaphores(before.s, a.j);
        SemaphoresShaped(s);
        StepFlow(before.s, a.j);
        StepTrace(before.s, a.j);
      }
  }

  lemma SemaphoresShaped(s: State)
    requires Semaphores(s)
    ensures Shaped(s)
  {
  }

  /** No step of any run puts into a full ring or takes from an empty one. */
  lemma NoOverflow(r: Run, a: Action)
    requires r.Legal()
    ensures Shaped(r.s)
    ensures Enabled(r.s, a) ==>
      && (a.Write? && r.s.writers[a.i].Fill? ==> r.s.rings[0].size < BUFFER_SIZE)
      && (a.Step? && r.s.pcs[a.j].Take? ==> r.s.rings[a.j].size > 0)
      && (a.Step? && r.s.pcs[a.j].Pass? ==> a.j + 1 < STAGES && r.s.rings[a.j + 1].size < BUFFER_SIZE)
  {
    hide FlowOk, ArrivedOk, TraceOk;
    RunInv(r);
    if Enabled(r.s, a) {
      RingFits(r.s, a);
    }
  }

  /** For each ring: free slots, requests and slots in transit are always eight. */
  lemma SlotsConserved(r: Run, j: nat)
    requires r.Legal() && j < STAGES
    ensures Shaped(r.s) && SpaceOk(r.s, j) && ItemsOk(r.s, j)
  {
    RunInv(r);
  }

  /** Two threads are never both in the critical section. */
  lemma CriticalAlone(r: Run, j: nat, k: nat)
    requires r.Legal() && Shaped(r.s) && j < STAGES && k < STAGES && InCritical(r.s.pcs[j], j) && InCritical(r.s.pcs[k], k)
    ensures j == k && r.s.mutex == 0 && forall i :: 0 <= i < |r.s.writers| ==> !r.s.writers[i].Fill? && !r.s.writers[i].Unlock?
  {
    hide Flow, TraceOk, SpaceOk, ItemsOk, PcOk, MutexOk;
    RunInv(r);
    OneInside(r.s, j, k);
  }

  lemma OneInside(s: State, j: nat, k: nat)
    requires Shaped(s) && MutexOk(s) && j < STAGES && k < STAGES && InCritical(s.pcs[j], j) && InCritical(s.pcs[k], k)
    ensures j == k && s.mutex == 0 && forall i :: 0 <= i < |s.writers| ==> !s.writers[i].Fill? && !s.writers[i].Unlock?
  {
    hide Ok, Inside;
    forall i | 0 <= i < |s.writers|
      ensures !s.writers[i].Fill? && !s.writers[i].Unlock?
    {
      CountsAt(s.writers, i);
    }
  }

  /** Whatever the interleaving, each request is issued in the prescribed order, and nothing twice. */
  lemma IssueOrder(r: Run, w: nat)
    requires r.Legal()
    ensures Kinds(r.s.trace, w) <= [Data, TxBegin, JournalBitmap, JournalInode, TxEnd, Bitmap, Inode, Complete]
    ensures Kinds(r.s.trace, w) != [] ==> w in r.s.arrived
  {
    RunInv(r);
    Chain(r.s);
    if w in r.s.arrived {
      var k :| 0 <= k < |r.s.arrived| && r.s.arrived[k] == w;
      assert Kinds(r.s.trace, w) == Script(r.s, k);
    }
  }

  /** The requests in the order in which their writers have put them into the first ring. */
  ghost function Entries(r: Run): (ws: seq<nat>) {
    match r
    case Start(s) => []
    case Then(before, a, s) =>
      if a.Write? && a.i < |before.s.writers| && before.s.writers[a.i].Fill? then Entries(before) + [a.i] else Entries(before)
  }

  lemma {:induction false} ArrivedAreEntries(r: Run)
    requires r.Legal()
    ensures r.s.arrived == Entries(r)
  {
    if r.Then? {
      ArrivedAreEntries(r.before);
    }
  }

  /** Requests complete in the order in which they arrived: the completed ones are the first passed[2]. */
  lemma CompletedInOrder(r: Run, k: nat)
    requires r.Legal() && k < |r.s.arrived|
    ensures r.s.arrived == Entries(r)
    ensures |r.s.passed| == STAGES && (Complete in Kinds(r.s.trace, r.s.arrived[k]) <==> k < r.s.passed[2])
    ensures k < r.s.passed[2] ==>
      Kinds(r.s.trace, r.s.arrived[k]) == [Data, TxBegin, JournalBitmap, JournalInode, TxEnd, Bitmap, Inode, Complete]
  {
    hide Entries, Kinds, Do, Enabled, Semaphores;
    RunInv(r);
    ArrivedAreEntries(r);
    Chain(r.s);
    assert Kinds(r.s.trace, r.s.arrived[k]) == Script(r.s, k);
    assert Complete !in StageKinds(0) && Complete !in StageKinds(1) && Complete !in StageKinds(2);
    if k < r.s.passed[2] {
      assert Script(r.s, k)[7] == Complete;
    }
  }

  // ---------------------------------------------------------------- progress

  /** Whoever is in the critical section can go on. */
  lemma SomeoneInside(s: State) returns (a: Action)
    requires Semaphores(s) && s.mutex == 0
    ensures Enabled(s, a)
  {
    if Inside(s.writers) > 0 {
      var i := InsideWitness(s.writers);
      a := Write(i);
    } else {
      a := Step(if InCritical(s.pcs[0], 0) then 0 else if InCritical(s.pcs[1], 1) then 1 else 2);
    }
  }

  /** No thread holds anything: each waits for a request. */
  ghost predicate AllIdle(s: State) {
    forall j :: 0 <= j < STAGES ==> j < |s.pcs| && s.pcs[j].Idle?
  }

  /**
    As long as a request is pending some step is enabled; when none is, every writer has
    returned and every request has been completed.
   */
  lemma Progress(r: Run)
    requires r.Legal()
    ensures Shaped(r.s)
    ensures (forall a :: !Enabled(r.s, a)) ==>
      AllIdle(r.s) && |r.s.arrived| == r.s.passed[2] && forall i :: 0 <= i < |r.s.writers| ==> r.s.writers[i].Finished? && i in r.s.arrived
  {
    RunInv(r);
    var s := r.s;
    if forall a :: !Enabled(s, a) {
      if s.mutex == 0 {
        var a := SomeoneInside(s);
        assert false;
      }
      StuckWriters(s);
      CountsZero(s.writers);
      StuckThreads(s);
      Drained(s);
      assert ArrivedOk(s);
    }
  }

  lemma StuckWriters(s: State)
    requires Semaphores(s) && s.mutex > 0 && forall a :: !Enabled(s, a)
    ensures forall i :: 0 <= i < |s.writers| ==> s.writers[i] == Finished || (s.writers[i] == Reserve && s.space[0] == 0)
  {
    forall i | 0 <= i < |s.writers|
      ensures s.writers[i] == Finished || (s.writers[i] == Reserve && s.space[0] == 0)
    {
      assert !Enabled(s, Write(i));
    }
  }

  lemma StuckThreads(s: State)
    requires Semaphores(s) && s.mutex > 0 && Reserved(s.writers) == Unannounced(s.writers) == 0 && forall a :: !Enabled(s, a)
    ensures forall j :: 0 <= j < STAGES ==> s.pcs[j].Idle? && s.rings[j].size == 0
    ensures s.space[0] == BUFFER_SIZE
  {
    assert !Enabled(s, Step(2)) && !Enabled(s, Step(1)) && !Enabled(s, Step(0));
    assert PcOk(s, 2) && ItemsOk(s, 2) && SpaceOk(s, 2);
    assert PcOk(s, 1) && ItemsOk(s, 1) && SpaceOk(s, 1);
    assert PcOk(s, 0) && ItemsOk(s, 0) && SpaceOk(s, 0);
  }

  lemma Drained(s: State)
    requires Flow(s) && forall j :: 0 <= j < STAGES ==> s.pcs[j].Idle? && s.rings[j].size == 0
    ensures s.passed[2] == |s.arrived|
  {
    assert FlowOk(s, 0) && FlowOk(s, 1) && FlowOk(s, 2);
  }
}
