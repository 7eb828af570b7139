/**
  The buffer cache as a state machine.  A buffer is found or recycled (bget), locked,
  filled from disk, edited by its holder, written, pinned and released, in any order that
  the callers' discipline allows.  `view` is what a flat map of blocks would hold.
 */
module CacheSpec {
  import opened Collections

  const NBUF := 30

  datatype Id = Id(dev: nat, block: nat)

  type Data = seq<int>

  /**
    `waiting` counts references whose holder does not have the lock yet, `leaving` those whose
    holder has given it up in brelse, `pins` those of bpin.
   */
  datatype Buf = Buf(id: Id, valid: bool, refcnt: int, data: Data, locked: bool, waiting: nat, leaving: nat, pins: nat)

  /** `order` lists the buffers from the most recently released on. */
  datatype Cache = Cache(bufs: seq<Buf>, order: seq<nat>, disk: map<Id, Data>, view: map<Id, Data>)

  function At(m: map<Id, Data>, id: Id): (d: Data) {
    if id in m then m[id] else []
  }

  // ---------------------------------------------------------------- bget

  /** bget's first loop: the position of the buffer that holds id, |order| if none. */
  function Find(bufs: seq<Buf>, order: seq<nat>, id: Id, k: nat): (i: nat)
    requires k <= |order|
    ensures k <= i <= |order|
    ensures i < |order| ==> order[i] < |bufs| && bufs[order[i]].id == id
    ensures forall j :: k <= j < i ==> order[j] >= |bufs| || bufs[order[j]].id != id
    decreases |order| - k
  {
    if k == |order| || (order[k] < |bufs| && bufs[order[k]].id == id) then k else Find(bufs, order, id, k + 1)
  }

  /** bget's second loop: the last position below k whose buffer is unreferenced, |order| if none. */
  function Victim(bufs: seq<Buf>, order: seq<nat>, k: nat): (i: nat)
    requires k <= |order|
    ensures i < k || i == |order|
    ensures i < k ==> order[i] < |bufs| && bufs[order[i]].refcnt == 0
    ensures forall j :: 0 <= j < k && (i == |order| || i < j) ==> order[j] >= |bufs| || bufs[order[j]].refcnt != 0
  {
    if k == 0 then |order| else if order[k - 1] < |bufs| && bufs[order[k - 1]].refcnt == 0 then k - 1 else Victim(bufs, order, k - 1)
  }

  function With(c: Cache, b: nat, r: Buf): (c': Cache)
    requires b < |c.bufs|
  {
    c.(bufs := c.bufs[b := r])
  }

  /** The buffer that bget settles on, or its panic. */
  datatype Got = Panic | Got(b: nat)

  function Choice(c: Cache, id: Id): (g: Got)
    ensures g.Got? ==> g.b < |c.bufs|
  {
    var i := Find(c.bufs, c.order, id, 0);
    if i < |c.order| then Got(c.order[i])
    else
      var v := Victim(c.bufs, c.order, |c.order|);
      if v < |c.order| then Got(c.order[v]) else Panic
  }

  function Referenced(c: Cache, id: Id): (c': Cache) {
    var g := Choice(c, id);
    if g.Panic? then c
    else
      var r := c.bufs[g.b];
      if Find(c.bufs, c.order, id, 0) < |c.order|
      then With(c, g.b, r.(refcnt := r.refcnt + 1, waiting := r.waiting + 1))
      else With(c, g.b, r.(id := id, valid := false, refcnt := 1, waiting := 1))
  }

  // ---------------------------------------------------------------- steps

  datatype Step =
    | Get(id: Id)               // bget, up to acquiresleep
    | Lock(b: nat)              // acquiresleep returns
    | Fill(b: nat)              // bread's disk read
    | Edit(b: nat, data: Data)  // the holder changes the contents
    | Write(b: nat)             // bwrite
    | Pin(b: nat)
    | Unpin(b: nat)
    | Unlock(b: nat)            // brelse's releasesleep
    | Release(b: nat)           // the rest of brelse, under bcache.lock

  predicate Held(c: Cache, b: nat) {
    b < |c.bufs| && c.bufs[b].locked
  }

  predicate Clean(c: Cache, b: nat)
    requires b < |c.bufs|
  {
    c.bufs[b].valid ==> c.bufs[b].data == At(c.disk, c.bufs[b].id)
  }

  /** The last reference goes only to a buffer whose contents are on disk. */
  predicate Disciplined(c: Cache, a: Step) {
    match a
    case Unpin(b) => b < |c.bufs| && (c.bufs[b].refcnt == 1 ==> Clean(c, b))
    case Release(b) => b < |c.bufs| && (c.bufs[b].refcnt == 1 ==> Clean(c, b))
    case _ => true
  }

  predicate Enabled(c: Cache, a: Step) {
    match a
    case Get(id) => id.dev != 0 && Choice(c, id).Got?
    case Lock(b) => b < |c.bufs| && c.bufs[b].waiting > 0 && !c.bufs[b].locked
    case Fill(b) => Held(c, b) && !c.bufs[b].valid
    case Edit(b, data) => Held(c, b) && c.bufs[b].valid
    case Write(b) => Held(c, b) && c.bufs[b].valid
    case Pin(b) => Held(c, b)
    case Unpin(b) => b < |c.bufs| && c.bufs[b].pins > 0
    case Unlock(b) => Held(c, b)
    case Release(b) => b < |c.bufs| && c.bufs[b].leaving > 0
  }

  /** b leaves its place and becomes the most recently released. */
  function ToFront(order: seq<nat>, b: nat): (r: seq<nat>) {
    [b] + Dropped(order, b)
  }

  function Dropped(order: seq<nat>, b: nat): (r: seq<nat>) {
    if order == [] then [] else if order[0] == b then order[1..] else [order[0]] + Dropped(order[1..], b)
  }

  function Do(c: Cache, a: Step): (c': Cache)
    requires Enabled(c, a)
  {
    match a
    case Get(id) => Referenced(c, id)
    case Lock(b) => With(c, b, c.bufs[b].(waiting := c.bufs[b].waiting - 1, locked := true))
    case Fill(b) => With(c, b, c.bufs[b].(valid := true, data := At(c.disk, c.bufs[b].id)))
    case Edit(b, data) => With(c, b, c.bufs[b].(data := data)).(view := c.view[c.bufs[b].id := data])
    case Write(b) => c.(disk := c.disk[c.bufs[b].id := c.bufs[b].data])
    case Pin(b) => With(c, b, c.bufs[b].(refcnt := c.bufs[b].refcnt + 1, pins := c.bufs[b].pins + 1))
    case Unpin(b) => With(c, b, c.bufs[b].(refcnt := c.bufs[b].refcnt - 1, pins := c.bufs[b].pins - 1))
    case Unlock(b) => With(c, b, c.bufs[b].(locked := false, leaving := c.bufs[b].leaving + 1))
    case Release(b) =>
      var r := c.bufs[b].(leaving := c.bufs[b].leaving - 1, refcnt := c.bufs[b].refcnt - 1);
      if r.refcnt == 0 then With(c, b, r).(order := ToFront(c.order, b)) else With(c, b, r)
  }

  /** The list after binit has linked the first n buffers: the last one linked comes first. */
  function FreshOrder(n: nat): (o: seq<nat>)
    ensures |o| == n && forall i :: 0 <= i < n ==> o[i] == n - 1 - i
  {
    if n == 0 then [] else [n - 1] + FreshOrder(n - 1)
  }

  function FreshBufs(): (bufs: seq<Buf>)
    ensures |bufs| == NBUF && forall i :: 0 <= i < NBUF ==> bufs[i] == Buf(Id(0, 0), false, 0, [], false, 0, 0, 0)
  {
    seq(NBUF, i => Buf(Id(0, 0), false, 0, [], false, 0, 0, 0))
  }

  /** After binit, over any disk. */
  function Fresh(disk: map<Id, Data>): (c: Cache) {
    Cache(FreshBufs(), FreshOrder(NBUF), disk, disk)
  }

  datatype Run = Start(c: Cache) | Then(before: Run, a: Step, c: Cache) {
    ghost predicate Legal() {
      match this
      case Start(c) => c == Fresh(c.disk)
      case Then(before, a, c) => before.Legal() && Enabled(before.c, a) && Disciplined(before.c, a) && c == Do(before.c, a)
    }
  }

  // ---------------------------------------------------------------- invariant

  /** Every buffer is in the list once. */
  ghost predicate OrderOk(c: Cache) {
    && |c.bufs| == NBUF == |c.order| && Distinct(c.order)
    && (forall i :: 0 <= i < |c.order| ==> c.order[i] < NBUF)
    && (forall b {:trigger b in c.order} :: 0 <= b < NBUF ==> b in c.order)
  }

  /** No block has two buffers. */
  ghost predicate UniqueOk(bufs: seq<Buf>) {
    forall i, j :: 0 <= i < j < |bufs| && bufs[i].id == bufs[j].id ==> bufs[i].id.dev == 0
  }

  /** References are those that wait, that hold the lock, that leave, and pins. */
  ghost predicate CountOk(r: Buf) {
    r.refcnt == r.waiting + r.leaving + r.pins + if r.locked then 1 else 0
  }

  ghost predicate DataOk(c: Cache, b: nat)
    requires b < |c.bufs|
  {
    var r := c.bufs[b];
    && CountOk(r) && (r.valid ==> r.id.dev != 0 && r.data == At(c.view, r.id)) && (r.refcnt == 0 ==> Clean(c, b))
  }

  ghost predicate Locked(bufs: seq<Buf>, id: Id) {
    exists b :: 0 <= b < |bufs| && bufs[b].locked && bufs[b].id == id
  }

  ghost predicate Cached(bufs: seq<Buf>, id: Id) {
    exists b :: 0 <= b < |bufs| && bufs[b].valid && bufs[b].id == id
  }

  /** A block without a valid buffer is on disk as the view has it. */
  ghost predicate DiskOk(c: Cache) {
    forall id {:trigger Cached(c.bufs, id)} :: !Cached(c.bufs, id) ==> At(c.disk, id) == At(c.view, id)
  }

  ghost predicate Inv(c: Cache) {
    && OrderOk(c) && UniqueOk(c.bufs) && DiskOk(c)
    && forall b {:trigger DataOk(c, b)} :: 0 <= b < |c.bufs| ==> DataOk(c, b)
  }

  lemma FreshInv(disk: map<Id, Data>)
    ensures Inv(Fresh(disk))
  {
    var c := Fresh(disk);
    forall b | 0 <= b < NBUF
      ensures b in c.order
    {
      assert c.order[NBUF - 1 - b] == b;
    }
  }

  // ---------------------------------------------------------------- steps that leave the list alone

  /** A change of one buffer's bookkeeping. */
  lemma Bookkeeping(c: Cache, b: nat, r: Buf)
    requires Inv(c) && b < NBUF && CountOk(r)
    requires r.id == c.bufs[b].id && r.valid == c.bufs[b].valid && r.data == c.bufs[b].data
    requires r.refcnt == 0 ==> Clean(c, b)
    ensures Inv(With(c, b, r))
  {
    var c' := With(c, b, r);
    forall x | 0 <= x < NBUF
      ensures DataOk(c', x)
    {
      assert DataOk(c, x);
    }
    forall id
      ensures Cached(c'.bufs, id) <==> Cached(c.bufs, id)
    {
      SameCached(c.bufs, c'.bufs, id);
    }
  }

  lemma SameCached(bufs: seq<Buf>, bufs': seq<Buf>, id: Id)
    requires |bufs'| == |bufs| && forall b :: 0 <= b < |bufs| ==> bufs'[b].id == bufs[b].id && bufs'[b].valid == bufs[b].valid
    ensures Cached(bufs', id) <==> Cached(bufs, id)
  {
    if Cached(bufs, id) {
      var b :| 0 <= b < |bufs| && bufs[b].valid && bufs[b].id == id;
      assert bufs'[b].valid;
    }
  }

  // ---------------------------------------------------------------- contents

  lemma FillInv(c: Cache, b: nat)
    requires Inv(c) && Enabled(c, Fill(b)) && c.bufs[b].id.dev != 0
    ensures Inv(Do(c, Fill(b)))
  {
    var c' := Do(c, Fill(b));
    var id := c.bufs[b].id;
    assert DataOk(c, b);
    assert !Cached(c.bufs, id);
    forall x | 0 <= x < NBUF
      ensures DataOk(c', x)
    {
      assert DataOk(c, x);
    }
    forall i
      ensures Cached(c'.bufs, i) <==> Cached(c.bufs, i) || i == id
    {
      FilledCached(c.bufs, b, c'.bufs[b], i);
    }
  }

  lemma FilledCached(bufs: seq<Buf>, b: nat, r: Buf, id: Id)
    requires b < |bufs| && !bufs[b].valid && r.valid
    ensures Cached(bufs[b := r], id) <==> Cached(bufs, id) || id == r.id
  {
    if Cached(bufs, id) {
      var x :| 0 <= x < |bufs| && bufs[x].valid && bufs[x].id == id;
      assert bufs[b := r][x].valid;
    }
    assert bufs[b := r][b] == r;
  }

  lemma EditInv(c: Cache, b: nat, data: Data)
    requires Inv(c) && Enabled(c, Edit(b, data))
    ensures Inv(Do(c, Edit(b, data)))
  {
    var c' := Do(c, Edit(b, data));
    assert DataOk(c, b);
    forall x | 0 <= x < NBUF
      ensures DataOk(c', x)
    {
      assert DataOk(c, x);
    }
    forall id
      ensures Cached(c'.bufs, id) <==> Cached(c.bufs, id)
    {
      SameCached(c.bufs, c'.bufs, id);
    }
    assert Cached(c.bufs, c.bufs[b].id);
  }

  lemma WriteInv(c: Cache, b: nat)
    requires Inv(c) && Enabled(c, Write(b))
    ensures Inv(Do(c, Write(b)))
  {
    var c' := Do(c, Write(b));
    assert DataOk(c, b);
    forall x | 0 <= x < NBUF
      ensures DataOk(c', x)
    {
      assert DataOk(c, x);
    }
  }

  // ---------------------------------------------------------------- recycling

  lemma RecycleInv(c: Cache, id: Id)
    requires Inv(c) && id.dev != 0 && Choice(c, id).Got? && Find(c.bufs, c.order, id, 0) == |c.order|
    ensures Inv(Referenced(c, id))
  {
    var c' := Referenced(c, id);
    var b := Choice(c, id).b;
    assert DataOk(c, b) && Clean(c, b);
    forall x | 0 <= x < NBUF
      ensures c.bufs[x].id != id
    {
      assert x in c.order;
      var i :| 0 <= i < |c.order| && c.order[i] == x;
    }
    forall x | 0 <= x < NBUF
      ensures DataOk(c', x)
    {
      assert DataOk(c, x);
    }
    forall i
      ensures Cached(c.bufs, i) <==> Cached(c'.bufs, i) || (c.bufs[b].valid && i == c.bufs[b].id)
    {
      RecycledCached(c.bufs, b, c'.bufs[b], i);
    }
  }

  lemma RecycledCached(bufs: seq<Buf>, b: nat, r: Buf, id: Id)
    requires b < |bufs| && !r.valid
    ensures Cached(bufs, id) <==> Cached(bufs[b := r], id) || (bufs[b].valid && id == bufs[b].id)
  {
    if Cached(bufs, id) {
      var x :| 0 <= x < |bufs| && bufs[x].valid && bufs[x].id == id;
      assert x != b ==> bufs[b := r][x] == bufs[x];
    }
    if Cached(bufs[b := r], id) {
      var x :| 0 <= x < |bufs| && bufs[b := r][x].valid && bufs[b := r][x].id == id;
      assert bufs[x] == bufs[b := r][x];
    }
  }

  lemma GetInv(c: Cache, id: Id)
    requires Inv(c) && Enabled(c, Get(id))
    ensures Inv(Referenced(c, id))
  {
    var i := Find(c.bufs, c.order, id, 0);
    if i < |c.order| {
      var b := c.order[i];
      var r := c.bufs[b];
      assert DataOk(c, b);
      Bookkeeping(c, b, r.(refcnt := r.refcnt + 1, waiting := r.waiting + 1));
    } else {
      RecycleInv(c, id);
    }
  }

  // ---------------------------------------------------------------- the list

  /** Dropping the one occurrence of b keeps the rest in order. */
  lemma {:induction false} DroppedAt(order: seq<nat>, b: nat, k: nat)
    requires k < |order| && order[k] == b && forall j :: 0 <= j < k ==> order[j] != b
    ensures Dropped(order, b) == order[..k] + order[k + 1..]
  {
    if k > 0 {
      DroppedAt(order[1..], b, k - 1);
      assert order[..k] == [order[0]] + order[1..][..k - 1];
      assert order[k + 1..] == order[1..][k..];
    }
  }

  lemma FrontAt(order: seq<nat>, b: nat, k: nat)
    requires Distinct(order) && k < |order| && order[k] == b
    ensures |ToFront(order, b)| == |order| && ToFront(order, b)[0] == b
    ensures forall i :: 0 < i < |order| ==> ToFront(order, b)[i] == order[if i <= k then i - 1 else i]
  {
    DroppedAt(order, b, k);
  }

  lemma ToFrontOrder(c: Cache, b: nat, r: Buf)
    requires OrderOk(c) && b < NBUF
    ensures OrderOk(With(c, b, r).(order := ToFront(c.order, b)))
  {
    hide ToFront;
    assert b in c.order;
    var k :| 0 <= k < |c.order| && c.order[k] == b;
    FrontAt(c.order, b, k);
    var o := ToFront(c.order, b);
    FrontMembers(c.order, o, b, k);
    assert forall i :: 0 < i < |o| ==> o[i] != b;
  }

  lemma FrontMembers(order: seq<nat>, o: seq<nat>, b: nat, k: nat)
    requires k < |order| == |o| && order[k] == b && o[0] == b
    requires forall i :: 0 < i < |order| ==> o[i] == order[if i <= k then i - 1 else i]
    ensures forall x :: x in order ==> x in o
  {
    forall x | x in order
      ensures x in o
    {
      var i :| 0 <= i < |order| && order[i] == x;
      if i < k {
        assert o[i + 1] == x;
      } else if i > k {
        assert o[i] == x;
      }
    }
  }

  lemma ReleaseInv(c: Cache, b: nat)
    requires Inv(c) && Enabled(c, Release(b)) && Disciplined(c, Release(b))
    ensures Inv(Do(c, Release(b)))
  {
    assert DataOk(c, b);
    var r := c.bufs[b].(leaving := c.bufs[b].leaving - 1, refcnt := c.bufs[b].refcnt - 1);
    Bookkeeping(c, b, r);
    if r.refcnt == 0 {
      var c1 := With(c, b, r);
      var c' := Do(c, Release(b));
      ToFrontOrder(c, b, r);
      forall x | 0 <= x < NBUF
        ensures DataOk(c', x)
      {
        assert DataOk(c1, x);
      }
      forall id
        ensures Cached(c'.bufs, id) <==> Cached(c1.bufs, id)
      {
        SameCached(c1.bufs, c'.bufs, id);
      }
    }
  }

  // ---------------------------------------------------------------- every run

  /** A locked buffer belongs to a real device. */
  ghost predicate RefsReal(c: Cache) {
    forall b :: 0 <= b < |c.bufs| && c.bufs[b].refcnt > 0 ==> c.bufs[b].id.dev != 0
  }

  lemma StepInv(c: Cache, a: Step)
    requires Inv(c) && RefsReal(c) && Enabled(c, a) && Disciplined(c, a)
    ensures Inv(Do(c, a)) && RefsReal(Do(c, a))
  {
    hide OrderOk, UniqueOk, DiskOk;
    OrderSize(c);
    if a.Get? {
      GetInv(c, a.id);
    } else {
      assert DataOk(c, a.b);
      match a
      case Lock(b) => Bookkeeping(c, b, c.bufs[b].(waiting := c.bufs[b].waiting - 1, locked := true));
      case Fill(b) => FillInv(c, b);
      case Edit(b, data) => EditInv(c, b, data);
      case Write(b) => WriteInv(c, b);
      case Pin(b) => Bookkeeping(c, b, c.bufs[b].(refcnt := c.bufs[b].refcnt + 1, pins := c.bufs[b].pins + 1));
      case Unpin(b) => Bookkeeping(c, b, c.bufs[b].(refcnt := c.bufs[b].refcnt - 1, pins := c.bufs[b].pins - 1));
      case Unlock(b) => Bookkeeping(c, b, c.bufs[b].(locked := false, leaving := c.bufs[b].leaving + 1));
      case Release(b) => ReleaseInv(c, b);
    }
  }

  lemma OrderSize(c: Cache)
    requires OrderOk(c)
    ensures |c.bufs| == NBUF == |c.order|
  {
  }

  lemma {:induction false} RunInv(r: Run)
    requires r.Legal()
    ensures Inv(r.c) && RefsReal(r.c)
  {
    hide Inv, Do;
    match r
    case Start(c) => FreshInv(c.disk);
    case Then(before, a, c) =>
      RunInv(before);
      StepInv(before.c, a);
  }

  // ---------------------------------------------------------------- what callers rely on

  /** The contents of a block as its editors have left it: those of the last edit, or of the disk at the start. */
  ghost function LastEdit(r: Run, id: Id): (d: Data) {
    match r
    case Start(c) => At(c.disk, id)
    case Then(before, a, c) =>
      if a.Edit? && a.b < |before.c.bufs| && before.c.bufs[a.b].id == id then a.data else LastEdit(before, id)
  }

  lemma {:induction false} ViewIsLastEdit(r: Run, id: Id)
    requires r.Legal()
    ensures At(r.c.view, id) == LastEdit(r, id)
  {
    if r.Then? {
      ViewIsLastEdit(r.before, id);
    }
  }

  /** bread: once locked and filled, a buffer shows the last edit of its block, by whatever buffer that was. */
  lemma Transparent(r: Run, b: nat)
    requires r.Legal() && Held(r.c, b) && r.c.bufs[b].valid
    ensures r.c.bufs[b].data == LastEdit(r, r.c.bufs[b].id)
  {
    RunInv(r);
    assert DataOk(r.c, b);
    ViewIsLastEdit(r, r.c.bufs[b].id);
  }

  /** A block has at most one buffer. */
  lemma OneBuffer(r: Run, b: nat, d: nat)
    requires r.Legal() && b < |r.c.bufs| && d < |r.c.bufs| && r.c.bufs[b].id == r.c.bufs[d].id && r.c.bufs[b].id.dev != 0
    ensures b == d
  {
    RunInv(r);
  }

  /** A referenced buffer keeps its identity, and while it is locked its holder alone changes it. */
  lemma IdentityKept(c: Cache, a: Step, b: nat)
    requires Enabled(c, a) && b < |c.bufs| && c.bufs[b].refcnt > 0
    ensures b < |Do(c, a).bufs| && Do(c, a).bufs[b].id == c.bufs[b].id
    ensures c.bufs[b].valid && !(a.Edit? && a.b == b) ==> Do(c, a).bufs[b].valid && Do(c, a).bufs[b].data == c.bufs[b].data
  {
    hide ToFront, Find, Victim;
  }

  /** What bget hands out is locked, or valid, exactly if a buffer of the block was. */
  lemma GotIs(r: Run, id: Id, b: nat)
    requires r.Legal() && id.dev != 0 && Choice(r.c, id) == Got(b)
    ensures b < |Referenced(r.c, id).bufs| && Referenced(r.c, id).bufs[b].id == id && Referenced(r.c, id).bufs[b].waiting > 0
    ensures Referenced(r.c, id).bufs[b].locked <==> Locked(r.c.bufs, id)
    ensures Referenced(r.c, id).bufs[b].valid <==> Cached(r.c.bufs, id)
  {
    hide OrderOk, UniqueOk, DiskOk, Locked, Cached;
    var c := r.c;
    RunInv(r);
    OrderSize(c);
    assert DataOk(c, b);
    if Find(c.bufs, c.order, id, 0) < |c.order| {
      OnlyBuffer(c, id, b);
    } else {
      NoBuffer(c, id);
    }
  }

  lemma OnlyBuffer(c: Cache, id: Id, b: nat)
    requires UniqueOk(c.bufs) && id.dev != 0 && b < |c.bufs| && c.bufs[b].id == id
    ensures Locked(c.bufs, id) <==> c.bufs[b].locked
    ensures Cached(c.bufs, id) <==> c.bufs[b].valid
  {
    assert forall d :: 0 <= d < |c.bufs| && c.bufs[d].id == id ==> d == b;
  }

  lemma NoBuffer(c: Cache, id: Id)
    requires OrderOk(c) && Find(c.bufs, c.order, id, 0) == |c.order|
    ensures !Locked(c.bufs, id) && !Cached(c.bufs, id)
  {
    forall d | 0 <= d < |c.bufs|
      ensures c.bufs[d].id != id
    {
      assert d in c.order;
    }
  }

  lemma Sizes(r: Run)
    requires r.Legal()
    ensures |r.c.bufs| == NBUF == |r.c.order| && (forall b :: 0 <= b < NBUF ==> b in r.c.order)
    ensures forall i :: 0 <= i < NBUF ==> r.c.order[i] < NBUF
  {
    RunInv(r);
  }

  // ---------------------------------------------------------------- order of release

  ghost function Length(r: Run): (n: nat) {
    if r.Start? then 0 else 1 + Length(r.before)
  }

  /** The step gives up the last reference to buffer b. */
  ghost predicate LastGoes(c: Cache, a: Step, b: nat) {
    a == Release(b) && b < |c.bufs| && c.bufs[b].refcnt == 1
  }

  /** When the last reference to buffer b was last given up by brelse; before any of that, its number in binit. */
  ghost function LastRelease(r: Run, b: nat): (t: nat) {
    match r
    case Start(c) => b
    case Then(before, a, c) => if LastGoes(before.c, a, b) then NBUF + Length(before) else LastRelease(before, b)
  }

  lemma {:induction false} LastReleaseBound(r: Run, b: nat)
    requires b < NBUF
    ensures LastRelease(r, b) < NBUF + Length(r)
  {
    if r.Then? {
      LastReleaseBound(r.before, b);
    }
  }

  /** The list runs from later to earlier releases. */
  ghost predicate ByRelease(r: Run) {
    forall i, j :: 0 <= i < j < |r.c.order| ==> LastRelease(r, r.c.order[i]) > LastRelease(r, r.c.order[j])
  }

  lemma {:induction false} OrderByRelease(r: Run)
    requires r.Legal()
    ensures ByRelease(r)
  {
    hide Do, Enabled, Inv;
    match r
    case Start(c) =>
    case Then(before, a, c) =>
      OrderByRelease(before);
      RunInv(before);
      OrderSizes(before.c);
      OrderStep(before.c, a);
      if a.Release? && LastGoes(before.c, a, a.b) {
        FrontByRelease(r);
      } else {
        assert forall b :: LastRelease(r, b) == LastRelease(before, b);
      }
  }

  lemma OrderSizes(c: Cache)
    requires Inv(c)
    ensures |c.bufs| == NBUF == |c.order| && Distinct(c.order) && forall i :: 0 <= i < NBUF ==> c.order[i] < NBUF
    ensures forall b :: 0 <= b < NBUF ==> b in c.order
  {
  }

  /** The list changes exactly when the last reference to a buffer goes. */
  lemma OrderStep(c: Cache, a: Step)
    requires Enabled(c, a)
    ensures Do(c, a).order == if a.Release? && LastGoes(c, a, a.b) then ToFront(c.order, a.b) else c.order
  {
    hide ToFront, Find, Victim;
  }

  lemma FrontByRelease(r: Run)
    requires r.Then? && r.a.Release? && LastGoes(r.before.c, r.a, r.a.b) && ByRelease(r.before) && r.c.order == ToFront(r.before.c.order, r.a.b)
    requires Distinct(r.before.c.order) && r.a.b in r.before.c.order && forall i :: 0 <= i < |r.before.c.order| ==> r.before.c.order[i] < NBUF
    ensures ByRelease(r)
  {
    hide ToFront;
    var order, b := r.before.c.order, r.a.b;
    var k :| 0 <= k < |order| && order[k] == b;
    FrontAt(order, b, k);
    forall x: nat | x < NBUF && x != b
      ensures LastRelease(r, x) == LastRelease(r.before, x) < LastRelease(r, b)
    {
      LastReleaseBound(r.before, x);
    }
  }

  /** A recycled buffer is, of the unreferenced ones, the one whose last release is longest ago. */
  lemma LeastRecentlyReleased(r: Run, id: Id, d: nat)
    requires r.Legal() && Enabled(r.c, Get(id)) && (forall b :: 0 <= b < |r.c.bufs| ==> r.c.bufs[b].id != id)
    requires d < |r.c.bufs| && r.c.bufs[d].refcnt == 0
    ensures Choice(r.c, id).b < |r.c.bufs| && r.c.bufs[Choice(r.c, id).b].refcnt == 0
    ensures LastRelease(r, Choice(r.c, id).b) <= LastRelease(r, d)
  {
    hide Inv, LastRelease;
    RunInv(r);
    OrderSizes(r.c);
    OrderByRelease(r);
    assert d in r.c.order;
    var i :| 0 <= i < |r.c.order| && r.c.order[i] == d;
  }

  // ---------------------------------------------------------------- references and locks

  /** References taken less references given up, as the steps of the run have it. */
  ghost function References(r: Run, b: nat): (n: int) {
    match r
    case Start(c) => 0
    case Then(before, a, c) =>
      References(before, b)
      + (if (a.Get? && Choice(before.c, a.id) == Got(b)) || a == Pin(b) then 1 else if a == Release(b) || a == Unpin(b) then -1 else 0)
  }

  /** refcnt counts bget and bpin against brelse and bunpin. */
  lemma {:induction false} RefcntCounts(r: Run, b: nat)
    requires r.Legal() && b < NBUF
    ensures |r.c.bufs| == NBUF && r.c.bufs[b].refcnt == References(r, b)
  {
    hide Do, Enabled, Inv, Disciplined, Choice;
    RunInv(r);
    OrderSizes(r.c);
    match r
    case Start(c) =>
    case Then(before, a, c) =>
      RefcntCounts(before, b);
      RunInv(before);
      RefcntStep(before.c, a, b);
  }

  lemma RefcntStep(c: Cache, a: Step, b: nat)
    requires Inv(c) && Enabled(c, a) && b < NBUF && |c.bufs| == NBUF == |Do(c, a).bufs|
    ensures Do(c, a).bufs[b].refcnt == c.bufs[b].refcnt
              + (if (a.Get? && Choice(c, a.id) == Got(b)) || a == Pin(b) then 1 else if a == Release(b) || a == Unpin(b) then -1 else 0)
  {
    hide ToFront, OrderOk, UniqueOk, DiskOk;
  }

  /** The last of the steps that lock or unlock buffer b locked it. */
  ghost predicate LockedLast(r: Run, b: nat) {
    r.Then? && (r.a == Lock(b) || (r.a != Unlock(b) && LockedLast(r.before, b)))
  }

  /** A buffer is locked from acquiresleep to releasesleep, and whoever locks it has waited for it. */
  lemma {:induction false} LockedSince(r: Run, b: nat)
    requires r.Legal() && b < NBUF
    ensures |r.c.bufs| == NBUF && (r.c.bufs[b].locked <==> LockedLast(r, b))
    ensures r.Then? && r.a == Lock(b) ==> !LockedLast(r.before, b)
  {
    hide Inv, Choice, ToFront, Disciplined;
    RunInv(r);
    OrderSizes(r.c);
    if r.Then? {
      LockedSince(r.before, b);
      RunInv(r.before);
      LockStep(r.before.c, r.a, b);
    }
  }

  lemma LockStep(c: Cache, a: Step, b: nat)
    requires Inv(c) && Enabled(c, a) && b < NBUF && |c.bufs| == NBUF == |Do(c, a).bufs|
    ensures Do(c, a).bufs[b].locked == (a == Lock(b) || (a != Unlock(b) && c.bufs[b].locked))
    ensures a == Lock(b) ==> !c.bufs[b].locked
  {
    hide ToFront, OrderOk, UniqueOk, DiskOk;
    if a.Get? && Choice(c, a.id) == Got(b) {
      assert DataOk(c, b);
    }
  }

  /** bget panics exactly when the block is not cached and every buffer is referenced. */
  lemma PanicsWhenFull(r: Run, id: Id)
    requires r.Legal()
    ensures Choice(r.c, id).Panic? <==> forall b :: 0 <= b < |r.c.bufs| ==> r.c.bufs[b].id != id && r.c.bufs[b].refcnt != 0
  {
    hide OrderOk, UniqueOk, DiskOk, DataOk, RefsReal;
    RunInv(r);
    PanicsFull(r.c, id);
  }

  lemma PanicsFull(c: Cache, id: Id)
    requires OrderOk(c)
    ensures Choice(c, id).Panic? <==> forall b :: 0 <= b < |c.bufs| ==> c.bufs[b].id != id && c.bufs[b].refcnt != 0
  {
    if Choice(c, id).Panic? {
      forall b | 0 <= b < |c.bufs|
        ensures c.bufs[b].id != id && c.bufs[b].refcnt != 0
      {
        assert b in c.order;
        var i :| 0 <= i < |c.order| && c.order[i] == b;
      }
    }
  }
}
