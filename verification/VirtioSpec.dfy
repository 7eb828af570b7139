/**
  The virtio disk driver together with a device that takes requests in order and serves
  them in any order.  The rings and descriptors are those of section 2.6 of Virtio 1.1;
  `queued`, `pending`, `served`, `seen` and `reqs` record what the two sides are doing.
 */
module VirtioSpec {
  import opened Collections

  const NUM := 8
  const WRAP := 0x1_0000        // ring indices are 16 bits wide

  datatype Addr = Null | OpAt(i: nat) | DataOf(b: nat) | StatusAt(i: nat)

  datatype Desc = Desc(addr: Addr, chained: bool, deviceWrites: bool, next: nat)

  datatype Op = Op(write: bool, block: nat)

  datatype Info = Info(b: nat, status: nat)

  /** A request: what was asked, and the descriptors after the head. */
  datatype Req = Req(op: Op, b: nat, mid: nat, last: nat)

  const NoDesc := Desc(Null, false, false, 0)
  const NOBUF := 0              // a null buf pointer; buffers are numbered from 1

  datatype State = State(
    free: seq<bool>, desc: seq<Desc>, ops: seq<Op>, info: seq<Info>, busy: set<nat>,
    availRing: seq<nat>, availIdx: nat, usedRing: seq<nat>, usedIdx: nat, seenIdx: nat, deviceIdx: nat,
    queued: seq<nat>, pending: set<nat>, served: seq<nat>, seen: set<nat>, reqs: map<nat, Req>,
    submits: nat, picks: nat, serves: nat, looks: nat, panicked: bool)

  ghost predicate Shaped(s: State) {
    |s.free| == |s.desc| == |s.ops| == |s.info| == |s.availRing| == |s.usedRing| == NUM
  }

  // ---------------------------------------------------------------- descriptors

  /** alloc_desc: the first free descriptor from i on, NUM if there is none. */
  function FirstFree(free: seq<bool>, i: nat): (k: nat)
    requires i <= |free|
    ensures i <= k <= |free| && (k < |free| ==> free[k]) && forall j :: i <= j < k ==> !free[j]
    decreases |free| - i
  {
    if i == |free| || free[i] then i else FirstFree(free, i + 1)
  }

  /** alloc3_desc's three descriptors; a component is NUM if there are not enough. */
  datatype Three = Three(a: nat, b: nat, c: nat)

  function Allocated(free: seq<bool>): (t: Three)
    requires |free| == NUM
  {
    var a := FirstFree(free, 0);
    if a == NUM then Three(NUM, NUM, NUM)
    else
      var free1 := free[a := false];
      var b := FirstFree(free1, 0);
      if b == NUM then Three(a, NUM, NUM) else Three(a, b, FirstFree(free1[b := false], 0))
  }

  lemma AllocatedDistinct(free: seq<bool>)
    requires |free| == NUM && Allocated(free).c < NUM
    ensures var t := Allocated(free); t.a < NUM && t.b < NUM && t.a != t.b && t.a != t.c && t.b != t.c && free[t.a] && free[t.b] && free[t.c]
  {
  }

  // ---------------------------------------------------------------- steps

  datatype Step =
    | Submit(b: nat, op: Op)      // virtio_disk_rw up to the notification
    | Look                        // one turn of virtio_disk_intr's loop
    | Finish(h: nat)              // virtio_disk_rw after its buffer was cleared
    | Pick                        // device: take the next available request
    | Serve(h: nat, status: nat)  // device: deal with a request and report how it went, 0 for success

  predicate Enabled(s: State, a: Step)
    requires |s.free| == NUM
  {
    match a
    case Submit(b, op) => !s.panicked && b != NOBUF && Allocated(s.free).c < NUM && forall h :: h in s.reqs ==> s.reqs[h].b != b
    case Look => !s.panicked && s.seenIdx != s.usedIdx
    case Finish(h) => !s.panicked && h in s.reqs && s.reqs[h].b !in s.busy
    case Pick => s.deviceIdx != s.availIdx
    case Serve(h, status) => h in s.pending && status < 0x100
  }

  function Submitted(s: State, b: nat, op: Op): (s': State)
    requires Shaped(s) && Allocated(s.free).c < NUM
  {
    AllocatedDistinct(s.free);
    var t := Allocated(s.free);
    s.(free := s.free[t.a := false][t.b := false][t.c := false],
       ops := s.ops[t.a := op],
       desc := s.desc[t.a := Desc(OpAt(t.a), true, false, t.b)]
                     [t.b := Desc(DataOf(b), true, !op.write, t.c)]
                     [t.c := Desc(StatusAt(t.a), false, true, 0)],
       info := s.info[t.a := Info(b, 0xff)],
       busy := s.busy + {b},
       availRing := s.availRing[s.availIdx % NUM := t.a],
       availIdx := (s.availIdx + 1) % WRAP,
       queued := s.queued + [t.a],
       reqs := s.reqs[t.a := Req(op, b, t.b, t.c)],
       submits := s.submits + 1)
  }

  /** The head that the driver finds in the used ring next. */
  function LooksAt(s: State): (h: nat)
    requires Shaped(s)
  {
    s.usedRing[s.seenIdx % NUM]
  }

  /** One used entry, of status 0. */
  function Looked(s: State): (s': State)
    requires Shaped(s) && LooksAt(s) < NUM && |s.served| > 0
  {
    var h := LooksAt(s);
    s.(busy := s.busy - {s.info[h].b}, seenIdx := (s.seenIdx + 1) % WRAP,
       served := s.served[1..], seen := s.seen + {h}, looks := s.looks + 1)
  }

  function Finished(s: State, h: nat): (s': State)
    requires Shaped(s) && h in s.reqs && h < NUM && s.reqs[h].mid < NUM && s.reqs[h].last < NUM
  {
    var r := s.reqs[h];
    s.(free := s.free[h := true][r.mid := true][r.last := true],
       desc := s.desc[h := NoDesc][r.mid := NoDesc][r.last := NoDesc],
       info := s.info[h := s.info[h].(b := NOBUF)],
       seen := s.seen - {h}, reqs := s.reqs - {h})
  }

  function Picked(s: State): (s': State)
    requires Shaped(s) && |s.queued| > 0
  {
    s.(deviceIdx := (s.deviceIdx + 1) % WRAP, queued := s.queued[1..],
       pending := s.pending + {s.availRing[s.deviceIdx % NUM]}, picks := s.picks + 1)
  }

  function Served(s: State, h: nat, status: nat): (s': State)
    requires Shaped(s) && h < NUM
  {
    s.(info := s.info[h := s.info[h].(status := status)], usedRing := s.usedRing[s.usedIdx % NUM := h],
       usedIdx := (s.usedIdx + 1) % WRAP, pending := s.pending - {h}, served := s.served + [h], serves := s.serves + 1)
  }

  // ---------------------------------------------------------------- invariant

  /** The three descriptors of a request. */
  ghost predicate InChain(h: nat, r: Req, i: nat) {
    i == h || i == r.mid || i == r.last
  }

  ghost predicate ReqOk(s: State, h: nat)
    requires Shaped(s) && h in s.reqs
  {
    var r := s.reqs[h];
    && h < NUM && r.mid < NUM && r.last < NUM && h != r.mid && h != r.last && r.mid != r.last
    && !s.free[h] && !s.free[r.mid] && !s.free[r.last]
    && s.desc[h] == Desc(OpAt(h), true, false, r.mid)
    && s.desc[r.mid] == Desc(DataOf(r.b), true, !r.op.write, r.last)
    && s.desc[r.last] == Desc(StatusAt(h), false, true, 0)
    && s.ops[h] == r.op && s.info[h].b == r.b && r.b != NOBUF
    && (h in s.queued || h in s.pending ==> s.info[h].status == 0xff) && (h in s.seen ==> s.info[h].status == 0)
    && (r.b in s.busy <==> h !in s.seen)
  }

  /** Chains of different requests share no descriptor, and their buffers differ. */
  ghost predicate ApartOk(s: State, h: nat, g: nat)
    requires h in s.reqs && g in s.reqs
  {
    h != g ==> s.reqs[h].b != s.reqs[g].b && forall i :: !(InChain(h, s.reqs[h], i) && InChain(g, s.reqs[g], i))
  }

  /** A descriptor that is not free belongs to a request, a free one is blank. */
  ghost predicate DescOk(s: State, i: nat)
    requires Shaped(s) && i < NUM
  {
    if s.free[i] then s.desc[i] == NoDesc else exists h :: h in s.reqs && InChain(h, s.reqs[h], i)
  }

  /** Where a request is: queued, with the device, served or seen, and only there. */
  ghost predicate Phases(s: State) {
    && (forall h :: h in s.reqs <==> h in s.queued || h in s.pending || h in s.served || h in s.seen)
    && (forall h :: h in s.pending ==> h !in s.queued && h !in s.served && h !in s.seen)
    && (forall h :: h in s.seen ==> h !in s.queued && h !in s.served)
    && (forall h :: h in s.queued ==> h !in s.served)
    && Distinct(s.queued) && Distinct(s.served)
  }

  /** Entry k of a ring whose oldest live entry has number n. */
  ghost predicate EntryOk(ring: seq<nat>, q: seq<nat>, n: nat, k: nat) {
    |ring| == NUM && k < |q| && ring[(n + k) % NUM] == q[k]
  }

  ghost predicate RingOk(ring: seq<nat>, q: seq<nat>, n: nat) {
    |ring| == NUM && forall k {:trigger EntryOk(ring, q, n, k)} :: 0 <= k < |q| ==> EntryOk(ring, q, n, k)
  }

  /** The 16-bit indices count what they should, and the rings hold what is under way. */
  ghost predicate RingsOk(s: State) {
    && s.availIdx == s.submits % WRAP && s.deviceIdx == s.picks % WRAP && s.usedIdx == s.serves % WRAP && s.seenIdx == s.looks % WRAP
    && s.submits == s.picks + |s.queued| && s.serves == s.looks + |s.served|
    && RingOk(s.availRing, s.queued, s.picks) && RingOk(s.usedRing, s.served, s.looks)
  }

  ghost predicate Inv(s: State) {
    && Shaped(s) && Phases(s) && RingsOk(s)
    && (forall h {:trigger ReqOk(s, h)} :: h in s.reqs ==> ReqOk(s, h))
    && (forall h, g {:trigger ApartOk(s, h, g)} :: h in s.reqs && g in s.reqs ==> ApartOk(s, h, g))
    && (forall i {:trigger DescOk(s, i)} :: 0 <= i < NUM ==> DescOk(s, i))
  }

  // ---------------------------------------------------------------- at most two requests

  ghost function Chain(h: nat, r: Req): (c: set<nat>) {
    {h, r.mid, r.last}
  }

  /** Three requests would need nine descriptors. */
  lemma NoThird(s: State, f: nat, g: nat, h: nat)
    requires Inv(s) && f in s.reqs && g in s.reqs && h in s.reqs
    ensures f == g || f == h || g == h
  {
    hide ReqOk, ApartOk, DescOk, RingsOk, Phases;
    if f != g && f != h && g != h {
      var a, b, c := Chain(f, s.reqs[f]), Chain(g, s.reqs[g]), Chain(h, s.reqs[h]);
      ThreeEach(s, f);
      ThreeEach(s, g);
      ThreeEach(s, h);
      Apart(s, f, g);
      Apart(s, f, h);
      Apart(s, g, h);
      assert |a + b| == 6 && (a + b) !! c;
      assert |a + b + c| == 9;
      SubsetSize(a + b + c, Below(NUM));
    }
  }

  lemma ThreeEach(s: State, h: nat)
    requires Shaped(s) && h in s.reqs && ReqOk(s, h)
    ensures |Chain(h, s.reqs[h])| == 3 && forall i :: i in Chain(h, s.reqs[h]) ==> 0 <= i < NUM
  {
  }

  lemma Apart(s: State, f: nat, g: nat)
    requires f in s.reqs && g in s.reqs && ApartOk(s, f, g) && f != g
    ensures Chain(f, s.reqs[f]) !! Chain(g, s.reqs[g])
  {
    forall i | i in Chain(f, s.reqs[f])
      ensures i !in Chain(g, s.reqs[g])
    {
      assert InChain(f, s.reqs[f], i);
    }
  }

  ghost function Below(n: nat): (s: set<nat>)
    ensures |s| == n && forall i: nat :: i in s <==> i < n
  {
    if n == 0 then {} else Below(n - 1) + {n - 1}
  }

  /** No queue of distinct requests is longer than two. */
  lemma ShortQueue(s: State, q: seq<nat>)
    requires Inv(s) && Distinct(q) && forall k :: 0 <= k < |q| ==> q[k] in s.reqs
    ensures |q| <= 2
  {
    if |q| > 2 {
      NoThird(s, q[0], q[1], q[2]);
    }
  }

  // ---------------------------------------------------------------- steps keep the invariant

  /** What the driver or the device finds at the front of a ring. */
  lemma Front(ring: seq<nat>, q: seq<nat>, n: nat)
    requires RingOk(ring, q, n) && q != []
    ensures ring[n % WRAP % NUM] == q[0]
  {
    assert EntryOk(ring, q, n, 0);
    assert n % WRAP % NUM == n % NUM;
  }

  lemma DropEntry(ring: seq<nat>, q: seq<nat>, n: nat)
    requires RingOk(ring, q, n) && q != []
    ensures RingOk(ring, q[1..], n + 1)
  {
    var q', n' := q[1..], n + 1;
    forall k | 0 <= k < |q'|
      ensures EntryOk(ring, q', n', k)
    {
      assert EntryOk(ring, q, n, k + 1);
    }
  }

  /** With room in the ring, a new entry overwrites no live one. */
  lemma AddEntry(ring: seq<nat>, q: seq<nat>, n: nat, x: nat, idx: nat)
    requires RingOk(ring, q, n) && |q| < NUM && idx == (n + |q|) % WRAP
    ensures RingOk(ring[idx % NUM := x], q + [x], n)
  {
    assert idx % NUM == (n + |q|) % NUM;
    var ring', q' := ring[idx % NUM := x], q + [x];
    forall k | 0 <= k < |q'|
      ensures EntryOk(ring', q', n, k)
    {
      if k < |q| {
        assert EntryOk(ring, q, n, k);
        Residues(n, k, |q|);
      }
    }
  }

  lemma Residues(n: nat, i: nat, j: nat)
    requires i < j < i + NUM
    ensures (n + i) % NUM != (n + j) % NUM
  {
  }

  lemma NextIndex(n: nat)
    ensures (n % WRAP + 1) % WRAP == (n + 1) % WRAP
  {
  }

  /** While the counts are close, the 16-bit indices are equal only when the counts are. */
  lemma IndicesTell(n: nat, m: nat)
    requires n <= m < n + WRAP
    ensures n % WRAP == m % WRAP <==> n == m
  {
  }

  lemma QueuesShort(s: State)
    requires Inv(s)
    ensures |s.queued| <= 2 && |s.served| <= 2
  {
    hide ReqOk, ApartOk, DescOk, RingsOk;
    ShortQueue(s, s.queued);
    ShortQueue(s, s.served);
  }

  // The step of the device: pick.

  lemma PickInv(s: State)
    requires Inv(s) && s.deviceIdx != s.availIdx
    ensures s.queued != [] && s.availRing[s.deviceIdx % NUM] == s.queued[0] && Inv(Picked(s))
  {
    PickRings(s);
    var s' := Picked(s);
    forall h | h in s'.reqs
      ensures ReqOk(s', h)
    {
      assert ReqOk(s, h);
    }
    forall h, g | h in s'.reqs && g in s'.reqs
      ensures ApartOk(s', h, g)
    {
      assert ApartOk(s, h, g);
    }
    forall i | 0 <= i < NUM
      ensures DescOk(s', i)
    {
      assert DescOk(s, i);
    }
    TailMembers(s.queued);
  }

  lemma TailMembers(q: seq<nat>)
    requires q != [] && Distinct(q)
    ensures Distinct(q[1..]) && forall x :: x in q[1..] <==> x in q && x != q[0]
  {
    forall x
      ensures x in q[1..] <==> x in q && x != q[0]
    {
      if x in q && x != q[0] {
        var i :| 0 <= i < |q| && q[i] == x;
        assert q[1..][i - 1] == x;
      }
    }
  }

  lemma PickRings(s: State)
    requires Shaped(s) && RingsOk(s) && s.deviceIdx != s.availIdx
    ensures s.queued != [] && s.availRing[s.deviceIdx % NUM] == s.queued[0] && RingsOk(Picked(s))
  {
    if s.queued != [] {
      Front(s.availRing, s.queued, s.picks);
      DropEntry(s.availRing, s.queued, s.picks);
      NextIndex(s.picks);
    }
  }

  // The step of the driver: look.

  lemma LookRings(s: State)
    requires Shaped(s) && RingsOk(s) && s.seenIdx != s.usedIdx
    ensures s.served != [] && LooksAt(s) == s.served[0]
    ensures LooksAt(s) < NUM ==> RingsOk(Looked(s))
  {
    if s.served != [] {
      Front(s.usedRing, s.served, s.looks);
      DropEntry(s.usedRing, s.served, s.looks);
      NextIndex(s.looks);
    }
  }

  /** The entry that the driver finds is a request that the device has served. */
  lemma LookFinds(s: State)
    requires Inv(s) && s.seenIdx != s.usedIdx
    ensures s.served != [] && LooksAt(s) == s.served[0] && LooksAt(s) < NUM && LooksAt(s) in s.reqs
    ensures s.info[LooksAt(s)].b == s.reqs[LooksAt(s)].b
  {
    LookRings(s);
    assert s.served[0] in s.served;
    assert ReqOk(s, s.served[0]);
  }

  lemma LookInv(s: State)
    requires Inv(s) && s.seenIdx != s.usedIdx && LooksAt(s) < NUM && s.served != [] && s.info[LooksAt(s)].status == 0
    ensures Inv(Looked(s))
  {
    hide DescOk;
    LookFinds(s);
    LookRings(s);
    var s' := Looked(s);
    var h := LooksAt(s);
    TailMembers(s.served);
    forall g | g in s'.reqs
      ensures ReqOk(s', g)
    {
      assert ReqOk(s, g) && ApartOk(s, h, g);
    }
    forall f, g | f in s'.reqs && g in s'.reqs
      ensures ApartOk(s', f, g)
    {
      assert ApartOk(s, f, g);
    }
    forall i | 0 <= i < NUM
      ensures DescOk(s', i)
    {
      assert DescOk(s, i);
      SameDesc(s, s', i);
    }
  }

  lemma PanicInv(s: State)
    requires Inv(s)
    ensures Inv(s.(panicked := true))
  {
    var s' := s.(panicked := true);
    forall h | h in s'.reqs
      ensures ReqOk(s', h)
    {
      assert ReqOk(s, h);
    }
    forall f, g | f in s'.reqs && g in s'.reqs
      ensures ApartOk(s', f, g)
    {
      assert ApartOk(s, f, g);
    }
    forall i | 0 <= i < NUM
      ensures DescOk(s', i)
    {
      assert DescOk(s, i);
    }
  }

  lemma SameDesc(s: State, s': State, i: nat)
    requires Shaped(s) && Shaped(s') && i < NUM && DescOk(s, i) && s'.reqs == s.reqs && s'.free == s.free && s'.desc == s.desc
    ensures DescOk(s', i)
  {
  }

  // The step of the device: serve.

  lemma ServeRings(s: State, h: nat, status: nat)
    requires Shaped(s) && RingsOk(s) && |s.served| < NUM && h < NUM
    ensures RingsOk(Served(s, h, status))
  {
    AddEntry(s.usedRing, s.served, s.looks, h, s.usedIdx);
    NextIndex(s.serves);
  }

  lemma ServeInv(s: State, h: nat, status: nat)
    requires Inv(s) && h in s.pending
    ensures h < NUM && h in s.reqs && Inv(Served(s, h, status))
  {
    hide DescOk;
    assert ReqOk(s, h);
    QueuesShort(s);
    ServeRings(s, h, status);
    var s' := Served(s, h, status);
    forall g | g in s'.reqs
      ensures ReqOk(s', g)
    {
      assert ReqOk(s, g);
    }
    forall f, g | f in s'.reqs && g in s'.reqs
      ensures ApartOk(s', f, g)
    {
      assert ApartOk(s, f, g);
    }
    forall i | 0 <= i < NUM
      ensures DescOk(s', i)
    {
      assert DescOk(s, i);
      SameDesc(s, s', i);
    }
  }

  // The steps of virtio_disk_rw: submit and finish.

  lemma SubmitFresh(s: State, b: nat, op: Op)
    requires Inv(s) && Enabled(s, Submit(b, op))
    ensures var t := Allocated(s.free);
            && t.a !in s.reqs && t.a !in s.queued && t.a !in s.pending && t.a !in s.served && t.a !in s.seen
            && forall h :: h in s.reqs ==> Chain(h, s.reqs[h]) !! {t.a, t.b, t.c}
  {
    hide DescOk, ApartOk, RingsOk;
    AllocatedDistinct(s.free);
    var t := Allocated(s.free);
    assert t.a in s.reqs ==> ReqOk(s, t.a);
    forall h | h in s.reqs
      ensures Chain(h, s.reqs[h]) !! {t.a, t.b, t.c}
    {
      assert ReqOk(s, h);
    }
  }

  lemma SubmitRings(s: State, b: nat, op: Op)
    requires Shaped(s) && RingsOk(s) && |s.queued| < NUM && Allocated(s.free).c < NUM
    ensures RingsOk(Submitted(s, b, op))
  {
    AllocatedDistinct(s.free);
    AddEntry(s.availRing, s.queued, s.picks, Allocated(s.free).a, s.availIdx);
    NextIndex(s.submits);
  }

  lemma SubmitReq(s: State, b: nat, op: Op, h: nat)
    requires Inv(s) && Enabled(s, Submit(b, op)) && h in Submitted(s, b, op).reqs
    ensures Shaped(Submitted(s, b, op)) && ReqOk(Submitted(s, b, op), h)
  {
    hide DescOk, ApartOk, RingsOk;
    AllocatedDistinct(s.free);
    SubmitFresh(s, b, op);
    if h in s.reqs {
      assert ReqOk(s, h);
      assert {h, s.reqs[h].mid, s.reqs[h].last} == Chain(h, s.reqs[h]);
    }
  }

  lemma SubmitApart(s: State, b: nat, op: Op, h: nat, g: nat)
    requires Inv(s) && Enabled(s, Submit(b, op)) && h in Submitted(s, b, op).reqs && g in Submitted(s, b, op).reqs
    ensures ApartOk(Submitted(s, b, op), h, g)
  {
    hide DescOk, ReqOk, RingsOk;
    SubmitFresh(s, b, op);
    var t := Allocated(s.free);
    var s' := Submitted(s, b, op);
    if h in s.reqs && g in s.reqs && h != t.a && g != t.a {
      assert ApartOk(s, h, g);
    }
    assert forall x, i :: x in s.reqs && InChain(x, s.reqs[x], i) ==> i in Chain(x, s.reqs[x]);
  }

  lemma SubmitDesc(s: State, b: nat, op: Op, i: nat)
    requires Inv(s) && Enabled(s, Submit(b, op)) && i < NUM
    ensures Shaped(Submitted(s, b, op)) && DescOk(Submitted(s, b, op), i)
  {
    hide ReqOk, ApartOk, RingsOk;
    AllocatedDistinct(s.free);
    SubmitFresh(s, b, op);
    var t := Allocated(s.free);
    var s' := Submitted(s, b, op);
    assert DescOk(s, i);
    if i == t.a || i == t.b || i == t.c {
      assert InChain(t.a, s'.reqs[t.a], i);
    } else if !s.free[i] {
      var h :| h in s.reqs && InChain(h, s.reqs[h], i);
      assert h in s'.reqs && InChain(h, s'.reqs[h], i);
    }
  }

  lemma SubmitPhases(s: State, b: nat, op: Op)
    requires Inv(s) && Enabled(s, Submit(b, op))
    ensures Phases(Submitted(s, b, op))
  {
    hide ReqOk, ApartOk, RingsOk, DescOk;
    SubmitFresh(s, b, op);
  }

  lemma SubmitInv(s: State, b: nat, op: Op)
    requires Inv(s) && Enabled(s, Submit(b, op))
    ensures Inv(Submitted(s, b, op))
  {
    hide ReqOk, ApartOk, RingsOk, DescOk, Phases;
    var s' := Submitted(s, b, op);
    QueuesShort(s);
    SubmitRings(s, b, op);
    SubmitPhases(s, b, op);
    forall h | h in s'.reqs
      ensures ReqOk(s', h)
    {
      SubmitReq(s, b, op, h);
    }
    forall h, g | h in s'.reqs && g in s'.reqs
      ensures ApartOk(s', h, g)
    {
      SubmitApart(s, b, op, h, g);
    }
    forall i | 0 <= i < NUM
      ensures DescOk(s', i)
    {
      SubmitDesc(s, b, op, i);
    }
  }

  lemma FinishReq(s: State, h: nat, g: nat)
    requires Inv(s) && h in s.reqs && g in s.reqs && g != h && ReqOk(s, h)
    ensures Shaped(Finished(s, h)) && ReqOk(Finished(s, h), g)
  {
    hide DescOk, RingsOk;
    assert ReqOk(s, g) && ApartOk(s, h, g);
    Apart(s, h, g);
    assert g in Chain(g, s.reqs[g]) && s.reqs[g].mid in Chain(g, s.reqs[g]) && s.reqs[g].last in Chain(g, s.reqs[g]);
    assert h in Chain(h, s.reqs[h]) && s.reqs[h].mid in Chain(h, s.reqs[h]) && s.reqs[h].last in Chain(h, s.reqs[h]);
  }

  lemma FinishDesc(s: State, h: nat, i: nat)
    requires Inv(s) && h in s.reqs && ReqOk(s, h) && i < NUM
    ensures Shaped(Finished(s, h)) && DescOk(Finished(s, h), i)
  {
    hide RingsOk, Phases, ApartOk;
    assert DescOk(s, i);
    var s' := Finished(s, h);
    if !s'.free[i] {
      var g :| g in s.reqs && InChain(g, s.reqs[g], i);
      assert g != h;
      assert g in s'.reqs && InChain(g, s'.reqs[g], i);
    }
  }

  lemma FinishInv(s: State, h: nat)
    requires Inv(s) && h in s.reqs && s.reqs[h].b !in s.busy
    ensures ReqOk(s, h) && Inv(Finished(s, h))
  {
    hide RingsOk, DescOk;
    assert ReqOk(s, h);
    var s' := Finished(s, h);
    FinishRings(s, h);
    forall g | g in s'.reqs
      ensures ReqOk(s', g)
    {
      FinishReq(s, h, g);
    }
    forall f, g | f in s'.reqs && g in s'.reqs
      ensures ApartOk(s', f, g)
    {
      assert ApartOk(s, f, g);
    }
    forall i | 0 <= i < NUM
      ensures DescOk(s', i)
    {
      FinishDesc(s, h, i);
    }
  }

  lemma FinishRings(s: State, h: nat)
    requires Shaped(s) && RingsOk(s) && h in s.reqs && h < NUM && s.reqs[h].mid < NUM && s.reqs[h].last < NUM
    ensures RingsOk(Finished(s, h))
  {
  }

  // ---------------------------------------------------------------- every run

  /** What a step does.  The guards hold in every reachable state. */
  ghost function Do(s: State, a: Step): (s': State)
    requires Shaped(s) && Enabled(s, a)
  {
    match a
    case Submit(b, op) => Submitted(s, b, op)
    case Look =>
      if LooksAt(s) >= NUM || |s.served| == 0 then s
      else if s.info[LooksAt(s)].status != 0 then s.(panicked := true)
      else Looked(s)
    case Finish(h) => if h < NUM && s.reqs[h].mid < NUM && s.reqs[h].last < NUM then Finished(s, h) else s
    case Pick => if |s.queued| > 0 then Picked(s) else s
    case Serve(h, status) => if h < NUM then Served(s, h, status) else s
  }

  ghost predicate Init(s: State) {
    && Shaped(s) && (forall i :: 0 <= i < NUM ==> s.free[i] && s.desc[i] == NoDesc)
    && s.availIdx == s.usedIdx == s.seenIdx == s.deviceIdx == s.submits == s.picks == s.serves == s.looks == 0
    && s.queued == [] && s.pending == {} && s.served == [] && s.seen == {} && s.reqs == map[] && !s.panicked
  }

  datatype Run = Start(s: State) | Then(before: Run, a: Step, s: State) {
    ghost predicate Legal() {
      match this
      case Start(s) => Init(s)
      case Then(before, a, s) => before.Legal() && Shaped(before.s) && Enabled(before.s, a) && s == Do(before.s, a)
    }
  }

  lemma StepInv(s: State, a: Step)
    requires Inv(s) && Enabled(s, a)
    ensures Inv(Do(s, a))
  {
    match a
    case Submit(b, op) => SubmitInv(s, b, op);
    case Look =>
      LookFinds(s);
      if s.info[LooksAt(s)].status == 0 {
        LookInv(s);
      } else {
        PanicInv(s);
      }
    case Finish(h) => FinishInv(s, h);
    case Pick => PickInv(s);
    case Serve(h, status) => ServeInv(s, h, status);
  }

  lemma {:induction false} RunInv(r: Run)
    requires r.Legal()
    ensures Inv(r.s)
  {
    match r
    case Start(s) =>
    case Then(before, a, s) =>
      RunInv(before);
      StepInv(before.s, a);
  }

  // ---------------------------------------------------------------- what it comes to

  /** What a device reads by following the chain from a head. */
  datatype Command = Command(op: Op, b: nat, intoBuffer: bool, status: nat)

  ghost function Followed(s: State, h: nat): (c: Command)
    requires Shaped(s) && h < NUM
  {
    var d0 := s.desc[h];
    var d1 := if d0.next < NUM then s.desc[d0.next] else NoDesc;
    var d2 := if d1.next < NUM then s.desc[d1.next] else NoDesc;
    Command(if d0.addr.OpAt? && d0.addr.i < NUM then s.ops[d0.addr.i] else Op(false, 0),
            if d1.addr.DataOf? then d1.addr.b else NOBUF, d1.deviceWrites, if d2.addr.StatusAt? then d2.addr.i else NUM)
  }

  /** The entry of the avail ring that the last submission has published. */
  ghost function Published(s: State): (h: nat)
    requires Shaped(s)
  {
    s.availRing[(s.availIdx + WRAP - 1) % WRAP % NUM]
  }

  /** virtio_disk_rw publishes one entry, whose chain reads as the request that it was called with. */
  lemma SubmitAsks(r: Run)
    requires r.Legal() && r.Then? && r.a.Submit?
    ensures Shaped(r.s) && Published(r.s) < NUM && r.s.availIdx == (r.before.s.availIdx + 1) % WRAP
    ensures Published(r.s) !in r.before.s.reqs && Published(r.s) in r.s.reqs
    ensures Followed(r.s, Published(r.s)) == Command(r.a.op, r.a.b, !r.a.op.write, Published(r.s)) && r.a.b in r.s.busy
  {
    hide DescOk, ApartOk, Phases;
    RunInv(r.before);
    RunInv(r);
    var s, t := r.before.s, Allocated(r.before.s.free);
    AllocatedDistinct(s.free);
    SubmitFresh(s, r.a.b, r.a.op);
    LastPublished(s.submits);
    assert Published(r.s) == t.a;
  }

  lemma LastPublished(n: nat)
    ensures ((n % WRAP + 1) % WRAP + WRAP - 1) % WRAP == n % WRAP
  {
  }

  /** What was asked for at head h: the arguments of the last submission that published it. */
  ghost function AskedAt(r: Run, h: nat): (c: Command) {
    match r
    case Start(_) => Command(Op(false, 0), NOBUF, true, h)
    case Then(before, a, s) =>
      if a.Submit? && |s.availRing| == NUM && s.availRing[(s.availIdx + WRAP - 1) % WRAP % NUM] == h then Command(a.op, a.b, !a.op.write, h)
      else AskedAt(before, h)
  }

  /** A request that the device has, or can take, reads as the call of virtio_disk_rw that published it. */
  lemma {:induction false} DeviceSeesRequest(r: Run, h: nat)
    requires r.Legal() && h in r.s.reqs
    ensures Shaped(r.s) && h < NUM && Followed(r.s, h) == AskedAt(r, h) == Command(r.s.reqs[h].op, r.s.reqs[h].b, !r.s.reqs[h].op.write, h)
  {
    hide Inv, Do, Enabled, Followed;
    RunInv(r);
    ChainReads(r.s, h);
    RunInv(r.before);
    if r.a.Submit? {
      SubmitAsks(r);
    }
    if !(r.a.Submit? && Published(r.s) == h) {
      ReqBefore(r.before.s, r.a, h);
      DeviceSeesRequest(r.before, h);
    }
  }

  lemma ChainReads(s: State, h: nat)
    requires Inv(s) && h in s.reqs
    ensures Shaped(s) && h < NUM && Followed(s, h) == Command(s.reqs[h].op, s.reqs[h].b, !s.reqs[h].op.write, h)
  {
    hide DescOk, ApartOk, RingsOk, Phases;
    assert ReqOk(s, h);
  }

  /** A request that a step did not publish was there before, and is the same. */
  lemma ReqBefore(s: State, a: Step, h: nat)
    requires Inv(s) && Enabled(s, a) && h in Do(s, a).reqs
    requires a.Submit? ==> Shaped(Do(s, a)) && h != Published(Do(s, a))
    ensures h in s.reqs && Do(s, a).reqs[h] == s.reqs[h]
  {
    hide DescOk, ApartOk, Phases, ReqOk;
    if a.Submit? {
      AllocatedDistinct(s.free);
      LastPublished(s.submits);
    }
  }

  /** At most two requests are under way, so that neither ring ever overwrites a live entry, however often its index wraps. */
  lemma TwoInFlight(r: Run, f: nat, g: nat, h: nat)
    requires r.Legal()
    ensures f in r.s.reqs && g in r.s.reqs && h in r.s.reqs ==> f == g || f == h || g == h
    ensures |r.s.queued| <= 2 && |r.s.served| <= 2 && RingOk(r.s.availRing, r.s.queued, r.s.picks) && RingOk(r.s.usedRing, r.s.served, r.s.looks)
    ensures r.s.deviceIdx == r.s.availIdx <==> r.s.queued == []
    ensures r.s.seenIdx == r.s.usedIdx <==> r.s.served == []
  {
    RunInv(r);
    QueuesShort(r.s);
    if f in r.s.reqs && g in r.s.reqs && h in r.s.reqs {
      NoThird(r.s, f, g, h);
    }
    IndicesTell(r.s.picks, r.s.submits);
    IndicesTell(r.s.looks, r.s.serves);
  }

  /** What the device last reported for head h. */
  ghost function Reported(r: Run, h: nat): (status: nat) {
    match r
    case Start(_) => 0xff
    case Then(before, a, _) => if a.Serve? && a.h == h then a.status else Reported(before, h)
  }

  /** The driver reads the device's report. */
  lemma {:induction false} StatusReported(r: Run, h: nat)
    requires r.Legal() && (h in r.s.served || h in r.s.seen)
    ensures Shaped(r.s) && h < NUM && r.s.info[h].status == Reported(r, h)
  {
    hide ApartOk, DescOk;
    RunInv(r);
    assert ReqOk(r.s, h);
    if r.Then? {
      RunInv(r.before);
      if !(r.a.Serve? && r.a.h == h) {
        ServedBefore(r.before.s, r.a, h);
        StatusReported(r.before, h);
      }
    }
  }

  /** A request that is served or seen was so before the step, with the same status, unless the step served it. */
  lemma ServedBefore(s: State, a: Step, h: nat)
    requires Inv(s) && Enabled(s, a) && (h in Do(s, a).served || h in Do(s, a).seen) && !(a.Serve? && a.h == h)
    ensures h in s.served || h in s.seen
    ensures h < NUM ==> Shaped(Do(s, a)) && Do(s, a).info[h].status == s.info[h].status
  {
    hide ApartOk, DescOk, RingsOk;
    match a
    case Submit(b, op) => SubmitFresh(s, b, op);
    case Look => LookFinds(s);
    case Finish(g) => assert ReqOk(s, g);
    case Pick =>
    case Serve(g, status) => assert ReqOk(s, g);
  }

  /**
    A look panics exactly when the device has reported a failure for the request that it
    finds.  Else it clears exactly the buffer of that request, which has been served and
    not been cleared before.
   */
  lemma LookClearsOne(r: Run)
    requires r.Legal() && Shaped(r.s) && Enabled(r.s, Look)
    ensures var h := LooksAt(r.s);
            && h < NUM && h in r.s.reqs && h in r.s.served && h !in r.s.seen && r.s.info[h].status == Reported(r, h)
            && (Do(r.s, Look).panicked <==> Reported(r, h) != 0)
            && AskedAt(r, h).b == r.s.reqs[h].b && r.s.reqs[h].b in r.s.busy
            && Do(r.s, Look).busy == if Reported(r, h) == 0 then r.s.busy - {AskedAt(r, h).b} else r.s.busy
  {
    RunInv(r);
    LookFinds(r.s);
    assert ReqOk(r.s, LooksAt(r.s));
    assert r.s.served[0] in r.s.served;
    StatusReported(r, LooksAt(r.s));
    DeviceSeesRequest(r, LooksAt(r.s));
  }

  /** The driver has panicked only if the device reported a failure, and every request whose buffer was cleared has succeeded. */
  lemma {:induction false} PanicCause(r: Run)
    requires r.Legal()
    ensures r.s.panicked ==> exists h :: h in r.s.served && Reported(r, h) != 0
    ensures forall h :: h in r.s.seen ==> Reported(r, h) == 0
  {
    hide ApartOk, DescOk;
    RunInv(r);
    forall h | h in r.s.seen
      ensures Reported(r, h) == 0
    {
      assert ReqOk(r.s, h);
      StatusReported(r, h);
    }
    if r.Then? && r.s.panicked {
      PanicFront(r);
    }
  }

  lemma {:induction false} PanicFront(r: Run)
    requires r.Legal() && r.s.panicked
    ensures Shaped(r.s) && r.s.served != [] && Reported(r, r.s.served[0]) != 0 && r.s.served[0] in r.s.served
  {
    hide ApartOk, DescOk;
    RunInv(r);
    RunInv(r.before);
    if r.before.s.panicked {
      PanicFront(r.before);
      var h := r.before.s.served[0];
      if r.a.Serve? {
        assert ReqOk(r.before.s, r.a.h);
      }
    } else {
      LookFinds(r.before.s);
      StatusReported(r.before, LooksAt(r.before.s));
    }
  }

  /** Descriptors are free or in exactly one chain. */
  lemma DescriptorsPartitioned(r: Run, i: nat)
    requires r.Legal() && i < NUM
    ensures Shaped(r.s) && (!r.s.free[i] <==> exists h :: h in r.s.reqs && InChain(h, r.s.reqs[h], i))
    ensures forall h, g :: h in r.s.reqs && g in r.s.reqs && InChain(h, r.s.reqs[h], i) && InChain(g, r.s.reqs[g], i) ==> h == g
  {
    RunInv(r);
    assert DescOk(r.s, i);
    forall h | h in r.s.reqs && InChain(h, r.s.reqs[h], i)
      ensures !r.s.free[i]
    {
      assert ReqOk(r.s, h);
    }
    forall h, g | h in r.s.reqs && g in r.s.reqs && InChain(h, r.s.reqs[h], i) && InChain(g, r.s.reqs[g], i)
      ensures h == g
    {
      assert ApartOk(r.s, h, g);
    }
  }
}
