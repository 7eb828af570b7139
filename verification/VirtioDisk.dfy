/** The driver of virtio_disk.c: descriptors, submission, completion. */
module VirtioDisk {
  import opened VirtioSpec

  class Disk {
    var s: State            // the driver's and the device's memory
    ghost var run: Run

    ghost predicate Valid()
      reads this
    {
      run.Legal() && run.s == s
    }

    constructor (start: State)
      requires Init(start)
      ensures Valid() && s == start && run == Start(start)
    {
      s, run := start, Start(start);
    }

    ghost method Take(a: Step)
      requires run.Legal() && Shaped(run.s) && Enabled(run.s, a) && s == Do(run.s, a)
      modifies this`run
      ensures run.Legal() && run == Then(old(run), a, s)
    {
      run := Then(run, a, s);
    }

    /** alloc_desc; NUM stands for -1. */
    method AllocDesc() returns (i: nat)
      requires Shaped(s)
      modifies this`s
      ensures i == FirstFree(old(s).free, 0)
      ensures s == if i < NUM then old(s).(free := old(s).free[i := false]) else old(s)
    {
      i := 0;
      while i < NUM
        invariant i <= NUM && FirstFree(s.free, 0) == FirstFree(s.free, i) && s == old(s)
      {
        if s.free[i] {
          s := s.(free := s.free[i := false]);
          return;
        }
        i := i + 1;
      }
    }

    /** free_desc; not ok is one of its panics. */
    method FreeDesc(i: nat) returns (ok: bool)
      requires Shaped(s)
      modifies this`s
      ensures ok <==> i < NUM && !old(s).free[i]
      ensures s == if ok then old(s).(desc := old(s).desc[i := NoDesc], free := old(s).free[i := true]) else old(s)
    {
      if i >= NUM {
        return false;
      }
      if s.free[i] {
        return false;
      }
      s := s.(desc := s.desc[i := NoDesc]);
      s := s.(free := s.free[i := true]);
      return true;
    }

    /** alloc3_desc takes three descriptors or, giving back what it took, none. */
    method Alloc3Desc() returns (ok: bool, t: Three)
      requires Shaped(s) && forall i :: 0 <= i < NUM && s.free[i] ==> s.desc[i] == NoDesc
      modifies this`s
      ensures ok <==> Allocated(old(s).free).c < NUM
      ensures ok ==> t == Allocated(old(s).free) && t.a < NUM && t.b < NUM && t.c < NUM
                     && s == old(s).(free := old(s).free[t.a := false][t.b := false][t.c := false])
      ensures !ok ==> s == old(s)
    {
      var a := AllocDesc();
      if a == NUM {
        return false, Three(NUM, NUM, NUM);
      }
      var b := AllocDesc();
      var freed;
      if b == NUM {
        freed := FreeDesc(a);
        Restored(old(s), s, a);
        return false, Three(a, NUM, NUM);
      }
      var c := AllocDesc();
      if c == NUM {
        freed := FreeDesc(a);
        freed := FreeDesc(b);
        RestoredTwo(old(s), s, a, b);
        return false, Three(a, b, NUM);
      }
      return true, Three(a, b, c);
    }

    /** virtio_disk_rw up to the notification; not ok means that it must sleep for descriptors. */
    method Submit(b: nat, op: Op) returns (ok: bool)
      requires Valid() && !s.panicked && b != NOBUF && forall h :: h in s.reqs ==> s.reqs[h].b != b
      modifies this
      ensures Valid()
      ensures ok <==> Shaped(old(s)) && Allocated(old(s).free).c < NUM
      ensures !ok ==> s == old(s) && run == old(run)
      ensures ok ==> run.Then? && run.before == old(run) && run.a == VirtioSpec.Submit(b, op)
      ensures ok ==> Shaped(s) && Published(s) < NUM && Followed(s, Published(s)) == Command(op, b, !op.write, Published(s))
    {
      hide Inv;
      Blanks(run);
      var t;
      ok, t := Alloc3Desc();
      if !ok {
        return;
      }
      AllocatedDistinct(run.s.free);
      s := s.(ops := s.ops[t.a := op]);
      s := s.(desc := s.desc[t.a := Desc(OpAt(t.a), true, false, t.b)]);
      s := s.(desc := s.desc[t.b := Desc(DataOf(b), true, !op.write, t.c)]);
      s := s.(desc := s.desc[t.c := Desc(StatusAt(t.a), false, true, 0)]);
      s := s.(busy := s.busy + {b}, info := s.info[t.a := Info(b, 0xff)]);
      s := s.(availRing := s.availRing[s.availIdx % NUM := t.a]);
      s := s.(availIdx := (s.availIdx + 1) % WRAP);
      s := s.(queued := s.queued + [t.a], reqs := s.reqs[t.a := Req(op, b, t.b, t.c)], submits := s.submits + 1);
      Take(VirtioSpec.Submit(b, op));
      SubmitAsks(run);
    }

    /** The device reports on request h, if it has it. */
    method Arrive(h: nat, status: nat)
      requires Valid() && status < 0x100
      modifies this
      ensures Valid() && s.reqs == old(s).reqs && s.seen == old(s).seen && s.panicked == old(s).panicked
      ensures s.served == if h in old(s).pending then old(s).served + [h] else old(s).served
      ensures Shaped(s) && Shaped(old(s)) && forall g :: g in old(s).served && g < NUM ==> s.info[g] == old(s).info[g]
      ensures h in old(s).pending ==> h < NUM && h !in old(s).served && h !in old(s).seen && s.info[h].status == status
    {
      hide Inv;
      RunShaped(run);
      if h in s.pending {
        PendingOk(run, h);
        s := s.(info := s.info[h := s.info[h].(status := status)], usedRing := s.usedRing[s.usedIdx % NUM := h],
                usedIdx := (s.usedIdx + 1) % WRAP, pending := s.pending - {h}, served := s.served + [h], serves := s.serves + 1);
        Take(Serve(h, status));
      }
    }

    /**
      virtio_disk_intr, while the device goes on reporting: late[k] arrives during turn k.  It
      clears the buffers of all served requests, unless the device has reported a failure for
      one of them; it panics exactly then.
     */
    method Intr(late: seq<(nat, nat)>) returns (ok: bool)
      requires Valid() && !s.panicked && forall k :: 0 <= k < |late| ==> late[k].1 < 0x100
      modifies this
      ensures Valid() && s.reqs == old(s).reqs && old(s).seen <= s.seen && (s.panicked <==> !ok)
      ensures ok ==> s.served == [] && forall h :: h in old(s).served ==> h in s.seen && Reported(old(run), h) == 0
      ensures (forall h :: h in old(s).served ==> Reported(old(run), h) == 0) && (forall k :: 0 <= k < |late| ==> late[k].1 == 0) ==> ok
    {
      hide Inv, Going;
      ghost var good := (forall h :: h in s.served ==> Reported(run, h) == 0) && forall k :: 0 <= k < |late| ==> late[k].1 == 0;
      TwoInFlight(run, 0, 0, 0);
      ServedReports(run);
      GoingStart(s, good);
      var k := 0;
      while s.seenIdx != s.usedIdx
        invariant 0 <= k && Valid() && !s.panicked && s.reqs == old(s).reqs && Going(old(s), s, good)
        invariant s.seenIdx == s.usedIdx <==> s.served == []
        decreases if k < |late| then |late| - k else 0, |s.served|
      {
        ghost var s1 := s;
        ok := LookClears();
        GoingLook(old(s), s1, s, good);
        if !ok {
          return;
        }
        if k < |late| {
          ghost var s2 := s;
          Arrive(late[k].0, late[k].1);
          GoingArrive(old(s), s2, s, good, late[k].0, late[k].1);
          TwoInFlight(run, 0, 0, 0);
        }
        k := k + 1;
      }
      GoingEnd(old(s), s, good);
      ok := true;
    }

    /** One turn of virtio_disk_intr's loop; not ok is its panic. */
    method LookClears() returns (ok: bool)
      requires Valid() && !s.panicked && s.seenIdx != s.usedIdx
      modifies this
      ensures Valid() && run == Then(old(run), Look, s) && s.reqs == old(s).reqs && s.info == old(s).info && (s.panicked <==> !ok)
      ensures old(s).served != [] && Shaped(s) && old(s).served[0] < NUM
      ensures ok <==> old(s).info[old(s).served[0]].status == 0
      ensures ok <==> Reported(old(run), old(s).served[0]) == 0
      ensures ok ==> s.served == old(s).served[1..] && s.seen == old(s).seen + {old(s).served[0]}
      ensures !ok ==> s.seen == old(s).seen
      ensures s.seenIdx == s.usedIdx <==> s.served == []
    {
      hide Inv;
      RunShaped(run);
      LookClearsOne(run);
      FirstServed(run);
      var id := s.usedRing[s.seenIdx % NUM];
      ok := s.info[id].status == 0;
      if ok {
        s := s.(busy := s.busy - {s.info[id].b});
        s := s.(seenIdx := (s.seenIdx + 1) % WRAP, served := s.served[1..], seen := s.seen + {id}, looks := s.looks + 1);
      } else {
        s := s.(panicked := true);
      }
      Take(Look);
      TwoInFlight(run, 0, 0, 0);
    }

    /** free_chain from the head of a request; not ok is a panic of free_desc. */
    method FreeChain(h: nat) returns (ok: bool)
      requires Shaped(s) && h in s.reqs && ChainOk(s, h, s.reqs[h])
      modifies this`s
      ensures ok
      ensures var r := old(s).reqs[h];
              s == old(s).(free := old(s).free[h := true][r.mid := true][r.last := true],
                           desc := old(s).desc[h := NoDesc][r.mid := NoDesc][r.last := NoDesc])
    {
      ghost var r := s.reqs[h];
      var i, more := h, true;
      ghost var n := 0;
      ok := true;
      while more
        invariant n <= 3 && ok && (more <==> n < 3)
        invariant n == 0 ==> i == h && s == old(s)
        invariant n == 1 ==> i == r.mid && s == old(s).(free := old(s).free[h := true], desc := old(s).desc[h := NoDesc])
        invariant n == 2 ==> i == r.last && s == old(s).(free := old(s).free[h := true][r.mid := true],
                                                         desc := old(s).desc[h := NoDesc][r.mid := NoDesc])
        invariant n == 3 ==> s == old(s).(free := old(s).free[h := true][r.mid := true][r.last := true],
                                          desc := old(s).desc[h := NoDesc][r.mid := NoDesc][r.last := NoDesc])
        decreases 3 - n
      {
        var flag, nxt := s.desc[i].chained, s.desc[i].next;
        ok := FreeDesc(i);
        if flag {
          i := nxt;
        } else {
          more := false;
        }
        n := n + 1;
      }
    }

    /** The end of virtio_disk_rw, once its buffer was cleared. */
    method Finish(h: nat)
      requires Valid() && !s.panicked && h in s.reqs && s.reqs[h].b !in s.busy
      modifies this
      ensures Valid() && run.Then? && run.before == old(run) && run.a == VirtioSpec.Finish(h)
    {
      hide Inv;
      RequestOk(run, h);
      s := s.(info := s.info[h := s.info[h].(b := NOBUF)]);
      var ok := FreeChain(h);
      s := s.(seen := s.seen - {h}, reqs := s.reqs - {h});
      Take(VirtioSpec.Finish(h));
    }
  }

  /** The descriptors of a request are taken and linked from its head. */
  ghost predicate ChainOk(s: State, h: nat, r: Req)
    requires Shaped(s)
  {
    && h < NUM && r.mid < NUM && r.last < NUM && h != r.mid && h != r.last && r.mid != r.last
    && !s.free[h] && !s.free[r.mid] && !s.free[r.last]
    && s.desc[h].chained && s.desc[h].next == r.mid && s.desc[r.mid].chained && s.desc[r.mid].next == r.last && !s.desc[r.last].chained
  }

  lemma RunShaped(r: Run)
    requires r.Legal()
    ensures Shaped(r.s)
  {
    RunInv(r);
  }

  lemma RequestOk(r: Run, h: nat)
    requires r.Legal() && h in r.s.reqs
    ensures Shaped(r.s) && ReqOk(r.s, h)
  {
    RunInv(r);
  }

  /** In virtio_disk_intr's loop: what was served is still to be looked at, or has been and was a success. */
  ghost predicate Going(s0: State, s: State, good: bool) {
    && Shaped(s0) && Shaped(s) && s0.seen <= s.seen
    && (forall h :: h in s0.served ==> h < NUM && if h in s.served then s.info[h] == s0.info[h] else h in s.seen && s0.info[h].status == 0)
    && (forall h :: h in s.served ==> h < NUM && (good ==> s.info[h].status == 0))
  }

  lemma GoingStart(s: State, good: bool)
    requires Shaped(s) && forall h :: h in s.served ==> h < NUM && (good ==> s.info[h].status == 0)
    ensures Going(s, s, good)
  {
  }

  lemma GoingLook(s0: State, s1: State, s2: State, good: bool)
    requires Going(s0, s1, good) && Shaped(s2) && s1.served != [] && s2.info == s1.info
    ensures s1.served[0] < NUM && (good ==> s1.info[s1.served[0]].status == 0)
    ensures s2.seen == s1.seen ==> s0.seen <= s2.seen
    ensures s2.served == s1.served[1..] && s2.seen == s1.seen + {s1.served[0]} && s1.info[s1.served[0]].status == 0 ==> Going(s0, s2, good)
  {
    assert s1.served[0] in s1.served;
    assert forall h :: h in s1.served <==> h == s1.served[0] || h in s1.served[1..];
  }

  lemma GoingArrive(s0: State, s1: State, s2: State, good: bool, h: nat, status: nat)
    requires Going(s0, s1, good) && Shaped(s2) && s2.seen == s1.seen && (good ==> status == 0)
    requires s2.served == s1.served || (s2.served == s1.served + [h] && h < NUM && h !in s1.served && h !in s1.seen && s2.info[h].status == status)
    requires forall g :: g in s1.served && g < NUM ==> s2.info[g] == s1.info[g]
    ensures Going(s0, s2, good)
  {
  }

  lemma GoingEnd(s0: State, s: State, good: bool)
    requires Going(s0, s, good) && s.served == []
    ensures s0.seen <= s.seen && forall h :: h in s0.served ==> h < NUM && h in s.seen && s0.info[h].status == 0
  {
  }

  lemma PendingOk(r: Run, h: nat)
    requires r.Legal() && h in r.s.pending
    ensures Shaped(r.s) && h < NUM && h !in r.s.served && h !in r.s.seen
  {
    RunInv(r);
    assert ReqOk(r.s, h);
  }

  lemma ServedReports(r: Run)
    requires r.Legal()
    ensures Shaped(r.s) && forall h :: h in r.s.served ==> h < NUM && r.s.info[h].status == Reported(r, h)
  {
    RunShaped(r);
    forall h | h in r.s.served
      ensures h < NUM && r.s.info[h].status == Reported(r, h)
    {
      StatusReported(r, h);
    }
  }

  lemma FirstServed(r: Run)
    requires r.Legal() && Shaped(r.s) && r.s.seenIdx != r.s.usedIdx
    ensures r.s.served != [] && LooksAt(r.s) == r.s.served[0]
  {
    RunInv(r);
    LookFinds(r.s);
  }

  lemma Blanks(r: Run)
    requires r.Legal()
    ensures Shaped(r.s) && forall i :: 0 <= i < NUM && r.s.free[i] ==> r.s.desc[i] == NoDesc
  {
    RunInv(r);
    forall i | 0 <= i < NUM && r.s.free[i]
      ensures r.s.desc[i] == NoDesc
    {
      assert DescOk(r.s, i);
    }
  }

  lemma Restored(s: State, s': State, a: nat)
    requires Shaped(s) && a < NUM && s.free[a] && s.desc[a] == NoDesc
    requires s' == s.(free := s.free[a := false][a := true], desc := s.desc[a := NoDesc])
    ensures s' == s
  {
    assert s'.free == s.free && s'.desc == s.desc;
  }

  lemma RestoredTwo(s: State, s': State, a: nat, b: nat)
    requires Shaped(s) && a < NUM && b < NUM && a != b && s.free[a] && s.free[b] && s.desc[a] == NoDesc && s.desc[b] == NoDesc
    requires s' == s.(free := s.free[a := false][b := false][a := true][b := true], desc := s.desc[a := NoDesc][b := NoDesc])
    ensures s' == s
  {
    assert s'.free == s.free && s'.desc == s.desc;
  }
}
