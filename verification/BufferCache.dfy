/** The buffer cache of bio.c: buffers on a doubly linked ring through a head entry. */
module BufferCache {
  import opened Collections
  import opened CacheSpec

  const HEAD := NBUF          // bcache.head, beside bcache.buf[0 .. NBUF]

  // ---------------------------------------------------------------- the ring

  /** The ring from the head on, up to the last buffer, and from the first buffer on, back to the head. */
  ghost function From(order: seq<nat>): (s: seq<nat>) {
    [HEAD] + order
  }

  ghost function To(order: seq<nat>): (s: seq<nat>) {
    order + [HEAD]
  }

  ghost predicate Edge(next: seq<nat>, prev: seq<nat>, order: seq<nat>, k: nat) {
    && k <= |order| && From(order)[k] < |next| && To(order)[k] < |prev|
    && next[From(order)[k]] == To(order)[k] && prev[To(order)[k]] == From(order)[k]
  }

  /** The links visit the buffers in the given order, each once. */
  ghost predicate RingOk(next: seq<nat>, prev: seq<nat>, order: seq<nat>) {
    && |next| == |prev| == NBUF + 1 && Distinct(order) && (forall i :: 0 <= i < |order| ==> order[i] < NBUF)
    && forall k {:trigger Edge(next, prev, order, k)} :: 0 <= k <= |order| ==> Edge(next, prev, order, k)
  }

  lemma Around(next: seq<nat>, prev: seq<nat>, order: seq<nat>, k: nat)
    requires RingOk(next, prev, order) && k < |order|
    ensures prev[order[k]] == From(order)[k] < NBUF + 1 && next[order[k]] == To(order)[k + 1] < NBUF + 1
    ensures next[From(order)[k]] == order[k] && prev[To(order)[k + 1]] == order[k]
  {
    assert Edge(next, prev, order, k) && Edge(next, prev, order, k + 1);
    assert To(order)[k] == order[k] && From(order)[k + 1] == order[k];
  }

  ghost function Without(order: seq<nat>, k: nat): (r: seq<nat>)
    requires k < |order|
  {
    order[..k] + order[k + 1..]
  }

  lemma UnlinkRing(next: seq<nat>, prev: seq<nat>, order: seq<nat>, k: nat)
    requires RingOk(next, prev, order) && k < |order| && prev[order[k]] < |next| && next[order[k]] < |prev|
    ensures RingOk(next[prev[order[k]] := next[order[k]]], prev[next[order[k]] := prev[order[k]]], Without(order, k))
  {
    var b := order[k];
    Around(next, prev, order, k);
    var next', prev', o := next[prev[b] := next[b]], prev[next[b] := prev[b]], Without(order, k);
    forall i | 0 <= i <= |o|
      ensures Edge(next', prev', o, i)
    {
      var j := if i <= k then i else i + 1;
      assert From(o)[i] == From(order)[j];
      assert To(o)[i] == To(order)[if i < k then i else i + 1];
      if i != k {
        assert Edge(next, prev, order, j);
        FromDistinct(order, j, k);
        ToDistinct(order, j, k + 1);
      }
    }
  }

  lemma FromDistinct(order: seq<nat>, i: nat, j: nat)
    requires Distinct(order) && (forall x :: 0 <= x < |order| ==> order[x] < NBUF) && i <= |order| && j <= |order| && i != j
    ensures From(order)[i] != From(order)[j]
  {
  }

  lemma ToDistinct(order: seq<nat>, i: nat, j: nat)
    requires Distinct(order) && (forall x :: 0 <= x < |order| ==> order[x] < NBUF) && i <= |order| && j <= |order| && i != j
    ensures To(order)[i] != To(order)[j]
  {
  }

  lemma HeadNext(next: seq<nat>, prev: seq<nat>, order: seq<nat>)
    requires RingOk(next, prev, order)
    ensures |next| == |prev| == NBUF + 1 && next[HEAD] < NBUF + 1
  {
    assert Edge(next, prev, order, 0);
  }

  /** Link b behind the head. */
  lemma PushRing(next: seq<nat>, prev: seq<nat>, order: seq<nat>, b: nat)
    requires RingOk(next, prev, order) && b < NBUF && b !in order && next[HEAD] < |prev|
    ensures RingOk(next[b := next[HEAD]][HEAD := b], prev[b := HEAD][next[HEAD] := b], [b] + order)
  {
    assert Edge(next, prev, order, 0);
    var next', prev', o := next[b := next[HEAD]][HEAD := b], prev[b := HEAD][next[HEAD] := b], [b] + order;
    forall i | 0 <= i <= |o|
      ensures Edge(next', prev', o, i)
    {
      if i > 0 {
        assert Edge(next, prev, order, i - 1);
        assert To(o)[i] == To(order)[i - 1];
        if i > 1 {
          assert From(o)[i] == From(order)[i - 1];
          ToDistinct(order, i - 1, 0);
        }
      }
    }
  }

  datatype ReadResult = NoBuffers | MustWait(b: nat) | Read(b: nat)

  class Bcache {
    var buf: seq<Buf>
    var next: seq<nat>
    var prev: seq<nat>
    var disk: map<Id, Data>
    ghost var order: seq<nat>
    ghost var view: map<Id, Data>
    ghost var run: Run

    ghost function St(): (c: Cache)
      reads this
    {
      Cache(buf, order, disk, view)
    }

    ghost predicate Valid()
      reads this
    {
      && RingOk(next, prev, order) && run.Legal() && run.c == St()
      && forall b :: 0 <= b < |buf| && buf[b].locked ==> buf[b].valid
    }

    /** What was just done is the machine's step a. */
    ghost method Take(a: Step)
      requires run.Legal() && Enabled(run.c, a) && Disciplined(run.c, a) && St() == Do(run.c, a)
      modifies this`run
      ensures run.Legal() && run == Then(old(run), a, St())
    {
      run := Then(run, a, St());
    }

    /** binit */
    constructor (disk0: map<Id, Data>)
      ensures Valid() && run == Start(Fresh(disk0))
    {
      buf := FreshBufs();
      next := seq(NBUF + 1, i => HEAD);
      prev := seq(NBUF + 1, i => HEAD);
      disk, order, view := disk0, [], disk0;
      run := Start(Fresh(disk0));
      new;
      assert From(order) == [HEAD] == To(order);
      BuildRing();
    }

    /** binit's loop. */
    method BuildRing()
      requires RingOk(next, prev, order) && order == []
      modifies this`next, this`prev, this`order
      ensures RingOk(next, prev, order) && order == FreshOrder(NBUF)
    {
      hide RingOk;
      var b := 0;
      while b < NBUF
        invariant 0 <= b <= NBUF && RingOk(next, prev, order) && order == FreshOrder(b)
      {
        HeadNext(next, prev, order);
        PushRing(next, prev, order, b);
        next := next[b := next[HEAD]];
        prev := prev[b := HEAD];
        prev := prev[next[HEAD] := b];
        next := next[HEAD := b];
        order := [b] + order;
        b := b + 1;
      }
    }

    /** bget's search: NBUF if id is in no buffer. */
    method Search(id: Id) returns (b: nat)
      requires Valid()
      ensures var i := Find(buf, order, id, 0); if i < |order| then b == order[i] else b == HEAD
    {
      Sizes(run);
      ghost var k: nat := 0;
      assert Edge(next, prev, order, 0);
      b := next[HEAD];
      while b != HEAD && buf[b].id != id
        invariant k <= |order| && b == To(order)[k] && Find(buf, order, id, 0) == Find(buf, order, id, k)
        decreases |order| - k
      {
        Around(next, prev, order, k);
        b := next[b];
        k := k + 1;
      }
    }

    /** bget's choice of a buffer to recycle, from the back of the ring; NBUF if all are in use. */
    method Oldest() returns (b: nat)
      requires Valid()
      ensures var v := Victim(buf, order, |order|); if v < |order| then b == order[v] else b == HEAD
    {
      Sizes(run);
      ghost var k: nat := |order|;
      assert Edge(next, prev, order, |order|);
      b := prev[HEAD];
      while b != HEAD && buf[b].refcnt != 0
        invariant k <= |order| && b == From(order)[k] && Victim(buf, order, |order|) == Victim(buf, order, k)
        decreases k
      {
        Around(next, prev, order, k - 1);
        b := prev[b];
        k := k - 1;
      }
    }

    /** bget up to acquiresleep; HEAD is the panic. */
    method Bget(id: Id) returns (b: nat)
      requires Valid() && id.dev != 0
      modifies this
      ensures Valid() && view == old(view) && disk == old(disk)
      ensures b == HEAD ==> St() == old(St()) && run == old(run) && Choice(old(St()), id).Panic?
      ensures b != HEAD ==> run.Then? && run.before == old(run) && run.a == Get(id) && Choice(old(St()), id) == Got(b)
    {
      hide RingOk;
      b := Search(id);
      Sizes(run);
      if b != HEAD {
        buf := buf[b := buf[b].(refcnt := buf[b].refcnt + 1, waiting := buf[b].waiting + 1)];
        Take(Get(id));
        return;
      }
      b := Oldest();
      if b != HEAD {
        UnusedUnlocked(run, b);
        buf := buf[b := buf[b].(id := id, valid := false, refcnt := 1, waiting := 1)];
        Take(Get(id));
      }
    }

    /** bread once the lock is free: the rest of bget's acquiresleep, and the disk read. */
    method LockAndFill(b: nat)
      requires Valid() && Enabled(St(), Lock(b))
      modifies this
      ensures Valid() && view == old(view) && disk == old(disk) && ReadSteps(old(run), run, b)
      ensures Held(St(), b) && buf[b].valid && buf[b].id == old(buf)[b].id && buf[b].data == LastEdit(run, buf[b].id)
    {
      hide RingOk;
      buf := buf[b := buf[b].(waiting := buf[b].waiting - 1, locked := true)];
      Take(Lock(b));
      if !buf[b].valid {
        buf := buf[b := buf[b].(valid := true, data := if buf[b].id in disk then disk[buf[b].id] else [])];
        Take(Fill(b));
      }
      Transparent(run, b);
    }

    /**
      bread.  MustWait says that another holder has the buffer; the reference is taken, so
      that the buffer will still be the right one when the lock comes free.
     */
    method Bread(id: Id) returns (r: ReadResult)
      requires Valid() && id.dev != 0
      modifies this
      ensures Valid() && view == old(view) && disk == old(disk)
      ensures r.NoBuffers? <==> forall b :: 0 <= b < |old(buf)| ==> old(buf)[b].id != id && old(buf)[b].refcnt != 0
      ensures r.NoBuffers? ==> St() == old(St()) && run == old(run)
      ensures r.MustWait? <==> Locked(old(buf), id)
      ensures r.MustWait? ==> run == Then(old(run), Get(id), St()) && r.b < |buf| && buf[r.b].id == id && buf[r.b].waiting > 0
      ensures r.Read? ==> ReadSteps(Then(old(run), Get(id), Referenced(old(St()), id)), run, r.b)
      ensures r.Read? ==> Held(St(), r.b) && buf[r.b].id == id && buf[r.b].valid && buf[r.b].data == LastEdit(old(run), id)
    {
      hide RingOk, Choice, Referenced;
      PanicsWhenFull(run, id);
      var b := Bget(id);
      if b == HEAD {
        LockedNotFull(run, id);
        return NoBuffers;
      }
      GotIs(old(run), id, b);
      if buf[b].locked {
        return MustWait(b);
      }
      LockAndFill(b);
      ViewIsLastEdit(old(run), id);
      ViewIsLastEdit(run, id);
      return Read(b);
    }

    /** The holder of a buffer changes its contents. */
    method Store(b: nat, data: Data)
      requires Valid() && Held(St(), b)
      modifies this
      ensures Valid() && run == Then(old(run), Edit(b, data), St()) && view == old(view)[buf[b].id := data] && disk == old(disk)
    {
      hide RingOk;
      view := view[buf[b].id := data];
      buf := buf[b := buf[b].(data := data)];
      Take(Edit(b, data));
    }

    /** bwrite; not ok is the panic. */
    method Bwrite(b: nat) returns (ok: bool)
      requires Valid() && b < |buf|
      modifies this
      ensures Valid() && view == old(view) && buf == old(buf)
      ensures ok <==> old(buf)[b].locked
      ensures if ok then disk == old(disk)[buf[b].id := buf[b].data] else disk == old(disk)
      ensures if ok then run == Then(old(run), Write(b), St()) else run == old(run)
    {
      hide RingOk;
      Sizes(run);
      if !buf[b].locked {
        return false;
      }
      disk := disk[buf[b].id := buf[b].data];
      Take(Write(b));
      return true;
    }

    /** brelse of a buffer whose contents are on disk or pinned; not ok is the panic. */
    method Brelse(b: nat) returns (ok: bool)
      requires Valid() && b < |buf| && Disciplined(St(), Release(b))
      modifies this
      ensures Valid() && view == old(view) && disk == old(disk)
      ensures ok <==> old(buf)[b].locked
      ensures !ok ==> St() == old(St())
      ensures ok ==> run.Then? && run.a == Release(b) && run.before.Then? && run.before.a == Unlock(b) && run.before.before == old(run)
    {
      hide RingOk, ToFront;
      if !buf[b].locked {
        return false;
      }
      Sizes(run);
      buf := buf[b := buf[b].(locked := false, leaving := buf[b].leaving + 1)];
      Take(Unlock(b));
      buf := buf[b := buf[b].(leaving := buf[b].leaving - 1, refcnt := buf[b].refcnt - 1)];
      if buf[b].refcnt == 0 {
        MoveToFront(b);
      }
      Take(Release(b));
      return true;
    }

    /** brelse's relinking. */
    method MoveToFront(b: nat)
      requires RingOk(next, prev, order) && b in order
      modifies this`next, this`prev, this`order
      ensures RingOk(next, prev, order) && order == ToFront(old(order), b)
    {
      ghost var k :| 0 <= k < |order| && order[k] == b;
      Around(next, prev, order, k);
      UnlinkRing(next, prev, order, k);
      DroppedAt(order, b, k);
      prev := prev[next[b] := prev[b]];
      next := next[prev[b] := next[b]];
      order := Without(order, k);
      assert Edge(next, prev, order, 0);
      PushRing(next, prev, order, b);
      next := next[b := next[HEAD]];
      prev := prev[b := HEAD];
      prev := prev[next[HEAD] := b];
      next := next[HEAD := b];
      order := [b] + order;
    }

    method Bpin(b: nat)
      requires Valid() && Held(St(), b)
      modifies this
      ensures Valid() && run.Then? && run.before == old(run) && run.a == Pin(b)
    {
      buf := buf[b := buf[b].(refcnt := buf[b].refcnt + 1, pins := buf[b].pins + 1)];
      Take(Pin(b));
    }

    method Bunpin(b: nat)
      requires Valid() && Enabled(St(), Unpin(b)) && Disciplined(St(), Unpin(b))
      modifies this
      ensures Valid() && run.Then? && run.before == old(run) && run.a == Unpin(b)
    {
      buf := buf[b := buf[b].(refcnt := buf[b].refcnt - 1, pins := buf[b].pins - 1)];
      Take(Unpin(b));
    }
  }

  /** Taking the lock, and a disk read if there is nothing valid in the buffer. */
  ghost predicate ReadSteps(r: Run, r': Run, b: nat) {
    if b < |r.c.bufs| && r.c.bufs[b].valid then r' == Then(r, Lock(b), r'.c)
    else r'.Then? && r'.before.Then? && r'.a == Fill(b) && r'.before == Then(r, Lock(b), r'.before.c)
  }

  lemma UnusedUnlocked(r: Run, b: nat)
    requires r.Legal() && b < |r.c.bufs| && r.c.bufs[b].refcnt == 0
    ensures !r.c.bufs[b].locked
  {
    RunInv(r);
    assert DataOk(r.c, b);
  }

  lemma LockedNotFull(r: Run, id: Id)
    requires r.Legal() && Choice(r.c, id).Panic?
    ensures !Locked(r.c.bufs, id)
  {
    PanicsWhenFull(r, id);
  }
}
