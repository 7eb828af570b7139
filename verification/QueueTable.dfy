/**
  The scheduler's queue table: three doubly linked lists threaded by index through one
  array, with a head and a tail entry for each, and the three sequences they stand for.
 */
module QueueTable {
  import opened Collections

  const NPROC := 64
  const NUM_QUEUES := 3
  const EMPTY := 0xFFFF_FFFF_FFFF_FFFF

  datatype QEntry = QEntry(queue: nat, prev: nat, next: nat)

  type Queues = qs: seq<seq<nat>> | |qs| == NUM_QUEUES witness [[], [], []]

  function Head(l: nat): (i: nat) {
    NPROC + 2 * l
  }

  function Tail(l: nat): (i: nat) {
    NPROC + 2 * l + 1
  }

  /** The table entries of queue l, in list order. */
  ghost function Nodes(q: seq<nat>, l: nat): (n: seq<nat>)
    ensures |n| == |q| + 2
  {
    [Head(l)] + q + [Tail(l)]
  }

  ghost predicate Joined(qt: seq<QEntry>, a: nat, b: nat) {
    a < |qt| && b < |qt| && qt[a].next == b && qt[b].prev == a
  }

  ghost predicate Follows(qt: seq<QEntry>, n: seq<nat>, k: nat) {
    k + 1 < |n| && Joined(qt, n[k], n[k + 1])
  }

  ghost predicate Linked(qt: seq<QEntry>, n: seq<nat>) {
    forall k {:trigger Follows(qt, n, k)} :: 0 <= k < |n| - 1 ==> Follows(qt, n, k)
  }

  /** Queue l is linked, and its members say that they are in it. */
  ghost predicate ListOk(qt: seq<QEntry>, q: seq<nat>, l: nat) {
    && Linked(qt, Nodes(q, l)) && Distinct(q)
    && forall k :: 0 <= k < |q| ==> q[k] < NPROC <= |qt| && qt[q[k]].queue == l
  }

  /** Every link leads into the table, those of entries in no queue included. */
  ghost predicate InTable(qt: seq<QEntry>) {
    && |qt| == NPROC + 2 * NUM_QUEUES
    && forall i :: 0 <= i < |qt| ==> qt[i].prev < |qt| && qt[i].next < |qt|
  }

  /** The table stands for the three queues. */
  ghost predicate Rep(qt: seq<QEntry>, qs: Queues) {
    && InTable(qt)
    && (forall l {:trigger ListOk(qt, qs[l], l)} :: 0 <= l < NUM_QUEUES ==> ListOk(qt, qs[l], l))
    && (forall p :: 0 <= p < NPROC ==> qt[p].queue == EMPTY || (qt[p].queue < NUM_QUEUES && p in qs[qt[p].queue]))
  }

  ghost predicate Queued(qs: Queues, p: nat) {
    p in qs[0] || p in qs[1] || p in qs[2]
  }

  /** A process is in the queue that its entry names, and in no other. */
  lemma QueuedWhere(qt: seq<QEntry>, qs: Queues, p: nat)
    requires Rep(qt, qs) && p < NPROC
    ensures Queued(qs, p) <==> qt[p].queue != EMPTY
    ensures forall l :: 0 <= l < NUM_QUEUES ==> (p in qs[l] <==> qt[p].queue == l)
  {
    forall l | 0 <= l < NUM_QUEUES
      ensures p in qs[l] <==> qt[p].queue == l
    {
      assert ListOk(qt, qs[l], l);
    }
  }

  /** The entry at position k of the list of queue l belongs to queue l alone. */
  lemma NodeOf(qt: seq<QEntry>, q: seq<nat>, l: nat, k: nat)
    requires ListOk(qt, q, l) && l < NUM_QUEUES && k < |q| + 2 && |qt| == NPROC + 2 * NUM_QUEUES
    ensures var x := Nodes(q, l)[k]; x < |qt| && (if x < NPROC then qt[x].queue == l && 0 < k <= |q| else x == Head(l) || x == Tail(l))
  {
    if 0 < k <= |q| {
      assert Nodes(q, l)[k] == q[k - 1];
    }
  }

  lemma NodesDistinct(qt: seq<QEntry>, q: seq<nat>, l: nat, i: nat, j: nat)
    requires ListOk(qt, q, l) && i < j < |q| + 2
    ensures Nodes(q, l)[i] != Nodes(q, l)[j]
  {
    var n := Nodes(q, l);
    assert 0 < i <= |q| ==> n[i] == q[i - 1];
    assert 0 < j <= |q| ==> n[j] == q[j - 1];
  }

  /** A list whose entries keep their links and their queue is still a list. */
  lemma ListFrame(qt: seq<QEntry>, qt': seq<QEntry>, q: seq<nat>, l: nat)
    requires ListOk(qt, q, l) && l < NUM_QUEUES && |qt'| == |qt| == NPROC + 2 * NUM_QUEUES
    requires forall x :: 0 <= x < NPROC && qt[x].queue == l ==> qt'[x] == qt[x]
    requires qt'[Head(l)] == qt[Head(l)] && qt'[Tail(l)] == qt[Tail(l)]
    ensures ListOk(qt', q, l)
  {
    var n := Nodes(q, l);
    forall k | 0 <= k < |n| - 1
      ensures Follows(qt', n, k)
    {
      NodeOf(qt, q, l, k);
      NodeOf(qt, q, l, k + 1);
      assert Follows(qt, n, k);
    }
  }

  // ---------------------------------------------------------------- set-up

  /** What setupQueue makes of a table. */
  function SetUp(qt: seq<QEntry>): (qt': seq<QEntry>)
    requires |qt| == NPROC + 2 * NUM_QUEUES
    ensures |qt'| == |qt|
  {
    seq(|qt|, i requires 0 <= i < |qt| =>
      if i < NPROC then qt[i].(queue := EMPTY)
      else
        var l := (i - NPROC) / 2;
        if (i - NPROC) % 2 == 0 then qt[i].(queue := l, next := Tail(l)) else qt[i].(queue := l, prev := Head(l)))
  }

  lemma SetupRep(qt: seq<QEntry>)
    requires InTable(qt) && forall p :: 0 <= p < NPROC ==> qt[p].queue == EMPTY
    requires forall l :: 0 <= l < NUM_QUEUES ==> Joined(qt, Head(l), Tail(l))
    ensures Rep(qt, [[], [], []])
  {
    forall l | 0 <= l < NUM_QUEUES
      ensures ListOk(qt, [], l)
    {
      assert Nodes([], l) == [Head(l), Tail(l)] && Joined(qt, Head(l), Tail(l));
    }
  }

  // ---------------------------------------------------------------- appending

  /** The four writes with which enqueue links p in front of the tail of queue l. */
  function Appended(qt: seq<QEntry>, l: nat, p: nat): (qt': seq<QEntry>)
    requires |qt| == NPROC + 2 * NUM_QUEUES && l < NUM_QUEUES && p < NPROC && qt[Tail(l)].prev < |qt|
    ensures |qt'| == |qt|
  {
    var oldTail := qt[Tail(l)].prev;
    var q1 := qt[p := QEntry(l, oldTail, Tail(l))];
    var q2 := q1[oldTail := q1[oldTail].(next := p)];
    q2[Tail(l) := q2[Tail(l)].(prev := p)]
  }

  lemma LastNode(qt: seq<QEntry>, qs: Queues, l: nat)
    requires Rep(qt, qs) && l < NUM_QUEUES
    ensures qt[Tail(l)].prev == Nodes(qs[l], l)[|qs[l]|] < |qt|
    ensures qt[Tail(l)].prev < NPROC ==> qt[qt[Tail(l)].prev].queue == l
    ensures qt[Tail(l)].prev >= NPROC ==> qt[Tail(l)].prev == Head(l)
  {
    assert ListOk(qt, qs[l], l);
    var n := Nodes(qs[l], l);
    assert Follows(qt, n, |qs[l]|);
    NodeOf(qt, qs[l], l, |qs[l]|);
    NodesDistinct(qt, qs[l], l, |qs[l]|, |qs[l]| + 1);
  }

  lemma AppendList(qt: seq<QEntry>, qs: Queues, l: nat, p: nat)
    requires Rep(qt, qs) && l < NUM_QUEUES && p < NPROC && qt[p].queue == EMPTY && qt[Tail(l)].prev < |qt|
    ensures ListOk(Appended(qt, l, p), qs[l] + [p], l)
  {
    LastNode(qt, qs, l);
    assert ListOk(qt, qs[l], l);
    var q, q', qt' := qs[l], qs[l] + [p], Appended(qt, l, p);
    var n, n' := Nodes(q, l), Nodes(q', l);
    assert n' == n[..|q| + 1] + [p, Tail(l)];
    forall k | 0 <= k < |n'| - 1
      ensures Follows(qt', n', k)
    {
      if k < |q| {
        NodeOf(qt, q, l, k);
        NodeOf(qt, q, l, k + 1);
        NodesDistinct(qt, q, l, k, |q|);
        assert Follows(qt, n, k);
        NodesDistinct(qt, q, l, k + 1, |q| + 1);
        NodesDistinct(qt, q, l, k, |q| + 1);
      }
    }
  }

  lemma AppendRep(qt: seq<QEntry>, qs: Queues, l: nat, p: nat)
    requires Rep(qt, qs) && l < NUM_QUEUES && p < NPROC && qt[p].queue == EMPTY && qt[Tail(l)].prev < |qt|
    ensures Rep(Appended(qt, l, p), qs[l := qs[l] + [p]])
  {
    LastNode(qt, qs, l);
    var qt', qs' := Appended(qt, l, p), qs[l := qs[l] + [p]];
    forall m | 0 <= m < NUM_QUEUES
      ensures ListOk(qt', qs'[m], m)
    {
      if m == l {
        AppendList(qt, qs, l, p);
      } else {
        assert ListOk(qt, qs[m], m);
        ListFrame(qt, qt', qs[m], m);
      }
    }
  }

  // ---------------------------------------------------------------- removing

  /** removeFromQueue's writes. */
  function Unlinked(qt: seq<QEntry>, p: nat): (qt': seq<QEntry>)
    requires |qt| == NPROC + 2 * NUM_QUEUES && p < NPROC && qt[p].prev < |qt| && qt[p].next < |qt|
    ensures |qt'| == |qt|
  {
    var q1 := qt[p := qt[p].(queue := EMPTY)];
    var q2 := q1[qt[p].prev := q1[qt[p].prev].(next := qt[p].next)];
    q2[qt[p].next := q2[qt[p].next].(prev := qt[p].prev)]
  }

  ghost function Without(q: seq<nat>, k: nat): (r: seq<nat>)
    requires k < |q|
  {
    q[..k] + q[k + 1..]
  }

  /** The neighbours of the member at position k. */
  lemma Neighbours(qt: seq<QEntry>, q: seq<nat>, l: nat, k: nat)
    requires ListOk(qt, q, l) && l < NUM_QUEUES && k < |q| && |qt| == NPROC + 2 * NUM_QUEUES
    ensures Nodes(q, l)[k + 1] == q[k]
    ensures q[k] < NPROC && qt[q[k]].prev == Nodes(q, l)[k] < |qt| && qt[q[k]].next == Nodes(q, l)[k + 2] < |qt|
    ensures qt[q[k]].prev != q[k] && qt[q[k]].next != q[k] && qt[q[k]].prev != qt[q[k]].next
  {
    var n := Nodes(q, l);
    assert n[k + 1] == q[k];
    assert Follows(qt, n, k) && Follows(qt, n, k + 1);
    NodesDistinct(qt, q, l, k, k + 1);
    NodesDistinct(qt, q, l, k + 1, k + 2);
    NodesDistinct(qt, q, l, k, k + 2);
  }

  lemma JoinedAt(qt: seq<QEntry>, q: seq<nat>, l: nat, k: nat)
    requires ListOk(qt, q, l) && k < |q| + 1
    ensures Joined(qt, Nodes(q, l)[k], Nodes(q, l)[k + 1])
  {
    assert Follows(qt, Nodes(q, l), k);
  }

  lemma RemoveList(qt: seq<QEntry>, q: seq<nat>, l: nat, k: nat)
    requires ListOk(qt, q, l) && l < NUM_QUEUES && k < |q| && |qt| == NPROC + 2 * NUM_QUEUES
    requires q[k] < NPROC && qt[q[k]].prev < |qt| && qt[q[k]].next < |qt|
    ensures ListOk(Unlinked(qt, q[k]), Without(q, k), l)
  {
    Neighbours(qt, q, l, k);
    var q', qt' := Without(q, k), Unlinked(qt, q[k]);
    var n, n' := Nodes(q, l), Nodes(q', l);
    assert n' == n[..k + 1] + n[k + 2..];
    forall i | 0 <= i < |n'| - 1
      ensures Follows(qt', n', i)
    {
      var a := if i <= k then i else i + 1;
      if i != k {
        assert Follows(qt, n, a);
        RemoveKeeps(qt, q, l, k, a);
      }
    }
  }

  /** Links other than those of the removed member stay. */
  lemma RemoveKeeps(qt: seq<QEntry>, q: seq<nat>, l: nat, k: nat, a: nat)
    requires ListOk(qt, q, l) && l < NUM_QUEUES && k < |q| && |qt| == NPROC + 2 * NUM_QUEUES && a < |q| + 1 && a != k && a != k + 1
    requires q[k] < NPROC && qt[q[k]].prev < |qt| && qt[q[k]].next < |qt|
    ensures Joined(Unlinked(qt, q[k]), Nodes(q, l)[a], Nodes(q, l)[a + 1])
  {
    hide ListOk, Nodes;
    var n := Nodes(q, l);
    Neighbours(qt, q, l, k);
    JoinedAt(qt, q, l, a);
    forall b | (b == a || b == a + 1) && b != k + 1
      ensures n[b] != q[k]
    {
      if b < k + 1 { NodesDistinct(qt, q, l, b, k + 1); } else { NodesDistinct(qt, q, l, k + 1, b); }
    }
    if a < k { NodesDistinct(qt, q, l, a, k); } else { NodesDistinct(qt, q, l, k, a); }
    if a + 1 < k + 2 { NodesDistinct(qt, q, l, a + 1, k + 2); } else { NodesDistinct(qt, q, l, k + 2, a + 1); }
  }

  lemma RemoveRep(qt: seq<QEntry>, qs: Queues, l: nat, k: nat)
    requires Rep(qt, qs) && l < NUM_QUEUES && k < |qs[l]|
    ensures qs[l][k] < NPROC && qt[qs[l][k]].prev < |qt| && qt[qs[l][k]].next < |qt|
    ensures Rep(Unlinked(qt, qs[l][k]), qs[l := Without(qs[l], k)])
  {
    assert ListOk(qt, qs[l], l);
    Neighbours(qt, qs[l], l, k);
    var p := qs[l][k];
    var qt', qs' := Unlinked(qt, p), qs[l := Without(qs[l], k)];
    NodeOf(qt, qs[l], l, k);
    NodeOf(qt, qs[l], l, k + 2);
    forall m | 0 <= m < NUM_QUEUES
      ensures ListOk(qt', qs'[m], m)
    {
      if m == l {
        RemoveList(qt, qs[l], l, k);
      } else {
        assert ListOk(qt, qs[m], m);
        ListFrame(qt, qt', qs[m], m);
      }
    }
    forall x | 0 <= x < NPROC && qt'[x].queue != EMPTY
      ensures qt'[x].queue < NUM_QUEUES && x in qs'[qt'[x].queue]
    {
      assert qt'[x].queue == qt[x].queue;
      if qt[x].queue == l {
        var i :| 0 <= i < |qs[l]| && qs[l][i] == x;
        assert Without(qs[l], k)[if i < k then i else i - 1] == x;
      }
    }
  }
}
