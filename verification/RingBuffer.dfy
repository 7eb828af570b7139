/** The circular buffer between two stages of the journal. */
module RingBuffer {

  const BUFFER_SIZE := 8

  datatype Ring = Ring(buffer: seq<nat>, head: nat, tail: nat, size: int)

  ghost predicate Ok(r: Ring) {
    && |r.buffer| == BUFFER_SIZE && r.head < BUFFER_SIZE && r.tail < BUFFER_SIZE && 0 <= r.size <= BUFFER_SIZE
    && r.head == Past(r.tail, r.size)
  }

  /** The index k places after i. */
  function Past(i: nat, k: nat): (j: nat) {
    if i + k < BUFFER_SIZE then i + k else i + k - BUFFER_SIZE
  }

  /** The requests in the buffer, oldest first. */
  ghost function Items(r: Ring): (q: seq<nat>)
    requires Ok(r)
    ensures |q| == r.size
  {
    seq(r.size, k requires 0 <= k < r.size => r.buffer[Past(r.tail, k)])
  }

  /** enqueue */
  function Put(r: Ring, w: nat): (r': Ring)
    requires |r.buffer| == BUFFER_SIZE && r.head < BUFFER_SIZE
  {
    var next := if r.head + 1 >= BUFFER_SIZE then 0 else r.head + 1;
    Ring(r.buffer[r.head := w], next, r.tail, r.size + 1)
  }

  /** What dequeue returns, and what it leaves. */
  function First(r: Ring): (w: nat)
    requires |r.buffer| == BUFFER_SIZE && r.tail < BUFFER_SIZE
  {
    r.buffer[r.tail]
  }

  function Get(r: Ring): (r': Ring) {
    var next := if r.tail + 1 >= BUFFER_SIZE then 0 else r.tail + 1;
    Ring(r.buffer, r.head, next, r.size - 1)
  }

  /** With room left, enqueue appends. */
  lemma PutAppends(r: Ring, w: nat)
    requires Ok(r) && r.size < BUFFER_SIZE
    ensures Ok(Put(r, w)) && Items(Put(r, w)) == Items(r) + [w]
  {
  }

  /** If not empty, dequeue takes the oldest. */
  lemma GetTakes(r: Ring)
    requires Ok(r) && r.size > 0
    ensures Ok(Get(r)) && Items(r) == [First(r)] + Items(Get(r))
  {
    assert Items(r)[0] == First(r);
  }

  /** Neither call checks: a full buffer loses its oldest request, an empty one gets a negative size. */
  lemma Unchecked(r: Ring, w: nat)
    requires Ok(r)
    ensures r.size == BUFFER_SIZE ==> First(Put(r, w)) == w && !Ok(Put(r, w))
    ensures r.size == 0 ==> !Ok(Get(r))
  {
  }

  class CircBuffer {
    var buffer: array<nat>
    var head: nat
    var tail: nat
    var size: int

    ghost function Value(): (r: Ring)
      reads this, buffer
    {
      Ring(buffer[..], head, tail, size)
    }

    constructor ()
      ensures fresh(buffer) && Ok(Value()) && Items(Value()) == []
    {
      buffer := new nat[BUFFER_SIZE];
      head, tail, size := 0, 0, 0;
    }

    method Enqueue(w: nat)
      requires buffer.Length == BUFFER_SIZE && head < BUFFER_SIZE
      modifies this`head, this`size, buffer
      ensures Value() == Put(old(Value()), w)
      ensures old(Ok(Value())) && old(size) < BUFFER_SIZE ==> Ok(Value()) && Items(Value()) == old(Items(Value())) + [w]
    {
      if Ok(Value()) && size < BUFFER_SIZE {
        PutAppends(Value(), w);
      }
      var nextHead := head + 1;
      if nextHead >= BUFFER_SIZE {
        nextHead := 0;
      }
      buffer[head] := w;
      head := nextHead;
      size := size + 1;
    }

    method Dequeue() returns (w: nat)
      requires buffer.Length == BUFFER_SIZE && tail < BUFFER_SIZE
      modifies this`tail, this`size
      ensures Value() == Get(old(Value())) && w == First(old(Value()))
      ensures old(Ok(Value())) && old(size) > 0 ==> Ok(Value()) && old(Items(Value())) == [w] + Items(Value())
    {
      if Ok(Value()) && size > 0 {
        GetTakes(Value());
      }
      var nextTail := tail + 1;
      if nextTail >= BUFFER_SIZE {
        nextTail := 0;
      }
      w := buffer[tail];
      tail := nextTail;
      size := size - 1;
    }
  }
}
