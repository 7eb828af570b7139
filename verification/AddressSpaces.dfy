/**
  Processes over one physical memory.  Address spaces are created, forked, grown, shrunk,
  written and freed in any interleaving.  Seen from the processes, each has a private
  memory; seen from the allocator, everything that no process owns stays as it was.
 */
module AddressSpaces {
  import opened Collections
  import opened Sv39
  import opened VmSpec
  import opened Vm

  type Int = n: int | -0x8000_0000 <= n < 0x8000_0000

  datatype Op =
    | Spawn(pid: nat)                            // an empty address space
    | Fork(pid: nat, child: nat)
    | Grow(pid: nat, n: Int)                     // sbrk
    | Store(pid: nat, vpn: nat, content: Page)   // one page of copyout
    | Exit(pid: nat)

  datatype Outcome = Done | Refused | Panic

  datatype Proc = Proc(root: nat, sz: nat)

  type Procs = map<nat, Proc>

  /** A memory of its own: the size in bytes and the pages. */
  datatype Private = Private(sz: nat, image: seq<Want>)

  type Memories = map<nat, Private>

  // ---------------------------------------------------------------- private memories

  /** What the operation does to private memories, when memory suffices. */
  ghost function After(op: Op, a: Memories): (a': Memories) {
    match op
    case Spawn(pid) => if pid in a then a else a[pid := Private(0, [])]
    case Fork(pid, child) => if pid in a && child !in a then a[child := a[pid]] else a
    case Grow(pid, n) =>
      if pid !in a then a
      else
        var sz := if 0 <= a[pid].sz + n then a[pid].sz + n else a[pid].sz;
        a[pid := Private(sz, Fitted(a[pid].image, PagesUp(sz)))]
    case Store(pid, vpn, content) => if pid in a then a[pid := Stored(a[pid], vpn, content)] else a
    case Exit(pid) => a - {pid}
  }

  /** The operation concerns the memory of q; a fork does not concern the parent's. */
  predicate Changes(op: Op, q: nat) {
    if op.Fork? then op.child == q else op.pid == q
  }

  /** A page that the user may not access is not written. */
  ghost function Stored(p: Private, vpn: nat, content: Page): (p': Private) {
    if vpn < |p.image| && p.image[vpn].flags.u then p.(image := p.image[vpn := p.image[vpn].(content := content)]) else p
  }

  /** The pages that the operation may need, page tables included. */
  ghost function Need(op: Op, a: Memories): (n: nat) {
    match op
    case Spawn(pid) => 1
    case Fork(pid, child) => if pid in a then 1 + 3 * |a[pid].image| else 0
    case Grow(pid, n) => if pid in a && n > 0 then 3 * Added(a[pid].sz, n) else 0
    case _ => 0
  }

  function Added(sz: nat, n: nat): (pages: nat) {
    PagesUpMonotone(sz, sz + n);
    PagesUp(sz + n) - PagesUp(sz)
  }

  /** The operations of a run, those that were refused left out. */
  ghost function Replay(ops: seq<Op>, out: seq<Outcome>, a: Memories): (a': Memories)
    requires |out| <= |ops|
  {
    if out == [] then a
    else
      var k := |out| - 1;
      var before := Replay(ops, out[..k], a);
      if out[k].Done? then After(ops[k], before) else before
  }

  /** The user can read and write the page, and not execute it. */
  ghost predicate HeapPage(w: Want) {
    w.flags.v && w.flags.r && w.flags.w && w.flags.u && !w.flags.x
  }

  /** sbrk keeps what stays below the new size; what is new is zero, and the user's to read and write. */
  lemma GrowEffect(a: Memories, pid: nat, n: Int, v: nat)
    requires pid in a && |a[pid].image| == PagesUp(a[pid].sz)
    ensures var b := After(Grow(pid, n), a);
            && b.Keys == a.Keys && (forall q :: q in a && q != pid ==> b[q] == a[q])
            && b[pid].sz == (if a[pid].sz + n >= 0 then a[pid].sz + n else a[pid].sz) && |b[pid].image| == PagesUp(b[pid].sz)
            && (v < |b[pid].image| && v < |a[pid].image| ==> b[pid].image[v] == a[pid].image[v])
            && (|a[pid].image| <= v < |b[pid].image| ==> HeapPage(b[pid].image[v]) && b[pid].image[v].content == ZeroPage())
  {
  }

  /** A store to a page that the user can access is read back, and changes no other page and no other process. */
  lemma StoreEffect(a: Memories, pid: nat, vpn: nat, content: Page, v: nat)
    requires pid in a && vpn < |a[pid].image| && a[pid].image[vpn].flags.u
    ensures var b := After(Store(pid, vpn, content), a);
            && b.Keys == a.Keys && (forall q :: q in a && q != pid ==> b[q] == a[q])
            && b[pid].sz == a[pid].sz && |b[pid].image| == |a[pid].image| && b[pid].image[vpn] == Want(a[pid].image[vpn].flags, content)
            && (v < |a[pid].image| && v != vpn ==> b[pid].image[v] == a[pid].image[v])
  {
  }

  /** A child starts as its parent is, and a later store of either is not seen by the other. */
  lemma ForkEffect(a: Memories, pid: nat, child: nat, vpn: nat, content: Page)
    requires pid in a && child !in a
    ensures var b := After(Fork(pid, child), a);
            && b.Keys == a.Keys + {child} && b[child] == a[pid] && (forall q :: q in a ==> b[q] == a[q])
            && After(Store(pid, vpn, content), b)[child] == a[pid] && After(Store(child, vpn, content), b)[pid] == a[pid]
  {
  }

  // ---------------------------------------------------------------- in physical memory

  ghost predicate Spaces(s: Machine, procs: Procs) {
    && (forall p :: p in procs ==> Space(s, procs[p].root, procs[p].sz))
    && (forall p, q :: p in procs && q in procs && procs[p].root == procs[q].root ==> p == q)
  }

  ghost function Seen(s: Machine, c: Proc): (p: Private) {
    Private(c.sz, CopyOf(s, c.root, PagesUp(c.sz)))
  }

  ghost function SeenBy(s: Machine, procs: Procs): (a: Memories) {
    map p | p in procs :: Seen(s, procs[p])
  }

  ghost function Roots(procs: Procs): (roots: set<nat>) {
    set p | p in procs :: procs[p].root
  }

  predicate Mine(u: Use, r: nat) {
    u.User? && u.root == r
  }

  /** What belongs to one address space. */
  datatype Part = Part(flat: Flat, placed: map<nat, Use>, data: map<nat, Page>, rooted: bool)

  ghost function PartOf(s: Snapshot, r: nat): (o: Part) {
    Part(map a | a in s.flat && a.root == r :: s.flat[a],
         map p | p in s.placed && Mine(s.placed[p], r) :: s.placed[p],
         map p | p in s.placed && p in s.m.pages && Mine(s.placed[p], r) :: s.m.pages[p],
         Top(r) in s.m.tables)
  }

  /** What belongs to none of the given address spaces. */
  datatype Remainder = Remainder(flat: Flat, placed: map<nat, Use>, data: map<nat, Page>, key: map<nat, Key>, pages: set<nat>)

  predicate Theirs(u: Use, roots: set<nat>) {
    u.User? && u.root in roots
  }

  ghost function Beside(s: Snapshot, roots: set<nat>): (o: Remainder) {
    Remainder(map a | a in s.flat && a.root !in roots :: s.flat[a],
              map p | p in s.placed && !Theirs(s.placed[p], roots) :: s.placed[p],
              map p | p in s.placed && p in s.m.pages && !Theirs(s.placed[p], roots) :: s.m.pages[p],
              map p | p in s.m.key && s.m.key[p].root !in roots :: s.m.key[p],
              s.m.pages.Keys)
  }

  // ---------------------------------------------------------------- one address space

  lemma PartDecides(s: Machine, s': Machine, c: Proc)
    requires PartOf(s', c.root) == PartOf(s, c.root) && Space(s, c.root, c.sz)
    ensures Space(s', c.root, c.sz) && Seen(s', c) == Seen(s, c)
  {
    hide Sound, PartOf, CopyOf, Owned;
    forall v: nat
      ensures At(s'.flat, c.root, v) == At(s.flat, c.root, v)
      ensures Owned(s, c.root, v) ==> Owned(s', c.root, v) && CopyAt(s', c.root, v) == CopyAt(s, c.root, v)
    {
      PartPage(s, s', c.root, v);
    }
    assert Top(c.root) in s'.m.tables by {
      PartRooted(s, s', c.root);
    }
    forall v: nat | v < PagesUp(c.sz)
      ensures CopyOf(s', c.root, PagesUp(c.sz))[v] == CopyOf(s, c.root, PagesUp(c.sz))[v]
    {
      assert Owned(s, c.root, v);
    }
  }

  lemma PartRooted(s: Machine, s': Machine, r: nat)
    requires PartOf(s', r) == PartOf(s, r)
    ensures Top(r) in s.m.tables <==> Top(r) in s'.m.tables
  {
  }

  lemma PartPage(s: Machine, s': Machine, r: nat, v: nat)
    requires PartOf(s', r) == PartOf(s, r)
    ensures At(s'.flat, r, v) == At(s.flat, r, v)
    ensures Owned(s, r, v) ==> Owned(s', r, v) && CopyAt(s', r, v) == CopyAt(s, r, v)
  {
    hide Represents, UsersMapped, Proper;
    assert Place(r, v) in PartOf(s, r).flat <==> Place(r, v) in s.flat;
    assert Place(r, v) in PartOf(s', r).flat <==> Place(r, v) in s'.flat;
    if Owned(s, r, v) {
      var p := At(s.flat, r, v).ppn;
      assert p in PartOf(s, r).placed && p in PartOf(s, r).data;
      assert p in PartOf(s', r).placed && p in PartOf(s', r).data;
    }
  }

  ghost function PartOfRest(o: Rest, r: nat): (p: Part) {
    Part(map a | a in o.flat && a.root == r :: o.flat[a],
         map p | p in o.placed && Mine(o.placed[p], r) :: o.placed[p],
         map p | p in o.placed && p in o.data && Mine(o.placed[p], r) :: o.data[p],
         r in o.others && o.others[r] == Top(r))
  }

  lemma PartOutside(s: Machine, root: nat, r: nat)
    requires r != root
    ensures PartOf(s, r) == PartOfRest(Outside(s, root, 0, MAXVPN), r)
  {
    hide Refines, EntriesOk, UsersMapped, Proper, Accounted;
    var o := Outside(s, root, 0, MAXVPN);
    assert PartOf(s, r).flat == PartOfRest(o, r).flat;
    assert PartOf(s, r).placed == PartOfRest(o, r).placed;
    assert PartOf(s, r).data == PartOfRest(o, r).data;
    RootedKey(s, r);
  }

  lemma RootedKey(s: Machine, r: nat)
    ensures Top(r) in s.m.tables <==> r in s.m.key && s.m.key[r] == Top(r)
  {
    hide Refines, EntriesOk, UsersMapped, Proper, Accounted;
  }

  /** uvmcreate, uvmfree and changes in one address space leave the parts of the others alone. */
  lemma PartKept(s: Machine, s': Machine, root: nat, r: nat)
    requires r != root
    requires Outside(s', root, 0, MAXVPN) == Outside(s, root, 0, MAXVPN) || Gone(s, s', root) || Created(s, s', root)
    ensures PartOf(s', r) == PartOf(s, r)
  {
    hide Sound, Outside, PartOf, Gone, Created;
    if Outside(s', root, 0, MAXVPN) == Outside(s, root, 0, MAXVPN) {
      PartOutside(s, root, r);
      PartOutside(s', root, r);
    } else if Gone(s, s', root) {
      PartGone(s, s', root, r);
    } else {
      PartCreated(s, s', root, r);
    }
  }

  /** uvmcreate has made the root. */
  ghost predicate Created(s: Machine, s': Machine, root: nat) {
    && Top(root) !in s.m.tables && Top(root) in s'.m.tables && EmptyRange(s'.flat, root, 0, MAXVPN)
    && s'.flat == s.flat && s'.placed == s.placed && Data(s') == Data(s)
    && OtherKeys(s', root) == s.m.key && s'.m.pages.Keys == s.m.pages.Keys
  }

  lemma PartGone(s: Machine, s': Machine, root: nat, r: nat)
    requires r != root && Gone(s, s', root)
    ensures PartOf(s', r) == PartOf(s, r)
  {
    hide Sound;
    RootedKey(s, r);
    RootedKey(s', r);
    assert PartOf(s', r).flat == PartOf(s, r).flat;
    assert PartOf(s', r).placed == PartOf(s, r).placed;
    assert PartOf(s', r).data == map p | p in s'.placed && p in Data(s') && Mine(s'.placed[p], r) :: Data(s')[p];
    assert PartOf(s, r).data == PartOf(s', r).data;
  }

  lemma PartCreated(s: Machine, s': Machine, root: nat, r: nat)
    requires r != root && Created(s, s', root)
    ensures PartOf(s', r) == PartOf(s, r)
  {
    hide Sound;
    RootedKey(s, r);
    RootedKey(s', r);
    assert r in OtherKeys(s', root) <==> r in s'.m.key && s'.m.key[r].root != root;
    assert PartOf(s', r).data == map p | p in s'.placed && p in Data(s') && Mine(s'.placed[p], r) :: Data(s')[p];
    assert PartOf(s, r).data == map p | p in s.placed && p in Data(s) && Mine(s.placed[p], r) :: Data(s)[p];
  }

  // ---------------------------------------------------------------- everything else

  ghost function BesideRest(o: Rest, roots: set<nat>): (r: Remainder) {
    Remainder(map a | a in o.flat && a.root !in roots :: o.flat[a],
              map p | p in o.placed && !Theirs(o.placed[p], roots) :: o.placed[p],
              map p | p in o.placed && p in o.data && !Theirs(o.placed[p], roots) :: o.data[p],
              map p | p in o.others && o.others[p].root !in roots :: o.others[p],
              o.pages)
  }

  lemma BesideOutside(s: Machine, root: nat, roots: set<nat>)
    requires root in roots
    ensures Beside(s, roots) == BesideRest(Outside(s, root, 0, MAXVPN), roots)
  {
    hide Sound;
    var o := Outside(s, root, 0, MAXVPN);
    assert Beside(s, roots).flat == BesideRest(o, roots).flat;
    assert Beside(s, roots).placed == BesideRest(o, roots).placed;
    assert Beside(s, roots).data == BesideRest(o, roots).data;
    assert Beside(s, roots).key == BesideRest(o, roots).key;
  }

  lemma BesideKept(s: Machine, s': Machine, root: nat, roots: set<nat>)
    requires root in roots && Outside(s', root, 0, MAXVPN) == Outside(s, root, 0, MAXVPN)
    ensures Beside(s', roots) == Beside(s, roots)
  {
    hide Sound, Outside, Beside;
    BesideOutside(s, root, roots);
    BesideOutside(s', root, roots);
  }

  /** Nothing belongs to root. */
  ghost predicate NoneOf(s: Machine, root: nat) {
    && (forall a :: a in s.flat ==> a.root != root)
    && (forall p :: p in s.placed ==> !Mine(s.placed[p], root))
    && (forall p :: p in s.m.key ==> s.m.key[p].root != root)
  }

  lemma BesideNoneOf(s: Machine, root: nat, roots: set<nat>)
    requires NoneOf(s, root)
    ensures Beside(s, roots + {root}) == Beside(s, roots)
  {
    hide Sound;
    var b, b' := Beside(s, roots), Beside(s, roots + {root});
    assert forall p :: p in s.placed ==> (Theirs(s.placed[p], roots + {root}) <==> Theirs(s.placed[p], roots));
    assert b'.flat == b.flat;
    assert b'.placed == b.placed;
    assert b'.data == b.data;
    assert b'.key == b.key;
  }

  /** No page is placed in an address space without translations. */
  lemma UnplacedWithout(s: Machine, root: nat)
    requires forall a :: a in s.flat ==> a.root != root
    ensures forall p :: p in s.placed ==> !Mine(s.placed[p], root)
  {
    hide Represents, Accounted, Proper;
  }

  lemma GoneNone(s: Machine, s': Machine, root: nat)
    requires Gone(s, s', root)
    ensures NoneOf(s', root)
  {
    hide Sound;
    UnplacedWithout(s', root);
  }

  lemma BesideData(s: Machine, roots: set<nat>)
    ensures Beside(s, roots).data == map p | p in s.placed && p in Data(s) && !Theirs(s.placed[p], roots) :: Data(s)[p]
  {
    hide Sound;
  }

  lemma BesideGone(s: Machine, s': Machine, root: nat, roots: set<nat>)
    requires root in roots && Gone(s, s', root)
    ensures Beside(s', roots - {root}) == Beside(s, roots)
  {
    hide Sound, NoneOf, Beside;
    GoneNone(s, s', root);
    BesideNoneOf(s', root, roots - {root});
    assert roots - {root} + {root} == roots;
    BesideGoneSame(s, s', root, roots);
  }

  lemma BesideGoneSame(s: Machine, s': Machine, root: nat, roots: set<nat>)
    requires root in roots && Gone(s, s', root)
    ensures Beside(s', roots) == Beside(s, roots)
  {
    hide Sound;
    var b, b' := Beside(s, roots), Beside(s', roots);
    BesideData(s', roots);
    assert b'.flat == b.flat;
    assert b'.placed == b.placed;
    assert b'.data == b.data;
    assert b'.key == b.key;
  }

  lemma CreatedNone(s: Machine, s': Machine, root: nat)
    requires Created(s, s', root)
    ensures NoneOf(s, root)
  {
    hide Sound;
    AllWithout(s', root);
    assert forall a :: a in FlatWithout(s.flat, root) ==> a.root != root;
    UnplacedWithout(s, root);
    assert forall p :: p in OtherKeys(s', root) ==> OtherKeys(s', root)[p].root != root;
  }

  lemma BesideCreated(s: Machine, s': Machine, root: nat, roots: set<nat>)
    requires Created(s, s', root) && root !in roots
    ensures Beside(s', roots + {root}) == Beside(s, roots)
  {
    hide Sound, NoneOf, Beside;
    CreatedNone(s, s', root);
    BesideNoneOf(s, root, roots);
    BesideCreatedSame(s, s', root, roots + {root});
  }

  lemma BesideCreatedSame(s: Machine, s': Machine, root: nat, roots: set<nat>)
    requires Created(s, s', root) && root in roots
    ensures Beside(s', roots) == Beside(s, roots)
  {
    hide Sound;
    BesideData(s, roots);
    BesideData(s', roots);
    assert Beside(s', roots).key == map p | p in OtherKeys(s', root) && OtherKeys(s', root)[p].root !in roots :: OtherKeys(s', root)[p];
    assert Beside(s', roots).key == Beside(s, roots).key;
  }

  /** When no process is left, nothing is different from before the first one. */
  lemma BesideNone(s: Machine, s': Machine)
    requires Beside(s', {}) == Beside(s, {})
    ensures Same(s, s')
  {
    hide Sound;
    BesideAll(s);
    BesideAll(s');
  }

  lemma BesideAll(s: Snapshot)
    ensures Beside(s, {}) == Remainder(s.flat, s.placed, Data(s), s.m.key, s.m.pages.Keys)
  {
  }

  // ---------------------------------------------------------------- one operation

  /** Every process but pid has kept its part. */
  ghost predicate OthersKept(s: Machine, s': Machine, procs: Procs, pid: nat) {
    forall q :: q in procs && q != pid ==> PartOf(s', procs[q].root) == PartOf(s, procs[q].root)
  }

  lemma OthersSeen(s: Machine, s': Machine, procs: Procs, pid: nat)
    requires Spaces(s, procs) && OthersKept(s, s', procs, pid)
    ensures forall q :: q in procs && q != pid ==> Space(s', procs[q].root, procs[q].sz) && Seen(s', procs[q]) == Seen(s, procs[q])
  {
    hide Sound, PartOf, Space, Seen;
    forall q | q in procs && q != pid
      ensures Space(s', procs[q].root, procs[q].sz) && Seen(s', procs[q]) == Seen(s, procs[q])
    {
      PartDecides(s, s', procs[q]);
    }
  }

  lemma KeptBeside(s: Machine, s': Machine, procs: Procs, pid: nat, root: nat)
    requires Spaces(s, procs) && (forall q :: q in procs && q != pid ==> procs[q].root != root)
    requires Outside(s', root, 0, MAXVPN) == Outside(s, root, 0, MAXVPN) || Gone(s, s', root) || Created(s, s', root)
    ensures OthersKept(s, s', procs, pid)
  {
    hide Sound, PartOf, Space, Outside, Gone, Created;
    forall q | q in procs && q != pid
      ensures PartOf(s', procs[q].root) == PartOf(s, procs[q].root)
    {
      PartKept(s, s', root, procs[q].root);
    }
  }

  /** The processes see the memories a', and what belongs to none of them, the quiet ones left out, is unchanged. */
  ghost predicate Moved(s: Machine, s': Machine, procs: Procs, procs': Procs, a': Memories, quiet: set<nat>) {
    Spaces(s', procs') && Beside(s', Roots(procs' - quiet)) == Beside(s, Roots(procs - quiet)) && SeenBy(s', procs') == a'
  }

  /** Process pid has, or has got, an address space c; the others are as before. */
  lemma MovedOne(s: Machine, s': Machine, procs: Procs, pid: nat, c: Proc, quiet: set<nat>)
    requires Spaces(s, procs) && OthersKept(s, s', procs, pid) && Space(s', c.root, c.sz)
    requires forall q :: q in procs && q != pid ==> procs[q].root != c.root
    requires pid !in quiet && Beside(s', Roots((procs - quiet)[pid := c])) == Beside(s, Roots(procs - quiet))
    ensures Moved(s, s', procs, procs[pid := c], SeenBy(s, procs)[pid := Seen(s', c)], quiet)
  {
    hide Sound, PartOf, Space, Beside, Seen;
    OthersSeen(s, s', procs, pid);
    assert procs[pid := c] - quiet == (procs - quiet)[pid := c];
    assert SeenBy(s', procs[pid := c]) == SeenBy(s, procs)[pid := Seen(s', c)];
  }

  lemma MovedGrow(s: Machine, s': Machine, procs: Procs, pid: nat, sz: nat, quiet: set<nat>)
    requires Spaces(s, procs) && pid in procs && pid !in quiet && Resized(s, s', procs[pid].root, procs[pid].sz, sz)
    ensures Moved(s, s', procs, procs[pid := Proc(procs[pid].root, sz)],
                  SeenBy(s, procs)[pid := Private(sz, Fitted(Seen(s, procs[pid]).image, PagesUp(sz)))], quiet)
  {
    hide Sound, Space, Outside, Beside, Fitted, OthersKept, Moved;
    var root := procs[pid].root;
    KeptBeside(s, s', procs, pid, root);
    assert (procs - quiet)[pid].root in Roots(procs - quiet);
    BesideKept(s, s', root, Roots(procs - quiet));
    SameRoots(procs - quiet, pid, sz);
    MovedOne(s, s', procs, pid, Proc(root, sz), quiet);
  }

  lemma SameRoots(procs: Procs, pid: nat, sz: nat)
    requires pid in procs
    ensures Roots(procs[pid := Proc(procs[pid].root, sz)]) == Roots(procs)
  {
    var procs' := procs[pid := Proc(procs[pid].root, sz)];
    assert forall q :: q in procs ==> q in procs' && procs'[q].root == procs[q].root;
  }

  lemma NewRoots(procs: Procs, pid: nat, c: Proc)
    requires pid !in procs
    ensures Roots(procs[pid := c]) == Roots(procs) + {c.root}
  {
    var procs' := procs[pid := c];
    assert procs'[pid] == c;
    assert forall q :: q in procs ==> q in procs' && procs'[q] == procs[q];
  }

  /** A new root is nobody's. */
  lemma NewRoot(s: Machine, s': Machine, procs: Procs, root: nat, quiet: set<nat>)
    requires Spaces(s, procs) && Created(s, s', root)
    ensures root !in Roots(procs - quiet) && forall q :: q in procs ==> procs[q].root != root
  {
    hide Sound;
  }

  lemma MovedSpawn(s: Machine, s': Machine, procs: Procs, pid: nat, root: nat, quiet: set<nat>)
    requires Spaces(s, procs) && pid !in procs && pid !in quiet && Created(s, s', root)
    ensures Moved(s, s', procs, procs[pid := Proc(root, 0)], SeenBy(s, procs)[pid := Private(0, [])], quiet)
  {
    hide Sound, Space, Beside, OthersKept, Moved, EmptyRange, Roots;
    NewRoot(s, s', procs, root, quiet);
    KeptBeside(s, s', procs, pid, root);
    SpaceNew(s', root);
    BesideCreated(s, s', root, Roots(procs - quiet));
    NewRoots(procs - quiet, pid, Proc(root, 0));
    MovedOne(s, s', procs, pid, Proc(root, 0), quiet);
  }

  lemma MovedFork(s: Machine, s1: Machine, s2: Machine, procs: Procs, pid: nat, child: nat, root: nat, quiet: set<nat>)
    requires Spaces(s, procs) && pid in procs && child !in procs && child !in quiet && Created(s, s1, root)
    requires Space(s2, root, procs[pid].sz) && Outside(s2, root, 0, MAXVPN) == Outside(s1, root, 0, MAXVPN)
    requires CopyOf(s2, root, PagesUp(procs[pid].sz)) == CopyOf(s1, procs[pid].root, PagesUp(procs[pid].sz))
    ensures Moved(s, s2, procs, procs[child := Proc(root, procs[pid].sz)], SeenBy(s, procs)[child := SeenBy(s, procs)[pid]], quiet)
  {
    hide Sound, Space, Beside, Outside, Moved, Roots, Created, PartOf, CopyOf;
    NewRoot(s, s1, procs, root, quiet);
    KeptBeside(s, s1, procs, child, root);
    OthersSeen(s, s1, procs, child);
    KeptBeside(s1, s2, procs, child, root);
    BesideCreated(s, s1, root, Roots(procs - quiet));
    BesideKept(s1, s2, root, Roots(procs - quiet) + {root});
    NewRoots(procs - quiet, child, Proc(root, procs[pid].sz));
    MovedOne(s, s2, procs, child, Proc(root, procs[pid].sz), quiet);
  }

  lemma MovedBack(s: Machine, s1: Machine, s2: Machine, s3: Machine, procs: Procs, pid: nat, root: nat, quiet: set<nat>)
    requires Spaces(s, procs) && pid !in procs && Created(s, s1, root)
    requires Outside(s2, root, 0, MAXVPN) == Outside(s1, root, 0, MAXVPN) && Gone(s2, s3, root)
    ensures Moved(s, s3, procs, procs, SeenBy(s, procs), quiet)
  {
    hide Sound, Space, Beside, Outside, Roots, Created, PartOf, Seen, Gone;
    var roots := Roots(procs - quiet);
    NewRoot(s, s1, procs, root, quiet);
    KeptBeside(s, s1, procs, pid, root);
    OthersSeen(s, s1, procs, pid);
    KeptBeside(s1, s2, procs, pid, root);
    OthersSeen(s1, s2, procs, pid);
    KeptBeside(s2, s3, procs, pid, root);
    OthersSeen(s2, s3, procs, pid);
    BesideCreated(s, s1, root, roots);
    BesideKept(s1, s2, root, roots + {root});
    BesideGone(s2, s3, root, roots + {root});
    assert roots + {root} - {root} == roots;
  }

  lemma MovedExit(s: Machine, s': Machine, procs: Procs, pid: nat, quiet: set<nat>)
    requires Spaces(s, procs) && pid in procs && pid !in quiet && Gone(s, s', procs[pid].root)
    ensures Moved(s, s', procs, procs - {pid}, SeenBy(s, procs) - {pid}, quiet)
  {
    hide Sound, Space, Beside, Roots, PartOf, Seen, Gone;
    var root := procs[pid].root;
    KeptBeside(s, s', procs, pid, root);
    OthersSeen(s, s', procs, pid);
    LessRoots(s, procs - quiet, pid);
    BesideGone(s, s', root, Roots(procs - quiet));
    assert procs - {pid} - quiet == procs - quiet - {pid};
    assert SeenBy(s', procs - {pid}) == SeenBy(s, procs) - {pid};
  }

  lemma LessRoots(s: Machine, procs: Procs, pid: nat)
    requires Spaces(s, procs) && pid in procs
    ensures procs[pid].root in Roots(procs) && Roots(procs - {pid}) == Roots(procs) - {procs[pid].root}
  {
    hide Sound, Space;
    forall q | q in procs && q != pid
      ensures q in procs - {pid} && (procs - {pid})[q] == procs[q]
    {
    }
  }

  method DoSpawn(k: Kernel, pid: nat, procs: Procs, ghost quiet: set<nat>) returns (r: Outcome, procs': Procs)
    requires Spaces(k.mem, procs) && pid !in procs && pid !in quiet
    modifies k
    ensures r.Done? ==> Moved(old(k.mem), k.mem, procs, procs', SeenBy(old(k.mem), procs)[pid := Private(0, [])], quiet)
    ensures !r.Done? ==> r.Refused? && procs' == procs && k.mem == old(k.mem) && old(k.mem).freelist == []
    ensures |old(k.mem.freelist)| <= |k.mem.freelist| + 1
  {
    hide Sound, Spaces, Moved;
    var ok, root := k.Uvmcreate();
    if !ok {
      return Refused, procs;
    }
    MovedSpawn(old(k.mem), k.mem, procs, pid, root, quiet);
    return Done, procs[pid := Proc(root, 0)];
  }

  /** fork's part in memory: a new address space and a copy into it, freed again if the copy fails. */
  method DoFork(k: Kernel, pid: nat, child: nat, procs: Procs, ghost quiet: set<nat>) returns (r: Outcome, procs': Procs)
    requires Spaces(k.mem, procs) && pid in procs && child !in procs && child !in quiet
    modifies k
    ensures r.Done? ==> Moved(old(k.mem), k.mem, procs, procs', SeenBy(old(k.mem), procs)[child := SeenBy(old(k.mem), procs)[pid]], quiet)
    ensures !r.Done? ==> r.Refused? && procs' == procs && Moved(old(k.mem), k.mem, procs, procs, SeenBy(old(k.mem), procs), quiet)
                         && |old(k.mem.freelist)| < 1 + 3 * PagesUp(procs[pid].sz)
    ensures |old(k.mem.freelist)| <= |k.mem.freelist| + 1 + 3 * PagesUp(procs[pid].sz)
  {
    hide Sound, Moved, Outside, Frame, Gone, FilledRange, Data, OtherKeys, Space, EmptyRange, CopyOf;
    var root, sz := procs[pid].root, procs[pid].sz;
    var created, new' := k.Uvmcreate();
    if !created {
      MovedNot(k.mem, procs, quiet);
      return Refused, procs;
    }
    ghost var s1 := k.mem;
    assert Created(old(k.mem), s1, new');
    SpaceParent(old(k.mem), s1, root, sz, new');
    SpaceNew(s1, new');
    var c := k.Uvmcopy(root, new', sz);
    if c.CopyPanicked? {
      ghost var v: nat :| v < PagesUp(sz) && (v >= MAXVPN || !Present(At(s1.flat, root, v)) || Present(At(s1.flat, new', v)));
      CopyFine(old(k.mem), s1, root, new', sz, v);
      assert false;
    }
    if c.Copied? {
      SpaceCopied(old(k.mem), s1, k.mem, root, new', sz);
      ImageCopied(s1, k.mem, root, new', PagesUp(sz));
      MovedFork(old(k.mem), s1, k.mem, procs, pid, child, new', quiet);
      return Done, procs[child := Proc(new', sz)];
    }
    SpaceFramed(s1, k.mem, new', 0);
    ghost var s2 := k.mem;
    SpaceEnds(s2, new', 0);
    var ok := k.Uvmfree(new', 0);
    MovedBack(old(k.mem), s1, s2, k.mem, procs, child, new', quiet);
    return Refused, procs;
  }

  lemma MovedNot(s: Machine, procs: Procs, quiet: set<nat>)
    requires Spaces(s, procs)
    ensures Moved(s, s, procs, procs, SeenBy(s, procs), quiet)
  {
  }

  lemma ImageCopied(s1: Machine, s2: Machine, root: nat, child: nat, n: nat)
    requires FilledRange(s2, child, 0, CopyOf(s1, root, n))
    ensures CopyOf(s2, child, n) == CopyOf(s1, root, n)
  {
    hide Sound, CopyOf;
    var want := CopyOf(s1, root, n);
    forall v: nat | v < n
      ensures CopyOf(s2, child, n)[v] == want[v]
    {
      assert Filled(s2, child, 0 + v, want[v].flags, want[v].content);
    }
  }

  method DoGrow(k: Kernel, pid: nat, n: Int, procs: Procs, ghost quiet: set<nat>) returns (r: Outcome, procs': Procs)
    requires Spaces(k.mem, procs) && pid in procs && pid !in quiet
    modifies k
    ensures r.Done? ==> Moved(old(k.mem), k.mem, procs, procs', After(Grow(pid, n), SeenBy(old(k.mem), procs)), quiet)
    ensures r.Refused? ==> procs' == procs && Moved(old(k.mem), k.mem, procs, procs, SeenBy(old(k.mem), procs), quiet)
                           && n > 0 && |old(k.mem.freelist)| < 3 * Added(procs[pid].sz, n)
    ensures r.Done? ==> |old(k.mem.freelist)| <= |k.mem.freelist| + if n > 0 then 3 * Added(procs[pid].sz, n) else 0
    ensures r.Panic? ==> n > 0 && PagesUp(procs[pid].sz + n) > MAXVPN
  {
    hide Sound, Moved, Resized, Space, Fitted;
    var c := procs[pid];
    var g := k.Growproc(c.root, c.sz, n);
    match g
    case Grown(sz) =>
      MovedGrow(old(k.mem), k.mem, procs, pid, sz, quiet);
      return Done, procs[pid := Proc(c.root, sz)];
    case OutOfMemory =>
      MovedGrow(old(k.mem), k.mem, procs, pid, c.sz, quiet);
      FittedSelf(Seen(old(k.mem), c).image);
      assert procs[pid := Proc(c.root, c.sz)] == procs;
      assert SeenBy(old(k.mem), procs)[pid := Seen(old(k.mem), c)] == SeenBy(old(k.mem), procs);
      return Refused, procs;
    case Panicked =>
      return Panic, procs;
  }

  lemma FittedSelf(image: seq<Want>)
    ensures Fitted(image, |image|) == image
  {
  }

  /** Freeing an address space takes no page off the free list. */
  lemma GoneFrees(s: Machine, s': Machine, root: nat)
    requires Gone(s, s', root)
    ensures |s.freelist| <= |s'.freelist|
  {
    hide Sound, FreeSet;
    FreeSetIs(s);
    FreeSetIs(s');
    SubsetSize(FreeSet(s), FreeSet(s'));
  }

  method DoExit(k: Kernel, pid: nat, procs: Procs, ghost quiet: set<nat>) returns (procs': Procs)
    requires Spaces(k.mem, procs) && pid in procs && pid !in quiet
    modifies k
    ensures procs' == procs - {pid} && Moved(old(k.mem), k.mem, procs, procs', SeenBy(old(k.mem), procs) - {pid}, quiet)
    ensures |old(k.mem.freelist)| <= |k.mem.freelist|
  {
    hide Sound, Moved, Gone, Space, LeavesOnly, FreesOwnedRange, Unmappable, EmptyAbove;
    SpaceEnds(k.mem, procs[pid].root, procs[pid].sz);
    var ok := k.Uvmfree(procs[pid].root, procs[pid].sz);
    MovedExit(old(k.mem), k.mem, procs, pid, quiet);
    GoneFrees(old(k.mem), k.mem, procs[pid].root);
    return procs - {pid};
  }

  /** New contents for the page behind page vpn. */
  ghost function Rewritten(s: Snapshot, ppn: nat, content: Page): (s': Snapshot) {
    s.(m := s.m.(pages := s.m.pages[ppn := content]))
  }

  lemma RewrittenSound(s: Machine, root: nat, vpn: nat, content: Page)
    requires Owned(s, root, vpn)
    ensures Sound(Rewritten(s, At(s.flat, root, vpn).ppn, content))
  {
    hide UsersMapped, Proper, EntriesOk, Refines;
    OtherPages(s.m, Rewritten(s, At(s.flat, root, vpn).ppn, content).m, s.flat);
  }

  lemma RewrittenOutside(s: Machine, s': Machine, root: nat, vpn: nat, content: Page)
    requires Owned(s, root, vpn) && vpn < MAXVPN && s' == Rewritten(s, At(s.flat, root, vpn).ppn, content)
    ensures Outside(s', root, 0, MAXVPN) == Outside(s, root, 0, MAXVPN)
  {
    hide Represents, UsersMapped, Proper;
  }

  lemma RewrittenSeen(s: Machine, s': Machine, c: Proc, vpn: nat, content: Page)
    requires Space(s, c.root, c.sz) && vpn < PagesUp(c.sz) && s' == Rewritten(s, At(s.flat, c.root, vpn).ppn, content)
    ensures Space(s', c.root, c.sz)
    ensures var i := Seen(s, c).image; Seen(s', c) == Private(c.sz, i[vpn := i[vpn].(content := content)])
  {
    hide Sound, CopyOf;
    assert Owned(s, c.root, vpn);
    forall v: nat | v < PagesUp(c.sz)
      ensures Owned(s', c.root, v) && CopyAt(s', c.root, v) == if v == vpn then CopyAt(s, c.root, v).(content := content) else CopyAt(s, c.root, v)
    {
      assert Owned(s, c.root, v);
    }
    var i := Seen(s, c).image;
    assert Seen(s', c).image == i[vpn := i[vpn].(content := content)];
  }

  lemma MovedStore(s: Machine, s': Machine, procs: Procs, pid: nat, vpn: nat, content: Page, quiet: set<nat>)
    requires Spaces(s, procs) && pid in procs && pid !in quiet && vpn < PagesUp(procs[pid].sz) && At(s.flat, procs[pid].root, vpn).flags.u
    requires s' == Rewritten(s, At(s.flat, procs[pid].root, vpn).ppn, content)
    ensures Moved(s, s', procs, procs, SeenBy(s, procs)[pid := Stored(SeenBy(s, procs)[pid], vpn, content)], quiet)
  {
    hide Sound, Beside, Outside, Moved, Roots, PartOf, CopyOf, Rewritten, OthersKept;
    var c := procs[pid];
    assert Owned(s, c.root, vpn) && vpn < MAXVPN;
    RewrittenOutside(s, s', c.root, vpn, content);
    RewrittenSeen(s, s', c, vpn, content);
    KeptBeside(s, s', procs, pid, c.root);
    LessRoots(s, procs - quiet, pid);
    BesideKept(s, s', c.root, Roots(procs - quiet));
    assert procs[pid := c] == procs && (procs - quiet)[pid := c] == procs - quiet;
    MovedOne(s, s', procs, pid, c, quiet);
  }

  /** No store takes place above the size of the process or where the user has no access. */
  lemma Unstored(s: Machine, procs: Procs, pid: nat, vpn: nat, content: Page)
    requires Spaces(s, procs) && pid in procs && 0 !in s.m.pages
    requires vpn < MAXVPN && Present(At(s.flat, procs[pid].root, vpn)) && At(s.flat, procs[pid].root, vpn).flags.u
             ==> At(s.flat, procs[pid].root, vpn).ppn == 0
    ensures SeenBy(s, procs)[pid := Stored(SeenBy(s, procs)[pid], vpn, content)] == SeenBy(s, procs)
  {
    hide Represents, UsersMapped, Proper, CopyOf;
    var c := procs[pid];
    if vpn < PagesUp(c.sz) {
      assert Owned(s, c.root, vpn) && vpn < MAXVPN;
    }
    assert Stored(Seen(s, c), vpn, content) == Seen(s, c);
  }

  method DoStore(k: Kernel, pid: nat, vpn: nat, content: Page, procs: Procs, ghost quiet: set<nat>)
    requires Spaces(k.mem, procs) && pid in procs && pid !in quiet && 0 !in k.mem.m.pages
    modifies k
    ensures Moved(old(k.mem), k.mem, procs, procs, SeenBy(old(k.mem), procs)[pid := Stored(SeenBy(old(k.mem), procs)[pid], vpn, content)], quiet)
    ensures k.mem.freelist == old(k.mem.freelist)
  {
    hide Sound, Moved, Stored, CopyOf, OwnedRange;
    var c := procs[pid];
    assert vpn * PGSIZE / PGSIZE == vpn;
    var ppn := k.Walkaddr(c.root, vpn * PGSIZE);
    if ppn == 0 {
      Unstored(k.mem, procs, pid, vpn, content);
      MovedNot(k.mem, procs, quiet);
      return;
    }
    StoreOwned(k.mem, c, vpn);
    RewrittenSound(k.mem, c.root, vpn, content);
    k.mem := k.mem.(m := k.mem.m.(pages := k.mem.m.pages[ppn := content]));
    MovedStore(old(k.mem), k.mem, procs, pid, vpn, content, quiet);
  }

  lemma StoreOwned(s: Machine, c: Proc, vpn: nat)
    requires Space(s, c.root, c.sz) && vpn < MAXVPN && Present(At(s.flat, c.root, vpn))
    ensures vpn < PagesUp(c.sz) && Owned(s, c.root, vpn)
  {
    hide Sound;
  }

  /**
    sbrk, and a store to a new page: the page is found by walkaddr, and holds what was stored.
   */
  method GrowThenStore(k: Kernel, pid: nat, n: Int, vpn: nat, content: Page, procs: Procs)
    returns (r: Outcome, procs': Procs, ppn: nat)
    requires Spaces(k.mem, procs) && pid in procs && 0 !in k.mem.m.pages
    modifies k
    ensures r.Done? ==> pid in procs' && Spaces(k.mem, procs')
    ensures r.Done? && PagesUp(procs[pid].sz) <= vpn < PagesUp(procs'[pid].sz) ==>
              ppn != 0 && At(k.mem.flat, procs'[pid].root, vpn).ppn == ppn && ppn in k.mem.m.pages && k.mem.m.pages[ppn] == content
  {
    hide Sound, Moved, After, SeenBy, Spaces;
    ghost var a := SeenBy(k.mem, procs);
    SeenSize(k.mem, procs, pid);
    ppn := 0;
    r, procs' := DoGrow(k, pid, n, procs, {});
    if !r.Done? {
      return;
    }
    ghost var b := After(Grow(pid, n), a);
    MovedSeen(old(k.mem), k.mem, procs, procs', b, {});
    GrowEffect(a, pid, n, vpn);
    SeenKeys(k.mem, procs');
    SeenSize(k.mem, procs', pid);
    ghost var s1 := k.mem;
    DoStore(k, pid, vpn, content, procs', {});
    MovedSeen(s1, k.mem, procs', procs', b[pid := Stored(b[pid], vpn, content)], {});
    SeenSize(k.mem, procs', pid);
    SpaceRoot(k.mem, procs', pid);
    assert vpn * PGSIZE / PGSIZE == vpn;
    ppn := k.Walkaddr(procs'[pid].root, vpn * PGSIZE);
    if PagesUp(procs[pid].sz) <= vpn < PagesUp(procs'[pid].sz) {
      SeenPage(k.mem, procs', pid, vpn);
    }
  }

  lemma SeenKeys(s: Machine, procs: Procs)
    ensures SeenBy(s, procs).Keys == procs.Keys
  {
    hide Sound;
  }

  lemma SeenSize(s: Machine, procs: Procs, pid: nat)
    requires pid in procs
    ensures pid in SeenBy(s, procs) && SeenBy(s, procs)[pid].sz == procs[pid].sz && |SeenBy(s, procs)[pid].image| == PagesUp(procs[pid].sz)
  {
    hide Sound;
  }

  lemma SpaceRoot(s: Machine, procs: Procs, pid: nat)
    requires Spaces(s, procs) && pid in procs
    ensures Top(procs[pid].root) in s.m.tables
  {
    hide Sound;
  }

  /** What a process sees of a page is what walkaddr leads to. */
  lemma SeenPage(s: Machine, procs: Procs, pid: nat, v: nat)
    requires Spaces(s, procs) && pid in procs && v < PagesUp(procs[pid].sz)
    ensures v < |SeenBy(s, procs)[pid].image| && v < MAXVPN
    ensures var w, p := At(s.flat, procs[pid].root, v), SeenBy(s, procs)[pid].image[v];
            Present(w) && w.flags == p.flags && w.ppn in s.m.pages && s.m.pages[w.ppn] == p.content
  {
    hide Represents, UsersMapped, Proper;
    assert Owned(s, procs[pid].root, v);
  }

  /** The number of managed pages is part of what no process owns. */
  lemma MovedPages(s: Machine, s': Machine, procs: Procs, procs': Procs, a: Memories, quiet: set<nat>)
    requires Moved(s, s', procs, procs', a, quiet)
    ensures s'.m.pages.Keys == s.m.pages.Keys
  {
    hide Sound, Spaces, SeenBy;
    assert Beside(s', Roots(procs' - quiet)).pages == Beside(s, Roots(procs - quiet)).pages;
  }

  /**
    One operation of one process.  It changes the private memories as it should, or leaves
    them all alone because memory is short; only a request past MAXVA panics.
   */
  method Perform(k: Kernel, op: Op, procs: Procs, ghost quiet: set<nat>) returns (r: Outcome, procs': Procs)
    requires Spaces(k.mem, procs) && 0 !in k.mem.m.pages && forall q :: q in quiet ==> !Changes(op, q)
    modifies k
    ensures r.Done? ==> Moved(old(k.mem), k.mem, procs, procs', After(op, SeenBy(old(k.mem), procs)), quiet)
    ensures r.Refused? ==> procs' == procs && Moved(old(k.mem), k.mem, procs, procs', SeenBy(old(k.mem), procs), quiet)
                           && |old(k.mem.freelist)| < Need(op, SeenBy(old(k.mem), procs))
    ensures !r.Panic? ==> |old(k.mem.freelist)| <= |k.mem.freelist| + Need(op, SeenBy(old(k.mem), procs))
    ensures r.Panic? ==> op.Grow? && op.pid in procs && op.n > 0 && PagesUp(procs[op.pid].sz + op.n) > MAXVPN
  {
    hide Sound, Spaces, Moved;
    MovedNot(k.mem, procs, quiet);
    match op {
      case Spawn(pid) =>
        if pid !in procs {
          r, procs' := DoSpawn(k, pid, procs, quiet);
          return;
        }
      case Fork(pid, child) =>
        if pid in procs && child !in procs {
          r, procs' := DoFork(k, pid, child, procs, quiet);
          return;
        }
      case Grow(pid, n) =>
        if pid in procs {
          r, procs' := DoGrow(k, pid, n, procs, quiet);
          return;
        }
      case Store(pid, vpn, content) =>
        if pid in procs {
          DoStore(k, pid, vpn, content, procs, quiet);
          return Done, procs;
        }
      case Exit(pid) =>
        if pid in procs {
          procs' := DoExit(k, pid, procs, quiet);
          return Done, procs';
        }
        assert SeenBy(k.mem, procs) - {pid} == SeenBy(k.mem, procs);
    }
    return Done, procs;
  }

  // ---------------------------------------------------------------- every run

  lemma ReplayNext(ops: seq<Op>, out: seq<Outcome>, a: Memories, r: Outcome)
    requires |out| < |ops|
    ensures Replay(ops, out + [r], a) == if r.Done? then After(ops[|out|], Replay(ops, out, a)) else Replay(ops, out, a)
  {
    assert (out + [r])[..|out|] == out;
  }

  /** A process keeps its memory, byte for byte, through everything that the others do, forks of its own included. */
  lemma {:induction false} Isolation(ops: seq<Op>, out: seq<Outcome>, a: Memories, q: nat)
    requires |out| <= |ops| && forall i :: 0 <= i < |out| ==> !Changes(ops[i], q)
    ensures q in Replay(ops, out, a) <==> q in a
    ensures q in a ==> Replay(ops, out, a)[q] == a[q]
    decreases |out|
  {
    if out != [] {
      Isolation(ops, out[..|out| - 1], a, q);
    }
  }

  /**
    Operation i found free[i] pages free.  It was refused only if that was less than it may
    need, and it left all but what it may need.
   */
  ghost predicate PaidAt(ops: seq<Op>, out: seq<Outcome>, free: seq<nat>, a: Memories, i: nat) {
    && i < |out| <= |ops| && |free| == |out| + 1 && !out[i].Panic?
    && var need := Need(ops[i], Replay(ops, out[..i], a));
       (out[i].Refused? ==> free[i] < need) && free[i] <= free[i + 1] + need
  }

  ghost predicate Paid(ops: seq<Op>, out: seq<Outcome>, free: seq<nat>, a: Memories) {
    && |out| <= |ops| && |free| == |out| + 1
    && forall i: nat {:trigger PaidAt(ops, out, free, a, i)} :: i < |out| ==> PaidAt(ops, out, free, a, i)
  }

  lemma PaidNext(ops: seq<Op>, out: seq<Outcome>, free: seq<nat>, a: Memories, r: Outcome, left: nat)
    requires Paid(ops, out, free, a) && |out| < |ops| && !r.Panic?
    requires var need := Need(ops[|out|], Replay(ops, out, a));
             (r.Refused? ==> free[|out|] < need) && free[|out|] <= left + need
    ensures Paid(ops, out + [r], free + [left], a)
  {
    hide Need, Replay;
    var out', free' := out + [r], free + [left];
    forall i: nat | i < |out'|
      ensures PaidAt(ops, out', free', a, i)
    {
      assert out'[..i] == out[..i];
      assert out[..|out|] == out;
      if i < |out| {
        assert PaidAt(ops, out, free, a, i);
      }
    }
  }

  ghost function Dones(n: nat): (out: seq<Outcome>)
    ensures |out| == n && forall i :: 0 <= i < n ==> out[i].Done?
  {
    seq(n, i => Done)
  }

  /** What the first n operations may need in all, if every one of them takes effect. */
  ghost function Needs(ops: seq<Op>, n: nat, a: Memories): (pages: nat)
    requires n <= |ops|
  {
    if n == 0 then 0 else Needs(ops, n - 1, a) + Need(ops[n - 1], Replay(ops, Dones(n - 1), a))
  }

  lemma {:induction false} NeedsMore(ops: seq<Op>, m: nat, n: nat, a: Memories)
    requires m <= n <= |ops|
    ensures Needs(ops, m, a) <= Needs(ops, n, a)
  {
    if m < n {
      NeedsMore(ops, m, n - 1, a);
    }
  }

  /** With that many pages free at the beginning, nothing is refused. */
  lemma {:induction false} EnoughPages(ops: seq<Op>, out: seq<Outcome>, free: seq<nat>, a: Memories, n: nat)
    requires Paid(ops, out, free, a) && Needs(ops, |out|, a) <= free[0] && n <= |out|
    ensures out[..n] == Dones(n) && free[0] <= free[n] + Needs(ops, n, a)
  {
    hide Need, Replay;
    if n > 0 {
      EnoughPages(ops, out, free, a, n - 1);
      NeedsMore(ops, n, |out|, a);
      assert PaidAt(ops, out, free, a, n - 1);
      assert out[..n] == out[..n - 1] + [out[n - 1]];
    }
  }

  /** The operation asks for memory past MAXVA. */
  ghost predicate Beyond(op: Op, a: Memories) {
    op.Grow? && op.pid in a && op.n > 0 && PagesUp(a[op.pid].sz + op.n) > MAXVPN
  }

  /** The bytes that the operations ask for in all. */
  ghost function Asked(ops: seq<Op>): (n: nat) {
    if ops == [] then 0
    else
      var op := ops[|ops| - 1];
      Asked(ops[..|ops| - 1]) + if op.Grow? && op.n > 0 then op.n else 0
  }

  /** No memory is larger than b bytes. */
  ghost predicate Bounded(a: Memories, b: nat) {
    forall p :: p in a ==> a[p].sz <= b
  }

  lemma {:induction false} ReplayBounded(ops: seq<Op>, out: seq<Outcome>, a: Memories, b: nat)
    requires |out| <= |ops| && Bounded(a, b)
    ensures Bounded(Replay(ops, out, a), b + Asked(ops[..|out|]))
    decreases |out|
  {
    if out != [] {
      var k := |out| - 1;
      ReplayBounded(ops, out[..k], a, b);
      assert ops[..|out|][..k] == ops[..k];
    }
  }

  lemma {:induction false} AskedPrefix(ops: seq<Op>, k: nat)
    requires k <= |ops|
    ensures Asked(ops[..k]) <= Asked(ops)
    decreases |ops|
  {
    if k < |ops| {
      AskedPrefix(ops[..|ops| - 1], k);
      assert ops[..|ops| - 1][..k] == ops[..k];
    } else {
      assert ops[..k] == ops;
    }
  }

  /** A run that asks for no more than fits below MAXVA does not panic. */
  lemma NeverBeyond(ops: seq<Op>, out: seq<Outcome>, a: Memories, b: nat)
    requires |out| < |ops| && Bounded(a, b) && b + Asked(ops) <= MAXVPN * PGSIZE
    ensures !Beyond(ops[|out|], Replay(ops, out, a))
  {
    hide Replay;
    ReplayBounded(ops, out, a, b);
    AskedPrefix(ops, |out| + 1);
    assert ops[..|out| + 1][..|out|] == ops[..|out|];
  }

  /**
    A run of operations of any number of processes, interleaved as ops has them, up to the
    first panic, which only a request past MAXVA brings about.  Each process sees its private
    memory, as if no other existed, and memory that belongs to none of them is unchanged;
    that includes all of the quiet ones, which may be forked but not changed.  An operation
    takes effect unless fewer pages are free than it may need; so stores, exits and shrinking
    always do, and everything does if there are enough pages at the beginning.  When all
    processes but the quiet ones have gone, every page that was free before is free again.
   */
  method Interleave(k: Kernel, ops: seq<Op>, procs: Procs, ghost quiet: set<nat>)
    returns (ok: bool, procs': Procs, ghost out: seq<Outcome>, ghost free: seq<nat>)
    requires Spaces(k.mem, procs) && 0 !in k.mem.m.pages
    requires forall i, q :: 0 <= i < |ops| && q in quiet ==> !Changes(ops[i], q)
    modifies k
    ensures Paid(ops, out, free, SeenBy(old(k.mem), procs)) && free[0] == |old(k.mem.freelist)|
    ensures (exists b: nat :: Bounded(SeenBy(old(k.mem), procs), b) && b + Asked(ops) <= MAXVPN * PGSIZE) ==> ok
    ensures if ok then |out| == |ops| else |out| < |ops| && Beyond(ops[|out|], Replay(ops, out, SeenBy(old(k.mem), procs)))
    ensures ok ==> Moved(old(k.mem), k.mem, procs, procs', Replay(ops, out, SeenBy(old(k.mem), procs)), quiet)
    ensures ok ==> free[|ops|] == |k.mem.freelist|
    ensures ok && Needs(ops, |ops|, SeenBy(old(k.mem), procs)) <= |old(k.mem.freelist)| ==> out == Dones(|ops|)
    ensures ok && procs - quiet == map[] == procs' - quiet ==> Same(old(k.mem), k.mem) && FreeSet(k.mem) == FreeSet(old(k.mem))
  {
    hide Sound, Spaces, Moved, SeenBy, After, Same, FreeSet, Replay, Need, Needs, Paid, Bounded, Beyond;
    ok, procs', out, free := true, procs, [], [|k.mem.freelist|];
    ghost var a := SeenBy(k.mem, procs);
    MovedNot(k.mem, procs, quiet);
    ReplayStart(ops, a);
    PaidStart(ops, free, a);
    var i := 0;
    while i < |ops|
      invariant 0 <= i <= |ops| && |out| == i && |free| == i + 1 && free[0] == |old(k.mem.freelist)| && free[i] == |k.mem.freelist|
      invariant Moved(old(k.mem), k.mem, procs, procs', Replay(ops, out, a), quiet) && Paid(ops, out, free, a)
    {
      ghost var s, before := k.mem, procs';
      MovedSeen(old(k.mem), s, procs, before, Replay(ops, out, a), quiet);
      var r;
      r, procs' := Perform(k, ops[i], procs', quiet);
      if r.Panic? {
        PanicBeyond(ops[i], s, before);
        if b: nat :| Bounded(a, b) && b + Asked(ops) <= MAXVPN * PGSIZE {
          NeverBeyond(ops, out, a, b);
        }
        return false, procs', out, free;
      }
      ReplayNext(ops, out, a, r);
      PaidNext(ops, out, free, a, r, |k.mem.freelist|);
      MovedTwice(old(k.mem), s, k.mem, procs, before, procs', SeenBy(s, before), Replay(ops, out + [r], a), quiet);
      out, free := out + [r], free + [|k.mem.freelist|];
      i := i + 1;
    }
    if Needs(ops, |ops|, a) <= |old(k.mem.freelist)| {
      EnoughPages(ops, out, free, a, |out|);
      assert out[..|out|] == out;
    }
    if procs - quiet == map[] == procs' - quiet {
      MovedNone(old(k.mem), k.mem, procs, procs', Replay(ops, out, a), quiet);
    }
  }

  lemma PaidStart(ops: seq<Op>, free: seq<nat>, a: Memories)
    requires |free| == 1
    ensures Paid(ops, [], free, a)
  {
  }

  lemma ReplayStart(ops: seq<Op>, a: Memories)
    ensures Replay(ops, [], a) == a
  {
  }

  lemma MovedSeen(s: Machine, s': Machine, procs: Procs, procs': Procs, a: Memories, quiet: set<nat>)
    requires Moved(s, s', procs, procs', a, quiet)
    ensures Spaces(s', procs') && SeenBy(s', procs') == a && s'.m.pages.Keys == s.m.pages.Keys
  {
    hide Sound, Spaces, SeenBy;
    MovedPages(s, s', procs, procs', a, quiet);
  }

  lemma MovedTwice(s: Machine, s1: Machine, s2: Machine, p: Procs, p1: Procs, p2: Procs, a1: Memories, a2: Memories, quiet: set<nat>)
    requires Moved(s, s1, p, p1, a1, quiet) && Moved(s1, s2, p1, p2, a2, quiet)
    ensures Moved(s, s2, p, p2, a2, quiet)
  {
    hide Sound, Spaces, SeenBy, Beside, Roots;
  }

  lemma PanicBeyond(op: Op, s: Machine, procs: Procs)
    requires op.Grow? && op.pid in procs && op.n > 0 && PagesUp(procs[op.pid].sz + op.n) > MAXVPN
    ensures Beyond(op, SeenBy(s, procs))
  {
    hide Sound, CopyOf;
  }

  lemma MovedNone(s: Machine, s': Machine, procs: Procs, procs': Procs, a: Memories, quiet: set<nat>)
    requires Moved(s, s', procs, procs', a, quiet) && procs - quiet == map[] == procs' - quiet
    ensures Same(s, s') && FreeSet(s') == FreeSet(s)
  {
    hide Sound, Spaces, SeenBy, Beside, Same, FreeSet;
    assert Roots(map[]) == {};
    BesideNone(s, s');
    SameFree(s, s');
  }
}
