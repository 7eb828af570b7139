/** The page allocator (kalloc.c) and the page-table code (vm.c) over physical pages. */
module Vm {
  import opened Sv39
  import opened VmSpec

  datatype Growth = Grown(sz: nat) | OutOfMemory | Panicked
  datatype Copying = Copied | CopyFailed | CopyPanicked

  /** Physical memory and the free list. */
  class Kernel {
    var mem: Machine

    constructor (start: Machine)
      ensures mem == start
    {
      mem := start;
    }

    /** Before kinit: the managed pages exist, and none is on the free list. */
    constructor Boot(managed: map<nat, Page>)
      ensures mem.m.pages == managed && mem.freelist == [] && mem.m.key == map[] && mem.flat == map[]
      ensures mem.placed == map p | p in managed :: Held
    {
      BootSound(managed);
      mem := Snapshot(Memory(managed, map[], map[]), map[], [], map p | p in managed :: Held);
    }

    /** kalloc; ok is false exactly when the free list is empty. */
    method Kalloc() returns (ok: bool, p: nat)
      modifies this
      ensures ok <==> old(mem.freelist) != []
      ensures !ok ==> mem == old(mem)
      ensures ok ==> p == old(mem).freelist[0] && p in old(mem).m.pages && p !in old(mem).placed && p !in old(mem).m.key
                     && mem == HandedOut(old(mem))
      ensures ok ==> mem.freelist == old(mem).freelist[1..] && mem.flat == old(mem).flat && mem.m.key == old(mem).m.key
                     && mem.placed == old(mem).placed[p := Held]
                     && forall q :: q in old(mem).m.pages && q != p ==> mem.m.pages[q] == old(mem).m.pages[q]
    {
      if mem.freelist == [] {
        return false, 0;
      }
      HandedOutSound(mem);
      p := mem.freelist[0];
      mem := Snapshot(Memory(mem.m.pages[p := Junk(JunkAlloc)], mem.m.tables, mem.m.key), mem.flat, mem.freelist[1..], mem.placed[p := Held]);
      return true, p;
    }

    /** kfree of a page that its owner holds. */
    method Kfree(p: nat)
      requires p in mem.placed && mem.placed[p].Held?
      modifies this
      ensures mem == HandedBack(old(mem), p)
      ensures mem.freelist == [p] + old(mem).freelist && mem.placed == old(mem).placed - {p} && mem.flat == old(mem).flat
      ensures mem.m.key == old(mem).m.key && forall q :: q in old(mem).m.pages && q != p ==> mem.m.pages[q] == old(mem).m.pages[q]
    {
      HandedBackSound(mem, p);
      mem := Snapshot(Memory(mem.m.pages[p := Junk(JunkFree)], mem.m.tables, mem.m.key), mem.flat, [p] + mem.freelist, mem.placed - {p});
    }

    /** freerange over the n pages from first on, all of them still unallocated. */
    method Freerange(first: nat, n: nat)
      requires forall p :: first <= p < first + n ==> p in mem.placed && mem.placed[p].Held?
      modifies this
      ensures forall p :: p in mem.freelist <==> p in old(mem).freelist || first <= p < first + n
      ensures mem.flat == old(mem.flat) && mem.m.key == old(mem.m.key)
      ensures mem.placed == map p | p in old(mem).placed && !(first <= p < first + n) :: old(mem).placed[p]
    {
      hide Sound;
      var p := first;
      while p < first + n
        invariant first <= p <= first + n
        invariant forall q :: q in mem.freelist <==> q in old(mem).freelist || first <= q < p
        invariant mem.flat == old(mem.flat) && mem.m.key == old(mem.m.key)
        invariant mem.placed == map q | q in old(mem).placed && !(first <= q < p) :: old(mem).placed[q]
      {
        Kfree(p);
        p := p + 1;
      }
    }

    /** walk's allocation of a missing table below entry i of table t: zero a page and link it. */
    method NewTable(t: nat, i: nat, k: Key) returns (ok: bool, p: nat)
      requires k in mem.m.tables && mem.m.tables[k] == t && !k.Low? && Fits(k, i) && Child(k, i) !in mem.m.tables
      modifies this
      ensures mem.flat == old(mem.flat) && Frame(mem, k.root) == Frame(old(mem), k.root)
      ensures ok ==> Child(k, i) in mem.m.tables && mem.m.tables[Child(k, i)] == p
      ensures !ok ==> mem == old(mem) && mem.freelist == []
      ensures Took(old(mem), mem, 0, 1)
    {
      ok, p := Kalloc();
      if !ok {
        return false, 0;
      }
      var s1 := mem;
      var pages := s1.m.pages[p := ZeroPage()];
      pages := pages[t := pages[t][i := Word(p, LinkFlags)]];
      var next := Snapshot(Memory(pages, s1.m.tables[Child(k, i) := p], s1.m.key[p := Child(k, i)]), s1.flat, s1.freelist, s1.placed - {p});
      LinkedSound(s1, next, k, i, p);
      LinkedExtended(old(mem), s1, next, k, i, p);
      mem := next;
    }

    /** One level of walk: the table below entry i of table t, created if alloc. */
    method Descend(t: nat, i: nat, alloc: bool, k: Key) returns (ok: bool, child: nat)
      requires k in mem.m.tables && mem.m.tables[k] == t && !k.Low? && Fits(k, i)
      modifies this
      ensures mem.flat == old(mem.flat) && Frame(mem, k.root) == Frame(old(mem), k.root)
      ensures ok ==> Child(k, i) in mem.m.tables && mem.m.tables[Child(k, i)] == child
      ensures !alloc || !ok ==> mem == old(mem)
      ensures !ok ==> Child(k, i) !in mem.m.tables && (alloc ==> mem.freelist == [])
      ensures Took(old(mem), mem, 0, 1)
    {
      InnerEntry(mem.m, k, i);
      var w := mem.m.pages[t][i];
      if Present(w) {
        return true, w.ppn;
      }
      if !alloc {
        return false, 0;
      }
      ok, child := NewTable(t, i, k);
    }

    /**
      walk: the last-level table for page vpn.  Without alloc it changes nothing; with
      alloc it may add tables, which change no translation, and fails only when no page
      is free.
     */
    method Walk(root: nat, vpn: nat, alloc: bool) returns (ok: bool, t: nat)
      requires Top(root) in mem.m.tables && vpn < MAXVPN
      modifies this
      ensures mem.flat == old(mem.flat) && Frame(mem, root) == Frame(old(mem), root)
      ensures ok ==> LowKey(root, vpn) in mem.m.tables && mem.m.tables[LowKey(root, vpn)] == t
      ensures !alloc ==> mem == old(mem)
      ensures !ok ==> LowKey(root, vpn) !in mem.m.tables && (alloc ==> mem.freelist == [])
      ensures Took(old(mem), mem, 0, if ok then 2 else 1)
    {
      hide Sound, Frame;
      RootTable(mem, root);
      IndexFits(vpn);
      ok, t := true, root;
      var level := 2;
      while level > 0
        invariant 0 <= level <= 2
        invariant mem.flat == old(mem.flat) && Frame(mem, root) == Frame(old(mem), root) && (!alloc ==> mem == old(mem))
        invariant KeyAt(root, vpn, level) in mem.m.tables && mem.m.tables[KeyAt(root, vpn, level)] == t
        invariant Took(old(mem), mem, 0, 2 - level)
        decreases level
      {
        ok, t := Descend(t, Index(level, vpn), alloc, KeyAt(root, vpn, level));
        if !ok {
          MissingBelow(mem, root, vpn, level - 1);
          return;
        }
        level := level - 1;
      }
      return true, t;
    }

    /** Store w as the word of page vpn in its last-level table t. */
    method PutLeaf(t: nat, root: nat, vpn: nat, w: Word)
      requires vpn < MAXVPN && LowKey(root, vpn) in mem.m.tables && mem.m.tables[LowKey(root, vpn)] == t
      requires (forall p :: p in mem.placed ==> mem.placed[p] != User(root, vpn)) && (w == ZeroWord || Present(w))
      modifies this
      ensures mem.flat == Updated(old(mem.flat), root, vpn, w) && Frame(mem, root) == Frame(old(mem), root)
      ensures mem.freelist == old(mem.freelist) && mem.m.key == old(mem.m.key) && mem.m.tables == old(mem.m.tables)
    {
      var pages := mem.m.pages[t := mem.m.pages[t][Index(0, vpn) := w]];
      var next := Snapshot(Memory(pages, mem.m.tables, mem.m.key), Updated(mem.flat, root, vpn, w), mem.freelist, mem.placed);
      WrittenSound(mem, next, root, vpn, w);
      mem := next;
    }

    /** One turn of mappages. */
    method MapOne(root: nat, vpn: nat, w: Word) returns (r: MapResult)
      requires Top(root) in mem.m.tables && vpn < MAXVPN && Present(w)
      modifies this
      ensures Frame(mem, root) == Frame(old(mem), root) && Top(root) in mem.m.tables
      ensures r.Mapped? ==> !Present(At(old(mem.flat), root, vpn)) && mem.flat == Updated(old(mem.flat), root, vpn, w)
      ensures !r.Mapped? ==> mem.flat == old(mem.flat)
      ensures r.NoMemory? ==> mem.freelist == []
      ensures r.Remap? <==> Present(At(old(mem.flat), root, vpn))
      ensures Took(old(mem), mem, 0, if r.NoMemory? then 1 else 2)
    {
      var ok, t := Walk(root, vpn, true);
      LeafWord(mem, root, vpn);
      if !ok {
        return NoMemory;
      }
      if Present(mem.m.pages[t][Index(0, vpn)]) {
        return Remap;
      }
      PutLeaf(t, root, vpn, w);
      return Mapped;
    }

    /**
      mappages, for the n pages from vpn on.  It maps a prefix of them, all of them
      unless a table could not be allocated or a page was already mapped, and changes
      no other translation.
     */
    method MapPages(root: nat, vpn: nat, n: nat, ppn: nat, flags: Flags) returns (r: MapResult, done: nat)
      requires Top(root) in mem.m.tables && 0 < n && vpn + n <= MAXVPN && flags.v
      modifies this
      ensures Frame(mem, root) == Frame(old(mem), root) && Top(root) in mem.m.tables
      ensures done <= n && MapsFresh(old(mem.flat), mem.flat, root, vpn, ppn, done, flags)
      ensures r.Mapped? <==> done == n
      ensures r.NoMemory? ==> mem.freelist == []
      ensures r.Remap? ==> Present(At(old(mem.flat), root, vpn + done))
      ensures Took(old(mem), mem, 0, 2 * done + if r.Mapped? then 0 else if r.NoMemory? then 1 else 2)
    {
      hide Sound, Frame;
      r, done := Mapped, 0;
      while done < n
        invariant done <= n && r.Mapped?
        invariant Frame(mem, root) == Frame(old(mem), root) && Top(root) in mem.m.tables
        invariant MapsFresh(old(mem.flat), mem.flat, root, vpn, ppn, done, flags)
        invariant Took(old(mem), mem, 0, 2 * done)
      {
        ghost var flat := mem.flat;
        r := MapOne(root, vpn + done, Word(ppn + done, flags));
        MapTurn(old(mem.flat), flat, mem.flat, root, vpn, ppn, done, flags, vpn + done);
        if !r.Mapped? {
          return;
        }
        done := done + 1;
      }
    }

    /** walkaddr: the page behind a user address, if it is mapped for user access. */
    method Walkaddr(root: nat, va: nat) returns (ppn: nat)
      requires Top(root) in mem.m.tables
      modifies this
      ensures mem == old(mem)
      ensures ppn == if va / PGSIZE < MAXVPN && Present(At(mem.flat, root, va / PGSIZE)) && At(mem.flat, root, va / PGSIZE).flags.u
                     then At(mem.flat, root, va / PGSIZE).ppn else 0
    {
      if va / PGSIZE >= MAXVPN {
        return 0;
      }
      var ok, t := Walk(root, va / PGSIZE, false);
      LeafWord(mem, root, va / PGSIZE);
      if !ok {
        return 0;
      }
      var w := mem.m.pages[t][Index(0, va / PGSIZE)];
      if !Present(w) {
        return 0;
      }
      if !w.flags.u {
        return 0;
      }
      return w.ppn;
    }

    /** One turn of uvmunmap; not ok is one of its panics. */
    method UnmapOne(root: nat, v: nat, doFree: bool) returns (ok: bool)
      requires Top(root) in mem.m.tables && FreesOwned(mem, root, v, doFree)
      modifies this
      ensures ok <==> Unmappable(old(mem.flat), root, v)
      ensures !ok ==> mem == old(mem)
      ensures Outside(mem, root, v, 1) == Outside(old(mem), root, v, 1) && mem.m.key == old(mem.m.key) && Top(root) in mem.m.tables
      ensures ok ==> At(mem.flat, root, v) == ZeroWord
      ensures |old(mem.freelist)| <= |mem.freelist|
    {
      hide Sound, Outside, Frame;
      if v >= MAXVPN {
        return false;
      }
      var present, t := Walk(root, v, false);
      LeafWord(mem, root, v);
      if !present {
        return false;
      }
      var w := mem.m.pages[t][Index(0, v)];
      if !Present(w) || w.flags == LinkFlags {
        return false;
      }
      if doFree {
        FreeLeaf(root, v, t);
      } else {
        PutLeaf(t, root, v, ZeroWord);
        FrameKept(old(mem), mem, root, v);
      }
      return true;
    }

    /** kfree of the page behind the word of page v, and the clearing of that word. */
    method FreeLeaf(root: nat, v: nat, t: nat)
      requires v < MAXVPN && LowKey(root, v) in mem.m.tables && mem.m.tables[LowKey(root, v)] == t && Owned(mem, root, v)
      modifies this
      ensures Outside(mem, root, v, 1) == Outside(old(mem), root, v, 1) && mem.m.key == old(mem.m.key) && mem.m.tables == old(mem.m.tables)
      ensures At(mem.flat, root, v) == ZeroWord && |mem.freelist| == |old(mem.freelist)| + 1
    {
      LeafWord(mem, root, v);
      var p := mem.m.pages[t][Index(0, v)].ppn;
      var pages := mem.m.pages[p := Junk(JunkFree)];
      pages := pages[t := pages[t][Index(0, v) := ZeroWord]];
      var next := Snapshot(Memory(pages, mem.m.tables, mem.m.key), Updated(mem.flat, root, v, ZeroWord), [p] + mem.freelist, mem.placed - {p});
      FreedSound(mem, next, root, v);
      mem := next;
    }

    /**
      uvmunmap of n pages from vpn on.  It stops, by a panic, exactly at the first page
      that is not mapped by a leaf; up to there every page is unmapped, and with do_free
      given back, and nothing else changes.
     */
    method Uvmunmap(root: nat, vpn: nat, n: nat, doFree: bool) returns (ok: bool, done: nat)
      requires Top(root) in mem.m.tables && FreesOwnedRange(mem, root, vpn, n, doFree)
      modifies this
      ensures done <= n && EmptyRange(mem.flat, root, vpn, done) && Outside(mem, root, vpn, done) == Outside(old(mem), root, vpn, done)
      ensures mem.m.key == old(mem.m.key) && Top(root) in mem.m.tables
      ensures ok <==> done == n
      ensures forall v: nat :: vpn <= v < vpn + done ==> Unmappable(old(mem.flat), root, v)
      ensures !ok ==> !Unmappable(old(mem.flat), root, vpn + done)
      ensures |old(mem.freelist)| <= |mem.freelist|
    {
      hide Sound, Outside, Unmappable, FreesOwned, Owned;
      done := 0;
      while done < n
        invariant done <= n && EmptyRange(mem.flat, root, vpn, done) && Outside(mem, root, vpn, done) == Outside(old(mem), root, vpn, done)
        invariant mem.m.key == old(mem.m.key) && Top(root) in mem.m.tables
        invariant forall v: nat :: vpn <= v < vpn + done ==> Unmappable(old(mem.flat), root, v)
        invariant |old(mem.freelist)| <= |mem.freelist|
      {
        ghost var s1 := mem;
        UnmapNext(old(mem), s1, root, vpn, done, n, doFree);
        ok := UnmapOne(root, vpn + done, doFree);
        if !ok {
          return;
        }
        UnmapTurn(old(mem), s1, mem, root, vpn, done, n, doFree);
        done := done + 1;
      }
      ok := true;
    }

    /**
      A turn of uvmalloc and of uvmcopy: take a page, fill it, and map it at page v.  If
      the tables cannot be completed the page is given back, and nothing has changed but
      for tables that map nothing.
     */
    method PlacePage(root: nat, v: nat, content: Page, flags: Flags) returns (r: MapResult)
      requires Top(root) in mem.m.tables && v < MAXVPN && flags.v && flags != LinkFlags
      modifies this
      ensures r.Mapped? ==> Filled(mem, root, v, flags, content) && Outside(mem, root, v, 1) == Outside(old(mem), root, v, 1)
      ensures r.NoMemory? ==> Frame(mem, root) == Frame(old(mem), root) && mem.flat == old(mem.flat)
      ensures Present(At(old(mem.flat), root, v)) ==> !r.Mapped?
      ensures r.Remap? ==> Present(At(old(mem.flat), root, v))
      ensures Top(root) in mem.m.tables
      ensures r.Mapped? ==> Took(old(mem), mem, 1, 3)
      ensures r.NoMemory? ==> |old(mem.freelist)| < 3
    {
      hide Sound, Outside, Filled, Frame;
      var ok, p := Kalloc();
      if !ok {
        return NoMemory;
      }
      TakenSound(old(mem), content);
      var next := mem.(m := mem.m.(pages := mem.m.pages[p := content]));
      assert next.m.pages == Taken(old(mem), content).m.pages;
      assert next == Taken(old(mem), content);
      mem := next;
      var done;
      r, done := MapPages(root, v, 1, p, flags);
      if r.Remap? {
        return;
      }
      if r.NoMemory? {
        PlaceUndone(old(mem), mem, root, content);
        Kfree(p);
        return;
      }
      assert mem.flat == Updated(MapRange(next.flat, root, v, p, 0, flags), root, v, Word(p, flags));
      PlaceDone(old(mem), mem, root, v, content, flags);
      mem := mem.(placed := mem.placed[p := User(root, v)]);
    }

    /** uvmcreate: a root table with no translation; not ok when no page is free. */
    method Uvmcreate() returns (ok: bool, root: nat)
      modifies this
      ensures ok <==> old(mem.freelist) != []
      ensures !ok ==> mem == old(mem)
      ensures ok ==> Top(root) !in old(mem).m.tables && Top(root) in mem.m.tables && EmptyRange(mem.flat, root, 0, MAXVPN)
      ensures ok ==> mem.flat == old(mem.flat) && mem.placed == old(mem.placed) && Data(mem) == Data(old(mem))
                     && OtherKeys(mem, root) == old(mem.m.key) && mem.m.pages.Keys == old(mem.m.pages.Keys)
      ensures ok ==> Took(old(mem), mem, 1, 1)
    {
      ok, root := Kalloc();
      if !ok {
        return;
      }
      var next := Snapshot(Memory(mem.m.pages[root := ZeroPage()], mem.m.tables[Top(root) := root], mem.m.key[root := Top(root)]),
                           mem.flat, mem.freelist, mem.placed - {root});
      RootedSound(old(mem), next, root);
      mem := next;
    }

    /** uvmdealloc; not ok is a panic of uvmunmap. */
    method Uvmdealloc(root: nat, oldsz: nat, newsz: nat) returns (ok: bool, sz: nat)
      requires Top(root) in mem.m.tables
      requires newsz < oldsz ==> FreesOwnedRange(mem, root, PagesUp(newsz), PagesUp(oldsz) - PagesUp(newsz), true)
      requires PagesUp(oldsz) - PagesUp(newsz) < 0x8000_0000
      modifies this
      ensures sz == if newsz < oldsz then newsz else oldsz
      ensures ok <== newsz >= oldsz || forall v: nat :: PagesUp(newsz) <= v < PagesUp(oldsz) ==> Unmappable(old(mem.flat), root, v)
      ensures newsz >= oldsz ==> mem == old(mem)
      ensures ok && newsz < oldsz ==>
        && EmptyRange(mem.flat, root, PagesUp(newsz), PagesUp(oldsz) - PagesUp(newsz))
        && Outside(mem, root, PagesUp(newsz), PagesUp(oldsz) - PagesUp(newsz))
           == Outside(old(mem), root, PagesUp(newsz), PagesUp(oldsz) - PagesUp(newsz))
        && mem.m.key == old(mem.m.key)
      ensures Top(root) in mem.m.tables && |old(mem.freelist)| <= |mem.freelist|
    {
      hide Sound, Outside, Unmappable, FreesOwned;
      if newsz >= oldsz {
        return true, oldsz;
      }
      ok := true;
      if PagesUp(newsz) < PagesUp(oldsz) {
        var npages := PagesUp(oldsz) - PagesUp(newsz);
        var done;
        ok, done := Uvmunmap(root, PagesUp(newsz), npages, true);
      }
      sz := newsz;
    }

    /**
      uvmalloc.  Success maps zeroed pages from PGROUNDUP(oldsz) on; failure leaves every
      translation, every page's owner and the contents of every owned page as they were.
     */
    method Uvmalloc(root: nat, oldsz: nat, newsz: nat, w: bool, x: bool) returns (r: Growth)
      requires Top(root) in mem.m.tables
      modifies this
      ensures newsz < oldsz ==> r == Grown(oldsz) && mem == old(mem)
      ensures newsz >= oldsz && r.Grown? ==>
        && r.sz == newsz && PagesUp(oldsz) <= PagesUp(newsz)
        && FilledRange(mem, root, PagesUp(oldsz), seq(PagesUp(newsz) - PagesUp(oldsz), i => Want(UserFlags(w, x), ZeroPage())))
        && Outside(mem, root, PagesUp(oldsz), PagesUp(newsz) - PagesUp(oldsz))
           == Outside(old(mem), root, PagesUp(oldsz), PagesUp(newsz) - PagesUp(oldsz))
      ensures r.OutOfMemory? ==> Frame(mem, root) == Frame(old(mem), root) && mem.flat == old(mem.flat)
      ensures newsz >= oldsz && r.Grown? ==> forall v: nat :: PagesUp(oldsz) <= v < PagesUp(newsz) ==> UserPage(mem.flat, root, v, w, x)
      ensures newsz >= oldsz && r.Grown? ==> Took(old(mem), mem, PagesUp(newsz) - PagesUp(oldsz), 3 * (PagesUp(newsz) - PagesUp(oldsz)))
      ensures r.OutOfMemory? ==> |old(mem.freelist)| < 3 * (PagesUp(newsz) - PagesUp(oldsz))
      ensures r.Panicked? ==> exists v: nat ::
        PagesUp(oldsz) <= v < PagesUp(newsz) && (v >= MAXVPN || Present(At(old(mem.flat), root, v)))
      ensures Top(root) in mem.m.tables
    {
      hide Sound, Outside, Frame, Filled, UserPage;
      if newsz < oldsz {
        return Grown(oldsz);
      }
      PagesUpMonotone(oldsz, newsz);
      var lo := PagesUp(oldsz);
      var a := lo;
      ghost var want := [];
      while a * PGSIZE < newsz
        invariant lo <= a <= PagesUp(newsz) && a - lo == |want| && Top(root) in mem.m.tables
        invariant forall i :: 0 <= i < |want| ==> want[i] == Want(UserFlags(w, x), ZeroPage())
        invariant Outside(mem, root, lo, |want|) == Outside(old(mem), root, lo, |want|)
        invariant FilledRange(mem, root, lo, want) && EmptyRange(old(mem.flat), root, lo, |want|)
        invariant a == lo || a <= MAXVPN
        invariant Took(old(mem), mem, |want|, 3 * |want|)
        decreases newsz - a * PGSIZE
      {
        ghost var s1 := mem;
        OutsideSame(old(mem), s1, root, lo, |want|, root, a);
        if a >= MAXVPN {
          return Panicked;
        }
        var m := PlacePage(root, a, ZeroPage(), UserFlags(w, x));
        if m.Remap? {
          return Panicked;
        }
        if m.NoMemory? {
          ghost var s2 := mem;
          FilledFrame(s1, s2, root, lo, want);
          FilledFrees(s2, root, lo, want);
          PagesUpExact(a);
          PagesUpExact(lo);
          var ok, sz := Uvmdealloc(root, a * PGSIZE, lo * PGSIZE);
          Undone(old(mem), s1, s2, mem, root, lo, a - lo);
          return OutOfMemory;
        }
        GrowTurn(old(mem), s1, mem, root, lo, want, Want(UserFlags(w, x), ZeroPage()));
        want := want + [Want(UserFlags(w, x), ZeroPage())];
        a := a + 1;
      }
      assert want == seq(PagesUp(newsz) - PagesUp(oldsz), i => Want(UserFlags(w, x), ZeroPage()));
      FilledUser(mem, root, lo, want, w, x);
      return Grown(newsz);
    }

    /** A turn of uvmcopy: a copy of the parent's page i for the child; Remap is a panic. */
    method CopyPage(parent: nat, child: nat, i: nat) returns (r: MapResult)
      requires Top(parent) in mem.m.tables && Top(child) in mem.m.tables && i < MAXVPN
      requires Present(At(mem.flat, parent, i)) ==> Owned(mem, parent, i)
      modifies this
      ensures r.Mapped? ==> Present(At(old(mem.flat), parent, i))
      ensures r.Mapped? ==> var w := CopyAt(old(mem), parent, i);
                            Filled(mem, child, i, w.flags, w.content) && !Present(At(old(mem.flat), child, i))
                            && Outside(mem, child, i, 1) == Outside(old(mem), child, i, 1)
      ensures r.NoMemory? ==> Frame(mem, child) == Frame(old(mem), child) && mem.flat == old(mem.flat)
      ensures r.Remap? ==> !Present(At(old(mem.flat), parent, i)) || Present(At(old(mem.flat), child, i))
      ensures Top(child) in mem.m.tables
      ensures r.Mapped? ==> Took(old(mem), mem, 1, 3)
      ensures r.NoMemory? ==> |old(mem.freelist)| < 3
    {
      hide Represents, UsersMapped, Proper, Outside, Frame, Filled;
      var present, t := Walk(parent, i, false);
      LeafWord(mem, parent, i);
      if !present {
        return Remap;
      }
      var w := mem.m.pages[t][Index(0, i)];
      if !Present(w) {
        return Remap;
      }
      r := PlacePage(child, i, mem.m.pages[w.ppn], w.flags);
    }

    /**
      uvmcopy.  Success maps, page by page, copies of the parent's pages with the parent's
      flags; failure leaves the child's space without a page, and neither changes anything
      else: the parent keeps its pages.
     */
    method Uvmcopy(parent: nat, child: nat, sz: nat) returns (r: Copying)
      requires Top(parent) in mem.m.tables && Top(child) in mem.m.tables && parent != child
      requires forall v: nat :: v < PagesUp(sz) && Present(At(mem.flat, parent, v)) ==> Owned(mem, parent, v)
      modifies this
      ensures r.Copied? ==> FilledRange(mem, child, 0, CopyOf(old(mem), parent, PagesUp(sz)))
                            && Outside(mem, child, 0, PagesUp(sz)) == Outside(old(mem), child, 0, PagesUp(sz))
      ensures r.CopyFailed? ==> Frame(mem, child) == Frame(old(mem), child) && mem.flat == old(mem.flat)
      ensures r.Copied? ==> Took(old(mem), mem, PagesUp(sz), 3 * PagesUp(sz))
      ensures r.CopyFailed? ==> |old(mem.freelist)| < 3 * PagesUp(sz)
      ensures r.CopyPanicked? ==> exists v: nat ::
        v < PagesUp(sz) && (v >= MAXVPN || !Present(At(old(mem.flat), parent, v)) || Present(At(old(mem.flat), child, v)))
      ensures Top(child) in mem.m.tables
    {
      hide Sound, Outside, Frame, Filled, Owned, CopyAt;
      var i := 0;
      ghost var want := [];
      while i * PGSIZE < sz
        invariant i <= PagesUp(sz) && i == |want| && Top(child) in mem.m.tables
        invariant want == CopyOf(old(mem), parent, i)
        invariant Outside(mem, child, 0, i) == Outside(old(mem), child, 0, i)
        invariant FilledRange(mem, child, 0, want) && EmptyRange(old(mem.flat), child, 0, i)
        invariant i == 0 || i <= MAXVPN
        invariant Took(old(mem), mem, i, 3 * i)
        decreases sz - i * PGSIZE
      {
        ghost var s1 := mem;
        SourceSame(old(mem), s1, parent, child, i);
        if i >= MAXVPN {
          return CopyPanicked;
        }
        var m := CopyPage(parent, child, i);
        if m.Remap? {
          return CopyPanicked;
        }
        if m.NoMemory? {
          ghost var s2 := mem;
          FilledFrame(s1, s2, child, 0, want);
          FilledFrees(s2, child, 0, want);
          var ok, done := Uvmunmap(child, 0, i, true);
          Undone(old(mem), s1, s2, mem, child, 0, i);
          return CopyFailed;
        }
        GrowTurn(old(mem), s1, mem, child, 0, want, CopyAt(old(mem), parent, i));
        want := want + [CopyAt(old(mem), parent, i)];
        i := i + 1;
      }
      return Copied;
    }

    /**
      freewalk of the table t, given the tables that hang below it as `tab`.  It frees all
      of them and nothing else, unless it panics, which it does exactly when one of them
      still holds a mapping.
     */
    method FreeWalk(t: nat, k: Key, ghost tab: map<Key, nat>) returns (ok: bool)
      requires k in tab && tab[k] == t && Subtree(mem, tab, k)
      modifies this
      ensures ok <==> NoLeaf(old(mem.m.pages), tab, k)
      ensures ok ==> Released(old(mem), mem, Pages(tab, k))
      decreases Height(k)
    {
      hide Sound, Subtree, Released, NoLeaf, Partway, Pages;
      StartPartway(mem, tab, k);
      var i := 0;
      while i < ENTRIES
        invariant 0 <= i <= ENTRIES && Partway(old(mem), mem, tab, k, i)
      {
        ghost var s1 := mem;
        EntryCases(old(mem), s1, tab, k, i);
        var w := mem.m.pages[t][i];
        if Present(w) && !IsLeaf(w) {
          ok := FreeWalk(w.ppn, Child(k, i), tab);
          if !ok {
            ChildLeaf(old(mem), s1, tab, k, i);
            return;
          }
          ChildReleased(old(mem), s1, mem, tab, k, i);
          mem := mem.(m := mem.m.(pages := mem.m.pages[t := mem.m.pages[t][i := ZeroWord]]));
        } else if Present(w) {
          return false;
        }
        i := i + 1;
      }
      AllPartway(old(mem), mem, tab, k);
      Kfree(t);
      return true;
    }

    /**
      uvmfree of an address space of size sz.  It panics exactly when a page below sz is
      not mapped or one above it is; otherwise it gives back every page and every table
      of the address space, and no other.
     */
    method Uvmfree(root: nat, sz: nat) returns (ok: bool)
      requires Top(root) in mem.m.tables && FreesOwnedRange(mem, root, 0, PagesUp(sz), true) && LeavesOnly(mem.flat, root)
      modifies this
      ensures ok <==> (forall v: nat :: v < PagesUp(sz) ==> Unmappable(old(mem.flat), root, v))
                      && EmptyAbove(old(mem.flat), root, PagesUp(sz))
      ensures ok ==> Gone(old(mem), mem, root)
    {
      hide Sound, Outside, Unmappable, FreesOwned, Gone, Released, NoLeaf, Subtree, LeavesOnly;
      if sz > 0 {
        var done;
        ok, done := Uvmunmap(root, 0, PagesUp(sz), true);
        if !ok {
          return;
        }
      }
      ghost var s1 := mem;
      AllBelowMax(old(mem.flat), root, PagesUp(sz));
      UnmappedBelow(old(mem), s1, root, PagesUp(sz));
      ghost var tab := mem.m.tables;
      RootTable(s1, root);
      DetachedSound(s1, root);
      DetachedSubtree(s1, root);
      NoLeafEmpty(s1, root);
      mem := Detached(mem, root);
      ok := FreeWalk(root, Top(root), tab);
      if ok {
        DetachedReleased(s1, mem, root);
        GoneVia(old(mem), s1, mem, root, PagesUp(sz));
      }
    }

    /**
      growproc of a process of size sz.  It panics only if the size would pass MAXVA; else
      the process has exactly the pages of its new size, or, when memory runs out, of its
      old one, and no other memory is touched.
     */
    method Growproc(root: nat, sz: nat, n: int) returns (r: Growth)
      requires Space(mem, root, sz) && -0x8000_0000 <= n < 0x8000_0000
      modifies this
      ensures r.Grown? ==> r.sz == (if 0 <= sz + n then sz + n else sz) && Resized(old(mem), mem, root, sz, r.sz)
      ensures r.Grown? ==> forall v: nat :: PagesUp(sz) <= v < PagesUp(r.sz) ==> UserPage(mem.flat, root, v, true, false)
      ensures r.Grown? && n > 0 ==> Took(old(mem), mem, PagesUp(sz + n) - PagesUp(sz), 3 * (PagesUp(sz + n) - PagesUp(sz)))
      ensures r.Grown? && n <= 0 ==> |old(mem.freelist)| <= |mem.freelist|
      ensures r.OutOfMemory? ==> n > 0 && Resized(old(mem), mem, root, sz, sz)
      ensures r.OutOfMemory? ==> |old(mem.freelist)| < 3 * (PagesUp(sz + n) - PagesUp(sz))
      ensures r.Panicked? ==> n > 0 && PagesUp(sz + n) > MAXVPN
    {
      hide Sound, Outside, Frame, Unmappable, FreesOwned, FilledRange, Resized, EmptyRange, EmptyAbove, OwnedRange, LeavesOnly, UserPage;
      if n > 0 {
        PagesUpMonotone(sz, sz + n);
        r := Uvmalloc(root, sz, sz + n, true, false);
        if r.Grown? {
          ResizedUp(old(mem), mem, root, sz, sz + n);
        } else if r.OutOfMemory? {
          ResizedNot(old(mem), mem, root, sz);
        } else {
          ghost var v: nat :| PagesUp(sz) <= v < PagesUp(sz + n) && (v >= MAXVPN || Present(At(old(mem.flat), root, v)));
          if v < MAXVPN {
            GrowthFits(old(mem), root, sz, v);
          }
        }
        return;
      }
      ResizedNot(mem, mem, root, sz);
      if n < 0 {
        var newsz := (sz + n) % 0x1_0000_0000_0000_0000;
        if newsz < sz {
          PagesUpMonotone(newsz, sz);
          SpaceFrees(mem, root, sz, PagesUp(newsz));
        }
        var ok, sz' := Uvmdealloc(root, sz, newsz);
        if newsz < sz {
          ResizedDown(old(mem), mem, root, sz, newsz);
        }
        return Grown(sz');
      }
      r := Grown(sz);
    }
  }
}
