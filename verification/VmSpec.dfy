/**
  Memory as the page allocator and the page-table code share it.  Every managed page is
  on the free list, or is a page-table page, or is `placed`: mapped in an address space or
  held by a caller of kalloc.  `m.tables`, `m.key`, `flat` and `placed` are bookkeeping of
  the model: the kernel has only the pages and the free list.
 */
module VmSpec {
  import opened Collections
  import opened Sv39

  datatype Use =
    | User(root: nat, vpn: nat)       // mapped at vpn in the address space of root
    | Held                            // allocated, and not yet mapped by its owner

  /** kalloc's and kfree's fill. */
  function Junk(w: Word): (p: Page) {
    seq(ENTRIES, i => w)
  }

  /** Words of 0x05 and of 0x01 bytes. */
  const JunkAlloc := Word(0x1_4141_4141_4141, Flags(true, false, true, false, false, 8))
  const JunkFree := Word(0x4040_4040_4040, Flags(true, false, false, false, false, 8))

  lemma JunkBytes()
    ensures Encoded(JunkAlloc) == 0x0505_0505_0505_0505 && Encoded(JunkFree) == 0x0101_0101_0101_0101
  {
  }

  /** Between lo and hi pages have been taken off the free list. */
  ghost predicate Took(s: Snapshot, s': Snapshot, lo: nat, hi: nat) {
    |s'.freelist| + lo <= |s.freelist| <= |s'.freelist| + hi
  }

  datatype Snapshot = Snapshot(m: Memory, flat: Flat, freelist: seq<nat>, placed: map<nat, Use>)

  /** A user page is mapped where its use says. */
  ghost predicate UsersMapped(flat: Flat, placed: map<nat, Use>) {
    forall p :: p in placed && placed[p].User? ==>
      placed[p].vpn < MAXVPN && Present(At(flat, placed[p].root, placed[p].vpn)) && At(flat, placed[p].root, placed[p].vpn).ppn == p
  }

  /** Each managed page is free, a table or placed, and only one of these. */
  ghost predicate Accounted(s: Snapshot) {
    && Distinct(s.freelist) && s.placed.Keys !! s.m.key.Keys && s.placed.Keys <= s.m.pages.Keys && s.m.key.Keys <= s.m.pages.Keys
    && forall p :: p in s.freelist <==> p in s.m.pages && p !in s.placed && p !in s.m.key
  }

  /** Every translation is in the range of walk, and a last-level word that is not valid is zero. */
  ghost predicate Proper(flat: Flat) {
    forall a :: a in flat ==> Present(flat[a]) && a.vpn < MAXVPN
  }

  ghost predicate Sound(s: Snapshot) {
    Represents(s.m, s.flat) && Proper(s.flat) && UsersMapped(s.flat, s.placed) && Accounted(s)
  }

  /** The states that the kernel can be in. */
  type Machine = s: Snapshot | Sound(s) ghost witness Snapshot(Memory(map[], map[], map[]), map[], [], map[])

  /** The contents of the placed pages. */
  ghost function Data(s: Snapshot): (d: map<nat, Page>) {
    map p | p in s.placed && p in s.m.pages :: s.m.pages[p]
  }

  /** The page-table pages of the other address spaces. */
  ghost function OtherKeys(s: Snapshot, root: nat): (o: map<nat, Key>) {
    map p | p in s.m.key && s.m.key[p].root != root :: s.m.key[p]
  }

  /** The table that walk has reached at a level. */
  function KeyAt(root: nat, vpn: nat, level: nat): (k: Key)
    requires level <= 2
  {
    if level == 2 then Top(root) else if level == 1 then Mid(root, Index(2, vpn)) else LowKey(root, vpn)
  }

  datatype View = View(placed: map<nat, Use>, data: map<nat, Page>, others: map<nat, Key>, pages: set<nat>, rooted: bool)

  /** All that mapping in the address space of root must leave alone. */
  ghost function Frame(s: Snapshot, root: nat): (v: View) {
    View(s.placed, Data(s), OtherKeys(s, root), s.m.pages.Keys, Top(root) in s.m.tables)
  }

  datatype MapResult = Mapped | NoMemory | Remap   // Remap is a panic

  /** The flat map after mapping n pages from vpn on to the physical pages from ppn on. */
  ghost function MapRange(flat: Flat, root: nat, vpn: nat, ppn: nat, n: nat, flags: Flags): (f: Flat) {
    if n == 0 then flat
    else Updated(MapRange(flat, root, vpn, ppn, n - 1, flags), root, vpn + n - 1, Word(ppn + n - 1, flags))
  }

  /** The first n pages from vpn on were unmapped and are mapped now; no other translation changed. */
  ghost predicate MapsFresh(flat: Flat, flat': Flat, root: nat, vpn: nat, ppn: nat, n: nat, flags: Flags) {
    && flat' == MapRange(flat, root, vpn, ppn, n, flags)
    && forall v :: vpn <= v < vpn + n ==> !Present(At(flat, root, v))
  }

  // ---------------------------------------------------------------- allocator

  ghost function HandedOut(s: Snapshot): (s': Snapshot)
    requires s.freelist != []
  {
    var p := s.freelist[0];
    Snapshot(Memory(s.m.pages[p := Junk(JunkAlloc)], s.m.tables, s.m.key), s.flat, s.freelist[1..], s.placed[p := Held])
  }

  ghost function HandedBack(s: Snapshot, p: nat): (s': Snapshot) {
    Snapshot(Memory(s.m.pages[p := Junk(JunkFree)], s.m.tables, s.m.key), s.flat, [p] + s.freelist, s.placed - {p})
  }

  lemma HandedOutSound(s: Snapshot)
    requires Sound(s) && s.freelist != []
    ensures Sound(HandedOut(s))
    ensures s.freelist[0] in s.m.pages && s.freelist[0] !in s.placed && s.freelist[0] !in s.m.key
  {
    var p := s.freelist[0];
    assert p in s.freelist;
    OtherPages(s.m, HandedOut(s).m, s.flat);
    forall q
      ensures q in s.freelist[1..] <==> q in s.freelist && q != p
    {
      if q in s.freelist && q != p {
        var i :| 0 <= i < |s.freelist| && s.freelist[i] == q;
        assert s.freelist[1..][i - 1] == q;
      }
    }
  }

  lemma HandedBackSound(s: Snapshot, p: nat)
    requires Sound(s) && p in s.placed && s.placed[p].Held?
    ensures Sound(HandedBack(s, p))
  {
    OtherPages(s.m, HandedBack(s, p).m, s.flat);
  }

  // ---------------------------------------------------------------- walk

  lemma LinkedSound(s: Snapshot, s': Snapshot, k: Key, i: nat, p: nat)
    requires Sound(s) && p in s.placed && s.placed[p].Held?
    requires k in s.m.tables && !k.Low? && Fits(k, i) && Child(k, i) !in s.m.tables
    requires s' == Snapshot(Linked(s.m, k, i, p), s.flat, s.freelist, s.placed - {p})
    ensures Sound(s')
  {
    LinkedRepresents(s.m, k, i, p, s.flat);
    assert s.m.tables[k] in s.m.key;
  }

  lemma LinkedExtended(s: Snapshot, s1: Snapshot, s': Snapshot, k: Key, i: nat, p: nat)
    requires TablesOk(s.m) && Accounted(s) && p in s.m.pages && p !in s.placed && p !in s.m.key
    requires s.freelist != [] && p == s.freelist[0] && s1 == HandedOut(s) && TablesOk(s1.m)
    requires k in s.m.tables && !k.Low? && i < ENTRIES
    requires s' == Snapshot(Linked(s1.m, k, i, p), s.flat, s1.freelist, s1.placed - {p})
    ensures Frame(s', k.root) == Frame(s, k.root)
  {
    assert s'.placed == s.placed;
    assert s.m.tables[k] in s.m.key;
    ExtendedByTable(s, s', k, i, p);
  }

  lemma ExtendedByTable(s: Snapshot, s': Snapshot, k: Key, i: nat, p: nat)
    requires s'.placed == s.placed && p in s.m.pages && p !in s.placed && p !in s.m.key && !k.Low?
    requires k in s.m.tables && s.m.tables[k] in s.m.key && s.m.key.Keys !! s.placed.Keys && s.m.key.Keys <= s.m.pages.Keys
    requires s'.m.key == s.m.key[p := Child(k, i)] && s'.m.tables == s.m.tables[Child(k, i) := p]
    requires s'.m.pages.Keys == s.m.pages.Keys
    requires forall q :: q in s.m.pages && q != p && q != s.m.tables[k] ==> s'.m.pages[q] == s.m.pages[q]
    ensures Frame(s', k.root) == Frame(s, k.root)
  {
    assert Data(s') == Data(s);
    assert OtherKeys(s', k.root) == OtherKeys(s, k.root);
  }

  lemma RootTable(s: Machine, root: nat)
    requires Top(root) in s.m.tables
    ensures s.m.tables[Top(root)] == root
  {
  }

  /** A missing table leaves everything below it missing. */
  lemma MissingBelow(s: Machine, root: nat, vpn: nat, level: nat)
    requires level <= 2 && KeyAt(root, vpn, level) !in s.m.tables
    ensures LowKey(root, vpn) !in s.m.tables
  {
    var m := s.m;
    assert LowKey(root, vpn) in m.tables ==> HasParent(m, LowKey(root, vpn));
    assert Mid(root, Index(2, vpn)) in m.tables ==> HasParent(m, Mid(root, Index(2, vpn)));
  }

  // ---------------------------------------------------------------- mapping and unmapping

  lemma WrittenSound(s: Snapshot, s': Snapshot, root: nat, vpn: nat, w: Word)
    requires Sound(s) && vpn < MAXVPN && LowKey(root, vpn) in s.m.tables
    requires (forall p :: p in s.placed ==> s.placed[p] != User(root, vpn)) && (w == ZeroWord || Present(w))
    requires s' == Snapshot(Written(s.m, root, vpn, w), Updated(s.flat, root, vpn, w), s.freelist, s.placed)
    ensures Sound(s') && Frame(s', root) == Frame(s, root)
  {
    WrittenRepresents(s.m, root, vpn, w, s.flat);
    forall p | p in s.placed && s.placed[p].User?
      ensures At(s'.flat, s.placed[p].root, s.placed[p].vpn) == At(s.flat, s.placed[p].root, s.placed[p].vpn)
    {
      UpdatedAt(s.flat, root, vpn, w, s.placed[p].root, s.placed[p].vpn);
    }
    assert s.m.tables[LowKey(root, vpn)] in s.m.key;
    assert Data(s') == Data(s);
  }

  /** What the code reads in a last-level table is the word of the flat map. */
  lemma LeafWord(s: Snapshot, root: nat, vpn: nat)
    requires Sound(s) && vpn < MAXVPN
    ensures if LowKey(root, vpn) in s.m.tables
            then s.m.tables[LowKey(root, vpn)] in s.m.pages
                 && s.m.pages[s.m.tables[LowKey(root, vpn)]][Index(0, vpn)] == At(s.flat, root, vpn)
            else At(s.flat, root, vpn) == ZeroWord
    ensures !Present(At(s.flat, root, vpn)) ==> At(s.flat, root, vpn) == ZeroWord
    ensures !Present(At(s.flat, root, vpn)) || (At(s.flat, root, vpn).flags != LinkFlags && !Owned(s, root, vpn))
            ==> forall p :: p in s.placed ==> s.placed[p] != User(root, vpn)
  {
    assert Leaf(s.m, root, vpn) == At(s.flat, root, vpn);
  }

  lemma {:induction false} MapRangeAt(flat: Flat, root: nat, vpn: nat, ppn: nat, n: nat, flags: Flags, r: nat, v: nat)
    ensures At(MapRange(flat, root, vpn, ppn, n, flags), r, v)
            == if r == root && vpn <= v < vpn + n then Word(ppn + v - vpn, flags) else At(flat, r, v)
  {
    if n > 0 {
      MapRangeAt(flat, root, vpn, ppn, n - 1, flags, r, v);
      UpdatedAt(MapRange(flat, root, vpn, ppn, n - 1, flags), root, vpn + n - 1, Word(ppn + n - 1, flags), r, v);
    }
  }

  lemma MapTurn(flat: Flat, flat1: Flat, flat': Flat, root: nat, vpn: nat, ppn: nat, n: nat, flags: Flags, a: nat)
    requires a == vpn + n
    ensures MapsFresh(flat, flat1, root, vpn, ppn, n, flags) ==> At(flat1, root, a) == At(flat, root, a)
    ensures MapsFresh(flat, flat1, root, vpn, ppn, n, flags) && !Present(At(flat1, root, a))
            && flat' == Updated(flat1, root, a, Word(ppn + n, flags))
            ==> MapsFresh(flat, flat', root, vpn, ppn, n + 1, flags)
  {
    MapRangeAt(flat, root, vpn, ppn, n, flags, root, a);
  }

  // ---------------------------------------------------------------- address ranges

  predicate InRange(u: Use, root: nat, lo: nat, n: nat) {
    u.User? && u.root == root && lo <= u.vpn < lo + n
  }

  datatype Rest = Rest(flat: Flat, placed: map<nat, Use>, data: map<nat, Page>, others: map<nat, Key>, pages: set<nat>, rooted: bool)

  ghost function FlatOutside(flat: Flat, root: nat, lo: nat, n: nat): (f: Flat) {
    map a | a in flat && !(a.root == root && lo <= a.vpn < lo + n) :: flat[a]
  }

  ghost function PlacedOutside(placed: map<nat, Use>, root: nat, lo: nat, n: nat): (f: map<nat, Use>) {
    map p | p in placed && !InRange(placed[p], root, lo, n) :: placed[p]
  }

  ghost function DataOutside(s: Snapshot, root: nat, lo: nat, n: nat): (d: map<nat, Page>) {
    map p | p in s.placed && !InRange(s.placed[p], root, lo, n) && p in s.m.pages :: s.m.pages[p]
  }

  /** All that changes to pages lo .. lo+n of the address space of root must leave alone. */
  ghost function Outside(s: Snapshot, root: nat, lo: nat, n: nat): (r: Rest) {
    Rest(FlatOutside(s.flat, root, lo, n), PlacedOutside(s.placed, root, lo, n), DataOutside(s, root, lo, n),
         OtherKeys(s, root), s.m.pages.Keys, Top(root) in s.m.tables)
  }

  /** The page is mapped, by a word that uvmunmap accepts, to a page that the address space owns. */
  ghost predicate Owned(s: Snapshot, root: nat, v: nat) {
    var w := At(s.flat, root, v);
    Present(w) && w.flags != LinkFlags && w.ppn in s.placed && s.placed[w.ppn] == User(root, v)
  }

  /** uvmunmap does not panic on the page. */
  predicate Unmappable(flat: Flat, root: nat, v: nat) {
    v < MAXVPN && Present(At(flat, root, v)) && At(flat, root, v).flags != LinkFlags
  }

  ghost predicate OwnedRange(s: Snapshot, root: nat, lo: nat, n: nat) {
    forall v: nat {:trigger Owned(s, root, v)} :: lo <= v < lo + n ==> Owned(s, root, v)
  }

  ghost predicate EmptyRange(flat: Flat, root: nat, lo: nat, n: nat) {
    forall v: nat {:trigger At(flat, root, v)} :: lo <= v < lo + n ==> At(flat, root, v) == ZeroWord
  }

  lemma OutsideWider(s: Snapshot, s': Snapshot, root: nat, lo: nat, n: nat, lo': nat, n': nat)
    requires lo' <= lo && lo + n <= lo' + n'
    ensures Outside(s', root, lo, n) == Outside(s, root, lo, n) ==> Outside(s', root, lo', n') == Outside(s, root, lo', n')
  {
    if Outside(s', root, lo, n) == Outside(s, root, lo, n) {
      OutsideOfOutside(s, root, lo, n, lo', n');
      OutsideOfOutside(s', root, lo, n, lo', n');
    }
  }

  ghost function DataOfRest(r: Rest, root: nat, lo: nat, n: nat): (d: map<nat, Page>) {
    map p | p in r.placed && !InRange(r.placed[p], root, lo, n) && p in r.data :: r.data[p]
  }

  lemma OutsideOfOutside(s: Snapshot, root: nat, lo: nat, n: nat, lo': nat, n': nat)
    requires lo' <= lo && lo + n <= lo' + n'
    ensures FlatOutside(s.flat, root, lo', n') == FlatOutside(Outside(s, root, lo, n).flat, root, lo', n')
    ensures PlacedOutside(s.placed, root, lo', n') == PlacedOutside(Outside(s, root, lo, n).placed, root, lo', n')
    ensures DataOutside(s, root, lo', n') == DataOfRest(Outside(s, root, lo, n), root, lo', n')
  {
  }

  /** Pages outside the range keep their word, their owner and their contents. */
  lemma OutsideSame(s: Machine, s': Machine, root: nat, lo: nat, n: nat, r: nat, v: nat)
    requires Outside(s', root, lo, n) == Outside(s, root, lo, n) && !(r == root && lo <= v < lo + n)
    ensures At(s'.flat, r, v) == At(s.flat, r, v) && (Owned(s, r, v) <==> Owned(s', r, v))
    ensures Owned(s, r, v) ==> At(s.flat, r, v).ppn in s.m.pages && At(s.flat, r, v).ppn in s'.m.pages
                               && s'.m.pages[At(s.flat, r, v).ppn] == s.m.pages[At(s.flat, r, v).ppn]
  {
    FlatOutsideAt(s.flat, root, lo, n, r, v);
    FlatOutsideAt(s'.flat, root, lo, n, r, v);
    var p := At(s.flat, r, v).ppn;
    assert p in PlacedOutside(s.placed, root, lo, n) <==> p in s.placed && !InRange(s.placed[p], root, lo, n);
    assert p in PlacedOutside(s'.placed, root, lo, n) <==> p in s'.placed && !InRange(s'.placed[p], root, lo, n);
    if Owned(s, r, v) {
      assert p in DataOutside(s, root, lo, n);
      assert p in DataOutside(s', root, lo, n);
    }
  }

  lemma FlatOutsideAt(flat: Flat, root: nat, lo: nat, n: nat, r: nat, v: nat)
    ensures At(FlatOutside(flat, root, lo, n), r, v) == if r == root && lo <= v < lo + n then ZeroWord else At(flat, r, v)
  {
  }

  /** A change in the frame of one page and to its word only. */
  lemma FrameOutside(s: Snapshot, s': Snapshot, root: nat, v: nat, w: Word)
    requires Frame(s', root) == Frame(s, root) && s'.flat == Updated(s.flat, root, v, w)
    ensures Outside(s', root, v, 1) == Outside(s, root, v, 1)
  {
    assert FlatOutside(s'.flat, root, v, 1) == FlatOutside(s.flat, root, v, 1);
    assert DataOutside(s, root, v, 1) == map p | p in Data(s) && p in s.placed && !InRange(s.placed[p], root, v, 1) :: Data(s)[p];
    assert DataOutside(s', root, v, 1) == map p | p in Data(s') && p in s'.placed && !InRange(s'.placed[p], root, v, 1) :: Data(s')[p];
  }

  // ---------------------------------------------------------------- unmapping

  /** Clear the word of page v; the owned page behind it is given up to its caller. */
  ghost function GivenUp(s: Snapshot, root: nat, v: nat): (s': Snapshot)
    requires TablesOk(s.m) && LowKey(root, v) in s.m.tables
  {
    var p := At(s.flat, root, v).ppn;
    Snapshot(Written(s.m, root, v, ZeroWord), Updated(s.flat, root, v, ZeroWord), s.freelist,
             if p in s.placed && s.placed[p] == User(root, v) then s.placed[p := Held] else s.placed)
  }

  lemma GivenUpSound(s: Machine, root: nat, v: nat)
    requires v < MAXVPN && LowKey(root, v) in s.m.tables && Present(At(s.flat, root, v))
    ensures Sound(GivenUp(s, root, v))
  {
    var s' := GivenUp(s, root, v);
    WrittenRepresents(s.m, root, v, ZeroWord, s.flat);
    forall p | p in s'.placed && s'.placed[p].User?
      ensures At(s'.flat, s'.placed[p].root, s'.placed[p].vpn) == At(s.flat, s.placed[p].root, s.placed[p].vpn)
    {
      UpdatedAt(s.flat, root, v, ZeroWord, s.placed[p].root, s.placed[p].vpn);
    }
  }

  lemma GivenUpFreed(s: Machine, s': Machine, root: nat, v: nat)
    requires v < MAXVPN && LowKey(root, v) in s.m.tables && Owned(s, root, v)
    requires s' == HandedBack(GivenUp(s, root, v), At(s.flat, root, v).ppn)
    ensures Outside(s', root, v, 1) == Outside(s, root, v, 1) && At(s'.flat, root, v) == ZeroWord
  {
    var p := At(s.flat, root, v).ppn;
    var t := s.m.tables[LowKey(root, v)];
    assert t in s.m.key && t !in s.placed;
    assert s'.placed == s.placed - {p};
    assert forall q :: q in s.placed && InRange(s.placed[q], root, v, 1) ==> q == p;
    assert s'.m.pages.Keys == s.m.pages.Keys;
    FreedOutside(s, s', root, v, p, t);
  }

  lemma FreedOutside(s: Snapshot, s': Snapshot, root: nat, v: nat, p: nat, t: nat)
    requires s'.m.tables == s.m.tables && s'.m.key == s.m.key && s'.m.pages.Keys == s.m.pages.Keys
    requires s'.flat == Updated(s.flat, root, v, ZeroWord) && s'.placed == s.placed - {p} && t !in s.placed
    requires p in s.placed && s.placed[p] == User(root, v)
    requires forall q :: q in s.placed && InRange(s.placed[q], root, v, 1) ==> q == p
    requires forall q :: q in s.m.pages && q != p && q != t ==> s'.m.pages[q] == s.m.pages[q]
    ensures Outside(s', root, v, 1) == Outside(s, root, v, 1) && At(s'.flat, root, v) == ZeroWord
  {
    UpdatedAt(s.flat, root, v, ZeroWord, root, v);
    assert FlatOutside(s'.flat, root, v, 1) == FlatOutside(s.flat, root, v, 1);
    assert PlacedOutside(s'.placed, root, v, 1) == PlacedOutside(s.placed, root, v, 1);
    assert DataOutside(s', root, v, 1) == DataOutside(s, root, v, 1);
    assert OtherKeys(s', root) == OtherKeys(s, root);
  }

  /** Freeing the page and then clearing the word is giving the page up and then freeing it. */
  lemma FreedSound(s: Machine, s': Snapshot, root: nat, v: nat)
    requires v < MAXVPN && LowKey(root, v) in s.m.tables && Owned(s, root, v)
    requires var p := At(s.flat, root, v).ppn;
             var t := s.m.tables[LowKey(root, v)];
             && t in s.m.pages && p != t
             && s' == Snapshot(Memory(s.m.pages[p := Junk(JunkFree)][t := s.m.pages[t][Index(0, v) := ZeroWord]], s.m.tables, s.m.key),
                               Updated(s.flat, root, v, ZeroWord), [p] + s.freelist, s.placed - {p})
    ensures Sound(s') && Outside(s', root, v, 1) == Outside(s, root, v, 1) && At(s'.flat, root, v) == ZeroWord
  {
    hide UsersMapped, Accounted, Refines, EntriesOk, Outside;
    var p := At(s.flat, root, v).ppn;
    var mid := GivenUp(s, root, v);
    GivenUpSound(s, root, v);
    HandedBackSound(mid, p);
    assert HandedBack(mid, p).m.pages == s'.m.pages;
    assert HandedBack(mid, p).placed == s'.placed;
    GivenUpFreed(s, s', root, v);
  }

  lemma FrameKept(s: Machine, s': Machine, root: nat, v: nat)
    requires Frame(s', root) == Frame(s, root) && s'.flat == Updated(s.flat, root, v, ZeroWord)
    ensures Outside(s', root, v, 1) == Outside(s, root, v, 1) && At(s'.flat, root, v) == ZeroWord
  {
    FrameOutside(s, s', root, v, ZeroWord);
    UpdatedAt(s.flat, root, v, ZeroWord, root, v);
  }

  /** What uvmunmap asks of a page: with do_free it is owned, without it is not. */
  ghost predicate FreesOwned(s: Snapshot, root: nat, v: nat, doFree: bool) {
    Unmappable(s.flat, root, v) ==> (Owned(s, root, v) <==> doFree)
  }

  ghost predicate FreesOwnedRange(s: Snapshot, root: nat, lo: nat, n: nat, doFree: bool) {
    forall v: nat {:trigger FreesOwned(s, root, v, doFree)} :: lo <= v < lo + n ==> FreesOwned(s, root, v, doFree)
  }

  lemma UnmapTurn(s: Machine, s1: Machine, s2: Machine, root: nat, lo: nat, k: nat, n: nat, doFree: bool)
    requires k < n && Outside(s1, root, lo, k) == Outside(s, root, lo, k) && EmptyRange(s1.flat, root, lo, k)
    requires FreesOwnedRange(s, root, lo, n, doFree)
    requires Outside(s2, root, lo + k, 1) == Outside(s1, root, lo + k, 1) && At(s2.flat, root, lo + k) == ZeroWord
    ensures Outside(s2, root, lo, k + 1) == Outside(s, root, lo, k + 1) && EmptyRange(s2.flat, root, lo, k + 1)
  {
    hide Sound, Outside, Owned;
    OutsideWider(s, s1, root, lo, k, lo, k + 1);
    OutsideWider(s1, s2, root, lo + k, 1, lo, k + 1);
    forall v: nat | lo <= v < lo + k + 1
      ensures At(s2.flat, root, v) == ZeroWord
    {
      if v < lo + k {
        OutsideSame(s1, s2, root, lo + k, 1, root, v);
      }
    }
  }

  lemma UnmapNext(s: Machine, s1: Machine, root: nat, lo: nat, k: nat, n: nat, doFree: bool)
    requires k < n && Outside(s1, root, lo, k) == Outside(s, root, lo, k) && FreesOwnedRange(s, root, lo, n, doFree)
    ensures FreesOwned(s1, root, lo + k, doFree) && (Unmappable(s1.flat, root, lo + k) <==> Unmappable(s.flat, root, lo + k))
  {
    hide Sound, Outside, Owned;
    assert FreesOwned(s, root, lo + k, doFree);
    OutsideSame(s, s1, root, lo, k, root, lo + k);
  }

  // ---------------------------------------------------------------- placing pages

  /** Page v is mapped with these flags to an owned page with these contents. */
  ghost predicate Filled(s: Snapshot, root: nat, v: nat, flags: Flags, content: Page) {
    var w := At(s.flat, root, v);
    Owned(s, root, v) && w.flags == flags && w.ppn in s.m.pages && s.m.pages[w.ppn] == content
  }

  /** kalloc and the memset or memmove after it. */
  ghost function Taken(s: Snapshot, content: Page): (s': Snapshot)
    requires s.freelist != []
  {
    var p := s.freelist[0];
    Snapshot(Memory(s.m.pages[p := content], s.m.tables, s.m.key), s.flat, s.freelist[1..], s.placed[p := Held])
  }

  lemma TakenSound(s: Machine, content: Page)
    requires s.freelist != []
    ensures Sound(Taken(s, content))
  {
    hide UsersMapped, Proper, EntriesOk, Refines;
    HandedOutSound(s);
    OtherPages(HandedOut(s).m, Taken(s, content).m, s.flat);
  }

  /** The mapped page passes from its holder to the address space. */
  lemma AdoptedSound(s: Machine, p: nat, root: nat, v: nat)
    requires p in s.placed && s.placed[p].Held? && v < MAXVPN && Present(At(s.flat, root, v)) && At(s.flat, root, v).ppn == p
    ensures Sound(s.(placed := s.placed[p := User(root, v)]))
  {
  }

  lemma PlacedFrame(s: Machine, s3: Machine, root: nat, v: nat, p: nat, content: Page)
    requires s.freelist != [] && p == s.freelist[0] && Frame(s3, root) == Frame(Taken(s, content), root)
    ensures p in s.m.pages && p !in s.placed && p !in s.m.key
    ensures s3.placed == s.placed[p := Held] && s3.m.pages.Keys == s.m.pages.Keys
    ensures OtherKeys(s3, root) == OtherKeys(s, root) && (Top(root) in s3.m.tables <==> Top(root) in s.m.tables)
    ensures p in s3.m.pages && s3.m.pages[p] == content
    ensures forall q :: q in s.placed ==> q in s3.m.pages && q in s.m.pages && s3.m.pages[q] == s.m.pages[q]
  {
    HandedOutSound(s);
    var s2 := Taken(s, content);
    assert OtherKeys(s2, root) == OtherKeys(s, root);
    forall q | q in s2.placed
      ensures q in s3.m.pages && q in s2.m.pages && s3.m.pages[q] == s2.m.pages[q]
    {
      assert q in Data(s2) && q in Data(s3) && Data(s2)[q] == Data(s3)[q];
    }
  }

  lemma PlacedOutsideSame(s: Snapshot, s4: Snapshot, root: nat, v: nat, p: nat)
    requires p !in s.placed && s4.placed == s.placed[p := User(root, v)] && s4.m.pages.Keys == s.m.pages.Keys
    requires OtherKeys(s4, root) == OtherKeys(s, root) && (Top(root) in s4.m.tables <==> Top(root) in s.m.tables)
    requires forall q :: q in s.placed ==> q in s4.m.pages && q in s.m.pages && s4.m.pages[q] == s.m.pages[q]
    requires FlatOutside(s4.flat, root, v, 1) == FlatOutside(s.flat, root, v, 1)
    ensures Outside(s4, root, v, 1) == Outside(s, root, v, 1)
  {
    assert PlacedOutside(s4.placed, root, v, 1) == PlacedOutside(s.placed, root, v, 1);
    assert DataOutside(s4, root, v, 1) == DataOutside(s, root, v, 1);
  }

  lemma PlaceDone(s: Machine, s3: Machine, root: nat, v: nat, content: Page, flags: Flags)
    requires s.freelist != [] && Frame(s3, root) == Frame(Taken(s, content), root) && v < MAXVPN && flags.v && flags != LinkFlags
    requires s3.flat == Updated(s.flat, root, v, Word(s.freelist[0], flags))
    ensures var s4 := s3.(placed := s3.placed[s.freelist[0] := User(root, v)]);
            Sound(s4) && Outside(s4, root, v, 1) == Outside(s, root, v, 1) && Filled(s4, root, v, flags, content)
  {
    hide Sound, Outside, Frame;
    var p := s.freelist[0];
    PlacedFrame(s, s3, root, v, p, content);
    UpdatedAt(s.flat, root, v, Word(p, flags), root, v);
    AdoptedSound(s3, p, root, v);
    var s4 := s3.(placed := s3.placed[p := User(root, v)]);
    assert FlatOutside(s4.flat, root, v, 1) == FlatOutside(s.flat, root, v, 1);
    PlacedOutsideSame(s, s4, root, v, p);
  }

  lemma PlaceUndone(s: Machine, s3: Machine, root: nat, content: Page)
    requires s.freelist != [] && Frame(s3, root) == Frame(Taken(s, content), root)
    ensures s.freelist[0] in s3.placed && s3.placed[s.freelist[0]].Held?
    ensures Frame(HandedBack(s3, s.freelist[0]), root) == Frame(s, root)
  {
    hide Sound;
    var p := s.freelist[0];
    PlacedFrame(s, s3, root, 0, p, content);
    var s4 := HandedBack(s3, p);
    assert s4.placed == s.placed;
    assert Data(s4) == Data(s);
  }

  lemma FilledSame(s: Machine, s': Machine, root: nat, lo: nat, n: nat, r: nat, v: nat, flags: Flags, content: Page)
    requires Outside(s', root, lo, n) == Outside(s, root, lo, n) && !(r == root && lo <= v < lo + n)
    ensures Filled(s, r, v, flags, content) ==> Filled(s', r, v, flags, content)
  {
    hide Sound, Outside;
    OutsideSame(s, s', root, lo, n, r, v);
  }

  /** PTE_V|PTE_R|PTE_U and the caller's PTE_W and PTE_X. */
  function UserFlags(w: bool, x: bool): (f: Flags) {
    Flags(true, true, w, x, true, 0)
  }

  /** Page v is mapped for user access: readable, and writable and executable as given. */
  ghost predicate UserPage(flat: Flat, root: nat, v: nat, w: bool, x: bool) {
    var f := At(flat, root, v).flags;
    f.v && f.r && f.u && f.w == w && f.x == x
  }

  lemma FilledUser(s: Snapshot, root: nat, lo: nat, want: seq<Want>, w: bool, x: bool)
    requires FilledRange(s, root, lo, want) && forall i :: 0 <= i < |want| ==> want[i].flags == UserFlags(w, x)
    ensures forall v: nat :: lo <= v < lo + |want| ==> UserPage(s.flat, root, v, w, x)
  {
    forall v: nat | lo <= v < lo + |want|
      ensures UserPage(s.flat, root, v, w, x)
    {
      assert Filled(s, root, lo + (v - lo), want[v - lo].flags, want[v - lo].content);
    }
  }

  datatype Want = Want(flags: Flags, content: Page)

  /** The pages from lo on are mapped to owned pages with the given flags and contents. */
  ghost predicate FilledRange(s: Snapshot, root: nat, lo: nat, want: seq<Want>) {
    forall i: nat {:trigger want[i]} :: i < |want| ==> Filled(s, root, lo + i, want[i].flags, want[i].content)
  }

  lemma GrowTurn(s: Machine, s1: Machine, s2: Machine, root: nat, lo: nat, want: seq<Want>, w: Want)
    requires Outside(s1, root, lo, |want|) == Outside(s, root, lo, |want|) && FilledRange(s1, root, lo, want)
    requires Outside(s2, root, lo + |want|, 1) == Outside(s1, root, lo + |want|, 1)
    requires Filled(s2, root, lo + |want|, w.flags, w.content) && !Present(At(s1.flat, root, lo + |want|))
    requires EmptyRange(s.flat, root, lo, |want|)
    ensures Outside(s2, root, lo, |want| + 1) == Outside(s, root, lo, |want| + 1) && FilledRange(s2, root, lo, want + [w])
    ensures EmptyRange(s.flat, root, lo, |want| + 1)
  {
    hide Sound, Outside, Filled;
    OutsideWider(s, s1, root, lo, |want|, lo, |want| + 1);
    OutsideWider(s1, s2, root, lo + |want|, 1, lo, |want| + 1);
    OutsideSame(s, s1, root, lo, |want|, root, lo + |want|);
    ProperAt(s, root, lo + |want|);
    forall i: nat | i < |want| + 1
      ensures Filled(s2, root, lo + i, (want + [w])[i].flags, (want + [w])[i].content)
    {
      if i < |want| {
        FilledSame(s1, s2, root, lo + |want|, 1, root, lo + i, want[i].flags, want[i].content);
      }
    }
  }

  lemma ProperAt(s: Machine, root: nat, v: nat)
    ensures Present(At(s.flat, root, v)) || At(s.flat, root, v) == ZeroWord
  {
  }

  lemma FilledFrees(s: Machine, root: nat, lo: nat, want: seq<Want>)
    requires FilledRange(s, root, lo, want)
    ensures FreesOwnedRange(s, root, lo, |want|, true)
    ensures forall v: nat :: lo <= v < lo + |want| ==> Unmappable(s.flat, root, v)
  {
    forall v: nat | lo <= v < lo + |want|
      ensures Owned(s, root, v) && Unmappable(s.flat, root, v)
    {
      assert Filled(s, root, lo + (v - lo), want[v - lo].flags, want[v - lo].content);
    }
  }

  lemma FrameAll(s: Machine, s': Machine, root: nat, lo: nat, n: nat)
    requires Frame(s', root) == Frame(s, root) && s'.flat == s.flat
    ensures Outside(s', root, lo, n) == Outside(s, root, lo, n)
  {
    hide Sound;
    assert DataOutside(s, root, lo, n) == map p | p in Data(s) && p in s.placed && !InRange(s.placed[p], root, lo, n) :: Data(s)[p];
    assert DataOutside(s', root, lo, n) == map p | p in Data(s') && p in s'.placed && !InRange(s'.placed[p], root, lo, n) :: Data(s')[p];
  }

  lemma FilledFrame(s: Machine, s': Machine, root: nat, lo: nat, want: seq<Want>)
    requires Frame(s', root) == Frame(s, root) && s'.flat == s.flat && FilledRange(s, root, lo, want)
    ensures FilledRange(s', root, lo, want)
  {
    hide Sound, Outside, Filled;
    FrameAll(s, s', root, lo + |want|, 0);
    forall i: nat | i < |want|
      ensures Filled(s', root, lo + i, want[i].flags, want[i].content)
    {
      FilledSame(s, s', root, lo + |want|, 0, root, lo + i, want[i].flags, want[i].content);
    }
  }

  /** An empty range holds nothing, so that the outside is everything. */
  lemma EmptyOutside(s: Machine, root: nat, lo: nat, n: nat)
    requires EmptyRange(s.flat, root, lo, n)
    ensures FlatOutside(s.flat, root, lo, n) == s.flat && PlacedOutside(s.placed, root, lo, n) == s.placed
    ensures DataOutside(s, root, lo, n) == Data(s)
  {
    hide Represents, Accounted;
    forall a | a in s.flat
      ensures !(a.root == root && lo <= a.vpn < lo + n)
    {
      assert At(s.flat, a.root, a.vpn) == s.flat[a];
    }
  }

  /** A failed uvmalloc or uvmcopy is undone by unmapping what it placed. */
  lemma Undone(s: Machine, s1: Machine, s2: Machine, s3: Machine, root: nat, lo: nat, n: nat)
    requires Outside(s1, root, lo, n) == Outside(s, root, lo, n) && EmptyRange(s.flat, root, lo, n)
    requires Frame(s2, root) == Frame(s1, root) && s2.flat == s1.flat
    requires Outside(s3, root, lo, n) == Outside(s2, root, lo, n) && EmptyRange(s3.flat, root, lo, n)
    ensures Frame(s3, root) == Frame(s, root) && s3.flat == s.flat
  {
    hide Sound;
    FrameAll(s1, s2, root, lo, n);
    EmptyOutside(s, root, lo, n);
    EmptyOutside(s3, root, lo, n);
  }

  /** PGROUNDUP(sz) / PGSIZE */
  function PagesUp(sz: nat): (n: nat)
    ensures (n - 1) * PGSIZE < sz <= n * PGSIZE
  {
    (sz + PGSIZE - 1) / PGSIZE
  }

  lemma PagesUpExact(n: nat)
    ensures PagesUp(n * PGSIZE) == n
  {
  }

  lemma PagesUpMonotone(a: nat, b: nat)
    requires a <= b
    ensures PagesUp(a) <= PagesUp(b)
  {
  }

  // ---------------------------------------------------------------- whole address spaces

  lemma FreshRoot(s: Machine, root: nat, v: nat)
    requires root !in s.m.key && v < MAXVPN
    ensures Top(root) !in s.m.tables && LowKey(root, v) !in s.m.tables && At(s.flat, root, v) == ZeroWord
  {
    assert KeyAt(root, v, 2) == Top(root);
    MissingBelow(s, root, v, 2);
    LeafWord(s, root, v);
  }

  lemma RootedTables(m: Memory, root: nat)
    requires TablesOk(m) && Top(root) !in m.tables && root !in m.key
    ensures TablesOk(Memory(m.pages[root := ZeroPage()], m.tables[Top(root) := root], m.key[root := Top(root)]))
  {
    var m' := Memory(m.pages[root := ZeroPage()], m.tables[Top(root) := root], m.key[root := Top(root)]);
    forall k | k in m'.tables
      ensures HasParent(m', k)
    {
      assert k in m.tables ==> HasParent(m, k);
    }
  }

  lemma RootedRepresents(m: Memory, flat: Flat, root: nat)
    requires Represents(m, flat) && Top(root) !in m.tables && root !in m.key
    ensures Represents(Memory(m.pages[root := ZeroPage()], m.tables[Top(root) := root], m.key[root := Top(root)]), flat)
  {
    var m' := Memory(m.pages[root := ZeroPage()], m.tables[Top(root) := root], m.key[root := Top(root)]);
    RootedTables(m, root);
    forall k, i | k in m'.tables && !k.Low? && 0 <= i < ENTRIES
      ensures EntryOk(m', k, i)
    {
      if k in m.tables {
        assert EntryOk(m, k, i);
      } else {
        assert Child(k, i) in m.tables ==> HasParent(m, Child(k, i));
      }
    }
    forall r: nat, v: nat | v < MAXVPN
      ensures Leaf(m', r, v) == At(flat, r, v)
    {
      assert Leaf(m, r, v) == At(flat, r, v);
    }
  }

  lemma RootedSound(s: Machine, s': Snapshot, root: nat)
    requires s.freelist != [] && root == s.freelist[0]
    requires s' == Snapshot(Memory(HandedOut(s).m.pages[root := ZeroPage()], s.m.tables[Top(root) := root], s.m.key[root := Top(root)]),
                            s.flat, s.freelist[1..], s.placed[root := Held] - {root})
    ensures Sound(s') && Top(root) !in s.m.tables && EmptyRange(s.flat, root, 0, MAXVPN)
    ensures s'.placed == s.placed && Data(s') == Data(s) && OtherKeys(s', root) == s.m.key && s'.m.pages.Keys == s.m.pages.Keys
  {
    hide Represents, Proper, UsersMapped, Accounted;
    HandedOutSound(s);
    EmptyRoot(s, root);
    RootedRepresents(HandedOut(s).m, s.flat, root);
    RootedAccounted(s, s', root);
    RootedKeys(s, s', root);
  }

  lemma RootedAccounted(s: Snapshot, s': Snapshot, root: nat)
    requires s.freelist != [] && root == s.freelist[0] && Accounted(HandedOut(s)) && Accounted(s)
    requires s' == Snapshot(Memory(HandedOut(s).m.pages[root := ZeroPage()], s.m.tables[Top(root) := root], s.m.key[root := Top(root)]),
                            s.flat, s.freelist[1..], s.placed[root := Held] - {root})
    ensures Accounted(s') && s'.placed == s.placed && Data(s') == Data(s) && s'.m.pages.Keys == s.m.pages.Keys
  {
    assert root in s.freelist;
    assert s'.placed == s.placed;
    assert Data(s') == Data(s);
  }

  lemma EmptyRoot(s: Machine, root: nat)
    requires root !in s.m.key
    ensures Top(root) !in s.m.tables && EmptyRange(s.flat, root, 0, MAXVPN)
  {
    hide Sound;
    FreshRoot(s, root, 0);
    forall v: nat | 0 <= v < 0 + MAXVPN
      ensures At(s.flat, root, v) == ZeroWord
    {
      FreshRoot(s, root, v);
    }
  }

  lemma RootedKeys(s: Machine, s': Snapshot, root: nat)
    requires root !in s.m.key && s'.m.key == s.m.key[root := Top(root)]
    ensures OtherKeys(s', root) == s.m.key
  {
    forall p | p in s.m.key
      ensures s.m.key[p].root != root
    {
      var k := s.m.key[p];
      assert k in s.m.tables && HasParent(s.m, k);
      assert k.Low? ==> Mid(k.root, k.i) in s.m.tables && HasParent(s.m, Mid(k.root, k.i));
      assert Top(k.root) in s.m.tables;
    }
  }

  /** The flags and the contents of page v, as a copy of it should have them. */
  ghost function CopyAt(s: Snapshot, root: nat, v: nat): (w: Want) {
    var a := At(s.flat, root, v);
    Want(a.flags, if a.ppn in s.m.pages then s.m.pages[a.ppn] else ZeroPage())
  }

  ghost function CopyOf(s: Snapshot, root: nat, n: nat): (want: seq<Want>)
    ensures |want| == n && forall i :: 0 <= i < n ==> want[i] == CopyAt(s, root, i)
  {
    if n == 0 then [] else CopyOf(s, root, n - 1) + [CopyAt(s, root, n - 1)]
  }

  /** Changes in one address space keep the roots of the others. */
  lemma OtherRoot(s: Machine, s': Machine, root: nat, lo: nat, n: nat, r: nat)
    requires Outside(s', root, lo, n) == Outside(s, root, lo, n) && r != root && Top(r) in s.m.tables
    ensures Top(r) in s'.m.tables
  {
    hide Accounted, Proper, UsersMapped;
    assert s.m.tables[Top(r)] == r && r in OtherKeys(s, root);
    assert r in OtherKeys(s', root) && OtherKeys(s', root)[r] == Top(r);
  }

  /** The pages of an address space after a change of their number: new ones are zero. */
  ghost function Fitted(image: seq<Want>, n: nat): (r: seq<Want>) {
    if n <= |image| then image[..n] else image + seq(n - |image|, i => Want(UserFlags(true, false), ZeroPage()))
  }

  lemma ImageKept(s: Machine, s': Machine, root: nat, lo: nat, n: nat, m: nat)
    requires Outside(s', root, lo, n) == Outside(s, root, lo, n) && m <= lo && OwnedRange(s, root, 0, m)
    ensures CopyOf(s', root, m) == CopyOf(s, root, m)
  {
    hide Sound, Outside, CopyOf;
    forall v: nat | v < m
      ensures CopyAt(s', root, v) == CopyAt(s, root, v)
    {
      assert Owned(s, root, v);
      OutsideSame(s, s', root, lo, n, root, v);
    }
  }

  lemma ImageGrown(s: Machine, s': Machine, root: nat, lo: nat, want: seq<Want>)
    requires Outside(s', root, lo, |want|) == Outside(s, root, lo, |want|) && OwnedRange(s, root, 0, lo)
    requires FilledRange(s', root, lo, want) && forall i :: 0 <= i < |want| ==> want[i] == Want(UserFlags(true, false), ZeroPage())
    ensures CopyOf(s', root, lo + |want|) == Fitted(CopyOf(s, root, lo), lo + |want|)
  {
    hide Sound, Outside, CopyOf;
    ImageKept(s, s', root, lo, |want|, lo);
    var image := CopyOf(s', root, lo + |want|);
    forall v | 0 <= v < lo + |want|
      ensures image[v] == if v < lo then CopyOf(s, root, lo)[v] else Want(UserFlags(true, false), ZeroPage())
    {
      if v < lo {
        assert image[v] == CopyOf(s', root, lo)[v];
      } else {
        assert Filled(s', root, lo + (v - lo), want[v - lo].flags, want[v - lo].content);
      }
    }
    assert image == Fitted(CopyOf(s, root, lo), lo + |want|);
  }

  // ---------------------------------------------------------------- freeing a tree

  function Height(k: Key): (h: nat) {
    if k.Top? then 2 else if k.Mid? then 1 else 0
  }

  /** The pages of the tables of tab at and below k. */
  ghost function Pages(tab: map<Key, nat>, k: Key): (ps: set<nat>) {
    set j | j in tab && Under(k, j) :: tab[j]
  }

  /** The pages of the tables of tab below the first i entries of k. */
  ghost function PagesBefore(tab: map<Key, nat>, k: Key, i: nat): (ps: set<nat>) {
    set j | j in tab && Under(k, j) && j != k && Branch(k, j) < i :: tab[j]
  }

  /** The entry of k below which j hangs. */
  function Branch(k: Key, j: Key): (i: nat) {
    if j.Top? then 0 else if k.Top? then j.i else if j.Low? then j.j else 0
  }

  ghost predicate ParentIn(tab: map<Key, nat>, j: Key) {
    && (j.Mid? ==> Top(j.root) in tab && j.i < SPAN)
    && (j.Low? ==> Mid(j.root, j.i) in tab && j.j < ENTRIES)
  }

  /** Entry i of table j links the table below it, or, in a last-level table, is a leaf or zero. */
  ghost predicate SlotOk(pages: map<nat, Page>, tab: map<Key, nat>, j: Key, i: nat)
    requires j in tab && i < ENTRIES
  {
    && tab[j] in pages
    && var w := pages[tab[j]][i];
       if j.Low? then Present(w) ==> IsLeaf(w)
       else w == if Child(j, i) in tab then Word(tab[Child(j, i)], LinkFlags) else ZeroWord
  }

  ghost predicate Shape(pages: map<nat, Page>, tab: map<Key, nat>, k: Key) {
    forall j, i {:trigger SlotOk(pages, tab, j, i)} :: j in tab && Under(k, j) && 0 <= i < ENTRIES ==> SlotOk(pages, tab, j, i)
  }

  ghost predicate Family(tab: map<Key, nat>) {
    && (forall j {:trigger ParentIn(tab, j)} :: j in tab ==> ParentIn(tab, j))
    && (forall j, l :: j in tab && l in tab && tab[j] == tab[l] ==> j == l)
  }

  ghost predicate AllHeld(placed: map<nat, Use>, ps: set<nat>) {
    forall p :: p in ps ==> p in placed && placed[p].Held?
  }

  /** The tables of tab at and below k are held pages, linked as tab says. */
  ghost predicate Subtree(s: Snapshot, tab: map<Key, nat>, k: Key) {
    Family(tab) && Shape(s.m.pages, tab, k) && AllHeld(s.placed, Pages(tab, k))
  }

  ghost predicate LeafFree(pages: map<nat, Page>, p: nat) {
    p in pages && forall x :: 0 <= x < ENTRIES ==> !Present(pages[p][x])
  }

  ghost predicate NoLeaf(pages: map<nat, Page>, tab: map<Key, nat>, k: Key) {
    forall j :: j in tab && Under(k, j) && j.Low? ==> LeafFree(pages, tab[j])
  }

  /** The held pages ps were freed, and no other page was touched. */
  ghost predicate Released(s: Snapshot, s': Snapshot, ps: set<nat>) {
    && s'.m.tables == s.m.tables && s'.m.key == s.m.key && s'.flat == s.flat
    && s'.m.pages.Keys == s.m.pages.Keys && s'.placed == s.placed - ps
    && forall p :: p in s.m.pages && p !in ps ==> s'.m.pages[p] == s.m.pages[p]
  }

  /** freewalk has dealt with the first i entries of k. */
  ghost predicate Partway(s: Snapshot, s': Snapshot, tab: map<Key, nat>, k: Key, i: nat) {
    && i <= ENTRIES && k in tab && Subtree(s, tab, k) && tab[k] in s.m.pages && tab[k] in s'.m.pages
    && s'.m.tables == s.m.tables && s'.m.key == s.m.key && s'.flat == s.flat
    && s'.m.pages.Keys == s.m.pages.Keys && s'.placed == s.placed - PagesBefore(tab, k, i)
    && (forall p :: p in s.m.pages && p !in PagesBefore(tab, k, i) && p != tab[k] ==> s'.m.pages[p] == s.m.pages[p])
    && (forall x :: i <= x < ENTRIES ==> s'.m.pages[tab[k]][x] == s.m.pages[tab[k]][x])
    && (forall j :: j in tab && Under(k, j) && j != k && Branch(k, j) < i && j.Low? ==> LeafFree(s.m.pages, tab[j]))
    && (k.Low? ==> forall x :: 0 <= x < i ==> !Present(s.m.pages[tab[k]][x]))
  }

  lemma StartPartway(s: Snapshot, tab: map<Key, nat>, k: Key)
    requires k in tab && Subtree(s, tab, k)
    ensures Partway(s, s, tab, k, 0)
  {
    assert SlotOk(s.m.pages, tab, k, 0);
    assert PagesBefore(tab, k, 0) == {};
  }

  lemma UnderChild(k: Key, j: Key, i: nat)
    requires Under(k, j) || (!k.Low? && Under(Child(k, i), j))
    ensures k.Low? ==> j == k
    ensures !k.Low? ==> (Under(Child(k, i), j) <==> j != k && Branch(k, j) == i) && Under(k, j)
  {
  }

  lemma PagesBeforeNext(tab: map<Key, nat>, k: Key, i: nat)
    ensures PagesBefore(tab, k, i + 1) == PagesBefore(tab, k, i) + if k.Low? then {} else Pages(tab, Child(k, i))
  {
    var ps := PagesBefore(tab, k, i) + if k.Low? then {} else Pages(tab, Child(k, i));
    forall p
      ensures p in PagesBefore(tab, k, i + 1) <==> p in ps
    {
      if p in PagesBefore(tab, k, i + 1) {
        var j :| j in tab && Under(k, j) && j != k && Branch(k, j) < i + 1 && tab[j] == p;
        UnderChild(k, j, i);
      }
      if !k.Low? && p in Pages(tab, Child(k, i)) {
        var j :| j in tab && Under(Child(k, i), j) && tab[j] == p;
        UnderChild(k, j, i);
      }
    }
  }

  /** The tables below entry i of k are none of those dealt with before, and not k. */
  lemma ChildUntouched(s0: Snapshot, s1: Snapshot, tab: map<Key, nat>, k: Key, i: nat, j: Key)
    requires Partway(s0, s1, tab, k, i) && !k.Low? && j in tab && Under(Child(k, i), j)
    ensures tab[j] !in PagesBefore(tab, k, i) && tab[j] != tab[k] && tab[j] in Pages(tab, k) && tab[j] in s0.placed
    ensures tab[j] in s0.m.pages ==> tab[j] in s1.m.pages && s1.m.pages[tab[j]] == s0.m.pages[tab[j]]
  {
    UnderChild(k, j, i);
    assert tab[j] in Pages(tab, k);
  }

  lemma ChildSubtree(s0: Snapshot, s1: Snapshot, tab: map<Key, nat>, k: Key, i: nat)
    requires Partway(s0, s1, tab, k, i) && !k.Low?
    ensures Subtree(s1, tab, Child(k, i))
    ensures NoLeaf(s1.m.pages, tab, Child(k, i)) <==> NoLeaf(s0.m.pages, tab, Child(k, i))
  {
    hide Partway, Pages;
    assert Family(tab) by {
      PartwaySubtree(s0, s1, tab, k, i);
    }
    forall j | j in tab && Under(Child(k, i), j)
      ensures tab[j] in s1.placed && s1.placed[tab[j]].Held? && tab[j] in s0.m.pages && tab[j] in s1.m.pages
      ensures s1.m.pages[tab[j]] == s0.m.pages[tab[j]]
      ensures forall x :: 0 <= x < ENTRIES ==> SlotOk(s1.m.pages, tab, j, x)
    {
      ChildTable(s0, s1, tab, k, i, j);
    }
    ChildHeld(s1, tab, Child(k, i));
  }

  lemma PartwaySubtree(s0: Snapshot, s1: Snapshot, tab: map<Key, nat>, k: Key, i: nat)
    requires Partway(s0, s1, tab, k, i)
    ensures Family(tab) && Shape(s0.m.pages, tab, k) && AllHeld(s0.placed, Pages(tab, k))
  {
  }

  lemma ChildHeld(s: Snapshot, tab: map<Key, nat>, k: Key)
    requires forall j :: j in tab && Under(k, j) ==> tab[j] in s.placed && s.placed[tab[j]].Held?
    ensures AllHeld(s.placed, Pages(tab, k))
  {
  }

  lemma ChildTable(s0: Snapshot, s1: Snapshot, tab: map<Key, nat>, k: Key, i: nat, j: Key)
    requires Partway(s0, s1, tab, k, i) && !k.Low? && j in tab && Under(Child(k, i), j)
    ensures tab[j] in s1.placed && s1.placed[tab[j]].Held? && tab[j] in s0.m.pages && tab[j] in s1.m.pages
    ensures s1.m.pages[tab[j]] == s0.m.pages[tab[j]]
    ensures forall x :: 0 <= x < ENTRIES ==> SlotOk(s1.m.pages, tab, j, x)
  {
    UnderChild(k, j, i);
    assert SlotOk(s0.m.pages, tab, j, 0);
    ChildUntouched(s0, s1, tab, k, i, j);
    forall x | 0 <= x < ENTRIES
      ensures SlotOk(s1.m.pages, tab, j, x)
    {
      assert SlotOk(s0.m.pages, tab, j, x);
    }
  }

  lemma EntryCases(s0: Snapshot, s1: Snapshot, tab: map<Key, nat>, k: Key, i: nat)
    requires Partway(s0, s1, tab, k, i) && i < ENTRIES
    ensures k in tab && tab[k] in s1.m.pages
    ensures var w := s1.m.pages[tab[k]][i];
            && (Present(w) && !IsLeaf(w) ==> !k.Low? && Child(k, i) in tab && w.ppn == tab[Child(k, i)] && Subtree(s1, tab, Child(k, i)))
            && (Present(w) && IsLeaf(w) ==> !NoLeaf(s0.m.pages, tab, k))
            && (!Present(w) ==> Partway(s0, s1, tab, k, i + 1))
  {
    assert SlotOk(s0.m.pages, tab, k, i);
    PagesBeforeNext(tab, k, i);
    if !k.Low? {
      ChildSubtree(s0, s1, tab, k, i);
      if Child(k, i) !in tab {
        NoChild(tab, k, i);
      }
    } else {
      assert NoLeaf(s0.m.pages, tab, k) ==> LeafFree(s0.m.pages, tab[k]);
    }
  }

  lemma NoChild(tab: map<Key, nat>, k: Key, i: nat)
    requires Family(tab) && !k.Low? && Child(k, i) !in tab
    ensures forall j :: j in tab ==> !Under(Child(k, i), j)
    ensures Pages(tab, Child(k, i)) == {}
    ensures forall j :: j in tab && Under(k, j) && j != k ==> Branch(k, j) != i
  {
    forall j | j in tab
      ensures !Under(Child(k, i), j) && (Under(k, j) && j != k ==> Branch(k, j) != i)
    {
      assert ParentIn(tab, j);
    }
  }

  lemma ChildLeaf(s0: Snapshot, s1: Snapshot, tab: map<Key, nat>, k: Key, i: nat)
    requires Partway(s0, s1, tab, k, i) && !k.Low? && !NoLeaf(s1.m.pages, tab, Child(k, i))
    ensures !NoLeaf(s0.m.pages, tab, k)
  {
    ChildSubtree(s0, s1, tab, k, i);
    var j :| j in tab && Under(Child(k, i), j) && j.Low? && !LeafFree(s0.m.pages, tab[j]);
    UnderChild(k, j, i);
  }

  /** The freed subtree's entry, zeroed. */
  ghost function Zeroed(s: Snapshot, t: nat, i: nat): (s': Snapshot)
    requires t in s.m.pages && i < ENTRIES
  {
    s.(m := s.m.(pages := s.m.pages[t := s.m.pages[t][i := ZeroWord]]))
  }

  lemma ZeroedSound(s: Machine, t: nat, i: nat)
    requires t in s.m.pages && t in s.placed && i < ENTRIES
    ensures Sound(Zeroed(s, t, i))
  {
    hide Proper, UsersMapped, EntriesOk, Refines;
    OtherPages(s.m, Zeroed(s, t, i).m, s.flat);
  }

  lemma ChildReleased(s0: Machine, s1: Machine, s2: Machine, tab: map<Key, nat>, k: Key, i: nat)
    requires Partway(s0, s1, tab, k, i) && i < ENTRIES && !k.Low?
    requires NoLeaf(s1.m.pages, tab, Child(k, i)) && Released(s1, s2, Pages(tab, Child(k, i)))
    ensures k in tab && tab[k] in s2.m.pages
    ensures Sound(Zeroed(s2, tab[k], i)) && Partway(s0, Zeroed(s2, tab[k], i), tab, k, i + 1)
  {
    hide Sound;
    KeepsParent(s0, s1, s2, tab, k, i);
    ZeroedSound(s2, tab[k], i);
    PagesBeforeNext(tab, k, i);
    ChildSubtree(s0, s1, tab, k, i);
    LeafFreeBefore(s0, tab, k, i);
    PartwayNext(s0, s1, s2, tab, k, i);
  }

  lemma KeepsParent(s0: Snapshot, s1: Snapshot, s2: Snapshot, tab: map<Key, nat>, k: Key, i: nat)
    requires Partway(s0, s1, tab, k, i) && i < ENTRIES && !k.Low? && Released(s1, s2, Pages(tab, Child(k, i)))
    ensures tab[k] in s2.m.pages && s2.m.pages[tab[k]] == s1.m.pages[tab[k]] && tab[k] in s2.placed
  {
    assert tab[k] !in Pages(tab, Child(k, i));
    assert tab[k] !in PagesBefore(tab, k, i);
    assert Under(k, k) && tab[k] in Pages(tab, k);
  }

  lemma LeafFreeBefore(s0: Snapshot, tab: map<Key, nat>, k: Key, i: nat)
    requires !k.Low? && NoLeaf(s0.m.pages, tab, Child(k, i))
    ensures forall j :: j in tab && Under(k, j) && j != k && Branch(k, j) == i && j.Low? ==> LeafFree(s0.m.pages, tab[j])
  {
    forall j | j in tab && Under(k, j) && j != k && Branch(k, j) == i && j.Low?
      ensures LeafFree(s0.m.pages, tab[j])
    {
      UnderChild(k, j, i);
    }
  }

  lemma PartwayNext(s0: Snapshot, s1: Snapshot, s2: Snapshot, tab: map<Key, nat>, k: Key, i: nat)
    requires Partway(s0, s1, tab, k, i) && i < ENTRIES && !k.Low? && Released(s1, s2, Pages(tab, Child(k, i)))
    requires tab[k] in s2.m.pages && s2.m.pages[tab[k]] == s1.m.pages[tab[k]]
    requires PagesBefore(tab, k, i + 1) == PagesBefore(tab, k, i) + Pages(tab, Child(k, i))
    requires forall j :: j in tab && Under(k, j) && j != k && Branch(k, j) == i && j.Low? ==> LeafFree(s0.m.pages, tab[j])
    ensures Partway(s0, Zeroed(s2, tab[k], i), tab, k, i + 1)
  {
    hide Subtree, Pages, PagesBefore, LeafFree;
  }

  lemma AllPartway(s0: Snapshot, s: Snapshot, tab: map<Key, nat>, k: Key)
    requires Partway(s0, s, tab, k, ENTRIES)
    ensures k in tab && tab[k] in s.placed && s.placed[tab[k]].Held?
    ensures NoLeaf(s0.m.pages, tab, k) && Released(s0, HandedBack(s, tab[k]), Pages(tab, k))
  {
    AllBefore(tab, k);
    assert Under(k, k) && tab[k] in Pages(tab, k);
    assert tab[k] !in PagesBefore(tab, k, ENTRIES);
    forall j | j in tab && Under(k, j) && j.Low?
      ensures LeafFree(s0.m.pages, tab[j])
    {
      if j != k {
        BranchBound(tab, k, j);
      }
    }
  }

  lemma BranchBound(tab: map<Key, nat>, k: Key, j: Key)
    requires Family(tab) && j in tab && Under(k, j) && j != k
    ensures Branch(k, j) < ENTRIES
  {
    assert ParentIn(tab, j);
    assert j.Low? ==> ParentIn(tab, Mid(j.root, j.i));
  }

  lemma AllBefore(tab: map<Key, nat>, k: Key)
    requires Family(tab) && k in tab
    ensures Pages(tab, k) == PagesBefore(tab, k, ENTRIES) + {tab[k]}
  {
    forall p
      ensures p in Pages(tab, k) <==> p in PagesBefore(tab, k, ENTRIES) + {tab[k]}
    {
      if p in Pages(tab, k) {
        var j :| j in tab && Under(k, j) && tab[j] == p;
        if j != k {
          BranchBound(tab, k, j);
        }
      }
      assert Under(k, k);
    }
  }

  // ---------------------------------------------------------------- freeing an address space

  /** The tables and the pages of an address space, all held by whoever frees them. */
  function Detached(s: Snapshot, root: nat): (s': Snapshot) {
    Snapshot(Memory(s.m.pages, PrunedTables(s.m.tables, Top(root)), PrunedKeys(s.m.key, Top(root))), FlatWithout(s.flat, root), s.freelist,
             map p | p in s.placed.Keys + s.m.key.Keys && (p in s.placed || s.m.key[p].root == root) ::
               if p in s.placed && !(s.placed[p].User? && s.placed[p].root == root) then s.placed[p] else Held)
  }

  lemma DetachedSound(s: Machine, root: nat)
    ensures Sound(Detached(s, root))
  {
    hide Tree, Refines;
    PrunedRepresents(s.m, root, s.flat);
    var s' := Detached(s, root);
    forall p | p in s'.placed && s'.placed[p].User?
      ensures At(s'.flat, s'.placed[p].root, s'.placed[p].vpn) == At(s.flat, s.placed[p].root, s.placed[p].vpn)
    {
    }
  }

  lemma TreeFamily(s: Machine)
    ensures Family(s.m.tables)
  {
    forall j | j in s.m.tables
      ensures ParentIn(s.m.tables, j)
    {
      assert HasParent(s.m, j);
    }
  }

  lemma LowSlot(s: Machine, k: Key, x: nat)
    requires k.Low? && k in s.m.tables && x < ENTRIES
    ensures s.m.tables[k] in s.m.pages
    ensures exists v: nat :: v < MAXVPN && s.m.pages[s.m.tables[k]][x] == At(s.flat, k.root, v)
  {
    TreeFamily(s);
    assert ParentIn(s.m.tables, k) && ParentIn(s.m.tables, Mid(k.root, k.i));
    var v := IndexSurjective(k.i, k.j, x);
    assert LowKey(k.root, v) == k;
    LeafWord(s, k.root, v);
  }

  ghost predicate LeavesOnly(flat: Flat, root: nat) {
    forall v: nat {:trigger At(flat, root, v)} :: v < MAXVPN && Present(At(flat, root, v)) ==> IsLeaf(At(flat, root, v))
  }

  lemma DetachedSubtree(s: Machine, root: nat)
    requires Top(root) in s.m.tables && LeavesOnly(s.flat, root)
    ensures Subtree(Detached(s, root), s.m.tables, Top(root))
  {
    TreeFamily(s);
    forall j, i | j in s.m.tables && Under(Top(root), j) && 0 <= i < ENTRIES
      ensures SlotOk(s.m.pages, s.m.tables, j, i)
    {
      if j.Low? {
        LowSlot(s, j, i);
      } else {
        assert EntryOk(s.m, j, i);
      }
    }
  }

  /** freewalk finds a mapping exactly when there is one. */
  lemma NoLeafEmpty(s: Machine, root: nat)
    ensures NoLeaf(s.m.pages, s.m.tables, Top(root)) <==> EmptyRange(s.flat, root, 0, MAXVPN)
  {
    if NoLeaf(s.m.pages, s.m.tables, Top(root)) {
      forall v: nat | 0 <= v < 0 + MAXVPN
        ensures At(s.flat, root, v) == ZeroWord
      {
        LeafWord(s, root, v);
        assert LowKey(root, v) in s.m.tables ==> LeafFree(s.m.pages, s.m.tables[LowKey(root, v)]);
      }
    }
    if EmptyRange(s.flat, root, 0, MAXVPN) {
      forall j | j in s.m.tables && Under(Top(root), j) && j.Low?
        ensures LeafFree(s.m.pages, s.m.tables[j])
      {
        assert s.m.tables[j] in s.m.pages;
        forall x | 0 <= x < ENTRIES
          ensures !Present(s.m.pages[s.m.tables[j]][x])
        {
          LowSlot(s, j, x);
        }
      }
    }
  }

  /** Nothing of the address space is left, and nothing else has changed. */
  ghost predicate Gone(s: Snapshot, s': Snapshot, root: nat) {
    && s'.flat == FlatWithout(s.flat, root) && s'.m.key == OtherKeys(s, root) && s'.m.pages.Keys == s.m.pages.Keys
    && s'.placed == PlacedOutside(s.placed, root, 0, MAXVPN) && Data(s') == DataOutside(s, root, 0, MAXVPN)
  }

  lemma DetachedReleased(s: Machine, s': Machine, root: nat)
    requires EmptyRange(s.flat, root, 0, MAXVPN) && Released(Detached(s, root), s', Pages(s.m.tables, Top(root)))
    ensures Gone(s, s', root)
  {
    hide Sound;
    RootPages(s, root);
    NoUsers(s, root);
    EmptyOutside(s, root, 0, MAXVPN);
    DetachedPlaced(s, s', root);
    assert s'.m.key == OtherKeys(s, root);
    assert Data(s') == Data(s);
  }

  lemma NoUsers(s: Machine, root: nat)
    requires EmptyRange(s.flat, root, 0, MAXVPN)
    ensures forall p :: p in s.placed ==> p !in s.m.key && p in s.m.pages && !(s.placed[p].User? && s.placed[p].root == root)
  {
    hide Represents, Proper;
  }

  lemma DetachedPlaced(s: Snapshot, s': Snapshot, root: nat)
    requires forall p :: p in s.placed ==> p !in s.m.key && p in s.m.pages && !(s.placed[p].User? && s.placed[p].root == root)
    requires s'.placed == Detached(s, root).placed - set p | p in s.m.key && s.m.key[p].root == root
    ensures s'.placed == s.placed
  {
  }

  lemma RootPages(s: Machine, root: nat)
    ensures Pages(s.m.tables, Top(root)) == set p | p in s.m.key && s.m.key[p].root == root
  {
    forall p
      ensures p in Pages(s.m.tables, Top(root)) <==> p in s.m.key && s.m.key[p].root == root
    {
      if p in s.m.key && s.m.key[p].root == root {
        assert s.m.key[p] in s.m.tables && Under(Top(root), s.m.key[p]);
      }
    }
  }

  ghost predicate EmptyAbove(flat: Flat, root: nat, lo: nat) {
    forall v: nat {:trigger At(flat, root, v)} :: lo <= v < MAXVPN ==> At(flat, root, v) == ZeroWord
  }

  lemma UnmappedBelow(s0: Machine, s1: Machine, root: nat, n: nat)
    requires Outside(s1, root, 0, n) == Outside(s0, root, 0, n) && EmptyRange(s1.flat, root, 0, n) && LeavesOnly(s0.flat, root)
    ensures LeavesOnly(s1.flat, root) && (EmptyRange(s1.flat, root, 0, MAXVPN) <==> EmptyAbove(s0.flat, root, n))
  {
    hide Sound, Outside, Owned;
    forall v: nat | v >= n
      ensures At(s1.flat, root, v) == At(s0.flat, root, v)
    {
      OutsideSame(s0, s1, root, 0, n, root, v);
    }
    forall v: nat | v < MAXVPN && Present(At(s1.flat, root, v))
      ensures IsLeaf(At(s1.flat, root, v))
    {
      assert At(s0.flat, root, v) == At(s1.flat, root, v);
    }
    if EmptyRange(s1.flat, root, 0, MAXVPN) {
      forall v: nat | n <= v < MAXVPN
        ensures At(s0.flat, root, v) == ZeroWord
      {
        assert At(s1.flat, root, v) == ZeroWord;
      }
    }
    if EmptyAbove(s0.flat, root, n) {
      forall v: nat | 0 <= v < 0 + MAXVPN
        ensures At(s1.flat, root, v) == ZeroWord
      {
        assert v >= n ==> At(s0.flat, root, v) == ZeroWord;
      }
    }
  }

  lemma AllBelowMax(flat: Flat, root: nat, n: nat)
    requires forall v: nat :: v < n ==> Unmappable(flat, root, v)
    ensures n <= MAXVPN
  {
    assert n > MAXVPN ==> !Unmappable(flat, root, MAXVPN);
  }

  lemma GoneVia(s0: Machine, s1: Machine, s2: Machine, root: nat, n: nat)
    requires Outside(s1, root, 0, n) == Outside(s0, root, 0, n) && n <= MAXVPN && Gone(s1, s2, root)
    ensures Gone(s0, s2, root)
  {
    hide Sound;
    OutsideWider(s0, s1, root, 0, n, 0, MAXVPN);
    assert FlatWithout(s1.flat, root) == FlatWithout(FlatOutside(s1.flat, root, 0, n), root);
    assert FlatWithout(s0.flat, root) == FlatWithout(FlatOutside(s0.flat, root, 0, n), root);
  }

  // ---------------------------------------------------------------- conservation

  ghost function FreeSet(s: Snapshot): (ps: set<nat>) {
    Elements(s.freelist)
  }

  /** The free pages are those that are not a table and not placed. */
  lemma FreeSetIs(s: Machine)
    ensures FreeSet(s) == s.m.pages.Keys - s.placed.Keys - s.m.key.Keys
    ensures |FreeSet(s)| == |s.freelist| && |s.freelist| + |s.placed| + |s.m.key| == |s.m.pages|
  {
    hide Represents, UsersMapped, Proper;
    FreeSetParts(s);
    DistinctCount(s.freelist);
    ThreeParts(FreeSet(s), s.placed.Keys, s.m.key.Keys);
  }

  lemma FreeSetParts(s: Snapshot)
    requires Accounted(s)
    ensures FreeSet(s) == s.m.pages.Keys - s.placed.Keys - s.m.key.Keys && s.m.pages.Keys == FreeSet(s) + s.placed.Keys + s.m.key.Keys
  {
  }

  lemma ThreeParts(a: set<nat>, b: set<nat>, c: set<nat>)
    requires a !! b && a !! c && b !! c
    ensures |a + b + c| == |a| + |b| + |c|
  {
    assert (a + b) !! c;
  }

  // ---------------------------------------------------------------- the life of an address space

  /** The user memory of a process of size sz: pages 0 .. PGROUNDUP(sz) are its own, and no other is mapped. */
  ghost predicate Space(s: Snapshot, root: nat, sz: nat) {
    && Top(root) in s.m.tables && PagesUp(sz) <= MAXVPN
    && OwnedRange(s, root, 0, PagesUp(sz)) && EmptyAbove(s.flat, root, PagesUp(sz)) && LeavesOnly(s.flat, root)
  }

  lemma SpaceFrees(s: Machine, root: nat, sz: nat, lo: nat)
    requires Space(s, root, sz) && lo <= PagesUp(sz)
    ensures FreesOwnedRange(s, root, lo, PagesUp(sz) - lo, true)
    ensures forall v: nat :: lo <= v < PagesUp(sz) ==> Unmappable(s.flat, root, v)
  {
    forall v: nat | lo <= v < PagesUp(sz)
      ensures Owned(s, root, v) && Unmappable(s.flat, root, v)
    {
    }
  }

  lemma SpaceFramed(s: Machine, s': Machine, root: nat, sz: nat)
    requires Space(s, root, sz) && Frame(s', root) == Frame(s, root) && s'.flat == s.flat && Top(root) in s'.m.tables
    ensures Space(s', root, sz) && Outside(s', root, 0, MAXVPN) == Outside(s, root, 0, MAXVPN)
  {
    hide Sound, Outside, Owned;
    FrameAll(s, s', root, 0, 0);
    FrameAll(s, s', root, 0, MAXVPN);
    forall v: nat | v < PagesUp(sz)
      ensures Owned(s', root, v)
    {
      assert Owned(s, root, v);
      OutsideSame(s, s', root, 0, 0, root, v);
    }
  }

  lemma SpaceGrown(s: Machine, s': Machine, root: nat, sz: nat, newsz: nat, want: seq<Want>)
    requires Space(s, root, sz) && PagesUp(sz) + |want| == PagesUp(newsz) && Top(root) in s'.m.tables
    requires Outside(s', root, PagesUp(sz), |want|) == Outside(s, root, PagesUp(sz), |want|)
    requires FilledRange(s', root, PagesUp(sz), want) && forall i :: 0 <= i < |want| ==> IsLeaf(Word(0, want[i].flags))
    ensures Space(s', root, newsz) && Outside(s', root, 0, MAXVPN) == Outside(s, root, 0, MAXVPN)
  {
    hide Sound, Outside, Owned;
    var lo := PagesUp(sz);
    FilledFrees(s', root, lo, want);
    forall v: nat | lo <= v < PagesUp(newsz)
      ensures Owned(s', root, v) && v < MAXVPN && IsLeaf(At(s'.flat, root, v))
    {
      assert Filled(s', root, lo + (v - lo), want[v - lo].flags, want[v - lo].content);
      assert Unmappable(s'.flat, root, v);
    }
    forall v: nat | v < lo || v >= PagesUp(newsz)
      ensures At(s'.flat, root, v) == At(s.flat, root, v) && (Owned(s, root, v) <==> Owned(s', root, v))
    {
      OutsideSame(s, s', root, lo, |want|, root, v);
    }
    if PagesUp(newsz) > lo {
      var last := PagesUp(newsz) - 1;
      assert Owned(s', root, last) && last < MAXVPN;
    }
    OutsideWider(s, s', root, lo, |want|, 0, MAXVPN);
  }

  lemma SpaceShrunk(s: Machine, s': Machine, root: nat, sz: nat, newsz: nat)
    requires Space(s, root, sz) && newsz < sz && PagesUp(newsz) <= PagesUp(sz) && Top(root) in s'.m.tables
    requires EmptyRange(s'.flat, root, PagesUp(newsz), PagesUp(sz) - PagesUp(newsz))
    requires Outside(s', root, PagesUp(newsz), PagesUp(sz) - PagesUp(newsz)) == Outside(s, root, PagesUp(newsz), PagesUp(sz) - PagesUp(newsz))
    ensures Space(s', root, newsz) && Outside(s', root, 0, MAXVPN) == Outside(s, root, 0, MAXVPN)
  {
    hide Sound, Outside, Owned;
    var lo := PagesUp(newsz);
    var n := PagesUp(sz) - lo;
    forall v: nat | v < lo || v >= lo + n
      ensures At(s'.flat, root, v) == At(s.flat, root, v) && (Owned(s, root, v) <==> Owned(s', root, v))
    {
      OutsideSame(s, s', root, lo, n, root, v);
    }
    OutsideWider(s, s', root, lo, n, 0, MAXVPN);
  }

  /** The space has been brought to size newsz, and no other memory has changed. */
  ghost predicate Resized(s: Machine, s': Machine, root: nat, sz: nat, newsz: nat) {
    && Space(s', root, newsz) && Outside(s', root, 0, MAXVPN) == Outside(s, root, 0, MAXVPN)
    && CopyOf(s', root, PagesUp(newsz)) == Fitted(CopyOf(s, root, PagesUp(sz)), PagesUp(newsz))
  }

  lemma ResizedUp(s: Machine, s': Machine, root: nat, sz: nat, newsz: nat)
    requires Space(s, root, sz) && sz <= newsz && PagesUp(sz) <= PagesUp(newsz) && Top(root) in s'.m.tables
    requires Outside(s', root, PagesUp(sz), PagesUp(newsz) - PagesUp(sz)) == Outside(s, root, PagesUp(sz), PagesUp(newsz) - PagesUp(sz))
    requires FilledRange(s', root, PagesUp(sz), seq(PagesUp(newsz) - PagesUp(sz), i => Want(UserFlags(true, false), ZeroPage())))
    ensures Resized(s, s', root, sz, newsz)
  {
    hide Sound, Outside, CopyOf, Filled, Owned, EmptyAbove, LeavesOnly;
    var want := seq(PagesUp(newsz) - PagesUp(sz), i => Want(UserFlags(true, false), ZeroPage()));
    SpaceGrown(s, s', root, sz, newsz, want);
    ImageGrown(s, s', root, PagesUp(sz), want);
  }

  lemma ResizedNot(s: Machine, s': Machine, root: nat, sz: nat)
    requires Space(s, root, sz) && Frame(s', root) == Frame(s, root) && s'.flat == s.flat && Top(root) in s'.m.tables
    ensures Resized(s, s', root, sz, sz)
  {
    hide Sound, Outside, CopyOf, Owned, EmptyAbove, LeavesOnly;
    SpaceFramed(s, s', root, sz);
    FrameAll(s, s', root, PagesUp(sz), 0);
    ImageKept(s, s', root, PagesUp(sz), 0, PagesUp(sz));
  }

  lemma ResizedDown(s: Machine, s': Machine, root: nat, sz: nat, newsz: nat)
    requires Space(s, root, sz) && newsz < sz && PagesUp(newsz) <= PagesUp(sz) && Top(root) in s'.m.tables
    requires EmptyRange(s'.flat, root, PagesUp(newsz), PagesUp(sz) - PagesUp(newsz))
    requires Outside(s', root, PagesUp(newsz), PagesUp(sz) - PagesUp(newsz)) == Outside(s, root, PagesUp(newsz), PagesUp(sz) - PagesUp(newsz))
    ensures Resized(s, s', root, sz, newsz)
  {
    hide Sound, Outside, CopyOf, Owned, EmptyAbove, LeavesOnly;
    SpaceShrunk(s, s', root, sz, newsz);
    ImageKept(s, s', root, PagesUp(newsz), PagesUp(sz) - PagesUp(newsz), PagesUp(newsz));
    assert CopyOf(s, root, PagesUp(newsz)) == CopyOf(s, root, PagesUp(sz))[..PagesUp(newsz)];
  }

  /** Growth panics at no page below MAXVA. */
  lemma GrowthFits(s: Machine, root: nat, sz: nat, v: nat)
    requires Space(s, root, sz) && PagesUp(sz) <= v < MAXVPN
    ensures !Present(At(s.flat, root, v))
  {
  }

  /** The same tables, translations, owned pages and contents, and so the same free pages. */
  ghost predicate Same(s: Snapshot, s': Snapshot) {
    && s'.placed == s.placed && s'.m.key == s.m.key && Data(s') == Data(s) && s'.flat == s.flat && s'.m.pages.Keys == s.m.pages.Keys
  }

  lemma SameFree(s: Machine, s': Machine)
    requires Same(s, s')
    ensures FreeSet(s') == FreeSet(s)
  {
    hide Sound, FreeSet;
    FreeSetIs(s);
    FreeSetIs(s');
  }

  lemma AllWithout(s: Machine, root: nat)
    requires EmptyRange(s.flat, root, 0, MAXVPN)
    ensures FlatWithout(s.flat, root) == s.flat
  {
    hide Represents, UsersMapped, Accounted;
    forall a | a in s.flat
      ensures a.root != root
    {
      assert At(s.flat, a.root, a.vpn) == s.flat[a];
    }
  }

  lemma SpaceNew(s: Machine, root: nat)
    requires Top(root) in s.m.tables && EmptyRange(s.flat, root, 0, MAXVPN)
    ensures Space(s, root, 0)
  {
  }

  lemma SpaceEnds(s: Machine, root: nat, sz: nat)
    requires Space(s, root, sz)
    ensures Top(root) in s.m.tables && FreesOwnedRange(s, root, 0, PagesUp(sz), true) && LeavesOnly(s.flat, root)
    ensures (forall v: nat :: v < PagesUp(sz) ==> Unmappable(s.flat, root, v)) && EmptyAbove(s.flat, root, PagesUp(sz))
  {
    SpaceFrees(s, root, sz, 0);
  }

  lemma SpaceParent(s: Machine, s1: Machine, root: nat, sz: nat, child: nat)
    requires Space(s, root, sz) && s1.flat == s.flat && s1.placed == s.placed && Data(s1) == Data(s)
    requires OtherKeys(s1, child) == s.m.key && Top(child) !in s.m.tables
    ensures Top(root) in s1.m.tables && root != child
    ensures forall v: nat :: v < PagesUp(sz) && Present(At(s1.flat, root, v)) ==> Owned(s1, root, v)
  {
    hide UsersMapped, Accounted, Refines, EntriesOk;
    assert root in s.m.key && s.m.key[root] == Top(root);
    assert root in OtherKeys(s1, child);
    forall v: nat | v < PagesUp(sz)
      ensures Owned(s1, root, v)
    {
      assert Owned(s, root, v);
    }
  }

  lemma CopyFine(s: Machine, s1: Machine, root: nat, child: nat, sz: nat, v: nat)
    requires Space(s, root, sz) && s1.flat == s.flat && EmptyRange(s1.flat, child, 0, MAXVPN) && v < PagesUp(sz)
    ensures v < MAXVPN && Present(At(s1.flat, root, v)) && !Present(At(s1.flat, child, v))
  {
    hide Sound;
    assert Owned(s, root, v);
  }

  lemma SpaceCopied(s: Machine, s1: Machine, s2: Machine, root: nat, child: nat, sz: nat)
    requires Space(s, root, sz) && s1.flat == s.flat && Space(s1, child, 0) && Top(child) in s2.m.tables
    requires FilledRange(s2, child, 0, CopyOf(s1, root, PagesUp(sz)))
    requires Outside(s2, child, 0, PagesUp(sz)) == Outside(s1, child, 0, PagesUp(sz))
    ensures Space(s2, child, sz) && Outside(s2, child, 0, MAXVPN) == Outside(s1, child, 0, MAXVPN)
  {
    hide Sound, Outside, Filled;
    var want := CopyOf(s1, root, PagesUp(sz));
    assert PagesUp(0) == 0;
    forall i | 0 <= i < |want|
      ensures IsLeaf(Word(0, want[i].flags))
    {
      assert want[i] == CopyAt(s1, root, i) && Owned(s, root, i) && Present(At(s.flat, root, i));
    }
    SpaceGrown(s1, s2, child, 0, sz, want);
  }

  /** Pages copied so far leave the next page of the parent, and of the child, as it was. */
  lemma SourceSame(s: Machine, s1: Machine, parent: nat, child: nat, i: nat)
    requires Outside(s1, child, 0, i) == Outside(s, child, 0, i) && parent != child && Top(parent) in s.m.tables
    ensures At(s1.flat, parent, i) == At(s.flat, parent, i) && At(s1.flat, child, i) == At(s.flat, child, i) && Top(parent) in s1.m.tables
    ensures (Present(At(s.flat, parent, i)) ==> Owned(s, parent, i)) ==> (Present(At(s.flat, parent, i)) ==> Owned(s1, parent, i))
    ensures (Present(At(s.flat, parent, i)) ==> Owned(s, parent, i)) && Present(At(s.flat, parent, i))
            ==> CopyAt(s1, parent, i) == CopyAt(s, parent, i)
  {
    hide Sound, Outside;
    OutsideSame(s, s1, child, 0, i, child, i);
    OutsideSame(s, s1, child, 0, i, parent, i);
    OtherRoot(s, s1, child, 0, i, parent);
  }

  lemma BootSound(managed: map<nat, Page>)
    ensures Sound(Snapshot(Memory(managed, map[], map[]), map[], [], map p | p in managed :: Held))
  {
  }
}
