/**
  Sv39 page tables as a three-level tree of 512-entry pages, and the flat map from page
  numbers to page-table words that the tree stands for.
 */
module Sv39 {

  const ENTRIES := 512
  const PGSIZE := 4096
  const MAXVPN := 0x400_0000      // MAXVA / PGSIZE
  const SPAN := 256               // the entries of a root table below MAXVA

  /** The low ten bits of a page-table word; `other` are the bits above PTE_U. */
  datatype Flags = Flags(v: bool, r: bool, w: bool, x: bool, u: bool, other: nat)

  /** A 64-bit word, split into page number and flags. */
  datatype Word = Word(ppn: nat, flags: Flags)

  const NoFlags := Flags(false, false, false, false, false, 0)
  const LinkFlags := NoFlags.(v := true)
  const ZeroWord := Word(0, NoFlags)

  type Page = p: seq<Word> | |p| == ENTRIES witness seq(ENTRIES, i => Word(0, Flags(false, false, false, false, false, 0)))

  /** A page-table page: the root, the page below its entry i, the page below entry j of that. */
  datatype Key = Top(root: nat) | Mid(root: nat, i: nat) | Low(root: nat, i: nat, j: nat)

  /** Physical pages, the page-table pages by key, and the key of each of these pages. */
  datatype Memory = Memory(pages: map<nat, Page>, tables: map<Key, nat>, key: map<nat, Key>)

  /** Page number vpn in the address space of root. */
  datatype Place = Place(root: nat, vpn: nat)

  /** The flat map; a missing word is zero. */
  type Flat = map<Place, Word>

  function ZeroPage(): (p: Page)
    ensures forall i :: 0 <= i < ENTRIES ==> p[i] == ZeroWord
  {
    seq(ENTRIES, i => ZeroWord)
  }

  // ---------------------------------------------------------------- page-table words

  function Bit(b: bool): (n: nat) {
    if b then 1 else 0
  }

  /** The low ten bits of a word. */
  function Low10(f: Flags): (n: nat)
    requires f.other < 32
    ensures n < 1024
  {
    Bit(f.v) + 2 * Bit(f.r) + 4 * Bit(f.w) + 8 * Bit(f.x) + 16 * Bit(f.u) + 32 * f.other
  }

  /** The word as the hardware and the C macros see it. */
  function Encoded(e: Word): (n: nat)
    requires e.flags.other < 32
  {
    e.ppn * 1024 + Low10(e.flags)
  }

  lemma Low10Fields(f: Flags)
    requires f.other < 32
    ensures Low10(f) % 2 == Bit(f.v) && Low10(f) / 16 % 2 == Bit(f.u)
    ensures Low10(f) / 2 % 8 != 0 <==> f.r || f.w || f.x
    ensures Low10(f) == 1 <==> f == LinkFlags
  {
    ThreeFields(Bit(f.v), Bit(f.r) + 2 * Bit(f.w) + 4 * Bit(f.x), Bit(f.u) + 2 * f.other);
    assert (Bit(f.u) + 2 * f.other) % 2 == Bit(f.u);
  }

  lemma ThreeFields(a: nat, b: nat, c: nat)
    requires a < 2 && b < 8
    ensures (a + 2 * b + 16 * c) % 2 == a && (a + 2 * b + 16 * c) / 2 % 8 == b && (a + 2 * b + 16 * c) / 16 == c
  {
    assert (a + 2 * b + 16 * c) / 2 == b + 8 * c;
  }

  lemma HighPart(p: nat, low: nat)
    requires low < 1024
    ensures (p * 1024 + low) / 1024 == p && (p * 1024 + low) % 1024 == low && (p * 1024 + low) % 2 == low % 2
    ensures (p * 1024 + low) / 2 % 8 == low / 2 % 8 && (p * 1024 + low) / 16 % 2 == low / 16 % 2
  {
    assert (p * 1024 + low) / 2 == p * 512 + low / 2;
    assert (p * 1024 + low) / 16 == p * 64 + low / 16;
  }

  /** PTE2PA and the flag tests of vm.c on the encoded word. */
  lemma EncodedFields(e: Word)
    requires e.flags.other < 32
    ensures Encoded(e) / 1024 * PGSIZE == e.ppn * PGSIZE
    ensures Encoded(e) % 2 == Bit(e.flags.v)
    ensures Encoded(e) / 2 % 8 != 0 <==> IsLeaf(e)
    ensures Encoded(e) / 16 % 2 == Bit(e.flags.u)
    ensures Encoded(e) % 1024 == 1 <==> e.flags == LinkFlags
  {
    hide Low10;
    Low10Fields(e.flags);
    HighPart(e.ppn, Low10(e.flags));
  }

  predicate Present(w: Word) {
    w.flags.v
  }

  /** w & (PTE_R|PTE_W|PTE_X) */
  predicate IsLeaf(w: Word) {
    w.flags.r || w.flags.w || w.flags.x
  }

  // ---------------------------------------------------------------- indices

  /** PX(level, va) for va in page vpn. */
  function Index(level: nat, vpn: nat): (i: nat)
    requires level <= 2
    ensures i < ENTRIES
  {
    if level == 2 then vpn / ENTRIES / ENTRIES % ENTRIES else if level == 1 then vpn / ENTRIES % ENTRIES else vpn % ENTRIES
  }

  lemma IndexFits(vpn: nat)
    requires vpn < MAXVPN
    ensures Index(2, vpn) < SPAN
  {
    assert vpn / ENTRIES < MAXVPN / ENTRIES;
  }

  /** The last-level table for page vpn. */
  function LowKey(root: nat, vpn: nat): (k: Key) {
    Low(root, Index(2, vpn), Index(1, vpn))
  }

  lemma IndexDigits(v: nat)
    requires v < MAXVPN
    ensures v == (Index(2, v) * ENTRIES + Index(1, v)) * ENTRIES + Index(0, v)
  {
    var h := v / ENTRIES;
    assert v == h * ENTRIES + v % ENTRIES;
    assert h == h / ENTRIES * ENTRIES + h % ENTRIES;
    assert h / ENTRIES < ENTRIES;
  }

  /** Distinct pages reach distinct entries. */
  lemma IndexInjective(v: nat, w: nat)
    requires v < MAXVPN && w < MAXVPN && Index(2, v) == Index(2, w) && Index(1, v) == Index(1, w) && Index(0, v) == Index(0, w)
    ensures v == w
  {
    IndexDigits(v);
    IndexDigits(w);
  }

  // ---------------------------------------------------------------- the tree

  /** The table below entry i of table k. */
  function Child(k: Key, i: nat): (c: Key)
    requires !k.Low?
  {
    if k.Top? then Mid(k.root, i) else Low(k.root, k.i, i)
  }

  predicate Fits(k: Key, i: nat) {
    i < if k.Top? then SPAN else ENTRIES
  }

  /** A table other than a root hangs below a table. */
  ghost predicate HasParent(m: Memory, k: Key) {
    && (k.Mid? ==> Top(k.root) in m.tables && k.i < SPAN)
    && (k.Low? ==> Mid(k.root, k.i) in m.tables && k.j < ENTRIES)
  }

  ghost predicate TablesOk(m: Memory) {
    && (forall k {:trigger HasParent(m, k)} :: k in m.tables ==> HasParent(m, k))
    && (forall k :: k in m.tables ==> m.tables[k] in m.pages && m.tables[k] in m.key && m.key[m.tables[k]] == k)
    && (forall p :: p in m.key ==> m.key[p] in m.tables && m.tables[m.key[p]] == p)
    && (forall k :: k in m.tables && k.Top? ==> m.tables[k] == k.root)
  }

  /** An inner entry is a link to the table below, or zero. */
  ghost predicate EntryOk(m: Memory, k: Key, i: nat)
    requires TablesOk(m) && k in m.tables && !k.Low? && i < ENTRIES
  {
    m.pages[m.tables[k]][i] == if Child(k, i) in m.tables then Word(m.tables[Child(k, i)], LinkFlags) else ZeroWord
  }

  ghost predicate EntriesOk(m: Memory)
    requires TablesOk(m)
  {
    forall k, i {:trigger EntryOk(m, k, i)} :: k in m.tables && !k.Low? && 0 <= i < ENTRIES ==> EntryOk(m, k, i)
  }

  ghost predicate Tree(m: Memory) {
    TablesOk(m) && EntriesOk(m)
  }

  /** The word that the tree holds for page vpn, all zero if a table on the way is missing. */
  ghost function Leaf(m: Memory, root: nat, vpn: nat): (w: Word)
    requires TablesOk(m)
  {
    if LowKey(root, vpn) in m.tables then m.pages[m.tables[LowKey(root, vpn)]][Index(0, vpn)] else ZeroWord
  }

  function At(flat: Flat, root: nat, vpn: nat): (w: Word) {
    if Place(root, vpn) in flat then flat[Place(root, vpn)] else ZeroWord
  }

  /** The tree holds exactly the words of the flat map. */
  ghost predicate Refines(m: Memory, flat: Flat)
    requires TablesOk(m)
  {
    forall r: nat, v: nat {:trigger Leaf(m, r, v)} :: v < MAXVPN ==> Leaf(m, r, v) == At(flat, r, v)
  }

  ghost predicate Represents(m: Memory, flat: Flat) {
    Tree(m) && Refines(m, flat)
  }

  /** What walk reads in an inner entry. */
  lemma InnerEntry(m: Memory, k: Key, i: nat)
    requires Tree(m) && k in m.tables && !k.Low? && i < ENTRIES
    ensures var w := m.pages[m.tables[k]][i];
            && (Present(w) <==> Child(k, i) in m.tables)
            && (Present(w) ==> w.ppn == m.tables[Child(k, i)] && !IsLeaf(w))
  {
    assert EntryOk(m, k, i);
  }

  // ---------------------------------------------------------------- the hardware

  /** The address translation of the processor: the leaf that it finds, or a page fault. */
  datatype Translation = Fault | Hit(w: Word, level: nat)

  /** The bytes that one entry of a table at that level spans. */
  function Span(level: nat): (n: nat)
    ensures n > 0
  {
    if level == 0 then 0x1000 else if level == 1 then 0x20_0000 else 0x4000_0000
  }

  /**
    The translation algorithm of Sv39, from the table at page t on; section 4.3.2 of the
    RISC-V privileged specification.  Writable pages that are not readable are reserved.
   */
  ghost function Translated(pages: map<nat, Page>, t: nat, level: nat, va: nat): (r: Translation)
    decreases level
  {
    if t !in pages then Fault
    else
      var w := pages[t][va / Span(level) % 512];
      if !Present(w) || (w.flags.w && !w.flags.r) then Fault
      else if IsLeaf(w) then Hit(w, level)
      else if level == 0 then Fault
      else Translated(pages, w.ppn, level - 1, va)
  }

  lemma SpanIndex(va: nat)
    ensures va / 0x1000 % 512 == Index(0, va / PGSIZE) && va / 0x20_0000 % 512 == Index(1, va / PGSIZE)
    ensures va / 0x4000_0000 % 512 == Index(2, va / PGSIZE)
  {
    var v := va / 0x1000;
    var h := v / 512;
    assert va == 0x1000 * v + va % 0x1000 && v == 512 * h + v % 512;
    assert va / 0x20_0000 == h;
    assert h == 512 * (h / 512) + h % 512;
    assert va / 0x4000_0000 == h / 512;
  }

  /** The processor, given the root table, translates as the flat map says. */
  lemma HardwareWalk(m: Memory, flat: Flat, root: nat, va: nat)
    requires Represents(m, flat) && Top(root) in m.tables && va / PGSIZE < MAXVPN
    ensures Translated(m.pages, root, 2, va)
            == var w := At(flat, root, va / PGSIZE);
               if Present(w) && IsLeaf(w) && (w.flags.w ==> w.flags.r) then Hit(w, 0) else Fault
  {
    hide EntriesOk, Index;
    var v := va / PGSIZE;
    SpanIndex(va);
    var top, mid, low := Top(root), Mid(root, Index(2, v)), LowKey(root, v);
    EntryIs(m, top, Index(2, v));
    assert Leaf(m, root, v) == At(flat, root, v);
    assert low in m.tables ==> HasParent(m, low);
    if mid in m.tables {
      EntryIs(m, mid, Index(1, v));
      var t := m.tables[mid];
      if low in m.tables {
        var u := m.tables[low];
        assert m.pages[u][va / Span(0) % 512] == At(flat, root, v);
        assert m.pages[t][va / Span(1) % 512] == Word(u, LinkFlags);
        assert Translated(m.pages, t, 1, va) == Translated(m.pages, u, 0, va);
      } else {
        assert Translated(m.pages, t, 1, va) == Fault;
      }
      assert m.pages[root][va / Span(2) % 512] == Word(t, LinkFlags);
      assert Translated(m.pages, root, 2, va) == Translated(m.pages, t, 1, va);
    }
  }

  lemma EntryIs(m: Memory, k: Key, i: nat)
    requires Tree(m) && k in m.tables && !k.Low? && i < ENTRIES
    ensures m.pages[m.tables[k]][i] == if Child(k, i) in m.tables then Word(m.tables[Child(k, i)], LinkFlags) else ZeroWord
  {
    assert EntryOk(m, k, i);
  }

  // ---------------------------------------------------------------- growing and writing

  /** Link the zeroed page p below table k at index i. */
  ghost function Linked(m: Memory, k: Key, i: nat, p: nat): (m': Memory)
    requires TablesOk(m) && k in m.tables && !k.Low? && i < ENTRIES
  {
    var t := m.tables[k];
    Memory(m.pages[p := ZeroPage()][t := m.pages[t][i := Word(p, LinkFlags)]], m.tables[Child(k, i) := p], m.key[p := Child(k, i)])
  }

  lemma LinkedTables(m: Memory, k: Key, i: nat, p: nat)
    requires TablesOk(m) && k in m.tables && !k.Low? && Fits(k, i) && Child(k, i) !in m.tables && p !in m.key
    ensures TablesOk(Linked(m, k, i, p))
  {
    var m' := Linked(m, k, i, p);
    forall j | j in m'.tables
      ensures HasParent(m', j)
    {
      assert j in m.tables ==> HasParent(m, j);
    }
  }

  /** The only entry that changes is the one that links the added table. */
  lemma LinkedEntry(m: Memory, k: Key, i: nat, p: nat, j: Key, x: nat)
    requires Tree(m) && k in m.tables && !k.Low? && i < ENTRIES && Child(k, i) !in m.tables && p !in m.key
    requires TablesOk(Linked(m, k, i, p)) && j in Linked(m, k, i, p).tables && !j.Low? && x < ENTRIES
    ensures EntryOk(Linked(m, k, i, p), j, x)
  {
    if j in m.tables {
      assert EntryOk(m, j, x);
    } else {
      assert Child(j, x) in m.tables ==> HasParent(m, Child(j, x));
    }
  }

  /** A table added on the way changes no translation. */
  lemma LinkedRepresents(m: Memory, k: Key, i: nat, p: nat, flat: Flat)
    requires Represents(m, flat) && k in m.tables && !k.Low? && Fits(k, i) && Child(k, i) !in m.tables && p !in m.key
    ensures Represents(Linked(m, k, i, p), flat)
  {
    var m' := Linked(m, k, i, p);
    LinkedTables(m, k, i, p);
    forall j, x | j in m'.tables && !j.Low? && 0 <= x < ENTRIES
      ensures EntryOk(m', j, x)
    {
      LinkedEntry(m, k, i, p, j, x);
    }
    forall r: nat, v: nat | v < MAXVPN
      ensures Leaf(m', r, v) == At(flat, r, v)
    {
      assert Leaf(m, r, v) == At(flat, r, v);
    }
  }

  /** Overwrite the leaf word of page vpn. */
  ghost function Written(m: Memory, root: nat, vpn: nat, w: Word): (m': Memory)
    requires TablesOk(m) && LowKey(root, vpn) in m.tables
  {
    var t := m.tables[LowKey(root, vpn)];
    Memory(m.pages[t := m.pages[t][Index(0, vpn) := w]], m.tables, m.key)
  }

  function Updated(flat: Flat, root: nat, vpn: nat, w: Word): (f: Flat) {
    if w == ZeroWord then flat - {Place(root, vpn)} else flat[Place(root, vpn) := w]
  }

  lemma UpdatedAt(flat: Flat, root: nat, vpn: nat, w: Word, r: nat, v: nat)
    ensures At(Updated(flat, root, vpn, w), r, v) == if r == root && v == vpn then w else At(flat, r, v)
  {
  }

  lemma SameTablesOk(m: Memory, m': Memory)
    requires TablesOk(m) && m'.tables == m.tables && m'.key == m.key && m.pages.Keys <= m'.pages.Keys
    ensures TablesOk(m')
  {
    forall k | k in m'.tables
      ensures HasParent(m', k)
    {
      assert HasParent(m, k);
    }
  }

  /** Writing the word of one page changes the translation of that page only. */
  lemma WrittenRepresents(m: Memory, root: nat, vpn: nat, w: Word, flat: Flat)
    requires Represents(m, flat) && LowKey(root, vpn) in m.tables && vpn < MAXVPN
    ensures Represents(Written(m, root, vpn, w), Updated(flat, root, vpn, w))
  {
    var m' := Written(m, root, vpn, w);
    SameTablesOk(m, m');
    forall k, i | k in m'.tables && !k.Low? && 0 <= i < ENTRIES
      ensures EntryOk(m', k, i)
    {
      assert EntryOk(m, k, i);
    }
    forall r: nat, v: nat | v < MAXVPN
      ensures Leaf(m', r, v) == At(Updated(flat, root, vpn, w), r, v)
    {
      assert Leaf(m, r, v) == At(flat, r, v);
      UpdatedAt(flat, root, vpn, w, r, v);
      if LowKey(r, v) == LowKey(root, vpn) && Index(0, v) == Index(0, vpn) {
        IndexInjective(v, vpn);
      }
    }
  }

  /** Changing pages that are not tables changes nothing. */
  lemma OtherPages(m: Memory, m': Memory, flat: Flat)
    requires Represents(m, flat) && m'.tables == m.tables && m'.key == m.key && m.pages.Keys <= m'.pages.Keys
    requires forall p :: p in m.key ==> m'.pages[p] == m.pages[p]
    ensures Represents(m', flat)
  {
    SameTablesOk(m, m');
    forall k, i | k in m'.tables && !k.Low? && 0 <= i < ENTRIES
      ensures EntryOk(m', k, i)
    {
      assert EntryOk(m, k, i);
    }
    forall r: nat, v: nat | v < MAXVPN
      ensures Leaf(m', r, v) == At(flat, r, v)
    {
      assert Leaf(m, r, v) == At(flat, r, v);
    }
  }

  // ---------------------------------------------------------------- pruning

  /** j is k or hangs below it. */
  predicate Under(k: Key, j: Key) {
    && j.root == k.root
    && match k
       case Top(_) => true
       case Mid(_, i) => !j.Top? && j.i == i
       case Low(_, _, _) => j == k
  }

  function PrunedTables(tables: map<Key, nat>, k: Key): (r: map<Key, nat>) {
    map j | j in tables && !Under(k, j) :: tables[j]
  }

  function PrunedKeys(key: map<nat, Key>, k: Key): (r: map<nat, Key>) {
    map p | p in key && !Under(k, key[p]) :: key[p]
  }

  function FlatWithout(flat: Flat, root: nat): (f: Flat) {
    map a | a in flat && a.root != root :: flat[a]
  }

  /** A root can be dropped with all its tables and translations. */
  lemma PrunedRepresents(m: Memory, root: nat, flat: Flat)
    requires Represents(m, flat)
    ensures Represents(Memory(m.pages, PrunedTables(m.tables, Top(root)), PrunedKeys(m.key, Top(root))), FlatWithout(flat, root))
  {
    var m' := Memory(m.pages, PrunedTables(m.tables, Top(root)), PrunedKeys(m.key, Top(root)));
    forall j | j in m'.tables
      ensures HasParent(m', j)
    {
      assert HasParent(m, j);
    }
    forall j, x | j in m'.tables && !j.Low? && 0 <= x < ENTRIES
      ensures EntryOk(m', j, x)
    {
      assert EntryOk(m, j, x);
    }
    forall r: nat, v: nat | v < MAXVPN
      ensures Leaf(m', r, v) == At(FlatWithout(flat, root), r, v)
    {
      assert Leaf(m, r, v) == At(flat, r, v);
    }
  }

  /** Every entry of every last-level table is the word of some page. */
  lemma IndexSurjective(i: nat, j: nat, x: nat) returns (v: nat)
    requires i < SPAN && j < ENTRIES && x < ENTRIES
    ensures v < MAXVPN && Index(2, v) == i && Index(1, v) == j && Index(0, v) == x
  {
    v := (i * ENTRIES + j) * ENTRIES + x;
    assert v / ENTRIES == i * ENTRIES + j;
    assert v / ENTRIES / ENTRIES == i;
  }
}
