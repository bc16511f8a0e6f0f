/** The byte-level operations of the pager do to its page tables what the moves of
    `PagerTables` say: reading the 64 bytes back through the tables they contain
    gives the table-level state after the move. */
module PagerBytes {
  import opened Options
  import opened PagerModel
  import opened PagerTables

  /** The bytes of a process's page table, wherever it is; all zeros when there is
      none. */
  function TableOf(s: State, p: Pid): Page {
    var hp := s.hardware[p];
    if hp.inmem == 1 && 0 <= hp.address <= 48 then s.mem[hp.address..hp.address + 16]
    else if hp.inmem == 0 && 0 <= hp.address < |s.swap| then s.swap[hp.address]
    else ZERO_PAGE
  }

  function EntryOf(table: Page, v: Pid): Entry {
    Entry(table[4 * v], table[4 * v + 1], table[4 * v + 2], table[4 * v + 3])
  }

  function EntryAt(s: State, p: Pid, v: Pid): Entry {
    EntryOf(TableOf(s, p), v)
  }

  function FrameSeen(s: State, f: Pid): Page {
    if IsTable(s, f) then ZERO_PAGE else Frame(s, f)
  }

  function ViewOf(s: State): View {
    Tables(s.freelist, s.pages, s.ispagetable, s.hardware,
           seq(16, i requires 0 <= i < 16 => EntryAt(s, i / 4, i % 4)),
           seq(4, f requires 0 <= f < 4 => FrameSeen(s, f)),
           s.swap)
  }

  ghost predicate Valid(s: State) {
    Coherent(ViewOf(s))
  }

  lemma ViewEntry(s: State, p: Pid, v: Pid)
    ensures ViewOf(s).entries[4 * p + v] == EntryAt(s, p, v)
  {
    assert (4 * p + v) / 4 == p && (4 * p + v) % 4 == v;
  }

  /** The entry of a resident table, read straight from memory. */
  lemma ResidentEntry(s: State, p: Pid, v: Pid)
    requires Resident(s, p)
    ensures var at := s.hardware[p].address + 4 * v;
      EntryAt(s, p, v) == Entry(s.mem[at], s.mem[at + 1], s.mem[at + 2], s.mem[at + 3])
  {
  }

  /** A view is known by its parts. */
  lemma SameView(s: State, t: View)
    requires s.freelist == t.freelist && s.pages == t.pages && s.ispagetable == t.ispagetable
    requires s.hardware == t.hardware && s.swap == t.swap
    requires forall p: Pid, v: Pid :: EntryAt(s, p, v) == t.entries[4 * p + v]
    requires forall f: Pid :: FrameSeen(s, f) == t.frames[f]
    ensures ViewOf(s) == t
  {
    forall i | 0 <= i < 16 ensures ViewOf(s).entries[i] == t.entries[i] {
      EntryIndex(i);
      assert EntryAt(s, i / 4, i % 4) == t.entries[4 * (i / 4) + i % 4];
    }
    assert ViewOf(s).entries == t.entries;
    assert ViewOf(s).frames == t.frames;
  }

  lemma EntryIndex(i: int)
    requires 0 <= i < 16
    ensures 0 <= i / 4 < 4 && 0 <= i % 4 < 4 && 4 * (i / 4) + i % 4 == i
  {
  }

  // ----- where tables are

  /** The table of `p` is in no other frame than its own, nor in that of `q`. */
  predicate Apart(s: State, p: Pid, q: Pid, f: Pid) {
    && (s.hardware[p].inmem == 0 ==> 0 <= s.hardware[p].address < |s.swap|)
    && (s.hardware[p].inmem == 1 ==>
      && Resident(s, p)
      && (s.hardware[p].address + 16 <= 16 * f || 16 * f + 16 <= s.hardware[p].address)
      && (p != q && Resident(s, q) ==>
            s.hardware[p].address + 16 <= s.hardware[q].address || s.hardware[q].address + 16 <= s.hardware[p].address))
  }

  lemma TablesApart(s: State, p: Pid, q: Pid, f: Pid)
    requires Valid(s) && (!IsTable(s, f) || s.pages[f] != p)
    ensures Apart(s, p, q, f)
  {
    assert PointerOk(ViewOf(s), p) && PointerOk(ViewOf(s), q);
  }

  /** Entries are untouched by a step that keeps their table's place and bytes. */
  lemma EntryKept(s: State, s': State, p: Pid, v: Pid)
    requires s.hardware[p].inmem == 1 ==> Resident(s, p)
    requires s.hardware[p].inmem == 0 ==> 0 <= s.hardware[p].address < |s.swap|
    requires s'.hardware[p] == s.hardware[p] && s.swap <= s'.swap
    requires Resident(s, p) ==> var at := s.hardware[p].address + 4 * v;
      forall k :: at <= k < at + 4 ==> s'.mem[k] == s.mem[k]
    ensures EntryAt(s', p, v) == EntryAt(s, p, v)
  {
    if Resident(s, p) {
      ResidentEntry(s, p, v);
      ResidentEntry(s', p, v);
    }
  }

  /** Memory changed only in frame `f` and in entry `v` of the table of `q`. */
  ghost predicate Touches(s: State, s': State, q: Pid, v: Pid, f: Pid) {
    && Resident(s, q)
    && s'.hardware == s.hardware && s'.ispagetable == s.ispagetable && s.swap <= s'.swap
    && (forall k :: 0 <= k < 64 && !(16 * f <= k < 16 * f + 16)
          && !(s.hardware[q].address + 4 * v <= k < s.hardware[q].address + 4 * v + 4)
          ==> s'.mem[k] == s.mem[k])
  }

  lemma TouchedEntry(s: State, s': State, q: Pid, v: Pid, f: Pid, p: Pid, w: Pid)
    requires Touches(s, s', q, v, f) && Apart(s, p, q, f) && !(p == q && w == v)
    ensures EntryAt(s', p, w) == EntryAt(s, p, w)
  {
    EntryKept(s, s', p, w);
  }

  lemma TouchedFrame(s: State, s': State, q: Pid, v: Pid, f: Pid, g: Pid)
    requires Touches(s, s', q, v, f) && Apart(s, q, q, g) && g != f
    ensures Frame(s', g) == Frame(s, g)
  {
  }

  /** The view after such a step: entry `v` of `q` and frame `f` are read anew. */
  lemma TouchedView(s: State, s': State, q: Pid, v: Pid, f: Pid)
    requires Valid(s) && !IsTable(s, f) && Touches(s, s', q, v, f)
    ensures ViewOf(s') == ViewOf(s).(
        freelist := s'.freelist, pages := s'.pages, swap := s'.swap,
        entries := ViewOf(s).entries[4 * q + v := EntryAt(s', q, v)],
        frames := ViewOf(s).frames[f := Frame(s', f)])
  {
    var t := ViewOf(s).(
        freelist := s'.freelist, pages := s'.pages, swap := s'.swap,
        entries := ViewOf(s).entries[4 * q + v := EntryAt(s', q, v)],
        frames := ViewOf(s).frames[f := Frame(s', f)]);
    forall p: Pid, w: Pid ensures EntryAt(s', p, w) == t.entries[4 * p + w] {
      ViewEntry(s, p, w);
      if !(p == q && w == v) {
        TablesApart(s, p, q, f);
        TouchedEntry(s, s', q, v, f, p, w);
      }
    }
    forall g: Pid ensures FrameSeen(s', g) == t.frames[g] {
      if g != f && !IsTable(s, g) {
        TablesApart(s, q, q, g);
        TouchedFrame(s, s', q, v, f, g);
      }
    }
    SameView(s', t);
  }

  // ----- moves of a page

  /** Entry `v` of the table of `q` is the only one that maps frame `f`. */
  ghost predicate MappedBy(s: State, q: Pid, v: Pid, f: Pid) {
    && Resident(s, q)
    && (forall w: Pid :: EntryAt(s, q, w).vpn == w)
    && (forall w: Pid :: EntryAt(s, q, w).valpres == 2 && EntryAt(s, q, w).pfn == 16 * f <==> w == v)
  }

  lemma DataFrameMapped(s: State, q: Pid, v: Pid, f: Pid)
    requires Valid(s) && Maps(ViewOf(s), q, v, f)
    ensures MappedBy(s, q, v, f)
  {
    MappedResident(ViewOf(s), q, v, f);
    forall w: Pid
      ensures EntryAt(s, q, w).vpn == w
      ensures EntryAt(s, q, w).valpres == 2 && EntryAt(s, q, w).pfn == 16 * f <==> w == v
    {
      ViewEntry(s, q, w);
      OnlyMapper(ViewOf(s), q, v, f, w);
    }
  }

  lemma MappedResident(t: View, q: Pid, v: Pid, f: Pid)
    requires Coherent(t) && Maps(t, q, v, f)
    ensures t.hardware[q].inmem == 1 && 0 <= t.hardware[q].address <= 48
  {
    assert EntryOk(t, q, v) && PointerOk(t, q);
  }

  lemma OnlyMapper(t: View, q: Pid, v: Pid, f: Pid, w: Pid)
    requires Coherent(t) && Maps(t, q, v, f)
    ensures t.entries[4 * q + w].vpn == w && (Maps(t, q, w, f) <==> w == v)
  {
    assert EntryOk(t, q, v) && EntryOk(t, q, w);
  }

  /** What the repaired search makes of byte `j` of entry `w`. */
  lemma LookupByte(mem: seq<Byte>, pte: int, paddr: int, w: Pid, j: int)
    requires |mem| == 64 && 0 <= pte <= 48 && 0 <= j < 4 && LookupVpn(true, mem, pte, paddr, 4 * w + j).Some?
    ensures LookupVpn(true, mem, pte, paddr, 4 * w + j + 1) ==
      if j == 1 && mem[pte + 4 * w + 1] == paddr && mem[pte + 4 * w + 3] == 2 then Some(mem[pte + 4 * w] as int)
      else LookupVpn(true, mem, pte, paddr, 4 * w + j)
  {
    assert (4 * w + j) % 4 == j;
  }

  /** The repaired search for the page in a frame finds it. */
  lemma {:induction false} LookupFinds(s: State, q: Pid, v: Pid, f: Pid, i: nat)
    requires MappedBy(s, q, v, f) && i <= 16
    ensures LookupVpn(true, s.mem, s.hardware[q].address, 16 * f, i) == Some(if i <= 4 * v + 1 then 0 else v)
  {
    if i > 0 {
      LookupFinds(s, q, v, f, i - 1);
      var w: Pid, j := (i - 1) / 4, (i - 1) % 4;
      EntryIndex(i - 1);
      LookupByte(s.mem, s.hardware[q].address, 16 * f, w, j);
      ResidentEntry(s, q, w);
      assert EntryAt(s, q, w).valpres == 2 && EntryAt(s, q, w).pfn == 16 * f <==> w == v;
    }
  }

  /** The repaired scan takes the only entry that maps the frame. */
  lemma {:induction false} ScanExact(mem: seq<Byte>, pte: int, paddr: int, v: Pid, i: nat)
    requires |mem| == 64 && 0 <= pte <= 48 && i <= 16
    requires forall w: Pid :: mem[pte + 4 * w + 1] == paddr && mem[pte + 4 * w + 3] == 2 <==> w == v
    ensures LookupVpn(true, mem, pte, paddr, i) == Some(if i <= 4 * v + 1 then 0 else mem[pte + 4 * v] as int)
  {
    if i > 0 {
      ScanExact(mem, pte, paddr, v, i - 1);
      EntryIndex(i - 1);
      LookupByte(mem, pte, paddr, (i - 1) / 4, (i - 1) % 4);
    }
  }

  /** `s'` is `s` after a step that gave entry `v` of `q` and frame `f` new contents. */
  ghost predicate Rewrites(s: State, s': State, q: Pid, v: Pid, f: Pid, e: Entry, data: Page) {
    Touches(s, s', q, v, f) && EntryAt(s', q, v) == e && Frame(s', f) == data
  }

  /** Byte `k` of memory once frame `f` holds `data` and the entry at `at` is `e`. */
  function ByteAfter(mem: seq<Byte>, at: int, f: Pid, e: Entry, data: Page, k: int): Byte
    requires |mem| == 64 && 0 <= k < 64
  {
    if 16 * f <= k < 16 * f + 16 then data[k - 16 * f]
    else if k == at then e.vpn
    else if k == at + 1 then e.pfn
    else if k == at + 2 then e.prot
    else if k == at + 3 then e.valpres
    else mem[k]
  }

  lemma ByteByByte(s: State, s': State, q: Pid, v: Pid, f: Pid, e: Entry, data: Page)
    requires Resident(s, q) && Apart(s, q, q, f)
    requires s'.hardware == s.hardware && s'.ispagetable == s.ispagetable && s.swap <= s'.swap
    requires forall k | 0 <= k < 64 :: s'.mem[k] == ByteAfter(s.mem, s.hardware[q].address + 4 * v, f, e, data, k)
    ensures Rewrites(s, s', q, v, f, e, data)
  {
    ResidentEntry(s', q, v);
    assert forall k | 0 <= k < 16 :: Frame(s', f)[k] == s'.mem[16 * f + k];
  }

  lemma SwappedOutByte(mem: seq<Byte>, at: int, f: Pid, line: Byte, e: Entry, k: int)
    requires |mem| == 64 && 0 <= at < 61 && 0 <= k < 64
    requires e == Entry(mem[at], mem[at + 1], mem[at + 2], mem[at + 3])
    ensures SwappedOut(mem, at, f, line)[k] == ByteAfter(mem, at, f, e.(pfn := line, valpres := 1), ZERO_PAGE, k)
  {
  }

  lemma SwappedInByte(mem: seq<Byte>, at: int, f: Pid, page: Page, e: Entry, k: int)
    requires |mem| == 64 && 0 <= at < 61 && 0 <= k < 64 && (at + 4 <= 16 * f || 16 * f + 16 <= at)
    requires e == Entry(mem[at], mem[at + 1], mem[at + 2], mem[at + 3])
    ensures SwappedIn(mem, at, f, page)[k] == ByteAfter(mem, at, f, e.(pfn := 16 * f, valpres := 2), page, k)
  {
  }

  lemma RemovePageParts(fix: Repairs, s: State, q: Pid, v: Pid, f: Pid)
    requires Resident(s, q) && |s.swap| < 256
    requires LookupVpn(fix.exactLookup, s.mem, s.hardware[q].address, 16 * f, 16) == Some(v as int)
    ensures RemovePage(fix, s, q, f) == Some(
      s.(mem := SwappedOut(s.mem, s.hardware[q].address + 4 * v, f, |s.swap|),
         swap := s.swap + [Frame(s, f)], freelist := s.freelist[f := 1], pages := s.pages[f := -1]))
  {
  }

  lemma SwappedOutRewrites(s: State, s': State, q: Pid, v: Pid, f: Pid)
    requires Resident(s, q) && Apart(s, q, q, f) && |s.swap| < 256
    requires s' == s.(mem := SwappedOut(s.mem, s.hardware[q].address + 4 * v, f, |s.swap|),
                      swap := s.swap + [Frame(s, f)], freelist := s.freelist[f := 1], pages := s.pages[f := -1])
    ensures Rewrites(s, s', q, v, f, EntryAt(s, q, v).(pfn := |s.swap|, valpres := 1), ZERO_PAGE)
  {
    var e := EntryAt(s, q, v);
    var at := s.hardware[q].address + 4 * v;
    ResidentEntry(s, q, v);
    forall k | 0 <= k < 64
      ensures s'.mem[k] == ByteAfter(s.mem, at, f, e.(pfn := |s.swap|, valpres := 1), ZERO_PAGE, k)
    {
      SwappedOutByte(s.mem, at, f, |s.swap|, e, k);
    }
    ByteByByte(s, s', q, v, f, e.(pfn := |s.swap|, valpres := 1), ZERO_PAGE);
  }

  lemma RemovePageView(fix: Repairs, s: State, q: Pid, v: Pid, f: Pid)
    requires Valid(s) && IsData(s, f) && |s.swap| < 256
    requires Resident(s, q) && LookupVpn(fix.exactLookup, s.mem, s.hardware[q].address, 16 * f, 16) == Some(v as int)
    ensures RemovePage(fix, s, q, f).Some?
    ensures ViewOf(RemovePage(fix, s, q, f).value) == PageOut(ViewOf(s), q, v, f)
  {
    TablesApart(s, q, q, f);
    RemovePageParts(fix, s, q, v, f);
    var s' := RemovePage(fix, s, q, f).value;
    SwappedOutRewrites(s, s', q, v, f);
    TouchedView(s, s', q, v, f);
    ViewEntry(s, q, v);
  }

  lemma LoadPageParts(s: State, q: Pid, vaddr: Vaddr, f: Pid)
    requires Resident(s, q) && FindFree(s) == Some(f)
    requires EntryAt(s, q, vaddr / 16).pfn < |s.swap|
    ensures var e := EntryAt(s, q, vaddr / 16);
      LoadPage(s, q, vaddr) == Some(
        s.(mem := SwappedIn(s.mem, s.hardware[q].address + 4 * (vaddr / 16), f, s.swap[e.pfn]),
           freelist := s.freelist[f := 0], pages := s.pages[f := q]))
  {
    ResidentEntry(s, q, vaddr / 16);
  }

  lemma SwappedInRewrites(s: State, s': State, q: Pid, v: Pid, f: Pid, page: Page)
    requires Resident(s, q) && Apart(s, q, q, f)
    requires s' == s.(mem := SwappedIn(s.mem, s.hardware[q].address + 4 * v, f, page),
                      freelist := s.freelist[f := 0], pages := s.pages[f := q])
    ensures Rewrites(s, s', q, v, f, EntryAt(s, q, v).(pfn := 16 * f, valpres := 2), page)
  {
    var e := EntryAt(s, q, v);
    var at := s.hardware[q].address + 4 * v;
    ResidentEntry(s, q, v);
    forall k | 0 <= k < 64
      ensures s'.mem[k] == ByteAfter(s.mem, at, f, e.(pfn := 16 * f, valpres := 2), page, k)
    {
      SwappedInByte(s.mem, at, f, page, e, k);
    }
    ByteByByte(s, s', q, v, f, e.(pfn := 16 * f, valpres := 2), page);
  }

  lemma FreeFrame(s: State, f: Pid)
    requires Valid(s) && s.freelist[f] == 1
    ensures !IsTable(s, f) && Frame(s, f) == ZERO_PAGE
  {
    assert FrameOk(ViewOf(s), f);
    assert ViewOf(s).frames[f] == FrameSeen(s, f);
  }

  lemma DiskEntry(s: State, q: Pid, v: Pid)
    requires Valid(s) && EntryAt(s, q, v).valpres == 1
    ensures EntryAt(s, q, v).pfn < |s.swap|
  {
    ViewEntry(s, q, v);
    assert EntryOk(ViewOf(s), q, v);
  }

  lemma LoadPageView(s: State, q: Pid, vaddr: Vaddr, f: Pid)
    requires Valid(s) && Resident(s, q) && FindFree(s) == Some(f)
    requires EntryAt(s, q, vaddr / 16).valpres == 1
    ensures EntryAt(s, q, vaddr / 16).pfn < |s.swap|
    ensures LoadPage(s, q, vaddr).Some?
    ensures var e := EntryAt(s, q, vaddr / 16);
      ViewOf(LoadPage(s, q, vaddr).value) == PageAt(ViewOf(s), q, vaddr / 16, f, e.prot, s.swap[e.pfn])
  {
    var e := EntryAt(s, q, vaddr / 16);
    DiskEntry(s, q, vaddr / 16);
    FreeFrame(s, f);
    TablesApart(s, q, q, f);
    LoadPageParts(s, q, vaddr, f);
    var s' := LoadPage(s, q, vaddr).value;
    SwappedInRewrites(s, s', q, vaddr / 16, f, s.swap[e.pfn]);
    PageAtView(s, s', q, vaddr / 16, f, e.prot, s.swap[e.pfn]);
  }

  lemma PlacePageParts(s: State, q: Pid, vaddr: Vaddr, val: Byte, f: Pid)
    requires Resident(s, q) && FindFree(s) == Some(f)
    ensures var at := s.hardware[q].address + 4 * (vaddr / 16);
      PlacePage(s, q, vaddr, val) == Some(
        s.(mem := s.mem[at + 1 := 16 * f][at + 2 := val][at + 3 := 2],
           freelist := s.freelist[f := 0], pages := s.pages[f := q]))
  {
  }

  lemma PlacedRewrites(s: State, s': State, q: Pid, v: Pid, val: Byte, f: Pid)
    requires Resident(s, q) && Apart(s, q, q, f)
    requires var at := s.hardware[q].address + 4 * v;
      s' == s.(mem := s.mem[at + 1 := 16 * f][at + 2 := val][at + 3 := 2],
               freelist := s.freelist[f := 0], pages := s.pages[f := q])
    ensures Rewrites(s, s', q, v, f, EntryAt(s, q, v).(pfn := 16 * f, prot := val, valpres := 2), Frame(s, f))
  {
    ResidentEntry(s, q, v);
    ByteByByte(s, s', q, v, f, EntryAt(s, q, v).(pfn := 16 * f, prot := val, valpres := 2), Frame(s, f));
  }

  /** Frame `f`, free until now, holds page `v` of `q`. */
  lemma PageAtView(s: State, s': State, q: Pid, v: Pid, f: Pid, prot: Byte, data: Page)
    requires Valid(s) && s.freelist[f] == 1
    requires Rewrites(s, s', q, v, f, EntryAt(s, q, v).(pfn := 16 * f, prot := prot, valpres := 2), data)
    requires s'.freelist == s.freelist[f := 0] && s'.pages == s.pages[f := q] && s'.swap == s.swap
    ensures ViewOf(s') == PageAt(ViewOf(s), q, v, f, prot, data)
  {
    assert FrameOk(ViewOf(s), f);
    ViewEntry(s, q, v);
    TouchedView(s, s', q, v, f);
  }

  lemma PlacePageView(s: State, q: Pid, vaddr: Vaddr, val: Byte, f: Pid)
    requires Valid(s) && Resident(s, q) && FindFree(s) == Some(f)
    ensures PlacePage(s, q, vaddr, val).Some?
    ensures ViewOf(PlacePage(s, q, vaddr, val).value) == PageAt(ViewOf(s), q, vaddr / 16, f, val, ZERO_PAGE)
  {
    FreeFrame(s, f);
    TablesApart(s, q, q, f);
    PlacePageParts(s, q, vaddr, val, f);
    var s' := PlacePage(s, q, vaddr, val).value;
    PlacedRewrites(s, s', q, vaddr / 16, val, f);
    PageAtView(s, s', q, vaddr / 16, f, val, ZERO_PAGE);
  }

  lemma StoreRewrites(s: State, s': State, q: Pid, v: Pid, f: Pid, offset: int, val: Byte)
    requires Resident(s, q) && Apart(s, q, q, f) && 0 <= offset < 16
    requires s' == s.(mem := s.mem[16 * f + offset := val])
    ensures Rewrites(s, s', q, v, f, EntryAt(s, q, v), Frame(s, f)[offset := val])
  {
    ResidentEntry(s, q, v);
    ByteByByte(s, s', q, v, f, EntryAt(s, q, v), Frame(s, f)[offset := val]);
  }

  lemma ConvertFinds(s: State, q: Pid, vaddr: Vaddr)
    requires Resident(s, q)
    ensures var e := EntryAt(s, q, vaddr / 16);
      Convert(s, vaddr, q) == if e.valpres == 0 then -1 else e.pfn + vaddr % 16
  {
    ResidentEntry(s, q, vaddr / 16);
  }

  lemma StoreView(s: State, q: Pid, v: Pid, f: Pid, offset: int, val: Byte)
    requires Valid(s) && Resident(s, q) && !IsTable(s, f) && 0 <= offset < 16
    ensures s.mem[16 * f + offset] == ViewOf(s).frames[f][offset]
    ensures ViewOf(s.(mem := s.mem[16 * f + offset := val])) == Poke(ViewOf(s), f, offset, val)
  {
    var s' := s.(mem := s.mem[16 * f + offset := val]);
    ViewEntry(s, q, v);
    TablesApart(s, q, q, f);
    StoreRewrites(s, s', q, v, f, offset, val);
    TouchedView(s, s', q, v, f);
    assert ViewOf(s').frames == Poke(ViewOf(s), f, offset, val).frames;
    assert ViewOf(s').entries == ViewOf(s).entries;
  }

  lemma SetProtectionEntry(s: State, q: Pid, vaddr: Vaddr, val: Byte, p: Pid, w: Pid)
    requires Resident(s, q)
    requires s.hardware[p].inmem == 1 ==> Resident(s, p)
    requires s.hardware[p].inmem == 0 ==> 0 <= s.hardware[p].address < |s.swap|
    requires p != q && Resident(s, p) ==>
      s.hardware[p].address + 16 <= s.hardware[q].address || s.hardware[q].address + 16 <= s.hardware[p].address
    ensures EntryAt(SetProtection(s, q, vaddr, val), p, w) ==
      if p == q && w == vaddr / 16 then EntryAt(s, p, w).(prot := val) else EntryAt(s, p, w)
  {
    var s' := SetProtection(s, q, vaddr, val);
    if p == q && w == vaddr / 16 {
      ResidentEntry(s, q, w);
      ResidentEntry(s', q, w);
    } else {
      EntryKept(s, s', p, w);
    }
  }

  lemma SetProtectionFrame(s: State, q: Pid, vaddr: Vaddr, val: Byte, g: Pid)
    requires Resident(s, q) && Apart(s, q, q, g)
    ensures Frame(SetProtection(s, q, vaddr, val), g) == Frame(s, g)
  {
  }

  lemma SetProtectionParts(s: State, t: View, q: Pid, vaddr: Vaddr, val: Byte, v: Pid)
    requires Resident(s, q) && v == vaddr / 16
    requires t == ViewOf(s)
    requires forall p: Pid, w: Pid ::
      EntryAt(SetProtection(s, q, vaddr, val), p, w) ==
        if p == q && w == v then EntryAt(s, p, w).(prot := val) else EntryAt(s, p, w)
    requires forall g: Pid :: FrameSeen(SetProtection(s, q, vaddr, val), g) == FrameSeen(s, g)
    ensures ViewOf(SetProtection(s, q, vaddr, val)) == Protect(t, q, v, val)
  {
    var s' := SetProtection(s, q, vaddr, val);
    forall p: Pid, w: Pid ensures EntryAt(s', p, w) == Protect(t, q, v, val).entries[4 * p + w] {
      ViewEntry(s, p, w);
    }
    SameView(s', Protect(t, q, v, val));
  }

  lemma SetProtectionView(s: State, q: Pid, vaddr: Vaddr, val: Byte)
    requires Valid(s) && Resident(s, q)
    ensures ViewOf(SetProtection(s, q, vaddr, val)) == Protect(ViewOf(s), q, vaddr / 16, val)
  {
    forall p: Pid, w: Pid
      ensures EntryAt(SetProtection(s, q, vaddr, val), p, w) ==
        if p == q && w == vaddr / 16 then EntryAt(s, p, w).(prot := val) else EntryAt(s, p, w)
    {
      assert PointerOk(ViewOf(s), p) && PointerOk(ViewOf(s), q);
      SetProtectionEntry(s, q, vaddr, val, p, w);
    }
    forall g: Pid
      ensures FrameSeen(SetProtection(s, q, vaddr, val), g) == FrameSeen(s, g)
    {
      if !IsTable(s, g) {
        TablesApart(s, q, q, g);
        SetProtectionFrame(s, q, vaddr, val, g);
      }
    }
    SetProtectionParts(s, ViewOf(s), q, vaddr, val, vaddr / 16);
  }

  // ----- moves of a table

  /** Memory and pointers changed only in frame `f` and for process `q`. */
  ghost predicate Moves(s: State, s': State, q: Pid, f: Pid) {
    && s.swap <= s'.swap
    && s'.hardware == s.hardware[q := s'.hardware[q]]
    && s'.ispagetable == s.ispagetable[f := s'.ispagetable[f]]
    && (forall k :: 0 <= k < 64 && !(16 * f <= k < 16 * f + 16) ==> s'.mem[k] == s.mem[k])
  }

  lemma MovedView(s: State, s': State, q: Pid, f: Pid, t: View)
    requires Valid(s) && (IsTable(s, f) ==> s.pages[f] == q) && Moves(s, s', q, f)
    requires t == ViewOf(s).(freelist := s'.freelist, pages := s'.pages, ispagetable := s'.ispagetable,
                             hardware := s'.hardware, swap := s'.swap, entries := t.entries,
                             frames := ViewOf(s).frames[f := FrameSeen(s', f)])
    requires forall p: Pid, v: Pid :: t.entries[4 * p + v] == if p == q then EntryAt(s', p, v) else EntryAt(s, p, v)
    ensures ViewOf(s') == t
  {
    forall p: Pid, w: Pid ensures EntryAt(s', p, w) == t.entries[4 * p + w] {
      if p != q {
        TablesApart(s, p, q, f);
        EntryKept(s, s', p, w);
      }
    }
    forall g: Pid ensures FrameSeen(s', g) == t.frames[g] {
    }
    SameView(s', t);
  }

  lemma RemovedTable(s: State, q: Pid, f: Pid)
    requires s.hardware[q] == Hp(16 * f, 1)
    ensures RemovePageTable(s, q) == Some(
      s.(swap := s.swap + [TableOf(s, q)], hardware := s.hardware[q := Hp(|s.swap|, 0)], freelist := s.freelist[f := 1],
         ispagetable := s.ispagetable[f := 0], mem := PutFrame(s.mem, f, ZERO_PAGE), pages := s.pages[f := -1]))
    ensures var s' := RemovePageTable(s, q).value;
      Moves(s, s', q, f) && TableOf(s', q) == TableOf(s, q) && Frame(s', f) == ZERO_PAGE
  {
    assert (16 * f) / 16 == f;
  }

  lemma RemovePageTableView(s: State, q: Pid, f: Pid)
    requires Valid(s) && IsTable(s, f) && s.pages[f] == q
    ensures RemovePageTable(s, q).Some?
    ensures ViewOf(RemovePageTable(s, q).value) == TableOut(ViewOf(s), q, f, TableOf(s, q))
  {
    assert FrameOk(ViewOf(s), f);
    RemovedTable(s, q, f);
    var s' := RemovePageTable(s, q).value;
    var t := TableOut(ViewOf(s), q, f, TableOf(s, q));
    forall p: Pid, v: Pid
      ensures t.entries[4 * p + v] == if p == q then EntryAt(s', p, v) else EntryAt(s, p, v)
    {
      ViewEntry(s, p, v);
    }
    MovedView(s, s', q, f, t);
  }

  lemma LoadPageTableBytes(s: State, q: Pid, f: Pid)
    requires s.hardware[q].inmem == 0 && 0 <= s.hardware[q].address < |s.swap| && FindFree(s) == Some(f)
    ensures LoadPageTable(s, q).Some?
    ensures var s' := LoadPageTable(s, q).value;
      TableOf(s', q) == TableOf(s, q) && Moves(s, s', q, f)
  {
    var s' := LoadPageTable(s, q).value;
    assert TableOf(s', q) == Frame(s', f) == s.swap[s.hardware[q].address];
  }

  lemma LoadPageTableView(s: State, q: Pid, f: Pid)
    requires Valid(s) && s.hardware[q].inmem == 0 && FindFree(s) == Some(f)
    ensures LoadPageTable(s, q).Some?
    ensures ViewOf(LoadPageTable(s, q).value) == TableIn(ViewOf(s), q, f)
  {
    assert FrameOk(ViewOf(s), f) && PointerOk(ViewOf(s), q);
    LoadPageTableBytes(s, q, f);
    var s' := LoadPageTable(s, q).value;
    var t := TableIn(ViewOf(s), q, f);
    forall p: Pid, v: Pid
      ensures t.entries[4 * p + v] == if p == q then EntryAt(s', p, v) else EntryAt(s, p, v)
    {
      ViewEntry(s, p, v);
    }
    MovedView(s, s', q, f, t);
  }

  function FreshByte(mem: seq<Byte>, at: int, k: int): Byte
    requires |mem| == 64 && 0 <= k < 64
  {
    if at <= k < at + 16 && (k - at) % 4 == 0 then (k - at) / 4
    else if at <= k < at + 16 && (k - at) % 4 == 3 then 0
    else mem[k]
  }

  lemma FreshTableByte(mem: seq<Byte>, at: int, k: int)
    requires |mem| == 64 && 0 <= at <= 48 && 0 <= k < 64
    ensures FreshTable(mem, at)[k] == FreshByte(mem, at, k)
  {
  }

  lemma FreshEntry(s: State, s': State, q: Pid, f: Pid, v: Pid)
    requires s'.hardware[q] == Hp(16 * f, 1)
    requires forall k | 0 <= k < 64 :: s'.mem[k] == FreshByte(s.mem, 16 * f, k)
    ensures var at := 16 * f + 4 * v;
      EntryAt(s', q, v) == Entry(v, s.mem[at + 1], s.mem[at + 2], 0)
  {
    ResidentEntry(s', q, v);
    FreshByteAt(s.mem, 16 * f, v, 0);
    FreshByteAt(s.mem, 16 * f, v, 1);
    FreshByteAt(s.mem, 16 * f, v, 2);
    FreshByteAt(s.mem, 16 * f, v, 3);
  }

  lemma FreshByteAt(mem: seq<Byte>, at: int, v: Pid, j: int)
    requires |mem| == 64 && 0 <= at <= 48 && 0 <= j < 4
    ensures FreshByte(mem, at, at + 4 * v + j) == if j == 0 then v else if j == 3 then 0 else mem[at + 4 * v + j]
  {
    assert (4 * v + j) / 4 == v && (4 * v + j) % 4 == j;
  }

  lemma NewTableMoves(s: State, s': State, q: Pid, f: Pid)
    requires s' == NewTable(s, q, f)
    ensures forall k | 0 <= k < 64 :: s'.mem[k] == FreshByte(s.mem, 16 * f, k)
    ensures Moves(s, s', q, f)
  {
    forall k | 0 <= k < 64 ensures s'.mem[k] == FreshByte(s.mem, 16 * f, k) {
      FreshTableByte(s.mem, 16 * f, k);
    }
  }

  /** The entries of a new table: VPN and VALPRES are set, the rest is as it was. */
  lemma NewTableEntry(s: State, q: Pid, f: Pid, v: Pid)
    ensures var at := 16 * f + 4 * v;
      EntryAt(NewTable(s, q, f), q, v) == Entry(v, s.mem[at + 1], s.mem[at + 2], 0)
  {
    var s' := NewTable(s, q, f);
    NewTableMoves(s, s', q, f);
    FreshEntry(s, s', q, f, v);
  }

  lemma ZeroFrameByte(s: State, f: Pid, k: int)
    requires Frame(s, f) == ZERO_PAGE && 0 <= k < 16
    ensures s.mem[16 * f + k] == 0
  {
    assert Frame(s, f)[k] == s.mem[16 * f + k];
  }

  lemma NewTableView(s: State, q: Pid, f: Pid)
    requires Valid(s) && !HasTable(ViewOf(s), q) && s.freelist[f] == 1
    ensures ViewOf(NewTable(s, q, f)) == TableNew(ViewOf(s), q, f)
  {
    FreeFrame(s, f);
    var s' := NewTable(s, q, f);
    var t := TableNew(ViewOf(s), q, f);
    NewTableMoves(s, s', q, f);
    forall p: Pid, v: Pid
      ensures t.entries[4 * p + v] == if p == q then EntryAt(s', p, v) else EntryAt(s, p, v)
    {
      TableNewEntry(ViewOf(s), q, f, p, v);
      ViewEntry(s, p, v);
      if p == q {
        EmptyEntry(s, q, f, v);
      }
    }
    MovedView(s, s', q, f, t);
  }

  lemma TableNewEntry(t: View, q: Pid, f: Pid, p: Pid, v: Pid)
    ensures TableNew(t, q, f).entries[4 * p + v] == if p == q then Entry(v, 0, 0, 0) else t.entries[4 * p + v]
  {
  }

  lemma EmptyEntry(s: State, q: Pid, f: Pid, v: Pid)
    requires Frame(s, f) == ZERO_PAGE
    ensures EntryAt(NewTable(s, q, f), q, v) == Entry(v, 0, 0, 0)
  {
    NewTableEntry(s, q, f, v);
    ZeroFrameByte(s, f, 4 * v + 1);
    ZeroFrameByte(s, f, 4 * v + 2);
  }
}
