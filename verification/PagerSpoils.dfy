/** What a wrong eviction leaves behind: an entry that says its page is in a frame which
    is no longer its own, or a page recorded under another's swap line. Nothing that the
    command does afterwards takes that away. */
module PagerSpoils {
  import opened Options
  import opened PagerModel
  import opened PagerTables
  import opened PagerBytes
  import opened PagerEviction
  import opened PagerCommands
  import opened PagerAsWritten
  import opened PagerLanding
  import opened PagerCrossing

  // ----- the arrays alone

  predicate PointerAt(x: State, p: Pid) {
    var hp := x.hardware[p];
    && (hp.inmem == 1 ==> 0 <= hp.address <= 48 && hp.address % 16 == 0
                          && IsTable(x, hp.address / 16) && x.pages[hp.address / 16] == p)
    && (hp.inmem == 0 ==> 0 <= hp.address < |x.swap|)
  }

  /** The arrays agree on where page tables are, whatever the tables say. */
  predicate Arrays(x: State) {
    (forall p: Pid :: PointerAt(x, p)) && forall f: Pid :: TableAt(x, f)
  }

  predicate TableAt(x: State, f: Pid) {
    IsTable(x, f) ==> x.freelist[f] != 1 && 0 <= x.pages[f] < 4 && x.hardware[x.pages[f]] == Hp(16 * f, 1)
  }

  lemma ValidArrays(s: State)
    requires Valid(s)
    ensures Arrays(s)
  {
    forall p: Pid ensures PointerAt(s, p) {
      assert PointerOk(ViewOf(s), p);
    }
    forall f: Pid ensures TableAt(s, f) {
      assert FrameOk(ViewOf(s), f);
    }
  }

  lemma ArraysApart(x: State, p: Pid, q: Pid, f: Pid)
    requires Arrays(x) && (!IsTable(x, f) || x.pages[f] != p)
    ensures Apart(x, p, q, f)
  {
    assert PointerAt(x, p) && PointerAt(x, q);
  }

  // ----- the damage

  /** Frame `f` holds no page of another process than `pid`. */
  predicate Claimed(x: State, pid: Pid, f: Pid) {
    x.freelist[f] == 1 || IsTable(x, f) || x.pages[f] == pid
  }

  /** Entry `v` of `q`, not the process that the command serves, maps a frame that is
      not its own, or names a line with another page than `s` has there. */
  ghost predicate Spoilt(s: State, x: State, pid: Pid, q: Pid, v: Pid) {
    var e := EntryAt(x, q, v);
    && q != pid
    && (|| (e.valpres == 2 && e.pfn <= 48 && e.pfn % 16 == 0 && Claimed(x, pid, e.pfn / 16))
        || (e.valpres == 1 && e.pfn < |x.swap| && PageOf(ViewOf(s), q, v) != Mapped(e.prot, x.swap[e.pfn])))
  }

  /** It shows: either the bookkeeping is incoherent or `q` sees another page. */
  lemma SpoiltShows(s: State, x: State, pid: Pid, q: Pid, v: Pid)
    requires Spoilt(s, x, pid, q, v)
    ensures !Valid(x) || PageOf(ViewOf(x), q, v) != PageOf(ViewOf(s), q, v)
  {
    ViewEntry(x, q, v);
    if Valid(x) {
      assert EntryOk(ViewOf(x), q, v);
    }
  }

  /** A step for `pid` that leaves entry `v` of `q` and gives no frame back to others. */
  ghost predicate Leaves(x: State, x': State, pid: Pid, q: Pid, v: Pid) {
    && EntryAt(x', q, v) == EntryAt(x, q, v) && x.swap <= x'.swap
    && forall f: Pid :: Claimed(x, pid, f) ==> Claimed(x', pid, f)
  }

  lemma StillSpoilt(s: State, x: State, x': State, pid: Pid, q: Pid, v: Pid)
    requires Spoilt(s, x, pid, q, v) && Leaves(x, x', pid, q, v)
    ensures Spoilt(s, x', pid, q, v)
  {
  }

  // ----- steps that leave it

  lemma HandLeaves(x: State, h: Pid, pid: Pid, q: Pid, v: Pid)
    requires Arrays(x)
    ensures Arrays(x.(roundrobin := h)) && Leaves(x, x.(roundrobin := h), pid, q, v)
  {
    var x' := x.(roundrobin := h);
    HandMoves(x, x');
    forall p: Pid ensures PointerAt(x', p) {
      assert PointerAt(x, p);
    }
    forall f: Pid ensures TableAt(x', f) {
      assert TableAt(x, f);
    }
  }

  /** The arrays after a page table came to the free frame `f`. */
  lemma TableArrays(x: State, x': State, pid: Pid, f: Pid)
    requires Arrays(x) && x.freelist[f] == 1 && x.hardware[pid].inmem != 1
    requires x'.freelist == x.freelist[f := 0] && x'.pages == x.pages[f := pid] && x'.ispagetable == x.ispagetable[f := 1]
    requires x'.hardware == x.hardware[pid := Hp(16 * f, 1)] && x.swap <= x'.swap
    ensures Arrays(x') && forall g: Pid :: Claimed(x, pid, g) ==> Claimed(x', pid, g)
  {
    assert TableAt(x, f);
    forall p: Pid ensures PointerAt(x', p) {
      assert PointerAt(x, p);
    }
    forall g: Pid ensures TableAt(x', g) {
      assert TableAt(x, g);
    }
  }

  lemma FreeNoTable(x: State, f: Pid)
    requires Arrays(x) && x.freelist[f] == 1
    ensures !IsTable(x, f)
  {
    assert TableAt(x, f);
  }

  lemma MovesLeave(x: State, x': State, pid: Pid, f: Pid, q: Pid, v: Pid)
    requires Arrays(x) && !IsTable(x, f) && Moves(x, x', pid, f) && q != pid
    ensures EntryAt(x', q, v) == EntryAt(x, q, v)
  {
    ArraysApart(x, q, pid, f);
    EntryKept(x, x', q, v);
  }

  lemma TableInLeaves(x: State, pid: Pid, q: Pid, v: Pid)
    requires Arrays(x) && x.hardware[pid].inmem == 0 && LoadPageTable(x, pid).Some? && q != pid
    ensures Arrays(LoadPageTable(x, pid).value) && Leaves(x, LoadPageTable(x, pid).value, pid, q, v)
  {
    var f := FindFree(x).value;
    var x' := LoadPageTable(x, pid).value;
    LoadPageTableBytes(x, pid, f);
    FreeNoTable(x, f);
    MovesLeave(x, x', pid, f, q, v);
    TableArrays(x, x', pid, f);
  }

  lemma NewTableLeaves(x: State, pid: Pid, f: Pid, q: Pid, v: Pid)
    requires Arrays(x) && FindFree(x) == Some(f) && x.hardware[pid].inmem != 1 && q != pid
    ensures Arrays(NewTable(x, pid, f)) && Leaves(x, NewTable(x, pid, f), pid, q, v)
  {
    var x' := NewTable(x, pid, f);
    NewTableMoves(x, x', pid, f);
    FreeNoTable(x, f);
    MovesLeave(x, x', pid, f, q, v);
    TableArrays(x, x', pid, f);
  }

  lemma TableOutLeaves(x: State, o: Pid, h: Pid, pid: Pid, q: Pid, v: Pid)
    requires Arrays(x) && x.hardware[o] == Hp(16 * h, 1) && o != pid
    ensures RemovePageTable(x, o).Some?
    ensures Arrays(RemovePageTable(x, o).value) && Leaves(x, RemovePageTable(x, o).value, pid, q, v)
  {
    assert PointerAt(x, o);
    RemovedTable(x, o, h);
    var x' := RemovePageTable(x, o).value;
    if q != o {
      assert PointerAt(x, q);
      ArraysApart(x, q, o, h);
      EntryKept(x, x', q, v);
    }
    forall p: Pid ensures PointerAt(x', p) {
      assert PointerAt(x, p);
    }
    forall g: Pid ensures TableAt(x', g) {
      assert TableAt(x, g);
    }
  }

  /** `x'` is `x` with the page of `vaddr` of `pid` in frame `g`, the first free one. */
  ghost predicate Placed(x: State, x': State, pid: Pid, vaddr: Vaddr, g: Pid) {
    && Resident(x, pid) && FindFree(x) == Some(g)
    && x' == x.(mem := x'.mem, freelist := x.freelist[g := 0], pages := x.pages[g := pid])
    && var at := x.hardware[pid].address + 4 * (vaddr / 16);
       && x'.mem[at + 1] == 16 * g && x'.mem[at + 3] == 2
       && forall k | 0 <= k < 64 && !(16 * g <= k < 16 * g + 16) && !(at <= k < at + 4) :: x'.mem[k] == x.mem[k]
  }

  lemma LoadPagePlaces(x: State, pid: Pid, vaddr: Vaddr)
    requires LoadPage(x, pid, vaddr).Some?
    ensures FindFree(x).Some? && Placed(x, LoadPage(x, pid, vaddr).value, pid, vaddr, FindFree(x).value)
  {
    var f := FindFree(x).value;
    var at := FindPte(x, pid, vaddr);
    var page := x.swap[x.mem[at + 1]];
    forall k | 0 <= k < 64 && !(16 * f <= k < 16 * f + 16) && !(at <= k < at + 4)
      ensures SwappedIn(x.mem, at, f, page)[k] == x.mem[k]
    {
      PutFrameAt(x.mem, f, page, k);
    }
  }

  lemma PlacePagePlaces(x: State, pid: Pid, vaddr: Vaddr, val: Byte)
    requires PlacePage(x, pid, vaddr, val).Some?
    ensures FindFree(x).Some? && Placed(x, PlacePage(x, pid, vaddr, val).value, pid, vaddr, FindFree(x).value)
  {
    PlacePageParts(x, pid, vaddr, val, FindFree(x).value);
  }

  lemma PlacedEntry(x: State, x': State, pid: Pid, vaddr: Vaddr, g: Pid)
    requires Placed(x, x', pid, vaddr, g)
    ensures EntryAt(x', pid, vaddr / 16).pfn == 16 * g && EntryAt(x', pid, vaddr / 16).valpres == 2
  {
    ResidentEntry(x', pid, vaddr / 16);
  }

  lemma PlacedArrays(x: State, x': State, pid: Pid, vaddr: Vaddr, g: Pid)
    requires Arrays(x) && Placed(x, x', pid, vaddr, g)
    ensures Arrays(x')
  {
    assert TableAt(x, g);
    forall p: Pid ensures PointerAt(x', p) {
      assert PointerAt(x, p);
    }
    forall f: Pid ensures TableAt(x', f) {
      assert TableAt(x, f);
    }
  }

  /** Only that entry changes. */
  lemma PlacedKeeps(x: State, x': State, pid: Pid, vaddr: Vaddr, g: Pid, q: Pid, v: Pid)
    requires Arrays(x) && Placed(x, x', pid, vaddr, g) && !(q == pid && v == vaddr / 16)
    ensures EntryAt(x', q, v) == EntryAt(x, q, v)
  {
    FreeNoTable(x, g);
    ArraysApart(x, q, pid, g);
    EntryKept(x, x', q, v);
  }

  lemma PlacedLeaves(x: State, x': State, pid: Pid, vaddr: Vaddr, g: Pid, q: Pid, v: Pid)
    requires Arrays(x) && Placed(x, x', pid, vaddr, g) && q != pid
    ensures Arrays(x') && Leaves(x, x', pid, q, v)
  {
    PlacedArrays(x, x', pid, vaddr, g);
    PlacedKeeps(x, x', pid, vaddr, g, q, v);
  }

  // ----- the eviction of a page, whatever the scan settles on

  /** `y` is `x` without the page in frame `g`, the entry at `at` updated for it. */
  ghost predicate Gone(x: State, y: State, at: int, g: Pid) {
    && 0 <= at < 61 && at % 4 == 0
    && y == x.(swap := x.swap + [Frame(x, g)], mem := OneOut(x.mem, at, g, ZERO_PAGE, |x.swap| % 256),
               freelist := x.freelist[g := 1], pages := x.pages[g := -1], roundrobin := Next(g))
  }

  lemma GoneArrays(x: State, y: State, at: int, g: Pid, pid: Pid)
    requires Arrays(x) && Gone(x, y, at, g) && !IsTable(x, g)
    ensures Arrays(y) && forall f: Pid :: Claimed(x, pid, f) ==> Claimed(y, pid, f)
  {
    forall p: Pid ensures PointerAt(y, p) {
      assert PointerAt(x, p);
    }
    forall f: Pid ensures TableAt(y, f) {
      assert TableAt(x, f);
    }
  }

  /** An entry elsewhere stays as it was. */
  lemma GoneKeeps(x: State, y: State, at: int, g: Pid, q: Pid, v: Pid)
    requires Arrays(x) && Gone(x, y, at, g) && !IsTable(x, g)
    requires x.hardware[q].inmem == 1 ==> at != x.hardware[q].address + 4 * v
    ensures EntryAt(y, q, v) == EntryAt(x, q, v)
  {
    ArraysApart(x, q, q, g);
    assert PointerAt(x, q);
    EntryKept(x, y, q, v);
  }

  lemma GoneWrites(x: State, y: State, at: int, g: Pid, q: Pid, v: Pid)
    requires Arrays(x) && Gone(x, y, at, g) && !IsTable(x, g) && Resident(x, q) && at == x.hardware[q].address + 4 * v
    ensures EntryAt(y, q, v) == EntryAt(x, q, v).(pfn := |x.swap| % 256, valpres := 1)
  {
    ArraysApart(x, q, q, g);
    ResidentEntry(x, q, v);
    ResidentEntry(y, q, v);
  }

  // ----- a first eviction that misses

  predicate MapsTo(s: State, q: Pid, v: Pid, f: Pid) {
    EntryAt(s, q, v).valpres == 2 && EntryAt(s, q, v).pfn == 16 * f
  }

  /** The first page to go from `s` is page `v` of `q`, in frame `f`, and the entry
      updated for it is another, at `at`. */
  ghost predicate Misses(s: State, q: Pid, v: Pid, f: Pid, at: int) {
    && IsData(s, f) && s.pages[f] == q && Resident(s, q) && MapsTo(s, q, v, f)
    && s.hardware[q].address <= at < 61 && at % 4 == 0 && at != s.hardware[q].address + 4 * v
  }

  /** The scan of the table of `q` for frame `f` takes the entry at `at`. */
  predicate ScansTo(x: State, q: Pid, f: Pid, at: int) {
    && Resident(x, q) && LookupVpn(false, x.mem, x.hardware[q].address, 16 * f, 16).Some?
    && at == x.hardware[q].address + 4 * LookupVpn(false, x.mem, x.hardware[q].address, 16 * f, 16).value
  }

  lemma UnsoundMisses(s: State, pid: Pid, f: Pid, y: State) returns (q: Pid, v: Pid, at: int)
    requires Valid(s) && !EvictSound(s, pid) && !AllTables(s) && NextData(s, s.roundrobin, 4) == Some(f)
    requires RemovePage(AS_WRITTEN, s, s.pages[f], f) == Some(y)
    ensures Misses(s, q, v, f, at) && ScansTo(s, q, f, at) && Gone(s, y.(roundrobin := Next(f)), at, f)
  {
    NextDataFinds(s, s.roundrobin, 4);
    q, v := DataFrameOwner(s, f);
    ViewEntry(s, q, v);
    assert !ScanHitsFrame(s, v, f);
    at := RemovePageAt(AS_WRITTEN, s, q, f);
    AlignedTable(s, q);
    MissedEntry(s, q, v, f, at);
    MissIs(s, q, v, f, at);
  }

  lemma MissIs(s: State, q: Pid, v: Pid, f: Pid, at: int)
    requires IsData(s, f) && s.pages[f] == q && MapsTo(s, q, v, f) && ScansTo(s, q, f, at) && at < 61
    requires s.hardware[q].address % 16 == 0 && s.hardware[q].address <= at != s.hardware[q].address + 4 * v
    ensures Misses(s, q, v, f, at)
  {
  }

  lemma MissedEntry(s: State, q: Pid, v: Pid, f: Pid, at: int)
    requires Valid(s) && Maps(ViewOf(s), q, v, f) && IsData(s, f) && s.pages[f] == q && !ScanHitsFrame(s, v, f)
    requires ScansTo(s, q, f, at)
    ensures at != s.hardware[q].address + 4 * v
  {
    DataFrameMapped(s, q, v, f);
    TablesApart(s, q, q, f);
    ScanFinds(s, q, v, f);
  }

  lemma AlignedTable(s: State, q: Pid)
    requires Valid(s) && Resident(s, q)
    ensures s.hardware[q].address % 16 == 0
  {
    assert PointerOk(ViewOf(s), q);
  }

  lemma EvictionGone(s: State, pid: Pid, f: Pid, a: State)
    requires !AllTables(s) && NextData(s, s.roundrobin, 4) == Some(f) && Evict(AS_WRITTEN, s, pid) == Some(a)
    ensures RemovePage(AS_WRITTEN, s, s.pages[f], f).Some?
    ensures a == RemovePage(AS_WRITTEN, s, s.pages[f], f).value.(roundrobin := Next(f))
  {
  }

  lemma FirstMiss(s: State, pid: Pid, a: State) returns (q: Pid, v: Pid, f: Pid, at: int)
    requires Valid(s) && !EvictSound(s, pid) && !AllTables(s) && Evict(AS_WRITTEN, s, pid) == Some(a)
    ensures NextData(s, s.roundrobin, 4) == Some(f) && Misses(s, q, v, f, at)
    ensures ScansTo(s, q, f, at) && Gone(s, a, at, f)
  {
    f := NextData(s, s.roundrobin, 4).value;
    EvictionGone(s, pid, f, a);
    q, v, at := UnsoundMisses(s, pid, f, RemovePage(AS_WRITTEN, s, s.pages[f], f).value);
  }

  lemma StaleSpoils(s: State, a: State, pid: Pid, q: Pid, v: Pid, f: Pid)
    requires q != pid && MapsTo(a, q, v, f) && Claimed(a, pid, f)
    ensures Spoilt(s, a, pid, q, v)
  {
  }

  lemma MissSpoils(s: State, a: State, pid: Pid, q: Pid, v: Pid, f: Pid, at: int)
    requires Valid(s) && Misses(s, q, v, f, at) && Gone(s, a, at, f) && q != pid
    ensures Arrays(a) && Spoilt(s, a, pid, q, v)
  {
    ValidArrays(s);
    GoneArrays(s, a, at, f, pid);
    GoneKeeps(s, a, at, f, q, v);
    StaleSpoils(s, a, pid, q, v, f);
  }

  // ----- a second eviction after one that missed

  /** The state that the second eviction meets: `page` has come to frame `f`. */
  ghost predicate Met(s: State, a: State, page: Page, pid: Pid, q: Pid, v: Pid, f: Pid, at: int) {
    && Misses(s, q, v, f, at) && q != pid && s.hardware[pid].inmem != 1
    && Arrays(a) && a.mem == OneOut(s.mem, at, f, page, |s.swap| % 256) && a.swap == s.swap + [Frame(s, f)]
    && (forall o: Pid | o != pid :: a.hardware[o] == s.hardware[o])
    && (forall g: Pid | g != f :: a.freelist[g] == s.freelist[g] && IsTable(a, g) == IsTable(s, g) && a.pages[g] == s.pages[g])
    && !IsData(a, f) && Claimed(a, pid, f)
  }

  lemma OneOutKeeps(s: State, a: State, page: Page, f: Pid, at: int, o: Pid, u: Pid)
    requires Resident(s, o) && Apart(s, o, o, f) && a.hardware[o] == s.hardware[o]
    requires at % 4 == 0 && s.hardware[o].address % 4 == 0 && at != s.hardware[o].address + 4 * u
    requires a.mem == OneOut(s.mem, at, f, page, |s.swap| % 256)
    ensures EntryAt(a, o, u) == EntryAt(s, o, u)
  {
    var to := s.hardware[o].address + 4 * u;
    EntriesApart(at, to);
    assert forall k | to <= k < to + 4 :: a.mem[k] == s.mem[k];
    ResidentEntry(s, o, u);
    ResidentEntry(a, o, u);
  }

  lemma EntriesApart(a: int, b: int)
    requires a % 4 == 0 && b % 4 == 0 && a != b
    ensures a + 4 <= b || b + 4 <= a
  {
  }

  lemma MetKeeps(s: State, a: State, page: Page, pid: Pid, q: Pid, v: Pid, f: Pid, at: int, o: Pid, u: Pid)
    requires Valid(s) && Met(s, a, page, pid, q, v, f, at) && Resident(s, o) && o != pid
    requires at != s.hardware[o].address + 4 * u
    ensures EntryAt(a, o, u) == EntryAt(s, o, u)
  {
    TablesApart(s, o, o, f);
    AlignedTable(s, o);
    OneOutKeeps(s, a, page, f, at, o, u);
  }

  lemma MetSpoilt(s: State, a: State, page: Page, pid: Pid, q: Pid, v: Pid, f: Pid, at: int)
    requires Valid(s) && Met(s, a, page, pid, q, v, f, at)
    ensures Spoilt(s, a, pid, q, v)
  {
    MetKeeps(s, a, page, pid, q, v, f, at, q, v);
    StaleSpoils(s, a, pid, q, v, f);
  }

  /** The page that goes second, and its owner. */
  lemma MetOwner(s: State, a: State, page: Page, pid: Pid, q: Pid, v: Pid, f: Pid, at: int, g: Pid) returns (o: Pid, u: Pid)
    requires Valid(s) && Met(s, a, page, pid, q, v, f, at) && IsData(a, g)
    ensures g != f && IsData(s, g) && o == s.pages[g] == a.pages[g] && o != pid && Resident(s, o)
    ensures MapsTo(s, o, u, g) && Maps(ViewOf(s), o, u, g) && a.hardware[o] == s.hardware[o]
  {
    assert IsTable(a, g) == IsTable(s, g);
    o, u := DataFrameOwner(s, g);
    ViewEntry(s, o, u);
  }

  /** Each of two tables cannot hold an entry that the scan of the other reaches. */
  lemma OneTable(s: State, q: Pid, v: Pid, o: Pid, u: Pid, x: nat, y: nat)
    requires Valid(s) && Resident(s, q) && Resident(s, o)
    requires s.hardware[q].address + 4 * x == s.hardware[o].address + 4 * u
    requires s.hardware[o].address + 4 * y == s.hardware[q].address + 4 * v
    ensures o == q && x == u && y == v
  {
    assert PointerOk(ViewOf(s), q) && PointerOk(ViewOf(s), o);
    AlignedTable(s, q);
    AlignedTable(s, o);
  }

  lemma EntryPlaces(s: State, q: Pid, v: Pid, o: Pid, u: Pid)
    requires Valid(s) && Resident(s, q) && Resident(s, o)
    requires s.hardware[q].address + 4 * v == s.hardware[o].address + 4 * u
    ensures q == o && v == u
  {
    assert PointerOk(ViewOf(s), q) && PointerOk(ViewOf(s), o);
    AlignedTable(s, q);
    AlignedTable(s, o);
  }

  /** The page that goes second is entry `u` of `o`; the scan for it ends where the
      first page's entry is, but the first did not update its own. */
  lemma SecondStale(s: State, a: State, b: State, page: Page, pid: Pid, q: Pid, v: Pid, f: Pid, at: int, o: Pid, u: Pid, g: Pid)
    requires Valid(s) && Met(s, a, page, pid, q, v, f, at) && Resident(s, o) && o != pid && g != f
    requires IsData(a, g) && MapsTo(s, o, u, g) && Gone(a, b, s.hardware[q].address + 4 * v, g)
    requires at != s.hardware[o].address + 4 * u
    ensures Spoilt(s, b, pid, o, u)
  {
    MetKeeps(s, a, page, pid, q, v, f, at, o, u);
    if s.hardware[q].address + 4 * v == s.hardware[o].address + 4 * u {
      EntryPlaces(s, q, v, o, u);
    }
    GoneKeeps(a, b, s.hardware[q].address + 4 * v, g, o, u);
    StaleSpoils(s, b, pid, o, u, g);
  }

  lemma LineSpoils(s: State, b: State, pid: Pid, q: Pid, v: Pid, line: Byte)
    requires q != pid && EntryAt(b, q, v).valpres == 1 && EntryAt(b, q, v).pfn == line < |b.swap|
    requires PageOf(ViewOf(s), q, v) == Mapped(EntryAt(b, q, v).prot, b.swap[line]) ==> false
    ensures Spoilt(s, b, pid, q, v)
  {
  }

  /** Each went under the other's entry, and the pages differ. */
  lemma SecondLine(s: State, a: State, b: State, page: Page, pid: Pid, q: Pid, v: Pid, f: Pid, at: int, g: Pid)
    requires Valid(s) && Met(s, a, page, pid, q, v, f, at) && |s.swap| + 2 <= 256 && Maps(ViewOf(s), q, v, f)
    requires IsData(a, g) && g != f && !IsTable(s, g) && Gone(a, b, s.hardware[q].address + 4 * v, g)
    requires at <= s.hardware[q].address + 12 && Frame(s, f) != Frame(s, g)
    ensures Spoilt(s, b, pid, q, v)
  {
    GoneWrites(a, b, s.hardware[q].address + 4 * v, g, q, v);
    LineSeen(s, q, v, f);
    ClearTable(s, q, f, g);
    FrameBeside(s.mem, at, f, page, |s.swap| % 256, g);
    SecondLineIs(s, a, b, f, g);
    LineSpoils(s, b, pid, q, v, |s.swap| + 1);
  }

  lemma SecondLineIs(s: State, a: State, b: State, f: Pid, g: Pid)
    requires a.swap == s.swap + [Frame(s, f)] && b.swap == a.swap + [Frame(a, g)] && |s.swap| + 2 <= 256
    ensures |a.swap| % 256 == |s.swap| + 1 < |b.swap| && b.swap[|s.swap| + 1] == Frame(a, g)
  {
  }

  /** The two scans, and the pages the same: the evictions cross. */
  lemma SecondCrosses(s: State, a: State, page: Page, pid: Pid, q: Pid, v: Pid, f: Pid, at: int, o: Pid, u: Pid, g: Pid)
    requires Valid(s) && Met(s, a, page, pid, q, v, f, at) && ScansTo(s, q, f, at)
    requires g != f && IsData(s, g) && s.pages[g] == o && Resident(s, o) && a.hardware[o] == s.hardware[o]
    requires Maps(ViewOf(s), q, v, f) && Maps(ViewOf(s), o, u, g) && Frame(s, f) == Frame(s, g)
    requires at == s.hardware[o].address + 4 * u && ScansTo(a, o, g, s.hardware[q].address + 4 * v)
    requires a.hardware[o].address <= s.hardware[q].address + 4 * v
    ensures o == q && Crossed(s, page, q, v, f, u, g)
  {
    var x := ScanPlace(s, q, f, at);
    var y := ScanPlace(a, o, g, s.hardware[q].address + 4 * v);
    OneTable(s, q, v, o, u, x, y);
    ScanSettles(s, q, f, at, u);
    ScanSettles(a, q, g, s.hardware[q].address + 4 * v, v);
    CrossedFrom(s, a.mem, page, q, v, f, u, g);
  }

  lemma ScanPlace(x: State, q: Pid, f: Pid, at: int) returns (vp: nat)
    requires ScansTo(x, q, f, at) && x.hardware[q].address <= at
    ensures at == x.hardware[q].address + 4 * vp
  {
    vp := LookupVpn(false, x.mem, x.hardware[q].address, 16 * f, 16).value;
  }

  lemma ScanSettles(x: State, q: Pid, f: Pid, at: int, v: Pid)
    requires ScansTo(x, q, f, at) && at == x.hardware[q].address + 4 * v
    ensures LookupVpn(false, x.mem, x.hardware[q].address, 16 * f, 16) == Some(v as int)
  {
  }

  lemma CrossedFrom(s: State, mem: seq<Byte>, page: Page, q: Pid, v: Pid, f: Pid, u: Pid, g: Pid)
    requires Resident(s, q) && v != u && f != g && IsData(s, f) && IsData(s, g) && s.pages[f] == q && s.pages[g] == q
    requires Maps(ViewOf(s), q, v, f) && Maps(ViewOf(s), q, u, g) && Frame(s, f) == Frame(s, g)
    requires mem == OneOut(s.mem, s.hardware[q].address + 4 * u, f, page, |s.swap| % 256)
    requires LookupVpn(false, s.mem, s.hardware[q].address, 16 * f, 16) == Some(u as int)
    requires LookupVpn(false, mem, s.hardware[q].address, 16 * g, 16) == Some(v as int)
    ensures Crossed(s, page, q, v, f, u, g)
  {
  }

  /** Where the second page's eviction writes, and in which table it looked. */
  ghost predicate SecondGoes(s: State, a: State, b: State, o: Pid, at: int, g: Pid) {
    && IsData(a, g) && a.pages[g] == o && ScansTo(a, o, g, at) && a.hardware[o].address <= at && Gone(a, b, at, g)
  }

  lemma SecondTwin(s: State, a: State, b: State, page: Page, pid: Pid, q: Pid, v: Pid, f: Pid, at: int, o: Pid, u: Pid, g: Pid)
    requires Valid(s) && Met(s, a, page, pid, q, v, f, at) && ScansTo(s, q, f, at) && |s.swap| + 2 <= 256
    requires SecondGoes(s, a, b, o, s.hardware[q].address + 4 * v, g) && at == s.hardware[o].address + 4 * u
    requires g != f && IsData(s, g) && s.pages[g] == o && Resident(s, o) && a.hardware[o] == s.hardware[o]
    requires Maps(ViewOf(s), q, v, f) && Maps(ViewOf(s), o, u, g) && !Crossed(s, page, q, v, f, u, g)
    ensures Spoilt(s, b, pid, q, v)
  {
    var x := ScanPlace(s, q, f, at);
    var y := ScanPlace(a, o, g, s.hardware[q].address + 4 * v);
    OneTable(s, q, v, o, u, x, y);
    if Frame(s, f) == Frame(s, g) {
      SecondCrosses(s, a, page, pid, q, v, f, at, o, u, g);
    }
    SecondLine(s, a, b, page, pid, q, v, f, at, g);
  }

  lemma SecondElsewhere(s: State, a: State, b: State, page: Page, pid: Pid, q: Pid, v: Pid, f: Pid, at: int, at2: int, g: Pid)
    requires Valid(s) && Met(s, a, page, pid, q, v, f, at) && !IsTable(a, g) && Gone(a, b, at2, g)
    requires at2 != s.hardware[q].address + 4 * v
    ensures Spoilt(s, b, pid, q, v)
  {
    MetSpoilt(s, a, page, pid, q, v, f, at);
    GoneArrays(a, b, at2, g, pid);
    GoneKeeps(a, b, at2, g, q, v);
    StillSpoilt(s, a, b, pid, q, v);
  }

  /** A page that goes second does not put right what the first did wrong, unless the
      two cross. */
  lemma SecondPage(s: State, a: State, b: State, page: Page, pid: Pid, q: Pid, v: Pid, f: Pid, at: int, at2: int, g: Pid)
      returns (q': Pid, v': Pid)
    requires Valid(s) && Met(s, a, page, pid, q, v, f, at) && ScansTo(s, q, f, at) && |s.swap| + 2 <= 256
    requires IsData(a, g) && 0 <= a.pages[g] < 4 && SecondGoes(s, a, b, a.pages[g], at2, g)
    requires Maps(ViewOf(s), q, v, f) && forall u: Pid :: !Crossed(s, page, q, v, f, u, g)
    ensures Arrays(b) && Spoilt(s, b, pid, q', v')
  {
    GoneArrays(a, b, at2, g, pid);
    var o: Pid, u: Pid := MetOwner(s, a, page, pid, q, v, f, at, g);
    q', v' := q, v;
    if at2 != s.hardware[q].address + 4 * v {
      SecondElsewhere(s, a, b, page, pid, q, v, f, at, at2, g);
    } else if at != s.hardware[o].address + 4 * u {
      SecondStale(s, a, b, page, pid, q, v, f, at, o, u, g);
      q', v' := o, u;
    } else {
      SecondTwin(s, a, b, page, pid, q, v, f, at, o, u, g);
    }
  }

  // ----- any second eviction

  lemma PageEvicted(a: State, pid: Pid, b: State, g: Pid) returns (at: int)
    requires Arrays(a) && !AllTables(a) && NextData(a, a.roundrobin, 4) == Some(g) && Evict(AS_WRITTEN, a, pid) == Some(b)
    ensures IsData(a, g) && 0 <= a.pages[g] < 4 && ScansTo(a, a.pages[g], g, at)
    ensures a.hardware[a.pages[g]].address <= at && Gone(a, b, at, g)
  {
    NextDataFinds(a, a.roundrobin, 4);
    EvictionGone(a, pid, g, b);
    at := RemovePageAt(AS_WRITTEN, a, a.pages[g], g);
    assert PointerAt(a, a.pages[g]);
  }

  lemma TableEvicted(a: State, pid: Pid, b: State, q: Pid, v: Pid)
    requires Arrays(a) && !AllTables(a) && NextData(a, a.roundrobin, 4).None? && Evict(AS_WRITTEN, a, pid) == Some(b)
    ensures Arrays(b) && Leaves(a, b, pid, q, v)
  {
    NextTableFinds(a, pid, a.roundrobin, 4);
    var h := NextTable(a, pid, a.roundrobin, 4).value;
    assert TableAt(a, h);
    var o: Pid := a.pages[h];
    TableOutLeaves(a, o, h, pid, q, v);
    var y := RemovePageTable(a, o).value;
    assert b == y.(roundrobin := Next(h));
    HandLeaves(y, Next(h), pid, q, v);
  }

  lemma SecondEviction(s: State, a: State, b: State, page: Page, pid: Pid, q: Pid, v: Pid, f: Pid, at: int) returns (q': Pid, v': Pid)
    requires Valid(s) && Met(s, a, page, pid, q, v, f, at) && ScansTo(s, q, f, at) && |s.swap| + 2 <= 256
    requires !AllTables(a) && Evict(AS_WRITTEN, a, pid) == Some(b) && Maps(ViewOf(s), q, v, f)
    requires forall u: Pid, g: Pid | NextData(a, a.roundrobin, 4) == Some(g) :: !Crossed(s, page, q, v, f, u, g)
    ensures Arrays(b) && Spoilt(s, b, pid, q', v')
  {
    match NextData(a, a.roundrobin, 4)
    case Some(g) =>
      var at2 := PageEvicted(a, pid, b, g);
      q', v' := SecondPage(s, a, b, page, pid, q, v, f, at, at2, g);
    case None =>
      q', v' := q, v;
      MetSpoilt(s, a, page, pid, q, v, f, at);
      TableEvicted(a, pid, b, q, v);
      StillSpoilt(s, a, b, pid, q, v);
  }

  // ----- a page table leaves as if it were a page

  /** With page tables in all frames one of them is freed and still marked a table. */
  lemma FullEvicts(a: State, pid: Pid, b: State)
    requires AllTables(a) && FreeCount(a) == 0 && Evict(AS_WRITTEN, a, pid) == Some(b)
    ensures b.ispagetable == a.ispagetable && b.hardware == a.hardware && FindFree(b) == Some(a.roundrobin)
    ensures IsTable(b, a.roundrobin)
  {
    assert IsTable(a, a.roundrobin);
    OnlyFree(a, b, a.roundrobin);
  }

  /** A page that is placed in such a frame is incoherent. */
  lemma PlacedInTable(x: State, x': State, pid: Pid, vaddr: Vaddr, g: Pid)
    requires Placed(x, x', pid, vaddr, g) && IsTable(x, g)
    ensures InTable(x', pid, vaddr / 16) && !Valid(x')
  {
    PlacedEntry(x, x', pid, vaddr, g);
    assert IsTable(x', g);
    StaleEntryInvalid(x', pid, vaddr / 16, g);
  }

  predicate InTable(x: State, q: Pid, v: Pid) {
    var e := EntryAt(x, q, v);
    e.valpres == 2 && e.pfn <= 48 && e.pfn % 16 == 0 && IsTable(x, e.pfn / 16)
  }

  lemma InTableInvalid(x: State, q: Pid, v: Pid)
    requires InTable(x, q, v)
    ensures !Valid(x)
  {
    StaleEntryInvalid(x, q, v, EntryAt(x, q, v).pfn / 16);
  }

  /** An eviction as written frees one frame, unless page tables fill memory. */
  lemma EvictFrees(a: State, pid: Pid, b: State)
    requires Arrays(a) && !AllTables(a) && Evict(AS_WRITTEN, a, pid) == Some(b)
    ensures FreeCount(b) == FreeCount(a) + 1
  {
    match NextData(a, a.roundrobin, 4)
    case Some(g) =>
      var at := PageEvicted(a, pid, b, g);
    case None =>
      NextTableFinds(a, pid, a.roundrobin, 4);
      var h := NextTable(a, pid, a.roundrobin, 4).value;
      assert TableAt(a, h);
      RemovedTable(a, a.pages[h], h);
  }

  lemma EvictArrays(a: State, pid: Pid, b: State)
    requires Arrays(a) && !AllTables(a) && Evict(AS_WRITTEN, a, pid) == Some(b)
    ensures Arrays(b)
  {
    match NextData(a, a.roundrobin, 4)
    case Some(g) =>
      var at := PageEvicted(a, pid, b, g);
      GoneArrays(a, b, at, g, pid);
    case None =>
      TableEvicted(a, pid, b, pid, 0);
  }

  lemma EvictPointer(a: State, pid: Pid, b: State)
    requires Arrays(a) && !AllTables(a) && Evict(AS_WRITTEN, a, pid) == Some(b)
    ensures b.hardware[pid] == a.hardware[pid]
  {
    match NextData(a, a.roundrobin, 4)
    case Some(g) =>
      var at := PageEvicted(a, pid, b, g);
    case None =>
      NextTableFinds(a, pid, a.roundrobin, 4);
      var h := NextTable(a, pid, a.roundrobin, 4).value;
      assert TableAt(a, h);
      RemovedTable(a, a.pages[h], h);
  }
}
