/** Two evictions that both update the wrong entry, each the other's: when the two pages
    are the same this comes out right. */
module PagerCrossing {
  import opened Options
  import opened PagerModel
  import opened PagerTables
  import opened PagerBytes
  import opened PagerEviction
  import opened PagerCommands
  import opened PagerAsWritten
  import opened PagerLanding
  import opened PagerStray

  // ----- one eviction of a page

  /** Byte `k` of memory once the entry at `at` was updated for frame `f`, where `page`
      is now. */
  function OneOutByte(mem: seq<Byte>, at: int, f: Pid, page: Page, line: Byte, k: int): Byte
    requires |mem| == 64 && 0 <= k < 64
  {
    if 16 * f <= k < 16 * f + 16 then page[k - 16 * f] else if k == at + 3 then 1 else if k == at + 1 then line else mem[k]
  }

  function OneOut(mem: seq<Byte>, at: int, f: Pid, page: Page, line: Byte): (m: seq<Byte>)
    requires |mem| == 64
    ensures |m| == 64
  {
    seq(64, k requires 0 <= k < 64 => OneOutByte(mem, at, f, page, line, k))
  }

  lemma PutFrameAt(mem: seq<Byte>, f: Pid, page: Page, k: int)
    requires |mem| == 64 && 0 <= k < 64
    ensures PutFrame(mem, f, page)[k] == if 16 * f <= k < 16 * f + 16 then page[k - 16 * f] else mem[k]
  {
  }

  lemma OneOutIs(mem: seq<Byte>, at: int, f: Pid, page: Page, line: Byte)
    requires |mem| == 64 && 0 <= at < 61
    ensures SwappedOut(mem, at, f, line) == OneOut(mem, at, f, ZERO_PAGE, line)
    ensures PutFrame(OneOut(mem, at, f, ZERO_PAGE, line), f, page) == OneOut(mem, at, f, page, line)
  {
    forall k | 0 <= k < 64 ensures SwappedOut(mem, at, f, line)[k] == OneOut(mem, at, f, ZERO_PAGE, line)[k] {
      PutFrameAt(mem[at + 1 := line][at + 3 := 1], f, ZERO_PAGE, k);
    }
    forall k | 0 <= k < 64 ensures PutFrame(OneOut(mem, at, f, ZERO_PAGE, line), f, page)[k] == OneOut(mem, at, f, page, line)[k] {
      PutFrameAt(OneOut(mem, at, f, ZERO_PAGE, line), f, page, k);
    }
  }

  /** Where the eviction of the page in frame `g` writes: the entry it takes for that of
      the page is at `at`. */
  lemma RemovePageAt(fix: Repairs, x: State, o: Pid, g: Pid) returns (at: int)
    requires RemovePage(fix, x, o, g).Some?
    ensures Resident(x, o) && LookupVpn(fix.exactLookup, x.mem, x.hardware[o].address, 16 * g, 16).Some?
    ensures at == x.hardware[o].address + 4 * LookupVpn(fix.exactLookup, x.mem, x.hardware[o].address, 16 * g, 16).value
    ensures x.hardware[o].address <= at < 61
    ensures RemovePage(fix, x, o, g).value ==
      x.(swap := x.swap + [Frame(x, g)], mem := OneOut(x.mem, at, g, ZERO_PAGE, |x.swap| % 256),
         freelist := x.freelist[g := 1], pages := x.pages[g := -1])
  {
    at := x.hardware[o].address + 4 * LookupVpn(fix.exactLookup, x.mem, x.hardware[o].address, 16 * g, 16).value;
    OneOutIs(x.mem, at, g, ZERO_PAGE, |x.swap| % 256);
  }

  /** `x` after the page in frame `f` has gone, entry `v` of `q` being updated for it. */
  function PageSent(x: State, q: Pid, v: Pid, f: Pid): State
    requires Resident(x, q)
  {
    x.(swap := x.swap + [Frame(x, f)], mem := OneOut(x.mem, x.hardware[q].address + 4 * v, f, ZERO_PAGE, |x.swap| % 256),
       freelist := x.freelist[f := 1], pages := x.pages[f := -1], roundrobin := Next(f))
  }

  /** The next eviction sends the page in frame `f`, one of `q`, for which the scan
      settles on `v`. */
  predicate Sends(fix: Repairs, x: State, q: Pid, v: Pid, f: Pid) {
    && Resident(x, q) && IsData(x, f) && x.pages[f] == q && NextData(x, x.roundrobin, 4) == Some(f)
    && LookupVpn(fix.exactLookup, x.mem, x.hardware[q].address, 16 * f, 16) == Some(v as int)
  }

  lemma NotAllTablesHere(x: State, f: Pid)
    requires IsData(x, f)
    ensures !AllTables(x)
  {
    assert !IsTable(x, f);
  }

  lemma EvictsBySending(fix: Repairs, x: State, pid: Pid, q: Pid, v: Pid, f: Pid)
    requires Sends(fix, x, q, v, f)
    ensures Evict(fix, x, pid) == Some(PageSent(x, q, v, f))
  {
    NotAllTablesHere(x, f);
    OneOutIs(x.mem, x.hardware[q].address + 4 * v, f, ZERO_PAGE, |x.swap| % 256);
    assert RemovePage(fix, x, q, f) == Some(PageSent(x, q, v, f).(roundrobin := x.roundrobin));
  }

  lemma MappedData(t: View, q: Pid, v: Pid, f: Pid)
    requires Coherent(t) && Maps(t, q, v, f)
    ensures Data(t, f) && t.pages[f] == q
  {
    assert EntryOk(t, q, v);
  }

  lemma RepairedSends(x: State, q: Pid, v: Pid, f: Pid)
    requires Valid(x) && Maps(ViewOf(x), q, v, f) && NextData(x, x.roundrobin, 4) == Some(f)
    ensures Sends(REPAIRED, x, q, v, f)
  {
    MappedData(ViewOf(x), q, v, f);
    DataFrameMapped(x, q, v, f);
    LookupFinds(x, q, v, f, 16);
  }

  // ----- two of them, crossed

  /** Neither entry of the table at `a` lies in one of the frames. */
  predicate Clear(a: int, f: Pid, g: Pid) {
    && 0 <= a <= 48
    && (a + 16 <= 16 * f || 16 * f + 16 <= a) && (a + 16 <= 16 * g || 16 * g + 16 <= a)
  }

  /** Byte `k` of memory after entry `v` of the table at `a` was updated for frame `f`,
      `page` came to frame `f`, and entry `u` was updated for frame `g`. */
  function TwoOutByte(mem: seq<Byte>, a: int, v: Pid, f: Pid, page: Page, u: Pid, g: Pid, n: nat, k: int): Byte
    requires |mem| == 64 && n < 255 && 0 <= k < 64
  {
    if 16 * g <= k < 16 * g + 16 then 0
    else if 16 * f <= k < 16 * f + 16 then page[k - 16 * f]
    else if k == a + 4 * v + 1 then n
    else if k == a + 4 * u + 1 then n + 1
    else if k == a + 4 * v + 3 || k == a + 4 * u + 3 then 1
    else mem[k]
  }

  // ----- swap lines exchanged

  lemma RepointState(r: State, a: State, q: Pid, v: Pid, line: Byte)
    requires Valid(r) && EntryAt(r, q, v).valpres == 1 && TableByte(r, a, q, v, 1, line)
    requires EntryAt(r, q, v).pfn < |r.swap| && line < |r.swap| && r.swap[line] == r.swap[EntryAt(r, q, v).pfn]
    ensures Valid(a) && SamePages(ViewOf(r), ViewOf(a))
    ensures EntryAt(a, q, v) == EntryAt(r, q, v).(pfn := line)
    ensures forall p: Pid, w: Pid | !(p == q && w == v) :: EntryAt(a, p, w) == EntryAt(r, p, w)
  {
    ViewEntry(r, q, v);
    TableByteHere(r, a, q, v, 1, line);
    TableByteView(r, a, q, v, 1, line);
    RepointKeeps(ViewOf(r), q, v, line);
    forall p: Pid, w: Pid | !(p == q && w == v) ensures EntryAt(a, p, w) == EntryAt(r, p, w) {
      TableByteEntry(r, a, q, v, 1, line, p, w);
    }
  }

  /** `a` is `r` but for the swap lines of two pages of `q`, which are exchanged. */
  predicate Exchanged(r: State, a: State, q: Pid, v: Pid, u: Pid) {
    && Resident(r, q) && v != u
    && var at := r.hardware[q].address;
       && a == r.(mem := a.mem)
       && a.mem == r.mem[at + 4 * v + 1 := EntryAt(r, q, u).pfn][at + 4 * u + 1 := EntryAt(r, q, v).pfn]
  }

  /** The same pages on both lines, it makes no difference. */
  lemma ExchangeKeeps(r: State, a: State, q: Pid, v: Pid, u: Pid)
    requires Valid(r) && Exchanged(r, a, q, v, u) && EntryAt(r, q, v).valpres == 1 && EntryAt(r, q, u).valpres == 1
    requires EntryAt(r, q, v).pfn < |r.swap| && EntryAt(r, q, u).pfn < |r.swap|
    requires r.swap[EntryAt(r, q, v).pfn] == r.swap[EntryAt(r, q, u).pfn]
    ensures Valid(a) && SamePages(ViewOf(r), ViewOf(a))
    ensures forall p: Pid, w: Pid | !(p == q && (w == v || w == u)) :: EntryAt(a, p, w) == EntryAt(r, p, w)
  {
    var b := r.(mem := r.mem[r.hardware[q].address + 4 * v + 1 := EntryAt(r, q, u).pfn]);
    RepointState(r, b, q, v, EntryAt(r, q, u).pfn);
    RepointState(b, a, q, u, EntryAt(r, q, v).pfn);
    SameTwice(r, b, a);
  }

  // ----- the pages that cross

  /** The pages of entries `v` and `u` of `q`, in frames `f` and `g`, are the same. The
      scan for the first settles on `u`; that for the second, which finds `page` in
      frame `f`, on `v`. */
  predicate Crossed(s: State, page: Page, q: Pid, v: Pid, f: Pid, u: Pid, g: Pid) {
    && Resident(s, q) && v != u && f != g && IsData(s, f) && IsData(s, g) && s.pages[f] == q && s.pages[g] == q
    && Maps(ViewOf(s), q, v, f) && Maps(ViewOf(s), q, u, g) && Frame(s, f) == Frame(s, g)
    && var at := s.hardware[q].address;
       && LookupVpn(false, s.mem, at, 16 * f, 16) == Some(u as int)
       && LookupVpn(false, OneOut(s.mem, at + 4 * u, f, page, |s.swap| % 256), at, 16 * g, 16) == Some(v as int)
  }

  /** `s'` is `s` with both pages gone and `page` in frame `f`, their lines as recorded
      by way of entries `v`, then `u`. */
  predicate BothGone(s: State, s': State, page: Page, q: Pid, v: Pid, f: Pid, u: Pid, g: Pid) {
    && Resident(s, q) && |s.swap| + 2 <= 256
    && (forall k | 0 <= k < 64 :: s'.mem[k] == TwoOutByte(s.mem, s.hardware[q].address, v, f, page, u, g, |s.swap|, k))
    && s'.swap == s.swap + [Frame(s, f)] + [Frame(s, g)]
    && s'.hardware[q] == s.hardware[q]
  }

  lemma ClearTable(s: State, q: Pid, f: Pid, g: Pid)
    requires Valid(s) && Resident(s, q) && !IsTable(s, f) && !IsTable(s, g)
    ensures Clear(s.hardware[q].address, f, g)
  {
    TablesApart(s, q, q, f);
    TablesApart(s, q, q, g);
  }

  lemma GoneEntry(s: State, r: State, page: Page, q: Pid, v: Pid, f: Pid, u: Pid, g: Pid, w: Pid)
    requires BothGone(s, r, page, q, v, f, u, g) && Clear(s.hardware[q].address, f, g) && f != g && v != u
    requires w == v || w == u
    ensures EntryAt(r, q, w) == EntryAt(s, q, w).(pfn := if w == v then |s.swap| else |s.swap| + 1, valpres := 1)
  {
    ResidentEntry(s, q, w);
    ResidentEntry(r, q, w);
  }

  lemma GoneEntries(s: State, r: State, page: Page, q: Pid, v: Pid, f: Pid, u: Pid, g: Pid)
    requires BothGone(s, r, page, q, v, f, u, g) && Clear(s.hardware[q].address, f, g) && f != g && v != u
    ensures EntryAt(r, q, v) == EntryAt(s, q, v).(pfn := |s.swap|, valpres := 1)
    ensures EntryAt(r, q, u) == EntryAt(s, q, u).(pfn := |s.swap| + 1, valpres := 1)
  {
    GoneEntry(s, r, page, q, v, f, u, g, v);
    GoneEntry(s, r, page, q, v, f, u, g, u);
  }

  lemma GoneLines(s: State, r: State, page: Page, q: Pid, v: Pid, f: Pid, u: Pid, g: Pid)
    requires BothGone(s, r, page, q, v, f, u, g)
    ensures |r.swap| == |s.swap| + 2 && r.swap[|s.swap|] == Frame(s, f) && r.swap[|s.swap| + 1] == Frame(s, g)
    ensures s.swap <= r.swap
  {
  }

  lemma GoneExchanged(s: State, r: State, a: State, page: Page, q: Pid, v: Pid, f: Pid, u: Pid, g: Pid)
    requires BothGone(s, r, page, q, v, f, u, g) && BothGone(s, a, page, q, u, f, v, g) && a == r.(mem := a.mem)
    requires Clear(s.hardware[q].address, f, g) && f != g && v != u
    requires EntryAt(r, q, v).pfn == |s.swap| && EntryAt(r, q, u).pfn == |s.swap| + 1
    ensures Exchanged(r, a, q, v, u)
  {
    GoneMemory(s.mem, r.mem, a.mem, s.hardware[q].address, v, f, page, u, g, |s.swap|);
    ExchangedBy(r, a, q, v, u, |s.swap|);
  }

  lemma GoneMemory(mem: seq<Byte>, mr: seq<Byte>, ma: seq<Byte>, at: int, v: Pid, f: Pid, page: Page, u: Pid, g: Pid, n: nat)
    requires |mem| == |mr| == |ma| == 64 && n < 255 && Clear(at, f, g) && f != g && v != u
    requires forall k | 0 <= k < 64 :: mr[k] == TwoOutByte(mem, at, v, f, page, u, g, n, k)
    requires forall k | 0 <= k < 64 :: ma[k] == TwoOutByte(mem, at, u, f, page, v, g, n, k)
    ensures ma == mr[at + 4 * v + 1 := n + 1][at + 4 * u + 1 := n]
  {
  }

  lemma ExchangedBy(r: State, a: State, q: Pid, v: Pid, u: Pid, n: nat)
    requires Resident(r, q) && v != u && n < 255 && EntryAt(r, q, v).pfn == n && EntryAt(r, q, u).pfn == n + 1
    requires a == r.(mem := a.mem)
    requires var at := r.hardware[q].address; a.mem == r.mem[at + 4 * v + 1 := n + 1][at + 4 * u + 1 := n]
    ensures Exchanged(r, a, q, v, u)
  {
  }

  /** The crossed evictions end as the repaired ones do, but for the exchange. */
  lemma CrossedExchange(s: State, r: State, a: State, page: Page, q: Pid, v: Pid, f: Pid, u: Pid, g: Pid)
    requires Valid(s) && Valid(r) && Crossed(s, page, q, v, f, u, g)
    requires BothGone(s, r, page, q, v, f, u, g) && BothGone(s, a, page, q, u, f, v, g) && a == r.(mem := a.mem)
    ensures Valid(a) && SamePages(ViewOf(r), ViewOf(a))
    ensures forall p: Pid, w: Pid | !(p == q && (w == v || w == u)) :: EntryAt(a, p, w) == EntryAt(r, p, w)
  {
    ClearTable(s, q, f, g);
    GoneEntries(s, r, page, q, v, f, u, g);
    GoneLines(s, r, page, q, v, f, u, g);
    GoneExchanged(s, r, a, page, q, v, f, u, g);
    ExchangeKeeps(r, a, q, v, u);
  }

  // ----- the evictions that do so

  lemma FrameBeside(mem: seq<Byte>, at: int, f: Pid, page: Page, line: Byte, g: Pid)
    requires |mem| == 64 && 0 <= at < 61 && f != g && (at + 4 <= 16 * g || 16 * g + 16 <= at)
    ensures OneOut(mem, at, f, page, line)[16 * g..16 * g + 16] == mem[16 * g..16 * g + 16]
  {
  }

  /** `x` is met by the second eviction: the page of frame `f` has gone, its line being
      recorded in entry `v` of `q`, and `page` has come to frame `f`. */
  predicate Between(s: State, x: State, page: Page, q: Pid, v: Pid, f: Pid, g: Pid) {
    && Resident(s, q)
    && x.mem == OneOut(s.mem, s.hardware[q].address + 4 * v, f, page, |s.swap| % 256)
    && x.swap == s.swap + [Frame(s, f)] && x.hardware[q] == s.hardware[q]
    && IsData(x, g) && x.pages[g] == q && NextData(x, x.roundrobin, 4) == Some(g)
  }

  lemma SecondGone(s: State, x: State, page: Page, q: Pid, v: Pid, f: Pid, u: Pid, g: Pid)
    requires Between(s, x, page, q, v, f, g) && Clear(s.hardware[q].address, f, g) && f != g && v != u && |s.swap| + 2 <= 256
    ensures BothGone(s, PageSent(x, q, u, g), page, q, v, f, u, g)
  {
    var n := |s.swap|;
    FrameBeside(s.mem, s.hardware[q].address + 4 * v, f, page, n, g);
    assert Frame(x, g) == Frame(s, g);
    assert n % 256 == n && |x.swap| == n + 1 && (n + 1) % 256 == n + 1;
    SentMemory(s, x, page, q, v, f, u, g);
  }

  lemma SentMemory(s: State, x: State, page: Page, q: Pid, v: Pid, f: Pid, u: Pid, g: Pid)
    requires Resident(s, q) && x.hardware[q] == s.hardware[q] && |s.swap| + 2 <= 256 && |x.swap| == |s.swap| + 1
    requires x.mem == OneOut(s.mem, s.hardware[q].address + 4 * v, f, page, |s.swap|)
    requires Clear(s.hardware[q].address, f, g) && f != g && v != u
    ensures forall k | 0 <= k < 64 ::
      PageSent(x, q, u, g).mem[k] == TwoOutByte(s.mem, s.hardware[q].address, v, f, page, u, g, |s.swap|, k)
  {
    assert |x.swap| % 256 == |s.swap| + 1;
  }

  lemma SecondSent(s: State, a: State, r: State, page: Page, q: Pid, v: Pid, f: Pid, u: Pid, g: Pid, pid: Pid)
    requires Valid(s) && Valid(r) && |s.swap| + 2 <= 256 && FreeCount(r) <= 2 && Crossed(s, page, q, v, f, u, g)
    requires Between(s, a, page, q, u, f, g) && Between(s, r, page, q, v, f, g) && a == r.(mem := a.mem)
    requires Maps(ViewOf(r), q, u, g)
    ensures Evict(AS_WRITTEN, a, pid).Some? && Evict(REPAIRED, r, pid).Some?
    ensures var a2, r2 := Evict(AS_WRITTEN, a, pid).value, Evict(REPAIRED, r, pid).value;
      && Evicted(r, r2, pid, 1) && Valid(a2) && SamePages(ViewOf(r2), ViewOf(a2)) && a2 == r2.(mem := a2.mem)
      && a2.freelist == a.freelist[g := 1]
      && forall p: Pid, w: Pid | !(p == q && (w == v || w == u)) :: EntryAt(a2, p, w) == EntryAt(r2, p, w)
  {
    ClearTable(s, q, f, g);
    RepairedSends(r, q, u, g);
    EvictsBySending(REPAIRED, r, pid, q, u, g);
    EvictsBySending(AS_WRITTEN, a, pid, q, v, g);
    EvictHidden(r, pid);
    SecondGone(s, r, page, q, v, f, u, g);
    SecondGone(s, a, page, q, u, f, v, g);
    SentAlike(s, a, r, page, q, v, f, u, g);
    CrossedExchange(s, PageSent(r, q, u, g), PageSent(a, q, v, g), page, q, v, f, u, g);
  }

  lemma SentAlike(s: State, a: State, r: State, page: Page, q: Pid, v: Pid, f: Pid, u: Pid, g: Pid)
    requires Resident(r, q) && Resident(a, q) && a == r.(mem := a.mem)
    requires BothGone(s, PageSent(r, q, u, g), page, q, v, f, u, g) && BothGone(s, PageSent(a, q, v, g), page, q, u, f, v, g)
    ensures PageSent(a, q, v, g) == PageSent(r, q, u, g).(mem := PageSent(a, q, v, g).mem)
  {
  }

  // ----- for a first table

  /** The evictions for a new page table, the hand being on the first frame to try, cross. */
  predicate NewCrossedBy(s: State, q: Pid, v: Pid, f: Pid, u: Pid, g: Pid) {
    && FreeCount(s) == 0 && NextData(s, s.roundrobin, 4) == Some(f)
    && NextData(s.(freelist := s.freelist[f := 1]), Next(f), 4) == Some(g)
    && Crossed(s, ZERO_PAGE, q, v, f, u, g)
  }

  /** The first eviction, as it should be and as it is. */
  lemma FirstSent(s: State, page: Page, q: Pid, v: Pid, f: Pid, u: Pid, g: Pid, pid: Pid)
    requires Valid(s) && |s.swap| + 2 <= 256 && FreeCount(s) == 0 && NextData(s, s.roundrobin, 4) == Some(f)
    requires Crossed(s, page, q, v, f, u, g)
    ensures Evict(AS_WRITTEN, s, pid) == Some(PageSent(s, q, u, f))
    ensures Evict(REPAIRED, s, pid) == Some(PageSent(s, q, v, f))
    ensures Evicted(s, PageSent(s, q, v, f), pid, 1) && Maps(ViewOf(PageSent(s, q, v, f)), q, u, g)
  {
    EvictsBySending(AS_WRITTEN, s, pid, q, u, f);
    RepairedSends(s, q, v, f);
    EvictsBySending(REPAIRED, s, pid, q, v, f);
    EvictHidden(s, pid);
    SentMaps(s, q, v, f, u, g);
  }

  /** The search for a page does not depend on where the hand is. */
  lemma {:induction false} SearchFrom(s: State, t: State, h: Pid, k: nat)
    requires s.freelist == t.freelist && s.ispagetable == t.ispagetable
    ensures NextData(s, h, k) == NextData(t, h, k)
    decreases k
  {
    if k > 0 {
      SearchFrom(s, t, Next(h), k - 1);
    }
  }

  lemma SentIsRemoved(x: State, y: State, q: Pid, v: Pid, f: Pid)
    requires Sends(REPAIRED, x, q, v, f) && RemovePage(REPAIRED, x, q, f) == Some(y)
    ensures PageSent(x, q, v, f) == y.(roundrobin := Next(f))
  {
    var at := RemovePageAt(REPAIRED, x, q, f);
  }

  lemma OtherStillMaps(x: State, y: State, q: Pid, v: Pid, f: Pid, u: Pid, g: Pid)
    requires |x.swap| < 256 && ViewOf(y) == PageOut(ViewOf(x), q, v, f) && v != u && Maps(ViewOf(x), q, u, g)
    ensures Maps(ViewOf(y), q, u, g)
  {
  }

  lemma SentMaps(x: State, q: Pid, v: Pid, f: Pid, u: Pid, g: Pid)
    requires Valid(x) && IsData(x, f) && |x.swap| < 256 && Sends(REPAIRED, x, q, v, f)
    requires v != u && Maps(ViewOf(x), q, u, g)
    ensures Maps(ViewOf(PageSent(x, q, v, f)), q, u, g)
  {
    RemovePageView(REPAIRED, x, q, v, f);
    var y := RemovePage(REPAIRED, x, q, f).value;
    OtherStillMaps(x, y, q, v, f, u, g);
    SentIsRemoved(x, y, q, v, f);
    HandMoves(y, y.(roundrobin := Next(f)));
  }

  lemma SentArrays(s: State, x: State, q: Pid, w: Pid, f: Pid)
    requires Resident(s, q) && x == PageSent(s, q, w, f)
    ensures x == s.(mem := OneOut(s.mem, s.hardware[q].address + 4 * w, f, ZERO_PAGE, |s.swap| % 256), swap := s.swap + [Frame(s, f)],
                    freelist := s.freelist[f := 1], pages := s.pages[f := -1], roundrobin := Next(f))
  {
  }

  lemma NewNext(s: State, x: State, q: Pid, v: Pid, f: Pid, u: Pid, g: Pid, w: Pid)
    requires NewCrossedBy(s, q, v, f, u, g) && x == PageSent(s, q, w, f)
    ensures NextData(x, x.roundrobin, 4) == Some(g)
  {
    SentArrays(s, x, q, w, f);
    SearchFrom(s.(freelist := s.freelist[f := 1]), x, Next(f), 4);
  }

  lemma NewBetween(s: State, x: State, q: Pid, v: Pid, f: Pid, u: Pid, g: Pid, w: Pid)
    requires NewCrossedBy(s, q, v, f, u, g) && x == PageSent(s, q, w, f)
    ensures Between(s, x, ZERO_PAGE, q, w, f, g)
  {
    NewNext(s, x, q, v, f, u, g, w);
    SentArrays(s, x, q, w, f);
    BetweenFrom(s, x, q, w, f, g);
  }

  lemma BetweenFrom(s: State, x: State, q: Pid, w: Pid, f: Pid, g: Pid)
    requires Resident(s, q) && IsData(s, g) && s.pages[g] == q && f != g && NextData(x, x.roundrobin, 4) == Some(g)
    requires x == s.(mem := OneOut(s.mem, s.hardware[q].address + 4 * w, f, ZERO_PAGE, |s.swap| % 256),
                     swap := s.swap + [Frame(s, f)], freelist := s.freelist[f := 1], pages := s.pages[f := -1],
                     roundrobin := x.roundrobin)
    ensures Between(s, x, ZERO_PAGE, q, w, f, g)
  {
  }

  /** Two frames are free, and nobody sees a change. */
  ghost predicate TwoFreed(s: State, a: State, pid: Pid) {
    && Valid(a) && SamePages(ViewOf(s), ViewOf(a)) && s.swap <= a.swap && |a.swap| == |s.swap| + 2
    && FreeCount(a) == 2 && a.hardware[pid] == s.hardware[pid]
  }

  lemma AfterBoth(s: State, r1: State, r: State, a: State, pid: Pid)
    requires FreeCount(s) == 0 && Evicted(s, r1, pid, 1) && Evicted(r1, r, pid, 1)
    requires Valid(a) && SamePages(ViewOf(r), ViewOf(a)) && a == r.(mem := a.mem)
    ensures TwoFreed(s, a, pid)
  {
    SameTwice(s, r1, r);
    SameTwice(s, r, a);
  }

  lemma NewCrossingFrom(s: State, a1: State, r1: State, q: Pid, v: Pid, f: Pid, u: Pid, g: Pid, pid: Pid)
    requires Valid(s) && |s.swap| + 2 <= 256 && FreeCount(s) == 0 && Crossed(s, ZERO_PAGE, q, v, f, u, g)
    requires Evicted(s, r1, pid, 1) && Maps(ViewOf(r1), q, u, g)
    requires Between(s, a1, ZERO_PAGE, q, u, f, g) && Between(s, r1, ZERO_PAGE, q, v, f, g) && a1 == r1.(mem := a1.mem)
    ensures Evict(AS_WRITTEN, a1, pid).Some? && TwoFreed(s, Evict(AS_WRITTEN, a1, pid).value, pid)
  {
    SecondSent(s, a1, r1, ZERO_PAGE, q, v, f, u, g, pid);
    AfterBoth(s, r1, Evict(REPAIRED, r1, pid).value, Evict(AS_WRITTEN, a1, pid).value, pid);
  }

  /** They come out right. */
  lemma NewCrossing(s: State, q: Pid, v: Pid, f: Pid, u: Pid, g: Pid, pid: Pid)
    requires Valid(s) && |s.swap| + 2 <= 256 && NewCrossedBy(s, q, v, f, u, g)
    ensures Evict(AS_WRITTEN, s, pid).Some? && Evict(AS_WRITTEN, Evict(AS_WRITTEN, s, pid).value, pid).Some?
    ensures TwoFreed(s, Evict(AS_WRITTEN, Evict(AS_WRITTEN, s, pid).value, pid).value, pid)
  {
    FirstSent(s, ZERO_PAGE, q, v, f, u, g, pid);
    var a1, r1 := PageSent(s, q, u, f), PageSent(s, q, v, f);
    NewBetween(s, a1, q, v, f, u, g, u);
    NewBetween(s, r1, q, v, f, u, g, v);
    SentArrays(s, a1, q, u, f);
    SentArrays(s, r1, q, v, f);
    NewCrossingFrom(s, a1, r1, q, v, f, u, g, pid);
  }

  // ----- around a page table that comes back

  /** The evictions for a page table on disk and for a page of it cross. */
  predicate BackCrossedBy(s: State, pid: Pid, q: Pid, v: Pid, f: Pid, u: Pid, g: Pid) {
    && s.hardware[pid].inmem == 0 && 0 <= s.hardware[pid].address < |s.swap|
    && FreeCount(s) == 0 && NextData(s, s.roundrobin, 4) == Some(f)
    && NextData(s.(ispagetable := s.ispagetable[f := 1]), Next(Next(f)), 4) == Some(g)
    && Crossed(s, s.swap[s.hardware[pid].address], q, v, f, u, g)
  }

  /** `x` after a page table came to frame `f` for `pid`, the hand advanced. */
  function TableCome(x: State, pid: Pid, f: Pid, table: Page): State {
    x.(freelist := x.freelist[f := 0], mem := PutFrame(x.mem, f, table), pages := x.pages[f := pid],
       hardware := x.hardware[pid := Hp(16 * f, 1)], ispagetable := x.ispagetable[f := 1],
       roundrobin := Next(x.roundrobin))
  }

  lemma TableComes(x: State, pid: Pid, f: Pid, line: nat)
    requires FindFree(x) == Some(f) && x.hardware[pid].address == line < |x.swap|
    ensures LoadPageTable(x, pid).Some? && Robin(LoadPageTable(x, pid).value) == TableCome(x, pid, f, x.swap[line])
  {
  }

  lemma ComeArrays(s: State, x: State, pid: Pid, q: Pid, w: Pid, f: Pid, table: Page)
    requires Resident(s, q) && FreeCount(s) == 0 && x == TableCome(PageSent(s, q, w, f), pid, f, table)
    ensures x == s.(mem := OneOut(s.mem, s.hardware[q].address + 4 * w, f, table, |s.swap| % 256),
                    swap := s.swap + [Frame(s, f)], freelist := s.freelist[f := 0], pages := s.pages[f := pid],
                    hardware := s.hardware[pid := Hp(16 * f, 1)], ispagetable := s.ispagetable[f := 1],
                    roundrobin := Next(Next(f)))
  {
    OneOutIs(s.mem, s.hardware[q].address + 4 * w, f, table, |s.swap| % 256);
  }

  lemma BackNext(s: State, x: State, pid: Pid, f: Pid, g: Pid)
    requires FreeCount(s) == 0 && s.freelist[f] != 1
    requires x.freelist == s.freelist[f := 0] && x.ispagetable == s.ispagetable[f := 1]
    requires NextData(s.(ispagetable := s.ispagetable[f := 1]), Next(Next(f)), 4) == Some(g)
    ensures NextData(x, Next(Next(f)), 4) == Some(g)
  {
    SearchLike(s.(ispagetable := s.ispagetable[f := 1]), x, Next(Next(f)), 4);
  }

  lemma {:induction false} SearchLike(s: State, t: State, h: Pid, k: nat)
    requires forall f: Pid :: IsData(s, f) == IsData(t, f)
    ensures NextData(s, h, k) == NextData(t, h, k)
    decreases k
  {
    if k > 0 {
      SearchLike(s, t, Next(h), k - 1);
    }
  }

  lemma BackBetween(s: State, x: State, pid: Pid, q: Pid, v: Pid, f: Pid, u: Pid, g: Pid, w: Pid)
    requires BackCrossedBy(s, pid, q, v, f, u, g)
    requires x == TableCome(PageSent(s, q, w, f), pid, f, s.swap[s.hardware[pid].address])
    ensures Between(s, x, s.swap[s.hardware[pid].address], q, w, f, g)
  {
    ComeArrays(s, x, pid, q, w, f, s.swap[s.hardware[pid].address]);
    BackNext(s, x, pid, f, g);
    BackBetweenFrom(s, x, pid, q, w, f, g, s.swap[s.hardware[pid].address]);
  }

  lemma BackBetweenFrom(s: State, x: State, pid: Pid, q: Pid, w: Pid, f: Pid, g: Pid, table: Page)
    requires Resident(s, q) && q != pid && f != g && IsData(s, g) && s.pages[g] == q
    requires x.mem == OneOut(s.mem, s.hardware[q].address + 4 * w, f, table, |s.swap| % 256)
    requires x.swap == s.swap + [Frame(s, f)] && x.freelist == s.freelist[f := 0] && x.pages == s.pages[f := pid]
    requires x.hardware == s.hardware[pid := Hp(16 * f, 1)] && x.ispagetable == s.ispagetable[f := 1]
    requires NextData(x, x.roundrobin, 4) == Some(g)
    ensures Between(s, x, table, q, w, f, g)
  {
  }

  /** The table of `pid` is in memory as it was on disk, frame `g` is free, and nobody
      sees a change. */
  ghost predicate TableReady(s: State, a: State, pid: Pid, g: Pid) {
    && Valid(a) && SamePages(ViewOf(s), ViewOf(a)) && s.swap <= a.swap && |a.swap| == |s.swap| + 2
    && FreeCount(a) == 1 && FindFree(a) == Some(g) && Resident(a, pid)
    && forall w: Pid :: EntryAt(a, pid, w) == EntryAt(s, pid, w)
  }

  /** The repaired table, back after one eviction. */
  lemma RepairedCome(s: State, r1: State, pid: Pid, f: Pid, q: Pid, u: Pid, g: Pid)
    requires Valid(s) && s.hardware[pid].inmem == 0 && FreeCount(s) == 0
    requires Evicted(s, r1, pid, 1) && FindFree(r1) == Some(f) && Maps(ViewOf(r1), q, u, g)
    ensures 0 <= s.hardware[pid].address < |s.swap|
    ensures var r := TableCome(r1, pid, f, s.swap[s.hardware[pid].address]);
      && Valid(r) && SamePages(ViewOf(s), ViewOf(r)) && r.swap == r1.swap && FreeCount(r) == 0
      && Resident(r, pid) && (forall w: Pid :: EntryAt(r, pid, w) == EntryAt(s, pid, w)) && Maps(ViewOf(r), q, u, g)
  {
    OnDiskLine(s, pid);
    LoadPageTableBrings(r1, pid);
    LoadPageTableView(r1, pid, f);
    TableComes(r1, pid, f, s.hardware[pid].address);
    var r0 := LoadPageTable(r1, pid).value;
    HandMoves(r0, Robin(r0));
    SameTwice(s, r1, r0);
    EntriesStay(s, r1, pid);
  }

  lemma EntriesStay(s: State, r1: State, pid: Pid)
    requires Valid(s) && s.hardware[pid].inmem == 0 && Evicted(s, r1, pid, 1)
    ensures forall w: Pid :: EntryAt(r1, pid, w) == EntryAt(s, pid, w)
  {
    forall w: Pid ensures EntryAt(r1, pid, w) == EntryAt(s, pid, w) {
      OnDiskNotInMemory(s, pid, w);
    }
  }

  lemma OnDiskLine(s: State, pid: Pid)
    requires Valid(s) && s.hardware[pid].inmem == 0
    ensures 0 <= s.hardware[pid].address < |s.swap|
  {
    assert PointerOk(ViewOf(s), pid);
  }

  lemma BackCrossingFrom(s: State, a2: State, r2: State, pid: Pid, q: Pid, v: Pid, f: Pid, u: Pid, g: Pid, table: Page)
    requires Valid(s) && |s.swap| + 2 <= 256 && s.hardware[pid].inmem == 0 && Crossed(s, table, q, v, f, u, g)
    requires Between(s, a2, table, q, u, f, g) && Between(s, r2, table, q, v, f, g) && a2 == r2.(mem := a2.mem)
    requires Valid(r2) && SamePages(ViewOf(s), ViewOf(r2)) && FreeCount(r2) == 0 && Maps(ViewOf(r2), q, u, g)
    requires Resident(r2, pid) && forall w: Pid :: EntryAt(r2, pid, w) == EntryAt(s, pid, w)
    ensures Evict(AS_WRITTEN, a2, pid).Some? && TableReady(s, Evict(AS_WRITTEN, a2, pid).value, pid, g)
  {
    SecondSent(s, a2, r2, table, q, v, f, u, g, pid);
    var a, r := Evict(AS_WRITTEN, a2, pid).value, Evict(REPAIRED, r2, pid).value;
    OnlyFree(a2, a, g);
    SameTwice(s, r2, r);
    SameTwice(s, r, a);
    forall w: Pid ensures EntryAt(a, pid, w) == EntryAt(s, pid, w) {
      OnDiskNotInMemory(s, pid, w);
    }
  }

  /** The table of `pid` comes back and room is made for its page: nobody can tell that
      the evictions crossed. */
  lemma BackCrossing(s: State, pid: Pid, q: Pid, v: Pid, f: Pid, u: Pid, g: Pid)
    requires Valid(s) && |s.swap| + 2 <= 256 && BackCrossedBy(s, pid, q, v, f, u, g)
    ensures Evict(AS_WRITTEN, s, pid).Some?
    ensures LoadPageTable(Evict(AS_WRITTEN, s, pid).value, pid).Some?
    ensures var a2 := LoadPageTable(Evict(AS_WRITTEN, s, pid).value, pid).value;
      && FreeCount(a2) == 0 && Resident(a2, pid) && (forall w: Pid :: EntryAt(a2, pid, w) == EntryAt(s, pid, w))
      && Evict(AS_WRITTEN, Robin(a2), pid).Some? && TableReady(s, Evict(AS_WRITTEN, Robin(a2), pid).value, pid, g)
  {
    var table := s.swap[s.hardware[pid].address];
    FirstSent(s, table, q, v, f, u, g, pid);
    var a1, r1 := PageSent(s, q, u, f), PageSent(s, q, v, f);
    OnlyFree(s, a1, f);
    OnlyFree(s, r1, f);
    TableComes(a1, pid, f, s.hardware[pid].address);
    RepairedCome(s, r1, pid, f, q, u, g);
    BackBetween(s, TableCome(a1, pid, f, table), pid, q, v, f, u, g, u);
    BackBetween(s, TableCome(r1, pid, f, table), pid, q, v, f, u, g, v);
    BackCrossingFrom(s, TableCome(a1, pid, f, table), TableCome(r1, pid, f, table), pid, q, v, f, u, g, table);
    BackTable(s, a1, pid, f);
  }

  /** The table of `pid` as it stands after the first of them. */
  lemma BackTable(s: State, a1: State, pid: Pid, f: Pid)
    requires FindFree(a1) == Some(f) && FreeCount(a1) == 1 && 0 <= s.hardware[pid].address < |s.swap| <= |a1.swap|
    requires s.hardware[pid].inmem == 0 && a1.hardware[pid] == s.hardware[pid]
    requires a1.swap[s.hardware[pid].address] == s.swap[s.hardware[pid].address]
    ensures LoadPageTable(a1, pid).Some?
    ensures var a2 := LoadPageTable(a1, pid).value;
      FreeCount(a2) == 0 && Resident(a2, pid) && (forall w: Pid :: EntryAt(a2, pid, w) == EntryAt(s, pid, w))
  {
    LoadPageTableBytes(a1, pid, f);
    FrameTaken(a1, LoadPageTable(a1, pid).value, f);
  }
}
