/** The session in which four page tables fill memory: as written, `freespace` then
    sends a page table to disk as if it were a page, and its process can never again
    be served. */
module PagerFourTables {
  import opened Options
  import opened PagerModel
  import opened PagerBytes
  import opened PagerEviction
  import opened PagerAsWritten
  import opened PagerSessions
  import opened PagerTables
  import opened PagerTransparency
  import opened PagerHistory

  type Frames = ps: seq<Page> | |ps| == 4 witness [ZERO_PAGE, ZERO_PAGE, ZERO_PAGE, ZERO_PAGE]

  function Mem(ps: Frames): (m: seq<Byte>)
    ensures |m| == 64
  {
    Memory(ps[0], ps[1], ps[2], ps[3])
  }

  /** A page table with one page mapped. */
  function OneMapped(pfn: Byte, valpres: Byte): Page {
    [0, pfn, if valpres == 0 then 0 else 1, valpres, 1, 0, 0, 0, 2, 0, 0, 0, 3, 0, 0, 0]
  }

  lemma MemByte(ps: Frames, f: Pid, k: int, x: Byte)
    requires 0 <= k < 16
    ensures Mem(ps)[16 * f + k] == ps[f][k]
    ensures Mem(ps)[16 * f + k := x] == Mem(ps[f := ps[f][k := x]])
  {
  }

  lemma MemFrame(ps: Frames, f: Pid, page: Page)
    ensures Mem(ps)[16 * f..16 * f + 16] == ps[f]
    ensures PutFrame(Mem(ps), f, page) == Mem(ps[f := page])
  {
  }

  lemma TableSwappedOut(ps: Frames, t: Pid, f: Pid, pfn: Byte, line: Byte)
    requires t != f && ps[t] == OneMapped(pfn, 2)
    ensures SwappedOut(Mem(ps), 16 * t, f, line) == Mem(ps[t := OneMapped(line, 1)][f := ZERO_PAGE])
  {
    assert OneMapped(pfn, 2)[1 := line][3 := 1] == OneMapped(line, 1);
    MemByte(ps, t, 1, line);
    var ps1 := ps[t := ps[t][1 := line]];
    MemByte(ps1, t, 3, 1);
    var ps2 := ps1[t := ps1[t][3 := 1]];
    MemFrame(ps2, f, ZERO_PAGE);
    assert ps2[t] == OneMapped(line, 1);
    assert ps2 == ps[t := OneMapped(line, 1)];
  }

  lemma OneMappedBytes(ps: Frames, t: Pid, pfn: Byte, valpres: Byte, w: Pid)
    requires ps[t] == OneMapped(pfn, valpres)
    ensures Mem(ps)[16 * t + 4 * w + 1] == (if w == 0 then pfn else 0)
    ensures Mem(ps)[16 * t + 4 * w + 3] == (if w == 0 then valpres else 0)
    ensures Mem(ps)[16 * t + 4 * w] == w
  {
    MemByte(ps, t, 4 * w, 0);
    MemByte(ps, t, 4 * w + 1, 0);
    MemByte(ps, t, 4 * w + 3, 0);
  }

  /** The scan of a table with one page finds it, as written and repaired. */
  lemma TableScanned(exact: bool, ps: Frames, t: Pid, f: Pid)
    requires f > 0 && ps[t] == OneMapped(16 * f, 2)
    ensures LookupVpn(exact, Mem(ps), 16 * t, 16 * f, 16) == Some(0)
  {
    if exact {
      TableScannedExact(ps, t, f);
    } else {
      TableScannedWritten(ps, t, f);
    }
  }

  lemma TableScannedWritten(ps: Frames, t: Pid, f: Pid)
    requires f > 0 && ps[t] == OneMapped(16 * f, 2)
    ensures LookupVpn(false, Mem(ps), 16 * t, 16 * f, 16) == Some(0)
  {
    MemFrame(ps, t, ZERO_PAGE);
    MemByte(ps, t, 0, 0);
    ScanOneMapped(Mem(ps), 16 * t, f, ps[t]);
  }

  lemma ScanOneMapped(mem: seq<Byte>, pte: int, f: Pid, table: Page)
    requires |mem| == 64 && 0 <= pte <= 48 && f > 0 && table == OneMapped(16 * f, 2)
    requires table == mem[pte..pte + 16] && mem[pte] == 0 && mem[pte + 1 - 1] == 0
    ensures LookupVpn(false, mem, pte, 16 * f, 16) == Some(0)
  {
    forall j | 1 < j < 16 ensures table[j] != 16 * f {
    }
    ScanFrom(mem, pte, 16 * f, table, 1, 16);
  }

  lemma TableScannedExact(ps: Frames, t: Pid, f: Pid)
    requires f > 0 && ps[t] == OneMapped(16 * f, 2)
    ensures LookupVpn(true, Mem(ps), 16 * t, 16 * f, 16) == Some(0)
  {
    forall w: Pid ensures Mem(ps)[16 * t + 4 * w + 1] == 16 * f && Mem(ps)[16 * t + 4 * w + 3] == 2 <==> w == 0 {
      OneMappedBytes(ps, t, 16 * f, 2, w);
    }
    OneMappedBytes(ps, t, 16 * f, 2, 0);
    ScanExact(Mem(ps), 16 * t, 16 * f, 0, 16);
  }

  lemma RemovesPage(fix: Repairs, s: State, ps: Frames, q: Pid, t: Pid, f: Pid)
    requires s.mem == Mem(ps) && ps[t] == OneMapped(16 * f, 2) && t != f && f > 0 && s.hardware[q] == Hp(16 * t, 1)
    ensures RemovePage(fix, s, q, f) ==
      Some(s.(swap := s.swap + [ps[f]], mem := Mem(ps[t := OneMapped(|s.swap| % 256, 1)][f := ZERO_PAGE]),
              freelist := s.freelist[f := 1], pages := s.pages[f := -1]))
  {
    TableScanned(fix.exactLookup, ps, t, f);
    TableSwappedOut(ps, t, f, 16 * f, |s.swap| % 256);
    MemFrame(ps, f, ZERO_PAGE);
  }

  /** One page of `q` goes to disk on behalf of `pid`. */
  lemma EvictsPage(fix: Repairs, s: State, pid: Pid, ps: Frames, q: Pid, t: Pid, f: Pid)
    requires s.mem == Mem(ps) && ps[t] == OneMapped(16 * f, 2) && t != f && f > 0
    requires !AllTables(s) && NextData(s, s.roundrobin, 4) == Some(f)
    requires s.pages[f] == q && s.hardware[q] == Hp(16 * t, 1)
    ensures Evict(fix, s, pid) == Some(PageGone(s, ps, t, f))
  {
    RemovesPage(fix, s, ps, q, t, f);
  }

  lemma EntryFilled(ps: Frames, t: Pid, pfn: Byte)
    requires ps[t] == OneMapped(0, 0)
    ensures Mem(ps)[16 * t + 1 := pfn][16 * t + 2 := 1][16 * t + 3 := 2] == Mem(ps[t := OneMapped(pfn, 2)])
  {
    assert OneMapped(0, 0)[1 := pfn][2 := 1][3 := 2] == OneMapped(pfn, 2);
    MemByte(ps, t, 1, pfn);
    var ps1 := ps[t := ps[t][1 := pfn]];
    MemByte(ps1, t, 2, 1);
    var ps2 := ps1[t := ps1[t][2 := 1]];
    MemByte(ps2, t, 3, 2);
    var ps3 := ps2[t := ps2[t][3 := 2]];
    assert ps3[t] == OneMapped(pfn, 2);
    assert ps3 == ps[t := OneMapped(pfn, 2)];
  }

  /** `s` after the page in frame `f`, which the table in frame `t` maps, has left. */
  function PageGone(s: State, ps: Frames, t: Pid, f: Pid): State {
    s.(swap := s.swap + [ps[f]], mem := Mem(ps[t := OneMapped(|s.swap| % 256, 1)][f := ZERO_PAGE]),
       freelist := s.freelist[f := 1], pages := s.pages[f := -1], roundrobin := Next(f))
  }

  /** A new table in frame `f`, its first page in frame `g`. */
  lemma NewTableAndPage(s: State, ps: Frames, pid: Pid, f: Pid, g: Pid)
    requires s.mem == Mem(ps) && ps[f] == ZERO_PAGE && f != g
    requires FindFree(s) == Some(f) && FindFree(NewTable(s, pid, f)) == Some(g)
    ensures PlacePage(NewTable(s, pid, f), pid, 0, 1) == Some(WithTable(s, ps, pid, f, g))
  {
    FreshTableAt(ps, f);
    EntryFilled(ps[f := OneMapped(0, 0)], f, 16 * g);
    assert ps[f := OneMapped(0, 0)][f := OneMapped(16 * g, 2)] == ps[f := OneMapped(16 * g, 2)];
    PlacesFirst(NewTable(s, pid, f), pid, f, g, Mem(ps[f := OneMapped(16 * g, 2)]));
  }

  lemma PlacesFirst(n: State, pid: Pid, f: Pid, g: Pid, mem: seq<Byte>)
    requires n.hardware[pid] == Hp(16 * f, 1) && FindFree(n) == Some(g)
    requires mem == n.mem[16 * f + 1 := 16 * g][16 * f + 2 := 1][16 * f + 3 := 2]
    ensures PlacePage(n, pid, 0, 1) == Some(n.(freelist := n.freelist[g := 0], pages := n.pages[g := pid], mem := mem))
  {
  }

  lemma FreshTableAt(ps: Frames, f: Pid)
    requires ps[f] == ZERO_PAGE
    ensures FreshTable(Mem(ps), 16 * f) == Mem(ps[f := OneMapped(0, 0)])
  {
    var m := FreshTable(Mem(ps), 16 * f);
    forall k | 0 <= k < 64 ensures m[k] == Mem(ps[f := OneMapped(0, 0)])[k] {
      var g: Pid := k / 16;
      MemByte(ps, g, k % 16, 0);
      MemByte(ps[f := OneMapped(0, 0)], g, k % 16, 0);
    }
  }

  lemma EvictsTable(fix: Repairs, s: State, pid: Pid, ps: Frames, q: Pid, f: Pid)
    requires s.mem == Mem(ps) && (fix.tablesLast || !AllTables(s))
    requires NextData(s, s.roundrobin, 4).None? && NextTable(s, pid, s.roundrobin, 4) == Some(f)
    requires s.pages[f] == q && s.hardware[q] == Hp(16 * f, 1)
    ensures Evict(fix, s, pid) ==
      Some(s.(swap := s.swap + [ps[f]], hardware := s.hardware[q := Hp(|s.swap|, 0)], mem := Mem(ps[f := ZERO_PAGE]),
              freelist := s.freelist[f := 1], ispagetable := s.ispagetable[f := 0], pages := s.pages[f := -1],
              roundrobin := Next(f)))
  {
    MemFrame(ps, f, ZERO_PAGE);
  }

  lemma OneOut(fix: Repairs, s: State, pid: Pid, e: State)
    requires FreeCount(s) == 0 && Evict(fix, Robin(s), pid) == Some(e)
    ensures FreeSpace(fix, s, 1, pid) == Some(e)
  {
    assert EvictTimes(fix, Robin(s), pid, 1) == Evict(fix, Robin(s), pid);
  }

  lemma TwoOut(fix: Repairs, s: State, pid: Pid, e1: State, e2: State)
    requires FreeCount(s) == 0 && Evict(fix, Robin(s), pid) == Some(e1) && Evict(fix, e1, pid) == Some(e2)
    ensures FreeSpace(fix, s, 2, pid) == Some(e2)
  {
    EvictTimesStep(fix, Robin(s), pid, 1);
    EvictTimesStep(fix, Robin(s), pid, 2);
  }

  lemma NewTableByte(s: State, ps: Frames, pid: Pid, f: Pid)
    requires s.mem == Mem(ps) && ps[f] == ZERO_PAGE
    ensures NewTable(s, pid, f).mem[16 * f + 3] == 0
  {
    FreshTableAt(ps, f);
    MemByte(ps[f := OneMapped(0, 0)], f, 3, 0);
  }

  /** The first page of a process that has no table yet. */
  lemma MapsNew(fix: Repairs, s: State, s1: State, ps: Frames, pid: Pid, f: Pid, g: Pid)
    requires s.hardware[pid].inmem == -1 && FreeSpace(fix, s, 2, pid) == Some(s1)
    requires s1.mem == Mem(ps) && ps[f] == ZERO_PAGE && f != g
    requires FindFree(s1) == Some(f) && FindFree(NewTable(s1, pid, f)) == Some(g)
    ensures Step(fix, s, Map(pid, 0, 1)) == Some((WithTable(s1, ps, pid, f, g), MapDone))
  {
    var n := NewTable(s1, pid, f);
    NewTableAndPage(s1, ps, pid, f, g);
    NewTableByte(s1, ps, pid, f);
    MapsInto(fix, s, s1, n, PlacePage(n, pid, 0, 1).value, pid, f);
  }

  lemma ReturnBytes(ps: Frames, t: Pid, f: Pid, line: Byte, page: Page)
    requires t != f && ps[t] == OneMapped(line, 1)
    ensures SwappedIn(Mem(ps), 16 * t, f, page) == Mem(ps[f := page][t := OneMapped(16 * f, 2)])
  {
    assert OneMapped(line, 1)[1 := 16 * f][3 := 2] == OneMapped(16 * f, 2);
    MemFrame(ps, f, page);
    var ps1 := ps[f := page];
    MemByte(ps1, t, 1, 16 * f);
    var ps2 := ps1[t := ps1[t][1 := 16 * f]];
    MemByte(ps2, t, 3, 2);
    assert ps2[t := ps2[t][3 := 2]] == ps1[t := OneMapped(16 * f, 2)];
  }

  /** The first page of `pid` comes back to the first free frame. */
  lemma PageReturns(s: State, ps: Frames, pid: Pid, t: Pid, f: Pid, line: Byte)
    requires s.mem == Mem(ps) && s.hardware[pid] == Hp(16 * t, 1) && ps[t] == OneMapped(line, 1)
    requires FindFree(s) == Some(f) && t != f && line < |s.swap|
    ensures LoadPage(s, pid, 0) ==
      Some(s.(freelist := s.freelist[f := 0], pages := s.pages[f := pid],
              mem := Mem(ps[f := s.swap[line]][t := OneMapped(16 * f, 2)])))
  {
    OneMappedBytes(ps, t, line, 1, 0);
    LineOfFirst(s, pid, t, line);
    ReturnBytes(ps, t, f, line, s.swap[line]);
    PageReturnsFrom(s, pid, t, f, line, Mem(ps[f := s.swap[line]][t := OneMapped(16 * f, 2)]));
  }

  lemma PageReturnsFrom(s: State, pid: Pid, t: Pid, f: Pid, line: Byte, mem: seq<Byte>)
    requires s.hardware[pid] == Hp(16 * t, 1) && EntryAt(s, pid, 0).pfn == line < |s.swap| && FindFree(s) == Some(f)
    requires mem == SwappedIn(s.mem, 16 * t, f, s.swap[line])
    ensures LoadPage(s, pid, 0) == Some(s.(freelist := s.freelist[f := 0], pages := s.pages[f := pid], mem := mem))
  {
    LoadPageParts(s, pid, 0, f);
  }

  lemma LineOfFirst(s: State, pid: Pid, t: Pid, line: Byte)
    requires s.hardware[pid] == Hp(16 * t, 1) && s.mem[16 * t + 4 * 0 + 1] == line
    ensures EntryAt(s, pid, 0).pfn == line
  {
    ResidentEntry(s, pid, 0);
  }

  /** The table of `pid` comes back to the first free frame. */
  lemma TableReturns(s: State, ps: Frames, pid: Pid, f: Pid, line: nat)
    requires s.mem == Mem(ps) && s.hardware[pid].address == line < |s.swap| && FindFree(s) == Some(f)
    ensures LoadPageTable(s, pid) ==
      Some(s.(freelist := s.freelist[f := 0], pages := s.pages[f := pid], hardware := s.hardware[pid := Hp(16 * f, 1)],
              ispagetable := s.ispagetable[f := 1], mem := Mem(ps[f := s.swap[line]])))
  {
    MemFrame(ps, f, s.swap[line]);
  }

  lemma Replaced<T>(a: T, b: T, c: T, d: T, x: T)
    ensures [a, b, c, d][0 := x] == [x, b, c, d] && [a, b, c, d][1 := x] == [a, x, c, d]
    ensures [a, b, c, d][2 := x] == [a, b, x, d] && [a, b, c, d][3 := x] == [a, b, c, x]
  {
  }

  lemma FirstAhead(s: State)
    requires IsData(s, s.roundrobin)
    ensures NextData(s, s.roundrobin, 4) == Some(s.roundrobin) && !AllTables(s)
  {
    assert !IsTable(s, s.roundrobin);
  }

  lemma SecondAhead(s: State)
    requires !IsData(s, s.roundrobin) && IsData(s, Next(s.roundrobin))
    ensures NextData(s, s.roundrobin, 4) == Some(Next(s.roundrobin)) && !AllTables(s)
  {
    assert !IsTable(s, Next(s.roundrobin));
  }

  lemma NoneAhead(s: State, pid: Pid)
    requires (forall f: Pid :: !IsData(s, f)) && IsTable(s, s.roundrobin) && !IsOwnTable(s, pid, s.roundrobin)
    ensures NextData(s, s.roundrobin, 4).None? && NextTable(s, pid, s.roundrobin, 4) == Some(s.roundrobin)
  {
  }

  // ----- the session

  const NONE := Hp(0, -1)

  function One(): State {
    Pager(Mem([OneMapped(16, 2), ZERO_PAGE, ZERO_PAGE, ZERO_PAGE]),
          [0, 0, 1, 1], [0, 0, -1, -1], [1, 0, 0, 0], [Hp(0, 1), NONE, NONE, NONE], [], 1)
  }

  function Two(): State {
    Pager(Mem([OneMapped(16, 2), ZERO_PAGE, OneMapped(48, 2), ZERO_PAGE]),
          [0, 0, 0, 0], [0, 0, 1, 1], [1, 0, 1, 0], [Hp(0, 1), Hp(32, 1), NONE, NONE], [], 2)
  }

  function Three(): State {
    Pager(Mem([OneMapped(1, 1), OneMapped(48, 2), OneMapped(0, 1), ZERO_PAGE]),
          [0, 0, 0, 0], [0, 2, 1, 2], [1, 1, 1, 0], [Hp(0, 1), Hp(32, 1), Hp(16, 1), NONE], [ZERO_PAGE, ZERO_PAGE], 2)
  }

  function Four(): State {
    Pager(Mem([OneMapped(48, 2), OneMapped(2, 1), OneMapped(0, 1), ZERO_PAGE]),
          [0, 0, 0, 0], [3, 2, 1, 3], [1, 1, 1, 0], [Hp(3, 0), Hp(32, 1), Hp(16, 1), Hp(0, 1)],
          [ZERO_PAGE, ZERO_PAGE, ZERO_PAGE, OneMapped(1, 1)], 1)
  }

  lemma OneIsMapped0()
    ensures One() == MAPPED0
  {
    assert [0, 16, 1, 2, 1, 0, 0, 0, 2, 0, 0, 0, 3, 0, 0, 0] == OneMapped(16, 2);
  }

  lemma MapsSecond(fix: Repairs, s: State, ps: Frames)
    requires s == One() && ps == [OneMapped(16, 2), ZERO_PAGE, ZERO_PAGE, ZERO_PAGE]
    ensures Step(fix, s, Map(1, 0, 1)) == Some((Two(), MapDone))
  {
    assert FreeSpace(fix, s, 2, 1) == Some(Robin(s));
    MapsNew(fix, s, Robin(s), ps, 1, 2, 3);
    SecondIs(Robin(s), ps, Two());
  }

  lemma SecondIs(s1: State, ps: Frames, s': State)
    requires s1 == Robin(One()) && s' == Two() && ps == [OneMapped(16, 2), ZERO_PAGE, ZERO_PAGE, ZERO_PAGE]
    ensures WithTable(s1, ps, 1, 2, 3) == s'
  {
    Replaced(OneMapped(16, 2), ZERO_PAGE, ZERO_PAGE, ZERO_PAGE, OneMapped(48, 2));
    assert s1.freelist[2 := 0][3 := 0] == [0, 0, 0, 0] && s1.pages[2 := 1][3 := 1] == [0, 0, 1, 1];
    Replaced(Hp(0, 1), NONE, NONE, NONE, Hp(32, 1));
    assert s1.ispagetable[2 := 1] == [1, 0, 1, 0];
  }

  /** On the way to `Three`: one page is out, then two. */
  function Two1(): State {
    Pager(Mem([OneMapped(16, 2), ZERO_PAGE, OneMapped(0, 1), ZERO_PAGE]),
          [0, 0, 0, 1], [0, 0, 1, -1], [1, 0, 1, 0], [Hp(0, 1), Hp(32, 1), NONE, NONE], [ZERO_PAGE], 0)
  }

  function Two2(): State {
    Pager(Mem([OneMapped(1, 1), ZERO_PAGE, OneMapped(0, 1), ZERO_PAGE]),
          [0, 1, 0, 1], [0, -1, 1, -1], [1, 0, 1, 0], [Hp(0, 1), Hp(32, 1), NONE, NONE], [ZERO_PAGE, ZERO_PAGE], 2)
  }

  lemma PageGoneIs(s: State, ps: Frames, t: Pid, f: Pid, ps': Frames, s': State)
    requires ps' == ps[t := OneMapped(|s.swap| % 256, 1)][f := ZERO_PAGE] && s'.mem == Mem(ps')
    requires s'.freelist == s.freelist[f := 1] && s'.pages == s.pages[f := -1] && s'.roundrobin == Next(f)
    requires s'.swap == s.swap + [ps[f]] && s'.ispagetable == s.ispagetable && s'.hardware == s.hardware
    ensures PageGone(s, ps, t, f) == s'
  {
  }

  lemma Two1Is(h: State, ps: Frames)
    requires h == Robin(Two()) && ps == [OneMapped(16, 2), ZERO_PAGE, OneMapped(48, 2), ZERO_PAGE]
    ensures PageGone(h, ps, 2, 3) == Two1()
  {
    Replaced(OneMapped(16, 2), ZERO_PAGE, OneMapped(48, 2), ZERO_PAGE, OneMapped(0, 1));
    Replaced(OneMapped(16, 2), ZERO_PAGE, OneMapped(0, 1), ZERO_PAGE, ZERO_PAGE);
    assert h.freelist[3 := 1] == [0, 0, 0, 1] && h.pages[3 := -1] == [0, 0, 1, -1];
    assert [] + [ZERO_PAGE] == [ZERO_PAGE];
  }

  lemma TwoEvictsFirst(fix: Repairs, h: State, ps: Frames)
    requires h == Robin(Two()) && ps == [OneMapped(16, 2), ZERO_PAGE, OneMapped(48, 2), ZERO_PAGE]
    ensures Evict(fix, h, 2) == Some(Two1())
  {
    FirstAhead(h);
    EvictsPage(fix, h, 2, ps, 1, 2, 3);
    Two1Is(h, ps);
  }

  lemma Two2Is(s: State, ps: Frames, s': State)
    requires s == Two1() && ps == [OneMapped(16, 2), ZERO_PAGE, OneMapped(0, 1), ZERO_PAGE] && s' == Two2()
    ensures PageGone(s, ps, 0, 1) == s'
  {
    Replaced(OneMapped(16, 2), ZERO_PAGE, OneMapped(0, 1), ZERO_PAGE, OneMapped(1, 1));
    Replaced(OneMapped(1, 1), ZERO_PAGE, OneMapped(0, 1), ZERO_PAGE, ZERO_PAGE);
    assert s.freelist[1 := 1] == [0, 1, 0, 1] && s.pages[1 := -1] == [0, -1, 1, -1];
    TwoPages(ZERO_PAGE, ZERO_PAGE);
    PageGoneIs(s, ps, 0, 1, [OneMapped(1, 1), ZERO_PAGE, OneMapped(0, 1), ZERO_PAGE], s');
  }

  lemma TwoPages(a: Page, b: Page)
    ensures [a] + [b] == [a, b]
  {
  }

  lemma TwoEvictsSecond(fix: Repairs, s: State, ps: Frames)
    requires s == Two1() && ps == [OneMapped(16, 2), ZERO_PAGE, OneMapped(0, 1), ZERO_PAGE]
    ensures Evict(fix, s, 2) == Some(Two2())
  {
    SecondAhead(s);
    EvictsPage(fix, s, 2, ps, 0, 0, 1);
    Two2Is(s, ps, Two2());
  }

  lemma ThirdPlaced(fix: Repairs, s: State, s1: State, ps: Frames)
    requires s.hardware[2].inmem == -1 && FreeSpace(fix, s, 2, 2) == Some(s1)
    requires s1 == Two2() && ps == [OneMapped(1, 1), ZERO_PAGE, OneMapped(0, 1), ZERO_PAGE]
    ensures Step(fix, s, Map(2, 0, 1)) == Some((Three(), MapDone))
  {
    MapsNew(fix, s, s1, ps, 2, 1, 3);
    ThirdIs(s1, ps, Three());
  }

  /** `s` after a new table came to frame `f`, its first page in frame `g`. */
  function WithTable(s: State, ps: Frames, pid: Pid, f: Pid, g: Pid): State {
    s.(freelist := s.freelist[f := 0][g := 0], hardware := s.hardware[pid := Hp(16 * f, 1)],
       pages := s.pages[f := pid][g := pid], ispagetable := s.ispagetable[f := 1],
       mem := Mem(ps[f := OneMapped(16 * g, 2)]))
  }

  lemma ThirdIs(s1: State, ps: Frames, s': State)
    requires s1 == Two2() && s' == Three() && ps == [OneMapped(1, 1), ZERO_PAGE, OneMapped(0, 1), ZERO_PAGE]
    ensures WithTable(s1, ps, 2, 1, 3) == s'
  {
    Replaced(OneMapped(1, 1), ZERO_PAGE, OneMapped(0, 1), ZERO_PAGE, OneMapped(48, 2));
    assert s1.freelist[1 := 0][3 := 0] == [0, 0, 0, 0] && s1.pages[1 := 2][3 := 2] == [0, 2, 1, 2];
    Replaced(Hp(0, 1), Hp(32, 1), NONE, NONE, Hp(16, 1));
    assert s1.ispagetable[1 := 1] == [1, 1, 1, 0];
  }

  lemma MapsThird(fix: Repairs, s: State)
    requires s == Two()
    ensures Step(fix, s, Map(2, 0, 1)) == Some((Three(), MapDone))
  {
    TwoEvictsFirst(fix, Robin(s), [OneMapped(16, 2), ZERO_PAGE, OneMapped(48, 2), ZERO_PAGE]);
    TwoEvictsSecond(fix, Two1(), [OneMapped(16, 2), ZERO_PAGE, OneMapped(0, 1), ZERO_PAGE]);
    TwoOut(fix, s, 2, Two1(), Two2());
    ThirdPlaced(fix, s, Two2(), [OneMapped(1, 1), ZERO_PAGE, OneMapped(0, 1), ZERO_PAGE]);
  }

  /** On the way to `Four`: the last page is out, then the first table. */
  function Three1(): State {
    Pager(Mem([OneMapped(1, 1), OneMapped(2, 1), OneMapped(0, 1), ZERO_PAGE]),
          [0, 0, 0, 1], [0, 2, 1, -1], [1, 1, 1, 0], [Hp(0, 1), Hp(32, 1), Hp(16, 1), NONE],
          [ZERO_PAGE, ZERO_PAGE, ZERO_PAGE], 0)
  }

  function Three2(): State {
    Pager(Mem([ZERO_PAGE, OneMapped(2, 1), OneMapped(0, 1), ZERO_PAGE]),
          [1, 0, 0, 1], [-1, 2, 1, -1], [0, 1, 1, 0], [Hp(3, 0), Hp(32, 1), Hp(16, 1), NONE],
          [ZERO_PAGE, ZERO_PAGE, ZERO_PAGE, OneMapped(1, 1)], 1)
  }

  lemma Three1Is(h: State, ps: Frames)
    requires h == Robin(Three()) && ps == [OneMapped(1, 1), OneMapped(48, 2), OneMapped(0, 1), ZERO_PAGE]
    ensures PageGone(h, ps, 1, 3) == Three1()
  {
    assert ps[1 := OneMapped(2, 1)][3 := ZERO_PAGE] == [OneMapped(1, 1), OneMapped(2, 1), OneMapped(0, 1), ZERO_PAGE];
    assert h.freelist[3 := 1] == [0, 0, 0, 1] && h.pages[3 := -1] == [0, 2, 1, -1];
    assert [ZERO_PAGE, ZERO_PAGE] + [ZERO_PAGE] == [ZERO_PAGE, ZERO_PAGE, ZERO_PAGE];
  }

  lemma ThreeEvictsFirst(fix: Repairs, h: State, ps: Frames)
    requires h == Robin(Three()) && ps == [OneMapped(1, 1), OneMapped(48, 2), OneMapped(0, 1), ZERO_PAGE]
    ensures Evict(fix, h, 3) == Some(Three1())
  {
    FirstAhead(h);
    EvictsPage(fix, h, 3, ps, 2, 1, 3);
    Three1Is(h, ps);
  }

  lemma ThreeEvictsSecond(fix: Repairs, s: State, ps: Frames)
    requires s == Three1() && ps == [OneMapped(1, 1), OneMapped(2, 1), OneMapped(0, 1), ZERO_PAGE]
    ensures Evict(fix, s, 3) == Some(Three2())
  {
    NoneAhead(s, 3);
    assert !IsTable(s, 3);
    EvictsTable(fix, s, 3, ps, 0, 0);
    assert ps[0 := ZERO_PAGE] == [ZERO_PAGE, OneMapped(2, 1), OneMapped(0, 1), ZERO_PAGE];
    assert s.freelist[0 := 1] == [1, 0, 0, 1] && s.pages[0 := -1] == [-1, 2, 1, -1] && s.ispagetable[0 := 0] == [0, 1, 1, 0];
    assert s.hardware[0 := Hp(3, 0)] == [Hp(3, 0), Hp(32, 1), Hp(16, 1), NONE];
    assert s.swap + [OneMapped(1, 1)] == [ZERO_PAGE, ZERO_PAGE, ZERO_PAGE, OneMapped(1, 1)];
  }

  lemma FourthPlaced(fix: Repairs, s: State, s1: State, ps: Frames)
    requires s.hardware[3].inmem == -1 && FreeSpace(fix, s, 2, 3) == Some(s1)
    requires s1 == Three2() && ps == [ZERO_PAGE, OneMapped(2, 1), OneMapped(0, 1), ZERO_PAGE]
    ensures Step(fix, s, Map(3, 0, 1)) == Some((Four(), MapDone))
  {
    MapsNew(fix, s, s1, ps, 3, 0, 3);
    FourthIs(s1, ps, Four());
  }

  lemma FourthIs(s1: State, ps: Frames, s': State)
    requires s1 == Three2() && s' == Four() && ps == [ZERO_PAGE, OneMapped(2, 1), OneMapped(0, 1), ZERO_PAGE]
    ensures WithTable(s1, ps, 3, 0, 3) == s'
  {
    Replaced(ZERO_PAGE, OneMapped(2, 1), OneMapped(0, 1), ZERO_PAGE, OneMapped(48, 2));
    assert s1.freelist[0 := 0][3 := 0] == [0, 0, 0, 0] && s1.pages[0 := 3][3 := 3] == [3, 2, 1, 3];
    Replaced(Hp(3, 0), Hp(32, 1), Hp(16, 1), NONE, Hp(0, 1));
    assert s1.ispagetable[0 := 1] == [1, 1, 1, 0];
  }

  lemma MapsFourth(fix: Repairs, s: State)
    requires s == Three()
    ensures Step(fix, s, Map(3, 0, 1)) == Some((Four(), MapDone))
  {
    ThreeEvictsFirst(fix, Robin(s), [OneMapped(1, 1), OneMapped(48, 2), OneMapped(0, 1), ZERO_PAGE]);
    ThreeEvictsSecond(fix, Three1(), [OneMapped(1, 1), OneMapped(2, 1), OneMapped(0, 1), ZERO_PAGE]);
    TwoOut(fix, s, 3, Three1(), Three2());
    FourthPlaced(fix, s, Three2(), [ZERO_PAGE, OneMapped(2, 1), OneMapped(0, 1), ZERO_PAGE]);
  }

  // ----- four tables in memory

  function Four1(): State {
    Pager(Mem([OneMapped(4, 1), OneMapped(2, 1), OneMapped(0, 1), ZERO_PAGE]),
          [0, 0, 0, 1], [3, 2, 1, -1], [1, 1, 1, 0], [Hp(3, 0), Hp(32, 1), Hp(16, 1), Hp(0, 1)],
          [ZERO_PAGE, ZERO_PAGE, ZERO_PAGE, OneMapped(1, 1), ZERO_PAGE], 0)
  }

  /** Every frame holds a page table. */
  function AllFour(): State {
    Pager(Mem([OneMapped(4, 1), OneMapped(2, 1), OneMapped(0, 1), OneMapped(1, 1)]),
          [0, 0, 0, 0], [3, 2, 1, 0], [1, 1, 1, 1], [Hp(48, 1), Hp(32, 1), Hp(16, 1), Hp(0, 1)],
          [ZERO_PAGE, ZERO_PAGE, ZERO_PAGE, OneMapped(1, 1), ZERO_PAGE], 0)
  }

  /** The table of process 2 has gone to disk, but its hardware pointer has not
      followed. */
  function Lost(): State {
    Pager(Mem([OneMapped(4, 1), ZERO_PAGE, OneMapped(0, 1), OneMapped(1, 1)]),
          [0, 1, 0, 0], [3, -1, 1, 0], [1, 1, 1, 1], [Hp(48, 1), Hp(32, 1), Hp(16, 1), Hp(0, 1)],
          [ZERO_PAGE, ZERO_PAGE, ZERO_PAGE, OneMapped(1, 1), ZERO_PAGE, OneMapped(2, 1)], 2)
  }

  function Five(): State {
    Pager(Mem([OneMapped(4, 1), ZERO_PAGE, OneMapped(0, 1), OneMapped(16, 2)]),
          [0, 0, 0, 0], [3, 0, 1, 0], [1, 1, 1, 1], [Hp(48, 1), Hp(32, 1), Hp(16, 1), Hp(0, 1)],
          [ZERO_PAGE, ZERO_PAGE, ZERO_PAGE, OneMapped(1, 1), ZERO_PAGE, OneMapped(2, 1)], 2)
  }

  lemma Four1Is(h: State, ps: Frames, s': State)
    requires h == Robin(Four()) && ps == [OneMapped(48, 2), OneMapped(2, 1), OneMapped(0, 1), ZERO_PAGE] && s' == Four1()
    ensures PageGone(h, ps, 0, 3) == s'
  {
    Replaced(OneMapped(48, 2), OneMapped(2, 1), OneMapped(0, 1), ZERO_PAGE, OneMapped(4, 1));
    Replaced(OneMapped(4, 1), OneMapped(2, 1), OneMapped(0, 1), ZERO_PAGE, ZERO_PAGE);
    assert h.freelist[3 := 1] == [0, 0, 0, 1] && h.pages[3 := -1] == [3, 2, 1, -1];
    FivePages(ZERO_PAGE, ZERO_PAGE, ZERO_PAGE, OneMapped(1, 1), ZERO_PAGE);
    PageGoneIs(h, ps, 0, 3, [OneMapped(4, 1), OneMapped(2, 1), OneMapped(0, 1), ZERO_PAGE], s');
  }

  lemma FivePages(a: Page, b: Page, c: Page, d: Page, e: Page)
    ensures [a, b, c, d] + [e] == [a, b, c, d, e]
  {
  }

  lemma FourEvicts(fix: Repairs, h: State, ps: Frames)
    requires h == Robin(Four()) && ps == [OneMapped(48, 2), OneMapped(2, 1), OneMapped(0, 1), ZERO_PAGE]
    ensures Evict(fix, h, 0) == Some(Four1())
  {
    SecondAhead(h);
    EvictsPage(fix, h, 0, ps, 3, 0, 3);
    Four1Is(h, ps, Four1());
  }

  lemma TableComesBack(s: State, ps: Frames)
    requires s == Four1() && ps == [OneMapped(4, 1), OneMapped(2, 1), OneMapped(0, 1), ZERO_PAGE]
    ensures LoadPageTable(s, 0) == Some(AllFour())
  {
    assert FindFree(s) == Some(3);
    TableReturns(s, ps, 0, 3, 3);
    Replaced(OneMapped(4, 1), OneMapped(2, 1), OneMapped(0, 1), ZERO_PAGE, OneMapped(1, 1));
    assert s.freelist[3 := 0] == [0, 0, 0, 0] && s.pages[3 := 0] == [3, 2, 1, 0] && s.ispagetable[3 := 1] == [1, 1, 1, 1];
    Replaced(Hp(3, 0), Hp(32, 1), Hp(16, 1), Hp(0, 1), Hp(48, 1));
  }

  lemma {:induction false} ScanNothing(mem: seq<Byte>, pte: int, paddr: int, n: nat)
    requires |mem| == 64 && 0 <= pte <= 48 && n <= 16 && forall k | pte <= k < pte + n :: mem[k] != paddr
    ensures LookupVpn(false, mem, pte, paddr, n) == Some(0)
  {
    if n > 0 {
      ScanNothing(mem, pte, paddr, n - 1);
    }
  }

  /** The entry the scan settles on is in the table that leaves. */
  lemma OwnEntryOut(ps: Frames, f: Pid, line: Byte)
    ensures SwappedOut(Mem(ps), 16 * f, f, line) == Mem(ps[f := ZERO_PAGE])
  {
    MemByte(ps, f, 1, line);
    var ps1 := ps[f := ps[f][1 := line]];
    MemByte(ps1, f, 3, 1);
    var ps2 := ps1[f := ps1[f][3 := 1]];
    MemFrame(ps2, f, ZERO_PAGE);
    assert ps2[f := ZERO_PAGE] == ps[f := ZERO_PAGE];
  }

  /** With four tables in memory the table in frame `f` leaves as if it were a page. */
  lemma TableLeavesAsPage(s: State, pid: Pid, ps: Frames, q: Pid, f: Pid)
    requires s.mem == Mem(ps) && AllTables(s) && s.roundrobin == f && s.pages[f] == q && s.hardware[q] == Hp(16 * f, 1)
    requires forall j | 0 <= j < 16 :: ps[f][j] != 16 * f
    ensures Evict(AS_WRITTEN, s, pid) ==
      Some(s.(swap := s.swap + [ps[f]], mem := Mem(ps[f := ZERO_PAGE]),
              freelist := s.freelist[f := 1], pages := s.pages[f := -1], roundrobin := Next(f)))
  {
    MemFrame(ps, f, ZERO_PAGE);
    forall k | 16 * f <= k < 16 * f + 16 ensures Mem(ps)[k] != 16 * f {
      MemByte(ps, f, k - 16 * f, 0);
    }
    ScanNothing(Mem(ps), 16 * f, 16 * f, 16);
    OwnEntryOut(ps, f, |s.swap| % 256);
  }

  lemma AllFourEvicts(s: State, ps: Frames)
    requires s == AllFour() && ps == [OneMapped(4, 1), OneMapped(2, 1), OneMapped(0, 1), OneMapped(1, 1)]
    ensures FreeSpace(AS_WRITTEN, s, 1, 0) == Some(Lost())
  {
    var h := Robin(s);
    assert AllTables(h);
    TableLeavesAsPage(h, 0, ps, 2, 1);
    assert ps[1 := ZERO_PAGE] == [OneMapped(4, 1), ZERO_PAGE, OneMapped(0, 1), OneMapped(1, 1)];
    assert s.freelist[1 := 1] == [0, 1, 0, 0] && s.pages[1 := -1] == [3, -1, 1, 0];
    assert s.swap + [OneMapped(2, 1)] == [ZERO_PAGE, ZERO_PAGE, ZERO_PAGE, OneMapped(1, 1), ZERO_PAGE, OneMapped(2, 1)];
    OneOut(AS_WRITTEN, s, 0, Lost());
  }

  lemma PageComesBack(s: State, ps: Frames)
    requires s == Lost() && ps == [OneMapped(4, 1), ZERO_PAGE, OneMapped(0, 1), OneMapped(1, 1)]
    ensures LoadPage(s, 0, 0) == Some(Five())
  {
    assert FindFree(s) == Some(1);
    PageReturns(s, ps, 0, 3, 1, 1);
    Replaced(OneMapped(4, 1), ZERO_PAGE, OneMapped(0, 1), OneMapped(1, 1), ZERO_PAGE);
    Replaced(OneMapped(4, 1), ZERO_PAGE, OneMapped(0, 1), OneMapped(1, 1), OneMapped(16, 2));
    assert s.freelist[1 := 0] == [0, 0, 0, 0] && s.pages[1 := 0] == [3, 0, 1, 0];
  }

  lemma FiveReads(s: State, ps: Frames)
    requires s == Five() && ps == [OneMapped(4, 1), ZERO_PAGE, OneMapped(0, 1), OneMapped(16, 2)]
    ensures LoadHere(s, 0, 0, 1) == Some((s, Loaded(0)))
    ensures Step(AS_WRITTEN, s, Load(2, 0)).None?
  {
    MemByte(ps, 3, 1, 0);
    MemByte(ps, 3, 3, 0);
    MemByte(ps, 1, 0, 0);
    MemByte(ps, 1, 3, 0);
  }

  /** A load of a page on disk whose table is on disk too. */
  lemma LoadsBoth(fix: Repairs, s: State, s1: State, s2: State, s3: State, s4: State, pid: Pid)
    requires s.hardware[pid].inmem == 0 && FreeCount(s) == 0 && FreeSpace(fix, s, 1, pid) == Some(s1)
    requires LoadPageTable(s1, pid) == Some(s2) && s2.mem[FindPte(s2, pid, 0) + 3] == 1
    requires FreeSpace(fix, s2, 1, pid) == Some(s3) && LoadPage(s3, pid, 0) == Some(s4)
    ensures Step(fix, s, Load(pid, 0)) == LoadHere(s4, pid, 0, LeastAddress(fix))
  {
  }

  lemma AllFourValpres(s: State, ps: Frames)
    requires s == AllFour() && ps == [OneMapped(4, 1), OneMapped(2, 1), OneMapped(0, 1), OneMapped(1, 1)]
    ensures s.mem[FindPte(s, 0, 0) + 3] == 1
  {
    MemByte(ps, 3, 3, 0);
  }

  lemma FourLoads(s: State)
    requires s == Four()
    ensures Step(AS_WRITTEN, s, Load(0, 0)) == Some((Five(), Loaded(0)))
  {
    FourEvicts(AS_WRITTEN, Robin(s), [OneMapped(48, 2), OneMapped(2, 1), OneMapped(0, 1), ZERO_PAGE]);
    OneOut(AS_WRITTEN, s, 0, Four1());
    TableComesBack(Four1(), [OneMapped(4, 1), OneMapped(2, 1), OneMapped(0, 1), ZERO_PAGE]);
    var ps := [OneMapped(4, 1), OneMapped(2, 1), OneMapped(0, 1), OneMapped(1, 1)];
    AllFourValpres(AllFour(), ps);
    AllFourEvicts(AllFour(), ps);
    PageComesBack(Lost(), [OneMapped(4, 1), ZERO_PAGE, OneMapped(0, 1), OneMapped(1, 1)]);
    LoadsBoth(AS_WRITTEN, s, Four1(), AllFour(), Lost(), Five(), 0);
    FiveReads(Five(), [OneMapped(4, 1), ZERO_PAGE, OneMapped(0, 1), OneMapped(16, 2)]);
  }

  const MAPS := MAP_0 + [Map(1, 0, 1)] + [Map(2, 0, 1)] + [Map(3, 0, 1)]
  const MAPS_OUT := [MapDone] + [MapDone] + [MapDone] + [MapDone]
  const SESSION := MAPS + [Load(0, 0)]
  const SESSION_OUT := MAPS_OUT + [Loaded(0)]

  lemma ReachesThree(fix: Repairs)
    ensures Leads(fix, Boot(), MAP_0 + [Map(1, 0, 1)] + [Map(2, 0, 1)], Three(), [MapDone] + [MapDone] + [MapDone])
  {
    ReachesMapped0(fix);
    OneIsMapped0();
    MapsSecond(fix, One(), [OneMapped(16, 2), ZERO_PAGE, ZERO_PAGE, ZERO_PAGE]);
    LeadsOn(fix, Boot(), MAP_0, One(), [MapDone], Map(1, 0, 1), Two(), MapDone);
    MapsThird(fix, Two());
    LeadsOn(fix, Boot(), MAP_0 + [Map(1, 0, 1)], Two(), [MapDone] + [MapDone], Map(2, 0, 1), Three(), MapDone);
  }

  lemma ReachesFour(fix: Repairs)
    ensures Leads(fix, Boot(), MAPS, Four(), MAPS_OUT)
  {
    ReachesThree(fix);
    MapsFourth(fix, Three());
    LeadsOn(fix, Boot(), MAP_0 + [Map(1, 0, 1)] + [Map(2, 0, 1)], Three(), [MapDone] + [MapDone] + [MapDone],
            Map(3, 0, 1), Four(), MapDone);
  }

  lemma ReachesFive()
    ensures Leads(AS_WRITTEN, Boot(), SESSION, Five(), SESSION_OUT)
  {
    ReachesFour(AS_WRITTEN);
    FourLoads(Four());
    LeadsOn(AS_WRITTEN, Boot(), MAPS, Four(), MAPS_OUT, Load(0, 0), Five(), Loaded(0));
  }

  // ----- what flat memory answers

  /** Flat memory has answered `outs`, and the first page of the first `k` processes is
      mapped and all zeros. */
  ghost predicate FlatZeros(cs: seq<Command>, outs: seq<Output>, k: nat) {
    var (m, answers) := FlatRun(NOTHING_MAPPED, cs);
    answers == outs && forall p: Pid :: m[4 * p] == if p < k then Mapped(1, ZERO_PAGE) else Unmapped
  }

  lemma FlatMaps(cs: seq<Command>, outs: seq<Output>, k: nat, pid: Pid)
    requires FlatZeros(cs, outs, k) && pid <= k
    ensures FlatZeros(cs + [Map(pid, 0, 1)], outs + [MapDone], if pid == k then k + 1 else k)
  {
    FlatOn(NOTHING_MAPPED, cs, Map(pid, 0, 1));
  }

  lemma FlatLoads(cs: seq<Command>, outs: seq<Output>, k: nat, pid: Pid)
    requires FlatZeros(cs, outs, k) && pid < k
    ensures FlatZeros(cs + [Load(pid, 0)], outs + [Loaded(0)], k)
  {
    FlatOn(NOTHING_MAPPED, cs, Load(pid, 0));
  }

  lemma FlatMapsFirst(cs: seq<Command>)
    requires cs == MAP_0
    ensures FlatZeros(cs, [MapDone], 1)
  {
    var none := cs[1..];
    FlatNothing(NOTHING_MAPPED);
    FlatMaps(none, [], 0, 0);
    assert none + [Map(0, 0, 1)] == cs;
    assert [] + [MapDone] == [MapDone];
  }

  lemma FlatMapsOthers(cs: seq<Command>, outs: seq<Output>)
    requires FlatZeros(cs, outs, 1)
    ensures FlatZeros(cs + [Map(1, 0, 1)] + [Map(2, 0, 1)] + [Map(3, 0, 1)], outs + [MapDone] + [MapDone] + [MapDone], 4)
  {
    FlatMaps(cs, outs, 1, 1);
    FlatMaps(cs + [Map(1, 0, 1)], outs + [MapDone], 2, 2);
    FlatMaps(cs + [Map(1, 0, 1)] + [Map(2, 0, 1)], outs + [MapDone] + [MapDone], 3, 3);
  }

  lemma FlatFourth(cs: seq<Command>, outs: seq<Output>)
    requires FlatZeros(cs, outs, 4)
    ensures FlatRun(NOTHING_MAPPED, cs + [Load(0, 0)] + [Load(2, 0)]).1 == outs + [Loaded(0)] + [Loaded(0)]
  {
    FlatLoads(cs, outs, 4, 0);
    FlatLoads(cs + [Load(0, 0)], outs + [Loaded(0)], 4, 2);
  }

  /** For any commands that lead to the first page being mapped. */
  lemma FlatFourthFrom(cs: seq<Command>, outs: seq<Output>)
    requires FlatZeros(cs, outs, 1)
    ensures FlatRun(NOTHING_MAPPED, cs + [Map(1, 0, 1)] + [Map(2, 0, 1)] + [Map(3, 0, 1)] + [Load(0, 0)] + [Load(2, 0)]).1
         == outs + [MapDone] + [MapDone] + [MapDone] + [Loaded(0)] + [Loaded(0)]
  {
    FlatMapsOthers(cs, outs);
    FlatFourth(cs + [Map(1, 0, 1)] + [Map(2, 0, 1)] + [Map(3, 0, 1)], outs + [MapDone] + [MapDone] + [MapDone]);
  }

  lemma FlatFourthSession(cs: seq<Command>, outs: seq<Output>)
    requires cs == MAP_0 && outs == [MapDone]
    ensures FlatRun(NOTHING_MAPPED, cs + [Map(1, 0, 1)] + [Map(2, 0, 1)] + [Map(3, 0, 1)] + [Load(0, 0)] + [Load(2, 0)]).1
         == outs + [MapDone] + [MapDone] + [MapDone] + [Loaded(0)] + [Loaded(0)]
  {
    FlatMapsFirst(cs);
    FlatFourthFrom(cs, outs);
  }

  /** Four processes map a page each; then process 0 reads, for which the table of
      process 2 leaves as a page; then process 2 cannot be served. */
  lemma FourthTableLosesOne()
    ensures Run(AS_WRITTEN, Boot(), SESSION).Some? && Run(AS_WRITTEN, Boot(), SESSION).value.1 == SESSION_OUT
    ensures Run(AS_WRITTEN, Boot(), SESSION + [Load(2, 0)]).None?
    ensures FlatRun(NOTHING_MAPPED, SESSION + [Load(2, 0)]).1 == SESSION_OUT + [Loaded(0)]
  {
    FlatFourthSession(MAP_0, [MapDone]);
    FourthLost(SESSION, SESSION_OUT);
  }

  lemma FourthLost(cs: seq<Command>, outs: seq<Output>)
    requires cs == SESSION && outs == SESSION_OUT
    ensures Run(AS_WRITTEN, Boot(), cs).Some? && Run(AS_WRITTEN, Boot(), cs).value.1 == outs
    ensures Run(AS_WRITTEN, Boot(), cs + [Load(2, 0)]).None?
  {
    ReachesFive();
    FiveReads(Five(), [OneMapped(4, 1), ZERO_PAGE, OneMapped(0, 1), OneMapped(16, 2)]);
    LeadsNowhere(AS_WRITTEN, Boot(), cs, Five(), outs, Load(2, 0));
  }
}
