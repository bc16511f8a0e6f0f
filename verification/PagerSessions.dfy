/** Sessions that the code as written answers wrongly, or not at all. */
module PagerSessions {
  import opened Options
  import opened PagerModel
  import opened PagerTables
  import opened PagerBytes
  import opened PagerCommands
  import opened PagerTransparency
  import opened PagerHistory
  import opened PagerAsWritten

  /** Memory as four frames. */
  function Memory(a: Page, b: Page, c: Page, d: Page): (m: seq<Byte>)
    ensures |m| == 64
  {
    a + b + c + d
  }

  const HP0 := [Hp(0, 1), Hp(0, -1), Hp(0, -1), Hp(0, -1)]

  function FilledWith(x: Byte): Page {
    [x, 0, 0, 0, 0, 0, 0, 0, 0, 0, 0, 0, 0, 0, 0, 0]
  }

  // ----- one process that maps its pages one after the other

  const MAPPED0: Pager := Pager(
    Memory([0, 16, 1, 2, 1, 0, 0, 0, 2, 0, 0, 0, 3, 0, 0, 0], ZERO_PAGE, ZERO_PAGE, ZERO_PAGE),
    [0, 0, 1, 1], [0, 0, -1, -1], [1, 0, 0, 0], HP0, [], 1)

  /** Pages 0 and 1 are mapped; page 1 starts with `x`. */
  function Mapped1(x: Byte): State {
    Pager(Memory([0, 16, 1, 2, 1, 32, 1, 2, 2, 0, 0, 0, 3, 0, 0, 0], ZERO_PAGE, FilledWith(x), ZERO_PAGE),
          [0, 0, 0, 1], [0, 0, 0, -1], [1, 0, 0, 0], HP0, [], 1)
  }

  /** Page 2 as well, with protection `val`. */
  function Mapped2(x: Byte, val: Byte): State {
    Pager(Memory([0, 16, 1, 2, 1, 32, 1, 2, 2, 48, val, 2, 3, 0, 0, 0], ZERO_PAGE, FilledWith(x), ZERO_PAGE),
          [0, 0, 0, 0], [0, 0, 0, 0], [1, 0, 0, 0], HP0, [], 1)
  }

  /** Page 3 as well, so that page 1 is now on disk. */
  function Mapped3(x: Byte): State {
    Pager(Memory(TABLE_4, ZERO_PAGE, ZERO_PAGE, ZERO_PAGE),
          [0, 0, 0, 0], [0, 0, 0, 0], [1, 0, 0, 0], HP0, [FilledWith(x)], 3)
  }

  /** The parts of the first map of a process. */
  lemma MapsInto(fix: Repairs, s: State, s1: State, n: State, s2: State, pid: Pid, f: Pid)
    requires s.hardware[pid].inmem == -1 && FreeSpace(fix, s, 2, pid) == Some(s1)
    requires FindFree(s1) == Some(f) && n == NewTable(s1, pid, f)
    requires n.mem[16 * f + 3] == 0 && FindFree(n).Some? && PlacePage(n, pid, 0, 1) == Some(s2)
    ensures Step(fix, s, Map(pid, 0, 1)) == Some((s2, MapDone))
  {
    assert TableForMap(fix, s, pid) == Some(n);
    assert FreeCount(n) > 0;
  }

  lemma FirstFrames(b: State, n: State)
    requires b == Boot() && n == NewTable(Robin(b), 0, 0)
    ensures FreeSpace(AS_WRITTEN, b, 2, 0) == Some(Robin(b)) && FindFree(Robin(b)) == Some(0) && FindFree(n) == Some(1)
    ensures n.mem[3] == 0 && Resident(n, 0)
  {
  }

  lemma FirstBytes(b: State, n: State)
    requires b == Boot() && n == NewTable(Robin(b), 0, 0)
    ensures n.mem[1 := 16][2 := 1][3 := 2] == MAPPED0.mem
  {
  }

  lemma MapsPage0(fix: Repairs)
    ensures Step(fix, Boot(), Map(0, 0, 1)) == Some((MAPPED0, MapDone))
  {
    var b := Boot();
    var n := NewTable(Robin(b), 0, 0);
    FirstFrames(b, n);
    FirstBytes(b, n);
    var s2 := PlacePage(n, 0, 0, 1).value;
    assert s2 == n.(freelist := n.freelist[1 := 0], pages := n.pages[1 := 0], mem := n.mem[1 := 16][2 := 1][3 := 2]);
    MapsInto(fix, b, Robin(b), n, s2, 0, 0);
    assert s2.freelist == MAPPED0.freelist && s2.pages == MAPPED0.pages;
    assert s2.ispagetable == MAPPED0.ispagetable && s2.hardware == MAPPED0.hardware;
  }

  /** Mapping one page more while a frame is free. */
  lemma MapsNext(fix: Repairs, s: State, s2: State, vaddr: Vaddr, val: Byte, free: Pid)
    requires s.hardware == HP0 && s.mem[4 * (vaddr / 16) + 3] == 0 && FindFree(s) == Some(free) && FreeCount(s) > 0
    requires s2 == s.(mem := s.mem[4 * (vaddr / 16) + 1 := 16 * free][4 * (vaddr / 16) + 2 := val][4 * (vaddr / 16) + 3 := 2],
                      freelist := s.freelist[free := 0], pages := s.pages[free := 0])
    ensures Step(fix, s, Map(0, vaddr, val)) == Some((s2, MapDone))
  {
  }

  lemma MapsPage1(fix: Repairs)
    ensures Step(fix, MAPPED0, Map(0, 16, 1)) == Some((Mapped1(0), MapDone))
  {
    assert Mapped1(0).mem == MAPPED0.mem[5 := 32][6 := 1][7 := 2];
    MapsNext(fix, MAPPED0, Mapped1(0), 16, 1, 2);
  }

  lemma MapsPage2(fix: Repairs, x: Byte, val: Byte)
    ensures Step(fix, Mapped1(x), Map(0, 32, val)) == Some((Mapped2(x, val), MapDone))
  {
    assert Mapped2(x, val).mem == Mapped1(x).mem[9 := 48][10 := val][11 := 2];
    MapsNext(fix, Mapped1(x), Mapped2(x, val), 32, val, 3);
  }

  /** A store to a page in memory. */
  lemma StoresAt(fix: Repairs, s: State, vaddr: Vaddr, val: Byte, paddr: nat)
    requires s.hardware == HP0 && s.mem[4 * (vaddr / 16) + 2] == 1 && s.mem[4 * (vaddr / 16) + 3] == 2
    requires s.mem[4 * (vaddr / 16) + 1] + vaddr % 16 == paddr < 64
    ensures Step(fix, s, Store(0, vaddr, val)) == Some((s.(mem := s.mem[paddr := val]), Stored))
  {
  }

  lemma Page1Bytes(s: State, s': State)
    requires s == Mapped1(0) && s' == Mapped1(7)
    ensures s.mem[5] == 32 && s.mem[6] == 1 && s.mem[7] == 2 && s' == s.(mem := s.mem[32 := 7])
  {
  }

  lemma StoresInPage1(fix: Repairs, s: State, s': State)
    requires s == Mapped1(0) && s' == Mapped1(7)
    ensures Step(fix, s, Store(0, 16, 7)) == Some((s', Stored))
  {
    Page1Bytes(s, s');
    StoresAt(fix, s, 16, 7, 32);
  }

  /** What `freespace(1, 0)` does to `s` when no frame is free and the next one holds a
      page of process 0, for which the scan settles on `vp`. */
  function AfterEviction(s: State, f: Pid, vp: Pid): State {
    s.(swap := s.swap + [Frame(s, f)], mem := SwappedOut(s.mem, 4 * vp, f, |s.swap| % 256),
       freelist := s.freelist[f := 1], pages := s.pages[f := -1], roundrobin := Next(f))
  }

  /** The frame of process 0's only table is passed over. */
  predicate NextPage(s: State, f: Pid) {
    && s.hardware == HP0 && FreeCount(s) == 0 && IsData(s, f) && s.pages[f] == 0
    && (f == Next(s.roundrobin) || (f == Next(Next(s.roundrobin)) && IsTable(s, Next(s.roundrobin))))
  }

  lemma NextPageFound(s: State, f: Pid)
    requires NextPage(s, f)
    ensures NextData(Robin(s), Next(s.roundrobin), 4) == Some(f) && !AllTables(Robin(s))
  {
    var h := Robin(s);
    assert IsData(h, f) && !IsTable(h, f);
    assert f != h.roundrobin ==> IsTable(h, h.roundrobin);
  }

  lemma EvictsNext(fix: Repairs, s: State, f: Pid, vp: Pid)
    requires NextPage(s, f) && LookupVpn(fix.exactLookup, s.mem, 0, 16 * f, 16) == Some(vp)
    ensures FreeSpace(fix, s, 1, 0) == Some(AfterEviction(s, f, vp))
  {
    var h := Robin(s);
    NextPageFound(s, f);
    assert RemovePage(fix, h, 0, f) == Some(AfterEviction(s, f, vp).(roundrobin := h.roundrobin));
    assert EvictTimes(fix, h, 0, 1) == Evict(fix, h, 0);
  }

  lemma EvictsNothing(s: State, f: Pid, vp: int)
    requires NextPage(s, f) && LookupVpn(false, s.mem, 0, 16 * f, 16) == Some(vp) && vp >= 16
    ensures FreeSpace(AS_WRITTEN, s, 1, 0).None?
  {
    var h := Robin(s);
    NextPageFound(s, f);
    assert RemovePage(AS_WRITTEN, h, 0, f).None?;
    assert EvictTimes(AS_WRITTEN, h, 0, 1) == Evict(AS_WRITTEN, h, 0);
  }

  lemma FullMap(fix: Repairs, s: State, f: Pid, vp: Pid, vaddr: Vaddr, val: Byte)
    requires NextPage(s, f) && LookupVpn(fix.exactLookup, s.mem, 0, 16 * f, 16) == Some(vp)
    requires s.mem[4 * (vaddr / 16) + 3] == 0 || (s.mem[4 * (vaddr / 16) + 3] == 1 && !fix.mapKeepsPage)
    ensures Step(fix, s, Map(0, vaddr, val)) ==
      match PlacePage(AfterEviction(s, f, vp), 0, vaddr, val)
      case Some(s2) => Some((s2, MapDone))
      case None => None
  {
    EvictsNext(fix, s, f, vp);
  }

  /** One entry of the table in frame 0 rewritten. */
  lemma EntryWritten(a: Page, b: Page, c: Page, d: Page, at: int, pfn: Byte, prot: Byte, valpres: Byte)
    requires 0 <= at <= 12
    ensures Memory(a, b, c, d)[at + 1 := pfn][at + 2 := prot][at + 3 := valpres]
         == Memory(a[at + 1 := pfn][at + 2 := prot][at + 3 := valpres], b, c, d)
  {
  }

  lemma EntryOut(a: Page, b: Page, c: Page, d: Page, at: int, line: Byte)
    requires 0 <= at <= 12
    ensures Memory(a, b, c, d)[at + 1 := line][at + 3 := 1] == Memory(a[at + 1 := line][at + 3 := 1], b, c, d)
  {
  }

  lemma FrameCleared(a: Page, b: Page, c: Page, d: Page, f: Pid)
    requires f > 0
    ensures PutFrame(Memory(a, b, c, d), f, ZERO_PAGE) ==
      if f == 1 then Memory(a, ZERO_PAGE, c, d) else if f == 2 then Memory(a, b, ZERO_PAGE, d) else Memory(a, b, c, ZERO_PAGE)
  {
  }

  lemma FrameOf(a: Page, b: Page, c: Page, d: Page, f: Pid)
    requires f > 0
    ensures Memory(a, b, c, d)[16 * f..16 * f + 16] == if f == 1 then b else if f == 2 then c else d
  {
  }

  lemma SwappedOutFrame(a: Page, b: Page, c: Page, d: Page, at: int, f: Pid, line: Byte)
    requires 0 <= at <= 12 && f > 0
    ensures var a' := a[at + 1 := line][at + 3 := 1];
      SwappedOut(Memory(a, b, c, d), at, f, line) ==
        if f == 1 then Memory(a', ZERO_PAGE, c, d) else if f == 2 then Memory(a', b, ZERO_PAGE, d) else Memory(a', b, c, ZERO_PAGE)
    ensures Memory(a, b, c, d)[16 * f..16 * f + 16] == if f == 1 then b else if f == 2 then c else d
  {
    EntryOut(a, b, c, d, at, line);
    FrameCleared(a[at + 1 := line][at + 3 := 1], b, c, d, f);
    FrameOf(a, b, c, d, f);
  }

  lemma Places(s: State, vaddr: Vaddr, val: Byte, f: Pid)
    requires s.hardware == HP0 && FindFree(s) == Some(f)
    ensures var at := 4 * (vaddr / 16);
      PlacePage(s, 0, vaddr, val) ==
        Some(s.(mem := s.mem[at + 1 := 16 * f][at + 2 := val][at + 3 := 2], freelist := s.freelist[f := 0], pages := s.pages[f := 0]))
  {
  }

  const TABLE_4: Page := [0, 16, 1, 2, 1, 0, 1, 1, 2, 48, 1, 2, 3, 32, 1, 2]
  const TABLE_2: Page := [0, 16, 1, 2, 1, 32, 1, 2, 2, 48, 1, 2, 3, 0, 0, 0]
  const TABLE_3: Page := [0, 16, 1, 2, 1, 0, 1, 1, 2, 48, 1, 2, 3, 0, 0, 0]

  /** On the way to `Mapped3`: page 1 has gone to disk. */
  function Emptied2(x: Byte): State {
    Pager(Memory(TABLE_3, ZERO_PAGE, ZERO_PAGE, ZERO_PAGE),
          [0, 0, 1, 0], [0, 0, -1, 0], [1, 0, 0, 0], HP0, [FilledWith(x)], 3)
  }

  /** The scan of the table in frame 0 stays with the last match, at `i`. */
  lemma ScanTable(a: Page, b: Page, c: Page, d: Page, paddr: int, i: int)
    requires 0 < i < 16 && a[i] == paddr != a[0] && forall j | i < j < 16 :: a[j] != paddr
    ensures LookupVpn(false, Memory(a, b, c, d), 0, paddr, 16) == Some(a[i - 1] as int)
  {
    assert Memory(a, b, c, d)[0..16] == a;
    ScanFrom(Memory(a, b, c, d), 0, paddr, a, i, 16);
  }

  lemma Empties2(x: Byte)
    ensures AfterEviction(Mapped2(x, 1), 2, 1) == Emptied2(x)
  {
    SwappedOutFrame(TABLE_2, ZERO_PAGE, FilledWith(x), ZERO_PAGE, 4, 2, 0);
    assert TABLE_2[5 := 0][7 := 1] == TABLE_3;
    EmptiedArrays(Mapped2(x, 1), Emptied2(x), 2, 1, Memory(TABLE_3, ZERO_PAGE, ZERO_PAGE, ZERO_PAGE), FilledWith(x));
  }

  lemma EmptiedArrays(s: State, s1: State, f: Pid, vp: Pid, mem: seq<Byte>, page: Page)
    requires SwappedOut(s.mem, 4 * vp, f, |s.swap| % 256) == mem == s1.mem && Frame(s, f) == page
    requires s1.swap == s.swap + [page] && s1.freelist == s.freelist[f := 1] && s1.pages == s.pages[f := -1]
    requires s1.ispagetable == s.ispagetable && s1.hardware == s.hardware && s1.roundrobin == Next(f)
    ensures AfterEviction(s, f, vp) == s1
  {
  }

  lemma MapsPage3(x: Byte)
    ensures Step(AS_WRITTEN, Mapped2(x, 1), Map(0, 48, 1)) == Some((Mapped3(x), MapDone))
  {
    ScanTable(TABLE_2, ZERO_PAGE, FilledWith(x), ZERO_PAGE, 32, 5);
    Empties2(x);
    FullMap(AS_WRITTEN, Mapped2(x, 1), 2, 1, 48, 1);
    EntryWritten(TABLE_3, ZERO_PAGE, ZERO_PAGE, ZERO_PAGE, 12, 32, 1, 2);
    assert TABLE_3[13 := 32][14 := 1][15 := 2] == TABLE_4;
    Places(Emptied2(x), 48, 1, 2);
    assert Emptied2(x).freelist[2 := 0] == [0, 0, 0, 0] && Emptied2(x).pages[2 := 0] == [0, 0, 0, 0];
  }

  // ----- a protection byte taken for a frame address

  const TABLE_2_32: Page := [0, 16, 1, 2, 1, 32, 1, 2, 2, 48, 32, 2, 3, 0, 0, 0]

  lemma MapsPage3Badly()
    ensures Step(AS_WRITTEN, Mapped2(0, 32), Map(0, 48, 1)).None?
  {
    ScanTable(TABLE_2_32, ZERO_PAGE, FilledWith(0), ZERO_PAGE, 32, 10);
    EvictsNothing(Mapped2(0, 32), 2, 48);
  }

  // ----- a store to a page on disk

  const TABLE_4_7: Page := [0, 16, 1, 2, 7, 0, 1, 1, 2, 48, 1, 2, 3, 32, 1, 2]

  /** The byte meant for page 1 has become the page number of entry 1. */
  function Misplaced(): State {
    Mapped3(0).(mem := Memory(TABLE_4_7, ZERO_PAGE, ZERO_PAGE, ZERO_PAGE))
  }

  lemma StoresToDisk()
    ensures Step(AS_WRITTEN, Mapped3(0), Store(0, 20, 7)) == Some((Misplaced(), Stored))
  {
    assert TABLE_4[4 := 7] == TABLE_4_7;
    assert Memory(TABLE_4, ZERO_PAGE, ZERO_PAGE, ZERO_PAGE)[4 := 7] == Memory(TABLE_4[4 := 7], ZERO_PAGE, ZERO_PAGE, ZERO_PAGE);
  }

  /** Page 0 has gone to disk, so that frame 1 is free. */
  function Emptied1(table: Page, x: Byte): State {
    Pager(Memory(table, ZERO_PAGE, ZERO_PAGE, ZERO_PAGE),
          [0, 1, 0, 0], [0, -1, 0, 0], [1, 0, 0, 0], HP0, [FilledWith(x), ZERO_PAGE], 2)
  }

  lemma Empties1(s: State, table: Page, x: Byte)
    requires s == Mapped3(x).(mem := Memory(table, ZERO_PAGE, ZERO_PAGE, ZERO_PAGE))
    ensures AfterEviction(s, 1, 0) == Emptied1(table[1 := 1][3 := 1], x)
  {
    SwappedOutFrame(table, ZERO_PAGE, ZERO_PAGE, ZERO_PAGE, 0, 1, 1);
  }

  /** What a load finds that brings its page back with one eviction. */
  lemma FullLoad(s: State, f: Pid, vp: Pid, vaddr: Vaddr)
    requires NextPage(s, f) && LookupVpn(false, s.mem, 0, 16 * f, 16) == Some(vp)
    requires s.mem[4 * (vaddr / 16) + 3] == 1
    ensures Step(AS_WRITTEN, s, Load(0, vaddr)) ==
      match LoadPage(AfterEviction(s, f, vp), 0, vaddr)
      case Some(s2) => LoadHere(s2, 0, vaddr, 1)
      case None => None
  {
    EvictsNext(AS_WRITTEN, s, f, vp);
    SwapsInAfter(s, AfterEviction(s, f, vp), vaddr);
    LoadsSwapped(s, vaddr);
  }

  lemma SwapsInAfter(s: State, s1: State, vaddr: Vaddr)
    requires FreeCount(s) == 0 && FreeSpace(AS_WRITTEN, s, 1, 0) == Some(s1)
    ensures SwapIn(AS_WRITTEN, s, 0, vaddr) == LoadPage(s1, 0, vaddr)
  {
  }

  lemma LoadsSwapped(s: State, vaddr: Vaddr)
    requires s.hardware == HP0 && s.mem[4 * (vaddr / 16) + 3] == 1
    ensures Step(AS_WRITTEN, s, Load(0, vaddr)) ==
      match SwapIn(AS_WRITTEN, s, 0, vaddr)
      case Some(s2) => LoadHere(s2, 0, vaddr, 1)
      case None => None
  {
  }

  /** A page that comes back to frame `f` is read as it is on its swap line. */
  lemma ReadsBackLine(s: State, vaddr: Vaddr, f: Pid)
    requires s.hardware == HP0 && FindFree(s) == Some(f) && f > 0 && s.mem[4 * (vaddr / 16) + 1] < |s.swap|
    ensures LoadPage(s, 0, vaddr).Some?
    ensures LoadHere(LoadPage(s, 0, vaddr).value, 0, vaddr, 1).Some?
    ensures LoadHere(LoadPage(s, 0, vaddr).value, 0, vaddr, 1).value.1 == Loaded(s.swap[s.mem[4 * (vaddr / 16) + 1]][vaddr % 16])
  {
    var s2 := LoadPage(s, 0, vaddr).value;
    SwappedInReads(s.mem, 4 * (vaddr / 16), f, s.swap[s.mem[4 * (vaddr / 16) + 1]], vaddr % 16);
    assert Convert(s2, vaddr, 0) == 16 * f + vaddr % 16;
  }

  lemma SwappedInReads(mem: seq<Byte>, at: int, f: Pid, page: Page, offset: int)
    requires |mem| == 64 && 0 <= at <= 12 && f > 0 && 0 <= offset < 16
    ensures var m := SwappedIn(mem, at, f, page);
      m[at + 1] == 16 * f && m[at + 3] == 2 && m[16 * f + offset] == page[offset]
  {
  }

  const TABLE_5_7: Page := [0, 1, 1, 1, 7, 0, 1, 1, 2, 48, 1, 2, 3, 32, 1, 2]

  /** A load that brings its page back from line `line` with one eviction. */
  lemma LoadsLine(s: State, s1: State, f: Pid, vp: Pid, vaddr: Vaddr, line: nat)
    requires NextPage(s, f) && f > 0 && LookupVpn(false, s.mem, 0, 16 * f, 16) == Some(vp)
    requires s.mem[4 * (vaddr / 16) + 3] == 1
    requires AfterEviction(s, f, vp) == s1 && s1.hardware == HP0 && FindFree(s1) == Some(f)
    requires s1.mem[4 * (vaddr / 16) + 1] == line && line < |s1.swap|
    ensures Step(AS_WRITTEN, s, Load(0, vaddr)).Some?
    ensures Step(AS_WRITTEN, s, Load(0, vaddr)).value.1 == Loaded(s1.swap[line][vaddr % 16])
  {
    FullLoad(s, f, vp, vaddr);
    ReadsBackLine(s1, vaddr, f);
  }

  lemma MisplacedReady(s: State)
    requires s == Misplaced()
    ensures NextPage(s, 1) && s.mem[4 + 3] == 1 && LookupVpn(false, s.mem, 0, 16, 16) == Some(0)
  {
    ScanTable(TABLE_4_7, ZERO_PAGE, ZERO_PAGE, ZERO_PAGE, 16, 1);
  }

  lemma EmptiedReady(s1: State)
    requires s1 == Emptied1(TABLE_5_7, 0)
    ensures s1.hardware == HP0 && FindFree(s1) == Some(1) && s1.mem[4 + 1] == 0
    ensures |s1.swap| == 2 && s1.swap[0][4] == 0
  {
  }

  lemma LoadsFromDisk(s: State)
    requires s == Misplaced()
    ensures Step(AS_WRITTEN, s, Load(0, 20)).Some?
    ensures Step(AS_WRITTEN, s, Load(0, 20)).value.1 == Loaded(0)
  {
    MisplacedReady(s);
    var s1 := Emptied1(TABLE_5_7, 0);
    MisplacedEmpties(s, s1);
    EmptiedReady(s1);
    LoadsLine(s, s1, 1, 0, 20, 0);
  }

  lemma MisplacedEmpties(s: State, s1: State)
    requires s == Misplaced() && s1 == Emptied1(TABLE_5_7, 0)
    ensures AfterEviction(s, 1, 0) == s1
  {
    Empties1(s, TABLE_4_7, 0);
    assert TABLE_4_7[1 := 1][3 := 1] == TABLE_5_7;
  }

  // ----- a map of a page on disk

  const TABLE_5: Page := [0, 1, 1, 1, 1, 0, 1, 1, 2, 48, 1, 2, 3, 32, 1, 2]
  const TABLE_6: Page := [0, 1, 1, 1, 1, 16, 1, 2, 2, 48, 1, 2, 3, 32, 1, 2]

  /** Page 1 is mapped again, to a fresh frame. */
  function Remapped(x: Byte): State {
    Pager(Memory(TABLE_6, ZERO_PAGE, ZERO_PAGE, ZERO_PAGE),
          [0, 0, 0, 0], [0, 0, 0, 0], [1, 0, 0, 0], HP0, [FilledWith(x), ZERO_PAGE], 2)
  }

  lemma MapsAgain(x: Byte)
    ensures Step(AS_WRITTEN, Mapped3(x), Map(0, 16, 1)) == Some((Remapped(x), MapDone))
  {
    ScanTable(TABLE_4, ZERO_PAGE, ZERO_PAGE, ZERO_PAGE, 16, 1);
    Empties1(Mapped3(x), TABLE_4, x);
    assert TABLE_4[1 := 1][3 := 1] == TABLE_5;
    FullMap(AS_WRITTEN, Mapped3(x), 1, 0, 16, 1);
    Replaces(x);
  }

  lemma Replaces(x: Byte)
    ensures PlacePage(Emptied1(TABLE_5, x), 0, 16, 1) == Some(Remapped(x))
  {
    EntryWritten(TABLE_5, ZERO_PAGE, ZERO_PAGE, ZERO_PAGE, 4, 16, 1, 2);
    assert TABLE_5[5 := 16][6 := 1][7 := 2] == TABLE_6;
    Places(Emptied1(TABLE_5, x), 16, 1, 1);
    assert Emptied1(TABLE_5, x).freelist[1 := 0] == [0, 0, 0, 0] && Emptied1(TABLE_5, x).pages[1 := 0] == [0, 0, 0, 0];
  }

  lemma LoadsZero(x: Byte)
    ensures Step(AS_WRITTEN, Remapped(x), Load(0, 16)) == Some((Remapped(x), Loaded(0)))
  {
  }

  // ----- whole sessions

  /** `s1` is what the commands of `cs` make of `s` as written, answering `outs`. */
  ghost predicate Leads(fix: Repairs, s: State, cs: seq<Command>, s1: State, outs: seq<Output>) {
    Run(fix, s, cs) == Some((s1, outs))
  }

  lemma {:induction false} LeadsOn(fix: Repairs, s: State, cs: seq<Command>, s1: State, outs: seq<Output>, c: Command, s2: State, out: Output)
    requires Leads(fix, s, cs, s1, outs) && Step(fix, s1, c) == Some((s2, out))
    ensures Leads(fix, s, cs + [c], s2, outs + [out])
    decreases cs
  {
    if cs == [] {
      assert (cs + [c])[0] == c && (cs + [c])[1..] == cs;
      assert outs + [out] == [out] + [];
    } else {
      var first := Step(fix, s, cs[0]).value;
      LeadsOn(fix, first.0, cs[1..], s1, outs[1..], c, s2, out);
      assert (cs + [c])[1..] == cs[1..] + [c];
      assert outs + [out] == [first.1] + (outs[1..] + [out]);
    }
  }

  lemma {:induction false} LeadsNowhere(fix: Repairs, s: State, cs: seq<Command>, s1: State, outs: seq<Output>, c: Command)
    requires Leads(fix, s, cs, s1, outs) && Step(fix, s1, c).None?
    ensures Run(fix, s, cs + [c]).None?
    decreases cs
  {
    if cs != [] {
      LeadsNowhere(fix, Step(fix, s, cs[0]).value.0, cs[1..], s1, outs[1..], c);
      assert (cs + [c])[1..] == cs[1..] + [c];
    }
  }

  const MAP_0 := [Map(0, 0, 1)]
  const MAP_1 := MAP_0 + [Map(0, 16, 1)]
  const DONE_2 := [MapDone] + [MapDone]

  lemma ReachesMapped0(fix: Repairs)
    ensures Leads(fix, Boot(), MAP_0, MAPPED0, [MapDone])
  {
    MapsPage0(fix);
    LeadsOn(fix, Boot(), [], Boot(), [], Map(0, 0, 1), MAPPED0, MapDone);
    assert [] + [Map(0, 0, 1)] == MAP_0;
    assert [] + [MapDone] == [MapDone];
  }

  lemma ReachesMapped1(fix: Repairs)
    ensures Leads(fix, Boot(), MAP_1, Mapped1(0), DONE_2)
  {
    ReachesMapped0(fix);
    MapsPage1(fix);
    LeadsOn(fix, Boot(), MAP_0, MAPPED0, [MapDone], Map(0, 16, 1), Mapped1(0), MapDone);
  }

  /** The rest of the pages, from a state with two. */
  lemma ReachesMapped3(cs: seq<Command>, outs: seq<Output>, x: Byte)
    requires Leads(AS_WRITTEN, Boot(), cs, Mapped1(x), outs)
    ensures Leads(AS_WRITTEN, Boot(), cs + [Map(0, 32, 1)] + [Map(0, 48, 1)], Mapped3(x), outs + [MapDone] + [MapDone])
  {
    MapsPage2(AS_WRITTEN, x, 1);
    LeadsOn(AS_WRITTEN, Boot(), cs, Mapped1(x), outs, Map(0, 32, 1), Mapped2(x, 1), MapDone);
    MapsPage3(x);
    LeadsOn(AS_WRITTEN, Boot(), cs + [Map(0, 32, 1)], Mapped2(x, 1), outs + [MapDone], Map(0, 48, 1), Mapped3(x), MapDone);
  }

  /** Reading a page that was never mapped: the code indexes memory with -1. */
  lemma LoadOfUnallocatedPage()
    ensures Run(AS_WRITTEN, Boot(), MAP_0 + [Load(0, 16)]).None?
    ensures FlatRun(NOTHING_MAPPED, MAP_0 + [Load(0, 16)]).1 == [MapDone] + [NoValue]
  {
    FlatLoadUnallocated();
    ReachesMapped0(AS_WRITTEN);
    LoadsNowhere();
    LeadsNowhere(AS_WRITTEN, Boot(), MAP_0, MAPPED0, [MapDone], Load(0, 16));
  }

  lemma LoadsNowhere()
    ensures Step(AS_WRITTEN, MAPPED0, Load(0, 16)).None?
  {
  }

  const CLASH := MAP_1 + [Map(0, 32, 32)] + [Map(0, 48, 1)]

  /** A page mapped with protection 32 beside one in the frame at address 32: the scan
      takes the protection byte for the address, and the code writes outside memory. */
  lemma ProtectionTakenForAddress()
    ensures Run(AS_WRITTEN, Boot(), CLASH).None?
    ensures FlatRun(NOTHING_MAPPED, CLASH).1 == DONE_4
  {
    FlatClash();
    ReachesMapped1(AS_WRITTEN);
    MapsPage2(AS_WRITTEN, 0, 32);
    LeadsOn(AS_WRITTEN, Boot(), MAP_1, Mapped1(0), DONE_2, Map(0, 32, 32), Mapped2(0, 32), MapDone);
    MapsPage3Badly();
    LeadsNowhere(AS_WRITTEN, Boot(), MAP_1 + [Map(0, 32, 32)], Mapped2(0, 32), DONE_2 + [MapDone], Map(0, 48, 1));
  }

  const FULL := MAP_1 + [Map(0, 32, 1)] + [Map(0, 48, 1)]
  const DONE_4 := DONE_2 + [MapDone] + [MapDone]
  const STORE_TO_DISK := FULL + [Store(0, 20, 7)] + [Load(0, 20)]

  lemma ReachesMisplaced()
    ensures Leads(AS_WRITTEN, Boot(), FULL + [Store(0, 20, 7)], Misplaced(), DONE_4 + [Stored])
  {
    ReachesMapped1(AS_WRITTEN);
    ReachesMapped3(MAP_1, DONE_2, 0);
    StoresToDisk();
    LeadsOn(AS_WRITTEN, Boot(), FULL, Mapped3(0), DONE_4, Store(0, 20, 7), Misplaced(), Stored);
  }

  lemma LastAnswer(fix: Repairs, cs: seq<Command>, s1: State, outs: seq<Output>, c: Command)
    requires Leads(fix, Boot(), cs, s1, outs) && Step(fix, s1, c).Some?
    ensures Run(fix, Boot(), cs + [c]).Some?
    ensures Run(fix, Boot(), cs + [c]).value.1 == outs + [Step(fix, s1, c).value.1]
  {
    var (s2, out) := Step(fix, s1, c).value;
    LeadsOn(fix, Boot(), cs, s1, outs, c, s2, out);
  }

  /** The byte last stored is read back as 0, because the store went to the page
      table: page 1 was on disk. */
  lemma StoreToDiskIsLost()
    ensures Run(AS_WRITTEN, Boot(), STORE_TO_DISK).Some?
    ensures Run(AS_WRITTEN, Boot(), STORE_TO_DISK).value.1 == DONE_4 + [Stored] + [Loaded(0)]
    ensures FlatRun(NOTHING_MAPPED, STORE_TO_DISK).1 == DONE_4 + [Stored] + [Loaded(7)]
  {
    FlatStoreToDisk();
    ReachesMisplaced();
    LoadsFromDisk(Misplaced());
    LastAnswer(AS_WRITTEN, FULL + [Store(0, 20, 7)], Misplaced(), DONE_4 + [Stored], Load(0, 20));
  }

  const STORED := MAP_1 + [Store(0, 16, 7)]
  const REFILLED := STORED + [Map(0, 32, 1)] + [Map(0, 48, 1)]
  const REFILLED_OUT := DONE_2 + [Stored] + [MapDone] + [MapDone]
  const MAP_TWICE := REFILLED + [Map(0, 16, 1)] + [Load(0, 16)]

  lemma ReachesStored(fix: Repairs)
    ensures Leads(fix, Boot(), STORED, Mapped1(7), DONE_2 + [Stored])
  {
    ReachesMapped1(fix);
    StoresInPage1(fix, Mapped1(0), Mapped1(7));
    LeadsOn(fix, Boot(), MAP_1, Mapped1(0), DONE_2, Store(0, 16, 7), Mapped1(7), Stored);
  }

  lemma ReachesRemapped()
    ensures Leads(AS_WRITTEN, Boot(), REFILLED + [Map(0, 16, 1)], Remapped(7), REFILLED_OUT + [MapDone])
  {
    ReachesStored(AS_WRITTEN);
    ReachesMapped3(STORED, DONE_2 + [Stored], 7);
    MapsAgain(7);
    LeadsOn(AS_WRITTEN, Boot(), REFILLED, Mapped3(7), REFILLED_OUT, Map(0, 16, 1), Remapped(7), MapDone);
  }

  /** The byte last stored is read back as 0, because mapping a page on disk gave it a
      fresh frame. */
  lemma MapTwiceForgets()
    ensures Run(AS_WRITTEN, Boot(), MAP_TWICE).Some?
    ensures Run(AS_WRITTEN, Boot(), MAP_TWICE).value.1 == REFILLED_OUT + [MapDone] + [Loaded(0)]
    ensures FlatRun(NOTHING_MAPPED, MAP_TWICE).1 == REFILLED_OUT + [MapDone] + [Loaded(7)]
  {
    FlatMapTwice();
    ReachesRemapped();
    LoadsZero(7);
    LastAnswer(AS_WRITTEN, REFILLED + [Map(0, 16, 1)], Remapped(7), REFILLED_OUT + [MapDone], Load(0, 16));
  }

  // ----- what flat memory answers

  /** Page 1 as flat memory has it after the two ways of filling it. */
  ghost predicate FlatFull(m: FlatMemory, x: Byte) {
    m[1] == Mapped(1, FilledWith(x))
  }

  lemma FlatMap1(cs: seq<Command>, x: Byte, vaddr: Vaddr)
    requires FlatFull(FlatRun(NOTHING_MAPPED, cs).0, x)
    ensures FlatFull(FlatRun(NOTHING_MAPPED, cs + [Map(0, vaddr, 1)]).0, x)
    ensures FlatRun(NOTHING_MAPPED, cs + [Map(0, vaddr, 1)]).1 == FlatRun(NOTHING_MAPPED, cs).1 + [MapDone]
  {
    FlatOn(NOTHING_MAPPED, cs, Map(0, vaddr, 1));
  }

  lemma FlatNew(m: FlatMemory, cs: seq<Command>, vaddr: Vaddr)
    ensures FlatRun(m, cs + [Map(0, vaddr, 1)]).1 == FlatRun(m, cs).1 + [MapDone]
    ensures var i := vaddr / 16;
      && (FlatRun(m, cs).0[i] == Unmapped ==> FlatRun(m, cs + [Map(0, vaddr, 1)]).0[i] == Mapped(1, ZERO_PAGE))
      && (i != 1 ==> FlatRun(m, cs + [Map(0, vaddr, 1)]).0[1] == FlatRun(m, cs).0[1])
  {
    FlatOn(m, cs, Map(0, vaddr, 1));
  }

  lemma FlatNothing(m: FlatMemory)
    ensures FlatRun(m, []) == (m, [])
  {
  }

  /** What flat memory has answered, and whether page 1 is still unmapped. */
  ghost predicate FlatFresh(cs: seq<Command>, outs: seq<Output>) {
    var (m, answers) := FlatRun(NOTHING_MAPPED, cs);
    m[1] == Unmapped && answers == outs
  }

  lemma FlatStart0(cs: seq<Command>)
    requires cs == MAP_0
    ensures FlatFresh(cs, [MapDone])
  {
    var none := cs[1..];
    FlatNothing(NOTHING_MAPPED);
    FlatNew(NOTHING_MAPPED, none, 0);
    assert none + [Map(0, 0, 1)] == cs;
    assert [] + [MapDone] == [MapDone];
  }

  lemma FlatNew1(cs: seq<Command>, outs: seq<Output>)
    requires FlatFresh(cs, outs)
    ensures FlatFull(FlatRun(NOTHING_MAPPED, cs + [Map(0, 16, 1)]).0, 0)
    ensures FlatRun(NOTHING_MAPPED, cs + [Map(0, 16, 1)]).1 == outs + [MapDone]
  {
    FlatNew(NOTHING_MAPPED, cs, 16);
  }

  lemma FlatLoadNew(cs: seq<Command>, outs: seq<Output>)
    requires FlatFresh(cs, outs)
    ensures FlatRun(NOTHING_MAPPED, cs + [Load(0, 16)]).1 == outs + [NoValue]
  {
    FlatOn(NOTHING_MAPPED, cs, Load(0, 16));
  }

  lemma FlatStart()
    ensures FlatFull(FlatRun(NOTHING_MAPPED, MAP_1).0, 0)
    ensures FlatRun(NOTHING_MAPPED, MAP_1).1 == DONE_2
  {
    FlatStart0(MAP_0);
    FlatNew1(MAP_0, [MapDone]);
  }

  lemma FlatLoadUnallocated()
    ensures FlatRun(NOTHING_MAPPED, MAP_0 + [Load(0, 16)]).1 == [MapDone] + [NoValue]
  {
    FlatStart0(MAP_0);
    FlatLoadNew(MAP_0, [MapDone]);
  }

  lemma FlatClash()
    ensures FlatRun(NOTHING_MAPPED, CLASH).1 == DONE_4
  {
    FlatStart();
    FlatOn(NOTHING_MAPPED, MAP_1, Map(0, 32, 32));
    FlatOn(NOTHING_MAPPED, MAP_1 + [Map(0, 32, 32)], Map(0, 48, 1));
  }

  lemma FlatStoreToDisk()
    ensures FlatRun(NOTHING_MAPPED, STORE_TO_DISK).1 == DONE_4 + [Stored] + [Loaded(7)]
  {
    FlatStart();
    FlatMap1(MAP_1, 0, 32);
    FlatMap1(MAP_1 + [Map(0, 32, 1)], 0, 48);
    FlatStoreLoad(FULL, 20);
  }

  lemma FlatStoreLoad(cs: seq<Command>, vaddr: Vaddr)
    requires FlatFull(FlatRun(NOTHING_MAPPED, cs).0, 0) && vaddr / 16 == 1
    ensures FlatRun(NOTHING_MAPPED, cs + [Store(0, vaddr, 7)] + [Load(0, vaddr)]).1
         == FlatRun(NOTHING_MAPPED, cs).1 + [Stored] + [Loaded(7)]
  {
    FlatOn(NOTHING_MAPPED, cs, Store(0, vaddr, 7));
    FlatOn(NOTHING_MAPPED, cs + [Store(0, vaddr, 7)], Load(0, vaddr));
  }

  lemma FlatStore1(cs: seq<Command>)
    requires FlatFull(FlatRun(NOTHING_MAPPED, cs).0, 0)
    ensures FlatFull(FlatRun(NOTHING_MAPPED, cs + [Store(0, 16, 7)]).0, 7)
    ensures FlatRun(NOTHING_MAPPED, cs + [Store(0, 16, 7)]).1 == FlatRun(NOTHING_MAPPED, cs).1 + [Stored]
  {
    FlatOn(NOTHING_MAPPED, cs, Store(0, 16, 7));
    assert ZERO_PAGE[0 := 7] == FilledWith(7);
  }

  lemma FlatStored()
    ensures FlatFull(FlatRun(NOTHING_MAPPED, STORED).0, 7)
    ensures FlatRun(NOTHING_MAPPED, STORED).1 == DONE_2 + [Stored]
  {
    FlatStart();
    FlatStore1(MAP_1);
  }

  lemma FlatLoad1(cs: seq<Command>)
    requires FlatFull(FlatRun(NOTHING_MAPPED, cs).0, 7)
    ensures FlatRun(NOTHING_MAPPED, cs + [Load(0, 16)]).1 == FlatRun(NOTHING_MAPPED, cs).1 + [Loaded(7)]
  {
    FlatOn(NOTHING_MAPPED, cs, Load(0, 16));
  }

  lemma FlatMapTwice()
    ensures FlatRun(NOTHING_MAPPED, MAP_TWICE).1 == REFILLED_OUT + [MapDone] + [Loaded(7)]
  {
    FlatStored();
    FlatMap1(STORED, 7, 32);
    FlatMap1(STORED + [Map(0, 32, 1)], 7, 48);
    FlatMap1(REFILLED, 7, 16);
    FlatLoad1(REFILLED + [Map(0, 16, 1)]);
  }
}
