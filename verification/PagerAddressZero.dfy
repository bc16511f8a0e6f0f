/** Physical address 0 stands for a failed conversion, for a load that brings its page
    back: when that goes wrong, with every other departure repaired. */
module PagerAddressZero {
  import opened Options
  import opened PagerModel
  import opened PagerTables
  import opened PagerBytes
  import opened PagerEviction
  import opened PagerCommands
  import opened PagerSoundness
  import opened PagerTransparency
  import opened PagerSessions
  import opened PagerFourTables
  import opened PagerLanding

  const ZERO_FAILS := REPAIRED.(addressZero := false)

  lemma NoEviction(fix: Repairs, s: State, pid: Pid)
    ensures EvictTimes(fix, s, pid, 0) == Some(s)
  {
  }

  lemma EvictTimesLast(fix: Repairs, s: State, pid: Pid, k: nat, before: Option<State>)
    requires k > 0 && EvictTimes(fix, s, pid, k - 1) == before
    ensures EvictTimes(fix, s, pid, k) == if before.Some? then Evict(fix, before.value, pid) else None
  {
  }

  lemma SameLastEviction(a: Repairs, b: Repairs, s: State, pid: Pid, k: nat, before: Option<State>)
    requires a.exactLookup == b.exactLookup && a.tablesLast == b.tablesLast
    requires k > 0 && EvictTimes(a, s, pid, k - 1) == before && EvictTimes(b, s, pid, k - 1) == before
    ensures EvictTimes(a, s, pid, k) == EvictTimes(b, s, pid, k)
  {
    EvictTimesLast(a, s, pid, k, before);
    EvictTimesLast(b, s, pid, k, before);
    if before.Some? {
      SameEvict(a, b, before.value, pid);
    }
  }

  /** Evictions depend on the repairs of the lookup and of the last resort only. */
  lemma {:induction false} SameEvictions(a: Repairs, b: Repairs, s: State, pid: Pid, k: nat)
    requires a.exactLookup == b.exactLookup && a.tablesLast == b.tablesLast
    ensures EvictTimes(a, s, pid, k) == EvictTimes(b, s, pid, k)
  {
    if k == 0 {
      NoEviction(a, s, pid);
      NoEviction(b, s, pid);
    } else {
      SameEvictions(a, b, s, pid, k - 1);
      SameLastEviction(a, b, s, pid, k, EvictTimes(b, s, pid, k - 1));
    }
  }

  lemma SameEvict(a: Repairs, b: Repairs, s: State, pid: Pid)
    requires a.exactLookup == b.exactLookup && a.tablesLast == b.tablesLast
    ensures Evict(a, s, pid) == Evict(b, s, pid)
  {
  }

  lemma SameRoom(s: State, pid: Pid, space: int)
    ensures MakeRoom(ZERO_FAILS, s, pid, space) == MakeRoom(REPAIRED, s, pid, space)
  {
    SameEvictions(ZERO_FAILS, REPAIRED, Robin(s), pid, Shortage(s, 1));
  }

  lemma SameSwapIn(s: State, pid: Pid, vaddr: Vaddr)
    ensures SwapIn(ZERO_FAILS, s, pid, vaddr) == SwapIn(REPAIRED, s, pid, vaddr)
  {
    SameRoom(s, pid, FreeCount(s));
  }

  lemma SameRevive(s: State, pid: Pid, vaddr: Vaddr)
    ensures Revive(ZERO_FAILS, s, pid, vaddr) == Revive(REPAIRED, s, pid, vaddr)
  {
    SameRoom(s, pid, FreeCount(s));
    var s1 := MakeRoom(REPAIRED, s, pid, FreeCount(s));
    if s1.Some? && LoadPageTable(s1.value, pid).Some? {
      SameRoom(LoadPageTable(s1.value, pid).value, pid, FreeCount(s) - 1);
    }
  }

  /** What the load answers when its page lands at address 0, as written and as meant. */
  ghost predicate MissesZero(s: State, pid: Pid, vaddr: Vaddr) {
    var a, r := LoadStep(ZERO_FAILS, s, pid, vaddr), LoadStep(REPAIRED, s, pid, vaddr);
    a.Some? && r.Some? && a.value == (r.value.0, NoValue) && r.value.1 != NoValue
  }

  lemma ZeroResident(s: State, pid: Pid, vaddr: Vaddr)
    requires Valid(s) && Numbered(s, Load(pid, vaddr)) && s.hardware[pid].inmem == 1
    ensures if LandsOnZero(s, pid, vaddr) then MissesZero(s, pid, vaddr)
      else LoadStep(ZERO_FAILS, s, pid, vaddr) == LoadStep(REPAIRED, s, pid, vaddr)
  {
    ValidResident(s, pid);
    LoadStays(s, pid, vaddr);
    if EntryAt(s, pid, vaddr / 16).valpres == 1 {
      SwapInBrings(s, pid, vaddr);
      SwapInAtZero(s, pid, vaddr);
      ReadAfter(SwapIn(REPAIRED, s, pid, vaddr).value, pid, vaddr);
    }
  }

  /** A load with its table in memory, address 0 counting or not. */
  lemma LoadStays(s: State, pid: Pid, vaddr: Vaddr)
    requires Resident(s, pid)
    ensures if EntryAt(s, pid, vaddr / 16).valpres == 1 then
        var x := SwapIn(REPAIRED, s, pid, vaddr);
        && LoadStep(REPAIRED, s, pid, vaddr) == (if x.Some? then LoadHere(x.value, pid, vaddr, 0) else None)
        && LoadStep(ZERO_FAILS, s, pid, vaddr) == (if x.Some? then LoadHere(x.value, pid, vaddr, 1) else None)
      else LoadStep(ZERO_FAILS, s, pid, vaddr) == LoadStep(REPAIRED, s, pid, vaddr)
  {
    ReadValpres(s, pid, vaddr);
    SameSwapIn(s, pid, vaddr);
  }

  /** With every other departure repaired, taking physical address 0 for a failure
      changes a load exactly when its page is on disk and comes back to put the byte it
      reads at that address; the load then finds no value where there is one. */
  lemma AddressZeroExact(s: State, pid: Pid, vaddr: Vaddr)
    requires Valid(s) && Numbered(s, Load(pid, vaddr))
    ensures LoadStep(ZERO_FAILS, s, pid, vaddr) == LoadStep(REPAIRED, s, pid, vaddr) <==> !LandsOnZero(s, pid, vaddr)
    ensures LandsOnZero(s, pid, vaddr) ==> MissesZero(s, pid, vaddr)
  {
    if s.hardware[pid].inmem == 1 {
      ZeroResident(s, pid, vaddr);
    } else if s.hardware[pid].inmem == 0 {
      SameRevive(s, pid, vaddr);
      ReviveBrings(s, pid, vaddr);
      ReviveAtZero(s, pid, vaddr);
      ReadAfter(Revive(REPAIRED, s, pid, vaddr).value, pid, vaddr);
    } else {
      OnDiskNotInMemory(s, pid, vaddr / 16);
    }
  }

  // ----- a session in which it does

  /** The state but for the swap file, whose last lines are of no use here. */
  predicate Stands(s: State, ps: Frames, free: seq<int>, pages: seq<int>, tables: seq<int>, hw: seq<Hp>, hand: int) {
    && s.mem == Mem(ps) && s.freelist == free && s.pages == pages && s.ispagetable == tables
    && s.hardware == hw && s.roundrobin == hand
  }

  /** Process 0 maps its page again: its table comes back, to the fourth frame. */
  lemma MapsFirstAgain(s: State)
    requires s == Four()
    ensures Step(ZERO_FAILS, s, Map(0, 0, 1)) == Some((AllFour(), MapDone))
  {
    var ps := [OneMapped(48, 2), OneMapped(2, 1), OneMapped(0, 1), ZERO_PAGE];
    FourEvicts(ZERO_FAILS, Robin(s), ps);
    OneOut(ZERO_FAILS, s, 0, Four1());
    TableComesBack(Four1(), [OneMapped(4, 1), OneMapped(2, 1), OneMapped(0, 1), ZERO_PAGE]);
    ProtectsAgain(s, AllFour(), [OneMapped(4, 1), OneMapped(2, 1), OneMapped(0, 1), OneMapped(1, 1)]);
  }

  lemma ProtectsAgain(s: State, s1: State, ps: Frames)
    requires TableForMap(ZERO_FAILS, s, 0) == Some(s1) && s1.mem == Mem(ps) && s1.hardware[0] == Hp(48, 1)
    requires ps[3] == OneMapped(1, 1)
    ensures Step(ZERO_FAILS, s, Map(0, 0, 1)) == Some((s1, MapDone))
  {
    MemByte(ps, 3, 2, 1);
    MemByte(ps, 3, 3, 1);
    assert s1.mem[48 + 2 := 1] == s1.mem;
  }

  const LINES_5: seq<Page> := [ZERO_PAGE, ZERO_PAGE, ZERO_PAGE, OneMapped(1, 1), ZERO_PAGE]

  /** Page tables fill memory, as `AllFour` has them. */
  predicate Full(s: State, ps: Frames) {
    && ps == [OneMapped(4, 1), OneMapped(2, 1), OneMapped(0, 1), OneMapped(1, 1)]
    && Stands(s, ps, [0, 0, 0, 0], [3, 2, 1, 0], [1, 1, 1, 1], [Hp(48, 1), Hp(32, 1), Hp(16, 1), Hp(0, 1)], 0)
    && |s.swap| == 5 && s.swap[2] == ZERO_PAGE
  }

  /** Process 2 reads: the table of process 1 leaves for its page. */
  lemma SecondTableGoes(s: State, ps: Frames) returns (s1: State)
    requires Full(s, ps)
    ensures FreeSpace(ZERO_FAILS, s, 1, 2) == Some(s1)
    ensures Stands(s1, ps[2 := ZERO_PAGE], [0, 0, 1, 0], [3, 2, -1, 0], [1, 1, 0, 1],
                   [Hp(48, 1), Hp(5, 0), Hp(16, 1), Hp(0, 1)], 3)
    ensures s1.swap == s.swap + [OneMapped(0, 1)]
  {
    var h := Robin(s);
    assert NextData(h, 1, 4).None? && NextTable(h, 2, 1, 4) == Some(2);
    EvictsTable(ZERO_FAILS, h, 2, ps, 1, 2);
    s1 := Evict(ZERO_FAILS, h, 2).value;
    OneOut(ZERO_FAILS, s, 2, s1);
    assert s.freelist[2 := 1] == [0, 0, 1, 0] && s.pages[2 := -1] == [3, 2, -1, 0] && s.ispagetable[2 := 0] == [1, 1, 0, 1];
    Replaced(Hp(48, 1), Hp(32, 1), Hp(16, 1), Hp(0, 1), Hp(5, 0));
  }

  /** What a load does that brings its page back with its table in memory. */
  lemma LoadsOne(s: State, s2: State, pid: Pid)
    requires Resident(s, pid) && s.mem[FindPte(s, pid, 0) + 3] == 1 && SwapIn(ZERO_FAILS, s, pid, 0) == Some(s2)
    ensures Step(ZERO_FAILS, s, Load(pid, 0)) == LoadHere(s2, pid, 0, 1)
  {
    ReadValpres(s, pid, 0);
    LoadStays(s, pid, 0);
  }

  lemma SwapsOne(s: State, s1: State, s2: State, pid: Pid)
    requires FreeCount(s) == 0 && FreeSpace(ZERO_FAILS, s, 1, pid) == Some(s1) && LoadPage(s1, pid, 0) == Some(s2)
    ensures SwapIn(ZERO_FAILS, s, pid, 0) == Some(s2)
  {
  }

  /** The byte at the start of a page of zeros in frame `f`. */
  lemma ReadsZero(s: State, pid: Pid, ps: Frames, t: Pid, f: Pid)
    requires s.mem == Mem(ps) && s.hardware[pid] == Hp(16 * t, 1) && ps[t] == OneMapped(16 * f, 2) && ps[f] == ZERO_PAGE
    ensures LoadHere(s, pid, 0, 1) == if f == 0 then Some((s, NoValue)) else Some((s, Loaded(0)))
  {
    OneMappedBytes(ps, t, 16 * f, 2, 0);
    MemByte(ps, f, 0, 0);
  }

  lemma SwapsTwo(s: State) returns (s2: State)
    requires Full(s, [OneMapped(4, 1), OneMapped(2, 1), OneMapped(0, 1), OneMapped(1, 1)])
    ensures Resident(s, 2) && s.mem[FindPte(s, 2, 0) + 3] == 1 && SwapIn(ZERO_FAILS, s, 2, 0) == Some(s2)
    ensures Stands(s2, [OneMapped(4, 1), OneMapped(32, 2), ZERO_PAGE, OneMapped(1, 1)], [0, 0, 0, 0], [3, 2, 2, 0], [1, 1, 0, 1],
                   [Hp(48, 1), Hp(5, 0), Hp(16, 1), Hp(0, 1)], 3)
    ensures s2.swap == s.swap + [OneMapped(0, 1)]
  {
    var ps := [OneMapped(4, 1), OneMapped(2, 1), OneMapped(0, 1), OneMapped(1, 1)];
    var s1 := SecondTableGoes(s, ps);
    s2 := PageTwoBack(s, s1, ps);
    TableValpres(s, 2, ps, 1, 2);
    SwapsOne(s, s1, s2, 2);
  }

  lemma ReadsTwo(s: State) returns (s2: State)
    requires Full(s, [OneMapped(4, 1), OneMapped(2, 1), OneMapped(0, 1), OneMapped(1, 1)])
    ensures Step(ZERO_FAILS, s, Load(2, 0)) == Some((s2, Loaded(0)))
    ensures Stands(s2, [OneMapped(4, 1), OneMapped(32, 2), ZERO_PAGE, OneMapped(1, 1)], [0, 0, 0, 0], [3, 2, 2, 0], [1, 1, 0, 1],
                   [Hp(48, 1), Hp(5, 0), Hp(16, 1), Hp(0, 1)], 3)
    ensures s2.swap == s.swap + [OneMapped(0, 1)]
  {
    s2 := SwapsTwo(s);
    LoadsOne(s, s2, 2);
    ReadsZero(s2, 2, [OneMapped(4, 1), OneMapped(32, 2), ZERO_PAGE, OneMapped(1, 1)], 1, 2);
  }

  lemma PageTwoBack(s: State, s1: State, ps: Frames) returns (s2: State)
    requires Full(s, ps)
    requires s1.swap == s.swap + [OneMapped(0, 1)]
    requires Stands(s1, ps[2 := ZERO_PAGE], [0, 0, 1, 0], [3, 2, -1, 0], [1, 1, 0, 1],
                    [Hp(48, 1), Hp(5, 0), Hp(16, 1), Hp(0, 1)], 3)
    ensures LoadPage(s1, 2, 0) == Some(s2) && s2.swap == s1.swap
    ensures Stands(s2, [OneMapped(4, 1), OneMapped(32, 2), ZERO_PAGE, OneMapped(1, 1)], [0, 0, 0, 0], [3, 2, 2, 0], [1, 1, 0, 1],
                   [Hp(48, 1), Hp(5, 0), Hp(16, 1), Hp(0, 1)], 3)
  {
    assert FindFree(s1) == Some(2);
    assert s1.swap[2] == ZERO_PAGE;
    PageReturns(s1, ps[2 := ZERO_PAGE], 2, 1, 2, 2);
    s2 := LoadPage(s1, 2, 0).value;
    assert ps[2 := ZERO_PAGE][2 := ZERO_PAGE][1 := OneMapped(32, 2)] == [OneMapped(4, 1), OneMapped(32, 2), ZERO_PAGE, OneMapped(1, 1)];
    assert s1.freelist[2 := 0] == [0, 0, 0, 0] && s1.pages[2 := 2] == [3, 2, 2, 0];
  }

  /** Process 1 reads, its table being on disk: the page of process 2 leaves for the
      table. */
  lemma PageTwoGoes(s: State, ps: Frames) returns (s1: State)
    requires Stands(s, ps, [0, 0, 0, 0], [3, 2, 2, 0], [1, 1, 0, 1], [Hp(48, 1), Hp(5, 0), Hp(16, 1), Hp(0, 1)], 3)
    requires ps == [OneMapped(4, 1), OneMapped(32, 2), ZERO_PAGE, OneMapped(1, 1)] && |s.swap| == 6
    ensures FreeSpace(ZERO_FAILS, s, 1, 1) == Some(s1) && s1.swap == s.swap + [ZERO_PAGE]
    ensures Stands(s1, [OneMapped(4, 1), OneMapped(6, 1), ZERO_PAGE, OneMapped(1, 1)], [0, 0, 1, 0], [3, 2, -1, 0], [1, 1, 0, 1],
                   [Hp(48, 1), Hp(5, 0), Hp(16, 1), Hp(0, 1)], 3)
  {
    ThirdAhead(Robin(s));
    EvictsPage(ZERO_FAILS, Robin(s), 1, ps, 2, 1, 2);
    s1 := PageGone(Robin(s), ps, 1, 2);
    OneOut(ZERO_FAILS, s, 1, s1);
    PageTwoGone(Robin(s), ps, s1);
  }

  lemma ThirdAhead(h: State)
    requires h.freelist == [0, 0, 0, 0] && h.ispagetable == [1, 1, 0, 1] && h.roundrobin == 0
    ensures NextData(h, h.roundrobin, 4) == Some(2) && !AllTables(h)
  {
    assert !IsTable(h, 2);
  }

  lemma PageTwoGone(h: State, ps: Frames, s1: State)
    requires ps == [OneMapped(4, 1), OneMapped(32, 2), ZERO_PAGE, OneMapped(1, 1)] && |h.swap| == 6
    requires h.freelist == [0, 0, 0, 0] && h.pages == [3, 2, 2, 0] && s1 == PageGone(h, ps, 1, 2)
    ensures s1.mem == Mem([OneMapped(4, 1), OneMapped(6, 1), ZERO_PAGE, OneMapped(1, 1)])
    ensures s1.freelist == [0, 0, 1, 0] && s1.pages == [3, 2, -1, 0] && s1.swap == h.swap + [ZERO_PAGE]
  {
    Replaced(OneMapped(4, 1), OneMapped(32, 2), ZERO_PAGE, OneMapped(1, 1), OneMapped(6, 1));
    Replaced(OneMapped(4, 1), OneMapped(6, 1), ZERO_PAGE, OneMapped(1, 1), ZERO_PAGE);
    Replaced(0, 0, 0, 0, 1);
    Replaced(3, 2, 2, 0, -1);
  }

  lemma TableOneBack(s: State, ps: Frames) returns (s1: State)
    requires Stands(s, ps, [0, 0, 1, 0], [3, 2, -1, 0], [1, 1, 0, 1], [Hp(48, 1), Hp(5, 0), Hp(16, 1), Hp(0, 1)], 3)
    requires ps == [OneMapped(4, 1), OneMapped(6, 1), ZERO_PAGE, OneMapped(1, 1)]
    requires |s.swap| == 7 && s.swap[5] == OneMapped(0, 1)
    ensures LoadPageTable(s, 1) == Some(s1) && s1.swap == s.swap
    ensures Stands(s1, [OneMapped(4, 1), OneMapped(6, 1), OneMapped(0, 1), OneMapped(1, 1)], [0, 0, 0, 0], [3, 2, 1, 0], [1, 1, 1, 1],
                   [Hp(48, 1), Hp(32, 1), Hp(16, 1), Hp(0, 1)], 3)
  {
    assert FindFree(s) == Some(2);
    TableReturns(s, ps, 1, 2, 5);
    s1 := LoadPageTable(s, 1).value;
    Replaced(OneMapped(4, 1), OneMapped(6, 1), ZERO_PAGE, OneMapped(1, 1), OneMapped(0, 1));
    assert s.freelist[2 := 0] == [0, 0, 0, 0] && s.pages[2 := 1] == [3, 2, 1, 0] && s.ispagetable[2 := 1] == [1, 1, 1, 1];
    Replaced(Hp(48, 1), Hp(5, 0), Hp(16, 1), Hp(0, 1), Hp(32, 1));
  }

  /** Then the table in frame 0 leaves for its page. */
  lemma FirstFrameGoes(s: State, ps: Frames) returns (s1: State)
    requires Stands(s, ps, [0, 0, 0, 0], [3, 2, 1, 0], [1, 1, 1, 1], [Hp(48, 1), Hp(32, 1), Hp(16, 1), Hp(0, 1)], 3)
    requires ps == [OneMapped(4, 1), OneMapped(6, 1), OneMapped(0, 1), OneMapped(1, 1)] && |s.swap| == 7
    ensures FreeSpace(ZERO_FAILS, s, 1, 1) == Some(s1) && s1.swap == s.swap + [OneMapped(4, 1)]
    ensures Stands(s1, ps[0 := ZERO_PAGE], [1, 0, 0, 0], [-1, 2, 1, 0], [0, 1, 1, 1],
                   [Hp(48, 1), Hp(32, 1), Hp(16, 1), Hp(7, 0)], 1)
  {
    var h := Robin(s);
    assert NextData(h, 0, 4).None? && NextTable(h, 1, 0, 4) == Some(0);
    EvictsTable(ZERO_FAILS, h, 1, ps, 3, 0);
    s1 := Evict(ZERO_FAILS, h, 1).value;
    OneOut(ZERO_FAILS, s, 1, s1);
    assert s.freelist[0 := 1] == [1, 0, 0, 0] && s.pages[0 := -1] == [-1, 2, 1, 0] && s.ispagetable[0 := 0] == [0, 1, 1, 1];
    Replaced(Hp(48, 1), Hp(32, 1), Hp(16, 1), Hp(0, 1), Hp(7, 0));
  }

  /** Its page comes back to frame 0. */
  lemma PageAtZero(s: State, ps: Frames) returns (s1: State)
    requires Stands(s, ps[0 := ZERO_PAGE], [1, 0, 0, 0], [-1, 2, 1, 0], [0, 1, 1, 1],
                    [Hp(48, 1), Hp(32, 1), Hp(16, 1), Hp(7, 0)], 1)
    requires ps == [OneMapped(4, 1), OneMapped(6, 1), OneMapped(0, 1), OneMapped(1, 1)]
    requires |s.swap| > 0 && s.swap[0] == ZERO_PAGE
    ensures LoadPage(s, 1, 0) == Some(s1) && s1.hardware[1] == Hp(32, 1)
    ensures s1.mem == Mem([ZERO_PAGE, OneMapped(6, 1), OneMapped(0, 2), OneMapped(1, 1)])
  {
    assert FindFree(s) == Some(0);
    PageReturns(s, ps[0 := ZERO_PAGE], 1, 2, 0, 0);
    s1 := LoadPage(s, 1, 0).value;
    assert ps[0 := ZERO_PAGE][0 := ZERO_PAGE][2 := OneMapped(0, 2)] == [ZERO_PAGE, OneMapped(6, 1), OneMapped(0, 2), OneMapped(1, 1)];
  }

  lemma TableValpres(s: State, pid: Pid, ps: Frames, t: Pid, line: Byte)
    requires s.mem == Mem(ps) && s.hardware[pid] == Hp(16 * t, 1) && ps[t] == OneMapped(line, 1)
    ensures s.mem[FindPte(s, pid, 0) + 3] == 1
  {
    OneMappedBytes(ps, t, line, 1, 0);
  }

  lemma PageOneBack(s: State) returns (s1: State, s2: State, s3: State, s4: State)
    requires Stands(s, [OneMapped(4, 1), OneMapped(32, 2), ZERO_PAGE, OneMapped(1, 1)], [0, 0, 0, 0], [3, 2, 2, 0], [1, 1, 0, 1],
                    [Hp(48, 1), Hp(5, 0), Hp(16, 1), Hp(0, 1)], 3)
    requires |s.swap| == 6 && s.swap[0] == ZERO_PAGE && s.swap[5] == OneMapped(0, 1)
    ensures FreeSpace(ZERO_FAILS, s, 1, 1) == Some(s1) && LoadPageTable(s1, 1) == Some(s2)
    ensures Resident(s2, 1) && s2.mem[FindPte(s2, 1, 0) + 3] == 1
    ensures FreeSpace(ZERO_FAILS, s2, 1, 1) == Some(s3) && LoadPage(s3, 1, 0) == Some(s4)
    ensures s4.hardware[1] == Hp(32, 1) && s4.mem == Mem([ZERO_PAGE, OneMapped(6, 1), OneMapped(0, 2), OneMapped(1, 1)])
  {
    var ps := [OneMapped(4, 1), OneMapped(6, 1), OneMapped(0, 1), OneMapped(1, 1)];
    s1 := PageTwoGoes(s, [OneMapped(4, 1), OneMapped(32, 2), ZERO_PAGE, OneMapped(1, 1)]);
    s2 := TableOneBack(s1, [OneMapped(4, 1), OneMapped(6, 1), ZERO_PAGE, OneMapped(1, 1)]);
    s3 := FirstFrameGoes(s2, ps);
    s4 := PageAtZero(s3, ps);
    TableValpres(s2, 1, ps, 2, 0);
  }

  lemma ReadsOne(s: State)
    requires Stands(s, [OneMapped(4, 1), OneMapped(32, 2), ZERO_PAGE, OneMapped(1, 1)], [0, 0, 0, 0], [3, 2, 2, 0], [1, 1, 0, 1],
                    [Hp(48, 1), Hp(5, 0), Hp(16, 1), Hp(0, 1)], 3)
    requires |s.swap| == 6 && s.swap[0] == ZERO_PAGE && s.swap[5] == OneMapped(0, 1)
    ensures Step(ZERO_FAILS, s, Load(1, 0)).Some? && Step(ZERO_FAILS, s, Load(1, 0)).value.1 == NoValue
  {
    var s1, s2, s3, s4 := PageOneBack(s);
    LoadsBoth(ZERO_FAILS, s, s1, s2, s3, s4, 1);
    ReadsZero(s4, 1, [ZERO_PAGE, OneMapped(6, 1), OneMapped(0, 2), OneMapped(1, 1)], 2, 0);
  }

  const ZERO_SESSION := MAPS + [Map(0, 0, 1)] + [Load(2, 0)] + [Load(1, 0)]
  const ZERO_OUT := MAPS_OUT + [MapDone] + [Loaded(0)]

  lemma FlatZeroReads(cs: seq<Command>, outs: seq<Output>)
    requires FlatZeros(cs, outs, 4)
    ensures FlatRun(NOTHING_MAPPED, cs + [Map(0, 0, 1)] + [Load(2, 0)] + [Load(1, 0)]).1
         == outs + [MapDone] + [Loaded(0)] + [Loaded(0)]
  {
    FlatMaps(cs, outs, 4, 0);
    FlatLoads(cs + [Map(0, 0, 1)], outs + [MapDone], 4, 2);
    FlatLoads(cs + [Map(0, 0, 1)] + [Load(2, 0)], outs + [MapDone] + [Loaded(0)], 4, 1);
  }

  lemma FlatZeroSession(cs: seq<Command>, outs: seq<Output>)
    requires FlatZeros(cs, outs, 1)
    ensures FlatRun(NOTHING_MAPPED, cs + [Map(1, 0, 1)] + [Map(2, 0, 1)] + [Map(3, 0, 1)]
                                       + [Map(0, 0, 1)] + [Load(2, 0)] + [Load(1, 0)]).1
         == outs + [MapDone] + [MapDone] + [MapDone] + [MapDone] + [Loaded(0)] + [Loaded(0)]
  {
    FlatMapsOthers(cs, outs);
    FlatZeroReads(cs + [Map(1, 0, 1)] + [Map(2, 0, 1)] + [Map(3, 0, 1)], outs + [MapDone] + [MapDone] + [MapDone]);
  }

  lemma ReachesReadsTwo() returns (s: State)
    ensures Leads(ZERO_FAILS, Boot(), MAPS + [Map(0, 0, 1)] + [Load(2, 0)], s, ZERO_OUT)
    ensures Stands(s, [OneMapped(4, 1), OneMapped(32, 2), ZERO_PAGE, OneMapped(1, 1)], [0, 0, 0, 0], [3, 2, 2, 0], [1, 1, 0, 1],
                   [Hp(48, 1), Hp(5, 0), Hp(16, 1), Hp(0, 1)], 3)
    ensures s.swap == LINES_5 + [OneMapped(0, 1)]
  {
    ReachesFour(ZERO_FAILS);
    MapsFirstAgain(Four());
    LeadsOn(ZERO_FAILS, Boot(), MAPS, Four(), MAPS_OUT, Map(0, 0, 1), AllFour(), MapDone);
    s := ReadsTwo(AllFour());
    LeadsOn(ZERO_FAILS, Boot(), MAPS + [Map(0, 0, 1)], AllFour(), MAPS_OUT + [MapDone], Load(2, 0), s, Loaded(0));
  }

  /** From the start, with only this departure left: four processes map a page each, the
      first maps it again, the third and the second read theirs. The second finds no
      value, its page having come back to physical address 0. */
  lemma AddressZeroFails()
    ensures Run(ZERO_FAILS, Boot(), ZERO_SESSION).Some?
    ensures Run(ZERO_FAILS, Boot(), ZERO_SESSION).value.1 == ZERO_OUT + [NoValue]
    ensures FlatRun(NOTHING_MAPPED, ZERO_SESSION).1 == ZERO_OUT + [Loaded(0)]
  {
    FlatMapsFirst(MAP_0);
    FlatZeroSession(MAP_0, [MapDone]);
    var s := ReachesReadsTwo();
    ReadsOne(s);
    LastAnswer(ZERO_FAILS, MAPS + [Map(0, 0, 1)] + [Load(2, 0)], s, ZERO_OUT, Load(1, 0));
  }
}
