/** The repaired commands, one at a time: on a valid state each of map, store and
    load does to the pages its process sees exactly what it would do to private
    flat memory. */
module PagerCommands {
  import opened Options
  import opened PagerModel
  import opened PagerTables
  import opened PagerBytes
  import opened PagerEviction

  // ----- private flat memory

  function FlatStore(page: FlatPage, vaddr: Vaddr, val: Byte): (FlatPage, Output) {
    match page
    case Mapped(1, data) => (Mapped(1, data[vaddr % 16 := val]), Stored)
    case _ => (page, Refused)
  }

  function FlatLoad(page: FlatPage, vaddr: Vaddr): Output {
    match page
    case Mapped(_, data) => Loaded(data[vaddr % 16])
    case Unmapped => NoValue
  }

  function FlatMap(page: FlatPage, val: Byte): FlatPage {
    match page
    case Mapped(_, data) => Mapped(val, data)
    case Unmapped => Mapped(val, ZERO_PAGE)
  }

  /** A page of `pid` as `pid` sees it. */
  function Seen(s: State, pid: Pid, vaddr: Vaddr): FlatPage {
    PageOf(ViewOf(s), pid, vaddr / 16)
  }

  /** `s'` is valid, differs for the processes only in that the page at `vaddr` of
      `pid` is now `page`, took at most `lines` swap lines and freed no frame. */
  ghost predicate Makes(s: State, s': State, pid: Pid, vaddr: Vaddr, page: FlatPage, lines: nat) {
    && Valid(s')
    && OnePage(ViewOf(s), ViewOf(s'), pid, vaddr / 16, page)
    && s.swap <= s'.swap && |s'.swap| <= |s.swap| + lines
    && FreeCount(s') <= FreeCount(s)
  }

  /** The same with no visible change. */
  ghost predicate Brings(s: State, s': State, lines: nat) {
    && Valid(s')
    && SamePages(ViewOf(s), ViewOf(s'))
    && s.swap <= s'.swap && |s'.swap| <= |s.swap| + lines
    && FreeCount(s') <= FreeCount(s)
  }

  lemma BringsThenMakes(s: State, s1: State, s2: State, pid: Pid, vaddr: Vaddr, page: FlatPage, n: nat, m: nat)
    requires Brings(s, s1, n) && Makes(s1, s2, pid, vaddr, page, m)
    ensures Makes(s, s2, pid, vaddr, page, n + m)
  {
    forall p: Pid, w: Pid
      ensures PageOf(ViewOf(s2), p, w) == if p == pid && w == vaddr / 16 then page else PageOf(ViewOf(s), p, w)
    {
      assert PageOf(ViewOf(s1), p, w) == PageOf(ViewOf(s), p, w);
    }
  }

  lemma BringsTwice(s: State, s1: State, s2: State, n: nat, m: nat)
    requires Brings(s, s1, n) && Brings(s1, s2, m)
    ensures Brings(s, s2, n + m)
  {
    forall p: Pid, w: Pid ensures PageOf(ViewOf(s2), p, w) == PageOf(ViewOf(s), p, w) {
      assert PageOf(ViewOf(s1), p, w) == PageOf(ViewOf(s), p, w);
    }
  }

  // ----- frames and lines a command costs

  /** How many free frames a repaired command asks for: a page brought in takes one, and
      so does a table. */
  function FramesNeeded(s: State, c: Command): nat {
    var e := EntryAt(s, c.pid, c.vaddr / 16);
    var tables := if s.hardware[c.pid].inmem == 1 then 0 else 1;
    match c
    case Map(pid, _, _) =>
      tables + (if e.valpres == 0 then 1 else 0)
    case Store(pid, _, _) =>
      if s.hardware[pid].inmem == 1 then (if e.valpres == 1 && e.prot == 1 then 1 else 0)
      else if s.hardware[pid].inmem == 0 then (if e.valpres == 1 then 2 else 1)
      else 0
    case Load(pid, _) =>
      if s.hardware[pid].inmem == 1 || s.hardware[pid].inmem == 0 then tables + (if e.valpres == 1 then 1 else 0)
      else 0
  }

  /** How many lines it writes: one for each frame that is not free yet. */
  function Evictions(s: State, c: Command): nat {
    Shortage(s, FramesNeeded(s, c))
  }

  /** Each page that the command evicts finds a line number below 256. */
  predicate Numbered(s: State, c: Command) {
    Numbers(s, Evictions(s, c))
  }

  // ----- bringing pages and tables back

  lemma FrameTaken(s: State, s': State, f: Pid)
    requires s.freelist[f] == 1 && s'.freelist == s.freelist[f := 0]
    ensures FreeCount(s') == FreeCount(s) - 1
  {
  }

  lemma PageAtParts(s': State, t: View, q: Pid, v: Pid, f: Pid, prot: Byte, data: Page)
    requires ViewOf(s') == PageAt(t, q, v, f, prot, data)
    ensures EntryAt(s', q, v) == t.entries[4 * q + v].(pfn := 16 * f, prot := prot, valpres := 2)
    ensures s'.hardware == t.hardware && s'.swap == t.swap && s'.freelist == t.freelist[f := 0]
  {
    ViewEntry(s', q, v);
  }

  lemma LoadPageBrings(s: State, pid: Pid, vaddr: Vaddr)
    requires Valid(s) && Resident(s, pid) && EntryAt(s, pid, vaddr / 16).valpres == 1 && FreeCount(s) > 0
    ensures LoadPage(s, pid, vaddr).Some?
    ensures var s' := LoadPage(s, pid, vaddr).value;
      && Valid(s') && SamePages(ViewOf(s), ViewOf(s'))
      && Resident(s', pid) && EntryAt(s', pid, vaddr / 16).valpres == 2
      && s'.swap == s.swap && FreeCount(s') == FreeCount(s) - 1
  {
    var v: Pid := vaddr / 16;
    var f := FindFree(s).value;
    var e := EntryAt(s, pid, v);
    ViewEntry(s, pid, v);
    PageBackKeeps(ViewOf(s), pid, v, f);
    LoadPageView(s, pid, vaddr, f);
    var s' := LoadPage(s, pid, vaddr).value;
    PageAtParts(s', ViewOf(s), pid, v, f, e.prot, s.swap[e.pfn]);
    FrameTaken(s, s', f);
  }

  lemma TableTakenData(s: State, s': State, f: Pid)
    requires s.freelist[f] == 1 && s'.freelist == s.freelist[f := 0] && s'.ispagetable == s.ispagetable[f := 1]
    ensures DataCount(s') == DataCount(s)
  {
  }

  lemma LoadPageTableBrings(s: State, pid: Pid)
    requires Valid(s) && s.hardware[pid].inmem == 0 && FreeCount(s) > 0
    ensures LoadPageTable(s, pid).Some?
    ensures var s' := LoadPageTable(s, pid).value;
      && Valid(s') && SamePages(ViewOf(s), ViewOf(s'))
      && Resident(s', pid) && (forall v: Pid :: EntryAt(s', pid, v) == EntryAt(s, pid, v))
      && s'.swap == s.swap && FreeCount(s') == FreeCount(s) - 1 && DataCount(s') == DataCount(s)
  {
    var f := FindFree(s).value;
    LoadPageTableView(s, pid, f);
    TableInKeeps(ViewOf(s), pid, f);
    var s' := LoadPageTable(s, pid).value;
    forall v: Pid ensures EntryAt(s', pid, v) == EntryAt(s, pid, v) {
      ViewEntry(s, pid, v);
      ViewEntry(s', pid, v);
    }
    assert s'.hardware == ViewOf(s').hardware && s'.freelist == ViewOf(s').freelist;
    TableTakenData(s, s', f);
  }

  lemma SameTwice(s: State, s1: State, s2: State)
    requires SamePages(ViewOf(s), ViewOf(s1)) && SamePages(ViewOf(s1), ViewOf(s2))
    ensures SamePages(ViewOf(s), ViewOf(s2))
  {
    forall p: Pid, w: Pid ensures PageOf(ViewOf(s2), p, w) == PageOf(ViewOf(s), p, w) {
      assert PageOf(ViewOf(s1), p, w) == PageOf(ViewOf(s), p, w);
    }
  }

  lemma OnDiskNotInMemory(s: State, pid: Pid, v: Pid)
    requires Valid(s) && s.hardware[pid].inmem != 1
    ensures EntryAt(s, pid, v).valpres != 2
    ensures s.hardware[pid].inmem != 0 ==> EntryAt(s, pid, v).valpres == 0
  {
    ViewEntry(s, pid, v);
    assert EntryOk(ViewOf(s), pid, v);
  }

  lemma ReadValpres(s: State, pid: Pid, vaddr: Vaddr)
    requires Resident(s, pid)
    ensures var e := EntryAt(s, pid, vaddr / 16);
      && s.mem[FindPte(s, pid, vaddr) + 3] == e.valpres
      && s.mem[FindPte(s, pid, vaddr) + 2] == e.prot
      && s.mem[FindPte(s, pid, vaddr) + 1] == e.pfn
  {
    ResidentEntry(s, pid, vaddr / 16);
  }

  /** Room made for `pid` leaves its table where it was, and its entry for a page
      that is not in memory too. */
  lemma RoomMade(s: State, pid: Pid, space: int, v: Pid)
    requires Valid(s) && EntryAt(s, pid, v).valpres != 2
    requires space < 1 ==> FreeCount(s) == 0 && Numbers(s, 1)
    ensures MakeRoom(REPAIRED, s, pid, space).Some?
    ensures var s' := MakeRoom(REPAIRED, s, pid, space).value;
      && Valid(s') && SamePages(ViewOf(s), ViewOf(s')) && s.swap <= s'.swap
      && s'.hardware[pid] == s.hardware[pid]
      && EntryAt(s', pid, v) == EntryAt(s, pid, v)
      && FreeCount(s') == (if space < 1 then 1 else FreeCount(s))
      && |s'.swap| == |s.swap| + (if space < 1 then 1 else 0)
      && DataCount(s') == (if space >= 1 then DataCount(s) else if DataCount(s) < 1 then 0 else DataCount(s) - 1)
  {
    if space < 1 {
      FreeSpaceHidden(s, 1, pid);
    }
  }

  lemma SwapInBrings(s: State, pid: Pid, vaddr: Vaddr)
    requires Valid(s) && Resident(s, pid) && EntryAt(s, pid, vaddr / 16).valpres == 1
    requires Numbers(s, Shortage(s, 1))
    ensures SwapIn(REPAIRED, s, pid, vaddr).Some?
    ensures var s' := SwapIn(REPAIRED, s, pid, vaddr).value;
      && Brings(s, s', 1) && |s'.swap| == |s.swap| + Shortage(s, 1)
      && Resident(s', pid) && EntryAt(s', pid, vaddr / 16).valpres == 2
  {
    RoomMade(s, pid, FreeCount(s), vaddr / 16);
    var s1 := MakeRoom(REPAIRED, s, pid, FreeCount(s)).value;
    LoadPageBrings(s1, pid, vaddr);
    SameTwice(s, s1, LoadPage(s1, pid, vaddr).value);
  }

  /** A table brought back from disk, room being made for it first if need be. */
  lemma TableBack(s: State, pid: Pid, v: Pid)
    requires Valid(s) && s.hardware[pid].inmem == 0 && Numbers(s, Shortage(s, 1))
    ensures MakeRoom(REPAIRED, s, pid, FreeCount(s)).Some?
    ensures LoadPageTable(MakeRoom(REPAIRED, s, pid, FreeCount(s)).value, pid).Some?
    ensures var s2 := LoadPageTable(MakeRoom(REPAIRED, s, pid, FreeCount(s)).value, pid).value;
      && Valid(s2) && SamePages(ViewOf(s), ViewOf(s2)) && s.swap <= s2.swap
      && Resident(s2, pid) && EntryAt(s2, pid, v) == EntryAt(s, pid, v)
      && FreeCount(s2) == (if FreeCount(s) < 1 then 0 else FreeCount(s) - 1)
      && |s2.swap| == |s.swap| + Shortage(s, 1)
      && DataCount(s2) == (if DataCount(s) < Shortage(s, 1) then 0 else DataCount(s) - Shortage(s, 1))
  {
    OnDiskNotInMemory(s, pid, v);
    RoomMade(s, pid, FreeCount(s), v);
    var s1 := MakeRoom(REPAIRED, s, pid, FreeCount(s)).value;
    LoadPageTableBrings(s1, pid);
    SameTwice(s, s1, LoadPageTable(s1, pid).value);
  }

  /** Then its page, when that is on disk. */
  lemma PageBack(s: State, s2: State, pid: Pid, vaddr: Vaddr)
    requires Valid(s2) && Resident(s2, pid) && EntryAt(s2, pid, vaddr / 16).valpres == 1
    requires FreeCount(s) - 1 < 1 ==> Numbers(s2, 1)
    requires FreeCount(s2) == (if FreeCount(s) < 1 then 0 else FreeCount(s) - 1)
    ensures MakeRoom(REPAIRED, s2, pid, FreeCount(s) - 1).Some?
    ensures LoadPage(MakeRoom(REPAIRED, s2, pid, FreeCount(s) - 1).value, pid, vaddr).Some?
    ensures var s' := LoadPage(MakeRoom(REPAIRED, s2, pid, FreeCount(s) - 1).value, pid, vaddr).value;
      && Brings(s2, s', 1) && |s'.swap| == |s2.swap| + (if FreeCount(s) - 1 < 1 then 1 else 0)
      && Resident(s', pid) && EntryAt(s', pid, vaddr / 16).valpres == 2
  {
    RoomMade(s2, pid, FreeCount(s) - 1, vaddr / 16);
    var s3 := MakeRoom(REPAIRED, s2, pid, FreeCount(s) - 1).value;
    LoadPageBrings(s3, pid, vaddr);
    SameTwice(s2, s3, LoadPage(s3, pid, vaddr).value);
  }

  lemma ReviveFrom(fix: Repairs, s: State, s1: State, s2: State, pid: Pid, vaddr: Vaddr)
    requires MakeRoom(fix, s, pid, FreeCount(s)) == Some(s1) && LoadPageTable(s1, pid) == Some(s2)
    ensures Revive(fix, s, pid, vaddr) ==
      if EntryAt(s2, pid, vaddr / 16).valpres != 1 then Some(s2)
      else
        match MakeRoom(fix, s2, pid, FreeCount(s) - 1)
        case Some(s3) => LoadPage(s3, pid, vaddr)
        case None => None
  {
    ReadValpres(s2, pid, vaddr);
  }

  /** What bringing a table back leaves of the numbers for its page. */
  lemma NumbersForPage(s: State, s2: State)
    requires Numbers(s, Shortage(s, 2)) && FreeCount(s) - 1 < 1
    requires |s2.swap| == |s.swap| + Shortage(s, 1)
    requires DataCount(s2) == if DataCount(s) < Shortage(s, 1) then 0 else DataCount(s) - Shortage(s, 1)
    ensures Numbers(s2, 1)
  {
  }

  lemma FewerFrames(s: State, n: nat, m: nat)
    requires Numbers(s, Shortage(s, m)) && n <= m
    ensures Numbers(s, Shortage(s, n))
  {
    FewerNumbers(s, Shortage(s, n), Shortage(s, m));
  }

  lemma ReviveBrings(s: State, pid: Pid, vaddr: Vaddr)
    requires Valid(s) && s.hardware[pid].inmem == 0 && Numbered(s, Load(pid, vaddr))
    ensures Revive(REPAIRED, s, pid, vaddr).Some?
    ensures var s' := Revive(REPAIRED, s, pid, vaddr).value;
      && Brings(s, s', 2) && |s'.swap| == |s.swap| + Evictions(s, Load(pid, vaddr))
      && Resident(s', pid) && EntryAt(s', pid, vaddr / 16).valpres != 1
  {
    FewerFrames(s, 1, FramesNeeded(s, Load(pid, vaddr)));
    TableBack(s, pid, vaddr / 16);
    var s1 := MakeRoom(REPAIRED, s, pid, FreeCount(s)).value;
    var s2 := LoadPageTable(s1, pid).value;
    ReviveFrom(REPAIRED, s, s1, s2, pid, vaddr);
    if EntryAt(s2, pid, vaddr / 16).valpres == 1 {
      if FreeCount(s) - 1 < 1 {
        NumbersForPage(s, s2);
      }
      PageBack(s, s2, pid, vaddr);
      BringsTwice(s, s2, LoadPage(MakeRoom(REPAIRED, s2, pid, FreeCount(s) - 1).value, pid, vaddr).value, 1, 1);
    }
  }

  // ----- store and load

  lemma EntryHere(s: State, pid: Pid, v: Pid)
    requires Valid(s) && EntryAt(s, pid, v).valpres != 1
    ensures var e := EntryAt(s, pid, v);
      if e.valpres == 2 then
        && Resident(s, pid) && e.pfn <= 48 && e.pfn % 16 == 0 && IsData(s, e.pfn / 16)
        && Maps(ViewOf(s), pid, v, e.pfn / 16)
      else e.valpres == 0 && e.prot == 0
  {
    ViewEntry(s, pid, v);
    assert EntryOk(ViewOf(s), pid, v) && PointerOk(ViewOf(s), pid);
  }

  lemma MapsSeen(t: View, q: Pid, v: Pid, f: Pid)
    requires Maps(t, q, v, f)
    ensures PageOf(t, q, v) == Mapped(t.entries[4 * q + v].prot, t.frames[f])
  {
  }

  lemma LineSeen(s: State, q: Pid, v: Pid, f: Pid)
    requires IsData(s, f) && Maps(ViewOf(s), q, v, f)
    ensures PageOf(ViewOf(s), q, v) == Mapped(EntryAt(s, q, v).prot, Frame(s, f))
  {
    MapsSeen(ViewOf(s), q, v, f);
    ViewEntry(s, q, v);
    FrameInView(s, f);
  }

  lemma FrameInView(s: State, f: Pid)
    requires IsData(s, f)
    ensures ViewOf(s).frames[f] == Frame(s, f)
  {
    assert ViewOf(s).frames[f] == FrameSeen(s, f);
  }

  lemma SeenHere(s: State, pid: Pid, vaddr: Vaddr)
    requires Valid(s) && EntryAt(s, pid, vaddr / 16).valpres != 1
    ensures var e := EntryAt(s, pid, vaddr / 16);
      if e.valpres == 2 then
        && Resident(s, pid) && e.pfn <= 48 && e.pfn % 16 == 0 && IsData(s, e.pfn / 16)
        && Maps(ViewOf(s), pid, vaddr / 16, e.pfn / 16)
        && Seen(s, pid, vaddr) == Mapped(e.prot, Frame(s, e.pfn / 16))
      else e.valpres == 0 && e.prot == 0 && Seen(s, pid, vaddr) == Unmapped
  {
    EntryHere(s, pid, vaddr / 16);
    if EntryAt(s, pid, vaddr / 16).valpres == 2 {
      LineSeen(s, pid, vaddr / 16, EntryAt(s, pid, vaddr / 16).pfn / 16);
    } else {
      ViewEntry(s, pid, vaddr / 16);
    }
  }

  lemma Unchanged(s: State, pid: Pid, vaddr: Vaddr)
    requires Valid(s)
    ensures Makes(s, s, pid, vaddr, Seen(s, pid, vaddr), 0)
  {
  }

  lemma StoreHereWrites(s: State, pid: Pid, vaddr: Vaddr, val: Byte, e: Entry, f: Pid)
    requires Resident(s, pid) && EntryAt(s, pid, vaddr / 16) == e && e.prot == 1 && e.valpres == 2 && e.pfn == 16 * f
    ensures StoreHere(s, pid, vaddr, val) == Some((s.(mem := s.mem[16 * f + vaddr % 16 := val]), Stored))
  {
    ReadValpres(s, pid, vaddr);
    ConvertFinds(s, pid, vaddr);
  }

  lemma StoreHereRefuses(s: State, pid: Pid, vaddr: Vaddr, val: Byte)
    requires Resident(s, pid) && EntryAt(s, pid, vaddr / 16).prot != 1
    ensures StoreHere(s, pid, vaddr, val) == Some((s, Refused))
  {
    ReadValpres(s, pid, vaddr);
  }

  /** Writing a byte of the frame of a page. */
  lemma WriteMakes(s: State, pid: Pid, vaddr: Vaddr, val: Byte, f: Pid)
    requires Valid(s) && Resident(s, pid) && IsData(s, f) && Maps(ViewOf(s), pid, vaddr / 16, f)
    ensures Seen(s, pid, vaddr).Mapped?
    ensures Makes(s, s.(mem := s.mem[16 * f + vaddr % 16 := val]), pid, vaddr,
                  Seen(s, pid, vaddr).(data := Seen(s, pid, vaddr).data[vaddr % 16 := val]), 0)
  {
    StoreView(s, pid, vaddr / 16, f, vaddr % 16, val);
    PokeKeeps(ViewOf(s), pid, vaddr / 16, f, vaddr % 16, val);
  }

  lemma StoreHereMakes(s: State, pid: Pid, vaddr: Vaddr, val: Byte)
    requires Valid(s) && Resident(s, pid) && EntryAt(s, pid, vaddr / 16).valpres != 1
    ensures StoreHere(s, pid, vaddr, val).Some?
    ensures var (s', out) := StoreHere(s, pid, vaddr, val).value;
      var (page, said) := FlatStore(Seen(s, pid, vaddr), vaddr, val);
      Makes(s, s', pid, vaddr, page, 0) && out == said
  {
    var e := EntryAt(s, pid, vaddr / 16);
    SeenHere(s, pid, vaddr);
    if e.prot == 1 {
      var f: Pid := e.pfn / 16;
      StoreHereWrites(s, pid, vaddr, val, e, f);
      WriteMakes(s, pid, vaddr, val, f);
    } else {
      StoreHereRefuses(s, pid, vaddr, val);
      Unchanged(s, pid, vaddr);
    }
  }

  lemma LoadHereReads(s: State, pid: Pid, vaddr: Vaddr)
    requires Valid(s) && Resident(s, pid) && EntryAt(s, pid, vaddr / 16).valpres != 1
    ensures LoadHere(s, pid, vaddr, 0) == Some((s, FlatLoad(Seen(s, pid, vaddr), vaddr)))
  {
    var e := EntryAt(s, pid, vaddr / 16);
    SeenHere(s, pid, vaddr);
    if e.valpres == 2 {
      LoadHereByte(s, pid, vaddr, e.pfn / 16);
    } else {
      ConvertFinds(s, pid, vaddr);
    }
  }

  lemma LoadHereByte(s: State, pid: Pid, vaddr: Vaddr, f: Pid)
    requires Resident(s, pid) && EntryAt(s, pid, vaddr / 16).valpres == 2 && EntryAt(s, pid, vaddr / 16).pfn == 16 * f
    ensures LoadHere(s, pid, vaddr, 0) == Some((s, Loaded(Frame(s, f)[vaddr % 16])))
  {
    ConvertFinds(s, pid, vaddr);
    FrameByte(s, f, vaddr % 16);
  }

  lemma FrameByte(s: State, f: Pid, offset: int)
    requires 0 <= offset < 16
    ensures 16 * f + offset < 64 && s.mem[16 * f + offset] == Frame(s, f)[offset]
  {
  }

  lemma NoTableSeen(s: State, pid: Pid, vaddr: Vaddr)
    requires Valid(s) && s.hardware[pid].inmem != 0 && s.hardware[pid].inmem != 1
    ensures Seen(s, pid, vaddr) == Unmapped
  {
    OnDiskNotInMemory(s, pid, vaddr / 16);
    SeenHere(s, pid, vaddr);
  }

  lemma ValidResident(s: State, pid: Pid)
    requires Valid(s) && s.hardware[pid].inmem == 1
    ensures Resident(s, pid)
  {
    assert PointerOk(ViewOf(s), pid);
  }

  lemma ValpresAtMostTwo(s: State, pid: Pid, v: Pid)
    requires Valid(s)
    ensures EntryAt(s, pid, v).valpres <= 2
  {
    ViewEntry(s, pid, v);
    assert EntryOk(ViewOf(s), pid, v);
  }

  /** A store once the page is back. */
  lemma StoreAfter(s: State, s1: State, pid: Pid, vaddr: Vaddr, val: Byte, lines: nat)
    requires Brings(s, s1, lines) && Resident(s1, pid) && EntryAt(s1, pid, vaddr / 16).valpres != 1
    ensures StoreHere(s1, pid, vaddr, val).Some?
    ensures var (s', out) := StoreHere(s1, pid, vaddr, val).value;
      var (page, said) := FlatStore(Seen(s, pid, vaddr), vaddr, val);
      Makes(s, s', pid, vaddr, page, lines) && |s'.swap| == |s1.swap| && out == said
    ensures Convert(s1, vaddr, pid) < 0 ==> StoreHere(s1, pid, vaddr, val).value == (s1, Refused)
  {
    assert Seen(s1, pid, vaddr) == Seen(s, pid, vaddr);
    StoreHereMakes(s1, pid, vaddr, val);
    var (s2, out) := StoreHere(s1, pid, vaddr, val).value;
    BringsThenMakes(s, s1, s2, pid, vaddr, FlatStore(Seen(s, pid, vaddr), vaddr, val).0, lines, 0);
    SeenHere(s1, pid, vaddr);
    ConvertFinds(s1, pid, vaddr);
    ReadValpres(s1, pid, vaddr);
  }

  lemma MoreLines(s: State, s': State, pid: Pid, vaddr: Vaddr, page: FlatPage, n: nat, m: nat)
    requires Makes(s, s', pid, vaddr, page, n) && n <= m
    ensures Makes(s, s', pid, vaddr, page, m)
  {
  }

  lemma RefusedOnDisk(s: State, pid: Pid, vaddr: Vaddr, val: Byte)
    requires Valid(s) && EntryAt(s, pid, vaddr / 16).valpres == 1 && EntryAt(s, pid, vaddr / 16).prot != 1
    ensures FlatStore(Seen(s, pid, vaddr), vaddr, val) == (Seen(s, pid, vaddr), Refused)
  {
    ViewEntry(s, pid, vaddr / 16);
    DiskEntry(s, pid, vaddr / 16);
  }

  lemma StoreResident(s: State, pid: Pid, vaddr: Vaddr, val: Byte)
    requires Valid(s) && Numbered(s, Store(pid, vaddr, val)) && s.hardware[pid].inmem == 1
    ensures StoreStep(REPAIRED, s, pid, vaddr, val).Some?
    ensures var (s', out) := StoreStep(REPAIRED, s, pid, vaddr, val).value;
      var (page, said) := FlatStore(Seen(s, pid, vaddr), vaddr, val);
      && Makes(s, s', pid, vaddr, page, 2) && |s'.swap| == |s.swap| + Evictions(s, Store(pid, vaddr, val))
      && out == said
  {
    ValidResident(s, pid);
    var e := EntryAt(s, pid, vaddr / 16);
    if e.valpres == 1 && e.prot == 1 {
      SwapInBrings(s, pid, vaddr);
      var s1 := SwapIn(REPAIRED, s, pid, vaddr).value;
      StoreSteps(s, s1, pid, vaddr, val);
      StoreAfter(s, s1, pid, vaddr, val, 1);
      MoreLines(s, StoreHere(s1, pid, vaddr, val).value.0, pid, vaddr, FlatStore(Seen(s, pid, vaddr), vaddr, val).0, 1, 2);
    } else {
      StoreSteps(s, s, pid, vaddr, val);
      StoreInMemory(s, pid, vaddr, val);
    }
  }

  /** A repaired store through a resident table, its page being back in `s1`. */
  lemma StoreSteps(s: State, s1: State, pid: Pid, vaddr: Vaddr, val: Byte)
    requires Resident(s, pid)
    requires if EntryAt(s, pid, vaddr / 16).valpres == 1 && EntryAt(s, pid, vaddr / 16).prot == 1
      then SwapIn(REPAIRED, s, pid, vaddr) == Some(s1) else s1 == s
    ensures StoreStep(REPAIRED, s, pid, vaddr, val) ==
      if Convert(s1, vaddr, pid) < 0 then Some((s1, Refused)) else StoreHere(s1, pid, vaddr, val)
  {
    ReadValpres(s, pid, vaddr);
  }

  /** A store that needs nothing from disk. */
  lemma StoreInMemory(s: State, pid: Pid, vaddr: Vaddr, val: Byte)
    requires Valid(s) && Resident(s, pid)
    requires !(EntryAt(s, pid, vaddr / 16).valpres == 1 && EntryAt(s, pid, vaddr / 16).prot == 1)
    ensures StoreHere(s, pid, vaddr, val).Some?
    ensures var (s', out) := StoreHere(s, pid, vaddr, val).value;
      var (page, said) := FlatStore(Seen(s, pid, vaddr), vaddr, val);
      Makes(s, s', pid, vaddr, page, 2) && |s'.swap| == |s.swap| && out == said
    ensures Convert(s, vaddr, pid) < 0 ==> StoreHere(s, pid, vaddr, val).value == (s, Refused)
  {
    if EntryAt(s, pid, vaddr / 16).valpres == 1 {
      RefusedOnDisk(s, pid, vaddr, val);
      StoreHereRefuses(s, pid, vaddr, val);
      Unchanged(s, pid, vaddr);
    } else {
      StoreAfter(s, s, pid, vaddr, val, 0);
      MoreLines(s, StoreHere(s, pid, vaddr, val).value.0, pid, vaddr, FlatStore(Seen(s, pid, vaddr), vaddr, val).0, 0, 2);
    }
  }

  lemma StoreMakes(s: State, pid: Pid, vaddr: Vaddr, val: Byte)
    requires Valid(s) && Numbered(s, Store(pid, vaddr, val))
    ensures StoreStep(REPAIRED, s, pid, vaddr, val).Some?
    ensures var (s', out) := StoreStep(REPAIRED, s, pid, vaddr, val).value;
      var (page, said) := FlatStore(Seen(s, pid, vaddr), vaddr, val);
      && Makes(s, s', pid, vaddr, page, 2) && |s'.swap| == |s.swap| + Evictions(s, Store(pid, vaddr, val))
      && out == said
  {
    if s.hardware[pid].inmem == 1 {
      StoreResident(s, pid, vaddr, val);
    } else if s.hardware[pid].inmem == 0 {
      ReviveBrings(s, pid, vaddr);
      StoreAfter(s, Revive(REPAIRED, s, pid, vaddr).value, pid, vaddr, val, 2);
    } else {
      NoTableSeen(s, pid, vaddr);
      Unchanged(s, pid, vaddr);
    }
  }

  lemma LoadMakes(s: State, pid: Pid, vaddr: Vaddr)
    requires Valid(s) && Numbered(s, Load(pid, vaddr))
    ensures LoadStep(REPAIRED, s, pid, vaddr).Some?
    ensures var (s', out) := LoadStep(REPAIRED, s, pid, vaddr).value;
      && Brings(s, s', 2) && |s'.swap| == |s.swap| + Evictions(s, Load(pid, vaddr))
      && out == FlatLoad(Seen(s, pid, vaddr), vaddr)
  {
    if s.hardware[pid].inmem == 1 {
      ValidResident(s, pid);
      ReadValpres(s, pid, vaddr);
      ValpresAtMostTwo(s, pid, vaddr / 16);
      if EntryAt(s, pid, vaddr / 16).valpres == 1 {
        SwapInBrings(s, pid, vaddr);
        var s1 := SwapIn(REPAIRED, s, pid, vaddr).value;
        assert Seen(s1, pid, vaddr) == Seen(s, pid, vaddr);
        LoadHereReads(s1, pid, vaddr);
      } else {
        SeenHere(s, pid, vaddr);
        LoadHereReads(s, pid, vaddr);
      }
    } else if s.hardware[pid].inmem == 0 {
      ReviveBrings(s, pid, vaddr);
      var s1 := Revive(REPAIRED, s, pid, vaddr).value;
      assert Seen(s1, pid, vaddr) == Seen(s, pid, vaddr);
      LoadHereReads(s1, pid, vaddr);
    } else {
      NoTableSeen(s, pid, vaddr);
    }
  }

  // ----- map

  /** A table ready for `map`: resident, with room for one page either free or
      still to be bought with a swap line. */
  ghost predicate ReadyToMap(s: State, s1: State, pid: Pid) {
    && Valid(s1) && SamePages(ViewOf(s), ViewOf(s1)) && s.swap <= s1.swap
    && Resident(s1, pid)
    && |s1.swap| + (if FreeCount(s1) == 0 then 1 else 0) <= |s.swap| + 2
    && FreeCount(s1) <= FreeCount(s) + (if HasTable(ViewOf(s), pid) then 0 else 1)
    && (!HasTable(ViewOf(s), pid) ==> FreeCount(s1) > 0)
  }

  lemma NewTableReady(s: State, pid: Pid)
    requires Valid(s) && !HasTable(ViewOf(s), pid) && FreeCount(s) > 0
    ensures var s' := NewTable(s, pid, FindFree(s).value);
      && Valid(s') && SamePages(ViewOf(s), ViewOf(s')) && s'.swap == s.swap
      && Resident(s', pid) && FreeCount(s') == FreeCount(s) - 1
  {
    var f := FindFree(s).value;
    NewTableView(s, pid, f);
    TableNewKeeps(ViewOf(s), pid, f);
    FrameTaken(s, NewTable(s, pid, f), f);
  }

  function TableFrames(s: State, pid: Pid): nat {
    if s.hardware[pid].inmem == 1 then 0 else if s.hardware[pid].inmem == 0 then 1 else 2
  }

  /** What the table cost: a line for each frame evicted, pages going first. */
  ghost predicate TableCost(s: State, s1: State, pid: Pid) {
    var k := Shortage(s, TableFrames(s, pid));
    && |s1.swap| == |s.swap| + k
    && DataCount(s1) == (if DataCount(s) < k then 0 else DataCount(s) - k)
    && (s.hardware[pid].inmem == 1 ==> s1 == s)
    && (s.hardware[pid].inmem == 0 ==>
          && FreeCount(s1) == FreeCount(s) + k - 1
          && forall v: Pid :: EntryAt(s1, pid, v) == EntryAt(s, pid, v))
  }

  lemma TableForMapBack(s: State, pid: Pid)
    requires Valid(s) && Numbers(s, Shortage(s, 1)) && s.hardware[pid].inmem == 0
    ensures TableForMap(REPAIRED, s, pid).Some?
    ensures var s1 := TableForMap(REPAIRED, s, pid).value; ReadyToMap(s, s1, pid) && TableCost(s, s1, pid)
  {
    FreeSpaceHidden(s, 1, pid);
    var s1 := FreeSpace(REPAIRED, s, 1, pid).value;
    LoadPageTableBrings(s1, pid);
    SameTwice(s, s1, LoadPageTable(s1, pid).value);
    forall v: Pid ensures EntryAt(LoadPageTable(s1, pid).value, pid, v) == EntryAt(s, pid, v) {
      OnDiskNotInMemory(s, pid, v);
    }
  }

  lemma TableForMapNew(s: State, pid: Pid)
    requires Valid(s) && Numbers(s, Shortage(s, 2)) && s.hardware[pid].inmem != 0 && s.hardware[pid].inmem != 1
    ensures TableForMap(REPAIRED, s, pid).Some?
    ensures var s1 := TableForMap(REPAIRED, s, pid).value; ReadyToMap(s, s1, pid) && TableCost(s, s1, pid)
  {
    FreeSpaceHidden(s, 2, pid);
    var s1 := FreeSpace(REPAIRED, s, 2, pid).value;
    NewTableReady(s1, pid);
    SameTwice(s, s1, NewTable(s1, pid, FindFree(s1).value));
    TableTakenData(s1, NewTable(s1, pid, FindFree(s1).value), FindFree(s1).value);
  }

  lemma TableForMapReady(s: State, pid: Pid)
    requires Valid(s) && Numbers(s, Shortage(s, TableFrames(s, pid)))
    ensures TableForMap(REPAIRED, s, pid).Some?
    ensures var s1 := TableForMap(REPAIRED, s, pid).value; ReadyToMap(s, s1, pid) && TableCost(s, s1, pid)
  {
    if s.hardware[pid].inmem == 1 {
      ValidResident(s, pid);
    } else if s.hardware[pid].inmem == 0 {
      TableForMapBack(s, pid);
    } else {
      TableForMapNew(s, pid);
    }
  }

  /** An entry on disk or never allocated can be given a fresh, zeroed frame. */
  lemma AllocatePageMakes(s: State, pid: Pid, vaddr: Vaddr, val: Byte)
    requires Valid(s) && Resident(s, pid) && EntryAt(s, pid, vaddr / 16).valpres != 2
    requires FreeCount(s) == 0 ==> Numbers(s, 1)
    ensures AllocatePage(REPAIRED, s, pid, vaddr, val).Some?
    ensures Makes(s, AllocatePage(REPAIRED, s, pid, vaddr, val).value, pid, vaddr, Mapped(val, ZERO_PAGE),
                  if FreeCount(s) == 0 then 1 else 0)
    ensures FreeCount(s) > 0 ==> FreeCount(AllocatePage(REPAIRED, s, pid, vaddr, val).value) == FreeCount(s) - 1
    ensures |AllocatePage(REPAIRED, s, pid, vaddr, val).value.swap| == |s.swap| + Shortage(s, 1)
  {
    if FreeCount(s) == 0 {
      RoomMade(s, pid, FreeCount(s), vaddr / 16);
      var s1 := MakeRoom(REPAIRED, s, pid, FreeCount(s)).value;
      PlacePageMakes(s1, pid, vaddr, val);
      var s2 := PlacePage(s1, pid, vaddr, val).value;
      BringsRoom(s, s1, s2, pid, vaddr, Mapped(val, ZERO_PAGE));
    } else {
      PlacePageMakes(s, pid, vaddr, val);
    }
  }

  lemma BringsRoom(s: State, s1: State, s2: State, pid: Pid, vaddr: Vaddr, page: FlatPage)
    requires SamePages(ViewOf(s), ViewOf(s1)) && s.swap <= s1.swap && |s1.swap| == |s.swap| + 1
    requires Makes(s1, s2, pid, vaddr, page, 0) && FreeCount(s2) <= FreeCount(s)
    ensures Makes(s, s2, pid, vaddr, page, 1)
  {
    forall p: Pid, w: Pid
      ensures PageOf(ViewOf(s2), p, w) == if p == pid && w == vaddr / 16 then page else PageOf(ViewOf(s), p, w)
    {
      assert PageOf(ViewOf(s1), p, w) == PageOf(ViewOf(s), p, w);
    }
  }

  lemma PlacePageMakes(s: State, pid: Pid, vaddr: Vaddr, val: Byte)
    requires Valid(s) && Resident(s, pid) && EntryAt(s, pid, vaddr / 16).valpres != 2 && FreeCount(s) > 0
    ensures PlacePage(s, pid, vaddr, val).Some?
    ensures Makes(s, PlacePage(s, pid, vaddr, val).value, pid, vaddr, Mapped(val, ZERO_PAGE), 0)
    ensures FreeCount(PlacePage(s, pid, vaddr, val).value) == FreeCount(s) - 1
  {
    var v: Pid := vaddr / 16;
    var f := FindFree(s).value;
    ViewEntry(s, pid, v);
    PlacePageView(s, pid, vaddr, val, f);
    PageAtKeeps(ViewOf(s), pid, v, f, val, ZERO_PAGE);
    var s' := PlacePage(s, pid, vaddr, val).value;
    PageAtParts(s', ViewOf(s), pid, v, f, val, ZERO_PAGE);
    FrameTaken(s, s', f);
  }

  lemma SetProtectionMakes(s: State, pid: Pid, vaddr: Vaddr, val: Byte)
    requires Valid(s) && Resident(s, pid) && EntryAt(s, pid, vaddr / 16).valpres != 0
    ensures Makes(s, SetProtection(s, pid, vaddr, val), pid, vaddr, FlatMap(Seen(s, pid, vaddr), val), 0)
  {
    ViewEntry(s, pid, vaddr / 16);
    SetProtectionView(s, pid, vaddr, val);
    ProtectKeeps(ViewOf(s), pid, vaddr / 16, val);
  }

  lemma MapAfter(s: State, s1: State, s2: State, pid: Pid, vaddr: Vaddr, page: FlatPage, lines: nat)
    requires SamePages(ViewOf(s), ViewOf(s1)) && s.swap <= s1.swap && |s1.swap| + lines <= |s.swap| + 2
    requires Makes(s1, s2, pid, vaddr, page, lines) && FreeCount(s2) <= FreeCount(s)
    ensures Makes(s, s2, pid, vaddr, page, 2)
  {
    forall p: Pid, w: Pid
      ensures PageOf(ViewOf(s2), p, w) == if p == pid && w == vaddr / 16 then page else PageOf(ViewOf(s), p, w)
    {
      assert PageOf(ViewOf(s1), p, w) == PageOf(ViewOf(s), p, w);
    }
  }

  lemma MapFresh(s: State, s1: State, pid: Pid, vaddr: Vaddr, val: Byte)
    requires ReadyToMap(s, s1, pid) && EntryAt(s1, pid, vaddr / 16).valpres == 0
    requires FreeCount(s1) == 0 ==> Numbers(s1, 1)
    ensures AllocatePage(REPAIRED, s1, pid, vaddr, val).Some?
    ensures Makes(s, AllocatePage(REPAIRED, s1, pid, vaddr, val).value, pid, vaddr, FlatMap(Seen(s, pid, vaddr), val), 2)
    ensures |AllocatePage(REPAIRED, s1, pid, vaddr, val).value.swap| == |s1.swap| + Shortage(s1, 1)
  {
    assert Seen(s1, pid, vaddr) == Seen(s, pid, vaddr);
    SeenHere(s1, pid, vaddr);
    AllocatePageMakes(s1, pid, vaddr, val);
    MapAfter(s, s1, AllocatePage(REPAIRED, s1, pid, vaddr, val).value, pid, vaddr, Mapped(val, ZERO_PAGE),
             if FreeCount(s1) == 0 then 1 else 0);
  }

  lemma MapKnown(s: State, s1: State, pid: Pid, vaddr: Vaddr, val: Byte)
    requires Valid(s) && ReadyToMap(s, s1, pid) && EntryAt(s1, pid, vaddr / 16).valpres != 0
    ensures Makes(s, SetProtection(s1, pid, vaddr, val), pid, vaddr, FlatMap(Seen(s, pid, vaddr), val), 2)
  {
    assert Seen(s1, pid, vaddr) == Seen(s, pid, vaddr);
    MappedHasTable(s, s1, pid, vaddr);
    SetProtectionMakes(s1, pid, vaddr, val);
    MapAfter(s, s1, SetProtection(s1, pid, vaddr, val), pid, vaddr, FlatMap(Seen(s, pid, vaddr), val), 0);
  }

  /** What is left of `map` once the table is ready. */
  function MapRest(fix: Repairs, s1: State, pid: Pid, vaddr: Vaddr, val: Byte): Option<State>
    requires Resident(s1, pid)
  {
    var valpres := EntryAt(s1, pid, vaddr / 16).valpres;
    if valpres == 2 || (fix.mapKeepsPage && valpres == 1) then Some(SetProtection(s1, pid, vaddr, val))
    else AllocatePage(fix, s1, pid, vaddr, val)
  }

  lemma MapStepParts(fix: Repairs, s: State, s1: State, pid: Pid, vaddr: Vaddr, val: Byte)
    requires TableForMap(fix, s, pid) == Some(s1) && Resident(s1, pid)
    ensures MapStep(fix, s, pid, vaddr, val) ==
      match MapRest(fix, s1, pid, vaddr, val)
      case Some(s2) => Some((s2, MapDone))
      case None => None
  {
    ReadValpres(s1, pid, vaddr);
  }

  /** What the table leaves of the numbers for a new page, and what the two cost. */
  lemma NumbersForMap(s: State, s1: State, pid: Pid, vaddr: Vaddr, val: Byte)
    requires Valid(s) && Numbered(s, Map(pid, vaddr, val)) && ReadyToMap(s, s1, pid) && TableCost(s, s1, pid)
    requires EntryAt(s1, pid, vaddr / 16).valpres == 0
    ensures FreeCount(s1) == 0 ==> Numbers(s1, 1)
    ensures Shortage(s, TableFrames(s, pid)) + Shortage(s1, 1) == Evictions(s, Map(pid, vaddr, val))
  {
    if s.hardware[pid].inmem != 1 && s.hardware[pid].inmem != 0 {
      OnDiskNotInMemory(s, pid, vaddr / 16);
    }
  }

  lemma MapKnownCost(s: State, s1: State, pid: Pid, vaddr: Vaddr, val: Byte)
    requires Valid(s) && ReadyToMap(s, s1, pid) && TableCost(s, s1, pid)
    requires EntryAt(s1, pid, vaddr / 16).valpres != 0
    ensures Shortage(s, TableFrames(s, pid)) == Evictions(s, Map(pid, vaddr, val))
  {
    MappedHasTable(s, s1, pid, vaddr);
  }

  lemma TableNumbers(s: State, pid: Pid, vaddr: Vaddr, val: Byte)
    requires Valid(s) && Numbered(s, Map(pid, vaddr, val))
    ensures Numbers(s, Shortage(s, TableFrames(s, pid)))
  {
    if s.hardware[pid].inmem != 1 {
      OnDiskNotInMemory(s, pid, vaddr / 16);
    }
    FewerFrames(s, TableFrames(s, pid), FramesNeeded(s, Map(pid, vaddr, val)));
  }

  lemma MapMakes(s: State, pid: Pid, vaddr: Vaddr, val: Byte)
    requires Valid(s) && Numbered(s, Map(pid, vaddr, val))
    ensures MapStep(REPAIRED, s, pid, vaddr, val).Some?
    ensures var (s', out) := MapStep(REPAIRED, s, pid, vaddr, val).value;
      && Makes(s, s', pid, vaddr, FlatMap(Seen(s, pid, vaddr), val), 2)
      && |s'.swap| == |s.swap| + Evictions(s, Map(pid, vaddr, val))
      && out == MapDone
  {
    TableNumbers(s, pid, vaddr, val);
    TableForMapReady(s, pid);
    var s1 := TableForMap(REPAIRED, s, pid).value;
    MapStepParts(REPAIRED, s, s1, pid, vaddr, val);
    ValpresAtMostTwo(s1, pid, vaddr / 16);
    if EntryAt(s1, pid, vaddr / 16).valpres == 0 {
      NumbersForMap(s, s1, pid, vaddr, val);
      MapFresh(s, s1, pid, vaddr, val);
    } else {
      MapKnown(s, s1, pid, vaddr, val);
      MapKnownCost(s, s1, pid, vaddr, val);
    }
  }

  lemma MappedHasTable(s: State, s1: State, pid: Pid, vaddr: Vaddr)
    requires Valid(s) && Valid(s1) && SamePages(ViewOf(s), ViewOf(s1))
    requires EntryAt(s1, pid, vaddr / 16).valpres != 0
    ensures HasTable(ViewOf(s), pid)
  {
    ViewEntry(s1, pid, vaddr / 16);
    assert EntryOk(ViewOf(s1), pid, vaddr / 16);
    assert Seen(s1, pid, vaddr) == Seen(s, pid, vaddr);
    if !HasTable(ViewOf(s), pid) {
      NoTableSeen(s, pid, vaddr);
    }
  }
}
