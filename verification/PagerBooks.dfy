/** The books of the pager: which frame is free, a table or a page and whose, where each
    table is, how many swap lines there are and where the hand stands. Under any repairs,
    wrong evictions included, a command changes them in a way that depends on them and on
    the one page table entry it looks at, and on no other byte of memory. */
module PagerBooks {
  import opened Options
  import opened PagerModel
  import opened PagerTables
  import opened PagerBytes
  import opened PagerEviction
  import opened PagerCommands
  import opened PagerLanding
  import opened PagerQuiet

  datatype Book = Book(
    freelist: seq<int>,
    pages: seq<int>,
    ispagetable: seq<int>,
    hardware: seq<Hp>,
    lines: nat,
    hand: int)

  type Books = b: Book |
    |b.freelist| == |b.pages| == |b.ispagetable| == |b.hardware| == 4 && 0 <= b.hand < 4
    witness Book([1, 1, 1, 1], [-1, -1, -1, -1], [0, 0, 0, 0], seq(4, i => Hp(0, -1)), 0, 0)

  function BooksOf(s: State): Books {
    Book(s.freelist, s.pages, s.ispagetable, s.hardware, |s.swap|, s.roundrobin)
  }

  // ----- the frames around the hand

  /** The frame `i` places on from the hand. */
  function Ahead(b: Books, i: nat): Pid {
    (b.hand + i) % 4
  }

  predicate HoldsPage(b: Books, f: Pid) {
    b.ispagetable[f] != 1 && b.freelist[f] != 1
  }

  /** A table other than that of `pid`. */
  predicate HoldsOther(b: Books, pid: Pid, f: Pid) {
    b.ispagetable[f] == 1 && b.hardware[pid] != Hp(16 * f, 1)
  }

  function NearestPage(b: Books): Option<Pid> {
    if HoldsPage(b, Ahead(b, 0)) then Some(Ahead(b, 0))
    else if HoldsPage(b, Ahead(b, 1)) then Some(Ahead(b, 1))
    else if HoldsPage(b, Ahead(b, 2)) then Some(Ahead(b, 2))
    else if HoldsPage(b, Ahead(b, 3)) then Some(Ahead(b, 3))
    else None
  }

  function NearestOther(b: Books, pid: Pid): Option<Pid> {
    if HoldsOther(b, pid, Ahead(b, 0)) then Some(Ahead(b, 0))
    else if HoldsOther(b, pid, Ahead(b, 1)) then Some(Ahead(b, 1))
    else if HoldsOther(b, pid, Ahead(b, 2)) then Some(Ahead(b, 2))
    else if HoldsOther(b, pid, Ahead(b, 3)) then Some(Ahead(b, 3))
    else None
  }

  function Lowest(b: Books): Pid {
    if b.freelist[0] == 1 then 0 else if b.freelist[1] == 1 then 1 else if b.freelist[2] == 1 then 2 else 3
  }

  function FreeFrames(b: Books): nat {
    (if b.freelist[0] == 1 then 1 else 0) + (if b.freelist[1] == 1 then 1 else 0)
    + (if b.freelist[2] == 1 then 1 else 0) + (if b.freelist[3] == 1 then 1 else 0)
  }

  predicate OnlyTables(b: Books) {
    b.ispagetable[0] == b.ispagetable[1] == b.ispagetable[2] == b.ispagetable[3] == 1
  }

  // ----- entries in the books

  /** The page in frame `f` goes to the next line, and the hand past the frame. */
  function PageLeaves(b: Books, f: Pid): Books {
    b.(freelist := b.freelist[f := 1], pages := b.pages[f := -1], lines := b.lines + 1, hand := (f + 1) % 4)
  }

  /** The table in frame `f` goes to the next line, and the hand past the frame. */
  function TableLeaves(b: Books, f: Pid): Books {
    var q := b.pages[f];
    var g := if 0 <= q < 4 && 0 <= b.hardware[q].address < 64 then b.hardware[q].address / 16 else f;
    b.(freelist := b.freelist[g := 1], pages := b.pages[g := -1], ispagetable := b.ispagetable[g := 0],
       hardware := if 0 <= q < 4 then b.hardware[q := Hp(b.lines, 0)] else b.hardware,
       lines := b.lines + 1, hand := (f + 1) % 4)
  }

  /** The next frame is emptied for `pid`: a page if there is one, else a table of another
      process; as written, when all frames hold tables, the frame at the hand, which then
      still counts as a table. */
  function Emptied(fix: Repairs, b: Books, pid: Pid): Books {
    if OnlyTables(b) && !fix.tablesLast then PageLeaves(b, Ahead(b, 0))
    else
      match NearestPage(b)
      case Some(f) => PageLeaves(b, f)
      case None => match NearestOther(b, pid) case Some(f) => TableLeaves(b, f) case None => b
  }

  /** The hand moves on, and as many frames are emptied as are missing to `n`. */
  function Cleared(fix: Repairs, b: Books, pid: Pid, n: nat): Books {
    var h := b.(hand := Ahead(b, 1));
    if FreeFrames(b) >= n then h
    else if FreeFrames(b) + 1 >= n then Emptied(fix, h, pid)
    else Emptied(fix, Emptied(fix, h, pid), pid)
  }

  /** Room for one: the hand stays where it is if a frame is free. */
  function Roomy(fix: Repairs, b: Books, pid: Pid): Books {
    if FreeFrames(b) > 0 then b else Cleared(fix, b, pid, 1)
  }

  function TableTakes(b: Books, pid: Pid): Books {
    var f := Lowest(b);
    b.(freelist := b.freelist[f := 0], pages := b.pages[f := pid], ispagetable := b.ispagetable[f := 1],
       hardware := b.hardware[pid := Hp(16 * f, 1)])
  }

  function PageTakes(b: Books, pid: Pid): Books {
    b.(freelist := b.freelist[Lowest(b) := 0], pages := b.pages[Lowest(b) := pid])
  }

  /** The table of `pid` where `load` and `store` need it. */
  function TableFetched(fix: Repairs, b: Books, pid: Pid): Books {
    if b.hardware[pid].inmem == 0 then TableTakes(Roomy(fix, b, pid), pid) else b
  }

  /** And where `map` does, which moves the hand on for it in any case. */
  function TableMade(fix: Repairs, b: Books, pid: Pid): Books {
    if b.hardware[pid].inmem == 1 then b
    else if b.hardware[pid].inmem == 0 then TableTakes(Cleared(fix, b, pid, 1), pid)
    else TableTakes(Cleared(fix, b, pid, 2), pid)
  }

  function PageFetched(fix: Repairs, b: Books, pid: Pid): Books {
    PageTakes(Roomy(fix, b, pid), pid)
  }

  /** The books after `c`, whose page has entry `e`. */
  function Booked(fix: Repairs, b: Books, c: Command, e: Entry): Books {
    var there := b.hardware[c.pid].inmem == 1;
    match c
    case Map(pid, _, _) =>
      var b1 := TableMade(fix, b, pid);
      if e.valpres == 2 || (e.valpres == 1 && fix.mapKeepsPage) then b1 else PageFetched(fix, b1, pid)
    case Store(pid, _, _) =>
      var b1 := TableFetched(fix, b, pid);
      if (there && !fix.storeSwapsIn) || (there && e.prot != 1) || (!there && b.hardware[pid].inmem != 0) then b1
      else if e.valpres == 1 then PageFetched(fix, b1, pid)
      else b1
    case Load(pid, _) =>
      var b1 := TableFetched(fix, b, pid);
      if e.valpres == 1 && (there || b.hardware[pid].inmem == 0) then PageFetched(fix, b1, pid) else b1
  }

  // ----- the searches

  lemma PageAhead(s: State, b: Books, i: nat, k: nat)
    requires b == BooksOf(s) && i < 4 && k == 4 - i
    ensures NextData(s, Ahead(b, i), k) ==
      if HoldsPage(b, Ahead(b, i)) then Some(Ahead(b, i)) else NextData(s, Ahead(b, i + 1), k - 1)
  {
    assert Next(Ahead(b, i)) == Ahead(b, i + 1);
  }

  lemma OtherAhead(s: State, b: Books, pid: Pid, i: nat, k: nat)
    requires b == BooksOf(s) && i < 4 && k == 4 - i
    ensures NextTable(s, pid, Ahead(b, i), k) ==
      if HoldsOther(b, pid, Ahead(b, i)) then Some(Ahead(b, i)) else NextTable(s, pid, Ahead(b, i + 1), k - 1)
  {
    assert Next(Ahead(b, i)) == Ahead(b, i + 1);
  }

  lemma NearestPageIs(s: State, b: Books, k: nat)
    requires k == 4 && b == BooksOf(s)
    ensures NextData(s, s.roundrobin, k) == NearestPage(b)
  {
    assert Ahead(b, 0) == s.roundrobin;
    PageAhead(s, b, 0, k);
    PageAhead(s, b, 1, k - 1);
    PageAhead(s, b, 2, k - 2);
    PageAhead(s, b, 3, k - 3);
    assert NextData(s, Ahead(b, 4), k - 4) == None;
  }

  lemma NearestOtherIs(s: State, b: Books, pid: Pid, k: nat)
    requires k == 4 && b == BooksOf(s)
    ensures NextTable(s, pid, s.roundrobin, k) == NearestOther(b, pid)
  {
    assert Ahead(b, 0) == s.roundrobin;
    OtherAhead(s, b, pid, 0, k);
    OtherAhead(s, b, pid, 1, k - 1);
    OtherAhead(s, b, pid, 2, k - 2);
    OtherAhead(s, b, pid, 3, k - 3);
    assert NextTable(s, pid, Ahead(b, 4), k - 4) == None;
  }

  lemma LowestIs(s: State)
    requires FindFree(s).Some?
    ensures FindFree(s) == Some(Lowest(BooksOf(s)))
  {
  }

  // ----- one eviction

  lemma RemovePageBooks(fix: Repairs, s: State, f: Pid, h: int)
    requires RemovePage(fix, s, s.pages[f], f).Some? && h == (f + 1) % 4
    ensures BooksOf(RemovePage(fix, s, s.pages[f], f).value.(roundrobin := h)) == PageLeaves(BooksOf(s), f)
  {
  }

  lemma RemoveTableBooks(s: State, f: Pid, h: int)
    requires RemovePageTable(s, s.pages[f]).Some? && h == (f + 1) % 4
    ensures BooksOf(RemovePageTable(s, s.pages[f]).value.(roundrobin := h)) == TableLeaves(BooksOf(s), f)
  {
  }

  lemma EvictsAtHand(fix: Repairs, s: State, pid: Pid)
    requires Evict(fix, s, pid).Some? && AllTables(s) && !fix.tablesLast
    ensures BooksOf(Evict(fix, s, pid).value) == PageLeaves(BooksOf(s), s.roundrobin)
  {
    RemovePageBooks(fix, s, s.roundrobin, Next(s.roundrobin));
  }

  lemma EvictIsRemoval(fix: Repairs, s: State, pid: Pid, f: Pid)
    requires !(AllTables(s) && !fix.tablesLast) && NextData(s, s.roundrobin, 4) == Some(f)
    ensures Evict(fix, s, pid) ==
      match RemovePage(fix, s, s.pages[f], f) case Some(s') => Some(s'.(roundrobin := Next(f))) case None => None
  {
  }

  lemma EvictsPage(fix: Repairs, s: State, pid: Pid, f: Pid)
    requires Evict(fix, s, pid).Some? && !(AllTables(s) && !fix.tablesLast) && NextData(s, s.roundrobin, 4) == Some(f)
    ensures BooksOf(Evict(fix, s, pid).value) == PageLeaves(BooksOf(s), f)
  {
    EvictIsRemoval(fix, s, pid, f);
    RemovePageBooks(fix, s, f, Next(f));
  }

  lemma EvictsTable(fix: Repairs, s: State, pid: Pid)
    requires Evict(fix, s, pid).Some? && !(AllTables(s) && !fix.tablesLast) && NextData(s, s.roundrobin, 4).None?
    ensures NextTable(s, pid, s.roundrobin, 4).Some?
    ensures BooksOf(Evict(fix, s, pid).value) == TableLeaves(BooksOf(s), NextTable(s, pid, s.roundrobin, 4).value)
  {
    var f := NextTable(s, pid, s.roundrobin, 4).value;
    RemoveTableBooks(s, f, Next(f));
  }

  lemma OnlyTablesIs(s: State)
    ensures AllTables(s) <==> OnlyTables(BooksOf(s))
  {
    if OnlyTables(BooksOf(s)) {
      forall f: Pid ensures IsTable(s, f) {
      }
    }
    if AllTables(s) {
      assert IsTable(s, 0) && IsTable(s, 1) && IsTable(s, 2) && IsTable(s, 3);
    }
  }

  lemma EmptiedAtHand(fix: Repairs, s: State, pid: Pid)
    requires AllTables(s) && !fix.tablesLast
    ensures Emptied(fix, BooksOf(s), pid) == PageLeaves(BooksOf(s), s.roundrobin)
  {
    OnlyTablesIs(s);
    assert Ahead(BooksOf(s), 0) == s.roundrobin;
  }

  lemma EmptiedNearest(fix: Repairs, s: State, pid: Pid)
    requires !(AllTables(s) && !fix.tablesLast)
    ensures Emptied(fix, BooksOf(s), pid) ==
      match NextData(s, s.roundrobin, 4)
      case Some(f) => PageLeaves(BooksOf(s), f)
      case None =>
        match NextTable(s, pid, s.roundrobin, 4) case Some(f) => TableLeaves(BooksOf(s), f) case None => BooksOf(s)
  {
    OnlyTablesIs(s);
    NearestPageIs(s, BooksOf(s), 4);
    NearestOtherIs(s, BooksOf(s), pid, 4);
  }

  lemma EvictBooks(fix: Repairs, s: State, pid: Pid)
    requires Evict(fix, s, pid).Some?
    ensures BooksOf(Evict(fix, s, pid).value) == Emptied(fix, BooksOf(s), pid)
  {
    if AllTables(s) && !fix.tablesLast {
      EmptiedAtHand(fix, s, pid);
      EvictsAtHand(fix, s, pid);
    } else {
      EmptiedNearest(fix, s, pid);
      match NextData(s, s.roundrobin, 4)
      case Some(f) => EvictsPage(fix, s, pid, f);
      case None => EvictsTable(fix, s, pid);
    }
  }

  // ----- room

  lemma FreeFramesIs(s: State)
    ensures FreeCount(s) == FreeFrames(BooksOf(s))
  {
  }

  lemma RobinBooks(s: State)
    ensures BooksOf(Robin(s)) == BooksOf(s).(hand := Ahead(BooksOf(s), 1))
  {
  }

  lemma TwiceBooks(fix: Repairs, s: State, pid: Pid, k: nat)
    requires k <= 2 && EvictTimes(fix, s, pid, k).Some?
    ensures BooksOf(EvictTimes(fix, s, pid, k).value) ==
      if k == 0 then BooksOf(s)
      else if k == 1 then Emptied(fix, BooksOf(s), pid)
      else Emptied(fix, Emptied(fix, BooksOf(s), pid), pid)
  {
    if k > 0 {
      EvictTimesStep(fix, s, pid, k);
      TwiceBooks(fix, s, pid, k - 1);
      EvictBooks(fix, EvictTimes(fix, s, pid, k - 1).value, pid);
    }
  }

  lemma SpaceBooks(fix: Repairs, s: State, n: nat, pid: Pid)
    requires n <= 2 && FreeSpace(fix, s, n, pid).Some?
    ensures BooksOf(FreeSpace(fix, s, n, pid).value) == Cleared(fix, BooksOf(s), pid, n)
  {
    FreeFramesIs(s);
    RobinBooks(s);
    TwiceBooks(fix, Robin(s), pid, Shortage(s, n));
  }

  lemma RoomBooks(fix: Repairs, s: State, pid: Pid)
    requires MakeRoom(fix, s, pid, FreeCount(s)).Some?
    ensures BooksOf(MakeRoom(fix, s, pid, FreeCount(s)).value) == Roomy(fix, BooksOf(s), pid)
  {
    FreeFramesIs(s);
    if FreeCount(s) == 0 {
      SpaceBooks(fix, s, 1, pid);
    }
  }

  // ----- tables and pages

  lemma TableBooks(s: State, pid: Pid)
    requires LoadPageTable(s, pid).Some?
    ensures BooksOf(LoadPageTable(s, pid).value) == TableTakes(BooksOf(s), pid)
  {
    LowestIs(s);
  }

  lemma NewTableBooks(s: State, pid: Pid)
    requires FindFree(s).Some?
    ensures BooksOf(NewTable(s, pid, FindFree(s).value)) == TableTakes(BooksOf(s), pid)
  {
    LowestIs(s);
  }

  lemma PageBooks(s: State, pid: Pid, vaddr: Vaddr)
    requires LoadPage(s, pid, vaddr).Some?
    ensures BooksOf(LoadPage(s, pid, vaddr).value) == PageTakes(BooksOf(s), pid)
  {
    LowestIs(s);
  }

  lemma PlaceBooks(s: State, pid: Pid, vaddr: Vaddr, val: Byte)
    requires PlacePage(s, pid, vaddr, val).Some?
    ensures BooksOf(PlacePage(s, pid, vaddr, val).value) == PageTakes(BooksOf(s), pid)
  {
    LowestIs(s);
  }

  lemma SwapInBooks(fix: Repairs, s: State, pid: Pid, vaddr: Vaddr)
    requires SwapIn(fix, s, pid, vaddr).Some?
    ensures BooksOf(SwapIn(fix, s, pid, vaddr).value) == PageFetched(fix, BooksOf(s), pid)
  {
    RoomBooks(fix, s, pid);
    PageBooks(MakeRoom(fix, s, pid, FreeCount(s)).value, pid, vaddr);
  }

  lemma AllocateBooks(fix: Repairs, s: State, pid: Pid, vaddr: Vaddr, val: Byte)
    requires AllocatePage(fix, s, pid, vaddr, val).Some?
    ensures BooksOf(AllocatePage(fix, s, pid, vaddr, val).value) == PageFetched(fix, BooksOf(s), pid)
  {
    RoomBooks(fix, s, pid);
    PlaceBooks(MakeRoom(fix, s, pid, FreeCount(s)).value, pid, vaddr, val);
  }

  // ----- a table on disk keeps its entries

  /** The table of `pid` is on disk, on a line that has been written. */
  predicate Away(s: State, pid: Pid) {
    s.hardware[pid].inmem == 0 && 0 <= s.hardware[pid].address < |s.swap|
  }

  /** `s'` comes from `s` by evictions: lines were added, and the table is where it was. */
  predicate StillAway(s: State, s': State, pid: Pid) {
    s.swap <= s'.swap && s'.hardware[pid] == s.hardware[pid]
  }

  lemma RemovalAway(s: State, q: int, pid: Pid)
    requires Away(s, pid) && RemovePageTable(s, q).Some?
    ensures StillAway(s, RemovePageTable(s, q).value, pid)
  {
  }

  lemma EvictAway(fix: Repairs, s: State, pid: Pid)
    requires Away(s, pid) && Evict(fix, s, pid).Some?
    ensures StillAway(s, Evict(fix, s, pid).value, pid) && Away(Evict(fix, s, pid).value, pid)
  {
    if !(AllTables(s) && !fix.tablesLast) && NextData(s, s.roundrobin, 4).None? {
      EvictsTable(fix, s, pid);
      RemovalAway(s, s.pages[NextTable(s, pid, s.roundrobin, 4).value], pid);
    }
  }

  lemma RoomAway(fix: Repairs, s: State, pid: Pid, space: int)
    requires Away(s, pid) && MakeRoom(fix, s, pid, space).Some? && (space < 1 ==> FreeCount(s) == 0)
    ensures StillAway(s, MakeRoom(fix, s, pid, space).value, pid)
  {
    if space < 1 {
      OneEviction(fix, s, pid);
      EvictAway(fix, Robin(s), pid);
    }
  }

  lemma SpaceAway(fix: Repairs, s: State, pid: Pid)
    requires Away(s, pid) && FreeSpace(fix, s, 1, pid).Some?
    ensures StillAway(s, FreeSpace(fix, s, 1, pid).value, pid)
  {
    if FreeCount(s) == 0 {
      OneEviction(fix, s, pid);
      EvictAway(fix, Robin(s), pid);
    }
  }

  lemma TableEntry(s: State, s1: State, pid: Pid, v: Pid)
    requires Away(s, pid) && StillAway(s, s1, pid) && LoadPageTable(s1, pid).Some?
    ensures EntryAt(LoadPageTable(s1, pid).value, pid, v) == EntryAt(s, pid, v)
  {
    var s2 := LoadPageTable(s1, pid).value;
    ResidentEntry(s2, pid, v);
    var line := s.hardware[pid].address;
    assert s1.swap[line] == s.swap[line];
  }

  // ----- commands

  lemma OneEmptied(fix: Repairs, b: Books, pid: Pid)
    requires FreeFrames(b) == 0
    ensures FreeFrames(Emptied(fix, b, pid)) <= 1
  {
  }

  /** When its table took the last free frame, a page needs another one emptied. */
  lemma RoomAfterTable(fix: Repairs, s: State, pid: Pid)
    requires MakeRoom(fix, s, pid, FreeCount(s)).Some?
    requires LoadPageTable(MakeRoom(fix, s, pid, FreeCount(s)).value, pid).Some?
    ensures var s2 := LoadPageTable(MakeRoom(fix, s, pid, FreeCount(s)).value, pid).value;
      MakeRoom(fix, s2, pid, FreeCount(s) - 1) == MakeRoom(fix, s2, pid, FreeCount(s2))
  {
    var s1 := MakeRoom(fix, s, pid, FreeCount(s)).value;
    var s2 := LoadPageTable(s1, pid).value;
    FrameTaken(s1, s2, FindFree(s1).value);
    if FreeCount(s) == 0 {
      FreeFramesIs(s);
      FreeFramesIs(s1);
      SpaceBooks(fix, s, 1, pid);
      OneEmptied(fix, BooksOf(s).(hand := Ahead(BooksOf(s), 1)), pid);
    }
  }

  lemma ReviveBooks(fix: Repairs, s: State, pid: Pid, vaddr: Vaddr)
    requires Away(s, pid) && Revive(fix, s, pid, vaddr).Some?
    ensures BooksOf(Revive(fix, s, pid, vaddr).value) ==
      var b1 := TableFetched(fix, BooksOf(s), pid);
      if EntryAt(s, pid, vaddr / 16).valpres == 1 then PageFetched(fix, b1, pid) else b1
  {
    var s1 := MakeRoom(fix, s, pid, FreeCount(s)).value;
    var s2 := LoadPageTable(s1, pid).value;
    ReviveFrom(fix, s, s1, s2, pid, vaddr);
    RoomBooks(fix, s, pid);
    TableBooks(s1, pid);
    RoomAway(fix, s, pid, FreeCount(s));
    TableEntry(s, s1, pid, vaddr / 16);
    if EntryAt(s, pid, vaddr / 16).valpres == 1 {
      RoomAfterTable(fix, s, pid);
      RoomBooks(fix, s2, pid);
      PageBooks(MakeRoom(fix, s2, pid, FreeCount(s2)).value, pid, vaddr);
    }
  }

  lemma LoadHereBooks(s: State, pid: Pid, vaddr: Vaddr, least: int)
    requires LoadHere(s, pid, vaddr, least).Some?
    ensures LoadHere(s, pid, vaddr, least).value.0 == s
  {
  }

  lemma StoreHereBooks(s: State, pid: Pid, vaddr: Vaddr, val: Byte)
    requires StoreHere(s, pid, vaddr, val).Some?
    ensures BooksOf(StoreHere(s, pid, vaddr, val).value.0) == BooksOf(s)
  {
  }

  lemma LoadBooks(fix: Repairs, s: State, pid: Pid, vaddr: Vaddr)
    requires LoadStep(fix, s, pid, vaddr).Some? && (s.hardware[pid].inmem == 0 ==> Away(s, pid))
    ensures BooksOf(LoadStep(fix, s, pid, vaddr).value.0) ==
      Booked(fix, BooksOf(s), Load(pid, vaddr), EntryAt(s, pid, vaddr / 16))
  {
    if Quiet(fix, s, Load(pid, vaddr)) {
      QuietStays(fix, s, Load(pid, vaddr));
    } else if s.hardware[pid].inmem == 0 {
      ReviveBooks(fix, s, pid, vaddr);
      LoadHereBooks(Revive(fix, s, pid, vaddr).value, pid, vaddr, LeastAddress(fix));
    } else {
      ReadValpres(s, pid, vaddr);
      SwapInBooks(fix, s, pid, vaddr);
      LoadHereBooks(SwapIn(fix, s, pid, vaddr).value, pid, vaddr, LeastAddress(fix));
    }
  }

  lemma StoreBooks(fix: Repairs, s: State, pid: Pid, vaddr: Vaddr, val: Byte)
    requires StoreStep(fix, s, pid, vaddr, val).Some? && (s.hardware[pid].inmem == 0 ==> Away(s, pid))
    ensures BooksOf(StoreStep(fix, s, pid, vaddr, val).value.0) ==
      Booked(fix, BooksOf(s), Store(pid, vaddr, val), EntryAt(s, pid, vaddr / 16))
  {
    if Quiet(fix, s, Store(pid, vaddr, val)) {
      QuietStays(fix, s, Store(pid, vaddr, val));
    } else if s.hardware[pid].inmem == 0 {
      ReviveBooks(fix, s, pid, vaddr);
      StoreHereBooks(Revive(fix, s, pid, vaddr).value, pid, vaddr, val);
    } else {
      ReadValpres(s, pid, vaddr);
      SwapInBooks(fix, s, pid, vaddr);
      var s1 := SwapIn(fix, s, pid, vaddr).value;
      if Convert(s1, vaddr, pid) >= 0 {
        StoreHereBooks(s1, pid, vaddr, val);
      }
    }
  }

  lemma TableMadeBooks(fix: Repairs, s: State, pid: Pid, v: Pid)
    requires TableForMap(fix, s, pid).Some? && (s.hardware[pid].inmem == 0 ==> Away(s, pid))
    ensures var s1 := TableForMap(fix, s, pid).value;
      && BooksOf(s1) == TableMade(fix, BooksOf(s), pid)
      && EntryAt(s1, pid, v).valpres == EntryAt(s, pid, v).valpres
  {
    if s.hardware[pid].inmem == 0 {
      SpaceBooks(fix, s, 1, pid);
      var s1 := FreeSpace(fix, s, 1, pid).value;
      TableBooks(s1, pid);
      SpaceAway(fix, s, pid);
      TableEntry(s, s1, pid, v);
    } else if s.hardware[pid].inmem != 1 {
      SpaceBooks(fix, s, 2, pid);
      var s1 := FreeSpace(fix, s, 2, pid).value;
      NewTableBooks(s1, pid);
      NewEntry(s1, pid, FindFree(s1).value, v);
    }
  }

  lemma FreshBytes(mem: seq<Byte>, at: int, v: Pid)
    requires |mem| == 64 && 0 <= at <= 48
    ensures FreshTable(mem, at)[at + 4 * v] == v && FreshTable(mem, at)[at + 4 * v + 3] == 0
  {
    if v == 0 {
    } else if v == 1 {
    } else if v == 2 {
    } else {
    }
  }

  lemma NewEntry(s: State, pid: Pid, f: Pid, v: Pid)
    ensures EntryAt(NewTable(s, pid, f), pid, v).vpn == v && EntryAt(NewTable(s, pid, f), pid, v).valpres == 0
  {
    FreshBytes(s.mem, 16 * f, v);
    ResidentEntry(NewTable(s, pid, f), pid, v);
  }

  lemma MapBooks(fix: Repairs, s: State, pid: Pid, vaddr: Vaddr, val: Byte)
    requires MapStep(fix, s, pid, vaddr, val).Some? && (s.hardware[pid].inmem == 0 ==> Away(s, pid))
    ensures BooksOf(MapStep(fix, s, pid, vaddr, val).value.0) ==
      Booked(fix, BooksOf(s), Map(pid, vaddr, val), EntryAt(s, pid, vaddr / 16))
  {
    TableMadeBooks(fix, s, pid, vaddr / 16);
    var s1 := TableForMap(fix, s, pid).value;
    MapStepParts(fix, s, s1, pid, vaddr, val);
    var valpres := EntryAt(s1, pid, vaddr / 16).valpres;
    if !(valpres == 2 || (fix.mapKeepsPage && valpres == 1)) {
      AllocateBooks(fix, s1, pid, vaddr, val);
    }
  }

  /** Under any repairs, in any state whose table on disk is on a written line: the books
      after a command follow from the books before it and the entry of its page. */
  lemma StepBooks(fix: Repairs, s: State, c: Command)
    requires Step(fix, s, c).Some? && (s.hardware[c.pid].inmem == 0 ==> Away(s, c.pid))
    ensures BooksOf(Step(fix, s, c).value.0) == Booked(fix, BooksOf(s), c, EntryAt(s, c.pid, c.vaddr / 16))
  {
    match c
    case Map(pid, vaddr, val) => MapBooks(fix, s, pid, vaddr, val);
    case Store(pid, vaddr, val) => StoreBooks(fix, s, pid, vaddr, val);
    case Load(pid, vaddr) => LoadBooks(fix, s, pid, vaddr);
  }

  // ----- sessions

  /** Every table on disk is on a line that has been written. */
  predicate Written(b: Books) {
    forall p: Pid | b.hardware[p].inmem == 0 :: 0 <= b.hardware[p].address < b.lines
  }

  lemma EmptiedWritten(fix: Repairs, b: Books, pid: Pid)
    requires Written(b)
    ensures Written(Emptied(fix, b, pid))
  {
  }

  lemma ClearedWritten(fix: Repairs, b: Books, pid: Pid, n: nat)
    requires Written(b)
    ensures Written(Cleared(fix, b, pid, n)) && Written(Roomy(fix, b, pid))
  {
    var h := b.(hand := Ahead(b, 1));
    EmptiedWritten(fix, h, pid);
    EmptiedWritten(fix, Emptied(fix, h, pid), pid);
  }

  lemma FetchedWritten(fix: Repairs, b: Books, pid: Pid)
    requires Written(b)
    ensures Written(TableFetched(fix, b, pid)) && Written(TableMade(fix, b, pid)) && Written(PageFetched(fix, b, pid))
  {
    ClearedWritten(fix, b, pid, 1);
    ClearedWritten(fix, b, pid, 2);
  }

  lemma BookedWritten(fix: Repairs, b: Books, c: Command, e: Entry)
    requires Written(b)
    ensures Written(Booked(fix, b, c, e))
  {
    FetchedWritten(fix, b, c.pid);
    FetchedWritten(fix, TableFetched(fix, b, c.pid), c.pid);
    FetchedWritten(fix, TableMade(fix, b, c.pid), c.pid);
  }

  lemma {:induction false} RunWritten(fix: Repairs, s: State, cs: seq<Command>)
    requires Written(BooksOf(s)) && Run(fix, s, cs).Some?
    ensures Written(BooksOf(Run(fix, s, cs).value.0))
    decreases cs
  {
    if cs != [] {
      StepBooks(fix, s, cs[0]);
      BookedWritten(fix, BooksOf(s), cs[0], EntryAt(s, cs[0].pid, cs[0].vaddr / 16));
      RunWritten(fix, Step(fix, s, cs[0]).value.0, cs[1..]);
    }
  }

  lemma BootBooks()
    ensures BooksOf(Boot()) == Book([1, 1, 1, 1], [-1, -1, -1, -1], [0, 0, 0, 0],
                                    [Hp(0, -1), Hp(0, -1), Hp(0, -1), Hp(0, -1)], 0, 0)
    ensures Written(BooksOf(Boot()))
  {
  }

  /** After any session, under any repairs and however much it has got wrong, the next
      command keeps the books as said. */
  lemma SessionBooks(fix: Repairs, cs: seq<Command>, c: Command)
    requires Run(fix, Boot(), cs).Some? && Step(fix, Run(fix, Boot(), cs).value.0, c).Some?
    ensures var s := Run(fix, Boot(), cs).value.0;
      BooksOf(Step(fix, s, c).value.0) == Booked(fix, BooksOf(s), c, EntryAt(s, c.pid, c.vaddr / 16))
  {
    BootBooks();
    RunWritten(fix, Boot(), cs);
    StepBooks(fix, Run(fix, Boot(), cs).value.0, c);
  }
}
