/** Which frame a page or a page table comes back to, told from the arrays alone
    before anything moves. */
module PagerLanding {
  import opened Options
  import opened PagerModel
  import opened PagerTables
  import opened PagerBytes
  import opened PagerEviction
  import opened PagerCommands

  /** The frame that the next repaired eviction on behalf of `pid` empties. */
  function Victim(s: State, pid: Pid): Option<Pid> {
    match NextData(s, s.roundrobin, 4)
    case Some(f) => Some(f)
    case None => NextTable(s, pid, s.roundrobin, 4)
  }

  /** The frame that the next page or table brought back for `pid` takes. */
  function Taken(s: State, pid: Pid): Option<Pid> {
    if FreeCount(s) > 0 then FindFree(s) else Victim(Robin(s), pid)
  }

  /** The arrays and the hand once the table of `pid` has taken its frame. */
  function TableTaken(s: State, pid: Pid): Option<State> {
    var f :- Taken(s, pid);
    Some(s.(freelist := s.freelist[f := 0], ispagetable := s.ispagetable[f := 1],
            hardware := s.hardware[pid := Hp(16 * f, 1)],
            roundrobin := if FreeCount(s) == 0 then Next(f) else s.roundrobin))
  }

  /** The frame that a page of `pid` on disk comes back to, after the page table of
      `pid` when that is on disk too. */
  function Landing(s: State, pid: Pid): Option<Pid> {
    if s.hardware[pid].inmem == 1 then Taken(s, pid)
    else
      var s1 :- TableTaken(s, pid);
      Taken(s1, pid)
  }

  /** The page of `vaddr` is on disk and will put `vaddr` at physical address 0. */
  predicate LandsOnZero(s: State, pid: Pid, vaddr: Vaddr) {
    EntryAt(s, pid, vaddr / 16).valpres == 1 && vaddr % 16 == 0 && Landing(s, pid) == Some(0)
  }

  // ----- the frame that is taken is that one

  /** What the choice of a frame for `pid` depends on. */
  predicate SameChoice(a: State, b: State, pid: Pid) {
    && a.freelist == b.freelist && a.ispagetable == b.ispagetable
    && a.hardware[pid] == b.hardware[pid] && a.roundrobin == b.roundrobin
  }

  lemma {:induction false} SameSearch(a: State, b: State, pid: Pid, h: Pid, k: nat)
    requires SameChoice(a, b, pid)
    ensures NextData(a, h, k) == NextData(b, h, k) && NextTable(a, pid, h, k) == NextTable(b, pid, h, k)
    decreases k
  {
    if k > 0 {
      SameSearch(a, b, pid, Next(h), k - 1);
    }
  }

  lemma {:induction false} SameFree(a: State, b: State, i: nat)
    requires a.freelist == b.freelist && i <= 4
    ensures FindFree(a, i) == FindFree(b, i)
    decreases 4 - i
  {
    if i < 4 {
      SameFree(a, b, i + 1);
    }
  }

  lemma SameTaken(a: State, b: State, pid: Pid)
    requires SameChoice(a, b, pid)
    ensures Taken(a, pid) == Taken(b, pid) && FreeCount(a) == FreeCount(b)
  {
    SameFree(a, b, 0);
    SameSearch(Robin(a), Robin(b), pid, Next(a.roundrobin), 4);
  }

  lemma OneEviction(fix: Repairs, s: State, pid: Pid)
    requires FreeCount(s) == 0
    ensures FreeSpace(fix, s, 1, pid) == Evict(fix, Robin(s), pid)
  {
    EvictTimesStep(fix, Robin(s), pid, 1);
  }

  lemma EvictTwice(fix: Repairs, s: State, pid: Pid, k: nat)
    requires k == 2
    ensures EvictTimes(fix, s, pid, k) ==
      match Evict(fix, s, pid) case Some(s1) => Evict(fix, s1, pid) case None => None
  {
    EvictTimesStep(fix, s, pid, k - 1);
    if Evict(fix, s, pid).Some? {
      EvictTimesStep(fix, s, pid, k);
    }
  }

  lemma SpaceIs(fix: Repairs, s: State, n: nat, pid: Pid, k: nat)
    requires k == Shortage(s, n)
    ensures FreeSpace(fix, s, n, pid) == EvictTimes(fix, Robin(s), pid, k)
  {
  }

  lemma TwoEvictions(fix: Repairs, s: State, pid: Pid)
    requires FreeCount(s) == 0
    ensures FreeSpace(fix, s, 2, pid) ==
      match Evict(fix, Robin(s), pid) case Some(s1) => Evict(fix, s1, pid) case None => None
  {
    var k := Shortage(s, 2);
    SpaceIs(fix, s, 2, pid, k);
    EvictTwice(fix, Robin(s), pid, k);
  }

  lemma OnlyFree(s: State, s1: State, f: Pid)
    requires FreeCount(s) == 0 && s1.freelist == s.freelist[f := 1]
    ensures FindFree(s1) == Some(f)
  {
  }

  /** A repaired eviction empties the victim. */
  lemma VictimFreed(s: State, pid: Pid, s1: State)
    requires Valid(s) && Evict(REPAIRED, s, pid) == Some(s1)
    ensures Victim(s, pid).Some?
    ensures var f := Victim(s, pid).value;
      && s1.freelist == s.freelist[f := 1] && s1.roundrobin == Next(f)
      && s1.ispagetable[f := 1] == s.ispagetable[f := 1]
  {
    NextDataFinds(s, s.roundrobin, 4);
    if NextData(s, s.roundrobin, 4).None? {
      NextTableFinds(s, pid, s.roundrobin, 4);
      TableFreed(s, pid, s1, Victim(s, pid).value);
    } else {
      PageFreed(s, pid, s1, Victim(s, pid).value);
    }
  }

  lemma PageFreed(s: State, pid: Pid, s1: State, f: Pid)
    requires NextData(s, s.roundrobin, 4) == Some(f) && IsData(s, f) && Evict(REPAIRED, s, pid) == Some(s1)
    ensures s1.freelist == s.freelist[f := 1] && s1.roundrobin == Next(f) && s1.ispagetable == s.ispagetable
  {
  }

  lemma TableFreed(s: State, pid: Pid, s1: State, f: Pid)
    requires Valid(s) && NextData(s, s.roundrobin, 4).None? && NextTable(s, pid, s.roundrobin, 4) == Some(f)
    requires IsTable(s, f) && Evict(REPAIRED, s, pid) == Some(s1)
    ensures s1.freelist == s.freelist[f := 1] && s1.roundrobin == Next(f) && s1.ispagetable == s.ispagetable[f := 0]
  {
    assert FrameOk(ViewOf(s), f);
    RemovedTable(s, s.pages[f], f);
  }

  lemma RoomFreed(s: State, pid: Pid, s1: State)
    requires Valid(s) && MakeRoom(REPAIRED, s, pid, FreeCount(s)) == Some(s1)
    ensures Taken(s, pid).Some? && FindFree(s1) == Taken(s, pid)
    ensures var f := Taken(s, pid).value;
      && s1.freelist[f := 0] == s.freelist[f := 0]
      && s1.ispagetable[f := 1] == s.ispagetable[f := 1]
      && s1.roundrobin == (if FreeCount(s) == 0 then Next(f) else s.roundrobin)
  {
    if FreeCount(s) == 0 {
      HandMoves(s, Robin(s));
      OneEviction(REPAIRED, s, pid);
      VictimFreed(Robin(s), pid, s1);
      OnlyFree(s, s1, Taken(s, pid).value);
    }
  }

  lemma TableBackTakes(s: State, pid: Pid, s1: State, s2: State)
    requires Valid(s) && MakeRoom(REPAIRED, s, pid, FreeCount(s)) == Some(s1) && LoadPageTable(s1, pid) == Some(s2)
    ensures TableTaken(s, pid).Some? && SameChoice(s2, TableTaken(s, pid).value, pid)
  {
    RoomFreed(s, pid, s1);
  }

  lemma LoadedAt(x: State, pid: Pid, vaddr: Vaddr)
    requires LoadPage(x, pid, vaddr).Some?
    ensures FindFree(x).Some?
    ensures var e := EntryAt(LoadPage(x, pid, vaddr).value, pid, vaddr / 16);
      e.pfn == 16 * FindFree(x).value && e.valpres == 2
  {
    ResidentEntry(LoadPage(x, pid, vaddr).value, pid, vaddr / 16);
  }

  lemma SwapInLands(s: State, pid: Pid, vaddr: Vaddr)
    requires Valid(s) && SwapIn(REPAIRED, s, pid, vaddr).Some?
    ensures Taken(s, pid).Some?
    ensures var e := EntryAt(SwapIn(REPAIRED, s, pid, vaddr).value, pid, vaddr / 16);
      e.pfn == 16 * Taken(s, pid).value && e.valpres == 2
  {
    var s1 := MakeRoom(REPAIRED, s, pid, FreeCount(s)).value;
    RoomFreed(s, pid, s1);
    LoadedAt(s1, pid, vaddr);
  }

  /** The page that follows its table: fewer frames are free by one, none going below
      zero, so room for it is made exactly when the table left no frame. */
  lemma ReviveLands(s: State, pid: Pid, vaddr: Vaddr)
    requires Valid(s) && s.hardware[pid].inmem == 0 && Numbered(s, Load(pid, vaddr))
    requires EntryAt(s, pid, vaddr / 16).valpres == 1
    ensures Landing(s, pid).Some? && Revive(REPAIRED, s, pid, vaddr).Some?
    ensures var e := EntryAt(Revive(REPAIRED, s, pid, vaddr).value, pid, vaddr / 16);
      e.pfn == 16 * Landing(s, pid).value && e.valpres == 2
  {
    TableBack(s, pid, vaddr / 16);
    ReviveBrings(s, pid, vaddr);
    var s1 := MakeRoom(REPAIRED, s, pid, FreeCount(s)).value;
    var s2 := LoadPageTable(s1, pid).value;
    ReviveFrom(REPAIRED, s, s1, s2, pid, vaddr);
    TableBackTakes(s, pid, s1, s2);
    SameTaken(s2, TableTaken(s, pid).value, pid);
    assert MakeRoom(REPAIRED, s2, pid, FreeCount(s) - 1) == MakeRoom(REPAIRED, s2, pid, FreeCount(s2));
    SwapInLands(s2, pid, vaddr);
  }

  lemma AtZero(x: State, pid: Pid, vaddr: Vaddr, f: Pid)
    requires Resident(x, pid) && EntryAt(x, pid, vaddr / 16).pfn == 16 * f && EntryAt(x, pid, vaddr / 16).valpres == 2
    ensures Convert(x, vaddr, pid) == 0 <==> f == 0 && vaddr % 16 == 0
  {
    ConvertFinds(x, pid, vaddr);
  }

  /** A load that brings its page back with the page table in memory reads address 0
      exactly when the page lands there. */
  lemma SwapInAtZero(s: State, pid: Pid, vaddr: Vaddr)
    requires Valid(s) && Resident(s, pid) && EntryAt(s, pid, vaddr / 16).valpres == 1
    requires Numbers(s, Shortage(s, 1))
    ensures SwapIn(REPAIRED, s, pid, vaddr).Some?
    ensures Convert(SwapIn(REPAIRED, s, pid, vaddr).value, vaddr, pid) == 0 <==> LandsOnZero(s, pid, vaddr)
  {
    SwapInBrings(s, pid, vaddr);
    SwapInLands(s, pid, vaddr);
    AtZero(SwapIn(REPAIRED, s, pid, vaddr).value, pid, vaddr, Taken(s, pid).value);
  }

  lemma ReviveAtZero(s: State, pid: Pid, vaddr: Vaddr)
    requires Valid(s) && s.hardware[pid].inmem == 0 && Numbered(s, Load(pid, vaddr))
    ensures Revive(REPAIRED, s, pid, vaddr).Some?
    ensures Convert(Revive(REPAIRED, s, pid, vaddr).value, vaddr, pid) == 0 <==> LandsOnZero(s, pid, vaddr)
  {
    ReviveBrings(s, pid, vaddr);
    var r := Revive(REPAIRED, s, pid, vaddr).value;
    if EntryAt(s, pid, vaddr / 16).valpres == 1 {
      ReviveLands(s, pid, vaddr);
      AtZero(r, pid, vaddr, Landing(s, pid).value);
    } else {
      ReviveWithoutPage(s, pid, vaddr);
      ConvertFinds(r, pid, vaddr);
    }
  }

  lemma ReviveWithoutPage(s: State, pid: Pid, vaddr: Vaddr)
    requires Valid(s) && s.hardware[pid].inmem == 0 && Numbered(s, Load(pid, vaddr))
    requires EntryAt(s, pid, vaddr / 16).valpres != 1
    ensures Revive(REPAIRED, s, pid, vaddr).Some?
    ensures EntryAt(Revive(REPAIRED, s, pid, vaddr).value, pid, vaddr / 16).valpres == 0
  {
    TableBack(s, pid, vaddr / 16);
    OnDiskNotInMemory(s, pid, vaddr / 16);
    ValpresAtMostTwo(s, pid, vaddr / 16);
    var s1 := MakeRoom(REPAIRED, s, pid, FreeCount(s)).value;
    ReviveFrom(REPAIRED, s, s1, LoadPageTable(s1, pid).value, pid, vaddr);
  }

  lemma LoadHereZero(s: State, pid: Pid, vaddr: Vaddr)
    requires Convert(s, vaddr, pid) < 64
    ensures LoadHere(s, pid, vaddr, 1) ==
      if Convert(s, vaddr, pid) == 0 then Some((s, NoValue)) else LoadHere(s, pid, vaddr, 0)
  {
  }

  /** What is read once the page is back in `s1`, with and without address 0. */
  lemma ReadAfter(s1: State, pid: Pid, vaddr: Vaddr)
    requires Valid(s1) && Resident(s1, pid) && EntryAt(s1, pid, vaddr / 16).valpres != 1
    ensures LoadHere(s1, pid, vaddr, 0) == Some((s1, FlatLoad(Seen(s1, pid, vaddr), vaddr)))
    ensures LoadHere(s1, pid, vaddr, 1) ==
      if Convert(s1, vaddr, pid) == 0 then Some((s1, NoValue)) else LoadHere(s1, pid, vaddr, 0)
    ensures Convert(s1, vaddr, pid) == 0 ==> FlatLoad(Seen(s1, pid, vaddr), vaddr) != NoValue
  {
    LoadHereReads(s1, pid, vaddr);
    SeenHere(s1, pid, vaddr);
    ConvertFinds(s1, pid, vaddr);
    LoadHereZero(s1, pid, vaddr);
  }
}
