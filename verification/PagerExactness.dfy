/** Exactly which commands the code as written gets right: coherent bookkeeping, the
    answer that flat memory gives, and for every process the pages it has there. */
module PagerExactness {
  import opened Options
  import opened PagerModel
  import opened PagerTables
  import opened PagerBytes
  import opened PagerEviction
  import opened PagerCommands
  import opened PagerTransparency
  import opened PagerPhases
  import opened PagerAsWritten
  import opened PagerLanding
  import opened PagerSoundness
  import opened PagerStray
  import opened PagerCrossing
  import opened PagerSpoils
  import opened PagerDepartures

  // ----- right, and harmless

  /** The command is carried out as on flat memory, whatever happens underneath. */
  ghost predicate Right(s: State, c: Command) {
    var r := Step(AS_WRITTEN, s, c);
    && r.Some? && Valid(r.value.0)
    && (Contents(r.value.0), r.value.1) == FlatStep(Contents(s), c)
  }

  /** A table on disk and its page come back with sound evictions, or with two that
      cross. */
  ghost predicate ReviveHarmless(s: State, pid: Pid, vaddr: Vaddr) {
    ReviveSound(s, pid, vaddr) || (EntryAt(s, pid, vaddr / 16).valpres == 1 && BackCrossed(Robin(s), pid))
  }

  /** A load: of a page that was allocated, with harmless evictions if something comes
      back from disk, and not from physical address 0 then. */
  ghost predicate LoadHarmless(s: State, pid: Pid, vaddr: Vaddr) {
    if s.hardware[pid].inmem == 1 then
      match EntryAt(s, pid, vaddr / 16).valpres
      case 0 => false
      case 1 => RoomSound(s, pid, FreeCount(s)) && !LandsOnZero(s, pid, vaddr)
      case _ => true
    else if s.hardware[pid].inmem == 0 then
      ReviveHarmless(s, pid, vaddr) && !LandsOnZero(s, pid, vaddr)
    else true
  }

  /** A store: with harmless evictions if the table comes back; if the table is in
      memory and the page on disk and writeable, with a harmless stray byte. */
  ghost predicate StoreHarmless(s: State, pid: Pid, vaddr: Vaddr, val: Byte) {
    var e := EntryAt(s, pid, vaddr / 16);
    if s.hardware[pid].inmem == 1 then e.valpres == 1 && e.prot == 1 ==> StrayHarmless(s, pid, vaddr, val)
    else if s.hardware[pid].inmem == 0 then ReviveHarmless(s, pid, vaddr)
    else true
  }

  /** Sound evictions for the table and for the page that `map` places. */
  ghost predicate MapRoomSound(s: State, pid: Pid, vaddr: Vaddr) {
    && (s.hardware[pid].inmem == 0 ==> SpaceSound(s, 1, pid))
    && (!(0 <= s.hardware[pid].inmem <= 1) ==> SpaceSound(s, 2, pid))
    && var s1 := TableForMap(REPAIRED, s, pid);
       s1.Some? && EntryAt(s1.value, pid, vaddr / 16).valpres != 2 ==> RoomSound(s1.value, pid, FreeCount(s1.value))
  }

  /** The two evictions that `map` makes cross. */
  predicate MapCrossed(s: State, pid: Pid) {
    if s.hardware[pid].inmem == 1 then false
    else if s.hardware[pid].inmem == 0 then BackCrossed(Robin(s), pid)
    else NewCrossed(Robin(s))
  }

  /** The swap line of a page on disk holds zeros, as a page mapped anew does. */
  predicate DiskZero(s: State, pid: Pid, vaddr: Vaddr) {
    var e := EntryAt(s, pid, vaddr / 16);
    e.valpres == 1 ==> e.pfn < |s.swap| && s.swap[e.pfn] == ZERO_PAGE
  }

  /** A map: of a page on disk only when that is all zeros; with harmless evictions. */
  ghost predicate MapHarmless(s: State, pid: Pid, vaddr: Vaddr) {
    && DiskZero(s, pid, vaddr)
    && (MapRoomSound(s, pid, vaddr) || MapCrossed(s, pid))
  }

  ghost predicate Harmless(s: State, c: Command) {
    match c
    case Map(pid, vaddr, _) => MapHarmless(s, pid, vaddr)
    case Store(pid, vaddr, val) => StoreHarmless(s, pid, vaddr, val)
    case Load(pid, vaddr) => LoadHarmless(s, pid, vaddr)
  }

  // ----- what being right shows

  /** What the page of `vaddr` should be after `c`, and the answer. */
  function Meant(s: State, c: Command): (FlatPage, Output) {
    match c
    case Map(pid, vaddr, val) => (FlatMap(Seen(s, pid, vaddr), val), MapDone)
    case Store(pid, vaddr, val) => FlatStore(Seen(s, pid, vaddr), vaddr, val)
    case Load(pid, vaddr) => (Seen(s, pid, vaddr), FlatLoad(Seen(s, pid, vaddr), vaddr))
  }

  lemma FlatStepIs(s: State, c: Command)
    ensures FlatStep(Contents(s), c) == (Contents(s)[PageIndex(c.pid, c.vaddr) := Meant(s, c).0], Meant(s, c).1)
  {
    ContentsAt(s, c.pid, c.vaddr);
    var m, i := Contents(s), PageIndex(c.pid, c.vaddr);
    assert m[i := m[i]] == m;
  }

  lemma ContentAt(s: State, p: Pid, w: Pid)
    ensures Contents(s)[4 * p + w] == PageOf(ViewOf(s), p, w)
  {
    assert (4 * p + w) / 4 == p && (4 * p + w) % 4 == w;
  }

  lemma SamePlace(p: Pid, w: Pid, pid: Pid, vaddr: Vaddr)
    ensures PageIndex(pid, vaddr) == 4 * p + w <==> p == pid && w == vaddr / 16
  {
  }

  lemma ContentsShow(s: State, s': State, pid: Pid, vaddr: Vaddr, page: FlatPage)
    ensures Contents(s') == Contents(s)[PageIndex(pid, vaddr) := page]
      <==> OnePage(ViewOf(s), ViewOf(s'), pid, vaddr / 16, page)
  {
    if OnePage(ViewOf(s), ViewOf(s'), pid, vaddr / 16, page) {
      ContentsMade(s, s', pid, vaddr, page);
    }
    if Contents(s') == Contents(s)[PageIndex(pid, vaddr) := page] {
      forall p: Pid, w: Pid
        ensures PageOf(ViewOf(s'), p, w) == if p == pid && w == vaddr / 16 then page else PageOf(ViewOf(s), p, w)
      {
        ContentAt(s, p, w);
        ContentAt(s', p, w);
        SamePlace(p, w, pid, vaddr);
      }
    }
  }

  lemma RightIs(s: State, c: Command)
    ensures Right(s, c) <==>
      && Step(AS_WRITTEN, s, c).Some? && Step(AS_WRITTEN, s, c).value.1 == Meant(s, c).1
      && Shows(ViewOf(s), ViewOf(Step(AS_WRITTEN, s, c).value.0), c.pid, c.vaddr / 16, Meant(s, c).0)
  {
    FlatStepIs(s, c);
    if Step(AS_WRITTEN, s, c).Some? {
      ContentsShow(s, Step(AS_WRITTEN, s, c).value.0, c.pid, c.vaddr, Meant(s, c).0);
    }
  }

  lemma RightShows(s: State, c: Command)
    requires Right(s, c)
    ensures Step(AS_WRITTEN, s, c).Some? && OthersSame(s, Step(AS_WRITTEN, s, c).value.0, c.pid)
    ensures Seen(Step(AS_WRITTEN, s, c).value.0, c.pid, c.vaddr) == Meant(s, c).0
    ensures Step(AS_WRITTEN, s, c).value.1 == Meant(s, c).1
  {
    RightIs(s, c);
  }

  /** Right, and within the limits that every command keeps to. */
  ghost predicate Kept(s: State, c: Command) {
    var r := Step(AS_WRITTEN, s, c);
    r.Some? && Makes(s, r.value.0, c.pid, c.vaddr, Meant(s, c).0, 2) && r.value.1 == Meant(s, c).1
  }

  lemma KeptIsRight(s: State, c: Command)
    requires Kept(s, c)
    ensures Right(s, c)
  {
    RightIs(s, c);
  }

  // ----- a page table that comes back

  /** The page lands where it would have. */
  lemma CrossedLands(s: State, pid: Pid, q: Pid, v: Pid, f: Pid, u: Pid, g: Pid)
    requires BackCrossedBy(Robin(s), pid, q, v, f, u, g)
    ensures Landing(s, pid) == Some(g)
  {
    var h := Robin(s);
    assert Taken(s, pid) == Some(f);
    var t := TableTaken(s, pid).value;
    SearchLike(h.(ispagetable := h.ispagetable[f := 1]), Robin(t), Next(Next(f)), 4);
  }

  /** What `Revive` and `Map` do for a table on disk when the evictions cross: the table
      is back in `a2`, room is made in `a3`. */
  lemma CrossedBack(s: State, pid: Pid) returns (a1: State, a2: State, a3: State, g: Pid)
    requires Valid(s) && |s.swap| + 2 <= 256 && BackCrossed(Robin(s), pid)
    ensures s.hardware[pid].inmem == 0 && FreeCount(s) == 0 && Landing(s, pid) == Some(g)
    ensures FreeSpace(AS_WRITTEN, s, 1, pid) == Some(a1) && LoadPageTable(a1, pid) == Some(a2)
    ensures FreeCount(a2) == 0 && Resident(a2, pid) && forall w: Pid :: EntryAt(a2, pid, w) == EntryAt(s, pid, w)
    ensures FreeSpace(AS_WRITTEN, a2, 1, pid) == Some(a3) && TableReady(s, a3, pid, g)
  {
    var h := Robin(s);
    var q: Pid, v: Pid, f: Pid, u: Pid, g': Pid :| BackCrossedBy(h, pid, q, v, f, u, g');
    g := g';
    HandMoves(s, h);
    BackCrossing(h, pid, q, v, f, u, g);
    CrossedLands(s, pid, q, v, f, u, g);
    OneEviction(AS_WRITTEN, s, pid);
    a1 := Evict(AS_WRITTEN, h, pid).value;
    a2 := LoadPageTable(a1, pid).value;
    OneEviction(AS_WRITTEN, a2, pid);
    a3 := Evict(AS_WRITTEN, Robin(a2), pid).value;
    ReadyFromHand(s, h, a3, pid, g);
    forall w: Pid ensures EntryAt(a2, pid, w) == EntryAt(s, pid, w) {
      assert EntryAt(h, pid, w) == EntryAt(s, pid, w);
    }
  }

  lemma ReadyFromHand(s: State, h: State, a: State, pid: Pid, g: Pid)
    requires h == Robin(s) && TableReady(h, a, pid, g)
    ensures TableReady(s, a, pid, g)
  {
    HandMoves(s, h);
    forall w: Pid ensures EntryAt(a, pid, w) == EntryAt(s, pid, w) {
      assert EntryAt(h, pid, w) == EntryAt(s, pid, w);
    }
  }

  /** The table of `pid` is back, its page too if that was on disk, and landed where it
      should. */
  ghost predicate Back(s: State, x: State, pid: Pid, vaddr: Vaddr) {
    && Brings(s, x, 2) && Resident(x, pid) && EntryAt(x, pid, vaddr / 16).valpres != 1
    && (Convert(x, vaddr, pid) == 0 <==> LandsOnZero(s, pid, vaddr))
  }

  lemma CrossedRevives(s: State, pid: Pid, vaddr: Vaddr)
    requires Valid(s) && |s.swap| + 2 <= 256 && BackCrossed(Robin(s), pid)
    requires EntryAt(s, pid, vaddr / 16).valpres == 1
    ensures Revive(AS_WRITTEN, s, pid, vaddr).Some? && Back(s, Revive(AS_WRITTEN, s, pid, vaddr).value, pid, vaddr)
  {
    var a1, a2, a3, g := CrossedBack(s, pid);
    ReviveFrom(AS_WRITTEN, s, a1, a2, pid, vaddr);
    assert MakeRoom(AS_WRITTEN, a2, pid, FreeCount(s) - 1) == Some(a3);
    LoadPageBrings(a3, pid, vaddr);
    LoadedAt(a3, pid, vaddr);
    var x := LoadPage(a3, pid, vaddr).value;
    SameTwice(s, a3, x);
    AtZero(x, pid, vaddr, g);
  }

  lemma HarmlessRevives(s: State, pid: Pid, vaddr: Vaddr)
    requires Valid(s) && |s.swap| + 2 <= 256 && s.hardware[pid].inmem == 0 && ReviveHarmless(s, pid, vaddr)
    ensures Revive(AS_WRITTEN, s, pid, vaddr).Some? && Back(s, Revive(AS_WRITTEN, s, pid, vaddr).value, pid, vaddr)
  {
    if ReviveSound(s, pid, vaddr) {
      ReviveAgrees(s, pid, vaddr);
      ReviveBrings(s, pid, vaddr);
      ReviveAtZero(s, pid, vaddr);
    } else {
      CrossedRevives(s, pid, vaddr);
    }
  }

  /** The first eviction goes wrong, and the second does not cross with it. */
  lemma FirstRoomWrong(s: State, pid: Pid, vaddr: Vaddr)
    requires Valid(s) && |s.swap| + 2 <= 256 && s.hardware[pid].inmem == 0 && !SpaceSound(s, 1, pid)
    requires EntryAt(s, pid, vaddr / 16).valpres == 1 ==> !BackCrossed(Robin(s), pid)
    requires Revive(AS_WRITTEN, s, pid, vaddr).Some?
    ensures Wrecked(s, Revive(AS_WRITTEN, s, pid, vaddr).value, pid, vaddr)
  {
    SpaceUnsound(s, pid);
    OneEviction(AS_WRITTEN, s, pid);
    var h := Robin(s);
    HandMoves(s, h);
    var a := Evict(AS_WRITTEN, h, pid).value;
    var q, v, f, at := BackFirst(h, pid, a);
    var a2 := LoadPageTable(a, pid).value;
    assert EntryAt(a2, pid, vaddr / 16) == EntryAt(s, pid, vaddr / 16);
    ReviveFrom(AS_WRITTEN, s, a, a2, pid, vaddr);
    if EntryAt(a2, pid, vaddr / 16).valpres == 1 {
      SecondRoomWrong(s, h, pid, vaddr, a, a2);
    } else {
      OnDiskNotInMemory(s, pid, vaddr / 16);
      EntryHere(s, pid, vaddr / 16);
      SameDamage(s, h, a2, pid, q, v);
      HarmedWrecked(s, a2, pid, vaddr, q, v);
    }
  }

  lemma SecondRoomWrong(s: State, h: State, pid: Pid, vaddr: Vaddr, a: State, a2: State)
    requires Valid(h) && SamePages(ViewOf(s), ViewOf(h)) && |h.swap| + 2 <= 256 && FreeCount(h) == 0
    requires h.hardware[pid].inmem == 0 && !EvictSound(h, pid) && !BackCrossed(h, pid)
    requires Evict(AS_WRITTEN, h, pid) == Some(a) && LoadPageTable(a, pid) == Some(a2) && FreeCount(a2) == 0
    requires FreeSpace(AS_WRITTEN, a2, 1, pid).Some? && LoadPage(FreeSpace(AS_WRITTEN, a2, 1, pid).value, pid, vaddr).Some?
    ensures Wrecked(s, LoadPage(FreeSpace(AS_WRITTEN, a2, 1, pid).value, pid, vaddr).value, pid, vaddr)
  {
    OneEviction(AS_WRITTEN, a2, pid);
    var b := FreeSpace(AS_WRITTEN, a2, 1, pid).value;
    BackSecond(h, pid, a, b);
    RuinedToo(s, h, b, pid);
    LoadPagePlaces(b, pid, vaddr);
    RuinedPlaced(s, b, LoadPage(b, pid, vaddr).value, pid, vaddr, FindFree(b).value);
  }

  lemma RuinedToo(s: State, h: State, x: State, pid: Pid)
    requires SamePages(ViewOf(s), ViewOf(h)) && RoomRuined(h, x, pid)
    ensures RoomRuined(s, x, pid)
  {
    if Harmed(h, x, pid) {
      HarmedToo(s, h, x, pid);
    }
  }

  /** What is unsound is the room for the page, its table being back as it should. */
  lemma LateRoomUnsound(s: State, pid: Pid, vaddr: Vaddr, s1: State, s2: State)
    requires RoomSound(s, pid, FreeCount(s)) && !ReviveSound(s, pid, vaddr)
    requires MakeRoom(REPAIRED, s, pid, FreeCount(s)) == Some(s1) && LoadPageTable(s1, pid) == Some(s2)
    ensures EntryAt(s2, pid, vaddr / 16).valpres == 1 && FreeCount(s) <= 1 && !SpaceSound(s2, 1, pid)
  {
  }

  lemma LateInvalid(s: State, t: State, pid: Pid, vaddr: Vaddr, b: State, x: State)
    requires Valid(t) && EntryAt(t, pid, vaddr / 16).valpres != 2 && !SpaceSound(t, 1, pid)
    requires FreeSpace(AS_WRITTEN, t, 1, pid) == Some(b) && LoadPage(b, pid, vaddr) == Some(x)
    ensures !OthersSame(s, x, pid)
  {
    LoadPagePlaces(b, pid, vaddr);
    ResidentInvalid(t, pid, vaddr, b, x, FindFree(b).value);
  }

  /** The table, in frame `f`, has just taken the last one freed. */
  lemma LateWrecked(s: State, t: State, pid: Pid, vaddr: Vaddr, b: State, x: State, f: Pid)
    requires Valid(t) && SamePages(ViewOf(s), ViewOf(t)) && NoneInMemory(t, pid) && !SpaceSound(t, 1, pid)
    requires t.hardware[pid] == Hp(16 * f, 1) && t.roundrobin == Next(f)
    requires FreeSpace(AS_WRITTEN, t, 1, pid) == Some(b) && LoadPage(b, pid, vaddr) == Some(x)
    ensures Wrecked(s, x, pid, vaddr)
  {
    OneRuins(s, t, pid, b);
    if AllTables(t) {
      assert FullBeside(b, pid, Next(t.roundrobin));
    }
    LoadPagePlaces(b, pid, vaddr);
    RuinedPlaced(s, b, x, pid, vaddr, FindFree(b).value);
  }

  lemma LateRoomWrong(s: State, pid: Pid, vaddr: Vaddr)
    requires Valid(s) && |s.swap| + 2 <= 256 && s.hardware[pid].inmem == 0 && Revive(AS_WRITTEN, s, pid, vaddr).Some?
    requires RoomSound(s, pid, FreeCount(s)) && !ReviveSound(s, pid, vaddr)
    ensures !OthersSame(s, Revive(AS_WRITTEN, s, pid, vaddr).value, pid)
    ensures FreeCount(s) == 0 ==> Wrecked(s, Revive(AS_WRITTEN, s, pid, vaddr).value, pid, vaddr)
  {
    RoomAgrees(s, pid, FreeCount(s));
    TableBack(s, pid, vaddr / 16);
    var s1 := MakeRoom(REPAIRED, s, pid, FreeCount(s)).value;
    var s2 := LoadPageTable(s1, pid).value;
    LateRoomUnsound(s, pid, vaddr, s1, s2);
    ReviveFrom(AS_WRITTEN, s, s1, s2, pid, vaddr);
    var b := FreeSpace(AS_WRITTEN, s2, 1, pid).value;
    var x := LoadPage(b, pid, vaddr).value;
    LateInvalid(s, s2, pid, vaddr, b, x);
    if FreeCount(s) == 0 {
      NoneBack(s, pid, s1, s2);
      TableBackTakes(s, pid, s1, s2);
      LateWrecked(s, s2, pid, vaddr, b, x, Taken(s, pid).value);
    }
  }

  /** A table that was on disk comes back with no page in memory. */
  lemma NoneBack(s: State, pid: Pid, s1: State, s2: State)
    requires Valid(s) && s.hardware[pid].inmem == 0 && |s.swap| < 256
    requires MakeRoom(REPAIRED, s, pid, FreeCount(s)) == Some(s1) && LoadPageTable(s1, pid) == Some(s2)
    ensures NoneInMemory(s2, pid)
  {
    forall w: Pid ensures EntryAt(s2, pid, w).valpres != 2 {
      TableBack(s, pid, w);
      OnDiskNotInMemory(s, pid, w);
    }
  }

  lemma ReviveWrong(s: State, pid: Pid, vaddr: Vaddr)
    requires Valid(s) && |s.swap| + 2 <= 256 && s.hardware[pid].inmem == 0 && !ReviveHarmless(s, pid, vaddr)
    requires Revive(AS_WRITTEN, s, pid, vaddr).Some?
    ensures !OthersSame(s, Revive(AS_WRITTEN, s, pid, vaddr).value, pid)
    ensures FreeCount(s) != 1 ==> Wrecked(s, Revive(AS_WRITTEN, s, pid, vaddr).value, pid, vaddr)
  {
    if RoomSound(s, pid, FreeCount(s)) {
      LateRoomWrong(s, pid, vaddr);
      if FreeCount(s) != 0 {
        LateFew(s, pid, vaddr);
      }
    } else {
      FirstRoomWrong(s, pid, vaddr);
      WreckedShows(s, Revive(AS_WRITTEN, s, pid, vaddr).value, pid, vaddr);
    }
  }

  lemma LateFew(s: State, pid: Pid, vaddr: Vaddr)
    requires Valid(s) && |s.swap| + 2 <= 256 && s.hardware[pid].inmem == 0
    requires RoomSound(s, pid, FreeCount(s)) && !ReviveSound(s, pid, vaddr)
    ensures FreeCount(s) <= 1
  {
    TableBack(s, pid, vaddr / 16);
    var s1 := MakeRoom(REPAIRED, s, pid, FreeCount(s)).value;
    LateRoomUnsound(s, pid, vaddr, s1, LoadPageTable(s1, pid).value);
  }

  // ----- load

  lemma LoadRevived(s: State, pid: Pid, vaddr: Vaddr)
    requires s.hardware[pid].inmem == 0
    ensures LoadStep(AS_WRITTEN, s, pid, vaddr) ==
      match Revive(AS_WRITTEN, s, pid, vaddr)
      case Some(x) => LoadHere(x, pid, vaddr, 1)
      case None => None
  {
  }

  lemma LoadSwapped(s: State, pid: Pid, vaddr: Vaddr)
    requires Resident(s, pid) && EntryAt(s, pid, vaddr / 16).valpres == 1
    ensures LoadStep(AS_WRITTEN, s, pid, vaddr) ==
      match SwapIn(AS_WRITTEN, s, pid, vaddr)
      case Some(x) => LoadHere(x, pid, vaddr, 1)
      case None => None
  {
    ReadValpres(s, pid, vaddr);
  }

  lemma LoadHereState(x: State, pid: Pid, vaddr: Vaddr, least: int)
    ensures LoadHere(x, pid, vaddr, least).Some? ==> LoadHere(x, pid, vaddr, least).value.0 == x
  {
  }

  /** A load once its page is back, which must not be at address 0. */
  lemma LoadAfter(s: State, x: State, pid: Pid, vaddr: Vaddr)
    requires Back(s, x, pid, vaddr) && LoadStep(AS_WRITTEN, s, pid, vaddr) == LoadHere(x, pid, vaddr, 1)
    ensures LandsOnZero(s, pid, vaddr) ==> !Right(s, Load(pid, vaddr))
    ensures !LandsOnZero(s, pid, vaddr) ==> Kept(s, Load(pid, vaddr))
  {
    ReadAfter(x, pid, vaddr);
    assert Seen(x, pid, vaddr) == Seen(s, pid, vaddr);
    if LandsOnZero(s, pid, vaddr) {
      if Right(s, Load(pid, vaddr)) {
        RightShows(s, Load(pid, vaddr));
      }
    } else {
      BringsIsMakes(s, x, pid, vaddr);
    }
  }

  lemma BringsIsMakes(s: State, x: State, pid: Pid, vaddr: Vaddr)
    requires Brings(s, x, 2)
    ensures Makes(s, x, pid, vaddr, Seen(s, pid, vaddr), 2)
  {
    forall p: Pid, w: Pid
      ensures PageOf(ViewOf(x), p, w) == if p == pid && w == vaddr / 16 then Seen(s, pid, vaddr) else PageOf(ViewOf(s), p, w)
    {
      assert PageOf(ViewOf(x), p, w) == PageOf(ViewOf(s), p, w);
    }
  }

  lemma WrongState(s: State, c: Command)
    requires Step(AS_WRITTEN, s, c).Some? ==> !OthersSame(s, Step(AS_WRITTEN, s, c).value.0, c.pid)
    ensures !Right(s, c)
  {
    if Right(s, c) {
      RightShows(s, c);
    }
  }

  lemma LoadRevivedExact(s: State, pid: Pid, vaddr: Vaddr)
    requires Valid(s) && |s.swap| + 2 <= 256 && s.hardware[pid].inmem == 0
    ensures Right(s, Load(pid, vaddr)) ==> LoadHarmless(s, pid, vaddr)
    ensures LoadHarmless(s, pid, vaddr) ==> Kept(s, Load(pid, vaddr))
  {
    LoadRevived(s, pid, vaddr);
    if ReviveHarmless(s, pid, vaddr) {
      HarmlessRevives(s, pid, vaddr);
      LoadAfter(s, Revive(AS_WRITTEN, s, pid, vaddr).value, pid, vaddr);
    } else {
      if Revive(AS_WRITTEN, s, pid, vaddr).Some? {
        ReviveWrong(s, pid, vaddr);
        LoadHereState(Revive(AS_WRITTEN, s, pid, vaddr).value, pid, vaddr, 1);
      }
      WrongState(s, Load(pid, vaddr));
    }
  }

  lemma SwapInBack(s: State, pid: Pid, vaddr: Vaddr)
    requires Valid(s) && |s.swap| + 2 <= 256 && Resident(s, pid) && EntryAt(s, pid, vaddr / 16).valpres == 1
    requires RoomSound(s, pid, FreeCount(s))
    ensures SwapIn(AS_WRITTEN, s, pid, vaddr).Some? && Back(s, SwapIn(AS_WRITTEN, s, pid, vaddr).value, pid, vaddr)
  {
    RoomAgrees(s, pid, FreeCount(s));
    SwapInBrings(s, pid, vaddr);
    SwapInAtZero(s, pid, vaddr);
  }

  lemma SwapInWrong(s: State, pid: Pid, vaddr: Vaddr)
    requires Valid(s) && EntryAt(s, pid, vaddr / 16).valpres == 1 && !RoomSound(s, pid, FreeCount(s))
    requires SwapIn(AS_WRITTEN, s, pid, vaddr).Some?
    ensures !OthersSame(s, SwapIn(AS_WRITTEN, s, pid, vaddr).value, pid)
  {
    LateInvalid(s, s, pid, vaddr, FreeSpace(AS_WRITTEN, s, 1, pid).value, SwapIn(AS_WRITTEN, s, pid, vaddr).value);
  }

  lemma LoadSwappedExact(s: State, pid: Pid, vaddr: Vaddr)
    requires Valid(s) && |s.swap| + 2 <= 256 && Resident(s, pid) && EntryAt(s, pid, vaddr / 16).valpres == 1
    ensures Right(s, Load(pid, vaddr)) ==> LoadHarmless(s, pid, vaddr)
    ensures LoadHarmless(s, pid, vaddr) ==> Kept(s, Load(pid, vaddr))
  {
    LoadSwapped(s, pid, vaddr);
    if RoomSound(s, pid, FreeCount(s)) {
      SwapInBack(s, pid, vaddr);
      LoadAfter(s, SwapIn(AS_WRITTEN, s, pid, vaddr).value, pid, vaddr);
    } else {
      if SwapIn(AS_WRITTEN, s, pid, vaddr).Some? {
        SwapInWrong(s, pid, vaddr);
        LoadHereState(SwapIn(AS_WRITTEN, s, pid, vaddr).value, pid, vaddr, 1);
      }
      WrongState(s, Load(pid, vaddr));
    }
  }

  lemma SoundLoadKept(s: State, pid: Pid, vaddr: Vaddr)
    requires Valid(s) && |s.swap| + 2 <= 256 && LoadSound(s, pid, vaddr)
    ensures Kept(s, Load(pid, vaddr))
  {
    LoadAgrees(s, pid, vaddr);
    LoadMakes(s, pid, vaddr);
    BringsIsMakes(s, LoadStep(REPAIRED, s, pid, vaddr).value.0, pid, vaddr);
  }

  lemma LoadUnallocated(s: State, pid: Pid, vaddr: Vaddr)
    requires Resident(s, pid) && EntryAt(s, pid, vaddr / 16).valpres == 0
    ensures LoadStep(AS_WRITTEN, s, pid, vaddr).None?
  {
    ReadValpres(s, pid, vaddr);
    ConvertFinds(s, pid, vaddr);
  }

  lemma LoadExact(s: State, pid: Pid, vaddr: Vaddr)
    requires Valid(s) && |s.swap| + 2 <= 256
    ensures Right(s, Load(pid, vaddr)) <==> LoadHarmless(s, pid, vaddr)
    ensures LoadHarmless(s, pid, vaddr) ==> Kept(s, Load(pid, vaddr))
  {
    if s.hardware[pid].inmem == 0 {
      LoadRevivedExact(s, pid, vaddr);
    } else if s.hardware[pid].inmem == 1 {
      ValidResident(s, pid);
      match EntryAt(s, pid, vaddr / 16).valpres
      case 0 => LoadUnallocated(s, pid, vaddr);
      case 1 => LoadSwappedExact(s, pid, vaddr);
      case _ => SoundLoadKept(s, pid, vaddr);
    } else {
      SoundLoadKept(s, pid, vaddr);
    }
    if Kept(s, Load(pid, vaddr)) {
      KeptIsRight(s, Load(pid, vaddr));
    }
  }

  // ----- store

  /** One frame is left for a table on disk and for its page: no state between commands
      is like that, a frame being free only before anything goes to disk. */
  predicate LastFrame(s: State, pid: Pid) {
    s.hardware[pid].inmem == 0 && FreeCount(s) == 1
  }

  lemma StoreRevived(s: State, pid: Pid, vaddr: Vaddr, val: Byte)
    requires s.hardware[pid].inmem == 0
    ensures StoreStep(AS_WRITTEN, s, pid, vaddr, val) ==
      match Revive(AS_WRITTEN, s, pid, vaddr)
      case Some(x) => StoreHere(x, pid, vaddr, val)
      case None => None
  {
  }

  lemma StoreRevivedExact(s: State, pid: Pid, vaddr: Vaddr, val: Byte)
    requires Valid(s) && |s.swap| + 2 <= 256 && s.hardware[pid].inmem == 0 && FreeCount(s) != 1
    ensures Right(s, Store(pid, vaddr, val)) ==> StoreHarmless(s, pid, vaddr, val)
    ensures StoreHarmless(s, pid, vaddr, val) ==> Kept(s, Store(pid, vaddr, val))
  {
    StoreRevived(s, pid, vaddr, val);
    if ReviveHarmless(s, pid, vaddr) {
      HarmlessRevives(s, pid, vaddr);
      StoreAfter(s, Revive(AS_WRITTEN, s, pid, vaddr).value, pid, vaddr, val, 2);
    } else {
      if StoreStep(AS_WRITTEN, s, pid, vaddr, val).Some? {
        ReviveWrong(s, pid, vaddr);
        WreckedStore(s, Revive(AS_WRITTEN, s, pid, vaddr).value, pid, vaddr, val);
      }
      WrongState(s, Store(pid, vaddr, val));
    }
  }

  lemma StoreRightIs(s: State, pid: Pid, vaddr: Vaddr, val: Byte)
    ensures Right(s, Store(pid, vaddr, val)) <==> StoreRight(s, pid, vaddr, val)
  {
    RightIs(s, Store(pid, vaddr, val));
  }

  lemma StrayKept(s: State, pid: Pid, vaddr: Vaddr, val: Byte)
    requires Resident(s, pid) && EntryAt(s, pid, vaddr / 16).valpres == 1 && EntryAt(s, pid, vaddr / 16).prot == 1
    requires StoreRight(s, pid, vaddr, val)
    ensures Kept(s, Store(pid, vaddr, val))
  {
    StraySteps(s, pid, vaddr, val);
  }

  lemma SoundStoreKept(s: State, pid: Pid, vaddr: Vaddr, val: Byte)
    requires Valid(s) && |s.swap| + 2 <= 256 && StoreSound(s, pid, vaddr)
    ensures Kept(s, Store(pid, vaddr, val))
  {
    StoreAgrees(s, pid, vaddr, val);
    StoreMakes(s, pid, vaddr, val);
  }

  lemma StoreExact(s: State, pid: Pid, vaddr: Vaddr, val: Byte)
    requires Valid(s) && |s.swap| + 2 <= 256 && !LastFrame(s, pid)
    ensures Right(s, Store(pid, vaddr, val)) <==> StoreHarmless(s, pid, vaddr, val)
    ensures StoreHarmless(s, pid, vaddr, val) ==> Kept(s, Store(pid, vaddr, val))
  {
    if s.hardware[pid].inmem == 0 {
      StoreRevivedExact(s, pid, vaddr, val);
    } else if StoreSound(s, pid, vaddr) {
      SoundStoreKept(s, pid, vaddr, val);
    } else {
      ValidResident(s, pid);
      StrayStoreExact(s, pid, vaddr, val);
      StoreRightIs(s, pid, vaddr, val);
      if StoreRight(s, pid, vaddr, val) {
        StrayKept(s, pid, vaddr, val);
      }
    }
    if Kept(s, Store(pid, vaddr, val)) {
      KeptIsRight(s, Store(pid, vaddr, val));
    }
  }

  // ----- map

  /** A page that is not in memory, mapped to a frame of zeros, is what it should be
      exactly when it was zeros. */
  lemma FreshIsMeant(s: State, pid: Pid, vaddr: Vaddr, val: Byte)
    requires Valid(s) && EntryAt(s, pid, vaddr / 16).valpres != 2
    ensures FlatMap(Seen(s, pid, vaddr), val) == Mapped(val, ZERO_PAGE) <==> DiskZero(s, pid, vaddr)
  {
    if EntryAt(s, pid, vaddr / 16).valpres == 1 {
      OnDiskSeen(s, pid, vaddr);
    } else {
      SeenHere(s, pid, vaddr);
    }
  }

  /** What `map` ends with when it places the page. */
  lemma MapPlaces(s: State, pid: Pid, vaddr: Vaddr, val: Byte, x: State)
    requires Valid(s) && EntryAt(s, pid, vaddr / 16).valpres != 2
    requires MapStep(AS_WRITTEN, s, pid, vaddr, val) == Some((x, MapDone))
    requires Makes(s, x, pid, vaddr, Mapped(val, ZERO_PAGE), 2)
    ensures Right(s, Map(pid, vaddr, val)) ==> DiskZero(s, pid, vaddr)
    ensures DiskZero(s, pid, vaddr) ==> Kept(s, Map(pid, vaddr, val))
  {
    FreshIsMeant(s, pid, vaddr, val);
    if Right(s, Map(pid, vaddr, val)) {
      RightShows(s, Map(pid, vaddr, val));
    }
  }

  lemma MapRestPlaces(s: State, s1: State, pid: Pid, vaddr: Vaddr, val: Byte)
    requires TableForMap(AS_WRITTEN, s, pid) == Some(s1) && Resident(s1, pid) && EntryAt(s1, pid, vaddr / 16).valpres != 2
    ensures MapStep(AS_WRITTEN, s, pid, vaddr, val) ==
      match AllocatePage(AS_WRITTEN, s1, pid, vaddr, val)
      case Some(x) => Some((x, MapDone))
      case None => None
  {
    MapStepParts(AS_WRITTEN, s, s1, pid, vaddr, val);
  }

  /** With the table there, room for the page is made soundly or shows. */
  lemma MapReadyExact(s: State, s1: State, pid: Pid, vaddr: Vaddr, val: Byte)
    requires Valid(s) && |s.swap| + 2 <= 256 && TableForMap(AS_WRITTEN, s, pid) == Some(s1) && ReadyToMap(s, s1, pid)
    requires EntryAt(s, pid, vaddr / 16).valpres != 2 && EntryAt(s1, pid, vaddr / 16).valpres != 2
    ensures Right(s, Map(pid, vaddr, val)) ==> RoomSound(s1, pid, FreeCount(s1)) && DiskZero(s, pid, vaddr)
    ensures RoomSound(s1, pid, FreeCount(s1)) && DiskZero(s, pid, vaddr) ==> Kept(s, Map(pid, vaddr, val))
  {
    MapRestPlaces(s, s1, pid, vaddr, val);
    if RoomSound(s1, pid, FreeCount(s1)) {
      SoundlyPlaced(s, s1, pid, vaddr, val);
      MapPlaces(s, pid, vaddr, val, AllocatePage(AS_WRITTEN, s1, pid, vaddr, val).value);
    } else {
      SpaceUnsound(s1, pid);
      if AllocatePage(AS_WRITTEN, s1, pid, vaddr, val).Some? {
        PlacedWrong(s, s1, pid, vaddr, val);
      }
      WrongState(s, Map(pid, vaddr, val));
    }
  }

  lemma SoundlyPlaced(s: State, s1: State, pid: Pid, vaddr: Vaddr, val: Byte)
    requires Valid(s) && |s.swap| + 2 <= 256 && ReadyToMap(s, s1, pid) && RoomSound(s1, pid, FreeCount(s1))
    requires EntryAt(s1, pid, vaddr / 16).valpres != 2
    ensures AllocatePage(AS_WRITTEN, s1, pid, vaddr, val).Some?
    ensures Makes(s, AllocatePage(AS_WRITTEN, s1, pid, vaddr, val).value, pid, vaddr, Mapped(val, ZERO_PAGE), 2)
  {
    if FreeCount(s1) == 0 {
      RoomAgrees(s1, pid, FreeCount(s1));
    }
    AllocatePageMakes(s1, pid, vaddr, val);
    MapAfter(s, s1, AllocatePage(REPAIRED, s1, pid, vaddr, val).value, pid, vaddr, Mapped(val, ZERO_PAGE),
             if FreeCount(s1) == 0 then 1 else 0);
  }

  lemma PlacedWrong(s: State, s1: State, pid: Pid, vaddr: Vaddr, val: Byte)
    requires Valid(s1) && EntryAt(s1, pid, vaddr / 16).valpres != 2 && FreeCount(s1) == 0 && !SpaceSound(s1, 1, pid)
    requires AllocatePage(AS_WRITTEN, s1, pid, vaddr, val).Some?
    ensures !OthersSame(s, AllocatePage(AS_WRITTEN, s1, pid, vaddr, val).value, pid)
  {
    var a := FreeSpace(AS_WRITTEN, s1, 1, pid).value;
    PlacePagePlaces(a, pid, vaddr, val);
    ResidentInvalid(s1, pid, vaddr, a, PlacePage(a, pid, vaddr, val).value, FindFree(a).value);
  }

  // ----- map, the table being in memory

  lemma SoundMapKept(s: State, pid: Pid, vaddr: Vaddr, val: Byte)
    requires Valid(s) && |s.swap| + 2 <= 256 && MapSound(s, pid, vaddr)
    ensures Kept(s, Map(pid, vaddr, val))
  {
    MapAgrees(s, pid, vaddr, val);
    MapMakes(s, pid, vaddr, val);
  }

  lemma MapHereExact(s: State, pid: Pid, vaddr: Vaddr, val: Byte)
    requires Valid(s) && |s.swap| + 2 <= 256 && s.hardware[pid].inmem == 1
    ensures Right(s, Map(pid, vaddr, val)) ==> MapHarmless(s, pid, vaddr)
    ensures MapHarmless(s, pid, vaddr) ==> Kept(s, Map(pid, vaddr, val))
  {
    TableForMapReady(s, pid);
    ValpresAtMostTwo(s, pid, vaddr / 16);
    if EntryAt(s, pid, vaddr / 16).valpres == 2 {
      SoundMapKept(s, pid, vaddr, val);
    } else {
      MapReadyExact(s, s, pid, vaddr, val);
    }
  }

  /** Mapping again a page that is on disk, its table in memory, is right exactly when
      the page is all zeros and the eviction for its new frame, if any, is sound. */
  lemma MapAgainExact(s: State, pid: Pid, vaddr: Vaddr, val: Byte)
    requires Valid(s) && |s.swap| + 2 <= 256 && s.hardware[pid].inmem == 1 && EntryAt(s, pid, vaddr / 16).valpres == 1
    ensures Right(s, Map(pid, vaddr, val))
      <==> DiskZero(s, pid, vaddr) && RoomSound(s, pid, FreeCount(s))
  {
    TableForMapReady(s, pid);
    MapReadyExact(s, s, pid, vaddr, val);
    if Kept(s, Map(pid, vaddr, val)) {
      KeptIsRight(s, Map(pid, vaddr, val));
    }
  }

  // ----- map, the table being on disk

  lemma TableBackForMap(s: State, pid: Pid, w: Pid)
    requires Valid(s) && |s.swap| + 2 <= 256 && s.hardware[pid].inmem == 0
    ensures TableForMap(REPAIRED, s, pid).Some?
    ensures EntryAt(TableForMap(REPAIRED, s, pid).value, pid, w) == EntryAt(s, pid, w) && EntryAt(s, pid, w).valpres != 2
  {
    OnDiskNotInMemory(s, pid, w);
    FreeSpaceHidden(s, 1, pid);
    LoadPageTableBrings(FreeSpace(REPAIRED, s, 1, pid).value, pid);
  }

  lemma MapDiskCrossed(s: State, pid: Pid, vaddr: Vaddr, val: Byte)
    requires Valid(s) && |s.swap| + 2 <= 256 && s.hardware[pid].inmem == 0 && BackCrossed(Robin(s), pid)
    ensures Right(s, Map(pid, vaddr, val)) ==> DiskZero(s, pid, vaddr)
    ensures DiskZero(s, pid, vaddr) ==> Kept(s, Map(pid, vaddr, val))
  {
    var a1, a2, a3, g := CrossedBack(s, pid);
    OnDiskNotInMemory(s, pid, vaddr / 16);
    assert TableForMap(AS_WRITTEN, s, pid) == Some(a2);
    MapRestPlaces(s, a2, pid, vaddr, val);
    assert AllocatePage(AS_WRITTEN, a2, pid, vaddr, val) == PlacePage(a3, pid, vaddr, val);
    PlacePageMakes(a3, pid, vaddr, val);
    var x := PlacePage(a3, pid, vaddr, val).value;
    MapAfter(s, a3, x, pid, vaddr, Mapped(val, ZERO_PAGE), 0);
    MapPlaces(s, pid, vaddr, val, x);
  }

  lemma MapDiskWrong(s: State, pid: Pid, vaddr: Vaddr, val: Byte)
    requires Valid(s) && |s.swap| + 2 <= 256 && s.hardware[pid].inmem == 0
    requires !SpaceSound(s, 1, pid) && !BackCrossed(Robin(s), pid)
    ensures !Right(s, Map(pid, vaddr, val))
  {
    SpaceUnsound(s, pid);
    OneEviction(AS_WRITTEN, s, pid);
    if MapStep(AS_WRITTEN, s, pid, vaddr, val).Some? {
      var h := Robin(s);
      HandMoves(s, h);
      var a := Evict(AS_WRITTEN, h, pid).value;
      var q, v, f, at := BackFirst(h, pid, a);
      var a2 := LoadPageTable(a, pid).value;
      OnDiskNotInMemory(h, pid, vaddr / 16);
      assert EntryAt(a2, pid, vaddr / 16) == EntryAt(h, pid, vaddr / 16);
      MapRestPlaces(s, a2, pid, vaddr, val);
      MapRoomWrong(s, h, pid, vaddr, val, a, a2);
    }
    WrongState(s, Map(pid, vaddr, val));
  }

  lemma MapRoomWrong(s: State, h: State, pid: Pid, vaddr: Vaddr, val: Byte, a: State, a2: State)
    requires Valid(h) && SamePages(ViewOf(s), ViewOf(h)) && |h.swap| + 2 <= 256 && FreeCount(h) == 0
    requires h.hardware[pid].inmem == 0 && !EvictSound(h, pid) && !BackCrossed(h, pid)
    requires Evict(AS_WRITTEN, h, pid) == Some(a) && LoadPageTable(a, pid) == Some(a2) && FreeCount(a2) == 0
    requires AllocatePage(AS_WRITTEN, a2, pid, vaddr, val).Some?
    ensures !OthersSame(s, AllocatePage(AS_WRITTEN, a2, pid, vaddr, val).value, pid)
  {
    OneEviction(AS_WRITTEN, a2, pid);
    var b := FreeSpace(AS_WRITTEN, a2, 1, pid).value;
    BackSecond(h, pid, a, b);
    RuinedToo(s, h, b, pid);
    PlacePagePlaces(b, pid, vaddr, val);
    var x := PlacePage(b, pid, vaddr, val).value;
    RuinedPlaced(s, b, x, pid, vaddr, FindFree(b).value);
    WreckedShows(s, x, pid, vaddr);
  }

  lemma MapDiskExact(s: State, pid: Pid, vaddr: Vaddr, val: Byte)
    requires Valid(s) && |s.swap| + 2 <= 256 && s.hardware[pid].inmem == 0
    ensures Right(s, Map(pid, vaddr, val)) ==> MapHarmless(s, pid, vaddr)
    ensures MapHarmless(s, pid, vaddr) ==> Kept(s, Map(pid, vaddr, val))
  {
    if BackCrossed(Robin(s), pid) {
      MapDiskCrossed(s, pid, vaddr, val);
    } else if SpaceSound(s, 1, pid) {
      TableAgrees(s, pid);
      TableForMapReady(s, pid);
      TableBackForMap(s, pid, vaddr / 16);
      MapReadyExact(s, TableForMap(REPAIRED, s, pid).value, pid, vaddr, val);
    } else {
      MapDiskWrong(s, pid, vaddr, val);
    }
  }

  // ----- map for a process without a table

  lemma SpaceCrossed(s: State, pid: Pid) returns (a: State)
    requires Valid(s) && |s.swap| + 2 <= 256 && NewCrossed(Robin(s))
    ensures FreeSpace(AS_WRITTEN, s, 2, pid) == Some(a) && FreeCount(s) == 0 && TwoFreed(Robin(s), a, pid)
  {
    var h := Robin(s);
    HandMoves(s, h);
    var q: Pid, v: Pid, f: Pid, u: Pid, g: Pid :| NewCrossedBy(h, q, v, f, u, g);
    NewCrossing(h, q, v, f, u, g, pid);
    TwoEvictions(AS_WRITTEN, s, pid);
    a := FreeSpace(AS_WRITTEN, s, 2, pid).value;
  }

  lemma NewTableAfter(s: State, pid: Pid, a: State) returns (n: State)
    requires !(0 <= s.hardware[pid].inmem <= 1) && FreeSpace(AS_WRITTEN, s, 2, pid) == Some(a) && TwoFreed(Robin(s), a, pid)
    ensures TableForMap(AS_WRITTEN, s, pid) == Some(n) && ReadyToMap(s, n, pid) && FreeCount(n) == 1
  {
    HandMoves(s, Robin(s));
    NewTableReady(a, pid);
    n := NewTable(a, pid, FindFree(a).value);
    SameTwice(s, a, n);
  }

  lemma NewTableCrossed(s: State, pid: Pid) returns (n: State)
    requires Valid(s) && |s.swap| + 2 <= 256 && !(0 <= s.hardware[pid].inmem <= 1) && NewCrossed(Robin(s))
    ensures TableForMap(AS_WRITTEN, s, pid) == Some(n) && ReadyToMap(s, n, pid) && FreeCount(n) == 1
  {
    var a := SpaceCrossed(s, pid);
    n := NewTableAfter(s, pid, a);
  }

  lemma MapNewCrossed(s: State, pid: Pid, vaddr: Vaddr, val: Byte)
    requires Valid(s) && |s.swap| + 2 <= 256 && !(0 <= s.hardware[pid].inmem <= 1) && NewCrossed(Robin(s))
    ensures Kept(s, Map(pid, vaddr, val))
  {
    var n := NewTableCrossed(s, pid);
    NewTableUnused(s, n, pid, vaddr / 16);
    OnDiskNotInMemory(s, pid, vaddr / 16);
    MapReadyExact(s, n, pid, vaddr, val);
  }

  lemma MapNewWrong(s: State, pid: Pid, vaddr: Vaddr, val: Byte)
    requires Valid(s) && |s.swap| + 2 <= 256 && !(0 <= s.hardware[pid].inmem <= 1)
    requires !SpaceSound(s, 2, pid) && !NewCrossed(Robin(s))
    ensures !Right(s, Map(pid, vaddr, val))
  {
    if MapStep(AS_WRITTEN, s, pid, vaddr, val).Some? {
      var b := FreeSpace(AS_WRITTEN, s, 2, pid).value;
      NewHarms(s, pid, b);
      MapNewWrongFrom(s, pid, vaddr, val, b);
    }
    WrongState(s, Map(pid, vaddr, val));
  }

  lemma MapNewWrongFrom(s: State, pid: Pid, vaddr: Vaddr, val: Byte, b: State)
    requires !(0 <= s.hardware[pid].inmem <= 1) && FreeSpace(AS_WRITTEN, s, 2, pid) == Some(b)
    requires Harmed(s, b, pid) && FreeCount(b) == 2 && b.hardware[pid] == s.hardware[pid]
    requires MapStep(AS_WRITTEN, s, pid, vaddr, val).Some?
    ensures !OthersSame(s, MapStep(AS_WRITTEN, s, pid, vaddr, val).value.0, pid)
  {
    var q: Pid, v: Pid :| Spoilt(s, b, pid, q, v);
    var f := FindFree(b).value;
    var n := NewTable(b, pid, f);
    NewTableLeaves(b, pid, f, q, v);
    StillSpoilt(s, b, n, pid, q, v);
    NewTableEntry(b, pid, f, vaddr / 16);
    FrameTaken(b, n, f);
    MapRestPlaces(s, n, pid, vaddr, val);
    PlacePagePlaces(n, pid, vaddr, val);
    var x := PlacePage(n, pid, vaddr, val).value;
    PlacedLeaves(n, x, pid, vaddr, FindFree(n).value, q, v);
    StillSpoilt(s, n, x, pid, q, v);
    DamageShows(s, x, pid, q, v);
  }

  lemma MapNewSound(s: State, pid: Pid, vaddr: Vaddr, val: Byte)
    requires Valid(s) && |s.swap| + 2 <= 256 && !(0 <= s.hardware[pid].inmem <= 1) && SpaceSound(s, 2, pid)
    ensures MapHarmless(s, pid, vaddr) && Kept(s, Map(pid, vaddr, val))
  {
    TableForMapReady(s, pid);
    var s1 := TableForMap(REPAIRED, s, pid).value;
    NewTableUnused(s, s1, pid, vaddr / 16);
    OnDiskNotInMemory(s, pid, vaddr / 16);
    NewTableRoom(s, pid);
    SoundMapKept(s, pid, vaddr, val);
  }

  lemma NewTableRoom(s: State, pid: Pid)
    requires Valid(s) && |s.swap| + 2 <= 256 && !(0 <= s.hardware[pid].inmem <= 1)
    ensures TableForMap(REPAIRED, s, pid).Some? && FreeCount(TableForMap(REPAIRED, s, pid).value) > 0
  {
    TableForMapReady(s, pid);
  }

  lemma MapNewExact(s: State, pid: Pid, vaddr: Vaddr, val: Byte)
    requires Valid(s) && |s.swap| + 2 <= 256 && !(0 <= s.hardware[pid].inmem <= 1)
    ensures Right(s, Map(pid, vaddr, val)) ==> MapHarmless(s, pid, vaddr)
    ensures MapHarmless(s, pid, vaddr) ==> Kept(s, Map(pid, vaddr, val))
  {
    if NewCrossed(Robin(s)) {
      MapNewCrossed(s, pid, vaddr, val);
      OnDiskNotInMemory(s, pid, vaddr / 16);
    } else if SpaceSound(s, 2, pid) {
      MapNewSound(s, pid, vaddr, val);
    } else {
      MapNewWrong(s, pid, vaddr, val);
    }
  }

  lemma MapExact(s: State, pid: Pid, vaddr: Vaddr, val: Byte)
    requires Valid(s) && |s.swap| + 2 <= 256
    ensures Right(s, Map(pid, vaddr, val)) <==> MapHarmless(s, pid, vaddr)
    ensures MapHarmless(s, pid, vaddr) ==> Kept(s, Map(pid, vaddr, val))
  {
    if s.hardware[pid].inmem == 1 {
      MapHereExact(s, pid, vaddr, val);
    } else if s.hardware[pid].inmem == 0 {
      MapDiskExact(s, pid, vaddr, val);
    } else {
      MapNewExact(s, pid, vaddr, val);
    }
    if Kept(s, Map(pid, vaddr, val)) {
      KeptIsRight(s, Map(pid, vaddr, val));
    }
  }

  // ----- any command

  /** On every coherent state the code as written answers as flat memory does, shows
      every process the pages it has there and stays coherent, if and only if the
      command is harmless. */
  lemma RightExactlyWhenHarmless(s: State, c: Command)
    requires Valid(s) && |s.swap| + 2 <= 256 && (c.Store? ==> !LastFrame(s, c.pid))
    ensures Right(s, c) <==> Harmless(s, c)
    ensures Harmless(s, c) ==> Kept(s, c)
  {
    match c {
      case Map(pid, vaddr, val) => MapExact(s, pid, vaddr, val);
      case Store(pid, vaddr, val) => StoreExact(s, pid, vaddr, val);
      case Load(pid, vaddr) => LoadExact(s, pid, vaddr);
    }
  }
}
