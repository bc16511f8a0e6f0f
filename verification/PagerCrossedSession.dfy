/** Crossing evictions come up: four maps of one process, and the map of another makes
    both evictions go wrong, each in the other's favour. */
module PagerCrossedSession {
  import opened Options
  import opened PagerModel
  import opened PagerTables
  import opened PagerBytes
  import opened PagerEviction
  import opened PagerTransparency
  import opened PagerPhases
  import opened PagerAsWritten
  import opened PagerSoundness
  import opened PagerCrossing
  import opened PagerSpoils
  import opened PagerDepartures
  import opened PagerExactness
  import opened PagerWrittenRuns
  import opened PagerSessions

  /** Process 0 alone, with the given page table and no bytes stored. */
  function Alone(table: Page, free: seq<int>, pages: seq<int>, swap: seq<Page>, hand: Pid): State
    requires |free| == |pages| == 4
  {
    Pager(Memory(table, ZERO_PAGE, ZERO_PAGE, ZERO_PAGE), free, pages, [1, 0, 0, 0], HP0, swap, hand)
  }

  const ONE: Page := [0, 0, 0, 0, 1, 16, 1, 2, 2, 0, 0, 0, 3, 0, 0, 0]
  const TWO: Page := [0, 0, 0, 0, 1, 16, 1, 2, 2, 32, 16, 2, 3, 0, 0, 0]
  const THREE: Page := [0, 0, 0, 0, 1, 16, 1, 2, 2, 32, 16, 2, 3, 48, 1, 2]
  const GONE: Page := [0, 0, 0, 0, 1, 16, 1, 2, 2, 0, 16, 1, 3, 48, 1, 2]
  const FOUR: Page := [0, 32, 32, 2, 1, 16, 1, 2, 2, 0, 16, 1, 3, 48, 1, 2]
  const CROSSED_ONE: Page := [0, 1, 32, 1, 1, 16, 1, 2, 2, 0, 16, 1, 3, 48, 1, 2]

  function Mapped3Pages(): State { Alone(THREE, [0, 0, 0, 0], [0, 0, 0, 0], [], 1) }

  function Mapped4Pages(): State { Alone(FOUR, [0, 0, 0, 0], [0, 0, 0, 0], [ZERO_PAGE], 3) }

  /** The first map of process 0, of its second page. */
  lemma MapsSecondPage(fix: Repairs, b: State, n: State)
    requires b == Boot() && n == NewTable(Robin(b), 0, 0)
    ensures Step(fix, b, Map(0, 16, 1)) == Some((Alone(ONE, [0, 0, 1, 1], [0, 0, -1, -1], [], 1), MapDone))
  {
    FirstFrames(b, n);
    SecondEntryBytes(b, n);
    var s2 := PlacePage(n, 0, 16, 1).value;
    assert s2 == n.(freelist := n.freelist[1 := 0], pages := n.pages[1 := 0], mem := n.mem[5 := 16][6 := 1][7 := 2]);
    NewTableThenPage(fix, b, n, s2);
    assert n.freelist[1 := 0] == [0, 0, 1, 1] && n.pages[1 := 0] == [0, 0, -1, -1];
    assert n.ispagetable == [1, 0, 0, 0] && n.hardware == HP0;
  }

  lemma SecondEntryBytes(b: State, n: State)
    requires b == Boot() && n == NewTable(Robin(b), 0, 0)
    ensures n.mem[7] == 0 && n.mem[5 := 16][6 := 1][7 := 2] == Memory(ONE, ZERO_PAGE, ZERO_PAGE, ZERO_PAGE)
  {
  }

  lemma NewTableThenPage(fix: Repairs, b: State, n: State, s2: State)
    requires b == Boot() && n == NewTable(Robin(b), 0, 0) && n.mem[7] == 0 && Resident(n, 0) && n.hardware[0].address == 0
    requires FreeSpace(fix, b, 2, 0) == Some(Robin(b)) && FindFree(Robin(b)) == Some(0) && FindFree(n).Some?
    requires PlacePage(n, 0, 16, 1) == Some(s2)
    ensures Step(fix, b, Map(0, 16, 1)) == Some((s2, MapDone))
  {
    assert TableForMap(fix, b, 0) == Some(n);
    assert FreeCount(n) > 0;
  }

  lemma MapsTwoMore(fix: Repairs, s1: State, s2: State, s3: State)
    requires s1 == Alone(ONE, [0, 0, 1, 1], [0, 0, -1, -1], [], 1)
    requires s2 == Alone(TWO, [0, 0, 0, 1], [0, 0, 0, -1], [], 1) && s3 == Mapped3Pages()
    ensures Step(fix, s1, Map(0, 32, 16)) == Some((s2, MapDone)) && Step(fix, s2, Map(0, 48, 1)) == Some((s3, MapDone))
  {
    EntryWritten(ONE, ZERO_PAGE, ZERO_PAGE, ZERO_PAGE, 8, 32, 16, 2);
    assert ONE[9 := 32][10 := 16][11 := 2] == TWO;
    MapsNext(fix, s1, s2, 32, 16, 2);
    EntryWritten(TWO, ZERO_PAGE, ZERO_PAGE, ZERO_PAGE, 12, 48, 1, 2);
    assert TWO[13 := 48][14 := 1][15 := 2] == THREE;
    MapsNext(fix, s2, s3, 48, 1, 3);
  }

  /** The scans of `Mapped3Pages` for page 2, as written and repaired. */
  lemma ScansThird(exact: bool)
    ensures LookupVpn(exact, Mapped3Pages().mem, 0, 32, 16) == Some(2)
  {
    if exact {
      TableBytes(THREE);
      ScanExact(Mapped3Pages().mem, 0, 32, 2, 16);
    } else {
      ScanTable(THREE, ZERO_PAGE, ZERO_PAGE, ZERO_PAGE, 32, 9);
    }
  }

  lemma TableBytes(table: Page)
    ensures forall k | 0 <= k < 16 :: Memory(table, ZERO_PAGE, ZERO_PAGE, ZERO_PAGE)[k] == table[k]
  {
  }

  lemma ThirdIsNext(s: State)
    requires s == Mapped3Pages()
    ensures NextPage(s, 2) && s.mem[3] == 0
  {
    TableBytes(THREE);
  }

  lemma PlacesFourth(s1: State, s': State)
    requires s1 == Alone(GONE, [0, 0, 1, 0], [0, 0, -1, 0], [ZERO_PAGE], 3) && s' == Mapped4Pages()
    ensures PlacePage(s1, 0, 0, 32) == Some(s')
  {
    EntryWritten(GONE, ZERO_PAGE, ZERO_PAGE, ZERO_PAGE, 0, 32, 32, 2);
    assert GONE[1 := 32][2 := 32][3 := 2] == FOUR;
    Places(s1, 0, 32, 2);
    assert [0, 0, 1, 0][2 := 0] == [0, 0, 0, 0] && [0, 0, -1, 0][2 := 0] == [0, 0, 0, 0];
  }

  lemma FullMapInto(fix: Repairs, s: State, s1: State, s': State, f: Pid, vp: Pid, val: Byte)
    requires NextPage(s, f) && LookupVpn(fix.exactLookup, s.mem, 0, 16 * f, 16) == Some(vp) && s.mem[3] == 0
    requires AfterEviction(s, f, vp) == s1 && PlacePage(s1, 0, 0, val) == Some(s')
    ensures Step(fix, s, Map(0, 0, val)) == Some((s', MapDone))
  {
    FullMap(fix, s, f, vp, 0, val);
  }

  lemma MapsFourthPage(fix: Repairs, s: State, s': State)
    requires s == Mapped3Pages() && s' == Mapped4Pages()
    ensures Step(fix, s, Map(0, 0, 32)) == Some((s', MapDone))
  {
    var s1 := Alone(GONE, [0, 0, 1, 0], [0, 0, -1, 0], [ZERO_PAGE], 3);
    ScansThird(fix.exactLookup);
    ThirdIsNext(s);
    ThirdGone(s, s1);
    PlacesFourth(s1, s');
    FullMapInto(fix, s, s1, s', 2, 2, 32);
  }

  lemma ThirdGone(s: State, s1: State)
    requires s == Mapped3Pages() && s1 == Alone(GONE, [0, 0, 1, 0], [0, 0, -1, 0], [ZERO_PAGE], 3)
    ensures AfterEviction(s, 2, 2) == s1
  {
    SwappedOutFrame(THREE, ZERO_PAGE, ZERO_PAGE, ZERO_PAGE, 8, 2, 0);
    assert THREE[9 := 0][11 := 1] == GONE;
    assert [] + [ZERO_PAGE] == [ZERO_PAGE];
  }

  const FOUR_MAPS := [Map(0, 16, 1)] + [Map(0, 32, 16)] + [Map(0, 48, 1)] + [Map(0, 0, 32)]

  lemma ReachesMapped4(fix: Repairs)
    ensures Leads(fix, Boot(), FOUR_MAPS, Mapped4Pages(), [MapDone] + [MapDone] + [MapDone] + [MapDone])
  {
    var s1, s2 := Alone(ONE, [0, 0, 1, 1], [0, 0, -1, -1], [], 1), Alone(TWO, [0, 0, 0, 1], [0, 0, 0, -1], [], 1);
    MapsSecondPage(fix, Boot(), NewTable(Robin(Boot()), 0, 0));
    LeadsOn(fix, Boot(), [], Boot(), [], Map(0, 16, 1), s1, MapDone);
    assert [] + [Map(0, 16, 1)] == [Map(0, 16, 1)] && [] + [MapDone] == [MapDone];
    MapsTwoMore(fix, s1, s2, Mapped3Pages());
    LeadsOn(fix, Boot(), [Map(0, 16, 1)], s1, [MapDone], Map(0, 32, 16), s2, MapDone);
    LeadsOn(fix, Boot(), [Map(0, 16, 1)] + [Map(0, 32, 16)], s2, [MapDone] + [MapDone], Map(0, 48, 1), Mapped3Pages(), MapDone);
    MapsFourthPage(fix, Mapped3Pages(), Mapped4Pages());
    LeadsOn(fix, Boot(), [Map(0, 16, 1)] + [Map(0, 32, 16)] + [Map(0, 48, 1)], Mapped3Pages(), [MapDone] + [MapDone] + [MapDone],
            Map(0, 0, 32), Mapped4Pages(), MapDone);
  }

  // ----- the crossing

  lemma Mapped4Entries(s: State)
    requires s == Mapped4Pages()
    ensures Resident(s, 0) && EntryAt(s, 0, 0) == Entry(0, 32, 32, 2) && EntryAt(s, 0, 1) == Entry(1, 16, 1, 2)
  {
    TableBytes(FOUR);
    ResidentEntry(s, 0, 0);
    ResidentEntry(s, 0, 1);
  }

  lemma Mapped4Frames(s: State)
    requires s == Mapped4Pages()
    ensures Frame(s, 1) == Frame(s, 2) == ZERO_PAGE
  {
    FrameOf(FOUR, ZERO_PAGE, ZERO_PAGE, ZERO_PAGE, 1);
    FrameOf(FOUR, ZERO_PAGE, ZERO_PAGE, ZERO_PAGE, 2);
  }

  /** Memory between the two evictions: entry 0 was updated for the page in frame 1. */
  lemma BetweenMemory(mem: seq<Byte>)
    requires mem == Memory(FOUR, ZERO_PAGE, ZERO_PAGE, ZERO_PAGE)
    ensures OneOut(mem, 0, 1, ZERO_PAGE, 1) == Memory(CROSSED_ONE, ZERO_PAGE, ZERO_PAGE, ZERO_PAGE)
  {
    OneOutIs(mem, 0, 1, ZERO_PAGE, 1);
    SwappedOutFrame(FOUR, ZERO_PAGE, ZERO_PAGE, ZERO_PAGE, 0, 1, 1);
    assert FOUR[1 := 1][3 := 1] == CROSSED_ONE;
  }

  lemma ScansCross(s: State)
    requires s == Mapped4Pages()
    ensures LookupVpn(false, s.mem, 0, 16, 16) == Some(0)
    ensures LookupVpn(false, OneOut(s.mem, 0, 1, ZERO_PAGE, 1), 0, 32, 16) == Some(1)
  {
    ScanTable(FOUR, ZERO_PAGE, ZERO_PAGE, ZERO_PAGE, 16, 10);
    BetweenMemory(s.mem);
    ScanTable(CROSSED_ONE, ZERO_PAGE, ZERO_PAGE, ZERO_PAGE, 32, 2);
  }

  lemma Mapped4Maps(s: State)
    requires s == Mapped4Pages()
    ensures Maps(ViewOf(Robin(s)), 0, 1, 1) && Maps(ViewOf(Robin(s)), 0, 0, 2)
  {
    HandMoves(s, Robin(s));
    Mapped4Entries(s);
    ViewEntry(s, 0, 0);
    ViewEntry(s, 0, 1);
  }

  lemma CrossedBytes(h: State, at: nat)
    requires h == Robin(Mapped4Pages()) && at == h.hardware[0].address
    ensures LookupVpn(false, h.mem, at, 16, 16) == Some(0)
    ensures LookupVpn(false, OneOut(h.mem, at + 4 * 0, 1, ZERO_PAGE, |h.swap| % 256), at, 32, 16) == Some(1)
  {
    ScansCross(Mapped4Pages());
  }

  lemma Mapped4Data(h: State)
    requires h == Robin(Mapped4Pages())
    ensures h.hardware[0] == Hp(0, 1) && IsData(h, 1) && IsData(h, 2) && h.pages[1] == 0 && h.pages[2] == 0
    ensures Frame(h, 1) == Frame(h, 2)
  {
    Mapped4Frames(Mapped4Pages());
  }

  lemma CrossedHere(h: State)
    requires h == Robin(Mapped4Pages())
    ensures Crossed(h, ZERO_PAGE, 0, 1, 1, 0, 2)
  {
    Mapped4Maps(Mapped4Pages());
    Mapped4Data(h);
    var at := h.hardware[0].address;
    CrossedBytes(h, at);
    CrossedFrom(h, OneOut(h.mem, at + 4 * 0, 1, ZERO_PAGE, |h.swap| % 256), ZERO_PAGE, 0, 1, 1, 0, 2);
  }

  lemma CrossingHand(h: State)
    requires h.freelist == [0, 0, 0, 0] && h.ispagetable == [1, 0, 0, 0] && h.roundrobin == 0
    ensures FreeCount(h) == 0 && NextData(h, h.roundrobin, 4) == Some(1)
    ensures NextData(h.(freelist := h.freelist[1 := 1]), Next(1), 4) == Some(2)
  {
  }

  lemma EvictionsCross(h: State)
    requires h.freelist == [0, 0, 0, 0] && h.ispagetable == [1, 0, 0, 0] && h.roundrobin == 0
    requires Crossed(h, ZERO_PAGE, 0, 1, 1, 0, 2)
    ensures NewCrossedBy(h, 0, 1, 1, 0, 2)
  {
    CrossingHand(h);
  }

  /** Crossing evictions are not sound. */
  lemma CrossedNotSound(h: State, page: Page, q: Pid, v: Pid, f: Pid, u: Pid, g: Pid, pid: Pid)
    requires Valid(h) && Crossed(h, page, q, v, f, u, g) && NextData(h, h.roundrobin, 4) == Some(f)
    ensures !EvictSound(h, pid)
  {
    DataFrameMapped(h, q, v, f);
    TablesApart(h, q, q, f);
    ScanFinds(h, q, v, f);
    forall w: Pid ensures !ScanHitsFrame(h, w, f) {
      if Maps(ViewOf(h), q, w, f) {
        OnlyMapper(ViewOf(h), q, v, f, w);
      }
    }
  }

  lemma NewCrossedUnsound(s: State, q: Pid, v: Pid, f: Pid, u: Pid, g: Pid, pid: Pid, j: nat)
    requires Valid(s) && NewCrossedBy(Robin(s), q, v, f, u, g) && j == 0
    ensures !SpaceSound(s, 2, pid)
  {
    HandMoves(s, Robin(s));
    CrossedNotSound(Robin(s), ZERO_PAGE, q, v, f, u, g, pid);
    FirstSoundness(s, pid, j);
    assert FreeCount(Robin(s)) == FreeCount(s);
    assert !EvictionSound(s, pid, j);
  }

  /** A first map of `pid` whose evictions cross. */
  lemma CrossingIsRight(s: State, q: Pid, v: Pid, f: Pid, u: Pid, g: Pid, pid: Pid)
    requires Valid(s) && BetweenCommands(s) && |s.swap| + 2 <= 256 && s.hardware[pid].inmem == -1
    requires NewCrossedBy(Robin(s), q, v, f, u, g)
    ensures !Sound(s, Map(pid, 0, 1)) && Harmless(s, Map(pid, 0, 1)) && Right(s, Map(pid, 0, 1))
  {
    NewCrossedUnsound(s, q, v, f, u, g, pid, 0);
    assert NewCrossed(Robin(s));
    NoPageYet(s, pid);
    HarmlessKeeps(s, Map(pid, 0, 1));
  }

  lemma NoPageYet(s: State, pid: Pid)
    requires s.hardware[pid].inmem == -1
    ensures EntryAt(s, pid, 0).valpres == 0
  {
  }

  lemma Mapped4Hand(s: State)
    requires s == Mapped4Pages()
    ensures NewCrossedBy(Robin(s), 0, 1, 1, 0, 2) && s.hardware[1].inmem == -1 && |s.swap| == 1
  {
    CrossedHere(Robin(s));
    EvictionsCross(Robin(s));
  }

  /** Every state that four maps lead to, whatever is repaired, is coherent if they lead
      there with everything repaired. */
  lemma ReachedCoherent(cs: seq<Command>, s: State, outs: seq<Output>)
    requires |cs| <= 128 && Leads(REPAIRED, Boot(), cs, s, outs)
    ensures Valid(s) && BetweenCommands(s)
  {
    LinesLastLongEnough(cs);
    ReachableIsCoherent(cs);
  }

  const FOUR_OUT := [MapDone] + [MapDone] + [MapDone] + [MapDone]

  lemma ReachesCrossing() returns (s: State)
    ensures Leads(AS_WRITTEN, Boot(), FOUR_MAPS, s, FOUR_OUT) && Leads(REPAIRED, Boot(), FOUR_MAPS, s, FOUR_OUT)
    ensures NewCrossedBy(Robin(s), 0, 1, 1, 0, 2) && s.hardware[1].inmem == -1 && |s.swap| == 1
  {
    s := Mapped4Pages();
    ReachesMapped4(AS_WRITTEN);
    ReachesMapped4(REPAIRED);
    Mapped4Hand(s);
  }

  /** From the start, as written: four maps of process 0, after which the map of process 1
      is not sound and still right, because its two evictions cross. */
  lemma CrossingHappens() returns (s: State)
    ensures Leads(AS_WRITTEN, Boot(), FOUR_MAPS, s, FOUR_OUT)
    ensures !Sound(s, Map(1, 0, 1)) && Harmless(s, Map(1, 0, 1)) && Right(s, Map(1, 0, 1))
  {
    s := ReachesCrossing();
    ReachedCoherent(FOUR_MAPS, s, FOUR_OUT);
    CrossingIsRight(s, 0, 1, 1, 0, 2, 1);
  }
}
