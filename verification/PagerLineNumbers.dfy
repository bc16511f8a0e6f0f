/** A session that outlives swap line numbers: one process reads three of its pages in
    turn, each read sending another one to disk, until a line number no longer fits its
    byte and a page is read from the wrong line. Every other departure is repaired. */
module PagerLineNumbers {
  import opened Options
  import opened PagerModel
  import opened PagerTables
  import opened PagerBytes
  import opened PagerEviction
  import opened PagerCommands
  import opened PagerTransparency
  import opened PagerHistory
  import opened PagerLanding
  import opened PagerCrossing
  import opened PagerSpoils
  import opened PagerSessions

  // ----- one process, its page table in frame 0 and no frame free

  predicate Solo(s: State) {
    && s.hardware == HP0 && s.ispagetable == [1, 0, 0, 0]
    && s.freelist == [0, 0, 0, 0] && s.pages == [0, 0, 0, 0]
  }

  lemma SoloArrays(s: State)
    requires Solo(s)
    ensures Arrays(s)
  {
    forall p: Pid ensures PointerAt(s, p) {
    }
    forall f: Pid ensures TableAt(s, f) {
    }
  }

  /** Page `b` is in frame `g`, which the next eviction empties. */
  ghost predicate NextOut(s: State, b: Pid, g: Pid) {
    g > 0 && NextData(s, Next(s.roundrobin), 4) == Some(g) && MappedBy(s, 0, b, g)
  }

  lemma SoloLookup(s: State, b: Pid, g: Pid)
    requires Solo(s) && NextOut(s, b, g)
    ensures LookupVpn(true, s.mem, 0, 16 * g, 16) == Some(b as int)
  {
    LookupFinds(s, 0, b, g, 16);
  }

  lemma SoloEvicts(s: State, b: Pid, g: Pid) returns (a: State)
    requires Solo(s) && NextOut(s, b, g)
    ensures FreeSpace(REPAIRED, s, 1, 0) == Some(a) && Gone(Robin(s), a, 4 * b, g) && FindFree(a) == Some(g)
  {
    SoloLookup(s, b, g);
    SearchFrom(s, Robin(s), Next(s.roundrobin), 4);
    NotAllTablesHere(Robin(s), g);
    a := SoloGone(s, b, g);
    OneEviction(REPAIRED, s, 0);
    OnlyFree(s, a, g);
  }

  lemma SoloGone(s: State, b: Pid, g: Pid) returns (a: State)
    requires Solo(s) && g > 0 && NextData(Robin(s), Next(s.roundrobin), 4) == Some(g)
    requires LookupVpn(true, s.mem, 0, 16 * g, 16) == Some(b as int)
    ensures Evict(REPAIRED, Robin(s), 0) == Some(a) && Gone(Robin(s), a, 4 * b, g)
  {
    var h := Robin(s);
    assert Resident(h, 0) && h.pages[g] == 0;
    OneOutIs(h.mem, 4 * b, g, ZERO_PAGE, |h.swap| % 256);
    a := Evict(REPAIRED, h, 0).value;
  }

  lemma GoneFrame(x: State, a: State, at: int, g: Pid, h: Pid)
    requires Gone(x, a, at, g) && (at + 4 <= 16 * h || 16 * h + 16 <= at)
    ensures Frame(a, h) == if h == g then ZERO_PAGE else Frame(x, h)
  {
    if h != g {
      FrameBeside(x.mem, at, g, ZERO_PAGE, |x.swap| % 256, h);
    } else {
      assert forall k | 0 <= k < 16 :: Frame(a, g)[k] == a.mem[16 * g + k];
    }
  }

  /** What one eviction and one page brought to its frame leave. */
  ghost predicate Turned(s: State, s': State, b: Pid, g: Pid, c: Pid, e: Entry, page: Page) {
    && Solo(s') && s'.roundrobin == Next(g) && s'.swap == s.swap + [Frame(s, g)]
    && EntryAt(s', 0, b) == EntryAt(s, 0, b).(pfn := |s.swap| % 256, valpres := 1) && EntryAt(s', 0, c) == e
    && (forall w: Pid | w != b && w != c :: EntryAt(s', 0, w) == EntryAt(s, 0, w))
    && Frame(s', g) == page && forall h: Pid | h > 0 && h != g :: Frame(s', h) == Frame(s, h)
  }

  /** The entries after both: `a` is without the page of `b`. */
  lemma TurnedEntry(s: State, a: State, s': State, b: Pid, g: Pid, c: Pid, e: Entry, page: Page, w: Pid)
    requires Arrays(s) && Arrays(a) && Resident(s, 0) && g > 0 && !IsTable(s, g) && !IsTable(a, g) && s.hardware == HP0 && b != c
    requires Gone(s, a, 4 * b, g) && Rewrites(a, s', 0, c, g, e, page)
    ensures EntryAt(s', 0, w) ==
      if w == c then e else if w == b then EntryAt(s, 0, b).(pfn := |s.swap| % 256, valpres := 1) else EntryAt(s, 0, w)
  {
    if w != c {
      ArraysApart(a, 0, 0, g);
      TouchedEntry(a, s', 0, c, g, 0, w);
      if w == b {
        GoneWrites(s, a, 4 * b, g, 0, b);
      } else {
        GoneKeeps(s, a, 4 * b, g, 0, w);
      }
    }
  }

  lemma TurnedFrame(s: State, a: State, s': State, b: Pid, g: Pid, c: Pid, e: Entry, page: Page, f: Pid)
    requires Arrays(a) && !IsTable(a, f) && s.hardware == HP0 && f > 0
    requires Gone(s, a, 4 * b, g) && Rewrites(a, s', 0, c, g, e, page)
    ensures Frame(s', f) == if f == g then page else Frame(s, f)
  {
    if f != g {
      GoneFrame(s, a, 4 * b, g, f);
      ArraysApart(a, 0, 0, f);
      TouchedFrame(a, s', 0, c, g, f);
    }
  }

  lemma TurnedArrays(s: State, a: State, s': State, at: int, g: Pid)
    requires Solo(s) && g > 0 && Gone(Robin(s), a, at, g)
    requires s' == a.(mem := s'.mem, freelist := a.freelist[g := 0], pages := a.pages[g := 0])
    ensures Solo(s') && s'.roundrobin == Next(g) && s'.swap == s.swap + [Frame(s, g)]
  {
  }

  lemma SoloTurned(s: State, a: State, s': State, b: Pid, g: Pid, c: Pid, e: Entry, page: Page)
    requires Solo(s) && g > 0 && b != c && Gone(Robin(s), a, 4 * b, g)
    requires Rewrites(a, s', 0, c, g, e, page)
    requires s' == a.(mem := s'.mem, freelist := a.freelist[g := 0], pages := a.pages[g := 0])
    ensures Turned(s, s', b, g, c, e, page)
  {
    var h := Robin(s);
    SoloArrays(h);
    GoneArrays(h, a, 4 * b, g, 0);
    HandMoves(s, h);
    TurnedArrays(s, a, s', 4 * b, g);
    forall w: Pid
      ensures EntryAt(s', 0, w) ==
        if w == c then e else if w == b then EntryAt(s, 0, b).(pfn := |s.swap| % 256, valpres := 1) else EntryAt(s, 0, w)
    {
      TurnedEntry(h, a, s', b, g, c, e, page, w);
    }
    forall f: Pid | f > 0 ensures Frame(s', f) == if f == g then page else Frame(s, f) {
      TurnedFrame(h, a, s', b, g, c, e, page, f);
    }
  }

  /** A page read from disk takes the place of the next one out. */
  lemma SoloLoads(s: State, b: Pid, g: Pid, c: Pid, line: Byte) returns (s': State)
    requires Solo(s) && NextOut(s, b, g) && b != c
    requires EntryAt(s, 0, c).valpres == 1 && EntryAt(s, 0, c).pfn == line < |s.swap|
    ensures Step(REPAIRED, s, Load(0, 16 * c)) == Some((s', Loaded(s.swap[line][0])))
    ensures Turned(s, s', b, g, c, EntryAt(s, 0, c).(pfn := 16 * g, valpres := 2), s.swap[line])
  {
    var a := SoloEvicts(s, b, g);
    SoloArrays(Robin(s));
    HandMoves(s, Robin(s));
    GoneKeeps(Robin(s), a, 4 * b, g, 0, c);
    s' := SoloBack(s, a, b, g, c, line);
    SoloReads(s, a, s', g, c, line);
  }

  lemma SoloBack(s: State, a: State, b: Pid, g: Pid, c: Pid, line: Byte) returns (s': State)
    requires Solo(s) && g > 0 && b != c && Gone(Robin(s), a, 4 * b, g) && FindFree(a) == Some(g)
    requires EntryAt(a, 0, c) == EntryAt(s, 0, c) && EntryAt(s, 0, c).pfn == line < |s.swap|
    ensures LoadPage(a, 0, 16 * c) == Some(s')
    ensures Turned(s, s', b, g, c, EntryAt(s, 0, c).(pfn := 16 * g, valpres := 2), s.swap[line])
  {
    assert (16 * c) / 16 == c;
    LoadPageParts(a, 0, 16 * c, g);
    s' := LoadPage(a, 0, 16 * c).value;
    SoloArrays(Robin(s));
    GoneArrays(Robin(s), a, 4 * b, g, 0);
    ArraysApart(a, 0, 0, g);
    SwappedInRewrites(a, s', 0, c, g, s.swap[line]);
    SoloTurned(s, a, s', b, g, c, EntryAt(s, 0, c).(pfn := 16 * g, valpres := 2), s.swap[line]);
  }

  lemma SoloSteps(s: State, a: State, s': State, c: Pid)
    requires Solo(s) && EntryAt(s, 0, c).valpres == 1
    requires FreeSpace(REPAIRED, s, 1, 0) == Some(a) && LoadPage(a, 0, 16 * c) == Some(s')
    ensures Step(REPAIRED, s, Load(0, 16 * c)) == LoadHere(s', 0, 16 * c, 0)
  {
    assert (16 * c) / 16 == c;
    ReadValpres(s, 0, 16 * c);
    assert SwapIn(REPAIRED, s, 0, 16 * c) == Some(s');
  }

  lemma SoloReads(s: State, a: State, s': State, g: Pid, c: Pid, line: Byte)
    requires Solo(s) && EntryAt(s, 0, c).valpres == 1 && line < |s.swap|
    requires FreeSpace(REPAIRED, s, 1, 0) == Some(a) && LoadPage(a, 0, 16 * c) == Some(s')
    requires Solo(s') && EntryAt(s', 0, c).pfn == 16 * g && EntryAt(s', 0, c).valpres == 2 && Frame(s', g) == s.swap[line]
    ensures Step(REPAIRED, s, Load(0, 16 * c)) == Some((s', Loaded(s.swap[line][0])))
  {
    assert (16 * c) / 16 == c && (16 * c) % 16 == 0;
    SoloSteps(s, a, s', c);
    ConvertFinds(s', 0, 16 * c);
    FrameByte(s', g, 0);
  }

  /** A page never allocated takes the place of the next one out. */
  lemma SoloMaps(s: State, b: Pid, g: Pid, c: Pid) returns (s': State)
    requires Solo(s) && NextOut(s, b, g) && b != c && EntryAt(s, 0, c).valpres == 0
    ensures Step(REPAIRED, s, Map(0, 16 * c, 1)) == Some((s', MapDone))
    ensures Turned(s, s', b, g, c, EntryAt(s, 0, c).(pfn := 16 * g, prot := 1, valpres := 2), ZERO_PAGE)
  {
    var a := SoloEvicts(s, b, g);
    SoloArrays(Robin(s));
    HandMoves(s, Robin(s));
    GoneKeeps(Robin(s), a, 4 * b, g, 0, c);
    s' := SoloPlaced(s, a, b, g, c);
    SoloMapSteps(s, a, s', c);
  }

  lemma SoloPlaced(s: State, a: State, b: Pid, g: Pid, c: Pid) returns (s': State)
    requires Solo(s) && g > 0 && b != c && Gone(Robin(s), a, 4 * b, g) && FindFree(a) == Some(g)
    requires EntryAt(a, 0, c) == EntryAt(s, 0, c)
    ensures PlacePage(a, 0, 16 * c, 1) == Some(s')
    ensures Turned(s, s', b, g, c, EntryAt(s, 0, c).(pfn := 16 * g, prot := 1, valpres := 2), ZERO_PAGE)
  {
    assert (16 * c) / 16 == c;
    PlacePageParts(a, 0, 16 * c, 1, g);
    s' := PlacePage(a, 0, 16 * c, 1).value;
    SoloArrays(Robin(s));
    GoneArrays(Robin(s), a, 4 * b, g, 0);
    ArraysApart(a, 0, 0, g);
    PlacedRewrites(a, s', 0, c, 1, g);
    GoneFrame(Robin(s), a, 4 * b, g, g);
    SoloTurned(s, a, s', b, g, c, EntryAt(s, 0, c).(pfn := 16 * g, prot := 1, valpres := 2), ZERO_PAGE);
  }

  lemma SoloMapSteps(s: State, a: State, s': State, c: Pid)
    requires Solo(s) && EntryAt(s, 0, c).valpres == 0
    requires FreeSpace(REPAIRED, s, 1, 0) == Some(a) && PlacePage(a, 0, 16 * c, 1) == Some(s')
    ensures Step(REPAIRED, s, Map(0, 16 * c, 1)) == Some((s', MapDone))
  {
    assert (16 * c) / 16 == c;
    ReadValpres(s, 0, 16 * c);
    assert AllocatePage(REPAIRED, s, 0, 16 * c, 1) == Some(s');
  }

  // ----- three pages that take turns in two frames

  /** What the pages hold: page 1 has a byte 7, the others are zeros. */
  function Content(v: Pid): Page {
    if v == 1 then FilledWith(7) else ZERO_PAGE
  }

  predicate Three(a: Pid, b: Pid, c: Pid) {
    a != b && b != c && a != c && a < 3 && b < 3 && c < 3
  }

  /** Page `a` came last, to frame `f`; page `b` is next to go; page `c` is on disk, on
      the last line as far as a byte tells; page 3 stays where it is. */
  ghost predicate Cycle(s: State, a: Pid, b: Pid, c: Pid, f: Pid) {
    && Solo(s) && Three(a, b, c) && (f == 1 || f == 3) && s.roundrobin == Next(f) && |s.swap| > 0
    && EntryAt(s, 0, a) == Entry(a, 16 * f, 1, 2) && EntryAt(s, 0, b) == Entry(b, 16 * (4 - f), 1, 2)
    && EntryAt(s, 0, c) == Entry(c, (|s.swap| - 1) % 256, 1, 1) && EntryAt(s, 0, 3) == Entry(3, 32, 1, 2)
    && Frame(s, f) == Content(a) && Frame(s, 4 - f) == Content(b)
    && s.swap[|s.swap| - 1] == Content(c) && s.swap[0] == Content(1)
  }

  lemma CycleNext(s: State, a: Pid, b: Pid, c: Pid, f: Pid)
    requires Cycle(s, a, b, c, f)
    ensures NextOut(s, b, 4 - f)
  {
    forall w: Pid
      ensures EntryAt(s, 0, w).vpn == w
      ensures EntryAt(s, 0, w).valpres == 2 && EntryAt(s, 0, w).pfn == 16 * (4 - f) <==> w == b
    {
      assert w == a || w == b || w == c || w == 3;
    }
    CycleHand(s, f);
  }

  lemma CycleHand(s: State, f: Pid)
    requires Solo(s) && (f == 1 || f == 3) && s.roundrobin == Next(f)
    ensures NextData(s, Next(s.roundrobin), 4) == Some(4 - f)
  {
  }

  lemma CycleLine(s: State, a: Pid, b: Pid, c: Pid, f: Pid, line: Byte)
    requires Cycle(s, a, b, c, f) && |s.swap| <= 256 && line == EntryAt(s, 0, c).pfn
    ensures line == |s.swap| - 1 && s.swap[line] == Content(c)
  {
  }

  /** The page on disk is read, and the turn goes on: as long as there are line numbers,
      the answer is what the page holds. */
  lemma CycleTurns(s: State, a: Pid, b: Pid, c: Pid, f: Pid) returns (s': State)
    requires Cycle(s, a, b, c, f) && |s.swap| <= 256
    ensures Step(REPAIRED, s, Load(0, 16 * c)) == Some((s', Loaded(Content(c)[0])))
    ensures Cycle(s', c, a, b, 4 - f) && |s'.swap| == |s.swap| + 1
  {
    CycleNext(s, a, b, c, f);
    CycleLine(s, a, b, c, f, EntryAt(s, 0, c).pfn);
    s' := SoloLoads(s, b, 4 - f, c, EntryAt(s, 0, c).pfn);
    CycleFrom(s, s', a, b, c, f);
  }

  lemma CycleFrom(s: State, s': State, a: Pid, b: Pid, c: Pid, f: Pid)
    requires Cycle(s, a, b, c, f)
    requires Turned(s, s', b, 4 - f, c, Entry(c, 16 * (4 - f), 1, 2), Content(c))
    ensures Cycle(s', c, a, b, 4 - f) && |s'.swap| == |s.swap| + 1
  {
  }

  /** With 257 lines the page on disk is read from the first. */
  lemma CycleBreaks(s: State, a: Pid, b: Pid, c: Pid, f: Pid)
    requires Cycle(s, a, b, c, f) && |s.swap| == 257 && c != 1
    ensures Step(REPAIRED, s, Load(0, 16 * c)).Some?
    ensures Step(REPAIRED, s, Load(0, 16 * c)).value.1 == Loaded(7) != Loaded(Content(c)[0])
  {
    CycleNext(s, a, b, c, f);
    var s' := SoloLoads(s, b, 4 - f, c, 0);
  }

  // ----- the session

  /** The page that the `m`-th read of the turn is of. */
  function Who(m: int): Pid {
    if m % 3 == 1 then 1 else if m % 3 == 2 then 0 else 2
  }

  function Turns(m: nat): seq<Command> {
    if m == 0 then [] else Turns(m - 1) + [Load(0, 16 * Who(m))]
  }

  function TurnsOut(m: nat): seq<Output> {
    if m == 0 then [] else TurnsOut(m - 1) + [Loaded(Content(Who(m))[0])]
  }

  /** The frame that the `m`-th read brings its page to. */
  function Where(m: int): Pid {
    if m % 2 == 1 then 1 else 3
  }

  /** The state after the first `m` reads. */
  ghost predicate Reads(s: State, m: nat) {
    Cycle(s, Who(m), Who(m - 1), Who(m + 1), Where(m)) && |s.swap| == m + 1
  }

  lemma Rotation(m: nat)
    ensures Who(m + 1 - 1) == Who(m) && Who(m + 1 + 1) == Who(m - 1) && Where(m + 1) == 4 - Where(m)
  {
    var q, r := m / 3, m % 3;
    assert m + 2 == 3 * (q + 1) + (r - 1) && m - 1 == 3 * (q - 1) + (r + 2);
    assert (m + 2) % 3 == (m - 1) % 3;
    assert (m + 1) % 2 != m % 2;
  }

  lemma ReadsOn(s: State, m: nat) returns (s': State)
    requires Reads(s, m) && m < 256
    ensures Step(REPAIRED, s, Load(0, 16 * Who(m + 1))) == Some((s', Loaded(Content(Who(m + 1))[0]))) && Reads(s', m + 1)
  {
    s' := CycleTurns(s, Who(m), Who(m - 1), Who(m + 1), Where(m));
    Rotation(m);
  }

  lemma TurnsLast(cs: seq<Command>, outs: seq<Output>, m: nat)
    ensures cs + Turns(m + 1) == cs + Turns(m) + [Load(0, 16 * Who(m + 1))]
    ensures outs + TurnsOut(m + 1) == outs + TurnsOut(m) + [Loaded(Content(Who(m + 1))[0])]
  {
  }

  /** After the commands `cs`, `m` reads get the answers they should. */
  ghost predicate Reached(start: State, cs: seq<Command>, outs: seq<Output>, m: nat) {
    exists s: State :: Leads(REPAIRED, start, cs + Turns(m), s, outs + TurnsOut(m)) && Reads(s, m)
  }

  lemma ReadsOneMore(start: State, cs: seq<Command>, outs: seq<Output>, m: nat, n: nat)
    requires Reached(start, cs, outs, m) && m < 256 && n == m + 1
    ensures Reached(start, cs, outs, n)
  {
    var r: State :| Leads(REPAIRED, start, cs + Turns(m), r, outs + TurnsOut(m)) && Reads(r, m);
    var s := ReadsOn(r, m);
    TurnsLast(cs, outs, m);
    LeadsOn(REPAIRED, start, cs + Turns(m), r, outs + TurnsOut(m), Load(0, 16 * Who(n)), s, Loaded(Content(Who(n))[0]));
  }

  lemma {:induction false} Climb(holds: nat -> bool, k: nat, m: nat)
    requires holds(k) && k <= m && forall n: nat | k <= n < m && holds(n) :: holds(n + 1)
    ensures holds(m)
    decreases m
  {
    if m > k {
      Climb(holds, k, m - 1);
    }
  }

  lemma ReadsReached(start: State, cs: seq<Command>, outs: seq<Output>, k: nat, m: nat)
    requires Reached(start, cs, outs, k) && k <= m <= 256
    ensures Reached(start, cs, outs, m)
  {
    var reached := (n: nat) => Reached(start, cs, outs, n);
    forall n: nat | k <= n < m && reached(n) ensures reached(n + 1) {
      ReadsOneMore(start, cs, outs, n, n + 1);
    }
    Climb(reached, k, m);
  }

  // ----- how it starts

  lemma FullTable(s: State)
    requires s == Mapped2(7, 1)
    ensures Resident(s, 0) && TableOf(s, 0) == TABLE_2
  {
  }

  lemma FullEntries(s: State)
    requires s == Mapped2(7, 1)
    ensures Solo(s) && s.roundrobin == 1 && s.swap == []
    ensures EntryAt(s, 0, 0) == Entry(0, 16, 1, 2) && EntryAt(s, 0, 1) == Entry(1, 32, 1, 2)
    ensures EntryAt(s, 0, 2) == Entry(2, 48, 1, 2) && EntryAt(s, 0, 3) == Entry(3, 0, 0, 0)
  {
    FullTable(s);
  }

  lemma FullFrames(s: State)
    requires s == Mapped2(7, 1)
    ensures Frame(s, 1) == ZERO_PAGE && Frame(s, 2) == FilledWith(7) && Frame(s, 3) == ZERO_PAGE
  {
    FrameOf(TABLE_2, ZERO_PAGE, FilledWith(7), ZERO_PAGE, 1);
    FrameOf(TABLE_2, ZERO_PAGE, FilledWith(7), ZERO_PAGE, 2);
    FrameOf(TABLE_2, ZERO_PAGE, FilledWith(7), ZERO_PAGE, 3);
  }

  /** Page 3 is mapped, for which page 1 goes to the first line. */
  lemma MapsLast(s: State) returns (s': State)
    requires s == Mapped2(7, 1)
    ensures Step(REPAIRED, s, Map(0, 48, 1)) == Some((s', MapDone))
    ensures Solo(s') && s'.roundrobin == 3 && s'.swap == [FilledWith(7)]
    ensures EntryAt(s', 0, 0) == Entry(0, 16, 1, 2) && EntryAt(s', 0, 1) == Entry(1, 0, 1, 1)
    ensures EntryAt(s', 0, 2) == Entry(2, 48, 1, 2) && EntryAt(s', 0, 3) == Entry(3, 32, 1, 2)
    ensures Frame(s', 1) == ZERO_PAGE && Frame(s', 3) == ZERO_PAGE
  {
    FullEntries(s);
    FullFrames(s);
    FullOut(s);
    s' := SoloMaps(s, 1, 2, 3);
    assert [] + [FilledWith(7)] == [FilledWith(7)];
  }

  lemma FullOut(s: State)
    requires Solo(s) && s.roundrobin == 1
    requires EntryAt(s, 0, 0) == Entry(0, 16, 1, 2) && EntryAt(s, 0, 1) == Entry(1, 32, 1, 2)
    requires EntryAt(s, 0, 2) == Entry(2, 48, 1, 2) && EntryAt(s, 0, 3) == Entry(3, 0, 0, 0)
    ensures NextOut(s, 1, 2)
  {
    forall w: Pid
      ensures EntryAt(s, 0, w).vpn == w
      ensures EntryAt(s, 0, w).valpres == 2 && EntryAt(s, 0, w).pfn == 32 <==> w == 1
    {
      assert w == 0 || w == 1 || w == 2 || w == 3;
    }
  }

  /** Page 1 is read back, for which page 0 goes. */
  lemma ReadsFirst(s: State) returns (s': State)
    requires Solo(s) && s.roundrobin == 3 && s.swap == [FilledWith(7)]
    requires EntryAt(s, 0, 0) == Entry(0, 16, 1, 2) && EntryAt(s, 0, 1) == Entry(1, 0, 1, 1)
    requires EntryAt(s, 0, 2) == Entry(2, 48, 1, 2) && EntryAt(s, 0, 3) == Entry(3, 32, 1, 2)
    requires Frame(s, 1) == ZERO_PAGE && Frame(s, 3) == ZERO_PAGE
    ensures Step(REPAIRED, s, Load(0, 16)) == Some((s', Loaded(7))) && Reads(s', 1)
  {
    FirstOut(s);
    s' := SoloLoads(s, 0, 1, 1, 0);
    FirstCycle(s, s');
  }

  lemma FirstOut(s: State)
    requires Solo(s) && s.roundrobin == 3
    requires EntryAt(s, 0, 0) == Entry(0, 16, 1, 2) && EntryAt(s, 0, 1) == Entry(1, 0, 1, 1)
    requires EntryAt(s, 0, 2) == Entry(2, 48, 1, 2) && EntryAt(s, 0, 3) == Entry(3, 32, 1, 2)
    ensures NextOut(s, 0, 1)
  {
    forall w: Pid
      ensures EntryAt(s, 0, w).vpn == w
      ensures EntryAt(s, 0, w).valpres == 2 && EntryAt(s, 0, w).pfn == 16 <==> w == 0
    {
      assert w == 0 || w == 1 || w == 2 || w == 3;
    }
  }

  lemma FirstCycle(s: State, s': State)
    requires s.swap == [FilledWith(7)] && Frame(s, 1) == ZERO_PAGE && Frame(s, 3) == ZERO_PAGE
    requires EntryAt(s, 0, 0) == Entry(0, 16, 1, 2)
    requires EntryAt(s, 0, 2) == Entry(2, 48, 1, 2) && EntryAt(s, 0, 3) == Entry(3, 32, 1, 2)
    requires Turned(s, s', 0, 1, 1, Entry(1, 16, 1, 2), FilledWith(7))
    ensures Reads(s', 1)
  {
    assert Cycle(s', 1, 2, 0, 1);
  }

  // ----- what flat memory answers

  /** The pages of process 0 in flat memory, the first `k` of them mapped. */
  ghost predicate FlatPages(cs: seq<Command>, outs: seq<Output>, pages: seq<FlatPage>) {
    var (m, answers) := FlatRun(NOTHING_MAPPED, cs);
    |pages| == 4 && answers == outs && forall v: Pid :: m[v] == pages[v]
  }

  lemma FlatNext(cs: seq<Command>, outs: seq<Output>, pages: seq<FlatPage>, c: Command, pages': seq<FlatPage>, out: Output)
    requires FlatPages(cs, outs, pages) && c.pid == 0
    requires match c
      case Map(_, vaddr, val) => pages' == pages[vaddr / 16 := FlatMap(pages[vaddr / 16], val)] && out == MapDone
      case Store(_, vaddr, val) =>
        pages' == pages[vaddr / 16 := FlatStore(pages[vaddr / 16], vaddr, val).0] && out == FlatStore(pages[vaddr / 16], vaddr, val).1
      case Load(_, vaddr) => pages' == pages && out == FlatLoad(pages[vaddr / 16], vaddr)
    ensures FlatPages(cs + [c], outs + [out], pages')
  {
    FlatOn(NOTHING_MAPPED, cs, c);
  }

  predicate Contents7(pages: seq<FlatPage>) {
    |pages| == 4 && forall v: Pid :: pages[v] == Mapped(1, Content(v))
  }

  lemma FlatLoads(cs: seq<Command>, outs: seq<Output>, pages: seq<FlatPage>, v: Pid)
    requires FlatPages(cs, outs, pages) && Contents7(pages)
    ensures FlatPages(cs + [Load(0, 16 * v)], outs + [Loaded(Content(v)[0])], pages)
  {
    assert (16 * v) / 16 == v && (16 * v) % 16 == 0;
    FlatNext(cs, outs, pages, Load(0, 16 * v), pages, Loaded(Content(v)[0]));
  }

  lemma {:induction false} FlatTurns(cs: seq<Command>, outs: seq<Output>, pages: seq<FlatPage>, m: nat)
    requires FlatPages(cs, outs, pages) && Contents7(pages)
    ensures FlatPages(cs + Turns(m), outs + TurnsOut(m), pages)
  {
    if m == 0 {
      assert cs + Turns(m) == cs && outs + TurnsOut(m) == outs;
    } else {
      FlatTurns(cs, outs, pages, m - 1);
      FlatLoads(cs + Turns(m - 1), outs + TurnsOut(m - 1), pages, Who(m));
      TurnsLast(cs, outs, m - 1);
    }
  }

  /** Flat memory over the commands before the reads, from the first on. */
  lemma FlatRefilled(cs: seq<Command>, outs: seq<Output>, pages: seq<FlatPage>)
    requires FlatPages(cs, outs, pages) && pages == [Mapped(1, ZERO_PAGE), Unmapped, Unmapped, Unmapped]
    ensures FlatPages(cs + [Map(0, 16, 1)] + [Store(0, 16, 7)] + [Map(0, 32, 1)] + [Map(0, 48, 1)],
                      outs + [MapDone] + [Stored] + [MapDone] + [MapDone],
                      [Mapped(1, ZERO_PAGE), Mapped(1, FilledWith(7)), Mapped(1, ZERO_PAGE), Mapped(1, ZERO_PAGE)])
  {
    var pages1 := [Mapped(1, ZERO_PAGE), Mapped(1, ZERO_PAGE), Unmapped, Unmapped];
    var pages2 := [Mapped(1, ZERO_PAGE), Mapped(1, FilledWith(7)), Unmapped, Unmapped];
    var pages3 := [Mapped(1, ZERO_PAGE), Mapped(1, FilledWith(7)), Mapped(1, ZERO_PAGE), Unmapped];
    FlatNext(cs, outs, pages, Map(0, 16, 1), pages1, MapDone);
    assert ZERO_PAGE[0 := 7] == FilledWith(7);
    FlatNext(cs + [Map(0, 16, 1)], outs + [MapDone], pages1, Store(0, 16, 7), pages2, Stored);
    FlatNext(cs + [Map(0, 16, 1)] + [Store(0, 16, 7)], outs + [MapDone] + [Stored], pages2, Map(0, 32, 1), pages3, MapDone);
    FlatNext(cs + [Map(0, 16, 1)] + [Store(0, 16, 7)] + [Map(0, 32, 1)], outs + [MapDone] + [Stored] + [MapDone], pages3,
             Map(0, 48, 1), [Mapped(1, ZERO_PAGE), Mapped(1, FilledWith(7)), Mapped(1, ZERO_PAGE), Mapped(1, ZERO_PAGE)], MapDone);
  }

  lemma FlatNone(cs: seq<Command>)
    requires cs == []
    ensures FlatPages(cs, [], [Unmapped, Unmapped, Unmapped, Unmapped])
  {
    FlatNothing(NOTHING_MAPPED);
  }

  lemma FlatMapsOne(cs: seq<Command>, outs: seq<Output>)
    requires FlatPages(cs, outs, [Unmapped, Unmapped, Unmapped, Unmapped])
    ensures FlatPages(cs + [Map(0, 0, 1)], outs + [MapDone], [Mapped(1, ZERO_PAGE), Unmapped, Unmapped, Unmapped])
  {
    FlatNext(cs, outs, [Unmapped, Unmapped, Unmapped, Unmapped], Map(0, 0, 1),
             [Mapped(1, ZERO_PAGE), Unmapped, Unmapped, Unmapped], MapDone);
  }

  lemma FlatFirst(cs: seq<Command>, outs: seq<Output>)
    requires cs == MAP_0 && outs == [MapDone]
    ensures FlatPages(cs, outs, [Mapped(1, ZERO_PAGE), Unmapped, Unmapped, Unmapped])
  {
    var none := cs[1..];
    FlatNone(none);
    FlatMapsOne(none, []);
    assert none + [Map(0, 0, 1)] == cs && [] + [MapDone] == outs;
  }

  lemma ReadsStart()
    ensures Reached(Boot(), REFILLED, REFILLED_OUT, 1)
  {
    ReachesStored(REPAIRED);
    MapsPage2(REPAIRED, 7, 1);
    LeadsOn(REPAIRED, Boot(), STORED, Mapped1(7), DONE_2 + [Stored], Map(0, 32, 1), Mapped2(7, 1), MapDone);
    var s := MapsLast(Mapped2(7, 1));
    LeadsOn(REPAIRED, Boot(), STORED + [Map(0, 32, 1)], Mapped2(7, 1), DONE_2 + [Stored] + [MapDone], Map(0, 48, 1), s, MapDone);
    var s1 := ReadsFirst(s);
    LeadsOn(REPAIRED, Boot(), REFILLED, s, REFILLED_OUT, Load(0, 16), s1, Loaded(7));
    OneTurn(REFILLED, REFILLED_OUT, 1);
  }

  lemma OneTurn(cs: seq<Command>, outs: seq<Output>, m: nat)
    requires m == 1
    ensures cs + Turns(m) == cs + [Load(0, 16)] && outs + TurnsOut(m) == outs + [Loaded(7)]
  {
    TurnsLast(cs, outs, 0);
  }

  /** From the start: five commands, and then `m` = 256 reads that all find what they
      should. The next finds a 7 in a page of zeros, because the 257th swap line is
      recorded as the first. */
  lemma LineNumbersRunOut(m: nat)
    requires m == 256
    ensures Run(REPAIRED, Boot(), REFILLED + Turns(m) + [Load(0, 0)]).Some?
    ensures Run(REPAIRED, Boot(), REFILLED + Turns(m) + [Load(0, 0)]).value.1 == REFILLED_OUT + TurnsOut(m) + [Loaded(7)]
    ensures FlatRun(NOTHING_MAPPED, REFILLED + Turns(m) + [Load(0, 0)]).1 == REFILLED_OUT + TurnsOut(m) + [Loaded(0)]
  {
    ReadsRunOut(m);
    FlatFirst(MAP_0, [MapDone]);
    FlatRunsOut(MAP_0, [MapDone], m);
  }

  lemma FlatRunsOut(cs: seq<Command>, outs: seq<Output>, m: nat)
    requires FlatPages(cs, outs, [Mapped(1, ZERO_PAGE), Unmapped, Unmapped, Unmapped])
    ensures FlatRun(NOTHING_MAPPED, cs + [Map(0, 16, 1)] + [Store(0, 16, 7)] + [Map(0, 32, 1)] + [Map(0, 48, 1)]
                                       + Turns(m) + [Load(0, 0)]).1
         == outs + [MapDone] + [Stored] + [MapDone] + [MapDone] + TurnsOut(m) + [Loaded(0)]
  {
    var pages := [Mapped(1, ZERO_PAGE), Mapped(1, FilledWith(7)), Mapped(1, ZERO_PAGE), Mapped(1, ZERO_PAGE)];
    FlatRefilled(cs, outs, [Mapped(1, ZERO_PAGE), Unmapped, Unmapped, Unmapped]);
    FlatContents(pages);
    FlatLast(cs + [Map(0, 16, 1)] + [Store(0, 16, 7)] + [Map(0, 32, 1)] + [Map(0, 48, 1)],
             outs + [MapDone] + [Stored] + [MapDone] + [MapDone], pages, m);
  }

  lemma FlatContents(pages: seq<FlatPage>)
    requires pages == [Mapped(1, ZERO_PAGE), Mapped(1, FilledWith(7)), Mapped(1, ZERO_PAGE), Mapped(1, ZERO_PAGE)]
    ensures Contents7(pages)
  {
  }

  lemma ReadsRunOut(m: nat)
    requires m == 256
    ensures Run(REPAIRED, Boot(), REFILLED + Turns(m) + [Load(0, 0)]).Some?
    ensures Run(REPAIRED, Boot(), REFILLED + Turns(m) + [Load(0, 0)]).value.1 == REFILLED_OUT + TurnsOut(m) + [Loaded(7)]
  {
    ReadsStart();
    ReadsReached(Boot(), REFILLED, REFILLED_OUT, 1, m);
    LastRead(REFILLED, REFILLED_OUT, m);
  }

  lemma WhoIsLast(m: nat)
    requires m == 256
    ensures Who(m + 1) == 0
  {
  }

  lemma LastBreaks(s: State, m: nat)
    requires Reads(s, m) && |s.swap| == 257 && Who(m + 1) == 0
    ensures Step(REPAIRED, s, Load(0, 0)).Some? && Step(REPAIRED, s, Load(0, 0)).value.1 == Loaded(7)
  {
    BreaksAtZero(s, Who(m), Who(m - 1), Who(m + 1), Where(m));
  }

  lemma BreaksAtZero(s: State, a: Pid, b: Pid, c: Pid, f: Pid)
    requires Cycle(s, a, b, c, f) && |s.swap| == 257 && c == 0
    ensures Step(REPAIRED, s, Load(0, 0)).Some? && Step(REPAIRED, s, Load(0, 0)).value.1 == Loaded(7)
  {
    CycleBreaks(s, a, b, c, f);
  }

  lemma LastRead(cs: seq<Command>, outs: seq<Output>, m: nat)
    requires Reached(Boot(), cs, outs, m) && m == 256
    ensures Run(REPAIRED, Boot(), cs + Turns(m) + [Load(0, 0)]).Some?
    ensures Run(REPAIRED, Boot(), cs + Turns(m) + [Load(0, 0)]).value.1 == outs + TurnsOut(m) + [Loaded(7)]
  {
    var s: State :| Leads(REPAIRED, Boot(), cs + Turns(m), s, outs + TurnsOut(m)) && Reads(s, m);
    WhoIsLast(m);
    LastBreaks(s, m);
    LastAnswer(REPAIRED, cs + Turns(m), s, outs + TurnsOut(m), Load(0, 0));
  }

  lemma FlatLast(cs: seq<Command>, outs: seq<Output>, pages: seq<FlatPage>, m: nat)
    requires FlatPages(cs, outs, pages) && Contents7(pages)
    ensures FlatRun(NOTHING_MAPPED, cs + Turns(m) + [Load(0, 0)]).1 == outs + TurnsOut(m) + [Loaded(0)]
  {
    FlatTurns(cs, outs, pages, m);
    FlatLoads(cs + Turns(m), outs + TurnsOut(m), pages, 0);
  }
}
