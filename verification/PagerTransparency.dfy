/** Paging is transparent: a whole session of the repaired pager answers exactly as
    four private flat memories would. */
module PagerTransparency {
  import opened Options
  import opened PagerModel
  import opened PagerTables
  import opened PagerBytes
  import opened PagerEviction
  import opened PagerCommands

  /** Four pages for each of four processes; page `v` of process `p` is at 4 * p + v. */
  type FlatMemory = m: seq<FlatPage> | |m| == 16 witness NOTHING_MAPPED

  const NOTHING_MAPPED: seq<FlatPage> :=
    [Unmapped, Unmapped, Unmapped, Unmapped, Unmapped, Unmapped, Unmapped, Unmapped,
     Unmapped, Unmapped, Unmapped, Unmapped, Unmapped, Unmapped, Unmapped, Unmapped]

  /** What memory looks like to the processes. */
  function Contents(s: State): FlatMemory {
    seq(16, i requires 0 <= i < 16 => PageOf(ViewOf(s), i / 4, i % 4))
  }

  function PageIndex(pid: Pid, vaddr: Vaddr): (i: int)
    ensures 0 <= i < 16
  {
    4 * pid + vaddr / 16
  }

  /** The commands on flat memory: map sets the protection of a page and creates it
      as zeros when it is new, store needs protection 1, load needs a mapped page. */
  function FlatStep(m: FlatMemory, c: Command): (FlatMemory, Output) {
    match c
    case Map(pid, vaddr, val) =>
      var i := PageIndex(pid, vaddr);
      (m[i := FlatMap(m[i], val)], MapDone)
    case Store(pid, vaddr, val) =>
      var i := PageIndex(pid, vaddr);
      var (page, out) := FlatStore(m[i], vaddr, val);
      (m[i := page], out)
    case Load(pid, vaddr) =>
      (m, FlatLoad(m[PageIndex(pid, vaddr)], vaddr))
  }

  function FlatRun(m: FlatMemory, cs: seq<Command>): (FlatMemory, seq<Output>)
    decreases cs
  {
    if cs == [] then (m, [])
    else
      var (m1, out) := FlatStep(m, cs[0]);
      var (m2, outs) := FlatRun(m1, cs[1..]);
      (m2, [out] + outs)
  }

  lemma ContentsAt(s: State, pid: Pid, vaddr: Vaddr)
    ensures Contents(s)[PageIndex(pid, vaddr)] == Seen(s, pid, vaddr)
  {
    var v: Pid := vaddr / 16;
    assert (4 * pid + v) / 4 == pid && (4 * pid + v) % 4 == v;
  }

  lemma ContentsMade(s: State, s': State, pid: Pid, vaddr: Vaddr, page: FlatPage)
    requires OnePage(ViewOf(s), ViewOf(s'), pid, vaddr / 16, page)
    ensures Contents(s') == Contents(s)[PageIndex(pid, vaddr) := page]
  {
    var v: Pid := vaddr / 16;
    forall i | 0 <= i < 16 ensures Contents(s')[i] == Contents(s)[PageIndex(pid, vaddr) := page][i] {
      var p: Pid, w: Pid := i / 4, i % 4;
      assert PageOf(ViewOf(s'), p, w) == if p == pid && w == v then page else PageOf(ViewOf(s), p, w);
      assert i == 4 * p + w;
    }
  }

  lemma ContentsSame(s: State, s': State)
    requires SamePages(ViewOf(s), ViewOf(s'))
    ensures Contents(s') == Contents(s)
  {
    forall i | 0 <= i < 16 ensures Contents(s')[i] == Contents(s)[i] {
      var p: Pid, w: Pid := i / 4, i % 4;
      assert PageOf(ViewOf(s'), p, w) == PageOf(ViewOf(s), p, w);
    }
  }

  /** One repaired command refines its flat counterpart: same answer, same change to
      what the processes see; the bookkeeping stays coherent, a swap line is written for
      each frame evicted, none is ever rewritten, and no frame becomes free. */
  lemma StepRefines(s: State, c: Command)
    requires Valid(s) && Numbered(s, c)
    ensures Step(REPAIRED, s, c).Some?
    ensures var (s', out) := Step(REPAIRED, s, c).value;
      && (Contents(s'), out) == FlatStep(Contents(s), c)
      && Valid(s')
      && s.swap <= s'.swap && |s'.swap| == |s.swap| + Evictions(s, c)
      && FreeCount(s') <= FreeCount(s)
  {
    ContentsAt(s, c.pid, c.vaddr);
    var page := Seen(s, c.pid, c.vaddr);
    match c
    case Map(pid, vaddr, val) =>
      MapMakes(s, pid, vaddr, val);
      ContentsMade(s, MapStep(REPAIRED, s, pid, vaddr, val).value.0, pid, vaddr, FlatMap(page, val));
    case Store(pid, vaddr, val) =>
      StoreMakes(s, pid, vaddr, val);
      ContentsMade(s, StoreStep(REPAIRED, s, pid, vaddr, val).value.0, pid, vaddr, FlatStore(page, vaddr, val).0);
    case Load(pid, vaddr) =>
      LoadMakes(s, pid, vaddr);
      ContentsSame(s, LoadStep(REPAIRED, s, pid, vaddr).value.0);
  }

  /** Every page that the session evicts finds a line number below 256. */
  predicate LinesLast(s: State, cs: seq<Command>)
    decreases cs
  {
    cs != [] ==>
      Numbered(s, cs[0]) && (Step(REPAIRED, s, cs[0]).Some? ==> LinesLast(Step(REPAIRED, s, cs[0]).value.0, cs[1..]))
  }

  lemma TwoLines(s: State, c: Command)
    ensures Evictions(s, c) <= 2
    ensures |s.swap| + 2 <= 256 ==> Numbered(s, c)
  {
  }

  lemma {:induction false} ShortSessionsLast(s: State, cs: seq<Command>)
    requires Valid(s) && |s.swap| + 2 * |cs| <= 256
    ensures LinesLast(s, cs)
    decreases cs
  {
    if cs != [] {
      TwoLines(s, cs[0]);
      StepRefines(s, cs[0]);
      ShortSessionsLast(Step(REPAIRED, s, cs[0]).value.0, cs[1..]);
    }
  }

  lemma {:induction false} RunRefines(s: State, cs: seq<Command>)
    requires Valid(s) && LinesLast(s, cs)
    ensures Run(REPAIRED, s, cs).Some?
    ensures var (s', outs) := Run(REPAIRED, s, cs).value;
      && (Contents(s'), outs) == FlatRun(Contents(s), cs)
      && Valid(s')
      && s.swap <= s'.swap && |s'.swap| <= |s.swap| + 2 * |cs|
      && FreeCount(s') <= FreeCount(s)
    decreases cs
  {
    if cs != [] {
      TwoLines(s, cs[0]);
      StepRefines(s, cs[0]);
      RunRefines(Step(REPAIRED, s, cs[0]).value.0, cs[1..]);
    }
  }

  const EMPTY_TABLES := Tables(
    [1, 1, 1, 1], [-1, -1, -1, -1], [0, 0, 0, 0],
    [Hp(0, -1), Hp(0, -1), Hp(0, -1), Hp(0, -1)],
    seq(16, i => NO_ENTRY), seq(4, i => ZERO_PAGE), [])

  lemma EmptyTablesCoherent()
    ensures Formed(EMPTY_TABLES) && Coherent(EMPTY_TABLES)
    ensures forall p: Pid, v: Pid :: PageOf(EMPTY_TABLES, p, v) == Unmapped
  {
  }

  lemma EmptyView(s: State)
    requires forall k | 0 <= k < 64 :: s.mem[k] == 0
    requires forall p: Pid :: s.hardware[p] == Hp(0, -1) && s.ispagetable[p] == 0
    ensures ViewOf(s) == EMPTY_TABLES.(freelist := s.freelist, pages := s.pages, ispagetable := s.ispagetable,
                                       hardware := s.hardware, swap := s.swap)
  {
    var t := EMPTY_TABLES.(freelist := s.freelist, pages := s.pages, ispagetable := s.ispagetable,
                           hardware := s.hardware, swap := s.swap);
    forall p: Pid, v: Pid ensures EntryAt(s, p, v) == t.entries[4 * p + v] {
      assert TableOf(s, p) == ZERO_PAGE;
    }
    forall f: Pid ensures FrameSeen(s, f) == t.frames[f] {
      assert forall k | 0 <= k < 16 :: Frame(s, f)[k] == s.mem[16 * f + k];
    }
    SameView(s, t);
  }

  lemma BootView()
    ensures ViewOf(Boot()) == EMPTY_TABLES
  {
    EmptyView(Boot());
  }

  lemma NothingMapped(s: State)
    requires ViewOf(s) == EMPTY_TABLES
    ensures Contents(s) == NOTHING_MAPPED
  {
    EmptyTablesCoherent();
    forall i | 0 <= i < 16 ensures Contents(s)[i] == NOTHING_MAPPED[i] {
      assert PageOf(EMPTY_TABLES, i / 4, i % 4) == Unmapped;
    }
  }

  lemma NothingSeen(s: State)
    requires ViewOf(s) == EMPTY_TABLES
    ensures Valid(s) && Contents(s) == NOTHING_MAPPED
  {
    EmptyTablesCoherent();
    NothingMapped(s);
  }

  lemma BootValid()
    ensures Valid(Boot()) && Contents(Boot()) == NOTHING_MAPPED
  {
    BootView();
    NothingSeen(Boot());
  }

  /** Paging transparency: from the start, every session is answered as flat memory
      would answer it, for as long as swap line numbers last. */
  lemma PagingIsTransparent(cs: seq<Command>)
    requires LinesLast(Boot(), cs)
    ensures Run(REPAIRED, Boot(), cs).Some?
    ensures Run(REPAIRED, Boot(), cs).value.1 == FlatRun(NOTHING_MAPPED, cs).1
    ensures Valid(Run(REPAIRED, Boot(), cs).value.0)
    ensures |Run(REPAIRED, Boot(), cs).value.0.swap| <= 2 * |cs|
  {
    BootValid();
    RunRefines(Boot(), cs);
  }

  /** They last for 128 commands, whatever these are. */
  lemma LinesLastLongEnough(cs: seq<Command>)
    requires |cs| <= 128
    ensures LinesLast(Boot(), cs)
  {
    BootValid();
    ShortSessionsLast(Boot(), cs);
  }
}
