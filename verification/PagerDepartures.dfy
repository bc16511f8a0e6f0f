/** A command whose evictions go wrong, and do not cross, ends with damage: for the
    process it serves when its own table was in memory, for another otherwise. */
module PagerDepartures {
  import opened Options
  import opened PagerModel
  import opened PagerTables
  import opened PagerBytes
  import opened PagerEviction
  import opened PagerCommands
  import opened PagerPhases
  import opened PagerAsWritten
  import opened PagerLanding
  import opened PagerSoundness
  import opened PagerCrossing
  import opened PagerSpoils

  lemma SpaceUnsound(s: State, pid: Pid)
    requires !SpaceSound(s, 1, pid)
    ensures FreeCount(s) == 0 && !EvictSound(Robin(s), pid)
  {
    var j: nat :| j < Shortage(s, 1) && !EvictionSound(s, pid, j);
    assert EvictTimes(REPAIRED, Robin(s), pid, 0) == Some(Robin(s));
  }

  lemma RobinTables(s: State)
    ensures AllTables(Robin(s)) == AllTables(s)
  {
    assert forall f: Pid :: IsTable(Robin(s), f) == IsTable(s, f);
  }

  lemma SameDamage(s: State, t: State, x: State, pid: Pid, q: Pid, v: Pid)
    requires SamePages(ViewOf(s), ViewOf(t)) && Spoilt(t, x, pid, q, v)
    ensures Spoilt(s, x, pid, q, v)
  {
    assert PageOf(ViewOf(t), q, v) == PageOf(ViewOf(s), q, v);
  }

  // ----- one eviction

  lemma TwoMappersInvalid(x: State, q: Pid, v: Pid, w: Pid, f: Pid)
    requires MapsTo(x, q, v, f) && MapsTo(x, q, w, f) && v != w
    ensures !Valid(x)
  {
    ViewEntry(x, q, v);
    ViewEntry(x, q, w);
    assert Maps(ViewOf(x), q, v, f) && Maps(ViewOf(x), q, w, f);
  }

  lemma MissPlaced(h: State, a: State, x: State, pid: Pid, vaddr: Vaddr, q: Pid, v: Pid, f: Pid, at: int)
    requires Valid(h) && Misses(h, q, v, f, at) && Gone(h, a, at, f) && Placed(a, x, pid, vaddr, f)
    requires EntryAt(h, pid, vaddr / 16).valpres != 2
    ensures !Valid(x)
  {
    ValidArrays(h);
    GoneArrays(h, a, at, f, pid);
    GoneKeeps(h, a, at, f, q, v);
    PlacedKeeps(a, x, pid, vaddr, f, q, v);
    PlacedEntry(a, x, pid, vaddr, f);
    if q == pid {
      TwoMappersInvalid(x, pid, v, vaddr / 16, f);
    } else {
      StaleSpoils(x, x, pid, q, v, f);
      SpoiltShows(x, x, pid, q, v);
    }
  }

  /** An unsound eviction for a page of a process whose table is in memory leaves the
      bookkeeping incoherent once the page is there. */
  lemma ResidentInvalid(s: State, pid: Pid, vaddr: Vaddr, a: State, x: State, g: Pid)
    requires Valid(s) && EntryAt(s, pid, vaddr / 16).valpres != 2 && !SpaceSound(s, 1, pid)
    requires FreeSpace(AS_WRITTEN, s, 1, pid) == Some(a) && Placed(a, x, pid, vaddr, g)
    ensures !Valid(x)
  {
    SpaceUnsound(s, pid);
    OneEviction(AS_WRITTEN, s, pid);
    var h := Robin(s);
    HandMoves(s, h);
    if AllTables(h) {
      FullEvicts(h, pid, a);
      PlacedInTable(a, x, pid, vaddr, g);
    } else {
      var q, v, f, at := FirstMiss(h, pid, a);
      OnlyFree(h, a, f);
      MissPlaced(h, a, x, pid, vaddr, q, v, f, at);
    }
  }

  // ----- two evictions

  predicate FullFrame(x: State, h: Pid) {
    IsTable(x, h) && FindFree(x) == Some(h)
  }

  lemma UnservedOwner(h: State, pid: Pid, q: Pid, v: Pid, f: Pid, at: int)
    requires Misses(h, q, v, f, at) && forall w: Pid :: EntryAt(h, pid, w).valpres != 2
    ensures q != pid
  {
  }

  /** Damage to another process. */
  ghost predicate Harmed(s: State, x: State, pid: Pid) {
    Arrays(x) && exists q: Pid, v: Pid :: Spoilt(s, x, pid, q, v)
  }

  predicate NoneInMemory(t: State, pid: Pid) {
    forall w: Pid :: EntryAt(t, pid, w).valpres != 2
  }

  lemma OneHarms(s: State, t: State, pid: Pid, a: State)
    requires Valid(t) && SamePages(ViewOf(s), ViewOf(t)) && NoneInMemory(t, pid)
    requires !EvictSound(t, pid) && !AllTables(t) && Evict(AS_WRITTEN, t, pid) == Some(a)
    ensures Harmed(s, a, pid)
  {
    var q, v, f, at := FirstMiss(t, pid, a);
    UnservedOwner(t, pid, q, v, f, at);
    MissSpoils(t, a, pid, q, v, f, at);
    SameDamage(s, t, a, pid, q, v);
  }

  lemma NoneAfterHand(t: State, pid: Pid)
    requires NoneInMemory(t, pid)
    ensures NoneInMemory(Robin(t), pid) && ViewOf(Robin(t)) == ViewOf(t)
  {
    HandMoves(t, Robin(t));
  }

  /** The one eviction, for a process none of whose pages is in memory. */
  lemma OneRuins(s: State, t: State, pid: Pid, a: State)
    requires Valid(t) && SamePages(ViewOf(s), ViewOf(t)) && !SpaceSound(t, 1, pid)
    requires NoneInMemory(t, pid) && FreeSpace(AS_WRITTEN, t, 1, pid) == Some(a)
    ensures if AllTables(t) then FullFrame(a, Next(t.roundrobin)) && a.hardware == t.hardware else Harmed(s, a, pid)
  {
    SpaceUnsound(t, pid);
    OneEviction(AS_WRITTEN, t, pid);
    NoneAfterHand(t, pid);
    RobinTables(t);
    if AllTables(t) {
      FullEvicts(Robin(t), pid, a);
    } else {
      OneHarms(s, Robin(t), pid, a);
    }
  }

  // ----- two evictions for a first table

  /** The two evictions on behalf of a process without a table cross; the hand is on the
      first frame to try. */
  predicate NewCrossed(h: State) {
    exists q: Pid, v: Pid, f: Pid, u: Pid, g: Pid :: NewCrossedBy(h, q, v, f, u, g)
  }

  lemma NewMet(h: State, a: State, pid: Pid, q: Pid, v: Pid, f: Pid, at: int)
    requires Valid(h) && Misses(h, q, v, f, at) && Gone(h, a, at, f) && q != pid && h.hardware[pid].inmem != 1
    ensures Met(h, a, ZERO_PAGE, pid, q, v, f, at) && !AllTables(a)
  {
    ValidArrays(h);
    GoneArrays(h, a, at, f, pid);
    assert !IsTable(a, f);
  }

  lemma NotNewCrossed(h: State, a: State, q: Pid, v: Pid, f: Pid, at: int)
    requires FreeCount(h) == 0 && NextData(h, h.roundrobin, 4) == Some(f) && Gone(h, a, at, f) && !NewCrossed(h)
    ensures forall u: Pid, g: Pid | NextData(a, a.roundrobin, 4) == Some(g) :: !Crossed(h, ZERO_PAGE, q, v, f, u, g)
  {
    SearchFrom(h.(freelist := h.freelist[f := 1]), a, Next(f), 4);
    forall u: Pid, g: Pid | NextData(a, a.roundrobin, 4) == Some(g) ensures !Crossed(h, ZERO_PAGE, q, v, f, u, g) {
      assert !NewCrossedBy(h, q, v, f, u, g);
    }
  }

  lemma MissMaps(h: State, q: Pid, v: Pid, f: Pid, at: int)
    requires Misses(h, q, v, f, at)
    ensures Maps(ViewOf(h), q, v, f)
  {
    ViewEntry(h, q, v);
  }

  lemma FirstOfTwo(h: State, pid: Pid, a: State, b: State)
    requires Valid(h) && |h.swap| + 2 <= 256 && FreeCount(h) == 0 && h.hardware[pid].inmem != 1 && NoneInMemory(h, pid)
    requires !EvictSound(h, pid) && !AllTables(h) && !NewCrossed(h)
    requires Evict(AS_WRITTEN, h, pid) == Some(a) && Evict(AS_WRITTEN, a, pid) == Some(b)
    ensures Harmed(h, b, pid)
  {
    var q, v, f, at := FirstMiss(h, pid, a);
    UnservedOwner(h, pid, q, v, f, at);
    NewMet(h, a, pid, q, v, f, at);
    NotNewCrossed(h, a, q, v, f, at);
    MissMaps(h, q, v, f, at);
    var q', v' := SecondEviction(h, a, b, ZERO_PAGE, pid, q, v, f, at);
  }

  /** A process without a table in memory, and its pages. */
  lemma Unserved(s: State, pid: Pid)
    requires Valid(s) && s.hardware[pid].inmem != 1
    ensures NoneInMemory(s, pid) && !AllTables(s)
  {
    forall w: Pid ensures EntryAt(s, pid, w).valpres != 2 {
      OnDiskNotInMemory(s, pid, w);
    }
    NotAllTables(s, pid);
  }

  /** Four page tables are those of all four processes. */
  lemma FourTables(s: State, pid: Pid)
    requires Arrays(s) && AllTables(s)
    ensures s.hardware[pid].inmem == 1
  {
    assert IsTable(s, 0) && IsTable(s, 1) && IsTable(s, 2) && IsTable(s, 3);
    assert TableAt(s, 0) && TableAt(s, 1) && TableAt(s, 2) && TableAt(s, 3);
    assert pid in [s.pages[0], s.pages[1], s.pages[2], s.pages[3]];
  }

  lemma NotAllTables(s: State, pid: Pid)
    requires Valid(s) && s.hardware[pid].inmem != 1
    ensures !AllTables(s)
  {
    ValidArrays(s);
    if AllTables(s) {
      FourTables(s, pid);
    }
  }

  lemma SoundFirst(h: State, pid: Pid, a: State)
    requires Valid(h) && |h.swap| < 256 && FreeCount(h) <= 2 && EvictSound(h, pid) && Evict(AS_WRITTEN, h, pid) == Some(a)
    ensures Evict(REPAIRED, h, pid) == Some(a) && Evicted(h, a, pid, 1)
  {
    EvictExact(h, pid);
    EvictHidden(h, pid);
  }

  /** Two evictions, one of them unsound. */
  lemma TwoHarm(h: State, pid: Pid, a: State, b: State)
    requires Valid(h) && |h.swap| + 2 <= 256 && FreeCount(h) == 0 && h.hardware[pid].inmem != 1 && !NewCrossed(h)
    requires Evict(AS_WRITTEN, h, pid) == Some(a) && Evict(AS_WRITTEN, a, pid) == Some(b)
    requires EvictSound(h, pid) ==> !EvictSound(a, pid)
    ensures Harmed(h, b, pid)
  {
    Unserved(h, pid);
    if EvictSound(h, pid) {
      SoundFirst(h, pid, a);
      Unserved(a, pid);
      OneHarms(h, a, pid, b);
    } else {
      FirstOfTwo(h, pid, a, b);
    }
  }

  lemma SpaceUnsoundFull(s: State, pid: Pid, a: State)
    requires Valid(s) && |s.swap| + 2 <= 256 && FreeCount(s) == 0 && !SpaceSound(s, 2, pid)
    requires Evict(AS_WRITTEN, Robin(s), pid) == Some(a)
    ensures EvictSound(Robin(s), pid) ==> !EvictSound(a, pid)
  {
    var j: nat :| j < Shortage(s, 2) && !EvictionSound(s, pid, j);
    var h := Robin(s);
    HandMoves(s, h);
    if j == 0 {
      FirstSoundness(s, pid, j);
    } else if EvictSound(h, pid) {
      SoundFirst(h, pid, a);
      SecondSoundness(s, pid, j, a);
    }
  }

  lemma FirstSoundness(s: State, pid: Pid, j: nat)
    requires j == 0
    ensures EvictionSound(s, pid, j) <==> EvictSound(Robin(s), pid)
  {
    assert EvictTimes(REPAIRED, Robin(s), pid, j) == Some(Robin(s));
  }

  lemma SecondSoundness(s: State, pid: Pid, j: nat, a: State)
    requires j == 1 && Evict(REPAIRED, Robin(s), pid) == Some(a)
    ensures EvictionSound(s, pid, j) <==> EvictSound(a, pid)
  {
    EvictTimesStep(REPAIRED, Robin(s), pid, j);
  }

  lemma SpaceUnsoundOne(s: State, pid: Pid)
    requires FreeCount(s) == 1 && !SpaceSound(s, 2, pid)
    ensures !EvictSound(Robin(s), pid)
  {
    var j: nat :| j < Shortage(s, 2) && !EvictionSound(s, pid, j);
    assert EvictTimes(REPAIRED, Robin(s), pid, 0) == Some(Robin(s));
  }

  lemma HarmedToo(s: State, h: State, x: State, pid: Pid)
    requires SamePages(ViewOf(s), ViewOf(h)) && Harmed(h, x, pid)
    ensures Harmed(s, x, pid)
  {
    var q: Pid, v: Pid :| Spoilt(h, x, pid, q, v);
    SameDamage(s, h, x, pid, q, v);
  }

  lemma OneSpace(s: State, pid: Pid)
    requires FreeCount(s) == 1
    ensures FreeSpace(AS_WRITTEN, s, 2, pid) == Evict(AS_WRITTEN, Robin(s), pid)
  {
    SpaceIs(AS_WRITTEN, s, 2, pid, 1);
    EvictTimesStep(AS_WRITTEN, Robin(s), pid, 1);
  }

  /** Room for a first table and its page, made unsoundly and not by crossing. */
  lemma NewHarms(s: State, pid: Pid, b: State)
    requires Valid(s) && |s.swap| + 2 <= 256 && s.hardware[pid].inmem != 1 && !SpaceSound(s, 2, pid)
    requires FreeCount(s) == 0 ==> !NewCrossed(Robin(s))
    requires FreeSpace(AS_WRITTEN, s, 2, pid) == Some(b)
    ensures Harmed(s, b, pid) && FreeCount(b) == 2 && b.hardware[pid] == s.hardware[pid]
  {
    var h := Robin(s);
    HandMoves(s, h);
    if FreeCount(s) == 0 {
      TwoEvictions(AS_WRITTEN, s, pid);
      SpaceUnsoundFull(s, pid, Evict(AS_WRITTEN, h, pid).value);
      TwoHarm(h, pid, Evict(AS_WRITTEN, h, pid).value, b);
      TwoFree(h, pid, Evict(AS_WRITTEN, h, pid).value, b);
    } else {
      OneSpace(s, pid);
      SpaceUnsoundOne(s, pid);
      Unserved(h, pid);
      OneHarms(h, h, pid, b);
      OneFrees(h, pid, b);
    }
    HarmedToo(s, h, b, pid);
  }

  /** An eviction keeps the arrays and the pointer of the process it is for. */
  lemma OneFrees(h: State, pid: Pid, b: State)
    requires Valid(h) && !AllTables(h) && Evict(AS_WRITTEN, h, pid) == Some(b)
    ensures FreeCount(b) == FreeCount(h) + 1 && b.hardware[pid] == h.hardware[pid]
  {
    ValidArrays(h);
    EvictFrees(h, pid, b);
    EvictPointer(h, pid, b);
  }

  lemma TwoFree(h: State, pid: Pid, a: State, b: State)
    requires Valid(h) && h.hardware[pid].inmem != 1 && Evict(AS_WRITTEN, h, pid) == Some(a)
    requires Evict(AS_WRITTEN, a, pid) == Some(b)
    ensures FreeCount(b) == FreeCount(h) + 2 && b.hardware[pid] == h.hardware[pid]
  {
    Unserved(h, pid);
    OneFrees(h, pid, a);
    ValidArrays(h);
    EvictArrays(h, pid, a);
    if AllTables(a) {
      FourTables(a, pid);
    }
    EvictFrees(a, pid, b);
    EvictPointer(a, pid, b);
  }

  // ----- two evictions around a page table that comes back

  predicate BackCrossed(h: State, pid: Pid) {
    exists q: Pid, v: Pid, f: Pid, u: Pid, g: Pid :: BackCrossedBy(h, pid, q, v, f, u, g)
  }

  lemma BackArrays(h: State, a: State, x: State, pid: Pid, f: Pid, q: Pid, v: Pid)
    requires Arrays(a) && a.hardware[pid].inmem == 0 && LoadPageTable(a, pid).Some? && x == Robin(LoadPageTable(a, pid).value)
    requires q != pid && Spoilt(h, a, pid, q, v)
    ensures Arrays(LoadPageTable(a, pid).value) && Spoilt(h, LoadPageTable(a, pid).value, pid, q, v)
    ensures Arrays(x)
  {
    var a2 := LoadPageTable(a, pid).value;
    TableInLeaves(a, pid, q, v);
    StillSpoilt(h, a, a2, pid, q, v);
    HandLeaves(a2, x.roundrobin, pid, q, v);
  }

  lemma BackMet(h: State, a: State, x: State, pid: Pid, q: Pid, v: Pid, f: Pid, at: int, table: Page)
    requires Misses(h, q, v, f, at) && Gone(h, a, at, f) && q != pid && h.hardware[pid].inmem == 0
    requires Arrays(x) && x == TableCome(a, pid, f, table)
    ensures Met(h, x, table, pid, q, v, f, at)
  {
    OneOutIs(h.mem, at, f, table, |h.swap| % 256);
  }

  lemma NotBackCrossed(h: State, x: State, pid: Pid, q: Pid, v: Pid, f: Pid)
    requires h.hardware[pid].inmem == 0 && 0 <= h.hardware[pid].address < |h.swap|
    requires FreeCount(h) == 0 && NextData(h, h.roundrobin, 4) == Some(f) && !BackCrossed(h, pid)
    requires x.freelist == h.freelist[f := 0] && x.ispagetable == h.ispagetable[f := 1]
    ensures forall u: Pid, g: Pid | NextData(x, Next(Next(f)), 4) == Some(g) ::
      !Crossed(h, h.swap[h.hardware[pid].address], q, v, f, u, g)
  {
    SearchLike(h.(ispagetable := h.ispagetable[f := 1]), x, Next(Next(f)), 4);
    forall u: Pid, g: Pid | NextData(x, Next(Next(f)), 4) == Some(g)
      ensures !Crossed(h, h.swap[h.hardware[pid].address], q, v, f, u, g)
    {
      assert !BackCrossedBy(h, pid, q, v, f, u, g);
    }
  }

  lemma GoneFrees(h: State, a: State, at: int, f: Pid)
    requires FreeCount(h) == 0 && Gone(h, a, at, f)
    ensures FindFree(a) == Some(f) && FreeCount(a) == 1 && a.hardware == h.hardware
    ensures |a.swap| == |h.swap| + 1 && forall i | 0 <= i < |h.swap| :: a.swap[i] == h.swap[i]
  {
    OnlyFree(h, a, f);
  }

  /** The table of `pid` after a first eviction that missed. */
  lemma BackFirst(h: State, pid: Pid, a: State) returns (q: Pid, v: Pid, f: Pid, at: int)
    requires Valid(h) && FreeCount(h) == 0 && h.hardware[pid].inmem == 0 && !EvictSound(h, pid)
    requires Evict(AS_WRITTEN, h, pid) == Some(a)
    ensures Misses(h, q, v, f, at) && ScansTo(h, q, f, at) && NextData(h, h.roundrobin, 4) == Some(f) && q != pid
    ensures Gone(h, a, at, f)
    ensures 0 <= h.hardware[pid].address < |h.swap| && LoadPageTable(a, pid).Some?
    ensures var a2 := LoadPageTable(a, pid).value;
      && Arrays(a2) && Spoilt(h, a2, pid, q, v) && Arrays(Robin(a2)) && FreeCount(a2) == 0 && Resident(a2, pid)
      && (forall w: Pid :: EntryAt(a2, pid, w) == EntryAt(h, pid, w))
      && Robin(a2) == TableCome(a, pid, f, h.swap[h.hardware[pid].address])
      && Met(h, Robin(a2), h.swap[h.hardware[pid].address], pid, q, v, f, at)
  {
    Unserved(h, pid);
    OnDiskLine(h, pid);
    q, v, f, at := FirstMiss(h, pid, a);
    UnservedOwner(h, pid, q, v, f, at);
    MissSpoils(h, a, pid, q, v, f, at);
    GoneFrees(h, a, at, f);
    BackTable(h, a, pid, f);
    TableComes(a, pid, f, h.hardware[pid].address);
    var x := Robin(LoadPageTable(a, pid).value);
    BackArrays(h, a, x, pid, f, q, v);
    BackMet(h, a, x, pid, q, v, f, at, h.swap[h.hardware[pid].address]);
  }

  /** Room for its page after that. */
  lemma BackSecond(h: State, pid: Pid, a: State, b: State)
    requires Valid(h) && |h.swap| + 2 <= 256 && FreeCount(h) == 0 && h.hardware[pid].inmem == 0
    requires !EvictSound(h, pid) && !BackCrossed(h, pid)
    requires Evict(AS_WRITTEN, h, pid) == Some(a) && LoadPageTable(a, pid).Some?
    requires Evict(AS_WRITTEN, Robin(LoadPageTable(a, pid).value), pid) == Some(b)
    ensures RoomRuined(h, b, pid)
  {
    var q, v, f, at := BackFirst(h, pid, a);
    var x := Robin(LoadPageTable(a, pid).value);
    if AllTables(x) {
      ComePlace(a, x, pid, f, h.swap[h.hardware[pid].address], at, h);
      FullAfter(x, pid, f, b);
    } else {
      MissMaps(h, q, v, f, at);
      BackNone(h, a, x, pid, q, v, f, at);
      var q', v' := SecondEviction(h, x, b, h.swap[h.hardware[pid].address], pid, q, v, f, at);
    }
  }

  lemma ComePlace(a: State, x: State, pid: Pid, f: Pid, table: Page, at: int, h: State)
    requires Gone(h, a, at, f) && FreeCount(h) == 0 && x == TableCome(a, pid, f, table)
    ensures x.hardware[pid] == Hp(16 * f, 1) && x.roundrobin == Next(Next(f)) && FreeCount(x) == 0
  {
  }

  lemma FullAfter(x: State, pid: Pid, f: Pid, b: State)
    requires AllTables(x) && FreeCount(x) == 0 && Evict(AS_WRITTEN, x, pid) == Some(b)
    requires x.hardware[pid] == Hp(16 * f, 1) && x.roundrobin == Next(Next(f))
    ensures FullBeside(b, pid, x.roundrobin)
  {
    FullEvicts(x, pid, b);
  }

  lemma BackNone(h: State, a: State, x: State, pid: Pid, q: Pid, v: Pid, f: Pid, at: int)
    requires h.hardware[pid].inmem == 0 && 0 <= h.hardware[pid].address < |h.swap| && FreeCount(h) == 0
    requires NextData(h, h.roundrobin, 4) == Some(f) && !BackCrossed(h, pid) && Gone(h, a, at, f)
    requires x == TableCome(a, pid, f, h.swap[h.hardware[pid].address])
    ensures forall u: Pid, g: Pid | NextData(x, x.roundrobin, 4) == Some(g) ::
      !Crossed(h, h.swap[h.hardware[pid].address], q, v, f, u, g)
  {
    assert x.freelist == h.freelist[f := 0];
    NotBackCrossed(h, x, pid, q, v, f);
  }

  /** A freed frame that is marked a page table, not that of `pid`. */
  predicate FullBeside(x: State, pid: Pid, g: Pid) {
    FullFrame(x, g) && exists f: Pid :: f != g && x.hardware[pid] == Hp(16 * f, 1)
  }

  /** Room was made, with damage that no page of `pid` can undo. */
  ghost predicate RoomRuined(s: State, x: State, pid: Pid) {
    Harmed(s, x, pid) || exists g: Pid :: FullBeside(x, pid, g)
  }

  // ----- the page itself

  /** A store at `vaddr` in `x` cannot reach the table of `q`. */
  predicate StoreMisses(x: State, pid: Pid, vaddr: Vaddr, q: Pid) {
    var e := EntryAt(x, pid, vaddr / 16);
    Resident(x, pid) && (e.prot == 1 ==> e.valpres == 2 && e.pfn <= 48 && e.pfn % 16 == 0 && Apart(x, q, q, e.pfn / 16))
  }

  /** Damage where a store of `pid` at `vaddr` cannot reach. */
  ghost predicate Lasting(s: State, x: State, pid: Pid, vaddr: Vaddr, q: Pid, v: Pid) {
    (Spoilt(s, x, pid, q, v) || InTable(x, q, v)) && StoreMisses(x, pid, vaddr, q)
  }

  ghost predicate Wrecked(s: State, x: State, pid: Pid, vaddr: Vaddr) {
    exists q: Pid, v: Pid :: Lasting(s, x, pid, vaddr, q, v)
  }

  lemma PlacedMisses(x: State, x': State, pid: Pid, vaddr: Vaddr, g: Pid, q: Pid)
    requires Placed(x, x', pid, vaddr, g) && Apart(x, q, q, g)
    ensures StoreMisses(x', pid, vaddr, q)
  {
    PlacedEntry(x, x', pid, vaddr, g);
  }

  lemma RuinedPlaced(s: State, x: State, x': State, pid: Pid, vaddr: Vaddr, g: Pid)
    requires RoomRuined(s, x, pid) && Placed(x, x', pid, vaddr, g)
    ensures Wrecked(s, x', pid, vaddr)
  {
    if Harmed(s, x, pid) {
      var q: Pid, v: Pid :| Spoilt(s, x, pid, q, v);
      PlacedLeaves(x, x', pid, vaddr, g, q, v);
      StillSpoilt(s, x, x', pid, q, v);
      FreeNoTable(x, g);
      ArraysApart(x, q, q, g);
      PlacedMisses(x, x', pid, vaddr, g, q);
      assert Lasting(s, x', pid, vaddr, q, v);
    } else {
      var h: Pid :| FullBeside(x, pid, h);
      PlacedInTable(x, x', pid, vaddr, g);
      PlacedMisses(x, x', pid, vaddr, g, pid);
      assert Lasting(s, x', pid, vaddr, pid, vaddr / 16);
    }
  }

  /** The same when only the table came back: its page was never allocated. */
  lemma HarmedWrecked(s: State, x: State, pid: Pid, vaddr: Vaddr, q: Pid, v: Pid)
    requires Spoilt(s, x, pid, q, v) && Resident(x, pid) && EntryAt(x, pid, vaddr / 16).prot != 1
    ensures Wrecked(s, x, pid, vaddr)
  {
    assert Lasting(s, x, pid, vaddr, q, v);
  }

  /** Every process but `pid` sees what it saw, and the bookkeeping is coherent. */
  ghost predicate OthersSame(s: State, x: State, pid: Pid) {
    Valid(x) && forall q: Pid, v: Pid | q != pid :: PageOf(ViewOf(x), q, v) == PageOf(ViewOf(s), q, v)
  }

  lemma DamageShows(s: State, x: State, pid: Pid, q: Pid, v: Pid)
    requires Spoilt(s, x, pid, q, v) || InTable(x, q, v)
    ensures !OthersSame(s, x, pid)
  {
    if Spoilt(s, x, pid, q, v) {
      SpoiltShows(s, x, pid, q, v);
    } else {
      InTableInvalid(x, q, v);
    }
  }

  lemma WreckedShows(s: State, x: State, pid: Pid, vaddr: Vaddr)
    requires Wrecked(s, x, pid, vaddr)
    ensures !OthersSame(s, x, pid)
  {
    var q: Pid, v: Pid :| Lasting(s, x, pid, vaddr, q, v);
    DamageShows(s, x, pid, q, v);
  }

  lemma StoreHereMisses(x: State, pid: Pid, vaddr: Vaddr, val: Byte, q: Pid, v: Pid)
    requires StoreMisses(x, pid, vaddr, q) && StoreHere(x, pid, vaddr, val).Some?
    ensures EntryAt(StoreHere(x, pid, vaddr, val).value.0, q, v) == EntryAt(x, q, v)
  {
    var e := EntryAt(x, pid, vaddr / 16);
    if e.prot == 1 {
      StoreHereWrites(x, pid, vaddr, val, e, e.pfn / 16);
      StoreLeaves(x, e.pfn / 16, vaddr % 16, val, q, v);
    } else {
      StoreHereRefuses(x, pid, vaddr, val);
    }
  }

  /** A byte stored in a frame that is not the table's. */
  lemma StoreLeaves(x: State, f: Pid, offset: int, val: Byte, q: Pid, v: Pid)
    requires Apart(x, q, q, f) && 0 <= offset < 16
    ensures EntryAt(x.(mem := x.mem[16 * f + offset := val]), q, v) == EntryAt(x, q, v)
  {
    EntryKept(x, x.(mem := x.mem[16 * f + offset := val]), q, v);
  }

  lemma WreckedStore(s: State, x: State, pid: Pid, vaddr: Vaddr, val: Byte)
    requires Wrecked(s, x, pid, vaddr) && StoreHere(x, pid, vaddr, val).Some?
    ensures !OthersSame(s, StoreHere(x, pid, vaddr, val).value.0, pid)
  {
    var q: Pid, v: Pid :| Lasting(s, x, pid, vaddr, q, v);
    StoreHereMisses(x, pid, vaddr, val, q, v);
    StoreHereFrame(x, pid, vaddr, val);
    DamageShows(s, StoreHere(x, pid, vaddr, val).value.0, pid, q, v);
  }
}
