/** Which commands the code as written carries out as designed. */
module PagerSoundness {
  import opened Options
  import opened PagerModel
  import opened PagerTables
  import opened PagerBytes
  import opened PagerEviction
  import opened PagerCommands
  import opened PagerTransparency
  import opened PagerPhases
  import opened PagerAsWritten
  import opened PagerLanding

  // ----- what a command needs

  /** Every eviction that `freespace(n, pid)` makes is sound. */
  ghost predicate SpaceSound(s: State, n: nat, pid: Pid) {
    forall j: nat | j < Shortage(s, n) :: EvictionSound(s, pid, j)
  }

  ghost predicate EvictionSound(s: State, pid: Pid, j: nat) {
    var s' := EvictTimes(REPAIRED, Robin(s), pid, j);
    s'.Some? ==> EvictSound(s'.value, pid)
  }

  ghost predicate RoomSound(s: State, pid: Pid, space: int) {
    space < 1 ==> SpaceSound(s, 1, pid)
  }

  /** Sound evictions for a table that comes back, and for its page if that does. */
  ghost predicate ReviveSound(s: State, pid: Pid, vaddr: Vaddr) {
    && RoomSound(s, pid, FreeCount(s))
    && var s1 := MakeRoom(REPAIRED, s, pid, FreeCount(s));
       s1.Some? ==>
         var s2 := LoadPageTable(s1.value, pid);
         s2.Some? && EntryAt(s2.value, pid, vaddr / 16).valpres == 1 ==> RoomSound(s2.value, pid, FreeCount(s) - 1)
  }

  /** A load: of a page that was allocated; with sound evictions if something comes
      back from disk, and not from physical address 0. */
  ghost predicate LoadSound(s: State, pid: Pid, vaddr: Vaddr) {
    var hp := s.hardware[pid];
    if hp.inmem == 1 then
      match EntryAt(s, pid, vaddr / 16).valpres
      case 0 => false
      case 1 => RoomSound(s, pid, FreeCount(s)) && !LandsOnZero(s, pid, vaddr)
      case _ => true
    else if hp.inmem == 0 then
      ReviveSound(s, pid, vaddr) && !LandsOnZero(s, pid, vaddr)
    else true
  }

  /** A store: not to a writeable page on disk whose table is in memory; with sound
      evictions if the table comes back. */
  ghost predicate StoreSound(s: State, pid: Pid, vaddr: Vaddr) {
    var hp := s.hardware[pid];
    var e := EntryAt(s, pid, vaddr / 16);
    if hp.inmem == 1 then !(e.valpres == 1 && e.prot == 1)
    else if hp.inmem == 0 then ReviveSound(s, pid, vaddr)
    else true
  }

  /** A map: not of a page on disk; with sound evictions for the table, and for the
      page if it is new. */
  ghost predicate MapSound(s: State, pid: Pid, vaddr: Vaddr) {
    && (s.hardware[pid].inmem == 0 ==> SpaceSound(s, 1, pid))
    && (!(0 <= s.hardware[pid].inmem <= 1) ==> SpaceSound(s, 2, pid))
    && var s1 := TableForMap(REPAIRED, s, pid);
       s1.Some? ==>
         match EntryAt(s1.value, pid, vaddr / 16).valpres
         case 0 => RoomSound(s1.value, pid, FreeCount(s1.value))
         case 1 => false
         case _ => true
  }

  ghost predicate Sound(s: State, c: Command) {
    match c
    case Map(pid, vaddr, _) => MapSound(s, pid, vaddr)
    case Store(pid, vaddr, _) => StoreSound(s, pid, vaddr)
    case Load(pid, vaddr) => LoadSound(s, pid, vaddr)
  }

  // ----- sound commands are carried out as designed

  /** Under two sets of repairs, eviction `j`, counted from 0, is the same. */
  ghost predicate AlikeAt(a: Repairs, b: Repairs, s: State, pid: Pid, j: nat) {
    match EvictTimes(b, s, pid, j)
    case Some(s') => Evict(a, s', pid) == Evict(b, s', pid)
    case None => true
  }

  /** The first `k` evictions are. */
  ghost predicate AlikeTo(a: Repairs, b: Repairs, s: State, pid: Pid, k: nat)
    decreases k
  {
    k == 0 || (AlikeTo(a, b, s, pid, k - 1) && AlikeAt(a, b, s, pid, k - 1))
  }

  lemma AlikeNext(a: Repairs, b: Repairs, s: State, pid: Pid, k: nat)
    requires k > 0 && AlikeAt(a, b, s, pid, k - 1) && EvictTimes(a, s, pid, k - 1) == EvictTimes(b, s, pid, k - 1)
    ensures EvictTimes(a, s, pid, k) == EvictTimes(b, s, pid, k)
  {
    match EvictTimes(b, s, pid, k - 1)
    case Some(s1) =>
      EvictTimesStep(a, s, pid, k);
      EvictTimesStep(b, s, pid, k);
    case None =>
  }

  lemma {:induction false} AlikeThroughout(a: Repairs, b: Repairs, s: State, pid: Pid, k: nat)
    requires AlikeTo(a, b, s, pid, k)
    ensures EvictTimes(a, s, pid, k) == EvictTimes(b, s, pid, k)
  {
    if k > 0 {
      AlikeThroughout(a, b, s, pid, k - 1);
      AlikeNext(a, b, s, pid, k);
    }
  }

  lemma SoundAlike(s: State, pid: Pid, k: nat, j: nat)
    requires Valid(s) && Numbers(s, k) && j < k && FreeCount(s) + k <= 3
    requires match EvictTimes(REPAIRED, s, pid, j) case Some(s') => EvictSound(s', pid) case None => true
    ensures AlikeAt(AS_WRITTEN, REPAIRED, s, pid, j)
  {
    FewerNumbers(s, j + 1, k);
    FewerNumbers(s, j, k);
    EvictTimesFrees(s, pid, j);
    match EvictTimes(REPAIRED, s, pid, j)
    case Some(s') =>
      NumbersLeft(s, s', pid, j);
      EvictExact(s', pid);
    case None =>
  }

  lemma SpaceAlikeAt(s: State, n: nat, pid: Pid, j: nat)
    requires Valid(s) && n <= 3 && Numbers(s, Shortage(s, n)) && EvictionSound(s, pid, j) && j < Shortage(s, n)
    ensures AlikeAt(AS_WRITTEN, REPAIRED, Robin(s), pid, j)
  {
    HandMoves(s, Robin(s));
    SoundAlike(Robin(s), pid, Shortage(s, n), j);
  }

  lemma {:induction false} AlikeFrom(a: Repairs, b: Repairs, s: State, pid: Pid, k: nat)
    requires forall j: nat | j < k :: AlikeAt(a, b, s, pid, j)
    ensures AlikeTo(a, b, s, pid, k)
  {
    if k > 0 {
      AlikeFrom(a, b, s, pid, k - 1);
    }
  }

  lemma SpaceAgrees(s: State, n: nat, pid: Pid)
    requires Valid(s) && n <= 3 && Numbers(s, Shortage(s, n)) && SpaceSound(s, n, pid)
    ensures FreeSpace(AS_WRITTEN, s, n, pid) == FreeSpace(REPAIRED, s, n, pid)
  {
    forall j: nat | j < Shortage(s, n) ensures AlikeAt(AS_WRITTEN, REPAIRED, Robin(s), pid, j) {
      assert EvictionSound(s, pid, j);
      SpaceAlikeAt(s, n, pid, j);
    }
    AlikeFrom(AS_WRITTEN, REPAIRED, Robin(s), pid, Shortage(s, n));
    AlikeThroughout(AS_WRITTEN, REPAIRED, Robin(s), pid, Shortage(s, n));
  }

  lemma RoomAgrees(s: State, pid: Pid, space: int)
    requires Valid(s) && RoomSound(s, pid, space)
    requires space < 1 ==> Numbers(s, Shortage(s, 1))
    ensures MakeRoom(AS_WRITTEN, s, pid, space) == MakeRoom(REPAIRED, s, pid, space)
  {
    if space < 1 {
      SpaceAgrees(s, 1, pid);
    }
  }

  lemma ReviveAgrees(s: State, pid: Pid, vaddr: Vaddr)
    requires Valid(s) && s.hardware[pid].inmem == 0 && Numbered(s, Load(pid, vaddr)) && ReviveSound(s, pid, vaddr)
    ensures Revive(AS_WRITTEN, s, pid, vaddr) == Revive(REPAIRED, s, pid, vaddr)
  {
    FewerFrames(s, 1, FramesNeeded(s, Load(pid, vaddr)));
    RoomAgrees(s, pid, FreeCount(s));
    TableBack(s, pid, vaddr / 16);
    var s1 := MakeRoom(REPAIRED, s, pid, FreeCount(s)).value;
    var s2 := LoadPageTable(s1, pid).value;
    if EntryAt(s2, pid, vaddr / 16).valpres == 1 {
      if FreeCount(s) - 1 < 1 {
        NumbersForPage(s, s2);
      }
      RoomAgrees(s2, pid, FreeCount(s) - 1);
    }
    ReviveFrom(AS_WRITTEN, s, s1, s2, pid, vaddr);
    ReviveFrom(REPAIRED, s, s1, s2, pid, vaddr);
  }

  lemma StoreAgrees(s: State, pid: Pid, vaddr: Vaddr, val: Byte)
    requires Valid(s) && Numbered(s, Store(pid, vaddr, val)) && StoreSound(s, pid, vaddr)
    ensures StoreStep(AS_WRITTEN, s, pid, vaddr, val) == StoreStep(REPAIRED, s, pid, vaddr, val)
  {
    if s.hardware[pid].inmem == 1 {
      ValidResident(s, pid);
      ReadValpres(s, pid, vaddr);
    } else if s.hardware[pid].inmem == 0 {
      ReviveAgrees(s, pid, vaddr);
    }
  }

  lemma LoadHereAgrees(s: State, pid: Pid, vaddr: Vaddr)
    requires Convert(s, vaddr, pid) != 0
    ensures LoadHere(s, pid, vaddr, 1) == LoadHere(s, pid, vaddr, 0)
  {
  }

  lemma LoadAgrees(s: State, pid: Pid, vaddr: Vaddr)
    requires Valid(s) && Numbered(s, Load(pid, vaddr)) && LoadSound(s, pid, vaddr)
    ensures LoadStep(AS_WRITTEN, s, pid, vaddr) == LoadStep(REPAIRED, s, pid, vaddr)
  {
    if s.hardware[pid].inmem == 1 {
      ValidResident(s, pid);
      ReadValpres(s, pid, vaddr);
      ValpresAtMostTwo(s, pid, vaddr / 16);
      if EntryAt(s, pid, vaddr / 16).valpres == 1 {
        RoomAgrees(s, pid, FreeCount(s));
        SwapInAtZero(s, pid, vaddr);
        LoadHereAgrees(SwapIn(REPAIRED, s, pid, vaddr).value, pid, vaddr);
      }
    } else if s.hardware[pid].inmem == 0 {
      ReviveAgrees(s, pid, vaddr);
      ReviveAtZero(s, pid, vaddr);
      LoadHereAgrees(Revive(REPAIRED, s, pid, vaddr).value, pid, vaddr);
    }
  }

  lemma MapAgrees(s: State, pid: Pid, vaddr: Vaddr, val: Byte)
    requires Valid(s) && Numbered(s, Map(pid, vaddr, val)) && MapSound(s, pid, vaddr)
    ensures MapStep(AS_WRITTEN, s, pid, vaddr, val) == MapStep(REPAIRED, s, pid, vaddr, val)
  {
    TableNumbers(s, pid, vaddr, val);
    TableAgrees(s, pid);
    TableForMapReady(s, pid);
    var s1 := TableForMap(REPAIRED, s, pid).value;
    MapStepParts(AS_WRITTEN, s, s1, pid, vaddr, val);
    MapStepParts(REPAIRED, s, s1, pid, vaddr, val);
    ValpresAtMostTwo(s1, pid, vaddr / 16);
    if EntryAt(s1, pid, vaddr / 16).valpres == 0 && FreeCount(s1) == 0 {
      NumbersForMap(s, s1, pid, vaddr, val);
      RoomAgrees(s1, pid, FreeCount(s1));
    }
  }

  lemma TableAgrees(s: State, pid: Pid)
    requires Valid(s) && Numbers(s, Shortage(s, TableFrames(s, pid)))
    requires s.hardware[pid].inmem == 0 ==> SpaceSound(s, 1, pid)
    requires !(0 <= s.hardware[pid].inmem <= 1) ==> SpaceSound(s, 2, pid)
    ensures TableForMap(AS_WRITTEN, s, pid) == TableForMap(REPAIRED, s, pid)
  {
    if s.hardware[pid].inmem == 0 {
      SpaceAgrees(s, 1, pid);
    } else if s.hardware[pid].inmem != 1 {
      SpaceAgrees(s, 2, pid);
    }
  }

  /** A sound command is carried out as designed. */
  lemma SoundAgrees(s: State, c: Command)
    requires Valid(s) && Numbered(s, c) && Sound(s, c)
    ensures Step(AS_WRITTEN, s, c) == Step(REPAIRED, s, c)
  {
    match c
    case Map(pid, vaddr, val) => MapAgrees(s, pid, vaddr, val);
    case Store(pid, vaddr, val) => StoreAgrees(s, pid, vaddr, val);
    case Load(pid, vaddr) => LoadAgrees(s, pid, vaddr);
  }

  /** Every command of a session is sound in the state it meets. */
  ghost predicate RunSound(s: State, cs: seq<Command>)
    decreases cs
  {
    cs == [] || (Sound(s, cs[0]) && (Step(REPAIRED, s, cs[0]).Some? ==> RunSound(Step(REPAIRED, s, cs[0]).value.0, cs[1..])))
  }

  lemma {:induction false} SoundRunAgrees(s: State, cs: seq<Command>)
    requires Valid(s) && LinesLast(s, cs) && RunSound(s, cs)
    ensures Run(AS_WRITTEN, s, cs) == Run(REPAIRED, s, cs)
    decreases cs
  {
    if cs != [] {
      SoundAgrees(s, cs[0]);
      StepRefines(s, cs[0]);
      SoundRunAgrees(Step(REPAIRED, s, cs[0]).value.0, cs[1..]);
    }
  }

  /** The code as written answers a sound session as flat memory would. */
  lemma SoundSessionIsTransparent(cs: seq<Command>)
    requires LinesLast(Boot(), cs) && RunSound(Boot(), cs)
    ensures Run(AS_WRITTEN, Boot(), cs).Some?
    ensures Run(AS_WRITTEN, Boot(), cs).value.1 == FlatRun(NOTHING_MAPPED, cs).1
    ensures Valid(Run(AS_WRITTEN, Boot(), cs).value.0)
  {
    PagingIsTransparent(cs);
    BootValid();
    SoundRunAgrees(Boot(), cs);
  }
}
