/** Which frames are free between commands: first all four, then frames 2 and 3,
    then perhaps frame 3 alone, and from then on none. The hand stands so that
    eviction never comes across a frame that is free already. */
module PagerPhases {
  import opened Options
  import opened PagerModel
  import opened PagerTables
  import opened PagerBytes
  import opened PagerEviction
  import opened PagerCommands
  import opened PagerTransparency

  /** Nothing has been evicted yet and some frames have never been used. */
  predicate Starting(s: State) {
    && s.swap == []
    && (|| (s.freelist[0] == 1 && s.freelist[1] == 1 && s.freelist[2] == 1 && s.freelist[3] == 1 && s.roundrobin == 0)
        || (IsTable(s, 0) && IsData(s, 1) && s.freelist[2] == 1 && s.freelist[3] == 1 && s.roundrobin == 1)
        || (IsTable(s, 0) && IsData(s, 1) && IsData(s, 2) && s.freelist[3] == 1 && s.roundrobin == 1))
  }

  predicate BetweenCommands(s: State) {
    FreeCount(s) == 0 || Starting(s)
  }

  /** With an empty swap file every page and table is in memory. */
  lemma NothingOnDisk(s: State, pid: Pid, v: Pid)
    requires Valid(s) && s.swap == []
    ensures s.hardware[pid].inmem != 0
    ensures s.hardware[pid].inmem == 1 ==> Resident(s, pid)
    ensures EntryAt(s, pid, v).valpres != 1
  {
    ViewEntry(s, pid, v);
    assert PointerOk(ViewOf(s), pid) && EntryOk(ViewOf(s), pid, v);
  }

  lemma TablesAreNotFree(s: State, pid: Pid)
    requires Valid(s) && s.hardware[pid].inmem == 1
    ensures exists f: Pid :: IsTable(s, f) && s.freelist[f] != 1
  {
    assert PointerOk(ViewOf(s), pid);
    var f: Pid := s.hardware[pid].address / 16;
    assert FrameOk(ViewOf(s), f);
    assert IsTable(s, f) && s.freelist[f] != 1;
  }

  lemma StoreInPlace(fix: Repairs, s: State, pid: Pid, vaddr: Vaddr, val: Byte)
    requires Resident(s, pid) && EntryAt(s, pid, vaddr / 16).valpres != 1
    ensures StoreStep(fix, s, pid, vaddr, val) ==
      if Convert(s, vaddr, pid) < 0 then Some((s, Refused)) else StoreHere(s, pid, vaddr, val)
  {
    ReadValpres(s, pid, vaddr);
  }

  lemma StoreHereFrame(s: State, pid: Pid, vaddr: Vaddr, val: Byte)
    requires StoreHere(s, pid, vaddr, val).Some?
    ensures var s' := StoreHere(s, pid, vaddr, val).value.0; s' == s.(mem := s'.mem)
  {
  }

  lemma StartingStore(s: State, pid: Pid, vaddr: Vaddr, val: Byte)
    requires Valid(s) && Starting(s) && StoreStep(REPAIRED, s, pid, vaddr, val).Some?
    ensures Starting(StoreStep(REPAIRED, s, pid, vaddr, val).value.0)
    ensures FreeCount(StoreStep(REPAIRED, s, pid, vaddr, val).value.0) == FreeCount(s)
  {
    NothingOnDisk(s, pid, vaddr / 16);
    if s.hardware[pid].inmem == 1 {
      StoreInPlace(REPAIRED, s, pid, vaddr, val);
      if Convert(s, vaddr, pid) >= 0 {
        StoreHereFrame(s, pid, vaddr, val);
      }
    }
  }

  lemma StartingLoad(s: State, pid: Pid, vaddr: Vaddr)
    requires Valid(s) && Starting(s)
    ensures LoadStep(REPAIRED, s, pid, vaddr).Some?
    ensures LoadStep(REPAIRED, s, pid, vaddr).value.0 == s
  {
    NothingOnDisk(s, pid, vaddr / 16);
    if s.hardware[pid].inmem == 1 {
      ReadValpres(s, pid, vaddr);
      LoadHereReads(s, pid, vaddr);
    }
  }

  lemma FirstTable(s: State, pid: Pid)
    requires Valid(s) && FreeCount(s) == 4 && s.hardware[pid].inmem != 0 && s.hardware[pid].inmem != 1
    ensures TableForMap(REPAIRED, s, pid) == Some(NewTable(Robin(s), pid, 0))
  {
    assert FreeSpace(REPAIRED, s, 2, pid) == Some(Robin(s));
  }

  lemma LaterTable(s: State, pid: Pid)
    requires Valid(s) && FreeCount(s) <= 2 && s.swap == [] && s.hardware[pid].inmem != 0 && s.hardware[pid].inmem != 1
    ensures TableForMap(REPAIRED, s, pid).Some?
    ensures FreeCount(TableForMap(REPAIRED, s, pid).value) == 1
  {
    FreeSpaceHidden(s, 2, pid);
    NewTableReady(FreeSpace(REPAIRED, s, 2, pid).value, pid);
  }

  /** A process without a table has no page, so `map` gives it a fresh frame. */
  lemma NewTableUnused(s: State, s1: State, pid: Pid, v: Pid)
    requires Valid(s) && s.hardware[pid].inmem != 0 && s.hardware[pid].inmem != 1
    requires ReadyToMap(s, s1, pid)
    ensures EntryAt(s1, pid, v).valpres == 0
  {
    ValpresAtMostTwo(s1, pid, v);
    if EntryAt(s1, pid, v).valpres != 0 {
      MappedHasTable(s, s1, pid, 16 * v);
    }
  }

  lemma PlaceFrom(s1: State, pid: Pid, vaddr: Vaddr, val: Byte)
    requires Resident(s1, pid) && EntryAt(s1, pid, vaddr / 16).valpres == 0 && FreeCount(s1) > 0
    ensures var f := FindFree(s1).value;
      MapRest(REPAIRED, s1, pid, vaddr, val).Some?
      && var s2 := MapRest(REPAIRED, s1, pid, vaddr, val).value;
         s2 == s1.(mem := s2.mem, freelist := s1.freelist[f := 0], pages := s1.pages[f := pid])
  {
    PlacePageParts(s1, pid, vaddr, val, FindFree(s1).value);
  }

  lemma StartingCount(s: State)
    requires Valid(s) && Starting(s) && FreeCount(s) != 4
    ensures FreeCount(s) <= 2
  {
    assert FrameOk(ViewOf(s), 0);
  }

  lemma StartingTaken(s: State, s2: State, f: Pid)
    requires Valid(s) && Starting(s) && 0 < FreeCount(s) <= 2 && FindFree(s) == Some(f)
    requires s2 == s.(mem := s2.mem, freelist := s.freelist[f := 0], pages := s2.pages)
    ensures BetweenCommands(s2) && FreeCount(s2) == FreeCount(s) - 1
  {
    FreeFrame(s, f);
    assert f == if s.freelist[2] == 1 then 2 else 3;
  }

  lemma FirstPage(s: State, s2: State, pid: Pid, f: Pid)
    requires Valid(s) && Starting(s) && FreeCount(s) == 4 && FindFree(NewTable(Robin(s), pid, 0)) == Some(f)
    requires var s1 := NewTable(Robin(s), pid, 0);
      s2 == s1.(mem := s2.mem, freelist := s1.freelist[f := 0], pages := s2.pages)
    ensures BetweenCommands(s2) && FreeCount(s2) == 2
  {
    FreeFrame(s, 1);
    assert f == 1;
  }

  /** The first page of a process that just got its table. */
  lemma StartingMapNew(s: State, s1: State, pid: Pid, vaddr: Vaddr, val: Byte)
    requires Valid(s) && Starting(s) && s.hardware[pid].inmem != 0 && s.hardware[pid].inmem != 1
    requires TableForMap(REPAIRED, s, pid) == Some(s1) && ReadyToMap(s, s1, pid)
    ensures MapRest(REPAIRED, s1, pid, vaddr, val).Some?
    ensures BetweenCommands(MapRest(REPAIRED, s1, pid, vaddr, val).value)
    ensures FreeCount(MapRest(REPAIRED, s1, pid, vaddr, val).value) == if FreeCount(s) == 4 then 2 else 0
  {
    NewTableUnused(s, s1, pid, vaddr / 16);
    PlaceFrom(s1, pid, vaddr, val);
    if FreeCount(s) == 4 {
      FirstTable(s, pid);
      FirstPage(s, MapRest(REPAIRED, s1, pid, vaddr, val).value, pid, FindFree(s1).value);
    } else {
      StartingCount(s);
      LaterTable(s, pid);
      FrameTaken(s1, MapRest(REPAIRED, s1, pid, vaddr, val).value, FindFree(s1).value);
    }
  }

  /** Another page, or a new protection, for a process with a table. */
  lemma StartingMapMore(s: State, pid: Pid, vaddr: Vaddr, val: Byte)
    requires Valid(s) && Starting(s) && Resident(s, pid) && EntryAt(s, pid, vaddr / 16).valpres != 1
    ensures MapRest(REPAIRED, s, pid, vaddr, val).Some?
    ensures BetweenCommands(MapRest(REPAIRED, s, pid, vaddr, val).value)
    ensures FreeCount(MapRest(REPAIRED, s, pid, vaddr, val).value) <= FreeCount(s) <= 2
  {
    TablesAreNotFree(s, pid);
    ValpresAtMostTwo(s, pid, vaddr / 16);
    if EntryAt(s, pid, vaddr / 16).valpres == 0 {
      PlaceFrom(s, pid, vaddr, val);
      StartingTaken(s, MapRest(REPAIRED, s, pid, vaddr, val).value, FindFree(s).value);
    }
  }

  lemma StartingMap(s: State, pid: Pid, vaddr: Vaddr, val: Byte)
    requires Valid(s) && Starting(s)
    ensures MapStep(REPAIRED, s, pid, vaddr, val).Some?
    ensures BetweenCommands(MapStep(REPAIRED, s, pid, vaddr, val).value.0)
    ensures var after := FreeCount(MapStep(REPAIRED, s, pid, vaddr, val).value.0);
      after <= FreeCount(s) && (FreeCount(s) == 4 ==> after == 2)
  {
    NothingOnDisk(s, pid, vaddr / 16);
    TableForMapReady(s, pid);
    var s1 := TableForMap(REPAIRED, s, pid).value;
    MapStepParts(REPAIRED, s, s1, pid, vaddr, val);
    if s.hardware[pid].inmem == 1 {
      StartingMapMore(s, pid, vaddr, val);
    } else {
      StartingMapNew(s, s1, pid, vaddr, val);
    }
  }

  /** The free frames between commands: their number never grows, goes from four to
      two, and while some are left the hand is where eviction cannot meet them. */
  lemma StepKeepsPhase(s: State, c: Command)
    requires Valid(s) && BetweenCommands(s) && Numbered(s, c)
    ensures Step(REPAIRED, s, c).Some?
    ensures var s' := Step(REPAIRED, s, c).value.0;
      && BetweenCommands(s')
      && FreeCount(s') <= FreeCount(s)
      && (FreeCount(s) == 4 ==> FreeCount(s') == 4 || FreeCount(s') == 2)
  {
    StepRefines(s, c);
    if FreeCount(s) > 0 {
      match c
      case Map(pid, vaddr, val) => StartingMap(s, pid, vaddr, val);
      case Store(pid, vaddr, val) => StartingStore(s, pid, vaddr, val);
      case Load(pid, vaddr) => StartingLoad(s, pid, vaddr);
    }
  }

  /** Every state a session passes through is coherent and has its free frames in one
      of those places. */
  lemma {:induction false} RunKeepsPhase(s: State, cs: seq<Command>)
    requires Valid(s) && BetweenCommands(s) && LinesLast(s, cs)
    ensures Run(REPAIRED, s, cs).Some?
    ensures var s' := Run(REPAIRED, s, cs).value.0;
      Valid(s') && BetweenCommands(s') && FreeCount(s') <= FreeCount(s)
    decreases cs
  {
    if cs != [] {
      StepKeepsPhase(s, cs[0]);
      StepRefines(s, cs[0]);
      RunKeepsPhase(Step(REPAIRED, s, cs[0]).value.0, cs[1..]);
    }
  }

  lemma BootBetween()
    ensures BetweenCommands(Boot())
  {
  }

  lemma ReachableIsCoherent(cs: seq<Command>)
    requires LinesLast(Boot(), cs)
    ensures Run(REPAIRED, Boot(), cs).Some?
    ensures Valid(Run(REPAIRED, Boot(), cs).value.0) && BetweenCommands(Run(REPAIRED, Boot(), cs).value.0)
  {
    BootValid();
    BootBetween();
    RunKeepsPhase(Boot(), cs);
  }
}
