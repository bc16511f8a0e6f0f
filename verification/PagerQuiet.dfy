/** Commands that ask for no frame: under any repairs and in any state, coherent or not,
    they leave everything but one byte of memory as it was. */
module PagerQuiet {
  import opened Options
  import opened PagerModel
  import opened PagerTables
  import opened PagerBytes
  import opened PagerCommands

  /** Nothing has to be brought in, and nothing moved out for it. */
  predicate Quiet(fix: Repairs, s: State, c: Command) {
    var e := EntryAt(s, c.pid, c.vaddr / 16);
    if s.hardware[c.pid].inmem == 1 then
      match c
      case Map(_, _, _) => e.valpres == 2 || (e.valpres == 1 && fix.mapKeepsPage)
      case Store(_, _, _) => !(e.valpres == 1 && e.prot == 1 && fix.storeSwapsIn)
      case Load(_, _) => e.valpres != 1
    else !c.Map? && s.hardware[c.pid].inmem != 0
  }

  /** The memory a quiet command leaves: `map` sets a protection byte, a store that is
      taken writes its byte where the entry points, and nothing else writes. */
  function QuietMemory(s: State, c: Command, out: Output): seq<Byte>
    requires s.hardware[c.pid].inmem == 1 ==> 0 <= s.hardware[c.pid].address <= 48
    requires c.Store? && out == Stored ==> 0 <= EntryAt(s, c.pid, c.vaddr / 16).pfn + c.vaddr % 16 < 64
  {
    match c
    case Map(pid, vaddr, val) =>
      if s.hardware[pid].inmem == 1 then s.mem[s.hardware[pid].address + 4 * (vaddr / 16) + 2 := val] else s.mem
    case Store(pid, vaddr, val) =>
      if out == Stored then s.mem[EntryAt(s, pid, vaddr / 16).pfn + vaddr % 16 := val] else s.mem
    case Load(_, _) => s.mem
  }

  lemma QuietResident(fix: Repairs, s: State, c: Command)
    requires Quiet(fix, s, c) && Step(fix, s, c).Some? && s.hardware[c.pid].inmem == 1
    ensures Resident(s, c.pid)
  {
  }

  lemma QuietMap(fix: Repairs, s: State, pid: Pid, vaddr: Vaddr, val: Byte)
    requires Quiet(fix, s, Map(pid, vaddr, val)) && Resident(s, pid)
    ensures MapStep(fix, s, pid, vaddr, val) ==
      Some((s.(mem := s.mem[s.hardware[pid].address + 4 * (vaddr / 16) + 2 := val]), MapDone))
  {
    MapStepParts(fix, s, s, pid, vaddr, val);
  }

  lemma QuietStore(fix: Repairs, s: State, pid: Pid, vaddr: Vaddr, val: Byte)
    requires Quiet(fix, s, Store(pid, vaddr, val)) && Resident(s, pid)
    ensures var e, at := EntryAt(s, pid, vaddr / 16), EntryAt(s, pid, vaddr / 16).pfn + vaddr % 16;
      StoreStep(fix, s, pid, vaddr, val) ==
        if e.valpres == 0 || e.prot != 1 then Some((s, Refused))
        else if at < 64 then Some((s.(mem := s.mem[at := val]), Stored))
        else None
  {
    ReadValpres(s, pid, vaddr);
    ConvertFinds(s, pid, vaddr);
  }

  lemma QuietLoad(fix: Repairs, s: State, pid: Pid, vaddr: Vaddr)
    requires Quiet(fix, s, Load(pid, vaddr)) && Resident(s, pid)
    ensures var e, at := EntryAt(s, pid, vaddr / 16), EntryAt(s, pid, vaddr / 16).pfn + vaddr % 16;
      LoadStep(fix, s, pid, vaddr) ==
        if e.valpres != 2 && fix.checkedLoad then Some((s, NoValue))
        else if e.valpres != 0 && at < 64 then Some((s, Loaded(s.mem[at])))
        else None
  {
    ReadValpres(s, pid, vaddr);
    ConvertFinds(s, pid, vaddr);
  }

  /** The hand, the free list, the owners, the table flags, the pointers and the swap file
      are as they were; after a load everything is, and after a refusal. */
  predicate Stays(s: State, c: Command, s': State, out: Output) {
    && (s.hardware[c.pid].inmem == 1 ==> 0 <= s.hardware[c.pid].address <= 48)
    && (c.Store? && out == Stored ==> 0 <= EntryAt(s, c.pid, c.vaddr / 16).pfn + c.vaddr % 16 < 64)
    && s' == s.(mem := QuietMemory(s, c, out))
    && (c.Load? || out == Refused ==> s' == s)
    && (s.hardware[c.pid].inmem != 1 ==> out == if c.Load? then NoValue else Refused)
  }

  lemma NoTableStays(fix: Repairs, s: State, c: Command)
    requires Quiet(fix, s, c) && Step(fix, s, c).Some? && s.hardware[c.pid].inmem != 1
    ensures Stays(s, c, Step(fix, s, c).value.0, Step(fix, s, c).value.1)
  {
  }

  lemma MapStays(fix: Repairs, s: State, pid: Pid, vaddr: Vaddr, val: Byte)
    requires Quiet(fix, s, Map(pid, vaddr, val)) && MapStep(fix, s, pid, vaddr, val).Some? && Resident(s, pid)
    ensures Stays(s, Map(pid, vaddr, val), MapStep(fix, s, pid, vaddr, val).value.0, MapStep(fix, s, pid, vaddr, val).value.1)
  {
    QuietMap(fix, s, pid, vaddr, val);
  }

  lemma StoreStays(fix: Repairs, s: State, pid: Pid, vaddr: Vaddr, val: Byte)
    requires Quiet(fix, s, Store(pid, vaddr, val)) && StoreStep(fix, s, pid, vaddr, val).Some? && Resident(s, pid)
    ensures Stays(s, Store(pid, vaddr, val), StoreStep(fix, s, pid, vaddr, val).value.0, StoreStep(fix, s, pid, vaddr, val).value.1)
  {
    QuietStore(fix, s, pid, vaddr, val);
  }

  lemma LoadStays(fix: Repairs, s: State, pid: Pid, vaddr: Vaddr)
    requires Quiet(fix, s, Load(pid, vaddr)) && LoadStep(fix, s, pid, vaddr).Some? && Resident(s, pid)
    ensures Stays(s, Load(pid, vaddr), LoadStep(fix, s, pid, vaddr).value.0, LoadStep(fix, s, pid, vaddr).value.1)
  {
    QuietLoad(fix, s, pid, vaddr);
  }

  /** What every quiet command leaves. */
  lemma QuietStays(fix: Repairs, s: State, c: Command)
    requires Quiet(fix, s, c) && Step(fix, s, c).Some?
    ensures Stays(s, c, Step(fix, s, c).value.0, Step(fix, s, c).value.1)
  {
    if s.hardware[c.pid].inmem == 1 {
      QuietResident(fix, s, c);
      match c
      case Map(pid, vaddr, val) => MapStays(fix, s, pid, vaddr, val);
      case Store(pid, vaddr, val) => StoreStays(fix, s, pid, vaddr, val);
      case Load(pid, vaddr) => LoadStays(fix, s, pid, vaddr);
    } else {
      NoTableStays(fix, s, c);
    }
  }

  /** Between them, repaired, they are all the commands that evict nothing however full
      the memory is. */
  lemma QuietExactly(s: State, c: Command)
    requires Valid(s)
    ensures Quiet(REPAIRED, s, c) <==> FramesNeeded(s, c) == 0
  {
    ValpresAtMostTwo(s, c.pid, c.vaddr / 16);
  }
}
