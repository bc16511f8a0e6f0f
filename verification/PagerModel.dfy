/** The demand-paging simulator as a state and its operations on values.

    Physical memory is 64 bytes: 4 frames of 16 bytes. A page table is one frame
    of 4 entries of 4 bytes each: VPN, PFN, PROTECTION, VALPRES (offsets 0 to 3).
    VALPRES is 2 for a page in memory (PFN is its address), 1 for a page on disk
    (PFN is its swap line) and 0 for a page never allocated. Protection 1 is
    writeable.

    Every operation takes the set of repairs that are applied to it, so that one
    definition gives both the code as it stands and the code with its departures
    from its design removed. */
module PagerModel {
  import opened Options

  type Byte = b: int | 0 <= b < 256
  type Pid = p: int | 0 <= p < 4
  type Vaddr = a: int | 0 <= a < 64
  type Page = p: seq<Byte> | |p| == 16 witness seq(16, i => 0)

  const ZERO_PAGE: Page := [0, 0, 0, 0, 0, 0, 0, 0, 0, 0, 0, 0, 0, 0, 0, 0]

  /** A hardware pointer to a page table: `inmem` is 1 for a memory address,
      0 for a swap line, -1 for a process without a page table. */
  datatype Hp = Hp(address: int, inmem: int)

  datatype Pager = Pager(
    mem: seq<Byte>,
    freelist: seq<int>,
    pages: seq<int>,
    ispagetable: seq<int>,
    hardware: seq<Hp>,
    swap: seq<Page>,
    roundrobin: int)

  predicate Shaped(s: Pager) {
    && |s.mem| == 64
    && |s.freelist| == |s.pages| == |s.ispagetable| == |s.hardware| == 4
    && 0 <= s.roundrobin < 4
  }

  type State = s: Pager | Shaped(s) witness Boot()

  /** The state the simulator starts in. */
  function Boot(): Pager {
    Pager(seq(64, i => 0), [1, 1, 1, 1], [-1, -1, -1, -1], [0, 0, 0, 0],
          [Hp(0, -1), Hp(0, -1), Hp(0, -1), Hp(0, -1)], [], 0)
  }

  /** Which departures from the design are repaired. */
  datatype Repairs = Repairs(
    exactLookup: bool,   // removePage looks only at the PFN bytes of entries in memory
    tablesLast: bool,    // freespace goes on to its second loop when every frame is a table
    storeSwapsIn: bool,  // store brings a writeable page back from disk before writing to it
    mapKeepsPage: bool,  // map only changes the protection of a page on disk
    addressZero: bool,   // physical address 0 can be read
    checkedLoad: bool)   // load of a page never allocated reads nothing

  const AS_WRITTEN := Repairs(false, false, false, false, false, false)
  const REPAIRED := Repairs(true, true, true, true, true, true)

  datatype Command =
    | Map(pid: Pid, vaddr: Vaddr, val: Byte)
    | Store(pid: Pid, vaddr: Vaddr, val: Byte)
    | Load(pid: Pid, vaddr: Vaddr)

  /** What a command tells its user. */
  datatype Output = MapDone | Stored | Refused | Loaded(value: Byte) | NoValue

  // ----- memory access

  function Frame(s: State, f: Pid): Page {
    s.mem[16 * f..16 * f + 16]
  }

  /** Memory with the 16 bytes of one frame replaced. */
  function PutFrame(mem: seq<Byte>, f: Pid, page: Page): (m: seq<Byte>)
    requires |mem| == 64
    ensures |m| == 64
  {
    mem[..16 * f] + page + mem[16 * f + 16..]
  }

  /** Memory after the page in frame `f` left for swap line `line`: its entry, at
      `at`, is updated and the frame is cleared. */
  function SwappedOut(mem: seq<Byte>, at: int, f: Pid, line: Byte): (m: seq<Byte>)
    requires |mem| == 64 && 0 <= at < 61
    ensures |m| == 64
  {
    PutFrame(mem[at + 1 := line][at + 3 := 1], f, ZERO_PAGE)
  }

  /** Memory after a page came back to frame `f`, with its entry, at `at`, updated. */
  function SwappedIn(mem: seq<Byte>, at: int, f: Pid, page: Page): (m: seq<Byte>)
    requires |mem| == 64 && 0 <= at < 61
    ensures |m| == 64
  {
    PutFrame(mem, f, page)[at + 1 := 16 * f][at + 3 := 2]
  }

  /** Memory after the VPN and VALPRES bytes of a new table at `at` are written. */
  function FreshTable(mem: seq<Byte>, at: int): (m: seq<Byte>)
    requires |mem| == 64 && 0 <= at <= 48
    ensures |m| == 64
  {
    mem[at := 0][at + 3 := 0][at + 4 := 1][at + 7 := 0][at + 8 := 2][at + 11 := 0][at + 12 := 3][at + 15 := 0]
  }

  predicate Resident(s: State, pid: int) {
    0 <= pid < 4 && s.hardware[pid].inmem == 1 && 0 <= s.hardware[pid].address <= 48
  }

  /** The memory index of a page table entry, -1 when the table is on disk, -2
      when the process has none. */
  function FindPte(s: State, pid: Pid, vaddr: Vaddr): int {
    if s.hardware[pid].inmem == 1 then s.hardware[pid].address + 4 * (vaddr / 16)
    else if s.hardware[pid].inmem == 0 then -1
    else -2
  }

  function Convert(s: State, vaddr: Vaddr, pid: Pid): int {
    if !Resident(s, pid) then -1
    else
      var pte := FindPte(s, pid, vaddr);
      if s.mem[pte + 3] == 0 then -1 else s.mem[pte + 1] + vaddr % 16
  }

  // ----- free frames

  function FindFree(s: State, i: nat := 0): (f: Option<Pid>)
    requires i <= 4
    ensures f.Some? ==> s.freelist[f.value] == 1 && i <= f.value
    ensures f.Some? ==> forall g :: i <= g < f.value ==> s.freelist[g] != 1
    ensures f.None? ==> forall g :: i <= g < 4 ==> s.freelist[g] != 1
    decreases 4 - i
  {
    if i == 4 then None else if s.freelist[i] == 1 then Some(i) else FindFree(s, i + 1)
  }

  function FreeBit(s: State, f: Pid): nat {
    if s.freelist[f] == 1 then 1 else 0
  }

  function FreeCount(s: State): nat {
    FreeBit(s, 0) + FreeBit(s, 1) + FreeBit(s, 2) + FreeBit(s, 3)
  }

  // ----- moving tables and pages between memory and disk

  function LoadPageTable(s: State, pid: Pid): (r: Option<State>)
    ensures r.Some? ==> Resident(r.value, pid)
  {
    var line := s.hardware[pid].address;
    if !(0 <= line < |s.swap|) then None
    else
      var free :- FindFree(s);
      Some(s.(freelist := s.freelist[free := 0],
              mem := PutFrame(s.mem, free, s.swap[line]),
              pages := s.pages[free := pid],
              hardware := s.hardware[pid := Hp(16 * free, 1)],
              ispagetable := s.ispagetable[free := 1]))
  }

  function LoadPage(s: State, pid: Pid, vaddr: Vaddr): Option<State> {
    if !Resident(s, pid) then None
    else
      var pte := FindPte(s, pid, vaddr);
      var line := s.mem[pte + 1];
      if line >= |s.swap| then None
      else
        var free :- FindFree(s);
        Some(s.(freelist := s.freelist[free := 0],
                mem := SwappedIn(s.mem, pte, free, s.swap[line]),
                pages := s.pages[free := pid]))
  }

  function RemovePageTable(s: State, pid: int): Option<State> {
    if !Resident(s, pid) || s.hardware[pid].address % 16 != 0 then None
    else
      var f := s.hardware[pid].address / 16;
      Some(s.(swap := s.swap + [Frame(s, f)],
              hardware := s.hardware[pid := Hp(|s.swap|, 0)],
              freelist := s.freelist[f := 1],
              ispagetable := s.ispagetable[f := 0],
              mem := PutFrame(s.mem, f, ZERO_PAGE),
              pages := s.pages[f := -1]))
  }

  /** The page number `removePage` settles on after looking at the first `i`
      bytes of the table at `pte`: the byte before the last one that matches. */
  function LookupVpn(exact: bool, mem: seq<Byte>, pte: int, paddr: int, i: nat): Option<int>
    requires |mem| == 64 && 0 <= pte <= 48 && i <= 16
  {
    if i == 0 then Some(0)
    else
      var before :- LookupVpn(exact, mem, pte, paddr, i - 1);
      var at := pte + i - 1;
      if mem[at] == paddr && (exact ==> (i - 1) % 4 == 1 && mem[at + 2] == 2) then
        if at == 0 then None else Some(mem[at - 1])
      else
        Some(before)
  }

  function RemovePage(fix: Repairs, s: State, pid: int, f: Pid): Option<State> {
    if !Resident(s, pid) then None
    else
      var pte := s.hardware[pid].address;
      var vp :- LookupVpn(fix.exactLookup, s.mem, pte, 16 * f, 16);
      if pte + 4 * vp + 3 >= 64 || vp < 0 then None
      else
        Some(s.(swap := s.swap + [Frame(s, f)],
                mem := SwappedOut(s.mem, pte + 4 * vp, f, |s.swap| % 256),
                freelist := s.freelist[f := 1],
                pages := s.pages[f := -1]))
  }

  // ----- eviction

  predicate IsTable(s: State, f: Pid) {
    s.ispagetable[f] == 1
  }

  predicate IsData(s: State, f: Pid) {
    s.ispagetable[f] != 1 && s.freelist[f] != 1
  }

  predicate AllTables(s: State) {
    forall f: Pid :: IsTable(s, f)
  }

  function Next(h: Pid): Pid {
    if h == 3 then 0 else h + 1
  }

  /** The first of the `k` frames from the hand on that holds a data page. */
  function NextData(s: State, h: Pid, k: nat): Option<Pid>
    decreases k
  {
    if k == 0 then None else if IsData(s, h) then Some(h) else NextData(s, Next(h), k - 1)
  }

  predicate IsOwnTable(s: State, pid: Pid, f: Pid) {
    s.hardware[pid] == Hp(16 * f, 1)
  }

  /** The first of the `k` frames from the hand on that holds a page table other
      than that of `pid`. */
  function NextTable(s: State, pid: Pid, h: Pid, k: nat): Option<Pid>
    decreases k
  {
    if k == 0 then None
    else if IsTable(s, h) && !IsOwnTable(s, pid, h) then Some(h)
    else NextTable(s, pid, Next(h), k - 1)
  }

  /** One eviction: the next data page; when there is none, the next page table
      not belonging to `pid`. When all four frames hold tables the code as written
      treats the frame at the hand as a data page. */
  function Evict(fix: Repairs, s: State, pid: Pid): Option<State> {
    if AllTables(s) && !fix.tablesLast then
      var s' :- RemovePage(fix, s, s.pages[s.roundrobin], s.roundrobin);
      Some(s'.(roundrobin := Next(s.roundrobin)))
    else
      match NextData(s, s.roundrobin, 4)
      case Some(f) =>
        var s' :- RemovePage(fix, s, s.pages[f], f);
        Some(s'.(roundrobin := Next(f)))
      case None =>
        var f :- NextTable(s, pid, s.roundrobin, 4);
        var s' :- RemovePageTable(s, s.pages[f]);
        Some(s'.(roundrobin := Next(f)))
  }

  function EvictTimes(fix: Repairs, s: State, pid: Pid, k: nat): Option<State> {
    if k == 0 then Some(s)
    else
      var s' :- EvictTimes(fix, s, pid, k - 1);
      Evict(fix, s', pid)
  }

  function Shortage(s: State, n: nat): nat {
    if FreeCount(s) < n then n - FreeCount(s) else 0
  }

  function Robin(s: State): State {
    s.(roundrobin := Next(s.roundrobin))
  }

  /** Advance the hand, then evict until `n` frames are free. */
  function FreeSpace(fix: Repairs, s: State, n: nat, pid: Pid): Option<State> {
    EvictTimes(fix, Robin(s), pid, Shortage(s, n))
  }

  // ----- the three commands

  /** Evict a frame for `pid` when `space` says that none is free. */
  function MakeRoom(fix: Repairs, s: State, pid: Pid, space: int): Option<State> {
    if space < 1 then FreeSpace(fix, s, 1, pid) else Some(s)
  }

  function SwapIn(fix: Repairs, s: State, pid: Pid, vaddr: Vaddr): Option<State> {
    var s1 :- MakeRoom(fix, s, pid, FreeCount(s));
    LoadPage(s1, pid, vaddr)
  }

  /** Bring the table of `pid` back from disk, and the page at `vaddr` too when it
      is on disk; the free frames are counted once, at the start. */
  function Revive(fix: Repairs, s: State, pid: Pid, vaddr: Vaddr): Option<State> {
    var s1 :- MakeRoom(fix, s, pid, FreeCount(s));
    var s2 :- LoadPageTable(s1, pid);
    if s2.mem[FindPte(s2, pid, vaddr) + 3] != 1 then Some(s2)
    else
      var s3 :- MakeRoom(fix, s2, pid, FreeCount(s) - 1);
      LoadPage(s3, pid, vaddr)
  }

  /** Write a byte through a resident page table. */
  function StoreHere(s: State, pid: Pid, vaddr: Vaddr, val: Byte): Option<(State, Output)> {
    if !Resident(s, pid) then None
    else if s.mem[FindPte(s, pid, vaddr) + 2] == 1 then
      var paddr := Convert(s, vaddr, pid);
      if 0 <= paddr < 64 then Some((s.(mem := s.mem[paddr := val]), Stored)) else None
    else
      Some((s, Refused))
  }

  /** Read a byte through a resident page table; `least` is the least physical
      address that counts as found. */
  function LoadHere(s: State, pid: Pid, vaddr: Vaddr, least: int): Option<(State, Output)> {
    var paddr := Convert(s, vaddr, pid);
    if paddr < least then Some((s, NoValue))
    else if 0 <= paddr < 64 then Some((s, Loaded(s.mem[paddr])))
    else None
  }

  function LeastAddress(fix: Repairs): int {
    if fix.addressZero then 0 else 1
  }

  function StoreStep(fix: Repairs, s: State, pid: Pid, vaddr: Vaddr, val: Byte): Option<(State, Output)> {
    if s.hardware[pid].inmem == 1 then
      if !Resident(s, pid) then None
      else
        var pte := FindPte(s, pid, vaddr);
        var s1 :- if fix.storeSwapsIn && s.mem[pte + 2] == 1 && s.mem[pte + 3] == 1
                  then SwapIn(fix, s, pid, vaddr) else Some(s);
        if Convert(s1, vaddr, pid) < 0 then Some((s1, Refused))
        else StoreHere(s1, pid, vaddr, val)
    else if s.hardware[pid].inmem == 0 then
      var s1 :- Revive(fix, s, pid, vaddr);
      StoreHere(s1, pid, vaddr, val)
    else
      Some((s, Refused))
  }

  function LoadStep(fix: Repairs, s: State, pid: Pid, vaddr: Vaddr): Option<(State, Output)> {
    if s.hardware[pid].inmem == 1 then
      if !Resident(s, pid) then None
      else
        var valpres := s.mem[FindPte(s, pid, vaddr) + 3];
        if valpres == 1 then
          var s1 :- SwapIn(fix, s, pid, vaddr);
          LoadHere(s1, pid, vaddr, LeastAddress(fix))
        else if valpres == 2 then LoadHere(s, pid, vaddr, 0)
        else if fix.checkedLoad then Some((s, NoValue))
        else LoadHere(s, pid, vaddr, -1)
    else if s.hardware[pid].inmem == 0 then
      var s1 :- Revive(fix, s, pid, vaddr);
      LoadHere(s1, pid, vaddr, LeastAddress(fix))
    else
      Some((s, NoValue))
  }

  /** A fresh page table at frame `free`. */
  function NewTable(s: State, pid: Pid, free: Pid): State {
    s.(freelist := s.freelist[free := 0],
       hardware := s.hardware[pid := Hp(16 * free, 1)],
       pages := s.pages[free := pid],
       ispagetable := s.ispagetable[free := 1],
       mem := FreshTable(s.mem, 16 * free))
  }

  /** Make the table of `pid` resident, creating it when there is none. */
  function TableForMap(fix: Repairs, s: State, pid: Pid): Option<State> {
    if s.hardware[pid].inmem == 1 then Some(s)
    else if s.hardware[pid].inmem == 0 then
      var s1 :- FreeSpace(fix, s, 1, pid);
      LoadPageTable(s1, pid)
    else
      var s1 :- FreeSpace(fix, s, 2, pid);
      var free :- FindFree(s1);
      Some(NewTable(s1, pid, free))
  }

  function SetProtection(s: State, pid: Pid, vaddr: Vaddr, val: Byte): State
    requires Resident(s, pid)
  {
    s.(mem := s.mem[FindPte(s, pid, vaddr) + 2 := val])
  }

  /** Give the page at `vaddr` the first free frame as it is. */
  function PlacePage(s: State, pid: Pid, vaddr: Vaddr, val: Byte): Option<State> {
    var free :- FindFree(s);
    if !Resident(s, pid) then None
    else
      var pte := FindPte(s, pid, vaddr);
      Some(s.(freelist := s.freelist[free := 0],
              pages := s.pages[free := pid],
              mem := s.mem[pte + 1 := 16 * free][pte + 2 := val][pte + 3 := 2]))
  }

  /** The same, evicting a frame first when none is free. */
  function AllocatePage(fix: Repairs, s: State, pid: Pid, vaddr: Vaddr, val: Byte): Option<State> {
    var s1 :- MakeRoom(fix, s, pid, FreeCount(s));
    PlacePage(s1, pid, vaddr, val)
  }

  function MapStep(fix: Repairs, s: State, pid: Pid, vaddr: Vaddr, val: Byte): Option<(State, Output)> {
    var s1 :- TableForMap(fix, s, pid);
    if !Resident(s1, pid) then None
    else
      var valpres := s1.mem[FindPte(s1, pid, vaddr) + 3];
      if valpres == 2 || (fix.mapKeepsPage && valpres == 1) then
        Some((SetProtection(s1, pid, vaddr, val), MapDone))
      else
        var s2 :- AllocatePage(fix, s1, pid, vaddr, val);
        Some((s2, MapDone))
  }

  function Step(fix: Repairs, s: State, c: Command): Option<(State, Output)> {
    match c
    case Map(pid, vaddr, val) => MapStep(fix, s, pid, vaddr, val)
    case Store(pid, vaddr, val) => StoreStep(fix, s, pid, vaddr, val)
    case Load(pid, vaddr) => LoadStep(fix, s, pid, vaddr)
  }

  /** A whole session: the state it ends in and what each command answered. */
  function Run(fix: Repairs, s: State, cs: seq<Command>): Option<(State, seq<Output>)>
    decreases cs
  {
    if cs == [] then Some((s, []))
    else
      var first :- Step(fix, s, cs[0]);
      var rest :- Run(fix, first.0, cs[1..]);
      Some((rest.0, [first.1] + rest.1))
  }
}
