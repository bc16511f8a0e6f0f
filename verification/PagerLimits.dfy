/** Addresses: different pages never share one, and a store reaches nothing but its
    own page. And a limit of the encoding: a swap line number has one byte. */
module PagerLimits {
  import opened Options
  import opened PagerModel
  import opened PagerTables
  import opened PagerBytes
  import opened PagerEviction
  import opened PagerCommands
  import opened PagerAsWritten

  // ----- isolation

  predicate Present(s: State, pid: Pid, vaddr: Vaddr) {
    EntryAt(s, pid, vaddr / 16).valpres == 2
  }

  lemma PresentPage(s: State, pid: Pid, vaddr: Vaddr)
    requires Valid(s) && Present(s, pid, vaddr)
    ensures Resident(s, pid)
    ensures var pfn := EntryAt(s, pid, vaddr / 16).pfn;
      && pfn <= 48 && pfn % 16 == 0 && IsData(s, pfn / 16) && s.pages[pfn / 16] == pid
      && Convert(s, vaddr, pid) == pfn + vaddr % 16
  {
    ViewEntry(s, pid, vaddr / 16);
    assert EntryOk(ViewOf(s), pid, vaddr / 16) && PointerOk(ViewOf(s), pid);
    ReadValpres(s, pid, vaddr);
  }

  /** A present page converts to an address inside a data frame of its own process. */
  lemma ConvertInOwnFrame(s: State, pid: Pid, vaddr: Vaddr)
    requires Valid(s) && Present(s, pid, vaddr)
    ensures 0 <= Convert(s, vaddr, pid) < 64
    ensures var f := Convert(s, vaddr, pid) / 16;
      IsData(s, f) && s.pages[f] == pid && Convert(s, vaddr, pid) == 16 * f + vaddr % 16
  {
    PresentPage(s, pid, vaddr);
    InFrame(EntryAt(s, pid, vaddr / 16).pfn, vaddr % 16);
  }

  lemma InFrame(pfn: int, offset: int)
    requires pfn % 16 == 0 && 0 <= offset < 16
    ensures (pfn + offset) / 16 == pfn / 16 && pfn + offset == 16 * (pfn / 16) + offset
  {
  }

  lemma OneEntryPerFrame(s: State, p: Pid, v: Pid, w: Pid)
    requires Valid(s) && EntryAt(s, p, v).valpres == 2 && EntryAt(s, p, w).valpres == 2
    requires EntryAt(s, p, v).pfn == EntryAt(s, p, w).pfn
    ensures v == w
  {
    ViewEntry(s, p, v);
    ViewEntry(s, p, w);
    assert EntryOk(ViewOf(s), p, v);
    var f: Pid := EntryAt(s, p, v).pfn / 16;
    assert Maps(ViewOf(s), p, v, f) && Maps(ViewOf(s), p, w, f);
  }

  lemma SameAddress(pfn: int, offset: int, pfn': int, offset': int)
    requires pfn % 16 == 0 && pfn' % 16 == 0 && 0 <= offset < 16 && 0 <= offset' < 16 && pfn + offset == pfn' + offset'
    ensures pfn == pfn' && offset == offset'
  {
  }

  /** Different present addresses, of one process or of two, convert to different
      physical addresses. */
  lemma ConvertIsInjective(s: State, p: Pid, a: Vaddr, q: Pid, b: Vaddr)
    requires Valid(s) && Present(s, p, a) && Present(s, q, b)
    ensures Convert(s, a, p) == Convert(s, b, q) <==> p == q && a == b
  {
    PresentPage(s, p, a);
    PresentPage(s, q, b);
    if Convert(s, a, p) == Convert(s, b, q) {
      SameAddress(EntryAt(s, p, a / 16).pfn, a % 16, EntryAt(s, q, b / 16).pfn, b % 16);
      OneEntryPerFrame(s, p, a / 16, b / 16);
    }
  }

  lemma OneByteChanged(mem: seq<Byte>, at: int, f: Pid, x: Byte)
    requires |mem| == 64 && 0 <= at < 64
    ensures mem[at := x][16 * f..16 * f + 16] ==
      if at / 16 == f then mem[16 * f..16 * f + 16][at % 16 := x] else mem[16 * f..16 * f + 16]
  {
  }

  /** A store to a present page changes one byte of that page: page tables and the
      frames of other processes keep all of theirs. */
  lemma StoreStaysHome(s: State, pid: Pid, vaddr: Vaddr, val: Byte, f: Pid)
    requires Valid(s) && Present(s, pid, vaddr)
    ensures StoreHere(s, pid, vaddr, val).Some?
    ensures IsTable(s, f) || s.pages[f] != pid ==> Frame(StoreHere(s, pid, vaddr, val).value.0, f) == Frame(s, f)
    ensures StoreHere(s, pid, vaddr, val).value.1 == Stored ==>
      Frame(StoreHere(s, pid, vaddr, val).value.0, f) ==
        if f == Convert(s, vaddr, pid) / 16 then Frame(s, f)[vaddr % 16 := val] else Frame(s, f)
  {
    PresentPage(s, pid, vaddr);
    ConvertInOwnFrame(s, pid, vaddr);
    OneByteChanged(s.mem, Convert(s, vaddr, pid), f, val);
  }

  /** The state in which a repaired store writes: its page, and before that its page
      table, has been brought back if need be. */
  function StoreFrom(s: State, pid: Pid, vaddr: Vaddr): Option<State> {
    if s.hardware[pid].inmem == 0 then Revive(REPAIRED, s, pid, vaddr)
    else if s.hardware[pid].inmem == 1 && EntryAt(s, pid, vaddr / 16).valpres == 1 && EntryAt(s, pid, vaddr / 16).prot == 1 then
      SwapIn(REPAIRED, s, pid, vaddr)
    else Some(s)
  }

  /** `s'` is `s1` with at most one byte stored, in the page of `vaddr` of `pid`. */
  ghost predicate StoredAtHome(s1: State, s': State, out: Output, pid: Pid, vaddr: Vaddr, val: Byte) {
    && (out != Stored ==> s' == s1)
    && (out == Stored ==>
          && Present(s1, pid, vaddr) && 0 <= Convert(s1, vaddr, pid) < 64
          && IsData(s1, Convert(s1, vaddr, pid) / 16) && s1.pages[Convert(s1, vaddr, pid) / 16] == pid
          && forall f: Pid ::
               Frame(s', f) == if f == Convert(s1, vaddr, pid) / 16 then Frame(s1, f)[vaddr % 16 := val] else Frame(s1, f))
  }

  lemma StoreHereAtHome(s1: State, pid: Pid, vaddr: Vaddr, val: Byte)
    requires Valid(s1) && Resident(s1, pid) && EntryAt(s1, pid, vaddr / 16).valpres != 1
    ensures StoreHere(s1, pid, vaddr, val).Some?
    ensures StoredAtHome(s1, StoreHere(s1, pid, vaddr, val).value.0, StoreHere(s1, pid, vaddr, val).value.1, pid, vaddr, val)
    ensures Convert(s1, vaddr, pid) < 0 ==> StoreHere(s1, pid, vaddr, val) == Some((s1, Refused))
  {
    EntryHere(s1, pid, vaddr / 16);
    ConvertFinds(s1, pid, vaddr);
    if EntryAt(s1, pid, vaddr / 16).prot == 1 {
      ConvertInOwnFrame(s1, pid, vaddr);
      forall f: Pid { StoreStaysHome(s1, pid, vaddr, val, f); }
      StoreHereMakes(s1, pid, vaddr, val);
    } else {
      StoreHereRefuses(s1, pid, vaddr, val);
    }
  }

  /** A repaired store, wherever its page and page table are: it brings them back without
      any process seeing it, and then changes no byte outside its own page. */
  lemma WholeStoreStaysHome(s: State, pid: Pid, vaddr: Vaddr, val: Byte)
    requires Valid(s) && Numbered(s, Store(pid, vaddr, val))
    ensures StoreFrom(s, pid, vaddr).Some? && Brings(s, StoreFrom(s, pid, vaddr).value, 2)
    ensures StoreStep(REPAIRED, s, pid, vaddr, val).Some?
    ensures var (s', out) := StoreStep(REPAIRED, s, pid, vaddr, val).value;
      StoredAtHome(StoreFrom(s, pid, vaddr).value, s', out, pid, vaddr, val)
  {
    var e := EntryAt(s, pid, vaddr / 16);
    if s.hardware[pid].inmem == 0 {
      ReviveBrings(s, pid, vaddr);
      StoreHereAtHome(Revive(REPAIRED, s, pid, vaddr).value, pid, vaddr, val);
    } else if s.hardware[pid].inmem == 1 {
      ValidResident(s, pid);
      if e.valpres == 1 && e.prot == 1 {
        SwapInBrings(s, pid, vaddr);
        StoreSteps(s, SwapIn(REPAIRED, s, pid, vaddr).value, pid, vaddr, val);
        StoreHereAtHome(SwapIn(REPAIRED, s, pid, vaddr).value, pid, vaddr, val);
      } else {
        StoreSteps(s, s, pid, vaddr, val);
        if e.valpres == 1 {
          StoreHereRefuses(s, pid, vaddr, val);
        } else {
          StoreHereAtHome(s, pid, vaddr, val);
        }
      }
    }
  }

  // ----- the byte that holds a swap line number

  lemma LineByteWritten(s: State, q: Pid, v: Pid, f: Pid)
    requires Valid(s) && IsData(s, f) && Resident(s, q)
    requires LookupVpn(true, s.mem, s.hardware[q].address, 16 * f, 16) == Some(v as int)
    ensures RemovePage(REPAIRED, s, q, f).Some?
    ensures var s' := RemovePage(REPAIRED, s, q, f).value;
      && s'.swap == s.swap + [Frame(s, f)]
      && EntryAt(s', q, v) == EntryAt(s, q, v).(pfn := |s.swap| % 256, valpres := 1)
  {
    TablesApart(s, q, q, f);
    var s' := RemovePage(REPAIRED, s, q, f).value;
    var at := s.hardware[q].address + 4 * v;
    var e := EntryAt(s, q, v);
    ResidentEntry(s, q, v);
    ResidentEntry(s', q, v);
    forall k | at <= k < at + 4 ensures s'.mem[k] == ByteAfter(s.mem, at, f, e.(pfn := |s.swap| % 256, valpres := 1), ZERO_PAGE, k) {
      SwappedOutByte(s.mem, at, f, |s.swap| % 256, e, k);
    }
  }

  lemma DiskSeen(s: State, q: Pid, v: Pid)
    requires EntryAt(s, q, v).valpres == 1 && EntryAt(s, q, v).pfn < |s.swap|
    ensures PageOf(ViewOf(s), q, v) == Mapped(EntryAt(s, q, v).prot, s.swap[EntryAt(s, q, v).pfn])
  {
    ViewEntry(s, q, v);
  }

  lemma LineAfter(s': State, swap: seq<Page>, page: Page, e: Entry, q: Pid, v: Pid)
    requires s'.swap == swap + [page] && EntryAt(s', q, v) == e.(pfn := |swap| % 256, valpres := 1)
    ensures PageOf(ViewOf(s'), q, v) == Mapped(e.prot, s'.swap[|swap| % 256])
  {
    DiskSeen(s', q, v);
  }

  /** Evicting a page keeps it for its owner if and only if its line number fits in the
      byte that records it, or the line that the byte names happens to be the same. */
  lemma LineNumberExact(s: State, f: Pid) returns (q: Pid, v: Pid)
    requires Valid(s) && IsData(s, f)
    ensures q == s.pages[f] && Maps(ViewOf(s), q, v, f)
    ensures RemovePage(REPAIRED, s, q, f).Some?
    ensures PageOf(ViewOf(RemovePage(REPAIRED, s, q, f).value), q, v) == PageOf(ViewOf(s), q, v)
      <==> |s.swap| < 256 || s.swap[|s.swap| % 256] == Frame(s, f)
  {
    q, v := DataFrameOwner(s, f);
    LineByteWritten(s, q, v, f);
    LineAfter(RemovePage(REPAIRED, s, q, f).value, s.swap, Frame(s, f), EntryAt(s, q, v), q, v);
    LineSeen(s, q, v, f);
    SameLine(s.swap, Frame(s, f), RemovePage(REPAIRED, s, q, f).value.swap);
  }

  lemma SameLine(swap: seq<Page>, page: Page, swap': seq<Page>)
    requires swap' == swap + [page]
    ensures swap'[|swap| % 256] == page <==> |swap| < 256 || swap[|swap| % 256] == page
  {
  }
}
