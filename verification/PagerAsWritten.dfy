/** The code as it is written, next to its repaired form: exactly when one eviction
    goes as designed, and what a command needs for all of it to. */
module PagerAsWritten {
  import opened Options
  import opened PagerModel
  import opened PagerTables
  import opened PagerBytes
  import opened PagerEviction
  import opened PagerCommands

  // ----- the reverse lookup

  /** The byte before the last table byte equal to `paddr` is `v`. */
  predicate ScanHits(table: Page, v: Pid, paddr: int) {
    exists i | 1 <= i < 16 :: table[i] == paddr && table[i - 1] == v && NoneAfter(table, i, paddr)
  }

  predicate NoneAfter(table: Page, i: int, paddr: int)
    requires 0 <= i
  {
    forall j | i < j < 16 :: table[j] != paddr
  }

  /** The scan as written keeps the byte before the last match so far. */
  lemma {:induction false} ScanFrom(mem: seq<Byte>, pte: int, paddr: int, table: Page, i: int, n: nat)
    requires |mem| == 64 && 0 <= pte <= 48 && 0 <= i < n <= 16 && 0 < pte + i
    requires table == mem[pte..pte + 16] && table[i] == paddr
    requires forall j | i < j < n :: table[j] != paddr
    requires pte == 0 ==> mem[0] != paddr
    ensures LookupVpn(false, mem, pte, paddr, n) == Some(mem[pte + i - 1] as int)
    decreases n
  {
    assert mem[pte + n - 1] == table[n - 1];
    if n - 1 > i {
      ScanFrom(mem, pte, paddr, table, i, n - 1);
    } else {
      ScanDefined(mem, pte, paddr, n - 1);
    }
  }

  lemma {:induction false} ScanDefined(mem: seq<Byte>, pte: int, paddr: int, n: nat)
    requires |mem| == 64 && 0 <= pte <= 48 && n <= 16
    requires pte == 0 ==> mem[0] != paddr
    ensures LookupVpn(false, mem, pte, paddr, n).Some?
  {
    if n > 0 {
      ScanDefined(mem, pte, paddr, n - 1);
    }
  }

  /** The last match in a table with a match at `k`. */
  lemma LastMatch(table: Page, paddr: int, k: int) returns (i: int)
    requires 0 <= k < 16 && table[k] == paddr
    ensures k <= i < 16 && table[i] == paddr && NoneAfter(table, i, paddr)
  {
    i := 15;
    while table[i] != paddr
      invariant k <= i < 16 && NoneAfter(table, i, paddr)
      decreases i
    {
      i := i - 1;
    }
  }

  /** What the scan as written finds for a page that entry `v` maps to frame `f`. */
  lemma ScanFinds(s: State, q: Pid, v: Pid, f: Pid)
    requires MappedBy(s, q, v, f) && Apart(s, q, q, f)
    ensures LookupVpn(false, s.mem, s.hardware[q].address, 16 * f, 16).Some?
    ensures LookupVpn(false, s.mem, s.hardware[q].address, 16 * f, 16) == Some(v as int)
      <==> ScanHits(TableOf(s, q), v, 16 * f)
  {
    var table := TableOf(s, q);
    var pte := s.hardware[q].address;
    ResidentEntry(s, q, v);
    ResidentEntry(s, q, 0);
    assert forall k | 0 <= k < 16 :: table[k] == s.mem[pte + k];
    var i := LastMatch(table, 16 * f, 4 * v + 1);
    ScanFrom(s.mem, pte, 16 * f, table, i, 16);
    assert table[i - 1] == s.mem[pte + i - 1];
  }

  /** When the PFN byte is the last table byte equal to the frame's address, the scan
      finds the page. */
  lemma PfnByteLast(s: State, q: Pid, v: Pid, f: Pid)
    requires MappedBy(s, q, v, f) && NoneAfter(TableOf(s, q), 4 * v + 1, 16 * f)
    ensures ScanHits(TableOf(s, q), v, 16 * f)
  {
    var i := 4 * v + 1;
    assert EntryAt(s, q, v).vpn == v;
    assert TableOf(s, q)[i] == 16 * f && TableOf(s, q)[i - 1] == v;
  }

  /** With a wrong page number the entry of the evicted page stays as it was. */
  lemma WrongEntryUpdated(s: State, s': State, q: Pid, v: Pid, f: Pid)
    requires MappedBy(s, q, v, f) && Apart(s, q, q, f)
    requires RemovePage(AS_WRITTEN, s, q, f) == Some(s')
    requires LookupVpn(false, s.mem, s.hardware[q].address, 16 * f, 16) != Some(v as int)
    ensures EntryAt(s', q, v) == EntryAt(s, q, v)
  {
    var pte := s.hardware[q].address;
    var vp := LookupVpn(false, s.mem, pte, 16 * f, 16).value;
    forall k | pte + 4 * v <= k < pte + 4 * v + 4 ensures s'.mem[k] == s.mem[k] {
      assert s'.mem == SwappedOut(s.mem, pte + 4 * vp, f, |s.swap| % 256);
      SwappedOutElsewhere(s.mem, pte + 4 * vp, f, |s.swap| % 256, k);
    }
    EntryKept(s, s', q, v);
  }

  lemma SwappedOutElsewhere(mem: seq<Byte>, at: int, f: Pid, line: Byte, k: int)
    requires |mem| == 64 && 0 <= at < 61 && 0 <= k < 64
    requires !(16 * f <= k < 16 * f + 16) && k != at + 1 && k != at + 3
    ensures SwappedOut(mem, at, f, line)[k] == mem[k]
  {
  }

  lemma CoherentEntry(t: View, q: Pid, v: Pid, f: Pid)
    requires Coherent(t) && Maps(t, q, v, f)
    ensures Data(t, f)
  {
    assert EntryOk(t, q, v);
  }

  /** An entry may not say that a frame that is not a data page holds its page. */
  lemma StaleEntryInvalid(s: State, q: Pid, v: Pid, f: Pid)
    requires !IsData(s, f) && EntryAt(s, q, v).valpres == 2 && EntryAt(s, q, v).pfn == 16 * f
    ensures !Valid(s)
  {
    if Valid(s) {
      ViewEntry(s, q, v);
      CoherentEntry(ViewOf(s), q, v, f);
    }
  }

  lemma RemovePageSame(s: State, q: Pid, v: Pid, f: Pid)
    requires Resident(s, q) && |s.swap| < 256
    requires LookupVpn(false, s.mem, s.hardware[q].address, 16 * f, 16) == Some(v as int)
    requires LookupVpn(true, s.mem, s.hardware[q].address, 16 * f, 16) == Some(v as int)
    ensures RemovePage(AS_WRITTEN, s, q, f) == RemovePage(REPAIRED, s, q, f)
  {
    RemovePageParts(AS_WRITTEN, s, q, v, f);
    RemovePageParts(REPAIRED, s, q, v, f);
  }

  lemma RepairedRemovalValid(s: State, q: Pid, v: Pid, f: Pid)
    requires Valid(s) && Maps(ViewOf(s), q, v, f) && |s.swap| < 256
    ensures IsData(s, f) && s.pages[f] == q
    ensures RemovePage(REPAIRED, s, q, f).Some? && Valid(RemovePage(REPAIRED, s, q, f).value)
  {
    assert EntryOk(ViewOf(s), q, v);
    RemovePageHidden(s, f, q);
  }

  lemma RemovePageMiss(s: State, q: Pid, v: Pid, f: Pid)
    requires MappedBy(s, q, v, f) && Apart(s, q, q, f)
    requires LookupVpn(false, s.mem, s.hardware[q].address, 16 * f, 16) != Some(v as int)
    ensures RemovePage(AS_WRITTEN, s, q, f).Some? ==> !Valid(RemovePage(AS_WRITTEN, s, q, f).value)
  {
    if RemovePage(AS_WRITTEN, s, q, f).Some? {
      var s' := RemovePage(AS_WRITTEN, s, q, f).value;
      WrongEntryUpdated(s, s', q, v, f);
      assert s'.freelist[f] == 1;
      StaleEntryInvalid(s', q, v, f);
    }
  }

  lemma RemovePageSplit(s: State, q: Pid, v: Pid, f: Pid)
    requires MappedBy(s, q, v, f) && Apart(s, q, q, f) && |s.swap| < 256
    requires RemovePage(REPAIRED, s, q, f).Some? && Valid(RemovePage(REPAIRED, s, q, f).value)
    ensures LookupVpn(false, s.mem, s.hardware[q].address, 16 * f, 16) == Some(v as int)
      ==> RemovePage(AS_WRITTEN, s, q, f) == RemovePage(REPAIRED, s, q, f)
    ensures RemovePage(AS_WRITTEN, s, q, f).Some? && Valid(RemovePage(AS_WRITTEN, s, q, f).value)
      ==> LookupVpn(false, s.mem, s.hardware[q].address, 16 * f, 16) == Some(v as int)
  {
    if LookupVpn(false, s.mem, s.hardware[q].address, 16 * f, 16) == Some(v as int) {
      LookupFinds(s, q, v, f, 16);
      RemovePageSame(s, q, v, f);
    } else {
      RemovePageMiss(s, q, v, f);
    }
  }

  /** The eviction of one page as written is the repaired one, and leaves the
      bookkeeping coherent, exactly when the scan hits the right entry. */
  lemma RemovePageExact(s: State, q: Pid, v: Pid, f: Pid)
    requires Valid(s) && IsData(s, f) && Maps(ViewOf(s), q, v, f) && |s.swap| < 256
    ensures RemovePage(AS_WRITTEN, s, q, f).Some? && Valid(RemovePage(AS_WRITTEN, s, q, f).value)
      <==> ScanHits(TableOf(s, q), v, 16 * f)
    ensures RemovePage(AS_WRITTEN, s, q, f) == RemovePage(REPAIRED, s, q, f)
      <==> ScanHits(TableOf(s, q), v, 16 * f)
  {
    DataFrameMapped(s, q, v, f);
    TablesApart(s, q, q, f);
    ScanFinds(s, q, v, f);
    RepairedRemovalValid(s, q, v, f);
    RemovePageSplit(s, q, v, f);
  }

  // ----- one eviction

  /** The next eviction on behalf of `pid` goes as designed: not every frame holds a
      page table, and if a data page goes the scan hits its entry. */
  ghost predicate EvictSound(s: State, pid: Pid) {
    && !AllTables(s)
    && match NextData(s, s.roundrobin, 4)
       case Some(f) => exists v: Pid :: ScanHitsFrame(s, v, f)
       case None => true
  }

  ghost predicate ScanHitsFrame(s: State, v: Pid, f: Pid) {
    && 0 <= s.pages[f] < 4
    && Maps(ViewOf(s), s.pages[f], v, f)
    && ScanHits(TableOf(s, s.pages[f]), v, 16 * f)
  }

  lemma NextDataIsData(s: State)
    requires NextData(s, s.roundrobin, 4).Some?
    ensures IsData(s, NextData(s, s.roundrobin, 4).value)
  {
    NextDataFinds(s, s.roundrobin, 4);
  }

  /** A table frame removed as if it were a data page is free and a table at once. */
  lemma TableRemovedAsPage(s: State, f: Pid)
    requires AllTables(s)
    ensures var s' := RemovePage(AS_WRITTEN, s, s.pages[f], f);
      s'.Some? ==> !Valid(s'.value) && !Valid(s'.value.(roundrobin := Next(f)))
  {
    assert IsTable(s, f);
    var s' := RemovePage(AS_WRITTEN, s, s.pages[f], f);
    if s'.Some? {
      FreeTableInvalid(s'.value, f);
      FreeTableInvalid(s'.value.(roundrobin := Next(f)), f);
    }
  }

  lemma FreeTableInvalid(s: State, f: Pid)
    requires IsTable(s, f) && s.freelist[f] == 1
    ensures !Valid(s)
  {
    if Valid(s) {
      FreeFrame(s, f);
    }
  }

  /** One data page evicted as written, hand included. */
  lemma DataEvictionExact(s: State, f: Pid)
    requires Valid(s) && IsData(s, f) && |s.swap| < 256
    ensures RemovePage(AS_WRITTEN, s, s.pages[f], f).Some?
        && Valid(RemovePage(AS_WRITTEN, s, s.pages[f], f).value)
      <==> exists v: Pid :: ScanHitsFrame(s, v, f)
    ensures RemovePage(AS_WRITTEN, s, s.pages[f], f) == RemovePage(REPAIRED, s, s.pages[f], f)
      <==> exists v: Pid :: ScanHitsFrame(s, v, f)
  {
    var q, v := DataFrameOwner(s, f);
    RemovePageExact(s, q, v, f);
    forall w: Pid | ScanHitsFrame(s, w, f) ensures w == v {
      ViewEntry(s, q, w);
    }
    if ScanHits(TableOf(s, q), v, 16 * f) {
      assert ScanHitsFrame(s, v, f);
    }
  }

  lemma HandValid(s: State, h: Pid)
    ensures Valid(s.(roundrobin := h)) == Valid(s)
  {
    HandMoves(s, s.(roundrobin := h));
  }

  /** One eviction as written is the repaired one, and keeps the bookkeeping
      coherent, exactly when it is sound. */
  lemma EvictExact(s: State, pid: Pid)
    requires Valid(s) && Numbers(s, 1) && FreeCount(s) <= 2
    ensures Evict(AS_WRITTEN, s, pid).Some? && Valid(Evict(AS_WRITTEN, s, pid).value) <==> EvictSound(s, pid)
    ensures Evict(AS_WRITTEN, s, pid) == Evict(REPAIRED, s, pid) <==> EvictSound(s, pid)
  {
    EvictHidden(s, pid);
    if AllTables(s) {
      TableRemovedAsPage(s, s.roundrobin);
    } else if NextData(s, s.roundrobin, 4).Some? {
      NextDataIsData(s);
      EvictDataExact(s, pid, NextData(s, s.roundrobin, 4).value);
    } else {
      EvictSameTable(s, pid);
    }
  }

  lemma EvictSameTable(s: State, pid: Pid)
    requires !AllTables(s) && NextData(s, s.roundrobin, 4).None?
    ensures Evict(AS_WRITTEN, s, pid) == Evict(REPAIRED, s, pid)
  {
  }

  lemma EvictDataExact(s: State, pid: Pid, f: Pid)
    requires Valid(s) && |s.swap| < 256 && FreeCount(s) <= 2
    requires !AllTables(s) && NextData(s, s.roundrobin, 4) == Some(f) && IsData(s, f)
    ensures Evict(AS_WRITTEN, s, pid).Some? && Valid(Evict(AS_WRITTEN, s, pid).value) <==> EvictSound(s, pid)
    ensures Evict(AS_WRITTEN, s, pid) == Evict(REPAIRED, s, pid) <==> EvictSound(s, pid)
  {
    DataEvictionExact(s, f);
    var a := RemovePage(AS_WRITTEN, s, s.pages[f], f);
    RemovePageHidden(s, f, pid);
    var r := RemovePage(REPAIRED, s, s.pages[f], f);
    HandValid(r.value, Next(f));
    if a.Some? {
      HandValid(a.value, Next(f));
    }
    assert EvictSound(s, pid) <==> exists v: Pid :: ScanHitsFrame(s, v, f);
  }
}
