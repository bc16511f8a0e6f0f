/** The simulator itself: global arrays updated in place, a text swap file, and the
    loops of each routine. Every method computes what `PagerModel` says for the
    repairs in force; where that is `None` the C code has no defined outcome, so the
    method may not be called. */
module PagerMachine {
  import opened Options
  import opened PagerModel
  import opened PagerEviction
  import opened PagerCommands
  import opened SwapText

  /** Address `free` is that of the first frame on the free list. */
  predicate LowestFree(freelist: seq<int>, free: int) {
    && 0 <= free < 64 && free % 16 == 0 && free / 16 < |freelist| && freelist[free / 16] == 1
    && forall f | 0 <= f < free / 16 :: freelist[f] != 1
  }

  class Machine {
    const fix: Repairs
    const mem: array<Byte>
    const freelist: array<int>
    const pages: array<int>
    const ispagetable: array<int>
    const hardware: array<Hp>
    var linecount: nat
    var roundrobin: int
    var file: string       // swapspace.txt
    ghost var log: seq<Page>  // the pages in it

    ghost function Repr(): set<object> {
      {this, mem, freelist, pages, ispagetable, hardware}
    }

    ghost predicate Formed()
      reads this
    {
      && mem.Length == 64
      && freelist.Length == pages.Length == ispagetable.Length == hardware.Length == 4
      && freelist != pages && freelist != ispagetable && pages != ispagetable
      && mem as object != freelist && mem as object != pages && mem as object != ispagetable
      && 0 <= roundrobin < 4
    }

    ghost predicate Valid()
      reads Repr()
    {
      Formed() && linecount == |log| && file == FileText(log)
    }

    /** The state as a value. */
    ghost function Now(): State
      requires Formed()
      reads this, Repr()
    {
      Pager(mem[..], freelist[..], pages[..], ispagetable[..], hardware[..], log, roundrobin)
    }

    constructor (fix: Repairs)
      ensures Valid() && fresh(Repr()) && this.fix == fix
      ensures Now() == Boot()
    {
      this.fix := fix;
      mem := new Byte[64](_ => 0);
      freelist := new int[4](_ => 1);
      pages := new int[4](_ => -1);
      ispagetable := new int[4](_ => 0);
      hardware := new Hp[4](_ => Hp(0, -1));
      linecount := 0;
      roundrobin := 0;
      file := "";
      log := [];
    }

    // ----- page table entries

    /** The number of the page at `vaddr`, by repeated subtraction. */
    method PageNumber(vaddr: Vaddr) returns (vpage: nat)
      ensures vpage == vaddr / 16
    {
      var v := vaddr;
      vpage := 0;
      while v > 16
        invariant v == vaddr - 16 * vpage && (v > 0 || v == vaddr)
      {
        v := v - 16;
        vpage := vpage + 1;
      }
      if v == 16 {
        vpage := vpage + 1;
      }
    }

    method FindPte(pid: Pid, vaddr: Vaddr) returns (pte: int)
      requires Valid()
      ensures pte == PagerModel.FindPte(Now(), pid, vaddr)
    {
      var vpage := PageNumber(vaddr);
      if hardware[pid].inmem == 1 {
        return hardware[pid].address + 4 * vpage;
      }
      if hardware[pid].inmem == 0 {
        return -1;
      }
      return -2;
    }

    method Convert(vaddr: Vaddr, pid: Pid) returns (paddr: int)
      requires Valid() && (hardware[pid].inmem == 1 ==> Resident(Now(), pid))
      ensures paddr == PagerModel.Convert(Now(), vaddr, pid)
    {
      if hardware[pid].inmem == 1 {
        var vpage := PageNumber(vaddr);
        if mem[hardware[pid].address + 4 * vpage + 3] == 0 {
          return -1;
        }
        paddr := mem[hardware[pid].address + 4 * vpage + 1];
        var offset := vaddr - 16 * vpage;
        paddr := paddr + offset;
        return paddr;
      }
      return -1;
    }

    // ----- free frames

    /** The address of the first free frame, which is taken off the free list. */
    method FindFree() returns (free: int)
      requires Valid()
      modifies freelist
      ensures Valid()
      ensures match PagerModel.FindFree(old(Now()))
        case Some(f) => free == 16 * f && Now() == old(Now()).(freelist := old(Now()).freelist[f := 0])
        case None => free == -1 && Now() == old(Now())
    {
      var i := 0;
      while i < 4
        invariant 0 <= i <= 4
        invariant Valid() && Now() == old(Now())
        invariant PagerModel.FindFree(Now()) == PagerModel.FindFree(Now(), i)
      {
        if freelist[i] == 1 {
          freelist[i] := 0;
          assert freelist[..] == old(freelist[..])[i := 0];
          return i * 16;
        }
        i := i + 1;
      }
      return -1;
    }

    method CountFree() returns (f: nat)
      requires Valid()
      ensures f == FreeCount(Now())
    {
      f := 0;
      var i := 0;
      while i < 4
        invariant 0 <= i <= 4
        invariant f == (if i > 0 then FreeBit(Now(), 0) else 0) + (if i > 1 then FreeBit(Now(), 1) else 0)
                     + (if i > 2 then FreeBit(Now(), 2) else 0) + (if i > 3 then FreeBit(Now(), 3) else 0)
      {
        if freelist[i] == 1 {
          f := f + 1;
        }
        i := i + 1;
      }
    }

    // ----- the swap file

    /** The file with the 16 bytes at `base` printed after it as line `linenum`. */
    method PrintLine(linenum: nat, base: nat) returns (f: string)
      requires Formed() && base <= 48
      ensures f == file + LineText(linenum, mem[base..base + 16])
    {
      ghost var page: Page := mem[base..base + 16];
      f := file;
      f := f + Decimal(linenum) + " ";
      var i := 0;
      while i < 16
        invariant 0 <= i <= 16
        invariant f == file + Decimal(linenum) + " " + BytesText(page[..i])
      {
        assert page[i] == mem[base + i];
        ByteAppended(file + Decimal(linenum) + " ", page, i);
        f := f + Decimal(mem[base + i]) + " ";
        i := i + 1;
      }
      LineAppended(file, linenum, page);
      f := f + "\n" + " ";
    }

    /** Append the 16 bytes at `base` to the swap file as line `linenum`. */
    method PageToFile(linenum: nat, base: nat) returns (line: nat)
      requires Formed() && base <= 48 && linenum == |log| && file == FileText(log)
      modifies this`file, this`log
      ensures line == linenum && log == old(log) + [old(mem[base..base + 16])] && file == FileText(log)
    {
      FileTextAppend(log, mem[base..base + 16]);
      var f := PrintLine(linenum, base);
      log := log + [mem[base..base + 16]];
      file := f;
      return linenum;
    }

    /** Store the values of swap line `linenum` in `buffer`, which needs room for the
        value of the newline too; a line past the last is refused. For the line just
        past it the search would never end. */
    method PageFromFile(buffer: array<Byte>, linenum: nat) returns (found: int)
      requires Valid() && linenum != linecount && |log| <= INT_MAX && buffer.Length >= 17
      modifies buffer
      ensures found == if linenum < |log| then 1 else -1
      ensures linenum < |log| ==> buffer[..17] == log[linenum] + [0] && buffer[17..] == old(buffer[17..])
      ensures linenum > |log| ==> buffer[..] == old(buffer[..])
    {
      if linenum > linecount {
        return -1;
      }
      ReadsBack(log, linenum);
      SeekFile(log, linenum);
      var rest := file;
      var n := Taken(rest, LINE_BUFFER - 1);
      var line := rest[..n];
      rest := rest[n..];
      var token := Words(line);
      var ln := Atoi(token[0]);
      while ln != linenum
        invariant Seek(file, linenum) == (if ln == linenum then Some(token) else Seek(rest, linenum))
        decreases |rest|, if ln == linenum then 0 else 1
      {
        n := Taken(rest, LINE_BUFFER - 1);
        line := rest[..n];
        rest := rest[n..];
        token := Words(line);
        ln := Atoi(token[0]);
      }
      SoughtLine(file, linenum, token);
      var words := token[1..];
      StoreValues(buffer, words);
      return 1;
    }

    /** The second loop of `PageFromFile`: the values of the 17 words after the line number. */
    method StoreValues(buffer: array<Byte>, words: seq<string>)
      requires |words| == 17 <= buffer.Length
      modifies buffer
      ensures buffer[..17] == Values(words) && buffer[17..] == old(buffer[17..])
    {
      ValuesLength(words);
      var i := 0;
      while i < |words|
        invariant 0 <= i <= |words|
        invariant buffer[..i] == Values(words[..i]) && buffer[17..] == old(buffer[17..])
      {
        buffer[i] := Atoi(words[i]) % 256;
        assert words[..i + 1][..i] == words[..i];
        i := i + 1;
      }
      assert words[..|words|] == words;
    }

    method SwapToMem(temp: array<Byte>, base: nat)
      requires Formed() && base <= 48 && base % 16 == 0 && temp.Length >= 16
      requires temp as object !in Repr()
      modifies mem
      ensures mem[..] == PutFrame(old(mem[..]), base / 16, temp[..16])
    {
      var i := 0;
      while i < 16
        invariant 0 <= i <= 16
        invariant mem[..] == old(mem[..base]) + temp[..i] + old(mem[base + i..])
      {
        mem[base + i] := temp[i];
        i := i + 1;
      }
    }

    // ----- moving tables and pages

    /** What bringing back a table and bringing back a page have in common: swap line
        `line` goes to the first free frame, which now belongs to `pid`. */
    method Fetch(pid: Pid, line: nat) returns (free: int)
      requires Valid() && line < linecount <= INT_MAX && PagerModel.FindFree(Now()).Some?
      modifies mem, freelist, pages
      ensures Valid() && free == 16 * PagerModel.FindFree(old(Now())).value
      ensures mem[..] == PutFrame(old(mem[..]), free / 16, log[line])
      ensures freelist[..] == old(freelist[..])[free / 16 := 0] && pages[..] == old(pages[..])[free / 16 := pid]
    {
      free := FindFree();
      var temp := new Byte[17];
      var found := PageFromFile(temp, line);
      assert temp[..16] == temp[..17][..16] == log[line];
      SwapToMem(temp, free);
      pages[free / 16] := pid;
    }

    /** The table of `pid` comes back to address `free`, that of the lowest free frame. */
    method LoadPageTable(pid: Pid) returns (free: int)
      requires Valid() && linecount <= INT_MAX && PagerModel.LoadPageTable(Now(), pid).Some?
      modifies Repr()
      ensures Valid() && Now() == PagerModel.LoadPageTable(old(Now()), pid).value
      ensures linecount == old(linecount)
      ensures LowestFree(old(freelist[..]), free) && hardware[pid] == Hp(free, 1)
      ensures pages[free / 16] == pid && ispagetable[free / 16] == 1
    {
      ghost var s := Now();
      LoadTableParts(s, pid);
      var line := hardware[pid].address;
      free := Fetch(pid, line);
      hardware[pid] := hardware[pid].(address := free);
      hardware[pid] := hardware[pid].(inmem := 1);
      assert hardware[..] == s.hardware[pid := Hp(free, 1)];
      ispagetable[free / 16] := 1;
      assert ispagetable[..] == s.ispagetable[free / 16 := 1];
    }

    /** The page at `vaddr` comes back to address `free`, that of the lowest free frame. */
    method LoadPage(pid: Pid, vaddr: Vaddr) returns (free: int)
      requires Valid() && linecount <= INT_MAX && PagerModel.LoadPage(Now(), pid, vaddr).Some?
      modifies Repr()
      ensures Valid() && Now() == PagerModel.LoadPage(old(Now()), pid, vaddr).value
      ensures LowestFree(old(freelist[..]), free) && pages[free / 16] == pid
      ensures Resident(Now(), pid) && mem[hardware[pid].address + 4 * (vaddr / 16) + 1] == free
    {
      LoadPageSteps(Now(), pid, vaddr);
      var pte := FindPte(pid, vaddr);
      var line := mem[pte + 1];
      free := Fetch(pid, line);
      MarkInMemory(pid, vaddr, free);
      assert hardware[..] == old(hardware[..]);
    }

    /** Point the entry of the page at `vaddr` to the frame at `free`. */
    method MarkInMemory(pid: Pid, vaddr: Vaddr, free: int)
      requires Valid() && Resident(Now(), pid) && 0 <= free < 256
      modifies mem
      ensures Valid()
      ensures var at := PagerModel.FindPte(old(Now()), pid, vaddr);
        0 <= at < 61 && mem[..] == old(mem[..])[at + 1 := free][at + 3 := 2]
    {
      PteInMemory(Now(), pid, vaddr);
      var pte := FindPte(pid, vaddr);
      mem[pte + 1] := free;
      pte := FindPte(pid, vaddr);
      mem[pte + 3] := 2;
    }

    method ClearFrame(base: nat)
      requires Formed() && base <= 48 && base % 16 == 0
      modifies mem
      ensures mem[..] == PutFrame(old(mem[..]), base / 16, ZERO_PAGE)
    {
      var i := 0;
      while i < 16
        invariant 0 <= i <= 16
        invariant forall k :: 0 <= k < 64 ==> mem[k] == if base <= k < base + i then 0 else old(mem[k])
      {
        mem[base + i] := 0;
        i := i + 1;
      }
    }

    /** Append the frame at `base` as the next swap line. */
    method WriteOut(base: nat) returns (line: nat)
      requires Valid() && base <= 48 && base % 16 == 0
      modifies this`file, this`log, this`linecount
      ensures Valid() && line == |old(log)| && log == old(log) + [Frame(old(Now()), base / 16)]
    {
      line := PageToFile(linecount, base);
      linecount := linecount + 1;
    }

    /** Clear the frame at `base` and give it back. */
    method Vacate(base: nat)
      requires Valid() && base <= 48 && base % 16 == 0
      modifies mem, freelist, pages
      ensures Valid() && mem[..] == PutFrame(old(mem[..]), base / 16, ZERO_PAGE)
      ensures freelist[..] == old(freelist[..])[base / 16 := 1] && pages[..] == old(pages[..])[base / 16 := -1]
    {
      ClearFrame(base);
      freelist[base / 16] := 1;
      pages[base / 16] := -1;
    }

    method RemovePageTable(pid: Pid)
      requires Valid() && PagerModel.RemovePageTable(Now(), pid).Some?
      modifies Repr()
      ensures Valid() && Now() == PagerModel.RemovePageTable(old(Now()), pid).value
    {
      ghost var s := Now();
      var pt := FindPte(pid, 0);
      var line := WriteOut(pt);
      hardware[pid] := hardware[pid].(address := line);
      hardware[pid] := hardware[pid].(inmem := 0);
      assert hardware[..] == s.hardware[pid := Hp(|s.swap|, 0)];
      ispagetable[pt / 16] := 0;
      assert ispagetable[..] == s.ispagetable[pt / 16 := 0];
      Vacate(pt);
    }

    /** The page number found by scanning the table at `pte` for `paddr`. */
    method ScanTable(pte: int, paddr: int) returns (vp: int)
      requires Formed() && 0 <= pte <= 48 && LookupVpn(fix.exactLookup, mem[..], pte, paddr, 16).Some?
      ensures LookupVpn(fix.exactLookup, mem[..], pte, paddr, 16) == Some(vp)
    {
      vp := 0;
      var i := 0;
      while i < 16
        invariant 0 <= i <= 16
        invariant LookupVpn(fix.exactLookup, mem[..], pte, paddr, i) == Some(vp)
      {
        LookupDefined(fix.exactLookup, mem[..], pte, paddr, i + 1, 16);
        if mem[pte + i] == paddr && (fix.exactLookup ==> i % 4 == 1 && mem[pte + i + 2] == 2) {
          vp := mem[pte + i - 1];
        }
        i := i + 1;
      }
    }

    /** Point the entry at `at` to swap line `line`. */
    method MarkOnDisk(at: nat, line: nat)
      requires Formed() && at < 61
      modifies mem
      ensures mem[..] == old(mem[..])[at + 1 := line % 256][at + 3 := 1]
    {
      mem[at + 1] := line % 256;
      mem[at + 3] := 1;
    }

    method RemovePage(pid: Pid, paddr: int)
      requires Valid() && 0 <= paddr <= 48 && paddr % 16 == 0
      requires PagerModel.RemovePage(fix, Now(), pid, paddr / 16).Some?
      modifies Repr()
      ensures Valid() && Now() == PagerModel.RemovePage(fix, old(Now()), pid, paddr / 16).value
    {
      ghost var s := Now();
      var pte := FindPte(pid, 0);
      var vp := ScanTable(pte, paddr);
      RemovePageParts(fix, s, pid, paddr / 16, vp);
      var fadr := WriteOut(paddr);
      GiveUp(pte + 4 * vp, fadr, paddr);
    }

    /** The entry at `at` now names swap line `line`, and its frame is free. */
    method GiveUp(at: nat, line: nat, paddr: nat)
      requires Valid() && at < 61 && paddr <= 48 && paddr % 16 == 0
      modifies mem, freelist, pages
      ensures Valid() && mem[..] == SwappedOut(old(mem[..]), at, paddr / 16, line % 256)
      ensures freelist[..] == old(freelist[..])[paddr / 16 := 1] && pages[..] == old(pages[..])[paddr / 16 := -1]
    {
      MarkOnDisk(at, line);
      Vacate(paddr);
    }

    method Robin()
      requires Valid()
      modifies this`roundrobin
      ensures Valid() && Now() == PagerModel.Robin(old(Now())) && roundrobin == Next(old(roundrobin))
    {
      roundrobin := roundrobin + 1;
      roundrobin := roundrobin % 4;
    }

    // ----- making room

    /** Pass over the table of `pid` when the hand is at it. */
    method SkipOwn(pid: Pid) returns (j: nat)
      requires Valid() && OwnIsTable(Now(), pid)
      modifies this`roundrobin
      ensures Valid() && Now() == old(Now()).(roundrobin := roundrobin)
      ensures j <= 1 && roundrobin == Turn(old(roundrobin), j) && (j == 1 ==> IsTable(Now(), old(roundrobin)))
    {
      j := 0;
      if roundrobin * 16 == hardware[pid].address && hardware[pid].inmem == 1 {
        assert IsOwnTable(Now(), pid, roundrobin);
        Robin();
        j := j + 1;
      }
    }

    /** Pass over page tables, at most once round; `j` counts the frames passed. */
    method SkipTables(pid: Pid) returns (j: nat)
      requires Valid() && OwnIsTable(Now(), pid)
      modifies this`roundrobin
      ensures Valid() && Now() == old(Now()).(roundrobin := roundrobin)
      ensures j <= 4 && roundrobin == Turn(old(roundrobin), j)
      ensures forall i: nat | i < j :: IsTable(Now(), Turn(old(roundrobin), i))
      ensures j == 4 || !IsTable(Now(), roundrobin)
    {
      ghost var s, h: Pid := Now(), roundrobin;
      j := SkipOwn(pid);
      while ispagetable[roundrobin] == 1
        invariant Valid() && Now() == s.(roundrobin := roundrobin)
        invariant j < 4 && roundrobin == Turn(h, j)
        invariant forall i: nat | i < j :: IsTable(s, Turn(h, i))
        decreases 4 - j
      {
        TurnOn(h, j);
        assert IsTable(s, Turn(h, j));
        Robin();
        j := j + 1;
        if j == 4 {
          break;
        }
      }
    }

    /** Evict the page in the frame at the hand, where the hand of `s` led. */
    method EvictPageHere(ghost s: State, pid: Pid)
      requires Valid() && Now() == s.(roundrobin := roundrobin)
      requires PageVictim(fix, s, roundrobin) && Evict(fix, s, pid).Some?
      modifies Repr()
      ensures Valid() && Evict(fix, s, pid) == Some(Now())
      ensures OnlyFreed(s, Now(), old(roundrobin))
    {
      PageVictimEvicted(fix, s, pid, roundrobin);
      RemovePage(pages[roundrobin], roundrobin * 16);
      Robin();
    }

    /** Evict the table in the frame at the hand. */
    method EvictTableHere(ghost s: State, pid: Pid)
      requires Valid() && Now() == s.(roundrobin := roundrobin)
      requires TableVictim(fix, s, pid, roundrobin) && Evict(fix, s, pid).Some?
      modifies Repr()
      ensures Valid() && Evict(fix, s, pid) == Some(Now())
    {
      TableVictimEvicted(fix, s, pid, roundrobin);
      RemovePageTable(pages[roundrobin]);
      Robin();
    }

    /** The first loop of `FreeSpace`: with `f0` frames free, evict pages until `n` are,
        or until the hand has come round without meeting one. `removed` marks the
        frames it emptied; `s1` is where the first eviction leads. */
    method EvictPages(n: nat, pid: Pid, f0: nat, ghost s1: State) returns (f: nat, removed: seq<int>)
      requires Valid() && LoopReady(Now(), n, pid, f0)
      requires f0 < n ==> Evict(fix, Now(), pid) == Some(s1)
      requires f0 + 1 < n ==> Evict(fix, s1, pid).Some?
      modifies Repr()
      ensures Valid() && f0 <= f && (if f0 < n then f <= n else f == f0) && |removed| == 4
      ensures f == f0 ==> Now() == old(Now())
      ensures f == f0 + 1 ==> Now() == s1
      ensures f == f0 + 2 ==> Some(Now()) == Evict(fix, s1, pid)
      ensures f < n ==> f + 1 == n && LastResort(fix, Now(), pid, removed)
    {
      ghost var last: Pid := roundrobin;
      f := f0;
      removed := NOT_REMOVED;
      while f < n
        invariant Valid() && f0 <= f && (if f0 < n then f <= n else f == f0) && |removed| == 4
        invariant f == f0 ==> Now() == old(Now()) && removed == NOT_REMOVED
        invariant f == f0 + 1 ==> Now() == s1
        invariant f == f0 + 2 ==> Some(Now()) == Evict(fix, s1, pid)
        invariant f0 < f < n ==> f + 1 == n && HandAfter(Now(), pid, last) && removed == NOT_REMOVED[last := 1]
        decreases n - f
      {
        ghost var s := Now();
        var j := SkipTables(pid);
        var h := roundrobin;
        SkipStops(fix, s, j, h);
        if fix.tablesLast && ispagetable[h] == 1 {
          AllTablesLeft(fix, s, pid);
          assert AllTables(s) && f + 1 == n;
          break;
        }
        if removed[h] == 0 {
          EvictPageHere(s, pid);
          PageEvicted(fix, s, Now(), pid, h);
          removed := removed[h := 1];
          f := f + 1;
          j := j + 1;
          last := h;
        } else {
          OnlyMark(removed, last, h);
          RoundDone(fix, s, pid, last, j);
          Robin();
          j := j + 1;
        }
        if j == 4 {
          break;
        }
      }
    }

    /** The second loop of `FreeSpace`: one page table more goes to disk. */
    method EvictTables(n: nat, pid: Pid, f0: nat, removed: seq<int>)
      requires Valid() && |removed| == 4
      requires f0 < n ==> f0 + 1 == n && LastResort(fix, Now(), pid, removed) && Evict(fix, Now(), pid).Some?
      modifies Repr()
      ensures Valid()
      ensures Some(Now()) == if f0 < n then Evict(fix, old(Now()), pid) else Some(old(Now()))
    {
      ghost var s, h: Pid, d, k: nat := Now(), roundrobin, 0, 0;
      if f0 < n {
        k := LastResortVictim(fix, s, pid, removed);
      }
      TurnOn(h, 0);
      var f := f0;
      while f < n
        invariant Valid() && f0 <= f
        invariant f == f0 ==> d <= k && Now() == s.(roundrobin := Turn(h, d))
        invariant f > f0 ==> f == n && Evict(fix, s, pid) == Some(Now())
        decreases n - f, k - d
      {
        ghost var d0 := d;
        TurnOn(h, d);
        TurnOn(h, d + 1);
        if roundrobin * 16 == hardware[pid].address && hardware[pid].inmem == 1 {
          assert IsOwnTable(s, pid, Turn(h, d));
          Robin();
          d := d + 1;
        }
        VictimReached(s, pid, removed, k, d0, d);
        if removed[roundrobin] == 0 {
          if ispagetable[roundrobin] == 1 {
            EvictTableHere(s, pid);
            f := f + 1;
          } else {
            assert false;
          }
        } else {
          Robin();
          d := d + 1;
        }
      }
    }

    method FreeSpace(n: nat, pid: Pid)
      requires Valid() && PagerModel.FreeSpace(fix, Now(), n, pid).Some?
      requires LoopReady(PagerModel.Robin(Now()), n, pid, FreeCount(Now()))
      modifies Repr()
      ensures Valid() && Now() == PagerModel.FreeSpace(fix, old(Now()), n, pid).value
    {
      ghost var s1 := FewEvictions(fix, PagerModel.Robin(Now()), pid, Shortage(Now(), n));
      Robin();
      var f0 := CountFree();
      var f, removed := EvictPages(n, pid, f0, s1);
      EvictTables(n, pid, f, removed);
    }

    // ----- the commands

    /** Evict one frame for `pid` when `space` says that none is free. */
    method MakeRoom(pid: Pid, space: int)
      requires Valid() && PagerModel.MakeRoom(fix, Now(), pid, space).Some?
      requires OwnIsTable(Now(), pid) && (space < 1 ==> FreeCount(Now()) == 0)
      modifies Repr()
      ensures Valid() && PagerModel.MakeRoom(fix, old(Now()), pid, space) == Some(Now())
      ensures linecount <= old(linecount) + 1
    {
      if space < 1 {
        FreeSpaceLines(fix, Now(), 1, pid);
        RoomReady(Now(), pid);
        FreeSpace(1, pid);
      }
    }

    method SwapIn(pid: Pid, vaddr: Vaddr)
      requires Valid() && linecount < INT_MAX && OwnIsTable(Now(), pid)
      requires PagerModel.SwapIn(fix, Now(), pid, vaddr).Some?
      modifies Repr()
      ensures Valid() && PagerModel.SwapIn(fix, old(Now()), pid, vaddr) == Some(Now())
    {
      SwapInParts(fix, Now(), pid, vaddr);
      var f := CountFree();
      MakeRoom(pid, f);
      var free := LoadPage(pid, vaddr);
    }

    /** The first half of `Command`: bring the table of `pid` back, and its page. */
    method Revive(pid: Pid, vaddr: Vaddr)
      requires Valid() && linecount + 1 < INT_MAX && hardware[pid].inmem == 0
      requires PagerModel.Revive(fix, Now(), pid, vaddr).Some?
      modifies Repr()
      ensures Valid() && PagerModel.Revive(fix, old(Now()), pid, vaddr) == Some(Now())
    {
      ghost var s1, s2 := ReviveParts(fix, Now(), pid, vaddr);
      var space: int := CountFree();
      ReviveTable(pid, space, s1, s2);
      var pte := FindPte(pid, vaddr);
      if mem[pte + 3] == 1 {
        space := space - 1;
        RevivePage(pid, vaddr, space);
      }
    }

    /** Bring the table of `pid` back when `space` frames are free. */
    method ReviveTable(pid: Pid, space: int, ghost s1: State, ghost s2: State)
      requires Valid() && linecount < INT_MAX && hardware[pid].inmem == 0 && space == FreeCount(Now())
      requires PagerModel.MakeRoom(fix, Now(), pid, space) == Some(s1) && PagerModel.LoadPageTable(s1, pid) == Some(s2)
      modifies Repr()
      ensures Valid() && Now() == s2 && linecount <= old(linecount) + 1
    {
      MakeRoom(pid, space);
      var free := LoadPageTable(pid);
    }

    /** Bring the page at `vaddr` back, evicting first when `space` is below one. */
    method RevivePage(pid: Pid, vaddr: Vaddr, space: int)
      requires Valid() && linecount < INT_MAX && OwnIsTable(Now(), pid) && (space < 1 ==> FreeCount(Now()) == 0)
      requires var s3 := PagerModel.MakeRoom(fix, Now(), pid, space);
        s3.Some? && PagerModel.LoadPage(s3.value, pid, vaddr).Some?
      modifies Repr()
      ensures Valid()
      ensures PagerModel.LoadPage(PagerModel.MakeRoom(fix, old(Now()), pid, space).value, pid, vaddr) == Some(Now())
    {
      MakeRoom(pid, space);
      var free := LoadPage(pid, vaddr);
    }

    method StoreHere(pid: Pid, vaddr: Vaddr, val: Byte) returns (out: Output)
      requires Valid() && PagerModel.StoreHere(Now(), pid, vaddr, val).Some?
      modifies mem
      ensures Valid() && PagerModel.StoreHere(old(Now()), pid, vaddr, val) == Some((Now(), out))
    {
      var pte := FindPte(pid, vaddr);
      if mem[pte + 2] == 1 {
        var paddr := Convert(vaddr, pid);
        mem[paddr] := val;
        return Stored;
      }
      return Refused;
    }

    method LoadHere(pid: Pid, vaddr: Vaddr, least: int) returns (out: Output)
      requires Valid() && PagerModel.LoadHere(Now(), pid, vaddr, least).Some?
      requires hardware[pid].inmem == 1 ==> Resident(Now(), pid)
      ensures PagerModel.LoadHere(Now(), pid, vaddr, least) == Some((Now(), out))
    {
      var paddr := Convert(vaddr, pid);
      if paddr >= least {
        return Loaded(mem[paddr]);
      }
      return NoValue;
    }

    /** A store (`'s'`) or load of a process whose page table is on disk. */
    method Command(command: char, pid: Pid, vaddr: Vaddr, val: Byte) returns (out: Output)
      requires Valid() && linecount + 1 < INT_MAX && hardware[pid].inmem == 0
      requires command == 's' ==> StoreStep(fix, Now(), pid, vaddr, val).Some?
      requires command != 's' ==> LoadStep(fix, Now(), pid, vaddr).Some?
      modifies Repr()
      ensures Valid()
      ensures command == 's' ==> StoreStep(fix, old(Now()), pid, vaddr, val) == Some((Now(), out))
      ensures command != 's' ==> LoadStep(fix, old(Now()), pid, vaddr) == Some((Now(), out))
    {
      CommandParts(fix, Now(), pid, vaddr, val, command == 's');
      Revive(pid, vaddr);
      if command == 's' {
        out := StoreHere(pid, vaddr, val);
      } else {
        out := LoadHere(pid, vaddr, LeastAddress(fix));
      }
    }

    method Store(pid: Pid, vaddr: Vaddr, val: Byte) returns (out: Output)
      requires Valid() && linecount + 1 < INT_MAX && OwnIsTable(Now(), pid)
      requires StoreStep(fix, Now(), pid, vaddr, val).Some?
      modifies Repr()
      ensures Valid() && StoreStep(fix, old(Now()), pid, vaddr, val) == Some((Now(), out))
    {
      StoreParts(fix, Now(), pid, vaddr, val);
      var pte := FindPte(pid, vaddr);
      if pte >= 0 {
        if fix.storeSwapsIn && mem[pte + 2] == 1 && mem[pte + 3] == 1 {
          SwapInResident(fix, Now(), pid, vaddr);
          SwapIn(pid, vaddr);
        }
        var paddr := Convert(vaddr, pid);
        if paddr < 0 {
          return Refused;
        }
        out := StoreHere(pid, vaddr, val);
      } else if pte == -1 {
        out := Command('s', pid, vaddr, val);
      } else {
        return Refused;
      }
    }

    method Load(pid: Pid, vaddr: Vaddr) returns (out: Output)
      requires Valid() && linecount + 1 < INT_MAX && OwnIsTable(Now(), pid)
      requires LoadStep(fix, Now(), pid, vaddr).Some?
      modifies Repr()
      ensures Valid() && LoadStep(fix, old(Now()), pid, vaddr) == Some((Now(), out))
    {
      LoadParts(fix, Now(), pid, vaddr);
      var pte := FindPte(pid, vaddr);
      if pte >= 0 {
        if mem[pte + 3] == 1 {
          SwapInResident(fix, Now(), pid, vaddr);
          SwapIn(pid, vaddr);
          out := LoadHere(pid, vaddr, LeastAddress(fix));
        } else if mem[pte + 3] == 2 {
          out := LoadHere(pid, vaddr, 0);
        } else if fix.checkedLoad {
          return NoValue;
        } else {
          out := LoadHere(pid, vaddr, -1);
        }
      } else if pte == -1 {
        out := Command('l', pid, vaddr, 0);
      } else {
        return NoValue;
      }
    }

    /** Write the page numbers of a new table at `base`, its pages all unallocated. */
    method NumberEntries(base: nat)
      requires Formed() && base <= 48
      modifies mem
      ensures mem[..] == FreshTable(old(mem[..]), base)
    {
      var i := 0;
      while i < 4
        invariant 0 <= i <= 4
        invariant forall k :: 0 <= k < 64 ==> mem[k] == NumberedByte(old(mem[..]), base, i, k)
      {
        mem[base + 4 * i] := i;
        mem[base + 4 * i + 3] := 0;
        i := i + 1;
      }
    }

    /** A page table for `pid`, which has none, in the first free frame. */
    method CreateTable(pid: Pid)
      requires Valid() && PagerModel.FindFree(Now()).Some?
      modifies mem, freelist, pages, ispagetable, hardware
      ensures Valid() && Now() == NewTable(old(Now()), pid, PagerModel.FindFree(old(Now())).value)
    {
      var free := FindFree();
      hardware[pid] := hardware[pid].(address := free);
      hardware[pid] := hardware[pid].(inmem := 1);
      pages[free / 16] := pid;
      ispagetable[free / 16] := 1;
      NumberEntries(hardware[pid].address);
    }

    /** The first half of `Map`: the table of `pid` is brought back or created. */
    method TableForMap(pid: Pid)
      requires Valid() && linecount < INT_MAX && MapReady(Now(), pid)
      requires PagerModel.TableForMap(fix, Now(), pid).Some?
      requires hardware[pid].inmem == 1 ==> Resident(Now(), pid)
      modifies Repr()
      ensures Valid() && PagerModel.TableForMap(fix, old(Now()), pid) == Some(Now())
    {
      TableParts(fix, Now(), pid);
      var pte := FindPte(pid, 0);
      if pte == -2 {
        MapLoopReady(Now(), pid, 2);
        FreeSpace(2, pid);
        CreateTable(pid);
      } else if pte == -1 {
        FreeSpaceLines(fix, Now(), 1, pid);
        MapLoopReady(Now(), pid, 1);
        FreeSpace(1, pid);
        var pt := LoadPageTable(pid);
        ghost var s := Now();
        pages[pt / 16] := pid;
        ispagetable[pt / 16] := 1;
        assert pages[..] == s.pages && ispagetable[..] == s.ispagetable;
      }
    }

    /** Point the entry of the page at `vaddr` to the frame at `ppage`, which was the
        first free one of `s`. */
    method PlacePage(ghost s: State, pid: Pid, vaddr: Vaddr, val: Byte, ppage: nat)
      requires Valid() && PagerModel.PlacePage(s, pid, vaddr, val).Some?
      requires ppage == 16 * PagerModel.FindFree(s).value && Now() == s.(freelist := s.freelist[ppage / 16 := 0])
      modifies mem, pages
      ensures Valid() && PagerModel.PlacePage(s, pid, vaddr, val) == Some(Now())
    {
      PlaceParts(s, pid, vaddr, val);
      var pte := FindPte(pid, vaddr);
      pages[ppage / 16] := pid;
      mem[pte + 1] := ppage;
      mem[pte + 2] := val;
      mem[pte + 3] := 2;
      assert mem[..] == s.mem[pte + 1 := ppage][pte + 2 := val][pte + 3 := 2];
    }

    method AllocatePage(pid: Pid, vaddr: Vaddr, val: Byte)
      requires Valid() && OwnIsTable(Now(), pid)
      requires PagerModel.AllocatePage(fix, Now(), pid, vaddr, val).Some?
      modifies Repr()
      ensures Valid() && PagerModel.AllocatePage(fix, old(Now()), pid, vaddr, val) == Some(Now())
    {
      ghost var s := Now();
      AllocateParts(fix, s, pid, vaddr, val);
      var ppage := FindFree();
      if ppage < 0 {
        FreeSpaceLines(fix, s, 1, pid);
        RoomReady(s, pid);
        FreeSpace(1, pid);
        s := Now();
        ppage := FindFree();
      }
      PlacePage(s, pid, vaddr, val, ppage);
    }

    method ChangeProtection(pid: Pid, vaddr: Vaddr, val: Byte)
      requires Valid() && Resident(Now(), pid)
      modifies mem
      ensures Valid() && Now() == SetProtection(old(Now()), pid, vaddr, val)
    {
      var pte := FindPte(pid, vaddr);
      if mem[pte + 2] != val {
        mem[pte + 2] := val;
      }
      assert mem[..] == old(mem[..])[pte + 2 := val];
    }

    method Map(pid: Pid, vaddr: Vaddr, val: Byte) returns (out: Output)
      requires Valid() && linecount < INT_MAX && OwnIsTable(Now(), pid) && MapReady(Now(), pid)
      requires MapStep(fix, Now(), pid, vaddr, val).Some?
      modifies Repr()
      ensures Valid() && MapStep(fix, old(Now()), pid, vaddr, val) == Some((Now(), out))
    {
      ghost var s := Now();
      MapTable(fix, s, pid, vaddr, val);
      ghost var s1 := PagerModel.TableForMap(fix, s, pid).value;
      MapStepParts(fix, s, s1, pid, vaddr, val);
      TableOwned(fix, s, pid);
      TableForMap(pid);
      MapPage(pid, vaddr, val);
      return MapDone;
    }

    /** The second half of `Map`: a new protection, or a new page. */
    method MapPage(pid: Pid, vaddr: Vaddr, val: Byte)
      requires Valid() && OwnIsTable(Now(), pid) && Resident(Now(), pid)
      requires MapRest(fix, Now(), pid, vaddr, val).Some?
      modifies Repr()
      ensures Valid() && MapRest(fix, old(Now()), pid, vaddr, val) == Some(Now())
    {
      PteInMemory(Now(), pid, vaddr);
      var pte := FindPte(pid, vaddr);
      if mem[pte + 3] == 2 || (fix.mapKeepsPage && mem[pte + 3] == 1) {
        MapRestKeeps(fix, Now(), pid, vaddr, val);
        ChangeProtection(pid, vaddr, val);
        return;
      }
      MapRestPlaces(fix, Now(), pid, vaddr, val);
      AllocatePage(pid, vaddr, val);
    }
  }

  // ----- what the eviction loops rely on

  ghost predicate OwnIsTable(s: State, pid: Pid) {
    forall f: Pid | IsOwnTable(s, pid, f) :: IsTable(s, f)
  }

  const NOT_REMOVED: seq<int> := [0, 0, 0, 0]

  /** No frame that the first loop may stop at is free: there are none, or the page
      at the hand is the only one to be evicted. */
  ghost predicate LoopReady(s: State, n: nat, pid: Pid, f: nat) {
    && n <= 2 && OwnIsTable(s, pid)
    && (n == 2 ==> !AllTables(s))
    && (f < n ==> (f == 0 && forall g: Pid :: IsTable(s, g) || IsData(s, g)) || (f + 1 == n && IsData(s, s.roundrobin)))
  }

  /** The frame just behind the hand, which held a page, is the only free one. */
  ghost predicate HandAfter(s: State, pid: Pid, last: Pid) {
    && OwnIsTable(s, pid)
    && s.roundrobin == Next(last) && !IsTable(s, last) && !IsData(s, last)
    && forall g: Pid :: g == last || IsTable(s, g) || IsData(s, g)
  }

  /** Only page tables are left to evict, and the frames that hold none were emptied
      just now. */
  ghost predicate LastResort(fix: Repairs, s: State, pid: Pid, removed: seq<int>) {
    && OwnIsTable(s, pid) && |removed| == 4
    && !(AllTables(s) && !fix.tablesLast)
    && forall g: Pid :: !IsData(s, g) && (IsTable(s, g) <==> removed[g] == 0)
  }

  /** At most two evictions, one by one. */
  lemma FewEvictions(fix: Repairs, s: State, pid: Pid, k: nat) returns (s1: State)
    requires k <= 2 && EvictTimes(fix, s, pid, k).Some?
    ensures k == 0 ==> EvictTimes(fix, s, pid, k) == Some(s)
    ensures k > 0 ==> Evict(fix, s, pid) == Some(s1)
    ensures k == 1 ==> EvictTimes(fix, s, pid, k) == Some(s1)
    ensures k == 2 ==> EvictTimes(fix, s, pid, k) == Evict(fix, s1, pid)
  {
    s1 := s;
    if k == 2 {
      EvictTimesNone(fix, s, pid, k);
      OneEviction(fix, s, pid, k - 1);
      EvictTimesStep(fix, s, pid, k);
      s1 := EvictTimes(fix, s, pid, k - 1).value;
    } else if k == 1 {
      OneEviction(fix, s, pid, k);
      s1 := EvictTimes(fix, s, pid, k).value;
    }
  }

  lemma OneEviction(fix: Repairs, s: State, pid: Pid, k: nat)
    requires k == 1
    ensures EvictTimes(fix, s, pid, k) == Evict(fix, s, pid)
  {
  }

  lemma EvictTimesNone(fix: Repairs, s: State, pid: Pid, k: nat)
    requires k > 0 && EvictTimes(fix, s, pid, k).Some?
    ensures EvictTimes(fix, s, pid, k - 1).Some?
  {
  }

  lemma {:induction false} NextDataAt(s: State, h: Pid, j: nat, k: nat)
    requires j < k <= 4 && IsData(s, Turn(h, j)) && forall i: nat | i < j :: IsTable(s, Turn(h, i))
    ensures NextData(s, h, k) == Some(Turn(h, j))
    decreases k
  {
    if j > 0 {
      assert IsTable(s, Turn(h, 0));
      forall i: nat | i < j - 1 ensures IsTable(s, Turn(Next(h), i)) {
        assert Turn(Next(h), i) == Turn(h, i + 1);
      }
      assert Turn(Next(h), j - 1) == Turn(h, j);
      NextDataAt(s, Next(h), j - 1, k - 1);
    }
  }

  /** Where the hand is after passing `j` page tables. */
  lemma SkipStops(fix: Repairs, s: State, j: nat, f: Pid)
    requires j <= 4 && f == Turn(s.roundrobin, j) && (j == 4 || !IsTable(s, f))
    requires forall i: nat | i < j :: IsTable(s, Turn(s.roundrobin, i))
    ensures if j == 4 then AllTables(s) && f == s.roundrobin else !IsTable(s, f)
    ensures j == 3 ==> forall g: Pid :: g == f || IsTable(s, g)
    ensures IsData(s, s.roundrobin) ==> f == s.roundrobin
    ensures !IsTable(s, s.roundrobin) ==> j == 0
    ensures j < 4 && IsData(s, f) ==> PageVictim(fix, s, f)
    ensures j == 4 && !fix.tablesLast ==> PageVictim(fix, s, f)
  {
    forall g: Pid ensures j == 4 ==> IsTable(s, g) {
      var i := OnceAround(s.roundrobin, g);
    }
    forall g: Pid ensures j == 3 ==> g == f || IsTable(s, g) {
      var i := OnceAround(s.roundrobin, g);
    }
    if j < 4 && IsData(s, f) {
      NextDataAt(s, s.roundrobin, j, 4);
    }
    assert Turn(s.roundrobin, 0) == s.roundrobin;
  }

  lemma AllTablesLeft(fix: Repairs, s: State, pid: Pid)
    requires OwnIsTable(s, pid) && fix.tablesLast
    ensures AllTables(s) ==> LastResort(fix, s, pid, NOT_REMOVED)
  {
    if AllTables(s) {
      forall g: Pid ensures IsTable(s, g) && !IsData(s, g) && NOT_REMOVED[g] == 0 {
      }
    }
  }

  /** What evicting the page in frame `h` leaves. */
  lemma PageEvicted(fix: Repairs, s: State, s': State, pid: Pid, h: Pid)
    requires OwnIsTable(s, pid) && OnlyFreed(s, s', h)
    ensures !IsTable(s, h) && (forall g: Pid :: IsTable(s, g) || IsData(s, g)) ==> HandAfter(s', pid, h)
    ensures !IsTable(s, h) && (forall g: Pid :: g == h || IsTable(s, g)) ==> LastResort(fix, s', pid, NOT_REMOVED[h := 1])
  {
    forall g: Pid ensures IsTable(s', g) == IsTable(s, g) && (g != h ==> IsData(s', g) == IsData(s, g)) && !IsData(s', h) {
    }
    forall g: Pid | IsOwnTable(s', pid, g) ensures IsTable(s', g) {
      assert IsOwnTable(s, pid, g);
    }
  }

  /** Back at the frame emptied just now, the hand has passed three page tables. */
  lemma RoundDone(fix: Repairs, s: State, pid: Pid, last: Pid, j: nat)
    requires j <= 4 && (forall i: nat | i < j :: IsTable(s, Turn(s.roundrobin, i)))
    ensures HandAfter(s, pid, last) && Turn(s.roundrobin, j) == last ==>
      j == 3 && Next(last) == s.roundrobin && LastResort(fix, s, pid, NOT_REMOVED[last := 1])
  {
    if HandAfter(s, pid, last) && Turn(s.roundrobin, j) == last {
      TurnBack(last, s.roundrobin, j);
      TablesAround(s, last);
      LastOneEmptied(fix, s, pid, last);
    }
  }

  lemma OnlyMark(removed: seq<int>, last: Pid, h: Pid)
    requires removed == NOT_REMOVED || removed == NOT_REMOVED[last := 1]
    ensures |removed| == 4 && (removed[h] != 0 ==> removed != NOT_REMOVED && h == last)
  {
  }

  lemma TurnBack(last: Pid, h: Pid, j: nat)
    requires h == Next(last) && j <= 4 && Turn(h, j) == last
    ensures j == 3
  {
  }

  lemma ThreeOn(last: Pid, g: Pid) returns (i: nat)
    requires g != last
    ensures i < 3 && Turn(Next(last), i) == g
  {
    i := if g >= Next(last) then g - Next(last) else g - Next(last) + 4;
  }

  /** The three frames after `last` are all the others. */
  lemma TablesAround(s: State, last: Pid)
    requires forall i: nat | i < 3 :: IsTable(s, Turn(Next(last), i))
    ensures forall g: Pid :: g == last || IsTable(s, g)
  {
    forall g: Pid ensures g == last || IsTable(s, g) {
      if g != last {
        var i := ThreeOn(last, g);
      }
    }
  }

  lemma LastOneEmptied(fix: Repairs, s: State, pid: Pid, last: Pid)
    requires OwnIsTable(s, pid) && !IsTable(s, last) && !IsData(s, last)
    requires forall g: Pid :: g == last || IsTable(s, g)
    ensures LastResort(fix, s, pid, NOT_REMOVED[last := 1])
  {
    assert !AllTables(s);
    forall g: Pid ensures !IsData(s, g) && (IsTable(s, g) <==> NOT_REMOVED[last := 1][g] == 0) {
      assert g == last || IsTable(s, g);
    }
  }

  lemma TurnOn(h: Pid, d: nat)
    requires d <= 4
    ensures Turn(h, 0) == h && (d < 4 ==> Next(Turn(h, d)) == Turn(h, d + 1) != Turn(h, d))
  {
  }

  /** Once the hand has passed the table of `pid`, the next frame not emptied just now
      is the victim. */
  lemma VictimReached(s: State, pid: Pid, removed: seq<int>, k: nat, d0: nat, d: nat)
    requires |removed| == 4 && d0 <= k < 4
    requires removed[Turn(s.roundrobin, k)] == 0 && !IsOwnTable(s, pid, Turn(s.roundrobin, k))
    requires forall i: nat | i < k :: removed[Turn(s.roundrobin, i)] != 0 || IsOwnTable(s, pid, Turn(s.roundrobin, i))
    requires d == if IsOwnTable(s, pid, Turn(s.roundrobin, d0)) then d0 + 1 else d0
    ensures d <= k && (removed[Turn(s.roundrobin, d)] == 0 <==> d == k)
  {
    TurnOn(s.roundrobin, d0);
    assert IsOwnTable(s, pid, Turn(s.roundrobin, d0)) ==> !IsOwnTable(s, pid, Turn(s.roundrobin, d0 + 1));
  }

  /** Where in the round the next table to evict is. */
  lemma {:induction false} NextTablePlace(s: State, pid: Pid, h: Pid, n: nat) returns (k: nat)
    requires n <= 4 && NextTable(s, pid, h, n).Some?
    ensures k < n && NextTable(s, pid, h, n) == Some(Turn(h, k))
    ensures IsTable(s, Turn(h, k)) && !IsOwnTable(s, pid, Turn(h, k))
    ensures forall i: nat | i < k :: !IsTable(s, Turn(h, i)) || IsOwnTable(s, pid, Turn(h, i))
    decreases n
  {
    if IsTable(s, h) && !IsOwnTable(s, pid, h) {
      k := 0;
    } else {
      var j := NextTablePlace(s, pid, Next(h), n - 1);
      k := j + 1;
      assert Turn(h, k) == Turn(Next(h), j);
      forall i: nat | i < k ensures !IsTable(s, Turn(h, i)) || IsOwnTable(s, pid, Turn(h, i)) {
        if i > 0 {
          assert Turn(h, i) == Turn(Next(h), i - 1);
        }
      }
    }
  }

  /** Where in the round the victim of the second loop is: the frames before it are
      the table of `pid` and frames emptied just now. */
  lemma LastResortVictim(fix: Repairs, s: State, pid: Pid, removed: seq<int>) returns (k: nat)
    requires LastResort(fix, s, pid, removed) && Evict(fix, s, pid).Some?
    ensures k < 4 && TableVictim(fix, s, pid, Turn(s.roundrobin, k))
    ensures removed[Turn(s.roundrobin, k)] == 0 && !IsOwnTable(s, pid, Turn(s.roundrobin, k))
    ensures forall i: nat | i < k :: removed[Turn(s.roundrobin, i)] != 0 || IsOwnTable(s, pid, Turn(s.roundrobin, i))
    ensures forall g: Pid | removed[g] == 0 :: IsTable(s, g)
  {
    NextDataFinds(s, s.roundrobin, 4);
    assert NextData(s, s.roundrobin, 4).None?;
    k := NextTablePlace(s, pid, s.roundrobin, 4);
  }

  lemma RoomReady(s: State, pid: Pid)
    requires FreeCount(s) == 0 && OwnIsTable(s, pid)
    ensures LoopReady(PagerModel.Robin(s), 1, pid, 0)
  {
    forall f: Pid ensures IsTable(PagerModel.Robin(s), f) == IsTable(s, f) && (IsTable(s, f) || IsData(s, f)) {
    }
    forall f: Pid | IsOwnTable(PagerModel.Robin(s), pid, f) ensures IsTable(s, f) {
      assert IsOwnTable(s, pid, f);
    }
  }

  /** One frame and one swap line more. */
  ghost predicate OneOut(s: State, s': State) {
    |s'.swap| == |s.swap| + 1 && (FreeCount(s) == 0 ==> FreeCount(s') == 1)
  }

  lemma RemovePageOut(fix: Repairs, s: State, pid: int, f: Pid, h: Pid)
    requires PagerModel.RemovePage(fix, s, pid, f).Some?
    ensures OneOut(s, PagerModel.RemovePage(fix, s, pid, f).value.(roundrobin := h))
  {
  }

  lemma RemovePageTableOut(s: State, pid: int, h: Pid)
    requires PagerModel.RemovePageTable(s, pid).Some?
    ensures OneOut(s, PagerModel.RemovePageTable(s, pid).value.(roundrobin := h))
  {
  }

  lemma EvictLines(fix: Repairs, s: State, pid: Pid)
    requires Evict(fix, s, pid).Some?
    ensures OneOut(s, Evict(fix, s, pid).value)
  {
    if AllTables(s) && !fix.tablesLast {
      RemovePageOut(fix, s, s.pages[s.roundrobin], s.roundrobin, Next(s.roundrobin));
    } else {
      match NextData(s, s.roundrobin, 4)
      case Some(f) =>
        RemovePageOut(fix, s, s.pages[f], f, Next(f));
      case None =>
        var f := NextTable(s, pid, s.roundrobin, 4).value;
        RemovePageTableOut(s, s.pages[f], Next(f));
    }
  }

  lemma FreeSpaceLines(fix: Repairs, s: State, n: nat, pid: Pid)
    requires n <= 2 && PagerModel.FreeSpace(fix, s, n, pid).Some?
    ensures |PagerModel.FreeSpace(fix, s, n, pid).value.swap| <= |s.swap| + n
    ensures FreeCount(s) == 0 && n == 1 ==> FreeCount(PagerModel.FreeSpace(fix, s, n, pid).value) == 1
  {
    var base := PagerModel.Robin(s);
    var s1 := FewEvictions(fix, base, pid, Shortage(s, n));
    if Shortage(s, n) > 0 {
      EvictLines(fix, base, pid);
    }
    if Shortage(s, n) == 2 {
      EvictLines(fix, s1, pid);
    }
  }

  lemma SwapInParts(fix: Repairs, s: State, pid: Pid, vaddr: Vaddr)
    requires PagerModel.SwapIn(fix, s, pid, vaddr).Some?
    ensures var s1 := PagerModel.MakeRoom(fix, s, pid, FreeCount(s));
      s1.Some? && PagerModel.LoadPage(s1.value, pid, vaddr) == PagerModel.SwapIn(fix, s, pid, vaddr)
  {
  }

  lemma ReviveParts(fix: Repairs, s: State, pid: Pid, vaddr: Vaddr) returns (s1: State, s2: State)
    requires PagerModel.Revive(fix, s, pid, vaddr).Some?
    ensures PagerModel.MakeRoom(fix, s, pid, FreeCount(s)) == Some(s1) && PagerModel.LoadPageTable(s1, pid) == Some(s2)
    ensures Resident(s2, pid) && 0 <= PagerModel.FindPte(s2, pid, vaddr) < 61
    ensures OwnIsTable(s2, pid) && (FreeCount(s) <= 1 ==> FreeCount(s2) == 0)
    ensures if s2.mem[PagerModel.FindPte(s2, pid, vaddr) + 3] != 1 then PagerModel.Revive(fix, s, pid, vaddr) == Some(s2)
      else
        var s3 := PagerModel.MakeRoom(fix, s2, pid, FreeCount(s) - 1);
        s3.Some? && PagerModel.LoadPage(s3.value, pid, vaddr) == PagerModel.Revive(fix, s, pid, vaddr)
  {
    s1, s2 := ReviveSteps(fix, s, pid, vaddr);
    TableBackCounts(fix, s, pid, s1, s2);
    PteInMemory(s2, pid, vaddr);
  }

  /** The table, then its page. */
  lemma ReviveSteps(fix: Repairs, s: State, pid: Pid, vaddr: Vaddr) returns (s1: State, s2: State)
    requires PagerModel.Revive(fix, s, pid, vaddr).Some?
    ensures PagerModel.MakeRoom(fix, s, pid, FreeCount(s)) == Some(s1) && PagerModel.LoadPageTable(s1, pid) == Some(s2)
    ensures Resident(s2, pid)
    ensures if s2.mem[PagerModel.FindPte(s2, pid, vaddr) + 3] != 1 then PagerModel.Revive(fix, s, pid, vaddr) == Some(s2)
      else
        var s3 := PagerModel.MakeRoom(fix, s2, pid, FreeCount(s) - 1);
        s3.Some? && PagerModel.LoadPage(s3.value, pid, vaddr) == PagerModel.Revive(fix, s, pid, vaddr)
  {
    s1 := PagerModel.MakeRoom(fix, s, pid, FreeCount(s)).value;
    s2 := PagerModel.LoadPageTable(s1, pid).value;
  }

  lemma TableBackCounts(fix: Repairs, s: State, pid: Pid, s1: State, s2: State)
    requires PagerModel.MakeRoom(fix, s, pid, FreeCount(s)) == Some(s1) && PagerModel.LoadPageTable(s1, pid) == Some(s2)
    ensures OwnIsTable(s2, pid) && (FreeCount(s) <= 1 ==> FreeCount(s2) == 0)
  {
    if FreeCount(s) < 1 {
      FreeSpaceLines(fix, s, 1, pid);
    }
    LoadTableParts(s1, pid);
    TableTaken(s1, s2, pid, PagerModel.FindFree(s1).value);
  }

  lemma TableTaken(s1: State, s2: State, pid: Pid, f: Pid)
    requires s1.freelist[f] == 1 && s2.freelist == s1.freelist[f := 0]
    requires s2.hardware == s1.hardware[pid := Hp(16 * f, 1)] && s2.ispagetable == s1.ispagetable[f := 1]
    ensures OwnIsTable(s2, pid) && FreeCount(s2) == FreeCount(s1) - 1
  {
  }

  lemma CommandParts(fix: Repairs, s: State, pid: Pid, vaddr: Vaddr, val: Byte, store: bool)
    requires s.hardware[pid].inmem == 0
    requires if store then StoreStep(fix, s, pid, vaddr, val).Some? else LoadStep(fix, s, pid, vaddr).Some?
    ensures var s1 := PagerModel.Revive(fix, s, pid, vaddr);
      && s1.Some?
      && (if store then StoreStep(fix, s, pid, vaddr, val) == PagerModel.StoreHere(s1.value, pid, vaddr, val)
          else LoadStep(fix, s, pid, vaddr) == PagerModel.LoadHere(s1.value, pid, vaddr, LeastAddress(fix)))
      && (s1.value.hardware[pid].inmem == 1 ==> Resident(s1.value, pid))
  {
  }

  lemma LoadTableParts(s: State, pid: Pid)
    requires PagerModel.LoadPageTable(s, pid).Some?
    ensures PagerModel.FindFree(s).Some? && 0 <= s.hardware[pid].address < |s.swap|
    ensures var f := PagerModel.FindFree(s).value;
      (16 * f) / 16 == f
      && PagerModel.LoadPageTable(s, pid).value ==
           s.(freelist := s.freelist[f := 0], mem := PutFrame(s.mem, f, s.swap[s.hardware[pid].address]),
              pages := s.pages[f := pid], hardware := s.hardware[pid := Hp(16 * f, 1)],
              ispagetable := s.ispagetable[f := 1])
  {
  }

  lemma PteInMemory(s: State, pid: Pid, vaddr: Vaddr)
    requires Resident(s, pid)
    ensures PagerModel.FindPte(s, pid, vaddr) == s.hardware[pid].address + 4 * (vaddr / 16)
    ensures 0 <= PagerModel.FindPte(s, pid, vaddr) < 61
  {
  }

  lemma LoadPageSteps(s: State, pid: Pid, vaddr: Vaddr)
    requires PagerModel.LoadPage(s, pid, vaddr).Some?
    ensures Resident(s, pid) && PagerModel.FindFree(s).Some?
    ensures var pte := PagerModel.FindPte(s, pid, vaddr);
      0 <= pte < 61 && s.mem[pte + 1] < |s.swap|
      && var f := PagerModel.FindFree(s).value;
         (16 * f) / 16 == f
         && PagerModel.LoadPage(s, pid, vaddr).value ==
              s.(freelist := s.freelist[f := 0], mem := SwappedIn(s.mem, pte, f, s.swap[s.mem[pte + 1]]),
                 pages := s.pages[f := pid])
  {
    PteInMemory(s, pid, vaddr);
  }

  lemma LoadPageResident(s: State, pid: Pid, vaddr: Vaddr)
    requires PagerModel.LoadPage(s, pid, vaddr).Some?
    ensures Resident(PagerModel.LoadPage(s, pid, vaddr).value, pid)
  {
  }

  lemma SwapInResident(fix: Repairs, s: State, pid: Pid, vaddr: Vaddr)
    requires PagerModel.SwapIn(fix, s, pid, vaddr).Some?
    ensures Resident(PagerModel.SwapIn(fix, s, pid, vaddr).value, pid)
  {
    SwapInParts(fix, s, pid, vaddr);
    LoadPageResident(PagerModel.MakeRoom(fix, s, pid, FreeCount(s)).value, pid, vaddr);
  }

  lemma StoreResidentParts(fix: Repairs, s: State, pid: Pid, vaddr: Vaddr, val: Byte)
    requires StoreStep(fix, s, pid, vaddr, val).Some? && s.hardware[pid].inmem == 1
    ensures Resident(s, pid)
    ensures var pte := PagerModel.FindPte(s, pid, vaddr);
      && 0 <= pte < 61
      && var s1 := if fix.storeSwapsIn && s.mem[pte + 2] == 1 && s.mem[pte + 3] == 1
                   then PagerModel.SwapIn(fix, s, pid, vaddr) else Some(s);
         && s1.Some?
         && StoreStep(fix, s, pid, vaddr, val) ==
              if PagerModel.Convert(s1.value, vaddr, pid) < 0 then Some((s1.value, Refused))
              else PagerModel.StoreHere(s1.value, pid, vaddr, val)
  {
    assert Resident(s, pid);
    PteInMemory(s, pid, vaddr);
  }

  lemma StoreParts(fix: Repairs, s: State, pid: Pid, vaddr: Vaddr, val: Byte)
    requires StoreStep(fix, s, pid, vaddr, val).Some?
    ensures var pte := PagerModel.FindPte(s, pid, vaddr);
      && (pte >= 0 <==> s.hardware[pid].inmem == 1)
      && (pte == -1 <==> s.hardware[pid].inmem == 0)
      && (pte >= 0 ==>
           && Resident(s, pid) && pte < 61
           && var s1 := if fix.storeSwapsIn && s.mem[pte + 2] == 1 && s.mem[pte + 3] == 1
                        then PagerModel.SwapIn(fix, s, pid, vaddr) else Some(s);
              && s1.Some?
              && StoreStep(fix, s, pid, vaddr, val) ==
                 if PagerModel.Convert(s1.value, vaddr, pid) < 0 then Some((s1.value, Refused))
                 else PagerModel.StoreHere(s1.value, pid, vaddr, val))
  {
    if s.hardware[pid].inmem == 1 {
      StoreResidentParts(fix, s, pid, vaddr, val);
    }
  }

  lemma LoadPlace(s: State, pid: Pid, vaddr: Vaddr)
    ensures var pte := PagerModel.FindPte(s, pid, vaddr);
      && (s.hardware[pid].inmem == 0 ==> pte == -1)
      && (s.hardware[pid].inmem != 0 && s.hardware[pid].inmem != 1 ==> pte == -2)
      && (Resident(s, pid) ==> 0 <= pte < 61)
  {
  }

  lemma LoadResidentParts(fix: Repairs, s: State, pid: Pid, vaddr: Vaddr)
    requires Resident(s, pid)
    ensures var pte := PagerModel.FindPte(s, pid, vaddr);
      LoadStep(fix, s, pid, vaddr) ==
        if s.mem[pte + 3] == 2 then PagerModel.LoadHere(s, pid, vaddr, 0)
        else if s.mem[pte + 3] != 1 then
          if fix.checkedLoad then Some((s, NoValue)) else PagerModel.LoadHere(s, pid, vaddr, -1)
        else
          var s1 := PagerModel.SwapIn(fix, s, pid, vaddr);
          if s1.None? then None else PagerModel.LoadHere(s1.value, pid, vaddr, LeastAddress(fix))
  {
  }

  lemma LoadParts(fix: Repairs, s: State, pid: Pid, vaddr: Vaddr)
    requires LoadStep(fix, s, pid, vaddr).Some?
    ensures var pte := PagerModel.FindPte(s, pid, vaddr);
      && (pte >= 0 <==> s.hardware[pid].inmem == 1)
      && (pte == -1 <==> s.hardware[pid].inmem == 0)
      && (pte >= 0 ==>
           && Resident(s, pid) && pte < 61
           && LoadStep(fix, s, pid, vaddr) ==
              if s.mem[pte + 3] == 2 then PagerModel.LoadHere(s, pid, vaddr, 0)
              else if s.mem[pte + 3] != 1 then
                if fix.checkedLoad then Some((s, NoValue)) else PagerModel.LoadHere(s, pid, vaddr, -1)
              else
                var s1 := PagerModel.SwapIn(fix, s, pid, vaddr);
                if s1.None? then None else PagerModel.LoadHere(s1.value, pid, vaddr, LeastAddress(fix)))
  {
    LoadPlace(s, pid, vaddr);
    if s.hardware[pid].inmem == 1 {
      LoadResidentParts(fix, s, pid, vaddr);
    }
  }

  /** A process that gets its first table finds no free frame before the first page
      to evict, or enough of them. */
  ghost predicate MapReady(s: State, pid: Pid) {
    !(0 <= s.hardware[pid].inmem <= 1) ==>
      && !AllTables(s)
      && (FreeCount(s) == 1 ==> IsData(s, Next(s.roundrobin)))
  }

  lemma HandOnly(s: State, pid: Pid)
    ensures OwnIsTable(PagerModel.Robin(s), pid) <==> OwnIsTable(s, pid)
    ensures AllTables(PagerModel.Robin(s)) <==> AllTables(s)
    ensures FreeCount(s) == 0 ==> forall f: Pid :: IsTable(PagerModel.Robin(s), f) || IsData(PagerModel.Robin(s), f)
  {
    forall f: Pid
      ensures IsOwnTable(PagerModel.Robin(s), pid, f) == IsOwnTable(s, pid, f) && IsTable(PagerModel.Robin(s), f) == IsTable(s, f)
    {
    }
  }

  lemma MapLoopReady(s: State, pid: Pid, n: nat)
    requires MapReady(s, pid) && s.hardware[pid].inmem != 1
    requires n == if s.hardware[pid].inmem == 0 then 1 else 2
    ensures LoopReady(PagerModel.Robin(s), n, pid, FreeCount(s))
  {
    HandOnly(s, pid);
    assert OwnIsTable(s, pid);
  }

  lemma TableParts(fix: Repairs, s: State, pid: Pid)
    requires PagerModel.TableForMap(fix, s, pid).Some?
    ensures s.hardware[pid].inmem == 0 ==>
      var s1 := PagerModel.FreeSpace(fix, s, 1, pid);
      s1.Some? && PagerModel.LoadPageTable(s1.value, pid) == PagerModel.TableForMap(fix, s, pid)
    ensures !(0 <= s.hardware[pid].inmem <= 1) ==>
      var s1 := PagerModel.FreeSpace(fix, s, 2, pid);
      && s1.Some? && PagerModel.FindFree(s1.value).Some?
      && PagerModel.TableForMap(fix, s, pid) == Some(NewTable(s1.value, pid, PagerModel.FindFree(s1.value).value))
  {
  }

  lemma TableOwned(fix: Repairs, s: State, pid: Pid)
    requires PagerModel.TableForMap(fix, s, pid).Some? && OwnIsTable(s, pid)
    ensures OwnIsTable(PagerModel.TableForMap(fix, s, pid).value, pid)
  {
    TableParts(fix, s, pid);
    if s.hardware[pid].inmem == 0 {
      LoadedTableOwned(PagerModel.FreeSpace(fix, s, 1, pid).value, pid);
    } else if s.hardware[pid].inmem != 1 {
      var s1 := PagerModel.FreeSpace(fix, s, 2, pid).value;
      NewTableOwned(s1, pid, PagerModel.FindFree(s1).value);
    }
  }

  lemma LoadedTableOwned(s: State, pid: Pid)
    requires PagerModel.LoadPageTable(s, pid).Some?
    ensures OwnIsTable(PagerModel.LoadPageTable(s, pid).value, pid)
  {
  }

  lemma NewTableOwned(s: State, pid: Pid, f: Pid)
    ensures OwnIsTable(NewTable(s, pid, f), pid)
  {
  }

  lemma PlaceParts(s: State, pid: Pid, vaddr: Vaddr, val: Byte)
    requires PagerModel.PlacePage(s, pid, vaddr, val).Some?
    ensures Resident(s, pid) && PagerModel.FindFree(s).Some?
    ensures var f := PagerModel.FindFree(s).value;
      var pte := PagerModel.FindPte(s, pid, vaddr);
      PagerModel.PlacePage(s, pid, vaddr, val).value ==
        s.(freelist := s.freelist[f := 0], pages := s.pages[f := pid],
           mem := s.mem[pte + 1 := 16 * f][pte + 2 := val][pte + 3 := 2])
  {
  }

  lemma AllocateParts(fix: Repairs, s: State, pid: Pid, vaddr: Vaddr, val: Byte)
    requires PagerModel.AllocatePage(fix, s, pid, vaddr, val).Some?
    ensures PagerModel.FindFree(s).Some? <==> FreeCount(s) > 0
    ensures FreeCount(s) > 0 ==> PagerModel.AllocatePage(fix, s, pid, vaddr, val) == PagerModel.PlacePage(s, pid, vaddr, val)
    ensures FreeCount(s) == 0 ==>
      var s1 := PagerModel.FreeSpace(fix, s, 1, pid);
      s1.Some? && PagerModel.AllocatePage(fix, s, pid, vaddr, val) == PagerModel.PlacePage(s1.value, pid, vaddr, val)
  {
  }

  lemma MapTable(fix: Repairs, s: State, pid: Pid, vaddr: Vaddr, val: Byte)
    requires MapStep(fix, s, pid, vaddr, val).Some?
    ensures var s1 := PagerModel.TableForMap(fix, s, pid);
      s1.Some? && Resident(s1.value, pid) && 0 <= PagerModel.FindPte(s1.value, pid, vaddr) < 61
  {
  }

  lemma MapRestKeeps(fix: Repairs, s1: State, pid: Pid, vaddr: Vaddr, val: Byte)
    requires Resident(s1, pid) && 0 <= PagerModel.FindPte(s1, pid, vaddr) < 61
    requires var valpres := s1.mem[PagerModel.FindPte(s1, pid, vaddr) + 3]; valpres == 2 || (fix.mapKeepsPage && valpres == 1)
    ensures MapRest(fix, s1, pid, vaddr, val) == Some(SetProtection(s1, pid, vaddr, val))
  {
    ReadValpres(s1, pid, vaddr);
  }

  lemma MapRestPlaces(fix: Repairs, s1: State, pid: Pid, vaddr: Vaddr, val: Byte)
    requires Resident(s1, pid) && 0 <= PagerModel.FindPte(s1, pid, vaddr) < 61
    requires var valpres := s1.mem[PagerModel.FindPte(s1, pid, vaddr) + 3]; valpres != 2 && !(fix.mapKeepsPage && valpres == 1)
    ensures MapRest(fix, s1, pid, vaddr, val) == PagerModel.AllocatePage(fix, s1, pid, vaddr, val)
  {
    ReadValpres(s1, pid, vaddr);
  }

  /** Byte `k` once the first `i` entries of the table at `base` are numbered. */
  function NumberedByte(mem: seq<Byte>, base: nat, i: nat, k: nat): Byte
    requires |mem| == 64 && k < 64 && i <= 4
  {
    if base <= k < base + 4 * i && (k - base) % 4 == 0 then (k - base) / 4
    else if base <= k < base + 4 * i && (k - base) % 4 == 3 then 0
    else mem[k]
  }

  predicate PageVictim(fix: Repairs, s: State, f: Pid) {
    if AllTables(s) && !fix.tablesLast then f == s.roundrobin else NextData(s, s.roundrobin, 4) == Some(f)
  }

  predicate TableVictim(fix: Repairs, s: State, pid: Pid, f: Pid) {
    && !(AllTables(s) && !fix.tablesLast)
    && NextData(s, s.roundrobin, 4).None? && NextTable(s, pid, s.roundrobin, 4) == Some(f)
  }

  ghost predicate OnlyFreed(s: State, s': State, f: Pid) {
    && s'.ispagetable == s.ispagetable && s'.hardware == s.hardware
    && s'.freelist == s.freelist[f := 1] && s'.roundrobin == Next(f)
  }

  lemma PageVictimEvicted(fix: Repairs, s: State, pid: Pid, f: Pid)
    requires PageVictim(fix, s, f) && Evict(fix, s, pid).Some?
    ensures var r := RemovePage(fix, s.(roundrobin := f), s.pages[f], f);
      r.Some? && Evict(fix, s, pid) == Some(r.value.(roundrobin := Next(f)))
      && OnlyFreed(s, r.value.(roundrobin := Next(f)), f)
  {
    assert RemovePage(fix, s, s.pages[f], f).Some?;
  }

  lemma TableVictimEvicted(fix: Repairs, s: State, pid: Pid, f: Pid)
    requires TableVictim(fix, s, pid, f) && Evict(fix, s, pid).Some?
    ensures var r := RemovePageTable(s.(roundrobin := f), s.pages[f]);
      r.Some? && Evict(fix, s, pid) == Some(r.value.(roundrobin := Next(f)))
  {
    assert RemovePageTable(s, s.pages[f]).Some?;
  }

  lemma {:induction false} LookupDefined(exact: bool, mem: seq<Byte>, pte: int, paddr: int, i: nat, n: nat)
    requires |mem| == 64 && 0 <= pte <= 48 && i <= n <= 16 && LookupVpn(exact, mem, pte, paddr, n).Some?
    ensures LookupVpn(exact, mem, pte, paddr, i).Some?
    decreases n
  {
    if i < n {
      LookupDefined(exact, mem, pte, paddr, i, n - 1);
    }
  }

  lemma RemovePageParts(fix: Repairs, s: State, pid: Pid, f: Pid, vp: int)
    requires PagerModel.RemovePage(fix, s, pid, f).Some?
    requires LookupVpn(fix.exactLookup, s.mem, s.hardware[pid].address, 16 * f, 16) == Some(vp)
    ensures var at := s.hardware[pid].address + 4 * vp;
      && 0 <= at < 61
      && PagerModel.RemovePage(fix, s, pid, f).value ==
           s.(swap := s.swap + [Frame(s, f)], mem := SwappedOut(s.mem, at, f, |s.swap| % 256),
              freelist := s.freelist[f := 1], pages := s.pages[f := -1])
  {
  }

  lemma FileTextAppend(pages: seq<Page>, page: Page)
    ensures FileText(pages + [page]) == FileText(pages) + LineText(|pages|, page)
  {
    assert (pages + [page])[..|pages|] == pages;
  }

  lemma ByteAppended(text: string, page: Page, i: nat)
    requires i < 16
    ensures text + BytesText(page[..i]) + Decimal(page[i]) + " " == text + BytesText(page[..i + 1])
  {
    assert page[..i + 1][..i] == page[..i];
  }

  lemma LineAppended(before: string, line: nat, page: Page)
    ensures before + Decimal(line) + " " + BytesText(page[..16]) + "\n" + " " == before + LineText(line, page)
  {
    assert page[..16] == page;
  }

  lemma ValuesLength(words: seq<string>)
    ensures |Values(words)| == |words|
  {
  }
}
