/** Byte by byte, what each move between memory and the swap file does, in any state and
    under any repairs, and which table entry an evicted page's line is recorded in. */
module PagerMoves {
  import opened Options
  import opened PagerModel
  import opened PagerTables
  import opened PagerBytes
  import opened PagerBooks

  predicate InFrame(f: Pid, k: int) {
    16 * f <= k < 16 * f + 16
  }

  // ----- which entry

  /** Byte `i` of the table at `pte` is taken for `paddr`: any byte as written, and a PFN
      byte of an entry in memory when repaired. */
  predicate Matches(exact: bool, mem: seq<Byte>, pte: int, paddr: int, i: int)
    requires |mem| == 64 && 0 <= pte <= 48 && 0 <= i < 16
  {
    mem[pte + i] == paddr && (exact ==> (i == 1 || i == 5 || i == 9 || i == 13) && mem[pte + i + 2] == 2)
  }

  /** The number found is the byte before the last match, or 0 when nothing matches. There
      is none when the first byte of memory matches, which has no byte before it. */
  lemma {:induction false} ScanIs(exact: bool, mem: seq<Byte>, pte: int, paddr: int, n: nat)
    requires |mem| == 64 && 0 <= pte <= 48 && n <= 16
    ensures match LookupVpn(exact, mem, pte, paddr, n)
      case Some(vp) =>
        || (vp == 0 && forall i | 0 <= i < n :: !Matches(exact, mem, pte, paddr, i))
        || (exists i | 0 <= i < n :: Matches(exact, mem, pte, paddr, i) && 0 < pte + i && vp == mem[pte + i - 1]
                                     && forall j | i < j < n :: !Matches(exact, mem, pte, paddr, j))
      case None => pte == 0 && n > 0 && Matches(exact, mem, pte, paddr, 0)
    decreases n
  {
    if n > 0 {
      ScanIs(exact, mem, pte, paddr, n - 1);
      assert (n - 1) % 4 == 1 <==> n - 1 == 1 || n - 1 == 5 || n - 1 == 9 || n - 1 == 13;
      var here := Matches(exact, mem, pte, paddr, n - 1);
      assert here <==> mem[pte + n - 1] == paddr && (exact ==> (n - 1) % 4 == 1 && mem[pte + n - 1 + 2] == 2);
    }
  }

  // ----- to disk

  /** A page goes: its 16 bytes to the end of the swap file, the number of that line into
      the entry settled on, and zeros into its frame. */
  lemma RemovePageMoves(fix: Repairs, s: State, q: int, f: Pid, k: int)
    requires RemovePage(fix, s, q, f).Some? && 0 <= k < 64
    ensures Resident(s, q) && LookupVpn(fix.exactLookup, s.mem, s.hardware[q].address, 16 * f, 16).Some?
    ensures var s' := RemovePage(fix, s, q, f).value;
      var at := s.hardware[q].address + 4 * LookupVpn(fix.exactLookup, s.mem, s.hardware[q].address, 16 * f, 16).value;
      && s'.swap == s.swap + [s.mem[16 * f..16 * f + 16]]
      && s'.mem[k] == (if InFrame(f, k) then 0
                       else if k == at + 1 then |s.swap| % 256
                       else if k == at + 3 then 1
                       else s.mem[k])
  {
  }

  lemma RemoveTableMoves(s: State, q: int, k: int)
    requires RemovePageTable(s, q).Some? && 0 <= k < 64
    ensures Resident(s, q) && s.hardware[q].address % 16 == 0
    ensures var s', f := RemovePageTable(s, q).value, s.hardware[q].address / 16;
      && s'.swap == s.swap + [s.mem[16 * f..16 * f + 16]]
      && s'.mem[k] == if InFrame(f, k) then 0 else s.mem[k]
  {
  }

  // ----- and back

  /** A table comes back: the 16 bytes of its line into the lowest free frame. */
  lemma LoadTableMoves(s: State, q: Pid, k: int)
    requires LoadPageTable(s, q).Some? && 0 <= k < 64
    ensures 0 <= s.hardware[q].address < |s.swap|
    ensures var s', f := LoadPageTable(s, q).value, Lowest(BooksOf(s));
      && s.freelist[f] == 1 && s'.swap == s.swap
      && s'.mem[k] == if InFrame(f, k) then s.swap[s.hardware[q].address][k - 16 * f] else s.mem[k]
  {
    LowestIs(s);
  }

  /** A page comes back: the 16 bytes of its line into the lowest free frame, and the
      address of that frame into its entry. */
  lemma LoadPageMoves(s: State, q: Pid, vaddr: Vaddr, k: int)
    requires LoadPage(s, q, vaddr).Some? && 0 <= k < 64
    ensures Resident(s, q) && EntryAt(s, q, vaddr / 16).pfn < |s.swap|
    ensures var s', f, at := LoadPage(s, q, vaddr).value, Lowest(BooksOf(s)), s.hardware[q].address + 4 * (vaddr / 16);
      && s.freelist[f] == 1 && s'.swap == s.swap
      && s'.mem[k] == (if k == at + 3 then 2
                       else if k == at + 1 then 16 * f
                       else if InFrame(f, k) then s.swap[EntryAt(s, q, vaddr / 16).pfn][k - 16 * f]
                       else s.mem[k])
  {
    LowestIs(s);
    ResidentEntry(s, q, vaddr / 16);
  }

  // ----- new tables and pages

  /** A new table: the numbers and the zeros of its four entries, and nothing else. */
  lemma NewTableMoves(s: State, q: Pid, f: Pid, k: int)
    requires 0 <= k < 64
    ensures NewTable(s, q, f).swap == s.swap
    ensures NewTable(s, q, f).mem[k] ==
      if InFrame(f, k) && k % 4 == 0 then (k - 16 * f) / 4
      else if InFrame(f, k) && k % 4 == 3 then 0
      else s.mem[k]
  {
    var at := 16 * f;
    FreshBytes(s.mem, at, 0);
    FreshBytes(s.mem, at, 1);
    FreshBytes(s.mem, at, 2);
    FreshBytes(s.mem, at, 3);
  }

  /** A new page: the lowest free frame as it is, and three bytes of its entry. */
  lemma PlaceMoves(s: State, q: Pid, vaddr: Vaddr, val: Byte, k: int)
    requires PlacePage(s, q, vaddr, val).Some? && 0 <= k < 64
    ensures Resident(s, q)
    ensures var s', f, at := PlacePage(s, q, vaddr, val).value, Lowest(BooksOf(s)), s.hardware[q].address + 4 * (vaddr / 16);
      && s.freelist[f] == 1 && s'.swap == s.swap
      && s'.mem[k] == (if k == at + 1 then 16 * f else if k == at + 2 then val else if k == at + 3 then 2 else s.mem[k])
  {
    LowestIs(s);
  }
}
