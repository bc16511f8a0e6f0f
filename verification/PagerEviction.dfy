/** Making room: evicting a page or a table, and bringing one back, changes nothing
    that any process can see. */
module PagerEviction {
  import opened Options
  import opened PagerModel
  import opened PagerTables
  import opened PagerBytes

  /** `s'` is reached from `s` by moving pages and tables to disk only: every
      process sees what it saw, the pointer of `pid` is where it was, and entries
      that were not in memory are as they were. */
  ghost predicate Hidden(s: State, s': State, pid: Pid) {
    && Valid(s')
    && SamePages(ViewOf(s), ViewOf(s'))
    && s.swap <= s'.swap
    && s'.hardware[pid] == s.hardware[pid]
    && (forall p: Pid, v: Pid | EntryAt(s, p, v).valpres != 2 :: EntryAt(s', p, v) == EntryAt(s, p, v))
  }

  ghost predicate Evictable(s: State, pid: Pid, f: Pid) {
    IsData(s, f) || (IsTable(s, f) && !IsOwnTable(s, pid, f))
  }

  /** With at most two frames free there is always something to evict. */
  lemma SomethingToEvict(s: State, pid: Pid)
    requires Valid(s) && FreeCount(s) <= 2
    ensures exists f: Pid :: Evictable(s, pid, f)
  {
    var f: Pid := s.hardware[pid].address / 16 % 4;
    var g: Pid :| s.freelist[g] != 1 && (g != f || s.hardware[pid].inmem != 1);
    assert Evictable(s, pid, g);
  }

  /** The frame `i` places on from the hand. */
  function Turn(h: Pid, i: nat): Pid
    requires i <= 4
  {
    if h + i < 4 then h + i else h + i - 4
  }

  lemma OnceAround(h: Pid, f: Pid) returns (i: nat)
    ensures i < 4 && Turn(h, i) == f
  {
    i := if f >= h then f - h else f - h + 4;
  }

  lemma {:induction false} NextDataFinds(s: State, h: Pid, k: nat)
    requires k <= 4
    ensures match NextData(s, h, k)
      case Some(f) => IsData(s, f)
      case None => forall i: nat | i < k :: !IsData(s, Turn(h, i))
    decreases k
  {
    if k > 0 && !IsData(s, h) {
      NextDataFinds(s, Next(h), k - 1);
      if NextData(s, Next(h), k - 1).None? {
        forall i: nat | i < k ensures !IsData(s, Turn(h, i)) {
          if i > 0 {
            assert Turn(h, i) == Turn(Next(h), i - 1);
          }
        }
      }
    }
  }

  lemma {:induction false} NextTableFinds(s: State, pid: Pid, h: Pid, k: nat)
    requires k <= 4
    ensures match NextTable(s, pid, h, k)
      case Some(f) => IsTable(s, f) && !IsOwnTable(s, pid, f)
      case None => forall i: nat | i < k :: !IsTable(s, Turn(h, i)) || IsOwnTable(s, pid, Turn(h, i))
    decreases k
  {
    if k > 0 && !(IsTable(s, h) && !IsOwnTable(s, pid, h)) {
      NextTableFinds(s, pid, Next(h), k - 1);
      if NextTable(s, pid, Next(h), k - 1).None? {
        forall i: nat | i < k ensures !IsTable(s, Turn(h, i)) || IsOwnTable(s, pid, Turn(h, i)) {
          if i > 0 {
            assert Turn(h, i) == Turn(Next(h), i - 1);
          }
        }
      }
    }
  }

  /** Where eviction looks, with the repaired last resort: a data page when there is
      one, else another process's table. */
  lemma VictimFound(s: State, pid: Pid)
    requires exists f: Pid :: Evictable(s, pid, f)
    ensures match NextData(s, s.roundrobin, 4)
      case Some(f) => IsData(s, f)
      case None =>
        && (forall f: Pid :: !IsData(s, f))
        && NextTable(s, pid, s.roundrobin, 4).Some?
        && IsTable(s, NextTable(s, pid, s.roundrobin, 4).value)
        && !IsOwnTable(s, pid, NextTable(s, pid, s.roundrobin, 4).value)
  {
    var h: Pid := s.roundrobin;
    NextDataFinds(s, h, 4);
    NextTableFinds(s, pid, h, 4);
    if NextData(s, h, 4).None? {
      forall f: Pid ensures !IsData(s, f) {
        var i := OnceAround(h, f);
      }
      var f: Pid :| Evictable(s, pid, f);
      var i := OnceAround(h, f);
    }
  }

  /** The entry that maps a data frame. */
  lemma DataFrameOwner(s: State, f: Pid) returns (q: Pid, v: Pid)
    requires Valid(s) && IsData(s, f)
    ensures q == s.pages[f] && Resident(s, q)
    ensures Maps(ViewOf(s), q, v, f) && MappedBy(s, q, v, f)
    ensures LookupVpn(true, s.mem, s.hardware[q].address, 16 * f, 16) == Some(v as int)
  {
    assert FrameOk(ViewOf(s), f);
    q := s.pages[f];
    v :| Maps(ViewOf(s), q, v, f);
    DataFrameMapped(s, q, v, f);
    LookupFinds(s, q, v, f, 16);
  }

  lemma RemovePageHidden(s: State, f: Pid, pid: Pid)
    requires Valid(s) && IsData(s, f) && |s.swap| < 256
    ensures RemovePage(REPAIRED, s, s.pages[f], f).Some?
    ensures Hidden(s, RemovePage(REPAIRED, s, s.pages[f], f).value, pid)
    ensures FreeCount(RemovePage(REPAIRED, s, s.pages[f], f).value) == FreeCount(s) + 1
    ensures |RemovePage(REPAIRED, s, s.pages[f], f).value.swap| == |s.swap| + 1
  {
    var q, v := DataFrameOwner(s, f);
    RemovePageView(REPAIRED, s, q, v, f);
    PageOutKeeps(ViewOf(s), q, v, f);
    PageOutParts(s, RemovePage(REPAIRED, s, q, f).value, q, v, f);
  }

  lemma PageOutParts(s: State, s': State, q: Pid, v: Pid, f: Pid)
    requires |s.swap| < 256 && IsData(s, f) && Maps(ViewOf(s), q, v, f) && ViewOf(s') == PageOut(ViewOf(s), q, v, f)
    ensures s'.hardware == s.hardware && FreeCount(s') == FreeCount(s) + 1
    ensures s.swap <= s'.swap && |s'.swap| == |s.swap| + 1
    ensures forall p: Pid, w: Pid | EntryAt(s, p, w).valpres != 2 :: EntryAt(s', p, w) == EntryAt(s, p, w)
  {
    assert s'.hardware == ViewOf(s').hardware && s'.freelist == ViewOf(s').freelist && s'.swap == ViewOf(s').swap;
    forall p: Pid, w: Pid | EntryAt(s, p, w).valpres != 2 ensures EntryAt(s', p, w) == EntryAt(s, p, w) {
      PageOutEntry(s, s', q, v, f, p, w);
    }
  }

  lemma PageOutEntry(s: State, s': State, q: Pid, v: Pid, f: Pid, p: Pid, w: Pid)
    requires |s.swap| < 256 && Maps(ViewOf(s), q, v, f) && ViewOf(s') == PageOut(ViewOf(s), q, v, f)
    requires EntryAt(s, p, w).valpres != 2
    ensures EntryAt(s', p, w) == EntryAt(s, p, w)
  {
    ViewEntry(s, p, w);
    ViewEntry(s', p, w);
    ViewEntry(s, q, v);
  }

  lemma RemovePageTableHidden(s: State, f: Pid, pid: Pid)
    requires Valid(s) && IsTable(s, f) && !IsOwnTable(s, pid, f) && forall g: Pid :: !IsData(s, g)
    ensures RemovePageTable(s, s.pages[f]).Some?
    ensures Hidden(s, RemovePageTable(s, s.pages[f]).value, pid)
    ensures FreeCount(RemovePageTable(s, s.pages[f]).value) == FreeCount(s) + 1
    ensures |RemovePageTable(s, s.pages[f]).value.swap| == |s.swap| + 1
  {
    assert FrameOk(ViewOf(s), f);
    var q: Pid := s.pages[f];
    RemovePageTableView(s, q, f);
    forall g: Pid ensures !Data(ViewOf(s), g) {
      assert !IsData(s, g);
    }
    TableOutKeeps(ViewOf(s), q, f, TableOf(s, q));
    var s' := RemovePageTable(s, q).value;
    forall p: Pid, w: Pid ensures EntryAt(s', p, w) == EntryAt(s, p, w) {
      ViewEntry(s, p, w);
      ViewEntry(s', p, w);
    }
    assert s'.hardware == ViewOf(s').hardware && s'.freelist == ViewOf(s').freelist;
  }

  /** How many frames hold data pages. */
  function DataCount(s: State): nat {
    (if IsData(s, 0) then 1 else 0) + (if IsData(s, 1) then 1 else 0)
    + (if IsData(s, 2) then 1 else 0) + (if IsData(s, 3) then 1 else 0)
  }

  /** Of `k` evictions, those that move a page find a line number below 256; a table's
      line is kept in an int. */
  predicate Numbers(s: State, k: nat) {
    var pages := if DataCount(s) < k then DataCount(s) else k;
    pages == 0 || |s.swap| + pages <= 256
  }

  /** `s'` is reached from `s` by `k` evictions, each costing a swap line, on
      behalf of `pid`; a table is evicted only when no data page is left. */
  ghost predicate Evicted(s: State, s': State, pid: Pid, k: nat) {
    && Hidden(s, s', pid)
    && FreeCount(s') == FreeCount(s) + k
    && |s'.swap| == |s.swap| + k
    && DataCount(s') == (if DataCount(s) < k then 0 else DataCount(s) - k)
    && (s'.hardware != s.hardware ==> NoData(s'))
    && (NoData(s) ==> NoData(s'))
  }

  ghost predicate NoData(s: State) {
    forall f: Pid :: !IsData(s, f)
  }

  lemma HandMovesView(s: State, s': State)
    requires s' == s.(roundrobin := s'.roundrobin)
    ensures ViewOf(s') == ViewOf(s)
  {
    forall p: Pid, v: Pid ensures EntryAt(s', p, v) == ViewOf(s).entries[4 * p + v] {
      ViewEntry(s, p, v);
    }
    forall f: Pid ensures FrameSeen(s', f) == ViewOf(s).frames[f] {
    }
    SameView(s', ViewOf(s));
  }

  /** The hand is invisible. */
  lemma HandMoves(s: State, s': State)
    requires s' == s.(roundrobin := s'.roundrobin)
    ensures ViewOf(s') == ViewOf(s)
    ensures forall p: Pid, v: Pid :: EntryAt(s', p, v) == EntryAt(s, p, v)
    ensures FreeCount(s') == FreeCount(s)
    ensures NoData(s') == NoData(s) && DataCount(s') == DataCount(s)
  {
    HandMovesView(s, s');
    HandMovesData(s, s');
  }

  lemma HandMovesData(s: State, s': State)
    requires s' == s.(roundrobin := s'.roundrobin)
    ensures NoData(s') == NoData(s) && DataCount(s') == DataCount(s)
  {
    forall f: Pid ensures IsData(s', f) == IsData(s, f) {
    }
  }

  lemma RemovePageEvicts(s: State, f: Pid, pid: Pid)
    requires Valid(s) && IsData(s, f) && |s.swap| < 256
    ensures RemovePage(REPAIRED, s, s.pages[f], f).Some?
    ensures Evicted(s, RemovePage(REPAIRED, s, s.pages[f], f).value, pid, 1)
  {
    RemovePageHidden(s, f, pid);
  }

  lemma RemovePageTableEvicts(s: State, f: Pid, pid: Pid)
    requires Valid(s) && IsTable(s, f) && !IsOwnTable(s, pid, f) && NoData(s)
    ensures RemovePageTable(s, s.pages[f]).Some?
    ensures Evicted(s, RemovePageTable(s, s.pages[f]).value, pid, 1)
  {
    RemovePageTableHidden(s, f, pid);
    assert FrameOk(ViewOf(s), f);
    var s' := RemovePageTable(s, s.pages[f]).value;
    forall g: Pid ensures !IsData(s', g) {
      assert !IsData(s, g);
    }
  }

  lemma HandMovesAfter(s: State, s1: State, pid: Pid, k: nat, h: Pid)
    requires Evicted(s, s1, pid, k)
    ensures Evicted(s, s1.(roundrobin := h), pid, k)
  {
    HandMoves(s1, s1.(roundrobin := h));
  }

  /** One repaired eviction: it moves a table only when no data page is in memory. */
  lemma EvictHidden(s: State, pid: Pid)
    requires Valid(s) && Numbers(s, 1) && FreeCount(s) <= 2
    ensures Evict(REPAIRED, s, pid).Some?
    ensures Evicted(s, Evict(REPAIRED, s, pid).value, pid, 1)
    ensures Evict(REPAIRED, s, pid).value.hardware != s.hardware ==> NoData(s)
  {
    SomethingToEvict(s, pid);
    VictimFound(s, pid);
    match NextData(s, s.roundrobin, 4)
    case Some(f) =>
      RemovePageEvicts(s, f, pid);
      HandMovesAfter(s, RemovePage(REPAIRED, s, s.pages[f], f).value, pid, 1, Next(f));
    case None =>
      var f := NextTable(s, pid, s.roundrobin, 4).value;
      RemovePageTableEvicts(s, f, pid);
      HandMovesAfter(s, RemovePageTable(s, s.pages[f]).value, pid, 1, Next(f));
  }

  lemma EvictedMore(s: State, s1: State, s2: State, pid: Pid, k: nat)
    requires Evicted(s, s1, pid, k) && Evicted(s1, s2, pid, 1)
    ensures Evicted(s, s2, pid, k + 1)
  {
    forall p: Pid, v: Pid | EntryAt(s, p, v).valpres != 2 ensures EntryAt(s2, p, v) == EntryAt(s, p, v) {
      assert EntryAt(s1, p, v) == EntryAt(s, p, v);
    }
    forall p: Pid, v: Pid ensures PageOf(ViewOf(s2), p, v) == PageOf(ViewOf(s), p, v) {
      assert PageOf(ViewOf(s1), p, v) == PageOf(ViewOf(s), p, v);
    }
  }

  lemma FewerNumbers(s: State, j: nat, k: nat)
    requires Numbers(s, k) && j <= k
    ensures Numbers(s, j)
  {
  }

  /** What `k` evictions leave of the numbers for one more. */
  lemma NumbersLeft(s: State, s1: State, pid: Pid, k: nat)
    requires Evicted(s, s1, pid, k) && Numbers(s, k + 1)
    ensures Numbers(s1, 1)
  {
  }

  lemma EvictAfter(s: State, s1: State, pid: Pid, k: nat)
    requires Evicted(s, s1, pid, k) && Numbers(s, k + 1) && FreeCount(s) + k <= 2
    ensures Evict(REPAIRED, s1, pid).Some?
    ensures Evicted(s, Evict(REPAIRED, s1, pid).value, pid, k + 1)
  {
    NumbersLeft(s, s1, pid, k);
    EvictHidden(s1, pid);
    EvictedMore(s, s1, Evict(REPAIRED, s1, pid).value, pid, k);
  }

  lemma NothingEvicted(s: State, pid: Pid)
    requires Valid(s)
    ensures EvictTimes(REPAIRED, s, pid, 0) == Some(s) && Evicted(s, s, pid, 0)
  {
  }

  lemma EvictTimesStep(fix: Repairs, s: State, pid: Pid, k: nat)
    requires k > 0 && EvictTimes(fix, s, pid, k - 1).Some?
    ensures EvictTimes(fix, s, pid, k) == Evict(fix, EvictTimes(fix, s, pid, k - 1).value, pid)
  {
  }

  /** If eviction `j`, counted from 0, moves a table, no data page was left before it. */
  ghost predicate TableLast(s: State, pid: Pid, j: nat) {
    var a, b := EvictTimes(REPAIRED, s, pid, j), EvictTimes(REPAIRED, s, pid, j + 1);
    a.Some? && b.Some? && (b.value.hardware != a.value.hardware ==> NoData(a.value))
  }

  /** `k` repaired evictions are carried out and hide. */
  ghost predicate Frees(s: State, pid: Pid, k: nat) {
    match EvictTimes(REPAIRED, s, pid, k)
    case Some(s') => Evicted(s, s', pid, k)
    case None => false
  }

  lemma OneMoreEviction(s: State, pid: Pid, k: nat)
    requires k > 0 && Frees(s, pid, k - 1) && Numbers(s, k) && FreeCount(s) + k <= 3
    ensures Frees(s, pid, k)
  {
    EvictTimesStep(REPAIRED, s, pid, k);
    EvictAfter(s, EvictTimes(REPAIRED, s, pid, k - 1).value, pid, k - 1);
  }

  lemma {:induction false} EvictTimesFrees(s: State, pid: Pid, k: nat)
    requires Valid(s) && Numbers(s, k) && (k > 0 ==> FreeCount(s) + k <= 3)
    ensures Frees(s, pid, k)
  {
    if k == 0 {
      NothingEvicted(s, pid);
    } else {
      FewerNumbers(s, k - 1, k);
      EvictTimesFrees(s, pid, k - 1);
      OneMoreEviction(s, pid, k);
    }
  }

  lemma EvictTimesHidden(s: State, pid: Pid, k: nat)
    requires Valid(s) && Numbers(s, k) && (k > 0 ==> FreeCount(s) + k <= 3)
    ensures EvictTimes(REPAIRED, s, pid, k).Some?
    ensures Evicted(s, EvictTimes(REPAIRED, s, pid, k).value, pid, k)
  {
    EvictTimesFrees(s, pid, k);
  }

  lemma EachTableLast(s: State, pid: Pid, j: nat)
    requires Valid(s) && Numbers(s, j + 1) && FreeCount(s) + j <= 2
    ensures TableLast(s, pid, j)
  {
    FewerNumbers(s, j, j + 1);
    EvictTimesHidden(s, pid, j);
    NumbersLeft(s, EvictTimes(REPAIRED, s, pid, j).value, pid, j);
    EvictTimesStep(REPAIRED, s, pid, j + 1);
    EvictHidden(EvictTimes(REPAIRED, s, pid, j).value, pid);
  }

  /** Repaired `freespace`: it ends, at least `n` frames are then free, no process
      sees a change, the table of `pid` stays where it was, each evicted frame costs
      one swap line, and each table that goes does so when no data page is left. */
  lemma FreeSpaceHidden(s: State, n: nat, pid: Pid)
    requires Valid(s) && n <= 3 && Numbers(s, Shortage(s, n))
    ensures FreeSpace(REPAIRED, s, n, pid).Some?
    ensures Evicted(s, FreeSpace(REPAIRED, s, n, pid).value, pid, Shortage(s, n))
    ensures FreeCount(FreeSpace(REPAIRED, s, n, pid).value) >= n
    ensures forall j: nat | j < Shortage(s, n) :: TableLast(Robin(s), pid, j)
  {
    HandMoves(s, Robin(s));
    EvictTimesHidden(Robin(s), pid, Shortage(s, n));
    forall j: nat | j < Shortage(s, n) ensures TableLast(Robin(s), pid, j) {
      EachTableLast(Robin(s), pid, j);
    }
    HandBefore(s, Next(s.roundrobin), FreeSpace(REPAIRED, s, n, pid).value, pid, Shortage(s, n));
  }

  lemma HandBefore(s: State, h: Pid, s': State, pid: Pid, k: nat)
    requires Evicted(s.(roundrobin := h), s', pid, k)
    ensures Evicted(s, s', pid, k)
  {
    HandMoves(s, s.(roundrobin := h));
    forall p: Pid, v: Pid | EntryAt(s, p, v).valpres != 2 ensures EntryAt(s', p, v) == EntryAt(s, p, v) {
      assert EntryAt(s.(roundrobin := h), p, v) == EntryAt(s, p, v);
    }
  }
}
