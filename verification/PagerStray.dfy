/** A store as written to a writeable page on disk: the code takes the swap line for a
    frame address, and writes its byte there. Exactly when nobody can tell. */
module PagerStray {
  import opened Options
  import opened PagerModel
  import opened PagerTables
  import opened PagerBytes
  import opened PagerEviction
  import opened PagerCommands
  import opened PagerAsWritten

  // ----- one byte of a page table

  function WithByte(e: Entry, j: int, val: Byte): Entry
    requires 0 <= j < 4
  {
    if j == 0 then e.(vpn := val) else if j == 1 then e.(pfn := val) else if j == 2 then e.(prot := val) else e.(valpres := val)
  }

  function ByteOf(e: Entry, j: int): Byte
    requires 0 <= j < 4
  {
    if j == 0 then e.vpn else if j == 1 then e.pfn else if j == 2 then e.prot else e.valpres
  }

  /** The process sees its page `w` as `page`, and nobody sees another change. */
  ghost predicate Shows(t: View, t': View, p: Pid, w: Pid, page: FlatPage) {
    Coherent(t') && OnePage(t, t', p, w, page)
  }

  /** Another line with the right page on it: the one case in which a changed byte of a
      page table does what it should. */
  predicate LineSuits(t: View, q: Pid, u: Pid, val: Byte, p: Pid, w: Pid, page: FlatPage) {
    && t.entries[4 * q + u].valpres == 1 && val < |t.swap|
    && Mapped(t.entries[4 * q + u].prot, t.swap[val]) == (if q == p && u == w then page else PageOf(t, q, u))
    && ((q == p && u == w) || page == PageOf(t, p, w))
  }

  lemma LineByteExact(t: View, q: Pid, u: Pid, val: Byte, p: Pid, w: Pid, page: FlatPage)
    requires Coherent(t) && t.entries[4 * q + u].valpres == 1
    ensures Shows(t, EntryChanged(t, q, u, WithByte(t.entries[4 * q + u], 1, val)), p, w, page)
      <==> LineSuits(t, q, u, val, p, w, page)
  {
    var t' := EntryChanged(t, q, u, WithByte(t.entries[4 * q + u], 1, val));
    if val < |t.swap| {
      RepointKeeps(t, q, u, val);
      if Shows(t, t', p, w, page) {
        assert PageOf(t', q, u) == if q == p && u == w then page else PageOf(t, q, u);
        assert PageOf(t', p, w) == page;
      }
    } else {
      assert t'.entries[4 * q + u].pfn == val;
      assert !EntryOk(t', q, u);
    }
  }

  /** A changed protection or valid byte of a page that has one shows, or is incoherent. */
  lemma EntryByteShows(t: View, q: Pid, u: Pid, j: int, val: Byte, p: Pid, w: Pid, page: FlatPage)
    requires Coherent(t) && HasTable(t, q) && 0 <= j < 4 && ByteOf(t.entries[4 * q + u], j) != val
    requires !(j == 1 && t.entries[4 * q + u].valpres == 1)
    requires t.entries[4 * p + w].valpres == 1 && page.Mapped? && page.prot == t.entries[4 * p + w].prot
    ensures !Shows(t, EntryChanged(t, q, u, WithByte(t.entries[4 * q + u], j, val)), p, w, page)
  {
    var e := t.entries[4 * q + u];
    var t' := EntryChanged(t, q, u, WithByte(e, j, val));
    assert EntryOk(t, q, u) && EntryOk(t, p, w);
    if Shows(t, t', p, w, page) {
      assert EntryOk(t', q, u);
      assert PageOf(t', q, u) == if q == p && u == w then page else PageOf(t, q, u);
      if e.valpres == 2 && j != 2 {
        MapperLost(t, q, u, WithByte(e, j, val));
      } else if e.valpres == 1 && j == 3 && val == 2 {
        MapperGained(t, q, u, WithByte(e, j, val));
      }
    }
  }

  // ----- the same in memory

  /** `s'` is `s` but for byte `j` of entry `u` of the table of `q`. */
  predicate TableByte(s: State, s': State, q: Pid, u: Pid, j: int, val: Byte) {
    && Resident(s, q) && 0 <= j < 4
    && s' == s.(mem := s.mem[s.hardware[q].address + 4 * u + j := val])
  }

  lemma TableByteHere(s: State, s': State, q: Pid, u: Pid, j: int, val: Byte)
    requires TableByte(s, s', q, u, j, val)
    ensures EntryAt(s', q, u) == WithByte(EntryAt(s, q, u), j, val)
  {
    ResidentEntry(s, q, u);
    ResidentEntry(s', q, u);
  }

  lemma TableByteEntry(s: State, s': State, q: Pid, u: Pid, j: int, val: Byte, p: Pid, w: Pid)
    requires Valid(s) && TableByte(s, s', q, u, j, val) && !(p == q && w == u)
    ensures EntryAt(s', p, w) == EntryAt(s, p, w)
  {
    assert PointerOk(ViewOf(s), p) && PointerOk(ViewOf(s), q);
    EntryKept(s, s', p, w);
  }

  lemma TableByteFrame(s: State, s': State, q: Pid, u: Pid, j: int, val: Byte, g: Pid)
    requires Valid(s) && TableByte(s, s', q, u, j, val)
    ensures FrameSeen(s', g) == FrameSeen(s, g)
  {
    if !IsTable(s, g) {
      TablesApart(s, q, q, g);
    }
  }

  lemma TableByteView(s: State, s': State, q: Pid, u: Pid, j: int, val: Byte)
    requires Valid(s) && TableByte(s, s', q, u, j, val)
    ensures ViewOf(s') == EntryChanged(ViewOf(s), q, u, WithByte(EntryAt(s, q, u), j, val))
  {
    var t := EntryChanged(ViewOf(s), q, u, WithByte(EntryAt(s, q, u), j, val));
    forall p: Pid, w: Pid ensures EntryAt(s', p, w) == t.entries[4 * p + w] {
      if p == q && w == u {
        TableByteHere(s, s', q, u, j, val);
      } else {
        TableByteEntry(s, s', q, u, j, val, p, w);
      }
      ViewEntry(s, p, w);
    }
    forall g: Pid ensures FrameSeen(s', g) == t.frames[g] {
      TableByteFrame(s, s', q, u, j, val, g);
    }
    SameView(s', t);
  }

  // ----- a byte anywhere in memory

  lemma PokeShows(t: View, f: Pid, offset: int, val: Byte, p: Pid, w: Pid, page: FlatPage)
    requires Coherent(t) && !Table(t, f) && 0 <= offset < 16 && t.frames[f][offset] != val
    requires t.entries[4 * p + w].valpres == 1
    ensures !Shows(t, Poke(t, f, offset, val), p, w, page)
  {
    var t' := Poke(t, f, offset, val);
    assert t'.frames[f][offset] == val;
    if Free(t, f) {
      assert FrameOk(t, f) && t'.frames[f] != ZERO_PAGE;
      assert !FrameOk(t', f);
    } else {
      DataIsMapped(t, f);
      var u: Pid :| Maps(t, t.pages[f], u, f);
      assert PageOf(t', t.pages[f], u) != PageOf(t, t.pages[f], u);
    }
  }

  /** Byte `at` of memory holds the swap line of page `u` of `q`. */
  predicate LineByte(s: State, at: int, q: Pid, u: Pid) {
    Resident(s, q) && at == s.hardware[q].address + 4 * u + 1 && EntryAt(s, q, u).valpres == 1
  }

  /** Byte `at` holds a swap line, and line `val` would do for it. */
  predicate LineByteSuits(s: State, at: int, val: Byte, p: Pid, w: Pid, page: FlatPage) {
    exists q: Pid, u: Pid :: LineByte(s, at, q, u) && LineSuits(ViewOf(s), q, u, val, p, w, page)
  }

  lemma TableOwner(s: State, f: Pid) returns (q: Pid)
    requires Valid(s) && IsTable(s, f)
    ensures s.hardware[q] == Hp(16 * f, 1) && Resident(s, q)
  {
    assert FrameOk(ViewOf(s), f);
    q := s.pages[f];
  }

  lemma PlaceOf(f: Pid, u: Pid, j: int)
    requires 0 <= j < 4
    ensures var at := 16 * f + 4 * u + j; at / 16 == f && at % 16 / 4 == u && at % 4 == j
  {
  }

  lemma TablePlace(s: State, q: Pid) returns (f: Pid)
    requires Valid(s) && Resident(s, q)
    ensures s.hardware[q] == Hp(16 * f, 1) && IsTable(s, f) && s.pages[f] == q
  {
    assert PointerOk(ViewOf(s), q);
    f := s.hardware[q].address / 16;
  }

  lemma LineByteIn(s: State, at: int, q: Pid, u: Pid)
    requires Valid(s) && LineByte(s, at, q, u)
    ensures 0 <= at < 64 && IsTable(s, at / 16) && s.pages[at / 16] == q
    ensures u == at % 16 / 4 && at % 4 == 1
  {
    var f := TablePlace(s, q);
    PlaceOf(f, u, 1);
  }

  lemma StrayInEntry(s: State, s': State, q: Pid, u: Pid, j: int, val: Byte, p: Pid, w: Pid, page: FlatPage)
    requires Valid(s) && TableByte(s, s', q, u, j, val) && ByteOf(EntryAt(s, q, u), j) != val
    requires EntryAt(s, p, w).valpres == 1 && page.Mapped? && page.prot == EntryAt(s, p, w).prot
    ensures Shows(ViewOf(s), ViewOf(s'), p, w, page) <==>
      j == 1 && EntryAt(s, q, u).valpres == 1 && LineSuits(ViewOf(s), q, u, val, p, w, page)
  {
    TableByteView(s, s', q, u, j, val);
    ViewEntry(s, q, u);
    ViewEntry(s, p, w);
    if j == 1 && EntryAt(s, q, u).valpres == 1 {
      LineByteExact(ViewOf(s), q, u, val, p, w, page);
    } else {
      EntryByteShows(ViewOf(s), q, u, j, val, p, w, page);
    }
  }

  lemma OneLineByte(s: State, at: int, val: Byte, p: Pid, w: Pid, page: FlatPage, q: Pid, u: Pid, j: int)
    requires Valid(s) && Resident(s, q) && 0 <= j < 4 && at == s.hardware[q].address + 4 * u + j
    ensures LineByteSuits(s, at, val, p, w, page) <==>
      j == 1 && EntryAt(s, q, u).valpres == 1 && LineSuits(ViewOf(s), q, u, val, p, w, page)
  {
    var f := TablePlace(s, q);
    PlaceOf(f, u, j);
    forall q': Pid, u': Pid | LineByte(s, at, q', u') ensures q' == q && u' == u && j == 1 {
      LineByteIn(s, at, q', u');
    }
    if j == 1 && EntryAt(s, q, u).valpres == 1 {
      assert LineByte(s, at, q, u);
    }
  }

  lemma EntryByte(s: State, q: Pid, u: Pid, j: int)
    requires Resident(s, q) && 0 <= j < 4
    ensures ByteOf(EntryAt(s, q, u), j) == s.mem[s.hardware[q].address + 4 * u + j]
  {
    ResidentEntry(s, q, u);
  }

  lemma StrayAtEntry(s: State, s': State, at: int, val: Byte, p: Pid, w: Pid, page: FlatPage, q: Pid, u: Pid, j: int)
    requires Valid(s) && TableByte(s, s', q, u, j, val) && at == s.hardware[q].address + 4 * u + j && s.mem[at] != val
    requires EntryAt(s, p, w).valpres == 1 && page.Mapped? && page.prot == EntryAt(s, p, w).prot
    ensures Shows(ViewOf(s), ViewOf(s'), p, w, page) <==> LineByteSuits(s, at, val, p, w, page)
  {
    EntryByte(s, q, u, j);
    StrayInEntry(s, s', q, u, j, val, p, w, page);
    OneLineByte(s, at, val, p, w, page, q, u, j);
  }

  lemma StrayInTable(s: State, s': State, at: int, val: Byte, p: Pid, w: Pid, page: FlatPage)
    requires Valid(s) && 0 <= at < 64 && IsTable(s, at / 16) && s.mem[at] != val && s' == s.(mem := s.mem[at := val])
    requires EntryAt(s, p, w).valpres == 1 && page.Mapped? && page.prot == EntryAt(s, p, w).prot
    ensures Shows(ViewOf(s), ViewOf(s'), p, w, page) <==> LineByteSuits(s, at, val, p, w, page)
  {
    var q := TableOwner(s, at / 16);
    SplitPlace(at);
    StrayAtEntry(s, s', at, val, p, w, page, q, at % 16 / 4, at % 4);
  }

  lemma SplitPlace(at: int)
    requires 0 <= at < 64
    ensures at == 16 * (at / 16) + 4 * (at % 16 / 4) + at % 4
  {
  }

  lemma StrayInFrame(s: State, s': State, at: int, val: Byte, p: Pid, w: Pid, page: FlatPage)
    requires Valid(s) && 0 <= at < 64 && !IsTable(s, at / 16) && s.mem[at] != val && s' == s.(mem := s.mem[at := val])
    requires Resident(s, p) && EntryAt(s, p, w).valpres == 1
    ensures !Shows(ViewOf(s), ViewOf(s'), p, w, page) && !LineByteSuits(s, at, val, p, w, page)
  {
    ViewEntry(s, p, w);
    assert 16 * (at / 16) + at % 16 == at;
    StoreView(s, p, w, at / 16, at % 16, val);
    PokeShows(ViewOf(s), at / 16, at % 16, val, p, w, page);
    forall q: Pid, u: Pid | LineByte(s, at, q, u) ensures false {
      LineByteIn(s, at, q, u);
    }
  }

  // ----- the store

  /** A byte written to the address that the swap line of the page of `vaddr` stands
      for does no harm: it lies in memory, and it is there already, as it is on the
      line; or a swap line is recorded there, and the line `val` does as well. */
  predicate StrayHarmless(s: State, pid: Pid, vaddr: Vaddr, val: Byte) {
    var at := EntryAt(s, pid, vaddr / 16).pfn + vaddr % 16;
    var page := FlatStore(Seen(s, pid, vaddr), vaddr, val).0;
    && at < 64
    && if s.mem[at] == val then page == Seen(s, pid, vaddr)
       else LineByteSuits(s, at, val, pid, vaddr / 16, page)
  }

  /** A store leaves the bookkeeping coherent, answers as flat memory does and changes
      what it should. */
  ghost predicate StoreRight(s: State, pid: Pid, vaddr: Vaddr, val: Byte) {
    var r := StoreStep(AS_WRITTEN, s, pid, vaddr, val);
    var (page, out) := FlatStore(Seen(s, pid, vaddr), vaddr, val);
    r.Some? && Shows(ViewOf(s), ViewOf(r.value.0), pid, vaddr / 16, page) && r.value.1 == out
  }

  lemma StraySteps(s: State, pid: Pid, vaddr: Vaddr, val: Byte)
    requires Resident(s, pid) && EntryAt(s, pid, vaddr / 16).valpres == 1 && EntryAt(s, pid, vaddr / 16).prot == 1
    ensures var at := EntryAt(s, pid, vaddr / 16).pfn + vaddr % 16;
      StoreStep(AS_WRITTEN, s, pid, vaddr, val) == if at < 64 then Some((s.(mem := s.mem[at := val]), Stored)) else None
  {
    ReadValpres(s, pid, vaddr);
    ConvertFinds(s, pid, vaddr);
  }

  lemma OnDiskSeen(s: State, pid: Pid, vaddr: Vaddr)
    requires Valid(s) && EntryAt(s, pid, vaddr / 16).valpres == 1
    ensures EntryAt(s, pid, vaddr / 16).pfn < |s.swap|
    ensures Seen(s, pid, vaddr) == Mapped(EntryAt(s, pid, vaddr / 16).prot, s.swap[EntryAt(s, pid, vaddr / 16).pfn])
  {
    DiskEntry(s, pid, vaddr / 16);
    ViewEntry(s, pid, vaddr / 16);
  }

  /** The store as written to a writeable page on disk is right exactly when its stray
      byte does no harm. */
  lemma StrayStoreExact(s: State, pid: Pid, vaddr: Vaddr, val: Byte)
    requires Valid(s) && Resident(s, pid)
    requires EntryAt(s, pid, vaddr / 16).valpres == 1 && EntryAt(s, pid, vaddr / 16).prot == 1
    ensures StoreRight(s, pid, vaddr, val) <==> StrayHarmless(s, pid, vaddr, val)
  {
    StraySteps(s, pid, vaddr, val);
    OnDiskSeen(s, pid, vaddr);
    var at := EntryAt(s, pid, vaddr / 16).pfn + vaddr % 16;
    var page := FlatStore(Seen(s, pid, vaddr), vaddr, val).0;
    if at < 64 {
      if s.mem[at] == val {
        assert s.mem[at := val] == s.mem;
        assert PageOf(ViewOf(s), pid, vaddr / 16) == Seen(s, pid, vaddr);
      } else if IsTable(s, at / 16) {
        StrayInTable(s, s.(mem := s.mem[at := val]), at, val, pid, vaddr / 16, page);
      } else {
        StrayInFrame(s, s.(mem := s.mem[at := val]), at, val, pid, vaddr / 16, page);
      }
    }
  }
}
