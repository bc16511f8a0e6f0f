/** The pager seen through its page tables: entries as records, wherever the table
    that holds them is, and frames as pages. The redundant bookkeeping has to agree
    here, and every move of a page or a table has to keep it so without changing
    what any process sees. */
module PagerTables {
  import opened PagerModel

  datatype Entry = Entry(vpn: Byte, pfn: Byte, prot: Byte, valpres: Byte)

  const NO_ENTRY := Entry(0, 0, 0, 0)

  datatype Tables = Tables(
    freelist: seq<int>,
    pages: seq<int>,
    ispagetable: seq<int>,
    hardware: seq<Hp>,
    entries: seq<Entry>,  // entry v of process p is at 4 * p + v
    frames: seq<Page>,    // table frames count as zero pages
    swap: seq<Page>)

  predicate Formed(t: Tables) {
    && |t.freelist| == |t.pages| == |t.ispagetable| == |t.hardware| == |t.frames| == 4
    && |t.entries| == 16
  }

  type View = t: Tables | Formed(t) witness
    Tables([1, 1, 1, 1], [-1, -1, -1, -1], [0, 0, 0, 0], seq(4, i => Hp(0, -1)), seq(16, i => NO_ENTRY), seq(4, i => ZERO_PAGE), [])

  predicate Free(t: View, f: Pid) { t.freelist[f] == 1 }

  predicate Table(t: View, f: Pid) { t.ispagetable[f] == 1 }

  predicate Data(t: View, f: Pid) { !Free(t, f) && !Table(t, f) }

  predicate HasTable(t: View, p: Pid) { t.hardware[p].inmem == 0 || t.hardware[p].inmem == 1 }

  predicate Maps(t: View, p: Pid, v: Pid, f: Pid) {
    t.entries[4 * p + v].valpres == 2 && t.entries[4 * p + v].pfn == 16 * f
  }

  // ----- coherence

  predicate PointerOk(t: View, p: Pid) {
    var hp := t.hardware[p];
    && -1 <= hp.inmem <= 1
    && (hp.inmem == 1 ==> 0 <= hp.address <= 48 && hp.address % 16 == 0
                          && Table(t, hp.address / 16) && t.pages[hp.address / 16] == p)
    && (hp.inmem == 0 ==> 0 <= hp.address < |t.swap|)
  }

  /** Each frame is exactly one of free, page table or data page, and the arrays
      agree on which and on whose it is. */
  ghost predicate FrameOk(t: View, f: Pid) {
    && (Table(t, f) ==> !Free(t, f) && 0 <= t.pages[f] < 4 && t.hardware[t.pages[f]] == Hp(16 * f, 1))
    && (Free(t, f) ==> t.pages[f] == -1 && t.frames[f] == ZERO_PAGE)
    && (Data(t, f) ==> 0 <= t.pages[f] < 4 && t.hardware[t.pages[f]].inmem == 1
                       && exists v: Pid :: Maps(t, t.pages[f], v, f))
  }

  predicate EntryOk(t: View, p: Pid, v: Pid) {
    var e := t.entries[4 * p + v];
    && e.vpn == (if HasTable(t, p) then v else 0)
    && e.valpres <= 2
    && (e.valpres == 0 ==> e.pfn == 0 && e.prot == 0)
    && (e.valpres != 0 ==> HasTable(t, p))
    && (e.valpres == 1 ==> e.pfn < |t.swap|)
    && (e.valpres == 2 ==> t.hardware[p].inmem == 1 && e.pfn <= 48 && e.pfn % 16 == 0
                           && Data(t, e.pfn / 16) && t.pages[e.pfn / 16] == p)
  }

  ghost predicate Coherent(t: View) {
    && (forall p: Pid :: PointerOk(t, p))
    && (forall f: Pid :: FrameOk(t, f))
    && (forall p: Pid, v: Pid :: EntryOk(t, p, v))
    && (forall p: Pid, v: Pid, w: Pid, f: Pid :: Maps(t, p, v, f) && Maps(t, p, w, f) ==> v == w)
  }

  // ----- what a process sees

  datatype FlatPage = Unmapped | Mapped(prot: Byte, data: Page)

  function PageOf(t: View, p: Pid, v: Pid): FlatPage {
    var e := t.entries[4 * p + v];
    if e.valpres == 1 && e.pfn < |t.swap| then Mapped(e.prot, t.swap[e.pfn])
    else if e.valpres == 2 && e.pfn <= 48 then Mapped(e.prot, t.frames[e.pfn / 16])
    else Unmapped
  }

  ghost predicate SamePages(t: View, t': View) {
    forall p: Pid, v: Pid :: PageOf(t', p, v) == PageOf(t, p, v)
  }

  // ----- the moves

  function PageOut(t: View, q: Pid, v: Pid, f: Pid): View
    requires |t.swap| < 256
  {
    t.(swap := t.swap + [t.frames[f]],
       entries := t.entries[4 * q + v := t.entries[4 * q + v].(pfn := |t.swap|, valpres := 1)],
       frames := t.frames[f := ZERO_PAGE],
       freelist := t.freelist[f := 1],
       pages := t.pages[f := -1])
  }

  function TableOut(t: View, q: Pid, f: Pid, bytes: Page): View {
    t.(swap := t.swap + [bytes],
       hardware := t.hardware[q := Hp(|t.swap|, 0)],
       freelist := t.freelist[f := 1],
       ispagetable := t.ispagetable[f := 0],
       frames := t.frames[f := ZERO_PAGE],
       pages := t.pages[f := -1])
  }

  function TableIn(t: View, q: Pid, f: Pid): View {
    t.(hardware := t.hardware[q := Hp(16 * f, 1)],
       freelist := t.freelist[f := 0],
       ispagetable := t.ispagetable[f := 1],
       frames := t.frames[f := ZERO_PAGE],
       pages := t.pages[f := q])
  }

  function TableNew(t: View, q: Pid, f: Pid): View {
    TableIn(t, q, f).(entries := t.entries[4 * q := Entry(0, 0, 0, 0)][4 * q + 1 := Entry(1, 0, 0, 0)]
                                          [4 * q + 2 := Entry(2, 0, 0, 0)][4 * q + 3 := Entry(3, 0, 0, 0)])
  }

  /** Frame `f`, so far free, now holds page `v` of `q` with the given contents. */
  function PageAt(t: View, q: Pid, v: Pid, f: Pid, prot: Byte, data: Page): View {
    t.(entries := t.entries[4 * q + v := t.entries[4 * q + v].(pfn := 16 * f, prot := prot, valpres := 2)],
       frames := t.frames[f := data],
       freelist := t.freelist[f := 0],
       pages := t.pages[f := q])
  }

  function Protect(t: View, q: Pid, v: Pid, prot: Byte): View {
    t.(entries := t.entries[4 * q + v := t.entries[4 * q + v].(prot := prot)])
  }

  function Poke(t: View, f: Pid, offset: int, val: Byte): View
    requires 0 <= offset < 16
  {
    t.(frames := t.frames[f := t.frames[f][offset := val]])
  }

  /** Only page `v` of process `q` changed, and it is now `page`. */
  ghost predicate OnePage(t: View, t': View, q: Pid, v: Pid, page: FlatPage) {
    forall p: Pid, w: Pid :: PageOf(t', p, w) == if p == q && w == v then page else PageOf(t, p, w)
  }

  lemma PageOutFrames(t: View, q: Pid, v: Pid, f: Pid)
    requires Coherent(t) && |t.swap| < 256 && Data(t, f) && t.pages[f] == q && Maps(t, q, v, f)
    ensures forall p: Pid :: PointerOk(PageOut(t, q, v, f), p)
    ensures forall g: Pid :: FrameOk(PageOut(t, q, v, f), g)
  {
    var t' := PageOut(t, q, v, f);
    forall p: Pid ensures PointerOk(t', p) {
      assert PointerOk(t, p);
    }
    forall g: Pid ensures FrameOk(t', g) {
      assert FrameOk(t, g);
      if Data(t', g) {
        var u: Pid :| Maps(t, t.pages[g], u, g);
        assert Maps(t', t.pages[g], u, g);
      }
    }
  }

  lemma PageOutKeeps(t: View, q: Pid, v: Pid, f: Pid)
    requires Coherent(t) && |t.swap| < 256 && Data(t, f) && t.pages[f] == q && Maps(t, q, v, f)
    ensures Coherent(PageOut(t, q, v, f)) && SamePages(t, PageOut(t, q, v, f))
  {
    PageOutFrames(t, q, v, f);
    var t' := PageOut(t, q, v, f);
    forall p: Pid, w: Pid ensures EntryOk(t', p, w) && PageOf(t', p, w) == PageOf(t, p, w) {
      assert EntryOk(t, p, w);
      assert Maps(t, p, w, f) && p == q ==> w == v;
    }
    forall p: Pid, w: Pid, u: Pid, g: Pid | Maps(t', p, w, g) && Maps(t', p, u, g) ensures w == u {
      assert Maps(t, p, w, g) && Maps(t, p, u, g);
    }
  }

  lemma PageAtFrames(t: View, q: Pid, v: Pid, f: Pid, prot: Byte, data: Page)
    requires Coherent(t) && Free(t, f) && t.hardware[q].inmem == 1 && t.entries[4 * q + v].valpres != 2
    ensures forall p: Pid :: PointerOk(PageAt(t, q, v, f, prot, data), p)
    ensures forall g: Pid :: FrameOk(PageAt(t, q, v, f, prot, data), g)
  {
    var t' := PageAt(t, q, v, f, prot, data);
    assert FrameOk(t, f);
    forall p: Pid ensures PointerOk(t', p) {
      assert PointerOk(t, p);
    }
    forall g: Pid ensures FrameOk(t', g) {
      assert FrameOk(t, g);
      if g == f {
        assert Maps(t', q, v, f);
      } else if Data(t, g) {
        var u: Pid :| Maps(t, t.pages[g], u, g);
        assert Maps(t', t.pages[g], u, g);
      }
    }
  }

  lemma PageAtKeeps(t: View, q: Pid, v: Pid, f: Pid, prot: Byte, data: Page)
    requires Coherent(t) && Free(t, f) && t.hardware[q].inmem == 1 && t.entries[4 * q + v].valpres != 2
    ensures Coherent(PageAt(t, q, v, f, prot, data))
    ensures OnePage(t, PageAt(t, q, v, f, prot, data), q, v, Mapped(prot, data))
  {
    PageAtFrames(t, q, v, f, prot, data);
    var t' := PageAt(t, q, v, f, prot, data);
    assert FrameOk(t, f);
    forall p: Pid, w: Pid
      ensures EntryOk(t', p, w)
      ensures PageOf(t', p, w) == if p == q && w == v then Mapped(prot, data) else PageOf(t, p, w)
    {
      assert EntryOk(t, p, w);
    }
    forall p: Pid, w: Pid, u: Pid, g: Pid | Maps(t', p, w, g) && Maps(t', p, u, g) ensures w == u {
      assert EntryOk(t, p, w) && EntryOk(t, p, u);
      if g != f {
        assert Maps(t, p, w, g) && Maps(t, p, u, g);
      }
    }
  }

  /** A page read back from its swap line is the page its process left. */
  lemma PageBackKeeps(t: View, q: Pid, v: Pid, f: Pid)
    requires Coherent(t) && Free(t, f) && t.hardware[q].inmem == 1 && t.entries[4 * q + v].valpres == 1
    ensures t.entries[4 * q + v].pfn < |t.swap|
    ensures var e := t.entries[4 * q + v];
      Coherent(PageAt(t, q, v, f, e.prot, t.swap[e.pfn])) && SamePages(t, PageAt(t, q, v, f, e.prot, t.swap[e.pfn]))
  {
    assert EntryOk(t, q, v);
    var e := t.entries[4 * q + v];
    PageAtKeeps(t, q, v, f, e.prot, t.swap[e.pfn]);
  }

  lemma TableOutKeeps(t: View, q: Pid, f: Pid, bytes: Page)
    requires Coherent(t) && Table(t, f) && t.pages[f] == q
    requires forall g: Pid :: !Data(t, g)
    ensures Coherent(TableOut(t, q, f, bytes)) && SamePages(t, TableOut(t, q, f, bytes))
  {
    var t' := TableOut(t, q, f, bytes);
    assert FrameOk(t, f);
    forall p: Pid ensures PointerOk(t', p) {
      assert PointerOk(t, p);
    }
    forall g: Pid ensures FrameOk(t', g) {
      assert FrameOk(t, g) && !Data(t, g);
    }
    forall p: Pid, w: Pid ensures EntryOk(t', p, w) && PageOf(t', p, w) == PageOf(t, p, w) {
      assert EntryOk(t, p, w) && PointerOk(t, p);
    }
    forall p: Pid, w: Pid, u: Pid, g: Pid | Maps(t', p, w, g) && Maps(t', p, u, g) ensures w == u {
      assert Maps(t, p, w, g) && Maps(t, p, u, g);
    }
  }

  lemma TableInFrames(t: View, q: Pid, f: Pid)
    requires Coherent(t) && Free(t, f) && t.hardware[q].inmem != 1
    ensures forall p: Pid :: PointerOk(TableIn(t, q, f), p)
    ensures forall g: Pid :: FrameOk(TableIn(t, q, f), g)
  {
    var t' := TableIn(t, q, f);
    assert FrameOk(t, f);
    forall p: Pid ensures PointerOk(t', p) {
      assert PointerOk(t, p);
    }
    forall g: Pid ensures FrameOk(t', g) {
      assert FrameOk(t, g);
      if Data(t', g) {
        var u: Pid :| Maps(t, t.pages[g], u, g);
        assert Maps(t', t.pages[g], u, g);
      }
    }
  }

  lemma TableInKeeps(t: View, q: Pid, f: Pid)
    requires Coherent(t) && Free(t, f) && t.hardware[q].inmem == 0
    ensures Coherent(TableIn(t, q, f)) && SamePages(t, TableIn(t, q, f))
  {
    TableInFrames(t, q, f);
    var t' := TableIn(t, q, f);
    forall p: Pid, w: Pid ensures EntryOk(t', p, w) && PageOf(t', p, w) == PageOf(t, p, w) {
      assert EntryOk(t, p, w);
    }
    forall p: Pid, w: Pid, u: Pid, g: Pid | Maps(t', p, w, g) && Maps(t', p, u, g) ensures w == u {
      assert Maps(t, p, w, g) && Maps(t, p, u, g);
    }
  }

  lemma TableNewKeeps(t: View, q: Pid, f: Pid)
    requires Coherent(t) && Free(t, f) && !HasTable(t, q)
    ensures Coherent(TableNew(t, q, f)) && SamePages(t, TableNew(t, q, f))
  {
    TableInFrames(t, q, f);
    var t1 := TableIn(t, q, f);
    var t' := TableNew(t, q, f);
    forall p: Pid ensures PointerOk(t', p) {
      assert PointerOk(t1, p);
    }
    forall g: Pid ensures FrameOk(t', g) {
      assert FrameOk(t1, g);
      assert FrameOk(t, g);
      if Data(t', g) {
        var u: Pid :| Maps(t, t.pages[g], u, g);
        assert Maps(t', t.pages[g], u, g);
      }
    }
    forall p: Pid, w: Pid ensures EntryOk(t', p, w) && PageOf(t', p, w) == PageOf(t, p, w) {
      assert EntryOk(t, p, w);
    }
    forall p: Pid, w: Pid, u: Pid, g: Pid | Maps(t', p, w, g) && Maps(t', p, u, g) ensures w == u {
      assert Maps(t, p, w, g) && Maps(t, p, u, g);
    }
  }

  lemma ProtectKeeps(t: View, q: Pid, v: Pid, prot: Byte)
    requires Coherent(t) && t.entries[4 * q + v].valpres != 0
    ensures Coherent(Protect(t, q, v, prot))
    ensures PageOf(t, q, v).Mapped?
    ensures OnePage(t, Protect(t, q, v, prot), q, v, Mapped(prot, PageOf(t, q, v).data))
  {
    var t' := Protect(t, q, v, prot);
    assert EntryOk(t, q, v);
    forall p: Pid ensures PointerOk(t', p) {
      assert PointerOk(t, p);
    }
    forall g: Pid ensures FrameOk(t', g) {
      assert FrameOk(t, g);
      if Data(t, g) {
        var u: Pid :| Maps(t, t.pages[g], u, g);
        assert Maps(t', t.pages[g], u, g);
      }
    }
    forall p: Pid, w: Pid
      ensures EntryOk(t', p, w)
    {
      assert EntryOk(t, p, w);
    }
    forall p: Pid, w: Pid, u: Pid, g: Pid | Maps(t', p, w, g) && Maps(t', p, u, g) ensures w == u {
      assert Maps(t, p, w, g) && Maps(t, p, u, g);
    }
  }

  lemma PokeKeeps(t: View, q: Pid, v: Pid, f: Pid, offset: int, val: Byte)
    requires Coherent(t) && Maps(t, q, v, f) && 0 <= offset < 16
    ensures Coherent(Poke(t, f, offset, val))
    ensures PageOf(t, q, v).Mapped?
    ensures OnePage(t, Poke(t, f, offset, val), q, v, PageOf(t, q, v).(data := PageOf(t, q, v).data[offset := val]))
  {
    var t' := Poke(t, f, offset, val);
    assert EntryOk(t, q, v);
    assert PageOf(t, q, v) == Mapped(t.entries[4 * q + v].prot, t.frames[f]);
    forall p: Pid ensures PointerOk(t', p) {
      assert PointerOk(t, p);
    }
    forall g: Pid ensures FrameOk(t', g) {
      assert FrameOk(t, g);
      if Data(t, g) {
        var u: Pid :| Maps(t, t.pages[g], u, g);
        assert Maps(t', t.pages[g], u, g);
      }
    }
    var page := PageOf(t, q, v).(data := PageOf(t, q, v).data[offset := val]);
    forall p: Pid, w: Pid
      ensures EntryOk(t', p, w)
      ensures PageOf(t', p, w) == if p == q && w == v then page else PageOf(t, p, w)
    {
      assert EntryOk(t, p, w);
      assert Maps(t, p, w, f) && p == q ==> w == v;
    }
    forall p: Pid, w: Pid, u: Pid, g: Pid | Maps(t', p, w, g) && Maps(t', p, u, g) ensures w == u {
      assert Maps(t, p, w, g) && Maps(t, p, u, g);
    }
  }

  // ----- one entry changed in place

  function EntryChanged(t: View, q: Pid, v: Pid, e: Entry): View {
    t.(entries := t.entries[4 * q + v := e])
  }

  /** The entry of a page on disk may name any line there is: its page is then what
      that line holds. */
  lemma RepointKeeps(t: View, q: Pid, v: Pid, line: Byte)
    requires Coherent(t) && t.entries[4 * q + v].valpres == 1 && line < |t.swap|
    ensures var t' := EntryChanged(t, q, v, t.entries[4 * q + v].(pfn := line));
      Coherent(t') && OnePage(t, t', q, v, Mapped(t.entries[4 * q + v].prot, t.swap[line]))
  {
    var t' := EntryChanged(t, q, v, t.entries[4 * q + v].(pfn := line));
    forall p: Pid ensures PointerOk(t', p) {
      assert PointerOk(t, p);
    }
    forall g: Pid ensures FrameOk(t', g) {
      assert FrameOk(t, g);
      if Data(t, g) {
        var u: Pid :| Maps(t, t.pages[g], u, g);
        assert Maps(t', t.pages[g], u, g);
      }
    }
    forall p: Pid, w: Pid ensures EntryOk(t', p, w) {
      assert EntryOk(t, p, w);
    }
    forall p: Pid, w: Pid, u: Pid, g: Pid | Maps(t', p, w, g) && Maps(t', p, u, g) ensures w == u {
      assert Maps(t, p, w, g) && Maps(t, p, u, g);
    }
  }

  lemma DataIsMapped(t: View, g: Pid)
    requires Coherent(t) && Data(t, g)
    ensures 0 <= t.pages[g] < 4 && exists u: Pid :: Maps(t, t.pages[g], u, g)
  {
    assert FrameOk(t, g);
  }

  /** A page in memory cannot lose the entry that maps it. */
  lemma MapperLost(t: View, q: Pid, v: Pid, e: Entry)
    requires Coherent(t) && t.entries[4 * q + v].valpres == 2
    requires e.valpres != 2 || e.pfn != t.entries[4 * q + v].pfn
    ensures !Coherent(EntryChanged(t, q, v, e))
  {
    var t' := EntryChanged(t, q, v, e);
    assert EntryOk(t, q, v);
    var g: Pid := t.entries[4 * q + v].pfn / 16;
    assert Maps(t, q, v, g);
    forall u: Pid ensures !Maps(t', q, u, g) {
      assert Maps(t, q, u, g) ==> u == v;
    }
    if Coherent(t') {
      DataIsMapped(t', g);
    }
  }

  /** Nor can an entry of a page on disk take over a frame. */
  lemma MapperGained(t: View, q: Pid, v: Pid, e: Entry)
    requires Coherent(t) && t.entries[4 * q + v].valpres == 1 && e.valpres == 2
    ensures !Coherent(EntryChanged(t, q, v, e))
  {
    var t' := EntryChanged(t, q, v, e);
    if Coherent(t') {
      assert EntryOk(t', q, v);
      var g: Pid := e.pfn / 16;
      assert FrameOk(t, g);
      var u: Pid :| Maps(t, q, u, g);
      assert Maps(t', q, u, g) && Maps(t', q, v, g);
    }
  }
}
