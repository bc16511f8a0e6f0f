/** Flat memory by its history: what is mapped was mapped last, what is read was stored
    last. Together with the transparency of paging this says, without any memory, what
    every command of a session answers. */
module PagerHistory {
  import opened Options
  import opened PagerModel
  import opened PagerTables
  import opened PagerCommands
  import opened PagerTransparency

  /** The protection that the last map of the page of `vaddr` gave it. */
  function Protection(cs: seq<Command>, pid: Pid, vaddr: Vaddr): Option<Byte> {
    if cs == [] then None
    else
      var c := cs[|cs| - 1];
      if c.Map? && c.pid == pid && c.vaddr / 16 == vaddr / 16 then Some(c.val)
      else Protection(cs[..|cs| - 1], pid, vaddr)
  }

  /** What the last store that was not refused wrote at `vaddr`; 0 if there was none. */
  function LastByte(cs: seq<Command>, pid: Pid, vaddr: Vaddr): Byte {
    if cs == [] then 0
    else
      var c := cs[|cs| - 1];
      if c.Store? && c.pid == pid && c.vaddr == vaddr && Protection(cs[..|cs| - 1], pid, vaddr) == Some(1) then c.val
      else LastByte(cs[..|cs| - 1], pid, vaddr)
  }

  /** The answer to `c` after the commands `cs`. */
  function Answer(cs: seq<Command>, c: Command): Output {
    var protection := Protection(cs, c.pid, c.vaddr);
    match c
    case Map(_, _, _) => MapDone
    case Store(_, _, _) => if protection == Some(1) then Stored else Refused
    case Load(pid, vaddr) => if protection.Some? then Loaded(LastByte(cs, pid, vaddr)) else NoValue
  }

  function Answers(cs: seq<Command>): seq<Output> {
    if cs == [] then [] else Answers(cs[..|cs| - 1]) + [Answer(cs[..|cs| - 1], cs[|cs| - 1])]
  }

  lemma {:induction false} FlatOn(m: FlatMemory, cs: seq<Command>, c: Command)
    ensures FlatRun(m, cs + [c]).0 == FlatStep(FlatRun(m, cs).0, c).0
    ensures FlatRun(m, cs + [c]).1 == FlatRun(m, cs).1 + [FlatStep(FlatRun(m, cs).0, c).1]
    decreases cs
  {
    if cs == [] {
      assert (cs + [c])[1..] == [];
    } else {
      assert (cs + [c])[1..] == cs[1..] + [c];
      FlatOn(FlatStep(m, cs[0]).0, cs[1..], c);
    }
  }

  /** A page of flat memory agrees with the history at one address. */
  predicate Remembers(page: FlatPage, cs: seq<Command>, pid: Pid, vaddr: Vaddr) {
    match page
    case Unmapped => Protection(cs, pid, vaddr) == None && LastByte(cs, pid, vaddr) == 0
    case Mapped(prot, data) => Protection(cs, pid, vaddr) == Some(prot) && LastByte(cs, pid, vaddr) == data[vaddr % 16]
  }

  lemma SamePageIndex(p: Pid, a: Vaddr, q: Pid, b: Vaddr)
    ensures PageIndex(p, a) == PageIndex(q, b) <==> p == q && a / 16 == b / 16
  {
  }

  lemma StepRemembers(m: FlatMemory, cs: seq<Command>, c: Command, pid: Pid, vaddr: Vaddr)
    requires Remembers(m[PageIndex(pid, vaddr)], cs, pid, vaddr)
    ensures Remembers(FlatStep(m, c).0[PageIndex(pid, vaddr)], cs + [c], pid, vaddr)
  {
    assert (cs + [c])[..|cs|] == cs;
    SamePageIndex(c.pid, c.vaddr, pid, vaddr);
  }

  lemma {:induction false} RunRemembers(cs: seq<Command>, pid: Pid, vaddr: Vaddr)
    ensures Remembers(FlatRun(NOTHING_MAPPED, cs).0[PageIndex(pid, vaddr)], cs, pid, vaddr)
  {
    if cs != [] {
      var front, c := cs[..|cs| - 1], cs[|cs| - 1];
      assert cs == front + [c];
      RunRemembers(front, pid, vaddr);
      FlatOn(NOTHING_MAPPED, front, c);
      StepRemembers(FlatRun(NOTHING_MAPPED, front).0, front, c, pid, vaddr);
    }
  }

  lemma AnswerRemembered(m: FlatMemory, cs: seq<Command>, c: Command)
    requires Remembers(m[PageIndex(c.pid, c.vaddr)], cs, c.pid, c.vaddr)
    ensures FlatStep(m, c).1 == Answer(cs, c)
  {
  }

  lemma {:induction false} FlatAnswers(cs: seq<Command>)
    ensures FlatRun(NOTHING_MAPPED, cs).1 == Answers(cs)
  {
    if cs != [] {
      var front, c := cs[..|cs| - 1], cs[|cs| - 1];
      assert cs == front + [c];
      FlatAnswers(front);
      FlatOn(NOTHING_MAPPED, front, c);
      RunRemembers(front, c.pid, c.vaddr);
      AnswerRemembered(FlatRun(NOTHING_MAPPED, front).0, front, c);
    }
  }

  /** Every load of a mapped page gives the byte stored there last, or 0; a store is
      taken exactly on a page whose last map made it writeable; however much of it all
      went to disk and back. */
  lemma PagingAnswersByHistory(cs: seq<Command>)
    requires LinesLast(Boot(), cs)
    ensures Run(REPAIRED, Boot(), cs).Some?
    ensures Run(REPAIRED, Boot(), cs).value.1 == Answers(cs)
  {
    PagingIsTransparent(cs);
    FlatAnswers(cs);
  }
}
