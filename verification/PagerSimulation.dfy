/** Whole sessions on the simulator itself: the arrays, the loops and the text swap
    file answer as flat memory does. */
module PagerSimulation {
  import opened Options
  import opened PagerModel
  import opened PagerTables
  import opened PagerBytes
  import opened PagerCommands
  import opened PagerTransparency
  import opened PagerPhases
  import opened PagerDepartures
  import opened PagerExactness
  import opened PagerSpoils
  import opened PagerWrittenRuns
  import opened PagerMachine
  import opened SwapText

  lemma OwnFound(s: State, pid: Pid)
    requires Valid(s)
    ensures OwnIsTable(s, pid)
  {
    forall f: Pid | IsOwnTable(s, pid, f) ensures IsTable(s, f) {
      assert PointerOk(ViewOf(s), pid);
    }
  }

  /** Between commands the loops of `freespace` find what they rely on. */
  lemma LoopsReady(s: State, pid: Pid)
    requires Valid(s) && BetweenCommands(s)
    ensures OwnIsTable(s, pid) && MapReady(s, pid)
  {
    OwnFound(s, pid);
    if AllTables(s) {
      ValidArrays(s);
      FourTables(s, pid);
    }
  }

  method Execute(machine: Machine, c: Command) returns (out: Output)
    requires machine.Valid() && machine.linecount + 1 < INT_MAX
    requires OwnIsTable(machine.Now(), c.pid) && MapReady(machine.Now(), c.pid)
    requires Step(machine.fix, machine.Now(), c).Some?
    modifies machine.Repr()
    ensures machine.Valid() && Step(machine.fix, old(machine.Now()), c) == Some((machine.Now(), out))
  {
    match c
    case Map(pid, vaddr, val) => out := machine.Map(pid, vaddr, val);
    case Store(pid, vaddr, val) => out := machine.Store(pid, vaddr, val);
    case Load(pid, vaddr) => out := machine.Load(pid, vaddr);
  }

  /** The repaired simulator carries out every command, the one as written those that
      are harmless; lines are counted in an int. */
  ghost predicate Promised(fix: Repairs, s: State, cs: seq<Command>) {
    || (fix == REPAIRED && LinesLast(s, cs) && |s.swap| + 2 * |cs| <= INT_MAX)
    || (fix == AS_WRITTEN && WrittenLinesLast(s, cs) && RunHarmless(s, cs))
  }

  /** Between commands, with `cs` still to come, flat memory would answer `outs`. */
  ghost predicate Rests(fix: Repairs, s: State, cs: seq<Command>, outs: seq<Output>) {
    && Valid(s) && BetweenCommands(s) && Promised(fix, s, cs)
    && outs == FlatRun(Contents(s), cs).1
  }

  lemma PromisedStep(fix: Repairs, s: State, cs: seq<Command>)
    requires Valid(s) && BetweenCommands(s) && cs != [] && Promised(fix, s, cs)
    ensures |s.swap| + 2 <= INT_MAX && Step(fix, s, cs[0]).Some?
    ensures var (s', out) := Step(fix, s, cs[0]).value;
      && Valid(s') && BetweenCommands(s') && Promised(fix, s', cs[1..])
      && (Contents(s'), out) == FlatStep(Contents(s), cs[0])
  {
    if fix == AS_WRITTEN {
      HarmlessKeeps(s, cs[0]);
    } else {
      TwoLines(s, cs[0]);
      StepRefines(s, cs[0]);
      StepKeepsPhase(s, cs[0]);
    }
  }

  lemma SessionStep(fix: Repairs, s: State, cs: seq<Command>, outs: seq<Output>)
    requires cs != [] && Rests(fix, s, cs, outs)
    ensures |s.swap| + 2 <= INT_MAX && OwnIsTable(s, cs[0].pid) && MapReady(s, cs[0].pid) && Step(fix, s, cs[0]).Some?
    ensures outs != [] && outs[0] == Step(fix, s, cs[0]).value.1
    ensures Rests(fix, Step(fix, s, cs[0]).value.0, cs[1..], outs[1..])
  {
    LoopsReady(s, cs[0].pid);
    PromisedStep(fix, s, cs);
  }

  lemma SessionStarts(fix: Repairs, cs: seq<Command>)
    requires Promised(fix, Boot(), cs)
    ensures Rests(fix, Boot(), cs, FlatRun(NOTHING_MAPPED, cs).1)
  {
    BootValid();
    BootBetween();
  }

  lemma SessionEnds(fix: Repairs, s: State, outs: seq<Output>)
    requires Rests(fix, s, [], outs)
    ensures outs == []
  {
  }

  /** The next command of a session. */
  method Proceed(machine: Machine, cs: seq<Command>, ghost outs: seq<Output>) returns (out: Output)
    requires machine.Valid() && cs != [] && Rests(machine.fix, machine.Now(), cs, outs)
    modifies machine.Repr()
    ensures machine.Valid() && outs != [] && out == outs[0]
    ensures Rests(machine.fix, machine.Now(), cs[1..], outs[1..])
  {
    SessionStep(machine.fix, machine.Now(), cs, outs);
    out := Execute(machine, cs[0]);
  }

  /** A session, on the repaired simulator or, if each command is harmless, on the one as
      written. Swap line numbers last for it, as they do for any 128 commands. */
  method Session(fix: Repairs, cs: seq<Command>) returns (outs: seq<Output>)
    requires Promised(fix, Boot(), cs)
    ensures outs == FlatRun(NOTHING_MAPPED, cs).1
  {
    var machine := new Machine(fix);
    ghost var promised := FlatRun(NOTHING_MAPPED, cs).1;
    ghost var left := promised;
    SessionStarts(fix, cs);
    var rest := cs;
    outs := [];
    while rest != []
      invariant fresh(machine.Repr()) && machine.Valid() && machine.fix == fix
      invariant Rests(fix, machine.Now(), rest, left)
      invariant promised == outs + left
      decreases |rest|
    {
      var out := Proceed(machine, rest, left);
      outs := outs + [out];
      rest := rest[1..];
      left := left[1..];
    }
    SessionEnds(fix, machine.Now(), left);
  }
}
