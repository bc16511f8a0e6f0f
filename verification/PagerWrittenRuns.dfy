/** Whole sessions of the code as written: they go right, command by command, exactly
    while each command is harmless in the state it meets. */
module PagerWrittenRuns {
  import opened Options
  import opened PagerModel
  import opened PagerTables
  import opened PagerBytes
  import opened PagerEviction
  import opened PagerCommands
  import opened PagerTransparency
  import opened PagerHistory
  import opened PagerPhases
  import opened PagerSoundness
  import opened PagerDepartures
  import opened PagerExactness

  /** Every command of the session is carried out as on flat memory. */
  ghost predicate RunRight(s: State, cs: seq<Command>)
    decreases cs
  {
    cs == [] || (Right(s, cs[0]) && RunRight(Step(AS_WRITTEN, s, cs[0]).value.0, cs[1..]))
  }

  /** Every command is harmless in the state it meets. */
  ghost predicate RunHarmless(s: State, cs: seq<Command>)
    decreases cs
  {
    cs == [] || (Harmless(s, cs[0])
                 && (Step(AS_WRITTEN, s, cs[0]).Some? ==> RunHarmless(Step(AS_WRITTEN, s, cs[0]).value.0, cs[1..])))
  }

  /** No command of the session starts with more than 254 swap lines written. */
  predicate WrittenLinesLast(s: State, cs: seq<Command>)
    decreases cs
  {
    cs != [] ==>
      && |s.swap| + 2 <= 256
      && (Step(AS_WRITTEN, s, cs[0]).Some? ==> WrittenLinesLast(Step(AS_WRITTEN, s, cs[0]).value.0, cs[1..]))
  }

  // ----- between commands

  /** A frame is free only while nothing is on disk. */
  lemma NoLastFrame(s: State, pid: Pid)
    requires Valid(s) && BetweenCommands(s)
    ensures !LastFrame(s, pid)
  {
    if Starting(s) {
      NothingOnDisk(s, pid, 0);
    }
  }

  lemma StartingMapSound(s: State, pid: Pid, vaddr: Vaddr)
    requires Valid(s) && Starting(s) && FreeCount(s) > 0 && MapHarmless(s, pid, vaddr)
    ensures MapSound(s, pid, vaddr)
  {
    NothingOnDisk(s, pid, vaddr / 16);
    TableForMapReady(s, pid);
    if s.hardware[pid].inmem != 1 {
      NewTableUnused(s, TableForMap(REPAIRED, s, pid).value, pid, vaddr / 16);
    }
  }

  /** As long as nothing has gone to disk, harmless is as designed. */
  lemma StartingSound(s: State, c: Command)
    requires Valid(s) && Starting(s) && FreeCount(s) > 0 && Harmless(s, c)
    ensures Sound(s, c)
  {
    NothingOnDisk(s, c.pid, c.vaddr / 16);
    match c
    case Map(pid, vaddr, _) => StartingMapSound(s, pid, vaddr);
    case _ =>
  }

  /** A harmless command is right, and ends between commands again. */
  lemma HarmlessKeeps(s: State, c: Command)
    requires Valid(s) && BetweenCommands(s) && |s.swap| + 2 <= 256 && Harmless(s, c)
    ensures Kept(s, c) && Right(s, c) && BetweenCommands(Step(AS_WRITTEN, s, c).value.0)
  {
    NoLastFrame(s, c.pid);
    RightExactlyWhenHarmless(s, c);
    if FreeCount(s) > 0 {
      StartingSound(s, c);
      SoundAgrees(s, c);
      StepKeepsPhase(s, c);
    }
  }

  // ----- sessions

  /** The code as written carries out a session as flat memory would, answers and pages
      at every step, if and only if each of its commands is harmless. */
  lemma {:induction false} RunRightExactly(s: State, cs: seq<Command>)
    requires Valid(s) && BetweenCommands(s) && WrittenLinesLast(s, cs)
    ensures RunRight(s, cs) <==> RunHarmless(s, cs)
    decreases cs
  {
    if cs != [] {
      NoLastFrame(s, cs[0].pid);
      RightExactlyWhenHarmless(s, cs[0]);
      if Harmless(s, cs[0]) {
        HarmlessKeeps(s, cs[0]);
        RunRightExactly(Step(AS_WRITTEN, s, cs[0]).value.0, cs[1..]);
      }
    }
  }

  lemma {:induction false} RightRunIsFlat(s: State, cs: seq<Command>)
    requires RunRight(s, cs)
    ensures Run(AS_WRITTEN, s, cs).Some?
    ensures (Contents(Run(AS_WRITTEN, s, cs).value.0), Run(AS_WRITTEN, s, cs).value.1) == FlatRun(Contents(s), cs)
    decreases cs
  {
    if cs != [] {
      RightRunIsFlat(Step(AS_WRITTEN, s, cs[0]).value.0, cs[1..]);
    }
  }

  lemma {:induction false} ShortRunsLast(s: State, cs: seq<Command>)
    requires Valid(s) && BetweenCommands(s) && |s.swap| + 2 * |cs| <= 256 && RunHarmless(s, cs)
    ensures WrittenLinesLast(s, cs)
    decreases cs
  {
    if cs != [] {
      HarmlessKeeps(s, cs[0]);
      ShortRunsLast(Step(AS_WRITTEN, s, cs[0]).value.0, cs[1..]);
    }
  }

  /** From the start: a session of harmless commands is answered by its history, every
      load by the byte stored last. */
  lemma HarmlessSessionAnswers(cs: seq<Command>)
    requires WrittenLinesLast(Boot(), cs) && RunHarmless(Boot(), cs)
    ensures Run(AS_WRITTEN, Boot(), cs).Some? && Run(AS_WRITTEN, Boot(), cs).value.1 == Answers(cs)
  {
    BootValid();
    BootBetween();
    RunRightExactly(Boot(), cs);
    RightRunIsFlat(Boot(), cs);
    FlatAnswers(cs);
  }

  /** The lines last for any 128 harmless commands. */
  lemma HarmlessLinesLast(cs: seq<Command>)
    requires |cs| <= 128 && RunHarmless(Boot(), cs)
    ensures WrittenLinesLast(Boot(), cs)
  {
    BootValid();
    BootBetween();
    ShortRunsLast(Boot(), cs);
  }
}
