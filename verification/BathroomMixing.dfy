/** Schedules that go wrong: two that put both genders inside at once when a thread that
    wakes does not look at the flag again, and one after which the histogram of users is
    wrong when an entry after a wait is counted in the last slot. */
module BathroomMixing {
  import opened Options
  import opened BathroomModel
  import opened BathroomCounts
  import opened BathroomProtocol
  import opened BathroomExclusion

  const PAIR: seq<Gender> := [0, 1]
  const LOOPS: seq<nat> := [2, 1]

  /** Thread 0 leaves and is back before thread 1, which it woke, has the lock. */
  const OVERTAKEN := [Arrives(0), Arrives(1), Departs(0), Arrives(0), Resumes(1)]

  /** Thread 1 wakes without being signalled. */
  const UNSIGNALLED := [Arrives(0), Arrives(1), Stirs(1), Resumes(1)]

  function Pair(m: Monitor, p: Place, q: Place, left: nat): Sim {
    Sim(m, [Thread(0, p, left), Thread(1, q, 1)])
  }

  const M0 := Monitor(0, 0, 0, 0, VACANT, [-1, -1, -1], [-1, -1])
  const M1 := Monitor(1, 1, 0, 0, 0, [-1, 0, -1], [-1, -1])
  const M2 := Monitor(1, 1, 1, 1, 0, [-1, 0, -1], [-1, 0])
  const M3 := Monitor(0, 1, 1, 1, VACANT, [-1, 0, -1], [-1, 0])
  const M4 := Monitor(1, 2, 1, 1, 0, [-1, 1, -1], [-1, 0])
  const M5 := Monitor(2, 3, 0, 1, 1, [-1, 1, 0], [-1, 0])

  lemma StartsWith(fix: Repairs)
    requires fix.slots
    ensures Started(fix, PAIR, LOOPS) == Pair(M0, Outside, Outside, 2)
  {
    assert Initial(fix, 2) == M0;
  }

  lemma PairMoved(m: Monitor, p: Place, q: Place, left: nat, place: Place)
    ensures Moved(Pair(m, p, q, left).threads, 0, place) == Pair(m, place, q, left).threads
    ensures Moved(Pair(m, p, q, left).threads, 1, place) == Pair(m, p, place, left).threads
  {
  }

  lemma FirstTwo()
    ensures Next(NO_RETEST, Pair(M0, Outside, Outside, 2), Arrives(0)) == Some(Pair(M1, Inside, Outside, 2))
    ensures Next(NO_RETEST, Pair(M1, Inside, Outside, 2), Arrives(1)) == Some(Pair(M2, Inside, Asleep, 2))
  {
    PairMoved(M0, Outside, Outside, 2, Inside);
    PairMoved(M1, Inside, Outside, 2, Asleep);
    assert M0.barray[1 := 0] == M1.barray;
    assert M1.qarray[1 := 0] == M2.qarray;
  }

  lemma Overtaking()
    ensures Next(NO_RETEST, Pair(M2, Inside, Asleep, 2), Departs(0)) == Some(Pair(M3, Outside, Woken, 1))
    ensures Next(NO_RETEST, Pair(M3, Outside, Woken, 1), Arrives(0)) == Some(Pair(M4, Inside, Woken, 1))
  {
    var s := Pair(M2, Inside, Asleep, 2);
    var ts := s.threads[0 := Thread(0, Outside, 1)];
    assert ts == [Thread(0, Outside, 1), Thread(1, Asleep, 1)];
    assert Broadcast(ts) == [Thread(0, Outside, 1), Thread(1, Woken, 1)];
    assert Depart(M2) == (M3, true);
    PairMoved(M3, Outside, Woken, 1, Inside);
    assert M3.barray[1 := 1] == M4.barray;
  }

  lemma Barging()
    ensures Next(NO_RETEST, Pair(M4, Inside, Woken, 1), Resumes(1)) == Some(Pair(M5, Inside, Inside, 1))
  {
    PairMoved(M4, Inside, Woken, 1, Inside);
    assert M4.barray[2 := 0] == M5.barray;
  }

  lemma RunOne(fix: Repairs, s: Sim, e: Event, s': Sim, es: seq<Event>)
    requires Next(fix, s, e) == Some(s')
    ensures Run(fix, s, [e] + es) == Run(fix, s', es)
  {
    assert ([e] + es)[1..] == es;
  }

  lemma RunEnd(fix: Repairs, s: Sim)
    ensures Run(fix, s, []) == Some(s)
  {
  }

  lemma OvertakenRun()
    ensures Run(NO_RETEST, Started(NO_RETEST, PAIR, LOOPS), OVERTAKEN) == Some(Pair(M5, Inside, Inside, 1))
  {
    StartsWith(NO_RETEST);
    FirstTwo();
    Overtaking();
    Barging();
    RunOne(NO_RETEST, Pair(M0, Outside, Outside, 2), Arrives(0), Pair(M1, Inside, Outside, 2),
           [Arrives(1), Departs(0), Arrives(0), Resumes(1)]);
    RunOne(NO_RETEST, Pair(M1, Inside, Outside, 2), Arrives(1), Pair(M2, Inside, Asleep, 2),
           [Departs(0), Arrives(0), Resumes(1)]);
    RunOne(NO_RETEST, Pair(M2, Inside, Asleep, 2), Departs(0), Pair(M3, Outside, Woken, 1), [Arrives(0), Resumes(1)]);
    RunOne(NO_RETEST, Pair(M3, Outside, Woken, 1), Arrives(0), Pair(M4, Inside, Woken, 1), [Resumes(1)]);
    RunOne(NO_RETEST, Pair(M4, Inside, Woken, 1), Resumes(1), Pair(M5, Inside, Inside, 1), []);
    RunEnd(NO_RETEST, Pair(M5, Inside, Inside, 1));
  }

  /** A thread that comes back to the lock first lets both genders in. */
  lemma OvertakingMixes()
    ensures Run(NO_RETEST, Started(NO_RETEST, PAIR, LOOPS), OVERTAKEN).Some?
    ensures !Exclusive(PAIR, Run(NO_RETEST, Started(NO_RETEST, PAIR, LOOPS), OVERTAKEN).value)
  {
    OvertakenRun();
    assert !Exclusive(PAIR, Pair(M5, Inside, Inside, 1)) by {
      var s := Pair(M5, Inside, Inside, 1);
      assert At(PAIR, s, 0, Inside) && At(PAIR, s, 1, Inside);
    }
  }

  const M6 := Monitor(2, 2, 0, 1, 1, [-1, 0, 0], [-1, 0])

  lemma Stirring()
    ensures Next(NO_RETEST, Pair(M2, Inside, Asleep, 2), Stirs(1)) == Some(Pair(M2, Inside, Woken, 2))
    ensures Next(NO_RETEST, Pair(M2, Inside, Woken, 2), Resumes(1)) == Some(Pair(M6, Inside, Inside, 2))
  {
    PairMoved(M2, Inside, Asleep, 2, Woken);
    PairMoved(M2, Inside, Woken, 2, Inside);
    assert M2.barray[2 := 0] == M6.barray;
  }

  lemma UnsignalledRun()
    ensures Run(NO_RETEST, Started(NO_RETEST, PAIR, LOOPS), UNSIGNALLED) == Some(Pair(M6, Inside, Inside, 2))
  {
    StartsWith(NO_RETEST);
    FirstTwo();
    Stirring();
    RunOne(NO_RETEST, Pair(M0, Outside, Outside, 2), Arrives(0), Pair(M1, Inside, Outside, 2),
           [Arrives(1), Stirs(1), Resumes(1)]);
    RunOne(NO_RETEST, Pair(M1, Inside, Outside, 2), Arrives(1), Pair(M2, Inside, Asleep, 2), [Stirs(1), Resumes(1)]);
    RunOne(NO_RETEST, Pair(M2, Inside, Asleep, 2), Stirs(1), Pair(M2, Inside, Woken, 2), [Resumes(1)]);
    RunOne(NO_RETEST, Pair(M2, Inside, Woken, 2), Resumes(1), Pair(M6, Inside, Inside, 2), []);
    RunEnd(NO_RETEST, Pair(M6, Inside, Inside, 2));
  }

  /** So does a thread that wakes without being signalled. */
  lemma StirringMixes()
    ensures Run(NO_RETEST, Started(NO_RETEST, PAIR, LOOPS), UNSIGNALLED).Some?
    ensures !Exclusive(PAIR, Run(NO_RETEST, Started(NO_RETEST, PAIR, LOOPS), UNSIGNALLED).value)
  {
    UnsignalledRun();
    assert !Exclusive(PAIR, Pair(M6, Inside, Inside, 2)) by {
      var s := Pair(M6, Inside, Inside, 2);
      assert At(PAIR, s, 0, Inside) && At(PAIR, s, 1, Inside);
    }
  }

  // ----- the wrong slot

  /** Thread 1 waits until thread 0 has left, and then enters alone. */
  const WAITED := [Arrives(0), Arrives(1), Departs(0), Resumes(1)]

  /** The end of it: entries made it one inside twice, and two inside never. */
  function AfterWait(fix: Repairs): Monitor {
    Monitor(1, 2, 0, 1, 1, if fix.index then [-1, 1, -1] else [-1, 0, 0], [-1, 0])
  }

  lemma WaitedFirst(fix: Repairs)
    ensures Next(fix, Pair(M0, Outside, Outside, 2), Arrives(0)) == Some(Pair(M1, Inside, Outside, 2))
    ensures Next(fix, Pair(M1, Inside, Outside, 2), Arrives(1)) == Some(Pair(M2, Inside, Asleep, 2))
    ensures Next(fix, Pair(M2, Inside, Asleep, 2), Departs(0)) == Some(Pair(M3, Outside, Woken, 1))
  {
    FirstTwo();
    Overtaking();
  }

  lemma WaitedLast(fix: Repairs)
    ensures Next(fix, Pair(M3, Outside, Woken, 1), Resumes(1)) == Some(Pair(AfterWait(fix), Outside, Inside, 1))
  {
    PairMoved(M3, Outside, Woken, 1, Inside);
    assert M3.barray[1 := 1] == [-1, 1, -1] && M3.barray[2 := 0] == [-1, 0, 0];
  }

  lemma WaitedRun(fix: Repairs)
    requires fix.slots
    ensures Run(fix, Started(fix, PAIR, LOOPS), WAITED) == Some(Pair(AfterWait(fix), Outside, Inside, 1))
  {
    StartsWith(fix);
    WaitedFirst(fix);
    WaitedLast(fix);
    RunOne(fix, Pair(M0, Outside, Outside, 2), Arrives(0), Pair(M1, Inside, Outside, 2), [Arrives(1), Departs(0), Resumes(1)]);
    RunOne(fix, Pair(M1, Inside, Outside, 2), Arrives(1), Pair(M2, Inside, Asleep, 2), [Departs(0), Resumes(1)]);
    RunOne(fix, Pair(M2, Inside, Asleep, 2), Departs(0), Pair(M3, Outside, Woken, 1), [Resumes(1)]);
    RunOne(fix, Pair(M3, Outside, Woken, 1), Resumes(1), Pair(AfterWait(fix), Outside, Inside, 1), []);
    RunEnd(fix, Pair(AfterWait(fix), Outside, Inside, 1));
  }

  /** With a slot for everyone, an entry after a wait is still counted wrongly: the
      histogram says that it came to two inside, when there was never more than one. */
  lemma WaitingMiscounts()
    ensures Run(NO_INDEX, Started(NO_INDEX, PAIR, LOOPS), WAITED).Some?
    ensures Run(NO_INDEX, Started(NO_INDEX, PAIR, LOOPS), WAITED).value.m.barray == [-1, 0, 0]
    ensures Run(REPAIRED, Started(REPAIRED, PAIR, LOOPS), WAITED).Some?
    ensures Run(REPAIRED, Started(REPAIRED, PAIR, LOOPS), WAITED).value.m.barray == [-1, 1, -1]
  {
    WaitedRun(NO_INDEX);
    WaitedRun(REPAIRED);
  }
}
