/** Who is inside together. With the flag looked at again after a wait, only one gender
    ever is, under every schedule. As written, a schedule keeps the genders apart if and
    only if no thread comes back from its wait while the other gender is inside; one that
    hands the bathroom over in batches does. */
module BathroomExclusion {
  import opened Options
  import opened BathroomModel
  import opened BathroomCounts
  import opened BathroomProtocol
  import opened BathroomThreads

  // Thread `t` is of gender `genders[t]` throughout.

  predicate At(genders: seq<Gender>, s: Sim, t: nat, place: Place) {
    t < |genders| && t < |s.threads| && s.threads[t].place == place
  }

  /** All threads inside have one gender. */
  ghost predicate Exclusive(genders: seq<Gender>, s: Sim) {
    forall t: nat, u: nat | At(genders, s, t, Inside) && At(genders, s, u, Inside) :: genders[t] == genders[u]
  }

  /** The flag is the gender inside, and everyone asleep has the other one. */
  ghost predicate Separated(genders: seq<Gender>, s: Sim) {
    && (forall t: nat | At(genders, s, t, Inside) :: genders[t] == s.m.flag)
    && (forall t: nat | At(genders, s, t, Asleep) :: genders[t] != s.m.flag)
  }

  /** The turn is not that of a thread that wakes to find the other gender inside. */
  predicate Polite(genders: seq<Gender>, s: Sim, e: Event) {
    e.Resumes? && e.t < |genders| ==> MayEnter(s.m, genders[e.t])
  }

  lemma NobodyInside(fix: Repairs, s: Sim, total: nat)
    requires Inv(fix, s, total) && s.m.flag == VACANT
    ensures forall t: nat | t < |s.threads| :: s.threads[t].place != Inside
  {
    SomeoneInside(s, total);
  }

  lemma LastOneOut(fix: Repairs, s: Sim, t: nat, total: nat)
    requires Inv(fix, s, total) && Next(fix, s, Departs(t)).Some?
    ensures var s' := Next(fix, s, Departs(t)).value;
      s'.m.flag == VACANT ==> forall u: nat | u < |s'.threads| :: s'.threads[u].place != Inside
  {
    StepKeeps(fix, s, Departs(t), total);
    SomeoneInside(Next(fix, s, Departs(t)).value, total);
  }

  /** A polite step keeps the genders apart. */
  lemma PoliteKeeps(fix: Repairs, genders: seq<Gender>, s: Sim, e: Event, total: nat)
    requires Named(genders, s) && Inv(fix, s, total) && Separated(genders, s) && Next(fix, s, e).Some?
    requires fix.retest || Polite(genders, s, e)
    ensures Separated(genders, Next(fix, s, e).value)
  {
    if s.m.flag == VACANT {
      NobodyInside(fix, s, total);
    }
    if e.Departs? {
      LastOneOut(fix, s, e.t, total);
    }
  }

  lemma SeparatedExclusive(genders: seq<Gender>, s: Sim)
    requires Separated(genders, s)
    ensures Exclusive(genders, s)
  {
  }

  lemma {:induction false} RunSeparated(fix: Repairs, genders: seq<Gender>, s: Sim, es: seq<Event>, total: nat)
    requires fix.retest && Named(genders, s) && Inv(fix, s, total) && Separated(genders, s) && Run(fix, s, es).Some?
    ensures Separated(genders, Run(fix, s, es).value)
    decreases es
  {
    if es != [] {
      StepKeeps(fix, s, es[0], total);
      StepNamed(fix, genders, s, es[0]);
      PoliteKeeps(fix, genders, s, es[0], total);
      RunSeparated(fix, genders, Next(fix, s, es[0]).value, es[1..], total);
    }
  }

  /** With the flag looked at again: in every reachable state those inside have the
      gender of the flag and those asleep the other, spurious wakeups included. */
  lemma GendersStayApart(fix: Repairs, genders: seq<Gender>, loops: seq<nat>, es: seq<Event>)
    requires fix.retest && |genders| == |loops| && Run(fix, Started(fix, genders, loops), es).Some?
    ensures Separated(genders, Run(fix, Started(fix, genders, loops), es).value)
    ensures Exclusive(genders, Run(fix, Started(fix, genders, loops), es).value)
    ensures Named(genders, Run(fix, Started(fix, genders, loops), es).value)
  {
    StartKeeps(fix, genders, loops);
    StartNamed(fix, genders, loops);
    RunNamed(fix, genders, Started(fix, genders, loops), es);
    RunSeparated(fix, genders, Started(fix, genders, loops), es, Loops(loops));
  }

  // ----- as written

  /** The genders are apart in every state of the schedule. */
  ghost predicate AlwaysExclusive(fix: Repairs, genders: seq<Gender>, s: Sim, es: seq<Event>)
    decreases es
  {
    Exclusive(genders, s) && (es != [] && Next(fix, s, es[0]).Some? ==> AlwaysExclusive(fix, genders, Next(fix, s, es[0]).value, es[1..]))
  }

  predicate AlwaysPolite(fix: Repairs, genders: seq<Gender>, s: Sim, es: seq<Event>)
    decreases es
  {
    es != [] ==>
      Polite(genders, s, es[0]) && (Next(fix, s, es[0]).Some? ==> AlwaysPolite(fix, genders, Next(fix, s, es[0]).value, es[1..]))
  }

  lemma RudenessMixes(fix: Repairs, genders: seq<Gender>, s: Sim, e: Event, total: nat)
    requires !fix.retest && Named(genders, s) && Inv(fix, s, total) && Separated(genders, s) && Next(fix, s, e).Some? && !Polite(genders, s, e)
    ensures !Exclusive(genders, Next(fix, s, e).value)
  {
    SomeoneInside(s, total);
    var t: nat :| t < |s.threads| && s.threads[t].place == Inside;
    var s' := Next(fix, s, e).value;
    assert s'.threads[t].place == Inside && s'.threads[e.t].place == Inside;
  }

  lemma {:induction false} ApartExactlyWhenPolite(fix: Repairs, genders: seq<Gender>, s: Sim, es: seq<Event>, total: nat)
    requires !fix.retest && Named(genders, s) && Inv(fix, s, total) && Separated(genders, s) && Run(fix, s, es).Some?
    ensures AlwaysExclusive(fix, genders, s, es) <==> AlwaysPolite(fix, genders, s, es)
    decreases es
  {
    SeparatedExclusive(genders, s);
    if es != [] {
      var s' := Next(fix, s, es[0]).value;
      if Polite(genders, s, es[0]) {
        StepKeeps(fix, s, es[0], total);
        StepNamed(fix, genders, s, es[0]);
        PoliteKeeps(fix, genders, s, es[0], total);
        ApartExactlyWhenPolite(fix, genders, s', es[1..], total);
      } else {
        RudenessMixes(fix, genders, s, es[0], total);
        assert !AlwaysExclusive(fix, genders, s', es[1..]);
      }
    }
  }

  /** Without the second look a schedule keeps the genders apart throughout if and only
      if every thread that comes back from its wait finds the bathroom vacant or its own
      gender inside. */
  lemma AsWrittenApartExactlyWhenPolite(fix: Repairs, genders: seq<Gender>, loops: seq<nat>, es: seq<Event>)
    requires !fix.retest && |genders| == |loops| && Run(fix, Started(fix, genders, loops), es).Some?
    ensures AlwaysExclusive(fix, genders, Started(fix, genders, loops), es) <==> AlwaysPolite(fix, genders, Started(fix, genders, loops), es)
  {
    StartKeeps(fix, genders, loops);
    StartNamed(fix, genders, loops);
    ApartExactlyWhenPolite(fix, genders, Started(fix, genders, loops), es, Loops(loops));
  }

  /** A polite schedule goes the same way with and without the second look. */
  lemma {:induction false} PoliteRunsAgree(fix: Repairs, genders: seq<Gender>, s: Sim, es: seq<Event>)
    requires Named(genders, s) && AlwaysPolite(fix, genders, s, es)
    ensures Run(fix, s, es) == Run(fix.(retest := true), s, es)
    decreases es
  {
    if es != [] {
      assert Next(fix, s, es[0]) == Next(fix.(retest := true), s, es[0]);
      if Next(fix, s, es[0]).Some? {
        StepNamed(fix, genders, s, es[0]);
        PoliteRunsAgree(fix, genders, Next(fix, s, es[0]).value, es[1..]);
      }
    }
  }

  // ----- handing over in batches

  predicate SomeoneWoken(s: Sim) {
    exists t: nat :: t < |s.threads| && s.threads[t].place == Woken
  }

  /** Everyone woken has the lock again before anyone else gets it, and nobody wakes
      without being signalled. */
  predicate InBatches(fix: Repairs, s: Sim, es: seq<Event>)
    decreases es
  {
    es != [] ==>
      && !es[0].Stirs?
      && (SomeoneWoken(s) ==> es[0].Resumes?)
      && (Next(fix, s, es[0]).Some? ==> InBatches(fix, Next(fix, s, es[0]).value, es[1..]))
  }

  /** Those woken have one gender, and it may enter. */
  ghost predicate OneBatch(genders: seq<Gender>, s: Sim) {
    && (forall t: nat | At(genders, s, t, Woken) :: MayEnter(s.m, genders[t]))
    && (forall t: nat, u: nat | At(genders, s, t, Woken) && At(genders, s, u, Woken) :: genders[t] == genders[u])
  }

  lemma BatchKeeps(fix: Repairs, genders: seq<Gender>, s: Sim, e: Event, total: nat)
    requires Named(genders, s) && Inv(fix, s, total) && Separated(genders, s) && OneBatch(genders, s) && Next(fix, s, e).Some?
    requires !e.Stirs? && (SomeoneWoken(s) ==> e.Resumes?)
    ensures OneBatch(genders, Next(fix, s, e).value)
  {
    var s' := Next(fix, s, e).value;
    if !e.Resumes? {
      forall t: nat | At(genders, s', t, Woken) ensures s'.m.flag == VACANT && At(genders, s, t, Asleep) {
      }
    }
  }

  lemma {:induction false} BatchesArePolite(fix: Repairs, genders: seq<Gender>, s: Sim, es: seq<Event>, total: nat)
    requires Named(genders, s) && Inv(fix, s, total) && Separated(genders, s) && OneBatch(genders, s) && Run(fix, s, es).Some? && InBatches(fix, s, es)
    ensures AlwaysPolite(fix, genders, s, es)
    decreases es
  {
    if es != [] {
      StepKeeps(fix, s, es[0], total);
      StepNamed(fix, genders, s, es[0]);
      PoliteKeeps(fix, genders, s, es[0], total);
      BatchKeeps(fix, genders, s, es[0], total);
      BatchesArePolite(fix, genders, Next(fix, s, es[0]).value, es[1..], total);
    }
  }

  /** As written, handing over in batches keeps the genders apart in every state. */
  lemma BatchesKeepApart(fix: Repairs, genders: seq<Gender>, loops: seq<nat>, es: seq<Event>)
    requires !fix.retest && |genders| == |loops|
    requires Run(fix, Started(fix, genders, loops), es).Some? && InBatches(fix, Started(fix, genders, loops), es)
    ensures AlwaysExclusive(fix, genders, Started(fix, genders, loops), es)
  {
    StartKeeps(fix, genders, loops);
    StartNamed(fix, genders, loops);
    BatchesArePolite(fix, genders, Started(fix, genders, loops), es, Loops(loops));
    AsWrittenApartExactlyWhenPolite(fix, genders, loops, es);
  }
}
