/** Every schedule ends, and ends well: nobody is lost in the queue, some thread can
    always go on, only so many steps are possible, and when no thread has a step left
    the bathroom is vacant and every loop was counted. As written or repaired. */
module BathroomEnds {
  import opened Options
  import opened BathroomModel
  import opened BathroomCounts
  import opened BathroomProtocol

  // ----- somebody can go on

  /** A thread can take its next step by itself. */
  predicate CanGo(s: Sim, t: nat) {
    && t < |s.threads|
    && s.threads[t].place != Asleep
    && !Finished(s.threads[t])
  }

  /** The step of such a thread. */
  function Turn(s: Sim, t: nat): (e: Event)
    requires CanGo(s, t)
  {
    match s.threads[t].place
    case Outside => Arrives(t)
    case Woken => Resumes(t)
    case Inside => Departs(t)
  }

  predicate AllFinished(s: Sim) {
    forall t: nat | t < |s.threads| :: Finished(s.threads[t])
  }

  /** No deadlock: while a thread is unfinished some thread can go on, and its step
      stays within the arrays when those have a slot for everyone. */
  lemma SomeoneCanGo(fix: Repairs, s: Sim, total: nat) returns (t: nat)
    requires Inv(fix, s, total) && !AllFinished(s)
    ensures CanGo(s, t) && Enabled(s, Turn(s, t))
    ensures fix.slots ==> Next(fix, s, Turn(s, t)).Some?
  {
    t :| t < |s.threads| && !Finished(s.threads[t]);
    if s.threads[t].place == Asleep {
      SomeoneInside(s, total);
      t :| t < |s.threads| && s.threads[t].place == Inside;
    }
    StepsInBounds(fix, s, Turn(s, t), total);
  }

  // ----- how long it can last

  /** How many steps are left at most, spurious wakeups aside: each departure can send
      one thread outside and wake all others. */
  function Measure(s: Sim): nat {
    Left(s.threads) * (|s.threads| + 1) + Count(s.threads, {Outside, Woken})
  }

  lemma DepartureMeasure(left: nat, left': nat, n: nat, c: nat, c': nat)
    requires left == left' + 1 && c' <= n
    ensures left' * (n + 1) + c' < left * (n + 1) + c
  {
    assert left * (n + 1) == left' * (n + 1) + (n + 1);
  }

  lemma DepartureLowers(fix: Repairs, s: Sim, t: nat)
    requires Next(fix, s, Departs(t)).Some?
    ensures Measure(Next(fix, s, Departs(t)).value) < Measure(s)
  {
    var th := s.threads[t];
    var s' := Next(fix, s, Departs(t)).value;
    var ts := s.threads[t := th.(place := Outside, left := th.left - 1)];
    LeftUpdate(s.threads, t, ts[t]);
    LeftBroadcast(ts);
    DepartureMeasure(Left(s.threads), Left(s'.threads), |s.threads|,
                     Count(s.threads, {Outside, Woken}), Count(s'.threads, {Outside, Woken}));
  }

  lemma StepLowers(fix: Repairs, s: Sim, e: Event)
    requires Next(fix, s, e).Some?
    ensures if e.Stirs? then Measure(Next(fix, s, e).value) == Measure(s) + 1
      else Measure(Next(fix, s, e).value) < Measure(s)
  {
    if e.Departs? {
      DepartureLowers(fix, s, e.t);
    } else {
      var s' := Next(fix, s, e).value;
      LeftUpdate(s.threads, e.t, s'.threads[e.t]);
      CountUpdate(s.threads, e.t, s'.threads[e.t], {Outside, Woken});
    }
  }

  function Stirrings(es: seq<Event>): nat {
    if es == [] then 0 else One(es[0].Stirs?) + Stirrings(es[1..])
  }

  lemma {:induction false} RunLowers(fix: Repairs, s: Sim, es: seq<Event>)
    requires Run(fix, s, es).Some?
    ensures |es| + Measure(Run(fix, s, es).value) <= Measure(s) + 2 * Stirrings(es)
    decreases es
  {
    if es != [] {
      StepLowers(fix, s, es[0]);
      RunLowers(fix, Next(fix, s, es[0]).value, es[1..]);
    }
  }

  // ----- how it ends

  lemma {:induction false} FinishedCounts(ts: seq<Thread>)
    requires forall t: nat | t < |ts| :: Finished(ts[t])
    ensures Users(ts) == 0 && Queued(ts) == 0 && Left(ts) == 0
  {
    if ts != [] {
      FinishedCounts(ts[..|ts| - 1]);
    }
  }

  lemma EndState(fix: Repairs, s: Sim, total: nat)
    requires Inv(fix, s, total) && forall t: nat | t < |s.threads| :: !CanGo(s, t)
    ensures AllFinished(s)
    ensures s.m.users == 0 && s.m.quers == 0 && s.m.flag == VACANT && s.m.uses == total
  {
    if !AllFinished(s) {
      var t := SomeoneCanGo(fix, s, total);
      assert false;
    }
    FinishedCounts(s.threads);
  }

  /** Whatever the schedule, it has a bounded number of steps, spurious wakeups aside;
      and when it can go no further every thread has finished, the bathroom is vacant,
      the queue is empty and the uses are the loops of all threads. */
  lemma EveryScheduleEnds(fix: Repairs, genders: seq<Gender>, loops: seq<nat>, es: seq<Event>)
    requires |genders| == |loops| && Run(fix, Started(fix, genders, loops), es).Some?
    ensures |es| <= Loops(loops) * (|loops| + 1) + |loops| + 2 * Stirrings(es)
    ensures var s := Run(fix, Started(fix, genders, loops), es).value;
      (forall t: nat | t < |s.threads| :: !CanGo(s, t)) ==>
        && AllFinished(s)
        && s.m.users == 0 && s.m.quers == 0 && s.m.flag == VACANT && s.m.uses == Loops(loops)
  {
    var s0 := Started(fix, genders, loops);
    ReachableKeeps(fix, genders, loops, es);
    StartCounts(genders, loops, s0.threads);
    RunLowers(fix, s0, es);
    var s := Run(fix, s0, es).value;
    if forall t: nat | t < |s.threads| :: !CanGo(s, t) {
      EndState(fix, s, Loops(loops));
    }
  }

  lemma RunOn(fix: Repairs, s: Sim, e: Event, es: seq<Event>)
    requires Next(fix, s, e).Some?
    ensures Run(fix, s, [e] + es) == Run(fix, Next(fix, s, e).value, es)
  {
    assert ([e] + es)[1..] == es;
  }

  /** From every state on, all threads can finish without another spurious wakeup. */
  lemma {:induction false} CanFinish(fix: Repairs, s: Sim, total: nat) returns (es: seq<Event>)
    requires fix.slots && Inv(fix, s, total)
    ensures Run(fix, s, es).Some? && AllFinished(Run(fix, s, es).value)
    ensures Stirrings(es) == 0
    decreases Measure(s)
  {
    if AllFinished(s) {
      es := [];
    } else {
      var t := SomeoneCanGo(fix, s, total);
      var e := Turn(s, t);
      StepKeeps(fix, s, e, total);
      StepLowers(fix, s, e);
      var rest := CanFinish(fix, Next(fix, s, e).value, total);
      es := [e] + rest;
      RunOn(fix, s, e, rest);
      assert es[1..] == rest;
    }
  }
}
