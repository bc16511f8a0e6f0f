/** The bathroom itself: shared counters and arrays, each routine a critical section that
    updates them in place, and the simulation that gives threads the lock in any order.
    Every method computes what `BathroomModel` says; where that is `None` the C code
    writes outside an array, so the method may not be called. */
module BathroomMonitor {
  import opened Options
  import opened BathroomModel
  import opened BathroomCounts
  import opened BathroomProtocol
  import opened BathroomThreads
  import opened BathroomEnds

  class Bathroom {
    const fix: Repairs
    const size: nat  // the number of threads
    var users: int
    var uses: int
    var quers: int
    var ques: int
    var flag: int
    const barray: array<int>
    const qarray: array<int>

    ghost function Repr(): set<object> {
      {this, barray, qarray}
    }

    ghost predicate Valid() {
      barray != qarray
    }

    ghost function Now(): Monitor
      reads this, Repr()
    {
      Monitor(users, uses, quers, ques, flag, barray[..], qarray[..])
    }

    /** Every cell of both histograms starts one below zero. */
    constructor Initialize(fix: Repairs, size: nat)
      ensures Valid() && fresh(Repr()) && this.fix == fix && this.size == size
      ensures Now() == Initial(fix, size)
    {
      this.fix := fix;
      this.size := size;
      users, uses, quers, ques := 0, 0, 0, 0;
      flag := VACANT;
      barray := new int[if fix.slots then size + 1 else size];
      qarray := new int[size];
      new;
      var i := 0;
      while i < size
        invariant 0 <= i <= size
        invariant forall k :: 0 <= k < i ==> barray[k] == -1 && qarray[k] == -1
        invariant users == uses == quers == ques == 0 && flag == VACANT
      {
        barray[i] := -1;
        qarray[i] := -1;
        i := i + 1;
      }
      if fix.slots {
        barray[size] := -1;
      }
    }

    method Count(a: array<int>, i: int)
      requires Counted(a[..], i).Some?
      modifies a
      ensures Counted(old(a[..]), i) == Some(a[..])
    {
      a[i] := a[i] + 1;
    }

    /** `Enter` up to the wait. */
    method Enter(g: Gender) returns (wait: bool)
      requires Valid() && Arrive(Now(), g).Some?
      modifies Repr()
      ensures Arrive(old(Now()), g) == Some((Now(), wait))
    {
      wait := true;
      if flag == VACANT {
        flag := g;
        users := users + 1;
        uses := uses + 1;
        Count(barray, users);
        wait := false;
      } else if flag == g {
        uses := uses + 1;
        users := users + 1;
        Count(barray, users);
        wait := false;
      }
      if wait {
        quers := quers + 1;
        ques := ques + 1;
        Count(qarray, quers);
      }
    }

    /** `Enter` from the moment a woken thread has the lock again. */
    method Reenter(g: Gender) returns (wait: bool)
      requires Valid() && Resume(fix, Now(), g, size).Some?
      modifies Repr()
      ensures Resume(fix, old(Now()), g, size) == Some((Now(), wait))
    {
      if fix.retest && flag != VACANT && flag != g {
        return true;
      }
      flag := g;
      users := users + 1;
      if fix.index {
        Count(barray, users);
      } else {
        Count(barray, size);
      }
      uses := uses + 1;
      quers := quers - 1;
      return false;
    }

    method Leave() returns (broadcast: bool)
      requires Valid()
      modifies this
      ensures (Now(), broadcast) == Depart(old(Now()))
    {
      users := users - 1;
      broadcast := false;
      if users <= 0 {
        flag := VACANT;
        broadcast := true;
      }
    }
  }

  class Simulation {
    const bathroom: Bathroom
    const threads: array<Thread>

    ghost function Repr(): set<object> {
      {this, threads} + bathroom.Repr()
    }

    ghost predicate Valid() {
      bathroom.Valid() && threads as object !in bathroom.Repr() && bathroom.size == threads.Length
    }

    ghost function Now(): Sim
      reads threads, bathroom, bathroom.Repr()
    {
      Sim(bathroom.Now(), threads[..])
    }

    /** One thread for each gender and loop count. */
    constructor (fix: Repairs, genders: seq<Gender>, loops: seq<nat>)
      requires |genders| == |loops|
      ensures Valid() && fresh(Repr()) && bathroom.fix == fix
      ensures Now() == Started(fix, genders, loops)
    {
      var b := new Bathroom.Initialize(fix, |genders|);
      var ts := new Thread[|genders|](_ => Thread(0, Outside, 0));
      var i := 0;
      while i < |genders|
        invariant 0 <= i <= |genders| && fresh(ts) && ts as object !in b.Repr()
        invariant forall k :: 0 <= k < i ==> ts[k] == Thread(genders[k], Outside, loops[k])
        invariant b.Now() == Initial(fix, |genders|)
      {
        ts[i] := Thread(genders[i], Outside, loops[i]);
        i := i + 1;
      }
      bathroom := b;
      threads := ts;
    }

    method Wake()
      modifies threads
      ensures threads[..] == Broadcast(old(threads[..]))
    {
      var i := 0;
      while i < threads.Length
        invariant 0 <= i <= threads.Length
        invariant forall k :: 0 <= k < threads.Length ==>
          threads[k] == if k < i then Roused(old(threads[k])) else old(threads[k])
      {
        threads[i] := Roused(threads[i]);
        i := i + 1;
      }
    }

    method Place(t: nat, waits: bool)
      requires t < threads.Length
      modifies threads
      ensures threads[..] == Entered(old(threads[..]), t, waits)
    {
      threads[t] := threads[t].(place := if waits then Asleep else Inside);
    }

    /** Thread `t` wakes without being signalled. */
    method Stir(t: nat) returns (e: Event)
      requires Valid() && Enabled(Now(), Stirs(t))
      modifies threads
      ensures e == Stirs(t) && Next(bathroom.fix, old(Now()), e) == Some(Now())
    {
      threads[t] := threads[t].(place := Woken);
      e := Stirs(t);
    }

    /** A turn of any thread that is not asleep, or, if `stir` asks for it, a wakeup of one
        that is. */
    method AnyTurn(stir: bool, ghost total: nat) returns (e: Event)
      requires Valid() && bathroom.fix.slots && Inv(bathroom.fix, Now(), total)
      requires exists t: nat :: t < threads.Length && !Finished(threads[t])
      modifies Repr()
      ensures Next(bathroom.fix, old(Now()), e) == Some(Now()) && (e.Stirs? ==> stir)
    {
      if stir && exists t: nat :: t < threads.Length && threads[t].place == Asleep {
        var t: nat :| t < threads.Length && threads[t].place == Asleep;
        e := Stir(t);
      } else {
        ghost var someone := SomeoneCanGo(bathroom.fix, Now(), total);
        assert threads[someone].place != Asleep && !Finished(threads[someone]);
        var t: nat :| t < threads.Length && threads[t].place != Asleep && !Finished(threads[t]);
        GoesOn(bathroom.fix, Now(), t, total);
        e := Go(t);
      }
    }

    /** Give thread `t` the lock. */
    method Go(t: nat) returns (e: Event)
      requires Valid() && CanGo(Now(), t) && Next(bathroom.fix, Now(), Turn(Now(), t)).Some?
      modifies Repr()
      ensures e == Turn(old(Now()), t)
      ensures Next(bathroom.fix, old(Now()), e) == Some(Now())
    {
      match threads[t].place
      case Outside =>
        e := Arrives(t);
        var waits := bathroom.Enter(threads[t].gender);
        Place(t, waits);
      case Woken =>
        e := Resumes(t);
        var waits := bathroom.Reenter(threads[t].gender);
        Place(t, waits);
      case Inside =>
        e := Departs(t);
        var broadcast := bathroom.Leave();
        threads[t] := threads[t].(place := Outside, left := threads[t].left - 1);
        if broadcast {
          Wake();
        }
    }
  }

  lemma {:induction false} RunThen(fix: Repairs, s: Sim, es: seq<Event>, e: Event)
    requires Run(fix, s, es).Some?
    ensures Run(fix, s, es + [e]) == Next(fix, Run(fix, s, es).value, e)
    decreases es
  {
    if es == [] {
      assert (es + [e])[1..] == [];
    } else {
      assert (es + [e])[1..] == es[1..] + [e];
      RunThen(fix, Next(fix, s, es[0]).value, es[1..], e);
    }
  }

  /** The whole simulation, under any scheduler and with up to `stirs` wakeups that nobody
      signalled: it ends, having run some schedule, with a vacant bathroom, an empty
      queue, every loop counted as a use and every thread out as often as it was to be. */
  method Simulate(fix: Repairs, genders: seq<Gender>, loops: seq<nat>, stirs: nat)
      returns (sim: Simulation, ghost schedule: seq<Event>)
    requires fix.slots && |genders| == |loops|
    ensures Run(fix, Started(fix, genders, loops), schedule) == Some(sim.Now())
    ensures Stirrings(schedule) <= stirs
    ensures AllFinished(sim.Now())
    ensures sim.bathroom.users == 0 && sim.bathroom.quers == 0 && sim.bathroom.flag == VACANT
    ensures sim.bathroom.uses == Loops(loops)
    ensures Served(schedule, sim.Now(), genders, loops)
  {
    sim := new Simulation(fix, genders, loops);
    schedule := [];
    var left := stirs;
    ghost var start := sim.Now();
    StartKeeps(fix, genders, loops);
    while exists t: nat :: t < sim.threads.Length && !Finished(sim.threads[t])
      invariant sim.Valid() && fresh(sim.Repr()) && sim.bathroom.fix == fix
      invariant Run(fix, start, schedule) == Some(sim.Now())
      invariant Inv(fix, sim.Now(), Loops(loops))
      invariant 0 <= left <= stirs && Stirrings(schedule) == stirs - left
      decreases Measure(sim.Now()) + 2 * left
    {
      ghost var s := sim.Now();
      var stir: bool := *;
      var e := sim.AnyTurn(stir && left > 0, Loops(loops));
      if e.Stirs? {
        left := left - 1;
      }
      StirringsThen(schedule, e);
      StepKeeps(fix, s, e, Loops(loops));
      StepLowers(fix, s, e);
      RunThen(fix, start, schedule, e);
      schedule := schedule + [e];
    }
    EndState(fix, sim.Now(), Loops(loops));
    AllServed(fix, genders, loops, schedule, sim.Now());
  }

  /** Each thread is of the gender it started with and has left as often as it was to. */
  ghost predicate Served(es: seq<Event>, s: Sim, genders: seq<Gender>, loops: seq<nat>)
    requires |genders| == |loops|
  {
    Named(genders, s) && forall t: nat | t < |loops| :: Departures(es, t) == loops[t]
  }

  lemma AllServed(fix: Repairs, genders: seq<Gender>, loops: seq<nat>, es: seq<Event>, s: Sim)
    requires |genders| == |loops| && Run(fix, Started(fix, genders, loops), es) == Some(s) && AllFinished(s)
    ensures Served(es, s, genders, loops)
  {
    StartNamed(fix, genders, loops);
    RunNamed(fix, genders, Started(fix, genders, loops), es);
    forall t: nat | t < |loops| ensures Departures(es, t) == loops[t] {
      ThreadsStayThemselves(fix, genders, loops, es, t);
    }
  }

  lemma {:induction false} StirringsThen(es: seq<Event>, e: Event)
    ensures Stirrings(es + [e]) == Stirrings(es) + One(e.Stirs?)
  {
    if es == [] {
      assert (es + [e])[1..] == [];
    } else {
      assert (es + [e])[1..] == es[1..] + [e];
      StirringsThen(es[1..], e);
    }
  }

  lemma GoesOn(fix: Repairs, s: Sim, t: nat, total: nat)
    requires fix.slots && Inv(fix, s, total) && CanGo(s, t)
    ensures Next(fix, s, Turn(s, t)).Some? && !Turn(s, t).Stirs?
  {
    StepsInBounds(fix, s, Turn(s, t), total);
  }
}
