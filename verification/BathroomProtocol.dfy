/** What every step of every schedule keeps, as written or repaired: the counters are
    the true counts, the flag is VACANT exactly when nobody is inside, nobody sleeps
    beside an empty bathroom, and both histograms add up. */
module BathroomProtocol {
  import opened Options
  import opened BathroomModel
  import opened BathroomCounts

  /** The counters against the threads; every entry is either still inside or has been
      paid for by one of the `total` departures. */
  ghost predicate Tallied(s: Sim, total: nat) {
    && s.m.users == Users(s.threads)
    && s.m.quers == Queued(s.threads)
    && s.m.uses + Left(s.threads) == total + s.m.users
  }

  predicate FlagTrue(m: Monitor) {
    -1 <= m.flag < 2 && m.users >= 0 && (m.flag == VACANT <==> m.users == 0)
  }

  predicate NobodyForgotten(s: Sim) {
    forall t: nat | t < |s.threads| && s.threads[t].place == Asleep :: s.m.flag != VACANT
  }

  predicate Busy(ts: seq<Thread>) {
    forall t: nat | t < |ts| && ts[t].place != Outside :: ts[t].left > 0
  }

  predicate Cells(a: seq<int>, counted: int) {
    Sum(a) + |a| == counted && forall i | 0 <= i < |a| :: a[i] >= -1
  }

  predicate Histograms(fix: Repairs, m: Monitor, n: nat) {
    && |m.barray| == (if fix.slots then n + 1 else n) && Cells(m.barray, m.uses)
    && |m.qarray| == n && Cells(m.qarray, m.ques)
  }

  ghost predicate Inv(fix: Repairs, s: Sim, total: nat) {
    && Tallied(s, total) && FlagTrue(s.m) && NobodyForgotten(s) && Busy(s.threads)
    && Histograms(fix, s.m, |s.threads|)
  }

  // ----- one step

  lemma CountedCells(a: seq<int>, i: int, counted: int)
    requires Cells(a, counted) && Counted(a, i).Some?
    ensures |Counted(a, i).value| == |a| && Cells(Counted(a, i).value, counted + 1)
  {
    SumUpdate(a, i, a[i] + 1);
  }

  lemma SomeoneInside(s: Sim, total: nat)
    requires Tallied(s, total) && FlagTrue(s.m)
    ensures s.m.flag != VACANT <==> exists t: nat :: t < |s.threads| && s.threads[t].place == Inside
  {
    CountSome(s.threads, {Inside});
    if t: nat :| t < |s.threads| && s.threads[t].place in {Inside} {
      assert s.threads[t].place == Inside;
    }
    if t: nat :| t < |s.threads| && s.threads[t].place == Inside {
      assert s.threads[t].place in {Inside};
    }
  }

  lemma ThreadMoved(ts: seq<Thread>, t: nat, th: Thread)
    requires t < |ts|
    ensures Users(ts[t := th]) + One(ts[t].place == Inside) == Users(ts) + One(th.place == Inside)
    ensures Queued(ts[t := th]) + One(ts[t].place in {Asleep, Woken}) == Queued(ts) + One(th.place in {Asleep, Woken})
    ensures Left(ts[t := th]) + ts[t].left == Left(ts) + th.left
  {
    CountUpdate(ts, t, th, {Inside});
    CountUpdate(ts, t, th, {Asleep, Woken});
    LeftUpdate(ts, t, th);
  }

  lemma AllRoused(ts: seq<Thread>)
    ensures Users(Broadcast(ts)) == Users(ts) && Queued(Broadcast(ts)) == Queued(ts) && Left(Broadcast(ts)) == Left(ts)
  {
    CountBroadcast(ts, {Inside});
    CountBroadcast(ts, {Asleep, Woken});
    LeftBroadcast(ts);
  }

  lemma ArrivesCounts(fix: Repairs, s: Sim, t: nat, total: nat)
    requires Histograms(fix, s.m, |s.threads|) && Next(fix, s, Arrives(t)).Some?
    ensures Histograms(fix, Next(fix, s, Arrives(t)).value.m, |s.threads|)
  {
    if Arrive(s.m, s.threads[t].gender).value.1 {
      CountedCells(s.m.qarray, s.m.quers + 1, s.m.ques);
    } else {
      CountedCells(s.m.barray, s.m.users + 1, s.m.uses);
    }
  }

  lemma ArrivesTallies(fix: Repairs, s: Sim, t: nat, total: nat)
    requires Tallied(s, total) && Next(fix, s, Arrives(t)).Some?
    ensures Tallied(Next(fix, s, Arrives(t)).value, total)
  {
    var (m, waits) := Arrive(s.m, s.threads[t].gender).value;
    ThreadMoved(s.threads, t, s.threads[t].(place := if waits then Asleep else Inside));
  }

  lemma ArrivesKeeps(fix: Repairs, s: Sim, t: nat, total: nat)
    requires Inv(fix, s, total) && Next(fix, s, Arrives(t)).Some?
    ensures Inv(fix, Next(fix, s, Arrives(t)).value, total)
  {
    ArrivesTallies(fix, s, t, total);
    ArrivesCounts(fix, s, t, total);
  }

  lemma ResumesKeeps(fix: Repairs, s: Sim, t: nat, total: nat)
    requires Inv(fix, s, total) && Next(fix, s, Resumes(t)).Some?
    ensures Inv(fix, Next(fix, s, Resumes(t)).value, total)
  {
    var (m, waits) := Resume(fix, s.m, s.threads[t].gender, |s.threads|).value;
    ThreadMoved(s.threads, t, s.threads[t].(place := if waits then Asleep else Inside));
    if !waits {
      CountedCells(s.m.barray, if fix.index then s.m.users + 1 else |s.threads|, s.m.uses);
    }
  }

  lemma DepartsKeeps(fix: Repairs, s: Sim, t: nat, total: nat)
    requires Inv(fix, s, total) && Next(fix, s, Departs(t)).Some?
    ensures Inv(fix, Next(fix, s, Departs(t)).value, total)
  {
    var th := s.threads[t];
    var ts := s.threads[t := th.(place := Outside, left := th.left - 1)];
    ThreadMoved(s.threads, t, ts[t]);
    AllRoused(ts);
  }

  lemma StirsKeeps(fix: Repairs, s: Sim, t: nat, total: nat)
    requires Inv(fix, s, total) && Next(fix, s, Stirs(t)).Some?
    ensures Inv(fix, Next(fix, s, Stirs(t)).value, total)
  {
    ThreadMoved(s.threads, t, s.threads[t].(place := Woken));
  }

  /** Whatever thread has its turn, the invariant is kept. */
  lemma StepKeeps(fix: Repairs, s: Sim, e: Event, total: nat)
    requires Inv(fix, s, total) && Next(fix, s, e).Some?
    ensures Inv(fix, Next(fix, s, e).value, total)
  {
    match e
    case Arrives(t) => ArrivesKeeps(fix, s, t, total);
    case Resumes(t) => ResumesKeeps(fix, s, t, total);
    case Departs(t) => DepartsKeeps(fix, s, t, total);
    case Stirs(t) => StirsKeeps(fix, s, t, total);
  }

  // ----- whole schedules

  /** Every thread's loop count, added up. */
  function Loops(loops: seq<nat>): nat {
    if loops == [] then 0 else Loops(loops[..|loops| - 1]) + loops[|loops| - 1]
  }

  lemma {:induction false} StartCounts(genders: seq<Gender>, loops: seq<nat>, ts: seq<Thread>)
    requires |genders| == |loops| == |ts|
    requires forall i | 0 <= i < |ts| :: ts[i] == Thread(genders[i], Outside, loops[i])
    ensures Users(ts) == 0 && Queued(ts) == 0 && Left(ts) == Loops(loops)
  {
    if ts != [] {
      StartCounts(genders[..|ts| - 1], loops[..|ts| - 1], ts[..|ts| - 1]);
    }
  }

  lemma StartKeeps(fix: Repairs, genders: seq<Gender>, loops: seq<nat>)
    requires |genders| == |loops|
    ensures Inv(fix, Started(fix, genders, loops), Loops(loops))
  {
    StartCounts(genders, loops, Started(fix, genders, loops).threads);
    SumConstant(|genders|, -1);
    SumConstant(|genders| + 1, -1);
  }

  lemma {:induction false} RunKeeps(fix: Repairs, s: Sim, es: seq<Event>, total: nat)
    requires Inv(fix, s, total) && Run(fix, s, es).Some?
    ensures Inv(fix, Run(fix, s, es).value, total)
    ensures |Run(fix, s, es).value.threads| == |s.threads|
    decreases es
  {
    if es != [] {
      StepKeeps(fix, s, es[0], total);
      RunKeeps(fix, Next(fix, s, es[0]).value, es[1..], total);
    }
  }

  /** The invariant in every state that any schedule reaches. */
  lemma ReachableKeeps(fix: Repairs, genders: seq<Gender>, loops: seq<nat>, es: seq<Event>)
    requires |genders| == |loops| && Run(fix, Started(fix, genders, loops), es).Some?
    ensures Inv(fix, Run(fix, Started(fix, genders, loops), es).value, Loops(loops))
  {
    StartKeeps(fix, genders, loops);
    RunKeeps(fix, Started(fix, genders, loops), es, Loops(loops));
  }

  // ----- the arrays are large enough, or not

  /** A thread about to queue is not the one inside, so the queue has room for it; one
      about to enter finds at most the others inside. */
  lemma RoomForOneMore(fix: Repairs, s: Sim, t: nat, total: nat)
    requires Inv(fix, s, total) && t < |s.threads| && s.threads[t].place != Inside
    ensures 0 <= s.m.users < |s.threads|
    ensures s.threads[t].place == Outside && s.m.flag != VACANT ==> 0 <= s.m.quers + 1 < |s.threads|
  {
    var ts := s.threads[t := s.threads[t].(place := Inside)];
    ThreadMoved(s.threads, t, ts[t]);
    var ts' := s.threads[t := s.threads[t].(place := Asleep)];
    ThreadMoved(s.threads, t, ts'[t]);
    CountApart(ts', {Inside}, {Asleep, Woken});
  }

  /** The steps by which the last thread joins all others inside, or, counted in the
      wrong slot, any thread enters after a wait. */
  predicate Overruns(fix: Repairs, s: Sim, e: Event)
    requires Enabled(s, e)
  {
    match e
    case Arrives(t) => MayEnter(s.m, s.threads[t].gender) && s.m.users + 1 == |s.threads|
    case Resumes(t) =>
      && (fix.retest ==> MayEnter(s.m, s.threads[t].gender))
      && (fix.index ==> s.m.users + 1 == |s.threads|)
    case _ => false
  }

  /** With a slot for everyone no step writes outside an array; as written exactly
      those do that `Overruns` names. */
  lemma StepsInBounds(fix: Repairs, s: Sim, e: Event, total: nat)
    requires Inv(fix, s, total) && Enabled(s, e)
    ensures Next(fix, s, e).Some? <==> fix.slots || !Overruns(fix, s, e)
  {
    if s.threads[e.t].place != Inside {
      RoomForOneMore(fix, s, e.t, total);
    }
  }

  /** A single thread is the last one in. */
  lemma OneThreadOverruns(g: Gender, loops: nat)
    requires loops > 0
    ensures Run(AS_WRITTEN, Started(AS_WRITTEN, [g], [loops]), [Arrives(0)]) == None
  {
    var s := Started(AS_WRITTEN, [g], [loops]);
    StartKeeps(AS_WRITTEN, [g], [loops]);
    StepsInBounds(AS_WRITTEN, s, Arrives(0), Loops([loops]));
  }

  // ----- what the histograms count

  predicate Enters(s: Sim, e: Event, s': Sim) {
    e.t < |s.threads| == |s'.threads| && s.threads[e.t].place != Inside && s'.threads[e.t].place == Inside
  }

  predicate Queues(s: Sim, e: Event, s': Sim) {
    e.t < |s.threads| == |s'.threads| && s.threads[e.t].place == Outside && s'.threads[e.t].place == Asleep
  }

  /** An entry after a wait that is counted in the last slot. */
  predicate Misplaced(fix: Repairs, s: Sim, e: Event, s': Sim) {
    !fix.index && e.Resumes? && Enters(s, e, s')
  }

  /** The entries of a schedule that made it `i` inside. */
  function EntriesAt(fix: Repairs, s: Sim, es: seq<Event>, i: int): nat
    decreases es
  {
    if es == [] || Next(fix, s, es[0]).None? then 0
    else
      var s' := Next(fix, s, es[0]).value;
      One(Enters(s, es[0], s') && Users(s'.threads) == i) + EntriesAt(fix, s', es[1..], i)
  }

  /** Its queuings that made it `i` in the queue. */
  function QueuingsAt(fix: Repairs, s: Sim, es: seq<Event>, i: int): nat
    decreases es
  {
    if es == [] || Next(fix, s, es[0]).None? then 0
    else
      var s' := Next(fix, s, es[0]).value;
      One(Queues(s, es[0], s') && Queued(s'.threads) == i) + QueuingsAt(fix, s', es[1..], i)
  }

  lemma StepCounts(fix: Repairs, s: Sim, e: Event, total: nat, i: nat)
    requires Inv(fix, s, total) && fix.slots && Next(fix, s, e).Some?
    ensures |Next(fix, s, e).value.threads| == |s.threads|
    ensures i <= |s.threads| ==> UsersCell(fix, s, e, Next(fix, s, e).value, i)
    ensures i < |s.threads| ==> QueueCell(s, e, Next(fix, s, e).value, i)
  {
    StepKeeps(fix, s, e, total);
    if i <= |s.threads| {
      StepCountsUsers(fix, s, e, total, i);
    }
    if i < |s.threads| {
      StepCountsQueue(fix, s, e, total, i);
    }
  }

  /** Cell `i` of the histogram of users goes up by an entry that made it `i` inside,
      unless that is counted in the last cell. */
  predicate UsersCell(fix: Repairs, s: Sim, e: Event, s': Sim, i: nat) {
    && i <= |s.threads| < |s.m.barray| == |s'.m.barray|
    && s'.m.barray[i] + One(Misplaced(fix, s, e, s') && Users(s'.threads) == i) ==
       s.m.barray[i] + One(Enters(s, e, s') && Users(s'.threads) == i) + One(Misplaced(fix, s, e, s') && i == |s.threads|)
  }

  predicate QueueCell(s: Sim, e: Event, s': Sim, i: nat) {
    && i < |s.threads| == |s.m.qarray| == |s'.m.qarray|
    && s'.m.qarray[i] == s.m.qarray[i] + One(Queues(s, e, s') && Queued(s'.threads) == i)
  }

  lemma StepCountsUsers(fix: Repairs, s: Sim, e: Event, total: nat, i: nat)
    requires Inv(fix, s, total) && fix.slots && Next(fix, s, e).Some? && i <= |s.threads|
    requires Inv(fix, Next(fix, s, e).value, total)
    ensures UsersCell(fix, s, e, Next(fix, s, e).value, i)
  {
  }

  lemma StepCountsQueue(fix: Repairs, s: Sim, e: Event, total: nat, i: nat)
    requires Inv(fix, s, total) && Next(fix, s, e).Some? && i < |s.threads|
    requires Inv(fix, Next(fix, s, e).value, total)
    ensures QueueCell(s, e, Next(fix, s, e).value, i)
  {
  }

  /** The entries after a wait, among them, that are counted in the last slot instead. */
  function MisplacedAt(fix: Repairs, s: Sim, es: seq<Event>, i: int): nat
    decreases es
  {
    if es == [] || Next(fix, s, es[0]).None? then 0
    else
      var s' := Next(fix, s, es[0]).value;
      One(Misplaced(fix, s, es[0], s') && Users(s'.threads) == i) + MisplacedAt(fix, s', es[1..], i)
  }

  /** All of those. */
  function MisplacedIn(fix: Repairs, s: Sim, es: seq<Event>): nat
    decreases es
  {
    if es == [] || Next(fix, s, es[0]).None? then 0
    else
      var s' := Next(fix, s, es[0]).value;
      One(Misplaced(fix, s, es[0], s')) + MisplacedIn(fix, s', es[1..])
  }

  /** What the schedule adds to cell `i` of the histogram of users. */
  function CountedAt(fix: Repairs, s: Sim, es: seq<Event>, i: int): int {
    EntriesAt(fix, s, es, i) - MisplacedAt(fix, s, es, i) + if i == |s.threads| then MisplacedIn(fix, s, es) else 0
  }

  /** What the cells hold after a schedule, whichever slot is taken after a wait: cell `i`
      misses the entries that are counted in the last one, and that has them all. */
  lemma {:induction false} HistogramsHold(fix: Repairs, s: Sim, es: seq<Event>, total: nat, i: nat)
    requires Inv(fix, s, total) && fix.slots && Run(fix, s, es).Some?
    ensures var s' := Run(fix, s, es).value;
      && |s'.m.barray| == |s.m.barray| == |s.threads| + 1 && |s'.m.qarray| == |s.m.qarray| == |s.threads|
      && (i <= |s.threads| ==> s'.m.barray[i] == s.m.barray[i] + CountedAt(fix, s, es, i))
      && (i < |s.threads| ==> s'.m.qarray[i] == s.m.qarray[i] + QueuingsAt(fix, s, es, i))
    decreases es
  {
    if es != [] {
      StepKeeps(fix, s, es[0], total);
      StepCounts(fix, s, es[0], total, i);
      HistogramsHold(fix, Next(fix, s, es[0]).value, es[1..], total, i);
    }
  }

  lemma {:induction false} NothingMisplaced(fix: Repairs, s: Sim, es: seq<Event>, i: int)
    requires fix.index
    ensures MisplacedAt(fix, s, es, i) == 0 && MisplacedIn(fix, s, es) == 0
    decreases es
  {
    if es != [] && Next(fix, s, es[0]).Some? {
      NothingMisplaced(fix, Next(fix, s, es[0]).value, es[1..], i);
    }
  }

  /** Cell `i` of a histogram, less the one it starts below zero, is the number of
      times it came to `i` inside, or in the queue. */
  lemma HistogramsCount(fix: Repairs, s: Sim, es: seq<Event>, total: nat, i: nat)
    requires Inv(fix, s, total) && fix.slots && fix.index && Run(fix, s, es).Some?
    ensures var s' := Run(fix, s, es).value;
      && |s'.m.barray| == |s.m.barray| == |s.threads| + 1 && |s'.m.qarray| == |s.m.qarray| == |s.threads|
      && (i <= |s.threads| ==> s'.m.barray[i] == s.m.barray[i] + EntriesAt(fix, s, es, i))
      && (i < |s.threads| ==> s'.m.qarray[i] == s.m.qarray[i] + QueuingsAt(fix, s, es, i))
  {
    HistogramsHold(fix, s, es, total, i);
    NothingMisplaced(fix, s, es, i);
  }
}
