/** What a step does to each thread and to the flag, in any state and under any repairs:
    a thread keeps its gender, leaves as often as it is to, and moves only on its own
    turn, unless the last one out wakes it; the flag is the gender of whoever entered
    last. */
module BathroomThreads {
  import opened Options
  import opened BathroomModel
  import opened BathroomCounts
  import opened BathroomProtocol

  // ----- one step

  /** Thread `t` leaves nobody counted inside. */
  predicate LastOut(s: Sim, e: Event) {
    e.Departs? && s.m.users <= 1
  }

  /** Thread `e.t` comes out of its turn inside. */
  predicate EndsInside(s: Sim, e: Event, s': Sim) {
    (e.Arrives? || e.Resumes?) && e.t < |s'.threads| && s'.threads[e.t].place == Inside
  }

  /** Whoever enters, politely or not, leaves the flag at its own gender; the last one out
      leaves it VACANT; nobody else touches it. */
  lemma FlagFollows(fix: Repairs, s: Sim, e: Event)
    requires Next(fix, s, e).Some?
    ensures var s' := Next(fix, s, e).value;
      s'.m.flag == if EndsInside(s, e, s') then s.threads[e.t].gender as int
                   else if LastOut(s, e) then VACANT
                   else s.m.flag
  {
  }

  /** The counters go with the threads: one user and one use more for who ends inside, one
      in the queue and one queuing more for who starts to wait, one in the queue less for
      who enters after a wait. */
  lemma CountersFollow(fix: Repairs, s: Sim, e: Event)
    requires Next(fix, s, e).Some?
    ensures var s' := Next(fix, s, e).value;
      && s'.m.users == s.m.users + One(EndsInside(s, e, s')) - One(e.Departs?)
      && s'.m.uses == s.m.uses + One(EndsInside(s, e, s'))
      && s'.m.quers == s.m.quers + One(e.Arrives? && !EndsInside(s, e, s')) - One(e.Resumes? && EndsInside(s, e, s'))
      && s'.m.ques == s.m.ques + One(e.Arrives? && !EndsInside(s, e, s'))
  {
  }

  function OneMoreAt(a: seq<int>, i: int): seq<int> {
    if 0 <= i < |a| then a[..i] + [a[i] + 1] + a[i + 1..] else a
  }

  /** One cell goes up at a time: for who ends inside, that of the users there then are,
      or the last slot after a wait as written; for who starts to wait, that of the queue
      there then is. */
  lemma CellsFollow(fix: Repairs, s: Sim, e: Event)
    requires Next(fix, s, e).Some?
    ensures var s' := Next(fix, s, e).value;
      var slot := if e.Resumes? && !fix.index then |s.threads| else s'.m.users;
      && s'.m.barray == (if EndsInside(s, e, s') then OneMoreAt(s.m.barray, slot) else s.m.barray)
      && s'.m.qarray == (if e.Arrives? && !EndsInside(s, e, s') then OneMoreAt(s.m.qarray, s'.m.quers) else s.m.qarray)
  {
  }

  /** Who ends inside: an arriving thread that finds the bathroom vacant or its own gender
      inside, and a woken one, which need find nothing when it does not look again. */
  lemma WhoEnters(fix: Repairs, s: Sim, e: Event)
    requires Next(fix, s, e).Some?
    ensures var s' := Next(fix, s, e).value;
      EndsInside(s, e, s') <==>
        || (e.Arrives? && (s.m.flag == VACANT || s.m.flag == s.threads[e.t].gender))
        || (e.Resumes? && (!fix.retest || s.m.flag == VACANT || s.m.flag == s.threads[e.t].gender))
  {
  }

  /** Where thread `u` is after its own turn, or after that of another: there it stays
      where it was, unless it slept and the last one out woke it. */
  function PlaceAfter(s: Sim, e: Event, inside: bool, u: nat): Place
    requires u < |s.threads|
  {
    if u == e.t then
      match e
      case Departs(_) => Outside
      case Stirs(_) => Woken
      case _ => if inside then Inside else Asleep
    else if LastOut(s, e) && s.threads[u].place == Asleep then Woken
    else s.threads[u].place
  }

  /** No step changes a gender; a departure takes one from what its own thread has left. */
  lemma ThreadsKeep(fix: Repairs, s: Sim, e: Event, u: nat)
    requires Next(fix, s, e).Some? && u < |s.threads|
    ensures |Next(fix, s, e).value.threads| == |s.threads|
    ensures var s' := Next(fix, s, e).value;
      && s'.threads[u].gender == s.threads[u].gender
      && s'.threads[u].left + One(e == Departs(u)) == s.threads[u].left
      && s'.threads[u].place == PlaceAfter(s, e, EndsInside(s, e, s'), u)
  {
  }

  /** Whose turn it can be: anyone asleep may wake, anyone inside with a loop to finish may
      leave, and only a thread outside with loops to go arrives, only a woken one resumes. */
  lemma WhoMayMove(fix: Repairs, s: Sim, t: nat)
    ensures Next(fix, s, Stirs(t)).Some? <==> t < |s.threads| && s.threads[t].place == Asleep
    ensures Next(fix, s, Departs(t)).Some? <==> t < |s.threads| && s.threads[t].place == Inside && s.threads[t].left > 0
    ensures Next(fix, s, Arrives(t)).Some? ==> t < |s.threads| && s.threads[t].place == Outside && s.threads[t].left > 0
    ensures Next(fix, s, Resumes(t)).Some? ==> t < |s.threads| && s.threads[t].place == Woken
  {
  }

  // ----- whole schedules

  /** Each thread has the gender it was given. */
  predicate Named(genders: seq<Gender>, s: Sim) {
    |s.threads| == |genders| && forall t: nat | t < |genders| :: s.threads[t].gender == genders[t]
  }

  lemma StepNamed(fix: Repairs, genders: seq<Gender>, s: Sim, e: Event)
    requires Named(genders, s) && Next(fix, s, e).Some?
    ensures Named(genders, Next(fix, s, e).value)
  {
    var s' := Next(fix, s, e).value;
    ThreadsKeep(fix, s, e, e.t);
    forall t: nat | t < |genders| ensures s'.threads[t].gender == genders[t] {
      ThreadsKeep(fix, s, e, t);
    }
  }

  /** How often the schedule has thread `t` leave. */
  function Departures(es: seq<Event>, t: nat): nat {
    if es == [] then 0 else One(es[0] == Departs(t)) + Departures(es[1..], t)
  }

  /** How often it has thread `t` end up inside. */
  function Entries(fix: Repairs, s: Sim, es: seq<Event>, t: nat): nat
    decreases es
  {
    if es == [] || Next(fix, s, es[0]).None? then 0
    else
      var s' := Next(fix, s, es[0]).value;
      One(es[0].t == t && EndsInside(s, es[0], s')) + Entries(fix, s', es[1..], t)
  }

  lemma {:induction false} RunNamed(fix: Repairs, genders: seq<Gender>, s: Sim, es: seq<Event>)
    requires Named(genders, s) && Run(fix, s, es).Some?
    ensures Named(genders, Run(fix, s, es).value)
    decreases es
  {
    if es != [] {
      StepNamed(fix, genders, s, es[0]);
      RunNamed(fix, genders, Next(fix, s, es[0]).value, es[1..]);
    }
  }

  /** A thread's departures are those it no longer has to make, and one fewer than its
      entries while it is inside. */
  lemma {:induction false} RunCounts(fix: Repairs, s: Sim, es: seq<Event>, t: nat)
    requires Run(fix, s, es).Some? && t < |s.threads|
    ensures |Run(fix, s, es).value.threads| == |s.threads|
    ensures var th, th' := s.threads[t], Run(fix, s, es).value.threads[t];
      && th'.left + Departures(es, t) == th.left
      && Entries(fix, s, es, t) + One(th.place == Inside) == Departures(es, t) + One(th'.place == Inside)
    decreases es
  {
    if es != [] {
      ThreadsKeep(fix, s, es[0], t);
      TurnCounts(fix, s, es[0], t);
      RunCounts(fix, Next(fix, s, es[0]).value, es[1..], t);
    }
  }

  lemma TurnCounts(fix: Repairs, s: Sim, e: Event, t: nat)
    requires Next(fix, s, e).Some? && t < |s.threads| == |Next(fix, s, e).value.threads|
    ensures var s' := Next(fix, s, e).value;
      One(e.t == t && EndsInside(s, e, s')) + One(s.threads[t].place == Inside)
      == One(e == Departs(t)) + One(s'.threads[t].place == Inside)
  {
    ThreadsKeep(fix, s, e, t);
  }

  lemma StartNamed(fix: Repairs, genders: seq<Gender>, loops: seq<nat>)
    requires |genders| == |loops|
    ensures Named(genders, Started(fix, genders, loops))
    ensures forall t: nat | t < |loops| :: Started(fix, genders, loops).threads[t] == Thread(genders[t], Outside, loops[t])
  {
  }

  /** In every state that a schedule reaches, every thread has the gender it started with,
      and has left as often as it has fewer loops to go than it started with. */
  lemma ThreadsStayThemselves(fix: Repairs, genders: seq<Gender>, loops: seq<nat>, es: seq<Event>, t: nat)
    requires |genders| == |loops| && t < |genders| && Run(fix, Started(fix, genders, loops), es).Some?
    ensures var s, s' := Started(fix, genders, loops), Run(fix, Started(fix, genders, loops), es).value;
      && |s'.threads| == |genders|
      && s'.threads[t].gender == genders[t]
      && s'.threads[t].left + Departures(es, t) == loops[t]
      && Entries(fix, s, es, t) == Departures(es, t) + One(s'.threads[t].place == Inside)
  {
    StartNamed(fix, genders, loops);
    RunNamed(fix, genders, Started(fix, genders, loops), es);
    RunCounts(fix, Started(fix, genders, loops), es, t);
  }
}
