/** The unisex bathroom: a monitor of one lock, one condition variable, a gender flag
    and counters, and any number of threads that enter and leave it in a loop.

    A critical section is one step. `Enter` is two of them when it has to wait: up to
    the wait, which gives the lock up, and from the moment it has the lock again. */
module BathroomModel {
  import opened Options

  type Gender = g: int | 0 <= g < 2

  const VACANT := -1

  datatype Monitor = Monitor(
    users: int,        // inside
    uses: int,         // entries so far
    quers: int,        // in the queue
    ques: int,         // times anyone has queued so far
    flag: int,         // VACANT or the gender inside
    barray: seq<int>,  // how often an entry made it so many users, less one
    qarray: seq<int>)  // how often a thread made it so many in the queue, less one

  /** Which departures from the design are repaired. */
  datatype Repairs = Repairs(
    retest: bool,  // a thread that wakes looks at the flag again, and waits on if it must
    slots: bool,   // the histogram of users has a slot for everyone
    index: bool)   // an entry after a wait counts in the slot of the users inside

  const AS_WRITTEN := Repairs(false, false, false)
  const NO_RETEST := Repairs(false, true, true)
  const NO_INDEX := Repairs(true, true, false)
  const REPAIRED := Repairs(true, true, true)

  /** The monitor for `n` threads. */
  function Initial(fix: Repairs, n: nat): Monitor {
    Monitor(0, 0, 0, 0, VACANT, seq(if fix.slots then n + 1 else n, i => -1), seq(n, i => -1))
  }

  /** One more in slot `i`; `None` when the array has no such slot. */
  function Counted(a: seq<int>, i: int): Option<seq<int>> {
    if 0 <= i < |a| then Some(a[i := a[i] + 1]) else None
  }

  predicate MayEnter(m: Monitor, g: Gender) {
    m.flag == VACANT || m.flag == g
  }

  /** The first critical section of `Enter`, and whether the thread has to wait. */
  function Arrive(m: Monitor, g: Gender): Option<(Monitor, bool)> {
    if MayEnter(m, g) then
      var b :- Counted(m.barray, m.users + 1);
      Some((m.(flag := g, users := m.users + 1, uses := m.uses + 1, barray := b), false))
    else
      var q :- Counted(m.qarray, m.quers + 1);
      Some((m.(quers := m.quers + 1, ques := m.ques + 1, qarray := q), true))
  }

  /** The second critical section of `Enter`, of a thread out of `n` that has woken,
      and whether it has to wait on. */
  function Resume(fix: Repairs, m: Monitor, g: Gender, n: nat): Option<(Monitor, bool)> {
    if fix.retest && !MayEnter(m, g) then Some((m, true))
    else
      var b :- Counted(m.barray, if fix.index then m.users + 1 else n);
      Some((m.(flag := g, users := m.users + 1, uses := m.uses + 1, quers := m.quers - 1, barray := b), false))
  }

  /** `Leave`, and whether everyone waiting is woken. */
  function Depart(m: Monitor): (Monitor, bool) {
    if m.users - 1 <= 0 then (m.(users := m.users - 1, flag := VACANT), true)
    else (m.(users := m.users - 1), false)
  }

  // ----- the threads

  datatype Place = Outside | Asleep | Woken | Inside

  /** A thread, and how many times it still has to leave. */
  datatype Thread = Thread(gender: Gender, place: Place, left: nat)

  datatype Sim = Sim(m: Monitor, threads: seq<Thread>)

  datatype Event =
    | Arrives(t: nat)
    | Resumes(t: nat)
    | Departs(t: nat)
    | Stirs(t: nat)  // a wakeup that nobody signalled

  function Started(fix: Repairs, genders: seq<Gender>, loops: seq<nat>): Sim
    requires |genders| == |loops|
  {
    Sim(Initial(fix, |genders|),
        seq(|genders|, i requires 0 <= i < |genders| => Thread(genders[i], Outside, loops[i])))
  }

  predicate Finished(th: Thread) {
    th.place == Outside && th.left == 0
  }

  predicate Enabled(s: Sim, e: Event) {
    e.t < |s.threads| &&
    match e
    case Arrives(t) => s.threads[t].place == Outside && s.threads[t].left > 0
    case Resumes(t) => s.threads[t].place == Woken
    case Departs(t) => s.threads[t].place == Inside && s.threads[t].left > 0
    case Stirs(t) => s.threads[t].place == Asleep
  }

  function Roused(th: Thread): Thread {
    if th.place == Asleep then th.(place := Woken) else th
  }

  function Broadcast(threads: seq<Thread>): (ts: seq<Thread>)
    ensures |ts| == |threads|
  {
    seq(|threads|, i requires 0 <= i < |threads| => Roused(threads[i]))
  }

  function Moved(threads: seq<Thread>, t: nat, place: Place): (ts: seq<Thread>)
    requires t < |threads|
    ensures |ts| == |threads|
  {
    threads[t := threads[t].(place := place)]
  }

  function Entered(threads: seq<Thread>, t: nat, waits: bool): (ts: seq<Thread>)
    requires t < |threads|
    ensures |ts| == |threads|
  {
    Moved(threads, t, if waits then Asleep else Inside)
  }

  /** One thread's turn with the lock. `None`: it is not that thread's turn, or it
      would write outside an array. */
  function Next(fix: Repairs, s: Sim, e: Event): Option<Sim> {
    if !Enabled(s, e) then None
    else
      var th := s.threads[e.t];
      match e
      case Arrives(t) =>
        var r :- Arrive(s.m, th.gender);
        Some(Sim(r.0, Entered(s.threads, t, r.1)))
      case Resumes(t) =>
        var r :- Resume(fix, s.m, th.gender, |s.threads|);
        Some(Sim(r.0, Entered(s.threads, t, r.1)))
      case Departs(t) =>
        var (m, woken) := Depart(s.m);
        var ts := s.threads[t := th.(place := Outside, left := th.left - 1)];
        Some(Sim(m, if woken then Broadcast(ts) else ts))
      case Stirs(t) =>
        Some(Sim(s.m, Moved(s.threads, t, Woken)))
  }

  function Run(fix: Repairs, s: Sim, es: seq<Event>): Option<Sim>
    decreases es
  {
    if es == [] then Some(s)
    else
      var s' :- Next(fix, s, es[0]);
      Run(fix, s', es[1..])
  }
}
