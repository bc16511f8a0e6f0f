/** Counting threads by where they are, and what a step does to the counts. */
module BathroomCounts {
  import opened BathroomModel

  function One(b: bool): nat {
    if b then 1 else 0
  }

  /** The threads that are in one of some places. */
  function Count(ts: seq<Thread>, places: set<Place>): (n: nat)
    ensures n <= |ts|
  {
    if ts == [] then 0
    else Count(ts[..|ts| - 1], places) + One(ts[|ts| - 1].place in places)
  }

  function Users(ts: seq<Thread>): nat { Count(ts, {Inside}) }

  function Queued(ts: seq<Thread>): nat { Count(ts, {Asleep, Woken}) }

  /** The departures still to come. */
  function Left(ts: seq<Thread>): nat {
    if ts == [] then 0 else Left(ts[..|ts| - 1]) + ts[|ts| - 1].left
  }

  function Sum(a: seq<int>): int {
    if a == [] then 0 else Sum(a[..|a| - 1]) + a[|a| - 1]
  }

  lemma {:induction false} CountUpdate(ts: seq<Thread>, t: nat, th: Thread, places: set<Place>)
    requires t < |ts|
    ensures Count(ts[t := th], places) + One(ts[t].place in places) == Count(ts, places) + One(th.place in places)
  {
    var front := ts[..|ts| - 1];
    if t == |ts| - 1 {
      assert ts[t := th][..|ts| - 1] == front;
    } else {
      assert ts[t := th][..|ts| - 1] == front[t := th];
      CountUpdate(front, t, th, places);
    }
  }

  lemma {:induction false} LeftUpdate(ts: seq<Thread>, t: nat, th: Thread)
    requires t < |ts|
    ensures Left(ts[t := th]) + ts[t].left == Left(ts) + th.left
  {
    var front := ts[..|ts| - 1];
    if t == |ts| - 1 {
      assert ts[t := th][..|ts| - 1] == front;
    } else {
      assert ts[t := th][..|ts| - 1] == front[t := th];
      LeftUpdate(front, t, th);
    }
  }

  lemma {:induction false} SumUpdate(a: seq<int>, i: nat, x: int)
    requires i < |a|
    ensures Sum(a[i := x]) == Sum(a) - a[i] + x
  {
    var front := a[..|a| - 1];
    if i == |a| - 1 {
      assert a[i := x][..|a| - 1] == front;
    } else {
      assert a[i := x][..|a| - 1] == front[i := x];
      SumUpdate(front, i, x);
    }
  }

  lemma {:induction false} SumConstant(n: nat, x: int)
    ensures Sum(seq(n, i => x)) == n * x
  {
    if n > 0 {
      assert seq(n, i => x)[..n - 1] == seq(n - 1, i => x);
      SumConstant(n - 1, x);
    }
  }

  /** Someone is in one of the places exactly when the count is not zero. */
  lemma {:induction false} CountSome(ts: seq<Thread>, places: set<Place>)
    ensures Count(ts, places) > 0 <==> exists t: nat :: t < |ts| && ts[t].place in places
  {
    if ts != [] {
      var front := ts[..|ts| - 1];
      CountSome(front, places);
      if t: nat :| t < |front| && front[t].place in places {
        assert ts[t].place in places;
      }
    }
  }

  /** Places that a broadcast does not tell apart are as full after it as before. */
  lemma {:induction false} CountBroadcast(ts: seq<Thread>, places: set<Place>)
    requires Asleep in places <==> Woken in places
    ensures Count(Broadcast(ts), places) == Count(ts, places)
  {
    if ts != [] {
      assert Broadcast(ts)[..|ts| - 1] == Broadcast(ts[..|ts| - 1]);
      CountBroadcast(ts[..|ts| - 1], places);
    }
  }

  lemma {:induction false} LeftBroadcast(ts: seq<Thread>)
    ensures Left(Broadcast(ts)) == Left(ts)
  {
    if ts != [] {
      assert Broadcast(ts)[..|ts| - 1] == Broadcast(ts[..|ts| - 1]);
      LeftBroadcast(ts[..|ts| - 1]);
    }
  }

  /** Two groups of places that share none hold no more threads than there are. */
  lemma {:induction false} CountApart(ts: seq<Thread>, a: set<Place>, b: set<Place>)
    requires a !! b
    ensures Count(ts, a) + Count(ts, b) <= |ts|
  {
    if ts != [] {
      CountApart(ts[..|ts| - 1], a, b);
    }
  }
}
