/** The scheduling policy of planner.c on values: five FIFO queues, the highest
    non-empty one is served, and a task goes back to the end of its queue while it
    has time left. Tasks are arbitrary values of type `T`. */
module RoundRobin {
  import opened CInts
  import opened Slices

  const SO_MAX_PRIO := 5

  /** `left` is the remaining time slice of every task ever forked. */
  datatype State<!T> = State(queues: seq<seq<T>>, left: map<T, nat>, prio: map<T, nat>)

  datatype Event<T> = Fork(task: T, priority: nat, slice: nat) | Dispatch

  ghost predicate NoDuplicates<T>(s: seq<T>) {
    forall k, l :: 0 <= k < l < |s| ==> s[k] != s[l]
  }

  /** Every queued task is queued once, at its own priority. */
  ghost predicate Placed<T>(s: State<T>) {
    && |s.queues| == SO_MAX_PRIO
    && (forall p :: 0 <= p < SO_MAX_PRIO ==> NoDuplicates(s.queues[p]))
    && (forall p, t :: 0 <= p < SO_MAX_PRIO && t in s.queues[p] ==> t in s.prio && s.prio[t] == p)
  }

  /** A task is queued as long as it has time left. */
  ghost predicate Queued<T>(s: State<T>) {
    && s.left.Keys == s.prio.Keys
    && (forall t :: t in s.left ==>
          && s.prio[t] < |s.queues|
          && (s.left[t] > 0 <==> t in s.queues[s.prio[t]]))
  }

  ghost predicate WellFormed<T>(s: State<T>) {
    Placed(s) && Queued(s)
  }

  /** The slice loop of every task stops. */
  ghost predicate Valid<T>(s: State<T>, q: nat) {
    WellFormed(s) && forall t :: t in s.left ==> Stops(s.left[t], q)
  }

  /** The highest priority below `n` with a queued task, or -1. */
  function Highest<T>(queues: seq<seq<T>>, n: nat): (p: int)
    requires n <= |queues|
    ensures -1 <= p < n
    ensures p >= 0 ==> queues[p] != []
    ensures forall j :: p < j < n ==> queues[j] == []
  {
    if n == 0 then -1
    else if queues[n - 1] != [] then n - 1
    else Highest(queues, n - 1)
  }

  predicate Idle<T>(s: State<T>) {
    Highest(s.queues, |s.queues|) < 0
  }

  function Next<T>(s: State<T>): T
    requires !Idle(s)
  {
    s.queues[Highest(s.queues, |s.queues|)][0]
  }

  /** The next task is one of those forked. */
  predicate Dispatchable<T(==)>(s: State<T>) {
    !Idle(s) && Next(s) in s.left && Next(s) in s.prio && s.prio[Next(s)] < |s.queues|
  }

  /** select_next_task: the next task leaves its queue. */
  function Selected<T>(s: State<T>): State<T>
    requires !Idle(s)
  {
    var p := Highest(s.queues, |s.queues|);
    s.(queues := s.queues[p := s.queues[p][1..]])
  }

  /** One pass of the slice loop: subtract a quantum (on `unsigned int`), and enqueue
      again if time is left. */
  function Ran<T(==)>(s: State<T>, t: T, q: nat): State<T>
    requires t in s.left && t in s.prio && s.prio[t] < |s.queues|
  {
    var p, rest := s.prio[t], U32(s.left[t] - q);
    s.(left := s.left[t := rest],
       queues := s.queues[p := s.queues[p] + if rest > 0 then [t] else []])
  }

  /** One hand-off. */
  function Dispatched<T(==)>(s: State<T>, q: nat): State<T>
    requires Dispatchable(s)
  {
    Ran(Selected(s), Next(s), q)
  }

  function Forked<T(==)>(s: State<T>, t: T, priority: nat, slice: nat): State<T>
    requires priority < |s.queues|
  {
    State(s.queues[priority := s.queues[priority] + [t]], s.left[t := slice], s.prio[t := priority])
  }

  // ---------------------------------------------------------------------------
  // Any sequence of forks and hand-offs
  // ---------------------------------------------------------------------------

  /** A fork brings a new task with some time. */
  predicate Possible<T(==)>(s: State<T>, e: Event<T>) {
    match e
    case Fork(t, priority, slice) => t !in s.left && priority < |s.queues| && 0 < slice < UINT_RANGE
    case Dispatch => Idle(s) || Dispatchable(s)
  }

  /** The dispatcher does nothing when no task is ready. */
  function Apply<T(==)>(s: State<T>, e: Event<T>, q: nat): State<T>
    requires Possible(s, e)
  {
    match e
    case Fork(t, priority, slice) => Forked(s, t, priority, slice)
    case Dispatch => if Idle(s) then s else Dispatched(s, q)
  }

  predicate Legal<T(==)>(s: State<T>, es: seq<Event<T>>, q: nat)
    decreases |es|
  {
    es == [] || (Possible(s, es[0]) && Legal(Apply(s, es[0], q), es[1..], q))
  }

  function After<T(==)>(s: State<T>, es: seq<Event<T>>, q: nat): State<T>
    requires Legal(s, es, q)
    decreases |es|
  {
    if es == [] then s else After(Apply(s, es[0], q), es[1..], q)
  }

  /** The tasks that ran, in order. */
  function Log<T(==)>(s: State<T>, es: seq<Event<T>>, q: nat): seq<T>
    requires Legal(s, es, q)
    decreases |es|
  {
    if es == [] then []
    else (if es[0].Dispatch? && !Idle(s) then [Next(s)] else []) + Log(Apply(s, es[0], q), es[1..], q)
  }

  function Turns<T(==)>(log: seq<T>, t: T): nat {
    multiset(log)[t]
  }

  lemma ServedQueue<T>(s: State<T>)
    requires WellFormed(s) && !Idle(s)
    ensures
      var p, t := Highest(s.queues, |s.queues|), Next(s);
      && s.queues[p] == [t] + s.queues[p][1..] && t !in s.queues[p][1..]
      && Dispatchable(s) && s.prio[t] == p && s.left[t] > 0
  {
  }

  lemma Rotated<T>(ts: seq<T>, t: T, again: bool)
    requires NoDuplicates([t] + ts)
    ensures NoDuplicates(ts + if again then [t] else [])
    ensures forall x :: x in ts + (if again then [t] else []) ==> x in [t] + ts
  {
    assert ([t] + ts)[0] == t;
    assert forall k :: 0 <= k < |ts| ==> ([t] + ts)[k + 1] == ts[k];
  }

  /** The queues after a hand-off. */
  lemma DispatchedQueues<T>(s: State<T>, q: nat)
    requires WellFormed(s) && Dispatchable(s)
    ensures
      var p, t, s' := Highest(s.queues, |s.queues|), Next(s), Dispatched(s, q);
      && |s'.queues| == |s.queues|
      && s'.queues[p] == s.queues[p][1..] + (if s'.left[t] > 0 then [t] else [])
      && forall j :: 0 <= j < |s.queues| && j != p ==> s'.queues[j] == s.queues[j]
  {
    ServedQueue(s);
  }

  lemma DispatchedQueue<T>(s: State<T>, q: nat, p: nat)
    requires WellFormed(s) && Dispatchable(s) && p < SO_MAX_PRIO
    ensures NoDuplicates(Dispatched(s, q).queues[p])
    ensures forall x :: x in Dispatched(s, q).queues[p] ==> x in s.queues[p]
  {
    ServedQueue(s);
    DispatchedQueues(s, q);
    if p == Highest(s.queues, |s.queues|) {
      Rotated(s.queues[p][1..], Next(s), Dispatched(s, q).left[Next(s)] > 0);
    }
  }

  lemma PlacedWithin<T>(s: State<T>, s': State<T>)
    requires Placed(s) && s'.prio == s.prio && |s'.queues| == |s.queues|
    requires forall p :: 0 <= p < SO_MAX_PRIO ==> NoDuplicates(s'.queues[p])
    requires forall p, x :: 0 <= p < SO_MAX_PRIO && x in s'.queues[p] ==> x in s.queues[p]
    ensures Placed(s')
  {
  }

  lemma DispatchedPlaced<T>(s: State<T>, q: nat)
    requires WellFormed(s) && Dispatchable(s)
    ensures Placed(Dispatched(s, q))
  {
    forall p | 0 <= p < SO_MAX_PRIO
      ensures NoDuplicates(Dispatched(s, q).queues[p])
      ensures forall x :: x in Dispatched(s, q).queues[p] ==> x in s.queues[p]
    {
      DispatchedQueue(s, q, p);
    }
    PlacedWithin(s, Dispatched(s, q));
  }

  lemma DispatchedQueued<T>(s: State<T>, q: nat)
    requires WellFormed(s) && Dispatchable(s)
    ensures Queued(Dispatched(s, q))
  {
    ServedQueue(s);
    var s', p, t := Dispatched(s, q), Highest(s.queues, |s.queues|), Next(s);
    forall x | x in s'.left
      ensures s'.prio[x] < |s'.queues| && (s'.left[x] > 0 <==> x in s'.queues[s'.prio[x]])
    {
      assert x in s.left;
      if x != t {
        assert x in s.queues[p] <==> x in s.queues[p][1..];
      }
    }
  }

  /** A hand-off takes one quantum from the task it selects, and so brings its end one
      turn nearer. */
  lemma DispatchedValid<T>(s: State<T>, q: nat)
    requires Valid(s, q) && !Idle(s)
    ensures Dispatchable(s) && s.left[Next(s)] > 0
    ensures Valid(Dispatched(s, q), q)
    ensures Needed(Dispatched(s, q).left[Next(s)], q) == Needed(s.left[Next(s)], q) - 1
  {
    ServedQueue(s);
    DispatchedPlaced(s, q);
    DispatchedQueued(s, q);
    NeededStep(s.left[Next(s)], q);
  }

  lemma ForkedWellFormed<T>(s: State<T>, t: T, priority: nat, slice: nat)
    requires WellFormed(s) && Possible(s, Fork(t, priority, slice))
    ensures WellFormed(Forked(s, t, priority, slice))
  {
    var s' := Forked(s, t, priority, slice);
    forall x, p | 0 <= p < SO_MAX_PRIO
      ensures x in s'.queues[p] <==> x in s.queues[p] || (x == t && p == priority)
    {
    }
  }

  /** Every queued task stays queued once, at its own priority, as long as it has time
      left. */
  lemma ApplyWellFormed<T>(s: State<T>, e: Event<T>, q: nat)
    requires WellFormed(s) && Possible(s, e)
    ensures WellFormed(Apply(s, e, q))
  {
    match e
    case Fork(t, priority, slice) => ForkedWellFormed(s, t, priority, slice);
    case Dispatch =>
      if !Idle(s) {
        DispatchedPlaced(s, q);
        DispatchedQueued(s, q);
      }
  }

  /** 1 if the event gives the task a turn. */
  function TurnNow<T(==)>(s: State<T>, e: Event<T>, t: T): nat {
    if e.Dispatch? && !Idle(s) && Next(s) == t then 1 else 0
  }

  lemma TurnsSplit<T>(s: State<T>, es: seq<Event<T>>, q: nat, t: T)
    requires Legal(s, es, q) && es != []
    ensures Turns(Log(s, es, q), t) == TurnNow(s, es[0], t) + Turns(Log(Apply(s, es[0], q), es[1..], q), t)
  {
  }

  lemma ApplyLedger<T>(s: State<T>, e: Event<T>, q: nat, t: T)
    requires WellFormed(s) && Possible(s, e) && t in s.left
    ensures t in Apply(s, e, q).left
    ensures t in Apply(s, e, q).prio && t in s.prio && Apply(s, e, q).prio[t] == s.prio[t]
    ensures s.left[t] == 0 ==> Apply(s, e, q).left[t] == 0
    ensures Stops(s.left[t], q) ==>
      && Stops(Apply(s, e, q).left[t], q)
      && Needed(Apply(s, e, q).left[t], q) + TurnNow(s, e, t) == Needed(s.left[t], q)
  {
    if e.Dispatch? && !Idle(s) {
      ServedQueue(s);
      if Next(s) == t && Stops(s.left[t], q) {
        NeededStep(s.left[t], q);
      }
    }
  }

  /** Nothing is lost or run twice: over any sequence of events the state stays
      well formed, and for a task whose slice loop stops the turns it still needs and
      those it has had add up to what it needed at the start. */
  lemma {:induction false} SliceLedger<T>(s: State<T>, es: seq<Event<T>>, q: nat, t: T)
    requires WellFormed(s) && Legal(s, es, q) && t in s.left
    ensures WellFormed(After(s, es, q))
    ensures t in After(s, es, q).left && t in s.prio
    ensures After(s, es, q).prio[t] == s.prio[t]
    ensures s.left[t] == 0 ==> After(s, es, q).left[t] == 0
    ensures Stops(s.left[t], q) ==>
      Needed(After(s, es, q).left[t], q) + Turns(Log(s, es, q), t) == Needed(s.left[t], q)
    decreases |es|
  {
    if es == [] {
    } else {
      ApplyWellFormed(s, es[0], q);
      ApplyLedger(s, es[0], q, t);
      TurnsSplit(s, es, q, t);
      SliceLedger(Apply(s, es[0], q), es[1..], q, t);
    }
  }

  // ---------------------------------------------------------------------------
  // Fairness
  // ---------------------------------------------------------------------------

  /** `a` stands before `b` in the queue. */
  ghost predicate Ahead<T>(ts: seq<T>, a: T, b: T) {
    exists i, j :: 0 <= i < j < |ts| && ts[i] == a && ts[j] == b
  }

  lemma AheadAfterEvent<T>(s: State<T>, e: Event<T>, q: nat, p: nat, a: T, b: T)
    requires WellFormed(s) && Possible(s, e)
    requires p < SO_MAX_PRIO && Ahead(s.queues[p], a, b)
    ensures a in Apply(s, e, q).left && TurnNow(s, e, b) == 0
    ensures TurnNow(s, e, a) == 0 ==> Ahead(Apply(s, e, q).queues[p], a, b)
    ensures TurnNow(s, e, a) == 1 && Apply(s, e, q).left[a] > 0 ==> Ahead(Apply(s, e, q).queues[p], b, a)
  {
    var ts := s.queues[p];
    var i, j :| 0 <= i < j < |ts| && ts[i] == a && ts[j] == b;
    var ts' := Apply(s, e, q).queues[p];
    match e
    case Fork(t, priority, slice) =>
      assert ts'[i] == a && ts'[j] == b;
    case Dispatch =>
      if !Idle(s) {
        var h, t := Highest(s.queues, |s.queues|), Next(s);
        assert t in s.queues[h] && b in ts;
        if h != p {
          assert a in ts;
          assert ts' == ts;
        } else if t == a {
          assert i == 0;
          assert ts[1..][j - 1] == b;
          if Apply(s, e, q).left[a] > 0 {
            assert ts' == ts[1..] + [a];
            assert ts'[j - 1] == b && ts'[|ts| - 1] == a;
          }
        } else {
          assert ts'[i - 1] == a && ts'[j - 1] == b;
        }
      }
  }

  /** The task has time left at the end. */
  predicate Unfinished<T(==)>(s: State<T>, es: seq<Event<T>>, q: nat, t: T)
    requires Legal(s, es, q)
  {
    t in After(s, es, q).left && After(s, es, q).left[t] > 0
  }

  lemma FinishedStaysFinished<T>(s: State<T>, es: seq<Event<T>>, q: nat, t: T)
    requires WellFormed(s) && Legal(s, es, q) && t in s.left && s.left[t] == 0
    ensures !Unfinished(s, es, q, t)
  {
    SliceLedger(s, es, q, t);
  }

  /** A turn of the task in front puts it behind the other, so their turns
      alternate. */
  lemma {:induction false} TurnsAlternate<T>(s: State<T>, es: seq<Event<T>>, q: nat, p: nat, a: T, b: T)
    requires WellFormed(s) && Legal(s, es, q)
    requires p < SO_MAX_PRIO && Ahead(s.queues[p], a, b)
    ensures Unfinished(s, es, q, a) && Unfinished(s, es, q, b) ==>
      0 <= Turns(Log(s, es, q), a) - Turns(Log(s, es, q), b) <= 1
    decreases |es|
  {
    if es == [] {
    } else {
      var s' := Apply(s, es[0], q);
      ApplyWellFormed(s, es[0], q);
      AheadAfterEvent(s, es[0], q, p, a, b);
      TurnsSplit(s, es, q, a);
      TurnsSplit(s, es, q, b);
      if TurnNow(s, es[0], a) == 0 {
        TurnsAlternate(s', es[1..], q, p, a, b);
      } else if s'.left[a] > 0 {
        TurnsAlternate(s', es[1..], q, p, b, a);
      } else {
        FinishedStaysFinished(s', es[1..], q, a);
      }
    }
  }

  /** Round-robin fairness: counted from a state where both are queued, two tasks of
      equal priority have had the same number of turns, give or take one, as long as
      neither is finished - whatever is forked in the meantime. */
  lemma {:induction false} Fairness<T>(s: State<T>, es: seq<Event<T>>, q: nat, a: T, b: T)
    requires WellFormed(s) && Legal(s, es, q)
    requires a in s.left && b in s.left && s.left[a] > 0 && s.left[b] > 0 && s.prio[a] == s.prio[b]
    requires Unfinished(s, es, q, a) && Unfinished(s, es, q, b)
    ensures -1 <= Turns(Log(s, es, q), a) - Turns(Log(s, es, q), b) <= 1
  {
    var p := s.prio[a];
    if a != b {
      var i :| 0 <= i < |s.queues[p]| && s.queues[p][i] == a;
      var j :| 0 <= j < |s.queues[p]| && s.queues[p][j] == b;
      if i < j {
        TurnsAlternate(s, es, q, p, a, b);
      } else {
        TurnsAlternate(s, es, q, p, b, a);
      }
    }
  }

  // ---------------------------------------------------------------------------
  // Arrivals
  // ---------------------------------------------------------------------------

  /** A forked task stands behind every task of its priority, with its slice; no other
      task is moved or touched. */
  lemma ArrivesLast<T>(s: State<T>, q: nat, t: T, p: nat, slice: nat)
    requires WellFormed(s) && Possible(s, Fork(t, p, slice))
    ensures
      var s' := Apply(s, Fork(t, p, slice), q);
      && (forall x :: x in s.queues[p] ==> Ahead(s'.queues[p], x, t))
      && (forall x, y :: Ahead(s.queues[p], x, y) ==> Ahead(s'.queues[p], x, y))
      && (forall j :: 0 <= j < |s.queues| && j != p ==> s'.queues[j] == s.queues[j])
      && t in s'.left && s'.left[t] == slice && t in s'.prio && s'.prio[t] == p
      && (forall x :: x in s.left ==> x in s'.left && s'.left[x] == s.left[x] && s'.prio[x] == s.prio[x])
  {
    var ts, s' := s.queues[p], Apply(s, Fork(t, p, slice), q);
    forall x | x in ts
      ensures Ahead(s'.queues[p], x, t)
    {
      var i :| 0 <= i < |ts| && ts[i] == x;
      assert s'.queues[p][i] == x && s'.queues[p][|ts|] == t;
    }
    forall x, y | Ahead(ts, x, y)
      ensures Ahead(s'.queues[p], x, y)
    {
      var i, j :| 0 <= i < j < |ts| && ts[i] == x && ts[j] == y;
      assert s'.queues[p][i] == x && s'.queues[p][j] == y;
    }
  }

  /** Whoever stands behind another task gets no turn before it. */
  lemma {:induction false} WaitsBehind<T>(s: State<T>, es: seq<Event<T>>, q: nat, p: nat, a: T, b: T)
    requires WellFormed(s) && Legal(s, es, q)
    requires p < SO_MAX_PRIO && Ahead(s.queues[p], a, b)
    ensures Turns(Log(s, es, q), a) == 0 ==> Turns(Log(s, es, q), b) == 0
    decreases |es|
  {
    if es == [] {
    } else {
      ApplyWellFormed(s, es[0], q);
      AheadAfterEvent(s, es[0], q, p, a, b);
      TurnsSplit(s, es, q, a);
      TurnsSplit(s, es, q, b);
      if TurnNow(s, es[0], a) == 0 {
        WaitsBehind(Apply(s, es[0], q), es[1..], q, p, a, b);
      }
    }
  }

  /** First come, first served: whatever happens after a fork, the new task gets no turn
      before each task that was queued at its priority has had one. */
  lemma NewcomerWaits<T>(s: State<T>, es: seq<Event<T>>, q: nat, t: T, p: nat, slice: nat, x: T)
    requires WellFormed(s) && Legal(s, [Fork(t, p, slice)] + es, q)
    requires p < |s.queues| && x in s.queues[p]
    ensures
      var log := Log(s, [Fork(t, p, slice)] + es, q);
      Turns(log, x) == 0 ==> Turns(log, t) == 0
  {
    var e := Fork(t, p, slice);
    AfterFork(s, e, es, q, x);
    AfterFork(s, e, es, q, t);
    ArrivesLast(s, q, t, p, slice);
    ApplyWellFormed(s, e, q);
    WaitsBehind(Apply(s, e, q), es, q, p, x, t);
  }

  lemma AfterFork<T>(s: State<T>, e: Event<T>, es: seq<Event<T>>, q: nat, x: T)
    requires Legal(s, [e] + es, q) && e.Fork?
    ensures Possible(s, e) && Legal(Apply(s, e, q), es, q)
    ensures After(s, [e] + es, q) == After(Apply(s, e, q), es, q)
    ensures Turns(Log(s, [e] + es, q), x) == Turns(Log(Apply(s, e, q), es, q), x)
  {
    assert ([e] + es)[1..] == es;
    TurnsSplit(s, [e] + es, q, x);
  }

  /** From its fork on, a task has the priority it was forked with, and for a slice that
      stops, the turns it has had and those it needs add up to the turns of its slice. */
  lemma NewcomerLedger<T>(s: State<T>, es: seq<Event<T>>, q: nat, t: T, p: nat, slice: nat)
    requires WellFormed(s) && Legal(s, [Fork(t, p, slice)] + es, q)
    ensures
      var s' := After(s, [Fork(t, p, slice)] + es, q);
      && t in s'.left && t in s'.prio && s'.prio[t] == p
      && (Stops(slice, q) ==>
            Needed(s'.left[t], q) + Turns(Log(s, [Fork(t, p, slice)] + es, q), t) == Needed(slice, q))
  {
    var e := Fork(t, p, slice);
    AfterFork(s, e, es, q, t);
    ArrivesLast(s, q, t, p, slice);
    ApplyWellFormed(s, e, q);
    SliceLedger(Apply(s, e, q), es, q, t);
  }

  // ---------------------------------------------------------------------------
  // A run of the dispatcher until nothing is ready
  // ---------------------------------------------------------------------------

  /** Turns the tasks of a queue still need. */
  ghost function QueueWork<T>(ts: seq<T>, left: map<T, nat>, q: nat): nat
  {
    if ts == [] then 0
    else (if ts[0] in left then Needed(left[ts[0]], q) else 0) + QueueWork(ts[1..], left, q)
  }

  ghost function Work<T>(queues: seq<seq<T>>, left: map<T, nat>, q: nat): nat
  {
    if queues == [] then 0 else QueueWork(queues[0], left, q) + Work(queues[1..], left, q)
  }

  lemma {:induction false} QueueWorkAppend<T>(ts: seq<T>, t: T, left: map<T, nat>, q: nat)
    requires t in left
    ensures QueueWork(ts + [t], left, q) == QueueWork(ts, left, q) + Needed(left[t], q)
  {
    if ts == [] {
    } else {
      assert (ts + [t])[1..] == ts[1..] + [t];
      QueueWorkAppend(ts[1..], t, left, q);
    }
  }

  lemma {:induction false} QueueWorkFrame<T>(ts: seq<T>, left: map<T, nat>, q: nat, t: T, v: nat)
    requires t !in ts
    ensures QueueWork(ts, left[t := v], q) == QueueWork(ts, left, q)
  {
    if ts == [] {
    } else {
      QueueWorkFrame(ts[1..], left, q, t, v);
    }
  }

  lemma PutBackWork<T>(ts: seq<T>, t: T, left: map<T, nat>, q: nat)
    requires t in left
    ensures QueueWork(ts + if left[t] > 0 then [t] else [], left, q) == QueueWork(ts, left, q) + Needed(left[t], q)
  {
    if left[t] > 0 {
      QueueWorkAppend(ts, t, left, q);
    } else {
      NeededNone(q);
      assert ts + [] == ts;
    }
  }

  /** Only the queue that is served changes. */
  lemma {:induction false} WorkUpdate<T>(queues: seq<seq<T>>, p: nat, ts: seq<T>, left: map<T, nat>, q: nat,
                                         t: T, v: nat)
    requires p < |queues|
    requires forall j :: 0 <= j < |queues| && j != p ==> t !in queues[j]
    ensures Work(queues[p := ts], left[t := v], q) + QueueWork(queues[p], left, q)
            == Work(queues, left, q) + QueueWork(ts, left[t := v], q)
  {
    if p == 0 {
      assert queues[p := ts][1..] == queues[1..];
      WorkFrame(queues[1..], left, q, t, v);
    } else {
      assert queues[p := ts][1..] == queues[1..][p - 1 := ts];
      WorkUpdate(queues[1..], p - 1, ts, left, q, t, v);
      QueueWorkFrame(queues[0], left, q, t, v);
    }
  }

  lemma {:induction false} WorkFrame<T>(queues: seq<seq<T>>, left: map<T, nat>, q: nat, t: T, v: nat)
    requires forall j :: 0 <= j < |queues| ==> t !in queues[j]
    ensures Work(queues, left[t := v], q) == Work(queues, left, q)
  {
    if queues == [] {
    } else {
      QueueWorkFrame(queues[0], left, q, t, v);
      WorkFrame(queues[1..], left, q, t, v);
    }
  }

  lemma SelectedWork<T>(s: State<T>, q: nat)
    requires WellFormed(s) && !Idle(s)
    ensures Dispatchable(s) && forall ts :: ts in Selected(s).queues ==> Next(s) !in ts
    ensures Work(Selected(s).queues, s.left, q) == Work(s.queues, s.left, q) - Needed(s.left[Next(s)], q)
  {
    ServedQueue(s);
    var p, t := Highest(s.queues, |s.queues|), Next(s);
    WorkUpdate(s.queues, p, s.queues[p][1..], s.left, q, t, s.left[t]);
    assert s.left[t := s.left[t]] == s.left;
  }

  lemma RanWork<T>(s: State<T>, t: T, q: nat)
    requires t in s.left && t in s.prio && s.prio[t] < |s.queues|
    requires forall ts :: ts in s.queues ==> t !in ts
    ensures Work(Ran(s, t, q).queues, Ran(s, t, q).left, q) == Work(s.queues, s.left, q) + Needed(U32(s.left[t] - q), q)
  {
    var p, s' := s.prio[t], Ran(s, t, q);
    WorkUpdate(s.queues, p, s'.queues[p], s.left, q, t, s'.left[t]);
    QueueWorkFrame(s.queues[p], s.left, q, t, s'.left[t]);
    PutBackWork(s.queues[p], t, s'.left, q);
  }

  /** Every hand-off is one turn of the remaining work. */
  lemma {:induction false} DispatchedWork<T>(s: State<T>, q: nat)
    requires WellFormed(s) && Dispatchable(s) && s.left[Next(s)] > 0 && Stops(s.left[Next(s)], q)
    ensures Work(Dispatched(s, q).queues, Dispatched(s, q).left, q) == Work(s.queues, s.left, q) - 1
  {
    SelectedWork(s, q);
    RanWork(Selected(s), Next(s), q);
    NeededStep(s.left[Next(s)], q);
  }

  /** The tasks that ran, in order, and the state they left behind. */
  datatype Outcome<!T> = Outcome(log: seq<T>, end: State<T>)

  /** so_runnnn: hand-offs until no task is ready. */
  function Run<T(==)>(s: State<T>, q: nat): Outcome<T>
    requires Valid(s, q)
    decreases Work(s.queues, s.left, q)
  {
    if Idle(s) then Outcome([], s)
    else
      DispatchedValid(s, q);
      DispatchedWork(s, q);
      var rest := Run(Dispatched(s, q), q);
      Outcome([Next(s)] + rest.log, rest.end)
  }

  lemma RunStep<T>(s: State<T>, q: nat)
    requires Valid(s, q) && !Idle(s)
    ensures Dispatchable(s) && Valid(Dispatched(s, q), q)
    ensures
      var rest := Run(Dispatched(s, q), q);
      Run(s, q) == Outcome([Next(s)] + rest.log, rest.end)
  {
    DispatchedValid(s, q);
    DispatchedWork(s, q);
  }

  lemma {:induction false} NoWorkWhenIdle<T>(queues: seq<seq<T>>, left: map<T, nat>, q: nat)
    requires forall p :: 0 <= p < |queues| ==> queues[p] == []
    ensures Work(queues, left, q) == 0
  {
    if queues == [] {
    } else {
      NoWorkWhenIdle(queues[1..], left, q);
    }
  }

  lemma {:induction false} RunTurns<T>(s: State<T>, q: nat, t: T)
    requires Valid(s, q)
    ensures Turns(Run(s, q).log, t) == if t in s.left then Needed(s.left[t], q) else 0
    decreases Work(s.queues, s.left, q)
  {
    if Idle(s) {
    } else {
      DispatchedValid(s, q);
      DispatchedWork(s, q);
      RunTurns(Dispatched(s, q), q, t);
      TurnsCons(Next(s), Run(Dispatched(s, q), q).log, t);
    }
  }

  lemma TurnsCons<T>(x: T, log: seq<T>, t: T)
    ensures Turns([x] + log, t) == Turns(log, t) + if x == t then 1 else 0
  {
  }

  lemma {:induction false} RunLength<T>(s: State<T>, q: nat)
    requires Valid(s, q)
    ensures |Run(s, q).log| == Work(s.queues, s.left, q)
    ensures Valid(Run(s, q).end, q) && Idle(Run(s, q).end) && Run(s, q).end.left.Keys == s.left.Keys
    decreases Work(s.queues, s.left, q)
  {
    if Idle(s) {
      NoWorkWhenIdle(s.queues, s.left, q);
    } else {
      DispatchedValid(s, q);
      DispatchedWork(s, q);
      RunLength(Dispatched(s, q), q);
    }
  }

  lemma IdleIsDrained<T>(s: State<T>, q: nat)
    requires Valid(s, q) && Idle(s)
    ensures s.queues == [[], [], [], [], []]
    ensures forall t :: t in s.left ==> s.left[t] == 0
  {
  }

  /** A run ends with every queue empty and every slice used up, after exactly as
      many hand-offs as there were turns to come; each task gets exactly what it needs. */
  lemma RunDrainsQueues<T>(s: State<T>, q: nat)
    requires Valid(s, q)
    ensures |Run(s, q).log| == Work(s.queues, s.left, q)
    ensures forall t :: Turns(Run(s, q).log, t) == if t in s.left then Needed(s.left[t], q) else 0
    ensures Run(s, q).end.queues == [[], [], [], [], []]
    ensures Run(s, q).end.left.Keys == s.left.Keys && forall t :: t in s.left ==> Run(s, q).end.left[t] == 0
  {
    RunLength(s, q);
    IdleIsDrained(Run(s, q).end, q);
    forall t
      ensures Turns(Run(s, q).log, t) == if t in s.left then Needed(s.left[t], q) else 0
    {
      RunTurns(s, q, t);
    }
  }

  /** A task whose slice is a whole number of quanta gets that number of turns. */
  lemma WholeSliceTurns<T>(s: State<T>, q: nat, t: T)
    requires Valid(s, q) && t in s.left && s.left[t] < UINT_RANGE && q > 0 && s.left[t] % q == 0
    ensures Turns(Run(s, q).log, t) == s.left[t] / q
  {
    RunTurns(s, q, t);
    WholeNeedsQuotient(s.left[t], q);
  }

  lemma LoggedIsReady<T>(s: State<T>, q: nat, i: nat)
    requires Valid(s, q) && i < |Run(s, q).log|
    ensures !Idle(s)
    ensures Run(s, q).log[i] in s.left && s.left[Run(s, q).log[i]] > 0
  {
    var t := Run(s, q).log[i];
    assert t in multiset(Run(s, q).log);
    RunTurns(s, q, t);
  }

  /** No task of a lower priority runs before a task of a higher one is finished. */
  lemma {:induction false} HigherPriorityFirst<T>(s: State<T>, q: nat, i: nat, j: nat)
    requires Valid(s, q) && i <= j < |Run(s, q).log|
    ensures Run(s, q).log[i] in s.prio && Run(s, q).log[j] in s.prio
    ensures s.prio[Run(s, q).log[i]] >= s.prio[Run(s, q).log[j]]
    decreases i
  {
    LoggedIsReady(s, q, j);
    RunStep(s, q);
    if i > 0 {
      HigherPriorityFirst(Dispatched(s, q), q, i - 1, j - 1);
    } else {
      ReadyIsNotAbove(s, q, Run(s, q).log[j]);
    }
  }

  lemma ReadyIsNotAbove<T>(s: State<T>, q: nat, t: T)
    requires Valid(s, q) && !Idle(s) && t in s.left && s.left[t] > 0
    ensures Next(s) in s.prio && s.prio[t] <= s.prio[Next(s)]
  {
  }

  function Dispatches<T>(n: nat): (es: seq<Event<T>>)
    ensures |es| == n && forall k :: 0 <= k < n ==> es[k] == Dispatch
  {
    if n == 0 then [] else [Dispatch] + Dispatches(n - 1)
  }

  /** A run is as many dispatch events as it has hand-offs, so what is proved about
      events, fairness included, holds of it. */
  lemma {:induction false} RunIsDispatches<T>(s: State<T>, q: nat)
    requires Valid(s, q)
    ensures
      var es := Dispatches(|Run(s, q).log|);
      Legal(s, es, q) && Run(s, q) == Outcome(Log(s, es, q), After(s, es, q))
    decreases Work(s.queues, s.left, q)
  {
    if Idle(s) {
    } else {
      DispatchedValid(s, q);
      DispatchedWork(s, q);
      RunIsDispatches(Dispatched(s, q), q);
      RunStep(s, q);
      RunFirst(s, Dispatches(|Run(Dispatched(s, q), q).log|), q);
    }
  }

  lemma RunFirst<T>(s: State<T>, es: seq<Event<T>>, q: nat)
    requires Valid(s, q) && Dispatchable(s) && Valid(Dispatched(s, q), q) && Legal(Dispatched(s, q), es, q)
    requires Run(Dispatched(s, q), q) == Outcome(Log(Dispatched(s, q), es, q), After(Dispatched(s, q), es, q))
    ensures Legal(s, [Dispatch] + es, q)
    ensures Run(s, q) == Outcome(Log(s, [Dispatch] + es, q), After(s, [Dispatch] + es, q))
  {
    RunStep(s, q);
    DispatchFirst(s, es, q);
  }

  lemma DispatchFirst<T>(s: State<T>, es: seq<Event<T>>, q: nat)
    requires Dispatchable(s) && Legal(Dispatched(s, q), es, q)
    ensures Legal(s, [Dispatch] + es, q)
    ensures Log(s, [Dispatch] + es, q) == [Next(s)] + Log(Dispatched(s, q), es, q)
    ensures After(s, [Dispatch] + es, q) == After(Dispatched(s, q), es, q)
  {
    assert ([Dispatch] + es)[1..] == es;
  }
}
