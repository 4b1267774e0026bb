/** prodcons.c: one producer and one consumer around a bounded stack, with a mutex and
    two condition variables. The constants 3 and 10 are parameters. */
module ProdCons {
  import Runs

  /** buffer_t */
  class Buffer {
    const buff: array<int>
    var count: nat

    ghost predicate Valid()
      reads this
    {
      count <= buff.Length
    }

    ghost function Contents(): seq<int>
      reads this, buff
      requires Valid()
    {
      buff[..count]
    }

    /** init_buffer */
    constructor (size: nat)
      ensures Valid() && fresh(buff) && buff.Length == size && Contents() == []
    {
      buff := new int[size](_ => 0);
      count := 0;
    }

    /** insert_item */
    method InsertItem(item: int)
      requires Valid() && count < buff.Length
      modifies this, buff
      ensures Valid() && Contents() == old(Contents()) + [item]
    {
      buff[count] := item;
      count := count + 1;
    }

    /** remove_item */
    method RemoveItem() returns (item: int)
      requires Valid() && Contents() != []
      modifies this
      ensures Valid() && Contents() + [item] == old(Contents())
    {
      count := count - 1;
      item := buff[count];
    }

    /** is_buffer_full */
    method IsFull() returns (full: bool)
      requires Valid()
      ensures full <==> |Contents()| == buff.Length
    {
      full := count == buff.Length;
    }

    /** is_buffer_empty */
    method IsEmpty() returns (empty: bool)
      requires Valid()
      ensures empty <==> Contents() == []
    {
      empty := count == 0;
    }
  }

  // ---------------------------------------------------------------------------
  // The two threads as a transition system
  // ---------------------------------------------------------------------------

  /** BUFFER_SIZE and NR_ITERATIONS. */
  datatype Config = Config(size: nat, items: nat)

  datatype Thread = Producer | Consumer

  datatype Owner = Free | Held(thread: Thread)

  /** Where a thread is; the names are those of its next step. A `Waiting` thread is
      in pthread_cond_wait; a `Woken` one has been signalled and wants the mutex. */
  datatype Pc = Lock | Test | Waiting | Woken | Work | Signal | Unlock | Done

  datatype State = State(mutex: Owner, buf: seq<int>, prod: Pc, cons: Pc, made: nat, consumed: seq<int>)

  datatype Action = Step(thread: Thread) | Spurious(thread: Thread)

  function Other(t: Thread): Thread {
    if t.Producer? then Consumer else Producer
  }

  function PcOf(s: State, t: Thread): Pc {
    if t.Producer? then s.prod else s.cons
  }

  /** Loop iterations a thread has completed the work of. */
  function Worked(s: State, t: Thread): nat {
    if t.Producer? then s.made else |s.consumed|
  }

  /** The condition a thread waits on: the buffer is full, or empty. */
  predicate Blocked(c: Config, s: State, t: Thread) {
    if t.Producer? then |s.buf| == c.size else s.buf == []
  }

  function Init(c: Config): State {
    var first := if c.items > 0 then Lock else Done;
    State(Free, [], first, first, 0, [])
  }

  predicate Enabled(s: State, a: Action) {
    match a
    case Spurious(t) => PcOf(s, t) == Waiting
    case Step(t) =>
      match PcOf(s, t)
      case Lock | Woken => s.mutex == Free
      case Waiting | Done => false
      case _ => true
  }

  function Goto(s: State, t: Thread, pc: Pc): State {
    if t.Producer? then s.(prod := pc) else s.(cons := pc)
  }

  /** insert_item or remove_item. No run inserts into a full buffer or removes from an
      empty one (`BufferInvariant`). */
  function DoWork(s: State, t: Thread): State {
    if t.Producer? then s.(buf := s.buf + [s.made], made := s.made + 1)
    else if s.buf == [] then s
    else s.(buf := s.buf[..|s.buf| - 1], consumed := s.consumed + [s.buf[|s.buf| - 1]])
  }

  function Apply(c: Config, s: State, a: Action): State
    requires Enabled(s, a)
  {
    match a
    case Spurious(t) => Goto(s, t, Woken)
    case Step(t) =>
      match PcOf(s, t)
      case Lock => Goto(s, t, Test).(mutex := Held(t))
      case Woken => Goto(s, t, Test).(mutex := Held(t))
      case Test => if Blocked(c, s, t) then Goto(s, t, Waiting).(mutex := Free) else Goto(s, t, Work)
      case Work => Goto(DoWork(s, t), t, Signal)
      case Signal =>
        var woken := if !Blocked(c, s, Other(t)) && PcOf(s, Other(t)) == Waiting then Goto(s, Other(t), Woken) else s;
        Goto(woken, t, Unlock)
      case Unlock => Goto(s, t, if Worked(s, t) < c.items then Lock else Done).(mutex := Free)
  }

  function System(c: Config): Runs.System<State, Action> {
    Runs.System((s: State, a: Action) => Enabled(s, a),
                (s: State, a: Action) => if Enabled(s, a) then Apply(c, s, a) else s)
  }

  predicate Legal(c: Config, s: State, acts: seq<Action>) {
    Runs.Legal(System(c), s, acts)
  }

  function After(c: Config, s: State, acts: seq<Action>): State
    requires Legal(c, s, acts)
  {
    Runs.After(System(c), s, acts)
  }

  // ---------------------------------------------------------------------------
  // The invariant
  // ---------------------------------------------------------------------------

  /** The items 0, 1, .., n - 1 the producer makes. */
  function Items(n: nat): seq<int> {
    if n == 0 then [] else Items(n - 1) + [n - 1]
  }

  predicate Increasing(ts: seq<int>) {
    forall i, j :: 0 <= i < j < |ts| ==> ts[i] < ts[j]
  }

  /** The mutex is held by the thread inside its critical section. */
  predicate Exclusive(s: State) {
    forall t :: s.mutex == Held(t) <==> PcOf(s, t) in {Test, Work, Signal, Unlock}
  }

  /** Loop counters, and room or an item for the thread about to work. */
  predicate Counters(c: Config, s: State) {
    && |s.buf| <= c.size
    && (forall t :: Worked(s, t) <= c.items)
    && (forall t :: PcOf(s, t) in {Lock, Test, Waiting, Woken, Work} ==> Worked(s, t) < c.items)
    && (forall t :: PcOf(s, t) == Done ==> Worked(s, t) == c.items)
    && (forall t :: PcOf(s, t) == Work ==> !Blocked(c, s, t))
    && |s.consumed| + |s.buf| == s.made
  }

  /** A thread that waits has what it waits for, or is about to be signalled. */
  predicate NoLostWakeUp(c: Config, s: State) {
    forall t :: PcOf(s, t) == Waiting ==> Blocked(c, s, t) || PcOf(s, Other(t)) == Signal
  }

  /** Every item made is in the buffer or consumed, once. */
  predicate Conserved(s: State) {
    multiset(s.consumed) + multiset(s.buf) == multiset(Items(s.made))
  }

  /** The buffer is increasing, and an item is consumed no earlier than the buffer size
      allows. */
  predicate Ranges(c: Config, s: State) {
    && Increasing(s.buf)
    && (forall k :: 0 <= k < |s.buf| ==> 0 <= s.buf[k] < s.made)
    && (forall k :: 0 <= k < |s.consumed| ==> 0 <= s.consumed[k] < s.made && s.consumed[k] < k + c.size)
  }

  /** The order of a stack fed with increasing items: of two items smaller than an
      earlier one, the larger comes out first. */
  predicate LastInFirstOut(ts: seq<int>) {
    forall i, j, k :: 0 <= i < j < k < |ts| ==> !(ts[j] < ts[k] < ts[i])
  }

  /** No item in the buffer should have come out between two that did. */
  predicate NoneSkipped(ts: seq<int>, buf: seq<int>) {
    forall i, j, k :: 0 <= i < j < |ts| && 0 <= k < |buf| ==> !(ts[j] < buf[k] < ts[i])
  }

  predicate Order(c: Config, s: State) {
    Conserved(s) && Ranges(c, s) && LastInFirstOut(s.consumed) && NoneSkipped(s.consumed, s.buf)
  }

  predicate Inv(c: Config, s: State) {
    Exclusive(s) && Counters(c, s) && NoLostWakeUp(c, s) && Order(c, s)
  }

  lemma StepKeepsControl(c: Config, s: State, a: Action)
    requires Exclusive(s) && Counters(c, s) && Enabled(s, a)
    ensures Exclusive(Apply(c, s, a)) && Counters(c, Apply(c, s, a))
  {
    var s' := Apply(c, s, a);
    assert PcOf(s, Producer) == Work || PcOf(s, Consumer) == Work ==> s.mutex != Free;
    assert PcOf(s', Other(a.thread)) == PcOf(s, Other(a.thread)) || PcOf(s, Other(a.thread)) == Waiting;
  }

  lemma StepKeepsWakeUps(c: Config, s: State, a: Action)
    requires c.size >= 1 && Exclusive(s) && Counters(c, s) && NoLostWakeUp(c, s) && Enabled(s, a)
    ensures NoLostWakeUp(c, Apply(c, s, a))
  {
  }

  lemma WorkKeepsItems(s: State, t: Thread)
    requires Conserved(s)
    ensures Conserved(DoWork(s, t))
  {
    var s' := DoWork(s, t);
    if t.Producer? {
      assert multiset(s'.buf) == multiset(s.buf) + multiset{s.made};
    } else if s.buf != [] {
      assert s.buf == s'.buf + [s.buf[|s.buf| - 1]];
    }
  }

  lemma WorkKeepsRanges(c: Config, s: State, t: Thread)
    requires Ranges(c, s) && |s.buf| <= c.size && |s.consumed| + |s.buf| == s.made
    ensures Ranges(c, DoWork(s, t))
  {
  }

  lemma ProduceKeepsLifo(c: Config, s: State)
    requires Ranges(c, s) && NoneSkipped(s.consumed, s.buf)
    ensures NoneSkipped(s.consumed, DoWork(s, Producer).buf)
  {
  }

  lemma ConsumeKeepsLifo(ts: seq<int>, buf: seq<int>, last: int)
    requires LastInFirstOut(ts) && NoneSkipped(ts, buf + [last]) && Increasing(buf + [last])
    ensures LastInFirstOut(ts + [last]) && NoneSkipped(ts + [last], buf)
  {
    var all := buf + [last];
    assert all[|buf|] == last;
    assert forall k :: 0 <= k < |buf| ==> all[k] == buf[k];
    assert forall k :: 0 <= k < |buf| ==> all[k] < all[|buf|];
  }

  lemma WorkKeepsOrder(c: Config, s: State, t: Thread)
    requires Order(c, s) && |s.buf| <= c.size && |s.consumed| + |s.buf| == s.made
    ensures Order(c, DoWork(s, t))
  {
    WorkKeepsItems(s, t);
    WorkKeepsRanges(c, s, t);
    if t.Producer? {
      ProduceKeepsLifo(c, s);
    } else if s.buf != [] {
      var last := s.buf[|s.buf| - 1];
      assert s.buf == s.buf[..|s.buf| - 1] + [last];
      ConsumeKeepsLifo(s.consumed, s.buf[..|s.buf| - 1], last);
    }
  }

  lemma StepKeepsOrder(c: Config, s: State, a: Action)
    requires Counters(c, s) && Order(c, s) && Enabled(s, a)
    ensures Order(c, Apply(c, s, a))
  {
    if a.Step? && PcOf(s, a.thread) == Work {
      WorkKeepsOrder(c, s, a.thread);
      SameItems(c, DoWork(s, a.thread), Apply(c, s, a));
    } else {
      SameItems(c, s, Apply(c, s, a));
    }
  }

  lemma SameItems(c: Config, s: State, s': State)
    requires Order(c, s) && s'.buf == s.buf && s'.made == s.made && s'.consumed == s.consumed
    ensures Order(c, s')
  {
  }

  lemma {:induction false} InvAlong(c: Config, s: State, acts: seq<Action>)
    requires c.size >= 1 && Inv(c, s) && Legal(c, s, acts)
    ensures Inv(c, After(c, s, acts))
    decreases |acts|
  {
    if acts == [] {
    } else {
      StepKeepsControl(c, s, acts[0]);
      StepKeepsWakeUps(c, s, acts[0]);
      StepKeepsOrder(c, s, acts[0]);
      InvAlong(c, Apply(c, s, acts[0]), acts[1..]);
    }
  }

  lemma Reachable(c: Config, acts: seq<Action>)
    requires c.size >= 1 && Legal(c, Init(c), acts)
    ensures Inv(c, After(c, Init(c), acts))
  {
    InvAlong(c, Init(c), acts);
  }

  // ---------------------------------------------------------------------------
  // Safety
  // ---------------------------------------------------------------------------

  /** In every interleaving, spurious wake-ups included: an insertion finds room, a
      removal finds an item, and at most one thread is in its critical section. */
  lemma BufferInvariant(c: Config, acts: seq<Action>)
    requires c.size >= 1 && Legal(c, Init(c), acts)
    ensures
      var s := After(c, Init(c), acts);
      && |s.buf| <= c.size && Increasing(s.buf)
      && multiset(s.consumed) + multiset(s.buf) == multiset(Items(s.made))
      && (s.prod == Work ==> |s.buf| < c.size)
      && (s.cons == Work ==> s.buf != [])
      && !(s.prod in {Test, Work, Signal, Unlock} && s.cons in {Test, Work, Signal, Unlock})
  {
    Reachable(c, acts);
    var s := After(c, Init(c), acts);
    assert PcOf(s, Producer) == s.prod && PcOf(s, Consumer) == s.cons;
  }

  predicate Finished(s: State) {
    s.prod == Done && s.cons == Done
  }

  lemma SameLength<T>(a: seq<T>, b: seq<T>)
    requires multiset(a) == multiset(b)
    ensures |a| == |b|
  {
    assert |multiset(a)| == |a| && |multiset(b)| == |b|;
  }

  /** What a complete run can have consumed: every item once, in the order of a stack
      that never holds more than `size`. */
  predicate Outcome(c: Config, ts: seq<int>) {
    && multiset(ts) == multiset(Items(c.items))
    && LastInFirstOut(ts)
    && forall k :: 0 <= k < |ts| ==> ts[k] < k + c.size
  }

  lemma ConsumedIsOutcome(c: Config, acts: seq<Action>)
    requires c.size >= 1 && Legal(c, Init(c), acts) && Finished(After(c, Init(c), acts))
    ensures After(c, Init(c), acts).buf == [] && Outcome(c, After(c, Init(c), acts).consumed)
  {
    Reachable(c, acts);
    var s := After(c, Init(c), acts);
    assert PcOf(s, Producer) == Done && PcOf(s, Consumer) == Done;
    assert Worked(s, Producer) == c.items && Worked(s, Consumer) == c.items;
  }

  // ---------------------------------------------------------------------------
  // Progress
  // ---------------------------------------------------------------------------

  /** A waiting thread that has not been signalled has nothing to do: the buffer is
      full, or empty, as soon as the other thread is out of its critical section. */
  lemma WaitersAreBlocked(c: Config, acts: seq<Action>, t: Thread)
    requires c.size >= 1 && Legal(c, Init(c), acts)
    ensures
      var s := After(c, Init(c), acts);
      PcOf(s, t) == Waiting && s.mutex == Free ==> Blocked(c, s, t)
  {
    Reachable(c, acts);
  }

  lemma SomeStepEnabled(c: Config, s: State)
    requires c.size >= 1 && Inv(c, s) && !Finished(s)
    ensures exists t :: Enabled(s, Step(t))
  {
    assert PcOf(s, Producer) == s.prod && PcOf(s, Consumer) == s.cons;
    assert Worked(s, Producer) == s.made && Worked(s, Consumer) == |s.consumed|;
    if s.mutex != Free {
      assert s.mutex == Held(s.mutex.thread);
      assert Enabled(s, Step(s.mutex.thread));
    } else if s.prod in {Lock, Woken} {
      assert Enabled(s, Step(Producer));
    } else {
      assert s.prod == Waiting ==> Blocked(c, s, Producer);
      assert s.cons == Waiting ==> Blocked(c, s, Consumer);
      assert s.cons in {Lock, Woken};
      assert Enabled(s, Step(Consumer));
    }
  }

  /** Without relying on a spurious wake-up, no interleaving deadlocks, exactly when the
      buffer has room for an item or there is nothing to pass on. */
  lemma NoDeadlockIff(c: Config)
    ensures c.size >= 1 || c.items == 0 <==>
      forall acts :: Legal(c, Init(c), acts) && !Finished(After(c, Init(c), acts)) ==>
        exists t :: Enabled(After(c, Init(c), acts), Step(t))
  {
    if c.size >= 1 || c.items == 0 {
      forall acts | Legal(c, Init(c), acts) && !Finished(After(c, Init(c), acts))
        ensures exists t :: Enabled(After(c, Init(c), acts), Step(t))
      {
        if c.items > 0 {
          Reachable(c, acts);
          SomeStepEnabled(c, After(c, Init(c), acts));
        }
      }
    } else {
      var acts := BothSleep(c);
    }
  }

  /** With no room the buffer is full and empty at once: both threads go to sleep. */
  lemma BothSleep(c: Config) returns (acts: seq<Action>)
    requires c.size == 0 && c.items > 0
    ensures Legal(c, Init(c), acts) && !Finished(After(c, Init(c), acts))
    ensures forall t :: !Enabled(After(c, Init(c), acts), Step(t))
  {
    var s0 := Init(c);
    var s1 := Apply(c, s0, Step(Producer));
    var s2 := Apply(c, s1, Step(Producer));
    var s3 := Apply(c, s2, Step(Consumer));
    var s4 := Apply(c, s3, Step(Consumer));
    assert s4 == State(Free, [], Waiting, Waiting, 0, []);
    acts := Runs.Prepend(System(c), s3, Step(Consumer), []);
    acts := Runs.Prepend(System(c), s2, Step(Consumer), acts);
    acts := Runs.Prepend(System(c), s1, Step(Producer), acts);
    acts := Runs.Prepend(System(c), s0, Step(Producer), acts);
  }

  function Rank(pc: Pc): nat {
    match pc
    case Signal => 13
    case Unlock => 9
    case Lock => 8
    case Woken => 8
    case Test => 7
    case Work => 6
    case Waiting => 6
    case Done => 0
  }

  function Measure(c: Config, s: State): int {
    20 * (2 * c.items - s.made - |s.consumed|) + Rank(s.prod) + Rank(s.cons)
  }

  function SpuriousCount(acts: seq<Action>): nat {
    if acts == [] then 0 else (if acts[0].Spurious? then 1 else 0) + SpuriousCount(acts[1..])
  }

  lemma StepDecreasesMeasure(c: Config, s: State, a: Action)
    requires Exclusive(s) && Counters(c, s) && Enabled(s, a)
    ensures Measure(c, Apply(c, s, a)) <= if a.Spurious? then Measure(c, s) + 2 else Measure(c, s) - 1
  {
  }

  lemma {:induction false} StepsBounded(c: Config, s: State, acts: seq<Action>)
    requires c.size >= 1 && Inv(c, s) && Legal(c, s, acts)
    ensures |acts| <= Measure(c, s) + 3 * SpuriousCount(acts)
    decreases |acts|
  {
    if acts == [] {
      assert Worked(s, Producer) == s.made && Worked(s, Consumer) == |s.consumed|;
    } else {
      StepDecreasesMeasure(c, s, acts[0]);
      StepKeepsControl(c, s, acts[0]);
      StepKeepsWakeUps(c, s, acts[0]);
      StepKeepsOrder(c, s, acts[0]);
      StepsBounded(c, Apply(c, s, acts[0]), acts[1..]);
    }
  }

  /** A run without spurious wake-ups is finite, and each of those adds at most three
      steps. */
  lemma RunsAreFinite(c: Config, acts: seq<Action>)
    requires c.size >= 1 && Legal(c, Init(c), acts)
    ensures |acts| <= 40 * c.items + 16 + 3 * SpuriousCount(acts)
  {
    StepsBounded(c, Init(c), acts);
  }

  // ---------------------------------------------------------------------------
  // Every such order comes about
  // ---------------------------------------------------------------------------

  /** Both threads are between two iterations. */
  function Quiet(c: Config, buf: seq<int>, made: nat, consumed: seq<int>): State {
    State(Free, buf, if made < c.items then Lock else Done, if |consumed| < c.items then Lock else Done, made, consumed)
  }

  function Round(t: Thread): seq<Action> {
    [Step(t), Step(t), Step(t), Step(t), Step(t)]
  }

  lemma OneRound(c: Config, s: State, t: Thread)
    requires s == Quiet(c, s.buf, s.made, s.consumed) && Worked(s, t) < c.items && !Blocked(c, s, t)
    ensures Legal(c, s, Round(t))
    ensures
      var s' := DoWork(s, t);
      After(c, s, Round(t)) == Quiet(c, s'.buf, s'.made, s'.consumed)
  {
    var s1 := Apply(c, s, Step(t));
    var s2 := Apply(c, s1, Step(t));
    var s3 := Apply(c, s2, Step(t));
    var s4 := Apply(c, s3, Step(t));
    var acts := Runs.Prepend(System(c), s4, Step(t), []);
    acts := Runs.Prepend(System(c), s3, Step(t), acts);
    acts := Runs.Prepend(System(c), s2, Step(t), acts);
    acts := Runs.Prepend(System(c), s1, Step(t), acts);
    acts := Runs.Prepend(System(c), s, Step(t), acts);
    assert acts == Round(t);
  }

  lemma {:induction false} ProduceUpTo(c: Config, acts: seq<Action>, n: nat) returns (more: seq<Action>)
    requires Legal(c, Init(c), acts)
    requires
      var s := After(c, Init(c), acts);
      && s == Quiet(c, s.buf, s.made, s.consumed) && n <= c.items
      && |s.consumed| + |s.buf| == s.made && n <= |s.consumed| + c.size
    ensures Legal(c, Init(c), more)
    ensures
      var s, s' := After(c, Init(c), acts), After(c, Init(c), more);
      && s' == Quiet(c, s'.buf, s'.made, s.consumed)
      && s'.made == if n > s.made then n else s.made
    decreases n - After(c, Init(c), acts).made
  {
    var s := After(c, Init(c), acts);
    if s.made >= n {
      more := acts;
    } else {
      OneRound(c, s, Producer);
      Runs.LegalAppend(System(c), Init(c), acts, Round(Producer));
      more := ProduceUpTo(c, acts + Round(Producer), n);
    }
  }

  lemma {:induction false} ItemOnce(n: nat, x: int)
    ensures multiset(Items(n))[x] == if 0 <= x < n then 1 else 0
  {
    if n == 0 {
    } else {
      ItemOnce(n - 1, x);
    }
  }

  lemma {:induction false} ItemsLength(n: nat)
    ensures |Items(n)| == n
  {
    if n == 0 {
    } else {
      ItemsLength(n - 1);
    }
  }

  lemma AmongFirst(ts: seq<int>, k: nat, j: nat)
    requires j < k <= |ts|
    ensures ts[j] in ts[..k]
  {
    assert ts[..k][j] == ts[j];
  }

  /** An item not among the first `k` comes later. */
  lemma ComesLater(c: Config, ts: seq<int>, k: nat, x: int) returns (j: nat)
    requires Outcome(c, ts) && k <= |ts| && 0 <= x < c.items && x !in ts[..k]
    ensures k <= j < |ts| && ts[j] == x
  {
    ItemOnce(c.items, x);
    assert x in multiset(ts);
    j :| j < |ts| && ts[j] == x;
    if j < k {
      AmongFirst(ts, k, j);
    }
  }

  lemma NotYet(c: Config, ts: seq<int>, k: nat)
    requires Outcome(c, ts) && k < |ts|
    ensures ts[k] !in ts[..k] && 0 <= ts[k] < c.items
  {
    assert ts == ts[..k] + [ts[k]] + ts[k + 1..];
    assert ts[k] in multiset(ts);
    ItemOnce(c.items, ts[k]);
  }

  /** Everything made and not among the first `k` is in the buffer, and the reverse. */
  lemma InBuffer(s: State, x: int)
    requires Conserved(s)
    ensures 0 <= x < s.made && x !in s.consumed ==> x in s.buf
    ensures x in s.buf ==> 0 <= x < s.made && x !in s.consumed
  {
    ItemOnce(s.made, x);
    assert x in s.buf ==> x in multiset(s.buf);
    assert x in s.consumed ==> x in multiset(s.consumed);
  }

  /** The item due next is on top of the stack. */
  lemma DueIsOnTop(c: Config, s: State, ts: seq<int>, k: nat)
    requires Outcome(c, ts) && k < |ts| && s.consumed == ts[..k]
    requires Conserved(s) && Increasing(s.buf) && ts[k] < s.made <= c.items
    requires s.made == ts[k] + 1 || exists i :: 0 <= i < k && s.made == ts[i] + 1
    ensures s.buf != [] && s.buf[|s.buf| - 1] == ts[k]
  {
    NotYet(c, ts, k);
    InBuffer(s, ts[k]);
    var top := s.buf[|s.buf| - 1];
    InBuffer(s, top);
    if top != ts[k] {
      assert ts[k] < top;
      var i :| 0 <= i < k && s.made == ts[i] + 1;
      assert ts[..k][i] == ts[i];
      var j := ComesLater(c, ts, k, top);
    }
  }

  predicate ReadyFor(c: Config, ts: seq<int>, k: nat, acts: seq<Action>)
    requires k <= |ts|
  {
    && Legal(c, Init(c), acts)
    && var s := After(c, Init(c), acts);
       && s == Quiet(c, s.buf, s.made, ts[..k])
       && (s.made == 0 || exists i :: 0 <= i < k && s.made == ts[i] + 1)
  }

  lemma ReachableItems(c: Config, acts: seq<Action>)
    requires c.size >= 1 && Legal(c, Init(c), acts)
    ensures
      var s := After(c, Init(c), acts);
      && Conserved(s) && Increasing(s.buf) && s.made <= c.items
      && |s.consumed| + |s.buf| == s.made
  {
    Reachable(c, acts);
    assert Worked(After(c, Init(c), acts), Producer) <= c.items;
  }

  lemma RealiseNext(c: Config, ts: seq<int>, k: nat, acts: seq<Action>) returns (more: seq<Action>)
    requires c.size >= 1 && Outcome(c, ts) && k < |ts| <= c.items && ReadyFor(c, ts, k, acts)
    ensures ReadyFor(c, ts, k + 1, more)
  {
    NotYet(c, ts, k);
    ReachableItems(c, acts);
    more := ProduceUpTo(c, acts, ts[k] + 1);
    ReachableItems(c, more);
    var s := After(c, Init(c), more);
    DueIsOnTop(c, s, ts, k);
    more := ConsumeDue(c, ts, k, more);
  }

  lemma ConsumeDue(c: Config, ts: seq<int>, k: nat, acts: seq<Action>) returns (more: seq<Action>)
    requires k < |ts| <= c.items && Legal(c, Init(c), acts)
    requires
      var s := After(c, Init(c), acts);
      && s == Quiet(c, s.buf, s.made, ts[..k])
      && s.buf != [] && s.buf[|s.buf| - 1] == ts[k]
      && (s.made == ts[k] + 1 || exists i :: 0 <= i < k && s.made == ts[i] + 1)
    ensures ReadyFor(c, ts, k + 1, more)
  {
    var s := After(c, Init(c), acts);
    OneRound(c, s, Consumer);
    Runs.LegalAppend(System(c), Init(c), acts, Round(Consumer));
    more := acts + Round(Consumer);
    assert ts[..k + 1] == ts[..k] + [ts[k]];
  }

  lemma {:induction false} Realise(c: Config, ts: seq<int>, k: nat) returns (acts: seq<Action>)
    requires c.size >= 1 && Outcome(c, ts) && k <= |ts| <= c.items
    ensures ReadyFor(c, ts, k, acts)
  {
    if k == 0 {
      acts := [];
    } else {
      acts := Realise(c, ts, k - 1);
      acts := RealiseNext(c, ts, k - 1, acts);
    }
  }

  lemma OutcomeComesAbout(c: Config, ts: seq<int>) returns (acts: seq<Action>)
    requires c.size >= 1 && Outcome(c, ts)
    ensures Legal(c, Init(c), acts)
    ensures Finished(After(c, Init(c), acts)) && After(c, Init(c), acts).consumed == ts
  {
    SameLength(ts, Items(c.items));
    ItemsLength(c.items);
    acts := Realise(c, ts, |ts|);
    Reachable(c, acts);
    assert ts[..|ts|] == ts;
    assert Worked(After(c, Init(c), acts), Producer) <= c.items;
  }

  /** The orders in which the items can be consumed are exactly those of a stack of the
      buffer's size. */
  lemma OutcomesIff(c: Config, ts: seq<int>)
    requires c.size >= 1
    ensures Outcome(c, ts) <==>
      exists acts ::
        Legal(c, Init(c), acts) && Finished(After(c, Init(c), acts)) && After(c, Init(c), acts).consumed == ts
  {
    if acts :| Legal(c, Init(c), acts) && Finished(After(c, Init(c), acts)) && After(c, Init(c), acts).consumed == ts {
      ConsumedIsOutcome(c, acts);
    }
    if Outcome(c, ts) {
      var acts := OutcomeComesAbout(c, ts);
    }
  }

  // ---------------------------------------------------------------------------
  // The program on its buffer
  // ---------------------------------------------------------------------------

  /** The shared variables, updated in place, and where each thread is. */
  class Program {
    const c: Config
    const buffer: Buffer
    var mutex: Owner
    var prod: Pc
    var cons: Pc
    var made: nat
    var consumed: seq<int>

    ghost predicate Valid()
      reads buffer
    {
      buffer.Valid() && buffer.buff.Length == c.size
    }

    ghost function Value(): State
      reads this, buffer, buffer.buff
      requires buffer.Valid()
    {
      State(mutex, buffer.Contents(), prod, cons, made, consumed)
    }

    constructor (c: Config)
      ensures this.c == c && Valid() && fresh(buffer) && fresh(buffer.buff) && Value() == Init(c)
    {
      this.c := c;
      buffer := new Buffer(c.size);
      var first := if c.items > 0 then Lock else Done;
      mutex, prod, cons, made, consumed := Free, first, first, 0, [];
    }

    method SetPc(t: Thread, pc: Pc)
      requires buffer.Valid()
      modifies this`prod, this`cons
      ensures Value() == Goto(old(Value()), t, pc)
    {
      if t.Producer? {
        prod := pc;
      } else {
        cons := pc;
      }
    }

    /** The test of a thread's waiting loop. */
    method MustWait(t: Thread) returns (wait: bool)
      requires Valid()
      ensures wait <==> Blocked(c, Value(), t)
    {
      if t.Producer? {
        wait := buffer.IsFull();
      } else {
        wait := buffer.IsEmpty();
      }
    }

    method TransferItem(t: Thread)
      requires Valid() && !Blocked(c, Value(), t)
      modifies this`made, this`consumed, buffer, buffer.buff
      ensures Valid() && Value() == DoWork(old(Value()), t)
    {
      if t.Producer? {
        buffer.InsertItem(made);
        made := made + 1;
      } else {
        ghost var before := buffer.Contents();
        var item := buffer.RemoveItem();
        assert before[..|before| - 1] == buffer.Contents() && before[|before| - 1] == item;
        consumed := consumed + [item];
      }
    }

    method Step(a: Action)
      requires Valid() && Enabled(Value(), a)
      requires a.Step? && PcOf(Value(), a.thread) == Work ==> !Blocked(c, Value(), a.thread)
      modifies this, buffer, buffer.buff
      ensures Valid() && Value() == Apply(c, old(Value()), a)
    {
      var t := a.thread;
      if a.Spurious? {
        SetPc(t, Woken);
        return;
      }
      match if t.Producer? then prod else cons
      case Lock =>
        SetPc(t, Test);
        mutex := Held(t);
      case Woken =>
        SetPc(t, Test);
        mutex := Held(t);
      case Test =>
        var wait := MustWait(t);
        SetPc(t, if wait then Waiting else Work);
        mutex := if wait then Free else mutex;
      case Work =>
        TransferItem(t);
        SetPc(t, Signal);
      case Signal =>
        var wait := MustWait(Other(t));
        if !wait && (if t.Producer? then cons else prod) == Waiting {
          SetPc(Other(t), Woken);
        }
        SetPc(t, Unlock);
      case Unlock =>
        SetPc(t, if (if t.Producer? then made else |consumed|) < c.items then Lock else Done);
        mutex := Free;
    }

    /** Every interleaving can be carried out on the array and ends in the state the
        transition system says. */
    method Run(acts: seq<Action>)
      requires Valid() && c.size >= 1 && Inv(c, Value()) && Legal(c, Value(), acts)
      modifies this, buffer, buffer.buff
      ensures Valid() && Value() == After(c, old(Value()), acts)
      decreases |acts|
    {
      if acts != [] {
        StepKeepsControl(c, Value(), acts[0]);
        StepKeepsWakeUps(c, Value(), acts[0]);
        StepKeepsOrder(c, Value(), acts[0]);
        Step(acts[0]);
        Run(acts[1..]);
      }
    }
  }
}
