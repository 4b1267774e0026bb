/** blocked.c: two threads search a range each, and each stops when the other has found
    something. The expensive test is an arbitrary predicate. */
module Blocked {
  import opened CInts
  import Runs

  datatype Side = X | Y

  /** The ranges and the test. */
  datatype Config = Config(startX: int, stopX: int, startY: int, stopY: int, isSuper: int -> bool)

  datatype Owner = Free | By(side: Side)

  /** struct thd_data_t without the constant range. */
  datatype Data = Data(mutex: Owner, found: bool, val: int)

  /** Where a thread is; the names are those of its next step. */
  datatype Pc = Head | LockOwn | Branch | LockOther | Peek | UnlockOther | Relock | UnlockOwn | Done

  datatype Thread = Thread(pc: Pc, i: int, localFound: bool, finished: bool)

  datatype State = State(dataX: Data, dataY: Data, threadX: Thread, threadY: Thread)

  function Other(t: Side): Side {
    if t.X? then Y else X
  }

  function Start(c: Config, t: Side): int {
    if t.X? then c.startX else c.startY
  }

  function Stop(c: Config, t: Side): int {
    if t.X? then c.stopX else c.stopY
  }

  function DataOf(s: State, t: Side): Data {
    if t.X? then s.dataX else s.dataY
  }

  function ThreadOf(s: State, t: Side): Thread {
    if t.X? then s.threadX else s.threadY
  }

  function SetData(s: State, t: Side, d: Data): State {
    if t.X? then s.(dataX := d) else s.(dataY := d)
  }

  function SetThread(s: State, t: Side, th: Thread): State {
    if t.X? then s.(threadX := th) else s.(threadY := th)
  }

  function Init(c: Config): State {
    var d := Data(Free, false, -1);
    State(d, d, Thread(Head, c.startX, false, false), Thread(Head, c.startY, false, false))
  }

  /** A step can be taken unless it locks a mutex that is held. */
  predicate Enabled(s: State, t: Side) {
    match ThreadOf(s, t).pc
    case LockOwn | Relock => DataOf(s, t).mutex == Free
    case LockOther => DataOf(s, Other(t)).mutex == Free
    case Done => false
    case _ => true
  }

  function Apply(c: Config, s: State, t: Side): State
    requires Enabled(s, t)
  {
    var th, own, other := ThreadOf(s, t), DataOf(s, t), DataOf(s, Other(t));
    match th.pc
    case Head =>
      if th.i < Stop(c, t) && !th.finished then SetThread(s, t, th.(pc := LockOwn, localFound := c.isSuper(th.i)))
      else SetThread(s, t, th.(pc := Done))
    case LockOwn => SetData(SetThread(s, t, th.(pc := Branch)), t, own.(mutex := By(t)))
    case Branch =>
      if th.localFound then
        SetData(SetThread(s, t, th.(pc := UnlockOwn, finished := true)), t, own.(found := true, val := th.i))
      else SetData(SetThread(s, t, th.(pc := LockOther)), t, own.(mutex := Free))
    case LockOther => SetData(SetThread(s, t, th.(pc := Peek)), Other(t), other.(mutex := By(t)))
    case Peek => SetThread(s, t, th.(pc := UnlockOther, finished := th.finished || other.found))
    case UnlockOther => SetData(SetThread(s, t, th.(pc := Relock)), Other(t), other.(mutex := Free))
    case Relock => SetData(SetThread(s, t, th.(pc := UnlockOwn)), t, own.(mutex := By(t)))
    case UnlockOwn => SetData(SetThread(s, t, th.(pc := Head, i := th.i + 1)), t, own.(mutex := Free))
  }

  function System(c: Config): Runs.System<State, Side> {
    Runs.System((s: State, a: Side) => Enabled(s, a),
                (s: State, a: Side) => if Enabled(s, a) then Apply(c, s, a) else s)
  }

  predicate Legal(c: Config, s: State, acts: seq<Side>) {
    Runs.Legal(System(c), s, acts)
  }

  function After(c: Config, s: State, acts: seq<Side>): State
    requires Legal(c, s, acts)
  {
    Runs.After(System(c), s, acts)
  }

  // ---------------------------------------------------------------------------
  // The invariant
  // ---------------------------------------------------------------------------

  ghost predicate NoHit(c: Config, from: int, to: int) {
    forall k :: from <= k < to ==> !c.isSuper(k)
  }

  /** `v` is the least hit of the range. */
  ghost predicate LeastHit(c: Config, t: Side, v: int) {
    Start(c, t) <= v < Stop(c, t) && c.isSuper(v) && NoHit(c, Start(c, t), v)
  }

  /** A mutex is held by the thread that is between locking and unlocking it; no thread
      holds two. */
  predicate LocksOk(s: State) {
    forall t, h ::
      DataOf(s, t).mutex == By(h) <==>
      ThreadOf(s, h).pc in (if h == t then {Branch, UnlockOwn} else {Peek, UnlockOther})
  }

  /** What a thread knows about its own range. */
  ghost predicate SearchOk(c: Config, s: State, t: Side) {
    var th, own, other := ThreadOf(s, t), DataOf(s, t), DataOf(s, Other(t));
    && th.i >= Start(c, t)
    && (own.found ==> th.finished && LeastHit(c, t, own.val))
    && (th.finished ==> own.found || other.found)
    && (!own.found ==> NoHit(c, Start(c, t), th.i))
    && match th.pc
       case Head => true
       case LockOwn => th.i < Stop(c, t) && th.localFound == c.isSuper(th.i) && !own.found
       case Branch => th.i < Stop(c, t) && th.localFound == c.isSuper(th.i) && !own.found
       case UnlockOwn => th.i < Stop(c, t) && (own.found || !c.isSuper(th.i))
       case Done => own.found || other.found || NoHit(c, Start(c, t), Stop(c, t))
       case _ => th.i < Stop(c, t) && !c.isSuper(th.i) && !own.found
  }

  ghost predicate Inv(c: Config, s: State) {
    LocksOk(s) && SearchOk(c, s, X) && SearchOk(c, s, Y)
  }

  lemma StepKeepsLocks(c: Config, s: State, t: Side)
    requires LocksOk(s) && Enabled(s, t)
    ensures LocksOk(Apply(c, s, t))
  {
    var s' := Apply(c, s, t);
    forall u, h
      ensures DataOf(s', u).mutex == By(h) <==>
              ThreadOf(s', h).pc in (if h == u then {Branch, UnlockOwn} else {Peek, UnlockOther})
    {
      LocksAt(s, u, h);
      LocksAt(s, u, t);
      LocksAt(s, t, h);
      LocksAt(s, Other(t), h);
    }
  }

  lemma LocksAt(s: State, t: Side, h: Side)
    requires LocksOk(s)
    ensures DataOf(s, t).mutex == By(h) <==>
            ThreadOf(s, h).pc in (if h == t then {Branch, UnlockOwn} else {Peek, UnlockOther})
  {
  }

  lemma StepKeepsOwnSearch(c: Config, s: State, t: Side)
    requires Inv(c, s) && Enabled(s, t)
    ensures SearchOk(c, Apply(c, s, t), t)
  {
    assert SearchOk(c, s, t);
  }

  lemma StepKeepsOtherSearch(c: Config, s: State, t: Side)
    requires Inv(c, s) && Enabled(s, t)
    ensures SearchOk(c, Apply(c, s, t), Other(t))
  {
    assert SearchOk(c, s, Other(t));
  }

  lemma StepKeepsInv(c: Config, s: State, t: Side)
    requires Inv(c, s) && Enabled(s, t)
    ensures Inv(c, Apply(c, s, t))
  {
    StepKeepsLocks(c, s, t);
    StepKeepsOwnSearch(c, s, t);
    StepKeepsOtherSearch(c, s, t);
  }

  lemma {:induction false} InvAlong(c: Config, s: State, acts: seq<Side>)
    requires Inv(c, s) && Legal(c, s, acts)
    ensures Inv(c, After(c, s, acts))
    decreases |acts|
  {
    if acts == [] {
    } else {
      StepKeepsInv(c, s, acts[0]);
      InvAlong(c, Apply(c, s, acts[0]), acts[1..]);
    }
  }

  // ---------------------------------------------------------------------------
  // Results
  // ---------------------------------------------------------------------------

  predicate Finished(s: State) {
    s.threadX.pc == Done && s.threadY.pc == Done
  }

  ghost predicate SomeHit(c: Config) {
    exists t, v :: Start(c, t) <= v < Stop(c, t) && c.isSuper(v)
  }

  /** When both threads are done, one of them has found something exactly when there is
      something to find, and what it reports is the first hit of its own range. */
  lemma SearchIsComplete(c: Config, acts: seq<Side>)
    requires Legal(c, Init(c), acts) && Finished(After(c, Init(c), acts))
    ensures
      var s := After(c, Init(c), acts);
      && (s.dataX.found || s.dataY.found <==> SomeHit(c))
      && (s.dataX.found ==> LeastHit(c, X, s.dataX.val))
      && (s.dataY.found ==> LeastHit(c, Y, s.dataY.val))
  {
    InvAlong(c, Init(c), acts);
    var s := After(c, Init(c), acts);
    if t, v :| Start(c, t) <= v < Stop(c, t) && c.isSuper(v) {
      assert SearchOk(c, s, t);
    }
  }

  /** Some thread can move: whoever holds the mutex the other waits for. */
  lemma Progress(c: Config, s: State) returns (t: Side)
    requires Inv(c, s) && !Finished(s)
    ensures Enabled(s, t)
  {
    t := if s.threadX.pc != Done then X else Y;
    if !Enabled(s, t) {
      var m := if ThreadOf(s, t).pc == LockOther then Other(t) else t;
      var h := DataOf(s, m).mutex.side;
      assert DataOf(s, m).mutex == By(h);
      t := h;
    }
  }

  /** The two threads never block each other. */
  lemma NoDeadlock(c: Config, acts: seq<Side>)
    requires Legal(c, Init(c), acts) && !Finished(After(c, Init(c), acts))
    ensures exists t :: Enabled(After(c, Init(c), acts), t)
  {
    InvAlong(c, Init(c), acts);
    var t := Progress(c, After(c, Init(c), acts));
  }

  function Rank(pc: Pc): nat {
    match pc
    case Head => 9
    case LockOwn => 8
    case Branch => 7
    case LockOther => 6
    case Peek => 5
    case UnlockOther => 4
    case Relock => 3
    case UnlockOwn => 2
    case Done => 0
  }

  function Left(c: Config, s: State, t: Side): nat {
    var th := ThreadOf(s, t);
    10 * (if th.i < Stop(c, t) then Stop(c, t) - th.i else 0) + Rank(th.pc)
  }

  function Measure(c: Config, s: State): nat {
    Left(c, s, X) + Left(c, s, Y)
  }

  lemma StepDecreasesMeasure(c: Config, s: State, t: Side)
    requires Inv(c, s) && Enabled(s, t)
    ensures Measure(c, Apply(c, s, t)) < Measure(c, s)
  {
  }

  lemma {:induction false} StepsBounded(c: Config, s: State, acts: seq<Side>)
    requires Inv(c, s) && Legal(c, s, acts)
    ensures |acts| <= Measure(c, s)
    decreases |acts|
  {
    if acts == [] {
    } else {
      StepDecreasesMeasure(c, s, acts[0]);
      StepKeepsInv(c, s, acts[0]);
      StepsBounded(c, Apply(c, s, acts[0]), acts[1..]);
    }
  }

  function Length(c: Config, t: Side): nat {
    if Start(c, t) < Stop(c, t) then Stop(c, t) - Start(c, t) else 0
  }

  /** Every run is finite: with `NoDeadlock`, both threads finish. */
  lemma RunsAreFinite(c: Config, acts: seq<Side>)
    requires Legal(c, Init(c), acts)
    ensures |acts| <= 10 * (Length(c, X) + Length(c, Y)) + 18
  {
    StepsBounded(c, Init(c), acts);
  }

  // ---------------------------------------------------------------------------
  // Whose hit can go unreported
  // ---------------------------------------------------------------------------

  ghost predicate HasHit(c: Config, t: Side) {
    exists v :: Start(c, t) <= v < Stop(c, t) && c.isSuper(v)
  }

  /** A thread whose first candidate is a hit always reports it. */
  ghost predicate FirstIsHit(c: Config, s: State, t: Side) {
    DataOf(s, t).found ||
    (ThreadOf(s, t).i == Start(c, t) && !ThreadOf(s, t).finished && ThreadOf(s, t).pc in {Head, LockOwn, Branch})
  }

  lemma {:induction false} FirstIsHitAlong(c: Config, s: State, acts: seq<Side>, t: Side)
    requires Start(c, t) < Stop(c, t) && c.isSuper(Start(c, t))
    requires Inv(c, s) && FirstIsHit(c, s, t) && Legal(c, s, acts)
    ensures FirstIsHit(c, After(c, s, acts), t)
    decreases |acts|
  {
    if acts == [] {
    } else {
      StepKeepsInv(c, s, acts[0]);
      assert SearchOk(c, s, t);
      FirstIsHitAlong(c, Apply(c, s, acts[0]), acts[1..], t);
    }
  }

  /** `t` has not started, and so holds no mutex. */
  predicate Unstarted(c: Config, s: State, t: Side) {
    ThreadOf(s, t) == Thread(Head, Start(c, t), false, false) && !DataOf(s, t).found
  }

  /** The other thread can run to its end before `t` starts. */
  lemma RunAlone(c: Config, s: State, t: Side) returns (acts: seq<Side>)
    requires Inv(c, s) && Unstarted(c, s, t)
    ensures Legal(c, s, acts)
    ensures Unstarted(c, After(c, s, acts), t) && ThreadOf(After(c, s, acts), Other(t)).pc == Done
    decreases Left(c, s, Other(t))
  {
    var u := Other(t);
    if ThreadOf(s, u).pc == Done {
      acts := [];
    } else {
      CanMove(s, u);
      var s' := Apply(c, s, u);
      StepKeepsInv(c, s, u);
      assert SearchOk(c, s, u);
      var rest := RunAlone(c, s', t);
      acts := Runs.Prepend(System(c), s, u, rest);
    }
  }

  /** A thread can move when the other holds nothing. */
  lemma CanMove(s: State, t: Side)
    requires LocksOk(s) && ThreadOf(s, t).pc != Done
    requires ThreadOf(s, Other(t)).pc in {Head, Done}
    ensures Enabled(s, t)
  {
  }

  /** The other thread has reported and is done; `t` will stop after one candidate at most. */
  ghost predicate Missing(c: Config, s: State, t: Side) {
    var th := ThreadOf(s, t);
    && !DataOf(s, t).found && DataOf(s, Other(t)).found && ThreadOf(s, Other(t)).pc == Done
    && (th.i == Start(c, t) || (th.i == Start(c, t) + 1 && th.finished && th.pc in {Head, Done}))
    && (th.pc in {UnlockOther, Relock, UnlockOwn} ==> th.finished)
  }

  lemma FinishMissing(c: Config, s: State, t: Side) returns (acts: seq<Side>)
    requires !c.isSuper(Start(c, t))
    requires Inv(c, s) && Missing(c, s, t)
    ensures Legal(c, s, acts) && Finished(After(c, s, acts)) && !DataOf(After(c, s, acts), t).found
    decreases Left(c, s, t)
  {
    if ThreadOf(s, t).pc == Done {
      acts := [];
    } else {
      CanMove(s, t);
      StepKeepsInv(c, s, t);
      assert SearchOk(c, s, t);
      var rest := FinishMissing(c, Apply(c, s, t), t);
      acts := Runs.Prepend(System(c), s, t, rest);
    }
  }

  /** From any reachable state both threads can be brought to their end. */
  lemma Finish(c: Config, s: State) returns (acts: seq<Side>)
    requires Inv(c, s)
    ensures Legal(c, s, acts) && Finished(After(c, s, acts))
    decreases Measure(c, s)
  {
    if Finished(s) {
      acts := [];
    } else {
      var t := Progress(c, s);
      StepKeepsInv(c, s, t);
      StepDecreasesMeasure(c, s, t);
      var rest := Finish(c, Apply(c, s, t));
      acts := Runs.Prepend(System(c), s, t, rest);
    }
  }

  /** Some finished run in which `t` reports nothing. */
  ghost predicate CanMiss(c: Config, t: Side) {
    exists acts ::
      Legal(c, Init(c), acts) && Finished(After(c, Init(c), acts)) && !DataOf(After(c, Init(c), acts), t).found
  }

  lemma MissIf(c: Config, t: Side)
    requires !HasHit(c, t) || (HasHit(c, Other(t)) && !c.isSuper(Start(c, t)))
    ensures CanMiss(c, t)
  {
    if !HasHit(c, t) {
      var acts := Finish(c, Init(c));
      SearchIsComplete(c, acts);
    } else {
      var alone := RunAlone(c, Init(c), t);
      var s := After(c, Init(c), alone);
      InvAlong(c, Init(c), alone);
      assert SearchOk(c, s, Other(t));
      var rest := FinishMissing(c, s, t);
      Runs.LegalAppend(System(c), Init(c), alone, rest);
      assert !DataOf(After(c, Init(c), alone + rest), t).found;
    }
  }

  lemma MissOnlyIf(c: Config, acts: seq<Side>, t: Side)
    requires Legal(c, Init(c), acts) && Finished(After(c, Init(c), acts))
    requires !DataOf(After(c, Init(c), acts), t).found
    ensures !HasHit(c, t) || (HasHit(c, Other(t)) && !c.isSuper(Start(c, t)))
  {
    SearchIsComplete(c, acts);
    var s := After(c, Init(c), acts);
    if v :| Start(c, t) <= v < Stop(c, t) && c.isSuper(v) {
      assert LeastHit(c, Other(t), DataOf(s, Other(t)).val);
      if c.isSuper(Start(c, t)) {
        FirstIsHitAlong(c, Init(c), acts, t);
      }
    }
  }

  /** A thread may end without reporting exactly when its range holds no hit, or the other
      range holds one and its own first candidate is not a hit. */
  lemma CanMissIff(c: Config, t: Side)
    ensures CanMiss(c, t) <==> !HasHit(c, t) || (HasHit(c, Other(t)) && !c.isSuper(Start(c, t)))
  {
    if CanMiss(c, t) {
      var acts :| Legal(c, Init(c), acts) && Finished(After(c, Init(c), acts)) &&
                  !DataOf(After(c, Init(c), acts), t).found;
      MissOnlyIf(c, acts, t);
    } else if !HasHit(c, t) || (HasHit(c, Other(t)) && !c.isSuper(Start(c, t))) {
      MissIf(c, t);
    }
  }

  // ---------------------------------------------------------------------------
  // The program on its shared records
  // ---------------------------------------------------------------------------

  /** struct thd_data_t, as updated in place. */
  class ThdData {
    var mutex: Owner
    var found: bool
    var val: int

    ghost function Value(): Data
      reads this
    {
      Data(mutex, found, val)
    }

    constructor ()
      ensures Value() == Data(Free, false, -1)
    {
      mutex, found, val := Free, false, -1;
    }
  }

  /** thread_routine_x or thread_routine_y: its side, its own record and the other one,
      and its local variables. */
  class Searcher {
    const side: Side
    const own: ThdData
    const other: ThdData
    var pc: Pc
    var i: int
    var localFound: bool
    var finished: bool

    ghost function Value(): Thread
      reads this
    {
      Thread(pc, i, localFound, finished)
    }

    constructor (c: Config, side: Side, own: ThdData, other: ThdData)
      ensures this.side == side && this.own == own && this.other == other
      ensures Value() == Thread(Head, Start(c, side), false, false)
    {
      this.side, this.own, this.other := side, own, other;
      pc, i, localFound, finished := Head, if side.X? then c.startX else c.startY, false, false;
    }
  }

  class Program {
    const c: Config
    const x: Searcher
    const y: Searcher

    ghost predicate Valid() {
      x.side == X && y.side == Y && x.own != y.own && x.other == y.own && y.other == x.own
    }

    ghost function Value(): State
      reads x, y, x.own, y.own
    {
      State(x.own.Value(), y.own.Value(), x.Value(), y.Value())
    }

    constructor (c: Config)
      ensures this.c == c && Valid() && Value() == Init(c)
      ensures fresh(x) && fresh(y) && fresh(x.own) && fresh(y.own)
    {
      this.c := c;
      var dataX := new ThdData();
      var dataY := new ThdData();
      x := new Searcher(c, X, dataX, dataY);
      y := new Searcher(c, Y, dataY, dataX);
    }

    method Step(t: Side)
      requires Valid() && Enabled(Value(), t)
      modifies x, y, x.own, y.own
      ensures Value() == Apply(c, old(Value()), t)
    {
      var th := if t.X? then x else y;
      match th.pc
      case Head =>
        if th.i < Stop(c, t) && !th.finished {
          th.localFound := c.isSuper(th.i);
          th.pc := LockOwn;
        } else {
          th.pc := Done;
        }
      case LockOwn =>
        th.own.mutex := By(t);
        th.pc := Branch;
      case Branch =>
        if th.localFound {
          th.finished := true;
          th.own.found := true;
          th.own.val := th.i;
          th.pc := UnlockOwn;
        } else {
          th.own.mutex := Free;
          th.pc := LockOther;
        }
      case LockOther =>
        th.other.mutex := By(t);
        th.pc := Peek;
      case Peek =>
        if th.other.found {
          th.finished := true;
        }
        th.pc := UnlockOther;
      case UnlockOther =>
        th.other.mutex := Free;
        th.pc := Relock;
      case Relock =>
        th.own.mutex := By(t);
        th.pc := UnlockOwn;
      case UnlockOwn =>
        th.own.mutex := Free;
        th.i := th.i + 1;
        th.pc := Head;
    }

    /** Every interleaving carried out on the two records ends in the state the
        transition system says. */
    method Run(acts: seq<Side>)
      requires Valid() && Legal(c, Value(), acts)
      modifies x, y, x.own, y.own
      ensures Value() == After(c, old(Value()), acts)
      decreases |acts|
    {
      if acts != [] {
        Step(acts[0]);
        Run(acts[1..]);
      }
    }
  }

  /** What main prints. */
  datatype Report = FoundBy(side: Side, val: int) | NotFound

  /** main: whatever the interleaving of the two threads up to their ends, it reports a hit
      exactly when there is one, and then the least of its range. */
  method Search(c: Config, acts: seq<Side>) returns (r: Report)
    requires Legal(c, Init(c), acts) && Finished(After(c, Init(c), acts))
    ensures r == NotFound <==> !SomeHit(c)
    ensures r.FoundBy? ==> LeastHit(c, r.side, r.val)
    ensures
      var s := After(c, Init(c), acts);
      && (s.dataX.found ==> r == FoundBy(X, s.dataX.val))
      && (!s.dataX.found && s.dataY.found ==> r == FoundBy(Y, s.dataY.val))
  {
    var program := new Program(c);
    program.Run(acts);
    SearchIsComplete(c, acts);
    if program.x.own.found {
      r := FoundBy(X, program.x.own.val);
    } else if program.y.own.found {
      r := FoundBy(Y, program.y.own.val);
    } else {
      r := NotFound;
    }
  }

  // ---------------------------------------------------------------------------
  // The test of the program
  // ---------------------------------------------------------------------------

  /** factorial as written: the product of 0, 1, .., n - 1. */
  function Factorial(n: int): int {
    if n <= 0 then 1 else Factorial(n - 1) * (n - 1)
  }

  /** The loop starts with the factor 0, so no multiplication leaves the range of `int`. */
  method ComputeFactorial(n: int) returns (p: int)
    ensures p == Factorial(n)
  {
    var i := 0;
    p := 1;
    while i < n
      invariant 0 <= i && (i <= n || i == 0)
      invariant p == Factorial(i) && 0 <= p <= 1
    {
      p := p * i;
      i := i + 1;
    }
  }

  /** is_super_number */
  predicate IsSuper(n: int) {
    TruncRem(Factorial(n), 123123) == 12345
  }

  lemma {:induction false} FactorialVanishes(n: int)
    ensures Factorial(n) == if n <= 0 then 1 else 0
  {
    if n <= 1 {
    } else {
      FactorialVanishes(n - 1);
    }
  }

  /** The product is 1 or 0, so no number passes the test. */
  lemma NoneIsSuper(n: int)
    ensures !IsSuper(n)
  {
    FactorialVanishes(n);
  }

  /** The program with its own ranges and test. */
  const AS_WRITTEN := Config(10000, 20000, 20000, 30000, n => IsSuper(n))

  /** It always reports that nothing was found. */
  method SearchAsWritten(acts: seq<Side>) returns (r: Report)
    requires Legal(AS_WRITTEN, Init(AS_WRITTEN), acts) && Finished(After(AS_WRITTEN, Init(AS_WRITTEN), acts))
    ensures r == NotFound
  {
    r := Search(AS_WRITTEN, acts);
    forall v
      ensures !AS_WRITTEN.isSuper(v)
    {
      NoneIsSuper(v);
    }
  }
}
