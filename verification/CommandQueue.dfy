/** First program of EXAMS/01_02_2023/server.c (lines 1-201): one main thread hands
    commands to worker threads through a short list guarded by two semaphores, then
    shuts the workers down. */
module CommandQueue {
  import Runs

  /** comands_list and current_commands_in_list. A row is a command; there is one row
      more than the capacity, because the shift reads one row past the live range. */
  class CommandList {
    const rows: array<string>
    var count: nat

    ghost predicate Valid()
      reads this, rows
    {
      count < rows.Length
    }

    ghost function Contents(): seq<string>
      reads this, rows
      requires Valid()
    {
      rows[..count]
    }

    constructor (capacity: nat)
      ensures Valid() && fresh(rows) && rows.Length == capacity + 1 && Contents() == []
    {
      rows := new string[capacity + 1](_ => "");
      count := 0;
    }

    /** Lines 155-156. */
    method Append(command: string)
      requires Valid() && count + 1 < rows.Length
      modifies this, rows
      ensures Valid() && Contents() == old(Contents()) + [command]
    {
      rows[count] := command;
      count := count + 1;
    }

    /** Lines 82-87: take the first row and shift the others up by one. */
    method TakeFirst() returns (command: string)
      requires Valid() && Contents() != []
      modifies this, rows
      ensures Valid() && [command] + Contents() == old(Contents())
    {
      command := rows[0];
      var i := 0;
      while i < count
        invariant 0 <= i <= count == old(count) < rows.Length
        invariant forall k :: 0 <= k < i ==> rows[k] == old(rows[k + 1])
        invariant forall k :: i <= k < rows.Length ==> rows[k] == old(rows[k])
      {
        rows[i] := rows[i + 1];
        i := i + 1;
      }
      count := count - 1;
    }
  }

  // ---------------------------------------------------------------------------
  // The program as a transition system
  // ---------------------------------------------------------------------------

  /** MAX_COMANDS, the worker threads, and what the reads from the pipe return. */
  datatype Config = Config(capacity: nat, workers: nat, input: seq<string>)

  /** Where the main thread is; the names are those of its next step. */
  datatype MainPc = TakeSlot | AppendCommand | PostAdd | SetFinished | ExtraPost | Join | Ended

  datatype WorkerPc = Check | AwaitAdd | Test | Remove | PostTake | Exited

  /** The shared variables, the program counters, and the commands handed out. */
  datatype State = State(
    main: MainPc, appended: nat, posts: nat, finished: bool, addCommands: nat, takeCommands: nat,
    list: seq<string>, workers: seq<WorkerPc>, removed: seq<string>)

  datatype Action = Main | Worker(i: nat)

  function Init(c: Config): State {
    State(if c.input == [] then SetFinished else TakeSlot, 0, 0, false, 0, c.capacity,
          [], seq(c.workers, _ => Check), [])
  }

  /** A step can be taken unless it waits for a semaphore or joins a live thread. */
  predicate Enabled(c: Config, s: State, a: Action) {
    match a
    case Main =>
      (match s.main
       case TakeSlot => s.takeCommands > 0
       case AppendCommand => s.appended < |c.input|
       case Join => forall i :: 0 <= i < |s.workers| ==> s.workers[i] == Exited
       case Ended => false
       case _ => true)
    case Worker(i) =>
      i < |s.workers| && s.workers[i] != Exited && (s.workers[i] == AwaitAdd ==> s.addCommands > 0)
  }

  function MainStep(c: Config, s: State): State
    requires Enabled(c, s, Main)
  {
    match s.main
    case TakeSlot => s.(takeCommands := s.takeCommands - 1, main := AppendCommand)
    case AppendCommand =>
      s.(list := s.list + [c.input[s.appended]], appended := s.appended + 1, main := PostAdd)
    case PostAdd =>
      s.(addCommands := s.addCommands + 1, main := if s.appended < |c.input| then TakeSlot else SetFinished)
    case SetFinished => s.(finished := true, main := if c.workers > 0 then ExtraPost else Join)
    case ExtraPost =>
      s.(addCommands := s.addCommands + 1, posts := s.posts + 1,
         main := if s.posts + 1 < c.workers then ExtraPost else Join)
    case Join => s.(main := Ended)
  }

  function Move(s: State, i: nat, pc: WorkerPc): State
    requires i < |s.workers|
  {
    s.(workers := s.workers[i := pc])
  }

  /** No run removes from an empty list (`ListNeverUnderOrOverflows`). */
  function WorkerStep(c: Config, s: State, i: nat): State
    requires Enabled(c, s, Worker(i))
  {
    match s.workers[i]
    case Check => Move(s, i, if s.finished then Exited else AwaitAdd)
    case AwaitAdd => Move(s, i, Test).(addCommands := s.addCommands - 1)
    case Test => Move(s, i, if s.finished then Exited else Remove)
    case Remove =>
      if s.list == [] then Move(s, i, PostTake)
      else Move(s, i, PostTake).(removed := s.removed + [s.list[0]], list := s.list[1..])
    case PostTake => Move(s, i, Check).(takeCommands := s.takeCommands + 1)
  }

  function Apply(c: Config, s: State, a: Action): State
    requires Enabled(c, s, a)
  {
    if a.Main? then MainStep(c, s) else WorkerStep(c, s, a.i)
  }

  function System(c: Config): Runs.System<State, Action> {
    Runs.System((s: State, a: Action) => Enabled(c, s, a),
                (s: State, a: Action) => if Enabled(c, s, a) then Apply(c, s, a) else s)
  }

  /** An interleaving that can happen from `s`. */
  predicate Legal(c: Config, s: State, acts: seq<Action>) {
    Runs.Legal(System(c), s, acts)
  }

  function After(c: Config, s: State, acts: seq<Action>): State
    requires Legal(c, s, acts)
  {
    Runs.After(System(c), s, acts)
  }

  // ---------------------------------------------------------------------------
  // The invariant
  // ---------------------------------------------------------------------------

  /** Workers at a program point. */
  function At(s: State, pc: WorkerPc): nat {
    multiset(s.workers)[pc]
  }

  function One(b: bool): nat {
    if b then 1 else 0
  }

  /** Every slot is free, held by main, occupied, or about to be freed; what was
      appended is what was removed followed by what is in the list. */
  predicate Slots(c: Config, s: State) {
    && s.takeCommands + One(s.main == AppendCommand) + |s.list| + At(s, PostTake) == c.capacity
    && s.appended <= |c.input|
    && s.removed + s.list == c.input[..s.appended]
  }

  predicate MainCounters(c: Config, s: State) {
    && |s.workers| == c.workers
    && (s.finished <==> s.main in {ExtraPost, Join, Ended})
    && (s.main in {TakeSlot, AppendCommand} ==> s.appended < |c.input|)
    && (s.main in {SetFinished, ExtraPost, Join, Ended} ==> s.appended == |c.input|)
    && (if s.finished then s.posts <= c.workers else s.posts == 0)
    && (s.main == ExtraPost ==> s.posts < c.workers)
    && (s.main in {Join, Ended} ==> s.posts == c.workers)
    && (s.main == Ended ==> forall i :: 0 <= i < |s.workers| ==> s.workers[i] == Exited)
  }

  /** Before shutdown there is one token per command that no worker has claimed; after
      it every claim is still covered and no worker waits for a post that will not come. */
  predicate Tokens(c: Config, s: State) {
    if s.finished then
      && At(s, Remove) <= |s.list|
      && At(s, AwaitAdd) + s.posts <= s.addCommands + c.workers
    else
      && At(s, Exited) == 0
      && s.addCommands + One(s.main == PostAdd) + At(s, Test) + At(s, Remove) == |s.list|
  }

  predicate Inv(c: Config, s: State) {
    Slots(c, s) && MainCounters(c, s) && Tokens(c, s)
  }

  lemma NoneAt(n: nat, pc: WorkerPc)
    requires pc != Check
    ensures multiset(seq(n, _ => Check))[pc] == 0
  {
  }

  lemma InitInv(c: Config)
    ensures Inv(c, Init(c))
  {
  }

  lemma MainKeepsInv(c: Config, s: State)
    requires Inv(c, s) && Enabled(c, s, Main)
    ensures Inv(c, MainStep(c, s))
  {
  }

  lemma MoveCounts(s: State, i: nat, to: WorkerPc, pc: WorkerPc)
    requires i < |s.workers|
    ensures At(s, s.workers[i]) >= 1
    ensures At(Move(s, i, to), pc) == At(s, pc) - One(s.workers[i] == pc) + One(to == pc)
  {
  }

  lemma WorkerKeepsSlots(c: Config, s: State, i: nat)
    requires Slots(c, s) && Enabled(c, s, Worker(i))
    requires s.workers[i] == Remove ==> s.list != []
    ensures Slots(c, WorkerStep(c, s, i))
  {
  }

  lemma WorkerKeepsTokens(c: Config, s: State, i: nat)
    requires Tokens(c, s) && Enabled(c, s, Worker(i))
    requires s.workers[i] == Remove ==> s.list != []
    ensures Tokens(c, WorkerStep(c, s, i))
  {
    var to := WorkerStep(c, s, i).workers[i];
    MoveCounts(s, i, to, AwaitAdd);
    MoveCounts(s, i, to, Test);
    MoveCounts(s, i, to, Remove);
    MoveCounts(s, i, to, Exited);
  }

  lemma WorkerKeepsInv(c: Config, s: State, i: nat)
    requires Inv(c, s) && Enabled(c, s, Worker(i))
    ensures Inv(c, WorkerStep(c, s, i))
  {
    assert s.workers[i] in multiset(s.workers);
    WorkerKeepsSlots(c, s, i);
    WorkerKeepsTokens(c, s, i);
  }

  lemma ApplyKeepsInv(c: Config, s: State, a: Action)
    requires Inv(c, s) && Enabled(c, s, a)
    ensures Inv(c, Apply(c, s, a))
  {
    if a.Main? {
      MainKeepsInv(c, s);
    } else {
      WorkerKeepsInv(c, s, a.i);
    }
  }

  lemma {:induction false} InvAlong(c: Config, s: State, acts: seq<Action>)
    requires Inv(c, s) && Legal(c, s, acts)
    ensures Inv(c, After(c, s, acts))
    decreases |acts|
  {
    if acts == [] {
    } else {
      ApplyKeepsInv(c, s, acts[0]);
      InvAlong(c, Apply(c, s, acts[0]), acts[1..]);
    }
  }

  /** Every state of every interleaving. */
  lemma Reachable(c: Config, acts: seq<Action>)
    requires Legal(c, Init(c), acts)
    ensures Inv(c, After(c, Init(c), acts))
  {
    InitInv(c);
    InvAlong(c, Init(c), acts);
  }

  // ---------------------------------------------------------------------------
  // Safety
  // ---------------------------------------------------------------------------

  /** In every interleaving the slots add up to the capacity, so an append finds room
      and a removal finds a command; the workers take the commands in the order main
      read them, each once. */
  lemma ListNeverUnderOrOverflows(c: Config, acts: seq<Action>)
    requires Legal(c, Init(c), acts)
    ensures
      var s := After(c, Init(c), acts);
      && s.takeCommands + One(s.main == AppendCommand) + |s.list| + At(s, PostTake) == c.capacity
      && (s.main == AppendCommand ==> |s.list| < c.capacity)
      && (forall i :: 0 <= i < |s.workers| && s.workers[i] == Remove ==> s.list != [])
      && s.appended <= |c.input| && s.removed + s.list == c.input[..s.appended]
  {
    Reachable(c, acts);
    var s := After(c, Init(c), acts);
    forall i | 0 <= i < |s.workers| && s.workers[i] == Remove
      ensures s.list != []
    {
      assert s.workers[i] in multiset(s.workers);
    }
  }

  // ---------------------------------------------------------------------------
  // Progress and shutdown
  // ---------------------------------------------------------------------------

  predicate Final(s: State) {
    s.main == Ended
  }

  /** Once `finished` is set and the extra posts are made, there is a token for every
      worker that still waits for one. */
  lemma NoWorkerLeftWaiting(c: Config, acts: seq<Action>)
    requires Legal(c, Init(c), acts)
    ensures
      var s := After(c, Init(c), acts);
      s.finished && s.posts == c.workers ==> At(s, AwaitAdd) <= s.addCommands
  {
    Reachable(c, acts);
  }

  /** The list takes the whole input, or there is a row and a worker to empty it. */
  predicate Resources(c: Config) {
    |c.input| <= c.capacity || (c.capacity >= 1 && c.workers >= 1)
  }

  lemma NoDeadlock(c: Config, acts: seq<Action>)
    requires Resources(c)
    requires Legal(c, Init(c), acts) && !Final(After(c, Init(c), acts))
    ensures exists a :: Enabled(c, After(c, Init(c), acts), a)
  {
    Reachable(c, acts);
    var s := After(c, Init(c), acts);
    if i :| 0 <= i < |s.workers| && s.workers[i] !in {AwaitAdd, Exited} {
      assert Enabled(c, s, Worker(i));
    } else if i :| 0 <= i < |s.workers| && s.workers[i] == AwaitAdd {
      assert s.workers[i] in multiset(s.workers);
      if s.addCommands > 0 {
        assert Enabled(c, s, Worker(i));
      } else {
        NoneBetween(s);
        assert Enabled(c, s, Main);
      }
    } else {
      NoneBetween(s);
      assert s.workers != [] ==> s.workers[0] in multiset(s.workers);
      assert |s.list| <= |s.removed + s.list| == s.appended;
      assert Enabled(c, s, Main);
    }
  }

  lemma NoneBetween(s: State)
    requires forall i :: 0 <= i < |s.workers| ==> s.workers[i] in {AwaitAdd, Exited}
    ensures At(s, Test) == At(s, Remove) == At(s, PostTake) == 0
  {
  }

  function Rank(pc: WorkerPc): nat {
    match pc
    case Test => 5
    case Remove => 4
    case PostTake => 3
    case Check => 2
    case AwaitAdd => 1
    case Exited => 0
  }

  function Ranks(ws: seq<WorkerPc>): nat {
    if ws == [] then 0 else Rank(ws[0]) + Ranks(ws[1..])
  }

  lemma {:induction false} RanksUpdate(ws: seq<WorkerPc>, i: nat, pc: WorkerPc)
    requires i < |ws|
    ensures Ranks(ws[i := pc]) == Ranks(ws) - Rank(ws[i]) + Rank(pc)
  {
    if i == 0 {
    } else {
      assert ws[i := pc][1..] == ws[1..][i - 1 := pc];
      RanksUpdate(ws[1..], i - 1, pc);
    }
  }

  /** Steps main still has to take. */
  function MainLeft(c: Config, s: State): int {
    var tail := c.workers - s.posts;
    match s.main
    case TakeSlot => 3 * (|c.input| - s.appended) + tail + 2
    case AppendCommand => 3 * (|c.input| - s.appended) - 1 + tail + 2
    case PostAdd => 3 * (|c.input| - s.appended) + 1 + tail + 2
    case SetFinished => tail + 2
    case ExtraPost => tail + 1
    case Join => 1
    case Ended => 0
  }

  function Measure(c: Config, s: State): int {
    10 * MainLeft(c, s) + 5 * s.addCommands + Ranks(s.workers)
  }

  lemma MeasureNonNegative(c: Config, s: State)
    requires Inv(c, s)
    ensures MainLeft(c, s) >= 0 && Measure(c, s) >= 0
  {
  }

  lemma MainDecreasesMeasure(c: Config, s: State)
    requires Inv(c, s) && Enabled(c, s, Main)
    ensures Measure(c, MainStep(c, s)) < Measure(c, s)
  {
  }

  lemma WorkerDecreasesMeasure(c: Config, s: State, i: nat)
    requires Enabled(c, s, Worker(i))
    ensures Measure(c, WorkerStep(c, s, i)) < Measure(c, s)
  {
    RanksUpdate(s.workers, i, WorkerStep(c, s, i).workers[i]);
    assert MainLeft(c, WorkerStep(c, s, i)) == MainLeft(c, s);
  }

  lemma {:induction false} StepsBounded(c: Config, s: State, acts: seq<Action>)
    requires Inv(c, s) && Legal(c, s, acts)
    ensures |acts| <= Measure(c, s)
    decreases |acts|
  {
    if acts == [] {
      MeasureNonNegative(c, s);
    } else {
      if acts[0].Main? {
        MainDecreasesMeasure(c, s);
      } else {
        WorkerDecreasesMeasure(c, s, acts[0].i);
      }
      ApplyKeepsInv(c, s, acts[0]);
      StepsBounded(c, Apply(c, s, acts[0]), acts[1..]);
    }
  }

  lemma {:induction false} InitialRanks(n: nat)
    ensures Ranks(seq(n, _ => Check)) == 2 * n
  {
    if n == 0 {
    } else {
      assert seq(n, _ => Check)[1..] == seq(n - 1, _ => Check);
      InitialRanks(n - 1);
    }
  }

  /** Every run is finite: with `NoDeadlock`, every maximal run ends the program. */
  lemma RunsAreFinite(c: Config, acts: seq<Action>)
    requires Legal(c, Init(c), acts)
    ensures |acts| <= 30 * |c.input| + 12 * c.workers + 20
  {
    InitInv(c);
    InitialRanks(c.workers);
    StepsBounded(c, Init(c), acts);
  }

  /** What a state shows of the resources. */
  predicate Needed(c: Config, s: State) {
    && (s.appended > 0 || s.main == AppendCommand ==> c.capacity >= 1)
    && (c.workers == 0 ==> s.removed == [])
  }

  lemma {:induction false} NeededAlong(c: Config, s: State, acts: seq<Action>)
    requires Inv(c, s) && Needed(c, s) && Legal(c, s, acts)
    ensures Needed(c, After(c, s, acts))
    decreases |acts|
  {
    if acts == [] {
    } else {
      ApplyKeepsInv(c, s, acts[0]);
      NeededAlong(c, Apply(c, s, acts[0]), acts[1..]);
    }
  }

  /** Only a program with the resources for it gets to its end. */
  lemma EndNeedsResources(c: Config, acts: seq<Action>)
    requires Legal(c, Init(c), acts) && Final(After(c, Init(c), acts))
    ensures Resources(c)
  {
    InitInv(c);
    Reachable(c, acts);
    NeededAlong(c, Init(c), acts);
    var s := After(c, Init(c), acts);
    assert |s.removed + s.list| == |s.removed| + |s.list|;
  }

  ghost predicate NeverBlocks(c: Config) {
    forall acts :: Legal(c, Init(c), acts) && !Final(After(c, Init(c), acts)) ==>
      exists a :: Enabled(c, After(c, Init(c), acts), a)
  }

  lemma {:induction false} RunToEnd(c: Config, acts: seq<Action>) returns (rest: seq<Action>)
    requires NeverBlocks(c) && Legal(c, Init(c), acts)
    ensures Legal(c, After(c, Init(c), acts), rest) && Final(After(c, After(c, Init(c), acts), rest))
    decreases 30 * |c.input| + 12 * c.workers + 20 - |acts|
  {
    var s := After(c, Init(c), acts);
    if Final(s) {
      rest := [];
    } else {
      var a :| Enabled(c, s, a);
      Runs.LegalAppend(System(c), Init(c), acts, [a]);
      RunsAreFinite(c, acts + [a]);
      rest := RunToEnd(c, acts + [a]);
      rest := Runs.Prepend(System(c), s, a, rest);
    }
  }

  /** No interleaving blocks before the program ends, exactly when it has the
      resources. */
  lemma NoDeadlockIff(c: Config)
    ensures Resources(c) <==> NeverBlocks(c)
  {
    if Resources(c) {
      forall acts | Legal(c, Init(c), acts) && !Final(After(c, Init(c), acts))
        ensures exists a :: Enabled(c, After(c, Init(c), acts), a)
      {
        NoDeadlock(c, acts);
      }
    }
    if NeverBlocks(c) {
      var acts := RunToEnd(c, []);
      EndNeedsResources(c, acts);
    }
  }

  // ---------------------------------------------------------------------------
  // Commands left behind
  // ---------------------------------------------------------------------------

  lemma LeftoverStep(c: Config, s: State, a: Action)
    requires Inv(c, s) && s.finished && Enabled(c, s, a)
    ensures Apply(c, s, a).finished
    ensures |Apply(c, s, a).list| - At(Apply(c, s, a), Remove) == |s.list| - At(s, Remove)
  {
    if a.Worker? {
      MoveCounts(s, a.i, WorkerStep(c, s, a.i).workers[a.i], Remove);
    }
  }

  /** After `finished` is set, only the workers already past their test still take a
      command each. */
  lemma {:induction false} LeftoverIsFixed(c: Config, s: State, acts: seq<Action>)
    requires Inv(c, s) && s.finished && Legal(c, s, acts)
    ensures After(c, s, acts).finished
    ensures |After(c, s, acts).list| - At(After(c, s, acts), Remove) == |s.list| - At(s, Remove)
    decreases |acts|
  {
    if acts == [] {
    } else {
      LeftoverStep(c, s, acts[0]);
      ApplyKeepsInv(c, s, acts[0]);
      LeftoverIsFixed(c, Apply(c, s, acts[0]), acts[1..]);
    }
  }

  /** The workers are meant to process every command. They do exactly when, at the
      moment main sets `finished`, each command still in the list belongs to a worker
      that has passed its test. */
  lemma AllProcessedIff(c: Config, before: seq<Action>, after: seq<Action>)
    requires Legal(c, Init(c), before) && After(c, Init(c), before).main == SetFinished
    requires Legal(c, MainStep(c, After(c, Init(c), before)), after)
    requires Final(After(c, MainStep(c, After(c, Init(c), before)), after))
    ensures
      var s, t := After(c, Init(c), before), After(c, MainStep(c, After(c, Init(c), before)), after);
      t.removed == c.input <==> |s.list| == At(s, Remove)
  {
    var s := After(c, Init(c), before);
    Reachable(c, before);
    MainKeepsInv(c, s);
    InvAlong(c, MainStep(c, s), after);
    LeftoverIsFixed(c, MainStep(c, s), after);
    var t := After(c, MainStep(c, s), after);
    assert Remove !in t.workers;
    assert t.list == [] ==> t.removed + t.list == t.removed;
  }

  /** The first `k` commands were appended; the last `j` of them are in the list. */
  function Served(c: Config, k: nat, j: nat): State
    requires j <= k <= |c.input| && j <= c.capacity
  {
    State(if k < |c.input| then TakeSlot else SetFinished, k, 0, false, j, c.capacity - j,
          c.input[k - j..k], seq(c.workers, _ => Check), c.input[..k - j])
  }

  lemma Produce(c: Config, k: nat, j: nat)
    requires j <= k < |c.input| && j < c.capacity
    ensures Legal(c, Served(c, k, j), [Main, Main, Main])
    ensures After(c, Served(c, k, j), [Main, Main, Main]) == Served(c, k + 1, j + 1)
  {
    var s := Served(c, k, j);
    var s1 := MainStep(c, s);
    var s2 := MainStep(c, s1);
    var s3 := MainStep(c, s2);
    assert s3.list == c.input[k - j..k + 1];
    assert s3 == Served(c, k + 1, j + 1);
    var acts := Runs.Prepend(System(c), s2, Main, []);
    acts := Runs.Prepend(System(c), s1, Main, acts);
    acts := Runs.Prepend(System(c), s, Main, acts);
    assert acts == [Main, Main, Main];
  }

  const CONSUME := [Worker(0), Worker(0), Worker(0), Worker(0), Worker(0)]

  lemma Consume(c: Config, k: nat)
    requires 1 <= k <= |c.input| && c.workers >= 1 && c.capacity >= 1
    ensures Legal(c, Served(c, k, 1), CONSUME)
    ensures After(c, Served(c, k, 1), CONSUME) == Served(c, k, 0)
  {
    var s := Served(c, k, 1);
    var s1 := WorkerStep(c, s, 0);
    var s2 := WorkerStep(c, s1, 0);
    var s3 := WorkerStep(c, s2, 0);
    var s4 := WorkerStep(c, s3, 0);
    var s5 := WorkerStep(c, s4, 0);
    assert s4.removed == c.input[..k];
    assert s5.workers == s.workers;
    var acts := Runs.Prepend(System(c), s4, Worker(0), []);
    acts := Runs.Prepend(System(c), s3, Worker(0), acts);
    acts := Runs.Prepend(System(c), s2, Worker(0), acts);
    acts := Runs.Prepend(System(c), s1, Worker(0), acts);
    acts := Runs.Prepend(System(c), s, Worker(0), acts);
    assert acts == CONSUME;
  }

  lemma ThenProduce(c: Config, acts: seq<Action>, k: nat, j: nat) returns (more: seq<Action>)
    requires j <= k < |c.input| && j < c.capacity
    requires Legal(c, Init(c), acts) && After(c, Init(c), acts) == Served(c, k, j)
    ensures Legal(c, Init(c), more) && After(c, Init(c), more) == Served(c, k + 1, j + 1)
  {
    Produce(c, k, j);
    Runs.LegalAppend(System(c), Init(c), acts, [Main, Main, Main]);
    more := acts + [Main, Main, Main];
  }

  lemma ThenConsume(c: Config, acts: seq<Action>, k: nat) returns (more: seq<Action>)
    requires 1 <= k <= |c.input| && c.workers >= 1 && c.capacity >= 1
    requires Legal(c, Init(c), acts) && After(c, Init(c), acts) == Served(c, k, 1)
    ensures Legal(c, Init(c), more) && After(c, Init(c), more) == Served(c, k, 0)
  {
    Consume(c, k);
    Runs.LegalAppend(System(c), Init(c), acts, CONSUME);
    more := acts + CONSUME;
  }

  lemma {:induction false} ServeAll(c: Config, k: nat) returns (acts: seq<Action>)
    requires k <= |c.input| && c.workers >= 1 && c.capacity >= 1
    ensures Legal(c, Init(c), acts) && After(c, Init(c), acts) == Served(c, k, 0)
  {
    if k == 0 {
      acts := [];
    } else {
      acts := ServeAll(c, k - 1);
      acts := ThenProduce(c, acts, k - 1, 0);
      acts := ThenConsume(c, acts, k);
    }
  }

  /** `k` commands are taken, the next `j` wait in the list. */
  lemma {:induction false} ServeAndFill(c: Config, k: nat, j: nat) returns (acts: seq<Action>)
    requires k + j <= |c.input| && j <= c.capacity && (k == 0 || (c.workers >= 1 && c.capacity >= 1))
    ensures Legal(c, Init(c), acts) && After(c, Init(c), acts) == Served(c, k + j, j)
    decreases j
  {
    if j == 0 {
      acts := [];
      if k > 0 {
        acts := ServeAll(c, k);
      }
    } else {
      acts := ServeAndFill(c, k, j - 1);
      acts := ThenProduce(c, acts, k + j - 1, j - 1);
    }
  }

  lemma Complete(c: Config, before: seq<Action>) returns (after: seq<Action>)
    requires NeverBlocks(c) && Legal(c, Init(c), before) && After(c, Init(c), before).main == SetFinished
    ensures
      var s := MainStep(c, After(c, Init(c), before));
      Legal(c, s, after) && Final(After(c, s, after))
  {
    var one := Runs.Prepend(System(c), After(c, Init(c), before), Main, []);
    Runs.LegalAppend(System(c), Init(c), before, one);
    after := RunToEnd(c, before + one);
  }

  lemma Joined(c: Config, before: seq<Action>, after: seq<Action>)
    requires Legal(c, Init(c), before) && After(c, Init(c), before).main == SetFinished
    requires Legal(c, MainStep(c, After(c, Init(c), before)), after)
    ensures Legal(c, Init(c), before + ([Main] + after))
    ensures After(c, Init(c), before + ([Main] + after)) == After(c, MainStep(c, After(c, Init(c), before)), after)
  {
    var rest := Runs.Prepend(System(c), After(c, Init(c), before), Main, after);
    Runs.LegalAppend(System(c), Init(c), before, rest);
  }

  /** Some interleaving ends with exactly the first `k` commands handed out. */
  ghost predicate CanHandOut(c: Config, k: nat) {
    exists acts ::
      && Legal(c, Init(c), acts) && Final(After(c, Init(c), acts))
      && k <= |c.input| && After(c, Init(c), acts).removed == c.input[..k]
  }

  lemma HandOut(c: Config, k: nat)
    requires Resources(c) && (k == 0 || (c.workers >= 1 && c.capacity >= 1))
    requires k <= |c.input| <= k + c.capacity
    ensures CanHandOut(c, k)
  {
    NoDeadlockIff(c);
    var before := ServeAndFill(c, k, |c.input| - k);
    var after := Complete(c, before);
    Joined(c, before, after);
    Leftover(c, before, after);
    assert CanHandOut(c, k) by {
      assert After(c, Init(c), before + ([Main] + after)).removed == c.input[..k];
    }
  }

  /** No worker had passed its test when `finished` was set. */
  lemma Leftover(c: Config, before: seq<Action>, after: seq<Action>)
    requires Legal(c, Init(c), before) && After(c, Init(c), before).main == SetFinished
    requires After(c, Init(c), before).workers == seq(c.workers, _ => Check)
    requires Legal(c, MainStep(c, After(c, Init(c), before)), after)
    requires Final(After(c, MainStep(c, After(c, Init(c), before)), after))
    ensures After(c, MainStep(c, After(c, Init(c), before)), after).removed == After(c, Init(c), before).removed
  {
    var s := After(c, Init(c), before);
    Reachable(c, before);
    MainKeepsInv(c, s);
    InvAlong(c, MainStep(c, s), after);
    LeftoverIsFixed(c, MainStep(c, s), after);
    var t := After(c, MainStep(c, s), after);
    NoneAt(c.workers, Remove);
    assert Remove !in t.workers;
    SplitAlike(s.removed, s.list, t.removed, t.list);
  }

  lemma SplitAlike<T>(a: seq<T>, b: seq<T>, a': seq<T>, b': seq<T>)
    requires a + b == a' + b' && |b| == |b'|
    ensures a == a'
  {
    assert a == (a + b)[..|a|] && a' == (a' + b')[..|a'|];
  }

  lemma HandedOut(c: Config, k: nat)
    requires CanHandOut(c, k)
    ensures Resources(c) && k <= |c.input| <= k + c.capacity && (c.workers == 0 ==> k == 0)
  {
    var acts :| Legal(c, Init(c), acts) && Final(After(c, Init(c), acts)) &&
                After(c, Init(c), acts).removed == c.input[..k];
    EndNeedsResources(c, acts);
    Reachable(c, acts);
    InitInv(c);
    NeededAlong(c, Init(c), acts);
    var s := After(c, Init(c), acts);
    assert |s.removed + s.list| == |s.removed| + |s.list|;
  }

  /** What the workers can be handed in a complete run: every beginning of the input that
      leaves no more than the list holds, if there is a worker to take it. */
  lemma CanHandOutIff(c: Config, k: nat)
    ensures CanHandOut(c, k) <==>
      Resources(c) && k <= |c.input| <= k + c.capacity && (c.workers == 0 ==> k == 0)
  {
    if CanHandOut(c, k) {
      HandedOut(c, k);
    }
    if Resources(c) && k <= |c.input| <= k + c.capacity && (c.workers == 0 ==> k == 0) {
      HandOut(c, k);
    }
  }

  /** Whatever the input, some interleaving ends without its last command. */
  lemma LastCommandCanBeLost(c: Config) returns (acts: seq<Action>)
    requires c.input != [] && c.workers >= 1 && c.capacity >= 1
    ensures Legal(c, Init(c), acts) && Final(After(c, Init(c), acts))
    ensures After(c, Init(c), acts).removed == c.input[..|c.input| - 1]
  {
    HandOut(c, |c.input| - 1);
    acts :| Legal(c, Init(c), acts) && Final(After(c, Init(c), acts)) &&
            After(c, Init(c), acts).removed == c.input[..|c.input| - 1];
  }

  /** The workers are meant to process every command. Whatever the interleaving, they do,
      exactly when there is none - or when the program never ends, for lack of
      resources. */
  lemma AllProcessedAlwaysIff(c: Config)
    ensures c.input == [] || !Resources(c) <==>
      forall acts :: Legal(c, Init(c), acts) && Final(After(c, Init(c), acts)) ==>
        After(c, Init(c), acts).removed == c.input
  {
    if c.input == [] || !Resources(c) {
      forall acts | Legal(c, Init(c), acts) && Final(After(c, Init(c), acts))
        ensures After(c, Init(c), acts).removed == c.input
      {
        EndNeedsResources(c, acts);
        Reachable(c, acts);
      }
    } else {
      var k := if c.workers == 0 then 0 else |c.input| - 1;
      HandOut(c, k);
      var acts :| Legal(c, Init(c), acts) && Final(After(c, Init(c), acts)) &&
                  After(c, Init(c), acts).removed == c.input[..k];
      assert After(c, Init(c), acts).removed != c.input;
    }
  }

  // ---------------------------------------------------------------------------
  // The row past the end
  // ---------------------------------------------------------------------------

  /** The shift reads rows 1 to |list| of an array of `capacity` rows. */
  predicate ShiftStaysInside(c: Config, s: State) {
    forall i :: 0 <= i < |s.workers| && s.workers[i] == Remove ==> |s.list| < c.capacity
  }

  lemma FullListIsShifted(c: Config) returns (acts: seq<Action>)
    requires 1 <= c.capacity <= |c.input| && c.workers >= 1
    ensures Legal(c, Init(c), acts) && !ShiftStaysInside(c, After(c, Init(c), acts))
  {
    acts := ServeAndFill(c, 0, c.capacity);
    var s := Served(c, c.capacity, c.capacity);
    var s1 := WorkerStep(c, s, 0);
    var s2 := WorkerStep(c, s1, 0);
    var s3 := WorkerStep(c, s2, 0);
    var more := Runs.Prepend(System(c), s2, Worker(0), []);
    more := Runs.Prepend(System(c), s1, Worker(0), more);
    more := Runs.Prepend(System(c), s, Worker(0), more);
    Runs.LegalAppend(System(c), Init(c), acts, more);
    acts := acts + more;
    assert s3.workers[0] == Remove;
  }

  /** The shift never reads past the array, in any interleaving, exactly when there
      are fewer commands than rows: the list must never be full. */
  lemma ShiftStaysInsideIff(c: Config)
    requires c.capacity >= 1 && c.workers >= 1
    ensures |c.input| < c.capacity <==>
      forall acts :: Legal(c, Init(c), acts) ==> ShiftStaysInside(c, After(c, Init(c), acts))
  {
    if |c.input| < c.capacity {
      forall acts | Legal(c, Init(c), acts)
        ensures ShiftStaysInside(c, After(c, Init(c), acts))
      {
        Reachable(c, acts);
        var s := After(c, Init(c), acts);
        assert |s.list| <= |s.removed + s.list| == s.appended;
      }
    } else {
      var acts := FullListIsShifted(c);
    }
  }

  // ---------------------------------------------------------------------------
  // The program on its array
  // ---------------------------------------------------------------------------

  /** The shared variables of the program, updated in place, where each thread is, and
      the commands the workers took. */
  class Program {
    const c: Config
    const list: CommandList
    var finished: bool
    var addCommands: nat
    var takeCommands: nat
    var main: MainPc
    var appended: nat
    var posts: nat
    var workers: seq<WorkerPc>
    var removed: seq<string>

    ghost predicate Valid()
      reads list, list.rows
    {
      list.Valid() && list.rows.Length == c.capacity + 1
    }

    ghost function Value(): State
      reads this, list, list.rows
      requires list.Valid()
    {
      State(main, appended, posts, finished, addCommands, takeCommands, list.Contents(), workers, removed)
    }

    constructor (c: Config)
      ensures this.c == c && Valid() && fresh(list) && fresh(list.rows) && Value() == Init(c)
    {
      this.c := c;
      list := new CommandList(c.capacity);
      finished, addCommands, takeCommands := false, 0, c.capacity;
      main, appended, posts := if c.input == [] then SetFinished else TakeSlot, 0, 0;
      workers, removed := seq(c.workers, _ => Check), [];
    }

    method StepMain()
      requires Valid() && Enabled(c, Value(), Main)
      requires main == AppendCommand ==> |list.Contents()| < c.capacity
      modifies this, list, list.rows
      ensures Valid() && Value() == MainStep(c, old(Value()))
    {
      match main
      case TakeSlot =>
        takeCommands, main := takeCommands - 1, AppendCommand;
      case AppendCommand =>
        list.Append(c.input[appended]);
        appended, main := appended + 1, PostAdd;
      case PostAdd =>
        addCommands := addCommands + 1;
        main := if appended < |c.input| then TakeSlot else SetFinished;
      case SetFinished =>
        finished := true;
        main := if c.workers > 0 then ExtraPost else Join;
      case ExtraPost =>
        addCommands, posts := addCommands + 1, posts + 1;
        main := if posts < c.workers then ExtraPost else Join;
      case Join =>
        main := Ended;
    }

    method StepWorker(i: nat)
      requires Valid() && Enabled(c, Value(), Worker(i))
      requires workers[i] == Remove ==> list.Contents() != []
      modifies this, list, list.rows
      ensures Valid() && Value() == WorkerStep(c, old(Value()), i)
    {
      match workers[i]
      case Check =>
        workers := workers[i := if finished then Exited else AwaitAdd];
      case AwaitAdd =>
        addCommands := addCommands - 1;
        workers := workers[i := Test];
      case Test =>
        workers := workers[i := if finished then Exited else Remove];
      case Remove =>
        ghost var before := list.Contents();
        var command := list.TakeFirst();
        assert before[0] == command && before[1..] == list.Contents();
        removed := removed + [command];
        workers := workers[i := PostTake];
      case PostTake =>
        takeCommands := takeCommands + 1;
        workers := workers[i := Check];
    }

    /** Every interleaving can be carried out on the array, shift included, and ends in
        the state the transition system says. */
    method Run(acts: seq<Action>)
      requires Valid() && Inv(c, Value()) && Legal(c, Value(), acts)
      modifies this, list, list.rows
      ensures Valid() && Value() == After(c, old(Value()), acts)
      decreases |acts|
    {
      if acts != [] {
        ApplyKeepsInv(c, Value(), acts[0]);
        if acts[0].Main? {
          StepMain();
        } else {
          assert workers[acts[0].i] in multiset(workers);
          StepWorker(acts[0].i);
        }
        Run(acts[1..]);
      }
    }
  }
}
