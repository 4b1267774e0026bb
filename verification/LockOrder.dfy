/** EXAMS/30.01.2023/server.c: a checksum takes its two files one after the other, in the
    order the line names them. When every operation can finish, and when some wait for
    each other for ever. */
module LockOrder {
  import opened FileLocks
  import Runs

  predicate AllFinished(s: State) {
    forall i :: 0 <= i < |s.tasks| ==> s.tasks[i].pc == Finished
  }

  /** Some continuation finishes every operation. */
  ghost predicate CanFinish(s: State) {
    exists more :: Legal(s, more) && AllFinished(After(s, more))
  }

  predicate OpsAre(ops: seq<Op>, s: State) {
    |s.tasks| == |ops| && forall i :: 0 <= i < |ops| ==> s.tasks[i].op == ops[i]
  }

  /** Every checksum takes the lower file first. */
  ghost predicate Ordered(ops: seq<Op>, rank: string -> nat) {
    forall i :: 0 <= i < |ops| && ops[i].Checksum? ==> rank(ops[i].file1) < rank(ops[i].file2)
  }

  // ---------------------------------------------------------------------------
  // Every run is finite
  // ---------------------------------------------------------------------------

  /** Steps a task still has to take, at most. */
  function Steps(t: Task): int {
    match t.pc
    case Verify(k) => 2 * (|Adds(t.op)| - k) + 6
    case Append(k) => 2 * (|Adds(t.op)| - k) + 5
    case Lookup => 2 * (|Takes(t.op)| - |t.held|) + 1
    case Spin(id) => 2 * (|Takes(t.op)| - |t.held|)
    case Working => 1
    case Finished => 0
  }

  function AllSteps(tasks: seq<Task>): int {
    if tasks == [] then 0 else Steps(tasks[0]) + AllSteps(tasks[1..])
  }

  lemma {:induction false} AllStepsUpdate(tasks: seq<Task>, i: nat, t: Task)
    requires i < |tasks|
    ensures AllSteps(tasks[i := t]) == AllSteps(tasks) - Steps(tasks[i]) + Steps(t)
  {
    if i == 0 {
    } else {
      assert tasks[i := t][1..] == tasks[1..][i - 1 := t];
      AllStepsUpdate(tasks[1..], i - 1, t);
    }
  }

  lemma {:induction false} AllStepsBounds(names: seq<string>, tasks: seq<Task>)
    requires forall i :: 0 <= i < |tasks| ==> TaskOk(names, tasks[i])
    ensures 0 <= AllSteps(tasks) <= 10 * |tasks|
  {
    if tasks == [] {
    } else {
      assert TaskOk(names, tasks[0]);
      AllStepsBounds(names, tasks[1..]);
    }
  }

  lemma StepDecreases(s: State, i: nat)
    requires Inv(s) && Enabled(s, i)
    ensures AllSteps(Apply(s, i).tasks) < AllSteps(s.tasks)
  {
    assert TaskOk(s.names, s.tasks[i]);
    AllStepsUpdate(s.tasks, i, TaskStep(s, i));
  }

  lemma {:induction false} StepsBounded(s: State, acts: seq<nat>)
    requires Inv(s) && Legal(s, acts)
    ensures |acts| <= AllSteps(s.tasks)
    decreases |acts|
  {
    if acts == [] {
      AllStepsBounds(s.names, s.tasks);
    } else {
      StepDecreases(s, acts[0]);
      StepKeepsInv(s, acts[0]);
      StepsBounded(Apply(s, acts[0]), acts[1..]);
    }
  }

  /** Not counting passes of the waiting loop that find the file in use, every run is
      finite, so an operation that does not finish is one that waits for ever. */
  lemma RunsAreFinite(ops: seq<Op>, acts: seq<nat>)
    requires Legal(Init(ops), acts)
    ensures |acts| <= 10 * |ops|
  {
    Reachable(ops, []);
    AllStepsBounds(Init(ops).names, Init(ops).tasks);
    StepsBounded(Init(ops), acts);
  }

  // ---------------------------------------------------------------------------
  // Ordered files: whoever waits, somebody can move
  // ---------------------------------------------------------------------------

  /** The file a task takes next. */
  function Wanted(t: Task): string
    requires |t.held| < |Takes(t.op)|
  {
    Takes(t.op)[|t.held|]
  }

  lemma {:induction false} RankBound(ops: seq<Op>, rank: string -> nat) returns (b: nat)
    ensures forall i, n :: 0 <= i < |ops| && n in Takes(ops[i]) ==> rank(n) <= b
  {
    if ops == [] {
      b := 0;
    } else {
      var last := Takes(ops[|ops| - 1]);
      b := RankBound(ops[..|ops| - 1], rank);
      b := b + rank(last[0]) + rank(last[|last| - 1]);
    }
  }

  /** A task that cannot move waits for a file, and another task has it. */
  lemma Holder(s: State, i: nat) returns (k: nat)
    requires Inv(s) && i < |s.tasks| && s.tasks[i].pc != Finished && !Enabled(s, i)
    ensures |s.tasks[i].held| < |Takes(s.tasks[i].op)|
    ensures k < |s.tasks| && HoldsFile(s.tasks[k], Wanted(s.tasks[i])) && s.tasks[k].pc != Finished
  {
    var t := s.tasks[i];
    assert TaskOk(s.names, t);
    TakesAreAdded(t.op);
    assert t.pc.Spin? && s.flags[t.pc.id];
    assert Held(s.tasks, t.pc.id);
    k :| k < |s.tasks| && t.pc.id in s.tasks[k].held;
    assert TaskOk(s.names, s.tasks[k]);
    HoldsFirstIndex(s.names, s.tasks[k], Wanted(t));
  }

  /** Following the holders leads to higher and higher files, so to a task that can
      move. */
  lemma {:induction false} Chase(ops: seq<Op>, s: State, i: nat, rank: string -> nat, bound: nat) returns (k: nat)
    requires Inv(s) && OpsAre(ops, s) && Ordered(ops, rank)
    requires forall j, n :: 0 <= j < |ops| && n in Takes(ops[j]) ==> rank(n) <= bound
    requires i < |s.tasks| && s.tasks[i].pc != Finished
    ensures Enabled(s, k)
    decreases if |s.tasks[i].held| < |Takes(s.tasks[i].op)| then bound + 1 - rank(Wanted(s.tasks[i])) else 0
  {
    if Enabled(s, i) {
      k := i;
    } else {
      k := Holder(s, i);
      if !Enabled(s, k) {
        var t := s.tasks[k];
        assert TaskOk(s.names, t);
        TakesAreAdded(t.op);
        assert t.op == ops[k];
        assert Wanted(t) in Takes(t.op);
        assert t.op.Checksum? && t.op.file1 == Wanted(s.tasks[i]) && t.op.file2 == Wanted(t);
        k := Chase(ops, s, k, rank, bound);
      }
    }
  }

  lemma Progress(ops: seq<Op>, s: State, rank: string -> nat) returns (k: nat)
    requires Inv(s) && OpsAre(ops, s) && Ordered(ops, rank) && !AllFinished(s)
    ensures Enabled(s, k)
  {
    var i: nat :| i < |s.tasks| && s.tasks[i].pc != Finished;
    var bound := RankBound(ops, rank);
    k := Chase(ops, s, i, rank, bound);
  }

  lemma {:induction false} FinishAll(ops: seq<Op>, s: State, rank: string -> nat) returns (acts: seq<nat>)
    requires Inv(s) && OpsAre(ops, s) && Ordered(ops, rank)
    ensures Legal(s, acts) && AllFinished(After(s, acts))
    decreases AllSteps(s.tasks)
  {
    if AllFinished(s) {
      acts := [];
    } else {
      AllStepsBounds(s.names, s.tasks);
      var k := Progress(ops, s, rank);
      StepDecreases(s, k);
      StepKeepsInv(s, k);
      AllStepsBounds(Apply(s, k).names, Apply(s, k).tasks);
      var rest := FinishAll(ops, Apply(s, k), rank);
      acts := Runs.Prepend(System(), s, k, rest);
    }
  }

  // ---------------------------------------------------------------------------
  // Files in a circle
  // ---------------------------------------------------------------------------

  predicate Checksums(ops: seq<Op>, c: set<nat>) {
    forall i :: i in c ==> i < |ops| && ops[i].Checksum?
  }

  /** Some checksum in `c` takes `file` first. */
  ghost predicate Source(ops: seq<Op>, c: set<nat>, file: string)
    requires Checksums(ops, c)
  {
    exists j :: j in c && ops[j].file1 == file
  }

  /** Checksums such that the second file of each is the first file of one of them. */
  ghost predicate Circular(ops: seq<Op>, c: set<nat>) {
    && c != {} && Checksums(ops, c)
    && (forall i {:trigger Source(ops, c, ops[i].file2)} :: i in c ==> Source(ops, c, ops[i].file2))
  }

  /** They can all take their first file. */
  ghost predicate Knot(ops: seq<Op>, c: set<nat>) {
    && Circular(ops, c)
    && (forall i, j :: i in c && j in c && i != j ==> ops[i].file1 != ops[j].file1)
  }

  lemma {:induction false} Thin(ops: seq<Op>, c: set<nat>) returns (knot: set<nat>)
    requires Circular(ops, c)
    ensures Knot(ops, knot)
    decreases |c|
  {
    if Knot(ops, c) {
      knot := c;
    } else {
      var i, j :| i in c && j in c && i != j && ops[i].file1 == ops[j].file1;
      var rest := c - {i};
      assert j in rest;
      forall e | e in rest
        ensures Source(ops, rest, ops[e].file2)
      {
        assert Source(ops, c, ops[e].file2);
        var f :| f in c && ops[f].file1 == ops[e].file2;
        assert if f == i then ops[j].file1 == ops[e].file2 else f in rest;
      }
      knot := Thin(ops, rest);
    }
  }

  /** Checksums either can be ordered or contain a circle. */
  lemma {:induction false} OrderOrKnot(ops: seq<Op>, c: set<nat>) returns (rank: string -> nat, knot: set<nat>)
    requires Checksums(ops, c)
    ensures Knot(ops, knot) || forall i :: i in c ==> rank(ops[i].file1) < rank(ops[i].file2)
    decreases |c|
  {
    rank, knot := _ => 0, {};
    if i :| i in c && !Source(ops, c, ops[i].file2) {
      var lower;
      lower, knot := OrderOrKnot(ops, c - {i});
      var last, above := ops[i].file2, lower(ops[i].file1) + 1;
      rank := name => lower(name) + if name == last then above else 0;
      if !Knot(ops, knot) {
        forall e | e in c
          ensures rank(ops[e].file1) < rank(ops[e].file2)
        {
          assert e != i ==> e in c - {i};
        }
      }
    } else if c != {} {
      knot := Thin(ops, c);
    }
  }

  /** A task gets its names into the list. */
  lemma {:induction false} ToLookup(s: State, i: nat) returns (acts: seq<nat>)
    requires Inv(s) && i < |s.tasks| && (s.tasks[i].pc.Verify? || s.tasks[i].pc.Append?)
    ensures Legal(s, acts) && Inv(After(s, acts))
    ensures After(s, acts).tasks == s.tasks[i := s.tasks[i].(pc := Lookup)]
    decreases Steps(s.tasks[i])
  {
    assert TaskOk(s.names, s.tasks[i]);
    var s' := Apply(s, i);
    StepKeepsInv(s, i);
    if s'.tasks[i].pc == Lookup {
      acts := [];
    } else {
      assert TaskOk(s'.names, s'.tasks[i]);
      acts := ToLookup(s', i);
    }
    acts := Runs.Prepend(System(), s, i, acts);
  }

  /** The task holds its first file and waits for its second. */
  predicate Waits(t: Task) {
    t.pc.Spin? && |t.held| == 1
  }

  /** A checksum that starts while nobody has its first file gets as far as waiting for
      its second. */
  lemma TakeFirstFile(s: State, i: nat) returns (acts: seq<nat>)
    requires Inv(s) && i < |s.tasks| && s.tasks[i] == Task(s.tasks[i].op, Verify(0), []) && s.tasks[i].op.Checksum?
    requires forall j :: 0 <= j < |s.tasks| ==> !HoldsFile(s.tasks[j], s.tasks[i].op.file1)
    ensures Legal(s, acts) && Inv(After(s, acts))
    ensures
      var s' := After(s, acts);
      && |s'.tasks| == |s.tasks| && s'.tasks[i].op == s.tasks[i].op && Waits(s'.tasks[i])
      && forall j :: 0 <= j < |s.tasks| && j != i ==> s'.tasks[j] == s.tasks[j]
  {
    acts := ToLookup(s, i);
    var s1 := After(s, acts);
    assert TaskOk(s1.names, s1.tasks[i]);
    var s2 := Apply(s1, i);
    StepKeepsInv(s1, i);
    FreeToTake(s2, i);
    var s3 := Apply(s2, i);
    StepKeepsInv(s2, i);
    StepKeepsInv(s3, i);
    var more := Runs.Prepend(System(), s3, i, []);
    more := Runs.Prepend(System(), s2, i, more);
    more := Runs.Prepend(System(), s1, i, more);
    Runs.LegalAppend(System(), s, acts, more);
    acts := acts + more;
  }

  lemma FreeToTake(s: State, i: nat)
    requires Inv(s) && i < |s.tasks| && s.tasks[i].pc.Spin? && |s.tasks[i].held| < |Takes(s.tasks[i].op)|
    requires forall j :: 0 <= j < |s.tasks| ==> !HoldsFile(s.tasks[j], Wanted(s.tasks[i]))
    ensures Enabled(s, i)
  {
  }

  /** The checksums in `d` hold their first files, nothing else has started. */
  predicate Tied(ops: seq<Op>, s: State, d: set<nat>) {
    && OpsAre(ops, s)
    && (forall i :: 0 <= i < |ops| ==> if i in d then Waits(s.tasks[i]) else s.tasks[i] == Task(ops[i], Verify(0), []))
  }

  lemma TieNext(ops: seq<Op>, s: State, knot: set<nat>, d: set<nat>, i: nat) returns (acts: seq<nat>)
    requires Knot(ops, knot) && d <= knot && i in d && Inv(s) && Tied(ops, s, d - {i})
    ensures Legal(s, acts) && Inv(After(s, acts)) && Tied(ops, After(s, acts), d)
  {
    assert s.tasks[i] == Task(ops[i], Verify(0), []);
    forall j | 0 <= j < |s.tasks|
      ensures !HoldsFile(s.tasks[j], ops[i].file1)
    {
      assert s.tasks[j].op == ops[j];
      if j in d - {i} {
        assert Waits(s.tasks[j]) && Takes(ops[j])[0] == ops[j].file1 != ops[i].file1;
      }
    }
    acts := TakeFirstFile(s, i);
    var s' := After(s, acts);
    forall j | 0 <= j < |ops|
      ensures s'.tasks[j].op == ops[j]
      ensures if j in d then Waits(s'.tasks[j]) else s'.tasks[j] == Task(ops[j], Verify(0), [])
    {
      assert s.tasks[j].op == ops[j];
      if j != i {
        assert s'.tasks[j] == s.tasks[j] && (j in d <==> j in d - {i});
      }
    }
  }

  lemma {:induction false} Tie(ops: seq<Op>, knot: set<nat>, d: set<nat>) returns (acts: seq<nat>)
    requires Knot(ops, knot) && d <= knot
    ensures Legal(Init(ops), acts) && Inv(After(Init(ops), acts)) && Tied(ops, After(Init(ops), acts), d)
    decreases |d|
  {
    if d == {} {
      acts := [];
      Reachable(ops, []);
    } else {
      var i :| i in d;
      acts := Tie(ops, knot, d - {i});
      var more := TieNext(ops, After(Init(ops), acts), knot, d, i);
      Runs.LegalAppend(System(), Init(ops), acts, more);
      acts := acts + more;
    }
  }

  lemma KnotIsStuck(ops: seq<Op>, s: State, knot: set<nat>, i: nat)
    requires Inv(s) && OpsAre(ops, s) && Knot(ops, knot)
    requires forall j :: j in knot ==> Waits(s.tasks[j])
    requires i in knot
    ensures !Enabled(s, i)
  {
    assert Source(ops, knot, ops[i].file2);
    var j :| j in knot && ops[j].file1 == ops[i].file2;
    assert s.tasks[i].op == ops[i] && s.tasks[j].op == ops[j];
    assert TaskOk(s.names, s.tasks[i]) && TaskOk(s.names, s.tasks[j]);
    assert s.tasks[j].held[0] == s.tasks[i].pc.id;
    assert Held(s.tasks, s.tasks[i].pc.id);
  }

  /** Whatever the other tasks do, the checksums of the knot wait for ever. */
  lemma {:induction false} StuckForEver(ops: seq<Op>, s: State, knot: set<nat>, acts: seq<nat>)
    requires Inv(s) && OpsAre(ops, s) && Knot(ops, knot) && Legal(s, acts)
    requires forall j :: j in knot ==> Waits(s.tasks[j])
    ensures OpsAre(ops, After(s, acts)) && forall j :: j in knot ==> Waits(After(s, acts).tasks[j])
    decreases |acts|
  {
    if acts == [] {
    } else {
      if acts[0] in knot {
        KnotIsStuck(ops, s, knot, acts[0]);
      }
      StepKeepsInv(s, acts[0]);
      StuckForEver(ops, Apply(s, acts[0]), knot, acts[1..]);
    }
  }

  lemma KnotNeverFinishes(ops: seq<Op>, knot: set<nat>) returns (acts: seq<nat>)
    requires Knot(ops, knot)
    ensures Legal(Init(ops), acts) && !CanFinish(After(Init(ops), acts))
  {
    acts := Tie(ops, knot, knot);
    var s := After(Init(ops), acts);
    forall more | Legal(s, more)
      ensures !AllFinished(After(s, more))
    {
      StuckForEver(ops, s, knot, more);
      var i :| i in knot;
      assert Waits(After(s, more).tasks[i]);
    }
  }

  // ---------------------------------------------------------------------------
  // The exact condition
  // ---------------------------------------------------------------------------

  /** Every operation can still finish, whatever the interleaving so far, exactly when
      the files can be ordered so that every checksum names its lower file first. */
  lemma AllCanFinishIff(ops: seq<Op>)
    ensures (exists rank :: Ordered(ops, rank)) <==>
      forall acts :: Legal(Init(ops), acts) ==> CanFinish(After(Init(ops), acts))
  {
    if rank :| Ordered(ops, rank) {
      forall acts | Legal(Init(ops), acts)
        ensures CanFinish(After(Init(ops), acts))
      {
        Reachable(ops, acts);
        OpsAreFixed(Init(ops), acts);
        var more := FinishAll(ops, After(Init(ops), acts), rank);
      }
    } else {
      var c := set i: nat | i < |ops| && ops[i].Checksum?;
      var rank, knot := OrderOrKnot(ops, c);
      assert !Ordered(ops, rank);
      var acts := KnotNeverFinishes(ops, knot);
    }
  }
}
