/** EXAMS/30.01.2023/server.c, lines 1-437: tasks lock the files they work on through a
    list of names with a use flag. */
module FileLocks {
  import Runs

  // ---------------------------------------------------------------------------
  // The list
  // ---------------------------------------------------------------------------

  /** The first index of `name`, or -1. */
  function First(names: seq<string>, name: string): (r: int)
    ensures -1 <= r < |names|
    ensures r >= 0 ==> names[r] == name && forall k :: 0 <= k < r ==> names[k] != name
    ensures r < 0 ==> name !in names
  {
    if names == [] then -1
    else
      var r := First(names[..|names| - 1], name);
      if r >= 0 then r else if names[|names| - 1] == name then |names| - 1 else -1
  }

  /** What verify_existency returns: 0 also when the name is not there. */
  function Existency(names: seq<string>, name: string): nat {
    var r := First(names, name);
    if r >= 0 then r else 0
  }

  /** Appending keeps the first index of a name that is there. */
  lemma FirstStable(names: seq<string>, name: string, more: string)
    requires name in names
    ensures First(names + [more], name) == First(names, name) >= 0
  {
  }

  /** files_list and list_counter. */
  class FilesList {
    const filenames: array<string>
    const useFlags: array<bool>
    var counter: nat

    ghost predicate Valid()
      reads this
    {
      counter <= filenames.Length == useFlags.Length
    }

    ghost function Names(): seq<string>
      reads this, filenames
      requires Valid()
    {
      filenames[..counter]
    }

    ghost function Flags(): seq<bool>
      reads this, useFlags
      requires Valid()
    {
      useFlags[..counter]
    }

    constructor (capacity: nat)
      ensures Valid() && fresh(filenames) && fresh(useFlags)
      ensures Names() == [] && Flags() == [] && filenames.Length == capacity
    {
      filenames := new string[capacity](_ => "");
      useFlags := new bool[capacity](_ => false);
      counter := 0;
    }

    /** verify_existency */
    method VerifyExistency(filename: string) returns (id: nat)
      requires Valid()
      ensures id == Existency(Names(), filename)
    {
      var i := 0;
      while i < counter
        invariant 0 <= i <= counter
        invariant forall k :: 0 <= k < i ==> Names()[k] != filename
      {
        if filenames[i] == filename {
          FirstIs(Names(), filename, i);
          return i;
        }
        i := i + 1;
      }
      assert filename !in Names();
      return 0;
    }

    /** The locked section of add_in_list. */
    method Append(filename: string)
      requires Valid() && counter < filenames.Length
      modifies this, filenames, useFlags
      ensures Valid()
      ensures Names() == old(Names()) + [filename] && Flags() == old(Flags()) + [false]
    {
      useFlags[counter] := false;
      filenames[counter] := filename;
      counter := counter + 1;
    }

    /** One pass of the loop of verify_and_take. */
    method TryTake(id: nat) returns (taken: bool)
      requires Valid() && id < counter
      modifies useFlags
      ensures Valid() && taken == !old(Flags())[id]
      ensures Flags() == old(Flags())[id := true]
    {
      taken := !useFlags[id];
      if taken {
        useFlags[id] := true;
      }
    }

    /** The locked section at the end of generate and checksum. */
    method Release(id: nat)
      requires Valid() && id < counter
      modifies useFlags
      ensures Valid() && Flags() == old(Flags())[id := false]
    {
      useFlags[id] := false;
    }
  }

  lemma FirstIs(names: seq<string>, name: string, i: nat)
    requires i < |names| && names[i] == name && forall k :: 0 <= k < i ==> names[k] != name
    ensures First(names, name) == i
  {
  }

  // ---------------------------------------------------------------------------
  // The tasks as a transition system
  // ---------------------------------------------------------------------------

  /** A line of the input file. */
  datatype Op = Generate(file: string) | Checksum(file1: string, file2: string)

  /** The names thread_handler_file adds, in order. */
  function Adds(op: Op): seq<string> {
    if op.Generate? then [op.file] else [op.file2, op.file1]
  }

  /** The names the operation takes, in order. */
  function Takes(op: Op): seq<string> {
    if op.Generate? then [op.file] else [op.file1, op.file2]
  }

  /** Where a task is; the names are those of its next step. */
  datatype Pc = Verify(k: nat) | Append(k: nat) | Lookup | Spin(id: nat) | Working | Finished

  /** `held` are the ids taken so far. */
  datatype Task = Task(op: Op, pc: Pc, held: seq<nat>)

  datatype State = State(names: seq<string>, flags: seq<bool>, tasks: seq<Task>)

  function Init(ops: seq<Op>): State {
    State([], [], seq(|ops|, i requires 0 <= i < |ops| => Task(ops[i], Verify(0), [])))
  }

  predicate Enabled(s: State, i: nat) {
    i < |s.tasks| &&
    match s.tasks[i].pc
    case Verify(k) => k < |Adds(s.tasks[i].op)|
    case Append(k) => k < |Adds(s.tasks[i].op)|
    case Lookup => |s.tasks[i].held| < |Takes(s.tasks[i].op)|
    case Spin(id) => id < |s.flags| && !s.flags[id]
    case Working => true
    case Finished => false
  }

  function NextAdd(op: Op, k: nat): Pc {
    if k + 1 < |Adds(op)| then Verify(k + 1) else Lookup
  }

  function Cleared(flags: seq<bool>, ids: seq<nat>): (r: seq<bool>)
    ensures |r| == |flags|
    ensures forall e :: 0 <= e < |flags| ==> r[e] == (flags[e] && e !in ids)
  {
    if ids == [] then flags
    else
      var rest := Cleared(flags, ids[1..]);
      if ids[0] < |rest| then rest[ids[0] := false] else rest
  }

  /** The task after its next step. */
  function TaskStep(s: State, i: nat): Task
    requires Enabled(s, i)
  {
    var t := s.tasks[i];
    match t.pc
    case Verify(k) => t.(pc := if Existency(s.names, Adds(t.op)[k]) == 0 then Append(k) else NextAdd(t.op, k))
    case Append(k) => t.(pc := NextAdd(t.op, k))
    case Lookup => t.(pc := Spin(Existency(s.names, Takes(t.op)[|t.held|])))
    case Spin(id) => t.(held := t.held + [id], pc := if |t.held| + 1 < |Takes(t.op)| then Lookup else Working)
    case Working => t.(held := [], pc := Finished)
  }

  function Apply(s: State, i: nat): State
    requires Enabled(s, i)
  {
    var t := s.tasks[i];
    var tasks := s.tasks[i := TaskStep(s, i)];
    match t.pc
    case Append(k) => State(s.names + [Adds(t.op)[k]], s.flags + [false], tasks)
    case Spin(id) => State(s.names, s.flags[id := true], tasks)
    case Working => State(s.names, Cleared(s.flags, t.held), tasks)
    case _ => State(s.names, s.flags, tasks)
  }

  function System(): Runs.System<State, nat> {
    Runs.System((s: State, a: nat) => Enabled(s, a),
                (s: State, a: nat) => if Enabled(s, a) then Apply(s, a) else s)
  }

  /** The tasks that take a step, in an order that can happen from `s`. */
  predicate Legal(s: State, acts: seq<nat>) {
    Runs.Legal(System(), s, acts)
  }

  function After(s: State, acts: seq<nat>): State
    requires Legal(s, acts)
  {
    Runs.After(System(), s, acts)
  }

  /** No continuation lists more names than `capacity`. */
  ghost predicate Fits(s: State, capacity: nat) {
    forall acts :: Legal(s, acts) ==> |After(s, acts).names| <= capacity
  }

  lemma StepFits(s: State, i: nat, capacity: nat)
    requires Fits(s, capacity) && Enabled(s, i)
    ensures |Apply(s, i).names| <= capacity && Fits(Apply(s, i), capacity)
  {
    forall acts | Legal(Apply(s, i), acts)
      ensures |After(Apply(s, i), acts).names| <= capacity
    {
      var all := Runs.Prepend(System(), s, i, acts);
      assert Legal(s, all);
    }
    assert Legal(Apply(s, i), []);
  }

  // ---------------------------------------------------------------------------
  // The invariant
  // ---------------------------------------------------------------------------

  /** Names the task has made sure are in the list. */
  function Ensured(t: Task): seq<string> {
    match t.pc
    case Verify(k) => if k <= |Adds(t.op)| then Adds(t.op)[..k] else Adds(t.op)
    case Append(k) => if k <= |Adds(t.op)| then Adds(t.op)[..k] else Adds(t.op)
    case _ => Adds(t.op)
  }

  /** The task's names are listed, and what it holds or waits for are their first
      indices. */
  predicate TaskOk(names: seq<string>, t: Task) {
    && (forall n :: n in Ensured(t) ==> n in names)
    && |t.held| <= |Takes(t.op)|
    && (forall j :: 0 <= j < |t.held| ==> t.held[j] == First(names, Takes(t.op)[j]))
    && match t.pc
       case Verify(k) => k < |Adds(t.op)| && t.held == []
       case Append(k) => k < |Adds(t.op)| && t.held == []
       case Lookup => |t.held| < |Takes(t.op)|
       case Spin(id) => |t.held| < |Takes(t.op)| && id == First(names, Takes(t.op)[|t.held|])
       case Working => |t.held| == |Takes(t.op)|
       case Finished => t.held == []
  }

  predicate Distinct(ids: seq<nat>) {
    forall j, k :: 0 <= j < k < |ids| ==> ids[j] != ids[k]
  }

  /** Entry `e` belongs to one task at most. */
  predicate OneHolder(tasks: seq<Task>) {
    && (forall i :: 0 <= i < |tasks| ==> Distinct(tasks[i].held))
    && (forall i, j :: 0 <= i < j < |tasks| ==> Disjoint(tasks[i].held, tasks[j].held))
  }

  predicate Disjoint(a: seq<nat>, b: seq<nat>) {
    forall e :: e in a ==> e !in b
  }

  predicate Held(tasks: seq<Task>, e: nat) {
    exists i :: 0 <= i < |tasks| && e in tasks[i].held
  }

  /** An entry is flagged exactly when some task holds it. */
  predicate FlagsOk(s: State) {
    && |s.flags| == |s.names|
    && (forall e: nat :: e < |s.flags| ==> (s.flags[e] <==> Held(s.tasks, e)))
  }

  predicate TasksOk(s: State) {
    forall i :: 0 <= i < |s.tasks| ==> TaskOk(s.names, s.tasks[i])
  }

  predicate Inv(s: State) {
    TasksOk(s) && OneHolder(s.tasks) && FlagsOk(s)
  }

  lemma HeldAreListed(names: seq<string>, t: Task)
    requires TaskOk(names, t)
    ensures forall e :: e in t.held ==> e < |names|
  {
  }

  lemma TakesAreAdded(op: Op)
    ensures forall n :: n in Takes(op) <==> n in Adds(op)
  {
  }

  /** A task is not disturbed by the names others append. */
  lemma OtherTaskOk(names: seq<string>, t: Task, more: string)
    requires TaskOk(names, t)
    ensures TaskOk(names + [more], t)
  {
  }

  lemma StepTaskOk(s: State, i: nat)
    requires Inv(s) && Enabled(s, i)
    ensures TaskOk(Apply(s, i).names, TaskStep(s, i))
  {
  }

  lemma StepKeepsTasksOk(s: State, i: nat)
    requires Inv(s) && Enabled(s, i)
    ensures TasksOk(Apply(s, i))
  {
    StepTaskOk(s, i);
    var t := s.tasks[i];
    forall j | 0 <= j < |s.tasks| && j != i
      ensures TaskOk(Apply(s, i).names, s.tasks[j])
    {
      if t.pc.Append? {
        OtherTaskOk(s.names, s.tasks[j], Adds(t.op)[t.pc.k]);
      }
    }
  }

  lemma StepKeepsOneHolder(s: State, i: nat)
    requires Inv(s) && Enabled(s, i)
    ensures OneHolder(Apply(s, i).tasks)
  {
  }

  lemma StepKeepsFlags(s: State, i: nat)
    requires Inv(s) && Enabled(s, i)
    ensures FlagsOk(Apply(s, i))
  {
    var t, t', s' := s.tasks[i], TaskStep(s, i), Apply(s, i);
    forall e: nat | e < |s'.flags|
      ensures s'.flags[e] <==> Held(s'.tasks, e)
    {
      HeldAfter(s.tasks, i, t', e);
      if e == |s.flags| {
        NobodyHolds(s, e);
      }
      if t.pc.Working? && e in t.held {
        assert forall j :: 0 <= j < |s.tasks| && j != i ==> e !in s.tasks[j].held;
      }
    }
  }

  lemma NobodyHolds(s: State, e: nat)
    requires TasksOk(s) && e >= |s.names|
    ensures !Held(s.tasks, e)
  {
  }

  lemma HeldAfter(tasks: seq<Task>, i: nat, t: Task, e: nat)
    requires i < |tasks|
    ensures Held(tasks[i := t], e) <==> e in t.held || exists j :: 0 <= j < |tasks| && j != i && e in tasks[j].held
    ensures Held(tasks, e) <==> e in tasks[i].held || exists j :: 0 <= j < |tasks| && j != i && e in tasks[j].held
  {
    if e in t.held {
      assert e in tasks[i := t][i].held;
    }
    if j :| 0 <= j < |tasks| && j != i && e in tasks[j].held {
      assert e in tasks[i := t][j].held;
    }
  }

  lemma StepKeepsInv(s: State, i: nat)
    requires Inv(s) && Enabled(s, i)
    ensures Inv(Apply(s, i))
  {
    StepKeepsTasksOk(s, i);
    StepKeepsOneHolder(s, i);
    StepKeepsFlags(s, i);
  }

  lemma {:induction false} InvAlong(s: State, acts: seq<nat>)
    requires Inv(s) && Legal(s, acts)
    ensures Inv(After(s, acts))
    decreases |acts|
  {
    if acts == [] {
    } else {
      StepKeepsInv(s, acts[0]);
      InvAlong(Apply(s, acts[0]), acts[1..]);
    }
  }

  lemma Reachable(ops: seq<Op>, acts: seq<nat>)
    requires Legal(Init(ops), acts)
    ensures Inv(After(Init(ops), acts))
  {
    InvAlong(Init(ops), acts);
  }

  // ---------------------------------------------------------------------------
  // Mutual exclusion
  // ---------------------------------------------------------------------------

  /** The task holds the file as one of the names it takes. */
  predicate HoldsFile(t: Task, file: string) {
    exists j :: 0 <= j < |t.held| && j < |Takes(t.op)| && Takes(t.op)[j] == file
  }

  lemma HoldsFirstIndex(names: seq<string>, t: Task, file: string)
    requires TaskOk(names, t)
    ensures HoldsFile(t, file) <==> First(names, file) >= 0 && First(names, file) in t.held
  {
  }

  /** In every interleaving no two tasks hold the same file - although add_in_list can
      list a name more than once - and the flag at a name's first index is set exactly
      when some task holds the file. */
  lemma FilesAreExclusive(ops: seq<Op>, acts: seq<nat>, file: string)
    requires Legal(Init(ops), acts)
    ensures
      var s := After(Init(ops), acts);
      && (forall i, j :: 0 <= i < j < |s.tasks| && HoldsFile(s.tasks[i], file) ==> !HoldsFile(s.tasks[j], file))
      && |s.flags| == |s.names|
      && (file in s.names ==>
            (s.flags[First(s.names, file)] <==> exists i :: 0 <= i < |s.tasks| && HoldsFile(s.tasks[i], file)))
  {
    Reachable(ops, acts);
    var s := After(Init(ops), acts);
    forall i | 0 <= i < |s.tasks|
      ensures HoldsFile(s.tasks[i], file) <==> First(s.names, file) >= 0 && First(s.names, file) in s.tasks[i].held
    {
      HoldsFirstIndex(s.names, s.tasks[i], file);
    }
  }

  /** In every interleaving a checksum takes its first file and then its second, and a
      generate its file; what it holds are the first entries of their names. */
  lemma FilesAreTakenInOrder(ops: seq<Op>, acts: seq<nat>, i: nat)
    requires Legal(Init(ops), acts) && i < |ops|
    ensures
      var s, op := After(Init(ops), acts), ops[i];
      && i < |s.tasks|
      && var held := s.tasks[i].held;
      && |held| <= (if op.Checksum? then 2 else 1)
      && (|held| >= 1 ==> held[0] == First(s.names, if op.Checksum? then op.file1 else op.file))
      && (|held| == 2 && op.Checksum? ==> held[1] == First(s.names, op.file2))
      && (s.tasks[i].pc == Working <==> |held| == (if op.Checksum? then 2 else 1))
  {
    Reachable(ops, acts);
    OpsAreFixed(Init(ops), acts);
    assert TaskOk(After(Init(ops), acts).names, After(Init(ops), acts).tasks[i]);
  }

  lemma {:induction false} OpsAreFixed(s: State, acts: seq<nat>)
    requires Legal(s, acts)
    ensures |After(s, acts).tasks| == |s.tasks|
    ensures forall i :: 0 <= i < |s.tasks| ==> After(s, acts).tasks[i].op == s.tasks[i].op
    decreases |acts|
  {
    if acts == [] {
    } else {
      OpsAreFixed(Apply(s, acts[0]), acts[1..]);
    }
  }

  lemma DistinctTwo(ids: seq<nat>)
    requires Distinct(ids) && |ids| >= 2
    ensures ids[0] != ids[1]
  {
  }

  lemma SameFileHoldsOne(s: State, i: nat)
    requires Inv(s) && i < |s.tasks|
    requires s.tasks[i].op.Checksum? && s.tasks[i].op.file1 == s.tasks[i].op.file2
    ensures s.tasks[i].pc != Working && |s.tasks[i].held| <= 1
  {
    if |s.tasks[i].held| >= 2 {
      DistinctTwo(s.tasks[i].held);
    }
  }

  lemma {:induction false} SameFileStays(s: State, acts: seq<nat>, i: nat)
    requires Inv(s) && Legal(s, acts) && i < |s.tasks| && s.tasks[i].pc != Finished
    requires s.tasks[i].op.Checksum? && s.tasks[i].op.file1 == s.tasks[i].op.file2
    ensures i < |After(s, acts).tasks| && After(s, acts).tasks[i].pc != Finished
    decreases |acts|
  {
    if acts == [] {
    } else {
      SameFileHoldsOne(s, i);
      StepKeepsInv(s, acts[0]);
      SameFileStays(Apply(s, acts[0]), acts[1..], i);
    }
  }

  /** Every entry a task holds is its own, so a checksum of a file with itself never
      gets its second lock: it does not finish in any interleaving. */
  lemma SameFileNeverFinishes(ops: seq<Op>, acts: seq<nat>, i: nat)
    requires i < |ops| && ops[i].Checksum? && ops[i].file1 == ops[i].file2
    requires Legal(Init(ops), acts)
    ensures
      var s := After(Init(ops), acts);
      i < |s.tasks| && s.tasks[i].pc !in {Working, Finished} && |s.tasks[i].held| <= 1
  {
    Reachable(ops, acts);
    OpsAreFixed(Init(ops), acts);
    SameFileStays(Init(ops), acts, i);
    SameFileHoldsOne(After(Init(ops), acts), i);
  }

  // ---------------------------------------------------------------------------
  // The tasks on the array of names and flags
  // ---------------------------------------------------------------------------

  class Program {
    const list: FilesList
    var tasks: seq<Task>

    ghost predicate Valid()
      reads list
    {
      list.Valid()
    }

    ghost function Value(): State
      reads this, list, list.filenames, list.useFlags
      requires list.Valid()
    {
      State(list.Names(), list.Flags(), tasks)
    }

    constructor (ops: seq<Op>, capacity: nat)
      ensures Valid() && Value() == Init(ops) && list.filenames.Length == capacity
      ensures fresh(list) && fresh(list.filenames) && fresh(list.useFlags)
    {
      list := new FilesList(capacity);
      tasks := seq(|ops|, i requires 0 <= i < |ops| => Task(ops[i], Verify(0), []));
    }

    /** Lines 119 and 164-165. */
    method ReleaseAll(ids: seq<nat>)
      requires list.Valid() && forall e :: e in ids ==> e < list.counter
      modifies list.useFlags
      ensures list.Valid() && list.Flags() == Cleared(old(list.Flags()), ids)
    {
      for j := 0 to |ids|
        invariant list.Valid()
        invariant forall e :: 0 <= e < list.counter ==> list.Flags()[e] == (old(list.Flags())[e] && e !in ids[..j])
      {
        assert ids[j] in ids;
        list.Release(ids[j]);
        assert ids[..j + 1] == ids[..j] + [ids[j]];
      }
      assert ids[..|ids|] == ids;
    }

    method Step(i: nat)
      requires Valid() && Enabled(Value(), i)
      requires tasks[i].pc.Append? ==> list.counter < list.filenames.Length
      requires tasks[i].pc == Working ==> forall e :: e in tasks[i].held ==> e < list.counter
      modifies this, list, list.filenames, list.useFlags
      ensures Valid() && Value() == Apply(old(Value()), i)
    {
      ghost var s' := Apply(Value(), i);
      var t := tasks[i];
      match t.pc {
        case Verify(k) =>
          var id := list.VerifyExistency(Adds(t.op)[k]);
          t := t.(pc := if id == 0 then Append(k) else NextAdd(t.op, k));
        case Append(k) =>
          list.Append(Adds(t.op)[k]);
          t := t.(pc := NextAdd(t.op, k));
        case Lookup =>
          var id := list.VerifyExistency(Takes(t.op)[|t.held|]);
          t := t.(pc := Spin(id));
        case Spin(id) =>
          var taken := list.TryTake(id);
          t := t.(held := t.held + [id], pc := if |t.held| + 1 < |Takes(t.op)| then Lookup else Working);
        case Working =>
          ReleaseAll(t.held);
          t := t.(held := [], pc := Finished);
      }
      tasks := tasks[i := t];
      assert Value() == s' && list.counter == |s'.names|;
    }

    /** If no interleaving lists more names than the arrays hold, every one can be
        carried out on them, and ends in the state the transition system says. */
    method Run(acts: seq<nat>)
      requires Valid() && Inv(Value()) && Legal(Value(), acts)
      requires Fits(Value(), list.filenames.Length)
      modifies this, list, list.filenames, list.useFlags
      ensures Valid() && Value() == After(old(Value()), acts)
      decreases |acts|
    {
      if acts != [] {
        StepKeepsInv(Value(), acts[0]);
        StepFits(Value(), acts[0], list.filenames.Length);
        assert TaskOk(list.Names(), tasks[acts[0]]);
        HeldAreListed(list.Names(), tasks[acts[0]]);
        Step(acts[0]);
        Run(acts[1..]);
      }
    }
  }
}
