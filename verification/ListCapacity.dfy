/** EXAMS/30.01.2023/server.c: how many entries the list of names needs. The test and the
    append of add_in_list are two locked sections, and the name at index 0 passes for
    missing, so names can be listed more than once. */
module ListCapacity {
  import opened FileLocks
  import Runs
  import LockOrder

  /** The name an operation adds first. */
  function FirstName(op: Op): string {
    Adds(op)[0]
  }

  ghost predicate AddedFirst(ops: seq<Op>, z: string) {
    exists i :: 0 <= i < |ops| && FirstName(ops[i]) == z
  }

  /** A checksum adds its second name too, if that is the name at index 0 or comes later
      in the list than its first: `rank` falls along the list. */
  predicate AddsBoth(op: Op, z: string, rank: string -> nat) {
    op.Checksum? && (op.file1 == z || rank(op.file1) < rank(op.file2))
  }

  function BothCount(ops: seq<Op>, z: string, rank: string -> nat): nat {
    if ops == [] then 0
    else BothCount(ops[..|ops| - 1], z, rank) + if AddsBoth(ops[|ops| - 1], z, rank) then 1 else 0
  }

  /** Entries set aside for a task. */
  function Reserve(t: Task, z: string, rank: string -> nat): nat {
    var second := if AddsBoth(t.op, z, rank) then 1 else 0;
    match t.pc
    case Verify(k) => if k == 0 then 1 + second else second
    case Append(k) => if k == 0 then 1 + second else 1
    case _ => 0
  }

  function AllReserve(tasks: seq<Task>, z: string, rank: string -> nat): nat {
    if tasks == [] then 0 else Reserve(tasks[0], z, rank) + AllReserve(tasks[1..], z, rank)
  }

  /** Entries used and set aside. */
  function Room(s: State, z: string, rank: string -> nat): nat {
    |s.names| + AllReserve(s.tasks, z, rank)
  }

  lemma {:induction false} ReserveUpdate(tasks: seq<Task>, i: nat, t: Task, z: string, rank: string -> nat)
    requires i < |tasks|
    ensures AllReserve(tasks[i := t], z, rank)
            == AllReserve(tasks, z, rank) - Reserve(tasks[i], z, rank) + Reserve(t, z, rank)
  {
    if i == 0 {
    } else {
      assert tasks[i := t][1..] == tasks[1..][i - 1 := t];
      ReserveUpdate(tasks[1..], i - 1, t, z, rank);
    }
  }

  lemma {:induction false} ReserveAppend(tasks: seq<Task>, t: Task, z: string, rank: string -> nat)
    ensures AllReserve(tasks + [t], z, rank) == AllReserve(tasks, z, rank) + Reserve(t, z, rank)
  {
    if tasks == [] {
    } else {
      assert (tasks + [t])[1..] == tasks[1..] + [t];
      ReserveAppend(tasks[1..], t, z, rank);
    }
  }

  lemma {:induction false} InitialRoom(ops: seq<Op>, z: string, rank: string -> nat)
    ensures Room(Init(ops), z, rank) == |ops| + BothCount(ops, z, rank)
  {
    if ops == [] {
    } else {
      var n := |ops| - 1;
      InitialRoom(ops[..n], z, rank);
      assert Init(ops).tasks == Init(ops[..n]).tasks + [Task(ops[n], Verify(0), [])];
      ReserveAppend(Init(ops[..n]).tasks, Task(ops[n], Verify(0), []), z, rank);
    }
  }

  // ---------------------------------------------------------------------------
  // No run lists more
  // ---------------------------------------------------------------------------

  lemma {:induction false} NamesGrow(s: State, acts: seq<nat>)
    requires Legal(s, acts)
    ensures s.names <= After(s, acts).names
    decreases |acts|
  {
    if acts == [] {
    } else {
      NamesGrow(Apply(s, acts[0]), acts[1..]);
    }
  }

  /** `rank` falls along the list `names`; what is not listed has rank 0. */
  ghost predicate RanksList(names: seq<string>, rank: string -> nat) {
    forall n :: rank(n) == if n in names then |names| - First(names, n) else 0
  }

  lemma {:induction false} FirstInPrefix(names: seq<string>, all: seq<string>, n: string)
    requires names <= all && n in names
    ensures First(all, n) == First(names, n) >= 0
    decreases |all|
  {
    if names == all {
    } else {
      FirstInPrefix(names, all[..|all| - 1], n);
      assert all == all[..|all| - 1] + [all[|all| - 1]];
    }
  }

  lemma NotInPrefix(names: seq<string>, all: seq<string>, n: string)
    requires names <= all && n !in names && n in all
    ensures First(all, n) >= |names|
  {
    assert names == all[..|names|];
  }

  /** A second name is appended only by a checksum that counts as adding both. */
  lemma SecondAppended(s: State, i: nat, all: seq<string>, rank: string -> nat)
    requires Inv(s) && Enabled(s, i) && s.names <= all && RanksList(all, rank)
    requires s.tasks[i].pc == Verify(1) && TaskStep(s, i).pc == Append(1)
    ensures all != [] && AddsBoth(s.tasks[i].op, all[0], rank)
  {
    var t := s.tasks[i];
    assert TaskOk(s.names, t);
    assert Ensured(t) == [t.op.file2];
    FirstInPrefix(s.names, all, t.op.file2);
    if t.op.file1 !in s.names && t.op.file1 in all {
      NotInPrefix(s.names, all, t.op.file1);
    }
  }

  lemma StepNeedsNoMore(s: State, i: nat, all: seq<string>, rank: string -> nat)
    requires Inv(s) && Enabled(s, i) && s.names <= all && all != [] && RanksList(all, rank)
    ensures Room(Apply(s, i), all[0], rank) <= Room(s, all[0], rank)
  {
    assert TaskOk(s.names, s.tasks[i]);
    ReserveUpdate(s.tasks, i, TaskStep(s, i), all[0], rank);
    if s.tasks[i].pc == Verify(1) && TaskStep(s, i).pc == Append(1) {
      SecondAppended(s, i, all, rank);
    }
  }

  lemma {:induction false} RoomBounds(s: State, acts: seq<nat>, all: seq<string>, rank: string -> nat)
    requires Inv(s) && Legal(s, acts) && all == After(s, acts).names && all != [] && RanksList(all, rank)
    ensures |all| <= Room(s, all[0], rank)
    decreases |acts|
  {
    if acts == [] {
    } else {
      NamesGrow(s, acts);
      StepKeepsInv(s, acts[0]);
      StepNeedsNoMore(s, acts[0], all, rank);
      RoomBounds(Apply(s, acts[0]), acts[1..], all, rank);
    }
  }

  lemma SomeMember(names: seq<string>)
    ensures names != [] ==> exists n :: n in names
  {
    if names != [] {
      assert names[0] in names;
    }
  }

  /** The first entry is the first name of some operation. */
  lemma {:induction false} HeadIsFirstName(s: State, acts: seq<nat>)
    requires Inv(s) && Legal(s, acts)
    ensures
      var names := After(s, acts).names;
      names != [] ==> s.names != [] || exists i :: 0 <= i < |s.tasks| && FirstName(s.tasks[i].op) == names[0]
    decreases |acts|
  {
    if acts == [] {
    } else {
      var i, s' := acts[0], Apply(s, acts[0]);
      assert TaskOk(s.names, s.tasks[i]);
      StepKeepsInv(s, i);
      NamesGrow(s', acts[1..]);
      HeadIsFirstName(s', acts[1..]);
      if s.names == [] && s'.names != [] {
        SomeMember(Ensured(s.tasks[i]));
        assert s.tasks[i].pc == Append(0);
        assert FirstName(s.tasks[i].op) == s'.names[0] == After(s, acts).names[0];
      } else {
        assert forall j :: 0 <= j < |s.tasks| ==> s'.tasks[j].op == s.tasks[j].op;
      }
    }
  }

  /** However names repeat, every list is bounded by the operations and the checksums
      that add both names, for the first entry and the order of that list. */
  lemma NamesBounded(ops: seq<Op>, acts: seq<nat>) returns (z: string, rank: string -> nat)
    requires Legal(Init(ops), acts) && After(Init(ops), acts).names != []
    ensures AddedFirst(ops, z)
    ensures |After(Init(ops), acts).names| <= |ops| + BothCount(ops, z, rank)
  {
    var all := After(Init(ops), acts).names;
    z := all[0];
    rank := n => if n in all then |all| - First(all, n) else 0;
    Reachable(ops, []);
    HeadIsFirstName(Init(ops), acts);
    var i :| 0 <= i < |ops| && FirstName(Init(ops).tasks[i].op) == z;
    assert FirstName(ops[i]) == z;
    RoomBounds(Init(ops), acts, all, rank);
    InitialRoom(ops, z, rank);
  }

  // ---------------------------------------------------------------------------
  // Some run lists as many
  // ---------------------------------------------------------------------------

  /** The tasks in `todo` have found the list empty and append their first names next;
      the others have at most an append left. */
  predicate Turns(ops: seq<Op>, s: State, todo: set<nat>) {
    && |s.tasks| == |ops|
    && (forall i :: i in todo ==> i < |ops|)
    && (forall i :: 0 <= i < |ops| ==>
          if i in todo then s.tasks[i] == Task(ops[i], Append(0), [])
          else s.tasks[i].op == ops[i] && (s.tasks[i].pc == Lookup || (ops[i].Checksum? && s.tasks[i].pc == Append(1))))
  }

  /** The first entry is `z` and no other entry ranks below `least`. */
  predicate ListsFrom(names: seq<string>, z: string, rank: string -> nat, least: nat) {
    && (names != [] ==> names[0] == z)
    && (forall n :: n in names ==> n == z || rank(n) >= least)
  }

  /** The first `n` tasks look for their first names in the empty list. */
  lemma {:induction false} VerifyAll(ops: seq<Op>, n: nat, z: string, rank: string -> nat) returns (acts: seq<nat>)
    requires n <= |ops|
    ensures Legal(Init(ops), acts)
    ensures
      var s := After(Init(ops), acts);
      && s.names == [] && |s.tasks| == |ops| && Room(s, z, rank) == Room(Init(ops), z, rank)
      && forall i :: 0 <= i < |ops| ==> s.tasks[i] == Task(ops[i], if i < n then Append(0) else Verify(0), [])
  {
    if n == 0 {
      acts := [];
    } else {
      acts := VerifyAll(ops, n - 1, z, rank);
      var s := After(Init(ops), acts);
      ReserveUpdate(s.tasks, n - 1, TaskStep(s, n - 1), z, rank);
      var more := Runs.Prepend(System(), s, n - 1, []);
      Runs.LegalAppend(System(), Init(ops), acts, more);
      acts := acts + more;
    }
  }

  /** A task appends its first name. */
  lemma AppendFirst(s: State, i: nat, z: string, rank: string -> nat) returns (s': State)
    requires i < |s.tasks| && s.tasks[i] == Task(s.tasks[i].op, Append(0), [])
    ensures Enabled(s, i) && s' == Apply(s, i)
    ensures
      var op := s.tasks[i].op;
      && s'.names == s.names + [FirstName(op)]
      && s'.tasks == s.tasks[i := Task(op, if op.Checksum? then Verify(1) else Lookup, [])]
      && Room(s', z, rank) >= Room(s, z, rank)
  {
    s' := Apply(s, i);
    ReserveUpdate(s.tasks, i, s'.tasks[i], z, rank);
  }

  /** A checksum looks for its second name and, if that counts, does not find it. */
  lemma VerifySecond(s: State, i: nat, z: string, rank: string -> nat) returns (s': State)
    requires i < |s.tasks| && s.tasks[i] == Task(s.tasks[i].op, Verify(1), []) && s.tasks[i].op.Checksum?
    requires s.names != [] && ListsFrom(s.names, z, rank, rank(s.tasks[i].op.file2))
    ensures Enabled(s, i) && s' == Apply(s, i) && s'.names == s.names
    ensures
      var pc := s'.tasks[i].pc;
      && (pc == Lookup || pc == Append(1)) && s'.tasks == s.tasks[i := s.tasks[i].(pc := pc)]
      && Room(s', z, rank) >= Room(s, z, rank)
  {
    s' := Apply(s, i);
    SecondIsMissing(s.names, s.tasks[i].op, z, rank);
    ReserveUpdate(s.tasks, i, s'.tasks[i], z, rank);
  }

  lemma ListsOneMore(names: seq<string>, z: string, rank: string -> nat, name: string)
    requires ListsFrom(names, z, rank, rank(name)) && (names == [] ==> name == z)
    ensures ListsFrom(names + [name], z, rank, rank(name))
  {
  }

  /** A task appends its first name and, if that counts, finds its second missing. */
  lemma TakeTurn(s: State, i: nat, z: string, rank: string -> nat) returns (acts: seq<nat>)
    requires i < |s.tasks| && s.tasks[i] == Task(s.tasks[i].op, Append(0), [])
    requires ListsFrom(s.names, z, rank, rank(FirstName(s.tasks[i].op)))
    requires s.names == [] ==> FirstName(s.tasks[i].op) == z
    ensures Legal(s, acts)
    ensures
      var s', op := After(s, acts), s.tasks[i].op;
      && s'.names == s.names + [FirstName(op)] && |s'.tasks| == |s.tasks|
      && s'.tasks[i].op == op && (s'.tasks[i].pc == Lookup || (op.Checksum? && s'.tasks[i].pc == Append(1)))
      && (forall j :: 0 <= j < |s.tasks| && j != i ==> s'.tasks[j] == s.tasks[j])
      && Room(s', z, rank) >= Room(s, z, rank)
  {
    var s1 := AppendFirst(s, i, z, rank);
    acts := [];
    if s.tasks[i].op.Checksum? {
      ListsOneMore(s.names, z, rank, FirstName(s.tasks[i].op));
      var s2 := VerifySecond(s1, i, z, rank);
      acts := Runs.Prepend(System(), s1, i, []);
    }
    acts := Runs.Prepend(System(), s, i, acts);
  }

  lemma SecondIsMissing(names: seq<string>, op: Op, z: string, rank: string -> nat)
    requires AddsBoth(op, z, rank) ==> names != [] && ListsFrom(names, z, rank, rank(op.file2))
    ensures AddsBoth(op, z, rank) ==> Existency(names, op.file1) == 0
  {
    if AddsBoth(op, z, rank) && op.file1 in names {
      assert op.file1 == z;
    }
  }

  function Below(n: nat): (r: set<nat>)
    ensures forall j: nat :: j in r <==> j < n
  {
    if n == 0 then {} else Below(n - 1) + {n - 1}
  }

  lemma {:induction false} Highest(ops: seq<Op>, todo: set<nat>, rank: string -> nat) returns (i: nat)
    requires todo != {} && forall j :: j in todo ==> j < |ops|
    ensures i in todo
    ensures forall j :: j in todo ==> rank(FirstName(ops[j])) <= rank(FirstName(ops[i]))
    decreases |todo|
  {
    i :| i in todo;
    if todo == {i} {
    } else {
      var j := Highest(ops, todo - {i}, rank);
      assert forall e :: e in todo ==> e == i || e in todo - {i};
      if rank(FirstName(ops[j])) > rank(FirstName(ops[i])) {
        i := j;
      }
    }
  }

  /** The tasks in `todo` take their turns, those with higher first names first. */
  lemma {:induction false} TakeTurns(ops: seq<Op>, s: State, todo: set<nat>, z: string, rank: string -> nat)
    returns (acts: seq<nat>)
    requires Turns(ops, s, todo) && s.names != []
    requires forall i :: i in todo ==> ListsFrom(s.names, z, rank, rank(FirstName(ops[i])))
    ensures Legal(s, acts) && Turns(ops, After(s, acts), {})
    ensures Room(After(s, acts), z, rank) >= Room(s, z, rank)
    decreases |todo|
  {
    if todo == {} {
      acts := [];
    } else {
      var i := Highest(ops, todo, rank);
      acts := TakeTurn(s, i, z, rank);
      var s' := After(s, acts);
      forall j | j in todo - {i}
        ensures ListsFrom(s'.names, z, rank, rank(FirstName(ops[j])))
      {
        assert ListsFrom(s.names, z, rank, rank(FirstName(ops[j])));
      }
      var more := TakeTurns(ops, s', todo - {i}, z, rank);
      Runs.LegalAppend(System(), s, acts, more);
      acts := acts + more;
    }
  }

  /** The appends that are left. */
  lemma {:induction false} AppendRest(ops: seq<Op>, s: State, n: nat, z: string, rank: string -> nat)
    returns (acts: seq<nat>)
    requires Turns(ops, s, {}) && n <= |ops| && forall i :: 0 <= i < n ==> s.tasks[i].pc == Lookup
    ensures Legal(s, acts) && |After(s, acts).names| == Room(s, z, rank)
    decreases |ops| - n
  {
    acts := [];
    if n == |ops| {
      NothingReserved(s.tasks, z, rank);
    } else if s.tasks[n].pc == Lookup {
      acts := AppendRest(ops, s, n + 1, z, rank);
    } else {
      ReserveUpdate(s.tasks, n, TaskStep(s, n), z, rank);
      acts := AppendRest(ops, Apply(s, n), n + 1, z, rank);
      acts := Runs.Prepend(System(), s, n, acts);
    }
  }

  lemma {:induction false} NothingReserved(tasks: seq<Task>, z: string, rank: string -> nat)
    requires forall i :: 0 <= i < |tasks| ==> tasks[i].pc == Lookup
    ensures AllReserve(tasks, z, rank) == 0
  {
    if tasks == [] {
    } else {
      NothingReserved(tasks[1..], z, rank);
    }
  }

  /** For every name that can come first and every order, some interleaving lists one
      entry per operation and one more per checksum that then adds both names. */
  lemma ListThatMany(ops: seq<Op>, z: string, rank: string -> nat) returns (acts: seq<nat>)
    requires AddedFirst(ops, z)
    ensures Legal(Init(ops), acts)
    ensures |After(Init(ops), acts).names| >= |ops| + BothCount(ops, z, rank)
  {
    var i: nat :| i < |ops| && FirstName(ops[i]) == z;
    InitialRoom(ops, z, rank);
    acts := VerifyAll(ops, |ops|, z, rank);
    var s := After(Init(ops), acts);
    var turn := TakeTurn(s, i, z, rank);
    Runs.LegalAppend(System(), Init(ops), acts, turn);
    var s1 := After(s, turn);
    var turns := TakeTurns(ops, s1, Below(|ops|) - {i}, z, rank);
    Runs.LegalAppend(System(), Init(ops), acts + turn, turns);
    var rest := AppendRest(ops, After(s1, turns), 0, z, rank);
    Runs.LegalAppend(System(), Init(ops), acts + turn + turns, rest);
    acts := acts + turn + turns + rest;
  }

  // ---------------------------------------------------------------------------
  // The exact condition
  // ---------------------------------------------------------------------------

  /** An entry for every operation and one more for every checksum that can add both its
      names, whichever name comes first and in whatever order. */
  ghost predicate Enough(ops: seq<Op>, capacity: nat) {
    forall z, rank :: AddedFirst(ops, z) ==> |ops| + BothCount(ops, z, rank) <= capacity
  }

  lemma FitsIfEnough(ops: seq<Op>, capacity: nat, acts: seq<nat>)
    requires Enough(ops, capacity) && Legal(Init(ops), acts)
    ensures |After(Init(ops), acts).names| <= capacity
  {
    if After(Init(ops), acts).names != [] {
      var z, rank := NamesBounded(ops, acts);
    }
  }

  lemma EnoughIfFits(ops: seq<Op>, capacity: nat, z: string, rank: string -> nat)
    requires Fits(Init(ops), capacity) && AddedFirst(ops, z)
    ensures |ops| + BothCount(ops, z, rank) <= capacity
  {
    var acts := ListThatMany(ops, z, rank);
  }

  /** The list of `capacity` entries is large enough in every interleaving, exactly when
      it is enough for every first name and every order. */
  lemma ListFitsIff(ops: seq<Op>, capacity: nat)
    ensures Fits(Init(ops), capacity) <==> Enough(ops, capacity)
  {
    if Fits(Init(ops), capacity) {
      forall z, rank | AddedFirst(ops, z)
        ensures |ops| + BothCount(ops, z, rank) <= capacity
      {
        EnoughIfFits(ops, capacity, z, rank);
      }
    }
    if Enough(ops, capacity) {
      forall acts | Legal(Init(ops), acts)
        ensures |After(Init(ops), acts).names| <= capacity
      {
        FitsIfEnough(ops, capacity, acts);
      }
    }
  }

  /** All names the operations add. */
  function AllAdds(ops: seq<Op>): seq<string> {
    if ops == [] then [] else AllAdds(ops[..|ops| - 1]) + Adds(ops[|ops| - 1])
  }

  lemma {:induction false} BothAtMostAll(ops: seq<Op>, z: string, rank: string -> nat)
    ensures |ops| + BothCount(ops, z, rank) <= |AllAdds(ops)|
    ensures LockOrder.Ordered(ops, rank) ==> |ops| + BothCount(ops, z, rank) == |AllAdds(ops)|
  {
    if ops == [] {
    } else {
      BothAtMostAll(ops[..|ops| - 1], z, rank);
    }
  }

  /** When the files can be ordered so that every checksum names its lower file first, the
      list needs an entry for every name added, repeated or not. */
  lemma OrderedListFitsIff(ops: seq<Op>, rank: string -> nat, capacity: nat)
    requires LockOrder.Ordered(ops, rank)
    ensures Fits(Init(ops), capacity) <==> |AllAdds(ops)| <= capacity
  {
    ListFitsIff(ops, capacity);
    forall z, r: string -> nat
      ensures |ops| + BothCount(ops, z, r) <= |AllAdds(ops)|
    {
      BothAtMostAll(ops, z, r);
    }
    if ops == [] {
    } else {
      assert AddedFirst(ops, FirstName(ops[0]));
      BothAtMostAll(ops, FirstName(ops[0]), rank);
    }
  }

  lemma {:induction false} CopiesAdd(op: Op, n: nat, z: string, rank: string -> nat)
    requires op.Checksum?
    ensures |AllAdds(seq(n, _ => op))| == 2 * n
    ensures AddsBoth(op, z, rank) ==> BothCount(seq(n, _ => op), z, rank) == n
  {
    if n == 0 {
    } else {
      assert seq(n, _ => op)[..n - 1] == seq(n - 1, _ => op);
      CopiesAdd(op, n - 1, z, rank);
    }
  }

  /** The program checks the number of lines against the size of the list. Copies of one
      checksum line name one or two files and need two entries each. */
  lemma CopiesFitIff(op: Op, n: nat, capacity: nat)
    requires op.Checksum?
    ensures Fits(Init(seq(n, _ => op)), capacity) <==> 2 * n <= capacity
  {
    var ops := seq(n, _ => op);
    var z, rank := op.file2, (name: string) => if name == op.file2 then 1 else 0;
    ListFitsIff(ops, capacity);
    CopiesAdd(op, n, z, rank);
    forall z, r: string -> nat
      ensures |ops| + BothCount(ops, z, r) <= 2 * n
    {
      BothAtMostAll(ops, z, r);
    }
    if n > 0 {
      assert FirstName(ops[0]) == z;
      assert AddedFirst(ops, z);
    }
  }
}
