/** planner.c: the ready queues as linked lists of task records, updated in place.
    One hand-off (select, run a quantum, subtract, re-enqueue) is one step. */
module Planner {
  import opened CInts
  import opened RoundRobin

  class Task {
    const threadId: nat
    const priority: nat
    var timeSlice: nat
    var next: Task?

    constructor (threadId: nat, priority: nat, timeSlice: nat)
      ensures this.threadId == threadId && this.priority == priority
      ensures this.timeSlice == timeSlice && next == null
    {
      this.threadId := threadId;
      this.priority := priority;
      this.timeSlice := timeSlice;
      next := null;
    }
  }

  /** The list from `head` consists of the tasks `ts`, in this order. */
  ghost predicate Linked(head: Task?, ts: seq<Task>)
    reads ts
  {
    && head == (if ts == [] then null else ts[0])
    && forall k {:trigger ts[k].next} :: 0 <= k < |ts| ==> ts[k].next == if k + 1 < |ts| then ts[k + 1] else null
  }

  /** The list from `head`, with the record linked behind its last one. */
  method LinkBehind(head: Task?, ghost ts: seq<Task>, task: Task) returns (newHead: Task)
    requires Linked(head, ts) && NoDuplicates(ts) && task !in ts
    modifies ts`next, task`next
    ensures Linked(newHead, ts + [task])
  {
    if head == null {
      newHead := task;
    } else {
      newHead := head;
      var temp := head;
      ghost var k := 0;
      while temp.next != null
        invariant 0 <= k < |ts| && temp == ts[k]
        decreases |ts| - k
      {
        assert ts[k].next == if k + 1 < |ts| then ts[k + 1] else null;
        temp := temp.next;
        k := k + 1;
      }
      assert ts[k].next == null && k == |ts| - 1;
      temp.next := task;
    }
    task.next := null;
  }

  const INVALID_TID := 0

  class Scheduler {
    var timeQuantum: nat
    var currentThread: nat
    const readyQueues: array<Task?>

    /** The contents of the ready queues. */
    ghost var queues: seq<seq<Task>>
    /** All tasks ever forked. */
    ghost var tasks: set<Task>

    /** Each queue is a list that ends, of tasks of its priority; no task is in two
        places. */
    ghost predicate Valid()
      reads this, readyQueues, tasks
    {
      && readyQueues.Length == |queues| == SO_MAX_PRIO
      && (forall p, t :: 0 <= p < SO_MAX_PRIO && t in queues[p] ==> t in tasks && t.priority == p)
      && (forall p :: 0 <= p < SO_MAX_PRIO ==> NoDuplicates(queues[p]) && Linked(readyQueues[p], queues[p]))
    }

    /** The remaining slices of all tasks. */
    ghost function Left(): map<Task, nat>
      reads this`tasks, tasks`timeSlice
    {
      map t | t in tasks :: t.timeSlice
    }

    /** The scheduler as a state of the round-robin policy. */
    ghost function Policy(): State<Task>
      reads this`queues, this`tasks, tasks`timeSlice
    {
      State(queues, Left(), map t | t in tasks :: t.priority)
    }

    /** so_init */
    constructor (timeQuantum: nat)
      ensures Valid() && fresh(readyQueues)
      ensures this.timeQuantum == timeQuantum && currentThread == INVALID_TID
      ensures Policy() == State([[], [], [], [], []], map[], map[])
    {
      this.timeQuantum := timeQuantum;
      currentThread := INVALID_TID;
      readyQueues := new Task?[SO_MAX_PRIO](_ => null);
      queues := [[], [], [], [], []];
      tasks := {};
    }

    /** enqueue */
    method Enqueue(p: nat, task: Task)
      requires Valid() && p < SO_MAX_PRIO && task in tasks && task.priority == p && task !in queues[p]
      modifies this`queues, readyQueues, tasks`next
      ensures Valid() && Left() == old(Left())
      ensures queues == old(queues)[p := old(queues)[p] + [task]]
    {
      ghost var before := queues;
      assert forall t :: t in before[p] + [task] ==> t.priority == p;
      var head := LinkBehind(readyQueues[p], queues[p], task);
      readyQueues[p] := head;
      queues := queues[p := queues[p] + [task]];
      forall j | 0 <= j < SO_MAX_PRIO && j != p
        ensures NoDuplicates(queues[j]) && Linked(readyQueues[j], queues[j])
      {
        assert queues[j] == before[j] && old(Linked(readyQueues[j], queues[j]));
        forall k | 0 <= k < |before[j]|
          ensures before[j][k].next == old(before[j][k].next)
        {
          assert before[j][k] in before[j] && before[j][k].priority == j;
        }
      }
    }

    /** dequeue */
    method Dequeue(p: nat) returns (task: Task?)
      requires Valid() && p < SO_MAX_PRIO
      modifies this`queues, readyQueues, tasks`next
      ensures Valid() && Left() == old(Left())
      ensures old(queues)[p] == [] ==> task == null && queues == old(queues)
      ensures old(queues)[p] != [] ==>
        && task == old(queues)[p][0] && task.next == null && task in old(queues)[p] && task !in queues[p]
        && queues == old(queues)[p := old(queues)[p][1..]]
    {
      if readyQueues[p] == null {
        return null;
      }
      ghost var ts := queues[p];
      assert Linked(readyQueues[p], ts);
      task := readyQueues[p];
      assert ts[0].next == if |ts| > 1 then ts[1] else null;
      readyQueues[p] := task.next;
      task.next := null;
      queues := queues[p := ts[1..]];
      assert forall k :: 0 <= k < |ts| - 1 ==> ts[1..][k] == ts[k + 1];
      assert Linked(readyQueues[p], queues[p]);
      forall j | 0 <= j < SO_MAX_PRIO && j != p
        ensures Linked(readyQueues[j], queues[j])
      {
        assert queues[j] == old(queues)[j];
        assert task in ts && task.priority == p;
      }
    }

    /** select_next_task */
    method SelectNextTask() returns (task: Task?)
      requires Valid()
      modifies this`queues, readyQueues, tasks`next
      ensures Valid()
      ensures old(Idle(Policy())) ==> task == null && Policy() == old(Policy())
      ensures !old(Idle(Policy())) ==>
        && task == Next(old(Policy())) && task.next == null && Policy() == Selected(old(Policy()))
        && task in tasks && task.priority < SO_MAX_PRIO && task !in queues[task.priority]
    {
      var i := SO_MAX_PRIO - 1;
      while i >= 0
        invariant -1 <= i < SO_MAX_PRIO
        invariant Highest(queues, SO_MAX_PRIO) == Highest(queues, i + 1)
      {
        if readyQueues[i] != null {
          task := Dequeue(i);
          return;
        }
        i := i - 1;
      }
      return null;
    }

    /** so_fork, without the thread it creates: the new task is ready. */
    method SoFork(threadId: nat, priority: nat, timeSlice: nat) returns (task: Task)
      requires Valid() && priority < SO_MAX_PRIO
      modifies this`queues, this`tasks, readyQueues, tasks`next
      ensures Valid() && fresh(task) && tasks == old(tasks) + {task} && task.threadId == threadId
      ensures task.timeSlice == timeSlice && task.priority == priority
      ensures queues == old(queues)[priority := old(queues)[priority] + [task]]
      ensures Policy() == Forked(old(Policy()), task, priority, timeSlice)
    {
      ghost var s := Policy();
      task := new Task(threadId, priority, timeSlice);
      tasks := tasks + {task};
      ghost var s' := Forked(s, task, priority, timeSlice);
      assert Left() == s'.left;
      Enqueue(priority, task);
      assert queues == s'.queues && Left() == s'.left && Policy().prio == s'.prio;
    }

    /** One pass of the slice loop of execute_the_thread_with_task. */
    method RunQuantum(task: Task)
      requires Valid() && task in tasks && task.priority < SO_MAX_PRIO && task !in queues[task.priority]
      modifies this`queues, readyQueues, tasks
      ensures Valid()
      ensures Policy() == Ran(old(Policy()), task, timeQuantum)
    {
      ghost var s' := Ran(Policy(), task, timeQuantum);
      task.timeSlice := U32(task.timeSlice - timeQuantum);
      assert Left() == s'.left;
      assert forall p :: 0 <= p < SO_MAX_PRIO ==> Linked(readyQueues[p], queues[p]);
      if task.timeSlice > 0 {
        Enqueue(task.priority, task);
      } else {
        assert queues[task.priority] + [] == queues[task.priority];
      }
      assert queues == s'.queues && Left() == s'.left;
    }

    /** One hand-off between so_runnnn and the task it selects. */
    method HandOff() returns (task: Task?)
      requires Valid()
      modifies this`queues, this`currentThread, readyQueues, tasks
      ensures Valid()
      ensures old(Idle(Policy())) ==> task == null && Policy() == old(Policy())
      ensures !old(Idle(Policy())) ==>
        && task == Next(old(Policy())) && currentThread == task.threadId
        && Dispatchable(old(Policy())) && Policy() == Dispatched(old(Policy()), timeQuantum)
    {
      task := SelectNextTask();
      if task != null {
        currentThread := task.threadId;
        RunQuantum(task);
      }
    }

    /** One round of the dispatcher loop, as a step of the run. */
    method Round() returns (task: Task?)
      requires Valid() && RoundRobin.Valid(Policy(), timeQuantum)
      modifies this`queues, this`currentThread, readyQueues, tasks
      ensures Valid() && RoundRobin.Valid(Policy(), timeQuantum)
      ensures
        var before, after := old(Run(Policy(), timeQuantum)), Run(Policy(), timeQuantum);
        if task == null then before == after == Outcome([], Policy())
        else before == Outcome([task as Task] + after.log, after.end)
    {
      if !Idle(Policy()) {
        RunStep(Policy(), timeQuantum);
      }
      task := HandOff();
    }

    /** so_runnnn: the returned tasks are those that ran, in order. */
    method SoRun() returns (log: seq<Task>)
      requires Valid() && RoundRobin.Valid(Policy(), timeQuantum)
      modifies this`queues, this`currentThread, readyQueues, tasks
      ensures Valid()
      ensures Outcome(log, Policy()) == Run(old(Policy()), timeQuantum)
    {
      log := [];
      ghost var goal := Run(Policy(), timeQuantum);
      ghost var todo := goal;
      while true
        invariant Valid() && RoundRobin.Valid(Policy(), timeQuantum)
        invariant todo == Run(Policy(), timeQuantum)
        invariant goal.log == log + todo.log && goal.end == todo.end
        decreases |todo.log|
      {
        var task := Round();
        if task == null {
          break;
        }
        var ran: Task := task;
        todo := Run(Policy(), timeQuantum);
        MoveOver(log, ran, todo.log);
        log := log + [ran];
      }
    }
  }

  lemma MoveOver<T>(done: seq<T>, x: T, todo: seq<T>)
    ensures done + ([x] + todo) == (done + [x]) + todo
  {
  }
}
