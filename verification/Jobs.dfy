/** EXAMS/PART2_lab14/server.c: admission of `run` requests against a limit of running
    jobs, and the thread that reaps the children. Signals are not part of the model. */
module Jobs {
  import Runs

  const SEED_INIT := 123456

  /** id_seed and running_jobs_nr, each behind its mutex. */
  class Counters {
    var idSeed: int
    var runningJobsNr: int

    constructor ()
      ensures idSeed == SEED_INIT && runningJobsNr == 0
    {
      idSeed := SEED_INIT;
      runningJobsNr := 0;
    }

    /** Lines 145-147. */
    method NewId() returns (id: int)
      modifies this`idSeed
      ensures id == old(idSeed) && idSeed == old(idSeed) + 1
    {
      id := idSeed;
      idSeed := idSeed + 1;
    }

    /** Lines 149-161. */
    method Admit(slots: nat) returns (admitted: bool)
      modifies this`runningJobsNr
      ensures admitted <==> old(runningJobsNr) < slots
      ensures runningJobsNr == old(runningJobsNr) + if admitted then 1 else 0
    {
      if runningJobsNr >= slots {
        return false;
      }
      runningJobsNr := runningJobsNr + 1;
      return true;
    }

    /** Lines 339-341. */
    method Uncount()
      modifies this`runningJobsNr
      ensures runningJobsNr == old(runningJobsNr) - 1
    {
      runningJobsNr := runningJobsNr - 1;
    }
  }

  // ---------------------------------------------------------------------------
  // The server as a transition system
  // ---------------------------------------------------------------------------

  /** Where a handler thread is; the names are those of its next step. A rejected
      request and a failed fork end there. `alive`: its child has not been waited for. */
  datatype Pc = TakeId | Admission | Fork | Register(alive: bool) | Post | Done

  datatype ReaperPc = AwaitPost | Wait | Mark | Uncount

  /** `children` are forked and not yet waited for; `failed` counts the forks that
      failed; `ids` are the ids of the handlers that have one. `stuck`: a handler holds
      jobs_mutex for ever. */
  datatype State = State(running: int, seed: int, sem: nat, children: nat, failed: nat,
                         handlers: seq<Pc>, ids: map<nat, int>, reaper: ReaperPc, stuck: bool)

  /** `ReapUnregistered`: wait returns the child of a handler that has not entered it in
      the table yet. `BadStatus`: get_status for an id without a process locks jobs_mutex
      twice in one thread. */
  datatype Action = Request | Handler(i: nat) | ForkFails(i: nat) | Reaper | ReapUnregistered(i: nat) | BadStatus

  function Init(): State {
    State(0, SEED_INIT, 0, 0, 0, [], map[], AwaitPost, false)
  }

  /** Handlers at a program point. */
  function At(s: State, pc: Pc): nat {
    multiset(s.handlers)[pc]
  }

  predicate Enabled(s: State, a: Action) {
    match a
    case Request => true
    case Handler(i) => i < |s.handlers| && s.handlers[i] != Done && (s.handlers[i].Register? ==> !s.stuck)
    case ForkFails(i) => i < |s.handlers| && s.handlers[i] == Fork
    case Reaper =>
      (match s.reaper
       case AwaitPost => s.sem > 0
       case Wait => s.children > At(s, Register(true)) || s.children == 0
       case Mark => !s.stuck
       case Uncount => true)
    case ReapUnregistered(i) => s.reaper == Wait && i < |s.handlers| && s.handlers[i] == Register(true)
    case BadStatus => !s.stuck
  }

  function Goto(s: State, i: nat, pc: Pc): State
    requires i < |s.handlers|
  {
    s.(handlers := s.handlers[i := pc])
  }

  function HandlerStep(slots: nat, s: State, i: nat): State
    requires Enabled(s, Handler(i))
  {
    match s.handlers[i]
    case TakeId => Goto(s, i, Admission).(ids := s.ids[i := s.seed], seed := s.seed + 1)
    case Admission => if s.running >= slots then Goto(s, i, Done) else Goto(s, i, Fork).(running := s.running + 1)
    case Fork => Goto(s, i, Register(true)).(children := s.children + 1)
    case Register(alive) => Goto(s, i, Post)
    case Post => Goto(s, i, Done).(sem := s.sem + 1)
  }

  /** Without a child to wait for, wait fails and the counter is decremented all the
      same; no run gets there (`ReaperAlwaysFindsAChild`). */
  function ReaperStep(s: State): State
    requires Enabled(s, Reaper)
  {
    match s.reaper
    case AwaitPost => s.(sem := s.sem - 1, reaper := Wait)
    case Wait => if s.children > 0 then s.(children := s.children - 1, reaper := Mark) else s.(reaper := Uncount)
    case Mark => s.(reaper := Uncount)
    case Uncount => s.(running := s.running - 1, reaper := AwaitPost)
  }

  /** The process is not in the table, so nothing is marked. */
  function ReapUnregisteredStep(s: State, i: nat): State
    requires Enabled(s, ReapUnregistered(i))
  {
    Goto(s, i, Register(false)).(children := if s.children > 0 then s.children - 1 else 0, reaper := Uncount)
  }

  function Apply(slots: nat, s: State, a: Action): State
    requires Enabled(s, a)
  {
    match a
    case Request => s.(handlers := s.handlers + [TakeId])
    case Handler(i) => HandlerStep(slots, s, i)
    case ForkFails(i) => Goto(s, i, Done).(failed := s.failed + 1)
    case Reaper => ReaperStep(s)
    case ReapUnregistered(i) => ReapUnregisteredStep(s, i)
    case BadStatus => s.(stuck := true)
  }

  function System(slots: nat): Runs.System<State, Action> {
    Runs.System((s: State, a: Action) => Enabled(s, a),
                (s: State, a: Action) => if Enabled(s, a) then Apply(slots, s, a) else s)
  }

  predicate Legal(slots: nat, s: State, acts: seq<Action>) {
    Runs.Legal(System(slots), s, acts)
  }

  function After(slots: nat, s: State, acts: seq<Action>): State
    requires Legal(slots, s, acts)
  {
    Runs.After(System(slots), s, acts)
  }

  // ---------------------------------------------------------------------------
  // The invariant
  // ---------------------------------------------------------------------------

  function One(b: bool): nat {
    if b then 1 else 0
  }

  /** Handlers that have a child and have not posted yet. */
  function Announcing(s: State): nat {
    At(s, Register(true)) + At(s, Register(false)) + At(s, Post)
  }

  /** Each counted job is about to fork, has a child, is about to be uncounted, or had
      its fork fail; each child is announced to the reaper or about to be. */
  predicate Accounts(slots: nat, s: State) {
    && s.running == At(s, Fork) + s.children + One(s.reaper in {Mark, Uncount}) + s.failed
    && s.children == s.sem + Announcing(s) + One(s.reaper == Wait)
    && s.running <= slots
  }

  /** Handlers past the first section have an id, all of them different. */
  predicate IdsOk(s: State) {
    && (forall i :: i in s.ids ==> i < |s.handlers| && SEED_INIT <= s.ids[i] < s.seed && s.handlers[i] != TakeId)
    && (forall i :: 0 <= i < |s.handlers| && s.handlers[i] != TakeId ==> i in s.ids)
    && (forall i, j :: i in s.ids && j in s.ids && i != j ==> s.ids[i] != s.ids[j])
  }

  lemma GotoCounts(s: State, i: nat, to: Pc, pc: Pc)
    requires i < |s.handlers|
    ensures At(s, s.handlers[i]) >= 1
    ensures At(Goto(s, i, to), pc) == At(s, pc) - One(s.handlers[i] == pc) + One(to == pc)
  {
  }

  lemma GotoAnnouncing(s: State, i: nat, to: Pc)
    requires i < |s.handlers|
    ensures Announcing(Goto(s, i, to)) == Announcing(s)
              - One(s.handlers[i].Register? || s.handlers[i] == Post) + One(to.Register? || to == Post)
  {
    GotoCounts(s, i, to, Register(true));
    GotoCounts(s, i, to, Register(false));
    GotoCounts(s, i, to, Post);
  }

  lemma HandlerCounts(slots: nat, s: State, i: nat, pc: Pc)
    requires Enabled(s, Handler(i))
    ensures
      var s' := HandlerStep(slots, s, i);
      At(s', pc) == At(s, pc) - One(s.handlers[i] == pc) + One(s'.handlers[i] == pc)
  {
    GotoCounts(s, i, HandlerStep(slots, s, i).handlers[i], pc);
  }

  lemma HandlerKeepsAccounts(slots: nat, s: State, i: nat)
    requires Accounts(slots, s) && Enabled(s, Handler(i))
    ensures Accounts(slots, HandlerStep(slots, s, i))
  {
    var s' := HandlerStep(slots, s, i);
    HandlerCounts(slots, s, i, Fork);
    GotoAnnouncing(s, i, s'.handlers[i]);
    assert Announcing(s') == Announcing(Goto(s, i, s'.handlers[i]));
  }

  lemma ReapKeepsAccounts(slots: nat, s: State, i: nat)
    requires Accounts(slots, s) && Enabled(s, ReapUnregistered(i))
    ensures Accounts(slots, ReapUnregisteredStep(s, i))
  {
    var s' := ReapUnregisteredStep(s, i);
    GotoCounts(s, i, Register(false), Fork);
    GotoAnnouncing(s, i, Register(false));
    assert Announcing(s') == Announcing(Goto(s, i, Register(false)));
  }

  lemma RequestCounts(s: State, pc: Pc)
    requires pc != TakeId
    ensures At(s.(handlers := s.handlers + [TakeId]), pc) == At(s, pc)
  {
  }

  lemma StepKeepsAccounts(slots: nat, s: State, a: Action)
    requires Accounts(slots, s) && Enabled(s, a)
    ensures Accounts(slots, Apply(slots, s, a))
  {
    match a
    case Request =>
      RequestCounts(s, Fork);
      RequestCounts(s, Register(true));
      RequestCounts(s, Register(false));
      RequestCounts(s, Post);
    case Handler(i) =>
      HandlerKeepsAccounts(slots, s, i);
    case ForkFails(i) =>
      GotoCounts(s, i, Done, Fork);
      GotoAnnouncing(s, i, Done);
      assert Announcing(Apply(slots, s, a)) == Announcing(Goto(s, i, Done));
    case Reaper =>
      assert Announcing(ReaperStep(s)) == Announcing(s);
    case ReapUnregistered(i) =>
      ReapKeepsAccounts(slots, s, i);
    case BadStatus =>
      assert Announcing(Apply(slots, s, a)) == Announcing(s);
  }

  lemma TakeIdKeepsIds(s: State, i: nat)
    requires IdsOk(s) && s.seed >= SEED_INIT && i < |s.handlers| && s.handlers[i] == TakeId
    ensures IdsOk(Goto(s, i, Admission).(ids := s.ids[i := s.seed], seed := s.seed + 1))
  {
  }

  lemma GotoKeepsIds(s: State, s': State, i: nat, to: Pc)
    requires IdsOk(s) && i < |s.handlers| && s.handlers[i] != TakeId && to != TakeId
    requires s'.handlers == s.handlers[i := to] && s'.ids == s.ids && s'.seed == s.seed
    ensures IdsOk(s')
  {
  }

  lemma HandlerKeepsIds(slots: nat, s: State, i: nat)
    requires IdsOk(s) && s.seed >= SEED_INIT && Enabled(s, Handler(i))
    ensures IdsOk(HandlerStep(slots, s, i)) && HandlerStep(slots, s, i).seed >= SEED_INIT
  {
    if s.handlers[i] == TakeId {
      TakeIdKeepsIds(s, i);
    } else {
      GotoKeepsIds(s, HandlerStep(slots, s, i), i, HandlerStep(slots, s, i).handlers[i]);
    }
  }

  lemma RequestKeepsIds(s: State)
    requires IdsOk(s)
    ensures IdsOk(s.(handlers := s.handlers + [TakeId]))
  {
  }

  lemma StepKeepsIds(slots: nat, s: State, a: Action)
    requires IdsOk(s) && s.seed >= SEED_INIT && Enabled(s, a)
    ensures IdsOk(Apply(slots, s, a)) && Apply(slots, s, a).seed >= SEED_INIT
  {
    match a
    case Request => RequestKeepsIds(s);
    case Handler(i) => HandlerKeepsIds(slots, s, i);
    case ForkFails(i) => GotoKeepsIds(s, Apply(slots, s, a), i, Done);
    case ReapUnregistered(i) => GotoKeepsIds(s, Apply(slots, s, a), i, Register(false));
    case _ =>
  }

  lemma {:induction false} AccountsAlong(slots: nat, s: State, acts: seq<Action>)
    requires Accounts(slots, s) && Legal(slots, s, acts)
    ensures Accounts(slots, After(slots, s, acts))
    decreases |acts|
  {
    if acts == [] {
    } else {
      StepKeepsAccounts(slots, s, acts[0]);
      AccountsAlong(slots, Apply(slots, s, acts[0]), acts[1..]);
    }
  }

  lemma {:induction false} HandlersGrow(slots: nat, s: State, acts: seq<Action>)
    requires Legal(slots, s, acts)
    ensures |After(slots, s, acts).handlers| >= |s.handlers|
    decreases |acts|
  {
    if acts == [] {
    } else {
      HandlersGrow(slots, Apply(slots, s, acts[0]), acts[1..]);
    }
  }

  lemma InitAccounts(slots: nat)
    ensures Accounts(slots, Init())
  {
  }

  /** Every state of every interleaving. */
  lemma Reachable(slots: nat, acts: seq<Action>)
    requires Legal(slots, Init(), acts)
    ensures Accounts(slots, After(slots, Init(), acts))
  {
    InitAccounts(slots);
    AccountsAlong(slots, Init(), acts);
  }

  lemma {:induction false} IdsAlong(slots: nat, s: State, acts: seq<Action>)
    requires IdsOk(s) && s.seed >= SEED_INIT && Legal(slots, s, acts)
    ensures IdsOk(After(slots, s, acts))
    decreases |acts|
  {
    if acts == [] {
    } else {
      StepKeepsIds(slots, s, acts[0]);
      IdsAlong(slots, Apply(slots, s, acts[0]), acts[1..]);
    }
  }

  // ---------------------------------------------------------------------------
  // Admission and reaping
  // ---------------------------------------------------------------------------

  /** In every interleaving the children that are not reaped are no more than the
      counter says, the counter stays between 0 and the limit, and no two requests get
      the same id. */
  lemma RunningIsBounded(slots: nat, acts: seq<Action>)
    requires Legal(slots, Init(), acts)
    ensures
      var s := After(slots, Init(), acts);
      && s.children <= s.running && 0 <= s.running <= slots
      && forall i, j :: i in s.ids && j in s.ids && i != j ==> s.ids[i] != s.ids[j]
  {
    Reachable(slots, acts);
    IdsAlong(slots, Init(), acts);
  }

  /** The reaper never calls wait without a child. */
  lemma ReaperAlwaysFindsAChild(slots: nat, acts: seq<Action>)
    requires Legal(slots, Init(), acts)
    ensures After(slots, Init(), acts).reaper == Wait ==> After(slots, Init(), acts).children > 0
  {
    Reachable(slots, acts);
  }

  /** Nothing is under way: no handler past its request, nothing for the reaper. */
  predicate Quiescent(s: State) {
    && s.children == 0 && s.reaper == AwaitPost
    && forall i :: 0 <= i < |s.handlers| ==> s.handlers[i] in {TakeId, Admission, Done}
  }

  /** When the server is at rest the counter is meant to be 0. It is, exactly when no
      fork has failed: a job whose fork fails stays counted. */
  lemma CounterReturnsIff(slots: nat, acts: seq<Action>)
    requires Legal(slots, Init(), acts) && Quiescent(After(slots, Init(), acts))
    ensures After(slots, Init(), acts).running == After(slots, Init(), acts).failed
    ensures After(slots, Init(), acts).running == 0 <==> After(slots, Init(), acts).failed == 0
  {
    Reachable(slots, acts);
    assert Fork !in After(slots, Init(), acts).handlers;
  }

  // ---------------------------------------------------------------------------
  // The path of a request
  // ---------------------------------------------------------------------------

  /** A step of a handler: where it was, whether the limit was reached, whether it was a
      failing fork. */
  datatype Visit = Visit(pc: Pc, full: bool, failed: bool)

  function VisitNow(slots: nat, s: State, a: Action, i: nat): seq<Visit> {
    if i < |s.handlers| && (a == Handler(i) || a == ForkFails(i)) then
      [Visit(s.handlers[i], s.running >= slots, a.ForkFails?)]
    else []
  }

  /** The steps handler `i` takes in a run. */
  function Visits(slots: nat, s: State, acts: seq<Action>, i: nat): seq<Visit>
    requires Legal(slots, s, acts)
    decreases |acts|
  {
    if acts == [] then []
    else VisitNow(slots, s, acts[0], i) + Visits(slots, Apply(slots, s, acts[0]), acts[1..], i)
  }

  /** It took its id and came to the test, once. */
  predicate Tested(h: seq<Visit>) {
    |h| >= 2 && h[0].pc == TakeId && h[1].pc == Admission
  }

  predicate Admitted(h: seq<Visit>) {
    Tested(h) && !h[1].full
  }

  predicate HasForked(h: seq<Visit>) {
    Admitted(h) && |h| >= 3 && h[2].pc == Fork && !h[2].failed
  }

  /** The steps that lead a handler to where it is: id, test, and if the limit was not
      reached then fork, and if that did not fail then registration and post. */
  predicate PathTo(h: seq<Visit>, pc: Pc) {
    match pc
    case TakeId => h == []
    case Admission => |h| == 1 && h[0].pc == TakeId
    case Fork => |h| == 2 && Admitted(h)
    case Register(alive) => |h| == 3 && HasForked(h)
    case Post => |h| == 4 && HasForked(h) && h[3].pc.Register?
    case Done =>
      || (|h| == 2 && Tested(h) && h[1].full)
      || (|h| == 3 && Admitted(h) && h[2].pc == Fork && h[2].failed)
      || (|h| == 5 && HasForked(h) && h[3].pc.Register? && h[4].pc == Post)
  }

  predicate OnPath(s: State, h: seq<Visit>, i: nat) {
    if i < |s.handlers| then PathTo(h, s.handlers[i]) else h == []
  }

  lemma StepOnPath(slots: nat, s: State, a: Action, h: seq<Visit>, i: nat)
    requires OnPath(s, h, i) && Enabled(s, a)
    ensures OnPath(Apply(slots, s, a), h + VisitNow(slots, s, a, i), i)
  {
    if i < |s.handlers| && a == Handler(i) {
      HandlerOnPath(slots, s, h, i);
    } else if VisitNow(slots, s, a, i) == [] {
      assert h + VisitNow(slots, s, a, i) == h;
    }
  }

  lemma HandlerOnPath(slots: nat, s: State, h: seq<Visit>, i: nat)
    requires Enabled(s, Handler(i)) && PathTo(h, s.handlers[i])
    ensures PathTo(h + [Visit(s.handlers[i], s.running >= slots, false)], HandlerStep(slots, s, i).handlers[i])
  {
  }

  lemma {:induction false} StayOnPath(slots: nat, s: State, acts: seq<Action>, h: seq<Visit>, i: nat)
    requires OnPath(s, h, i) && Legal(slots, s, acts)
    ensures OnPath(After(slots, s, acts), h + Visits(slots, s, acts, i), i)
    decreases |acts|
  {
    if acts == [] {
      assert h + Visits(slots, s, acts, i) == h;
    } else {
      var now, s' := VisitNow(slots, s, acts[0], i), Apply(slots, s, acts[0]);
      StepOnPath(slots, s, acts[0], h, i);
      StayOnPath(slots, s', acts[1..], h + now, i);
      Associate(h, now, Visits(slots, s', acts[1..], i));
    }
  }

  lemma Associate(a: seq<Visit>, b: seq<Visit>, c: seq<Visit>)
    ensures a + (b + c) == (a + b) + c
  {
  }

  /** In every interleaving every request takes its id once, then its test once; it is
      rejected for good if the limit is reached then, and otherwise forks once, and
      registers and posts its child once unless the fork fails. */
  lemma HandlerPath(slots: nat, acts: seq<Action>, i: nat)
    requires Legal(slots, Init(), acts) && i < |After(slots, Init(), acts).handlers|
    ensures PathTo(Visits(slots, Init(), acts, i), After(slots, Init(), acts).handlers[i])
  {
    StayOnPath(slots, Init(), acts, [], i);
    assert [] + Visits(slots, Init(), acts, i) == Visits(slots, Init(), acts, i);
  }

  lemma {:induction false} DoneStaysDone(slots: nat, s: State, acts: seq<Action>, i: nat)
    requires i < |s.handlers| && s.handlers[i] == Done && Legal(slots, s, acts)
    ensures i < |After(slots, s, acts).handlers| && After(slots, s, acts).handlers[i] == Done
    ensures Visits(slots, s, acts, i) == []
    decreases |acts|
  {
    if acts == [] {
    } else {
      DoneStaysDone(slots, Apply(slots, s, acts[0]), acts[1..], i);
    }
  }

  /** A request that comes to its test while the limit is reached is done in every later
      state, and takes no further step. */
  lemma RejectedForGood(slots: nat, s: State, acts: seq<Action>, i: nat)
    requires i < |s.handlers| && s.handlers[i] == Admission && s.running >= slots
    requires Legal(slots, s, [Handler(i)] + acts)
    ensures
      var s' := After(slots, s, [Handler(i)] + acts);
      i < |s'.handlers| && s'.handlers[i] == Done
    ensures Visits(slots, s, [Handler(i)] + acts, i) == [Visit(Admission, true, false)]
  {
    assert ([Handler(i)] + acts)[1..] == acts;
    DoneStaysDone(slots, Apply(slots, s, Handler(i)), acts, i);
  }

  lemma {:induction false} VisitsAppend(slots: nat, s: State, first: seq<Action>, second: seq<Action>, i: nat)
    requires Legal(slots, s, first) && Legal(slots, After(slots, s, first), second)
    ensures Legal(slots, s, first + second)
    ensures Visits(slots, s, first + second, i)
            == Visits(slots, s, first, i) + Visits(slots, After(slots, s, first), second, i)
    decreases |first|
  {
    if first == [] {
      assert first + second == second;
    } else {
      var s', rest := Apply(slots, s, first[0]), first[1..];
      VisitsAppend(slots, s', rest, second, i);
      assert [first[0]] + (rest + second) == first + second;
      VisitsFirst(slots, s, first[0], rest + second, i);
      Associate(VisitNow(slots, s, first[0], i), Visits(slots, s', rest, i),
                Visits(slots, After(slots, s', rest), second, i));
    }
  }

  lemma VisitsFirst(slots: nat, s: State, a: Action, acts: seq<Action>, i: nat)
    requires Enabled(s, a) && Legal(slots, Apply(slots, s, a), acts)
    ensures Legal(slots, s, [a] + acts)
    ensures Visits(slots, s, [a] + acts, i) == VisitNow(slots, s, a, i) + Visits(slots, Apply(slots, s, a), acts, i)
  {
    assert ([a] + acts)[1..] == acts;
  }

  /** The requests past their test are divided into admitted and rejected once and for
      all: those that fork are among the admitted, and no request changes class. */
  lemma ClassesAreFixed(slots: nat, past: seq<Action>, more: seq<Action>, i: nat)
    requires Legal(slots, Init(), past) && Legal(slots, After(slots, Init(), past), more)
    requires Tested(Visits(slots, Init(), past, i))
    ensures Legal(slots, Init(), past + more)
    ensures Admitted(Visits(slots, Init(), past + more, i)) <==> Admitted(Visits(slots, Init(), past, i))
    ensures HasForked(Visits(slots, Init(), past + more, i)) ==> Admitted(Visits(slots, Init(), past, i))
  {
    VisitsAppend(slots, Init(), past, more, i);
  }

  // ---------------------------------------------------------------------------
  // The order of the ids
  // ---------------------------------------------------------------------------

  /** The handlers that take an id in a run, in order. */
  function Takers(slots: nat, s: State, acts: seq<Action>): seq<nat>
    requires Legal(slots, s, acts)
    decreases |acts|
  {
    if acts == [] then []
    else TakesNow(s, acts[0]) + Takers(slots, Apply(slots, s, acts[0]), acts[1..])
  }

  function TakesNow(s: State, a: Action): seq<nat> {
    if a.Handler? && a.i < |s.handlers| && s.handlers[a.i] == TakeId then [a.i] else []
  }

  /** A handler that has an id does not take another. */
  predicate TakenOnce(s: State) {
    forall i :: i in s.ids ==> i < |s.handlers| && s.handlers[i] != TakeId
  }

  lemma StepTakes(slots: nat, s: State, a: Action)
    requires TakenOnce(s) && Enabled(s, a)
    ensures
      var s', now := Apply(slots, s, a), TakesNow(s, a);
      && TakenOnce(s') && s'.seed == s.seed + |now|
      && (forall i :: i in s.ids ==> i in s'.ids && s'.ids[i] == s.ids[i])
      && (forall i :: i in s'.ids ==> i in s.ids || i in now)
      && (now != [] ==> now[0] in s'.ids && s'.ids[now[0]] == s.seed)
  {
  }

  lemma {:induction false} IdsFrom(slots: nat, s: State, acts: seq<Action>)
    requires TakenOnce(s) && Legal(slots, s, acts)
    ensures
      var s', takers := After(slots, s, acts), Takers(slots, s, acts);
      && s'.seed == s.seed + |takers|
      && (forall i :: i in s.ids ==> i in s'.ids && s'.ids[i] == s.ids[i])
      && (forall i :: i in s'.ids ==> i in s.ids || i in takers)
      && (forall k :: 0 <= k < |takers| ==> takers[k] in s'.ids && s'.ids[takers[k]] == s.seed + k)
    decreases |acts|
  {
    if acts == [] {
    } else {
      StepTakes(slots, s, acts[0]);
      IdsFrom(slots, Apply(slots, s, acts[0]), acts[1..]);
    }
  }

  /** In every interleaving the k-th request to take an id gets the k-th number from the
      initial seed, nobody else has one, and the seed is the next. */
  lemma IdsInOrder(slots: nat, acts: seq<Action>)
    requires Legal(slots, Init(), acts)
    ensures
      var s, takers := After(slots, Init(), acts), Takers(slots, Init(), acts);
      && s.seed == SEED_INIT + |takers|
      && (forall i :: i in s.ids <==> i in takers)
      && (forall k :: 0 <= k < |takers| ==> takers[k] in s.ids && s.ids[takers[k]] == SEED_INIT + k)
  {
    IdsFrom(slots, Init(), acts);
    var s, takers := After(slots, Init(), acts), Takers(slots, Init(), acts);
    forall i | i in takers
      ensures i in s.ids
    {
      var k :| 0 <= k < |takers| && takers[k] == i;
    }
  }

  // ---------------------------------------------------------------------------
  // Admitting again
  // ---------------------------------------------------------------------------

  lemma SomeAt(s: State, pc: Pc) returns (i: nat)
    requires At(s, pc) > 0
    ensures i < |s.handlers| && s.handlers[i] == pc
  {
    assert pc in multiset(s.handlers);
    i :| i < |s.handlers| && s.handlers[i] == pc;
  }

  /** How many steps away the next free slot is, while jobs_mutex is usable. */
  function Stage(slots: nat, s: State): nat {
    if s.running < slots then 0
    else match s.reaper
      case Uncount => 1
      case Mark => 2
      case Wait => 3
      case AwaitPost =>
        if s.sem > 0 then 4 else if At(s, Post) > 0 then 5
        else if At(s, Register(true)) + At(s, Register(false)) > 0 then 6 else 7
  }

  lemma NextFreeing(slots: nat, s: State) returns (a: Action)
    requires Accounts(slots, s) && !s.stuck && s.failed < slots && s.running >= slots
    ensures Enabled(s, a) && Stage(slots, Apply(slots, s, a)) < Stage(slots, s)
    ensures !Apply(slots, s, a).stuck && Apply(slots, s, a).failed == s.failed
  {
    if s.reaper != AwaitPost || s.sem > 0 {
      a := Reaper;
    } else {
      var pc := if At(s, Post) > 0 then Post
                else if At(s, Register(true)) > 0 then Register(true)
                else if At(s, Register(false)) > 0 then Register(false) else Fork;
      var i := SomeAt(s, pc);
      a := Handler(i);
      var to := HandlerStep(slots, s, i).handlers[i];
      GotoCounts(s, i, to, Post);
      GotoCounts(s, i, to, Register(true));
      GotoCounts(s, i, to, Register(false));
    }
  }

  /** The same once jobs_mutex is stuck: a child must be waited for that its handler has
      not entered in the table. */
  function StuckStage(slots: nat, s: State): nat {
    if s.running < slots then 0
    else if s.reaper == Uncount then 1
    else (if s.reaper == Wait then 2 else if s.sem > 0 then 3 else 4) + if At(s, Register(true)) > 0 then 0 else 3
  }

  /** The reaper has a child announced, and there is or will be one that is not in the
      table. */
  predicate StuckCanFree(s: State) {
    || s.reaper == Uncount
    || ((s.reaper == Wait || (s.reaper == AwaitPost && s.sem + At(s, Post) > 0))
        && At(s, Register(true)) + At(s, Fork) > 0)
  }

  lemma NextStuckFreeing(slots: nat, s: State) returns (a: Action)
    requires Accounts(slots, s) && s.stuck && StuckCanFree(s) && s.running >= slots
    ensures Enabled(s, a) && StuckStage(slots, Apply(slots, s, a)) < StuckStage(slots, s)
    ensures Apply(slots, s, a).stuck && (Apply(slots, s, a).running < slots || StuckCanFree(Apply(slots, s, a)))
  {
    if s.reaper == Uncount {
      a := Reaper;
    } else if At(s, Register(true)) == 0 {
      var i := SomeAt(s, Fork);
      a := Handler(i);
      GotoCounts(s, i, Register(true), Register(true));
      GotoCounts(s, i, Register(true), Post);
    } else if s.reaper == Wait {
      var i := SomeAt(s, Register(true));
      a := ReapUnregistered(i);
    } else if s.sem > 0 {
      a := Reaper;
    } else {
      var i := SomeAt(s, Post);
      a := Handler(i);
      GotoCounts(s, i, Done, Register(true));
      GotoCounts(s, i, Done, Fork);
    }
  }

  /** Some slot can become free. */
  predicate CanFree(slots: nat, s: State) {
    s.running < slots || if s.stuck then StuckCanFree(s) else s.failed < slots
  }

  lemma {:induction false} FreeSlot(slots: nat, s: State) returns (acts: seq<Action>)
    requires Accounts(slots, s) && CanFree(slots, s)
    ensures Legal(slots, s, acts) && After(slots, s, acts).running < slots
    decreases if s.stuck then StuckStage(slots, s) else Stage(slots, s)
  {
    if s.running < slots {
      acts := [];
    } else {
      var a;
      if s.stuck {
        a := NextStuckFreeing(slots, s);
      } else {
        a := NextFreeing(slots, s);
      }
      StepKeepsAccounts(slots, s, a);
      acts := FreeSlot(slots, Apply(slots, s, a));
      acts := Runs.Prepend(System(slots), s, a, acts);
    }
  }

  /** Some request that arrives after `s` is admitted. */
  predicate Admits(slots: nat, s: State, acts: seq<Action>) {
    Legal(slots, s, acts) &&
    exists i :: |s.handlers| <= i < |After(slots, s, acts).handlers| && After(slots, s, acts).handlers[i] == Fork
  }

  /** From any reachable state the server can admit another request, exactly when a slot
      is or can become free: while jobs_mutex is usable, when fewer forks have failed than
      there are slots; once it is stuck, when the reaper has a decrement pending or is due
      a child that is not in the table. After that it rejects for ever. */
  lemma AdmitsAgainIff(slots: nat, past: seq<Action>)
    requires Legal(slots, Init(), past)
    ensures
      var s := After(slots, Init(), past);
      CanFree(slots, s) <==> exists acts :: Admits(slots, s, acts)
  {
    var s := After(slots, Init(), past);
    Reachable(slots, past);
    if CanFree(slots, s) {
      var acts := AdmitOne(slots, s);
    } else {
      forall acts
        ensures !Admits(slots, s, acts)
      {
        NeverAdmits(slots, s, acts);
      }
    }
  }

  lemma FullStaysHandler(slots: nat, s: State, i: nat)
    requires Accounts(slots, s) && !CanFree(slots, s) && Enabled(s, Handler(i))
    ensures !CanFree(slots, HandlerStep(slots, s, i))
  {
    HandlerCounts(slots, s, i, Fork);
    HandlerCounts(slots, s, i, Register(true));
    HandlerCounts(slots, s, i, Post);
  }

  lemma FullStays(slots: nat, s: State, a: Action)
    requires Accounts(slots, s) && !CanFree(slots, s) && Enabled(s, a)
    ensures !CanFree(slots, Apply(slots, s, a))
  {
    match a
    case Request =>
      RequestCounts(s, Fork);
      RequestCounts(s, Register(true));
      RequestCounts(s, Post);
    case Handler(i) =>
      FullStaysHandler(slots, s, i);
    case ForkFails(i) =>
      GotoCounts(s, i, Done, Fork);
      GotoCounts(s, i, Done, Register(true));
      GotoCounts(s, i, Done, Post);
    case ReapUnregistered(i) =>
      GotoCounts(s, i, Register(false), Register(true));
    case _ =>
  }

  /** No handler from `n` on is past its admission. */
  predicate NoneAdmitted(s: State, n: nat) {
    forall i :: n <= i < |s.handlers| ==> s.handlers[i].TakeId? || s.handlers[i].Admission? || s.handlers[i].Done?
  }

  lemma FullAdmitsNone(slots: nat, s: State, a: Action, n: nat)
    requires s.running >= slots && Enabled(s, a) && n <= |s.handlers| && NoneAdmitted(s, n)
    ensures NoneAdmitted(Apply(slots, s, a), n) && |Apply(slots, s, a).handlers| >= |s.handlers|
  {
  }

  lemma {:induction false} FullForEver(slots: nat, s: State, acts: seq<Action>, n: nat)
    requires Accounts(slots, s) && !CanFree(slots, s) && Legal(slots, s, acts)
    requires n <= |s.handlers| && NoneAdmitted(s, n)
    ensures NoneAdmitted(After(slots, s, acts), n)
    decreases |acts|
  {
    if acts == [] {
    } else {
      StepKeepsAccounts(slots, s, acts[0]);
      FullStays(slots, s, acts[0]);
      FullAdmitsNone(slots, s, acts[0], n);
      FullForEver(slots, Apply(slots, s, acts[0]), acts[1..], n);
    }
  }

  lemma NeverAdmits(slots: nat, s: State, acts: seq<Action>)
    requires Accounts(slots, s) && !CanFree(slots, s)
    ensures !Admits(slots, s, acts)
  {
    if Legal(slots, s, acts) {
      FullForEver(slots, s, acts, |s.handlers|);
    }
  }

  lemma AdmitOne(slots: nat, s: State) returns (acts: seq<Action>)
    requires Accounts(slots, s) && CanFree(slots, s)
    ensures Admits(slots, s, acts)
  {
    acts := FreeSlot(slots, s);
    HandlersGrow(slots, s, acts);
    var s1 := After(slots, s, acts);
    var i := |s1.handlers|;
    var s2 := Apply(slots, s1, Request);
    var s3 := Apply(slots, s2, Handler(i));
    var more := Runs.Prepend(System(slots), s3, Handler(i), []);
    more := Runs.Prepend(System(slots), s2, Handler(i), more);
    more := Runs.Prepend(System(slots), s1, Request, more);
    Runs.LegalAppend(System(slots), s, acts, more);
    acts := acts + more;
    assert After(slots, s, acts).handlers[i] == Fork;
  }

  /** 1 if the step admits a request. */
  function AdmitsNow(slots: nat, s: State, a: Action): nat {
    One(a.Handler? && a.i < |s.handlers| && s.handlers[a.i] == Admission && s.running < slots)
  }

  function Admissions(slots: nat, s: State, acts: seq<Action>): nat
    requires Legal(slots, s, acts)
    decreases |acts|
  {
    if acts == [] then 0
    else AdmitsNow(slots, s, acts[0]) + Admissions(slots, Apply(slots, s, acts[0]), acts[1..])
  }

  /** Slots that are free or that the reaper can still free. */
  function Credit(slots: nat, s: State): int {
    slots - s.running + s.sem + At(s, Post) + One(s.reaper != AwaitPost)
  }

  lemma HandlerUsesCredit(slots: nat, s: State, i: nat)
    requires s.stuck && Enabled(s, Handler(i))
    ensures Credit(slots, HandlerStep(slots, s, i)) == Credit(slots, s) - AdmitsNow(slots, s, Handler(i))
  {
    HandlerCounts(slots, s, i, Post);
  }

  lemma StuckStepUsesCredit(slots: nat, s: State, a: Action)
    requires Accounts(slots, s) && s.stuck && Enabled(s, a)
    ensures Credit(slots, Apply(slots, s, a)) == Credit(slots, s) - AdmitsNow(slots, s, a)
  {
    match a
    case Request => RequestCounts(s, Post);
    case Handler(i) => HandlerUsesCredit(slots, s, i);
    case ForkFails(i) => GotoCounts(s, i, Done, Post);
    case ReapUnregistered(i) => GotoCounts(s, i, Register(false), Post);
    case _ =>
  }

  lemma {:induction false} AdmissionsUseCredit(slots: nat, s: State, acts: seq<Action>)
    requires Accounts(slots, s) && s.stuck && Legal(slots, s, acts)
    ensures Admissions(slots, s, acts) <= Credit(slots, s)
    decreases |acts|
  {
    if acts == [] {
    } else {
      StepKeepsAccounts(slots, s, acts[0]);
      StuckStepUsesCredit(slots, s, acts[0]);
      AdmissionsUseCredit(slots, Apply(slots, s, acts[0]), acts[1..]);
    }
  }

  /** One get_status for an id without a process, and the server admits no more requests
      than there are slots from then on. */
  lemma LastAdmissions(slots: nat, past: seq<Action>, acts: seq<Action>)
    requires Legal(slots, Init(), past) && After(slots, Init(), past).stuck
    requires Legal(slots, After(slots, Init(), past), acts)
    ensures Admissions(slots, After(slots, Init(), past), acts) <= slots
  {
    Reachable(slots, past);
    AdmissionsUseCredit(slots, After(slots, Init(), past), acts);
  }

  // ---------------------------------------------------------------------------
  // The server on its counters
  // ---------------------------------------------------------------------------

  class Server {
    const slots: nat
    const counters: Counters
    var sem: nat
    var children: nat
    var failed: nat
    var handlers: seq<Pc>
    var ids: map<nat, int>
    var reaper: ReaperPc
    var stuck: bool

    ghost function Value(): State
      reads this, counters
    {
      State(counters.runningJobsNr, counters.idSeed, sem, children, failed, handlers, ids, reaper, stuck)
    }

    constructor (slots: nat)
      ensures this.slots == slots && fresh(counters) && Value() == Init()
    {
      this.slots := slots;
      counters := new Counters();
      sem, children, failed, handlers, ids, reaper, stuck := 0, 0, 0, [], map[], AwaitPost, false;
    }

    /** thread_handle and run. */
    method StepHandler(i: nat)
      requires Enabled(Value(), Handler(i))
      modifies this, counters
      ensures Value() == HandlerStep(slots, old(Value()), i)
    {
      match handlers[i]
      case TakeId =>
        var id := counters.NewId();
        ids := ids[i := id];
        handlers := handlers[i := Admission];
      case Admission =>
        var admitted := counters.Admit(slots);
        handlers := handlers[i := if admitted then Fork else Done];
      case Fork =>
        children := children + 1;
        handlers := handlers[i := Register(true)];
      case Register(alive) =>
        handlers := handlers[i := Post];
      case Post =>
        sem := sem + 1;
        handlers := handlers[i := Done];
    }

    /** thread_handle_wait. */
    method StepReaper()
      requires Enabled(Value(), Reaper)
      modifies this, counters
      ensures Value() == ReaperStep(old(Value()))
    {
      match reaper
      case AwaitPost =>
        sem := sem - 1;
        reaper := Wait;
      case Wait =>
        if children > 0 {
          children := children - 1;
          reaper := Mark;
        } else {
          reaper := Uncount;
        }
      case Mark =>
        reaper := Uncount;
      case Uncount =>
        counters.Uncount();
        reaper := AwaitPost;
    }

    /** Every interleaving carried out on the counters ends in the state the transition
        system says. */
    method Run(acts: seq<Action>)
      requires Legal(slots, Value(), acts)
      modifies this, counters
      ensures Value() == After(slots, old(Value()), acts)
      decreases |acts|
    {
      if acts != [] {
        match acts[0] {
          case Request => handlers := handlers + [TakeId];
          case Handler(i) => StepHandler(i);
          case ForkFails(i) =>
            failed := failed + 1;
            handlers := handlers[i := Done];
          case Reaper => StepReaper();
          case ReapUnregistered(i) =>
            children := if children > 0 then children - 1 else 0;
            handlers := handlers[i := Register(false)];
            reaper := Uncount;
          case BadStatus => stuck := true;
        }
        Run(acts[1..]);
      }
    }
  }

  /** The server from its start: whatever the interleaving, its counter is within the
      limit, no child goes uncounted, and a reaper that calls wait finds one. */
  method Serve(slots: nat, acts: seq<Action>) returns (running: int, children: nat, waiting: bool)
    requires Legal(slots, Init(), acts)
    ensures children <= running <= slots
    ensures waiting ==> children > 0
    ensures waiting <==> After(slots, Init(), acts).reaper == Wait
    ensures running == After(slots, Init(), acts).running && children == After(slots, Init(), acts).children
  {
    var server := new Server(slots);
    server.Run(acts);
    RunningIsBounded(slots, acts);
    ReaperAlwaysFindsAChild(slots, acts);
    running, children, waiting := server.counters.runningJobsNr, server.children, server.reaper == Wait;
  }
}
