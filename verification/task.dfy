/** The life of a task of `mbbtask.c`: the thread that creates it, its worker, and any number of
operators that stop, run and cancel it. The state changes by steps of single threads in any order; a
step reads or writes one shared variable.
 */
module Tasks {
  import opened Slices
  import opened Sequences

  /** Where the worker is, from `mbb_task_work`, `task_poll` and `mbb_task_pause`. If no thread could be
      made, the steps from `Final` on are the creator's. */
  datatype Worker =
    | Unborn                 // there is no thread yet
    | Initial                // in `hook->init`
    | Begin                  // about to call `hook->work`
    | Working                // in `hook->work`
    | Polling                // about to read `run`
    | Pausing                // wants the mutex
    | ReadRun                // has the mutex, reads `run`
    | ReadCancel             // `run` was FALSE, reads `cancel`
    | Sleepy                 // both were FALSE, begins to wait
    | Asleep                 // in `g_cond_wait`, no wake-up is due
    | Woken                  // a wake-up is due, wants the mutex
    | Resuming               // leaves the loop, still has the mutex
    | Deciding               // reads `cancel` at the end of `task_poll`
    | Final                  // in `hook->fini`
    | Freeing                // wants the lock of the task table for writing
    | Removed                // the task has left the table, the lock is held
    | Freed

  /** Who has called `task_poll`: the loop of `mbb_task_work`, or a hook through `mbb_task_poll_state`. */
  datatype Caller = Loop | InInit | InWork | InFini

  /** Where the creator is, in `mbb_task_create`. */
  datatype Creator =
    | Making                 // the task is in the table, there is no thread yet
    | Naming                 // the thread is made; about to read the number of the task
    | Failed                 // there is no thread, the task has to be freed
    | Returned

  /** Where an operator is, in `task_do_run` or `task_cancel`. All but `Away` have the lock of the
      task table for reading. */
  datatype Operator =
    | Away
    | Looking(kind: Kind)
    | Found(kind: Kind)      // has the task from the table
    | Flagged                // has set `cancel`, wants the mutex
    | Locked(kind: Kind)     // has the mutex, reads `run`
    | Setting(kind: Kind)    // about to set `run`
    | Signalling(kind: Kind) // has set `run` to TRUE
    | Unlocking(kind: Kind)
    | Released               // without the mutex

  datatype Kind = Stop | Run | Cancel

  datatype Holder = ByWorker | By(op: nat)

  /** `started` counts the calls of `hook->work` since `cancel` was set; `finished` tells that a
      `task_cancel` has come to its end. */
  datatype State = State(run: bool, cancel: bool, mutex: Option<Holder>, worker: Worker, caller: Caller, creator: Creator,
                         ops: map<nat, Operator>, listed: bool, started: nat, finished: bool)

  /** What a hook does: calls `mbb_task_poll_state`, or returns TRUE or FALSE. */
  datatype Hook = Poll | More | Done

  /** A move of the worker, a spurious wake-up, a move of the creator, whose `g_thread_create` may fail,
      or a move of an operator, which may begin an operation. */
  datatype Move = Work(hook: Hook) | Spurious | Create(ok: bool) | Operate(op: nat, kind: Kind)

  datatype Outcome = Blocked | Crash | Next(s: State)

  function OpOf(s: State, i: nat): Operator {
    if i in s.ops then s.ops[i] else Away
  }

  predicate Reading(s: State, i: nat) {
    OpOf(s, i) != Away
  }

  /** Nobody has the lock of the task table for reading. */
  predicate NoReader(s: State) {
    forall i :: i in s.ops ==> s.ops[i] == Away
  }

  /** `mbb_task_work` and `task_poll`. */
  function WorkStep(s: State, hook: Hook): Outcome {
    match s.worker
    case Initial => Next(if hook == Poll then s.(worker := Polling, caller := InInit) else s.(worker := if hook == More then Begin else Freeing))
    case Begin => Next(s.(worker := Working, started := if s.cancel then s.started + 1 else 0))
    case Working =>
      Next(if hook == Done then s.(worker := Final) else s.(worker := Polling, caller := if hook == Poll then InWork else Loop))
    case Polling => Next(s.(worker := if s.run then Deciding else Pausing))
    case Deciding => Next(s.(worker := Answered(s.caller, s.cancel)))
    case Final => Next(if hook == Poll && s.creator != Failed then s.(worker := Polling, caller := InFini) else s.(worker := Freeing))
    case Freeing => if !NoReader(s) then Blocked else Next(s.(listed := false, worker := Removed))
    case Removed => Next(s.(worker := Freed))
    case _ => Blocked
  }

  /** Where `task_poll` returns to. */
  function Answered(caller: Caller, cancel: bool): Worker {
    match caller
    case Loop => if cancel then Final else Begin
    case InInit => Initial
    case InWork => Working
    case InFini => Final
  }

  /** `mbb_task_create` after `mbb_task_new`. */
  function CreateStep(s: State, ok: bool): Outcome {
    match s.creator
    case Making => Next(if ok then s.(creator := Naming, worker := Initial) else s.(creator := Failed, worker := Final))
    case Naming => if s.worker == Freed then Crash else Next(s.(creator := Returned))
    case _ => Blocked
  }

  predicate InPause(w: Worker) {
    w.Pausing? || w.ReadRun? || w.ReadCancel? || w.Sleepy? || w.Asleep? || w.Woken? || w.Resuming?
  }

  /** `mbb_task_pause`. */
  function PauseStep(s: State): Outcome {
    match s.worker
    case Pausing => if s.mutex.Some? then Blocked else Next(s.(mutex := Some(ByWorker), worker := ReadRun))
    case ReadRun => Next(s.(worker := if s.run then Resuming else ReadCancel))
    case ReadCancel => Next(s.(worker := if s.cancel then Resuming else Sleepy))
    case Sleepy => Next(s.(mutex := None, worker := Asleep))
    case Woken => if s.mutex.Some? then Blocked else Next(s.(mutex := Some(ByWorker), worker := ReadRun))
    case Resuming => Next(s.(mutex := None, worker := Deciding))
    case _ => Blocked
  }

  function Go(s: State, i: nat, o: Operator): Outcome {
    Next(s.(ops := s.ops[i := o]))
  }

  function OperatorStep(s: State, i: nat, kind: Kind): Outcome {
    if OpOf(s, i).Away? || OpOf(s, i).Looking? || OpOf(s, i).Released? then LookStep(s, i, kind)
    else if s.worker == Freed then Crash
    else TaskStep(s, i)
  }

  /** The lock of the task table is taken and released, and the task looked up. */
  function LookStep(s: State, i: nat, kind: Kind): Outcome {
    match OpOf(s, i)
    case Away => if s.worker == Removed then Blocked else Go(s, i, Looking(kind))
    case Looking(k) => Go(s, i, if s.listed then Found(k) else Released)
    case Released => Go(s, i, Away)
    case _ => Blocked
  }

  /** The steps that touch the task. */
  function TaskStep(s: State, i: nat): Outcome {
    match OpOf(s, i)
    case Found(k) =>
      if k == Cancel then Go(s.(cancel := true), i, Flagged)
      else if s.mutex.Some? then Blocked else Go(s.(mutex := Some(By(i))), i, Locked(k))
    case Flagged => if s.mutex.Some? then Blocked else Go(s.(mutex := Some(By(i))), i, Locked(Cancel))
    case Locked(k) =>
      if k == Stop then Go(s, i, if s.run then Setting(k) else Unlocking(k))
      else Go(s, i, if s.run then Unlocking(k) else Setting(k))
    case Setting(k) =>
      if k == Stop then Go(s.(run := false), i, Unlocking(k)) else Go(s.(run := true), i, Signalling(k))
    case Signalling(k) =>
      Go(s.(worker := if s.worker == Asleep then Woken else s.worker), i, Unlocking(k))
    case Unlocking(k) => Go(s.(mutex := None, finished := s.finished || k == Cancel), i, Released)
    case _ => Blocked
  }

  function Step(s: State, m: Move): Outcome {
    match m
    case Work(hook) => if InPause(s.worker) then PauseStep(s) else WorkStep(s, hook)
    case Spurious => if s.worker == Asleep then Next(s.(worker := Woken)) else Blocked
    case Create(ok) => CreateStep(s, ok)
    case Operate(i, kind) => OperatorStep(s, i, kind)
  }

  // ---------------------------------------------------------------- what every step keeps

  predicate WorkerHas(w: Worker) {
    w == ReadRun || w == ReadCancel || w == Sleepy || w == Resuming
  }

  predicate OperatorHas(o: Operator) {
    o.Locked? || o.Setting? || o.Signalling? || o.Unlocking?
  }

  ghost predicate MutexOk(s: State) {
    && (s.mutex == Some(ByWorker) <==> WorkerHas(s.worker))
    && (forall i: nat :: s.mutex == Some(By(i)) <==> OperatorHas(OpOf(s, i)))
  }

  /** The worker waits, or is about to. */
  predicate Waits(w: Worker) {
    w == Sleepy || w == Asleep
  }

  /** The operator has yet to wake the worker for its cancellation. */
  predicate Due(o: Operator) {
    o == Flagged || o == Locked(Cancel) || o == Setting(Cancel) || o == Signalling(Cancel)
  }

  /** While the worker waits nobody has told it to run, or somebody is about to signal that. An operator
      that is done with `run` has set it as it should be. */
  ghost predicate RunOk(s: State) {
    && (s.worker == ReadCancel ==> !s.run)
    && (s.worker == Resuming ==> s.run || s.cancel)
    && (forall i: nat :: OpOf(s, i).Unlocking? ==> (s.run <==> OpOf(s, i).kind != Stop))
    && (Waits(s.worker) ==> !s.run || exists i: nat :: OpOf(s, i).Signalling?)
    && (forall i: nat :: OpOf(s, i).Setting? ==> (s.run <==> OpOf(s, i).kind == Stop))
    && (forall i: nat :: OpOf(s, i).Signalling? ==> s.run && OpOf(s, i).kind != Stop)
  }

  ghost predicate CancelOk(s: State) {
    && (forall i: nat :: Due(OpOf(s, i)) || OpOf(s, i) == Unlocking(Cancel) ==> s.cancel)
    && (s.finished ==> s.cancel)
    && (Waits(s.worker) && s.cancel ==> exists i: nat :: Due(OpOf(s, i)))
    && (Waits(s.worker) ==> !s.finished && forall i: nat :: OpOf(s, i) != Unlocking(Cancel))
  }

  predicate Polls(w: Worker) {
    w == Polling || InPause(w) || w == Deciding
  }

  /** `hook->work` may still be called for the first time after the flag was set. */
  predicate Fresh(s: State) {
    s.worker == Unborn || s.worker == Initial || s.worker == Begin || (Polls(s.worker) && s.caller == InInit)
  }

  /** After the flag is set the worker begins at most once more. */
  ghost predicate StartedOk(s: State) {
    && (!s.cancel ==> s.started == 0)
    && s.started <= 1
    && (s.cancel && Fresh(s) ==> s.started == 0)
  }

  /** There is no worker before the creator has made its thread. */
  predicate BornOk(s: State) {
    s.worker == Unborn <==> s.creator == Making
  }

  /** An operator that has found the task keeps it from being freed. */
  ghost predicate TableOk(s: State) {
    && (s.listed <==> s.worker != Removed && s.worker != Freed)
    && (s.worker == Removed ==> forall i: nat :: !Reading(s, i))
    && (s.worker == Freed ==> forall i: nat :: OpOf(s, i).Away? || OpOf(s, i).Looking? || OpOf(s, i).Released?)
  }

  ghost predicate Inv(s: State) {
    MutexOk(s) && RunOk(s) && CancelOk(s) && StartedOk(s) && TableOk(s) && BornOk(s)
  }

  // ---------------------------------------------------------------- steps of the worker

  /** Outside `mbb_task_pause` the worker does not matter to the operators. */
  lemma AwakeMatters(s: State, r: State)
    requires MutexOk(s) && RunOk(s) && CancelOk(s) && r == s.(worker := r.worker, caller := r.caller, creator := r.creator, started := r.started, listed := r.listed)
    requires !Waits(s.worker) && !Waits(r.worker) && !WorkerHas(s.worker) && !WorkerHas(r.worker)
    ensures MutexOk(r) && RunOk(r) && CancelOk(r)
  {
    assert forall j: nat :: OpOf(r, j) == OpOf(s, j);
  }

  lemma WorkStarted(s: State, hook: Hook)
    requires StartedOk(s) && WorkStep(s, hook).Next?
    ensures StartedOk(WorkStep(s, hook).s)
  {
  }

  lemma WorkKept(s: State, hook: Hook)
    requires Inv(s) && WorkStep(s, hook).Next?
    ensures Inv(WorkStep(s, hook).s)
  {
    AwakeMatters(s, WorkStep(s, hook).s);
    WorkStarted(s, hook);
    WorkTable(s, hook);
  }

  lemma WorkTable(s: State, hook: Hook)
    requires TableOk(s) && WorkStep(s, hook).Next?
    ensures TableOk(WorkStep(s, hook).s)
  {
    var r := WorkStep(s, hook).s;
    assert forall j: nat :: OpOf(r, j) == OpOf(s, j);
    assert NoReader(s) ==> forall j: nat :: !Reading(s, j);
    assert forall j: nat :: !Reading(s, j) ==> OpOf(s, j).Away?;
  }

  lemma PauseMutex(s: State)
    requires MutexOk(s) && PauseStep(s).Next?
    ensures MutexOk(PauseStep(s).s)
  {
  }

  lemma PauseRun(s: State)
    requires MutexOk(s) && RunOk(s) && PauseStep(s).Next?
    ensures RunOk(PauseStep(s).s)
  {
    var r := PauseStep(s).s;
    assert forall j: nat :: OpOf(r, j) == OpOf(s, j);
  }

  lemma PauseCancel(s: State)
    requires CancelOk(s) && PauseStep(s).Next?
    ensures CancelOk(PauseStep(s).s)
  {
    var r := PauseStep(s).s;
    assert forall j: nat :: OpOf(r, j) == OpOf(s, j);
  }

  lemma PauseKept(s: State)
    requires Inv(s) && PauseStep(s).Next?
    ensures Inv(PauseStep(s).s)
  {
    PauseMutex(s);
    PauseRun(s);
    PauseCancel(s);
    PauseTable(s);
  }

  lemma PauseTable(s: State)
    requires TableOk(s) && StartedOk(s) && PauseStep(s).Next?
    ensures TableOk(PauseStep(s).s) && StartedOk(PauseStep(s).s)
  {
  }

  lemma SpuriousKept(s: State)
    requires Inv(s) && Step(s, Spurious).Next?
    ensures Inv(Step(s, Spurious).s)
  {
    assert forall j: nat :: OpOf(Step(s, Spurious).s, j) == OpOf(s, j);
  }

  lemma CreateKept(s: State, ok: bool)
    requires Inv(s) && CreateStep(s, ok).Next?
    ensures Inv(CreateStep(s, ok).s)
  {
    var r := CreateStep(s, ok).s;
    CreateTable(s, ok);
    if s.creator == Making {
      AwakeMatters(s, r);
    } else {
      CreateMutex(s, r);
    }
  }

  lemma CreateMutex(s: State, r: State)
    requires MutexOk(s) && RunOk(s) && CancelOk(s) && r == s.(creator := r.creator)
    ensures MutexOk(r) && RunOk(r) && CancelOk(r)
  {
    assert forall j: nat :: OpOf(r, j) == OpOf(s, j);
  }

  lemma CreateTable(s: State, ok: bool)
    requires TableOk(s) && StartedOk(s) && BornOk(s) && CreateStep(s, ok).Next?
    ensures TableOk(CreateStep(s, ok).s) && StartedOk(CreateStep(s, ok).s) && BornOk(CreateStep(s, ok).s)
  {
    var r := CreateStep(s, ok).s;
    assert forall j: nat :: OpOf(r, j) == OpOf(s, j);
    assert forall j: nat :: Reading(r, j) == Reading(s, j);
  }

  // ---------------------------------------------------------------- steps of an operator

  predicate Idle(o: Operator) {
    o.Away? || o.Looking? || o.Released? || o.Found?
  }

  /** Without the mutex and a flag an operator does not matter to the worker. */
  lemma LookKept(s: State, i: nat, kind: Kind)
    requires Inv(s) && LookStep(s, i, kind).Next?
    ensures Inv(LookStep(s, i, kind).s)
  {
    var r := LookStep(s, i, kind).s;
    assert forall j: nat :: j != i ==> OpOf(r, j) == OpOf(s, j);
    assert Idle(OpOf(s, i)) && Idle(OpOf(r, i));
    assert Reading(s, i) <==> OpOf(s, i) != Away;
    assert TableOk(r);
    IdleMatters(s, r, i);
  }

  lemma IdleMatters(s: State, r: State, i: nat)
    requires MutexOk(s) && RunOk(s) && CancelOk(s) && StartedOk(s) && BornOk(s) && r == s.(ops := r.ops)
    requires (forall j: nat :: j != i ==> OpOf(r, j) == OpOf(s, j)) && Idle(OpOf(s, i)) && Idle(OpOf(r, i))
    ensures MutexOk(r) && RunOk(r) && CancelOk(r) && StartedOk(r) && BornOk(r)
  {
  }

  lemma OthersStay(s: State, i: nat)
    requires TaskStep(s, i).Next?
    ensures forall j: nat :: j != i ==> OpOf(TaskStep(s, i).s, j) == OpOf(s, j)
  {
  }

  lemma TaskMutex(s: State, i: nat)
    requires MutexOk(s) && TaskStep(s, i).Next?
    ensures MutexOk(TaskStep(s, i).s)
  {
    OthersStay(s, i);
  }

  lemma TaskUnlock(s: State, i: nat)
    requires MutexOk(s) && RunOk(s) && TaskStep(s, i).Next?
    ensures var r := TaskStep(s, i).s; forall j: nat :: OpOf(r, j).Unlocking? ==> (r.run <==> OpOf(r, j).kind != Stop)
  {
    OthersStay(s, i);
    assert forall j: nat :: j != i && OpOf(s, j).Unlocking? ==> s.mutex == Some(By(j));
    assert OperatorHas(OpOf(s, i)) ==> s.mutex == Some(By(i));
  }

  lemma TaskRun(s: State, i: nat)
    requires MutexOk(s) && RunOk(s) && TaskStep(s, i).Next?
    ensures RunOk(TaskStep(s, i).s)
  {
    OthersStay(s, i);
    TaskUnlock(s, i);
    var r := TaskStep(s, i).s;
    assert OperatorHas(OpOf(s, i)) ==> s.mutex == Some(By(i)) && !WorkerHas(s.worker);
    if Waits(r.worker) && r.run {
      if s.run {
        var j: nat :| OpOf(s, j).Signalling?;
        assert j != i ==> OpOf(r, j).Signalling?;
      } else {
        assert OpOf(r, i).Signalling?;
      }
    }
  }

  /** While the worker waits, the lock section of a cancellation ends with a signal. */
  lemma WaitingDue(s: State, i: nat)
    requires MutexOk(s) && RunOk(s) && OpOf(s, i) == Locked(Cancel) && Waits(s.worker)
    ensures !s.run
  {
    assert forall j: nat :: OpOf(s, j).Signalling? ==> OperatorHas(OpOf(s, j));
    assert OperatorHas(OpOf(s, i));
  }

  lemma TaskDue(s: State, i: nat)
    requires MutexOk(s) && RunOk(s) && CancelOk(s) && TaskStep(s, i).Next?
    ensures var r := TaskStep(s, i).s; Waits(r.worker) && r.cancel ==> exists j: nat :: Due(OpOf(r, j))
  {
    OthersStay(s, i);
    var r := TaskStep(s, i).s;
    if Waits(r.worker) && r.cancel {
      if OpOf(s, i) == Found(Cancel) {
        assert Due(OpOf(r, i));
      } else {
        var j: nat :| Due(OpOf(s, j));
        if j == i && OpOf(s, i) == Locked(Cancel) {
          WaitingDue(s, i);
        }
        assert OperatorHas(OpOf(s, i)) ==> !WorkerHas(s.worker);
        assert Due(OpOf(r, j));
      }
    }
  }

  lemma TaskFinish(s: State, i: nat)
    requires MutexOk(s) && RunOk(s) && CancelOk(s) && TaskStep(s, i).Next?
    ensures var r := TaskStep(s, i).s;
      && (Waits(r.worker) ==> !r.finished && forall j: nat :: OpOf(r, j) != Unlocking(Cancel))
      && (forall j: nat :: Due(OpOf(r, j)) || OpOf(r, j) == Unlocking(Cancel) ==> r.cancel)
      && (r.finished ==> r.cancel)
  {
    OthersStay(s, i);
    if OpOf(s, i) == Locked(Cancel) && Waits(s.worker) {
      WaitingDue(s, i);
    }
    assert OperatorHas(OpOf(s, i)) ==> !WorkerHas(s.worker);
  }

  lemma TaskStarted(s: State, i: nat)
    requires CancelOk(s) && StartedOk(s) && TaskStep(s, i).Next?
    ensures StartedOk(TaskStep(s, i).s)
  {
  }

  lemma TaskTable(s: State, i: nat)
    requires TableOk(s) && BornOk(s) && TaskStep(s, i).Next?
    ensures TableOk(TaskStep(s, i).s) && BornOk(TaskStep(s, i).s)
  {
    OthersStay(s, i);
    assert Reading(s, i) <==> OpOf(s, i) != Away;
  }

  lemma OperatorKept(s: State, i: nat, kind: Kind)
    requires Inv(s)
    ensures OperatorStep(s, i, kind) != Crash
    ensures OperatorStep(s, i, kind).Next? ==> Inv(OperatorStep(s, i, kind).s)
  {
    if OpOf(s, i).Away? || OpOf(s, i).Looking? || OpOf(s, i).Released? {
      if LookStep(s, i, kind).Next? {
        LookKept(s, i, kind);
      }
    } else if TaskStep(s, i).Next? {
      TaskMutex(s, i);
      TaskRun(s, i);
      TaskDue(s, i);
      TaskFinish(s, i);
      TaskStarted(s, i);
      TaskTable(s, i);
    }
  }

  // ---------------------------------------------------------------- whole runs

  /** The task is in the table, and its creator is about to make the thread. */
  function Start(): State {
    State(true, false, None, Unborn, Loop, Making, map[], true, 0, false)
  }

  /** The move of a blocked thread has no effect. */
  function Moved(s: State, m: Move): Outcome {
    var o := Step(s, m);
    if o.Blocked? then Next(s) else o
  }

  /** What some moves make of a state. */
  function From(s: State, moves: seq<Move>): Outcome
    decreases |moves|
  {
    if moves == [] then Next(s)
    else
      match Moved(s, moves[0])
      case Next(r) => From(r, moves[1..])
      case o => o
  }

  function After(moves: seq<Move>): Outcome {
    From(Start(), moves)
  }

  lemma {:induction false} FromConcat(s: State, a: seq<Move>, b: seq<Move>)
    ensures From(s, a + b) == (match From(s, a) case Next(r) => From(r, b) case o => o)
    decreases |a|
  {
    if a == [] {
      assert a + b == b;
    } else {
      assert (a + b)[0] == a[0] && (a + b)[1..] == a[1..] + b;
      if Moved(s, a[0]).Next? {
        FromConcat(Moved(s, a[0]).s, a[1..], b);
      }
    }
  }

  lemma StartOk()
    ensures Inv(Start())
  {
    assert forall i: nat :: OpOf(Start(), i) == Away;
  }

  /** The worker and the operators never touch a task that was freed; the creator does exactly when the
      worker was faster than its last read. */
  lemma CrashExactly(s: State, m: Move)
    requires Inv(s)
    ensures Step(s, m) == Crash <==> m.Create? && s.creator == Naming && s.worker == Freed
  {
    if m.Operate? {
      OperatorKept(s, m.op, m.kind);
    }
  }

  lemma MoveKept(s: State, m: Move)
    requires Inv(s) && Step(s, m).Next?
    ensures Inv(Step(s, m).s)
  {
    match m
    case Work(hook) =>
      if InPause(s.worker) {
        PauseKept(s);
      } else {
        WorkKept(s, hook);
      }
    case Spurious => SpuriousKept(s);
    case Create(ok) => CreateKept(s, ok);
    case Operate(i, kind) => OperatorKept(s, i, kind);
  }

  lemma MoveOk(s: State, m: Move)
    requires Inv(s)
    ensures Moved(s, m) == Crash <==> m.Create? && s.creator == Naming && s.worker == Freed
    ensures Moved(s, m) == Crash || (Moved(s, m).Next? && Inv(Moved(s, m).s))
  {
    CrashExactly(s, m);
    if Step(s, m).Next? {
      MoveKept(s, m);
    }
  }

  /** Every run keeps the invariant until it crashes. */
  lemma {:induction false} RunsOk(s: State, moves: seq<Move>)
    requires Inv(s)
    ensures From(s, moves) == Crash || (From(s, moves).Next? && Inv(From(s, moves).s))
    decreases |moves|
  {
    if moves != [] {
      MoveOk(s, moves[0]);
      if Moved(s, moves[0]).Next? {
        RunsOk(Moved(s, moves[0]).s, moves[1..]);
      }
    }
  }

  lemma Reached(moves: seq<Move>, s: State)
    requires After(moves) == Next(s)
    ensures Inv(s)
  {
    StartOk();
    RunsOk(Start(), moves);
  }

  // ---------------------------------------------------------------- the creator's last read

  /** The creator has yet to read the number of the task. */
  predicate Unread(s: State) {
    s.creator == Making || s.creator == Naming
  }

  /** Until its creator has returned, no hook of the task that would end it returns FALSE, and no
      operator begins to cancel it. */
  predicate Allowed(s: State, m: Move) {
    Unread(s) ==>
      && !(m == Work(Done) && (s.worker == Initial || s.worker == Working))
      && !(m.Operate? && m.kind == Cancel && OpOf(s, m.op) == Away)
  }

  predicate Orderly(s: State, moves: seq<Move>)
    decreases |moves|
  {
    moves != [] ==> Allowed(s, moves[0]) && (Moved(s, moves[0]).Next? ==> Orderly(Moved(s, moves[0]).s, moves[1..]))
  }

  /** The operator is on its way to cancel the task. */
  predicate Cancelling(o: Operator) {
    o == Looking(Cancel) || o == Found(Cancel) || Due(o) || o == Unlocking(Cancel)
  }

  /** The worker has left its loop for good. */
  predicate Ending(s: State) {
    || s.worker == Final || s.worker == Freeing || s.worker == Removed || s.worker == Freed
    || (Polls(s.worker) && s.caller == InFini)
  }

  /** Before the creator has read the number, nothing ends the task. */
  ghost predicate Quiet(s: State) {
    Unread(s) ==> !s.cancel && !Ending(s) && forall i: nat :: !Cancelling(OpOf(s, i))
  }

  lemma QuietKept(s: State, m: Move)
    requires Inv(s) && Quiet(s) && Allowed(s, m)
    ensures Moved(s, m).Next? && Inv(Moved(s, m).s) && Quiet(Moved(s, m).s)
  {
    MoveOk(s, m);
    if Step(s, m).Next? {
      QuietStep(s, m);
    }
  }

  lemma QuietStep(s: State, m: Move)
    requires BornOk(s) && Quiet(s) && Allowed(s, m) && Step(s, m).Next?
    ensures Quiet(Step(s, m).s)
  {
    if m.Operate? {
      OperatorEffect(s, m.op, m.kind);
      if Unread(s) {
        OperatorQuiet(s, m.op, m.kind);
      }
    } else {
      OpsStay(s, m);
      if m.Work? && Unread(s) {
        WorkQuiet(s, m.hook);
      }
    }
  }

  lemma OpsStay(s: State, m: Move)
    requires !m.Operate? && Step(s, m).Next?
    ensures forall i: nat :: OpOf(Step(s, m).s, i) == OpOf(s, i)
  {
    assert Step(s, m).s.ops == s.ops;
  }

  lemma WorkQuiet(s: State, hook: Hook)
    requires !s.cancel && !Ending(s) && !(hook == Done && (s.worker == Initial || s.worker == Working))
    requires Step(s, Work(hook)).Next?
    ensures var r := Step(s, Work(hook)).s; !r.cancel && !Ending(r)
  {
  }

  lemma OperatorQuiet(s: State, i: nat, kind: Kind)
    requires !s.cancel && !Cancelling(OpOf(s, i)) && OperatorStep(s, i, kind).Next? && (OpOf(s, i) == Away ==> kind != Cancel)
    ensures var r := OperatorStep(s, i, kind).s;
      !r.cancel && !Cancelling(OpOf(r, i)) && forall j: nat :: j != i ==> OpOf(r, j) == OpOf(s, j)
  {
    if OpOf(s, i).Away? || OpOf(s, i).Looking? || OpOf(s, i).Released? {
      assert OperatorStep(s, i, kind) == LookStep(s, i, kind);
    } else {
      OthersStay(s, i);
      TaskQuiet(s, i);
    }
  }

  lemma TaskQuiet(s: State, i: nat)
    requires !s.cancel && !Cancelling(OpOf(s, i)) && TaskStep(s, i).Next?
    ensures !TaskStep(s, i).s.cancel && !Cancelling(OpOf(TaskStep(s, i).s, i))
  {
  }

  /** An operator at most wakes the worker, and a finished cancellation stays finished. */
  lemma OperatorEffect(s: State, i: nat, kind: Kind)
    requires OperatorStep(s, i, kind).Next?
    ensures var r := OperatorStep(s, i, kind).s;
      && (r.worker == s.worker || (s.worker == Asleep && r.worker == Woken)) && r.caller == s.caller && r.creator == s.creator
      && (s.cancel ==> r.cancel) && (s.finished ==> r.finished)
  {
    assert LookStep(s, i, kind).Next? ==> LookStep(s, i, kind).s == s.(ops := LookStep(s, i, kind).s.ops);
  }

  /** A run that keeps to the rule does not crash. */
  lemma {:induction false} OrderlySafe(s: State, moves: seq<Move>)
    requires Inv(s) && Quiet(s) && Orderly(s, moves)
    ensures From(s, moves).Next? && Inv(From(s, moves).s) && Quiet(From(s, moves).s)
    decreases |moves|
  {
    if moves != [] {
      QuietKept(s, moves[0]);
      OrderlySafe(Moved(s, moves[0]).s, moves[1..]);
    }
  }

  // ---------------------------------------------------------------- the rule is exact

  /** No hook returns FALSE and no operator begins a cancellation. */
  predicate Plain(moves: seq<Move>) {
    forall i :: 0 <= i < |moves| ==> moves[i] != Work(Done) && !(moves[i].Operate? && moves[i].kind == Cancel)
  }

  lemma {:induction false} PlainOrderly(s: State, moves: seq<Move>)
    requires Plain(moves)
    ensures Orderly(s, moves)
    decreases |moves|
  {
    if moves != [] && Moved(s, moves[0]).Next? {
      PlainOrderly(Moved(s, moves[0]).s, moves[1..]);
    }
  }

  /** The worker is at its end, or a cancellation is on its way; the creator has not read. */
  ghost predicate Bound(s: State) {
    && Inv(s) && s.creator == Naming && s.worker != Removed && s.worker != Freed
    && (s.worker == Final || s.worker == Freeing || s.cancel || exists i: nat :: OpOf(s, i) == Looking(Cancel) || OpOf(s, i) == Found(Cancel))
  }

  /** At most as many steps does an operator have before it. */
  function OpRest(o: Operator): nat {
    match o
    case Away => 0
    case Looking(_) => 8
    case Found(_) => 7
    case Flagged => 6
    case Locked(_) => 5
    case Setting(_) => 4
    case Signalling(_) => 3
    case Unlocking(_) => 2
    case Released => 1
  }

  function Busy(s: State): set<nat> {
    set i | i in s.ops && OpRest(s.ops[i]) > 0
  }

  /** The mutex is free for the operator. */
  predicate FreeFor(s: State, i: nat) {
    !WorkerHas(s.worker) && (s.mutex == None || s.mutex == Some(By(i)))
  }

  lemma OpMove(s: State, i: nat) returns (r: State)
    requires Bound(s) && FreeFor(s, i) && OpRest(OpOf(s, i)) > 0
    ensures Moved(s, Operate(i, Stop)) == Next(r) && Bound(r) && FreeFor(r, i)
    ensures OpRest(OpOf(r, i)) < OpRest(OpOf(s, i)) && forall j: nat :: j != i ==> OpOf(r, j) == OpOf(s, j)
  {
    OpGoes(s, i);
    r := Step(s, Operate(i, Stop)).s;
    MoveKept(s, Operate(i, Stop));
    OperatorEffect(s, i, Stop);
    OpBound(s, i, r);
  }

  lemma OpGoes(s: State, i: nat)
    requires MutexOk(s) && s.worker != Freed && FreeFor(s, i) && OpRest(OpOf(s, i)) > 0
    ensures OperatorStep(s, i, Stop).Next?
    ensures var r := OperatorStep(s, i, Stop).s;
      && (r.mutex == None || r.mutex == Some(By(i))) && OpRest(OpOf(r, i)) < OpRest(OpOf(s, i))
      && forall j: nat :: j != i ==> OpOf(r, j) == OpOf(s, j)
  {
    if TaskStep(s, i).Next? {
      OthersStay(s, i);
    }
  }

  lemma OpBound(s: State, i: nat, r: State)
    requires Bound(s) && OpRest(OpOf(s, i)) > 0 && OperatorStep(s, i, Stop) == Next(r) && Inv(r)
    requires forall j: nat :: j != i ==> OpOf(r, j) == OpOf(s, j)
    ensures Bound(r)
  {
    OperatorEffect(s, i, Stop);
    if j: nat :| OpOf(s, j) == Looking(Cancel) || OpOf(s, j) == Found(Cancel) {
      assert j == i ==> r.cancel || OpOf(r, j) == Found(Cancel);
      assert j != i ==> OpOf(r, j) == OpOf(s, j);
    }
  }

  lemma {:induction false} DrainOp(s: State, i: nat) returns (more: seq<Move>)
    requires Bound(s) && FreeFor(s, i)
    ensures Plain(more) && From(s, more).Next? && Bound(From(s, more).s) && FreeFor(From(s, more).s, i)
    ensures OpOf(From(s, more).s, i) == Away && forall j: nat :: j != i ==> OpOf(From(s, more).s, j) == OpOf(s, j)
    decreases OpRest(OpOf(s, i))
  {
    if OpOf(s, i) == Away {
      more := [];
    } else {
      var r := OpMove(s, i);
      var rest := DrainOp(r, i);
      more := [Operate(i, Stop)] + rest;
      assert more[1..] == rest;
    }
  }

  lemma BusyLess(s: State, r: State, i: nat)
    requires i in Busy(s) && OpOf(r, i) == Away && forall j: nat :: j != i ==> OpOf(r, j) == OpOf(s, j)
    ensures |Busy(r)| < |Busy(s)|
  {
    forall j: nat
      ensures j in Busy(r) <==> j in Busy(s) && j != i
    {
      assert j in Busy(r) <==> OpRest(OpOf(r, j)) > 0;
      assert j in Busy(s) <==> OpRest(OpOf(s, j)) > 0;
    }
    assert Busy(r) == Busy(s) - {i};
  }

  /** All operators come to their end, the one with the mutex first. */
  lemma {:induction false} DrainOps(s: State) returns (more: seq<Move>)
    requires Bound(s) && !WorkerHas(s.worker)
    ensures Plain(more) && From(s, more).Next? && Bound(From(s, more).s) && NoReader(From(s, more).s)
    decreases |Busy(s)|
  {
    if Busy(s) == {} {
      assert forall i :: i in s.ops ==> i !in Busy(s);
      more := [];
    } else {
      var i: nat :| i in Busy(s);
      if s.mutex.Some? {
        assert s.mutex != Some(ByWorker);
        i := s.mutex.value.op;
        assert OperatorHas(OpOf(s, i));
      }
      var first := DrainOp(s, i);
      var r := From(s, first).s;
      BusyLess(s, r, i);
      var rest := DrainOps(r);
      more := first + rest;
      FromConcat(s, first, rest);
    }
  }

  function PauseRest(w: Worker): nat {
    match w
    case ReadRun => 3
    case ReadCancel => 2
    case Sleepy | Resuming => 1
    case _ => 0
  }

  /** The worker leaves the mutex. */
  lemma {:induction false} Settle(s: State) returns (more: seq<Move>)
    requires Bound(s)
    ensures Plain(more) && From(s, more).Next? && Bound(From(s, more).s) && !WorkerHas(From(s, more).s.worker)
    decreases PauseRest(s.worker)
  {
    if !WorkerHas(s.worker) {
      more := [];
    } else {
      var r := Moved(s, Work(More)).s;
      MoveKept(s, Work(More));
      assert forall i: nat :: OpOf(r, i) == OpOf(s, i);
      var rest := Settle(r);
      more := [Work(More)] + rest;
      assert more[1..] == rest;
    }
  }

  /** Nothing is left between the worker and its end. */
  ghost predicate Driven(s: State) {
    && Inv(s) && s.creator == Naming && NoReader(s)
    && (s.worker == Final || s.worker == Freeing || s.worker == Removed || s.worker == Freed || s.cancel)
  }

  function PollRest(w: Worker): nat {
    match w
    case Polling => 7
    case Pausing | Woken => 6
    case ReadRun => 4
    case ReadCancel => 3
    case Resuming => 2
    case _ => 1
  }

  /** At most as many steps does the worker have before it, once it is to be cancelled. */
  function Left(w: Worker, caller: Caller): nat {
    match w
    case Freed => 0
    case Removed => 1
    case Freeing => 2
    case Final => 3
    case Working => 12
    case Begin => 13
    case Initial => 14
    case _ => PollRest(w) + (match caller case Loop => 3 case InFini => 3 case InWork => 12 case InInit => 14)
  }

  lemma DriveStep(s: State)
    requires Driven(s) && s.worker != Freed
    ensures Moved(s, Work(More)).Next? && Driven(Moved(s, Work(More)).s)
    ensures var r := Moved(s, Work(More)).s; Left(r.worker, r.caller) < Left(s.worker, s.caller)
  {
    assert forall i: nat :: OpOf(s, i) == Away;
    assert s.mutex.Some? && s.mutex != Some(ByWorker) ==> OperatorHas(OpOf(s, s.mutex.value.op));
    assert Waits(s.worker) ==> !s.cancel;
    MoveOk(s, Work(More));
    DriveLess(s);
  }

  lemma DriveLess(s: State)
    requires s.worker != Freed && s.worker != Unborn && NoReader(s) && !Waits(s.worker) && (s.mutex == None || WorkerHas(s.worker))
    requires s.worker == Final || s.worker == Freeing || s.worker == Removed || s.cancel
    ensures Step(s, Work(More)).Next?
    ensures var r := Step(s, Work(More)).s;
      && Left(r.worker, r.caller) < Left(s.worker, s.caller) && r.ops == s.ops && r.creator == s.creator && r.cancel == s.cancel
      && (s.worker == Final || s.worker == Freeing || s.worker == Removed ==> r.worker == Freeing || r.worker == Removed || r.worker == Freed || s.cancel)
  {
  }

  lemma {:induction false} Drive(s: State) returns (more: seq<Move>)
    requires Driven(s)
    ensures Plain(more) && From(s, more).Next? && From(s, more).s.worker == Freed && From(s, more).s.creator == Naming
    decreases Left(s.worker, s.caller)
  {
    if s.worker == Freed {
      more := [];
    } else {
      DriveStep(s);
      var rest := Drive(Moved(s, Work(More)).s);
      more := [Work(More)] + rest;
      assert more[1..] == rest;
    }
  }

  /** A task that is bound to end can be freed before its creator reads the number. */
  lemma BoundCrashes(s: State) returns (more: seq<Move>)
    requires Bound(s)
    ensures Plain(more) && From(s, more) == Crash
  {
    var a := Settle(s);
    var s1 := From(s, a).s;
    var b := DrainOps(s1);
    var s2 := From(s1, b).s;
    assert forall i: nat :: OpOf(s2, i) == Away;
    var c := Drive(s2);
    var s3 := From(s2, c).s;
    var d := [Create(true)];
    assert d[1..] == [] && From(s3, d) == Crash;
    FromConcat(s, a, b);
    FromConcat(s, a + b, c);
    FromConcat(s, a + b + c, d);
    more := a + b + c + d;
  }

  /** The rule is exact: in a run that has kept to it, a move keeps to it if and only if no
      continuation that keeps to it crashes. */
  lemma RuleExact(moves: seq<Move>, s: State, m: Move)
    requires Orderly(Start(), moves) && After(moves) == Next(s)
    ensures Moved(s, m).Next?
    ensures Allowed(s, m) <==> forall more :: Orderly(Moved(s, m).s, more) ==> From(Moved(s, m).s, more) != Crash
  {
    StartOk();
    OrderlySafe(Start(), moves);
    MoveOk(s, m);
    var r := Moved(s, m).s;
    if Allowed(s, m) {
      QuietKept(s, m);
      forall more | Orderly(r, more)
        ensures From(r, more) != Crash
      {
        OrderlySafe(r, more);
      }
    } else {
      var more := BrokenCrashes(s, m);
      PlainOrderly(r, more);
    }
  }

  lemma BrokenCrashes(s: State, m: Move) returns (more: seq<Move>)
    requires Inv(s) && Quiet(s) && !Allowed(s, m)
    ensures Moved(s, m).Next? && Plain(more) && From(Moved(s, m).s, more) == Crash
  {
    MoveOk(s, m);
    var r := Moved(s, m).s;
    if m.Work? {
      more := BoundCrashes(r);
    } else {
      assert OpOf(r, m.op) == Looking(Cancel);
      if s.creator == Naming {
        more := BoundCrashes(r);
      } else {
        var r1 := Moved(r, Create(true)).s;
        MoveOk(r, Create(true));
        assert OpOf(r1, m.op) == Looking(Cancel);
        var rest := BoundCrashes(r1);
        more := [Create(true)] + rest;
        assert more[1..] == rest;
      }
    }
  }

  /** The shortest run that crashes: `hook->init` fails at once, and the thread has freed the task
      before the creator reads its number. */
  lemma CreatorCrash()
    ensures After([Create(true), Work(Done), Work(More)] + [Work(More), Create(true)]) == Crash
  {
    var a, b, c := Create(true), Work(Done), Work(More);
    var s1 := Moved(Start(), a).s;
    var s2 := Moved(s1, b).s;
    var s3 := Moved(s2, c).s;
    var s4 := Moved(s3, c).s;
    assert [a, b, c][1..] == [b, c] && [b, c][1..] == [c] && [c][1..] == [] && [c, a][1..] == [a] && [a][1..] == [];
    assert From(s2, [c]) == Next(s3) && From(s1, [b, c]) == Next(s3);
    assert From(s4, [a]) == Crash && From(s3, [c, a]) == Crash;
    FromConcat(Start(), [a, b, c], [c, a]);
  }

  // ---------------------------------------------------------------- cancellation

  /** Once a `task_cancel` has finished, the worker is not left waiting: it is not in
      `g_cond_wait` without a wake-up due, and it will not wait again. */
  lemma CancelWakes(moves: seq<Move>, more: seq<Move>, s: State, r: State)
    requires After(moves) == Next(s) && s.finished && After(moves + more) == Next(r)
    ensures r.cancel && r.worker != Asleep && r.worker != Sleepy
  {
    Reached(moves + more, r);
    FromConcat(Start(), moves, more);
    StaysFinished(s, more);
  }

  lemma MoveFinished(s: State, m: Move)
    requires s.finished && Moved(s, m).Next?
    ensures Moved(s, m).s.finished
  {
    if m.Operate? && Step(s, m).Next? {
      OperatorEffect(s, m.op, m.kind);
    }
  }

  lemma {:induction false} StaysFinished(s: State, more: seq<Move>)
    requires s.finished && From(s, more).Next?
    ensures From(s, more).s.finished
    decreases |more|
  {
    if more != [] {
      MoveFinished(s, more[0]);
      StaysFinished(Moved(s, more[0]).s, more[1..]);
    }
  }

  /** While the worker waits, a cancellation that has set its flag will still wake it: its operator
      can go on, or one that can holds the mutex. */
  lemma CancelDue(moves: seq<Move>, s: State)
    requires After(moves) == Next(s) && s.worker == Asleep && s.cancel
    ensures exists i: nat :: Due(OpOf(s, i)) && (s.mutex == None || s.mutex == Some(By(i)) || exists j: nat :: s.mutex == Some(By(j)) && TaskStep(s, j).Next?)
  {
    Reached(moves, s);
    var i: nat :| Due(OpOf(s, i));
    if s.mutex.Some? {
      assert s.mutex != Some(ByWorker);
      var j := s.mutex.value.op;
      assert OperatorHas(OpOf(s, j)) && TaskStep(s, j).Next?;
    }
  }

  /** After the flag is set `hook->work` is called at most once more. */
  lemma CancelStops(moves: seq<Move>, s: State)
    requires After(moves) == Next(s)
    ensures s.started <= 1
  {
    Reached(moves, s);
  }

  // ---------------------------------------------------------------- stopping

  /** The operator runs or cancels the task. */
  predicate Waker(o: Operator) {
    o.Flagged? || ((o.Looking? || o.Found? || o.Locked? || o.Setting? || o.Signalling? || o.Unlocking?) && o.kind != Stop)
  }

  /** The task is stopped, and nobody is about to run or cancel it. */
  ghost predicate Stopped(s: State) {
    !s.run && !s.cancel && forall i: nat :: !Waker(OpOf(s, i))
  }

  /** Nobody begins to run or cancel the task. */
  predicate Still(s: State, moves: seq<Move>)
    decreases |moves|
  {
    moves != [] ==>
      && (moves[0].Operate? && OpOf(s, moves[0].op) == Away ==> moves[0].kind == Stop)
      && (Moved(s, moves[0]).Next? ==> Still(Moved(s, moves[0]).s, moves[1..]))
  }

  /** The worker is about to wait or waits. */
  predicate AtPause(w: Worker) {
    w == Polling || (InPause(w) && w != Resuming)
  }

  /** The worker may come to `hook->work` without a pause. */
  predicate Runs(s: State) {
    s.worker == Unborn || s.worker == Initial || s.worker == Begin || s.worker == Deciding
  }

  /** How often `hook->work` is called. */
  function Works(s: State, moves: seq<Move>): nat
    decreases |moves|
  {
    if moves == [] || !Moved(s, moves[0]).Next? then 0
    else Is(s.worker == Begin && moves[0].Work?) + Works(Moved(s, moves[0]).s, moves[1..])
  }

  lemma WorkStopped(s: State, m: Move)
    requires RunOk(s) && BornOk(s) && !s.run && !s.cancel && !m.Operate? && Step(s, m).Next?
    ensures var r := Step(s, m).s;
      && !r.run && !r.cancel && (AtPause(s.worker) ==> AtPause(r.worker))
      && (!Runs(s) ==> !Runs(r)) && (s.worker == Begin && m.Work? ==> !Runs(r))
  {
  }

  lemma OperatorStopped(s: State, i: nat, kind: Kind)
    requires RunOk(s) && !s.run && !s.cancel && !Waker(OpOf(s, i)) && (OpOf(s, i) == Away ==> kind == Stop) && OperatorStep(s, i, kind).Next?
    ensures var r := OperatorStep(s, i, kind).s;
      !r.run && !r.cancel && !Waker(OpOf(r, i)) && r.worker == s.worker && forall j: nat :: j != i ==> OpOf(r, j) == OpOf(s, j)
  {
    if OpOf(s, i).Away? || OpOf(s, i).Looking? || OpOf(s, i).Released? {
      assert OperatorStep(s, i, kind) == LookStep(s, i, kind);
    } else {
      OthersStay(s, i);
    }
  }

  lemma StoppedStep(s: State, m: Move)
    requires Inv(s) && Stopped(s) && (m.Operate? && OpOf(s, m.op) == Away ==> m.kind == Stop) && Step(s, m).Next?
    ensures var r := Step(s, m).s;
      && Stopped(r) && (AtPause(s.worker) ==> AtPause(r.worker))
      && (!Runs(s) ==> !Runs(r)) && (s.worker == Begin && m.Work? ==> !Runs(r))
  {
    if m.Operate? {
      OperatorStopped(s, m.op, m.kind);
    } else {
      WorkStopped(s, m);
      OpsStay(s, m);
    }
  }

  lemma {:induction false} StaysStopped(s: State, more: seq<Move>)
    requires Inv(s) && Stopped(s) && Still(s, more) && From(s, more).Next?
    ensures Inv(From(s, more).s) && Stopped(From(s, more).s) && (AtPause(s.worker) ==> AtPause(From(s, more).s.worker))
    ensures Works(s, more) <= Is(Runs(s))
    decreases |more|
  {
    if more != [] {
      MoveOk(s, more[0]);
      if Step(s, more[0]).Next? {
        StoppedStep(s, more[0]);
      }
      StaysStopped(Moved(s, more[0]).s, more[1..]);
    }
  }

  /** When a stop is done and until somebody runs or cancels the task, the task is stopped: its worker
      calls `hook->work` at most once more, and does not leave a pause. */
  lemma StopHolds(moves: seq<Move>, s: State, i: nat, more: seq<Move>, r: State)
    requires After(moves) == Next(s) && OpOf(s, i) == Unlocking(Stop) && !s.cancel && (forall j: nat :: !Waker(OpOf(s, j)))
    requires Still(s, more) && After(moves + more) == Next(r)
    ensures !r.run && !r.cancel && Works(s, more) <= 1 && (AtPause(s.worker) ==> AtPause(r.worker) && Works(s, more) == 0)
  {
    Reached(moves, s);
    FromConcat(Start(), moves, more);
    StaysStopped(s, more);
  }

  /** The operator with the mutex gives it back. */
  lemma {:induction false} StopEnds(s: State) returns (more: seq<Move>)
    requires Inv(s) && Stopped(s) && AtPause(s.worker)
    ensures Still(s, more) && From(s, more).Next?
    ensures var r := From(s, more).s; Inv(r) && Stopped(r) && r.worker == s.worker && (r.mutex == None || r.mutex == Some(ByWorker))
    decreases match s.mutex case Some(By(i)) => OpRest(OpOf(s, i)) case _ => 0
  {
    if s.mutex == None || s.mutex == Some(ByWorker) {
      more := [];
    } else {
      var m := Operate(s.mutex.value.op, Stop);
      assert OperatorHas(OpOf(s, m.op));
      StoppedStep(s, m);
      MoveKept(s, m);
      var r := Step(s, m).s;
      OperatorStopped(s, m.op, Stop);
      var rest := StopEnds(r);
      more := [m] + rest;
      assert more[1..] == rest;
    }
  }

  /** At most as many steps does the worker have before it sleeps. */
  function SleepRest(w: Worker): nat {
    match w
    case Polling => 5
    case Pausing | Woken => 4
    case ReadRun => 3
    case ReadCancel => 2
    case Sleepy => 1
    case _ => 0
  }

  lemma {:induction false} FallsAsleep(s: State) returns (more: seq<Move>)
    requires Inv(s) && Stopped(s) && AtPause(s.worker) && (s.mutex == None || s.mutex == Some(ByWorker))
    ensures Still(s, more) && From(s, more).Next? && From(s, more).s.worker == Asleep
    decreases SleepRest(s.worker)
  {
    if s.worker == Asleep {
      more := [];
    } else {
      StoppedStep(s, Work(More));
      MoveKept(s, Work(More));
      var rest := FallsAsleep(Step(s, Work(More)).s);
      more := [Work(More)] + rest;
      assert more[1..] == rest;
    }
  }

  lemma {:induction false} StillConcat(s: State, a: seq<Move>, b: seq<Move>)
    requires Still(s, a) && From(s, a).Next? && Still(From(s, a).s, b)
    ensures Still(s, a + b)
    decreases |a|
  {
    if a == [] {
      assert a + b == b;
    } else {
      assert (a + b)[0] == a[0] && (a + b)[1..] == a[1..] + b;
      StillConcat(Moved(s, a[0]).s, a[1..], b);
    }
  }

  /** The worker of a stopped task that comes to its poll can always go to sleep. */
  lemma StopSleeps(moves: seq<Move>, s: State) returns (more: seq<Move>)
    requires After(moves) == Next(s) && Stopped(s) && AtPause(s.worker)
    ensures Still(s, more) && From(s, more).Next? && From(s, more).s.worker == Asleep
  {
    Reached(moves, s);
    var a := StopEnds(s);
    var b := FallsAsleep(From(s, a).s);
    FromConcat(s, a, b);
    StillConcat(s, a, b);
    more := a + b;
  }

  // ---------------------------------------------------------------- an operation alone

  function Operates(i: nat, kind: Kind, n: nat): seq<Move> {
    seq(n, _ => Operate(i, kind))
  }

  lemma OperateOn(s: State, i: nat, kind: Kind, n: nat)
    requires OperatorStep(s, i, kind).Next?
    ensures From(s, Operates(i, kind, n + 1)) == From(OperatorStep(s, i, kind).s, Operates(i, kind, n))
  {
    assert Operates(i, kind, n + 1)[1..] == Operates(i, kind, n);
  }

  /** What an operation makes of a task. */
  function Operated(s: State, kind: Kind): State {
    s.(run := kind != Stop, cancel := s.cancel || kind == Cancel, finished := s.finished || kind == Cancel,
       worker := if s.worker == Asleep && kind != Stop && !s.run then Woken else s.worker)
  }

  lemma OperateLocks(s: State, i: nat, kind: Kind, n: nat) returns (r: State)
    requires OpOf(s, i) == Found(kind) && s.mutex == None && s.worker != Freed
    ensures From(s, Operates(i, kind, n + if kind == Cancel then 2 else 1)) == From(r, Operates(i, kind, n))
    ensures OpOf(r, i) == Locked(kind) && r == s.(mutex := Some(By(i)), cancel := s.cancel || kind == Cancel, ops := s.ops[i := Locked(kind)])
  {
    if kind == Cancel {
      OperateOn(s, i, kind, n + 1);
      var q := OperatorStep(s, i, kind).s;
      OperateOn(q, i, kind, n);
      r := OperatorStep(q, i, kind).s;
    } else {
      OperateOn(s, i, kind, n);
      r := OperatorStep(s, i, kind).s;
    }
  }

  /** The steps with the mutex. */
  function SetSteps(run: bool, kind: Kind): nat {
    if run == (kind != Stop) then 1 else if kind == Stop then 2 else 3
  }

  lemma OperateSets(s: State, i: nat, kind: Kind, n: nat) returns (r: State)
    requires OpOf(s, i) == Locked(kind) && s.mutex == Some(By(i)) && s.worker != Freed
    ensures From(s, Operates(i, kind, n + SetSteps(s.run, kind))) == From(r, Operates(i, kind, n))
    ensures OpOf(r, i) == Unlocking(kind)
    ensures r == s.(run := kind != Stop, ops := s.ops[i := Unlocking(kind)], worker := if s.worker == Asleep && kind != Stop && !s.run then Woken else s.worker)
  {
    if s.run == (kind != Stop) {
      OperateOn(s, i, kind, n);
      r := OperatorStep(s, i, kind).s;
    } else {
      OperateOn(s, i, kind, n + SetSteps(s.run, kind) - 1);
      r := OperateChanges(OperatorStep(s, i, kind).s, i, kind, n);
    }
  }

  lemma OperateChanges(s: State, i: nat, kind: Kind, n: nat) returns (r: State)
    requires OpOf(s, i) == Setting(kind) && s.worker != Freed
    ensures From(s, Operates(i, kind, n + if kind == Stop then 1 else 2)) == From(r, Operates(i, kind, n))
    ensures OpOf(r, i) == Unlocking(kind)
    ensures r == s.(run := kind != Stop, ops := s.ops[i := Unlocking(kind)], worker := if s.worker == Asleep && kind != Stop then Woken else s.worker)
  {
    var q := OperatorStep(s, i, kind).s;
    if kind == Stop {
      OperateOn(s, i, kind, n);
      r := q;
    } else {
      OperateOn(s, i, kind, n + 1);
      OperateOn(q, i, kind, n);
      r := OperatorStep(q, i, kind).s;
    }
  }

  lemma OperateEnds(s: State, i: nat, kind: Kind) returns (r: State)
    requires OpOf(s, i) == Unlocking(kind) && s.worker != Freed
    ensures From(s, Operates(i, kind, 2)) == Next(r)
    ensures r == s.(mutex := None, finished := s.finished || kind == Cancel, ops := s.ops[i := Away])
  {
    OperateOn(s, i, kind, 1);
    var q := OperatorStep(s, i, kind).s;
    OperateOn(q, i, kind, 0);
    r := OperatorStep(q, i, kind).s;
  }

  lemma OperateFound(s: State, i: nat, kind: Kind) returns (n: nat, r: State)
    requires OpOf(s, i) == Found(kind) && s.mutex == None && s.worker != Freed
    ensures From(s, Operates(i, kind, n)) == Next(r) && r == Operated(s, kind).(ops := s.ops[i := Away])
  {
    var l := SetSteps(s.run, kind);
    var a := OperateLocks(s, i, kind, l + 2);
    var b := OperateSets(a, i, kind, 2);
    r := OperateEnds(b, i, kind);
    n := l + 2 + if kind == Cancel then 2 else 1;
    assert From(s, Operates(i, kind, n)) == From(a, Operates(i, kind, l + 2)) == From(b, Operates(i, kind, 2));
  }

  lemma OperateLooks(s: State, i: nat, kind: Kind, n: nat) returns (r: State)
    requires OpOf(s, i) == Away && s.worker != Removed
    ensures From(s, Operates(i, kind, n + 2)) == From(r, Operates(i, kind, n))
    ensures var o := if s.listed then Found(kind) else Released; OpOf(r, i) == o && r == s.(ops := s.ops[i := o])
  {
    OperateOn(s, i, kind, n + 1);
    var q := OperatorStep(s, i, kind).s;
    OperateOn(q, i, kind, n);
    r := OperatorStep(q, i, kind).s;
  }

  /** An operation that is not disturbed stops, runs or cancels the task that it finds, and wakes its
      worker if that waits; without a task in the table it changes nothing. */
  lemma OperateAlone(s: State, i: nat, kind: Kind) returns (n: nat, r: State)
    requires Inv(s) && OpOf(s, i) == Away && s.mutex == None && s.worker != Removed
    ensures From(s, Operates(i, kind, n)) == Next(r)
    ensures r == (if s.listed then Operated(s, kind) else s).(ops := s.ops[i := Away])
  {
    if s.listed {
      var a := OperateLooks(s, i, kind, 0);
      var k;
      k, r := OperateFound(a, i, kind);
      n := k + 2;
      a := OperateLooks(s, i, kind, k);
    } else {
      var a := OperateLooks(s, i, kind, 1);
      r := OperateLeaves(a, i, kind);
      n := 3;
    }
  }

  lemma OperateLeaves(s: State, i: nat, kind: Kind) returns (r: State)
    requires OpOf(s, i) == Released
    ensures From(s, Operates(i, kind, 1)) == Next(r) && r == s.(ops := s.ops[i := Away])
  {
    OperateOn(s, i, kind, 0);
    r := OperatorStep(s, i, kind).s;
  }

  // ---------------------------------------------------------------- the order of the hooks

  /** The return of a hook, with its answer. */
  datatype Event = InitReturned(ok: bool) | WorkReturned(more: bool) | FiniReturned

  function EventOf(s: State, m: Move): seq<Event> {
    if !m.Work? then []
    else if s.worker == Initial && m.hook != Poll then [InitReturned(m.hook == More)]
    else if s.worker == Working && m.hook != Poll then [WorkReturned(m.hook == More)]
    else if s.worker == Final && (m.hook != Poll || s.creator == Failed) then [FiniReturned]
    else []
  }

  function Trace(s: State, moves: seq<Move>): seq<Event>
    decreases |moves|
  {
    if moves == [] || !Moved(s, moves[0]).Next? then []
    else EventOf(s, moves[0]) + Trace(Moved(s, moves[0]).s, moves[1..])
  }

  /** `hook->init` and `n` calls of `hook->work` have returned TRUE. */
  function Worked(n: nat): seq<Event> {
    [InitReturned(true)] + seq(n, _ => WorkReturned(true))
  }

  /** The loop is over: its last call has returned FALSE, or all have returned TRUE and the task was
      cancelled. */
  ghost predicate Looped(tr: seq<Event>, cancel: bool) {
    exists n: nat :: tr == Worked(n) + [WorkReturned(false)] || (n > 0 && cancel && tr == Worked(n))
  }

  /** A worker that was born, and what it has called so far. */
  ghost predicate WorkerTrace(w: Worker, caller: Caller, cancel: bool, tr: seq<Event>) {
    if w == Unborn || w == Initial || (Polls(w) && caller == InInit) then tr == []
    else if w == Final || (Polls(w) && caller == InFini) then Looped(tr, cancel)
    else if w == Begin || w == Working || Polls(w) then exists n: nat :: tr == Worked(n) && (Polls(w) && caller == Loop ==> n > 0)
    else tr == [InitReturned(false)] || (tr != [] && tr[|tr| - 1] == FiniReturned && Looped(tr[..|tr| - 1], cancel))
  }

  predicate Leaving(w: Worker) {
    w == Freeing || w == Removed || w == Freed
  }

  ghost predicate TraceOk(s: State, tr: seq<Event>) {
    if s.creator == Failed then (s.worker == Final && tr == []) || (Leaving(s.worker) && tr == [FiniReturned])
    else WorkerTrace(s.worker, s.caller, s.cancel, tr)
  }

  lemma WorkedOn(n: nat)
    ensures Worked(n) + [WorkReturned(true)] == Worked(n + 1)
  {
  }

  lemma Appended(tr: seq<Event>, e: Event)
    ensures (tr + [e])[..|tr + [e]| - 1] == tr && (tr + [e])[|tr + [e]| - 1] == e
  {
  }

  /** A hook returns, or polls. */
  lemma HookTrace(s: State, hook: Hook, tr: seq<Event>)
    requires s.creator != Failed && WorkerTrace(s.worker, s.caller, s.cancel, tr) && (s.worker == Initial || s.worker == Begin || s.worker == Working)
    ensures var r := WorkStep(s, hook).s; WorkerTrace(r.worker, r.caller, r.cancel, tr + EventOf(s, Work(hook)))
  {
    assert tr + [] == tr;
    assert Worked(0) == [InitReturned(true)];
    if s.worker == Working {
      var n: nat :| tr == Worked(n);
      WorkedOn(n);
    }
  }

  lemma FiniTrace(s: State, hook: Hook, tr: seq<Event>)
    requires s.creator != Failed && WorkerTrace(s.worker, s.caller, s.cancel, tr) && s.worker == Final
    ensures var r := WorkStep(s, hook).s; WorkerTrace(r.worker, r.caller, r.cancel, tr + EventOf(s, Work(hook)))
  {
    assert tr + [] == tr;
    Appended(tr, FiniReturned);
  }

  /** The poll answers. */
  lemma PollTrace(s: State, m: Move, tr: seq<Event>)
    requires !m.Operate? && !m.Create? && WorkerTrace(s.worker, s.caller, s.cancel, tr) && Polls(s.worker) && Step(s, m).Next?
    ensures var r := Step(s, m).s; EventOf(s, m) == [] && r.creator == s.creator && WorkerTrace(r.worker, r.caller, r.cancel, tr)
  {
  }

  lemma LeaveTrace(s: State, m: Move, tr: seq<Event>)
    requires m.Work? && Leaving(s.worker) && Step(s, m).Next?
    ensures var r := Step(s, m).s; EventOf(s, m) == [] && r.creator == s.creator && r.cancel == s.cancel && Leaving(r.worker)
  {
  }

  lemma FailedTrace(s: State, m: Move, tr: seq<Event>)
    requires s.creator == Failed && TraceOk(s, tr) && !m.Operate? && Step(s, m).Next?
    ensures TraceOk(Step(s, m).s, tr + EventOf(s, m))
  {
  }

  /** A cancellation does not spoil the order. */
  lemma OtherTrace(s: State, r: State, tr: seq<Event>)
    requires TraceOk(s, tr) && r.caller == s.caller && r.creator == s.creator && (s.cancel ==> r.cancel)
    requires r.worker == s.worker || (s.worker == Asleep && r.worker == Woken)
    ensures TraceOk(r, tr)
  {
  }

  /** Every step keeps the order. */
  lemma TraceStep(s: State, m: Move, tr: seq<Event>)
    requires BornOk(s) && TraceOk(s, tr) && Step(s, m).Next?
    ensures TraceOk(Step(s, m).s, tr + EventOf(s, m))
  {
    assert tr + [] == tr;
    if m.Operate? {
      OperatorEffect(s, m.op, m.kind);
      OtherTrace(s, Step(s, m).s, tr);
    } else if s.creator == Failed {
      FailedTrace(s, m, tr);
    } else if m.Create? {
      CreateTrace(s, m, tr);
    } else if Polls(s.worker) {
      PollTrace(s, m, tr);
    } else if Leaving(s.worker) {
      LeaveTrace(s, m, tr);
    } else if s.worker == Final {
      FiniTrace(s, m.hook, tr);
    } else {
      HookTrace(s, m.hook, tr);
    }
  }

  lemma CreateTrace(s: State, m: Move, tr: seq<Event>)
    requires BornOk(s) && s.creator != Failed && m.Create? && TraceOk(s, tr) && Step(s, m).Next?
    ensures EventOf(s, m) == [] && TraceOk(Step(s, m).s, tr)
  {
  }

  lemma TraceMove(s: State, m: Move, tr: seq<Event>)
    requires Inv(s) && TraceOk(s, tr) && Moved(s, m).Next?
    ensures Inv(Moved(s, m).s) && TraceOk(Moved(s, m).s, tr + EventOf(s, m))
  {
    MoveOk(s, m);
    if Step(s, m).Next? {
      TraceStep(s, m, tr);
    } else {
      assert tr + [] == tr;
    }
  }

  lemma {:induction false} TraceKept(s: State, moves: seq<Move>, tr: seq<Event>)
    requires Inv(s) && TraceOk(s, tr) && From(s, moves).Next?
    ensures TraceOk(From(s, moves).s, tr + Trace(s, moves))
    decreases |moves|
  {
    if moves == [] {
      assert tr + [] == tr;
    } else {
      var r := Moved(s, moves[0]).s;
      TraceMove(s, moves[0], tr);
      TraceKept(r, moves[1..], tr + EventOf(s, moves[0]));
      Associative(tr, EventOf(s, moves[0]), Trace(r, moves[1..]));
    }
  }

  /** The hooks of a task that has ended were called in order: `init`; after it, unless it failed,
      `work` until that returned FALSE or the task was cancelled; then `fini`. Without a thread there
      was `fini` alone. */
  lemma HooksInOrder(moves: seq<Move>, s: State)
    requires After(moves) == Next(s) && s.worker == Freed
    ensures var tr := Trace(Start(), moves);
      if s.creator == Failed then tr == [FiniReturned]
      else tr == [InitReturned(false)] || (tr != [] && tr[|tr| - 1] == FiniReturned && Looped(tr[..|tr| - 1], s.cancel))
  {
    StartOk();
    Reached(moves, s);
    TraceKept(Start(), moves, []);
    assert [] + Trace(Start(), moves) == Trace(Start(), moves);
  }
}
