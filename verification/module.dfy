/** The use and unload protocol of loadable modules, from `mbbmodule.c` and `mbbfunc.c`: threads that
call functions of modules, and tasks that those functions create (`mbbtask.c`), while others load,
unload, run and stop the modules.

The state changes by steps of single threads in any order. `flock` and `mlock` are the two locks
that `mbbplock.h` gives to `mbbfunc.c` and `mbbmodule.c`; each module has a lock of its own.
 */
module Modules {
  import opened Slices

  datatype RW = RW(readers: set<nat>, writer: Option<nat>)

  /** The lock of a module. It counts its readers and does not know them: what one thread has taken
      another can give back. */
  datatype ModLock = ModLock(readers: int, writer: Option<nat>)

  /** A `struct mbb_module`; its number is never used again. */
  datatype Mod = Mod(run: bool, lock: ModLock, useCount: int, functions: seq<nat>, nreg: nat, onready: bool)

  /** The answer of `mbb_module_use` in `mbb_task_new`: to come, TRUE, or FALSE, which is ignored. */
  datatype Stage = Pending | Granted | Ignored

  /** A task that a function of the module `m` has created; `left` tells that it has lowered
      `use_count` at its end. */
  datatype Task = Task(m: nat, stage: Stage, left: bool)

  /** Where a thread is. */
  datatype PC =
    | Idle
    // `mbb_func_call` of the function `f`
    | Searching(f: nat, cap: bool)    // has `flock` for reading
    | Found(f: nat, m: nat)           // the table has `f`, in module `m`
    | Locked(f: nat, m: nat)          // has the lock of `m` for reading
    | Refused(f: nat)                 // `run` was FALSE, the lock of `m` is released
    | Admitted(f: nat, m: nat)        // `use_count` is raised
    | Inside(f: nat, m: nat)          // `flock` is released, the function runs
    | Asked(f: nat, m: nat, k: nat)   // creates the task `k`, has the lock of `m` once more
    | Leaving(f: nat, m: nat)         // `use_count` is lowered
    // `mbb_module_unload`
    | Unloading(name: nat)            // has `mlock` for writing
    | Doomed(m: nat)                  // the module is found
    | Refusing(m: nat)                // the module is in use
    | Denied(m: nat)                  // `mlock` is released; reads `use_count` for the message
    | Exclusive(m: nat)               // has the lock of `m` for writing
    | Stopped(m: nat)                 // `run` is FALSE
    | Released(m: nat)                // the lock of `m` is released
    | Unregistering(m: nat, i: nat)   // has `flock` for writing; the first `i` functions are gone
    | Unregistered(m: nat)            // `flock` is released
    | Gone(m: nat)                    // the module is freed
    // `mbb_module_load`
    | Loading(name: nat, functions: seq<nat>, onready: bool)   // has `mlock` for writing
    | Created(name: nat, m: nat)
    | Owned(name: nat, m: nat)        // has the lock of `m` for writing
    | Registering(name: nat, m: nat, i: nat)    // has `flock` for writing; `i` functions are done
    | Registered(name: nat, m: nat)   // `flock` is released
    | Added(m: nat)                   // the module is known by name and may run
    | Opened(m: nat)                  // the lock of `m` is released
    | Loaded(m: nat)                  // `mlock` is released, without `onready`; reads it once more
    | Readying(m: nat)                // has the lock of `m` for reading
    | Ready(m: nat)                   // `mlock` is released, `onready` runs
    | Rejecting                       // has `mlock` for writing and gives up
    // `module_do_run`
    | Switching(name: nat, run: bool) // has `mlock` for reading
    | Switched                        // is done

  datatype State = State(flock: RW, mlock: RW, mods: map<nat, Mod>, names: map<nat, nat>, table: map<nat, nat>,
                         regs: set<(nat, nat)>, next: nat, pcs: map<nat, PC>, tasks: map<nat, Task>, tnext: nat)

  /** What an idle thread begins; `Spawn` begins a task in a function, `Go` is the next step of any
      other thread. `Work` and `End` are steps of a task. */
  datatype Action =
    | Go
    | Call(f: nat, cap: bool) | Unload(name: nat) | Load(name: nat, functions: seq<nat>, onready: bool) | Switch(name: nat, run: bool)
    | Spawn
    | Work(k: nat) | End(k: nat)

  /** A thread that must wait is blocked; one that touches a module that was freed has crashed. */
  datatype Outcome = Blocked | Crash | Next(s: State)

  function PcOf(s: State, t: nat): PC {
    if t in s.pcs then s.pcs[t] else Idle
  }

  function To(s: State, t: nat, pc: PC): Outcome {
    Next(s.(pcs := s.pcs[t := pc]))
  }

  function AddReader(l: RW, t: nat): RW {
    l.(readers := l.readers + {t})
  }

  function DropReader(l: RW, t: nat): RW {
    l.(readers := l.readers - {t})
  }

  function Taken(l: ModLock): ModLock {
    l.(readers := l.readers + 1)
  }

  function Given(l: ModLock): ModLock {
    l.(readers := l.readers - 1)
  }

  predicate Free(l: RW) {
    l.writer == None && l.readers == {}
  }

  /** The lock of a module can be taken for writing. */
  predicate Unused(l: ModLock) {
    l.writer == None && l.readers == 0
  }

  function SetMod(s: State, m: nat, mod: Mod): State {
    s.(mods := s.mods[m := mod])
  }

  function Step(s: State, t: nat, a: Action): Outcome {
    if a.Work? || a.End? then TaskStep(s, a) else ThreadStep(s, t, a)
  }

  function ThreadStep(s: State, t: nat, a: Action): (o: Outcome)
    ensures Sound(s, t, PcOf(s, t), o)
  {
    match PcOf(s, t)
    case Idle => Begin(s, t, a)
    case Searching(_, _) => SearchStep(s, t, PcOf(s, t))
    case Found(_, _) => FindStep(s, t, PcOf(s, t))
    case Locked(_, _) => UseStep(s, t, PcOf(s, t))
    case Admitted(_, _) | Refused(_) => CallStep(s, t, PcOf(s, t))
    case Inside(_, _) => if a == Spawn then SpawnStep(s, t, PcOf(s, t)) else LeaveStep(s, t, PcOf(s, t))
    case Asked(_, _, _) => AskStep(s, t, PcOf(s, t))
    case Unloading(_) => UnloadStep(s, t, PcOf(s, t))
    case Doomed(_) => TryStep(s, t, PcOf(s, t))
    case Refusing(_) => RefuseStep(s, t, PcOf(s, t))
    case Denied(_) | Loaded(_) => LateStep(s, t, PcOf(s, t))
    case Exclusive(_) => StopStep(s, t, PcOf(s, t))
    case Stopped(_) => ReleaseStep(s, t, PcOf(s, t))
    case Released(_) | Owned(_, _) => WaitStep(s, t, PcOf(s, t))
    case Unregistering(_, _) => DropStep(s, t, PcOf(s, t))
    case Unregistered(_) => FreeStep(s, t, PcOf(s, t))
    case Gone(_) | Rejecting => EndStep(s, t, PcOf(s, t))
    case Loading(_, _, _) => LoadStep(s, t, PcOf(s, t))
    case Created(_, _) => OwnStep(s, t, PcOf(s, t))
    case Registering(_, _, _) => RegisterStep(s, t, PcOf(s, t))
    case Registered(_, _) => NameStep(s, t, PcOf(s, t))
    case Added(_) => AddStep(s, t, PcOf(s, t))
    case Opened(_) => OpenStep(s, t, PcOf(s, t))
    case Readying(_) => ReadyStep(s, t, PcOf(s, t))
    case Ready(_) | Leaving(_, _) => GiveStep(s, t, PcOf(s, t))
    case Switching(_, _) => SwitchStep(s, t, PcOf(s, t))
    case Switched => SwitchEnd(s, t, PcOf(s, t))
  }

  function Begin(s: State, t: nat, a: Action): (o: Outcome)
    ensures Sound(s, t, Idle, o)
  {
    match a
    case Call(f, cap) =>
      if s.flock.writer.Some? then Blocked else To(s.(flock := AddReader(s.flock, t)), t, Searching(f, cap))
    case Switch(name, run) =>
      if s.mlock.writer.Some? then Blocked else To(s.(mlock := AddReader(s.mlock, t)), t, Switching(name, run))
    case _ => BeginAlone(s, t, a)
  }

  function BeginAlone(s: State, t: nat, a: Action): (o: Outcome)
    ensures Sound(s, t, Idle, o)
  {
    match a
    case Unload(name) =>
      if !Free(s.mlock) then Blocked else To(s.(mlock := s.mlock.(writer := Some(t))), t, Unloading(name))
    case Load(name, functions, onready) =>
      if !Free(s.mlock) then Blocked else To(s.(mlock := s.mlock.(writer := Some(t))), t, Loading(name, functions, onready))
    case _ => Blocked
  }

  /** `mbb_func_search`. */
  function SearchStep(s: State, t: nat, pc: PC): (o: Outcome)
    ensures Sound(s, t, pc, o)
  {
    match pc
    case Searching(f, cap) =>
      if f in s.table && cap then To(s, t, Found(f, s.table[f])) else To(s, t, Refused(f))
    case _ => Blocked
  }

  /** The lock of `_mbb_module_use`. */
  function FindStep(s: State, t: nat, pc: PC): (o: Outcome)
    ensures Sound(s, t, pc, o)
  {
    match pc
    case Found(f, m) =>
      if m !in s.mods then Crash
      else if s.mods[m].lock.writer.Some? then Blocked
      else To(SetMod(s, m, s.mods[m].(lock := Taken(s.mods[m].lock))), t, Locked(f, m))
    case _ => Blocked
  }

  /** `_mbb_module_use` with the module's lock. */
  function UseStep(s: State, t: nat, pc: PC): (o: Outcome)
    ensures Sound(s, t, pc, o)
  {
    match pc
    case Locked(f, m) =>
      if m !in s.mods then Crash
      else if !s.mods[m].run then To(SetMod(s, m, s.mods[m].(lock := Given(s.mods[m].lock))), t, Refused(f))
      else To(SetMod(s, m, s.mods[m].(useCount := s.mods[m].useCount + 1)), t, Admitted(f, m))
    case _ => Blocked
  }

  /** `mbb_func_call` after the search. */
  function CallStep(s: State, t: nat, pc: PC): (o: Outcome)
    ensures Sound(s, t, pc, o)
  {
    match pc
    case Admitted(f, m) => To(s.(flock := DropReader(s.flock, t)), t, Inside(f, m))
    case Refused(_) => To(s.(flock := DropReader(s.flock, t)), t, Idle)
    case _ => Blocked
  }

  /** The function returns; `fs->module` is read again: NULL when the function is no longer registered. */
  function LeaveStep(s: State, t: nat, pc: PC): (o: Outcome)
    ensures Sound(s, t, pc, o)
  {
    match pc
    case Inside(f, m) =>
      if m !in s.mods then Crash
      else if (m, f) !in s.regs then To(s, t, Idle)
      else To(SetMod(s, m, s.mods[m].(useCount := s.mods[m].useCount - 1)), t, Leaving(f, m))
    case _ => Blocked
  }

  /** `mbb_task_new` in a function of the module: the lock of `mbb_module_use`. */
  function SpawnStep(s: State, t: nat, pc: PC): (o: Outcome)
    ensures Sound(s, t, pc, o)
  {
    match pc
    case Inside(f, m) =>
      if m !in s.mods then Crash
      else if s.mods[m].lock.writer.Some? then Blocked
      else To(SetMod(s, m, s.mods[m].(lock := Taken(s.mods[m].lock))).(tasks := s.tasks[s.tnext := Task(m, Pending, false)], tnext := s.tnext + 1),
              t, Asked(f, m, s.tnext))
    case _ => Blocked
  }

  /** The rest of that `mbb_module_use`. The task comes into being whatever the answer is. */
  function AskStep(s: State, t: nat, pc: PC): (o: Outcome)
    ensures Sound(s, t, pc, o)
  {
    match pc
    case Asked(f, m, k) =>
      if m !in s.mods then Crash
      else if s.mods[m].run then
        To(SetMod(s, m, s.mods[m].(useCount := s.mods[m].useCount + 1)).(tasks := s.tasks[k := Task(m, Granted, false)]), t, Inside(f, m))
      else
        To(SetMod(s, m, s.mods[m].(lock := Given(s.mods[m].lock))).(tasks := s.tasks[k := Task(m, Ignored, false)]), t, Inside(f, m))
    case _ => Blocked
  }

  /** A task runs code of its module, or ends: `mbb_module_unuse` in `mbb_task_free`, whatever the
      answer of `mbb_module_use` was. */
  function TaskStep(s: State, a: Action): Outcome
    requires a.Work? || a.End?
  {
    if a.k !in s.tasks || s.tasks[a.k].stage == Pending || (a.Work? && s.tasks[a.k].left) then Blocked
    else
      var k, m := a.k, s.tasks[a.k].m;
      if m !in s.mods then Crash
      else if a.Work? then Next(s)
      else if !s.tasks[k].left then Next(SetMod(s, m, s.mods[m].(useCount := s.mods[m].useCount - 1)).(tasks := s.tasks[k := s.tasks[k].(left := true)]))
      else Next(SetMod(s, m, s.mods[m].(lock := Given(s.mods[m].lock))).(tasks := s.tasks - {k}))
  }

  /** `mbb_module_unload` up to the module. */
  function UnloadStep(s: State, t: nat, pc: PC): (o: Outcome)
    ensures Sound(s, t, pc, o)
  {
    match pc
    case Unloading(name) =>
      if name in s.names then To(s, t, Doomed(s.names[name])) else To(s, t, Rejecting)
    case _ => Blocked
  }

  /** Its attempt to lock the module. */
  function TryStep(s: State, t: nat, pc: PC): (o: Outcome)
    ensures Sound(s, t, pc, o)
  {
    match pc
    case Doomed(m) =>
      if m !in s.mods then Crash
      else if !Unused(s.mods[m].lock) then To(s, t, Refusing(m))
      else To(SetMod(s, m, s.mods[m].(lock := s.mods[m].lock.(writer := Some(t)))), t, Exclusive(m))
    case _ => Blocked
  }

  /** `mbb_module_unload` of a module in use. */
  function RefuseStep(s: State, t: nat, pc: PC): (o: Outcome)
    ensures Sound(s, t, pc, o)
  {
    match pc
    case Refusing(m) => To(s.(mlock := s.mlock.(writer := None)), t, Denied(m))
    case _ => Blocked
  }

  /** After the release of `mlock` a refused unload reads `use_count`, and a load without `onready`
      reads that field once more. */
  function LateStep(s: State, t: nat, pc: PC): (o: Outcome)
    ensures Sound(s, t, pc, o)
  {
    match pc
    case Denied(m) => if m !in s.mods then Crash else To(s, t, Idle)
    case Loaded(m) => if m !in s.mods then Crash else To(s, t, Idle)
    case _ => Blocked
  }

  /** `mbb_module_unload` with the lock of the module. */
  function StopStep(s: State, t: nat, pc: PC): (o: Outcome)
    ensures Sound(s, t, pc, o)
  {
    match pc
    case Exclusive(m) =>
      if m !in s.mods then Crash else To(SetMod(s, m, s.mods[m].(run := false)), t, Stopped(m))
    case _ => Blocked
  }

  /** The release of that lock. */
  function ReleaseStep(s: State, t: nat, pc: PC): (o: Outcome)
    ensures Sound(s, t, pc, o)
  {
    match pc
    case Stopped(m) =>
      if m !in s.mods then Crash
      else To(SetMod(s, m, s.mods[m].(lock := s.mods[m].lock.(writer := None))), t, Released(m))
    case _ => Blocked
  }

  /** The lock of `mbb_func_unregister_all` and of `mbb_func_mregister`. */
  function WaitStep(s: State, t: nat, pc: PC): (o: Outcome)
    ensures Sound(s, t, pc, o)
  {
    match pc
    case Released(m) =>
      if !Free(s.flock) then Blocked else To(s.(flock := s.flock.(writer := Some(t))), t, Unregistering(m, 0))
    case Owned(name, m) =>
      if !Free(s.flock) then Blocked else To(s.(flock := s.flock.(writer := Some(t))), t, Registering(name, m, 0))
    case _ => Blocked
  }

  /** `mbb_func_unregister_all`. */
  function DropStep(s: State, t: nat, pc: PC): (o: Outcome)
    ensures Sound(s, t, pc, o)
  {
    match pc
    case Unregistering(m, i) =>
      if m !in s.mods then Crash
      else if i >= |s.mods[m].functions| then To(s.(flock := s.flock.(writer := None)), t, Unregistered(m))
      else DropOne(s, t, m, i)
    case _ => Blocked
  }

  function DropOne(s: State, t: nat, m: nat, i: nat): (o: Outcome)
    requires m in s.mods && i < |s.mods[m].functions|
    ensures Sound(s, t, Unregistering(m, i), o)
  {
    var f := s.mods[m].functions[i];
    if (m, f) in s.regs then To(s.(table := s.table - {f}, regs := s.regs - {(m, f)}), t, Unregistering(m, i + 1))
    else To(s, t, Unregistering(m, i + 1))
  }

  /** The rest of `mbb_module_unload`. */
  function FreeStep(s: State, t: nat, pc: PC): (o: Outcome)
    ensures Sound(s, t, pc, o)
  {
    match pc
    case Unregistered(m) =>
      To(s.(mods := s.mods - {m}, names := s.names - (set n | n in s.names && s.names[n] == m)), t, Gone(m))
    case _ => Blocked
  }

  /** The end of an unload, and of a load or unload that gives up. */
  function EndStep(s: State, t: nat, pc: PC): (o: Outcome)
    ensures Sound(s, t, pc, o)
  {
    match pc
    case Gone(_) | Rejecting => To(s.(mlock := s.mlock.(writer := None)), t, Idle)
    case _ => Blocked
  }

  /** `mbb_module_load` up to the new module. */
  function LoadStep(s: State, t: nat, pc: PC): (o: Outcome)
    ensures Sound(s, t, pc, o)
  {
    match pc
    case Loading(name, functions, onready) =>
      if name in s.names || functions == [] then To(s, t, Rejecting)
      else To(SetMod(s.(next := s.next + 1), s.next, Mod(false, ModLock(0, None), 0, functions, 0, onready)), t, Created(name, s.next))
    case _ => Blocked
  }

  /** The lock of the new module. */
  function OwnStep(s: State, t: nat, pc: PC): (o: Outcome)
    ensures Sound(s, t, pc, o)
  {
    match pc
    case Created(name, m) =>
      if m !in s.mods then Crash
      else if !Unused(s.mods[m].lock) then Blocked
      else To(SetMod(s, m, s.mods[m].(lock := s.mods[m].lock.(writer := Some(t)))), t, Owned(name, m))
    case _ => Blocked
  }

  /** `mbb_func_mregister`. */
  function RegisterStep(s: State, t: nat, pc: PC): (o: Outcome)
    ensures Sound(s, t, pc, o)
  {
    match pc
    case Registering(name, m, i) =>
      if m !in s.mods then Crash
      else if i >= |s.mods[m].functions| then To(s.(flock := s.flock.(writer := None)), t, Registered(name, m))
      else RegisterOne(s, t, name, m, i)
    case _ => Blocked
  }

  function RegisterOne(s: State, t: nat, name: nat, m: nat, i: nat): (o: Outcome)
    requires m in s.mods && i < |s.mods[m].functions|
    ensures Sound(s, t, Registering(name, m, i), o)
  {
    var f := s.mods[m].functions[i];
    if f in s.table then To(s, t, Registering(name, m, i + 1))
    else
      To(SetMod(s, m, s.mods[m].(nreg := s.mods[m].nreg + 1)).(table := s.table[f := m], regs := s.regs + {(m, f)}),
         t, Registering(name, m, i + 1))
  }

  /** The end of `mbb_module_reg_data`, and `mbb_module_add`. */
  function NameStep(s: State, t: nat, pc: PC): (o: Outcome)
    ensures Sound(s, t, pc, o)
  {
    match pc
    case Registered(name, m) =>
      if m !in s.mods then Crash
      else
        var mod := s.mods[m];
        To(SetMod(s, m, mod.(run := mod.run || mod.nreg == |mod.functions|)).(names := s.names[name := m]), t, Added(m))
    case _ => Blocked
  }

  /** `mbb_module_load` with the module added. */
  function AddStep(s: State, t: nat, pc: PC): (o: Outcome)
    ensures Sound(s, t, pc, o)
  {
    match pc
    case Added(m) =>
      if m !in s.mods then Crash
      else To(SetMod(s, m, s.mods[m].(lock := s.mods[m].lock.(writer := None))), t, Opened(m))
    case _ => Blocked
  }

  /** An `onready` keeps the lock of the module for reading. */
  function OpenStep(s: State, t: nat, pc: PC): (o: Outcome)
    ensures Sound(s, t, pc, o)
  {
    match pc
    case Opened(m) =>
      if m !in s.mods then Crash
      else if !s.mods[m].onready then To(s.(mlock := s.mlock.(writer := None)), t, Loaded(m))
      else if s.mods[m].lock.writer.Some? then Blocked
      else To(SetMod(s, m, s.mods[m].(lock := Taken(s.mods[m].lock))), t, Readying(m))
    case _ => Blocked
  }

  /** `mbb_module_load` with an `onready` that is about to run. */
  function ReadyStep(s: State, t: nat, pc: PC): (o: Outcome)
    ensures Sound(s, t, pc, o)
  {
    match pc
    case Readying(m) => To(s.(mlock := s.mlock.(writer := None)), t, Ready(m))
    case _ => Blocked
  }

  /** The end of `_mbb_module_unuse`, and of an `onready`. */
  function GiveStep(s: State, t: nat, pc: PC): (o: Outcome)
    ensures Sound(s, t, pc, o)
  {
    match pc
    case Ready(m) => Give(s, t, m)
    case Leaving(_, m) => Give(s, t, m)
    case _ => Blocked
  }

  function Give(s: State, t: nat, m: nat): Outcome {
    if m !in s.mods then Crash else To(SetMod(s, m, s.mods[m].(lock := Given(s.mods[m].lock))), t, Idle)
  }

  /** `module_do_run`: sets `run` without the module's lock. */
  function SwitchStep(s: State, t: nat, pc: PC): (o: Outcome)
    ensures Sound(s, t, pc, o)
  {
    match pc
    case Switching(name, run) =>
      if name !in s.names then To(s, t, Switched)
      else
        var m := s.names[name];
        if m !in s.mods then Crash else To(SetMod(s, m, s.mods[m].(run := run)), t, Switched)
    case _ => Blocked
  }

  /** Its end. */
  function SwitchEnd(s: State, t: nat, pc: PC): (o: Outcome)
    ensures Sound(s, t, pc, o)
  {
    match pc
    case Switched => To(s.(mlock := DropReader(s.mlock, t)), t, Idle)
    case _ => Blocked
  }

  // ---------------------------------------------------------------- who holds a lock

  datatype Role = Out | Reader | Writer

  function FlockRole(pc: PC): Role {
    match pc
    case Searching(_, _) | Found(_, _) | Locked(_, _) | Refused(_) | Admitted(_, _) => Reader
    case Unregistering(_, _) | Registering(_, _, _) => Writer
    case _ => Out
  }

  function MlockRole(pc: PC): Role {
    match pc
    case Switching(_, _) | Switched => Reader
    case Unloading(_) | Doomed(_) | Refusing(_) | Exclusive(_) | Stopped(_) | Released(_) | Unregistering(_, _) | Unregistered(_) | Gone(_) => Writer
    case Loading(_, _, _) | Created(_, _) | Owned(_, _) | Registering(_, _, _) | Registered(_, _) | Added(_) | Opened(_) | Readying(_) | Rejecting => Writer
    case _ => Out
  }

  /** The thread is in the module, or in its `onready`. */
  predicate Using(pc: PC) {
    pc.Admitted? || pc.Inside? || pc.Asked? || pc.Leaving? || pc.Readying? || pc.Ready?
  }

  predicate Uses(pc: PC, m: nat) {
    Using(pc) && pc.m == m
  }

  /** The thread has the lock of a module for reading, or for writing. */
  predicate Reading(pc: PC) {
    Using(pc) || pc.Locked?
  }

  predicate Writing(pc: PC) {
    pc.Exclusive? || pc.Stopped? || pc.Owned? || pc.Registering? || pc.Registered? || pc.Added?
  }

  predicate ModReader(pc: PC, m: nat) {
    Reading(pc) && pc.m == m
  }

  predicate ModWriter(pc: PC, m: nat) {
    Writing(pc) && pc.m == m
  }

  /** The task has the lock of its module, or its creator has it for the task. */
  predicate Holds(k: Task, m: nat) {
    k.m == m && k.stage != Ignored
  }

  /** The task counts in `use_count`. */
  predicate TaskCounts(k: Task, m: nat) {
    k.m == m && k.stage == Granted && !k.left
  }

  /** The threads hold a lock as their roles say. */
  ghost predicate Held(l: RW, roles: nat -> Role) {
    && (l.writer.Some? ==> l.readers == {})
    && (forall u: nat :: u in l.readers <==> roles(u) == Reader)
    && (forall u: nat :: l.writer == Some(u) <==> roles(u) == Writer)
  }

  /** How a thread that changes its role changes a lock. */
  predicate Moves(l: RW, l': RW, t: nat, was: Role, now: Role) {
    match (was, now)
    case (Out, Reader) => l.writer.None? && l' == AddReader(l, t)
    case (Reader, Out) => l' == DropReader(l, t)
    case (Out, Writer) => Free(l) && l' == l.(writer := Some(t))
    case (Writer, Out) => l' == l.(writer := None)
    case _ => was == now && l' == l
  }

  lemma HeldKept(l: RW, l': RW, t: nat, roles: nat -> Role, roles': nat -> Role)
    requires Held(l, roles) && Moves(l, l', t, roles(t), roles'(t))
    requires forall u: nat :: u != t ==> roles'(u) == roles(u)
    ensures Held(l', roles')
  {
  }

  // ---------------------------------------------------------------- counting

  /** The keys whose value has a property. */
  function Those<T>(t: map<nat, T>, p: T -> bool): set<nat> {
    set k | k in t && p(t[k])
  }

  lemma ThoseUpdated<T>(t: map<nat, T>, k: nat, v: T, p: T -> bool)
    ensures |Those(t[k := v], p)| == |Those(t, p)| + Is(p(v)) - Is(k in t && p(t[k]))
  {
    var rest := Those(t, p) - {k};
    assert Those(t, p) == if k in t && p(t[k]) then rest + {k} else rest;
    assert Those(t[k := v], p) == if p(v) then rest + {k} else rest;
  }

  lemma ThoseRemoved<T>(t: map<nat, T>, k: nat, p: T -> bool)
    ensures |Those(t - {k}, p)| == |Those(t, p)| - Is(k in t && p(t[k]))
  {
    var rest := Those(t, p) - {k};
    assert Those(t, p) == if k in t && p(t[k]) then rest + {k} else rest;
    assert Those(t - {k}, p) == rest;
  }

  function ReaderOf(m: nat): PC -> bool {
    (pc: PC) => ModReader(pc, m)
  }

  function UserOf(m: nat): PC -> bool {
    (pc: PC) => Counted(pc, m)
  }

  function HolderOf(m: nat): Task -> bool {
    (k: Task) => Holds(k, m)
  }

  function TaskUserOf(m: nat): Task -> bool {
    (k: Task) => TaskCounts(k, m)
  }

  /** The threads and tasks that have the lock of the module. */
  function Taking(s: State, m: nat): nat {
    |Those(s.pcs, ReaderOf(m))| + |Those(s.tasks, HolderOf(m))|
  }

  /** The threads and tasks that the module has admitted. */
  function Admitting(s: State, m: nat): nat {
    |Those(s.pcs, UserOf(m))| + |Those(s.tasks, TaskUserOf(m))|
  }

  predicate HoldsAt(s: State, k: nat, m: nat) {
    k in s.tasks && Holds(s.tasks[k], m)
  }

  // ---------------------------------------------------------------- what every step keeps

  /** The thread calls a function that it has found in the table. */
  predicate Calls(pc: PC) {
    pc.Found? || pc.Locked? || pc.Admitted? || pc.Inside? || pc.Asked? || pc.Leaving?
  }

  /** The thread will touch a module, while it has locks that protect it. */
  predicate Touching(pc: PC) {
    || Calls(pc) || pc.Readying? || pc.Ready?
    || pc.Doomed? || pc.Refusing? || pc.Exclusive? || pc.Stopped? || pc.Released? || pc.Unregistering? || pc.Unregistered?
    || pc.Created? || pc.Owned? || pc.Registering? || pc.Registered? || pc.Added? || pc.Opened?
  }

  predicate Touches(pc: PC, m: nat) {
    Touching(pc) && pc.m == m
  }

  /** The thread will read the module `m` without any lock. */
  predicate Late(pc: PC, m: nat) {
    pc == Denied(m) || pc == Loaded(m)
  }

  /** The thread is on its way to free the module `m`. */
  predicate Hunts(names: map<nat, nat>, pc: PC, m: nat) {
    || (pc.Unloading? && pc.name in names && names[pc.name] == m)
    || ((pc.Doomed? || pc.Exclusive? || Closing(pc, m)) && pc.m == m)
  }

  /** The module has been stopped for good. */
  predicate Shutting(pc: PC) {
    pc.Stopped? || pc.Released? || pc.Unregistering? || pc.Unregistered?
  }

  predicate Closing(pc: PC, m: nat) {
    Shutting(pc) && pc.m == m
  }

  /** A call is in a module. */
  predicate Within(pc: PC) {
    pc.Admitted? || pc.Inside? || pc.Asked?
  }

  /** The thread counts in `use_count`. */
  predicate Counted(pc: PC, m: nat) {
    Within(pc) && pc.m == m
  }

  /** The module is made and has no name yet. */
  predicate Building(pc: PC) {
    pc.Created? || pc.Owned? || pc.Registering? || pc.Registered?
  }

  ghost predicate Named(s: State, m: nat) {
    exists n :: n in s.names && s.names[n] == m
  }

  /** The locks are held by those threads that have taken them. */
  ghost predicate LocksOk(s: State) {
    && Held(s.flock, (u: nat) => FlockRole(PcOf(s, u)))
    && Held(s.mlock, (u: nat) => MlockRole(PcOf(s, u)))
    && forall m :: m in s.mods ==> ModHeld(s, m)
  }

  /** The lock of a module counts the threads and tasks that have taken it. */
  ghost predicate ModHeld(s: State, m: nat)
    requires m in s.mods
  {
    var l := s.mods[m].lock;
    && l.readers == Taking(s, m)
    && (l.writer.Some? ==> l.readers == 0)
    && forall u: nat :: l.writer == Some(u) <==> ModWriter(PcOf(s, u), m)
  }

  /** No thread will touch a module that was freed. */
  ghost predicate RefsOk(s: State) {
    && (forall u: nat, m: nat :: Touches(PcOf(s, u), m) ==> m in s.mods)
    && (forall n :: n in s.names ==> s.names[n] in s.mods)
    && (forall m :: m in s.mods ==> m < s.next)
  }

  /** The table and the `module` fields of the functions agree. */
  ghost predicate TableOk(s: State) {
    && (forall f :: f in s.table ==> (s.table[f], f) in s.regs)
    && (forall m: nat, f: nat :: (m, f) in s.regs ==> f in s.table && s.table[f] == m && m in s.mods && f in s.mods[m].functions)
  }

  /** A function that is called stays registered until the thread has left it. */
  ghost predicate CallsOk(s: State) {
    forall u: nat :: Calls(PcOf(s, u)) ==> (PcOf(s, u).m, PcOf(s, u).f) in s.regs
  }

  /** Nobody is in a module that is being unloaded, and no task has its lock. */
  ghost predicate ClosingOk(s: State) {
    && (forall u: nat, m: nat :: Closing(PcOf(s, u), m) && m in s.mods ==> !s.mods[m].run)
    && (forall u: nat, v: nat, m: nat :: Closing(PcOf(s, u), m) ==> !Uses(PcOf(s, v), m))
    && (forall u: nat, k: nat, m: nat :: Closing(PcOf(s, u), m) ==> !HoldsAt(s, k, m))
  }

  /** The functions `i ..` of the module may still be in the table. */
  ghost predicate OnlyLater(s: State, m: nat, i: nat) {
    m in s.mods ==> forall f: nat :: (m, f) in s.regs ==> exists j :: i <= j < |s.mods[m].functions| && s.mods[m].functions[j] == f
  }

  ghost predicate LeavingOk(s: State, pc: PC) {
    && (pc.Unregistering? ==> OnlyLater(s, pc.m, pc.i))
    && (pc.Unregistered? ==> forall f: nat :: (pc.m, f) !in s.regs)
  }

  /** The functions of a module that is being unloaded leave the table one by one. */
  ghost predicate UnregOk(s: State) {
    forall u: nat :: LeavingOk(s, PcOf(s, u))
  }

  /** A module that was freed is no longer there. */
  ghost predicate GoneOk(s: State) {
    forall u: nat :: PcOf(s, u).Gone? ==> PcOf(s, u).m !in s.mods && PcOf(s, u).m < s.next
  }

  /** `use_count` is the number of calls and tasks that the module has admitted. */
  ghost predicate CountsOk(s: State) {
    forall m :: m in s.mods ==> s.mods[m].useCount == Admitting(s, m)
  }

  /** A task that has the lock of its module keeps the module from being freed. */
  ghost predicate TasksOk(s: State) {
    && (forall k :: k in s.tasks ==> k < s.tnext && s.tasks[k].m < s.next)
    && (forall k :: k in s.tasks && s.tasks[k].stage != Ignored ==> s.tasks[k].m in s.mods)
  }

  /** A task is pending while its creator asks for it. */
  ghost predicate AskedOk(s: State) {
    && (forall u: nat :: PcOf(s, u).Asked? ==> PcOf(s, u).k in s.tasks && s.tasks[PcOf(s, u).k] == Task(PcOf(s, u).m, Pending, false))
    && (forall u: nat, v: nat :: PcOf(s, u).Asked? && PcOf(s, v).Asked? && PcOf(s, u).k == PcOf(s, v).k ==> u == v)
    && (forall k :: k in s.tasks && s.tasks[k].stage == Pending ==> exists u: nat :: PcOf(s, u).Asked? && PcOf(s, u).k == k)
  }

  /** A module that is being loaded is known to its loader alone. */
  ghost predicate BuildingOk(s: State, w: nat) {
    var pc := PcOf(s, w);
    && (Building(pc) ==> pc.name !in s.names && !Named(s, pc.m))
    && (pc.Created? || pc.Owned? ==>
          && (forall f: nat :: (pc.m, f) !in s.regs)
          && (forall v: nat :: v != w ==> !Touches(PcOf(s, v), pc.m))
          && (forall k: nat :: !HoldsAt(s, k, pc.m)))
  }

  ghost predicate FreshOk(s: State) {
    forall w: nat :: BuildingOk(s, w)
  }

  /** Modules that run or are in use are known by name. */
  ghost predicate NamedOk(s: State) {
    && (forall m :: m in s.mods && s.mods[m].run ==> Named(s, m))
    && (forall u: nat :: Calls(PcOf(s, u)) && Using(PcOf(s, u)) ==> Named(s, PcOf(s, u).m))
    && (forall k :: k in s.tasks && s.tasks[k].m in s.mods ==> Named(s, s.tasks[k].m))
  }

  ghost predicate Inv(s: State) {
    && LocksOk(s) && RefsOk(s) && TableOk(s) && CallsOk(s) && ClosingOk(s) && UnregOk(s) && GoneOk(s) && CountsOk(s)
    && TasksOk(s) && AskedOk(s) && FreshOk(s) && NamedOk(s)
  }

  // ---------------------------------------------------------------- the effect of a step

  /** What the stepping thread knows by itself. */
  ghost predicate Local(s: State, t: nat) {
    && (Calls(PcOf(s, t)) ==> (PcOf(s, t).m, PcOf(s, t).f) in s.regs)
    && (Touching(PcOf(s, t)) ==> PcOf(s, t).m in s.mods)
    && s.next !in s.mods
  }

  ghost predicate PcEffect(s: State, t: nat, r: State) {
    var pc, pc' := PcOf(s, t), PcOf(r, t);
    && r.pcs == s.pcs[t := pc'] && (pc.Unregistered? ==> pc' == Gone(pc.m)) && (pc'.Gone? ==> pc == Unregistered(pc'.m))
    && (Calls(pc') ==> (Calls(pc) && pc.m == pc'.m && pc.f == pc'.f) || (pc'.f in s.table && s.table[pc'.f] == pc'.m && pc == Searching(pc'.f, true)))
    && (Touching(pc') ==> Touches(pc, pc'.m) || Calls(pc') || (pc.Unloading? && Hunts(s.names, pc, pc'.m)) || pc'.Created?)
    && (Shutting(pc') ==> Closing(pc, pc'.m) || pc == Exclusive(pc'.m))
    && (pc'.Denied? || pc'.Loaded? ==> pc == Refusing(pc'.m) || pc == Opened(pc'.m))
    && (pc'.Doomed? ==> Hunts(s.names, pc, pc'.m)) && (pc'.Exclusive? ==> pc == Doomed(pc'.m)) && (pc'.Unloading? || pc'.Switching? ==> pc.Idle?)
    && (Using(pc') ==> Uses(pc, pc'.m) || (pc.Locked? && pc.m == pc'.m && pc.m in s.mods && s.mods[pc.m].run) || pc == Opened(pc'.m))
    && (Within(pc') ==> Within(pc) || pc.Locked?)
    && (Reading(pc') || Writing(pc') || pc'.Leaving? ==> Touches(pc, pc'.m))
    && (Building(pc') ==> (Building(pc) && pc.name == pc'.name && pc.m == pc'.m) || (pc.Loading? && pc.name == pc'.name && pc'.Created? && pc'.m == s.next && pc.name !in s.names))
    && (pc.Registered? ==> pc' == Added(pc.m)) && (pc'.Owned? ==> pc.Created?) && (pc'.Created? ==> pc.Loading?)
  }

  /** The modules and their names come and go only with a load and an unload; any other step is about
      one module at most. */
  ghost predicate ModEffect(s: State, t: nat, r: State) {
    var pc, pc' := PcOf(s, t), PcOf(r, t);
    && (if pc'.Created? then r.next == s.next + 1 else r.next == s.next)
    && (if pc.Registered? then r.names == s.names[pc.name := pc.m]
        else if pc.Unregistered? then r.names == s.names - (set n | n in s.names && s.names[n] == pc.m)
        else r.names == s.names)
    && (if pc'.Created? then
          s.next in r.mods && r.mods == s.mods[s.next := r.mods[s.next]]
          && r.mods[s.next] == Mod(false, ModLock(0, None), 0, r.mods[s.next].functions, 0, r.mods[s.next].onready)
        else if pc.Unregistered? then r.mods == s.mods - {pc.m}
        else if Touching(pc) then pc.m in r.mods && r.mods == s.mods[pc.m := r.mods[pc.m]]
        else if pc.Switching? && pc.name in s.names then s.names[pc.name] in s.mods && r.mods == s.mods[s.names[pc.name] := s.mods[s.names[pc.name]].(run := pc.run)]
        else r.mods == s.mods)
  }

  /** The table changes only in the hands of the writer of `flock`. */
  ghost predicate TableEffect(s: State, t: nat, r: State) {
    var pc, pc' := PcOf(s, t), PcOf(r, t);
    if pc.Registering? && pc'.Registering? then
      && pc.m in s.mods && pc.i < |s.mods[pc.m].functions|
      && var f := s.mods[pc.m].functions[pc.i];
         && r.table == (if f in s.table then s.table else s.table[f := pc.m])
         && r.regs == (if f in s.table then s.regs else s.regs + {(pc.m, f)})
    else if pc.Unregistering? && pc'.Unregistering? then
      && pc.m in s.mods && pc.i < |s.mods[pc.m].functions| && pc' == Unregistering(pc.m, pc.i + 1)
      && var f := s.mods[pc.m].functions[pc.i];
         r.regs == s.regs - {(pc.m, f)} && r.table == if (pc.m, f) in s.regs then s.table - {f} else s.table
    else
      && r.regs == s.regs && r.table == s.table
      && (pc'.Unregistering? ==> pc'.i == 0)
      && (pc'.Unregistered? ==> pc.Unregistering? && pc.m == pc'.m && pc.m in s.mods && pc.i >= |s.mods[pc.m].functions|)
  }

  /** A thread makes a task, or tells it the answer. */
  ghost predicate TaskEffect(s: State, t: nat, r: State) {
    var pc, pc' := PcOf(s, t), PcOf(r, t);
    if pc'.Asked? then
      && pc == Inside(pc'.f, pc'.m) && pc'.k == s.tnext && r.tnext == s.tnext + 1
      && r.tasks == s.tasks[s.tnext := Task(pc.m, Pending, false)]
    else
      && r.tnext == s.tnext
      && if pc.Asked? then pc.m in s.mods && pc' == Inside(pc.f, pc.m) && r.tasks == s.tasks[pc.k := Task(pc.m, if s.mods[pc.m].run then Granted else Ignored, false)]
         else r.tasks == s.tasks
  }

  /** What a step does apart from locks and counts. */
  ghost predicate Moved(s: State, t: nat, r: State) {
    PcEffect(s, t, r) && ModEffect(s, t, r) && TableEffect(s, t, r) && TaskEffect(s, t, r)
  }

  /** How the lock of a module changes, with what the thread takes or gives back for a task. */
  predicate ModMoves(l: ModLock, l': ModLock, t: nat, pc: PC, pc': PC, m: nat, gain: int) {
    && l'.readers == l.readers + Is(ModReader(pc', m)) - Is(ModReader(pc, m)) + gain
    && (l'.readers > l.readers ==> l.writer.None?)
    && if ModWriter(pc', m) && !ModWriter(pc, m) then Unused(l) && l'.writer == Some(t)
       else l'.writer == if ModWriter(pc, m) && !ModWriter(pc', m) then None else l.writer
  }

  /** What a thread takes or gives back for a task. */
  function Gain(s: State, pc: PC, pc': PC, m: nat): int {
    if pc'.Asked? && pc'.m == m then 1
    else if pc.Asked? && pc.m == m && m in s.mods && !s.mods[m].run then -1
    else 0
  }

  /** How the module `m` changes: its lock, `use_count` and `run`. */
  ghost predicate SubjectMoves(s: State, t: nat, r: State, m: nat)
    requires m in s.mods && m in r.mods
  {
    var pc, pc', x, y := PcOf(s, t), PcOf(r, t), s.mods[m], r.mods[m];
    && ModMoves(x.lock, y.lock, t, pc, pc', m, Gain(s, pc, pc', m))
    && y.functions == x.functions
    && (y.run && !x.run ==> (pc.Registered? && pc.m == m) || pc.Switching?)
    && (x.run && !y.run ==> pc == Exclusive(m) || (pc.Switching? && !pc.run))
    && y.useCount == x.useCount + Is(Counted(pc', m)) - Is(Counted(pc, m)) + Is(pc.Asked? && pc.m == m && x.run)
  }

  ghost predicate LockEffect(s: State, t: nat, r: State) {
    var pc, pc' := PcOf(s, t), PcOf(r, t);
    && Moves(s.flock, r.flock, t, FlockRole(pc), FlockRole(pc'))
    && Moves(s.mlock, r.mlock, t, MlockRole(pc), MlockRole(pc'))
    && (Touching(pc) && pc.m in s.mods && pc.m in r.mods ==> SubjectMoves(s, t, r, pc.m))
    && (pc.Exclusive? && pc.m in r.mods ==> !r.mods[pc.m].run)
  }

  ghost predicate Effect(s: State, t: nat, r: State) {
    Moved(s, t, r) && LockEffect(s, t, r)
  }

  /** A thread comes to a function only by a search with the capability for it. */
  ghost predicate Called(s: State, t: nat, r: State) {
    var pc, pc' := PcOf(s, t), PcOf(r, t);
    && r.pcs == s.pcs[t := pc']
    && (Calls(pc') ==> (Calls(pc) && pc.f == pc'.f) || pc == Searching(pc'.f, true))
    && (pc'.Searching? ==> pc.Idle?)
  }

  /** A step that its place allows has its effect; see `Slices.Open`. */
  ghost predicate Sound(s: State, t: nat, pc: PC, o: Outcome) {
    forall k {:trigger Open(k)} :: Open(k) ==> (o.Next? && pc == PcOf(s, t) ==> Called(s, t, o.s) && (Local(s, t) ==> Effect(s, t, o.s)))
  }

  lemma StepCalled(s: State, t: nat, a: Action)
    requires ThreadStep(s, t, a).Next?
    ensures Called(s, t, ThreadStep(s, t, a).s)
  {
    assert Sound(s, t, PcOf(s, t), ThreadStep(s, t, a));
    assert Open(0);
  }

  lemma Stepped(s: State, t: nat, a: Action)
    requires Local(s, t) && ThreadStep(s, t, a).Next?
    ensures Effect(s, t, ThreadStep(s, t, a).s)
  {
    assert Sound(s, t, PcOf(s, t), ThreadStep(s, t, a));
    assert Open(0);
  }

  /** What comes and goes in a step, said of all modules and names. */
  ghost predicate Comings(s: State, t: nat, r: State) {
    var pc, pc' := PcOf(s, t), PcOf(r, t);
    && r.next >= s.next
    && (forall m :: m in s.mods && !(pc.Unregistered? && pc.m == m) ==> m in r.mods)
    && (forall m :: m in r.mods && m !in s.mods ==>
          m == s.next < r.next && pc'.Created? && pc'.m == m && r.mods[m].lock == ModLock(0, None) && r.mods[m].useCount == 0 && !r.mods[m].run)
    && (pc.Unregistered? ==> pc.m !in r.mods)
    && (pc'.Created? ==> pc'.m in r.mods)
    && (forall n :: n in r.names ==> (n in s.names && r.names[n] == s.names[n]) || (pc.Registered? && n == pc.name && r.names[n] == pc.m))
    && (forall n :: n in r.names ==> !(pc.Unregistered? && r.names[n] == pc.m))
    && (forall n :: n in s.names && !(pc.Unregistered? && s.names[n] == pc.m) && !(pc.Registered? && n == pc.name) ==> n in r.names && r.names[n] == s.names[n])
    && (pc.Registered? ==> pc.name in r.names && r.names[pc.name] == pc.m)
    && (MlockRole(pc) != Writer ==> r.names == s.names)
  }

  predicate Switches(s: State, pc: PC, m: nat) {
    pc.Switching? && pc.name in s.names && s.names[pc.name] == m
  }

  /** How every module changes. */
  ghost predicate RunEffect(s: State, t: nat, r: State) {
    var pc, pc' := PcOf(s, t), PcOf(r, t);
    forall m :: m in s.mods && m in r.mods ==>
      && ModMoves(s.mods[m].lock, r.mods[m].lock, t, pc, pc', m, Gain(s, pc, pc', m))
      && r.mods[m].functions == s.mods[m].functions
      && (r.mods[m].run && !s.mods[m].run ==> (pc.Registered? && pc.m == m) || Switches(s, pc, m))
      && (s.mods[m].run && !r.mods[m].run ==> pc == Exclusive(m) || (Switches(s, pc, m) && !pc.run))
      && (pc == Exclusive(m) ==> !r.mods[m].run)
      && r.mods[m].useCount == s.mods[m].useCount + Is(Counted(pc', m)) - Is(Counted(pc, m)) + Is(pc.Asked? && pc.m == m && s.mods[m].run)
  }

  lemma ComingsOf(s: State, t: nat, r: State)
    requires Local(s, t) && PcEffect(s, t, r) && ModEffect(s, t, r)
    ensures Comings(s, t, r)
  {
  }

  lemma RunOf(s: State, t: nat, r: State)
    requires Local(s, t) && Effect(s, t, r)
    ensures RunEffect(s, t, r)
  {
    var pc, pc' := PcOf(s, t), PcOf(r, t);
    forall m | m in s.mods && m in r.mods && !Touches(pc, m)
      ensures !ModReader(pc', m) && !ModWriter(pc', m) && !Counted(pc', m) && Gain(s, pc, pc', m) == 0
      ensures Switches(s, pc, m) || r.mods[m] == s.mods[m]
    {
    }
  }

  /** All effects of a step, of all modules. */
  ghost predicate Done(s: State, t: nat, r: State) {
    Effect(s, t, r) && Comings(s, t, r) && RunEffect(s, t, r)
  }

  lemma StepDone(s: State, t: nat, a: Action)
    requires RefsOk(s) && CallsOk(s) && ThreadStep(s, t, a).Next?
    ensures Local(s, t) && Done(s, t, ThreadStep(s, t, a).s)
  {
    LocalOf(s, t);
    Stepped(s, t, a);
    ComingsOf(s, t, ThreadStep(s, t, a).s);
    RunOf(s, t, ThreadStep(s, t, a).s);
  }

  lemma LocalOf(s: State, t: nat)
    requires RefsOk(s) && CallsOk(s)
    ensures Local(s, t)
  {
  }

  // ---------------------------------------------------------------- the invariant is kept

  lemma LocksKept(s: State, t: nat, r: State)
    requires LocksOk(s) && RefsOk(s) && TasksOk(s) && AskedOk(s) && Done(s, t, r)
    ensures LocksOk(r)
  {
    PlocksKept(s, t, r);
    forall m | m in r.mods
      ensures ModHeld(r, m)
    {
      if m in s.mods {
        ModHeldKept(s, t, r, m);
      } else {
        NewUntouched(s, t, r, m);
      }
    }
  }

  lemma PlocksKept(s: State, t: nat, r: State)
    requires LocksOk(s) && PcEffect(s, t, r) && LockEffect(s, t, r)
    ensures Held(r.flock, (u: nat) => FlockRole(PcOf(r, u))) && Held(r.mlock, (u: nat) => MlockRole(PcOf(r, u)))
  {
    HeldKept(s.flock, r.flock, t, (u: nat) => FlockRole(PcOf(s, u)), (u: nat) => FlockRole(PcOf(r, u)));
    HeldKept(s.mlock, r.mlock, t, (u: nat) => MlockRole(PcOf(s, u)), (u: nat) => MlockRole(PcOf(r, u)));
  }

  /** The number of those that have the lock of a module follows the thread and its task. */
  lemma TakingKept(s: State, t: nat, r: State, m: nat)
    requires TasksOk(s) && AskedOk(s) && PcEffect(s, t, r) && TaskEffect(s, t, r)
    ensures var pc, pc' := PcOf(s, t), PcOf(r, t);
      && Taking(r, m) == Taking(s, m) + Is(ModReader(pc', m)) - Is(ModReader(pc, m)) + Gain2(s, pc, pc', m)
      && Admitting(r, m) == Admitting(s, m) + Is(Counted(pc', m)) - Is(Counted(pc, m)) + Is(pc.Asked? && pc.m == m && pc.m in s.mods && s.mods[m].run)
  {
    var pc, pc' := PcOf(s, t), PcOf(r, t);
    ThoseUpdated(s.pcs, t, pc', ReaderOf(m));
    ThoseUpdated(s.pcs, t, pc', UserOf(m));
    if pc'.Asked? {
      ThoseUpdated(s.tasks, s.tnext, Task(pc.m, Pending, false), HolderOf(m));
      ThoseUpdated(s.tasks, s.tnext, Task(pc.m, Pending, false), TaskUserOf(m));
    } else if pc.Asked? {
      var k := r.tasks[pc.k];
      ThoseUpdated(s.tasks, pc.k, k, HolderOf(m));
      ThoseUpdated(s.tasks, pc.k, k, TaskUserOf(m));
    }
  }

  function Gain2(s: State, pc: PC, pc': PC, m: nat): int {
    if pc'.Asked? && pc'.m == m then 1
    else if pc.Asked? && pc.m == m && (m !in s.mods || !s.mods[m].run) then -1
    else 0
  }

  lemma ModHeldKept(s: State, t: nat, r: State, m: nat)
    requires TasksOk(s) && AskedOk(s) && Done(s, t, r) && m in s.mods && m in r.mods && ModHeld(s, m)
    ensures ModHeld(r, m)
  {
    TakingKept(s, t, r, m);
    ModWriterKept(s.mods[m].lock, r.mods[m].lock, s, t, r, m, Gain(s, PcOf(s, t), PcOf(r, t), m));
  }

  lemma ModWriterKept(l: ModLock, l': ModLock, s: State, t: nat, r: State, m: nat, gain: int)
    requires ModMoves(l, l', t, PcOf(s, t), PcOf(r, t), m, gain) && (forall u: nat :: l.writer == Some(u) <==> ModWriter(PcOf(s, u), m))
    requires r.pcs == s.pcs[t := PcOf(r, t)] && l.readers >= 0 && l'.readers >= 0 && (l.writer.Some? ==> l.readers == 0) && (gain <= 0 || PcOf(r, t).Asked?)
    ensures (forall u: nat :: l'.writer == Some(u) <==> ModWriter(PcOf(r, u), m)) && (l'.writer.Some? ==> l'.readers == 0)
  {
    assert forall u: nat :: u != t ==> PcOf(r, u) == PcOf(s, u);
  }

  lemma NewUntouched(s: State, t: nat, r: State, m: nat)
    requires RefsOk(s) && TasksOk(s) && Done(s, t, r) && m in r.mods && m !in s.mods
    ensures Taking(s, m) == 0 && Taking(r, m) == 0 && Admitting(s, m) == 0 && Admitting(r, m) == 0
    ensures forall u: nat :: !ModWriter(PcOf(r, u), m)
  {
    forall u: nat
      ensures !ModReader(PcOf(r, u), m) && !ModWriter(PcOf(r, u), m) && !Counted(PcOf(r, u), m) && !ModReader(PcOf(s, u), m) && !Counted(PcOf(s, u), m)
    {
      assert !Touches(PcOf(s, u), m);
      assert u != t ==> PcOf(r, u) == PcOf(s, u);
    }
    NoneTaking(s, m);
    NoneTaking(r, m);
  }

  lemma NoneTaking(s: State, m: nat)
    requires forall u: nat :: !ModReader(PcOf(s, u), m) && !Counted(PcOf(s, u), m)
    requires forall k :: k in s.tasks ==> s.tasks[k].m != m
    ensures Taking(s, m) == 0 && Admitting(s, m) == 0
  {
    assert forall u :: u in s.pcs ==> s.pcs[u] == PcOf(s, u);
    assert Those(s.pcs, ReaderOf(m)) == {} && Those(s.pcs, UserOf(m)) == {};
    assert Those(s.tasks, HolderOf(m)) == {} && Those(s.tasks, TaskUserOf(m)) == {};
  }

  /** A writer is alone. */
  lemma Alone(l: RW, roles: nat -> Role, t: nat, u: nat)
    requires Held(l, roles) && roles(t) == Writer && u != t
    ensures roles(u) == Out
  {
    assert l.writer == Some(t);
  }

  lemma FlockAlone(s: State, t: nat, u: nat)
    requires LocksOk(s) && FlockRole(PcOf(s, t)) == Writer && u != t
    ensures FlockRole(PcOf(s, u)) == Out
  {
    Alone(s.flock, (v: nat) => FlockRole(PcOf(s, v)), t, u);
  }

  lemma MlockAlone(s: State, t: nat, u: nat)
    requires LocksOk(s) && MlockRole(PcOf(s, t)) == Writer && u != t
    ensures MlockRole(PcOf(s, u)) == Out
  {
    Alone(s.mlock, (v: nat) => MlockRole(PcOf(s, v)), t, u);
  }

  /** While the lock of a module counts nobody, nobody has it. */
  lemma ModAlone(s: State, m: nat, u: nat, k: nat)
    requires m in s.mods && ModHeld(s, m) && s.mods[m].lock.readers == 0
    ensures !ModReader(PcOf(s, u), m) && !HoldsAt(s, k, m)
  {
    assert ModReader(PcOf(s, u), m) ==> u in Those(s.pcs, ReaderOf(m));
    assert HoldsAt(s, k, m) ==> k in Those(s.tasks, HolderOf(m));
  }

  lemma WriterAlone(s: State, t: nat, m: nat, u: nat, k: nat)
    requires LocksOk(s) && m in s.mods && ModWriter(PcOf(s, t), m)
    ensures !ModReader(PcOf(s, u), m) && !HoldsAt(s, k, m)
  {
    assert ModHeld(s, m);
    ModAlone(s, m, u, k);
  }

  /** When a module is freed nobody else is about to touch it, but for reads without a lock, and no
      task has its lock. */
  lemma FreedUntouched(s: State, t: nat, u: nat, m: nat, k: nat)
    requires LocksOk(s) && CallsOk(s) && ClosingOk(s) && UnregOk(s) && PcOf(s, t) == Unregistered(m)
    ensures (u != t ==> !Touches(PcOf(s, u), m)) && !HoldsAt(s, k, m)
  {
    assert Closing(PcOf(s, t), m) && !Uses(PcOf(s, u), m) && !HoldsAt(s, k, m);
    assert LeavingOk(s, PcOf(s, t));
    if u != t {
      MlockAlone(s, t, u);
    }
  }

  lemma RefsKept(s: State, t: nat, r: State)
    requires LocksOk(s) && CallsOk(s) && ClosingOk(s) && UnregOk(s) && RefsOk(s) && PcEffect(s, t, r) && TableOk(s) && Comings(s, t, r)
    ensures RefsOk(r)
  {
    forall n | n in r.names
      ensures r.names[n] in r.mods
    {
      assert PcOf(s, t).Registered? ==> Touches(PcOf(s, t), PcOf(s, t).m);
    }
    forall u: nat, m: nat | Touches(PcOf(r, u), m)
      ensures m in r.mods
    {
      if u != t {
        TouchedKept(s, t, r, u, m);
      } else {
        TouchedOwn(s, t, r, m);
      }
    }
  }

  lemma TouchedOwn(s: State, t: nat, r: State, m: nat)
    requires RefsOk(s) && TableOk(s) && PcEffect(s, t, r) && Comings(s, t, r) && Touches(PcOf(r, t), m)
    ensures m in r.mods
  {
  }

  lemma TouchedKept(s: State, t: nat, r: State, u: nat, m: nat)
    requires LocksOk(s) && CallsOk(s) && ClosingOk(s) && UnregOk(s) && RefsOk(s)
    requires r.pcs == s.pcs[t := PcOf(r, t)] && u != t && Touches(PcOf(r, u), m)
    requires forall m :: m in s.mods && !(PcOf(s, t).Unregistered? && PcOf(s, t).m == m) ==> m in r.mods
    ensures m in r.mods
  {
    assert PcOf(r, u) == PcOf(s, u) && Touches(PcOf(s, u), m);
    if PcOf(s, t) == Unregistered(m) {
      FreedUntouched(s, t, u, m, 0);
    }
  }

  lemma TasksKept(s: State, t: nat, r: State)
    requires RefsOk(s) && RefsOk(r) && ClosingOk(s) && TasksOk(s) && AskedOk(s) && PcEffect(s, t, r) && Comings(s, t, r) && TaskEffect(s, t, r)
    ensures TasksOk(r)
  {
    forall k | k in r.tasks
      ensures k < r.tnext && r.tasks[k].m < r.next && (r.tasks[k].stage != Ignored ==> r.tasks[k].m in r.mods)
    {
      if k in s.tasks && s.tasks[k] == r.tasks[k] {
        TaskStays(s, t, r, k);
      } else {
        TaskMade(s, t, r, k);
      }
    }
  }

  lemma TaskStays(s: State, t: nat, r: State, k: nat)
    requires ClosingOk(s) && TasksOk(s) && Comings(s, t, r) && k in s.tasks && r.tnext >= s.tnext
    ensures k < r.tnext && s.tasks[k].m < r.next && (s.tasks[k].stage != Ignored ==> s.tasks[k].m in r.mods)
  {
    var m := s.tasks[k].m;
    if PcOf(s, t) == Unregistered(m) {
      assert Closing(PcOf(s, t), m) && !HoldsAt(s, k, m);
    }
  }

  lemma TaskMade(s: State, t: nat, r: State, k: nat)
    requires RefsOk(s) && RefsOk(r) && TasksOk(s) && AskedOk(s) && TaskEffect(s, t, r) && r.next >= s.next
    requires k in r.tasks && !(k in s.tasks && s.tasks[k] == r.tasks[k])
    ensures k < r.tnext && r.tasks[k].m < r.next && r.tasks[k].m in r.mods
  {
    var m := r.tasks[k].m;
    assert Touches(PcOf(r, t), m);
    assert m in r.mods;
  }

  lemma AskedKept(s: State, t: nat, r: State)
    requires TasksOk(s) && AskedOk(s) && PcEffect(s, t, r) && TaskEffect(s, t, r)
    ensures AskedOk(r)
  {
    assert forall u: nat :: u != t ==> PcOf(r, u) == PcOf(s, u);
    forall k | k in r.tasks && r.tasks[k].stage == Pending
      ensures exists u: nat :: PcOf(r, u).Asked? && PcOf(r, u).k == k
    {
      if k in s.tasks && s.tasks[k] == r.tasks[k] {
        var u: nat :| PcOf(s, u).Asked? && PcOf(s, u).k == k;
        assert PcOf(r, u).Asked? && PcOf(r, u).k == k;
      } else {
        assert PcOf(r, t).Asked? && PcOf(r, t).k == k;
      }
    }
  }

  lemma TableKept(s: State, t: nat, r: State)
    requires TableOk(s) && UnregOk(s) && Comings(s, t, r) && RunEffect(s, t, r) && TableEffect(s, t, r)
    ensures TableOk(r)
  {
    assert LeavingOk(s, PcOf(s, t));
    TableMods(s, t, r);
  }

  /** A registered function is one of its module, which stays. */
  lemma TableMods(s: State, t: nat, r: State)
    requires TableOk(s) && LeavingOk(s, PcOf(s, t)) && Comings(s, t, r) && RunEffect(s, t, r)
    ensures forall m: nat, f: nat :: (m, f) in s.regs ==> m in s.mods && m in r.mods && f in r.mods[m].functions
  {
  }

  lemma CallsKept(s: State, t: nat, r: State)
    requires LocksOk(s) && TableOk(s) && CallsOk(s) && ClosingOk(s) && PcEffect(s, t, r) && TableEffect(s, t, r)
    ensures CallsOk(r)
  {
    forall u: nat | Calls(PcOf(r, u))
      ensures (PcOf(r, u).m, PcOf(r, u).f) in r.regs
    {
      if u != t {
        CallKept(s, t, r, u);
      } else {
        CallOwn(s, t, r);
      }
    }
  }

  lemma CallOwn(s: State, t: nat, r: State)
    requires TableOk(s) && CallsOk(s) && PcEffect(s, t, r) && TableEffect(s, t, r) && Calls(PcOf(r, t))
    ensures (PcOf(r, t).m, PcOf(r, t).f) in r.regs
  {
    assert Calls(PcOf(s, t)) ==> (PcOf(s, t).m, PcOf(s, t).f) in s.regs;
  }

  lemma CallKept(s: State, t: nat, r: State, u: nat)
    requires LocksOk(s) && CallsOk(s) && ClosingOk(s) && r.pcs == s.pcs[t := PcOf(r, t)] && TableEffect(s, t, r) && u != t && Calls(PcOf(r, u))
    ensures (PcOf(r, u).m, PcOf(r, u).f) in r.regs
  {
    assert PcOf(r, u) == PcOf(s, u);
    if PcOf(s, t).Unregistering? {
      FlockAlone(s, t, u);
      assert Closing(PcOf(s, t), PcOf(s, t).m) && !Uses(PcOf(s, u), PcOf(s, t).m);
    }
  }

  lemma StoppedKept(s: State, t: nat, r: State, u: nat, m: nat)
    requires LocksOk(s) && ClosingOk(s) && u != t && Closing(PcOf(s, u), m) && m in s.mods && m in r.mods
    requires r.mods[m].run && !s.mods[m].run ==> MlockRole(PcOf(s, t)) != Out
    ensures !r.mods[m].run
  {
    MlockAlone(s, u, t);
  }

  lemma RunRises(s: State, t: nat, r: State, m: nat)
    requires RunEffect(s, t, r) && m in s.mods && m in r.mods
    ensures r.mods[m].run && !s.mods[m].run ==> MlockRole(PcOf(s, t)) != Out
  {
  }

  lemma StoppedOwn(s: State, t: nat, r: State, m: nat)
    requires ClosingOk(s) && PcEffect(s, t, r) && RunEffect(s, t, r) && Closing(PcOf(r, t), m) && m in s.mods && m in r.mods
    ensures !r.mods[m].run
  {
  }

  /** Nobody gets into a module that another thread closes. */
  lemma UnusedKept(s: State, t: nat, r: State, u: nat, v: nat, k: nat, m: nat)
    requires LocksOk(s) && ClosingOk(s) && PcEffect(s, t, r) && TaskEffect(s, t, r) && AskedOk(s)
    requires Closing(PcOf(s, u), m) && m in s.mods
    ensures !Uses(PcOf(r, v), m) && !HoldsAt(r, k, m)
  {
    assert v != t ==> PcOf(r, v) == PcOf(s, v);
    assert !HoldsAt(s, k, m) && !Uses(PcOf(s, v), m) && !Uses(PcOf(s, t), m) && !s.mods[m].run;
    if u != t {
      MlockAlone(s, u, t);
    }
  }

  /** Who begins to close it has its lock, so nobody is in it. */
  lemma UnusedOwn(s: State, t: nat, r: State, v: nat, k: nat, m: nat)
    requires LocksOk(s) && PcEffect(s, t, r) && TaskEffect(s, t, r) && PcOf(s, t) == Exclusive(m) && m in s.mods
    ensures (v != t ==> !Uses(PcOf(r, v), m)) && !HoldsAt(r, k, m)
  {
    WriterAlone(s, t, m, v, k);
    assert v != t ==> PcOf(r, v) == PcOf(s, v);
  }

  lemma ClosingKept(s: State, t: nat, r: State)
    requires LocksOk(s) && RefsOk(s) && ClosingOk(s) && AskedOk(s) && Done(s, t, r)
    ensures ClosingOk(r)
  {
    forall u: nat, m: nat | Closing(PcOf(r, u), m) && m in r.mods
      ensures !r.mods[m].run
    {
      ClosingAt(s, t, r, u, u, 0, m);
    }
    forall u: nat, v: nat, m: nat | Closing(PcOf(r, u), m)
      ensures !Uses(PcOf(r, v), m)
    {
      ClosingAt(s, t, r, u, v, 0, m);
    }
    forall u: nat, k: nat, m: nat | Closing(PcOf(r, u), m)
      ensures !HoldsAt(r, k, m)
    {
      ClosingAt(s, t, r, u, u, k, m);
    }
  }

  lemma ClosingAt(s: State, t: nat, r: State, u: nat, v: nat, k: nat, m: nat)
    requires LocksOk(s) && RefsOk(s) && ClosingOk(s) && AskedOk(s) && Done(s, t, r) && Closing(PcOf(r, u), m)
    ensures !Uses(PcOf(r, v), m) && !HoldsAt(r, k, m) && (m in r.mods ==> !r.mods[m].run)
  {
    if u != t {
      assert PcOf(r, u) == PcOf(s, u) && Closing(PcOf(s, u), m) && Touches(PcOf(s, u), m);
      UnusedKept(s, t, r, u, v, k, m);
      if m in r.mods {
        RunRises(s, t, r, m);
        StoppedKept(s, t, r, u, m);
      }
    } else {
      ClosingSelf(s, t, r, v, k, m);
    }
  }

  lemma ClosingSelf(s: State, t: nat, r: State, v: nat, k: nat, m: nat)
    requires LocksOk(s) && RefsOk(s) && ClosingOk(s) && AskedOk(s) && PcEffect(s, t, r) && TaskEffect(s, t, r) && RunEffect(s, t, r) && Closing(PcOf(r, t), m)
    ensures !Uses(PcOf(r, v), m) && !HoldsAt(r, k, m) && (m in r.mods ==> !r.mods[m].run)
  {
    assert Touches(PcOf(s, t), m);
    if Closing(PcOf(s, t), m) {
      UnusedKept(s, t, r, t, v, k, m);
    } else {
      UnusedOwn(s, t, r, v, k, m);
    }
    if m in r.mods {
      StoppedOwn(s, t, r, m);
    }
  }

  lemma UnregKept(s: State, t: nat, r: State)
    requires LocksOk(s) && RefsOk(s) && TableOk(s) && UnregOk(s) && Done(s, t, r)
    ensures UnregOk(r)
  {
    forall u: nat
      ensures LeavingOk(r, PcOf(r, u))
    {
      assert LeavingOk(s, PcOf(s, u));
      if u == t {
        UnregOwn(s, t, r);
      } else if PcOf(s, u).Unregistering? || PcOf(s, u).Unregistered? {
        UnregOthers(s, t, r, u);
      }
    }
  }

  lemma UnregOthers(s: State, t: nat, r: State, u: nat)
    requires LocksOk(s) && RefsOk(s) && LeavingOk(s, PcOf(s, u)) && (PcOf(s, u).Unregistering? || PcOf(s, u).Unregistered?) && u != t
    requires r.pcs == s.pcs[t := PcOf(r, t)] && RunEffect(s, t, r) && TableEffect(s, t, r)
    ensures LeavingOk(r, PcOf(r, u))
  {
    assert PcOf(r, u) == PcOf(s, u);
    MlockAlone(s, u, t);
    assert Touches(PcOf(s, u), PcOf(s, u).m);
    UnregOther(s, r, PcOf(s, u));
  }

  lemma UnregOther(s: State, r: State, pc: PC)
    requires LeavingOk(s, pc) && (pc.Unregistering? || pc.Unregistered?) && pc.m in s.mods && r.regs == s.regs
    requires pc.m in r.mods ==> r.mods[pc.m].functions == s.mods[pc.m].functions
    ensures LeavingOk(r, pc)
  {
  }

  lemma UnregOwn(s: State, t: nat, r: State)
    requires RefsOk(s) && TableOk(s) && LeavingOk(s, PcOf(s, t)) && PcEffect(s, t, r) && RunEffect(s, t, r) && TableEffect(s, t, r)
    ensures LeavingOk(r, PcOf(r, t))
  {
  }

  lemma GoneKept(s: State, t: nat, r: State)
    requires RefsOk(s) && GoneOk(s) && PcEffect(s, t, r) && Comings(s, t, r)
    ensures GoneOk(r)
  {
    forall u: nat | PcOf(r, u).Gone?
      ensures PcOf(r, u).m !in r.mods && PcOf(r, u).m < r.next
    {
      if u == t {
        var m := PcOf(r, t).m;
        assert Touches(PcOf(s, t), m);
        assert m in s.mods && m < s.next;
      } else {
        assert PcOf(r, u) == PcOf(s, u);
      }
    }
  }

  lemma CountsKept(s: State, t: nat, r: State)
    requires RefsOk(s) && CountsOk(s) && TasksOk(s) && AskedOk(s) && Done(s, t, r)
    ensures CountsOk(r)
  {
    forall m | m in r.mods
      ensures r.mods[m].useCount == Admitting(r, m)
    {
      if m in s.mods {
        TakingKept(s, t, r, m);
      } else {
        NewUntouched(s, t, r, m);
      }
    }
  }

  lemma FreshKept(s: State, t: nat, r: State)
    requires LocksOk(s) && RefsOk(s) && TableOk(s) && TasksOk(s) && FreshOk(s) && Done(s, t, r)
    ensures FreshOk(r)
  {
    forall w: nat
      ensures BuildingOk(r, w)
    {
      assert BuildingOk(s, w);
      if w != t {
        FreshOther(s, t, r, w);
      } else {
        FreshSelf(s, t, r);
      }
    }
  }

  /** The load of another thread is not disturbed. */
  lemma FreshOther(s: State, t: nat, r: State, w: nat)
    requires LocksOk(s) && RefsOk(s) && TableOk(s) && w != t && BuildingOk(s, w)
    requires PcEffect(s, t, r) && TableEffect(s, t, r) && TaskEffect(s, t, r) && (MlockRole(PcOf(s, t)) != Writer ==> r.names == s.names)
    ensures BuildingOk(r, w)
  {
    var pc := PcOf(s, w);
    assert PcOf(r, w) == pc;
    if Building(pc) {
      MlockAlone(s, w, t);
      if pc.Created? || pc.Owned? {
        FreshUntouched(s, t, r, w);
      }
    }
  }

  lemma FreshUntouched(s: State, t: nat, r: State, w: nat)
    requires RefsOk(s) && TableOk(s) && w != t && BuildingOk(s, w) && (PcOf(s, w).Created? || PcOf(s, w).Owned?) && MlockRole(PcOf(s, t)) != Writer
    requires PcEffect(s, t, r) && TableEffect(s, t, r) && TaskEffect(s, t, r)
    ensures var m := PcOf(s, w).m;
      && (forall f: nat :: (m, f) !in r.regs)
      && (forall v: nat :: v != w ==> !Touches(PcOf(r, v), m))
      && (forall k: nat :: !HoldsAt(r, k, m))
  {
    var m := PcOf(s, w).m;
    assert !Touches(PcOf(s, t), m);
    forall v: nat | v != w
      ensures !Touches(PcOf(r, v), m)
    {
      assert v != t ==> PcOf(r, v) == PcOf(s, v);
      assert !Touches(PcOf(s, v), m);
    }
    forall k: nat
      ensures !HoldsAt(r, k, m)
    {
      assert !HoldsAt(s, k, m);
    }
  }

  /** A module that is made is new to all. */
  lemma FreshSelf(s: State, t: nat, r: State)
    requires RefsOk(s) && TableOk(s) && TasksOk(s) && BuildingOk(s, t) && Done(s, t, r)
    ensures BuildingOk(r, t)
  {
    var pc, pc' := PcOf(s, t), PcOf(r, t);
    if Building(pc') {
      assert r.names == s.names;
      if pc'.Created? || pc'.Owned? {
        FreshMade(s, t, r);
      }
    }
  }

  lemma FreshMade(s: State, t: nat, r: State)
    requires RefsOk(s) && TableOk(s) && TasksOk(s) && BuildingOk(s, t) && (PcOf(r, t).Created? || PcOf(r, t).Owned?)
    requires PcEffect(s, t, r) && TableEffect(s, t, r) && TaskEffect(s, t, r) && s.next !in s.mods
    ensures var m := PcOf(r, t).m;
      && (forall f: nat :: (m, f) !in r.regs)
      && (forall v: nat :: v != t ==> !Touches(PcOf(r, v), m))
      && (forall k: nat :: !HoldsAt(r, k, m))
  {
    var m := PcOf(r, t).m;
    forall v: nat | v != t
      ensures !Touches(PcOf(r, v), m)
    {
      assert PcOf(r, v) == PcOf(s, v);
      assert Touches(PcOf(s, v), m) ==> m in s.mods;
    }
    forall k: nat
      ensures !HoldsAt(r, k, m)
    {
      assert PcOf(s, t).Created? ==> !HoldsAt(s, k, m);
    }
  }

  lemma NamedStays(s: State, t: nat, r: State, m: nat)
    requires BuildingOk(s, t) && Comings(s, t, r) && Named(s, m) && m in r.mods
    ensures Named(r, m)
  {
    var n :| n in s.names && s.names[n] == m;
    assert n in r.names && r.names[n] == m;
  }

  lemma NamedKept(s: State, t: nat, r: State)
    requires FreshOk(s) && NamedOk(s) && RefsOk(s) && RefsOk(r) && TasksOk(s) && Done(s, t, r)
    ensures NamedOk(r)
  {
    assert BuildingOk(s, t);
    forall m | m in r.mods && r.mods[m].run
      ensures Named(r, m)
    {
      NamedRuns(s, t, r, m);
    }
    forall u: nat | Calls(PcOf(r, u)) && Using(PcOf(r, u))
      ensures Named(r, PcOf(r, u).m)
    {
      NamedUsed(s, t, r, u);
    }
    forall k | k in r.tasks && r.tasks[k].m in r.mods
      ensures Named(r, r.tasks[k].m)
    {
      NamedTask(s, t, r, k);
    }
  }

  lemma NamedRuns(s: State, t: nat, r: State, m: nat)
    requires BuildingOk(s, t) && NamedOk(s) && Comings(s, t, r) && RunEffect(s, t, r) && m in r.mods && r.mods[m].run
    ensures Named(r, m)
  {
    if m in s.mods && (s.mods[m].run || Switches(s, PcOf(s, t), m)) {
      assert Switches(s, PcOf(s, t), m) ==> PcOf(s, t).name in s.names && s.names[PcOf(s, t).name] == m;
      NamedStays(s, t, r, m);
    }
  }

  lemma NamedUsed(s: State, t: nat, r: State, u: nat)
    requires BuildingOk(s, t) && NamedOk(s) && RefsOk(r) && PcEffect(s, t, r) && Comings(s, t, r) && Calls(PcOf(r, u)) && Using(PcOf(r, u))
    ensures Named(r, PcOf(r, u).m)
  {
    var m := PcOf(r, u).m;
    assert u != t ==> PcOf(r, u) == PcOf(s, u);
    assert Touches(PcOf(r, u), m);
    assert Calls(PcOf(s, u)) && Using(PcOf(s, u)) && PcOf(s, u).m == m ==> Named(s, m);
    NamedStays(s, t, r, m);
  }

  lemma NamedTask(s: State, t: nat, r: State, k: nat)
    requires BuildingOk(s, t) && NamedOk(s) && PcEffect(s, t, r) && Comings(s, t, r) && TaskEffect(s, t, r) && k in r.tasks && r.tasks[k].m in r.mods
    requires RefsOk(s) && TasksOk(s) && s.next !in s.mods
    ensures Named(r, r.tasks[k].m)
  {
    var m, pc := r.tasks[k].m, PcOf(s, t);
    if !(k in s.tasks && s.tasks[k] == r.tasks[k]) {
      assert Calls(pc) && Using(pc) && Touches(pc, m);
    }
    assert m < s.next && m in s.mods;
    assert Named(s, m);
    NamedStays(s, t, r, m);
  }

  lemma ThreadKept(s: State, t: nat, a: Action)
    requires Inv(s) && ThreadStep(s, t, a).Next?
    ensures Inv(ThreadStep(s, t, a).s)
  {
    var r := ThreadStep(s, t, a).s;
    StepDone(s, t, a);
    LocksKept(s, t, r);
    RefsKept(s, t, r);
    TableKept(s, t, r);
    CallsKept(s, t, r);
    ClosingKept(s, t, r);
    UnregKept(s, t, r);
    GoneKept(s, t, r);
    CountsKept(s, t, r);
    TasksKept(s, t, r);
    assert TasksOk(r) && RefsOk(r);
    AskedKept(s, t, r);
    FreshKept(s, t, r);
    NamedKept(s, t, r);
  }

  // ---------------------------------------------------------------- steps of a task

  /** The task ends though its use of the module was refused. */
  predicate Stray(s: State, a: Action) {
    a.End? && a.k in s.tasks && s.tasks[a.k].stage == Ignored
  }

  /** A task changes nothing but itself and the counts of its module. */
  ghost predicate TaskMoves(s: State, a: Action, r: State) {
    && (a.Work? || a.End?) && a.k in s.tasks && s.tasks[a.k].stage == Granted && s.tasks[a.k].m in s.mods
    && var k := s.tasks[a.k];
       var m := s.mods[k.m];
       r == if a.Work? then s
            else if !k.left then s.(mods := s.mods[k.m := m.(useCount := m.useCount - 1)], tasks := s.tasks[a.k := k.(left := true)])
            else s.(mods := s.mods[k.m := m.(lock := Given(m.lock))], tasks := s.tasks - {a.k})
  }

  /** The numbers of those that the module has follow the task. */
  lemma TaskCounted(s: State, a: Action, r: State, m: nat)
    requires TaskMoves(s, a, r) && a.End?
    ensures var k := s.tasks[a.k];
      Taking(r, m) == Taking(s, m) - Is(k.left && k.m == m) && Admitting(r, m) == Admitting(s, m) - Is(!k.left && k.m == m)
  {
    var k := s.tasks[a.k];
    if !k.left {
      ThoseUpdated(s.tasks, a.k, k.(left := true), HolderOf(m));
      ThoseUpdated(s.tasks, a.k, k.(left := true), TaskUserOf(m));
    } else {
      ThoseRemoved(s.tasks, a.k, HolderOf(m));
      ThoseRemoved(s.tasks, a.k, TaskUserOf(m));
    }
  }

  lemma TaskHeld(s: State, a: Action, r: State, m: nat)
    requires LocksOk(s) && CountsOk(s) && TaskMoves(s, a, r) && m in r.mods
    ensures ModHeld(r, m) && r.mods[m].useCount == Admitting(r, m)
  {
    assert ModHeld(s, m);
    if a.End? {
      TaskCounted(s, a, r, m);
      TaskNumbers(s, a, r, m);
    }
  }

  lemma TaskNumbers(s: State, a: Action, r: State, m: nat)
    requires TaskMoves(s, a, r) && a.End? && m in s.mods && m in r.mods && ModHeld(s, m) && s.mods[m].useCount == Admitting(s, m)
    requires var k := s.tasks[a.k];
      Taking(r, m) == Taking(s, m) - Is(k.left && k.m == m) && Admitting(r, m) == Admitting(s, m) - Is(!k.left && k.m == m)
    ensures ModHeld(r, m) && r.mods[m].useCount == Admitting(r, m)
  {
    assert forall u: nat :: PcOf(r, u) == PcOf(s, u);
  }

  lemma TaskLocks(s: State, a: Action, r: State)
    requires LocksOk(s) && CountsOk(s) && TaskMoves(s, a, r)
    ensures LocksOk(r) && CountsOk(r)
  {
    assert forall u: nat :: PcOf(r, u) == PcOf(s, u);
    HeldSame(s.flock, (u: nat) => FlockRole(PcOf(s, u)), (u: nat) => FlockRole(PcOf(r, u)));
    HeldSame(s.mlock, (u: nat) => MlockRole(PcOf(s, u)), (u: nat) => MlockRole(PcOf(r, u)));
    forall m | m in r.mods
      ensures ModHeld(r, m) && r.mods[m].useCount == Admitting(r, m)
    {
      TaskHeld(s, a, r, m);
    }
  }

  lemma HeldSame(l: RW, roles: nat -> Role, roles': nat -> Role)
    requires Held(l, roles) && forall u: nat :: roles'(u) == roles(u)
    ensures Held(l, roles')
  {
  }

  lemma TaskRefs(s: State, a: Action, r: State)
    requires RefsOk(s) && TableOk(s) && CallsOk(s) && UnregOk(s) && GoneOk(s) && TaskMoves(s, a, r)
    ensures RefsOk(r) && TableOk(r) && CallsOk(r) && UnregOk(r) && GoneOk(r)
  {
    assert forall u: nat :: PcOf(r, u) == PcOf(s, u);
    forall u: nat
      ensures LeavingOk(r, PcOf(r, u))
    {
      assert LeavingOk(s, PcOf(s, u));
    }
  }

  lemma TaskClosing(s: State, a: Action, r: State)
    requires ClosingOk(s) && TasksOk(s) && AskedOk(s) && TaskMoves(s, a, r)
    ensures ClosingOk(r) && TasksOk(r) && AskedOk(r)
  {
    assert forall u: nat :: PcOf(r, u) == PcOf(s, u);
    assert forall k: nat, m: nat :: HoldsAt(r, k, m) ==> HoldsAt(s, k, m);
    forall k | k in r.tasks && r.tasks[k].stage == Pending
      ensures exists u: nat :: PcOf(r, u).Asked? && PcOf(r, u).k == k
    {
      var u: nat :| PcOf(s, u).Asked? && PcOf(s, u).k == k;
      assert PcOf(r, u).Asked? && PcOf(r, u).k == k;
    }
  }

  lemma TaskFresh(s: State, a: Action, r: State)
    requires FreshOk(s) && NamedOk(s) && TaskMoves(s, a, r)
    ensures FreshOk(r) && NamedOk(r)
  {
    assert forall u: nat :: PcOf(r, u) == PcOf(s, u);
    assert forall k: nat, m: nat :: HoldsAt(r, k, m) ==> HoldsAt(s, k, m);
    assert forall m: nat :: Named(s, m) ==> Named(r, m);
    forall w: nat
      ensures BuildingOk(r, w)
    {
      assert BuildingOk(s, w);
    }
  }

  lemma TaskMoved(s: State, t: nat, a: Action)
    requires TasksOk(s) && (a.Work? || a.End?) && Step(s, t, a).Next? && !Stray(s, a)
    ensures Step(s, t, a).s == s || TaskMoves(s, a, Step(s, t, a).s)
  {
  }

  /** Every step keeps the invariant, but for the end of a task whose use of its module was refused. */
  lemma InvKept(s: State, t: nat, a: Action)
    requires Inv(s) && Step(s, t, a).Next? && !Stray(s, a)
    ensures Inv(Step(s, t, a).s)
  {
    var r := Step(s, t, a).s;
    if a.Work? || a.End? {
      TaskMoved(s, t, a);
      if r != s {
        TaskLocks(s, a, r);
        TaskRefs(s, a, r);
        TaskClosing(s, a, r);
        TaskFresh(s, a, r);
      }
    } else {
      ThreadKept(s, t, a);
    }
  }
}
