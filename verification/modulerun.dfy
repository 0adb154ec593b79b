/** Whole runs of the module protocol: what holds in all of them, which of them crash, and when none
does.
 */
module ModuleRuns {
  import opened Slices
  import opened Modules

  // ---------------------------------------------------------------- runs

  /** No threads, no modules. */
  function Start(): State {
    State(RW({}, None), RW({}, None), map[], map[], map[], {}, 0, map[], map[], 0)
  }

  /** The move of a blocked thread has no effect. */
  function Move(s: State, t: nat, a: Action): Outcome {
    var o := Step(s, t, a);
    if o.Blocked? then Next(s) else o
  }

  /** What some moves, each by any thread or task, make of a state. */
  function From(s: State, moves: seq<(nat, Action)>): Outcome
    decreases |moves|
  {
    if moves == [] then Next(s)
    else
      match Move(s, moves[0].0, moves[0].1)
      case Next(r) => From(r, moves[1..])
      case o => o
  }

  function After(moves: seq<(nat, Action)>): Outcome {
    From(Start(), moves)
  }

  lemma {:induction false} FromConcat(s: State, a: seq<(nat, Action)>, b: seq<(nat, Action)>)
    ensures From(s, a + b) == (match From(s, a) case Next(r) => From(r, b) case o => o)
    decreases |a|
  {
    if a == [] {
      assert a + b == b;
    } else {
      assert (a + b)[0] == a[0] && (a + b)[1..] == a[1..] + b;
      var o := Move(s, a[0].0, a[0].1);
      if o.Next? {
        FromConcat(o.s, a[1..], b);
      }
    }
  }

  /** The invariant, see `Slices.Open`. */
  ghost predicate Good(s: State) {
    forall k {:trigger Open(k)} :: Open(k) ==> Inv(s)
  }

  lemma StartOk()
    ensures Good(Start())
  {
    forall w: nat
      ensures BuildingOk(Start(), w) && LeavingOk(Start(), PcOf(Start(), w))
    {
    }
  }

  /** A thread touches a module that was freed exactly in a read without a lock; a task does exactly
      when its use of the module was refused. */
  lemma CrashExactly(s: State, t: nat, a: Action)
    requires RefsOk(s) && TasksOk(s)
    ensures !a.Work? && !a.End? ==>
      (Step(s, t, a) == Crash <==> (PcOf(s, t).Denied? || PcOf(s, t).Loaded?) && PcOf(s, t).m !in s.mods)
    ensures a.Work? || a.End? ==>
      (Step(s, t, a) == Crash <==> a.k in s.tasks && s.tasks[a.k].stage == Ignored && s.tasks[a.k].m !in s.mods && !(a.Work? && s.tasks[a.k].left))
  {
    if !a.Work? && !a.End? {
      ThreadCrash(s, t, a);
    }
  }

  lemma ThreadCrash(s: State, t: nat, a: Action)
    requires RefsOk(s)
    ensures ThreadStep(s, t, a) == Crash <==> (PcOf(s, t).Denied? || PcOf(s, t).Loaded?) && PcOf(s, t).m !in s.mods
  {
    var pc := PcOf(s, t);
    if pc.Switching? {
      assert pc.name in s.names ==> s.names[pc.name] in s.mods;
    } else {
      assert Touching(pc) ==> Touches(pc, pc.m);
      CrashThere(s, t, a);
    }
  }

  lemma CrashThere(s: State, t: nat, a: Action)
    requires var pc := PcOf(s, t); !pc.Switching? && (Touching(pc) ==> pc.m in s.mods)
    ensures ThreadStep(s, t, a) == Crash <==> (PcOf(s, t).Denied? || PcOf(s, t).Loaded?) && PcOf(s, t).m !in s.mods
  {
  }

  lemma MoveOk(s: State, t: nat, a: Action)
    requires Good(s) && !Stray(s, a)
    ensures Move(s, t, a) == Crash || (Move(s, t, a).Next? && Good(Move(s, t, a).s))
  {
    assert Open(0);
    if Step(s, t, a).Next? {
      InvKept(s, t, a);
    }
  }

  /** No task ends whose use of its module was refused. */
  predicate Steady(s: State, moves: seq<(nat, Action)>)
    decreases |moves|
  {
    moves != [] ==>
      && !Stray(s, moves[0].1)
      && (Move(s, moves[0].0, moves[0].1).Next? ==> Steady(Move(s, moves[0].0, moves[0].1).s, moves[1..]))
  }

  /** Every run keeps the invariant until it crashes, or a task ends whose use of its module was
      refused. */
  lemma {:induction false} RunOk(s: State, moves: seq<(nat, Action)>)
    requires Good(s) && Steady(s, moves)
    ensures From(s, moves) == Crash || (From(s, moves).Next? && Good(From(s, moves).s))
    decreases |moves|
  {
    if moves != [] {
      MoveOk(s, moves[0].0, moves[0].1);
      var o := Move(s, moves[0].0, moves[0].1);
      if o.Next? {
        RunOk(o.s, moves[1..]);
      }
    }
  }

  lemma Reached(moves: seq<(nat, Action)>, s: State)
    requires Steady(Start(), moves) && After(moves) == Next(s)
    ensures Good(s)
  {
    StartOk();
    RunOk(Start(), moves);
  }

  // ---------------------------------------------------------------- calls, tasks and unloads

  /** A thread in a module has its lock and counts in `use_count`, an unload of the module is
      refused, and when the function returns the thread gives back exactly what it took. */
  lemma InsideSafe(moves: seq<(nat, Action)>, s: State, t: nat)
    requires Steady(Start(), moves) && After(moves) == Next(s) && PcOf(s, t).Inside?
    ensures var f, m := PcOf(s, t).f, PcOf(s, t).m;
      && m in s.mods && s.mods[m].lock.readers == Taking(s, m) > 0 && s.mods[m].useCount == Admitting(s, m) > 0
      && (forall u: nat :: PcOf(s, u) == Doomed(m) ==> Step(s, u, Go).Next? && PcOf(Step(s, u, Go).s, u) == Refusing(m))
      && Step(s, t, Go) == Next(s.(mods := s.mods[m := s.mods[m].(useCount := s.mods[m].useCount - 1)], pcs := s.pcs[t := Leaving(f, m)]))
  {
    Reached(moves, s);
    var m := PcOf(s, t).m;
    InsideHolds(s, t, m);
    forall u: nat | PcOf(s, u) == Doomed(m)
      ensures Step(s, u, Go).Next? && PcOf(Step(s, u, Go).s, u) == Refusing(m)
    {
      DoomedRefused(s, u, m);
    }
    InsideLeaves(s, t);
  }

  lemma InsideHolds(s: State, t: nat, m: nat)
    requires Good(s) && PcOf(s, t).Inside? && PcOf(s, t).m == m
    ensures m in s.mods && s.mods[m].lock.readers == Taking(s, m) > 0 && s.mods[m].useCount == Admitting(s, m) > 0
  {
    assert Open(0);
    assert Touches(PcOf(s, t), m);
    assert ModHeld(s, m);
    assert t in Those(s.pcs, ReaderOf(m)) && t in Those(s.pcs, UserOf(m));
  }

  lemma DoomedRefused(s: State, u: nat, m: nat)
    requires m in s.mods && s.mods[m].lock.readers > 0 && PcOf(s, u) == Doomed(m)
    ensures Step(s, u, Go).Next? && PcOf(Step(s, u, Go).s, u) == Refusing(m)
  {
  }

  lemma InsideLeaves(s: State, t: nat)
    requires Good(s) && PcOf(s, t).Inside?
    ensures var f, m := PcOf(s, t).f, PcOf(s, t).m;
      m in s.mods && Step(s, t, Go) == Next(s.(mods := s.mods[m := s.mods[m].(useCount := s.mods[m].useCount - 1)], pcs := s.pcs[t := Leaving(f, m)]))
  {
    InsideThere(s, t);
    LeaveResult(s, t, PcOf(s, t).f, PcOf(s, t).m);
  }

  lemma InsideThere(s: State, t: nat)
    requires Good(s) && PcOf(s, t).Inside?
    ensures PcOf(s, t).m in s.mods && (PcOf(s, t).m, PcOf(s, t).f) in s.regs
  {
    assert Open(0);
    assert Touches(PcOf(s, t), PcOf(s, t).m);
  }

  lemma LeaveResult(s: State, t: nat, f: nat, m: nat)
    requires PcOf(s, t) == Inside(f, m) && m in s.mods && (m, f) in s.regs
    ensures Step(s, t, Go) == Next(s.(mods := s.mods[m := s.mods[m].(useCount := s.mods[m].useCount - 1)], pcs := s.pcs[t := Leaving(f, m)]))
  {
  }

  lemma LeavingSafe(moves: seq<(nat, Action)>, s: State, t: nat)
    requires Steady(Start(), moves) && After(moves) == Next(s) && PcOf(s, t).Leaving?
    ensures var m := PcOf(s, t).m;
      && m in s.mods && s.mods[m].lock.readers == Taking(s, m) > 0
      && Step(s, t, Go) == Next(s.(mods := s.mods[m := s.mods[m].(lock := Given(s.mods[m].lock))], pcs := s.pcs[t := Idle]))
  {
    Reached(moves, s);
    LeavingHolds(s, t, PcOf(s, t).m);
    GiveResult(s, t, PcOf(s, t).f, PcOf(s, t).m);
  }

  lemma LeavingHolds(s: State, t: nat, m: nat)
    requires Good(s) && PcOf(s, t).Leaving? && PcOf(s, t).m == m
    ensures m in s.mods && s.mods[m].lock.readers == Taking(s, m) > 0
  {
    assert Open(0);
    assert Touches(PcOf(s, t), m);
    assert ModHeld(s, m);
    assert t in Those(s.pcs, ReaderOf(m));
  }

  lemma GiveResult(s: State, t: nat, f: nat, m: nat)
    requires PcOf(s, t) == Leaving(f, m) && m in s.mods
    ensures Step(s, t, Go) == Next(s.(mods := s.mods[m := s.mods[m].(lock := Given(s.mods[m].lock))], pcs := s.pcs[t := Idle]))
  {
  }

  /** A task whose use of the module was granted keeps the module: an unload is refused as long as the
      task has not ended. */
  lemma TaskSafe(moves: seq<(nat, Action)>, s: State, k: nat)
    requires Steady(Start(), moves) && After(moves) == Next(s) && k in s.tasks && s.tasks[k].stage == Granted
    ensures var m := s.tasks[k].m;
      && m in s.mods && s.mods[m].lock.readers == Taking(s, m) > 0
      && forall u: nat :: PcOf(s, u) == Doomed(m) ==> Step(s, u, Go).Next? && PcOf(Step(s, u, Go).s, u) == Refusing(m)
  {
    Reached(moves, s);
    var m := s.tasks[k].m;
    TaskHolds(s, k);
    forall u: nat | PcOf(s, u) == Doomed(m)
      ensures Step(s, u, Go).Next? && PcOf(Step(s, u, Go).s, u) == Refusing(m)
    {
      DoomedRefused(s, u, m);
    }
  }

  lemma TaskHolds(s: State, k: nat)
    requires Good(s) && k in s.tasks && s.tasks[k].stage == Granted
    ensures s.tasks[k].m in s.mods && s.mods[s.tasks[k].m].lock.readers == Taking(s, s.tasks[k].m) > 0
  {
    assert Open(0);
    var m := s.tasks[k].m;
    assert ModHeld(s, m);
    assert k in Those(s.tasks, HolderOf(m));
  }

  ghost predicate Unloaded(s: State, m: nat) {
    m !in s.mods && m < s.next
  }

  lemma MoveUnloaded(s: State, t: nat, a: Action, m: nat)
    requires Good(s) && Unloaded(s, m) && Move(s, t, a).Next? && !Stray(s, a)
    ensures Good(Move(s, t, a).s) && Unloaded(Move(s, t, a).s, m)
  {
    MoveOk(s, t, a);
    if Step(s, t, a).Next? {
      NoReturn(s, t, a, m);
    }
  }

  /** A number that was used for a module is not used again. */
  lemma NoReturn(s: State, t: nat, a: Action, m: nat)
    requires Good(s) && Unloaded(s, m) && Step(s, t, a).Next? && !Stray(s, a)
    ensures Unloaded(Step(s, t, a).s, m)
  {
    assert Open(0);
    if a.Work? || a.End? {
      TaskMoved(s, t, a);
    } else {
      StepDone(s, t, a);
    }
  }

  lemma {:induction false} StaysUnloaded(s: State, more: seq<(nat, Action)>, m: nat)
    requires Good(s) && Unloaded(s, m) && Steady(s, more) && From(s, more).Next?
    ensures Good(From(s, more).s) && Unloaded(From(s, more).s, m)
    decreases |more|
  {
    if more != [] {
      MoveUnloaded(s, more[0].0, more[0].1, m);
      StaysUnloaded(Move(s, more[0].0, more[0].1).s, more[1..], m);
    }
  }

  lemma GoneUnloaded(s: State, t: nat, m: nat)
    requires Good(s) && PcOf(s, t) == Gone(m)
    ensures Unloaded(s, m)
  {
    assert Open(0);
  }

  lemma UnloadedUntouched(s: State, m: nat, u: nat, k: nat)
    requires Good(s) && Unloaded(s, m)
    ensures !Touches(PcOf(s, u), m) && !HoldsAt(s, k, m)
  {
    assert Open(0);
  }

  /** Once an unload of a module has succeeded, at no later time will a thread find it, wait for
      it, or be in it, or a task have its lock. */
  lemma UnloadedForGood(moves: seq<(nat, Action)>, more: seq<(nat, Action)>, s: State, r: State, t: nat, m: nat, u: nat, k: nat)
    requires Steady(Start(), moves) && After(moves) == Next(s) && PcOf(s, t) == Gone(m)
    requires Steady(s, more) && After(moves + more) == Next(r)
    ensures m !in r.mods && !Touches(PcOf(r, u), m) && !HoldsAt(r, k, m)
  {
    Reached(moves, s);
    FromConcat(Start(), moves, more);
    GoneUnloaded(s, t, m);
    StaysUnloaded(s, more, m);
    UnloadedUntouched(r, m, u, k);
  }

  // ---------------------------------------------------------------- who may call

  /** The function and the capability of the last call that the thread has begun. */
  function LastCall(moves: seq<(nat, Action)>, t: nat): Option<(nat, bool)>
    decreases |moves|
  {
    if moves == [] then None
    else
      var before, u, a := moves[..|moves| - 1], moves[|moves| - 1].0, moves[|moves| - 1].1;
      if u == t && a.Call? && Begins(After(before), t, a) then Some((a.f, a.cap)) else LastCall(before, t)
  }

  predicate Begins(o: Outcome, t: nat, a: Action) {
    o.Next? && PcOf(o.s, t).Idle? && Step(o.s, t, a).Next?
  }

  /** What a step has to do with calls. */
  lemma CallStepped(s: State, u: nat, a: Action, t: nat)
    requires Step(s, u, a).Next?
    ensures var pc, pc' := PcOf(s, t), PcOf(Step(s, u, a).s, t);
      && (u != t || a.Work? || a.End? ==> pc' == pc)
      && (u == t && a.Call? && pc.Idle? ==> pc' == Searching(a.f, a.cap))
      && (Calls(pc') ==> pc' == pc || (Calls(pc) && pc.f == pc'.f) || pc == Searching(pc'.f, true))
      && (pc'.Searching? ==> pc' == pc || (u == t && pc.Idle? && a.Call?))
  {
    if a.Work? || a.End? {
      TaskPcs(s, a);
    } else {
      StepCalled(s, u, a);
      if PcOf(s, u).Idle? {
        BeginPc(s, u, a);
      }
    }
  }

  lemma TaskPcs(s: State, a: Action)
    requires (a.Work? || a.End?) && TaskStep(s, a).Next?
    ensures TaskStep(s, a).s.pcs == s.pcs
  {
  }

  lemma BeginPc(s: State, t: nat, a: Action)
    requires PcOf(s, t).Idle? && !a.Work? && !a.End? && Step(s, t, a).Next?
    ensures a.Call? ==> PcOf(Step(s, t, a).s, t) == Searching(a.f, a.cap)
    ensures PcOf(Step(s, t, a).s, t).Searching? ==> a.Call?
  {
  }

  lemma AfterLast(moves: seq<(nat, Action)>)
    requires moves != []
    ensures var before, u, a := moves[..|moves| - 1], moves[|moves| - 1].0, moves[|moves| - 1].1;
      After(moves) == match After(before) case Next(r) => Move(r, u, a) case o => o
  {
    var before, last := moves[..|moves| - 1], moves[|moves| - 1..];
    assert moves == before + last;
    FromConcat(Start(), before, last);
    if After(before).Next? {
      assert last[1..] == [];
      var o := Move(After(before).s, last[0].0, last[0].1);
      assert o.Next? ==> From(o.s, last[1..]) == o;
    }
  }

  /** In every run a thread is at a function only if the last call that it has begun was of that
      function and had the capability for it. */
  lemma {:induction false} Cleared(moves: seq<(nat, Action)>, s: State, t: nat)
    requires After(moves) == Next(s)
    ensures Calls(PcOf(s, t)) ==> LastCall(moves, t) == Some((PcOf(s, t).f, true))
    ensures PcOf(s, t).Searching? ==> LastCall(moves, t) == Some((PcOf(s, t).f, PcOf(s, t).cap))
    decreases |moves|
  {
    if moves != [] {
      AfterLast(moves);
      var before, u, a := moves[..|moves| - 1], moves[|moves| - 1].0, moves[|moves| - 1].1;
      var r := After(before).s;
      Cleared(before, r, t);
      if Step(r, u, a).Next? {
        CallStepped(r, u, a, t);
      }
    }
  }

  /** And a search finds exactly what the call may have. */
  lemma SearchExact(moves: seq<(nat, Action)>, s: State, t: nat)
    requires After(moves) == Next(s) && PcOf(s, t).Searching?
    ensures var f := PcOf(s, t).f; LastCall(moves, t) == Some((f, true)) && f in s.table <==>
      f in s.table && Step(s, t, Go) == Next(s.(pcs := s.pcs[t := Found(f, s.table[f])]))
    ensures !Step(s, t, Go).Blocked?
  {
    Cleared(moves, s, t);
    var f := PcOf(s, t).f;
    SearchEnds(s, t, f, PcOf(s, t).cap);
    assert f in s.table ==> PcOf(s.(pcs := s.pcs[t := Found(f, s.table[f])]), t) == Found(f, s.table[f]);
  }

  lemma SearchEnds(s: State, t: nat, f: nat, cap: bool)
    requires PcOf(s, t) == Searching(f, cap)
    ensures Step(s, t, Go) == Next(s.(pcs := s.pcs[t := if f in s.table && cap then Found(f, s.table[f]) else Refused(f)]))
    ensures PcOf(Step(s, t, Go).s, t) == if f in s.table && cap then Found(f, s.table[f]) else Refused(f)
  {
  }

  // ---------------------------------------------------------------- when no run crashes

  predicate AskedIn(pc: PC, m: nat) {
    pc.Asked? && pc.m == m
  }

  /** An unload of a module does not begin while some thread has yet to read it without a lock. */
  ghost predicate UnloadOk(s: State, t: nat, a: Action) {
    PcOf(s, t).Idle? && a.Unload? && Free(s.mlock) && a.name in s.names ==> forall u: nat :: !Late(PcOf(s, u), s.names[a.name])
  }

  /** A function begins to create a task only while its module runs, and the module is not stopped
      until the task has got its answer. */
  ghost predicate SpawnOk(s: State, t: nat, a: Action) {
    && (PcOf(s, t).Inside? && a == Spawn ==> PcOf(s, t).m in s.mods && s.mods[PcOf(s, t).m].run)
    && (!a.Work? && !a.End? && PcOf(s, t).Switching? && !PcOf(s, t).run ==>
          forall u: nat, m: nat :: Switches(s, PcOf(s, t), m) ==> !AskedIn(PcOf(s, u), m))
  }

  ghost predicate Allowed(s: State, t: nat, a: Action) {
    UnloadOk(s, t, a) && SpawnOk(s, t, a)
  }

  ghost predicate Orderly(s: State, moves: seq<(nat, Action)>)
    decreases |moves|
  {
    moves != [] ==>
      && Allowed(s, moves[0].0, moves[0].1)
      && (Move(s, moves[0].0, moves[0].1).Next? ==> Orderly(Move(s, moves[0].0, moves[0].1).s, moves[1..]))
  }

  /** A module that a thread will read without a lock is there, and nobody is on the way to free it. */
  ghost predicate LateOk(s: State) {
    && (forall u: nat, m: nat :: Late(PcOf(s, u), m) ==> m in s.mods)
    && (forall u: nat, v: nat, m: nat :: Late(PcOf(s, u), m) ==> !Hunts(s.names, PcOf(s, v), m))
  }

  /** No task is refused the use of its module. */
  ghost predicate GrantOk(s: State) {
    && (forall u: nat, m: nat :: AskedIn(PcOf(s, u), m) ==> m in s.mods && s.mods[m].run)
    && (forall k :: k in s.tasks ==> s.tasks[k].stage != Ignored)
  }

  ghost predicate Quiet(s: State) {
    LateOk(s) && GrantOk(s)
  }

  /** Who begins an unload or a task has been asked to. */
  lemma Begun(s: State, t: nat, a: Action)
    requires ThreadStep(s, t, a).Next?
    ensures var r := ThreadStep(s, t, a).s;
      && (PcOf(s, t).Idle? && PcOf(r, t).Unloading? ==> a.Unload? && a.name == PcOf(r, t).name && Free(s.mlock) && r.names == s.names)
      && (PcOf(s, t).Inside? && PcOf(r, t).Asked? ==> a == Spawn)
  {
  }

  /** A thread that has become late was the only one in an unload or a load. */
  lemma NewlyLate(s: State, t: nat, r: State, v: nat, m: nat)
    requires LocksOk(s) && PcEffect(s, t, r) && Late(PcOf(r, t), m) && v != t
    ensures !Hunts(r.names, PcOf(r, v), m)
  {
    assert PcOf(r, v) == PcOf(s, v);
    MlockAlone(s, t, v);
  }

  /** Another hunter has not become one by a step of `t`. */
  lemma OldHunter(s: State, t: nat, r: State, v: nat, m: nat)
    requires LocksOk(s) && PcEffect(s, t, r) && (MlockRole(PcOf(s, t)) != Writer ==> r.names == s.names) && v != t && !Hunts(s.names, PcOf(s, v), m)
    ensures !Hunts(r.names, PcOf(r, v), m)
  {
    assert PcOf(r, v) == PcOf(s, v);
    if MlockRole(PcOf(s, v)) == Writer {
      MlockAlone(s, v, t);
    }
  }

  /** The thread itself has not begun to hunt a module that another has yet to read. */
  lemma NoNewHunter(s: State, t: nat, a: Action, r: State, u: nat, m: nat)
    requires UnloadOk(s, t, a) && ThreadStep(s, t, a) == Next(r) && PcEffect(s, t, r)
    requires Late(PcOf(s, u), m) && !Hunts(s.names, PcOf(s, t), m)
    ensures !Hunts(r.names, PcOf(r, t), m)
  {
    Begun(s, t, a);
  }

  lemma HunterKept(s: State, t: nat, a: Action, r: State, u: nat, v: nat, m: nat)
    requires LocksOk(s) && LateOk(s) && UnloadOk(s, t, a) && ThreadStep(s, t, a) == Next(r)
    requires PcEffect(s, t, r) && (MlockRole(PcOf(s, t)) != Writer ==> r.names == s.names)
    requires Late(PcOf(r, u), m)
    ensures !Hunts(r.names, PcOf(r, v), m)
  {
    if u == t {
      if v != t {
        NewlyLate(s, t, r, v, m);
      }
    } else {
      assert PcOf(r, u) == PcOf(s, u);
      assert Late(PcOf(s, u), m);
      assert !Hunts(s.names, PcOf(s, v), m);
      if v == t {
        NoNewHunter(s, t, a, r, u, m);
      } else {
        OldHunter(s, t, r, v, m);
      }
    }
  }

  lemma LateThere(s: State, t: nat, r: State, u: nat, m: nat)
    requires RefsOk(s) && LateOk(s) && PcEffect(s, t, r) && Comings(s, t, r) && Late(PcOf(r, u), m)
    ensures m in r.mods
  {
    if u != t {
      assert PcOf(r, u) == PcOf(s, u) && Late(PcOf(s, u), m);
      assert !Hunts(s.names, PcOf(s, t), m);
    } else {
      assert Touches(PcOf(s, t), m);
    }
  }

  lemma LateKept(s: State, t: nat, a: Action, r: State)
    requires LocksOk(s) && RefsOk(s) && LateOk(s) && UnloadOk(s, t, a) && ThreadStep(s, t, a) == Next(r) && PcEffect(s, t, r) && Comings(s, t, r)
    ensures LateOk(r)
  {
    forall u: nat, m: nat | Late(PcOf(r, u), m)
      ensures m in r.mods
    {
      LateThere(s, t, r, u, m);
    }
    forall u: nat, v: nat, m: nat | Late(PcOf(r, u), m)
      ensures !Hunts(r.names, PcOf(r, v), m)
    {
      HunterKept(s, t, a, r, u, v, m);
    }
  }

  lemma GrantKept(s: State, t: nat, a: Action, r: State)
    requires LocksOk(s) && RefsOk(s) && RefsOk(r) && GrantOk(s) && SpawnOk(s, t, a) && !a.Work? && !a.End?
    requires PcEffect(s, t, r) && TaskEffect(s, t, r) && RunEffect(s, t, r) && (PcOf(s, t).Inside? && PcOf(r, t).Asked? ==> a == Spawn)
    ensures GrantOk(r)
  {
    forall u: nat, m: nat | AskedIn(PcOf(r, u), m)
      ensures m in r.mods && r.mods[m].run
    {
      assert Touches(PcOf(r, u), m);
      if u != t {
        assert PcOf(r, u) == PcOf(s, u) && AskedIn(PcOf(s, u), m);
        GrantOther(s, t, a, r, u, m);
      } else {
        GrantOwn(s, t, a, r, m);
      }
    }
    NoneIgnored(s, t, r);
  }

  lemma NoneIgnored(s: State, t: nat, r: State)
    requires GrantOk(s) && TaskEffect(s, t, r)
    ensures forall k :: k in r.tasks ==> r.tasks[k].stage != Ignored
  {
    assert PcOf(s, t).Asked? ==> AskedIn(PcOf(s, t), PcOf(s, t).m);
  }

  lemma GrantOther(s: State, t: nat, a: Action, r: State, u: nat, m: nat)
    requires LocksOk(s) && GrantOk(s) && SpawnOk(s, t, a) && !a.Work? && !a.End? && RunEffect(s, t, r) && u != t && AskedIn(PcOf(s, u), m) && m in r.mods
    ensures r.mods[m].run
  {
    if !r.mods[m].run && PcOf(s, t) == Exclusive(m) {
      WriterAlone(s, t, m, u, 0);
    }
  }

  lemma GrantOwn(s: State, t: nat, a: Action, r: State, m: nat)
    requires RefsOk(s) && SpawnOk(s, t, a) && PcEffect(s, t, r) && TaskEffect(s, t, r) && RunEffect(s, t, r) && AskedIn(PcOf(r, t), m) && m in r.mods
    requires PcOf(s, t).Inside? && PcOf(r, t).Asked? ==> a == Spawn
    ensures r.mods[m].run
  {
    assert Touches(PcOf(s, t), m);
  }

  lemma QuietThread(s: State, t: nat, a: Action)
    requires Good(s) && Quiet(s) && Allowed(s, t, a) && !a.Work? && !a.End? && Step(s, t, a).Next?
    ensures Quiet(Step(s, t, a).s)
  {
    assert Open(0);
    var r := Step(s, t, a).s;
    StepDone(s, t, a);
    InvKept(s, t, a);
    LateKept(s, t, a, r);
    Begun(s, t, a);
    GrantKept(s, t, a, r);
  }

  lemma QuietTask(s: State, t: nat, a: Action)
    requires TasksOk(s) && Quiet(s) && (a.Work? || a.End?) && Step(s, t, a).Next?
    ensures Quiet(Step(s, t, a).s)
  {
    var r := Step(s, t, a).s;
    TaskMoved(s, t, a);
    assert forall u: nat :: PcOf(r, u) == PcOf(s, u);
  }

  lemma QuietKept(s: State, t: nat, a: Action)
    requires Good(s) && Quiet(s) && Allowed(s, t, a)
    ensures Move(s, t, a).Next? && Good(Move(s, t, a).s) && Quiet(Move(s, t, a).s)
  {
    assert !Stray(s, a);
    MoveOk(s, t, a);
    QuietSafe(s, t, a);
    if Step(s, t, a).Next? {
      if a.Work? || a.End? {
        assert Open(0);
        QuietTask(s, t, a);
      } else {
        QuietThread(s, t, a);
      }
    }
  }

  lemma QuietSafe(s: State, t: nat, a: Action)
    requires Good(s) && Quiet(s)
    ensures Step(s, t, a) != Crash
  {
    assert Open(0);
    CrashExactly(s, t, a);
    if PcOf(s, t).Denied? || PcOf(s, t).Loaded? {
      assert Late(PcOf(s, t), PcOf(s, t).m);
    }
  }

  /** No run crashes that keeps to the two rules. */
  lemma {:induction false} OrderlySafe(s: State, moves: seq<(nat, Action)>)
    requires Good(s) && Quiet(s) && Orderly(s, moves)
    ensures From(s, moves).Next? && Good(From(s, moves).s) && Quiet(From(s, moves).s) && Steady(s, moves)
    decreases |moves|
  {
    if moves != [] {
      QuietKept(s, moves[0].0, moves[0].1);
      OrderlySafe(Move(s, moves[0].0, moves[0].1).s, moves[1..]);
    }
  }

  // ---------------------------------------------------------------- everything can be brought to an end

  function FunctionsOf(s: State, m: nat): nat {
    if m in s.mods then |s.mods[m].functions| else 0
  }

  function Still(n: nat, i: nat): nat {
    if i < n then n - i else 0
  }

  /** At most as many steps does a thread have before it. */
  function Rest(s: State, pc: PC): nat {
    match pc
    case Idle => 0
    case Searching(_, _) => 8
    case Found(_, _) => 7
    case Locked(_, _) => 6
    case Admitted(_, _) => 5
    case Asked(_, _, _) => 4
    case Inside(_, _) => 3
    case Leaving(_, _) | Refused(_) => 1
    case Unloading(name) => 9 + if name in s.names then FunctionsOf(s, s.names[name]) else 0
    case Doomed(m) => 8 + FunctionsOf(s, m)
    case Exclusive(m) => 7 + FunctionsOf(s, m)
    case Stopped(m) => 6 + FunctionsOf(s, m)
    case Released(m) => 5 + FunctionsOf(s, m)
    case Unregistering(m, i) => 4 + Still(FunctionsOf(s, m), i)
    case Unregistered(_) => 3
    case Refusing(_) => 2
    case Gone(_) | Denied(_) | Rejecting => 1
    case Loading(_, functions, _) => 11 + |functions|
    case Created(_, m) => 10 + FunctionsOf(s, m)
    case Owned(_, m) => 9 + FunctionsOf(s, m)
    case Registering(_, m, i) => 8 + Still(FunctionsOf(s, m), i)
    case Registered(_, _) => 7
    case Added(_) => 6
    case Opened(_) => 5
    case Readying(_) => 4
    case Switching(_, _) => 2
    case Loaded(_) | Ready(_) | Switched => 1
  }

  /** What a thread may have to wait for. */
  predicate Waits(s: State, pc: PC) {
    || ((pc.Owned? || pc.Released?) && !Free(s.flock))
    || ((pc.Found? || pc.Opened?) && pc.m in s.mods && s.mods[pc.m].lock.writer.Some?)
    || (pc.Created? && pc.m in s.mods && !Unused(s.mods[pc.m].lock))
  }

  /** A thread that is under way waits for nothing else, and comes closer to its end. */
  ghost predicate Goes(s: State, t: nat) {
    match ThreadStep(s, t, Go)
    case Blocked => Waits(s, PcOf(s, t))
    case Crash => true
    case Next(r) => Rest(r, PcOf(r, t)) < Rest(s, PcOf(s, t))
  }

  lemma CallerGoes(s: State, t: nat)
    requires Calls(PcOf(s, t)) || PcOf(s, t).Searching? || PcOf(s, t).Refused?
    ensures Goes(s, t)
  {
  }

  lemma UnloaderGoes(s: State, t: nat)
    requires var pc := PcOf(s, t); pc.Unloading? || pc.Doomed? || pc.Refusing? || pc.Denied? || pc.Rejecting?
    ensures Goes(s, t)
  {
  }

  lemma StopperGoes(s: State, t: nat)
    requires var pc := PcOf(s, t); pc.Exclusive? || pc.Stopped? || pc.Released?
    ensures Goes(s, t)
  {
  }

  lemma DropperGoes(s: State, t: nat)
    requires var pc := PcOf(s, t); pc.Unregistering? || pc.Unregistered? || pc.Gone?
    ensures Goes(s, t)
  {
  }

  lemma LoaderGoes(s: State, t: nat)
    requires var pc := PcOf(s, t); pc.Loading? || pc.Created? || pc.Owned?
    ensures Goes(s, t)
  {
  }

  lemma RegistrarGoes(s: State, t: nat)
    requires var pc := PcOf(s, t); pc.Registering? || pc.Registered?
    ensures Goes(s, t)
  {
  }

  lemma OtherGoes(s: State, t: nat)
    requires var pc := PcOf(s, t); pc.Added? || pc.Opened? || pc.Loaded? || pc.Readying? || pc.Ready? || pc.Switching? || pc.Switched?
    ensures Goes(s, t)
  {
  }

  lemma ThreadGoes(s: State, t: nat)
    requires PcOf(s, t) != Idle
    ensures Goes(s, t)
  {
    var pc := PcOf(s, t);
    if Calls(pc) || pc.Searching? || pc.Refused? {
      CallerGoes(s, t);
    } else if pc.Unloading? || pc.Doomed? || pc.Refusing? || pc.Denied? || pc.Rejecting? {
      UnloaderGoes(s, t);
    } else if pc.Exclusive? || pc.Stopped? || pc.Released? {
      StopperGoes(s, t);
    } else if pc.Unregistering? || pc.Unregistered? || pc.Gone? {
      DropperGoes(s, t);
    } else if pc.Loading? || pc.Created? || pc.Owned? {
      LoaderGoes(s, t);
    } else if pc.Registering? || pc.Registered? {
      RegistrarGoes(s, t);
    } else {
      OtherGoes(s, t);
    }
  }

  lemma FunctionsStay(s: State, t: nat, r: State)
    requires RunEffect(s, t, r)
    ensures forall m :: m in s.mods ==> FunctionsOf(r, m) <= FunctionsOf(s, m)
  {
  }

  lemma RestOther(s: State, t: nat, r: State, u: nat)
    requires LocksOk(s) && RefsOk(s) && u != t && r.pcs == s.pcs[t := PcOf(r, t)] && (MlockRole(PcOf(s, t)) != Writer ==> r.names == s.names)
    requires forall m :: m in s.mods ==> FunctionsOf(r, m) <= FunctionsOf(s, m)
    ensures Rest(r, PcOf(r, u)) <= Rest(s, PcOf(s, u))
  {
    var pc := PcOf(s, u);
    assert PcOf(r, u) == pc;
    if pc.Unloading? {
      MlockAlone(s, u, t);
      assert pc.name in s.names ==> s.names[pc.name] in s.mods;
    } else {
      assert Touching(pc) ==> Touches(pc, pc.m);
      RestSame(s, r, pc);
    }
  }

  lemma RestSame(s: State, r: State, pc: PC)
    requires !pc.Unloading? && (Touching(pc) ==> FunctionsOf(r, pc.m) <= FunctionsOf(s, pc.m))
    ensures Rest(r, pc) <= Rest(s, pc)
  {
  }

  /** The steps that some threads have before them. */
  function Total(s: State, vs: seq<nat>): nat {
    if vs == [] then 0 else Rest(s, PcOf(s, vs[0])) + Total(s, vs[1..])
  }

  lemma {:induction false} TotalLess(s: State, r: State, vs: seq<nat>, v: nat)
    requires forall u :: u in vs ==> Rest(r, PcOf(r, u)) <= Rest(s, PcOf(s, u))
    requires Rest(r, PcOf(r, v)) < Rest(s, PcOf(s, v))
    ensures Total(r, vs) <= Total(s, vs) && (v in vs ==> Total(r, vs) < Total(s, vs))
  {
    if vs != [] {
      TotalLess(s, r, vs[1..], v);
    }
  }

  lemma {:induction false} Listed(vs: set<nat>) returns (q: seq<nat>)
    ensures forall u :: u in q <==> u in vs
  {
    if vs == {} {
      q := [];
    } else {
      var v :| v in vs;
      q := Listed(vs - {v});
      q := [v] + q;
    }
  }

  /** The threads `vs` are all that are under way, apart from some that wait outside of all locks but
      `mlock`. */
  ghost predicate Driven(s: State, vs: seq<nat>, keep: set<nat>) {
    && (forall u: nat :: u in vs || u in keep || PcOf(s, u) == Idle)
    && (forall u :: u in vs ==> u !in keep)
    && (forall u :: u in keep ==> PcOf(s, u) == Idle || PcOf(s, u).Unloading? || PcOf(s, u).Denied? || PcOf(s, u).Loaded?)
  }

  lemma NoModWriter(s: State, m: nat)
    requires LocksOk(s) && m in s.mods && forall w: nat :: !ModWriter(PcOf(s, w), m)
    ensures s.mods[m].lock.writer.None?
  {
    assert ModHeld(s, m);
  }

  lemma NoReaders(s: State, m: nat)
    requires LocksOk(s) && m in s.mods && (forall u: nat :: !ModReader(PcOf(s, u), m)) && (forall k: nat :: !HoldsAt(s, k, m))
    ensures s.mods[m].lock.readers == 0
  {
    assert ModHeld(s, m);
    assert forall u :: u in s.pcs ==> s.pcs[u] == PcOf(s, u);
    assert forall k :: k in s.tasks ==> !HoldsAt(s, k, m);
    assert Those(s.pcs, ReaderOf(m)) == {} && Those(s.tasks, HolderOf(m)) == {};
  }

  lemma FlockFree(s: State)
    requires LocksOk(s) && forall u: nat :: FlockRole(PcOf(s, u)) == Out
    ensures Free(s.flock)
  {
    assert forall u: nat :: u in s.flock.readers ==> FlockRole(PcOf(s, u)) == Reader;
    assert forall u: nat :: s.flock.writer == Some(u) ==> FlockRole(PcOf(s, u)) == Writer;
  }

  /** The lock of a new module is free. */
  lemma NewLockFree(s: State, w: nat)
    requires LocksOk(s) && BuildingOk(s, w) && PcOf(s, w).Created? && PcOf(s, w).m in s.mods
    ensures Unused(s.mods[PcOf(s, w).m].lock)
  {
    var m := PcOf(s, w).m;
    forall u: nat
      ensures !ModReader(PcOf(s, u), m) && !ModWriter(PcOf(s, u), m)
    {
      assert u != w ==> !Touches(PcOf(s, u), m);
    }
    NoModWriter(s, m);
    NoReaders(s, m);
  }

  /** Only the writer of `mlock` has the lock of a module for writing. */
  lemma OtherModWriter(s: State, w: nat, m: nat)
    requires LocksOk(s) && MlockRole(PcOf(s, w)) == Writer && !ModWriter(PcOf(s, w), m) && m in s.mods
    ensures s.mods[m].lock.writer.None?
  {
    forall u: nat
      ensures !ModWriter(PcOf(s, u), m)
    {
      if u != w {
        MlockAlone(s, w, u);
      }
    }
    NoModWriter(s, m);
  }

  /** A loader or unloader waits for nothing but the readers of `flock`. */
  lemma WriterGoes(s: State, w: nat)
    requires Good(s) && MlockRole(PcOf(s, w)) == Writer && (PcOf(s, w).Owned? || PcOf(s, w).Released? ==> Free(s.flock))
    ensures !Waits(s, PcOf(s, w))
  {
    assert Open(0);
    assert BuildingOk(s, w);
    var pc := PcOf(s, w);
    if pc.Created? && pc.m in s.mods {
      NewLockFree(s, w);
    } else if pc.Opened? && pc.m in s.mods {
      OtherModWriter(s, w, pc.m);
    }
  }

  /** A thread that calls a function does not wait for a loader or unloader that waits for `flock`. */
  lemma FoundGoes(s: State, w: nat, v: nat)
    requires Good(s) && (PcOf(s, w).Owned? || PcOf(s, w).Released?) && PcOf(s, v).Found?
    ensures !Waits(s, PcOf(s, v))
  {
    assert Open(0);
    assert BuildingOk(s, w);
    FoundOther(s, w, v);
  }

  lemma FoundOther(s: State, w: nat, v: nat)
    requires LocksOk(s) && CallsOk(s) && BuildingOk(s, w) && (PcOf(s, w).Owned? || PcOf(s, w).Released?) && PcOf(s, v).Found?
    ensures !Waits(s, PcOf(s, v))
  {
    var m := PcOf(s, v).m;
    assert Calls(PcOf(s, v)) && (m, PcOf(s, v).f) in s.regs;
    if m in s.mods {
      OtherModWriter(s, w, m);
    }
  }

  /** Without a loader or unloader under way nobody waits. */
  lemma NobodyWrites(s: State, v: nat)
    requires Good(s) && PcOf(s, v).Found? && forall w: nat :: MlockRole(PcOf(s, w)) == Writer ==> PcOf(s, w).Unloading?
    ensures !Waits(s, PcOf(s, v))
  {
    assert Open(0);
    NoneWrites(s, v);
  }

  lemma NoneWrites(s: State, v: nat)
    requires LocksOk(s) && PcOf(s, v).Found? && forall w: nat :: MlockRole(PcOf(s, w)) == Writer ==> PcOf(s, w).Unloading?
    ensures !Waits(s, PcOf(s, v))
  {
    var m := PcOf(s, v).m;
    forall w: nat
      ensures !ModWriter(PcOf(s, w), m)
    {
      assert ModWriter(PcOf(s, w), m) ==> MlockRole(PcOf(s, w)) == Writer;
    }
    if m in s.mods {
      NoModWriter(s, m);
    }
  }

  lemma GoAllowed(s: State, v: nat)
    requires PcOf(s, v) != Idle && (PcOf(s, v).Switching? ==> forall u: nat :: !PcOf(s, u).Asked?)
    ensures Allowed(s, v, Go)
  {
  }

  /** Some thread that is under way can go on, and does not stop a module while a task asks for it. */
  lemma NextMove(s: State, vs: seq<nat>, keep: set<nat>, b: nat) returns (v: nat)
    requires Good(s) && Driven(s, vs, keep) && b in vs && PcOf(s, b) != Idle
    ensures v in vs && PcOf(s, v) != Idle && !Waits(s, PcOf(s, v)) && Allowed(s, v, Go)
  {
    if u: nat :| PcOf(s, u).Asked? {
      v := u;
    } else if u: nat :| u in vs && PcOf(s, u) != Idle && MlockRole(PcOf(s, u)) != Writer && !PcOf(s, u).Found? {
      v := u;
    } else if w: nat :| w in vs && MlockRole(PcOf(s, w)) == Writer {
      v := WriterMove(s, vs, keep, w);
    } else {
      v := b;
      NobodyWrites(s, v);
    }
    GoAllowed(s, v);
  }

  lemma WriterMove(s: State, vs: seq<nat>, keep: set<nat>, w: nat) returns (v: nat)
    requires Good(s) && Driven(s, vs, keep) && w in vs && MlockRole(PcOf(s, w)) == Writer
    ensures v in vs && PcOf(s, v) != Idle && !PcOf(s, v).Switching? && !Waits(s, PcOf(s, v))
  {
    if (PcOf(s, w).Owned? || PcOf(s, w).Released?) && exists u: nat :: FlockRole(PcOf(s, u)) != Out {
      var u: nat :| FlockRole(PcOf(s, u)) != Out;
      v := u;
      FlockOther(s, w, v);
      if PcOf(s, v).Found? {
        FoundGoes(s, w, v);
      }
    } else {
      v := w;
      if PcOf(s, w).Owned? || PcOf(s, w).Released? {
        GoodFlockFree(s);
      }
      WriterGoes(s, w);
    }
  }

  /** While somebody waits for `flock` only its readers have it. */
  lemma FlockOther(s: State, w: nat, v: nat)
    requires Good(s) && (PcOf(s, w).Owned? || PcOf(s, w).Released?) && FlockRole(PcOf(s, v)) != Out
    ensures FlockRole(PcOf(s, v)) == Reader
  {
    assert Open(0);
    if v != w {
      MlockAlone(s, w, v);
    }
  }

  lemma GoodFlockFree(s: State)
    requires Good(s) && forall u: nat :: FlockRole(PcOf(s, u)) == Out
    ensures Free(s.flock)
  {
    assert Open(0);
    FlockFree(s);
  }

  /** No deadlock: in every reachable state in which some thread is under way, such a thread can go on. */
  lemma DeadlockFree(moves: seq<(nat, Action)>, s: State, b: nat) returns (v: nat)
    requires Steady(Start(), moves) && After(moves) == Next(s) && PcOf(s, b) != Idle
    ensures PcOf(s, v) != Idle && !Step(s, v, Go).Blocked?
  {
    Reached(moves, s);
    var vs := Listed(set u | u in s.pcs);
    v := NextMove(s, vs, {}, b);
    ThreadGoes(s, v);
  }

  /** What the moves of other threads leave as it is. */
  ghost predicate Kept(s: State, r: State, keep: set<nat>) {
    && (forall u :: u in keep ==> PcOf(r, u) == PcOf(s, u))
    && ((exists u :: u in keep && PcOf(s, u).Unloading?) ==> r.names == s.names)
    && (forall k :: k in s.tasks && s.tasks[k].stage == Ignored ==> k in r.tasks && r.tasks[k] == s.tasks[k])
  }

  lemma KeptOn(s: State, r: State, q: State, keep: set<nat>)
    requires Kept(s, r, keep) && Kept(r, q, keep)
    ensures Kept(s, q, keep)
  {
    if u :| u in keep && PcOf(s, u).Unloading? {
      assert PcOf(r, u).Unloading?;
    }
  }

  lemma StepKeeps(s: State, v: nat, keep: set<nat>, r: State)
    requires LocksOk(s) && v !in keep && (MlockRole(PcOf(s, v)) != Writer ==> r.names == s.names)
    requires r.pcs == s.pcs[v := PcOf(r, v)]
    requires forall k :: k in s.tasks && s.tasks[k].stage == Ignored ==> k in r.tasks && r.tasks[k] == s.tasks[k]
    ensures Kept(s, r, keep)
  {
    if u :| u in keep && PcOf(s, u).Unloading? {
      MlockAlone(s, u, v);
    }
  }

  lemma IgnoredStays(s: State, v: nat, r: State)
    requires TasksOk(s) && AskedOk(s) && TaskEffect(s, v, r)
    ensures forall k :: k in s.tasks && s.tasks[k].stage == Ignored ==> k in r.tasks && r.tasks[k] == s.tasks[k]
  {
  }

  /** One move of a thread that can go on. */
  lemma DrainStep(s: State, vs: seq<nat>, keep: set<nat>, v: nat)
    requires Good(s) && Driven(s, vs, keep) && v in vs && PcOf(s, v) != Idle && !Waits(s, PcOf(s, v))
    ensures var o := Move(s, v, Go);
      o == Crash || (o.Next? && Good(o.s) && Driven(o.s, vs, keep) && Kept(s, o.s, keep) && Total(o.s, vs) < Total(s, vs))
  {
    ThreadGoes(s, v);
    MoveOk(s, v, Go);
    if Step(s, v, Go).Next? {
      var r := Step(s, v, Go).s;
      DrainEffect(s, v, keep, r);
      assert forall u: nat :: u != v ==> PcOf(r, u) == PcOf(s, u);
      TotalLess(s, r, vs, v);
    }
  }

  lemma DrainEffect(s: State, v: nat, keep: set<nat>, r: State)
    requires Good(s) && v !in keep && ThreadStep(s, v, Go) == Next(r)
    ensures Kept(s, r, keep) && r.pcs == s.pcs[v := PcOf(r, v)]
    ensures forall u: nat :: u != v ==> Rest(r, PcOf(r, u)) <= Rest(s, PcOf(s, u))
  {
    assert Open(0);
    StepDone(s, v, Go);
    IgnoredStays(s, v, r);
    StepKeeps(s, v, keep, r);
    FunctionsStay(s, v, r);
    forall u: nat | u != v
      ensures Rest(r, PcOf(r, u)) <= Rest(s, PcOf(s, u))
    {
      RestOther(s, v, r, u);
    }
  }

  /** The thread or task has moved without a crash. */
  ghost predicate Brought(s: State, moves: seq<(nat, Action)>, r: State) {
    Orderly(s, moves) && From(s, moves) == Next(r)
  }

  lemma BroughtOne(s: State, t: nat, a: Action, r: State)
    requires Allowed(s, t, a) && Move(s, t, a) == Next(r)
    ensures Brought(s, [(t, a)], r)
  {
    assert [(t, a)][1..] == [];
  }

  lemma {:induction false} OrderlyConcat(s: State, a: seq<(nat, Action)>, b: seq<(nat, Action)>, r: State)
    requires Brought(s, a, r) && Orderly(r, b)
    ensures Orderly(s, a + b)
    decreases |a|
  {
    if a == [] {
      assert a + b == b;
    } else {
      assert (a + b)[0] == a[0] && (a + b)[1..] == a[1..] + b;
      OrderlyConcat(Move(s, a[0].0, a[0].1).s, a[1..], b, r);
    }
  }

  lemma BroughtOn(s: State, a: seq<(nat, Action)>, r: State, b: seq<(nat, Action)>, q: State)
    requires Brought(s, a, r) && Brought(r, b, q)
    ensures Brought(s, a + b, q)
  {
    OrderlyConcat(s, a, b, r);
    FromConcat(s, a, b);
  }

  /** A run that keeps to the rules and crashes. */
  ghost predicate Crashes(s: State, moves: seq<(nat, Action)>) {
    Orderly(s, moves) && From(s, moves) == Crash
  }

  lemma CrashesOn(s: State, a: seq<(nat, Action)>, r: State, b: seq<(nat, Action)>)
    requires Brought(s, a, r) && Crashes(r, b)
    ensures Crashes(s, a + b)
  {
    OrderlyConcat(s, a, b, r);
    FromConcat(s, a, b);
  }

  lemma CrashesOne(s: State, t: nat, a: Action)
    requires Allowed(s, t, a) && Move(s, t, a) == Crash
    ensures Crashes(s, [(t, a)])
  {
    assert [(t, a)][0] == (t, a);
  }

  /** All threads but those kept are idle. */
  ghost predicate Drained(s: State, keep: set<nat>) {
    && Good(s) && (forall u: nat :: u in keep || PcOf(s, u) == Idle)
    && (forall u :: u in keep ==> PcOf(s, u) == Idle || PcOf(s, u).Unloading? || PcOf(s, u).Denied? || PcOf(s, u).Loaded?)
  }

  /** From every state all threads that are under way can come to their end, unless they crash. */
  lemma {:induction false} Drain(s: State, vs: seq<nat>, keep: set<nat>) returns (more: seq<(nat, Action)>, r: State)
    requires Good(s) && Driven(s, vs, keep)
    ensures Crashes(s, more) || (Brought(s, more, r) && Drained(r, keep) && Kept(s, r, keep))
    decreases Total(s, vs)
  {
    if b: nat :| b in vs && PcOf(s, b) != Idle {
      var v := NextMove(s, vs, keep, b);
      DrainStep(s, vs, keep, v);
      if Move(s, v, Go) == Crash {
        more, r := [(v, Go)], s;
        CrashesOne(s, v, Go);
      } else {
        var q := Move(s, v, Go).s;
        BroughtOne(s, v, Go, q);
        more, r := Drain(q, vs, keep);
        if Crashes(q, more) {
          CrashesOn(s, [(v, Go)], q, more);
        } else {
          BroughtOn(s, [(v, Go)], q, more, r);
          KeptOn(s, q, r, keep);
        }
        more := [(v, Go)] + more;
      }
    } else {
      more, r := [], s;
    }
  }

  // ---------------------------------------------------------------- tasks come to their end

  /** Nothing has changed but tasks and the counts of modules. */
  ghost predicate TasksOnly(s: State, r: State) {
    && r == s.(mods := r.mods, tasks := r.tasks)
    && (forall m :: m in r.mods <==> m in s.mods)
    && (forall k :: k in s.tasks && s.tasks[k].stage == Ignored ==> k in r.tasks && r.tasks[k] == s.tasks[k])
  }

  lemma EndOnce(s: State, k: nat) returns (r: State)
    requires Good(s) && k in s.tasks && s.tasks[k].stage == Granted
    ensures Move(s, 0, End(k)) == Next(r) && Good(r) && TasksOnly(s, r)
    ensures r.tasks == if s.tasks[k].left then s.tasks - {k} else s.tasks[k := s.tasks[k].(left := true)]
  {
    MoveOk(s, 0, End(k));
    TaskHolds(s, k);
    r := Move(s, 0, End(k)).s;
  }

  lemma EndTask(s: State, k: nat) returns (more: seq<(nat, Action)>, r: State)
    requires Good(s) && k in s.tasks && s.tasks[k].stage == Granted
    ensures Brought(s, more, r) && Good(r) && TasksOnly(s, r) && r.tasks == s.tasks - {k}
  {
    r := EndOnce(s, k);
    BroughtOne(s, 0, End(k), r);
    more := [(0, End(k))];
    if !s.tasks[k].left {
      var q := EndOnce(r, k);
      BroughtOne(r, 0, End(k), q);
      BroughtOn(s, more, r, more, q);
      more, r := more + more, q;
    }
  }

  /** All tasks that have the lock of the module end. */
  lemma {:induction false} DrainTasks(s: State, m: nat) returns (more: seq<(nat, Action)>, r: State)
    requires Good(s) && forall k :: k in s.tasks ==> s.tasks[k].stage != Pending
    ensures Brought(s, more, r) && Good(r) && TasksOnly(s, r) && forall k: nat :: !HoldsAt(r, k, m)
    decreases |s.tasks|
  {
    if k: nat :| HoldsAt(s, k, m) {
      var q;
      more, q := EndTask(s, k);
      var rest;
      rest, r := DrainTasks(q, m);
      BroughtOn(s, more, q, rest, r);
      more := more + rest;
    } else {
      more, r := [], s;
    }
  }

  /** While no thread asks for a task none is pending. */
  lemma NonePending(s: State, keep: set<nat>)
    requires Drained(s, keep)
    ensures forall k :: k in s.tasks ==> s.tasks[k].stage != Pending
  {
    assert Open(0);
    forall u: nat
      ensures !PcOf(s, u).Asked?
    {
      assert u in keep || PcOf(s, u) == Idle;
    }
  }

  /** With nobody under way, and no task in the module, the locks that an unload needs are free. */
  lemma LocksFree(s: State, keep: set<nat>, m: nat)
    requires Drained(s, keep) && m in s.mods && forall k: nat :: !HoldsAt(s, k, m)
    ensures Free(s.flock) && Unused(s.mods[m].lock)
    ensures (forall u :: u in keep ==> !PcOf(s, u).Unloading?) ==> Free(s.mlock)
  {
    assert Open(0);
    KeptRoles(s, keep, m);
    AllFree(s, m);
    if forall u :: u in keep ==> !PcOf(s, u).Unloading? {
      MlockFree(s);
    }
  }

  lemma KeptRoles(s: State, keep: set<nat>, m: nat)
    requires forall u: nat :: u in keep || PcOf(s, u) == Idle
    requires forall u :: u in keep ==> PcOf(s, u) == Idle || PcOf(s, u).Unloading? || PcOf(s, u).Denied? || PcOf(s, u).Loaded?
    ensures forall u: nat :: FlockRole(PcOf(s, u)) == Out && !ModReader(PcOf(s, u), m) && !ModWriter(PcOf(s, u), m)
    ensures (forall u :: u in keep ==> !PcOf(s, u).Unloading?) ==> forall u: nat :: MlockRole(PcOf(s, u)) == Out
  {
    forall u: nat
      ensures FlockRole(PcOf(s, u)) == Out && !ModReader(PcOf(s, u), m) && !ModWriter(PcOf(s, u), m)
      ensures !PcOf(s, u).Unloading? ==> MlockRole(PcOf(s, u)) == Out
    {
      assert u in keep || PcOf(s, u) == Idle;
    }
    if forall u :: u in keep ==> !PcOf(s, u).Unloading? {
      assert forall u: nat :: !PcOf(s, u).Unloading?;
    }
  }

  lemma AllFree(s: State, m: nat)
    requires LocksOk(s) && m in s.mods && forall k: nat :: !HoldsAt(s, k, m)
    requires forall u: nat :: FlockRole(PcOf(s, u)) == Out && !ModReader(PcOf(s, u), m) && !ModWriter(PcOf(s, u), m)
    ensures Free(s.flock) && Unused(s.mods[m].lock)
  {
    FlockFree(s);
    NoModWriter(s, m);
    NoReaders(s, m);
  }

  lemma MlockFree(s: State)
    requires LocksOk(s) && forall u: nat :: MlockRole(PcOf(s, u)) == Out
    ensures Free(s.mlock)
  {
    assert forall u: nat :: u in s.mlock.readers ==> MlockRole(PcOf(s, u)) == Reader;
    assert forall u: nat :: s.mlock.writer == Some(u) ==> MlockRole(PcOf(s, u)) == Writer;
  }

  // ---------------------------------------------------------------- an unload that nobody disturbs

  /** Only the thread `t` has moved. */
  ghost predicate OnlyBy(s: State, r: State, t: nat) {
    r.tasks == s.tasks && r.tnext == s.tnext && r.pcs == s.pcs[t := PcOf(r, t)]
  }

  lemma Rest1(fs: seq<nat>, i: nat)
    requires i < |fs|
    ensures fs[i..] == [fs[i]] + fs[i + 1..]
  {
  }

  lemma OnlyByOn(s: State, q: State, r: State, t: nat)
    requires OnlyBy(s, q, t) && OnlyBy(q, r, t)
    ensures OnlyBy(s, r, t)
  {
  }

  /** The thread `t` has changed only the module `m` and its own place and locks. */
  ghost predicate Opens(s: State, r: State, t: nat, m: nat) {
    && OnlyBy(s, r, t) && m in s.mods && m in r.mods && r.mods[m].functions == s.mods[m].functions
    && r == s.(flock := r.flock, mods := s.mods[m := r.mods[m]], pcs := r.pcs)
  }

  lemma OpensOn(s: State, q: State, r: State, t: nat, m: nat)
    requires Opens(s, q, t, m) && Opens(q, r, t, m)
    ensures Opens(s, r, t, m)
  {
  }

  /** One more step of an unload. */
  lemma UnloadOne(s: State, t: nat, m: nat) returns (r: State)
    requires var pc := PcOf(s, t);
      && m in s.mods && Free(s.flock)
      && ((pc.Unloading? && pc.name in s.names && s.names[pc.name] == m) || (pc == Doomed(m) && Unused(s.mods[m].lock))
          || pc == Exclusive(m) || pc == Stopped(m) || pc == Released(m))
    ensures Brought(s, [(t, Go)], r) && Opens(s, r, t, m)
    ensures var pc := PcOf(s, t);
      && (pc.Unloading? ==> PcOf(r, t) == Doomed(m) && r.mods == s.mods && r.flock == s.flock)
      && (pc.Doomed? ==> PcOf(r, t) == Exclusive(m) && r.flock == s.flock)
      && (pc.Exclusive? ==> PcOf(r, t) == Stopped(m) && r.flock == s.flock)
      && (pc.Stopped? ==> PcOf(r, t) == Released(m) && r.flock == s.flock)
      && (pc.Released? ==> PcOf(r, t) == Unregistering(m, 0) && r.flock == s.flock.(writer := Some(t)))
  {
    r := Move(s, t, Go).s;
    BroughtOne(s, t, Go, r);
  }

  lemma UnloadTwo(s: State, t: nat, m: nat) returns (more: seq<(nat, Action)>, r: State)
    requires PcOf(s, t).Unloading? && PcOf(s, t).name in s.names && s.names[PcOf(s, t).name] == m && m in s.mods
    requires Free(s.flock) && Unused(s.mods[m].lock)
    ensures Brought(s, more, r) && Opens(s, r, t, m) && PcOf(r, t) == Exclusive(m) && r.flock == s.flock
  {
    var s1 := UnloadOne(s, t, m);
    r := UnloadOne(s1, t, m);
    OpensOn(s, s1, r, t, m);
    BroughtOn(s, [(t, Go)], s1, [(t, Go)], r);
    more := [(t, Go)] + [(t, Go)];
  }

  lemma UnloadStops(s: State, t: nat, m: nat) returns (more: seq<(nat, Action)>, r: State)
    requires PcOf(s, t) == Exclusive(m) && m in s.mods && Free(s.flock)
    ensures Brought(s, more, r) && Opens(s, r, t, m) && PcOf(r, t) == Unregistering(m, 0) && r.flock == s.flock.(writer := Some(t))
  {
    var s1 := UnloadOne(s, t, m);
    var s2 := UnloadOne(s1, t, m);
    r := UnloadOne(s2, t, m);
    OpensOn(s, s1, s2, t, m);
    OpensOn(s, s2, r, t, m);
    BroughtOn(s, [(t, Go)], s1, [(t, Go)], s2);
    BroughtOn(s, [(t, Go)] + [(t, Go)], s2, [(t, Go)], r);
    more := [(t, Go)] + [(t, Go)] + [(t, Go)];
  }

  /** Those of the functions that belong to the module `m` have left the table. */
  ghost predicate Emptied(s: State, m: nat, fs: seq<nat>, r: State) {
    && (forall p: (nat, nat) :: p in r.regs <==> p in s.regs && !(p.0 == m && p.1 in fs))
    && (forall f :: f in r.table <==> f in s.table && !((m, f) in s.regs && f in fs))
    && (forall f :: f in r.table ==> r.table[f] == s.table[f])
  }

  lemma EmptiedOn(s: State, m: nat, f: nat, fs: seq<nat>, q: State, r: State)
    requires q.regs == s.regs - {(m, f)} && q.table == if (m, f) in s.regs then s.table - {f} else s.table
    requires Emptied(q, m, fs, r)
    ensures Emptied(s, m, [f] + fs, r)
  {
    assert forall g :: g in [f] + fs <==> g == f || g in fs;
  }

  lemma DropOnce(s: State, t: nat, m: nat, i: nat) returns (r: State)
    requires PcOf(s, t) == Unregistering(m, i) && m in s.mods && i < |s.mods[m].functions|
    ensures Brought(s, [(t, Go)], r) && OnlyBy(s, r, t) && r == s.(regs := r.regs, table := r.table, pcs := r.pcs)
    ensures PcOf(r, t) == Unregistering(m, i + 1)
    ensures var f := s.mods[m].functions[i]; r.regs == s.regs - {(m, f)} && r.table == if (m, f) in s.regs then s.table - {f} else s.table
  {
    r := Move(s, t, Go).s;
    BroughtOne(s, t, Go, r);
  }

  lemma DropEnds(s: State, t: nat, m: nat) returns (r: State)
    requires m in s.mods && PcOf(s, t) == Unregistering(m, |s.mods[m].functions|)
    ensures Brought(s, [(t, Go)], r) && OnlyBy(s, r, t) && PcOf(r, t) == Unregistered(m) && r == s.(flock := s.flock.(writer := None), pcs := r.pcs)
  {
    r := Move(s, t, Go).s;
    BroughtOne(s, t, Go, r);
  }

  lemma {:induction false} UnloadDrops(s: State, t: nat, m: nat, i: nat) returns (more: seq<(nat, Action)>, r: State)
    requires PcOf(s, t) == Unregistering(m, i) && m in s.mods && i <= |s.mods[m].functions|
    ensures Brought(s, more, r) && OnlyBy(s, r, t) && PcOf(r, t) == Unregistered(m)
    ensures r == s.(flock := s.flock.(writer := None), regs := r.regs, table := r.table, pcs := r.pcs) && Emptied(s, m, s.mods[m].functions[i..], r)
    decreases |s.mods[m].functions| - i
  {
    var fs := s.mods[m].functions;
    if i == |fs| {
      r := DropEnds(s, t, m);
      more := [(t, Go)];
    } else {
      var q := DropOnce(s, t, m, i);
      more, r := UnloadDrops(q, t, m, i + 1);
      OnlyByOn(s, q, r, t);
      BroughtOn(s, [(t, Go)], q, more, r);
      Rest1(fs, i);
      EmptiedOn(s, m, fs[i], fs[i + 1..], q, r);
      more := [(t, Go)] + more;
    }
  }

  lemma UnloadFrees(s: State, t: nat, m: nat) returns (r: State)
    requires PcOf(s, t) == Unregistered(m)
    ensures Brought(s, [(t, Go)], r) && OnlyBy(s, r, t) && PcOf(r, t) == Gone(m)
    ensures r == s.(mods := s.mods - {m}, names := s.names - (set n | n in s.names && s.names[n] == m), pcs := r.pcs)
  {
    r := Move(s, t, Go).s;
    BroughtOne(s, t, Go, r);
  }

  /** The module `m` is gone with its names and functions; `mlock` is still held. */
  ghost predicate Freed(s: State, t: nat, m: nat, r: State)
    requires m in s.mods
  {
    && PcOf(r, t) == Gone(m) && Emptied(s, m, s.mods[m].functions, r)
    && r == s.(pcs := r.pcs, mods := s.mods - {m}, names := s.names - (set n | n in s.names && s.names[n] == m), flock := r.flock, table := r.table, regs := r.regs)
  }

  /** An unload that finds the locks free frees the module. */
  lemma UnloadAlone(s: State, t: nat, m: nat) returns (more: seq<(nat, Action)>, r: State)
    requires PcOf(s, t).Unloading? && PcOf(s, t).name in s.names && s.names[PcOf(s, t).name] == m && m in s.mods
    requires Free(s.flock) && Unused(s.mods[m].lock)
    ensures Brought(s, more, r) && OnlyBy(s, r, t) && Freed(s, t, m, r) && r.flock == s.flock && m !in r.mods
  {
    var a, s1 := UnloadTwo(s, t, m);
    var b, s2 := UnloadStops(s1, t, m);
    OpensOn(s, s1, s2, t, m);
    BroughtOn(s, a, s1, b, s2);
    var c, s3 := UnloadRest(s2, t, m);
    BroughtOn(s, a + b, s2, c, s3);
    OnlyByOn(s, s2, s3, t);
    assert s2.mods - {m} == s.mods - {m};
    more, r := a + b + c, s3;
  }

  lemma UnloadRest(s: State, t: nat, m: nat) returns (more: seq<(nat, Action)>, r: State)
    requires PcOf(s, t) == Unregistering(m, 0) && m in s.mods
    ensures Brought(s, more, r) && OnlyBy(s, r, t) && Freed(s, t, m, r) && r.flock == s.flock.(writer := None)
  {
    var c, q := UnloadDrops(s, t, m, 0);
    assert s.mods[m].functions[0..] == s.mods[m].functions;
    r := UnloadFrees(q, t, m);
    OnlyByOn(s, q, r, t);
    BroughtOn(s, c, q, [(t, Go)], r);
    more := c + [(t, Go)];
  }

  // ---------------------------------------------------------------- the rules are exact

  /** The thread `t` is about to unload the module `m`, and `u` has yet to read it without a lock. */
  ghost predicate Hunting(s: State, t: nat, u: nat, m: nat) {
    && Good(s) && PcOf(s, t).Unloading? && PcOf(s, t).name in s.names && s.names[PcOf(s, t).name] == m
    && Late(PcOf(s, u), m)
  }

  lemma Everybody(s: State, keep: set<nat>) returns (vs: seq<nat>)
    requires forall u :: u in keep ==> PcOf(s, u) == Idle || PcOf(s, u).Unloading? || PcOf(s, u).Denied? || PcOf(s, u).Loaded?
    ensures Driven(s, vs, keep)
  {
    vs := Listed(set u | u in s.pcs && u !in keep);
  }

  lemma NamedThere(s: State, n: nat)
    requires Good(s) && n in s.names
    ensures s.names[n] in s.mods
  {
    assert Open(0);
  }

  /** A module that is hunted while a thread has yet to read it can be freed before that. */
  lemma HuntCrashes(s: State, t: nat, u: nat, m: nat) returns (more: seq<(nat, Action)>)
    requires Hunting(s, t, u, m)
    ensures Crashes(s, more)
  {
    var vs := Everybody(s, {t, u});
    var a, r := Drain(s, vs, {t, u});
    if Crashes(s, a) {
      more := a;
    } else {
      var b := HuntAlone(r, t, u, m);
      CrashesOn(s, a, r, b);
      more := a + b;
    }
  }

  lemma HuntAlone(s: State, t: nat, u: nat, m: nat) returns (more: seq<(nat, Action)>)
    requires Hunting(s, t, u, m) && Drained(s, {t, u})
    ensures Crashes(s, more)
  {
    NonePending(s, {t, u});
    var a, s1 := DrainTasks(s, m);
    NamedThere(s1, PcOf(s1, t).name);
    assert forall w: nat :: PcOf(s1, w) == PcOf(s, w);
    LocksFree(s1, {t, u}, m);
    var b, s2 := UnloadAlone(s1, t, m);
    CrashesOne(s2, u, Go);
    BroughtOn(s, a, s1, b, s2);
    CrashesOn(s, a + b, s2, [(u, Go)]);
    more := a + b + [(u, Go)];
  }

  /** A task whose use of its module was refused runs on. */
  ghost predicate Misled(s: State, k: nat) {
    Good(s) && k in s.tasks && s.tasks[k].stage == Ignored && !s.tasks[k].left
  }

  /** The module of such a task can be freed while it runs. */
  lemma MisledCrashes(s: State, k: nat) returns (more: seq<(nat, Action)>)
    requires Misled(s, k)
    ensures Crashes(s, more)
  {
    var m := s.tasks[k].m;
    var vs := Everybody(s, {});
    var a, s1 := Drain(s, vs, {});
    if Crashes(s, a) {
      more := a;
    } else if m !in s1.mods {
      CrashesOne(s1, 0, Work(k));
      CrashesOn(s, a, s1, [(0, Work(k))]);
      more := a + [(0, Work(k))];
    } else {
      NonePending(s1, {});
      var b, s2 := DrainTasks(s1, m);
      assert forall w: nat :: PcOf(s2, w) == PcOf(s1, w);
      var c := IdleCrashes(s2, k, m);
      BroughtOn(s, a, s1, b, s2);
      CrashesOn(s, a + b, s2, c);
      more := a + b + c;
    }
  }

  lemma IdleCrashes(s: State, k: nat, m: nat) returns (more: seq<(nat, Action)>)
    requires Misled(s, k) && s.tasks[k].m == m && m in s.mods && Drained(s, {}) && forall k: nat :: !HoldsAt(s, k, m)
    ensures Crashes(s, more)
  {
    LocksFree(s, {}, m);
    var n := NameOf(s, k);
    var s1 := Move(s, 0, Unload(n)).s;
    BroughtOne(s, 0, Unload(n), s1);
    var b, s2 := UnloadAlone(s1, 0, m);
    CrashesOne(s2, 0, Work(k));
    BroughtOn(s, [(0, Unload(n))], s1, b, s2);
    CrashesOn(s, [(0, Unload(n))] + b, s2, [(0, Work(k))]);
    more := [(0, Unload(n))] + b + [(0, Work(k))];
  }

  lemma NameOf(s: State, k: nat) returns (n: nat)
    requires Good(s) && k in s.tasks && s.tasks[k].m in s.mods
    ensures n in s.names && s.names[n] == s.tasks[k].m
  {
    assert Open(0);
    n :| n in s.names && s.names[n] == s.tasks[k].m;
  }

  /** A thread asks for a task while its module is stopped. */
  lemma AskedCrashes(s: State, u: nat, m: nat) returns (more: seq<(nat, Action)>)
    requires Good(s) && AskedIn(PcOf(s, u), m) && m in s.mods && !s.mods[m].run
    ensures Crashes(s, more)
  {
    var r := Move(s, u, Go).s;
    MoveOk(s, u, Go);
    BroughtOne(s, u, Go, r);
    more := MisledCrashes(r, PcOf(s, u).k);
    CrashesOn(s, [(u, Go)], r, more);
    more := [(u, Go)] + more;
  }

  /** No continuation that keeps to the rules crashes. */
  ghost predicate SafeAhead(s: State) {
    forall more :: Orderly(s, more) ==> From(s, more) != Crash
  }

  lemma KeptSafe(s: State, t: nat, a: Action)
    requires Good(s) && Quiet(s) && Allowed(s, t, a)
    ensures Move(s, t, a).Next? && SafeAhead(Move(s, t, a).s)
  {
    QuietKept(s, t, a);
    var r := Move(s, t, a).s;
    forall more | Orderly(r, more)
      ensures From(r, more) != Crash
    {
      OrderlySafe(r, more);
    }
  }

  lemma BrokenUnsafe(s: State, t: nat, a: Action)
    requires Good(s) && Quiet(s) && !Allowed(s, t, a)
    ensures Move(s, t, a).Next? && !SafeAhead(Move(s, t, a).s)
  {
    var more := BrokenCrashes(s, t, a);
    var r := Move(s, t, a).s;
    assert Orderly(r, more) && From(r, more) == Crash;
  }

  lemma OrderlyReached(moves: seq<(nat, Action)>, s: State)
    requires Orderly(Start(), moves) && After(moves) == Next(s)
    ensures Good(s) && Quiet(s)
  {
    StartOk();
    OrderlySafe(Start(), moves);
  }

  /** The rules are exact: in a run that has kept to them, a move keeps to them if and only if no
      continuation that keeps to them crashes. */
  lemma RuleExact(moves: seq<(nat, Action)>, s: State, t: nat, a: Action)
    requires Orderly(Start(), moves) && After(moves) == Next(s)
    ensures Move(s, t, a).Next? && (Allowed(s, t, a) <==> SafeAhead(Move(s, t, a).s))
  {
    OrderlyReached(moves, s);
    if Allowed(s, t, a) {
      KeptSafe(s, t, a);
    } else {
      BrokenUnsafe(s, t, a);
    }
  }

  /** Whoever breaks a rule makes a crash possible. */
  lemma BrokenCrashes(s: State, t: nat, a: Action) returns (more: seq<(nat, Action)>)
    requires Good(s) && Quiet(s) && !Allowed(s, t, a)
    ensures Move(s, t, a).Next? && Crashes(Move(s, t, a).s, more)
  {
    if !UnloadOk(s, t, a) {
      more := UnloadBroken(s, t, a);
    } else if PcOf(s, t).Inside? {
      SpawnTakes(s, t);
      MoveOk(s, t, a);
      more := AskedCrashes(Move(s, t, a).s, t, PcOf(s, t).m);
    } else {
      more := StopBroken(s, t, a);
    }
  }

  lemma UnloadBroken(s: State, t: nat, a: Action) returns (more: seq<(nat, Action)>)
    requires Good(s) && !UnloadOk(s, t, a)
    ensures Move(s, t, a).Next? && Crashes(Move(s, t, a).s, more)
  {
    MoveOk(s, t, a);
    var u: nat :| Late(PcOf(s, u), s.names[a.name]);
    more := HuntCrashes(Move(s, t, a).s, t, u, s.names[a.name]);
  }

  lemma StopBroken(s: State, t: nat, a: Action) returns (more: seq<(nat, Action)>)
    requires Good(s) && !SpawnOk(s, t, a) && !PcOf(s, t).Inside?
    ensures Move(s, t, a).Next? && Crashes(Move(s, t, a).s, more)
  {
    var u: nat, m: nat :| Switches(s, PcOf(s, t), m) && AskedIn(PcOf(s, u), m);
    NamedThere(s, PcOf(s, t).name);
    StopTakes(s, t, a, m, u);
    MoveOk(s, t, a);
    more := AskedCrashes(Move(s, t, a).s, u, m);
  }

  lemma StopTakes(s: State, t: nat, a: Action, m: nat, u: nat)
    requires Switches(s, PcOf(s, t), m) && !PcOf(s, t).run && !a.Work? && !a.End? && m in s.mods && u != t
    ensures Move(s, t, a).Next? && m in Move(s, t, a).s.mods && !Move(s, t, a).s.mods[m].run && PcOf(Move(s, t, a).s, u) == PcOf(s, u)
  {
  }

  /** A function can always begin to create a task. */
  lemma SpawnTakes(s: State, t: nat)
    requires Good(s) && PcOf(s, t).Inside?
    ensures var m := PcOf(s, t).m;
      m in s.mods && Move(s, t, Spawn).Next? && AskedIn(PcOf(Move(s, t, Spawn).s, t), m)
      && m in Move(s, t, Spawn).s.mods && Move(s, t, Spawn).s.mods[m].run == s.mods[m].run
  {
    InsideThere(s, t);
    InsideHolds(s, t, PcOf(s, t).m);
    NoWriterIn(s, PcOf(s, t).m);
    SpawnGoes(s, t, PcOf(s, t).f, PcOf(s, t).m);
  }

  lemma NoWriterIn(s: State, m: nat)
    requires Good(s) && m in s.mods && s.mods[m].lock.readers > 0
    ensures s.mods[m].lock.writer.None?
  {
    assert Open(0);
    assert ModHeld(s, m);
  }

  lemma SpawnGoes(s: State, t: nat, f: nat, m: nat)
    requires PcOf(s, t) == Inside(f, m) && m in s.mods && s.mods[m].lock.writer.None?
    ensures var o := Move(s, t, Spawn); o.Next? && AskedIn(PcOf(o.s, t), m) && m in o.s.mods && o.s.mods[m].run == s.mods[m].run
  {
  }

  // ---------------------------------------------------------------- a simpler rule for those who stop modules

  /** No module is stopped while a call is in it. */
  ghost predicate StopOk(s: State, t: nat, a: Action) {
    !a.Work? && !a.End? && PcOf(s, t).Switching? && !PcOf(s, t).run ==>
      forall u: nat, m: nat :: Switches(s, PcOf(s, t), m) ==> !Counted(PcOf(s, u), m)
  }

  ghost predicate Calm(s: State, moves: seq<(nat, Action)>)
    decreases |moves|
  {
    moves != [] ==>
      && UnloadOk(s, moves[0].0, moves[0].1) && StopOk(s, moves[0].0, moves[0].1)
      && (Move(s, moves[0].0, moves[0].1).Next? ==> Calm(Move(s, moves[0].0, moves[0].1).s, moves[1..]))
  }

  /** Modules run while a call is in them. */
  ghost predicate CallsRun(s: State) {
    forall u: nat, m: nat :: Counted(PcOf(s, u), m) ==> m in s.mods && s.mods[m].run
  }

  lemma CalmAllowed(s: State, t: nat, a: Action)
    requires CallsRun(s) && UnloadOk(s, t, a) && StopOk(s, t, a)
    ensures Allowed(s, t, a)
  {
    if PcOf(s, t).Inside? {
      assert Counted(PcOf(s, t), PcOf(s, t).m);
    }
    assert forall u: nat, m: nat :: AskedIn(PcOf(s, u), m) ==> Counted(PcOf(s, u), m);
  }

  lemma CallRuns(s: State, t: nat, a: Action, r: State, u: nat, m: nat)
    requires LocksOk(s) && RefsOk(r) && CallsRun(s) && StopOk(s, t, a) && !a.Work? && !a.End? && PcEffect(s, t, r) && RunEffect(s, t, r)
    requires m in s.mods && Counted(PcOf(r, u), m)
    ensures m in r.mods && r.mods[m].run
  {
    assert Touches(PcOf(r, u), m);
    if u != t {
      assert PcOf(r, u) == PcOf(s, u) && Counted(PcOf(s, u), m);
      if PcOf(s, t) == Exclusive(m) {
        WriterAlone(s, t, m, u, 0);
      }
    } else {
      assert Counted(PcOf(s, t), m) || PcOf(s, t).Locked?;
    }
  }

  lemma CallsRunThread(s: State, t: nat, a: Action, r: State)
    requires LocksOk(s) && RefsOk(s) && RefsOk(r) && CallsRun(s) && StopOk(s, t, a) && !a.Work? && !a.End? && PcEffect(s, t, r) && RunEffect(s, t, r)
    ensures CallsRun(r)
  {
    forall u: nat, m: nat | Counted(PcOf(r, u), m)
      ensures m in r.mods && r.mods[m].run
    {
      assert u != t ==> PcOf(r, u) == PcOf(s, u);
      assert Touches(PcOf(s, u), m);
      CallRuns(s, t, a, r, u, m);
    }
  }

  lemma CallsRunStep(s: State, t: nat, a: Action)
    requires Good(s) && CallsRun(s) && StopOk(s, t, a) && !a.Work? && !a.End? && Step(s, t, a).Next?
    ensures CallsRun(Step(s, t, a).s)
  {
    assert Open(0);
    StepDone(s, t, a);
    MoveRefs(s, t, a);
    CallsRunThread(s, t, a, Step(s, t, a).s);
  }

  lemma MoveRefs(s: State, t: nat, a: Action)
    requires Good(s) && !Stray(s, a) && Step(s, t, a).Next?
    ensures RefsOk(Step(s, t, a).s)
  {
    MoveOk(s, t, a);
    assert Open(0);
  }

  lemma CallsRunTask(s: State, t: nat, a: Action)
    requires TasksOk(s) && CallsRun(s) && (a.Work? || a.End?) && !Stray(s, a) && Step(s, t, a).Next?
    ensures CallsRun(Step(s, t, a).s)
  {
    TaskMoved(s, t, a);
    assert forall u: nat :: PcOf(Step(s, t, a).s, u) == PcOf(s, u);
  }

  lemma CallsRunKept(s: State, t: nat, a: Action)
    requires Good(s) && CallsRun(s) && StopOk(s, t, a) && !Stray(s, a) && Step(s, t, a).Next?
    ensures CallsRun(Step(s, t, a).s)
  {
    if a.Work? || a.End? {
      assert Open(0);
      CallsRunTask(s, t, a);
    } else {
      CallsRunStep(s, t, a);
    }
  }

  /** It is enough to stop no module while a call is in it: then no task is refused its module. */
  lemma {:induction false} CalmOrderly(s: State, moves: seq<(nat, Action)>)
    requires Good(s) && Quiet(s) && CallsRun(s) && Calm(s, moves)
    ensures Orderly(s, moves) && From(s, moves).Next?
    decreases |moves|
  {
    if moves != [] {
      var t, a := moves[0].0, moves[0].1;
      CalmAllowed(s, t, a);
      QuietKept(s, t, a);
      if Step(s, t, a).Next? {
        CallsRunKept(s, t, a);
      }
      CalmOrderly(Move(s, t, a).s, moves[1..]);
    }
  }

  // ---------------------------------------------------------------- what an operation does alone

  /** `n` steps of one thread. */
  function Gos(t: nat, n: nat): seq<(nat, Action)> {
    seq(n, _ => (t, Go))
  }

  lemma GoOn(s: State, t: nat, n: nat)
    requires Move(s, t, Go).Next?
    ensures From(s, Gos(t, n + 1)) == From(Move(s, t, Go).s, Gos(t, n))
  {
    assert Gos(t, n + 1)[1..] == Gos(t, n);
  }

  lemma BeginThen(s: State, t: nat, a: Action, n: nat)
    requires Move(s, t, a).Next?
    ensures From(s, [(t, a)] + Gos(t, n)) == From(Move(s, t, a).s, Gos(t, n))
  {
    assert ([(t, a)] + Gos(t, n))[1..] == Gos(t, n);
  }

  /** A call that is not disturbed comes to the function exactly if that is registered, the caller has
      the capability and the module runs; else it comes back and leaves no trace. */
  lemma CallAlone(s: State, t: nat, f: nat, cap: bool) returns (n: nat, r: State)
    requires Good(s) && PcOf(s, t).Idle? && s.flock.writer.None?
    requires f in s.table && s.table[f] in s.mods ==> s.mods[s.table[f]].lock.writer.None?
    ensures From(s, [(t, Call(f, cap))] + Gos(t, n)) == Next(r) && OnlyBy(s, r, t)
    ensures if f in s.table && cap && s.table[f] in s.mods && s.mods[s.table[f]].run then Entered(s, t, f, s.table[f], r) else Traceless(s, t, r)
  {
    NotReading(s, t);
    if f in s.table && cap {
      TableThere(s, f);
      n := 4;
      r := CallFound(s, t, f, s.table[f]);
    } else {
      var s1 := CallSearches(s, t, f, cap, 1);
      r := CallEnds(s1, t, f);
      n := 2;
      assert r.flock == s.flock;
    }
  }

  /** The thread is in the function, and has the lock of the module and counts in `use_count`. */
  ghost predicate Entered(s: State, t: nat, f: nat, m: nat, r: State) {
    && PcOf(r, t) == Inside(f, m) && m in s.mods
    && r == s.(pcs := r.pcs, mods := s.mods[m := s.mods[m].(lock := Taken(s.mods[m].lock), useCount := s.mods[m].useCount + 1)])
  }

  ghost predicate Traceless(s: State, t: nat, r: State) {
    PcOf(r, t).Idle? && r == s.(pcs := r.pcs)
  }

  lemma CallFound(s: State, t: nat, f: nat, m: nat) returns (r: State)
    requires PcOf(s, t).Idle? && s.flock.writer.None? && t !in s.flock.readers
    requires f in s.table && s.table[f] == m && m in s.mods && s.mods[m].lock.writer.None?
    ensures From(s, [(t, Call(f, true))] + Gos(t, 4)) == Next(r) && OnlyBy(s, r, t)
    ensures if s.mods[m].run then Entered(s, t, f, m, r) else Traceless(s, t, r)
  {
    var s2 := CallLocked(s, t, f, m);
    if s.mods[m].run {
      r := CallEnters(s2, t, f, m);
    } else {
      r := CallRefused(s2, t, f, m);
      assert r.mods == s.mods;
    }
    assert DropReader(s2.flock, t) == s.flock;
  }

  lemma CallLocked(s: State, t: nat, f: nat, m: nat) returns (r: State)
    requires PcOf(s, t).Idle? && s.flock.writer.None?
    requires f in s.table && s.table[f] == m && m in s.mods && s.mods[m].lock.writer.None?
    ensures From(s, [(t, Call(f, true))] + Gos(t, 4)) == From(r, Gos(t, 2)) && OnlyBy(s, r, t) && PcOf(r, t) == Locked(f, m)
    ensures r == s.(flock := AddReader(s.flock, t), mods := s.mods[m := s.mods[m].(lock := Taken(s.mods[m].lock))], pcs := r.pcs)
  {
    var s1 := CallSearches(s, t, f, true, 3);
    r := CallAsks(s1, t, f, m, 2);
  }

  lemma NotReading(s: State, t: nat)
    requires Good(s) && PcOf(s, t).Idle?
    ensures t !in s.flock.readers && t !in s.mlock.readers
  {
    assert Open(0);
  }

  lemma TableThere(s: State, f: nat)
    requires Good(s) && f in s.table
    ensures s.table[f] in s.mods
  {
    assert Open(0);
  }

  lemma CallSearches(s: State, t: nat, f: nat, cap: bool, n: nat) returns (r: State)
    requires PcOf(s, t).Idle? && s.flock.writer.None?
    ensures From(s, [(t, Call(f, cap))] + Gos(t, n + 1)) == From(r, Gos(t, n)) && OnlyBy(s, r, t)
    ensures PcOf(r, t) == (if f in s.table && cap then Found(f, s.table[f]) else Refused(f)) && r == s.(flock := AddReader(s.flock, t), pcs := r.pcs)
  {
    BeginThen(s, t, Call(f, cap), n + 1);
    var s0 := Move(s, t, Call(f, cap)).s;
    GoOn(s0, t, n);
    r := Move(s0, t, Go).s;
  }

  lemma CallAsks(s: State, t: nat, f: nat, m: nat, n: nat) returns (r: State)
    requires PcOf(s, t) == Found(f, m) && m in s.mods && s.mods[m].lock.writer.None?
    ensures From(s, Gos(t, n + 1)) == From(r, Gos(t, n)) && OnlyBy(s, r, t)
    ensures PcOf(r, t) == Locked(f, m) && r == s.(mods := s.mods[m := s.mods[m].(lock := Taken(s.mods[m].lock))], pcs := r.pcs)
  {
    GoOn(s, t, n);
    r := Move(s, t, Go).s;
  }

  lemma CallRefused(s: State, t: nat, f: nat, m: nat) returns (r: State)
    requires PcOf(s, t) == Locked(f, m) && m in s.mods && !s.mods[m].run
    ensures From(s, Gos(t, 2)) == Next(r) && OnlyBy(s, r, t) && PcOf(r, t).Idle?
    ensures r == s.(flock := DropReader(s.flock, t), mods := s.mods[m := s.mods[m].(lock := Given(s.mods[m].lock))], pcs := r.pcs)
  {
    GoOn(s, t, 1);
    var s1 := Move(s, t, Go).s;
    r := CallEnds(s1, t, f);
  }

  lemma CallEnds(s: State, t: nat, f: nat) returns (r: State)
    requires PcOf(s, t) == Refused(f)
    ensures From(s, Gos(t, 1)) == Next(r) && OnlyBy(s, r, t) && PcOf(r, t).Idle?
    ensures r == s.(flock := DropReader(s.flock, t), pcs := r.pcs)
  {
    GoOn(s, t, 0);
    r := Move(s, t, Go).s;
  }

  lemma CallEnters(s: State, t: nat, f: nat, m: nat) returns (r: State)
    requires PcOf(s, t) == Locked(f, m) && m in s.mods && s.mods[m].run
    ensures From(s, Gos(t, 2)) == Next(r) && OnlyBy(s, r, t) && PcOf(r, t) == Inside(f, m)
    ensures r == s.(flock := DropReader(s.flock, t), mods := s.mods[m := s.mods[m].(useCount := s.mods[m].useCount + 1)], pcs := r.pcs)
  {
    GoOn(s, t, 1);
    var s1 := Move(s, t, Go).s;
    GoOn(s1, t, 0);
    r := Move(s1, t, Go).s;
  }

  // A load.

  /** The functions are new and differ from each other. */
  ghost predicate AllNew(table: map<nat, nat>, fs: seq<nat>) {
    (forall i, j :: 0 <= i < j < |fs| ==> fs[i] != fs[j]) && forall f :: f in fs ==> f !in table
  }

  /** The functions that were not in the table have come in as those of the module `m`. */
  ghost predicate Filled(s: State, m: nat, fs: seq<nat>, r: State) {
    && (forall f :: f in r.table <==> f in s.table || f in fs)
    && (forall f :: f in r.table ==> r.table[f] == if f in s.table then s.table[f] else m)
    && (forall p: (nat, nat) :: p in r.regs <==> p in s.regs || (p.0 == m && p.1 in fs && p.1 !in s.table))
  }

  lemma FilledOn(s: State, m: nat, f: nat, fs: seq<nat>, q: State, r: State)
    requires q.table == (if f in s.table then s.table else s.table[f := m]) && q.regs == if f in s.table then s.regs else s.regs + {(m, f)}
    requires Filled(q, m, fs, r)
    ensures Filled(s, m, [f] + fs, r)
    ensures AllNew(s.table, [f] + fs) <==> f !in s.table && AllNew(q.table, fs)
  {
    assert forall g :: g in [f] + fs <==> g == f || g in fs;
    if AllNew(s.table, [f] + fs) {
      assert forall i :: 0 <= i < |fs| ==> ([f] + fs)[i + 1] == fs[i] && ([f] + fs)[0] != ([f] + fs)[i + 1];
    }
  }

  lemma RegisterAlone(s: State, t: nat, name: nat, m: nat, i: nat) returns (r: State)
    requires PcOf(s, t) == Registering(name, m, i) && m in s.mods && i < |s.mods[m].functions|
    ensures Move(s, t, Go) == Next(r) && OnlyBy(s, r, t) && PcOf(r, t) == Registering(name, m, i + 1)
    ensures var f, mod := s.mods[m].functions[i], s.mods[m];
      && r == s.(table := r.table, regs := r.regs, pcs := r.pcs, mods := s.mods[m := mod.(nreg := mod.nreg + Is(f !in s.table))])
      && r.table == (if f in s.table then s.table else s.table[f := m]) && r.regs == if f in s.table then s.regs else s.regs + {(m, f)}
  {
    r := Move(s, t, Go).s;
    assert m in r.mods && s.mods == s.mods[m := s.mods[m].(nreg := s.mods[m].nreg)];
  }

  lemma {:induction false} RegisterAll(s: State, t: nat, name: nat, m: nat, i: nat, k: nat, n: nat) returns (r: State)
    requires PcOf(s, t) == Registering(name, m, i) && m in s.mods && i + k == |s.mods[m].functions|
    ensures From(s, Gos(t, k + n)) == From(r, Gos(t, n)) && PcOf(r, t) == Registering(name, m, |s.mods[m].functions|) && m in r.mods
    ensures OnlyBy(s, r, t) && r == s.(table := r.table, regs := r.regs, pcs := r.pcs, mods := s.mods[m := s.mods[m].(nreg := r.mods[m].nreg)])
    ensures Filled(s, m, s.mods[m].functions[i..], r) && r.mods[m].nreg <= s.mods[m].nreg + k
    ensures r.mods[m].nreg == s.mods[m].nreg + k <==> AllNew(s.table, s.mods[m].functions[i..])
    decreases k
  {
    if k == 0 {
      r := s;
      assert s.mods == s.mods[m := s.mods[m].(nreg := s.mods[m].nreg)];
    } else {
      var fs, l := s.mods[m].functions, k - 1 + n;
      var q := RegisterAlone(s, t, name, m, i);
      GoOn(s, t, l);
      assert From(s, Gos(t, k + n)) == From(q, Gos(t, l));
      r := RegisterAll(q, t, name, m, i + 1, k - 1, n);
      OnlyByOn(s, q, r, t);
      Rest1(fs, i);
      FilledOn(s, m, fs[i], fs[i + 1..], q, r);
      Overwritten(s.mods, m, q.mods[m], r.mods[m]);
      assert q.mods[m].nreg == s.mods[m].nreg + Is(fs[i] !in s.table);
    }
  }

  lemma Overwritten(mods: map<nat, Mod>, m: nat, x: Mod, y: Mod)
    ensures mods[m := x][m := y] == mods[m := y]
  {
  }

  lemma LoadBegun(s: State, t: nat, name: nat, fs: seq<nat>, onready: bool, n: nat) returns (r: State)
    requires PcOf(s, t).Idle? && Free(s.mlock)
    ensures From(s, [(t, Load(name, fs, onready))] + Gos(t, n)) == From(r, Gos(t, n)) && OnlyBy(s, r, t)
    ensures r == s.(mlock := RW({}, Some(t)), pcs := r.pcs) && PcOf(r, t) == Loading(name, fs, onready)
  {
    BeginThen(s, t, Load(name, fs, onready), n);
    r := Move(s, t, Load(name, fs, onready)).s;
  }

  lemma LoadCreates(s: State, t: nat, name: nat, fs: seq<nat>, onready: bool, n: nat) returns (r: State)
    requires PcOf(s, t) == Loading(name, fs, onready) && name !in s.names && fs != []
    ensures From(s, Gos(t, n + 1)) == From(r, Gos(t, n)) && OnlyBy(s, r, t) && PcOf(r, t) == Created(name, s.next)
    ensures r == s.(next := s.next + 1, mods := s.mods[s.next := Mod(false, ModLock(0, None), 0, fs, 0, onready)], pcs := r.pcs)
  {
    GoOn(s, t, n);
    r := Move(s, t, Go).s;
  }

  lemma LoadLocks(s: State, t: nat, name: nat, m: nat, n: nat) returns (r: State)
    requires PcOf(s, t) == Created(name, m) && m in s.mods && s.mods[m].lock == ModLock(0, None) && Free(s.flock)
    ensures From(s, Gos(t, n + 2)) == From(r, Gos(t, n)) && OnlyBy(s, r, t) && PcOf(r, t) == Registering(name, m, 0)
    ensures r == s.(flock := RW({}, Some(t)), mods := s.mods[m := s.mods[m].(lock := ModLock(0, Some(t)))], pcs := r.pcs)
  {
    GoOn(s, t, n + 1);
    var q := Move(s, t, Go).s;
    GoOn(q, t, n);
    r := Move(q, t, Go).s;
  }

  lemma LoadNames(s: State, t: nat, name: nat, m: nat, n: nat) returns (r: State)
    requires m in s.mods && PcOf(s, t) == Registering(name, m, |s.mods[m].functions|) && s.flock == RW({}, Some(t))
    ensures From(s, Gos(t, n + 2)) == From(r, Gos(t, n)) && OnlyBy(s, r, t) && PcOf(r, t) == Added(m)
    ensures var mod := s.mods[m];
      r == s.(flock := RW({}, None), names := s.names[name := m], mods := s.mods[m := mod.(run := mod.run || mod.nreg == |mod.functions|)], pcs := r.pcs)
  {
    GoOn(s, t, n + 1);
    var q := Move(s, t, Go).s;
    GoOn(q, t, n);
    r := Move(q, t, Go).s;
  }

  lemma LoadOpens(s: State, t: nat, m: nat, n: nat) returns (r: State)
    requires PcOf(s, t) == Added(m) && m in s.mods && s.mods[m].lock == ModLock(0, Some(t))
    ensures From(s, Gos(t, n + 1)) == From(r, Gos(t, n)) && OnlyBy(s, r, t) && PcOf(r, t) == Opened(m)
    ensures r == s.(mods := s.mods[m := s.mods[m].(lock := ModLock(0, None))], pcs := r.pcs)
  {
    GoOn(s, t, n);
    r := Move(s, t, Go).s;
  }

  lemma LoadReleases(s: State, t: nat, m: nat) returns (r: State)
    requires PcOf(s, t) == Opened(m) && m in s.mods && !s.mods[m].onready && s.mlock == RW({}, Some(t))
    ensures From(s, Gos(t, 1)) == Next(r) && OnlyBy(s, r, t) && PcOf(r, t) == Loaded(m) && r == s.(mlock := RW({}, None), pcs := r.pcs)
  {
    GoOn(s, t, 0);
    r := Move(s, t, Go).s;
  }

  lemma LoadReadies(s: State, t: nat, m: nat) returns (r: State)
    requires PcOf(s, t) == Opened(m) && m in s.mods && s.mods[m].onready && s.mods[m].lock == ModLock(0, None) && s.mlock == RW({}, Some(t))
    ensures From(s, Gos(t, 2)) == Next(r) && OnlyBy(s, r, t) && PcOf(r, t) == Ready(m)
    ensures r == s.(mlock := RW({}, None), mods := s.mods[m := s.mods[m].(lock := ModLock(1, None))], pcs := r.pcs)
  {
    GoOn(s, t, 1);
    var q := Move(s, t, Go).s;
    assert PcOf(q, t) == Readying(m) && q == s.(mods := s.mods[m := s.mods[m].(lock := ModLock(1, None))], pcs := q.pcs);
    r := ReadyGoes(q, t, m);
  }

  lemma ReadyGoes(s: State, t: nat, m: nat) returns (r: State)
    requires PcOf(s, t) == Readying(m)
    ensures From(s, Gos(t, 1)) == Next(r) && OnlyBy(s, r, t) && PcOf(r, t) == Ready(m) && r == s.(mlock := s.mlock.(writer := None), pcs := r.pcs)
  {
    GoOn(s, t, 0);
    r := Move(s, t, Go).s;
  }

  /** The module `m` is loaded: its functions are in the table unless others were there, and it runs
      exactly if they all are. Its `onready` is about to run with the lock of the module. */
  ghost predicate Brings(s: State, t: nat, name: nat, fs: seq<nat>, onready: bool, r: State) {
    var m := s.next;
    && PcOf(r, t) == (if onready then Ready(m) else Loaded(m)) && m in r.mods && Filled(s, m, fs, r)
    && r.mods[m] == Mod(AllNew(s.table, fs), ModLock(Is(onready), None), 0, fs, r.mods[m].nreg, onready)
    && r == s.(pcs := r.pcs, next := m + 1, names := s.names[name := m], mods := s.mods[m := r.mods[m]], table := r.table, regs := r.regs)
  }

  lemma LoadMade(s: State, t: nat, name: nat, fs: seq<nat>, onready: bool) returns (r: State)
    requires PcOf(s, t).Idle? && Free(s.mlock) && Free(s.flock) && name !in s.names && fs != []
    ensures From(s, [(t, Load(name, fs, onready))] + Gos(t, |fs| + 6 + if onready then 2 else 1)) == Next(r) && OnlyBy(s, r, t)
    ensures Brings(s, t, name, fs, onready, r)
  {
    var m, e := s.next, if onready then 2 else 1;
    var s4 := LoadFills(s, t, name, fs, onready, 3 + e);
    assert From(s, [(t, Load(name, fs, onready))] + Gos(t, |fs| + 6 + e)) == From(s4, Gos(t, 3 + e));
    r := LoadRest(s4, t, name, m, e);
    OnlyByOn(s, s4, r, t);
    Overwritten(s.mods, m, s4.mods[m], r.mods[m]);
  }

  /** As far as the last function. */
  lemma LoadFills(s: State, t: nat, name: nat, fs: seq<nat>, onready: bool, n: nat) returns (r: State)
    requires PcOf(s, t).Idle? && Free(s.mlock) && Free(s.flock) && name !in s.names && fs != []
    ensures From(s, [(t, Load(name, fs, onready))] + Gos(t, |fs| + 3 + n)) == From(r, Gos(t, n)) && OnlyBy(s, r, t) && PcOf(r, t) == Registering(name, s.next, |fs|)
    ensures var m := s.next;
      && m in r.mods && r.mods[m] == Mod(false, ModLock(0, Some(t)), 0, fs, r.mods[m].nreg, onready)
      && r == s.(mlock := RW({}, Some(t)), flock := RW({}, Some(t)), next := m + 1, pcs := r.pcs, table := r.table, regs := r.regs, mods := s.mods[m := r.mods[m]])
      && Filled(s, m, fs, r) && (r.mods[m].nreg == |fs| <==> AllNew(s.table, fs))
  {
    var m := s.next;
    var q := LoadHalf(s, t, name, fs, onready, |fs| + n);
    r := RegisterAll(q, t, name, m, 0, |fs|, n);
    assert From(s, [(t, Load(name, fs, onready))] + Gos(t, |fs| + 3 + n)) == From(q, Gos(t, |fs| + n));
    Overwritten(s.mods, m, q.mods[m], r.mods[m]);
    OnlyByOn(s, q, r, t);
    assert fs[0..] == fs;
  }

  /** As far as the first function. */
  lemma LoadHalf(s: State, t: nat, name: nat, fs: seq<nat>, onready: bool, n: nat) returns (r: State)
    requires PcOf(s, t).Idle? && Free(s.mlock) && Free(s.flock) && name !in s.names && fs != []
    ensures From(s, [(t, Load(name, fs, onready))] + Gos(t, n + 3)) == From(r, Gos(t, n)) && OnlyBy(s, r, t) && PcOf(r, t) == Registering(name, s.next, 0)
    ensures r == s.(mlock := RW({}, Some(t)), flock := RW({}, Some(t)), next := s.next + 1, pcs := r.pcs,
      mods := s.mods[s.next := Mod(false, ModLock(0, Some(t)), 0, fs, 0, onready)])
  {
    var m := s.next;
    var s2 := LoadFirst(s, t, name, fs, onready, n + 2);
    r := LoadLocks(s2, t, name, m, n);
    OnlyByOn(s, s2, r, t);
    Overwritten(s.mods, m, s2.mods[m], r.mods[m]);
  }

  lemma LoadFirst(s: State, t: nat, name: nat, fs: seq<nat>, onready: bool, n: nat) returns (r: State)
    requires PcOf(s, t).Idle? && Free(s.mlock) && name !in s.names && fs != []
    ensures From(s, [(t, Load(name, fs, onready))] + Gos(t, n + 1)) == From(r, Gos(t, n)) && OnlyBy(s, r, t) && PcOf(r, t) == Created(name, s.next)
    ensures r == s.(mlock := RW({}, Some(t)), next := s.next + 1, pcs := r.pcs, mods := s.mods[s.next := Mod(false, ModLock(0, None), 0, fs, 0, onready)])
  {
    var s1 := LoadBegun(s, t, name, fs, onready, n + 1);
    r := LoadCreates(s1, t, name, fs, onready, n);
    OnlyByOn(s, s1, r, t);
  }

  /** From the last function on. */
  lemma LoadRest(s: State, t: nat, name: nat, m: nat, e: nat) returns (r: State)
    requires m in s.mods && PcOf(s, t) == Registering(name, m, |s.mods[m].functions|) && s.flock == s.mlock == RW({}, Some(t))
    requires s.mods[m].lock == ModLock(0, Some(t)) && e == if s.mods[m].onready then 2 else 1
    ensures From(s, Gos(t, 3 + e)) == Next(r) && OnlyBy(s, r, t) && PcOf(r, t) == if s.mods[m].onready then Ready(m) else Loaded(m)
    ensures var mod := s.mods[m];
      r == s.(flock := RW({}, None), mlock := RW({}, None), names := s.names[name := m], pcs := r.pcs,
        mods := s.mods[m := mod.(run := mod.run || mod.nreg == |mod.functions|, lock := ModLock(Is(mod.onready), None))])
  {
    var q := LoadNames(s, t, name, m, 1 + e);
    r := LoadEnds(q, t, m, e);
    Overwritten(s.mods, m, q.mods[m], r.mods[m]);
  }

  lemma LoadEnds(s: State, t: nat, m: nat, e: nat) returns (r: State)
    requires PcOf(s, t) == Added(m) && m in s.mods && s.mods[m].lock == ModLock(0, Some(t)) && s.mlock == RW({}, Some(t))
    requires e == if s.mods[m].onready then 2 else 1
    ensures From(s, Gos(t, 1 + e)) == Next(r) && OnlyBy(s, r, t) && PcOf(r, t) == if s.mods[m].onready then Ready(m) else Loaded(m)
    ensures r == s.(mlock := RW({}, None), mods := s.mods[m := s.mods[m].(lock := ModLock(Is(s.mods[m].onready), None))], pcs := r.pcs)
  {
    var q := LoadOpens(s, t, m, e);
    if s.mods[m].onready {
      r := LoadReadies(q, t, m);
    } else {
      r := LoadReleases(q, t, m);
    }
    assert r.mods == s.mods[m := r.mods[m]];
  }

  /** A load that is not disturbed brings its module, unless the name is taken or the module has no
      functions; then it leaves no trace. */
  lemma LoadAlone(s: State, t: nat, name: nat, fs: seq<nat>, onready: bool) returns (n: nat, r: State)
    requires PcOf(s, t).Idle? && Free(s.mlock) && Free(s.flock)
    ensures From(s, [(t, Load(name, fs, onready))] + Gos(t, n)) == Next(r) && OnlyBy(s, r, t)
    ensures if name !in s.names && fs != [] then Brings(s, t, name, fs, onready, r) else Traceless(s, t, r)
  {
    if name !in s.names && fs != [] {
      n := |fs| + 6 + if onready then 2 else 1;
      r := LoadMade(s, t, name, fs, onready);
    } else {
      n := 2;
      var q := LoadBegun(s, t, name, fs, onready, 2);
      r := GivesUp(q, t);
      assert r.mlock == s.mlock;
    }
  }

  lemma GivesUp(s: State, t: nat) returns (r: State)
    requires (PcOf(s, t).Unloading? && PcOf(s, t).name !in s.names) || (PcOf(s, t).Loading? && (PcOf(s, t).name in s.names || PcOf(s, t).functions == []))
    ensures From(s, Gos(t, 2)) == Next(r) && OnlyBy(s, r, t) && PcOf(r, t).Idle? && r == s.(mlock := s.mlock.(writer := None), pcs := r.pcs)
  {
    GoOn(s, t, 1);
    var q := Move(s, t, Go).s;
    GoOn(q, t, 0);
    r := Move(q, t, Go).s;
  }

  // An unload.

  /** The module `m` is gone with its names and its functions, and nothing else has changed. */
  ghost predicate Forgets(s: State, t: nat, m: nat, r: State) {
    && PcOf(r, t).Idle? && r == s.(pcs := r.pcs, mods := s.mods - {m}, names := r.names, table := r.table, regs := r.regs)
    && (forall n :: n in r.names <==> n in s.names && s.names[n] != m) && (forall n :: n in r.names ==> r.names[n] == s.names[n])
    && (forall f :: f in r.table <==> f in s.table && s.table[f] != m) && (forall f :: f in r.table ==> r.table[f] == s.table[f])
    && (forall p: (nat, nat) :: p in r.regs <==> p in s.regs && p.0 != m)
  }

  /** An unload that is not disturbed removes the module of the name, unless there is none or it is in
      use; then it leaves no trace. */
  lemma UnloadExact(s: State, t: nat, name: nat) returns (more: seq<(nat, Action)>, r: State)
    requires Good(s) && PcOf(s, t).Idle? && Free(s.mlock) && Free(s.flock)
    ensures From(s, [(t, Unload(name))] + more) == Next(r) && OnlyBy(s, r, t)
    ensures if name in s.names && s.names[name] in s.mods && Unused(s.mods[s.names[name]].lock) then Forgets(s, t, s.names[name], r) else Traceless(s, t, r)
  {
    if name !in s.names {
      var q := UnloadBegun(s, t, name, 2);
      more := Gos(t, 2);
      r := GivesUp(q, t);
      OnlyByOn(s, q, r, t);
      assert r.mlock == s.mlock;
    } else {
      NamedThere(s, name);
      if Unused(s.mods[s.names[name]].lock) {
        more, r := UnloadGranted(s, t, name, s.names[name]);
      } else {
        more, r := UnloadDenied(s, t, name, s.names[name]);
      }
    }
  }

  lemma UnloadBegun(s: State, t: nat, name: nat, n: nat) returns (r: State)
    requires PcOf(s, t).Idle? && Free(s.mlock)
    ensures From(s, [(t, Unload(name))] + Gos(t, n)) == From(r, Gos(t, n)) && OnlyBy(s, r, t)
    ensures Move(s, t, Unload(name)) == Next(r) && r == s.(mlock := RW({}, Some(t)), pcs := r.pcs) && PcOf(r, t) == Unloading(name)
  {
    BeginThen(s, t, Unload(name), n);
    r := Move(s, t, Unload(name)).s;
  }

  lemma UnloadDenied(s: State, t: nat, name: nat, m: nat) returns (more: seq<(nat, Action)>, r: State)
    requires PcOf(s, t).Idle? && Free(s.mlock) && name in s.names && s.names[name] == m && m in s.mods && !Unused(s.mods[m].lock)
    ensures From(s, [(t, Unload(name))] + more) == Next(r) && OnlyBy(s, r, t) && Traceless(s, t, r)
  {
    var q := RefuseRun(s, t, name, m);
    r := LateEnds(q, t, m);
    FromConcat(s, [(t, Unload(name))] + Gos(t, 3), [(t, Go)]);
    more := Gos(t, 3) + [(t, Go)];
    assert [(t, Unload(name))] + more == [(t, Unload(name))] + Gos(t, 3) + [(t, Go)];
    OnlyByOn(s, q, r, t);
  }

  lemma LateEnds(s: State, t: nat, m: nat) returns (r: State)
    requires Late(PcOf(s, t), m) && m in s.mods
    ensures From(s, [(t, Go)]) == Next(r) && OnlyBy(s, r, t) && Traceless(s, t, r)
  {
    r := Move(s, t, Go).s;
    assert [(t, Go)][1..] == [];
  }

  lemma UnloadGranted(s: State, t: nat, name: nat, m: nat) returns (more: seq<(nat, Action)>, r: State)
    requires Good(s) && PcOf(s, t).Idle? && Free(s.mlock) && Free(s.flock)
    requires name in s.names && s.names[name] == m && m in s.mods && Unused(s.mods[m].lock)
    ensures From(s, [(t, Unload(name))] + more) == Next(r) && OnlyBy(s, r, t) && Forgets(s, t, m, r)
  {
    var q1 := UnloadBegun(s, t, name, 0);
    var rest, q2 := UnloadAlone(q1, t, m);
    r := GoneEnds(q2, t, m);
    FromConcat(q1, rest, [(t, Go)]);
    more := rest + [(t, Go)];
    assert ([(t, Unload(name))] + more)[1..] == more;
    OnlyByOn(s, q1, q2, t);
    OnlyByOn(s, q2, r, t);
    FreedAll(s, t, m, q1, q2, r);
  }

  lemma GoneEnds(s: State, t: nat, m: nat) returns (r: State)
    requires PcOf(s, t) == Gone(m)
    ensures From(s, [(t, Go)]) == Next(r) && OnlyBy(s, r, t) && PcOf(r, t).Idle? && r == s.(mlock := s.mlock.(writer := None), pcs := r.pcs)
  {
    r := Move(s, t, Go).s;
    assert [(t, Go)][1..] == [];
  }

  lemma FreedAll(s: State, t: nat, m: nat, q1: State, q2: State, r: State)
    requires Good(s) && Free(s.mlock) && m in s.mods && q1 == s.(mlock := RW({}, Some(t)), pcs := q1.pcs)
    requires Freed(q1, t, m, q2) && q2.flock == q1.flock && r == q2.(mlock := q2.mlock.(writer := None), pcs := r.pcs) && PcOf(r, t).Idle?
    ensures Forgets(s, t, m, r)
  {
    OwnRegs(s, m);
  }

  lemma OwnRegs(s: State, m: nat)
    requires Good(s) && m in s.mods
    ensures forall f :: f in s.table && s.table[f] == m ==> (m, f) in s.regs
    ensures forall f: nat :: (m, f) in s.regs ==> f in s.table && s.table[f] == m && f in s.mods[m].functions
  {
    assert Open(0);
  }

  // `module_do_run`.

  lemma SwitchFound(s: State, t: nat, name: nat, run: bool) returns (r: State)
    requires PcOf(s, t).Idle? && s.mlock.writer.None? && t !in s.mlock.readers && name in s.names && s.names[name] in s.mods
    ensures From(s, [(t, Switch(name, run))] + Gos(t, 2)) == Next(r) && OnlyBy(s, r, t)
    ensures var m := s.names[name]; PcOf(r, t).Idle? && r == s.(mods := s.mods[m := s.mods[m].(run := run)], pcs := r.pcs)
  {
    BeginThen(s, t, Switch(name, run), 2);
    r := SwitchEnds(Move(s, t, Switch(name, run)).s, t, name, run);
    assert r.mlock == s.mlock;
  }

  lemma SwitchMissed(s: State, t: nat, name: nat, run: bool) returns (r: State)
    requires PcOf(s, t).Idle? && s.mlock.writer.None? && t !in s.mlock.readers && name !in s.names
    ensures From(s, [(t, Switch(name, run))] + Gos(t, 2)) == Next(r) && OnlyBy(s, r, t) && Traceless(s, t, r)
  {
    BeginThen(s, t, Switch(name, run), 2);
    r := SwitchEnds(Move(s, t, Switch(name, run)).s, t, name, run);
    assert r.mlock == s.mlock;
  }

  lemma SwitchEnds(s: State, t: nat, name: nat, run: bool) returns (r: State)
    requires PcOf(s, t) == Switching(name, run) && (name in s.names ==> s.names[name] in s.mods)
    ensures From(s, Gos(t, 2)) == Next(r) && OnlyBy(s, r, t) && PcOf(r, t).Idle?
    ensures r == s.(mlock := DropReader(s.mlock, t), pcs := r.pcs,
      mods := if name in s.names then s.mods[s.names[name] := s.mods[s.names[name]].(run := run)] else s.mods)
  {
    GoOn(s, t, 1);
    var q := Move(s, t, Go).s;
    GoOn(q, t, 0);
    r := Move(q, t, Go).s;
  }

  /** A `module_do_run` that is not disturbed starts or stops the module of the name, if there is one. */
  lemma SwitchAlone(s: State, t: nat, name: nat, run: bool) returns (r: State)
    requires Good(s) && PcOf(s, t).Idle? && s.mlock.writer.None?
    ensures From(s, [(t, Switch(name, run))] + Gos(t, 2)) == Next(r) && OnlyBy(s, r, t)
    ensures if name in s.names
      then s.names[name] in s.mods && PcOf(r, t).Idle? && r == s.(mods := s.mods[s.names[name] := s.mods[s.names[name]].(run := run)], pcs := r.pcs)
      else Traceless(s, t, r)
  {
    NotReading(s, t);
    if name in s.names {
      NamedThere(s, name);
      r := SwitchFound(s, t, name, run);
    } else {
      r := SwitchMissed(s, t, name, run);
    }
  }

  // ---------------------------------------------------------------- runs that crash

  /** A load without an `onready` of a module with the one function `f`, as far as the release of `mlock`. */
  lemma LoadRun(s: State, t: nat, name: nat, f: nat) returns (r: State)
    requires PcOf(s, t).Idle? && Free(s.mlock) && Free(s.flock) && s.next !in s.mods && name !in s.names && f !in s.table
    ensures From(s, [(t, Load(name, [f], false))] + Gos(t, 8)) == Next(r) && OnlyBy(s, r, t) && PcOf(r, t) == Loaded(s.next)
    ensures Serves(r, name, f, s.next)
  {
    r := LoadMade(s, t, name, [f], false);
    assert f in [f] && (s.next, f) in r.regs;
  }

  /** The module `m` has the function `f` and nobody in it, and no lock is taken. */
  ghost predicate Serves(s: State, name: nat, f: nat, m: nat) {
    && Free(s.mlock) && Free(s.flock) && name in s.names && s.names[name] == m && f in s.table && s.table[f] == m && (m, f) in s.regs
    && m in s.mods && s.mods[m].run && s.mods[m].lock == ModLock(0, None) && s.mods[m].useCount == 0
  }

  lemma ServingRun(t: nat, name: nat, f: nat) returns (r: State)
    ensures After([(t, Load(name, [f], false))] + Gos(t, 9)) == Next(r) && OnlyBy(Start(), r, t) && PcOf(r, t) == Idle
    ensures Serves(r, name, f, 0)
  {
    var s := LoadRun(Start(), t, name, f);
    var a := [(t, Load(name, [f], false))] + Gos(t, 8);
    FromConcat(Start(), a, [(t, Go)]);
    assert [(t, Go)][1..] == [];
    assert a + [(t, Go)] == [(t, Load(name, [f], false))] + Gos(t, 9);
    r := Move(s, t, Go).s;
  }

  /** A call that is not disturbed, as far as the function. */
  lemma CallRun(s: State, t: nat, name: nat, f: nat, m: nat) returns (r: State)
    requires PcOf(s, t).Idle? && Serves(s, name, f, m)
    ensures From(s, [(t, Call(f, true))] + Gos(t, 4)) == Next(r) && OnlyBy(s, r, t) && PcOf(r, t) == Inside(f, m)
    ensures m in r.mods && r == s.(mods := s.mods[m := r.mods[m]], pcs := r.pcs) && r.mods[m] == s.mods[m].(lock := ModLock(1, None), useCount := 1)
  {
    r := CallFound(s, t, f, m);
  }

  /** An unload that is refused, as far as the release of `mlock`. */
  lemma RefuseRun(s: State, t: nat, name: nat, m: nat) returns (r: State)
    requires PcOf(s, t).Idle? && Free(s.mlock) && name in s.names && s.names[name] == m && m in s.mods && !Unused(s.mods[m].lock)
    ensures From(s, [(t, Unload(name))] + Gos(t, 3)) == Next(r) && OnlyBy(s, r, t)
    ensures PcOf(r, t) == Denied(m) && r == s.(pcs := r.pcs)
  {
    BeginThen(s, t, Unload(name), 3);
    var s0 := Move(s, t, Unload(name)).s;
    GoOn(s0, t, 2);
    var s1 := Move(s0, t, Go).s;
    r := RefuseEnds(s1, t, m);
    assert r.mlock == s.mlock;
  }

  lemma RefuseEnds(s: State, t: nat, m: nat) returns (r: State)
    requires PcOf(s, t) == Doomed(m) && m in s.mods && !Unused(s.mods[m].lock)
    ensures From(s, Gos(t, 2)) == Next(r) && OnlyBy(s, r, t) && PcOf(r, t) == Denied(m) && r == s.(mlock := s.mlock.(writer := None), pcs := r.pcs)
  {
    GoOn(s, t, 1);
    var s1 := Move(s, t, Go).s;
    GoOn(s1, t, 0);
    r := Move(s1, t, Go).s;
  }

  /** A module is stopped. */
  lemma StopRun(s: State, t: nat, name: nat, m: nat) returns (r: State)
    requires PcOf(s, t).Idle? && Free(s.mlock) && name in s.names && s.names[name] == m && m in s.mods
    ensures From(s, [(t, Switch(name, false))] + Gos(t, 2)) == Next(r) && OnlyBy(s, r, t)
    ensures PcOf(r, t) == Idle && r == s.(mods := s.mods[m := s.mods[m].(run := false)], pcs := r.pcs)
  {
    r := SwitchFound(s, t, name, false);
  }

  /** A function creates a task while its module is stopped. */
  lemma SpawnRun(s: State, t: nat, f: nat, m: nat) returns (r: State)
    requires PcOf(s, t) == Inside(f, m) && m in s.mods && !s.mods[m].run && s.mods[m].lock.writer.None?
    ensures From(s, [(t, Spawn)] + Gos(t, 1)) == Next(r) && PcOf(r, t) == Inside(f, m)
    ensures r == s.(tasks := s.tasks[s.tnext := Task(m, Ignored, false)], tnext := s.tnext + 1, pcs := r.pcs)
    ensures forall w: nat :: w != t ==> PcOf(r, w) == PcOf(s, w)
  {
    var s0 := SpawnAsks(s, t, f, m);
    BeginThen(s, t, Spawn, 1);
    r := AskRefused(s0, t, f, m, s.tnext);
    assert r.mods == s.mods && r.tasks == s.tasks[s.tnext := Task(m, Ignored, false)];
  }

  lemma SpawnAsks(s: State, t: nat, f: nat, m: nat) returns (r: State)
    requires PcOf(s, t) == Inside(f, m) && m in s.mods && s.mods[m].lock.writer.None?
    ensures Move(s, t, Spawn) == Next(r) && r.pcs == s.pcs[t := Asked(f, m, s.tnext)]
    ensures r == s.(mods := s.mods[m := s.mods[m].(lock := Taken(s.mods[m].lock))], tasks := s.tasks[s.tnext := Task(m, Pending, false)],
                    tnext := s.tnext + 1, pcs := r.pcs)
  {
    r := Move(s, t, Spawn).s;
  }

  lemma AskRefused(s: State, t: nat, f: nat, m: nat, k: nat) returns (r: State)
    requires PcOf(s, t) == Asked(f, m, k) && m in s.mods && !s.mods[m].run
    ensures From(s, Gos(t, 1)) == Next(r) && PcOf(r, t) == Inside(f, m) && r.pcs == s.pcs[t := Inside(f, m)]
    ensures r == s.(mods := s.mods[m := s.mods[m].(lock := Given(s.mods[m].lock))], tasks := s.tasks[k := Task(m, Ignored, false)], pcs := r.pcs)
  {
    GoOn(s, t, 0);
    r := Move(s, t, Go).s;
  }

  /** A task ends that was refused its module: it gives back the lock of somebody else. */
  lemma StrayRun(s: State, k: nat, m: nat) returns (r: State)
    requires k in s.tasks && s.tasks[k] == Task(m, Ignored, false) && m in s.mods
    ensures From(s, [(0, End(k)), (0, End(k))]) == Next(r)
    ensures r == s.(mods := s.mods[m := s.mods[m].(useCount := s.mods[m].useCount - 1, lock := Given(s.mods[m].lock))], tasks := s.tasks - {k})
  {
    var s1 := Move(s, 0, End(k)).s;
    r := Move(s1, 0, End(k)).s;
    assert [(0, End(k)), (0, End(k))][1..] == [(0, End(k))] && [(0, End(k))][1..] == [];
    assert From(s1, [(0, End(k))]) == Next(r);
  }

  predicate NoEnds(moves: seq<(nat, Action)>) {
    forall i :: 0 <= i < |moves| ==> !moves[i].1.End?
  }

  lemma {:induction false} NoEndsSteady(s: State, moves: seq<(nat, Action)>)
    requires NoEnds(moves)
    ensures Steady(s, moves)
    decreases |moves|
  {
    if moves != [] && Move(s, moves[0].0, moves[0].1).Next? {
      NoEndsSteady(Move(s, moves[0].0, moves[0].1).s, moves[1..]);
    }
  }

  /** A run goes on to a crash when an unload begins of a module that some thread has yet to read. */
  lemma CrashFrom(first: seq<(nat, Action)>, s: State, t: nat, name: nat, u: nat, m: nat) returns (more: seq<(nat, Action)>)
    requires NoEnds(first) && After(first) == Next(s)
    requires PcOf(s, t).Idle? && Free(s.mlock) && name in s.names && s.names[name] == m && Late(PcOf(s, u), m)
    ensures After(first + [(t, Unload(name))] + more) == Crash
  {
    NoEndsSteady(Start(), first);
    Reached(first, s);
    MoveOk(s, t, Unload(name));
    var r := Move(s, t, Unload(name)).s;
    more := HuntCrashes(r, t, u, m);
    FromConcat(Start(), first, [(t, Unload(name))]);
    assert [(t, Unload(name))][1..] == [];
    FromConcat(Start(), first + [(t, Unload(name))], more);
  }

  /** The thread `t` loads a module without an `onready`, the thread `u` unloads it before `t` reads it
      once more. */
  lemma LoadCrash(t: nat, u: nat, name: nat, f: nat) returns (more: seq<(nat, Action)>)
    requires t != u
    ensures After([(t, Load(name, [f], false))] + Gos(t, 8) + [(u, Unload(name))] + more) == Crash
  {
    var s := LoadRun(Start(), t, name, f);
    more := CrashFrom([(t, Load(name, [f], false))] + Gos(t, 8), s, u, name, t, 0);
  }

  /** The thread `t` loads a module and returns, `u` calls its function, `v` is refused to unload it,
      and `w` unloads it once `u` has returned and before `v` reads it. */
  lemma RefusedCrash(t: nat, u: nat, v: nat, w: nat, name: nat, f: nat) returns (more: seq<(nat, Action)>)
    requires t != u && t != v && t != w && u != v && u != w && v != w
    ensures After([(t, Load(name, [f], false))] + Gos(t, 9) + ([(u, Call(f, true))] + Gos(u, 4)) + ([(v, Unload(name))] + Gos(v, 3))
                  + [(w, Unload(name))] + more) == Crash
  {
    var a := [(t, Load(name, [f], false))] + Gos(t, 9);
    var b := [(u, Call(f, true))] + Gos(u, 4);
    var c := [(v, Unload(name))] + Gos(v, 3);
    var s1 := ServingRun(t, name, f);
    var s2 := CallRun(s1, u, name, f, 0);
    var s3 := RefuseRun(s2, v, name, 0);
    FromConcat(Start(), a, b);
    FromConcat(Start(), a + b, c);
    more := CrashFrom(a + b + c, s3, w, name, v, 0);
  }

  /** The thread `t` loads a module, `u` calls its function, and `v` stops the module meanwhile. */
  lemma StoppedRun(t: nat, u: nat, v: nat, name: nat, f: nat) returns (first: seq<(nat, Action)>, s: State)
    requires t != u && t != v && u != v
    ensures first == [(t, Load(name, [f], false))] + Gos(t, 9) + ([(u, Call(f, true))] + Gos(u, 4)) + ([(v, Switch(name, false))] + Gos(v, 2))
    ensures After(first) == Next(s) && NoEnds(first) && PcOf(s, u) == Inside(f, 0) && forall w: nat :: w != u ==> PcOf(s, w) == Idle
    ensures Free(s.mlock) && Free(s.flock) && name in s.names && s.names[name] == 0 && s.tasks == map[] && s.tnext == 0
    ensures 0 in s.mods && !s.mods[0].run && s.mods[0].lock == ModLock(1, None)
  {
    var a := [(t, Load(name, [f], false))] + Gos(t, 9);
    var b := [(u, Call(f, true))] + Gos(u, 4);
    var c := [(v, Switch(name, false))] + Gos(v, 2);
    var s1 := ServingRun(t, name, f);
    var s2 := CallRun(s1, u, name, f, 0);
    s := StopRun(s2, v, name, 0);
    FromConcat(Start(), a, b);
    FromConcat(Start(), a + b, c);
    first := a + b + c;
  }

  /** The function then creates a task, whose use of the module is refused, and the module is freed
      while the task runs. */
  lemma TaskCrash(t: nat, u: nat, v: nat, name: nat, f: nat) returns (first: seq<(nat, Action)>, more: seq<(nat, Action)>)
    requires t != u && t != v && u != v
    ensures first == [(t, Load(name, [f], false))] + Gos(t, 9) + ([(u, Call(f, true))] + Gos(u, 4)) + ([(v, Switch(name, false))] + Gos(v, 2))
    ensures After(first + ([(u, Spawn)] + Gos(u, 1)) + more) == Crash
  {
    var s;
    first, s := StoppedRun(t, u, v, name, f);
    var r := SpawnRun(s, u, f, 0);
    var b := [(u, Spawn)] + Gos(u, 1);
    FromConcat(Start(), first, b);
    NoEndsSteady(Start(), first + b);
    Reached(first + b, r);
    more := MisledCrashes(r, 0);
    FromConcat(Start(), first + b, more);
  }

  /** Or the task ends while the function runs: nobody seems to be in the module any more, it is
      unloaded, and the function returns to nothing. */
  lemma InsideCrash(t: nat, u: nat, v: nat, w: nat, name: nat, f: nat) returns (first: seq<(nat, Action)>, s: State, more: seq<(nat, Action)>)
    requires t != u && t != v && u != v && w != u
    ensures After(first) == Next(s) && PcOf(s, u) == Inside(f, 0) && 0 in s.mods && s.mods[0].lock.readers == 0
    ensures After(first + [(w, Unload(name))] + more + [(u, Go)]) == Crash
  {
    var a, s1 := StoppedRun(t, u, v, name, f);
    var s2 := SpawnRun(s1, u, f, 0);
    s := StrayRun(s2, 0, 0);
    var b := [(u, Spawn)] + Gos(u, 1);
    var c := [(0, End(0)), (0, End(0))];
    FromConcat(Start(), a, b);
    FromConcat(Start(), a + b, c);
    first := a + b + c;
    assert PcOf(s, w) == PcOf(s2, w) == PcOf(s1, w) && PcOf(s, u) == PcOf(s2, u);
    more := InsideFreed(first, s, u, w, name, f);
  }

  lemma InsideFreed(first: seq<(nat, Action)>, s: State, u: nat, w: nat, name: nat, f: nat) returns (more: seq<(nat, Action)>)
    requires After(first) == Next(s) && PcOf(s, u) == Inside(f, 0) && w != u && PcOf(s, w) == Idle
    requires Free(s.mlock) && Free(s.flock) && name in s.names && s.names[name] == 0 && 0 in s.mods && Unused(s.mods[0].lock)
    ensures After(first + [(w, Unload(name))] + more + [(u, Go)]) == Crash
  {
    var s1 := Move(s, w, Unload(name)).s;
    var b, s2 := UnloadAlone(s1, w, 0);
    FromConcat(Start(), first, [(w, Unload(name))]);
    assert [(w, Unload(name))][1..] == [] && [(u, Go)][1..] == [];
    FromConcat(Start(), first + [(w, Unload(name))], b);
    FromConcat(Start(), first + [(w, Unload(name))] + b, [(u, Go)]);
    more := b;
  }
}
