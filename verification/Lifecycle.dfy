/** Atoms under their names: spawning, getting, killing and collecting them from any number of
    threads. Threads between `GetOrPut` and `Remove` of the spawn lock carry a program counter; every
    atom has a mailbox goroutine of its own. An event is one locked region of the code.

    What a thread reads from a reference count is left open here (the flag `referenced`), so the
    results hold whatever the counts are; counts are the subject of module References. */
module Lifecycle {
  import Lock = SpawnLock

  type Name = Lock.Name
  type Tid = Lock.Tid
  type Inst = nat  // an instance id

  /** Where the mailbox goroutine of an instance is. `Fresh` is a new instance, whose state still
      reads Halt; `StopKeep` and `StopDrop` refine Stopping after the reference count was read. */
  datatype Phase = Fresh | Spawning | Waiting | Busy | Stopping | StopKeep | StopDrop | Halted

  predicate Running(p: Phase) { p.Spawning? || p.Waiting? || p.Busy? }

  predicate ReadsHalt(p: Phase) { p.Fresh? || p.Halted? }

  /** What `start` will answer. */
  datatype Outcome = Pending | Started | Failed

  datatype Atom = Atom(name: Name, phase: Phase, outcome: Outcome)

  datatype PC =
    | Look(name: Name)
    | Met(name: Name, prev: Inst)
    | AwaitStop(name: Name, prev: Inst)
    | Create(name: Name)
    | Starting(name: Name, new_: Inst)
    | Failing(name: Name, new_: Inst)
    | FailingUnreferenced(name: Name, new_: Inst)
    | Done(name: Name)

  datatype State = State(lock: Lock.State, atoms: map<Name, Inst>, inst: map<Inst, Atom>, pc: map<Tid, PC>,
                         got: map<Tid, Inst>,   // getters that read an entry
                         touched: set<Inst>,    // instances somebody may hold a reference to
                         next: Inst)

  datatype Event =
    // threads and the spawn lock
    | Enter(t: Tid, name: Name) | Acquire(t: Tid) | Remove(t: Tid) | Unlock(t: Tid)
    // a spawning thread
    | ReadEntry(t: Tid) | Examine(t: Tid, getting: bool) | StoppedOrTimeout(t: Tid)
    | Insert(t: Tid, constructed: bool) | StartReturned(t: Tid)
    | ReleaseCheck(t: Tid, referenced: bool) | ReleaseDelete(t: Tid)
    // the mailbox goroutine of an instance
    | SetSpawning(i: Inst) | GoIdFailed(i: Inst) | SpawnFailed(i: Inst) | SetSpawn(i: Inst)
    | SetBusy(i: Inst) | SetWaiting(i: Inst) | SetStopping(i: Inst)
    | StopCheck(i: Inst, referenced: bool) | StopDelete(i: Inst) | SetHalted(i: Inst)
    // a getter, and the release of the last reference
    | GetRead(t: Tid, name: Name) | GetCheck(t: Tid) | Drained(i: Inst)

  function Start(): State { State(Lock.Start(), map[], map[], map[], map[], {}, 1) }

  /** Deletes the entry of the name of `i` if it still is `i`. */
  function Drop(s: State, i: Inst): State
  {
    if i in s.inst && s.inst[i].name in s.atoms && s.atoms[s.inst[i].name] == i then
      s.(atoms := s.atoms - {s.inst[i].name})
    else s
  }

  function Go(s: State, t: Tid, pc: PC): State { s.(pc := s.pc[t := pc]) }

  function ThreadStep(s: State, e: Event): State
  {
    match e
    case Enter(t, name) => s.(lock := Lock.Apply(s.lock, Lock.Enter(t, name)))
    case Acquire(t) =>
      var lock := Lock.Apply(s.lock, Lock.Acquire(t));
      if lock != s.lock && t in lock.pc then Go(s.(lock := lock), t, Look(lock.pc[t].name)) else s
    case Remove(t) =>
      if t in s.pc && s.pc[t].Done? then s.(lock := Lock.Apply(s.lock, Lock.Remove(t)), pc := s.pc - {t}) else s
    case Unlock(t) => s.(lock := Lock.Apply(s.lock, Lock.Unlock(t)))
    case ReadEntry(t) =>
      if t in s.pc && s.pc[t].Look? then
        var name := s.pc[t].name;
        Go(s, t, if name in s.atoms then Met(name, s.atoms[name]) else Create(name))
      else s
    case Examine(t, getting) =>
      if t in s.pc && s.pc[t].Met? && s.pc[t].prev in s.inst then
        var name, prev := s.pc[t].name, s.pc[t].prev;
        var phase := s.inst[prev].phase;
        if Running(phase) then
          // an error to a spawner, a reference to a getter
          Go(if getting then s.(touched := s.touched + {prev}) else s, t, Done(name))
        else if ReadsHalt(phase) then Go(s, t, Create(name))
        else Go(s, t, AwaitStop(name, prev))
      else s
    case StoppedOrTimeout(t) =>
      if t in s.pc && s.pc[t].AwaitStop? then Go(s, t, Create(s.pc[t].name)) else s
    case Insert(t, constructed) =>
      if t in s.pc && s.pc[t].Create? then
        var name := s.pc[t].name;
        if !constructed then Go(s, t, Done(name)) else
          Go(s.(inst := s.inst[s.next := Atom(name, Fresh, Pending)],
                atoms := s.atoms[name := s.next], next := s.next + 1),
             t, Starting(name, s.next))
      else s
    case StartReturned(t) =>
      if t in s.pc && s.pc[t].Starting? && s.pc[t].new_ in s.inst && !s.inst[s.pc[t].new_].outcome.Pending? then
        var name, i := s.pc[t].name, s.pc[t].new_;
        if s.inst[i].outcome.Started? then Go(s.(touched := s.touched + {i}), t, Done(name))
        else Go(s, t, Failing(name, i))
      else s
    case ReleaseCheck(t, referenced) =>
      if t in s.pc && s.pc[t].Failing? && s.pc[t].new_ in s.inst then
        var name, i := s.pc[t].name, s.pc[t].new_;
        Go(s, t, if !ReadsHalt(s.inst[i].phase) || referenced then Done(name) else FailingUnreferenced(name, i))
      else s
    case ReleaseDelete(t) =>
      if t in s.pc && s.pc[t].FailingUnreferenced? then Go(Drop(s, s.pc[t].new_), t, Done(s.pc[t].name)) else s
    case GetRead(t, name) => if name in s.atoms then s.(got := s.got[t := s.atoms[name]]) else s
    case GetCheck(t) =>
      if t in s.got && s.got[t] in s.inst then
        s.(got := s.got - {t},
           touched := if ReadsHalt(s.inst[s.got[t]].phase) then s.touched else s.touched + {s.got[t]})
      else s
    case Drained(i) =>
      if i in s.touched && i in s.inst && ReadsHalt(s.inst[i].phase) then Drop(s, i) else s
    case _ => s
  }

  /** What a mailbox goroutine does to its own instance. */
  function AtomNext(a: Atom, e: Event): Atom
  {
    match (a.phase, e)
    case (Fresh, SetSpawning(_)) => a.(phase := Spawning)
    case (Fresh, GoIdFailed(_)) => a.(phase := Halted, outcome := Failed)
    case (Spawning, SpawnFailed(_)) => a.(phase := Halted, outcome := Failed)
    case (Spawning, SetSpawn(_)) => a.(phase := Waiting, outcome := Started)
    case (Waiting, SetBusy(_)) => a.(phase := Busy)
    case (Busy, SetWaiting(_)) => a.(phase := Waiting)
    case (Waiting, SetStopping(_)) => a.(phase := Stopping)
    case (Busy, SetStopping(_)) => a.(phase := Stopping)
    case (Stopping, StopCheck(_, referenced)) => a.(phase := if referenced then StopKeep else StopDrop)
    case (StopDrop, StopDelete(_)) => a.(phase := StopKeep)
    case (Stopping, SetHalted(_)) => a.(phase := Halted)
    case (StopKeep, SetHalted(_)) => a.(phase := Halted)
    case _ => a
  }

  predicate IsAtomStep(e: Event)
  {
    e.SetSpawning? || e.GoIdFailed? || e.SpawnFailed? || e.SetSpawn? || e.SetBusy? || e.SetWaiting? || e.SetStopping? ||
    e.StopCheck? || e.StopDelete? || e.SetHalted?
  }

  function AtomStep(s: State, e: Event): State
    requires IsAtomStep(e)
  {
    if e.i !in s.inst then s else
      var y := if e.StopDelete? && s.inst[e.i].phase.StopDrop? then Drop(s, e.i) else s;
      y.(inst := y.inst[e.i := AtomNext(y.inst[e.i], e)])
  }

  function Apply(s: State, e: Event): State
  {
    if IsAtomStep(e) then AtomStep(s, e) else ThreadStep(s, e)
  }

  function Run(es: seq<Event>): State
  {
    if es == [] then Start() else Apply(Run(es[..|es| - 1]), es[|es| - 1])
  }

  /** Running, or about to be. */
  predicate Live(s: State, i: Inst)
  {
    i in s.inst && (s.inst[i].phase.Fresh? || Running(s.inst[i].phase))
  }

  ghost predicate NoLive(s: State, name: Name)
  {
    forall i :: Live(s, i) ==> s.inst[i].name != name
  }

  ghost predicate Known(s: State)
  {
    && (forall i :: i in s.inst ==> i < s.next)
    && (forall n :: n in s.atoms ==> s.atoms[n] in s.inst && s.inst[s.atoms[n]].name == n)
    && (forall i :: i in s.touched ==> i in s.inst)
    && (forall t :: t in s.got ==> s.got[t] in s.inst)
    && (forall i :: i in s.inst && s.inst[i].outcome.Failed? ==> s.inst[i].phase.Halted?)
    && (forall i :: i in s.inst && s.inst[i].phase.Fresh? ==> s.inst[i].outcome.Pending?)
  }

  /** Threads with a program counter are inside the spawn lock of their name. */
  ghost predicate Guarded(s: State)
  {
    && Lock.Inv(s.lock)
    && (forall t :: t in s.pc ==> Lock.InCritical(s.lock, t, s.pc[t].name))
  }

  /** What a thread knows at its program counter. */
  ghost predicate Knows(s: State, pc: PC)
  {
    match pc
    case Met(name, prev) =>
      prev in s.inst && s.inst[prev].name == name && forall j :: Live(s, j) && s.inst[j].name == name ==> j == prev
    case AwaitStop(name, prev) => NoLive(s, name)
    case Create(name) => NoLive(s, name)
    case Starting(name, i) => i in s.inst && s.inst[i].name == name
    case Failing(name, i) => i in s.inst && s.inst[i].outcome.Failed?
    case FailingUnreferenced(name, i) => i in s.inst && s.inst[i].outcome.Failed?
    case _ => true
  }

  ghost predicate Informed(s: State) { forall t :: t in s.pc ==> Knows(s, s.pc[t]) }

  /** The property: a live instance is the entry of its name. */
  ghost predicate LiveIsEntry(s: State)
  {
    forall i :: Live(s, i) ==> s.inst[i].name in s.atoms && s.atoms[s.inst[i].name] == i
  }

  /** A fresh instance is unknown to everybody but the thread that is starting it. */
  ghost predicate FreshIsPrivate(s: State)
  {
    forall i :: i in s.inst && s.inst[i].phase.Fresh? ==>
      i !in s.touched && exists t :: t in s.pc && s.pc[t] == Starting(s.inst[i].name, i)
  }

  ghost predicate Inv(s: State)
  {
    Known(s) && Guarded(s) && Informed(s) && LiveIsEntry(s) && FreshIsPrivate(s)
  }

  /** What atoms, getters and collection do: nothing becomes live or fresh, no live entry is lost. */
  ghost predicate Quieter(s: State, z: State)
  {
    && z.lock == s.lock && z.pc == s.pc && z.next == s.next && z.inst.Keys == s.inst.Keys
    && (forall i :: i in s.inst ==> z.inst[i].name == s.inst[i].name)
    && (forall i :: Live(z, i) ==> Live(s, i))
    && (forall i :: i in s.inst && z.inst[i].phase.Fresh? ==> s.inst[i].phase.Fresh?)
    && (forall i :: i in s.inst && z.inst[i].phase.Fresh? ==> z.inst[i].outcome.Pending?)
    && (forall i :: i in s.inst && z.inst[i].outcome.Failed? ==> z.inst[i].phase.Halted?)
    && (forall i :: i in s.inst && s.inst[i].outcome.Failed? ==> z.inst[i].outcome.Failed?)
    && (forall n :: n in z.atoms ==> n in s.atoms && z.atoms[n] == s.atoms[n])
    && (forall n :: n in s.atoms && n !in z.atoms ==> !Live(z, s.atoms[n]))
    && (forall i :: i in z.touched ==> i in s.touched || (i in s.inst && !s.inst[i].phase.Fresh?))
    && (forall t :: t in z.got ==> z.got[t] in s.inst)
  }

  lemma QuieterKeeps(s: State, z: State)
    requires Inv(s) && Quieter(s, z)
    ensures Inv(z)
  {
    forall i | i in z.inst && z.inst[i].phase.Fresh?
      ensures i !in z.touched && exists t :: t in z.pc && z.pc[t] == Starting(z.inst[i].name, i)
    {
      assert s.inst[i].phase.Fresh?;
    }
  }

  /** `b` is what `a` may turn into: it neither becomes live nor fresh. */
  ghost predicate Calmer(a: Atom, b: Atom)
  {
    && b.name == a.name
    && (b.phase.Fresh? || Running(b.phase) ==> a.phase.Fresh? || Running(a.phase))
    && (b.phase.Fresh? ==> a.phase.Fresh? && b.outcome.Pending?)
    && (b.outcome.Failed? ==> b.phase.Halted?)
    && (a.outcome.Failed? ==> b.outcome.Failed?)
  }

  lemma AtomNextIsCalmer(a: Atom, e: Event)
    requires (a.phase.Fresh? ==> a.outcome.Pending?) && (a.outcome.Failed? ==> a.phase.Halted?)
    ensures Calmer(a, AtomNext(a, e))
  {
  }

  lemma CalmerKeeps(s: State, i: Inst, b: Atom)
    requires Inv(s) && i in s.inst && Calmer(s.inst[i], b)
    ensures Inv(s.(inst := s.inst[i := b]))
  {
    QuieterKeeps(s, s.(inst := s.inst[i := b]));
  }

  lemma DropKeeps(s: State, i: Inst)
    requires Inv(s) && !Live(s, i)
    ensures Inv(Drop(s, i))
  {
    QuieterKeeps(s, Drop(s, i));
  }

  lemma AtomStepKeeps(s: State, e: Event)
    requires Inv(s) && IsAtomStep(e)
    ensures Inv(Apply(s, e))
  {
    if e.i in s.inst {
      var drops := e.StopDelete? && s.inst[e.i].phase.StopDrop?;
      var y := if drops then Drop(s, e.i) else s;
      if drops {
        DropKeeps(s, e.i);
      }
      AtomNextIsCalmer(y.inst[e.i], e);
      CalmerKeeps(y, e.i, AtomNext(y.inst[e.i], e));
    }
  }

  lemma TouchKeeps(s: State, i: Inst)
    requires Inv(s) && i in s.inst && !s.inst[i].phase.Fresh?
    ensures Inv(s.(touched := s.touched + {i}))
  {
    QuieterKeeps(s, s.(touched := s.touched + {i}));
  }

  lemma GotKeeps(s: State, got: map<Tid, Inst>)
    requires Inv(s) && forall t :: t in got ==> got[t] in s.inst
    ensures Inv(s.(got := got))
  {
    QuieterKeeps(s, s.(got := got));
  }

  lemma GetReadKeeps(s: State, t: Tid, name: Name)
    requires Inv(s)
    ensures Inv(Apply(s, GetRead(t, name)))
  {
    if name in s.atoms {
      GotKeeps(s, s.got[t := s.atoms[name]]);
    }
  }

  lemma GetCheckKeeps(s: State, t: Tid)
    requires Inv(s)
    ensures Inv(Apply(s, GetCheck(t)))
  {
    if t in s.got && s.got[t] in s.inst {
      var y := s.(got := s.got - {t});
      GotKeeps(s, s.got - {t});
      if !ReadsHalt(s.inst[s.got[t]].phase) {
        TouchKeeps(y, s.got[t]);
      }
    }
  }

  lemma DrainedKeeps(s: State, i: Inst)
    requires Inv(s)
    ensures Inv(Apply(s, Drained(i)))
  {
    if i in s.touched && i in s.inst && ReadsHalt(s.inst[i].phase) {
      DropKeeps(s, i);
    }
  }

  /** A thread that moves on, knowing what it has to know, without forgetting a fresh instance. */
  lemma GoKeeps(s: State, t: Tid, pc: PC)
    requires Inv(s) && t in s.pc && pc.name == s.pc[t].name && Knows(s, pc)
    requires s.pc[t].Starting? ==> !s.inst[s.pc[t].new_].phase.Fresh?
    ensures Inv(Go(s, t, pc))
  {
    var z := Go(s, t, pc);
    forall u | u in z.pc ensures Knows(z, z.pc[u]) {
      assert Knows(s, z.pc[u]);
    }
    forall i | i in z.inst && z.inst[i].phase.Fresh?
      ensures i !in z.touched && exists u :: u in z.pc && z.pc[u] == Starting(z.inst[i].name, i)
    {
      var u :| u in s.pc && s.pc[u] == Starting(s.inst[i].name, i);
      assert u != t && u in z.pc && z.pc[u] == s.pc[u];
    }
  }

  lemma OnlyOneInside(s: State, t: Tid, u: Tid)
    requires Guarded(s) && t in s.pc && u in s.pc && s.pc[t].name == s.pc[u].name
    ensures t == u
  {
    Lock.Exclusive(s.lock, t, u, s.pc[t].name);
  }

  lemma InsertKeepsKnowledge(s: State, t: Tid, u: Tid)
    requires Inv(s) && t in s.pc && s.pc[t].Create? && u in s.pc
    ensures Knows(Apply(s, Insert(t, true)), Apply(s, Insert(t, true)).pc[u])
  {
    var z := Apply(s, Insert(t, true));
    if u != t {
      assert Knows(s, s.pc[u]);
      if s.pc[u].name == s.pc[t].name {
        OnlyOneInside(s, t, u);
      }
      forall j | Live(z, j) ensures j == s.next || Live(s, j) {}
    }
  }

  lemma InsertKeepsEntries(s: State, t: Tid)
    requires Inv(s) && t in s.pc && s.pc[t].Create?
    ensures LiveIsEntry(Apply(s, Insert(t, true)))
  {
    var z := Apply(s, Insert(t, true));
    assert Knows(s, s.pc[t]);
    forall i | Live(z, i) ensures z.inst[i].name in z.atoms && z.atoms[z.inst[i].name] == i {
      assert i == s.next || Live(s, i);
    }
  }

  lemma InsertKeepsFreshPrivate(s: State, t: Tid)
    requires Inv(s) && t in s.pc && s.pc[t].Create?
    ensures FreshIsPrivate(Apply(s, Insert(t, true)))
  {
    var z := Apply(s, Insert(t, true));
    forall i | i in z.inst && z.inst[i].phase.Fresh?
      ensures i !in z.touched && exists u :: u in z.pc && z.pc[u] == Starting(z.inst[i].name, i)
    {
      if i == s.next {
        assert z.pc[t] == Starting(s.pc[t].name, i);
      } else {
        var u :| u in s.pc && s.pc[u] == Starting(s.inst[i].name, i);
        assert u in z.pc && z.pc[u] == s.pc[u];
      }
    }
  }

  lemma InsertKeepsInformed(s: State, t: Tid)
    requires Inv(s) && t in s.pc && s.pc[t].Create?
    ensures Informed(Apply(s, Insert(t, true)))
  {
    forall u | u in s.pc ensures Knows(Apply(s, Insert(t, true)), Apply(s, Insert(t, true)).pc[u]) {
      InsertKeepsKnowledge(s, t, u);
    }
  }

  lemma InsertKeepsRest(s: State, t: Tid)
    requires Known(s) && Guarded(s) && t in s.pc && s.pc[t].Create?
    ensures Known(Apply(s, Insert(t, true))) && Guarded(Apply(s, Insert(t, true)))
  {
  }

  lemma InsertKeeps(s: State, t: Tid)
    requires Inv(s) && t in s.pc && s.pc[t].Create?
    ensures Inv(Apply(s, Insert(t, true)))
  {
    InsertKeepsRest(s, t);
    InsertKeepsEntries(s, t);
    InsertKeepsFreshPrivate(s, t);
    InsertKeepsInformed(s, t);
  }

  lemma RelockKeeps(s: State, lock: Lock.State)
    requires Inv(s) && Lock.Inv(lock) && forall t :: t in s.pc ==> Lock.InCritical(lock, t, s.pc[t].name)
    ensures Inv(s.(lock := lock))
  {
    var z := s.(lock := lock);
    forall u | u in z.pc ensures Knows(z, z.pc[u]) {
      assert Knows(s, s.pc[u]);
    }
    forall i | i in z.inst && z.inst[i].phase.Fresh?
      ensures i !in z.touched && exists u :: u in z.pc && z.pc[u] == Starting(z.inst[i].name, i)
    {
      var u :| u in s.pc && s.pc[u] == Starting(s.inst[i].name, i);
      assert u in z.pc && z.pc[u] == s.pc[u];
    }
  }

  /** A thread that got the lock starts looking; one that is done stops being tracked. */
  lemma JoinOrLeaveKeeps(s: State, pc: map<Tid, PC>, t: Tid)
    requires Inv(s)
    requires (t !in s.pc && t in s.lock.pc && Lock.InCritical(s.lock, t, s.lock.pc[t].name)
              && pc == s.pc[t := Look(s.lock.pc[t].name)])
          || (t in s.pc && s.pc[t].Done? && pc == s.pc - {t})
    ensures Inv(s.(pc := pc))
  {
    var z := s.(pc := pc);
    forall u | u in z.pc ensures Knows(z, z.pc[u]) {
      assert u in s.pc ==> Knows(s, s.pc[u]);
    }
    forall i | i in z.inst && z.inst[i].phase.Fresh?
      ensures i !in z.touched && exists u :: u in z.pc && z.pc[u] == Starting(z.inst[i].name, i)
    {
      var u :| u in s.pc && s.pc[u] == Starting(s.inst[i].name, i);
      assert u in z.pc && z.pc[u] == s.pc[u];
    }
  }

  lemma LockStepKeeps(s: State, e: Lock.Event)
    requires Inv(s) && (e.Remove? ==> e.t !in s.pc)
    ensures Inv(s.(lock := Lock.Apply(s.lock, e)))
  {
    Lock.StepKeeps(s.lock, e);
    forall u | u in s.pc ensures Lock.InCritical(Lock.Apply(s.lock, e), u, s.pc[u].name) {
      Lock.OthersStay(s.lock, e, u, s.pc[u].name);
    }
    RelockKeeps(s, Lock.Apply(s.lock, e));
  }

  lemma LockEventKeeps(s: State, e: Event)
    requires Inv(s) && (e.Enter? || e.Acquire? || e.Remove? || e.Unlock?)
    ensures Inv(Apply(s, e))
  {
    match e {
      case Enter(t, name) => LockStepKeeps(s, Lock.Enter(t, name));
      case Unlock(t) => LockStepKeeps(s, Lock.Unlock(t));
      case Acquire(t) =>
        var lock := Lock.Apply(s.lock, Lock.Acquire(t));
        if lock != s.lock {
          LockStepKeeps(s, Lock.Acquire(t));
          assert t in s.pc ==> Lock.InCritical(s.lock, t, s.pc[t].name);
          JoinOrLeaveKeeps(s.(lock := lock), s.pc[t := Look(lock.pc[t].name)], t);
        }
      case Remove(t) =>
        if t in s.pc && s.pc[t].Done? {
          JoinOrLeaveKeeps(s, s.pc - {t}, t);
          LockStepKeeps(s.(pc := s.pc - {t}), Lock.Remove(t));
        }
    }
  }

  /** The instance met under a name cannot be fresh: its starter would be inside the lock too. */
  lemma MetIsNotFresh(s: State, t: Tid)
    requires Inv(s) && t in s.pc && s.pc[t].Met?
    ensures Knows(s, s.pc[t]) && !s.inst[s.pc[t].prev].phase.Fresh?
  {
    assert Knows(s, s.pc[t]);
    var i := s.pc[t].prev;
    if s.inst[i].phase.Fresh? {
      var u :| u in s.pc && s.pc[u] == Starting(s.inst[i].name, i);
      OnlyOneInside(s, t, u);
    }
  }

  lemma ReadEntryKeeps(s: State, t: Tid)
    requires Inv(s)
    ensures Inv(Apply(s, ReadEntry(t)))
  {
    if t in s.pc && s.pc[t].Look? {
      var name := s.pc[t].name;
      GoKeeps(s, t, if name in s.atoms then Met(name, s.atoms[name]) else Create(name));
    }
  }

  lemma ExamineKeeps(s: State, t: Tid, getting: bool)
    requires Inv(s)
    ensures Inv(Apply(s, Examine(t, getting)))
  {
    if t in s.pc && s.pc[t].Met? {
      MetIsNotFresh(s, t);
      var name, prev := s.pc[t].name, s.pc[t].prev;
      if Running(s.inst[prev].phase) {
        TouchKeeps(s, prev);
        GoKeeps(if getting then s.(touched := s.touched + {prev}) else s, t, Done(name));
      } else {
        GoKeeps(s, t, if ReadsHalt(s.inst[prev].phase) then Create(name) else AwaitStop(name, prev));
      }
    }
  }

  lemma StoppedOrTimeoutKeeps(s: State, t: Tid)
    requires Inv(s)
    ensures Inv(Apply(s, StoppedOrTimeout(t)))
  {
    if t in s.pc && s.pc[t].AwaitStop? {
      assert Knows(s, s.pc[t]);
      GoKeeps(s, t, Create(s.pc[t].name));
    }
  }

  lemma StartKeeps(s: State, t: Tid)
    requires Inv(s)
    ensures Inv(Apply(s, StartReturned(t)))
  {
    if t in s.pc && s.pc[t].Starting? {
      assert Knows(s, s.pc[t]);
      var name, i := s.pc[t].name, s.pc[t].new_;
      if s.inst[i].outcome.Started? {
        var y := s.(touched := s.touched + {i});
        TouchKeeps(s, i);
        GoKeeps(y, t, Done(name));
      } else if s.inst[i].outcome.Failed? {
        GoKeeps(s, t, Failing(name, i));
      }
    }
  }

  lemma ReleaseCheckKeeps(s: State, t: Tid, referenced: bool)
    requires Inv(s)
    ensures Inv(Apply(s, ReleaseCheck(t, referenced)))
  {
    if t in s.pc && s.pc[t].Failing? {
      assert Knows(s, s.pc[t]);
      var name, i := s.pc[t].name, s.pc[t].new_;
      GoKeeps(s, t, if !ReadsHalt(s.inst[i].phase) || referenced then Done(name) else FailingUnreferenced(name, i));
    }
  }

  lemma ReleaseDeleteKeeps(s: State, t: Tid)
    requires Inv(s)
    ensures Inv(Apply(s, ReleaseDelete(t)))
  {
    if t in s.pc && s.pc[t].FailingUnreferenced? {
      assert Knows(s, s.pc[t]);
      DropKeeps(s, s.pc[t].new_);
      GoKeeps(Drop(s, s.pc[t].new_), t, Done(s.pc[t].name));
    }
  }

  lemma InsertStepKeeps(s: State, e: Event)
    requires Inv(s) && e.Insert?
    ensures Inv(Apply(s, e))
  {
    if e.t in s.pc && s.pc[e.t].Create? {
      if e.constructed {
        InsertKeeps(s, e.t);
      } else {
        GoKeeps(s, e.t, Done(s.pc[e.t].name));
      }
    }
  }

  lemma StepKeeps(s: State, e: Event)
    requires Inv(s)
    ensures Inv(Apply(s, e))
  {
    match e
    case Enter(_, _) => LockEventKeeps(s, e);
    case Acquire(_) => LockEventKeeps(s, e);
    case Remove(_) => LockEventKeeps(s, e);
    case Unlock(_) => LockEventKeeps(s, e);
    case ReadEntry(t) => ReadEntryKeeps(s, t);
    case Examine(t, getting) => ExamineKeeps(s, t, getting);
    case StoppedOrTimeout(t) => StoppedOrTimeoutKeeps(s, t);
    case Insert(_, _) => InsertStepKeeps(s, e);
    case StartReturned(_) => StartKeeps(s, e.t);
    case ReleaseCheck(t, referenced) => ReleaseCheckKeeps(s, t, referenced);
    case ReleaseDelete(t) => ReleaseDeleteKeeps(s, t);
    case GetRead(t, name) => GetReadKeeps(s, t, name);
    case GetCheck(t) => GetCheckKeeps(s, t);
    case Drained(i) => DrainedKeeps(s, i);
    case _ => AtomStepKeeps(s, e);
  }

  lemma {:induction false} RunKeeps(es: seq<Event>)
    ensures Inv(Run(es))
  {
    if es != [] {
      RunKeeps(es[..|es| - 1]);
      StepKeeps(Run(es[..|es| - 1]), es[|es| - 1]);
    }
  }

  /** In every interleaving, of all instances ever created under a name at most one is Spawning,
      Waiting or Busy, and it is the entry of that name. */
  lemma {:induction false} OneRunningPerName(es: seq<Event>, i: Inst, j: Inst)
    requires var s := Run(es);
             && i in s.inst && Running(s.inst[i].phase) && j in s.inst && Running(s.inst[j].phase)
             && s.inst[i].name == s.inst[j].name
    ensures var s := Run(es);
            i == j && s.inst[i].name in s.atoms && s.atoms[s.inst[i].name] == i
  {
    RunKeeps(es);
    var s := Run(es);
    assert Live(s, i) && Live(s, j);
  }

  lemma ThreadsReviveNobody(s: State, e: Event, i: Inst)
    requires i in s.inst && i < s.next
    ensures i in ThreadStep(s, e).inst && ThreadStep(s, e).inst[i] == s.inst[i]
  {
  }

  lemma NeverRevived(s: State, e: Event, i: Inst)
    requires i in s.inst && i < s.next && !Live(s, i)
    ensures i in Apply(s, e).inst && !Live(Apply(s, e), i) && Apply(s, e).inst[i].name == s.inst[i].name
  {
    if !IsAtomStep(e) {
      ThreadsReviveNobody(s, e, i);
    }
  }

  /** Once an instance stops running it never runs again: its name is only revived by a new one. */
  lemma {:induction false} StoppedStaysStopped(es: seq<Event>, k: nat, i: Inst)
    requires k <= |es| && i in Run(es[..k]).inst && !Live(Run(es[..k]), i)
    ensures i in Run(es).inst && !Live(Run(es), i) && Run(es).inst[i].name == Run(es[..k]).inst[i].name
    decreases |es|
  {
    if k == |es| {
      assert es[..k] == es;
    } else {
      var front := es[..|es| - 1];
      assert front[..k] == es[..k];
      StoppedStaysStopped(front, k, i);
      RunKeeps(front);
      NeverRevived(Run(front), es[|es| - 1], i);
    }
  }
}
