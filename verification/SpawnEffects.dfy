/** What spawning, stopping, getting and collecting do, from whatever state any run has led to. */
module SpawnEffects {
  import opened Lifecycle
  import Lock = SpawnLock

  lemma RunMore(es: seq<Event>, e: Event)
    ensures Run(es + [e]) == Apply(Run(es), e)
  {
    assert (es + [e])[..|es|] == es;
  }

  lemma RunTwo(es: seq<Event>, d: Event, e: Event)
    ensures Run(es + [d] + [e]) == Apply(Apply(Run(es), d), e)
  {
    RunMore(es, d);
    RunMore(es + [d], e);
  }

  lemma RunThree(es: seq<Event>, c: Event, d: Event, e: Event)
    ensures Run(es + [c] + [d] + [e]) == Apply(Apply(Apply(Run(es), c), d), e)
  {
    RunTwo(es, c, d);
    RunMore(es + [c] + [d], e);
  }

  /** A starting thread knows its instance; one that has not halted is the entry of its name. */
  lemma StarterKnows(es: seq<Event>, t: Tid, name: Name, i: Inst)
    requires At(Run(es), t, Starting(name, i))
    ensures i in Run(es).inst && Run(es).inst[i].name == name
    ensures Is(Run(es), i, Fresh) ==>
              name in Run(es).atoms && Run(es).atoms[name] == i && Run(es).inst[i].outcome.Pending?
  {
    RunKeeps(es);
    assert Knows(Run(es), Run(es).pc[t]);
    assert Is(Run(es), i, Fresh) ==> Live(Run(es), i);
  }

  lemma RunningIsEntry(es: seq<Event>, i: Inst)
    requires i in Run(es).inst && Running(Run(es).inst[i].phase)
    ensures Run(es).inst[i].name in Run(es).atoms && Run(es).atoms[Run(es).inst[i].name] == i
  {
    RunKeeps(es);
    assert Live(Run(es), i);
  }

  predicate At(s: State, t: Tid, pc: PC) { t in s.pc && s.pc[t] == pc }

  /** The instance `i` under a name as another thread finds it. */
  predicate Is(s: State, i: Inst, phase: Phase) { i in s.inst && s.inst[i].phase == phase }

  /** A spawner that has the name to itself makes a new instance the entry, unless the constructor
      fails. */
  lemma {:induction false} CreateInserts(es: seq<Event>, t: Tid, name: Name, constructed: bool)
    requires At(Run(es), t, Create(name))
    ensures var q, z := Run(es), Run(es + [Insert(t, constructed)]);
            && z.lock == q.lock && z.got == q.got && z.touched == q.touched
            && (!constructed ==> z.pc == q.pc[t := Done(name)] && z.atoms == q.atoms && z.inst == q.inst)
            && (constructed ==> exists i ::
                  && i !in q.inst && z.inst == q.inst[i := Atom(name, Fresh, Pending)]
                  && z.atoms == q.atoms[name := i] && z.pc == q.pc[t := Starting(name, i)])
  {
    RunMore(es, Insert(t, constructed));
    RunKeeps(es);
    assert Run(es).next !in Run(es).inst;
  }

  lemma Examines(s: State, t: Tid, name: Name, prev: Inst, getting: bool)
    requires At(s, t, Met(name, prev)) && prev in s.inst
    ensures var phase := s.inst[prev].phase;
            Apply(s, Examine(t, getting)) ==
            if Running(phase) then
              Go(s.(touched := s.touched + if getting then {prev} else {}), t, Done(name))
            else Go(s, t, if ReadsHalt(phase) then Create(name) else AwaitStop(name, prev))
  {
    assert s.touched + {} == s.touched;
  }

  lemma Waited(s: State, t: Tid)
    requires t in s.pc
    ensures Apply(s, StoppedOrTimeout(t)) == if s.pc[t].AwaitStop? then Go(s, t, Create(s.pc[t].name)) else s
  {
  }

  /** What a thread finds out about the instance it met, in however many steps: nothing but its own
      program counter and its reference changes. */
  lemma {:induction false} ExamineDecides(es: seq<Event>, t: Tid, name: Name, prev: Inst, getting: bool)
    requires At(Run(es), t, Met(name, prev))
    ensures var q, z := Run(es), Run(es + [Examine(t, getting)] + [StoppedOrTimeout(t)]);
            && prev in q.inst && z.atoms == q.atoms && z.inst == q.inst && z.lock == q.lock
            && z.got == q.got && z.pc.Keys == q.pc.Keys
            && (if Running(q.inst[prev].phase) then
                  At(z, t, Done(name)) && z.touched == q.touched + if getting then {prev} else {}
                else At(z, t, Create(name)) && z.touched == q.touched)
            && forall u :: u != t && u in q.pc ==> z.pc[u] == q.pc[u]
  {
    MetIsKnown(es, t);
    RunTwo(es, Examine(t, getting), StoppedOrTimeout(t));
    Examines(Run(es), t, name, prev, getting);
    Waited(Apply(Run(es), Examine(t, getting)), t);
  }

  lemma MetIsKnown(es: seq<Event>, t: Tid)
    requires t in Run(es).pc && Run(es).pc[t].Met?
    ensures Run(es).pc[t].prev in Run(es).inst
  {
    RunKeeps(es);
    assert Knows(Run(es), Run(es).pc[t]);
  }

  /** A thread inside the lock goes by the entry of its name as it is: a running one is refused to a
      spawner and referenced by a getter; any other, and none, leads to a new instance. */
  function Looking(es: seq<Event>, t: Tid, getting: bool): seq<Event>
  {
    es + [ReadEntry(t)] + [Examine(t, getting)] + [StoppedOrTimeout(t)]
  }

  predicate EntryRuns(s: State, name: Name)
  {
    name in s.atoms && s.atoms[name] in s.inst && Running(s.inst[s.atoms[name]].phase)
  }

  lemma Reads(s: State, t: Tid, name: Name)
    requires At(s, t, Look(name))
    ensures Apply(s, ReadEntry(t)) == Go(s, t, if name in s.atoms then Met(name, s.atoms[name]) else Create(name))
  {
  }

  lemma {:induction false} LookDecides(es: seq<Event>, t: Tid, name: Name, getting: bool)
    requires At(Run(es), t, Look(name))
    ensures var q, z := Run(es), Run(Looking(es, t, getting));
            && z.atoms == q.atoms && z.inst == q.inst
            && (if EntryRuns(q, name) then
                  At(z, t, Done(name)) && z.touched == q.touched + if getting then {q.atoms[name]} else {}
                else At(z, t, Create(name)) && z.touched == q.touched)
  {
    var q := Run(es);
    RunMore(es, ReadEntry(t));
    Reads(q, t, name);
    if name in q.atoms {
      ExamineDecides(es + [ReadEntry(t)], t, name, q.atoms[name], getting);
    } else {
      RunTwo(es + [ReadEntry(t)], Examine(t, getting), StoppedOrTimeout(t));
      Waited(Run(es + [ReadEntry(t)]), t);
    }
  }

  /** Spawning a name that has no running instance makes a new one under that name, whatever halted
      or stopping instance was there before; nothing else changes. */
  lemma {:induction false} SpawnMakesNew(es: seq<Event>, t: Tid, name: Name, getting: bool)
    requires At(Run(es), t, Look(name)) && !EntryRuns(Run(es), name)
    ensures var q, z := Run(es), Run(Looking(es, t, getting) + [Insert(t, true)]);
            exists i ::
              && i !in q.inst && z.inst == q.inst[i := Atom(name, Fresh, Pending)]
              && z.atoms == q.atoms[name := i] && At(z, t, Starting(name, i)) && z.touched == q.touched
  {
    LookDecides(es, t, name, getting);
    CreateInserts(Looking(es, t, getting), t, name, true);
  }

  lemma Moves(s: State, i: Inst, e: Event)
    requires IsAtomStep(e) && e.i == i && i in s.inst && !e.StopDelete?
    ensures Apply(s, e) == s.(inst := s.inst[i := AtomNext(s.inst[i], e)])
  {
  }

  /** A start that succeeds: the instance waits for mail and its spawner has a reference. */
  lemma {:induction false} StartSucceeds(es: seq<Event>, t: Tid, name: Name, i: Inst)
    requires At(Run(es), t, Starting(name, i)) && Is(Run(es), i, Fresh)
    ensures var q, z := Run(es), Run(es + [SetSpawning(i)] + [SetSpawn(i)] + [StartReturned(t)]);
            && z.inst == q.inst[i := Atom(name, Waiting, Started)] && z.atoms == q.atoms
            && z.pc == q.pc[t := Done(name)] && z.touched == q.touched + {i}
  {
    StarterKnows(es, t, name, i);
    RunThree(es, SetSpawning(i), SetSpawn(i), StartReturned(t));
    var q := Run(es);
    Moves(q, i, SetSpawning(i));
    Moves(Apply(q, SetSpawning(i)), i, SetSpawn(i));
  }

  function Clearing(es: seq<Event>, t: Tid, referenced: bool): seq<Event>
  {
    es + [StartReturned(t)] + [ReleaseCheck(t, referenced)] + [ReleaseDelete(t)]
  }

  lemma ReturnsFailed(s: State, t: Tid, name: Name, i: Inst)
    requires At(s, t, Starting(name, i)) && i in s.inst && s.inst[i].outcome.Failed?
    ensures Apply(s, StartReturned(t)) == Go(s, t, Failing(name, i))
  {
  }

  lemma Releases(s: State, t: Tid, name: Name, i: Inst, referenced: bool)
    requires At(s, t, Failing(name, i)) && Is(s, i, Halted) && s.inst[i].name == name
    ensures Apply(Apply(s, ReleaseCheck(t, referenced)), ReleaseDelete(t)) ==
            Go(if referenced then s else Drop(s, i), t, Done(name))
  {
    ReleaseChecks(s, t, name, i, referenced);
  }

  lemma ReleaseChecks(s: State, t: Tid, name: Name, i: Inst, referenced: bool)
    requires At(s, t, Failing(name, i)) && Is(s, i, Halted) && s.inst[i].name == name
    ensures Apply(s, ReleaseCheck(t, referenced)) ==
            Go(s, t, if referenced then Done(name) else FailingUnreferenced(name, i))
  {
  }

  lemma FailedIsHalted(es: seq<Event>, i: Inst)
    requires i in Run(es).inst && Run(es).inst[i].outcome.Failed?
    ensures Run(es).inst[i].phase == Halted
  {
    RunKeeps(es);
  }

  /** Clears up after a failed start. */
  lemma {:induction false} FailedStartIsReleased(es: seq<Event>, t: Tid, name: Name, i: Inst, referenced: bool)
    requires At(Run(es), t, Starting(name, i)) && i in Run(es).inst && Run(es).inst[i].outcome.Failed?
    ensures var q, z := Run(es), Run(Clearing(es, t, referenced));
            && z.inst == q.inst && z.touched == q.touched && At(z, t, Done(name))
            && z.atoms == if referenced || name !in q.atoms || q.atoms[name] != i then q.atoms else q.atoms - {name}
  {
    StarterKnows(es, t, name, i);
    FailedIsHalted(es, i);
    RunThree(es, StartReturned(t), ReleaseCheck(t, referenced), ReleaseDelete(t));
    ReturnsFailed(Run(es), t, name, i);
    Releases(Go(Run(es), t, Failing(name, i)), t, name, i, referenced);
  }

  /** Both ways for a start to fail: no goroutine, or an error from the spawn hook. */
  function FailedStart(es: seq<Event>, i: Inst, hook: bool): seq<Event>
  {
    if hook then es + [SetSpawning(i)] + [SpawnFailed(i)] else es + [GoIdFailed(i)]
  }

  lemma HookFails(s: State, i: Inst)
    requires Is(s, i, Fresh)
    ensures Apply(Apply(s, SetSpawning(i)), SpawnFailed(i)) ==
            s.(inst := s.inst[i := s.inst[i].(phase := Halted, outcome := Failed)])
  {
    Moves(s, i, SetSpawning(i));
    Moves(Apply(s, SetSpawning(i)), i, SpawnFailed(i));
  }

  lemma StartFails(es: seq<Event>, i: Inst, hook: bool)
    requires Is(Run(es), i, Fresh)
    ensures Run(FailedStart(es, i, hook)) ==
            Run(es).(inst := Run(es).inst[i := Run(es).inst[i].(phase := Halted, outcome := Failed)])
  {
    var q := Run(es);
    if hook {
      RunTwo(es, SetSpawning(i), SpawnFailed(i));
      HookFails(q, i);
    } else {
      RunMore(es, GoIdFailed(i));
      Moves(q, i, GoIdFailed(i));
    }
  }

  /** A start that fails leaves a halted instance and, unless it is referenced, no entry. */
  lemma {:induction false} FailedSpawnIsRemoved(es: seq<Event>, t: Tid, name: Name, i: Inst, hook: bool,
                                                referenced: bool)
    requires At(Run(es), t, Starting(name, i)) && Is(Run(es), i, Fresh)
    ensures var q, z := Run(es), Run(Clearing(FailedStart(es, i, hook), t, referenced));
            && z.inst == q.inst[i := Atom(name, Halted, Failed)] && z.touched == q.touched && At(z, t, Done(name))
            && z.atoms == if referenced then q.atoms else q.atoms - {name}
  {
    StarterKnows(es, t, name, i);
    StartFails(es, i, hook);
    FailedStartIsReleased(FailedStart(es, i, hook), t, name, i, referenced);
  }

  /** An instance at rest takes up a mail and comes back. */
  lemma {:induction false} WorksAndRests(es: seq<Event>, i: Inst)
    requires Is(Run(es), i, Waiting)
    ensures Is(Run(es + [SetBusy(i)]), i, Busy) && Run(es + [SetBusy(i)] + [SetWaiting(i)]) == Run(es)
  {
    RunMore(es, SetBusy(i));
    RunMore(es + [SetBusy(i)], SetWaiting(i));
    assert Run(es).inst[i := Run(es).inst[i]] == Run(es).inst;
  }

  lemma StopBegins(s: State, i: Inst, referenced: bool)
    requires Is(s, i, Waiting) || Is(s, i, Busy)
    ensures Apply(Apply(s, SetStopping(i)), StopCheck(i, referenced)) ==
            s.(inst := s.inst[i := s.inst[i].(phase := if referenced then StopKeep else StopDrop)])
  {
    Moves(s, i, SetStopping(i));
    Moves(Apply(s, SetStopping(i)), i, StopCheck(i, referenced));
  }

  lemma StopEnds(s: State, i: Inst)
    requires Is(s, i, StopKeep) || Is(s, i, StopDrop)
    ensures Apply(Apply(s, StopDelete(i)), SetHalted(i)) ==
            (if s.inst[i].phase.StopKeep? then s else Drop(s, i)).(inst := s.inst[i := s.inst[i].(phase := Halted)])
  {
    var y := Apply(s, StopDelete(i));
    assert y.inst == s.inst[i := s.inst[i].(phase := StopKeep)];
    Moves(y, i, SetHalted(i));
  }

  lemma Stopped(s: State, i: Inst, referenced: bool)
    requires i in s.inst
    ensures var phase := if referenced then StopKeep else StopDrop;
            Apply(Apply(s.(inst := s.inst[i := s.inst[i].(phase := phase)]), StopDelete(i)), SetHalted(i)) ==
            (if referenced then s else Drop(s, i)).(inst := s.inst[i := s.inst[i].(phase := Halted)])
  {
    var z := s.(inst := s.inst[i := s.inst[i].(phase := if referenced then StopKeep else StopDrop)]);
    StopEnds(z, i);
    assert z.inst[i := z.inst[i].(phase := Halted)] == s.inst[i := s.inst[i].(phase := Halted)];
  }

  function Stop(es: seq<Event>, i: Inst, referenced: bool): seq<Event>
  {
    es + [SetStopping(i)] + [StopCheck(i, referenced)] + [StopDelete(i)] + [SetHalted(i)]
  }

  /** An instance that is stopped ends halted, without its entry if it is not referenced; the entry
      of another instance stays. */
  lemma {:induction false} StopEndsHalted(es: seq<Event>, i: Inst, referenced: bool)
    requires Is(Run(es), i, Waiting) || Is(Run(es), i, Busy)
    ensures var q, z := Run(es), Run(Stop(es, i, referenced));
            var name := q.inst[i].name;
            && z.inst == q.inst[i := q.inst[i].(phase := Halted)] && z.pc == q.pc && z.touched == q.touched
            && z.atoms == if referenced then q.atoms else q.atoms - {name}
  {
    RunningIsEntry(es, i);
    RunThree(es, SetStopping(i), StopCheck(i, referenced), StopDelete(i));
    RunMore(es + [SetStopping(i)] + [StopCheck(i, referenced)] + [StopDelete(i)], SetHalted(i));
    StopBegins(Run(es), i, referenced);
    Stopped(Run(es), i, referenced);
  }

  /** A stopping instance halts, with its entry as it is by then, also if its stop never came to
      the collection. */
  lemma {:induction false} StoppingHalts(es: seq<Event>, i: Inst)
    requires Is(Run(es), i, Stopping) || Is(Run(es), i, StopKeep)
    ensures var q := Run(es);
            Run(es + [SetHalted(i)]) == q.(inst := q.inst[i := q.inst[i].(phase := Halted)])
  {
    RunMore(es, SetHalted(i));
    Moves(Run(es), i, SetHalted(i));
  }

  /** A getter has read the entry of the name, and refers to that instance unless it finds it
      halted, whatever happened since. */
  lemma {:induction false} GetterReads(es: seq<Event>, t: Tid, name: Name)
    ensures var q, z := Run(es), Run(es + [GetRead(t, name)]);
            z == if name in q.atoms then q.(got := q.got[t := q.atoms[name]]) else q
  {
    RunMore(es, GetRead(t, name));
  }

  lemma {:induction false} GetterRefers(es: seq<Event>, t: Tid)
    requires t in Run(es).got
    ensures var q, z := Run(es), Run(es + [GetCheck(t)]);
            && q.got[t] in q.inst && z.got == q.got - {t}
            && z.atoms == q.atoms && z.inst == q.inst && z.pc == q.pc
            && (if Is(q, q.got[t], Fresh) || Is(q, q.got[t], Halted) then z.touched == q.touched
                else z.touched == q.touched + {q.got[t]})
  {
    RunKeeps(es);
    RunMore(es, GetCheck(t));
  }

  /** The steps that put an instance under a name. */
  predicate Enters(s: State, e: Event, name: Name)
  {
    e.Insert? && e.constructed && At(s, e.t, Create(name))
  }

  /** The steps that take the instance `i` from under its name. */
  predicate Leaves(s: State, e: Event, i: Inst)
  {
    || (e.ReleaseDelete? && e.t in s.pc && s.pc[e.t].FailingUnreferenced? && s.pc[e.t].new_ == i)
    || (e == StopDelete(i) && Is(s, i, StopDrop))
    || (e == Drained(i) && i in s.touched && Is(s, i, Halted))
  }

  /** In every run, an entry appears exactly by a spawner's insert, changes by nothing else, and goes
      exactly by a collector of that very instance, which has halted or is stopping by then. */
  lemma {:induction false} EntriesChangeExactly(es: seq<Event>, e: Event, name: Name)
    ensures var q, z := Run(es), Run(es + [e]);
            && (Enters(q, e, name) ==> name in z.atoms && z.atoms[name] !in q.inst)
            && (!Enters(q, e, name) && name !in q.atoms ==> name !in z.atoms)
            && (!Enters(q, e, name) && name in q.atoms ==>
                  && (name in z.atoms <==> !Leaves(q, e, q.atoms[name]))
                  && (name in z.atoms ==> z.atoms[name] == q.atoms[name]))
            && (name in q.atoms && Leaves(q, e, q.atoms[name]) ==>
                  q.atoms[name] in q.inst && !Live(q, q.atoms[name]))
  {
    RunMore(es, e);
    NextIsNew(es);
    if name in Run(es).atoms {
      EntryFacts(es, name);
      CollectorsFacts(es, e, name);
      EntryLeaves(Run(es), e, name);
    }
  }

  lemma NextIsNew(es: seq<Event>)
    ensures forall i :: i in Run(es).inst ==> i < Run(es).next
  {
    RunKeeps(es);
  }

  lemma EntryFacts(es: seq<Event>, name: Name)
    requires name in Run(es).atoms
    ensures var i := Run(es).atoms[name]; i in Run(es).inst && Run(es).inst[i].name == name
  {
    RunKeeps(es);
  }

  /** An instance about to be collected has failed to start, or somebody referred to it. */
  lemma CollectorsFacts(es: seq<Event>, e: Event, name: Name)
    requires name in Run(es).atoms
    ensures var s, i := Run(es), Run(es).atoms[name];
            && (Leaves(s, e, i) ==> !Live(s, i))
            && (e.Drained? && e.i in s.touched ==> !Is(s, e.i, Fresh))
            && (forall n :: n in s.atoms && s.atoms[n] == i ==> n == name)
  {
    RunKeeps(es);
    var s := Run(es);
    if e.ReleaseDelete? && e.t in s.pc {
      assert Knows(s, s.pc[e.t]);
    }
    if e.Drained? && Is(s, e.i, Fresh) {
      assert e.i !in s.touched;
    }
  }

  lemma EntryLeaves(s: State, e: Event, name: Name)
    requires name in s.atoms && s.atoms[name] in s.inst && s.inst[s.atoms[name]].name == name
    requires e.Drained? && e.i in s.touched ==> !Is(s, e.i, Fresh)
    ensures var i, z := s.atoms[name], Apply(s, e);
            && (Enters(s, e, name) ==> name in z.atoms && z.atoms[name] == s.next)
            && (!Enters(s, e, name) ==>
                  (name in z.atoms <==> !Leaves(s, e, i)) && (name in z.atoms ==> z.atoms[name] == i))
  {
    if IsAtomStep(e) {
      AtomLeaves(s, e, name);
    } else {
      assert Apply(s, e) == ThreadStep(s, e);
    }
  }

  lemma AtomLeaves(s: State, e: Event, name: Name)
    requires IsAtomStep(e)
    requires name in s.atoms && s.atoms[name] in s.inst && s.inst[s.atoms[name]].name == name
    ensures var i, z := s.atoms[name], Apply(s, e);
            (name in z.atoms <==> !Leaves(s, e, i)) && (name in z.atoms ==> z.atoms[name] == i)
  {
    var drops := e.i in s.inst && e.StopDelete? && s.inst[e.i].phase.StopDrop?;
    assert Apply(s, e).atoms == if drops then Drop(s, e.i).atoms else s.atoms;
  }

  /** Nobody but its own mailbox goroutine moves an instance. */
  lemma {:induction false} OnlyItselfMoves(es: seq<Event>, e: Event, i: Inst)
    requires i in Run(es).inst && !(IsAtomStep(e) && e.i == i)
    ensures i in Run(es + [e]).inst && Run(es + [e]).inst[i] == Run(es).inst[i]
  {
    RunMore(es, e);
    NextIsNew(es);
    if !IsAtomStep(e) {
      ThreadsReviveNobody(Run(es), e, i);
    }
  }

  /** The release of the last reference removes the entry of a halted instance, and no other. */
  lemma {:induction false} DrainedCollects(es: seq<Event>, i: Inst)
    requires i in Run(es).touched
    ensures var q, z := Run(es), Run(es + [Drained(i)]);
            && i in q.inst && z.inst == q.inst && z.pc == q.pc && z.touched == q.touched
            && var name := q.inst[i].name;
               var mine := name in q.atoms && q.atoms[name] == i;
               z.atoms == if Is(q, i, Halted) && mine then q.atoms - {name} else q.atoms
  {
    RunKeeps(es);
    RunMore(es, Drained(i));
  }

  /** The spawn lock goes through a run of its own, so what is proved of it holds here. */
  lemma {:induction false} LockRuns(es: seq<Event>) returns (ls: seq<Lock.Event>)
    ensures Run(es).lock == Lock.Run(Lock.Start(), ls)
  {
    ls := [];
    if es != [] {
      var front, e := es[..|es| - 1], es[|es| - 1];
      ls := LockRuns(front);
      if Run(es).lock != Run(front).lock {
        LockStep(Run(front), e);
        Lock.RunMore(Lock.Start(), ls, LockEvent(e));
        ls := ls + [LockEvent(e)];
      }
    }
  }

  /** The lock's own event; those that leave the lock alone have none, whatever is answered here. */
  function LockEvent(e: Event): Lock.Event
  {
    match e
    case Enter(t, name) => Lock.Enter(t, name)
    case Acquire(t) => Lock.Acquire(t)
    case Remove(t) => Lock.Remove(t)
    case Unlock(t) => Lock.Unlock(t)
    case _ => Lock.Unlock(0)
  }

  lemma LockStep(s: State, e: Event)
    ensures Apply(s, e).lock == s.lock || Apply(s, e).lock == Lock.Apply(s.lock, LockEvent(e))
  {
    if !IsAtomStep(e) && !(e.Enter? || e.Acquire? || e.Remove? || e.Unlock?) {
      OthersLeaveTheLock(s, e);
    }
  }

  lemma OthersLeaveTheLock(s: State, e: Event)
    requires !(e.Enter? || e.Acquire? || e.Remove? || e.Unlock?)
    ensures ThreadStep(s, e).lock == s.lock
  {
  }

  /** A thread gets to look at a name nobody is spawning. */
  lemma {:induction false} EntersTheLock(es: seq<Event>, t: Tid, name: Name)
    requires t !in Run(es).lock.pc && Lock.Users(Run(es).lock, name) == {}
    ensures var q, z := Run(es), Run(es + [Enter(t, name)] + [Acquire(t)]);
            && z.pc == q.pc[t := Look(name)] && z.atoms == q.atoms && z.inst == q.inst
            && Lock.InCritical(z.lock, t, name)
  {
    var ls := LockRuns(es);
    Lock.EnterWaitsOnMapped(ls, t, name);
    Lock.RunMore(Lock.Start(), ls, Lock.Enter(t, name));
    RunMore(es, Enter(t, name));
    RunMore(es + [Enter(t, name)], Acquire(t));
  }

  /** A thread that is done leaves, and one waiting for the same name gets to look. */
  lemma {:induction false} NextLooks(es: seq<Event>, t: Tid, u: Tid, name: Name)
    requires At(Run(es), u, Done(name)) && Lock.IsUser(Run(es).lock, t, name) && t != u
    ensures var q, z := Run(es), Run(es + [Remove(u)] + [Unlock(u)] + [Acquire(t)]);
            && z.pc == (q.pc - {u})[t := Look(name)] && z.atoms == q.atoms && z.inst == q.inst
            && u !in z.lock.pc && Lock.InCritical(z.lock, t, name)
  {
    RunThree(es, Remove(u), Unlock(u), Acquire(t));
    Apart(es, t, u, name);
    var q := Run(es);
    var y := Apply(q, Remove(u));
    assert y.lock.pc[t] == q.lock.pc[t] && y.pc == q.pc - {u};
    var x := Apply(y, Unlock(u));
    assert x.lock.pc == q.lock.pc - {u} && x.lock.pc[t] == q.lock.pc[t] && q.lock.pc[t].mutex !in x.lock.owner;
  }

  lemma Apart(es: seq<Event>, t: Tid, u: Tid, name: Name)
    requires At(Run(es), u, Done(name)) && Lock.IsUser(Run(es).lock, t, name) && t != u
    ensures var lock := Run(es).lock;
            && t in lock.pc && u in lock.pc && lock.pc[t] == Lock.Waiting(name, lock.pc[u].mutex)
            && lock.pc[u] == Lock.Critical(name, lock.pc[u].mutex)
  {
    RunKeeps(es);
    assert Lock.IsUser(Run(es).lock, u, name);
    if Lock.InCritical(Run(es).lock, t, name) {
      Lock.Exclusive(Run(es).lock, t, u, name);
    }
  }
}
