/** What the steps of the task scheduler bring about, stated on the fields of the state they reach.
    All of it holds after every run. */
module TaskEffects {
  import opened TaskQueue

  lemma RunTwo(es: seq<Event>, a: Event, b: Event)
    ensures Run(es + [a, b]) == Apply(Run(es + [a]), b)
  {
    RunMore(es, [a, b]);
    assert [a, b][..1] == [a];
  }

  lemma RunThree(es: seq<Event>, a: Event, b: Event, c: Event)
    ensures Run(es + [a, b, c]) == Apply(Run(es + [a, b]), c)
  {
    RunMore(es, [a, b, c]);
    assert [a, b, c][..2] == [a, b];
  }

  lemma RunFour(es: seq<Event>, a: Event, b: Event, c: Event, d: Event)
    ensures Run(es + [a, b, c, d]) == Apply(Run(es + [a, b, c]), d)
  {
    RunMore(es, [a, b, c, d]);
    assert [a, b, c, d][..3] == [a, b, c];
  }

  /** The mail of a task that has not been cancelled waits in a mailbox, once. */
  predicate Mailed(m: Manager, id: Id)
  {
    m.In(id, Mailing) && m.queued[id] == 1 && m.hand[id] == 0 && m.ran[id] == 0
  }

  /** What has to be the case for a timer to matter. */
  predicate Due(m: Manager, id: Id)
  {
    !m.stuck && id in m.tasks && m.In(id, Scheduling) && m.task[id].armed
  }

  lemma FireMails(m: Manager, id: Id)
    requires TaskOk(m, id) && Due(m, id)
    ensures var z := Apply(m, Fire(id, true));
            && Mailed(z, id) && !z.task[id].armed && z.task[id].kind == m.task[id].kind && !z.stuck
            && (id in z.tasks <==> m.Is(id, Queue)) && z.refused[id] == 0
    ensures var z := Apply(m, Fire(id, false));
            && z.In(id, Mailing) && z.queued[id] == 0 && z.refused[id] == 1 && !z.task[id].armed
            && (id in z.tasks <==> m.Is(id, Queue))
  {
  }

  lemma DeliverMoves(m: Manager, id: Id)
    requires m.queued[id] > 0
    ensures var z := Apply(m, Deliver(id));
            && z.queued[id] == m.queued[id] - 1 && z.hand[id] == m.hand[id] + 1
            && z.task == m.task && z.tasks == m.tasks && z.stuck == m.stuck && z.ran == m.ran
  {
  }

  lemma HandleRuns(m: Manager, id: Id)
    requires TaskOk(m, id) && m.In(id, Mailing) && m.hand[id] > 0 && !m.stuck
    ensures var z := Apply(m, Handle(id));
            && z.ran[id] == 1 && z.hand[id] == 0 && z.task[id].kind == m.task[id].kind && !z.stuck
            && (m.Is(id, Queue) ==> z.In(id, Executing) && id in z.tasks)
  {
  }

  lemma FinishEnds(m: Manager, id: Id)
    requires m.Is(id, Queue) && m.In(id, Executing) && !m.stuck
    ensures var z := Apply(m, Finish(id));
            z.In(id, Done) && id !in z.tasks && z.ran == m.ran
  {
  }

  /** A timer that fires mails its task, once; the mailbox taking it or not. */
  lemma {:induction false} TimerMailsTask(es: seq<Event>, id: Id)
    requires Due(Run(es), id)
    ensures var z := Run(es + [Fire(id, true)]);
            && z.task[id].state == Mailing && z.queued[id] == 1 && !z.task[id].armed
            && (id in z.tasks <==> z.task[id].kind == Queue)
    ensures var z := Run(es + [Fire(id, false)]);
            && z.task[id].state == Mailing && z.queued[id] == 0 && z.refused[id] == 1 && !z.task[id].armed
            && (id in z.tasks <==> z.task[id].kind == Queue)
  {
    RunOk(es, id);
    FireMails(Run(es), id);
    RunOne(es, Fire(id, true));
    RunOne(es, Fire(id, false));
  }

  /** A timer that may still fire belongs to a task that waits for it, unless it could not be stopped
      when the task was cancelled; then it finds the task gone, and does nothing. */
  lemma {:induction false} StaleTimerIsIgnored(es: seq<Event>, id: Id, accepted: bool)
    requires id in Run(es).task && Run(es).task[id].armed && !Run(es).stuck && !Due(Run(es), id)
    ensures Run(es).In(id, Cancelled) && id !in Run(es).tasks
    ensures var m := Run(es);
            Run(es + [Fire(id, accepted)]) == m.(task := m.task[id := m.task[id].(armed := false)])
  {
    RunOk(es, id);
    RunOne(es, Fire(id, accepted));
  }

  /** A mailed task that is delivered and handled runs; a queue task then is executing, and done when
      its worker returns. */
  lemma {:induction false} MailedTaskRuns(es: seq<Event>, id: Id)
    requires Mailed(Run(es), id) && !Run(es).stuck
    ensures Run(es + [Deliver(id), Handle(id)]).ran[id] == 1
    ensures Run(es).task[id].kind == Queue ==>
              && Run(es + [Deliver(id), Handle(id)]).In(id, Executing)
              && Run(es + [Deliver(id), Handle(id), Finish(id)]).In(id, Done)
              && id !in Run(es + [Deliver(id), Handle(id), Finish(id)]).tasks
  {
    DeliverMoves(Run(es), id);
    RunOne(es, Deliver(id));
    RunOk(es + [Deliver(id)], id);
    HandleRuns(Run(es + [Deliver(id)]), id);
    RunTwo(es, Deliver(id), Handle(id));
    RunThree(es, Deliver(id), Handle(id), Finish(id));
    if Run(es).task[id].kind == Queue {
      FinishEnds(Run(es + [Deliver(id), Handle(id)]), id);
    }
  }

  /** From the timer to the worker. */
  lemma {:induction false} TimerRunsWorker(es: seq<Event>, id: Id)
    requires Due(Run(es), id)
    ensures Run(es + [Fire(id, true), Deliver(id), Handle(id)]).ran[id] == 1
  {
    RunOk(es, id);
    FireMails(Run(es), id);
    RunOne(es, Fire(id, true));
    var fs := es + [Fire(id, true)];
    MailedTaskRuns(fs, id);
    assert fs + [Deliver(id), Handle(id)] == es + [Fire(id, true), Deliver(id), Handle(id)];
  }

  /** A queue task in the hands of its adder. */
  predicate InAdding(m: Manager, id: Id, state: State, adding: Adding)
  {
    && m.Is(id, Queue) && m.In(id, state) && m.task[id].adding == adding && id in m.tasks && !m.stuck
    && m.queued[id] + m.hand[id] + m.ran[id] == 0 && m.task[id].armed == (adding == ToStore) && !m.task[id].timer
  }

  lemma CreateMakes(m: Manager, delayed: bool, callback: bool)
    requires TaskOk(m, m.curID + 1) && !m.stuck
    ensures InAdding(Apply(m, Create(delayed, callback)), m.curID + 1, if delayed then Scheduling else Mailing, ToInit)
  {
  }

  lemma InitAdvances(m: Manager, id: Id, delayed: bool)
    requires InAdding(m, id, if delayed then Scheduling else Mailing, ToInit)
    ensures InAdding(Apply(m, Init(id)), id, if delayed then Scheduling else Mailing,
                     if delayed then ToStart else ToPush)
  {
  }

  lemma PushMails(m: Manager, id: Id)
    requires InAdding(m, id, Mailing, ToPush)
    ensures var z := Apply(m, Push(id, true));
            Mailed(z, id) && z.Is(id, Queue) && id in z.tasks && z.task[id].adding == Added
  {
  }

  lemma TimerAdvances(m: Manager, id: Id)
    requires InAdding(m, id, Scheduling, ToStart)
    ensures InAdding(Apply(m, StartTimer(id)), id, Scheduling, ToStore)
  {
  }

  lemma StoreReadies(m: Manager, id: Id)
    requires InAdding(m, id, Scheduling, ToStore)
    ensures var z := Apply(m, StoreTimer(id));
            Due(z, id) && z.Is(id, Queue) && z.task[id].timer && z.task[id].adding == Added
  {
  }

  /** `id` is the next id to be given. */
  predicate IsNext(m: Manager, id: Id) { id == m.curID + 1 && !m.stuck }

  lemma NextIsNew(es: seq<Event>, id: Id)
    requires IsNext(Run(es), id)
    ensures TaskOk(Run(es), id) && id !in Run(es).task
  {
    RunOk(es, id);
  }

  lemma {:induction false} CreatedRun(es: seq<Event>, id: Id, delayed: bool, callback: bool)
    requires IsNext(Run(es), id)
    ensures InAdding(Run(es + [Create(delayed, callback), Init(id)]), id, if delayed then Scheduling else Mailing,
                     if delayed then ToStart else ToPush)
  {
    NextIsNew(es, id);
    CreateMakes(Run(es), delayed, callback);
    RunOne(es, Create(delayed, callback));
    InitAdvances(Run(es + [Create(delayed, callback)]), id, delayed);
    RunTwo(es, Create(delayed, callback), Init(id));
  }

  /** An immediate task as its adder leaves it: mailed. */
  lemma {:induction false} ImmediateTaskIsMailed(es: seq<Event>, id: Id, callback: bool)
    requires IsNext(Run(es), id)
    ensures id !in Run(es).task
    ensures var z := Run(es + [Create(false, callback), Init(id), Push(id, true)]);
            Mailed(z, id) && z.Is(id, Queue) && id in z.tasks
  {
    NextIsNew(es, id);
    CreatedRun(es, id, false, callback);
    PushMails(Run(es + [Create(false, callback), Init(id)]), id);
    RunThree(es, Create(false, callback), Init(id), Push(id, true));
  }

  /** A delayed task as its adder leaves it: waiting for its timer. */
  lemma {:induction false} DelayedTaskIsDue(es: seq<Event>, id: Id, callback: bool)
    requires IsNext(Run(es), id)
    ensures id !in Run(es).task
    ensures var z := Run(es + [Create(true, callback), Init(id), StartTimer(id), StoreTimer(id)]);
            Due(z, id) && z.Is(id, Queue) && z.task[id].timer
  {
    NextIsNew(es, id);
    CreatedRun(es, id, true, callback);
    TimerAdvances(Run(es + [Create(true, callback), Init(id)]), id);
    RunThree(es, Create(true, callback), Init(id), StartTimer(id));
    StoreReadies(Run(es + [Create(true, callback), Init(id), StartTimer(id)]), id);
    RunFour(es, Create(true, callback), Init(id), StartTimer(id), StoreTimer(id));
  }

  lemma DeprecatedMakes(m: Manager)
    requires TaskOk(m, m.curID + 1) && !m.stuck
    ensures var z := Apply(m, Add(true));
            Mailed(z, m.curID + 1) && z.Is(m.curID + 1, Closure) && m.curID + 1 !in z.tasks && z.curID == m.curID + 1
    ensures var z := Apply(m, AddAfter);
            Due(z, m.curID + 1) && z.Is(m.curID + 1, After) && z.task[m.curID + 1].timer && z.curID == m.curID + 1
  {
  }

  /** The two deprecated ways to add: a closure is mailed at once and never contained; an after task
      waits, contained, for its timer. */
  lemma {:induction false} DeprecatedTaskIsReady(es: seq<Event>, id: Id)
    requires IsNext(Run(es), id)
    ensures id !in Run(es).task
    ensures var z := Run(es + [Add(true)]);
            Mailed(z, id) && z.Is(id, Closure) && id !in z.tasks && z.curID == id
    ensures var z := Run(es + [AddAfter]);
            Due(z, id) && z.Is(id, After) && z.task[id].timer && z.curID == id
  {
    NextIsNew(es, id);
    DeprecatedMakes(Run(es));
    RunOne(es, Add(true));
    RunOne(es, AddAfter);
  }

  /** What the cancel of a task with a helper answers, state by state. */
  lemma {:induction false} CancelAnswersByState(es: seq<Event>, id: Id)
    requires Run(es).Helped(id)
    ensures var m, answer := Run(es), CancelResultOf(Run(es), id);
            && (answer == Success <==> m.In(id, Mailing) || (m.In(id, Scheduling) && m.task[id].adding == Added))
            && (answer == IsRunning <==> m.In(id, Executing))
            && (answer == IsDone <==> m.In(id, Done))
            && (answer == AlreadyCancelled <==> m.In(id, Cancelled))
            && (answer == FrameworkError <==> m.In(id, Scheduling) && m.task[id].adding != Added)
  {
    RunOk(es, id);
  }

  /** Ready to be cancelled. */
  predicate Cancellable(m: Manager, id: Id)
  {
    !m.stuck && m.Helped(id) && (m.In(id, Mailing) || (m.In(id, Scheduling) && m.task[id].adding == Added))
  }

  lemma CancelTakesOut(m: Manager, id: Id, stopped: bool)
    requires TaskOk(m, id) && Cancellable(m, id)
    ensures var z := Apply(m, CancelQueue(id, stopped));
            && Final(z, id) && z.In(id, Cancelled) && z.cancelled[id] == 1 && z.queued[id] == 0
            && (id in z.tasks <==> m.In(id, Mailing)) && (m.In(id, Scheduling) && stopped ==> !z.task[id].armed)
  {
  }

  /** A cancel that succeeds marks the task, takes its mail out of the mailbox and a scheduled task out
      of the container, stops a timer that can be stopped, and keeps the worker from ever running. */
  lemma {:induction false} CancelWorks(es: seq<Event>, id: Id, stopped: bool, later: seq<Event>)
    requires Cancellable(Run(es), id)
    ensures var z := Run(es + [CancelQueue(id, stopped)]);
            && z.In(id, Cancelled) && z.cancelled[id] == 1 && z.queued[id] == 0
            && (id in z.tasks <==> Run(es).In(id, Mailing))
            && (Run(es).In(id, Scheduling) && stopped ==> !z.task[id].armed)
    ensures Run(es + [CancelQueue(id, stopped)] + later).In(id, Cancelled)
    ensures Run(es + [CancelQueue(id, stopped)] + later).ran[id] == 0
  {
    RunOk(es, id);
    CancelTakesOut(Run(es), id, stopped);
    RunOne(es, CancelQueue(id, stopped));
    SettledForGood(es + [CancelQueue(id, stopped)], later, id);
  }

  lemma RefusedCancelStays(m: Manager, id: Id, stopped: bool)
    requires TaskOk(m, id) && m.Helped(id) && !m.In(id, Mailing)
    requires !(m.In(id, Scheduling) && m.task[id].adding == Added)
    ensures Apply(m, CancelQueue(id, stopped)) == m
  {
    if m.In(id, Scheduling) {
      assert m.queued - multiset{id} == m.queued;
    }
  }

  /** A cancel that does not succeed changes nothing. */
  lemma {:induction false} FailedCancelChangesNothing(es: seq<Event>, id: Id, stopped: bool)
    requires Run(es).Helped(id) && CancelResultOf(Run(es), id) != Success
    ensures Run(es + [CancelQueue(id, stopped)]) == Run(es)
  {
    RunOk(es, id);
    CancelAnswersByState(es, id);
    RunOne(es, CancelQueue(id, stopped));
    RefusedCancelStays(Run(es), id, stopped);
  }

  /** What a cancel by id answers for an after task or a closure, and what it does: it stops the timer
      or takes the mail back, after which the worker never runs. */
  lemma {:induction false} CancelByIdWorks(es: seq<Event>, id: Id, stopped: bool)
    requires id in Run(es).task && !Run(es).Is(id, Queue) && !Run(es).stuck
    ensures var m := Run(es);
            && (CancelResultOf(m, id) == Success <==> m.In(id, Scheduling) || m.queued[id] == 1)
            && (CancelResultOf(m, id) == NotExists <==> !m.In(id, Scheduling) && m.queued[id] == 0)
    ensures var m := Run(es);
            forall e :: e in {Cancel(id, stopped), CancelAfter(id, stopped)} ==>
              var z := Run(es + [e]);
              && (CancelResultOf(m, id) == Success ==>
                    && z.cancelled[id] == 1 && z.queued[id] == 0 && z.hand[id] == 0 && id !in z.tasks
                    && (m.In(id, Scheduling) ==> z.In(id, Cancelled) && (stopped ==> !z.task[id].armed)))
              && (CancelResultOf(m, id) == NotExists ==> z == m)
  {
    RunOk(es, id);
    RunOne(es, Cancel(id, stopped));
    RunOne(es, CancelAfter(id, stopped));
    WithoutHelper(Run(es), id, stopped);
  }

  lemma WithoutHelper(m: Manager, id: Id, stopped: bool)
    requires TaskOk(m, id) && id in m.task && !m.Is(id, Queue) && !m.stuck
    ensures CancelResultOf(m, id) == Success <==> m.In(id, Scheduling) || m.queued[id] == 1
    ensures CancelResultOf(m, id) == NotExists <==> !m.In(id, Scheduling) && m.queued[id] == 0
    ensures Apply(m, Cancel(id, stopped)) == Apply(m, CancelAfter(id, stopped))
    ensures var z := Apply(m, CancelAfter(id, stopped));
            && (m.In(id, Scheduling) || m.queued[id] == 1 ==>
                  && z.cancelled[id] == 1 && z.queued[id] == 0 && z.hand[id] == 0 && id !in z.tasks
                  && (m.In(id, Scheduling) ==> z.In(id, Cancelled) && (stopped ==> !z.task[id].armed)))
            && (!m.In(id, Scheduling) && m.queued[id] == 0 ==> z == m)
  {
  }

  lemma DrainSettles(m: Manager, id: Id)
    requires TaskOk(m, id) && id in m.task && m.hand[id] > 0 && !m.stuck
    ensures var z := Apply(m, Drain(id));
            && z.hand[id] == 0 && z.ran == m.ran
            && (m.Is(id, Queue) ==> z.In(id, Cancelled) && z.cancelled[id] == 1)
            && (!m.Is(id, Queue) ==> z.dropped[id] == 1 && z.cancelled == m.cancelled && z.task == m.task)
  {
  }

  /** A mail that the halt meets is gone: a queue task is cancelled by then at the latest, the mail of
      an after task or a closure is thrown away. */
  lemma {:induction false} DrainedMailIsGone(es: seq<Event>, id: Id)
    requires id in Run(es).hand && !Run(es).stuck
    ensures var m, z := Run(es), Run(es + [Drain(id)]);
            && id in m.task && z.hand[id] == 0 && z.queued[id] == 0 && z.ran[id] == 0
            && (m.Is(id, Queue) ==> z.In(id, Cancelled) && z.cancelled[id] == 1)
            && (!m.Is(id, Queue) ==> z.dropped[id] == 1 && z.cancelled[id] == 0)
  {
    RunOk(es, id);
    RunOne(es, Drain(id));
    DrainSettles(Run(es), id);
    RunOk(es + [Drain(id)], id);
  }
}
