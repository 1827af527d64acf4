/** The task scheduler of one atomos, under racing adders, timers, workers, cancels and the halt.
    Each event is one region under the manager mutex, or one step outside it. */
module TaskQueue {
  type Id = nat

  datatype State = Scheduling | Mailing | Executing | Done | Cancelled

  /** A queue task comes from one of the three `AddTo…Queue` calls, an after task from `AddAfter`,
      a closure from `Add`. */
  datatype Kind = Queue | After | Closure

  /** What the goroutine adding a queue task has still to do: set its helper, then push it, or start
      its timer and store it. */
  datatype Adding = ToInit | ToPush | ToStart | ToStore | Added

  /** `timer` tells whether the timer field is set, `armed` whether the timer may still fire, and
      `callback` whether a cancel callback was given. */
  datatype Task = Task(kind: Kind, state: State, adding: Adding, timer: bool, armed: bool, callback: bool)

  /** `task` holds every task ever made and `tasks` the ids in the manager's container. Task mails
      are known by their task's id: `queued` counts those in mailboxes, `hand` those a mailbox loop
      has popped and not handled. `ran`, `cancelled`, `refused` and `dropped` count, for each task,
      the runs of its worker, its successful cancels, its refused pushes, and its mails thrown away by
      the halt. `stuck` means that the manager mutex is held for ever. */
  datatype Manager = Manager(curID: nat, task: map<Id, Task>, tasks: set<Id>,
                             queued: multiset<Id>, hand: multiset<Id>,
                             ran: multiset<Id>, cancelled: multiset<Id>,
                             refused: multiset<Id>, dropped: multiset<Id>, stuck: bool)
  {
    predicate Is(id: Id, kind: Kind) { id in task && task[id].kind == kind }

    predicate In(id: Id, state: State) { id in task && task[id].state == state }

    /** A queue task whose helper is set. */
    predicate Helped(id: Id) { Is(id, Queue) && task[id].adding != ToInit }

    function To(id: Id, state: State): Manager
      requires id in task
    {
      this.(task := task[id := task[id].(state := state)])
    }

    function WithAdding(id: Id, adding: Adding): Manager
      requires id in task
    {
      this.(task := task[id := task[id].(adding := adding)])
    }

    /** The timer will not fire any more. */
    function Disarm(id: Id): Manager
      requires id in task
    {
      this.(task := task[id := task[id].(armed := false)])
    }

    function Leave(id: Id): Manager { this.(tasks := tasks - {id}) }

    function Push(id: Id, accepted: bool): Manager
    {
      if accepted then this.(queued := queued + multiset{id}) else this.(refused := refused + multiset{id})
    }

    function PopById(id: Id): Manager { this.(queued := queued - multiset{id}) }

    function CountCancel(id: Id): Manager { this.(cancelled := cancelled + multiset{id}) }

    function Make(t: Task, contained: bool): Manager
    {
      this.(curID := curID + 1, task := task[curID + 1 := t],
            tasks := if contained then tasks + {curID + 1} else tasks)
    }
  }

  const EMPTY :=
    Manager(0, map[], {}, multiset{}, multiset{}, multiset{}, multiset{}, multiset{}, multiset{}, false)

  /** `accepted` is what the mailbox answers to the push, `stopped` what `Stop` answers on the timer. */
  datatype Event =
    | Create(delayed: bool, callback: bool)
    | Init(id: Id)
    | Push(id: Id, accepted: bool)
    | StartTimer(id: Id)
    | StoreTimer(id: Id)
    | Add(accepted: bool)
    | AddAfter
    | Fire(id: Id, accepted: bool)
    | Deliver(id: Id)
    | Handle(id: Id)
    | CallBack(id: Id, accepted: bool)     // a running worker has answered a callback to mail
    | Finish(id: Id)
    | CancelQueue(id: Id, stopped: bool)   // the cancel function, or the halt, on a task with a helper
    | CancelAfter(id: Id, stopped: bool)   // the halt on a task without one
    | Cancel(id: Id, stopped: bool)        // `Cancel`, on any id
    | Drain(id: Id)                        // the halt meets a remaining mail

  function NewTask(delayed: bool, callback: bool): Task
  {
    Task(Queue, if delayed then Scheduling else Mailing, ToInit, false, false, callback)
  }

  const NEW_AFTER := Task(After, Scheduling, Added, true, true, false)
  const NEW_CLOSURE := Task(Closure, Mailing, Added, false, false, false)

  function Fired(m: Manager, id: Id, accepted: bool): Manager
    requires id in m.task
  {
    if id !in m.tasks then m
    else match m.task[id].state
      case Cancelled => m.Leave(id)
      case Scheduling =>
        if m.task[id].kind == Queue then m.To(id, Mailing).Push(id, accepted)
        else m.To(id, Mailing).Leave(id).Push(id, accepted)
      case _ => m
  }

  function Handled(m: Manager, id: Id): Manager
    requires id in m.task
  {
    if m.task[id].kind != Queue then m.(ran := m.ran + multiset{id})
    else if m.task[id].state == Mailing then m.To(id, Executing).(ran := m.ran + multiset{id})
    else m
  }

  datatype CancelResult = Success | AlreadyCancelled | IsRunning | IsDone | NotExists | FrameworkError | NeverReturns

  /** The outcome of cancelling a queue task. */
  function QueueResult(m: Manager, id: Id): CancelResult
    requires id in m.task
  {
    match m.task[id].state
    case Cancelled => AlreadyCancelled
    case Scheduling => if m.task[id].timer && id in m.tasks && id !in m.queued then Success else FrameworkError
    case Mailing => Success
    case Executing => IsRunning
    case Done => IsDone
  }

  function QueueCancelled(m: Manager, id: Id, stopped: bool): Manager
    requires id in m.task
  {
    match m.task[id].state
    case Scheduling =>
      if !m.task[id].timer then m.PopById(id)
      else
        var s := if stopped then m.Disarm(id) else m;
        if id !in s.tasks then s.PopById(id)
        else if id in s.queued then s.Leave(id).PopById(id)
        else s.Leave(id).To(id, Cancelled).CountCancel(id)
    case Mailing => m.PopById(id).To(id, Cancelled).CountCancel(id)
    case _ => m
  }

  /** The outcome of cancelling by id a task that has no helper. */
  function AfterResult(m: Manager, id: Id): CancelResult
    requires id in m.task
  {
    if id in m.tasks && m.task[id].timer && m.task[id].state == Scheduling then Success
    else if id in m.tasks && m.task[id].timer && m.task[id].state != Mailing then FrameworkError
    else if id in m.queued then Success
    else NotExists
  }

  function AfterCancelled(m: Manager, id: Id, stopped: bool): Manager
    requires id in m.task
  {
    if id in m.tasks && m.task[id].timer && m.task[id].state == Scheduling then
      (if stopped then m.Disarm(id) else m).Leave(id).To(id, Cancelled).CountCancel(id)
    else if id in m.tasks && m.task[id].timer && m.task[id].state == Cancelled then m.Leave(id)
    else if id in m.tasks && m.task[id].timer && m.task[id].state != Mailing then m
    else if id in m.queued then m.PopById(id).CountCancel(id)
    else m
  }

  function TaskCancelled(m: Manager, id: Id, stopped: bool): Manager
    requires id in m.task
  {
    if m.Helped(id) then QueueCancelled(m, id, stopped) else AfterCancelled(m, id, stopped)
  }

  /** `Cancel` holds the mutex when it finds a contained task with a helper, and takes it again. */
  predicate Blocks(m: Manager, id: Id) { id in m.tasks && m.Helped(id) }

  /** An id that is no task's is looked for among the other mails of the atom's mailbox, of which
      nothing is said here. */
  function CancelById(m: Manager, id: Id, stopped: bool): Manager
  {
    if Blocks(m, id) then m.(stuck := true)
    else if id in m.task then AfterCancelled(m, id, stopped)
    else m
  }

  function Drop(m: Manager, id: Id): Manager { m.(hand := m.hand - multiset{id}) }

  /** The halt cancels the task of a remaining mail; the mail of a task without a helper is thrown
      away if that finds nothing to cancel. */
  function Drained(m: Manager, id: Id): Manager
    requires id in m.task
  {
    var z := TaskCancelled(m, id, false);
    if m.task[id].kind != Queue && AfterResult(m, id) != Success then z.(dropped := z.dropped + multiset{id}) else z
  }

  function ApplyAdding(m: Manager, e: Event): Manager
  {
    match e
    case Create(delayed, callback) => m.Make(NewTask(delayed, callback), true)
    case Init(id) =>
      if id in m.task && m.task[id].adding == ToInit then
        m.WithAdding(id, if m.task[id].state == Scheduling then ToStart else ToPush)
      else m
    case Push(id, accepted) =>
      if id in m.task && m.task[id].adding == ToPush then m.WithAdding(id, Added).Push(id, accepted) else m
    case StartTimer(id) =>
      if id in m.task && m.task[id].adding == ToStart then
        m.(task := m.task[id := m.task[id].(adding := ToStore, armed := true)])
      else m
    case StoreTimer(id) =>
      if id in m.task && m.task[id].adding == ToStore then
        m.(task := m.task[id := m.task[id].(adding := Added, timer := true)])
      else m
    case Add(accepted) => m.Make(NEW_CLOSURE, false).Push(m.curID + 1, accepted)
    case AddAfter => m.Make(NEW_AFTER, true)
    case _ => m
  }

  /** What a step does once it has the mutex, if it needs it. Events that cannot happen in a state
      leave it as it is. */
  function Act(m: Manager, e: Event): Manager
  {
    match e
    case Fire(id, accepted) =>
      if id in m.task && m.task[id].armed then Fired(m.Disarm(id), id, accepted) else m
    case Deliver(id) =>
      if id in m.queued then m.(queued := m.queued - multiset{id}, hand := m.hand + multiset{id}) else m
    case Handle(id) =>
      if id in m.task && id in m.hand then Handled(Drop(m, id), id) else m
    case Finish(id) => if m.Is(id, Queue) && m.In(id, Executing) then m.To(id, Done).Leave(id) else m
    case CallBack(_, _) => m
    case CancelQueue(id, stopped) => if m.Helped(id) then QueueCancelled(m, id, stopped) else m
    case CancelAfter(id, stopped) => if id in m.task && !m.Helped(id) then AfterCancelled(m, id, stopped) else m
    case Cancel(id, stopped) => CancelById(m, id, stopped)
    case Drain(id) => if id in m.task && id in m.hand then Drained(Drop(m, id), id) else m
    case _ => ApplyAdding(m, e)
  }

  /** Which steps wait for the manager mutex. */
  predicate NeedsMutex(m: Manager, e: Event)
  {
    match e
    case Init(_) => false
    case Push(_, _) => false
    case StartTimer(_) => false
    case StoreTimer(_) => false
    case Deliver(_) => false
    case CallBack(_, _) => false
    case Handle(id) => m.Is(id, Queue)
    case _ => true
  }

  function Apply(m: Manager, e: Event): Manager
  {
    if m.stuck && NeedsMutex(m, e) then m else Act(m, e)
  }

  function Run(es: seq<Event>): Manager
  {
    if es == [] then EMPTY else Apply(Run(es[..|es| - 1]), es[|es| - 1])
  }

  /** Still to be pushed by the adder. */
  predicate Unpushed(t: Task) { t.adding == ToPush || (t.adding == ToInit && t.state == Mailing) }

  /** How many copies of a task's mail are on their way. */
  ghost function Mails(m: Manager, id: Id): nat
    requires id in m.task
  {
    m.queued[id] + m.hand[id] + if Unpushed(m.task[id]) then 1 else 0
  }

  /** How often the task has had an end that no cancel can have brought about. */
  ghost function Ends(m: Manager, id: Id): nat { m.ran[id] + m.refused[id] + m.dropped[id] }

  ghost predicate QueueOk(m: Manager, id: Id)
    requires id in m.task
  {
    var t := m.task[id];
    && m.dropped[id] == 0
    && (t.adding == ToInit ==> (t.state == Scheduling || t.state == Mailing) && !t.armed && !t.timer)
    && (t.adding == ToStart ==> t.state == Scheduling && !t.armed && !t.timer)
    && (t.adding == ToStore ==> !t.timer)
    && (t.adding == Added && t.state == Scheduling ==> t.timer)
    && match t.state
       case Scheduling => id in m.tasks && Mails(m, id) + Ends(m, id) + m.cancelled[id] == 0
       case Mailing =>
         id in m.tasks && Mails(m, id) + m.refused[id] == 1 && m.ran[id] + m.cancelled[id] == 0 && !t.armed
       case Executing =>
         id in m.tasks && Mails(m, id) + m.refused[id] + m.cancelled[id] == 0 && m.ran[id] == 1 && !t.armed
       case Done =>
         id !in m.tasks && Mails(m, id) + m.refused[id] + m.cancelled[id] == 0 && m.ran[id] == 1 && !t.armed
       case Cancelled =>
         && m.ran[id] == 0 && m.cancelled[id] == 1
         && (id in m.tasks ==> Mails(m, id) + m.refused[id] <= 1 && !t.armed)
         && (id !in m.tasks ==> Mails(m, id) + m.refused[id] == 0)
  }

  ghost predicate AfterOk(m: Manager, id: Id)
    requires id in m.task
  {
    var t := m.task[id];
    && t.adding == Added
    && match t.state
       case Scheduling =>
         t.kind == After && t.timer && !t.callback && id in m.tasks &&
         Mails(m, id) + Ends(m, id) + m.cancelled[id] == 0
       case Mailing =>
         id !in m.tasks && !t.armed && !t.callback && Mails(m, id) + Ends(m, id) + m.cancelled[id] == 1
       case Cancelled =>
         id !in m.tasks && !t.callback && Mails(m, id) + Ends(m, id) == 0 && m.cancelled[id] == 1
       case _ => false
  }

  ghost predicate TaskOk(m: Manager, id: Id)
  {
    if id in m.task then
      && 1 <= id <= m.curID
      && (if m.task[id].kind == Queue then QueueOk(m, id) else AfterOk(m, id))
    else
      && !(1 <= id <= m.curID) && id !in m.tasks
      && m.queued[id] + m.hand[id] + Ends(m, id) + m.cancelled[id] == 0
  }

  ghost predicate Inv(m: Manager) { forall id :: TaskOk(m, id) }

  /** Everything about the task `id` reads the same in both states. */
  ghost predicate Same(m: Manager, n: Manager, id: Id)
  {
    && (id in m.task <==> id in n.task) && (id in m.task ==> m.task[id] == n.task[id])
    && (id in m.tasks <==> id in n.tasks)
    && m.queued[id] == n.queued[id] && m.hand[id] == n.hand[id]
    && m.ran[id] == n.ran[id] && m.cancelled[id] == n.cancelled[id]
    && m.refused[id] == n.refused[id] && m.dropped[id] == n.dropped[id]
  }

  /** The task an event is about. */
  function Subject(m: Manager, e: Event): Id
  {
    match e
    case Create(_, _) => m.curID + 1
    case Init(id) => id
    case Add(_) => m.curID + 1
    case AddAfter => m.curID + 1
    case Push(id, _) => id
    case StartTimer(id) => id
    case StoreTimer(id) => id
    case Fire(id, _) => id
    case Deliver(id) => id
    case Handle(id) => id
    case CallBack(id, _) => id
    case Finish(id) => id
    case CancelQueue(id, _) => id
    case CancelAfter(id, _) => id
    case Cancel(id, _) => id
    case Drain(id) => id
  }

  lemma MakingOthers(m: Manager, e: Event, id: Id)
    requires (e.Create? || e.Add? || e.AddAfter?) && id != m.curID + 1
    ensures Same(m, ApplyAdding(m, e), id) && ApplyAdding(m, e).curID == m.curID + 1
  {
  }

  lemma AddingOthers(m: Manager, e: Event, id: Id)
    requires id != Subject(m, e)
    ensures Same(m, ApplyAdding(m, e), id)
    ensures m.curID <= ApplyAdding(m, e).curID <= m.curID + 1
    ensures ApplyAdding(m, e).curID > m.curID ==> Subject(m, e) == m.curID + 1
  {
    if e.Create? || e.Add? || e.AddAfter? {
      MakingOthers(m, e, id);
    }
  }

  lemma QueueOthers(m: Manager, at: Id, stopped: bool, id: Id)
    requires at in m.task && id != at
    ensures Same(m, QueueCancelled(m, at, stopped), id) && QueueCancelled(m, at, stopped).curID == m.curID
  {
  }

  lemma AfterOthers(m: Manager, at: Id, stopped: bool, id: Id)
    requires at in m.task && id != at
    ensures Same(m, AfterCancelled(m, at, stopped), id) && AfterCancelled(m, at, stopped).curID == m.curID
  {
  }

  lemma CancelOthers(m: Manager, at: Id, stopped: bool, id: Id)
    requires at in m.task && id != at
    ensures Same(m, TaskCancelled(m, at, stopped), id) && TaskCancelled(m, at, stopped).curID == m.curID
  {
    if m.Helped(at) {
      QueueOthers(m, at, stopped, id);
    } else {
      AfterOthers(m, at, stopped, id);
    }
  }

  lemma FiredOthers(m: Manager, at: Id, accepted: bool, id: Id)
    requires at in m.task && id != at
    ensures Same(m, Fired(m, at, accepted), id) && Fired(m, at, accepted).curID == m.curID
  {
  }

  lemma HandledOthers(m: Manager, at: Id, id: Id)
    requires at in m.task && id != at
    ensures Same(m, Handled(m, at), id) && Handled(m, at).curID == m.curID
  {
  }

  lemma FireOthers(m: Manager, at: Id, accepted: bool, id: Id)
    requires at in m.task && id != at
    ensures Same(m, Fired(m.Disarm(at), at, accepted), id) && Fired(m.Disarm(at), at, accepted).curID == m.curID
  {
    FiredOthers(m.Disarm(at), at, accepted, id);
  }

  lemma HandleOthers(m: Manager, at: Id, id: Id)
    requires at in m.task && id != at
    ensures Same(m, Handled(Drop(m, at), at), id) && Handled(Drop(m, at), at).curID == m.curID
  {
    HandledOthers(Drop(m, at), at, id);
  }

  lemma DrainOthers(m: Manager, at: Id, id: Id)
    requires at in m.task && id != at
    ensures Same(m, Drained(Drop(m, at), at), id) && Drained(Drop(m, at), at).curID == m.curID
  {
    CancelOthers(Drop(m, at), at, false, id);
  }

  lemma WorkOthers(m: Manager, e: Event, id: Id)
    requires (e.Deliver? || e.Finish? || e.CallBack?) && id != e.id
    ensures Same(m, Act(m, e), id) && Act(m, e).curID == m.curID
  {
  }

  lemma CancelByIdOthers(m: Manager, at: Id, stopped: bool, id: Id)
    requires id != at
    ensures Same(m, CancelById(m, at, stopped), id) && CancelById(m, at, stopped).curID == m.curID
  {
    if !Blocks(m, at) && at in m.task {
      AfterOthers(m, at, stopped, id);
    }
  }

  lemma TimerEventOthers(m: Manager, at: Id, accepted: bool, id: Id)
    requires id != at
    ensures Same(m, Act(m, Fire(at, accepted)), id) && Act(m, Fire(at, accepted)).curID == m.curID
  {
    if at in m.task && m.task[at].armed {
      FireOthers(m, at, accepted, id);
    }
  }

  lemma HandleEventOthers(m: Manager, at: Id, id: Id)
    requires id != at
    ensures Same(m, Act(m, Handle(at)), id) && Act(m, Handle(at)).curID == m.curID
  {
    if at in m.task && at in m.hand {
      HandleOthers(m, at, id);
    }
  }

  lemma DrainEventOthers(m: Manager, at: Id, id: Id)
    requires id != at
    ensures Same(m, Act(m, Drain(at)), id) && Act(m, Drain(at)).curID == m.curID
  {
    if at in m.task && at in m.hand {
      DrainOthers(m, at, id);
    }
  }

  lemma QueueEventOthers(m: Manager, at: Id, stopped: bool, id: Id)
    requires id != at
    ensures Same(m, Act(m, CancelQueue(at, stopped)), id) && Act(m, CancelQueue(at, stopped)).curID == m.curID
  {
    if m.Helped(at) {
      QueueOthers(m, at, stopped, id);
    }
  }

  lemma AfterEventOthers(m: Manager, at: Id, stopped: bool, id: Id)
    requires id != at
    ensures Same(m, Act(m, CancelAfter(at, stopped)), id) && Act(m, CancelAfter(at, stopped)).curID == m.curID
  {
    if at in m.task && !m.Helped(at) {
      AfterOthers(m, at, stopped, id);
    }
  }

  lemma ActOthers(m: Manager, e: Event, id: Id)
    requires id != Subject(m, e)
    ensures Same(m, Act(m, e), id)
    ensures m.curID <= Act(m, e).curID <= m.curID + 1
    ensures Act(m, e).curID > m.curID ==> Subject(m, e) == m.curID + 1
  {
    match e
    case CancelQueue(at, stopped) => QueueEventOthers(m, at, stopped, id);
    case CancelAfter(at, stopped) => AfterEventOthers(m, at, stopped, id);
    case Cancel(at, stopped) => CancelByIdOthers(m, at, stopped, id);
    case Drain(at) => DrainEventOthers(m, at, id);
    case Fire(at, accepted) => TimerEventOthers(m, at, accepted, id);
    case Handle(at) => HandleEventOthers(m, at, id);
    case Deliver(_) => WorkOthers(m, e, id);
    case CallBack(_, _) => WorkOthers(m, e, id);
    case Finish(_) => WorkOthers(m, e, id);
    case _ => AddingOthers(m, e, id);
  }

  /** An event changes nothing about other tasks. */
  lemma OthersStay(m: Manager, e: Event, id: Id)
    requires id != Subject(m, e)
    ensures Same(m, Apply(m, e), id)
    ensures m.curID <= Apply(m, e).curID <= m.curID + 1
    ensures Apply(m, e).curID > m.curID ==> Subject(m, e) == m.curID + 1
  {
    ActOthers(m, e, id);
  }

  lemma MakingKeeps(m: Manager, e: Event)
    requires (e.Create? || e.Add? || e.AddAfter?) && TaskOk(m, m.curID + 1)
    ensures TaskOk(ApplyAdding(m, e), m.curID + 1)
  {
  }

  lemma AddingKeeps(m: Manager, e: Event)
    requires TaskOk(m, Subject(m, e))
    ensures TaskOk(ApplyAdding(m, e), Subject(m, e))
  {
    if e.Create? || e.Add? || e.AddAfter? {
      MakingKeeps(m, e);
    }
  }

  lemma QueueKeeps(m: Manager, id: Id, stopped: bool)
    requires m.Helped(id) && TaskOk(m, id)
    ensures TaskOk(QueueCancelled(m, id, stopped), id)
  {
  }

  lemma AfterKeeps(m: Manager, id: Id, stopped: bool)
    requires id in m.task && !Blocks(m, id) && TaskOk(m, id)
    ensures TaskOk(AfterCancelled(m, id, stopped), id)
  {
  }

  lemma CancelKeeps(m: Manager, id: Id, stopped: bool)
    requires id in m.task && TaskOk(m, id)
    ensures TaskOk(TaskCancelled(m, id, stopped), id)
  {
    if m.Helped(id) {
      QueueKeeps(m, id, stopped);
    } else {
      AfterKeeps(m, id, stopped);
    }
  }

  lemma CancelByIdKeeps(m: Manager, id: Id, stopped: bool)
    requires TaskOk(m, id)
    ensures TaskOk(CancelById(m, id, stopped), id)
  {
    if !Blocks(m, id) && id in m.task {
      AfterKeeps(m, id, stopped);
    }
  }

  lemma FiredKeeps(m: Manager, id: Id, accepted: bool)
    requires id in m.task && m.task[id].armed && TaskOk(m, id)
    ensures TaskOk(Fired(m.Disarm(id), id, accepted), id)
  {
  }

  lemma HandledKeeps(m: Manager, id: Id)
    requires id in m.task && id in m.hand && TaskOk(m, id)
    ensures TaskOk(Handled(Drop(m, id), id), id)
  {
  }

  lemma DropKeepsHelped(m: Manager, id: Id)
    requires m.Helped(id) && id in m.hand && TaskOk(m, id)
    ensures TaskOk(QueueCancelled(Drop(m, id), id, false), id)
  {
  }

  lemma ThrowingKeeps(m: Manager, id: Id)
    requires id in m.task && !m.Helped(id) && id in m.hand && TaskOk(m, id)
    ensures TaskOk(Drained(Drop(m, id), id), id)
  {
  }

  /** A mail thrown away ends its task, unless the task has a helper and is cancelled then. */
  lemma DrainKeeps(m: Manager, id: Id)
    requires id in m.task && id in m.hand && TaskOk(m, id)
    ensures TaskOk(Drained(Drop(m, id), id), id)
  {
    if m.Helped(id) {
      DropKeepsHelped(m, id);
    } else {
      ThrowingKeeps(m, id);
    }
  }

  lemma WorkKeeps(m: Manager, e: Event)
    requires (e.Deliver? || e.Finish? || e.CallBack?) && TaskOk(m, e.id)
    ensures TaskOk(Act(m, e), e.id)
  {
  }

  lemma TimerEventKeeps(m: Manager, id: Id, accepted: bool)
    requires TaskOk(m, id)
    ensures TaskOk(Act(m, Fire(id, accepted)), id)
  {
    if id in m.task && m.task[id].armed {
      FiredKeeps(m, id, accepted);
    }
  }

  lemma HandleEventKeeps(m: Manager, id: Id)
    requires TaskOk(m, id)
    ensures TaskOk(Act(m, Handle(id)), id)
  {
    if id in m.task && id in m.hand {
      HandledKeeps(m, id);
    }
  }

  lemma QueueEventKeeps(m: Manager, id: Id, stopped: bool)
    requires TaskOk(m, id)
    ensures TaskOk(Act(m, CancelQueue(id, stopped)), id)
  {
    if m.Helped(id) {
      QueueKeeps(m, id, stopped);
    }
  }

  lemma AfterEventKeeps(m: Manager, id: Id, stopped: bool)
    requires TaskOk(m, id)
    ensures TaskOk(Act(m, CancelAfter(id, stopped)), id)
  {
    if id in m.task && !m.Helped(id) {
      AfterKeeps(m, id, stopped);
    }
  }

  lemma DrainEventKeeps(m: Manager, id: Id)
    requires TaskOk(m, id)
    ensures TaskOk(Act(m, Drain(id)), id)
  {
    if id in m.task && id in m.hand {
      DrainKeeps(m, id);
    }
  }

  lemma SubjectKeeps(m: Manager, e: Event)
    requires TaskOk(m, Subject(m, e))
    ensures TaskOk(Act(m, e), Subject(m, e))
  {
    match e
    case Fire(id, accepted) => TimerEventKeeps(m, id, accepted);
    case Handle(id) => HandleEventKeeps(m, id);
    case Deliver(_) => WorkKeeps(m, e);
    case CallBack(_, _) => WorkKeeps(m, e);
    case Finish(_) => WorkKeeps(m, e);
    case CancelQueue(id, stopped) => QueueEventKeeps(m, id, stopped);
    case CancelAfter(id, stopped) => AfterEventKeeps(m, id, stopped);
    case Cancel(id, stopped) => CancelByIdKeeps(m, id, stopped);
    case Drain(id) => DrainEventKeeps(m, id);
    case _ => AddingKeeps(m, e);
  }

  lemma ActKeeps(m: Manager, e: Event)
    requires Inv(m)
    ensures Inv(Act(m, e))
  {
    forall id ensures TaskOk(Act(m, e), id) {
      assert TaskOk(m, id) && TaskOk(m, Subject(m, e));
      if id == Subject(m, e) {
        SubjectKeeps(m, e);
      } else {
        ActOthers(m, e, id);
      }
    }
  }

  lemma StepKeeps(m: Manager, e: Event)
    requires Inv(m)
    ensures Inv(Apply(m, e))
  {
    ActKeeps(m, e);
  }

  lemma {:induction false} RunKeeps(es: seq<Event>)
    ensures Inv(Run(es))
  {
    if es != [] {
      RunKeeps(es[..|es| - 1]);
      StepKeeps(Run(es[..|es| - 1]), es[|es| - 1]);
    }
  }

  lemma RunOk(es: seq<Event>, id: Id)
    ensures TaskOk(Run(es), id)
  {
    RunKeeps(es);
  }

  /** In every run a worker runs at most once, is cancelled with success at most once, and never
      both; its mail is in at most one place, once. */
  lemma {:induction false} RunsOrIsCancelledOnce(es: seq<Event>, id: Id)
    ensures var m := Run(es);
            && m.ran[id] + m.cancelled[id] <= 1
            && m.queued[id] + m.hand[id] <= 1
  {
    RunOk(es, id);
  }

  /** A queue task absent from the container is done or cancelled, and its mail is gone. */
  lemma {:induction false} AbsentIsSettled(es: seq<Event>, id: Id)
    requires Run(es).Is(id, Queue) && id !in Run(es).tasks
    ensures var m := Run(es);
            && (m.In(id, Done) || m.In(id, Cancelled)) && Mails(m, id) == 0
            && (m.In(id, Done) <==> m.ran[id] == 1) && (m.In(id, Cancelled) <==> m.cancelled[id] == 1)
  {
    RunOk(es, id);
  }

  /** What becomes of a task: it is scheduled, or its mail is on its way and will be heeded, or it
      ended in one of four ways. A refused push counts as long as no cancel follows it. */
  ghost function Fates(m: Manager, id: Id): nat
    requires id in m.task
  {
    (if m.In(id, Scheduling) then 1 else 0) +
    (if m.In(id, Cancelled) then 0 else Mails(m, id)) +
    m.ran[id] + m.cancelled[id] + m.dropped[id] + (if m.cancelled[id] == 0 then m.refused[id] else 0)
  }

  /** In every run each task ever made has exactly one fate: still scheduled, mail on its way, run,
      cancelled with success, push refused, or thrown away by the halt. No worker is lost unnoticed. */
  lemma {:induction false} ExactlyOneFate(es: seq<Event>, id: Id)
    requires id in Run(es).task
    ensures Fates(Run(es), id) == 1
  {
    RunOk(es, id);
  }

  /** A mail reaching its handler runs the worker exactly when no cancel has succeeded and, for a
      queue task, the mutex can be had. */
  lemma {:induction false} HandledRunsUnlessCancelled(es: seq<Event>, id: Id)
    requires id in Run(es).hand
    ensures Run(es).ran[id] == 0
    ensures Run(es + [Handle(id)]).ran[id] == 1 <==>
            Run(es).cancelled[id] == 0 && !(Run(es).stuck && Run(es).Is(id, Queue))
  {
    RunOk(es, id);
    assert (es + [Handle(id)])[..|es|] == es;
  }

  /** The branches that report a framework error or a fatal one: in the timers, the pushes, the
      handler, the mailing of a worker's callback, and the cancels. A refused push of a queue task
      reports one only if no cancel callback was given, which is called instead. A step that waits
      for a mutex held for ever is not taken at all. */
  predicate Fault(m: Manager, e: Event)
  {
    match e
    case Push(id, accepted) => id in m.task && m.task[id].adding == ToPush && !accepted && !m.task[id].callback
    case Fire(id, accepted) =>
      && id in m.task && m.task[id].armed && id in m.tasks
      && (m.task[id].state != Scheduling || (!accepted && !m.task[id].callback))
    case Handle(id) =>
      id in m.hand && (id !in m.task || (m.Is(id, Queue) && !m.In(id, Cancelled) && !m.In(id, Mailing)))
    case CallBack(id, accepted) => m.Is(id, Queue) && m.In(id, Executing) && !accepted
    case Finish(id) => m.Is(id, Queue) && m.In(id, Executing) && id !in m.tasks
    case CancelQueue(id, _) => m.Helped(id) && QueueResult(m, id) == FrameworkError
    case CancelAfter(id, _) => id in m.task && !m.Helped(id) && AfterResult(m, id) == FrameworkError
    case Cancel(id, _) => id in m.task && !Blocks(m, id) && AfterResult(m, id) == FrameworkError
    case Drain(id) => id in m.hand && (id !in m.task || CancelResultOf(Drop(m, id), id) == FrameworkError)
    case _ => false
  }

  /** A delayed task between the setting of its helper and the store of its timer field. */
  predicate Unfinished(m: Manager, id: Id)
  {
    m.Is(id, Queue) && m.In(id, Scheduling) && (m.task[id].adding == ToStart || m.task[id].adding == ToStore)
  }

  /** A stopped mailbox refuses a mail, and nobody asked to be called back. */
  predicate Refused(m: Manager, e: Event)
  {
    match e
    case Push(id, accepted) => id in m.task && m.task[id].adding == ToPush && !accepted && !m.task[id].callback
    case Fire(id, accepted) =>
      id in m.tasks && id in m.task && m.task[id].armed && !accepted && !m.task[id].callback
    case CallBack(id, accepted) => m.Is(id, Queue) && m.In(id, Executing) && !accepted
    case _ => false
  }

  /** In every run such a branch is taken exactly by the cancel of a delayed task whose adder has not
      stored the timer yet, or by the refusal of a mail. */
  lemma {:induction false} FaultsExactly(es: seq<Event>, e: Event)
    ensures Fault(Run(es), e) <==> (e.CancelQueue? && Unfinished(Run(es), e.id)) || Refused(Run(es), e)
  {
    RunOk(es, Subject(Run(es), e));
  }

  /** A cancel of any task answers with the framework error exactly in the first case. */
  lemma {:induction false} CancelFailsExactly(es: seq<Event>, id: Id)
    requires id in Run(es).task
    ensures CancelResultOf(Run(es), id) == FrameworkError <==> Unfinished(Run(es), id)
  {
    RunOk(es, id);
  }

  lemma RunOne(es: seq<Event>, e: Event)
    ensures Run(es + [e]) == Apply(Run(es), e)
  {
    assert (es + [e])[..|es|] == es && (es + [e])[|es|] == e;
  }

  /** Task 1 is a queue task that has just got its helper. */
  predicate Fresh(m: Manager, delayed: bool, callback: bool)
  {
    && m.Is(1, Queue) && m.In(1, if delayed then Scheduling else Mailing) && m.task[1].callback == callback
    && m.task[1].adding == (if delayed then ToStart else ToPush) && !m.task[1].timer && !m.task[1].armed
    && m.refused == multiset{}
  }

  lemma FreshReached(delayed: bool, callback: bool) returns (es: seq<Event>)
    ensures Fresh(Run(es), delayed, callback)
  {
    RunOne([], Create(delayed, callback));
    var y := [] + [Create(delayed, callback)];
    assert Run(y) == EMPTY.Make(NewTask(delayed, callback), true);
    RunOne(y, Init(1));
    es := y + [Init(1)];
  }

  lemma FreshCancelFails(m: Manager, stopped: bool)
    requires Fresh(m, true, false)
    ensures Fault(m, CancelQueue(1, stopped)) && Fault(Apply(m, StartTimer(1)), CancelQueue(1, stopped))
    ensures Apply(m, StartTimer(1)).In(1, Scheduling) && Apply(m, StartTimer(1)).task[1].armed
  {
  }

  /** Runs that reach each case: a cancel before and after the timer is started, */
  lemma CancelCanFail(stopped: bool)
    ensures exists es ::
              Fault(Run(es), CancelQueue(1, stopped)) && Run(es).In(1, Scheduling) && !Run(es).task[1].armed
    ensures exists es ::
              Fault(Run(es), CancelQueue(1, stopped)) && Run(es).In(1, Scheduling) && Run(es).task[1].armed
  {
    var es := FreshReached(true, false);
    FreshCancelFails(Run(es), stopped);
    RunOne(es, StartTimer(1));
    assert Fault(Run(es + [StartTimer(1)]), CancelQueue(1, stopped));
  }

  lemma FreshPushFails(m: Manager)
    requires Fresh(m, false, false)
    ensures Fault(m, Push(1, false)) && Apply(m, Push(1, false)).In(1, Mailing)
    ensures Apply(m, Push(1, false)).refused[1] == 1
  {
  }

  /** a queue task refused when it is pushed, */
  lemma PushCanBeRefused()
    ensures exists es ::
              Fault(Run(es), Push(1, false)) && Run(es + [Push(1, false)]).In(1, Mailing) &&
              Run(es + [Push(1, false)]).refused[1] == 1
  {
    var es := FreshReached(false, false);
    FreshPushFails(Run(es));
    RunOne(es, Push(1, false));
  }

  /** and an after task, which leaves the container and is neither run nor cancelled, ever. */
  lemma AfterCanBeRefused()
    ensures var m := Run([AddAfter, Fire(1, false)]);
            Fault(Run([AddAfter]), Fire(1, false)) && 1 in m.task && 1 !in m.tasks && m.In(1, Mailing) &&
            m.ran[1] + m.cancelled[1] == 0 && m.refused[1] == 1
  {
    assert [AddAfter, Fire(1, false)][..1] == [AddAfter] && [AddAfter][..0] == [];
  }

  lemma {:induction false} RefusedGrows(es: seq<Event>, later: seq<Event>, id: Id)
    ensures Run(es).refused[id] <= Run(es + later).refused[id]
  {
    if later == [] {
      assert es + later == es;
    } else {
      var front := later[..|later| - 1];
      RefusedGrows(es, front, id);
      RunMore(es, later);
      RefusedStep(Run(es + front), later[|later| - 1], id);
    }
  }

  lemma CancelsRefuseNothing(m: Manager, id: Id, stopped: bool)
    requires id in m.task
    ensures QueueCancelled(m, id, stopped).refused == m.refused && AfterCancelled(m, id, stopped).refused == m.refused
  {
  }

  lemma QueueRefusesNothing(m: Manager, id: Id, stopped: bool)
    ensures Act(m, CancelQueue(id, stopped)).refused == m.refused
  {
    if m.Helped(id) {
      CancelsRefuseNothing(m, id, stopped);
    }
  }

  lemma AfterRefusesNothing(m: Manager, id: Id, stopped: bool)
    ensures Act(m, CancelAfter(id, stopped)).refused == m.refused && CancelById(m, id, stopped).refused == m.refused
  {
    if id in m.task {
      CancelsRefuseNothing(m, id, stopped);
    }
  }

  lemma DrainedRefusesNothing(m: Manager, id: Id)
    requires id in m.task
    ensures Drained(m, id).refused == m.refused
  {
    CancelsRefuseNothing(m, id, false);
  }

  lemma DrainRefusesNothing(m: Manager, id: Id)
    ensures Act(m, Drain(id)).refused == m.refused
  {
    if id in m.task && id in m.hand {
      DrainedRefusesNothing(Drop(m, id), id);
    }
  }

  lemma PushesOnlyRefuse(m: Manager, e: Event, id: Id)
    requires !e.CancelQueue? && !e.CancelAfter? && !e.Cancel? && !e.Drain?
    ensures m.refused[id] <= Act(m, e).refused[id]
  {
  }

  lemma RefusedStep(m: Manager, e: Event, id: Id)
    ensures m.refused[id] <= Apply(m, e).refused[id]
  {
    match e
    case CancelQueue(at, stopped) => QueueRefusesNothing(m, at, stopped);
    case CancelAfter(at, stopped) => AfterRefusesNothing(m, at, stopped);
    case Cancel(at, stopped) => AfterRefusesNothing(m, at, stopped);
    case Drain(at) => DrainRefusesNothing(m, at);
    case _ => PushesOnlyRefuse(m, e, id);
  }

  /** A refused worker never runs, whatever happens later. */
  lemma {:induction false} RefusedNeverRuns(es: seq<Event>, later: seq<Event>, id: Id)
    requires Run(es).refused[id] > 0
    ensures Run(es + later).ran[id] == 0
  {
    RefusedGrows(es, later, id);
    RunOk(es + later, id);
  }

  /** `Cancel` never returns exactly if its id is that of a contained queue task with a helper. */
  lemma CancelBlocksExactly(m: Manager, id: Id, stopped: bool)
    requires !m.stuck
    ensures Apply(m, Cancel(id, stopped)).stuck <==> id in m.tasks && m.Helped(id)
    ensures id in m.tasks && m.Helped(id) ==> Apply(m, Cancel(id, stopped)) == m.(stuck := true)
  {
  }

  /** From then on the whole manager is at a standstill: no task is added, no timer mails, no queue
      task starts or ends, and nothing is cancelled any more. */
  lemma {:induction false} StuckForGood(es: seq<Event>, later: seq<Event>)
    requires Run(es).stuck
    ensures var m, z := Run(es), Run(es + later);
            && z.stuck && z.curID == m.curID && z.tasks == m.tasks && z.cancelled == m.cancelled
            && z.task.Keys == m.task.Keys && forall id :: id in m.task ==> z.task[id].state == m.task[id].state
  {
    if later == [] {
      assert es + later == es;
    } else {
      var front := later[..|later| - 1];
      StuckForGood(es, front);
      RunMore(es, later);
      StuckStep(Run(es + front), later[|later| - 1]);
    }
  }

  ghost predicate Standstill(m: Manager, z: Manager)
  {
    && z.stuck && z.curID == m.curID && z.tasks == m.tasks && z.cancelled == m.cancelled
    && z.task.Keys == m.task.Keys && forall id :: id in m.task ==> z.task[id].state == m.task[id].state
  }

  lemma AdderIsHarmless(m: Manager, e: Event)
    requires m.stuck && (e.Init? || e.StartTimer? || e.StoreTimer?)
    ensures Standstill(m, ApplyAdding(m, e))
  {
  }

  lemma PushIsHarmless(m: Manager, e: Event)
    requires m.stuck && e.Push?
    ensures Standstill(m, ApplyAdding(m, e))
  {
  }

  lemma LoopIsHarmless(m: Manager, e: Event)
    requires m.stuck && (e.Deliver? || e.Handle? || e.CallBack?) && !NeedsMutex(m, e)
    ensures Standstill(m, Act(m, e))
  {
  }

  lemma StuckStep(m: Manager, e: Event)
    requires m.stuck
    ensures Standstill(m, Apply(m, e))
  {
    if !NeedsMutex(m, e) {
      if e.Deliver? || e.Handle? || e.CallBack? {
        LoopIsHarmless(m, e);
      } else if e.Push? {
        PushIsHarmless(m, e);
      } else {
        AdderIsHarmless(m, e);
      }
    }
  }

  ghost predicate Final(m: Manager, id: Id) { m.Is(id, Queue) && (m.In(id, Done) || m.In(id, Cancelled)) }

  lemma FinalStep(m: Manager, e: Event, id: Id)
    requires TaskOk(m, id) && Final(m, id)
    ensures Final(Apply(m, e), id) && Apply(m, e).task[id].state == m.task[id].state
  {
    if id != Subject(m, e) {
      OthersStay(m, e, id);
    }
  }

  lemma {:induction false} FinalCounts(es: seq<Event>, id: Id)
    requires Final(Run(es), id)
    ensures Run(es).ran[id] == (if Run(es).In(id, Done) then 1 else 0)
    ensures Run(es).cancelled[id] == (if Run(es).In(id, Cancelled) then 1 else 0)
  {
    RunOk(es, id);
  }

  lemma RunUnfolds(es: seq<Event>)
    requires es != []
    ensures Run(es) == Apply(Run(es[..|es| - 1]), es[|es| - 1])
  {
  }

  lemma RunMore(es: seq<Event>, later: seq<Event>)
    requires later != []
    ensures Run(es + later) == Apply(Run(es + later[..|later| - 1]), later[|later| - 1])
  {
    RunUnfolds(es + later);
    assert (es + later)[..|es + later| - 1] == es + later[..|later| - 1];
    assert (es + later)[|es + later| - 1] == later[|later| - 1];
  }

  lemma {:induction false} FinalStays(es: seq<Event>, later: seq<Event>, id: Id)
    requires Final(Run(es), id)
    ensures Final(Run(es + later), id) && Run(es + later).task[id].state == Run(es).task[id].state
  {
    if later == [] {
      assert es + later == es;
    } else {
      var front := later[..|later| - 1];
      FinalStays(es, front, id);
      RunOk(es + front, id);
      RunMore(es, later);
      FinalStep(Run(es + front), later[|later| - 1], id);
    }
  }

  /** Done and Cancelled are final: a cancelled task is never run afterwards, a done one never
      cancelled, whatever timers, mails and cancels are still under way. */
  lemma {:induction false} SettledForGood(es: seq<Event>, later: seq<Event>, id: Id)
    requires Final(Run(es), id)
    ensures var m := Run(es + later);
            && Final(m, id) && m.task[id].state == Run(es).task[id].state
            && m.ran[id] == (if Run(es).In(id, Done) then 1 else 0)
            && m.cancelled[id] == (if Run(es).In(id, Cancelled) then 1 else 0)
  {
    FinalStays(es, later, id);
    FinalCounts(es + later, id);
  }

  /** The outcome of cancelling a task, whichever its kind, and the event that does it. */
  function CancelResultOf(m: Manager, id: Id): CancelResult
    requires id in m.task
  {
    if m.Helped(id) then QueueResult(m, id) else AfterResult(m, id)
  }

  function Cancelling(m: Manager, id: Id, stopped: bool): Event
    requires id in m.task
  {
    if m.Helped(id) then CancelQueue(id, stopped) else CancelAfter(id, stopped)
  }

  /** What the halt leaves of a task once it has seen all but `todo` of the container: each is
      cancelled on its own. */
  ghost predicate HaltedTask(m: Manager, n: Manager, stopped: set<Id>, todo: set<Id>, id: Id)
  {
    if id in m.tasks - todo && id in m.task then Same(TaskCancelled(m, id, id in stopped), n, id) else Same(m, n, id)
  }

  ghost predicate Halted(m: Manager, n: Manager, stopped: set<Id>, todo: set<Id>)
  {
    forall id :: HaltedTask(m, n, stopped, todo, id)
  }

  ghost predicate Succeeds(m: Manager, todo: set<Id>, id: Id)
  {
    id in m.tasks - todo && id in m.task && CancelResultOf(m, id) == Success
  }

  /** `ids` lists, once each, the cancels that succeed. */
  ghost predicate Listed(m: Manager, todo: set<Id>, ids: seq<Id>)
  {
    forall id :: multiset(ids)[id] == if Succeeds(m, todo, id) then 1 else 0
  }

  lemma ScheduledAlike(m: Manager, n: Manager, id: Id, stopped: bool)
    requires m.In(id, Scheduling) && Same(m, n, id)
    ensures Same(QueueCancelled(m, id, stopped), QueueCancelled(n, id, stopped), id)
  {
    var t := m.task[id];
    if t.timer && id in m.tasks && id !in m.queued {
      CancelledAlike(if stopped then m.Disarm(id) else m, if stopped then n.Disarm(id) else n, id);
    }
  }

  /** Leaving the container and being marked is the same in both. */
  lemma CancelledAlike(m: Manager, n: Manager, id: Id)
    requires id in m.task && Same(m, n, id)
    ensures Same(m.Leave(id).To(id, Cancelled).CountCancel(id), n.Leave(id).To(id, Cancelled).CountCancel(id), id)
  {
  }

  lemma QueueAlike(m: Manager, n: Manager, id: Id, stopped: bool)
    requires id in m.task && Same(m, n, id)
    ensures Same(QueueCancelled(m, id, stopped), QueueCancelled(n, id, stopped), id)
    ensures QueueResult(m, id) == QueueResult(n, id)
  {
    if m.In(id, Scheduling) {
      ScheduledAlike(m, n, id, stopped);
    }
  }

  lemma AfterAlike(m: Manager, n: Manager, id: Id, stopped: bool)
    requires id in m.task && Same(m, n, id)
    ensures Same(AfterCancelled(m, id, stopped), AfterCancelled(n, id, stopped), id)
    ensures AfterResult(m, id) == AfterResult(n, id)
  {
    if id in m.tasks && m.task[id].timer && m.task[id].state == Scheduling {
      CancelledAlike(if stopped then m.Disarm(id) else m, if stopped then n.Disarm(id) else n, id);
    }
  }

  lemma HaltedAt(m: Manager, n: Manager, stopped: set<Id>, todo: set<Id>, id: Id)
    requires HaltedTask(m, n, stopped, todo, id) && id in todo && id in m.tasks && id in n.task
    ensures id in m.task && CancelResultOf(n, id) == CancelResultOf(m, id)
    ensures HaltedTask(m, TaskCancelled(n, id, id in stopped), stopped, todo - {id}, id)
  {
    QueueAlike(m, n, id, id in stopped);
    AfterAlike(m, n, id, id in stopped);
  }

  lemma HaltedElsewhere(m: Manager, n: Manager, stopped: set<Id>, todo: set<Id>, id: Id, other: Id)
    requires HaltedTask(m, n, stopped, todo, other) && id in n.task && other != id
    ensures HaltedTask(m, TaskCancelled(n, id, id in stopped), stopped, todo - {id}, other)
  {
    CancelOthers(n, id, id in stopped, other);
  }

  lemma HaltAdvances(m: Manager, n: Manager, stopped: set<Id>, todo: set<Id>, id: Id)
    requires Halted(m, n, stopped, todo) && id in todo && id in m.tasks && id in n.task
    ensures Halted(m, TaskCancelled(n, id, id in stopped), stopped, todo - {id})
    ensures id in m.task && CancelResultOf(n, id) == CancelResultOf(m, id)
  {
    assert HaltedTask(m, n, stopped, todo, id);
    HaltedAt(m, n, stopped, todo, id);
    forall other | other != id ensures HaltedTask(m, TaskCancelled(n, id, id in stopped), stopped, todo - {id}, other) {
      assert HaltedTask(m, n, stopped, todo, other);
      HaltedElsewhere(m, n, stopped, todo, id, other);
    }
  }

  lemma ListAdvances(m: Manager, todo: set<Id>, ids: seq<Id>, id: Id)
    requires Listed(m, todo, ids) && id in todo && id in m.tasks && id in m.task
    ensures Listed(m, todo - {id}, if CancelResultOf(m, id) == Success then ids + [id] else ids)
  {
    var next := if CancelResultOf(m, id) == Success then ids + [id] else ids;
    forall o ensures multiset(next)[o] == if Succeeds(m, todo - {id}, o) then 1 else 0 {
      assert multiset(ids)[o] == if Succeeds(m, todo, o) then 1 else 0;
    }
  }

  /** What a cancel answers is what it does: it counts as a cancel exactly when it succeeds. */
  lemma SuccessIsCounted(m: Manager, id: Id, stopped: bool)
    requires id in m.task
    ensures TaskCancelled(m, id, stopped).cancelled ==
            if CancelResultOf(m, id) == Success then m.cancelled + multiset{id} else m.cancelled
  {
  }

  function Zeros(n: nat): seq<Id> { seq(n, _ => 0) }

  /** A cancel, whichever its kind, is a step. */
  lemma CancellingKeeps(m: Manager, id: Id, stopped: bool)
    requires Inv(m) && id in m.task
    ensures Act(m, Cancelling(m, id, stopped)) == TaskCancelled(m, id, stopped) && Inv(TaskCancelled(m, id, stopped))
  {
    ActKeeps(m, Cancelling(m, id, stopped));
  }

  /** One round of the halt's loop. */
  lemma HaltStep(m: Manager, n: Manager, stopped: set<Id>, todo: set<Id>, ids: seq<Id>, id: Id)
    requires Inv(n) && Halted(m, n, stopped, todo) && Listed(m, todo, ids) && id in todo && id in m.tasks
    ensures id in n.task
    ensures var z := TaskCancelled(n, id, id in stopped);
            Inv(z) && Halted(m, z, stopped, todo - {id})
    ensures Listed(m, todo - {id}, if CancelResultOf(n, id) == Success then ids + [id] else ids)
  {
    assert HaltedTask(m, n, stopped, todo, id) && TaskOk(n, id);
    CancellingKeeps(n, id, id in stopped);
    HaltAdvances(m, n, stopped, todo, id);
    ListAdvances(m, todo, ids, id);
  }

  /** The task manager of an atomos. Each method is a step of `Act`, stated by the function that
      `Act` uses for it. The task mails in the mailboxes, the timers' firing and the counts stand
      beside the fields of the source. */
  class TaskManager {
    var curID: nat
    var tasks: set<Id>
    var task: map<Id, Task>
    var queued: multiset<Id>
    var hand: multiset<Id>
    ghost var ran: multiset<Id>
    ghost var cancelled: multiset<Id>
    ghost var refused: multiset<Id>
    ghost var dropped: multiset<Id>
    ghost var stuck: bool

    ghost function Abs(): Manager
      reads this
    {
      Manager(curID, task, tasks, queued, hand, ran, cancelled, refused, dropped, stuck)
    }

    constructor ()
      ensures Abs() == EMPTY
    {
      curID, tasks, task, queued, hand := 0, {}, map[], multiset{}, multiset{};
      ran, cancelled, refused, dropped, stuck := multiset{}, multiset{}, multiset{}, multiset{}, false;
    }

    method GenTaskID(schedule: bool, callback: bool) returns (id: Id)
      modifies this
      ensures Abs() == Act(old(Abs()), Create(schedule, callback)) && id == old(curID) + 1
    {
      MakeTask(NewTask(schedule, callback), true);
      return curID;
    }

    method MakeTask(t: Task, contained: bool)
      modifies this`curID, this`task, this`tasks
      ensures Abs() == old(Abs()).Make(t, contained) && curID == old(curID) + 1
    {
      curID := curID + 1;
      task := task[curID := t];
      if contained {
        tasks := tasks + {curID};
      }
    }

    method PushMail(id: Id, accepted: bool)
      modifies this`queued, this`refused
      ensures Abs() == old(Abs()).Push(id, accepted)
    {
      if accepted {
        queued := queued + multiset{id};
      } else {
        refused := refused + multiset{id};
      }
    }

    method PopById(id: Id) returns (found: bool)
      modifies this`queued
      ensures Abs() == old(Abs()).PopById(id) && found == (id in old(queued))
      ensures !found ==> Abs() == old(Abs())
    {
      found := id in queued;
      if found {
        queued := queued - multiset{id};
      }
    }

    /** The task gets its helper and its mail. */
    method InitTask(id: Id)
      requires id in task && task[id].adding == ToInit
      modifies this`task
      ensures Abs() == Act(old(Abs()), Init(id))
    {
      task := task[id := task[id].(adding := if task[id].state == Scheduling then ToStart else ToPush)];
    }

    /** `time.AfterFunc`, and the assignment of its result. */
    method StartTimerOf(id: Id)
      requires id in task && task[id].adding == ToStart
      modifies this`task
      ensures Abs() == Act(old(Abs()), StartTimer(id))
    {
      task := task[id := task[id].(adding := ToStore, armed := true)];
    }

    method StoreTimerOf(id: Id)
      requires id in task && task[id].adding == ToStore
      modifies this`task
      ensures Abs() == Act(old(Abs()), StoreTimer(id))
    {
      task := task[id := task[id].(adding := Added, timer := true)];
    }

    method AddToQueue(id: Id, accepted: bool)
      requires id in task && task[id].adding == ToPush
      modifies this
      ensures Abs() == Act(old(Abs()), Push(id, accepted))
    {
      PushMail(id, accepted);
      task := task[id := task[id].(adding := Added)];
    }

    /** The two ways of adding a queue task, run without interference. */
    method AddToAtomos(delayed: bool, callback: bool, accepted: bool) returns (id: Id)
      modifies this
      ensures id == old(curID) + 1
      ensures var m := Act(Act(old(Abs()), Create(delayed, callback)), Init(id));
              Abs() == if delayed then Act(Act(m, StartTimer(id)), StoreTimer(id)) else Act(m, Push(id, accepted))
    {
      id := GenTaskID(delayed, callback);
      InitTask(id);
      if delayed {
        StartTimerOf(id);
        StoreTimerOf(id);
      } else {
        AddToQueue(id, accepted);
      }
    }

    method Add(accepted: bool) returns (id: Id)
      modifies this
      ensures Abs() == Act(old(Abs()), Event.Add(accepted)) && id == (if accepted then curID else 0)
    {
      MakeTask(NEW_CLOSURE, false);
      PushMail(curID, accepted);
      return if accepted then curID else 0;
    }

    method AddAfter() returns (id: Id)
      modifies this
      ensures Abs() == Act(old(Abs()), Event.AddAfter) && id == curID
    {
      MakeTask(NEW_AFTER, true);
      return curID;
    }

    /** The timer of a task fires: `delayAddToQueue`, or the closure that `AddAfter` starts. */
    method TimerFires(id: Id, accepted: bool)
      requires id in task && task[id].armed
      modifies this
      ensures Abs() == Fired(old(Abs()).Disarm(id), id, accepted)
    {
      task := task[id := task[id].(armed := false)];
      if id !in tasks {
        return;
      }
      match task[id].state {
        case Cancelled =>
          tasks := tasks - {id};
        case Scheduling =>
          task := task[id := task[id].(state := Mailing)];
          if task[id].kind != Queue {
            tasks := tasks - {id};
          }
          PushMail(id, accepted);
        case _ =>
      }
    }

    /** The first locked region of `handleTaskQueue`; a closure is run without it. */
    method StartHandling(id: Id) returns (run: bool)
      requires id in task && id in hand
      modifies this
      ensures Abs() == Handled(Drop(old(Abs()), id), id)
      ensures run == (old(task[id].kind) != Queue || old(task[id].state) == Mailing)
    {
      hand := hand - multiset{id};
      if task[id].kind != Queue {
        ran := ran + multiset{id};
        return true;
      }
      match task[id].state {
        case Cancelled => return false;
        case Mailing =>
          task := task[id := task[id].(state := Executing)];
          ran := ran + multiset{id};
          return true;
        case _ => return false;
      }
    }

    method TakeFromHand(id: Id)
      modifies this`hand
      ensures Abs() == Drop(old(Abs()), id)
    {
      hand := hand - multiset{id};
    }

    ghost method CountDropped(id: Id, thrown: bool)
      modifies this`dropped
      ensures Abs() == if thrown then old(Abs()).(dropped := old(dropped) + multiset{id}) else old(Abs())
    {
      if thrown {
        dropped := dropped + multiset{id};
      }
    }

    /** The halt meets the mail of a task. */
    method DrainMail(id: Id)
      requires id in task && id in hand
      modifies this
      ensures Abs() == Drained(Drop(old(Abs()), id), id)
    {
      ghost var thrown := task[id].kind != Queue;
      TakeFromHand(id);
      var res := CancelTask(id, false);
      if res != Success {
        CountDropped(id, thrown);
      }
    }

    /** The last locked region of `handleTaskQueue`. */
    method FinishTask(id: Id)
      requires id in task && task[id].kind == Queue && task[id].state == Executing
      modifies this
      ensures Abs() == old(Abs()).To(id, Done).Leave(id)
    {
      task := task[id := task[id].(state := Done)];
      if id in tasks {
        tasks := tasks - {id};
      }
    }

    method StopTimer(id: Id, stopped: bool)
      requires id in task
      modifies this`task
      ensures Abs() == if stopped then old(Abs()).Disarm(id) else old(Abs())
    {
      if stopped {
        task := task[id := task[id].(armed := false)];
      }
    }

    method MarkCancelled(id: Id)
      requires id in task
      modifies this`task, this`cancelled
      ensures Abs() == old(Abs()).To(id, Cancelled).CountCancel(id)
    {
      task := task[id := task[id].(state := Cancelled)];
      cancelled := cancelled + multiset{id};
    }

    method CancelTaskQueue(id: Id, stopped: bool) returns (res: CancelResult)
      requires id in task && task[id].kind == Queue
      modifies this
      ensures Abs() == QueueCancelled(old(Abs()), id, stopped) && res == QueueResult(old(Abs()), id)
    {
      match task[id].state {
        case Cancelled => return AlreadyCancelled;
        case Executing => return IsRunning;
        case Done => return IsDone;
        case Scheduling => res := CancelScheduled(id, stopped);
        case Mailing =>
          var _ := PopById(id);
          MarkCancelled(id);
          return Success;
      }
    }

    method CancelScheduled(id: Id, stopped: bool) returns (res: CancelResult)
      requires id in task && task[id].state == Scheduling
      modifies this
      ensures Abs() == QueueCancelled(old(Abs()), id, stopped) && res == QueueResult(old(Abs()), id)
    {
      if !task[id].timer {
        var _ := PopById(id);
        return FrameworkError;
      }
      StopTimer(id, stopped);
      if id !in tasks {
        var _ := PopById(id);
        return FrameworkError;
      }
      tasks := tasks - {id};
      if id in queued {
        var _ := PopById(id);
        return FrameworkError;
      }
      MarkCancelled(id);
      return Success;
    }

    /** The timer's part of the following. */
    method CancelTimed(id: Id, stopped: bool) returns (res: CancelResult)
      requires id in task && id in tasks && task[id].timer && task[id].state != Mailing
      modifies this
      ensures Abs() == AfterCancelled(old(Abs()), id, stopped) && res == AfterResult(old(Abs()), id)
    {
      if task[id].state == Scheduling {
        StopTimer(id, stopped);
        tasks := tasks - {id};
        MarkCancelled(id);
        return Success;
      }
      if task[id].state == Cancelled {
        tasks := tasks - {id};
      }
      return FrameworkError;
    }

    /** The part of `cancelTask` for a task without a helper. */
    method CancelAfterTask(id: Id, stopped: bool) returns (res: CancelResult)
      requires id in task
      modifies this
      ensures Abs() == AfterCancelled(old(Abs()), id, stopped) && res == AfterResult(old(Abs()), id)
    {
      if id in tasks && task[id].timer && task[id].state != Mailing {
        res := CancelTimed(id, stopped);
        return;
      }
      res := TakeBack(id);
    }

    /** Its mailbox's part. */
    method TakeBack(id: Id) returns (res: CancelResult)
      modifies this`queued, this`cancelled
      ensures Abs() == if id in old(queued) then old(Abs()).PopById(id).CountCancel(id) else old(Abs())
      ensures res == if id in old(queued) then Success else NotExists
    {
      var found := PopById(id);
      if !found {
        return NotExists;
      }
      cancelled := cancelled + multiset{id};
      return Success;
    }

    /** `cancelTask` on behalf of the halt, which holds the mutex and says so. */
    method CancelTask(id: Id, stopped: bool) returns (res: CancelResult)
      requires id in task
      modifies this
      ensures Abs() == TaskCancelled(old(Abs()), id, stopped)
      ensures res == CancelResultOf(old(Abs()), id)
    {
      if task[id].kind == Queue && task[id].adding != ToInit {
        res := CancelTaskQueue(id, stopped);
      } else {
        res := CancelAfterTask(id, stopped);
      }
    }

    /** `Cancel`. `other` tells whether the atom's mailbox holds some other mail under the id, which
        can only be the default id 0; then that mail is the one taken out. */
    method Cancel(id: Id, stopped: bool, other: bool) returns (res: CancelResult)
      modifies this
      ensures Abs() == CancelById(old(Abs()), id, stopped)
      ensures res == NeverReturns <==> Blocks(old(Abs()), id)
      ensures res != NeverReturns ==>
                res == if id in old(task) then AfterResult(old(Abs()), id) else if other then Success else NotExists
    {
      if id in tasks && id in task && task[id].kind == Queue && task[id].adding != ToInit {
        stuck := true;  // the mutex is taken for the second time
        return NeverReturns;
      }
      if id in task {
        res := CancelAfterTask(id, stopped);
        return;
      }
      return if other then Success else NotExists;
    }

    /** The halt. `stopped` holds the tasks whose timer could still be stopped. The list of
        cancelled ids is headed by as many zeros as there were tasks. */
    method CancelAllSchedulingTasks(stopped: set<Id>) returns (cancels: seq<Id>, ghost ids: seq<Id>)
      requires Inv(Abs())
      modifies this
      ensures Inv(Abs()) && Halted(old(Abs()), Abs(), stopped, {})
      ensures cancels == Zeros(|old(tasks)|) + ids && Listed(old(Abs()), {}, ids)
    {
      ghost var was := Abs();
      cancels := Zeros(|tasks|);
      ids := [];
      var todo := tasks;
      while todo != {}
        invariant todo <= was.tasks
        invariant cancels == Zeros(|was.tasks|) + ids && Listed(was, todo, ids)
        invariant Inv(Abs()) && Halted(was, Abs(), stopped, todo)
        decreases todo
      {
        var id :| id in todo;
        HaltStep(was, Abs(), stopped, todo, ids, id);
        var res := CancelTask(id, id in stopped);
        if res == Success {
          cancels := cancels + [id];
          ids := ids + [id];
        }
        todo := todo - {id};
      }
    }
  }
}
