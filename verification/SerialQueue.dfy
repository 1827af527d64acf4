/** The named serial queues of a task manager. Each queue is a mailbox of its own, which stops
    itself when it finds no mail after a task and is created again on demand. */
module SerialQueue {
  import opened MailSpec
  import MailBoxes

  type Name = string
  type BoxId = nat

  datatype Item = Task(id: nat) | Exit

  /** `Running` a task, between the task and the `Checking` of its queue, and after the stop. */
  datatype Phase = Waiting | Running | Checking | Stopped(left: seq<Item>)

  /** One task mailbox. `accepted` and `started` list the mails it took in and handed to the task
      handler, `removed` counts those it gave back to a cancel. */
  datatype Worker = Worker(name: Name, box: Box<Item>, phase: Phase,
                           accepted: seq<Item>, started: seq<Item>, removed: multiset<Item>)

  datatype Queues = Queues(workers: map<BoxId, Worker>, next: BoxId, queueMap: map<Name, BoxId>)

  const EMPTY := Queues(map[], 0, map[])

  /** Whoever got a mailbox may push to it at any later time. `Check` is `checkCloseTaskSerialMailbox`
      called by the worker of the mailbox. */
  datatype Event =
    | Get(name: Name)
    | Push(b: BoxId, item: nat, head: bool)
    | Pop(b: BoxId)
    | Finish(b: BoxId)
    | Check(b: BoxId)
    | Remove(b: BoxId, k: nat)

  function NewWorker(name: Name): Worker
  {
    Worker(name, Box([], 0, true), Waiting, [], [], multiset{})
  }

  function Pushed(w: Worker, t: Item, head: bool): Worker
  {
    w.(box := if head then w.box.PushHead(t) else w.box.PushTail(t),
       accepted := if w.box.running then w.accepted + [t] else w.accepted)
  }

  /** One round of the mailbox loop. An exit mail empties the mailbox and ends the loop. */
  function Popped(w: Worker): Worker
  {
    if w.box.queue == [] then w.(box := w.box.Pop())
    else if w.box.queue[0] == Exit then
      w.(box := w.box.Pop().(running := false).PopAll(), phase := Stopped(w.box.queue[1..]))
    else w.(box := w.box.Pop(), phase := Running, started := w.started + [w.box.queue[0]])
  }

  function Removed(w: Worker, k: nat): Worker
    requires k < |w.box.queue|
  {
    w.(box := w.box.RemoveAt(k), removed := w.removed + multiset{w.box.queue[k]})
  }

  function Close(w: Worker): Worker { w.(box := w.box.StopIfNoMail(Exit)) }

  predicate Closes(w: Worker) { w.box.running && w.box.num == 0 }

  function Put(q: Queues, b: BoxId, w: Worker): Queues { q.(workers := q.workers[b := w]) }

  /** The check looks the queue up by name; it is not told to close its caller's mailbox. */
  function Checked(q: Queues, b: BoxId): Queues
    requires b in q.workers
  {
    var name := q.workers[b].name;
    var p := Put(q, b, q.workers[b].(phase := Waiting));
    if name !in p.queueMap || p.queueMap[name] !in p.workers then p
    else
      var mb := p.queueMap[name];
      var z := Put(p, mb, Close(p.workers[mb]));
      if Closes(p.workers[mb]) then z.(queueMap := z.queueMap - {name}) else z
  }

  function Apply(q: Queues, e: Event): Queues
  {
    match e
    case Get(name) =>
      if name in q.queueMap then q
      else Queues(q.workers[q.next := NewWorker(name)], q.next + 1, q.queueMap[name := q.next])
    case Push(b, t, head) => if b in q.workers then Put(q, b, Pushed(q.workers[b], Task(t), head)) else q
    case Pop(b) =>
      if b in q.workers && q.workers[b].phase == Waiting && q.workers[b].box.num != 0
      then Put(q, b, Popped(q.workers[b])) else q
    case Finish(b) =>
      if b in q.workers && q.workers[b].phase == Running
      then Put(q, b, q.workers[b].(phase := Checking)) else q
    case Check(b) => if b in q.workers && q.workers[b].phase == Checking then Checked(q, b) else q
    case Remove(b, k) =>
      if b in q.workers && k < |q.workers[b].box.queue| && q.workers[b].box.queue[k].Task?
      then Put(q, b, Removed(q.workers[b], k)) else q
  }

  function Run(es: seq<Event>): Queues
  {
    if es == [] then EMPTY else Apply(Run(es[..|es| - 1]), es[|es| - 1])
  }

  predicate Mapped(q: Queues, b: BoxId)
    requires b in q.workers
  {
    q.workers[b].name in q.queueMap && q.queueMap[q.workers[b].name] == b
  }

  /** Every mail a mailbox ever accepted is queued, was started, was removed, or was left behind. */
  ghost predicate Accounted(w: Worker, t: Item)
  {
    multiset(w.accepted)[t] == multiset(w.box.queue)[t] + multiset(w.started)[t] + w.removed[t] +
                     if w.phase.Stopped? then multiset(w.phase.left)[t] else 0
  }

  ghost predicate WorkerOk(w: Worker)
  {
    && w.box.Counted()
    && (w.box.running ==> Exit !in w.box.queue && !w.phase.Stopped?)
    && (!w.box.running ==>
          || (w.phase.Waiting? && w.box.queue != [] && w.box.queue[0] == Exit && Exit !in w.box.queue[1..])
          || (w.phase.Stopped? && w.box.queue == []))
    && (forall t :: t != Exit ==> Accounted(w, t))
  }

  ghost predicate BoxOk(q: Queues, b: BoxId)
    requires b in q.workers
  {
    b < q.next && WorkerOk(q.workers[b]) && (q.workers[b].box.running <==> Mapped(q, b))
  }

  ghost predicate EntryOk(q: Queues, name: Name)
    requires name in q.queueMap
  {
    q.queueMap[name] in q.workers && q.workers[q.queueMap[name]].name == name
  }

  ghost predicate Inv(q: Queues)
  {
    && (forall b :: b in q.workers ==> BoxOk(q, b))
    && (forall name :: name in q.queueMap ==> EntryOk(q, name))
  }

  lemma PushOk(w: Worker, t: nat, head: bool)
    requires WorkerOk(w)
    ensures WorkerOk(Pushed(w, Task(t), head)) && Pushed(w, Task(t), head).box.running == w.box.running
  {
    CounterFollowsAdding(w.box, Task(t));
    forall o | o != Exit ensures Accounted(Pushed(w, Task(t), head), o) {
      assert Accounted(w, o);
    }
  }

  lemma PopOk(w: Worker)
    requires WorkerOk(w) && w.phase == Waiting && w.box.num != 0
    ensures WorkerOk(Popped(w)) && Popped(w).box.running == w.box.running
  {
    CounterFollowsRemoving(w.box, 0);
    assert w.box.queue == [w.box.queue[0]] + w.box.queue[1..];
    forall o | o != Exit ensures Accounted(Popped(w), o) {
      assert Accounted(w, o);
    }
  }

  lemma RemoveOk(w: Worker, k: nat)
    requires WorkerOk(w) && k < |w.box.queue| && w.box.queue[k].Task?
    ensures WorkerOk(Removed(w, k)) && Removed(w, k).box.running == w.box.running
  {
    CounterFollowsRemoving(w.box, k);
    RemovedIsOne(w.box.queue, k);
    forall o | o != Exit ensures Accounted(Removed(w, k), o) {
      assert Accounted(w, o);
    }
  }

  lemma RemovedIsOne(s: seq<Item>, k: nat)
    requires k < |s|
    ensures multiset(s[..k] + s[k + 1..]) == multiset(s) - multiset{s[k]}
  {
    assert s == s[..k] + [s[k]] + s[k + 1..];
  }

  lemma PhaseOk(w: Worker, phase: Phase)
    requires WorkerOk(w) && !phase.Stopped? && w.box.running
    ensures WorkerOk(w.(phase := phase))
  {
    forall o | o != Exit ensures Accounted(w.(phase := phase), o) {
      assert Accounted(w, o);
    }
  }

  lemma CloseOk(w: Worker)
    requires WorkerOk(w) && w.phase == Waiting
    ensures WorkerOk(Close(w)) && Close(w).box.running == (w.box.running && !Closes(w))
  {
    CounterFollowsAdding(w.box, Exit);
    forall o | o != Exit ensures Accounted(Close(w), o) {
      assert Accounted(w, o);
    }
  }

  lemma PutKeeps(q: Queues, b: BoxId, w: Worker)
    requires Inv(q) && b in q.workers && WorkerOk(w)
    requires w.name == q.workers[b].name && w.box.running == q.workers[b].box.running
    ensures Inv(Put(q, b, w))
  {
    var p := Put(q, b, w);
    forall c | c in p.workers ensures BoxOk(p, c) {
      assert BoxOk(q, c);
    }
    forall name | name in p.queueMap ensures EntryOk(p, name) {
      assert EntryOk(q, name);
    }
  }

  lemma GetKeeps(q: Queues, name: Name)
    requires Inv(q)
    ensures Inv(Apply(q, Get(name)))
  {
    var p := Apply(q, Get(name));
    forall c | c in p.workers ensures BoxOk(p, c) {
      assert c in q.workers ==> BoxOk(q, c);
    }
    forall n | n in p.queueMap ensures EntryOk(p, n) {
      assert n in q.queueMap ==> EntryOk(q, n);
      assert n in q.queueMap ==> BoxOk(q, q.queueMap[n]);
    }
  }

  /** The check closes the caller's own mailbox, because a mailbox at work is the mapped one. */
  lemma ChecksItself(q: Queues, b: BoxId)
    requires Inv(q) && b in q.workers && q.workers[b].phase.Checking?
    ensures Mapped(q, b) && q.workers[b].box.running
    ensures Checked(q, b).workers == q.workers[b := Close(q.workers[b].(phase := Waiting))]
    ensures Checked(q, b).queueMap == if Closes(q.workers[b]) then q.queueMap - {q.workers[b].name} else q.queueMap
  {
    assert BoxOk(q, b);
  }

  lemma CheckKeeps(q: Queues, b: BoxId)
    requires Inv(q) && b in q.workers && q.workers[b].phase.Checking?
    ensures Inv(Checked(q, b))
  {
    ChecksItself(q, b);
    assert BoxOk(q, b);
    PhaseOk(q.workers[b], Waiting);
    CloseOk(q.workers[b].(phase := Waiting));
    var p := Checked(q, b);
    forall c | c in p.workers ensures BoxOk(p, c) {
      assert BoxOk(q, c);
    }
    forall n | n in p.queueMap ensures EntryOk(p, n) {
      assert EntryOk(q, n);
    }
  }

  lemma StepKeeps(q: Queues, e: Event)
    requires Inv(q)
    ensures Inv(Apply(q, e))
  {
    match e
    case Get(name) => GetKeeps(q, name);
    case Push(b, t, head) =>
      if b in q.workers {
        assert BoxOk(q, b);
        PushOk(q.workers[b], t, head);
        PutKeeps(q, b, Pushed(q.workers[b], Task(t), head));
      }
    case Pop(b) =>
      if b in q.workers && q.workers[b].phase == Waiting && q.workers[b].box.num != 0 {
        assert BoxOk(q, b);
        PopOk(q.workers[b]);
        PutKeeps(q, b, Popped(q.workers[b]));
      }
    case Finish(b) =>
      if b in q.workers && q.workers[b].phase == Running {
        assert BoxOk(q, b);
        PhaseOk(q.workers[b], Checking);
        PutKeeps(q, b, q.workers[b].(phase := Checking));
      }
    case Check(b) => if b in q.workers && q.workers[b].phase == Checking { CheckKeeps(q, b); }
    case Remove(b, k) =>
      if b in q.workers && k < |q.workers[b].box.queue| && q.workers[b].box.queue[k].Task? {
        assert BoxOk(q, b);
        RemoveOk(q.workers[b], k);
        PutKeeps(q, b, Removed(q.workers[b], k));
      }
  }

  lemma {:induction false} RunKeeps(es: seq<Event>)
    ensures Inv(Run(es))
  {
    if es != [] {
      RunKeeps(es[..|es| - 1]);
      StepKeeps(Run(es[..|es| - 1]), es[|es| - 1]);
    }
  }

  predicate AtWork(q: Queues, b: BoxId)
  {
    b in q.workers && (q.workers[b].phase.Running? || q.workers[b].phase.Checking?)
  }

  /** A mailbox at work is the mapped one of its name and is running, and every entry of the map is
      running under its own name. */
  lemma AtWorkIsMapped(es: seq<Event>)
    ensures var q := Run(es);
            && (forall b :: AtWork(q, b) ==> Mapped(q, b) && q.workers[b].box.running)
            && (forall name :: name in q.queueMap ==>
                  var b := q.queueMap[name];
                  b in q.workers && q.workers[b].name == name && q.workers[b].box.running)
  {
    RunKeeps(es);
    var q := Run(es);
    forall b | AtWork(q, b) ensures Mapped(q, b) && q.workers[b].box.running {
      assert BoxOk(q, b);
    }
    forall name | name in q.queueMap ensures EntryOk(q, name) && q.workers[q.queueMap[name]].box.running {
      assert EntryOk(q, name) && BoxOk(q, q.queueMap[name]);
    }
  }

  /** Tasks of one named queue never overlap, although its mailbox is destroyed and created again. */
  lemma NoOverlap(es: seq<Event>, b: BoxId, c: BoxId)
    requires AtWork(Run(es), b) && AtWork(Run(es), c) && Run(es).workers[b].name == Run(es).workers[c].name
    ensures b == c
  {
    AtWorkIsMapped(es);
    assert Mapped(Run(es), b) && Mapped(Run(es), c);
  }

  /** Exactly when a check closes its queue, and exactly when it leaves mails behind in doing so:
      when their number is a positive multiple of 2^32, which the mail counter reads as none. */
  lemma {:induction false} ClosesExactly(es: seq<Event>, b: BoxId)
    requires b in Run(es).workers && Run(es).workers[b].phase.Checking?
    ensures var w := Run(es).workers[b];
            var z := Apply(Run(es), Check(b)).workers[b];
            && (!z.box.running <==> |w.box.queue| % UINT32 == 0)
            && z.box.queue == if z.box.running then w.box.queue else [Exit] + w.box.queue
  {
    RunKeeps(es);
    ChecksItself(Run(es), b);
    assert BoxOk(Run(es), b);
  }

  ghost predicate Short(q: Queues) { forall b :: b in q.workers ==> |q.workers[b].box.queue| < UINT32 }

  /** Nothing left behind, now or later. */
  ghost predicate Clean(w: Worker)
  {
    && (w.phase.Stopped? ==> w.phase.left == [])
    && (w.phase.Waiting? && !w.box.running ==> w.box.queue == [Exit])
  }

  lemma CheckCleans(q: Queues, c: BoxId, b: BoxId)
    requires Inv(q) && Short(q) && b in q.workers && Clean(q.workers[b])
    requires c in q.workers && q.workers[c].phase.Checking?
    ensures Clean(Checked(q, c).workers[b])
  {
    ChecksItself(q, c);
    assert BoxOk(q, c);
  }

  lemma PopCleans(w: Worker)
    requires WorkerOk(w) && Clean(w) && w.phase == Waiting && w.box.num != 0
    ensures Clean(Popped(w))
  {
  }

  lemma PushCleans(w: Worker, t: Item, head: bool)
    requires WorkerOk(w) && Clean(w)
    ensures Clean(Pushed(w, t, head))
  {
  }

  lemma RemoveCleans(w: Worker, k: nat)
    requires WorkerOk(w) && Clean(w) && k < |w.box.queue| && w.box.queue[k].Task?
    ensures Clean(Removed(w, k))
  {
  }

  lemma WorkCleans(q: Queues, e: Event, b: BoxId)
    requires !e.Check? && b in q.workers && WorkerOk(q.workers[b]) && Clean(q.workers[b])
    ensures b in Apply(q, e).workers ==> Clean(Apply(q, e).workers[b])
  {
    var w := q.workers[b];
    match e
    case Pop(_) => if w.phase == Waiting && w.box.num != 0 { PopCleans(w); }
    case Push(_, t, head) => PushCleans(w, Task(t), head);
    case Remove(_, k) => if k < |w.box.queue| && w.box.queue[k].Task? { RemoveCleans(w, k); }
    case Get(_) =>
    case Finish(_) =>
  }

  lemma StepCleans(q: Queues, e: Event, b: BoxId)
    requires Inv(q) && Short(q) && b in q.workers && Clean(q.workers[b]) && b in Apply(q, e).workers
    ensures Clean(Apply(q, e).workers[b])
  {
    assert BoxOk(q, b);
    if !e.Check? {
      WorkCleans(q, e, b);
    } else if e.b in q.workers && q.workers[e.b].phase == Checking {
      CheckCleans(q, e.b, b);
    }
  }

  lemma RunOk(es: seq<Event>, b: BoxId)
    requires b in Run(es).workers
    ensures BoxOk(Run(es), b)
  {
    RunKeeps(es);
  }

  lemma RunCleans(es: seq<Event>, e: Event, b: BoxId)
    requires Short(Run(es)) && b in Run(es).workers && Clean(Run(es).workers[b]) && b in Apply(Run(es), e).workers
    ensures Clean(Apply(Run(es), e).workers[b])
  {
    RunKeeps(es);
    StepCleans(Run(es), e, b);
  }

  lemma {:induction false} StaysClean(es: seq<Event>, b: BoxId)
    requires forall k :: 0 <= k <= |es| ==> Short(Run(es[..k]))
    requires b in Run(es).workers
    ensures Clean(Run(es).workers[b])
  {
    if es != [] {
      var front := es[..|es| - 1];
      forall k | 0 <= k <= |front| ensures Short(Run(front[..k])) {
        assert front[..k] == es[..k];
      }
      if b in Run(front).workers {
        StaysClean(front, b);
        assert front[..|front|] == front;
        RunCleans(front, es[|es| - 1], b);
      }
    }
  }

  /** As long as no queue reaches 2^32 mails, no task mailbox stops with mails left, and every mail
      accepted by one that stopped was started or removed. */
  lemma {:induction false} StopsWithNothingLeft(es: seq<Event>, b: BoxId)
    requires forall k :: 0 <= k <= |es| ==> Short(Run(es[..k]))
    requires b in Run(es).workers
    ensures Clean(Run(es).workers[b])
    ensures var w := Run(es).workers[b];
            w.phase.Stopped? ==>
              forall t: nat ::
                multiset(w.accepted)[Task(t)] == multiset(w.started)[Task(t)] + w.removed[Task(t)]
  {
    StaysClean(es, b);
    RunOk(es, b);
    var w := Run(es).workers[b];
    if w.phase.Stopped? {
      forall t: nat
        ensures multiset(w.accepted)[Task(t)] == multiset(w.started)[Task(t)] + w.removed[Task(t)]
      {
        assert Accounted(w, Task(t));
      }
    }
  }

  /** One queue, and n mails pushed to it. */
  function Pushes(n: nat): seq<Event>
  {
    if n == 0 then [Get("q")] else Pushes(n - 1) + [Push(0, n, false)]
  }

  ghost predicate Filled(q: Queues, n: nat)
  {
    && q.workers.Keys == {0} && q.queueMap == map["q" := 0]
    && q.workers[0].name == "q" && q.workers[0].phase == Waiting && q.workers[0].box.running
    && |q.workers[0].box.queue| == n
  }

  lemma {:induction false} PushesFill(n: nat)
    ensures Filled(Run(Pushes(n)), n)
  {
    if n == 0 {
      assert [Get("q")][..0] == [];
    } else {
      PushesFill(n - 1);
      assert Pushes(n)[..|Pushes(n)| - 1] == Pushes(n - 1);
    }
  }

  lemma RunMore(es: seq<Event>, e: Event)
    ensures Run(es + [e]) == Apply(Run(es), e)
  {
    assert (es + [e])[..|es|] == es;
  }

  /** A queue of n + 1 mails after its worker took and finished one. */
  lemma OneTaskLater(es: seq<Event>, n: nat) returns (next: seq<Event>)
    requires Filled(Run(es), n + 1) && (n + 1) % UINT32 != 0
    ensures 0 in Run(next).workers && Run(next).workers[0].phase.Checking? && |Run(next).workers[0].box.queue| == n
    ensures es <= next
  {
    RunKeeps(es);
    assert BoxOk(Run(es), 0);
    RunMore(es, Pop(0));
    RunMore(es + [Pop(0)], Finish(0));
    next := es + [Pop(0)] + [Finish(0)];
  }

  lemma CheckedAndGone(es: seq<Event>, n: nat) returns (next: seq<Event>)
    requires 0 in Run(es).workers && Run(es).workers[0].phase.Checking?
    requires |Run(es).workers[0].box.queue| == n && n % UINT32 == 0
    ensures 0 in Run(next).workers && Run(next).workers[0].phase.Stopped? && |Run(next).workers[0].phase.left| == n
  {
    ClosesExactly(es, 0);
    RunKeeps(es);
    ChecksItself(Run(es), 0);
    RunMore(es, Check(0));
    RunMore(es + [Check(0)], Pop(0));
    next := es + [Check(0)] + [Pop(0)];
  }

  /** The bound is needed: a queue flooded with 2^32 + 1 mails stops after its first task and leaves
      2^32 accepted mails behind. */
  lemma FloodedQueueLosesMails()
    ensures exists es ::
              0 in Run(es).workers && Run(es).workers[0].phase.Stopped? && |Run(es).workers[0].phase.left| == UINT32
  {
    PushesFill(UINT32 + 1);
    var es := OneTaskLater(Pushes(UINT32 + 1), UINT32);
    var next := CheckedAndGone(es, UINT32);
  }

  /** The worker of a mailbox finds it empty, by its counter, and closes it. */
  predicate ClosedBy(q: Queues, e: Event, b: BoxId)
  {
    e == Check(b) && b in q.workers && q.workers[b].phase.Checking? && |q.workers[b].box.queue| % UINT32 == 0
  }

  lemma RunsUntilClosed(q: Queues, e: Event, b: BoxId)
    requires Inv(q) && b in q.workers
    ensures b in Apply(q, e).workers
    ensures Apply(q, e).workers[b].box.running <==> q.workers[b].box.running && !ClosedBy(q, e, b)
  {
    assert BoxOk(q, b);
    match e
    case Check(c) =>
      if c in q.workers && q.workers[c].phase.Checking? {
        ChecksItself(q, c);
        assert BoxOk(q, c);
      }
    case Pop(c) => if c == b && q.workers[b].phase == Waiting && q.workers[b].box.num != 0 { PopOk(q.workers[b]); }
    case Get(_) =>
    case Push(_, _, _) =>
    case Finish(_) =>
    case Remove(_, _) =>
  }

  lemma RunUnfolds(es: seq<Event>)
    requires es != []
    ensures Run(es) == Apply(Run(es[..|es| - 1]), es[|es| - 1])
  {
  }

  lemma RunLater(es: seq<Event>, later: seq<Event>)
    requires later != []
    ensures Run(es + later) == Apply(Run(es + later[..|later| - 1]), later[|later| - 1])
  {
    RunUnfolds(es + later);
    assert (es + later)[..|es + later| - 1] == es + later[..|later| - 1];
    assert (es + later)[|es + later| - 1] == later[|later| - 1];
  }

  lemma RunsOn(es: seq<Event>, e: Event, b: BoxId)
    requires b in Run(es).workers
    ensures b in Apply(Run(es), e).workers
    ensures Apply(Run(es), e).workers[b].box.running <==> Run(es).workers[b].box.running && !ClosedBy(Run(es), e, b)
  {
    RunKeeps(es);
    RunsUntilClosed(Run(es), e, b);
  }

  predicate ClosedAt(es: seq<Event>, later: seq<Event>, k: nat, b: BoxId)
    requires k < |later|
  {
    ClosedBy(Run(es + later[..k]), later[k], b)
  }

  /** Not closed in the course of `later`. */
  ghost predicate LeftOpen(es: seq<Event>, later: seq<Event>, b: BoxId)
  {
    forall k :: 0 <= k < |later| ==> !ClosedAt(es, later, k, b)
  }

  lemma ClosedAtPrefix(es: seq<Event>, later: seq<Event>, n: nat, k: nat, b: BoxId)
    requires k < n <= |later|
    ensures ClosedAt(es, later[..n], k, b) == ClosedAt(es, later, k, b)
  {
    assert later[..n][..k] == later[..k];
  }

  lemma LeftOpenSplits(es: seq<Event>, later: seq<Event>, b: BoxId)
    requires later != []
    ensures var n := |later| - 1;
            LeftOpen(es, later, b) <==> LeftOpen(es, later[..n], b) && !ClosedAt(es, later, n, b)
  {
    var n := |later| - 1;
    forall k | 0 <= k < n ensures ClosedAt(es, later[..n], k, b) == ClosedAt(es, later, k, b) {
      ClosedAtPrefix(es, later, n, k, b);
    }
  }

  lemma {:induction false} RunsExactlyUntilClosed(es: seq<Event>, later: seq<Event>, b: BoxId)
    requires b in Run(es).workers && Run(es).workers[b].box.running
    ensures b in Run(es + later).workers
    ensures Run(es + later).workers[b].box.running <==> LeftOpen(es, later, b)
  {
    if later == [] {
      assert es + later == es;
    } else {
      var n := |later| - 1;
      RunsExactlyUntilClosed(es, later[..n], b);
      LeftOpenSplits(es, later, b);
      RunLater(es, later);
      RunsOn(es + later[..n], later[n], b);
    }
  }

  lemma AcceptedIfRunning(q: Queues, b: BoxId, item: nat, head: bool)
    requires b in q.workers
    ensures Apply(q, Push(b, item, head)).workers[b].accepted ==
            if q.workers[b].box.running then q.workers[b].accepted + [Task(item)] else q.workers[b].accepted
    ensures !q.workers[b].box.running ==> Apply(q, Push(b, item, head)) == q
  {
  }

  /** A mailbox handed out by `Get` takes a mail at any later time exactly if its worker has not
      closed it since; a delayed task holds on to the mailbox it was given. */
  lemma {:induction false} PushAcceptedExactly(es: seq<Event>, name: Name, later: seq<Event>, item: nat, head: bool)
    ensures name in Run(es + [Get(name)]).queueMap
    ensures var b, q := Run(es + [Get(name)]).queueMap[name], Run(es + [Get(name)] + later);
            && b in q.workers
            && (Apply(q, Push(b, item, head)).workers[b].accepted == q.workers[b].accepted + [Task(item)] <==>
                LeftOpen(es + [Get(name)], later, b))
  {
    var fs := es + [Get(name)];
    RunMore(es, Get(name));
    AtWorkIsMapped(fs);
    var b := Run(fs).queueMap[name];
    RunsExactlyUntilClosed(fs, later, b);
    AcceptedIfRunning(Run(fs + later), b, item, head);
    assert |Run(fs + later).workers[b].accepted + [Task(item)]| == |Run(fs + later).workers[b].accepted| + 1;
  }

  lemma ClosesEmpty(es: seq<Event>)
    requires 0 in Run(es).workers && Run(es).workers[0].phase.Checking? && Run(es).workers[0].box.queue == []
    ensures 0 in Run(es + [Check(0)]).workers && !Run(es + [Check(0)]).workers[0].box.running
  {
    ClosesExactly(es, 0);
    RunMore(es, Check(0));
    RunKeeps(es);
    ChecksItself(Run(es), 0);
  }

  /** A run that loses a delayed task: its mailbox, the first one, is closed after another task of
      the queue was handled, and refuses it when its time comes, though the queue can be had again. */
  lemma DelayedTaskIsRefused(item: nat, head: bool)
    ensures exists es ::
              && [Get("q")] <= es && Run([Get("q")]).queueMap == map["q" := 0]
              && 0 in Run(es).workers && Apply(Run(es), Push(0, item, head)) == Run(es)
  {
    PushesFill(0);
    PushesFill(1);
    assert Pushes(1) == [Get("q")] + [Push(0, 1, false)] && Pushes(0) == [Get("q")];
    var next := OneTaskLater(Pushes(1), 0);
    ClosesEmpty(next);
    AcceptedIfRunning(Run(next + [Check(0)]), 0, item, head);
    assert [Get("q")] <= next + [Check(0)];
  }

  /** The mailbox that `Get` hands out is the one its queue had, or a new, empty and running one. */
  lemma {:induction false} GetFindsOrMakes(es: seq<Event>, name: Name)
    ensures var q, z := Run(es), Run(es + [Get(name)]);
            && name in z.queueMap && z.queueMap[name] in z.workers
            && z.workers[z.queueMap[name]].name == name && z.workers[z.queueMap[name]].box.running
            && (name in q.queueMap ==> z == q)
            && (name !in q.queueMap ==>
                  && z.queueMap[name] !in q.workers && z.workers[z.queueMap[name]].box.queue == []
                  && z.workers.Keys == q.workers.Keys + {z.queueMap[name]}
                  && z.queueMap.Keys == q.queueMap.Keys + {name}
                  && (forall b :: b in q.workers ==> z.workers[b] == q.workers[b])
                  && (forall n :: n in q.queueMap ==> z.queueMap[n] == q.queueMap[n]))
  {
    AtWorkIsMapped(es + [Get(name)]);
    RunMore(es, Get(name));
    RunKeeps(es);
    assert forall b :: b in Run(es).workers ==> BoxOk(Run(es), b);
  }

  /** A running mailbox queues a mail in front or behind, and a cancel takes out that mail alone. */
  lemma {:induction false} PushAndRemovePlace(es: seq<Event>, b: BoxId, item: nat, head: bool, k: nat)
    requires b in Run(es).workers && Run(es).workers[b].box.running
    ensures var old_ := Run(es).workers[b].box.queue;
            var new_ := Run(es + [Push(b, item, head)]).workers[b].box.queue;
            new_ == if head then [Task(item)] + old_ else old_ + [Task(item)]
    ensures var old_ := Run(es).workers[b].box.queue;
            k < |old_| ==> Run(es + [Remove(b, k)]).workers[b].box.queue == old_[..k] + old_[k + 1..]
  {
    RunMore(es, Push(b, item, head));
    RunMore(es, Remove(b, k));
    RunOk(es, b);
    if k < |Run(es).workers[b].box.queue| {
      assert Run(es).workers[b].box.queue[k] != Exit;
    }
  }

  /** A waiting worker takes the first mail of its queue and is at work on it. */
  lemma {:induction false} FirstTaskStarts(es: seq<Event>, b: BoxId)
    requires b in Run(es).workers
    requires Run(es).workers[b].phase == Waiting && Run(es).workers[b].box.running
    requires Run(es).workers[b].box.queue != [] && |Run(es).workers[b].box.queue| < UINT32
    ensures var w, z := Run(es).workers[b], Run(es + [Pop(b)]).workers[b];
            && z.started == w.started + [w.box.queue[0]] && z.box.queue == w.box.queue[1..]
            && z.accepted == w.accepted && z.phase == Running && z.box.running
  {
    RunMore(es, Pop(b));
    RunOk(es, b);
  }

  /** After a task its worker checks, and goes on if mails are left. */
  lemma {:induction false} CheckGoesOn(es: seq<Event>, b: BoxId)
    requires b in Run(es).workers && Run(es).workers[b].phase == Running
    requires 0 < |Run(es).workers[b].box.queue| < UINT32
    ensures var q, later := Run(es), Run(es + [Finish(b)] + [Check(b)]);
            && b in later.workers && later.queueMap == q.queueMap
            && later.workers == q.workers[b := q.workers[b].(phase := Waiting)]
  {
    RunMore(es, Finish(b));
    RunMore(es + [Finish(b)], Check(b));
    RunKeeps(es + [Finish(b)]);
    ChecksItself(Run(es + [Finish(b)]), b);
    RunOk(es + [Finish(b)], b);
  }

  /** Neither a head push to the mailbox nor a cancel of one of its mails. */
  predicate TailOnly(e: Event, b: BoxId)
  {
    !(e.Push? && e.b == b && e.head) && !(e.Remove? && e.b == b)
  }

  predicate InOrder(w: Worker)
  {
    w.started <= w.accepted && (w.box.running ==> w.accepted == w.started + w.box.queue)
  }

  lemma TailOnlyKeepsOrder(q: Queues, e: Event, b: BoxId)
    requires Inv(q) && TailOnly(e, b)
    requires b in q.workers ==> InOrder(q.workers[b])
    ensures b in Apply(q, e).workers ==> InOrder(Apply(q, e).workers[b])
  {
    if b in q.workers {
      assert BoxOk(q, b);
      match e
      case Check(c) =>
        if c in q.workers && q.workers[c].phase.Checking? {
          ChecksItself(q, c);
        }
      case Pop(c) => if c == b && q.workers[b].phase == Waiting && q.workers[b].box.num != 0 { PopOrder(q.workers[b]); }
      case Get(_) =>
      case Push(_, _, _) =>
      case Finish(_) =>
      case Remove(_, _) =>
    }
  }

  lemma PopOrder(w: Worker)
    requires WorkerOk(w) && InOrder(w) && w.phase == Waiting && w.box.num != 0
    ensures InOrder(Popped(w))
  {
    CounterFollowsRemoving(w.box, 0);
    assert w.box.queue == [w.box.queue[0]] + w.box.queue[1..];
  }

  /** Tasks of one queue start in the order in which its mailbox accepted them, if none was put in
      front and none was cancelled. */
  lemma {:induction false} TasksStartInOrder(es: seq<Event>, b: BoxId)
    requires forall i :: 0 <= i < |es| ==> TailOnly(es[i], b)
    requires b in Run(es).workers
    ensures InOrder(Run(es).workers[b])
  {
    var front := es[..|es| - 1];
    if b in Run(front).workers {
      TasksStartInOrder(front, b);
    }
    RunKeeps(front);
    TailOnlyKeepsOrder(Run(front), es[|es| - 1], b);
  }

  /** The serial queues' part of the manager, over the linked mailboxes. */
  class SerialQueues {
    var queueMap: map<Name, MailBoxes.MailBox>

    ghost function Mails(): (mails: set<MailBoxes.Mail>)
      reads this, set n | n in queueMap :: queueMap[n]
      ensures forall n :: n in queueMap ==> forall m :: m in queueMap[n].spine ==> m in mails
    {
      set n, m | n in queueMap && m in queueMap[n].spine :: m
    }

    ghost predicate Valid()
      reads this, set n | n in queueMap :: queueMap[n]
      reads Mails()
    {
      && (forall n :: n in queueMap ==> queueMap[n].Valid() && queueMap[n].running)
      && (forall n, o :: n in queueMap && o in queueMap && queueMap[n] == queueMap[o] ==> n == o)
    }

    constructor ()
      ensures Valid() && queueMap == map[]
    {
      queueMap := map[];
    }

    method GetTaskSerialMailbox(name: Name) returns (mb: MailBoxes.MailBox)
      requires Valid()
      modifies this
      ensures Valid() && queueMap == old(queueMap)[name := mb]
      ensures if name in old(queueMap) then mb == old(queueMap)[name] else fresh(mb) && mb.Abs() == Box([], 0, true)
    {
      if name in queueMap {
        return queueMap[name];
      }
      mb := new MailBoxes.MailBox();
      var _ := mb.Start();
      queueMap := queueMap[name := mb];
    }

    method CheckCloseTaskSerialMailbox(name: Name) returns (killed: bool)
      requires Valid()
      modifies this, if name in queueMap then {queueMap[name]} else {}
      ensures Valid() && killed == (name in old(queueMap) && old(queueMap[name].num) == 0)
      ensures queueMap == if killed then old(queueMap) - {name} else old(queueMap)
      ensures !killed && name in queueMap ==> queueMap[name].Abs() == old(queueMap[name].Abs())
      ensures killed ==>
                var mb := old(queueMap)[name];
                |mb.spine| > 0 && mb.spine[0].exit && mb.Abs() == old(queueMap[name].Abs()).StopIfNoMail(mb.spine[0])
    {
      if name !in queueMap {
        return false;
      }
      killed := queueMap[name].StopIfNoMail();
      if killed {
        queueMap := queueMap - {name};
      }
    }
  }
}
