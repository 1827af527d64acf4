/** The life of a mailbox from the moment it accepts mail, which is before its start has succeeded:
    any number of senders, removers and one loop. Every event is one locked region; a disabled event
    changes nothing. */
module MailLoop {
  import opened MailSpec

  /** `serial` tells allocations apart; `id` is what removal by id looks at. */
  datatype Letter = Letter(serial: nat, id: nat, exit: bool)

  /** `Starting` while the new goroutine runs the start-up hook, `Failed` if the hook failed. */
  datatype Phase = Starting | Failed | Ready | Holding(letter: Letter) | Refusing(letter: Letter) | Stopped

  /** The four sequences are histories: `stopped` lists what was handed to `mailboxOnStop`. */
  datatype Loop = Loop(box: Box<Letter>, phase: Phase,
                       accepted: seq<Letter>, delivered: seq<Letter>, removed: seq<Letter>, stopped: seq<Letter>)

  datatype Event =
    | PushHead(m: Letter)      // a sender, with a newly allocated mail
    | PushTail(m: Letter)
    | PopById(id: nat)         // a cancelled task
    | RemoveMail(m: Letter)    // a sender whose wait timed out
    | StopIfNoMail(m: Letter)
    | HookReturned(ok: bool)   // the loop from here on
    | WaitPop
    | Receive
    | Refuse
    | Drain

  function Started(): Loop { Loop(Box([], 0, true), Starting, [], [], [], []) }

  function Accept(l: Loop, box: Box<Letter>, m: Letter): Loop
  {
    l.(box := box, accepted := l.accepted + [m])
  }

  function TakeOut(l: Loop, k: nat): Loop
    requires k < |l.box.queue|
  {
    l.(box := l.box.RemoveAt(k), removed := l.removed + [l.box.queue[k]])
  }

  predicate Wanted(e: Event, x: Letter)
  {
    (e.PopById? && x.id == e.id) || (e.RemoveMail? && x == e.m)
  }

  /** The first position holding a letter the removal asks for, or the length. */
  function Find(q: seq<Letter>, e: Event): (k: nat)
    ensures k <= |q| && (k < |q| ==> Wanted(e, q[k])) && forall i :: 0 <= i < k ==> !Wanted(e, q[i])
  {
    if q == [] || Wanted(e, q[0]) then 0 else 1 + Find(q[1..], e)
  }

  function TakeFirst(l: Loop, e: Event): Loop
  {
    var k := Find(l.box.queue, e);
    if k < |l.box.queue| then TakeOut(l, k) else l
  }

  function Apply(l: Loop, e: Event): Loop
  {
    match e
    case PushHead(m) => if l.box.running && m !in l.accepted then Accept(l, l.box.PushHead(m), m) else l
    case PushTail(m) => if l.box.running && m !in l.accepted then Accept(l, l.box.PushTail(m), m) else l
    case PopById(_) => TakeFirst(l, e)
    case RemoveMail(_) => TakeFirst(l, e)
    case StopIfNoMail(m) =>
      if l.box.running && l.box.num == 0 && m.exit && m !in l.accepted then Accept(l, l.box.StopIfNoMail(m), m) else l
    case HookReturned(ok) =>
      if !l.phase.Starting? then l
      else if ok then l.(phase := Ready)
      else l.(box := l.box.(running := false), phase := Failed)
    case WaitPop =>
      if !l.phase.Ready? || l.box.num == 0 then l
      else l.(box := l.box.Pop(), phase := if l.box.queue == [] then Ready else Holding(l.box.queue[0]))
    case Receive =>
      if l.phase.Holding? && !l.phase.letter.exit then
        l.(phase := Ready, delivered := l.delivered + [l.phase.letter])
      else l
    case Refuse =>
      if l.phase.Holding? && l.phase.letter.exit then
        l.(box := l.box.(running := false), phase := Refusing(l.phase.letter))
      else l
    case Drain =>
      if l.phase.Refusing? then
        l.(box := l.box.PopAll(), phase := Stopped, stopped := [l.phase.letter] + l.box.queue)
      else l
  }

  function Run(l: Loop, es: seq<Event>): Loop
  {
    if es == [] then l else Apply(Run(l, es[..|es| - 1]), es[|es| - 1])
  }

  function Hand(p: Phase): seq<Letter>
  {
    if p.Holding? || p.Refusing? then [p.letter] else []
  }

  /** How often `m` is found among the possible fates of a mail. */
  ghost function Fates(l: Loop, m: Letter): nat
  {
    multiset(l.delivered)[m] + multiset(l.removed)[m] + multiset(l.stopped)[m] +
    multiset(l.box.queue)[m] + multiset(Hand(l.phase))[m]
  }

  ghost predicate Conserved(l: Loop)
  {
    forall m :: Fates(l, m) == multiset(l.accepted)[m] <= 1
  }

  ghost predicate Shape(l: Loop)
  {
    && (l.phase.Refusing? || l.phase.Stopped? || l.phase.Failed? ==> !l.box.running)
    && (l.phase.Stopped? ==> l.box.queue == [])
    && (!l.phase.Stopped? ==> l.stopped == [])
  }

  ghost predicate Inv(l: Loop) { Conserved(l) && Shape(l) }

  lemma CountPieces(a: seq<Letter>, b: seq<Letter>, m: Letter)
    ensures multiset(a + b)[m] == multiset(a)[m] + multiset(b)[m]
  {
  }

  lemma CountRemoved(q: seq<Letter>, k: nat, m: Letter)
    requires k < |q|
    ensures multiset(q)[m] == multiset(q[..k] + q[k + 1..])[m] + multiset([q[k]])[m]
  {
    assert q == q[..k] + ([q[k]] + q[k + 1..]);
    CountPieces(q[..k], [q[k]] + q[k + 1..], m);
    CountPieces([q[k]], q[k + 1..], m);
    CountPieces(q[..k], q[k + 1..], m);
  }

  lemma TakeOutMoves(l: Loop, k: nat, m: Letter)
    requires k < |l.box.queue|
    ensures Fates(TakeOut(l, k), m) == Fates(l, m)
  {
    CountRemoved(l.box.queue, k, m);
    CountPieces(l.removed, [l.box.queue[k]], m);
  }

  lemma AcceptKeeps(l: Loop, e: Event)
    requires Conserved(l) && (e.PushHead? || e.PushTail? || e.StopIfNoMail?)
    ensures Conserved(Apply(l, e))
  {
    var r := Apply(l, e);
    if r != l {
      assert multiset(r.box.queue) == multiset(l.box.queue) + multiset{e.m};
      assert multiset(r.accepted) == multiset(l.accepted) + multiset{e.m};
      forall m ensures Fates(r, m) == multiset(r.accepted)[m] <= 1 {
        assert Fates(l, m) == multiset(l.accepted)[m] <= 1;
      }
    }
  }

  lemma TakeFirstKeeps(l: Loop, e: Event)
    requires Conserved(l)
    ensures Conserved(TakeFirst(l, e))
  {
    var k := Find(l.box.queue, e);
    if k < |l.box.queue| {
      var r := TakeOut(l, k);
      forall m ensures Fates(r, m) == multiset(r.accepted)[m] <= 1 {
        assert Fates(l, m) == multiset(l.accepted)[m] <= 1;
        TakeOutMoves(l, k, m);
      }
    }
  }

  lemma CountFront(q: seq<Letter>, m: Letter)
    requires q != []
    ensures multiset(q)[m] == multiset([q[0]])[m] + multiset(q[1..])[m]
  {
    assert q == [q[0]] + q[1..];
  }

  lemma WaitPopTakes(l: Loop)
    requires l.phase.Ready? && l.box.num != 0 && l.box.queue != []
    ensures var z := Apply(l, WaitPop);
            z == l.(box := l.box.Pop(), phase := Holding(l.box.queue[0])) && z.box.queue == l.box.queue[1..]
  {
  }

  lemma WaitPopMoves(l: Loop, m: Letter)
    ensures Fates(Apply(l, WaitPop), m) == Fates(l, m)
  {
    if l.phase.Ready? && l.box.num != 0 && l.box.queue != [] {
      WaitPopTakes(l);
      CountFront(l.box.queue, m);
    } else {
      assert Apply(l, WaitPop).box.queue == l.box.queue;
    }
  }

  lemma ReceiveMoves(l: Loop, m: Letter)
    ensures Fates(Apply(l, Receive), m) == Fates(l, m)
  {
    CountPieces(l.delivered, Hand(l.phase), m);
  }

  lemma DrainMoves(l: Loop, m: Letter)
    requires l.phase.Refusing? ==> l.stopped == []
    ensures Fates(Apply(l, Drain), m) == Fates(l, m)
  {
    CountPieces(Hand(l.phase), l.box.queue, m);
  }

  lemma StateMoves(l: Loop, e: Event, m: Letter)
    requires e.HookReturned? || e.Refuse?
    ensures Fates(Apply(l, e), m) == Fates(l, m)
  {
  }

  predicate IsLoopStep(e: Event) { e.HookReturned? || e.WaitPop? || e.Receive? || e.Refuse? || e.Drain? }

  /** The loop only moves mails between fates. */
  lemma LoopMoves(l: Loop, e: Event, m: Letter)
    requires IsLoopStep(e) && (l.phase.Refusing? ==> l.stopped == [])
    ensures Fates(Apply(l, e), m) == Fates(l, m)
  {
    match e {
      case HookReturned(_) => StateMoves(l, e, m);
      case WaitPop => WaitPopMoves(l, m);
      case Receive => ReceiveMoves(l, m);
      case Refuse => StateMoves(l, e, m);
      case Drain => DrainMoves(l, m);
    }
  }

  lemma LoopAcceptsNothing(l: Loop, e: Event)
    requires IsLoopStep(e)
    ensures Apply(l, e).accepted == l.accepted
  {
  }

  lemma LoopStepKeeps(l: Loop, e: Event)
    requires Conserved(l) && IsLoopStep(e) && (l.phase.Refusing? ==> l.stopped == [])
    ensures Conserved(Apply(l, e))
  {
    var r := Apply(l, e);
    LoopAcceptsNothing(l, e);
    forall m ensures Fates(r, m) == multiset(r.accepted)[m] <= 1 {
      assert Fates(l, m) == multiset(l.accepted)[m] <= 1;
      LoopMoves(l, e, m);
    }
  }

  lemma ShapeKept(l: Loop, e: Event)
    requires Shape(l)
    ensures Shape(Apply(l, e))
  {
  }

  lemma StepKeeps(l: Loop, e: Event)
    requires Inv(l)
    ensures Inv(Apply(l, e))
  {
    ShapeKept(l, e);
    match e
    case PushHead(_) => AcceptKeeps(l, e);
    case PushTail(_) => AcceptKeeps(l, e);
    case StopIfNoMail(_) => AcceptKeeps(l, e);
    case PopById(_) => TakeFirstKeeps(l, e);
    case RemoveMail(_) => TakeFirstKeeps(l, e);
    case _ => LoopStepKeeps(l, e);
  }

  lemma {:induction false} RunKeeps(l: Loop, es: seq<Event>)
    requires Inv(l)
    ensures Inv(Run(l, es))
  {
    if es != [] {
      RunKeeps(l, es[..|es| - 1]);
      StepKeeps(Run(l, es[..|es| - 1]), es[|es| - 1]);
    }
  }

  /** Every accepted mail meets exactly one fate, and a refused one meets none. */
  lemma {:induction false} ExactlyOneFate(es: seq<Event>, m: Letter)
    ensures var l := Run(Started(), es);
            Fates(l, m) == (if m in l.accepted then 1 else 0)
  {
    RunKeeps(Started(), es);
    var l := Run(Started(), es);
    assert Fates(l, m) == multiset(l.accepted)[m] <= 1;
  }

  ghost predicate ExitFirst(l: Loop)
  {
    && (forall m :: m in l.delivered ==> !m.exit)
    && (l.phase.Stopped? <==> l.stopped != [])
    && (l.stopped != [] ==> l.stopped[0].exit)
    && (l.phase.Refusing? ==> l.phase.letter.exit)
  }

  /** Only ordinary mail is delivered; the exit command heads what `mailboxOnStop` receives,
      and only once the loop has stopped is anything handed to it. */
  lemma {:induction false} ExitHeadsTheStop(es: seq<Event>)
    ensures ExitFirst(Run(Started(), es))
  {
    if es != [] {
      ExitHeadsTheStop(es[..|es| - 1]);
    }
  }

  ghost predicate Closed(l: Loop)
  {
    (l.phase.Refusing? || l.phase.Failed? || (l.phase.Stopped? && l.box.queue == [])) && !l.box.running
  }

  /** Once the exit command has been processed, or the start has failed, nothing is accepted or delivered, whatever the
      senders do; once the loop has stopped nothing changes at all. */
  lemma {:induction false} NothingAcceptedAfterExit(l: Loop, es: seq<Event>)
    requires Closed(l)
    ensures var z := Run(l, es);
            Closed(z) && z.accepted == l.accepted && z.delivered == l.delivered && (l.phase.Stopped? ==> z == l)
  {
    if es != [] {
      NothingAcceptedAfterExit(l, es[..|es| - 1]);
    }
  }

  lemma {:induction false} ExitCloses(es: seq<Event>)
    ensures var l := Run(Started(), es);
            l.phase.Refusing? || l.phase.Stopped? || l.phase.Failed? ==> Closed(l)
  {
    RunKeeps(Started(), es);
  }

  /** A mailbox whose start is not over, or failed, has delivered nothing and handed nothing to
      `mailboxOnStop`; what senders put there meanwhile stays until it is removed. */
  lemma {:induction false} UnstartedKeepsItsMail(es: seq<Event>)
    ensures var l := Run(Started(), es);
            l.phase.Starting? || l.phase.Failed? ==>
              l.delivered == [] && l.stopped == [] &&
              forall m :: multiset(l.accepted)[m] == multiset(l.removed)[m] + multiset(l.box.queue)[m]
  {
    NothingOutYet(es);
    RunKeeps(Started(), es);
    var l := Run(Started(), es);
    if l.phase.Starting? || l.phase.Failed? {
      forall m ensures multiset(l.accepted)[m] == multiset(l.removed)[m] + multiset(l.box.queue)[m] {
        assert Fates(l, m) == multiset(l.accepted)[m];
      }
    }
  }

  lemma {:induction false} NothingOutYet(es: seq<Event>)
    ensures var l := Run(Started(), es);
            l.phase.Starting? || l.phase.Failed? ==> l.delivered == [] && l.stopped == []
  {
    if es != [] {
      NothingOutYet(es[..|es| - 1]);
    }
  }

  lemma {:induction false} RemovedStaysRemoved(l: Loop, es: seq<Event>)
    ensures l.removed <= Run(l, es).removed
  {
    if es != [] {
      RemovedStaysRemoved(l, es[..|es| - 1]);
    }
  }

  /** A sender whose wait timed out is told "rejected" exactly when the removal found its mail;
      then no later step delivers it or hands it to `mailboxOnStop`. */
  lemma RejectedIsNeverDelivered(l: Loop, m: Letter, later: seq<Event>)
    requires Inv(l)
    ensures var r := Apply(l, RemoveMail(m));
            && (m in l.box.queue <==> r != l)
            && (r != l ==> r.removed == l.removed + [m] &&
                           m !in Run(r, later).delivered && m !in Run(r, later).stopped &&
                           m !in Run(r, later).box.queue)
  {
    var r := Apply(l, RemoveMail(m));
    if m in l.box.queue {
      assert r.removed == l.removed + [m];
      StepKeeps(l, RemoveMail(m));
      RunKeeps(r, later);
      RemovedStaysRemoved(r, later);
      var z := Run(r, later);
      assert m == z.removed[|r.removed| - 1];
      assert Fates(z, m) <= 1;
    }
  }

  /** What removal by an id takes: the first queued mail with the id, of whatever kind. Every mail
      that is not a task's has the default id 0, and 0 is what a refused `Add` answers, so a cancel
      of 0 takes the first such mail out, be it a call or the exit command, exactly if there is one. */
  lemma RemovalTakesFirst(l: Loop, id: nat)
    ensures var r := Apply(l, PopById(id));
            && (r != l <==> exists i :: 0 <= i < |l.box.queue| && l.box.queue[i].id == id)
            && (r != l ==> exists k: nat :: k < |l.box.queue| && l.box.queue[k].id == id && r == TakeOut(l, k) &&
                                            forall i :: 0 <= i < k ==> l.box.queue[i].id != id)
  {
    var k := Find(l.box.queue, PopById(id));
    if k < |l.box.queue| {
      assert |TakeOut(l, k).removed| == |l.removed| + 1;
      forall i | 0 <= i < k ensures l.box.queue[i].id != id {
        assert !Wanted(PopById(id), l.box.queue[i]);
      }
    } else {
      forall i | 0 <= i < |l.box.queue| ensures l.box.queue[i].id != id {
        assert !Wanted(PopById(id), l.box.queue[i]);
      }
    }
  }

  /** A run in which a cancel of 0 takes the exit command away: the atom does not stop. */
  lemma ExitCanBeTaken()
    ensures var exit := Letter(0, 0, true);
            var l := Run(Started(), [HookReturned(true), PushTail(exit), PopById(0)]);
            l.phase.Ready? && l.box.running && l.box.queue == [] && l.removed == [exit]
  {
    var exit := Letter(0, 0, true);
    RunOne(Started(), [], HookReturned(true));
    RunOne(Started(), [HookReturned(true)], PushTail(exit));
    RunOne(Started(), [HookReturned(true), PushTail(exit)], PopById(0));
    assert [] + [HookReturned(true)] == [HookReturned(true)];
    assert [HookReturned(true)] + [PushTail(exit)] == [HookReturned(true), PushTail(exit)];
    assert [HookReturned(true), PushTail(exit)] + [PopById(0)] == [HookReturned(true), PushTail(exit), PopById(0)];
    assert Run(Started(), [HookReturned(true), PushTail(exit)])
        == Loop(Box([exit], 1, true), Ready, [exit], [], [], []);
  }

  lemma RunOne(l: Loop, es: seq<Event>, e: Event)
    ensures Run(l, es + [e]) == Apply(Run(l, es), e)
  {
    assert (es + [e])[..|es|] == es;
  }

  lemma CountedStep(l: Loop, e: Event)
    requires l.box.Counted()
    ensures Apply(l, e).box.Counted()
  {
    if e.PushHead? || e.PushTail? || e.StopIfNoMail? {
      CounterFollowsAdding(l.box, e.m);
    } else {
      CounterFollowsRemoving(l.box, Find(l.box.queue, e));
    }
  }

  lemma {:induction false} CountedRun(es: seq<Event>)
    ensures Run(Started(), es).box.Counted()
  {
    if es != [] {
      CountedRun(es[..|es| - 1]);
      CountedStep(Run(Started(), es[..|es| - 1]), es[|es| - 1]);
    }
  }

  /** A mail is taken in exactly if the mailbox is running, in front of the others or behind them. */
  lemma {:induction false} PushIsAcceptedExactly(es: seq<Event>, m: Letter)
    requires m !in Run(Started(), es).accepted
    ensures var l := Run(Started(), es);
            var h, t := Run(Started(), es + [PushHead(m)]), Run(Started(), es + [PushTail(m)]);
            if l.box.running then
              && h.accepted == t.accepted == l.accepted + [m] && h.phase == t.phase == l.phase
              && h.box.queue == [m] + l.box.queue && t.box.queue == l.box.queue + [m]
            else h == t == l
  {
    RunOne(Started(), es, PushHead(m));
    RunOne(Started(), es, PushTail(m));
  }

  /** A start-up hook that succeeds sets the loop going. */
  lemma {:induction false} StartSucceeds(es: seq<Event>)
    requires Run(Started(), es).phase.Starting?
    ensures Run(Started(), es + [HookReturned(true)]) == Run(Started(), es).(phase := Ready)
  {
    RunOne(Started(), es, HookReturned(true));
  }

  /** A waiting loop takes the first mail exactly if the length of the queue is no multiple of 2^32,
      delivers it if it is an ordinary one, and goes on with the rest. */
  lemma {:induction false} FirstMailIsDelivered(es: seq<Event>)
    requires Run(Started(), es).phase.Ready? && Run(Started(), es).box.queue != []
    requires !Run(Started(), es).box.queue[0].exit
    ensures var l := Run(Started(), es);
            var y, z := Run(Started(), es + [WaitPop]), Run(Started(), es + [WaitPop] + [Receive]);
            if |l.box.queue| % UINT32 == 0 then y == l && z == l
            else
              && y.phase == Holding(l.box.queue[0]) && y.box.queue == l.box.queue[1..]
              && z.delivered == l.delivered + [l.box.queue[0]] && z.box.queue == l.box.queue[1..]
              && z.phase.Ready? && z.box.running == l.box.running
  {
    CountedRun(es);
    RunOne(Started(), es, WaitPop);
    RunOne(Started(), es + [WaitPop], Receive);
    if Run(Started(), es).box.num != 0 {
      WaitPopTakes(Run(Started(), es));
    }
  }

  /** An exit command that is taken stops the mailbox, and all that is left goes to the stop hook. */
  lemma {:induction false} ExitStopsMailbox(es: seq<Event>)
    requires Run(Started(), es).phase.Ready? && Run(Started(), es).box.queue != []
    requires Run(Started(), es).box.queue[0].exit && |Run(Started(), es).box.queue| % UINT32 != 0
    ensures var l, z := Run(Started(), es), Run(Started(), es + [WaitPop] + [Refuse] + [Drain]);
            && z.phase.Stopped? && !z.box.running && z.box.queue == [] && z.delivered == l.delivered
            && z.stopped == l.box.queue
  {
    CountedRun(es);
    RunKeeps(Started(), es);
    var l := Run(Started(), es);
    RunOne(Started(), es, WaitPop);
    WaitPopTakes(l);
    RunOne(Started(), es + [WaitPop], Refuse);
    RunOne(Started(), es + [WaitPop] + [Refuse], Drain);
    assert [l.box.queue[0]] + l.box.queue[1..] == l.box.queue;
  }

  /** `stopIfNoMail` stops a running mailbox exactly if the length of its queue is a multiple of 2^32,
      and then the exit command is the next mail. */
  lemma {:induction false} StopsIfNoMailExactly(es: seq<Event>, m: Letter)
    requires m !in Run(Started(), es).accepted && m.exit
    ensures var l, z := Run(Started(), es), Run(Started(), es + [StopIfNoMail(m)]);
            if l.box.running && |l.box.queue| % UINT32 == 0 then
              !z.box.running && z.box.queue == [m] + l.box.queue && z.accepted == l.accepted + [m] && z.phase == l.phase
            else z == l
  {
    CountedRun(es);
    RunOne(Started(), es, StopIfNoMail(m));
  }

  /** All mails that were neither refused nor removed, in the order in which the loop has dealt with
      them or will, as far as it is settled. */
  ghost function Line(l: Loop): seq<Letter> { l.delivered + Hand(l.phase) + l.stopped + l.box.queue }

  ghost predicate Before(s: seq<Letter>, a: Letter, b: Letter)
  {
    exists i, j :: 0 <= i < j < |s| && s[i] == a && s[j] == b
  }

  lemma BeforeInserted(p: seq<Letter>, m: Letter, q: seq<Letter>, a: Letter, b: Letter)
    requires Before(p + q, a, b)
    ensures Before(p + [m] + q, a, b)
  {
    var s, z := p + q, p + [m] + q;
    var i, j :| 0 <= i < j < |s| && s[i] == a && s[j] == b;
    var i', j' := if i < |p| then i else i + 1, if j < |p| then j else j + 1;
    assert z[i'] == a && z[j'] == b;
  }

  lemma BeforeWithout(p: seq<Letter>, m: Letter, q: seq<Letter>, a: Letter, b: Letter)
    requires Before(p + [m] + q, a, b) && m != a && m != b
    ensures Before(p + q, a, b)
  {
    var s, z := p + [m] + q, p + q;
    var i, j :| 0 <= i < j < |s| && s[i] == a && s[j] == b;
    var i', j' := if i < |p| then i else i - 1, if j < |p| then j else j - 1;
    assert z[i'] == a && z[j'] == b;
  }

  lemma LineAfterPush(l: Loop, e: Event)
    requires e.PushHead? || e.PushTail? || e.StopIfNoMail?
    ensures var n := |l.delivered + Hand(l.phase) + l.stopped|;
            || Line(Apply(l, e)) == Line(l)
            || Line(Apply(l, e)) == Line(l)[..n] + [e.m] + Line(l)[n..]
            || Line(Apply(l, e)) == Line(l) + [e.m] + []
  {
    var n := |l.delivered + Hand(l.phase) + l.stopped|;
    assert Line(l)[..n] == l.delivered + Hand(l.phase) + l.stopped && Line(l)[n..] == l.box.queue;
  }

  lemma LineAfterRemoval(l: Loop, k: nat)
    requires k < |l.box.queue|
    ensures var n := |l.delivered + Hand(l.phase) + l.stopped| + k;
            && n < |Line(l)| && Line(l)[n] == l.box.queue[k]
            && Line(TakeOut(l, k)) == Line(l)[..n] + Line(l)[n + 1..]
  {
    var p := l.delivered + Hand(l.phase) + l.stopped;
    assert Line(l)[..|p| + k] == p + l.box.queue[..k] && Line(l)[|p| + k + 1..] == l.box.queue[k + 1..];
  }

  lemma LineInLoop(l: Loop, e: Event)
    requires IsLoopStep(e) && Shape(l)
    ensures Line(Apply(l, e)) == Line(l)
  {
    match e
    case WaitPop => if l.box.queue != [] { assert l.box.queue == [l.box.queue[0]] + l.box.queue[1..]; }
    case HookReturned(_) =>
    case Receive =>
    case Refuse =>
    case Drain =>
  }

  lemma OrderAtPush(l: Loop, e: Event, a: Letter, b: Letter)
    requires (e.PushHead? || e.PushTail? || e.StopIfNoMail?) && Before(Line(l), a, b)
    ensures Before(Line(Apply(l, e)), a, b)
  {
    var s, n := Line(l), |l.delivered + Hand(l.phase) + l.stopped|;
    LineAfterPush(l, e);
    assert s == s[..n] + s[n..] && s == s + [];
    BeforeInserted(s[..n], e.m, s[n..], a, b);
    BeforeInserted(s, e.m, [], a, b);
  }

  lemma OrderAtRemoval(l: Loop, k: nat, a: Letter, b: Letter)
    requires k < |l.box.queue| && Before(Line(l), a, b)
    ensures var r := TakeOut(l, k); Before(Line(r), a, b) || a in r.removed || b in r.removed
  {
    var s, n := Line(l), |l.delivered + Hand(l.phase) + l.stopped| + k;
    LineAfterRemoval(l, k);
    var r := TakeOut(l, k).removed;
    assert r[|r| - 1] == l.box.queue[k];
    if l.box.queue[k] != a && l.box.queue[k] != b {
      assert s == s[..n] + [s[n]] + s[n + 1..];
      BeforeWithout(s[..n], s[n], s[n + 1..], a, b);
    }
  }

  lemma OrderStep(l: Loop, e: Event, a: Letter, b: Letter)
    requires Shape(l) && Before(Line(l), a, b)
    ensures Before(Line(Apply(l, e)), a, b) || a in Apply(l, e).removed || b in Apply(l, e).removed
  {
    if e.PushHead? || e.PushTail? || e.StopIfNoMail? {
      OrderAtPush(l, e, a, b);
    } else if e.PopById? || e.RemoveMail? {
      if Find(l.box.queue, e) < |l.box.queue| {
        OrderAtRemoval(l, Find(l.box.queue, e), a, b);
      }
    } else {
      LineInLoop(l, e);
    }
  }

  /** The order of two mails, once settled, stays as it is until one of them is removed. */
  lemma {:induction false} OrderIsKept(l: Loop, later: seq<Event>, a: Letter, b: Letter)
    requires Inv(l) && Before(Line(l), a, b)
    ensures var z := Run(l, later);
            Before(Line(z), a, b) || a in z.removed || b in z.removed
  {
    if later != [] {
      var front, e := later[..|later| - 1], later[|later| - 1];
      OrderIsKept(l, front, a, b);
      RunKeeps(l, front);
      RemovedStep(Run(l, front), e);
      if Before(Line(Run(l, front)), a, b) {
        OrderStep(Run(l, front), e, a, b);
      }
    }
  }

  lemma RemovedStep(l: Loop, e: Event)
    ensures l.removed <= Apply(l, e).removed
  {
  }

  lemma DeliveredBefore(l: Loop, a: Letter, b: Letter)
    requires Inv(l) && Before(Line(l), a, b) && b in l.delivered
    ensures Before(l.delivered, a, b)
  {
    var s := Line(l);
    var i, j :| 0 <= i < j < |s| && s[i] == a && s[j] == b;
    var d :| 0 <= d < |l.delivered| && l.delivered[d] == b;
    assert s[d] == b;
    OnlyOnce(l, b);
    if d != j {
      TwiceCounted(s, if d < j then d else j, if d < j then j else d);
    }
    assert l.delivered[i] == a;
  }

  lemma OnlyOnce(l: Loop, m: Letter)
    requires Inv(l)
    ensures multiset(Line(l))[m] <= 1
  {
    assert Fates(l, m) <= 1;
    CountPieces(l.delivered + Hand(l.phase) + l.stopped, l.box.queue, m);
    CountPieces(l.delivered + Hand(l.phase), l.stopped, m);
    CountPieces(l.delivered, Hand(l.phase), m);
  }

  lemma TwiceCounted(s: seq<Letter>, i: nat, j: nat)
    requires i < j < |s| && s[i] == s[j]
    ensures multiset(s)[s[i]] >= 2
  {
    assert s == s[..j] + s[j..];
    CountPieces(s[..j], s[j..], s[i]);
    assert s[..j][i] == s[i] && s[j..][0] == s[i];
  }

  /** `a` goes before `b`, and is delivered before it, unless one of them was removed. */
  ghost predicate Ordered(l: Loop, a: Letter, b: Letter)
  {
    || a in l.removed || b in l.removed
    || (Before(Line(l), a, b) && (b in l.delivered ==> Before(l.delivered, a, b)))
  }

  /** A mail pushed to the head overtakes all that are queued, and one pushed to the tail overtakes
      none: in every extension, as long as neither is removed, a queued mail is delivered only after
      the first, and the second only after it. */
  lemma {:induction false} HeadOvertakesTailDoesNot(es: seq<Event>, m: Letter, x: Letter, later: seq<Event>)
    requires var l := Run(Started(), es); l.box.running && m !in l.accepted && x in l.box.queue
    ensures Ordered(Run(Run(Started(), es + [PushHead(m)]), later), m, x)
    ensures Ordered(Run(Run(Started(), es + [PushTail(m)]), later), x, m)
  {
    RunKeeps(Started(), es + [PushHead(m)]);
    RunKeeps(Started(), es + [PushTail(m)]);
    PushIsAcceptedExactly(es, m);
    var h, t := Run(Started(), es + [PushHead(m)]), Run(Started(), es + [PushTail(m)]);
    SettlesBefore(h, m, x);
    SettlesBefore(t, x, m);
    StaysBefore(h, later, m, x);
    StaysBefore(t, later, x, m);
  }

  lemma SettlesBefore(l: Loop, a: Letter, b: Letter)
    requires Before(l.box.queue, a, b)
          || (l.box.queue != [] && a == l.box.queue[0] && b in l.box.queue[1..])
          || (l.box.queue != [] && b == l.box.queue[|l.box.queue| - 1] && a in l.box.queue[..|l.box.queue| - 1])
    ensures Before(Line(l), a, b)
  {
    var q, n := l.box.queue, |l.delivered + Hand(l.phase) + l.stopped|;
    var i, j: int;
    if a == q[0] && b in q[1..] {
      j :| 0 <= j < |q| - 1 && q[1..][j] == b;
      i, j := 0, j + 1;
    } else if b == q[|q| - 1] && a in q[..|q| - 1] {
      i :| 0 <= i < |q| - 1 && q[..|q| - 1][i] == a;
      j := |q| - 1;
    } else {
      i, j :| 0 <= i < j < |q| && q[i] == a && q[j] == b;
    }
    assert Line(l)[n + i] == a && Line(l)[n + j] == b;
  }

  lemma {:induction false} StaysBefore(l: Loop, later: seq<Event>, a: Letter, b: Letter)
    requires Inv(l) && Before(Line(l), a, b)
    ensures Ordered(Run(l, later), a, b)
  {
    OrderIsKept(l, later, a, b);
    RunKeeps(l, later);
    if Before(Line(Run(l, later)), a, b) && b in Run(l, later).delivered {
      DeliveredBefore(Run(l, later), a, b);
    }
  }

  /** No head push, no removal: what plain queueing of mails amounts to. */
  predicate TailOnly(e: Event)
  {
    !e.PushHead? && !e.PopById? && !e.RemoveMail? && !e.StopIfNoMail?
  }

  /** What has been taken off the queue and what is still on it spell out the accepted list. */
  ghost predicate InOrder(l: Loop)
  {
    l.accepted == l.delivered + Hand(l.phase) + l.stopped + l.box.queue
  }

  lemma TailOnlyKeepsOrder(l: Loop, e: Event)
    requires InOrder(l) && TailOnly(e) && (!l.phase.Stopped? ==> l.stopped == [])
    ensures InOrder(Apply(l, e))
  {
    match e
    case PushTail(m) =>
    case HookReturned(_) =>
    case WaitPop =>
      if l.box.queue != [] {
        assert l.box.queue == [l.box.queue[0]] + l.box.queue[1..];
      }
    case Receive =>
    case Refuse =>
    case Drain =>
  }

  /** With tail pushes only, mails are delivered in the order in which they were accepted. */
  lemma {:induction false} DeliveredIsPrefixOfAccepted(es: seq<Event>)
    requires forall e :: e in es ==> TailOnly(e)
    ensures InOrder(Run(Started(), es))
    ensures Run(Started(), es).delivered <= Run(Started(), es).accepted
  {
    if es != [] {
      var front := es[..|es| - 1];
      DeliveredIsPrefixOfAccepted(front);
      RunKeeps(Started(), front);
      TailOnlyKeepsOrder(Run(Started(), front), es[|es| - 1]);
    }
  }
}
