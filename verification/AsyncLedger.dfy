/** The ledger of pending asynchronous callbacks of one instance. */
module AsyncLedger {
  type Id = nat  // an async callback id; 0 is none
  type Callback = nat

  /** How a callback ends. */
  datatype Ending = Reply | CancelledByHalt

  /** `base` is the counter the instance began with. A callback claimed under the mutex is invoked
      after it; `claimed` lists the claims still to be carried out and `invoked` those that were.
      The id of a late registration is 0. */
  datatype Ledger = Ledger(counter: nat, pending: map<Id, Callback>, cleared: bool,
                           base: nat, replied: set<Id>, cancelled: set<Id>,
                           claimed: set<Id>, invoked: map<Id, Ending>,
                           late: seq<Callback>, sent: set<Id>)

  function New(base: nat): Ledger { Ledger(base, map[], false, base, {}, {}, {}, map[], [], {}) }

  datatype Event =
    | Set(cb: Callback)  // asyncSet on behalf of a message about to be pushed
    | Send(id: Id)       // the push, which follows only a non-zero id
    | Pop(id: Id)        // a reply
    | CancelAll          // the halt
    | Invoke(id: Id)     // a claimed callback is run

  /** The id `asyncSet` answers. */
  function SetId(l: Ledger): Id { if l.cleared then 0 else l.counter + 1 }

  function Apply(l: Ledger, e: Event): Ledger
  {
    match e
    case Set(cb) =>
      if l.cleared then l.(late := l.late + [cb])
      else l.(counter := l.counter + 1, pending := l.pending[l.counter + 1 := cb])
    case Send(id) => if l.base < id <= l.counter then l.(sent := l.sent + {id}) else l
    case Pop(id) =>
      if id in l.pending then
        l.(pending := l.pending - {id}, replied := l.replied + {id}, claimed := l.claimed + {id})
      else l
    case CancelAll =>
      l.(cleared := true, pending := map[],
         cancelled := l.cancelled + l.pending.Keys, claimed := l.claimed + l.pending.Keys)
    case Invoke(id) =>
      if id in l.claimed then
        l.(claimed := l.claimed - {id}, invoked := l.invoked[id := if id in l.replied then Reply else CancelledByHalt])
      else l
  }

  function Run(l: Ledger, es: seq<Event>): Ledger
  {
    if es == [] then l else Apply(Run(l, es[..|es| - 1]), es[|es| - 1])
  }

  ghost predicate Inv(l: Ledger)
  {
    && l.base <= l.counter
    // every id ever registered is pending, replied or cancelled, and only one of them
    && (forall id :: l.base < id <= l.counter <==> id in l.pending || id in l.replied || id in l.cancelled)
    && l.pending.Keys !! l.replied && l.pending.Keys !! l.cancelled && l.replied !! l.cancelled
    // what is settled is claimed or already invoked, not both
    && l.claimed + l.invoked.Keys == l.replied + l.cancelled
    && l.claimed !! l.invoked.Keys
    && (forall id :: id in l.invoked ==> l.invoked[id] == if id in l.replied then Reply else CancelledByHalt)
    && (l.cleared ==> l.pending == map[])
    && (!l.cleared ==> l.late == [] && l.cancelled == {})
    && (forall id :: id in l.sent ==> l.base < id <= l.counter)
  }

  lemma StepKeeps(l: Ledger, e: Event)
    requires Inv(l)
    ensures Inv(Apply(l, e))
  {
  }

  lemma {:induction false} RunKeeps(l: Ledger, es: seq<Event>)
    requires Inv(l)
    ensures Inv(Run(l, es))
  {
    if es != [] {
      RunKeeps(l, es[..|es| - 1]);
      StepKeeps(Run(l, es[..|es| - 1]), es[|es| - 1]);
    }
  }

  ghost function Range(lo: nat, hi: nat): (r: set<Id>)
    ensures forall id :: id in r <==> lo < id <= hi
    ensures lo <= hi ==> |r| == hi - lo
    decreases hi - lo
  {
    if lo >= hi then {} else Range(lo, hi - 1) + {hi}
  }

  ghost function Registered(l: Ledger): set<Id> { Range(l.base, l.counter) }

  /** At all times registered = pending + replied + cancelled, as sets and in number. */
  lemma {:induction false} RegisteredIsConserved(base: nat, es: seq<Event>)
    ensures var l := Run(New(base), es);
            && l.base == base
            && Registered(l) == l.pending.Keys + l.replied + l.cancelled
            && l.counter - base == |l.pending| + |l.replied| + |l.cancelled|
  {
    RunKeeps(New(base), es);
    BaseStays(New(base), es);
    RegisteredIsUnion(Run(New(base), es));
    SizesAdd(Run(New(base), es));
  }

  lemma RegisteredIsUnion(l: Ledger)
    requires Inv(l)
    ensures Registered(l) == l.pending.Keys + l.replied + l.cancelled
  {
    forall id ensures id in Registered(l) <==> id in l.pending.Keys + l.replied + l.cancelled {}
  }

  lemma SizesAdd(l: Ledger)
    requires Inv(l)
    ensures l.counter - l.base == |l.pending| + |l.replied| + |l.cancelled|
  {
    RegisteredIsUnion(l);
    DisjointSizes(l.pending.Keys, l.replied, l.cancelled);
    assert |Registered(l)| == |l.pending.Keys| + |l.replied| + |l.cancelled|;
  }

  lemma DisjointSizes(a: set<Id>, b: set<Id>, c: set<Id>)
    requires a !! b && a !! c && b !! c
    ensures |a + b + c| == |a| + |b| + |c|
  {
    assert (a + b) !! c;
  }

  lemma {:induction false} BaseStays(l: Ledger, es: seq<Event>)
    ensures Run(l, es).base == l.base
  {
    if es != [] {
      BaseStays(l, es[..|es| - 1]);
    }
  }

  /** Invoked, and beyond claiming again. */
  ghost predicate Finished(l: Ledger, id: Id)
  {
    id in l.invoked && id !in l.claimed && id !in l.pending && id <= l.counter
  }

  /** An invocation uses up the claim of its id for good, so no callback is invoked twice. */
  lemma {:induction false} InvokedAtMostOnce(l: Ledger, id: Id, later: seq<Event>)
    requires Inv(l) && id in l.invoked
    ensures var z := Run(l, later);
            Finished(z, id) && z.invoked[id] == l.invoked[id] && Apply(z, Invoke(id)) == z
  {
    if later == [] {
      assert id in l.replied + l.cancelled;
    } else {
      InvokedAtMostOnce(l, id, later[..|later| - 1]);
    }
  }

  ghost predicate Closed(l: Ledger, z: Ledger)
  {
    && z.cleared && z.pending == map[] && z.base == l.base && z.counter == l.counter
    && z.cancelled == l.cancelled && z.replied == l.replied
  }

  /** From the clearing on nothing is pending ever again, no id is handed out, and what registers is
      terminated on the spot and never sent. */
  lemma {:induction false} ClearedForGood(l: Ledger, later: seq<Event>)
    requires Inv(l) && l.cleared
    ensures var z := Run(l, later);
            Closed(l, z) && SetId(z) == 0 && z.sent <= l.replied + l.cancelled
    ensures forall cb :: Apply(Run(l, later), Set(cb)) == Run(l, later).(late := Run(l, later).late + [cb])
  {
    if later != [] {
      ClearedForGood(l, later[..|later| - 1]);
    }
  }

  lemma RunMore(l: Ledger, es: seq<Event>, e: Event)
    ensures Run(l, es + [e]) == Apply(Run(l, es), e)
  {
    assert (es + [e])[..|es|] == es && (es + [e])[|es|] == e;
  }

  /** A registration while the ledger is open pends under the next id, and may be sent. */
  lemma {:induction false} RegistrationPends(base: nat, es: seq<Event>, cb: Callback)
    requires !Run(New(base), es).cleared
    ensures var l, z := Run(New(base), es), Run(New(base), es + [Set(cb)]);
            && SetId(l) == l.counter + 1 && SetId(l) != 0 && SetId(l) !in l.pending
            && z.pending == l.pending[SetId(l) := cb] && z.counter == SetId(l)
            && SetId(l) in Run(New(base), es + [Set(cb)] + [Send(SetId(l))]).sent
  {
    RunKeeps(New(base), es);
    BaseStays(New(base), es);
    RunMore(New(base), es, Set(cb));
    RunMore(New(base), es + [Set(cb)], Send(SetId(Run(New(base), es))));
  }

  /** Settled by a reply, or by the halt. */
  predicate Settled(l: Ledger, id: Id, how: Ending)
  {
    && id !in l.pending && (id in l.replied <==> how == Reply) && (id in l.cancelled <==> how == CancelledByHalt)
    && (id in l.claimed || (id in l.invoked && l.invoked[id] == how))
  }

  lemma SettledStep(l: Ledger, id: Id, how: Ending, e: Event)
    requires Inv(l) && Settled(l, id, how)
    ensures Settled(Apply(l, e), id, how)
  {
  }

  lemma {:induction false} SettledStays(l: Ledger, id: Id, how: Ending, later: seq<Event>)
    requires Inv(l) && Settled(l, id, how)
    ensures Settled(Run(l, later), id, how)
  {
    if later != [] {
      SettledStays(l, id, how, later[..|later| - 1]);
      RunKeeps(l, later[..|later| - 1]);
      SettledStep(Run(l, later[..|later| - 1]), id, how, later[|later| - 1]);
    }
  }

  lemma {:induction false} RunOn(l: Ledger, es: seq<Event>, later: seq<Event>)
    ensures Run(l, es + later) == Run(Run(l, es), later)
  {
    if later == [] {
      assert es + later == es;
    } else {
      RunOn(l, es, later[..|later| - 1]);
      assert es + later == es + later[..|later| - 1] + [later[|later| - 1]];
      RunMore(l, es + later[..|later| - 1], later[|later| - 1]);
    }
  }

  /** A reply takes its callback off the map for good: in no extension is it pending, or cancelled by
      the halt; and once invoked it has ended as a reply. */
  lemma {:induction false} ReplyTakesCallback(base: nat, es: seq<Event>, id: Id, later: seq<Event>)
    requires id in Run(New(base), es).pending
    ensures var z := Run(New(base), es + [Pop(id)]);
            && z.pending == Run(New(base), es).pending - {id} && id in z.replied && id in z.claimed
    ensures var z := Run(New(base), es + [Pop(id)] + later);
            && id !in z.pending && id in z.replied && id !in z.cancelled
            && (var y := Run(New(base), es + [Pop(id)] + later + [Invoke(id)]);
                id in y.invoked && y.invoked[id] == Reply)
  {
    SettledThenInvoked(base, es, id, Pop(id), Reply, later);
    RunMore(New(base), es, Pop(id));
  }

  /** And the halt, likewise, for every callback that is pending then. */
  lemma {:induction false} HaltTakesCallback(base: nat, es: seq<Event>, id: Id, later: seq<Event>)
    requires id in Run(New(base), es).pending
    ensures var z := Run(New(base), es + [CancelAll]);
            && z.cleared && z.pending == map[] && id in z.cancelled && id in z.claimed
    ensures var z := Run(New(base), es + [CancelAll] + later);
            && id !in z.pending && id in z.cancelled && id !in z.replied
            && (var y := Run(New(base), es + [CancelAll] + later + [Invoke(id)]);
                id in y.invoked && y.invoked[id] == CancelledByHalt)
  {
    SettledThenInvoked(base, es, id, CancelAll, CancelledByHalt, later);
    RunMore(New(base), es, CancelAll);
  }

  lemma SettledThenInvoked(base: nat, es: seq<Event>, id: Id, e: Event, how: Ending, later: seq<Event>)
    requires id in Run(New(base), es).pending
    requires (e == Pop(id) && how == Reply) || (e == CancelAll && how == CancelledByHalt)
    ensures Settled(Run(New(base), es + [e]), id, how) && Settled(Run(New(base), es + [e] + later), id, how)
    ensures var y := Run(New(base), es + [e] + later + [Invoke(id)]);
            id in y.invoked && y.invoked[id] == how
  {
    RunKeeps(New(base), es);
    RunMore(New(base), es, e);
    RunKeeps(New(base), es + [e]);
    RunOn(New(base), es + [e], later);
    SettledStays(Run(New(base), es + [e]), id, how, later);
    RunMore(New(base), es + [e] + later, Invoke(id));
    RunKeeps(New(base), es + [e] + later);
  }

  class BaseAtomos {
    var asyncCallbackID: nat
    var asyncCallbackMap: map<Id, Callback>
    var asyncCleared: bool
    ghost var base: nat
    ghost var replied: set<Id>
    ghost var cancelled: set<Id>
    ghost var claimed: set<Id>
    ghost var invoked: map<Id, Ending>
    ghost var late: seq<Callback>
    ghost var sent: set<Id>

    ghost function Abs(): Ledger
      reads this
    {
      Ledger(asyncCallbackID, asyncCallbackMap, asyncCleared, base, replied, cancelled, claimed, invoked, late, sent)
    }

    constructor (base: nat)
      ensures Abs() == New(base)
    {
      asyncCallbackID, asyncCallbackMap, asyncCleared := base, map[], false;
      this.base, replied, cancelled, claimed, invoked, late, sent := base, {}, {}, {}, map[], [], {};
    }

    method AsyncSet(cb: Callback) returns (id: Id)
      modifies this
      ensures Abs() == Apply(old(Abs()), Set(cb)) && id == SetId(old(Abs()))
      ensures if old(asyncCleared) then id == 0 && asyncCallbackMap == old(asyncCallbackMap)
              else id == old(asyncCallbackID) + 1 && asyncCallbackMap == old(asyncCallbackMap)[id := cb]
    {
      if asyncCleared {
        late := late + [cb];  // run here, with the cancellation error
        return 0;
      }
      asyncCallbackID := asyncCallbackID + 1;
      id := asyncCallbackID;
      asyncCallbackMap := asyncCallbackMap[id := cb];
    }

    /** The registering half of `PushAsyncMessage`. */
    method PushAsync(cb: Callback) returns (pushed: bool)
      requires Inv(Abs())
      modifies this
      ensures pushed == !old(asyncCleared)
      ensures Abs() == if pushed then Apply(Apply(old(Abs()), Set(cb)), Send(old(asyncCallbackID) + 1))
                       else Apply(old(Abs()), Set(cb))
      ensures sent == if pushed then old(sent) + {asyncCallbackID} else old(sent)
    {
      var id := AsyncSet(cb);
      if id == 0 {
        return false;
      }
      sent := sent + {id};
      return true;
    }

    method AsyncPop(id: Id) returns (found: bool, cb: Callback)
      modifies this
      ensures Abs() == Apply(old(Abs()), Pop(id))
      ensures found == (id in old(asyncCallbackMap)) && (found ==> cb == old(asyncCallbackMap)[id])
      ensures asyncCallbackMap == old(asyncCallbackMap) - {id}
    {
      if id in asyncCallbackMap {
        cb := asyncCallbackMap[id];
        asyncCallbackMap := asyncCallbackMap - {id};
        replied, claimed := replied + {id}, claimed + {id};
        return true, cb;
      }
      return false, 0;
    }

    /** Answers the callbacks to terminate, in the order the map was walked. */
    method AsyncCancelAll() returns (todo: seq<Callback>)
      modifies this
      ensures Abs() == Apply(old(Abs()), CancelAll)
      ensures asyncCleared && asyncCallbackMap == map[] && |todo| == |old(asyncCallbackMap)|
      ensures forall id :: id in old(asyncCallbackMap) ==> old(asyncCallbackMap)[id] in todo
    {
      asyncCleared := true;
      todo := [];
      ghost var all := asyncCallbackMap;
      while asyncCallbackMap != map[]
        invariant forall id :: id in asyncCallbackMap ==> id in all && asyncCallbackMap[id] == all[id]
        invariant |todo| + |asyncCallbackMap| == |all|
        invariant forall id :: id in all ==> id in asyncCallbackMap || all[id] in todo
        invariant Abs() == old(Abs()).(cleared := true, pending := asyncCallbackMap)
        decreases |asyncCallbackMap|
      {
        var id :| id in asyncCallbackMap;
        todo := todo + [asyncCallbackMap[id]];
        asyncCallbackMap := asyncCallbackMap - {id};
      }
      cancelled, claimed := cancelled + all.Keys, claimed + all.Keys;
    }
  }

  /** A respawn under the same name: the new instance goes on counting where the old one is. */
  function TakeOver(prev: Ledger): Ledger { New(prev.counter) }

  /** When the old instance had cleared its ledger, as `mailboxOnStop` does before anything else,
      the ids of the two are disjoint whatever both of them go on doing, so a late reply meant for
      the old one, resolved by name, finds nothing to pop in its successor. */
  lemma {:induction false} TakeOverKeepsIdsApart(prev: Ledger, later: seq<Event>, after: seq<Event>, id: Id)
    requires Inv(prev) && prev.cleared && id in Registered(Run(prev, later))
    ensures id !in Registered(Run(TakeOver(prev), after))
    ensures Apply(Run(TakeOver(prev), after), Pop(id)) == Run(TakeOver(prev), after)
  {
    ClearedForGood(prev, later);
    RunKeeps(TakeOver(prev), after);
    BaseStays(TakeOver(prev), after);
  }

  lemma RunOne(l: Ledger, e: Event)
    ensures Run(l, [e]) == Apply(l, e)
  {
    assert [e][..0] == [];
  }

  /** Without the clearing, as after a failed start, a single registration on each side collides. */
  lemma UnclearedTakeOverCollides(prev: Ledger, cb: Callback)
    requires Inv(prev) && !prev.cleared
    ensures exists later, after, id :: id in Registered(Run(prev, later)) && id in Run(TakeOver(prev), after).pending
  {
    RunOne(prev, Set(cb));
    RunOne(TakeOver(prev), Set(cb));
    assert prev.counter + 1 in Registered(Run(prev, [Set(cb)]));
  }

  /** Ids stay apart in all futures exactly when the old ledger was cleared at the take-over. */
  lemma IdsStayApartIffCleared(prev: Ledger)
    requires Inv(prev)
    ensures prev.cleared <==>
            forall later, after, id :: id in Registered(Run(prev, later)) ==> id !in Run(TakeOver(prev), after).pending
  {
    if prev.cleared {
      forall later, after, id | id in Registered(Run(prev, later)) ensures id !in Run(TakeOver(prev), after).pending {
        TakeOverKeepsIdsApart(prev, later, after, id);
        RunKeeps(TakeOver(prev), after);
      }
    } else {
      UnclearedTakeOverCollides(prev, 0);
    }
  }

  /** A chain of respawns under one name: `past[k]` is what happened to generation k up to the
      takeover by the next one. */
  function Generation(past: seq<seq<Event>>): Ledger
  {
    if past == [] then New(0)
    else TakeOver(Run(Generation(past[..|past| - 1]), past[|past| - 1]))
  }

  /** Generation j as its successor found it. */
  function AtTakeOver(past: seq<seq<Event>>, j: nat): Ledger
    requires j < |past|
  {
    Run(Generation(past[..j]), past[j])
  }

  lemma {:induction false} GenerationIsFresh(past: seq<seq<Event>>)
    ensures Inv(Generation(past))
  {
  }

  lemma {:induction false} CounterGrows(l: Ledger, es: seq<Event>)
    ensures l.counter <= Run(l, es).counter
  {
    if es != [] {
      CounterGrows(l, es[..|es| - 1]);
    }
  }

  /** Each generation begins to count where all earlier ones were when they were taken over. */
  lemma {:induction false} LaterCountsOn(past: seq<seq<Event>>, j: nat)
    requires j < |past|
    ensures AtTakeOver(past, j).counter <= Generation(past).base
  {
    if j < |past| - 1 {
      var front := past[..|past| - 1];
      LaterCountsOn(front, j);
      assert front[..j] == past[..j];
      CounterGrows(Generation(front), past[|past| - 1]);
    }
  }

  /** An id registered by any generation that was cleared at its takeover is never registered, let
      alone pending, in any later generation, whatever either of them goes on doing; so a late reply
      resolved by name, however many respawns later, pops nothing. */
  lemma {:induction false} ChainKeepsIdsApart(past: seq<seq<Event>>, j: nat, later: seq<Event>, now: seq<Event>, id: Id)
    requires j < |past| && AtTakeOver(past, j).cleared && id in Registered(Run(AtTakeOver(past, j), later))
    ensures var l := Run(Generation(past), now);
            id !in Registered(l) && id !in l.pending && Apply(l, Pop(id)) == l
  {
    GenerationIsFresh(past[..j]);
    RunKeeps(Generation(past[..j]), past[j]);
    ClearedForGood(AtTakeOver(past, j), later);
    LaterCountsOn(past, j);
    GenerationIsFresh(past);
    RunKeeps(Generation(past), now);
    BaseStays(Generation(past), now);
  }

  /** When every generation was cleared at its takeover, ids of all generations are apart. */
  lemma {:induction false} ClearedChainIsApart(past: seq<seq<Event>>, now: seq<Event>)
    requires forall j :: 0 <= j < |past| ==> AtTakeOver(past, j).cleared
    ensures forall j, later, id :: 0 <= j < |past| && id in Registered(Run(AtTakeOver(past, j), later)) ==>
              id !in Run(Generation(past), now).pending
  {
    forall j, later, id | 0 <= j < |past| && id in Registered(Run(AtTakeOver(past, j), later))
      ensures id !in Run(Generation(past), now).pending
    {
      ChainKeepsIdsApart(past, j, later, now, id);
    }
  }
}
