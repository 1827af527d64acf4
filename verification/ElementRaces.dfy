/** The element's table of atoms when its methods are cut at every lock. Threads look up, count,
    release and collect in any interleaving; between two locked regions of one thread anything may
    happen. An event is one locked region. */
module ElementRaces {
  import opened RefCells
  import opened Element

  type Tid = nat

  /** What collects: a stopping atom, the clean-up of a failed start, or the hook of a drained cell. */
  datatype Job = Stopping | Aborting | Draining

  /** `since` and `counted` are the positions in the run at which the collector looked the reference
      state up and read its count as zero. */
  datatype PC =
    | Met(inst: Inst)              // a getter read the entry
    | Alive(inst: Inst)            // it was not halted, or the thread spawned it
    | Adding(inst: Inst, st: StId) // its reference state was looked up
    | Reading(inst: Inst, job: Job, read: Read, since: nat)
    | Collecting(inst: Inst, job: Job, read: Read, since: nat, counted: nat)

  /** `born` is the position at which a tracker was made, `clock` the number of events so far. */
  datatype Race = Race(elem: Elem, pc: map<Tid, PC>, born: map<TrackerId, nat>, clock: nat)

  function Start(): Race { Race(Empty(), map[], map[], 0) }

  datatype Event =
    | Spawn(n: Name)
    | Halt(i: Inst)
    | Find(t: Tid, n: Name) | Check(t: Tid)   // GetAtomID up to addRefAtom
    | Own(t: Tid, i: Inst)                    // a spawner about to record its own reference
    | Lookup(t: Tid) | Record(t: Tid)         // addRefAtom
    | Uncount(t: Tid, k: TrackerId)           // Release
    | StopRead(t: Tid, i: Inst) | AbortRead(t: Tid, i: Inst)
    | ReadCount(t: Tid)
    | Collect(t: Tid)                         // the deletion, or the hook

  /** The last region of a collector. */
  function Collected(e: Elem, i: Inst, job: Job, read: Read): Elem
    requires i in e.name
  {
    match job
    case Stopping => StopDelete(e, i, read)
    case Aborting => AbortDelete(e, i, read)
    case Draining => if read.State? then Drained(e, e.name[i], read.st, i) else e
  }

  /** The events that can happen. */
  predicate Enabled(s: Race, e: Event)
  {
    match e
    case Spawn(_) => true
    case Halt(_) => true
    case Find(t, n) => t !in s.pc && n in s.elem.atoms
    case Check(t) => t in s.pc && s.pc[t].Met?
    case Own(t, i) => t !in s.pc && i in s.elem.name
    case Lookup(t) => t in s.pc && s.pc[t].Alive? && s.pc[t].inst in s.elem.name
    case Record(t) => t in s.pc && s.pc[t].Adding?
    case Uncount(t, k) => t !in s.pc && k in s.elem.trackers && !s.elem.trackers[k].released
    case StopRead(t, i) => t !in s.pc && i in s.elem.name
    case AbortRead(t, i) => t !in s.pc && i in s.elem.name && i in s.elem.halted
    case ReadCount(t) => t in s.pc && s.pc[t].Reading?
    case Collect(t) => t in s.pc && s.pc[t].Collecting? && s.pc[t].inst in s.elem.name
  }

  /** What an event does to the element. */
  function ElemAfter(s: Race, e: Event): Elem
    requires Enabled(s, e)
  {
    match e
    case Spawn(n) => Apply(s.elem, Element.Event.Spawn(n))
    case Halt(i) => Apply(s.elem, Element.Event.Halt(i))
    case Lookup(t) => WithState(s.elem, s.elem.name[s.pc[t].inst])
    case Record(t) => WithTracker(s.elem, s.pc[t].st, s.pc[t].inst)
    case Uncount(_, k) => Element.Uncount(s.elem, k)
    case Collect(t) => Collected(s.elem, s.pc[t].inst, s.pc[t].job, s.pc[t].read)
    case _ => s.elem
  }

  datatype Move = Leave | To(pc: PC)

  /** Where it leaves the thread that takes it. */
  function MoveOf(s: Race, e: Event): Move
    requires Enabled(s, e)
  {
    match e
    case Find(_, n) => To(Met(s.elem.atoms[n]))
    case Check(t) => if s.pc[t].inst in s.elem.halted then Leave else To(Alive(s.pc[t].inst))
    case Own(_, i) => To(Alive(i))
    case Lookup(t) => To(Adding(s.pc[t].inst, ElemAfter(s, e).refStates[s.elem.name[s.pc[t].inst]]))
    case Uncount(_, k) =>
      var r := s.elem.trackers[k];
      if r.inst in CellsOf(s.elem, r.st) && r.inst !in CellsOf(ElemAfter(s, e), r.st)
      then To(Collecting(r.inst, Draining, State(r.st), s.clock, s.clock)) else Leave
    case StopRead(_, i) => To(Reading(i, Stopping, StateOf(s.elem, s.elem.name[i]), s.clock))
    case AbortRead(_, i) => To(Reading(i, Aborting, StateOf(s.elem, s.elem.name[i]), s.clock))
    case ReadCount(t) =>
      var p := s.pc[t];
      if CountIn(s.elem, p.read, p.inst) > 0 then Leave
      else To(Collecting(p.inst, p.job, p.read, p.since, s.clock))
    case _ => Leave
  }

  function PcAfter(s: Race, e: Event): map<Tid, PC>
    requires Enabled(s, e)
  {
    if e.Spawn? || e.Halt? then s.pc
    else match MoveOf(s, e)
      case Leave => s.pc - {e.t}
      case To(pc) => s.pc[e.t := pc]
  }

  /** Events that cannot happen pass. */
  function Next(s: Race, e: Event): Race
  {
    if !Enabled(s, e) then s.(clock := s.clock + 1)
    else Race(ElemAfter(s, e), PcAfter(s, e), if e.Record? then s.born[s.elem.next := s.clock] else s.born, s.clock + 1)
  }

  function Run(es: seq<Event>): Race
  {
    if es == [] then Start() else Next(Run(es[..|es| - 1]), es[|es| - 1])
  }

  /** An unreleased reference to `i`. */
  predicate Holds(s: Elem, k: TrackerId, i: Inst)
  {
    k in s.trackers && s.trackers[k].inst == i && !s.trackers[k].released
  }

  /** The collector did not see this reference: it was made after the count, or in another state
      than the one counted. */
  predicate Unseen(s: Race, p: PC, k: TrackerId)
    requires p.Collecting?
  {
    k in s.elem.trackers && k in s.born && (s.born[k] > p.counted || p.read != State(s.elem.trackers[k].st))
  }

  ghost predicate PcOk(s: Race, p: PC)
  {
    && p.inst in s.elem.name
    && (p.Adding? ==> p.st in s.elem.cells)
    && (p.Reading? ==> p.since < s.clock && !p.job.Draining?)
    && (p.Collecting? ==> p.since <= p.counted < s.clock && (p.job.Draining? ==> p.read.State?))
  }

  /** What the collector counted is released. */
  ghost predicate Sighted(s: Race, p: PC)
  {
    p.Collecting? ==> forall k :: Holds(s.elem, k, p.inst) ==> Unseen(s, p, k)
  }

  ghost predicate Inv(s: Race)
  {
    && Known(s.elem) && Conserved(s.elem)
    && (forall k :: k in s.elem.trackers ==> s.elem.trackers[k].inst in s.elem.name)
    && s.born.Keys == s.elem.trackers.Keys && (forall k :: k in s.born ==> s.born[k] < s.clock)
    && (forall t :: t in s.pc ==> PcOk(s, s.pc[t]) && Sighted(s, s.pc[t]))
  }

  /** What every step does at most: names and cells are added, trackers are added at the present
      position and released. */
  ghost predicate Evolves(s: Race, z: Race)
  {
    && z.clock == s.clock + 1
    && (forall i :: i in s.elem.name ==> i in z.elem.name && z.elem.name[i] == s.elem.name[i])
    && s.elem.cells.Keys <= z.elem.cells.Keys
    && (forall k :: k in s.elem.trackers ==> Ages(s, z, k))
    && (forall k :: k in z.elem.trackers ==> k in s.elem.trackers || (k in z.born && z.born[k] == s.clock))
  }

  ghost predicate Ages(s: Race, z: Race, k: TrackerId)
    requires k in s.elem.trackers
  {
    && k in z.elem.trackers && (k in s.born ==> k in z.born && z.born[k] == s.born[k])
    && z.elem.trackers[k].inst == s.elem.trackers[k].inst && z.elem.trackers[k].st == s.elem.trackers[k].st
    && (s.elem.trackers[k].released ==> z.elem.trackers[k].released)
  }

  lemma CollectedOnlyUnlists(e: Elem, i: Inst, job: Job, read: Read)
    requires i in e.name
    ensures var y := Collected(e, i, job, read);
            && y == e.(atoms := y.atoms, refStates := y.refStates)
            && (y.atoms == e.atoms || y.atoms == e.atoms - {e.name[i]})
            && (y.refStates == e.refStates || y.refStates == e.refStates - {e.name[i]})
  {
  }

  lemma CollectEvolves(s: Race, e: Event)
    requires Enabled(s, e) && e.Collect?
    ensures Evolves(s, Next(s, e))
  {
    CollectedOnlyUnlists(s.elem, s.pc[e.t].inst, s.pc[e.t].job, s.pc[e.t].read);
  }

  lemma RecordEvolves(s: Race, e: Event)
    requires Known(s.elem) && s.born.Keys == s.elem.trackers.Keys && Enabled(s, e) && e.Record?
    ensures Evolves(s, Next(s, e))
  {
  }

  lemma UncountEvolves(s: Race, e: Event)
    requires s.born.Keys == s.elem.trackers.Keys && Enabled(s, e) && e.Uncount?
    ensures Evolves(s, Next(s, e))
  {
  }

  lemma OtherEvolves(s: Race, e: Event)
    requires s.born.Keys == s.elem.trackers.Keys && Known(s.elem)
    requires Enabled(s, e) && !e.Collect? && !e.Record? && !e.Uncount?
    ensures Evolves(s, Next(s, e))
  {
    assert ElemAfter(s, e).trackers == s.elem.trackers;
  }

  lemma StepEvolves(s: Race, e: Event)
    requires Known(s.elem) && s.born.Keys == s.elem.trackers.Keys
    ensures Evolves(s, Next(s, e))
  {
    if Enabled(s, e) {
      match e
      case Collect(_) => CollectEvolves(s, e);
      case Record(_) => RecordEvolves(s, e);
      case Uncount(_, _) => UncountEvolves(s, e);
      case _ => OtherEvolves(s, e);
    }
  }

  lemma EvolutionKeeps(s: Race, z: Race, p: PC)
    requires Evolves(s, z) && PcOk(s, p) && Sighted(s, p)
    ensures PcOk(z, p) && Sighted(z, p)
  {
    if p.Collecting? {
      forall k | Holds(z.elem, k, p.inst) ensures Unseen(z, p, k) {
        if k in s.elem.trackers {
          assert Ages(s, z, k);
          assert Unseen(s, p, k);
        }
      }
    }
  }

  /** A count of zero means that the state counted holds no reference to the instance. */
  lemma ZeroCountSees(e: Elem, read: Read, i: Inst)
    requires Conserved(e) && CountIn(e, read, i) == 0
    ensures forall k :: Holds(e, k, i) ==> read != State(e.trackers[k].st)
  {
    forall k | Holds(e, k, i) ensures read != State(e.trackers[k].st) {
      assert CellOk(e, e.trackers[k].st, i) && k in Element.Open(e, e.trackers[k].st, i);
    }
  }

  lemma ElemKeeps(s: Race, e: Event)
    requires Inv(s) && Enabled(s, e)
    ensures Known(ElemAfter(s, e)) && Conserved(ElemAfter(s, e))
  {
    match e
    case Lookup(t) =>
      StateKeepsKnown(s.elem, s.elem.name[s.pc[t].inst]);
      StateKeepsConserved(s.elem, s.elem.name[s.pc[t].inst]);
    case Record(t) =>
      assert PcOk(s, s.pc[t]);
      TrackerKeepsConserved(s.elem, s.pc[t].st, s.pc[t].inst);
    case Uncount(_, k) => UncountKeepsConserved(s.elem, k);
    case Collect(t) =>
      CollectedOnlyUnlists(s.elem, s.pc[t].inst, s.pc[t].job, s.pc[t].read);
      SameTrackersSameCells(s.elem, ElemAfter(s, e));
    case _ => SameTrackersSameCells(s.elem, ElemAfter(s, e));
  }

  /** The thread that takes the step knows what its new position says. */
  lemma MoveKeeps(s: Race, e: Event)
    requires Inv(s) && Enabled(s, e) && !e.Spawn? && !e.Halt? && MoveOf(s, e).To? && Conserved(ElemAfter(s, e))
    ensures PcOk(Next(s, e), MoveOf(s, e).pc) && Sighted(Next(s, e), MoveOf(s, e).pc)
  {
    var z, p := Next(s, e), MoveOf(s, e).pc;
    assert e.t in s.pc ==> PcOk(s, s.pc[e.t]);
    if p.Collecting? {
      ZeroCountSees(z.elem, p.read, p.inst);
    }
  }

  lemma PcsKeep(s: Race, e: Event, t: Tid)
    requires Inv(s) && Evolves(s, Next(s, e)) && Conserved(Next(s, e).elem) && t in Next(s, e).pc
    ensures PcOk(Next(s, e), Next(s, e).pc[t]) && Sighted(Next(s, e), Next(s, e).pc[t])
  {
    var z := Next(s, e);
    if t in s.pc && z.pc[t] == s.pc[t] {
      EvolutionKeeps(s, z, s.pc[t]);
    } else {
      MoveKeeps(s, e);
    }
  }

  lemma TrackersKeep(s: Race, e: Event)
    requires Inv(s) && Enabled(s, e)
    ensures forall k :: k in ElemAfter(s, e).trackers ==> ElemAfter(s, e).trackers[k].inst in ElemAfter(s, e).name
    ensures Next(s, e).born.Keys == ElemAfter(s, e).trackers.Keys
  {
    if e.Collect? {
      CollectedOnlyUnlists(s.elem, s.pc[e.t].inst, s.pc[e.t].job, s.pc[e.t].read);
    }
    assert e.Record? ==> PcOk(s, s.pc[e.t]);
  }

  lemma StepKeeps(s: Race, e: Event)
    requires Inv(s)
    ensures Inv(Next(s, e))
  {
    var z := Next(s, e);
    StepEvolves(s, e);
    if Enabled(s, e) {
      ElemKeeps(s, e);
      TrackersKeep(s, e);
    }
    forall t | t in z.pc ensures PcOk(z, z.pc[t]) && Sighted(z, z.pc[t]) {
      PcsKeep(s, e, t);
    }
  }

  lemma {:induction false} RunKeeps(es: seq<Event>)
    ensures Inv(Run(es)) && Run(es).clock == |es|
  {
    if es == [] {
      forall st, i ensures CellOk(Empty(), st, i) {
        assert Element.Open(Empty(), st, i) == {};
      }
    } else {
      RunKeeps(es[..|es| - 1]);
      StepKeeps(Run(es[..|es| - 1]), es[|es| - 1]);
    }
  }

  /** The entry of `i` goes while somebody holds a reference to it. */
  ghost predicate LosesEntry(s: Race, e: Event, n: Name, i: Inst)
  {
    Listed(s.elem, n, i) && !Listed(Next(s, e).elem, n, i) && Referenced(Next(s, e).elem, i)
  }

  /** The last region of a collector for `i`, which may delete, and a reference it has not seen. */
  ghost predicate Overlooks(s: Race, e: Event, i: Inst)
  {
    && e.Collect? && Enabled(s, e) && s.pc[e.t].inst == i
    && (s.pc[e.t].job.Draining? ==> i in s.elem.halted)
    && exists k :: Holds(s.elem, k, i) && Unseen(s, s.pc[e.t], k)
  }

  lemma OnlyCollectorsUnlist(s: Race, e: Event, n: Name, i: Inst)
    requires Inv(s) && Listed(s.elem, n, i) && !e.Collect?
    ensures Listed(Next(s, e).elem, n, i) <==> e != Event.Spawn(n)
  {
  }

  lemma CollectedUnlists(e: Elem, i: Inst, job: Job, read: Read, n: Name, j: Inst)
    requires Known(e) && i in e.name && (job.Draining? ==> read.State?) && Listed(e, n, j)
    ensures !Listed(Collected(e, i, job, read), n, j) <==> i == j && (job.Draining? ==> i in e.halted)
  {
  }

  lemma CollectorUnlists(s: Race, t: Tid, n: Name, i: Inst)
    requires Inv(s) && Listed(s.elem, n, i) && Enabled(s, Collect(t))
    ensures !Listed(Next(s, Collect(t)).elem, n, i) <==>
            s.pc[t].inst == i && (s.pc[t].job.Draining? ==> i in s.elem.halted)
  {
    assert PcOk(s, s.pc[t]);
    CollectedUnlists(s.elem, s.pc[t].inst, s.pc[t].job, s.pc[t].read, n, i);
  }

  lemma SameReferences(s: Race, t: Tid, i: Inst)
    requires Inv(s) && Enabled(s, Collect(t))
    ensures Next(s, Collect(t)).elem.trackers == s.elem.trackers
  {
    CollectedOnlyUnlists(s.elem, s.pc[t].inst, s.pc[t].job, s.pc[t].read);
  }

  lemma ReferencedIsHeld(e: Elem, i: Inst)
    ensures Referenced(e, i) <==> exists k :: Holds(e, k, i)
  {
    if Referenced(e, i) {
      var k :| k in e.trackers && e.trackers[k].inst == i && !e.trackers[k].released;
      assert Holds(e, k, i);
    }
  }

  /** In every run and for every step: a referenced instance leaves the table exactly if it is
      replaced, or if a collector for it takes its last step (the hook only if it is halted by now)
      and some reference still held escaped the count that the collector rests on. */
  lemma {:induction false} ReferencedLeavesExactly(es: seq<Event>, e: Event, n: Name, i: Inst)
    requires Listed(Run(es).elem, n, i)
    ensures LosesEntry(Run(es), e, n, i) <==>
            (e == Event.Spawn(n) && Referenced(Run(es).elem, i)) || Overlooks(Run(es), e, i)
  {
    RunKeeps(es);
    var s := Run(es);
    if e.Collect? {
      if Enabled(s, e) {
        CollectorUnlists(s, e.t, n, i);
        SameReferences(s, e.t, i);
        ReferencedIsHeld(s.elem, i);
        assert Sighted(s, s.pc[e.t]);
      }
    } else {
      OnlyCollectorsUnlist(s, e, n, i);
    }
  }

  /** What positions in the run stand for: a tracker was made by the `Record` at its birth, a
      collector began its reads with another event. */
  ghost predicate Traced(es: seq<Event>)
  {
    var s := Run(es);
    && (forall k :: k in s.born ==> s.born[k] < |es| && es[s.born[k]].Record?)
    && (forall t :: t in s.pc && Dated(s.pc[t]) ==>
          s.pc[t].since < |es| && !es[s.pc[t].since].Record?)
  }

  predicate Dated(p: PC) { p.Reading? || p.Collecting? }

  /** Births and beginnings are those of before, or are dated now. */
  lemma StepDates(s: Race, e: Event)
    ensures forall k :: k in Next(s, e).born ==>
              (k in s.born && Next(s, e).born[k] == s.born[k]) || (e.Record? && Next(s, e).born[k] == s.clock)
    ensures forall t :: t in Next(s, e).pc && Dated(Next(s, e).pc[t]) ==>
              (t in s.pc && Dated(s.pc[t]) && Next(s, e).pc[t].since == s.pc[t].since)
              || (!e.Record? && Next(s, e).pc[t].since == s.clock)
  {
  }

  lemma {:induction false} RunIsTraced(es: seq<Event>)
    ensures Traced(es)
  {
    if es != [] {
      var front, e := es[..|es| - 1], es[|es| - 1];
      RunIsTraced(front);
      RunKeeps(front);
      StepDates(Run(front), e);
      assert forall m :: 0 <= m < |front| ==> front[m] == es[m];
    }
  }

  /** A tracker born before a position was there at that position. */
  lemma {:induction false} WasThere(es: seq<Event>, m: nat, k: TrackerId)
    requires m <= |es| && k in Run(es).elem.trackers && k in Run(es).born && Run(es).born[k] < m
    ensures var was, now := Run(es[..m]).elem, Run(es).elem;
            && k in was.trackers
            && was.trackers[k].inst == now.trackers[k].inst && was.trackers[k].st == now.trackers[k].st
            && (was.trackers[k].released ==> now.trackers[k].released)
  {
    if m == |es| {
      assert es[..m] == es;
    } else {
      var front, e := es[..|es| - 1], es[|es| - 1];
      RunKeeps(front);
      StepEvolves(Run(front), e);
      assert k in Run(front).elem.trackers;
      assert Ages(Run(front), Run(es), k);
      assert front[..m] == es[..m];
      WasThere(front, m, k);
    }
  }

  /** If, when the collector looked the reference state up, every reference to the instance sat in
      that state, then the entry is lost exactly if it is still there (and halted, for the hook) and
      somebody recorded a reference between the two halves of the collector and still holds it. */
  lemma {:induction false} LostToLateReferenceExactly(es: seq<Event>, t: Tid)
    requires Enabled(Run(es), Collect(t)) && Run(es).pc[t].since <= |es|
    requires var p := Run(es).pc[t];
             var was := Run(es[..p.since]).elem;
             forall k :: Holds(was, k, p.inst) ==> p.read == State(was.trackers[k].st)
    ensures var s, p := Run(es), Run(es).pc[t];
            LosesEntry(s, Collect(t), s.elem.name[p.inst], p.inst) <==>
            && Listed(s.elem, s.elem.name[p.inst], p.inst) && (p.job.Draining? ==> p.inst in s.elem.halted)
            && exists k ::
                 Holds(s.elem, k, p.inst) && k in s.born && p.since < s.born[k] < |es| && es[s.born[k]].Record?
  {
    var s, p := Run(es), Run(es).pc[t];
    RunKeeps(es);
    RunIsTraced(es);
    if Listed(s.elem, s.elem.name[p.inst], p.inst) {
      ReferencedLeavesExactly(es, Collect(t), s.elem.name[p.inst], p.inst);
      assert PcOk(s, p) && Sighted(s, p);
      forall k | Holds(s.elem, k, p.inst) && Unseen(s, p, k) ensures p.since < s.born[k] {
        if s.born[k] < p.since {
          WasThere(es, p.since, k);
          assert Holds(Run(es[..p.since]).elem, k, p.inst);
        }
      }
    }
  }

  lemma RunMore(es: seq<Event>, e: Event)
    ensures Run(es + [e]) == Next(Run(es), e)
  {
    assert (es + [e])[..|es|] == es;
  }

  function After(s: Race, es: seq<Event>): Race
  {
    if es == [] then s else Next(After(s, es[..|es| - 1]), es[|es| - 1])
  }

  lemma {:induction false} RunAfter(es: seq<Event>, fs: seq<Event>)
    ensures Run(es + fs) == After(Run(es), fs)
  {
    if fs == [] {
      assert es + fs == es;
    } else {
      assert (es + fs)[..|es + fs| - 1] == es + fs[..|fs| - 1];
      RunAfter(es, fs[..|fs| - 1]);
    }
  }

  lemma AfterOne(s: Race, a: Event)
    ensures After(s, [a]) == Next(s, a)
  {
    assert [a][..0] == [];
    assert After(s, []) == s;
  }

  lemma AfterTwo(s: Race, a: Event, b: Event)
    ensures After(s, [a, b]) == Next(Next(s, a), b)
  {
    assert [a, b][..1] == [a];
    AfterOne(s, a);
  }

  lemma {:induction false} AfterBoth(s: Race, es: seq<Event>, fs: seq<Event>)
    ensures After(s, es + fs) == After(After(s, es), fs)
  {
    if fs == [] {
      assert es + fs == es;
    } else {
      assert (es + fs)[..|es + fs| - 1] == es + fs[..|fs| - 1];
      AfterBoth(s, es, fs[..|fs| - 1]);
    }
  }

  /** `GetAtomID` up to the recording, with nothing in between. */
  lemma MeetsInTwo(s: Race, t: Tid, n: Name)
    requires t !in s.pc && n in s.elem.atoms && s.elem.atoms[n] !in s.elem.halted
    ensures Next(Next(s, Find(t, n)), Check(t)) ==
            s.(pc := s.pc[t := Alive(s.elem.atoms[n])], clock := s.clock + 2)
  {
    var y := Next(s, Find(t, n));
    assert y == s.(pc := s.pc[t := Met(s.elem.atoms[n])], clock := s.clock + 1);
  }

  lemma MeetsEntry(s: Race, t: Tid, n: Name)
    requires t !in s.pc && n in s.elem.atoms && s.elem.atoms[n] !in s.elem.halted
    ensures After(s, [Find(t, n), Check(t)]) ==
            s.(pc := s.pc[t := Alive(s.elem.atoms[n])], clock := s.clock + 2)
  {
    MeetsInTwo(s, t, n);
    AfterTwo(s, Find(t, n), Check(t));
  }

  function TrackerOf(e: Elem, i: Inst): TrackerId
    requires i in e.name
  {
    WithState(e, e.name[i]).next
  }

  /** `addRefAtom`, likewise. */
  lemma AddsInTwo(s: Race, t: Tid, i: Inst)
    requires t in s.pc && s.pc[t] == Alive(i) && i in s.elem.name
    ensures Next(Next(s, Lookup(t)), Record(t)) ==
            Race(WithRef(s.elem, i), s.pc - {t}, s.born[TrackerOf(s.elem, i) := s.clock + 1], s.clock + 2)
  {
    var y, e := Next(s, Lookup(t)), WithState(s.elem, s.elem.name[i]);
    assert y == Race(e, s.pc[t := Adding(i, e.refStates[s.elem.name[i]])], s.born, s.clock + 1);
    assert y.pc - {t} == s.pc - {t};
  }

  lemma AddsRef(s: Race, t: Tid, i: Inst)
    requires t in s.pc && s.pc[t] == Alive(i) && i in s.elem.name
    ensures After(s, [Lookup(t), Record(t)]) ==
            Race(WithRef(s.elem, i), s.pc - {t}, s.born[TrackerOf(s.elem, i) := s.clock + 1], s.clock + 2)
  {
    AddsInTwo(s, t, i);
    AfterTwo(s, Lookup(t), Record(t));
  }

  function Begin(t: Tid, i: Inst, job: Job): Event { if job.Stopping? then StopRead(t, i) else AbortRead(t, i) }

  /** The state after the two reads of a collecting method. */
  function Counted(s: Race, t: Tid, i: Inst, job: Job): Race
    requires i in s.elem.name
  {
    var r := StateOf(s.elem, s.elem.name[i]);
    if CountIn(s.elem, r, i) > 0 then s.(clock := s.clock + 2)
    else s.(pc := s.pc[t := Collecting(i, job, r, s.clock, s.clock + 1)], clock := s.clock + 2)
  }

  lemma CountsInTwo(s: Race, t: Tid, i: Inst, job: Job)
    requires Enabled(s, Begin(t, i, job)) && !job.Draining?
    ensures Next(Next(s, Begin(t, i, job)), ReadCount(t)) == Counted(s, t, i, job)
  {
    var r := StateOf(s.elem, s.elem.name[i]);
    var y := Next(s, Begin(t, i, job));
    assert y == s.(pc := s.pc[t := Reading(i, job, r, s.clock)], clock := s.clock + 1);
    assert y.pc - {t} == s.pc;
  }

  lemma CountsRefs(s: Race, t: Tid, i: Inst, job: Job)
    requires Enabled(s, Begin(t, i, job)) && !job.Draining?
    ensures After(s, [Begin(t, i, job), ReadCount(t)]) == Counted(s, t, i, job)
  {
    CountsInTwo(s, t, i, job);
    AfterTwo(s, Begin(t, i, job), ReadCount(t));
  }

  /** A whole get of an entry that is not halted. */
  function Gotten(s: Race, n: Name): Race
    requires n in s.elem.atoms && s.elem.atoms[n] in s.elem.name
  {
    var i := s.elem.atoms[n];
    Race(WithRef(s.elem, i), s.pc, s.born[TrackerOf(s.elem, i) := s.clock + 3], s.clock + 4)
  }

  lemma MetIsGotten(s: Race, y: Race, t: Tid, n: Name)
    requires t !in s.pc && n in s.elem.atoms && s.elem.atoms[n] in s.elem.name
    requires y == s.(pc := s.pc[t := Alive(s.elem.atoms[n])], clock := s.clock + 2)
    ensures var i := s.elem.atoms[n];
            Race(WithRef(y.elem, i), y.pc - {t}, y.born[TrackerOf(y.elem, i) := y.clock + 1], y.clock + 2)
            == Gotten(s, n)
  {
    assert y.pc - {t} == s.pc;
  }

  lemma MetThenAdded(s: Race, y: Race, t: Tid, n: Name)
    requires t !in s.pc && n in s.elem.atoms && s.elem.atoms[n] in s.elem.name
    requires y == s.(pc := s.pc[t := Alive(s.elem.atoms[n])], clock := s.clock + 2)
    ensures After(y, [Lookup(t), Record(t)]) == Gotten(s, n)
  {
    AddsRef(y, t, s.elem.atoms[n]);
    MetIsGotten(s, y, t, n);
  }

  lemma GetsInOne(s: Race, t: Tid, n: Name)
    requires t !in s.pc && n in s.elem.atoms && s.elem.atoms[n] !in s.elem.halted && s.elem.atoms[n] in s.elem.name
    ensures After(s, [Find(t, n), Check(t)] + [Lookup(t), Record(t)]) == Gotten(s, n)
  {
    var first, second := [Find(t, n), Check(t)], [Lookup(t), Record(t)];
    MeetsEntry(s, t, n);
    MetThenAdded(s, After(s, first), t, n);
    AfterBoth(s, first, second);
  }

  lemma GetsRef(es: seq<Event>, t: Tid, n: Name) returns (z: seq<Event>)
    requires var e := Run(es).elem;
             t !in Run(es).pc && n in e.atoms && e.atoms[n] !in e.halted && e.atoms[n] in e.name
    ensures Run(z) == Gotten(Run(es), n)
  {
    GetsInOne(Run(es), t, n);
    RunAfter(es, [Find(t, n), Check(t)] + [Lookup(t), Record(t)]);
    z := es + ([Find(t, n), Check(t)] + [Lookup(t), Record(t)]);
  }

  /** A loss, reached by a run. */
  ghost predicate Loses(es: seq<Event>, e: Event, n: Name, i: Inst) { LosesEntry(Run(es), e, n, i) }

  lemma LossShown(es: seq<Event>, t: Tid, n: Name, i: Inst, k: TrackerId)
    requires Listed(Run(es).elem, n, i) && Enabled(Run(es), Collect(t)) && Run(es).pc[t].inst == i
    requires Run(es).pc[t].job.Draining? ==> i in Run(es).elem.halted
    requires Holds(Run(es).elem, k, i) && Unseen(Run(es), Run(es).pc[t], k)
    ensures Loses(es, Collect(t), n, i)
  {
    ReferencedLeavesExactly(es, Collect(t), n, i);
  }

  /** "a" is spawned as instance 1. */
  lemma Spawned() returns (es: seq<Event>)
    ensures Run(es) == Race(Elem(map["a" := 1], map[1 := "a"], {}, map[], map[], map[], 2), map[], map[], 1)
  {
    es := [Event.Spawn("a")];
    RunMore([], Event.Spawn("a"));
    assert [] + es == es;
  }

  /** First way to lose an entry: a get between the count and the deletion of a stopping atom. */
  lemma GetDuringStoppingIsLost()
    ensures exists es :: Loses(es, Collect(0), "a", 1)
  {
    var e0 := Spawned();
    var e1 := e0 + [StopRead(0, 1), ReadCount(0)];
    RunAfter(e0, [StopRead(0, 1), ReadCount(0)]);
    CountsRefs(Run(e0), 0, 1, Stopping);
    assert Run(e1).elem == Run(e0).elem && Run(e1).pc == map[0 := Collecting(1, Stopping, NoState, 1, 2)];
    var e2 := GetsRef(e1, 1, "a");
    LossShown(e2, 0, "a", 1, 3);
  }

  /** Second way: the last reference is given back; before its hook runs another get arrives and the
      atom halts, having counted that reference and kept its entry. The hook finds it halted. */
  lemma GetDuringReleaseIsLost()
    ensures exists es :: Loses(es, Collect(0), "a", 1)
  {
    var e0 := Spawned();
    var e1 := GetsRef(e0, 0, "a");
    assert Run(e1).elem.trackers == map[3 := Tracker(2, 1, false)] && Run(e1).elem.cells == map[2 := map[1 := 1]];
    RunMore(e1, Uncount(0, 3));
    var e2 := e1 + [Uncount(0, 3)];
    assert Run(e2).pc == map[0 := Collecting(1, Draining, State(2), 5, 5)];
    assert Run(e2).elem.atoms == map["a" := 1] && Run(e2).elem.halted == {} && Run(e2).elem.name == map[1 := "a"];
    var e3 := GetsRef(e2, 1, "a");
    var e4 := StopSees(e3);
    RunMore(e4, Event.Halt(1));
    LossShown(e4 + [Event.Halt(1)], 0, "a", 1, 4);
  }

  /** The stopping atom of that run counts one reference, and goes away. */
  lemma StopSees(es: seq<Event>) returns (z: seq<Event>)
    requires 2 !in Run(es).pc && 1 in Run(es).elem.name && RefCount(Run(es).elem, Run(es).elem.name[1], 1) > 0
    ensures Run(z) == Run(es).(clock := Run(es).clock + 2)
  {
    RunAfter(es, [StopRead(2, 1), ReadCount(2)]);
    CountsRefs(Run(es), 2, 1, Stopping);
    z := es + [StopRead(2, 1), ReadCount(2)];
  }

  /** A getter of instance 1 has looked up a new reference state of "a". */
  lemma Reached() returns (es: seq<Event>)
    ensures Run(es) == Race(Elem(map["a" := 1], map[1 := "a"], {}, map["a" := 2], map[2 := map[]], map[], 3),
                            map[0 := Adding(1, 2)], map[], 4)
  {
    var e0 := Spawned();
    var e1 := e0 + [Find(0, "a"), Check(0)];
    RunAfter(e0, [Find(0, "a"), Check(0)]);
    MeetsEntry(Run(e0), 0, "a");
    RunMore(e1, Lookup(0));
    es := e1 + [Lookup(0)];
  }

  /** A collector of instance 1 counted that state, which is empty, and gets stuck; instance 3
      replaces instance 1. */
  lemma Replaced() returns (es: seq<Event>)
    ensures Run(es) == Race(Elem(map["a" := 3], map[1 := "a", 3 := "a"], {}, map["a" := 2], map[2 := map[]], map[], 4),
                            map[0 := Adding(1, 2), 1 := Collecting(1, Stopping, State(2), 4, 5)], map[], 7)
  {
    var e0 := Reached();
    var e1 := e0 + [StopRead(1, 1), ReadCount(1)];
    RunAfter(e0, [StopRead(1, 1), ReadCount(1)]);
    CountsRefs(Run(e0), 1, 1, Stopping);
    RunMore(e1, Event.Spawn("a"));
    es := e1 + [Event.Spawn("a")];
  }

  /** The spawner of instance 3 has looked up the state. */
  lemma Spotted() returns (es: seq<Event>)
    ensures Run(es) == Race(Elem(map["a" := 3], map[1 := "a", 3 := "a"], {}, map["a" := 2], map[2 := map[]], map[], 4),
                            map[0 := Adding(1, 2), 1 := Collecting(1, Stopping, State(2), 4, 5), 2 := Adding(3, 2)],
                            map[], 9)
  {
    var e0 := Replaced();
    RunMore(e0, Own(2, 3));
    var e1 := e0 + [Own(2, 3)];
    assert Run(e1) == Run(e0).(pc := Run(e0).pc[2 := Alive(3)], clock := 8);
    RunMore(e1, Lookup(2));
    es := e1 + [Lookup(2)];
  }

  /** The collector of instance 1 retires the state. */
  lemma Retired() returns (es: seq<Event>)
    ensures Run(es) == Race(Elem(map["a" := 3], map[1 := "a", 3 := "a"], {}, map[], map[2 := map[]], map[], 4),
                            map[0 := Adding(1, 2), 2 := Adding(3, 2)], map[], 10)
  {
    var e0 := Spotted();
    RunMore(e0, Collect(1));
    es := e0 + [Collect(1)];
  }

  /** The spawner of instance 3 records its reference in it all the same. */
  lemma Orphaned() returns (es: seq<Event>)
    ensures Run(es) == Race(Elem(map["a" := 3], map[1 := "a", 3 := "a"], {}, map[], map[2 := map[3 := 1]],
                                 map[4 := Tracker(2, 3, false)], 5),
                            map[0 := Adding(1, 2)], map[4 := 10], 11)
  {
    var e0 := Retired();
    RunMore(e0, Record(2));
    es := e0 + [Record(2)];
  }

  /** Third way: a reference in a state retired under its feet is out of sight of every later
      collector, although it was recorded before the collector began. */
  lemma OrphanedReferenceIsLost()
    ensures exists es, k :: Loses(es, Collect(3), "a", 3) && Holds(Run(es).elem, k, 3) && k in Run(es).born
                            && 3 in Run(es).pc && Dated(Run(es).pc[3]) && Run(es).born[k] < Run(es).pc[3].since
  {
    var e0 := Orphaned();
    var e1 := e0 + [StopRead(3, 3), ReadCount(3)];
    RunAfter(e0, [StopRead(3, 3), ReadCount(3)]);
    CountsRefs(Run(e0), 3, 3, Stopping);
    LossShown(e1, 3, "a", 3, 4);
    assert Holds(Run(e1).elem, 4, 3);
  }

  /** The regions that an atomic method of module Element consists of, taken by thread 0. */
  function Regions(e: Element.Event): seq<Event>
  {
    match e
    case Spawn(n) => [Event.Spawn(n)]
    case Get(n) => [Find(0, n), Check(0)] + [Lookup(0), Record(0)]
    case Hold(i) => [Own(0, i)] + [Lookup(0), Record(0)]
    case Drop(k) => [Uncount(0, k)] + [Collect(0)]
    case Halt(i) => [Event.Halt(i)]
    case Stop(i) => [StopRead(0, i), ReadCount(0)] + [Collect(0)]
    case Abort(i) => [AbortRead(0, i), ReadCount(0)] + [Collect(0)]
  }

  function Cut(es: seq<Element.Event>): seq<Event>
  {
    if es == [] then [] else Cut(es[..|es| - 1]) + Regions(es[|es| - 1])
  }

  /** Nobody is between two regions. */
  predicate Quiet(s: Race, e: Elem) { s.pc == map[] && s.elem == e }

  /** What a thread without a position cannot do. */
  lemma Idle(s: Race, e: Event)
    requires s.pc == map[] && (e.Check? || e.Lookup? || e.Record? || e.ReadCount? || e.Collect?)
    ensures Next(s, e) == s.(clock := s.clock + 1)
  {
  }

  lemma GetIsCut(s: Race, n: Name)
    requires s.pc == map[] && Known(s.elem)
    ensures Quiet(After(s, Regions(Get(n))), Apply(s.elem, Get(n)))
  {
    if n in s.elem.atoms && s.elem.atoms[n] !in s.elem.halted {
      GetsInOne(s, 0, n);
    } else {
      AfterTwo(s, Find(0, n), Check(0));
      var y := After(s, [Find(0, n), Check(0)]);
      assert y == s.(clock := s.clock + 2);
      NobodyAdds(y);
      AfterBoth(s, [Find(0, n), Check(0)], [Lookup(0), Record(0)]);
    }
  }

  lemma NobodyAdds(s: Race)
    requires s.pc == map[]
    ensures After(s, [Lookup(0), Record(0)]) == s.(clock := s.clock + 2)
  {
    AfterTwo(s, Lookup(0), Record(0));
    Idle(s, Lookup(0));
  }

  lemma HoldIsCut(s: Race, i: Inst)
    requires s.pc == map[] && Known(s.elem)
    ensures Quiet(After(s, Regions(Hold(i))), Apply(s.elem, Hold(i)))
  {
    AfterBoth(s, [Own(0, i)], [Lookup(0), Record(0)]);
    AfterOne(s, Own(0, i));
    if i in s.elem.name {
      AddsRef(After(s, [Own(0, i)]), 0, i);
    } else {
      NobodyAdds(After(s, [Own(0, i)]));
    }
  }

  lemma CountedThenDeleted(s: Race, i: Inst, job: Job)
    requires s.pc == map[] && Enabled(s, Begin(0, i, job)) && !job.Draining?
    ensures Quiet(Next(Counted(s, 0, i, job), Collect(0)),
                  if job.Stopping? then Stopped(s.elem, i) else Released(s.elem, i))
  {
  }

  /** A collecting method whose two reads are followed by its deletion. */
  lemma CollectorIsCut(s: Race, i: Inst, job: Job)
    requires s.pc == map[] && Enabled(s, Begin(0, i, job)) && !job.Draining?
    ensures Quiet(After(s, [Begin(0, i, job), ReadCount(0)] + [Collect(0)]),
                  if job.Stopping? then Stopped(s.elem, i) else Released(s.elem, i))
  {
    var first := [Begin(0, i, job), ReadCount(0)];
    CountsRefs(s, 0, i, job);
    CountedThenDeleted(s, i, job);
    AfterBoth(s, first, [Collect(0)]);
    AfterOne(After(s, first), Collect(0));
  }

  lemma NobodyCounts(s: Race, i: Inst, job: Job)
    requires s.pc == map[] && !Enabled(s, Begin(0, i, job))
    ensures After(s, [Begin(0, i, job), ReadCount(0)]) == s.(clock := s.clock + 2)
  {
    AfterTwo(s, Begin(0, i, job), ReadCount(0));
    Idle(s.(clock := s.clock + 1), ReadCount(0));
  }

  lemma NobodyCollects(s: Race, i: Inst, job: Job)
    requires s.pc == map[] && !Enabled(s, Begin(0, i, job))
    ensures Quiet(After(s, [Begin(0, i, job), ReadCount(0)] + [Collect(0)]), s.elem)
  {
    NobodyCounts(s, i, job);
    AfterBoth(s, [Begin(0, i, job), ReadCount(0)], [Collect(0)]);
    AfterOne(s.(clock := s.clock + 2), Collect(0));
    Idle(s.(clock := s.clock + 2), Collect(0));
  }

  lemma StopIsCut(s: Race, i: Inst)
    requires s.pc == map[]
    ensures Quiet(After(s, Regions(Stop(i))), Apply(s.elem, Stop(i)))
  {
    if i in s.elem.name {
      CollectorIsCut(s, i, Stopping);
    } else {
      NobodyCollects(s, i, Stopping);
    }
  }

  lemma AbortIsCut(s: Race, i: Inst)
    requires s.pc == map[]
    ensures Quiet(After(s, Regions(Abort(i))), Apply(s.elem, Abort(i)))
  {
    if i in s.elem.name && i in s.elem.halted {
      CollectorIsCut(s, i, Aborting);
    } else {
      NobodyCollects(s, i, Aborting);
    }
  }

  lemma DropIsCut(s: Race, k: TrackerId)
    requires s.pc == map[] && Element.Inv(s.elem)
    ensures Quiet(After(s, Regions(Drop(k))), Apply(s.elem, Drop(k)))
  {
    AfterBoth(s, [Uncount(0, k)], [Collect(0)]);
    AfterOne(s, Uncount(0, k));
    AfterOne(Next(s, Uncount(0, k)), Collect(0));
    if k in s.elem.trackers && !s.elem.trackers[k].released {
      DropsInTwo(s, k);
    } else {
      Idle(s.(clock := s.clock + 1), Collect(0));
    }
  }

  lemma DropsInTwo(s: Race, k: TrackerId)
    requires s.pc == map[] && Element.Inv(s.elem) && k in s.elem.trackers && !s.elem.trackers[k].released
    ensures Quiet(Next(Next(s, Uncount(0, k)), Collect(0)), Release(s.elem, k))
  {
    ReleaseIsUncountAndCollect(s.elem, k);
  }

  lemma EventIsCut(s: Race, e: Element.Event)
    requires s.pc == map[] && Element.Inv(s.elem)
    ensures Quiet(After(s, Regions(e)), Apply(s.elem, e))
  {
    match e
    case Get(n) => GetIsCut(s, n);
    case Hold(i) => HoldIsCut(s, i);
    case Drop(k) => DropIsCut(s, k);
    case Stop(i) => StopIsCut(s, i);
    case Abort(i) => AbortIsCut(s, i);
    case Spawn(n) => AfterOne(s, Event.Spawn(n));
    case Halt(i) => AfterOne(s, Event.Halt(i));
  }

  /** The atomic runs of module Element are among the runs here: those in which one thread takes all
      regions of a method before anybody else moves. */
  lemma {:induction false} AtomicIsCut(es: seq<Element.Event>)
    ensures Quiet(Run(Cut(es)), Element.Run(es))
  {
    if es != [] {
      var front, e := es[..|es| - 1], es[|es| - 1];
      AtomicIsCut(front);
      Element.RunKeeps(front);
      RunAfter(Cut(front), Regions(e));
      EventIsCut(Run(Cut(front)), e);
    }
  }

  /** Before its last region, an atomic collector has changed no entry and no reference state, has
      read the current one, and has seen every reference there is. */
  ghost predicate Poised(s: Race, z: Race)
  {
    && z.elem.atoms == s.elem.atoms && z.elem.refStates == s.elem.refStates && z.elem.name == s.elem.name
    && z.born == s.born
    && (forall k, i :: Holds(z.elem, k, i) ==> Holds(s.elem, k, i) && z.elem.trackers[k].st == s.elem.trackers[k].st)
    && (0 in z.pc && z.pc[0].Collecting? ==>
          var p := z.pc[0];
          p.counted >= s.clock && p.inst in s.elem.name && p.read == StateOf(s.elem, s.elem.name[p.inst]))
  }

  lemma DropIsPoised(s: Race, k: TrackerId)
    requires s.pc == map[] && Element.Inv(s.elem)
    ensures Poised(s, Next(s, Uncount(0, k)))
  {
  }

  lemma CollectorIsPoised(s: Race, i: Inst, job: Job)
    requires s.pc == map[] && !job.Draining?
    ensures Poised(s, After(s, [Begin(0, i, job), ReadCount(0)]))
  {
    if Enabled(s, Begin(0, i, job)) {
      CountsRefs(s, 0, i, job);
    } else {
      NobodyCounts(s, i, job);
    }
  }

  /** The regions of an atomic collector before its last. */
  function Opening(e: Element.Event): seq<Event>
    requires e.Drop? || e.Stop? || e.Abort?
    ensures Regions(e) == Opening(e) + [Collect(0)]
  {
    match e
    case Drop(k) => [Uncount(0, k)]
    case Stop(i) => [StopRead(0, i), ReadCount(0)]
    case Abort(i) => [AbortRead(0, i), ReadCount(0)]
  }

  lemma OpeningIsPoised(s: Race, e: Element.Event)
    requires s.pc == map[] && Element.Inv(s.elem) && (e.Drop? || e.Stop? || e.Abort?)
    ensures Poised(s, After(s, Opening(e)))
  {
    match e
    case Drop(k) => AfterOne(s, Uncount(0, k)); DropIsPoised(s, k);
    case Stop(i) => CollectorIsPoised(s, i, Stopping);
    case Abort(i) => CollectorIsPoised(s, i, Aborting);
  }

  /** So it overlooks nothing. */
  lemma PoisedSeesAll(s: Race, z: Race, i: Inst)
    requires Inv(s) && Current(s.elem) && Poised(s, z)
    ensures !Overlooks(z, Collect(0), i)
  {
    forall k | Holds(z.elem, k, i)
      ensures 0 in z.pc && z.pc[0].Collecting? && z.pc[0].inst == i ==> !Unseen(z, z.pc[0], k)
    {
      assert Holds(s.elem, k, i);
    }
  }

  /** The regions of an atomic event, the last one apart. */
  lemma CutEndsWith(es: seq<Element.Event>, e: Element.Event) returns (fs: seq<Event>)
    requires e.Drop? || e.Stop? || e.Abort?
    ensures Poised(Run(Cut(es)), Run(fs)) && Next(Run(fs), Collect(0)).elem == Apply(Element.Run(es), e)
  {
    AtomicIsCut(es);
    Element.RunKeeps(es);
    var s := Run(Cut(es));
    fs := Cut(es) + Opening(e);
    OpeningIsPoised(s, e);
    RunAfter(Cut(es), Opening(e));
    EventIsCut(s, e);
    RunAfter(Cut(es), Regions(e));
    RunMore(fs, Collect(0));
    assert fs + [Collect(0)] == Cut(es) + Regions(e);
  }

  lemma AtomicCollectorKeeps(es: seq<Element.Event>, e: Element.Event, n: Name, i: Inst)
    requires (e.Drop? || e.Stop? || e.Abort?) && Listed(Element.Run(es), n, i)
    requires Referenced(Apply(Element.Run(es), e), i)
    ensures Listed(Apply(Element.Run(es), e), n, i)
  {
    AtomicIsCut(es);
    Element.RunKeeps(es);
    RunKeeps(Cut(es));
    var fs := CutEndsWith(es, e);
    PoisedSeesAll(Run(Cut(es)), Run(fs), i);
    ReferencedLeavesExactly(fs, Collect(0), n, i);
  }

  /** The atomic case: with the element's methods and `Release` taken as one step each, no
      referenced instance leaves the table except by replacement. */
  lemma {:induction false} ReferencedStaysListed(es: seq<Element.Event>, e: Element.Event, n: Name)
    requires n in Element.Run(es).atoms && e != Element.Event.Spawn(n)
    requires Referenced(Apply(Element.Run(es), e), Element.Run(es).atoms[n])
    ensures n in Apply(Element.Run(es), e).atoms && Apply(Element.Run(es), e).atoms[n] == Element.Run(es).atoms[n]
  {
    if e.Drop? || e.Stop? || e.Abort? {
      AtomicCollectorKeeps(es, e, n, Element.Run(es).atoms[n]);
    }
  }
}
