/** The element's table of atoms and reference states, its methods taken as atomic. */
module Element {
  import opened RefCells

  type Name = string
  type StId = nat       // a reference state
  type TrackerId = nat

  datatype Tracker = Tracker(st: StId, inst: Inst, released: bool)

  /** `name` and `halted` describe the instances created so far; `cells` the reference states. */
  datatype Elem = Elem(atoms: map<Name, Inst>, name: map<Inst, Name>, halted: set<Inst>,
                       refStates: map<Name, StId>, cells: map<StId, Cells>,
                       trackers: map<TrackerId, Tracker>, next: nat)

  function Empty(): Elem { Elem(map[], map[], {}, map[], map[], map[], 1) }

  function CellsOf(s: Elem, st: StId): Cells { if st in s.cells then s.cells[st] else map[] }

  /** Finds the reference state of a name, creating it if there is none. */
  function WithState(s: Elem, n: Name): (r: Elem)
    ensures n in r.refStates
  {
    if n in s.refStates then s
    else s.(refStates := s.refStates[n := s.next], cells := s.cells[s.next := map[]], next := s.next + 1)
  }

  /** Records a tracker for `i` in a reference state. */
  function WithTracker(s: Elem, st: StId, i: Inst): Elem
  {
    s.(cells := s.cells[st := AddCell(CellsOf(s, st), i)],
       trackers := s.trackers[s.next := Tracker(st, i, false)], next := s.next + 1)
  }

  function WithRef(s: Elem, i: Inst): Elem
    requires i in s.name
  {
    var y := WithState(s, s.name[i]);
    WithTracker(y, y.refStates[s.name[i]], i)
  }

  /** What a look at the reference states finds. */
  datatype Read = NoState | State(st: StId)

  function StateOf(s: Elem, n: Name): Read { if n in s.refStates then State(s.refStates[n]) else NoState }

  function CountIn(s: Elem, r: Read, i: Inst): nat { if r.State? then Count(CellsOf(s, r.st), i) else 0 }

  function RefCount(s: Elem, n: Name, i: Inst): nat { CountIn(s, StateOf(s, n), i) }

  function DropEntry(s: Elem, n: Name, i: Inst): (r: Elem)
    ensures r == s.(atoms := r.atoms) && (r.atoms == s.atoms || r.atoms == s.atoms - {n})
  {
    if n in s.atoms && s.atoms[n] == i then s.(atoms := s.atoms - {n}) else s
  }

  /** Retires the reference state of the name if the one that was read before is empty now. */
  function Retire(s: Elem, n: Name, r: Read): (y: Elem)
    ensures y == s.(refStates := y.refStates) && (y.refStates == s.refStates || y.refStates == s.refStates - {n})
  {
    if r.State? && CellsOf(s, r.st) == map[] then s.(refStates := s.refStates - {n}) else s
  }

  /** The hook of a drained cell of `i` in the state `st`. */
  function Drained(s: Elem, n: Name, st: StId, i: Inst): Elem
  {
    if n in s.atoms && s.atoms[n] == i && i !in s.halted then s
    else
      var y := DropEntry(s, n, i);
      if n !in y.atoms then Retire(y, n, State(st)) else y
  }

  /** The deletion in `elementAtomRelease`, after `r` was read and the count found zero. */
  function AbortDelete(s: Elem, i: Inst, r: Read): Elem
    requires i in s.name
  {
    var n := s.name[i];
    if n !in s.atoms || s.atoms[n] != i then s else Retire(DropEntry(s, n, i), n, r)
  }

  function Released(s: Elem, i: Inst): Elem
    requires i in s.name
  {
    if i !in s.halted || RefCount(s, s.name[i], i) > 0 then s else AbortDelete(s, i, StateOf(s, s.name[i]))
  }

  /** The deletion in `elementAtomStopping`, after `r` was read and the count found zero. */
  function StopDelete(s: Elem, i: Inst, r: Read): Elem
    requires i in s.name
  {
    Retire(DropEntry(s, s.name[i], i), s.name[i], r)
  }

  function Stopped(s: Elem, i: Inst): Elem
    requires i in s.name
  {
    if RefCount(s, s.name[i], i) > 0 then s else StopDelete(s, i, StateOf(s, s.name[i]))
  }

  /** Release of a tracker: flag, cell, and collection if the cell drained. */
  function Release(s: Elem, k: TrackerId): Elem
  {
    if k !in s.trackers || s.trackers[k].released || s.trackers[k].inst !in s.name then s
    else
      var t := s.trackers[k];
      var cells := DropCell(CellsOf(s, t.st), t.inst);
      var y := s.(trackers := s.trackers[k := t.(released := true)], cells := s.cells[t.st := cells]);
      if t.inst in CellsOf(s, t.st) && t.inst !in cells then Drained(y, s.name[t.inst], t.st, t.inst) else y
  }

  /** Resolves a call that carries the instance id its sender knows; 0 is no instance id. */
  function Resolve(s: Elem, n: Name, caller: Inst): (r: (bool, Inst))
  {
    if caller != 0 && n in s.atoms && s.atoms[n] !in s.halted && s.atoms[n] == caller then (true, s.atoms[n])
    else (false, 0)
  }

  /** The methods in the code's own order of tests and updates. */
  class ElementLocal {
    var atoms: map<Name, Inst>
    var name: map<Inst, Name>
    var halted: set<Inst>
    var refStates: map<Name, StId>
    var cells: map<StId, Cells>
    var trackers: map<TrackerId, Tracker>
    var next: nat

    ghost function Abs(): Elem
      reads this
    {
      Elem(atoms, name, halted, refStates, cells, trackers, next)
    }

    constructor ()
      ensures Abs() == Empty()
    {
      atoms, name, halted, refStates, cells, trackers, next := map[], map[], {}, map[], map[], map[], 1;
    }

    /** The two locked regions of `addRefAtom`. */
    method FindRefState(n: Name) returns (st: StId)
      modifies this
      ensures Abs() == WithState(old(Abs()), n) && st == refStates[n]
    {
      if n in refStates {
        return refStates[n];
      }
      st := next;
      refStates, cells, next := refStates[n := st], cells[st := map[]], next + 1;
    }

    method AddRef(st: StId, i: Inst) returns (k: TrackerId)
      modifies this
      ensures k == old(next) && Abs() == WithTracker(old(Abs()), st, i)
    {
      var c: Cells := if st in cells then cells[st] else map[];
      cells := cells[st := c[i := (if i in c then c[i] else 0) + 1]];
      k := next;
      trackers := trackers[k := Tracker(st, i, false)];
      next := next + 1;
    }

    method AddRefAtom(i: Inst) returns (k: TrackerId)
      requires i in name
      modifies this
      ensures k == next - 1 && Abs() == WithRef(old(Abs()), i)
    {
      var st := FindRefState(name[i]);
      k := AddRef(st, i);
    }

    method OnInstanceRefsDrained(n: Name, st: StId, i: Inst)
      modifies this
      ensures Abs() == Drained(old(Abs()), n, st, i)
    {
      var mine := n in atoms && atoms[n] == i;
      if mine && i !in halted {
        return;
      }
      if mine && i in halted {
        atoms := atoms - {n};
      }
      if st !in cells || cells[st] == map[] {
        if n !in atoms {
          refStates := refStates - {n};
        }
      }
    }

    /** The reads with which both collecting methods begin, the state first and then its count. */
    method ReadState(n: Name) returns (r: Read)
      ensures r == StateOf(Abs(), n)
    {
      return if n in refStates then State(refStates[n]) else NoState;
    }

    method ReadCount(r: Read, i: Inst) returns (c: nat)
      ensures c == CountIn(Abs(), r, i)
    {
      if r.NoState? {
        return 0;
      }
      return if r.st in cells && i in cells[r.st] then cells[r.st][i] else 0;
    }

    method RetireState(n: Name, r: Read)
      modifies this`refStates
      ensures Abs() == Retire(old(Abs()), n, r)
    {
      if r.State? && (r.st !in cells || cells[r.st] == map[]) {
        refStates := refStates - {n};
      }
    }

    /** The deletions with which they end. */
    method DeleteReleased(i: Inst, r: Read)
      requires i in name
      modifies this
      ensures Abs() == AbortDelete(old(Abs()), i, r)
    {
      var n := name[i];
      if n !in atoms || atoms[n] != i {
        return;
      }
      atoms := atoms - {n};
      RetireState(n, r);
    }

    method DeleteStopping(i: Inst, r: Read)
      requires i in name
      modifies this
      ensures Abs() == StopDelete(old(Abs()), i, r)
    {
      var n := name[i];
      if n in atoms && atoms[n] == i {
        atoms := atoms - {n};
      }
      RetireState(n, r);
    }

    method ElementAtomRelease(i: Inst)
      requires i in name
      modifies this
      ensures Abs() == Released(old(Abs()), i)
    {
      if i !in halted {
        return;
      }
      var r := ReadState(name[i]);
      var count := ReadCount(r, i);
      if count > 0 {
        return;
      }
      DeleteReleased(i, r);
    }

    method ElementAtomStopping(i: Inst)
      requires i in name
      modifies this
      ensures Abs() == Stopped(old(Abs()), i)
    {
      var r := ReadState(name[i]);
      var count := ReadCount(r, i);
      if count > 0 {
        return;
      }
      DeleteStopping(i, r);
    }

    method GetAtomFromRemote(n: Name, caller: Inst) returns (ok: bool, i: Inst)
      ensures (ok, i) == Resolve(Abs(), n, caller)
      ensures ok <==> caller != 0 && n in atoms && atoms[n] == caller && caller !in halted
      ensures i == if ok then caller else 0
    {
      if caller == 0 {
        return false, 0;
      }
      if n in atoms && atoms[n] !in halted {
        if atoms[n] != caller {
          return false, 0;
        }
        return true, atoms[n];
      }
      return false, 0;
    }
  }

  datatype Event =
    | Spawn(n: Name)     // insert a new instance, over the old entry if there is one
    | Get(n: Name)       // GetAtomID of a local caller that finds an entry not halted
    | Hold(i: Inst)      // the spawner of i records its own reference
    | Drop(k: TrackerId)
    | Halt(i: Inst)
    | Stop(i: Inst)
    | Abort(i: Inst)     // elementAtomRelease after a failed start

  function Apply(s: Elem, e: Event): Elem
  {
    match e
    case Spawn(n) => s.(atoms := s.atoms[n := s.next], name := s.name[s.next := n], next := s.next + 1)
    case Get(n) => if n in s.atoms && s.atoms[n] in s.name && s.atoms[n] !in s.halted then WithRef(s, s.atoms[n]) else s
    case Hold(i) => if i in s.name then WithRef(s, i) else s
    case Drop(k) => Release(s, k)
    case Halt(i) => if i in s.name then s.(halted := s.halted + {i}) else s
    case Stop(i) => if i in s.name then Stopped(s, i) else s
    case Abort(i) => if i in s.name then Released(s, i) else s
  }

  function Run(es: seq<Event>): Elem
  {
    if es == [] then Empty() else Apply(Run(es[..|es| - 1]), es[|es| - 1])
  }

  /** The trackers of a reference state that are bound to `i` and not released. */
  ghost function Open(s: Elem, st: StId, i: Inst): set<TrackerId>
  {
    set k | k in s.trackers && s.trackers[k] == Tracker(st, i, false)
  }

  ghost predicate Referenced(s: Elem, i: Inst)
  {
    exists k :: k in s.trackers && s.trackers[k].inst == i && !s.trackers[k].released
  }

  /** The cell is the number of open trackers, and is absent when there are none. */
  ghost predicate CellOk(s: Elem, st: StId, i: Inst)
  {
    Count(CellsOf(s, st), i) == |Open(s, st, i)| && (i in CellsOf(s, st) ==> CellsOf(s, st)[i] > 0)
  }

  ghost predicate Conserved(s: Elem) { forall st, i :: CellOk(s, st, i) }

  /** Whoever still holds a reference holds it in the current reference state of the name. */
  ghost predicate Current(s: Elem)
  {
    forall k :: k in s.trackers && !s.trackers[k].released ==>
      s.trackers[k].inst in s.name && s.name[s.trackers[k].inst] in s.refStates
      && s.refStates[s.name[s.trackers[k].inst]] == s.trackers[k].st
  }

  ghost predicate Known(s: Elem)
  {
    && (forall n :: n in s.atoms ==> s.atoms[n] in s.name && s.name[s.atoms[n]] == n)
    && (forall n :: n in s.refStates ==> s.refStates[n] in s.cells)
    && (forall st :: st in s.cells ==> st < s.next)
    && (forall k :: k in s.trackers ==> k < s.next && s.trackers[k].st in s.cells)
    && (forall i :: i in s.name ==> 0 < i < s.next) && s.halted <= s.name.Keys
    && s.next > 0
  }

  ghost predicate Inv(s: Elem) { Known(s) && Conserved(s) && Current(s) }

  /** A count read through the name is the number of open references. */
  lemma CountIsReferenced(s: Elem, i: Inst)
    requires Inv(s) && i in s.name
    ensures RefCount(s, s.name[i], i) > 0 <==> Referenced(s, i)
  {
    var n := s.name[i];
    if n in s.refStates {
      assert CellOk(s, s.refStates[n], i);
      if Open(s, s.refStates[n], i) != {} {
        var k :| k in Open(s, s.refStates[n], i);
      }
    }
    if Referenced(s, i) {
      var k :| k in s.trackers && s.trackers[k].inst == i && !s.trackers[k].released;
      assert k in Open(s, s.refStates[n], i);
    }
  }

  lemma EmptyStateIsUnused(s: Elem, st: StId, k: TrackerId)
    requires Conserved(s) && CellsOf(s, st) == map[] && k in s.trackers && s.trackers[k].st == st
    ensures s.trackers[k].released
  {
    assert CellOk(s, st, s.trackers[k].inst);
    assert k !in Open(s, st, s.trackers[k].inst);
  }

  lemma SameTrackersSameCells(s: Elem, z: Elem)
    requires Conserved(s) && z.trackers == s.trackers && z.cells == s.cells
    ensures Conserved(z)
  {
    forall st, i ensures CellOk(z, st, i) {
      assert CellOk(s, st, i) && Open(z, st, i) == Open(s, st, i);
    }
  }

  lemma StateKeepsConserved(s: Elem, n: Name)
    requires Known(s) && Conserved(s)
    ensures Conserved(WithState(s, n))
  {
    forall u, j ensures CellOk(WithState(s, n), u, j) {
      assert CellOk(s, u, j) && Open(WithState(s, n), u, j) == Open(s, u, j);
    }
  }

  lemma OpenAfterTracker(s: Elem, st: StId, i: Inst, u: StId, j: Inst)
    requires Known(s)
    ensures s.next !in Open(s, u, j)
    ensures Open(WithTracker(s, st, i), u, j) == if u == st && j == i then Open(s, u, j) + {s.next} else Open(s, u, j)
  {
  }

  lemma TrackerKeepsConserved(s: Elem, st: StId, i: Inst)
    requires Known(s) && Conserved(s)
    ensures Conserved(WithTracker(s, st, i))
  {
    forall u, j ensures CellOk(WithTracker(s, st, i), u, j) {
      assert CellOk(s, u, j);
      OpenAfterTracker(s, st, i, u, j);
    }
  }

  lemma StateKeepsKnown(s: Elem, n: Name)
    requires Known(s)
    ensures Known(WithState(s, n))
  {
  }

  lemma AddRefKeeps(s: Elem, i: Inst)
    requires Inv(s) && i in s.name
    ensures Inv(WithRef(s, i))
  {
    StateKeepsKnown(s, s.name[i]);
    StateKeepsConserved(s, s.name[i]);
    var y := WithState(s, s.name[i]);
    TrackerKeepsConserved(y, y.refStates[s.name[i]], i);
  }

  /** Dropping an entry or an empty reference state disturbs no reference. */
  lemma DropsKeep(s: Elem, z: Elem, n: Name)
    requires Inv(s) && z == s.(atoms := z.atoms, refStates := z.refStates)
    requires z.atoms == s.atoms || z.atoms == s.atoms - {n}
    requires z.refStates == s.refStates
          || (z.refStates == s.refStates - {n} && (n in s.refStates ==> CellsOf(s, s.refStates[n]) == map[]))
    ensures Inv(z)
  {
    SameTrackersSameCells(s, z);
    forall k | k in z.trackers && !z.trackers[k].released
      ensures z.name[z.trackers[k].inst] in z.refStates
    {
      if CellsOf(s, s.trackers[k].st) == map[] {
        EmptyStateIsUnused(s, s.trackers[k].st, k);
      }
    }
  }

  /** Release up to the collection. */
  function Uncount(s: Elem, k: TrackerId): Elem
    requires k in s.trackers
  {
    var t := s.trackers[k];
    s.(trackers := s.trackers[k := t.(released := true)], cells := s.cells[t.st := DropCell(CellsOf(s, t.st), t.inst)])
  }

  lemma UncountKeepsConserved(s: Elem, k: TrackerId)
    requires Known(s) && Conserved(s) && k in s.trackers && !s.trackers[k].released
    ensures Conserved(Uncount(s, k))
  {
    var t, z := s.trackers[k], Uncount(s, k);
    assert k in Open(s, t.st, t.inst);
    forall u, j ensures CellOk(z, u, j) {
      assert CellOk(s, u, j);
      assert Open(z, u, j) == if u == t.st && j == t.inst then Open(s, u, j) - {k} else Open(s, u, j);
    }
  }

  lemma UncountKeeps(s: Elem, k: TrackerId)
    requires Inv(s) && k in s.trackers && !s.trackers[k].released
    ensures Inv(Uncount(s, k))
  {
    UncountKeepsConserved(s, k);
  }

  /** A tracker found unreleased has its cell, and releasing it takes one off that cell alone. */
  lemma UncountTakesOne(s: Elem, k: TrackerId, st: StId, j: Inst)
    requires Inv(s) && k in s.trackers && !s.trackers[k].released
    ensures var t := s.trackers[k];
            Count(CellsOf(Uncount(s, k), st), j)
            == Count(CellsOf(s, st), j) - (if st == t.st && j == t.inst then 1 else 0)
  {
    var t := s.trackers[k];
    assert CellOk(s, t.st, t.inst) && k in Open(s, t.st, t.inst);
  }

  lemma ReleaseIsUncountAndCollect(s: Elem, k: TrackerId)
    requires Inv(s) && k in s.trackers && !s.trackers[k].released
    ensures var t, y := s.trackers[k], Uncount(s, k);
            Release(s, k) == if t.inst !in CellsOf(y, t.st) then Drained(y, s.name[t.inst], t.st, t.inst) else y
  {
    var t := s.trackers[k];
    assert CellOk(s, t.st, t.inst) && k in Open(s, t.st, t.inst);
  }

  lemma ReleaseKeeps(s: Elem, k: TrackerId)
    requires Inv(s)
    ensures Inv(Release(s, k))
  {
    if k in s.trackers && !s.trackers[k].released {
      UncountKeeps(s, k);
      ReleaseIsUncountAndCollect(s, k);
      DropsKeep(Uncount(s, k), Release(s, k), s.name[s.trackers[k].inst]);
    }
  }

  lemma StepKeeps(s: Elem, e: Event)
    requires Inv(s)
    ensures Inv(Apply(s, e))
  {
    match e
    case Spawn(n) => SameTrackersSameCells(s, Apply(s, e));
    case Get(n) => if n in s.atoms && s.atoms[n] !in s.halted { AddRefKeeps(s, s.atoms[n]); }
    case Hold(i) => if i in s.name { AddRefKeeps(s, i); }
    case Drop(k) => ReleaseKeeps(s, k);
    case Halt(i) => SameTrackersSameCells(s, Apply(s, e));
    case Stop(i) => if i in s.name { DropsKeep(s, Apply(s, e), s.name[i]); }
    case Abort(i) => if i in s.name { DropsKeep(s, Apply(s, e), s.name[i]); }
  }

  lemma {:induction false} RunKeeps(es: seq<Event>)
    ensures Inv(Run(es))
  {
    if es == [] {
      forall st, i ensures CellOk(Empty(), st, i) {
        assert Open(Empty(), st, i) == {};
      }
    } else {
      RunKeeps(es[..|es| - 1]);
      StepKeeps(Run(es[..|es| - 1]), es[|es| - 1]);
    }
  }

  /** In every run, across any number of respawns: each cell is the number of unreleased trackers
      bound to its instance and is positive, and all of them sit in the current reference state. */
  lemma ReferencesAreConserved(es: seq<Event>, i: Inst)
    requires i in Run(es).name
    ensures var s := Run(es);
            && RefCount(s, s.name[i], i)
               == |set k | k in s.trackers && s.trackers[k].inst == i && !s.trackers[k].released|
            && (s.name[i] in s.refStates ==>
                  var cells := CellsOf(s, s.refStates[s.name[i]]);
                  i in cells ==> cells[i] > 0)
  {
    RunKeeps(es);
    var s, n := Run(es), Run(es).name[i];
    var open := set k | k in s.trackers && s.trackers[k].inst == i && !s.trackers[k].released;
    assert n in s.refStates ==> CellOk(s, s.refStates[n], i);
    if n in s.refStates {
      assert open == Open(s, s.refStates[n], i);
    } else {
      assert open == {};
    }
  }

  /** Releasing twice is releasing once; a release takes one off the cell of its own instance and
      leaves all others alone, so a late release by a holder of the old instance does not touch the
      count of the respawned one. */
  lemma ReleaseTouchesOneCell(s: Elem, k: TrackerId, st: StId, j: Inst)
    requires Inv(s) && k in s.trackers
    ensures Release(Release(s, k), k) == Release(s, k)
    ensures var t := s.trackers[k];
            Count(CellsOf(Release(s, k), st), j)
            == Count(CellsOf(s, st), j) - (if !t.released && st == t.st && j == t.inst then 1 else 0)
  {
    if !s.trackers[k].released {
      UncountTakesOne(s, k, st, j);
      ReleaseIsUncountAndCollect(s, k);
    }
  }

  /** The last release of a halted instance that still is the entry removes the entry. */
  lemma LastReleaseCollects(s: Elem, k: TrackerId)
    requires Inv(s) && k in s.trackers && !s.trackers[k].released && s.trackers[k].inst in s.halted
    requires !Referenced(Release(s, k), s.trackers[k].inst)
    ensures var n := s.name[s.trackers[k].inst];
            n in Release(s, k).atoms ==> Release(s, k).atoms[n] != s.trackers[k].inst
  {
    var t, y := s.trackers[k], Uncount(s, k);
    UncountKeeps(s, k);
    ReleaseIsUncountAndCollect(s, k);
    assert !Referenced(y, t.inst);
    CountIsReferenced(y, t.inst);
    assert CellOk(y, t.st, t.inst);
  }

  predicate Listed(s: Elem, n: Name, i: Inst) { n in s.atoms && s.atoms[n] == i }

  lemma DrainedOnlyDrops(s: Elem, m: Name, st: StId, j: Inst, n: Name, i: Inst)
    requires Listed(Drained(s, m, st, j), n, i)
    ensures Listed(s, n, i)
  {
  }

  lemma ReleaseOnlyDrops(s: Elem, k: TrackerId, n: Name, i: Inst)
    requires Listed(Release(s, k), n, i)
    ensures Listed(s, n, i)
  {
    if k in s.trackers && !s.trackers[k].released && s.trackers[k].inst in s.name && Release(s, k) != Uncount(s, k) {
      DrainedOnlyDrops(Uncount(s, k), s.name[s.trackers[k].inst], s.trackers[k].st, s.trackers[k].inst, n, i);
    }
  }

  lemma CollectorsOnlyDrop(s: Elem, j: Inst, n: Name, i: Inst)
    requires j in s.name && (Listed(Stopped(s, j), n, i) || Listed(Released(s, j), n, i))
    ensures Listed(s, n, i)
  {
  }

  lemma UnlistedStaysUnlisted(s: Elem, e: Event, n: Name, i: Inst)
    requires i in s.name && i < s.next && !Listed(s, n, i)
    ensures i in Apply(s, e).name && !Listed(Apply(s, e), n, i)
  {
    if Listed(Apply(s, e), n, i) {
      match e {
        case Drop(k) => ReleaseOnlyDrops(s, k, n, i);
        case Stop(j) => if j in s.name { CollectorsOnlyDrop(s, j, n, i); }
        case Abort(j) => if j in s.name { CollectorsOnlyDrop(s, j, n, i); }
        case _ =>
      }
    }
  }

  /** A remote call is accepted only for the listed, unhalted instance its sender means. A handle to
      an instance that lost its entry, by a respawn or otherwise, is rejected from then on. */
  lemma {:induction false} StaleHandleIsRejected(es: seq<Event>, later: seq<Event>, n: Name, caller: Inst)
    requires caller in Run(es).name && !Listed(Run(es), n, caller)
    ensures caller in Run(es + later).name && !Listed(Run(es + later), n, caller)
    ensures !Resolve(Run(es + later), n, caller).0
  {
    if later == [] {
      assert es + later == es;
    } else {
      var front := later[..|later| - 1];
      assert (es + later)[..|es + later| - 1] == es + front;
      StaleHandleIsRejected(es, front, n, caller);
      RunKeeps(es + front);
      UnlistedStaysUnlisted(Run(es + front), later[|later| - 1], n, caller);
    }
  }

  lemma RunMore(es: seq<Event>, e: Event)
    ensures Run(es + [e]) == Apply(Run(es), e)
  {
    assert (es + [e])[..|es|] == es && (es + [e])[|es|] == e;
  }

  lemma HaltedGrows(s: Elem, e: Event)
    ensures s.halted <= Apply(s, e).halted
  {
  }

  lemma {:induction false} HaltedStays(es: seq<Event>, later: seq<Event>, i: Inst)
    requires i in Run(es).halted
    ensures i in Run(es + later).halted
  {
    if later == [] {
      assert es + later == es;
    } else {
      var front := later[..|later| - 1];
      HaltedStays(es, front, i);
      assert es + later == es + front + [later[|later| - 1]];
      RunMore(es + front, later[|later| - 1]);
      HaltedGrows(Run(es + front), later[|later| - 1]);
    }
  }

  /** An instance is resolved for a remote caller exactly if the caller names it, it is the entry and
      it is not halted; nothing else is ever resolved. */
  lemma {:induction false} ResolvedExactly(es: seq<Event>, n: Name, caller: Inst)
    ensures var r := Resolve(Run(es), n, caller);
            && (r.0 <==> Listed(Run(es), n, caller) && caller !in Run(es).halted)
            && (r.0 ==> r.1 == caller) && (!r.0 ==> r.1 == 0)
  {
    RunKeeps(es);
  }

  /** Once halted, an instance is resolved in no extension of the run, listed or not. */
  lemma {:induction false} HaltedIsNeverResolved(es: seq<Event>, i: Inst, later: seq<Event>, n: Name)
    requires i in Run(es).name
    ensures !Resolve(Run(es + [Halt(i)] + later), n, i).0
  {
    RunMore(es, Halt(i));
    HaltedStays(es + [Halt(i)], later, i);
    ResolvedExactly(es + [Halt(i)] + later, n, i);
  }

  /** A respawn lists a new, running instance in place of the old one, and is resolved at once. */
  lemma {:induction false} SpawnLists(es: seq<Event>, n: Name)
    ensures var s, z := Run(es), Run(es + [Spawn(n)]);
            && z.atoms == s.atoms[n := s.next] && s.next !in s.name && z.name == s.name[s.next := n]
            && z.halted == s.halted && z.trackers == s.trackers && z.refStates == s.refStates
    ensures Resolve(Run(es + [Spawn(n)]), n, Run(es).next) == (true, Run(es).next)
  {
    RunKeeps(es);
    RunMore(es, Spawn(n));
  }

  /** `z` has one reference to `i` more than `s`. */
  ghost predicate OneMore(s: Elem, z: Elem, i: Inst)
  {
    && i in s.name && z.atoms == s.atoms && z.name == s.name && z.halted == s.halted
    && RefCount(z, s.name[i], i) == RefCount(s, s.name[i], i) + 1
    && exists k :: k !in s.trackers && k in z.trackers && z.trackers.Keys == s.trackers.Keys + {k}
                   && z.trackers[k].inst == i && !z.trackers[k].released
                   && forall j :: j in s.trackers ==> z.trackers[j] == s.trackers[j]
  }

  lemma WithRefIsOneMore(s: Elem, i: Inst)
    requires Inv(s) && i in s.name
    ensures OneMore(s, WithRef(s, i), i)
  {
    var y := WithState(s, s.name[i]);
    var k := y.next;
    assert k !in s.trackers && WithRef(s, i).trackers == s.trackers[k := Tracker(y.refStates[s.name[i]], i, false)];
    assert CellsOf(y, y.refStates[s.name[i]])
        == if s.name[i] in s.refStates then CellsOf(s, s.refStates[s.name[i]]) else map[];
  }

  /** A get of an entry that is not halted, and a spawner's own reference, count one reference to the
      instance and hand out one new tracker; a get of a halted or missing entry counts nothing. */
  lemma {:induction false} GetCountsOne(es: seq<Event>, n: Name, i: Inst)
    ensures Listed(Run(es), n, i) && i !in Run(es).halted ==> OneMore(Run(es), Run(es + [Get(n)]), i)
    ensures n !in Run(es).atoms || Run(es).atoms[n] in Run(es).halted ==> Run(es + [Get(n)]) == Run(es)
    ensures i in Run(es).name ==> OneMore(Run(es), Run(es + [Hold(i)]), i)
  {
    RunKeeps(es);
    RunMore(es, Get(n));
    RunMore(es, Hold(i));
    if i in Run(es).name {
      WithRefIsOneMore(Run(es), i);
    }
  }

  /** An instance that is not halted is listed until it is replaced or stops: neither the clean-up of a
      failed start nor the drain of its last cell touches it. */
  lemma {:induction false} UnhaltedStaysListed(es: seq<Event>, e: Event, n: Name, i: Inst)
    requires Listed(Run(es), n, i) && i !in Run(es).halted && e != Spawn(n) && e != Stop(i)
    ensures Listed(Run(es + [e]), n, i)
  {
    RunKeeps(es);
    RunMore(es, e);
    match e
    case Drop(k) =>
      if k in Run(es).trackers && !Run(es).trackers[k].released {
        ReleaseIsUncountAndCollect(Run(es), k);
      }
    case _ =>
  }

  /** An unreferenced instance that stops, or whose failed start is cleaned up, is taken off the table,
      and so is the reference state of its name once nobody of that name is referenced. */
  lemma {:induction false} UnreferencedIsCollected(es: seq<Event>, e: Event, i: Inst)
    requires i in Run(es).name && Listed(Run(es), Run(es).name[i], i) && !Referenced(Run(es), i)
    requires e == Stop(i) || (e == Abort(i) && i in Run(es).halted)
    ensures var s, n, z := Run(es), Run(es).name[i], Run(es + [e]);
            && n !in z.atoms && z.atoms == s.atoms - {n} && z.trackers == s.trackers
            && (n in z.refStates <==> n in s.refStates && CellsOf(s, s.refStates[n]) != map[])
  {
    RunKeeps(es);
    RunMore(es, e);
    CountIsReferenced(Run(es), i);
  }

  /** The last release under a name that has no entry left retires the reference state. */
  lemma {:induction false} LastReleaseRetiresState(es: seq<Event>, k: TrackerId, n: Name)
    requires k in Run(es).trackers && !Run(es).trackers[k].released && Run(es).trackers[k].inst in Run(es).name
    requires Run(es).name[Run(es).trackers[k].inst] == n
    requires var i := Run(es).trackers[k].inst; n !in Run(es).atoms || (Run(es).atoms[n] == i && i in Run(es).halted)
    requires forall j :: j in Run(es).trackers && j != k && Run(es).trackers[j].st == Run(es).trackers[k].st ==>
               Run(es).trackers[j].released
    ensures n !in Run(es + [Drop(k)]).refStates && n !in Run(es + [Drop(k)]).atoms
  {
    RunKeeps(es);
    RunMore(es, Drop(k));
    var s := Run(es);
    UncountKeeps(s, k);
    ReleaseIsUncountAndCollect(s, k);
    AllReleasedIsEmpty(Uncount(s, k), s.trackers[k].st);
  }

  /** A reference state is retired only when it is empty, and by a release only when its name has no
      entry; otherwise it stays the state of its name. */
  lemma {:induction false} StateStays(es: seq<Event>, e: Event, n: Name)
    requires n in Run(es).refStates
    ensures var s, z := Run(es), Run(es + [e]);
            if n in z.refStates then z.refStates[n] == s.refStates[n]
            else CellsOf(z, s.refStates[n]) == map[] && (e.Stop? || e.Abort? || (e.Drop? && n !in z.atoms))
  {
    RunMore(es, e);
    RunKeeps(es);
    if e.Drop? {
      DropLeavesStates(Run(es), e.k, n);
    } else {
      OthersLeaveStates(Run(es), e, n);
    }
  }

  lemma OthersLeaveStates(s: Elem, e: Event, n: Name)
    requires n in s.refStates && !e.Drop?
    ensures var z := Apply(s, e);
            if n in z.refStates then z.refStates[n] == s.refStates[n]
            else CellsOf(z, s.refStates[n]) == map[] && (e.Stop? || e.Abort?)
  {
  }

  lemma DropLeavesStates(s: Elem, k: TrackerId, n: Name)
    requires Inv(s) && n in s.refStates
    ensures var z := Release(s, k);
            if n in z.refStates then z.refStates[n] == s.refStates[n]
            else CellsOf(z, s.refStates[n]) == map[] && n !in z.atoms
  {
    if k in s.trackers && !s.trackers[k].released {
      assert s.refStates[s.name[s.trackers[k].inst]] == s.trackers[k].st;
    }
  }

  lemma AllReleasedIsEmpty(s: Elem, st: StId)
    requires Conserved(s) && forall j :: j in s.trackers && s.trackers[j].st == st ==> s.trackers[j].released
    ensures CellsOf(s, st) == map[]
  {
    forall i ensures i !in CellsOf(s, st) {
      assert CellOk(s, st, i) && Open(s, st, i) == {};
    }
    assert CellsOf(s, st).Keys == {};
  }

  /** The reference states of module RefCells are the ones kept here by identity. Both sides count
      open trackers, so objects and ids with equally many of them have equal cells. */
  lemma ObjectHasTheseCells(state: AtomRefState, s: Elem, st: StId)
    requires state.Valid() && Conserved(s)
    requires forall i :: |RefCells.Open(state.trackers, i)| == |Open(s, st, i)|
    ensures state.cells == CellsOf(s, st)
  {
    forall i ensures (i in state.cells <==> i in CellsOf(s, st)) && Count(state.cells, i) == Count(CellsOf(s, st), i) {
      assert state.CellOk(i) && CellOk(s, st, i) && |RefCells.Open(state.trackers, i)| == |Open(s, st, i)|;
    }
  }

  /** What the object does to its cells is what the region of `addRefAtom` does to them here. */
  method AddRefOfObject(state: AtomRefState, ghost s: Elem, ghost st: StId, i: Inst) returns (tr: IDTracker)
    requires state.Valid() && state.cells == CellsOf(s, st)
    modifies state
    ensures state.Valid() && state.cells == CellsOf(WithTracker(s, st, i), st)
    ensures WithTracker(s, st, i).trackers[s.next] == Tracker(st, tr.instID, tr.released)
  {
    tr := state.AddRef(i);
  }

  /** And so for the release: the same cells, the same flag, and the hook runs on both sides or on
      neither. */
  method ReleaseOfObject(tr: IDTracker, ghost s: Elem, ghost k: TrackerId) returns (drained: bool)
    requires tr.state.Valid() && tr in tr.state.trackers && Inv(s)
    requires k in s.trackers && s.trackers[k].inst == tr.instID && s.trackers[k].released == tr.released
    requires tr.state.cells == CellsOf(s, s.trackers[k].st)
    modifies tr, tr.state`cells
    ensures var t, z := s.trackers[k], if old(tr.released) then s else Uncount(s, k);
            && tr.state.cells == CellsOf(z, t.st) && z.trackers[k].released == tr.released
            && (drained ==> t.inst in s.name && Release(s, k) == Drained(z, s.name[t.inst], t.st, t.inst))
            && (!drained ==> Release(s, k) == z)
  {
    assert tr.state.CellOk(tr.instID);
    drained := tr.Release();
    assert tr.state.CellOk(tr.instID);
    if !s.trackers[k].released {
      ReleaseIsUncountAndCollect(s, k);
    }
  }
}
