/** References to atom instances: per-instance counts that outlive a respawn. */
module RefCells {
  type Inst = nat
  type Cells = map<Inst, nat>

  function Count(c: Cells, i: Inst): nat { if i in c then c[i] else 0 }

  function AddCell(c: Cells, i: Inst): Cells { c[i := Count(c, i) + 1] }

  function DropCell(c: Cells, i: Inst): Cells
  {
    if i !in c then c else if c[i] <= 1 then c - {i} else c[i := c[i] - 1]
  }

  /** The trackers of a set that are bound to `i` and not released. */
  ghost function Open(trackers: set<IDTracker>, i: Inst): set<IDTracker>
    reads trackers
  {
    set t | t in trackers && !t.released && t.instID == i
  }

  class IDTracker {
    const state: AtomRefState
    const instID: Inst
    const id: nat
    var released: bool

    constructor (state: AtomRefState, instID: Inst, id: nat)
      ensures this.state == state && this.instID == instID && this.id == id && !released
    {
      this.state, this.instID, this.id, this.released := state, instID, id, false;
    }

    /** Gives the reference back; a second call is a no-op. `drained` asks for the element hook. */
    method Release() returns (drained: bool)
      requires state.Valid() && this in state.trackers
      modifies this, state`cells
      ensures state.Valid() && released
      ensures old(released) ==> state.cells == old(state.cells) && !drained
      ensures !old(released) ==> state.cells == DropCell(old(state.cells), instID)
      ensures drained <==> !old(released) && Open(state.trackers, instID) == {}
      ensures forall i :: i != instID ==> Open(state.trackers, i) == old(Open(state.trackers, i))
    {
      if released {
        return false;
      }
      released := true;
      drained := state.ReleaseCell(instID);
      forall i ensures state.CellOk(i) && (i != instID ==> Open(state.trackers, i) == old(Open(state.trackers, i))) {
        assert old(state.CellOk(i));
        forall t ensures t in Open(state.trackers, i) <==> t in old(Open(state.trackers, i)) && t != this {}
        assert Open(state.trackers, i) == old(Open(state.trackers, i)) - {this};
        assert this in old(Open(state.trackers, instID));
      }
      assert state.CellOk(instID) && old(state.CellOk(instID));
    }
  }

  class AtomRefState {
    var cells: Cells
    var counter: nat
    ghost var trackers: set<IDTracker>  // all it ever handed out

    /** The cell is the number of unreleased trackers bound to `i`, and is absent when there are none. */
    ghost predicate CellOk(i: Inst)
      reads this, trackers
    {
      Count(cells, i) == |Open(trackers, i)| && (i in cells ==> cells[i] > 0)
    }

    ghost predicate Valid()
      reads this, trackers
    {
      (forall t :: t in trackers ==> t.state == this) && (forall i :: CellOk(i))
    }

    constructor ()
      ensures Valid() && trackers == {} && cells == map[]
    {
      cells, counter, trackers := map[], 0, {};
      new;
      forall i ensures CellOk(i) {
        assert Open(trackers, i) == {};
      }
    }

    method AddRef(i: Inst) returns (tr: IDTracker)
      requires Valid()
      modifies this
      ensures Valid() && fresh(tr) && !tr.released && tr.instID == i && tr.state == this
      ensures trackers == old(trackers) + {tr} && cells == AddCell(old(cells), i)
    {
      cells := cells[i := (if i in cells then cells[i] else 0) + 1];
      counter := counter + 1;
      tr := new IDTracker(this, i, counter);
      trackers := trackers + {tr};
      forall j ensures CellOk(j) {
        Added(tr, j);
      }
    }

    twostate lemma Added(new tr: IDTracker, j: Inst)
      requires old(Valid()) && tr !in old(trackers) && !tr.released && trackers == old(trackers) + {tr}
      requires forall t :: t in old(trackers) ==> t.released == old(t.released)
      requires cells == AddCell(old(cells), tr.instID)
      ensures CellOk(j)
    {
      assert old(CellOk(j));
      var before := old(Open(trackers, j));
      assert tr !in before;
      forall t ensures t in Open(trackers, j) <==> t in before || (t == tr && j == tr.instID) {}
      assert Open(trackers, j) == if j == tr.instID then before + {tr} else before;
    }

    method ReleaseCell(i: Inst) returns (drained: bool)
      modifies this`cells
      ensures cells == DropCell(old(cells), i)
      ensures drained == (i in old(cells) && i !in cells)
    {
      if i !in cells {
        return false;
      }
      var cnt := cells[i] as int - 1;
      if cnt <= 0 {
        cells := cells - {i};
        return true;
      }
      cells := cells[i := cnt];
      return false;
    }

    method RefCount(i: Inst) returns (n: nat)
      requires Valid()
      ensures n == |Open(trackers, i)|
    {
      assert CellOk(i);
      n := if i in cells then cells[i] else 0;
    }

    method IsEmpty() returns (b: bool)
      requires Valid()
      ensures b <==> forall t :: t in trackers ==> t.released
    {
      b := |cells| == 0;
      if b {
        forall t | t in trackers ensures t.released {
          assert CellOk(t.instID);
          assert t !in Open(trackers, t.instID);
        }
      } else {
        ghost var i :| i in cells;
        assert CellOk(i);
        ghost var t :| t in Open(trackers, i);
      }
    }
  }
}
