/** The wait graph of synchronous calls: each blocked goroutine points at the one it waits for. */
module WaitGraph {
  /** A goroutine id; 0 stands for none. */
  type Gid = nat
  type Graph = map<Gid, Gid>

  function Next(g: Graph, x: Gid): Gid
  {
    if x == 0 || x !in g then 0 else g[x]
  }

  /** Where n wait edges lead. */
  function Walk(g: Graph, x: Gid, n: nat): Gid
  {
    if n == 0 then x else Next(g, Walk(g, x, n - 1))
  }

  ghost predicate Reaches(g: Graph, x: Gid, y: Gid)
  {
    exists n: nat :: Walk(g, x, n) == y
  }

  ghost predicate Acyclic(g: Graph)
  {
    forall x: Gid, n: nat :: x != 0 && n > 0 ==> Walk(g, x, n) != x
  }

  /** Registering the edge would close a cycle. */
  ghost predicate Deadlock(g: Graph, caller: Gid, target: Gid)
  {
    caller != 0 && Reaches(g, target, caller)
  }

  /** Met within the first n positions of the walk from x. */
  ghost predicate Visited(g: Graph, x: Gid, n: nat, y: Gid)
  {
    exists i: nat :: i < n && Walk(g, x, i) == y
  }

  /** In an acyclic graph the walk is somewhere new as long as it has not ended. */
  lemma AlwaysNew(g: Graph, x: Gid, n: nat)
    requires Acyclic(g) && Walk(g, x, n) != 0
    ensures !Visited(g, x, n, Walk(g, x, n))
  {
    forall i: nat | i < n ensures Walk(g, x, i) != Walk(g, x, n) {
      if Walk(g, x, i) != 0 {
        NoRevisit(g, x, i, n);
      }
    }
  }

  lemma VisitedGrows(g: Graph, x: Gid, n: nat, seen: set<Gid>)
    requires forall y :: y in seen ==> Visited(g, x, n, y)
    ensures forall y :: y in seen + {Walk(g, x, n)} ==> Visited(g, x, n + 1, y)
  {
    forall y | y in seen + {Walk(g, x, n)} ensures Visited(g, x, n + 1, y) {
      if y in seen {
        var i: nat :| i < n && Walk(g, x, i) == y;
        assert i < n + 1;
      }
    }
  }

  /** A walk that ended without meeting `y` never meets it. */
  lemma NeverReaches(g: Graph, x: Gid, n: nat, y: Gid)
    requires y != 0 && (Walk(g, x, n) == 0 || Walk(g, x, n) !in g)
    requires forall i: nat :: i <= n ==> Walk(g, x, i) != y
    ensures !Reaches(g, x, y)
  {
    assert Walk(g, x, n + 1) == 0;
    forall j: nat ensures Walk(g, x, j) != y {
      if j > n {
        EndedStays(g, x, n + 1, j);
      }
    }
  }

  lemma {:induction false} WalkPlus(g: Graph, x: Gid, i: nat, j: nat)
    ensures Walk(g, x, i + j) == Walk(g, Walk(g, x, i), j)
  {
    if j > 0 {
      WalkPlus(g, x, i, j - 1);
    }
  }

  lemma {:induction false} EndedStays(g: Graph, x: Gid, i: nat, j: nat)
    requires i <= j && Walk(g, x, i) == 0
    ensures Walk(g, x, j) == 0
  {
    if i < j {
      EndedStays(g, x, i, j - 1);
    }
  }

  /** In an acyclic graph a walk never comes back to where it was. */
  lemma NoRevisit(g: Graph, x: Gid, i: nat, j: nat)
    requires Acyclic(g) && i < j && Walk(g, x, i) != 0
    ensures Walk(g, x, i) != Walk(g, x, j)
  {
    WalkPlus(g, x, i, j - i);
  }

  /** Until it meets `caller`, a walk does not notice that the edge of `caller` changed. */
  lemma {:induction false} WalkAvoids(g: Graph, h: Graph, caller: Gid, x: Gid, n: nat)
    requires forall y :: y != caller ==> Next(g, y) == Next(h, y)
    requires forall i: nat :: i < n ==> Walk(g, x, i) != caller
    ensures Walk(g, x, n) == Walk(h, x, n)
  {
    if n > 0 {
      WalkAvoids(g, h, caller, x, n - 1);
    }
  }

  /** A walk that reaches `y` has a first arrival. */
  lemma FirstArrival(g: Graph, x: Gid, y: Gid, n: nat) returns (k: nat)
    requires Walk(g, x, n) == y
    ensures k <= n && Walk(g, x, k) == y && forall i: nat :: i < k ==> Walk(g, x, i) != y
  {
    k := 0;
    while Walk(g, x, k) != y
      invariant k <= n && forall i: nat :: i < k ==> Walk(g, x, i) != y
      decreases n - k
    {
      k := k + 1;
    }
  }

  lemma AddingKeepsAcyclic(g: Graph, caller: Gid, target: Gid)
    requires Acyclic(g) && !Deadlock(g, caller, target)
    ensures Acyclic(g[caller := target])
  {
    var h := g[caller := target];
    forall x: Gid, n: nat | x != 0 && n > 0 ensures Walk(h, x, n) != x {
      if Walk(h, x, n) == x {
        if caller != 0 && exists i: nat :: i < n && Walk(h, x, i) == caller {
          var i: nat :| i < n && Walk(h, x, i) == caller;
          WalkPlus(h, x, i, n);
          WalkPlus(h, x, n, i);
          assert Walk(h, caller, n) == caller;
          WalkPlus(h, caller, 1, n - 1);
          assert Walk(h, caller, 1) == Next(h, Walk(h, caller, 0)) == target;
          var k := FirstArrival(h, target, caller, n - 1);
          WalkAvoids(h, g, caller, target, k);
          assert Walk(g, target, k) == caller;
        } else if caller == 0 {
          forall y ensures Next(g, y) == Next(h, y) {}
          SameWalk(g, h, x, n);
        } else {
          WalkAvoids(h, g, caller, x, n);
        }
      }
    }
  }

  lemma {:induction false} SameWalk(g: Graph, h: Graph, x: Gid, n: nat)
    requires forall y :: Next(g, y) == Next(h, y)
    ensures Walk(g, x, n) == Walk(h, x, n)
  {
    if n > 0 {
      SameWalk(g, h, x, n - 1);
    }
  }

  /** The detector refuses exactly the edges that would close a cycle. */
  lemma RefusesExactlyCycles(g: Graph, caller: Gid, target: Gid)
    requires Acyclic(g)
    ensures Deadlock(g, caller, target) <==> !Acyclic(g[caller := target])
  {
    var h := g[caller := target];
    if Deadlock(g, caller, target) {
      var n: nat :| Walk(g, target, n) == caller;
      var k := FirstArrival(g, target, caller, n);
      WalkAvoids(g, h, caller, target, k);
      assert Walk(h, caller, 1) == Next(h, Walk(h, caller, 0)) == target;
      WalkPlus(h, caller, 1, k);
      assert Walk(h, caller, 1 + k) == caller;
    } else {
      AddingKeepsAcyclic(g, caller, target);
    }
  }

  lemma {:induction false} RemovedWalk(g: Graph, c: Gid, x: Gid, n: nat)
    ensures Walk(g - {c}, x, n) != 0 ==> Walk(g - {c}, x, n) == Walk(g, x, n)
  {
    if n > 0 {
      RemovedWalk(g, c, x, n - 1);
    }
  }

  lemma RemovingKeepsAcyclic(g: Graph, c: Gid)
    requires Acyclic(g)
    ensures Acyclic(g - {c})
  {
    forall x: Gid, n: nat | x != 0 && n > 0 ensures Walk(g - {c}, x, n) != x {
      RemovedWalk(g, c, x, n);
    }
  }

  /** Goroutines each waiting for the next one, and the last for the first. */
  predicate Cycle(g: Graph, p: seq<Gid>)
  {
    |p| > 0 && forall i :: 0 <= i < |p| ==>
      p[i] != 0 && p[i] in g && g[p[i]] == if i + 1 < |p| then p[i + 1] else p[0]
  }

  lemma {:induction false} CycleIsWalked(g: Graph, p: seq<Gid>, n: nat)
    requires Cycle(g, p) && n <= |p|
    ensures Walk(g, p[0], n) == if n < |p| then p[n] else p[0]
  {
    if n > 0 {
      CycleIsWalked(g, p, n - 1);
    }
  }

  /** No walk returns exactly if there is no such circle of waiting goroutines. */
  lemma AcyclicMeansNoCycle(g: Graph)
    ensures Acyclic(g) <==> forall p :: !Cycle(g, p)
  {
    if p :| Cycle(g, p) {
      CycleIsWalked(g, p, |p|);
    } else if x: Gid, n: nat :| x != 0 && n > 0 && Walk(g, x, n) == x {
      var p := seq(n, i requires 0 <= i < n => Walk(g, x, i));
      forall i | 0 <= i < n
        ensures p[i] != 0 && p[i] in g && g[p[i]] == if i + 1 < n then p[i + 1] else p[0]
      {
        assert Walk(g, x, i + 1) == Next(g, Walk(g, x, i));
        if Walk(g, x, i + 1) == 0 {
          EndedStays(g, x, i + 1, n);
        }
      }
      assert Cycle(g, p);
    }
  }

  lemma WaitingForItself(g: Graph, x: Gid)
    requires x != 0
    ensures !Acyclic(g[x := x])
  {
    assert Cycle(g[x := x], [x]);
    AcyclicMeansNoCycle(g[x := x]);
  }

  class CosmosProcess {
    var waitGraph: Graph

    constructor ()
      ensures waitGraph == map[]
    {
      waitGraph := map[];
    }

    method DetectDeadlockAndWait(caller: Gid, target: Gid) returns (deadlock: bool)
      requires Acyclic(waitGraph)
      modifies this
      ensures deadlock == Deadlock(old(waitGraph), caller, target)
      ensures waitGraph == if deadlock then old(waitGraph) else old(waitGraph)[caller := target]
      ensures Acyclic(waitGraph)
    {
      var cur := target;
      ghost var n, seen: set<Gid> := 0, {};
      while cur != 0
        invariant cur == Walk(waitGraph, target, n)
        invariant waitGraph == old(waitGraph)
        invariant forall i: nat :: i < n ==> Walk(waitGraph, target, i) != caller
        invariant seen <= waitGraph.Keys
        invariant forall y :: y in seen ==> Visited(waitGraph, target, n, y)
        decreases waitGraph.Keys - seen
      {
        if cur == caller {
          return true;
        }
        if cur !in waitGraph {
          break;
        }
        AlwaysNew(waitGraph, target, n);
        VisitedGrows(waitGraph, target, n, seen);
        seen := seen + {cur};
        cur := waitGraph[cur];
        n := n + 1;
      }
      if caller != 0 {
        NeverReaches(waitGraph, target, n, caller);
      }
      AddingKeepsAcyclic(waitGraph, caller, target);
      waitGraph := waitGraph[caller := target];
      return false;
    }

    method RemoveWaitEdge(goID: Gid)
      requires Acyclic(waitGraph)
      modifies this
      ensures waitGraph == old(waitGraph) - {goID} && Acyclic(waitGraph)
    {
      RemovingKeepsAcyclic(waitGraph, goID);
      waitGraph := waitGraph - {goID};
    }

    /** Before a synchronous call is pushed. A goroutine without an id, such as that of a remote
        target, takes no part. */
    method BeginSyncCall(caller: Gid, target: Gid) returns (deadlock: bool, hasWaitEdge: bool)
      requires Acyclic(waitGraph)
      modifies this
      ensures deadlock <==> caller != 0 && target != 0 && !Acyclic(old(waitGraph)[caller := target])
      ensures hasWaitEdge <==> caller != 0 && target != 0 && Acyclic(old(waitGraph)[caller := target])
      ensures waitGraph == if hasWaitEdge then old(waitGraph)[caller := target] else old(waitGraph)
      ensures Acyclic(waitGraph)
    {
      hasWaitEdge := false;
      if caller != 0 && target != 0 {
        if caller == target {
          WaitingForItself(waitGraph, caller);
          return true, false;
        }
        RefusesExactlyCycles(waitGraph, caller, target);
        deadlock := DetectDeadlockAndWait(caller, target);
        if deadlock {
          return;
        }
        hasWaitEdge := true;
      }
      deadlock := false;
    }

    /** The chain of waiting goroutines from `from`, up to `to` if it gets there. */
    method WaitChain(from: Gid, to: Gid) returns (chain: seq<Gid>)
      requires Acyclic(waitGraph)
      ensures ChainTo(waitGraph, from, to, chain)
      ensures to != 0 ==> (chain[|chain| - 1] == to <==> Reaches(waitGraph, from, to))
    {
      chain := [from];
      var cur := from;
      ghost var seen: set<Gid> := {};
      while cur != 0 && cur != to
        invariant ChainTo(waitGraph, from, to, chain) && cur == chain[|chain| - 1]
        invariant seen <= waitGraph.Keys && forall y :: y in seen ==> Visited(waitGraph, from, |chain| - 1, y)
        decreases waitGraph.Keys - seen
      {
        if cur !in waitGraph {
          break;
        }
        AlwaysNew(waitGraph, from, |chain| - 1);
        VisitedGrows(waitGraph, from, |chain| - 1, seen);
        seen := seen + {cur};
        ChainGrows(waitGraph, from, to, chain);
        cur := waitGraph[cur];
        chain := chain + [cur];
      }
      if cur != to && to != 0 {
        ChainMisses(waitGraph, from, to, chain);
      }
    }
  }

  /** The first positions of the walk from `from`, none but the last of them `to`. */
  ghost predicate ChainTo(g: Graph, from: Gid, to: Gid, chain: seq<Gid>)
  {
    && |chain| >= 1
    && (forall i :: 0 <= i < |chain| ==> chain[i] == Walk(g, from, i))
    && (forall i :: 0 <= i < |chain| - 1 ==> chain[i] != to && chain[i] in g)
  }

  lemma ChainGrows(g: Graph, from: Gid, to: Gid, chain: seq<Gid>)
    requires ChainTo(g, from, to, chain)
    requires var cur := chain[|chain| - 1]; cur != 0 && cur != to && cur in g
    ensures ChainTo(g, from, to, chain + [g[chain[|chain| - 1]]])
  {
  }

  lemma ChainMisses(g: Graph, from: Gid, to: Gid, chain: seq<Gid>)
    requires ChainTo(g, from, to, chain) && to != 0
    requires var cur := chain[|chain| - 1]; cur != to && (cur == 0 || cur !in g)
    ensures !Reaches(g, from, to)
  {
    forall i: nat | i <= |chain| - 1 ensures Walk(g, from, i) != to {
      assert chain[i] == Walk(g, from, i);
    }
    NeverReaches(g, from, |chain| - 1, to);
  }

  /** Synchronous calls between any number of goroutines: a call begins on a goroutine that is
      running, and ends by reply, timeout or refused push. */
  datatype Event = Begin(caller: Gid, target: Gid) | End(caller: Gid)

  ghost function Apply(g: Graph, e: Event): Graph
  {
    match e
    case Begin(c, t) =>
      if c == 0 || t == 0 || c == t || c in g || Deadlock(g, c, t) then g else g[c := t]
    case End(c) => g - {c}
  }

  ghost function Run(es: seq<Event>): Graph
  {
    if es == [] then map[] else Apply(Run(es[..|es| - 1]), es[|es| - 1])
  }

  lemma {:induction false} RunKeepsAcyclic(es: seq<Event>)
    ensures var g := Run(es);
            Acyclic(g) && 0 !in g && forall x :: x in g ==> g[x] != 0 && g[x] != x
  {
    if es == [] {
      forall x: Gid, n: nat | x != 0 && n > 0 ensures Walk(map[], x, n) != x {
        EmptyWalk(x, n);
      }
    } else {
      var front, e := es[..|es| - 1], es[|es| - 1];
      RunKeepsAcyclic(front);
      match e
      case Begin(c, t) => if !Deadlock(Run(front), c, t) { AddingKeepsAcyclic(Run(front), c, t); }
      case End(c) => RemovingKeepsAcyclic(Run(front), c);
    }
  }

  /** A goroutine that is not waiting gets to wait for another exactly if no circle of waiting
      goroutines comes of it, and waits until its call ends. */
  lemma {:induction false} WaitsExactly(es: seq<Event>, c: Gid, t: Gid)
    requires c != 0 && t != 0 && c !in Run(es)
    ensures var g, h := Run(es), Run(es)[c := t];
            Run(es + [Begin(c, t)]) == if exists p :: Cycle(h, p) then g else h
    ensures Run(es + [Begin(c, t)] + [End(c)]) == Run(es)
  {
    var g := Run(es);
    assert (es + [Begin(c, t)])[..|es|] == es;
    assert (es + [Begin(c, t)] + [End(c)])[..|es| + 1] == es + [Begin(c, t)];
    RunKeepsAcyclic(es);
    AcyclicMeansNoCycle(g[c := t]);
    if c == t {
      WaitingForItself(g, c);
    } else {
      RefusesExactlyCycles(g, c, t);
    }
    assert g[c := t] - {c} == g && g - {c} == g;
  }

  lemma EmptyWalk(x: Gid, n: nat)
    requires n > 0
    ensures Walk(map[], x, n) == 0
  {
  }

  /** The end of a chain: with all waiting goroutines seen, one of them would be met twice. */
  lemma {:induction false} ChainEndsFrom(g: Graph, x: Gid, n: nat, seen: set<Gid>) returns (k: nat)
    requires Acyclic(g) && x != 0 && (forall y :: y in g ==> g[y] != 0)
    requires seen <= g.Keys && Walk(g, x, n) != 0
    requires forall y :: y in seen ==> Visited(g, x, n, y)
    ensures Walk(g, x, k) != 0 && Walk(g, x, k) !in g
    decreases g.Keys - seen
  {
    var cur := Walk(g, x, n);
    if cur !in g {
      return n;
    }
    AlwaysNew(g, x, n);
    VisitedGrows(g, x, n, seen);
    k := ChainEndsFrom(g, x, n + 1, seen + {cur});
  }

  /** In every run, following the wait edges from any blocked goroutine leads to one that is not
      waiting: somebody can always make progress. */
  lemma BlockedChainEndsAtRunning(es: seq<Event>, x: Gid)
    requires x in Run(es)
    ensures exists k: nat :: Walk(Run(es), x, k) != 0 && Walk(Run(es), x, k) !in Run(es)
  {
    RunKeepsAcyclic(es);
    var k := ChainEndsFrom(Run(es), x, 0, {});
  }
}
