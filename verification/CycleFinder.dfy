/** The static search for cycles of handlers that call each other synchronously. */
module CycleFinder {
  import opened CycleKey

  /** Which handlers each handler sync-calls. */
  type Graph = map<string, set<string>>

  function Succ(g: Graph, n: string): set<string> { if n in g then g[n] else {} }

  ghost predicate Nodes(g: Graph, all: set<string>) { forall n :: n in g ==> n in all && g[n] <= all }

  /** No name holds the separator of the key, as no identifier of the analysed language does. */
  predicate Named(g: Graph) { forall n :: n in g ==> ARROW !in n && forall m :: m in g[n] ==> ARROW !in m }

  ghost predicate Walk(g: Graph, p: seq<string>)
  {
    p != [] && forall i :: 0 <= i < |p| - 1 ==> p[i + 1] in Succ(g, p[i])
  }

  ghost predicate ClosedWalk(g: Graph, p: seq<string>) { |p| >= 2 && Walk(g, p) && p[0] == p[|p| - 1] }

  function Open(c: seq<string>): seq<string> { if c == [] then [] else c[..|c| - 1] }

  ghost predicate SimpleCycle(g: Graph, c: seq<string>) { ClosedWalk(g, c) && Distinct(Open(c)) }

  lemma NamesAreSimple(g: Graph, p: seq<string>)
    requires Named(g) && Walk(g, p) && Distinct(p) && (|p| == 1 ==> ARROW !in p[0])
    ensures Simple(p)
  {
    forall x | x in p ensures ARROW !in x {
      var i :| 0 <= i < |p| && p[i] == x;
      if i > 0 {
        assert p[i - 1 + 1] in Succ(g, p[i - 1]);
      } else if |p| > 1 {
        assert p[0 + 1] in Succ(g, p[0]);
      }
    }
  }

  lemma CycleIsSimple(g: Graph, c: seq<string>)
    requires Named(g) && SimpleCycle(g, c)
    ensures Simple(Open(c))
  {
    assert c[0 + 1] in Succ(g, c[0]);
    NamesAreSimple(g, Open(c));
  }

  ghost predicate Found(reports: seq<seq<string>>, v: string) { exists c :: c in reports && v in c }

  lemma FoundStays(before: seq<seq<string>>, after: seq<seq<string>>, v: string)
    requires before <= after && Found(before, v)
    ensures Found(after, v)
  {
    var c :| c in before && v in c;
    assert c in after;
  }

  /** The reports are simple cycles of real edges under different keys, and their keys are the
      remembered ones. */
  ghost predicate Consistent(g: Graph, reports: seq<seq<string>>, reported: set<string>)
  {
    if reports == [] then reported == {}
    else
      var c := reports[|reports| - 1];
      && SimpleCycle(g, c) && Simple(Open(c)) && Key(Open(c)) in reported
      && Consistent(g, reports[..|reports| - 1], reported - {Key(Open(c))})
  }

  lemma ReportsGrow(g: Graph, reports: seq<seq<string>>, reported: set<string>, c: seq<string>)
    requires Consistent(g, reports, reported) && SimpleCycle(g, c) && Simple(Open(c)) && Key(Open(c)) !in reported
    ensures Consistent(g, reports + [c], reported + {Key(Open(c))})
  {
    assert (reports + [c])[..|reports|] == reports;
    assert reported + {Key(Open(c))} - {Key(Open(c))} == reported;
  }

  /** A report passes through each of these nodes. */
  ghost predicate AllFound(reports: seq<seq<string>>, found: set<string>)
  {
    forall v :: v in found ==> Found(reports, v)
  }

  lemma FoundGrows(reports: seq<seq<string>>, found: set<string>, c: seq<string>)
    requires AllFound(reports, found) && c != []
    ensures AllFound(reports + [c], found + {c[0]})
  {
    var after := reports + [c];
    forall v | v in found + {c[0]} ensures Found(after, v) {
      if v in found {
        FoundStays(reports, after, v);
      } else {
        assert c in after;
      }
    }
  }

  lemma {:induction false} ReportsAreCycles(g: Graph, reports: seq<seq<string>>, reported: set<string>, i: nat)
    requires Consistent(g, reports, reported) && i < |reports|
    ensures SimpleCycle(g, reports[i]) && Simple(Open(reports[i])) && Key(Open(reports[i])) in reported
  {
    if i < |reports| - 1 {
      ReportsAreCycles(g, reports[..|reports| - 1], reported - {Key(Open(reports[|reports| - 1]))}, i);
    }
  }

  lemma {:induction false} KeyHasReport(g: Graph, reports: seq<seq<string>>, reported: set<string>, key: string)
    returns (c: seq<string>)
    requires Consistent(g, reports, reported) && key in reported
    ensures c in reports && Simple(Open(c)) && Key(Open(c)) == key
  {
    c := reports[|reports| - 1];
    if Key(Open(c)) != key {
      c := KeyHasReport(g, reports[..|reports| - 1], reported - {Key(Open(c))}, key);
    }
  }

  lemma {:induction false} KeysDiffer(g: Graph, reports: seq<seq<string>>, reported: set<string>, i: nat, j: nat)
    requires Consistent(g, reports, reported) && i < j < |reports|
    ensures Simple(Open(reports[i])) && Simple(Open(reports[j]))
    ensures Key(Open(reports[i])) != Key(Open(reports[j]))
  {
    var front, rest := reports[..|reports| - 1], reported - {Key(Open(reports[|reports| - 1]))};
    assert reports[i] == front[i];
    if j < |reports| - 1 {
      assert reports[j] == front[j];
      KeysDiffer(g, front, rest, i, j);
    } else {
      ReportsAreCycles(g, front, rest, i);
    }
  }

  /** Searched to the end: every successor is visited, and none of them is the origin. */
  ghost predicate Done(g: Graph, visited: set<string>, origin: string, n: string)
  {
    Succ(g, n) <= visited && origin !in Succ(g, n)
  }

  /** The path of the search: from the origin to the current node, through visited nodes. */
  ghost predicate PathOk(g: Graph, visited: set<string>, origin: string, path: seq<string>)
  {
    && Walk(g, path) && path[0] == origin && Distinct(path)
    && origin !in visited && forall i :: 1 <= i < |path| ==> path[i] in visited
  }

  lemma PathGrows(g: Graph, visited: set<string>, origin: string, path: seq<string>, next: string)
    requires PathOk(g, visited, origin, path)
    requires next in Succ(g, path[|path| - 1]) && next !in visited && next != origin
    ensures PathOk(g, visited + {next}, origin, path + [next])
  {
    var p := path + [next];
    forall i | 0 <= i < |p| - 1 ensures p[i + 1] in Succ(g, p[i]) {
      if i < |path| - 1 {
        assert path[i + 1] in Succ(g, path[i]);
      }
    }
  }

  lemma PathCloses(g: Graph, visited: set<string>, origin: string, path: seq<string>)
    requires PathOk(g, visited, origin, path) && origin in Succ(g, path[|path| - 1])
    ensures SimpleCycle(g, path + [origin]) && Open(path + [origin]) == path
  {
    var p := path + [origin];
    forall i | 0 <= i < |p| - 1 ensures p[i + 1] in Succ(g, p[i]) {
      if i < |path| - 1 {
        assert path[i + 1] in Succ(g, path[i]);
      }
    }
  }

  /** A cycle remembered under the same key passes through the same nodes. */
  lemma SameKeySameNodes(reports: seq<seq<string>>, c: seq<string>, path: seq<string>)
    requires c in reports && Simple(Open(c)) && Simple(path) && Key(Open(c)) == Key(path)
    ensures Found(reports, path[0])
  {
    SameKeyMeansRotation(Open(c), path);
    assert path[0] in Open(c);
  }

  /** All nodes visited since `was` are searched to the end, and so are the successors of the
      current node outside `todo` visited. */
  ghost predicate Progress(g: Graph, was: set<string>, visited: set<string>, origin: string, current: string,
                           todo: set<string>)
  {
    && Succ(g, current) - todo <= visited && origin !in Succ(g, current) - todo
    && forall n :: n in visited - was ==> Done(g, visited, origin, n)
  }

  lemma ProgressSkips(g: Graph, was: set<string>, visited: set<string>, origin: string, current: string,
                      todo: set<string>, to: string)
    requires Progress(g, was, visited, origin, current, todo) && to in visited && to != origin
    ensures Progress(g, was, visited, origin, current, todo - {to})
  {
  }

  lemma ProgressDescends(g: Graph, was: set<string>, visited: set<string>, after: set<string>, origin: string,
                         current: string, todo: set<string>, to: string)
    requires Progress(g, was, visited, origin, current, todo) && to != origin && visited + {to} <= after
    requires Progress(g, visited + {to}, after, origin, to, {})
    ensures Progress(g, was, after, origin, current, todo - {to})
  {
    forall n | n in after - was ensures Done(g, after, origin, n) {
      assert n in visited ==> Done(g, visited, origin, n);
    }
  }

  class Finder {
    const g: Graph
    ghost const all: set<string>
    var visited: set<string>
    var reported: set<string>
    var reports: seq<seq<string>>
    ghost var found: set<string>  // the origins that a cycle was met for

    constructor (g: Graph, ghost all: set<string>)
      ensures this.g == g && this.all == all && visited == {} && reported == {} && reports == [] && found == {}
    {
      this.g, this.all, visited, reported, reports, found := g, all, {}, {}, [], {};
    }

    ghost predicate Valid()
      reads this
    {
      Named(g) && Nodes(g, all) && Consistent(g, reports, reported) && AllFound(reports, found)
    }

    /** A path back to the origin, whose cycle is `path + [origin]`. */
    method Report(origin: string, path: seq<string>)
      requires Valid() && PathOk(g, visited, origin, path) && origin in Succ(g, path[|path| - 1])
      modifies this`reported, this`reports, this`found
      ensures Valid() && found == old(found) + {origin}
    {
      PathCloses(g, visited, origin, path);
      CycleIsSimple(g, path + [origin]);
      var cycle := path + [origin];
      var key := CanonicalCycleKey(cycle);
      if key !in reported {
        ReportsGrow(g, reports, reported, cycle);
        FoundGrows(reports, found, cycle);
        reported := reported + {key};
        reports := reports + [cycle];
      } else {
        ghost var c := KeyHasReport(g, reports, reported, key);
        SameKeySameNodes(reports, c, path);
      }
      found := found + {origin};
    }

    method DetectCycleDFS(origin: string, current: string, path: seq<string>)
      requires Valid() && visited <= all
      requires PathOk(g, visited, origin, path) && path[|path| - 1] == current
      modifies this
      ensures Valid() && old(found) <= found
      ensures old(visited) <= visited <= all && origin !in visited
      ensures origin in found || Progress(g, old(visited), visited, origin, current, {})
      decreases all - visited
    {
      var todo := if current in g then g[current] else {};
      while todo != {}
        invariant Valid() && old(found) <= found && todo <= Succ(g, current)
        invariant old(visited) <= visited <= all && PathOk(g, visited, origin, path)
        invariant origin in found || Progress(g, old(visited), visited, origin, current, todo)
        decreases todo
      {
        var to :| to in todo;
        if to == origin {
          Report(origin, path);
          return;
        }
        if to in visited {
          if origin !in found {
            ProgressSkips(g, old(visited), visited, origin, current, todo, to);
          }
          todo := todo - {to};
          continue;
        }
        PathGrows(g, visited, origin, path, to);
        ghost var before := visited;
        visited := visited + {to};
        assert to in all - old(visited);
        DetectCycleDFS(origin, to, path + [to]);
        if origin !in found {
          ProgressDescends(g, old(visited), before, visited, origin, current, todo, to);
        }
        todo := todo - {to};
      }
    }
  }

  /** A set closed under the search keeps every walk from the origin inside. */
  lemma {:induction false} WalkStaysInside(g: Graph, visited: set<string>, origin: string, p: seq<string>, i: nat)
    requires forall n :: n in visited || n == origin ==> Done(g, visited, origin, n)
    requires Walk(g, p) && p[0] == origin && 1 <= i < |p|
    ensures p[i] in visited
  {
    if i > 1 {
      WalkStaysInside(g, visited, origin, p, i - 1);
    }
    assert p[i - 1 + 1] in Succ(g, p[i - 1]);
    assert Done(g, visited, origin, p[i - 1]);
  }

  /** A closed walk begins at each of its nodes. */
  lemma WalkTurns(g: Graph, p: seq<string>, i: nat)
    requires ClosedWalk(g, p) && i < |p| - 1
    ensures ClosedWalk(g, p[i..] + p[1..i + 1]) && (p[i..] + p[1..i + 1])[0] == p[i]
  {
    var q := p[i..] + p[1..i + 1];
    forall k | 0 <= k < |q| - 1 ensures q[k + 1] in Succ(g, q[k]) {
      var j := if k < |p| - 1 - i then i + k else i + k - (|p| - 1);
      assert p[j + 1] in Succ(g, p[j]);
    }
  }

  ghost function AllNodes(g: Graph): (all: set<string>)
    ensures Nodes(g, all)
  {
    g.Keys + set n, m | n in g && m in g[n] :: m
  }

  ghost predicate NoCycleAt(g: Graph, v: string) { forall p :: ClosedWalk(g, p) ==> p[0] != v }

  lemma SearchSettles(g: Graph, visited: set<string>, origin: string)
    requires origin !in visited && Progress(g, {}, visited, origin, origin, {})
    ensures NoCycleAt(g, origin)
  {
    forall p | ClosedWalk(g, p) ensures p[0] != origin {
      if p[0] == origin {
        WalkStaysInside(g, visited, origin, p, |p| - 1);
      }
    }
  }

  /** The driver. Every report is a simple cycle of real edges, no two are rotations of each other,
      and every handler on a directed cycle has a reported cycle through it. */
  method Run(g: Graph) returns (reports: seq<seq<string>>)
    requires Named(g)
    ensures forall c :: c in reports ==> SimpleCycle(g, c)
    ensures forall i, j :: 0 <= i < j < |reports| ==> !IsRotation(Open(reports[i]), Open(reports[j]))
    ensures forall p, i :: ClosedWalk(g, p) && 0 <= i < |p| ==> Found(reports, p[i])
  {
    ghost var all := AllNodes(g);
    var f := new Finder(g, all);
    var todo := g.Keys;
    while todo != {}
      invariant f.Valid() && f.g == g && f.all == all && todo <= g.Keys
      invariant forall v :: v in g.Keys - todo ==> v in f.found || NoCycleAt(g, v)
      decreases todo
    {
      var from :| from in todo;
      todo := todo - {from};
      f.visited := {};
      f.DetectCycleDFS(from, from, [from]);
      if from !in f.found {
        SearchSettles(g, f.visited, from);
      }
    }
    reports := f.reports;
    forall i | 0 <= i < |reports| ensures SimpleCycle(g, reports[i]) {
      ReportsAreCycles(g, reports, f.reported, i);
    }
    forall i, j | 0 <= i < j < |reports| ensures !IsRotation(Open(reports[i]), Open(reports[j])) {
      KeysDiffer(g, reports, f.reported, i, j);
      SameKeyIffRotation(Open(reports[i]), Open(reports[j]));
    }
    forall p, i | ClosedWalk(g, p) && 0 <= i < |p| ensures Found(reports, p[i]) {
      NodeOnCycle(g, p, i);
    }
  }

  lemma NodeOnCycle(g: Graph, p: seq<string>, i: nat)
    requires ClosedWalk(g, p) && i < |p|
    ensures p[i] in g.Keys && !NoCycleAt(g, p[i])
  {
    var k := if i == |p| - 1 then 0 else i;
    WalkTurns(g, p, k);
    assert p[k + 1] in Succ(g, p[k]);
  }
}
