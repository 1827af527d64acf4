/** The version lock of a node: one etcd key that any number of processes read, edit and commit
    under the condition that nobody committed in between. */
module VersionLock {
  type Version = int  // the version of a process; 0 is none

  const MAX_NODES := 2

  datatype LockInfo = LockInfo(versions: seq<Version>, current: Version)

  datatype Op = TryLock | FailedUnlock | Started | StoppingUnlock

  datatype Edited = Put(info: LockInfo) | Rejected

  function RemoveFirst(s: seq<Version>, v: Version): (r: seq<Version>)
    ensures v !in s ==> r == s
  {
    if s == [] then [] else if s[0] == v then s[1..] else [s[0]] + RemoveFirst(s[1..], v)
  }

  /** What a process with version `v` wants to put in place of what it read; revision 0 means that
      it found no key. */
  function Edit(op: Op, v: Version, info: LockInfo, rev: nat): Edited
  {
    match op
    case TryLock =>
      if rev == 0 then Put(LockInfo([v], 0))
      else if |info.versions| >= MAX_NODES then Rejected
      else Put(info.(versions := info.versions + [v]))
    case Started =>
      if rev == 0 || v !in info.versions then Rejected else Put(info.(current := v))
    case _ =>
      if rev == 0 then Rejected
      else Put(LockInfo(RemoveFirst(info.versions, v), if info.current == v then 0 else info.current))
  }

  lemma {:induction false} RemoveFirstAt(s: seq<Version>, v: Version, i: nat)
    requires i < |s| && s[i] == v && v !in s[..i]
    ensures RemoveFirst(s, v) == s[..i] + s[i + 1..]
  {
    if i > 0 {
      assert s[0] == s[..i][0];
      assert s[1..][..i - 1] == s[..i][1..];
      RemoveFirstAt(s[1..], v, i - 1);
      assert s[1..][i..] == s[i + 1..];
    }
  }

  method Without(versions: seq<Version>, v: Version) returns (r: seq<Version>)
    ensures r == RemoveFirst(versions, v)
  {
    for i := 0 to |versions|
      invariant v !in versions[..i]
    {
      if versions[i] == v {
        RemoveFirstAt(versions, v, i);
        return versions[..i] + versions[i + 1..];
      }
    }
    return versions;
  }

  method TryLocking(v: Version, read: LockInfo, rev: nat) returns (ok: bool, info: LockInfo)
    ensures Edit(TryLock, v, read, rev) == if ok then Put(info) else Rejected
  {
    info := read;
    if rev == 0 {
      info := LockInfo([v], 0);
      return true, info;
    }
    if |info.versions| >= MAX_NODES {
      return false, info;
    }
    info := info.(versions := info.versions + [v]);
    return true, info;
  }

  /** The edit of both unlocking operations. */
  method Unlocking(v: Version, read: LockInfo, rev: nat) returns (ok: bool, info: LockInfo)
    ensures Edit(FailedUnlock, v, read, rev) == Edit(StoppingUnlock, v, read, rev) == if ok then Put(info) else Rejected
  {
    info := read;
    if rev == 0 {
      return false, info;
    }
    var versions := Without(info.versions, v);
    info := info.(versions := versions);
    if info.current == v {
      info := info.(current := 0);
    }
    return true, info;
  }

  method StartedLock(v: Version, read: LockInfo, rev: nat) returns (ok: bool, info: LockInfo)
    ensures Edit(Started, v, read, rev) == if ok then Put(info) else Rejected
  {
    info := read;
    if rev == 0 {
      return false, info;
    }
    var found := false;
    for i := 0 to |info.versions|
      invariant !found && v !in info.versions[..i]
    {
      if info.versions[i] == v {
        found := true;
        break;
      }
    }
    if !found {
      return false, info;
    }
    info := info.(current := v);
    return true, info;
  }

  /** The key on the server. */
  class EtcdKey {
    var info: LockInfo
    var rev: nat

    constructor ()
      ensures rev == 0
    {
      info, rev := LockInfo([], 0), 0;
    }

    method Commit(expected: nat, value: LockInfo) returns (ok: bool)
      modifies this
      ensures ok == (old(rev) == expected)
      ensures ok ==> info == value && rev == old(rev) + 1
      ensures !ok ==> info == old(info) && rev == old(rev)
    {
      if rev != expected {
        return false;
      }
      info, rev := value, rev + 1;
      return true;
    }
  }

  datatype Snapshot = Snapshot(op: Op, info: LockInfo, rev: nat)

  /** `snap` holds the operation each process is in the middle of; `tried` the processes that began
      to lock, which each does once; `holders` those that locked and have not unlocked. */
  datatype State = State(info: LockInfo, rev: nat, snap: map<Version, Snapshot>,
                         tried: set<Version>, holders: set<Version>)

  datatype Event = Read(v: Version, op: Op) | Commit(v: Version)

  function Start(): State { State(LockInfo([], 0), 0, map[], {}, {}) }

  function Held(holders: set<Version>, v: Version, op: Op): set<Version>
  {
    match op
    case TryLock => holders + {v}
    case Started => holders
    case _ => holders - {v}
  }

  function Apply(s: State, e: Event): State
  {
    match e
    case Read(v, op) =>
      if v == 0 || v in s.snap || (op.TryLock? && v in s.tried) then s
      else s.(snap := s.snap[v := Snapshot(op, s.info, s.rev)], tried := if op.TryLock? then s.tried + {v} else s.tried)
    case Commit(v) =>
      if v !in s.snap then s
      else
        var n := s.snap[v];
        var y := s.(snap := s.snap - {v});
        var edited := Edit(n.op, v, n.info, n.rev);
        if edited.Put? && n.rev == s.rev then
          y.(info := edited.info, rev := s.rev + 1, holders := Held(s.holders, v, n.op))
        else y
  }

  function Run(es: seq<Event>): State
  {
    if es == [] then Start() else Apply(Run(es[..|es| - 1]), es[|es| - 1])
  }

  ghost predicate NoDup(s: seq<Version>) { forall i, j :: 0 <= i < j < |s| ==> s[i] != s[j] }

  ghost predicate Exact(info: LockInfo, holders: set<Version>)
  {
    && NoDup(info.versions) && |info.versions| <= 2
    && (forall v :: v in info.versions <==> v in holders)
    && (info.current == 0 || info.current in info.versions)
  }

  ghost predicate Inv(s: State)
  {
    && Exact(s.info, s.holders) && 0 !in s.holders && s.holders <= s.tried
    && (s.rev == 0 ==> s.holders == {})
    && (forall v :: v in s.snap ==> s.snap[v].rev <= s.rev && (s.snap[v].rev == s.rev ==> s.snap[v].info == s.info))
    && (forall v :: v in s.snap && s.snap[v].op.TryLock? ==> v !in s.holders && v in s.tried)
    && 0 !in s.snap
  }

  lemma {:induction false} RemoveFirstRemoves(s: seq<Version>, v: Version)
    requires NoDup(s)
    ensures var r := RemoveFirst(s, v);
            && NoDup(r) && |r| <= |s| && (forall w :: w in r <==> w in s && w != v)
  {
    if s != [] {
      var t := s[1..];
      assert s == [s[0]] + t;
      assert NoDup(t) by {
        forall i, j | 0 <= i < j < |t| ensures t[i] != t[j] {
          assert t[i] == s[i + 1] && t[j] == s[j + 1];
        }
      }
      if s[0] == v {
        assert v !in t;
      } else {
        RemoveFirstRemoves(t, v);
        var r := RemoveFirst(t, v);
        assert s[0] !in t && s[0] !in r;
        forall i, j | 0 <= i < j < |r| + 1 ensures ([s[0]] + r)[i] != ([s[0]] + r)[j] {
          assert ([s[0]] + r)[j] == r[j - 1];
        }
      }
    }
  }

  /** An edit of the current value keeps the record exact. */
  lemma EditKeepsExact(op: Op, v: Version, info: LockInfo, rev: nat, holders: set<Version>)
    requires Exact(info, holders) && v != 0 && (rev == 0 ==> holders == {}) && (op.TryLock? ==> v !in holders)
    requires Edit(op, v, info, rev).Put?
    ensures Exact(Edit(op, v, info, rev).info, Held(holders, v, op))
  {
    match op
    case TryLock =>
    case Started =>
    case FailedUnlock => RemoveFirstRemoves(info.versions, v);
    case StoppingUnlock => RemoveFirstRemoves(info.versions, v);
  }

  lemma StepKeeps(s: State, e: Event)
    requires Inv(s)
    ensures Inv(Apply(s, e))
  {
    if e.Commit? && e.v in s.snap {
      var n := s.snap[e.v];
      if Edit(n.op, e.v, n.info, n.rev).Put? && n.rev == s.rev {
        EditKeepsExact(n.op, e.v, s.info, s.rev, s.holders);
      }
    }
  }

  lemma {:induction false} RunKeeps(es: seq<Event>)
    ensures Inv(Run(es))
  {
    if es != [] {
      RunKeeps(es[..|es| - 1]);
      StepKeeps(Run(es[..|es| - 1]), es[|es| - 1]);
    }
  }

  /** For any number of processes and any interleaving of their reads and commits: `Versions` lists
      exactly the processes that locked and have not unlocked, each once and never more than two, and
      `Current` is none or one of them. */
  lemma VersionsAreTheHolders(es: seq<Event>)
    ensures Exact(Run(es).info, Run(es).holders)
  {
    RunKeeps(es);
  }

  /** No lost update: nobody but the process itself takes it off the list or puts it there. */
  lemma OnlyOwnCommitsCount(es: seq<Event>, e: Event, v: Version)
    requires e != Commit(v)
    ensures v in Apply(Run(es), e).info.versions <==> v in Run(es).info.versions
  {
    RunKeeps(es);
    StepKeeps(Run(es), e);
  }

  /** A commit takes effect exactly when the edit was not rejected and no commit took effect since
      its read; then it acts on the value it read. */
  lemma CommitActsOnWhatItRead(es: seq<Event>, v: Version)
    requires v in Run(es).snap
    ensures var s, n := Run(es), Run(es).snap[v];
            && (Apply(s, Commit(v)).rev != s.rev <==> Edit(n.op, v, n.info, n.rev).Put? && n.rev == s.rev)
            && (Apply(s, Commit(v)).rev != s.rev ==>
                  n.info == s.info && Put(Apply(s, Commit(v)).info) == Edit(n.op, v, s.info, s.rev))
  {
    RunKeeps(es);
  }

  lemma RunMore(es: seq<Event>, e: Event)
    ensures Run(es + [e]) == Apply(Run(es), e)
  {
    assert (es + [e])[..|es|] == es && (es + [e])[|es|] == e;
  }

  /** A process that is not in the middle of an operation, and has not begun to lock before if it is
      to lock, reads the current value; a read changes nothing else. */
  lemma {:induction false} ReadTakesSnapshot(es: seq<Event>, v: Version, op: Op)
    requires v != 0 && v !in Run(es).snap && (op.TryLock? ==> v !in Run(es).tried)
    ensures var s, z := Run(es), Run(es + [Read(v, op)]);
            && z.snap == s.snap[v := Snapshot(op, s.info, s.rev)] && z.info == s.info && z.rev == s.rev
            && z.holders == s.holders
  {
    RunMore(es, Read(v, op));
  }

  /** `z` is what an effective commit puts in place of `s`. */
  ghost predicate Puts(s: State, z: State, op: Op, v: Version)
  {
    && z.rev == s.rev + 1
    && match op
       case TryLock =>
         z.info.versions == s.info.versions + [v] && z.info.current == s.info.current && z.holders == s.holders + {v}
       case Started => z.info.versions == s.info.versions && z.info.current == v && z.holders == s.holders
       case _ =>
         && (forall w :: w in z.info.versions <==> w in s.info.versions && w != v) && z.holders == s.holders - {v}
         && z.info.current == if s.info.current == v then 0 else s.info.current
  }

  /** When an operation that nobody overtook is let through. */
  predicate Admitted(s: State, op: Op, v: Version)
  {
    match op
    case TryLock => |s.holders| < 2
    case Started => v in s.holders
    case _ => s.rev != 0
  }

  lemma {:induction false} HoldersCounted(info: LockInfo, holders: set<Version>)
    requires Exact(info, holders)
    ensures |holders| == |info.versions|
    decreases |info.versions|
  {
    if info.versions != [] {
      var n := |info.versions| - 1;
      var last, front := info.versions[n], info.versions[..n];
      assert info.versions == front + [last];
      assert forall w :: w in front <==> w in holders && w != last;
      HoldersCounted(LockInfo(front, 0), holders - {last});
    } else {
      assert forall w :: w in holders ==> w in info.versions;
      assert holders == {};
    }
  }

  lemma CommitOfCurrent(s: State, v: Version)
    requires Inv(s) && v in s.snap && s.snap[v].rev == s.rev
    ensures var z, op := Apply(s, Commit(v)), s.snap[v].op;
            if Admitted(s, op, v) then Puts(s, z, op, v)
            else z.info == s.info && z.rev == s.rev && z.holders == s.holders
  {
    HoldersCounted(s.info, s.holders);
    RemoveFirstRemoves(s.info.versions, v);
  }

  /** What a commit does, for every operation and every run. Overtaken, it does nothing. Otherwise a
      lock is let through exactly if fewer than two processes hold the node, and lists the process; a
      started process is designated exactly if it holds; an unlock, once the record exists, takes the
      process off the list and clears the designation exactly if it is its own. */
  lemma {:induction false} CommitDoesExactly(es: seq<Event>, v: Version)
    requires v in Run(es).snap
    ensures var s, z := Run(es), Run(es + [Commit(v)]);
            && v !in z.snap
            && (if s.snap[v].rev == s.rev && Admitted(s, s.snap[v].op, v) then Puts(s, z, s.snap[v].op, v)
                else z.info == s.info && z.rev == s.rev && z.holders == s.holders)
  {
    RunKeeps(es);
    RunMore(es, Commit(v));
    if Run(es).snap[v].rev == Run(es).rev {
      CommitOfCurrent(Run(es), v);
    }
  }

  /** A designation is safe from others: it changes only when a started process commits, to that
      process, or when the designated process itself unlocks, to none. */
  lemma {:induction false} DesignationIsSafe(es: seq<Event>, e: Event)
    ensures var s, z := Run(es), Run(es + [e]);
            z.info.current != s.info.current ==>
              && e.Commit? && e.v in s.snap
              && if s.snap[e.v].op.Started? then z.info.current == e.v
                 else !s.snap[e.v].op.TryLock? && s.info.current == e.v && z.info.current == 0
  {
    RunMore(es, e);
    if e.Commit? && e.v in Run(es).snap {
      CommitDoesExactly(es, e.v);
    }
  }
}
