/** The reference-counted map, and the per-name spawn lock built on it. */
module RefCountMaps {
  /** The two maps of a `MapGoWithRefCount`: values and counts. */
  datatype RefMap<K, V> = RefMap(m: map<K, V>, r: map<K, int>) {
    function GetOrPut(key: K, value: V): RefMap<K, V> {
      if key !in m then RefMap(m[key := value], r[key := 1])
      else RefMap(m, r[key := (if key in r then r[key] else 0) + 1])
    }

    function Put(key: K, value: V): RefMap<K, V> {
      RefMap(m[key := value], if key in r then r else r[key := 1])
    }

    function Remove(key: K): RefMap<K, V> {
      if key !in r then this
      else if r[key] > 1 then RefMap(m, r[key := r[key] - 1])
      else RefMap(m - {key}, r - {key})
    }

    /** Exactly the stored keys are counted, each at least once. */
    ghost predicate Ok() { m.Keys == r.Keys && forall k :: k in r ==> r[k] >= 1 }
  }

  lemma {:induction false} GetAll<K, V>(x: RefMap<K, V>, key: K, value: V, n: nat)
    requires x.Ok()
    ensures var z := Gets(x, key, value, n);
            && z.Ok() && (n > 0 ==> key in z.m)
            && (key in z.m ==> z.m[key] == (if key in x.m then x.m[key] else value))
            && (key in x.m ==> key in z.m && z.r[key] == x.r[key] + n)
            && (key !in x.m ==> if n == 0 then z == x else z.r[key] == n)
  {
    if n > 0 {
      GetAll(x, key, value, n - 1);
    }
  }

  function Gets<K, V>(x: RefMap<K, V>, key: K, value: V, n: nat): RefMap<K, V>
  {
    if n == 0 then x else Gets(x, key, value, n - 1).GetOrPut(key, value)
  }

  function Removes<K, V>(x: RefMap<K, V>, key: K, n: nat): RefMap<K, V>
  {
    if n == 0 then x else Removes(x, key, n - 1).Remove(key)
  }

  lemma RemoveUndoesGet<K, V>(x: RefMap<K, V>, key: K, value: V)
    requires x.Ok()
    ensures x.GetOrPut(key, value).Remove(key) == x
  {
    var z := x.GetOrPut(key, value).Remove(key);
    assert z.m == x.m && z.r == x.r;
  }

  /** A put leaves the count of a used key alone and gives a new key one use, so that the removals
      owed afterwards are those owed before, or one: a put of a used key is invisible once all its
      users are gone, and a put of a new key is undone by one removal. */
  lemma PutKeepsUses<K, V>(x: RefMap<K, V>, key: K, value: V)
    requires x.Ok()
    ensures var z := x.Put(key, value);
            && z.Ok() && key in z.m && z.m[key] == value
            && (forall k :: k != key ==>
                  (k in z.m <==> k in x.m) && (k in x.m ==> z.m[k] == x.m[k] && z.r[k] == x.r[k]))
            && z.r[key] == (if key in x.m then x.r[key] else 1)
            && (key !in x.m ==> z.Remove(key) == x)
    ensures key in x.m ==> Removes(x.Put(key, value), key, x.r[key]) == RefMap(x.m - {key}, x.r - {key})
  {
    if key in x.m {
      RemovesEmpty(x.Put(key, value), key, x.r[key]);
      assert x.Put(key, value).m - {key} == x.m - {key};
    } else {
      assert x.Put(key, value).Remove(key).m == x.m && x.Put(key, value).Remove(key).r == x.r;
    }
  }

  /** As many removals as uses take the key away; fewer only lower its count. */
  lemma {:induction false} RemovesEmpty<K, V>(x: RefMap<K, V>, key: K, k: nat)
    requires x.Ok() && key in x.m && k <= x.r[key]
    ensures Removes(x, key, k) ==
            if k < x.r[key] then RefMap(x.m, x.r[key := x.r[key] - k]) else RefMap(x.m - {key}, x.r - {key})
  {
    if k > 0 {
      RemovesEmpty(x, key, k - 1);
      assert x.r[key := x.r[key] - (k - 1)] - {key} == x.r - {key};
    } else {
      assert x.r[key := x.r[key]] == x.r;
    }
  }

  /** Each removal undoes one get: as many removals as gets restore the map, values included, and
      one fewer leaves the key in place. */
  lemma {:induction false} RemovesUndoGets<K, V>(x: RefMap<K, V>, key: K, value: V, n: nat, k: nat)
    requires x.Ok() && k <= n
    ensures Removes(Gets(x, key, value, n), key, k) == Gets(x, key, value, n - k)
    ensures k < n ==> key in Removes(Gets(x, key, value, n), key, k).m
  {
    GetAll(x, key, value, n - k);
    if k > 0 {
      RemovesUndoGets(x, key, value, n, k - 1);
      RemoveUndoesGet(Gets(x, key, value, n - k), key, value);
    }
  }

  class MapGoWithRefCount<K(==), V> {
    var m: map<K, V>
    var r: map<K, int>

    ghost function Abs(): RefMap<K, V>
      reads this
    {
      RefMap(m, r)
    }

    constructor ()
      ensures Abs() == RefMap(map[], map[])
    {
      m, r := map[], map[];
    }

    method GetOrPut(key: K, value: V) returns (v: V, put: bool)
      modifies this
      ensures Abs() == old(Abs()).GetOrPut(key, value)
      ensures put == (key !in old(m)) && v == m[key] && v == (if put then value else old(m)[key])
    {
      if key !in m {
        m := m[key := value];
        r := r[key := 1];
        return value, true;
      }
      r := r[key := (if key in r then r[key] else 0) + 1];
      return m[key], false;
    }

    /** Replaces the value of a used key without touching its count; a new key starts with one use. */
    method Put(key: K, value: V)
      modifies this
      ensures Abs() == old(Abs()).Put(key, value) && m == old(m)[key := value]
      ensures old(Abs()).Ok() ==> Abs().Ok() && r == (if key in old(m) then old(r) else old(r)[key := 1])
      ensures old(Abs()).Ok() && key !in old(m) ==> Abs().Remove(key) == old(Abs())
    {
      if key !in r {
        r := r[key := 1];
      }
      m := m[key := value];
    }

    method Remove(key: K)
      modifies this
      ensures Abs() == old(Abs()).Remove(key)
    {
      if key in r {
        if r[key] > 1 {
          r := r[key := r[key] - 1];
        } else {
          m := m - {key};
          r := r - {key};
        }
      }
    }
  }
}

/** Threads that look up, lock, unregister and unlock the mutex of a name. */
module SpawnLock {
  import opened RefCountMaps

  type Name = string
  type Tid = nat
  type Mutex = nat

  datatype PC =
    | Waiting(name: Name, mutex: Mutex)   // after GetOrPut
    | Critical(name: Name, mutex: Mutex)  // after Lock
    | Leaving(name: Name, mutex: Mutex)   // after Remove, before Unlock

  /** Threads outside the protocol have no program counter. */
  datatype State = State(locks: RefMap<Name, Mutex>, owner: map<Mutex, Tid>, pc: map<Tid, PC>, nextMutex: Mutex)

  datatype Event = Enter(t: Tid, name: Name) | Acquire(t: Tid) | Remove(t: Tid) | Unlock(t: Tid)

  function Start(): State { State(RefMap(map[], map[]), map[], map[], 0) }

  function Apply(s: State, e: Event): State
  {
    match e
    case Enter(t, name) =>
      if t in s.pc then s else
        var locks := s.locks.GetOrPut(name, s.nextMutex);
        s.(locks := locks, nextMutex := s.nextMutex + 1,
           pc := s.pc[t := Waiting(name, if name in locks.m then locks.m[name] else 0)])
    case Acquire(t) =>
      if t in s.pc && s.pc[t].Waiting? && s.pc[t].mutex !in s.owner then
        s.(owner := s.owner[s.pc[t].mutex := t], pc := s.pc[t := Critical(s.pc[t].name, s.pc[t].mutex)])
      else s
    case Remove(t) =>
      if t in s.pc && s.pc[t].Critical? then
        s.(locks := s.locks.Remove(s.pc[t].name), pc := s.pc[t := Leaving(s.pc[t].name, s.pc[t].mutex)])
      else s
    case Unlock(t) =>
      if t in s.pc && s.pc[t].Leaving? then s.(owner := s.owner - {s.pc[t].mutex}, pc := s.pc - {t}) else s
  }

  function Run(s: State, es: seq<Event>): State
  {
    if es == [] then s else Apply(Run(s, es[..|es| - 1]), es[|es| - 1])
  }

  predicate InCritical(s: State, t: Tid, name: Name)
  {
    t in s.pc && s.pc[t].Critical? && s.pc[t].name == name
  }

  /** Between `GetOrPut` and `Remove`. */
  predicate IsUser(s: State, t: Tid, name: Name)
  {
    t in s.pc && !s.pc[t].Leaving? && s.pc[t].name == name
  }

  ghost function Users(s: State, name: Name): set<Tid>
  {
    set t | t in s.pc && IsUser(s, t, name)
  }

  ghost predicate Counts(s: State)
  {
    && s.locks.m.Keys == s.locks.r.Keys
    && (forall n :: n in s.locks.r ==> s.locks.r[n] == |Users(s, n)| >= 1)
    && (forall t, n :: IsUser(s, t, n) ==> n in s.locks.m && s.pc[t].mutex == s.locks.m[n])
  }

  ghost predicate Owners(s: State)
  {
    forall t :: t in s.pc && !s.pc[t].Waiting? ==> s.pc[t].mutex in s.owner && s.owner[s.pc[t].mutex] == t
  }

  ghost predicate Inv(s: State) { Counts(s) && Owners(s) }

  lemma EnterUsers(s: State, t: Tid, name: Name, n: Name)
    requires t !in s.pc
    ensures var z := Apply(s, Enter(t, name));
            Users(z, n) == if n == name then Users(s, n) + {t} else Users(s, n)
  {
    var z := Apply(s, Enter(t, name));
    forall u ensures IsUser(z, u, n) <==> IsUser(s, u, n) || (u == t && n == name) {}
  }

  lemma UnmappedIsUnused(s: State, n: Name)
    requires Counts(s) && n !in s.locks.m
    ensures Users(s, n) == {}
  {
    forall u ensures !IsUser(s, u, n) {}
  }

  lemma EnterKeeps(s: State, t: Tid, name: Name)
    requires Inv(s)
    ensures Inv(Apply(s, Enter(t, name)))
  {
    var z := Apply(s, Enter(t, name));
    if t !in s.pc {
      forall n | n in z.locks.r ensures z.locks.r[n] == |Users(z, n)| >= 1 {
        EnterUsers(s, t, name, n);
        if n !in s.locks.m {
          UnmappedIsUnused(s, n);
        }
      }
      forall u, n | IsUser(z, u, n) ensures n in z.locks.m && z.pc[u].mutex == z.locks.m[n] {
        assert u == t || IsUser(s, u, n);
      }
    }
  }

  lemma RemoveKeeps(s: State, t: Tid)
    requires Inv(s)
    ensures Inv(Apply(s, Remove(t)))
  {
    var z := Apply(s, Remove(t));
    if t in s.pc && s.pc[t].Critical? {
      var name := s.pc[t].name;
      assert IsUser(s, t, name);
      assert Users(z, name) == Users(s, name) - {t};
      forall n | n != name ensures Users(z, n) == Users(s, n) {}
      forall u, n | IsUser(z, u, n) ensures n in z.locks.m && z.pc[u].mutex == z.locks.m[n] {
        assert IsUser(s, u, n);
        if n == name {
          assert {t, u} <= Users(s, name);
          assert |Users(s, name) - {t}| > 0 by { assert u in Users(s, name) - {t}; }
        }
      }
    }
  }

  lemma StepKeeps(s: State, e: Event)
    requires Inv(s)
    ensures Inv(Apply(s, e))
  {
    var z := Apply(s, e);
    match e
    case Enter(t, name) => EnterKeeps(s, t, name);
    case Remove(t) => RemoveKeeps(s, t);
    case Acquire(t) =>
      forall n ensures Users(z, n) == Users(s, n) {}
    case Unlock(t) =>
      forall n ensures Users(z, n) == Users(s, n) {}
  }

  lemma {:induction false} RunKeeps(es: seq<Event>)
    ensures Inv(Run(Start(), es))
  {
    if es != [] {
      RunKeeps(es[..|es| - 1]);
      StepKeeps(Run(Start(), es[..|es| - 1]), es[|es| - 1]);
    }
  }

  /** Two threads between `Lock` and `Remove` of one name hold one mutex, so they are one thread. */
  lemma Exclusive(s: State, t: Tid, u: Tid, name: Name)
    requires Inv(s) && InCritical(s, t, name) && InCritical(s, u, name)
    ensures t == u
  {
    assert IsUser(s, t, name) && IsUser(s, u, name);
  }

  /** Nobody is moved out of the critical section by the steps of others. */
  lemma OthersStay(s: State, e: Event, u: Tid, name: Name)
    requires InCritical(s, u, name) && e != Remove(u)
    ensures InCritical(Apply(s, e), u, name)
  {
  }

  /** In every run of any number of threads. */
  lemma MutualExclusion(es: seq<Event>, t: Tid, u: Tid, name: Name)
    requires InCritical(Run(Start(), es), t, name) && InCritical(Run(Start(), es), u, name)
    ensures t == u
  {
    RunKeeps(es);
    Exclusive(Run(Start(), es), t, u, name);
  }

  /** The count of a name is the number of threads using it, all of them on the mapped mutex, and
      the entry is there exactly while somebody uses it. */
  lemma CountIsUsers(es: seq<Event>, name: Name)
    ensures var s := Run(Start(), es);
            && (name in s.locks.m <==> Users(s, name) != {})
            && (name in s.locks.m ==> name in s.locks.r && s.locks.r[name] == |Users(s, name)|)
            && (forall t :: t in Users(s, name) ==> s.pc[t].mutex == s.locks.m[name])
  {
    RunKeeps(es);
    var s := Run(Start(), es);
    if name in s.locks.m {
      assert |Users(s, name)| >= 1;
    }
  }

  /** Everything in use came from an earlier lookup, and only a thread inside holds a mutex. */
  ghost predicate Held(s: State)
  {
    && (forall m :: m in s.owner ==>
          s.owner[m] in s.pc && !s.pc[s.owner[m]].Waiting? && s.pc[s.owner[m]].mutex == m)
    && (forall t :: t in s.pc ==> s.pc[t].mutex < s.nextMutex)
    && (forall n :: n in s.locks.m ==> s.locks.m[n] < s.nextMutex)
  }

  lemma HeldKept(s: State, e: Event)
    requires Inv(s) && Held(s)
    ensures Held(Apply(s, e))
  {
  }

  lemma {:induction false} RunHeld(es: seq<Event>)
    ensures Held(Run(Start(), es))
  {
    if es != [] {
      RunKeeps(es[..|es| - 1]);
      RunHeld(es[..|es| - 1]);
      HeldKept(Run(Start(), es[..|es| - 1]), es[|es| - 1]);
    }
  }

  lemma RunMore(s: State, es: seq<Event>, e: Event)
    ensures Run(s, es + [e]) == Apply(Run(s, es), e)
  {
    assert (es + [e])[..|es|] == es;
  }

  /** A thread that asks for a name waits on the mutex its users have, or, if it has none, on one
      that no thread has. */
  lemma {:induction false} EnterWaitsOnMapped(es: seq<Event>, t: Tid, name: Name)
    requires t !in Run(Start(), es).pc
    ensures var s, z := Run(Start(), es), Run(Start(), es + [Enter(t, name)]);
            && t in z.pc && z.pc == s.pc[t := z.pc[t]] && z.owner == s.owner
            && z.pc[t].Waiting? && z.pc[t].name == name
            && (forall u :: u in Users(s, name) ==> z.pc[t].mutex == s.pc[u].mutex)
            && (Users(s, name) == {} ==>
                  z.pc[t].mutex !in z.owner && forall u :: u in s.pc ==> s.pc[u].mutex != z.pc[t].mutex)
  {
    RunKeeps(es);
    RunHeld(es);
    RunMore(Start(), es, Enter(t, name));
    CountIsUsers(es, name);
  }

  /** Inside the protocol and past `Lock` with this mutex. */
  predicate Holds(s: State, t: Tid, m: Mutex)
  {
    t in s.pc && !s.pc[t].Waiting? && s.pc[t].mutex == m
  }

  /** A waiting thread gets in exactly if no thread holds its mutex. */
  lemma {:induction false} AcquiresExactly(es: seq<Event>, t: Tid)
    requires t in Run(Start(), es).pc && Run(Start(), es).pc[t].Waiting?
    ensures var s, z := Run(Start(), es), Run(Start(), es + [Acquire(t)]);
            var m := s.pc[t].mutex;
            && (InCritical(z, t, s.pc[t].name) <==> forall u :: !Holds(s, u, m))
            && (if InCritical(z, t, s.pc[t].name) then Holds(z, t, m) && z.pc.Keys == s.pc.Keys else z == s)
            && forall u :: u != t && u in s.pc ==> u in z.pc && z.pc[u] == s.pc[u]
  {
    RunKeeps(es);
    RunHeld(es);
    RunMore(Start(), es, Acquire(t));
    var s := Run(Start(), es);
    if s.pc[t].mutex in s.owner {
      assert Holds(s, s.owner[s.pc[t].mutex], s.pc[t].mutex);
    }
  }

  /** A thread inside leaves in two steps, after which a waiting thread of its mutex gets in. */
  lemma {:induction false} WaiterGetsItsTurn(es: seq<Event>, t: Tid, u: Tid)
    requires var s := Run(Start(), es);
             && t in s.pc && s.pc[t].Waiting? && u in s.pc && s.pc[u].Critical? && s.pc[u].mutex == s.pc[t].mutex
    ensures var s := Run(Start(), es);
            var left := Run(Start(), es + [Remove(u)] + [Unlock(u)]);
            var z := Run(Start(), es + [Remove(u)] + [Unlock(u)] + [Acquire(t)]);
            && left.pc == s.pc - {u} && left.owner == s.owner - {s.pc[u].mutex}
            && InCritical(z, t, s.pc[t].name) && z.pc.Keys == s.pc.Keys - {u}
  {
    RunMore(Start(), es, Remove(u));
    RunMore(Start(), es + [Remove(u)], Unlock(u));
    RunMore(Start(), es + [Remove(u)] + [Unlock(u)], Acquire(t));
  }
}
