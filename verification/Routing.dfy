/** Which version of a remote node calls are routed to, recomputed after every etcd event. */
module Routing {
  import opened Strings

  datatype NodeState = Invalid | Starting | Started | Draining | Stopping | Stopped

  /** `rest` stands for the fields that routing does not look at. */
  datatype NodeInfo = NodeInfo(state: NodeState, address: string, startupID: nat, rest: nat)

  datatype Lock = NoLock | Lock(current: int)

  datatype Choice = Nowhere | To(version: string)

  type Infos = map<string, NodeInfo>

  predicate Designated(lock: Lock) { lock.Lock? && lock.current != 0 }

  ghost predicate SomeStarted(infos: Infos) { exists k :: k in infos && infos[k].state.Started? }

  /** What routing promises: the designated version unless it is draining or missing; then any started
      one; then the draining designated one; otherwise nowhere. */
  ghost predicate Route(lock: Lock, infos: Infos, c: Choice)
  {
    if !Designated(lock) then c == Nowhere
    else
      var key := Decimal(lock.current);
      if key in infos && !infos[key].state.Draining? then c == To(key)
      else if SomeStarted(infos) then c.To? && c.version in infos && infos[c.version].state.Started?
      else if key in infos then c == To(key)
      else c == Nowhere
  }

  /** The declarative reading, which is the same rule: a choice is a known version; it is the
      designated one unless that is draining or missing, and then a started one; it is draining only
      if the designated one is draining and nothing is started; and calls are refused exactly when
      there is no designation or neither the designated version nor a started one is known. */
  lemma RouteMeans(lock: Lock, infos: Infos, c: Choice)
    ensures Route(lock, infos, c) <==>
            && (c == Nowhere <==> !Designated(lock) || (Decimal(lock.current) !in infos && !SomeStarted(infos)))
            && (c.To? ==>
                  var key := Decimal(lock.current);
                  && c.version in infos
                  && (key in infos && !infos[key].state.Draining? ==> c.version == key)
                  && (c.version != key ==> infos[c.version].state.Started?)
                  && (infos[c.version].state.Draining? ==> c.version == key && !SomeStarted(infos)))
  {
  }

  /** There always is a route, and the choice is free only among started versions that stand in for a
      draining or missing designated one. */
  lemma RouteIsAlmostUnique(lock: Lock, infos: Infos) returns (c: Choice)
    ensures Route(lock, infos, c)
    ensures forall d :: Route(lock, infos, d) && d != c ==>
              c.To? && d.To? && d.version in infos && infos[d.version].state.Started? && infos[c.version].state.Started?
              && c.version != Decimal(lock.current) && d.version != Decimal(lock.current)
  {
    if !Designated(lock) {
      return Nowhere;
    }
    var key := Decimal(lock.current);
    if key in infos && !infos[key].state.Draining? {
      return To(key);
    }
    if SomeStarted(infos) {
      var k :| k in infos && infos[k].state.Started?;
      return To(k);
    }
    return if key in infos then To(key) else Nowhere;
  }

  class RemoteVersion {
    var info: NodeInfo
    const version: string     // never filled in
    var connected: bool
    ghost var disabled: bool  // `setDisable` was called on it

    constructor (info: NodeInfo)
      ensures this.info == info && version == "" && !connected && !disabled
    {
      this.info, version, connected, disabled := info, "", false, false;
    }

    method SetDisable()
      modifies this
      ensures disabled && !connected && info == old(info)
    {
      connected, disabled := false, true;
    }
  }

  class CosmosRemote {
    var lock: Lock
    var enable: bool
    var current: RemoteVersion?
    var version: map<string, RemoteVersion>

    /** The versions are distinct objects and none has been disabled. */
    ghost predicate Valid()
      reads this, version.Values
    {
      && (forall k :: k in version ==> !version[k].disabled && version[k].version == "")
      && (forall j, k :: j in version && k in version && j != k ==> version[j] != version[k])
      && (current != null ==> current.version == "")
    }

    ghost function Infos(): Infos
      reads this, version.Values
    {
      map k | k in version :: version[k].info
    }

    /** `current` is the object that `c` names, when routing is enabled at all. */
    ghost predicate Chose(c: Choice)
      reads this
    {
      if enable then c.To? && c.version in version && current == version[c.version] else c == Nowhere
    }

    ghost predicate Routed()
      reads this, version.Values
    {
      exists c :: Route(lock, Infos(), c) && Chose(c)
    }

    constructor ()
      ensures Valid() && Routed() && lock == NoLock && version == map[]
    {
      lock, enable, current, version := NoLock, false, null, map[];
      new;
      assert Route(lock, Infos(), Nowhere) && Chose(Nowhere);
    }

    /** The search over the versions, in whatever order the map is walked. */
    method AnyStarted() returns (found: bool, k: string)
      requires Valid()
      ensures found == SomeStarted(Infos())
      ensures found ==> k in version && Infos()[k].state.Started?
    {
      var rest := version.Keys;
      while rest != {}
        invariant rest <= version.Keys
        invariant forall k :: k in version && k !in rest ==> !version[k].info.state.Started?
        decreases |rest|
      {
        k :| k in rest;
        if version[k].info.state == Started {
          assert Infos()[k].state.Started?;
          return true, k;
        }
        rest := rest - {k};
      }
      return false, "";
    }

    method Refresh()
      requires Valid()
      modifies this`enable, this`current
      ensures Valid() && Routed()
    {
      if lock.NoLock? || lock.current == 0 {
        enable := false;
        assert Route(lock, Infos(), Nowhere) && Chose(Nowhere);
        return;
      }
      var key := Decimal(lock.current);
      var has := key in version;
      if has && version[key].info.state != Draining {
        current, enable := version[key], true;
        assert Route(lock, Infos(), To(key)) && Chose(To(key));
        return;
      }
      var found, k := AnyStarted();
      if found {
        current, enable := version[k], true;
        assert Route(lock, Infos(), To(k)) && Chose(To(k));
        return;
      }
      if has {
        current, enable := version[key], true;
        assert Route(lock, Infos(), To(key)) && Chose(To(key));
        return;
      }
      enable := false;
      assert Route(lock, Infos(), Nowhere) && Chose(Nowhere);
    }

    method EtcdUpdateLock(l: int)
      requires Valid()
      modifies this`lock, this`enable, this`current
      ensures Valid() && Routed() && lock == Lock(l) && Infos() == old(Infos())
    {
      lock := Lock(l);
      Refresh();
    }

    method EtcdDeleteLock()
      requires Valid()
      modifies this`lock, this`enable, this`current
      ensures Valid() && Routed() && lock == NoLock && Infos() == old(Infos()) && !enable
    {
      lock := NoLock;
      Refresh();
    }

    method EtcdCreateVersion(info: NodeInfo, v: string)
      requires Valid()
      modifies this`version, this`enable, this`current
      ensures Valid() && Routed() && Infos() == old(Infos())[v := info] && lock == old(lock)
      ensures fresh(version.Values - old(version.Values))
    {
      var r := new RemoteVersion(info);
      version := version[v := r];
      Refresh();
    }

    method EtcdUpdateVersion(info: NodeInfo, v: string)
      requires Valid() && Routed()
      modifies this`version, this`enable, this`current, version.Values
      ensures Valid() && Routed() && Infos() == old(Infos())[v := info] && lock == old(lock)
      ensures fresh(version.Values - old(version.Values))
    {
      if v !in version {
        EtcdCreateVersion(info, v);
        return;
      }
      if info == version[v].info {
        assert Infos() == old(Infos())[v := info];
        return;
      }
      Replace(info, v);
      Refresh();
    }

    /** A new address or start-up id means another process: the old version is disabled and rebuilt. */
    method Replace(info: NodeInfo, v: string)
      requires Valid() && v in version
      modifies this`version, version.Values
      ensures Valid() && v in version && Infos() == old(Infos())[v := info]
      ensures fresh(version.Values - old(version.Values))
      ensures info.address != old(version[v].info.address) || info.startupID != old(version[v].info.startupID)
              <==> version[v] != old(version)[v]
      ensures version[v] != old(version)[v] ==> old(version)[v].disabled
    {
      var r := version[v];
      if info.address != r.info.address || info.startupID != r.info.startupID {
        r.SetDisable();
        var n := new RemoteVersion(info);
        version := version[v := n];
      } else {
        r.info := info;
      }
    }

    method EtcdDeleteVersion(v: string)
      requires Valid()
      modifies this`version, this`enable, this`current, version.Values
      ensures Valid() && Routed() && Infos() == old(Infos()) - {v} && lock == old(lock)
      ensures v in old(version) ==> old(version)[v].disabled
      ensures version.Values <= old(version.Values)
    {
      if v in version {
        var r := version[v];
        version := version - {v};
        if current != null && current.version == r.version {
          current := null;
        }
        r.SetDisable();
      }
      Refresh();
    }

    /** The version a call goes to. */
    method CurrentVersion() returns (r: RemoteVersion?)
      requires Valid() && Routed()
      ensures r == null <==> Route(lock, Infos(), Nowhere)
      ensures r != null ==> !r.disabled && exists k :: k in version && r == version[k] && Route(lock, Infos(), To(k))
    {
      if !enable || current == null {
        return null;
      }
      return current;
    }
  }

  datatype Event =
    | UpdateLock(current: int)
    | DeleteLock
    | UpdateVersion(info: NodeInfo, version: string)
    | DeleteVersion(version: string)

  /** The lock and the infos that a history of events leaves, whatever the routing makes of them. */
  function LockAfter(es: seq<Event>): Lock
  {
    if es == [] then NoLock
    else
      match es[|es| - 1]
      case UpdateLock(l) => Lock(l)
      case DeleteLock => NoLock
      case _ => LockAfter(es[..|es| - 1])
  }

  function InfosAfter(es: seq<Event>): Infos
  {
    if es == [] then map[]
    else
      match es[|es| - 1]
      case UpdateVersion(info, v) => InfosAfter(es[..|es| - 1])[v := info]
      case DeleteVersion(v) => InfosAfter(es[..|es| - 1]) - {v}
      case _ => InfosAfter(es[..|es| - 1])
  }

  /** Routing has no memory: after any history of events, where a call goes is decided by the lock
      and the infos that history leaves. */
  method Replay(es: seq<Event>) returns (served: bool, info: NodeInfo)
    ensures served <==> exists v :: Route(LockAfter(es), InfosAfter(es), To(v))
    ensures served ==>
              exists v ::
                Route(LockAfter(es), InfosAfter(es), To(v)) && v in InfosAfter(es) && InfosAfter(es)[v] == info
  {
    var remote := new CosmosRemote();
    assert es[..0] == [];
    for i := 0 to |es|
      invariant fresh(remote) && fresh(remote.version.Values)
      invariant remote.Valid() && remote.Routed()
      invariant remote.lock == LockAfter(es[..i]) && remote.Infos() == InfosAfter(es[..i])
    {
      assert es[..i + 1][..i] == es[..i];
      match es[i] {
        case UpdateLock(l) => remote.EtcdUpdateLock(l);
        case DeleteLock => remote.EtcdDeleteLock();
        case UpdateVersion(n, v) => remote.EtcdUpdateVersion(n, v);
        case DeleteVersion(v) => remote.EtcdDeleteVersion(v);
      }
    }
    assert es[..|es|] == es;
    var r := remote.CurrentVersion();
    if r == null {
      return false, NodeInfo(Invalid, "", 0, 0);
    }
    return true, r.info;
  }
}
