/** The grammar of the cluster's etcd keys. */
module EtcdKeys {
  import opened Strings

  function WatchAllURI(cosmos: string): string { "/cosmos/" + cosmos + "/node/" }

  function LockURI(cosmos: string, node: string): string { "/cosmos/" + cosmos + "/node/" + node + "/version/" }

  function VersionURI(cosmos: string, node: string, version: int): string
  {
    "/cosmos/" + cosmos + "/node/" + node + "/version/" + Decimal(version)
  }

  predicate NameChar(c: char)
  {
    '0' <= c <= '9' || 'A' <= c <= 'Z' || 'a' <= c <= 'z' || c == '.' || c == '_'
  }

  /** Both `CheckCosmosName` and `CheckNodeName`. */
  predicate ValidName(s: string) { s != "" && forall c :: c in s ==> NameChar(c) }

  function TrimPrefix(s: string, prefix: string): string
  {
    if prefix <= s then s[|prefix|..] else s
  }

  datatype Handling =
    | InvalidKey
    | LockInfo(node: string, put: bool)
    | NodeInfo(node: string, version: string, put: bool)

  function HandleKey(key: string, put: bool): Handling
  {
    var keys := Split(key, '/');
    if |keys| != 3 then InvalidKey
    else if keys[1] != "version" then InvalidKey
    else if keys[2] == "" then LockInfo(keys[0], put)
    else NodeInfo(keys[0], keys[2], put)
  }

  /** What the watcher of a cosmos does with an event on a key. */
  function Watch(cosmos: string, key: string, put: bool): Handling
  {
    var prefix := WatchAllURI(cosmos);
    if prefix <= key then HandleKey(TrimPrefix(key, prefix), put) else InvalidKey
  }

  lemma JoinKey(node: string, version: string)
    ensures Join([node, "version", version], '/') == node + "/version/" + version
  {
    var b := "version";
    assert [node, b, version][1..] == [b, version] && [b, version][1..] == [version];
    assert Join([b, version], '/') == b + ['/'] + version;
    assert Join([node, b, version], '/') == node + ['/'] + (b + ['/'] + version);
  }

  function Dispatch(put: bool, node: string, version: string): Handling
  {
    if version == "" then LockInfo(node, put) else NodeInfo(node, version, put)
  }

  lemma Dispatches(put: bool, node: string, version: string)
    requires '/' !in node && '/' !in version
    ensures HandleKey(node + "/version/" + version, put) == Dispatch(put, node, version)
  {
    JoinKey(node, version);
    SplitJoin([node, "version", version], '/');
  }

  lemma DispatchedKey(key: string, put: bool, node: string, version: string)
    requires HandleKey(key, put) == Dispatch(put, node, version)
    ensures '/' !in node && '/' !in version && key == node + "/version/" + version
  {
    var parts := Split(key, '/');
    JoinSplit(key, '/');
    assert parts == [parts[0], parts[1], parts[2]];
    assert parts[0] in parts && parts[2] in parts;
    JoinKey(node, version);
  }

  /** Exactly which suffixes are dispatched, and to what. */
  lemma DispatchIsExact(key: string, put: bool, node: string, version: string)
    ensures HandleKey(key, put) == Dispatch(put, node, version)
            <==> '/' !in node && '/' !in version && key == node + "/version/" + version
  {
    if HandleKey(key, put) == Dispatch(put, node, version) {
      DispatchedKey(key, put, node, version);
    } else if '/' !in node && '/' !in version {
      Dispatches(put, node, version);
    }
  }

  lemma SlashFree(s: string)
    requires ValidName(s)
    ensures '/' !in s
  {
  }

  /** A printed lock key comes back as the lock of its node. */
  lemma LockKeyRoundTrip(cosmos: string, node: string, put: bool)
    requires ValidName(cosmos) && ValidName(node)
    ensures Watch(cosmos, LockURI(cosmos, node), put) == LockInfo(node, put)
  {
    SlashFree(node);
    assert LockURI(cosmos, node) == WatchAllURI(cosmos) + (node + "/version/" + "");
    Dispatches(put, node, "");
  }

  /** A printed version key comes back as that version of its node, in the decimal form that the
      routing table is looked up with. */
  lemma VersionKeyRoundTrip(cosmos: string, node: string, version: int, put: bool)
    requires ValidName(cosmos) && ValidName(node)
    ensures Watch(cosmos, VersionURI(cosmos, node, version), put) == NodeInfo(node, Decimal(version), put)
  {
    SlashFree(node);
    assert VersionURI(cosmos, node, version) == WatchAllURI(cosmos) + (node + "/version/" + Decimal(version));
    Dispatches(put, node, Decimal(version));
  }

  lemma PrefixTellsCosmos(cosmos: string, other: string, rest: string)
    requires ValidName(cosmos) && ValidName(other) && WatchAllURI(cosmos) <= WatchAllURI(other) + rest
    ensures cosmos == other
  {
    SlashFree(cosmos);
    SlashFree(other);
    var a, b := WatchAllURI(cosmos), WatchAllURI(other) + rest;
    assert a[|"/cosmos/"|..] == cosmos + ['/'] + "node/";
    assert b[|"/cosmos/"|..] == other + ['/'] + ("node/" + rest);
    assert b == a + b[|a|..];
    assert b[|"/cosmos/"|..] == cosmos + ['/'] + ("node/" + b[|a|..]);
    HeadOf(cosmos, "node/" + b[|a|..], '/');
    HeadOf(other, "node/" + rest, '/');
  }

  /** The watcher of one cosmos takes no key of another. */
  lemma OtherCosmosIsIgnored(cosmos: string, other: string, node: string, version: int, put: bool)
    requires ValidName(cosmos) && ValidName(other) && ValidName(node) && cosmos != other
    ensures Watch(cosmos, LockURI(other, node), put) == InvalidKey
    ensures Watch(cosmos, VersionURI(other, node, version), put) == InvalidKey
  {
    assert LockURI(other, node) == WatchAllURI(other) + (node + "/version/");
    assert VersionURI(other, node, version) == WatchAllURI(other) + (node + "/version/" + Decimal(version));
    if WatchAllURI(cosmos) <= LockURI(other, node) {
      PrefixTellsCosmos(cosmos, other, node + "/version/");
    }
    if WatchAllURI(cosmos) <= VersionURI(other, node, version) {
      PrefixTellsCosmos(cosmos, other, node + "/version/" + Decimal(version));
    }
  }

  /** Keys are equal only for equal cosmos, node and version, and no lock key is a version key. */
  lemma KeysAreDistinct(c1: string, n1: string, v1: int, c2: string, n2: string, v2: int)
    requires ValidName(c1) && ValidName(n1) && ValidName(c2) && ValidName(n2)
    ensures VersionURI(c1, n1, v1) == VersionURI(c2, n2, v2) <==> c1 == c2 && n1 == n2 && v1 == v2
    ensures LockURI(c1, n1) == LockURI(c2, n2) <==> c1 == c2 && n1 == n2
    ensures LockURI(c1, n1) != VersionURI(c2, n2, v2)
  {
    LockKeyRoundTrip(c1, n1, true);
    VersionKeyRoundTrip(c1, n1, v1, true);
    if c1 != c2 {
      OtherCosmosIsIgnored(c1, c2, n2, v2, true);
    } else {
      LockKeyRoundTrip(c2, n2, true);
      VersionKeyRoundTrip(c2, n2, v2, true);
      if Decimal(v1) == Decimal(v2) {
        DecimalIsInjective(v1, v2);
      }
    }
  }
}
