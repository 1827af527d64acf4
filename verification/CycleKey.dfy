/** The key under which the static cycle finder remembers a cycle. */
module CycleKey {
  import opened Strings

  const ARROW := '\U{2192}'

  /** The lexicographic order on names. */
  predicate Less(a: string, b: string)
  {
    b != [] && (a == [] || a[0] < b[0] || (a[0] == b[0] && Less(a[1..], b[1..])))
  }

  lemma {:induction false} LessIsTransitive(a: string, b: string, c: string)
    requires Less(a, b) && Less(b, c)
    ensures Less(a, c)
  {
    if a != [] && a[0] == b[0] == c[0] {
      LessIsTransitive(a[1..], b[1..], c[1..]);
    }
  }

  lemma {:induction false} LessIsTotal(a: string, b: string)
    ensures Less(a, b) || a == b || Less(b, a)
  {
    if a != [] && b != [] && a[0] == b[0] {
      LessIsTotal(a[1..], b[1..]);
      assert a == [a[0]] + a[1..] && b == [b[0]] + b[1..];
    }
  }

  lemma {:induction false} LessIsIrreflexive(a: string)
    ensures !Less(a, a)
  {
    if a != [] {
      LessIsIrreflexive(a[1..]);
    }
  }

  predicate Distinct(s: seq<string>) { forall i, j :: 0 <= i < j < |s| ==> s[i] != s[j] }

  /** The nodes of a simple cycle, once each. No name holds the separator, as no identifier does. */
  predicate Simple(s: seq<string>) { s != [] && Distinct(s) && forall x :: x in s ==> ARROW !in x }

  function Rotate<T>(s: seq<T>, k: nat): (r: seq<T>)
    requires k <= |s|
    ensures |r| == |s|
  {
    s[k..] + s[..k]
  }

  ghost predicate IsRotation<T(!new)>(s: seq<T>, t: seq<T>) { exists k :: 0 <= k < |s| && t == Rotate(s, k) }

  /** A cycle as the finder has it: its first node is repeated at the end. */
  function Closed<T>(s: seq<T>): seq<T>
    requires s != []
  {
    s + [s[0]]
  }

  predicate IsMin(s: seq<string>, k: nat)
    requires k < |s|
  {
    forall i :: 0 <= i < |s| && i != k ==> Less(s[k], s[i])
  }

  lemma {:induction false} MinExists(s: seq<string>)
    requires Simple(s)
    ensures exists k: nat :: k < |s| && IsMin(s, k)
  {
    if |s| == 1 {
      assert IsMin(s, 0);
    } else {
      var f := s[..|s| - 1];
      MinExists(f);
      var k: nat :| k < |f| && IsMin(f, k);
      LessIsTotal(s[|s| - 1], s[k]);
      if Less(s[|s| - 1], s[k]) {
        forall i | 0 <= i < |s| - 1 ensures Less(s[|s| - 1], s[i]) {
          if i != k {
            LessIsTransitive(s[|s| - 1], s[k], f[i]);
          }
        }
        assert IsMin(s, |s| - 1);
      } else {
        assert IsMin(s, k);
      }
    }
  }

  lemma MinIsUnique(s: seq<string>, j: nat, k: nat)
    requires j < |s| && k < |s| && IsMin(s, j) && IsMin(s, k)
    ensures j == k
  {
    if j != k {
      LessIsTransitive(s[j], s[k], s[j]);
      LessIsIrreflexive(s[j]);
    }
  }

  ghost function MinIdx(s: seq<string>): (k: nat)
    requires Simple(s)
    ensures k < |s| && IsMin(s, k)
  {
    MinExists(s);
    var k: nat :| k < |s| && IsMin(s, k);
    k
  }

  /** The key of a cycle given by its nodes: the join of the cycle rotated to its least name. */
  ghost function Key(s: seq<string>): string
    requires Simple(s)
  {
    Join(Closed(Rotate(s, MinIdx(s))), ARROW)
  }

  lemma TwiceAtLeast(n: nat, q: nat)
    ensures q >= 2 ==> n * q >= n * 2
  {
    if q >= 2 {
      assert n * q == n * 2 + n * (q - 2);
    }
  }

  lemma Wraps(x: nat, n: nat)
    requires n > 0 && x < 2 * n
    ensures x % n == if x < n then x else x - n
  {
    var q := x / n;
    assert x == n * q + x % n;
    TwiceAtLeast(n, q);
    assert q == 0 || q == 1;
  }

  /** `canonicalCycleKey`: the join of the cycle rotated to its least name, its first node repeated. */
  method CanonicalCycleKey(cycle: seq<string>) returns (key: string)
    requires |cycle| >= 2 && cycle[|cycle| - 1] == cycle[0] && Simple(cycle[..|cycle| - 1])
    ensures key == Key(cycle[..|cycle| - 1])
  {
    ghost var s := cycle[..|cycle| - 1];
    var minIdx := 0;
    for i := 1 to |cycle| - 1
      invariant 0 <= minIdx < i
      invariant forall j :: 0 <= j < i && j != minIdx ==> Less(s[minIdx], s[j])
    {
      LessIsTotal(s[i], s[minIdx]);
      if Less(cycle[i], cycle[minIdx]) {
        forall j | 0 <= j < i ensures Less(s[i], s[j]) {
          if j != minIdx {
            LessIsTransitive(s[i], s[minIdx], s[j]);
          }
        }
        minIdx := i;
      }
    }
    var n := |cycle| - 1;
    MinIsUnique(s, minIdx, MinIdx(s));
    ghost var c := Rotate(s, minIdx);
    var rotated := [];
    for i := 0 to n + 1
      invariant rotated == Closed(c)[..i]
    {
      Wraps(minIdx + i, n);
      assert Closed(c)[i] == cycle[(minIdx + i) % n];
      rotated := rotated + [cycle[(minIdx + i) % n]];
    }
    assert Closed(c)[..n + 1] == Closed(c);
    key := Join(rotated, ARROW);
  }

  /** Where the i-th element after a rotation by k comes from, and where the i-th goes. */
  function From(n: nat, k: nat, i: nat): nat { if i + k < n then i + k else i + k - n }

  function Back(n: nat, k: nat, i: nat): nat
    requires k <= n
  {
    if i >= k then i - k else i + n - k
  }

  lemma RotateTwice<T>(s: seq<T>, j: nat, k: nat)
    requires j <= |s| && k <= |s|
    ensures Rotate(Rotate(s, j), k) == Rotate(s, if j + k <= |s| then j + k else j + k - |s|)
  {
    var m := if j + k <= |s| then j + k else j + k - |s|;
    forall i | 0 <= i < |s| ensures Rotate(Rotate(s, j), k)[i] == Rotate(s, m)[i] {
    }
  }

  lemma RotateBack<T>(s: seq<T>, k: nat)
    requires k <= |s|
    ensures Rotate(Rotate(s, k), |s| - k) == s
  {
  }

  lemma RotationIsSimple(s: seq<string>, k: nat)
    requires Simple(s) && k < |s|
    ensures Simple(Rotate(s, k))
  {
    var r := Rotate(s, k);
    forall i, j | 0 <= i < j < |r| ensures r[i] != r[j] {
      assert r[i] == s[From(|s|, k, i)] && r[j] == s[From(|s|, k, j)];
    }
    forall x | x in r ensures ARROW !in x {
      assert x in s;
    }
  }

  lemma MinMoves(s: seq<string>, k: nat)
    requires Simple(s) && k < |s|
    ensures Back(|s|, k, MinIdx(s)) < |s| && IsMin(Rotate(s, k), Back(|s|, k, MinIdx(s)))
  {
    var r, m := Rotate(s, k), MinIdx(s);
    var j := Back(|s|, k, m);
    assert r[j] == s[m];
    forall i | 0 <= i < |r| && i != j ensures Less(r[j], r[i]) {
      assert r[i] == s[From(|s|, k, i)] && From(|s|, k, i) != m;
    }
  }

  lemma RotationsShareKey(s: seq<string>, k: nat)
    requires Simple(s) && k < |s|
    ensures Simple(Rotate(s, k)) && Key(Rotate(s, k)) == Key(s)
  {
    RotationIsSimple(s, k);
    var r, j := Rotate(s, k), Back(|s|, k, MinIdx(s));
    MinMoves(s, k);
    MinIsUnique(r, j, MinIdx(r));
    RotateTwice(s, k, j);
    assert Rotate(s, |s|) == Rotate(s, 0);
  }

  lemma KeyTellsCanonical(a: seq<string>, b: seq<string>)
    requires Simple(a) && Simple(b) && Key(a) == Key(b)
    ensures Rotate(a, MinIdx(a)) == Rotate(b, MinIdx(b))
  {
    RotationIsSimple(a, MinIdx(a));
    RotationIsSimple(b, MinIdx(b));
    var c, d := Rotate(a, MinIdx(a)), Rotate(b, MinIdx(b));
    SplitJoin(Closed(c), ARROW);
    SplitJoin(Closed(d), ARROW);
    assert c == Closed(c)[..|Closed(c)| - 1] && d == Closed(d)[..|Closed(d)| - 1];
  }

  lemma SameKeyMeansRotation(a: seq<string>, b: seq<string>)
    requires Simple(a) && Simple(b) && Key(a) == Key(b)
    ensures IsRotation(a, b)
  {
    KeyTellsCanonical(a, b);
    var j, k := MinIdx(a), MinIdx(b);
    RotateBack(b, k);
    RotateTwice(a, j, |b| - k);
    var m := if j + (|b| - k) <= |a| then j + (|b| - k) else j + (|b| - k) - |a|;
    assert b == Rotate(a, m);
    if m == |a| {
      assert b == Rotate(a, 0);
    }
  }

  /** Two simple cycles get the same key exactly when one is a rotation of the other. */
  lemma SameKeyIffRotation(a: seq<string>, b: seq<string>)
    requires Simple(a) && Simple(b)
    ensures Key(a) == Key(b) <==> IsRotation(a, b)
  {
    if Key(a) == Key(b) {
      SameKeyMeansRotation(a, b);
    }
    if IsRotation(a, b) {
      var k: nat :| k < |a| && b == Rotate(a, k);
      RotationsShareKey(a, k);
    }
  }
}
