/** The optional arguments of a call, and their trip to a remote process. */
module CallArgs {
  datatype MailType = Kill | Sync | Async | OnAsyncCallback | Wormhole | Task | TaskCallback

  /** `Nil` is a nil interface; `Other` any argument the parser does not know. The duration is in
      nanoseconds. */
  datatype Arg = Nil | Timeout(nanos: int) | AppendToHead | WaitKilled | Other

  datatype Field = TimeoutField | HeadField | WaitField

  datatype Helper = Helper(fields: seq<Field>, timeout: int, appendToHead: bool, waitKilled: bool,
                           invalid: seq<nat>, conflict: seq<nat>)
  {
    predicate HasErrors() { invalid != [] || conflict != [] }
  }

  /** Which mail types an argument is for. */
  predicate Allowed(t: MailType, a: Arg)
  {
    match a
    case Timeout(_) => t.Kill? || t.Sync? || t.Wormhole?
    case AppendToHead => t.Kill? || t.Sync? || t.Async? || t.Wormhole?
    case WaitKilled => t.Kill?
    case _ => false
  }

  /** One round of the parsing loop, for the i-th argument. */
  function Parse1(t: MailType, h: Helper, i: nat, a: Arg): Helper
  {
    if !Allowed(t, a) then h.(invalid := h.invalid + [i])
    else
      match a
      case Timeout(n) =>
        if h.timeout != 0 then h.(conflict := h.conflict + [i])
        else h.(fields := h.fields + [TimeoutField], timeout := n)
      case AppendToHead =>
        if h.appendToHead then h.(conflict := h.conflict + [i])
        else h.(fields := h.fields + [HeadField], appendToHead := true)
      case _ =>
        if h.waitKilled then h.(conflict := h.conflict + [i])
        else h.(fields := h.fields + [WaitField], waitKilled := true)
  }

  const BLANK := Helper([], 0, false, false, [], [])

  function Parse(t: MailType, ext: seq<Arg>): Helper
  {
    if ext == [] then BLANK else Parse1(t, Parse(t, ext[..|ext| - 1]), |ext| - 1, ext[|ext| - 1])
  }

  method CreateHelper(t: MailType, ext: seq<Arg>) returns (h: Helper)
    ensures h == Parse(t, ext)
  {
    h := BLANK;
    for i := 0 to |ext|
      invariant h == Parse(t, ext[..i])
    {
      assert ext[..i + 1][..i] == ext[..i];
      var v := ext[i];
      match v {
        case Timeout(nanos) =>
          if !(t in {Kill, Sync, Wormhole}) {
            h := h.(invalid := h.invalid + [i]);
          } else if h.timeout != 0 {
            h := h.(conflict := h.conflict + [i]);
          } else {
            h := h.(fields := h.fields + [TimeoutField], timeout := nanos);
          }
        case AppendToHead =>
          if !(t in {Kill, Sync, Async, Wormhole}) {
            h := h.(invalid := h.invalid + [i]);
          } else if h.appendToHead {
            h := h.(conflict := h.conflict + [i]);
          } else {
            h := h.(fields := h.fields + [HeadField], appendToHead := true);
          }
        case WaitKilled =>
          if t != Kill {
            h := h.(invalid := h.invalid + [i]);
          } else if h.waitKilled {
            h := h.(conflict := h.conflict + [i]);
          } else {
            h := h.(fields := h.fields + [WaitField], waitKilled := true);
          }
        case _ =>
          h := h.(invalid := h.invalid + [i]);
      }
    }
    assert ext[..|ext|] == ext;
  }

  /** What travels to the remote process. */
  datatype CosmosArgs = CosmosArgs(types: seq<Field>, timeoutInNano: int, appendToHead: bool, waitKilled: bool)

  function GetRemoteArg(h: Helper): CosmosArgs { CosmosArgs(h.fields, h.timeout, h.appendToHead, h.waitKilled) }

  function CreateExt(a: CosmosArgs): seq<Arg>
  {
    (if a.timeoutInNano != 0 then [Timeout(a.timeoutInNano)] else []) +
    (if a.appendToHead then [AppendToHead] else []) +
    (if a.waitKilled then [WaitKilled] else [])
  }

  /** Which lists are accepted: every argument is allowed for the mail type, no flag is repeated, and
      no timeout follows one that is not zero. */
  ghost predicate Accepted(t: MailType, ext: seq<Arg>)
  {
    && (forall i :: 0 <= i < |ext| ==> Allowed(t, ext[i]))
    && (forall i, j :: 0 <= i < j < |ext| && ext[i] == ext[j] ==> ext[i].Timeout?)
    && (forall i, j :: 0 <= i < j < |ext| && ext[i].Timeout? && ext[j].Timeout? ==> ext[i].nanos == 0)
  }

  /** The timeout in force: the last one given. */
  ghost predicate Reflects(h: Helper, ext: seq<Arg>)
  {
    && (h.appendToHead <==> AppendToHead in ext)
    && (h.waitKilled <==> WaitKilled in ext)
    && ((forall a :: a in ext ==> !a.Timeout? || a.nanos == 0) ==> h.timeout == 0)
    && (forall a :: a in ext && a.Timeout? && a.nanos != 0 ==> h.timeout == a.nanos)
  }

  lemma AcceptedPrefix(t: MailType, ext: seq<Arg>, a: Arg)
    ensures Accepted(t, ext + [a]) <==>
            && Accepted(t, ext) && Allowed(t, a)
            && (a.Timeout? || a !in ext)
            && (a.Timeout? ==> forall b :: b in ext && b.Timeout? ==> b.nanos == 0)
  {
    var all := ext + [a];
    if Accepted(t, all) {
      forall i | 0 <= i < |ext| ensures Allowed(t, ext[i]) {
        assert all[i] == ext[i];
      }
      forall i, j | 0 <= i < j < |ext| && ext[i] == ext[j] ensures ext[i].Timeout? {
        assert all[i] == all[j];
      }
      forall i, j | 0 <= i < j < |ext| && ext[i].Timeout? && ext[j].Timeout? ensures ext[i].nanos == 0 {
        assert all[i] == ext[i] && all[j] == ext[j];
      }
      assert all[|ext|] == a;
      forall b | b in ext ensures (b == a ==> a.Timeout?) && (a.Timeout? && b.Timeout? ==> b.nanos == 0) {
        var i :| 0 <= i < |ext| && ext[i] == b;
        assert all[i] == b;
      }
    }
  }

  /** The loop reports no error exactly on accepted lists, and then its result reflects the list. */
  lemma {:induction false} ParserAcceptsExactly(t: MailType, ext: seq<Arg>)
    ensures !Parse(t, ext).HasErrors() <==> Accepted(t, ext)
    ensures Accepted(t, ext) ==> Reflects(Parse(t, ext), ext)
  {
    if ext != [] {
      var front, a := ext[..|ext| - 1], ext[|ext| - 1];
      assert ext == front + [a];
      ParserAcceptsExactly(t, front);
      AcceptedPrefix(t, front, a);
    }
  }

  /** What each type of mail takes: a kill everything, synchronous mails and wormholes a timeout and
      the head flag, asynchronous ones the head flag, and the internal ones nothing. */
  lemma {:induction false} EachMailTakes(t: MailType, a: Arg)
    ensures !Parse(t, [a]).HasErrors() <==>
            match t
            case Kill => a.Timeout? || a.AppendToHead? || a.WaitKilled?
            case Sync => a.Timeout? || a.AppendToHead?
            case Wormhole => a.Timeout? || a.AppendToHead?
            case Async => a.AppendToHead?
            case _ => false
  {
    ParserAcceptsExactly(t, [a]);
    assert [a][0] == a;
  }

  /** An earlier argument of this kind is in force: a flag, or a timeout that is not zero. */
  predicate Repeats(ext: seq<Arg>, i: nat)
    requires i < |ext|
  {
    exists j :: 0 <= j < i && InForce(ext[j], ext[i])
  }

  predicate InForce(a: Arg, b: Arg) { if b.Timeout? then a.Timeout? && a.nanos != 0 else a == b }

  ghost predicate Ascending(s: seq<nat>) { forall i, j :: 0 <= i < j < |s| ==> s[i] < s[j] }

  lemma RepeatsInFront(ext: seq<Arg>, i: nat)
    requires i < |ext| - 1
    ensures Repeats(ext, i) == Repeats(ext[..|ext| - 1], i)
  {
    if Repeats(ext, i) {
      var j :| 0 <= j < i && InForce(ext[j], ext[i]);
      assert InForce(ext[..|ext| - 1][j], ext[..|ext| - 1][i]);
    }
  }

  predicate Sets(t: MailType, a: Arg) { a.Timeout? && a.nanos != 0 && Allowed(t, a) }

  ghost predicate FirstSets(t: MailType, ext: seq<Arg>, k: nat)
  {
    k < |ext| && Sets(t, ext[k]) && forall j :: 0 <= j < k ==> !Sets(t, ext[j])
  }

  /** What is in force after the list, bad arguments included: a flag that is given and allowed, and
      the first allowed timeout that is not zero. */
  lemma {:induction false} SettingsExactly(t: MailType, ext: seq<Arg>)
    ensures var h := Parse(t, ext);
            && (h.appendToHead <==> AppendToHead in ext && Allowed(t, AppendToHead))
            && (h.waitKilled <==> WaitKilled in ext && Allowed(t, WaitKilled))
            && (if h.timeout == 0 then forall a :: a in ext ==> !Sets(t, a)
                else exists k: nat :: FirstSets(t, ext, k) && ext[k].nanos == h.timeout)
  {
    if ext != [] {
      var n := |ext| - 1;
      var front, h := ext[..n], Parse(t, ext[..n]);
      assert ext == front + [ext[n]];
      SettingsExactly(t, front);
      if h.timeout != 0 {
        var k: nat :| FirstSets(t, front, k) && front[k].nanos == h.timeout;
        assert FirstSets(t, ext, k);
      } else if Sets(t, ext[n]) {
        assert FirstSets(t, ext, n);
      }
    }
  }

  predicate Bad(t: MailType, ext: seq<Arg>, i: nat) { i < |ext| && !Allowed(t, ext[i]) }

  /** Exactly the arguments that the mail type does not allow are reported as invalid, each once and
      in order. */
  lemma {:induction false} InvalidExactly(t: MailType, ext: seq<Arg>)
    ensures var invalid := Parse(t, ext).invalid;
            Ascending(invalid) && forall i: nat :: i in invalid <==> Bad(t, ext, i)
  {
    if ext != [] {
      var n := |ext| - 1;
      InvalidExactly(t, ext[..n]);
      LastReport(t, ext);
      forall i: nat | i < n ensures Bad(t, ext, i) == Bad(t, ext[..n], i) {}
      CollectNext(Parse(t, ext[..n]).invalid, (i: nat) => Bad(t, ext, i), n);
    }
  }

  predicate Conflicts(t: MailType, ext: seq<Arg>, i: nat)
  {
    i < |ext| && Allowed(t, ext[i]) && Repeats(ext, i)
  }

  /** Exactly the allowed arguments that repeat one in force are reported as conflicting, each once
      and in order. */
  lemma {:induction false} ConflictsExactly(t: MailType, ext: seq<Arg>)
    ensures var conflict := Parse(t, ext).conflict;
            Ascending(conflict) && forall i: nat :: i in conflict <==> Conflicts(t, ext, i)
  {
    if ext != [] {
      var n := |ext| - 1;
      var was, p := Parse(t, ext[..n]).conflict, (i: nat) => Conflicts(t, ext, i);
      assert Collected(was, p, n) by {
        ConflictsExactly(t, ext[..n]);
        ConflictsInFront(t, ext);
      }
      assert Parse(t, ext).conflict == if p(n) then was + [n] else was by {
        LastReport(t, ext);
      }
      CollectNext(was, p, n);
    }
  }

  lemma ConflictsInFront(t: MailType, ext: seq<Arg>)
    requires ext != []
    ensures forall i: nat :: i < |ext| - 1 ==> Conflicts(t, ext, i) == Conflicts(t, ext[..|ext| - 1], i)
  {
    forall i: nat | i < |ext| - 1 ensures Conflicts(t, ext, i) == Conflicts(t, ext[..|ext| - 1], i) {
      RepeatsInFront(ext, i);
    }
  }

  /** Every argument is a field, invalid or conflicting. */
  lemma {:induction false} RestIsFields(t: MailType, ext: seq<Arg>)
    ensures var h := Parse(t, ext);
            |h.fields| + |h.invalid| + |h.conflict| == |ext|
  {
    if ext != [] {
      RestIsFields(t, ext[..|ext| - 1]);
      LastReport(t, ext);
    }
  }

  /** The fields that travel along name the flags in force, and whether a timeout is allowed. */
  lemma {:induction false} FieldsMirror(t: MailType, ext: seq<Arg>)
    ensures var h := Parse(t, ext);
            && (HeadField in h.fields <==> h.appendToHead) && (WaitField in h.fields <==> h.waitKilled)
            && (TimeoutField in h.fields <==> exists a :: a in ext && a.Timeout? && Allowed(t, a))
  {
    if ext != [] {
      var n := |ext| - 1;
      FieldsMirror(t, ext[..n]);
      SettingsExactly(t, ext[..n]);
      assert ext == ext[..n] + [ext[n]];
    }
  }

  /** A list of exactly the positions below n that meet p, and the next one. */
  ghost predicate Collected(s: seq<nat>, p: nat -> bool, n: nat)
  {
    Ascending(s) && forall i: nat :: i in s <==> i < n && p(i)
  }

  lemma CollectNext(s: seq<nat>, p: nat -> bool, n: nat)
    requires Collected(s, p, n)
    ensures Collected(if p(n) then s + [n] else s, p, n + 1)
  {
    forall i, j | 0 <= i < j < |s| + 1 ensures (s + [n])[i] < (s + [n])[j] {
      assert s[i] in s;
    }
  }

  lemma LastReport(t: MailType, ext: seq<Arg>)
    requires ext != []
    ensures var n := |ext| - 1;
            var h, z := Parse(t, ext[..n]), Parse(t, ext);
            && z.invalid == (if Allowed(t, ext[n]) then h.invalid else h.invalid + [n])
            && z.conflict == (if Allowed(t, ext[n]) && Repeats(ext, n) then h.conflict + [n] else h.conflict)
            && |z.fields| == |h.fields| + if Allowed(t, ext[n]) && !Repeats(ext, n) then 1 else 0
  {
    var n := |ext| - 1;
    if Allowed(t, ext[n]) {
      LastRepeats(t, ext);
    }
  }

  lemma LastRepeats(t: MailType, ext: seq<Arg>)
    requires ext != [] && Allowed(t, ext[|ext| - 1])
    ensures var h, a := Parse(t, ext[..|ext| - 1]), ext[|ext| - 1];
            Repeats(ext, |ext| - 1) <==>
            if a.Timeout? then h.timeout != 0 else if a.AppendToHead? then h.appendToHead else h.waitKilled
  {
    var n := |ext| - 1;
    var front, h := ext[..n], Parse(t, ext[..n]);
    SettingsExactly(t, front);
    if Repeats(ext, n) {
      var j :| 0 <= j < n && InForce(ext[j], ext[n]);
      assert front[j] == ext[j] && ext[j] in front;
      assert ext[n].Timeout? ==> Sets(t, ext[j]);
    } else {
      forall j | 0 <= j < n ensures !InForce(front[j], ext[n]) {
        assert !InForce(ext[j], ext[n]);
      }
      if ext[n].Timeout? && h.timeout != 0 {
        var k: nat :| FirstSets(t, front, k);
        assert InForce(front[k], ext[n]);
      }
    }
  }

  /** Settings that the mail type allows. */
  ghost predicate Permitted(t: MailType, h: Helper)
  {
    && (h.timeout != 0 ==> Allowed(t, Timeout(h.timeout)))
    && (h.appendToHead ==> Allowed(t, AppendToHead))
    && (h.waitKilled ==> Allowed(t, WaitKilled))
  }

  lemma AcceptedIsPermitted(t: MailType, h: Helper, ext: seq<Arg>)
    requires Accepted(t, ext) && Reflects(h, ext)
    ensures Permitted(t, h)
  {
    if h.timeout != 0 {
      var a :| a in ext && a.Timeout? && a.nanos != 0;
      assert h.timeout == a.nanos;
    }
  }

  lemma RemoteExtIsAccepted(t: MailType, h: Helper)
    requires Permitted(t, h)
    ensures Accepted(t, CreateExt(GetRemoteArg(h)))
  {
  }

  lemma RemoteExtReflects(h: Helper, r: Helper)
    requires Reflects(r, CreateExt(GetRemoteArg(h)))
    ensures r.timeout == h.timeout && r.appendToHead == h.appendToHead && r.waitKilled == h.waitKilled
  {
    var back := CreateExt(GetRemoteArg(h));
    assert AppendToHead in back <==> h.appendToHead;
    assert WaitKilled in back <==> h.waitKilled;
    if h.timeout != 0 {
      assert back[0] == Timeout(h.timeout);
    } else {
      assert forall a :: a in back ==> !a.Timeout?;
    }
  }

  /** Arguments survive the remote hop: whatever list is accepted for a mail type, encoding, decoding
      and parsing again for that type reports no error and yields the same settings. */
  lemma ArgsSurviveRemoteHop(t: MailType, ext: seq<Arg>)
    requires !Parse(t, ext).HasErrors()
    ensures var h := Parse(t, ext);
            var r := Parse(t, CreateExt(GetRemoteArg(h)));
            && !r.HasErrors()
            && r.timeout == h.timeout && r.appendToHead == h.appendToHead && r.waitKilled == h.waitKilled
  {
    var h := Parse(t, ext);
    ParserAcceptsExactly(t, ext);
    AcceptedIsPermitted(t, h, ext);
    RemoteExtIsAccepted(t, h);
    ParserAcceptsExactly(t, CreateExt(GetRemoteArg(h)));
    RemoteExtReflects(h, Parse(t, CreateExt(GetRemoteArg(h))));
  }
}
