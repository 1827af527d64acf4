/** What one locked region of a mailbox does to the queue, stated on values.
    A queue is a sequence of mails, front first. */
module MailSpec {
  /** The mail counter of a mailbox is a uint32. */
  const UINT32: nat := 0x1_0000_0000

  function Inc(n: nat): nat { if n + 1 == UINT32 then 0 else n + 1 }

  function Dec(n: nat): nat { if n == 0 then UINT32 - 1 else n - 1 }

  datatype Box<T> = Box(queue: seq<T>, num: nat, running: bool) {
    function PushHead(m: T): Box<T> {
      if running then Box([m] + queue, Inc(num), true) else this
    }

    function PushTail(m: T): Box<T> {
      if running then Box(queue + [m], Inc(num), true) else this
    }

    /** The receiver waits while the counter is zero, so it pops only when `num != 0`. */
    function Pop(): Box<T> {
      Box(if queue == [] then [] else queue[1..], Dec(num), running)
    }

    function PopAll(): Box<T> {
      if queue == [] then this else Box([], 0, running)
    }

    function RemoveAt(k: nat): Box<T>
      requires k < |queue|
    {
      Box(queue[..k] + queue[k + 1..], Dec(num), running)
    }

    /** Stops the box, and queues the exit mail, if the counter reads zero. */
    function StopIfNoMail(exit: T): Box<T> {
      if running && num == 0 then Box([exit] + queue, 1, false) else this
    }

    /** The counter is the length of the queue, as a uint32. */
    ghost predicate Counted() { num == |queue| % UINT32 }
  }

  /** Every operation keeps the counter exact, across a wrap too. */
  lemma CounterFollowsAdding<T>(b: Box<T>, m: T)
    requires b.Counted()
    ensures b.PushHead(m).Counted() && b.PushTail(m).Counted() && b.StopIfNoMail(m).Counted()
  {
  }

  lemma CounterFollowsRemoving<T>(b: Box<T>, k: nat)
    requires b.Counted()
    ensures b.PopAll().Counted()
    ensures b.num != 0 ==> b.queue != [] && b.Pop().Counted()
    ensures k < |b.queue| ==> b.RemoveAt(k).Counted()
  {
  }
}

module MailBoxes {
  import opened MailSpec

  class Mail {
    var next: Mail?
    var id: nat
    const exit: bool  // the payload is an exit command

    constructor (id: nat, exit: bool)
      ensures next == null && this.id == id && this.exit == exit
    {
      this.next, this.id, this.exit := null, id, exit;
    }
  }

  /** The mails are distinct and each points at its successor, the last at nothing: from the
      first mail the chain visits them all once and ends. */
  ghost predicate Chain(s: seq<Mail>)
    reads s
  {
    && (forall i, j :: 0 <= i < j < |s| ==> s[i] != s[j])
    && (forall i :: 0 <= i < |s| - 1 ==> s[i].next == s[i + 1])
    && (s != [] ==> s[|s| - 1].next == null)
  }

  /** The singly linked mail queue. `spine` lists the linked mails, front first. */
  class MailBox {
    var running: bool
    var head: Mail?
    var tail: Mail?
    var num: nat
    ghost var spine: seq<Mail>

    ghost predicate Valid()
      reads this, spine
    {
      && Chain(spine)
      && head == NodeAt(0)
      && tail == NodeAt(|spine| - 1)
    }

    ghost function NodeAt(i: int): Mail?
      reads this
    {
      if 0 <= i < |spine| then spine[i] else null
    }

    ghost function Abs(): Box<Mail>
      reads this
    {
      Box(spine, num, running)
    }

    constructor ()
      ensures Valid() && Abs() == Box([], 0, false)
    {
      running, head, tail, num := false, null, null, 0;
      spine := [];
    }

    /** The first region of a start. Mail is accepted from here on. */
    method Start() returns (ok: bool)
      requires Valid()
      modifies this`running
      ensures Valid() && ok == !old(running) && Abs() == old(Abs()).(running := true)
    {
      if running {
        return false;
      }
      running := true;
      return true;
    }

    /** The second region, taken if the start-up hook that the new goroutine runs fails. Mails
        accepted in between stay where they are. */
    method StartFailed()
      requires Valid()
      modifies this`running
      ensures Valid() && Abs() == old(Abs()).(running := false)
    {
      running := false;
    }

    method PushHead(m: Mail) returns (ok: bool)
      requires Valid() && m !in spine && m.next == null
      modifies this`head, this`tail, this`num, this`spine, m`next
      ensures Valid() && ok == old(running) && Abs() == old(Abs()).PushHead(m)
      ensures running == old(running) && spine == if ok then [m] + old(spine) else old(spine)
      ensures !ok ==> m.next == null
    {
      if !running {
        return false;
      }
      num := Inc(num);
      if head == null {
        head := m;
        tail := m;
      } else {
        m.next := head;
        head := m;
      }
      spine := [m] + spine;
      return true;
    }

    method PushTail(m: Mail) returns (ok: bool)
      requires Valid() && m !in spine && m.next == null
      modifies this`head, this`tail, this`num, this`spine, spine`next
      ensures Valid() && ok == old(running) && Abs() == old(Abs()).PushTail(m)
      ensures running == old(running) && spine == if ok then old(spine) + [m] else old(spine)
      ensures !ok ==> m.next == null
    {
      if !running {
        return false;
      }
      num := Inc(num);
      if head == null {
        head := m;
        tail := m;
      } else {
        tail.next := m;
        tail := m;
      }
      spine := spine + [m];
      return true;
    }

    /** Requires what the condition variable waits for. */
    method WaitPop() returns (m: Mail?)
      requires Valid() && num != 0
      modifies this`head, this`tail, this`num, this`spine, spine`next
      ensures Valid() && m == (if old(spine) == [] then null else old(spine)[0])
      ensures m != null ==> m.next == null
      ensures Abs() == old(Abs()).Pop() && running == old(running)
      ensures spine == if old(spine) == [] then [] else old(spine)[1..]
    {
      num := Dec(num);
      m := head;
      if head == tail {
        head := null;
        tail := null;
        if m != null {
          m.next := null;
        }
      } else {
        head := m.next;
        m.next := null;
      }
      spine := if spine == [] then [] else spine[1..];
    }

    /** The first mail with the given id, if any. */
    method GetById(id: nat) returns (m: Mail?)
      requires Valid()
      ensures m == null <==> forall i :: 0 <= i < |spine| ==> spine[i].id != id
      ensures m != null ==> m.id == id
      ensures m != null ==>
              exists k :: 0 <= k < |spine| && m == spine[k] && (forall i :: 0 <= i < k ==> spine[i].id != id)
    {
      m := head;
      ghost var k := 0;
      while m != null
        invariant 0 <= k <= |spine| && m == NodeAt(k)
        invariant forall i :: 0 <= i < k ==> spine[i].id != id
        decreases |spine| - k
      {
        if m.id == id {
          return m;
        }
        m := m.next;
        k := k + 1;
      }
    }

    /** Hands over the whole chain. */
    method PopAll() returns (first: Mail?, count: nat)
      requires Valid()
      modifies this`head, this`tail, this`num, this`spine
      ensures Valid() && Abs() == old(Abs()).PopAll() && spine == [] && running == old(running)
      ensures first == (if old(spine) == [] then null else old(spine)[0])
      ensures count == (if old(spine) == [] then 0 else old(num))
      ensures forall i :: 0 <= i < |old(spine)| - 1 ==> old(spine)[i].next == old(spine)[i + 1]
      ensures old(spine) != [] ==> old(spine)[|old(spine)| - 1].next == null
    {
      if head == null {
        return null, 0;
      }
      first, count := head, num;
      num, head, tail := 0, null, null;
      spine := [];
    }

    /** Unlinks `m`, the k-th mail, whose predecessor is `prev`. */
    method Unlink(prev: Mail?, m: Mail, ghost k: nat)
      requires Valid() && k < |spine| && m == spine[k] && prev == NodeAt(k - 1)
      modifies this`head, this`tail, this`num, this`spine, spine`next
      ensures Valid() && m.next == null && Abs() == old(Abs()).RemoveAt(k)
    {
      num := Dec(num);
      if prev == null {
        head := m.next;
        if m == tail {
          tail := null;
        }
      } else {
        prev.next := m.next;
        if m == tail {
          tail := prev;
          tail.next := null;
        }
      }
      m.next := null;
      spine := spine[..k] + spine[k + 1..];
    }

    /** Removes the first mail with the given id. */
    method PopById(id: nat) returns (m: Mail?)
      requires Valid()
      modifies this`head, this`tail, this`num, this`spine, spine`next
      ensures Valid()
      ensures m == null <==> forall i :: 0 <= i < |old(spine)| ==> old(spine)[i].id != id
      ensures m == null ==> Abs() == old(Abs())
      ensures m != null ==> m.id == id && m.next == null
      ensures m != null ==>
              exists k :: 0 <= k < |old(spine)| && m == old(spine)[k] && Abs() == old(Abs()).RemoveAt(k) &&
                          spine == old(spine)[..k] + old(spine)[k + 1..] &&
                          (forall i :: 0 <= i < k ==> old(spine)[i].id != id)
    {
      var prev: Mail?;
      prev, m := null, head;
      ghost var k := 0;
      while m != null
        invariant 0 <= k <= |spine| && m == NodeAt(k) && prev == NodeAt(k - 1)
        invariant forall i :: 0 <= i < k ==> spine[i].id != id
        invariant Abs() == old(Abs()) && Valid()
        decreases |spine| - k
      {
        if m.id == id {
          Unlink(prev, m, k);
          return m;
        }
        prev := m;
        m := m.next;
        k := k + 1;
      }
    }

    /** Removes exactly the given mail. */
    method RemoveMail(dm: Mail) returns (ok: bool)
      requires Valid()
      modifies this`head, this`tail, this`num, this`spine, spine`next
      ensures Valid() && ok == (dm in old(spine))
      ensures !ok ==> Abs() == old(Abs())
      ensures ok ==> dm.next == null
      ensures ok ==> exists k :: 0 <= k < |old(spine)| && dm == old(spine)[k] && Abs() == old(Abs()).RemoveAt(k) &&
                                 spine == old(spine)[..k] + old(spine)[k + 1..]
    {
      var prev: Mail?, m := null, head;
      ghost var k := 0;
      while m != null
        invariant 0 <= k <= |spine| && m == NodeAt(k) && prev == NodeAt(k - 1)
        invariant dm !in spine[..k]
        invariant Abs() == old(Abs()) && Valid()
        decreases |spine| - k
      {
        if m == dm {
          Unlink(prev, m, k);
          return true;
        }
        prev := m;
        m := m.next;
        k := k + 1;
      }
      return false;
    }

    method StopIfNoMail() returns (killed: bool)
      requires Valid()
      modifies this
      ensures Valid() && killed == (old(running) && old(num) == 0)
      ensures !killed ==> Abs() == old(Abs())
      ensures killed ==> |spine| > 0 && fresh(spine[0]) && spine[0].exit && Abs() == old(Abs()).StopIfNoMail(spine[0])
      ensures killed ==> !running && spine == [spine[0]] + old(spine)
    {
      if !running {
        return false;
      }
      if num > 0 {
        return false;
      }
      running := false;
      var m := new Mail(0, true);
      num := Inc(num);
      if head == null {
        head := m;
        tail := m;
      } else {
        m.next := head;
        head := m;
      }
      spine := [m] + spine;
      return true;
    }
  }
}
