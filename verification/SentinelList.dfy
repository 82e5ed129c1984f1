/** The wait set of the event monitor: a circular doubly linked list through a
    sentinel, as linked nodes. Every method is proved against the sequence of
    the nodes in list order. */
module SentinelList {
  import opened Common

  class Node {
    const context: nat
    var next: Node?
    var prev: Node?
    var inList: bool

    constructor (context: nat)
      ensures this.context == context && !inList
    {
      this.context := context;
      next, prev, inList := null, null, false;
    }
  }

  /** The node at position `i` of the ring, the sentinel being at 0 and at the end. */
  ghost function At(head: Node, spine: seq<Node>, i: int): Node {
    if 1 <= i <= |spine| then spine[i - 1] else head
  }

  /** Neighbours in the ring are linked both ways. */
  ghost predicate Ring(head: Node, spine: seq<Node>)
    reads head, spine
  {
    forall i :: 0 <= i <= |spine| ==>
      At(head, spine, i).next == At(head, spine, i + 1) && At(head, spine, i + 1).prev == At(head, spine, i)
  }

  /** The nodes whose context is (or is not) among `cs`, in order. */
  ghost function Select(q: seq<Node>, cs: set<nat>, inside: bool): seq<Node> {
    if q == [] then []
    else (if (q[0].context in cs) == inside then [q[0]] else []) + Select(q[1..], cs, inside)
  }

  lemma {:induction false} Selected(q: seq<Node>, cs: set<nat>, inside: bool, n: Node)
    ensures n in Select(q, cs, inside) <==> n in q && (n.context in cs) == inside
  {
    if q != [] {
      Selected(q[1..], cs, inside, n);
      assert n in q <==> n == q[0] || n in q[1..];
    }
  }

  ghost function Reverse(q: seq<Node>): seq<Node> {
    if q == [] then [] else Reverse(q[1..]) + [q[0]]
  }

  /** A notification posts to exactly the nodes it does not leave in the list. */
  lemma {:induction false} NobodyLost(q: seq<Node>, cs: set<nat>)
    ensures multiset(Reverse(Select(q, cs, true))) + multiset(Select(q, cs, false)) == multiset(q)
  {
    hide Select, Reverse;
    SelectNone(cs);
    if q != [] {
      var rest := q[1..];
      NobodyLost(rest, cs);
      SelectStep(q, 1, cs);
      assert q[0..] == q && q == [q[0]] + rest;
      OneMore(q[0], rest, Select(rest, cs, false), Reverse(Select(rest, cs, true)));
      assert [] + Select(rest, cs, false) == Select(rest, cs, false);
      assert Reverse(Select(rest, cs, true)) + [] == Reverse(Select(rest, cs, true));
    }
  }

  lemma OneMore(x: Node, rest: seq<Node>, kept: seq<Node>, posted: seq<Node>)
    requires multiset(posted) + multiset(kept) == multiset(rest)
    ensures multiset(posted + [x]) + multiset(kept) == multiset([x] + rest)
    ensures multiset(posted) + multiset([x] + kept) == multiset([x] + rest)
  {
  }

  class List {
    const head: Node
    var count: nat
    ghost var spine: seq<Node>

    ghost predicate Valid()
      reads this, head, spine
    {
      head !in spine && Distinct(spine) && count == |spine| && Ring(head, spine)
    }

    constructor ()
      ensures Valid() && fresh(head) && spine == []
    {
      var h := new Node(0);
      h.next, h.prev := h, h;
      head, count, spine := h, 0, [];
    }

    /** `add`: to the back of the list. */
    method Add(n: Node)
      requires Valid() && n != head && n !in spine
      modifies `count, `spine, head`next, head`prev, n`next, n`prev, spine`next
      ensures Valid() && spine == old(spine) + [n]
    {
      var last := head.prev;
      assert last == At(head, spine, |spine|) by { assert At(head, spine, |spine| + 1).prev == At(head, spine, |spine|); }
      count := count + 1;
      n.prev := last;
      n.next := head;
      last.next := n;
      head.prev := n;
      ghost var was := spine;
      spine := spine + [n];
      forall i | 0 <= i <= |spine|
        ensures At(head, spine, i).next == At(head, spine, i + 1) && At(head, spine, i + 1).prev == At(head, spine, i)
      {
        if i < |was| {
          assert old(At(head, was, i).next) == At(head, was, i + 1) && old(At(head, was, i + 1).prev) == At(head, was, i);
          assert At(head, spine, i) == At(head, was, i) && At(head, was, i) != last;
        }
      }
    }

    /** `remove`: the node at position `k`, wherever it stands. */
    method Remove(n: Node, ghost k: nat)
      requires Valid() && k < |spine| && spine[k] == n
      modifies `count, `spine, head`next, head`prev, spine`next, spine`prev
      ensures Valid() && spine == old(spine[..k] + spine[k + 1..])
      ensures n.prev == old(n.prev)
      ensures forall m :: m in old(spine) && m != n ==> m in spine
    {
      assert At(head, spine, k + 1) == n;
      assert n.prev == At(head, spine, k);
      assert n.next == At(head, spine, k + 2);
      ghost var was := spine;
      count := count - 1;
      n.prev.next := n.next;
      n.next.prev := n.prev;
      spine := spine[..k] + spine[k + 1..];
      forall i | 0 <= i <= |spine|
        ensures At(head, spine, i).next == At(head, spine, i + 1) && At(head, spine, i + 1).prev == At(head, spine, i)
      {
        ghost var j := if i <= k then i else i + 1;
        assert At(head, spine, i) == At(head, was, j);
        assert At(head, spine, i + 1) == At(head, was, if i == k then j + 2 else j + 1);
        assert old(At(head, was, j).next) == At(head, was, j + 1) && old(At(head, was, j + 1).prev) == At(head, was, j);
      }
    }

    /** `flush_to`: all nodes at once, into a list that has none. */
    method FlushTo(other: List)
      requires Valid() && other.Valid() && other.spine == []
      requires other != this && other.head != head && other.head !in spine
      modifies this, other, head`next, head`prev, other.head`next, other.head`prev, spine`next, spine`prev
      ensures Valid() && other.Valid() && spine == [] && other.spine == old(spine)
    {
      if count > 0 {
        assert head.next == spine[0] && head.prev == spine[|spine| - 1] by {
          assert At(head, spine, 0).next == At(head, spine, 1);
          assert At(head, spine, |spine| + 1).prev == At(head, spine, |spine|);
        }
        other.count := count;
        other.head.next := head.next;
        other.head.prev := head.prev;
        head.next.prev := other.head;
        head.prev.next := other.head;
        other.spine := spine;
        forall i | 0 <= i <= |spine|
          ensures At(other.head, spine, i).next == At(other.head, spine, i + 1)
          ensures At(other.head, spine, i + 1).prev == At(other.head, spine, i)
        {
          assert old(At(head, spine, i).next) == At(head, spine, i + 1);
          assert old(At(head, spine, i + 1).prev) == At(head, spine, i);
        }
        head.next := head;
        head.prev := head;
        count := 0;
        spine := [];
      }
    }

    /** Every node in the list has its flag up. */
    ghost predicate FlagsUp()
      reads this, spine
    {
      forall n :: n in spine ==> n.inList
    }

    /** The nodes of the list in order, as a notification walks it from the front
        to post to them. */
    method Walk() returns (nodes: seq<Node>)
      requires Valid()
      ensures nodes == spine
    {
      nodes := [];
      var n := head.next;
      ghost var i := 0;
      assert n == At(head, spine, 1) by { assert At(head, spine, 0).next == At(head, spine, 1); }
      while n != head
        invariant i <= |spine| && n == At(head, spine, i + 1) && nodes == spine[..i]
        decreases |spine| - i
      {
        assert At(head, spine, i + 1).next == At(head, spine, i + 2);
        var nxt := n.next;
        nodes := nodes + [n];
        i := i + 1;
        n := nxt;
      }
    }

    /** Lowers the flag of every node, from front to back. */
    method ClearFlags()
      requires Valid()
      modifies spine`inList
      ensures forall n :: n in spine ==> !n.inList
    {
      var n := head.next;
      ghost var i := 0;
      assert n == At(head, spine, 1) by { assert At(head, spine, 0).next == At(head, spine, 1); }
      while n != head
        invariant i <= |spine| && n == At(head, spine, i + 1)
        invariant forall j :: 0 <= j < i ==> !spine[j].inList
        decreases |spine| - i
      {
        n.inList := false;
        assert At(head, spine, i + 1).next == At(head, spine, i + 2);
        n := n.next;
        i := i + 1;
      }
    }

    /** `notify_all`: every node leaves the list with its flag down; the wakeups go
        out in list order. */
    method NotifyAll() returns (posted: seq<Node>)
      requires Valid() && FlagsUp()
      modifies this, head, spine
      ensures Valid() && spine == [] && posted == old(spine)
      ensures forall n :: n in posted ==> !n.inList
    {
      if count == 0 { return []; }
      var temp := new List();
      FlushTo(temp);
      temp.ClearFlags();
      posted := temp.Walk();
    }

    /** The two lists share no node. */
    ghost predicate Apart(temp: List)
      reads this, temp
    {
      && temp != this && temp.head != head && temp.head !in spine && head !in temp.spine
      && forall n :: n in spine ==> n !in temp.spine
    }

    /** Takes one node out and lowers its flag. */
    method TakeOut(n: Node, temp: List, ghost k: nat)
      requires Valid() && temp.Valid() && Apart(temp) && k < |spine| && spine[k] == n
      modifies `count, `spine, head`next, head`prev, spine`next, spine`prev, n`inList
      ensures Valid() && temp.Valid() && Apart(temp)
      ensures spine == old(spine[..k] + spine[k + 1..]) && n !in spine && !n.inList && n !in temp.spine
    {
      n.inList := false;
      Remove(n, k);
      assert forall m :: m in temp.spine ==> m.next == old(m.next) && m.prev == old(m.prev);
      forall i | 0 <= i <= |temp.spine|
        ensures At(temp.head, temp.spine, i).next == At(temp.head, temp.spine, i + 1) && At(temp.head, temp.spine, i + 1).prev == At(temp.head, temp.spine, i)
      {
        assert old(At(temp.head, temp.spine, i).next) == At(temp.head, temp.spine, i + 1);
        assert old(At(temp.head, temp.spine, i + 1).prev) == At(temp.head, temp.spine, i);
      }
    }

    /** Appends a node of neither list to `temp`. */
    method PutInto(n: Node, temp: List)
      requires Valid() && temp.Valid() && Apart(temp) && n !in spine && n !in temp.spine && n != head && n != temp.head
      modifies temp`count, temp`spine, temp.head`next, temp.head`prev, n`next, n`prev, temp.spine`next
      ensures Valid() && temp.Valid() && Apart(temp) && temp.spine == old(temp.spine) + [n]
    {
      temp.Add(n);
      assert forall m :: m in spine ==> m.next == old(m.next) && m.prev == old(m.prev);
      forall i | 0 <= i <= |spine|
        ensures At(head, spine, i).next == At(head, spine, i + 1) && At(head, spine, i + 1).prev == At(head, spine, i)
      {
        assert old(At(head, spine, i).next) == At(head, spine, i + 1);
        assert old(At(head, spine, i + 1).prev) == At(head, spine, i);
      }
    }

    /** How far `notify` has come when the nodes from position `i` on are dealt with. */
    ghost predicate Progress(was: seq<Node>, i: int, cs: set<nat>, temp: List)
      reads this, temp
    {
      && 0 <= i <= |was|
      && spine == was[..i] + Select(was[i..], cs, false)
      && temp.spine == Reverse(Select(was[i..], cs, true))
    }

    /** Nodes still in the list have their flag up, those taken out have not. */
    ghost predicate FlagsSplit(was: seq<Node>, temp: List)
      reads this, spine, temp, temp.spine
    {
      && (forall n :: n in spine ==> n in was && n.inList)
      && (forall n :: n in temp.spine ==> n in was && !n.inList)
    }

    /** One turn of the loop of `notify`, at the node before position `i`. */
    method Visit(n: Node, temp: List, cs: set<nat>, ghost was: seq<Node>, ghost i: int) returns (nxt: Node)
      requires Valid() && temp.Valid() && Apart(temp) && FlagsSplit(was, temp)
      requires Progress(was, i, cs, temp) && n == At(head, spine, i) && n != head
      modifies `count, `spine, head`next, head`prev, spine`next, spine`prev, spine`inList
      modifies temp`count, temp`spine, temp.head`next, temp.head`prev, temp.spine`next
      ensures Valid() && temp.Valid() && Apart(temp) && FlagsSplit(was, temp)
      ensures Progress(was, i - 1, cs, temp) && nxt == At(head, spine, i - 1)
    {
      hide Select, Reverse;
      assert At(head, spine, i - 1).next == At(head, spine, i);
      SelectStep(was, i, cs);
      assert n == was[i - 1] == spine[i - 1];
      nxt := n.prev;
      if n.context in cs {
        assert spine[..i - 1] + spine[i..] == was[..i - 1] + Select(was[i..], cs, false);
        TakeOut(n, temp, i - 1);
        PutInto(n, temp);
      } else {
        assert spine == was[..i - 1] + ([n] + Select(was[i..], cs, false));
      }
    }

    /** `notify` with a predicate: the matching nodes leave the list with their flags
        down, the others stay in order with theirs up. The wakeups go out from the
        last node that waited to the first. */
    method NotifyMatching(cs: set<nat>) returns (posted: seq<Node>)
      requires Valid() && FlagsUp()
      modifies this, head, spine
      ensures Valid() && FlagsUp()
      ensures spine == Select(old(spine), cs, false)
      ensures posted == Reverse(Select(old(spine), cs, true))
      ensures forall n :: n in posted ==> !n.inList
    {
      hide Select, Reverse, Ring, Distinct;
      SelectNone(cs);
      if count == 0 { return []; }
      var temp := new List();
      ghost var was := spine;
      var n := Last();
      ghost var i := |spine|;
      assert was[i..] == [] && spine == was[..i] + [];
      hide Valid, Apart;
      while n != head
        invariant Valid() && temp.Valid() && Apart(temp) && fresh(temp) && fresh(temp.head)
        invariant Progress(was, i, cs, temp) && n == At(head, spine, i) && FlagsSplit(was, temp)
        decreases i
      {
        assert forall j :: 0 <= j < |temp.spine| ==> temp.spine[j] in was;
        assert forall j :: 0 <= j < |spine| ==> spine[j] in was;
        n := Visit(n, temp, cs, was, i);
        i := i - 1;
      }
      assert was[0..] == was;
      posted := temp.Walk();
    }

    /** `notify_one`: the node at the front, if any. */
    method NotifyOne() returns (posted: seq<Node>)
      requires Valid() && FlagsUp()
      modifies this, head, spine
      ensures Valid() && FlagsUp()
      ensures posted == old(spine)[..if old(spine) == [] then 0 else 1] && spine == old(spine)[|posted|..]
      ensures forall n :: n in posted ==> !n.inList
    {
      if count == 0 { return []; }
      assert At(head, spine, 0).next == At(head, spine, 1);
      var n := head.next;
      Discard(n, 0);
      posted := [n];
    }

    /** Takes one node out and lowers its flag. */
    method Discard(n: Node, ghost k: nat)
      requires Valid() && FlagsUp() && k < |spine| && spine[k] == n
      modifies `count, `spine, head`next, head`prev, spine`next, spine`prev, n`inList
      ensures Valid() && FlagsUp() && spine == old(spine[..k] + spine[k + 1..]) && !n.inList
    {
      n.inList := false;
      Remove(n, k);
    }

    /** `notify_one` with a predicate: the last node that matches leaves the list, if
        there is one. */
    method NotifyOneMatching(cs: set<nat>) returns (posted: seq<Node>, ghost k: nat)
      requires Valid() && FlagsUp()
      modifies this, head, spine
      ensures Valid() && FlagsUp() && k <= |old(spine)|
      ensures forall j :: k < j < |old(spine)| ==> old(spine)[j].context !in cs
      ensures posted == [] ==> spine == old(spine) && k == 0 && forall j :: 0 <= j < |spine| ==> spine[j].context !in cs
      ensures posted != [] ==>
        && k < |old(spine)| && posted == [old(spine)[k]] && posted[0].context in cs && !posted[0].inList
        && spine == old(spine[..k] + spine[k + 1..])
    {
      posted := [];
      var n := Last();
      k := |spine|;
      while n != head
        invariant k <= |spine| && n == At(head, spine, k)
        invariant forall j :: k <= j < |spine| ==> spine[j].context !in cs
        decreases k
      {
        assert At(head, spine, k - 1).next == At(head, spine, k);
        k := k - 1;
        if n.context in cs {
          Discard(n, k);
          posted := [n];
          return;
        }
        n := n.prev;
      }
    }

    method Last() returns (n: Node)
      requires Valid()
      ensures n == At(head, spine, |spine|)
    {
      assert At(head, spine, |spine| + 1).prev == At(head, spine, |spine|);
      n := head.prev;
    }
  }

  lemma SelectNone(cs: set<nat>)
    ensures Select([], cs, false) == [] && Select([], cs, true) == [] && Reverse([]) == []
  {
  }

  lemma SelectStep(q: seq<Node>, i: int, cs: set<nat>)
    requires 0 < i <= |q|
    ensures var x, rest := q[i - 1], q[i..];
      && Select(q[i - 1..], cs, false) == (if x.context in cs then [] else [x]) + Select(rest, cs, false)
      && Reverse(Select(q[i - 1..], cs, true)) == Reverse(Select(rest, cs, true)) + if x.context in cs then [x] else []
  {
    var x, rest := q[i - 1], q[i..];
    assert q[i - 1..] == [x] + rest;
    assert ([x] + rest)[1..] == rest;
    var r := Select(rest, cs, true);
    assert ([x] + r)[1..] == r;
    assert Reverse([x] + r) == Reverse(r) + [x];
    assert [] + r == r;
  }
}
