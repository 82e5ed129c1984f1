/** The timer records of a run: they are started and stopped one by one, linked into a
    forest when the report is due, and printed depth first. A record is known by its
    index in the list; a pointer is an index, -1 for none. Clock and usage readings
    are parameters. */
module TimerForest {
  import opened Common

  datatype Record = Record(
    parent: int, children: seq<nat>, start: int, end: int, user: int, sys: int, stopped: bool)

  datatype Reading = Reading(now: int, user: int, sys: int)

  datatype Line = Line(record: nat, indent: nat)

  // ------------------------------------------------------ specification

  /** Parents come before their children, and the children of a record are listed, each
      once. */
  ghost predicate Forest(rs: seq<Record>) {
    forall i :: 0 <= i < |rs| ==>
      && -1 <= rs[i].parent < i && Distinct(rs[i].children)
      && forall j: nat :: j in rs[i].children <==> j < |rs| && rs[j].parent == i
  }

  /** Two lists of records that differ in the order of children only. */
  ghost predicate SameForest(a: seq<Record>, b: seq<Record>) {
    && |a| == |b|
    && forall i :: 0 <= i < |a| ==> SameRecord(a[i], b[i])
  }

  ghost predicate SameRecord(a: Record, b: Record) {
    && b == a.(children := b.children) && Distinct(b.children)
    && forall j: nat :: j in b.children <==> j in a.children
  }

  /** The first record takes all the time of the second one. */
  predicate Encloses(outer: Record, inner: Record) { outer.start <= inner.start && inner.end <= outer.end }

  /** The last record before position `j` that encloses record `i`, or -1. */
  function Nearest(rs: seq<Record>, i: nat, j: nat): (k: int)
    requires j <= i < |rs|
    ensures -1 <= k < j
    ensures k >= 0 ==> Encloses(rs[k], rs[i])
    ensures forall l :: k < l < j ==> !Encloses(rs[l], rs[i])
  {
    if j == 0 then -1 else if Encloses(rs[j - 1], rs[i]) then j - 1 else Nearest(rs, i, j - 1)
  }

  /** The parent that a record has when all are linked. */
  function Linked(rs: seq<Record>, i: nat): int
    requires i < |rs|
  {
    if rs[i].parent >= 0 then rs[i].parent else Nearest(rs, i, i)
  }

  /** `i` is `a` or one of its descendants. */
  ghost predicate Under(rs: seq<Record>, a: nat, i: nat)
    requires Forest(rs) && i < |rs|
    decreases i
  {
    i == a || (rs[i].parent >= 0 && Under(rs, a, rs[i].parent))
  }

  ghost function Depth(rs: seq<Record>, i: nat): nat
    requires Forest(rs) && i < |rs|
    decreases i
  {
    if rs[i].parent < 0 then 0 else Depth(rs, rs[i].parent) + 1
  }

  /** The lines are for the records of `which`, each once, indented by their depths. */
  ghost predicate Prints(rs: seq<Record>, lines: seq<Line>, which: set<nat>)
    requires Forest(rs)
  {
    && (forall k :: 0 <= k < |lines| ==>
          lines[k].record in which && lines[k].record < |rs| && lines[k].indent == Depth(rs, lines[k].record))
    && (forall k, l :: 0 <= k < l < |lines| ==> lines[k].record != lines[l].record)
    && (forall i :: i in which ==> PrintedBefore(lines, i, |lines|))
  }

  /** Record `i` is on one of the first `n` lines. */
  ghost predicate PrintedBefore(lines: seq<Line>, i: nat, n: nat)
    requires n <= |lines|
  {
    exists k :: 0 <= k < n && lines[k].record == i
  }

  /** A record of `which` is printed before its children. */
  ghost predicate ParentsFirst(rs: seq<Record>, lines: seq<Line>, which: set<nat>) {
    forall k :: 0 <= k < |lines| ==>
      lines[k].record < |rs| && (rs[lines[k].record].parent in which ==> PrintedBefore(lines, rs[lines[k].record].parent, k))
  }

  /** The first record may be printed before the second one: if they have the same parent,
      it has not started later. */
  predicate InOrder(rs: seq<Record>, x: nat, y: nat) {
    x < |rs| && y < |rs| && (rs[x].parent == rs[y].parent >= 0 ==> rs[x].start <= rs[y].start)
  }

  ghost predicate SiblingsSorted(rs: seq<Record>, lines: seq<Line>) {
    forall k, l :: 0 <= k < l < |lines| ==> InOrder(rs, lines[k].record, lines[l].record)
  }

  ghost predicate Report(rs: seq<Record>, lines: seq<Line>, which: set<nat>)
    requires Forest(rs)
  {
    Prints(rs, lines, which) && ParentsFirst(rs, lines, which) && SiblingsSorted(rs, lines)
  }

  ghost function Subtree(rs: seq<Record>, a: nat): set<nat>
    requires Forest(rs)
  {
    set i: nat | i < |rs| && Under(rs, a, i)
  }

  ghost function UpTo(n: nat): (s: set<nat>)
    ensures forall i :: i in s <==> 0 <= i < n
  {
    if n == 0 then {} else UpTo(n - 1) + {n - 1}
  }

  // ------------------------------------------------------------ the tree

  lemma {:induction false} UnderIsLater(rs: seq<Record>, a: nat, i: nat)
    requires Forest(rs) && i < |rs| && Under(rs, a, i)
    ensures a <= i
    decreases i
  {
    if i != a { UnderIsLater(rs, a, rs[i].parent); }
  }

  /** Two records above the same one are one above the other. */
  lemma {:induction false} AboveSame(rs: seq<Record>, a: nat, b: nat, i: nat)
    requires Forest(rs) && i < |rs| && a < |rs| && b < |rs| && Under(rs, a, i) && Under(rs, b, i)
    ensures Under(rs, a, b) || Under(rs, b, a)
    decreases i
  {
    if i != a && i != b { AboveSame(rs, a, b, rs[i].parent); }
  }

  lemma {:induction false} UnderUnder(rs: seq<Record>, a: nat, b: nat, i: nat)
    requires Forest(rs) && i < |rs| && b < |rs| && Under(rs, a, b) && Under(rs, b, i)
    ensures Under(rs, a, i)
    decreases i
  {
    if i != b { UnderUnder(rs, a, b, rs[i].parent); }
  }

  /** Records with the same parent, or none, have nothing in common below them. */
  lemma SiblingsApart(rs: seq<Record>, a: nat, b: nat)
    requires Forest(rs) && a < |rs| && b < |rs| && a != b && rs[a].parent == rs[b].parent
    ensures Subtree(rs, a) !! Subtree(rs, b)
  {
    forall i | i in Subtree(rs, a) && i in Subtree(rs, b) ensures false {
      AboveSame(rs, a, b, i);
      if Under(rs, a, b) { UnderIsLater(rs, a, rs[b].parent); } else { UnderIsLater(rs, b, rs[a].parent); }
    }
  }

  lemma {:induction false} ThroughChild(rs: seq<Record>, a: nat, i: nat) returns (c: nat)
    requires Forest(rs) && a < |rs| && i < |rs| && Under(rs, a, i) && i != a
    ensures c < |rs| && rs[c].parent == a && Under(rs, c, i)
    decreases i
  {
    if rs[i].parent == a {
      c := i;
    } else {
      c := ThroughChild(rs, a, rs[i].parent);
    }
  }

  lemma {:induction false} HasRoot(rs: seq<Record>, i: nat) returns (r: nat)
    requires Forest(rs) && i < |rs|
    ensures r < |rs| && rs[r].parent == -1 && Under(rs, r, i)
    decreases i
  {
    if rs[i].parent < 0 { r := i; } else { r := HasRoot(rs, rs[i].parent); }
  }

  // ------------------------------------------------------------ reports

  /** A subtree printed after other records of which none lies in it. */
  lemma ReportOneMore(rs: seq<Record>, lines: seq<Line>, which: set<nat>, c: nat, block: seq<Line>)
    requires Forest(rs) && c < |rs| && Report(rs, lines, which) && Report(rs, block, Subtree(rs, c))
    requires which !! Subtree(rs, c)
    requires forall x :: x in which ==> InOrder(rs, x, c)
    ensures Report(rs, lines + block, which + Subtree(rs, c))
  {
    hide Under, Depth, Subtree;
    PrintsConcat(rs, lines, which, block, Subtree(rs, c));
    forall x | x in which ensures x < |rs| && rs[x].parent !in Subtree(rs, c) { NotBelow(rs, c, which, x); }
    ParentsFirstConcat(rs, lines, which, block, Subtree(rs, c));
    forall x, y | x in which && y in Subtree(rs, c) ensures InOrder(rs, x, y) {
      NotBelow(rs, c, which, x);
      BelowHasParent(rs, c, y);
    }
    hide InOrder, Prints, ParentsFirst;
    assert SiblingsSorted(rs, lines + block) by {
      forall k, l | 0 <= k < l < |lines + block|
        ensures InOrder(rs, (lines + block)[k].record, (lines + block)[l].record)
      {
        RecordsOf(rs, lines, which, block, Subtree(rs, c), k, l);
      }
    }
  }

  lemma RecordsOf(rs: seq<Record>, a: seq<Line>, s: set<nat>, b: seq<Line>, t: set<nat>, k: nat, l: nat)
    requires Forest(rs) && Prints(rs, a, s) && Prints(rs, b, t) && k < l < |a + b|
    requires SiblingsSorted(rs, a) && SiblingsSorted(rs, b) && forall x, y :: x in s && y in t ==> InOrder(rs, x, y)
    ensures InOrder(rs, (a + b)[k].record, (a + b)[l].record)
  {
  }

  lemma NotBelow(rs: seq<Record>, c: nat, which: set<nat>, x: nat)
    requires Forest(rs) && which !! Subtree(rs, c) && x in which && x < |rs|
    ensures rs[x].parent !in Subtree(rs, c)
  {
  }

  lemma BelowHasParent(rs: seq<Record>, c: nat, y: nat)
    requires Forest(rs) && y in Subtree(rs, c)
    ensures y < |rs| && (y == c || rs[y].parent in Subtree(rs, c))
  {
  }

  lemma PrintsConcat(rs: seq<Record>, a: seq<Line>, s: set<nat>, b: seq<Line>, t: set<nat>)
    requires Forest(rs) && Prints(rs, a, s) && Prints(rs, b, t) && s !! t
    ensures Prints(rs, a + b, s + t)
  {
    hide Forest, Depth;
    forall i | i in s + t ensures PrintedBefore(a + b, i, |a + b|) {
      if i in s {
        var k :| 0 <= k < |a| && a[k].record == i;
        assert (a + b)[k].record == i;
      } else {
        var k :| 0 <= k < |b| && b[k].record == i;
        assert (a + b)[|a| + k].record == i;
      }
    }
  }

  lemma ParentsFirstConcat(rs: seq<Record>, a: seq<Line>, s: set<nat>, b: seq<Line>, t: set<nat>)
    requires Forest(rs) && Prints(rs, a, s) && ParentsFirst(rs, a, s) && ParentsFirst(rs, b, t)
    requires forall x :: x in s ==> x < |rs| && rs[x].parent !in t
    ensures ParentsFirst(rs, a + b, s + t)
  {
    hide Forest, Depth;
    var c := a + b;
    forall k | 0 <= k < |c|
      ensures c[k].record < |rs| && (rs[c[k].record].parent in s + t ==> PrintedBefore(c, rs[c[k].record].parent, k))
    {
      var p := rs[c[k].record].parent;
      if p in s + t {
        if k < |a| {
          var l :| 0 <= l < k && a[l].record == p;
          assert c[l].record == p;
        } else if p in s {
          var l :| 0 <= l < |a| && a[l].record == p;
          assert c[l].record == p;
        } else {
          var l :| 0 <= l < k - |a| && b[l].record == p;
          assert c[|a| + l].record == p;
        }
      }
    }
  }

  // ------------------------------------------------------------ linking

  lemma {:induction false} AddedChild(rs: seq<Record>, i: nat, p: nat)
    requires Forest(rs) && p < i < |rs| && rs[i].parent == -1
    ensures Forest(Adopt(rs, i, p))
  {
    var rs' := Adopt(rs, i, p);
    forall k | 0 <= k < |rs'| ensures Distinct(rs'[k].children) {
      if k == p { assert i !in rs[p].children; }
    }
  }

  /** Record `i` becomes a child of record `p`. */
  function Adopt(rs: seq<Record>, i: nat, p: nat): seq<Record>
    requires p < i < |rs|
  {
    var rs' := rs[i := rs[i].(parent := p)];
    rs'[p := rs'[p].(children := rs'[p].children + [i])]
  }

  /** The records from `i` on are still what they were, those before are linked. */
  ghost predicate Linking(rs0: seq<Record>, rs: seq<Record>, i: nat) {
    && |rs| == |rs0| && i <= |rs|
    && (forall k :: 0 <= k < |rs| ==>
          rs[k] == rs0[k].(parent := if k < i then Linked(rs0, k) else rs0[k].parent, children := rs[k].children))
  }

  lemma NearestSame(rs0: seq<Record>, rs: seq<Record>, n: nat, i: nat, j: nat)
    requires Linking(rs0, rs, n) && j <= i < |rs|
    ensures Nearest(rs, i, j) == Nearest(rs0, i, j)
  {
  }

  lemma LinkStep(rs0: seq<Record>, rs: seq<Record>, i: nat, j: nat)
    requires Forest(rs) && Linking(rs0, rs, i) && i < |rs| && rs[i].parent == -1 && j < i && j == Linked(rs0, i)
    ensures Forest(Adopt(rs, i, j)) && Linking(rs0, Adopt(rs, i, j), i + 1)
  {
    AddedChild(rs, i, j);
    hide Forest, Nearest;
  }

  // ----------------------------------------------------------- printing

  lemma {:induction false} SameTree(rs: seq<Record>, rs': seq<Record>)
    requires Forest(rs) && SameForest(rs, rs')
    ensures Forest(rs')
  {
    forall i | 0 <= i < |rs'| ensures -1 <= rs'[i].parent < i && Distinct(rs'[i].children) {
      assert SameRecord(rs[i], rs'[i]);
    }
    forall i, j: nat | 0 <= i < |rs'| ensures j in rs'[i].children <==> j < |rs'| && rs'[j].parent == i {
      assert SameRecord(rs[i], rs'[i]);
      if j < |rs'| { assert SameRecord(rs[j], rs'[j]); }
    }
  }

  lemma Reordered(rs: seq<Record>, rs': seq<Record>, i: nat, q: seq<nat>)
    requires SameForest(rs, rs') && i < |rs'| && Distinct(q) && forall j: nat :: j in q <==> j in rs'[i].children
    ensures SameForest(rs, rs'[i := rs'[i].(children := q)])
  {
    var rs'' := rs'[i := rs'[i].(children := q)];
    forall k | 0 <= k < |rs''| ensures SameRecord(rs[k], rs''[k]) { assert SameRecord(rs[k], rs'[k]); }
  }

  /** The children of `i` in printing order. */
  ghost predicate ChildList(rs: seq<Record>, i: nat, q: seq<nat>)
    requires Forest(rs) && i < |rs|
  {
    && Distinct(q) && (forall j: nat :: j in q <==> j < |rs| && rs[j].parent == i)
    && (forall k :: 0 <= k < |q| ==> q[k] < |rs|)
    && forall k, l :: 0 <= k < l < |q| ==> rs[q[k]].start <= rs[q[l]].start
  }

  /** `i` and what is below its first `n` children. */
  ghost function Reached(rs: seq<Record>, i: nat, q: seq<nat>, n: nat): set<nat>
    requires Forest(rs) && i < |rs| && n <= |q|
  {
    if n == 0 then {i} else Reached(rs, i, q, n - 1) + Subtree(rs, q[n - 1])
  }

  lemma {:induction false} ReachedIs(rs: seq<Record>, i: nat, q: seq<nat>, n: nat, x: nat)
    requires Forest(rs) && i < |rs| && n <= |q|
    ensures x in Reached(rs, i, q, n) <==> x == i || exists k :: 0 <= k < n && x in Subtree(rs, q[k])
  {
    if n > 0 { ReachedIs(rs, i, q, n - 1, x); }
  }

  /** The subtree of the next child is new, and comes in its place. */
  lemma NextChild(rs: seq<Record>, i: nat, q: seq<nat>, n: nat)
    requires Forest(rs) && i < |rs| && ChildList(rs, i, q) && n < |q|
    ensures q[n] < |rs| && i < q[n] && Reached(rs, i, q, n) !! Subtree(rs, q[n])
    ensures forall x :: x in Reached(rs, i, q, n) ==> InOrder(rs, x, q[n])
  {
    var c := q[n];
    assert c in q && rs[c].parent == i;
    forall x | x in Reached(rs, i, q, n) ensures x !in Subtree(rs, c) && InOrder(rs, x, c) {
      ReachedIs(rs, i, q, n, x);
      if x == i {
        if x in Subtree(rs, c) { UnderIsLater(rs, c, i); }
      } else {
        var k :| 0 <= k < n && x in Subtree(rs, q[k]);
        assert q[k] in q;
        SiblingsApart(rs, q[k], c);
        if rs[x].parent == i && x != q[k] {
          UnderIsLater(rs, q[k], i);
        }
      }
    }
  }

  lemma AllChildren(rs: seq<Record>, i: nat, q: seq<nat>)
    requires Forest(rs) && i < |rs| && ChildList(rs, i, q)
    ensures Reached(rs, i, q, |q|) == Subtree(rs, i)
  {
    forall x: nat ensures x in Reached(rs, i, q, |q|) <==> x in Subtree(rs, i) {
      ReachedIs(rs, i, q, |q|, x);
      if x in Subtree(rs, i) && x != i {
        var c := ThroughChild(rs, i, x);
        assert c in q;
        var k :| 0 <= k < |q| && q[k] == c;
        assert x in Subtree(rs, q[k]);
      } else if x != i && exists k :: 0 <= k < |q| && x in Subtree(rs, q[k]) {
        var k :| 0 <= k < |q| && x in Subtree(rs, q[k]);
        assert q[k] in q && Under(rs, i, q[k]);
        UnderUnder(rs, i, q[k], x);
      }
    }
  }

  lemma {:induction false} OneLine(rs: seq<Record>, i: nat)
    requires Forest(rs) && i < |rs|
    ensures Report(rs, [Line(i, Depth(rs, i))], {i})
  {
    var lines := [Line(i, Depth(rs, i))];
    assert lines[0].record == i && PrintedBefore(lines, i, 1);
  }

  function AllStopped(rs: seq<Record>, at: seq<Reading>): (r: seq<Record>)
    requires |rs| == |at|
    ensures |r| == |rs| && forall i :: 0 <= i < |rs| ==> r[i] == Stopped(rs[i], at[i])
  {
    seq(|rs|, i requires 0 <= i < |rs| => Stopped(rs[i], at[i]))
  }

  class TimerLog {
    var records: seq<Record>

    constructor ()
      ensures records == []
    {
      records := [];
    }

    /** The constructor of a record, with or without a parent. */
    method Start(parent: int, at: Reading) returns (i: nat)
      requires Forest(records) && -1 <= parent < |records|
      modifies this
      ensures Forest(records) && i == |old(records)| && |records| == i + 1
      ensures records[i] == Record(parent, [], at.now, 0, at.user, at.sys, false)
      ensures forall k :: 0 <= k < i ==>
        records[k] == old(records)[k].(children := old(records)[k].children + if k == parent then [i] else [])
    {
      i := |records|;
      ghost var was := records;
      records := records + [Record(-1, [], at.now, 0, at.user, at.sys, false)];
      assert Forest(records);
      if parent >= 0 {
        AddedChild(records, i, parent);
        records := Adopt(records, i, parent);
      }
    }

    /** `stop`: the first call takes the time, further calls change nothing. */
    method Stop(i: nat, at: Reading)
      requires i < |records|
      modifies this
      ensures records == old(records)[i := Stopped(old(records)[i], at)]
      ensures Forest(old(records)) ==> Forest(records)
    {
      if records[i].stopped { return; }
      var r := records[i].(stopped := true);
      records := records[i := r.(end := at.now, user := at.user - r.user, sys := at.sys - r.sys)];
    }

    /** The inner loop of the linking. */
    method FindOuter(i: nat) returns (j: int)
      requires i < |records|
      ensures j == Nearest(records, i, i)
    {
      j := i - 1;
      while j >= 0
        invariant -1 <= j < i && Nearest(records, i, i) == Nearest(records, i, j + 1)
        decreases j
      {
        if Encloses(records[j], records[i]) { return; }
        j := j - 1;
      }
    }

    /** The nested loops of `print_timer_records`: a record without a parent gets the
        nearest record before it that encloses it, if there is one. */
    method Link()
      requires Forest(records)
      modifies this
      ensures Forest(records) && |records| == |old(records)|
      ensures forall i :: 0 <= i < |records| ==>
        records[i] == old(records)[i].(parent := Linked(old(records), i), children := records[i].children)
    {
      ghost var rs0 := records;
      var i := 0;
      while i < |records|
        invariant 0 <= i <= |records| && Forest(records) && Linking(rs0, records, i)
      {
        NearestSame(rs0, records, i, i, i);
        if records[i].parent < 0 {
          var j := FindOuter(i);
          if j >= 0 {
            LinkStep(rs0, records, i, j);
            records := Adopt(records, i, j);
          }
        }
        hide Forest, Nearest;
        i := i + 1;
      }
    }

    /** The sorting of children by their starts. */
    method SortByStart(q: seq<nat>) returns (r: seq<nat>)
      requires Distinct(q) && forall k :: 0 <= k < |q| ==> q[k] < |records|
      ensures Distinct(r) && (forall x: nat :: x in r <==> x in q)
      ensures forall k, l :: 0 <= k < l < |r| ==>
        r[k] < |records| && r[l] < |records| && records[r[k]].start <= records[r[l]].start
    {
      r := [];
      var n := 0;
      while n < |q|
        invariant 0 <= n <= |q| && Distinct(r) && (forall x: nat :: x in r <==> x in q[..n])
        invariant forall k :: 0 <= k < |r| ==> r[k] < |records|
        invariant forall k, l :: 0 <= k < l < |r| ==> records[r[k]].start <= records[r[l]].start
      {
        var p := 0;
        while p < |r| && records[r[p]].start <= records[q[n]].start
          invariant 0 <= p <= |r|
          invariant forall k :: 0 <= k < p ==> records[r[k]].start <= records[q[n]].start
        {
          p := p + 1;
        }
        assert q[n] !in q[..n];
        assert q[..n + 1] == q[..n] + [q[n]];
        Inserted(r, p, q[n]);
        r := r[..p] + [q[n]] + r[p..];
        n := n + 1;
      }
      assert q[..n] == q;
    }

    /** `print_rec`: the record, then the subtrees of its children by their starts. With
        the forest `rs` as it was, the lines report exactly the records below. */
    method PrintRec(i: nat, indent: nat, ghost rs: seq<Record>) returns (lines: seq<Line>)
      requires Forest(rs) && SameForest(rs, records) && i < |records| && indent == Depth(rs, i)
      modifies this
      ensures SameForest(rs, records)
      ensures Report(rs, lines, Subtree(rs, i))
      decreases |rs| - i
    {
      hide Depth, Subtree, Report, Under;
      lines := [Line(i, indent)];
      OneLine(rs, i);
      var q := SortChildren(i, rs);
      var n := 0;
      while n < |q|
        invariant 0 <= n <= |q| && SameForest(rs, records) && Report(rs, lines, Reached(rs, i, q, n))
      {
        NextChild(rs, i, q, n);
        ChildDepth(rs, i, q, n);
        var block := PrintRec(q[n], indent + 1, rs);
        ReportOneMore(rs, lines, Reached(rs, i, q, n), q[n], block);
        lines := lines + block;
        n := n + 1;
      }
      AllChildren(rs, i, q);
    }

    method SortChildren(i: nat, ghost rs: seq<Record>) returns (q: seq<nat>)
      requires Forest(rs) && SameForest(rs, records) && i < |records|
      modifies this
      ensures SameForest(rs, records) && ChildList(rs, i, q) && records[i].children == q
    {
      SameTree(rs, records);
      ghost var cs := records[i].children;
      assert forall k :: 0 <= k < |cs| ==> cs[k] in cs;
      q := SortByStart(records[i].children);
      Reordered(rs, records, i, q);
      records := records[i := records[i].(children := q)];
      assert forall k :: 0 <= k < |rs| ==> SameRecord(rs[k], records[k]);
      assert forall k :: 0 <= k < |q| ==> q[k] in q;
    }

    /** The printing of `print_timer_records`: every record on one line. */
    method Print() returns (lines: seq<Line>)
      requires Forest(records)
      modifies this
      ensures SameForest(old(records), records)
      ensures Report(old(records), lines, UpTo(|old(records)|))
    {
      hide Depth, Subtree, Report, Under;
      ghost var rs := records;
      lines := [];
      NoLines(rs);
      assert SameForest(rs, records) by { assert forall k :: 0 <= k < |rs| ==> SameRecord(rs[k], rs[k]); }
      var i := 0;
      while i < |records|
        invariant 0 <= i <= |records| && SameForest(rs, records) && Report(rs, lines, Roots(rs, i))
      {
        assert SameRecord(rs[i], records[i]);
        if records[i].parent < 0 {
          RootDepth(rs, i);
          NextRoot(rs, i);
          var block := PrintRec(i, 0, rs);
          ReportOneMore(rs, lines, Roots(rs, i), i, block);
          lines := lines + block;
        } else {
          assert Roots(rs, i + 1) == Roots(rs, i);
        }
        i := i + 1;
      }
      AllRoots(rs);
    }

    method StopAll(at: seq<Reading>)
      requires Forest(records) && |at| == |records|
      modifies this
      ensures Forest(records) && records == AllStopped(old(records), at)
    {
      hide Forest, Stopped;
      ghost var was := records;
      var i := 0;
      while i < |records|
        invariant 0 <= i <= |records| == |was| && Forest(records)
        invariant forall k :: 0 <= k < |was| ==> records[k] == if k < i then Stopped(was[k], at[k]) else was[k]
      {
        Stop(i, at[i]);
        i := i + 1;
      }
    }

    /** `print_timer_records`: all are stopped, linked and printed. */
    method PrintTimerRecords(at: seq<Reading>) returns (lines: seq<Line>, ghost rs: seq<Record>)
      requires Forest(records) && |at| == |records|
      modifies this
      ensures |rs| == |old(records)| && Forest(rs) && Report(rs, lines, UpTo(|rs|))
      ensures var stopped := AllStopped(old(records), at); forall i :: 0 <= i < |rs| ==>
        rs[i] == stopped[i].(parent := Linked(stopped, i), children := rs[i].children)
    {
      hide Forest, Report, Linked, SameForest, AllStopped;
      StopAll(at);
      Link();
      rs := records;
      lines := Print();
    }
  }

  lemma Inserted(r: seq<nat>, p: nat, x: nat)
    requires Distinct(r) && p <= |r| && x !in r
    ensures var r' := r[..p] + [x] + r[p..];
      Distinct(r') && forall y: nat :: y in r' <==> y in r || y == x
  {
    var r' := r[..p] + [x] + r[p..];
    assert r == r[..p] + r[p..];
    forall y: nat ensures y in r' <==> y in r || y == x {
      assert y in r <==> y in r[..p] || y in r[p..];
    }
  }

  /** What stopping does to a record. */
  function Stopped(r: Record, at: Reading): Record {
    if r.stopped then r
    else Record(r.parent, r.children, r.start, at.now, at.user - r.user, at.sys - r.sys, true)
  }

  lemma ChildDepth(rs: seq<Record>, i: nat, q: seq<nat>, n: nat)
    requires Forest(rs) && i < |rs| && ChildList(rs, i, q) && n < |q|
    ensures q[n] < |rs| && Depth(rs, q[n]) == Depth(rs, i) + 1
  {
    assert q[n] in q;
  }

  lemma RootDepth(rs: seq<Record>, i: nat)
    requires Forest(rs) && i < |rs| && rs[i].parent < 0
    ensures Depth(rs, i) == 0
  {
  }

  lemma NoLines(rs: seq<Record>)
    requires Forest(rs)
    ensures Report(rs, [], {})
  {
  }

  /** The records below the roots before position `i`. */
  ghost function Roots(rs: seq<Record>, i: nat): set<nat>
    requires Forest(rs) && i <= |rs|
  {
    if i == 0 then {} else Roots(rs, i - 1) + if rs[i - 1].parent < 0 then Subtree(rs, i - 1) else {}
  }

  lemma {:induction false} RootsAre(rs: seq<Record>, i: nat, x: nat)
    requires Forest(rs) && i <= |rs|
    ensures x in Roots(rs, i) <==> exists r :: 0 <= r < i && rs[r].parent < 0 && x in Subtree(rs, r)
  {
    if i > 0 { RootsAre(rs, i - 1, x); }
  }

  lemma NextRoot(rs: seq<Record>, i: nat)
    requires Forest(rs) && i < |rs| && rs[i].parent < 0
    ensures Roots(rs, i) !! Subtree(rs, i) && forall x :: x in Roots(rs, i) ==> InOrder(rs, x, i)
  {
    forall x | x in Roots(rs, i) ensures x !in Subtree(rs, i) && InOrder(rs, x, i) {
      RootsAre(rs, i, x);
      var r :| 0 <= r < i && rs[r].parent < 0 && x in Subtree(rs, r);
      SiblingsApart(rs, r, i);
    }
  }

  lemma AllRoots(rs: seq<Record>)
    requires Forest(rs)
    ensures Roots(rs, |rs|) == UpTo(|rs|)
  {
    forall x: nat ensures x in Roots(rs, |rs|) <==> x < |rs| {
      RootsAre(rs, |rs|, x);
      if x < |rs| {
        var r := HasRoot(rs, x);
        assert rs[r].parent < 0 && x in Subtree(rs, r);
      }
    }
  }

  /** Stopping once more changes nothing. */
  lemma StopsOnce(r: Record, first: Reading, second: Reading)
    ensures Stopped(Stopped(r, first), second) == Stopped(r, first)
  {
  }
}
