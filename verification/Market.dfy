/** The market's books: how many workers the arenas ask for, level by level and
    together, and how many of them the market asks the server for. Every method is
    what the source does under the lock of the list of arenas; the deltas it
    returns are what is passed on to the server afterwards. */
module Market {
  import opened Allotment
  import opened Common

  // ------------------------------------------------------ specification

  /** The request of an arena: its running total, kept between 0 and its maximum, where
      a local concurrency request makes up for a maximum of 0. */
  function Clamp(total: int, max: nat, local: int): (r: int)
    ensures r >= 0
  {
    if total <= 0 then 0 else Min(total, if local > 0 && max == 0 then 1 else max)
  }

  function Count(ms: seq<bool>): nat {
    if ms == [] then 0 else Count(ms[..|ms| - 1]) + AsOne(ms[|ms| - 1])
  }

  function Counts(mss: seq<seq<bool>>): (cs: seq<int>)
    ensures |cs| == |mss| && forall l :: 0 <= l < |mss| ==> cs[l] == Count(mss[l])
  {
    seq(|mss|, l requires 0 <= l < |mss| => Count(mss[l]))
  }

  lemma {:induction false} CountUpdate(ms: seq<bool>, i: nat, x: bool)
    requires i < |ms|
    ensures Count(ms[i := x]) == Count(ms) - AsOne(ms[i]) + AsOne(x)
  {
    var n := |ms| - 1;
    if i == n {
      assert ms[i := x][..n] == ms[..n];
    } else {
      CountUpdate(ms[..n], i, x);
      assert ms[i := x][..n] == ms[..n][i := x];
    }
  }

  lemma {:induction false} CountNone(ms: seq<bool>)
    requires forall i :: 0 <= i < |ms| ==> !ms[i]
    ensures Count(ms) == 0
  {
    if ms != [] { CountNone(ms[..|ms| - 1]); }
  }

  lemma {:induction false} CountPositive(ms: seq<bool>, i: nat)
    requires i < |ms| && ms[i]
    ensures Count(ms) > 0
  {
    var n := |ms| - 1;
    if i < n { CountPositive(ms[..n], i); }
  }

  lemma {:induction false} SumUpdate(rs: seq<int>, i: nat, x: int)
    requires i < |rs|
    ensures Sum(rs[i := x]) == Sum(rs) - rs[i] + x
  {
    var n := |rs| - 1;
    if i == n {
      assert rs[i := x][..n] == rs[..n];
    } else {
      SumUpdate(rs[..n], i, x);
      assert rs[i := x][..n] == rs[..n][i := x];
    }
  }

  lemma {:induction false} TotalUpdate(q: seq<int>, l: nat, x: int)
    requires l < |q|
    ensures Total(q[l := x]) == Total(q) - q[l] + x
  {
    if l == 0 {
      assert q[l := x][1..] == q[1..];
    } else {
      TotalUpdate(q[1..], l - 1, x);
      assert q[l := x][1..] == q[1..][l - 1 := x];
    }
  }

  lemma {:induction false} TotalZero(q: seq<int>)
    requires forall l :: 0 <= l < |q| ==> q[l] == 0
    ensures Total(q) == 0
  {
    if q != [] { TotalZero(q[1..]); }
  }

  lemma {:induction false} SumInsert(a: seq<int>, b: seq<int>)
    ensures Sum(a + [0] + b) == Sum(a + b)
  {
    if b == [] {
      assert (a + [0])[..|a|] == a && a + [0] + b == a + [0] && a + b == a;
    } else {
      var c := b[..|b| - 1];
      SumInsert(a, c);
      assert (a + [0] + b)[..|a| + |b|] == a + [0] + c && (a + b)[..|a| + |b| - 1] == a + c;
    }
  }

  lemma {:induction false} CountInsert(a: seq<bool>, b: seq<bool>)
    ensures Count(a + [false] + b) == Count(a + b)
  {
    if b == [] {
      assert (a + [false])[..|a|] == a && a + [false] + b == a + [false] && a + b == a;
    } else {
      var c := b[..|b| - 1];
      CountInsert(a, c);
      assert (a + [false] + b)[..|a| + |b|] == a + [false] + c && (a + b)[..|a| + |b| - 1] == a + c;
    }
  }

  function Drop(q: seq<Arena>, a: Arena): seq<Arena> {
    if q == [] then [] else if q[0] == a then q[1..] else [q[0]] + Drop(q[1..], a)
  }

  lemma {:induction false} DropAt(q: seq<Arena>, i: nat)
    requires Distinct(q) && i < |q|
    ensures Drop(q, q[i]) == q[..i] + q[i + 1..]
  {
    if i > 0 {
      assert q[0] != q[i];
      DropAt(q[1..], i - 1);
      assert q[1..][..i - 1] == q[1..i] && q[1..][i..] == q[i + 1..];
    }
  }

  lemma InsertedApart(levels: seq<seq<Arena>>, a: Arena)
    requires Apart(levels) && a.level < |levels| && a !in All(levels)
    ensures Apart(levels[a.level := [a] + levels[a.level]])
  {
    var levels' := levels[a.level := [a] + levels[a.level]];
    assert forall l, i :: 0 <= l < |levels| && 0 <= i < |levels[l]| ==> levels[l][i] in All(levels);
    forall l | 0 <= l < |levels'| ensures Distinct(levels'[l]) { assert Distinct(levels[l]); }
  }

  lemma RemovedApart(levels: seq<seq<Arena>>, l: nat, i: nat)
    requires Apart(levels) && l < |levels| && i < |levels[l]|
    ensures Apart(levels[l := levels[l][..i] + levels[l][i + 1..]])
  {
    var levels' := levels[l := levels[l][..i] + levels[l][i + 1..]];
    forall k | 0 <= k < |levels'| ensures Distinct(levels'[k]) { assert Distinct(levels[k]); }
  }

  /** An arena that asks for nothing and is not in global concurrency mode makes no
      difference to the sums, wherever it is in its level. */
  lemma NoDifference(q: seq<Arena>, i: nat)
    requires i < |q| && q[i].requested == 0 && !q[i].global
    ensures Sum(Requests(q)) == Sum(Requests(q[..i] + q[i + 1..]))
    ensures Count(Modes(q)) == Count(Modes(q[..i] + q[i + 1..]))
  {
    hide Sum, Count, Requests, Modes;
    var p := q[..i] + q[i + 1..];
    WithoutZero(Requests(q), Requests(p), i);
    WithoutFalse(Modes(q), Modes(p), i);
  }

  lemma WithoutZero(rs: seq<int>, less: seq<int>, i: nat)
    requires i < |rs| == |less| + 1 && rs[i] == 0
    requires forall j :: 0 <= j < |less| ==> less[j] == rs[if j < i then j else j + 1]
    ensures Sum(less) == Sum(rs)
  {
    hide Sum;
    assert rs == rs[..i] + [0] + rs[i + 1..];
    assert less == rs[..i] + rs[i + 1..];
    SumInsert(rs[..i], rs[i + 1..]);
  }

  lemma WithoutFalse(ms: seq<bool>, less: seq<bool>, i: nat)
    requires i < |ms| == |less| + 1 && !ms[i]
    requires forall j :: 0 <= j < |less| ==> less[j] == ms[if j < i then j else j + 1]
    ensures Count(less) == Count(ms)
  {
    hide Count;
    assert ms == ms[..i] + [false] + ms[i + 1..];
    assert less == ms[..i] + ms[i + 1..];
    CountInsert(ms[..i], ms[i + 1..]);
  }

  /** The same for the books of the market, where `more` lists the arena and `less`
      does not. */
  lemma SameBooks(more: seq<seq<Arena>>, less: seq<seq<Arena>>, l: nat, i: nat)
    requires l < |more| && i < |more[l]| && more[l][i].requested == 0 && !more[l][i].global
    requires less == more[l := more[l][..i] + more[l][i + 1..]]
    ensures Demands(RequestsOf(more, |more|)) == Demands(RequestsOf(less, |less|))
    ensures Counts(ModesOf(more, |more|)) == Counts(ModesOf(less, |less|))
  {
    hide Sum, Count, Requests, Modes, RequestsOf, ModesOf, Demands, Counts;
    NoDifference(more[l], i);
    var rss, rss' := RequestsOf(more, |more|), RequestsOf(less, |less|);
    var mss, mss' := ModesOf(more, |more|), ModesOf(less, |less|);
    assert forall k :: 0 <= k < |more| && k != l ==> less[k] == more[k];
    assert forall k :: 0 <= k < |more| ==> Sum(rss[k]) == Sum(rss'[k]);
    assert forall k :: 0 <= k < |more| ==> Count(mss[k]) == Count(mss'[k]);
  }

  /** `a` stands where `levels'` does not follow `levels`. */
  lemma InsertedAt(levels: seq<seq<Arena>>, a: Arena)
    requires a.level < |levels|
    ensures var levels' := levels[a.level := [a] + levels[a.level]];
      forall l, i :: 0 <= l < |levels'| && 0 <= i < |levels'[l]| ==>
        levels'[l][i] == if l != a.level then levels[l][i] else if i == 0 then a else levels[l][i - 1]
  {
  }

  /** One arena changes its mode. */
  lemma ModeUpdate(mss: seq<seq<bool>>, mss': seq<seq<bool>>, l: nat, i: nat)
    requires |mss'| == |mss| && l < |mss| && i < |mss[l]| && |mss'[l]| == |mss[l]|
    requires mss'[l] == mss[l][i := mss'[l][i]]
    requires forall k :: 0 <= k < |mss| && k != l ==> mss'[k] == mss[k]
    ensures Total(Counts(mss')) == Total(Counts(mss)) - AsOne(mss[l][i]) + AsOne(mss'[l][i])
  {
    CountUpdate(mss[l], i, mss'[l][i]);
    assert Counts(mss') == Counts(mss)[l := Count(mss'[l])];
    TotalUpdate(Counts(mss), l, Count(mss'[l]));
  }

  /** One arena changes its request. */
  lemma RequestUpdate(rss: seq<seq<int>>, rss': seq<seq<int>>, l: nat, i: nat)
    requires |rss'| == |rss| && l < |rss| && i < |rss[l]| && |rss'[l]| == |rss[l]|
    requires rss'[l] == rss[l][i := rss'[l][i]]
    requires forall k :: 0 <= k < |rss| && k != l ==> rss'[k] == rss[k]
    ensures var d := rss'[l][i] - rss[l][i];
      && Demands(rss') == Demands(rss)[l := Demands(rss)[l] + d]
      && Total(Demands(rss')) == Total(Demands(rss)) + d
  {
    var d := rss'[l][i] - rss[l][i];
    SumUpdate(rss[l], i, rss'[l][i]);
    assert Demands(rss') == Demands(rss)[l := Demands(rss)[l] + d];
    TotalUpdate(Demands(rss), l, Demands(rss)[l] + d);
  }

  lemma NoArenas(levels: seq<seq<Arena>>)
    requires levels == [[], [], []]
    ensures Demands(RequestsOf(levels, 3)) == [0, 0, 0] && Total([0, 0, 0]) == 0
    ensures Total(Counts(ModesOf(levels, 3))) == 0
    ensures Apart(levels) && Idle(levels) && forall l :: 0 <= l < |levels| ==> |levels[l]| == 0
  {
    var rss, mss := RequestsOf(levels, 3), ModesOf(levels, 3);
    assert rss[0] == [] && rss[1] == [] && rss[2] == [];
    assert mss[0] == [] && mss[1] == [] && mss[2] == [];
    assert Demands(rss) == [0, 0, 0];
    assert Counts(mss) == [0, 0, 0];
    TotalZero([0, 0, 0]);
  }

  ghost predicate IsClamped(a: Arena)
    reads a`total, a`requested, a`local
  {
    a.requested == Clamp(a.total, a.maxWorkers, a.local)
  }

  ghost predicate AllClamped(levels: seq<seq<Arena>>)
    reads All(levels)`total, All(levels)`requested, All(levels)`local
  {
    forall l, i :: 0 <= l < |levels| && 0 <= i < |levels[l]| ==> IsClamped(levels[l][i])
  }

  ghost predicate AtTheirLevels(levels: seq<seq<Arena>>) {
    forall l, i :: 0 <= l < |levels| && 0 <= i < |levels[l]| ==> levels[l][i].level == l
  }

  lemma RemovedStaysOk(levels: seq<seq<Arena>>, l: nat, i: nat)
    requires l < |levels| && i < |levels[l]| && AllClamped(levels) && Idle(levels) && AtTheirLevels(levels)
    ensures var levels' := levels[l := levels[l][..i] + levels[l][i + 1..]];
      AllClamped(levels') && Idle(levels') && AtTheirLevels(levels')
  {
    hide IsClamped;
    var levels' := levels[l := levels[l][..i] + levels[l][i + 1..]];
    assert forall k, j :: 0 <= k < |levels'| && 0 <= j < |levels'[k]| ==>
      levels'[k][j] == levels[k][if k == l && j >= i then j + 1 else j];
  }

  lemma InsertedStaysOk(levels: seq<seq<Arena>>, a: Arena)
    requires a.level < |levels| && AllClamped(levels) && Idle(levels) && AtTheirLevels(levels)
    requires IsClamped(a) && a.allotted == 0
    ensures var levels' := levels[a.level := [a] + levels[a.level]];
      AllClamped(levels') && Idle(levels') && AtTheirLevels(levels')
  {
    hide IsClamped;
    InsertedAt(levels, a);
  }

  lemma InsertedSameBooks(levels: seq<seq<Arena>>, a: Arena)
    requires a.level < |levels| && a.requested == 0 && !a.global
    ensures var levels' := levels[a.level := [a] + levels[a.level]];
      && Demands(RequestsOf(levels', |levels'|)) == Demands(RequestsOf(levels, |levels|))
      && Counts(ModesOf(levels', |levels'|)) == Counts(ModesOf(levels, |levels|))
  {
    hide Demands, Counts, RequestsOf, ModesOf;
    var levels' := levels[a.level := [a] + levels[a.level]];
    assert levels[a.level] == levels'[a.level][..0] + levels'[a.level][1..];
    assert levels == levels'[a.level := levels[a.level]];
    SameBooks(levels', levels, a.level, 0);
  }

  /** The workers the market may ask for: one for arenas in global concurrency mode. */
  function Effective(soft: nat, mandatory: int): nat { if mandatory > 0 then 1 else soft }

  /** Of mandatory requests only the first and the withdrawal of the last one count. */
  predicate Ignored(local: int, delta: int, mandatory: bool) {
    mandatory && ((delta > 0 && local + delta != 1) || (delta < 0 && local + delta != 0))
  }

  /** The request is the most that is neither above the total nor above the maximum of
      the arena, for which a local concurrency request makes up if it is 0. */
  lemma ClampIsTheMost(total: int, max: nat, local: int, q: nat)
    ensures var r := Clamp(total, max, local);
      && (r <= max || (max == 0 && local > 0 && r == 1)) && (total > 0 ==> r <= total) && (total <= 0 ==> r == 0)
      && (q <= total && (q <= max || (local > 0 && q <= 1 && max == 0)) ==> q <= r)
  {
  }

  /** However often an arena asks for local concurrency, its total counts that once as
      long as it asks: each call keeps the rest of the total as it is. */
  lemma MandatoryCountsOnce(total: int, local: nat, delta: int)
    requires (delta == 1 || delta == -1) && local + delta >= 0
    ensures var total', local' := total + (if Ignored(local, delta, true) then 0 else delta), local + delta;
      total' - AsOne(local' > 0) == total - AsOne(local > 0)
  {
  }

  /** How `adjust_demand` corrects the change of the request to the server. */
  function Correction(delta: int, requested: int, total: int, effective: nat): int {
    if delta > 0 then if requested + delta > effective then effective - requested else delta
    else if requested + delta < total then Min(total, effective) - requested else delta
  }

  /** The correction brings the request to what it would be if computed afresh. */
  lemma CorrectionIsExact(soft: nat, mandatory: int, requested: int, total: int, delta: int)
    requires total >= 0 && total - delta >= 0 && delta != 0
    requires soft > 0 ==> mandatory == 0 && requested == Min(total - delta, soft)
    requires soft == 0 ==> 0 <= requested <= 1
    requires soft == 0 && mandatory > 0 ==> requested >= Min(total - delta, 1)
    ensures requested + Correction(delta, requested, total, Effective(soft, mandatory)) == Min(total, Effective(soft, mandatory))
  {
  }

  // ----------------------------------------------------------- the class

  class Market {
    var levels: seq<seq<Arena>>
    var levelDemand: seq<int>
    var total: int
    var soft: nat
    var requested: int
    var mandatory: int
    /** The sum of all deltas passed on to the server. */
    ghost var issued: int

    ghost predicate Registered()
      reads `levels
    {
      |levels| == NO_LEVEL && Apart(levels) && AtTheirLevels(levels)
    }

    /** The request of every arena is its clamped total. */
    ghost predicate Clamped()
      reads `levels, All(levels)`total, All(levels)`requested, All(levels)`local
    {
      AllClamped(levels)
    }

    /** Level demands and total demand are the sums of the requests. */
    ghost predicate Summed()
      reads `levels, `levelDemand, `total, All(levels)`requested
    {
      levelDemand == Demands(RequestsOf(levels, |levels|)) && total == Total(levelDemand)
    }

    ghost predicate Demanded()
      reads `levels, `levelDemand, `total
      reads All(levels)`total, All(levels)`requested, All(levels)`local, All(levels)`allotted
    {
      Clamped() && Summed() && Idle(levels)
    }

    ghost predicate Counted()
      reads `levels, `mandatory, All(levels)`global
    {
      mandatory == Total(Counts(ModesOf(levels, |levels|)))
    }

    /** What the market asks the server for. */
    ghost predicate Supplied()
      reads `total, `soft, `requested, `mandatory, `issued
    {
      && issued == requested
      && (soft > 0 ==> mandatory == 0 && requested == Min(total, soft))
      && (soft == 0 ==> 0 <= requested <= 1)
      && (soft == 0 && mandatory > 0 ==> requested >= Min(total, 1))
    }

    ghost predicate Valid()
      reads `levels, `levelDemand, `total, `soft, `requested, `mandatory, `issued
      reads All(levels)`total, All(levels)`requested, All(levels)`local, All(levels)`allotted, All(levels)`global
    {
      Registered() && Demanded() && Counted() && Supplied()
    }

    /** Nothing is asked of the server that neither the limit nor an arena in global
        concurrency mode allows. */
    ghost predicate UpToDate()
      reads `soft, `mandatory, `requested
    {
      soft == 0 && mandatory == 0 ==> requested == 0
    }

    /** The allotments are those of a deal of up to `limit` workers. */
    ghost predicate Dealt(limit: int)
      requires Registered() && Demanded()
      reads `levels, `levelDemand, `total, `soft, All(levels)
    {
      var b := BookOf(levels, soft == 0, Min(total, limit));
      total != 0 && limit >= 0 ==> BookOk(b) && forall l :: 0 <= l < |levels| ==> Served(levels, b, l)
    }

    constructor (soft: nat)
      ensures Valid() && UpToDate() && this.soft == soft && levels == [[], [], []] && total == 0
      ensures requested == 0 && mandatory == 0 && issued == 0
    {
      levels, levelDemand := [[], [], []], [0, 0, 0];
      total, requested, mandatory, issued := 0, 0, 0, 0;
      this.soft := soft;
      new;
      NothingListed();
      hide Valid;
    }

    lemma NothingListed()
      requires levels == [[], [], []] && levelDemand == [0, 0, 0]
      requires total == requested == mandatory == issued == 0
      ensures Valid()
    {
      NoArenas(levels);
      assert Registered() && Counted() && Supplied();
      NothingDemanded();
      hide Registered, Counted, Supplied, Demanded;
    }

    lemma NothingDemanded()
      requires levels == [[], [], []] && levelDemand == [0, 0, 0] && total == 0
      ensures Demanded()
    {
      NoArenas(levels);
      hide Total, Demands, RequestsOf, Apart, Idle, Clamp;
    }

    lemma BookIsOk(b: Book)
      requires Registered() && Demanded() && b.max >= 0
      requires b.requests == RequestsOf(levels, |levels|) && b.modes == ModesOf(levels, |levels|)
      ensures BookOk(b) && total >= 0
    {
      DemandsNotNegative(b);
      TotalNonNegative(levelDemand);
    }

    /** `update_allotment` of the header. */
    method UpdateAllotment(limit: nat)
      requires Registered() && Demanded() && (soft == 0 ==> limit <= 1)
      modifies All(levels)`allotted, All(levels)`topPriority
      ensures Demanded() && Dealt(limit)
    {
      hide Sum, Total, Served, BookOk, Demands, Requests, Modes, RequestsOf, ModesOf, Clamp, AllClamped, Apart, Idle;
      if total != 0 {
        BookIsOk(BookOf(levels, soft == 0, if total >= 0 then Min(total, limit) else 0));
        var given := Deal(levels, levelDemand, total, limit, soft == 0);
      }
    }

    /** `update_workers_request`: as many as are demanded within the limit, or one for
        arenas in global concurrency mode. */
    method UpdateWorkersRequest() returns (delta: int)
      requires Registered() && Demanded() && mandatory >= 0 && (mandatory > 0 ==> soft == 0)
      modifies `requested, All(levels)`allotted, All(levels)`topPriority
      ensures Demanded() && requested == (if mandatory > 0 then 1 else Min(total, soft))
      ensures delta == requested - old(requested) && Dealt(requested)
    {
      hide Demanded, Dealt;
      var before := requested;
      requested := Min(total, soft);
      if mandatory > 0 { requested := 1; }
      DemandNotNegative();
      UpdateAllotment(requested);
      delta := requested - before;
    }

    lemma DemandNotNegative()
      requires Registered() && Demanded()
      ensures total >= 0
    {
      BookIsOk(BookOf(levels, soft == 0, 0));
    }

    lemma MandatoryNotNegative()
      requires Counted()
      ensures mandatory >= 0
    {
      TotalNonNegative(Counts(ModesOf(levels, |levels|)));
    }

    /** The arena is registered, at position `i` of its level. */
    ghost predicate Listed(a: Arena, i: nat)
      reads `levels
    {
      a.level < |levels| && i < |levels[a.level]| && levels[a.level][i] == a
    }

    /** `enable_mandatory_concurrency_impl` and `disable_mandatory_concurrency_impl`. */
    method SetMode(a: Arena, ghost i: nat, mode: bool)
      requires Registered() && Counted() && Listed(a, i) && a.global != mode
      modifies `mandatory, a`global
      ensures Counted() && a.global == mode
      ensures mandatory == old(mandatory) + (if mode then 1 else -1)
    {
      hide Counts, Total, Modes, ModesOf;
      ghost var mss := ModesOf(levels, |levels|);
      assert mss[a.level][i] == a.global;
      a.global := mode;
      mandatory := mandatory + if mode then 1 else -1;
      ModeChanged(a, i, mss);
    }

    lemma ModeChanged(a: Arena, i: nat, mss: seq<seq<bool>>)
      requires Registered() && Listed(a, i) && |mss| == |levels|
      requires forall l :: 0 <= l < |levels| ==> |mss[l]| == |levels[l]|
      requires forall l, j :: 0 <= l < |levels| && 0 <= j < |levels[l]| && levels[l][j] != a ==>
        mss[l][j] == levels[l][j].global
      ensures Total(Counts(ModesOf(levels, |levels|))) == Total(Counts(mss)) - AsOne(mss[a.level][i]) + AsOne(a.global)
    {
      hide Counts, Total;
      var mss' := ModesOf(levels, |levels|);
      assert mss'[a.level] == mss[a.level][i := a.global];
      forall k | 0 <= k < |mss| && k != a.level ensures mss'[k] == mss[k] {}
      ModeUpdate(mss, mss', a.level, i);
    }

    /** All arenas other than `a` have requests that are their clamped totals. */
    ghost predicate OthersClamped(a: Arena)
      reads `levels, All(levels)`total, All(levels)`requested, All(levels)`local
    {
      forall l, i :: 0 <= l < |levels| && 0 <= i < |levels[l]| && levels[l][i] != a ==> IsClamped(levels[l][i])
    }

    lemma ClampedWithOthers(a: Arena, i: nat)
      requires Listed(a, i)
      ensures Clamped() <==> OthersClamped(a) && IsClamped(a)
    {
    }

    /** The request of one arena changes, and with it the sums. */
    method ChangeRequest(a: Arena, ghost i: nat, target: nat)
      requires Registered() && Summed() && Idle(levels) && Listed(a, i) && OthersClamped(a)
      modifies `total, `levelDemand, a`requested, a`allotted
      ensures Summed() && Idle(levels) && a.requested == target && OthersClamped(a)
      ensures total == old(total) + target - old(a.requested)
    {
      hide Clamp, IsClamped, Total, Demands, Sum, Requests, RequestsOf;
      ghost var rss := RequestsOf(levels, |levels|);
      assert rss[a.level][i] == a.requested;
      var delta := target - a.requested;
      SetRequest(a, i, a.requested + delta);
      total := total + delta;
      levelDemand := levelDemand[a.level := levelDemand[a.level] + delta];
      RequestChanged(a, i, rss);
    }

    method SetRequest(a: Arena, ghost i: nat, target: nat)
      requires Idle(levels) && Listed(a, i) && OthersClamped(a)
      modifies a`requested, a`allotted
      ensures Idle(levels) && a.requested == target && OthersClamped(a)
    {
      hide Clamp;
      a.requested := target;
      if a.requested == 0 { a.allotted := 0; }
    }

    lemma RequestChanged(a: Arena, i: nat, rss: seq<seq<int>>)
      requires Registered() && Listed(a, i) && |rss| == |levels|
      requires forall l :: 0 <= l < |levels| ==> |rss[l]| == |levels[l]|
      requires forall l, j :: 0 <= l < |levels| && 0 <= j < |levels[l]| && levels[l][j] != a ==>
        rss[l][j] == levels[l][j].requested
      ensures var rss' := RequestsOf(levels, |levels|); var d := a.requested - rss[a.level][i];
        && Demands(rss') == Demands(rss)[a.level := Demands(rss)[a.level] + d]
        && Total(Demands(rss')) == Total(Demands(rss)) + d
    {
      hide Total, Demands, Sum;
      var rss' := RequestsOf(levels, |levels|);
      assert rss'[a.level] == rss[a.level][i := a.requested];
      forall k | 0 <= k < |rss| && k != a.level ensures rss'[k] == rss[k] {}
      RequestUpdate(rss, rss', a.level, i);
    }

    /** The first part of `adjust_demand`: the running total of the arena. */
    method Retotal(a: Arena, ghost i: nat, delta: int, mandatoryRequest: bool) returns (target: nat)
      requires Clamped() && Listed(a, i) && (mandatoryRequest ==> delta == 1 || delta == -1)
      modifies a`total, a`local
      ensures a.local == old(a.local) + (if mandatoryRequest then delta else 0)
      ensures a.total == old(a.total) + (if Ignored(old(a.local), delta, mandatoryRequest) then 0 else delta)
      ensures OthersClamped(a) && target == Clamp(a.total, a.maxWorkers, a.local)
    {
      ClampedWithOthers(a, i);
      hide Clamped;
      target := a.requested;
      if delta == 0 { return; }
      if mandatoryRequest {
        a.local := a.local + delta;
        if (delta > 0 && a.local != 1) || (delta < 0 && a.local != 0) { return; }
      }
      a.total := a.total + delta;
      target := 0;
      if a.total > 0 {
        var max := a.maxWorkers;
        if a.local > 0 && max == 0 { max := 1; }
        target := Min(a.total, max);
      }
    }

    /** `adjust_demand`. As the source asserts, mandatory requests come one by one. */
    method AdjustDemand(a: Arena, ghost i: nat, delta: int, mandatoryRequest: bool) returns (delta': int)
      requires Valid() && Listed(a, i) && (mandatoryRequest ==> delta == 1 || delta == -1)
      modifies `total, `levelDemand, `requested, `issued, a`total, a`requested, a`local
      modifies All(levels)`allotted, All(levels)`topPriority
      ensures Valid() && delta' == requested - old(requested)
      ensures a.local == old(a.local) + (if mandatoryRequest then delta else 0)
      ensures a.total == old(a.total) + (if Ignored(old(a.local), delta, mandatoryRequest) then 0 else delta)
      ensures !mandatoryRequest ==> a.total == old(a.total) + delta
      ensures mandatoryRequest && old(a.local) >= 0 && a.local >= 0 ==>
        a.total - AsOne(a.local > 0) == old(a.total - AsOne(a.local > 0))
      ensures total - old(total) == a.requested - old(a.requested)
      ensures a.requested == old(a.requested) ==> requested == old(requested)
      ensures a.requested != old(a.requested) ==>
        requested == Min(total, Effective(soft, mandatory)) && Dealt(Effective(soft, mandatory))
    {
      hide Registered, Summed, Idle, Counted, Supplied, OthersClamped, Clamped, Dealt, Clamp, Effective, Listed;
      DemandNotNegative();
      var target := Retotal(a, i, delta, mandatoryRequest);
      ClampedWithOthers(a, i);
      if target == a.requested { return 0; }
      delta' := Adjust(a, i, target);
    }

    /** The part of `adjust_demand` in which the demand changes. */
    method Adjust(a: Arena, ghost i: nat, target: nat) returns (delta': int)
      requires Registered() && Summed() && Idle(levels) && Counted() && Supplied() && Listed(a, i)
      requires target != a.requested && target == Clamp(a.total, a.maxWorkers, a.local) && total >= 0 && OthersClamped(a)
      modifies `total, `levelDemand, `requested, `issued, a`requested
      modifies All(levels)`allotted, All(levels)`topPriority
      ensures Valid() && a.requested == target && delta' == requested - old(requested)
      ensures total - old(total) == target - old(a.requested)
      ensures requested == Min(total, Effective(soft, mandatory)) && Dealt(Effective(soft, mandatory))
    {
      hide Registered, Summed, Idle, Counted, Dealt, OthersClamped, Clamped, Clamp;
      delta' := target - a.requested;
      ChangeRequest(a, i, target);
      ClampedWithOthers(a, i);
      MandatoryNotNegative();
      DemandNotNegative();
      var effective := soft;
      if mandatory > 0 { effective := 1; }
      UpdateAllotment(effective);
      CorrectionIsExact(soft, mandatory, requested, total, delta');
      if delta' > 0 {
        if requested + delta' > effective { delta' := effective - requested; }
      } else {
        if requested + delta' < total { delta' := Min(total, effective) - requested; }
      }
      requested := requested + delta';
      issued := issued + delta';
    }

    lemma GlobalIsCounted(a: Arena, i: nat)
      requires Registered() && Counted() && Listed(a, i)
      ensures a.global ==> mandatory > 0
    {
      var cs := Counts(ModesOf(levels, |levels|));
      PartOfTotal(cs, a.level);
      if a.global { CountPositive(Modes(levels[a.level]), i); }
    }

    /** `enable_mandatory_concurrency`. */
    method EnableMandatory(a: Arena, ghost i: nat) returns (delta: int)
      requires Valid() && Listed(a, i)
      modifies `requested, `issued, `mandatory, a`global, All(levels)`allotted, All(levels)`topPriority
      ensures Valid() && delta == requested - old(requested) && (old(UpToDate()) ==> UpToDate())
      ensures a.global == (old(a.global) || soft == 0)
      ensures if a.global && !old(a.global) then requested == 1 && mandatory == old(mandatory) + 1 && Dealt(1)
              else requested == old(requested) && mandatory == old(mandatory)
    {
      hide Registered, Clamped, Summed, Idle, Counted, Dealt, Listed;
      GlobalIsCounted(a, i);
      if soft != 0 || a.global { return 0; }
      MandatoryNotNegative();
      SetMode(a, i, true);
      delta := UpdateWorkersRequest();
      issued := issued + delta;
    }

    /** `mandatory_concurrency_disable`. The limit is 0 then, as the source asserts. */
    method DisableMandatory(a: Arena, ghost i: nat, enqueued: bool) returns (delta: int)
      requires Valid() && Listed(a, i)
      modifies `requested, `issued, `mandatory, a`global, All(levels)`allotted, All(levels)`topPriority
      ensures Valid() && delta == requested - old(requested) && (old(UpToDate()) ==> UpToDate())
      ensures old(a.global) ==> soft == 0 && a.global == enqueued
      ensures if old(a.global) && !enqueued then
                requested == (if mandatory > 0 then 1 else 0) && mandatory == old(mandatory) - 1 && Dealt(requested)
              else requested == old(requested) && mandatory == old(mandatory) && a.global == old(a.global)
    {
      hide Registered, Clamped, Summed, Idle, Counted, Dealt, Listed;
      GlobalIsCounted(a, i);
      DemandNotNegative();
      if !a.global { return 0; }
      if enqueued { return 0; }
      assert soft == 0;
      SetMode(a, i, false);
      delta := UpdateWorkersRequest();
      issued := issued + delta;
    }

    ghost predicate ModesAre(l: nat, n: nat, on: set<Arena>)
      requires l < |levels| && n <= |levels[l]|
      reads `levels, All(levels)`global
    {
      forall i :: 0 <= i < n ==> levels[l][i].global == (levels[l][i] in on)
    }

    /** The two loops of `set_active_num_workers` over the arenas of one level: those in
        global concurrency mode leave it, or those with enqueued tasks enter it. */
    method SetModes(l: nat, on: set<Arena>)
      requires Registered() && Counted() && l < |levels|
      modifies `mandatory, levels[l]`global
      ensures Counted() && ModesAre(l, |levels[l]|, on)
    {
      hide Counted, Apart;
      var i := 0;
      while i < |levels[l]|
        invariant 0 <= i <= |levels[l]| && Counted() && ModesAre(l, i, on)
      {
        var a := levels[l][i];
        if a.global != (a in on) {
          SetMode(a, i, a in on);
        }
        i := i + 1;
      }
    }

    lemma NobodyGlobal()
      requires Registered() && Counted() && forall l :: 0 <= l < |levels| ==> ModesAre(l, |levels[l]|, {})
      ensures mandatory == 0
    {
      var mss := ModesOf(levels, |levels|);
      forall l | 0 <= l < |mss| ensures Count(mss[l]) == 0 {
        assert ModesAre(l, |levels[l]|, {});
        CountNone(mss[l]);
      }
      TotalZero(Counts(mss));
    }

    /** Sets the modes of the arenas of all levels. */
    method SetAllModes(on: set<Arena>)
      requires Registered() && Counted()
      modifies `mandatory, All(levels)`global
      ensures Counted() && forall l :: 0 <= l < |levels| ==> ModesAre(l, |levels[l]|, on)
    {
      hide Counted;
      var l := 0;
      while l < |levels|
        invariant 0 <= l <= |levels| && Counted()
        invariant forall k :: 0 <= k < l ==> ModesAre(k, |levels[k]|, on)
      {
        SetModes(l, on);
        l := l + 1;
      }
    }

    /** The first part of `set_active_num_workers`: the new limit and the modes. */
    method SetLimit(limit: nat, enqueued: set<Arena>)
      requires Registered() && Counted() && (soft > 0 ==> mandatory == 0) && limit != soft
      modifies `soft, `mandatory, All(levels)`global
      ensures Counted() && soft == limit && (limit > 0 ==> mandatory == 0)
      ensures limit == 0 ==> forall l :: 0 <= l < |levels| ==> ModesAre(l, |levels[l]|, enqueued)
    {
      hide Counted, ModesAre;
      if soft == 0 && mandatory > 0 {
        SetAllModes({});
        NobodyGlobal();
      }
      MandatoryNotNegative();
      assert mandatory == 0;
      soft := limit;
      if soft == 0 { SetAllModes(enqueued); }
    }

    /** `set_active_num_workers`, with the arenas that have enqueued tasks. */
    method SetActiveNumWorkers(limit: nat, enqueued: set<Arena>) returns (delta: int)
      requires Valid()
      modifies `soft, `requested, `issued, `mandatory, All(levels)`global, All(levels)`allotted, All(levels)`topPriority
      ensures Valid() && soft == limit && delta == requested - old(requested)
      ensures limit == old(soft) ==> delta == 0
      ensures limit != old(soft) ==> UpToDate() && Dealt(requested)
      ensures limit != old(soft) && limit == 0 ==> forall l :: 0 <= l < |levels| ==> ModesAre(l, |levels[l]|, enqueued)
    {
      hide Registered, Clamped, Summed, Idle, Counted, Dealt, ModesAre;
      if soft == limit { return 0; }
      SetLimit(limit, enqueued);
      MandatoryNotNegative();
      DemandNotNegative();
      delta := UpdateWorkersRequest();
      issued := issued + delta;
    }

    /** `insert_arena_into_list`: a new arena goes to the front of its level. */
    method Insert(a: Arena)
      requires Valid() && a.level < NO_LEVEL && a !in All(levels)
      requires a.total == a.requested == a.allotted == a.local == 0 && !a.global
      modifies `levels
      ensures Valid() && levels == old(levels[a.level := [a] + levels[a.level]])
    {
      hide Demands, Counts, Total, RequestsOf, ModesOf, Apart, All, AllClamped, Idle, AtTheirLevels;
      var levels' := levels[a.level := [a] + levels[a.level]];
      InsertedStaysOk(levels, a);
      InsertedApart(levels, a);
      InsertedSameBooks(levels, a);
      Relist(levels');
    }

    /** Another list of arenas with the same books. */
    method Relist(levels': seq<seq<Arena>>)
      requires Demanded() && Counted() && |levels'| == |levels|
      requires AllClamped(levels') && Idle(levels')
      requires Demands(RequestsOf(levels', |levels'|)) == Demands(RequestsOf(levels, |levels|))
      requires Counts(ModesOf(levels', |levels'|)) == Counts(ModesOf(levels, |levels|))
      modifies `levels
      ensures Demanded() && Counted() && levels == levels'
    {
      hide Demands, Counts, Total, RequestsOf, ModesOf, All, AllClamped, Idle;
      levels := levels';
    }

    /** `try_destroy_arena` for an arena that is alive: it goes if it asks for nothing
        and nobody refers to it. It leaves global concurrency mode, but the request to
        the server is not computed again: it stays right exactly if this was not the
        last arena in that mode, or nothing was asked for. */
    method TryDestroy(a: Arena, ghost i: nat, referenced: bool) returns (removed: bool)
      requires Valid() && Listed(a, i)
      modifies `levels, `mandatory, a`global
      ensures Valid() && removed == (a.requested == 0 && !referenced)
      ensures levels == if removed then old(levels[a.level := levels[a.level][..i] + levels[a.level][i + 1..]]) else old(levels)
      ensures mandatory == old(mandatory) - if removed && old(a.global) then 1 else 0
      ensures old(UpToDate()) ==> (UpToDate() <==> !(removed && old(a.global) && old(mandatory) == 1 && requested == 1))
    {
      hide Registered, Clamped, Summed, Idle, Counted, Listed;
      removed := a.requested == 0 && !referenced;
      ghost var all := All(levels);
      GlobalIsCounted(a, i);
      if removed {
        if a.global {
          SetMode(a, i, false);
          assert all == All(levels);
        }
        MandatoryNotNegative();
        Remove(a, i);
      }
    }

    /** `remove_arena_from_list`. */
    method Remove(a: Arena, ghost i: nat)
      requires Registered() && Demanded() && Counted() && Listed(a, i) && a.requested == 0 && !a.global
      modifies `levels
      ensures Registered() && Demanded() && Counted()
      ensures levels == old(levels[a.level := levels[a.level][..i] + levels[a.level][i + 1..]])
    {
      hide Demands, Counts, Total, RequestsOf, ModesOf, Apart, All, AllClamped, Idle, AtTheirLevels;
      DropHere(a, i);
      var levels' := levels[a.level := Drop(levels[a.level], a)];
      RemovedStaysOk(levels, a.level, i);
      RemovedApart(levels, a.level, i);
      SameBooks(levels, levels', a.level, i);
      Relist(levels');
    }

    lemma DropHere(a: Arena, i: nat)
      requires Registered() && Listed(a, i)
      ensures Drop(levels[a.level], a) == levels[a.level][..i] + levels[a.level][i + 1..]
    {
      DropAt(levels[a.level], i);
    }
  }

  lemma RequestIsClamped(m: Market, a: Arena, i: nat)
    requires m.Valid() && m.Listed(a, i)
    ensures IsClamped(a)
  {
  }

  lemma NobodyIn(levels: seq<seq<Arena>>)
    requires levels == [[], [], []]
    ensures All(levels) == {}
  {
  }

  lemma OneIn(levels: seq<seq<Arena>>, a: Arena)
    requires |levels| == 3 && levels[0] == [a] && levels[1] == [] && levels[2] == []
    ensures All(levels) == {a}
  {
    assert levels[0][0] == a;
  }

  lemma TwoIn(levels: seq<seq<Arena>>, a: Arena, b: Arena)
    requires |levels| == 3 && levels[0] == [a] && levels[1] == [b] && levels[2] == []
    ensures All(levels) == {a, b}
  {
    assert levels[0][0] == a && levels[1][0] == b;
  }

  method TwoArenas() returns (m: Market, a: Arena, b: Arena)
    ensures m.Valid() && m.soft == 0 && m.requested == 0 && m.mandatory == 0 && m.total == 0
    ensures fresh(m) && fresh(a) && fresh(b) && a != b && All(m.levels) == {a, b}
    ensures m.Listed(a, 0) && m.Listed(b, 0) && b.maxWorkers == 2
    ensures a.requested == b.requested == b.total == b.local == 0 && !a.global
  {
    hide Market.Valid;
    m := new Market(0);
    a := new Arena(2, 0);
    b := new Arena(2, 1);
    NobodyIn(m.levels);
    m.Insert(a);
    OneIn(m.levels, a);
    m.Insert(b);
    TwoIn(m.levels, a, b);
  }

  method Enlist(m: Market, a: Arena, b: Arena)
    requires m.Valid() && m.soft == 0 && m.mandatory == 0 && m.total == 0 && m.Listed(a, 0) && m.Listed(b, 0) && a != b
    requires !a.global && a.requested == b.requested == b.total == b.local == 0 && b.maxWorkers == 2
    modifies m, a, b, All(m.levels)
    ensures m.Valid() && m.soft == 0 && m.mandatory == 1 && m.requested == 1 && m.levels == old(m.levels)
    ensures a.global && a.requested == 0
  {
    hide Market.Valid, Market.Dealt, Market.UpToDate;
    var d := m.EnableMandatory(a, 0);
    d := m.AdjustDemand(b, 0, 2, false);
    RequestIsClamped(m, b, 0);
  }

  /** With a limit of 0 an arena in global concurrency mode is destroyed while another
      one asks for workers: the market goes on asking the server for a worker that it
      may not give to anybody. */
  method ForgottenRequest() returns (m: Market)
    ensures m.Valid() && m.soft == 0 && m.mandatory == 0 && m.requested == 1 && !m.UpToDate()
  {
    hide Market.Valid;
    var a, b;
    m, a, b := TwoArenas();
    Enlist(m, a, b);
    var removed := m.TryDestroy(a, 0, false);
  }
}
