/** How the market deals out workers to the arenas: level by level in the order of
    priority, and within a level in proportion to the requests, with the remainder
    of each division carried on to the next arena. */
module Allotment {
  import opened Common

  class Arena {
    const maxWorkers: nat
    const level: nat
    var total: int
    var requested: int
    var allotted: int
    var topPriority: bool
    var global: bool
    var local: int

    constructor (maxWorkers: nat, level: nat)
      ensures this.maxWorkers == maxWorkers && this.level == level
      ensures total == 0 && requested == 0 && allotted == 0 && local == 0 && !topPriority && !global
    {
      this.maxWorkers, this.level := maxWorkers, level;
      total, requested, allotted, local, topPriority, global := 0, 0, 0, 0, false, false;
    }
  }

  // ------------------------------------------------------ specification

  function Sum(rs: seq<int>): int {
    if rs == [] then 0 else Sum(rs[..|rs| - 1]) + rs[|rs| - 1]
  }

  function Min(a: int, b: int): int { if a < b then a else b }

  /** The workers given to the arenas before position `i`, out of `workers` for a
      level whose requests are `rs`. */
  function Dealt(rs: seq<int>, workers: int, i: nat): int
    requires i <= |rs| && Sum(rs) > 0
  {
    Sum(rs[..i]) * workers / Sum(rs)
  }

  function Share(rs: seq<int>, workers: int, i: nat): int
    requires i < |rs| && Sum(rs) > 0
  {
    Dealt(rs, workers, i + 1) - Dealt(rs, workers, i)
  }

  /** What the levels from the first on get when `workers` are to be had. */
  function PerLevel(demands: seq<int>, workers: int): seq<int> {
    if demands == [] then []
    else
      var a := Min(demands[0], workers);
      [a] + PerLevel(demands[1..], workers - a)
  }

  ghost predicate NoneNegative(rs: seq<int>) { forall i :: 0 <= i < |rs| ==> rs[i] >= 0 }

  // ------------------------------------------------------------ division

  lemma DivMod(x: int, d: int)
    requires d > 0
    ensures x == d * (x / d) + x % d && 0 <= x % d < d
  {
  }

  lemma DivUnique(x: int, d: int, q: int, r: int)
    requires d > 0 && 0 <= r < d && x == d * q + r
    ensures x / d == q && x % d == r
  {
    DivMod(x, d);
    var e := x / d - q;
    assert d * e == d * (x / d) - d * q;
    MulAtLeast(d, e);
  }

  lemma MulAtLeast(d: int, e: int)
    requires d > 0
    ensures e >= 1 ==> d * e >= d
    ensures e <= -1 ==> d * e <= -d
  {
    if e >= 1 {
      assert d * (e - 1) >= 0;
    } else if e <= -1 {
      assert d * (-e - 1) >= 0;
    }
  }

  /** Dividing piece by piece with the remainder carried on. */
  lemma Carry(x: int, y: int, d: int)
    requires d > 0
    ensures (x + y) / d == x / d + (y + x % d) / d && (x + y) % d == (y + x % d) % d
  {
    DivMod(x, d);
    DivMod(y + x % d, d);
    var q, r := x / d + (y + x % d) / d, (y + x % d) % d;
    assert d * q == d * (x / d) + d * ((y + x % d) / d);
    DivUnique(x + y, d, q, r);
  }

  lemma {:induction false} SumPrefix(rs: seq<int>, i: nat)
    requires i < |rs|
    ensures Sum(rs[..i + 1]) == Sum(rs[..i]) + rs[i]
  {
    assert rs[..i + 1][..i] == rs[..i];
  }

  lemma {:induction false} PrefixWithin(rs: seq<int>, i: nat)
    requires NoneNegative(rs) && i <= |rs|
    ensures 0 <= Sum(rs[..i]) <= Sum(rs)
    ensures i < |rs| ==> rs[i] <= Sum(rs)
  {
    if i > 0 {
      PrefixNonNegative(rs, i);
    }
    RestNonNegative(rs, i);
    if i < |rs| {
      SumPrefix(rs, i);
      PrefixNonNegative(rs, i);
      RestNonNegative(rs, i + 1);
    }
  }

  lemma {:induction false} PrefixNonNegative(rs: seq<int>, i: nat)
    requires NoneNegative(rs) && i <= |rs|
    ensures Sum(rs[..i]) >= 0
  {
    if i > 0 {
      PrefixNonNegative(rs, i - 1);
      SumPrefix(rs, i - 1);
    }
  }

  lemma {:induction false} RestNonNegative(rs: seq<int>, i: nat)
    requires NoneNegative(rs) && i <= |rs|
    ensures Sum(rs[..i]) <= Sum(rs)
    decreases |rs| - i
  {
    if i < |rs| {
      RestNonNegative(rs, i + 1);
      SumPrefix(rs, i);
    } else {
      assert rs[..i] == rs;
    }
  }

  // --------------------------------------------- what the shares are worth

  lemma Distributes(a: int, b: int, c: int)
    ensures (a + b) * c == a * c + b * c
  {
  }

  /** One share, with the remainder `carry` of the shares before it. */
  lemma ShareStep(rs: seq<int>, workers: int, i: nat)
    requires i < |rs| && Sum(rs) > 0
    ensures var d, carry := Sum(rs), Sum(rs[..i]) * workers % Sum(rs);
      && Share(rs, workers, i) == (rs[i] * workers + carry) / d
      && Sum(rs[..i + 1]) * workers % d == (rs[i] * workers + carry) % d
  {
    SumPrefix(rs, i);
    hide Sum;
    ShareArith(Sum(rs[..i]), rs[i], workers, Sum(rs));
  }

  lemma ShareArith(before: int, r: int, workers: int, d: int)
    requires d > 0
    ensures var carry := before * workers % d;
      && (before + r) * workers / d - before * workers / d == (r * workers + carry) / d
      && (before + r) * workers % d == (r * workers + carry) % d
  {
    Distributes(before, r, workers);
    Carry(before * workers, r * workers, d);
  }

  lemma Bounds(r: int, x: int, carry: int, d: int)
    requires 0 <= carry < d && 0 <= x <= d * r
    ensures var share := (x + carry) / d;
      && x / d <= share <= (x + d - 1) / d
      && 0 <= share <= r
  {
    DivMonotone(x, x + carry, d);
    DivMonotone(x + carry, x + d - 1, d);
    DivMonotone(0, x + carry, d);
    DivMonotone(x + carry, d * r + (d - 1), d);
    DivUnique(d * r + (d - 1), d, r, d - 1);
  }

  lemma ProductWithin(r: int, workers: int, d: int)
    requires r >= 0 && 0 <= workers <= d
    ensures 0 <= r * workers <= d * r
  {
    assert r * (d - workers) >= 0;
  }

  lemma DivMonotone(x: int, y: int, d: int)
    requires d > 0 && x <= y
    ensures x / d <= y / d
  {
    DivMod(x, d);
    DivMod(y, d);
    var e := x / d - y / d;
    assert d * e == d * (x / d) - d * (y / d);
    MulAtLeast(d, e);
  }

  /** Every arena gets its exact proportion rounded down or up, and never more than it
      asked for. */
  lemma FairShare(rs: seq<int>, workers: int, i: nat)
    requires NoneNegative(rs) && i < |rs| && Sum(rs) > 0 && 0 <= workers <= Sum(rs)
    ensures rs[i] * workers / Sum(rs) <= Share(rs, workers, i) <= (rs[i] * workers + Sum(rs) - 1) / Sum(rs)
    ensures 0 <= Share(rs, workers, i) <= rs[i]
  {
    hide Sum, Share;
    ShareStep(rs, workers, i);
    var d, carry := Sum(rs), Sum(rs[..i]) * workers % Sum(rs);
    DivMod(Sum(rs[..i]) * workers, d);
    ProductWithin(rs[i], workers, d);
    Bounds(rs[i], rs[i] * workers, carry, d);
  }

  /** The level gets exactly the workers meant for it, and no remainder is left over. */
  lemma LevelIsDealtOut(rs: seq<int>, workers: int)
    requires Sum(rs) > 0
    ensures Dealt(rs, workers, |rs|) == workers && Dealt(rs, workers, 0) == 0
    ensures Sum(rs[..|rs|]) * workers % Sum(rs) == 0
  {
    assert rs[..|rs|] == rs && rs[..0] == [];
    DivUnique(Sum(rs) * workers, Sum(rs), workers, 0);
    DivUnique(0, Sum(rs), 0, 0);
  }

  /** If a level is fully served, so is each of its arenas. */
  lemma FullyServed(rs: seq<int>, i: nat)
    requires i < |rs| && Sum(rs) > 0
    ensures Share(rs, Sum(rs), i) == rs[i]
  {
    SumPrefix(rs, i);
    var d := Sum(rs);
    DivUnique(Sum(rs[..i]) * d, d, Sum(rs[..i]), 0);
    DivUnique(Sum(rs[..i + 1]) * d, d, Sum(rs[..i + 1]), 0);
  }

  function Total(q: seq<int>): int { if q == [] then 0 else q[0] + Total(q[1..]) }

  lemma {:induction false} PerLevelBounds(demands: seq<int>, workers: int)
    requires NoneNegative(demands) && workers >= 0
    ensures var got := PerLevel(demands, workers);
      |got| == |demands| && forall l :: 0 <= l < |got| ==> 0 <= got[l] <= demands[l]
  {
    if demands != [] {
      var a, ds := Min(demands[0], workers), demands[1..];
      PerLevelBounds(ds, workers - a);
      var got, rest := PerLevel(demands, workers), PerLevel(ds, workers - a);
      forall l | 0 <= l < |got| ensures 0 <= got[l] <= demands[l] {
        if l > 0 { assert got[l] == rest[l - 1] && demands[l] == ds[l - 1]; }
      }
    }
  }

  lemma {:induction false} PerLevelTotal(demands: seq<int>, workers: int)
    requires NoneNegative(demands) && workers >= 0
    ensures Total(PerLevel(demands, workers)) == Min(Total(demands), workers)
  {
    if demands != [] {
      var a := Min(demands[0], workers);
      PerLevelTotal(demands[1..], workers - a);
      TotalNonNegative(demands[1..]);
      assert PerLevel(demands, workers)[1..] == PerLevel(demands[1..], workers - a);
    }
  }

  lemma {:induction false} PerLevelOrder(demands: seq<int>, workers: int, h: nat, l: nat)
    requires NoneNegative(demands) && workers >= 0 && h < l < |demands| == |PerLevel(demands, workers)|
    requires PerLevel(demands, workers)[l] > 0
    ensures PerLevel(demands, workers)[h] == demands[h]
  {
    var a, ds := Min(demands[0], workers), demands[1..];
    var rest := PerLevel(ds, workers - a);
    assert PerLevel(demands, workers)[l] == rest[l - 1];
    if h == 0 {
      PerLevelTotal(ds, workers - a);
      PerLevelBounds(ds, workers - a);
      PartOfTotal(rest, l - 1);
      TotalNonNegative(ds);
    } else {
      PerLevelOrder(ds, workers - a, h - 1, l - 1);
      assert PerLevel(demands, workers)[h] == rest[h - 1] && demands[h] == ds[h - 1];
    }
  }

  /** Over all levels: each gets at most its demand, together they get as much as there
      is to be had and to be used, and a level gets something only if all levels
      before it are fully served. */
  lemma HigherLevelsFirst(demands: seq<int>, workers: int)
    requires NoneNegative(demands) && workers >= 0
    ensures var got := PerLevel(demands, workers);
      && |got| == |demands|
      && (forall l :: 0 <= l < |got| ==> 0 <= got[l] <= demands[l])
      && Total(got) == Min(Total(demands), workers)
      && (forall l, h :: 0 <= h < l < |got| && got[l] > 0 ==> got[h] == demands[h])
  {
    PerLevelBounds(demands, workers);
    PerLevelTotal(demands, workers);
    hide Total, PerLevel;
    var got := PerLevel(demands, workers);
    forall l, h | 0 <= h < l < |got| && got[l] > 0 ensures got[h] == demands[h] {
      PerLevelOrder(demands, workers, h, l);
    }
  }

  lemma {:induction false} TotalNonNegative(q: seq<int>)
    requires NoneNegative(q)
    ensures Total(q) >= 0
  {
    if q != [] { TotalNonNegative(q[1..]); }
  }

  lemma {:induction false} PartOfTotal(q: seq<int>, l: nat)
    requires NoneNegative(q) && l < |q|
    ensures q[l] <= Total(q)
  {
    TotalNonNegative(q[1..]);
    if l > 0 { PartOfTotal(q[1..], l - 1); }
  }

  // -------------------------------------------------- one level, by value

  /** What the loop over one level has to go by: requests and modes of the arenas, the
      workers for the level, whether the soft limit is 0, and, for that case, how
      many were given before and how many there are at most. */
  datatype Level = Level(rs: seq<int>, modes: seq<bool>, workers: int, softZero: bool, given: int, max: int)

  ghost predicate LevelOk(v: Level) {
    && |v.modes| == |v.rs| && NoneNegative(v.rs) && 0 <= v.workers <= Sum(v.rs)
    && (v.softZero ==> v.given <= v.max)
  }

  /** The arenas before position `i` that ask for workers in global concurrency mode. */
  function Mandatory(v: Level, i: nat): nat
    requires |v.modes| == |v.rs| && i <= |v.rs|
  {
    if i == 0 then 0 else Mandatory(v, i - 1) + AsOne(v.modes[i - 1] && v.rs[i - 1] != 0)
  }

  /** What an arena that asks for workers is allotted: its share, or with a soft limit
      of 0 a single worker as long as there is one, if its mode demands it. */
  function Allotted(v: Level, i: nat): int
    requires |v.modes| == |v.rs| && i < |v.rs|
  {
    if v.softZero then AsOne(v.modes[i] && v.given + Mandatory(v, i) < v.max)
    else if Sum(v.rs) > 0 then Share(v.rs, v.workers, i) else 0
  }

  function GivenAt(v: Level, i: nat): int
    requires |v.modes| == |v.rs| && i <= |v.rs|
  {
    if v.softZero then Min(v.given + Mandatory(v, i), v.max)
    else v.given + if Sum(v.rs) > 0 then Dealt(v.rs, v.workers, i) else 0
  }

  function CarryAt(v: Level, i: nat): int
    requires i <= |v.rs|
  {
    if v.softZero || Sum(v.rs) <= 0 then 0 else Sum(v.rs[..i]) * v.workers % Sum(v.rs)
  }

  lemma DealtStep(v: Level, i: nat)
    requires LevelOk(v) && i < |v.rs| && v.rs[i] != 0
    ensures Sum(v.rs) > 0
    ensures GivenAt(v, i + 1) == GivenAt(v, i) + Allotted(v, i)
    ensures v.softZero ==> Allotted(v, i) == AsOne(v.modes[i] && GivenAt(v, i) < v.max) && CarryAt(v, i + 1) == CarryAt(v, i)
    ensures var tmp := v.rs[i] * v.workers + CarryAt(v, i);
      !v.softZero ==> Allotted(v, i) == tmp / Sum(v.rs) && CarryAt(v, i + 1) == tmp % Sum(v.rs)
  {
    PrefixWithin(v.rs, i);
    ShareStep(v.rs, v.workers, i);
    hide Sum, Dealt;
  }

  lemma ModeStep(v: Level, i: nat)
    requires LevelOk(v) && i < |v.rs| && v.rs[i] != 0
    ensures GivenAt(v, i + 1) == GivenAt(v, i) + Allotted(v, i)
    ensures v.softZero ==> Allotted(v, i) == AsOne(v.modes[i] && GivenAt(v, i) < v.max) && CarryAt(v, i + 1) == CarryAt(v, i)
  {
    DealtStep(v, i);
  }

  lemma SkippedStep(v: Level, i: nat)
    requires LevelOk(v) && i < |v.rs| && v.rs[i] == 0
    ensures GivenAt(v, i + 1) == GivenAt(v, i) && CarryAt(v, i + 1) == CarryAt(v, i)
  {
    SumPrefix(v.rs, i);
  }

  lemma LevelStart(v: Level)
    requires LevelOk(v)
    ensures GivenAt(v, 0) == v.given && CarryAt(v, 0) == 0
  {
    if Sum(v.rs) > 0 { LevelIsDealtOut(v.rs, v.workers); }
  }

  lemma LevelEnd(v: Level)
    requires LevelOk(v)
    ensures CarryAt(v, |v.rs|) == 0
    ensures !v.softZero ==> GivenAt(v, |v.rs|) == v.given + v.workers
    ensures v.softZero ==> v.given <= GivenAt(v, |v.rs|) <= v.max
  {
    if Sum(v.rs) > 0 { LevelIsDealtOut(v.rs, v.workers); }
  }

  // ---------------------------------------------------------- the loops

  ghost function Requests(q: seq<Arena>): (rs: seq<int>)
    reads q`requested
    ensures |rs| == |q| && forall i :: 0 <= i < |q| ==> rs[i] == q[i].requested
  {
    if q == [] then [] else Requests(q[..|q| - 1]) + [q[|q| - 1].requested]
  }

  ghost function Modes(q: seq<Arena>): (ms: seq<bool>)
    reads q`global
    ensures |ms| == |q| && forall i :: 0 <= i < |q| ==> ms[i] == q[i].global
  {
    if q == [] then [] else Modes(q[..|q| - 1]) + [q[|q| - 1].global]
  }

  const NO_LEVEL: nat := 3

  /** The first level that has a request, as far as seen. */
  function TopAt(rs: seq<int>, level: nat, top: nat, i: nat): nat
    requires i <= |rs|
  {
    if i == 0 then top
    else
      var t := TopAt(rs, level, top, i - 1);
      if t == NO_LEVEL && rs[i - 1] != 0 then level else t
  }

  /** The share of one arena and the remainder to carry on. */
  method Divide(ghost v: Level, ghost i: nat, requested: int, workers: int, carry: int, demand: int)
    returns (allotted: int, carry': int)
    requires LevelOk(v) && !v.softZero && i < |v.rs| && v.rs[i] != 0
    requires requested == v.rs[i] && workers == v.workers && demand == Sum(v.rs) && carry == CarryAt(v, i)
    ensures allotted == Allotted(v, i) && carry' == CarryAt(v, i + 1)
  {
    DealtStep(v, i);
    hide Allotted, CarryAt, Sum;
    var tmp := requested * workers + carry;
    allotted := tmp / demand;
    carry' := tmp % demand;
  }

  /** The body of the inner loop for an arena with a request. */
  method DealOne(a: Arena, ghost v: Level, ghost i: nat, level: nat, demand: int, workers: int, softZero: bool, max: int,
                 given: int, carry: int, top: nat)
    returns (given': int, carry': int, top': nat)
    requires LevelOk(v) && i < |v.rs| && v.rs[i] == a.requested != 0 && v.modes[i] == a.global
    requires demand == Sum(v.rs) && workers == v.workers && softZero == v.softZero && max == v.max
    requires given == GivenAt(v, i) && carry == CarryAt(v, i)
    modifies a`allotted, a`topPriority
    ensures given' == GivenAt(v, i + 1) && carry' == CarryAt(v, i + 1)
    ensures top' == (if top == NO_LEVEL then level else top)
    ensures a.allotted == Allotted(v, i) && a.topPriority == (level == top')
  {
    hide Sum, Share, Dealt, GivenAt, CarryAt, Allotted;
    ModeStep(v, i);
    top' := if top == NO_LEVEL then level else top;
    var allotted := 0;
    carry' := carry;
    if softZero {
      allotted := if a.global && given < max then 1 else 0;
    } else {
      allotted, carry' := Divide(v, i, a.requested, workers, carry, demand);
    }
    a.allotted := allotted;
    a.topPriority := level == top';
    given' := given + allotted;
  }

  /** The loop over the arenas of one level. */
  method DealLevel(q: seq<Arena>, ghost v: Level, level: nat, demand: int, workers: int, softZero: bool, max: int,
                   given: int, carry: int, top: nat)
    returns (given': int, carry': int, top': nat)
    requires Distinct(q) && demand == Sum(v.rs) && carry == 0 && level < NO_LEVEL
    requires LevelOk(v) && v == Level(Requests(q), Modes(q), workers, softZero, given, max)
    modifies q`allotted, q`topPriority
    ensures Requests(q) == v.rs && Modes(q) == v.modes
    ensures given' == GivenAt(v, |q|) && carry' == 0 && top' == TopAt(v.rs, level, top, |q|)
    ensures forall i :: 0 <= i < |q| && v.rs[i] != 0 ==>
      q[i].allotted == Allotted(v, i) && q[i].topPriority == (level == top')
    ensures forall i :: 0 <= i < |q| && v.rs[i] == 0 ==> q[i].allotted == old(q[i].allotted)
  {
    hide Sum, Share, Dealt, GivenAt, CarryAt, Allotted, LevelOk, Requests, Modes;
    given', carry', top' := given, carry, top;
    var i := 0;
    LevelStart(v);
    while i < |q|
      invariant 0 <= i <= |q| == |v.rs| == |v.modes|
      invariant forall j :: 0 <= j < |q| ==> q[j].requested == v.rs[j] && q[j].global == v.modes[j]
      invariant given' == GivenAt(v, i) && carry' == CarryAt(v, i) && top' == TopAt(v.rs, level, top, i)
      invariant top' == NO_LEVEL ==> forall j :: 0 <= j < i ==> v.rs[j] == 0
      invariant forall j :: 0 <= j < i && v.rs[j] != 0 ==>
        q[j].allotted == Allotted(v, j) && q[j].topPriority == (level == top')
      invariant forall j :: 0 <= j < |q| && v.rs[j] == 0 ==> q[j].allotted == old(q[j].allotted)
    {
      if q[i].requested == 0 {
        SkippedStep(v, i);
      } else {
        given', carry', top' := DealOne(q[i], v, i, level, demand, workers, softZero, max, given', carry', top');
      }
      i := i + 1;
    }
    LevelEnd(v);
    assert Requests(q) == v.rs && Modes(q) == v.modes;
  }

  // ------------------------------------------------------- all the levels

  /** What the whole deal has to go by: requests and modes of all arenas by level,
      whether the soft limit is 0, and the number of workers to be had. */
  datatype Book = Book(requests: seq<seq<int>>, modes: seq<seq<bool>>, softZero: bool, max: int)

  function Demands(rss: seq<seq<int>>): (ds: seq<int>)
    ensures |ds| == |rss| && forall l :: 0 <= l < |rss| ==> ds[l] == Sum(rss[l])
  {
    seq(|rss|, l requires 0 <= l < |rss| => Sum(rss[l]))
  }

  ghost predicate BookOk(b: Book) {
    && |b.modes| == |b.requests| && b.max >= 0
    && (forall l :: 0 <= l < |b.requests| ==> |b.modes[l]| == |b.requests[l]| && NoneNegative(b.requests[l]))
  }

  lemma {:induction false} PerLevelLength(demands: seq<int>, workers: int)
    ensures |PerLevel(demands, workers)| == |demands|
  {
    if demands != [] { PerLevelLength(demands[1..], workers - Min(demands[0], workers)); }
  }

  ghost function LevelAt(b: Book, l: nat): (v: Level)
    requires BookOk(b) && l < |b.requests|
    ensures v.rs == b.requests[l] && v.modes == b.modes[l]
    decreases l, 1
  {
    PerLevelLength(Demands(b.requests), b.max);
    Level(b.requests[l], b.modes[l], PerLevel(Demands(b.requests), b.max)[l], b.softZero, StartAt(b, l), b.max)
  }

  /** The workers given before level `l`. */
  ghost function StartAt(b: Book, l: nat): int
    requires BookOk(b) && l <= |b.requests|
    decreases l, 0
  {
    if l == 0 then 0 else GivenAt(LevelAt(b, l - 1), |b.requests[l - 1]|)
  }

  ghost function RequestsOf(levels: seq<seq<Arena>>, n: nat): (rss: seq<seq<int>>)
    requires n <= |levels|
    reads All(levels)`requested
    ensures |rss| == n && forall l :: 0 <= l < n ==> rss[l] == Requests(levels[l])
  {
    if n == 0 then [] else RequestsOf(levels, n - 1) + [Requests(levels[n - 1])]
  }

  ghost function ModesOf(levels: seq<seq<Arena>>, n: nat): (mss: seq<seq<bool>>)
    requires n <= |levels|
    reads All(levels)`global
    ensures |mss| == n && forall l :: 0 <= l < n ==> mss[l] == Modes(levels[l])
  {
    if n == 0 then [] else ModesOf(levels, n - 1) + [Modes(levels[n - 1])]
  }

  ghost function BookOf(levels: seq<seq<Arena>>, softZero: bool, max: int): (b: Book)
    reads All(levels)`requested, All(levels)`global
    ensures |b.requests| == |b.modes| == |levels| && b.softZero == softZero && b.max == max
    ensures forall l :: 0 <= l < |levels| ==> b.requests[l] == Requests(levels[l]) && b.modes[l] == Modes(levels[l])
  {
    Book(RequestsOf(levels, |levels|), ModesOf(levels, |levels|), softZero, max)
  }

  ghost function All(levels: seq<seq<Arena>>): set<Arena> {
    set l, i | 0 <= l < |levels| && 0 <= i < |levels[l]| :: levels[l][i]
  }

  /** No arena is registered twice. */
  ghost predicate Apart(levels: seq<seq<Arena>>) {
    && (forall l :: 0 <= l < |levels| ==> Distinct(levels[l]))
    && (forall l, m, i, j :: 0 <= l < m < |levels| && 0 <= i < |levels[l]| && 0 <= j < |levels[m]| ==>
          levels[l][i] != levels[m][j])
  }

  lemma LevelsOk(b: Book, l: nat)
    requires BookOk(b) && l < |b.requests| && (b.softZero ==> StartAt(b, l) <= b.max)
    ensures LevelOk(LevelAt(b, l))
    ensures b.softZero ==> StartAt(b, l + 1) <= b.max
    ensures !b.softZero ==> StartAt(b, l + 1) == StartAt(b, l) + LevelAt(b, l).workers
  {
    var ds := Demands(b.requests);
    forall k | 0 <= k < |ds| ensures ds[k] >= 0 {
      PrefixWithin(b.requests[k], 0);
      PrefixNonNegative(b.requests[k], |b.requests[k]|);
      assert b.requests[k][..|b.requests[k]|] == b.requests[k];
    }
    HigherLevelsFirst(ds, b.max);
    LevelEnd(LevelAt(b, l));
  }

  lemma {:induction false} PerLevelSuffix(demands: seq<int>, workers: int, l: nat, unassigned: int)
    requires l < |demands| && |PerLevel(demands, workers)| == |demands|
    requires PerLevel(demands, workers)[l..] == PerLevel(demands[l..], unassigned)
    ensures PerLevel(demands, workers)[l] == Min(demands[l], unassigned)
    ensures PerLevel(demands, workers)[l + 1..] == PerLevel(demands[l + 1..], unassigned - Min(demands[l], unassigned))
  {
    var got := PerLevel(demands, workers);
    assert demands[l..][0] == demands[l] && demands[l..][1..] == demands[l + 1..];
    assert got[l] == got[l..][0] && got[l + 1..] == got[l..][1..];
  }

  ghost function TopOf(b: Book, l: nat): nat
    requires l <= |b.requests|
  {
    if l == 0 then NO_LEVEL else TopAt(b.requests[l - 1], l - 1, TopOf(b, l - 1), |b.requests[l - 1]|)
  }

  /** Arena `i` of level `l` has what the book says, if it asks for workers. */
  ghost predicate Served(levels: seq<seq<Arena>>, b: Book, l: nat)
    requires BookOk(b) && l < |levels| == |b.requests| && |b.requests[l]| == |levels[l]|
    reads levels[l]
  {
    forall i :: 0 <= i < |levels[l]| && b.requests[l][i] != 0 ==>
      levels[l][i].allotted == Allotted(LevelAt(b, l), i) && levels[l][i].topPriority == (l == TopOf(b, l + 1))
  }

  /** An arena that asks for nothing has nothing, as the source asserts. */
  ghost predicate Idle(levels: seq<seq<Arena>>)
    reads All(levels)`requested, All(levels)`allotted
  {
    forall l, i :: 0 <= l < |levels| && 0 <= i < |levels[l]| && levels[l][i].requested == 0 ==> levels[l][i].allotted == 0
  }

  /** One turn of the loop over the levels: it touches the arenas of this level only. */
  method DealTurn(levels: seq<seq<Arena>>, ghost b: Book, l: nat, demand: int, perLevel: int, softZero: bool, max: int,
                  given: int, carry: int, top: nat)
    returns (given': int, carry': int, top': nat)
    requires l < |levels| == NO_LEVEL && Apart(levels) && BookOk(b) && b == BookOf(levels, softZero, max)
    requires LevelOk(LevelAt(b, l)) && demand == Sum(b.requests[l]) && perLevel == LevelAt(b, l).workers
    requires given == StartAt(b, l) && carry == 0 && top == TopOf(b, l)
    requires Idle(levels)
    modifies levels[l]`allotted, levels[l]`topPriority
    ensures Served(levels, b, l) && Idle(levels)
    ensures given' == StartAt(b, l + 1) && carry' == 0 && top' == TopOf(b, l + 1)
    ensures forall k :: 0 <= k < |levels| ==> Requests(levels[k]) == b.requests[k] && Modes(levels[k]) == b.modes[k]
    ensures forall k, i :: 0 <= k < |levels| && k != l && 0 <= i < |levels[k]| ==>
      levels[k][i].allotted == old(levels[k][i].allotted) && levels[k][i].topPriority == old(levels[k][i].topPriority)
  {
    hide Sum, GivenAt, Allotted, PerLevel, Demands, TopAt, Requests, Modes, RequestsOf, ModesOf, LevelOk;
    given', carry', top' := DealLevel(levels[l], LevelAt(b, l), l, demand, perLevel, softZero, max, given, carry, top);
  }

  /** The levels served before stay served. */
  method DealNext(levels: seq<seq<Arena>>, ghost b: Book, l: nat, demand: int, perLevel: int, softZero: bool, max: int,
                  given: int, carry: int, top: nat)
    returns (given': int, carry': int, top': nat)
    requires l < |levels| == NO_LEVEL && Apart(levels) && BookOk(b) && b == BookOf(levels, softZero, max)
    requires LevelOk(LevelAt(b, l)) && demand == Sum(b.requests[l]) && perLevel == LevelAt(b, l).workers
    requires given == StartAt(b, l) && carry == 0 && top == TopOf(b, l)
    requires Idle(levels) && forall k :: 0 <= k < l ==> Served(levels, b, k)
    modifies levels[l]`allotted, levels[l]`topPriority
    ensures b == BookOf(levels, softZero, max) && Idle(levels)
    ensures forall k :: 0 <= k < l + 1 ==> Served(levels, b, k)
    ensures given' == StartAt(b, l + 1) && carry' == 0 && top' == TopOf(b, l + 1)
  {
    hide Sum, Allotted, LevelAt, LevelOk, StartAt, TopOf, Requests, Modes, Apart, Idle;
    given', carry', top' := DealTurn(levels, b, l, demand, perLevel, softZero, max, given, carry, top);
    forall k | 0 <= k < l ensures Served(levels, b, k) {
      assert old(Served(levels, b, k));
    }
  }

  /** What the loop over the levels keeps, apart from the arenas. */
  ghost predicate Turn(b: Book, l: nat, given: int, unassigned: int) {
    && BookOk(b) && l <= |b.requests| && given == StartAt(b, l) && (b.softZero ==> given <= b.max)
    && var ds := Demands(b.requests);
      |PerLevel(ds, b.max)| == |ds| && PerLevel(ds, b.max)[l..] == PerLevel(ds[l..], unassigned)
  }

  lemma TurnStart(b: Book)
    requires BookOk(b)
    ensures Turn(b, 0, 0, b.max) && TopOf(b, 0) == NO_LEVEL
  {
    var ds := Demands(b.requests);
    PerLevelLength(ds, b.max);
    assert ds[0..] == ds && PerLevel(ds, b.max)[0..] == PerLevel(ds, b.max);
  }

  lemma TurnStep(b: Book, l: nat, given: int, unassigned: int)
    requires Turn(b, l, given, unassigned) && l < |b.requests|
    ensures LevelOk(LevelAt(b, l)) && LevelAt(b, l).workers == Min(Sum(b.requests[l]), unassigned)
    ensures Turn(b, l + 1, StartAt(b, l + 1), unassigned - Min(Sum(b.requests[l]), unassigned))
  {
    PerLevelSuffix(Demands(b.requests), b.max, l, unassigned);
    LevelsOk(b, l);
  }

  /** `update_allotment`. As the source asserts, there is some demand, and with a soft
      limit of 0 there is at most one worker to be had. */
  method Deal(levels: seq<seq<Arena>>, levelDemand: seq<int>, workersDemand: int, maxWorkers: int, softZero: bool)
    returns (given: int)
    requires |levels| == NO_LEVEL && Apart(levels) && workersDemand > 0 && maxWorkers >= 0
    requires BookOk(BookOf(levels, softZero, Min(workersDemand, maxWorkers)))
    requires levelDemand == Demands(BookOf(levels, softZero, Min(workersDemand, maxWorkers)).requests)
    requires (softZero ==> maxWorkers <= 1) && Idle(levels)
    modifies All(levels)`allotted, All(levels)`topPriority
    ensures Idle(levels)
    ensures var b := old(BookOf(levels, softZero, Min(workersDemand, maxWorkers)));
      && BookOf(levels, softZero, Min(workersDemand, maxWorkers)) == b
      && given == StartAt(b, NO_LEVEL)
      && forall l :: 0 <= l < |levels| ==> Served(levels, b, l)
  {
    hide Sum, LevelAt, LevelOk, StartAt, TopOf, Requests, Modes, Served, Turn, Idle;
    var max := Min(workersDemand, maxWorkers);
    ghost var b := BookOf(levels, softZero, max);
    TurnStart(b);
    var unassigned := max;
    var carry, top := 0, NO_LEVEL;
    given := 0;
    var l := 0;
    StartOfDeal(b);
    while l < NO_LEVEL
      invariant 0 <= l <= NO_LEVEL && carry == 0 && BookOf(levels, softZero, max) == b && Idle(levels)
      invariant Turn(b, l, given, unassigned) && given == StartAt(b, l) && top == TopOf(b, l)
      invariant forall k :: 0 <= k < l ==> Served(levels, b, k)
    {
      TurnStep(b, l, given, unassigned);
      var perLevel := Min(levelDemand[l], unassigned);
      unassigned := unassigned - perLevel;
      given, carry, top := DealNext(levels, b, l, levelDemand[l], perLevel, softZero, max, given, carry, top);
      l := l + 1;
    }
  }

  lemma StartOfDeal(b: Book)
    requires BookOk(b)
    ensures StartAt(b, 0) == 0
  {
  }

  // -------------------------------------------------------- main results

  lemma DemandsNotNegative(b: Book)
    requires BookOk(b)
    ensures NoneNegative(Demands(b.requests))
    ensures forall l, i :: 0 <= l < |b.requests| && 0 <= i < |b.requests[l]| ==>
      b.requests[l][i] <= Demands(b.requests)[l]
  {
    forall l | 0 <= l < |b.requests| ensures Sum(b.requests[l]) >= 0 {
      PrefixNonNegative(b.requests[l], |b.requests[l]|);
      assert b.requests[l][..|b.requests[l]|] == b.requests[l];
    }
    forall l, i | 0 <= l < |b.requests| && 0 <= i < |b.requests[l]| ensures b.requests[l][i] <= Sum(b.requests[l]) {
      PrefixWithin(b.requests[l], i);
    }
  }

  lemma {:induction false} StartIsBounded(b: Book, l: nat)
    requires BookOk(b) && l <= |b.requests|
    ensures b.softZero ==> StartAt(b, l) <= b.max
  {
    if l > 0 {
      StartIsBounded(b, l - 1);
      LevelsOk(b, l - 1);
    }
  }

  /** With a positive soft limit every arena that asks gets its proportion of the
      workers of its level, rounded down or up, and no more than it asked for. */
  lemma DealIsFair(b: Book, l: nat, i: nat)
    requires BookOk(b) && !b.softZero && l < |b.requests| && i < |b.requests[l]| && b.requests[l][i] != 0
    ensures var r, d, workers := b.requests[l][i], Sum(b.requests[l]), LevelAt(b, l).workers;
      var allotted := Allotted(LevelAt(b, l), i);
      && d > 0 && 0 <= workers <= d
      && r * workers / d <= allotted <= (r * workers + d - 1) / d
      && 0 <= allotted <= r
  {
    DemandsNotNegative(b);
    HigherLevelsFirst(Demands(b.requests), b.max);
    hide Sum, Share, PerLevel, Dealt, Total;
    FairShare(b.requests[l], LevelAt(b, l).workers, i);
  }

  /** A level gets workers only if every arena of every level before it has all it
      asked for. */
  lemma HigherArenasServed(b: Book, l: nat, h: nat, j: nat)
    requires BookOk(b) && !b.softZero && h < l < |b.requests| && LevelAt(b, l).workers > 0
    requires j < |b.requests[h]| && b.requests[h][j] != 0
    ensures Allotted(LevelAt(b, h), j) == b.requests[h][j]
  {
    DemandsNotNegative(b);
    HigherLevelsFirst(Demands(b.requests), b.max);
    hide Sum, Share, PerLevel, Dealt, Total;
    FullyServed(b.requests[h], j);
  }

  /** The workers allotted to the arenas of a level before position `i`. */
  function AllottedSum(v: Level, i: nat): int
    requires |v.modes| == |v.rs| && i <= |v.rs|
  {
    if i == 0 then 0 else AllottedSum(v, i - 1) + if v.rs[i - 1] != 0 then Allotted(v, i - 1) else 0
  }

  lemma {:induction false} AllottedSumIsGiven(v: Level, i: nat)
    requires LevelOk(v) && i <= |v.rs|
    ensures AllottedSum(v, i) == GivenAt(v, i) - v.given
  {
    if i == 0 {
      LevelStart(v);
    } else {
      AllottedSumIsGiven(v, i - 1);
      hide GivenAt, Allotted;
      if v.rs[i - 1] != 0 { DealtStep(v, i - 1); } else { SkippedStep(v, i - 1); }
    }
  }

  /** With a positive soft limit a level uses up all that is meant for it. */
  lemma LevelTakesItsPart(b: Book, l: nat)
    requires BookOk(b) && !b.softZero && l < |b.requests| == |PerLevel(Demands(b.requests), b.max)|
    ensures StartAt(b, l + 1) == StartAt(b, l) + PerLevel(Demands(b.requests), b.max)[l]
  {
    LevelsOk(b, l);
    LevelEnd(LevelAt(b, l));
    hide Sum, PerLevel, Demands, GivenAt, CarryAt, LevelOk, BookOk;
  }

  lemma TotalFrom(q: seq<int>, l: nat)
    requires l < |q|
    ensures Total(q[l..]) == q[l] + Total(q[l + 1..])
  {
    assert q[l..][1..] == q[l + 1..];
  }

  lemma {:induction false} StartIsTotal(b: Book, l: nat)
    requires BookOk(b) && !b.softZero && l <= |b.requests|
    requires |PerLevel(Demands(b.requests), b.max)| == |b.requests|
    ensures StartAt(b, l) + Total(PerLevel(Demands(b.requests), b.max)[l..]) == Total(PerLevel(Demands(b.requests), b.max))
  {
    hide StartAt, PerLevel, Total, Sum, Demands, BookOk;
    var got := PerLevel(Demands(b.requests), b.max);
    if l == 0 {
      StartOfDeal(b);
      assert got[0..] == got;
    } else {
      StartIsTotal(b, l - 1);
      LevelTakesItsPart(b, l - 1);
      TotalFrom(got, l - 1);
    }
  }

  /** The arenas of each level get together exactly what is meant for the level, and
      all together the lesser of what they ask for and what there is. */
  lemma AllIsDealtOut(b: Book)
    requires BookOk(b) && !b.softZero
    ensures forall l :: 0 <= l < |b.requests| ==>
      AllottedSum(LevelAt(b, l), |b.requests[l]|) == LevelAt(b, l).workers
    ensures StartAt(b, |b.requests|) == Min(Total(Demands(b.requests)), b.max)
  {
    var ds := Demands(b.requests);
    DemandsNotNegative(b);
    HigherLevelsFirst(ds, b.max);
    StartIsTotal(b, |b.requests|);
    assert PerLevel(ds, b.max)[|b.requests|..] == [];
    forall l | 0 <= l < |b.requests|
      ensures AllottedSum(LevelAt(b, l), |b.requests[l]|) == LevelAt(b, l).workers
    {
      LevelsOk(b, l);
      AllottedSumIsGiven(LevelAt(b, l), |b.requests[l]|);
    }
  }

  /** The arenas of the levels before `l` that ask for workers in global concurrency
      mode. */
  ghost function MandatoryBefore(b: Book, l: nat): nat
    requires BookOk(b) && l <= |b.requests|
  {
    if l == 0 then 0 else MandatoryBefore(b, l - 1) + Mandatory(LevelAt(b, l - 1), |b.requests[l - 1]|)
  }

  lemma {:induction false} StartIsMandatory(b: Book, l: nat)
    requires BookOk(b) && b.softZero && l <= |b.requests|
    ensures StartAt(b, l) == Min(MandatoryBefore(b, l), b.max)
  {
    if l > 0 { StartIsMandatory(b, l - 1); }
  }

  /** With a soft limit of 0 the one worker, if there is one, goes to the first arena
      that asks for workers in global concurrency mode, and nobody else gets any. */
  lemma FirstMandatoryWins(b: Book, l: nat, i: nat)
    requires BookOk(b) && b.softZero && b.max <= 1 && l < |b.requests| && i < |b.requests[l]|
    ensures Allotted(LevelAt(b, l), i) ==
      AsOne(b.modes[l][i] && b.max == 1 && MandatoryBefore(b, l) == 0 && Mandatory(LevelAt(b, l), i) == 0)
  {
    StartIsMandatory(b, l);
  }

  /** The level marked as top priority is the first one with a request. */
  lemma {:induction false} TopIsFirst(b: Book, l: nat)
    requires BookOk(b) && l <= |b.requests| <= NO_LEVEL
    ensures TopOf(b, l) == NO_LEVEL || TopOf(b, l) < l
    ensures TopOf(b, l) == NO_LEVEL <==>
      forall k, i :: 0 <= k < l && 0 <= i < |b.requests[k]| ==> b.requests[k][i] == 0
    ensures TopOf(b, l) < l ==>
      && (exists i :: 0 <= i < |b.requests[TopOf(b, l)]| && b.requests[TopOf(b, l)][i] != 0)
      && forall k, i :: 0 <= k < TopOf(b, l) && 0 <= i < |b.requests[k]| ==> b.requests[k][i] == 0
  {
    if l > 0 {
      TopIsFirst(b, l - 1);
      TopInLevel(b.requests[l - 1], l - 1, TopOf(b, l - 1), |b.requests[l - 1]|);
    }
  }

  lemma {:induction false} TopInLevel(rs: seq<int>, level: nat, top: nat, i: nat)
    requires i <= |rs| && level < NO_LEVEL
    ensures top != NO_LEVEL ==> TopAt(rs, level, top, i) == top
    ensures top == NO_LEVEL ==> TopAt(rs, level, top, i) == NO_LEVEL || TopAt(rs, level, top, i) == level
    ensures top == NO_LEVEL ==> (TopAt(rs, level, top, i) == NO_LEVEL <==> forall j :: 0 <= j < i ==> rs[j] == 0)
  {
    if i > 0 { TopInLevel(rs, level, top, i - 1); }
  }
}
