/** The grouping of the marked pixels of an image: a raster scan starts a breadth-first
    search over the eight neighbours from every pixel not yet processed, and each
    group of two pixels or more gives the corners of its bounding box. A pixel is
    live if its marker is above 1; processed pixels are set to 0. */
module FloodFill {
  import opened Common

  datatype Pixel = Pixel(x: int, y: int)

  datatype Box = Box(minX: int, minY: int, maxX: int, maxY: int)

  // ------------------------------------------------------ specification

  predicate Adjacent(p: Pixel, q: Pixel) {
    p != q && -1 <= q.x - p.x <= 1 && -1 <= q.y - p.y <= 1
  }

  ghost predicate IsPath(live: set<Pixel>, path: seq<Pixel>) {
    && path != []
    && (forall i :: 0 <= i < |path| ==> path[i] in live)
    && (forall i :: 0 <= i < |path| - 1 ==> Adjacent(path[i], path[i + 1]))
  }

  ghost predicate Joins(live: set<Pixel>, p: Pixel, q: Pixel, path: seq<Pixel>) {
    IsPath(live, path) && path[0] == p && path[|path| - 1] == q
  }

  ghost predicate Connected(live: set<Pixel>, p: Pixel, q: Pixel) {
    exists path :: Joins(live, p, q, path)
  }

  /** The live pixels connected with `p`. */
  ghost function Component(live: set<Pixel>, p: Pixel): set<Pixel> {
    set q | q in live && Connected(live, p, q)
  }

  predicate Inside(b: Box, p: Pixel) { b.minX <= p.x <= b.maxX && b.minY <= p.y <= b.maxY }

  /** The smallest box around the pixels. */
  ghost predicate IsBox(b: Box, s: set<Pixel>) {
    && (forall p :: p in s ==> Inside(b, p))
    && (exists p :: p in s && p.x == b.minX) && (exists p :: p in s && p.x == b.maxX)
    && (exists p :: p in s && p.y == b.minY) && (exists p :: p in s && p.y == b.maxY)
  }

  /** `p` comes before `q` in the raster scan. */
  predicate Before(p: Pixel, q: Pixel) { p.y < q.y || (p.y == q.y && p.x < q.x) }

  /** `p` is the first pixel of a component of at least two. */
  ghost predicate IsFirst(live: set<Pixel>, p: Pixel) {
    p in live && Component(live, p) != {p} && forall q :: q in Component(live, p) ==> !Before(q, p)
  }

  ghost function Live(m: array2<int>): (s: set<Pixel>)
    reads m
    ensures forall p :: p in s <==> 0 <= p.x < m.Length1 && 0 <= p.y < m.Length0 && m[p.y, p.x] > 1
  {
    set x, y | 0 <= x < m.Length1 && 0 <= y < m.Length0 && m[y, x] > 1 :: Pixel(x, y)
  }

  // -------------------------------------------------------- connectedness

  lemma SelfConnected(live: set<Pixel>, p: Pixel)
    requires p in live
    ensures Connected(live, p, p) && p in Component(live, p)
  {
    assert Joins(live, p, p, [p]);
  }

  lemma OneFurther(live: set<Pixel>, p: Pixel, q: Pixel, r: Pixel)
    requires Connected(live, p, q) && r in live && Adjacent(q, r)
    ensures Connected(live, p, r)
  {
    var path :| Joins(live, p, q, path);
    assert Joins(live, p, r, path + [r]);
  }

  ghost predicate Closed(live: set<Pixel>, s: set<Pixel>) {
    forall p, q :: p in s && q in live && Adjacent(p, q) ==> q in s
  }

  lemma {:induction false} StaysWithin(live: set<Pixel>, s: set<Pixel>, path: seq<Pixel>)
    requires Closed(live, s) && IsPath(live, path) && path[0] in s
    ensures forall i :: 0 <= i < |path| ==> path[i] in s
    decreases |path|
  {
    if |path| > 1 {
      assert Adjacent(path[0], path[1]);
      StaysWithin(live, s, path[1..]);
      assert forall i :: 1 <= i < |path| ==> path[i] == path[1..][i - 1];
    }
  }

  /** A closed set with `p` in it holds the whole component of `p`. */
  lemma ComponentWithin(live: set<Pixel>, s: set<Pixel>, p: Pixel)
    requires Closed(live, s) && p in s
    ensures Component(live, p) <= s
  {
    forall q | q in Component(live, p) ensures q in s {
      var path :| Joins(live, p, q, path);
      StaysWithin(live, s, path);
    }
  }

  /** Among the pixels of a closed subset the components are the same. */
  lemma SameComponent(live: set<Pixel>, s: set<Pixel>, p: Pixel)
    requires Closed(live, s) && s <= live && p in s
    ensures Component(s, p) == Component(live, p)
  {
    forall q | q in Component(live, p) ensures q in Component(s, p) {
      var path :| Joins(live, p, q, path);
      StaysWithin(live, s, path);
      assert Joins(s, p, q, path);
    }
    forall q | q in Component(s, p) ensures q in Component(live, p) {
      var path :| Joins(s, p, q, path);
      assert Joins(live, p, q, path);
    }
  }

  function Reversed(path: seq<Pixel>): (r: seq<Pixel>)
    ensures |r| == |path| && forall i :: 0 <= i < |r| ==> r[i] == path[|path| - 1 - i]
  {
    if path == [] then [] else Reversed(path[1..]) + [path[0]]
  }

  /** Pixels of one component have the same component. */
  lemma OneComponent(live: set<Pixel>, p: Pixel, q: Pixel)
    requires p in live && q in Component(live, p)
    ensures Component(live, q) == Component(live, p) && p in Component(live, q)
  {
    ComponentIsClosed(live, p);
    ComponentIsClosed(live, q);
    SelfConnected(live, q);
    var path :| Joins(live, p, q, path);
    assert Joins(live, q, p, Reversed(path));
    ComponentWithin(live, Component(live, p), q);
    ComponentWithin(live, Component(live, q), p);
  }

  lemma ComponentIsClosed(live: set<Pixel>, p: Pixel)
    ensures Closed(live, Component(live, p))
  {
    forall q, r | q in Component(live, p) && r in live && Adjacent(q, r) ensures r in Component(live, p) {
      OneFurther(live, p, q, r);
    }
  }

  // ----------------------------------------------------- the breadth-first search

  function Extend(b: Box, p: Pixel): Box {
    Box(if p.x < b.minX then p.x else b.minX, if p.y < b.minY then p.y else b.minY,
        if p.x > b.maxX then p.x else b.maxX, if p.y > b.maxY then p.y else b.maxY)
  }

  lemma ExtendIsBox(b: Box, s: set<Pixel>, p: Pixel)
    requires IsBox(b, s)
    ensures IsBox(Extend(b, p), s + {p})
  {
    var t := s + {p};
    var a :| a in s && a.x == b.minX;
    var c :| c in s && c.x == b.maxX;
    var d :| d in s && d.y == b.minY;
    var e :| e in s && e.y == b.maxY;
    assert a in t && c in t && d in t && e in t && p in t;
  }

  /** `q` is a neighbour of `p` that the two loops reach before the offset `(dx, dy)`. */
  predicate Seen(p: Pixel, q: Pixel, dx: int, dy: int) {
    Adjacent(p, q) && (q.y - p.y < dy || (q.y - p.y == dy && q.x - p.x < dx))
  }

  /** The markers as a map. */
  ghost function Grid(m: array2<int>): (g: map<Pixel, int>)
    reads m
    ensures forall p :: p in g <==> 0 <= p.x < m.Length1 && 0 <= p.y < m.Length0
    ensures forall p :: p in g ==> g[p] == m[p.y, p.x]
  {
    map p | p in (set x, y | 0 <= x < m.Length1 && 0 <= y < m.Length0 :: Pixel(x, y)) :: m[p.y, p.x]
  }

  /** The markers of `done` have become 0 and all others are what they were. */
  ghost predicate Kept(g: map<Pixel, int>, g': map<Pixel, int>, done: set<Pixel>) {
    g'.Keys == g.Keys && done <= g.Keys && forall p :: p in g ==> g'[p] == if p in done then 0 else g[p]
  }

  method Mark(m: array2<int>, q: Pixel)
    requires q in Live(m)
    modifies m
    ensures Live(m) == old(Live(m)) - {q} && Kept(old(Grid(m)), Grid(m), {q})
  {
    hide Live, Grid;
    m[q.y, q.x] := 0;
  }

  /** The neighbour at an offset is to be processed. */
  ghost predicate Hit(live: set<Pixel>, p: Pixel, dx: int, dy: int) {
    (dx != 0 || dy != 0) && Pixel(p.x + dx, p.y + dy) in live
  }

  /** Marks a neighbour that is live, extends the box and puts it into the queue. */
  method Visit(m: array2<int>, p: Pixel, dx: int, dy: int, queue: seq<Pixel>, box: Box, ghost s: set<Pixel>)
    returns (queue': seq<Pixel>, box': Box)
    requires IsBox(box, s)
    modifies m
    ensures var q := Pixel(p.x + dx, p.y + dy);
      if Hit(old(Live(m)), p, dx, dy) then
        && Live(m) == old(Live(m)) - {q} && queue' == queue + [q]
        && IsBox(box', s + {q}) && Kept(old(Grid(m)), Grid(m), {q})
      else
        queue' == queue && box' == box && Grid(m) == old(Grid(m)) && Live(m) == old(Live(m))
  {
    hide IsBox, Kept, Live, Grid;
    queue', box' := queue, box;
    var nx, ny := p.x + dx, p.y + dy;
    if dx == 0 && dy == 0 { return; }
    if nx < 0 || nx >= m.Length1 { return; }
    if ny < 0 || ny >= m.Length0 { return; }
    if m[ny, nx] <= 1 { return; }
    Mark(m, Pixel(nx, ny));
    box' := Extend(box, Pixel(nx, ny));
    ExtendIsBox(box, s, Pixel(nx, ny));
    queue' := queue + [Pixel(nx, ny)];
  }

  lemma KeptTwice(g: map<Pixel, int>, g': map<Pixel, int>, g'': map<Pixel, int>, a: set<Pixel>, b: set<Pixel>)
    requires Kept(g, g', a) && Kept(g', g'', b)
    ensures Kept(g, g'', a + b)
  {
  }

  /** How far the two loops over the neighbours of `p` have come: the neighbours before
      the offset that were live are marked, in the queue and in the box. */
  ghost predicate Expanding(g0: map<Pixel, int>, g: map<Pixel, int>, live0: set<Pixel>, live: set<Pixel>, p: Pixel,
                            added: seq<Pixel>, box: Box, s: set<Pixel>, dx: int, dy: int)
  {
    && (forall q :: q in live <==> q in live0 && !Seen(p, q, dx, dy))
    && (forall q :: q in added <==> q in live0 && Seen(p, q, dx, dy))
    && IsBox(box, s + (live0 - live)) && Kept(g0, g, live0 - live)
  }

  lemma ExpandStart(g: map<Pixel, int>, live: set<Pixel>, p: Pixel, box: Box, s: set<Pixel>)
    requires IsBox(box, s)
    ensures Expanding(g, g, live, live, p, [], box, s, -1, -1)
  {
    assert live - live == {} && s + {} == s;
  }

  lemma NextRow(g0: map<Pixel, int>, g: map<Pixel, int>, live0: set<Pixel>, live: set<Pixel>, p: Pixel,
                added: seq<Pixel>, box: Box, s: set<Pixel>, dy: int)
    requires Expanding(g0, g, live0, live, p, added, box, s, 2, dy)
    ensures Expanding(g0, g, live0, live, p, added, box, s, -1, dy + 1)
  {
    hide IsBox, Kept;
    assert forall q :: Seen(p, q, 2, dy) <==> Seen(p, q, -1, dy + 1);
  }

  lemma NextMiss(g0: map<Pixel, int>, g: map<Pixel, int>, live0: set<Pixel>, live: set<Pixel>, p: Pixel,
                 added: seq<Pixel>, box: Box, s: set<Pixel>, dx: int, dy: int)
    requires Expanding(g0, g, live0, live, p, added, box, s, dx, dy) && -1 <= dx <= 1 && -1 <= dy <= 1
    requires !Hit(live, p, dx, dy)
    ensures Expanding(g0, g, live0, live, p, added, box, s, dx + 1, dy)
  {
    hide IsBox, Kept;
    var r := Pixel(p.x + dx, p.y + dy);
    forall q ensures Seen(p, q, dx + 1, dy) <==> Seen(p, q, dx, dy) || (q == r && q != p) { assert q == Pixel(q.x, q.y); }
  }

  lemma NextHit(g0: map<Pixel, int>, g: map<Pixel, int>, live0: set<Pixel>, live: set<Pixel>, p: Pixel,
                added: seq<Pixel>, box: Box, s: set<Pixel>, dx: int, dy: int, g': map<Pixel, int>, box': Box)
    requires Expanding(g0, g, live0, live, p, added, box, s, dx, dy) && -1 <= dx <= 1 && -1 <= dy <= 1
    requires Hit(live, p, dx, dy)
    requires var r := Pixel(p.x + dx, p.y + dy); Kept(g, g', {r}) && IsBox(box', s + (live0 - live) + {r})
    ensures var r := Pixel(p.x + dx, p.y + dy);
      Expanding(g0, g', live0, live - {r}, p, added + [r], box', s, dx + 1, dy)
  {
    hide IsBox, Kept;
    var r := Pixel(p.x + dx, p.y + dy);
    forall q ensures Seen(p, q, dx + 1, dy) <==> Seen(p, q, dx, dy) || (q == r && q != p) { assert q == Pixel(q.x, q.y); }
    KeptTwice(g0, g, g', live0 - live, {r});
    assert live0 - (live - {r}) == live0 - live + {r};
    assert s + (live0 - live) + {r} == s + (live0 - (live - {r}));
  }

  /** The body of the queue loop after the pop: all live neighbours of `p` are marked,
      added to the queue and taken into the box. */
  method Expand(m: array2<int>, p: Pixel, queue: seq<Pixel>, box: Box, ghost s: set<Pixel>)
    returns (queue': seq<Pixel>, box': Box, ghost added: seq<Pixel>)
    requires IsBox(box, s)
    modifies m
    ensures queue' == queue + added
    ensures forall q :: q in added <==> q in old(Live(m)) && Adjacent(p, q)
    ensures forall q :: q in Live(m) <==> q in old(Live(m)) && !Adjacent(p, q)
    ensures var marked := old(Live(m)) - Live(m); IsBox(box', s + marked) && Kept(old(Grid(m)), Grid(m), marked)
  {
    hide IsBox, Kept, Live, Grid, Expanding, Hit;
    queue', box', added := queue, box, [];
    ghost var g0, live0 := Grid(m), Live(m);
    ExpandStart(g0, live0, p, box, s);
    var dy := -1;
    while dy <= 1
      invariant -1 <= dy <= 2 && queue' == queue + added
      invariant Expanding(g0, Grid(m), live0, Live(m), p, added, box', s, -1, dy)
    {
      var dx := -1;
      while dx <= 1
        invariant -1 <= dx <= 2 && queue' == queue + added
        invariant Expanding(g0, Grid(m), live0, Live(m), p, added, box', s, dx, dy)
      {
        ghost var g, live, boxed := Grid(m), Live(m), box';
        ExpandingBox(g0, g, live0, live, p, added, box', s, dx, dy);
        queue', box' := Visit(m, p, dx, dy, queue', box', s + (live0 - live));
        if Hit(live, p, dx, dy) {
          NextHit(g0, g, live0, live, p, added, boxed, s, dx, dy, Grid(m), box');
          added := added + [Pixel(p.x + dx, p.y + dy)];
        } else {
          NextMiss(g0, g, live0, live, p, added, boxed, s, dx, dy);
        }
        dx := dx + 1;
      }
      NextRow(g0, Grid(m), live0, Live(m), p, added, box', s, dy);
      dy := dy + 1;
    }
    AllSeen(g0, Grid(m), live0, Live(m), p, added, box', s);
  }

  lemma ExpandingBox(g0: map<Pixel, int>, g: map<Pixel, int>, live0: set<Pixel>, live: set<Pixel>, p: Pixel,
                     added: seq<Pixel>, box: Box, s: set<Pixel>, dx: int, dy: int)
    requires Expanding(g0, g, live0, live, p, added, box, s, dx, dy)
    ensures IsBox(box, s + (live0 - live))
  {
  }

  lemma AllSeen(g0: map<Pixel, int>, g: map<Pixel, int>, live0: set<Pixel>, live: set<Pixel>, p: Pixel,
                added: seq<Pixel>, box: Box, s: set<Pixel>)
    requires Expanding(g0, g, live0, live, p, added, box, s, -1, 2)
    ensures forall q :: q in added <==> q in live0 && Adjacent(p, q)
    ensures forall q :: q in live <==> q in live0 && !Adjacent(p, q)
    ensures IsBox(box, s + (live0 - live)) && Kept(g0, g, live0 - live)
  {
    hide IsBox, Kept;
    assert forall q :: Seen(p, q, -1, 2) <==> Adjacent(p, q);
  }

  /** What the queue loop keeps, with `live0` the live pixels at its start: marked
      pixels and the pixels in the queue belong to the component of `s`; of a pixel
      that was reached and has left the queue all neighbours are marked. */
  ghost predicate Flooding(live0: set<Pixel>, live: set<Pixel>, s: Pixel, queue: seq<Pixel>) {
    && live <= live0 && s in live0
    && live0 - live <= Component(live0, s)
    && (forall q :: q in queue ==> q == s || q in live0 - live)
    && (s in live || exists q :: q in live0 - live && q != s)
    && (forall p :: p == s || p in live0 - live ==> p in queue || NeighboursMarked(live0, live, p))
  }

  ghost predicate NeighboursMarked(live0: set<Pixel>, live: set<Pixel>, p: Pixel) {
    forall q :: q in live0 && Adjacent(p, q) ==> q !in live
  }

  lemma FloodStep(live0: set<Pixel>, live: set<Pixel>, live': set<Pixel>, s: Pixel, queue: seq<Pixel>, added: seq<Pixel>)
    requires Flooding(live0, live, s, queue) && queue != []
    requires forall q :: q in added <==> q in live && Adjacent(queue[0], q)
    requires forall q :: q in live' <==> q in live && !Adjacent(queue[0], q)
    ensures Flooding(live0, live', s, queue[1..] + added)
  {
    hide Component;
    var p := queue[0];
    assert p in queue;
    ReachedIsInComponent(live0, live, s, p);
    forall q | q in live0 - live' ensures q in Component(live0, s) {
      if q in live { NeighbourInComponent(live0, s, p, q); }
    }
    if s !in live' {
      var q := if s in live then p else var r :| r in live0 - live && r != s; r;
      assert q in live0 - live' && q != s;
    }
    forall q | q in queue[1..] + added ensures q == s || q in live0 - live' {
      if q in queue[1..] { assert q in queue; } else { assert q in added; }
    }
    forall q | q == s || q in live0 - live'
      ensures q in queue[1..] + added || NeighboursMarked(live0, live', q)
    {
      if q != s && q in live { assert q in added; }
      else if q != p && q in queue { assert queue == [p] + queue[1..]; }
    }
  }

  lemma ReachedIsInComponent(live0: set<Pixel>, live: set<Pixel>, s: Pixel, p: Pixel)
    requires s in live0 && live0 - live <= Component(live0, s) && (p == s || p in live0 - live)
    ensures p in Component(live0, s)
  {
    SelfConnected(live0, s);
  }

  lemma NeighbourInComponent(live0: set<Pixel>, s: Pixel, p: Pixel, q: Pixel)
    requires p in Component(live0, s) && q in live0 && Adjacent(p, q)
    ensures q in Component(live0, s)
  {
    OneFurther(live0, s, p, q);
  }

  /** With the queue empty, everything connected with `s` is marked; `s` itself too,
      unless it stands alone. */
  lemma Flooded(live0: set<Pixel>, live: set<Pixel>, s: Pixel)
    requires Flooding(live0, live, s, [])
    ensures Component(live0, s) == {s} + (live0 - live)
    ensures Component(live0, s) == {s} <==> live == live0
    ensures live != live0 ==> live0 - live == Component(live0, s)
  {
    var marked := live0 - live;
    assert forall p :: p == s || p in marked ==> NeighboursMarked(live0, live, p);
    ComponentWithin(live0, {s} + marked, s);
    SelfConnected(live0, s);
    assert live0 == live + marked;
    if live != live0 {
      assert marked != {};
      StartIsMarked(live0, live, s);
    }
  }

  lemma StartIsMarked(live0: set<Pixel>, live: set<Pixel>, s: Pixel)
    requires s in live0 && live0 - live != {} && live0 - live <= Component(live0, s)
    requires forall p :: p in live0 - live ==> NeighboursMarked(live0, live, p)
    ensures s !in live
  {
    var p :| p in live0 - live;
    OneComponent(live0, s, p);
    ComponentWithin(live0, live0 - live, p);
  }

  lemma BfsStart(g: map<Pixel, int>, live: set<Pixel>, s: Pixel)
    requires s in live
    ensures Flooding(live, live, s, [s]) && IsBox(Box(s.x, s.y, s.x, s.y), {s} + (live - live)) && Kept(g, g, live - live)
  {
    assert s in {s} + (live - live);
  }

  lemma PointBox(b: Box, t: set<Pixel>, s: Pixel)
    requires IsBox(b, t) && s in t
    ensures b == Box(s.x, s.y, s.x, s.y) <==> t == {s}
  {
    if b == Box(s.x, s.y, s.x, s.y) {
      forall p | p in t ensures p == s { assert Inside(b, p); }
    }
  }

  lemma KeptNothing(g: map<Pixel, int>, g': map<Pixel, int>)
    requires Kept(g, g', {})
    ensures g' == g
  {
  }

  lemma Fewer(a: set<Pixel>, b: set<Pixel>, q: Pixel)
    requires b <= a && q in a && q !in b
    ensures |b| < |a|
  {
    FewerOrEqual(a - {q}, b);
  }

  lemma {:induction false} FewerOrEqual(a: set<Pixel>, b: set<Pixel>)
    requires b <= a
    ensures |b| <= |a|
  {
    if b != {} {
      var q :| q in b;
      FewerOrEqual(a - {q}, b - {q});
    }
  }

  lemma MarkedSoFar(live0: set<Pixel>, live: set<Pixel>, live': set<Pixel>, s: set<Pixel>)
    requires live' <= live <= live0
    ensures live0 - live' == (live0 - live) + (live - live')
    ensures s + (live0 - live') == s + (live0 - live) + (live - live')
  {
  }

  /** The search from a live pixel. If the pixel stands alone there is no box and the
      markers are what they were; otherwise its whole component is set to 0 and the
      box is the smallest around it. */
  method Bfs(m: array2<int>, s: Pixel) returns (rect: Option<Box>)
    requires s in Live(m)
    modifies m
    ensures var live0 := old(Live(m)); var c := Component(live0, s);
      if c == {s} then rect == None && Grid(m) == old(Grid(m)) && Live(m) == live0
      else rect.Some? && IsBox(rect.value, c) && Live(m) == live0 - c && Kept(old(Grid(m)), Grid(m), c)
  {
    hide Live, Grid, IsBox, Kept, Component, Flooding;
    ghost var g0, live0 := Grid(m), Live(m);
    var box := Box(s.x, s.y, s.x, s.y);
    var queue := [s];
    BfsStart(g0, live0, s);
    while queue != []
      invariant Flooding(live0, Live(m), s, queue) && Live(m) <= live0
      invariant IsBox(box, {s} + (live0 - Live(m))) && Kept(g0, Grid(m), live0 - Live(m))
      decreases |Live(m)|, |queue|
    {
      var p := queue[0];
      ghost var live, g, was := Live(m), Grid(m), queue;
      ghost var added;
      queue, box, added := Expand(m, p, queue[1..], box, {s} + (live0 - live));
      FloodStep(live0, live, Live(m), s, was, added);
      KeptTwice(g0, g, Grid(m), live0 - live, live - Live(m));
      MarkedSoFar(live0, live, Live(m), {s});
      if added != [] { Fewer(live, Live(m), added[0]); } else { assert Live(m) == live; }
    }
    Flooded(live0, Live(m), s);
    ghost var marked := live0 - Live(m);
    PointBox(box, {s} + marked, s);
    if box.minX == s.x && box.minY == s.y && box.maxX == s.x && box.maxY == s.y {
      assert Component(live0, s) == {s} && marked == {};
      KeptNothing(g0, Grid(m));
      return None;
    }
    assert Component(live0, s) != {s};
    return Some(box);
  }

  // ------------------------------------------------------- the raster scan

  /** A component that the scan has not come to. */
  ghost predicate Ahead(live0: set<Pixel>, p: Pixel, pos: Pixel) {
    forall q :: q in Component(live0, p) ==> !Before(q, pos)
  }

  /** The scan has come to `pos`: the components with a pixel before it are processed,
      but for single pixels, and their boxes are listed in the order of their first
      pixels. */
  ghost predicate Scanned(live0: set<Pixel>, live: set<Pixel>, firsts: seq<Pixel>, segments: seq<Box>, pos: Pixel) {
    && live <= live0 && Closed(live0, live)
    && (forall p :: p in live0 ==> (p in live <==> Component(live0, p) == {p} || Ahead(live0, p, pos)))
    && |segments| == |firsts|
    && (forall i :: 0 <= i < |firsts| ==> IsBox(segments[i], Component(live0, firsts[i])))
    && (forall i, j :: 0 <= i < j < |firsts| ==> Before(firsts[i], firsts[j]))
    && (forall p :: p in firsts <==> IsFirst(live0, p) && Before(p, pos))
  }

  /** The position moves past `c`; for a component without `c` nothing changes. */
  lemma AheadStep(live0: set<Pixel>, p: Pixel, c: Pixel)
    ensures Ahead(live0, p, Pixel(c.x + 1, c.y)) <==> Ahead(live0, p, c) && c !in Component(live0, p)
  {
    forall q ensures Before(q, Pixel(c.x + 1, c.y)) <==> Before(q, c) || q == c { assert q == Pixel(q.x, q.y); }
  }

  lemma InComponentOf(live0: set<Pixel>, p: Pixel, c: Pixel)
    requires p in live0 && c in Component(live0, p)
    ensures Component(live0, p) == Component(live0, c) && p in Component(live0, c)
  {
    OneComponent(live0, p, c);
  }

  /** A pixel that is not live, or stands alone. */
  lemma PassOver(live0: set<Pixel>, live: set<Pixel>, firsts: seq<Pixel>, segments: seq<Box>, c: Pixel)
    requires Scanned(live0, live, firsts, segments, c)
    requires c !in live || Component(live0, c) == {c}
    ensures Scanned(live0, live, firsts, segments, Pixel(c.x + 1, c.y))
  {
    hide Component, IsBox, Closed;
    var pos := Pixel(c.x + 1, c.y);
    forall p | p in live0 ensures p in live <==> Component(live0, p) == {p} || Ahead(live0, p, pos) {
      AheadStep(live0, p, c);
      if c in Component(live0, p) {
        InLive(live0, p, c);
        InComponentOf(live0, p, c);
      }
    }
    forall p ensures p in firsts <==> IsFirst(live0, p) && Before(p, pos) {
      assert Before(p, pos) <==> Before(p, c) || p == c by { assert p == Pixel(p.x, p.y); }
    }
  }

  lemma InLive(live0: set<Pixel>, p: Pixel, c: Pixel)
    requires c in Component(live0, p)
    ensures c in live0
  {
  }

  /** The first pixel of a component of two or more: the search removes the component
      and gives its box. */
  lemma TakeIn(live0: set<Pixel>, live: set<Pixel>, firsts: seq<Pixel>, segments: seq<Box>, c: Pixel, b: Box)
    requires Scanned(live0, live, firsts, segments, c) && c in live && Component(live0, c) != {c}
    requires IsBox(b, Component(live0, c))
    ensures Scanned(live0, live - Component(live0, c), firsts + [c], segments + [b], Pixel(c.x + 1, c.y))
  {
    hide Component, IsBox;
    var pos, whole := Pixel(c.x + 1, c.y), Component(live0, c);
    var live' := live - whole;
    ComponentIsClosed(live0, c);
    SelfConnected(live0, c);
    assert Closed(live0, live') by {
      forall p, q | p in live' && q in live0 && Adjacent(p, q) ensures q in live' { assert Adjacent(q, p); }
    }
    forall p | p in live0 ensures p in live' <==> Component(live0, p) == {p} || Ahead(live0, p, pos) {
      AheadStep(live0, p, c);
      SelfConnected(live0, p);
      if c in Component(live0, p) { InComponentOf(live0, p, c); }
      if p in whole { InComponentOf(live0, c, p); }
    }
    forall p ensures p in firsts + [c] <==> IsFirst(live0, p) && Before(p, pos) {
      assert Before(p, pos) <==> Before(p, c) || p == c by { assert p == Pixel(p.x, p.y); }
    }
    forall i | 0 <= i < |firsts| ensures Before(firsts[i], c) { assert firsts[i] in firsts; }
  }

  /** The end of a row is the start of the next one. */
  lemma NewRow(live0: set<Pixel>, live: set<Pixel>, firsts: seq<Pixel>, segments: seq<Box>, w: int, y: int)
    requires Scanned(live0, live, firsts, segments, Pixel(w, y)) && forall p :: p in live0 ==> 0 <= p.x < w
    ensures Scanned(live0, live, firsts, segments, Pixel(0, y + 1))
  {
    hide IsBox, Closed;
    var a, b := Pixel(w, y), Pixel(0, y + 1);
    assert forall q :: q in live0 ==> (Before(q, a) <==> Before(q, b));
    assert forall p :: Ahead(live0, p, a) <==> Ahead(live0, p, b);
  }

  lemma ScanStart(live0: set<Pixel>)
    requires forall p :: p in live0 ==> 0 <= p.x && 0 <= p.y
    ensures Scanned(live0, live0, [], [], Pixel(0, 0))
  {
    assert forall q :: q in live0 ==> !Before(q, Pixel(0, 0));
    forall p ensures Ahead(live0, p, Pixel(0, 0)) {}
  }

  lemma ScanEnd(live0: set<Pixel>, live: set<Pixel>, firsts: seq<Pixel>, segments: seq<Box>, h: int)
    requires Scanned(live0, live, firsts, segments, Pixel(0, h)) && forall p :: p in live0 ==> 0 <= p.y < h
    ensures forall p :: p in firsts <==> IsFirst(live0, p)
    ensures forall p :: p in live <==> p in live0 && Component(live0, p) == {p}
  {
    hide Component, IsBox, Closed;
    assert forall q :: q in live0 ==> Before(q, Pixel(0, h));
    forall p | p in live0 ensures !Ahead(live0, p, Pixel(0, h)) { SelfConnected(live0, p); }
  }

  /** The grouping of the pixels. `firsts` are, in raster order, the first pixels of the
      components of two pixels or more, and the boxes are the smallest around these
      components. All their pixels end as 0, and everything else is what it was, so
      that the only live pixels left are those that stand alone. */
  method SplitSegments(m: array2<int>) returns (segments: seq<Box>, ghost firsts: seq<Pixel>)
    modifies m
    ensures var live0 := old(Live(m));
      && |segments| == |firsts|
      && (forall i :: 0 <= i < |firsts| ==> IsBox(segments[i], Component(live0, firsts[i])))
      && (forall i, j :: 0 <= i < j < |firsts| ==> Before(firsts[i], firsts[j]))
      && (forall p :: p in firsts <==> IsFirst(live0, p))
      && (forall p :: p in Live(m) <==> p in live0 && Component(live0, p) == {p})
      && Kept(old(Grid(m)), Grid(m), live0 - Live(m))
  {
    hide Live, Grid, IsBox, Kept, Component, Scanned;
    ghost var g0, live0 := Grid(m), Live(m);
    segments, firsts := [], [];
    ScanStart(live0);
    assert Kept(g0, g0, live0 - live0) by { SameGrid(g0, live0); }
    var y := 0;
    while y < m.Length0
      invariant 0 <= y <= m.Length0 && Live(m) <= live0
      invariant Scanned(live0, Live(m), firsts, segments, Pixel(0, y)) && Kept(g0, Grid(m), live0 - Live(m))
    {
      var x := 0;
      while x < m.Length1
        invariant 0 <= x <= m.Length1 && Live(m) <= live0
        invariant Scanned(live0, Live(m), firsts, segments, Pixel(x, y)) && Kept(g0, Grid(m), live0 - Live(m))
      {
        ghost var c, live, g := Pixel(x, y), Live(m), Grid(m);
        if m[y, x] <= 1 {
          PassOver(live0, live, firsts, segments, c);
        } else {
          ScannedComponent(live0, live, firsts, segments, c);
          var rect := Bfs(m, Pixel(x, y));
          if rect.Some? {
            TakeIn(live0, live, firsts, segments, c, rect.value);
            segments := segments + [rect.value];
            firsts := firsts + [c];
            KeptTwice(g0, g, Grid(m), live0 - live, Component(live0, c));
            assert live0 - Live(m) == (live0 - live) + Component(live0, c) by { PartOfLive(live0, live, c); }
          } else {
            PassOver(live0, live, firsts, segments, c);
          }
        }
        x := x + 1;
      }
      NewRow(live0, Live(m), firsts, segments, m.Length1, y);
      y := y + 1;
    }
    ScanEnd(live0, Live(m), firsts, segments, m.Length0);
    ScanLists(live0, Live(m), firsts, segments, Pixel(0, y));
  }

  lemma SameGrid(g: map<Pixel, int>, live: set<Pixel>)
    ensures Kept(g, g, live - live)
  {
  }

  lemma ScannedComponent(live0: set<Pixel>, live: set<Pixel>, firsts: seq<Pixel>, segments: seq<Box>, c: Pixel)
    requires Scanned(live0, live, firsts, segments, c) && c in live
    ensures Component(live, c) == Component(live0, c)
  {
    SameComponent(live0, live, c);
  }

  lemma PartOfLive(live0: set<Pixel>, live: set<Pixel>, c: Pixel)
    requires live <= live0
    ensures live0 - (live - Component(live0, c)) == (live0 - live) + Component(live0, c)
  {
  }

  lemma ScanLists(live0: set<Pixel>, live: set<Pixel>, firsts: seq<Pixel>, segments: seq<Box>, pos: Pixel)
    requires Scanned(live0, live, firsts, segments, pos)
    ensures |segments| == |firsts| && live <= live0
    ensures forall i :: 0 <= i < |firsts| ==> IsBox(segments[i], Component(live0, firsts[i]))
    ensures forall i, j :: 0 <= i < j < |firsts| ==> Before(firsts[i], firsts[j])
  {
    hide IsBox, Component;
  }

  // ------------------------------------------- one entry for each component

  lemma {:induction false} FirstOf(s: set<Pixel>) returns (f: Pixel)
    requires s != {}
    ensures f in s && forall q :: q in s ==> !Before(q, f)
    decreases |s|
  {
    var p :| p in s;
    if s == {p} {
      f := p;
    } else {
      assert s - {p} != {} by { assert s == (s - {p}) + {p}; }
      var f' := FirstOf(s - {p});
      f := if Before(p, f') then p else f';
      forall q | q in s ensures !Before(q, f) { if q != p { assert q in s - {p}; } }
    }
  }

  /** Every component of two pixels or more has exactly one first pixel, so it is listed
      exactly once. */
  lemma OneEntryPerComponent(live: set<Pixel>, p: Pixel) returns (f: Pixel)
    requires p in live && Component(live, p) != {p}
    ensures IsFirst(live, f) && f in Component(live, p) && Component(live, f) == Component(live, p)
    ensures forall g :: IsFirst(live, g) && g in Component(live, p) ==> g == f
  {
    SelfConnected(live, p);
    f := FirstOf(Component(live, p));
    OneComponent(live, p, f);
    forall g | IsFirst(live, g) && g in Component(live, p) ensures g == f {
      OneComponent(live, p, g);
      assert !Before(f, g) && !Before(g, f);
    }
  }
}
