/** The mailbox of a thread: a linked queue that any number of producers append
    to with an exchange of `my_last` followed by the store of a link, and that
    its owner alone takes from, possibly from the middle. One event is one load,
    store, exchange or compare-exchange. */
module Mailbox {
  import opened Common

  type Proxy = nat
  type Isolation = nat

  const NO_ISOLATION: Isolation := 0

  /** The places that hold a link: `my_first`, or `next_in_mailbox` of a proxy. */
  datatype Addr = First | Next(p: Proxy)

  /** Where the push of a proxy stands; `link` is the place it got from the exchange. */
  datatype Push = Exchange | PutLink(link: Addr)

  /** Where `internal_pop` stands. `k` is the position of `curr` in the queue,
      kept only to state the invariant. */
  datatype Pop =
    | Idle
    | LoadFirst(iso: Isolation)
    | Walk(iso: Isolation, prev: Addr, curr: Proxy, k: nat)
    | LoadSecond(iso: Isolation, prev: Addr, curr: Proxy, k: nat)
    | PutSecond(iso: Isolation, prev: Addr, curr: Proxy, second: Proxy, k: nat)
    | PutNull(iso: Isolation, prev: Addr, curr: Proxy, k: nat)
    | CasLast(iso: Isolation, prev: Addr, curr: Proxy, k: nat)
    | AwaitSecond(iso: Isolation, prev: Addr, curr: Proxy, k: nat)
    | Relink(iso: Isolation, prev: Addr, curr: Proxy, second: Proxy, k: nat)

  /** `link` lists the links that are not null. `exchanged` is the order of the
      exchanges, `received` that of the pops, and `queue` what is between. */
  datatype State = State(
    link: map<Addr, Proxy>, last: Addr, pushes: map<Proxy, Push>, pop: Pop,
    exchanged: seq<Proxy>, received: seq<Proxy>, queue: seq<Proxy>)

  datatype Event =
    | BeginPush(p: Proxy)
    | PushStep(p: Proxy)
    | BeginPop(iso: Isolation)
    | PopStep

  const Init := State(map[], First, map[], Idle, [], [], [])

  function RemoveAt(q: seq<Proxy>, k: nat): seq<Proxy> {
    if k < |q| then q[..k] + q[k + 1..] else q
  }

  /** `curr` leaves the queue and is handed to the caller. */
  function Deliver(s: State, curr: Proxy, k: nat): State {
    s.(pop := Idle, received := s.received + [curr], queue := RemoveAt(s.queue, k))
  }

  function StepPush(s: State, p: Proxy): State
    requires p in s.pushes
  {
    match s.pushes[p]
    case Exchange =>
      s.(last := Next(p), pushes := s.pushes[p := PutLink(s.last)],
         exchanged := s.exchanged + [p], queue := s.queue + [p])
    case PutLink(a) => s.(link := s.link[a := p], pushes := s.pushes - {p})
  }

  function StepPop(tag: Proxy -> Isolation, s: State): State {
    match s.pop
    case Idle => s
    case LoadFirst(iso) =>
      if First !in s.link then s.(pop := Idle)
      else if iso == NO_ISOLATION then s.(pop := LoadSecond(iso, First, s.link[First], 0))
      else s.(pop := Walk(iso, First, s.link[First], 0))
    case Walk(iso, prev, curr, k) =>
      if tag(curr) == iso then s.(pop := LoadSecond(iso, prev, curr, k))
      else if Next(curr) !in s.link then s.(pop := Idle)
      else s.(pop := Walk(iso, Next(curr), s.link[Next(curr)], k + 1))
    case LoadSecond(iso, prev, curr, k) =>
      if Next(curr) in s.link then s.(pop := PutSecond(iso, prev, curr, s.link[Next(curr)], k))
      else s.(pop := PutNull(iso, prev, curr, k))
    case PutSecond(iso, prev, curr, second, k) => Deliver(s.(link := s.link[prev := second]), curr, k)
    case PutNull(iso, prev, curr, k) => s.(link := s.link - {prev}, pop := CasLast(iso, prev, curr, k))
    case CasLast(iso, prev, curr, k) =>
      if s.last == Next(curr) then Deliver(s.(last := prev), curr, k)
      else s.(pop := AwaitSecond(iso, prev, curr, k))
    case AwaitSecond(iso, prev, curr, k) =>
      if Next(curr) in s.link then s.(pop := Relink(iso, prev, curr, s.link[Next(curr)], k)) else s
    case Relink(iso, prev, curr, second, k) => Deliver(s.(link := s.link[prev := second]), curr, k)
  }

  /** Every push is of a new proxy; its own link is nulled before it is shared. */
  predicate Enabled(s: State, e: Event) {
    match e
    case BeginPush(p) => p !in s.pushes && p !in s.exchanged
    case PushStep(p) => p in s.pushes
    case BeginPop(_) => s.pop == Idle
    case PopStep => s.pop != Idle
  }

  function Step(tag: Proxy -> Isolation, s: State, e: Event): State
    requires Enabled(s, e)
  {
    match e
    case BeginPush(p) => s.(link := s.link - {Next(p)}, pushes := s.pushes[p := Exchange])
    case PushStep(p) => StepPush(s, p)
    case BeginPop(iso) => s.(pop := LoadFirst(iso))
    case PopStep => StepPop(tag, s)
  }

  predicate CanRun(tag: Proxy -> Isolation, s: State, es: seq<Event>)
    decreases |es|
  {
    es == [] || (Enabled(s, es[0]) && CanRun(tag, Step(tag, s, es[0]), es[1..]))
  }

  function Run(tag: Proxy -> Isolation, s: State, es: seq<Event>): State
    requires CanRun(tag, s, es)
    decreases |es|
  {
    if es == [] then s else Run(tag, Step(tag, s, es[0]), es[1..])
  }

  // ------------------------------------------------------------ invariant

  /** The place whose link leads to position `i` of the queue. */
  function Place(q: seq<Proxy>, i: nat): Addr
    requires i <= |q|
  {
    if i == 0 then First else Next(q[i - 1])
  }

  /** The owner has nulled the link to `curr` but not taken it off the queue yet. */
  predicate Detached(pop: Pop) { pop.CasLast? || pop.AwaitSecond? || pop.Relink? }

  predicate HasCurr(pop: Pop) { !pop.Idle? && !pop.LoadFirst? }

  function Hole(pop: Pop): int { if Detached(pop) then pop.k else -1 }

  /** How position `i` is linked: by a producer that has still to store the link,
      by nobody while the owner takes it out, or by its link. */
  predicate LinkedAt(link: map<Addr, Proxy>, pushes: map<Proxy, Push>, q: seq<Proxy>, hole: int, i: nat)
    requires i < |q|
  {
    var a, p := Place(q, i), q[i];
    if p in pushes then pushes[p] == PutLink(a) && a !in link
    else if hole == i then a !in link
    else a in link && link[a] == p
  }

  predicate PopInv(tag: Proxy -> Isolation, s: State) {
    HasCurr(s.pop) ==>
      var pop := s.pop;
      && pop.k < |s.queue| && s.queue[pop.k] == pop.curr && pop.prev == Place(s.queue, pop.k)
      && pop.curr !in s.pushes
      && (if pop.iso == NO_ISOLATION then pop.k == 0 && !pop.Walk?
          else (forall j :: 0 <= j < pop.k ==> tag(s.queue[j]) != pop.iso) && (pop.Walk? || tag(pop.curr) == pop.iso))
      && (pop.PutSecond? || pop.Relink? ==>
            pop.k + 1 < |s.queue| && s.queue[pop.k + 1] == pop.second && pop.second !in s.pushes)
      && (pop.AwaitSecond? || pop.Relink? ==> pop.k + 1 < |s.queue|)
  }

  ghost predicate Chain(link: map<Addr, Proxy>, pushes: map<Proxy, Push>, q: seq<Proxy>, last: Addr, hole: int) {
    && (forall i :: 0 <= i < |q| ==> LinkedAt(link, pushes, q, hole, i))
    && last == Place(q, |q|) && last !in link
  }

  ghost predicate Pushing(s: State) {
    && Distinct(s.queue)
    && (forall p :: p in s.queue ==> p in s.exchanged)
    && (forall p :: p in s.pushes ==>
          if s.pushes[p] == Exchange then p !in s.exchanged && Next(p) !in s.link else p in s.queue)
  }

  ghost predicate Inv(tag: Proxy -> Isolation, s: State) {
    Pushing(s) && Chain(s.link, s.pushes, s.queue, s.last, Hole(s.pop)) && PopInv(tag, s)
  }

  lemma InitInv(tag: Proxy -> Isolation)
    ensures Inv(tag, Init)
  {
  }

  // -------------------------------------------------- steps on the chain

  lemma PlacesDiffer(q: seq<Proxy>, i: nat, j: nat)
    requires Distinct(q) && i <= |q| && j <= |q| && i != j
    ensures Place(q, i) != Place(q, j)
  {
  }

  /** A link that is there leads to the next position of the queue. */
  lemma LinkLeadsOn(link: map<Addr, Proxy>, pushes: map<Proxy, Push>, q: seq<Proxy>, last: Addr, hole: int, i: nat)
    requires Chain(link, pushes, q, last, hole) && i <= |q| && Place(q, i) in link
    ensures i < |q| && link[Place(q, i)] == q[i] && q[i] !in pushes && i != hole
  {
    if i < |q| { assert LinkedAt(link, pushes, q, hole, i); }
  }

  /** The exchange puts the proxy at the end of the queue, where its own link
      will be the next place to fill. */
  lemma ChainExchange(link: map<Addr, Proxy>, pushes: map<Proxy, Push>, q: seq<Proxy>, last: Addr, hole: int, p: Proxy)
    requires Chain(link, pushes, q, last, hole) && hole < |q|
    requires p !in q && Next(p) !in link
    ensures Chain(link, pushes[p := PutLink(last)], q + [p], Next(p), hole)
  {
    var pushes', q' := pushes[p := PutLink(last)], q + [p];
    forall i | 0 <= i < |q'| ensures LinkedAt(link, pushes', q', hole, i) {
      assert Place(q', i) == Place(q, i);
      if i < |q| { assert LinkedAt(link, pushes, q, hole, i); }
    }
  }

  /** The store of the link makes the proxy reachable from the one before it. */
  lemma ChainPutLink(link: map<Addr, Proxy>, pushes: map<Proxy, Push>, q: seq<Proxy>, last: Addr, hole: int, i: nat)
    requires Distinct(q) && Chain(link, pushes, q, last, hole) && i < |q| && i != hole && q[i] in pushes
    ensures pushes[q[i]] == PutLink(Place(q, i))
    ensures Chain(link[Place(q, i) := q[i]], pushes - {q[i]}, q, last, hole)
  {
    var link', pushes' := link[Place(q, i) := q[i]], pushes - {q[i]};
    assert LinkedAt(link, pushes, q, hole, i);
    PlacesDiffer(q, i, |q|);
    forall j | 0 <= j < |q| ensures LinkedAt(link', pushes', q, hole, j) {
      assert LinkedAt(link, pushes, q, hole, j);
      if j != i { PlacesDiffer(q, i, j); }
    }
  }

  lemma ChainBegin(link: map<Addr, Proxy>, pushes: map<Proxy, Push>, q: seq<Proxy>, last: Addr, hole: int, p: Proxy)
    requires Chain(link, pushes, q, last, hole) && p !in q
    ensures Chain(link - {Next(p)}, pushes[p := Exchange], q, last, hole)
  {
    var link', pushes' := link - {Next(p)}, pushes[p := Exchange];
    forall i | 0 <= i < |q| ensures LinkedAt(link', pushes', q, hole, i) {
      assert LinkedAt(link, pushes, q, hole, i);
      assert q[i] in q && (i > 0 ==> q[i - 1] in q);
    }
  }

  lemma ChainNull(link: map<Addr, Proxy>, pushes: map<Proxy, Push>, q: seq<Proxy>, last: Addr, k: nat)
    requires Distinct(q) && Chain(link, pushes, q, last, -1) && k < |q| && q[k] !in pushes
    ensures Chain(link - {Place(q, k)}, pushes, q, last, k)
  {
    var link' := link - {Place(q, k)};
    forall j | 0 <= j < |q| ensures LinkedAt(link', pushes, q, k, j) {
      assert LinkedAt(link, pushes, q, -1, j);
      if j != k { PlacesDiffer(q, k, j); }
    }
  }

  /** Linking the predecessor to the successor takes `q[k]` out. */
  lemma ChainBypass(link: map<Addr, Proxy>, pushes: map<Proxy, Push>, q: seq<Proxy>, last: Addr, hole: int, k: nat)
    requires Distinct(q) && Chain(link, pushes, q, last, hole) && k + 1 < |q| && (hole == -1 || hole == k)
    requires q[k] !in pushes && q[k + 1] !in pushes
    ensures Chain(link[Place(q, k) := q[k + 1]], pushes, RemoveAt(q, k), last, -1)
  {
    var link', q' := link[Place(q, k) := q[k + 1]], RemoveAt(q, k);
    PlacesDiffer(q, k, |q|);
    forall j | 0 <= j < |q'| ensures LinkedAt(link', pushes, q', -1, j) {
      var i := if j < k then j else j + 1;
      assert LinkedAt(link, pushes, q, hole, i) && q'[j] == q[i];
      if j != k {
        PlacesDiffer(q, k, i);
        assert Place(q', j) == Place(q, i);
      }
    }
  }

  /** Moving `my_last` back takes the last one out. */
  lemma ChainCutLast(link: map<Addr, Proxy>, pushes: map<Proxy, Push>, q: seq<Proxy>, last: Addr, k: nat)
    requires Distinct(q) && Chain(link, pushes, q, last, k) && k < |q| && q[k] !in pushes
    requires last == Next(q[k])
    ensures k == |q| - 1 && Chain(link, pushes, RemoveAt(q, k), Place(q, k), -1)
  {
    var q' := RemoveAt(q, k);
    forall j | 0 <= j < |q'| ensures LinkedAt(link, pushes, q', -1, j) {
      assert LinkedAt(link, pushes, q, k, j) && Place(q', j) == Place(q, j);
    }
    assert LinkedAt(link, pushes, q, k, k);
  }

  lemma RemoveAtKeeps(q: seq<Proxy>, k: nat)
    requires Distinct(q) && k < |q|
    ensures Distinct(RemoveAt(q, k))
    ensures forall p :: p in RemoveAt(q, k) <==> p in q && p != q[k]
  {
    var q' := RemoveAt(q, k);
    forall p ensures p in q' <==> p in q && p != q[k] {
      if p in q && p != q[k] {
        var i :| 0 <= i < |q| && q[i] == p;
        assert q'[if i < k then i else i - 1] == p;
      }
    }
  }

  // ------------------------------------------------------------ all steps

  lemma PushStepInv(tag: Proxy -> Isolation, s: State, p: Proxy)
    requires Inv(tag, s) && p in s.pushes
    ensures Inv(tag, StepPush(s, p))
  {
    hide Chain;
    if s.pushes[p] == Exchange {
      assert p !in s.queue;
      ChainExchange(s.link, s.pushes, s.queue, s.last, Hole(s.pop), p);
    } else {
      var i :| 0 <= i < |s.queue| && s.queue[i] == p;
      ChainPutLink(s.link, s.pushes, s.queue, s.last, Hole(s.pop), i);
      assert i > 0 ==> s.queue[i - 1] in s.queue;
    }
  }

  lemma BeginPushInv(tag: Proxy -> Isolation, s: State, p: Proxy)
    requires Inv(tag, s) && Enabled(s, BeginPush(p))
    ensures Inv(tag, Step(tag, s, BeginPush(p)))
  {
    hide Chain;
    ChainBegin(s.link, s.pushes, s.queue, s.last, Hole(s.pop), p);
    assert HasCurr(s.pop) ==> s.pop.curr in s.queue;
    assert s.pop.PutSecond? || s.pop.Relink? ==> s.pop.second in s.queue;
  }

  lemma PopWalks(tag: Proxy -> Isolation, s: State)
    requires Inv(tag, s) && (s.pop.LoadFirst? || s.pop.Walk?)
    ensures Inv(tag, StepPop(tag, s))
  {
    hide Chain;
    var next := if s.pop.LoadFirst? then 0 else s.pop.k + 1;
    if Place(s.queue, next) in s.link {
      LinkLeadsOn(s.link, s.pushes, s.queue, s.last, Hole(s.pop), next);
    }
  }

  lemma PopLooksAhead(tag: Proxy -> Isolation, s: State)
    requires Inv(tag, s) && (s.pop.LoadSecond? || s.pop.AwaitSecond?)
    ensures Inv(tag, StepPop(tag, s))
  {
    hide Chain;
    if Place(s.queue, s.pop.k + 1) in s.link {
      LinkLeadsOn(s.link, s.pushes, s.queue, s.last, Hole(s.pop), s.pop.k + 1);
    }
  }

  lemma PutNullInv(tag: Proxy -> Isolation, s: State)
    requires Inv(tag, s) && s.pop.PutNull?
    ensures Inv(tag, StepPop(tag, s))
  {
    hide Chain;
    ChainNull(s.link, s.pushes, s.queue, s.last, s.pop.k);
  }

  lemma BypassInv(tag: Proxy -> Isolation, s: State)
    requires Inv(tag, s) && (s.pop.PutSecond? || s.pop.Relink?)
    ensures Inv(tag, StepPop(tag, s))
  {
    hide Chain, RemoveAt;
    ChainBypass(s.link, s.pushes, s.queue, s.last, Hole(s.pop), s.pop.k);
    RemoveAtKeeps(s.queue, s.pop.k);
    BypassedPlaceIsOld(s);
  }

  /** The place written is not the link of a proxy that is only being pushed. */
  lemma BypassedPlaceIsOld(s: State)
    requires Pushing(s) && HasCurr(s.pop) && s.pop.k < |s.queue| && s.pop.prev == Place(s.queue, s.pop.k)
    ensures forall p :: p in s.pushes && s.pushes[p] == Exchange ==> s.pop.prev != Next(p)
  {
    assert s.pop.k > 0 ==> s.queue[s.pop.k - 1] in s.queue;
  }

  lemma CasLastInv(tag: Proxy -> Isolation, s: State)
    requires Inv(tag, s) && s.pop.CasLast?
    ensures Inv(tag, StepPop(tag, s))
  {
    hide RemoveAt, LinkedAt;
    if s.last == Next(s.pop.curr) {
      ChainCutLast(s.link, s.pushes, s.queue, s.last, s.pop.k);
      RemoveAtKeeps(s.queue, s.pop.k);
    }
  }

  lemma StepInv(tag: Proxy -> Isolation, s: State, e: Event)
    requires Inv(tag, s) && Enabled(s, e)
    ensures Inv(tag, Step(tag, s, e))
  {
    hide Chain, StepPop, StepPush;
    match e
    case BeginPush(p) => BeginPushInv(tag, s, p);
    case PushStep(p) => PushStepInv(tag, s, p);
    case BeginPop(_) =>
    case PopStep =>
      hide Inv;
      if s.pop.PutNull? { PutNullInv(tag, s); }
      else if s.pop.PutSecond? || s.pop.Relink? { BypassInv(tag, s); }
      else if s.pop.CasLast? { CasLastInv(tag, s); }
      else if s.pop.LoadFirst? || s.pop.Walk? { PopWalks(tag, s); }
      else { PopLooksAhead(tag, s); }
  }

  // -------------------------------------------------------------- history

  /** What is left of `ex`, in order, when the proxies of `got` are gone. */
  function Left(ex: seq<Proxy>, got: set<Proxy>): (q: seq<Proxy>)
    ensures forall p :: p in q <==> p in ex && p !in got
  {
    if ex == [] then []
    else
      var n := |ex| - 1;
      Left(ex[..n], got) + (if ex[n] in got then [] else [ex[n]])
  }

  function ToSet(q: seq<Proxy>): set<Proxy> { set p | p in q }

  lemma {:induction false} LeftGone(ex: seq<Proxy>, got: set<Proxy>, c: Proxy)
    requires c !in ex
    ensures Left(ex, got + {c}) == Left(ex, got)
  {
    if ex != [] {
      var n := |ex| - 1;
      assert ex[n] in ex;
      LeftGone(ex[..n], got, c);
    }
  }

  /** Receiving the proxy at position `k` removes exactly that position. */
  lemma {:induction false} LeftRemoves(ex: seq<Proxy>, got: set<Proxy>, k: nat)
    requires Distinct(ex) && k < |Left(ex, got)|
    ensures Left(ex, got + {Left(ex, got)[k]}) == RemoveAt(Left(ex, got), k)
  {
    var n, q := |ex| - 1, Left(ex, got);
    var front := Left(ex[..n], got);
    if k < |front| {
      LeftRemoves(ex[..n], got, k);
      assert q[k] == front[k] && front[k] in front;
      assert ex[n] != front[k];
      RemoveAtConcat(front, q[|front|..], k);
      assert q == front + q[|front|..];
    } else {
      LeftGone(ex[..n], got, ex[n]);
      assert RemoveAt(q, k) == front;
    }
  }

  lemma RemoveAtConcat(a: seq<Proxy>, b: seq<Proxy>, k: nat)
    requires k < |a|
    ensures RemoveAt(a + b, k) == RemoveAt(a, k) + b
  {
    var q := a + b;
    assert q[..k] == a[..k];
    assert q[k + 1..] == a[k + 1..] + b;
    assert a[..k] + (a[k + 1..] + b) == (a[..k] + a[k + 1..]) + b;
  }

  ghost predicate History(s: State) {
    && Distinct(s.exchanged) && Distinct(s.received)
    && (forall p :: p in s.received ==> p in s.exchanged)
    && s.queue == Left(s.exchanged, ToSet(s.received))
  }

  /** A step takes nothing out, or it delivers the proxy at one position. */
  lemma StepDelivers(tag: Proxy -> Isolation, s: State, e: Event)
    requires Inv(tag, s) && Enabled(s, e) && !e.PushStep?
    ensures var s' := Step(tag, s, e);
      && s'.exchanged == s.exchanged
      && ((s'.received == s.received && s'.queue == s.queue) ||
          (HasCurr(s.pop) && s.pop.k < |s.queue| && s'.received == s.received + [s.queue[s.pop.k]]
           && s'.queue == RemoveAt(s.queue, s.pop.k)))
  {
    hide Chain;
  }

  lemma PushHistory(tag: Proxy -> Isolation, s: State, p: Proxy)
    requires Pushing(s) && History(s) && p in s.pushes
    ensures History(Step(tag, s, PushStep(p)))
  {
    hide Chain, PopInv;
    var s' := Step(tag, s, PushStep(p));
    if s.pushes[p] == Exchange {
      assert s'.exchanged[..|s.exchanged|] == s.exchanged;
    }
  }

  lemma DeliverHistory(s: State, s': State, k: nat)
    requires History(s) && k < |s.queue|
    requires s'.exchanged == s.exchanged && s'.received == s.received + [s.queue[k]] && s'.queue == RemoveAt(s.queue, k)
    ensures History(s')
  {
    hide Left, RemoveAt;
    var c := s.queue[k];
    assert c in s.queue;
    LeftRemoves(s.exchanged, ToSet(s.received), k);
    assert ToSet(s'.received) == ToSet(s.received) + {c};
  }

  lemma StepHistory(tag: Proxy -> Isolation, s: State, e: Event)
    requires Inv(tag, s) && History(s) && Enabled(s, e)
    ensures History(Step(tag, s, e))
  {
    if e.PushStep? {
      PushHistory(tag, s, e.p);
      hide Chain, PopInv, History, Step;
    } else {
      StepDelivers(tag, s, e);
      hide Chain, PopInv, Step, Left, RemoveAt;
      var s' := Step(tag, s, e);
      if s'.received != s.received { DeliverHistory(s, s', s.pop.k); }
    }
  }

  lemma {:induction false} RunInv(tag: Proxy -> Isolation, s: State, es: seq<Event>)
    requires Inv(tag, s) && History(s) && CanRun(tag, s, es)
    ensures Inv(tag, Run(tag, s, es)) && History(Run(tag, s, es))
    decreases |es|
  {
    hide Inv, History, Step, Enabled;
    if es != [] {
      StepInv(tag, s, es[0]);
      StepHistory(tag, s, es[0]);
      RunInv(tag, Step(tag, s, es[0]), es[1..]);
    }
  }

  // --------------------------------------------------------- main results

  ghost predicate Reachable(tag: Proxy -> Isolation, s: State) {
    exists es :: CanRun(tag, Init, es) && Run(tag, Init, es) == s
  }

  lemma ReachableInv(tag: Proxy -> Isolation, s: State)
    requires Reachable(tag, s)
    ensures Inv(tag, s) && History(s)
  {
    var es :| CanRun(tag, Init, es) && Run(tag, Init, es) == s;
    InitInv(tag);
    RunInv(tag, Init, es);
  }

  /** Every proxy pushed is received at most once, and what has not been received
      is queued in the order of the exchanges, whatever was taken from the middle. */
  lemma ExactlyOnce(tag: Proxy -> Isolation, s: State)
    requires Reachable(tag, s)
    ensures Distinct(s.exchanged) && Distinct(s.received)
    ensures forall p :: p in s.exchanged <==> p in s.received || p in s.queue
    ensures forall p :: !(p in s.received && p in s.queue)
    ensures s.queue == Left(s.exchanged, ToSet(s.received))
  {
    ReachableInv(tag, s);
  }

  predicate NeverIsolated(es: seq<Event>) {
    forall i :: 0 <= i < |es| && es[i].BeginPop? ==> es[i].iso == NO_ISOLATION
  }

  /** Without isolation, what was received and what is queued make up the exchanges. */
  predicate IsFifo(s: State) {
    s.exchanged == s.received + s.queue && (s.pop != Idle ==> s.pop.iso == NO_ISOLATION)
  }

  lemma StepKeepsIsolation(tag: Proxy -> Isolation, s: State, e: Event)
    requires Enabled(s, e) && (s.pop != Idle ==> s.pop.iso == NO_ISOLATION) && (e.BeginPop? ==> e.iso == NO_ISOLATION)
    ensures var s' := Step(tag, s, e); s'.pop != Idle ==> s'.pop.iso == NO_ISOLATION
  {
  }

  lemma StepIsFifo(tag: Proxy -> Isolation, s: State, e: Event)
    requires Inv(tag, s) && Enabled(s, e) && IsFifo(s) && (e.BeginPop? ==> e.iso == NO_ISOLATION)
    ensures IsFifo(Step(tag, s, e))
  {
    StepKeepsIsolation(tag, s, e);
    if e.PushStep? {
      hide Chain, PopInv, Pushing;
    } else {
      StepDelivers(tag, s, e);
      hide Chain, Pushing, Step;
    }
  }

  lemma {:induction false} RunIsFifo(tag: Proxy -> Isolation, s: State, es: seq<Event>)
    requires Inv(tag, s) && CanRun(tag, s, es) && NeverIsolated(es) && IsFifo(s)
    ensures IsFifo(Run(tag, s, es))
    decreases |es|
  {
    hide Inv, IsFifo, Step, Enabled;
    if es != [] {
      StepInv(tag, s, es[0]);
      StepIsFifo(tag, s, es[0]);
      RunIsFifo(tag, Step(tag, s, es[0]), es[1..]);
    }
  }

  /** As long as no isolation is asked for, proxies are received in the order in
      which the producers won their exchanges. */
  lemma FirstInFirstOut(tag: Proxy -> Isolation, es: seq<Event>)
    requires CanRun(tag, Init, es) && NeverIsolated(es)
    ensures var s := Run(tag, Init, es); s.exchanged == s.received + s.queue
  {
    InitInv(tag);
    RunIsFifo(tag, Init, es);
  }

  lemma DeliveringStep(tag: Proxy -> Isolation, s: State)
    requires s.pop != Idle && StepPop(tag, s).received != s.received
    ensures HasCurr(s.pop) && !s.pop.Walk? && StepPop(tag, s).received == s.received + [s.pop.curr]
  {
  }

  lemma FailingStep(tag: Proxy -> Isolation, s: State)
    requires s.pop != Idle && StepPop(tag, s).pop == Idle && StepPop(tag, s).received == s.received
    ensures s.pop.LoadFirst? || s.pop.Walk?
    ensures s.pop.LoadFirst? ==> First !in s.link
    ensures s.pop.Walk? ==> Next(s.pop.curr) !in s.link && tag(s.pop.curr) != s.pop.iso
  {
  }

  /** The isolation that the last pop of a run was called with. */
  function Asked(es: seq<Event>, iso: Isolation): Isolation {
    if es == [] then iso else Asked(es[1..], if es[0].BeginPop? then es[0].iso else iso)
  }

  predicate AsAsked(pop: Pop, iso: Isolation) { pop != Idle ==> pop.iso == iso }

  lemma StepAsAsked(tag: Proxy -> Isolation, s: State, e: Event, iso: Isolation)
    requires Enabled(s, e) && AsAsked(s.pop, iso)
    ensures AsAsked(Step(tag, s, e).pop, if e.BeginPop? then e.iso else iso)
  {
  }

  lemma {:induction false} RunAsAsked(tag: Proxy -> Isolation, s: State, es: seq<Event>, iso: Isolation)
    requires CanRun(tag, s, es) && AsAsked(s.pop, iso)
    ensures AsAsked(Run(tag, s, es).pop, Asked(es, iso))
    decreases |es|
  {
    hide Step, Enabled;
    if es != [] {
      StepAsAsked(tag, s, es[0], iso);
      RunAsAsked(tag, Step(tag, s, es[0]), es[1..], if es[0].BeginPop? then es[0].iso else iso);
    }
  }

  lemma AtRun(tag: Proxy -> Isolation, es: seq<Event>)
    requires CanRun(tag, Init, es)
    ensures Inv(tag, Run(tag, Init, es)) && AsAsked(Run(tag, Init, es).pop, Asked(es, NO_ISOLATION))
  {
    InitInv(tag);
    RunInv(tag, Init, es);
    RunAsAsked(tag, Init, es, NO_ISOLATION);
  }

  /** What a pop delivers matches the isolation its caller asked for, and nothing before
      it in the queue does. */
  lemma PopTakesOldestMatch(tag: Proxy -> Isolation, es: seq<Event>) returns (i: nat)
    requires CanRun(tag, Init, es)
    requires var s := Run(tag, Init, es); s.pop != Idle && StepPop(tag, s).received != s.received
    ensures var s, iso := Run(tag, Init, es), Asked(es, NO_ISOLATION);
      && i < |s.queue| && StepPop(tag, s).received == s.received + [s.queue[i]]
      && (iso == NO_ISOLATION ==> i == 0)
      && (iso != NO_ISOLATION ==> tag(s.queue[i]) == iso && forall j :: 0 <= j < i ==> tag(s.queue[j]) != iso)
  {
    var s := Run(tag, Init, es);
    hide Chain, Pushing, CanRun, Run, StepPop, Asked;
    AtRun(tag, es);
    DeliveringStep(tag, s);
    i := s.pop.k;
  }

  ghost predicate NoneMatches(tag: Proxy -> Isolation, iso: Isolation, q: seq<Proxy>, i: nat)
    requires i <= |q|
  {
    forall j :: 0 <= j < i ==> iso != NO_ISOLATION && tag(q[j]) != iso
  }

  /** A pop that comes back with nothing has seen the mailbox, up to its end or a proxy
      that is still being linked, hold nothing that matches what its caller asked for. */
  lemma PopFailsHonestly(tag: Proxy -> Isolation, es: seq<Event>) returns (i: nat)
    requires CanRun(tag, Init, es)
    requires var s := Run(tag, Init, es);
      s.pop != Idle && StepPop(tag, s).pop == Idle && StepPop(tag, s).received == s.received
    ensures var s, iso := Run(tag, Init, es), Asked(es, NO_ISOLATION);
      i <= |s.queue| && NoneMatches(tag, iso, s.queue, i) && (i == |s.queue| || s.queue[i] in s.pushes)
  {
    var s := Run(tag, Init, es);
    hide Pushing, CanRun, Run, StepPop, Asked;
    AtRun(tag, es);
    FailingStep(tag, s);
    i := if s.pop.LoadFirst? then 0 else s.pop.k + 1;
    assert Place(s.queue, i) !in s.link;
    if i < |s.queue| {
      assert LinkedAt(s.link, s.pushes, s.queue, -1, i);
    }
    hide Chain;
  }

  /** A pop as seen from outside: what it was called with, what it delivered, and
      whether there was a moment at which it had nothing to deliver. */
  datatype Call = Call(iso: Isolation, got: seq<Proxy>, nothing: bool)

  /** Up to the end of the queue or a proxy still being linked nothing matches. */
  ghost predicate NothingFor(tag: Proxy -> Isolation, iso: Isolation, s: State) {
    exists i :: 0 <= i <= |s.queue| && NoneMatches(tag, iso, s.queue, i) && (i == |s.queue| || s.queue[i] in s.pushes)
  }

  ghost function Sees(tag: Proxy -> Isolation, s: State, e: Event, c: Call): Call
    requires Enabled(s, e)
  {
    var s' := Step(tag, s, e);
    if e.BeginPop? then Call(e.iso, [], false)
    else Call(c.iso, if |s.received| < |s'.received| then c.got + s'.received[|s.received|..] else c.got,
              c.nothing || NothingFor(tag, c.iso, s))
  }

  /** The pop that is going on or the last one; `c` if there was none. */
  ghost function LastPop(tag: Proxy -> Isolation, s: State, es: seq<Event>, c: Call): Call
    requires CanRun(tag, s, es)
    decreases |es|
  {
    if es == [] then c else LastPop(tag, Step(tag, s, es[0]), es[1..], Sees(tag, s, es[0], c))
  }

  ghost predicate CallOk(tag: Proxy -> Isolation, s: State, c: Call) {
    if s.pop != Idle then s.pop.iso == c.iso && c.got == []
    else if c.got == [] then c.nothing
    else |c.got| == 1 && (c.iso == NO_ISOLATION || tag(c.got[0]) == c.iso)
  }

  lemma FailsHonestly(tag: Proxy -> Isolation, s: State)
    requires Inv(tag, s) && s.pop != Idle && StepPop(tag, s).pop == Idle && StepPop(tag, s).received == s.received
    ensures NothingFor(tag, s.pop.iso, s)
  {
    hide Pushing, StepPop;
    FailingStep(tag, s);
    var i := if s.pop.LoadFirst? then 0 else s.pop.k + 1;
    assert Place(s.queue, i) !in s.link;
    if i < |s.queue| { assert LinkedAt(s.link, s.pushes, s.queue, -1, i); }
    hide Chain;
    assert NoneMatches(tag, s.pop.iso, s.queue, i);
  }

  lemma StepCallOk(tag: Proxy -> Isolation, s: State, e: Event, c: Call)
    requires Inv(tag, s) && Enabled(s, e) && CallOk(tag, s, c)
    ensures CallOk(tag, Step(tag, s, e), Sees(tag, s, e, c))
  {
    hide Chain, Pushing, NothingFor;
    var s' := Step(tag, s, e);
    if e.PopStep? {
      if s'.received != s.received {
        DeliveringStep(tag, s);
        assert s'.received[|s.received|..] == [s.pop.curr];
        DeliversAndEnds(tag, s);
      } else if s'.pop == Idle {
        FailsHonestly(tag, s);
      } else {
        StepAsAsked(tag, s, e, c.iso);
      }
      hide StepPop;
    }
  }

  lemma DeliversAndEnds(tag: Proxy -> Isolation, s: State)
    requires s.pop != Idle && StepPop(tag, s).received != s.received
    ensures StepPop(tag, s).pop == Idle
  {
  }

  lemma {:induction false} RunCallOk(tag: Proxy -> Isolation, s: State, es: seq<Event>, c: Call)
    requires Inv(tag, s) && History(s) && CanRun(tag, s, es) && CallOk(tag, s, c)
    ensures CallOk(tag, Run(tag, s, es), LastPop(tag, s, es, c))
    decreases |es|
  {
    hide Inv, History, Step, Enabled, CallOk, Sees;
    if es != [] {
      StepInv(tag, s, es[0]);
      StepHistory(tag, s, es[0]);
      StepCallOk(tag, s, es[0], c);
      RunCallOk(tag, Step(tag, s, es[0]), es[1..], Sees(tag, s, es[0], c));
    }
  }

  /** Every pop that has returned has delivered one proxy that matches what its caller
      asked for, or there was a moment in it at which it had nothing to deliver. */
  lemma PopAnswers(tag: Proxy -> Isolation, es: seq<Event>, iso: Isolation, later: seq<Event>)
    requires CanRun(tag, Init, es) && Enabled(Run(tag, Init, es), BeginPop(iso))
    requires CanRun(tag, Step(tag, Run(tag, Init, es), BeginPop(iso)), later)
    requires Run(tag, Step(tag, Run(tag, Init, es), BeginPop(iso)), later).pop == Idle
    requires forall e <- later :: !e.BeginPop?
    ensures var c := LastPop(tag, Step(tag, Run(tag, Init, es), BeginPop(iso)), later, Call(iso, [], false));
      if c.got == [] then c.nothing else |c.got| == 1 && (iso == NO_ISOLATION || tag(c.got[0]) == iso)
  {
    InitInv(tag);
    RunInv(tag, Init, es);
    var s := Run(tag, Init, es);
    StepInv(tag, s, BeginPop(iso));
    StepHistory(tag, s, BeginPop(iso));
    assert CallOk(tag, Step(tag, s, BeginPop(iso)), Call(iso, [], false));
    hide Inv, History, Step, Run, CanRun;
    RunCallOk(tag, Step(tag, s, BeginPop(iso)), later, Call(iso, [], false));
    KeepsIso(tag, Step(tag, s, BeginPop(iso)), later, Call(iso, [], false));
  }

  lemma {:induction false} KeepsIso(tag: Proxy -> Isolation, s: State, es: seq<Event>, c: Call)
    requires CanRun(tag, s, es) && forall e <- es :: !e.BeginPop?
    ensures LastPop(tag, s, es, c).iso == c.iso
    decreases |es|
  {
    hide Step, Enabled;
    if es != [] { KeepsIso(tag, Step(tag, s, es[0]), es[1..], Sees(tag, s, es[0], c)); }
  }

  /** A pop waits only for a producer that has made its exchange and not stored its link. */
  lemma PopWaitsForAPush(tag: Proxy -> Isolation, s: State)
    requires Reachable(tag, s) && s.pop != Idle && StepPop(tag, s) == s
    ensures s.pop.AwaitSecond? && s.pop.k + 1 < |s.queue| && s.queue[s.pop.k + 1] in s.pushes
  {
    ReachableInv(tag, s);
    hide History, Reachable, Pushing, RemoveAt;
    Moves(tag, s);
    assert LinkedAt(s.link, s.pushes, s.queue, Hole(s.pop), s.pop.k + 1);
  }

  lemma Moves(tag: Proxy -> Isolation, s: State)
    requires s.pop != Idle && StepPop(tag, s) == s && PopInv(tag, s)
    ensures s.pop.AwaitSecond? && Next(s.pop.curr) !in s.link
  {
    hide RemoveAt;
    assert forall c: Proxy :: |s.received + [c]| > |s.received|;
  }

  /** A producer stores its link into an empty place, and never into a proxy that
      has been received and may be freed. */
  lemma LinksAreStoredSafely(tag: Proxy -> Isolation, s: State, p: Proxy)
    requires Reachable(tag, s) && p in s.pushes && s.pushes[p].PutLink?
    ensures var a := s.pushes[p].link; a !in s.link && (a.Next? ==> a.p in s.queue && a.p !in s.received)
  {
    ReachableInv(tag, s);
    var i :| 0 <= i < |s.queue| && s.queue[i] == p;
    assert LinkedAt(s.link, s.pushes, s.queue, Hole(s.pop), i);
    assert i > 0 ==> s.queue[i - 1] in s.queue;
  }

  /** Once all pushes and pops have returned, the links from `my_first` lead
      through exactly the queued proxies, in order. */
  lemma LinkedAtRest(tag: Proxy -> Isolation, s: State, i: nat)
    requires Reachable(tag, s) && s.pushes == map[] && s.pop == Idle && i <= |s.queue|
    ensures if i < |s.queue| then Place(s.queue, i) in s.link && s.link[Place(s.queue, i)] == s.queue[i]
            else Place(s.queue, i) !in s.link
  {
    ReachableInv(tag, s);
    if i < |s.queue| { assert LinkedAt(s.link, s.pushes, s.queue, Hole(s.pop), i); }
  }
}
