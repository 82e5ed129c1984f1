/** Cancellation of task group contexts racing with the binding of new contexts.
    Contexts form a tree; each is registered in the list of the thread that bound
    it. Cancelling a context marks its registered descendants, list by list,
    under a global lock and with a global epoch; binding a context copies its
    parent's mark without a lock and uses the epochs to find out whether the
    copy can be trusted. One event is one load, store, exchange, lock or unlock. */
module Cancellation {

  type Ctx = int
  type CallId = nat

  /** The tree as it will be once all contexts are bound: `parent[x]` is the
      context that `x` gets bound to, or -1 for an isolated one, `listOf[x]` the
      list it is registered in, one of `lists`. Contexts are numbered so that
      parents come first. */
  datatype Tree = Tree(parent: seq<int>, listOf: seq<nat>, lists: nat)

  predicate WellFormed(tr: Tree) {
    && |tr.listOf| == |tr.parent|
    && (forall x :: 0 <= x < |tr.parent| ==> -1 <= tr.parent[x] < x)
    && (forall x :: 0 <= x < |tr.listOf| ==> tr.listOf[x] < tr.lists)
  }

  function Parent(tr: Tree, x: Ctx): (p: Ctx) {
    if 0 <= x < |tr.parent| && -1 <= tr.parent[x] < x then tr.parent[x] else -1
  }

  function ListOf(tr: Tree, x: Ctx): nat {
    if 0 <= x < |tr.listOf| then tr.listOf[x] else 0
  }

  /** `a` is a proper ancestor of `x`. */
  predicate Ancestor(tr: Tree, a: Ctx, x: Ctx)
    decreases x
  {
    var p := Parent(tr, x);
    0 <= p < x && (p == a || Ancestor(tr, a, p))
  }

  /** Where the binding of a context stands. `s` is the epoch read from the
      parent's list and `v` the mark read from the parent. The phases with an
      `R` belong to the branch for a parent that has no parent itself. */
  datatype Phase =
    | Unbound | Mark
    | Snap | Load(s: nat) | Store(s: nat, v: bool) | Reg(s: nat) | Check(s: nat)
    | Lock | Load2 | Store2(v: bool) | Unlock
    | RegR | LoadR | StoreR(v: bool)
    | Bound

  /** Where a call of `cancel_group_execution(a)` stands: `l` is the list it is
      at, `todo` the contexts of that list still to be looked at, `y` the one
      whose path to `a` is being marked and `c` the next one on that path. */
  datatype Call =
    | CExchange(a: Ctx)
    | CState(a: Ctx)
    | CLock(a: Ctx)
    | CCheck(a: Ctx)
    | CEpoch(a: Ctx)
    | CList(a: Ctx, l: nat)
    | CScan(a: Ctx, l: nat, todo: set<Ctx>)
    | CPaint(a: Ctx, l: nat, todo: set<Ctx>, y: Ctx, c: Ctx)
    | CSync(a: Ctx, l: nat)
    | CUnlock(a: Ctx)

  datatype Holder = Nobody | Canceller(k: CallId) | Binder(x: Ctx)

  /** The last five sets are bookkeeping: contexts on which a call won the
      exchange, for which such a call has returned, whose mark a binding
      overwrote with 0, that were cancelled before they were bound, and whose
      isolated parent was cancelled between the load and the store of the copy. */
  datatype State = State(
    marked: set<Ctx>, mayHaveChildren: set<Ctx>, phase: map<Ctx, Phase>,
    epoch: map<nat, nat>, global: nat, holder: Holder, calls: map<CallId, Call>,
    asked: set<Ctx>, done: set<Ctx>, erased: set<Ctx>, early: set<Ctx>, raced: set<Ctx>)

  datatype Event =
    | BeginBind(x: Ctx)
    | BindStep(x: Ctx)
    | BeginCancel(k: CallId, a: Ctx)
    | CancelStep(k: CallId, y: Ctx)

  const Init := State({}, {}, map[], map[], 0, Nobody, map[], {}, {}, {}, {}, {})

  function PhaseOf(tr: Tree, phase: map<Ctx, Phase>, x: Ctx): Phase {
    if x in phase then phase[x] else if Parent(tr, x) < 0 then Bound else Unbound
  }

  function EpochOf(epoch: map<nat, nat>, l: nat): nat {
    if l in epoch then epoch[l] else 0
  }

  /** The context is in its list. */
  predicate Registered(tr: Tree, phase: map<Ctx, Phase>, x: Ctx) {
    var ph := PhaseOf(tr, phase, x);
    Parent(tr, x) >= 0 &&
    (ph.Check? || ph.Lock? || ph.Load2? || ph.Store2? || ph.Unlock? || ph.LoadR? || ph.StoreR? || ph.Bound?)
  }

  /** The list is locked by the call that scans it. */
  predicate Scanning(c: Call, l: nat) {
    (c.CScan? || c.CPaint? || c.CSync?) && c.l == l
  }

  predicate ListFree(s: State, l: nat) {
    !(s.holder.Canceller? && s.holder.k in s.calls && Scanning(s.calls[s.holder.k], l))
  }

  // -------------------------------------------------------------- binding

  function Go(s: State, x: Ctx, ph: Phase): State {
    s.(phase := s.phase[x := ph])
  }

  /** A store of `v` to the mark of a context that is being bound. */
  function Copy(s: State, x: Ctx, v: bool): State {
    s.(marked := if v then s.marked + {x} else s.marked - {x},
       erased := if !v && x in s.marked then s.erased + {x} else s.erased)
  }

  function StepBind(tr: Tree, s: State, x: Ctx): State {
    var p := Parent(tr, x);
    match PhaseOf(tr, s.phase, x)
    case Unbound => s
    case Bound => s
    case Mark =>
      Go(s.(mayHaveChildren := s.mayHaveChildren + {p}), x, if Parent(tr, p) >= 0 then Snap else RegR)
    case Snap => Go(s, x, Load(EpochOf(s.epoch, ListOf(tr, p))))
    case Load(e) => Go(s, x, Store(e, p in s.marked))
    case Store(e, v) => Go(Copy(s, x, v), x, Reg(e))
    case Reg(e) => if ListFree(s, ListOf(tr, x)) then Go(s, x, Check(e)) else s
    case Check(e) => Go(s, x, if e == s.global then Bound else Lock)
    case Lock => if s.holder == Nobody then Go(s.(holder := Binder(x)), x, Load2) else s
    case Load2 => Go(s, x, Store2(p in s.marked))
    case Store2(v) => Go(Copy(s, x, v), x, Unlock)
    case Unlock => Go(s.(holder := Nobody), x, Bound)
    case RegR => if ListFree(s, ListOf(tr, x)) then Go(s, x, LoadR) else s
    case LoadR => Go(s, x, StoreR(p in s.marked))
    case StoreR(v) => Go(Copy(s, x, v), x, Bound)
  }

  // ----------------------------------------------------------- cancelling

  function At(s: State, k: CallId, c: Call): State {
    s.(calls := s.calls[k := c])
  }

  function Return(s: State, k: CallId, a: Ctx): State {
    s.(calls := s.calls - {k}, done := s.done + {a})
  }

  /** The exchange of the mark of `a` with 1, won by this call. */
  function Win(tr: Tree, s: State, a: Ctx): State {
    s.(marked := s.marked + {a}, asked := s.asked + {a},
       early := if PhaseOf(tr, s.phase, a) == Bound then s.early else s.early + {a},
       raced := s.raced + set x | x in s.phase && Parent(tr, x) == a && s.phase[x].StoreR?)
  }

  function StepCancel(tr: Tree, s: State, k: CallId, y: Ctx): State
    requires k in s.calls
  {
    match s.calls[k]
    case CExchange(a) =>
      if a in s.marked then s.(calls := s.calls - {k}) else At(Win(tr, s, a), k, CState(a))
    case CState(a) =>
      if a in s.mayHaveChildren then At(s, k, CLock(a)) else Return(s, k, a)
    case CLock(a) =>
      if s.holder == Nobody then At(s.(holder := Canceller(k)), k, CCheck(a)) else s
    case CCheck(a) =>
      if a in s.marked then At(s, k, CEpoch(a)) else Return(s.(holder := Nobody), k, a)
    case CEpoch(a) => At(s.(global := s.global + 1), k, CList(a, 0))
    case CList(a, l) =>
      if l == tr.lists then At(s, k, CUnlock(a))
      else At(s, k, CScan(a, l, set x | x in s.phase && Registered(tr, s.phase, x) && ListOf(tr, x) == l))
    case CScan(a, l, todo) =>
      if todo == {} then At(s, k, CSync(a, l))
      else if y !in todo then s
      else if y in s.marked || y == a || !Ancestor(tr, a, y) then At(s, k, CScan(a, l, todo - {y}))
      else At(s, k, CPaint(a, l, todo, y, y))
    case CPaint(a, l, todo, y, c) =>
      var s' := s.(marked := s.marked + {c});
      if Parent(tr, c) == a || Parent(tr, c) < 0 then At(s', k, CScan(a, l, todo - {y}))
      else At(s', k, CPaint(a, l, todo, y, Parent(tr, c)))
    case CSync(a, l) => At(s.(epoch := s.epoch[l := s.global]), k, CList(a, l + 1))
    case CUnlock(a) => Return(s.(holder := Nobody), k, a)
  }

  /** A context is bound to one that is bound; a call first sees whether the mark
      is set already, in which case it returns at once. */
  predicate Enabled(tr: Tree, s: State, e: Event) {
    match e
    case BeginBind(x) => PhaseOf(tr, s.phase, x) == Unbound && PhaseOf(tr, s.phase, Parent(tr, x)) == Bound
    case BindStep(x) => x in s.phase && PhaseOf(tr, s.phase, x) != Bound
    case BeginCancel(k, a) => k !in s.calls && 0 <= a < |tr.parent|
    case CancelStep(k, _) => k in s.calls
  }

  function Step(tr: Tree, s: State, e: Event): State
    requires Enabled(tr, s, e)
  {
    match e
    case BeginBind(x) => Go(s, x, Mark)
    case BindStep(x) => StepBind(tr, s, x)
    case BeginCancel(k, a) => if a in s.marked then s else At(s, k, CExchange(a))
    case CancelStep(k, y) => StepCancel(tr, s, k, y)
  }

  predicate CanRun(tr: Tree, s: State, es: seq<Event>)
    decreases |es|
  {
    es == [] || (Enabled(tr, s, es[0]) && CanRun(tr, Step(tr, s, es[0]), es[1..]))
  }

  function Run(tr: Tree, s: State, es: seq<Event>): State
    requires CanRun(tr, s, es)
    decreases |es|
  {
    if es == [] then s else Run(tr, Step(tr, s, es[0]), es[1..])
  }

  // ------------------------------------------------------------ invariant

  /** `x` is below `a` and none of `bad` is on the way from `a` to `x`, `x` included. */
  predicate Heir(tr: Tree, bad: set<Ctx>, a: Ctx, x: Ctx)
    decreases x
  {
    var p := Parent(tr, x);
    x !in bad && 0 <= p < x && (p == a || Heir(tr, bad, a, p))
  }

  predicate Locked(c: Call) { !c.CExchange? && !c.CState? && !c.CLock? }

  /** The call has advanced the global epoch. */
  predicate Spreading(c: Call) { Locked(c) && !c.CCheck? && !c.CEpoch? }

  /** The call has dealt with the place of `x` in its list. */
  predicate Covered(tr: Tree, c: Call, x: Ctx) {
    match c
    case CList(_, l) => ListOf(tr, x) < l
    case CScan(_, l, todo) => ListOf(tr, x) < l || (ListOf(tr, x) == l && x !in todo)
    case CPaint(_, l, todo, _, _) => ListOf(tr, x) < l || (ListOf(tr, x) == l && x !in todo)
    case CSync(_, l) => ListOf(tr, x) <= l
    case CUnlock(_) => true
    case _ => false
  }

  predicate Spreads(s: State, a: Ctx) {
    s.holder.Canceller? && s.holder.k in s.calls && Spreading(s.calls[s.holder.k]) && s.calls[s.holder.k].a == a
  }

  /** The cancellation of `a` counts: it has spread or is spreading. */
  predicate Counts(s: State, a: Ctx) {
    a !in s.erased && (a in s.done || Spreads(s, a))
  }

  /** ... and it has already had its chance to mark `x`. */
  predicate Covers(tr: Tree, s: State, a: Ctx, x: Ctx) {
    a !in s.erased && (a in s.done || (Spreads(s, a) && Covered(tr, s.calls[s.holder.k], x)))
  }

  /** The contexts whose mark, made by a cancellation of their isolated parent, a
      binding overwrote: cancelled between the load and the store of the copy. */
  function Torn(s: State): set<Ctx> { s.raced * s.erased }

  predicate Below(tr: Tree, bad: set<Ctx>, a: Ctx, p: Ctx) {
    p == a || Heir(tr, bad, a, p)
  }

  /** What the binding of `x` knows about a cancellation of its ancestor `a`. */
  predicate Inherits(tr: Tree, s: State, a: Ctx, x: Ctx) {
    var p := Parent(tr, x);
    match PhaseOf(tr, s.phase, x)
    case Load(e) => e == s.global && Counts(s, a) && Below(tr, Torn(s), a, p) ==> p in s.marked
    case Store(e, v) => e == s.global && Counts(s, a) && Below(tr, Torn(s), a, p) ==> v
    case Reg(e) => e == s.global && Counts(s, a) && Heir(tr, Torn(s), a, x) ==> x in s.marked
    case Check(e) => e == s.global && Counts(s, a) && Heir(tr, Torn(s), a, x) ==> x in s.marked
    case Store2(v) => Counts(s, a) && Below(tr, Torn(s), a, p) ==> v
    case Unlock => Counts(s, a) && Heir(tr, Torn(s), a, x) ==> x in s.marked
    case StoreR(v) => Covers(tr, s, a, x) && Heir(tr, Torn(s), a, x) ==> v || x in s.marked
    case Bound => x in s.phase && Covers(tr, s, a, x) && Heir(tr, Torn(s), a, x) ==> x in s.marked
    case _ => true
  }

  predicate OnEpochPath(ph: Phase) {
    ph.Snap? || ph.Load? || ph.Store? || ph.Reg? || ph.Check? || ph.Lock? || ph.Load2? || ph.Store2? || ph.Unlock?
  }

  predicate OnShortPath(ph: Phase) { ph.RegR? || ph.LoadR? || ph.StoreR? }

  predicate InLock(ph: Phase) { ph.Load2? || ph.Store2? || ph.Unlock? }

  predicate SnapshotOk(ph: Phase, global: nat) {
    match ph
    case Load(e) => e <= global
    case Store(e, _) => e <= global
    case Reg(e) => e <= global
    case Check(e) => e <= global
    case _ => true
  }

  /** Parents are bound first and know that they have children. */
  predicate TreeInv(tr: Tree, s: State, x: Ctx) {
    var p, ph := Parent(tr, x), PhaseOf(tr, s.phase, x);
    && (x in s.phase ==> p >= 0 && ph != Unbound && PhaseOf(tr, s.phase, p) == Bound)
    && (x in s.phase && ph != Mark ==> p in s.mayHaveChildren)
    && (OnEpochPath(ph) ==> Parent(tr, p) >= 0)
    && (OnShortPath(ph) ==> Parent(tr, p) < 0)
    && SnapshotOk(ph, s.global)
    && (InLock(ph) <==> s.holder == Binder(x))
    && (x in s.mayHaveChildren ==> PhaseOf(tr, s.phase, x) == Bound)
  }

  /** The lists from `l` on have not heard of the latest epoch yet. */
  ghost predicate Behind(epoch: map<nat, nat>, global: nat, l: nat) {
    forall j :: j >= l ==> EpochOf(epoch, j) < global
  }

  ghost predicate InList(tr: Tree, phase: map<Ctx, Phase>, l: nat, todo: set<Ctx>) {
    forall x :: x in todo ==> Registered(tr, phase, x) && ListOf(tr, x) == l
  }

  ghost predicate ScanInv(tr: Tree, s: State, c: Call) {
    match c
    case CList(_, l) => l <= tr.lists && Behind(s.epoch, s.global, l)
    case CScan(_, l, todo) =>
      l < tr.lists && Behind(s.epoch, s.global, l) && InList(tr, s.phase, l, todo)
    case CPaint(a, l, todo, y, c) =>
      l < tr.lists && Behind(s.epoch, s.global, l) && InList(tr, s.phase, l, todo) &&
      y in todo && Ancestor(tr, a, c) && (c == y || Ancestor(tr, c, y)) &&
      (c != y ==> y in s.marked)
    case CSync(_, l) => l < tr.lists && Behind(s.epoch, s.global, l)
    case _ => true
  }

  ghost predicate CallInv(tr: Tree, s: State, k: CallId) {
    k in s.calls ==>
      var c := s.calls[k];
      && (Locked(c) <==> s.holder == Canceller(k))
      && (!c.CExchange? ==> c.a in s.asked)
      && (!c.CExchange? && !c.CState? ==> c.a in s.mayHaveChildren)
      && (Locked(c) && !c.CCheck? ==> c.a in s.marked)
      && ScanInv(tr, s, c)
  }

  ghost predicate Shape(tr: Tree, s: State) {
    && WellFormed(tr)
    && (forall x :: TreeInv(tr, s, x))
    && (forall k :: CallInv(tr, s, k))
    && (s.holder.Canceller? ==> s.holder.k in s.calls)
    && Behind(s.epoch, s.global + 1, 0)
    && s.done <= s.asked <= s.marked + s.erased
  }

  ghost predicate Inv(tr: Tree, s: State) {
    Shape(tr, s) && forall a, x :: Inherits(tr, s, a, x)
  }

  lemma InitInv(tr: Tree)
    requires WellFormed(tr)
    ensures Inv(tr, Init)
  {
  }

  // ------------------------------------------------------- tree lemmas

  lemma {:induction false} AncestorBelow(tr: Tree, a: Ctx, x: Ctx)
    requires Ancestor(tr, a, x)
    ensures 0 <= a < x && Parent(tr, x) >= 0
    decreases x
  {
    if Parent(tr, x) != a { AncestorBelow(tr, a, Parent(tr, x)); }
  }

  lemma {:induction false} HeirIsBelow(tr: Tree, bad: set<Ctx>, a: Ctx, x: Ctx)
    requires Heir(tr, bad, a, x)
    ensures Ancestor(tr, a, x) && x !in bad
    decreases x
  {
    if Parent(tr, x) != a { HeirIsBelow(tr, bad, a, Parent(tr, x)); }
  }

  lemma {:induction false} HeirMonotone(tr: Tree, bad: set<Ctx>, bad': set<Ctx>, a: Ctx, x: Ctx)
    requires bad <= bad' && Heir(tr, bad', a, x)
    ensures Heir(tr, bad, a, x)
    decreases x
  {
    if Parent(tr, x) != a { HeirMonotone(tr, bad, bad', a, Parent(tr, x)); }
  }

  /** Whatever is above a context whose binding has begun is bound, and knows
      that it has children once that binding has passed its first step. */
  lemma {:induction false} AboveIsBound(tr: Tree, s: State, a: Ctx, x: Ctx)
    requires Shape(tr, s) && Ancestor(tr, a, x) && x in s.phase
    ensures PhaseOf(tr, s.phase, a) == Bound
    ensures s.phase[x] != Mark || Parent(tr, x) != a ==> a in s.mayHaveChildren
    decreases x
  {
    var p := Parent(tr, x);
    assert TreeInv(tr, s, x);
    if p != a {
      AncestorBelow(tr, a, p);
      AboveIsBound(tr, s, a, p);
    }
  }

  // ------------------------------------------------------ steps of binding

  lemma BeginBindShape(tr: Tree, s: State, x: Ctx)
    requires Shape(tr, s) && Enabled(tr, s, BeginBind(x))
    ensures Shape(tr, Go(s, x, Mark))
  {
    var s' := Go(s, x, Mark);
    forall z ensures TreeInv(tr, s', z) { assert TreeInv(tr, s, z) && TreeInv(tr, s, x); }
    forall k ensures CallInv(tr, s', k) { assert CallInv(tr, s, k); }
  }

  /** A step that only moves the binding of `x` on, touching what it may touch. */
  ghost predicate BindMove(tr: Tree, s: State, s': State, x: Ctx, ph: Phase) {
    && x in s.phase && s.phase[x] != Bound && ph != Unbound
    && s' == s.(phase := s.phase[x := ph], marked := s'.marked, erased := s'.erased,
                holder := s'.holder, mayHaveChildren := s'.mayHaveChildren)
    && (Registered(tr, s.phase, x) ==> Registered(tr, s'.phase, x))
    && (x in s.marked && x !in s'.marked ==> s.phase[x].Store? || s.phase[x].Store2? || s.phase[x].StoreR?)
    && s.marked - {x} <= s'.marked <= s.marked + {x} && s.erased <= s'.erased && s.marked + s.erased <= s'.marked + s'.erased
    && s.mayHaveChildren <= s'.mayHaveChildren <= s.mayHaveChildren + {Parent(tr, x)}
    && (s'.holder == s.holder || (s.holder == Nobody && s'.holder == Binder(x)) || (s.holder == Binder(x) && s'.holder == Nobody))
  }

  /** A context on whose behalf another one is being marked keeps its mark: it does
      not copy the mark of an isolated parent, and nobody else has the lock. */
  lemma PaintedStays(tr: Tree, s: State, s': State, x: Ctx, ph: Phase, k: CallId)
    requires Shape(tr, s) && BindMove(tr, s, s', x, ph)
    requires k in s.calls && s.calls[k].CPaint? && s.calls[k].y == x && s.calls[k].c != x && x in s.marked
    ensures x in s'.marked
  {
    var c := s.calls[k];
    assert TreeInv(tr, s, x) && CallInv(tr, s, k);
    AncestorUp(tr, c.c, x);
    AncestorUp(tr, c.a, c.c);
    if Parent(tr, x) != c.c { AncestorBelow(tr, c.c, Parent(tr, x)); }
    hide Ancestor;
  }

  lemma BindMoveShape(tr: Tree, s: State, s': State, x: Ctx, ph: Phase)
    requires Shape(tr, s) && BindMove(tr, s, s', x, ph) && TreeInv(tr, s', x)
    ensures Shape(tr, s')
  {
    hide Ancestor;
    assert TreeInv(tr, s, x);
    forall z ensures TreeInv(tr, s', z) { assert TreeInv(tr, s, z); }
    forall k ensures CallInv(tr, s', k) {
      assert CallInv(tr, s, k);
      if k in s.calls && s.calls[k].CPaint? && s.calls[k].y == x && s.calls[k].c != x { PaintedStays(tr, s, s', x, ph, k); }
    }
  }

  predicate Copying(ph: Phase) { ph.Store? || ph.Store2? || ph.StoreR? }

  lemma CopyMoves(tr: Tree, s: State, x: Ctx)
    requires TreeInv(tr, s, x) && Enabled(tr, s, BindStep(x)) && Copying(s.phase[x])
    ensures var s' := StepBind(tr, s, x); x in s'.phase && BindMove(tr, s, s', x, s'.phase[x])
  {
  }

  lemma LockMoves(tr: Tree, s: State, x: Ctx)
    requires TreeInv(tr, s, x) && Enabled(tr, s, BindStep(x)) && (s.phase[x].Lock? || s.phase[x].Unlock?)
    ensures var s' := StepBind(tr, s, x); s' == s || (x in s'.phase && BindMove(tr, s, s', x, s'.phase[x]))
  {
  }

  lemma OtherMoves(tr: Tree, s: State, x: Ctx)
    requires TreeInv(tr, s, x) && Enabled(tr, s, BindStep(x))
    requires !Copying(s.phase[x]) && !s.phase[x].Lock? && !s.phase[x].Unlock?
    ensures var s' := StepBind(tr, s, x); s' == s || (x in s'.phase && BindMove(tr, s, s', x, s'.phase[x]))
  {
    hide Copy, ListFree;
  }

  lemma BindStepMoves(tr: Tree, s: State, x: Ctx)
    requires TreeInv(tr, s, x) && Enabled(tr, s, BindStep(x))
    ensures var s' := StepBind(tr, s, x); s' == s || (x in s'.phase && BindMove(tr, s, s', x, s'.phase[x]))
  {
    hide StepBind, BindMove, TreeInv;
    if Copying(s.phase[x]) { CopyMoves(tr, s, x); }
    else if s.phase[x].Lock? || s.phase[x].Unlock? { LockMoves(tr, s, x); }
    else { OtherMoves(tr, s, x); }
  }

  lemma BindStepTree(tr: Tree, s: State, x: Ctx)
    requires TreeInv(tr, s, x) && TreeInv(tr, s, Parent(tr, x)) && Behind(s.epoch, s.global + 1, 0)
    requires Enabled(tr, s, BindStep(x))
    ensures TreeInv(tr, StepBind(tr, s, x), x)
  {
    hide ListFree;
    assert EpochOf(s.epoch, ListOf(tr, Parent(tr, x))) <= s.global;
  }

  lemma OthersInherit(tr: Tree, s: State, s': State, x: Ctx, a: Ctx, z: Ctx)
    requires Inv(tr, s) && x in s'.phase && BindMove(tr, s, s', x, s'.phase[x]) && z != x
    ensures Inherits(tr, s', a, z)
  {
    hide Heir, CallInv, Covered, Registered;
    var p := Parent(tr, z);
    assert Inherits(tr, s, a, z) && TreeInv(tr, s, z);
    if Heir(tr, Torn(s'), a, z) { HeirMonotone(tr, Torn(s), Torn(s'), a, z); }
    if Heir(tr, Torn(s'), a, p) { HeirMonotone(tr, Torn(s), Torn(s'), a, p); }
  }

  /** An epoch equal to the global one vouches for the mark of the parent. */
  lemma SnapInherits(tr: Tree, s: State, x: Ctx, a: Ctx)
    requires Inv(tr, s) && x in s.phase && s.phase[x] == Snap
    ensures Inherits(tr, StepBind(tr, s, x), a, x)
  {
    hide Heir;
    var p := Parent(tr, x);
    assert TreeInv(tr, s, x) && TreeInv(tr, s, p) && Inherits(tr, s, a, p);
    if Spreads(s, a) { assert CallInv(tr, s, s.holder.k); }
  }

  /** With the lock held nobody spreads, so the mark of the parent is right. */
  lemma Load2Inherits(tr: Tree, s: State, x: Ctx, a: Ctx)
    requires Inv(tr, s) && x in s.phase && s.phase[x] == Load2
    ensures Inherits(tr, StepBind(tr, s, x), a, x)
  {
    hide Heir;
    var p := Parent(tr, x);
    assert TreeInv(tr, s, x) && TreeInv(tr, s, p) && Inherits(tr, s, a, p);
  }

  /** An isolated parent is the only ancestor. */
  lemma LoadRInherits(tr: Tree, s: State, x: Ctx, a: Ctx)
    requires Inv(tr, s) && x in s.phase && s.phase[x] == LoadR
    ensures Inherits(tr, StepBind(tr, s, x), a, x)
  {
    assert TreeInv(tr, s, x) && TreeInv(tr, s, Parent(tr, x));
    assert !Heir(tr, Torn(s), a, Parent(tr, x));
    if Spreads(s, a) { assert CallInv(tr, s, s.holder.k); }
  }

  /** The copy brings what it knows; only a copy from an isolated parent may overwrite
      a mark made by the cancellation of that parent, and then it is torn. */
  lemma CopyInherits(tr: Tree, s: State, x: Ctx, a: Ctx)
    requires Inv(tr, s) && EraseInv(tr, s)
    requires x in s.phase && (s.phase[x].Store? || s.phase[x].Store2? || s.phase[x].StoreR?)
    ensures Inherits(tr, StepBind(tr, s, x), a, x)
  {
    var s', p := StepBind(tr, s, x), Parent(tr, x);
    assert TreeInv(tr, s, x) && Inherits(tr, s, a, x) && Source(tr, s, x);
    if Heir(tr, Torn(s'), a, x) {
      HeirMonotone(tr, Torn(s), Torn(s'), a, x);
      if s.phase[x].StoreR? && Covers(tr, s, a, x) { OnlyAncestor(tr, s, a, x); }
    }
  }

  /** What covers a child of an isolated context is a cancellation of that context. */
  lemma OnlyAncestor(tr: Tree, s: State, a: Ctx, x: Ctx)
    requires Shape(tr, s) && Heir(tr, Torn(s), a, x) && Parent(tr, Parent(tr, x)) < 0 && Covers(tr, s, a, x)
    ensures a == Parent(tr, x) && a in s.marked
  {
    if Spreads(s, a) { assert CallInv(tr, s, s.holder.k); }
  }

  lemma OtherPhasesInherit(tr: Tree, s: State, x: Ctx, a: Ctx)
    requires Inv(tr, s) && Enabled(tr, s, BindStep(x))
    requires var ph := s.phase[x];
      ph.Mark? || ph.Load? || ph.Reg? || ph.Check? || ph.Lock? || ph.Unlock? || ph.RegR?
    ensures Inherits(tr, StepBind(tr, s, x), a, x)
  {
    hide Heir, CallInv;
    assert TreeInv(tr, s, x) && Inherits(tr, s, a, x);
  }

  lemma BindStepInv(tr: Tree, s: State, x: Ctx)
    requires Inv(tr, s) && EraseInv(tr, s) && Enabled(tr, s, BindStep(x))
    ensures Inv(tr, StepBind(tr, s, x))
  {
    hide StepBind, Inherits, BindMove, CallInv, EraseInv;
    var s' := StepBind(tr, s, x);
    assert TreeInv(tr, s, x) && TreeInv(tr, s, Parent(tr, x));
    BindStepMoves(tr, s, x);
    BindStepTree(tr, s, x);
    if s' != s {
      BindMoveShape(tr, s, s', x, s'.phase[x]);
      forall a, z ensures Inherits(tr, s', a, z) {
        if z != x { OthersInherit(tr, s, s', x, a, z); }
        else {
          var ph := s.phase[x];
          if ph == Snap { SnapInherits(tr, s, x, a); }
          else if ph == Load2 { Load2Inherits(tr, s, x, a); }
          else if ph == LoadR { LoadRInherits(tr, s, x, a); }
          else if ph.Store? || ph.Store2? || ph.StoreR? { CopyInherits(tr, s, x, a); }
          else { OtherPhasesInherit(tr, s, x, a); }
        }
      }
    }
  }

  lemma BeginBindInv(tr: Tree, s: State, x: Ctx)
    requires Inv(tr, s) && Enabled(tr, s, BeginBind(x))
    ensures Inv(tr, Go(s, x, Mark))
  {
    hide Heir;
    BeginBindShape(tr, s, x);
    forall a, z ensures Inherits(tr, Go(s, x, Mark), a, z) {
      assert Inherits(tr, s, a, z) && TreeInv(tr, s, z);
    }
  }

  // --------------------------------------------------- steps of cancelling

  /** A step of call `k` that leaves the bindings alone. */
  ghost predicate CallMove(s: State, s': State, k: CallId) {
    && s' == s.(marked := s'.marked, epoch := s'.epoch, global := s'.global, holder := s'.holder, calls := s'.calls,
                asked := s'.asked, done := s'.done, early := s'.early, raced := s'.raced)
    && s.marked <= s'.marked && s.global <= s'.global && s.asked <= s'.asked
    && (s.holder != Canceller(k) ==> s'.epoch == s.epoch && s'.global == s.global)
    && (forall j :: j != k ==> (j in s'.calls <==> j in s.calls) && (j in s.calls ==> s'.calls[j] == s.calls[j]))
    && (s'.holder == s.holder || (s.holder == Nobody && s'.holder == Canceller(k) && k in s'.calls)
        || (s.holder == Canceller(k) && s'.holder == Nobody))
    && Behind(s'.epoch, s'.global + 1, 0) && s'.done <= s'.asked <= s'.marked + s'.erased
  }

  lemma CallMoveShape(tr: Tree, s: State, s': State, k: CallId)
    requires Shape(tr, s) && CallMove(s, s', k) && CallInv(tr, s', k)
    requires s'.holder == Canceller(k) ==> k in s'.calls
    ensures Shape(tr, s')
  {
    hide Ancestor;
    forall z ensures TreeInv(tr, s', z) { assert TreeInv(tr, s, z); }
    forall j ensures CallInv(tr, s', j) {
      assert CallInv(tr, s, j);
    }
  }

  lemma WinStepKeeps(tr: Tree, s: State, k: CallId, y: Ctx)
    requires Shape(tr, s) && k in s.calls && (s.calls[k].CExchange? || s.calls[k].CState?)
    ensures var s' := StepCancel(tr, s, k, y); CallMove(s, s', k) && CallInv(tr, s', k)
  {
    hide Ancestor, TreeInv, Behind, Registered;
    assert CallInv(tr, s, k);
  }

  lemma LockStepKeeps(tr: Tree, s: State, k: CallId, y: Ctx)
    requires Shape(tr, s) && k in s.calls && (s.calls[k].CLock? || s.calls[k].CCheck?)
    ensures var s' := StepCancel(tr, s, k, y); CallMove(s, s', k) && CallInv(tr, s', k)
  {
    hide Ancestor, TreeInv, Behind, Registered;
    assert CallInv(tr, s, k);
  }

  lemma EpochStepKeeps(tr: Tree, s: State, k: CallId, y: Ctx)
    requires Shape(tr, s) && k in s.calls && s.calls[k].CEpoch?
    ensures var s' := StepCancel(tr, s, k, y); CallMove(s, s', k) && CallInv(tr, s', k)
  {
    hide Ancestor, TreeInv, Registered;
    assert CallInv(tr, s, k);
  }

  lemma SyncAdvances(epoch: map<nat, nat>, global: nat, l: nat)
    requires Behind(epoch, global, l) && Behind(epoch, global + 1, 0)
    ensures Behind(epoch[l := global], global, l + 1) && Behind(epoch[l := global], global + 1, 0)
  {
    var epoch' := epoch[l := global];
    forall j: nat | j >= l + 1 ensures EpochOf(epoch', j) < global { assert EpochOf(epoch, j) < global; }
    forall j: nat | j >= 0 ensures EpochOf(epoch', j) < global + 1 { assert EpochOf(epoch, j) < global + 1; }
  }

  lemma SpreadStepKeeps(tr: Tree, s: State, k: CallId, y: Ctx)
    requires Shape(tr, s) && k in s.calls && Spreading(s.calls[k]) && !s.calls[k].CPaint?
    ensures var s' := StepCancel(tr, s, k, y); CallMove(s, s', k) && CallInv(tr, s', k)
  {
    hide TreeInv, Behind;
    assert CallInv(tr, s, k);
    if s.calls[k].CSync? { SyncAdvances(s.epoch, s.global, s.calls[k].l); }
  }

  lemma AncestorUp(tr: Tree, a: Ctx, y: Ctx)
    ensures Ancestor(tr, a, y) ==> 0 <= Parent(tr, y) && (Parent(tr, y) == a || Ancestor(tr, a, Parent(tr, y)))
  {
  }

  lemma {:induction false} AncestorTrans(tr: Tree, a: Ctx, b: Ctx, x: Ctx)
    requires Ancestor(tr, b, x) && 0 <= a && Parent(tr, b) == a
    ensures Ancestor(tr, a, x)
    decreases x
  {
    if Parent(tr, x) != b { AncestorTrans(tr, a, b, Parent(tr, x)); }
  }

  lemma PaintStepKeeps(tr: Tree, s: State, k: CallId, y: Ctx)
    requires Shape(tr, s) && k in s.calls && s.calls[k].CPaint?
    ensures var s' := StepCancel(tr, s, k, y); CallMove(s, s', k) && CallInv(tr, s', k)
  {
    var CPaint(a, l, todo, z, c) := s.calls[k];
    assert CallInv(tr, s, k);
    AncestorUp(tr, a, c);
    if c != z { AncestorTrans(tr, Parent(tr, c), c, z); } else { assert Ancestor(tr, Parent(tr, c), c); }
    hide TreeInv, Ancestor;
  }

  lemma CancelStepShape(tr: Tree, s: State, k: CallId, y: Ctx)
    requires Shape(tr, s) && k in s.calls
    ensures Shape(tr, StepCancel(tr, s, k, y))
  {
    hide TreeInv, CallMove, ScanInv;
    var s' := StepCancel(tr, s, k, y);
    if s.calls[k].CPaint? { PaintStepKeeps(tr, s, k, y); }
    else if Spreading(s.calls[k]) { SpreadStepKeeps(tr, s, k, y); }
    else if s.calls[k].CEpoch? { EpochStepKeeps(tr, s, k, y); }
    else if s.calls[k].CLock? || s.calls[k].CCheck? { LockStepKeeps(tr, s, k, y); }
    else { WinStepKeeps(tr, s, k, y); }
    assert CallInv(tr, s, k);
    CallMoveShape(tr, s, s', k);
  }

  /** A step leaves a binding's knowledge alone unless a cancellation has newly
      reached the place of `x`, and then `x` is marked. */
  lemma InheritsKept(tr: Tree, s: State, s': State, a: Ctx, x: Ctx)
    requires Inherits(tr, s, a, x)
    requires s'.phase == s.phase && s'.erased == s.erased && s.raced <= s'.raced
    requires s'.global == s.global && s.marked <= s'.marked
    requires Counts(s', a) ==> Counts(s, a)
    requires Covers(tr, s', a, x) && Heir(tr, Torn(s), a, x) ==> Covers(tr, s, a, x) || x in s'.marked
    ensures Inherits(tr, s', a, x)
  {
    hide Heir, Counts, Covers;
    if Heir(tr, Torn(s'), a, x) { HeirMonotone(tr, Torn(s), Torn(s'), a, x); }
    if Heir(tr, Torn(s'), a, Parent(tr, x)) { HeirMonotone(tr, Torn(s), Torn(s'), a, Parent(tr, x)); }
  }

  /** Before the epoch is advanced nothing counts that did not count before. */
  lemma BeginStepInherits(tr: Tree, s: State, k: CallId, y: Ctx, a: Ctx, x: Ctx)
    requires Inv(tr, s) && k in s.calls && (s.calls[k].CExchange? || s.calls[k].CLock?)
    ensures Inherits(tr, StepCancel(tr, s, k, y), a, x)
  {
    hide Heir, TreeInv;
    assert Inherits(tr, s, a, x) && CallInv(tr, s, k);
    InheritsKept(tr, s, StepCancel(tr, s, k, y), a, x);
  }

  /** A context without children has no heirs that could miss its cancellation. */
  lemma ChildlessInherits(tr: Tree, s: State, k: CallId, y: Ctx, a: Ctx, x: Ctx)
    requires Inv(tr, s) && k in s.calls && s.calls[k].CState?
    ensures Inherits(tr, StepCancel(tr, s, k, y), a, x)
  {
    var s', b, p := StepCancel(tr, s, k, y), s.calls[k].a, Parent(tr, x);
    assert Inherits(tr, s, a, x) && CallInv(tr, s, k) && TreeInv(tr, s, x) && TreeInv(tr, s, p);
    if b in s.mayHaveChildren || a != b {
      hide Heir;
      InheritsKept(tr, s, s', a, x);
    } else {
      if Heir(tr, Torn(s), a, x) && x in s.phase {
        HeirIsBelow(tr, Torn(s), a, x);
        AboveIsBound(tr, s, a, x);
      }
      if Heir(tr, Torn(s), a, p) && x in s.phase {
        HeirIsBelow(tr, Torn(s), a, p);
        assert p in s.phase;
        AboveIsBound(tr, s, a, p);
      }
      hide Heir;
    }
  }

  lemma CheckInherits(tr: Tree, s: State, k: CallId, y: Ctx, a: Ctx, x: Ctx)
    requires Inv(tr, s) && k in s.calls && s.calls[k].CCheck?
    ensures Inherits(tr, StepCancel(tr, s, k, y), a, x)
  {
    hide Heir, TreeInv;
    assert Inherits(tr, s, a, x) && CallInv(tr, s, k);
    InheritsKept(tr, s, StepCancel(tr, s, k, y), a, x);
  }

  /** Advancing the epoch takes the trust out of every snapshot taken before. */
  lemma EpochInherits(tr: Tree, s: State, k: CallId, y: Ctx, a: Ctx, x: Ctx)
    requires Inv(tr, s) && k in s.calls && s.calls[k].CEpoch?
    ensures Inherits(tr, StepCancel(tr, s, k, y), a, x)
  {
    hide Heir;
    assert Inherits(tr, s, a, x) && CallInv(tr, s, k) && TreeInv(tr, s, x);
  }

  lemma NotOwnHeir(tr: Tree, bad: set<Ctx>, a: Ctx, y: Ctx)
    requires y == a || !Ancestor(tr, a, y)
    ensures !Heir(tr, bad, a, y)
  {
    if Heir(tr, bad, a, y) { HeirIsBelow(tr, bad, a, y); AncestorBelow(tr, a, y); }
  }

  /** A scan only moves past contexts that are marked or not concerned. */
  lemma ScanInherits(tr: Tree, s: State, k: CallId, y: Ctx, a: Ctx, x: Ctx)
    requires Inv(tr, s) && k in s.calls && Spreading(s.calls[k]) && !s.calls[k].CPaint?
    ensures Inherits(tr, StepCancel(tr, s, k, y), a, x)
  {
    hide Heir, TreeInv, Behind;
    var b := s.calls[k].a;
    assert Inherits(tr, s, a, x) && CallInv(tr, s, k);
    if x == b || !Ancestor(tr, b, x) { NotOwnHeir(tr, Torn(s), b, x); }
    if Registered(tr, s.phase, x) {
      InheritsKept(tr, s, StepCancel(tr, s, k, y), a, x);
    }
  }

  lemma PaintInherits(tr: Tree, s: State, k: CallId, y: Ctx, a: Ctx, x: Ctx)
    requires Inv(tr, s) && k in s.calls && s.calls[k].CPaint?
    ensures Inherits(tr, StepCancel(tr, s, k, y), a, x)
  {
    hide TreeInv, Behind;
    assert Inherits(tr, s, a, x) && CallInv(tr, s, k);
    if Heir(tr, Torn(s), a, x) { HeirIsBelow(tr, Torn(s), a, x); }
    hide Heir, Ancestor;
    InheritsKept(tr, s, StepCancel(tr, s, k, y), a, x);
  }

  lemma CancelStepInv(tr: Tree, s: State, k: CallId, y: Ctx)
    requires Inv(tr, s) && k in s.calls
    ensures Inv(tr, StepCancel(tr, s, k, y))
  {
    hide StepCancel, Inherits, Shape;
    CancelStepShape(tr, s, k, y);
    forall a, x ensures Inherits(tr, StepCancel(tr, s, k, y), a, x) {
      var c := s.calls[k];
      if c.CState? { ChildlessInherits(tr, s, k, y, a, x); }
      else if c.CCheck? { CheckInherits(tr, s, k, y, a, x); }
      else if c.CEpoch? { EpochInherits(tr, s, k, y, a, x); }
      else if c.CPaint? { PaintInherits(tr, s, k, y, a, x); }
      else if Spreading(c) { ScanInherits(tr, s, k, y, a, x); }
      else { BeginStepInherits(tr, s, k, y, a, x); }
    }
  }

  lemma StepInv(tr: Tree, s: State, e: Event)
    requires Inv(tr, s) && EraseInv(tr, s) && Enabled(tr, s, e)
    ensures Inv(tr, Step(tr, s, e))
  {
    hide StepBind, StepCancel, Inherits, EraseInv;
    match e
    case BeginBind(x) => BeginBindInv(tr, s, x);
    case BindStep(x) => BindStepInv(tr, s, x);
    case BeginCancel(k, a) => BeginCancelInv(tr, s, k, a);
    case CancelStep(k, y) => CancelStepInv(tr, s, k, y);
  }

  lemma BeginCancelInv(tr: Tree, s: State, k: CallId, a: Ctx)
    requires Inv(tr, s) && Enabled(tr, s, BeginCancel(k, a))
    ensures Inv(tr, Step(tr, s, BeginCancel(k, a)))
  {
    hide Heir, TreeInv;
    var s' := At(s, k, CExchange(a));
    assert CallInv(tr, s, k);
    CallMoveShape(tr, s, s', k);
    forall b, x ensures Inherits(tr, s', b, x) {
      assert Inherits(tr, s, b, x);
      InheritsKept(tr, s, s', b, x);
    }
  }

  // ------------------------------------------- which marks can be overwritten

  /** The call that holds the lock is about to mark `p`. */
  predicate Painting(s: State, p: Ctx) {
    s.holder.Canceller? && s.holder.k in s.calls && s.calls[s.holder.k].CPaint? && s.calls[s.holder.k].c == p
  }

  /** Where the mark of a context comes from while it is being bound: somebody
      cancelled the context itself, or its parent is marked too. */
  predicate Source(tr: Tree, s: State, x: Ctx) {
    var p := Parent(tr, x);
    var fromParent := x in s.marked ==> x in s.asked || p in s.marked || Painting(s, p);
    match PhaseOf(tr, s.phase, x)
    case Unbound => x in s.marked ==> x in s.asked
    case Mark => x in s.marked ==> x in s.asked
    case Snap => x in s.marked ==> x in s.asked
    case Load(_) => x in s.marked ==> x in s.asked
    case RegR => x in s.marked ==> x in s.asked
    case Store(_, v) => (x in s.marked ==> x in s.asked) && (v ==> p in s.marked)
    case LoadR => fromParent
    case StoreR(v) => fromParent && (!v && p in s.marked ==> x in s.raced)
    case Store2(v) => (x in s.marked ==> x in s.asked || v) && (v ==> p in s.marked)
    case Bound => p < 0 && x in s.marked ==> x in s.asked
    case _ => fromParent
  }

  ghost predicate EraseInv(tr: Tree, s: State) {
    && (forall x :: Source(tr, s, x))
    && (forall x :: x in s.asked && PhaseOf(tr, s.phase, x) != Bound ==> x in s.early)
    && s.erased <= s.early + s.raced
    && forall x :: x in s.raced ==> Parent(tr, Parent(tr, x)) < 0
  }

  lemma OthersSource(tr: Tree, s: State, s': State, x: Ctx, z: Ctx)
    requires Shape(tr, s) && Source(tr, s, z) && z != x
    requires x in s'.phase && BindMove(tr, s, s', x, s'.phase[x])
    ensures Source(tr, s', z)
  {
    hide CallInv, Registered;
    assert TreeInv(tr, s, z) && TreeInv(tr, s, x);
  }

  lemma OwnSource(tr: Tree, s: State, x: Ctx)
    requires Shape(tr, s) && EraseInv(tr, s) && Enabled(tr, s, BindStep(x))
    ensures Source(tr, StepBind(tr, s, x), x)
  {
    hide CallInv;
    var p := Parent(tr, x);
    assert TreeInv(tr, s, x) && TreeInv(tr, s, p) && Source(tr, s, x) && Source(tr, s, p);
  }

  /** Only roots have no parent, and roots are never painted. */
  lemma RootsAreNotPainted(tr: Tree, s: State, p: Ctx)
    requires Shape(tr, s) && Parent(tr, p) < 0
    ensures !Painting(s, p)
  {
    if Painting(s, p) {
      assert CallInv(tr, s, s.holder.k);
      AncestorBelow(tr, s.calls[s.holder.k].a, p);
    }
  }

  lemma ErasedHasCause(tr: Tree, s: State, x: Ctx)
    requires Shape(tr, s) && EraseInv(tr, s) && Enabled(tr, s, BindStep(x))
    ensures StepBind(tr, s, x).erased <= s.early + s.raced
  {
    hide CallInv;
    assert TreeInv(tr, s, x) && Source(tr, s, x);
    if s.phase[x].StoreR? { RootsAreNotPainted(tr, s, Parent(tr, x)); }
  }

  lemma BindStepErase(tr: Tree, s: State, x: Ctx)
    requires Shape(tr, s) && EraseInv(tr, s) && Enabled(tr, s, BindStep(x))
    ensures EraseInv(tr, StepBind(tr, s, x))
  {
    var s' := StepBind(tr, s, x);
    ErasedHasCause(tr, s, x);
    hide StepBind, BindMove, Source, CallInv, TreeInv;
    BindStepMoves(tr, s, x);
    OwnSource(tr, s, x);
    if s' != s {
      forall z ensures Source(tr, s', z) {
        if z != x { OthersSource(tr, s, s', x, z); }
      }
    }
  }

  lemma WinErase(tr: Tree, s: State, k: CallId, y: Ctx)
    requires Shape(tr, s) && EraseInv(tr, s) && k in s.calls && s.calls[k].CExchange?
    ensures EraseInv(tr, StepCancel(tr, s, k, y))
  {
    hide Registered, Behind;
    var s' := StepCancel(tr, s, k, y);
    assert CallInv(tr, s, k);
    forall x ensures Source(tr, s', x) {
      assert Source(tr, s, x) && TreeInv(tr, s, x);
    }
    forall x | x in s'.raced ensures Parent(tr, Parent(tr, x)) < 0 {
      assert TreeInv(tr, s, x);
    }
  }

  /** Only registered contexts and bound ones above them are painted, and their
      parents follow. */
  lemma PaintErase(tr: Tree, s: State, k: CallId, y: Ctx)
    requires Shape(tr, s) && EraseInv(tr, s) && k in s.calls && s.calls[k].CPaint?
    ensures EraseInv(tr, StepCancel(tr, s, k, y))
  {
    var s', c := StepCancel(tr, s, k, y), s.calls[k];
    assert CallInv(tr, s, k);
    if c.c != c.y { AboveIsBound(tr, s, c.c, c.y); }
    AncestorBelow(tr, c.a, c.c);
    hide Ancestor, CallInv, Behind;
    forall x ensures Source(tr, s', x) {
      assert Source(tr, s, x) && TreeInv(tr, s, x);
    }
  }

  lemma OtherStepErase(tr: Tree, s: State, k: CallId, y: Ctx)
    requires Shape(tr, s) && EraseInv(tr, s) && k in s.calls && !s.calls[k].CExchange? && !s.calls[k].CPaint?
    ensures EraseInv(tr, StepCancel(tr, s, k, y))
  {
    hide Registered, Behind, Ancestor, TreeInv, EpochOf, Painting, Source;
    var s' := StepCancel(tr, s, k, y);
    OtherStepPaints(tr, s, k, y);
    forall x ensures Source(tr, s', x) {
      assert Source(tr, s, x);
      SourceKept(tr, s, s', x);
    }
  }

  lemma OtherStepPaints(tr: Tree, s: State, k: CallId, y: Ctx)
    requires Shape(tr, s) && k in s.calls && !s.calls[k].CExchange? && !s.calls[k].CPaint?
    ensures forall p :: Painting(s, p) ==> Painting(StepCancel(tr, s, k, y), p)
  {
    hide Registered, Behind, Ancestor, TreeInv, EpochOf, ScanInv;
    assert CallInv(tr, s, k) && (s.holder.Canceller? ==> CallInv(tr, s, s.holder.k));
  }

  lemma SourceKept(tr: Tree, s: State, s': State, x: Ctx)
    requires Source(tr, s, x) && s'.phase == s.phase && s'.marked == s.marked && s'.asked == s.asked && s'.raced == s.raced
    requires forall p :: Painting(s, p) ==> Painting(s', p)
    ensures Source(tr, s', x)
  {
    hide Painting;
  }

  lemma StepErase(tr: Tree, s: State, e: Event)
    requires Shape(tr, s) && EraseInv(tr, s) && Enabled(tr, s, e)
    ensures EraseInv(tr, Step(tr, s, e))
  {
    match e
    case BeginBind(x) =>
      hide CallInv, Registered, Behind;
      forall z ensures Source(tr, Go(s, x, Mark), z) {
        assert Source(tr, s, z) && TreeInv(tr, s, z);
      }
    case BindStep(x) => hide *; BindStepErase(tr, s, x);
    case BeginCancel(k, a) =>
      hide CallInv, Registered, Behind;
      forall z ensures Source(tr, At(s, k, CExchange(a)), z) { assert Source(tr, s, z) && CallInv(tr, s, k); }
    case CancelStep(k, y) =>
      hide *;
      if s.calls[k].CExchange? { WinErase(tr, s, k, y); }
      else if s.calls[k].CPaint? { PaintErase(tr, s, k, y); }
      else { OtherStepErase(tr, s, k, y); }
  }

  // --------------------------------------------------------- main results

  ghost predicate Reachable(tr: Tree, s: State) {
    exists es :: CanRun(tr, Init, es) && Run(tr, Init, es) == s
  }

  lemma {:induction false} RunInv(tr: Tree, s: State, es: seq<Event>)
    requires Inv(tr, s) && EraseInv(tr, s) && CanRun(tr, s, es)
    ensures Inv(tr, Run(tr, s, es)) && EraseInv(tr, Run(tr, s, es))
    decreases |es|
  {
    hide Inherits, EraseInv, Step, Enabled, TreeInv, CallInv;
    if es != [] {
      StepInv(tr, s, es[0]);
      StepErase(tr, s, es[0]);
      RunInv(tr, Step(tr, s, es[0]), es[1..]);
    }
  }

  lemma ReachableInv(tr: Tree, s: State)
    requires WellFormed(tr) && Reachable(tr, s)
    ensures Inv(tr, s) && EraseInv(tr, s)
  {
    var es :| CanRun(tr, Init, es) && Run(tr, Init, es) == s;
    InitInv(tr);
    RunInv(tr, Init, es);
  }

  /** No lost cancellation: once a cancellation of `a` and the binding of `x`
      below `a` have finished, in whatever interleaving, `x` is marked, unless the
      mark of `a` itself was overwritten or that of a context on the way from `a`
      to `x` was torn. */
  lemma NoLostCancellation(tr: Tree, s: State, a: Ctx, x: Ctx)
    requires WellFormed(tr) && Reachable(tr, s)
    requires a in s.done && PhaseOf(tr, s.phase, x) == Bound
    requires a !in s.erased && Heir(tr, Torn(s), a, x)
    ensures x in s.marked
  {
    ReachableInv(tr, s);
    assert Inherits(tr, s, a, x);
  }

  /** The same with conditions on the calls: `a` was bound when it was cancelled, or
      had no isolated parent that was cancelled within its copy, and neither was
      any context on the way. Contexts cancelled before they were bound do no harm. */
  lemma CancelledWhenBound(tr: Tree, s: State, a: Ctx, x: Ctx)
    requires WellFormed(tr) && Reachable(tr, s)
    requires a in s.done && PhaseOf(tr, s.phase, x) == Bound
    requires a !in s.early + s.raced && Heir(tr, s.raced, a, x)
    ensures x in s.marked
  {
    ReachableInv(tr, s);
    HeirMonotone(tr, Torn(s), s.raced, a, x);
    NoLostCancellation(tr, s, a, x);
  }

  /** On the epoch path nothing is lost: a context whose parent has a parent is marked
      if a cancellation has reached that parent, however the two overlapped. */
  lemma EpochPathInherits(tr: Tree, s: State, a: Ctx, p: Ctx, x: Ctx)
    requires WellFormed(tr) && Reachable(tr, s)
    requires Parent(tr, x) == p && Parent(tr, p) >= 0 && PhaseOf(tr, s.phase, x) == Bound
    requires a in s.done && a !in s.erased && (p == a || Heir(tr, Torn(s), a, p))
    ensures x in s.marked
  {
    ReachableInv(tr, s);
    NoLostCancellation(tr, s, a, x);
  }

  lemma {:induction false} RunSnoc(tr: Tree, s: State, es: seq<Event>, e: Event)
    requires CanRun(tr, s, es) && Enabled(tr, Run(tr, s, es), e)
    ensures CanRun(tr, s, es + [e]) && Run(tr, s, es + [e]) == Step(tr, Run(tr, s, es), e)
    decreases |es|
  {
    hide Step, Enabled;
    if es == [] {
      assert [] + [e] == [e] && [e][1..] == [];
    } else {
      RunSnoc(tr, Step(tr, s, es[0]), es[1..], e);
      assert (es + [e])[1..] == es[1..] + [e];
    }
  }

  lemma Then(tr: Tree, s: State, e: Event)
    requires Reachable(tr, s) && Enabled(tr, s, e)
    ensures Reachable(tr, Step(tr, s, e))
  {
    var es :| CanRun(tr, Init, es) && Run(tr, Init, es) == s;
    RunSnoc(tr, Init, es, e);
  }

  lemma Start(tr: Tree)
    ensures Reachable(tr, Init)
  {
    assert CanRun(tr, Init, []);
  }

  const PAIR := Tree([-1, 0], [0, 0], 1)
  const CHAIN := Tree([-1, 0, 1], [0, 0, 0], 1)

  lemma Do(tr: Tree, s: State, e: Event) returns (s': State)
    requires Reachable(tr, s) && Enabled(tr, s, e)
    ensures s' == Step(tr, s, e) && Reachable(tr, s')
  {
    Then(tr, s, e);
    s' := Step(tr, s, e);
  }

  /** Context 1 has read the mark of its isolated parent 0. */
  function MarkRead(): State {
    Init.(phase := map[1 := StoreR(false)], mayHaveChildren := {0})
  }

  lemma ReadsMark(tr: Tree)
    requires WellFormed(tr) && |tr.parent| >= 2 && tr.parent[0] == -1 && tr.parent[1] == 0
    ensures Reachable(tr, MarkRead())
  {
    hide Reachable;
    Start(tr);
    var s := Do(tr, Init, BeginBind(1));
    assert s.phase == map[1 := Mark];
    s := Do(tr, s, BindStep(1));
    assert s.phase == map[1 := RegR] && s.mayHaveChildren == {0};
    s := Do(tr, s, BindStep(1));
    assert s.phase == map[1 := LoadR];
    s := Do(tr, s, BindStep(1));
    assert s.phase == map[1 := StoreR(false)];
  }

  /** Meanwhile a call wins the exchange on 0 ... */
  function Won(): State {
    MarkRead().(marked := {0}, asked := {0}, raced := {1}, calls := map[0 := CState(0)])
  }

  lemma WinsExchange()
    ensures Reachable(PAIR, Won())
  {
    hide Reachable;
    ReadsMark(PAIR);
    var s := Do(PAIR, MarkRead(), BeginCancel(0, 0));
    assert (set x | x in s.phase && Parent(PAIR, x) == 0 && s.phase[x].StoreR?) == {1};
    s := Do(PAIR, s, CancelStep(0, 1));
    assert s.calls == Won().calls && s.raced == {1} && s.marked == {0} && s.asked == {0} && s.early == {};
  }

  /** ... and begins to scan the list. */
  function ScanBegun(): State {
    MarkRead().(marked := {0}, asked := {0}, raced := {1}, global := 1, holder := Canceller(0),
                calls := map[0 := CScan(0, 0, {1})])
  }

  lemma BeginsScan()
    ensures Reachable(PAIR, ScanBegun())
  {
    hide Reachable;
    WinsExchange();
    var s := Do(PAIR, Won(), CancelStep(0, 1));
    s := Do(PAIR, s, CancelStep(0, 1));
    s := Do(PAIR, s, CancelStep(0, 1));
    s := Do(PAIR, s, CancelStep(0, 1));
    assert s.calls == map[0 := CList(0, 0)];
    assert (set x | x in s.phase && Registered(PAIR, s.phase, x) && ListOf(PAIR, x) == 0) == {1};
    s := Do(PAIR, s, CancelStep(0, 1));
    assert s.calls == ScanBegun().calls;
  }

  lemma Paints()
    ensures Reachable(PAIR, ScanBegun().(marked := {0, 1}, calls := map[0 := CScan(0, 0, {})]))
  {
    hide Reachable;
    BeginsScan();
    var s := Do(PAIR, ScanBegun(), CancelStep(0, 1));
    s := Do(PAIR, s, CancelStep(0, 1));
    assert {1} - {1} == {};
    assert s.calls == map[0 := CScan(0, 0, {})] && s.marked == {0, 1};
  }

  /** The call has marked 1 and returned. */
  function ScanOver(): State {
    ScanBegun().(marked := {0, 1}, epoch := map[0 := 1], holder := Nobody, calls := map[], done := {0})
  }

  lemma EndsScan()
    ensures Reachable(PAIR, ScanOver())
  {
    hide Reachable;
    Paints();
    var s := ScanBegun().(marked := {0, 1}, calls := map[0 := CScan(0, 0, {})]);
    s := Do(PAIR, s, CancelStep(0, 1));
    s := Do(PAIR, s, CancelStep(0, 1));
    s := Do(PAIR, s, CancelStep(0, 1));
    s := Do(PAIR, s, CancelStep(0, 1));
    assert s.calls == map[] && s.epoch == map[0 := 1] && s.done == {0};
  }

  /** In the branch for a parent without a parent the copy of the mark is a load
      and a store after the registration: a cancellation of the parent that runs
      in between has its mark on the child overwritten. */
  lemma TornCopyLosesCancellation()
    ensures WellFormed(PAIR) && Parent(PAIR, 1) == 0
    ensures exists s :: Reachable(PAIR, s) && s.calls == map[] && 0 in s.done && PhaseOf(PAIR, s.phase, 1) == Bound && 1 in s.raced && 1 !in s.marked
  {
    hide Reachable;
    EndsScan();
    var s := Do(PAIR, ScanOver(), BindStep(1));
  }

  /** Context 1 is bound to the isolated context 0, and 2, not bound yet, has been cancelled. */
  function CancelledEarly(): State {
    Init.(phase := map[1 := Bound], mayHaveChildren := {0}, marked := {2}, asked := {2}, done := {2}, early := {2})
  }

  lemma BindsOne()
    ensures Reachable(CHAIN, Init.(phase := map[1 := Bound], mayHaveChildren := {0}))
  {
    hide Reachable;
    ReadsMark(CHAIN);
    var s := Do(CHAIN, MarkRead(), BindStep(1));
    assert s.phase == map[1 := Bound] && s.marked == {};
  }

  lemma CancelsEarly()
    ensures Reachable(CHAIN, CancelledEarly())
  {
    hide Reachable;
    BindsOne();
    var s := Do(CHAIN, Init.(phase := map[1 := Bound], mayHaveChildren := {0}), BeginCancel(0, 2));
    s := Do(CHAIN, s, CancelStep(0, 0));
    s := Do(CHAIN, s, CancelStep(0, 0));
    assert s.calls == map[] && s.done == {2} && s.marked == {2} && s.early == {2} && s.asked == {2} && s.raced == {};
  }

  function Overwritten(): State {
    CancelledEarly().(phase := map[1 := Bound, 2 := Reg(0)], mayHaveChildren := {0, 1}, marked := {}, erased := {2})
  }

  lemma Overwrites()
    ensures Reachable(CHAIN, Overwritten())
  {
    hide Reachable;
    CancelsEarly();
    var s := Do(CHAIN, CancelledEarly(), BeginBind(2));
    s := Do(CHAIN, s, BindStep(2));
    s := Do(CHAIN, s, BindStep(2));
    s := Do(CHAIN, s, BindStep(2));
    s := Do(CHAIN, s, BindStep(2));
    assert s.phase == Overwritten().phase && s.mayHaveChildren == {0, 1} && s.marked == {} && s.erased == {2};
  }

  /** A context cancelled before it is bound to an unmarked parent has its own
      mark overwritten by the copy. */
  lemma EarlyCancelIsLost()
    ensures WellFormed(CHAIN) && Parent(CHAIN, 2) == 1 && Parent(CHAIN, 1) == 0
    ensures exists s :: Reachable(CHAIN, s) && s.calls == map[] && 2 in s.done && PhaseOf(CHAIN, s.phase, 2) == Bound && 2 in s.early && 2 !in s.marked
  {
    hide Reachable;
    Overwrites();
    var s := Do(CHAIN, Overwritten(), BindStep(2));
    s := Do(CHAIN, s, BindStep(2));
  }
}
