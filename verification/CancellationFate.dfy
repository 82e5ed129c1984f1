/** Exactly when cancellations are lost. With no further cancellation the mark a
    context ends up with can be read off the state, whatever the interleaving of
    the bindings; and a cancelled parent without a parent fails to mark a child
    exactly when the copy overwrote the mark it had made. */
module CancellationFate {
  import opened Cancellation

  // ------------------------------------------------- runs of bindings only

  predicate Binds(e: Event) { e.BeginBind? || e.BindStep? }

  ghost predicate BindRun(tr: Tree, s: State, es: seq<Event>) {
    CanRun(tr, s, es) && forall e <- es :: Binds(e)
  }

  ghost predicate Good(tr: Tree, s: State) { Inv(tr, s) && EraseInv(tr, s) }

  lemma GoodShape(tr: Tree, s: State)
    requires Good(tr, s)
    ensures Shape(tr, s)
  {
    hide Shape;
  }

  /** Whether `x` is marked once it is bound if nobody cancels anything any more.
      `p` is what its parent ends up with: that is copied unless a copy has been
      read already, and trusted only if the epoch seen is still the global one. */
  predicate EndsMarked(tr: Tree, s: State, x: Ctx)
    decreases x
  {
    var p := 0 <= Parent(tr, x) < x && EndsMarked(tr, s, Parent(tr, x));
    match PhaseOf(tr, s.phase, x)
    case Store(e, v) => if e == s.global then v else p
    case Reg(e) => if e == s.global then x in s.marked else p
    case Check(e) => if e == s.global then x in s.marked else p
    case Store2(v) => v
    case StoreR(v) => v
    case Unlock => x in s.marked
    case Bound => x in s.marked
    case _ => p
  }

  /** A step of binding of another context. */
  predicate Apart(tr: Tree, s: State, s': State, x: Ctx) {
    && PhaseOf(tr, s'.phase, x) == PhaseOf(tr, s.phase, x) && (x in s'.marked <==> x in s.marked)
    && s'.global == s.global && (x in s'.erased <==> x in s.erased)
  }

  lemma ApartStep(tr: Tree, s: State, e: Event, x: Ctx)
    requires Enabled(tr, s, e) && Binds(e) && e.x != x
    ensures Apart(tr, s, Step(tr, s, e), x)
  {
  }

  /** A step of the binding of `x` itself, below a parent that is bound. */
  lemma OwnCopyFate(tr: Tree, s: State, e: Event, x: Ctx)
    requires Shape(tr, s) && Enabled(tr, s, e) && Binds(e) && e.x == x && Copying(PhaseOf(tr, s.phase, x))
    requires Apart(tr, s, Step(tr, s, e), Parent(tr, x))
    requires EndsMarked(tr, Step(tr, s, e), Parent(tr, x)) == EndsMarked(tr, s, Parent(tr, x))
    ensures EndsMarked(tr, Step(tr, s, e), x) == EndsMarked(tr, s, x)
  {
    hide CallInv;
    assert TreeInv(tr, s, x);
  }

  lemma OwnStepFate(tr: Tree, s: State, e: Event, x: Ctx)
    requires Shape(tr, s) && Enabled(tr, s, e) && Binds(e) && e.x == x && !Copying(PhaseOf(tr, s.phase, x))
    requires Apart(tr, s, Step(tr, s, e), Parent(tr, x))
    requires EndsMarked(tr, Step(tr, s, e), Parent(tr, x)) == EndsMarked(tr, s, Parent(tr, x))
    ensures EndsMarked(tr, Step(tr, s, e), x) == EndsMarked(tr, s, x)
  {
    hide CallInv, Registered, Copy;
    assert TreeInv(tr, s, x);
  }

  lemma {:induction false} StepFate(tr: Tree, s: State, e: Event, x: Ctx)
    requires Shape(tr, s) && Enabled(tr, s, e) && Binds(e)
    ensures EndsMarked(tr, Step(tr, s, e), x) == EndsMarked(tr, s, x)
    decreases x
  {
    hide Step, Enabled, Shape;
    var p := Parent(tr, x);
    if 0 <= p < x { StepFate(tr, s, e, p); }
    if e.x == x {
      ParentBelow(tr, s, e);
      ApartStep(tr, s, e, p);
      if Copying(PhaseOf(tr, s.phase, x)) { OwnCopyFate(tr, s, e, x); } else { OwnStepFate(tr, s, e, x); }
    } else {
      ApartStep(tr, s, e, x);
    }
  }

  lemma ParentBelow(tr: Tree, s: State, e: Event)
    requires Shape(tr, s) && Enabled(tr, s, e) && Binds(e)
    ensures 0 <= Parent(tr, e.x) < e.x
  {
    assert TreeInv(tr, s, e.x);
  }

  /** The fate of `x` is the same after every run of bindings. */
  lemma {:induction false} FateIsSealed(tr: Tree, s: State, es: seq<Event>, x: Ctx)
    requires Good(tr, s) && BindRun(tr, s, es)
    ensures EndsMarked(tr, Run(tr, s, es), x) == EndsMarked(tr, s, x)
    decreases |es|
  {
    hide EndsMarked, Inv, EraseInv, Step, Enabled;
    if es != [] {
      GoodShape(tr, s);
      StepFate(tr, s, es[0], x);
      StepInv(tr, s, es[0]);
      StepErase(tr, s, es[0]);
      FateIsSealed(tr, Step(tr, s, es[0]), es[1..], x);
    }
  }

  // --------------------------------------------- every binding can be ended

  /** Bindings alone lead from `s` to `s'`. */
  ghost predicate Leads(tr: Tree, s: State, s': State) {
    exists es :: BindRun(tr, s, es) && Run(tr, s, es) == s'
  }

  /** What bindings leave alone. */
  predicate SameCancels(s: State, s': State) {
    s'.calls == s.calls && s'.asked == s.asked && s'.done == s.done && s'.early == s.early && s'.global == s.global
  }

  lemma LeadsOn(tr: Tree, s: State, s': State, e: Event)
    requires Leads(tr, s, s') && Enabled(tr, s', e) && Binds(e)
    ensures Leads(tr, s, Step(tr, s', e))
  {
    var es :| BindRun(tr, s, es) && Run(tr, s, es) == s';
    hide Step, Enabled;
    RunSnoc(tr, s, es, e);
    assert BindRun(tr, s, es + [e]);
  }

  lemma BindStepSame(tr: Tree, s: State, e: Event)
    requires Enabled(tr, s, e) && Binds(e)
    ensures SameCancels(s, Step(tr, s, e))
  {
  }

  lemma Moves(tr: Tree, s0: State, s: State, e: Event)
    requires Leads(tr, s0, s) && SameCancels(s0, s) && Good(tr, s) && Enabled(tr, s, e) && Binds(e)
    ensures var s' := Step(tr, s, e); Leads(tr, s0, s') && SameCancels(s0, s') && Good(tr, s')
  {
    hide Step, Enabled, Inv, EraseInv, Leads;
    GoodShape(tr, s);
    LeadsOn(tr, s0, s, e);
    BindStepSame(tr, s, e);
    StepInv(tr, s, e);
    StepErase(tr, s, e);
  }

  function Rank(ph: Phase): nat {
    match ph
    case Unbound => 11 case Mark => 10 case Snap => 9 case Load(_) => 8 case Store(_, _) => 7
    case Reg(_) => 6 case Check(_) => 5 case Lock => 4 case Load2 => 3 case Store2(_) => 2 case Unlock => 1
    case RegR => 3 case LoadR => 2 case StoreR(_) => 1 case Bound => 0
  }

  /** With no call in progress and the lock not in another hand a binding goes on. */
  lemma StepProgress(tr: Tree, s: State, x: Ctx)
    requires Shape(tr, s) && s.calls == map[] && s.holder in {Nobody, Binder(x)}
    requires Enabled(tr, s, BindStep(x))
    ensures var s' := StepBind(tr, s, x);
      x in s'.phase && s.phase.Keys <= s'.phase.Keys && Rank(s'.phase[x]) < Rank(s.phase[x]) && s'.holder in {Nobody, Binder(x)}
  {
    hide CallInv, Registered;
    assert TreeInv(tr, s, x);
  }

  lemma {:induction false} Finish(tr: Tree, s0: State, s: State, x: Ctx) returns (s': State)
    requires Leads(tr, s0, s) && SameCancels(s0, s) && Good(tr, s)
    requires s.calls == map[] && s.holder in {Nobody, Binder(x)} && x in s.phase
    ensures Leads(tr, s0, s') && SameCancels(s0, s') && Good(tr, s')
    ensures PhaseOf(tr, s'.phase, x) == Bound && s'.holder == Nobody && s.phase.Keys <= s'.phase.Keys
    decreases Rank(s.phase[x])
  {
    hide Inherits, EraseInv, Leads, CallInv, StepBind, Rank, Registered;
    assert TreeInv(tr, s, x);
    if s.phase[x] == Bound {
      s' := s;
    } else {
      StepProgress(tr, s, x);
      Moves(tr, s0, s, BindStep(x));
      s' := Finish(tr, s0, StepBind(tr, s, x), x);
    }
  }

  lemma FreeLock(tr: Tree, s0: State, s: State) returns (s': State)
    requires Leads(tr, s0, s) && SameCancels(s0, s) && Good(tr, s) && s.calls == map[]
    ensures Leads(tr, s0, s') && SameCancels(s0, s') && Good(tr, s')
    ensures s'.holder == Nobody && s.phase.Keys <= s'.phase.Keys
  {
    hide Inherits, EraseInv, Leads, CallInv;
    s' := s;
    if s.holder.Binder? {
      assert TreeInv(tr, s, s.holder.x);
      s' := Finish(tr, s0, s, s.holder.x);
    }
  }

  /** With no call in progress, bindings alone bring every context to its parent:
      first the parent, then whoever has the lock, then the context. */
  lemma {:induction false} BindingCompletes(tr: Tree, s0: State, s: State, x: Ctx) returns (s': State)
    requires Leads(tr, s0, s) && SameCancels(s0, s) && Good(tr, s) && s.calls == map[]
    ensures Leads(tr, s0, s') && SameCancels(s0, s') && Good(tr, s') && PhaseOf(tr, s'.phase, x) == Bound
    decreases x
  {
    hide Inherits, EraseInv, Leads, CallInv;
    s' := s;
    var p := Parent(tr, x);
    assert TreeInv(tr, s, x);
    if p >= 0 && x !in s.phase {
      s' := BindingCompletes(tr, s0, s', p);
      if x !in s'.phase {
        Moves(tr, s0, s', BeginBind(x));
        s' := Step(tr, s', BeginBind(x));
        assert x in s'.phase;
      }
    }
    if p >= 0 {
      var s1 := FreeLock(tr, s0, s');
      s' := Finish(tr, s0, s1, x);
    }
  }

  lemma ReachableGood(tr: Tree, s: State)
    requires WellFormed(tr) && Reachable(tr, s)
    ensures Good(tr, s) && Leads(tr, s, s)
  {
    ReachableInv(tr, s);
    assert BindRun(tr, s, []);
  }

  lemma {:induction false} RunJoin(tr: Tree, s: State, es: seq<Event>, es': seq<Event>)
    requires CanRun(tr, s, es) && CanRun(tr, Run(tr, s, es), es')
    ensures CanRun(tr, s, es + es') && Run(tr, s, es + es') == Run(tr, Run(tr, s, es), es')
    decreases |es|
  {
    hide Step, Enabled;
    if es == [] {
      assert [] + es' == es';
    } else {
      RunJoin(tr, Step(tr, s, es[0]), es[1..], es');
      assert (es + es')[1..] == es[1..] + es';
    }
  }

  lemma LedToIsReachable(tr: Tree, s: State, s': State)
    requires Reachable(tr, s) && Leads(tr, s, s')
    ensures Reachable(tr, s')
  {
    hide Step, Enabled, CanRun, Run;
    var es :| CanRun(tr, Init, es) && Run(tr, Init, es) == s;
    var es' :| BindRun(tr, s, es') && Run(tr, s, es') == s';
    RunJoin(tr, Init, es, es');
  }

  /** Bindings may be interleaved in any way and some of them never go on: once `x`
      is bound it is marked if and only if that was its fate. */
  lemma BoundAsFated(tr: Tree, s: State, s': State, x: Ctx)
    requires WellFormed(tr) && Reachable(tr, s)
    requires Leads(tr, s, s') && PhaseOf(tr, s'.phase, x) == Bound
    ensures x in s'.marked <==> EndsMarked(tr, s, x)
  {
    ReachableGood(tr, s);
    var es :| BindRun(tr, s, es) && Run(tr, s, es) == s';
    hide Inv, EraseInv, CanRun, Run;
    FateIsSealed(tr, s, es, x);
  }

  /** With no call in progress `x` is sure to be marked in the end, its own
      cancellation or an inherited one, if and only if the state says so. */
  lemma SureIffFated(tr: Tree, s: State, x: Ctx)
    requires WellFormed(tr) && Reachable(tr, s) && s.calls == map[]
    ensures (forall s' :: Leads(tr, s, s') && PhaseOf(tr, s'.phase, x) == Bound ==> x in s'.marked) <==> EndsMarked(tr, s, x)
  {
    hide Reachable, EndsMarked, Leads, Inv, EraseInv;
    ReachableGood(tr, s);
    var s1 := BindingCompletes(tr, s, s, x);
    BoundAsFated(tr, s, s1, x);
    forall s' | Leads(tr, s, s') && PhaseOf(tr, s'.phase, x) == Bound ensures x in s'.marked <==> EndsMarked(tr, s, x) {
      BoundAsFated(tr, s, s', x);
    }
  }

  // ------------------------------------- a context and its own cancellation

  /** ... and isolated contexts have no binding that could take their mark. */
  ghost predicate KeepsOwn(tr: Tree, s: State) {
    && (forall x :: x in s.asked && x !in s.early ==> x in s.marked)
    && (forall x :: x in s.early + s.erased ==> Parent(tr, x) >= 0)
  }

  lemma AskedEarly(tr: Tree, s: State, e: Event)
    requires EraseInv(tr, s) && Enabled(tr, s, e) && Binds(e)
    ensures e.x in s.asked ==> e.x in s.early
  {
    hide Source;
  }

  lemma BindKeepsOwn(tr: Tree, s: State, e: Event)
    requires Shape(tr, s) && EraseInv(tr, s) && KeepsOwn(tr, s) && Enabled(tr, s, e) && Binds(e)
    ensures KeepsOwn(tr, Step(tr, s, e))
  {
    hide Step, Enabled, Shape, Source, PhaseOf;
    var s' := Step(tr, s, e);
    BindStepSame(tr, s, e);
    ParentBelow(tr, s, e);
    AskedEarly(tr, s, e);
    forall x ensures x in s'.asked && x !in s'.early ==> x in s'.marked
             ensures x in s'.early + s'.erased ==> Parent(tr, x) >= 0 {
      if x != e.x { ApartStep(tr, s, e, x); }
    }
  }

  lemma CancelKeepsOwn(tr: Tree, s: State, e: Event)
    requires Shape(tr, s) && KeepsOwn(tr, s) && Enabled(tr, s, e) && !Binds(e)
    ensures KeepsOwn(tr, Step(tr, s, e))
  {
    hide Ancestor, Registered, CallInv;
    if e.CancelStep? { assert TreeInv(tr, s, s.calls[e.k].a); }
  }

  lemma {:induction false} RunKeepsOwn(tr: Tree, s: State, es: seq<Event>)
    requires Good(tr, s) && KeepsOwn(tr, s) && CanRun(tr, s, es)
    ensures KeepsOwn(tr, Run(tr, s, es))
    decreases |es|
  {
    hide Inherits, EraseInv, Step, Enabled, TreeInv, CallInv, KeepsOwn;
    if es != [] {
      StepInv(tr, s, es[0]);
      StepErase(tr, s, es[0]);
      if Binds(es[0]) { BindKeepsOwn(tr, s, es[0]); } else { CancelKeepsOwn(tr, s, es[0]); }
      RunKeepsOwn(tr, Step(tr, s, es[0]), es[1..]);
    }
  }

  lemma ReachableKeepsOwn(tr: Tree, s: State)
    requires WellFormed(tr) && Reachable(tr, s)
    ensures KeepsOwn(tr, s)
  {
    var es :| CanRun(tr, Init, es) && Run(tr, Init, es) == s;
    InitInv(tr);
    hide Inherits, TreeInv, CallInv, CanRun, Run;
    RunKeepsOwn(tr, Init, es);
  }

  /** A context that was bound when it was cancelled keeps its own cancellation, and
      so does one that was not, unless a copy overwrote it. */
  lemma OwnCancellationKept(tr: Tree, s: State, a: Ctx)
    requires WellFormed(tr) && Reachable(tr, s) && a in s.done
    ensures a !in s.early || a !in s.erased ==> a in s.marked
  {
    hide Reachable, Inherits, EraseInv, TreeInv, CallInv;
    ReachableGood(tr, s);
    ReachableKeepsOwn(tr, s);
  }

  /** The copy that decides has not been made yet, and a mark read already is 0. */
  predicate BeforeCopy(ph: Phase) {
    match ph
    case Unbound => true case Mark => true case Snap => true case Load(_) => true case Store(_, v) => !v
    case Lock => true case Load2 => true case Store2(v) => !v
    case RegR => true case LoadR => true case StoreR(v) => !v
    case _ => false
  }

  /** At rest, cancelled and bound, but not marked. */
  predicate Lost(tr: Tree, s: State, x: Ctx) {
    s.calls == map[] && x in s.done && PhaseOf(tr, s.phase, x) == Bound && x !in s.marked
  }

  /** From every state at rest like that, not only that of `EarlyCancelIsLost`, a
      cancelled context below an unmarked parent can be bound without its mark; and
      however the bindings are interleaved, it has none once it is bound. */
  lemma EarlyCancelLostFromAnywhere(tr: Tree, s: State, x: Ctx)
    requires WellFormed(tr) && Reachable(tr, s) && s.calls == map[] && x in s.done
    requires BeforeCopy(PhaseOf(tr, s.phase, x))
    requires PhaseOf(tr, s.phase, Parent(tr, x)) == Bound && Parent(tr, x) !in s.marked
    ensures exists s' :: Leads(tr, s, s') && Reachable(tr, s') && Lost(tr, s', x)
    ensures forall s' :: Leads(tr, s, s') && PhaseOf(tr, s'.phase, x) == Bound ==> x !in s'.marked
  {
    hide Reachable, Leads, Inv, EraseInv;
    ReachableGood(tr, s);
    var s1 := BindingCompletes(tr, s, s, x);
    LedToIsReachable(tr, s, s1);
    BoundAsFated(tr, s, s1, x);
    forall s' | Leads(tr, s, s') && PhaseOf(tr, s'.phase, x) == Bound ensures x !in s'.marked {
      BoundAsFated(tr, s, s', x);
    }
  }

  // ----------------------------------------------- kept whatever happens

  /** The mark is there to stay: nothing will be copied any more, or what has been or
      will be copied is 1 and the parent's mark is there to stay too. A snapshot older
      than the global epoch makes sure of the copy under the lock. */
  predicate Secure(tr: Tree, s: State, x: Ctx)
    decreases x
  {
    var p := 0 <= Parent(tr, x) < x && Secure(tr, s, Parent(tr, x));
    match PhaseOf(tr, s.phase, x)
    case Store(e, v) => p && (v || e < s.global)
    case Reg(e) => p && (x in s.marked || e < s.global)
    case Check(e) => p && (x in s.marked || e < s.global)
    case Store2(v) => v
    case StoreR(v) => v
    case Unlock => x in s.marked
    case Bound => x in s.marked
    case _ => p
  }

  lemma OwnStepSecure(tr: Tree, s: State, e: Event, x: Ctx)
    requires Shape(tr, s) && Enabled(tr, s, e) && Binds(e) && e.x == x && Secure(tr, s, x)
    requires Secure(tr, s, Parent(tr, x)) ==> Secure(tr, Step(tr, s, e), Parent(tr, x))
    ensures Secure(tr, Step(tr, s, e), x)
  {
    hide CallInv;
    assert TreeInv(tr, s, x);
  }

  lemma CancelsOnlyMark(tr: Tree, s: State, e: Event)
    requires Enabled(tr, s, e) && !Binds(e)
    ensures var s' := Step(tr, s, e); s'.phase == s.phase && s.marked <= s'.marked && s.global <= s'.global
  {
    hide Ancestor, Registered;
  }

  lemma {:induction false} StepSecure(tr: Tree, s: State, e: Event, x: Ctx)
    requires Shape(tr, s) && Enabled(tr, s, e) && Secure(tr, s, x)
    ensures Secure(tr, Step(tr, s, e), x)
    decreases x
  {
    hide Step, Enabled, Shape;
    var p := Parent(tr, x);
    if 0 <= p < x && Secure(tr, s, p) { StepSecure(tr, s, e, p); }
    if !Binds(e) { CancelsOnlyMark(tr, s, e); }
    else if e.x != x { ApartStep(tr, s, e, x); }
    else { ParentBelow(tr, s, e); OwnStepSecure(tr, s, e, x); }
  }

  lemma {:induction false} RunSecure(tr: Tree, s: State, es: seq<Event>, x: Ctx)
    requires Good(tr, s) && CanRun(tr, s, es) && Secure(tr, s, x)
    ensures Secure(tr, Run(tr, s, es), x)
    decreases |es|
  {
    hide Secure, Inherits, EraseInv, Step, Enabled, TreeInv, CallInv;
    if es != [] {
      StepInv(tr, s, es[0]);
      StepErase(tr, s, es[0]);
      StepSecure(tr, s, es[0], x);
      RunSecure(tr, Step(tr, s, es[0]), es[1..], x);
    }
  }

  /** From then on `x` is marked whenever it is bound, whatever is bound and cancelled. */
  lemma KeptForGood(tr: Tree, s: State, es: seq<Event>, x: Ctx)
    requires WellFormed(tr) && Reachable(tr, s) && CanRun(tr, s, es) && Secure(tr, s, x)
    ensures PhaseOf(tr, Run(tr, s, es).phase, x) == Bound ==> x in Run(tr, s, es).marked
  {
    ReachableGood(tr, s);
    hide Inv, EraseInv, CanRun, Run, Reachable, Leads;
    RunSecure(tr, s, es, x);
  }

  /** Between its speculative copy and the comparison of the epochs a context has its
      mark but its parent has none, and the epoch is still the one seen. */
  predicate AwaitsComparison(tr: Tree, s: State, x: Ctx) {
    var ph := PhaseOf(tr, s.phase, x);
    && ((ph.Reg? && ph.s == s.global) || (ph.Check? && ph.s == s.global))
    && x in s.marked && Parent(tr, x) !in s.marked
  }

  /** Below a bound parent a fate that is not secure is that of a context that awaits
      the comparison, and the advance of the epoch by any other call changes it. */
  lemma EpochRevokes(tr: Tree, s: State, x: Ctx, k: CallId, y: Ctx)
    requires WellFormed(tr) && Reachable(tr, s) && PhaseOf(tr, s.phase, Parent(tr, x)) == Bound && Parent(tr, x) >= 0
    ensures Secure(tr, s, x) ==> EndsMarked(tr, s, x)
    ensures EndsMarked(tr, s, x) && !Secure(tr, s, x) <==> AwaitsComparison(tr, s, x)
    ensures AwaitsComparison(tr, s, x) && k in s.calls && s.calls[k].CEpoch? ==> !EndsMarked(tr, StepCancel(tr, s, k, y), x)
  {
    ReachableGood(tr, s);
    hide CallInv, Inherits, Reachable, Leads;
    var p := Parent(tr, x);
    assert TreeInv(tr, s, x) && TreeInv(tr, s, p) && Source(tr, s, x);
    if 0 <= p < x {
      assert Secure(tr, s, p) == EndsMarked(tr, s, p) == (p in s.marked);
    }
  }

  // ----------------------------- a context and its parent without a parent

  /** If the cancellation of a parent without a parent returns before the child is
      bound, the child misses it exactly if it is about to store a 0 read before. */
  lemma TornIfReadBefore(tr: Tree, s: State, s': State, p: Ctx, x: Ctx)
    requires WellFormed(tr) && Reachable(tr, s)
    requires p == Parent(tr, x) && 0 <= p && Parent(tr, p) < 0 && p in s.done
    requires PhaseOf(tr, s.phase, x) != Bound && Leads(tr, s, s') && PhaseOf(tr, s'.phase, x) == Bound
    ensures x in s'.marked <==> PhaseOf(tr, s.phase, x) != StoreR(false)
  {
    ReachableGood(tr, s);
    assert TreeInv(tr, s, x) && TreeInv(tr, s, p);
    hide Reachable, Leads, CallInv, Inherits;
    ReachableKeepsOwn(tr, s);
    OwnCancellationKept(tr, s, p);
    BoundAsFated(tr, s, s', x);
  }

  /** `x` has no children, and its parent `p` has no parent. */
  ghost predicate LeafBelow(tr: Tree, p: Ctx, x: Ctx) {
    Parent(tr, x) == p && 0 <= p && Parent(tr, p) < 0 && forall z :: Parent(tr, z) != x
  }

  /** The one call that cancels `p` is past the place of `x` in its list. */
  predicate Passed(tr: Tree, s: State, p: Ctx, x: Ctx) {
    p in s.done || (Spreads(s, p) && Covered(tr, s.calls[s.holder.k], x))
  }

  predicate Winner(s: State, k: CallId, p: Ctx) {
    k in s.calls && s.calls[k].a == p && !s.calls[k].CExchange?
  }

  /** An isolated context is cancelled by one call, since its mark stays. */
  ghost predicate OneWinner(s: State, p: Ctx) {
    && (forall k :: Winner(s, k, p) ==> p in s.marked && p !in s.done)
    && (forall j, k :: Winner(s, j, p) && Winner(s, k, p) ==> j == k)
    && (p in s.done ==> p in s.marked)
  }

  /** A mark on a leaf nobody asked for is made by that call, which does not come back. */
  ghost predicate LeafInv(tr: Tree, s: State, p: Ctx, x: Ctx) {
    && OneWinner(s, p)
    && (x !in s.asked && x in s.erased ==> PhaseOf(tr, s.phase, x) == Bound && x !in s.marked && Passed(tr, s, p, x))
    && (x !in s.asked && x in s.marked && PhaseOf(tr, s.phase, x) != Bound ==> Passed(tr, s, p, x))
  }

  lemma KeepsCanceller(tr: Tree, s: State, e: Event)
    requires Shape(tr, s) && Enabled(tr, s, e) && Binds(e)
    ensures s.holder.Canceller? ==> Step(tr, s, e).holder == s.holder
  {
    hide CallInv, Registered;
    assert TreeInv(tr, s, e.x);
  }

  /** The only store of a child of an isolated context is its last step. */
  lemma OwnStepLeaf(tr: Tree, s: State, e: Event, x: Ctx)
    requires Shape(tr, s) && Enabled(tr, s, e) && Binds(e) && e.x == x && Parent(tr, Parent(tr, x)) < 0
    ensures var s' := Step(tr, s, e);
      && PhaseOf(tr, s.phase, x) != Bound
      && (PhaseOf(tr, s'.phase, x) != Bound ==> (x in s'.marked <==> x in s.marked))
      && (x in s'.erased ==> x in s.erased || (x in s.marked && x !in s'.marked && PhaseOf(tr, s'.phase, x) == Bound))
  {
    hide CallInv, Registered;
    assert TreeInv(tr, s, x);
  }

  lemma BindStepLeaf(tr: Tree, s: State, e: Event, p: Ctx, x: Ctx)
    requires Shape(tr, s) && LeafBelow(tr, p, x) && LeafInv(tr, s, p, x)
    requires Enabled(tr, s, e) && Binds(e)
    ensures LeafInv(tr, Step(tr, s, e), p, x)
  {
    hide Step, Enabled, Shape, Covered, PhaseOf;
    var s' := Step(tr, s, e);
    ParentBelow(tr, s, e);
    KeepsCanceller(tr, s, e);
    BindStepSame(tr, s, e);
    ApartStep(tr, s, e, p);
    assert forall k :: Winner(s', k, p) == Winner(s, k, p);
    if e.x == x { OwnStepLeaf(tr, s, e, x); } else { ApartStep(tr, s, e, x); }
  }

  lemma CancelStepOneWinner(tr: Tree, s: State, e: Event, p: Ctx)
    requires Shape(tr, s) && OneWinner(s, p) && Enabled(tr, s, e) && !Binds(e)
    ensures OneWinner(Step(tr, s, e), p)
  {
    hide Ancestor, Registered, Behind, TreeInv, CallInv;
    var s', k := Step(tr, s, e), e.k;
    assert s.marked <= s'.marked;
    assert Winner(s, k, p) ==> p in s.marked && p !in s.done;
    forall j | Winner(s', j, p) ensures Winner(s, j, p) || (j == k && p !in s.marked && p in s'.marked) {}
    if p in s'.done && p !in s.done {
      assert Winner(s, k, p) && k !in s'.calls;
    }
  }

  lemma PaintLeaf(tr: Tree, s: State, k: CallId, y: Ctx, p: Ctx, x: Ctx)
    requires Shape(tr, s) && LeafBelow(tr, p, x) && LeafInv(tr, s, p, x) && k in s.calls && s.calls[k].CPaint?
    ensures LeafInv(tr, Step(tr, s, CancelStep(k, y)), p, x)
  {
    var CPaint(a, l, todo, z, c) := s.calls[k];
    assert CallInv(tr, s, k);
    CancelStepOneWinner(tr, s, CancelStep(k, y), p);
    assert Winner(s, k, a);
    if c == x {
      if c != z { NoLeafAbove(tr, x, z); }
      AncestorUp(tr, a, x);
      assert !Ancestor(tr, a, p);
    }
    hide Ancestor, TreeInv, OneWinner;
  }

  lemma {:induction false} NoLeafAbove(tr: Tree, x: Ctx, z: Ctx)
    requires forall y :: Parent(tr, y) != x
    ensures !Ancestor(tr, x, z)
    decreases z
  {
    if 0 <= Parent(tr, z) < z { NoLeafAbove(tr, x, Parent(tr, z)); }
  }

  lemma PassedStays(tr: Tree, s: State, e: Event, p: Ctx, x: Ctx)
    requires Shape(tr, s) && Passed(tr, s, p, x) && Enabled(tr, s, e) && !Binds(e)
    requires e.CancelStep? ==> !s.calls[e.k].CPaint?
    ensures Passed(tr, Step(tr, s, e), p, x)
  {
    assert CallInv(tr, s, e.k) && (s.holder.Canceller? ==> CallInv(tr, s, s.holder.k));
    hide Ancestor, TreeInv, Behind, Registered, CallInv;
  }

  lemma OnlyWinsMark(tr: Tree, s: State, e: Event, x: Ctx)
    requires Enabled(tr, s, e) && !Binds(e) && (e.CancelStep? ==> !s.calls[e.k].CPaint?)
    ensures var s' := Step(tr, s, e);
      s'.phase == s.phase && s'.erased == s.erased && s.asked <= s'.asked && s'.marked <= s.marked + s'.asked
  {
    hide Ancestor, Registered;
  }

  lemma OtherCancelLeaf(tr: Tree, s: State, e: Event, p: Ctx, x: Ctx)
    requires Shape(tr, s) && LeafBelow(tr, p, x) && LeafInv(tr, s, p, x) && Enabled(tr, s, e) && !Binds(e)
    requires e.CancelStep? ==> !s.calls[e.k].CPaint?
    ensures LeafInv(tr, Step(tr, s, e), p, x)
  {
    hide Step, Enabled, Shape, Passed, OneWinner, PhaseOf;
    CancelStepOneWinner(tr, s, e, p);
    OnlyWinsMark(tr, s, e, x);
    if Passed(tr, s, p, x) { PassedStays(tr, s, e, p, x); }
  }

  lemma {:induction false} RunLeaf(tr: Tree, s: State, es: seq<Event>, p: Ctx, x: Ctx)
    requires Good(tr, s) && LeafBelow(tr, p, x) && LeafInv(tr, s, p, x) && CanRun(tr, s, es)
    ensures LeafInv(tr, Run(tr, s, es), p, x)
    decreases |es|
  {
    if es != [] {
      hide Inherits, EraseInv, TreeInv, CallInv, LeafInv, LeafBelow, StepCancel, StepBind;
      var e := es[0];
      StepInv(tr, s, e);
      StepErase(tr, s, e);
      if Binds(e) { BindStepLeaf(tr, s, e, p, x); }
      else if e.CancelStep? && s.calls[e.k].CPaint? { PaintLeaf(tr, s, e.k, e.y, p, x); }
      else { OtherCancelLeaf(tr, s, e, p, x); }
      RunLeaf(tr, Step(tr, s, e), es[1..], p, x);
    }
  }

  /** A child that nobody cancelled itself, without children, of a cancelled parent
      without a parent: once bound it is marked if and only if no copy overwrote its mark. */
  lemma TornIffOverwritten(tr: Tree, s: State, p: Ctx, x: Ctx)
    requires WellFormed(tr) && Reachable(tr, s) && LeafBelow(tr, p, x)
    requires p in s.done && x !in s.asked && PhaseOf(tr, s.phase, x) == Bound
    ensures x in s.marked <==> x !in s.erased
  {
    var es :| CanRun(tr, Init, es) && Run(tr, Init, es) == s;
    InitInv(tr);
    ReachableKeepsOwn(tr, s);
    assert LeafInv(tr, Init, p, x);
    hide Inherits, EraseInv, TreeInv, CallInv, CanRun, Run, Reachable;
    RunLeaf(tr, Init, es, p, x);
    if x !in s.erased { NoLostCancellation(tr, s, p, x); }
  }
}
