/** No context is cancelled without cause: whatever is marked was cancelled itself or
    lies below a context that was, by a call that somebody made for it. */
module CancellationCause {
  import opened Cancellation

  /** Somebody cancelled `x` or a context above it. */
  ghost predicate Caused(tr: Tree, asked: set<Ctx>, x: Ctx) {
    x in asked || exists a :: a in asked && Ancestor(tr, a, x)
  }

  /** A mark that has been read stands for one that has a cause. */
  predicate ReadMark(ph: Phase) {
    match ph
    case Store(_, v) => v
    case Store2(v) => v
    case StoreR(v) => v
    case _ => false
  }

  /** `wanted` are the contexts for which `cancel_group_execution` was called. */
  ghost predicate CauseInv(tr: Tree, s: State, wanted: set<Ctx>) {
    && s.asked <= wanted && (forall k :: k in s.calls ==> s.calls[k].a in wanted)
    && (forall x :: x in s.marked ==> Caused(tr, s.asked, x))
    && (forall x :: x in s.phase && ReadMark(s.phase[x]) ==> Caused(tr, s.asked, Parent(tr, x)))
  }

  lemma CausedBelow(tr: Tree, asked: set<Ctx>, x: Ctx)
    requires 0 <= Parent(tr, x) < x && Caused(tr, asked, Parent(tr, x))
    ensures Caused(tr, asked, x)
  {
    var p := Parent(tr, x);
    if p in asked {
      assert Ancestor(tr, p, x);
    } else {
      var a :| a in asked && Ancestor(tr, a, p);
      assert Ancestor(tr, a, x);
    }
  }

  lemma CausedStill(tr: Tree, asked: set<Ctx>, asked': set<Ctx>, x: Ctx)
    requires asked <= asked' && Caused(tr, asked, x)
    ensures Caused(tr, asked', x)
  {
  }

  lemma BindCause(tr: Tree, s: State, x: Ctx, wanted: set<Ctx>)
    requires Shape(tr, s) && CauseInv(tr, s, wanted) && Enabled(tr, s, BindStep(x))
    ensures CauseInv(tr, StepBind(tr, s, x), wanted)
  {
    assert TreeInv(tr, s, x);
    if ReadMark(s.phase[x]) { CausedBelow(tr, s.asked, x); }
    hide Caused, CallInv, Registered, Behind;
  }

  lemma CancelCause(tr: Tree, s: State, k: CallId, y: Ctx, wanted: set<Ctx>)
    requires Shape(tr, s) && CauseInv(tr, s, wanted) && k in s.calls
    ensures CauseInv(tr, StepCancel(tr, s, k, y), wanted)
  {
    assert CallInv(tr, s, k);
    var s', c := StepCancel(tr, s, k, y), s.calls[k];
    assert c.CPaint? ==> Caused(tr, s.asked, c.c);
    assert c.CExchange? ==> Caused(tr, s.asked + {c.a}, c.a);
    forall x | Caused(tr, s.asked, x) ensures Caused(tr, s'.asked, x) { CausedStill(tr, s.asked, s'.asked, x); }
    hide Caused, TreeInv, Registered, Behind, Ancestor;
  }

  function Wanted(e: Event): set<Ctx> { if e.BeginCancel? then {e.a} else {} }

  lemma StepCause(tr: Tree, s: State, e: Event, wanted: set<Ctx>)
    requires Shape(tr, s) && CauseInv(tr, s, wanted) && Enabled(tr, s, e)
    ensures CauseInv(tr, Step(tr, s, e), wanted + Wanted(e))
  {
    hide StepBind, StepCancel, Shape, Caused;
    match e
    case BeginBind(x) =>
    case BindStep(x) => BindCause(tr, s, x, wanted);
    case BeginCancel(k, a) =>
    case CancelStep(k, y) => CancelCause(tr, s, k, y, wanted);
  }

  function AllWanted(es: seq<Event>): set<Ctx> {
    if es == [] then {} else Wanted(es[0]) + AllWanted(es[1..])
  }

  lemma {:induction false} WantedIn(es: seq<Event>, a: Ctx)
    requires a in AllWanted(es)
    ensures exists k :: BeginCancel(k, a) in es
  {
    if a in Wanted(es[0]) {
      assert BeginCancel(es[0].k, a) in es;
    } else {
      WantedIn(es[1..], a);
      var k :| BeginCancel(k, a) in es[1..];
      assert BeginCancel(k, a) in es;
    }
  }

  lemma {:induction false} RunCause(tr: Tree, s: State, es: seq<Event>, wanted: set<Ctx>)
    requires Inv(tr, s) && EraseInv(tr, s) && CauseInv(tr, s, wanted) && CanRun(tr, s, es)
    ensures CauseInv(tr, Run(tr, s, es), wanted + AllWanted(es))
    decreases |es|
  {
    hide Inherits, EraseInv, Step, Enabled, TreeInv, CallInv, CauseInv;
    if es == [] {
      assert wanted + AllWanted(es) == wanted;
    } else {
      StepInv(tr, s, es[0]);
      StepErase(tr, s, es[0]);
      StepCause(tr, s, es[0], wanted);
      RunCause(tr, Step(tr, s, es[0]), es[1..], wanted + Wanted(es[0]));
      assert wanted + Wanted(es[0]) + AllWanted(es[1..]) == wanted + AllWanted(es);
    }
  }

  lemma NothingMarkedYet(tr: Tree)
    ensures CauseInv(tr, Init, {})
  {
  }

  /** In every run a context is marked only if somebody called for the cancellation of
      this context or of one above it, and that call won the exchange. */
  lemma NoMarkWithoutCause(tr: Tree, es: seq<Event>, x: Ctx)
    requires WellFormed(tr) && CanRun(tr, Init, es) && x in Run(tr, Init, es).marked
    ensures exists k, a :: BeginCancel(k, a) in es && a in Run(tr, Init, es).asked && (a == x || Ancestor(tr, a, x))
  {
    InitInv(tr);
    NothingMarkedYet(tr);
    hide Inherits, TreeInv, CallInv, CanRun, Run;
    RunCause(tr, Init, es, {});
    var s := Run(tr, Init, es);
    assert Caused(tr, s.asked, x);
    var a :| a in s.asked && (a == x || Ancestor(tr, a, x));
    assert {} + AllWanted(es) == AllWanted(es);
    WantedIn(es, a);
  }

  /** The cancellation of a context spares all that is not below it, its parent and
      those above first of all, unless somebody cancels them or a context above them. */
  lemma OthersAreSpared(tr: Tree, es: seq<Event>, x: Ctx)
    requires WellFormed(tr) && CanRun(tr, Init, es)
    requires forall k, a :: BeginCancel(k, a) in es ==> a != x && !Ancestor(tr, a, x)
    ensures x !in Run(tr, Init, es).marked
  {
    if x in Run(tr, Init, es).marked { NoMarkWithoutCause(tr, es, x); }
  }

  // ------------------------------------------------- and what was asked for

  lemma OthersLeaveCall(tr: Tree, s: State, e: Event, k: CallId)
    requires Enabled(tr, s, e) && k in s.calls && (e.CancelStep? ==> e.k != k)
    ensures k in Step(tr, s, e).calls && Step(tr, s, e).calls[k] == s.calls[k]
  {
  }

  lemma ExchangeMarks(tr: Tree, s: State, k: CallId, y: Ctx, a: Ctx)
    requires k in s.calls && s.calls[k] == CExchange(a)
    ensures a in s.marked || a in StepCancel(tr, s, k, y).marked
  {
  }

  lemma {:induction false} ExchangeTakesEffect(tr: Tree, s: State, es: seq<Event>, k: CallId, a: Ctx) returns (i: nat)
    requires k in s.calls && s.calls[k] == CExchange(a) && CanRun(tr, s, es) && k !in Run(tr, s, es).calls
    ensures i <= |es| && CanRun(tr, s, es[..i]) && a in Run(tr, s, es[..i]).marked
    decreases |es|
  {
    hide Step, Enabled;
    if a in s.marked {
      i := 0;
    } else {
      var s' := Step(tr, s, es[0]);
      if es[0].CancelStep? && es[0].k == k {
        IsCancelStep(tr, s, es[0]);
        ExchangeMarks(tr, s, k, es[0].y, a);
        i := 1;
        assert es[..1] == [es[0]] && [es[0]][1..] == [];
      } else {
        OthersLeaveCall(tr, s, es[0], k);
        var j := ExchangeTakesEffect(tr, s', es[1..], k, a);
        i := j + 1;
        assert es[..i][0] == es[0] && es[..i][1..] == es[1..][..j];
      }
    }
  }

  lemma IsCancelStep(tr: Tree, s: State, e: Event)
    requires Enabled(tr, s, e) && e.CancelStep?
    ensures Step(tr, s, e) == StepCancel(tr, s, e.k, e.y)
  {
  }

  /** When a call for `a` has returned, `a` was marked at some moment of the call. */
  lemma CancelTakesEffect(tr: Tree, s: State, es: seq<Event>, k: CallId, a: Ctx)
    requires Enabled(tr, s, BeginCancel(k, a)) && CanRun(tr, Step(tr, s, BeginCancel(k, a)), es)
    requires k !in Run(tr, Step(tr, s, BeginCancel(k, a)), es).calls
    ensures var s' := Step(tr, s, BeginCancel(k, a));
      exists i :: 0 <= i <= |es| && CanRun(tr, s', es[..i]) && a in Run(tr, s', es[..i]).marked
  {
    var s' := Step(tr, s, BeginCancel(k, a));
    if a in s.marked {
      assert es[..0] == [] && CanRun(tr, s', []) && a in Run(tr, s', es[..0]).marked;
    } else {
      var i := ExchangeTakesEffect(tr, s', es, k, a);
    }
  }

  // ------------------------------------------------------------- waiting

  /** A binding waits only for a list that a propagation has locked, or for the lock. */
  lemma BindWaitsFor(tr: Tree, s: State, x: Ctx)
    requires Shape(tr, s) && Enabled(tr, s, BindStep(x)) && StepBind(tr, s, x) == s
    ensures var ph := s.phase[x];
      ((ph.Reg? || ph.RegR?) && !ListFree(s, ListOf(tr, x))) || (ph == Lock && s.holder != Nobody)
  {
    assert TreeInv(tr, s, x);
    var ph := s.phase[x];
    if ph.Reg? || ph.RegR? { if ListFree(s, ListOf(tr, x)) { PhaseGoesOn(tr, s, x); } }
    else if ph != Lock || s.holder == Nobody { PhaseGoesOn(tr, s, x); }
    hide StepBind, Shape;
  }

  lemma PhaseGoesOn(tr: Tree, s: State, x: Ctx)
    requires Enabled(tr, s, BindStep(x)) && s.phase[x] != Unbound
    requires var ph := s.phase[x]; (ph.Reg? || ph.RegR? ==> ListFree(s, ListOf(tr, x))) && (ph == Lock ==> s.holder == Nobody)
    ensures x in StepBind(tr, s, x).phase && StepBind(tr, s, x).phase[x] != s.phase[x]
  {
    hide Copy, ListFree;
  }

  /** While a propagation goes through a list, nobody enters or leaves the list. */
  lemma ScannedListStands(tr: Tree, s: State, k: CallId, l: nat, e: Event, x: Ctx)
    requires Shape(tr, s) && Enabled(tr, s, e) && k in s.calls && Scanning(s.calls[k], l) && ListOf(tr, x) == l
    ensures Registered(tr, Step(tr, s, e).phase, x) <==> Registered(tr, s.phase, x)
  {
    assert CallInv(tr, s, k) && TreeInv(tr, s, x);
    hide Shape, Ancestor, CallInv, Registered, StepBind, StepCancel;
    match e
    case BindStep(y) => if y == x { assert !ListFree(s, l); BindRegisters(tr, s, x); } else { BindLeavesPhases(tr, s, y, x); }
    case CancelStep(j, y) => CancelLeavesPhases(tr, s, j, y);
    case BeginBind(y) => Registering(tr, s, y, x);
    case _ =>
  }

  lemma Registering(tr: Tree, s: State, y: Ctx, x: Ctx)
    requires Enabled(tr, s, BeginBind(y))
    ensures Registered(tr, Go(s, y, Mark).phase, x) <==> Registered(tr, s.phase, x)
  {
  }

  lemma BindRegisters(tr: Tree, s: State, x: Ctx)
    requires Enabled(tr, s, BindStep(x)) && TreeInv(tr, s, x) && !ListFree(s, ListOf(tr, x))
    ensures Registered(tr, StepBind(tr, s, x).phase, x) <==> Registered(tr, s.phase, x)
  {
    hide Copy, ListFree, Ancestor;
  }

  lemma BindLeavesPhases(tr: Tree, s: State, y: Ctx, x: Ctx)
    requires x != y
    ensures Registered(tr, StepBind(tr, s, y).phase, x) <==> Registered(tr, s.phase, x)
  {
    hide ListFree, Ancestor;
  }

  lemma CancelLeavesPhases(tr: Tree, s: State, k: CallId, y: Ctx)
    requires k in s.calls
    ensures StepCancel(tr, s, k, y).phase == s.phase
  {
    hide Registered, Ancestor;
  }

  predicate Moved(s: State, s': State, k: CallId)
    requires k in s.calls
  {
    k !in s'.calls || s'.calls[k] != s.calls[k]
  }

  /** A propagation waits only for the lock: with it, and with a context of the list that
      is still to be looked at if there is one, every step goes on. */
  lemma CancelWaitsForLock(tr: Tree, s: State, k: CallId, y: Ctx)
    requires k in s.calls && (s.calls[k].CLock? ==> s.holder == Nobody)
    requires s.calls[k].CScan? && s.calls[k].todo != {} ==> y in s.calls[k].todo
    ensures Moved(s, StepCancel(tr, s, k, y), k)
  {
    hide Ancestor, Registered;
    var c := s.calls[k];
    if c.CScan? && c.todo != {} { assert y !in c.todo - {y}; }
    if c.CPaint? && Parent(tr, c.c) != c.a && Parent(tr, c.c) >= 0 { assert Parent(tr, c.c) < c.c; }
  }
}
