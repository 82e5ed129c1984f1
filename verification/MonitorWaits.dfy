/** When a wait on the event monitor sleeps and why it returns, read off the run: the
    condition was seen to hold, or a notification took the node out of the set. */
module MonitorWaits {
  import opened Common
  import opened ConcurrentMonitor

  /** A call of `wait` as seen from outside: whether its condition has held in it, and,
      since the node last entered the set, whether a notification took it out, whether
      the epoch has moved, and whether a notification has got the lock, and left it. */
  datatype Stay = Stay(held: bool, taken: bool, moved: bool, got: bool, left: bool)

  const NEW := Stay(false, false, false, false, false)

  function Sees(ctx: Waiter -> Context, s: State, e: Event, w: Waiter, v: Stay): Stay
    requires Enabled(s, e)
  {
    var s' := Step(ctx, s, e);
    if e == BeginWait(w) then NEW
    else if w !in s.waitset && w in s'.waitset then NEW.(held := v.held || ctx(w) in s.holds)
    else Stay(v.held || ctx(w) in s.holds,
              v.taken || (e.NotifyStep? && w in s.waitset && w !in s'.waitset),
              v.moved || s'.epoch != s.epoch,
              v.got || (s'.holder.N? && s'.holder != s.holder), v.left || (s.holder.N? && s'.holder != s.holder))
  }

  function StayOf(ctx: Waiter -> Context, s: State, es: seq<Event>, w: Waiter, v: Stay): Stay
    requires CanRun(ctx, s, es)
    decreases |es|
  {
    if es == [] then v else StayOf(ctx, Step(ctx, s, es[0]), es[1..], w, Sees(ctx, s, es[0], w, v))
  }

  /** The node's epoch tells whether the epoch has moved since the node entered the set. */
  predicate EpochOk(s: State, w: Waiter, v: Stay) {
    w in s.nodeEpoch && s.nodeEpoch[w] <= s.epoch && (v.moved <==> s.nodeEpoch[w] != s.epoch)
  }

  predicate StayOk(s: State, w: Waiter, v: Stay) {
    match WaitOf(s, w)
    case Add => w in s.nodeEpoch && s.nodeEpoch[w] == s.epoch
    case PUnlock => EpochOk(s, w, v) && w in s.waitset
    case Check => EpochOk(s, w, v) && (w in s.waitset || v.taken)
    case Compare => EpochOk(s, w, v) && (w in s.waitset || v.taken)
    case Sleep => w in s.waitset || v.taken
    case _ => Canceling(WaitOf(s, w)) ==> WaitOf(s, w).again || v.held
  }

  lemma AddStays(ctx: Waiter -> Context, s: State, w: Waiter, v: Stay)
    requires NodeInv(s, w) && StayOk(s, w, v) && WaitOf(s, w).Add?
    ensures StayOk(StepWait(ctx, s, w), w, Sees(ctx, s, WaitStep(w), w, v))
  {
    hide Without, Flagging, Due, P;
  }

  lemma EnterStays(ctx: Waiter -> Context, s: State, w: Waiter, v: Stay)
    requires StayOk(s, w, v) && (WaitOf(s, w).ReadEpoch? || WaitOf(s, w).PUnlock?)
    ensures StayOk(StepWait(ctx, s, w), w, Sees(ctx, s, WaitStep(w), w, v))
  {
    hide Without, P;
  }

  predicate Preparing(p: Wait) { p.Begin? || p.Pump? || p.SetFlag? || p.PLock? || p.Destroy? || p.Dead? }

  lemma PrepareStays(ctx: Waiter -> Context, s: State, w: Waiter, v: Stay)
    requires Preparing(WaitOf(s, w))
    ensures StayOk(StepWait(ctx, s, w), w, Sees(ctx, s, WaitStep(w), w, v))
  {
    hide Without, Sees, Sema;
  }

  lemma CommitStays(ctx: Waiter -> Context, s: State, w: Waiter, v: Stay)
    requires StayOk(s, w, v) && (WaitOf(s, w).Check? || WaitOf(s, w).Compare? || WaitOf(s, w).Sleep?)
    ensures StayOk(StepWait(ctx, s, w), w, Sees(ctx, s, WaitStep(w), w, v))
  {
  }

  /** A cancelled wait is done with or prepares anew, as it was to. */
  predicate CancelGoesOn(p: Wait, p': Wait)
    requires Canceling(p)
  {
    if Canceling(p') then p'.again == p.again else p' == if p.again then Begin else Out
  }

  lemma CancelBegins(ctx: Waiter -> Context, s: State, w: Waiter)
    requires var p := WaitOf(s, w); p.CSkip? || p.CLoad? || p.CLock? || p.CTest?
    ensures CancelGoesOn(WaitOf(s, w), WaitOf(StepWait(ctx, s, w), w))
  {
    hide Without, Sema;
  }

  lemma CancelEnds(ctx: Waiter -> Context, s: State, w: Waiter)
    requires var p := WaitOf(s, w); p.CRemove? || p.CFlag? || p.CUnskip? || p.CUnlock?
    ensures CancelGoesOn(WaitOf(s, w), WaitOf(StepWait(ctx, s, w), w))
  {
    hide Without, Sema;
  }

  lemma HeldStays(ctx: Waiter -> Context, s: State, e: Event, w: Waiter, v: Stay)
    requires Enabled(s, e) && e != BeginWait(w)
    ensures v.held || ctx(w) in s.holds ==> Sees(ctx, s, e, w, v).held
  {
    hide Step;
  }

  lemma CancelStays(ctx: Waiter -> Context, s: State, w: Waiter, v: Stay)
    requires StayOk(s, w, v) && Canceling(WaitOf(s, w))
    ensures StayOk(StepWait(ctx, s, w), w, Sees(ctx, s, WaitStep(w), w, v))
  {
    hide StepWait, Sees;
    var p := WaitOf(s, w);
    if p.CSkip? || p.CLoad? || p.CLock? || p.CTest? { CancelBegins(ctx, s, w); } else { CancelEnds(ctx, s, w); }
    HeldStays(ctx, s, WaitStep(w), w, v);
  }

  // ----------------------------------------------------- everybody else

  /** What others may do to a waiter: take its node out, or move the epoch, and neither
      while it has the lock. */
  ghost predicate Beside(s: State, s': State, e: Event, w: Waiter) {
    && WaitOf(s', w) == WaitOf(s, w) && (w in s'.nodeEpoch <==> w in s.nodeEpoch)
    && (w in s.nodeEpoch ==> s'.nodeEpoch[w] == s.nodeEpoch[w]) && s'.epoch >= s.epoch
    && (w in s'.waitset ==> w in s.waitset) && (w in s.waitset && w !in s'.waitset ==> e.NotifyStep?)
    && (s.holder == W(w) ==> s'.epoch == s.epoch && (w in s.waitset ==> w in s'.waitset))
  }

  lemma BesideStays(ctx: Waiter -> Context, s: State, e: Event, w: Waiter, v: Stay)
    requires Enabled(s, e) && e != BeginWait(w) && StayOk(s, w, v) && Beside(s, Step(ctx, s, e), e, w)
    requires HasLock(WaitOf(s, w)) <==> s.holder == W(w)
    ensures StayOk(Step(ctx, s, e), w, Sees(ctx, s, e, w, v))
  {
    hide Step;
  }

  lemma WaiterBeside(ctx: Waiter -> Context, s: State, u: Waiter, w: Waiter)
    requires NodeInv(s, u) && Distinct(s.waitset) && u != w
    ensures Beside(s, StepWait(ctx, s, u), WaitStep(u), w)
  {
    hide NodeInv, StepWait, Distinct;
    WaitStepKeeps(ctx, s, u);
    if Canceling(WaitOf(s, u)) { CancelKeepsEpochs(ctx, s, u, w); } else { KeepsEpochs(ctx, s, u, w); }
  }

  ghost predicate SameEpochs(s: State, s': State, w: Waiter) {
    && s'.epoch == s.epoch && (w in s'.nodeEpoch <==> w in s.nodeEpoch)
    && (w in s.nodeEpoch ==> s'.nodeEpoch[w] == s.nodeEpoch[w])
  }

  lemma CancelKeepsEpochs(ctx: Waiter -> Context, s: State, u: Waiter, w: Waiter)
    requires u != w && Canceling(WaitOf(s, u))
    ensures SameEpochs(s, StepWait(ctx, s, u), w)
  {
    hide Without, Sema;
  }

  lemma KeepsEpochs(ctx: Waiter -> Context, s: State, u: Waiter, w: Waiter)
    requires u != w && !Canceling(WaitOf(s, u))
    ensures SameEpochs(s, StepWait(ctx, s, u), w)
  {
    hide Without, Sema;
  }

  /** Only one step of a notification moves the epoch, and two kinds take nodes out. */
  lemma EpochBeside(ctx: Waiter -> Context, s: State, n: NotifierId, u: Waiter, w: Waiter)
    requires n in s.notify && NotifierInv(s, n) && NLocked(s.notify[n])
    ensures Beside(s, StepNotify(ctx, s, n, u), NotifyStep(n, u), w)
  {
    hide Targets, Flush, Holds, TodoOk, Sema;
  }

  lemma FreeBeside(ctx: Waiter -> Context, s: State, n: NotifierId, u: Waiter, w: Waiter)
    requires n in s.notify && !NLocked(s.notify[n])
    ensures Beside(s, StepNotify(ctx, s, n, u), NotifyStep(n, u), w)
  {
    hide Targets, Flush, Sema, Without;
  }

  lemma OtherBeside(ctx: Waiter -> Context, s: State, e: Event, w: Waiter)
    requires Inv(ctx, s) && Enabled(s, e) && e != WaitStep(w) && e != BeginWait(w) && e != BeginDestroy(w)
    ensures Beside(s, Step(ctx, s, e), e, w)
  {
    if e.WaitStep? { assert NodeInv(s, e.w); }
    if e.NotifyStep? { assert NotifierInv(s, e.n); }
    hide NodeInv, NotifierInv, StepWait, StepNotify, NLocked, Beside;
    match e
    case WaitStep(u) => WaiterBeside(ctx, s, u, w);
    case NotifyStep(n, u) => if NLocked(s.notify[n]) { EpochBeside(ctx, s, n, u, w); } else { FreeBeside(ctx, s, n, u, w); }
    case _ => CallBeside(ctx, s, e, w);
  }

  lemma CallBeside(ctx: Waiter -> Context, s: State, e: Event, w: Waiter)
    requires Enabled(s, e) && !e.WaitStep? && !e.NotifyStep? && e != BeginWait(w) && e != BeginDestroy(w)
    ensures Beside(s, Step(ctx, s, e), e, w)
  {
  }

  lemma StepStays(ctx: Waiter -> Context, s: State, e: Event, w: Waiter, v: Stay)
    requires Inv(ctx, s) && Enabled(s, e) && StayOk(s, w, v)
    ensures StayOk(Step(ctx, s, e), w, Sees(ctx, s, e, w, v))
  {
    assert NodeInv(s, w);
    var p := WaitOf(s, w);
    if e == WaitStep(w) {
      hide Inv, NodeInv, StepWait, StayOk, Sees;
      if Canceling(p) { CancelStays(ctx, s, w, v); }
      else if p.Check? || p.Compare? || p.Sleep? { CommitStays(ctx, s, w, v); }
      else if p.Add? { AddStays(ctx, s, w, v); }
      else if p.ReadEpoch? || p.PUnlock? { EnterStays(ctx, s, w, v); }
      else { PrepareStays(ctx, s, w, v); }
    } else if e != BeginWait(w) && e != BeginDestroy(w) {
      hide Shape, WakeInv, NodeOk, Flagging, StayOk, Step, Sees, Beside;
      OtherBeside(ctx, s, e, w);
      BesideStays(ctx, s, e, w, v);
    } else {
      hide Inv, NodeInv;
    }
  }

  lemma {:induction false} RunStays(ctx: Waiter -> Context, s: State, es: seq<Event>, w: Waiter, v: Stay)
    requires Inv(ctx, s) && CanRun(ctx, s, es) && StayOk(s, w, v)
    ensures Inv(ctx, Run(ctx, s, es)) && StayOk(Run(ctx, s, es), w, StayOf(ctx, s, es, w, v))
    decreases |es|
  {
    hide Inv, Step, Enabled, StayOk, Sees;
    if es != [] {
      StepInv(ctx, s, es[0]);
      StepStays(ctx, s, es[0], w, v);
      RunStays(ctx, Step(ctx, s, es[0]), es[1..], w, Sees(ctx, s, es[0], w, v));
    }
  }

  /** A wait returns only if its condition has held in it, or a notification took its
      node out of the set since it last entered. */
  lemma WaitReturnsWithCause(ctx: Waiter -> Context, es: seq<Event>, w: Waiter)
    requires CanRun(ctx, Init, es) && WaitOf(Run(ctx, Init, es), w) != Out
    requires WaitOf(StepWait(ctx, Run(ctx, Init, es), w), w) == Out
    ensures var v := StayOf(ctx, Init, es, w, NEW); v.held || v.taken
  {
    InitInv(ctx);
    hide Inv, Run, CanRun, StayOf, StepWait;
    RunStays(ctx, Init, es, w, NEW);
    Returns(ctx, Run(ctx, Init, es), w, StayOf(ctx, Init, es, w, NEW));
  }

  lemma Returns(ctx: Waiter -> Context, s: State, w: Waiter, v: Stay)
    requires Inv(ctx, s) && StayOk(s, w, v) && WaitOf(s, w) != Out && WaitOf(StepWait(ctx, s, w), w) == Out
    ensures v.held || v.taken
  {
    assert NodeInv(s, w);
    hide Inv;
    ComesOut(ctx, s, w);
    hide StepWait;
  }

  lemma ComesOut(ctx: Waiter -> Context, s: State, w: Waiter)
    requires WaitOf(s, w) != Out && WaitOf(StepWait(ctx, s, w), w) == Out
    ensures var p := WaitOf(s, w); (p == Sleep && Sema(s, w) > 0) || (Canceling(p) && !p.again)
  {
    hide Without;
  }

  /** The wait is being wound up and will not be taken up again. */
  predicate Ending(p: Wait) { Canceling(p) && !p.again }

  lemma CheckEnds(ctx: Waiter -> Context, s: State, w: Waiter)
    requires WaitOf(s, w) == Check && ctx(w) in s.holds
    ensures Ending(WaitOf(StepWait(ctx, s, w), w))
  {
  }

  lemma StepEnding(ctx: Waiter -> Context, s: State, e: Event, w: Waiter)
    requires Inv(ctx, s) && Enabled(s, e) && Ending(WaitOf(s, w))
    ensures var p := WaitOf(Step(ctx, s, e), w); p == Out || Ending(p)
  {
    hide Inv, StepWait, StepNotify;
    var p := WaitOf(s, w);
    if e == WaitStep(w) {
      if p.CSkip? || p.CLoad? || p.CLock? || p.CTest? { CancelBegins(ctx, s, w); } else { CancelEnds(ctx, s, w); }
    } else {
      OtherBeside(ctx, s, e, w);
      hide Step;
    }
  }

  lemma {:induction false} RunEnding(ctx: Waiter -> Context, s: State, es: seq<Event>, w: Waiter) returns (i: nat)
    requires Inv(ctx, s) && CanRun(ctx, s, es) && Ending(WaitOf(s, w)) && !Ending(WaitOf(Run(ctx, s, es), w))
    ensures i <= |es| && CanRun(ctx, s, es[..i]) && WaitOf(Run(ctx, s, es[..i]), w) == Out
    decreases |es|
  {
    hide Inv, Step, Enabled, WaitOf, Ending;
    var s' := Step(ctx, s, es[0]);
    StepInv(ctx, s, es[0]);
    StepEnding(ctx, s, es[0], w);
    assert es[..1] == [es[0]] && [es[0]][1..] == [];
    if WaitOf(s', w) == Out {
      i := 1;
    } else {
      var j := RunEnding(ctx, s', es[1..], w);
      i := j + 1;
      assert es[..i][0] == es[0] && es[..i][1..] == es[1..][..j];
    }
  }

  /** A waiter that finds its condition to hold returns before it does anything else. */
  lemma ReturnsWhenHeld(ctx: Waiter -> Context, s: State, w: Waiter, es: seq<Event>)
    requires Reachable(ctx, s) && WaitOf(s, w) == Check && ctx(w) in s.holds
    requires CanRun(ctx, StepWait(ctx, s, w), es)
    ensures var s' := StepWait(ctx, s, w);
      Ending(WaitOf(Run(ctx, s', es), w)) || exists i :: 0 <= i <= |es| && CanRun(ctx, s', es[..i]) && WaitOf(Run(ctx, s', es[..i]), w) == Out
  {
    hide Reachable;
    ReachableInv(ctx, s);
    CheckEnds(ctx, s, w);
    WaitStepInv(ctx, s, w);
    hide StepWait, Inv, Run, CanRun, Ending;
    if !Ending(WaitOf(Run(ctx, StepWait(ctx, s, w), es), w)) {
      var i := RunEnding(ctx, StepWait(ctx, s, w), es, w);
    }
  }

  predicate InWindow(p: Wait) { p.PUnlock? || p.Check? || p.Compare? }

  /** A notification that has the lock has still to move the epoch or has moved it. */
  ghost predicate Heard(s: State, w: Waiter, v: Stay) {
    InWindow(WaitOf(s, w)) ==>
      && (v.moved ==> v.got) && (v.left ==> v.moved)
      && (s.holder.N? ==> v.got && s.holder.n in s.notify && (s.notify[s.holder.n].NEpoch? || v.moved))
  }

  /** How a step moves lock, notification and epoch. */
  ghost predicate Speaks(s: State, s': State) {
    && (s'.holder.N? && s'.holder != s.holder ==>
         s.holder == Nobody && s'.holder.n in s'.notify && s'.notify[s'.holder.n].NEpoch? && s'.epoch == s.epoch)
    && (s.holder.N? && s.holder.n in s.notify ==>
         var n, p := s.holder.n, s.notify[s.holder.n];
         && (s'.holder != s.holder ==> !p.NEpoch? && s'.epoch == s.epoch)
         && (s'.holder == s.holder ==> n in s'.notify && (s'.notify[n] == p || !s'.notify[n].NEpoch?)
                                        && (p.NEpoch? && !s'.notify[n].NEpoch? ==> s'.epoch != s.epoch)))
    && (!s.holder.N? ==> s'.epoch == s.epoch)
  }

  lemma NotifierSpeaks(ctx: Waiter -> Context, s: State, n: NotifierId, w: Waiter)
    requires n in s.notify && NotifierInv(s, n) && s.notify[n].NEpoch?
    ensures Speaks(s, StepNotify(ctx, s, n, w))
  {
    hide Targets, Flush, Holds, TodoOk, Sema, Without;
  }

  lemma NotifierLocks(ctx: Waiter -> Context, s: State, n: NotifierId, w: Waiter)
    requires n in s.notify && NotifierInv(s, n) && !NLocked(s.notify[n])
    ensures Speaks(s, StepNotify(ctx, s, n, w))
  {
    hide Targets, Flush, Holds, TodoOk, Sema, Without;
  }

  lemma NotifierWorks(ctx: Waiter -> Context, s: State, n: NotifierId, w: Waiter)
    requires n in s.notify && NotifierInv(s, n) && NLocked(s.notify[n]) && !s.notify[n].NEpoch?
    ensures Speaks(s, StepNotify(ctx, s, n, w))
  {
    hide Targets, Flush, Holds, TodoOk, Sema, Without;
  }

  lemma WaiterSpeaks(ctx: Waiter -> Context, s: State, u: Waiter)
    requires NodeInv(s, u) && Distinct(s.waitset)
    ensures Speaks(s, StepWait(ctx, s, u))
  {
    hide NodeInv, StepWait, Distinct;
    WaitStepKeeps(ctx, s, u);
    if Canceling(WaitOf(s, u)) { CancelKeepsEpochs(ctx, s, u, u + 1); } else { KeepsEpochs(ctx, s, u, u + 1); }
  }

  lemma StepSpeaks(ctx: Waiter -> Context, s: State, e: Event)
    requires Inv(ctx, s) && Enabled(s, e)
    ensures Speaks(s, Step(ctx, s, e))
  {
    if e.WaitStep? { assert NodeInv(s, e.w); }
    if e.NotifyStep? { assert NotifierInv(s, e.n); }
    hide Inv, NodeInv, NotifierInv, StepWait, StepNotify, NLocked;
    match e
    case WaitStep(u) => hide Speaks; WaiterSpeaks(ctx, s, u);
    case NotifyStep(n, w) =>
      hide Speaks;
      if s.notify[n].NEpoch? { NotifierSpeaks(ctx, s, n, w); }
      else if NLocked(s.notify[n]) { NotifierWorks(ctx, s, n, w); }
      else { NotifierLocks(ctx, s, n, w); }
    case _ =>
  }

  /** Into the window a waiter comes with the lock, by entering the set. */
  lemma IntoWindow(ctx: Waiter -> Context, s: State, w: Waiter)
    requires NodeInv(s, w) && InWindow(WaitOf(StepWait(ctx, s, w), w)) && !InWindow(WaitOf(s, w))
    ensures WaitOf(s, w) == Add && s.holder == W(w) && w !in s.waitset
    ensures w in StepWait(ctx, s, w).waitset && StepWait(ctx, s, w).holder == s.holder
  {
    var p := WaitOf(s, w);
    if p == Add {
      hide Without, Sema, Flagging, P;
    } else {
      if Canceling(p) {
        if p.CSkip? || p.CLoad? || p.CLock? || p.CTest? { CancelBegins(ctx, s, w); } else { CancelEnds(ctx, s, w); }
      } else {
        OutOfWindow(ctx, s, w);
      }
      hide StepWait, NodeInv;
    }
  }

  lemma OutOfWindow(ctx: Waiter -> Context, s: State, w: Waiter)
    requires !InWindow(WaitOf(s, w)) && !Canceling(WaitOf(s, w)) && WaitOf(s, w) != Add
    ensures !InWindow(WaitOf(StepWait(ctx, s, w), w))
  {
    hide Without, Sema;
  }

  lemma SpeaksHeard(ctx: Waiter -> Context, s: State, e: Event, w: Waiter, v: Stay)
    requires Enabled(s, e) && e != BeginWait(w) && Heard(s, w, v) && Speaks(s, Step(ctx, s, e))
    requires InWindow(WaitOf(s, w)) && (w in Step(ctx, s, e).waitset ==> w in s.waitset)
    ensures Heard(Step(ctx, s, e), w, Sees(ctx, s, e, w, v))
  {
    hide Step;
  }

  lemma StepHeard(ctx: Waiter -> Context, s: State, e: Event, w: Waiter, v: Stay)
    requires Inv(ctx, s) && Enabled(s, e) && Heard(s, w, v)
    ensures Heard(Step(ctx, s, e), w, Sees(ctx, s, e, w, v))
  {
    assert NodeInv(s, w);
    StepSpeaks(ctx, s, e);
    if e == BeginWait(w) || e == BeginDestroy(w) {
      hide Inv, NodeInv, Speaks;
    } else if e == WaitStep(w) {
      hide Inv, Speaks;
      if InWindow(WaitOf(s, w)) { LeavesSetAlone(ctx, s, w); hide StepWait, NodeInv; SpeaksHeard(ctx, s, e, w, v); }
      else if InWindow(WaitOf(StepWait(ctx, s, w), w)) { IntoWindow(ctx, s, w); hide StepWait, NodeInv; }
      else { hide StepWait, NodeInv; }
    } else {
      OtherBeside(ctx, s, e, w);
      hide Inv, Speaks, NodeInv, Step, Heard;
      if InWindow(WaitOf(s, w)) { SpeaksHeard(ctx, s, e, w, v); } else { NotInWindow(Step(ctx, s, e), w, Sees(ctx, s, e, w, v)); }
    }
  }

  lemma NotInWindow(s: State, w: Waiter, v: Stay)
    requires !InWindow(WaitOf(s, w))
    ensures Heard(s, w, v)
  {
  }

  lemma LeavesSetAlone(ctx: Waiter -> Context, s: State, w: Waiter)
    requires InWindow(WaitOf(s, w))
    ensures StepWait(ctx, s, w).waitset == s.waitset
  {
    hide Without;
  }

  lemma {:induction false} RunHeard(ctx: Waiter -> Context, s: State, es: seq<Event>, w: Waiter, v: Stay)
    requires Inv(ctx, s) && CanRun(ctx, s, es) && Heard(s, w, v)
    ensures Heard(Run(ctx, s, es), w, StayOf(ctx, s, es, w, v))
    decreases |es|
  {
    hide Inv, Step, Enabled, Heard, Sees;
    if es != [] {
      StepInv(ctx, s, es[0]);
      StepHeard(ctx, s, es[0], w, v);
      RunHeard(ctx, Step(ctx, s, es[0]), es[1..], w, Sees(ctx, s, es[0], w, v));
    }
  }

  /** A waiter whose condition did not hold goes to sleep exactly if the epoch has not
      moved since its node entered the set: always if no notification has had the lock
      since, and never if one has had it and left it. */
  lemma SleepsUnlessNotified(ctx: Waiter -> Context, es: seq<Event>, w: Waiter)
    requires CanRun(ctx, Init, es) && WaitOf(Run(ctx, Init, es), w) == Compare
    ensures var v, sleeps := StayOf(ctx, Init, es, w, NEW), WaitOf(StepWait(ctx, Run(ctx, Init, es), w), w) == Sleep;
      (sleeps <==> !v.moved) && (!v.got ==> sleeps) && (v.left ==> !sleeps)
  {
    InitInv(ctx);
    hide Inv, Run, CanRun, StayOf;
    RunStays(ctx, Init, es, w, NEW);
    RunHeard(ctx, Init, es, w, NEW);
  }

  /** A waiter stands still only while it waits for the lock that another has, for a
      post, or, with a skipped wakeup to collect, for the one in a notifier's hand. */
  lemma WaitsForPostOrLock(ctx: Waiter -> Context, s: State, w: Waiter)
    requires Reachable(ctx, s) && WaitOf(s, w) != Out && WaitOf(s, w) != Dead
    requires WaitOf(StepWait(ctx, s, w), w) == WaitOf(s, w)
    ensures var p := WaitOf(s, w);
      || (s.holder != Nobody && (p.PLock? || p.CLock?))
      || (Sema(s, w) == 0 && (p == Sleep || ((p == Pump || p == Destroy) && w in s.inHand)))
  {
    ReachableInv(ctx, s);
    assert NodeInv(s, w);
    hide Inv, StepWait;
    StandsStill(ctx, s, w);
  }

  lemma StandsStill(ctx: Waiter -> Context, s: State, w: Waiter)
    requires WaitOf(s, w) != Out && WaitOf(s, w) != Dead && WaitOf(StepWait(ctx, s, w), w) == WaitOf(s, w)
    ensures var p := WaitOf(s, w);
      || (s.holder != Nobody && (p.PLock? || p.CLock?))
      || (Sema(s, w) == 0 && (p == Sleep || p == Pump || (p == Destroy && w in s.skipped)))
  {
    hide Without;
  }

  /** A notification never waits but for the lock. */
  lemma NotifierWaitsForLock(ctx: Waiter -> Context, s: State, n: NotifierId)
    requires n in s.notify
    ensures exists w :: var s' := StepNotify(ctx, s, n, w);
      n !in s'.notify || s'.notify[n] != s.notify[n] || (s.notify[n].NLock? && s.holder != Nobody)
  {
    hide Targets, Flush, Without, Sema;
    var p := s.notify[n];
    var w := if p.NScan? && p.todo != {} then Pick(p.todo) else if p.NClear? && p.todo != {} then Pick(p.todo)
             else if p.NWake? && p.taken != {} then Pick(p.taken) else 0;
    var s' := StepNotify(ctx, s, n, w);
    assert n !in s'.notify || s'.notify[n] != s.notify[n] || (s.notify[n].NLock? && s.holder != Nobody);
  }

  ghost function Pick(q: set<Waiter>): (w: Waiter)
    requires q != {}
    ensures w in q
  {
    var w :| w in q; w
  }
}
