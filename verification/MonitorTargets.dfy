/** Whom a notification of the event monitor wakes. What a call takes out of the wait
    set and to whom it posts is read off the run; it is compared with the set as it
    was when the call got the lock. */
module MonitorTargets {
  import opened Common
  import opened ConcurrentMonitor

  /** A notification as seen from outside: what it was called for, whether it has had
      the lock, the wait set at that moment, the nodes it took out and its posts. */
  datatype Notice = Notice(kind: Kind, locked: bool, set0: seq<Waiter>, took: set<Waiter>, posted: multiset<Waiter>)

  function Left(s: State, s': State): set<Waiter> { set w | w in s.waitset && w !in s'.waitset }

  function Raised(s: State, s': State): set<Waiter> { set w | w in s'.sema && Sema(s', w) > Sema(s, w) }

  function Seen(s: State, s': State, n: NotifierId, v: Notice): Notice {
    var locks := s.holder != N(n) && s'.holder == N(n);
    Notice(v.kind, v.locked || locks, if locks then s.waitset else v.set0,
           v.took + Left(s, s'), v.posted + multiset(Raised(s, s')))
  }

  function Sees(ctx: Waiter -> Context, s: State, e: Event, n: NotifierId, v: Notice): Notice
    requires Enabled(s, e)
  {
    if e.BeginNotify? && e.n == n then Notice(e.kind, false, [], {}, multiset{})
    else if e.NotifyStep? && e.n == n then Seen(s, Step(ctx, s, e), n, v)
    else v
  }

  function NoticeOf(ctx: Waiter -> Context, s: State, es: seq<Event>, n: NotifierId, v: Notice): Notice
    requires CanRun(ctx, s, es)
    decreases |es|
  {
    if es == [] then v else NoticeOf(ctx, Step(ctx, s, es[0]), es[1..], n, Sees(ctx, s, es[0], n, v))
  }

  /** Whom a notification of this kind is for, the wait set being `q`: the node at the
      front, all, those with a matching context, or the last one of these. */
  ghost predicate Meant(ctx: Waiter -> Context, kind: Kind, q: seq<Waiter>, t: set<Waiter>) {
    match kind
    case One => t == if q == [] then {} else {q[0]}
    case All => forall w :: w in t <==> w in q
    case Matching(cs) => forall w :: w in t <==> w in q && ctx(w) in cs
    case OneMatching(cs) =>
      || (t == {} && forall i :: 0 <= i < |q| ==> ctx(q[i]) !in cs)
      || exists i :: 0 <= i < |q| && ctx(q[i]) in cs && t == {q[i]} && forall j :: i < j < |q| ==> ctx(q[j]) !in cs
  }

  ghost predicate NoticeOk(ctx: Waiter -> Context, s: State, p: Notify, v: Notice) {
    match p
    case NCheck(k) => v == Notice(k, false, [], {}, multiset{})
    case NLock(k) => v == Notice(k, false, [], {}, multiset{})
    case NEpoch(k) => v == Notice(k, true, s.waitset, {}, multiset{})
    case NScan(todo, taken) => v.locked && v.took == taken && v.posted == multiset{} && Meant(ctx, v.kind, v.set0, todo + taken)
    case NFlag(todo, taken, w) =>
      v.locked && v.took == taken + {w} && v.posted == multiset{} && Meant(ctx, v.kind, v.set0, todo + taken + {w})
    case NFlush => v == Notice(All, true, s.waitset, {}, multiset{})
    case NClear(todo, taken) =>
      v.locked && v.took == todo + taken && v.posted == multiset{} && Meant(ctx, v.kind, v.set0, v.took)
    case NUnlock(taken) => v.locked && v.took == taken && v.posted == multiset{} && Meant(ctx, v.kind, v.set0, v.took)
    case NWake(taken) =>
      v.locked && v.posted + multiset(taken) == multiset(v.took) && Meant(ctx, v.kind, v.set0, v.took)
  }

  ghost predicate Noticed(ctx: Waiter -> Context, s: State, n: NotifierId, v: Notice) {
    n in s.notify ==> NoticeOk(ctx, s, s.notify[n], v)
  }

  // ----------------------------------------------------------- the scan

  lemma {:induction false} LastIsMeant(ctx: Waiter -> Context, cs: set<Context>, q: seq<Waiter>)
    ensures Meant(ctx, OneMatching(cs), q, LastMatching(ctx, cs, q))
  {
    if q != [] {
      var n := |q| - 1;
      if ctx(q[n]) !in cs {
        LastIsMeant(ctx, cs, q[..n]);
        if i :| 0 <= i < n && ctx(q[..n][i]) in cs && LastMatching(ctx, cs, q[..n]) == {q[..n][i]}
                && forall j :: i < j < n ==> ctx(q[..n][j]) !in cs {
          assert ctx(q[i]) in cs && forall j :: i < j < |q| ==> ctx(q[j]) !in cs by {
            forall j | i < j < |q| ensures ctx(q[j]) !in cs { if j < n { assert q[..n][j] == q[j]; } }
          }
        } else {
          forall j | 0 <= j < |q| ensures ctx(q[j]) !in cs { if j < n { assert q[..n][j] == q[j]; } }
        }
      }
    }
  }

  lemma TargetsAreMeant(ctx: Waiter -> Context, kind: Kind, q: seq<Waiter>)
    ensures Meant(ctx, kind, q, Targets(ctx, kind, q))
  {
    if kind.OneMatching? { LastIsMeant(ctx, kind.contexts, q); }
    hide LastMatching;
  }

  // ----------------------------------------------------------- its steps

  lemma NobodyRaised(s: State, s': State)
    requires s'.sema == s.sema
    ensures Raised(s, s') == {}
  {
  }

  lemma NobodyLeft(s: State, s': State)
    requires forall w :: w in s.waitset ==> w in s'.waitset
    ensures Left(s, s') == {}
  {
  }

  /** A step that neither takes anybody out nor posts. */
  lemma Quiet(s: State, s': State, n: NotifierId, v: Notice)
    requires s'.sema == s.sema && s'.waitset == s.waitset
    ensures Seen(s, s', n, v) == if s.holder != N(n) && s'.holder == N(n) then v.(locked := true, set0 := s.waitset) else v
  {
    NobodyRaised(s, s');
    NobodyLeft(s, s');
    hide Left, Raised;
  }

  lemma CheckNoticed(ctx: Waiter -> Context, s: State, n: NotifierId, w: Waiter, v: Notice)
    requires n in s.notify && NoticeOk(ctx, s, s.notify[n], v) && NotifierInv(s, n) && s.notify[n].NCheck?
    ensures Noticed(ctx, StepNotify(ctx, s, n, w), n, Seen(s, StepNotify(ctx, s, n, w), n, v))
  {
    hide Meant, Holds, TodoOk, Seen;
    var s' := StepNotify(ctx, s, n, w);
    Quiet(s, s', n, v);
  }

  lemma LockNoticed(ctx: Waiter -> Context, s: State, n: NotifierId, w: Waiter, v: Notice)
    requires n in s.notify && NoticeOk(ctx, s, s.notify[n], v) && NotifierInv(s, n) && s.notify[n].NLock?
    ensures Noticed(ctx, StepNotify(ctx, s, n, w), n, Seen(s, StepNotify(ctx, s, n, w), n, v))
  {
    hide Meant, Holds, TodoOk, Seen;
    var s' := StepNotify(ctx, s, n, w);
    Quiet(s, s', n, v);
  }

  lemma UnlockNoticed(ctx: Waiter -> Context, s: State, n: NotifierId, w: Waiter, v: Notice)
    requires n in s.notify && NoticeOk(ctx, s, s.notify[n], v) && NotifierInv(s, n) && s.notify[n].NUnlock?
    ensures Noticed(ctx, StepNotify(ctx, s, n, w), n, Seen(s, StepNotify(ctx, s, n, w), n, v))
  {
    hide Holds, TodoOk, Seen;
    var s', taken := StepNotify(ctx, s, n, w), s.notify[n].taken;
    Quiet(s, s', n, v);
    assert s'.notify == s.notify[n := NWake(taken)] && s'.holder == Nobody && s.holder == N(n);
    assert multiset{} + multiset(taken) == multiset(v.took);
    hide Meant, StepNotify;
  }

  lemma EpochNoticed(ctx: Waiter -> Context, s: State, n: NotifierId, w: Waiter, v: Notice)
    requires n in s.notify && NoticeOk(ctx, s, s.notify[n], v) && NotifierInv(s, n) && s.notify[n].NEpoch?
    ensures Noticed(ctx, StepNotify(ctx, s, n, w), n, Seen(s, StepNotify(ctx, s, n, w), n, v))
  {
    TargetsAreMeant(ctx, s.notify[n].kind, s.waitset);
    hide Meant, Holds, TodoOk, Seen, Targets;
    var s' := StepNotify(ctx, s, n, w);
    Quiet(s, s', n, v);
    assert Targets(ctx, s.notify[n].kind, s.waitset) + {} == Targets(ctx, s.notify[n].kind, s.waitset);
  }

  lemma ScanNoticed(ctx: Waiter -> Context, s: State, n: NotifierId, w: Waiter, v: Notice)
    requires n in s.notify && NoticeOk(ctx, s, s.notify[n], v) && NotifierInv(s, n) && s.notify[n].NScan?
    ensures Noticed(ctx, StepNotify(ctx, s, n, w), n, Seen(s, StepNotify(ctx, s, n, w), n, v))
  {
    hide Meant, Holds, Without, Seen;
    var s' := StepNotify(ctx, s, n, w);
    var NScan(todo, taken) := s.notify[n];
    if w in todo {
      assert s'.notify == s.notify[n := NFlag(todo - {w}, taken, w)] && s'.holder == s.holder && s'.sema == s.sema;
      assert forall u :: u in s'.waitset <==> u in s.waitset && u != w;
      hide StepNotify;
      OneLeaves(s, s', n, w, v);
      assert todo + taken == (todo - {w}) + taken + {w};
    } else {
      Quiet(s, s', n, v);
      assert {} + taken == taken;
    }
  }

  lemma OneLeaves(s: State, s': State, n: NotifierId, w: Waiter, v: Notice)
    requires s'.sema == s.sema && s'.holder == s.holder && w in s.waitset
    requires forall u :: u in s'.waitset <==> u in s.waitset && u != w
    ensures Seen(s, s', n, v) == v.(took := v.took + {w})
  {
    NobodyRaised(s, s');
    assert Left(s, s') == {w};
    hide Raised, Left;
  }

  lemma FlagNoticed(ctx: Waiter -> Context, s: State, n: NotifierId, w: Waiter, v: Notice)
    requires n in s.notify && NoticeOk(ctx, s, s.notify[n], v) && NotifierInv(s, n) && s.notify[n].NFlag?
    ensures Noticed(ctx, StepNotify(ctx, s, n, w), n, Seen(s, StepNotify(ctx, s, n, w), n, v))
  {
    hide Meant, Holds, TodoOk, Seen;
    var s' := StepNotify(ctx, s, n, w);
    var NFlag(todo, taken, u) := s.notify[n];
    Quiet(s, s', n, v);
    assert todo + taken + {u} == todo + (taken + {u});
  }

  lemma FlushNoticed(ctx: Waiter -> Context, s: State, n: NotifierId, w: Waiter, v: Notice)
    requires n in s.notify && NoticeOk(ctx, s, s.notify[n], v) && NotifierInv(s, n) && s.notify[n].NFlush?
    ensures Noticed(ctx, StepNotify(ctx, s, n, w), n, Seen(s, StepNotify(ctx, s, n, w), n, v))
  {
    hide Holds, TodoOk, Seen, Flush;
    var s' := StepNotify(ctx, s, n, w);
    var all := set u | u in s.waitset;
    assert s'.notify == s.notify[n := NClear(all, {})] && s'.holder == s.holder && s'.sema == s.sema && s'.waitset == [];
    hide StepNotify;
    AllLeave(s, s', n, v);
    assert {} + all == all + {} == all;
  }

  lemma AllLeave(s: State, s': State, n: NotifierId, v: Notice)
    requires s'.sema == s.sema && s'.holder == s.holder && s'.waitset == []
    ensures Seen(s, s', n, v) == v.(took := v.took + set w | w in s.waitset)
  {
    NobodyRaised(s, s');
    assert Left(s, s') == set w | w in s.waitset;
    hide Raised, Left;
  }

  lemma ClearNoticed(ctx: Waiter -> Context, s: State, n: NotifierId, w: Waiter, v: Notice)
    requires n in s.notify && NoticeOk(ctx, s, s.notify[n], v) && NotifierInv(s, n) && s.notify[n].NClear?
    ensures Noticed(ctx, StepNotify(ctx, s, n, w), n, Seen(s, StepNotify(ctx, s, n, w), n, v))
  {
    hide Meant, Holds, TodoOk, Seen;
    var s' := StepNotify(ctx, s, n, w);
    var NClear(todo, taken) := s.notify[n];
    Quiet(s, s', n, v);
    hide Sema;
    if w in todo { assert (todo - {w}) + (taken + {w}) == todo + taken; }
    assert todo == {} ==> todo + taken == taken;
  }

  lemma WakeNoticed(ctx: Waiter -> Context, s: State, n: NotifierId, w: Waiter, v: Notice)
    requires n in s.notify && NoticeOk(ctx, s, s.notify[n], v) && NotifierInv(s, n) && s.notify[n].NWake?
    ensures Noticed(ctx, StepNotify(ctx, s, n, w), n, Seen(s, StepNotify(ctx, s, n, w), n, v))
  {
    hide Meant, Holds, TodoOk, Seen;
    var s', taken := StepNotify(ctx, s, n, w), s.notify[n].taken;
    if w in taken {
      assert s'.notify == s.notify[n := NWake(taken - {w})] && s'.holder == s.holder && s'.waitset == s.waitset;
      assert s'.sema == s.sema[w := Sema(s, w) + 1];
      hide StepNotify;
      OneRaised(s, s', n, w, v);
      assert multiset(taken) == multiset{w} + multiset(taken - {w});
    } else {
      Quiet(s, s', n, v);
    }
  }

  lemma OneRaised(s: State, s': State, n: NotifierId, w: Waiter, v: Notice)
    requires s'.waitset == s.waitset && s'.holder == s.holder && s'.sema == s.sema[w := Sema(s, w) + 1]
    ensures Seen(s, s', n, v) == v.(posted := v.posted + multiset{w})
  {
    NobodyLeft(s, s');
    assert Raised(s, s') == {w};
    assert multiset({w}) == multiset{w};
    hide Left, Raised;
  }

  lemma OwnStepNoticed(ctx: Waiter -> Context, s: State, n: NotifierId, w: Waiter, v: Notice)
    requires Inv(ctx, s) && n in s.notify && Noticed(ctx, s, n, v)
    ensures Noticed(ctx, StepNotify(ctx, s, n, w), n, Sees(ctx, s, NotifyStep(n, w), n, v))
  {
    assert NotifierInv(s, n) && NoticeOk(ctx, s, s.notify[n], v);
    hide Inv, NotifierInv, NoticeOk, StepNotify, Seen;
    assert Sees(ctx, s, NotifyStep(n, w), n, v) == Seen(s, StepNotify(ctx, s, n, w), n, v);
    hide Sees, Noticed;
    match s.notify[n]
    case NCheck(_) => CheckNoticed(ctx, s, n, w, v);
    case NLock(_) => LockNoticed(ctx, s, n, w, v);
    case NEpoch(_) => EpochNoticed(ctx, s, n, w, v);
    case NScan(_, _) => ScanNoticed(ctx, s, n, w, v);
    case NFlag(_, _, _) => FlagNoticed(ctx, s, n, w, v);
    case NFlush => FlushNoticed(ctx, s, n, w, v);
    case NClear(_, _) => ClearNoticed(ctx, s, n, w, v);
    case NUnlock(_) => UnlockNoticed(ctx, s, n, w, v);
    case NWake(_) => WakeNoticed(ctx, s, n, w, v);
  }

  // ----------------------------------------------------- everybody else

  /** While `n` has the lock nobody else touches the wait set. */
  ghost predicate Undisturbed(s: State, s': State, n: NotifierId) {
    && (n in s'.notify <==> n in s.notify) && (n in s.notify ==> s'.notify[n] == s.notify[n])
    && (s.holder == N(n) ==> s'.waitset == s.waitset)
  }

  lemma WaiterUndisturbs(ctx: Waiter -> Context, s: State, w: Waiter, n: NotifierId)
    requires NodeInv(s, w)
    ensures Undisturbed(s, StepWait(ctx, s, w), n)
  {
    hide NodeOk, Flagging, Due, StepWait;
    if Canceling(WaitOf(s, w)) { CancelerKeeps(ctx, s, w); }
    else if Semaphoring(WaitOf(s, w)) { SemaphoreKeeps(ctx, s, w); }
    else if Joining(WaitOf(s, w)) { JoinerKeeps(ctx, s, w); }
    else { EntrantKeeps(ctx, s, w); }
  }

  /** Only with the lock a waiter adds its node to the set or takes it out. */
  ghost predicate TouchesLocked(s: State, s': State, w: Waiter) {
    s'.notify == s.notify && (HasLock(WaitOf(s, w)) || s'.waitset == s.waitset)
  }

  lemma CancelerKeeps(ctx: Waiter -> Context, s: State, w: Waiter)
    requires Canceling(WaitOf(s, w))
    ensures TouchesLocked(s, StepWait(ctx, s, w), w)
  {
    hide StepWait, TouchesLocked;
    var p := WaitOf(s, w);
    if p.CSkip? || p.CLoad? || p.CLock? || p.CTest? { CancelBeginKeeps(ctx, s, w); } else { CancelEndKeeps(ctx, s, w); }
  }

  lemma CancelBeginKeeps(ctx: Waiter -> Context, s: State, w: Waiter)
    requires var p := WaitOf(s, w); p.CSkip? || p.CLoad? || p.CLock? || p.CTest?
    ensures TouchesLocked(s, StepWait(ctx, s, w), w)
  {
    hide Without, Sema;
  }

  lemma CancelEndKeeps(ctx: Waiter -> Context, s: State, w: Waiter)
    requires var p := WaitOf(s, w); p.CRemove? || p.CFlag? || p.CUnskip? || p.CUnlock?
    ensures TouchesLocked(s, StepWait(ctx, s, w), w)
  {
    hide Without, Sema;
  }

  predicate Semaphoring(p: Wait) { p.Pump? || p.Sleep? || p.Destroy? }

  predicate Joining(p: Wait) { p.ReadEpoch? || p.Add? || p.PUnlock? }

  lemma JoinerKeeps(ctx: Waiter -> Context, s: State, w: Waiter)
    requires Joining(WaitOf(s, w))
    ensures TouchesLocked(s, StepWait(ctx, s, w), w)
  {
    hide Without, P;
  }

  lemma EntrantKeeps(ctx: Waiter -> Context, s: State, w: Waiter)
    requires !Canceling(WaitOf(s, w)) && !Semaphoring(WaitOf(s, w)) && !Joining(WaitOf(s, w))
    ensures TouchesLocked(s, StepWait(ctx, s, w), w)
  {
    hide Without, P;
  }

  lemma SemaphoreKeeps(ctx: Waiter -> Context, s: State, w: Waiter)
    requires Semaphoring(WaitOf(s, w))
    ensures TouchesLocked(s, StepWait(ctx, s, w), w)
  {
    hide Without, Sema;
  }

  lemma NotifierUndisturbs(ctx: Waiter -> Context, s: State, m: NotifierId, w: Waiter, n: NotifierId)
    requires m in s.notify && NotifierInv(s, m) && m != n
    ensures Undisturbed(s, StepNotify(ctx, s, m, w), n)
  {
    hide StepNotify, Holds, TodoOk;
    Alone(ctx, s, m, w);
    if !s.notify[m].NScan? && !s.notify[m].NFlush? { KeepsWaitset(ctx, s, m, w); }
  }

  /** Before a notification has looked at the nodes, and after. */
  predicate Early(p: Notify) { p.NCheck? || p.NLock? || p.NEpoch? || p.NUnlock? }

  ghost predicate AloneMoves(s: State, s': State, m: NotifierId) {
    forall n :: n != m ==> (n in s'.notify <==> n in s.notify) && (n in s.notify ==> s'.notify[n] == s.notify[n])
  }

  lemma EarlyAlone(ctx: Waiter -> Context, s: State, m: NotifierId, w: Waiter)
    requires m in s.notify && Early(s.notify[m])
    ensures var s' := StepNotify(ctx, s, m, w);
      && AloneMoves(s, s', m)
      && (m !in s'.notify ==> s.notify[m].NCheck? && s.waitset == [])
  {
    hide Without, Targets, Flush, Sema;
  }

  lemma ScanAlone(ctx: Waiter -> Context, s: State, m: NotifierId, w: Waiter)
    requires m in s.notify && !Early(s.notify[m]) && !s.notify[m].NWake?
    ensures AloneMoves(s, StepNotify(ctx, s, m, w), m) && m in StepNotify(ctx, s, m, w).notify
  {
    hide Without, Targets, Flush, Sema;
  }

  lemma WakeAlone(ctx: Waiter -> Context, s: State, m: NotifierId, w: Waiter)
    requires m in s.notify && s.notify[m].NWake?
    ensures var s' := StepNotify(ctx, s, m, w); AloneMoves(s, s', m) && (m !in s'.notify ==> s.notify[m].taken == {})
  {
    hide Without, Targets, Flush, Sema;
  }

  lemma Alone(ctx: Waiter -> Context, s: State, m: NotifierId, w: Waiter)
    requires m in s.notify
    ensures var s' := StepNotify(ctx, s, m, w);
      && AloneMoves(s, s', m)
      && (m !in s'.notify ==> (s.notify[m].NCheck? && s.waitset == []) || s.notify[m] == NWake({}))
  {
    hide StepNotify, AloneMoves;
    if Early(s.notify[m]) { EarlyAlone(ctx, s, m, w); }
    else if s.notify[m].NWake? { WakeAlone(ctx, s, m, w); }
    else { ScanAlone(ctx, s, m, w); }
  }

  lemma KeepsWaitset(ctx: Waiter -> Context, s: State, m: NotifierId, w: Waiter)
    requires m in s.notify && !s.notify[m].NScan? && !s.notify[m].NFlush?
    ensures StepNotify(ctx, s, m, w).waitset == s.waitset
  {
    hide Targets, Sema;
  }

  lemma OtherUndisturbs(ctx: Waiter -> Context, s: State, e: Event, n: NotifierId)
    requires Inv(ctx, s) && Enabled(s, e) && !(e.NotifyStep? && e.n == n) && !(e.BeginNotify? && e.n == n)
    ensures Undisturbed(s, Step(ctx, s, e), n)
  {
    if e.WaitStep? { assert NodeInv(s, e.w); }
    if e.NotifyStep? { assert NotifierInv(s, e.n); }
    hide Inv, NodeInv, NotifierInv, StepWait, StepNotify;
    match e
    case WaitStep(w) => WaiterUndisturbs(ctx, s, w, n);
    case NotifyStep(m, w) => NotifierUndisturbs(ctx, s, m, w, n);
    case _ =>
  }

  lemma StillNoticed(ctx: Waiter -> Context, s: State, s': State, n: NotifierId, v: Notice)
    requires Noticed(ctx, s, n, v) && Undisturbed(s, s', n) && NotifierInv(s, n)
    ensures Noticed(ctx, s', n, v)
  {
    hide Meant, Holds, TodoOk;
  }

  lemma StepNoticed(ctx: Waiter -> Context, s: State, e: Event, n: NotifierId, v: Notice)
    requires Inv(ctx, s) && Enabled(s, e) && Noticed(ctx, s, n, v)
    ensures Noticed(ctx, Step(ctx, s, e), n, Sees(ctx, s, e, n, v))
  {
    assert NotifierInv(s, n);
    hide Inv, NotifierInv, StepWait, StepNotify, Meant, Seen, Undisturbed;
    if e.NotifyStep? && e.n == n {
      OwnStepNoticed(ctx, s, n, e.w, v);
    } else if !(e.BeginNotify? && e.n == n) {
      OtherUndisturbs(ctx, s, e, n);
      StillNoticed(ctx, s, Step(ctx, s, e), n, v);
    }
  }

  lemma {:induction false} RunNoticed(ctx: Waiter -> Context, s: State, es: seq<Event>, n: NotifierId, v: Notice)
    requires Inv(ctx, s) && CanRun(ctx, s, es) && Noticed(ctx, s, n, v)
    ensures Inv(ctx, Run(ctx, s, es)) && Noticed(ctx, Run(ctx, s, es), n, NoticeOf(ctx, s, es, n, v))
    decreases |es|
  {
    hide Inv, Step, Enabled, Noticed, Sees;
    if es != [] {
      StepInv(ctx, s, es[0]);
      StepNoticed(ctx, s, es[0], n, v);
      RunNoticed(ctx, Step(ctx, s, es[0]), es[1..], n, Sees(ctx, s, es[0], n, v));
    }
  }

  const BLANK := Notice(One, false, [], {}, multiset{})

  lemma EndsNoticed(ctx: Waiter -> Context, s: State, n: NotifierId, w: Waiter, v: Notice)
    requires n in s.notify && NoticeOk(ctx, s, s.notify[n], v) && n !in StepNotify(ctx, s, n, w).notify
    ensures v.posted == multiset(v.took)
    ensures if v.locked then Meant(ctx, v.kind, v.set0, v.took) else v.took == {} && s.waitset == []
  {
    hide Meant, StepNotify;
    Alone(ctx, s, n, w);
    assert s.notify[n].NWake? ==> v.posted + multiset(s.notify[n].taken) == v.posted;
  }

  /** A notification that returns has found nobody waiting; or it has taken out of the
      set, as it was when it got the lock, exactly those whom a notification of the
      kind it was called for is meant for, and posted once to each of them. */
  lemma NotifiesWhomItIsFor(ctx: Waiter -> Context, es: seq<Event>, n: NotifierId, w: Waiter)
    requires CanRun(ctx, Init, es) && n in Run(ctx, Init, es).notify
    requires n !in StepNotify(ctx, Run(ctx, Init, es), n, w).notify
    ensures var v := NoticeOf(ctx, Init, es, n, BLANK);
      && v.posted == multiset(v.took)
      && if v.locked then Meant(ctx, v.kind, v.set0, v.took) else v.took == {} && Run(ctx, Init, es).waitset == []
  {
    InitInv(ctx);
    hide Inv, Run, CanRun, NoticeOf, NoticeOk, StepNotify, Meant;
    RunNoticed(ctx, Init, es, n, BLANK);
    EndsNoticed(ctx, Run(ctx, Init, es), n, w, NoticeOf(ctx, Init, es, n, BLANK));
  }

  // -------------------------------------------------- the order in the set

  /** When `w` last entered the set, counted in events; `at`, if it does not. */
  function Entered(ctx: Waiter -> Context, s: State, es: seq<Event>, w: Waiter, at: int, now: nat): int
    requires CanRun(ctx, s, es)
    decreases |es|
  {
    if es == [] then at
    else var s' := Step(ctx, s, es[0]); Entered(ctx, s', es[1..], w, Enters(s, s', w, at, now), now + 1)
  }

  function Enters(s: State, s': State, w: Waiter, at: int, now: nat): int {
    if w in s'.waitset && w !in s.waitset then now else at
  }

  ghost predicate InOrder(q: seq<Waiter>, at: Waiter -> int, now: nat) {
    && (forall w :: w in q ==> 0 <= at(w) < now)
    && (forall i, j :: 0 <= i < j < |q| ==> at(q[i]) < at(q[j]))
  }

  lemma {:induction false} WithoutInOrder(q: seq<Waiter>, w: Waiter, at: Waiter -> int, now: nat)
    requires InOrder(q, at, now)
    ensures InOrder(Without(q, w), at, now)
  {
    if q != [] {
      WithoutInOrder(q[1..], w, at, now);
      if q[0] != w {
        var r := [q[0]] + Without(q[1..], w);
        forall i, j | 0 <= i < j < |r| ensures at(r[i]) < at(r[j]) {
          if i == 0 {
            assert r[j] in Without(q[1..], w);
            var k :| 0 <= k < |q[1..]| && q[1..][k] == r[j];
            assert q[k + 1] == r[j];
          }
        }
      }
    }
  }

  /** The set stays, loses a node, or gets one at the end. */
  ghost predicate SetMove(s: State, s': State) {
    || s'.waitset == s.waitset || s'.waitset == []
    || (exists w :: s'.waitset == Without(s.waitset, w))
    || (exists w :: w !in s.waitset && s'.waitset == s.waitset + [w])
  }

  lemma WaitSetMove(ctx: Waiter -> Context, s: State, w: Waiter)
    requires NodeInv(s, w)
    ensures SetMove(s, StepWait(ctx, s, w))
  {
    hide Without, Flagging, Due;
    if WaitOf(s, w).Add? { assert w !in s.waitset; }
    if WaitOf(s, w).CRemove? { assert StepWait(ctx, s, w).waitset == Without(s.waitset, w); }
  }

  lemma NotifySetMove(ctx: Waiter -> Context, s: State, n: NotifierId, w: Waiter)
    requires n in s.notify
    ensures SetMove(s, StepNotify(ctx, s, n, w))
  {
    if !s.notify[n].NScan? && !s.notify[n].NFlush? { KeepsWaitset(ctx, s, n, w); hide StepNotify; }
    else {
      hide Without, Targets, Flush;
      if s.notify[n].NScan? && w in s.notify[n].todo {
        assert StepNotify(ctx, s, n, w).waitset == Without(s.waitset, w);
      }
    }
  }

  /** Those who were in the set keep their times, and a newcomer gets the latest. */
  lemma MoveInOrder(s: State, s': State, at: Waiter -> int, at': Waiter -> int, now: nat)
    requires InOrder(s.waitset, at, now) && SetMove(s, s') && forall w :: at'(w) == Enters(s, s', w, at(w), now)
    ensures InOrder(s'.waitset, at', now + 1)
  {
    assert InOrder(s.waitset, at', now);
    hide InOrder, Without;
    NoLaterIn(s.waitset, at', now);
    if s'.waitset == s.waitset || s'.waitset == [] {
    } else if w :| s'.waitset == Without(s.waitset, w) {
      WithoutInOrder(s.waitset, w, at', now);
      NoLaterIn(s'.waitset, at', now);
    } else {
      var w :| w !in s.waitset && s'.waitset == s.waitset + [w];
      LastIn(s.waitset, w, at', now);
    }
  }

  lemma NoLaterIn(q: seq<Waiter>, at: Waiter -> int, now: nat)
    requires InOrder(q, at, now)
    ensures InOrder(q, at, now + 1) && InOrder([], at, now + 1)
  {
  }

  lemma LastIn(q: seq<Waiter>, w: Waiter, at: Waiter -> int, now: nat)
    requires InOrder(q, at, now) && at(w) == now
    ensures InOrder(q + [w], at, now + 1)
  {
    forall v | v in q + [w] ensures 0 <= at(v) < now + 1 {}
  }

  lemma StepSetMove(ctx: Waiter -> Context, s: State, e: Event)
    requires Inv(ctx, s) && Enabled(s, e)
    ensures SetMove(s, Step(ctx, s, e))
  {
    if e.WaitStep? { assert NodeInv(s, e.w); }
    hide Inv, NodeInv, StepWait, StepNotify;
    match e
    case WaitStep(w) => hide SetMove; WaitSetMove(ctx, s, w);
    case NotifyStep(n, w) => hide SetMove; NotifySetMove(ctx, s, n, w);
    case _ =>
  }

  lemma {:induction false} RunInOrder(ctx: Waiter -> Context, s: State, es: seq<Event>, at: Waiter -> int, now: nat, i: nat, j: nat)
    requires Inv(ctx, s) && CanRun(ctx, s, es) && InOrder(s.waitset, at, now)
    requires i < j < |Run(ctx, s, es).waitset|
    ensures var q := Run(ctx, s, es).waitset;
      0 <= Entered(ctx, s, es, q[i], at(q[i]), now) < Entered(ctx, s, es, q[j], at(q[j]), now)
    decreases |es|
  {
    hide Inv, Step, Enabled, InOrder, SetMove, Enters;
    if es == [] {
      SetInOrder(s.waitset, at, now, i, j);
    } else {
      var s' := Step(ctx, s, es[0]);
      var at' := (w: Waiter) => Enters(s, s', w, at(w), now);
      StepInv(ctx, s, es[0]);
      StepSetMove(ctx, s, es[0]);
      MoveInOrder(s, s', at, at', now);
      RunInOrder(ctx, s', es[1..], at', now + 1, i, j);
    }
  }

  lemma SetInOrder(q: seq<Waiter>, at: Waiter -> int, now: nat, i: nat, j: nat)
    requires InOrder(q, at, now) && i < j < |q|
    ensures 0 <= at(q[i]) < at(q[j])
  {
    assert q[i] in q;
  }

  /** The nodes stand in the set in the order in which they entered it, so the one at
      the front has waited longest. */
  lemma {:induction false} LongestWaitingFirst(ctx: Waiter -> Context, es: seq<Event>, i: nat, j: nat)
    requires CanRun(ctx, Init, es) && i < j < |Run(ctx, Init, es).waitset|
    ensures var q := Run(ctx, Init, es).waitset;
      0 <= Entered(ctx, Init, es, q[i], -1, 0) < Entered(ctx, Init, es, q[j], -1, 0)
  {
    InitInv(ctx);
    hide Inv, Run, CanRun, Entered;
    RunInOrder(ctx, Init, es, (w: Waiter) => -1, 0, i, j);
  }
}
