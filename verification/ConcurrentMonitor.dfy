/** The event monitor: waiters put their node into a wait set, look at their
    condition once more and then sleep; notifiers take matching nodes out of the
    set under the lock and post to them afterwards. A waiter that changes its
    mind after its node was taken out owes itself one wakeup, which it collects
    before the node is used again or destroyed. One event is one load, store,
    lock, unlock, post or wait. */
module ConcurrentMonitor {
  import opened Common

  type Waiter = nat
  type Context = nat
  type NotifierId = nat

  /** Where a waiter and its node stand. The waiter is in `prepare_wait` up to
      `Fence`, in `commit_wait` in `Compare` and `Sleep`, in `cancel_wait` in the
      phases with a `C`; `again` tells that it will prepare anew afterwards. */
  datatype Wait =
    | Out
    | Begin | Pump | SetFlag | PLock | ReadEpoch | Add | PUnlock | Check
    | Compare | Sleep
    | CSkip(again: bool) | CLoad(again: bool) | CLock(again: bool) | CTest(again: bool)
    | CRemove(again: bool) | CFlag(again: bool) | CUnskip(again: bool) | CUnlock(again: bool)
    | Destroy | Dead

  /** Whom a notification is for: the front of the set, all, those whose context
      satisfies a predicate, or the last of these only. */
  datatype Kind = One | All | Matching(contexts: set<Context>) | OneMatching(contexts: set<Context>)

  /** Where a notification stands. `todo` are the nodes still to be taken out (in
      `NClear`: taken out, flag still to be cleared), `taken` those done with. */
  datatype Notify =
    | NCheck(kind: Kind)
    | NLock(kind: Kind)
    | NEpoch(kind: Kind)
    | NScan(todo: set<Waiter>, taken: set<Waiter>)
    | NFlag(todo: set<Waiter>, taken: set<Waiter>, w: Waiter)
    | NFlush
    | NClear(todo: set<Waiter>, taken: set<Waiter>)
    | NUnlock(taken: set<Waiter>)
    | NWake(taken: set<Waiter>)

  datatype Holder = Nobody | W(w: Waiter) | N(n: NotifierId)

  /** `flag`, `skipped` and `sema` are fields of the nodes (`my_is_in_list`,
      `my_skipped_wakeup` and the semaphore), `nodeEpoch` too. `holds` are the
      contexts whose condition holds; `unannounced` those for which it came to
      hold after the last notification meant for them had begun; `inHand` the
      nodes taken out by a notifier that has not posted to them yet. The last
      two are bookkeeping. */
  datatype State = State(
    waitset: seq<Waiter>, epoch: nat, holder: Holder,
    wait: map<Waiter, Wait>, flag: set<Waiter>, skipped: set<Waiter>, sema: map<Waiter, nat>,
    nodeEpoch: map<Waiter, nat>, notify: map<NotifierId, Notify>, holds: set<Context>,
    unannounced: set<Context>, inHand: map<Waiter, NotifierId>)

  datatype Event =
    | BeginWait(w: Waiter)
    | BeginDestroy(w: Waiter)
    | WaitStep(w: Waiter)
    | Establish(c: Context)
    | Withdraw(c: Context)
    | BeginNotify(n: NotifierId, kind: Kind)
    | NotifyStep(n: NotifierId, w: Waiter)

  const Init := State([], 0, Nobody, map[], {}, {}, map[], map[], map[], {}, {}, map[])

  function WaitOf(s: State, w: Waiter): Wait { if w in s.wait then s.wait[w] else Out }

  function Sema(s: State, w: Waiter): nat { if w in s.sema then s.sema[w] else 0 }

  predicate Covers(kind: Kind, c: Context) {
    kind == All || (kind.Matching? && c in kind.contexts)
  }

  /** The last node of the set whose context is among `cs`, if any. */
  function LastMatching(ctx: Waiter -> Context, cs: set<Context>, waitset: seq<Waiter>): (r: set<Waiter>)
    ensures forall w :: w in r ==> w in waitset
  {
    if waitset == [] then {}
    else
      var w := waitset[|waitset| - 1];
      if ctx(w) in cs then {w} else LastMatching(ctx, cs, waitset[..|waitset| - 1])
  }

  /** The nodes a notifier takes out of the set. */
  function Targets(ctx: Waiter -> Context, kind: Kind, waitset: seq<Waiter>): set<Waiter> {
    match kind
    case One => if waitset == [] then {} else {waitset[0]}
    case All => set w | w in waitset
    case Matching(cs) => set w | w in waitset && ctx(w) in cs
    case OneMatching(cs) => LastMatching(ctx, cs, waitset)
  }

  function Without(q: seq<Waiter>, w: Waiter): (r: seq<Waiter>)
    ensures forall v :: v in r <==> v in q && v != w
  {
    if q == [] then []
    else if q[0] == w then Without(q[1..], w) else [q[0]] + Without(q[1..], w)
  }

  function Go(s: State, w: Waiter, p: Wait): State { s.(wait := s.wait[w := p]) }

  function P(s: State, w: Waiter, p: Wait): State {
    if Sema(s, w) > 0 then Go(s.(sema := s.sema[w := Sema(s, w) - 1]), w, p) else s
  }

  function StepWait(ctx: Waiter -> Context, s: State, w: Waiter): State {
    match WaitOf(s, w)
    case Out => s
    case Begin => if w in s.skipped then Go(s.(skipped := s.skipped - {w}), w, Pump) else Go(s, w, SetFlag)
    case Pump => P(s, w, SetFlag)
    case SetFlag => Go(s.(flag := s.flag + {w}), w, PLock)
    case PLock => if s.holder == Nobody then Go(s.(holder := W(w)), w, ReadEpoch) else s
    case ReadEpoch => Go(s.(nodeEpoch := s.nodeEpoch[w := s.epoch]), w, Add)
    case Add => Go(s.(waitset := s.waitset + [w]), w, PUnlock)
    case PUnlock => Go(s.(holder := Nobody), w, Check)
    case Check => Go(s, w, if ctx(w) in s.holds then CSkip(false) else Compare)
    case Compare => Go(s, w, if w in s.nodeEpoch && s.nodeEpoch[w] == s.epoch then Sleep else CSkip(true))
    case Sleep => P(s, w, Out)
    case CSkip(again) => Go(s.(skipped := s.skipped + {w}), w, CLoad(again))
    case CLoad(again) => Go(s, w, if w in s.flag then CLock(again) else if again then Begin else Out)
    case CLock(again) => if s.holder == Nobody then Go(s.(holder := W(w)), w, CTest(again)) else s
    case CTest(again) => Go(s, w, if w in s.flag then CRemove(again) else CUnlock(again))
    case CRemove(again) => Go(s.(waitset := Without(s.waitset, w)), w, CFlag(again))
    case CFlag(again) => Go(s.(flag := s.flag - {w}), w, CUnskip(again))
    case CUnskip(again) => Go(s.(skipped := s.skipped - {w}), w, CUnlock(again))
    case CUnlock(again) => Go(s.(holder := Nobody), w, if again then Begin else Out)
    case Destroy => if w in s.skipped then P(s, w, Dead) else Go(s, w, Dead)
    case Dead => s
  }

  function At(s: State, n: NotifierId, p: Notify): State { s.(notify := s.notify[n := p]) }

  /** Every node of the set passes into the hand of `n`. */
  function Flush(inHand: map<Waiter, NotifierId>, waitset: seq<Waiter>, n: NotifierId): map<Waiter, NotifierId> {
    map w | w in inHand.Keys + (set v | v in waitset) :: if w in waitset then n else inHand[w]
  }

  function StepNotify(ctx: Waiter -> Context, s: State, n: NotifierId, w: Waiter): State
    requires n in s.notify
  {
    match s.notify[n]
    case NCheck(k) => if s.waitset == [] then s.(notify := s.notify - {n}) else At(s, n, NLock(k))
    case NLock(k) => if s.holder == Nobody then At(s.(holder := N(n)), n, NEpoch(k)) else s
    case NEpoch(k) =>
      At(s.(epoch := s.epoch + 1), n, if k == All then NFlush else NScan(Targets(ctx, k, s.waitset), {}))
    case NScan(todo, taken) =>
      if todo == {} then At(s, n, NUnlock(taken))
      else if w !in todo then s
      else At(s.(waitset := Without(s.waitset, w), inHand := s.inHand[w := n]), n, NFlag(todo - {w}, taken, w))
    case NFlag(todo, taken, v) => At(s.(flag := s.flag - {v}), n, NScan(todo, taken + {v}))
    case NFlush => At(s.(waitset := [], inHand := Flush(s.inHand, s.waitset, n)), n, NClear(set v | v in s.waitset, {}))
    case NClear(todo, taken) =>
      if todo == {} then At(s, n, NUnlock(taken))
      else if w !in todo then s
      else At(s.(flag := s.flag - {w}), n, NClear(todo - {w}, taken + {w}))
    case NUnlock(taken) => At(s.(holder := Nobody), n, NWake(taken))
    case NWake(taken) =>
      if taken == {} then s.(notify := s.notify - {n})
      else if w !in taken then s
      else At(s.(sema := s.sema[w := Sema(s, w) + 1], inHand := s.inHand - {w}), n, NWake(taken - {w}))
  }

  predicate Enabled(s: State, e: Event) {
    match e
    case BeginWait(w) => WaitOf(s, w) == Out
    case BeginDestroy(w) => WaitOf(s, w) == Out
    case WaitStep(w) => WaitOf(s, w) != Out
    case Establish(c) => c !in s.holds
    case Withdraw(c) => true
    case BeginNotify(n, _) => n !in s.notify
    case NotifyStep(n, _) => n in s.notify
  }

  function Step(ctx: Waiter -> Context, s: State, e: Event): State
    requires Enabled(s, e)
  {
    match e
    case BeginWait(w) => Go(s, w, Begin)
    case BeginDestroy(w) => Go(s, w, Destroy)
    case WaitStep(w) => StepWait(ctx, s, w)
    case Establish(c) => s.(holds := s.holds + {c}, unannounced := s.unannounced + {c})
    case Withdraw(c) => s.(holds := s.holds - {c})
    case BeginNotify(n, k) =>
      At(s.(unannounced := set c | c in s.unannounced && !Covers(k, c)), n, NCheck(k))
    case NotifyStep(n, w) => StepNotify(ctx, s, n, w)
  }

  predicate CanRun(ctx: Waiter -> Context, s: State, es: seq<Event>)
    decreases |es|
  {
    es == [] || (Enabled(s, es[0]) && CanRun(ctx, Step(ctx, s, es[0]), es[1..]))
  }

  function Run(ctx: Waiter -> Context, s: State, es: seq<Event>): State
    requires CanRun(ctx, s, es)
    decreases |es|
  {
    if es == [] then s else Run(ctx, Step(ctx, s, es[0]), es[1..])
  }

  // ------------------------------------------------------------ invariant

  /** Wakeups that a node has coming: posted, or owed by a notifier. */
  function Due(s: State, w: Waiter): nat {
    Sema(s, w) + if w in s.inHand then 1 else 0
  }

  /** A notifier has taken the node out and has still to clear its flag. */
  predicate Flagging(s: State, w: Waiter) {
    s.holder.N? && s.holder.n in s.notify &&
    var p := s.notify[s.holder.n];
    (p.NFlag? && p.w == w) || (p.NClear? && w in p.todo)
  }

  /** What is true of a node: in the set, flag up, about to lose its flag to a
      notifier, wakeups due, and whether a skipped wakeup is noted. */
  datatype Node = Node(inSet: bool, flag: bool, flagging: bool, due: nat, skipped: bool)

  function NodeOf(s: State, w: Waiter): Node {
    Node(w in s.waitset, w in s.flag, Flagging(s, w), Due(s, w), w in s.skipped)
  }

  /** The node is in the set and no wakeup is due, or it has been taken out and
      exactly one is due. */
  predicate Settled(n: Node) {
    n.due == (if n.inSet then 0 else 1) && (n.flag <==> n.inSet || n.flagging)
  }

  /** Out of the set, with a wakeup due exactly if one was skipped. */
  predicate AtRest(n: Node) {
    !n.inSet && !n.flag && !n.flagging && n.due == if n.skipped then 1 else 0
  }

  predicate NodeOk(p: Wait, n: Node) {
    match p
    case Out => AtRest(n)
    case Begin => AtRest(n)
    case Destroy => AtRest(n)
    case Pump => n == Node(false, false, false, 1, false)
    case SetFlag => n == Node(false, false, false, 0, false)
    case Dead => !n.inSet && n.due == 0
    case PLock => n == Node(false, true, false, 0, false)
    case ReadEpoch => n == Node(false, true, false, 0, false)
    case Add => n == Node(false, true, false, 0, false)
    case PUnlock => n == Node(true, true, false, 0, false)
    case CLoad(_) => Settled(n) && n.skipped
    case CLock(_) => Settled(n) && n.skipped
    case CTest(_) => Settled(n) && n.skipped
    case CRemove(_) => n == Node(true, true, false, 0, true)
    case CFlag(_) => n == Node(false, true, false, 0, true)
    case CUnskip(_) => n == Node(false, false, false, 0, true)
    case CUnlock(_) => AtRest(n)
    case _ => Settled(n) && !n.skipped
  }

  predicate HasLock(p: Wait) {
    p.ReadEpoch? || p.Add? || p.PUnlock? || p.CTest? || p.CRemove? || p.CFlag? || p.CUnskip? || p.CUnlock?
  }

  predicate NodeInv(s: State, w: Waiter) {
    && (HasLock(WaitOf(s, w)) <==> s.holder == W(w))
    && (Flagging(s, w) ==> w in s.inHand)
    && NodeOk(WaitOf(s, w), NodeOf(s, w))
  }

  predicate NLocked(p: Notify) { !p.NCheck? && !p.NLock? && !p.NWake? }

  /** The nodes a notifier has taken out and not posted to yet. */
  function Taken(p: Notify): set<Waiter> {
    match p
    case NScan(_, taken) => taken
    case NFlag(_, taken, w) => taken + {w}
    case NClear(todo, taken) => todo + taken
    case NUnlock(taken) => taken
    case NWake(taken) => taken
    case _ => {}
  }

  ghost predicate Holds(p: Notify, n: NotifierId, inHand: map<Waiter, NotifierId>) {
    forall w :: w in Taken(p) <==> w in inHand && inHand[w] == n
  }

  predicate TodoOk(p: Notify, waitset: seq<Waiter>) {
    match p
    case NScan(todo, taken) => forall w :: w in todo ==> w in waitset
    case NFlag(todo, taken, v) => v !in taken && forall w :: w in todo ==> w in waitset
    case NClear(todo, taken) => todo !! taken
    case _ => true
  }

  ghost predicate NotifierInv(s: State, n: NotifierId) {
    n in s.notify ==>
      && (NLocked(s.notify[n]) <==> s.holder == N(n))
      && TodoOk(s.notify[n], s.waitset)
      && Holds(s.notify[n], n, s.inHand)
  }

  ghost predicate Shape(s: State) {
    && Distinct(s.waitset)
    && (forall w :: NodeInv(s, w))
    && (forall n :: NotifierInv(s, n))
    && (s.holder.N? ==> s.holder.n in s.notify)
    && (forall w :: w in s.inHand ==> s.inHand[w] in s.notify)
  }

  /** A notification in this phase will still take the node of `w` out of the set. */
  predicate Obliged(ctx: Waiter -> Context, p: Notify, w: Waiter) {
    match p
    case NCheck(k) => Covers(k, ctx(w))
    case NLock(k) => Covers(k, ctx(w))
    case NEpoch(k) => Covers(k, ctx(w))
    case NScan(todo, _) => w in todo
    case NFlag(todo, _, _) => w in todo
    case NFlush => true
    case _ => false
  }

  ghost predicate WillBeTaken(ctx: Waiter -> Context, notify: map<NotifierId, Notify>, w: Waiter) {
    exists n :: n in notify && Obliged(ctx, notify[n], w)
  }

  predicate Unheeded(ctx: Waiter -> Context, s: State, w: Waiter) {
    (WaitOf(s, w).Compare? || WaitOf(s, w).Sleep?) && w in s.waitset && ctx(w) in s.holds && ctx(w) !in s.unannounced
  }

  /** A waiter that found its condition not to hold and whose node is in the set
      will be taken out if the condition has come to hold and been announced. */
  ghost predicate WakeInv(ctx: Waiter -> Context, s: State, w: Waiter) {
    Unheeded(ctx, s, w) ==> WillBeTaken(ctx, s.notify, w)
  }

  ghost predicate Inv(ctx: Waiter -> Context, s: State) {
    Shape(s) && forall w :: WakeInv(ctx, s, w)
  }

  lemma InitInv(ctx: Waiter -> Context)
    ensures Inv(ctx, Init)
  {
  }

  // ---------------------------------------------------- steps of waiters

  lemma {:induction false} WithoutDistinct(q: seq<Waiter>, w: Waiter)
    requires Distinct(q)
    ensures Distinct(Without(q, w))
  {
    if q != [] {
      WithoutDistinct(q[1..], w);
      assert q[0] !in q[1..];
    }
  }

  /** A step of waiter `w` touches its own node, the lock and nothing else. */
  ghost predicate WaitMove(s: State, s': State, w: Waiter) {
    && s'.notify == s.notify && s'.inHand == s.inHand && s'.holds == s.holds && s'.unannounced == s.unannounced
    && (forall v :: v != w ==>
         && WaitOf(s', v) == WaitOf(s, v) && Sema(s', v) == Sema(s, v)
         && (v in s'.waitset <==> v in s.waitset) && (v in s'.flag <==> v in s.flag)
         && (v in s'.skipped <==> v in s.skipped))
    && (w in s.waitset && w !in s'.waitset ==> s'.holder == W(w))
    && (s'.holder == s.holder || (s.holder == Nobody && s'.holder == W(w)) || (s.holder == W(w) && s'.holder == Nobody))
    && Distinct(s'.waitset)
  }

  lemma BeginStep(ctx: Waiter -> Context, s: State, w: Waiter)
    requires NodeInv(s, w) && Distinct(s.waitset) && WaitOf(s, w).Begin?
    ensures var s' := StepWait(ctx, s, w); WaitMove(s, s', w) && NodeInv(s', w)
  {
    hide Without, Distinct;
  }

  lemma PumpStep(ctx: Waiter -> Context, s: State, w: Waiter)
    requires NodeInv(s, w) && Distinct(s.waitset) && WaitOf(s, w).Pump?
    ensures var s' := StepWait(ctx, s, w); WaitMove(s, s', w) && NodeInv(s', w)
  {
    hide Without, Distinct;
  }

  lemma EntrySteps(ctx: Waiter -> Context, s: State, w: Waiter)
    requires NodeInv(s, w) && Distinct(s.waitset)
    requires var p := WaitOf(s, w); p.SetFlag? || p.PLock?
    ensures var s' := StepWait(ctx, s, w); WaitMove(s, s', w) && NodeInv(s', w)
  {
    hide Without, Distinct;
  }

  lemma EnlistSteps(ctx: Waiter -> Context, s: State, w: Waiter)
    requires NodeInv(s, w) && Distinct(s.waitset)
    requires var p := WaitOf(s, w); p.ReadEpoch? || p.Add? || p.PUnlock?
    ensures var s' := StepWait(ctx, s, w); WaitMove(s, s', w) && NodeInv(s', w)
  {
    hide Without;
  }

  lemma CommitSteps(ctx: Waiter -> Context, s: State, w: Waiter)
    requires NodeInv(s, w) && Distinct(s.waitset)
    requires var p := WaitOf(s, w); p.Check? || p.Compare?
    ensures var s' := StepWait(ctx, s, w); WaitMove(s, s', w) && NodeInv(s', w)
  {
    hide Without, Distinct;
  }

  lemma SleepSteps(ctx: Waiter -> Context, s: State, w: Waiter)
    requires NodeInv(s, w) && Distinct(s.waitset)
    requires var p := WaitOf(s, w); p.Out? || p.Sleep? || p.Dead?
    ensures var s' := StepWait(ctx, s, w); WaitMove(s, s', w) && NodeInv(s', w)
  {
    hide Without, Distinct;
  }

  lemma DestroySteps(ctx: Waiter -> Context, s: State, w: Waiter)
    requires NodeInv(s, w) && Distinct(s.waitset) && WaitOf(s, w).Destroy?
    ensures var s' := StepWait(ctx, s, w); WaitMove(s, s', w) && NodeInv(s', w)
  {
    hide Without, Distinct;
  }

  lemma SkipStep(ctx: Waiter -> Context, s: State, w: Waiter)
    requires NodeInv(s, w) && Distinct(s.waitset) && WaitOf(s, w).CSkip?
    ensures var s' := StepWait(ctx, s, w); WaitMove(s, s', w) && NodeInv(s', w)
  {
    hide Without, Distinct;
  }

  lemma LoadStep(ctx: Waiter -> Context, s: State, w: Waiter)
    requires NodeInv(s, w) && Distinct(s.waitset) && WaitOf(s, w).CLoad?
    ensures var s' := StepWait(ctx, s, w); WaitMove(s, s', w) && NodeInv(s', w)
  {
    hide Without, Distinct;
  }

  lemma RelockSteps(ctx: Waiter -> Context, s: State, w: Waiter)
    requires NodeInv(s, w) && Distinct(s.waitset)
    requires var p := WaitOf(s, w); p.CLock? || p.CTest?
    ensures var s' := StepWait(ctx, s, w); WaitMove(s, s', w) && NodeInv(s', w)
  {
    hide Without, Distinct;
  }

  lemma DelistSteps(ctx: Waiter -> Context, s: State, w: Waiter)
    requires NodeInv(s, w) && Distinct(s.waitset)
    requires var p := WaitOf(s, w); p.CRemove? || p.CFlag?
    ensures var s' := StepWait(ctx, s, w); WaitMove(s, s', w) && NodeInv(s', w)
  {
    WithoutDistinct(s.waitset, w);
    hide Without, Distinct;
  }

  lemma UnskipStep(ctx: Waiter -> Context, s: State, w: Waiter)
    requires NodeInv(s, w) && Distinct(s.waitset) && WaitOf(s, w).CUnskip?
    ensures var s' := StepWait(ctx, s, w); WaitMove(s, s', w) && NodeInv(s', w)
  {
    hide Without, Distinct;
  }

  lemma LeaveStep(ctx: Waiter -> Context, s: State, w: Waiter)
    requires NodeInv(s, w) && Distinct(s.waitset) && WaitOf(s, w).CUnlock?
    ensures var s' := StepWait(ctx, s, w); WaitMove(s, s', w) && NodeInv(s', w)
  {
    hide Without, Distinct;
  }

  lemma WaitStepKeeps(ctx: Waiter -> Context, s: State, w: Waiter)
    requires NodeInv(s, w) && Distinct(s.waitset)
    ensures var s' := StepWait(ctx, s, w); WaitMove(s, s', w) && NodeInv(s', w)
  {
    hide NodeInv, WaitMove, StepWait;
    var p := WaitOf(s, w);
    if p.Begin? { BeginStep(ctx, s, w); }
    else if p.Pump? { PumpStep(ctx, s, w); }
    else if p.SetFlag? || p.PLock? { EntrySteps(ctx, s, w); }
    else if p.ReadEpoch? || p.Add? || p.PUnlock? { EnlistSteps(ctx, s, w); }
    else if p.Check? || p.Compare? { CommitSteps(ctx, s, w); }
    else if p.CSkip? { SkipStep(ctx, s, w); }
    else if p.CLoad? { LoadStep(ctx, s, w); }
    else if p.CLock? || p.CTest? { RelockSteps(ctx, s, w); }
    else if p.CRemove? || p.CFlag? { DelistSteps(ctx, s, w); }
    else if p.CUnskip? { UnskipStep(ctx, s, w); }
    else if p.CUnlock? { LeaveStep(ctx, s, w); }
    else if p.Destroy? { DestroySteps(ctx, s, w); }
    else { SleepSteps(ctx, s, w); }
  }

  lemma WaitMoveShape(s: State, s': State, w: Waiter)
    requires Shape(s) && WaitMove(s, s', w) && NodeInv(s', w)
    ensures Shape(s')
  {
    forall v ensures NodeInv(s', v) { assert NodeInv(s, v) && NodeInv(s, w); }
    forall n ensures NotifierInv(s', n) { assert NotifierInv(s, n) && NodeInv(s, w); }
  }

  lemma WaitStepHeeds(ctx: Waiter -> Context, s: State, w: Waiter)
    ensures Unheeded(ctx, StepWait(ctx, s, w), w) ==> Unheeded(ctx, s, w)
  {
    var p := WaitOf(s, w);
    if p.Check? || p.Compare? || p.Sleep? {
      LastLook(ctx, s, w);
    } else if Canceling(p) {
      CancelingStaysAwake(ctx, s, w);
    } else {
      StaysAwake(ctx, s, w);
    }
    hide StepWait;
  }

  lemma LastLook(ctx: Waiter -> Context, s: State, w: Waiter)
    requires var p := WaitOf(s, w); p.Check? || p.Compare? || p.Sleep?
    ensures Unheeded(ctx, StepWait(ctx, s, w), w) ==> Unheeded(ctx, s, w)
  {
    hide Without;
  }

  predicate Canceling(p: Wait) {
    p.CSkip? || p.CLoad? || p.CLock? || p.CTest? || p.CRemove? || p.CFlag? || p.CUnskip? || p.CUnlock?
  }

  lemma CancelingStaysAwake(ctx: Waiter -> Context, s: State, w: Waiter)
    requires Canceling(WaitOf(s, w))
    ensures var p := WaitOf(StepWait(ctx, s, w), w); !p.Compare? && !p.Sleep?
  {
    hide Without, Sema;
  }

  lemma StaysAwake(ctx: Waiter -> Context, s: State, w: Waiter)
    requires var p := WaitOf(s, w); !p.Check? && !p.Compare? && !p.Sleep? && !Canceling(p)
    ensures var p := WaitOf(StepWait(ctx, s, w), w); !p.Compare? && !p.Sleep?
  {
    hide Without, Sema;
  }

  lemma WaitStepInv(ctx: Waiter -> Context, s: State, w: Waiter)
    requires Inv(ctx, s)
    ensures Inv(ctx, StepWait(ctx, s, w))
  {
    var s' := StepWait(ctx, s, w);
    assert NodeInv(s, w);
    WaitStepKeeps(ctx, s, w);
    WaitStepHeeds(ctx, s, w);
    WaitMoveInv(ctx, s, s', w);
  }

  lemma WaitMoveInv(ctx: Waiter -> Context, s: State, s': State, w: Waiter)
    requires Inv(ctx, s) && WaitMove(s, s', w) && NodeInv(s', w)
    requires Unheeded(ctx, s', w) ==> Unheeded(ctx, s, w)
    ensures Inv(ctx, s')
  {
    WaitMoveShape(s, s', w);
    hide Shape, NodeInv, WillBeTaken;
    forall v ensures WakeInv(ctx, s', v) { assert WakeInv(ctx, s, v); }
  }

  // -------------------------------------------------- steps of notifiers

  /** A step of notifier `n` that touches at most the node of `w`. */
  ghost predicate NotifyMove(s: State, s': State, n: NotifierId, w: Waiter) {
    && s'.wait == s.wait && s'.skipped == s.skipped && s'.holds == s.holds && s'.unannounced == s.unannounced
    && (forall v :: v != w ==>
         && Sema(s', v) == Sema(s, v) && (v in s'.waitset <==> v in s.waitset) && (v in s'.flag <==> v in s.flag)
         && (v in s'.inHand <==> v in s.inHand) && (v in s.inHand ==> s'.inHand[v] == s.inHand[v])
         && (Flagging(s', v) <==> Flagging(s, v)))
    && (w in s'.waitset ==> w in s.waitset)
    && (w in s.inHand ==> s.inHand[w] == n || (w in s'.inHand && s'.inHand[w] == s.inHand[w]))
    && (w in s'.inHand ==> s'.inHand[w] == n || (w in s.inHand && s'.inHand[w] == s.inHand[w]))
    && (forall m :: m != n ==> (m in s'.notify <==> m in s.notify) && (m in s.notify ==> s'.notify[m] == s.notify[m]))
    && (s'.holder == s.holder || (s.holder == Nobody && s'.holder == N(n)) || (s.holder == N(n) && s'.holder == Nobody))
    && (w in s.waitset && w !in s'.waitset ==> s.holder == N(n))
    && (s'.holder == N(n) ==> n in s'.notify)
    && (n !in s'.notify ==> forall v :: v in s'.inHand ==> s'.inHand[v] != n)
    && Distinct(s'.waitset)
  }

  lemma NotifyMoveNodes(s: State, s': State, n: NotifierId, w: Waiter)
    requires Shape(s) && n in s.notify && NotifyMove(s, s', n, w) && NodeInv(s', w)
    ensures forall v :: NodeInv(s', v)
  {
    hide Distinct, Holds, TodoOk, NodeOk;
    forall v ensures NodeInv(s', v) { assert NodeInv(s, v); }
  }

  lemma NotifyMoveOthers(s: State, s': State, n: NotifierId, w: Waiter, m: NotifierId)
    requires Shape(s) && n in s.notify && NotifyMove(s, s', n, w) && m != n
    ensures NotifierInv(s', m)
  {
    hide Distinct, NodeInv, Flagging;
    assert NotifierInv(s, m) && NotifierInv(s, n);
  }

  lemma NotifyMoveShape(s: State, s': State, n: NotifierId, w: Waiter)
    requires Shape(s) && n in s.notify && NotifyMove(s, s', n, w) && NodeInv(s', w) && NotifierInv(s', n)
    ensures Shape(s')
  {
    NotifyMoveNodes(s, s', n, w);
    forall m ensures NotifierInv(s', m) {
      if m != n { NotifyMoveOthers(s, s', n, w, m); }
    }
    hide NodeInv, NotifierInv, Flagging;
  }

  /** A notifier that has nothing left in hand goes away. */
  lemma Leave(s: State, n: NotifierId, w: Waiter)
    requires Shape(s) && n in s.notify && !NLocked(s.notify[n]) && Taken(s.notify[n]) == {}
    ensures var s' := s.(notify := s.notify - {n}); NotifyMove(s, s', n, w) && NodeInv(s', w) && NotifierInv(s', n)
  {
    hide Distinct, NodeOk, TodoOk;
    assert NotifierInv(s, n) && NodeInv(s, w);
    assert forall v :: v in s.inHand ==> v in Taken(s.notify[n]) || s.inHand[v] != n;
  }

  lemma CheckStep(ctx: Waiter -> Context, s: State, n: NotifierId, w: Waiter)
    requires Shape(s) && n in s.notify && s.notify[n].NCheck?
    ensures var s' := StepNotify(ctx, s, n, w); NotifyMove(s, s', n, w) && NodeInv(s', w) && NotifierInv(s', n)
  {
    if s.waitset == [] {
      Leave(s, n, w);
      hide NotifyMove, NodeInv, NotifierInv, Shape;
    } else {
      hide Without, Distinct, NodeOk, Targets, Flush;
      assert NotifierInv(s, n) && NodeInv(s, w);
    }
  }

  lemma LockStep(ctx: Waiter -> Context, s: State, n: NotifierId, w: Waiter)
    requires Shape(s) && n in s.notify && s.notify[n].NLock?
    ensures var s' := StepNotify(ctx, s, n, w); NotifyMove(s, s', n, w) && NodeInv(s', w) && NotifierInv(s', n)
  {
    hide Without, Distinct, NodeOk, Targets, Flush;
    assert NotifierInv(s, n) && NodeInv(s, w);
  }

  lemma EpochStep(ctx: Waiter -> Context, s: State, n: NotifierId, w: Waiter)
    requires Shape(s) && n in s.notify && s.notify[n].NEpoch?
    ensures var s' := StepNotify(ctx, s, n, w); NotifyMove(s, s', n, w) && NodeInv(s', w) && NotifierInv(s', n)
  {
    hide Without, Distinct, NodeOk, Flush;
    assert NotifierInv(s, n) && NodeInv(s, w);
  }

  lemma ScanStep(ctx: Waiter -> Context, s: State, n: NotifierId, w: Waiter)
    requires Shape(s) && n in s.notify && s.notify[n].NScan?
    ensures var s' := StepNotify(ctx, s, n, w); NotifyMove(s, s', n, w) && NodeInv(s', w) && NotifierInv(s', n)
  {
    if w in s.notify[n].todo { TakeOut(ctx, s, n, w); }
    else { ScanEnds(ctx, s, n, w); }
    hide StepNotify, NotifyMove, NodeInv, NotifierInv, Shape;
  }

  lemma TakeOut(ctx: Waiter -> Context, s: State, n: NotifierId, w: Waiter)
    requires Shape(s) && n in s.notify && s.notify[n].NScan? && w in s.notify[n].todo
    ensures var s' := StepNotify(ctx, s, n, w); NotifyMove(s, s', n, w) && NodeInv(s', w) && NotifierInv(s', n)
  {
    TakeOutNode(ctx, s, n, w);
    assert NotifierInv(s, n);
    assert w !in s.inHand by { assert NodeInv(s, w); }
    WithoutDistinct(s.waitset, w);
    hide Without, Distinct, Targets, Flush, NodeInv;
  }

  lemma TakeOutNode(ctx: Waiter -> Context, s: State, n: NotifierId, w: Waiter)
    requires Shape(s) && n in s.notify && s.notify[n].NScan? && w in s.notify[n].todo
    ensures NodeInv(StepNotify(ctx, s, n, w), w)
  {
    assert NotifierInv(s, n) && NodeInv(s, w);
    hide Without, Distinct, Targets, Flush;
  }

  /** With nothing left to do the notifier is about to give up the lock. */
  lemma TurnToUnlock(s: State, n: NotifierId, w: Waiter, taken: set<Waiter>)
    requires Shape(s) && n in s.notify && s.notify[n] in {NScan({}, taken), NClear({}, taken)}
    ensures var s' := At(s, n, NUnlock(taken)); NotifyMove(s, s', n, w) && NodeInv(s', w) && NotifierInv(s', n)
  {
    hide Distinct, NodeOk;
    assert NotifierInv(s, n) && NodeInv(s, w);
    assert Taken(s.notify[n]) == taken;
    hide Holds;
  }

  lemma ScanEnds(ctx: Waiter -> Context, s: State, n: NotifierId, w: Waiter)
    requires Shape(s) && n in s.notify && s.notify[n].NScan? && w !in s.notify[n].todo
    ensures var s' := StepNotify(ctx, s, n, w); NotifyMove(s, s', n, w) && NodeInv(s', w) && NotifierInv(s', n)
  {
    assert NotifierInv(s, n) && NodeInv(s, w);
    hide Shape, NodeInv, NotifierInv;
    hide NotifyMove;
    if s.notify[n].todo == {} { TurnToUnlock(s, n, w, s.notify[n].taken); } else { Unmoved(s, n, w); }
  }

  lemma Unmoved(s: State, n: NotifierId, w: Waiter)
    requires Shape(s) && n in s.notify
    ensures NotifyMove(s, s, n, w)
  {
    hide NodeInv, NotifierInv;
  }

  lemma FlagStep(ctx: Waiter -> Context, s: State, n: NotifierId, w: Waiter)
    requires Shape(s) && n in s.notify && s.notify[n].NFlag?
    ensures var s', v := StepNotify(ctx, s, n, w), s.notify[n].w;
      NotifyMove(s, s', n, v) && NodeInv(s', v) && NotifierInv(s', n)
  {
    hide Without, Distinct, Targets, Flush;
    assert NotifierInv(s, n) && NodeInv(s, s.notify[n].w);
  }

  lemma ClearStep(ctx: Waiter -> Context, s: State, n: NotifierId, w: Waiter)
    requires Shape(s) && n in s.notify && s.notify[n].NClear?
    ensures var s' := StepNotify(ctx, s, n, w); NotifyMove(s, s', n, w) && NodeInv(s', w) && NotifierInv(s', n)
  {
    if w in s.notify[n].todo { ClearOne(ctx, s, n, w); } else { ClearEnds(ctx, s, n, w); }
    hide StepNotify, NotifyMove, NodeInv, NotifierInv, Shape;
  }

  lemma ClearOne(ctx: Waiter -> Context, s: State, n: NotifierId, w: Waiter)
    requires Shape(s) && n in s.notify && s.notify[n].NClear? && w in s.notify[n].todo
    ensures var s' := StepNotify(ctx, s, n, w); NotifyMove(s, s', n, w) && NodeInv(s', w) && NotifierInv(s', n)
  {
    hide Without, Distinct, Targets, Flush;
    assert NotifierInv(s, n) && NodeInv(s, w);
  }

  lemma ClearEnds(ctx: Waiter -> Context, s: State, n: NotifierId, w: Waiter)
    requires Shape(s) && n in s.notify && s.notify[n].NClear? && w !in s.notify[n].todo
    ensures var s' := StepNotify(ctx, s, n, w); NotifyMove(s, s', n, w) && NodeInv(s', w) && NotifierInv(s', n)
  {
    assert NotifierInv(s, n) && NodeInv(s, w);
    hide Shape, NodeInv, NotifierInv;
    hide NotifyMove;
    if s.notify[n].todo == {} { TurnToUnlock(s, n, w, s.notify[n].taken); } else { Unmoved(s, n, w); }
  }

  lemma UnlockStep(ctx: Waiter -> Context, s: State, n: NotifierId, w: Waiter)
    requires Shape(s) && n in s.notify && s.notify[n].NUnlock?
    ensures var s' := StepNotify(ctx, s, n, w); NotifyMove(s, s', n, w) && NodeInv(s', w) && NotifierInv(s', n)
  {
    hide Without, Distinct, NodeOk, Targets, Flush;
    assert NotifierInv(s, n) && NodeInv(s, w);
  }

  lemma PostStep(ctx: Waiter -> Context, s: State, n: NotifierId, w: Waiter)
    requires Shape(s) && n in s.notify && s.notify[n].NWake?
    ensures var s' := StepNotify(ctx, s, n, w); NotifyMove(s, s', n, w) && NodeInv(s', w) && NotifierInv(s', n)
  {
    if s.notify[n].taken == {} {
      Leave(s, n, w);
      hide NotifyMove, NodeInv, NotifierInv, Shape;
    } else {
      Post(ctx, s, n, w);
      hide NotifyMove, NodeInv, NotifierInv, Shape, StepNotify;
    }
  }

  /** Posting turns an owed wakeup into a posted one. */
  lemma Post(ctx: Waiter -> Context, s: State, n: NotifierId, w: Waiter)
    requires Shape(s) && n in s.notify && s.notify[n].NWake? && s.notify[n].taken != {}
    ensures var s' := StepNotify(ctx, s, n, w); NotifyMove(s, s', n, w) && NodeInv(s', w) && NotifierInv(s', n)
  {
    PostNode(ctx, s, n, w);
    PostHolds(ctx, s, n, w);
    assert NotifierInv(s, n);
    assert w in s.notify[n].taken ==> w in s.inHand && s.inHand[w] == n;
    hide Without, Distinct, Targets, Flush, NodeInv, TodoOk, Holds;
  }

  lemma PostHolds(ctx: Waiter -> Context, s: State, n: NotifierId, w: Waiter)
    requires Shape(s) && n in s.notify && s.notify[n].NWake? && s.notify[n].taken != {}
    ensures NotifierInv(StepNotify(ctx, s, n, w), n)
  {
    hide Without, Distinct, Targets, Flush, NodeInv;
    assert NotifierInv(s, n);
  }

  lemma PostNode(ctx: Waiter -> Context, s: State, n: NotifierId, w: Waiter)
    requires Shape(s) && n in s.notify && s.notify[n].NWake? && s.notify[n].taken != {}
    ensures NodeInv(StepNotify(ctx, s, n, w), w)
  {
    hide Without, Distinct, Targets, Flush, NodeOk;
    var s' := StepNotify(ctx, s, n, w);
    assert NotifierInv(s, n) && NodeInv(s, w);
    if s.holder.N? { assert NotifierInv(s, s.holder.n); }
    assert Due(s', w) == Due(s, w);
    assert NodeOf(s', w) == NodeOf(s, w);
  }

  /** The flush takes every node out at once. */
  lemma FlushStep(ctx: Waiter -> Context, s: State, n: NotifierId, w: Waiter)
    requires Shape(s) && n in s.notify && s.notify[n].NFlush?
    ensures Shape(StepNotify(ctx, s, n, w))
  {
    hide Without, Targets;
    var s' := StepNotify(ctx, s, n, w);
    assert NotifierInv(s, n);
    forall v ensures NodeInv(s', v) { assert NodeInv(s, v); }
    forall m ensures NotifierInv(s', m) { FlushNotifiers(ctx, s, n, w, m); }
  }

  lemma FlushNotifiers(ctx: Waiter -> Context, s: State, n: NotifierId, w: Waiter, m: NotifierId)
    requires Shape(s) && n in s.notify && s.notify[n].NFlush?
    ensures NotifierInv(StepNotify(ctx, s, n, w), m)
  {
    assert NotifierInv(s, n) && NotifierInv(s, m);
    assert forall v :: v in s.waitset ==> v !in s.inHand by { NoneInHand(s); }
    hide Without, Targets, Distinct, NodeInv;
  }

  lemma NoneInHand(s: State)
    requires Shape(s)
    ensures forall v :: v in s.waitset ==> v !in s.inHand
  {
    hide NotifierInv, Distinct;
    forall v | v in s.waitset ensures v !in s.inHand { assert NodeInv(s, v); }
  }

  /** What a notifier leaves alone. */
  ghost predicate NotifyFrame(s: State, s': State, n: NotifierId) {
    && s'.wait == s.wait && s'.holds == s.holds && s'.unannounced == s.unannounced && s'.skipped == s.skipped
    && (forall v :: v in s'.waitset ==> v in s.waitset)
    && (forall m :: m != n && m in s.notify ==> m in s'.notify && s'.notify[m] == s.notify[m])
  }

  lemma FlushFrame(ctx: Waiter -> Context, s: State, n: NotifierId, w: Waiter)
    requires n in s.notify && s.notify[n].NFlush?
    ensures NotifyFrame(s, StepNotify(ctx, s, n, w), n)
  {
    hide Flush;
    var s' := StepNotify(ctx, s, n, w);
    assert s'.waitset == [];
  }

  lemma NotifyStepShape(ctx: Waiter -> Context, s: State, n: NotifierId, w: Waiter)
    requires Shape(s) && n in s.notify
    ensures Shape(StepNotify(ctx, s, n, w)) && NotifyFrame(s, StepNotify(ctx, s, n, w), n)
  {
    var s' := StepNotify(ctx, s, n, w);
    if s.notify[n].NFlush? {
      FlushStep(ctx, s, n, w);
      FlushFrame(ctx, s, n, w);
    } else {
      var v := NotifyStepMoves(ctx, s, n, w);
      NotifyMoveShape(s, s', n, v);
    }
    hide Shape, StepNotify, NodeInv, NotifierInv, Sema, Distinct, Flagging;
  }

  lemma NotifyStepMoves(ctx: Waiter -> Context, s: State, n: NotifierId, w: Waiter) returns (v: Waiter)
    requires Shape(s) && n in s.notify && !s.notify[n].NFlush?
    ensures var s' := StepNotify(ctx, s, n, w); NotifyMove(s, s', n, v) && NodeInv(s', v) && NotifierInv(s', n)
  {
    hide Shape, StepNotify, NotifyMove, NodeInv, NotifierInv;
    v := if s.notify[n].NFlag? then s.notify[n].w else w;
    match s.notify[n]
    case NCheck(_) => CheckStep(ctx, s, n, w);
    case NLock(_) => LockStep(ctx, s, n, w);
    case NEpoch(_) => EpochStep(ctx, s, n, w);
    case NScan(_, _) => ScanStep(ctx, s, n, w);
    case NFlag(_, _, _) => FlagStep(ctx, s, n, w);
    case NClear(_, _) => ClearStep(ctx, s, n, w);
    case NUnlock(_) => UnlockStep(ctx, s, n, w);
    case NWake(_) => PostStep(ctx, s, n, w);
  }

  /** A notifier that will take the node of `v` does so or stays obliged to. */
  lemma ObligationKept(ctx: Waiter -> Context, s: State, n: NotifierId, w: Waiter, v: Waiter)
    requires n in s.notify && Obliged(ctx, s.notify[n], v)
    ensures var s' := StepNotify(ctx, s, n, w);
      v in s.waitset && v in s'.waitset ==> n in s'.notify && Obliged(ctx, s'.notify[n], v)
  {
    hide Flush, Sema;
  }

  lemma NotifyStepWakes(ctx: Waiter -> Context, s: State, n: NotifierId, w: Waiter, v: Waiter)
    requires n in s.notify && WakeInv(ctx, s, v) && Unheeded(ctx, StepNotify(ctx, s, n, w), v)
    requires NotifyFrame(s, StepNotify(ctx, s, n, w), n)
    ensures WakeInv(ctx, StepNotify(ctx, s, n, w), v)
  {
    hide StepNotify, Obliged;
    var s' := StepNotify(ctx, s, n, w);
    var m :| m in s.notify && Obliged(ctx, s.notify[m], v);
    if m == n { ObligationKept(ctx, s, n, w, v); }
    assert m in s'.notify && Obliged(ctx, s'.notify[m], v);
  }

  lemma NotifyStepInv(ctx: Waiter -> Context, s: State, n: NotifierId, w: Waiter)
    requires Inv(ctx, s) && n in s.notify
    ensures Inv(ctx, StepNotify(ctx, s, n, w))
  {
    NotifyStepShape(ctx, s, n, w);
    hide Shape, StepNotify, WillBeTaken;
    var s' := StepNotify(ctx, s, n, w);
    forall v ensures WakeInv(ctx, s', v) {
      assert WakeInv(ctx, s, v);
      if Unheeded(ctx, s', v) { NotifyStepWakes(ctx, s, n, w, v); }
    }
  }

  // ----------------------------------------------------------- every run

  lemma BeginWaitInv(ctx: Waiter -> Context, s: State, w: Waiter, p: Wait)
    requires Inv(ctx, s) && WaitOf(s, w) == Out && (p == Begin || p == Destroy)
    ensures Inv(ctx, Go(s, w, p))
  {
    var s' := Go(s, w, p);
    assert NodeInv(s, w);
    assert WaitMove(s, s', w) && NodeInv(s', w) by { hide Distinct; }
    WaitMoveInv(ctx, s, s', w);
  }

  /** A condition that comes to hold is not announced yet; one that is withdrawn
      owes nobody a wakeup. */
  lemma ConditionInv(ctx: Waiter -> Context, s: State, e: Event)
    requires Inv(ctx, s) && Enabled(s, e) && (e.Establish? || e.Withdraw?)
    ensures Inv(ctx, Step(ctx, s, e))
  {
    var s' := Step(ctx, s, e);
    assert forall v :: Flagging(s', v) == Flagging(s, v) && Due(s', v) == Due(s, v);
    assert Shape(s') by {
      hide NodeOk, Holds, TodoOk, Distinct, Flagging;
      forall v ensures NodeInv(s', v) { assert NodeInv(s, v); }
      forall m ensures NotifierInv(s', m) { assert NotifierInv(s, m); }
    }
    hide Shape, WillBeTaken;
    forall v ensures WakeInv(ctx, s', v) { assert WakeInv(ctx, s, v); }
  }

  lemma BeginNotifyInv(ctx: Waiter -> Context, s: State, n: NotifierId, k: Kind)
    requires Inv(ctx, s) && n !in s.notify
    ensures Inv(ctx, Step(ctx, s, BeginNotify(n, k)))
  {
    var s' := Step(ctx, s, BeginNotify(n, k));
    assert forall v :: Flagging(s', v) == Flagging(s, v) && Due(s', v) == Due(s, v);
    assert Shape(s') by {
      hide NodeOk, TodoOk, Distinct, Flagging, Covers;
      forall v ensures NodeInv(s', v) { assert NodeInv(s, v); }
      forall m ensures NotifierInv(s', m) { assert NotifierInv(s, m); }
    }
    hide Shape, Flagging, Covers;
    forall v ensures WakeInv(ctx, s', v) {
      assert WakeInv(ctx, s, v);
      if Unheeded(ctx, s', v) {
        if ctx(v) in s.unannounced {
          assert n in s'.notify && Obliged(ctx, s'.notify[n], v);
        } else {
          var m :| m in s.notify && Obliged(ctx, s.notify[m], v);
          assert m in s'.notify && Obliged(ctx, s'.notify[m], v);
        }
      }
    }
  }

  lemma StepInv(ctx: Waiter -> Context, s: State, e: Event)
    requires Inv(ctx, s) && Enabled(s, e)
    ensures Inv(ctx, Step(ctx, s, e))
  {
    hide Inv;
    match e
    case BeginWait(w) => BeginWaitInv(ctx, s, w, Begin);
    case BeginDestroy(w) => BeginWaitInv(ctx, s, w, Destroy);
    case WaitStep(w) => WaitStepInv(ctx, s, w);
    case Establish(_) => ConditionInv(ctx, s, e);
    case Withdraw(_) => ConditionInv(ctx, s, e);
    case BeginNotify(n, k) => BeginNotifyInv(ctx, s, n, k);
    case NotifyStep(n, w) => NotifyStepInv(ctx, s, n, w);
  }

  lemma {:induction false} RunInv(ctx: Waiter -> Context, s: State, es: seq<Event>)
    requires Inv(ctx, s) && CanRun(ctx, s, es)
    ensures Inv(ctx, Run(ctx, s, es))
    decreases |es|
  {
    hide Inv, Step;
    if es != [] {
      StepInv(ctx, s, es[0]);
      RunInv(ctx, Step(ctx, s, es[0]), es[1..]);
    }
  }

  ghost predicate Reachable(ctx: Waiter -> Context, s: State) {
    exists es :: CanRun(ctx, Init, es) && s == Run(ctx, Init, es)
  }

  lemma ReachableInv(ctx: Waiter -> Context, s: State)
    requires Reachable(ctx, s)
    ensures Inv(ctx, s)
  {
    var es :| CanRun(ctx, Init, es) && s == Run(ctx, Init, es);
    InitInv(ctx);
    hide Inv, Run, CanRun;
    RunInv(ctx, Init, es);
  }

  // -------------------------------------------------------- main results

  /** The windows in which the flag of a node and its place in the set differ:
      between the two updates of `prepare_wait`, of `cancel_wait` and of a
      notification. */
  predicate BetweenUpdates(s: State, w: Waiter) {
    var p := WaitOf(s, w);
    p.PLock? || p.ReadEpoch? || p.Add? || p.CFlag? || Flagging(s, w)
  }

  /** Outside these windows the flag tells whether the node is in the set. */
  lemma FlagTellsMembership(ctx: Waiter -> Context, s: State, w: Waiter)
    requires Reachable(ctx, s) && WaitOf(s, w) != Dead
    ensures !BetweenUpdates(s, w) ==> (w in s.flag <==> w in s.waitset)
    ensures BetweenUpdates(s, w) ==> w in s.flag && w !in s.waitset
  {
    ReachableInv(ctx, s);
    assert NodeInv(s, w);
  }

  /** The condition of `c` was established and has not been withdrawn since. */
  ghost predicate Holding(es: seq<Event>, c: Context) {
    exists i :: 0 <= i < |es| && es[i] == Establish(c) && Withdraw(c) !in es[i + 1..]
  }

  ghost predicate Calls(es: seq<Event>, c: Context) {
    exists j :: 0 <= j < |es| && es[j].BeginNotify? && Covers(es[j].kind, c)
  }

  /** Whenever the condition of `c` was established, a notification for it began later. */
  ghost predicate Announced(es: seq<Event>, c: Context) {
    forall i :: 0 <= i < |es| && es[i] == Establish(c) ==> Calls(es[i + 1..], c)
  }

  lemma StepLeavesConditions(ctx: Waiter -> Context, s: State, e: Event)
    requires Inv(ctx, s) && Enabled(s, e) && (e.WaitStep? || e.NotifyStep?)
    ensures Step(ctx, s, e).holds == s.holds && Step(ctx, s, e).unannounced == s.unannounced
  {
    if e.WaitStep? { assert NodeInv(s, e.w); WaitStepKeeps(ctx, s, e.w); } else { NotifyStepShape(ctx, s, e.n, e.w); }
    hide Inv, NodeInv, StepWait, StepNotify;
  }

  lemma {:induction false} HoldingHolds(ctx: Waiter -> Context, s: State, es: seq<Event>, c: Context)
    requires Inv(ctx, s) && CanRun(ctx, s, es) && (Holding(es, c) || (c in s.holds && Withdraw(c) !in es))
    ensures c in Run(ctx, s, es).holds
    decreases |es|
  {
    if es != [] {
      var e, s' := es[0], Step(ctx, s, es[0]);
      StepInv(ctx, s, e);
      if e.WaitStep? || e.NotifyStep? { StepLeavesConditions(ctx, s, e); }
      hide Inv, StepWait, StepNotify;
      assert c in s.holds && e != Withdraw(c) ==> c in s'.holds;
      if i :| 0 <= i < |es| && es[i] == Establish(c) && Withdraw(c) !in es[i + 1..] {
        if i > 0 { assert es[1..][i - 1] == es[i] && es[1..][i..] == es[i + 1..]; }
      }
      HoldingHolds(ctx, s', es[1..], c);
    }
  }

  lemma {:induction false} AnnouncedTells(ctx: Waiter -> Context, s: State, es: seq<Event>, c: Context)
    requires Inv(ctx, s) && CanRun(ctx, s, es) && Announced(es, c) && (c in s.unannounced ==> Calls(es, c))
    ensures c !in Run(ctx, s, es).unannounced
    decreases |es|
  {
    if es != [] {
      var e, s' := es[0], Step(ctx, s, es[0]);
      StepInv(ctx, s, e);
      if e.WaitStep? || e.NotifyStep? { StepLeavesConditions(ctx, s, e); }
      hide Inv, StepWait, StepNotify;
      assert Announced(es[1..], c) by {
        forall i | 0 <= i < |es[1..]| && es[1..][i] == Establish(c) ensures Calls(es[1..][i + 1..], c) {
          assert es[i + 1] == Establish(c) && es[1..][i + 1..] == es[i + 2..];
        }
      }
      if c in s'.unannounced {
        assert e != Establish(c) ==> Calls(es, c) && c in s.unannounced;
        if e != Establish(c) {
          var j :| 0 <= j < |es| && es[j].BeginNotify? && Covers(es[j].kind, c);
          assert j > 0 && es[1..][j - 1] == es[j];
        }
      }
      AnnouncedTells(ctx, s', es[1..], c);
    }
  }

  /** No waiter sleeps on: if its condition has come to hold and has been announced
      to it, then its semaphore is posted, or a notifier holds its node and will
      post, or a notifier is about to take the node out. Once the notifications
      are over, a sleeper whose condition holds can go on. */
  lemma NoSleepForever(ctx: Waiter -> Context, es: seq<Event>, w: Waiter)
    requires CanRun(ctx, Init, es) && WaitOf(Run(ctx, Init, es), w) == Sleep
    requires Holding(es, ctx(w)) && Announced(es, ctx(w))
    ensures var s := Run(ctx, Init, es);
      && (Sema(s, w) == 1 || w in s.inHand || WillBeTaken(ctx, s.notify, w))
      && (w in s.inHand ==> s.inHand[w] in s.notify && w in Taken(s.notify[s.inHand[w]]))
      && (s.notify == map[] ==> WaitOf(StepWait(ctx, s, w), w) == Out)
  {
    InitInv(ctx);
    RunInv(ctx, Init, es);
    HoldingHolds(ctx, Init, es, ctx(w));
    AnnouncedTells(ctx, Init, es, ctx(w));
    var s := Run(ctx, Init, es);
    assert NodeInv(s, w) && WakeInv(ctx, s, w);
    if w in s.inHand { assert NotifierInv(s, s.inHand[w]); }
    hide Run, CanRun;
  }

  /** The semaphore of a node is binary; a waiter that gets past it has its node out
      of the set and its flag cleared, as the source asserts; one that still owes
      itself a wakeup knows it; and a node that was destroyed is in nobody's hand. */
  lemma WakeupsAreExact(ctx: Waiter -> Context, s: State, w: Waiter)
    requires Reachable(ctx, s)
    ensures Due(s, w) <= 1
    ensures WaitOf(s, w) == Sleep && Sema(s, w) > 0 ==> w !in s.flag && w !in s.waitset && w !in s.inHand
    ensures WaitOf(s, w) == Out ==> (Due(s, w) == 1 <==> w in s.skipped)
    ensures WaitOf(s, w) == Dead ==> w !in s.waitset && w !in s.inHand && Sema(s, w) == 0
  {
    ReachableInv(ctx, s);
    assert NodeInv(s, w);
  }

  // ------------------------------------------------------ wakeup ledger

  /** A notifier takes the node of `w` out of the set. */
  predicate Takes(s: State, s': State, e: Event, w: Waiter) {
    e.NotifyStep? && w in s.waitset && w !in s'.waitset
  }

  predicate Posts(s: State, s': State, w: Waiter) { Sema(s', w) > Sema(s, w) }

  predicate Awaits(s: State, s': State, w: Waiter) { Sema(s', w) < Sema(s, w) }

  function TakenOut(ctx: Waiter -> Context, s: State, es: seq<Event>, w: Waiter): nat
    requires CanRun(ctx, s, es)
    decreases |es|
  {
    if es == [] then 0
    else var s' := Step(ctx, s, es[0]); AsOne(Takes(s, s', es[0], w)) + TakenOut(ctx, s', es[1..], w)
  }

  function Posted(ctx: Waiter -> Context, s: State, es: seq<Event>, w: Waiter): nat
    requires CanRun(ctx, s, es)
    decreases |es|
  {
    if es == [] then 0
    else var s' := Step(ctx, s, es[0]); AsOne(Posts(s, s', w)) + Posted(ctx, s', es[1..], w)
  }

  function Awaited(ctx: Waiter -> Context, s: State, es: seq<Event>, w: Waiter): nat
    requires CanRun(ctx, s, es)
    decreases |es|
  {
    if es == [] then 0
    else var s' := Step(ctx, s, es[0]); AsOne(Awaits(s, s', w)) + Awaited(ctx, s', es[1..], w)
  }

  /** One step moves at most one wakeup of a node: removal to hand, hand to
      semaphore, or semaphore to waiter. */
  ghost predicate Moves(s: State, s': State, e: Event, w: Waiter) {
    && Sema(s', w) + AsOne(Awaits(s, s', w)) == Sema(s, w) + AsOne(Posts(s, s', w))
    && AsOne(w in s'.inHand) + AsOne(Posts(s, s', w)) == AsOne(w in s.inHand) + AsOne(Takes(s, s', e, w))
  }

  lemma WaitStepMoves(ctx: Waiter -> Context, s: State, v: Waiter, w: Waiter)
    ensures Moves(s, StepWait(ctx, s, v), WaitStep(v), w)
  {
    var p := WaitOf(s, v);
    if p.Pump? || p.Sleep? || p.Destroy? {
      hide Without;
    } else {
      KeepsWakeups(ctx, s, v);
      hide StepWait;
    }
  }

  lemma KeepsWakeups(ctx: Waiter -> Context, s: State, v: Waiter)
    requires var p := WaitOf(s, v); !p.Pump? && !p.Sleep? && !p.Destroy?
    ensures var s' := StepWait(ctx, s, v); s'.sema == s.sema && s'.inHand == s.inHand
  {
    var p := WaitOf(s, v);
    if p.Begin? || p.SetFlag? || p.PLock? || p.ReadEpoch? || p.Add? || p.PUnlock? || p.Check? || p.Compare? {
      EntryKeepsWakeups(ctx, s, v);
    } else {
      CancelKeepsWakeups(ctx, s, v);
    }
    hide StepWait;
  }

  lemma EntryKeepsWakeups(ctx: Waiter -> Context, s: State, v: Waiter)
    requires var p := WaitOf(s, v);
      p.Begin? || p.SetFlag? || p.PLock? || p.ReadEpoch? || p.Add? || p.PUnlock? || p.Check? || p.Compare?
    ensures var s' := StepWait(ctx, s, v); s'.sema == s.sema && s'.inHand == s.inHand
  {
    hide Without, P;
  }

  lemma CancelKeepsWakeups(ctx: Waiter -> Context, s: State, v: Waiter)
    requires var p := WaitOf(s, v);
      p.Out? || p.Dead? || p.CSkip? || p.CLoad? || p.CLock? || p.CTest? || p.CRemove? || p.CFlag? || p.CUnskip? || p.CUnlock?
    ensures var s' := StepWait(ctx, s, v); s'.sema == s.sema && s'.inHand == s.inHand
  {
    hide Without, P;
  }

  lemma NotifyStepMovesWakeup(ctx: Waiter -> Context, s: State, n: NotifierId, v: Waiter, w: Waiter)
    requires Shape(s) && n in s.notify
    ensures Moves(s, StepNotify(ctx, s, n, v), NotifyStep(n, v), w)
  {
    match s.notify[n]
    case NScan(_, _) => TakeOutMoves(ctx, s, n, v, w);
    case NFlush => FlushMoves(ctx, s, n, v, w);
    case NWake(_) => PostMoves(ctx, s, n, v, w);
    case _ => OtherMoves(ctx, s, n, v, w);
    hide Shape, StepNotify, Moves;
  }

  lemma TakeOutMoves(ctx: Waiter -> Context, s: State, n: NotifierId, v: Waiter, w: Waiter)
    requires Shape(s) && n in s.notify && s.notify[n].NScan?
    ensures Moves(s, StepNotify(ctx, s, n, v), NotifyStep(n, v), w)
  {
    assert NodeInv(s, w) && NotifierInv(s, n);
    hide Distinct, Targets, Flagging, Flush;
  }

  lemma FlushMoves(ctx: Waiter -> Context, s: State, n: NotifierId, v: Waiter, w: Waiter)
    requires Shape(s) && n in s.notify && s.notify[n].NFlush?
    ensures Moves(s, StepNotify(ctx, s, n, v), NotifyStep(n, v), w)
  {
    assert NodeInv(s, w) && NotifierInv(s, n);
    hide Distinct, Targets, Flagging;
  }

  lemma PostMoves(ctx: Waiter -> Context, s: State, n: NotifierId, v: Waiter, w: Waiter)
    requires Shape(s) && n in s.notify && s.notify[n].NWake?
    ensures Moves(s, StepNotify(ctx, s, n, v), NotifyStep(n, v), w)
  {
    assert NotifierInv(s, n);
    hide Distinct, Targets, Flagging, Flush, NodeInv;
  }

  lemma OtherMoves(ctx: Waiter -> Context, s: State, n: NotifierId, v: Waiter, w: Waiter)
    requires n in s.notify && !s.notify[n].NScan? && !s.notify[n].NFlush? && !s.notify[n].NWake?
    ensures Moves(s, StepNotify(ctx, s, n, v), NotifyStep(n, v), w)
  {
    hide Targets, Flush;
  }

  lemma StepMoves(ctx: Waiter -> Context, s: State, e: Event, w: Waiter)
    requires Inv(ctx, s) && Enabled(s, e)
    ensures Moves(s, Step(ctx, s, e), e, w)
  {
    hide StepWait, StepNotify, Shape;
    match e
    case WaitStep(v) => WaitStepMoves(ctx, s, v, w);
    case NotifyStep(n, v) => NotifyStepMovesWakeup(ctx, s, n, v, w);
    case _ =>
  }

  /** Over every run: each removal of a node by a notifier gives one post, at once
      or still in hand, and each post one wait, by the sleeper or to pump a skipped
      wakeup, or it is still in the semaphore. */
  lemma {:induction false} WakeupLedger(ctx: Waiter -> Context, s: State, es: seq<Event>, w: Waiter)
    requires Inv(ctx, s) && CanRun(ctx, s, es)
    ensures var s' := Run(ctx, s, es);
      && AsOne(w in s.inHand) + TakenOut(ctx, s, es, w) == Posted(ctx, s, es, w) + AsOne(w in s'.inHand)
      && Sema(s, w) + Posted(ctx, s, es, w) == Awaited(ctx, s, es, w) + Sema(s', w)
    decreases |es|
  {
    hide Inv, Step, Takes, Posts, Awaits, Sema;
    if es != [] {
      var s' := Step(ctx, s, es[0]);
      StepInv(ctx, s, es[0]);
      StepMoves(ctx, s, es[0], w);
      WakeupLedger(ctx, s', es[1..], w);
    }
  }
}
