/** The supply of worker threads. `slack` counts the jobs that could use a thread
    and have none; workers without a job sleep on a list under a mutex. Whoever
    raises the slack wakes up to two sleepers, and each of these wakes up to two
    more. One event is one load, store, fetch-add, compare-exchange, lock, unlock
    or notification. Threads below `workers` are workers, the others clients. */
module PrivateServer {
  import opened Common

  type Thread = nat

  /** `Add` to `Wake` are inside `wake_some`, with `a` units of slack claimed and
      `w` the workers taken off the list; `Chain` is `propagate_chain_reaction`
      and `Try` to `IUnlock` are inside `try_insert_in_asleep_list`. */
  datatype Phase =
    | Out
    | Add(delta: nat)
    | Load(a: nat)
    | Cas(a: nat, expected: int)
    | Lock(a: nat)
    | Pop(a: nat, w: seq<Thread>)
    | Return(a: nat, w: seq<Thread>)
    | Unlock(w: seq<Thread>)
    | Wake(w: seq<Thread>)
    | Asleep | Chain | Running
    | Try | ILoad | ICas(expected: int) | IFail | IPush | IUnlock

  datatype Mutex = Free | Held(t: Thread)

  /** `hand` says which thread has taken a sleeper off the list and has still to
      wake it; `net` is the sum of all adjustments so far. Both are bookkeeping. */
  datatype State = State(
    workers: nat, slack: int, asleep: seq<Thread>, mutex: Mutex, threads: seq<Phase>,
    hand: map<Thread, Thread>, net: int)

  datatype Event =
    | Adjust(t: Thread, delta: int)
    | Step(t: Thread)

  function Init(workers: nat, clients: nat): State {
    State(workers, 0, seq(workers, i requires 0 <= i < workers => workers - 1 - i), Free,
          seq(workers + clients, i => if i < workers then Asleep else Out), map[], 0)
  }

  function Go(s: State, t: Thread, p: Phase): State
    requires t < |s.threads|
  {
    s.(threads := s.threads[t := p])
  }

  /** The end of `wake_some`. */
  function Finished(s: State, t: Thread): Phase { if t < s.workers then Running else Out }

  /** The claiming loop looks at a value of the slack. */
  function Looked(s: State, t: Thread, a: nat, seen: int): Phase {
    if seen > 0 then Cas(a, seen) else if a > 0 then Lock(a) else Finished(s, t)
  }

  /** `wake_or_launch`: the worker goes on, or its thread starts, with a chain reaction. */
  function Notify(s: State, ww: Thread): State {
    if ww < |s.threads| then Go(s, ww, Chain).(hand := s.hand - {ww}) else s
  }

  function StepThread(s: State, t: Thread): State
    requires t < |s.threads|
  {
    match s.threads[t]
    case Out => s
    case Add(d) => Go(s.(slack := s.slack + d), t, Load(0))
    case Load(a) => Go(s, t, Looked(s, t, a, s.slack))
    case Cas(a, seen) =>
      if s.slack == seen then Go(s.(slack := s.slack - 1), t, if a + 1 < 2 then Load(a + 1) else Lock(a + 1))
      else Go(s, t, Looked(s, t, a, s.slack))
    case Lock(a) => if s.mutex == Free then Go(s.(mutex := Held(t)), t, Pop(a, [])) else s
    case Pop(a, w) =>
      if s.asleep != [] && |w| < 2 && a > 0 then
        Go(s.(asleep := s.asleep[1..], hand := s.hand[s.asleep[0] := t]), t, Pop(a - 1, w + [s.asleep[0]]))
      else Go(s, t, if a > 0 then Return(a, w) else Unlock(w))
    case Return(a, w) => Go(s.(slack := s.slack + a), t, Unlock(w))
    case Unlock(w) => Go(s.(mutex := Free), t, Wake(w))
    case Wake(w) =>
      if w == [] then Go(s, t, Finished(s, t))
      else Notify(Go(s, t, Wake(w[..|w| - 1])), w[|w| - 1])
    case Asleep => s
    case Chain => Go(s, t, if s.asleep != [] then Load(0) else Running)
    case Running => Go(s, t, if s.slack >= 0 then Running else Try)
    case Try => if s.mutex == Free then Go(s.(mutex := Held(t)), t, ILoad) else Go(s, t, Running)
    case ILoad => Go(s, t, if s.slack < 0 then ICas(s.slack) else IFail)
    case ICas(e) =>
      if s.slack == e then Go(s.(slack := s.slack + 1), t, IPush)
      else Go(s, t, if s.slack < 0 then ICas(s.slack) else IFail)
    case IFail => Go(s.(mutex := Free), t, Running)
    case IPush => Go(s.(asleep := [t] + s.asleep), t, IUnlock)
    case IUnlock => Go(s.(mutex := Free), t, Asleep)
  }

  /** `adjust_job_count_estimate` is called by clients; a worker that calls it from
      within its job counts as a client meanwhile. */
  predicate Enabled(s: State, e: Event) {
    e.t < |s.threads| && (e.Adjust? ==> e.t >= s.workers && s.threads[e.t] == Out)
  }

  function Next(s: State, e: Event): State
    requires Enabled(s, e)
  {
    match e
    case Adjust(t, d) =>
      var s0 := s.(net := s.net + d);
      if d > 0 then Go(s0, t, Add(d)) else s0.(slack := s.slack + d)
    case Step(t) => StepThread(s, t)
  }

  predicate CanRun(s: State, es: seq<Event>)
    decreases |es|
  {
    es == [] || (Enabled(s, es[0]) && CanRun(Next(s, es[0]), es[1..]))
  }

  function Run(s: State, es: seq<Event>): State
    requires CanRun(s, es)
    decreases |es|
  {
    if es == [] then s else Run(Next(s, es[0]), es[1..])
  }

  // ------------------------------------------------------------ invariant

  predicate Locked(p: Phase) {
    p.Pop? || p.Return? || p.Unlock? || p.ILoad? || p.ICas? || p.IFail? || p.IPush? || p.IUnlock?
  }

  predicate ForWorkers(p: Phase) {
    p.Asleep? || p.Chain? || p.Running? || p.Try? || p.ILoad? || p.ICas? || p.IFail? || p.IPush? || p.IUnlock?
  }

  function HandOf(p: Phase): seq<Thread> {
    match p
    case Pop(_, w) => w
    case Return(_, w) => w
    case Unlock(w) => w
    case Wake(w) => w
    case _ => []
  }

  /** At most two units are claimed; unused units are given back only if nobody
      sleeps on the list. */
  predicate PhaseOk(p: Phase, nobody: bool) {
    match p
    case Load(a) => a <= 1
    case Cas(a, seen) => a <= 1 && seen > 0
    case Lock(a) => 1 <= a <= 2
    case Pop(a, w) => 1 <= a + |w| <= 2
    case Return(a, w) => 1 <= a && a + |w| <= 2 && nobody
    case Unlock(w) => w == [] ==> nobody
    case ICas(e) => e < 0
    case _ => true
  }

  /** A worker is in the list from its push until it is taken off, and in somebody's
      hand from then until it is woken. */
  predicate SleepOk(p: Phase, inList: bool, inHand: bool) {
    && (p == Asleep <==> inHand || (inList && p != IUnlock))
    && (p == IUnlock ==> inList)
    && !(inList && inHand)
    && (inHand ==> p == Asleep)
  }

  ghost predicate HandIs(w: seq<Thread>, hand: map<Thread, Thread>, t: Thread) {
    && (forall x :: x in w <==> x in hand && hand[x] == t)
    && (forall i, j :: 0 <= i < j < |w| ==> w[i] != w[j])
  }

  ghost predicate ThreadInv(s: State, t: Thread)
    requires t < |s.threads|
  {
    var p := s.threads[t];
    && (Locked(p) <==> s.mutex == Held(t))
    && (if t < s.workers then p != Out && !p.Add? else !ForWorkers(p))
    && PhaseOk(p, s.asleep == [])
    && SleepOk(p, t in s.asleep, t in s.hand)
    && HandIs(HandOf(p), s.hand, t)
  }

  ghost predicate Shape(s: State) {
    && s.workers <= |s.threads|
    && Distinct(s.asleep)
    && (forall t :: 0 <= t < |s.threads| ==> ThreadInv(s, t))
    && (forall t :: t in s.asleep ==> t < s.workers)
    && (forall t :: t in s.hand ==> t < s.workers && s.hand[t] < |s.threads|)
    && (s.mutex.Held? ==> s.mutex.t < |s.threads|)
  }

  /** What a thread uses up of the net supply: claimed units, sleepers in hand, and
      a worker that is up counts one. */
  function Weight(worker: bool, p: Phase): nat {
    match p
    case Out => 0
    case Add(d) => d
    case Asleep => 0
    case IPush => 0
    case IUnlock => 0
    case _ =>
      (if worker then 1 else 0) + |HandOf(p)|
      + match p { case Load(a) => a case Cas(a, _) => a case Lock(a) => a case Pop(a, _) => a case Return(a, _) => a case _ => 0 }
  }

  function Total(workers: nat, threads: seq<Phase>): nat {
    if threads == [] then 0
    else Total(workers, threads[..|threads| - 1]) + Weight(|threads| - 1 < workers, threads[|threads| - 1])
  }

  /** Slack and what is used up make the net supply. */
  predicate Balanced(s: State) { s.slack + Total(s.workers, s.threads) == s.net }

  /** A thread that is going to look at the list under the mutex if there is slack. */
  predicate Claiming(p: Phase) { p.Add? || p.Load? || p.Cas? || p.Lock? }

  /** A thread that is waking sleepers or will look whether it should. */
  predicate Obliged(p: Phase) { Claiming(p) || p.Pop? || p.Chain? || HandOf(p) != [] }

  ghost predicate SomeObliged(threads: seq<Phase>) {
    exists t :: 0 <= t < |threads| && Obliged(threads[t])
  }

  ghost predicate SomeClaiming(threads: seq<Phase>) {
    exists t :: 0 <= t < |threads| && Claiming(threads[t])
  }

  /** Supply is not stranded: neither now nor once the thread that is about to enter
      the list has done so. */
  ghost predicate Supplied(s: State) {
    s.slack > 0 ==>
      && (s.asleep != [] ==> SomeObliged(s.threads))
      && (forall t :: 0 <= t < |s.threads| && s.threads[t] == IPush ==> SomeClaiming(s.threads))
  }

  ghost predicate Inv(s: State) { Shape(s) && Balanced(s) && Supplied(s) }

  // -------------------------------------------------------- the balance

  lemma {:induction false} TotalUpdate(workers: nat, threads: seq<Phase>, t: Thread, p: Phase)
    requires t < |threads|
    ensures Total(workers, threads[t := p]) + Weight(t < workers, threads[t])
         == Total(workers, threads) + Weight(t < workers, p)
  {
    var n := |threads| - 1;
    if t == n {
      assert threads[t := p][..n] == threads[..n];
    } else {
      TotalUpdate(workers, threads[..n], t, p);
      assert threads[t := p][..n] == threads[..n][t := p];
    }
  }

  lemma {:induction false} InitBalanced(workers: nat, clients: nat)
    ensures Inv(Init(workers, clients))
  {
    var s := Init(workers, clients);
    AtRestWeighsNothing(workers, s.threads);
    forall t | 0 <= t < |s.threads| ensures ThreadInv(s, t) {
      if t < workers { assert s.asleep[workers - 1 - t] == t; }
    }
  }

  lemma {:induction false} AtRestWeighsNothing(workers: nat, threads: seq<Phase>)
    requires forall t :: 0 <= t < |threads| ==> threads[t] == Asleep || threads[t] == Out
    ensures Total(workers, threads) == 0
  {
    if threads != [] { AtRestWeighsNothing(workers, threads[..|threads| - 1]); }
  }

  // ---------------------------------------------------------- the steps

  /** A step of `t` that leaves list and hands alone. */
  ghost predicate QuietMove(s: State, s': State, t: Thread)
    requires t < |s.threads|
  {
    && s'.workers == s.workers && s'.asleep == s.asleep && s'.hand == s.hand
    && |s'.threads| == |s.threads| && s'.threads == s.threads[t := s'.threads[t]]
    && (s'.mutex == s.mutex || (s.mutex == Free && s'.mutex == Held(t)) || (s.mutex == Held(t) && s'.mutex == Free))
    && s'.slack + Weight(t < s.workers, s'.threads[t]) - s'.net == s.slack + Weight(t < s.workers, s.threads[t]) - s.net
  }

  lemma QuietMoveShape(s: State, s': State, t: Thread)
    requires Shape(s) && t < |s.threads| && QuietMove(s, s', t) && ThreadInv(s', t)
    ensures Shape(s')
  {
    hide Weight, SleepOk, HandIs, Distinct;
    forall u | 0 <= u < |s'.threads| ensures ThreadInv(s', u) {
      assert ThreadInv(s, u) && ThreadInv(s, t);
    }
  }

  lemma QuietMoveBalanced(s: State, s': State, t: Thread)
    requires Balanced(s) && t < |s.threads| && QuietMove(s, s', t)
    ensures Balanced(s')
  {
    hide Weight;
    TotalUpdate(s.workers, s.threads, t, s'.threads[t]);
  }

  lemma ClaimSteps(s: State, t: Thread)
    requires t < |s.threads| && ThreadInv(s, t) && Claiming(s.threads[t])
    ensures var s' := StepThread(s, t); QuietMove(s, s', t) && ThreadInv(s', t)
  {
    hide HandIs;
  }

  lemma ReturnSteps(s: State, t: Thread)
    requires t < |s.threads| && ThreadInv(s, t)
    requires var p := s.threads[t]; p.Return? || p.Unlock? || p == Wake([]) || (p.Pop? && (s.asleep == [] || p.a == 0))
    ensures var s' := StepThread(s, t); QuietMove(s, s', t) && ThreadInv(s', t)
  {
    hide HandIs;
  }

  lemma LoopSteps(s: State, t: Thread)
    requires t < |s.threads| && ThreadInv(s, t)
    requires var p := s.threads[t]; p.Out? || p.Asleep? || p.Chain? || p.Running? || p.Try?
    ensures var s' := StepThread(s, t); QuietMove(s, s', t) && ThreadInv(s', t)
  {
    hide HandIs;
  }

  lemma InsertSteps(s: State, t: Thread)
    requires t < |s.threads| && ThreadInv(s, t)
    requires var p := s.threads[t]; p.ILoad? || p.ICas? || p.IFail? || p.IUnlock?
    ensures var s' := StepThread(s, t); QuietMove(s, s', t) && ThreadInv(s', t)
  {
    hide HandIs;
  }

  predicate Quiet(s: State, p: Phase) {
    !p.IPush? && !(p.Pop? && s.asleep != [] && p.a > 0) && !(p.Wake? && p.w != [])
  }

  lemma QuietSteps(s: State, t: Thread)
    requires t < |s.threads| && ThreadInv(s, t) && Quiet(s, s.threads[t])
    ensures var s' := StepThread(s, t); QuietMove(s, s', t) && ThreadInv(s', t)
  {
    hide ThreadInv, QuietMove, StepThread;
    var p := s.threads[t];
    if Claiming(p) { ClaimSteps(s, t); }
    else if p.Return? || p.Unlock? || p == Wake([]) || p.Pop? { ReturnSteps(s, t); }
    else if p.Out? || p.Asleep? || p.Chain? || p.Running? || p.Try? { LoopSteps(s, t); }
    else { InsertSteps(s, t); }
  }

  /** A quiet step that has been answering for the supply goes on doing so, or there
      is nothing left to answer for. */
  predicate Answers(s: State, s': State, t: Thread)
    requires t < |s.threads| && t < |s'.threads|
  {
    var p, p' := s.threads[t], s'.threads[t];
    s'.slack > 0 ==>
      && (s'.asleep != [] && (Obliged(p) || s.slack <= 0) ==> Obliged(p'))
      && (Claiming(p) || s.slack <= 0 ==> Claiming(p') || s.mutex == Free || s.mutex == Held(t))
      && p' != IPush
  }

  lemma ClaimAnswers(s: State, t: Thread)
    requires t < |s.threads| && ThreadInv(s, t) && Claiming(s.threads[t])
    ensures Answers(s, StepThread(s, t), t)
  {
    hide HandIs, SleepOk;
  }

  lemma ReturnAnswers(s: State, t: Thread)
    requires t < |s.threads| && ThreadInv(s, t)
    requires var p := s.threads[t]; p.Return? || p.Unlock? || p == Wake([]) || (p.Pop? && (s.asleep == [] || p.a == 0))
    ensures Answers(s, StepThread(s, t), t)
  {
    hide HandIs, SleepOk;
  }

  lemma LoopAnswers(s: State, t: Thread)
    requires t < |s.threads| && ThreadInv(s, t)
    requires var p := s.threads[t]; p.Out? || p.Asleep? || p.Chain? || p.Running? || p.Try?
    ensures Answers(s, StepThread(s, t), t)
  {
    hide HandIs, SleepOk;
  }

  lemma InsertAnswers(s: State, t: Thread)
    requires t < |s.threads| && ThreadInv(s, t)
    requires var p := s.threads[t]; p.ILoad? || p.ICas? || p.IFail? || p.IUnlock?
    ensures Answers(s, StepThread(s, t), t)
  {
    hide HandIs, SleepOk;
  }

  lemma QuietAnswers(s: State, t: Thread)
    requires t < |s.threads| && ThreadInv(s, t) && Quiet(s, s.threads[t])
    ensures Answers(s, StepThread(s, t), t)
  {
    hide ThreadInv, StepThread, Answers;
    var p := s.threads[t];
    if Claiming(p) { ClaimAnswers(s, t); }
    else if p.Return? || p.Unlock? || p == Wake([]) || p.Pop? { ReturnAnswers(s, t); }
    else if p.Out? || p.Asleep? || p.Chain? || p.Running? || p.Try? { LoopAnswers(s, t); }
    else { InsertAnswers(s, t); }
  }

  lemma QuietSupplied(s: State, s': State, t: Thread)
    requires Shape(s) && Supplied(s) && t < |s.threads| && QuietMove(s, s', t) && Answers(s, s', t)
    ensures Supplied(s')
  {
    hide Obliged, Claiming, Weight, SleepOk, HandIs, Distinct, PhaseOk;
    if s'.slack > 0 {
      if s'.asleep != [] && !Obliged(s'.threads[t]) {
        var u :| 0 <= u < |s.threads| && Obliged(s.threads[u]);
        assert Obliged(s'.threads[u]);
      }
      forall v | 0 <= v < |s'.threads| && s'.threads[v] == IPush ensures SomeClaiming(s'.threads) {
        assert ThreadInv(s, v) && s.threads[v] == IPush;
        if !Claiming(s'.threads[t]) {
          var u :| 0 <= u < |s.threads| && Claiming(s.threads[u]);
          assert Claiming(s'.threads[u]);
        }
      }
    }
  }

  lemma QuietStepInv(s: State, t: Thread)
    requires Inv(s) && t < |s.threads| && Quiet(s, s.threads[t])
    ensures Inv(StepThread(s, t))
  {
    assert ThreadInv(s, t);
    hide ThreadInv, StepThread, Answers, QuietMove, Quiet, Shape, Balanced, Supplied;
    var s' := StepThread(s, t);
    QuietSteps(s, t);
    QuietAnswers(s, t);
    QuietMoveShape(s, s', t);
    QuietMoveBalanced(s, s', t);
    QuietSupplied(s, s', t);
  }

  lemma OneEnters(s: State)
    requires Shape(s)
    ensures forall v :: 0 <= v < |s.threads| && s.threads[v] == IPush ==> s.mutex == Held(v)
  {
    forall v | 0 <= v < |s.threads| ensures s.threads[v] == IPush ==> s.mutex == Held(v) { assert ThreadInv(s, v); }
  }

  /** A sleeper passes from the list into the hand of `t`. */
  ghost predicate PopMove(s: State, s': State, t: Thread, x: Thread)
    requires t < |s.threads|
  {
    && s.asleep != [] && x == s.asleep[0] && s.threads[t].Pop? && s.threads[t].a > 0 && |s.threads[t].w| < 2
    && s' == s.(asleep := s.asleep[1..], hand := s.hand[x := t],
                threads := s.threads[t := Pop(s.threads[t].a - 1, s.threads[t].w + [x])])
  }

  lemma PopMoves(s: State, t: Thread) returns (x: Thread)
    requires t < |s.threads| && ThreadInv(s, t) && s.threads[t].Pop? && !Quiet(s, s.threads[t])
    ensures PopMove(s, StepThread(s, t), t, x)
  {
    hide Looked, Finished;
    x := s.asleep[0];
  }

  lemma PopStepInv(s: State, t: Thread)
    requires Inv(s) && t < |s.threads| && s.threads[t].Pop? && !Quiet(s, s.threads[t])
    ensures Inv(StepThread(s, t))
  {
    var s' := StepThread(s, t);
    assert ThreadInv(s, t);
    var x := PopMoves(s, t);
    hide StepThread, Quiet;
    assert x in s.asleep && ThreadInv(s, x);
    assert forall u :: u in s'.asleep <==> u in s.asleep && u != x by { DropFirst(s.asleep); }
    assert Shape(s') by {
      forall u | 0 <= u < |s'.threads| ensures ThreadInv(s', u) { PopKeeps(s, s', t, x, u); }
    }
    TotalUpdate(s.workers, s.threads, t, s'.threads[t]);
    assert Obliged(s'.threads[t]);
    OneEnters(s);
  }

  lemma PopKeeps(s: State, s': State, t: Thread, x: Thread, u: Thread)
    requires Shape(s) && t < |s.threads| && u < |s.threads| && PopMove(s, s', t, x)
    requires forall v :: v in s'.asleep <==> v in s.asleep && v != x
    ensures ThreadInv(s', u)
  {
    assert x in s.asleep && ThreadInv(s, x) && ThreadInv(s, t) && ThreadInv(s, u);
    assert x !in s.hand && s.threads[x] != IUnlock && x != t;
    hide ThreadInv;
    if u == t { PopKeepsTaker(s, s', t, x); } else { PopKeepsOthers(s, s', t, x, u); }
  }

  lemma PopKeepsTaker(s: State, s': State, t: Thread, x: Thread)
    requires t < |s.threads| && PopMove(s, s', t, x) && ThreadInv(s, t) && x != t && x !in s.hand
    requires forall v :: v in s'.asleep <==> v in s.asleep && v != x
    ensures ThreadInv(s', t)
  {
  }

  lemma PopKeepsOthers(s: State, s': State, t: Thread, x: Thread, u: Thread)
    requires t < |s.threads| && u < |s.threads| && u != t && PopMove(s, s', t, x)
    requires ThreadInv(s, t) && ThreadInv(s, u) && x !in s.hand && (u == x ==> s.threads[x] != IUnlock)
    requires forall v :: v in s'.asleep <==> v in s.asleep && v != x
    ensures ThreadInv(s', u)
  {
  }

  lemma DropFirst(q: seq<Thread>)
    requires q != [] && Distinct(q)
    ensures forall v :: v in q[1..] <==> v in q && v != q[0]
  {
  }

  /** What the wakeup of the last sleeper in the hand of `t` changes. */
  ghost predicate WakeMove(s: State, s': State, t: Thread, x: Thread)
    requires t < |s.threads|
  {
    && s.threads[t].Wake? && s.threads[t].w != [] && x == s.threads[t].w[|s.threads[t].w| - 1]
    && x < |s.threads| && x != t && s.threads[x] == Asleep
    && s' == s.(threads := s.threads[t := Wake(s.threads[t].w[..|s.threads[t].w| - 1])][x := Chain], hand := s.hand - {x})
  }

  lemma WakeMoves(s: State, t: Thread) returns (x: Thread)
    requires Shape(s) && t < |s.threads| && s.threads[t].Wake? && s.threads[t].w != []
    ensures WakeMove(s, StepThread(s, t), t, x) && x in s.hand && s.hand[x] == t
  {
    hide Distinct, PhaseOk, ForWorkers;
    var w := s.threads[t].w;
    x := w[|w| - 1];
    assert ThreadInv(s, t) && x in w;
    assert ThreadInv(s, x);
  }

  lemma WakeHands(s: State, s': State, t: Thread, x: Thread, u: Thread)
    requires Shape(s) && t < |s.threads| && WakeMove(s, s', t, x) && u < |s.threads|
    ensures HandIs(HandOf(s'.threads[u]), s'.hand, u)
  {
    hide Distinct, PhaseOk, ForWorkers, Locked, SleepOk;
    assert ThreadInv(s, t) && ThreadInv(s, x) && ThreadInv(s, u);
    var w := s.threads[t].w;
    assert x in w;
    assert forall v :: v in w[..|w| - 1] <==> v in w && v != x;
  }

  lemma WakeKeeps(s: State, s': State, t: Thread, x: Thread, u: Thread)
    requires Shape(s) && t < |s.threads| && WakeMove(s, s', t, x) && u < |s.threads|
    requires x in s.hand && s.hand[x] == t
    ensures ThreadInv(s', u)
  {
    hide Distinct, HandIs;
    assert ThreadInv(s, t) && ThreadInv(s, x) && ThreadInv(s, u);
    WakeHands(s, s', t, x, u);
  }

  lemma WakeBalanced(s: State, s': State, t: Thread, x: Thread)
    requires Balanced(s) && t < |s.threads| && WakeMove(s, s', t, x) && x < s.workers
    ensures Balanced(s')
  {
    var p := Wake(s.threads[t].w[..|s.threads[t].w| - 1]);
    TotalUpdate(s.workers, s.threads, t, p);
    TotalUpdate(s.workers, s.threads[t := p], x, Chain);
  }

  lemma WakeSupplied(s: State, s': State, t: Thread, x: Thread)
    requires Supplied(s) && t < |s.threads| && WakeMove(s, s', t, x)
    ensures Supplied(s')
  {
    assert Obliged(s'.threads[x]);
    forall v | 0 <= v < |s'.threads| && s'.threads[v] == IPush && s'.slack > 0 ensures SomeClaiming(s'.threads) {
      assert s.threads[v] == IPush;
      var u :| 0 <= u < |s.threads| && Claiming(s.threads[u]);
      assert Claiming(s'.threads[u]);
    }
  }

  /** A sleeper in the hand of `t` is woken: it was asleep and not in the list. */
  lemma WakeStepInv(s: State, t: Thread)
    requires Inv(s) && t < |s.threads| && s.threads[t].Wake? && s.threads[t].w != []
    ensures Inv(StepThread(s, t))
  {
    hide StepThread, Supplied, Balanced, ThreadInv;
    var s' := StepThread(s, t);
    var x := WakeMoves(s, t);
    forall u | 0 <= u < |s'.threads| ensures ThreadInv(s', u) { WakeKeeps(s, s', t, x, u); }
    WakeBalanced(s, s', t, x);
    WakeSupplied(s, s', t, x);
  }

  /** A worker enters the list; whoever has raised the slack since it gave its unit
      back will find it there. */
  lemma PushStepInv(s: State, t: Thread)
    requires Inv(s) && t < |s.threads| && s.threads[t].IPush?
    ensures Inv(StepThread(s, t))
  {
    var s' := StepThread(s, t);
    assert ThreadInv(s, t);
    assert Shape(s') by {
      forall u | 0 <= u < |s'.threads| ensures ThreadInv(s', u) {
        assert ThreadInv(s, u);
        hide Distinct, HandIs;
      }
    }
    TotalUpdate(s.workers, s.threads, t, IUnlock);
    if s'.slack > 0 {
      var u :| 0 <= u < |s.threads| && Claiming(s.threads[u]);
      assert Obliged(s'.threads[u]);
    }
    OneEnters(s);
  }

  lemma AdjustInv(s: State, t: Thread, delta: int)
    requires Inv(s) && Enabled(s, Adjust(t, delta))
    ensures Inv(Next(s, Adjust(t, delta)))
  {
    var s' := Next(s, Adjust(t, delta));
    assert ThreadInv(s, t);
    assert QuietMove(s, s', t) && ThreadInv(s', t) by { hide HandIs; }
    QuietMoveShape(s, s', t);
    QuietMoveBalanced(s, s', t);
    assert Answers(s, s', t);
    QuietSupplied(s, s', t);
  }

  lemma StepInv(s: State, e: Event)
    requires Inv(s) && Enabled(s, e)
    ensures Inv(Next(s, e))
  {
    hide Inv, StepThread;
    match e
    case Adjust(t, d) => AdjustInv(s, t, d);
    case Step(t) =>
      if Quiet(s, s.threads[t]) { QuietStepInv(s, t); }
      else if s.threads[t].Pop? { PopStepInv(s, t); }
      else if s.threads[t].Wake? { WakeStepInv(s, t); }
      else { PushStepInv(s, t); }
  }

  lemma {:induction false} RunInv(s: State, es: seq<Event>)
    requires Inv(s) && CanRun(s, es)
    ensures Inv(Run(s, es))
    decreases |es|
  {
    hide Inv, Next;
    if es != [] {
      StepInv(s, es[0]);
      RunInv(Next(s, es[0]), es[1..]);
    }
  }

  ghost predicate Reachable(workers: nat, s: State) {
    exists clients: nat, es :: CanRun(Init(workers, clients), es) && s == Run(Init(workers, clients), es)
  }

  lemma ReachableInv(workers: nat, s: State)
    requires Reachable(workers, s)
    ensures Inv(s)
  {
    var clients: nat, es :| CanRun(Init(workers, clients), es) && s == Run(Init(workers, clients), es);
    InitBalanced(workers, clients);
    RunInv(Init(workers, clients), es);
  }

  // -------------------------------------------------------- main results

  predicate InWakeSome(p: Phase) {
    p.Add? || p.Load? || p.Cas? || p.Lock? || p.Pop? || p.Return? || p.Unlock? || p.Wake?
  }

  /** Supply is never stranded: if there is slack and a worker on the list, some
      thread is inside `wake_some` or has still to start its chain reaction. */
  lemma NoStrandedSupply(workers: nat, s: State)
    requires Reachable(workers, s) && s.slack > 0 && s.asleep != []
    ensures exists t :: 0 <= t < |s.threads| && (InWakeSome(s.threads[t]) || s.threads[t] == Chain)
  {
    ReachableInv(workers, s);
    var t :| 0 <= t < |s.threads| && Obliged(s.threads[t]);
    assert InWakeSome(s.threads[t]) || s.threads[t] == Chain;
  }

  /** What the source says of sleeping workers: there is no slack while one is on the list. */
  predicate SleepersHaveNoSlack(s: State) { s.asleep != [] ==> s.slack <= 0 }

  /** It holds whenever no thread is inside `wake_some` or about to start its chain reaction. */
  lemma NoSlackWhenNobodyWakes(workers: nat, s: State)
    requires Reachable(workers, s)
    requires forall t :: 0 <= t < |s.threads| ==> !InWakeSome(s.threads[t]) && s.threads[t] != Chain
    ensures SleepersHaveNoSlack(s)
  {
    if !SleepersHaveNoSlack(s) { NoStrandedSupply(workers, s); }
  }

  /** The step contributes the slack of a caller while somebody sleeps, or ends in the
      list although slack has come up meanwhile. */
  predicate Breaks(s: State, e: Event)
    requires Enabled(s, e)
  {
    e.Step? &&
    match s.threads[e.t]
    case Add(d) => s.asleep != [] && s.slack + d > 0
    case IPush => s.slack > 0
    case _ => false
  }

  /** A step breaks it if and only if it is one of these two, for every run. */
  lemma BrokenByTheseOnly(workers: nat, s: State, e: Event)
    requires Reachable(workers, s) && SleepersHaveNoSlack(s) && Enabled(s, e)
    ensures SleepersHaveNoSlack(Next(s, e)) <==> !Breaks(s, e)
  {
    ReachableInv(workers, s);
    assert ThreadInv(s, e.t);
    hide HandIs, SleepOk, Balanced, Supplied;
  }

  /** Slack is raised under the mutex, except by the first step of `wake_some`. */
  lemma RaisedUnderMutex(workers: nat, s: State, e: Event)
    requires Reachable(workers, s) && Enabled(s, e)
    ensures Next(s, e).slack > s.slack ==> e.Step? && (s.mutex == Held(e.t) || s.threads[e.t].Add?)
  {
    ReachableInv(workers, s);
    assert ThreadInv(s, e.t);
    hide HandIs, SleepOk, Balanced, Supplied;
  }

  /** A request for one worker, its slack just contributed: nobody has the mutex, there
      is slack, and the only worker sleeps on the list. */
  lemma SlackWithASleeper()
    ensures exists s :: Reachable(1, s) && s.slack > 0 && s.asleep != [] && s.mutex == Free
  {
    var s0 := Init(1, 1);
    assert s0.asleep == [0] && s0.threads == [Asleep, Out];
    var es := [Adjust(1, 1), Step(1)];
    var s1 := Next(s0, es[0]);
    assert s1.threads == [Asleep, Add(1)];
    assert es[1..] == [Step(1)] && es[1..][1..] == [];
    var s2 := Next(s1, es[1]);
    assert CanRun(s2, []) && CanRun(s1, es[1..]) && CanRun(s0, es);
    assert Run(s0, es) == Run(s1, es[1..]) == Run(s2, []) == s2;
    assert Reachable(1, s2);
  }

  function SumOfDeltas(es: seq<Event>): int {
    if es == [] then 0
    else SumOfDeltas(es[1..]) + match es[0] { case Adjust(_, d) => d case _ => 0 }
  }

  lemma {:induction false} NetIsTheSum(s: State, es: seq<Event>)
    requires CanRun(s, es)
    ensures Run(s, es).net == s.net + SumOfDeltas(es)
    decreases |es|
  {
    if es != [] {
      var s' := Next(s, es[0]);
      NetIsTheSum(s', es[1..]);
      if es[0].Step? { NetKept(s, es[0].t); }
      hide StepThread;
    }
  }

  lemma NetKept(s: State, t: Thread)
    requires t < |s.threads|
    ensures StepThread(s, t).net == s.net
  {
  }

  /** Supply is conserved: after every step of every run, the slack, the units that
      are claimed or about to be added, and the workers that are up or about to be
      woken make the sum of all requested adjustments. */
  lemma SupplyConserved(workers: nat, clients: nat, es: seq<Event>)
    requires CanRun(Init(workers, clients), es)
    ensures var s := Run(Init(workers, clients), es); s.slack + Total(s.workers, s.threads) == SumOfDeltas(es)
  {
    InitBalanced(workers, clients);
    RunInv(Init(workers, clients), es);
    NetIsTheSum(Init(workers, clients), es);
  }

  /** No call is in progress and no worker is between its job and its sleep. */
  ghost predicate AtRest(s: State) {
    forall t :: 0 <= t < |s.threads| ==> s.threads[t] == Out || s.threads[t] == Running || s.threads[t] == Asleep
  }

  function Up(threads: seq<Phase>): nat {
    if threads == [] then 0
    else Up(threads[..|threads| - 1]) + if threads[|threads| - 1] == Running then 1 else 0
  }

  lemma {:induction false} RestWeighsWorkers(workers: nat, threads: seq<Phase>)
    requires forall t :: 0 <= t < |threads| ==>
      threads[t] == Out || threads[t] == Asleep || (threads[t] == Running && t < workers)
    ensures Total(workers, threads) == Up(threads)
  {
    if threads != [] { RestWeighsWorkers(workers, threads[..|threads| - 1]); }
  }

  lemma {:induction false} AllUp(workers: nat, threads: seq<Phase>)
    requires forall t :: 0 <= t < |threads| ==> if t < workers then threads[t] == Running else threads[t] != Running
    ensures Up(threads) == if |threads| < workers then |threads| else workers
  {
    if threads != [] { AllUp(workers, threads[..|threads| - 1]); }
  }

  lemma HandHolds(s: State, x: Thread)
    requires Shape(s)
    ensures x in s.hand ==> s.hand[x] < |s.threads| && x in HandOf(s.threads[s.hand[x]])
  {
    if x in s.hand { assert ThreadInv(s, s.hand[x]); }
  }

  /** When everything is at rest, enough workers are up: as many as requested, or all
      that there are; and the slack is what the running workers leave of the sum of
      the requests. */
  lemma EnoughWorkersUp(workers: nat, s: State)
    requires Reachable(workers, s) && AtRest(s)
    ensures s.slack + Up(s.threads) == s.net
    ensures Up(s.threads) >= s.net || Up(s.threads) == s.workers
  {
    ReachableInv(workers, s);
    forall t | 0 <= t < |s.threads| ensures s.threads[t] == Running ==> t < s.workers { assert ThreadInv(s, t); }
    RestWeighsWorkers(s.workers, s.threads);
    if s.slack > 0 {
      forall t | 0 <= t < s.workers ensures s.threads[t] == Running {
        HandHolds(s, t);
        assert ThreadInv(s, t);
      }
      AllUp(s.workers, s.threads);
    }
  }

  /** A unit of slack is claimed only if there is one, so that nothing but a request for
      fewer workers makes the slack negative, and only one is claimed only if there
      is no second one. */
  lemma ClaimsWhatThereIs(workers: nat, s: State, t: Thread)
    requires Reachable(workers, s) && t < |s.threads|
    ensures StepThread(s, t).slack < s.slack ==> s.slack > 0 && StepThread(s, t).slack == s.slack - 1
    ensures s.threads[t] != Lock(1) && StepThread(s, t).threads[t] == Lock(1) ==> s.slack <= 0
  {
    ReachableInv(workers, s);
    assert ThreadInv(s, t);
    hide HandIs, SleepOk;
  }

  /** No thread can do anything but what changes nothing. */
  ghost predicate Still(s: State) {
    forall t :: 0 <= t < |s.threads| ==> StepThread(s, t) == s
  }

  /** A step that changes nothing is one of a thread at rest or of one that waits for the mutex. */
  lemma StillPhases(s: State, t: Thread)
    requires t < |s.threads| && ThreadInv(s, t) && StepThread(s, t) == s
    ensures var p := s.threads[t];
      p == Out || p == Asleep || (p == Running && s.slack >= 0) || (p.Lock? && s.mutex != Free)
  {
    hide HandIs, SleepOk;
    var p := s.threads[t];
    if p.Wake? && p.w != [] { WakeChanges(s, t); }
    assert StepThread(s, t).threads[t] == p;
  }

  lemma WakeChanges(s: State, t: Thread)
    requires t < |s.threads| && s.threads[t].Wake? && s.threads[t].w != []
    ensures StepThread(s, t) != s
  {
    var w := s.threads[t].w;
    var s1 := Go(s, t, Wake(w[..|w| - 1]));
    assert |w[..|w| - 1]| < |w|;
    if w[|w| - 1] == t { assert StepThread(s, t).threads[t] == Chain; }
    else { assert StepThread(s, t).threads[t] == Wake(w[..|w| - 1]); }
  }

  lemma StillIsAtRest(s: State)
    requires Shape(s) && Still(s)
    ensures AtRest(s) && ((exists t :: 0 <= t < |s.threads| && s.threads[t] == Running) ==> s.slack >= 0)
  {
    forall t | 0 <= t < |s.threads| ensures s.threads[t] == Out || s.threads[t] == Asleep || (s.threads[t] == Running && s.slack >= 0) {
      assert ThreadInv(s, t) && StepThread(s, t) == s;
      hide StepThread, HandIs, SleepOk;
      StillPhases(s, t);
      if s.threads[t].Lock? {
        assert ThreadInv(s, s.mutex.t) && StepThread(s, s.mutex.t) == s;
        StillPhases(s, s.mutex.t);
        OwnsIt(s);
      }
    }
  }

  /** Whoever has the mutex is in a phase that goes on. */
  lemma OwnsIt(s: State)
    requires Shape(s) && s.mutex.Held?
    ensures Locked(s.threads[s.mutex.t])
  {
    assert ThreadInv(s, s.mutex.t);
  }

  /** At rest with no worker in excess nothing moves: wanted workers stay up. */
  lemma WantedWorkersStay(s: State)
    requires AtRest(s) && ((exists t :: 0 <= t < |s.threads| && s.threads[t] == Running) ==> s.slack >= 0)
    ensures Still(s)
  {
    forall t | 0 <= t < |s.threads| ensures StepThread(s, t) == s { StaysAsItIs(s, t); }
  }

  lemma StaysAsItIs(s: State, t: Thread)
    requires t < |s.threads| && (s.threads[t] == Out || s.threads[t] == Asleep || (s.threads[t] == Running && s.slack >= 0))
    ensures StepThread(s, t) == s
  {
    assert s.threads[t := s.threads[t]] == s.threads;
  }

  /** The steps of a worker in excess that nobody disturbs, up to its sleep. */
  lemma GoesToSleep(workers: nat, s: State, t: Thread) returns (s': State)
    requires Reachable(workers, s) && AtRest(s) && t < |s.threads| && s.threads[t] == Running && s.slack < 0
    ensures Reachable(workers, s') && t in s'.asleep
    ensures AtRest(s') && s'.threads == s.threads[t := Asleep] && s'.slack == s.slack + 1 && s'.net == s.net
  {
    hide Reachable;
    MutexIsFree(workers, s);
    var s1 := Next(s, Step(t));
    Then(workers, s, Step(t));
    var s2 := Next(s1, Step(t));
    Then(workers, s1, Step(t));
    assert s2.threads == s.threads[t := ILoad] && s2.slack == s.slack && s2.asleep == s.asleep && s2.net == s.net;
    s' := Inserts(workers, s2, t);
    assert s2.threads[t := Asleep] == s.threads[t := Asleep];
  }

  lemma Inserts(workers: nat, s: State, t: Thread) returns (s': State)
    requires Reachable(workers, s) && t < |s.threads| && s.threads[t] == ILoad && s.slack < 0
    ensures Reachable(workers, s') && s'.threads == s.threads[t := Asleep] && s'.slack == s.slack + 1 && s'.net == s.net
    ensures t in s'.asleep
  {
    hide Reachable;
    var s1 := Next(s, Step(t));
    Then(workers, s, Step(t));
    assert s1.threads == s.threads[t := ICas(s.slack)];
    var s2 := Next(s1, Step(t));
    Then(workers, s1, Step(t));
    assert s2.threads == s.threads[t := IPush] && s2.slack == s.slack + 1;
    var s3 := Next(s2, Step(t));
    Then(workers, s2, Step(t));
    assert s3.threads == s.threads[t := IUnlock];
    s' := Next(s3, Step(t));
    Then(workers, s3, Step(t));
    assert s'.threads == s.threads[t := Asleep];
  }

  lemma MutexIsFree(workers: nat, s: State)
    requires Reachable(workers, s) && AtRest(s)
    ensures s.mutex == Free
  {
    ReachableInv(workers, s);
    assert s.mutex.Held? ==> ThreadInv(s, s.mutex.t);
  }

  lemma {:induction false} RunSnoc(s: State, es: seq<Event>, e: Event)
    requires CanRun(s, es) && Enabled(Run(s, es), e)
    ensures CanRun(s, es + [e]) && Run(s, es + [e]) == Next(Run(s, es), e)
    decreases |es|
  {
    hide Next, Enabled;
    if es == [] {
      assert [] + [e] == [e] && [e][1..] == [];
    } else {
      RunSnoc(Next(s, es[0]), es[1..], e);
      assert (es + [e])[1..] == es[1..] + [e];
    }
  }

  lemma Then(workers: nat, s: State, e: Event)
    requires Reachable(workers, s) && Enabled(s, e)
    ensures Reachable(workers, Next(s, e))
  {
    var clients: nat, es :| CanRun(Init(workers, clients), es) && s == Run(Init(workers, clients), es);
    RunSnoc(Init(workers, clients), es, e);
  }

  /** From every state at rest the workers alone come to stand still, those in excess
      asleep. */
  lemma {:induction false} ExcessGoesToSleep(workers: nat, s: State) returns (s': State)
    requires Reachable(workers, s) && AtRest(s)
    ensures Reachable(workers, s') && Still(s') && s'.net == s.net
    decreases if s.slack < 0 then 0 - s.slack else 0
  {
    if s.slack < 0 && exists t :: 0 <= t < |s.threads| && s.threads[t] == Running {
      var t :| 0 <= t < |s.threads| && s.threads[t] == Running;
      hide Reachable, StepThread;
      var s1 := GoesToSleep(workers, s, t);
      s' := ExcessGoesToSleep(workers, s1);
    } else {
      WantedWorkersStay(s);
      s' := s;
    }
  }

  lemma {:induction false} NobodyUp(threads: seq<Phase>)
    requires forall t :: 0 <= t < |threads| ==> threads[t] != Running
    ensures Up(threads) == 0
  {
    if threads != [] { NobodyUp(threads[..|threads| - 1]); }
  }

  lemma {:induction false} UpAtMost(workers: nat, threads: seq<Phase>)
    requires forall t :: workers <= t < |threads| ==> threads[t] != Running
    ensures Up(threads) <= workers
  {
    if threads != [] {
      if |threads| <= workers { UpWithin(threads); } else { UpAtMost(workers, threads[..|threads| - 1]); }
    }
  }

  lemma {:induction false} UpWithin(threads: seq<Phase>)
    ensures Up(threads) <= |threads|
  {
    if threads != [] { UpWithin(threads[..|threads| - 1]); }
  }

  /** When no step changes anything any more, exactly as many workers are up as were
      asked for, as far as there are so many: none sleeps that is wanted, and none
      stays up that is not. */
  lemma ExactlyTheWorkersWanted(workers: nat, s: State)
    requires Reachable(workers, s) && Still(s)
    ensures var wanted := if s.net < 0 then 0 else s.net;
      Up(s.threads) == if wanted < s.workers then wanted else s.workers
  {
    ReachableInv(workers, s);
    StillIsAtRest(s);
    EnoughWorkersUp(workers, s);
    forall t | s.workers <= t < |s.threads| ensures s.threads[t] != Running { assert ThreadInv(s, t); }
    UpAtMost(s.workers, s.threads);
    if forall t :: 0 <= t < |s.threads| ==> s.threads[t] != Running { NobodyUp(s.threads); }
  }

  /** The worker about to be woken is asleep, off the list and in nobody else's hand,
      as the source asserts, so no wakeup is wasted or given twice. */
  lemma WakesASleeper(workers: nat, s: State, t: Thread, x: Thread)
    requires Reachable(workers, s) && t < |s.threads| && x in HandOf(s.threads[t])
    ensures x < s.workers && x < |s.threads| && s.threads[x] == Asleep && x !in s.asleep
    ensures forall u :: 0 <= u < |s.threads| && u != t ==> x !in HandOf(s.threads[u])
  {
    ReachableInv(workers, s);
    assert ThreadInv(s, t) && ThreadInv(s, x);
    forall u | 0 <= u < |s.threads| && u != t ensures x !in HandOf(s.threads[u]) { assert ThreadInv(s, u); }
  }

  /** A worker goes to sleep only while more is used up than was asked for, and its
      own unit does not turn that into a shortage. */
  lemma SleepsWhenOversubscribed(workers: nat, s: State, t: Thread)
    requires Reachable(workers, s) && t < |s.threads| && s.threads[t].ICas?
    ensures var s' := StepThread(s, t);
      s'.threads[t] == IPush ==> Total(s.workers, s.threads) > s.net && Total(s'.workers, s'.threads) >= s'.net
  {
    ReachableInv(workers, s);
    assert ThreadInv(s, t);
    TotalUpdate(s.workers, s.threads, t, IPush);
  }
}
