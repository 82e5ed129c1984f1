/** The state word that tells whether an arena has work. Whoever enqueues a task
    tries to set it to `Full` afterwards; whoever looks for work in vain may turn
    `Full` into a busy value of its own, look everywhere, and then turn that into
    `Empty`. The transitions to and from `Empty` tell the market how many workers
    to supply. The concurrency flag of an arena works the same way, without the
    look at the slots. One event is one load, compare-exchange, push or look. */
module ArenaSnapshot {
  import opened Common

  type Thread = nat

  datatype Word = Empty | Full | Busy(t: Thread)

  /** Phases with an A are in `advertise_new_work` or `test_and_set`, those with a T
      in `is_out_of_work` or `try_clear_if`. */
  datatype Phase =
    | Out
    | ALoad | ACas(snapshot: Word) | ACasEmpty
    | TLoad | TCas | TLimit | TSlot(left: nat) | TRecheck(left: nat) | TTest(absent: bool)
    | TStream(absent: bool) | TClear | TUndo
    | Report(delta: int)

  /** `scans` distinguishes the arena's state from the concurrency flag; `unit` is
      the number of workers asked for; `tasks` are the enqueued tasks; `demand` is
      what the market has been told. `ups` and `downs` count the transitions from
      and to `Empty`. */
  datatype State = State(
    scans: bool, unit: nat, word: Word, tasks: nat, threads: seq<Phase>, demand: int, ups: nat, downs: nat)

  /** `seen` is what a look at a slot or at the other streams finds, `limit` the
      number of slots in use. */
  datatype Event =
    | Enqueue(t: Thread)
    | Advertise(t: Thread)
    | Probe(t: Thread)
    | TakeTask(t: Thread)
    | Step(t: Thread, seen: bool, limit: nat)

  function Init(scans: bool, unit: nat, n: nat): State {
    State(scans, unit, Empty, 0, seq(n, _ => Out), 0, 0, 0)
  }

  function Go(s: State, t: Thread, p: Phase): State
    requires t < |s.threads|
  {
    s.(threads := s.threads[t := p])
  }

  /** Compare-and-exchange of the word. */
  function Swap(s: State, expected: Word, desired: Word): State {
    if s.word != expected then s
    else s.(word := desired,
            ups := s.ups + if s.word == Empty && desired != Empty then 1 else 0,
            downs := s.downs + if s.word != Empty && desired == Empty then 1 else 0)
  }

  function StepThread(s: State, t: Thread, seen: bool, limit: nat): State
    requires t < |s.threads|
  {
    match s.threads[t]
    case Out => s
    case ALoad => Go(s, t, if s.word == Full then Out else ACas(s.word))
    case ACas(snapshot) =>
      if s.word == snapshot then Go(Swap(s, snapshot, Full), t, if snapshot == Empty then Report(s.unit) else Out)
      else Go(s, t, if s.word == Empty && snapshot != Empty then ACasEmpty else Out)
    case ACasEmpty => Go(Swap(s, Empty, Full), t, if s.word == Empty then Report(s.unit) else Out)
    case TLoad => Go(s, t, if s.word == Full then TCas else Out)
    case TCas => Go(Swap(s, Full, Busy(t)), t, if s.word != Full then Out else if s.scans then TLimit else TStream(true))
    case TLimit => Go(s, t, TSlot(limit))
    case TSlot(left) => Go(s, t, if left == 0 then TTest(true) else if seen then TTest(false) else TRecheck(left - 1))
    case TRecheck(left) => Go(s, t, if s.word == Busy(t) then TSlot(left) else Out)
    case TTest(absent) => Go(s, t, if s.word == Busy(t) then TStream(absent) else Out)
    case TStream(absent) => Go(s, t, if absent && s.tasks == 0 && !(s.scans && seen) then TClear else TUndo)
    case TClear => Go(Swap(s, Busy(t), Empty), t, if s.word == Busy(t) then Report(0 - s.unit) else Out)
    case TUndo => Go(Swap(s, Busy(t), Full), t, Out)
    case Report(d) => Go(s.(demand := s.demand + d), t, Out)
  }

  predicate Enabled(s: State, e: Event) {
    && e.t < |s.threads|
    && (e.Enqueue? || e.Advertise? || e.Probe? ==> s.threads[e.t] == Out)
    && (e.TakeTask? ==> s.tasks > 0)
  }

  function Next(s: State, e: Event): State
    requires Enabled(s, e)
  {
    match e
    case Enqueue(t) => Go(s.(tasks := s.tasks + 1), t, ALoad)
    case Advertise(t) => Go(s, t, ALoad)
    case Probe(t) => Go(s, t, TLoad)
    case TakeTask(_) => s.(tasks := s.tasks - 1)
    case Step(t, seen, limit) => StepThread(s, t, seen, limit)
  }

  predicate CanRun(s: State, es: seq<Event>)
    decreases |es|
  {
    es == [] || (Enabled(s, es[0]) && CanRun(Next(s, es[0]), es[1..]))
  }

  function Run(s: State, es: seq<Event>): State
    requires CanRun(s, es)
    decreases |es|
  {
    if es == [] then s else Run(Next(s, es[0]), es[1..])
  }

  // ------------------------------------------------------------ invariant

  predicate Holding(p: Phase) {
    p.TLimit? || p.TSlot? || p.TRecheck? || p.TTest? || p.TStream? || p.TClear? || p.TUndo?
  }

  /** An advertiser that will turn the word `w` into `Full`, or find it so. */
  predicate Obliged(p: Phase, w: Word) {
    p == ALoad || p == ACas(w) || (w == Empty && (p.ACas? || p.ACasEmpty?))
  }

  ghost predicate SomeObliged(threads: seq<Phase>, w: Word) {
    exists t :: 0 <= t < |threads| && Obliged(threads[t], w)
  }

  predicate HolderOk(word: Word, threads: seq<Phase>) {
    word.Busy? ==> word.t < |threads| && Holding(threads[word.t])
  }

  /** The word is `Empty`, or about to become so by a thread that found no task. */
  predicate Closing(word: Word, threads: seq<Phase>) {
    word == Empty || (word.Busy? && word.t < |threads| && threads[word.t] == TClear)
  }

  ghost predicate Covered(word: Word, threads: seq<Phase>, tasks: nat) {
    tasks > 0 && Closing(word, threads) ==> SomeObliged(threads, word)
  }

  function Pending(threads: seq<Phase>): int {
    if threads == [] then 0
    else Pending(threads[..|threads| - 1]) + var p := threads[|threads| - 1]; if p.Report? then p.delta else 0
  }

  predicate Told(s: State) {
    && s.demand + Pending(s.threads) == (if s.word == Empty then 0 else s.unit)
    && s.ups == s.downs + AsOne(s.word != Empty)
  }

  ghost predicate Inv(s: State) {
    HolderOk(s.word, s.threads) && Covered(s.word, s.threads, s.tasks) && Told(s)
  }

  lemma {:induction false} PendingUpdate(threads: seq<Phase>, t: Thread, p: Phase)
    requires t < |threads|
    ensures var q := threads[t];
      Pending(threads[t := p]) == Pending(threads) - (if q.Report? then q.delta else 0) + if p.Report? then p.delta else 0
  {
    var n := |threads| - 1;
    if t == n {
      assert threads[t := p][..n] == threads[..n];
    } else {
      PendingUpdate(threads[..n], t, p);
      assert threads[t := p][..n] == threads[..n][t := p];
    }
  }

  lemma {:induction false} NothingPending(threads: seq<Phase>)
    requires forall t :: 0 <= t < |threads| ==> threads[t] == Out
    ensures Pending(threads) == 0
  {
    if threads != [] { NothingPending(threads[..|threads| - 1]); }
  }

  lemma InitInv(scans: bool, unit: nat, n: nat)
    ensures Inv(Init(scans, unit, n))
  {
    NothingPending(Init(scans, unit, n).threads);
  }

  // ---------------------------------------------------------- the steps

  /** An advertiser keeps its obligation until the word is no longer closing. */
  lemma AdvertiserStep(s: State, t: Thread, seen: bool, limit: nat)
    requires Inv(s) && t < |s.threads| && (s.threads[t] == ALoad || s.threads[t].ACas? || s.threads[t] == ACasEmpty)
    ensures Inv(StepThread(s, t, seen, limit))
  {
    var s' := StepThread(s, t, seen, limit);
    PendingUpdate(s.threads, t, s'.threads[t]);
    if s'.tasks > 0 && Closing(s'.word, s'.threads) {
      var u :| 0 <= u < |s.threads| && Obliged(s.threads[u], s.word);
      assert s'.word == s.word;
      assert Obliged(s'.threads[u], s'.word);
    }
  }

  /** The thread that is to close the word looks at the tasks while it holds it. */
  lemma TakerStep(s: State, t: Thread, seen: bool, limit: nat)
    requires Inv(s) && t < |s.threads| && (s.threads[t].TLoad? || s.threads[t].TCas? || Holding(s.threads[t]))
    ensures Inv(StepThread(s, t, seen, limit))
  {
    TakerTells(s, t, seen, limit);
    TakerHolds(s, t, seen, limit);
    TakerCloses(s, t, seen, limit);
    hide StepThread, Told, HolderOk, Closing;
    var s' := StepThread(s, t, seen, limit);
    if s'.tasks > 0 && Closing(s'.word, s'.threads) {
      var u :| 0 <= u < |s.threads| && Obliged(s.threads[u], s.word);
      assert Obliged(s'.threads[u], s'.word);
    }
  }

  lemma TakerTells(s: State, t: Thread, seen: bool, limit: nat)
    requires Told(s) && HolderOk(s.word, s.threads) && t < |s.threads|
    requires s.threads[t].TLoad? || s.threads[t].TCas? || Holding(s.threads[t])
    ensures Told(StepThread(s, t, seen, limit))
  {
    hide Pending;
    PendingUpdate(s.threads, t, StepThread(s, t, seen, limit).threads[t]);
  }

  lemma TakerHolds(s: State, t: Thread, seen: bool, limit: nat)
    requires HolderOk(s.word, s.threads) && t < |s.threads|
    requires s.threads[t].TLoad? || s.threads[t].TCas? || Holding(s.threads[t])
    ensures var s' := StepThread(s, t, seen, limit); HolderOk(s'.word, s'.threads)
  {
  }

  lemma TakerCloses(s: State, t: Thread, seen: bool, limit: nat)
    requires HolderOk(s.word, s.threads) && t < |s.threads|
    requires s.threads[t].TLoad? || s.threads[t].TCas? || Holding(s.threads[t])
    ensures var s' := StepThread(s, t, seen, limit);
      && s'.tasks == s.tasks && |s'.threads| == |s.threads|
      && (forall u :: 0 <= u < |s.threads| && u != t ==> s'.threads[u] == s.threads[u])
      && (s.tasks > 0 && Closing(s'.word, s'.threads) ==> Closing(s.word, s.threads) && (s'.word == s.word || s'.word == Empty))
  {
  }

  lemma OtherStep(s: State, t: Thread, p: Phase, tasks: nat, demand: int)
    requires Inv(s) && t < |s.threads| && (s.threads[t] == Out || s.threads[t].Report?) && !p.Report? && !p.ACas? && p != TClear
    requires tasks > 0 ==> s.tasks > 0 || p == ALoad
    requires demand == s.demand + if s.threads[t].Report? then s.threads[t].delta else 0
    ensures Inv(Go(s.(tasks := tasks, demand := demand), t, p))
  {
    var s' := Go(s.(tasks := tasks, demand := demand), t, p);
    PendingUpdate(s.threads, t, p);
    if tasks > 0 && Closing(s'.word, s'.threads) {
      if p == ALoad {
        assert Obliged(s'.threads[t], s'.word);
      } else {
        var u :| 0 <= u < |s.threads| && Obliged(s.threads[u], s.word);
        assert Obliged(s'.threads[u], s'.word);
      }
    }
  }

  lemma StepInv(s: State, e: Event)
    requires Inv(s) && Enabled(s, e)
    ensures Inv(Next(s, e))
  {
    var p := s.threads[e.t];
    match e
    case Enqueue(t) => OtherStep(s, t, ALoad, s.tasks + 1, s.demand);
    case Advertise(t) => OtherStep(s, t, ALoad, s.tasks, s.demand);
    case Probe(t) => OtherStep(s, t, TLoad, s.tasks, s.demand);
    case TakeTask(_) =>
    case Step(t, seen, limit) =>
      if p == Out {
      } else if p.Report? {
        OtherStep(s, t, Out, s.tasks, s.demand + p.delta);
      } else if p == ALoad || p.ACas? || p == ACasEmpty {
        AdvertiserStep(s, t, seen, limit);
      } else {
        TakerStep(s, t, seen, limit);
      }
  }

  lemma {:induction false} RunInv(s: State, es: seq<Event>)
    requires Inv(s) && CanRun(s, es)
    ensures Inv(Run(s, es))
    decreases |es|
  {
    hide Inv, Next;
    if es != [] {
      StepInv(s, es[0]);
      RunInv(Next(s, es[0]), es[1..]);
    }
  }

  // -------------------------------------------------------- main results

  ghost predicate Reachable(s: State) {
    exists n: nat, es ::
      CanRun(Init(s.scans, s.unit, n), es) && s == Run(Init(s.scans, s.unit, n), es)
  }

  lemma ReachableInv(s: State)
    requires Reachable(s)
    ensures Inv(s)
  {
    var n: nat, es :| CanRun(Init(s.scans, s.unit, n), es) && s == Run(Init(s.scans, s.unit, n), es);
    InitInv(s.scans, s.unit, n);
    RunInv(Init(s.scans, s.unit, n), es);
  }

  predicate Advertising(p: Phase) { p == ALoad || p.ACas? || p == ACasEmpty }

  /** The word never rests on `Empty` with a task enqueued: some thread is still
      advertising. Nor does a thread that holds the word and has found no task
      close it behind the back of an enqueued task: an advertiser that has still to
      look, or saw the very same busy value, undoes that. */
  lemma NeverRestsOnEmpty(s: State)
    requires Reachable(s) && s.tasks > 0
    ensures s.word == Empty ==> exists t :: 0 <= t < |s.threads| && Advertising(s.threads[t])
    ensures s.word.Busy? && s.word.t < |s.threads| && s.threads[s.word.t] == TClear ==>
      exists t :: 0 <= t < |s.threads| && (s.threads[t] == ALoad || s.threads[t] == ACas(s.word))
  {
    ReachableInv(s);
    if Closing(s.word, s.threads) {
      var t :| 0 <= t < |s.threads| && Obliged(s.threads[t], s.word);
      assert Advertising(s.threads[t]);
    }
  }

  /** Transitions from and to `Empty` alternate, and what the market has been told,
      together with what threads are about to tell it, is nothing or one unit. */
  lemma DemandNets(s: State)
    requires Reachable(s)
    ensures s.ups - s.downs == if s.word == Empty then 0 else 1
    ensures s.demand + Pending(s.threads) == if s.word == Empty then 0 else s.unit
  {
    ReachableInv(s);
  }

  /** Once all calls have returned, the word is not busy, enqueued tasks imply `Full`,
      and the market knows of one unit of demand exactly if the word is `Full`. */
  lemma AtRest(s: State)
    requires Reachable(s) && forall t :: 0 <= t < |s.threads| ==> s.threads[t] == Out
    ensures !s.word.Busy? && (s.tasks > 0 ==> s.word == Full)
    ensures s.demand == if s.word == Full then s.unit else 0
  {
    ReachableInv(s);
    NothingPending(s.threads);
  }

  // --------------------------------------------- what a prober has looked at

  /** A look for work as seen from outside: whether the word was `Full` when it began,
      how many slots it found in use and how many of them it looked at, whether it
      saw a task, and whether somebody else changed the word meanwhile. */
  datatype Look = Look(full: bool, counted: bool, limit: nat, looked: nat, saw: bool, disturbed: bool)

  const NO_LOOK := Look(false, false, 0, 0, false, false)

  function Sees(s: State, e: Event, t: Thread, v: Look): Look
    requires Enabled(s, e)
  {
    if e == Probe(t) then NO_LOOK
    else if e.Step? && e.t == t && t < |s.threads| then
      match s.threads[t]
      case TLoad => NO_LOOK.(full := s.word == Full)
      case TLimit => v.(counted := true, limit := e.limit)
      case TSlot(left) => if left > 0 then v.(looked := v.looked + 1, saw := v.saw || e.seen) else v
      case TStream(_) => v.(saw := v.saw || s.tasks > 0 || (s.scans && e.seen))
      case _ => v
    else v.(disturbed := v.disturbed || Next(s, e).word != s.word)
  }

  function LookOf(s: State, es: seq<Event>, t: Thread, v: Look): Look
    requires CanRun(s, es)
    decreases |es|
  {
    if es == [] then v else LookOf(Next(s, es[0]), es[1..], t, Sees(s, es[0], t, v))
  }

  predicate Probing(p: Phase) { p == TLoad || p == TCas || Holding(p) }

  /** All slots in use were looked at, and no task was seen. */
  predicate SawNothing(scans: bool, v: Look) { !v.saw && (scans ==> v.counted && v.looked == v.limit) }

  predicate LookOk(s: State, t: Thread, v: Look) {
    t < |s.threads| ==>
      var p := s.threads[t];
      && (p == TCas ==> v.full && !v.saw && !v.counted && v.looked == 0 && (v.disturbed || s.word == Full))
      && (Holding(p) ==> v.full && (v.disturbed || s.word == Busy(t)))
      && match p
         case TLimit => s.scans && !v.saw && v.looked == 0
         case TSlot(left) => s.scans && v.counted && !v.saw && v.looked + left == v.limit
         case TRecheck(left) => s.scans && v.counted && !v.saw && v.looked + left == v.limit
         case TTest(absent) => s.scans && if absent then SawNothing(true, v) else v.saw
         case TStream(absent) => if absent then SawNothing(s.scans, v) else s.scans && v.saw
         case TClear => SawNothing(s.scans, v)
         case TUndo => v.saw
         case _ => true
  }

  /** A step of a search leaves the word alone, except for the one that makes it busy. */
  lemma SearchLooks(s: State, e: Event, v: Look)
    requires Enabled(s, e) && e.Step? && LookOk(s, e.t, v) && Searching(s.threads[e.t])
    ensures LookOk(Next(s, e), e.t, Sees(s, e, e.t, v))
  {
  }

  lemma DecisionLooks(s: State, e: Event, v: Look)
    requires Enabled(s, e) && e.Step? && LookOk(s, e.t, v) && !Searching(s.threads[e.t])
    ensures LookOk(Next(s, e), e.t, Sees(s, e, e.t, v))
  {
  }

  /** A step moves one thread, and the kind of the word never changes. */
  ghost predicate MovesOnly(s: State, s': State, t: Thread) {
    && |s'.threads| == |s.threads| && s'.scans == s.scans
    && forall u :: 0 <= u < |s.threads| && u != t ==> s'.threads[u] == s.threads[u]
  }

  predicate Searching(p: Phase) { p.TLoad? || p.TCas? || p.TLimit? || p.TSlot? || p.TRecheck? }

  lemma SearcherMoves(s: State, t: Thread, seen: bool, limit: nat)
    requires t < |s.threads| && Searching(s.threads[t])
    ensures MovesOnly(s, StepThread(s, t, seen, limit), t)
  {
  }

  lemma DeciderMoves(s: State, t: Thread, seen: bool, limit: nat)
    requires t < |s.threads| && !Searching(s.threads[t])
    ensures MovesOnly(s, StepThread(s, t, seen, limit), t)
  {
  }

  lemma EventMoves(s: State, e: Event)
    requires Enabled(s, e)
    ensures MovesOnly(s, Next(s, e), e.t)
  {
    hide StepThread;
    if e.Step? {
      if Searching(s.threads[e.t]) { SearcherMoves(s, e.t, e.seen, e.limit); } else { DeciderMoves(s, e.t, e.seen, e.limit); }
    }
  }

  lemma CallLooks(s: State, e: Event, t: Thread, v: Look)
    requires Enabled(s, e) && !e.Step? && LookOk(s, t, v)
    ensures LookOk(Next(s, e), t, Sees(s, e, t, v))
  {
  }

  lemma OtherLooks(s: State, e: Event, t: Thread, v: Look)
    requires Enabled(s, e) && e.Step? && e.t != t && LookOk(s, t, v) && MovesOnly(s, Next(s, e), e.t)
    ensures LookOk(Next(s, e), t, Sees(s, e, t, v))
  {
    hide Next;
  }

  lemma StepLooks(s: State, e: Event, t: Thread, v: Look)
    requires Enabled(s, e) && LookOk(s, t, v)
    ensures LookOk(Next(s, e), t, Sees(s, e, t, v))
  {
    hide Next, LookOk, Sees, MovesOnly, Searching;
    EventMoves(s, e);
    if !e.Step? { CallLooks(s, e, t, v); }
    else if e.t != t { OtherLooks(s, e, t, v); }
    else if Searching(s.threads[t]) { SearchLooks(s, e, v); }
    else { DecisionLooks(s, e, v); }
  }

  lemma {:induction false} RunLooks(s: State, es: seq<Event>, t: Thread, v: Look)
    requires CanRun(s, es) && LookOk(s, t, v)
    ensures LookOk(Run(s, es), t, LookOf(s, es, t, v)) && Run(s, es).scans == s.scans
    decreases |es|
  {
    hide Next, Enabled, LookOk, Sees;
    if es != [] {
      StepLooks(s, es[0], t, v);
      EventMoves(s, es[0]);
      RunLooks(Next(s, es[0]), es[1..], t, Sees(s, es[0], t, v));
    }
  }

  lemma AtRunLooks(scans: bool, unit: nat, n: nat, es: seq<Event>, t: Thread)
    requires CanRun(Init(scans, unit, n), es)
    ensures var s := Run(Init(scans, unit, n), es); s.scans == scans && LookOk(s, t, LookOf(Init(scans, unit, n), es, t, NO_LOOK))
  {
    RunLooks(Init(scans, unit, n), es, t, NO_LOOK);
  }

  /** A thread about to declare the arena empty has looked at every slot in use and at
      all streams since it began, and has seen no task anywhere. */
  lemma ClosesOnlyWhatIsEmpty(scans: bool, unit: nat, n: nat, es: seq<Event>, t: Thread)
    requires CanRun(Init(scans, unit, n), es) && t < |Run(Init(scans, unit, n), es).threads|
    requires Run(Init(scans, unit, n), es).threads[t] == TClear
    ensures SawNothing(scans, LookOf(Init(scans, unit, n), es, t, NO_LOOK))
  {
    AtRunLooks(scans, unit, n, es, t);
  }

  lemma Answers(s: State, e: Event, v: Look)
    requires Enabled(s, e) && e.Step? && LookOk(s, e.t, v)
    requires Probing(s.threads[e.t]) && !Probing(Next(s, e).threads[e.t])
    ensures var u := Sees(s, e, e.t, v);
      u.saw || u.disturbed || !u.full || (Next(s, e).word == Empty && Next(s, e).threads[e.t] == Report(0 - s.unit))
  {
  }

  /** A look for work that returns has closed the arena, and is about to tell the market
      so, unless it saw a task, or the word was not `Full` to begin with, or somebody
      else changed it meanwhile. */
  lemma ProbeAnswers(scans: bool, unit: nat, n: nat, es: seq<Event>, e: Event)
    requires CanRun(Init(scans, unit, n), es) && Enabled(Run(Init(scans, unit, n), es), e) && e.Step?
    requires var s := Run(Init(scans, unit, n), es); Probing(s.threads[e.t]) && !Probing(Next(s, e).threads[e.t])
    ensures var s := Run(Init(scans, unit, n), es);
      var u := Sees(s, e, e.t, LookOf(Init(scans, unit, n), es, e.t, NO_LOOK));
      u.saw || u.disturbed || !u.full || (Next(s, e).word == Empty && Next(s, e).threads[e.t] == Report(0 - s.unit))
  {
    AtRunLooks(scans, unit, n, es, e.t);
    hide Run, CanRun, LookOf, Next, LookOk, Sees;
    Answers(Run(Init(scans, unit, n), es), e, LookOf(Init(scans, unit, n), es, e.t, NO_LOOK));
  }
}
