/** The work-stealing deque of an arena slot as an interleaving of atomic steps:
    one owner that spawns and takes at the tail, any number of thieves that take
    at the head under the lock word. One event is one load, store,
    read-modify-write or compare-exchange of `task_pool`, `head`, `tail` or of a
    cell. */
module DequeProtocol {
  import opened TaskPool

  type Task = nat
  type ThiefId = nat

  /** The values of the word `task_pool`. */
  datatype Word = EmptyPool | Published | Locked

  /** Who last moved the word to `Locked`; bookkeeping only, no step reads it. */
  datatype Holder = Nobody | ByOwner | ByThief(id: ThiefId)

  /** Where the owner stands. `t` is the task being spawned, `T` and `T0` are
      the locals of `get_task`, `om` is its `tasks_omitted`, `H0` the head it
      read under the lock, `one` tells that exactly the task at `T` is left, and
      `res` that a task was obtained. */
  datatype Owner =
    | Idle
    | SpAcquire(t: Task, T: int)
    | SpHead(t: Task, T: int)
    | SpCopy(t: Task, T: int, H: int)
    | SpPutHead(t: Task, T1: int)
    | SpPutTail(t: Task, T1: int)
    | SpRelease(t: Task, T1: int)
    | SpStore(t: Task, T: int)
    | SpTail(t: Task, T: int)
    | SpPublish
    | GDec(T0: int, om: bool)
    | GHead(T0: int, T: int, om: bool)
    | GAcquire(T0: int, T: int, om: bool)
    | GHead2(T0: int, T: int, om: bool)
    | GResetTail(T0: int, T: int, om: bool, H0: int, one: bool)
    | GResetHead(T0: int, T: int, om: bool, H0: int, one: bool)
    | GLeave(T0: int, T: int, om: bool, H0: int, one: bool)
    | GRelease(T0: int, T: int, om: bool)
    | GRead(T0: int, T: int, om: bool, H0: int, empty: bool)
    | GHole(T0: int, T: int, H0: int, empty: bool)
    | GFinish(T0: int, T: int, om: bool, H0: int, empty: bool, res: bool)
    | GPutHead(T0: int, H1: int)
    | GPutTail(T0: int, H1: int)
    | GPublish(T0: int, H1: int)
    | GPunch(T0: int, T: int)
    | GPutBack(T0: int, T: int)

  /** Where a thief inside `steal_task` stands; `h0` is the head it will restore
      and `H` the head it has moved to. */
  datatype Thief =
    | THead
    | TInc(h0: int, om: bool)
    | TTail(h0: int, H: int, om: bool)
    | TRead(h0: int, H: int, om: bool)
    | TRollback(h0: int)
    | TPunch(h0: int, H: int)
    | TPutHead(h0: int, H: int)
    | TUnlock

  /** `loc` is an index of the pending tasks, kept beside the real state only to
      state the invariant. `out` lists the tasks handed out or disposed of. */
  datatype State = State(
    word: Word, head: int, tail: int, pool: seq<Cell<Task>>,
    owner: Owner, thieves: map<ThiefId, Thief>, holder: Holder,
    spawned: set<Task>, out: seq<Task>, loc: map<Task, int>)

  /** What a taker does with the task it finds: take it, pass over it (isolation
      or a proxy left to its addressee), or free it as an emptied proxy. */
  datatype Choice = Take | Skip | Drop

  datatype Event =
    | Spawn(t: Task)
    | Get
    | OwnerStep(c: Choice)
    | LockPool(id: ThiefId)
    | ThiefStep(id: ThiefId, d: Choice)

  const Init := State(EmptyPool, 0, 0, [], Idle, map[], Nobody, {}, [], map[])

  // ---------------------------------------------------------------- steps

  function BeginSpawn(s: State, t: Task): State {
    var T := s.tail;
    var s' := s.(spawned := s.spawned + {t});
    if T + 1 <= |s.pool| then s'.(owner := SpStore(t, T))
    else if |s.pool| == 0 then
      s'.(pool := seq(RoundUpToLine(MIN_TASK_POOL_SIZE), _ => Hole), owner := SpStore(t, 0))
    else s'.(owner := SpAcquire(t, T))
  }

  /** `acquire_task_pool`: nothing to lock when not published, otherwise spin
      until the word can be exchanged. */
  function AcquireByOwner(s: State, next: Owner): State {
    match s.word
    case EmptyPool => s.(owner := next)
    case Published => s.(word := Locked, holder := ByOwner, owner := next)
    case Locked => s
  }

  function Unlocked(s: State, next: Owner): State {
    if s.word == EmptyPool then s.(owner := next)
    else s.(word := Published, holder := Nobody, owner := next)
  }

  /** The array after `prepare_task_pool(1)` has moved the cells `[H, T)`. */
  function Relocated(pool: seq<Cell<Task>>, H: int, T: int): (r: seq<Cell<Task>>)
    requires 0 <= H <= T <= |pool| && |pool| >= MIN_TASK_POOL_SIZE
    ensures |pool| <= |r| && |Compact(pool[H..T])| + 1 <= |r|
  {
    var tasks := Compact(pool[H..T]);
    var grow := MustGrow(|pool|, |tasks|, 1);
    seq(NewSize(|pool|, |tasks|, 1), i requires 0 <= i =>
      if i < |tasks| then Has(tasks[i])
      else if grow || i >= |pool| then Hole else pool[i])
  }

  function Relocate(s: State, t: Task, H: int, T: int): State {
    if 0 <= H <= T <= |s.pool| && |s.pool| >= MIN_TASK_POOL_SIZE then
      var cells := s.pool[H..T];
      s.(pool := Relocated(s.pool, H, T),
         loc := map u | u in s.loc && H <= s.loc[u] < T :: Rank(cells, s.loc[u] - H),
         owner := SpPutHead(t, |Compact(cells)|))
    else s
  }

  /** A store to, and a load from, the task array. */
  function Put(pool: seq<Cell<Task>>, i: int, c: Cell<Task>): (r: seq<Cell<Task>>)
    ensures |r| == |pool|
  {
    if 0 <= i < |pool| then pool[i := c] else pool
  }

  function At(pool: seq<Cell<Task>>, i: int): Cell<Task> {
    if 0 <= i < |pool| then pool[i] else Hole
  }

  function HandOut(s: State, t: Task): State {
    s.(out := s.out + [t], loc := s.loc - {t})
  }

  /** The rest of the loop body once nothing was obtained at `T`. */
  function NextRound(T0: int, T: int, om: bool, H0: int, empty: bool): Owner {
    var T0' := if om then T0 else T;
    if empty then GFinish(T0', T, om, H0, true, false) else GDec(T0', om)
  }

  /** `get_task_impl` on the cell at `T`. */
  function Examine(s: State, c: Choice): State
    requires s.owner.GRead?
  {
    var GRead(T0, T, om, H0, empty) := s.owner;
    match At(s.pool, T)
    case Hole => s.(owner := NextRound(T0, T, om, H0, empty))
    case Has(t) =>
      match c
      case Take => HandOut(s, t).(owner := GFinish(T0, T, om, H0, empty, true))
      case Skip => s.(owner := NextRound(T0, T, true, H0, empty))
      case Drop =>
        if om then HandOut(s, t).(owner := GHole(T0, T, H0, empty))
        else HandOut(s, t).(owner := NextRound(T0, T, false, H0, empty))
  }

  function Finish(s: State): State
    requires s.owner.GFinish?
  {
    var GFinish(T0, T, om, H0, empty, res) := s.owner;
    if !om then s.(owner := Idle)
    else if empty then
      var H1 := if res then H0 + 1 else H0;
      if H1 < T0 then s.(owner := GPutHead(T0, H1)) else s.(owner := Idle)
    else s.(owner := GPunch(T0, T))
  }

  function StepOwner(s: State, c: Choice): State {
    match s.owner
    case Idle => s
    case SpAcquire(t, T) => AcquireByOwner(s, SpHead(t, T))
    case SpHead(t, T) => s.(owner := SpCopy(t, T, s.head))
    case SpCopy(t, T, H) => Relocate(s, t, H, T)
    case SpPutHead(t, T1) => s.(head := 0, owner := SpPutTail(t, T1))
    case SpPutTail(t, T1) => s.(tail := T1, owner := SpRelease(t, T1))
    case SpRelease(t, T1) => Unlocked(s, SpStore(t, T1))
    case SpStore(t, T) => s.(pool := Put(s.pool, T, Has(t)), owner := SpTail(t, T))
    case SpTail(t, T) => s.(tail := T + 1, loc := s.loc[t := T], owner := SpPublish)
    case SpPublish =>
      if s.word == EmptyPool then s.(word := Published, owner := Idle) else s.(owner := Idle)
    case GDec(T0, om) => s.(tail := s.tail - 1, owner := GHead(T0, s.tail - 1, om))
    case GHead(T0, T, om) =>
      if s.head > T then s.(owner := GAcquire(T0, T, om))
      else s.(owner := GRead(T0, T, om, -1, false))
    case GAcquire(T0, T, om) => AcquireByOwner(s, GHead2(T0, T, om))
    case GHead2(T0, T, om) =>
      if s.head > T then s.(owner := GResetTail(T0, T, om, s.head, false))
      else if s.head == T then s.(owner := GResetTail(T0, T, om, s.head, true))
      else s.(owner := GRelease(T0, T, om))
    case GResetTail(T0, T, om, H0, one) => s.(tail := 0, owner := GResetHead(T0, T, om, H0, one))
    case GResetHead(T0, T, om, H0, one) => s.(head := 0, owner := GLeave(T0, T, om, H0, one))
    case GLeave(T0, T, om, H0, one) =>
      s.(word := EmptyPool, holder := Nobody,
         owner := if one then GRead(T0, T, om, H0, true) else GFinish(T0, T, om, H0, true, false))
    case GRelease(T0, T, om) => Unlocked(s, GRead(T0, T, om, -1, false))
    case GRead(_, _, _, _, _) => Examine(s, c)
    case GHole(T0, T, H0, empty) =>
      s.(pool := Put(s.pool, T, Hole), owner := NextRound(T0, T, true, H0, empty))
    case GFinish(_, _, _, _, _, _) => Finish(s)
    case GPutHead(T0, H1) => s.(head := H1, owner := GPutTail(T0, H1))
    case GPutTail(T0, H1) => s.(tail := T0, owner := GPublish(T0, H1))
    case GPublish(T0, H1) => s.(word := Published, owner := Idle)
    case GPunch(T0, T) => s.(pool := Put(s.pool, T, Hole), owner := GPutBack(T0, T))
    case GPutBack(T0, T) => s.(tail := T0, owner := Idle)
  }

  function Lock(s: State, id: ThiefId): State {
    s.(word := Locked, holder := ByThief(id), thieves := s.thieves[id := THead])
  }

  function Move(s: State, id: ThiefId, p: Thief): State {
    s.(thieves := s.thieves[id := p])
  }

  /** A thief that has checked the tail looks at the cell at `H - 1`. A thief
      hands a proxy on as it is, so it only takes or skips. */
  function Inspect(s: State, id: ThiefId, h0: int, H: int, om: bool, c: Choice): State {
    match At(s.pool, H - 1)
    case Hole => Move(s, id, TInc(if om then h0 else H, om))
    case Has(t) =>
      if c == Take then Move(HandOut(s, t), id, if om then TPunch(h0, H) else TUnlock)
      else Move(s, id, TInc(h0, true))
  }

  function StepThief(s: State, id: ThiefId, c: Choice): State
    requires id in s.thieves
  {
    match s.thieves[id]
    case THead => Move(s, id, TInc(s.head, false))
    case TInc(h0, om) => Move(s.(head := s.head + 1), id, TTail(h0, s.head + 1, om))
    case TTail(h0, H, om) => Move(s, id, if H > s.tail then TRollback(h0) else TRead(h0, H, om))
    case TRead(h0, H, om) => Inspect(s, id, h0, H, om, c)
    case TRollback(h0) => Move(s.(head := h0), id, TUnlock)
    case TPunch(h0, H) => Move(s.(pool := Put(s.pool, H - 1, Hole)), id, TPutHead(h0, H))
    case TPutHead(h0, H) => Move(s.(head := h0), id, TUnlock)
    case TUnlock => s.(word := Published, holder := Nobody, thieves := s.thieves - {id})
  }

  /** When an event may happen: the owner calls `spawn` with a new task and
      `get_task` on a published pool, and a thief enters by winning the
      exchange of a published word. */
  predicate Enabled(s: State, e: Event) {
    match e
    case Spawn(t) => s.owner == Idle && t !in s.spawned
    case Get => s.owner == Idle && s.word != EmptyPool
    case OwnerStep(_) => s.owner != Idle
    case LockPool(id) => s.word == Published && id !in s.thieves
    case ThiefStep(id, _) => id in s.thieves
  }

  function Step(s: State, e: Event): State
    requires Enabled(s, e)
  {
    match e
    case Spawn(t) => BeginSpawn(s, t)
    case Get => s.(owner := GDec(s.tail, false))
    case OwnerStep(c) => StepOwner(s, c)
    case LockPool(id) => Lock(s, id)
    case ThiefStep(id, c) => StepThief(s, id, c)
  }

  predicate CanRun(s: State, es: seq<Event>)
    decreases |es|
  {
    es == [] || (Enabled(s, es[0]) && CanRun(Step(s, es[0]), es[1..]))
  }

  function Run(s: State, es: seq<Event>): State
    requires CanRun(s, es)
    decreases |es|
  {
    if es == [] then s else Run(Step(s, es[0]), es[1..])
  }

  // ------------------------------------------------------------ invariant

  /** The owner has the lock. */
  predicate InCritical(o: Owner) {
    o.SpHead? || o.SpCopy? || o.SpPutHead? || o.SpPutTail? || o.SpRelease? ||
    o.GHead2? || o.GResetTail? || o.GResetHead? || o.GLeave? || o.GRelease?
  }

  /** The head a thief would leave behind if it gave up now. */
  function ThiefLo(p: Thief, head: int): int {
    match p
    case THead => head
    case TInc(h0, _) => h0
    case TTail(h0, _, _) => h0
    case TRead(h0, _, _) => h0
    case TRollback(h0) => h0
    case TPunch(h0, _) => h0
    case TPutHead(h0, _) => h0
    case TUnlock => head
  }

  /** The window of cells whose tasks are still to be handed out begins at `Lo`
      and ends at `Hi`, whatever `head` and `tail` say at the moment. */
  function Lo(s: State): int {
    if s.holder.ByThief? && s.holder.id in s.thieves
    then ThiefLo(s.thieves[s.holder.id], s.head) else OwnerLo(s.owner, s.head)
  }

  function Hi(s: State): int {
    OwnerHi(s.owner, s.tail)
  }

  function OwnerLo(o: Owner, head: int): int {
    match o
    case SpPutHead(_, _) => 0
    case GResetTail(_, _, _, H0, _) => H0
    case GResetHead(_, _, _, H0, _) => H0
    case GLeave(_, _, _, H0, _) => H0
    case GRead(_, _, _, H0, true) => H0
    case GHole(_, _, H0, true) => H0
    case GFinish(_, _, _, H0, true, _) => H0
    case GPutHead(_, H1) => H1
    case GPutTail(_, H1) => H1
    case GPublish(_, H1) => H1
    case _ => head
  }

  function OwnerHi(o: Owner, tail: int): int {
    match o
    case SpPutHead(_, T1) => T1
    case SpPutTail(_, T1) => T1
    case GDec(T0, _) => T0
    case GHead(T0, _, _) => T0
    case GAcquire(T0, _, _) => T0
    case GHead2(T0, _, _) => T0
    case GResetTail(T0, _, _, _, _) => T0
    case GResetHead(T0, _, _, _, _) => T0
    case GLeave(T0, _, _, _, _) => T0
    case GRelease(T0, _, _) => T0
    case GRead(T0, _, _, _, _) => T0
    case GHole(T0, _, _, _) => T0
    case GFinish(T0, _, _, _, _, _) => T0
    case GPutHead(T0, _) => T0
    case GPutTail(T0, _) => T0
    case GPublish(T0, _) => T0
    case GPunch(T0, _) => T0
    case GPutBack(T0, _) => T0
    case _ => tail
  }

  /** The cell whose task the owner has taken but not yet punched out. */
  function OwnersCell(o: Owner): int {
    match o
    case GFinish(_, T, _, _, _, true) => T
    case GHole(_, T, _, _) => T
    case GPunch(_, T) => T
    case _ => -1
  }

  function ThiefsCell(s: State): int {
    if s.holder.ByThief? && s.holder.id in s.thieves && s.thieves[s.holder.id].TPunch?
    then s.thieves[s.holder.id].H - 1 else -1
  }

  /** Between lowering `tail` and looking at `head` the owner has not settled yet
      who may have the cell at `tail`. */
  function Undecided(o: Owner): int {
    if o.GHead? || o.GAcquire? || o.GHead2? then 1 else 0
  }

  /** `loc` and the cells of the window agree. */
  ghost predicate Located(pool: seq<Cell<Task>>, lo: int, hi: int, x1: int, x2: int, loc: map<Task, int>) {
    && 0 <= lo <= hi <= |pool|
    && (forall t :: t in loc ==>
         lo <= loc[t] < hi && loc[t] != x1 && loc[t] != x2 && pool[loc[t]] == Has(t))
    && (forall i :: lo <= i < hi && i != x1 && i != x2 && pool[i].Has? ==>
         pool[i].t in loc && loc[pool[i].t] == i)
  }

  ghost predicate NoDuplicates(out: seq<Task>) {
    forall i, j :: 0 <= i < j < |out| ==> out[i] != out[j]
  }

  function Spawning(o: Owner): set<Task> {
    match o
    case SpAcquire(t, _) => {t}
    case SpHead(t, _) => {t}
    case SpCopy(t, _, _) => {t}
    case SpPutHead(t, _) => {t}
    case SpPutTail(t, _) => {t}
    case SpRelease(t, _) => {t}
    case SpStore(t, _) => {t}
    case SpTail(t, _) => {t}
    case _ => {}
  }

  /** Every spawned task is on its way in, in the window, or out, exactly one of them. */
  ghost predicate Accounted(spawned: set<Task>, coming: set<Task>, out: seq<Task>, loc: map<Task, int>) {
    && NoDuplicates(out)
    && (forall t :: t in out ==> t in spawned && t !in loc && t !in coming)
    && (forall t :: t in loc ==> t in spawned && t !in coming)
    && coming <= spawned
    && (forall t :: t in spawned ==> t in coming || t in loc || t in out)
  }

  ghost predicate LockInv(s: State) {
    && (s.word == Locked <==> s.holder != Nobody)
    && (s.holder == ByOwner <==> InCritical(s.owner))
    && (forall id :: id in s.thieves <==> s.holder == ByThief(id))
  }

  /** How far a thief may have gone. */
  predicate ThiefInv(p: Thief, head: int, limit: int) {
    match p
    case THead => true
    case TInc(h0, om) => h0 <= head && (!om ==> head == h0)
    case TTail(h0, H, om) => head == H && h0 < H && (!om ==> H == h0 + 1)
    case TRead(h0, H, om) => head == H && h0 < H && (!om ==> H == h0 + 1) && H <= limit
    case TRollback(h0) => h0 < head
    case TPunch(h0, H) => head == H && h0 < H && H <= limit
    case TPutHead(h0, H) => head == H && h0 < H
    case TUnlock => true
  }

  /** Outside the reset and restore phases nobody's head is beyond the tail. */
  ghost predicate ThievesInv(s: State) {
    forall id :: id in s.thieves ==> ThiefInv(s.thieves[id], s.head, s.tail + Undecided(s.owner))
  }

  predicate AtReset(s: State) { s.head == 0 && s.tail == 0 }

  predicate Frontier(s: State) { Lo(s) <= s.tail + Undecided(s.owner) }

  predicate Gap(T0: int, T: int, om: bool) { T < T0 && (!om ==> T0 == T + 1) }

  predicate OwnerInv(s: State) {
    match s.owner
    case Idle => Frontier(s) && (s.word == EmptyPool ==> AtReset(s))
    case SpAcquire(t, T) => Frontier(s) && s.word != EmptyPool && T == s.tail && T + 1 > |s.pool| > 0
    case SpHead(t, T) => Frontier(s) && T == s.tail && |s.pool| > 0
    case SpCopy(t, T, H) => Frontier(s) && T == s.tail && H == s.head && |s.pool| > 0
    case SpPutHead(t, T1) => 0 <= T1 < |s.pool|
    case SpPutTail(t, T1) => 0 <= T1 < |s.pool| && s.head == 0
    case SpRelease(t, T1) => Frontier(s) && 0 <= T1 < |s.pool| && s.head == 0 && s.tail == T1
    case SpStore(t, T) =>
      Frontier(s) && T == s.tail && T < |s.pool| && (s.word == EmptyPool ==> AtReset(s))
    case SpTail(t, T) =>
      Frontier(s) && T == s.tail && 0 <= T < |s.pool| && s.pool[T] == Has(t) &&
      (s.word == EmptyPool ==> AtReset(s))
    case SpPublish => Frontier(s) && s.tail > 0 && (s.word == EmptyPool ==> s.head == 0)
    case GDec(T0, om) =>
      Frontier(s) && s.word != EmptyPool && 0 <= s.tail <= T0 && (!om ==> T0 == s.tail)
    case GHead(T0, T, om) =>
      Frontier(s) && s.word != EmptyPool && s.tail == T && -1 <= T && Gap(T0, T, om)
    case GAcquire(T0, T, om) =>
      Frontier(s) && s.word != EmptyPool && s.tail == T && -1 <= T && Gap(T0, T, om)
    case GHead2(T0, T, om) => Frontier(s) && s.tail == T && -1 <= T && Gap(T0, T, om)
    case GResetTail(T0, T, om, H0, one) => Gap(T0, T, om) && H0 == (if one then T else T + 1)
    case GResetHead(T0, T, om, H0, one) =>
      Gap(T0, T, om) && H0 == (if one then T else T + 1) && s.tail == 0
    case GLeave(T0, T, om, H0, one) =>
      Gap(T0, T, om) && H0 == (if one then T else T + 1) && AtReset(s)
    case GRelease(T0, T, om) => Frontier(s) && s.head < T && s.tail == T && Gap(T0, T, om)
    case GRead(T0, T, om, H0, empty) =>
      Gap(T0, T, om) &&
      if empty then s.word == EmptyPool && AtReset(s) && H0 == T
      else Frontier(s) && s.word != EmptyPool && s.tail == T
    case GHole(T0, T, H0, empty) =>
      T < T0 &&
      if empty then s.word == EmptyPool && AtReset(s) && H0 == T
      else Frontier(s) && s.word != EmptyPool && s.tail == T
    case GFinish(T0, T, om, H0, empty, res) =>
      if empty then
        s.word == EmptyPool && AtReset(s) &&
        (if res then H0 == T && Gap(T0, T, om) else om || H0 == T0)
      else res && Gap(T0, T, om) && Frontier(s) && s.word != EmptyPool && s.tail == T
    case GPutHead(T0, H1) => s.word == EmptyPool && AtReset(s) && H1 < T0
    case GPutTail(T0, H1) => s.word == EmptyPool && s.head == H1 && s.tail == 0 && H1 < T0
    case GPublish(T0, H1) => s.word == EmptyPool && s.head == H1 && s.tail == T0 && H1 < T0
    case GPunch(T0, T) => T < T0 && Frontier(s) && s.word != EmptyPool && s.tail == T
    case GPutBack(T0, T) => T < T0 && Frontier(s) && s.word != EmptyPool && s.tail == T
  }

  ghost predicate Shape(s: State) {
    && (s.pool == [] || |s.pool| >= MIN_TASK_POOL_SIZE)
    && LockInv(s) && ThievesInv(s) && OwnerInv(s)
  }

  ghost predicate Inv(s: State) {
    && Shape(s)
    && Located(s.pool, Lo(s), Hi(s), OwnersCell(s.owner), ThiefsCell(s), s.loc)
    && Accounted(s.spawned, Spawning(s.owner), s.out, s.loc)
  }

  lemma InitInv()
    ensures Inv(Init)
  {
  }

  // ------------------------------------------------------- owner's steps

  lemma SpawnStep(s: State, t: Task)
    requires Inv(s) && Enabled(s, Spawn(t))
    ensures Inv(BeginSpawn(s, t))
  {
    hide ThiefInv;
  }

  lemma GetStep(s: State)
    requires Inv(s) && Enabled(s, Get)
    ensures Inv(Step(s, Get))
  {
    hide ThiefInv;
  }

  lemma RelocatedTask(pool: seq<Cell<Task>>, H: int, T: int, i: int)
    requires 0 <= H <= i < T <= |pool| && |pool| >= MIN_TASK_POOL_SIZE && pool[i].Has?
    ensures var k := Rank(pool[H..T], i - H);
      0 <= k < |Compact(pool[H..T])| && Relocated(pool, H, T)[k] == pool[i]
  {
    hide Compact, Rank, NewSize, MustGrow;
    RankAt(pool[H..T], i - H);
  }

  lemma RelocatedCell(pool: seq<Cell<Task>>, H: int, T: int, k: int) returns (i: int)
    requires 0 <= H <= T <= |pool| && |pool| >= MIN_TASK_POOL_SIZE && 0 <= k < |Compact(pool[H..T])|
    ensures H <= i < T && Rank(pool[H..T], i - H) == k && pool[i].Has? && Relocated(pool, H, T)[k] == pool[i]
  {
    hide Compact, Rank, Origin, NewSize, MustGrow;
    OriginAt(pool[H..T], k);
    i := H + Origin(pool[H..T], k);
  }

  /** Compaction carries the window over to the front of the array. */
  lemma RelocateLocated(pool: seq<Cell<Task>>, H: int, T: int, loc: map<Task, int>, loc': map<Task, int>)
    requires |pool| >= MIN_TASK_POOL_SIZE && Located(pool, H, T, -1, -1, loc)
    requires loc' == map u | u in loc && H <= loc[u] < T :: Rank(pool[H..T], loc[u] - H)
    ensures loc'.Keys == loc.Keys
    ensures Located(Relocated(pool, H, T), 0, |Compact(pool[H..T])|, -1, -1, loc')
  {
    hide Compact, Rank, Relocated;
    var pool', T1 := Relocated(pool, H, T), |Compact(pool[H..T])|;
    forall u | u in loc' ensures 0 <= loc'[u] < T1 && pool'[loc'[u]] == Has(u) {
      RelocatedTask(pool, H, T, loc[u]);
    }
    forall k | 0 <= k < T1 && pool'[k].Has? ensures pool'[k].t in loc' && loc'[pool'[k].t] == k {
      var i := RelocatedCell(pool, H, T, k);
    }
  }

  lemma RelocateStep(s: State, c: Choice)
    requires Inv(s) && s.owner.SpCopy?
    ensures Inv(StepOwner(s, c))
  {
    var SpCopy(t, T, H) := s.owner;
    RelocateLocated(s.pool, H, T, s.loc, Relocate(s, t, H, T).loc);
    RelocateAccounted(s.spawned, {t}, s.out, s.loc, Relocate(s, t, H, T).loc);
    hide Compact, Rank, Located, ThiefInv, Relocated, Accounted;
  }

  lemma RelocateAccounted(spawned: set<Task>, coming: set<Task>, out: seq<Task>, loc: map<Task, int>, loc': map<Task, int>)
    requires Accounted(spawned, coming, out, loc) && loc'.Keys == loc.Keys
    ensures Accounted(spawned, coming, out, loc')
  {
  }

  lemma PreparePhases(s: State, c: Choice)
    requires Inv(s)
    requires s.owner.SpAcquire? || s.owner.SpHead? || s.owner.SpPutHead? || s.owner.SpPutTail? || s.owner.SpRelease?
    ensures Inv(StepOwner(s, c))
  {
    hide Located, Accounted, ThiefInv;
  }

  lemma SpStoreStep(s: State, c: Choice)
    requires Inv(s) && s.owner.SpStore?
    ensures Inv(StepOwner(s, c))
  {
    hide Accounted, ThiefInv;
  }

  lemma AppendLocated(pool: seq<Cell<Task>>, lo: int, T: int, x: int, loc: map<Task, int>, t: Task)
    requires Located(pool, lo, T, -1, x, loc) && T < |pool| && pool[T] == Has(t) && t !in loc && x < T
    ensures Located(pool, lo, T + 1, -1, x, loc[t := T])
  {
  }

  lemma SpawnedAccounted(spawned: set<Task>, out: seq<Task>, loc: map<Task, int>, t: Task, T: int)
    requires Accounted(spawned, {t}, out, loc)
    ensures Accounted(spawned, {}, out, loc[t := T]) && t !in loc
  {
  }

  lemma SpTailStep(s: State, c: Choice)
    requires Inv(s) && s.owner.SpTail?
    ensures Inv(StepOwner(s, c))
  {
    hide Located, Accounted;
    SpawnedAccounted(s.spawned, s.out, s.loc, s.owner.t, s.owner.T);
    AppendLocated(s.pool, Lo(s), s.owner.T, ThiefsCell(s), s.loc, s.owner.t);
  }

  lemma SpPublishStep(s: State, c: Choice)
    requires Inv(s) && s.owner.SpPublish?
    ensures Inv(StepOwner(s, c))
  {
    hide Located, Accounted, ThiefInv;
  }

  lemma GDecStep(s: State, c: Choice)
    requires Inv(s) && s.owner.GDec?
    ensures Inv(StepOwner(s, c))
  {
    hide Accounted;
  }

  lemma GHeadStep(s: State, c: Choice)
    requires Inv(s) && s.owner.GHead?
    ensures Inv(StepOwner(s, c))
  {
    hide Accounted;
  }

  lemma ArbitrationPhases(s: State, c: Choice)
    requires Inv(s) && (s.owner.GAcquire? || s.owner.GHead2? || s.owner.GRelease?)
    ensures Inv(StepOwner(s, c))
  {
    hide Located, Accounted, ThiefInv;
  }

  lemma ResetPhases(s: State, c: Choice)
    requires Inv(s) && (s.owner.GResetTail? || s.owner.GResetHead? || s.owner.GLeave?)
    ensures Inv(StepOwner(s, c))
  {
    hide Located, Accounted, ThiefInv;
  }

  lemma RestorePhases(s: State, c: Choice)
    requires Inv(s) && (s.owner.GPutHead? || s.owner.GPutTail? || s.owner.GPublish?)
    ensures Inv(StepOwner(s, c))
  {
    hide Located, Accounted, ThiefInv;
  }

  lemma GPutBackStep(s: State, c: Choice)
    requires Inv(s) && s.owner.GPutBack?
    ensures Inv(StepOwner(s, c))
  {
    hide Located, Accounted;
  }

  /** Taking the task of one cell of the window leaves that cell set aside. */
  lemma TakeLocated(pool: seq<Cell<Task>>, lo: int, hi: int, x1: int, x2: int, loc: map<Task, int>, i: int)
    requires Located(pool, lo, hi, x1, x2, loc)
    requires lo <= i < hi && i != x1 && i != x2 && pool[i].Has?
    ensures pool[i].t in loc
    ensures x1 == -1 ==> Located(pool, lo, hi, i, x2, loc - {pool[i].t})
    ensures x2 == -1 ==> Located(pool, lo, hi, x1, i, loc - {pool[i].t})
  {
  }

  lemma TakeAccounted(spawned: set<Task>, coming: set<Task>, out: seq<Task>, loc: map<Task, int>, t: Task)
    requires t in loc && Accounted(spawned, coming, out, loc)
    ensures Accounted(spawned, coming, out + [t], loc - {t})
  {
  }

  function Unless(x: int, i: int): int { if x == i then -1 else x }

  /** A cell that is empty or set aside may leave the window at either end. */
  lemma ShrinkLow(pool: seq<Cell<Task>>, lo: int, hi: int, x1: int, x2: int, loc: map<Task, int>)
    requires Located(pool, lo, hi, x1, x2, loc) && lo < hi
    requires pool[lo] == Hole || lo == x1 || lo == x2
    ensures Located(pool, lo + 1, hi, Unless(x1, lo), Unless(x2, lo), loc)
  {
  }

  lemma ShrinkHigh(pool: seq<Cell<Task>>, lo: int, hi: int, x1: int, x2: int, loc: map<Task, int>)
    requires Located(pool, lo, hi, x1, x2, loc) && lo < hi
    requires pool[hi - 1] == Hole || hi - 1 == x1 || hi - 1 == x2
    ensures Located(pool, lo, hi - 1, Unless(x1, hi - 1), Unless(x2, hi - 1), loc)
  {
  }

  /** Nulling a cell that is set aside brings it back as a hole. */
  lemma PunchLocated(pool: seq<Cell<Task>>, lo: int, hi: int, x1: int, x2: int, loc: map<Task, int>)
    requires Located(pool, lo, hi, x1, x2, loc)
    ensures lo <= x1 < hi && x1 != x2 ==> Located(pool[x1 := Hole], lo, hi, -1, x2, loc)
    ensures lo <= x2 < hi && x1 != x2 ==> Located(pool[x2 := Hole], lo, hi, x1, -1, loc)
  {
  }

  /** The owner may look at the cell it has settled on: no thief claims it. */
  lemma OwnersCellIsFree(s: State)
    requires Inv(s) && (s.owner.GRead? || s.owner.GHole? || s.owner.GFinish? || s.owner.GPunch?)
    requires s.owner.GFinish? ==> s.owner.res
    ensures 0 <= Lo(s) <= s.owner.T < Hi(s) <= |s.pool| && ThiefsCell(s) != s.owner.T
  {
  }

  /** Nothing obtained at `T` and nothing passed over so far: the window loses
      its last cell. */
  lemma RoundEnds(s: State, x: int, out': seq<Task>, loc': map<Task, int>)
    requires Inv(s) && s.owner.GRead? && !s.owner.om
    requires if x == -1 then At(s.pool, s.owner.T) == Hole else x == s.owner.T
    requires Located(s.pool, Lo(s), Hi(s), x, ThiefsCell(s), loc')
    requires Accounted(s.spawned, {}, out', loc')
    ensures var GRead(T0, T, om, H0, empty) := s.owner;
      Inv(s.(owner := NextRound(T0, T, om, H0, empty), out := out', loc := loc'))
  {
    hide Located, Accounted, ThiefInv;
    OwnersCellIsFree(s);
    ShrinkHigh(s.pool, Lo(s), Hi(s), x, ThiefsCell(s), loc');
  }

  lemma GReadHoleStep(s: State, c: Choice)
    requires Inv(s) && s.owner.GRead? && At(s.pool, s.owner.T) == Hole
    ensures Inv(StepOwner(s, c))
  {
    hide Located, Accounted, ThiefInv;
    OwnersCellIsFree(s);
    if !s.owner.om { RoundEnds(s, -1, s.out, s.loc); }
  }

  lemma GReadTakeStep(s: State)
    requires Inv(s) && s.owner.GRead? && At(s.pool, s.owner.T).Has?
    ensures Inv(StepOwner(s, Take))
  {
    hide Located, Accounted, ThiefInv;
    var t := At(s.pool, s.owner.T).t;
    OwnersCellIsFree(s);
    TakeLocated(s.pool, Lo(s), Hi(s), -1, ThiefsCell(s), s.loc, s.owner.T);
    TakeAccounted(s.spawned, {}, s.out, s.loc, t);
  }

  lemma GReadSkipStep(s: State)
    requires Inv(s) && s.owner.GRead? && At(s.pool, s.owner.T).Has?
    ensures Inv(StepOwner(s, Skip))
  {
    hide Located, Accounted, ThiefInv;
  }

  lemma GReadDropStep(s: State)
    requires Inv(s) && s.owner.GRead? && At(s.pool, s.owner.T).Has?
    ensures Inv(StepOwner(s, Drop))
  {
    hide Located, Accounted, ThiefInv;
    OwnersCellIsFree(s);
    var t := s.pool[s.owner.T].t;
    TakeLocated(s.pool, Lo(s), Hi(s), -1, ThiefsCell(s), s.loc, s.owner.T);
    TakeAccounted(s.spawned, {}, s.out, s.loc, t);
    if !s.owner.om { RoundEnds(s, s.owner.T, s.out + [t], s.loc - {t}); }
  }

  lemma GHoleStep(s: State, c: Choice)
    requires Inv(s) && s.owner.GHole?
    ensures Inv(StepOwner(s, c))
  {
    hide Located, Accounted, ThiefInv;
    OwnersCellIsFree(s);
    PunchLocated(s.pool, Lo(s), Hi(s), s.owner.T, ThiefsCell(s), s.loc);
  }

  lemma GPunchStep(s: State, c: Choice)
    requires Inv(s) && s.owner.GPunch?
    ensures Inv(StepOwner(s, c))
  {
    hide Located, Accounted, ThiefInv;
    OwnersCellIsFree(s);
    PunchLocated(s.pool, Lo(s), Hi(s), s.owner.T, ThiefsCell(s), s.loc);
  }

  /** After the last cell has been looked at the window is what was passed over. */
  lemma GFinishEmptyStep(s: State, c: Choice)
    requires Inv(s) && s.owner.GFinish? && s.owner.empty
    ensures Inv(StepOwner(s, c))
  {
    hide ThiefInv, Accounted;
  }

  lemma GFinishTakenStep(s: State, c: Choice)
    requires Inv(s) && s.owner.GFinish? && !s.owner.empty
    ensures Inv(StepOwner(s, c))
  {
    hide Located, Accounted, ThiefInv;
    OwnersCellIsFree(s);
    if !s.owner.om { ShrinkHigh(s.pool, Lo(s), Hi(s), s.owner.T, ThiefsCell(s), s.loc); }
  }

  lemma OwnerStepInv(s: State, c: Choice)
    requires Inv(s) && s.owner != Idle
    ensures Inv(StepOwner(s, c))
  {
    var o := s.owner;
    if o.GRead? {
      if At(s.pool, o.T) == Hole { GReadHoleStep(s, c); }
      else if c == Take { GReadTakeStep(s); }
      else if c == Skip { GReadSkipStep(s); }
      else { GReadDropStep(s); }
    }
    else if o.SpCopy? { RelocateStep(s, c); }
    else if o.SpStore? { SpStoreStep(s, c); }
    else if o.SpTail? { SpTailStep(s, c); }
    else if o.SpPublish? { SpPublishStep(s, c); }
    else if o.GDec? { GDecStep(s, c); }
    else if o.GHead? { GHeadStep(s, c); }
    else if o.GHole? { GHoleStep(s, c); }
    else if o.GPunch? { GPunchStep(s, c); }
    else if o.GFinish? {
      if o.empty { GFinishEmptyStep(s, c); } else { GFinishTakenStep(s, c); }
    }
    else if o.GAcquire? || o.GHead2? || o.GRelease? { ArbitrationPhases(s, c); }
    else if o.GResetTail? || o.GResetHead? || o.GLeave? { ResetPhases(s, c); }
    else if o.GPutBack? { GPutBackStep(s, c); }
    else if o.GPutHead? || o.GPutTail? || o.GPublish? { RestorePhases(s, c); }
    else { PreparePhases(s, c); }
    hide Inv, StepOwner;
  }

  // ------------------------------------------------------ thieves' steps

  lemma LockStep(s: State, id: ThiefId)
    requires Inv(s) && Enabled(s, LockPool(id))
    ensures Inv(Lock(s, id))
  {
    hide Located, Accounted;
  }

  /** What a thief may rely on while it holds the lock, wherever the owner is. */
  lemma OwnerSeenByThief(s: State, id: ThiefId)
    requires Inv(s) && id in s.thieves
    ensures s.word == Locked && s.holder == ByThief(id) && s.thieves.Keys == {id}
    ensures !InCritical(s.owner) && Lo(s) <= s.tail + Undecided(s.owner) <= Hi(s)
    ensures OwnersCell(s.owner) == -1 || (OwnersCell(s.owner) == s.tail && Undecided(s.owner) == 0)
    ensures 0 <= Lo(s) <= Hi(s) <= |s.pool|
  {
    hide ThiefInv, Accounted;
  }

  /** The cell a thief has taken the task of but not yet punched out. */
  function CellOf(p: Thief): int { if p.TPunch? then p.H - 1 else -1 }

  /** A step that moves the thief to `p` keeps the invariant if the thief's own
      part of it holds afterwards; the owner's part is not disturbed. */
  lemma ThiefStepKeeps(s: State, s': State, id: ThiefId, p: Thief)
    requires Inv(s) && id in s.thieves
    requires s' == s.(thieves := s.thieves[id := p], head := s'.head, pool := s'.pool, out := s'.out, loc := s'.loc)
    requires |s'.pool| == |s.pool|
    requires Undecided(s.owner) == 0 && 0 <= s.tail < |s.pool| ==> s'.pool[s.tail] == s.pool[s.tail]
    requires ThiefInv(p, s'.head, s.tail + Undecided(s.owner))
    requires ThiefLo(p, s'.head) <= s.tail + Undecided(s.owner)
    requires Located(s'.pool, ThiefLo(p, s'.head), Hi(s), OwnersCell(s.owner), CellOf(p), s'.loc)
    requires Accounted(s.spawned, Spawning(s.owner), s'.out, s'.loc)
    ensures Inv(s')
  {
    hide Located, Accounted, ThiefInv;
  }

  lemma ThiefMoves(s: State, id: ThiefId, c: Choice)
    requires Inv(s) && id in s.thieves && !s.thieves[id].TRead? && !s.thieves[id].TPunch? && !s.thieves[id].TUnlock?
    ensures Inv(StepThief(s, id, c))
  {
    OwnerSeenByThief(s, id);
    hide OwnerInv, InCritical, OwnerHi, OwnerLo, OwnersCell, Spawning, Undecided, Located, Accounted;
    var s' := StepThief(s, id, c);
    ThiefStepKeeps(s, s', id, s'.thieves[id]);
  }

  lemma TUnlockStep(s: State, id: ThiefId, c: Choice)
    requires Inv(s) && id in s.thieves && s.thieves[id].TUnlock?
    ensures Inv(StepThief(s, id, c))
  {
    hide Located, Accounted;
    OwnerSeenByThief(s, id);
  }

  lemma TReadHoleFirstStep(s: State, id: ThiefId, c: Choice)
    requires Inv(s) && id in s.thieves && s.thieves[id].TRead? && At(s.pool, s.thieves[id].H - 1) == Hole
    requires !s.thieves[id].om
    ensures Inv(StepThief(s, id, c))
  {
    OwnerSeenByThief(s, id);
    hide OwnerInv, InCritical, OwnerHi, OwnerLo, OwnersCell, Spawning, Undecided, Located, Accounted;
    var TRead(h0, H, om) := s.thieves[id];
    ShrinkLow(s.pool, h0, Hi(s), OwnersCell(s.owner), -1, s.loc);
    ThiefStepKeeps(s, StepThief(s, id, c), id, TInc(H, false));
  }

  lemma TReadHoleLaterStep(s: State, id: ThiefId, c: Choice)
    requires Inv(s) && id in s.thieves && s.thieves[id].TRead? && At(s.pool, s.thieves[id].H - 1) == Hole
    requires s.thieves[id].om
    ensures Inv(StepThief(s, id, c))
  {
    OwnerSeenByThief(s, id);
    hide OwnerInv, InCritical, OwnerHi, OwnerLo, OwnersCell, Spawning, Undecided, Located, Accounted;
    var TRead(h0, H, om) := s.thieves[id];
    ThiefStepKeeps(s, StepThief(s, id, c), id, TInc(h0, true));
  }

  /** A thief that is about to look at a cell. */
  lemma ThiefAtCell(s: State, id: ThiefId)
    requires Inv(s) && id in s.thieves && s.thieves[id].TRead?
    ensures var TRead(h0, H, om) := s.thieves[id];
      && s.head == H && 0 <= h0 < H <= |s.pool| && (!om ==> H == h0 + 1) && H <= s.tail + Undecided(s.owner) <= Hi(s)
      && ThiefLo(TRead(h0, H, om), H) == h0 && ThiefsCell(s) == -1
      && Located(s.pool, h0, Hi(s), OwnersCell(s.owner), -1, s.loc)
      && Accounted(s.spawned, Spawning(s.owner), s.out, s.loc)
  {
    OwnerSeenByThief(s, id);
    hide OwnerInv, InCritical, OwnerHi, OwnerLo, OwnersCell, Spawning, Undecided, Located, Accounted;
  }

  lemma TReadTakeFirstStep(s: State, id: ThiefId)
    requires Inv(s) && id in s.thieves && s.thieves[id].TRead? && At(s.pool, s.thieves[id].H - 1).Has?
    requires !s.thieves[id].om
    ensures Inv(StepThief(s, id, Take))
  {
    OwnerSeenByThief(s, id);
    ThiefAtCell(s, id);
    hide Inv, Hi, InCritical, OwnersCell, Spawning, Undecided, Located, Accounted;
    var TRead(h0, H, om) := s.thieves[id];
    var t := s.pool[h0].t;
    TakeLocated(s.pool, h0, Hi(s), OwnersCell(s.owner), -1, s.loc, h0);
    TakeAccounted(s.spawned, Spawning(s.owner), s.out, s.loc, t);
    ShrinkLow(s.pool, h0, Hi(s), OwnersCell(s.owner), h0, s.loc - {t});
    var s' := StepThief(s, id, Take);
    assert s' == s.(thieves := s.thieves[id := TUnlock], out := s'.out, loc := s'.loc);
    assert s'.out == s.out + [t] && s'.loc == s.loc - {t};
    hide StepThief;
    ThiefStepKeeps(s, s', id, TUnlock);
  }

  lemma TReadTakeLaterStep(s: State, id: ThiefId)
    requires Inv(s) && id in s.thieves && s.thieves[id].TRead? && At(s.pool, s.thieves[id].H - 1).Has?
    requires s.thieves[id].om
    ensures Inv(StepThief(s, id, Take))
  {
    OwnerSeenByThief(s, id);
    ThiefAtCell(s, id);
    hide Inv, Hi, InCritical, OwnersCell, Spawning, Undecided, Located, Accounted;
    var TRead(h0, H, om) := s.thieves[id];
    var s', t, p := StepThief(s, id, Take), s.pool[H - 1].t, TPunch(h0, H);
    assert s' == s.(thieves := s.thieves[id := p], out := s.out + [t], loc := s.loc - {t});
    assert ThiefInv(p, s.head, s.tail + Undecided(s.owner)) && ThiefLo(p, s.head) == h0 && CellOf(p) == H - 1;
    hide StepThief, ThiefInv, ThiefLo, CellOf;
    TakeLocated(s.pool, h0, Hi(s), OwnersCell(s.owner), -1, s.loc, H - 1);
    TakeAccounted(s.spawned, Spawning(s.owner), s.out, s.loc, t);
    ThiefStepKeeps(s, s', id, p);
  }

  lemma TReadSkipStep(s: State, id: ThiefId, c: Choice)
    requires Inv(s) && id in s.thieves && s.thieves[id].TRead? && At(s.pool, s.thieves[id].H - 1).Has? && c != Take
    ensures Inv(StepThief(s, id, c))
  {
    OwnerSeenByThief(s, id);
    hide OwnerInv, InCritical, OwnerHi, OwnerLo, OwnersCell, Spawning, Undecided, Located, Accounted;
    ThiefStepKeeps(s, StepThief(s, id, c), id, TInc(s.thieves[id].h0, true));
  }

  lemma TPunchStep(s: State, id: ThiefId, c: Choice)
    requires Inv(s) && id in s.thieves && s.thieves[id].TPunch?
    ensures Inv(StepThief(s, id, c))
  {
    OwnerSeenByThief(s, id);
    hide OwnerInv, InCritical, OwnerHi, OwnerLo, OwnersCell, Spawning, Undecided, Located, Accounted;
    var TPunch(h0, H) := s.thieves[id];
    PunchLocated(s.pool, h0, Hi(s), OwnersCell(s.owner), H - 1, s.loc);
    ThiefStepKeeps(s, StepThief(s, id, c), id, TPutHead(h0, H));
  }

  lemma ThiefStepInv(s: State, id: ThiefId, c: Choice)
    requires Inv(s) && id in s.thieves
    ensures Inv(StepThief(s, id, c))
  {
    hide Inv, StepThief;
    var p := s.thieves[id];
    if p.TRead? {
      if At(s.pool, p.H - 1) == Hole {
        if p.om { TReadHoleLaterStep(s, id, c); } else { TReadHoleFirstStep(s, id, c); }
      }
      else if c != Take { TReadSkipStep(s, id, c); }
      else if p.om { TReadTakeLaterStep(s, id); }
      else { TReadTakeFirstStep(s, id); }
    }
    else if p.TPunch? { TPunchStep(s, id, c); }
    else if p.TUnlock? { TUnlockStep(s, id, c); }
    else { ThiefMoves(s, id, c); }
  }

  lemma StepInv(s: State, e: Event)
    requires Inv(s) && Enabled(s, e)
    ensures Inv(Step(s, e))
  {
    hide Inv, StepThief, StepOwner;
    match e
    case Spawn(t) => SpawnStep(s, t);
    case Get => GetStep(s);
    case OwnerStep(c) => OwnerStepInv(s, c);
    case LockPool(id) => LockStep(s, id);
    case ThiefStep(id, c) => ThiefStepInv(s, id, c);
  }

  lemma {:induction false} RunInv(s: State, es: seq<Event>)
    requires Inv(s) && CanRun(s, es)
    ensures Inv(Run(s, es))
    decreases |es|
  {
    hide Inv, Step, Enabled;
    if es != [] {
      StepInv(s, es[0]);
      RunInv(Step(s, es[0]), es[1..]);
    }
  }

  // --------------------------------------------------------- main results

  /** Task `t` lies in the window that the current takers will leave behind. */
  ghost predicate InWindow(s: State, t: Task) {
    exists i :: Lo(s) <= i < Hi(s) <= |s.pool| && 0 <= i && s.pool[i] == Has(t)
                && i != OwnersCell(s.owner) && i != ThiefsCell(s)
  }

  /** Whatever the interleaving, no task is handed out twice, only spawned tasks
      are handed out, and each spawned task is in exactly one place: still being
      spawned, in the window, or out. */
  lemma DequeSafety(es: seq<Event>)
    requires CanRun(Init, es)
    ensures var s := Run(Init, es);
      && NoDuplicates(s.out)
      && (forall t :: t in s.out ==> t in s.spawned)
      && (forall t :: t in s.spawned ==>
           (if t in s.out then 1 else 0) + (if t in Spawning(s.owner) then 1 else 0)
           + (if InWindow(s, t) then 1 else 0) == 1)
  {
    InitInv();
    RunInv(Init, es);
    var s := Run(Init, es);
    hide Run, CanRun, Init, Shape, Lo, Hi;
    forall t | t in s.spawned
      ensures InWindow(s, t) <==> t in s.loc
    {
      if t in s.loc { assert s.pool[s.loc[t]] == Has(t); }
    }
  }

  /** When nobody is at work on the deque, the tasks not yet handed out are
      exactly those between `head` and `tail`, and if there are any, thieves
      can get at them. */
  lemma NothingLostAtRest(es: seq<Event>)
    requires CanRun(Init, es)
    requires var s := Run(Init, es); s.owner == Idle && s.thieves == map[]
    ensures var s := Run(Init, es);
      && (forall t :: t in s.spawned && t !in s.out <==>
           exists i :: 0 <= s.head <= i < s.tail <= |s.pool| && s.pool[i] == Has(t))
      && (s.word != Published ==> forall t :: t in s.spawned ==> t in s.out)
  {
    InitInv();
    RunInv(Init, es);
    var s := Run(Init, es);
    hide Run, CanRun, Init;
    assert Lo(s) == s.head && Hi(s) == s.tail;
    forall t
      ensures t in s.spawned && t !in s.out <==>
              exists i :: 0 <= s.head <= i < s.tail <= |s.pool| && s.pool[i] == Has(t)
    {
      if t in s.spawned && t !in s.out { assert s.pool[s.loc[t]] == Has(t); }
    }
  }

  /** A `get_task` that passes over nothing and comes back empty has found the
      deque drained: every task spawned so far is out. */
  lemma EmptyHandedMeansDrained(es: seq<Event>)
    requires CanRun(Init, es)
    requires var o := Run(Init, es).owner; o.GFinish? && !o.om && !o.res
    ensures var s := Run(Init, es); forall t :: t in s.spawned ==> t in s.out
  {
    InitInv();
    RunInv(Init, es);
    hide Run, CanRun, Init;
  }

  /** The conditions the source asserts along the way hold in every reachable
      state: the outcome of the arbitration between owner and thief, an empty
      pool on leaving, a non-empty one on publishing, and the restored bounds. */
  lemma SourceAssertions(es: seq<Event>)
    requires CanRun(Init, es)
    ensures var s := Run(Init, es); var o := s.owner;
      && (o.GHead2? && s.head > o.T ==> s.head == o.T + 1 && s.tail == o.T)
      && (o.GLeave? ==> s.word == Locked && s.head == s.tail)
      && ((o.SpPublish? && s.word == EmptyPool) || o.GPublish? ==> s.head < s.tail)
      && (o.GFinish? && o.om && o.empty ==> o.H0 <= o.T0 && (o.res ==> o.H0 == o.T))
      && (o.GFinish? && !o.empty ==> o.res && s.word != EmptyPool)
      && (o.GRead? && !o.om ==> o.T0 == o.T + 1)
      && (o == Idle ==> s.tail >= 0)
      && (o.GFinish? && !o.res && !o.om ==> s.head == 0 && s.tail == 0)
  {
    InitInv();
    RunInv(Init, es);
    hide Run, CanRun, Init, ThiefInv;
  }
}
