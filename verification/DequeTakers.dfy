/** What those who take from the deque may miss. A thief or an owner that comes back
    with nothing has passed over everything there was to take, and whoever takes a
    task takes the nearest one to its end that it has not passed over. What a taker
    passed over is read off the run: the tasks it was told to skip. */
module DequeTakers {
  import opened TaskPool
  import opened DequeProtocol

  /** One visit: the tasks passed over, whether one was taken, and whether there was
      a moment at which nothing else was left to take. */
  datatype Visit = Visit(skipped: set<Task>, took: bool, drained: bool)

  /** Every task is out, being spawned, at or beyond the tail, or was passed over. */
  ghost predicate NothingLeft(s: State, skipped: set<Task>) {
    forall t :: t in s.spawned && t !in s.out && t !in Spawning(s.owner) && t !in skipped ==>
      exists i :: s.tail <= i < |s.pool| && 0 <= i && s.pool[i] == Has(t)
  }

  /** The task in the cell that a thief is told to pass over. */
  function ThiefSkips(s: State, e: Event, id: ThiefId): set<Task> {
    if e.ThiefStep? && e.id == id && e.d != Take && id in s.thieves && s.thieves[id].TRead? then
      match At(s.pool, s.thieves[id].H - 1) case Hole => {} case Has(t) => {t}
    else {}
  }

  ghost function ThiefSees(s: State, e: Event, id: ThiefId, v: Visit): Visit
    requires Enabled(s, e)
  {
    if e == LockPool(id) then Visit({}, false, false)
    else Visit(v.skipped + ThiefSkips(s, e, id),
               v.took || (e.ThiefStep? && e.id == id && Step(s, e).out != s.out),
               v.drained || NothingLeft(s, v.skipped))
  }

  /** The visit of thief `id` that is under way, or its last one. */
  ghost function ThiefVisit(s: State, es: seq<Event>, id: ThiefId, v: Visit): Visit
    requires CanRun(s, es)
    decreases |es|
  {
    if es == [] then v else ThiefVisit(Step(s, es[0]), es[1..], id, ThiefSees(s, es[0], id, v))
  }

  // ------------------------------------------------------------- thieves

  /** All tasks before `p` were passed over. */
  ghost predicate Before(loc: map<Task, int>, p: int, skipped: set<Task>) {
    forall t :: t in loc && loc[t] < p ==> t in skipped
  }

  ghost predicate ThiefLooked(s: State, p: Thief, v: Visit) {
    var limit := s.tail + Undecided(s.owner);
    match p
    case THead => true
    case TInc(_, _) => Before(s.loc, s.head, v.skipped) && s.head <= limit
    case TTail(_, H, _) => Before(s.loc, H - 1, v.skipped) && H - 1 <= limit
    case TRead(_, H, _) => Before(s.loc, H - 1, v.skipped)
    case TRollback(_) => v.drained
    case TPunch(_, _) => v.took
    case TPutHead(_, _) => v.took
    case TUnlock => v.took || v.drained
  }

  ghost predicate ThiefOk(s: State, id: ThiefId, v: Visit) {
    id in s.thieves ==> ThiefLooked(s, s.thieves[id], v)
  }

  /** Beyond the tail only what the owner is about to look at is pending. */
  lemma NothingBefore(s: State, id: ThiefId, v: Visit)
    requires Inv(s) && id in s.thieves && Before(s.loc, s.tail, v.skipped)
    ensures NothingLeft(s, v.skipped)
  {
    forall t | t in s.spawned && t !in s.out && t !in Spawning(s.owner) && t !in v.skipped
      ensures exists i :: s.tail <= i < |s.pool| && 0 <= i && s.pool[i] == Has(t)
    {
      assert t in s.loc && s.pool[s.loc[t]] == Has(t);
    }
  }

  lemma ThiefBegins(s: State, id: ThiefId, c: Choice, v: Visit)
    requires Inv(s) && id in s.thieves && ThiefOk(s, id, v) && !s.thieves[id].TTail? && !s.thieves[id].TRead?
    ensures ThiefOk(StepThief(s, id, c), id, ThiefSees(s, ThiefStep(id, c), id, v))
  {
    OwnerSeenByThief(s, id);
    hide NothingLeft, Accounted, OwnerInv, OwnerHi, OwnerLo, InCritical, Undecided;
  }

  /** Turning back at a head beyond the tail: nothing is left before the tail. */
  lemma ThiefComparesTail(s: State, id: ThiefId, c: Choice, v: Visit)
    requires Inv(s) && id in s.thieves && ThiefOk(s, id, v) && s.thieves[id].TTail?
    ensures ThiefOk(StepThief(s, id, c), id, ThiefSees(s, ThiefStep(id, c), id, v))
  {
    if s.thieves[id].H > s.tail { NothingBefore(s, id, v); }
    hide NothingLeft, Inv, Undecided;
  }

  lemma CellPassed(s: State, id: ThiefId, v: Visit, skipped: set<Task>)
    requires Inv(s) && id in s.thieves && s.thieves[id].TRead? && ThiefOk(s, id, v) && v.skipped <= skipped
    requires At(s.pool, s.thieves[id].H - 1).Has? ==> At(s.pool, s.thieves[id].H - 1).t in skipped
    ensures Before(s.loc, s.head, skipped) && s.head == s.thieves[id].H <= s.tail + Undecided(s.owner)
  {
    ThiefAtCell(s, id);
    var H := s.thieves[id].H;
    assert At(s.pool, H - 1) == s.pool[H - 1];
    assert forall t :: t in s.loc && s.loc[t] == H - 1 ==> s.pool[H - 1] == Has(t);
    hide Inv, Undecided, Located, Accounted, Hi;
  }

  lemma ThiefPasses(s: State, id: ThiefId, c: Choice, v: Visit)
    requires Inv(s) && id in s.thieves && ThiefOk(s, id, v) && s.thieves[id].TRead?
    requires At(s.pool, s.thieves[id].H - 1).Has? ==> c != Take
    ensures ThiefOk(StepThief(s, id, c), id, ThiefSees(s, ThiefStep(id, c), id, v))
  {
    var v' := ThiefSees(s, ThiefStep(id, c), id, v);
    assert v.skipped <= v'.skipped && (At(s.pool, s.thieves[id].H - 1).Has? ==> At(s.pool, s.thieves[id].H - 1).t in v'.skipped);
    hide ThiefSees, Inv, Before, Undecided;
    CellPassed(s, id, v, v'.skipped);
    hide At;
  }

  lemma ThiefTakes(s: State, id: ThiefId, v: Visit)
    requires id in s.thieves && s.thieves[id].TRead? && At(s.pool, s.thieves[id].H - 1).Has?
    ensures ThiefOk(StepThief(s, id, Take), id, ThiefSees(s, ThiefStep(id, Take), id, v))
  {
    hide NothingLeft, Before, Undecided, At;
    assert |StepThief(s, id, Take).out| == |s.out| + 1;
  }

  lemma ThiefInspects(s: State, id: ThiefId, c: Choice, v: Visit)
    requires Inv(s) && id in s.thieves && ThiefOk(s, id, v) && s.thieves[id].TRead?
    ensures ThiefOk(StepThief(s, id, c), id, ThiefSees(s, ThiefStep(id, c), id, v))
  {
    hide Inv, ThiefOk, ThiefSees, StepThief;
    if At(s.pool, s.thieves[id].H - 1).Has? && c == Take { ThiefTakes(s, id, v); } else { ThiefPasses(s, id, c, v); }
  }

  /** While a thief has the lock the owner leaves the head alone, adds tasks at the
      tail only, and takes the tail below the head only to wait for the lock. */
  ghost predicate OwnerBeside(s: State, s': State) {
    var limit := s.tail + Undecided(s.owner);
    && s'.head == s.head && s'.thieves == s.thieves
    && (s'.tail + Undecided(s'.owner) >= limit || s'.tail + Undecided(s'.owner) >= s.head)
    && forall t :: t in s'.loc ==> (t in s.loc && s'.loc[t] == s.loc[t]) || s'.loc[t] >= limit
  }

  lemma SpawnBeside(s: State, c: Choice)
    requires OwnerInv(s) && s.word == Locked && !InCritical(s.owner) && Spawning(s.owner) != {}
    ensures OwnerBeside(s, StepOwner(s, c))
  {
    hide Frontier, Relocate;
  }

  lemma GetBeside(s: State, c: Choice)
    requires OwnerInv(s) && s.word == Locked && !InCritical(s.owner) && Spawning(s.owner) == {}
    ensures OwnerBeside(s, StepOwner(s, c))
  {
    hide Frontier, Relocate, Unlocked;
  }

  lemma LookedKept(s: State, s': State, id: ThiefId, v: Visit, v': Visit)
    requires id in s.thieves && ThiefOk(s, id, v) && OwnerBeside(s, s')
    requires ThiefInv(s.thieves[id], s.head, s.tail + Undecided(s.owner))
    requires v.skipped <= v'.skipped && (v.took ==> v'.took) && (v.drained ==> v'.drained)
    ensures ThiefOk(s', id, v')
  {
    hide Undecided;
  }

  lemma SeesMore(s: State, e: Event, id: ThiefId, v: Visit)
    requires Enabled(s, e) && e != LockPool(id)
    ensures var v' := ThiefSees(s, e, id, v);
      v.skipped <= v'.skipped && (v.took ==> v'.took) && (v.drained ==> v'.drained)
  {
    hide NothingLeft, Step, Enabled;
  }

  lemma OwnerStepBesideThief(s: State, c: Choice, id: ThiefId, v: Visit)
    requires Inv(s) && s.owner != Idle && id in s.thieves && ThiefOk(s, id, v)
    ensures ThiefOk(StepOwner(s, c), id, ThiefSees(s, OwnerStep(c), id, v))
  {
    OwnerSeenByThief(s, id);
    hide NothingLeft, Accounted, Located, StepOwner, Undecided, OwnerBeside, ThiefOk, ThiefSees, ThiefInv, Spawning, OwnerInv;
    if Spawning(s.owner) != {} { SpawnBeside(s, c); } else { GetBeside(s, c); }
    SeesMore(s, OwnerStep(c), id, v);
    LookedKept(s, StepOwner(s, c), id, v, ThiefSees(s, OwnerStep(c), id, v));
  }

  lemma CallBesideThief(s: State, e: Event, id: ThiefId, v: Visit)
    requires Inv(s) && Enabled(s, e) && id in s.thieves && ThiefOk(s, id, v) && (e.Spawn? || e.Get?)
    ensures ThiefOk(Step(s, e), id, ThiefSees(s, e, id, v))
  {
    SeesMore(s, e, id, v);
    hide Inv, ThiefSees, Before;
  }

  lemma OtherBesideThief(s: State, e: Event, id: ThiefId, v: Visit)
    requires Inv(s) && Enabled(s, e) && (id in s.thieves ==> ThiefOk(s, id, v))
    requires e.Spawn? || e.Get? || e.LockPool? || (e.ThiefStep? && e.id != id)
    ensures ThiefOk(Step(s, e), id, ThiefSees(s, e, id, v))
  {
    if id in s.thieves {
      OwnerSeenByThief(s, id);
      hide Inv, ThiefOk, ThiefSees, StepThief;
      assert e.Spawn? || e.Get?;
      CallBesideThief(s, e, id, v);
    } else {
      hide Inv, ThiefSees, ThiefLooked, StepThief;
      if e.ThiefStep? { OtherThiefOnly(s, e.id, e.d, id); }
    }
  }

  lemma OtherThiefOnly(s: State, other: ThiefId, c: Choice, id: ThiefId)
    requires other in s.thieves && id != other && id !in s.thieves
    ensures id !in StepThief(s, other, c).thieves
  {
    hide At;
  }

  lemma ThiefSeen(s: State, e: Event, id: ThiefId, v: Visit)
    requires Inv(s) && Enabled(s, e) && ThiefOk(s, id, v)
    ensures ThiefOk(Step(s, e), id, ThiefSees(s, e, id, v))
  {
    hide Inv, ThiefOk, ThiefSees, StepThief, StepOwner, BeginSpawn;
    if e.ThiefStep? && e.id == id {
      if s.thieves[id].TTail? { ThiefComparesTail(s, id, e.d, v); }
      else if s.thieves[id].TRead? { ThiefInspects(s, id, e.d, v); }
      else { ThiefBegins(s, id, e.d, v); }
    } else if e.OwnerStep? {
      if id in s.thieves { OwnerStepBesideThief(s, e.c, id, v); } else { OwnerAlone(s, e.c, id, v); }
    } else {
      OtherBesideThief(s, e, id, v);
    }
  }

  lemma OwnerAlone(s: State, c: Choice, id: ThiefId, v: Visit)
    requires id !in s.thieves && Enabled(s, OwnerStep(c))
    ensures ThiefOk(StepOwner(s, c), id, ThiefSees(s, OwnerStep(c), id, v))
  {
    hide NothingLeft, ThiefSees;
  }

  lemma {:induction false} ThiefWatched(s: State, es: seq<Event>, id: ThiefId, v: Visit)
    requires Inv(s) && CanRun(s, es) && ThiefOk(s, id, v)
    ensures Inv(Run(s, es)) && ThiefOk(Run(s, es), id, ThiefVisit(s, es, id, v))
    decreases |es|
  {
    hide Inv, Step, Enabled, ThiefOk, ThiefSees;
    if es != [] {
      StepInv(s, es[0]);
      ThiefSeen(s, es[0], id, v);
      ThiefWatched(Step(s, es[0]), es[1..], id, ThiefSees(s, es[0], id, v));
    }
  }

  const FIRST := Visit({}, false, false)

  /** A thief that leaves has taken a task, or there was a moment in its visit at which
      every task that was neither out nor being spawned lay at or beyond the tail or
      had been passed over by this thief. */
  lemma NoThiefLeavesForNothing(es: seq<Event>, id: ThiefId, c: Choice)
    requires CanRun(Init, es) && id in Run(Init, es).thieves && id !in StepThief(Run(Init, es), id, c).thieves
    ensures var v := ThiefVisit(Init, es, id, FIRST); v.took || v.drained
  {
    InitInv();
    hide Inv, Run, CanRun, ThiefVisit;
    ThiefWatched(Init, es, id, FIRST);
  }

  lemma TurnsBack(s: State, id: ThiefId, c: Choice, v: Visit)
    requires Inv(s) && id in s.thieves && ThiefOk(s, id, v)
    ensures var p := StepThief(s, id, c).thieves; id in p && p[id].TRollback? ==> Before(s.loc, s.tail, v.skipped)
  {
    hide Inv, Undecided;
  }

  /** A thief turns back only if that is so at this very moment; and if the owner is
      idle then, every task is out or was passed over. */
  lemma ThiefTurnsBack(es: seq<Event>, id: ThiefId, c: Choice)
    requires CanRun(Init, es) && id in Run(Init, es).thieves
    requires var p := StepThief(Run(Init, es), id, c).thieves; id in p && p[id].TRollback?
    ensures var s, skipped := Run(Init, es), ThiefVisit(Init, es, id, FIRST).skipped;
      && NothingLeft(s, skipped)
      && (s.owner == Idle ==> forall t :: t in s.spawned ==> t in s.out || t in skipped)
  {
    InitInv();
    ThiefWatched(Init, es, id, FIRST);
    var s, v := Run(Init, es), ThiefVisit(Init, es, id, FIRST);
    hide Run, CanRun, ThiefVisit, ThiefOk, StepThief, NothingLeft, Inv;
    TurnsBack(s, id, c, v);
    NothingBefore(s, id, v);
    if s.owner == Idle { IdleLeavesNothing(s, id, v); }
  }

  lemma IdleLeavesNothing(s: State, id: ThiefId, v: Visit)
    requires Inv(s) && id in s.thieves && s.owner == Idle && Before(s.loc, s.tail, v.skipped)
    ensures forall t :: t in s.spawned ==> t in s.out || t in v.skipped
  {
    hide ThievesInv, LockInv, OwnerInv;
  }

  lemma TakesFrom(s: State, id: ThiefId, c: Choice, t: Task, u: Task, v: Visit)
    requires Inv(s) && id in s.thieves && ThiefOk(s, id, v)
    requires t !in s.out && t in StepThief(s, id, c).out && u in s.loc
    ensures t in s.loc && (s.loc[u] < s.loc[t] ==> u in v.skipped)
  {
    OwnerSeenByThief(s, id);
    assert s.thieves[id].TRead? && At(s.pool, s.thieves[id].H - 1) == Has(t);
    hide StepThief, Accounted, OwnerInv, OwnerHi, OwnerLo, InCritical, Undecided;
  }

  /** What a thief takes is the oldest pending task it has not passed over. */
  lemma ThiefTakesOldest(es: seq<Event>, id: ThiefId, c: Choice, t: Task, u: Task)
    requires CanRun(Init, es) && id in Run(Init, es).thieves
    requires t !in Run(Init, es).out && t in StepThief(Run(Init, es), id, c).out
    requires u in Run(Init, es).loc
    ensures var s := Run(Init, es); t in s.loc && (s.loc[u] < s.loc[t] ==> u in ThiefVisit(Init, es, id, FIRST).skipped)
  {
    InitInv();
    hide Run, CanRun, ThiefVisit, Inv, StepThief;
    ThiefWatched(Init, es, id, FIRST);
    TakesFrom(Run(Init, es), id, c, t, u, ThiefVisit(Init, es, id, FIRST));
  }

  // --------------------------------------------------------------- owner

  function OwnerSkips(s: State, e: Event): set<Task> {
    if e == OwnerStep(Skip) && s.owner.GRead? then
      match At(s.pool, s.owner.T) case Hole => {} case Has(t) => {t}
    else {}
  }

  /** The owner's last call of `get_task`; a task freed as an emptied proxy is not taken. */
  function OwnerSees(s: State, e: Event, v: Visit): Visit
    requires Enabled(s, e)
  {
    if e == Get then FIRST
    else v.(skipped := v.skipped + OwnerSkips(s, e), took := v.took || (e == OwnerStep(Take) && Step(s, e).out != s.out))
  }

  function OwnerVisit(s: State, es: seq<Event>, v: Visit): Visit
    requires CanRun(s, es)
    decreases |es|
  {
    if es == [] then v else OwnerVisit(Step(s, es[0]), es[1..], OwnerSees(s, es[0], v))
  }

  /** All tasks at `p` and beyond were passed over. */
  ghost predicate From(loc: map<Task, int>, p: int, skipped: set<Task>) {
    forall t :: t in loc && loc[t] >= p ==> t in skipped
  }

  /** The owner is inside `get_task`. */
  predicate Getting(o: Owner) { o != Idle && Spawning(o) == {} && o != SpPublish }

  ghost predicate OwnerLooked(s: State, v: Visit) {
    match s.owner
    case GDec(_, _) => From(s.loc, s.tail, v.skipped)
    case GHead(_, T, _) => From(s.loc, T + 1, v.skipped)
    case GAcquire(_, T, _) => From(s.loc, T + 1, v.skipped)
    case GHead2(_, T, _) => From(s.loc, T + 1, v.skipped)
    case GRelease(_, T, _) => From(s.loc, T + 1, v.skipped)
    case GResetTail(_, T, _, _, _) => From(s.loc, T + 1, v.skipped)
    case GResetHead(_, T, _, _, _) => From(s.loc, T + 1, v.skipped)
    case GLeave(_, T, _, _, _) => From(s.loc, T + 1, v.skipped)
    case GRead(_, T, _, _, _) => From(s.loc, T + 1, v.skipped)
    case GHole(_, T, _, _) => From(s.loc, T, v.skipped)
    case GFinish(_, _, _, _, _, res) => if res then v.took else s.loc.Keys <= v.skipped
    case GPutHead(_, _) => v.took || s.loc.Keys <= v.skipped
    case GPutTail(_, _) => v.took || s.loc.Keys <= v.skipped
    case GPublish(_, _) => v.took || s.loc.Keys <= v.skipped
    case GPunch(_, _) => v.took
    case GPutBack(_, _) => v.took
    case _ => true
  }

  lemma CallBegins(s: State, e: Event, v: Visit)
    requires Inv(s) && Enabled(s, e) && (e.Spawn? || e.Get?)
    ensures OwnerLooked(Step(s, e), OwnerSees(s, e, v))
  {
    hide Accounted, ThievesInv, LockInv;
  }

  /** A thief takes tasks away at most. */
  lemma ThiefTakesAway(s: State, e: Event)
    requires Enabled(s, e) && (e.LockPool? || e.ThiefStep?)
    ensures var s' := Step(s, e); s'.owner == s.owner && s'.tail == s.tail && s'.spawned == s.spawned
    ensures forall t :: t in Step(s, e).loc ==> t in s.loc && Step(s, e).loc[t] == s.loc[t]
  {
  }

  lemma ThiefBesideOwner(s: State, e: Event, v: Visit)
    requires Enabled(s, e) && (e.LockPool? || e.ThiefStep?) && OwnerLooked(s, v)
    ensures OwnerLooked(Step(s, e), OwnerSees(s, e, v))
  {
    hide Step, Enabled;
    ThiefTakesAway(s, e);
    assert OwnerSees(s, e, v).skipped == v.skipped;
  }

  ghost predicate NoneBelow(loc: map<Task, int>, p: int) { forall t :: t in loc ==> loc[t] >= p }

  /** Where the tasks can be that the owner has still to look at. */
  ghost predicate Bounded(s: State) {
    match s.owner
    case GRead(_, T, _, _, empty) =>
      (forall t :: t in s.loc && s.loc[t] == T ==> At(s.pool, T) == Has(t)) && if empty then NoneBelow(s.loc, T) else s.tail == T
    case GHole(_, T, _, empty) => if empty then NoneBelow(s.loc, T) else s.tail == T
    case GFinish(_, _, _, _, empty, res) => empty || res
    case GResetTail(_, T, _, _, one) => !one ==> NoneBelow(s.loc, T + 1)
    case GResetHead(_, T, _, _, one) => !one ==> NoneBelow(s.loc, T + 1)
    case GLeave(_, T, _, _, one) => !one ==> NoneBelow(s.loc, T + 1)
    case _ => true
  }

  lemma InvBounded(s: State)
    requires Inv(s)
    ensures Bounded(s)
  {
    if s.owner.GRead? { OwnersCellIsFree(s); }
    hide Accounted, ThievesInv;
  }

  lemma OwnerTakes(s: State, v: Visit)
    requires Bounded(s) && OwnerLooked(s, v) && s.owner.GRead?
    ensures OwnerLooked(StepOwner(s, Take), OwnerSees(s, OwnerStep(Take), v))
  {
    hide StepOwner;
    OwnerTakesCell(s);
  }

  lemma OwnerTakesCell(s: State)
    requires s.owner.GRead?
    ensures var s' := StepOwner(s, Take);
      match At(s.pool, s.owner.T)
      case Hole => s' == s.(owner := s'.owner) && s'.out == s.out && s'.owner == NextRound(s.owner.T0, s.owner.T, s.owner.om, s.owner.H0, s.owner.empty)
      case Has(t) => |s'.out| > |s.out| && s'.loc == s.loc - {t} && s'.owner.GFinish? && s'.owner.res
  {
  }

  lemma OwnerPassesOver(s: State, c: Choice, v: Visit)
    requires Bounded(s) && OwnerLooked(s, v) && s.owner.GRead? && c != Take
    ensures OwnerLooked(StepOwner(s, c), OwnerSees(s, OwnerStep(c), v))
  {
  }

  lemma OwnerArbitrates(s: State, c: Choice, v: Visit)
    requires OwnerLooked(s, v)
    requires s.owner.GDec? || s.owner.GHead? || s.owner.GAcquire? || s.owner.GHead2? || s.owner.GRelease?
    ensures OwnerLooked(StepOwner(s, c), OwnerSees(s, OwnerStep(c), v))
  {
  }

  lemma OwnerResets(s: State, c: Choice, v: Visit)
    requires Bounded(s) && OwnerLooked(s, v) && (s.owner.GResetTail? || s.owner.GResetHead? || s.owner.GLeave?)
    ensures OwnerLooked(StepOwner(s, c), OwnerSees(s, OwnerStep(c), v))
  {
  }

  lemma OwnerFillsHole(s: State, c: Choice, v: Visit)
    requires Bounded(s) && OwnerLooked(s, v) && s.owner.GHole?
    ensures OwnerLooked(StepOwner(s, c), OwnerSees(s, OwnerStep(c), v))
  {
  }

  lemma OwnerEnds(s: State, c: Choice, v: Visit)
    requires Bounded(s) && OwnerLooked(s, v)
    requires s.owner.GFinish? || s.owner.GPutHead? || s.owner.GPutTail? || s.owner.GPublish? || s.owner.GPunch? || s.owner.GPutBack?
    ensures OwnerLooked(StepOwner(s, c), OwnerSees(s, OwnerStep(c), v))
  {
  }

  lemma OwnerSpawns(s: State, c: Choice, v: Visit)
    requires Spawning(s.owner) != {} || s.owner.SpPublish?
    ensures OwnerLooked(StepOwner(s, c), OwnerSees(s, OwnerStep(c), v))
  {
  }

  lemma OwnerSeen(s: State, e: Event, v: Visit)
    requires Inv(s) && Enabled(s, e) && OwnerLooked(s, v)
    ensures OwnerLooked(Step(s, e), OwnerSees(s, e, v))
  {
    hide Inv, OwnerLooked, OwnerSees, StepOwner, StepThief, Bounded;
    var o := s.owner;
    InvBounded(s);
    if !e.OwnerStep? {
      if e.Spawn? || e.Get? { CallBegins(s, e, v); } else { ThiefBesideOwner(s, e, v); }
    }
    else if o.GRead? {
      if e.c == Take { OwnerTakes(s, v); } else { OwnerPassesOver(s, e.c, v); }
    }
    else if o.GResetTail? || o.GResetHead? || o.GLeave? { OwnerResets(s, e.c, v); }
    else if o.GDec? || o.GHead? || o.GAcquire? || o.GHead2? || o.GRelease? { OwnerArbitrates(s, e.c, v); }
    else if Spawning(o) != {} || o.SpPublish? { OwnerSpawns(s, e.c, v); }
    else if o.GHole? { OwnerFillsHole(s, e.c, v); }
    else { OwnerEnds(s, e.c, v); }
  }

  lemma {:induction false} OwnerWatched(s: State, es: seq<Event>, v: Visit)
    requires Inv(s) && CanRun(s, es) && OwnerLooked(s, v)
    ensures Inv(Run(s, es)) && OwnerLooked(Run(s, es), OwnerVisit(s, es, v))
    decreases |es|
  {
    hide Inv, Step, Enabled, OwnerLooked, OwnerSees;
    if es != [] {
      StepInv(s, es[0]);
      OwnerSeen(s, es[0], v);
      OwnerWatched(Step(s, es[0]), es[1..], OwnerSees(s, es[0], v));
    }
  }

  lemma ReturnsWith(s: State, c: Choice, v: Visit)
    requires Inv(s) && OwnerLooked(s, v) && Getting(s.owner) && StepOwner(s, c).owner == Idle
    ensures v.took || forall t :: t in s.spawned ==> t in s.out || t in v.skipped
  {
    hide Located, ThievesInv, LockInv, OwnerInv, NoDuplicates;
  }

  /** A `get_task` that returns has taken a task, or every task spawned so far is out
      or was passed over by this call. */
  lemma OwnerReturnsWith(es: seq<Event>, c: Choice)
    requires CanRun(Init, es) && Getting(Run(Init, es).owner) && StepOwner(Run(Init, es), c).owner == Idle
    ensures var s, v := Run(Init, es), OwnerVisit(Init, es, FIRST);
      v.took || forall t :: t in s.spawned ==> t in s.out || t in v.skipped
  {
    InitInv();
    hide Run, CanRun, OwnerVisit, Inv, StepOwner;
    OwnerWatched(Init, es, FIRST);
    ReturnsWith(Run(Init, es), c, OwnerVisit(Init, es, FIRST));
  }

  lemma GetsFrom(s: State, t: Task, u: Task, v: Visit)
    requires Inv(s) && OwnerLooked(s, v)
    requires t !in s.out && t in StepOwner(s, Take).out && u in s.loc
    ensures t in s.loc && (s.loc[u] > s.loc[t] ==> u in v.skipped)
  {
    assert s.owner.GRead? && At(s.pool, s.owner.T) == Has(t);
    OwnersCellIsFree(s);
    hide StepOwner, Accounted, OwnerInv, LockInv, ThievesInv;
  }

  /** What the owner takes is the newest pending task it has not passed over. */
  lemma OwnerTakesNewest(es: seq<Event>, t: Task, u: Task)
    requires CanRun(Init, es) && t !in Run(Init, es).out && t in StepOwner(Run(Init, es), Take).out
    requires u in Run(Init, es).loc
    ensures var s := Run(Init, es); t in s.loc && (s.loc[u] > s.loc[t] ==> u in OwnerVisit(Init, es, FIRST).skipped)
  {
    InitInv();
    hide Run, CanRun, OwnerVisit, Inv, StepOwner;
    OwnerWatched(Init, es, FIRST);
    GetsFrom(Run(Init, es), t, u, OwnerVisit(Init, es, FIRST));
  }

  // --------------------------------------------------- what `om` is about

  /** `tasks_omitted` tells whether something was passed over in this call. */
  predicate OmittedOk(o: Owner, skipped: set<Task>) {
    match o
    case GDec(_, om) => om <==> skipped != {}
    case GHead(_, _, om) => om <==> skipped != {}
    case GAcquire(_, _, om) => om <==> skipped != {}
    case GHead2(_, _, om) => om <==> skipped != {}
    case GResetTail(_, _, om, _, _) => om <==> skipped != {}
    case GResetHead(_, _, om, _, _) => om <==> skipped != {}
    case GLeave(_, _, om, _, _) => om <==> skipped != {}
    case GRelease(_, _, om) => om <==> skipped != {}
    case GRead(_, _, om, _, _) => om <==> skipped != {}
    case GFinish(_, _, om, _, _, _) => om <==> skipped != {}
    case _ => Getting(o) ==> skipped != {}
  }

  lemma OwnerOmits(s: State, e: Event, v: Visit)
    requires Enabled(s, e) && e.OwnerStep? && OmittedOk(s.owner, v.skipped)
    ensures OmittedOk(Step(s, e).owner, OwnerSees(s, e, v).skipped)
  {
    hide Relocated, Rank;
    if s.owner.GRead? && At(s.pool, s.owner.T).Has? && e.c == Skip {
      assert At(s.pool, s.owner.T).t in OwnerSees(s, e, v).skipped;
    }
  }

  lemma StepOmits(s: State, e: Event, v: Visit)
    requires Enabled(s, e) && OmittedOk(s.owner, v.skipped)
    ensures OmittedOk(Step(s, e).owner, OwnerSees(s, e, v).skipped)
  {
    hide StepOwner, StepThief;
    if e.OwnerStep? { OwnerOmits(s, e, v); }
    else if !e.Spawn? && !e.Get? { ThiefTakesAway(s, e); assert OwnerSees(s, e, v).skipped == v.skipped; }
  }

  lemma {:induction false} RunOmits(s: State, es: seq<Event>, v: Visit)
    requires CanRun(s, es) && OmittedOk(s.owner, v.skipped)
    ensures OmittedOk(Run(s, es).owner, OwnerVisit(s, es, v).skipped)
    decreases |es|
  {
    hide Step, Enabled, OmittedOk, OwnerSees;
    if es != [] {
      StepOmits(s, es[0], v);
      RunOmits(Step(s, es[0]), es[1..], OwnerSees(s, es[0], v));
    }
  }

  /** A `get_task` ends with its bounds put back and a hole, or the pool republished,
      if and only if it has passed over a task; emptied proxies that were freed do
      not count. */
  lemma OmittedTells(es: seq<Event>)
    requires CanRun(Init, es)
    ensures OmittedOk(Run(Init, es).owner, OwnerVisit(Init, es, FIRST).skipped)
  {
    RunOmits(Init, es, FIRST);
  }

  /** The same for a thief, which then leaves a hole and puts the head back. */
  ghost predicate ThiefOmitted(s: State, id: ThiefId, skipped: set<Task>) {
    id in s.thieves ==>
      match s.thieves[id]
      case TInc(_, om) => om <==> skipped != {}
      case TTail(_, _, om) => om <==> skipped != {}
      case TRead(_, _, om) => om <==> skipped != {}
      case TPunch(_, _) => skipped != {}
      case TPutHead(_, _) => skipped != {}
      case THead => skipped == {}
      case _ => true
  }

  lemma ThiefOmits(s: State, id: ThiefId, c: Choice, v: Visit)
    requires id in s.thieves && ThiefOmitted(s, id, v.skipped)
    ensures ThiefOmitted(StepThief(s, id, c), id, ThiefSees(s, ThiefStep(id, c), id, v).skipped)
  {
    hide NothingLeft;
    if s.thieves[id].TRead? {
      match At(s.pool, s.thieves[id].H - 1)
      case Hole =>
      case Has(t) => if c != Take { assert t in ThiefSees(s, ThiefStep(id, c), id, v).skipped; }
    }
  }

  lemma SpawnLeavesThieves(s: State, c: Choice)
    requires !Getting(s.owner)
    ensures StepOwner(s, c).thieves == s.thieves
  {
    hide Relocated, Rank, Compact;
  }

  lemma GetLeavesThieves(s: State, c: Choice)
    requires Getting(s.owner)
    ensures StepOwner(s, c).thieves == s.thieves
  {
    hide NextRound, At, Relocate;
  }

  lemma OwnerLeavesThieves(s: State, c: Choice)
    ensures StepOwner(s, c).thieves == s.thieves
  {
    hide StepOwner;
    if Getting(s.owner) { GetLeavesThieves(s, c); } else { SpawnLeavesThieves(s, c); }
  }

  lemma StepThiefOmits(s: State, e: Event, id: ThiefId, v: Visit)
    requires Enabled(s, e) && ThiefOmitted(s, id, v.skipped)
    ensures ThiefOmitted(Step(s, e), id, ThiefSees(s, e, id, v).skipped)
  {
    hide NothingLeft, StepOwner;
    if e.ThiefStep? && e.id == id { hide StepThief, ThiefOmitted, ThiefSees; ThiefOmits(s, id, e.d, v); }
    else if e.OwnerStep? { OwnerLeavesThieves(s, e.c); }
  }

  lemma {:induction false} RunThiefOmits(s: State, es: seq<Event>, id: ThiefId, v: Visit)
    requires CanRun(s, es) && ThiefOmitted(s, id, v.skipped)
    ensures ThiefOmitted(Run(s, es), id, ThiefVisit(s, es, id, v).skipped)
    decreases |es|
  {
    hide Step, Enabled, ThiefOmitted, ThiefSees;
    if es != [] {
      StepThiefOmits(s, es[0], id, v);
      RunThiefOmits(Step(s, es[0]), es[1..], id, ThiefSees(s, es[0], id, v));
    }
  }

  /** A thief leaves a hole and puts the head back if and only if it has passed over a
      task in this visit; otherwise the head stays behind the task it took. */
  lemma ThiefOmittedTells(es: seq<Event>, id: ThiefId)
    requires CanRun(Init, es)
    ensures ThiefOmitted(Run(Init, es), id, ThiefVisit(Init, es, id, FIRST).skipped)
  {
    RunThiefOmits(Init, es, id, FIRST);
  }

  // ------------------------------------------------------------- waiting

  lemma OwnerStandsStill(s: State, c: Choice)
    requires Inv(s) && s.owner != Idle && !s.owner.SpCopy? && StepOwner(s, c) == s
    ensures (s.owner.SpAcquire? || s.owner.GAcquire?) && s.word == Locked
  {
    hide ThiefInv, Located, Accounted, Relocate;
    var o := s.owner;
    if o.GRead? { OwnersCellIsFree(s); ExamineGoesOn(s, c); }
    assert o.GFinish? ==> StepOwner(s, c).owner != o;
  }

  lemma ExamineGoesOn(s: State, c: Choice)
    requires s.owner.GRead?
    ensures !StepOwner(s, c).owner.GRead?
  {
  }

  lemma CopyGoesOn(s: State, c: Choice)
    requires Inv(s) && s.owner.SpCopy?
    ensures StepOwner(s, c).owner.SpPutHead?
  {
    hide ThiefInv, Accounted, Relocated, Rank;
  }

  /** The owner waits for the lock only, and only while a thief has it. */
  lemma OwnerWaitsForThief(s: State, c: Choice)
    requires Inv(s) && s.owner != Idle && StepOwner(s, c) == s
    ensures (s.owner.SpAcquire? || s.owner.GAcquire?) && s.word == Locked && exists id :: id in s.thieves
  {
    if s.owner.SpCopy? { CopyGoesOn(s, c); }
    OwnerStandsStill(s, c);
    hide StepOwner, ThiefInv, Located, Accounted;
    assert s.holder.ByThief? && s.holder.id in s.thieves;
  }

  /** A thief that has the lock never waits. */
  lemma ThiefGoesOn(s: State, id: ThiefId, c: Choice)
    requires id in s.thieves
    ensures id in StepThief(s, id, c).thieves ==> StepThief(s, id, c).thieves[id] != s.thieves[id]
  {
  }
}
