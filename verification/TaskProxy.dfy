/** A mailed task stands behind one proxy that lies in two places, the sender's
    task pool and the addressee's mailbox. Whoever takes the proxy from either
    place tries to extract the task with a compare-exchange of a tagged word;
    the other one finds the proxy empty and frees it. */
module TaskProxy {

  const POOL_BIT: nat := 1
  const MAILBOX_BIT: nat := 2
  const LOCATION_MASK: nat := 3

  /** `task_and_tag`: a task pointer, a positive multiple of 4, plus the two bits. */
  type Word = nat

  predicate IsTask(task: nat) { task > 0 && task % 4 == 0 }

  function TaskPtr(tat: Word): (task: nat)
    ensures task % 4 == 0 && task <= tat < task + 4
  {
    tat - tat % 4
  }

  predicate IsShared(tat: Word) { tat % 4 == LOCATION_MASK }

  /** The side from which the proxy was taken. */
  datatype Side = Pool | Mailbox

  function Bit(side: Side): Word { if side == Pool then POOL_BIT else MAILBOX_BIT }

  function Other(side: Side): Side { if side == Pool then Mailbox else Pool }

  /** Where `extract_task` stands on one side: the proxy not yet taken from its
      place, taken, its word loaded, found empty, freed; or the task obtained. */
  datatype Extract = InPlace | Taken | Loaded(tat: Word) | Empty | Freed | Got(task: nat)

  datatype State = State(word: Word, at: map<Side, Extract>, frees: nat)

  datatype Event = Step(side: Side)

  function Init(task: nat): State {
    State(task + LOCATION_MASK, map[Pool := InPlace, Mailbox := InPlace], 0)
  }

  function At(s: State, side: Side): Extract {
    if side in s.at then s.at[side] else InPlace
  }

  function Go(s: State, side: Side, x: Extract): State {
    s.(at := s.at[side := x])
  }

  predicate Enabled(s: State, side: Side) { !At(s, side).Got? && !At(s, side).Freed? }

  function Next(s: State, side: Side): State
    requires Enabled(s, side)
  {
    match At(s, side)
    case InPlace => Go(s, side, Taken)
    case Taken => Go(s, side, if s.word == Bit(side) then Empty else Loaded(s.word))
    case Loaded(tat) =>
      if s.word == tat then Go(s.(word := LOCATION_MASK - Bit(side)), side, Got(TaskPtr(tat)))
      else Go(s, side, Empty)
    case Empty => Go(s.(frees := s.frees + 1), side, Freed)
  }

  predicate CanRun(s: State, es: seq<Event>)
    decreases |es|
  {
    es == [] || (Enabled(s, es[0].side) && CanRun(Next(s, es[0].side), es[1..]))
  }

  function Run(s: State, es: seq<Event>): State
    requires CanRun(s, es)
    decreases |es|
  {
    if es == [] then s else Run(Next(s, es[0].side), es[1..])
  }

  /** The side has not got beyond loading the full word. */
  predicate StillTrying(task: nat, x: Extract) {
    x == InPlace || x == Taken || x == Loaded(task + LOCATION_MASK)
  }

  /** `side` has the task and the word tells the other side to free the proxy. */
  predicate WonBy(task: nat, s: State, side: Side) {
    var x := At(s, Other(side));
    && At(s, side) == Got(task) && s.word == Bit(Other(side))
    && (StillTrying(task, x) || x == Empty || x == Freed)
    && s.frees == if x == Freed then 1 else 0
  }

  predicate Inv(task: nat, s: State) {
    && IsTask(task)
    && if s.word == task + LOCATION_MASK
       then StillTrying(task, At(s, Pool)) && StillTrying(task, At(s, Mailbox)) && s.frees == 0
       else WonBy(task, s, Pool) || WonBy(task, s, Mailbox)
  }

  lemma Untag(task: nat)
    requires IsTask(task)
    ensures TaskPtr(task + LOCATION_MASK) == task && IsShared(task + LOCATION_MASK)
  {
  }

  lemma StepInv(task: nat, s: State, side: Side)
    requires Inv(task, s) && Enabled(s, side)
    ensures Inv(task, Next(s, side))
  {
    Untag(task);
    hide TaskPtr, IsShared;
    var s' := Next(s, side);
    assert At(s', side) == s'.at[side] && At(s', Other(side)) == At(s, Other(side));
  }

  lemma {:induction false} RunInv(task: nat, s: State, es: seq<Event>)
    requires Inv(task, s) && CanRun(s, es)
    ensures Inv(task, Run(s, es))
    decreases |es|
  {
    if es != [] {
      var side := es[0].side;
      StepInv(task, s, side);
      RunInv(task, Next(s, side), es[1..]);
    }
  }

  /** A side still holds a pointer to the proxy that it may follow. */
  predicate MayTouch(x: Extract) { x == InPlace || x == Taken || x.Loaded? || x == Empty }

  /** In every interleaving at most one side obtains the task, and it is the task
      that was mailed; the proxy is freed at most once, and only when neither
      side will touch it again. When both are through, one has the task and the
      other has freed the proxy. */
  lemma ClaimedOnceFreedOnce(task: nat, es: seq<Event>)
    requires IsTask(task) && CanRun(Init(task), es)
    ensures var s := Run(Init(task), es); var p, m := At(s, Pool), At(s, Mailbox);
      && !(p.Got? && m.Got?)
      && (p.Got? ==> p.task == task) && (m.Got? ==> m.task == task)
      && s.frees <= 1
      && (s.frees > 0 ==> !MayTouch(p) && !MayTouch(m))
      && (!MayTouch(p) && !MayTouch(m) ==> s.frees == 1 && (p.Got? <==> m.Freed?) && (m.Got? <==> p.Freed?))
  {
    RunInv(task, Init(task), es);
  }

  /** What the source asserts of the word at the load and after a failed exchange:
      it names one side alone only to a side that finds the proxy empty, and
      otherwise is shared and carries the task. */
  lemma TagIsConsistent(task: nat, es: seq<Event>, side: Side)
    requires IsTask(task) && CanRun(Init(task), es)
    ensures var s := Run(Init(task), es);
      && (At(s, side) == Taken ==> s.word == Bit(side) || (IsShared(s.word) && TaskPtr(s.word) == task))
      && (At(s, side).Loaded? && s.word != At(s, side).tat ==> s.word == Bit(side))
  {
    RunInv(task, Init(task), es);
  }
}
