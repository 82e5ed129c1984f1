/** The limit on the tokens of a pipeline of two filters or more, or of one parallel
    filter. Tasks are told apart by where they stand only, so the state counts them.
    One event is one load, store, fetch-add, spawn, or call of the first filter. */
module PipelineThrottle {

  /** `serial`: the first filter is serial. `tokens` is `input_tokens`, `ended` the
      end-of-input flag. Then the tasks: `atStart` have not read input yet, `reading`
      are about to take a token, `spawning` have taken one and are to spawn the next
      input task, `inside` are in a parallel first filter, `flying` carry an item on
      or wait in a buffer with it, `deciding` gave the last missing token back and
      look whether to become the input task, `ending` found the end of input. `lost`
      counts the tasks of a parallel first filter that were given a token and found
      the end. */
  datatype State = State(
    max: nat, serial: bool, tokens: int, ended: bool, atStart: nat, reading: nat, spawning: nat,
    inside: nat, flying: nat, deciding: nat, ending: nat, lost: nat)

  datatype Event =
    | ReadItem | ReadEnd
    | LoadEnd
    | TakeToken
    | SpawnNext
    | FilterItem | FilterEnd
    | StoreEnd
    | Stop
    | GiveBack
    | Decide

  function Init(max: nat, serial: bool): State {
    State(max, serial, max, false, 1, 0, 0, 0, 0, 0, 0, 0)
  }

  predicate Enabled(s: State, e: Event) {
    match e
    case ReadItem => s.serial && s.atStart > 0
    case ReadEnd => s.serial && s.atStart > 0
    case LoadEnd => !s.serial && s.atStart > 0
    case TakeToken => s.reading > 0
    case SpawnNext => s.spawning > 0
    case FilterItem => s.inside > 0
    case FilterEnd => s.inside > 0
    case StoreEnd => s.ending > 0
    case Stop => true
    case GiveBack => s.flying > 0
    case Decide => s.deciding > 0
  }

  /** A task that has its token goes into a parallel first filter, or carries the item
      it has read on. */
  function Onward(s: State): State {
    if s.serial then s.(flying := s.flying + 1) else s.(inside := s.inside + 1)
  }

  function Next(s: State, e: Event): State
    requires Enabled(s, e)
  {
    match e
    case ReadItem => s.(atStart := s.atStart - 1, reading := s.reading + 1)
    case ReadEnd => s.(atStart := s.atStart - 1, ending := s.ending + 1)
    case LoadEnd =>
      var s' := s.(atStart := s.atStart - 1);
      if s.ended then s' else s'.(reading := s.reading + 1)
    case TakeToken =>
      var s' := s.(tokens := s.tokens - 1, reading := s.reading - 1);
      if s.tokens > 1 then s'.(spawning := s.spawning + 1) else Onward(s')
    case SpawnNext => Onward(s.(spawning := s.spawning - 1, atStart := s.atStart + 1))
    case FilterItem => s.(inside := s.inside - 1, flying := s.flying + 1)
    case FilterEnd => s.(inside := s.inside - 1, ending := s.ending + 1, lost := s.lost + 1)
    case StoreEnd => s.(ending := s.ending - 1, ended := true)
    case Stop => s.(ended := true)
    case GiveBack =>
      var s' := s.(tokens := s.tokens + 1, flying := s.flying - 1);
      if s.tokens > 0 then s' else s'.(deciding := s.deciding + 1)
    case Decide =>
      var s' := s.(deciding := s.deciding - 1);
      if s.ended then s' else s'.(atStart := s.atStart + 1)
  }

  predicate CanRun(s: State, es: seq<Event>)
    decreases |es|
  {
    es == [] || (Enabled(s, es[0]) && CanRun(Next(s, es[0]), es[1..]))
  }

  function Run(s: State, es: seq<Event>): State
    requires CanRun(s, es)
    decreases |es|
  {
    if es == [] then s else Run(Next(s, es[0]), es[1..])
  }

  /** The tasks with a token and an item, or about to have one. */
  function InFlight(s: State): nat { s.spawning + s.inside + s.flying }

  /** The input task: there, about to be spawned, or about to be made from a task that
      is through. */
  function InputTasks(s: State): nat {
    s.atStart + s.reading + s.spawning + s.deciding + if s.serial then s.ending else 0
  }

  predicate Inv(s: State) {
    && s.tokens >= 0
    && s.tokens + InFlight(s) + s.lost == s.max
    && (if s.serial then s.lost == 0 && s.inside == 0 else s.ending <= s.lost && (!s.ended ==> s.ending == s.lost))
    && InputTasks(s) <= 1
    && (InputTasks(s) == 1 ==> s.tokens > 0)
    && (!s.ended && s.tokens > 0 ==> InputTasks(s) == 1)
  }

  lemma InputStep(s: State, e: Event)
    requires Inv(s) && Enabled(s, e) && (e.ReadItem? || e.ReadEnd? || e.LoadEnd? || e.TakeToken? || e.SpawnNext?)
    ensures Inv(Next(s, e)) && Next(s, e).serial == s.serial && Next(s, e).max == s.max
  {
  }

  lemma ItemStep(s: State, e: Event)
    requires Inv(s) && Enabled(s, e) && !(e.ReadItem? || e.ReadEnd? || e.LoadEnd? || e.TakeToken? || e.SpawnNext?)
    ensures Inv(Next(s, e)) && Next(s, e).serial == s.serial && Next(s, e).max == s.max
  {
  }

  lemma {:induction false} RunInv(s: State, es: seq<Event>)
    requires Inv(s) && CanRun(s, es)
    ensures Inv(Run(s, es)) && Run(s, es).serial == s.serial && Run(s, es).max == s.max
    decreases |es|
  {
    hide Inv, Next, Enabled;
    if es != [] {
      var e := es[0];
      if e.ReadItem? || e.ReadEnd? || e.LoadEnd? || e.TakeToken? || e.SpawnNext? {
        InputStep(s, e);
      } else {
        ItemStep(s, e);
      }
      RunInv(Next(s, e), es[1..]);
    }
  }

  /** In every run with at least one token, until the end of input the tokens taken are
      those of the items in flight, and there is an input task exactly while a token
      is left, and then one: input neither stalls nor doubles. */
  lemma Throttled(max: nat, serial: bool, es: seq<Event>)
    requires max > 0 && CanRun(Init(max, serial), es)
    ensures var s := Run(Init(max, serial), es);
      !s.ended ==>
        && InFlight(s) + (if serial then 0 else s.ending) == max - s.tokens
        && (InputTasks(s) == 1 <==> s.tokens > 0)
        && (InputTasks(s) == 0 <==> s.tokens == 0)
        && InputTasks(s) + InFlight(s) + s.ending > 0
  {
    RunInv(Init(max, serial), es);
  }

  /** After the end of input as well as before, no more items are in flight than there
      are tokens, the counter stays between 0 and the number of tokens, and at most
      one task is at the input, so that a serial first filter needs no lock. */
  lemma NeverOverLimit(max: nat, serial: bool, es: seq<Event>)
    requires max > 0 && CanRun(Init(max, serial), es)
    ensures var s := Run(Init(max, serial), es);
      && InFlight(s) <= max && 0 <= s.tokens <= max
      && InputTasks(s) <= 1
      && (s.reading > 0 ==> s.tokens > 0)
  {
    RunInv(Init(max, serial), es);
  }

  // -------------------------------------------------- after the end of input

  /** The input is over: the end was seen and no task is on its way to the input. */
  predicate Over(s: State) { s.ended && s.atStart + s.reading + s.spawning == 0 }

  lemma StaysOver(s: State, e: Event)
    requires Inv(s) && s.serial && Over(s) && Enabled(s, e)
    ensures Over(Next(s, e)) && !e.ReadItem? && !e.ReadEnd?
  {
  }

  lemma {:induction false} RunStaysOver(s: State, es: seq<Event>)
    requires Inv(s) && s.serial && Over(s) && CanRun(s, es)
    ensures ReadItem !in es && ReadEnd !in es
    decreases |es|
  {
    if es != [] {
      StaysOver(s, es[0]);
      RunInv(s, es[..1]);
      assert Run(s, es[..1]) == Next(s, es[0]) by { assert es[..1] == [es[0]] && [es[0]][1..] == []; }
      RunStaysOver(Next(s, es[0]), es[1..]);
    }
  }

  /** Once a task has stored that a serial input is at its end, the input is not read
      again, whatever is still in flight. */
  lemma NothingReadAfterEnd(max: nat, es: seq<Event>, later: seq<Event>)
    requires max > 0 && CanRun(Init(max, true), es) && Enabled(Run(Init(max, true), es), StoreEnd)
    requires CanRun(Next(Run(Init(max, true), es), StoreEnd), later)
    ensures ReadItem !in later && ReadEnd !in later
  {
    RunInv(Init(max, true), es);
    var s := Run(Init(max, true), es);
    hide Run, CanRun;
    ItemStep(s, StoreEnd);
    RunStaysOver(Next(s, StoreEnd), later);
  }

  /** The tasks that have found the flag down and have not called the parallel filter yet. */
  function Admitted(s: State): nat { s.reading + s.spawning + s.inside }

  function Calls(es: seq<Event>): nat {
    if es == [] then 0 else (if es[0].FilterItem? || es[0].FilterEnd? then 1 else 0) + Calls(es[1..])
  }

  lemma StaysEnded(s: State, e: Event)
    requires !s.serial && s.ended && Enabled(s, e)
    ensures var s' := Next(s, e);
      s'.ended && !s'.serial && Admitted(s') + (if e.FilterItem? || e.FilterEnd? then 1 else 0) == Admitted(s)
  {
  }

  lemma {:induction false} RunStaysEnded(s: State, es: seq<Event>)
    requires !s.serial && s.ended && CanRun(s, es)
    ensures Calls(es) + Admitted(Run(s, es)) == Admitted(s)
    decreases |es|
  {
    hide Next, Enabled;
    if es != [] {
      StaysEnded(s, es[0]);
      RunStaysEnded(Next(s, es[0]), es[1..]);
    }
  }

  /** Once a filter has stopped the pipeline, or the end of input was stored, a parallel
      input is called by those tasks only that had passed the check before. */
  lemma OnlyAdmittedCall(s: State, e: Event, es: seq<Event>)
    requires !s.serial && (e.Stop? || e.StoreEnd?) && Enabled(s, e) && CanRun(Next(s, e), es)
    ensures Calls(es) + Admitted(Run(Next(s, e), es)) == Admitted(s)
  {
    RunStaysEnded(Next(s, e), es);
  }

  /** What is left to do once the input has ended. */
  function Work(s: State): nat {
    s.ending + s.deciding + s.atStart + 2 * s.flying + 3 * s.inside + 5 * s.spawning + 6 * s.reading
  }

  lemma StepDrains(s: State, e: Event)
    requires s.ended && Enabled(s, e) && e != Stop && (!s.serial || Over(s))
    ensures var s' := Next(s, e); s'.ended && s'.serial == s.serial && (s'.serial ==> Over(s')) && Work(s') < Work(s)
  {
  }

  /** After the end of input the pipeline drains: every run that goes on is bounded by
      the work there is. */
  lemma {:induction false} Drains(s: State, es: seq<Event>)
    requires s.ended && (!s.serial || Over(s)) && CanRun(s, es) && Stop !in es
    ensures |es| <= Work(s)
    decreases |es|
  {
    hide Next, Enabled, Work, Over;
    if es != [] {
      StepDrains(s, es[0]);
      Drains(Next(s, es[0]), es[1..]);
    }
  }
}
