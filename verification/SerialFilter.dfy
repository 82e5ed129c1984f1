/** A serial filter of a pipeline. Tasks arrive at its buffer in any order of their
    tokens; the one whose turn it is goes on into the filter, the others wait;
    whoever leaves the filter passes the turn on. One event is one call of
    `try_put_token` or `try_to_spawn_task_for_next_token`, each under the mutex. */
module SerialFilter {
  import opened TokenBuffer

  /** `inside` are the tokens of the tasks in the filter or spawned to enter it,
      `log` the tasks that were let in, in that order. `arrived` and `arrivals`
      are the tasks that came, by token and by time. `numbering`: the buffer gives
      the tokens out itself, as for a filter that keeps no order or is the first
      to keep it; otherwise every task brings its token along. */
  datatype State = State(
    buf: Buffer, numbering: bool, inside: set<nat>, log: seq<TaskInfo>,
    arrived: map<nat, TaskInfo>, arrivals: seq<TaskInfo>)

  datatype Event = Arrive(info: TaskInfo) | Finish(token: nat)

  function Init(ordered: bool, numbering: bool): State {
    State(Buffer(ordered, 0, 0, map[]), numbering, {}, [], map[], [])
  }

  predicate Enabled(s: State, e: Event) {
    match e
    case Arrive(info) =>
      Numbers(s.buf, info) == s.numbering && (!s.numbering ==> info.token !in s.arrived)
    case Finish(token) => token in s.inside
  }

  function Next(s: State, e: Event): State
    requires Enabled(s, e)
  {
    match e
    case Arrive(info) =>
      var token, stamped := TokenOf(s.buf, info), Stamped(s.buf, info);
      var s' := s.(buf := Put(s.buf, info), arrived := s.arrived[token := stamped], arrivals := s.arrivals + [stamped]);
      if token == s.buf.low then s'.(inside := s.inside + {token}, log := s.log + [stamped]) else s'
    case Finish(token) =>
      var s' := s.(buf := Advance(s.buf), inside := s.inside - {token});
      var next := s.buf.low + 1;
      if next in s.buf.pending then
        s'.(inside := s'.inside + {next}, log := s.log + [s.buf.pending[next]])
      else s'
  }

  predicate CanRun(s: State, es: seq<Event>)
    decreases |es|
  {
    es == [] || (Enabled(s, es[0]) && CanRun(Next(s, es[0]), es[1..]))
  }

  function Run(s: State, es: seq<Event>): State
    requires CanRun(s, es)
    decreases |es|
  {
    if es == [] then s else Run(Next(s, es[0]), es[1..])
  }

  // ------------------------------------------------------------ invariant

  ghost predicate Queueing(s: State) {
    var low := s.buf.low;
    && s.inside == (if low in s.arrived then {low} else {})
    && (forall t :: 0 <= t < low ==> t in s.arrived)
    && (forall t :: t in s.buf.pending <==> t in s.arrived && t > low)
    && (forall t :: t in s.buf.pending ==> s.buf.pending[t] == s.arrived[t])
  }

  ghost predicate Logged(s: State) {
    && |s.log| == s.buf.low + |s.inside|
    && (forall i :: 0 <= i < |s.log| ==> i in s.arrived && s.log[i] == s.arrived[i])
  }

  ghost predicate Numbered(s: State) {
    && (s.buf.ordered ==> forall t :: t in s.arrived ==> s.arrived[t].token == t)
    && (s.numbering ==> s.buf.high == |s.arrivals|)
    && (s.numbering ==> forall t :: t in s.arrived <==> 0 <= t < |s.arrivals|)
    && (s.numbering ==> forall t :: 0 <= t < |s.arrivals| ==> s.arrived[t] == s.arrivals[t])
  }

  ghost predicate Inv(s: State) { Queueing(s) && Logged(s) && Numbered(s) }

  lemma TokenIsNew(s: State, info: TaskInfo)
    requires Numbered(s) && Enabled(s, Arrive(info))
    ensures TokenOf(s.buf, info) !in s.arrived
  {
  }

  lemma ArriveQueueing(s: State, info: TaskInfo)
    requires Queueing(s) && Enabled(s, Arrive(info)) && TokenOf(s.buf, info) !in s.arrived
    ensures Queueing(Next(s, Arrive(info)))
  {
    hide Stamped, TokenOf, Numbers;
  }

  lemma ArriveLogged(s: State, info: TaskInfo)
    requires Queueing(s) && Logged(s) && Enabled(s, Arrive(info)) && TokenOf(s.buf, info) !in s.arrived
    ensures Logged(Next(s, Arrive(info)))
  {
    hide Stamped, TokenOf, Numbers;
  }

  lemma ArriveNumbered(s: State, info: TaskInfo)
    requires Numbered(s) && Enabled(s, Arrive(info))
    ensures Numbered(Next(s, Arrive(info)))
  {
  }

  lemma ArriveInv(s: State, info: TaskInfo)
    requires Inv(s) && Enabled(s, Arrive(info))
    ensures Inv(Next(s, Arrive(info)))
  {
    hide Queueing, Logged, Numbered;
    TokenIsNew(s, info);
    ArriveQueueing(s, info);
    ArriveLogged(s, info);
    ArriveNumbered(s, info);
  }

  lemma FinishQueueing(s: State, token: nat)
    requires Queueing(s) && Enabled(s, Finish(token))
    ensures token == s.buf.low && Queueing(Next(s, Finish(token)))
  {
    assert token == s.buf.low && s.inside - {token} == {};
  }

  lemma FinishLogged(s: State, token: nat)
    requires Queueing(s) && Logged(s) && Enabled(s, Finish(token))
    ensures Logged(Next(s, Finish(token)))
  {
    assert token == s.buf.low && s.inside - {token} == {};
  }

  lemma FinishInv(s: State, token: nat)
    requires Inv(s) && Enabled(s, Finish(token))
    ensures Inv(Next(s, Finish(token)))
  {
    hide Queueing, Logged;
    FinishQueueing(s, token);
    FinishLogged(s, token);
  }

  // ------------------------------------------------------ what has come

  function CameNow(e: Event): seq<TaskInfo> { match e case Arrive(info) => [info] case Finish(_) => [] }

  /** The records as they came, in the order of their arrival. */
  function Came(es: seq<Event>): seq<TaskInfo> {
    if es == [] then [] else CameNow(es[0]) + Came(es[1..])
  }

  /** The token of an arrival: its number, or the token it brought along. */
  function TokenAt(numbering: bool, came: seq<TaskInfo>, j: nat): nat
    requires j < |came|
  {
    if numbering then j else came[j].token
  }

  ghost predicate HasCome(numbering: bool, came: seq<TaskInfo>, t: nat) {
    exists j :: 0 <= j < |came| && TokenAt(numbering, came, j) == t
  }

  /** The record of token `t` in the filter: what came, the token noted if order is kept. */
  function Item(ordered: bool, t: nat, info: TaskInfo): TaskInfo {
    TaskInfo(info.item, if ordered then t else info.token, ordered || info.tokenReady, true)
  }

  /** `info` is the record of something that came with token `t`. */
  ghost predicate IsItemOf(ordered: bool, numbering: bool, came: seq<TaskInfo>, t: nat, info: TaskInfo) {
    exists j :: 0 <= j < |came| && TokenAt(numbering, came, j) == t && info == Item(ordered, t, came[j])
  }

  ghost predicate Recorded(s: State, came: seq<TaskInfo>) {
    && |s.arrivals| == |came|
    && (forall j :: 0 <= j < |came| ==>
         var t := TokenAt(s.numbering, came, j);
         t in s.arrived && s.arrived[t] == Item(s.buf.ordered, t, came[j]))
    && (forall t :: t in s.arrived ==> HasCome(s.numbering, came, t))
  }

  lemma ArriveRecorded(s: State, info: TaskInfo, came: seq<TaskInfo>)
    requires Numbered(s) && Recorded(s, came) && Enabled(s, Arrive(info))
    ensures Recorded(Next(s, Arrive(info)), came + [info])
  {
    var s', came', t := Next(s, Arrive(info)), came + [info], TokenOf(s.buf, info);
    assert t == TokenAt(s.numbering, came', |came|);
    assert s'.arrived == s.arrived[t := Item(s.buf.ordered, t, info)];
    forall j | 0 <= j < |came'|
      ensures var u := TokenAt(s.numbering, came', j); u in s'.arrived && s'.arrived[u] == Item(s.buf.ordered, u, came'[j])
    {
      if j < |came| { assert TokenAt(s.numbering, came', j) == TokenAt(s.numbering, came, j); }
    }
    forall u | u in s'.arrived ensures HasCome(s.numbering, came', u) {
      if u != t {
        var j :| 0 <= j < |came| && TokenAt(s.numbering, came, j) == u;
        assert TokenAt(s.numbering, came', j) == u;
      }
    }
  }

  lemma FinishRecorded(s: State, token: nat, came: seq<TaskInfo>)
    requires Recorded(s, came) && Enabled(s, Finish(token))
    ensures Recorded(Next(s, Finish(token)), came)
  {
    hide HasCome;
  }

  lemma StepRecorded(s: State, e: Event, came: seq<TaskInfo>)
    requires Inv(s) && Recorded(s, came) && Enabled(s, e)
    ensures var s' := Next(s, e);
      Inv(s') && Recorded(s', came + CameNow(e)) && s'.numbering == s.numbering && s'.buf.ordered == s.buf.ordered
  {
    hide Recorded, Queueing, Logged, Numbered;
    match e {
      case Arrive(info) => ArriveInv(s, info); ArriveRecorded(s, info, came);
      case Finish(token) => FinishInv(s, token); FinishRecorded(s, token, came); assert came + [] == came;
    }
  }

  lemma {:induction false} RunRecorded(s: State, es: seq<Event>, came: seq<TaskInfo>)
    requires Inv(s) && Recorded(s, came) && CanRun(s, es)
    ensures var s' := Run(s, es);
      Inv(s') && Recorded(s', came + Came(es)) && s'.numbering == s.numbering && s'.buf.ordered == s.buf.ordered
    decreases |es|
  {
    hide Inv, Recorded, Next, Enabled;
    if es == [] {
      assert came + Came(es) == came;
    } else {
      StepRecorded(s, es[0], came);
      RunRecorded(Next(s, es[0]), es[1..], came + CameNow(es[0]));
      assert came + CameNow(es[0]) + Came(es[1..]) == came + Came(es);
    }
  }

  lemma AtRun(ordered: bool, numbering: bool, es: seq<Event>)
    requires CanRun(Init(ordered, numbering), es)
    ensures var s := Run(Init(ordered, numbering), es);
      Inv(s) && Recorded(s, Came(es)) && s.numbering == numbering && s.buf.ordered == ordered
  {
    assert [] + Came(es) == Came(es);
    RunRecorded(Init(ordered, numbering), es, []);
  }

  // -------------------------------------------------------- main results

  /** For every order of arrival, at most one task is in the filter, and the items that
      came are let in in the order of their tokens, without a gap and each once. Where
      order is kept and tokens are brought along these are the tokens of the items, so
      every such filter of a pipeline lets them in in the same order. */
  lemma OneAtATimeInOrder(ordered: bool, numbering: bool, es: seq<Event>)
    requires CanRun(Init(ordered, numbering), es)
    ensures var s, came := Run(Init(ordered, numbering), es), Came(es);
      && |s.inside| <= 1 && (forall t :: t in s.inside ==> t == |s.log| - 1)
      && forall i :: 0 <= i < |s.log| ==> IsItemOf(ordered, numbering, came, i, s.log[i])
  {
    hide Run, CanRun;
    AtRun(ordered, numbering, es);
    var s, came := Run(Init(ordered, numbering), es), Came(es);
    forall i | 0 <= i < |s.log| ensures IsItemOf(ordered, numbering, came, i, s.log[i]) { LetIn(s, came, i); }
  }

  lemma LetIn(s: State, came: seq<TaskInfo>, i: nat)
    requires Logged(s) && Recorded(s, came) && i < |s.log|
    ensures IsItemOf(s.buf.ordered, s.numbering, came, i, s.log[i])
  {
    assert HasCome(s.numbering, came, i);
    var j :| 0 <= j < |came| && TokenAt(s.numbering, came, j) == i;
  }

  /** The filter stands idle only if the item whose turn it is has not come. */
  lemma IdleOnlyIfTurnIsOut(ordered: bool, numbering: bool, es: seq<Event>)
    requires CanRun(Init(ordered, numbering), es) && Run(Init(ordered, numbering), es).inside == {}
    ensures !HasCome(numbering, Came(es), |Run(Init(ordered, numbering), es).log|)
  {
    hide Run, CanRun;
    AtRun(ordered, numbering, es);
  }

  /** When the tokens 0 to n-1 have come and the filter is idle, all were let in and
      none waits. */
  lemma NobodyLeftWaiting(ordered: bool, numbering: bool, es: seq<Event>, n: nat)
    requires CanRun(Init(ordered, numbering), es) && Run(Init(ordered, numbering), es).inside == {}
    requires forall t: nat :: HasCome(numbering, Came(es), t) <==> t < n
    ensures var s := Run(Init(ordered, numbering), es); |s.log| == n && s.buf.pending == map[]
  {
    hide Run, CanRun;
    AtRun(ordered, numbering, es);
    var s := Run(Init(ordered, numbering), es);
    assert forall t: nat :: t in s.arrived <==> HasCome(numbering, Came(es), t);
    hide Recorded, HasCome;
    assert s.buf.low !in s.arrived && n !in s.arrived;
    assert forall t :: t !in s.buf.pending;
  }

  /** A filter that numbers the items itself lets them in in the order they came. */
  lemma FirstComeFirstServed(ordered: bool, es: seq<Event>)
    requires CanRun(Init(ordered, true), es)
    ensures var s, came := Run(Init(ordered, true), es), Came(es);
      |s.log| <= |came| && forall i :: 0 <= i < |s.log| ==> s.log[i] == Item(ordered, i, came[i])
  {
    hide Run, CanRun;
    AtRun(ordered, true, es);
    var s, came := Run(Init(ordered, true), es), Came(es);
    if s.log != [] { assert |s.log| - 1 in s.arrived; }
    forall i | 0 <= i < |s.log| ensures s.log[i] == Item(ordered, i, came[i]) { assert TokenAt(true, came, i) == i; }
  }

  /** A turn is never over before its item comes, which the buffer's methods rely on
      and the source asserts. */
  lemma TurnIsNotOver(ordered: bool, numbering: bool, es: seq<Event>, info: TaskInfo)
    requires CanRun(Init(ordered, numbering), es) && Enabled(Run(Init(ordered, numbering), es), Arrive(info))
    ensures var b := Run(Init(ordered, numbering), es).buf;
      (if b.ordered && info.tokenReady then info.token else b.high) >= b.low
  {
    hide Run, CanRun;
    AtRun(ordered, numbering, es);
    var s := Run(Init(ordered, numbering), es);
    assert TokenOf(s.buf, info) !in s.arrived;
  }
}
