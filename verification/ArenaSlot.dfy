/** The code of an arena slot as it runs when nobody else touches the deque:
    array operations that refine operations on the sequence of tasks. */
module ArenaSlot {
  import opened Common
  import opened TaskPool

  /** A task carries the isolation tag it was spawned under. A proxy stands for
      a mailed task; `claimed` tells that its addressee has taken the task out. */
  datatype Task =
    | Plain(id: nat, isolation: nat)
    | Proxy(id: nat, isolation: nat, claimed: bool, outbox: nat)

  const NO_ISOLATION: nat := 0

  predicate Matches(isolation: nat, t: Task) {
    isolation == NO_ISOLATION || t.isolation == isolation
  }

  predicate Spent(t: Task) { t.Proxy? && t.claimed }

  /** What a thief takes: a task of its isolation, unless it is mail whose
      addressee is idle while the victim itself is not. */
  predicate Stealable(isolation: nat, idle: set<nat>, victim: nat, t: Task) {
    Matches(isolation, t) && (t.Plain? || t.claimed || t.outbox !in idle || victim in idle)
  }

  // -------------------------------------------- operations on sequences

  /** The matching, unspent task nearest the end, or -1. */
  function LastIndex(ts: seq<Task>, isolation: nat): (k: int)
    ensures -1 <= k < |ts|
  {
    if ts == [] then -1
    else
      var n := |ts| - 1;
      if Matches(isolation, ts[n]) && !Spent(ts[n]) then n else LastIndex(ts[..n], isolation)
  }

  function TakeLast(ts: seq<Task>, isolation: nat): Option<Task> {
    var k := LastIndex(ts, isolation);
    if k < 0 then None else Some(ts[k])
  }

  function WithoutLast(ts: seq<Task>, isolation: nat): seq<Task> {
    if ts == [] then []
    else
      var front, t := ts[..|ts| - 1], ts[|ts| - 1];
      if !Matches(isolation, t) then WithoutLast(front, isolation) + [t]
      else if Spent(t) then WithoutLast(front, isolation)
      else front
  }

  function FirstIndex(ts: seq<Task>, eligible: Task -> bool): (k: nat)
    ensures k <= |ts|
  {
    if ts == [] || eligible(ts[0]) then 0 else 1 + FirstIndex(ts[1..], eligible)
  }

  function TakeFirst(ts: seq<Task>, eligible: Task -> bool): Option<Task> {
    var k := FirstIndex(ts, eligible);
    if k == |ts| then None else Some(ts[k])
  }

  function WithoutFirst(ts: seq<Task>, eligible: Task -> bool): seq<Task> {
    if ts == [] then []
    else if eligible(ts[0]) then ts[1..] else [ts[0]] + WithoutFirst(ts[1..], eligible)
  }

  /** The tasks of another isolation, in order. */
  function Others(ts: seq<Task>, isolation: nat): seq<Task> {
    if ts == [] then []
    else
      var t := ts[|ts| - 1];
      Others(ts[..|ts| - 1], isolation) + (if Matches(isolation, t) then [] else [t])
  }

  lemma {:induction false} NearestTail(ts: seq<Task>, isolation: nat)
    ensures var k := LastIndex(ts, isolation);
      && (k >= 0 ==> Matches(isolation, ts[k]) && !Spent(ts[k]))
      && (forall j :: k < j < |ts| && Matches(isolation, ts[j]) ==> Spent(ts[j]))
  {
    hide Matches, Spent;
    if ts != [] {
      var n := |ts| - 1;
      var front, k := ts[..n], LastIndex(ts, isolation);
      if k != n {
        NearestTail(front, isolation);
        forall j | k < j < |ts| && Matches(isolation, ts[j]) ensures Spent(ts[j]) {
          assert j < n ==> ts[j] == front[j];
        }
      }
    }
  }

  /** `get_task` takes the task nearest the tail that carries the isolation asked for
      and is not an emptied proxy ... */
  lemma {:induction false} GetIsNearestTail(ts: seq<Task>, isolation: nat)
    ensures var k := LastIndex(ts, isolation);
      && TakeLast(ts, isolation) == (if k >= 0 then Some(ts[k]) else None)
      && (k >= 0 ==> (isolation == NO_ISOLATION || ts[k].isolation == isolation) && (ts[k].Proxy? ==> !ts[k].claimed))
      && (forall j :: k < j < |ts| && (isolation == NO_ISOLATION || ts[j].isolation == isolation) ==> ts[j].Proxy? && ts[j].claimed)
  {
    hide LastIndex;
    NearestTail(ts, isolation);
  }

  /** What is left when position `k` is taken and what matches behind it is gone. */
  function Left(ts: seq<Task>, k: int, isolation: nat): seq<Task>
    requires -1 <= k < |ts|
  {
    (if k >= 0 then ts[..k] else []) + Others(ts[k + 1..], isolation)
  }

  lemma OthersSnoc(ts: seq<Task>, t: Task, isolation: nat)
    ensures Others(ts + [t], isolation) == Others(ts, isolation) + (if Matches(isolation, t) then [] else [t])
  {
    assert (ts + [t])[..|ts|] == ts;
  }

  lemma LeftSnoc(ts: seq<Task>, k: int, isolation: nat)
    requires -1 <= k < |ts| - 1
    ensures var n := |ts| - 1;
      Left(ts, k, isolation) == Left(ts[..n], k, isolation) + if Matches(isolation, ts[n]) then [] else [ts[n]]
  {
    hide Others, Matches;
    var n := |ts| - 1;
    OthersSnoc(ts[..n][k + 1..], ts[n], isolation);
    assert ts[k + 1..] == ts[..n][k + 1..] + [ts[n]];
    assert k >= 0 ==> ts[..k] == ts[..n][..k];
  }

  lemma LooksAtLast(ts: seq<Task>, isolation: nat)
    requires ts != []
    ensures var n, k := |ts| - 1, LastIndex(ts, isolation);
      if k == n then WithoutLast(ts, isolation) == Left(ts, n, isolation)
      else
        && k == LastIndex(ts[..n], isolation)
        && WithoutLast(ts, isolation) == WithoutLast(ts[..n], isolation) + if Matches(isolation, ts[n]) then [] else [ts[n]]
  {
    hide Matches, Spent;
    assert ts[|ts|..] == [];
  }

  lemma {:induction false} LeavesTheRest(ts: seq<Task>, isolation: nat)
    ensures WithoutLast(ts, isolation) == Left(ts, LastIndex(ts, isolation), isolation)
  {
    if ts != [] {
      hide *;
      LooksAtLast(ts, isolation);
      if LastIndex(ts, isolation) != |ts| - 1 {
        LeavesTheRest(ts[..|ts| - 1], isolation);
        LeftSnoc(ts, LastIndex(ts, isolation), isolation);
      }
    }
  }

  /** ... and of the tasks behind it only the emptied proxies are gone, while
      those before it are untouched. */
  lemma GetLeavesTheRest(ts: seq<Task>, isolation: nat)
    ensures var k := LastIndex(ts, isolation);
      WithoutLast(ts, isolation) == (if k >= 0 then ts[..k] else []) + Others(ts[k + 1..], isolation)
  {
    hide WithoutLast, LastIndex, Others;
    LeavesTheRest(ts, isolation);
  }

  lemma Behind(ts: seq<Task>, k: nat)
    requires k + 1 < |ts|
    ensures [ts[0]] + (ts[1..][..k] + ts[1..][k + 1..]) == ts[..k + 1] + ts[k + 2..]
  {
    assert [ts[0]] + ts[1..][..k] == ts[..k + 1];
    assert ts[1..][k + 1..] == ts[k + 2..];
  }

  /** `steal_task` takes the first eligible task and leaves all others in order. */
  lemma {:induction false} StealIsFirst(ts: seq<Task>, eligible: Task -> bool)
    ensures var k := FirstIndex(ts, eligible);
      && (forall j :: 0 <= j < k ==> !eligible(ts[j]))
      && (k < |ts| ==> eligible(ts[k]))
      && WithoutFirst(ts, eligible) == if k < |ts| then ts[..k] + ts[k + 1..] else ts
  {
    if ts != [] && !eligible(ts[0]) {
      var rest := ts[1..];
      StealIsFirst(rest, eligible);
      var k := FirstIndex(rest, eligible);
      forall j | 0 <= j < k + 1 ensures !eligible(ts[j]) {
        if j > 0 { assert ts[j] == rest[j - 1]; }
      }
      assert [ts[0]] + rest == ts;
      if k < |rest| { Behind(ts, k); }
    }
  }

  /** A thief gets a task that carries the isolation it asked for, and no mail for an
      idle addressee unless its victim is idle too; nothing, if there is no such task. */
  lemma ThiefMayTake(ts: seq<Task>, isolation: nat, idle: set<nat>, victim: nat)
    ensures match TakeFirst(ts, (t: Task) => Stealable(isolation, idle, victim, t))
      case None => forall t :: t in ts && (isolation == NO_ISOLATION || t.isolation == isolation) ==>
        t.Proxy? && !t.claimed && t.outbox in idle && victim !in idle
      case Some(t) => (isolation == NO_ISOLATION || t.isolation == isolation) && (t.Proxy? && !t.claimed && t.outbox in idle ==> victim in idle)
  {
    hide FirstIndex, WithoutFirst;
    StealIsFirst(ts, (t: Task) => Stealable(isolation, idle, victim, t));
  }

  lemma {:induction false} SkippedHeads(a: seq<Task>, b: seq<Task>, eligible: Task -> bool)
    requires forall t :: t in a ==> !eligible(t)
    ensures TakeFirst(a + b, eligible) == TakeFirst(b, eligible)
    ensures WithoutFirst(a + b, eligible) == a + WithoutFirst(b, eligible)
  {
    if a == [] {
      assert a + b == b;
    } else {
      assert (a + b)[0] == a[0] && (a + b)[1..] == a[1..] + b;
      SkippedHeads(a[1..], b, eligible);
      assert [a[0]] + (a[1..] + WithoutFirst(b, eligible)) == a + WithoutFirst(b, eligible);
    }
  }

  /** Splitting the first cell off a run. */
  lemma CompactFirst(cells: seq<Cell<Task>>)
    requires cells != []
    ensures Compact(cells) == (if cells[0].Has? then [cells[0].t] else []) + Compact(cells[1..])
  {
    CompactConcat([cells[0]], cells[1..]);
    assert cells == [cells[0]] + cells[1..] && [cells[0]][..0] == [];
    assert Compact([cells[0]]) == if cells[0].Has? then [cells[0].t] else [];
  }

  lemma {:induction false} CompactFull(cells: seq<Cell<Task>>, tasks: seq<Task>)
    requires |cells| == |tasks| && forall i :: 0 <= i < |cells| ==> cells[i] == Has(tasks[i])
    ensures Compact(cells) == tasks
  {
    if cells != [] {
      var n := |cells| - 1;
      CompactFull(cells[..n], tasks[..n]);
      assert tasks == tasks[..n] + [tasks[n]];
    }
  }

  datatype Word = EmptyPool | Published | Locked

  class Slot {
    var taskPool: Word
    var head: int
    var tail: int
    var cells: array<Cell<Task>>

    /** The slot between two calls of its owner. */
    ghost predicate Valid()
      reads this
    {
      && 0 <= head <= tail <= cells.Length
      && (cells.Length == 0 || cells.Length >= MIN_TASK_POOL_SIZE)
      && taskPool != Locked
      && (taskPool == EmptyPool ==> head == 0 && tail == 0)
    }

    /** The tasks in the deque, oldest first. */
    ghost function Contents(): seq<Task>
      reads this, cells
      requires 0 <= head <= tail <= cells.Length
    {
      Compact(cells[head..tail])
    }

    constructor ()
      ensures Valid() && Contents() == [] && taskPool == EmptyPool && fresh(cells)
    {
      taskPool, head, tail := EmptyPool, 0, 0;
      cells := new Cell<Task>[0];
    }

    method AcquireTaskPool()
      requires taskPool != Locked
      modifies this`taskPool
      ensures taskPool == if old(taskPool) == EmptyPool then EmptyPool else Locked
    {
      if taskPool != EmptyPool { taskPool := Locked; }
    }

    method ReleaseTaskPool()
      modifies this`taskPool
      ensures taskPool == if old(taskPool) == EmptyPool then EmptyPool else Published
    {
      if taskPool != EmptyPool { taskPool := Published; }
    }

    /** Make room for `n` more tasks, by compaction or in a larger array. */
    method PrepareTaskPool(n: nat) returns (T: nat)
      requires Valid()
      modifies this, cells
      ensures Valid() && taskPool == old(taskPool)
      ensures cells == old(cells) || fresh(cells)
      ensures Contents() == old(Contents())
      ensures T == tail && T + n <= cells.Length
      ensures old(tail) + n > old(cells.Length) ==> head == 0 && forall i :: 0 <= i < tail ==> cells[i].Has?
    {
      hide Compact, NewSize, RoundUpToLine;
      T := tail;
      if T + n <= cells.Length { return; }
      if cells.Length == 0 {
        cells := new Cell<Task>[RoundUpToLine(if n < MIN_TASK_POOL_SIZE then MIN_TASK_POOL_SIZE else n)];
        return;
      }
      AcquireTaskPool();
      var H, size, from := head, cells.Length, cells;
      var live := CountLive(from, H, T);
      if MustGrow(size, live, n) {
        cells := new Cell<Task>[NewSize(size, live, n)];
      }
      var T1 := MoveLive(from, cells, H, T);
      head, tail := 0, T1;
      CompactFull(cells[head..tail], old(Contents()));
      ReleaseTaskPool();
      T := T1;
    }

    method Spawn(t: Task)
      requires Valid()
      modifies this, cells
      ensures Valid() && taskPool == Published
      ensures cells == old(cells) || fresh(cells)
      ensures Contents() == old(Contents()) + [t]
    {
      hide Compact;
      var T := PrepareTaskPool(1);
      ghost var before := cells[head..T];
      cells[T] := Has(t);
      tail := T + 1;
      if taskPool == EmptyPool { taskPool := Published; }
      assert cells[head..tail] == before + [Has(t)];
      CompactSnoc(before, Has(t));
    }

    /** `get_task_impl`: look at the cell at `T`; an emptied proxy is freed, and
        leaves a hole if tasks have been passed over. */
    method GetTaskImpl(T: int, isolation: nat, om: bool) returns (result: Option<Task>, om': bool)
      requires 0 <= T < cells.Length
      modifies cells
      ensures forall i :: 0 <= i < cells.Length && i != T ==> cells[i] == old(cells[i])
      ensures match old(cells[T])
        case Hole => cells[T] == Hole && result == None && om' == om
        case Has(t) =>
          if !Matches(isolation, t) then cells[T] == Has(t) && result == None && om'
          else if Spent(t) then cells[T] == (if om then Hole else Has(t)) && result == None && om' == om
          else cells[T] == Has(t) && result == Some(t) && om' == om
    {
      result, om' := None, om;
      if cells[T] == Hole { return; }
      var t := cells[T].t;
      if !Matches(isolation, t) { om' := true; return; }
      if t.Plain? { result := Some(t); return; }
      if !t.claimed { result := Some(t); return; }
      if om { cells[T] := Hole; }
    }

    /** Take a task from the tail. `None` means that nothing matching is left.
        Without a thief the head is met only when all cells have been looked at. */
    method GetTask(isolation: nat) returns (result: Option<Task>)
      requires Valid() && taskPool == Published
      modifies this, cells
      ensures Valid() && cells == old(cells)
      ensures result == TakeLast(old(Contents()), isolation)
      ensures Contents() == WithoutLast(old(Contents()), isolation)
    {
      hide Matches, Spent, Scanned, TakeLast, WithoutLast, Compact;
      var T0, T, om := tail, tail, false;
      ghost var was := cells[..];
      ghost var n := tail;
      ScanStarts(was, head, n, isolation);
      while true
        invariant cells == old(cells) && taskPool == Published && head == old(head) && tail == T
        invariant 0 <= head <= T <= T0 <= n <= cells.Length && (!om ==> T0 == T)
        invariant Scanned(was, cells[..], head, n, T, T0, isolation)
        decreases T - head
      {
        T := T - 1;
        tail := T;
        if head > T {
          AcquireTaskPool();
          var H0 := head;
          tail, head, taskPool := 0, 0, EmptyPool;
          ScanEnds(was, cells[..], H0, n, T0, isolation);
          if om && H0 < T0 {
            head, tail, taskPool := H0, T0, Published;
          }
          return None;
        }
        ghost var now := cells[..];
        result, om := GetTaskImpl(T, isolation, om);
        if result.Some? {
          assert cells[..] == now;
          ScanHits(was, now, head, n, T, T0, isolation);
          break;
        }
        assert cells[..] == now[T := cells[T]];
        if om {
          ScanGoesOn(was, now, cells[T], head, n, T, T0, isolation);
        } else {
          T0 := T;
          assert cells[..] == now;
          ScanForgets(was, now, head, n, T, isolation);
        }
      }
      if om {
        cells[T] := Hole;
        tail := T0;
      }
    }

    /** Take a task from the head for a thief that leaves mail for `idle`
        addressees alone unless its victim, `victim`, is idle too. */
    method StealTask(isolation: nat, idle: set<nat>, victim: nat) returns (result: Option<Task>)
      requires Valid()
      modifies this, cells
      ensures Valid() && cells == old(cells) && taskPool == old(taskPool)
      ensures var eligible := (t: Task) => Stealable(isolation, idle, victim, t);
        if taskPool == EmptyPool then result == None && Contents() == old(Contents())
        else result == TakeFirst(old(Contents()), eligible) && Contents() == WithoutFirst(old(Contents()), eligible)
    {
      hide Stealable, Compact, TakeFirst, WithoutFirst, Stolen;
      if taskPool == EmptyPool { return None; }
      taskPool := Locked;
      var H0, H, om := head, head, false;
      ghost var was, h := cells[..], head;
      ghost var eligible := (t: Task) => Stealable(isolation, idle, victim, t);
      StealStarts(was, h, tail, eligible);
      while true
        invariant cells == old(cells) && taskPool == Locked && tail == old(tail) && head == H
        invariant 0 <= h <= H0 <= H <= tail <= cells.Length && (!om ==> H0 == H) && cells[..] == was
        invariant Stolen(was, h, tail, H0, H, eligible)
        decreases tail - H
      {
        H := H + 1;
        head := H;
        if H > tail {
          head := H0;
          StealEnds(was, h, tail, H0, eligible);
          taskPool := Published;
          return None;
        }
        if cells[H - 1].Has? && Stealable(isolation, idle, victim, cells[H - 1].t) {
          StealHits(was, h, tail, H0, H, eligible);
          result := Some(cells[H - 1].t);
          break;
        }
        StealPasses(was, h, tail, H0, H, eligible);
        if cells[H - 1].Has? {
          om := true;
        } else if !om {
          H0 := H;
        }
      }
      if om {
        cells[H - 1] := Hole;
        head := H0;
        assert cells[..] == was[H - 1 := Hole];
      }
      taskPool := Published;
    }
  }

  /** Progress of the scan from the head, which was at `h`, when the cells
      `[H0, H)` have been passed over and those before were holes. */
  ghost predicate Stolen(was: seq<Cell<Task>>, h: int, tail: int, H0: int, H: int, eligible: Task -> bool) {
    && 0 <= h <= H0 <= H <= tail <= |was|
    && Compact(was[h..tail]) == Compact(was[H0..H]) + Compact(was[H..tail])
    && forall t :: t in Compact(was[H0..H]) ==> !eligible(t)
  }

  lemma StealStarts(was: seq<Cell<Task>>, h: int, tail: int, eligible: Task -> bool)
    requires 0 <= h <= tail <= |was|
    ensures Stolen(was, h, tail, h, h, eligible)
  {
    assert was[h..h] == [];
  }

  /** A cell that is a hole or not eligible is passed over, or dropped from the
      front if it is a hole and nothing has been passed over yet. */
  lemma StealPasses(was: seq<Cell<Task>>, h: int, tail: int, H0: int, H: int, eligible: Task -> bool)
    requires H <= tail && Stolen(was, h, tail, H0, H - 1, eligible)
    requires H0 < H && (was[H - 1].Has? ==> !eligible(was[H - 1].t))
    ensures Stolen(was, h, tail, H0, H, eligible)
    ensures H0 == H - 1 && was[H - 1] == Hole ==> Stolen(was, h, tail, H, H, eligible)
  {
    hide Compact;
    var skipped, rest := was[H0..H - 1], was[H - 1..tail];
    CompactFirst(rest);
    CompactSnoc(skipped, was[H - 1]);
    assert rest[1..] == was[H..tail] && was[H0..H] == skipped + [was[H - 1]];
    assert was[H..H] == [] && (H0 == H - 1 ==> skipped == []);
  }

  /** An eligible task is taken, and leaves a hole if something was passed over. */
  lemma StealHits(was: seq<Cell<Task>>, h: int, tail: int, H0: int, H: int, eligible: Task -> bool)
    requires H <= tail && Stolen(was, h, tail, H0, H - 1, eligible)
    requires H0 < H && was[H - 1].Has? && eligible(was[H - 1].t)
    ensures TakeFirst(Compact(was[h..tail]), eligible) == Some(was[H - 1].t)
    ensures Compact(was[H - 1 := Hole][H0..tail]) == WithoutFirst(Compact(was[h..tail]), eligible)
    ensures H0 == H - 1 ==> Compact(was[H..tail]) == WithoutFirst(Compact(was[h..tail]), eligible)
  {
    hide Compact, TakeFirst, WithoutFirst;
    var skipped, rest := was[H0..H - 1], was[H - 1..tail];
    CompactFirst(rest);
    assert rest[1..] == was[H..tail] && rest[0] == was[H - 1];
    SkippedHeads(Compact(skipped), Compact(rest), eligible);
    TakesFirst(Compact(rest), eligible);
    PunchCompacts(was, H0, H - 1, tail);
    if H0 == H - 1 { CompactNone<Task>(); assert skipped == []; }
  }

  /** A cell that becomes a hole drops out of the tasks. */
  lemma PunchCompacts(cells: seq<Cell<Task>>, lo: nat, i: nat, hi: nat)
    requires lo <= i < hi <= |cells|
    ensures Compact(cells[i := Hole][lo..hi]) == Compact(cells[lo..i]) + Compact(cells[i + 1..hi])
  {
    hide Compact;
    var cells' := cells[i := Hole];
    CompactFirst(cells'[i..hi]);
    assert cells'[i..hi][1..] == cells[i + 1..hi];
    CompactConcat(cells[lo..i], cells'[i..hi]);
    assert cells'[lo..hi] == cells[lo..i] + cells'[i..hi];
  }

  lemma CompactNone<T>()
    ensures Compact<T>([]) == []
  {
  }

  lemma TakesFirst(ts: seq<Task>, eligible: Task -> bool)
    requires ts != [] && eligible(ts[0])
    ensures TakeFirst(ts, eligible) == Some(ts[0]) && WithoutFirst(ts, eligible) == ts[1..]
  {
  }

  lemma StealEnds(was: seq<Cell<Task>>, h: int, tail: int, H0: int, eligible: Task -> bool)
    requires Stolen(was, h, tail, H0, tail, eligible)
    ensures TakeFirst(Compact(was[h..tail]), eligible) == None
    ensures Compact(was[H0..tail]) == WithoutFirst(Compact(was[h..tail]), eligible)
  {
    assert was[tail..tail] == [];
    StealIsFirst(Compact(was[h..tail]), eligible);
  }

  /** Progress of the scan from the tail, which was at `n`: the cells below `T`
      are as they were, those of `[T, T0)` have been passed over. */
  ghost predicate Scanned(was: seq<Cell<Task>>, now: seq<Cell<Task>>, head: int, n: int, T: int, T0: int, isolation: nat)
  {
    && 0 <= head <= T <= T0 <= n <= |was|
    && |now| == |was| && now[..T] == was[..T]
    && var full, ahead := Compact(was[head..n]), Compact(was[head..T]);
       && TakeLast(full, isolation) == TakeLast(ahead, isolation)
       && WithoutLast(full, isolation) == WithoutLast(ahead, isolation) + Compact(now[T..T0])
  }

  lemma ScanStarts(was: seq<Cell<Task>>, head: int, n: int, isolation: nat)
    requires 0 <= head <= n <= |was|
    ensures Scanned(was, was, head, n, n, n, isolation)
  {
  }

  /** One cell of the scan from the tail. */
  lemma ScanStep(cells: seq<Cell<Task>>, isolation: nat)
    requires cells != []
    ensures var n := |cells| - 1;
      var ahead, all := Compact(cells[..n]), Compact(cells);
      match cells[n]
      case Hole => all == ahead
      case Has(t) =>
        if Matches(isolation, t) && !Spent(t)
        then TakeLast(all, isolation) == Some(t) && WithoutLast(all, isolation) == ahead
        else TakeLast(all, isolation) == TakeLast(ahead, isolation) &&
             WithoutLast(all, isolation) ==
               WithoutLast(ahead, isolation) + (if Matches(isolation, t) then [] else [t])
  {
    var n := |cells| - 1;
    var all := Compact(cells);
    if cells[n].Has? {
      assert all[..|all| - 1] == Compact(cells[..n]);
    }
  }

  /** Nothing was taken from the cell at `T`, which now holds `c`. */
  lemma ScanGoesOn(was: seq<Cell<Task>>, now: seq<Cell<Task>>, c: Cell<Task>,
                   head: int, n: int, T: int, T0: int, isolation: nat)
    requires head <= T && Scanned(was, now, head, n, T + 1, T0, isolation)
    requires match now[T]
      case Hole => c == Hole
      case Has(t) => if Matches(isolation, t) then Spent(t) && c == Hole else c == Has(t)
    ensures Scanned(was, now[T := c], head, n, T, T0, isolation)
  {
    hide Matches, Spent, TakeLast, WithoutLast, Compact;
    var now' := now[T := c];
    ScanOne(was, now, head, T, isolation);
    CompactFirst(now'[T..T0]);
    assert now'[T..T0][1..] == now[T + 1..T0];
    assert now'[..T] == now[..T + 1][..T] && was[..T] == was[..T + 1][..T];
  }

  /** ... and as nothing was passed over so far, the cell is forgotten. */
  lemma ScanForgets(was: seq<Cell<Task>>, now: seq<Cell<Task>>, head: int, n: int, T: int, isolation: nat)
    requires head <= T && Scanned(was, now, head, n, T + 1, T + 1, isolation)
    requires now[T].Has? ==> Matches(isolation, now[T].t) && Spent(now[T].t)
    ensures Scanned(was, now, head, n, T, T, isolation)
  {
    hide Matches, Spent, TakeLast, WithoutLast;
    ScanOne(was, now, head, T, isolation);
    assert now[T + 1..T + 1] == [] && now[T..T] == [];
    assert now[..T] == now[..T + 1][..T] && was[..T] == was[..T + 1][..T];
  }

  /** Where two sequences agree up to `n`, so do their slices. */
  lemma SameSlice<T>(a: seq<T>, b: seq<T>, i: nat, j: nat, n: nat)
    requires i <= j <= n <= |a| == |b| && a[..n] == b[..n]
    ensures a[i..j] == b[i..j]
  {
    forall k | i <= k < j ensures a[k] == b[k] { assert a[..n][k] == b[..n][k]; }
  }

  lemma ScanOne(was: seq<Cell<Task>>, now: seq<Cell<Task>>, head: int, T: int, isolation: nat)
    requires 0 <= head <= T < |was| == |now| && now[..T + 1] == was[..T + 1]
    ensures now[head..T] == was[head..T]
    ensures var ahead, all := Compact(was[head..T]), Compact(was[head..T + 1]);
      match now[T]
      case Hole => all == ahead
      case Has(t) =>
        if Matches(isolation, t) && !Spent(t)
        then TakeLast(all, isolation) == Some(t) && WithoutLast(all, isolation) == ahead
        else TakeLast(all, isolation) == TakeLast(ahead, isolation) &&
             WithoutLast(all, isolation) ==
               WithoutLast(ahead, isolation) + (if Matches(isolation, t) then [] else [t])
  {
    hide *;
    var cells := was[head..T + 1];
    assert was[T] == was[..T + 1][T] == now[T];
    assert cells[..T - head] == was[head..T] && cells[T - head] == now[T];
    SameSlice(now, was, head, T, T + 1);
    ScanStep(cells, isolation);
  }

  /** The task at `T` is taken, and leaves a hole if tasks were passed over. */
  lemma ScanHits(was: seq<Cell<Task>>, now: seq<Cell<Task>>, head: int, n: int, T: int, T0: int, isolation: nat)
    requires head <= T && Scanned(was, now, head, n, T + 1, T0, isolation)
    requires now[T].Has? && Matches(isolation, now[T].t) && !Spent(now[T].t)
    ensures TakeLast(Compact(was[head..n]), isolation) == Some(now[T].t)
    ensures Compact(now[T := Hole][head..T0]) == WithoutLast(Compact(was[head..n]), isolation)
    ensures T0 == T + 1 ==> Compact(now[head..T]) == WithoutLast(Compact(was[head..n]), isolation)
  {
    hide Matches, Spent, TakeLast, WithoutLast, Compact;
    CompactNone<Task>();
    var now' := now[T := Hole];
    ScanOne(was, now, head, T, isolation);
    CompactFirst(now'[T..T0]);
    assert now'[T..T0][1..] == now[T + 1..T0];
    CompactConcat(now[head..T], now'[T..T0]);
    assert now'[head..T0] == now[head..T] + now'[T..T0];
    if T0 == T + 1 { assert now[T + 1..T0] == []; }
  }

  lemma ScanEnds(was: seq<Cell<Task>>, now: seq<Cell<Task>>, head: int, n: int, T0: int, isolation: nat)
    requires Scanned(was, now, head, n, head, T0, isolation)
    ensures TakeLast(Compact(was[head..n]), isolation) == None
    ensures Compact(now[head..T0]) == WithoutLast(Compact(was[head..n]), isolation)
  {
    assert was[head..head] == [];
  }

  method CountLive(cells: array<Cell<Task>>, H: int, T: int) returns (live: nat)
    requires 0 <= H <= T <= cells.Length
    ensures live == |Compact(cells[H..T])|
  {
    live := 0;
    for i := H to T
      invariant live == |Compact(cells[H..i])|
    {
      assert cells[H..i + 1][..i - H] == cells[H..i];
      if cells[i].Has? { live := live + 1; }
    }
  }

  /** Copy the tasks among `from[H..T]` to the front of `to`, which may be the
      same array: the place written is never beyond the place read. */
  method MoveLive(from: array<Cell<Task>>, to: array<Cell<Task>>, H: int, T: int) returns (T1: nat)
    requires 0 <= H <= T <= from.Length <= to.Length
    modifies to
    ensures T1 == |Compact(old(from[H..T]))| <= to.Length
    ensures forall k :: 0 <= k < T1 ==> to[k] == Has(Compact(old(from[H..T]))[k])
  {
    ghost var was := from[..];
    assert was[H..T] == from[H..T];
    T1 := 0;
    for i := H to T
      invariant T1 == |Compact(was[H..i])| <= i - H
      invariant forall k :: 0 <= k < T1 ==> to[k] == Has(Compact(was[H..i])[k])
      invariant forall k :: i <= k < T ==> from[k] == was[k]
    {
      assert was[H..i + 1][..i - H] == was[H..i];
      if from[i].Has? {
        to[T1] := from[i];
        T1 := T1 + 1;
      }
    }
  }
}
