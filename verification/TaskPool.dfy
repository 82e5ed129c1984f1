/** The task array behind an arena slot: cells that hold a task or a hole, the
    compaction that drops the holes, and the sizes the array may have. */
module TaskPool {

  /** `Hole` is the null pointer left where a task was taken out of order. */
  datatype Cell<T> = Hole | Has(t: T)

  const MIN_TASK_POOL_SIZE: nat := 64

  /** The tasks of a run of cells, in order, without the holes. */
  function Compact<T>(cells: seq<Cell<T>>): (tasks: seq<T>)
    ensures |tasks| <= |cells|
  {
    if cells == [] then []
    else
      var tasks := Compact(cells[..|cells| - 1]);
      match cells[|cells| - 1]
      case Hole => tasks
      case Has(t) => tasks + [t]
  }

  /** Where the task of cell `i` lands when the cells are compacted. */
  function Rank<T>(cells: seq<Cell<T>>, i: nat): nat
    requires i <= |cells|
  {
    |Compact(cells[..i])|
  }

  /** The cell that the `k`-th surviving task comes from. */
  function Origin<T>(cells: seq<Cell<T>>, k: nat): (i: nat)
    requires k < |Compact(cells)|
    ensures i < |cells|
  {
    var n := |cells| - 1;
    if cells[n].Has? && k == |Compact(cells[..n])| then n else Origin(cells[..n], k)
  }

  lemma {:induction false} CompactSnoc<T>(cells: seq<Cell<T>>, c: Cell<T>)
    ensures Compact(cells + [c]) == Compact(cells) + (if c.Has? then [c.t] else [])
  {
    var all := cells + [c];
    assert all[..|all| - 1] == cells;
  }

  lemma {:induction false} CompactConcat<T>(a: seq<Cell<T>>, b: seq<Cell<T>>)
    ensures Compact(a + b) == Compact(a) + Compact(b)
  {
    if b == [] {
      assert a + b == a;
    } else {
      var n := |b| - 1;
      CompactConcat(a, b[..n]);
      CompactSnoc(a + b[..n], b[n]);
      CompactSnoc(b[..n], b[n]);
      assert a + b == (a + b[..n]) + [b[n]];
      assert b == b[..n] + [b[n]];
    }
  }

  /** A task keeps its place among the survivors. */
  lemma {:induction false} RankAt<T>(cells: seq<Cell<T>>, i: nat)
    requires i < |cells| && cells[i].Has?
    ensures Rank(cells, i) < |Compact(cells)|
    ensures Compact(cells)[Rank(cells, i)] == cells[i].t
  {
    var a, b := cells[..i], cells[i + 1..];
    CompactConcat(a + [cells[i]], b);
    CompactSnoc(a, cells[i]);
    assert cells == (a + [cells[i]]) + b;
  }

  /** `Origin` inverts `Rank`: every survivor comes from exactly one cell. */
  lemma {:induction false} OriginAt<T>(cells: seq<Cell<T>>, k: nat)
    requires k < |Compact(cells)|
    ensures cells[Origin(cells, k)].Has?
    ensures Rank(cells, Origin(cells, k)) == k
    ensures cells[Origin(cells, k)].t == Compact(cells)[k]
  {
    var n := |cells| - 1;
    if cells[n].Has? && k == |Compact(cells[..n])| {
    } else {
      OriginAt(cells[..n], k);
      var i := Origin(cells[..n], k);
      assert cells[..n][..i] == cells[..i];
    }
  }

  /** Bytes are allocated in lines of 128, that is in steps of 16 pointers. */
  function RoundUpToLine(n: nat): (size: nat)
    ensures n <= size < n + 16 && size % 16 == 0
  {
    (n * 8 + 127) / 128 * 128 / 8
  }

  /** Whether `prepare_task_pool` must move to a larger array. */
  predicate MustGrow(size: nat, live: nat, n: nat) {
    live + n > size - MIN_TASK_POOL_SIZE / 4
  }

  function NewSize(size: nat, live: nat, n: nat): (newSize: nat)
    requires size >= MIN_TASK_POOL_SIZE
    ensures live + n <= newSize && size <= newSize
  {
    if MustGrow(size, live, n)
    then RoundUpToLine(if live + n < 2 * size then 2 * size else live + n)
    else size
  }
}
