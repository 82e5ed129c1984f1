/** The input buffer of a serial pipeline filter: a ring of task records indexed by
    the low bits of their tokens, which grows by doubling. The class is proved
    against a map from tokens to waiting records. */
module TokenBuffer {

  /** `token` means nothing unless `tokenReady`. */
  datatype TaskInfo = TaskInfo(item: nat, token: nat, tokenReady: bool, valid: bool)

  /** `low` is the token that may run, or is running; later ones wait in `pending`. */
  datatype Buffer = Buffer(ordered: bool, low: nat, high: nat, pending: map<nat, TaskInfo>)

  const INITIAL_SIZE: nat := 4

  const NO_TASK := TaskInfo(0, 0, false, false)

  // ------------------------------------------------------ the abstraction

  /** The buffer numbers the record itself. */
  predicate Numbers(b: Buffer, info: TaskInfo) { !b.ordered || !info.tokenReady }

  function TokenOf(b: Buffer, info: TaskInfo): nat { if Numbers(b, info) then b.high else info.token }

  /** The record as it is left by `try_put_token`. */
  function Stamped(b: Buffer, info: TaskInfo): TaskInfo {
    if b.ordered && !info.tokenReady then info.(valid := true, token := b.high, tokenReady := true)
    else info.(valid := true)
  }

  /** The buffer after `try_put_token`: the record waits unless it is its turn. */
  function Put(b: Buffer, info: TaskInfo): Buffer {
    var b' := b.(high := b.high + if Numbers(b, info) then 1 else 0);
    var token := TokenOf(b, info);
    if token == b.low then b' else b'.(pending := b.pending[token := Stamped(b, info)])
  }

  /** The buffer after `try_to_spawn_task_for_next_token`. */
  function Advance(b: Buffer): Buffer {
    b.(low := b.low + 1, pending := b.pending - {b.low + 1})
  }

  // ------------------------------------------------------------ the mask

  predicate PowerOfTwo(n: nat) { n == 1 || (n > 0 && n % 2 == 0 && PowerOfTwo(n / 2)) }

  /** Bitwise conjunction. */
  function And(a: nat, b: nat): nat {
    if b == 0 then 0 else (if a % 2 == 1 && b % 2 == 1 then 1 else 0) + 2 * And(a / 2, b / 2)
  }

  lemma {:induction false} MaskInRange(t: nat, n: nat)
    requires PowerOfTwo(n)
    ensures And(t, n - 1) < n
  {
    if n > 1 {
      HalfMask(n);
      MaskInRange(t / 2, n / 2);
    }
  }

  lemma Doubled(n: nat)
    requires PowerOfTwo(n)
    ensures PowerOfTwo(2 * n)
  {
  }

  lemma HalfMask(n: nat)
    requires PowerOfTwo(n) && n > 1
    ensures (n - 1) / 2 == n / 2 - 1 && (n - 1) % 2 == 1
  {
  }

  /** The mask is injective on every window as long as the ring: tokens of one window
      never share a place. */
  lemma {:induction false} MaskInjective(t: nat, u: nat, n: nat)
    requires PowerOfTwo(n) && t < u + n && u < t + n && And(t, n - 1) == And(u, n - 1)
    ensures t == u
  {
    if n > 1 {
      HalfMask(n);
      MaskInjective(t / 2, u / 2, n / 2);
    }
  }

  /** The token that enters the window takes the place of the one that leaves it. */
  lemma {:induction false} MaskWraps(t: nat, n: nat)
    requires PowerOfTwo(n)
    ensures And(t + n, n - 1) == And(t, n - 1)
  {
    if n > 1 {
      HalfMask(n);
      MaskWraps(t / 2, n / 2);
      assert (t + n) / 2 == t / 2 + n / 2;
    }
  }

  ghost function Place(t: nat, size: nat): (i: nat)
    requires PowerOfTwo(size)
    ensures i < size && i == And(t, size - 1)
  {
    MaskInRange(t, size);
    And(t, size - 1)
  }

  // ------------------------------------------------------------ the ring

  class InputBuffer {
    var cells: array<TaskInfo>
    var low: nat
    var high: nat
    const ordered: bool

    /** The record of token `t`, which is in the window. */
    ghost function At(t: nat): TaskInfo
      requires PowerOfTwo(cells.Length)
      reads this, cells
    {
      cells[Place(t, cells.Length)]
    }

    ghost predicate Valid()
      reads this, cells
    {
      PowerOfTwo(cells.Length) && cells.Length >= INITIAL_SIZE && !At(low).valid
    }

    /** The buffer as a map: the valid records of the window. */
    ghost function Abs(): Buffer
      requires PowerOfTwo(cells.Length)
      reads this, cells
    {
      Buffer(ordered, low, high, map t | low <= t < low + cells.Length && At(t).valid :: At(t))
    }

    constructor (ordered: bool)
      ensures Valid() && Abs() == Buffer(ordered, 0, 0, map[]) && fresh(cells)
    {
      this.ordered := ordered;
      low, high := 0, 0;
      cells := new TaskInfo[INITIAL_SIZE](_ => NO_TASK);
      new;
      assert PowerOfTwo(1) && PowerOfTwo(2) && PowerOfTwo(4);
      assert forall t :: 0 <= t < 4 ==> At(t) == NO_TASK;
      assert Abs().pending == map[];
    }

    /** `grow`: every waiting record keeps its token, the places of the new tokens are
        empty, and the ring is a power of two not below `minimum`. */
    method Grow(minimum: nat)
      requires Valid()
      modifies this
      ensures Valid() && fresh(cells) && low == old(low)
      ensures Abs() == old(Abs())
      ensures cells.Length >= minimum && cells.Length > old(cells.Length)
      ensures forall t :: low + old(cells.Length) <= t < low + cells.Length ==> !At(t).valid
    {
      hide And, PowerOfTwo;
      var size := 2 * cells.Length;
      Doubled(cells.Length);
      while size < minimum
        invariant PowerOfTwo(size) && size >= 2 * cells.Length
        modifies {}
        decreases minimum - size
      {
        Doubled(size);
        size := size * 2;
      }
      ghost var was := Abs();
      cells := Copy(size);
      assert Abs().pending == was.pending;
    }

    /** The loops of `grow`: the records of the window at their places in a longer ring. */
    method Copy(size: nat) returns (grown: array<TaskInfo>)
      requires Valid() && PowerOfTwo(size) && size >= cells.Length
      ensures fresh(grown) && grown.Length == size
      ensures forall u :: low <= u < low + size ==>
        grown[Place(u, size)] == if u < low + cells.Length then At(u) else NO_TASK
    {
      hide And, PowerOfTwo;
      grown := new TaskInfo[size](_ => NO_TASK);
      var t, i := low, 0;
      while i < cells.Length
        invariant 0 <= i <= cells.Length && t == low + i
        invariant forall u :: low <= u < low + size ==> grown[Place(u, size)] == if u < t then At(u) else NO_TASK
      {
        MaskInRange(t, size);
        MaskInRange(t, cells.Length);
        forall u | low <= u < low + size && u != t ensures Place(u, size) != Place(t, size) {
          if Place(u, size) == Place(t, size) { MaskInjective(t, u, size); }
        }
        grown[And(t, size - 1)] := cells[And(t, cells.Length - 1)];
        i, t := i + 1, t + 1;
      }
    }

    /** `try_put_token`: tells whether the record was put into the buffer to wait for
        its turn. As the source asserts, its turn must not be over. Nothing of the
        record changes but its mark and, in an ordered buffer, a token it lacked. */
    method TryPutToken(info: TaskInfo) returns (stored: bool, stamped: TaskInfo)
      requires Valid() && (if ordered && info.tokenReady then info.token else high) >= low
      modifies this, cells
      ensures Valid() && Abs() == Put(old(Abs()), info)
      ensures stamped == Stamped(old(Abs()), info)
      ensures stamped.item == info.item && stamped.valid
      ensures var t := if ordered && info.tokenReady then info.token else old(high);
        && stamped.token == (if ordered then t else info.token) && stamped.tokenReady == (ordered || info.tokenReady)
        && low == old(low) && high == old(high) + (if ordered && info.tokenReady then 0 else 1)
        && stored == (t != low)
        && Abs().pending == if stored then old(Abs()).pending[t := stamped] else old(Abs()).pending
    {
      ghost var was := Abs();
      stamped := info.(valid := true);
      var token;
      if ordered {
        if !stamped.tokenReady {
          stamped := stamped.(token := high, tokenReady := true);
          high := high + 1;
        }
        token := stamped.token;
      } else {
        token := high;
        high := high + 1;
      }
      assert token == TokenOf(was, info);
      assert Abs().pending == was.pending;
      if token == low { return false, stamped; }
      if token - low >= cells.Length { Grow(token - low + 1); }
      Store(token, stamped);
      stored := true;
    }

    /** Writes the record of a token within the window. */
    method Store(token: nat, info: TaskInfo)
      requires Valid() && low < token < low + cells.Length && info.valid
      modifies cells
      ensures Valid() && Abs() == old(Abs()).(pending := old(Abs()).pending[token := info])
    {
      hide And, PowerOfTwo;
      ghost var was := Abs();
      MaskInRange(token, cells.Length);
      forall u | low <= u < low + cells.Length && u != token
        ensures Place(u, cells.Length) != And(token, cells.Length - 1)
      {
        if Place(u, cells.Length) == And(token, cells.Length - 1) { MaskInjective(token, u, cells.Length); }
      }
      label before:
      cells[And(token, cells.Length - 1)] := info;
      assert forall u :: low <= u < low + cells.Length ==> At(u) == if u == token then info else old@before(At(u));
      assert Abs().pending == was.pending[token := info];
    }

    /** `try_to_spawn_task_for_next_token`, up to the spawning: the turn passes to the
        next token, and its record is handed out if it is waiting. */
    method NextToken() returns (wakee: TaskInfo)
      requires Valid()
      modifies this, cells
      ensures Valid() && cells == old(cells) && Abs() == Advance(old(Abs()))
      ensures low == old(low) + 1 && high == old(high) && Abs().pending == old(Abs()).pending - {low}
      ensures wakee.valid == (low in old(Abs()).pending)
      ensures wakee.valid ==> wakee == old(Abs()).pending[low]
    {
      hide And, PowerOfTwo;
      ghost var was := Abs();
      ghost var n := cells.Length;
      low := low + 1;
      MaskInRange(low, cells.Length);
      var place := And(low, cells.Length - 1);
      wakee := cells[place];
      assert wakee == old(At(low + 1));
      forall u | low <= u <= low + n - 1 && u != low ensures Place(u, n) != place {
        if Place(u, n) == place { MaskInjective(low, u, n); }
      }
      cells[place] := wakee.(valid := false);
      assert Place(low - 1, n) == Place(low + n - 1, n) by { MaskWraps(low - 1, n); }
      assert forall u :: low <= u < low + n && u != low ==> At(u) == old(At(u));
      assert At(low) == wakee.(valid := false);
      assert Abs().pending == was.pending - {low};
    }
  }
}
