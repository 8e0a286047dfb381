/**
 * The maze store of main.py: a list of row strings addressed by 1-indexed (x, y)
 * cells, mutated only by the ops a single consumer takes from an ordered queue.
 * Python's indexing is modelled exactly: a negative index counts from the end,
 * an index past either end raises IndexError, and slices clamp.
 */
module Grid {
  import opened Wrappers

  type Grid = seq<string>

  datatype Pos = Pos(x: int, y: int)

  /** Python `s[i]`: negative indices count from the end; `None` is IndexError. */
  function PyIndex<T>(s: seq<T>, i: int): (r: Option<T>)
    ensures r.Some? <==> -|s| <= i < |s|
    ensures 0 <= i < |s| ==> r == Some(s[i])
    ensures -|s| <= i < 0 ==> r == Some(s[|s| + i])
  {
    if 0 <= i < |s| then Some(s[i])
    else if -|s| <= i < 0 then Some(s[|s| + i])
    else None
  }

  /** The position a Python slice bound `k` denotes in a sequence of length `n`. */
  function SliceBound(n: nat, k: int): (b: nat)
    ensures b <= n
    ensures 0 <= k <= n ==> b == k
  {
    if k < 0 then (if n + k < 0 then 0 else n + k)
    else if k > n then n
    else k
  }

  /** The row splice `row[:x-1] + u + row[x:]` of update_maze_block. */
  function Splice(row: string, x: int, u: string): (r: string)
    ensures 1 <= x <= |row| ==> |r| == |row| - 1 + |u|
    ensures 1 <= x <= |row| && |u| == 1 ==>
      r[x - 1] == u[0] && forall i :: 0 <= i < |row| && i != x - 1 ==> r[i] == row[i]
  {
    row[..SliceBound(|row|, x - 1)] + u + row[SliceBound(|row|, x)..]
  }

  /** get_block's read `maze[y-1][x-1]`, without the wait for pending ops. */
  function Cell(g: Grid, x: int, y: int): (r: Option<char>)
    ensures 1 <= y <= |g| && 1 <= x <= |g[y - 1]| ==> r == Some(g[y - 1][x - 1])
  {
    match PyIndex(g, y - 1)
    case None => None
    case Some(row) => PyIndex(row, x - 1)
  }

  predicate Rectangular(g: Grid)
  {
    forall i, j :: 0 <= i < |g| && 0 <= j < |g| ==> |g[i]| == |g[j]|
  }

  /** True when (x, y) is a cell of the grid in 1-indexed coordinates. */
  predicate InGrid(g: Grid, x: int, y: int)
  {
    1 <= y <= |g| && 1 <= x <= |g[y - 1]|
  }

  /**
   * One write of update_maze_block: `maze[y-1] = maze[y-1][:x-1] + u + maze[y-1][x:]`.
   * `None` is the IndexError raised by `maze[y-1]`.
   */
  function WriteCell(g: Grid, x: int, y: int, u: string): (r: Option<Grid>)
    ensures r.Some? <==> -|g| <= y - 1 < |g|
    ensures r.Some? ==> |r.value| == |g|
    ensures r.Some? && 1 <= y <= |g| ==>
      forall j :: 0 <= j < |g| && j != y - 1 ==> r.value[j] == g[j]
    ensures r.Some? && InGrid(g, x, y) && |u| == 1 ==>
      && Cell(r.value, x, y) == Some(u[0])
      && |r.value[y - 1]| == |g[y - 1]|
      && (forall x', y' :: InGrid(g, x', y') && (x', y') != (x, y) ==>
            InGrid(r.value, x', y') && Cell(r.value, x', y') == Cell(g, x', y'))
  {
    match PyIndex(g, y - 1)
    case None => None
    case Some(row) =>
      var ri := if y - 1 >= 0 then y - 1 else |g| + (y - 1);
      Some(g[ri := Splice(row, x, u)])
  }

  /** A queued item: the 3-tuple, the 6-tuple or the empty tuple. */
  datatype Op =
    | Update(x: int, y: int, sym: string)
    | Swap(x1: int, y1: int, sym1: string, x2: int, y2: int, sym2: string)
    | Exit

  /**
   * Applying one queued item. A `Failure` carries the grid as the raised
   * IndexError leaves it: for a 6-tuple whose second write fails, the first
   * write has already happened.
   */
  function ApplyOp(g: Grid, op: Op): (r: Result<Grid, Grid>)
    ensures op.Exit? ==> r == Success(g)
    ensures op.Update? ==> (r.Success? <==> WriteCell(g, op.x, op.y, op.sym).Some?)
    ensures op.Update? && r.Success? ==> r.value == WriteCell(g, op.x, op.y, op.sym).value
    ensures op.Swap? && r.Success? ==>
      exists g1 :: WriteCell(g, op.x1, op.y1, op.sym1) == Some(g1) &&
                   WriteCell(g1, op.x2, op.y2, op.sym2) == Some(r.value)
  {
    match op
    case Exit => Success(g)
    case Update(x, y, u) =>
      (match WriteCell(g, x, y, u)
       case None => Failure(g)
       case Some(g') => Success(g'))
    case Swap(x1, y1, u1, x2, y2, u2) =>
      match WriteCell(g, x1, y1, u1)
      case None => Failure(g)
      case Some(g1) =>
        match WriteCell(g1, x2, y2, u2)
        case None => Failure(g1)
        case Some(g2) => Success(g2)
  }

  /**
   * The store as the consumer sees it: the maze, the items not yet taken, whether
   * the consumer has returned (`stopped`), and whether an item was taken but never
   * marked done because applying it raised (`stuck`: `join()` then never returns).
   */
  datatype Store = Store(rows: Grid, pending: seq<Op>, stopped: bool, stuck: bool)

  /**
   * What the consumer loop of update_maze_block does with the queue: take items in
   * submission order and apply each; return after the empty tuple when `running`
   * is false; die on an IndexError.
   */
  function Consume(s: Store, running: bool): (r: Store)
    ensures r.stopped || r.pending == []
    ensures s.stopped ==> r == s
    decreases |s.pending|
  {
    if s.stopped || s.pending == [] then s
    else
      var op := s.pending[0];
      match ApplyOp(s.rows, op)
      case Success(g) => Consume(Store(g, s.pending[1..], op.Exit? && !running, false), running)
      case Failure(g) => Store(g, s.pending[1..], true, true)
  }

  /** The empty tuple is a no-op while the game runs, and stops the consumer otherwise. */
  lemma ExitItem(g: Grid, rest: seq<Op>, running: bool)
    ensures running ==>
      Consume(Store(g, [Exit] + rest, false, false), running) == Consume(Store(g, rest, false, false), running)
    ensures !running ==>
      Consume(Store(g, [Exit] + rest, false, false), running) == Store(g, rest, true, false)
  {
    assert ([Exit] + rest)[1..] == rest;
  }

  /** Sequential application of ops that all succeed, none being an exit. */
  function ApplyAll(g: Grid, ops: seq<Op>): Option<Grid>
    decreases |ops|
  {
    if ops == [] then Some(g)
    else if ops[0].Exit? then None
    else match ApplyOp(g, ops[0])
      case Failure(_) => None
      case Success(g') => ApplyAll(g', ops[1..])
  }

  /**
   * Drain-then-read consistency: when every op applies, draining the queue leaves
   * exactly the grid obtained by applying the ops one after another in submission
   * order, and the queue empty.
   */
  lemma {:induction false} ConsumeIsSequential(g: Grid, ops: seq<Op>, running: bool)
    requires ApplyAll(g, ops).Some?
    ensures Consume(Store(g, ops, false, false), running) == Store(ApplyAll(g, ops).value, [], false, false)
    decreases |ops|
  {
    if ops != [] {
      var g' := ApplyOp(g, ops[0]).value;
      ConsumeIsSequential(g', ops[1..], running);
    }
  }

  /**
   * Submitting in two batches and draining after each gives the same store as
   * draining once after both.
   */
  lemma {:induction false} ConsumeSplit(s: Store, more: seq<Op>, running: bool)
    ensures Consume(s.(pending := s.pending + more), running)
         == Consume(Consume(s, running).(pending := Consume(s, running).pending + more), running)
    decreases |s.pending|
  {
    if s.stopped {
    } else if s.pending == [] {
      assert s.pending + more == more;
    } else {
      var op := s.pending[0];
      assert (s.pending + more)[0] == op;
      assert (s.pending + more)[1..] == s.pending[1..] + more;
      match ApplyOp(s.rows, op)
      case Success(g) =>
        ConsumeSplit(Store(g, s.pending[1..], op.Exit? && !running, false), more, running);
      case Failure(g) =>
    }
  }

  /** The 6-tuple writes in order: when both target one cell, the second symbol wins. */
  lemma SwapSameCellSecondWins(g: Grid, x: int, y: int, u1: string, u2: string)
    requires InGrid(g, x, y) && |u1| == 1 && |u2| == 1
    ensures ApplyOp(g, Swap(x, y, u1, x, y, u2)).Success?
    ensures Cell(ApplyOp(g, Swap(x, y, u1, x, y, u2)).value, x, y) == Some(u2[0])
  {
    var g1 := WriteCell(g, x, y, u1).value;
    assert InGrid(g1, x, y);
  }

  /** The 6-tuple on two distinct cells writes each of them. */
  lemma SwapDistinctCells(g: Grid, x1: int, y1: int, u1: string, x2: int, y2: int, u2: string)
    requires InGrid(g, x1, y1) && InGrid(g, x2, y2) && (x1, y1) != (x2, y2)
    requires |u1| == 1 && |u2| == 1
    ensures ApplyOp(g, Swap(x1, y1, u1, x2, y2, u2)).Success?
    ensures var g' := ApplyOp(g, Swap(x1, y1, u1, x2, y2, u2)).value;
      Cell(g', x1, y1) == Some(u1[0]) && Cell(g', x2, y2) == Some(u2[0])
  {
    var g1 := WriteCell(g, x1, y1, u1).value;
    assert InGrid(g1, x2, y2);
    assert InGrid(g1, x1, y1);
  }

  datatype ReadError = Hangs | IndexError

  /**
   * What `get_block` yields on the store `s`: it waits for the queue (forever, when
   * the consumer has returned or is stuck with items left), then reads the cell.
   */
  function ReadAfterJoin(s: Store, x: int, y: int, running: bool): (r: Result<char, ReadError>)
    ensures var c := Consume(s, running);
      && (r == Failure(Hangs) <==> c.pending != [] || c.stuck)
      && (r.Success? ==> Some(r.value) == Cell(c.rows, x, y))
      && (r == Failure(IndexError) <==> c.pending == [] && !c.stuck && Cell(c.rows, x, y).None?)
  {
    var c := Consume(s, running);
    if c.pending != [] || c.stuck then Failure(Hangs)
    else match Cell(c.rows, x, y)
      case None => Failure(IndexError)
      case Some(ch) => Success(ch)
  }

  /**
   * The maze together with the update queue and its consumer thread.
   */
  class GridStore {
    var rows: Grid
    var pending: seq<Op>
    var stopped: bool
    var stuck: bool
    /** Number of "redraw" signals sent to the screen queue. */
    var redraws: nat

    function State(): Store
      reads this
    {
      Store(rows, pending, stopped, stuck)
    }

    constructor (maze: Grid)
      ensures State() == Store(maze, [], false, false) && redraws == 0
    {
      rows, pending, stopped, stuck, redraws := maze, [], false, false, 0;
    }

    /** update_block: queues a single-cell write and a redraw. */
    method UpdateBlock(x: int, y: int, u: string)
      modifies this
      ensures State() == old(State()).(pending := old(pending) + [Update(x, y, u)])
      ensures redraws == old(redraws) + 1
    {
      pending := pending + [Update(x, y, u)];
      redraws := redraws + 1;
    }

    /** swap_block: queues a paired two-cell write and a redraw. */
    method SwapBlock(x1: int, y1: int, u1: string, x2: int, y2: int, u2: string)
      modifies this
      ensures State() == old(State()).(pending := old(pending) + [Swap(x1, y1, u1, x2, y2, u2)])
      ensures redraws == old(redraws) + 1
    {
      pending := pending + [Swap(x1, y1, u1, x2, y2, u2)];
      redraws := redraws + 1;
    }

    /**
     * Runs the consumer until the queue is empty or it has returned;
     * `joined` tells whether `maze_update_queue.join()` would return.
     */
    method Drain(running: bool) returns (joined: bool)
      modifies this
      ensures State() == Consume(old(State()), running)
      ensures redraws == old(redraws)
      ensures joined <==> pending == [] && !stuck
    {
      ghost var s0 := State();
      while pending != [] && !stopped
        invariant Consume(State(), running) == Consume(s0, running)
        invariant redraws == old(redraws)
        decreases |pending|
      {
        var op := pending[0];
        var r := ApplyOp(rows, op);
        match r {
          case Success(g) =>
            rows, pending, stopped, stuck := g, pending[1..], op.Exit? && !running, false;
          case Failure(g) =>
            rows, pending, stopped, stuck := g, pending[1..], true, true;
        }
      }
      joined := pending == [] && !stuck;
    }

    /** get_block: waits for the queue, then reads `maze[y-1][x-1]`. */
    method GetBlock(x: int, y: int, running: bool) returns (r: Result<char, ReadError>)
      modifies this
      ensures State() == Consume(old(State()), running)
      ensures redraws == old(redraws)
      ensures r == Failure(Hangs) <==> pending != [] || stuck
      ensures r.Success? <==> pending == [] && !stuck && Cell(rows, x, y).Some?
      ensures r.Success? ==> Some(r.value) == Cell(rows, x, y)
      ensures r == ReadAfterJoin(old(State()), x, y, running)
    {
      var joined := Drain(running);
      if !joined {
        r := Failure(Hangs);
      } else {
        match Cell(rows, x, y) {
          case None => r := Failure(IndexError);
          case Some(c) => r := Success(c);
        }
      }
    }
  }
}
