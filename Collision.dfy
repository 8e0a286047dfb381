/**
 * Passability and neighbour enumeration of main.py: `future_pos`, `check_collision`,
 * the E, W, S, N order of `check_all_directions`, and the direction codes of
 * `Ghost.auto_move`.
 */
module Collision {
  import opened Wrappers
  import opened Grid

  /** The symbols of the (unseen) constants module; only their distinctness matters. */
  datatype Symbols = Symbols(wall: char, empty: char, coin: char, bigcoin: char, ghostMark: char)
  {
    predicate Distinct()
    {
      && wall != empty && wall != coin && wall != bigcoin && wall != ghostMark
      && empty != coin && empty != bigcoin && empty != ghostMark
      && coin != bigcoin && coin != ghostMark
      && bigcoin != ghostMark
    }
  }

  /** `speed` of Player and Ghost: one block, never changed. */
  const Speed: int := 1

  /** `future_pos(dx, dy, x, y)`. */
  function FuturePos(p: Pos, dx: int, dy: int): (q: Pos)
    ensures q.x - p.x == dx && q.y - p.y == dy
  {
    Pos(dx * Speed + p.x, dy * Speed + p.y)
  }

  /** The pair `check_collision` returns: (may enter, symbol found or `False`). */
  datatype Collision = Collision(allowed: bool, entity: Option<char>)

  /**
   * `check_collision` of main.py: classifies the target cell. Only IndexError is
   * caught, so a target with x = 0 or y = 0 reads, Python-style, the last column
   * or row rather than being rejected.
   */
  function CheckCollision(g: Grid, sym: Symbols, p: Pos, dx: int, dy: int): (r: Collision)
    ensures var c := Cell(g, FuturePos(p, dx, dy).x, FuturePos(p, dx, dy).y);
      && (r.allowed <==> c.Some? && c.value != sym.wall)
      && (r.entity.Some? <==> c.Some? && c.value != sym.wall && c.value != sym.empty)
      && (r.entity.Some? ==> r.entity == c)
  {
    var q := FuturePos(p, dx, dy);
    match Cell(g, q.x, q.y)
    case None => Collision(false, None)
    case Some(c) =>
      if c == sym.wall then Collision(false, None)
      else if c == sym.empty then Collision(true, None)
      else Collision(true, Some(c))
  }

  /** On a rectangular grid, a target left of column 1 is classified by the last column. */
  lemma CheckCollisionWrapsLeft(g: Grid, sym: Symbols, p: Pos)
    requires Rectangular(g) && 1 <= p.y <= |g| && |g[0]| >= 1 && p.x == 1
    ensures CheckCollision(g, sym, p, -1, 0).allowed <==> g[p.y - 1][|g[0]| - 1] != sym.wall
  {
    assert Cell(g, 0, p.y) == Some(g[p.y - 1][|g[p.y - 1]| - 1]);
  }

  /** Below the last row, or right of the last column, nothing may be entered. */
  lemma CheckCollisionPastEnd(g: Grid, sym: Symbols, p: Pos, dx: int, dy: int)
    requires Rectangular(g) && |g| >= 1
    requires FuturePos(p, dx, dy).y > |g| || (1 <= FuturePos(p, dx, dy).y <= |g| && FuturePos(p, dx, dy).x > |g[0]|)
    ensures CheckCollision(g, sym, p, dx, dy) == Collision(false, None)
  {
  }

  /** `Ghost.auto_move`'s direction codes: 0 east, 1 west, 2 south, 3 north, else no move. */
  function Direction(d: int): (v: (int, int))
    ensures 0 <= d < 4 ==> (v.0 == 0) != (v.1 == 0) && -1 <= v.0 <= 1 && -1 <= v.1 <= 1
    ensures !(0 <= d < 4) ==> v == (0, 0)
  {
    if d == 0 then (1 * Speed, 0)
    else if d == 1 then (-1 * Speed, 0)
    else if d == 2 then (0, 1 * Speed)
    else if d == 3 then (0, -1 * Speed)
    else (0, 0)
  }

  /** The reverse of a direction code. */
  function Opposite(d: int): (e: int)
    requires 0 <= d < 4
    ensures 0 <= e < 4 && e != d
    ensures Direction(e) == (-Direction(d).0, -Direction(d).1)
  {
    if d == 0 then 1 else if d == 1 then 0 else if d == 2 then 3 else 2
  }

  /** The cell one step against direction `d` from `p`: where a step in `d` came from. */
  function StepBack(p: Pos, d: int): Pos
  {
    if 0 <= d < 4 then FuturePos(p, Direction(Opposite(d)).0, Direction(Opposite(d)).1) else p
  }

  /** Stepping back after a step returns to the cell the step left. */
  lemma StepBackUndoes(p: Pos, d: int)
    requires 0 <= d < 4
    ensures StepBack(FuturePos(p, Direction(d).0, Direction(d).1), d) == p
  {
  }

  /** Reversing twice gives the direction back. */
  lemma OppositeInvolution(d: int)
    requires 0 <= d < 4
    ensures Opposite(Opposite(d)) == d
  {
  }

  /** Stepping in two directions reaches the same cell only when they are the same direction. */
  lemma DirectionInjective(p: Pos, d: int, e: int)
    requires 0 <= d < 4 && 0 <= e < 4
    ensures FuturePos(p, Direction(d).0, Direction(d).1) == FuturePos(p, Direction(e).0, Direction(e).1) <==> d == e
  {
  }

  /** A slot of `check_all_directions`: a neighbour position, or `False`. */
  datatype Slot = Blocked | Open(pos: Pos)

  function SlotAt(g: Grid, sym: Symbols, p: Pos, d: int): Slot
  {
    var v := Direction(d);
    if CheckCollision(g, sym, p, v.0, v.1).allowed then Open(FuturePos(p, v.0, v.1)) else Blocked
  }

  /** The neighbour list in the order east, west, south, north. */
  function Neighbours(g: Grid, sym: Symbols, p: Pos): (res: seq<Slot>)
    ensures |res| == 4
    ensures forall d :: 0 <= d < 4 ==>
      var q := FuturePos(p, Direction(d).0, Direction(d).1);
      && (res[d].Open? <==> Cell(g, q.x, q.y).Some? && Cell(g, q.x, q.y).value != sym.wall)
      && (res[d].Open? ==> res[d].pos == q)
  {
    [SlotAt(g, sym, p, 0), SlotAt(g, sym, p, 1), SlotAt(g, sym, p, 2), SlotAt(g, sym, p, 3)]
  }

  /**
   * `check_all_directions`: a loop whose (dx, dy) state steps through
   * (1,0), (-1,0), (0,1), (0,-1) and checks each neighbour in turn.
   */
  method CheckAllDirections(g: Grid, sym: Symbols, p: Pos) returns (res: seq<Slot>)
    ensures res == Neighbours(g, sym, p)
  {
    res := [];
    var dx, dy := 0, 0;
    var i := 0;
    while i < 4
      invariant 0 <= i <= 4
      invariant |res| == i
      invariant forall j :: 0 <= j < i ==> res[j] == SlotAt(g, sym, p, j)
      invariant (dx, dy) == if i == 0 then (0, 0) else Direction(i - 1)
    {
      if dx == 0 && dy == 0 {
        dx := 1 * Speed;
      } else if dx == 1 && dy == 0 {
        dx := -1 * Speed;
      } else if dx == -1 && dy == 0 {
        dx := 0;
        dy := 1 * Speed;
      } else if dx == 0 && dy == 1 {
        dy := -1 * Speed;
      }
      if CheckCollision(g, sym, p, dx, dy).allowed {
        res := res + [Open(FuturePos(p, dx, dy))];
      } else {
        res := res + [Blocked];
      }
      i := i + 1;
    }
  }

  /** `res.count(False)`. */
  function CountBlocked(res: seq<Slot>): (n: nat)
    ensures n <= |res|
  {
    if res == [] then 0 else (if res[0].Blocked? then 1 else 0) + CountBlocked(res[1..])
  }

  /**
   * Following direction codes from `p`, each step allowed by `check_collision`;
   * `None` when a code is not 0..3 or a step is refused.
   */
  function Walk(g: Grid, sym: Symbols, p: Pos, dirs: seq<int>): Option<Pos>
    decreases |dirs|
  {
    if dirs == [] then Some(p)
    else if 0 <= dirs[0] < 4 && SlotAt(g, sym, p, dirs[0]).Open? then
      Walk(g, sym, SlotAt(g, sym, p, dirs[0]).pos, dirs[1..])
    else None
  }

  /** Extending a walk by one step is one more step from where it ended. */
  lemma {:induction false} WalkSnoc(g: Grid, sym: Symbols, p: Pos, dirs: seq<int>, d: int)
    requires Walk(g, sym, p, dirs).Some?
    ensures Walk(g, sym, p, dirs + [d]) ==
      var q := Walk(g, sym, p, dirs).value;
      if 0 <= d < 4 && SlotAt(g, sym, q, d).Open? then Some(SlotAt(g, sym, q, d).pos) else None
    decreases |dirs|
  {
    if dirs == [] {
      assert [] + [d] == [d];
      assert [d][1..] == [];
    } else {
      assert (dirs + [d])[0] == dirs[0];
      assert (dirs + [d])[1..] == dirs[1..] + [d];
      WalkSnoc(g, sym, SlotAt(g, sym, p, dirs[0]).pos, dirs[1..], d);
    }
  }

  /** A one-step walk ends one speed unit along its direction. */
  lemma OneStepWalk(g: Grid, sym: Symbols, p: Pos, d: int, q: Pos)
    requires Walk(g, sym, p, [d]) == Some(q)
    ensures 0 <= d < 4 && q == FuturePos(p, Direction(d).0 * Speed, Direction(d).1 * Speed)
  {
    assert [d][1..] == [];
  }

  /** No step of the code sequence undoes the step before it. */
  predicate NoUTurn(dirs: seq<int>)
  {
    forall j :: 0 <= j < |dirs| - 1 && 0 <= dirs[j] < 4 ==> dirs[j + 1] != Opposite(dirs[j])
  }

  lemma NoUTurnSnoc(dirs: seq<int>, d: int)
    requires NoUTurn(dirs)
    requires |dirs| > 0 && 0 <= dirs[|dirs| - 1] < 4 ==> d != Opposite(dirs[|dirs| - 1])
    ensures NoUTurn(dirs + [d])
  {
    var w := dirs + [d];
    forall j | 0 <= j < |w| - 1 && 0 <= w[j] < 4
      ensures w[j + 1] != Opposite(w[j])
    {
      if j < |dirs| - 1 {
        assert w[j] == dirs[j] && w[j + 1] == dirs[j + 1];
      }
    }
  }
}
