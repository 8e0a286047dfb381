/**
 * The earliest variant kept in main.bak.py. The maze is written in place with no
 * update queue, `check_collision` reports only coins, there are no kills, the
 * search records step counts but no ways, and `find_shortest_way` computes the
 * shortest count without returning it.
 */
module Bak {
  import opened Wrappers
  import opened Grid
  import opened Collision
  import opened Pathfinder
  import Bak3

  /**
   * `check_collision` of main.bak.py: a wall refuses, a coin is reported, and
   * every other symbol, a ghost marker included, is entered as if empty. A read
   * past the maze raises IndexError (`None`).
   */
  function CheckCollisionCoinsOnly(g: Grid, sym: Symbols, p: Pos, dx: int, dy: int): (r: Option<Collision>)
    ensures var c := Cell(g, FuturePos(p, dx, dy).x, FuturePos(p, dx, dy).y);
      && (r.None? <==> c.None?)
      && (r.Some? ==> (r.value.allowed <==> c.value != sym.wall))
      && (r.Some? ==> (r.value.entity.Some? <==> c.value == sym.coin && sym.coin != sym.wall))
      && (r.Some? && r.value.entity.Some? ==> r.value.entity.value == sym.coin)
  {
    var q := FuturePos(p, dx, dy);
    match Cell(g, q.x, q.y)
    case None => None
    case Some(c) =>
      if c == sym.wall then Some(Collision(false, None))
      else if c == sym.coin then Some(Collision(true, Some(sym.coin)))
      else Some(Collision(true, None))
  }

  /**
   * The two unguarded checks agree on whether a step is allowed, so the neighbour
   * list of main.bak.py is main.bak3.py's; they differ only in what they report.
   */
  lemma CoinsOnlyAllowsAsUnguarded(g: Grid, sym: Symbols, p: Pos, dx: int, dy: int)
    requires sym.Distinct()
    ensures var a := CheckCollisionCoinsOnly(g, sym, p, dx, dy);
      var b := Bak3.CheckCollisionUnguarded(g, sym, p, dx, dy);
      && (a.None? <==> b.None?)
      && (a.Some? ==> a.value.allowed == b.value.allowed)
      && (a.Some? && b.value.entity != Some(sym.coin) ==> a.value.entity.None?)
      && (a.Some? && b.value.entity == Some(sym.coin) ==> a.value.entity == Some(sym.coin))
  {
  }

  /** Emptying a block and then writing its symbol back restores the maze exactly. */
  lemma EmptyThenRestore(g: Grid, x: int, y: int, c: char, e: char)
    requires InGrid(g, x, y) && Cell(g, x, y) == Some(c)
    ensures WriteCell(g, x, y, [e]).Some?
    ensures var g1 := WriteCell(g, x, y, [e]).value;
      Cell(g1, x, y) == Some(e) && WriteCell(g1, x, y, [c]) == Some(g)
  {
    var row := g[y - 1];
    var r1 := Splice(row, x, [e]);
    var r2 := Splice(r1, x, [c]);
    assert |r1| == |row| && |r2| == |row|;
    forall i | 0 <= i < |row|
      ensures r2[i] == row[i]
    {
      if i == x - 1 {
        assert r2[i] == c;
      } else {
        assert r2[i] == r1[i] == row[i];
      }
    }
    assert r2 == row;
    var g1 := g[y - 1 := r1];
    assert WriteCell(g, x, y, [e]) == Some(g1);
    assert g1[y - 1 := r2] == g;
  }

  /** The arguments of a started `regenerate_item` thread. */
  datatype Job = Job(entity: char, pos: Pos, inFuture: int)

  /** What the single attempt of `regenerate_item` comes to. */
  datatype Attempt =
    | Respawned      // the block was empty and the player elsewhere: the item is back
    | Skipped        // the player stands there or the block is taken: the item is lost
    | Raised         // the ValueError of a negative sleep, or IndexError

  class Player {
    var x: int
    var y: int
    var coins: int

    constructor (x0: int, y0: int)
      ensures x == x0 && y == y0 && coins == 0
    {
      x, y, coins := x0, y0, 0;
    }

    function At(): Pos
      reads this
    {
      Pos(x, y)
    }

    method Move(dx: int, dy: int)
      modifies this
      ensures At() == FuturePos(old(At()), dx, dy) && coins == old(coins)
    {
      x := x + dx * Speed;
      y := y + dy * Speed;
    }

    method AddCoin()
      modifies this
      ensures coins == old(coins) + 1 && At() == old(At())
    {
      coins := coins + 1;
    }
  }

  /** The globals of main.bak.py the core touches: the maze, the screen signals, the player. */
  class Session {
    var rows: Grid
    /** Number of "redraw" signals sent to the screen queue. */
    var redraws: nat
    var jobs: seq<Job>
    const player: Player
    const sym: Symbols
    /** COIN_RESPAWN_TIME. */
    const respawnTime: int

    constructor (maze: Grid, p: Player, s: Symbols, delay: int)
      ensures rows == maze && redraws == 0 && jobs == [] && player == p && sym == s && respawnTime == delay
    {
      rows, redraws, jobs, player, sym, respawnTime := maze, 0, [], p, s, delay;
    }

    /**
     * `update_block`: the row is spliced in place and a redraw is signalled;
     * `ok` is false when `maze[y-1]` raises IndexError, before anything is done.
     */
    method UpdateBlock(x: int, y: int, u: string) returns (ok: bool)
      modifies this
      ensures ok <==> WriteCell(old(rows), x, y, u).Some?
      ensures rows == if ok then WriteCell(old(rows), x, y, u).value else old(rows)
      ensures redraws == old(redraws) + if ok then 1 else 0
      ensures ok && InGrid(old(rows), x, y) && |u| == 1 ==>
        && Cell(rows, x, y) == Some(u[0])
        && forall x', y' :: InGrid(old(rows), x', y') && (x', y') != (x, y) ==> Cell(rows, x', y') == Cell(old(rows), x', y')
      ensures jobs == old(jobs)
    {
      var row := PyIndex(rows, y - 1);
      if row.None? {
        return false;
      }
      var ri := if y - 1 >= 0 then y - 1 else |rows| + (y - 1);
      rows := rows[ri := Splice(row.value, x, u)];
      redraws := redraws + 1;
      ok := true;
    }

    /**
     * `regenerate_item` of main.bak.py: one sleep, then one try; the item is lost
     * when the player stands on its block or the block is taken.
     */
    method RegenerateItem(job: Job) returns (o: Attempt)
      modifies this
      ensures var off := player.At() != job.pos;
        var c := Cell(old(rows), job.pos.x, job.pos.y);
        && (o == Respawned <==> job.inFuture >= 0 && off && c == Some(sym.empty))
        && (o == Raised <==> job.inFuture < 0 || (off && c.None?))
        && (o == Skipped <==> job.inFuture >= 0 && (!off || (c.Some? && c.value != sym.empty)))
      ensures rows == if o == Respawned then WriteCell(old(rows), job.pos.x, job.pos.y, [job.entity]).value else old(rows)
      ensures redraws == old(redraws) + if o == Respawned then 1 else 0
      ensures jobs == old(jobs)
    {
      if job.inFuture < 0 {
        return Raised;
      }
      if player.x != job.pos.x || player.y != job.pos.y {
        var c := Cell(rows, job.pos.x, job.pos.y);
        if c.None? {
          return Raised;
        }
        if c.value == sym.empty {
          var ok := UpdateBlock(job.pos.x, job.pos.y, [job.entity]);
          assert ok;
          return Respawned;
        }
      }
      o := Skipped;
    }

    /**
     * `entity_collision_handler` of main.bak.py: a coin adds one coin, empties the
     * player's block in place and starts its respawn at that same block; nothing
     * else has an effect. `ok` is false when the write raises, after the coin was
     * added.
     */
    method EntityCollisionHandler(entity: char) returns (ok: bool)
      modifies this, player
      ensures player.At() == old(player.At())
      ensures player.coins == old(player.coins) + if entity == sym.coin then 1 else 0
      ensures entity != sym.coin ==> ok && rows == old(rows) && redraws == old(redraws) && jobs == old(jobs)
      ensures entity == sym.coin ==>
        var w := WriteCell(old(rows), player.x, player.y, [sym.empty]);
        && (ok <==> w.Some?)
        && rows == (if ok then w.value else old(rows))
        && redraws == old(redraws) + (if ok then 1 else 0)
        && jobs == old(jobs) + if ok then [Job(sym.coin, player.At(), respawnTime)] else []
    {
      ok := true;
      if entity == sym.coin {
        player.AddCoin();
        ok := UpdateBlock(player.x, player.y, [sym.empty]);
        if ok {
          jobs := jobs + [Job(entity, player.At(), respawnTime)];
        }
      }
    }

    /**
     * The key handling of `main`: a non-zero step checked against the maze as it
     * stands; an allowed step moves the player, collects a reported coin, and
     * signals a redraw. `None` is the IndexError of the check; the write of the
     * collection cannot raise, since the check has just read that block.
     */
    method HandleKey(dx: int, dy: int) returns (r: Option<bool>)
      modifies this, player
      ensures var c := CheckCollisionCoinsOnly(old(rows), sym, old(player.At()), dx, dy);
        var q := FuturePos(old(player.At()), dx, dy);
        && (r.None? <==> (dx != 0 || dy != 0) && c.None?)
        && (r == Some(true) <==> (dx != 0 || dy != 0) && c.Some? && c.value.allowed)
        && (r == Some(true) ==>
              && player.At() == q
              && player.coins == old(player.coins) + (if c.value.entity.Some? then 1 else 0)
              && rows == (if c.value.entity.Some? then WriteCell(old(rows), q.x, q.y, [sym.empty]).value else old(rows))
              && jobs == old(jobs) + (if c.value.entity.Some? then [Job(sym.coin, q, respawnTime)] else [])
              && redraws == old(redraws) + (if c.value.entity.Some? then 2 else 1))
        && (r != Some(true) ==>
              player.At() == old(player.At()) && player.coins == old(player.coins) &&
              rows == old(rows) && redraws == old(redraws) && jobs == old(jobs))
    {
      r := Some(false);
      if dx != 0 || dy != 0 {
        var c := CheckCollisionCoinsOnly(rows, sym, player.At(), dx, dy);
        if c.None? {
          return None;
        }
        if c.value.allowed {
          player.Move(dx, dy);
          if c.value.entity.Some? {
            var ok := EntityCollisionHandler(c.value.entity.value);
            assert ok;
          }
          redraws := redraws + 1;
          r := Some(true);
        }
      }
    }
  }

  /** What `find_shortest_way` of main.bak.py comes to. */
  datatype Outcome =
    | NoWay                // no hit: it returns False
    | Silent(shortest: nat) // `min(hits)` is computed and printed; None is returned
    | SearchRaised         // IndexError of a neighbour list, or RecursionError

  /** Every hit is the length of a U-turn-free walk from the start to the goal, stored beside it. */
  ghost predicate CountedWays(g: Grid, sym: Symbols, start: Pos, goal: Pos, h: seq<nat>, w: seq<seq<int>>)
  {
    && |h| == |w|
    && forall k :: 0 <= k < |w| ==> |w[k]| == h[k] && Walk(g, sym, start, w[k]) == Some(goal) && NoUTurn(w[k])
  }

  /**
   * `pathfinding` of main.bak.py as a function of the values it reads: the hit
   * at the goal is recorded first, then `steps > min(hits)` prunes, and
   * otherwise the loop runs over the neighbours of `current`. `way` (the walk
   * the search took, which the source does not keep) is recorded beside each
   * hit; `ac` is `after_corners`, restored before returning.
   */
  function Seek(g: Grid, sym: Symbols, goal: Pos, current: Pos, oldPos: Pos, steps: nat,
                   way: seq<int>, ac: seq<Pos>, h: seq<nat>, w: seq<seq<int>>, fuel: nat): Trace
    decreases fuel, 1, 0
  {
    var h1 := if current == goal then h + [steps] else h;
    var w1 := if current == goal then w + [way] else w;
    if |h1| > 0 && steps > Min(h1) then Trace(h1, w1, false)
    else
      var res := Neighbours(g, sym, current);
      SeekFrom(g, sym, goal, res, 0, current, oldPos, steps, way, CountBlocked(res) <= 1, ac, h1, w1, fuel)
  }

  /**
   * The loop of `pathfinding` from neighbour `idx` on: an open neighbour that is
   * neither in `after_corners` nor the previous block is searched, entering
   * `after_corners` when `corner` holds; a raise ends the loop.
   */
  function SeekFrom(g: Grid, sym: Symbols, goal: Pos, res: seq<Slot>, idx: nat, current: Pos, oldPos: Pos,
                       steps: nat, way: seq<int>, corner: bool, ac: seq<Pos>, h: seq<nat>, w: seq<seq<int>>,
                       fuel: nat): Trace
    requires |res| == 4 && idx <= 4
    decreases fuel, 0, 4 - idx
  {
    if idx == 4 then Trace(h, w, false)
    else if res[idx].Open? && res[idx].pos !in ac && res[idx].pos != oldPos then
      var ac' := if corner then ac + [res[idx].pos] else ac;
      var t := SeekChild(g, sym, goal, res[idx].pos, idx, current, steps, way, ac', h, w, fuel);
      if t.aborted then t
      else SeekFrom(g, sym, goal, res, idx + 1, current, oldPos, steps, way, corner, ac', t.hits, t.ways, fuel)
    else SeekFrom(g, sym, goal, res, idx + 1, current, oldPos, steps, way, corner, ac, h, w, fuel)
  }

  /**
   * An admitted child: its neighbour list is read first and raises IndexError
   * when a neighbour lies off the maze; then RecursionError once the depth is
   * spent; otherwise the search goes one step deeper.
   */
  function SeekChild(g: Grid, sym: Symbols, goal: Pos, child: Pos, idx: nat, current: Pos, steps: nat,
                   way: seq<int>, ac: seq<Pos>, h: seq<nat>, w: seq<seq<int>>, fuel: nat): Trace
    decreases fuel, 0, 0
  {
    if !Bak3.NeighboursInRange(g, child) then Trace(h, w, true)
    else if fuel == 0 then Trace(h, w, true)
    else Seek(g, sym, goal, child, current, steps + 1, way + [idx], ac, h, w, fuel - 1)
  }

  /** `find_shortest_way`'s search: the start's own neighbour list may raise; then all lists start empty. */
  function RunSeek(g: Grid, sym: Symbols, start: Pos, goal: Pos, fuel: nat): Trace
  {
    if !Bak3.NeighboursInRange(g, start) then Trace([], [], true)
    else Seek(g, sym, goal, start, Pos(0, 0), 0, [], [], [], [], fuel)
  }

  /**
   * A walk that can make the search raise: U-turn-free, at most `n` steps, and
   * either exactly `n` steps long or ending on a block whose neighbour read
   * falls off the maze.
   */
  ghost predicate RaiseReachable(g: Grid, sym: Symbols, start: Pos, n: nat)
  {
    exists dirs {:trigger Walk(g, sym, start, dirs)} :: 0 < |dirs| <= n && NoUTurn(dirs) && Walk(g, sym, start, dirs).Some? &&
      (|dirs| == n || !Bak3.NeighboursInRange(g, Walk(g, sym, start, dirs).value))
  }

  /** Searching only appends to the recorded lists. */
  lemma {:induction false} SeekGrows(g: Grid, sym: Symbols, goal: Pos, current: Pos, oldPos: Pos, steps: nat,
                                        way: seq<int>, ac: seq<Pos>, h: seq<nat>, w: seq<seq<int>>, fuel: nat)
    ensures var t := Seek(g, sym, goal, current, oldPos, steps, way, ac, h, w, fuel);
      h <= t.hits && w <= t.ways
    decreases fuel, 1, 0
  {
    var h1 := if current == goal then h + [steps] else h;
    var w1 := if current == goal then w + [way] else w;
    if !(|h1| > 0 && steps > Min(h1)) {
      var res := Neighbours(g, sym, current);
      SeekFromGrows(g, sym, goal, res, 0, current, oldPos, steps, way, CountBlocked(res) <= 1, ac, h1, w1, fuel);
    }
  }

  lemma {:induction false} SeekFromGrows(g: Grid, sym: Symbols, goal: Pos, res: seq<Slot>, idx: nat, current: Pos,
                                            oldPos: Pos, steps: nat, way: seq<int>, corner: bool, ac: seq<Pos>,
                                            h: seq<nat>, w: seq<seq<int>>, fuel: nat)
    requires |res| == 4 && idx <= 4
    ensures var t := SeekFrom(g, sym, goal, res, idx, current, oldPos, steps, way, corner, ac, h, w, fuel);
      h <= t.hits && w <= t.ways
    decreases fuel, 0, 4 - idx
  {
    if idx < 4 {
      if res[idx].Open? && res[idx].pos !in ac && res[idx].pos != oldPos {
        var ac' := if corner then ac + [res[idx].pos] else ac;
        var t := SeekChild(g, sym, goal, res[idx].pos, idx, current, steps, way, ac', h, w, fuel);
        if fuel > 0 && Bak3.NeighboursInRange(g, res[idx].pos) {
          SeekGrows(g, sym, goal, res[idx].pos, current, steps + 1, way + [idx], ac', h, w, fuel - 1);
        }
        if !t.aborted {
          SeekFromGrows(g, sym, goal, res, idx + 1, current, oldPos, steps, way, corner, ac', t.hits, t.ways, fuel);
        }
      } else {
        SeekFromGrows(g, sym, goal, res, idx + 1, current, oldPos, steps, way, corner, ac, h, w, fuel);
      }
    }
  }

  /** A way that ends where the search raises is a witness of `RaiseReachable`. */
  lemma WayRaises(g: Grid, sym: Symbols, start: Pos, current: Pos, oldPos: Pos, steps: nat, way: seq<int>, n: nat)
    requires WayTo(g, sym, start, current, oldPos, steps, way)
    requires 0 < steps <= n && (steps == n || !Bak3.NeighboursInRange(g, current))
    ensures RaiseReachable(g, sym, start, n)
  {
    assert Walk(g, sym, start, way).value == current;
  }

  /**
   * Soundness of the search: every hit it records from a way to `current` is
   * the length of the U-turn-free walk stored beside it, and a raise has a
   * witness walk within the depth still allowed.
   */
  lemma {:induction false} SeekSound(g: Grid, sym: Symbols, start: Pos, goal: Pos, current: Pos, oldPos: Pos,
                                        steps: nat, way: seq<int>, ac: seq<Pos>, h: seq<nat>, w: seq<seq<int>>,
                                        fuel: nat, n: nat)
    requires WayTo(g, sym, start, current, oldPos, steps, way)
    requires CountedWays(g, sym, start, goal, h, w)
    requires n == steps + fuel + 1
    ensures var t := Seek(g, sym, goal, current, oldPos, steps, way, ac, h, w, fuel);
      && CountedWays(g, sym, start, goal, t.hits, t.ways)
      && (t.aborted ==> RaiseReachable(g, sym, start, n))
    decreases fuel, 1, 0
  {
    var h1 := if current == goal then h + [steps] else h;
    var w1 := if current == goal then w + [way] else w;
    assert CountedWays(g, sym, start, goal, h1, w1);
    if !(|h1| > 0 && steps > Min(h1)) {
      var res := Neighbours(g, sym, current);
      SeekFromSound(g, sym, start, goal, res, 0, current, oldPos, steps, way, CountBlocked(res) <= 1, ac, h1, w1, fuel);
    }
  }

  lemma {:induction false} SeekFromSound(g: Grid, sym: Symbols, start: Pos, goal: Pos, res: seq<Slot>, idx: nat,
                                            current: Pos, oldPos: Pos, steps: nat, way: seq<int>, corner: bool,
                                            ac: seq<Pos>, h: seq<nat>, w: seq<seq<int>>, fuel: nat)
    requires res == Neighbours(g, sym, current) && idx <= 4
    requires WayTo(g, sym, start, current, oldPos, steps, way)
    requires CountedWays(g, sym, start, goal, h, w)
    ensures var t := SeekFrom(g, sym, goal, res, idx, current, oldPos, steps, way, corner, ac, h, w, fuel);
      && CountedWays(g, sym, start, goal, t.hits, t.ways)
      && (t.aborted ==> RaiseReachable(g, sym, start, steps + fuel + 1))
    decreases fuel, 0, 5 - idx
  {
    if idx < 4 {
      if res[idx].Open? && res[idx].pos !in ac && res[idx].pos != oldPos {
        var child := res[idx].pos;
        var ac' := if corner then ac + [child] else ac;
        var t := SeekChild(g, sym, goal, child, idx, current, steps, way, ac', h, w, fuel);
        SeekChildSound(g, sym, start, goal, child, idx, current, oldPos, steps, way, ac', h, w, fuel);
        if !t.aborted {
          SeekFromSound(g, sym, start, goal, res, idx + 1, current, oldPos, steps, way, corner, ac', t.hits, t.ways, fuel);
        }
      } else {
        SeekFromSound(g, sym, start, goal, res, idx + 1, current, oldPos, steps, way, corner, ac, h, w, fuel);
      }
    }
  }

  lemma {:induction false} SeekChildSound(g: Grid, sym: Symbols, start: Pos, goal: Pos, child: Pos, idx: nat,
                                        current: Pos, oldPos: Pos, steps: nat, way: seq<int>, ac: seq<Pos>,
                                        h: seq<nat>, w: seq<seq<int>>, fuel: nat)
    requires idx < 4 && Neighbours(g, sym, current)[idx] == Open(child) && child != oldPos
    requires WayTo(g, sym, start, current, oldPos, steps, way)
    requires CountedWays(g, sym, start, goal, h, w)
    ensures var t := SeekChild(g, sym, goal, child, idx, current, steps, way, ac, h, w, fuel);
      && CountedWays(g, sym, start, goal, t.hits, t.ways)
      && (t.aborted ==> RaiseReachable(g, sym, start, steps + fuel + 1))
    decreases fuel, 0, 1
  {
    if !Bak3.NeighboursInRange(g, child) || fuel == 0 {
      ChildStopSound(g, sym, start, goal, child, idx, current, oldPos, steps, way, ac, h, w, fuel);
    } else {
      ChildDeeperSound(g, sym, start, goal, child, idx, current, oldPos, steps, way, ac, h, w, fuel);
    }
  }

  /** A child whose read raises, or that the spent depth refuses, keeps the lists and witnesses the raise. */
  lemma ChildStopSound(g: Grid, sym: Symbols, start: Pos, goal: Pos, child: Pos, idx: nat,
                       current: Pos, oldPos: Pos, steps: nat, way: seq<int>, ac: seq<Pos>,
                       h: seq<nat>, w: seq<seq<int>>, fuel: nat)
    requires idx < 4 && Neighbours(g, sym, current)[idx] == Open(child) && child != oldPos
    requires WayTo(g, sym, start, current, oldPos, steps, way)
    requires CountedWays(g, sym, start, goal, h, w)
    requires !Bak3.NeighboursInRange(g, child) || fuel == 0
    ensures var t := SeekChild(g, sym, goal, child, idx, current, steps, way, ac, h, w, fuel);
      && CountedWays(g, sym, start, goal, t.hits, t.ways)
      && (t.aborted ==> RaiseReachable(g, sym, start, steps + fuel + 1))
  {
    ChildAborts(g, sym, goal, child, idx, current, steps, way, ac, h, w, fuel);
    ChildRaises(g, sym, start, child, idx, current, oldPos, steps, way, fuel);
  }

  /** A child that is read and still allowed is searched one step deeper, soundly. */
  lemma {:induction false} ChildDeeperSound(g: Grid, sym: Symbols, start: Pos, goal: Pos, child: Pos, idx: nat,
                                            current: Pos, oldPos: Pos, steps: nat, way: seq<int>, ac: seq<Pos>,
                                            h: seq<nat>, w: seq<seq<int>>, fuel: nat)
    requires idx < 4 && Neighbours(g, sym, current)[idx] == Open(child) && child != oldPos
    requires WayTo(g, sym, start, current, oldPos, steps, way)
    requires CountedWays(g, sym, start, goal, h, w)
    requires Bak3.NeighboursInRange(g, child) && fuel > 0
    ensures var t := SeekChild(g, sym, goal, child, idx, current, steps, way, ac, h, w, fuel);
      && CountedWays(g, sym, start, goal, t.hits, t.ways)
      && (t.aborted ==> RaiseReachable(g, sym, start, steps + fuel + 1))
    decreases fuel, 0, 0
  {
    ChildWayTo(g, sym, start, child, idx, current, oldPos, steps, way);
    ChildDescends(g, sym, goal, child, idx, current, steps, way, ac, h, w, fuel);
    SeekSound(g, sym, start, goal, child, current, steps + 1, way + [idx], ac, h, w, fuel - 1, steps + fuel + 1);
  }

  /** A child whose read raises, or that the spent depth refuses, ends the search with the lists as they were. */
  lemma ChildAborts(g: Grid, sym: Symbols, goal: Pos, child: Pos, idx: nat, current: Pos, steps: nat,
                    way: seq<int>, ac: seq<Pos>, h: seq<nat>, w: seq<seq<int>>, fuel: nat)
    requires !Bak3.NeighboursInRange(g, child) || fuel == 0
    ensures SeekChild(g, sym, goal, child, idx, current, steps, way, ac, h, w, fuel) == Trace(h, w, true)
  {
  }

  /** A child that is read and still allowed is searched one step deeper. */
  lemma ChildDescends(g: Grid, sym: Symbols, goal: Pos, child: Pos, idx: nat, current: Pos, steps: nat,
                      way: seq<int>, ac: seq<Pos>, h: seq<nat>, w: seq<seq<int>>, fuel: nat)
    requires Bak3.NeighboursInRange(g, child) && fuel > 0
    ensures SeekChild(g, sym, goal, child, idx, current, steps, way, ac, h, w, fuel) ==
      Seek(g, sym, goal, child, current, steps + 1, way + [idx], ac, h, w, fuel - 1)
  {
  }

  /** A child whose read raises, or that the spent depth refuses, witnesses `RaiseReachable`. */
  lemma ChildRaises(g: Grid, sym: Symbols, start: Pos, child: Pos, idx: nat, current: Pos, oldPos: Pos,
                    steps: nat, way: seq<int>, fuel: nat)
    requires idx < 4 && Neighbours(g, sym, current)[idx] == Open(child) && child != oldPos
    requires WayTo(g, sym, start, current, oldPos, steps, way)
    requires !Bak3.NeighboursInRange(g, child) || fuel == 0
    ensures RaiseReachable(g, sym, start, steps + fuel + 1)
  {
    ChildWayTo(g, sym, start, child, idx, current, oldPos, steps, way);
    WayRaises(g, sym, start, child, current, steps + 1, way + [idx], steps + fuel + 1);
  }

  /**
   * Every length the search from `start` records is that of the U-turn-free
   * walk to the goal stored beside it; it raises only when the start's own
   * neighbour read falls off the maze or a `RaiseReachable` walk of at most
   * `fuel + 1` steps exists.
   */
  lemma RunSeekSound(g: Grid, sym: Symbols, start: Pos, goal: Pos, fuel: nat)
    ensures CountedWays(g, sym, start, goal, RunSeek(g, sym, start, goal, fuel).hits, RunSeek(g, sym, start, goal, fuel).ways)
    ensures RunSeek(g, sym, start, goal, fuel).aborted ==>
      !Bak3.NeighboursInRange(g, start) || RaiseReachable(g, sym, start, fuel + 1)
  {
    if Bak3.NeighboursInRange(g, start) {
      SeekSound(g, sym, start, goal, start, Pos(0, 0), 0, [], [], [], [], fuel, fuel + 1);
    }
  }

  /** A search at the goal records a hit no larger than its step count, unless it raises later. */
  lemma SeekGoalHit(g: Grid, sym: Symbols, goal: Pos, oldPos: Pos, steps: nat, way: seq<int>, ac: seq<Pos>,
                h: seq<nat>, w: seq<seq<int>>, fuel: nat)
    ensures var t := Seek(g, sym, goal, goal, oldPos, steps, way, ac, h, w, fuel);
      !t.aborted ==> |t.hits| > 0 && Min(t.hits) <= steps
  {
    var h1 := h + [steps];
    assert h1[|h|] == steps;
    assert Min(h1) <= steps;
    SeekGrows(g, sym, goal, goal, oldPos, steps, way, ac, h, w, fuel);
    var t := Seek(g, sym, goal, goal, oldPos, steps, way, ac, h, w, fuel);
    if !(steps > Min(h1)) {
      var res := Neighbours(g, sym, goal);
      SeekFromGrows(g, sym, goal, res, 0, goal, oldPos, steps, way, CountBlocked(res) <= 1, ac, h1, w + [way], fuel);
      MinOfExtension(h1, t.hits);
    }
  }

  /** The goal as the admitted neighbour `idx`: a hit of at most `steps + 1` unless the search raises. */
  lemma SeekGoalChildHit(g: Grid, sym: Symbols, goal: Pos, res: seq<Slot>, idx: nat, current: Pos, oldPos: Pos,
                     steps: nat, way: seq<int>, corner: bool, ac: seq<Pos>, h: seq<nat>, w: seq<seq<int>>, fuel: nat)
    requires |res| == 4 && idx < 4 && res[idx] == Open(goal) && goal !in ac && goal != oldPos
    ensures var t := SeekFrom(g, sym, goal, res, idx, current, oldPos, steps, way, corner, ac, h, w, fuel);
      !t.aborted ==> |t.hits| > 0 && Min(t.hits) <= steps + 1
  {
    var ac' := if corner then ac + [goal] else ac;
    var t := SeekChild(g, sym, goal, goal, idx, current, steps, way, ac', h, w, fuel);
    if fuel > 0 && Bak3.NeighboursInRange(g, goal) {
      SeekGoalHit(g, sym, goal, current, steps + 1, way + [idx], ac', h, w, fuel - 1);
      if !t.aborted {
        assert |t.hits| > 0 && Min(t.hits) <= steps + 1;
        SeekFromGrows(g, sym, goal, res, idx + 1, current, oldPos, steps, way, corner, ac', t.hits, t.ways, fuel);
        var u := SeekFrom(g, sym, goal, res, idx + 1, current, oldPos, steps, way, corner, ac', t.hits, t.ways, fuel);
        MinOfExtension(t.hits, u.hits);
      }
    }
  }

  /**
   * A loop that still has to reach neighbour `d`, the goal, admits it: unless
   * the search raises, a hit of at most `steps + 1` is recorded.
   */
  lemma {:induction false} SeekFromReaches(g: Grid, sym: Symbols, goal: Pos, res: seq<Slot>, idx: nat, d: nat,
                                              current: Pos, oldPos: Pos, steps: nat, way: seq<int>, corner: bool,
                                              ac: seq<Pos>, h: seq<nat>, w: seq<seq<int>>, fuel: nat)
    requires res == Neighbours(g, sym, current) && idx <= d < 4 && res[d] == Open(goal)
    requires goal !in ac && goal != oldPos
    ensures var t := SeekFrom(g, sym, goal, res, idx, current, oldPos, steps, way, corner, ac, h, w, fuel);
      !t.aborted ==> |t.hits| > 0 && Min(t.hits) <= steps + 1
    decreases d - idx
  {
    if idx == d {
      SeekGoalChildHit(g, sym, goal, res, idx, current, oldPos, steps, way, corner, ac, h, w, fuel);
    } else if res[idx].Open? && res[idx].pos !in ac && res[idx].pos != oldPos {
      var child := res[idx].pos;
      var ac' := if corner then ac + [child] else ac;
      var t := SeekChild(g, sym, goal, child, idx, current, steps, way, ac', h, w, fuel);
      if !t.aborted {
        DirectionInjective(current, idx, d);
        SeekFromReaches(g, sym, goal, res, idx + 1, d, current, oldPos, steps, way, corner, ac', t.hits, t.ways, fuel);
      }
    } else {
      SeekFromReaches(g, sym, goal, res, idx + 1, d, current, oldPos, steps, way, corner, ac, h, w, fuel);
    }
  }

  /**
   * A goal next to the start is found in one step: unless the search raises,
   * it records a hit and the shortest is 1.
   */
  lemma SeekFindsNeighbour(g: Grid, sym: Symbols, start: Pos, goal: Pos, fuel: nat, d: nat)
    requires start != goal && goal != Pos(0, 0)
    requires d < 4 && Neighbours(g, sym, start)[d] == Open(goal)
    ensures var t := RunSeek(g, sym, start, goal, fuel);
      !t.aborted ==> |t.hits| > 0 && Min(t.hits) == 1
  {
    var t := RunSeek(g, sym, start, goal, fuel);
    RunSeekSound(g, sym, start, goal, fuel);
    if Bak3.NeighboursInRange(g, start) {
      var res := Neighbours(g, sym, start);
      SeekFromReaches(g, sym, goal, res, 0, d, start, Pos(0, 0), 0, [], CountBlocked(res) <= 1, [], [], [], fuel);
      if !t.aborted {
        var k :| 0 <= k < |t.hits| && t.hits[k] == Min(t.hits);
        assert Walk(g, sym, start, t.ways[k]) == Some(goal);
        assert t.hits[k] != 0;
      }
    }
  }

  /**
   * What `find_shortest_way` makes of the search: sound, raising only with a
   * witness, 0 when the start is the goal and 1 when the goal is next to it,
   * unless the search raises.
   */
  lemma RunSeekOutcome(g: Grid, sym: Symbols, start: Pos, goal: Pos, fuel: nat)
    ensures var t := RunSeek(g, sym, start, goal, fuel);
      && CountedWays(g, sym, start, goal, t.hits, t.ways)
      && (t.aborted ==> !Bak3.NeighboursInRange(g, start) || RaiseReachable(g, sym, start, fuel + 1))
      && (start == goal && !t.aborted ==> |t.hits| > 0 && Min(t.hits) == 0)
      && (start != goal && goal != Pos(0, 0) && NextTo(g, sym, start, goal) && !t.aborted ==>
            |t.hits| > 0 && Min(t.hits) == 1)
  {
    RunSeekSound(g, sym, start, goal, fuel);
    if start == goal && Bak3.NeighboursInRange(g, start) {
      SeekGoalHit(g, sym, goal, Pos(0, 0), 0, [], [], [], [], fuel);
    }
    if start != goal && goal != Pos(0, 0) && NextTo(g, sym, start, goal) {
      var d :| 0 <= d < 4 && Neighbours(g, sym, start)[d] == Open(goal);
      SeekFindsNeighbour(g, sym, start, goal, fuel, d);
    }
  }

  /**
   * `pathfinding` of main.bak.py: only `after_corners` and `hits` are kept; ghost
   * `ways` records, beside each hit, the directions of the walk it counts.
   */
  class Search {
    const grid: Grid
    const sym: Symbols
    const start: Pos
    const goal: Pos

    var afterCorners: seq<Pos>
    var hits: seq<nat>
    ghost var ways: seq<seq<int>>
    /** The search raised: nothing after the raise has run. */
    var aborted: bool

    constructor (g: Grid, s: Symbols, from: Pos, to: Pos)
      ensures grid == g && sym == s && start == from && goal == to
      ensures afterCorners == [] && hits == [] && ways == [] && !aborted
    {
      grid, sym, start, goal := g, s, from, to;
      afterCorners, hits, ways, aborted := [], [], [], false;
    }

    /**
     * The node is checked for the goal first, so a hit is recorded even at a
     * count above the best; the prune on `steps > min(hits)` comes after, and
     * the loop restores `after_corners` at the end. The recorded lists and the
     * raise are those of `Seek`.
     */
    method Pathfinding(res: seq<Slot>, current: Pos, oldPos: Pos, steps: nat, fuel: nat, ghost way: seq<int>)
      requires !aborted
      requires res == Neighbours(grid, sym, current)
      modifies this
      ensures Trace(hits, ways, aborted) ==
        Seek(grid, sym, goal, current, oldPos, steps, way, old(afterCorners), old(hits), old(ways), fuel)
      ensures !aborted ==> afterCorners == old(afterCorners)
      decreases fuel, 1
    {
      if current == goal {
        hits := hits + [steps];
        ways := ways + [way];
      }
      var lastWasCorner := !(CountBlocked(res) > 1);
      if |hits| > 0 && steps > Min(hits) {
        return;
      }
      var originalAfterCorners := afterCorners;
      var idx := 0;
      while idx < 4
        invariant 0 <= idx <= 4 && !aborted
        invariant Seek(grid, sym, goal, current, oldPos, steps, way, old(afterCorners), old(hits), old(ways), fuel) ==
          SeekFrom(grid, sym, goal, res, idx, current, oldPos, steps, way, lastWasCorner, afterCorners, hits, ways, fuel)
      {
        var i := res[idx];
        if i.Open? && i.pos !in afterCorners && i.pos != oldPos {
          Expand(idx, i.pos, current, oldPos, steps, lastWasCorner, fuel, way);
          if aborted {
            return;
          }
        }
        idx := idx + 1;
      }
      afterCorners := originalAfterCorners;
    }

    /**
     * The loop body for an admitted child: its neighbour list is read (and may
     * raise), the child enters `after_corners` after a junction, and the search
     * recurses one step deeper; the outcome is `SeekChild`'s.
     */
    method Expand(idx: nat, child: Pos, current: Pos, oldPos: Pos, steps: nat, lastWasCorner: bool, fuel: nat, ghost way: seq<int>)
      requires !aborted
      requires idx < 4 && child !in afterCorners && child != oldPos
      modifies this
      ensures !aborted ==> afterCorners == if lastWasCorner then old(afterCorners) + [child] else old(afterCorners)
      ensures Trace(hits, ways, aborted) ==
        SeekChild(grid, sym, goal, child, idx, current, steps, way,
                if lastWasCorner then old(afterCorners) + [child] else old(afterCorners), old(hits), old(ways), fuel)
      decreases fuel, 0
    {
      ghost var ac' := if lastWasCorner then afterCorners + [child] else afterCorners;
      ghost var h0, w0 := hits, ways;
      var newRes := Bak3.CheckAllDirectionsUnguarded(grid, sym, child);
      if newRes.None? {
        ChildAborts(grid, sym, goal, child, idx, current, steps, way, ac', hits, ways, fuel);
        aborted := true;
        return;
      }
      afterCorners := if lastWasCorner then afterCorners + [child] else afterCorners;
      if fuel == 0 {
        ChildAborts(grid, sym, goal, child, idx, current, steps, way, ac', hits, ways, fuel);
        aborted := true;
        return;
      }
      ghost var target := SeekChild(grid, sym, goal, child, idx, current, steps, way, ac', h0, w0, fuel);
      ChildDescends(grid, sym, goal, child, idx, current, steps, way, ac', h0, w0, fuel);
      Pathfinding(newRes.value, child, current, steps + 1, fuel - 1, way + [idx]);
      assert Trace(hits, ways, aborted) == target;
    }
  }

  /**
   * `find_shortest_way` of main.bak.py: there is no check of start against goal;
   * the search runs from the start's neighbour list with `old_pos` (0, 0);
   * `False` when it recorded no hit, otherwise `min(hits)` is computed. `hits`
   * is the list the search recorded and `ways` the walks beside it.
   */
  method FindShortestWay(g: Grid, sym: Symbols, start: Pos, goal: Pos, fuel: nat)
    returns (r: Outcome, ghost hits: seq<nat>, ghost ways: seq<seq<int>>)
    ensures Trace(hits, ways, r == SearchRaised) == RunSeek(g, sym, start, goal, fuel)
    ensures CountedWays(g, sym, start, goal, hits, ways)
    ensures r != SearchRaised ==> (r == NoWay <==> hits == [])
    ensures r.Silent? ==> |hits| > 0 && r.shortest == Min(hits)
    ensures r != SearchRaised ==>
      forall k :: 0 <= k < |hits| ==> exists dirs :: |dirs| == hits[k] && Walk(g, sym, start, dirs) == Some(goal)
    ensures r.Silent? ==> exists dirs :: |dirs| == r.shortest && Walk(g, sym, start, dirs) == Some(goal)
    ensures r == SearchRaised ==> !Bak3.NeighboursInRange(g, start) || RaiseReachable(g, sym, start, fuel + 1)
    ensures start == goal ==> r == SearchRaised || r == Silent(0)
    ensures start != goal && goal != Pos(0, 0) && NextTo(g, sym, start, goal) ==> r == SearchRaised || r == Silent(1)
  {
    RunSeekOutcome(g, sym, start, goal, fuel);
    var res := Bak3.CheckAllDirectionsUnguarded(g, sym, start);
    RunSeekUnfolds(g, sym, start, goal, fuel);
    if res.None? {
      return SearchRaised, [], [];
    }
    var s := new Search(g, sym, start, goal);
    s.Pathfinding(res.value, start, Pos(0, 0), 0, fuel, []);
    hits, ways := s.hits, s.ways;
    if s.aborted {
      return SearchRaised, hits, ways;
    }
    CountedHaveWalks(g, sym, start, goal, hits, ways);
    if |s.hits| == 0 {
      return NoWay, hits, ways;
    }
    r := Silent(Min(s.hits));
  }

  /** The search from the start: the start's read first, then `Seek` from the start with empty lists. */
  lemma RunSeekUnfolds(g: Grid, sym: Symbols, start: Pos, goal: Pos, fuel: nat)
    ensures !Bak3.NeighboursInRange(g, start) ==> RunSeek(g, sym, start, goal, fuel) == Trace([], [], true)
    ensures Bak3.NeighboursInRange(g, start) ==>
      RunSeek(g, sym, start, goal, fuel) == Seek(g, sym, goal, start, Pos(0, 0), 0, [], [], [], [], fuel)
  {
  }

  /** Each counted length, the smallest included, is the length of a walk from the start to the goal. */
  lemma CountedHaveWalks(g: Grid, sym: Symbols, start: Pos, goal: Pos, h: seq<nat>, w: seq<seq<int>>)
    requires CountedWays(g, sym, start, goal, h, w)
    ensures forall k :: 0 <= k < |h| ==> exists dirs :: |dirs| == h[k] && Walk(g, sym, start, dirs) == Some(goal)
    ensures |h| > 0 ==> exists dirs :: |dirs| == Min(h) && Walk(g, sym, start, dirs) == Some(goal)
  {
    forall k | 0 <= k < |h|
      ensures exists dirs :: |dirs| == h[k] && Walk(g, sym, start, dirs) == Some(goal)
    {
      assert |w[k]| == h[k] && Walk(g, sym, start, w[k]) == Some(goal);
    }
    if |h| > 0 {
      var k :| 0 <= k < |h| && h[k] == Min(h);
      assert |w[k]| == Min(h) && Walk(g, sym, start, w[k]) == Some(goal);
    }
  }
}
