/**
 * The earlier variant kept in main.bak3.py. It shares the maze store, the ops,
 * the scan and the search with main.py; what differs is modelled here:
 * `check_collision` has no guard against a read past the maze, the consumer of the
 * update queue has no exit rule, a coin is worth exactly 1 and has no respawn
 * table, `regenerate_item` sleeps the whole delay before each attempt, and
 * `get_next_step` takes the length of whatever `find_shortest_way` returns, so a
 * search that finds no way raises TypeError. Nothing in this variant stops the
 * game, so every read waits for the queue as main.py's does while running.
 */
module Bak3 {
  import opened Wrappers
  import opened Grid
  import opened Collision
  import opened Pathfinder
  import opened Scan
  import Game

  /**
   * `check_collision` of main.bak3.py: the cell is read directly; a read past
   * the maze raises IndexError (`None`), and otherwise the block is classified
   * as main.py classifies it.
   */
  function CheckCollisionUnguarded(g: Grid, sym: Symbols, p: Pos, dx: int, dy: int): (r: Option<Collision>)
    ensures var q := FuturePos(p, dx, dy); r.None? <==> Cell(g, q.x, q.y).None?
    ensures r.Some? ==> r.value == CheckCollision(g, sym, p, dx, dy)
  {
    var q := FuturePos(p, dx, dy);
    match Cell(g, q.x, q.y)
    case None => None
    case Some(c) =>
      if c == sym.wall then Some(Collision(false, None))
      else if c == sym.empty then Some(Collision(true, None))
      else Some(Collision(true, Some(c)))
  }

  /** The cell one step in direction `d` from `p`. */
  function Toward(p: Pos, d: int): Pos
  {
    FuturePos(p, Direction(d).0, Direction(d).1)
  }

  /** All four reads `check_all_directions` makes around `p` find a cell. */
  predicate NeighboursInRange(g: Grid, p: Pos)
  {
    forall d :: 0 <= d < 4 ==> Cell(g, Toward(p, d).x, Toward(p, d).y).Some?
  }

  /**
   * `check_all_directions` of main.bak3.py: the same loop as main.py's, but the
   * first read past the maze raises out of it.
   */
  method CheckAllDirectionsUnguarded(g: Grid, sym: Symbols, p: Pos) returns (r: Option<seq<Slot>>)
    ensures r.Some? <==> NeighboursInRange(g, p)
    ensures r.Some? ==> r.value == Neighbours(g, sym, p)
  {
    var res: seq<Slot> := [];
    var dx, dy := 0, 0;
    var i := 0;
    while i < 4
      invariant 0 <= i <= 4 && |res| == i
      invariant forall j :: 0 <= j < i ==> res[j] == SlotAt(g, sym, p, j)
      invariant forall j :: 0 <= j < i ==> Cell(g, Toward(p, j).x, Toward(p, j).y).Some?
      invariant (dx, dy) == if i == 0 then (0, 0) else Direction(i - 1)
    {
      if dx == 0 && dy == 0 {
        dx := 1 * Speed;
      } else if dx == 1 && dy == 0 {
        dx := -1 * Speed;
      } else if dx == -1 && dy == 0 {
        dx := 0;
        dy := 1 * Speed;
      } else if dx == 0 && dy == 1 {
        dy := -1 * Speed;
      }
      assert (dx, dy) == Direction(i) && Toward(p, i) == FuturePos(p, dx, dy);
      var c := CheckCollisionUnguarded(g, sym, p, dx, dy);
      if c.None? {
        return None;
      }
      if c.value.allowed {
        res := res + [Open(FuturePos(p, dx, dy))];
      } else {
        res := res + [Blocked];
      }
      i := i + 1;
    }
    r := Some(res);
  }

  /**
   * On a rectangular maze, from one of its blocks the unguarded neighbour list
   * raises exactly when the block lies in the last column or the last row: a step
   * left of column 1 or above row 1 wraps round to the far side instead.
   */
  lemma RaisesOnlyAtFarEdges(g: Grid, p: Pos)
    requires Rectangular(g) && InGrid(g, p.x, p.y)
    ensures NeighboursInRange(g, p) <==> p.x < |g[0]| && p.y < |g|
  {
    var w := |g[0]|;
    assert |g[p.y - 1]| == w;
    if p.x < w && p.y < |g| {
      forall d | 0 <= d < 4
        ensures Cell(g, Toward(p, d).x, Toward(p, d).y).Some?
      {
        var q := Toward(p, d);
        var ri := if q.y - 1 >= 0 then q.y - 1 else |g| + (q.y - 1);
        assert 0 <= ri < |g| && |g[ri]| == w;
      }
    } else if p.x == w {
      assert Cell(g, Toward(p, 0).x, Toward(p, 0).y).None?;
    } else {
      assert Cell(g, Toward(p, 2).x, Toward(p, 2).y).None?;
    }
  }

  /**
   * `update_maze_block` of main.bak3.py: the items are taken in order and every
   * 3- or 6-tuple is applied; any other item is ignored, so only an IndexError
   * ends the consumer.
   */
  function ConsumeForever(s: Store): (r: Store)
    ensures r.stopped ==> s.stopped || r.stuck
    ensures r.stopped || r.pending == []
    decreases |s.pending|
  {
    if s.stopped || s.pending == [] then s
    else
      match ApplyOp(s.rows, s.pending[0])
      case Success(g) => ConsumeForever(Store(g, s.pending[1..], false, false))
      case Failure(g) => Store(g, s.pending[1..], true, true)
  }

  /** Without an exit rule the consumer behaves as main.py's does while the game runs. */
  lemma {:induction false} ConsumeForeverIsRunningConsume(s: Store)
    ensures ConsumeForever(s) == Consume(s, true)
    decreases |s.pending|
  {
    if !s.stopped && s.pending != [] {
      match ApplyOp(s.rows, s.pending[0])
      case Success(g) => ConsumeForeverIsRunningConsume(Store(g, s.pending[1..], false, false));
      case Failure(_) =>
    }
  }

  /** An empty tuple is passed over, whatever follows it. */
  lemma EmptyTupleIgnored(g: Grid, rest: seq<Op>)
    ensures ConsumeForever(Store(g, [Exit] + rest, false, false)) == ConsumeForever(Store(g, rest, false, false))
  {
    assert ([Exit] + rest)[1..] == rest;
  }

  /** Once a respawn's write is queued on a drained store, the next read finds the item. */
  lemma RespawnIsRead(s: Store, x: int, y: int, entity: char)
    requires !s.stopped && s.pending == [] && !s.stuck && InGrid(s.rows, x, y)
    ensures ReadAfterJoin(s.(pending := [Update(x, y, [entity])]), x, y, true) == Success(entity)
  {
    var g' := WriteCell(s.rows, x, y, [entity]).value;
    assert Consume(Store(g', [], false, false), true) == Store(g', [], false, false);
    assert Consume(s.(pending := [Update(x, y, [entity])]), true) == Store(g', [], false, false);
  }

  /** The arguments of a started `regenerate_item` thread: there is no table key. */
  datatype Job = Job(entity: char, pos: Pos, inFuture: int)

  /**
   * The part of the session a player's step acts on: the grid store, the redraw
   * signals, the player's position, coins and liveness, and the started jobs.
   */
  datatype World = World(store: Store, redraws: nat, at: Pos, coins: int, alive: bool, jobs: seq<Job>)

  /**
   * `entity_collision_handler` of main.bak3.py: a coin empties the player's
   * block, adds one coin and starts its respawn at that block; a ghost marker
   * kills the player; any other symbol does nothing.
   */
  function Collect(sym: Symbols, respawnTime: int, w: World, entity: char): (w': World)
    ensures w'.at == w.at && w'.store.rows == w.store.rows
    ensures w'.redraws == w.redraws + if entity == sym.coin || entity == sym.ghostMark then 1 else 0
  {
    if entity == sym.coin then
      w.(store := w.store.(pending := w.store.pending + [Update(w.at.x, w.at.y, [sym.empty])]),
         redraws := w.redraws + 1, coins := w.coins + 1,
         jobs := w.jobs + [Job(sym.coin, w.at, respawnTime)])
    else if entity == sym.ghostMark then
      w.(alive := false, redraws := w.redraws + 1)
    else w
  }

  /** A coin is worth exactly one, and only a ghost marker kills. */
  lemma CollectScoresOne(sym: Symbols, respawnTime: int, w: World, entity: char)
    requires sym.Distinct()
    ensures var w' := Collect(sym, respawnTime, w, entity);
      && w'.coins == w.coins + (if entity == sym.coin then 1 else 0)
      && (entity == sym.coin <==> w'.store.pending == w.store.pending + [Update(w.at.x, w.at.y, [sym.empty])])
      && (entity == sym.coin ==> w'.jobs == w.jobs + [Job(sym.coin, w.at, respawnTime)])
      && (entity != sym.coin ==> w'.jobs == w.jobs && w'.store == w.store)
      && (w'.alive <==> w.alive && entity != sym.ghostMark)
      && (entity != sym.coin && entity != sym.ghostMark ==> w' == w)
  {
    var w' := Collect(sym, respawnTime, w, entity);
    if entity != sym.coin {
      assert |w'.store.pending| == |w.store.pending|;
    }
  }

  /**
   * `handle_player_move` on the world: an unguarded `check_collision` on the maze
   * as it stands; an allowed step moves the player, runs the collision handler on
   * a found symbol and signals a redraw. `None` is the IndexError of the check.
   */
  function PlayerStep(sym: Symbols, respawnTime: int, w: World, dx: int, dy: int): (r: Option<World>)
    ensures dx == 0 && dy == 0 ==> r == Some(w)
    ensures r.Some? ==> r.value.store.rows == w.store.rows
    ensures r.Some? && r.value != w ==> r.value.at == FuturePos(w.at, dx, dy) && r.value.redraws > w.redraws
    ensures r.None? <==> (dx != 0 || dy != 0) && CheckCollisionUnguarded(w.store.rows, sym, w.at, dx, dy).None?
  {
    if dx == 0 && dy == 0 then Some(w)
    else match CheckCollisionUnguarded(w.store.rows, sym, w.at, dx, dy)
      case None => None
      case Some(c) =>
        if !c.allowed then Some(w)
        else
          var moved := w.(at := FuturePos(w.at, dx, dy));
          var after := if c.entity.Some? then Collect(sym, respawnTime, moved, c.entity.value) else moved;
          Some(after.(redraws := after.redraws + 1))
  }

  /**
   * A step lands on the next block when that block exists and is not a wall, and
   * scores one exactly when it held a coin; a step past the maze raises and leaves
   * the world as it was; a refused step changes nothing.
   */
  lemma PlayerStepLands(sym: Symbols, respawnTime: int, w: World, dx: int, dy: int)
    requires sym.Distinct() && (dx != 0 || dy != 0)
    ensures var q := FuturePos(w.at, dx, dy);
      var c := Cell(w.store.rows, q.x, q.y);
      var r := PlayerStep(sym, respawnTime, w, dx, dy);
      && (r.None? <==> c.None?)
      && (r.Some? && r.value.at != w.at <==> c.Some? && c.value != sym.wall)
      && (r.Some? && r.value.at != w.at ==>
            && r.value.at == q
            && r.value.coins == w.coins + (if c.value == sym.coin then 1 else 0)
            && (r.value.alive <==> w.alive && c.value != sym.ghostMark))
      && (r.Some? && r.value.at == w.at ==> r.value == w)
  {
    var q := FuturePos(w.at, dx, dy);
    var cc := CheckCollisionUnguarded(w.store.rows, sym, w.at, dx, dy);
    if cc.Some? && cc.value.allowed {
      var moved := w.(at := q);
      if cc.value.entity.Some? {
        CollectScoresOne(sym, respawnTime, moved, cc.value.entity.value);
      }
    }
  }

  /** What one attempt of `regenerate_item` ends with. */
  datatype Attempt =
    | Respawned        // the item was written back and the thread returns
    | Retry            // the player stands there or the block is taken: wait again
    | Hung             // `get_block` waits for a consumer that is gone
    | Raised           // IndexError, or the ValueError of a negative sleep

  class Player {
    var x: int
    var y: int
    var coins: int
    var isAlive: bool
    var canMove: bool

    constructor (x0: int, y0: int)
      ensures x == x0 && y == y0 && coins == 0 && isAlive && canMove
    {
      x, y, coins, isAlive, canMove := x0, y0, 0, true, true;
    }

    function At(): Pos
      reads this
    {
      Pos(x, y)
    }

    method Move(dx: int, dy: int)
      modifies this
      ensures At() == FuturePos(old(At()), dx, dy)
      ensures coins == old(coins) && isAlive == old(isAlive) && canMove == old(canMove)
    {
      x := x + dx * Speed;
      y := y + dy * Speed;
    }

    /** `add_coin`: one coin, whatever was collected. */
    method AddCoin()
      modifies this
      ensures coins == old(coins) + 1
      ensures At() == old(At()) && isAlive == old(isAlive) && canMove == old(canMove)
    {
      coins := coins + 1;
    }

    /** `kill`: the player dies and a redraw is signalled; no score is recorded. */
    method Kill(store: GridStore)
      modifies this, store
      ensures !isAlive && At() == old(At()) && coins == old(coins) && canMove == old(canMove)
      ensures store.State() == old(store.State()) && store.redraws == old(store.redraws) + 1
    {
      isAlive := false;
      store.redraws := store.redraws + 1;
    }
  }

  class Session {
    const store: GridStore
    const player: Player
    const sym: Symbols
    const lvl: Difficulty
    /** COIN_RESPAWN_TIME. */
    const respawnTime: int
    var ghosts: map<nat, Ghost>
    var jobs: seq<Job>

    constructor (st: GridStore, p: Player, s: Symbols, level: Difficulty, delay: int)
      ensures store == st && player == p && sym == s && lvl == level && respawnTime == delay
      ensures ghosts == map[] && jobs == []
    {
      store, player, sym, lvl, respawnTime := st, p, s, level, delay;
      ghosts, jobs := map[], [];
    }

    /** Ghost ids are the keys 0 .. n-1 and each ghost carries its own key. */
    predicate GhostsNumbered()
      reads this, ghosts.Values
    {
      && (forall i :: i in ghosts ==> i < |ghosts| && ghosts[i].id == i)
      && (forall i :: 0 <= i < |ghosts| ==> i in ghosts)
    }

    function Now(): World
      reads this, store, player
    {
      World(store.State(), store.redraws, player.At(), player.coins, player.isAlive, jobs)
    }

    /** `entity_collision_handler`, with the started respawn thread recorded as a job. */
    method EntityCollisionHandler(entity: char)
      modifies this, store, player
      ensures Now() == Collect(sym, respawnTime, old(Now()), entity)
      ensures ghosts == old(ghosts) && player.canMove == old(player.canMove)
    {
      if entity == sym.coin {
        var pos := player.At();
        store.UpdateBlock(pos.x, pos.y, [sym.empty]);
        player.AddCoin();
        jobs := jobs + [Job(entity, pos, respawnTime)];
      } else if entity == sym.ghostMark {
        player.Kill(store);
      }
    }

    /**
     * `handle_player_move`: `None` when the unguarded check raises; otherwise
     * whether the player moved, and a move blocks further moves until the
     * cooldown timer fires.
     */
    method HandlePlayerMove(dx: int, dy: int) returns (r: Option<bool>)
      modifies this, store, player
      ensures var w := PlayerStep(sym, respawnTime, old(Now()), dx, dy);
        && (r.None? <==> w.None?)
        && (w.Some? ==> Now() == w.value)
      ensures r == Some(true) <==>
        (dx != 0 || dy != 0) &&
        var c := CheckCollisionUnguarded(old(store.rows), sym, old(player.At()), dx, dy);
        c.Some? && c.value.allowed
      ensures player.canMove == (if r == Some(true) then false else old(player.canMove))
      ensures ghosts == old(ghosts)
    {
      r := Some(false);
      if dx != 0 || dy != 0 {
        var c := CheckCollisionUnguarded(store.rows, sym, player.At(), dx, dy);
        if c.None? {
          return None;
        }
        if c.value.allowed {
          player.Move(dx, dy);
          if c.value.entity.Some? {
            EntityCollisionHandler(c.value.entity.value);
          }
          store.redraws := store.redraws + 1;
          player.canMove := false;
          r := Some(true);
        }
      }
    }

    /**
     * One pass of `regenerate_item`'s `while True` loop: it sleeps the whole
     * delay (`waited`; a negative one raises ValueError), then writes the item
     * only when the player is elsewhere and the block reads as empty. After a
     * `Retry` the next pass sleeps the whole delay again.
     */
    method RegenerateAttempt(job: Job) returns (o: Attempt, waited: nat)
      modifies store
      ensures job.inFuture < 0 ==>
        o == Raised && waited == 0 && store.State() == old(store.State()) && store.redraws == old(store.redraws)
      ensures job.inFuture >= 0 ==>
        var rd := ReadAfterJoin(old(store.State()), job.pos.x, job.pos.y, true);
        var off := player.At() != job.pos;
        && waited == job.inFuture
        && (o == Respawned <==> off && rd == Success(sym.empty))
        && (o == Retry <==> !off || (rd.Success? && rd.value != sym.empty))
        && (o == Hung <==> off && rd == Failure(Hangs))
        && (o == Raised <==> off && rd == Failure(IndexError))
        && store.redraws == old(store.redraws) + (if o == Respawned then 1 else 0)
        && store.State() ==
             if !off then old(store.State())
             else
               var c := Consume(old(store.State()), true);
               if o == Respawned then c.(pending := [Update(job.pos.x, job.pos.y, [job.entity])]) else c
    {
      if job.inFuture < 0 {
        return Raised, 0;
      }
      waited := job.inFuture;
      if player.x != job.pos.x || player.y != job.pos.y {
        var b := store.GetBlock(job.pos.x, job.pos.y, true);
        if b == Success(sym.empty) {
          store.UpdateBlock(job.pos.x, job.pos.y, [job.entity]);
          return Respawned, waited;
        }
        if b.Failure? {
          o := if b.error == Hangs then Hung else Raised;
          return;
        }
      }
      o := Retry;
    }

    /**
     * One pass of `ghost_handler`'s loop: the ghost moves, and after a step the ghost
     * marker goes onto its new block and the remembered block gets back the symbol it
     * covered, in one 6-tuple. The handler runs until the program ends.
     */
    method GhostHandlerStep(g: Ghost, t: Game.Tracker, fuel: nat) returns (m: Moved, t': Game.Tracker)
      requires g.player == player
      modifies store, player, g
      ensures !m.Stepped? ==> t' == t && g.At() == old(g.At())
      ensures !m.Stepped? ==>
        && store.State() == (if m == NoStep || m == SearchFailed || m == NoWayRaised then old(store.State())
                             else Consume(old(store.State()), true))
        && store.redraws == old(store.redraws) && player.isAlive == old(player.isAlive)
      ensures m.Stepped? ==>
        && t' == Game.Tracker(m.prior, g.At())
        && m.prior != sym.ghostMark
        && Some(m.prior) == Cell(store.rows, g.x, g.y)
        && store.State() == Consume(old(store.State()), true).(
             pending := [Swap(g.x, g.y, [sym.ghostMark], t.pos.x, t.pos.y, [t.symbol])])
        && store.redraws == old(store.redraws) + 1 + (if g.At() == player.At() then 1 else 0)
        && player.isAlive == (old(player.isAlive) && g.At() != player.At())
      ensures player.At() == old(player.At()) && player.coins == old(player.coins)
    {
      t' := t;
      ghost var hits, ways;
      m, hits, ways := g.AutoMove(this, fuel);
      if m.Stepped? {
        store.SwapBlock(g.x, g.y, [sym.ghostMark], t.pos.x, t.pos.y, [t.symbol]);
        t' := Game.Tracker(m.prior, g.At());
      }
    }

    /**
     * `get_random_spawn_block`: waits for the queue, scans the maze, and draws one
     * of the candidate blocks; `None` is the `False` it returns when there is none.
     */
    method RandomSpawnBlock(allowed: set<char>) returns (r: Result<Option<Pos>, ReadError>)
      modifies store
      ensures store.State() == Consume(old(store.State()), true) && store.redraws == old(store.redraws)
      ensures r == Failure(Hangs) <==> store.pending != [] || store.stuck
      ensures r == Failure(IndexError) <==> store.pending == [] && !store.stuck && !Readable(store.rows)
      ensures r.Success? ==> store.pending == [] && !store.stuck
      ensures r.Success? && r.value.Some? ==> IsCandidate(store.rows, allowed, Some(player.At()), r.value.value)
      ensures r == Success(None) ==> forall p :: !IsCandidate(store.rows, allowed, Some(player.At()), p)
    {
      var joined := store.Drain(true);
      if !joined {
        return Failure(Hangs);
      }
      var blocks := SpawnCandidates(store.rows, allowed, Some(player.At()));
      if blocks.None? {
        return Failure(IndexError);
      }
      if |blocks.value| == 0 {
        return Success(None);
      }
      assert blocks.value[0] in blocks.value;
      var p :| p in blocks.value;
      r := Success(Some(p));
    }

    /**
     * `summon_ghost`: a random empty or coin block off the player's row and column
     * is drawn, the ghost is registered under the next id (`get_next_ghost_id`, the
     * number of ghosts), and the ghost marker is queued onto the block; the returned
     * tracker holds the symbol the marker covers.
     */
    method SummonGhost() returns (r: Result<Option<(Ghost, Game.Tracker)>, ReadError>)
      requires GhostsNumbered()
      modifies this, store
      ensures GhostsNumbered()
      ensures store.rows == Consume(old(store.State()), true).rows
      ensures r.Success? && r.value.Some? ==>
        var g := r.value.value.0;
        && fresh(g) && g.id == old(|ghosts|) && ghosts == old(ghosts)[g.id := g] && g.player == player
        && IsCandidate(store.rows, {sym.empty, sym.coin}, Some(player.At()), g.At())
        && r.value.value.1 == Game.Tracker(Cell(store.rows, g.x, g.y).value, g.At())
        && store.pending == [Update(g.x, g.y, [sym.ghostMark])]
      ensures store.redraws == old(store.redraws) + if r.Success? && r.value.Some? then 1 else 0
      ensures r == Success(None) <==>
        store.pending == [] && !store.stuck && Readable(store.rows) &&
        forall p :: !IsCandidate(store.rows, {sym.empty, sym.coin}, Some(player.At()), p)
      ensures r.Failure? ==> (r.error == Hangs <==> store.pending != [] || store.stuck)
      ensures !(r.Success? && r.value.Some?) ==> ghosts == old(ghosts)
      ensures jobs == old(jobs)
    {
      var b := RandomSpawnBlock({sym.empty, sym.coin});
      if b.Failure? {
        assert b.error == Hangs || b.error == IndexError;
        return Failure(b.error);
      }
      if b.value.None? {
        return Success(None);
      }
      var at := b.value.value;
      var g, t := PlaceGhost(at);
      r := Success(Some((g, t)));
    }

    /**
     * The second half of `summon_ghost`, on a drained store and a block that reads:
     * the ghost is registered under the next id, the symbol on the block is read
     * and the ghost marker is queued onto it.
     */
    method PlaceGhost(at: Pos) returns (g: Ghost, t: Game.Tracker)
      requires GhostsNumbered()
      requires store.pending == [] && !store.stuck && Cell(store.rows, at.x, at.y).Some?
      modifies this, store
      ensures GhostsNumbered()
      ensures fresh(g) && g.id == old(|ghosts|) && ghosts == old(ghosts)[g.id := g] && g.player == player && g.At() == at
      ensures store.rows == old(store.rows) && store.pending == [Update(at.x, at.y, [sym.ghostMark])]
      ensures t == Game.Tracker(Cell(store.rows, at.x, at.y).value, at)
      ensures !store.stuck && store.redraws == old(store.redraws) + 1
      ensures jobs == old(jobs)
    {
      var id := |ghosts|;
      g := new Ghost(id, at.x, at.y, player);
      ghosts := ghosts[id := g];
      var under := store.GetBlock(at.x, at.y, true);
      assert under.Success?;
      store.UpdateBlock(at.x, at.y, [sym.ghostMark]);
      t := Game.Tracker(under.value, at);
    }
  }

  /** What a ghost's `move` or `auto_move` comes to. */
  datatype Moved =
    | Refused                   // `move` returned False: a ghost marker on the target
    | Stepped(prior: char)      // the symbol the ghost stepped on
    | NoStep                    // `auto_move` returned False: the ghost is on the player
    | ReadFailed(err: ReadError)
    | SearchFailed              // the search raised RecursionError
    | NoWayRaised               // `len(False)` raised TypeError: no way to the player

  /** What `get_next_step` yields: a direction, False, or one of two raises. */
  datatype NextStep = Arrived | Step(dir: int) | Overflow | LenOfFalse

  class Ghost {
    const id: nat
    var x: int
    var y: int
    const player: Player

    constructor (i: nat, x0: int, y0: int, p: Player)
      ensures id == i && x == x0 && y == y0 && player == p
    {
      id, x, y, player := i, x0, y0, p;
    }

    function At(): Pos
      reads this
    {
      Pos(x, y)
    }

    /**
     * `move`: the target block is read through `get_block`; a ghost marker there
     * refuses the step, otherwise the ghost steps and reports the symbol it stepped
     * on, killing the player when it lands on the player.
     */
    method Move(s: Session, dx: int, dy: int) returns (r: Moved)
      requires s.player == player
      modifies this, s.store, player
      ensures s.store.State() == Consume(old(s.store.State()), true)
      ensures s.store.redraws == old(s.store.redraws) + if r.Stepped? && At() == old(player.At()) then 1 else 0
      ensures var target := FuturePos(old(At()), dx, dy);
        var rd := ReadAfterJoin(old(s.store.State()), target.x, target.y, true);
        && (r.ReadFailed? <==> rd.Failure?)
        && (r == Refused <==> rd == Success(s.sym.ghostMark))
        && (r.Stepped? ==> rd == Success(r.prior))
        && (r.Stepped? || r.ReadFailed? || r == Refused)
        && At() == (if r.Stepped? then target else old(At()))
      ensures r.Stepped? && At() == old(player.At()) ==> !player.isAlive
      ensures !(r.Stepped? && At() == old(player.At())) ==> player.isAlive == old(player.isAlive)
      ensures player.At() == old(player.At()) && player.coins == old(player.coins)
    {
      var target := FuturePos(At(), dx, dy);
      var b := s.store.GetBlock(target.x, target.y, true);
      if b.Failure? {
        return ReadFailed(b.error);
      }
      if b.value == s.sym.ghostMark {
        return Refused;
      }
      x := x + dx * Speed;
      y := y + dy * Speed;
      if x == player.x && y == player.y {
        player.Kill(s.store);
      }
      r := Stepped(b.value);
    }

    /**
     * `get_next_step`: the first direction of the way `find_shortest_way` picks;
     * False when the ghost is on the player already; when there is no way the
     * `len` of the returned False raises.
     */
    method GetNextStep(s: Session, fuel: nat) returns (r: NextStep, ghost hits: seq<nat>, ghost ways: seq<seq<int>>)
      requires s.player == player
      ensures r == Arrived <==> At() == player.At()
      ensures At() == player.At() ==> hits == []
      ensures At() != player.At() ==> RecordedWays(s.store.rows, s.sym, At(), player.At(), hits, ways)
      ensures r != Overflow ==> (r == LenOfFalse <==> At() != player.At() && hits == [])
      ensures r.Step? ==>
        exists dirs :: Selected(s.lvl, hits, ways, dirs) && |dirs| > 0 && dirs[0] == r.dir && NoUTurn(dirs) &&
          Walk(s.store.rows, s.sym, At(), dirs) == Some(player.At())
      ensures At() != player.At() ==> Trace(hits, ways, r == Overflow) == RunSearch(s.store.rows, s.sym, At(), player.At(), fuel)
      ensures r == Overflow ==> LongWalk(s.store.rows, s.sym, At(), fuel + 1)
      ensures At() != player.At() && player.At() != Pos(0, 0) && NextTo(s.store.rows, s.sym, At(), player.At()) ==>
        r == Overflow || (r.Step? && Walk(s.store.rows, s.sym, At(), [r.dir]) == Some(player.At()))
    {
      var path;
      path, hits, ways := FindShortestWay(s.store.rows, s.sym, At(), player.At(), s.lvl, fuel);
      match path
      case DepthExceeded => r := Overflow;
      case NotFound => r := LenOfFalse;
      case Found(dirs) =>
        if |dirs| == 0 {
          r := Arrived;
        } else {
          r := Step(dirs[0]);
          if |dirs| == 1 {
            assert dirs == [r.dir];
          }
        }
    }

    /**
     * `auto_move`: steps along the first direction of a shortest way to the player;
     * on the player already nothing happens.
     */
    method AutoMove(s: Session, fuel: nat) returns (r: Moved, ghost hits: seq<nat>, ghost ways: seq<seq<int>>)
      requires s.player == player
      modifies this, s.store, player
      ensures r == NoStep || r == SearchFailed || r == NoWayRaised ==> s.store.State() == old(s.store.State())
      ensures !r.Stepped? ==>
        At() == old(At()) && s.store.redraws == old(s.store.redraws) && player.isAlive == old(player.isAlive)
      ensures r == NoStep <==> old(At()) == old(player.At())
      ensures old(At()) == old(player.At()) ==> hits == []
      ensures old(At()) != old(player.At()) ==>
        RecordedWays(old(s.store.rows), s.sym, old(At()), old(player.At()), hits, ways)
      ensures r != SearchFailed ==> (r == NoWayRaised <==> old(At()) != old(player.At()) && hits == [])
      ensures r.Stepped? ==> s.store.pending == [] && !s.store.stuck
      ensures r.Stepped? || r.ReadFailed? || r == Refused ==> s.store.State() == Consume(old(s.store.State()), true)
      ensures r.Stepped? || r.ReadFailed? || r == Refused ==>
        exists dirs :: Selected(s.lvl, hits, ways, dirs) && |dirs| > 0 && NoUTurn(dirs) &&
          Walk(old(s.store.rows), s.sym, old(At()), dirs) == Some(old(player.At())) &&
          (r.Stepped? ==> At() == FuturePos(old(At()), Direction(dirs[0]).0 * Speed, Direction(dirs[0]).1 * Speed))
      ensures r.Stepped? ==> s.store.redraws == old(s.store.redraws) + if At() == old(player.At()) then 1 else 0
      ensures r.Stepped? ==> player.isAlive == (old(player.isAlive) && At() != old(player.At()))
      ensures r.Stepped? ==> Some(r.prior) == Cell(s.store.rows, At().x, At().y) && r.prior != s.sym.ghostMark
      ensures player.At() == old(player.At()) && player.coins == old(player.coins)
      ensures old(At()) != old(player.At()) ==>
        Trace(hits, ways, r == SearchFailed) == RunSearch(old(s.store.rows), s.sym, old(At()), old(player.At()), fuel)
      ensures r == SearchFailed ==> LongWalk(old(s.store.rows), s.sym, old(At()), fuel + 1)
      ensures (old(At()) != old(player.At()) && old(player.At()) != Pos(0, 0) &&
               NextTo(old(s.store.rows), s.sym, old(At()), old(player.At()))) ==>
        r != NoWayRaised && (r.Stepped? ==> At() == old(player.At()) && !player.isAlive)
    {
      var step;
      step, hits, ways := GetNextStep(s, fuel);
      if step.Overflow? {
        return SearchFailed, hits, ways;
      }
      if step.LenOfFalse? {
        return NoWayRaised, hits, ways;
      }
      if step.Arrived? {
        return NoStep, hits, ways;
      }
      var v := Direction(step.dir);
      if Walk(s.store.rows, s.sym, At(), [step.dir]) == Some(player.At()) {
        OneStepWalk(s.store.rows, s.sym, At(), step.dir, player.At());
      }
      r := Move(s, v.0 * Speed, v.1 * Speed);
    }
  }
}
