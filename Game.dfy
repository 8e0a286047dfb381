/**
 * The agents and the game session of main.py: the player, the ghosts, the
 * respawn jobs, the collision handler and the config record queue. The session
 * stands for the module-level state the source keeps in globals (`maze` and its
 * update queue, `ghosts`, `pending_respawns`, `running`, `config_update_queue`).
 * A thread start becomes a recorded job; one pass of a thread's loop becomes a
 * method.
 */
module Game {
  import opened Wrappers
  import opened Grid
  import opened Collision
  import opened Pathfinder
  import opened Respawns
  import opened Config
  import opened Snapshot
  import opened Scan

  /** The values of the constants module the core depends on. */
  datatype Settings = Settings(sym: Symbols, coinValue: int, bigcoinValue: int, coinRespawnTime: int, bigcoinLimit: int)

  /** The arguments of a started `regenerate_item` thread. */
  datatype Job = Job(entity: char, pos: Pos, key: nat, inFuture: int)

  /**
   * The part of the session a player's step acts on: the grid store, the number
   * of redraw signals, the player's position, coins and liveness, the respawn
   * table, the started respawn jobs, the running flag and the config queue.
   */
  datatype World = World(
    store: Store, redraws: nat, at: Pos, coins: int, alive: bool,
    pending: Table, jobs: seq<Job>, running: bool, configQueue: seq<Items>)

  /**
   * `entity_collision_handler` on the world: a coin empties the player's block,
   * scores `coinValue` and schedules its respawn under a fresh key; a big coin
   * empties the block and scores `bigcoinValue`; a ghost marker kills the player;
   * any other symbol does nothing.
   */
  function Collect(k: Settings, lvl: Difficulty, w: World, entity: char, highscore: int): (w': World)
    ensures w'.at == w.at && w'.store.rows == w.store.rows
    ensures w'.redraws == w.redraws +
      if entity == k.sym.coin || entity == k.sym.bigcoin || entity == k.sym.ghostMark then 1 else 0
  {
    var emptied := w.store.(pending := w.store.pending + [Update(w.at.x, w.at.y, [k.sym.empty])]);
    if entity == k.sym.coin then
      w.(store := emptied, redraws := w.redraws + 1, coins := w.coins + k.coinValue,
         pending := Prepare(w.pending, Respawn(k.sym.coin, w.at, k.coinRespawnTime)),
         jobs := w.jobs + [Job(k.sym.coin, w.at, NextKey(w.pending), k.coinRespawnTime)])
    else if entity == k.sym.bigcoin then
      w.(store := emptied, redraws := w.redraws + 1, coins := w.coins + k.bigcoinValue)
    else if entity == k.sym.ghostMark then
      w.(alive := false, running := false, redraws := w.redraws + 1,
         configQueue := w.configQueue + [KillItems(lvl, w.coins, highscore)])
    else w
  }

  /** The score a collected symbol is worth. */
  function Worth(k: Settings, entity: char): int
  {
    if entity == k.sym.coin then k.coinValue
    else if entity == k.sym.bigcoin then k.bigcoinValue
    else 0
  }

  /**
   * Scoring: the coins grow by exactly the symbol's worth, and the player's block
   * is queued to become empty exactly when a coin or a big coin was collected.
   */
  lemma CollectScores(k: Settings, lvl: Difficulty, w: World, entity: char, highscore: int)
    requires k.sym.Distinct()
    ensures Collect(k, lvl, w, entity, highscore).coins == w.coins + Worth(k, entity)
    ensures (entity == k.sym.coin || entity == k.sym.bigcoin) <==>
      Collect(k, lvl, w, entity, highscore).store.pending == w.store.pending + [Update(w.at.x, w.at.y, [k.sym.empty])]
    ensures !(entity == k.sym.coin || entity == k.sym.bigcoin) ==>
      Collect(k, lvl, w, entity, highscore).store == w.store
  {
    var w' := Collect(k, lvl, w, entity, highscore);
    if !(entity == k.sym.coin || entity == k.sym.bigcoin) {
      assert w'.store.pending == w.store.pending;
      assert |w'.store.pending| != |w.store.pending + [Update(w.at.x, w.at.y, [k.sym.empty])]|;
    }
  }

  /**
   * The respawn table: only a collected coin adds an entry, under the key no entry
   * had, holding the coin, the player's block and `coinRespawnTime`, and a job for
   * exactly that entry is started; every earlier entry is kept.
   */
  lemma CollectSchedules(k: Settings, lvl: Difficulty, w: World, entity: char, highscore: int)
    ensures var w' := Collect(k, lvl, w, entity, highscore);
      && (forall key :: key in w.pending ==> key in w'.pending && w'.pending[key] == w.pending[key])
      && (entity == k.sym.coin ==>
            && NextKey(w.pending) !in w.pending
            && w'.pending.Keys == w.pending.Keys + {NextKey(w.pending)}
            && w'.pending[NextKey(w.pending)] == Respawn(k.sym.coin, w.at, k.coinRespawnTime)
            && w'.jobs == w.jobs + [Job(k.sym.coin, w.at, NextKey(w.pending), k.coinRespawnTime)])
      && (entity != k.sym.coin ==> w'.pending == w.pending && w'.jobs == w.jobs)
  {
  }

  /**
   * Only the ghost marker ends the game, and the record it queues, once applied to
   * the config `highscore` was read from, marks the play dead and keeps the score
   * rule of `kill`.
   */
  lemma CollectGhostEndsGame(k: Settings, lvl: Difficulty, w: World, entity: char, highscore: int, c: Json)
    requires k.sym.Distinct() && w.running && w.alive
    requires Lookup(c, CurrentPlay).Some? && Lookup(c, CurrentPlay).value.JObject?
    requires Lookup(c, ScoreOf(lvl)).Some? && Lookup(c, ScoreOf(lvl)).value.JObject?
    requires Lookup(c, ScoreOf(lvl) + ["highscore"]) == Some(JInt(highscore))
    ensures var w' := Collect(k, lvl, w, entity, highscore);
      && (!w'.running <==> entity == k.sym.ghostMark)
      && (!w'.alive <==> entity == k.sym.ghostMark)
      && (entity == k.sym.ghostMark ==>
            && w'.configQueue == w.configQueue + [KillItems(lvl, w.coins, highscore)]
            && ApplyItems(c, KillItems(lvl, w.coins, highscore)).Success?
            && var c' := ApplyItems(c, KillItems(lvl, w.coins, highscore)).value;
               && Lookup(c', CurrentPlay + ["is_alive"]) == Some(JBool(false))
               && Lookup(c', ScoreOf(lvl) + ["last_score"]) == Some(JInt(w.coins))
               && Lookup(c', ScoreOf(lvl) + ["highscore"]) ==
                    Some(JInt(if w.coins > highscore then w.coins else highscore)))
      && (entity != k.sym.ghostMark ==> w'.configQueue == w.configQueue)
  {
    if entity == k.sym.ghostMark {
      KillRecordsScore(c, lvl, w.coins, highscore);
    }
  }

  /**
   * One step of `handle_player_move` on the world: a non-zero step onto a block
   * `check_collision` allows moves the player, hands a found symbol to the
   * collision handler, and signals a redraw.
   */
  function PlayerStep(k: Settings, lvl: Difficulty, w: World, dx: int, dy: int, highscore: int): (w': World)
    ensures dx == 0 && dy == 0 ==> w' == w
    ensures w'.store.rows == w.store.rows
    ensures w' != w ==> w'.at == FuturePos(w.at, dx, dy) && w'.redraws > w.redraws
    ensures w' != w ==> CheckCollision(w.store.rows, k.sym, w.at, dx, dy).allowed
  {
    var c := CheckCollision(w.store.rows, k.sym, w.at, dx, dy);
    if (dx != 0 || dy != 0) && c.allowed then
      var w1 := w.(at := FuturePos(w.at, dx, dy));
      var w2 := if c.entity.Some? then Collect(k, lvl, w1, c.entity.value, highscore) else w1;
      w2.(redraws := w2.redraws + 1)
    else w
  }

  /**
   * The player only ever lands on a block of the current maze that is not a wall,
   * one step away, and the step scores what the symbol there is worth.
   */
  lemma PlayerStepLands(k: Settings, lvl: Difficulty, w: World, dx: int, dy: int, highscore: int)
    requires k.sym.Distinct()
    ensures var w' := PlayerStep(k, lvl, w, dx, dy, highscore);
      && (w'.at != w.at ==>
            && w'.at == FuturePos(w.at, dx, dy)
            && Cell(w.store.rows, w'.at.x, w'.at.y).Some?
            && Cell(w.store.rows, w'.at.x, w'.at.y).value != k.sym.wall
            && w'.coins == w.coins + Worth(k, Cell(w.store.rows, w'.at.x, w'.at.y).value))
      && (Cell(w.store.rows, FuturePos(w.at, dx, dy).x, FuturePos(w.at, dx, dy).y).None? ==> w' == w)
  {
    var c := CheckCollision(w.store.rows, k.sym, w.at, dx, dy);
    if (dx != 0 || dy != 0) && c.allowed {
      var w1 := w.(at := FuturePos(w.at, dx, dy));
      if c.entity.Some? {
        CollectScores(k, lvl, w1, c.entity.value, highscore);
      }
    }
  }

  /** The jobs `load_pending_respawns` starts: entry i under key `from + i`. */
  function JobsFor(from: nat, rs: seq<Respawn>): (js: seq<Job>)
    ensures |js| == |rs|
    ensures forall i :: 0 <= i < |rs| ==> js[i].key == from + i && js[i].entity == rs[i].entity
  {
    seq(|rs|, i requires 0 <= i < |rs| => Job(rs[i].entity, rs[i].pos, from + i, rs[i].remaining))
  }

  /** One more entry loaded: its preparation and its job extend those of the entries before it. */
  lemma LoadStep(t: Table, entries: seq<Respawn>, i: nat)
    requires i < |entries|
    ensures var e := entries[i];
      && NextKey(PrepareAll(t, entries[..i])) == NextKey(t) + i
      && Prepare(PrepareAll(t, entries[..i]), e) == PrepareAll(t, entries[..i + 1])
      && JobsFor(NextKey(t), entries[..i]) + [Job(e.entity, e.pos, NextKey(t) + i, e.remaining)]
         == JobsFor(NextKey(t), entries[..i + 1])
  {
    assert entries[..i + 1] == entries[..i] + [entries[i]];
    PrepareAllNextKey(t, entries[..i]);
    PrepareAllSnoc(t, entries[..i], entries[i]);
    JobsForSnoc(NextKey(t), entries, i);
  }

  lemma JobsForSnoc(from: nat, entries: seq<Respawn>, i: nat)
    requires i < |entries|
    ensures var e := entries[i];
      JobsFor(from, entries[..i]) + [Job(e.entity, e.pos, from + i, e.remaining)] == JobsFor(from, entries[..i + 1])
  {
    var a := JobsFor(from, entries[..i]) + [Job(entries[i].entity, entries[i].pos, from + i, entries[i].remaining)];
    var b := JobsFor(from, entries[..i + 1]);
    assert |a| == |b|;
    forall j | 0 <= j < |a|
      ensures a[j] == b[j]
    {
      assert entries[..i + 1][j] == entries[j];
      if j < i {
        assert entries[..i][j] == entries[j];
      }
    }
  }

  /** What one attempt of `regenerate_item` ends in. */
  datatype Attempt =
    | Stopped       // `running` became false during the countdown
    | Respawned     // the item was written and its entry deleted
    | Retry         // the player stands on the block, or it is not empty: the loop starts again
    | Hung          // `get_block` waits forever on the update queue
    | Raised        // the thread dies: IndexError in `get_block` or KeyError in `del`

  /** The table once a job's countdown has run: the entry holds remaining time 1. */
  function Counted(t: Table, job: Job): (t': Table)
    ensures job.inFuture > 0 ==> job.key in t' && t'[job.key].remaining == 1
    ensures forall key :: key in t && key != job.key ==> key in t' && t'[key] == t[key]
  {
    if job.inFuture > 0 then t[job.key := Respawn(job.entity, job.pos, 1)] else t
  }

  /**
   * The items `cleanup` re-enters for ghosts 0 .. n-1, in id order: the symbol each
   * ghost covers, unless empty, at the ghost's block, one second off.
   */
  function Leftovers(ghosts: map<nat, Ghost>, empty: char, n: nat): (rs: seq<Respawn>)
    reads ghosts.Values
    requires forall i :: 0 <= i < n ==> i in ghosts
    ensures |rs| <= n
  {
    if n == 0 then []
    else
      var g := ghosts[n - 1];
      Leftovers(ghosts, empty, n - 1) + (if g.oldSymbol != empty then [Respawn(g.oldSymbol, g.At(), 1)] else [])
  }

  /**
   * The left-overs are exactly the non-empty symbols the ghosts cover, each at its
   * ghost's block with remaining time 1.
   */
  lemma {:induction false} LeftoversExactly(ghosts: map<nat, Ghost>, empty: char, n: nat)
    requires forall i :: 0 <= i < n ==> i in ghosts
    ensures var rs := Leftovers(ghosts, empty, n);
      && (forall r :: r in rs ==> r.remaining == 1 && r.entity != empty)
      && (forall j :: 0 <= j < n && ghosts[j].oldSymbol != empty ==> Respawn(ghosts[j].oldSymbol, ghosts[j].At(), 1) in rs)
      && (forall r :: r in rs ==> exists j :: 0 <= j < n && r == Respawn(ghosts[j].oldSymbol, ghosts[j].At(), 1))
  {
    if n > 0 {
      LeftoversExactly(ghosts, empty, n - 1);
      var g := ghosts[n - 1];
      var rs := Leftovers(ghosts, empty, n);
      var last := if g.oldSymbol != empty then [Respawn(g.oldSymbol, g.At(), 1)] else [];
      assert rs == Leftovers(ghosts, empty, n - 1) + last;
      forall r | r in rs
        ensures exists j :: 0 <= j < n && r == Respawn(ghosts[j].oldSymbol, ghosts[j].At(), 1)
      {
        if r in last {
          assert r == Respawn(ghosts[n - 1].oldSymbol, ghosts[n - 1].At(), 1);
        }
      }
    }
  }

  /** One more ghost visited by `cleanup`: its left-over, if any, is prepared after the others. */
  lemma CleanupStep(t: Table, ghosts: map<nat, Ghost>, empty: char, i: nat)
    requires forall j :: 0 <= j <= i ==> j in ghosts
    ensures var g := ghosts[i];
      PrepareAll(t, Leftovers(ghosts, empty, i + 1)) ==
        if g.oldSymbol != empty then Prepare(PrepareAll(t, Leftovers(ghosts, empty, i)), Respawn(g.oldSymbol, g.At(), 1))
        else PrepareAll(t, Leftovers(ghosts, empty, i))
  {
    var g := ghosts[i];
    var before := Leftovers(ghosts, empty, i);
    if g.oldSymbol != empty {
      PrepareAllSnoc(t, before, Respawn(g.oldSymbol, g.At(), 1));
    } else {
      assert before + [] == before;
    }
  }

  /** The position `ghost_handler` remembers between moves, and the symbol it covers. */
  datatype Tracker = Tracker(symbol: char, pos: Pos)

  /** What a summon of a big coin can fail with. */
  datatype SummonFault =
    | ReadFault(err: ReadError)
    | NoSpawnBlock          // `get_random_spawn_block` returned False: indexing it raises TypeError

  class Player {
    var x: int
    var y: int
    var coins: int
    var isAlive: bool
    var canMove: bool

    /** `Player.__init__` without the spawn-on-coin step (`Session.CollectSpawnCoin`). */
    constructor (x0: int, y0: int, coins0: int)
      ensures x == x0 && y == y0 && coins == coins0 && isAlive && canMove
    {
      x, y, coins, isAlive, canMove := x0, y0, coins0, true, true;
    }

    function At(): Pos
      reads this
    {
      Pos(x, y)
    }

    /** `move`: one step of `speed` blocks along (dx, dy). */
    method Move(dx: int, dy: int)
      modifies this
      ensures At() == FuturePos(old(At()), dx, dy)
      ensures coins == old(coins) && isAlive == old(isAlive) && canMove == old(canMove)
    {
      x := x + dx * Speed;
      y := y + dy * Speed;
    }

    method AddCoins(n: int)
      modifies this
      ensures coins == old(coins) + n
      ensures At() == old(At()) && isAlive == old(isAlive) && canMove == old(canMove)
    {
      coins := coins + n;
    }

    /**
     * `kill`: the player dies, the score record (with the highscore only when the
     * coins beat the stored `highscore`) is queued, and the game stops.
     */
    method Kill(s: Session, highscore: int)
      requires s.player == this
      modifies this, s, s.store
      ensures !isAlive && At() == old(At()) && coins == old(coins) && canMove == old(canMove)
      ensures s.configQueue == old(s.configQueue) + [KillItems(s.lvl, coins, highscore)]
      ensures !s.running
      ensures s.store.State() == old(s.store.State()) && s.store.redraws == old(s.store.redraws) + 1
      ensures s.ghosts == old(s.ghosts) && s.pending == old(s.pending) && s.jobs == old(s.jobs)
    {
      isAlive := false;
      s.configQueue := s.configQueue + [KillItems(s.lvl, coins, highscore)];
      s.store.redraws := s.store.redraws + 1;
      s.running := false;
    }
  }

  class Session {
    const store: GridStore
    const player: Player
    const k: Settings
    const lvl: Difficulty
    var ghosts: map<nat, Ghost>
    var pending: Table
    var jobs: seq<Job>
    var running: bool
    var configQueue: seq<Items>

    /** The state `start_game` sets up before the threads start. */
    constructor (st: GridStore, p: Player, settings: Settings, level: Difficulty)
      ensures store == st && player == p && k == settings && lvl == level
      ensures ghosts == map[] && pending == map[] && jobs == [] && running && configQueue == []
    {
      store, player, k, lvl := st, p, settings, level;
      ghosts, pending, jobs, running, configQueue := map[], map[], [], true, [];
    }

    /** Ghost ids are the keys 0 .. n-1 and each ghost carries its own key. */
    predicate GhostsNumbered()
      reads this, ghosts.Values
    {
      && (forall i :: i in ghosts ==> i < |ghosts| && ghosts[i].id == i)
      && (forall i :: 0 <= i < |ghosts| ==> i in ghosts)
    }

    /** `prepare_regeneration_item`: the item is entered under a fresh key. */
    method PrepareRegenerationItem(entity: char, pos: Pos, inFuture: int) returns (job: Job)
      modifies this
      ensures job == Job(entity, pos, NextKey(old(pending)), inFuture)
      ensures pending == Prepare(old(pending), Respawn(entity, pos, inFuture))
      ensures job.key !in old(pending)
      ensures ghosts == old(ghosts) && jobs == old(jobs) && running == old(running)
      ensures configQueue == old(configQueue)
    {
      var key := NextKey(pending);
      pending := pending[key := Respawn(entity, pos, inFuture)];
      job := Job(entity, pos, key, inFuture);
    }

    /** The session as a player's step sees it. */
    function Now(): World
      reads this, store, player
    {
      World(store.State(), store.redraws, player.At(), player.coins, player.isAlive,
            pending, jobs, running, configQueue)
    }

    /** `entity_collision_handler`, with a started respawn thread recorded as a job. */
    method EntityCollisionHandler(entity: char, highscore: int)
      modifies this, store, player
      ensures Now() == Collect(k, lvl, old(Now()), entity, highscore)
      ensures ghosts == old(ghosts) && player.canMove == old(player.canMove)
    {
      if entity == k.sym.coin {
        var pos := player.At();
        store.UpdateBlock(pos.x, pos.y, [k.sym.empty]);
        player.AddCoins(k.coinValue);
        var job := PrepareRegenerationItem(entity, pos, k.coinRespawnTime);
        jobs := jobs + [job];
      } else if entity == k.sym.bigcoin {
        var pos := player.At();
        store.UpdateBlock(pos.x, pos.y, [k.sym.empty]);
        player.AddCoins(k.bigcoinValue);
      } else if entity == k.sym.ghostMark {
        player.Kill(this, highscore);
      }
    }

    /**
     * `handle_player_move`: `check_collision` reads the maze as it stands, without
     * waiting for queued updates; an allowed step moves the player, runs the
     * collision handler on a found symbol, and blocks further moves until the
     * cooldown timer fires.
     */
    method HandlePlayerMove(dx: int, dy: int, highscore: int) returns (moved: bool)
      modifies this, store, player
      ensures moved <==> (dx != 0 || dy != 0) && CheckCollision(old(store.rows), k.sym, old(player.At()), dx, dy).allowed
      ensures Now() == PlayerStep(k, lvl, old(Now()), dx, dy, highscore)
      ensures player.canMove == (if moved then false else old(player.canMove))
      ensures ghosts == old(ghosts)
    {
      moved := false;
      if dx != 0 || dy != 0 {
        var c := CheckCollision(store.rows, k.sym, player.At(), dx, dy);
        if c.allowed {
          player.Move(dx, dy);
          if c.entity.Some? {
            EntityCollisionHandler(c.entity.value, highscore);
          }
          store.redraws := store.redraws + 1;
          player.canMove := false;
          moved := true;
        }
      }
    }

    /**
     * The spawn step of `Player.__init__`: a player placed on a coin collects it at
     * once, as the collision handler would.
     */
    method CollectSpawnCoin() returns (r: Result<char, ReadError>)
      modifies this, store, player
      ensures r == ReadAfterJoin(old(store.State()), old(player.x), old(player.y), running)
      ensures var drained := old(Now()).(store := Consume(old(store.State()), old(running)));
        Now() == if r == Success(k.sym.coin) then Collect(k, lvl, drained, k.sym.coin, 0) else drained
      ensures ghosts == old(ghosts) && player.canMove == old(player.canMove)
    {
      r := store.GetBlock(player.x, player.y, running);
      if r == Success(k.sym.coin) {
        EntityCollisionHandler(k.sym.coin, 0);
      }
    }

    /**
     * The countdown of `regenerate_item`: the remaining times `in_future`, ..., 1 are
     * stored in turn under the job's key; it returns at once when the game has
     * stopped. A zero or negative `in_future` counts nothing.
     */
    method RunCountdown(job: Job) returns (stopped: bool, stored: seq<int>)
      modifies this
      ensures var n := if job.inFuture > 0 then job.inFuture else 0;
        && (stopped <==> !running && n > 0)
        && (stopped ==> stored == [] && pending == old(pending))
        && (!stopped ==> stored == Countdown(n) && pending == Counted(old(pending), job))
      ensures ghosts == old(ghosts) && jobs == old(jobs) && running == old(running) && configQueue == old(configQueue)
    {
      var n := if job.inFuture > 0 then job.inFuture else 0;
      stored := [];
      stopped := false;
      if job.inFuture != 0 {
        var i := 0;
        while i < n
          invariant 0 <= i <= n
          invariant i > 0 ==> running
          invariant stored == Countdown(n)[..i]
          invariant pending == if i == 0 then old(pending) else old(pending)[job.key := Respawn(job.entity, job.pos, n - i + 1)]
          invariant ghosts == old(ghosts) && jobs == old(jobs) && running == old(running)
          invariant configQueue == old(configQueue)
        {
          if !running {
            return true, stored;
          }
          pending := pending[job.key := Respawn(job.entity, job.pos, n - i)];
          stored := stored + [n - i];
          i := i + 1;
        }
      }
      assert stored == Countdown(n);
    }

    /**
     * The guard of `regenerate_item` after the countdown: the item is written and its
     * entry deleted only when the player is elsewhere and the block reads as empty.
     */
    method TryRespawn(job: Job) returns (o: Attempt)
      modifies this, store
      ensures o != Stopped
      ensures
        var rd := ReadAfterJoin(old(store.State()), job.pos.x, job.pos.y, running);
        var off := player.At() != job.pos;
        && (o == Respawned <==> off && rd == Success(k.sym.empty) && job.key in old(pending))
        && (o == Retry <==> !off || (rd.Success? && rd.value != k.sym.empty))
        && (o == Hung <==> off && rd == Failure(Hangs))
        && (o == Raised <==> off && (rd == Failure(IndexError) || (rd == Success(k.sym.empty) && job.key !in old(pending))))
        && pending == (if o == Respawned then old(pending) - {job.key} else old(pending))
        && (!off ==> store.State() == old(store.State()) && store.redraws == old(store.redraws))
        && (off ==>
              && store.redraws == old(store.redraws) + (if rd == Success(k.sym.empty) then 1 else 0)
              && store.State() ==
                   var c := Consume(old(store.State()), running);
                   if rd == Success(k.sym.empty) then c.(pending := [Update(job.pos.x, job.pos.y, [job.entity])]) else c)
      ensures ghosts == old(ghosts) && jobs == old(jobs) && running == old(running) && configQueue == old(configQueue)
    {
      if player.x != job.pos.x || player.y != job.pos.y {
        var b := store.GetBlock(job.pos.x, job.pos.y, running);
        if b == Success(k.sym.empty) {
          store.UpdateBlock(job.pos.x, job.pos.y, [job.entity]);
          if job.key !in pending {
            return Raised;
          }
          pending := pending - {job.key};
          return Respawned;
        }
        if b.Failure? {
          o := if b.error == Hangs then Hung else Raised;
          return;
        }
      }
      o := Retry;
    }

    /**
     * One attempt of `regenerate_item`'s `while True` loop: the countdown, then the
     * guard. A `Retry` is followed by another attempt of the same job, countdown
     * included.
     */
    method RegenerateAttempt(job: Job) returns (o: Attempt, stored: seq<int>)
      modifies this, store
      ensures var n := if job.inFuture > 0 then job.inFuture else 0;
        && (o == Stopped <==> !running && n > 0)
        && (o == Stopped ==> stored == [] && pending == old(pending))
        && (o != Stopped ==> stored == Countdown(n))
      ensures o == Stopped || player.At() == job.pos ==>
        store.State() == old(store.State()) && store.redraws == old(store.redraws)
      ensures o != Stopped ==>
        var rd := ReadAfterJoin(old(store.State()), job.pos.x, job.pos.y, running);
        var t := Counted(old(pending), job);
        var off := player.At() != job.pos;
        && (o == Respawned <==> off && rd == Success(k.sym.empty) && job.key in t)
        && (o == Retry <==> !off || (rd.Success? && rd.value != k.sym.empty))
        && (o == Hung <==> off && rd == Failure(Hangs))
        && (o == Raised <==> off && (rd == Failure(IndexError) || (rd == Success(k.sym.empty) && job.key !in t)))
        && pending == (if o == Respawned then t - {job.key} else t)
        && (off ==>
              && store.redraws == old(store.redraws) + (if rd == Success(k.sym.empty) then 1 else 0)
              && store.State() ==
                   var c := Consume(old(store.State()), running);
                   if rd == Success(k.sym.empty) then c.(pending := [Update(job.pos.x, job.pos.y, [job.entity])]) else c)
      ensures ghosts == old(ghosts) && jobs == old(jobs) && running == old(running) && configQueue == old(configQueue)
    {
      var stopped;
      stopped, stored := RunCountdown(job);
      if stopped {
        return Stopped, stored;
      }
      o := TryRespawn(job);
    }

    /**
     * One pass of `ghost_handler`'s loop (the spawn lock before it only returns when
     * the game stops): while the game runs the ghost moves, and after a step the
     * ghost marker goes onto its new block and the remembered block gets back the
     * symbol it covered, in one 6-tuple.
     */
    method GhostHandlerStep(g: Ghost, t: Tracker, fuel: nat, highscore: int) returns (r: Option<Moved>, t': Tracker)
      requires g.player == player
      modifies this, store, player, g
      ensures r.None? <==> !old(running)
      ensures r.None? || !r.value.Stepped? ==>
        t' == t && g.At() == old(g.At()) && g.oldSymbol == old(g.oldSymbol)
      ensures r.None? ==>
        && store.State() == old(store.State()) && store.redraws == old(store.redraws)
        && player.isAlive == old(player.isAlive) && running == old(running) && configQueue == old(configQueue)
      ensures r.Some? && !r.value.Stepped? ==>
        && store.State() == (if r.value == NoStep || r.value == SearchFailed then old(store.State())
                             else Consume(old(store.State()), old(running)))
        && store.redraws == old(store.redraws)
        && player.isAlive == old(player.isAlive) && running == old(running) && configQueue == old(configQueue)
      ensures r.Some? && r.value.Stepped? ==>
        && t' == Tracker(r.value.prior, g.At()) && g.oldSymbol == r.value.prior
        && r.value.prior != k.sym.ghostMark
        && Some(r.value.prior) == Cell(store.rows, g.x, g.y)
        && store.State() == Consume(old(store.State()), old(running)).(
             pending := [Swap(g.x, g.y, [k.sym.ghostMark], t.pos.x, t.pos.y, [t.symbol])])
        && store.redraws == old(store.redraws) + 1 + (if g.At() == player.At() then 1 else 0)
        && player.isAlive == (old(player.isAlive) && g.At() != player.At())
      ensures t == Tracker(old(g.oldSymbol), old(g.At())) ==> t' == Tracker(g.oldSymbol, g.At())
      ensures player.At() == old(player.At()) && player.coins == old(player.coins)
      ensures ghosts == old(ghosts) && pending == old(pending) && jobs == old(jobs)
    {
      t' := t;
      if !running {
        return None, t';
      }
      var m;
      ghost var hits, ways;
      m, hits, ways := g.AutoMove(this, fuel, highscore);
      r := Some(m);
      if m.Stepped? {
        store.SwapBlock(g.x, g.y, [k.sym.ghostMark], t.pos.x, t.pos.y, [t.symbol]);
        g.oldSymbol := m.prior;
        t' := Tracker(m.prior, g.At());
      }
    }

    /** `get_next_ghost_id`: the number of ghosts, an id no ghost has. */
    function NextGhostId(): (id: nat)
      reads this, ghosts.Values
      ensures GhostsNumbered() ==> id !in ghosts && forall i :: i in ghosts ==> i < id
    {
      |ghosts|
    }

    /**
     * `get_random_spawn_block`: waits for the queue, scans the maze, and draws one
     * of the candidate blocks; `None` is the `False` it returns when there is none.
     */
    method RandomSpawnBlock(allowed: set<char>, target: Option<Pos>) returns (r: Result<Option<Pos>, ReadError>)
      modifies store
      ensures store.State() == Consume(old(store.State()), running) && store.redraws == old(store.redraws)
      ensures r == Failure(Hangs) <==> store.pending != [] || store.stuck
      ensures r == Failure(IndexError) <==> store.pending == [] && !store.stuck && !Readable(store.rows)
      ensures r.Success? ==> store.pending == [] && !store.stuck
      ensures r.Success? && r.value.Some? ==> IsCandidate(store.rows, allowed, target, r.value.value)
      ensures r == Success(None) ==> forall p :: !IsCandidate(store.rows, allowed, target, p)
    {
      var joined := store.Drain(running);
      if !joined {
        return Failure(Hangs);
      }
      var blocks := SpawnCandidates(store.rows, allowed, target);
      if blocks.None? {
        return Failure(IndexError);
      }
      if |blocks.value| == 0 {
        return Success(None);
      }
      assert blocks.value[0] in blocks.value;
      var p :| p in blocks.value;
      r := Success(Some(p));
    }

    /**
     * `summon_ghost`: without a given spawn a random empty or coin block off the
     * player's row and column is drawn; the ghost marker is queued onto the block
     * unless one is there already, in which case the ghost covers an empty block;
     * the ghost is registered under the next id.
     */
    method SummonGhost(spawn: Option<Pos>) returns (r: Result<Option<Ghost>, ReadError>)
      requires GhostsNumbered()
      modifies this, store
      ensures GhostsNumbered()
      ensures store.rows == Consume(old(store.State()), running).rows
      ensures r.Success? && r.value.Some? ==>
        var g := r.value.value;
        && fresh(g) && g.id == old(|ghosts|) && ghosts == old(ghosts)[g.id := g] && g.player == player
        && (spawn.Some? ==> g.At() == spawn.value)
        && (spawn.None? ==> IsCandidate(store.rows, {k.sym.empty, k.sym.coin}, Some(player.At()), g.At()))
        && (Cell(store.rows, g.x, g.y) == Some(k.sym.ghostMark) ==> g.oldSymbol == k.sym.empty && store.pending == [])
        && (Cell(store.rows, g.x, g.y) != Some(k.sym.ghostMark) ==>
              && Cell(store.rows, g.x, g.y) == Some(g.oldSymbol)
              && store.pending == [Update(g.x, g.y, [k.sym.ghostMark])])
      ensures store.redraws == old(store.redraws) +
        if r.Success? && r.value.Some? && Cell(store.rows, r.value.value.x, r.value.value.y) != Some(k.sym.ghostMark)
        then 1 else 0
      ensures r == Success(None) <==>
        spawn.None? && store.pending == [] && !store.stuck && Readable(store.rows) &&
        forall p :: !IsCandidate(store.rows, {k.sym.empty, k.sym.coin}, Some(player.At()), p)
      ensures !(r.Success? && r.value.Some?) ==> ghosts == old(ghosts)
      ensures pending == old(pending) && jobs == old(jobs) && running == old(running) && configQueue == old(configQueue)
    {
      var at: Pos;
      if spawn.None? {
        var b := RandomSpawnBlock({k.sym.empty, k.sym.coin}, Some(player.At()));
        if b.Failure? {
          assert b.error == Hangs || b.error == IndexError;
          return Failure(b.error);
        }
        if b.value.None? {
          return Success(None);
        }
        at := b.value.value;
      } else {
        at := spawn.value;
      }
      var g := PlaceGhost(at);
      if g.Failure? {
        return Failure(g.error);
      }
      r := Success(Some(g.value));
    }

    /**
     * The second half of `summon_ghost`, once the spawn block is known: the ghost
     * marker is queued onto the block unless one is there already, in which case the
     * ghost covers an empty block; the ghost is registered under the next id.
     */
    method PlaceGhost(at: Pos) returns (r: Result<Ghost, ReadError>)
      requires GhostsNumbered()
      modifies this, store
      ensures GhostsNumbered()
      ensures store.rows == Consume(old(store.State()), running).rows
      ensures r.Failure? <==> ReadAfterJoin(old(store.State()), at.x, at.y, running).Failure?
      ensures r.Failure? ==> r.error == ReadAfterJoin(old(store.State()), at.x, at.y, running).error && ghosts == old(ghosts)
      ensures r.Success? ==>
        var g := r.value;
        && fresh(g) && g.id == old(|ghosts|) && ghosts == old(ghosts)[g.id := g] && g.player == player && g.At() == at
        && (Cell(store.rows, at.x, at.y) == Some(k.sym.ghostMark) ==> g.oldSymbol == k.sym.empty && store.pending == [])
        && (Cell(store.rows, at.x, at.y) != Some(k.sym.ghostMark) ==>
              && Cell(store.rows, at.x, at.y) == Some(g.oldSymbol)
              && store.pending == [Update(at.x, at.y, [k.sym.ghostMark])])
      ensures store.redraws == old(store.redraws) +
        if r.Success? && Cell(store.rows, at.x, at.y) != Some(k.sym.ghostMark) then 1 else 0
      ensures pending == old(pending) && jobs == old(jobs) && running == old(running) && configQueue == old(configQueue)
    {
      var id := NextGhostId();
      var c := store.GetBlock(at.x, at.y, running);
      if c.Failure? {
        return Failure(c.error);
      }
      var under := c.value;
      if under != k.sym.ghostMark {
        store.UpdateBlock(at.x, at.y, [k.sym.ghostMark]);
      } else {
        under := k.sym.empty;
      }
      var g := new Ghost(id, at.x, at.y, player, under);
      ghosts := ghosts[id := g];
      r := Success(g);
    }

    /**
     * `summon_bigcoin`: a big coin is queued onto a drawn empty or coin block off the
     * player's row and column; a coin it replaces is scheduled to respawn. With no
     * block drawn, indexing the returned `False` raises before anything is queued.
     */
    method SummonBigcoin() returns (r: Result<(Pos, char), SummonFault>)
      modifies this, store
      ensures store.rows == Consume(old(store.State()), running).rows
      ensures r == Failure(NoSpawnBlock) <==>
        store.pending == [] && !store.stuck && Readable(store.rows) &&
        forall p :: !IsCandidate(store.rows, {k.sym.empty, k.sym.coin}, Some(player.At()), p)
      ensures r.Success? ==>
        var (at, under) := r.value;
        && IsCandidate(store.rows, {k.sym.empty, k.sym.coin}, Some(player.At()), at)
        && Cell(store.rows, at.x, at.y) == Some(under)
        && store.pending == [Update(at.x, at.y, [k.sym.bigcoin])]
        && store.redraws == old(store.redraws) + 1
        && pending == (if under == k.sym.coin then Prepare(old(pending), Respawn(k.sym.coin, at, k.coinRespawnTime)) else old(pending))
        && jobs == old(jobs) + (if under == k.sym.coin then [Job(k.sym.coin, at, NextKey(old(pending)), k.coinRespawnTime)] else [])
      ensures r.Failure? ==> pending == old(pending) && jobs == old(jobs) && store.redraws == old(store.redraws)
      ensures ghosts == old(ghosts) && running == old(running) && configQueue == old(configQueue)
    {
      var b := RandomSpawnBlock({k.sym.empty, k.sym.coin}, Some(player.At()));
      if b.Failure? {
        assert b.error == Hangs || b.error == IndexError;
        return Failure(ReadFault(b.error));
      }
      if b.value.None? {
        return Failure(NoSpawnBlock);
      }
      var at := b.value.value;
      var c := store.GetBlock(at.x, at.y, running);
      assert c.Success?;
      store.UpdateBlock(at.x, at.y, [k.sym.bigcoin]);
      if c.value == k.sym.coin {
        var job := PrepareRegenerationItem(k.sym.coin, at, k.coinRespawnTime);
        jobs := jobs + [job];
      }
      r := Success((at, c.value));
    }

    /**
     * One tick of `bigcoin_generator` after its sleep: while the game runs, a big coin
     * is summoned when fewer than `bigcoinLimit` are on the maze, as `count_symbol`
     * counts them. `Success(None)` is a tick that summons nothing.
     */
    method BigcoinTick() returns (r: Result<Option<(Pos, char)>, SummonFault>)
      modifies this, store
      ensures !old(running) ==> r == Success(None) && store.State() == old(store.State()) && pending == old(pending)
      ensures old(running) && r.Success? ==>
        var c := Consume(old(store.State()), running);
        && c.pending == [] && !c.stuck && Readable(c.rows)
        && (r.value.Some? <==> Reads(c.rows, |c.rows|, k.sym.bigcoin) < k.bigcoinLimit)
      ensures r.Success? && r.value.None? ==> pending == old(pending) && jobs == old(jobs)
      ensures ghosts == old(ghosts) && running == old(running) && configQueue == old(configQueue)
    {
      if !running {
        return Success(None);
      }
      var joined := store.Drain(running);
      if !joined {
        return Failure(ReadFault(Hangs));
      }
      var n := CountSymbol(store.rows, k.sym.bigcoin);
      if n.None? {
        return Failure(ReadFault(IndexError));
      }
      if n.value < k.bigcoinLimit {
        var s := SummonBigcoin();
        if s.Failure? {
          return Failure(s.error);
        }
        return Success(Some(s.value));
      }
      r := Success(None);
    }

    /**
     * `save`: once the update queue is empty, the snapshot of the current play is
     * queued for the config writer; a queue that never empties blocks the save.
     */
    method Save() returns (joined: bool)
      modifies this, store
      ensures store.State() == Consume(old(store.State()), running) && store.redraws == old(store.redraws)
      ensures joined <==> store.pending == [] && !store.stuck
      ensures configQueue == old(configQueue) +
        if joined then [SaveItems(player.isAlive, player.coins, player.At(), store.rows, pending, lvl)] else []
      ensures ghosts == old(ghosts) && pending == old(pending) && jobs == old(jobs) && running == old(running)
    {
      joined := store.Drain(running);
      if joined {
        configQueue := configQueue + [SaveItems(player.isAlive, player.coins, player.At(), store.rows, pending, lvl)];
      }
    }

    /**
     * `load_pending_respawns`: each saved entry, in order, is entered under the next
     * fresh key and gets its respawn job, with the remaining time it was saved with.
     */
    method LoadPendingRespawns(entries: seq<Respawn>)
      modifies this
      ensures pending == PrepareAll(old(pending), entries)
      ensures jobs == old(jobs) + JobsFor(NextKey(old(pending)), entries)
      ensures ghosts == old(ghosts) && running == old(running) && configQueue == old(configQueue)
    {
      var i := 0;
      while i < |entries|
        invariant 0 <= i <= |entries|
        invariant pending == PrepareAll(old(pending), entries[..i])
        invariant jobs == old(jobs) + JobsFor(NextKey(old(pending)), entries[..i])
        invariant ghosts == old(ghosts) && running == old(running) && configQueue == old(configQueue)
      {
        LoadStep(old(pending), entries, i);
        var e := entries[i];
        var job := PrepareRegenerationItem(e.entity, e.pos, e.remaining);
        jobs := jobs + [job];
        i := i + 1;
      }
      assert entries[..i] == entries;
    }

    /**
     * `cleanup`: the symbol each ghost covers is entered into the respawn table, so
     * that a continued game restores it; no thread is started for them.
     */
    method Cleanup()
      requires GhostsNumbered()
      modifies this
      ensures GhostsNumbered()
      ensures pending == PrepareAll(old(pending), Leftovers(ghosts, k.sym.empty, |ghosts|))
      ensures ghosts == old(ghosts) && jobs == old(jobs) && running == old(running) && configQueue == old(configQueue)
    {
      var gs := ghosts;
      var i := 0;
      while i < |gs|
        invariant 0 <= i <= |gs| && gs == ghosts
        invariant forall j :: 0 <= j < |gs| ==> j in gs
        invariant pending == PrepareAll(old(pending), Leftovers(gs, k.sym.empty, i))
        invariant jobs == old(jobs) && running == old(running) && configQueue == old(configQueue)
      {
        var g := gs[i];
        CleanupStep(old(pending), gs, k.sym.empty, i);
        if g.oldSymbol != k.sym.empty {
          var job := PrepareRegenerationItem(g.oldSymbol, g.At(), 1);
        }
        i := i + 1;
      }
    }
  }

  /** What a ghost's `move` or `auto_move` comes to. */
  datatype Moved =
    | Refused                   // `move` returned False: a ghost marker on the target
    | Stepped(prior: char)      // the symbol the ghost stepped on
    | NoStep                    // `auto_move` returned False: no way, or already there
    | ReadFailed(err: ReadError)
    | SearchFailed              // the search raised RecursionError

  /** What `get_next_step` yields: False, a direction, or the search's RecursionError. */
  datatype NextStep = NoWay | Step(dir: int) | Overflow

  class Ghost {
    const id: nat
    var x: int
    var y: int
    var oldSymbol: char
    const player: Player

    constructor (i: nat, x0: int, y0: int, p: Player, under: char)
      ensures id == i && x == x0 && y == y0 && player == p && oldSymbol == under
    {
      id, x, y, player, oldSymbol := i, x0, y0, p, under;
    }

    function At(): Pos
      reads this
    {
      Pos(x, y)
    }

    /**
     * `move`: the target block is read through `get_block`; a ghost marker there
     * refuses the step, otherwise the ghost steps and reports the symbol it stepped
     * on, killing the player when it lands on the player.
     */
    method Move(s: Session, dx: int, dy: int, highscore: int) returns (r: Moved)
      requires s.player == player
      modifies this, s, s.store, player
      ensures s.store.State() == Consume(old(s.store.State()), old(s.running))
      ensures s.store.redraws == old(s.store.redraws) + if r.Stepped? && At() == old(player.At()) then 1 else 0
      ensures var target := FuturePos(old(At()), dx, dy);
        && (r.ReadFailed? <==> ReadAfterJoin(old(s.store.State()), target.x, target.y, old(s.running)).Failure?)
        && (r == Refused <==> ReadAfterJoin(old(s.store.State()), target.x, target.y, old(s.running)) == Success(s.k.sym.ghostMark))
        && (r.Stepped? ==> ReadAfterJoin(old(s.store.State()), target.x, target.y, old(s.running)) == Success(r.prior))
        && (r.Stepped? || r.ReadFailed? || r == Refused)
        && At() == (if r.Stepped? then target else old(At()))
      ensures oldSymbol == old(oldSymbol)
      ensures r.Stepped? && At() == old(player.At()) ==>
        && !player.isAlive && !s.running
        && s.configQueue == old(s.configQueue) + [KillItems(s.lvl, player.coins, highscore)]
      ensures !(r.Stepped? && At() == old(player.At())) ==>
        player.isAlive == old(player.isAlive) && s.running == old(s.running) && s.configQueue == old(s.configQueue)
      ensures player.At() == old(player.At()) && player.coins == old(player.coins)
      ensures s.ghosts == old(s.ghosts) && s.pending == old(s.pending) && s.jobs == old(s.jobs)
    {
      var target := FuturePos(At(), dx, dy);
      var b := s.store.GetBlock(target.x, target.y, s.running);
      if b.Failure? {
        return ReadFailed(b.error);
      }
      if b.value == s.k.sym.ghostMark {
        return Refused;
      }
      x := x + dx * Speed;
      y := y + dy * Speed;
      if x == player.x && y == player.y {
        player.Kill(s, highscore);
      }
      r := Stepped(b.value);
    }

    /**
     * `get_next_step`: the first direction of the way `find_shortest_way` picks from
     * the ghost to the player on the current maze; no step when there is no way or
     * the ghost is on the player already.
     */
    method GetNextStep(s: Session, fuel: nat) returns (r: NextStep, ghost hits: seq<nat>, ghost ways: seq<seq<int>>)
      requires s.player == player
      ensures At() == player.At() ==> r == NoWay && hits == []
      ensures At() != player.At() ==> RecordedWays(s.store.rows, s.k.sym, At(), player.At(), hits, ways)
      ensures r != Overflow ==> (r == NoWay <==> hits == [])
      ensures r.Step? ==>
        exists dirs :: Selected(s.lvl, hits, ways, dirs) && |dirs| > 0 && dirs[0] == r.dir && NoUTurn(dirs) &&
          Walk(s.store.rows, s.k.sym, At(), dirs) == Some(player.At())
      ensures At() != player.At() ==> Trace(hits, ways, r == Overflow) == RunSearch(s.store.rows, s.k.sym, At(), player.At(), fuel)
      ensures r == Overflow ==> LongWalk(s.store.rows, s.k.sym, At(), fuel + 1)
      ensures At() != player.At() && player.At() != Pos(0, 0) && NextTo(s.store.rows, s.k.sym, At(), player.At()) ==>
        r == Overflow || (r.Step? && Walk(s.store.rows, s.k.sym, At(), [r.dir]) == Some(player.At()))
    {
      var path;
      path, hits, ways := FindShortestWay(s.store.rows, s.k.sym, At(), player.At(), s.lvl, fuel);
      match path
      case DepthExceeded => r := Overflow;
      case NotFound => r := NoWay;
      case Found(dirs) =>
        if |dirs| == 0 {
          r := NoWay;
        } else {
          r := Step(dirs[0]);
          if |dirs| == 1 {
            assert dirs == [r.dir];
          }
        }
    }

    /**
     * `auto_move`: steps along the first direction of a shortest way to the player;
     * without one nothing happens.
     */
    method AutoMove(s: Session, fuel: nat, highscore: int) returns (r: Moved, ghost hits: seq<nat>, ghost ways: seq<seq<int>>)
      requires s.player == player
      modifies this, s, s.store, player
      ensures r == NoStep || r == SearchFailed ==> s.store.State() == old(s.store.State())
      ensures !r.Stepped? ==>
        && At() == old(At()) && s.store.redraws == old(s.store.redraws)
        && s.running == old(s.running) && s.configQueue == old(s.configQueue) && player.isAlive == old(player.isAlive)
      ensures old(At()) == old(player.At()) ==> r == NoStep && hits == []
      ensures old(At()) != old(player.At()) ==>
        RecordedWays(old(s.store.rows), s.k.sym, old(At()), old(player.At()), hits, ways)
      ensures r != SearchFailed ==> (r == NoStep <==> hits == [])
      ensures !(r == NoStep || r == SearchFailed) ==> s.store.State() == Consume(old(s.store.State()), old(s.running))
      ensures r.Stepped? ==> s.store.pending == [] && !s.store.stuck
      ensures !(r == NoStep || r == SearchFailed) ==>
        exists dirs :: Selected(s.lvl, hits, ways, dirs) && |dirs| > 0 && NoUTurn(dirs) &&
          Walk(old(s.store.rows), s.k.sym, old(At()), dirs) == Some(old(player.At())) &&
          (r.Stepped? ==> At() == FuturePos(old(At()), Direction(dirs[0]).0 * Speed, Direction(dirs[0]).1 * Speed))
      ensures r.Stepped? ==> s.store.redraws == old(s.store.redraws) + if At() == old(player.At()) then 1 else 0
      ensures r.Stepped? && At() == old(player.At()) ==> !player.isAlive && !s.running
      ensures r.Stepped? && At() != old(player.At()) ==>
        player.isAlive == old(player.isAlive) && s.running == old(s.running) && s.configQueue == old(s.configQueue)
      ensures r.Stepped? ==> Some(r.prior) == Cell(s.store.rows, At().x, At().y) && r.prior != s.k.sym.ghostMark
      ensures player.At() == old(player.At()) && player.coins == old(player.coins) && oldSymbol == old(oldSymbol)
      ensures s.ghosts == old(s.ghosts) && s.pending == old(s.pending) && s.jobs == old(s.jobs)
      ensures old(At()) != old(player.At()) ==>
        Trace(hits, ways, r == SearchFailed) == RunSearch(old(s.store.rows), s.k.sym, old(At()), old(player.At()), fuel)
      ensures r == SearchFailed ==> LongWalk(old(s.store.rows), s.k.sym, old(At()), fuel + 1)
      ensures (old(At()) != old(player.At()) && old(player.At()) != Pos(0, 0) &&
               NextTo(old(s.store.rows), s.k.sym, old(At()), old(player.At()))) ==>
        r != NoStep && (r.Stepped? ==> At() == old(player.At()) && !player.isAlive)
    {
      var step;
      step, hits, ways := GetNextStep(s, fuel);
      if step.Overflow? {
        return SearchFailed, hits, ways;
      }
      if step.NoWay? {
        return NoStep, hits, ways;
      }
      var v := Direction(step.dir);
      if Walk(s.store.rows, s.k.sym, At(), [step.dir]) == Some(player.At()) {
        OneStepWalk(s.store.rows, s.k.sym, At(), step.dir, player.At());
      }
      r := Move(s, v.0 * Speed, v.1 * Speed, highscore);
    }
  }
}
