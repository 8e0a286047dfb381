# pacman_python core, modelled in Dafny

This project models the game logic of a pygame Pac-Man clone and proves properties of it. It covers three versions of the game's main script: `main.py`, `main.bak3.py` and `main.bak.py`.

The maze is a list of equal-length strings. Cells are addressed 1-based as (x, y). The game changes the maze only through an update queue. A consumer thread drains that queue: a 3-tuple writes one cell, a 6-tuple writes two cells in order, and an empty tuple asks the consumer to stop once the game is no longer running.

The model covers these parts:

- **Grid store** (`Grid`):
  - Python indexing, exactly: a negative index counts from the end. Slices clamp. A write is the splice `row[:x-1] + s + row[x:]`.
  - The queue is a list of operations, and the consumer is the function `Consume`.
  - `get_block` is `ReadAfterJoin`. It hangs when the queue never empties. It raises IndexError for a row or column past the end.
  - `GridStore` is the mutable store. `update_block`, `swap_block` and `get_block` are its methods.
- **Passability** (`Collision`):
  - `check_collision` and `check_all_directions`, with the fixed direction order E, W, S, N.
  - Walks along a list of directions.
- **The branch-and-bound pathfinder** (`Pathfinder`):
  - `pathfinding` is a recursive method on a `Search` object. The object holds the lists the source mutates and restores: `after_corners`, `current_way`, `hits` and `ways`.
  - The method is proved to compute the reference search `Explore`, a recursive function of the values it reads. The properties of the search are lemmas about `Explore`.
  - `find_shortest_way` chooses the way by difficulty.
- **The respawn table** (`Respawns`): fresh keys, the preparation of entries, and the countdown.
- **The config** (`Config`, `Snapshot`):
  - The JSON config is a value.
  - `override_value` writes to a dotted path.
  - `update_config_direct` folds the queued items.
  - Further items: the records `kill` and `save` queue, the JSON encodings they use, and reading a saved play back on a continued game.
- **Grid scans** (`Scan`): `count_symbol` and the candidate list of `get_random_spawn_block`. Both use 0-based loop indices passed to the 1-based `get_block`.
- **Agents and the session** (`Game`):
  - `Player`, `Ghost` and `Session` are classes over the module-level state of `main.py`. That state is the maze store, `ghosts`, `pending_respawns`, `running` and the config queue.
  - `Session.Now()` is a value view of the session. `Collect` and `PlayerStep` are pure specifications over it, and the methods are proved against them.
- **The earlier variants**:
  - `Bak3` models `main.bak3.py`: an unguarded `check_collision`, a consumer with no exit rule, +1 coin scoring, a respawn loop with no table, and ghosts registered before their block is read.
  - `Bak` models `main.bak.py`: coin-only collisions, in-place `update_block`, a single-shot respawn, and the first pathfinder, which keeps searching past the goal.

Every operation is stated against a partner:
- Grid writes are related to `Cell` reads.
- The consumer is related to the in-order application of its operations.
- Search methods are proved equal to reference functions (`Pathfinder.Explore`, `Bak.Seek`). Every way those record is related to `Walk`.
- Config writes are related to `Lookup`.
- Saving is related to loading.
- Scans are related to a direct count.

## Model

| member | source | states |
|---|---|---|
| Grid.PyIndex | main.py:341-344 | A Python index is defined exactly for -len <= i < len; a non-negative index reads that element, a negative one counts from the end |
| Grid.Splice | main.py:424-426 | For 1 <= x <= len(row), the splice has length len(row)-1+len(u); a one-character u lands at column x and every other column is kept |
| Grid.WriteCell | main.py:421-426 | Writing fails (IndexError) exactly when the row index is out of Python range; other rows are kept; an in-grid one-character write changes exactly cell (x, y) and keeps the row length |
| Grid.Cell | main.py:456-458 | An in-grid read yields the character at row y-1, column x-1 |
| Grid.ApplyOp | main.py:419-437 | An empty tuple changes nothing; a 3-tuple succeeds iff its write does and is that write; a 6-tuple is its first write followed by its second |
| Grid.Consume | main.py:417-446 | The consumer either stopped or emptied the queue; a stopped consumer changes nothing |
| Grid.ExitItem | main.py:445-446 | An empty tuple is skipped while the game runs, and stops the consumer, leaving the rest queued, once it does not |
| Grid.ConsumeIsSequential | main.py:419-443 | Draining a queue whose writes all succeed leaves the grid the in-order application of its operations, and the queue empty |
| Grid.ConsumeSplit | main.py:417-446 | Draining a queue with more items appended equals draining it, appending, and draining again |
| Grid.SwapSameCellSecondWins | main.py:428-437 | A 6-tuple naming one cell twice leaves the second symbol there |
| Grid.SwapDistinctCells | main.py:428-437 | A 6-tuple naming two cells writes each its own symbol |
| Grid.ReadAfterJoin | main.py:456-458 | get_block hangs iff the drained queue is not empty; raises IndexError iff the drained grid has no such cell; otherwise yields that cell of the drained grid |
| Grid.GridStore.UpdateBlock | main.py:448-450 | Queues the 3-tuple after everything queued before and signals one redraw; nothing else changes |
| Grid.GridStore.SwapBlock | main.py:452-454 | Queues the 6-tuple after everything queued before and signals one redraw; nothing else changes |
| Grid.GridStore.Drain | main.py:417-446 | The store becomes what the consumer leaves; the join returns iff the queue is then empty |
| Grid.GridStore.GetBlock | main.py:456-458 | The read is ReadAfterJoin of the store before the call, and the store is left drained |
| Collision.FuturePos | main.py:133-140 | The target block is displaced from the entity by exactly (dx, dy) |
| Collision.CheckCollision | main.py:339-351 | Allowed iff the target block exists and is not a wall; an entity is reported iff the block is neither wall nor empty, and is then that block's symbol |
| Collision.CheckCollisionWrapsLeft | main.py:339-344 | Stepping west from column 1 reads the last column of the row, since only IndexError is caught |
| Collision.CheckCollisionPastEnd | main.py:339-346 | A target below the last row or right of the last column is (False, False) |
| Collision.Direction | main.py:194-203 | Codes 0..3 are unit steps along exactly one axis; any other code is no step |
| Collision.Neighbours | main.py:685-704 | Four slots; slot d is open iff the block in direction d exists and is not a wall, and then holds that block's position |
| Collision.CheckAllDirections | main.py:685-704 | The loop builds exactly Neighbours |
| Collision.WalkSnoc | main.py:735-747 | A walk extended by one direction ends at the open slot of that direction, or fails |
| Pathfinder.Min | main.py:718 | The minimum is an element and bounds every element |
| Pathfinder.IndexOf | main.py:767 | list.index yields the first position holding the value |
| Pathfinder.IndexesOf | main.py:769 | Exactly the positions holding the value, increasing |
| Pathfinder.RecordHit | main.py:721-725 | Appending a hit no longer than the minimum keeps every recorded way a U-turn-free walk from start to goal of the recorded length, with lengths non-increasing |
| Pathfinder.Search.Pathfinding | main.py:715-753 | Leaves hits, ways and the RecursionError flag exactly as the reference search `Explore` computes them from the values on entry; after_corners and current_way are restored unless RecursionError was raised; main.bak3.py has the same search |
| Pathfinder.ExploreGrows | main.py:715-753 | A search only appends to hits and ways |
| Pathfinder.ExploreFromGrows | main.py:735-750 | The neighbour loop only appends to hits and ways |
| Pathfinder.ExploreSound | main.py:715-753 | From a U-turn-free way to the current block, the search keeps every recorded way a U-turn-free walk of its length to the goal, with lengths non-increasing; RecursionError only when a U-turn-free walk of steps + fuel + 1 steps exists |
| Pathfinder.ExploreFromSound | main.py:735-750 | The same for the neighbour loop |
| Pathfinder.DescendSound | main.py:736-747 | The same for the recursive call on one admitted child, a walk one step longer |
| Pathfinder.ChildWayTo | main.py:735-747 | The way extended by an admitted child's direction is a U-turn-free way to the child, with the current block one step back |
| Pathfinder.WayIsLongWalk | main.py:747 | A way to a block is a U-turn-free walk of its length |
| Pathfinder.SearchSound | main.py:755-760 | The search from the ghost records only U-turn-free walks to the goal of their length, lengths non-increasing; RecursionError only when a U-turn-free walk of fuel + 1 steps exists |
| Pathfinder.GoalHit | main.py:717-725 | A search at the goal never raises and leaves a hit no larger than its step count |
| Pathfinder.GoalChildHit | main.py:735-747 | The goal admitted as a neighbour leaves a hit of at most steps + 1, unless the search raises |
| Pathfinder.ExploreFromReaches | main.py:735-750 | A loop that has still to reach the goal among the neighbours admits it and leaves a hit of at most steps + 1, unless the search raises |
| Pathfinder.MinOfExtension | main.py:718 | Appending to the hits never raises their minimum |
| Pathfinder.SearchFindsNeighbour | main.py:755-760 | A goal one open step from the start (and not at (0, 0), the start's stand-in previous block) is found with shortest length 1, unless the search raises |
| Pathfinder.Search.Expand | main.py:735-748 | Leaves hits, ways and the RecursionError flag as `Descend` computes them: the child searched one step deeper with its direction appended to the way, after entering after_corners iff the current block is a junction; afterwards current_way is back as it was and after_corners holds the child iff the block is a junction, unless RecursionError was raised |
| Pathfinder.ChildInvariant | main.py:735-747 | A child that is not the previous block extends the way without a U-turn and the walk ends at the child |
| Pathfinder.SelectWay | main.py:765-771 | The way chosen has minimal length; on easy and medium it is the first such way |
| Pathfinder.HardCoversEveryMinimalWay | main.py:768-771 | On hard, every minimal way is the outcome of some draw |
| Pathfinder.FindShortestWay | main.py:755-777 | start == goal gives [] with no search; otherwise hits, ways and RecursionError are those of `RunSearch`; every recorded way is a U-turn-free walk of its length from the ghost to the player; NotFound iff no way was recorded; a found way is the selection of the difficulty among the recorded ways (the first shortest one, or for hard one of the shortest at some draw) and a nonempty U-turn-free walk to the player; RecursionError only when a U-turn-free walk of fuel + 1 steps exists; a player one open step away (not at (0, 0)) is reached by a one-step way unless the search raises; main.bak3.py has the same selection |
| Pathfinder.FoundWay | main.py:762-771 | The selected way is the difficulty's selection, a U-turn-free walk to the goal, as long as the shortest hit, and nonempty when the start is not the goal |
| Respawns.NextKey | main.py:381-385 | 0 for an empty table, otherwise max key + 1; never a key of the table and above every key |
| Respawns.NextKeyAfterPrepare | main.py:381-390 | After preparing an entry the next key is one higher |
| Respawns.PrepareAddsEntry | main.py:387-390 | prepare_regeneration_item adds exactly one entry, under a key the table did not have, holding the item, and keeps every other entry |
| Respawns.DeletedMaxKeyIsReused | main.py:381-385 | Once the newest entry is deleted its key is handed out again |
| Respawns.PrepareAllKeys | main.py:779-781 | Preparing n entries adds exactly the keys next .. next+n-1 and keeps every older entry |
| Respawns.PrepareAllValues | main.py:779-781 | Entry i is stored under key next+i |
| Respawns.PrepareAllSnoc | main.py:779-781 | Preparing one more entry is one more prepare_regeneration_item call |
| Respawns.Countdown | main.py:396-401 | The stored remaining times run in_future, in_future-1, ..., 1 |
| Config.Split | main.py:246 | The pieces contain no separator and join back to the path |
| Config.SplitJoin | main.py:246 | Splitting a join of separator-free pieces gives the pieces back |
| Config.SetPathSucceeds | main.py:245-251 | override_value succeeds iff the parent of the leaf is an existing object |
| Config.OverrideValue | main.py:245-251 | With the path split on dots: succeeds iff the parent is an existing object, and then the path holds the new value |
| Config.ApplyItems | main.py:257-260 | No items leave the config as it was; a first item whose parent is not an object fails the loop; on success the last item's value stands at its path |
| Config.SetPathWrites | main.py:250 | After the write the path holds the new value |
| Config.SetPathFrame | main.py:245-251 | Every path that diverges from the written one reads as before |
| Config.SetPathKeepsAncestors | main.py:247-249 | Every ancestor of the written path is still an object |
| Config.UpdateConfigDirect | main.py:253-263 | The loop applies the items in order, stopping at the first failure |
| Config.ApplyItemsFrame | main.py:257-260 | Paths no item touches read as before |
| Config.ApplyItemsWrites | main.py:257-260 | An item's value stands when no later item overwrites its path |
| Config.ApplyItemsSucceeds | main.py:257-260 | Items whose parents are objects all apply |
| Config.ApplyItemsAssigns | main.py:257-260 | Each of such distinct items' values stands at its path |
| Snapshot.ParseLevelName | main.py:665 | The saved level name reads back as the same level |
| Snapshot.KeySplits | main.py:150-160 | A dotted key built from dot-free names splits back into them |
| Snapshot.KillPaths | main.py:150-160 | kill's items address current_play.is_alive, the level's last_score and, only when beaten, its highscore |
| Snapshot.KillItems | main.py:150-160 | kill queues three items iff the coins beat the highscore, otherwise two; their values are False, the coins and, when beaten, the coins |
| Snapshot.KillItemsKeys | main.py:150-160 | The items' keys are userdata.current_play.is_alive, userdata.score.<level>.last_score and, when beaten, userdata.score.<level>.highscore |
| Snapshot.DottedPlayKey | main.py:152 | A current-play field's dotted key is userdata.current_play.<field> |
| Snapshot.DottedScoreKey | main.py:153-154 | A score field's dotted key is userdata.score.<level>.<field> |
| Snapshot.KillAssignable | main.py:150-160 | kill's items all apply when current_play and the level's score record exist |
| Snapshot.KillRecordsScore | main.py:145-163 | After kill's record: is_alive is false, last_score is the coins, highscore is the larger of the coins and the stored highscore |
| Snapshot.DecimalRoundTrip | main.py:664 | An integer key written as a JSON object key reads back as the same integer |
| Snapshot.RespawnRoundTrip | main.py:664 | A table entry written as [symbol, [x, y], time] decodes to itself |
| Snapshot.Rekey | main.py:664 | The saved table holds every entry under its key in decimal, and nothing else |
| Snapshot.PendingRoundTrip | main.py:664 | The saved respawn table decodes to the table rekeyed by decimal strings |
| Snapshot.MazeRoundTrip | main.py:663 | The saved maze decodes to itself |
| Snapshot.SaveItems | main.py:659-666 | save queues one item per current_play key |
| Snapshot.SaveAssignable | main.py:659-666 | Each save item addresses its current_play key, and all apply |
| Snapshot.SaveThenLoad | main.py:655-666 | What save writes is what a continued game reads back: liveness, score, position, maze, level and respawn table |
| Scan.CountSymbol | main.py:563-569 | Succeeds iff every read of the scan is in range, and then counts the symbol over the shifted reads |
| Scan.RowReadsWhole | main.py:565-568 | On a rectangular maze the reads of a row count that row's cells once each |
| Scan.ScanCountsEveryCell | main.py:563-569 | On a rectangular maze the scan never raises and counts every cell exactly once |
| Scan.SpawnCandidates | main.py:546-557 | Exactly the blocks whose read symbol is allowed and that share neither row nor column with the player, in scan order |
| Game.Collect | main.py:460-482 | The handler never moves the player or writes the maze directly; it signals one redraw exactly for a coin, a big coin or the ghost marker |
| Game.CollectScores | main.py:460-479 | Coins grow by exactly the symbol's worth; the player's block is queued to become empty iff a coin or big coin was collected |
| Game.CollectSchedules | main.py:460-472 | Only a coin adds a respawn entry, under a fresh key, with its block and COIN_RESPAWN_TIME, and starts its job; old entries are kept |
| Game.CollectGhostEndsGame | main.py:460-482 | Only the ghost marker ends the game; its record sets is_alive false, last_score the coins and highscore the larger value |
| Game.PlayerStep | main.py:785-796 | A zero step changes nothing; the maze is never written directly; any change moves the player to the next block, needs check_collision to allow it and signals a redraw |
| Game.PlayerStepLands | main.py:785-796 | The player only lands one step away on an existing non-wall block and scores its worth; a step past the maze changes nothing |
| Game.JobsFor | main.py:779-783 | Entry i gets a job under key next+i for its own symbol |
| Game.LoadStep | main.py:780-783 | Loading one more entry extends the table and the jobs of the entries before it |
| Game.Counted | main.py:396-401 | After a countdown the entry holds remaining time 1; other entries are kept |
| Game.LeftoversExactly | main.py:798-801 | cleanup re-enters exactly the non-empty symbols the ghosts cover, at their blocks, one second off |
| Game.CleanupStep | main.py:799-801 | Visiting one more ghost prepares its left-over after the others |
| Game.Player.Move | main.py:128-131 | The player moves by (dx, dy); coins, liveness and the move flag are kept |
| Game.Player.AddCoins | main.py:142-143 | Coins grow by exactly n |
| Game.Player.Kill | main.py:145-163 | The player is dead, the game stops, kill's record is queued and one redraw is signalled |
| Game.Session.PrepareRegenerationItem | main.py:381-390 | The entry is stored under a key no entry had; the returned job carries that key |
| Game.Session.EntityCollisionHandler | main.py:460-482 | The session becomes Collect of the old session |
| Game.Session.HandlePlayerMove | main.py:785-796 | Moves iff the step is non-zero and allowed; the session becomes PlayerStep of the old one; the move flag drops iff moved |
| Game.Session.CollectSpawnCoin | main.py:112-123 | The spawn read is get_block's; a coin there is collected as in the collision handler |
| Game.Session.RunCountdown | main.py:396-402 | Returns early iff the game stopped with time to count; otherwise stores in_future .. 1 under the job's key |
| Game.Session.TryRespawn | main.py:404-415 | Respawns iff the player is off the block and it reads empty and the key is present, deleting the entry; retries iff the player is on it or it holds something; hangs or raises otherwise |
| Game.Session.RegenerateAttempt | main.py:392-415 | One pass of the loop: countdown then the guarded respawn, with every outcome characterised |
| Game.Session.GhostHandlerStep | main.py:513-541 | Stops iff the game stopped; a pass without a step leaves the store as it was or drained, and the redraws, the player and the run flag unchanged; a moved ghost leaves exactly the swap of its marker and the remembered symbol pending, signals one redraw (two when it lands on the player), kills iff it lands on the player, and remembers the symbol it now covers |
| Game.Session.NextGhostId | main.py:543-544 | With ghosts numbered 0..n-1 the next id is unused and above every id |
| Game.Session.RandomSpawnBlock | main.py:546-561 | A returned block is a candidate; None means no candidate; hangs or raises exactly as the scan's reads do |
| Game.Session.SummonGhost | main.py:573-588 | A summoned ghost gets the next id, stands on the given or a candidate block, covers the symbol read there and queues its marker, or covers empty on a ghost block; one redraw is signalled exactly when the marker is queued |
| Game.Session.PlaceGhost | main.py:580-586 | The read fails iff get_block does; otherwise the ghost is registered under the next id with the symbol it covers; one redraw is signalled exactly when the marker is queued |
| Game.Session.SummonBigcoin | main.py:630-640 | A big coin goes to a candidate block; a coin it replaces is scheduled to respawn; no candidate is reported |
| Game.Session.BigcoinTick | main.py:642-653 | While running, summons iff fewer than the limit of big coins are on the drained maze |
| Game.Session.Save | main.py:655-669 | Queues the snapshot of the play iff the update queue empties |
| Game.Session.LoadPendingRespawns | main.py:779-783 | Each saved entry in order is prepared under the next key and gets its job |
| Game.Session.Cleanup | main.py:798-801 | The table gains exactly the ghosts' left-overs |
| Game.Ghost.Move | main.py:208-224 | Refused iff the target reads as a ghost marker; otherwise steps and reports the prior symbol; kills the player iff it lands on them |
| Game.Ghost.GetNextStep | main.py:226-230 | On the player: False with no way recorded; otherwise the search is `RunSearch` from the ghost to the player; NoWay iff the search recorded no way; a step is the first direction of the way the difficulty selects among the recorded walks to the player; Overflow only when a U-turn-free walk of fuel + 1 steps exists; one open step from the player, the step leads onto the player unless the search raises |
| Game.Ghost.AutoMove | main.py:189-206 | No step and a failed search leave the store as it was; otherwise the queue is drained; the search is `RunSearch` from the ghost to the player, and it fails only when a U-turn-free walk of fuel + 1 steps exists; only a found way moves the ghost, one block along the first direction of the selected way; landing on the player kills it, stops the game and signals one more redraw; a ghost one open step from the player has a step, and if it moves it lands on the player and kills it |
| Bak3.CheckCollisionUnguarded | main.bak3.py:246-256 | Raises iff the target cell does not exist; otherwise agrees with main.py's check_collision |
| Bak3.CheckAllDirectionsUnguarded | main.bak3.py:446-465 | Raises iff a neighbour is out of range; otherwise the four slots of main.py |
| Bak3.RaisesOnlyAtFarEdges | main.bak3.py:446-465 | On a rectangular maze the neighbour list raises exactly at the last column or last row |
| Bak3.ConsumeForever | main.bak3.py:294-320 | The consumer stops only on a failed write, and otherwise empties the queue |
| Bak3.ConsumeForeverIsRunningConsume | main.bak3.py:294-320 | This consumer is main.py's consumer with the game always running |
| Bak3.EmptyTupleIgnored | main.bak3.py:294-320 | An empty tuple is skipped |
| Bak3.RespawnIsRead | main.bak3.py:322-332 | A written block reads back as written once the queue is joined |
| Bak3.Collect | main.bak3.py:334-347 | The handler never moves the player or writes the maze directly; it signals one redraw exactly for a coin or the ghost marker |
| Bak3.CollectScoresOne | main.bak3.py:334-347 | A coin adds exactly 1, empties the block and starts its respawn job; the ghost marker kills; other symbols change nothing |
| Bak3.PlayerStep | main.bak3.py:535-546 | A zero step changes nothing; the step raises iff the unguarded check does; the maze is never written directly; any change moves the player to the next block and signals a redraw |
| Bak3.PlayerStepLands | main.bak3.py:535-546 | A step raises iff the target cell does not exist; the player lands only on a non-wall block one step away, scoring 1 for a coin |
| Bak3.Player.Move | main.bak3.py:116-119 | The player moves by (dx, dy), nothing else changes |
| Bak3.Player.AddCoin | main.bak3.py:130-131 | Coins grow by exactly one |
| Bak3.Player.Kill | main.bak3.py:133-136 | The player is dead and one redraw is signalled |
| Bak3.Session.EntityCollisionHandler | main.bak3.py:334-347 | The session becomes Collect of the old session |
| Bak3.Session.HandlePlayerMove | main.bak3.py:535-546 | The session follows PlayerStep; moves iff the non-zero step is allowed by the unguarded check |
| Bak3.Session.RegenerateAttempt | main.bak3.py:279-292 | Waits in_future, then respawns iff the player is off the block and it reads empty; a negative wait raises |
| Bak3.Session.GhostHandlerStep | main.bak3.py:357-383 | A pass without a step leaves the store as it was or drained, with the redraws and the player unchanged; a moved ghost leaves exactly the swap of its marker and the remembered symbol pending, signals one redraw (two when it lands on the player) and kills iff it lands on the player |
| Bak3.Session.RandomSpawnBlock | main.bak3.py:388-403 | A returned block is a candidate; None means no candidate |
| Bak3.Session.SummonGhost | main.bak3.py:405-417 | A ghost is registered under the next id on a candidate block and queues its marker; one redraw is signalled exactly when a ghost was placed |
| Bak3.Session.PlaceGhost | main.bak3.py:410-413 | Registers the ghost first, then reads the covered symbol and queues the marker |
| Bak3.Ghost.Move | main.bak3.py:178-194 | Refused iff the target reads as a ghost marker; otherwise steps and reports the prior symbol; kills the player iff it lands on them |
| Bak3.Ghost.GetNextStep | main.bak3.py:196-200 | Arrived iff on the player; otherwise the search is `RunSearch` from the ghost to the player; the length-of-False error iff the search recorded no way; a step is the first direction of the way the difficulty selects among the recorded walks to the player; Overflow only when a U-turn-free walk of fuel + 1 steps exists; one open step from the player, the step leads onto the player unless the search raises |
| Bak3.Ghost.AutoMove | main.bak3.py:159-176 | No step iff on the player; the search is `RunSearch` from the ghost to the player, and it fails only when a U-turn-free walk of fuel + 1 steps exists; the raised no-way error iff no way was recorded; the cases that do not step leave the store unchanged; only a found way moves the ghost, one block along the first direction of the selected way, killing the player iff it lands on it; a ghost one open step from the player does not raise the no-way error, and if it moves it lands on the player and kills it |
| Bak.CheckCollisionCoinsOnly | main.bak.py:166-176 | Raises iff the cell does not exist; allowed iff not a wall; only a coin is reported |
| Bak.CoinsOnlyAllowsAsUnguarded | main.bak.py:166-176 | Allows exactly what main.bak3.py allows, and reports only its coins |
| Bak.EmptyThenRestore | main.bak.py:210-215 | Emptying a block and writing its symbol back restores the maze |
| Bak.Player.Move | main.bak.py:86-89 | The player moves by (dx, dy) |
| Bak.Player.AddCoin | main.bak.py:101-102 | Coins grow by exactly one |
| Bak.Session.UpdateBlock | main.bak.py:210-215 | Succeeds iff the row exists; an in-grid write changes exactly that cell |
| Bak.Session.RegenerateItem | main.bak.py:199-208 | One attempt: writes iff the player is off the block and it is empty; otherwise skips or raises |
| Bak.Session.EntityCollisionHandler | main.bak.py:217-224 | A coin adds exactly one, empties the player's block and schedules a respawn there |
| Bak.Session.HandleKey | main.bak.py:360-378 | Moves iff the non-zero step is allowed, collecting a coin on the target |
| Bak.Search.Pathfinding | main.bak.py:284-320 | Leaves hits, ways and the raise flag as the reference search `Bak.Seek` computes them from the values on entry (the hit at the goal recorded before the prune, the loop run only when steps <= min(hits)); after_corners is restored unless the search raised |
| Bak.SeekGrows | main.bak.py:284-320 | A search only appends to hits and ways |
| Bak.SeekFromGrows | main.bak.py:305-318 | The neighbour loop only appends to hits and ways |
| Bak.SeekSound | main.bak.py:284-320 | From a U-turn-free way to the current block, every recorded hit is the length of the U-turn-free walk to the goal beside it; a raise only when a U-turn-free walk of at most n = steps + fuel + 1 steps reaches that many steps or ends on a block whose neighbour read falls off the maze |
| Bak.SeekFromSound | main.bak.py:305-318 | The same for the neighbour loop |
| Bak.SeekChildSound | main.bak.py:306-316 | The same for one admitted child: its read, its corner entry and the recursive call |
| Bak.ChildStopSound | main.bak.py:306-316 | The same for a child whose neighbour read raises IndexError or whose depth is spent: the lists are kept and the raise has its witness walk |
| Bak.ChildDeeperSound | main.bak.py:306-316 | The same for a child that is read and still allowed: its way is one step longer and the deeper search is sound |
| Bak.WayRaises | main.bak.py:307 | A way ending on a block whose read falls off the maze, or as long as the bound, witnesses a possible raise |
| Bak.RunSeekSound | main.bak.py:322-325 | The search from the start records only lengths of U-turn-free walks to the goal; it raises only when the start's own read falls off the maze or a witness walk of at most fuel + 1 steps exists |
| Bak.SeekGoalHit | main.bak.py:290-302 | A search at the goal leaves a hit no larger than its step count, unless it raises later |
| Bak.SeekGoalChildHit | main.bak.py:305-316 | The goal admitted as a neighbour leaves a hit of at most steps + 1, unless the search raises |
| Bak.SeekFromReaches | main.bak.py:305-318 | A loop that has still to reach the goal among the neighbours admits it and leaves a hit of at most steps + 1, unless the search raises |
| Bak.SeekFindsNeighbour | main.bak.py:322-325 | A goal one open step from the start (not at (0, 0)) gives shortest length 1, unless the search raises |
| Bak.RunSeekOutcome | main.bak.py:322-331 | The search's result as `find_shortest_way` uses it: sound, raising only with a witness, shortest 0 when the start is the goal and 1 when the goal is one open step away, unless it raises |
| Bak.CountedHaveWalks | main.bak.py:326-330 | Every counted length, the smallest included, is the length of a walk from the start to the goal |
| Bak.Search.Expand | main.bak.py:305-316 | Leaves hits, ways and the raise flag as `Bak.SeekChild` computes them: the child's neighbour read raises first when it falls off the maze, then the child enters after_corners iff the caller's junction flag `last_was_corner` holds, then RecursionError once the depth is spent, else the search one step deeper; unless it raised, after_corners holds the child iff that flag holds |
| Bak.FindShortestWay | main.bak.py:322-331 | hits, ways and the raise are those of `Bak.RunSeek`; every recorded length is that of a U-turn-free walk from start to goal; unless the search raised, no way iff nothing was recorded and a silent result is the smallest recorded length, which has such a walk; a raise only when the start's neighbour read falls off the maze or a U-turn-free walk of at most fuel + 1 steps reaches that many steps or ends on a block whose read falls off the maze; start == goal gives 0 and a goal one open step away (not at (0, 0)) gives 1, unless the search raises |

## Left out

- Rendering and input through pygame are not modelled: drawing, menus, window resizing, the event loops, key-to-direction mapping in the menus, and pixel/tile conversions (these use floating point and `math.ceil`).
- Threads, queues, `sleep` and timing are sequential here:
  - a thread start becomes a recorded `Job`;
  - one pass of a thread's loop becomes one method call;
  - the `while True` retry of `regenerate_item` is repeated calls of `RegenerateAttempt`;
  - `regenerate_item_threads` and the shutdown join order are not modelled;
  - the screen update queue is a count of redraw signals.
- `running` is read at the start of a method and is constant during it. A thread that changes it concurrently is not modelled.
- A `join` on a queue whose consumer has stopped or died waits forever. The model reports this as `Hangs`, not as a block.
- JSON file I/O is not modelled. `read_config` and the file read/write of `update_config_direct` and `update_config` are left out. The config is a value, and the highscore read from it is a parameter (`highscore`). The `update_config` thread loop and `config_update_queue.join` are not modelled.
- `random.choice` and `random.randint` are a nondeterministic choice (`:|`) in methods, and a `draw` index in `Pathfinder.SelectWay`.
- Logging, `datetime` and the time taken per search are not modelled.
- Pathfinder.Search.Pathfinding: Python's recursion limit is a `fuel` bound. Running out of it sets `aborted`, stands for RecursionError, and nothing after it is stated. The model does not fix the limit's actual depth.
- Bak.Search.Pathfinding: the same `fuel` bound stands for main.bak.py's recursion limit; an IndexError and a RecursionError both set `aborted`, and the model does not tell them apart.
- Config.OverrideValue works on JSON values. Aliasing of the nested dicts `override_value` mutates is not modelled.
- The `ghost_generator`, `bigcoin_generator` and `entity_generator` loops and their sleeps are not modelled. Their bodies are: `Game.Session.SummonGhost`, `Game.Session.BigcoinTick`.
- The spawn lock of `ghost_handler` (main.py:505-508) is a sleep, so it is not modelled.
- `Game.Session.Cleanup` visits ghosts in id order. The source uses `ghosts.values()` insertion order, which is the same for ids handed out by `get_next_ghost_id`.
- The new-game branch of `load_map` reads the map from the config file, so it is left out. Only the spawn choice it makes through `get_random_spawn_block` is modelled.
- Pathfinder.FindShortestWay: for main.bak3.py the search uses main.py's guarded neighbour list. The IndexError `check_all_directions` raises in main.bak3.py at the last row or column is not carried through the search. `Bak3.CheckAllDirectionsUnguarded` and `Bak3.RaisesOnlyAtFarEdges` state exactly when it would be raised.
- The `Ghost.auto_move`, `ghost_handler` and `entity_generator` of main.bak.py only run the search (the ghost never moves), so they are covered by `Bak.FindShortestWay` and not modelled as separate methods.
- main.bak.py's `find_shortest_way` returns nothing when a hit was found. The model keeps the smallest length recorded (`Silent`) so that a contract can speak of it.
- The `maze_update_queue.put(())` of `await_game_close` (main.py:930) is not a separate method, because the shutdown code around it is not modelled. `Grid.ExitItem` states what that item does to the consumer.
- The constants module is not part of this model. Its symbols and values are parameters (`Symbols`, `Game.Settings`), and the symbols are assumed distinct where a property needs it.
- The code is followed where its names suggest otherwise:
  - check_collision reads column W at x = 0, because `maze[-1]` wraps.
  - The spawn filter excludes the player's whole row and column.
  - The "corner" flag marks a junction, where at most one neighbour is blocked.

