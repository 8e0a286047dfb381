/**
 * The config updates the game queues: the score record of `Player.kill` and the
 * `userdata.current_play` snapshot of `save`, together with what `start_game`
 * reads back from that snapshot when a game is continued. Values are written as
 * `json.dump` stores them: tuples become lists and integer keys become strings.
 */
module Snapshot {
  import opened Wrappers
  import opened Grid
  import opened Config
  import opened Respawns
  import Pathfinder

  /** The `lvl` string of each difficulty. */
  function LevelName(lvl: Pathfinder.Difficulty): (s: string)
    ensures '.' !in s
  {
    match lvl
    case Easy => "easy"
    case Medium => "medium"
    case Hard => "hard"
  }

  function ParseLevel(s: string): Option<Pathfinder.Difficulty>
  {
    if s == "easy" then Some(Pathfinder.Easy)
    else if s == "medium" then Some(Pathfinder.Medium)
    else if s == "hard" then Some(Pathfinder.Hard)
    else None
  }

  lemma ParseLevelName(lvl: Pathfinder.Difficulty)
    ensures ParseLevel(LevelName(lvl)) == Some(lvl)
  {
  }

  const CurrentPlay: seq<string> := ["userdata", "current_play"]

  function ScoreOf(lvl: Pathfinder.Difficulty): seq<string>
  {
    ["userdata", "score", LevelName(lvl)]
  }

  /** The dotted key of a path. */
  function Key(parts: seq<string>): string
    requires |parts| >= 1
  {
    Join(parts, '.')
  }

  lemma KeySplits(parent: seq<string>, last: string)
    requires forall i :: 0 <= i < |parent| ==> '.' !in parent[i]
    requires '.' !in last
    ensures Split(Key(parent + [last]), '.') == parent + [last]
  {
    SplitJoin(parent + [last], '.');
  }

  /** Two different keys under one parent never touch each other. */
  lemma {:induction false} SiblingsDiverge(parent: seq<string>, a: string, b: string)
    requires a != b
    ensures Diverge(parent + [a], parent + [b])
    decreases |parent|
  {
    if parent != [] {
      assert (parent + [a])[1..] == parent[1..] + [a];
      assert (parent + [b])[1..] == parent[1..] + [b];
      SiblingsDiverge(parent[1..], a, b);
    }
  }

  /** Paths under `current_play` and under a score record never touch each other. */
  lemma PlayAndScoreDiverge(lvl: Pathfinder.Difficulty, a: string, b: string)
    ensures Diverge(CurrentPlay + [a], ScoreOf(lvl) + [b])
  {
    assert (CurrentPlay + [a])[1..][0] == "current_play";
    assert (ScoreOf(lvl) + [b])[1..][0] == "score";
  }

  /** The dictionary `Player.kill` queues: the level's highscore only when beaten. */
  function KillItems(lvl: Pathfinder.Difficulty, coins: int, highscore: int): (items: Items)
    ensures |items| == if coins > highscore then 3 else 2
    ensures items[0].1 == JBool(false) && items[1].1 == JInt(coins)
    ensures coins > highscore ==> items[2].1 == JInt(coins)
  {
    var record := [
      (Key(CurrentPlay + ["is_alive"]), JBool(false)),
      (Key(ScoreOf(lvl) + ["last_score"]), JInt(coins))];
    if coins > highscore then record + [(Key(ScoreOf(lvl) + ["highscore"]), JInt(coins))]
    else record
  }

  /** The kill record's keys, as `Player.kill` writes them. */
  lemma KillItemsKeys(lvl: Pathfinder.Difficulty, coins: int, h: int)
    ensures var items := KillItems(lvl, coins, h);
      && items[0].0 == "userdata.current_play.is_alive"
      && items[1].0 == "userdata.score." + LevelName(lvl) + ".last_score"
      && (coins > h ==> items[2].0 == "userdata.score." + LevelName(lvl) + ".highscore")
  {
    DottedPlayKey("is_alive");
    DottedScoreKey(lvl, "last_score");
    DottedScoreKey(lvl, "highscore");
  }

  /** The dotted key of a field of the current play record. */
  lemma DottedPlayKey(field: string)
    ensures Key(CurrentPlay + [field]) == "userdata.current_play." + field
  {
    var parts := CurrentPlay + [field];
    assert parts[1..][1..] == [field];
    assert Join(parts[1..], '.') == "current_play" + "." + field;
    assert Key(parts) == "userdata" + "." + ("current_play" + "." + field);
  }

  /** The dotted key of a field of a level's score record. */
  lemma DottedScoreKey(lvl: Pathfinder.Difficulty, field: string)
    ensures Key(ScoreOf(lvl) + [field]) == "userdata.score." + LevelName(lvl) + "." + field
  {
    var parts := ScoreOf(lvl) + [field];
    assert parts[1..][1..][1..] == [field];
    assert Join(parts[1..][1..], '.') == LevelName(lvl) + "." + field;
    assert Join(parts[1..], '.') == "score" + "." + (LevelName(lvl) + "." + field);
    assert Key(parts) == "userdata" + "." + ("score" + "." + (LevelName(lvl) + "." + field));
  }

  /** The split paths of the kill record's items. */
  lemma KillPath0(lvl: Pathfinder.Difficulty, coins: int, h: int)
    ensures ItemPath(KillItems(lvl, coins, h), 0) == CurrentPlay + ["is_alive"]
  {
    KeySplits(CurrentPlay, "is_alive");
  }

  lemma KillPath1(lvl: Pathfinder.Difficulty, coins: int, h: int)
    ensures ItemPath(KillItems(lvl, coins, h), 1) == ScoreOf(lvl) + ["last_score"]
  {
    KeySplits(ScoreOf(lvl), "last_score");
  }

  lemma KillPath2(lvl: Pathfinder.Difficulty, coins: int, h: int)
    requires coins > h
    ensures ItemPath(KillItems(lvl, coins, h), 2) == ScoreOf(lvl) + ["highscore"]
  {
    KeySplits(ScoreOf(lvl), "highscore");
  }

  lemma KillPaths(lvl: Pathfinder.Difficulty, coins: int, h: int)
    ensures var items := KillItems(lvl, coins, h);
      && ItemPath(items, 0) == CurrentPlay + ["is_alive"]
      && ItemPath(items, 1) == ScoreOf(lvl) + ["last_score"]
      && (coins > h ==> ItemPath(items, 2) == ScoreOf(lvl) + ["highscore"])
  {
    KillPath0(lvl, coins, h);
    KillPath1(lvl, coins, h);
    if coins > h {
      KillPath2(lvl, coins, h);
    }
  }

  /** The kill record's updates can all be made on a config holding both records. */
  lemma KillAssignable(c: Json, lvl: Pathfinder.Difficulty, coins: int, h: int)
    requires Lookup(c, CurrentPlay).Some? && Lookup(c, CurrentPlay).value.JObject?
    requires Lookup(c, ScoreOf(lvl)).Some? && Lookup(c, ScoreOf(lvl)).value.JObject?
    ensures Assignable(c, KillItems(lvl, coins, h))
  {
    var items := KillItems(lvl, coins, h);
    var p0, p1, p2 := CurrentPlay + ["is_alive"], ScoreOf(lvl) + ["last_score"], ScoreOf(lvl) + ["highscore"];
    KillPaths(lvl, coins, h);
    assert p0[..2] == CurrentPlay;
    assert p1[..3] == ScoreOf(lvl);
    assert p2[..3] == ScoreOf(lvl);
    PlayAndScoreDiverge(lvl, "is_alive", "last_score");
    PlayAndScoreDiverge(lvl, "is_alive", "highscore");
    SiblingsDiverge(ScoreOf(lvl), "last_score", "highscore");
    assert ParentIsObject(c, p0) && ParentIsObject(c, p1) && ParentIsObject(c, p2);
  }

  /**
   * Applying the kill record to a config whose stored highscore is `h`: the play is
   * over, the last score is the coins, and the highscore becomes the larger of the
   * two, changing only when strictly beaten.
   */
  lemma KillRecordsScore(c: Json, lvl: Pathfinder.Difficulty, coins: int, h: int)
    requires Lookup(c, CurrentPlay).Some? && Lookup(c, CurrentPlay).value.JObject?
    requires Lookup(c, ScoreOf(lvl)).Some? && Lookup(c, ScoreOf(lvl)).value.JObject?
    requires Lookup(c, ScoreOf(lvl) + ["highscore"]) == Some(JInt(h))
    ensures ApplyItems(c, KillItems(lvl, coins, h)).Success?
    ensures var r := ApplyItems(c, KillItems(lvl, coins, h)).value;
      && Lookup(r, CurrentPlay + ["is_alive"]) == Some(JBool(false))
      && Lookup(r, ScoreOf(lvl) + ["last_score"]) == Some(JInt(coins))
      && Lookup(r, ScoreOf(lvl) + ["highscore"]) == Some(JInt(if coins > h then coins else h))
  {
    var items := KillItems(lvl, coins, h);
    KillPaths(lvl, coins, h);
    KillAssignable(c, lvl, coins, h);
    ApplyItemsAssigns(c, items, 0);
    ApplyItemsAssigns(c, items, 1);
    if coins > h {
      ApplyItemsAssigns(c, items, 2);
    } else {
      PlayAndScoreDiverge(lvl, "is_alive", "highscore");
      SiblingsDiverge(ScoreOf(lvl), "last_score", "highscore");
      ApplyItemsFrame(c, items, ScoreOf(lvl) + ["highscore"]);
    }
  }

  /** The decimal digits of a key, as `json.dump` writes an integer dictionary key. */
  function Decimal(n: nat): (s: string)
    ensures |s| >= 1 && forall i :: 0 <= i < |s| ==> '0' <= s[i] <= '9'
    decreases n
  {
    if n < 10 then [(48 + n) as char] else Decimal(n / 10) + [(48 + n % 10) as char]
  }

  /** The value of a string of decimal digits. */
  function ParseDecimal(s: string): int
    decreases |s|
  {
    if s == [] then 0 else 10 * ParseDecimal(s[..|s| - 1]) + (s[|s| - 1] as int - 48)
  }

  lemma {:induction false} DecimalRoundTrip(n: nat)
    ensures ParseDecimal(Decimal(n)) == n
    decreases n
  {
    if n >= 10 {
      var s := Decimal(n);
      assert s[..|s| - 1] == Decimal(n / 10);
      DecimalRoundTrip(n / 10);
    }
  }

  /** Every key's string parses back to the key, so distinct keys get distinct strings. */
  lemma DecimalsParse()
    ensures forall n: nat {:trigger Decimal(n)} :: ParseDecimal(Decimal(n)) == n
  {
    forall n: nat
      ensures ParseDecimal(Decimal(n)) == n
    {
      DecimalRoundTrip(n);
    }
  }

  function EncodePos(p: Pos): Json
  {
    JList([JInt(p.x), JInt(p.y)])
  }

  function DecodePos(j: Json): Option<Pos>
  {
    if j.JList? && |j.items| == 2 && j.items[0].JInt? && j.items[1].JInt?
    then Some(Pos(j.items[0].i, j.items[1].i))
    else None
  }

  /** A table entry `[entity, pos, remaining]` as stored. */
  function EncodeRespawn(r: Respawn): Json
  {
    JList([JStr([r.entity]), EncodePos(r.pos), JInt(r.remaining)])
  }

  function DecodeRespawn(j: Json): Option<Respawn>
  {
    if j.JList? && |j.items| == 3 && j.items[0].JStr? && |j.items[0].s| == 1
       && DecodePos(j.items[1]).Some? && j.items[2].JInt?
    then Some(Respawn(j.items[0].s[0], DecodePos(j.items[1]).value, j.items[2].i))
    else None
  }

  lemma RespawnRoundTrip(r: Respawn)
    ensures DecodeRespawn(EncodeRespawn(r)) == Some(r)
  {
  }

  /** The table under the decimal strings of its keys, as `json.dump` writes it. */
  function Rekey(t: Table): (m: map<string, Respawn>)
    ensures forall k :: k in t ==> Decimal(k) in m && m[Decimal(k)] == t[k]
    ensures forall s :: s in m ==> exists k :: k in t && s == Decimal(k)
  {
    DecimalsParse();
    map k | k in t :: Decimal(k) := t[k]
  }

  function EncodePending(t: Table): Json
  {
    var m := Rekey(t);
    JObject(map s | s in m :: EncodeRespawn(m[s]))
  }

  /** What `load_pending_respawns` is given: every stored entry, under its string key. */
  function DecodePending(j: Json): Option<map<string, Respawn>>
  {
    if j.JObject? && forall s :: s in j.fields ==> DecodeRespawn(j.fields[s]).Some?
    then Some(map s | s in j.fields :: DecodeRespawn(j.fields[s]).value)
    else None
  }

  /** A stored table decodes to the same entries under the strings of the same keys. */
  lemma PendingRoundTrip(t: Table)
    ensures DecodePending(EncodePending(t)) == Some(Rekey(t))
  {
    var m := Rekey(t);
    var f := EncodePending(t).fields;
    assert f.Keys == m.Keys;
    forall s | s in f
      ensures DecodeRespawn(f[s]) == Some(m[s])
    {
      assert f[s] == EncodeRespawn(m[s]);
      RespawnRoundTrip(m[s]);
    }
    assert DecodePending(EncodePending(t)).Some?;
    var d := DecodePending(EncodePending(t)).value;
    assert d.Keys == m.Keys;
    forall s | s in d
      ensures d[s] == m[s]
    {
      assert d[s] == DecodeRespawn(f[s]).value;
    }
    assert d == m;
  }

  function EncodeMaze(g: Grid): Json
  {
    JList(seq(|g|, i requires 0 <= i < |g| => JStr(g[i])))
  }

  function DecodeMaze(j: Json): Option<Grid>
  {
    if j.JList? && forall i :: 0 <= i < |j.items| ==> j.items[i].JStr?
    then Some(seq(|j.items|, i requires 0 <= i < |j.items| => j.items[i].s))
    else None
  }

  lemma MazeRoundTrip(g: Grid)
    ensures DecodeMaze(EncodeMaze(g)) == Some(g)
  {
    var j := EncodeMaze(g);
    assert forall i :: 0 <= i < |j.items| ==> j.items[i] == JStr(g[i]);
    assert |j.items| == |g|;
    assert DecodeMaze(j).Some?;
    var d := DecodeMaze(j).value;
    assert |d| == |g|;
    assert forall i :: 0 <= i < |g| ==> d[i] == j.items[i].s == g[i];
    assert d == g;
  }

  /** The keys `save` writes under `userdata.current_play`, in order. */
  const PlayKeys: seq<string> := ["is_alive", "score", "position", "maze", "pending_respawns", "lvl"]

  /** The values `save` writes, in the order of `PlayKeys`. */
  function SaveValues(alive: bool, coins: int, pos: Pos, maze: Grid, pending: Table, lvl: Pathfinder.Difficulty): (vs: seq<Json>)
    ensures |vs| == |PlayKeys|
  {
    [JBool(alive), JInt(coins), EncodePos(pos), EncodeMaze(maze), EncodePending(pending), JStr(LevelName(lvl))]
  }

  /** The dictionary `save` queues: each value under its `current_play` key. */
  function SaveItems(alive: bool, coins: int, pos: Pos, maze: Grid, pending: Table, lvl: Pathfinder.Difficulty): (items: Items)
    ensures |items| == |PlayKeys|
  {
    var vs := SaveValues(alive, coins, pos, maze, pending, lvl);
    seq(|PlayKeys|, i requires 0 <= i < |PlayKeys| => (Key(CurrentPlay + [PlayKeys[i]]), vs[i]))
  }

  /** What a continued game reads back. */
  datatype Play = Play(alive: bool, score: int, pos: Pos, maze: Grid, pending: map<string, Respawn>, lvl: Pathfinder.Difficulty)

  /** The snapshot read by `start_game` on a continued game; None where an entry is missing or malformed. */
  function LoadPlay(c: Json): Option<Play>
  {
    var alive := Lookup(c, CurrentPlay + [PlayKeys[0]]);
    var score := Lookup(c, CurrentPlay + [PlayKeys[1]]);
    var pos := Lookup(c, CurrentPlay + [PlayKeys[2]]);
    var maze := Lookup(c, CurrentPlay + [PlayKeys[3]]);
    var pending := Lookup(c, CurrentPlay + [PlayKeys[4]]);
    var lvl := Lookup(c, CurrentPlay + [PlayKeys[5]]);
    if && alive.Some? && alive.value.JBool?
       && score.Some? && score.value.JInt?
       && pos.Some? && DecodePos(pos.value).Some?
       && maze.Some? && DecodeMaze(maze.value).Some?
       && pending.Some? && DecodePending(pending.value).Some?
       && lvl.Some? && lvl.value.JStr? && ParseLevel(lvl.value.s).Some?
    then Some(Play(alive.value.b, score.value.i, DecodePos(pos.value).value, DecodeMaze(maze.value).value,
                   DecodePending(pending.value).value, ParseLevel(lvl.value.s).value))
    else None
  }

  /** The split path of the snapshot's i-th item. */
  lemma SavePath(items: Items, i: nat)
    requires |items| == |PlayKeys| && i < |PlayKeys|
    requires items[i].0 == Key(CurrentPlay + [PlayKeys[i]])
    ensures ItemPath(items, i) == CurrentPlay + [PlayKeys[i]]
  {
    assert '.' !in PlayKeys[i];
    KeySplits(CurrentPlay, PlayKeys[i]);
  }

  /** The snapshot's updates are the six keys under `current_play`, and they can all be made. */
  lemma SaveAssignable(c: Json, alive: bool, coins: int, pos: Pos, maze: Grid, pending: Table, lvl: Pathfinder.Difficulty)
    requires Lookup(c, CurrentPlay).Some? && Lookup(c, CurrentPlay).value.JObject?
    ensures var items := SaveItems(alive, coins, pos, maze, pending, lvl);
      && (forall i :: 0 <= i < |PlayKeys| ==> ItemPath(items, i) == CurrentPlay + [PlayKeys[i]])
      && Assignable(c, items)
  {
    var items := SaveItems(alive, coins, pos, maze, pending, lvl);
    forall i | 0 <= i < |PlayKeys|
      ensures ItemPath(items, i) == CurrentPlay + [PlayKeys[i]]
      ensures ParentIsObject(c, CurrentPlay + [PlayKeys[i]])
    {
      SavePath(items, i);
      assert (CurrentPlay + [PlayKeys[i]])[..2] == CurrentPlay;
    }
    forall i, k | 0 <= i < k < |PlayKeys|
      ensures Diverge(ItemPath(items, i), ItemPath(items, k))
    {
      SiblingsDiverge(CurrentPlay, PlayKeys[i], PlayKeys[k]);
    }
  }

  /**
   * Saving then loading: applying the snapshot to any config that has a
   * `current_play` object succeeds, and a continued game reads back the same
   * alive flag, score, position, maze, level and table entries.
   */
  lemma SaveThenLoad(c: Json, alive: bool, coins: int, pos: Pos, maze: Grid, pending: Table, lvl: Pathfinder.Difficulty)
    requires Lookup(c, CurrentPlay).Some? && Lookup(c, CurrentPlay).value.JObject?
    ensures ApplyItems(c, SaveItems(alive, coins, pos, maze, pending, lvl)).Success?
    ensures var r := ApplyItems(c, SaveItems(alive, coins, pos, maze, pending, lvl)).value;
      && LoadPlay(r).Some?
      && var p := LoadPlay(r).value;
      && p.alive == alive && p.score == coins && p.pos == pos && p.maze == maze && p.lvl == lvl
      && p.pending == Rekey(pending)
  {
    var items := SaveItems(alive, coins, pos, maze, pending, lvl);
    SaveAssignable(c, alive, coins, pos, maze, pending, lvl);
    ApplyItemsSucceeds(c, items);
    var r := ApplyItems(c, items).value;
    forall k | 0 <= k < |PlayKeys|
      ensures Lookup(r, CurrentPlay + [PlayKeys[k]]) == Some(items[k].1)
    {
      ApplyItemsAssigns(c, items, k);
    }
    MazeRoundTrip(maze);
    PendingRoundTrip(pending);
    ParseLevelName(lvl);
  }
}
