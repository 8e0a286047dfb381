/**
 * The branch-and-bound search of main.py (`pathfinding`, `find_shortest_way`).
 * The search state lives in the lists the source mutates and restores:
 * `after_corners`, `current_way`, `hits` and `ways`.
 */
module Pathfinder {
  import opened Wrappers
  import opened Grid
  import opened Collision

  datatype Difficulty = Easy | Medium | Hard

  /** What `find_shortest_way` yields: `False`, a direction list, or RecursionError. */
  datatype Way = NotFound | Found(dirs: seq<int>) | DepthExceeded

  /** Python `min` of a non-empty list. */
  function Min(s: seq<nat>): (m: nat)
    requires |s| > 0
    ensures m in s && forall i :: 0 <= i < |s| ==> m <= s[i]
  {
    if |s| == 1 then s[0]
    else var m := Min(s[1..]); if s[0] <= m then s[0] else m
  }

  /** Python `list.index`: the first position holding `v`. */
  function IndexOf(s: seq<nat>, v: nat): (k: nat)
    requires v in s
    ensures k < |s| && s[k] == v && forall j :: 0 <= j < k ==> s[j] != v
  {
    if s[0] == v then 0 else 1 + IndexOf(s[1..], v)
  }

  /** `[index for index, value in enumerate(s) if value == v]`, starting at `from`. */
  function IndexesOf(s: seq<nat>, v: nat, from: nat): (ks: seq<nat>)
    requires from <= |s|
    ensures forall k :: k in ks <==> from <= k < |s| && s[k] == v
    ensures forall i, j :: 0 <= i < j < |ks| ==> ks[i] < ks[j]
    decreases |s| - from
  {
    if from == |s| then []
    else if s[from] == v then
      var rest := IndexesOf(s, v, from + 1);
      var ks := [from] + rest;
      assert forall j :: 0 <= j < |rest| ==> rest[j] in rest && from < rest[j];
      ks
    else IndexesOf(s, v, from + 1)
  }

  predicate NonIncreasing(s: seq<nat>)
  {
    forall i, j :: 0 <= i < j < |s| ==> s[j] <= s[i]
  }

  /**
   * The lists a search from `start` to `goal` records: every way walks from the
   * start to the goal without a U-turn, its length is the step count recorded
   * beside it, and the counts never increase.
   */
  predicate RecordedWays(g: Grid, sym: Symbols, start: Pos, goal: Pos, h: seq<nat>, w: seq<seq<int>>)
  {
    && |h| == |w|
    && NonIncreasing(h)
    && forall k :: 0 <= k < |w| ==>
         |w[k]| == h[k] && Walk(g, sym, start, w[k]) == Some(goal) && NoUTurn(w[k])
  }

  /** What a search leaves behind: the recorded lists, and whether it raised RecursionError. */
  datatype Trace = Trace(hits: seq<nat>, ways: seq<seq<int>>, aborted: bool)

  /**
   * `pathfinding` as a function of the values it reads: the prune on
   * `steps > min(hits)`, the hit at the goal, and otherwise the loop over the
   * neighbours of `current`. `way` is `current_way` and `ac` is `after_corners`;
   * the source restores both before returning, so only the recorded lists and
   * a raise are passed back. `fuel` is the recursion depth still allowed.
   */
  function Explore(g: Grid, sym: Symbols, goal: Pos, current: Pos, oldPos: Pos, steps: nat,
                   way: seq<int>, ac: seq<Pos>, h: seq<nat>, w: seq<seq<int>>, fuel: nat): Trace
    decreases fuel, 1, 0
  {
    if |h| > 0 && steps > Min(h) then Trace(h, w, false)
    else if current == goal then Trace(h + [steps], w + [way], false)
    else
      var res := Neighbours(g, sym, current);
      ExploreFrom(g, sym, goal, res, 0, current, oldPos, steps, way, CountBlocked(res) <= 1, ac, h, w, fuel)
  }

  /**
   * The loop of `pathfinding` from neighbour `idx` on: an open neighbour that is
   * neither in `after_corners` nor the previous block is searched, after entering
   * `after_corners` when `corner` holds; a raise ends the loop.
   */
  function ExploreFrom(g: Grid, sym: Symbols, goal: Pos, res: seq<Slot>, idx: nat, current: Pos, oldPos: Pos,
                       steps: nat, way: seq<int>, corner: bool, ac: seq<Pos>, h: seq<nat>, w: seq<seq<int>>,
                       fuel: nat): Trace
    requires |res| == 4 && idx <= 4
    decreases fuel, 0, 4 - idx
  {
    if idx == 4 then Trace(h, w, false)
    else if res[idx].Open? && res[idx].pos !in ac && res[idx].pos != oldPos then
      var ac' := if corner then ac + [res[idx].pos] else ac;
      var t := Descend(g, sym, goal, res[idx].pos, idx, current, steps, way, ac', h, w, fuel);
      if t.aborted then t
      else ExploreFrom(g, sym, goal, res, idx + 1, current, oldPos, steps, way, corner, ac', t.hits, t.ways, fuel)
    else ExploreFrom(g, sym, goal, res, idx + 1, current, oldPos, steps, way, corner, ac, h, w, fuel)
  }

  /** The recursive call on an admitted child, or RecursionError once the depth is spent. */
  function Descend(g: Grid, sym: Symbols, goal: Pos, child: Pos, idx: nat, current: Pos, steps: nat,
                   way: seq<int>, ac: seq<Pos>, h: seq<nat>, w: seq<seq<int>>, fuel: nat): Trace
    decreases fuel, 0, 0
  {
    if fuel == 0 then Trace(h, w, true)
    else Explore(g, sym, goal, child, current, steps + 1, way + [idx], ac, h, w, fuel - 1)
  }

  /** The search `find_shortest_way` starts: from `start`, `old_pos` (0, 0), all lists empty. */
  function RunSearch(g: Grid, sym: Symbols, start: Pos, goal: Pos, fuel: nat): Trace
  {
    Explore(g, sym, goal, start, Pos(0, 0), 0, [], [], [], [], fuel)
  }

  /** `way` leads from `start` to `current` in `steps` steps without a U-turn, `oldPos` one step back. */
  predicate WayTo(g: Grid, sym: Symbols, start: Pos, current: Pos, oldPos: Pos, steps: nat, way: seq<int>)
  {
    && |way| == steps && NoUTurn(way) && Walk(g, sym, start, way) == Some(current)
    && (|way| > 0 ==> oldPos == StepBack(current, way[|way| - 1]))
  }

  /** Some U-turn-free walk of `n` steps from `start` exists. */
  ghost predicate LongWalk(g: Grid, sym: Symbols, start: Pos, n: nat)
  {
    exists dirs {:trigger Walk(g, sym, start, dirs)} :: |dirs| == n && NoUTurn(dirs) && Walk(g, sym, start, dirs).Some?
  }

  /** `q` is one open step away from `p`. */
  predicate NextTo(g: Grid, sym: Symbols, p: Pos, q: Pos)
  {
    exists d :: 0 <= d < 4 && Neighbours(g, sym, p)[d] == Open(q)
  }

  /** Recording a hit no longer than the best so far keeps the recorded lists consistent. */
  lemma RecordHit(g: Grid, sym: Symbols, start: Pos, goal: Pos, h: seq<nat>, w: seq<seq<int>>, steps: nat, way: seq<int>)
    requires RecordedWays(g, sym, start, goal, h, w)
    requires |h| == 0 || steps <= Min(h)
    requires |way| == steps && Walk(g, sym, start, way) == Some(goal) && NoUTurn(way)
    ensures RecordedWays(g, sym, start, goal, h + [steps], w + [way])
  {
    if |h| > 0 {
      assert forall i :: 0 <= i < |h| ==> steps <= h[i];
    }
  }

  /** What the recursive call needs of the way extended by `idx`. */
  lemma ChildInvariant(g: Grid, sym: Symbols, start: Pos, way: seq<int>, current: Pos, oldPos: Pos, idx: nat)
    requires idx < 4 && Neighbours(g, sym, current)[idx].Open?
    requires NoUTurn(way) && Walk(g, sym, start, way) == Some(current)
    requires |way| > 0 ==> oldPos == StepBack(current, way[|way| - 1])
    requires Neighbours(g, sym, current)[idx].pos != oldPos
    ensures var next := Neighbours(g, sym, current)[idx].pos;
      var w := way + [idx];
      && NoUTurn(w)
      && Walk(g, sym, start, w) == Some(next)
      && current == StepBack(next, idx)
  {
    WalkSnoc(g, sym, start, way, idx);
    assert Neighbours(g, sym, current)[idx] == SlotAt(g, sym, current, idx);
    StepBackUndoes(current, idx);
    if |way| > 0 {
      var last := way[|way| - 1];
      if 0 <= last < 4 {
        DirectionInjective(current, idx, Opposite(last));
      }
    }
    NoUTurnSnoc(way, idx);
  }

  /** Searching only appends to the recorded lists. */
  lemma {:induction false} ExploreGrows(g: Grid, sym: Symbols, goal: Pos, current: Pos, oldPos: Pos, steps: nat,
                                        way: seq<int>, ac: seq<Pos>, h: seq<nat>, w: seq<seq<int>>, fuel: nat)
    ensures var t := Explore(g, sym, goal, current, oldPos, steps, way, ac, h, w, fuel);
      h <= t.hits && w <= t.ways
    decreases fuel, 1, 0
  {
    if !(|h| > 0 && steps > Min(h)) && current != goal {
      var res := Neighbours(g, sym, current);
      ExploreFromGrows(g, sym, goal, res, 0, current, oldPos, steps, way, CountBlocked(res) <= 1, ac, h, w, fuel);
    }
  }

  lemma {:induction false} ExploreFromGrows(g: Grid, sym: Symbols, goal: Pos, res: seq<Slot>, idx: nat, current: Pos,
                                            oldPos: Pos, steps: nat, way: seq<int>, corner: bool, ac: seq<Pos>,
                                            h: seq<nat>, w: seq<seq<int>>, fuel: nat)
    requires |res| == 4 && idx <= 4
    ensures var t := ExploreFrom(g, sym, goal, res, idx, current, oldPos, steps, way, corner, ac, h, w, fuel);
      h <= t.hits && w <= t.ways
    decreases fuel, 0, 4 - idx
  {
    if idx < 4 {
      if res[idx].Open? && res[idx].pos !in ac && res[idx].pos != oldPos {
        var ac' := if corner then ac + [res[idx].pos] else ac;
        var t := Descend(g, sym, goal, res[idx].pos, idx, current, steps, way, ac', h, w, fuel);
        if fuel > 0 {
          ExploreGrows(g, sym, goal, res[idx].pos, current, steps + 1, way + [idx], ac', h, w, fuel - 1);
        }
        if !t.aborted {
          ExploreFromGrows(g, sym, goal, res, idx + 1, current, oldPos, steps, way, corner, ac', t.hits, t.ways, fuel);
        }
      } else {
        ExploreFromGrows(g, sym, goal, res, idx + 1, current, oldPos, steps, way, corner, ac, h, w, fuel);
      }
    }
  }

  /**
   * Soundness of the search: what it records from a way to `current` keeps the
   * recorded lists consistent, and a raise means a U-turn-free walk one step
   * longer than the depth still allowed exists past `current`.
   */
  lemma {:induction false} ExploreSound(g: Grid, sym: Symbols, start: Pos, goal: Pos, current: Pos, oldPos: Pos,
                                        steps: nat, way: seq<int>, ac: seq<Pos>, h: seq<nat>, w: seq<seq<int>>,
                                        fuel: nat)
    requires WayTo(g, sym, start, current, oldPos, steps, way)
    requires RecordedWays(g, sym, start, goal, h, w)
    ensures var t := Explore(g, sym, goal, current, oldPos, steps, way, ac, h, w, fuel);
      && RecordedWays(g, sym, start, goal, t.hits, t.ways)
      && (t.aborted ==> LongWalk(g, sym, start, steps + fuel + 1))
    decreases fuel, 1, 0
  {
    if |h| > 0 && steps > Min(h) {
    } else if current == goal {
      RecordHit(g, sym, start, goal, h, w, steps, way);
    } else {
      var res := Neighbours(g, sym, current);
      ExploreFromSound(g, sym, start, goal, res, 0, current, oldPos, steps, way, CountBlocked(res) <= 1, ac, h, w, fuel);
    }
  }

  lemma {:induction false} ExploreFromSound(g: Grid, sym: Symbols, start: Pos, goal: Pos, res: seq<Slot>, idx: nat,
                                            current: Pos, oldPos: Pos, steps: nat, way: seq<int>, corner: bool,
                                            ac: seq<Pos>, h: seq<nat>, w: seq<seq<int>>, fuel: nat)
    requires res == Neighbours(g, sym, current) && idx <= 4
    requires WayTo(g, sym, start, current, oldPos, steps, way)
    requires RecordedWays(g, sym, start, goal, h, w)
    ensures var t := ExploreFrom(g, sym, goal, res, idx, current, oldPos, steps, way, corner, ac, h, w, fuel);
      && RecordedWays(g, sym, start, goal, t.hits, t.ways)
      && (t.aborted ==> LongWalk(g, sym, start, steps + fuel + 1))
    decreases fuel, 0, 4 - idx
  {
    if idx < 4 {
      if res[idx].Open? && res[idx].pos !in ac && res[idx].pos != oldPos {
        var child := res[idx].pos;
        var ac' := if corner then ac + [child] else ac;
        var t := Descend(g, sym, goal, child, idx, current, steps, way, ac', h, w, fuel);
        DescendSound(g, sym, start, goal, child, idx, current, oldPos, steps, way, ac', h, w, fuel);
        if !t.aborted {
          ExploreFromSound(g, sym, start, goal, res, idx + 1, current, oldPos, steps, way, corner, ac', t.hits, t.ways, fuel);
        }
      } else {
        ExploreFromSound(g, sym, start, goal, res, idx + 1, current, oldPos, steps, way, corner, ac, h, w, fuel);
      }
    }
  }

  /** The child's way is the way to `current` extended by its direction. */
  lemma ChildWayTo(g: Grid, sym: Symbols, start: Pos, child: Pos, idx: nat, current: Pos, oldPos: Pos,
                   steps: nat, way: seq<int>)
    requires idx < 4 && Neighbours(g, sym, current)[idx] == Open(child) && child != oldPos
    requires WayTo(g, sym, start, current, oldPos, steps, way)
    ensures WayTo(g, sym, start, child, current, steps + 1, way + [idx])
  {
    ChildInvariant(g, sym, start, way, current, oldPos, idx);
  }

  lemma WayIsLongWalk(g: Grid, sym: Symbols, start: Pos, current: Pos, oldPos: Pos, steps: nat, way: seq<int>)
    requires WayTo(g, sym, start, current, oldPos, steps, way)
    ensures LongWalk(g, sym, start, steps)
  {
    assert |way| == steps && NoUTurn(way) && Walk(g, sym, start, way).Some?;
  }

  lemma {:induction false} DescendSound(g: Grid, sym: Symbols, start: Pos, goal: Pos, child: Pos, idx: nat,
                                        current: Pos, oldPos: Pos, steps: nat, way: seq<int>, ac: seq<Pos>,
                                        h: seq<nat>, w: seq<seq<int>>, fuel: nat)
    requires idx < 4 && Neighbours(g, sym, current)[idx] == Open(child) && child != oldPos
    requires WayTo(g, sym, start, current, oldPos, steps, way)
    requires RecordedWays(g, sym, start, goal, h, w)
    ensures var t := Descend(g, sym, goal, child, idx, current, steps, way, ac, h, w, fuel);
      && RecordedWays(g, sym, start, goal, t.hits, t.ways)
      && (t.aborted ==> LongWalk(g, sym, start, steps + fuel + 1))
    decreases fuel, 0, 0
  {
    ChildWayTo(g, sym, start, child, idx, current, oldPos, steps, way);
    if fuel == 0 {
      WayIsLongWalk(g, sym, start, child, current, steps + 1, way + [idx]);
    } else {
      ExploreSound(g, sym, start, goal, child, current, steps + 1, way + [idx], ac, h, w, fuel - 1);
    }
  }

  /**
   * Every way the search from `start` records is a U-turn-free walk of its
   * recorded length to the goal, the lengths never increase, and a
   * RecursionError means a U-turn-free walk of `fuel + 1` steps exists.
   */
  lemma SearchSound(g: Grid, sym: Symbols, start: Pos, goal: Pos, fuel: nat)
    ensures RecordedWays(g, sym, start, goal, RunSearch(g, sym, start, goal, fuel).hits, RunSearch(g, sym, start, goal, fuel).ways)
    ensures RunSearch(g, sym, start, goal, fuel).aborted ==> LongWalk(g, sym, start, fuel + 1)
  {
    ExploreSound(g, sym, start, goal, start, Pos(0, 0), 0, [], [], [], [], fuel);
  }

  /** The minimum of a longer record is no larger. */
  lemma MinOfExtension(a: seq<nat>, b: seq<nat>)
    requires |a| > 0 && a <= b
    ensures Min(b) <= Min(a)
  {
    var k :| 0 <= k < |a| && a[k] == Min(a);
    assert b[k] == a[k];
  }

  /**
   * A loop that still has to reach neighbour `d`, the goal, admits it: unless
   * the search raises, a hit of at most `steps + 1` is recorded.
   */
  lemma {:induction false} ExploreFromReaches(g: Grid, sym: Symbols, goal: Pos, res: seq<Slot>, idx: nat, d: nat,
                                              current: Pos, oldPos: Pos, steps: nat, way: seq<int>, corner: bool,
                                              ac: seq<Pos>, h: seq<nat>, w: seq<seq<int>>, fuel: nat)
    requires res == Neighbours(g, sym, current) && idx <= d < 4 && res[d] == Open(goal)
    requires goal !in ac && goal != oldPos
    ensures var t := ExploreFrom(g, sym, goal, res, idx, current, oldPos, steps, way, corner, ac, h, w, fuel);
      !t.aborted ==> |t.hits| > 0 && Min(t.hits) <= steps + 1
    decreases d - idx
  {
    if idx == d {
      GoalChildHit(g, sym, goal, res, idx, current, oldPos, steps, way, corner, ac, h, w, fuel);
    } else if res[idx].Open? && res[idx].pos !in ac && res[idx].pos != oldPos {
      var child := res[idx].pos;
      var ac' := if corner then ac + [child] else ac;
      var t := Descend(g, sym, goal, child, idx, current, steps, way, ac', h, w, fuel);
      if !t.aborted {
        DirectionInjective(current, idx, d);
        ExploreFromReaches(g, sym, goal, res, idx + 1, d, current, oldPos, steps, way, corner, ac', t.hits, t.ways, fuel);
      }
    } else {
      ExploreFromReaches(g, sym, goal, res, idx + 1, d, current, oldPos, steps, way, corner, ac, h, w, fuel);
    }
  }

  /** The goal as the admitted neighbour `idx`: recorded at `steps + 1` unless a shorter hit prunes it. */
  lemma GoalChildHit(g: Grid, sym: Symbols, goal: Pos, res: seq<Slot>, idx: nat, current: Pos, oldPos: Pos,
                     steps: nat, way: seq<int>, corner: bool, ac: seq<Pos>, h: seq<nat>, w: seq<seq<int>>, fuel: nat)
    requires |res| == 4 && idx < 4 && res[idx] == Open(goal) && goal !in ac && goal != oldPos
    ensures var t := ExploreFrom(g, sym, goal, res, idx, current, oldPos, steps, way, corner, ac, h, w, fuel);
      !t.aborted ==> |t.hits| > 0 && Min(t.hits) <= steps + 1
  {
    var ac' := if corner then ac + [goal] else ac;
    var t := Descend(g, sym, goal, goal, idx, current, steps, way, ac', h, w, fuel);
    if fuel > 0 {
      GoalHit(g, sym, goal, current, steps + 1, way + [idx], ac', h, w, fuel - 1);
      assert !t.aborted && |t.hits| > 0 && Min(t.hits) <= steps + 1;
      ExploreFromGrows(g, sym, goal, res, idx + 1, current, oldPos, steps, way, corner, ac', t.hits, t.ways, fuel);
      var u := ExploreFrom(g, sym, goal, res, idx + 1, current, oldPos, steps, way, corner, ac', t.hits, t.ways, fuel);
      MinOfExtension(t.hits, u.hits);
    }
  }

  /** A search that reaches the goal records a hit no larger than its step count. */
  lemma GoalHit(g: Grid, sym: Symbols, goal: Pos, oldPos: Pos, steps: nat, way: seq<int>, ac: seq<Pos>,
                h: seq<nat>, w: seq<seq<int>>, fuel: nat)
    ensures var t := Explore(g, sym, goal, goal, oldPos, steps, way, ac, h, w, fuel);
      !t.aborted && |t.hits| > 0 && Min(t.hits) <= steps
  {
    if !(|h| > 0 && steps > Min(h)) {
      assert (h + [steps])[|h|] == steps;
    }
  }

  /**
   * A goal next to the start is found in one step: unless the search raises,
   * it records a hit and the shortest is 1.
   */
  lemma SearchFindsNeighbour(g: Grid, sym: Symbols, start: Pos, goal: Pos, fuel: nat, d: nat)
    requires start != goal && goal != Pos(0, 0)
    requires d < 4 && Neighbours(g, sym, start)[d] == Open(goal)
    ensures var t := RunSearch(g, sym, start, goal, fuel);
      !t.aborted ==> |t.hits| > 0 && Min(t.hits) == 1
  {
    var res := Neighbours(g, sym, start);
    ExploreFromReaches(g, sym, goal, res, 0, d, start, Pos(0, 0), 0, [], CountBlocked(res) <= 1, [], [], [], fuel);
    var t := RunSearch(g, sym, start, goal, fuel);
    SearchSound(g, sym, start, goal, fuel);
    if !t.aborted {
      var k :| 0 <= k < |t.hits| && t.hits[k] == Min(t.hits);
      assert Walk(g, sym, start, t.ways[k]) == Some(goal);
      assert t.hits[k] != 0;
    }
  }

  class Search {
    const grid: Grid
    const sym: Symbols
    /** The search's starting position (the ghost) and `ending_pos` (the player). */
    const start: Pos
    const goal: Pos

    var afterCorners: seq<Pos>
    var currentWay: seq<int>
    var hits: seq<nat>
    var ways: seq<seq<int>>
    /** The search raised RecursionError: nothing after the raise has run. */
    var aborted: bool

    constructor (g: Grid, s: Symbols, from: Pos, to: Pos)
      ensures grid == g && sym == s && start == from && goal == to
      ensures afterCorners == [] && currentWay == [] && hits == [] && ways == [] && !aborted
    {
      grid, sym, start, goal := g, s, from, to;
      afterCorners, currentWay, hits, ways, aborted := [], [], [], [], false;
    }

    /**
     * `pathfinding`: the recorded lists and the raise are those of `Explore` on
     * the state at the call. `fuel` bounds the recursion depth: it stands for
     * Python's recursion limit, and running out of it raises (`aborted`).
     */
    method Pathfinding(res: seq<Slot>, current: Pos, oldPos: Pos, steps: nat, fuel: nat)
      requires !aborted && res == Neighbours(grid, sym, current)
      modifies this
      ensures Trace(hits, ways, aborted) ==
        Explore(grid, sym, goal, current, oldPos, steps, old(currentWay), old(afterCorners), old(hits), old(ways), fuel)
      ensures !aborted ==> afterCorners == old(afterCorners) && currentWay == old(currentWay)
      decreases fuel, 1
    {
      if |hits| > 0 && steps > Min(hits) {
        return;
      }
      if current == goal {
        hits := hits + [steps];
        ways := ways + [currentWay];
        return;
      }
      var lastWasCorner := !(CountBlocked(res) > 1);
      var originalAfterCorners := afterCorners;
      var originalCurrentWay := currentWay;
      var idx := 0;
      while idx < 4
        invariant 0 <= idx <= 4 && !aborted
        invariant currentWay == originalCurrentWay == old(currentWay)
        invariant Explore(grid, sym, goal, current, oldPos, steps, old(currentWay), old(afterCorners), old(hits), old(ways), fuel) ==
          ExploreFrom(grid, sym, goal, res, idx, current, oldPos, steps, old(currentWay), lastWasCorner, afterCorners, hits, ways, fuel)
      {
        var i := res[idx];
        if i.Open? && i.pos !in afterCorners && i.pos != oldPos {
          ghost var ac, h, w := afterCorners, hits, ways;
          Expand(idx, i.pos, current, oldPos, steps, lastWasCorner, fuel);
          if aborted {
            return;
          }
        }
        idx := idx + 1;
      }
      afterCorners := originalAfterCorners;
      currentWay := originalCurrentWay;
    }

    /**
     * The body of `pathfinding`'s loop for an admitted child: the direction is
     * pushed, the child enters `after_corners` when the current block is a
     * junction, the search recurses one step deeper, and the direction is popped.
     */
    method Expand(idx: nat, child: Pos, current: Pos, oldPos: Pos, steps: nat, lastWasCorner: bool, fuel: nat)
      requires !aborted
      requires idx < 4 && Neighbours(grid, sym, current)[idx] == Open(child) && child != oldPos
      requires child !in afterCorners
      requires lastWasCorner == (CountBlocked(Neighbours(grid, sym, current)) <= 1)
      modifies this
      ensures !aborted ==>
        currentWay == old(currentWay) &&
        afterCorners == if lastWasCorner then old(afterCorners) + [child] else old(afterCorners)
      ensures Trace(hits, ways, aborted) ==
        Descend(grid, sym, goal, child, idx, current, steps, old(currentWay),
                if lastWasCorner then old(afterCorners) + [child] else old(afterCorners), old(hits), old(ways), fuel)
      decreases fuel, 0
    {
      currentWay := currentWay + [idx];
      var newRes := CheckAllDirections(grid, sym, child);
      if lastWasCorner {
        afterCorners := afterCorners + [child];
      }
      if fuel == 0 {
        aborted := true;
        return;
      }
      Pathfinding(newRes, child, current, steps + 1, fuel - 1);
      if aborted {
        return;
      }
      currentWay := currentWay[..|currentWay| - 1];
    }
  }

  /**
   * The choice of `find_shortest_way` once the search has run: on easy and medium
   * the first way of minimal length; on hard the way at a uniformly drawn index of
   * the minimal ones (`random.choice`, here the index `draw`).
   */
  function SelectWay(lvl: Difficulty, hits: seq<nat>, ways: seq<seq<int>>, draw: nat): (r: seq<int>)
    requires |hits| > 0 && |hits| == |ways|
    requires lvl == Hard ==> draw < |IndexesOf(hits, Min(hits), 0)|
    ensures exists k :: 0 <= k < |hits| && hits[k] == Min(hits) && r == ways[k]
    ensures lvl != Hard ==>
      exists k :: 0 <= k < |hits| && hits[k] == Min(hits) && r == ways[k] && forall j :: 0 <= j < k ==> hits[j] > Min(hits)
  {
    var m := Min(hits);
    if lvl == Easy || lvl == Medium then ways[IndexOf(hits, m)]
    else
      var ks := IndexesOf(hits, m, 0);
      assert ks[draw] in ks;
      ways[ks[draw]]
  }

  /**
   * `dirs` is a way `find_shortest_way` may return from the recorded lists: the
   * first minimal way on easy and medium, the minimal way at some draw on hard.
   */
  ghost predicate Selected(lvl: Difficulty, hits: seq<nat>, ways: seq<seq<int>>, dirs: seq<int>)
  {
    && |hits| > 0 && |hits| == |ways|
    && (lvl != Hard ==> dirs == SelectWay(lvl, hits, ways, 0))
    && (lvl == Hard ==>
          exists draw: nat :: draw < |IndexesOf(hits, Min(hits), 0)| && dirs == SelectWay(Hard, hits, ways, draw))
  }

  /** On hard, every minimal way is a possible outcome of the draw. */
  lemma HardCoversEveryMinimalWay(hits: seq<nat>, ways: seq<seq<int>>, k: nat)
    requires |hits| > 0 && |hits| == |ways| && k < |hits| && hits[k] == Min(hits)
    ensures exists draw: nat :: draw < |IndexesOf(hits, Min(hits), 0)| && SelectWay(Hard, hits, ways, draw) == ways[k]
  {
    var ks := IndexesOf(hits, Min(hits), 0);
    assert k in ks;
    var draw :| 0 <= draw < |ks| && ks[draw] == k;
    assert SelectWay(Hard, hits, ways, draw) == ways[k];
  }

  /**
   * The selected way of a search that recorded a hit is a selection in the
   * sense of `Selected`, and a U-turn-free walk to the goal of the shortest
   * recorded length, which is never 0 when the goal is elsewhere.
   */
  lemma FoundWay(g: Grid, sym: Symbols, start: Pos, goal: Pos, lvl: Difficulty, hits: seq<nat>, ways: seq<seq<int>>, draw: nat)
    requires start != goal && RecordedWays(g, sym, start, goal, hits, ways) && |hits| > 0
    requires lvl == Hard ==> draw < |IndexesOf(hits, Min(hits), 0)|
    ensures var dirs := SelectWay(lvl, hits, ways, draw);
      && Selected(lvl, hits, ways, dirs)
      && Walk(g, sym, start, dirs) == Some(goal) && NoUTurn(dirs) && |dirs| == Min(hits) > 0
  {
    var dirs := SelectWay(lvl, hits, ways, draw);
    var k :| 0 <= k < |hits| && hits[k] == Min(hits) && dirs == ways[k];
    assert dirs == [] ==> Walk(g, sym, start, dirs) == Some(start);
  }

  /**
   * `find_shortest_way`: the start itself gives `[]` without searching; otherwise
   * the search runs from the start's neighbour list with `old_pos` (0, 0), yields
   * `False` when it recorded no hit, and otherwise the way the difficulty selects.
   * `hits` and `ways` are the lists the search recorded, those of `RunSearch`.
   */
  method FindShortestWay(g: Grid, sym: Symbols, start: Pos, goal: Pos, lvl: Difficulty, fuel: nat)
    returns (r: Way, ghost hits: seq<nat>, ghost ways: seq<seq<int>>)
    ensures start == goal ==> r == Found([]) && hits == [] && ways == []
    ensures start != goal ==> Trace(hits, ways, r == DepthExceeded) == RunSearch(g, sym, start, goal, fuel)
    ensures start != goal ==> RecordedWays(g, sym, start, goal, hits, ways)
    ensures r != DepthExceeded ==> (r == NotFound <==> start != goal && hits == [])
    ensures r.Found? && start != goal ==> Selected(lvl, hits, ways, r.dirs)
    ensures r.Found? && start != goal ==>
      Walk(g, sym, start, r.dirs) == Some(goal) && NoUTurn(r.dirs) && |r.dirs| > 0
    ensures r == DepthExceeded ==> LongWalk(g, sym, start, fuel + 1)
    ensures start != goal && goal != Pos(0, 0) && NextTo(g, sym, start, goal) ==>
      r == DepthExceeded || (r.Found? && |r.dirs| == 1)
  {
    if start == goal {
      return Found([]), [], [];
    }
    var res := CheckAllDirections(g, sym, start);
    var s := new Search(g, sym, start, goal);
    s.Pathfinding(res, start, Pos(0, 0), 0, fuel);
    hits, ways := s.hits, s.ways;
    SearchSound(g, sym, start, goal, fuel);
    ghost var adjacent := goal != Pos(0, 0) && NextTo(g, sym, start, goal);
    if adjacent {
      var d :| 0 <= d < 4 && Neighbours(g, sym, start)[d] == Open(goal);
      SearchFindsNeighbour(g, sym, start, goal, fuel, d);
    }
    if s.aborted {
      return DepthExceeded, hits, ways;
    }
    if |s.hits| == 0 {
      return NotFound, hits, ways;
    }
    var draw: nat := 0;
    if lvl == Hard {
      var ks := IndexesOf(s.hits, Min(s.hits), 0);
      assert IndexOf(s.hits, Min(s.hits)) in ks;
      draw :| draw < |ks|;
    }
    var dirs := SelectWay(lvl, s.hits, s.ways, draw);
    FoundWay(g, sym, start, goal, lvl, hits, ways, draw);
    r := Found(dirs);
  }
}
