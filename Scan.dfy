/**
 * The whole-grid scans of main.py: `count_symbol` and the candidate list of
 * `get_random_spawn_block`. Both loop over 0-based `enumerate` indices and hand
 * them to the 1-based `get_block`, so row index y reads `maze[y-1]` (the last row
 * when y = 0) and column index x reads `row[x-1]` (the last column when x = 0).
 * A read outside the maze raises IndexError and ends the scan (None here).
 */
module Scan {
  import opened Wrappers
  import opened Grid

  /** Every read of the scan finds a cell. */
  predicate Readable(g: Grid)
  {
    forall y, x :: 0 <= y < |g| && 0 <= x < |g[y]| ==> Cell(g, x, y).Some?
  }

  /** Reads of row index y at column indices below n that find `c`. */
  function RowReads(g: Grid, y: nat, n: nat, c: char): nat
    requires y < |g|
  {
    if n == 0 then 0 else RowReads(g, y, n - 1, c) + (if Cell(g, n - 1, y) == Some(c) then 1 else 0)
  }

  /** Reads of the row indices below m that find `c`. */
  function Reads(g: Grid, m: nat, c: char): nat
    requires m <= |g|
  {
    if m == 0 then 0 else Reads(g, m - 1, c) + RowReads(g, m - 1, |g[m - 1]|, c)
  }

  /** `count_symbol`: the number of scan reads that find the symbol. */
  method CountSymbol(g: Grid, c: char) returns (r: Option<nat>)
    ensures r.Some? <==> Readable(g)
    ensures r.Some? ==> r.value == Reads(g, |g|, c)
  {
    var i := 0;
    var y := 0;
    while y < |g|
      invariant 0 <= y <= |g|
      invariant forall y', x :: 0 <= y' < y && 0 <= x < |g[y']| ==> Cell(g, x, y').Some?
      invariant i == Reads(g, y, c)
    {
      var x := 0;
      var start := i;
      while x < |g[y]|
        invariant 0 <= x <= |g[y]|
        invariant forall x' :: 0 <= x' < x ==> Cell(g, x', y).Some?
        invariant i == start + RowReads(g, y, x, c)
      {
        var b := Cell(g, x, y);
        if b.None? {
          return None;
        }
        if b.value == c {
          i := i + 1;
        }
        x := x + 1;
      }
      y := y + 1;
    }
    return Some(i);
  }

  /** Occurrences of `c` in one row. */
  function RowCount(row: string, c: char): nat
  {
    multiset(row)[c]
  }

  /** Occurrences of `c` in the whole grid, row by row. */
  function GridCount(g: Grid, c: char): nat
    decreases |g|
  {
    if g == [] then 0 else GridCount(g[..|g| - 1], c) + RowCount(g[|g| - 1], c)
  }

  lemma RowCountSnoc(row: string, k: nat, c: char)
    requires k < |row|
    ensures RowCount(row[..k + 1], c) == RowCount(row[..k], c) + (if row[k] == c then 1 else 0)
  {
    assert row[..k + 1] == row[..k] + [row[k]];
  }

  /** The row that row index y reads: the one before it, or the last for y = 0. */
  function ReadRow(g: Grid, y: nat): string
    requires y < |g|
  {
    if y == 0 then g[|g| - 1] else g[y - 1]
  }

  /**
   * On a rectangular grid a row's reads at indices 1 .. n-1 cover the first n-1
   * cells of the row read, and index 0 covers its last cell.
   */
  lemma {:induction false} RowReadsShift(g: Grid, y: nat, n: nat, c: char)
    requires Rectangular(g) && y < |g| && 1 <= n <= |g[y]|
    ensures RowReads(g, y, n, c) ==
      RowCount(ReadRow(g, y)[..n - 1], c) + (if ReadRow(g, y)[|g[y]| - 1] == c then 1 else 0)
  {
    var row := ReadRow(g, y);
    assert |row| == |g[y]| by {
      assert |g[0]| == |g[y]|;
      assert |g[0]| == |row|;
    }
    if n == 1 {
      assert Cell(g, 0, y) == Some(row[|row| - 1]);
    } else {
      RowReadsShift(g, y, n - 1, c);
      assert Cell(g, n - 1, y) == Some(row[n - 2]);
      RowCountSnoc(row, n - 2, c);
    }
  }

  /** On a rectangular grid each row index reads one whole row. */
  lemma RowReadsWhole(g: Grid, y: nat, c: char)
    requires Rectangular(g) && y < |g|
    ensures RowReads(g, y, |g[y]|, c) == RowCount(ReadRow(g, y), c)
  {
    var row := ReadRow(g, y);
    assert |g[0]| == |g[y]| && |g[0]| == |row|;
    if |row| > 0 {
      RowReadsShift(g, y, |row|, c);
      assert row == row[..|row| - 1] + [row[|row| - 1]];
      assert multiset(row) == multiset(row[..|row| - 1]) + multiset{row[|row| - 1]};
    }
  }

  lemma {:induction false} ReadsShift(g: Grid, m: nat, c: char)
    requires Rectangular(g) && 1 <= m <= |g|
    ensures Reads(g, m, c) == GridCount(g[..m - 1], c) + RowCount(g[|g| - 1], c)
  {
    RowReadsWhole(g, m - 1, c);
    if m > 1 {
      ReadsShift(g, m - 1, c);
      assert g[..m - 1][..m - 2] == g[..m - 2];
    }
  }

  /**
   * On a rectangular grid every read of the scan finds a cell, and although rows
   * and columns are visited shifted by one, `count_symbol` counts every occurrence
   * of the symbol exactly once.
   */
  lemma ScanCountsEveryCell(g: Grid, c: char)
    requires Rectangular(g)
    ensures Readable(g)
    ensures Reads(g, |g|, c) == GridCount(g, c)
  {
    forall y, x | 0 <= y < |g| && 0 <= x < |g[y]|
      ensures Cell(g, x, y).Some?
    {
      assert |g[0]| == |g[y]| && |g[0]| == |ReadRow(g, y)|;
    }
    if |g| > 0 {
      ReadsShift(g, |g|, c);
    }
  }

  /**
   * A position `get_random_spawn_block` may pick: 0-based loop indices (x, y) of the
   * grid whose `get_block(x, y)` symbol is allowed and, when a player is given,
   * that share neither the player's column nor the player's row.
   */
  predicate IsCandidate(g: Grid, allowed: set<char>, player: Option<Pos>, p: Pos)
  {
    && 0 <= p.y < |g| && 0 <= p.x < |g[p.y]|
    && Cell(g, p.x, p.y).Some? && Cell(g, p.x, p.y).value in allowed
    && (player.Some? ==> p.x != player.value.x && p.y != player.value.y)
  }

  /** Row-major order of the scan. */
  predicate Before(p: Pos, q: Pos)
  {
    p.y < q.y || (p.y == q.y && p.x < q.x)
  }

  /**
   * The candidate list built by the loops of `get_random_spawn_block`:
   * exactly the candidates, each once, in scan order.
   */
  method SpawnCandidates(g: Grid, allowed: set<char>, player: Option<Pos>) returns (r: Option<seq<Pos>>)
    ensures r.Some? <==> Readable(g)
    ensures r.Some? ==> forall p :: p in r.value <==> IsCandidate(g, allowed, player, p)
    ensures r.Some? ==> forall i, j :: 0 <= i < j < |r.value| ==> Before(r.value[i], r.value[j])
  {
    var blocks := [];
    var y := 0;
    while y < |g|
      invariant 0 <= y <= |g|
      invariant forall y', x :: 0 <= y' < y && 0 <= x < |g[y']| ==> Cell(g, x, y').Some?
      invariant forall p :: p in blocks <==> IsCandidate(g, allowed, player, p) && p.y < y
      invariant forall i, j :: 0 <= i < j < |blocks| ==> Before(blocks[i], blocks[j])
      invariant forall i :: 0 <= i < |blocks| ==> blocks[i].y < y
    {
      var x := 0;
      while x < |g[y]|
        invariant 0 <= x <= |g[y]|
        invariant forall x' :: 0 <= x' < x ==> Cell(g, x', y).Some?
        invariant forall p :: p in blocks <==>
          IsCandidate(g, allowed, player, p) && (p.y < y || (p.y == y && p.x < x))
        invariant forall i, j :: 0 <= i < j < |blocks| ==> Before(blocks[i], blocks[j])
        invariant forall i :: 0 <= i < |blocks| ==> Before(blocks[i], Pos(x, y))
      {
        var b := Cell(g, x, y);
        if b.None? {
          return None;
        }
        if b.value in allowed {
          if player.Some? {
            if !(player.value.x == x) && !(player.value.y == y) {
              blocks := blocks + [Pos(x, y)];
            }
          } else {
            blocks := blocks + [Pos(x, y)];
          }
        }
        x := x + 1;
      }
      y := y + 1;
    }
    return Some(blocks);
  }
}
