/**
 * The placement score of the search player (player.py:107-187): column heights, holes,
 * bumpiness, the fill of the bottom three rows and the quadruple-clear bonus. Each reads a
 * set of landed cells; the search decides which set (Search.Sandbox).
 */
module Heuristic {
  import opened Shapes
  import opened Rules

  /** The row `get_heights` starts its scan of a column from. */
  const TopRow: int := 0

  /** Column x is occupied somewhere in rows 0..23. */
  predicate Occupied(cells: set<Cell>, x: int)
  {
    FirstBelow(cells, x, TopRow) < Height
  }

  /** The height `get_heights` reports for column x: 24 minus the topmost occupied row, or,
      for an empty column, the height of the column before it, because `maxY` is not reset
      between columns; before column 0 `maxY` is 24 (player.py:107-116). */
  function ColumnHeight(cells: set<Cell>, x: int): int
    decreases x
  {
    if x < 0 then 0
    else if Occupied(cells, x) then Height - FirstBelow(cells, x, TopRow)
    else ColumnHeight(cells, x - 1)
  }

  /** `get_heights`: one height per column. */
  function Heights(cells: set<Cell>): seq<int>
  {
    seq(Width, x => ColumnHeight(cells, x))
  }

  lemma {:induction false} ColumnHeightBound(cells: set<Cell>, x: int)
    ensures 0 <= ColumnHeight(cells, x) <= Height
    decreases x
  {
    if x >= 0 {
      FirstBelowIsFirst(cells, x, TopRow);
      ColumnHeightBound(cells, x - 1);
    }
  }

  /** Every height is between 0 and 24. */
  lemma HeightsRange(cells: set<Cell>)
    ensures |Heights(cells)| == Width && forall x :: 0 <= x < Width ==> 0 <= Heights(cells)[x] <= Height
  {
    forall x | 0 <= x < Width ensures 0 <= Heights(cells)[x] <= Height {
      ColumnHeightBound(cells, x);
    }
  }

  /** Column x of `get_heights`. */
  lemma HeightAt(cells: set<Cell>, x: int)
    requires 0 <= x < Width
    ensures var h := Heights(cells);
      |h| == Width && 0 <= h[x] <= Height &&
      (Occupied(cells, x) ==>
        Cell(x, Height - h[x]) in cells && forall y :: 0 <= y < Height - h[x] ==> Cell(x, y) !in cells) &&
      (!Occupied(cells, x) ==> h[x] == if x == 0 then 0 else h[x - 1])
  {
    ColumnHeightBound(cells, x);
    FirstBelowIsFirst(cells, x, TopRow);
  }

  /** `get_heights` gives a value in 0..24 for each of the ten columns: 24 minus the topmost
      occupied row of an occupied column; an empty column repeats the column before it, or
      gives 0 when no column before it is occupied (player.py:107-116). */
  lemma HeightsSpec(cells: set<Cell>)
    ensures |Heights(cells)| == Width
    ensures forall x :: 0 <= x < Width ==> 0 <= Heights(cells)[x] <= Height
    ensures forall x :: 0 <= x < Width && Occupied(cells, x) ==>
      Cell(x, Height - Heights(cells)[x]) in cells &&
      forall y :: 0 <= y < Height - Heights(cells)[x] ==> Cell(x, y) !in cells
    ensures forall x :: 0 <= x < Width && !Occupied(cells, x) ==>
      Heights(cells)[x] == if x == 0 then 0 else Heights(cells)[x - 1]
  {
    forall x | 0 <= x < Width
      ensures 0 <= Heights(cells)[x] <= Height
      ensures Occupied(cells, x) ==>
        Cell(x, Height - Heights(cells)[x]) in cells &&
        forall y :: 0 <= y < Height - Heights(cells)[x] ==> Cell(x, y) !in cells
      ensures !Occupied(cells, x) ==> Heights(cells)[x] == if x == 0 then 0 else Heights(cells)[x - 1]
    {
      HeightAt(cells, x);
    }
  }

  /** The empty cells of column x in rows y..23. */
  function EmptyBelow(cells: set<Cell>, x: int, y: int): nat
    decreases Height - y
  {
    if y >= Height then 0
    else (if Cell(x, y) in cells then 0 else 1) + EmptyBelow(cells, x, y + 1)
  }

  /** The holes of columns x..9: in each column, the empty cells of rows 24-h[x]..23. */
  function HolesFrom(cells: set<Cell>, h: seq<int>, x: int): nat
    requires |h| == Width
    decreases Width - x
  {
    if x < 0 || x >= Width then 0
    else EmptyBelow(cells, x, Height - h[x]) + HolesFrom(cells, h, x + 1)
  }

  /** `get_holes` (player.py:119-128). The source collects distinct cells in a set and takes
      its size, which is this count. */
  function Holes(cells: set<Cell>): nat
  {
    HeightsSpec(cells);
    HolesFrom(cells, Heights(cells), 0)
  }

  lemma {:induction false} EmptyBelowBound(cells: set<Cell>, x: int, y: int)
    requires 0 <= y
    ensures EmptyBelow(cells, x, y) <= if y >= Height then 0 else Height - y
    decreases Height - y
  {
    if y < Height {
      EmptyBelowBound(cells, x, y + 1);
    }
  }

  lemma {:induction false} HolesFromBound(cells: set<Cell>, h: seq<int>, x: int)
    requires |h| == Width && 0 <= x <= Width
    requires forall i :: 0 <= i < Width ==> 0 <= h[i] <= Height
    ensures HolesFrom(cells, h, x) <= Height * (Width - x)
    decreases Width - x
  {
    if x < Width {
      EmptyBelowBound(cells, x, Height - h[x]);
      HolesFromBound(cells, h, x + 1);
    }
  }

  lemma {:induction false} HolesFromEmpty(h: seq<int>, x: int)
    requires |h| == Width && 0 <= x <= Width
    requires forall i :: 0 <= i < Width ==> h[i] == 0
    ensures HolesFrom({}, h, x) == 0
    decreases Width - x
  {
    if x < Width {
      HolesFromEmpty(h, x + 1);
    }
  }

  /** On an empty board every column has height 0. */
  lemma {:induction false} EmptyColumnHeight(x: int)
    ensures ColumnHeight({}, x) == 0
    decreases x
  {
    if x >= 0 {
      FirstBelowIsFirst({}, x, TopRow);
      EmptyColumnHeight(x - 1);
    }
  }

  /** There are at most 240 holes, and none on an empty board (player.py:119-128). */
  lemma HolesBound(cells: set<Cell>)
    ensures Holes(cells) <= Width * Height
    ensures cells == {} ==> Holes(cells) == 0
  {
    var h := Heights(cells);
    HeightsSpec(cells);
    HolesFromBound(cells, h, 0);
    if cells == {} {
      forall x | 0 <= x < Width ensures h[x] == 0 {
        EmptyColumnHeight(x);
      }
      HolesFromEmpty(h, 0);
    }
  }

  /** The sum of |h[i] - h[i+1]| for i from `i` on. */
  function BumpFrom(h: seq<int>, i: nat): nat
    decreases |h| - i
  {
    if i + 1 >= |h| then 0 else Abs(h[i] - h[i + 1]) + BumpFrom(h, i + 1)
  }

  /** `get_bumpiness` (player.py:142-147). */
  function Bumpiness(h: seq<int>): nat
  {
    BumpFrom(h, 0)
  }

  lemma {:induction false} BumpFromZero(h: seq<int>, i: nat)
    ensures BumpFrom(h, i) == 0 <==> forall j :: i <= j < |h| ==> h[j] == h[i]
    decreases |h| - i
  {
    if i + 1 < |h| {
      BumpFromZero(h, i + 1);
      if BumpFrom(h, i) == 0 {
        forall j | i <= j < |h| ensures h[j] == h[i] {
          if j > i { assert h[j] == h[i + 1]; }
        }
      }
    }
  }

  /** Bumpiness is 0 exactly when all heights are equal. */
  lemma BumpinessZero(h: seq<int>)
    ensures Bumpiness(h) == 0 <==> forall i, j :: 0 <= i < |h| && 0 <= j < |h| ==> h[i] == h[j]
  {
    BumpFromZero(h, 0);
    if Bumpiness(h) == 0 && |h| > 0 {
      assert forall i :: 0 <= i < |h| ==> h[i] == h[0];
    }
  }

  lemma {:induction false} BumpFromBound(h: seq<int>, i: nat)
    requires i <= |h|
    requires forall j :: 0 <= j < |h| ==> 0 <= h[j] <= Height
    ensures BumpFrom(h, i) <= Height * (|h| - i)
    decreases |h| - i
  {
    if i + 1 < |h| {
      BumpFromBound(h, i + 1);
      assert Abs(h[i] - h[i + 1]) <= Height;
      assert Height * (|h| - i) == Height + Height * (|h| - (i + 1));
    }
  }

  /** The occupied cells of column x in rows 21, 22 and 23. */
  function ColumnFill(cells: set<Cell>, x: int): nat
  {
    (if Cell(x, Height - 1) in cells then 1 else 0) + (if Cell(x, Height - 2) in cells then 1 else 0) +
      (if Cell(x, Height - 3) in cells then 1 else 0)
  }

  /** Column x is occupied in rows 21, 22 and 23. */
  predicate BottomFull(cells: set<Cell>, x: int)
  {
    Cell(x, Height - 1) in cells && Cell(x, Height - 2) in cells && Cell(x, Height - 3) in cells
  }

  /** The occupied cells of rows 21 to 23 in columns x..9, column by column. */
  function FillFrom(cells: set<Cell>, x: int): nat
    decreases Width - x
  {
    if x < 0 || x >= Width then 0 else ColumnFill(cells, x) + FillFrom(cells, x + 1)
  }

  /** `fill_FourRows`: the occupied cells of rows 21, 22 and 23 (player.py:156-163). */
  function FillFourRows(cells: set<Cell>): nat
  {
    FillFrom(cells, 0)
  }

  lemma {:induction false} FillFromSpec(cells: set<Cell>, x: int)
    requires 0 <= x <= Width
    ensures FillFrom(cells, x) <= 3 * (Width - x)
    ensures FillFrom(cells, x) == 3 * (Width - x) <==>
      forall i :: x <= i < Width ==> BottomFull(cells, i)
    decreases Width - x
  {
    if x < Width {
      FillFromSpec(cells, x + 1);
      assert ColumnFill(cells, x) == 3 <==> BottomFull(cells, x);
      if FillFrom(cells, x) == 3 * (Width - x) {
        forall i | x <= i < Width ensures BottomFull(cells, i) {
          if i > x { assert x + 1 <= i; }
        }
      }
    }
  }

  /** The fill is between 0 and 30, and 30 exactly when rows 21 to 23 are full. */
  lemma FillFourRowsSpec(cells: set<Cell>)
    ensures FillFourRows(cells) <= 3 * Width
    ensures FillFourRows(cells) == 3 * Width <==>
      LineFull(cells, Height - 1) && LineFull(cells, Height - 2) && LineFull(cells, Height - 3)
  {
    FillFromSpec(cells, 0);
  }

  /** `remove_FourRows`: 1 when the score rose by at least 1600 (player.py:149-154). */
  function RemoveFourRows(score: int, initScore: int): int
  {
    if score - initScore >= 1600 then 1 else 0
  }

  /** `scoreBoard` (player.py:165-187): `board` is the sandbox's landed cells, `captured`
      the set object the sandbox captured when it was built, `initShape` the shape that was
      falling when the search began. `xscore` and `get_blocks` are computed by the source and
      not used. */
  function ScoreBoard(board: set<Cell>, captured: set<Cell>, score: int, initScore: int, initShape: Shape): int
  {
    var h := Heights(board);
    -1000 * Holes(board) - 100 * Bumpiness(h) + FillFourRows(captured) +
      (if initShape == I then 90000 * RemoveFourRows(score, initScore) else 0)
  }

  /** Every placement scores between -264000 and 90030, so above the search's initial best
      of -100000000 (player.py:16, 29). */
  lemma ScoreBoardBounds(board: set<Cell>, captured: set<Cell>, score: int, initScore: int, initShape: Shape)
    ensures -264000 <= ScoreBoard(board, captured, score, initScore, initShape) <= 90030
  {
    var h := Heights(board);
    HeightsSpec(board);
    HolesBound(board);
    BumpFromBound(h, 0);
    FillFourRowsSpec(captured);
  }
}
