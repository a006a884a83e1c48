/**
 * What the block moves and the board actions promise (board.py:196-304, 354-421, 535-637),
 * proved about the functions of Pieces and Rules.
 */
module Laws {
  import opened Shapes
  import opened Pieces
  import opened Rules

  // ---------------------------------------------------------------------------------------
  // Block moves (board.py:196-249)

  /** Shifting twice is shifting by the sum. */
  lemma TranslateTwice(p: Piece, dx: int, dy: int, ex: int, ey: int)
    ensures Translate(Translate(p, dx, dy), ex, ey) == Translate(p, dx + ex, dy + ey)
  {
    var a := Translate(Translate(p, dx, dy), ex, ey).cells;
    var b := Translate(p, dx + ex, dy + ey).cells;
    assert forall i :: 0 <= i < |a| ==> a[i] == b[i];
  }

  /** A shift by nothing leaves the block as it is. */
  lemma TranslateNothing(p: Piece)
    ensures Translate(p, 0, 0) == p
  {
    var a := Translate(p, 0, 0).cells;
    assert forall i :: 0 <= i < |a| ==> a[i] == p.cells[i];
  }

  /** A Left or Right move of a block on the board never lands and never scores; it shifts
      cells and centre by exactly `count` columns when the shifted cells are on the board and
      clear of the landed cells, and otherwise changes nothing (board.py:216-232). */
  lemma SideMoveRollback(p: Piece, d: Direction, count: int, landed: set<Cell>)
    requires |p.cells| > 0 && InBounds(p.cells) && count >= 0 && (d == Left || d == Right)
    ensures var dx := if d == Right then count else -count;
      var m := MovePiece(p, d, count, landed);
      var moved := Shift(p.cells, dx, 0);
      !m.landed && m.points == 0 &&
      (if InBounds(moved) && !Collides(moved, landed) then m.piece == Translate(p, dx, 0)
       else m.piece == p)
  {
    var dx := if d == Right then count else -count;
    var moved := Shift(p.cells, dx, 0);
    ExtremesInBounds(p.cells);
    ExtremesInBounds(moved);
    ShiftMinX(p.cells, dx, 0);
    ShiftMaxX(p.cells, dx, 0);
    ShiftMinY(p.cells, dx, 0);
    ShiftMaxY(p.cells, dx, 0);
  }

  /** Drop always reports landed and leaves the block supported, moved straight down by as
      many rows as it scored (board.py:246-249). */
  lemma {:induction false} DropLands(p: Piece, landed: set<Cell>)
    requires |p.cells| > 0 && MaxY(p.cells) < Height
    ensures var m := DropPiece(p, landed);
      m.landed && m.points >= 0 && m.piece == Translate(p, 0, m.points) &&
      Supported(m.piece.cells, landed)
    decreases Height - MaxY(p.cells)
  {
    if Supported(p.cells, landed) {
      TranslateNothing(p);
    } else {
      ShiftMaxY(p.cells, 0, 1);
      var q := Translate(p, 0, 1);
      DropLands(q, landed);
      TranslateTwice(p, 0, 1, 0, DropPiece(q, landed).points);
    }
  }

  /** A quarter turn one way undoes a quarter turn the other way about the same centre. */
  lemma TurnBack(cs: seq<Cell>, c: Center)
    ensures RotateCells(RotateCells(cs, c, Clockwise), c, Anticlockwise) == cs
    ensures RotateCells(RotateCells(cs, c, Anticlockwise), c, Clockwise) == cs
  {
    var a := RotateCells(RotateCells(cs, c, Clockwise), c, Anticlockwise);
    var b := RotateCells(RotateCells(cs, c, Anticlockwise), c, Clockwise);
    assert forall i :: 0 <= i < |cs| ==> a[i] == cs[i];
    assert forall i :: 0 <= i < |cs| ==> b[i] == cs[i];
  }

  /** The corrections from any stage on score only by moving the block down. */
  lemma {:induction false} CorrectScoresDown(p: Piece, r: Piece, stage: Stage, landed: set<Cell>)
    requires WellFormed(p) && WellFormed(r) && r.shape == p.shape
    requires stage != LeftWall ==> MinX(r.cells) >= 0
    requires stage == Ceiling ==> MaxX(r.cells) < Width
    ensures Correct(p, r, stage, landed).points >= 0
    decreases StagesLeft(stage)
  {
    match stage
    case LeftWall =>
      var r1 := FixLeft(r, landed);
      if MinX(r1.cells) >= 0 { CorrectScoresDown(p, r1, RightWall, landed); }
    case RightWall =>
      var r2 := FixRight(r, landed);
      if MaxX(r2.cells) < Width { CorrectScoresDown(p, r2, Ceiling, landed); }
    case Ceiling =>
  }

  /** A rotation never costs points; the points of its top correction stay even when it is
      rolled back (board.py:285-304). */
  lemma RotateScoresDown(p: Piece, rot: Rotation, landed: set<Cell>)
    requires WellFormed(p)
    ensures RotatePiece(p, rot, landed).points >= 0
  {
    var r0 := p.(cells := RotateCells(p.cells, p.center, rot));
    CorrectScoresDown(p, r0, LeftWall, landed);
  }

  // ---------------------------------------------------------------------------------------
  // Row clearing (board.py:354-392)

  /** `remove_line`: rows below `line` keep their cells, and every row at or above it takes
      the cells of the row above it, so row 0 ends empty (board.py:361-374). */
  lemma RemoveLineShifts(cells: set<Cell>, line: int, x: int, y: int)
    ensures y > line ==> (Cell(x, y) in RemoveLine(cells, line) <==> Cell(x, y) in cells)
    ensures y <= line ==> (Cell(x, y) in RemoveLine(cells, line) <==> Cell(x, y - 1) in cells)
  {
    if y > line {
      if Cell(x, y) in cells { assert Lowered(Cell(x, y), line) == Cell(x, y); }
    } else {
      if Cell(x, y - 1) in cells { assert Lowered(Cell(x, y - 1), line) == Cell(x, y); }
    }
  }

  /** The colour map moves with the cells: each surviving cell keeps its colour. */
  lemma RemoveLineColorsShift(colors: map<Cell, Color>, line: int, x: int, y: int)
    ensures y > line && Cell(x, y) in colors ==> RemoveLineColors(colors, line)[Cell(x, y)] == colors[Cell(x, y)]
    ensures y <= line && Cell(x, y - 1) in colors ==>
      RemoveLineColors(colors, line)[Cell(x, y)] == colors[Cell(x, y - 1)]
  {
    if y > line && Cell(x, y) in colors {
      assert Lowered(Cell(x, y), line) == Cell(x, y);
    }
    if y <= line && Cell(x, y - 1) in colors {
      assert Lowered(Cell(x, y - 1), line) == Cell(x, y);
    }
  }

  lemma {:induction false} CleanFromLeavesNoFullRow(cells: set<Cell>, colors: map<Cell, Color>, line: int, removed: nat)
    requires forall y :: line < y < Height ==> !LineFull(cells, y)
    ensures var r := CleanFrom(cells, colors, line, removed);
      forall y :: 0 < y < Height ==> !LineFull(r.cells, y)
    decreases line, |cells|
  {
    if line > 0 {
      if LineFull(cells, line) {
        RemoveLineShrinks(cells, line);
        var rest := RemoveLine(cells, line);
        forall y | line < y < Height
          ensures !LineFull(rest, y)
        {
          assert !LineFull(cells, y);
          var x :| 0 <= x < Width && Cell(x, y) !in cells;
          RemoveLineShifts(cells, line, x, y);
        }
        CleanFromLeavesNoFullRow(rest, RemoveLineColors(colors, line), line, removed + 1);
        assert CleanFrom(cells, colors, line, removed) == CleanFrom(rest, RemoveLineColors(colors, line), line, removed + 1);
      } else {
        CleanFromLeavesNoFullRow(cells, colors, line - 1, removed);
        assert CleanFrom(cells, colors, line, removed) == CleanFrom(cells, colors, line - 1, removed);
      }
    }
  }

  /** After `clean` no row from 1 to 23 is full (board.py:385-390). */
  lemma CleanLeavesNoFullRow(cells: set<Cell>, colors: map<Cell, Color>)
    ensures forall y :: 0 < y < Height ==> !LineFull(Clean(cells, colors).cells, y)
  {
    CleanFromLeavesNoFullRow(cells, colors, Height - 1, 0);
    assert Clean(cells, colors) == CleanFrom(cells, colors, Height - 1, 0);
  }

  lemma {:induction false} RowZeroKeptFrom(cells: set<Cell>, colors: map<Cell, Color>, line: int, removed: nat)
    requires forall c :: c in cells ==> c.y == 0
    ensures CleanFrom(cells, colors, line, removed) == Cleared(cells, colors, removed)
    decreases line
  {
    if line > 0 {
      assert !LineFull(cells, line) by { assert Cell(0, line) !in cells; }
      RowZeroKeptFrom(cells, colors, line - 1, removed);
    }
  }

  /** `clean` never tests row 0: a board whose cells all lie in row 0 is left as it is, full
      or not, and scores nothing (board.py:386). */
  lemma RowZeroKept(cells: set<Cell>, colors: map<Cell, Color>)
    requires forall c :: c in cells ==> c.y == 0
    ensures Clean(cells, colors) == Cleared(cells, colors, 0)
  {
    RowZeroKeptFrom(cells, colors, Height - 1, 0);
  }

  /** Everything above row `top` is clear, so `clean` passes over the rows above it
      without a change. */
  lemma {:induction false} CleanFromSkips(cells: set<Cell>, colors: map<Cell, Color>, line: int, top: int, removed: nat)
    requires 0 <= top <= line
    requires forall c :: c in cells ==> c.y <= top
    ensures CleanFrom(cells, colors, line, removed) == CleanFrom(cells, colors, top, removed)
    decreases line
  {
    if line > top {
      assert !LineFull(cells, line) by { assert Cell(0, line) !in cells; }
      CleanFromSkips(cells, colors, line - 1, top, removed);
    }
  }

  /** Row 0 is never tested in place, but removing row 1 brings the old row 0 down into
      row 1, where the inner loop tests it again: full rows 0 and 1 are both removed and
      leave the board empty (board.py:385-390). */
  lemma RowZeroFollows(cells: set<Cell>, colors: map<Cell, Color>)
    requires cells == set x, y | 0 <= x < Width && 0 <= y < 2 :: Cell(x, y)
    ensures Clean(cells, colors).cells == {}
    ensures Clean(cells, colors).removed == 2
  {
    var row1 := set x | 0 <= x < Width :: Cell(x, 1);
    assert LineFull(cells, 1) by {
      forall x | 0 <= x < Width ensures Cell(x, 1) in cells { }
    }
    assert RemoveLine(cells, 1) == row1 by {
      forall c | c in RemoveLine(cells, 1) ensures c in row1 { }
      forall c | c in row1 ensures c in RemoveLine(cells, 1) {
        assert Cell(c.x, 0) in cells && Lowered(Cell(c.x, 0), 1) == c;
      }
    }
    var colors1 := RemoveLineColors(colors, 1);
    assert LineFull(row1, 1);
    assert RemoveLine(row1, 1) == {};
    var colors2 := RemoveLineColors(colors1, 1);
    var none: set<Cell> := {};
    assert !LineFull(none, 1) by { assert Cell(0, 1) !in none; }
    CleanFromSkips(cells, colors, Height - 1, 1, 0);
    calc {
      Clean(cells, colors);
      CleanFrom(cells, colors, 1, 0);
      CleanFrom(row1, colors1, 1, 1);
      CleanFrom(none, colors2, 1, 2);
      CleanFrom(none, colors2, 0, 2);
    }
  }

  /** The cells of row `line` in columns 0 to n - 1. */
  lemma RowCard(line: int, n: nat)
    ensures |set x | 0 <= x < n :: Cell(x, line)| == n
  {
    if n > 0 {
      RowCard(line, n - 1);
      assert (set x | 0 <= x < n :: Cell(x, line)) ==
        (set x | 0 <= x < n - 1 :: Cell(x, line)) + {Cell(n - 1, line)};
    }
  }

  /** Lowering the cells off a removed row never makes two of them meet. */
  lemma {:induction false} LoweredOneToOne(kept: set<Cell>, line: int)
    requires forall c :: c in kept ==> c.y != line
    ensures |set c | c in kept :: Lowered(c, line)| == |kept|
    decreases |kept|
  {
    if kept != {} {
      var a :| a in kept;
      var rest := kept - {a};
      LoweredOneToOne(rest, line);
      assert (set c | c in kept :: Lowered(c, line)) ==
        (set c | c in rest :: Lowered(c, line)) + {Lowered(a, line)};
      assert Lowered(a, line) !in (set c | c in rest :: Lowered(c, line));
    }
  }

  /** `remove_line` of a full row drops at least the row's ten cells, and exactly those when
      every cell lies in columns 0 to 9, which it then keeps (board.py:361-374). */
  lemma RemoveLineCount(cells: set<Cell>, line: int)
    requires LineFull(cells, line)
    ensures |RemoveLine(cells, line)| + Width <= |cells|
    ensures (forall c :: c in cells ==> 0 <= c.x < Width) ==>
      |RemoveLine(cells, line)| + Width == |cells| &&
      forall c :: c in RemoveLine(cells, line) ==> 0 <= c.x < Width
  {
    var kept := set c | c in cells && c.y != line;
    var row := set c | c in cells && c.y == line;
    var full := set x | 0 <= x < Width :: Cell(x, line);
    LoweredOneToOne(kept, line);
    assert RemoveLine(cells, line) == set c | c in kept :: Lowered(c, line);
    assert cells == kept + row && kept * row == {};
    RowCard(line, Width);
    SubsetCard(full, row);
    if forall c :: c in cells ==> 0 <= c.x < Width {
      assert row == full;
    }
  }

  lemma {:induction false} CleanFromTally(cells: set<Cell>, colors: map<Cell, Color>, line: int, removed: nat)
    ensures var r := CleanFrom(cells, colors, line, removed);
      r.removed >= removed && |r.cells| + Width * (r.removed - removed) <= |cells|
    ensures var r := CleanFrom(cells, colors, line, removed);
      (forall c :: c in cells ==> 0 <= c.x < Width) ==>
        |r.cells| + Width * (r.removed - removed) == |cells|
    decreases line, |cells|
  {
    if line > 0 {
      if LineFull(cells, line) {
        RemoveLineShrinks(cells, line);
        RemoveLineCount(cells, line);
        CleanFromTally(RemoveLine(cells, line), RemoveLineColors(colors, line), line, removed + 1);
        assert CleanFrom(cells, colors, line, removed) ==
          CleanFrom(RemoveLine(cells, line), RemoveLineColors(colors, line), line, removed + 1);
      } else {
        CleanFromTally(cells, colors, line - 1, removed);
        assert CleanFrom(cells, colors, line, removed) == CleanFrom(cells, colors, line - 1, removed);
      }
    }
  }

  /** What `removed` counts: each row `clean` removes takes at least ten cells off the board,
      and exactly ten when every cell lies in columns 0 to 9 (board.py:385-390). */
  lemma CleanTally(cells: set<Cell>, colors: map<Cell, Color>)
    ensures |Clean(cells, colors).cells| + Width * Clean(cells, colors).removed <= |cells|
    ensures (forall c :: c in cells ==> 0 <= c.x < Width) ==>
      |Clean(cells, colors).cells| + Width * Clean(cells, colors).removed == |cells|
  {
    CleanFromTally(cells, colors, Height - 1, 0);
  }

  // ---------------------------------------------------------------------------------------
  // Landing (board.py:441-449, 535-549)

  /** The non-bomb merge: the block's cells join the landed cells, each with the block's
      colour, and every other landed cell keeps its colour (board.py:541-543). */
  lemma MergePaints(colors: map<Cell, Color>, p: Piece)
    ensures MergeColors(colors, p).Keys == MergeCells(colors.Keys, p)
    ensures forall i :: 0 <= i < |p.cells| ==> MergeColors(colors, p)[p.cells[i]] == ShapeColor(p.shape)
    ensures forall c :: c in colors && c !in p.cells ==> MergeColors(colors, p)[c] == colors[c]
  {
  }

  /** `land_block`: afterwards no row from 1 to 23 is full and the charges are as they were.
      With r the rows `clean` removed from the exploded or merged cells, it reports landed
      exactly when r < 5; the score then rises by `scores[r]` of the table 0/25/100/400/1600
      and the next block falls, centred. Otherwise the overrun raises with the score and the
      next block untouched and no falling block. Either way the board lost at least ten cells
      per removed row, exactly ten when every cell lies in columns 0 to 9. */
  lemma LandOutcome(s: State)
    requires Ready(s, Landing)
    ensures var st := Land(s);
      (forall y :: 0 < y < Height ==> !LineFull(st.state.cells, y)) &&
      st.state.bombs == s.bombs && st.state.discards == s.discards &&
      (st.reply == Done(true) || st.reply == Raised(ScoreTableFault)) &&
      (st.reply == Done(true) ==>
        st.state.score - s.score in {0, 25, 100, 400, 1600} &&
        st.state.falling == (if s.next.Some? then Some(Centered(s.next.value)) else None) &&
        st.state.next == None) &&
      (st.reply.Raised? ==> st.state.score == s.score && st.state.falling == None && st.state.next == s.next)
    ensures var p := s.falling.value;
      var colors := if p.shape == B then Explode(s.colors, p.cells[0]) else MergeColors(s.colors, p);
      var cells := if p.shape == B then colors.Keys else MergeCells(s.cells, p);
      var r := Clean(cells, colors).removed;
      var st := Land(s);
      (st.reply == Done(true) <==> r < 5) &&
      (st.reply == Done(true) ==> st.state.score - s.score == [0, 25, 100, 400, 1600][r]) &&
      |st.state.cells| + Width * r <= |cells| &&
      ((forall c :: c in cells ==> 0 <= c.x < Width) ==> |st.state.cells| + Width * r == |cells|)
  {
    var p := s.falling.value;
    var colors := if p.shape == B then Explode(s.colors, p.cells[0]) else MergeColors(s.colors, p);
    var cells := if p.shape == B then colors.Keys else MergeCells(s.cells, p);
    CleanLeavesNoFullRow(cells, colors);
    CleanTally(cells, colors);
  }

  // ---------------------------------------------------------------------------------------
  // The bomb (board.py:394-421)

  /** The colours of the occupied cells of column x in rows y, y-1, ..., 0, lowest first. */
  ghost function Stack(colors: map<Cell, Color>, x: int, y: int): seq<Color>
    decreases y + 1
  {
    if y < 0 then []
    else if Cell(x, y) in colors then [colors[Cell(x, y)]] + Stack(colors, x, y - 1)
    else Stack(colors, x, y - 1)
  }

  /** Maps a and b agree on cell c. */
  ghost predicate SameAt(a: map<Cell, Color>, b: map<Cell, Color>, c: Cell)
  {
    (c in a <==> c in b) && (c in a ==> a[c] == b[c])
  }

  /** Maps a and b agree on column x. */
  ghost predicate SameColumn(a: map<Cell, Color>, b: map<Cell, Color>, x: int)
  {
    forall y :: SameAt(a, b, Cell(x, y))
  }

  lemma {:induction false} StackFrame(a: map<Cell, Color>, b: map<Cell, Color>, x: int, y: int)
    requires forall r :: 0 <= r <= y ==> SameAt(a, b, Cell(x, r))
    ensures Stack(a, x, y) == Stack(b, x, y)
    decreases y + 1
  {
    if y >= 0 {
      assert SameAt(a, b, Cell(x, y));
      StackFrame(a, b, x, y - 1);
    }
  }

  /** The downward pass stacks the occupied cells of rows y..0 of column x, keeping their
      order and colours, in the rows ending at `lowest`; the rows above them end empty and
      nothing else changes (board.py:414-421). */
  lemma {:induction false} RestackSpec(colors: map<Cell, Color>, x: int, y: int, lowest: int)
    requires y <= lowest
    requires forall r :: y < r <= lowest ==> Cell(x, r) !in colors
    ensures forall c: Cell :: c.x != x || c.y > lowest || c.y < 0 ==> SameAt(Restack(colors, x, y, lowest), colors, c)
    ensures forall r :: 0 <= r <= lowest ==>
      (Cell(x, r) in Restack(colors, x, y, lowest) <==> lowest - |Stack(colors, x, y)| < r)
    ensures forall r :: 0 <= r <= lowest && Cell(x, r) in Restack(colors, x, y, lowest) ==>
      Restack(colors, x, y, lowest)[Cell(x, r)] == Stack(colors, x, y)[lowest - r]
    decreases y + 1
  {
    if y < 0 {
      assert Stack(colors, x, y) == [];
    } else {
      var c := Cell(x, y);
      if c in colors {
        var moved := (colors - {c})[Cell(x, lowest) := colors[c]];
        forall r | 0 <= r <= y - 1
          ensures SameAt(moved, colors, Cell(x, r))
        {
        }
        StackFrame(moved, colors, x, y - 1);
        RestackSpec(moved, x, y - 1, lowest - 1);
        assert SameAt(Restack(colors, x, y, lowest), moved, Cell(x, lowest));
      } else {
        RestackSpec(colors, x, y - 1, lowest);
      }
    }
  }

  lemma {:induction false} RestackOtherColumn(colors: map<Cell, Color>, x: int, y: int, lowest: int, z: int)
    requires z != x
    ensures SameColumn(Restack(colors, x, y, lowest), colors, z)
    decreases y + 1
  {
    if y >= 0 {
      var c := Cell(x, y);
      if c in colors {
        var moved := (colors - {c})[Cell(x, lowest) := colors[c]];
        RestackOtherColumn(moved, x, y - 1, lowest - 1, z);
        forall r ensures SameAt(Restack(colors, x, y, lowest), colors, Cell(z, r)) {
          assert SameAt(Restack(moved, x, y - 1, lowest - 1), moved, Cell(z, r));
        }
      } else {
        RestackOtherColumn(colors, x, y - 1, lowest, z);
      }
    }
  }

  lemma {:induction false} RestackLocal(a: map<Cell, Color>, b: map<Cell, Color>, x: int, y: int, lowest: int)
    requires SameColumn(a, b, x)
    ensures SameColumn(Restack(a, x, y, lowest), Restack(b, x, y, lowest), x)
    decreases y + 1
  {
    if y >= 0 {
      var c := Cell(x, y);
      assert SameAt(a, b, c);
      if c in a {
        var ma := (a - {c})[Cell(x, lowest) := a[c]];
        var mb := (b - {c})[Cell(x, lowest) := b[c]];
        forall r ensures SameAt(ma, mb, Cell(x, r)) {
          assert SameAt(a, b, Cell(x, r));
        }
        RestackLocal(ma, mb, x, y - 1, lowest - 1);
      } else {
        RestackLocal(a, b, x, y - 1, lowest);
      }
    }
  }

  lemma {:induction false} FirstBelowLocal(a: map<Cell, Color>, b: map<Cell, Color>, x: int, y: int)
    requires SameColumn(a, b, x)
    ensures FirstBelow(a.Keys, x, y) == FirstBelow(b.Keys, x, y)
    decreases Height - y
  {
    if y < Height {
      assert SameAt(a, b, Cell(x, y));
      FirstBelowLocal(a, b, x, y + 1);
    }
  }

  /** Settling columns x .. xEnd-1 restacks each of them as if it were the only one, and
      leaves every other column as it is. */
  lemma {:induction false} SettleColumns(colors: map<Cell, Color>, x: int, xEnd: int, py: int, z: int)
    ensures SameColumn(Settle(colors, x, xEnd, py),
      if x <= z < xEnd then Restack(colors, z, py, FirstBelow(colors.Keys, z, py) - 1) else colors, z)
    decreases xEnd - x
  {
    if x < xEnd {
      var moved := Restack(colors, x, py, FirstBelow(colors.Keys, x, py) - 1);
      SettleColumns(moved, x + 1, xEnd, py, z);
      var e := Settle(moved, x + 1, xEnd, py);
      if z == x {
      } else {
        RestackOtherColumn(colors, x, py, FirstBelow(colors.Keys, x, py) - 1, z);
        if x < z < xEnd {
          FirstBelowLocal(moved, colors, z, py);
          var lowest := FirstBelow(colors.Keys, z, py) - 1;
          RestackLocal(moved, colors, z, py, lowest);
          forall r ensures SameAt(e, Restack(colors, z, py, lowest), Cell(z, r)) {
            assert SameAt(e, Restack(moved, z, py, lowest), Cell(z, r));
            assert SameAt(Restack(moved, z, py, lowest), Restack(colors, z, py, lowest), Cell(z, r));
          }
        } else {
          forall r ensures SameAt(e, colors, Cell(z, r)) {
            assert SameAt(e, moved, Cell(z, r));
            assert SameAt(moved, colors, Cell(z, r));
          }
        }
      }
    }
  }

  /** `explode` (board.py:394-421). Only the columns bx-1..bx+1 change after the blast. In
      each of them, the cells of rows by..0 fall, in order and with their colours, onto the
      first occupied cell below row by, or onto the floor when there is none; the rows above
      them end empty and the rows below are untouched. */
  lemma ExplodeColumns(colors: map<Cell, Color>, bomb: Cell, z: int)
    requires 0 <= bomb.y < Height
    ensures var b := Blast(colors, bomb.x, bomb.y);
      var e := Explode(colors, bomb);
      var lowest := FirstBelow(b.Keys, z, bomb.y) - 1;
      var st := Stack(b, z, bomb.y);
      if bomb.x - 1 <= z <= bomb.x + 1 then
        bomb.y <= lowest < Height &&
        (lowest < Height - 1 ==> Cell(z, lowest + 1) in b) &&
        (forall r :: r > lowest || r < 0 ==> SameAt(e, b, Cell(z, r))) &&
        (forall r :: 0 <= r <= lowest ==> (Cell(z, r) in e <==> lowest - |st| < r)) &&
        (forall r :: 0 <= r <= lowest && Cell(z, r) in e ==> e[Cell(z, r)] == st[lowest - r])
      else SameColumn(e, b, z)
  {
    var b := Blast(colors, bomb.x, bomb.y);
    SettleColumns(b, bomb.x - 1, bomb.x + 2, bomb.y, z);
    if bomb.x - 1 <= z <= bomb.x + 1 {
      var e := Explode(colors, bomb);
      assert Cell(z, bomb.y) !in b;
      FirstBelowIsFirst(b.Keys, z, bomb.y);
      var lowest := FirstBelow(b.Keys, z, bomb.y) - 1;
      RestackSpec(b, z, bomb.y, lowest);
    }
  }

  /** A map with one key moved has no more keys than before. */
  lemma MoveKeyCard(m: map<Cell, Color>, k: Cell, k2: Cell)
    requires k in m
    ensures |(m - {k})[k2 := m[k]]| <= |m|
  {
    assert (m - {k}).Keys == m.Keys - {k};
  }

  lemma {:induction false} RestackShrinks(colors: map<Cell, Color>, x: int, y: int, lowest: int)
    ensures |Restack(colors, x, y, lowest)| <= |colors|
    decreases y + 1
  {
    if y >= 0 {
      var c := Cell(x, y);
      if c in colors {
        MoveKeyCard(colors, c, Cell(x, lowest));
        RestackShrinks((colors - {c})[Cell(x, lowest) := colors[c]], x, y - 1, lowest - 1);
      } else {
        RestackShrinks(colors, x, y - 1, lowest);
      }
    }
  }

  lemma {:induction false} SettleShrinks(colors: map<Cell, Color>, x: int, xEnd: int, py: int)
    ensures |Settle(colors, x, xEnd, py)| <= |colors|
    decreases xEnd - x
  {
    if x < xEnd {
      var lowest := FirstBelow(colors.Keys, x, py) - 1;
      RestackShrinks(colors, x, py, lowest);
      SettleShrinks(Restack(colors, x, py, lowest), x + 1, xEnd, py);
    }
  }

  /** A bomb never adds landed cells (board.py:396-421). */
  lemma ExplodeShrinks(colors: map<Cell, Color>, bomb: Cell)
    ensures |Explode(colors, bomb)| <= |colors|
  {
    var b := Blast(colors, bomb.x, bomb.y);
    SubsetCard(b.Keys, colors.Keys);
    SettleShrinks(b, bomb.x - 1, bomb.x + 2, bomb.y);
  }

  // ---------------------------------------------------------------------------------------
  // The actions (board.py:551-637)

  /** `move`, `rotate`, `skip` and `discard` raise NoBlockException without a falling block
      and change nothing; `bomb` first spends its charge, as it does with a block. */
  lemma NoBlockRaises(s: State, a: Action)
    requires Consistent(s) && s.falling.None?
    ensures var armed := s.bombs > 0 && s.next.Some? && s.next.value.shape != B;
      Act(s, a) == Stay(if a == Bomb && armed then s.(next := Some(NewPiece(B)), bombs := s.bombs - 1) else s,
        s.cells, Raised(NoBlockFault))
  {
  }

  /** The implicit Down step never lowers the score. */
  lemma ImplicitDownScores(s: State)
    requires Ready(s, Falling)
    ensures ImplicitDown(s).state.score >= s.score
  {
    var m := StepDown(s.falling.value, 1, s.cells);
    if m.landed {
      LandOutcome(s.(falling := Some(m.piece), score := s.score + m.points));
    }
  }

  lemma MoveScores(s: State, d: Direction)
    requires Consistent(s) && s.falling.Some?
    ensures MoveStep(s, d).state.score >= s.score
  {
    var p := s.falling.value;
    MoveThrough(s, d);
    var m := MovePiece(p, d, 1, s.cells);
    var s1 := s.(falling := Some(m.piece), score := s.score + m.points);
    if d == Drop {
      ExtremesInBounds(p.cells);
      DropLands(p, s.cells);
    }
    if m.landed {
      MoveLandsInBounds(s, d);
      LandOutcome(s1);
    } else {
      MoveStaysInBounds(s, d);
      ImplicitDownScores(s1);
    }
  }

  lemma RotateScores(s: State, rot: Rotation)
    requires Consistent(s) && s.falling.Some?
    ensures RotateStep(s, rot).state.score >= s.score
  {
    var p := s.falling.value;
    RotateThrough(s, rot);
    RotateScoresDown(p, rot, s.cells);
    var t := RotatePiece(p, rot, s.cells);
    ImplicitDownScores(s.(falling := Some(t.piece), score := s.score + t.points));
  }

  /** No action lowers the score: moves and rotations add points, landings add a bonus,
      and every other change leaves the score alone. */
  lemma ScoreNeverFalls(s: State, a: Action)
    requires Consistent(s)
    ensures Act(s, a).state.score >= s.score
  {
    if s.falling.Some? {
      match a
      case Skip => ImplicitDownScores(s);
      case Bomb =>
        var armed := s.bombs > 0 && s.next.Some? && s.next.value.shape != B;
        ImplicitDownScores(if armed then s.(next := Some(NewPiece(B)), bombs := s.bombs - 1) else s);
      case Discard =>
      case Go(d) => MoveScores(s, d);
      case Turn(rot) => RotateScores(s, rot);
    }
  }

  /** `bomb` with a charge, a falling block and a next block that is not a bomb spends the
      charge and makes the next block a bomb: it is still next when the skip does not land,
      and it is the falling block when the skip lands. Otherwise `bomb` is `skip`
      (board.py:593-604). */
  lemma BombLoadsNext(s: State)
    requires Consistent(s) && s.falling.Some?
    ensures var armed := s.bombs > 0 && s.next.Some? && s.next.value.shape != B;
      var st := BombStep(s);
      (armed ==>
        st.state.bombs == s.bombs - 1 &&
        (st.reply == Done(false) ==> st.state.next == Some(NewPiece(B))) &&
        (st.reply == Done(true) ==> st.state.falling == Some(Centered(NewPiece(B))) && st.state.next == None)) &&
      (!armed ==> st == SkipStep(s))
  {
    var armed := s.bombs > 0 && s.next.Some? && s.next.value.shape != B;
    if armed {
      var s1 := s.(next := Some(NewPiece(B)), bombs := s.bombs - 1);
      var m := StepDown(s1.falling.value, 1, s1.cells);
      if m.landed {
        LandOutcome(s1.(falling := Some(m.piece), score := s1.score + m.points));
      }
    }
  }

  /** `discard` with a charge spends it and promotes the next block in place of the falling
      one, without merging it or touching cells, colours, score or bombs, and reports True;
      without a charge it changes nothing and reports False (board.py:606-623). */
  lemma DiscardReplaces(s: State)
    requires Consistent(s) && s.falling.Some?
    ensures var st := DiscardStep(s);
      !st.rebound && st.held == s.cells &&
      (s.discards > 0 ==>
        st.reply == Done(true) && st.state.discards == s.discards - 1 &&
        st.state.falling == (if s.next.Some? then Some(Centered(s.next.value)) else None) &&
        st.state.next == None &&
        st.state.cells == s.cells && st.state.colors == s.colors &&
        st.state.score == s.score && st.state.bombs == s.bombs) &&
      (s.discards <= 0 ==> st.reply == Done(false) && st.state == s)
  {
  }

  // ---------------------------------------------------------------------------------------
  // The set object of the landed cells (board.py:371, 404, 541)

  /** `clean` only ever removes rows by counting them: with none removed it returns the cells
      it was given. */
  lemma {:induction false} CleanFromCounts(cells: set<Cell>, colors: map<Cell, Color>, line: int, removed: nat)
    ensures CleanFrom(cells, colors, line, removed).removed >= removed
    ensures CleanFrom(cells, colors, line, removed).removed == removed ==>
      CleanFrom(cells, colors, line, removed).cells == cells
    decreases line, |cells|
  {
    if line > 0 {
      if LineFull(cells, line) {
        RemoveLineShrinks(cells, line);
        CleanFromCounts(RemoveLine(cells, line), RemoveLineColors(colors, line), line, removed + 1);
        assert CleanFrom(cells, colors, line, removed) ==
          CleanFrom(RemoveLine(cells, line), RemoveLineColors(colors, line), line, removed + 1);
      } else {
        CleanFromCounts(cells, colors, line - 1, removed);
        assert CleanFrom(cells, colors, line, removed) == CleanFrom(cells, colors, line - 1, removed);
      }
    }
  }

  /** A landing that neither explodes a bomb nor removes a row merges in place: the old set
      object is still the board's and holds the new landed cells. */
  lemma LandKeepsSet(s: State)
    requires Ready(s, Landing)
    ensures !Land(s).rebound ==> Land(s).held == Land(s).state.cells
  {
    var p := s.falling.value;
    var colors := if p.shape == B then Explode(s.colors, p.cells[0]) else MergeColors(s.colors, p);
    var cells := if p.shape == B then colors.Keys else MergeCells(s.cells, p);
    CleanFromCounts(cells, colors, Height - 1, 0);
  }

  lemma ImplicitDownKeepsSet(s: State)
    requires Ready(s, Falling)
    ensures !ImplicitDown(s).rebound ==> ImplicitDown(s).held == ImplicitDown(s).state.cells
  {
    var m := StepDown(s.falling.value, 1, s.cells);
    if m.landed {
      LandKeepsSet(s.(falling := Some(m.piece), score := s.score + m.points));
    }
  }

  lemma MoveKeepsSet(s: State, d: Direction)
    requires Consistent(s) && s.falling.Some?
    ensures !MoveStep(s, d).rebound ==> MoveStep(s, d).held == MoveStep(s, d).state.cells
  {
    var m := MovePiece(s.falling.value, d, 1, s.cells);
    var s1 := s.(falling := Some(m.piece), score := s.score + m.points);
    MoveSplits(s, d, s1);
    if m.landed {
      LandKeepsSet(s1);
    } else {
      ImplicitDownKeepsSet(s1);
    }
  }

  /** Unless an action rebinds the board's cell set, the set object the board held before
      the action holds the landed cells after it. Only `remove_line` and `explode` rebind it;
      the merge of a landing block adds to it in place (board.py:371, 404, 541). */
  lemma StepKeepsSet(s: State, a: Action)
    requires Consistent(s)
    ensures !Act(s, a).rebound ==> Act(s, a).held == Act(s, a).state.cells
  {
    if s.falling.Some? {
      match a
      case Skip => ImplicitDownKeepsSet(s);
      case Bomb =>
        var armed := s.bombs > 0 && s.next.Some? && s.next.value.shape != B;
        ImplicitDownKeepsSet(if armed then s.(next := Some(NewPiece(B)), bombs := s.bombs - 1) else s);
      case Discard =>
      case Go(d) => MoveKeepsSet(s, d);
      case Turn(rot) =>
        var t := RotatePiece(s.falling.value, rot, s.cells);
        RotateThrough(s, rot);
        ImplicitDownKeepsSet(s.(falling := Some(t.piece), score := s.score + t.points));
    }
  }

  // ---------------------------------------------------------------------------------------
  // Progress of the search's moves (board.py:216-249, 551-571)

  /** `move(Drop)` always lands: it never reports False. */
  lemma DropAlwaysLands(s: State)
    requires Consistent(s) && s.falling.Some?
    ensures MoveStep(s, Drop).reply != Done(false)
  {
    var p := s.falling.value;
    ExtremesInBounds(p.cells);
    DropLands(p, s.cells);
    var m := MovePiece(p, Drop, 1, s.cells);
    var s1 := s.(falling := Some(m.piece), score := s.score + m.points);
    MoveSplits(s, Drop, s1);
    LandOutcome(s1);
  }

  /** A Left or Right step keeps the block's rows. */
  lemma SideStepKeepsRows(p: Piece, d: Direction, landed: set<Cell>)
    requires |p.cells| > 0 && InBounds(p.cells) && (d == Left || d == Right)
    ensures MaxY(MovePiece(p, d, 1, landed).piece.cells) == MaxY(p.cells)
  {
    SideMoveRollback(p, d, 1, landed);
    TranslateExtremes(p, if d == Right then 1 else -1, 0);
  }

  /** An implicit Down step that does not land lowers the block by one row. */
  lemma DownStepLowers(s: State)
    requires Ready(s, Falling) && ImplicitDown(s).reply == Done(false)
    ensures ImplicitDown(s).state.falling.Some? && Consistent(ImplicitDown(s).state)
    ensures MaxY(ImplicitDown(s).state.falling.value.cells) == MaxY(s.falling.value.cells) + 1
  {
    var p := s.falling.value;
    var down := StepDown(p, 1, s.cells);
    if down.landed {
      LandOutcome(s.(falling := Some(down.piece), score := s.score + down.points));
      assert false;
    }
    ImplicitDownConsistent(s);
    TranslateExtremes(p, 0, 1);
  }

  /** The Down rule of `Block.move` (board.py:234-244): a supported block stays where it is,
      reports landed and scores nothing; any other block moves `count` rows down, cells and
      centre alike, and scores `count` points. */
  lemma DownRule(p: Piece, count: int, landed: set<Cell>)
    requires |p.cells| > 0
    ensures var m := MovePiece(p, Down, count, landed);
      (m.landed <==> Supported(p.cells, landed)) &&
      (m.landed ==> m.piece == p && m.points == 0) &&
      (!m.landed ==>
         m.piece == Translate(p, 0, count) && m.points == count &&
         MinX(m.piece.cells) == MinX(p.cells) && MaxY(m.piece.cells) == MaxY(p.cells) + count)
  {
    TranslateExtremes(p, 0, count);
  }

  /** The action `move(Down)` (board.py:562-571): the Down step of the move and the implicit
      Down step that follows it. A supported block lands at once; a block supported one row
      lower lands there with one point; any other block falls two rows, scores two points
      and the reply is False. */
  lemma DownActionFallsTwo(s: State)
    requires Consistent(s) && s.falling.Some?
    ensures var p := s.falling.value;
      var q := Translate(p, 0, 1);
      (Supported(p.cells, s.cells) ==> MoveStep(s, Down) == Land(s)) &&
      (!Supported(p.cells, s.cells) && Supported(q.cells, s.cells) ==>
        MoveStep(s, Down) == Land(s.(falling := Some(q), score := s.score + 1))) &&
      (!Supported(p.cells, s.cells) && !Supported(q.cells, s.cells) ==>
        MoveStep(s, Down) == Stay(s.(falling := Some(Translate(p, 0, 2)), score := s.score + 2), s.cells, Done(false)))
  {
    var p := s.falling.value;
    var q := Translate(p, 0, 1);
    if !Supported(p.cells, s.cells) {
      MoveStaysInBounds(s, Down);
      TranslateTwice(p, 0, 1, 0, 1);
    }
  }

  /** A Left or Right move that does not land leaves the block one row lower: the sideways
      step keeps the rows, the implicit Down step lowers them by one. */
  lemma SideStepFalls(s: State, d: Direction)
    requires Consistent(s) && s.falling.Some? && (d == Left || d == Right)
    requires MoveStep(s, d).reply == Done(false)
    ensures MoveStep(s, d).state.falling.Some? && Consistent(MoveStep(s, d).state)
    ensures MaxY(MoveStep(s, d).state.falling.value.cells) == MaxY(s.falling.value.cells) + 1
  {
    var p := s.falling.value;
    var m := MovePiece(p, d, 1, s.cells);
    SideMoveRollback(p, d, 1, s.cells);
    SideStepKeepsRows(p, d, s.cells);
    var s1 := s.(falling := Some(m.piece), score := s.score + m.points);
    MoveSplits(s, d, s1);
    DownStepLowers(s1);
  }
}
