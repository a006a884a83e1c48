/**
 * The geometry of a block as a value (board.py:139-310): its cells, its rotation
 * centre, the shifts, the supported test and the rotation with its wall corrections.
 * The class Engine.Block performs these steps in place; this module says what they compute.
 */
module Pieces {
  import opened Shapes

  /** A block's state: its shape, its cells and its rotation centre. */
  datatype Piece = Piece(shape: Shape, cells: seq<Cell>, center: Center)

  /** The outcome of one block move: the new piece, whether the move reported "landed",
      and the points a Down step scored. */
  datatype Moved = Moved(piece: Piece, landed: bool, points: int)

  /** The outcome of a rotation: the new piece, whether it was kept, and the points scored
      by the top correction (which are kept even when the rotation is rolled back). */
  datatype Turned = Turned(piece: Piece, kept: bool, points: int)

  /** A block as the engine keeps it: as many cells as its shape has. */
  predicate WellFormed(p: Piece)
  {
    |p.cells| == Size(p.shape)
  }

  /** Every cell lies on the 10 x 24 board. */
  predicate InBounds(cs: seq<Cell>)
  {
    forall i :: 0 <= i < |cs| ==> 0 <= cs[i].x < Width && 0 <= cs[i].y < Height
  }

  /** A freshly made block: `Block(shape)` (board.py:148-152). */
  function NewPiece(s: Shape): (p: Piece)
    ensures WellFormed(p) && p.shape == s
  {
    Piece(s, ShapeCells(s), ShapeCenter(s))
  }

  /** Cell k has the least x among the first n cells. */
  ghost predicate LeftmostAt(cs: seq<Cell>, n: int, k: int)
  {
    0 <= k < n <= |cs| && forall i :: 0 <= i < n ==> cs[k].x <= cs[i].x
  }

  /** `left`: the leftmost x-position of a block (board.py:154-160). */
  ghost function MinX(cs: seq<Cell>): (m: int)
    requires |cs| > 0
    ensures forall i :: 0 <= i < |cs| ==> m <= cs[i].x
    ensures exists i :: 0 <= i < |cs| && cs[i].x == m
  {
    LeftmostExists(cs, |cs|);
    var k :| LeftmostAt(cs, |cs|, k);
    cs[k].x
  }

  lemma {:induction false} LeftmostExists(cs: seq<Cell>, n: int)
    requires 0 < n <= |cs|
    ensures exists k :: LeftmostAt(cs, n, k)
  {
    if n > 1 {
      LeftmostExists(cs, n - 1);
      var k :| LeftmostAt(cs, n - 1, k);
      if cs[n - 1].x <= cs[k].x {
        assert LeftmostAt(cs, n, n - 1);
      } else {
        assert LeftmostAt(cs, n, k);
      }
    } else {
      assert LeftmostAt(cs, n, 0);
    }
  }

  /** Cell k has the greatest x among the first n cells. */
  ghost predicate RightmostAt(cs: seq<Cell>, n: int, k: int)
  {
    0 <= k < n <= |cs| && forall i :: 0 <= i < n ==> cs[k].x >= cs[i].x
  }

  /** `right`: the rightmost x-position (board.py:162-168). */
  ghost function MaxX(cs: seq<Cell>): (m: int)
    requires |cs| > 0
    ensures forall i :: 0 <= i < |cs| ==> m >= cs[i].x
    ensures exists i :: 0 <= i < |cs| && cs[i].x == m
  {
    RightmostExists(cs, |cs|);
    var k :| RightmostAt(cs, |cs|, k);
    cs[k].x
  }

  lemma {:induction false} RightmostExists(cs: seq<Cell>, n: int)
    requires 0 < n <= |cs|
    ensures exists k :: RightmostAt(cs, n, k)
  {
    if n > 1 {
      RightmostExists(cs, n - 1);
      var k :| RightmostAt(cs, n - 1, k);
      if cs[n - 1].x >= cs[k].x {
        assert RightmostAt(cs, n, n - 1);
      } else {
        assert RightmostAt(cs, n, k);
      }
    } else {
      assert RightmostAt(cs, n, 0);
    }
  }

  /** Cell k has the least y among the first n cells. */
  ghost predicate TopmostAt(cs: seq<Cell>, n: int, k: int)
  {
    0 <= k < n <= |cs| && forall i :: 0 <= i < n ==> cs[k].y <= cs[i].y
  }

  /** `top`: the topmost y-position (board.py:170-176). */
  ghost function MinY(cs: seq<Cell>): (m: int)
    requires |cs| > 0
    ensures forall i :: 0 <= i < |cs| ==> m <= cs[i].y
    ensures exists i :: 0 <= i < |cs| && cs[i].y == m
  {
    TopmostExists(cs, |cs|);
    var k :| TopmostAt(cs, |cs|, k);
    cs[k].y
  }

  lemma {:induction false} TopmostExists(cs: seq<Cell>, n: int)
    requires 0 < n <= |cs|
    ensures exists k :: TopmostAt(cs, n, k)
  {
    if n > 1 {
      TopmostExists(cs, n - 1);
      var k :| TopmostAt(cs, n - 1, k);
      if cs[n - 1].y <= cs[k].y {
        assert TopmostAt(cs, n, n - 1);
      } else {
        assert TopmostAt(cs, n, k);
      }
    } else {
      assert TopmostAt(cs, n, 0);
    }
  }

  /** Cell k has the greatest y among the first n cells. */
  ghost predicate BottommostAt(cs: seq<Cell>, n: int, k: int)
  {
    0 <= k < n <= |cs| && forall i :: 0 <= i < n ==> cs[k].y >= cs[i].y
  }

  /** `bottom`: the bottommost y-position (board.py:178-184). */
  ghost function MaxY(cs: seq<Cell>): (m: int)
    requires |cs| > 0
    ensures forall i :: 0 <= i < |cs| ==> m >= cs[i].y
    ensures exists i :: 0 <= i < |cs| && cs[i].y == m
  {
    BottommostExists(cs, |cs|);
    var k :| BottommostAt(cs, |cs|, k);
    cs[k].y
  }

  lemma {:induction false} BottommostExists(cs: seq<Cell>, n: int)
    requires 0 < n <= |cs|
    ensures exists k :: BottommostAt(cs, n, k)
  {
    if n > 1 {
      BottommostExists(cs, n - 1);
      var k :| BottommostAt(cs, n - 1, k);
      if cs[n - 1].y >= cs[k].y {
        assert BottommostAt(cs, n, n - 1);
      } else {
        assert BottommostAt(cs, n, k);
      }
    } else {
      assert BottommostAt(cs, n, 0);
    }
  }

  /** r is cs with every cell moved by (dx, dy). */
  ghost predicate ShiftedBy(cs: seq<Cell>, r: seq<Cell>, dx: int, dy: int)
  {
    |r| == |cs| && forall i {:trigger r[i]} :: 0 <= i < |cs| ==> r[i] == Cell(cs[i].x + dx, cs[i].y + dy)
  }

  /** Every cell moved by (dx, dy): the set comprehensions of `move` and `initialize`. */
  ghost function Shift(cs: seq<Cell>, dx: int, dy: int): (r: seq<Cell>)
    ensures |r| == |cs|
    ensures forall i {:trigger r[i]} :: 0 <= i < |cs| ==> r[i] == Cell(cs[i].x + dx, cs[i].y + dy)
  {
    var w := seq(|cs|, i requires 0 <= i < |cs| => Cell(cs[i].x + dx, cs[i].y + dy));
    assert ShiftedBy(cs, w, dx, dy);
    var r :| ShiftedBy(cs, r, dx, dy);
    r
  }

  /** Cells and centre moved together by (dx, dy). */
  ghost function Translate(p: Piece, dx: int, dy: int): (q: Piece)
    ensures q.shape == p.shape && |q.cells| == |p.cells|
    ensures WellFormed(p) ==> WellFormed(q)
  {
    Piece(p.shape, Shift(p.cells, dx, dy), Center(p.center.x + dx, p.center.y + dy, p.center.half))
  }

  /** Some cell of the block is a landed cell (Bitmap.collides, board.py:129-130). */
  predicate Collides(cs: seq<Cell>, landed: set<Cell>)
  {
    exists i :: 0 <= i < |cs| && cs[i] in landed
  }

  /** Some cell has a landed cell or the floor directly below it (board.py:196-206). */
  predicate Supported(cs: seq<Cell>, landed: set<Cell>)
  {
    exists i :: 0 <= i < |cs| && (Cell(cs[i].x, cs[i].y + 1) in landed || cs[i].y + 1 == Height)
  }

  /** `move(Right, count)`: shift right, undone when the block leaves the right wall or
      overlaps a landed cell; the centre moves only when the shift is kept (board.py:216-223). */
  ghost function StepRight(p: Piece, count: int, landed: set<Cell>): (q: Piece)
    requires |p.cells| > 0
    ensures q.shape == p.shape && |q.cells| == |p.cells|
    ensures WellFormed(p) ==> WellFormed(q)
  {
    var moved := Shift(p.cells, count, 0);
    if MaxX(moved) >= Width || Collides(moved, landed) then p else Translate(p, count, 0)
  }

  /** `move(Left, count)`, the mirror image, checked against the left wall (board.py:225-232). */
  ghost function StepLeft(p: Piece, count: int, landed: set<Cell>): (q: Piece)
    requires |p.cells| > 0
    ensures q.shape == p.shape && |q.cells| == |p.cells|
    ensures WellFormed(p) ==> WellFormed(q)
  {
    var moved := Shift(p.cells, -count, 0);
    if MinX(moved) < 0 || Collides(moved, landed) then p else Translate(p, -count, 0)
  }

  /** `move(Down, count)`: a supported block stays and reports landed; otherwise it falls
      count rows and scores count points (board.py:234-244). */
  ghost function StepDown(p: Piece, count: int, landed: set<Cell>): (m: Moved)
    ensures m.piece.shape == p.shape && |m.piece.cells| == |p.cells|
    ensures WellFormed(p) ==> WellFormed(m.piece)
  {
    if Supported(p.cells, landed) then Moved(p, true, 0)
    else Moved(Translate(p, 0, count), false, count)
  }

  /** `move(Drop)`: Down steps of one row until supported; always reports landed
      (board.py:246-249). */
  ghost function DropPiece(p: Piece, landed: set<Cell>): (m: Moved)
    requires |p.cells| > 0 && MaxY(p.cells) < Height
    decreases Height - MaxY(p.cells)
  {
    if Supported(p.cells, landed) then Moved(p, true, 0)
    else
      ShiftMaxY(p.cells, 0, 1);
      var m := DropPiece(Translate(p, 0, 1), landed);
      Moved(m.piece, true, m.points + 1)
  }

  /** `Block.move(direction, board, count)` (board.py:208-249). */
  ghost function MovePiece(p: Piece, d: Direction, count: int, landed: set<Cell>): Moved
    requires |p.cells| > 0 && (d == Drop ==> MaxY(p.cells) < Height)
  {
    match d
    case Right => Moved(StepRight(p, count, landed), false, 0)
    case Left => Moved(StepLeft(p, count, landed), false, 0)
    case Down => StepDown(p, count, landed)
    case Drop => DropPiece(p, landed)
  }

  /** One cell turned a quarter about the centre (x + h/2, y + h/2); the result is exact
      (board.py:262-266). */
  function TurnCell(p: Cell, c: Center, rot: Rotation): (q: Cell)
    ensures var h := if c.half then 1 else 0;
      if rot == Clockwise then
        2 * q.x == -(2 * p.y - (2 * c.y + h)) + (2 * c.x + h) &&
        2 * q.y == (2 * p.x - (2 * c.x + h)) + (2 * c.y + h)
      else
        2 * q.x == (2 * p.y - (2 * c.y + h)) + (2 * c.x + h) &&
        2 * q.y == -(2 * p.x - (2 * c.x + h)) + (2 * c.y + h)
  {
    var h := if c.half then 1 else 0;
    if rot == Clockwise then Cell(c.x + c.y + h - p.y, p.x - c.x + c.y)
    else Cell(p.y - c.y + c.x, c.x + c.y + h - p.x)
  }

  /** r is cs with every cell turned about c. */
  ghost predicate TurnedAbout(cs: seq<Cell>, r: seq<Cell>, c: Center, rot: Rotation)
  {
    |r| == |cs| && forall i {:trigger r[i]} :: 0 <= i < |cs| ==> r[i] == TurnCell(cs[i], c, rot)
  }

  /** Every cell of the block turned about the centre (board.py:262-266). */
  ghost function RotateCells(cs: seq<Cell>, c: Center, rot: Rotation): (r: seq<Cell>)
    ensures |r| == |cs|
    ensures forall i {:trigger r[i]} :: 0 <= i < |cs| ==> r[i] == TurnCell(cs[i], c, rot)
  {
    var w := seq(|cs|, i requires 0 <= i < |cs| => TurnCell(cs[i], c, rot));
    assert TurnedAbout(cs, w, c, rot);
    var r :| TurnedAbout(cs, r, c, rot);
    r
  }

  /** The left-wall correction: push right by the overhang (board.py:269-275). */
  ghost function FixLeft(r: Piece, landed: set<Cell>): (q: Piece)
    requires |r.cells| > 0
    ensures q.shape == r.shape && |q.cells| == |r.cells|
    ensures WellFormed(r) ==> WellFormed(q)
  {
    if MinX(r.cells) < 0 then StepRight(r, -MinX(r.cells), landed) else r
  }

  /** FixLeft in terms of a previously read `left`. */
  lemma FixLeftBy(r: Piece, landed: set<Cell>, left: int)
    requires |r.cells| > 0 && left == MinX(r.cells)
    ensures FixLeft(r, landed) == if left < 0 then StepRight(r, -left, landed) else r
  {
  }

  /** The right-wall correction: push left by the overhang (board.py:277-283). */
  ghost function FixRight(r: Piece, landed: set<Cell>): (q: Piece)
    requires |r.cells| > 0 && MinX(r.cells) >= 0
    ensures q.shape == r.shape && |q.cells| == |r.cells| && MinX(q.cells) >= 0
    ensures WellFormed(r) ==> WellFormed(q)
  {
    if MaxX(r.cells) >= Width then StepLeft(r, MaxX(r.cells) - Width + 1, landed) else r
  }

  /** FixRight in terms of a previously read `right`. */
  lemma FixRightBy(r: Piece, landed: set<Cell>, right: int)
    requires |r.cells| > 0 && MinX(r.cells) >= 0 && right == MaxX(r.cells)
    ensures FixRight(r, landed) == if right >= Width then StepLeft(r, right - Width + 1, landed) else r
  {
  }

  /** The top correction: a Down step by the overhang, which scores and may report
      landed instead of moving (board.py:285-291). */
  ghost function FixTop(r: Piece, landed: set<Cell>): (m: Moved)
    ensures m.piece.shape == r.shape && |m.piece.cells| == |r.cells|
    ensures WellFormed(r) ==> WellFormed(m.piece)
  {
    if |r.cells| > 0 && MinY(r.cells) < 0 then StepDown(r, -MinY(r.cells), landed) else Moved(r, false, 0)
  }

  /** FixTop in terms of a previously read `top`. */
  lemma FixTopBy(r: Piece, landed: set<Cell>, top: int)
    requires |r.cells| > 0 && top == MinY(r.cells)
    ensures FixTop(r, landed) == if top < 0 then StepDown(r, -top, landed) else Moved(r, false, 0)
  {
  }

  /** The top correction moves the block vertically only. */
  lemma FixTopColumns(r: Piece, landed: set<Cell>)
    requires |r.cells| > 0
    ensures MinX(FixTop(r, landed).piece.cells) == MinX(r.cells)
    ensures MaxX(FixTop(r, landed).piece.cells) == MaxX(r.cells)
  {
    if MinY(r.cells) < 0 {
      ShiftMinX(r.cells, 0, -MinY(r.cells));
      ShiftMaxX(r.cells, 0, -MinY(r.cells));
    }
  }

  /** The corrections `rotate` applies after turning, in this order (board.py:268-304). */
  datatype Stage = LeftWall | RightWall | Ceiling

  function StagesLeft(stage: Stage): nat
  {
    match stage
    case LeftWall => 2
    case RightWall => 1
    case Ceiling => 0
  }

  /** `Block.rotate` (board.py:251-304): rotate, then correct against the left wall, the
      right wall and the top in that order; roll cells and centre back if a correction fails,
      the block reaches past the floor or overlaps a landed cell. Points scored by the top
      correction are not rolled back. A kept rotation is on the board and clear of the
      landed cells. */
  ghost function RotatePiece(p: Piece, rot: Rotation, landed: set<Cell>): (t: Turned)
    requires WellFormed(p)
    ensures WellFormed(t.piece) && t.piece.shape == p.shape
    ensures t.kept ==> InBounds(t.piece.cells) && !Collides(t.piece.cells, landed)
    ensures !t.kept ==> t.piece == p
  {
    var r0 := p.(cells := RotateCells(p.cells, p.center, rot));
    assert WellFormed(r0);
    Correct(p, r0, LeftWall, landed)
  }

  /** The corrections from `stage` on, applied to the turned block r; p is the block
      before turning, which a failed rotation restores. */
  ghost function Correct(p: Piece, r: Piece, stage: Stage, landed: set<Cell>): (t: Turned)
    requires WellFormed(p) && WellFormed(r) && r.shape == p.shape
    requires stage != LeftWall ==> MinX(r.cells) >= 0
    requires stage == Ceiling ==> MaxX(r.cells) < Width
    ensures WellFormed(t.piece) && t.piece.shape == p.shape
    ensures t.kept ==> InBounds(t.piece.cells) && !Collides(t.piece.cells, landed)
    ensures !t.kept ==> t.piece == p
    decreases StagesLeft(stage)
  {
    match stage
    case LeftWall =>
      var r1 := FixLeft(r, landed);
      if MinX(r1.cells) < 0 then Turned(p, false, 0) else Correct(p, r1, RightWall, landed)
    case RightWall =>
      var r2 := FixRight(r, landed);
      if MaxX(r2.cells) >= Width then Turned(p, false, 0) else Correct(p, r2, Ceiling, landed)
    case Ceiling =>
      var down := FixTop(r, landed);
      var r3 := down.piece;
      if MinY(r3.cells) < 0 || MaxY(r3.cells) >= Height || Collides(r3.cells, landed) then
        Turned(p, false, down.points)
      else
        FixTopColumns(r, landed);
        ExtremesInBounds(r3.cells);
        Turned(r3, true, down.points)
  }

  /** `Block.initialize`: shift horizontally so that the block's middle column is the
      board's middle column (board.py:186-194). */
  ghost function Centered(p: Piece): Piece
    requires |p.cells| > 0
  {
    var middle := MinX(p.cells) + (MaxX(p.cells) - MinX(p.cells)) / 2;
    Translate(p, Width / 2 - middle, 0)
  }

  // ---------------------------------------------------------------------------------------
  // Facts about shifts

  lemma ShiftMinX(cs: seq<Cell>, dx: int, dy: int)
    requires |cs| > 0
    ensures MinX(Shift(cs, dx, dy)) == MinX(cs) + dx
  {
    var r := Shift(cs, dx, dy);
    var i :| 0 <= i < |cs| && cs[i].x == MinX(cs);
    var j :| 0 <= j < |r| && r[j].x == MinX(r);
    assert r[i].x == MinX(cs) + dx;
  }

  lemma ShiftMaxX(cs: seq<Cell>, dx: int, dy: int)
    requires |cs| > 0
    ensures MaxX(Shift(cs, dx, dy)) == MaxX(cs) + dx
  {
    var r := Shift(cs, dx, dy);
    var i :| 0 <= i < |cs| && cs[i].x == MaxX(cs);
    var j :| 0 <= j < |r| && r[j].x == MaxX(r);
    assert r[i].x == MaxX(cs) + dx;
  }

  lemma ShiftMinY(cs: seq<Cell>, dx: int, dy: int)
    requires |cs| > 0
    ensures MinY(Shift(cs, dx, dy)) == MinY(cs) + dy
  {
    var r := Shift(cs, dx, dy);
    var i :| 0 <= i < |cs| && cs[i].y == MinY(cs);
    var j :| 0 <= j < |r| && r[j].y == MinY(r);
    assert r[i].y == MinY(cs) + dy;
  }

  lemma ShiftMaxY(cs: seq<Cell>, dx: int, dy: int)
    requires |cs| > 0
    ensures MaxY(Shift(cs, dx, dy)) == MaxY(cs) + dy
  {
    var r := Shift(cs, dx, dy);
    var i :| 0 <= i < |cs| && cs[i].y == MaxY(cs);
    var j :| 0 <= j < |r| && r[j].y == MaxY(r);
    assert r[i].y == MaxY(cs) + dy;
  }

  lemma TranslateExtremes(p: Piece, dx: int, dy: int)
    requires |p.cells| > 0
    ensures var q := Translate(p, dx, dy).cells;
      MinX(q) == MinX(p.cells) + dx && MaxX(q) == MaxX(p.cells) + dx &&
      MinY(q) == MinY(p.cells) + dy && MaxY(q) == MaxY(p.cells) + dy
  {
    ShiftMinX(p.cells, dx, dy);
    ShiftMaxX(p.cells, dx, dy);
    ShiftMinY(p.cells, dx, dy);
    ShiftMaxY(p.cells, dx, dy);
  }

  lemma ExtremesInBounds(cs: seq<Cell>)
    requires |cs| > 0
    ensures InBounds(cs) <==> 0 <= MinX(cs) && MaxX(cs) < Width && 0 <= MinY(cs) && MaxY(cs) < Height
  {
    if InBounds(cs) {
      var a :| 0 <= a < |cs| && cs[a].x == MinX(cs);
      var b :| 0 <= b < |cs| && cs[b].x == MaxX(cs);
      var c :| 0 <= c < |cs| && cs[c].y == MinY(cs);
      var d :| 0 <= d < |cs| && cs[d].y == MaxY(cs);
    }
  }

  lemma StepRightOnBoard(p: Piece, count: int, landed: set<Cell>)
    requires WellFormed(p) && InBounds(p.cells) && count >= 0
    ensures var q := StepRight(p, count, landed); WellFormed(q) && InBounds(q.cells)
  {
    var moved := Shift(p.cells, count, 0);
    if !(MaxX(moved) >= Width || Collides(moved, landed)) {
      ExtremesInBounds(p.cells);
      TranslateExtremes(p, count, 0);
      ExtremesInBounds(moved);
    }
  }

  lemma StepLeftOnBoard(p: Piece, count: int, landed: set<Cell>)
    requires WellFormed(p) && InBounds(p.cells) && count >= 0
    ensures var q := StepLeft(p, count, landed); WellFormed(q) && InBounds(q.cells)
  {
    var moved := Shift(p.cells, -count, 0);
    if !(MinX(moved) < 0 || Collides(moved, landed)) {
      ExtremesInBounds(p.cells);
      TranslateExtremes(p, -count, 0);
      ExtremesInBounds(moved);
    }
  }

  lemma StepDownOnBoard(p: Piece, count: int, landed: set<Cell>)
    requires WellFormed(p) && InBounds(p.cells) && count == 1
    ensures var q := StepDown(p, count, landed).piece; WellFormed(q) && InBounds(q.cells)
  {
    if !Supported(p.cells, landed) {
      var moved := Shift(p.cells, 0, 1);
      ExtremesInBounds(p.cells);
      TranslateExtremes(p, 0, 1);
      var k :| 0 <= k < |p.cells| && p.cells[k].y == MaxY(p.cells);
      assert p.cells[k].y + 1 != Height;
      ExtremesInBounds(moved);
    }
  }

  lemma DropWellFormed(p: Piece, landed: set<Cell>)
    requires WellFormed(p) && MaxY(p.cells) < Height
    ensures WellFormed(DropPiece(p, landed).piece)
    decreases Height - MaxY(p.cells)
  {
    if !Supported(p.cells, landed) {
      ShiftMaxY(p.cells, 0, 1);
      DropWellFormed(Translate(p, 0, 1), landed);
    }
  }
}
