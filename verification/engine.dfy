/**
 * The engine as the source runs it: a `Block` and a `Board` whose methods update their
 * fields in place (board.py:139-657). Each method is proved to leave the objects in the
 * state that the corresponding function of Pieces or Rules computes from the old state.
 */
module Engine {
  import opened Shapes
  import opened Pieces
  import opened Rules
  import opened Adversaries

  /** A mutable Python set of cells. The board's landed cells live in one; a search sandbox
      may hold a second reference to the same object. */
  class CellSet {
    var elems: set<Cell>

    constructor(cs: set<Cell>)
      ensures elems == cs
    {
      elems := cs;
    }
  }

  /** The set comprehension `{(x+dx, y+dy) for (x, y) in cells}` of `move` and
      `initialize` (board.py:192, 216, 226, 242). */
  method ShiftCells(cs: seq<Cell>, dx: int, dy: int) returns (r: seq<Cell>)
    ensures r == Shift(cs, dx, dy)
  {
    r := [];
    for i := 0 to |cs|
      invariant ShiftedBy(cs[..i], r, dx, dy)
    {
      r := r + [Cell(cs[i].x + dx, cs[i].y + dy)];
    }
    assert cs[..|cs|] == cs;
  }

  /** The set comprehension of `rotate` that turns every cell about the centre
      (board.py:262-266). */
  method TurnCells(cs: seq<Cell>, c: Center, rot: Rotation) returns (r: seq<Cell>)
    ensures r == RotateCells(cs, c, rot)
  {
    r := [];
    for i := 0 to |cs|
      invariant TurnedAbout(cs[..i], r, c, rot)
    {
      r := r + [TurnCell(cs[i], c, rot)];
    }
    assert cs[..|cs|] == cs;
  }

  /** `Block` (board.py:139-310): shape and colour are fixed, cells and centre are rebound
      by every move. */
  class Block {
    const shape: Shape
    const color: Color := ShapeColor(shape)
    var cells: seq<Cell>
    var center: Center

    /** The block as a value. */
    function Value(): Piece
      reads this
    {
      Piece(shape, cells, center)
    }

    /** `Block(shape)`: the shape's table cells and centre (board.py:148-152). */
    constructor(s: Shape)
      ensures Value() == NewPiece(s) && color == ShapeColor(s)
    {
      shape := s;
      cells := ShapeCells(s);
      center := ShapeCenter(s);
    }

    /** `left` (board.py:154-160). */
    method Leftmost() returns (r: int)
      requires |cells| > 0
      ensures (forall i :: 0 <= i < |cells| ==> r <= cells[i].x) && exists i :: 0 <= i < |cells| && cells[i].x == r
      ensures r == MinX(cells)
    {
      r := cells[0].x;
      for i := 1 to |cells|
        invariant forall j :: 0 <= j < i ==> r <= cells[j].x
        invariant exists j :: 0 <= j < i && cells[j].x == r
      {
        if cells[i].x < r {
          r := cells[i].x;
        }
      }
      ghost var j :| 0 <= j < |cells| && cells[j].x == MinX(cells);
    }

    /** `right` (board.py:162-168). */
    method Rightmost() returns (r: int)
      requires |cells| > 0
      ensures (forall i :: 0 <= i < |cells| ==> r >= cells[i].x) && exists i :: 0 <= i < |cells| && cells[i].x == r
      ensures r == MaxX(cells)
    {
      r := cells[0].x;
      for i := 1 to |cells|
        invariant forall j :: 0 <= j < i ==> r >= cells[j].x
        invariant exists j :: 0 <= j < i && cells[j].x == r
      {
        if cells[i].x > r {
          r := cells[i].x;
        }
      }
      ghost var j :| 0 <= j < |cells| && cells[j].x == MaxX(cells);
    }

    /** `top` (board.py:170-176). */
    method Topmost() returns (r: int)
      requires |cells| > 0
      ensures (forall i :: 0 <= i < |cells| ==> r <= cells[i].y) && exists i :: 0 <= i < |cells| && cells[i].y == r
      ensures r == MinY(cells)
    {
      r := cells[0].y;
      for i := 1 to |cells|
        invariant forall j :: 0 <= j < i ==> r <= cells[j].y
        invariant exists j :: 0 <= j < i && cells[j].y == r
      {
        if cells[i].y < r {
          r := cells[i].y;
        }
      }
      ghost var j :| 0 <= j < |cells| && cells[j].y == MinY(cells);
    }

    /** `bottom` (board.py:178-184). */
    method Bottommost() returns (r: int)
      requires |cells| > 0
      ensures (forall i :: 0 <= i < |cells| ==> r >= cells[i].y) && exists i :: 0 <= i < |cells| && cells[i].y == r
      ensures r == MaxY(cells)
    {
      r := cells[0].y;
      for i := 1 to |cells|
        invariant forall j :: 0 <= j < i ==> r >= cells[j].y
        invariant exists j :: 0 <= j < i && cells[j].y == r
      {
        if cells[i].y > r {
          r := cells[i].y;
        }
      }
      ghost var j :| 0 <= j < |cells| && cells[j].y == MaxY(cells);
    }

    /** `initialize`: centre the block on the 10-wide board (board.py:186-194). */
    method Initialize()
      requires |cells| > 0
      modifies this
      ensures Value() == Centered(old(Value()))
    {
      var left := Leftmost();
      var right := Rightmost();
      var middle := left + (right - left) / 2;
      var shift := Width / 2 - middle;
      cells := ShiftCells(cells, shift, 0);
      center := center.(x := center.x + shift);
    }

    /** `move(direction, board, count)` (board.py:208-249): the block ends where MovePiece
        puts it, the board's score rises by the points it reports, and the result says
        whether the block landed. */
    method Move(d: Direction, board: Board, count: int) returns (landed: bool)
      requires |cells| > 0 && (d == Drop ==> MaxY(cells) < Height)
      modifies this, board`score
      ensures Value() == MovePiece(old(Value()), d, count, board.cells.elems).piece
      ensures landed == MovePiece(old(Value()), d, count, board.cells.elems).landed
      ensures board.score == old(board.score) + MovePiece(old(Value()), d, count, board.cells.elems).points
      decreases if d == Drop then 1 else 0
    {
      var oldCells := cells;
      match d
      case Right =>
        cells := ShiftCells(cells, count, 0);
        var right := Rightmost();
        if right >= Width || Collides(cells, board.cells.elems) {
          cells := oldCells;
        } else {
          center := center.(x := center.x + count);
        }
        landed := false;
      case Left =>
        cells := ShiftCells(cells, -count, 0);
        var left := Leftmost();
        if left < 0 || Collides(cells, board.cells.elems) {
          cells := oldCells;
        } else {
          center := center.(x := center.x - count);
        }
        landed := false;
      case Down =>
        if Supported(cells, board.cells.elems) {
          return true;
        }
        cells := ShiftCells(cells, 0, count);
        board.score := board.score + count;
        center := center.(y := center.y + count);
        landed := false;
      case Drop =>
        ghost var landedCells := board.cells.elems;
        ghost var target := DropPiece(Value(), landedCells);
        ghost var start := board.score;
        while !Supported(cells, board.cells.elems)
          invariant |cells| > 0 && MaxY(cells) < Height
          invariant board.cells.elems == landedCells
          invariant DropPiece(Value(), landedCells).piece == target.piece
          invariant board.score + DropPiece(Value(), landedCells).points == start + target.points
          decreases Height - MaxY(cells)
        {
          ShiftMaxY(cells, 0, 1);
          var _ := Move(Down, board, 1);
        }
        landed := true;
    }

    /** `rotate(rotation, board)` (board.py:251-304): turn about the centre, correct against
        the left wall, the right wall and the top through `move`, and restore cells and
        centre when a correction fails, the block reaches past the floor or overlaps a
        landed cell. The score keeps what the top correction scored. */
    method Rotate(rot: Rotation, board: Board)
      requires WellFormed(Value())
      modifies this, board`score
      ensures var t := RotatePiece(old(Value()), rot, board.cells.elems);
        Value() == t.piece && board.score == old(board.score) + t.points
    {
      ghost var p := Value();
      var oldCells, oldCenter := cells, center;
      cells := TurnCells(cells, center, rot);
      assert Value() == p.(cells := RotateCells(p.cells, p.center, rot));
      RotateFromLeft(oldCells, oldCenter, board);
    }

    /** The left-wall correction of `rotate` and what follows it (board.py:269-304). */
    method RotateFromLeft(oldCells: seq<Cell>, oldCenter: Center, board: Board)
      requires WellFormed(Piece(shape, oldCells, oldCenter)) && WellFormed(Value())
      modifies this, board`score
      ensures var t := Correct(Piece(shape, oldCells, oldCenter), old(Value()), LeftWall, board.cells.elems);
        Value() == t.piece && board.score == old(board.score) + t.points
    {
      ghost var r0, landedCells := Value(), board.cells.elems;
      var left := Leftmost();
      ghost var left0 := left;
      var failed := false;
      if left < 0 {
        var _ := Move(Right, board, -left);
        assert Value() == StepRight(r0, -left, landedCells);
        left := Leftmost();
        failed := left < 0;
      }
      FixLeftBy(r0, landedCells, left0);
      assert Value() == FixLeft(r0, landedCells) && failed == (MinX(cells) < 0);
      if failed {
        cells, center := oldCells, oldCenter;
      } else {
        RotateFromRight(oldCells, oldCenter, board);
      }
    }

    /** The right-wall correction of `rotate` and what follows it (board.py:277-304). */
    method RotateFromRight(oldCells: seq<Cell>, oldCenter: Center, board: Board)
      requires WellFormed(Piece(shape, oldCells, oldCenter)) && WellFormed(Value())
      requires MinX(cells) >= 0
      modifies this, board`score
      ensures var t := Correct(Piece(shape, oldCells, oldCenter), old(Value()), RightWall, board.cells.elems);
        Value() == t.piece && board.score == old(board.score) + t.points
    {
      ghost var r1, landedCells := Value(), board.cells.elems;
      var right := Rightmost();
      FixRightBy(r1, landedCells, right);
      var failed := false;
      if right >= Width {
        var _ := Move(Left, board, right - Width + 1);
        assert Value() == StepLeft(r1, right - Width + 1, landedCells);
        right := Rightmost();
        failed := right >= Width;
      }
      assert Value() == FixRight(r1, landedCells) && failed == (MaxX(cells) >= Width);
      if failed {
        cells, center := oldCells, oldCenter;
      } else {
        RotateFromTop(oldCells, oldCenter, board);
      }
    }

    /** The top correction of `rotate` and the floor and overlap tests (board.py:285-304). */
    method RotateFromTop(oldCells: seq<Cell>, oldCenter: Center, board: Board)
      requires WellFormed(Piece(shape, oldCells, oldCenter)) && WellFormed(Value())
      requires MinX(cells) >= 0 && MaxX(cells) < Width
      modifies this, board`score
      ensures var t := Correct(Piece(shape, oldCells, oldCenter), old(Value()), Ceiling, board.cells.elems);
        Value() == t.piece && board.score == old(board.score) + t.points
    {
      ghost var r2, landedCells, start := Value(), board.cells.elems, board.score;
      var top := Topmost();
      FixTopBy(r2, landedCells, top);
      var failed := false;
      if top < 0 {
        var _ := Move(Down, board, -top);
        assert Value() == StepDown(r2, -top, landedCells).piece;
        assert board.score == start + StepDown(r2, -top, landedCells).points;
        top := Topmost();
        failed := top < 0;
      }
      assert Value() == FixTop(r2, landedCells).piece && failed == (MinY(cells) < 0);
      assert board.score == start + FixTop(r2, landedCells).points;
      if !failed {
        var bottom := Bottommost();
        failed := bottom >= Height || Collides(cells, board.cells.elems);
      }
      if failed {
        cells, center := oldCells, oldCenter;
      }
    }

    /** `clone`: a new block with the same shape, cells and centre (board.py:306-310). */
    method Clone() returns (b: Block)
      ensures fresh(b) && b.Value() == Value() && b.color == color
    {
      b := new Block(shape);
      b.cells := cells;
      b.center := center;
    }
  }

  /** `Board` (board.py:313-657), fixed at 10 by 24. */
  class Board {
    const width: int
    const height: int
    var score: int
    var cells: CellSet
    var cellcolor: map<Cell, Color>
    var falling: Block?
    var next: Block?
    var bombsRemaining: int
    var discardsRemaining: int

    /** The board as a value. */
    function Model(): State
      reads this, cells, falling, next
    {
      State(cells.elems, cellcolor,
        if falling == null then None else Some(falling.Value()),
        if next == null then None else Some(next.Value()),
        score, bombsRemaining, discardsRemaining)
    }

    /** The board's objects are distinct and its state keeps the engine invariant. */
    ghost predicate Valid()
      reads this, cells, falling, next
    {
      width == Width && height == Height &&
      (falling != null && next != null ==> falling != next) &&
      Consistent(Model())
    }

    /** The board is in the state `st` says and replied `r`; the set object it held before
        holds `st.held`, and it is still the board's own set unless the step rebound it. */
    ghost predicate Did(st: Step, r: Reply, was: CellSet)
      reads this, cells, falling, next, was
    {
      st == Step(Model(), r, was.elems, cells != was)
    }

    /** `Board(width, height, score, discards_remaining, bombs_remaining)`
        (board.py:332-341). */
    constructor(w: int, h: int, initialScore: int, discards: int, bombs: int)
      requires w == Width && h == Height
      ensures Valid() && fresh(this) && fresh(cells)
      ensures Model() == State({}, map[], None, None, initialScore, bombs, discards)
    {
      width, height := w, h;
      score := initialScore;
      cells := new CellSet({});
      cellcolor := map[];
      falling, next := null, null;
      bombsRemaining, discardsRemaining := bombs, discards;
    }

    /** `line_full` (board.py:354-359). */
    method LineFull(line: int) returns (full: bool)
      requires width == Width
      ensures full == Rules.LineFull(cells.elems, line)
    {
      for x := 0 to width
        invariant forall x' :: 0 <= x' < x ==> Cell(x', line) in cells.elems
      {
        if Cell(x, line) !in cells.elems {
          return false;
        }
      }
      return true;
    }

    /** `remove_line` (board.py:361-374): both comprehensions build new objects, so the
        board stops sharing its old cell set. */
    method RemoveLine(line: int)
      modifies this`cells, this`cellcolor
      ensures fresh(cells) && cells.elems == Rules.RemoveLine(old(cells.elems), line)
      ensures cellcolor == RemoveLineColors(old(cellcolor), line)
    {
      cellcolor := RemoveLineColors(cellcolor, line);
      cells := new CellSet(Rules.RemoveLine(cells.elems, line));
    }

    /** `clean` (board.py:376-392): from row 23 up to row 1, remove the row for as long as
        it is full, then look up the bonus for the number of rows removed. `None` stands for
        the IndexError that more than four removed rows raise. */
    method Clean() returns (bonus: Option<int>)
      requires width == Width && height == Height
      modifies this`cells, this`cellcolor
      ensures var cl := Rules.Clean(old(cells.elems), old(cellcolor));
        cells.elems == cl.cells && cellcolor == cl.colors && bonus == Bonus(cl.removed)
      ensures Rules.Clean(old(cells.elems), old(cellcolor)).removed == 0 ==> cells == old(cells)
      ensures Rules.Clean(old(cells.elems), old(cellcolor)).removed > 0 ==> fresh(cells)
    {
      ghost var target := Rules.Clean(cells.elems, cellcolor);
      var scores := [0, 25, 100, 400, 1600];
      var removed := 0;
      var line := height - 1;
      while line > 0
        invariant line >= 0
        invariant CleanFrom(cells.elems, cellcolor, line, removed) == target
        invariant removed == 0 ==> cells == old(cells)
        invariant removed > 0 ==> fresh(cells)
      {
        var full := LineFull(line);
        while full
          invariant CleanFrom(cells.elems, cellcolor, line, removed) == target
          invariant full == Rules.LineFull(cells.elems, line)
          invariant removed == 0 ==> cells == old(cells)
          invariant removed > 0 ==> fresh(cells)
          decreases |cells.elems|
        {
          RemoveLineShrinks(cells.elems, line);
          RemoveLine(line);
          removed := removed + 1;
          full := LineFull(line);
        }
        line := line - 1;
      }
      if removed < |scores| {
        bonus := Some(scores[removed]);
      } else {
        bonus := None;
      }
    }

    /** `explode(pos)` for a bomb at `bomb` (board.py:394-421): drop the cells around it,
        then in each of the three columns move the cells at or above the bomb's row down
        onto the first occupied cell below it, one by one from the bottom up. */
    method Explode(bomb: Cell)
      modifies this`cells, this`cellcolor
      ensures fresh(cells) && cellcolor == Rules.Explode(old(cellcolor), bomb)
      ensures cells.elems == cellcolor.Keys
    {
      var bombX, bombY := bomb.x, bomb.y;
      cellcolor := Blast(cellcolor, bombX, bombY);
      cells := new CellSet(cellcolor.Keys);
      ghost var target := Rules.Explode(old(cellcolor), bomb);
      for xi := bombX - 1 to bombX + 2
        invariant fresh(cells) && cells.elems == cellcolor.Keys
        invariant Settle(cellcolor, xi, bombX + 2, bombY) == target
      {
        SettleColumn(xi, bombY);
      }
    }

    /** One column of the gravity pass of `explode` (board.py:408-421): find the first
        occupied row at or below the bomb, then move the cells above it down onto it. */
    method SettleColumn(x: int, py: int)
      requires cells.elems == cellcolor.Keys
      modifies cells, this`cellcolor
      ensures cells.elems == cellcolor.Keys
      ensures cellcolor == Restack(old(cellcolor), x, py, FirstBelow(old(cells.elems), x, py) - 1)
    {
      var lowest := Height;
      var yi := py;
      while yi < Height
        invariant lowest == Height
        invariant FirstBelow(cells.elems, x, py) == FirstBelow(cells.elems, x, yi)
        decreases Height - yi
      {
        if Cell(x, yi) in cells.elems {
          lowest := yi;
          break;
        }
        yi := yi + 1;
      }
      lowest := lowest - 1;
      ghost var start := lowest;
      yi := py;
      while yi >= 0
        invariant cells.elems == cellcolor.Keys
        invariant Restack(cellcolor, x, yi, lowest) == Restack(old(cellcolor), x, py, start)
        decreases yi + 1
      {
        if Cell(x, yi) in cells.elems {
          var c := cellcolor[Cell(x, yi)];
          cells.elems := cells.elems - {Cell(x, yi)};
          cellcolor := cellcolor - {Cell(x, yi)};
          cells.elems := cells.elems + {Cell(x, lowest)};
          cellcolor := cellcolor[Cell(x, lowest) := c];
          lowest := lowest - 1;
        }
        yi := yi - 1;
      }
    }

    /** The non-bomb branch of `land_block` (board.py:540-543): the falling block's cells
        join the landed set in place (`|=`), and each gets the block's colour. */
    method Merge()
      requires falling != null
      modifies cells, this`cellcolor
      ensures cells.elems == MergeCells(old(cells.elems), falling.Value())
      ensures cellcolor == MergeColors(old(cellcolor), falling.Value())
    {
      cells.elems := cells.elems + set c | c in falling.cells;
      ghost var colors := cellcolor;
      for i := 0 to |falling.cells|
        invariant cells.elems == MergeCells(old(cells.elems), falling.Value())
        invariant cellcolor == Paint(colors, falling.cells[..i], falling.color)
      {
        PaintStep(colors, falling.cells[..i], falling.cells[i], falling.color);
        assert falling.cells[..i + 1] == falling.cells[..i] + [falling.cells[i]];
        cellcolor := cellcolor[falling.cells[i] := falling.color];
      }
      assert falling.cells[..|falling.cells|] == falling.cells;
    }

    /** `place_next_block` (board.py:441-449): the next block falls, centred. */
    method PlaceNextBlock()
      requires next != null ==> |next.cells| > 0
      requires falling != null ==> falling != next
      modifies this`falling, this`next, next
      ensures falling == old(next) && next == null
      ensures Model() == PlaceNext(old(Model()))
    {
      falling := next;
      if falling != null {
        falling.Initialize();
      }
      next := null;
    }

    /** The first half of `land_block` (board.py:536-543): a bomb explodes, any other block
        joins the landed cells. */
    method Absorb()
      requires falling != null && WellFormed(falling.Value())
      modifies this`cells, cells, this`cellcolor
      ensures var p := falling.Value();
        cellcolor == if p.shape == B then Rules.Explode(old(cellcolor), p.cells[0]) else MergeColors(old(cellcolor), p)
      ensures if falling.shape == B then fresh(cells) && cells.elems == cellcolor.Keys && old(cells).elems == old(cells.elems)
        else cells == old(cells) && cells.elems == MergeCells(old(cells.elems), falling.Value())
    {
      if falling.shape == B {
        Explode(falling.cells[0]);
      } else {
        Merge();
      }
    }

    /** `land_block` (board.py:535-549): explode a bomb or merge the block, drop the
        falling block, clear rows, add the bonus and promote the next block. The reply is
        `Raised(ScoreTableFault)` when the bonus lookup fails; the old cell set object then
        holds what `held` says, and it is still the board's own unless the step rebinds. */
    method LandBlock() returns (r: Reply)
      requires width == Width && height == Height && falling != null && falling != next
      requires Settled(Model()) && WellFormed(falling.Value())
      modifies this, cells, next
      ensures Did(Land(old(Model())), r, old(cells)) && Valid()
      ensures cells == old(cells) || fresh(cells)
      ensures falling == null || falling == old(falling) || falling == old(next)
      ensures next == null || next == old(next) || fresh(next)
    {
      LandConsistent(Model());
      Absorb();
      falling := null;
      var bonus := Clean();
      if bonus.Some? {
        score := score + bonus.value;
        PlaceNextBlock();
        r := Done(true);
      } else {
        r := Raised(ScoreTableFault);
      }
    }

    /** The implicit Down step of `move`, `rotate` and `skip` (board.py:566-571, 586-591,
        634-637): move the falling block down one row and land it when it is supported. */
    method Fall(ghost s: State) returns (r: Reply)
      requires Valid() && falling != null && Model() == s
      modifies this, cells, falling, next
      ensures Did(ImplicitDown(s), r, old(cells)) && Valid()
      ensures cells == old(cells) || fresh(cells)
      ensures falling == null || falling == old(falling) || falling == old(next)
      ensures next == null || next == old(next) || fresh(next)
    {
      var landed := falling.Move(Down, this, 1);
      if landed {
        r := LandBlock();
      } else {
        r := Done(false);
      }
      ImplicitDownConsistent(s);
    }

    /** The move that `move` makes before it lands or takes its implicit Down step. */
    method MoveFalling(d: Direction) returns (landed: bool)
      requires Valid() && falling != null
      modifies falling, this`score
      ensures var m := MovePiece(old(Model()).falling.value, d, 1, old(cells.elems));
        landed == m.landed && Model() == old(Model()).(falling := Some(m.piece), score := old(score) + m.points)
      ensures if landed then Ready(Model(), Landing) else Valid()
      ensures landed ==> MoveStep(old(Model()), d) == Land(Model())
      ensures !landed ==> MoveStep(old(Model()), d) == ImplicitDown(Model())
    {
      ghost var s := Model();
      ExtremesInBounds(falling.cells);
      landed := falling.Move(d, this, 1);
      MoveSplits(s, d, Model());
    }

    /** `move(direction)` (board.py:551-571). */
    method Move(d: Direction) returns (r: Reply)
      requires Valid()
      modifies this, cells, falling, next
      ensures Did(MoveStep(old(Model()), d), r, old(cells)) && Valid()
      ensures cells == old(cells) || fresh(cells)
      ensures falling == null || falling == old(falling) || falling == old(next)
      ensures next == null || next == old(next) || fresh(next)
    {
      if falling == null {
        return Raised(NoBlockFault);
      }
      r := MoveBlock(d);
    }

    /** `move(direction)` with a block falling: the move, then the landing or the implicit
        Down step. */
    method MoveBlock(d: Direction) returns (r: Reply)
      requires Valid() && falling != null
      modifies this, cells, falling, next
      ensures Did(MoveStep(old(Model()), d), r, old(cells)) && Valid()
      ensures cells == old(cells) || fresh(cells)
      ensures falling == null || falling == old(falling) || falling == old(next)
      ensures next == null || next == old(next) || fresh(next)
    {
      var landed := MoveFalling(d);
      if landed {
        r := LandBlock();
      } else {
        r := Fall(Model());
      }
    }

    /** The turn that `rotate` makes before its implicit Down step. */
    method TurnFalling(rot: Rotation)
      requires Valid() && falling != null
      modifies falling, this`score
      ensures var t := RotatePiece(old(Model()).falling.value, rot, old(cells.elems));
        Model() == old(Model()).(falling := Some(t.piece), score := old(score) + t.points) && Valid()
    {
      falling.Rotate(rot, this);
    }

    /** `rotate(rotation)` (board.py:573-591). */
    method Rotate(rot: Rotation) returns (r: Reply)
      requires Valid()
      modifies this, cells, falling, next
      ensures Did(RotateStep(old(Model()), rot), r, old(cells)) && Valid()
      ensures cells == old(cells) || fresh(cells)
      ensures falling == null || falling == old(falling) || falling == old(next)
      ensures next == null || next == old(next) || fresh(next)
    {
      if falling == null {
        return Raised(NoBlockFault);
      }
      r := RotateBlock(rot);
    }

    /** `rotate(rotation)` with a block falling: the turn, then the implicit Down step. */
    method RotateBlock(rot: Rotation) returns (r: Reply)
      requires Valid() && falling != null
      modifies this, cells, falling, next
      ensures Did(RotateStep(old(Model()), rot), r, old(cells)) && Valid()
      ensures cells == old(cells) || fresh(cells)
      ensures falling == null || falling == old(falling) || falling == old(next)
      ensures next == null || next == old(next) || fresh(next)
    {
      ghost var s := Model();
      RotateThrough(s, rot);
      TurnFalling(rot);
      r := Fall(Model());
    }

    /** `skip` (board.py:625-637). */
    method Skip() returns (r: Reply)
      requires Valid()
      modifies this, cells, falling, next
      ensures Did(SkipStep(old(Model())), r, old(cells)) && Valid()
      ensures cells == old(cells) || fresh(cells)
      ensures falling == null || falling == old(falling) || falling == old(next)
      ensures next == null || next == old(next) || fresh(next)
    {
      if falling == null {
        return Raised(NoBlockFault);
      }
      r := Fall(Model());
    }

    /** `bomb` (board.py:593-604): arm the next block, then skip. */
    method Bomb() returns (r: Reply)
      requires Valid()
      modifies this, cells, falling, next
      ensures Did(BombStep(old(Model())), r, old(cells)) && Valid()
      ensures cells == old(cells) || fresh(cells)
      ensures falling == null || falling == old(falling) || falling == old(next) || fresh(falling)
      ensures next == null || next == old(next) || fresh(next)
    {
      Arm();
      r := Skip();
    }

    /** The first half of `bomb` (board.py:599-603): with a charge left and a next block
        that is not a bomb, the next block becomes a new bomb. */
    method Arm()
      requires Valid()
      modifies this`next, this`bombsRemaining
      ensures var s := old(Model());
        Model() == if s.bombs > 0 && s.next.Some? && s.next.value.shape != B
          then s.(next := Some(NewPiece(B)), bombs := s.bombs - 1) else s
      ensures Valid() && (next == old(next) || fresh(next))
    {
      if bombsRemaining > 0 && next != null && next.shape != B {
        next := new Block(B);
        bombsRemaining := bombsRemaining - 1;
      }
    }

    /** `discard` (board.py:606-623). */
    method Discard() returns (r: Reply)
      requires Valid()
      modifies this, next
      ensures Did(DiscardStep(old(Model())), r, old(cells)) && Valid()
      ensures cells == old(cells) || fresh(cells)
      ensures falling == null || falling == old(falling) || falling == old(next)
      ensures next == null || next == old(next) || fresh(next)
    {
      if falling == null {
        return Raised(NoBlockFault);
      }
      if discardsRemaining > 0 {
        discardsRemaining := discardsRemaining - 1;
        PlaceNextBlock();
        r := Done(true);
      } else {
        r := Done(false);
      }
      DiscardConsistent(old(Model()));
    }

    /** The dispatch of `run_player` (board.py:493-503): each action goes to the board
        method of its kind; `Skip` stands for the action None. */
    method DoAction(a: Action) returns (r: Reply)
      requires Valid()
      modifies this, cells, falling, next
      ensures Did(Act(old(Model()), a), r, old(cells)) && Valid()
      ensures cells == old(cells) || fresh(cells)
      ensures falling == null || falling == old(falling) || falling == old(next) || fresh(falling)
      ensures next == null || next == old(next) || fresh(next)
    {
      match a
      case Skip => r := Skip();
      case Bomb => r := Bomb();
      case Discard => r := Discard();
      case Go(d) => r := Move(d);
      case Turn(rot) => r := Rotate(rot);
    }

    /** `alive` (board.py:431-439): no block is falling, or it overlaps no landed cell. */
    method Alive() returns (alive: bool)
      requires Valid()
      ensures alive == Rules.Alive(Model())
    {
      if falling == null {
        return true;
      }
      alive := true;
      for i := 0 to |falling.cells|
        invariant alive == !exists j :: 0 <= j < i && falling.cells[j] in cells.elems
      {
        if falling.cells[i] in cells.elems {
          alive := false;
        }
      }
    }

    /** `run_adversary` (board.py:451-459): the adversary's shape becomes the next block.
        The adversary's BlockLimitException is the result None, and the board is then
        untouched. */
    method RunAdversary(adversary: RandomAdversary, draw: nat) returns (r: Option<Shape>)
      requires Valid() && draw < |Tetrominoes|
      modifies this`next, adversary
      ensures match Choose(old(adversary.blocks), draw)
        case LimitReached => r == None && adversary.blocks == old(adversary.blocks) && Model() == old(Model())
        case Chosen(shape, rest) =>
          r == Some(shape) && adversary.blocks == rest && fresh(next) &&
          Model() == old(Model()).(next := Some(NewPiece(shape)))
      ensures Valid() && (next == old(next) || fresh(next))
    {
      r := adversary.ChooseBlock(draw);
      if r.Some? {
        next := new Block(r.value);
      }
    }

    /** `clone` (board.py:639-657): a new board, a new cell set, a copy of the colours and
        copies of both blocks. */
    method Clone() returns (b: Board)
      requires Valid()
      ensures fresh(b) && fresh(b.cells) && (b.falling == null || fresh(b.falling)) && (b.next == null || fresh(b.next))
      ensures b.Valid() && b.Model() == Model()
    {
      var f: Block? := null;
      if falling != null {
        f := falling.Clone();
      }
      var n: Block? := null;
      if next != null {
        n := next.Clone();
      }
      b := new Board(width, height, score, discardsRemaining, bombsRemaining);
      b.cells := new CellSet(cells.elems);
      b.cellcolor := cellcolor;
      b.falling, b.next := f, n;
    }
  }
}
