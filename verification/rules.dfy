/**
 * The board as a value (board.py:313-657): landed cells and their colours, the falling and
 * the next block, the score and the two charge counters, with what each action does to them.
 * Engine.Board carries out the same steps in place; its methods are proved to agree with
 * the functions here.
 */
module Rules {
  import opened Shapes
  import opened Pieces

  datatype State = State(
    cells: set<Cell>,
    colors: map<Cell, Color>,
    falling: Option<Piece>,
    next: Option<Piece>,
    score: int,
    bombs: int,
    discards: int)

  /** The exceptions an action can raise: NoBlockException (exceptions.py:8-10) and the
      IndexError of `scores[removed]` when one landing clears more than four rows. */
  datatype Fault = NoBlockFault | ScoreTableFault

  /** What an action returns: whether the falling block landed, or the exception raised. */
  datatype Reply = Done(landed: bool) | Raised(fault: Fault)

  /** The result of an action: the new state and the reply. `held` is what the set object
      that held the landed cells before the action holds afterwards, and `rebound` says
      whether the board stopped using that object (remove_line and explode build a new set,
      while the landing merge `|=` grows the old one in place). */
  datatype Step = Step(state: State, reply: Reply, held: set<Cell>, rebound: bool)

  /** What row clearing leaves: cells, colours and the number of rows removed. */
  datatype Cleared = Cleared(cells: set<Cell>, colors: map<Cell, Color>, removed: nat)

  /** The invariant the engine keeps: `cells` is the key set of `cellcolor`, the falling
      block is a well-formed block on the board, and the next block is a fresh block. */
  predicate Consistent(s: State)
  {
    Settled(s) &&
    (s.falling.Some? ==> WellFormed(s.falling.value) && InBounds(s.falling.value.cells))
  }

  /** The part of the invariant that does not concern the falling block. */
  predicate Settled(s: State)
  {
    s.cells == s.colors.Keys &&
    (s.next.Some? ==> s.next.value == NewPiece(s.next.value.shape))
  }

  function Abs(n: int): nat
  {
    if n < 0 then -n else n
  }

  // ---------------------------------------------------------------------------------------
  // Row clearing (board.py:354-392)

  /** `line_full` (board.py:354-359). */
  predicate LineFull(cells: set<Cell>, line: int)
  {
    forall x :: 0 <= x < Width ==> Cell(x, line) in cells
  }

  /** Where a surviving cell goes when `line` is removed: rows below stay, rows above
      come down one. */
  function Lowered(c: Cell, line: int): Cell
  {
    if c.y > line then c else Cell(c.x, c.y + 1)
  }

  /** `remove_line` on the cell set (board.py:371-374). */
  function RemoveLine(cells: set<Cell>, line: int): set<Cell>
  {
    set c | c in cells && c.y != line :: Lowered(c, line)
  }

  /** `remove_line` on the colour map (board.py:366-369). */
  function RemoveLineColors(colors: map<Cell, Color>, line: int): map<Cell, Color>
  {
    map c | c in colors && c.y != line :: Lowered(c, line) := colors[c]
  }

  /** The loops of `clean` from row `line` upward, `removed` rows already removed
      (board.py:385-390). Row 0 is never examined. */
  function CleanFrom(cells: set<Cell>, colors: map<Cell, Color>, line: int, removed: nat): Cleared
    decreases line, |cells|
  {
    if line <= 0 then Cleared(cells, colors, removed)
    else if LineFull(cells, line) then
      RemoveLineShrinks(cells, line);
      CleanFrom(RemoveLine(cells, line), RemoveLineColors(colors, line), line, removed + 1)
    else CleanFrom(cells, colors, line - 1, removed)
  }

  function Clean(cells: set<Cell>, colors: map<Cell, Color>): Cleared
  {
    CleanFrom(cells, colors, Height - 1, 0)
  }

  /** `scores[removed]`; more than four removed rows index past the table. */
  function Bonus(removed: nat): Option<int>
  {
    if removed < 5 then Some([0, 25, 100, 400, 1600][removed]) else None
  }

  // ---------------------------------------------------------------------------------------
  // The bomb (board.py:394-421)

  /** The landed cells that survive a bomb at (px, py): those at Chebyshev distance more than
      one (board.py:398-400). */
  function Blast(colors: map<Cell, Color>, px: int, py: int): map<Cell, Color>
  {
    map c | c in colors && (Abs(px - c.x) > 1 || Abs(py - c.y) > 1) :: colors[c]
  }

  /** The first occupied row at or below y in column x, or 24 when there is none
      (board.py:408-412). */
  function FirstBelow(cells: set<Cell>, x: int, y: int): (r: int)
    decreases Height - y
  {
    if y >= Height then Height
    else if Cell(x, y) in cells then y
    else FirstBelow(cells, x, y + 1)
  }

  /** The downward pass over rows y, y-1, ..., 0 of column x: each occupied cell moves, with
      its colour, to row `lowest`, which then rises by one (board.py:414-421). */
  function Restack(colors: map<Cell, Color>, x: int, y: int, lowest: int): map<Cell, Color>
    decreases y + 1
  {
    if y < 0 then colors
    else if Cell(x, y) in colors then
      Restack((colors - {Cell(x, y)})[Cell(x, lowest) := colors[Cell(x, y)]], x, y - 1, lowest - 1)
    else Restack(colors, x, y - 1, lowest)
  }

  /** The per-column gravity over columns x .. xEnd-1 (board.py:407-421). */
  function Settle(colors: map<Cell, Color>, x: int, xEnd: int, py: int): map<Cell, Color>
    decreases xEnd - x
  {
    if x >= xEnd then colors
    else Settle(Restack(colors, x, py, FirstBelow(colors.Keys, x, py) - 1), x + 1, xEnd, py)
  }

  /** `explode`: the blast, then gravity in the three columns around the bomb. */
  function Explode(colors: map<Cell, Color>, bomb: Cell): map<Cell, Color>
  {
    Settle(Blast(colors, bomb.x, bomb.y), bomb.x - 1, bomb.x + 2, bomb.y)
  }

  // ---------------------------------------------------------------------------------------
  // Landing and promotion (board.py:441-449, 535-549)

  /** `place_next_block`: the next block becomes the falling one, centred. */
  ghost function PlaceNext(s: State): State
    requires s.next.Some? ==> |s.next.value.cells| > 0
  {
    s.(falling := if s.next.Some? then Some(Centered(s.next.value)) else None, next := None)
  }

  /** The non-bomb merge: the block's cells join the landed cells (board.py:541). */
  function MergeCells(cells: set<Cell>, p: Piece): set<Cell>
  {
    cells + set c | c in p.cells
  }

  /** The colour map after `cellcolor[pos] = col` for every cell of `cs`. */
  function Paint(colors: map<Cell, Color>, cs: seq<Cell>, col: Color): map<Cell, Color>
  {
    map c | c in colors.Keys + (set c | c in cs) :: if c in cs then col else colors[c]
  }

  /** Each cell of the block gets the block's colour (board.py:542-543). */
  function MergeColors(colors: map<Cell, Color>, p: Piece): map<Cell, Color>
  {
    Paint(colors, p.cells, ShapeColor(p.shape))
  }

  /** A step in which the falling block did not land: the cell set is untouched. */
  function Stay(s: State, landed: set<Cell>, reply: Reply): Step
  {
    Step(s, reply, landed, false)
  }

  /** The two steps every action may end with: `land_block`, and the implicit Down step that
      follows a move, a rotation or a skip. */
  datatype Op = Landing | Falling

  /** What a step needs of the state: a well-formed falling block to land, and the engine
      invariant with a falling block to move down. */
  predicate Ready(s: State, op: Op)
  {
    match op
    case Landing => Settled(s) && s.falling.Some? && WellFormed(s.falling.value)
    case Falling => Consistent(s) && s.falling.Some?
  }

  /** What each step does to the board (board.py:535-549 and the Down branch of move). */
  ghost function Perform(s: State, op: Op): Step
    requires Ready(s, op)
    decreases op.Falling?
  {
    match op
    case Landing =>
      // Explode or merge, clear rows, pay the bonus and promote the next block. When the
      // bonus table is overrun the IndexError leaves the rows cleared, no falling block,
      // and the score and the next block untouched.
      var p := s.falling.value;
      var colors := if p.shape == B then Explode(s.colors, p.cells[0]) else MergeColors(s.colors, p);
      var cells := if p.shape == B then colors.Keys else MergeCells(s.cells, p);
      var held := if p.shape == B then s.cells else cells;
      var cl := Clean(cells, colors);
      var cleared := s.(cells := cl.cells, colors := cl.colors, falling := None);
      var rebound := p.shape == B || cl.removed > 0;
      (match Bonus(cl.removed)
       case None => Step(cleared, Raised(ScoreTableFault), held, rebound)
       case Some(bonus) => Step(PlaceNext(cleared.(score := s.score + bonus)), Done(true), held, rebound))
    case Falling =>
      // One row down, or land when supported.
      var m := StepDown(s.falling.value, 1, s.cells);
      var s1 := s.(falling := Some(m.piece), score := s.score + m.points);
      if m.landed then Perform(s1, Landing) else Stay(s1, s.cells, Done(false))
  }

  /** `land_block` (board.py:535-549). */
  ghost function Land(s: State): Step
    requires Ready(s, Landing)
  {
    Perform(s, Landing)
  }

  /** The implicit Down step (board.py:566-571, 586-591, 634-637). */
  ghost function ImplicitDown(s: State): Step
    requires Ready(s, Falling)
  {
    Perform(s, Falling)
  }

  /** `move(direction)` (board.py:551-571): land if the move lands, otherwise apply the
      implicit Down step. */
  ghost function MoveStep(s: State, d: Direction): Step
    requires Consistent(s)
  {
    if s.falling.None? then Stay(s, s.cells, Raised(NoBlockFault))
    else
      var m := MovePiece(s.falling.value, d, 1, s.cells);
      var s1 := s.(falling := Some(m.piece), score := s.score + m.points);
      if m.landed then
        MoveLandsInBounds(s, d);
        Land(s1)
      else
        MoveStaysInBounds(s, d);
        ImplicitDown(s1)
  }

  /** `rotate(rotation)` (board.py:573-591): turn, then the implicit Down step. */
  ghost function RotateStep(s: State, rot: Rotation): Step
    requires Consistent(s)
  {
    if s.falling.None? then Stay(s, s.cells, Raised(NoBlockFault))
    else
      var t := RotatePiece(s.falling.value, rot, s.cells);
      ImplicitDown(s.(falling := Some(t.piece), score := s.score + t.points))
  }

  /** `skip` (board.py:625-637): the implicit Down step alone. */
  ghost function SkipStep(s: State): Step
    requires Consistent(s)
  {
    if s.falling.None? then Stay(s, s.cells, Raised(NoBlockFault))
    else ImplicitDown(s)
  }

  /** `bomb` (board.py:593-604): with a charge left and a next block that is not a bomb, the
      next block becomes a bomb; then it behaves as `skip`, whether or not a block is falling. */
  ghost function BombStep(s: State): Step
    requires Consistent(s)
  {
    var armed := s.bombs > 0 && s.next.Some? && s.next.value.shape != B;
    SkipStep(if armed then s.(next := Some(NewPiece(B)), bombs := s.bombs - 1) else s)
  }

  /** `discard` (board.py:606-623): with a charge left the falling block vanishes and the next
      one is promoted; the reply is True then and False without a charge. */
  ghost function DiscardStep(s: State): Step
    requires Consistent(s)
  {
    if s.falling.None? then Stay(s, s.cells, Raised(NoBlockFault))
    else if s.discards > 0 then Stay(PlaceNext(s.(discards := s.discards - 1)), s.cells, Done(true))
    else Stay(s, s.cells, Done(false))
  }

  /** An action of a player's reply, as `run_player` dispatches it (board.py:493-503). */
  ghost function Act(s: State, a: Action): Step
    requires Consistent(s)
  {
    match a
    case Skip => SkipStep(s)
    case Bomb => BombStep(s)
    case Discard => DiscardStep(s)
    case Go(d) => MoveStep(s, d)
    case Turn(rot) => RotateStep(s, rot)
  }

  /** `alive` (board.py:431-439). */
  predicate Alive(s: State)
  {
    s.falling.None? || !Collides(s.falling.value.cells, s.cells)
  }

  // ---------------------------------------------------------------------------------------
  // Lemmas needed by the definitions above

  lemma LoweredImage(s: set<Cell>, line: int)
    ensures |set c | c in s :: Lowered(c, line)| <= |s|
    decreases |s|
  {
    if s != {} {
      var a :| a in s;
      var rest := s - {a};
      LoweredImage(rest, line);
      assert (set c | c in s :: Lowered(c, line)) == (set c | c in rest :: Lowered(c, line)) + {Lowered(a, line)};
    }
  }

  lemma SubsetCard(a: set<Cell>, b: set<Cell>)
    requires a <= b
    ensures |a| <= |b|
    decreases |b|
  {
    if a != {} {
      var x :| x in a;
      SubsetCard(a - {x}, b - {x});
    }
  }

  /** Removing a full row loses at least the row's cells. */
  lemma RemoveLineShrinks(cells: set<Cell>, line: int)
    requires LineFull(cells, line)
    ensures |RemoveLine(cells, line)| < |cells|
  {
    var kept := set c | c in cells && c.y != line;
    LoweredImage(kept, line);
    assert RemoveLine(cells, line) == set c | c in kept :: Lowered(c, line);
    assert Cell(0, line) in cells && Cell(0, line) !in kept;
    SubsetCard(kept, cells - {Cell(0, line)});
  }

  /** A move that reports landed keeps the block well-formed. */
  lemma MoveLandsInBounds(s: State, d: Direction)
    requires Consistent(s) && s.falling.Some?
    ensures WellFormed(MovePiece(s.falling.value, d, 1, s.cells).piece)
  {
    var p := s.falling.value;
    ExtremesInBounds(p.cells);
    match d
    case Right => StepRightOnBoard(p, 1, s.cells);
    case Left => StepLeftOnBoard(p, 1, s.cells);
    case Down => StepDownOnBoard(p, 1, s.cells);
    case Drop => DropWellFormed(p, s.cells);
  }

  /** A left, right or down move that does not land leaves the block on the board. */
  lemma MoveStaysInBounds(s: State, d: Direction)
    requires Consistent(s) && s.falling.Some?
    requires !MovePiece(s.falling.value, d, 1, s.cells).landed
    ensures var p := MovePiece(s.falling.value, d, 1, s.cells).piece;
      WellFormed(p) && InBounds(p.cells)
  {
    var p := s.falling.value;
    ExtremesInBounds(p.cells);
    match d
    case Right => StepRightOnBoard(p, 1, s.cells);
    case Left => StepLeftOnBoard(p, 1, s.cells);
    case Down => StepDownOnBoard(p, 1, s.cells);
  }

  lemma ShapeCellsSmall(sh: Shape)
    ensures forall i :: 0 <= i < |ShapeCells(sh)| ==>
      0 <= ShapeCells(sh)[i].x <= 2 && 0 <= ShapeCells(sh)[i].y <= 3
  {
    match sh
    case I => case J => case L => case O => case S => case T => case Z => case B =>
  }

  lemma CenteredSmall(p: Piece)
    requires |p.cells| > 0
    requires 0 <= MinX(p.cells) && MaxX(p.cells) <= 2 && 0 <= MinY(p.cells) && MaxY(p.cells) <= 3
    ensures InBounds(Centered(p).cells)
  {
    var middle := MinX(p.cells) + (MaxX(p.cells) - MinX(p.cells)) / 2;
    var q := Translate(p, Width / 2 - middle, 0);
    assert Centered(p) == q;
    TranslateExtremes(p, Width / 2 - middle, 0);
    ExtremesInBounds(q.cells);
  }

  /** A promoted block starts on the board (board.py:186-194 applied to board.py:46-80). */
  lemma CenteredOnBoard(sh: Shape)
    ensures var p := Centered(NewPiece(sh)); WellFormed(p) && InBounds(p.cells)
  {
    var cs := NewPiece(sh).cells;
    ShapeCellsSmall(sh);
    var a :| 0 <= a < |cs| && cs[a].x == MinX(cs);
    var b :| 0 <= b < |cs| && cs[b].x == MaxX(cs);
    var c :| 0 <= c < |cs| && cs[c].y == MinY(cs);
    var d :| 0 <= d < |cs| && cs[d].y == MaxY(cs);
    CenteredSmall(NewPiece(sh));
  }

  /** FirstBelow is the first occupied row at or below y in column x, or 24 when there is
      none. */
  lemma {:induction false} FirstBelowIsFirst(cells: set<Cell>, x: int, y: int)
    requires y <= Height
    ensures y <= FirstBelow(cells, x, y) <= Height
    ensures FirstBelow(cells, x, y) < Height ==> Cell(x, FirstBelow(cells, x, y)) in cells
    ensures forall k :: y <= k < FirstBelow(cells, x, y) ==> Cell(x, k) !in cells
    decreases Height - y
  {
    if y < Height && Cell(x, y) !in cells {
      FirstBelowIsFirst(cells, x, y + 1);
    }
  }

  // ---------------------------------------------------------------------------------------
  // Cells and colours stay in step

  /** Painting one more cell updates that cell's colour and nothing else. */
  lemma PaintStep(colors: map<Cell, Color>, cs: seq<Cell>, a: Cell, col: Color)
    ensures Paint(colors, cs + [a], col) == Paint(colors, cs, col)[a := col]
  {
    assert forall c :: c in cs + [a] <==> c in cs || c == a;
  }

  /** `remove_line` does the same to the cell set as to the colour map's keys. */
  lemma RemoveLineKeys(colors: map<Cell, Color>, line: int)
    ensures RemoveLineColors(colors, line).Keys == RemoveLine(colors.Keys, line)
  {
  }

  lemma {:induction false} CleanKeys(cells: set<Cell>, colors: map<Cell, Color>, line: int, removed: nat)
    requires cells == colors.Keys
    ensures var r := CleanFrom(cells, colors, line, removed); r.cells == r.colors.Keys
    decreases line, |cells|
  {
    if line > 0 {
      if LineFull(cells, line) {
        RemoveLineShrinks(cells, line);
        RemoveLineKeys(colors, line);
        CleanKeys(RemoveLine(cells, line), RemoveLineColors(colors, line), line, removed + 1);
      } else {
        CleanKeys(cells, colors, line - 1, removed);
      }
    }
  }

  /** Landing keeps the invariant: the merge or the explosion and the row clearing keep
      `cells` equal to the colour map's keys, and the promoted block starts on the board. */
  lemma LandConsistent(s: State)
    requires Settled(s) && s.falling.Some? && WellFormed(s.falling.value)
    ensures Consistent(Land(s).state)
  {
    var p := s.falling.value;
    var colors := if p.shape == B then Explode(s.colors, p.cells[0]) else MergeColors(s.colors, p);
    var cells := if p.shape == B then colors.Keys else MergeCells(s.cells, p);
    assert cells == colors.Keys;
    CleanKeys(cells, colors, Height - 1, 0);
    if s.next.Some? { CenteredOnBoard(s.next.value.shape); }
  }

  lemma ImplicitDownConsistent(s: State)
    requires Consistent(s) && s.falling.Some?
    ensures Consistent(ImplicitDown(s).state)
  {
    var p := s.falling.value;
    StepDownOnBoard(p, 1, s.cells);
    var m := StepDown(p, 1, s.cells);
    if m.landed { LandConsistent(s.(falling := Some(m.piece), score := s.score + m.points)); }
  }

  lemma MoveConsistent(s: State, d: Direction)
    requires Consistent(s)
    ensures Consistent(MoveStep(s, d).state)
  {
    if s.falling.Some? {
      MoveThrough(s, d);
      var m := MovePiece(s.falling.value, d, 1, s.cells);
      var s1 := s.(falling := Some(m.piece), score := s.score + m.points);
      if m.landed {
        MoveLandsInBounds(s, d);
        LandConsistent(s1);
        assert MoveStep(s, d) == Land(s1);
      } else {
        MoveStaysInBounds(s, d);
        ImplicitDownConsistent(s1);
        assert MoveStep(s, d) == ImplicitDown(s1);
      }
    }
  }

  lemma RotateConsistent(s: State, rot: Rotation)
    requires Consistent(s)
    ensures Consistent(RotateStep(s, rot).state)
  {
    if s.falling.Some? {
      var t := RotatePiece(s.falling.value, rot, s.cells);
      var s1 := s.(falling := Some(t.piece), score := s.score + t.points);
      RotateThrough(s, rot);
      ImplicitDownConsistent(s1);
    }
  }

  lemma BombConsistent(s: State)
    requires Consistent(s)
    ensures Consistent(BombStep(s).state)
  {
    var armed := s.bombs > 0 && s.next.Some? && s.next.value.shape != B;
    var s1 := if armed then s.(next := Some(NewPiece(B)), bombs := s.bombs - 1) else s;
    if s1.falling.Some? { ImplicitDownConsistent(s1); }
  }

  lemma DiscardConsistent(s: State)
    requires Consistent(s)
    ensures Consistent(DiscardStep(s).state)
  {
    if s.falling.Some? && s.discards > 0 && s.next.Some? { CenteredOnBoard(s.next.value.shape); }
  }

  /** Every action keeps the engine's invariant. */
  lemma ActConsistent(s: State, a: Action)
    requires Consistent(s)
    ensures Consistent(Act(s, a).state)
  {
    match a
    case Skip => if s.falling.Some? { ImplicitDownConsistent(s); }
    case Bomb => BombConsistent(s);
    case Discard => DiscardConsistent(s);
    case Go(d) => MoveConsistent(s, d);
    case Turn(rot) => RotateConsistent(s, rot);
  }

  /** A move that lands is a landing, and any other move ends with the implicit Down step. */
  lemma MoveThrough(s: State, d: Direction)
    requires Consistent(s) && s.falling.Some?
    ensures var m := MovePiece(s.falling.value, d, 1, s.cells);
      var s1 := s.(falling := Some(m.piece), score := s.score + m.points);
      MoveStep(s, d) ==
        if m.landed then (MoveLandsInBounds(s, d); Land(s1))
        else (MoveStaysInBounds(s, d); ImplicitDown(s1))
  {
  }

  /** `move` split at the block move, for a caller holding the moved state t: a landing
      block is ready to land and `move` is that landing, and any other block is back on
      the board and `move` is the implicit Down step from t. */
  lemma MoveSplits(s: State, d: Direction, t: State)
    requires Consistent(s) && s.falling.Some?
    requires t == s.(falling := Some(MovePiece(s.falling.value, d, 1, s.cells).piece),
      score := s.score + MovePiece(s.falling.value, d, 1, s.cells).points)
    ensures MovePiece(s.falling.value, d, 1, s.cells).landed ==> Ready(t, Landing) && MoveStep(s, d) == Land(t)
    ensures !MovePiece(s.falling.value, d, 1, s.cells).landed ==> Consistent(t) && MoveStep(s, d) == ImplicitDown(t)
  {
    MoveThrough(s, d);
    if MovePiece(s.falling.value, d, 1, s.cells).landed {
      MoveLandsInBounds(s, d);
    } else {
      MoveStaysInBounds(s, d);
    }
  }

  /** A rotation ends with the implicit Down step from the turned block (board.py:580-591). */
  lemma RotateThrough(s: State, rot: Rotation)
    requires Consistent(s) && s.falling.Some?
    ensures RotateStep(s, rot) == ImplicitDown(s.(falling := Some(RotatePiece(s.falling.value, rot, s.cells).piece),
      score := s.score + RotatePiece(s.falling.value, rot, s.cells).points))
  {
  }
}
