/**
 * The search player (player.py:11-187). For every target column and number of clockwise
 * turns it plays the falling block on a copy of the board (a sandbox), scores the landed
 * result, and keeps the move list of the best placement.
 */
module Search {
  import opened Shapes
  import opened Pieces
  import opened Rules
  import opened Heuristic
  import opened Laws
  import opened Engine

  /** What ends a trial placement early: an exception of the board, or the AttributeError of
      reading `left` or `shape` of a block that is None. */
  datatype Failure = Fault(fault: Fault) | MissingBlock

  /** A sandbox: the cloned board's state, the cells held by the set object the sandbox
      captured as `self.cells` when it was built (player.py:76), and whether that object is
      still the board's own set. */
  datatype Sandbox = Sandbox(state: State, captured: set<Cell>, aliased: bool)

  /** The sandbox after its board took the step `st`: while the captured object is the
      board's set it holds what the step left in it; once the board rebinds its set, the
      captured object is frozen. */
  function After(sb: Sandbox, st: Step): Sandbox
  {
    Sandbox(st.state, if sb.aliased then st.held else sb.captured, sb.aliased && !st.rebound)
  }

  /** While the captured object is the board's set, it holds the board's landed cells. */
  predicate Tracking(sb: Sandbox)
  {
    sb.aliased ==> sb.captured == sb.state.cells
  }

  /** Every action keeps the captured object in step with the board for as long as the
      board does not rebind its set; once rebound, the captured cells no longer change. */
  lemma TrackingKept(sb: Sandbox, a: Action)
    requires Consistent(sb.state) && Tracking(sb)
    ensures Tracking(After(sb, Act(sb.state, a)))
    ensures !sb.aliased ==> After(sb, Act(sb.state, a)).captured == sb.captured && !After(sb, Act(sb.state, a)).aliased
  {
    StepKeepsSet(sb.state, a);
  }

  /** The result of `move_to_target`: the placement's score and the moves that reach it, or
      the exception that stopped it. */
  datatype Trial = Scored(score: int, moves: seq<Action>) | Failed(failure: Failure)

  /** `n` clockwise turns. */
  function Turns(n: nat): (r: seq<Action>)
    ensures |r| == n
  {
    if n == 0 then [] else Turns(n - 1) + [Turn(Clockwise)]
  }

  /** Every one of them is a clockwise turn. */
  lemma {:induction false} TurnsAll(n: nat)
    ensures forall i :: 0 <= i < n ==> Turns(n)[i] == Turn(Clockwise)
  {
    if n > 0 {
      TurnsAll(n - 1);
    }
  }

  /** The moves `moves` made before the trial `t`. */
  function Extend(moves: seq<Action>, t: Trial): Trial
  {
    match t
    case Failed(_) => t
    case Scored(score, rest) => Scored(score, moves + rest)
  }

  /** The sandbox after the rotation phase of `move_to_target` and the number of turns it
      made, or the exception it raised. */
  datatype Rotated = Rotated(sb: Sandbox, turns: nat) | RotationFailed(failure: Failure)

  /** The rotation phase (player.py:84-89): up to `k` clockwise turns, stopping after a turn
      that lands. The source scores a landing here and then overwrites that score in the
      phase that follows, so the score is not kept. */
  ghost function TurnPhase(sb: Sandbox, k: nat): (r: Rotated)
    requires Consistent(sb.state)
    ensures r.Rotated? ==> Consistent(r.sb.state) && r.turns <= k
    decreases k, 2
  {
    if k == 0 then Rotated(sb, 0) else TurnThen(sb, k)
  }

  /** One clockwise turn, and the rest of the rotation phase unless it landed or raised.
      Without a falling block the turn raises NoBlockException. */
  ghost function TurnThen(sb: Sandbox, k: nat): (r: Rotated)
    requires Consistent(sb.state) && k > 0
    ensures r.Rotated? ==> Consistent(r.sb.state) && r.turns <= k
    decreases k, 1
  {
    if sb.state.falling.None? then RotationFailed(Fault(NoBlockFault)) else TurnFalling(sb, k)
  }

  /** A clockwise turn of the falling block, and the rest of the rotation phase unless it
      landed or raised. */
  ghost function TurnFalling(sb: Sandbox, k: nat): (r: Rotated)
    requires Consistent(sb.state) && k > 0 && sb.state.falling.Some?
    ensures r.Rotated? ==> Consistent(r.sb.state) && r.turns <= k
    decreases k, 0
  {
    var st := Act(sb.state, Turn(Clockwise));
    ActConsistent(sb.state, Turn(Clockwise));
    match st.reply
    case Raised(f) => RotationFailed(Fault(f))
    case Done(landed) =>
      if landed then Rotated(After(sb, st), 1)
      else TurnedAfter(1, TurnPhase(After(sb, st), k - 1))
  }

  /** The move `move_to_target` makes toward column `tx` when the block's leftmost column is
      `left` (player.py:93-101). */
  function Toward(tx: int, left: int): Action
  {
    if tx < left then Go(Left) else if tx > left then Go(Right) else Go(Drop)
  }

  /** `scoreBoard` once the sandbox has landed (player.py:165-187). The original falling
      block's shape is read last, so a missing block raises only after the pure scoring. */
  function Score(sb: Sandbox, moves: seq<Action>, initScore: int, initShape: Option<Shape>): Trial
  {
    if initShape.None? then Failed(MissingBlock)
    else Scored(ScoreBoard(sb.state.cells, sb.captured, sb.state.score, initScore, initShape.value), moves)
  }

  /** The block's height above the floor, which every step of the approach lowers. */
  ghost function Clearance(s: State): int
    requires Consistent(s)
  {
    if s.falling.None? then 0 else Height - MaxY(s.falling.value.cells)
  }

  /** The approach phase (player.py:91-104): step toward column `tx`, and drop once there,
      until an action lands; then score the board. The moves are those of this phase. A
      scored approach made one or more Left, Right and Drop moves, of which only the last
      can be a Drop. */
  ghost function Approach(sb: Sandbox, tx: int, initScore: int, initShape: Option<Shape>): (r: Trial)
    requires Consistent(sb.state)
    ensures r.Scored? ==> |r.moves| > 0
    ensures r.Scored? ==> forall i :: 0 <= i < |r.moves| ==> r.moves[i] in {Go(Left), Go(Right), Go(Drop)}
    ensures r.Scored? ==> forall i :: 0 <= i < |r.moves| - 1 ==> r.moves[i] != Go(Drop)
    decreases Clearance(sb.state), 2
  {
    if sb.state.falling.None? then Failed(MissingBlock) else MoveThen(sb, tx, initScore, initShape)
  }

  /** The move toward column `tx` from where the falling block is. */
  ghost function MoveThen(sb: Sandbox, tx: int, initScore: int, initShape: Option<Shape>): (r: Trial)
    requires Consistent(sb.state) && sb.state.falling.Some?
    ensures r.Scored? ==> |r.moves| > 0
    ensures r.Scored? ==> forall i :: 0 <= i < |r.moves| ==> r.moves[i] in {Go(Left), Go(Right), Go(Drop)}
    ensures r.Scored? ==> forall i :: 0 <= i < |r.moves| - 1 ==> r.moves[i] != Go(Drop)
    decreases Clearance(sb.state), 1
  {
    MoveBy(sb, Toward(tx, MinX(sb.state.falling.value.cells)), tx, initScore, initShape)
  }

  /** The move `a`, and the rest of the approach phase unless it landed or raised. */
  ghost function MoveBy(sb: Sandbox, a: Action, tx: int, initScore: int, initShape: Option<Shape>): (r: Trial)
    requires Consistent(sb.state) && sb.state.falling.Some? && a in {Go(Left), Go(Right), Go(Drop)}
    ensures r.Scored? ==> |r.moves| > 0
    ensures r.Scored? ==> forall i :: 0 <= i < |r.moves| ==> r.moves[i] in {Go(Left), Go(Right), Go(Drop)}
    ensures r.Scored? ==> forall i :: 0 <= i < |r.moves| - 1 ==> r.moves[i] != Go(Drop)
    decreases Clearance(sb.state), 0
  {
    var st := Act(sb.state, a);
    match st.reply
    case Raised(f) => Failed(Fault(f))
    case Done(landed) =>
      if landed then Score(After(sb, st), [a], initScore, initShape)
      else if a == Go(Drop) then
        DropAlwaysLands(sb.state);
        assert false;
        Failed(MissingBlock)
      else
        SideStepFalls(sb.state, a.dir);
        ExtremesInBounds(st.state.falling.value.cells);
        Extend([a], Approach(After(sb, st), tx, initScore, initShape))
  }

  /** `move_to_target(rt, tx)` (player.py:80-105): the rotation phase, then the approach
      phase, which runs even when a rotation landed the block. */
  ghost function Target(sb: Sandbox, rt: nat, tx: int, initScore: int, initShape: Option<Shape>): Trial
    requires Consistent(sb.state)
  {
    match TurnPhase(sb, rt)
    case RotationFailed(f) => Failed(f)
    case Rotated(sb', n) => Extend(Turns(n), Approach(sb', tx, initScore, initShape))
  }

  /** A trial of `choose_action` (player.py:21-26): a sandbox over a clone of the board
      whose captured set is the clone's own, the board's score as the initial score and the
      board's falling shape as the initial shape. */
  ghost function Attempt(s: State, rt: nat, tx: int): Trial
    requires Consistent(s)
  {
    Target(Sandbox(s, s.cells, true), rt, tx, s.score,
      if s.falling.Some? then Some(s.falling.value.shape) else None)
  }

  /** `n` turns, then Left, Right and Drop moves with a Drop only last. */
  ghost predicate Moves(m: seq<Action>, n: nat)
  {
    (forall i :: 0 <= i < n && i < |m| ==> m[i] == Turn(Clockwise)) &&
    (forall i :: n <= i < |m| ==> m[i] in {Go(Left), Go(Right), Go(Drop)}) &&
    (forall i :: n <= i < |m| - 1 ==> m[i] != Go(Drop))
  }

  /** The moves of a scored trial: at most `rt` clockwise turns, then one or more Left,
      Right and Drop moves of which only the last can be a Drop (player.py:84-104). */
  lemma AttemptMoves(s: State, rt: nat, tx: int)
    requires Consistent(s)
    ensures Attempt(s, rt, tx).Scored? ==>
      exists n :: 0 <= n <= rt && n < |Attempt(s, rt, tx).moves| && Moves(Attempt(s, rt, tx).moves, n)
  {
    var sb := Sandbox(s, s.cells, true);
    var tp := TurnPhase(sb, rt);
    if tp.Rotated? {
      var ap := Approach(tp.sb, tx, s.score, if s.falling.Some? then Some(s.falling.value.shape) else None);
      if ap.Scored? {
        var n := tp.turns;
        var m := Turns(n) + ap.moves;
        TurnsAll(n);
        assert Moves(m, n);
      }
    }
  }

  /** A trial on a board without a falling block fails: the first rotation raises
      NoBlockException, and without rotations reading `left` of None raises. */
  lemma NoBlockFails(s: State, rt: nat, tx: int)
    requires Consistent(s) && s.falling.None?
    ensures Attempt(s, rt, tx).Failed?
  {
    if rt > 0 {
      NoBlockRaises(s, Turn(Clockwise));
      assert TurnPhase(Sandbox(s, s.cells, true), rt).RotationFailed?;
    }
  }

  // ---------------------------------------------------------------------------------------
  // The sandbox (player.py:73-105)

  /** `testBoard` (player.py:73-78): the board it plays on, the set object that was that
      board's `cells` when the sandbox was built, the initial score and the block that was
      falling on the searched board. */
  class TestBoard {
    const board: Board
    const cells: CellSet
    const initScore: int
    const initFalling: Block?

    constructor(b: Board, initScore: int, initFalling: Block?)
      ensures board == b && cells == b.cells
      ensures this.initScore == initScore && this.initFalling == initFalling
    {
      board := b;
      cells := b.cells;
      this.initScore := initScore;
      this.initFalling := initFalling;
    }

    /** The sandbox as a value. */
    ghost function Sandboxed(): Sandbox
      reads board, board.cells, board.falling, board.next, cells
    {
      Sandbox(board.Model(), cells.elems, cells == board.cells)
    }

    /** The board is valid, in the state `sb`, and the captured set tracks it. */
    ghost predicate At(sb: Sandbox)
      reads board, board.cells, board.falling, board.next, cells
    {
      board.Valid() && sb == Sandboxed() && Tracking(sb)
    }

    /** The shape of the initial falling block, if there is one. */
    function InitShape(): Option<Shape>
    {
      if initFalling == null then None else Some(initFalling.shape)
    }

    /** One action on the sandbox's board, which is in the state `sb`; `st` is the step. */
    method Apply(a: Action, ghost sb: Sandbox) returns (r: Reply, ghost st: Step)
      requires At(sb)
      modifies board, board.cells, board.falling, board.next
      ensures st == Act(sb.state, a) && r == st.reply
      ensures At(After(sb, st))
      ensures board.cells == old(board.cells) || fresh(board.cells)
      ensures board.falling == null || board.falling == old(board.falling) || board.falling == old(board.next) || fresh(board.falling)
      ensures board.next == null || board.next == old(board.next) || fresh(board.next)
    {
      TrackingKept(sb, a);
      st := Act(sb.state, a);
      r := board.DoAction(a);
    }

    /** `move_to_target(rt, tx)` (player.py:80-105): the rotation loop, then the approach
        loop, appending to one move list. */
    method MoveToTarget(rt: nat, tx: int) returns (t: Trial)
      requires At(Sandboxed())
      modifies board, board.cells, board.falling, board.next
      ensures t == Target(old(Sandboxed()), rt, tx, initScore, InitShape())
    {
      ghost var sb := Sandboxed();
      var moves, failure := RotationLoop(rt, TurnPhase(sb, rt));
      if failure.Some? {
        return Failed(failure.value);
      }
      t := ApproachLoop(tx, moves);
    }

    /** The rotation loop of `move_to_target` (player.py:84-89). */
    method RotationLoop(rt: nat, ghost goal: Rotated) returns (moves: seq<Action>, failure: Option<Failure>)
      requires At(Sandboxed()) && goal == TurnPhase(Sandboxed(), rt)
      modifies board, board.cells, board.falling, board.next
      ensures failure.Some? ==> goal == RotationFailed(failure.value)
      ensures failure.None? ==> goal == Rotated(Sandboxed(), |moves|) && At(Sandboxed())
      ensures moves == Turns(|moves|)
      ensures board.cells == old(board.cells) || fresh(board.cells)
      ensures board.falling == null || board.falling == old(board.falling) || board.falling == old(board.next) || fresh(board.falling)
      ensures board.next == null || board.next == old(board.next) || fresh(board.next)
    {
      ghost var sb := Sandboxed();
      moves := [];
      failure := None;
      var i := 0;
      var landed := false;
      while i < rt && !landed
        invariant At(sb) && 0 <= i <= rt && moves == Turns(i)
        invariant failure.Some? ==> landed && goal == RotationFailed(failure.value)
        invariant failure.None? && landed ==> goal == Rotated(sb, i)
        invariant !landed ==> failure.None? && goal == TurnedAfter(i, TurnPhase(sb, rt - i))
        invariant board.cells == old(board.cells) || fresh(board.cells)
        invariant board.falling == null || board.falling == old(board.falling) || board.falling == old(board.next) || fresh(board.falling)
        invariant board.next == null || board.next == old(board.next) || fresh(board.next)
      {
        var r;
        r, sb := TurnOnce(sb, i, rt - i, goal);
        moves := moves + [Turn(Clockwise)];
        i := i + 1;
        if r.Raised? {
          failure := Some(Fault(r.fault));
          landed := true;
        } else {
          landed := r.landed;
        }
      }
    }

    /** One turn of the rotation loop: `sb'` is the sandbox after it. */
    method TurnOnce(ghost sb: Sandbox, ghost i: nat, ghost k: nat, ghost goal: Rotated) returns (r: Reply, ghost sb': Sandbox)
      requires At(sb) && k > 0 && goal == TurnedAfter(i, TurnPhase(sb, k))
      modifies board, board.cells, board.falling, board.next
      ensures At(sb')
      ensures r.Raised? ==> goal == RotationFailed(Fault(r.fault))
      ensures r == Done(true) ==> goal == Rotated(sb', i + 1)
      ensures r == Done(false) ==> goal == TurnedAfter(i + 1, TurnPhase(sb', k - 1))
      ensures board.cells == old(board.cells) || fresh(board.cells)
      ensures board.falling == null || board.falling == old(board.falling) || board.falling == old(board.next) || fresh(board.falling)
      ensures board.next == null || board.next == old(board.next) || fresh(board.next)
    {
      TurnStep(sb, k);
      ghost var st;
      r, st := Apply(Turn(Clockwise), sb);
      sb' := After(sb, st);
    }

    /** One move of the approach loop, toward column `tx`: `sb'` is the sandbox after it. */
    method MoveOnce(a: Action, ghost sb: Sandbox, ghost tx: int, ghost made: seq<Action>, ghost goal: Trial)
      returns (r: Reply, ghost sb': Sandbox)
      requires At(sb)
      requires sb.state.falling.Some? && a == Toward(tx, MinX(sb.state.falling.value.cells))
      requires goal == Extend(made, Approach(sb, tx, initScore, InitShape()))
      modifies board, board.cells, board.falling, board.next
      ensures At(sb')
      ensures r.Raised? ==> goal == Failed(Fault(r.fault))
      ensures r == Done(true) ==> goal == Score(sb', made + [a], initScore, InitShape())
      ensures r == Done(false) ==> sb'.state.falling.Some? && Clearance(sb'.state) < Clearance(sb.state)
      ensures r == Done(false) ==> goal == Extend(made + [a], Approach(sb', tx, initScore, InitShape()))
      ensures board.cells == old(board.cells) || fresh(board.cells)
      ensures board.falling == null || board.falling == old(board.falling) || board.falling == old(board.next) || fresh(board.falling)
      ensures board.next == null || board.next == old(board.next) || fresh(board.next)
    {
      ApproachStep(sb, tx, initScore, InitShape());
      ghost var st;
      r, st := Apply(a, sb);
      sb' := After(sb, st);
      ExtendTwice(made, [a], Approach(sb', tx, initScore, InitShape()));
      ExtendScore(made, [a], sb', initScore, InitShape());
    }

    /** `get_heights` (player.py:107-116): per column, the first occupied row from the top;
        `maxY` carries over to a column that has none. */
    method GetHeights() returns (h: seq<int>)
      requires board.width == Width && board.height == Height
      ensures h == Heights(board.cells.elems)
    {
      var cs := board.cells.elems;
      h := [];
      var maxY := Height;
      for x := 0 to board.width
        invariant |h| == x && forall i :: 0 <= i < x ==> h[i] == ColumnHeight(cs, i)
        invariant maxY == Height - ColumnHeight(cs, x - 1)
      {
        var y, found := 0, false;
        while y < board.height && !found
          invariant 0 <= y <= Height
          invariant forall k :: 0 <= k < y ==> Cell(x, k) !in cs
          invariant found ==> y < Height && Cell(x, y) in cs && maxY == y
          invariant !found ==> maxY == Height - ColumnHeight(cs, x - 1)
          decreases Height - y, if found then 0 else 1
        {
          if Cell(x, y) in cs {
            maxY, found := y, true;
          } else {
            y := y + 1;
          }
        }
        FirstBelowIsFirst(cs, x, TopRow);
        h := h + [Height - maxY];
      }
      assert h == Heights(cs);
    }

    /** `get_holes` (player.py:119-128): the empty cells of rows 24-h[x]..23 in each column.
        The source adds each such cell to a set and takes its size; no cell is visited
        twice, so a counter gives the same number. */
    method GetHoles() returns (holes: nat)
      requires board.width == Width && board.height == Height
      ensures holes == Holes(board.cells.elems)
    {
      var h := GetHeights();
      HeightsRange(board.cells.elems);
      holes := CountHoles(board.cells.elems, h);
    }

    /** The loop of `get_holes` over the columns, given the heights `h`. */
    static method CountHoles(cs: set<Cell>, h: seq<int>) returns (holes: nat)
      requires |h| == Width && forall i :: 0 <= i < Width ==> 0 <= h[i] <= Height
      ensures holes == HolesFrom(cs, h, 0)
    {
      holes := 0;
      for x := 0 to Width
        invariant holes + HolesFrom(cs, h, x) == HolesFrom(cs, h, 0)
      {
        var n := ColumnHoles(cs, x, Height - h[x]);
        holes := holes + n;
      }
    }

    /** The inner loop of `get_holes`: the empty cells of column x from row `from` down. */
    static method ColumnHoles(cs: set<Cell>, x: int, from: int) returns (n: nat)
      requires 0 <= from <= Height
      ensures n == EmptyBelow(cs, x, from)
    {
      n := 0;
      for y := from to Height
        invariant n + EmptyBelow(cs, x, y) == EmptyBelow(cs, x, from)
      {
        if Cell(x, y) !in cs {
          n := n + 1;
        }
      }
    }

    /** `get_bumpiness` (player.py:142-147). */
    method GetBumpiness() returns (bumpiness: nat)
      requires board.width == Width && board.height == Height
      ensures bumpiness == Bumpiness(Heights(board.cells.elems))
    {
      var h := GetHeights();
      bumpiness := 0;
      for i := 0 to board.width - 1
        invariant bumpiness + BumpFrom(h, i) == Bumpiness(h)
      {
        bumpiness := bumpiness + Abs(h[i] - h[i + 1]);
      }
    }

    /** `fill_FourRows` (player.py:156-163): column by column, the occupied cells of rows
        21 to 23 in the set the sandbox captured. As in `get_holes`, the source's set holds
        each cell once, so a counter gives its size. */
    method GetFill() returns (fill: nat)
      ensures fill == FillFourRows(cells.elems)
    {
      fill := 0;
      for i := 0 to 10
        invariant fill + FillFrom(cells.elems, i) == FillFourRows(cells.elems)
      {
        for j := 1 to 4
          invariant fill + (if j <= 1 && Cell(i, Height - 1) in cells.elems then 1 else 0) +
            (if j <= 2 && Cell(i, Height - 2) in cells.elems then 1 else 0) +
            (if j <= 3 && Cell(i, Height - 3) in cells.elems then 1 else 0) +
            FillFrom(cells.elems, i + 1) == FillFourRows(cells.elems)
        {
          if Cell(i, 24 - j) in cells.elems {
            fill := fill + 1;
          }
        }
      }
    }

    /** `scoreBoard` (player.py:165-187) once the block has landed in the state `sb`;
        `xscore` and `get_blocks` do not reach the result and are not computed. */
    method ScoreLanded(ghost sb: Sandbox, moves: seq<Action>) returns (t: Trial)
      requires sb == Sandboxed() && board.width == Width && board.height == Height
      ensures t == Score(sb, moves, initScore, InitShape())
    {
      var holes := GetHoles();
      var bumpiness := GetBumpiness();
      var fill := GetFill();
      var score := 0;
      score := score - holes * 1000;
      score := score - bumpiness * 100;
      score := score + fill;
      if initFalling == null {
        t := Failed(MissingBlock);
      } else {
        if initFalling.shape == I {
          score := score + 90000 * RemoveFourRows(board.score, initScore);
        }
        t := Scored(score, moves);
      }
    }

    /** The approach loop of `move_to_target` (player.py:91-105), after the rotation loop
        made `moves`. */
    method ApproachLoop(tx: int, moves: seq<Action>) returns (t: Trial)
      requires At(Sandboxed())
      modifies board, board.cells, board.falling, board.next
      ensures t == Extend(moves, Approach(old(Sandboxed()), tx, initScore, InitShape()))
    {
      ghost var sb0 := Sandboxed();
      ghost var sb := sb0;
      ghost var goal := Extend(moves, Approach(sb0, tx, initScore, InitShape()));
      var moveList := moves;
      while true
        invariant At(sb)
        invariant goal == Extend(moveList, Approach(sb, tx, initScore, InitShape()))
        invariant board.cells == old(board.cells) || fresh(board.cells)
        invariant board.falling == null || board.falling == old(board.falling) || board.falling == old(board.next) || fresh(board.falling)
        invariant board.next == null || board.next == old(board.next) || fresh(board.next)
        decreases Clearance(sb.state)
      {
        if board.falling == null {
          t := Failed(MissingBlock);
          break;
        }
        var left := board.falling.Leftmost();
        var a := Toward(tx, left);
        var r;
        r, sb := MoveOnce(a, sb, tx, moveList, goal);
        moveList := moveList + [a];
        if r.Raised? {
          t := Failed(Fault(r.fault));
          break;
        }
        if r.landed {
          t := ScoreLanded(sb, moveList);
          break;
        }
      }
    }
  }

  /** One turn of the rotation phase. */
  lemma TurnStep(sb: Sandbox, k: nat)
    requires Consistent(sb.state) && k > 0
    ensures Consistent(Act(sb.state, Turn(Clockwise)).state)
    ensures var st := Act(sb.state, Turn(Clockwise));
      TurnPhase(sb, k) ==
        match st.reply
        case Raised(f) => RotationFailed(Fault(f))
        case Done(landed) => if landed then Rotated(After(sb, st), 1) else TurnedAfter(1, TurnPhase(After(sb, st), k - 1))
  {
    ActConsistent(sb.state, Turn(Clockwise));
    if sb.state.falling.None? {
      NoBlockRaises(sb.state, Turn(Clockwise));
    } else {
      assert TurnThen(sb, k) == TurnFalling(sb, k);
    }
  }

  /** One move of the approach phase: it either ends the phase, or it leaves the block
      falling, lower by one row, and the phase goes on from there. */
  lemma ApproachStep(sb: Sandbox, tx: int, initScore: int, initShape: Option<Shape>)
    requires Consistent(sb.state) && sb.state.falling.Some?
    ensures var st := Act(sb.state, Toward(tx, MinX(sb.state.falling.value.cells)));
      Consistent(st.state) &&
      (st.reply == Done(false) ==> st.state.falling.Some? && Clearance(st.state) < Clearance(sb.state))
    ensures var a := Toward(tx, MinX(sb.state.falling.value.cells));
      var st := Act(sb.state, a);
      Consistent(st.state) &&
      Approach(sb, tx, initScore, initShape) ==
        match st.reply
        case Raised(f) => Failed(Fault(f))
        case Done(landed) =>
          if landed then Score(After(sb, st), [a], initScore, initShape)
          else Extend([a], Approach(After(sb, st), tx, initScore, initShape))
  {
    var a := Toward(tx, MinX(sb.state.falling.value.cells));
    ActConsistent(sb.state, a);
    var st := Act(sb.state, a);
    assert MoveThen(sb, tx, initScore, initShape) == MoveBy(sb, a, tx, initScore, initShape);
    if st.reply == Done(false) {
      if a == Go(Drop) {
        DropAlwaysLands(sb.state);
        assert false;
      }
      SideStepFalls(sb.state, a.dir);
      ExtremesInBounds(st.state.falling.value.cells);
    }
  }

  /** Moves made before a trial and then more moves are all made before it. */
  lemma ExtendTwice(m: seq<Action>, n: seq<Action>, t: Trial)
    ensures Extend(m, Extend(n, t)) == Extend(m + n, t)
  {
    if t.Scored? {
      assert m + (n + t.moves) == (m + n) + t.moves;
    }
  }

  /** Moves made before a scoring are moves of the scored trial. */
  lemma ExtendScore(m: seq<Action>, n: seq<Action>, sb: Sandbox, initScore: int, initShape: Option<Shape>)
    ensures Extend(m, Score(sb, n, initScore, initShape)) == Score(sb, m + n, initScore, initShape)
  {
  }

  /** The rotation phase's outcome counted from `i` turns earlier. */
  function TurnedAfter(i: nat, r: Rotated): Rotated
  {
    if r.Rotated? then Rotated(r.sb, r.turns + i) else r
  }

  // ---------------------------------------------------------------------------------------
  // choose_action (player.py:15-69)

  /** The best trial so far: its score and moves, or the exception that ended the search. */
  datatype Pick = Best(score: int, moves: seq<Action>) | Crashed(failure: Failure)

  /** The best before any trial (player.py:16-17). */
  const Start: Pick := Best(-100000000, [])

  /** One trial against the best so far: an exception ends the search, a strictly greater
      score replaces the best (player.py:28-31, 52-54). */
  function Consider(p: Pick, t: Trial): Pick
  {
    match p
    case Crashed(_) => p
    case Best(best, _) =>
      match t
      case Failed(f) => Crashed(f)
      case Scored(score, moves) => if score > best then Best(score, moves) else p
  }

  /** The trials ts[k..] considered in order against the best so far. */
  function SweepFrom(ts: seq<Trial>, k: nat, p: Pick): Pick
    decreases |ts| - k
  {
    if k >= |ts| then p else SweepFrom(ts, k + 1, Consider(p, ts[k]))
  }

  /** The number of trials: ten columns times four rotation counts. */
  const Count: nat := Width * 4

  /** The first n trials in column-major order: trial k is column k / 4 with k % 4 turns. */
  ghost function Trials(s: State, n: nat): (ts: seq<Trial>)
    requires Consistent(s)
    ensures |ts| == n
  {
    if n == 0 then [] else Trials(s, n - 1) + [Attempt(s, (n - 1) % 4, (n - 1) / 4)]
  }

  /** Every trial of `choose_action`'s loop nests. */
  ghost function Candidates(s: State): (ts: seq<Trial>)
    requires Consistent(s)
    ensures |ts| == Count
  {
    Trials(s, Count)
  }

  lemma {:induction false} TrialAt(s: State, n: nat, k: nat)
    requires Consistent(s) && k < n
    ensures Trials(s, n)[k] == Attempt(s, k % 4, k / 4)
  {
    if k < n - 1 {
      TrialAt(s, n - 1, k);
    }
  }

  lemma CandidateAt(s: State, rt: nat, tx: nat)
    requires Consistent(s) && rt < 4 && tx < Width
    ensures Candidates(s)[4 * tx + rt] == Attempt(s, rt, tx)
  {
    TrialAt(s, Count, 4 * tx + rt);
    assert (4 * tx + rt) % 4 == rt && (4 * tx + rt) / 4 == tx;
  }

  /** What one sweep over every trial settles on. */
  ghost function Choose(s: State): Pick
    requires Consistent(s)
  {
    SweepFrom(Candidates(s), 0, Start)
  }

  /** The value `choose_action` returns, or the exception it raises. */
  datatype Choice = Play(moves: seq<Action>) | Crash(failure: Failure)

  ghost function Chosen(s: State): Choice
    requires Consistent(s)
  {
    match Choose(s)
    case Best(_, moves) => Play(moves)
    case Crashed(f) => Crash(f)
  }

  /** Considering a trial twice in a row is considering it once. */
  lemma ConsiderTwice(p: Pick, t: Trial)
    ensures Consider(Consider(p, t), t) == Consider(p, t)
  {
  }

  /** Once an exception is raised, later trials change nothing. */
  lemma {:induction false} SweepStaysCrashed(ts: seq<Trial>, k: nat, p: Pick)
    requires p.Crashed?
    ensures SweepFrom(ts, k, p) == p
    decreases |ts| - k
  {
    if k < |ts| {
      SweepStaysCrashed(ts, k + 1, p);
    }
  }

  /** A sweep that ends on a best score started from a best no higher, and saw every trial
      from k on score at most that. */
  lemma {:induction false} SweepBounds(ts: seq<Trial>, k: nat, p: Pick)
    ensures SweepFrom(ts, k, p).Best? ==> p.Best? && p.score <= SweepFrom(ts, k, p).score
    ensures SweepFrom(ts, k, p).Best? ==>
      forall j :: k <= j < |ts| ==> ts[j].Scored? && ts[j].score <= SweepFrom(ts, k, p).score
    decreases |ts| - k
  {
    if k < |ts| {
      SweepBounds(ts, k + 1, Consider(p, ts[k]));
    }
  }

  /** The first trial from k on that reaches `score` and all before it score less. */
  ghost predicate FirstReaching(ts: seq<Trial>, k: nat, i: int, score: int, moves: seq<Action>)
  {
    k <= i < |ts| && ts[i] == Scored(score, moves) && forall j :: k <= j < i ==> ts[j].Scored? && ts[j].score < score
  }

  /** A sweep that moves off its starting best lands on the first trial that reaches the
      final score. */
  lemma {:induction false} SweepFirstBest(ts: seq<Trial>, k: nat, p: Pick)
    requires p.Best?
    ensures SweepFrom(ts, k, p).Best? && SweepFrom(ts, k, p) != p ==>
      p.score < SweepFrom(ts, k, p).score &&
      exists i :: FirstReaching(ts, k, i, SweepFrom(ts, k, p).score, SweepFrom(ts, k, p).moves)
    decreases |ts| - k
  {
    if k < |ts| {
      var q := Consider(p, ts[k]);
      var r := SweepFrom(ts, k, p);
      if q.Crashed? {
        SweepStaysCrashed(ts, k + 1, q);
      } else {
        SweepFirstBest(ts, k + 1, q);
        SweepBounds(ts, k + 1, q);
        if r.Best? && r != p {
          if r == q {
            assert FirstReaching(ts, k, k, r.score, r.moves);
          } else {
            var i :| FirstReaching(ts, k + 1, i, r.score, r.moves);
            assert FirstReaching(ts, k, i, r.score, r.moves);
          }
        }
      }
    }
  }

  /** The first failing trial from k on, after trials that all scored. */
  ghost predicate FirstFailing(ts: seq<Trial>, k: nat, i: int, f: Failure)
  {
    k <= i < |ts| && ts[i] == Failed(f) && forall j :: k <= j < i ==> ts[j].Scored?
  }

  /** A sweep ends in an exception exactly when some trial from k on fails, and the
      exception is that of the first failing trial. */
  lemma {:induction false} SweepCrash(ts: seq<Trial>, k: nat, p: Pick)
    requires p.Best?
    ensures SweepFrom(ts, k, p).Crashed? <==> exists i :: k <= i < |ts| && ts[i].Failed?
    ensures SweepFrom(ts, k, p).Crashed? ==> exists i :: FirstFailing(ts, k, i, SweepFrom(ts, k, p).failure)
    decreases |ts| - k
  {
    if k < |ts| {
      var q := Consider(p, ts[k]);
      if q.Best? {
        SweepCrash(ts, k + 1, q);
        if SweepFrom(ts, k, p).Crashed? {
          var i :| FirstFailing(ts, k + 1, i, SweepFrom(ts, k, p).failure);
          assert FirstFailing(ts, k, i, SweepFrom(ts, k, p).failure);
        }
      } else {
        SweepStaysCrashed(ts, k + 1, q);
        assert FirstFailing(ts, k, k, q.failure);
      }
    }
  }

  /** Once one sweep is done, considering any of its trials again changes nothing. */
  lemma SweepSettled(ts: seq<Trial>, k: nat)
    requires k < |ts|
    ensures Consider(SweepFrom(ts, 0, Start), ts[k]) == SweepFrom(ts, 0, Start)
  {
    SweepBounds(ts, 0, Start);
  }

  /** Sweeping again after a sweep changes nothing. */
  lemma {:induction false} SweepAgain(ts: seq<Trial>, k: nat)
    ensures SweepFrom(ts, k, SweepFrom(ts, 0, Start)) == SweepFrom(ts, 0, Start)
    decreases |ts| - k
  {
    if k < |ts| {
      SweepSettled(ts, k);
      SweepAgain(ts, k + 1);
    }
  }

  /** The first trial followed by a whole sweep is one sweep. */
  lemma FirstThenSweep(ts: seq<Trial>)
    requires |ts| > 0
    ensures SweepFrom(ts, 0, Consider(Start, ts[0])) == SweepFrom(ts, 0, Start)
  {
    ConsiderTwice(Start, ts[0]);
  }

  /** What `choose_action` settles on without an exception is the first maximum: no trial
      scores more, and every trial before it scores less (player.py:29, 52). */
  lemma ChooseFirstBest(s: State)
    requires Consistent(s)
    ensures Choose(s).Best? ==>
      forall j :: 0 <= j < Count ==> Candidates(s)[j].Scored? && Candidates(s)[j].score <= Choose(s).score
    ensures Choose(s).Best? ==> exists i :: FirstReaching(Candidates(s), 0, i, Choose(s).score, Choose(s).moves)
  {
    var ts := Candidates(s);
    SweepBounds(ts, 0, Start);
    SweepFirstBest(ts, 0, Start);
    if Choose(s).Best? {
      ScoredAbove(s, 0, 0);
    }
  }

  /** `choose_action` raises exactly when some trial raises, and it raises what the first
      such trial raises. */
  lemma ChooseCrash(s: State)
    requires Consistent(s)
    ensures Choose(s).Crashed? <==> exists i :: 0 <= i < Count && Candidates(s)[i].Failed?
    ensures Choose(s).Crashed? ==> exists i :: FirstFailing(Candidates(s), 0, i, Choose(s).failure)
  {
    SweepCrash(Candidates(s), 0, Start);
  }

  /** Every placement scores above the initial best, so a search without an exception
      returns the moves of a real trial, and they are never empty (player.py:16, 28-31). */
  lemma ChooseNeverEmpty(s: State)
    requires Consistent(s)
    ensures Choose(s).Best? ==> Choose(s).score > Start.score && |Choose(s).moves| > 0
  {
    ChooseFirstBest(s);
    if Choose(s).Best? {
      ScoredAbove(s, 0, 0);
      var i :| FirstReaching(Candidates(s), 0, i, Choose(s).score, Choose(s).moves);
      CandidateAt(s, i % 4, i / 4);
      AttemptNonEmpty(s, i % 4, i / 4);
    }
  }

  /** A scored trial scores at least -264000. */
  lemma ScoredAbove(s: State, rt: nat, tx: nat)
    requires Consistent(s) && rt < 4 && tx < Width
    ensures Candidates(s)[4 * tx + rt].Scored? ==> Candidates(s)[4 * tx + rt].score >= -264000
  {
    CandidateAt(s, rt, tx);
    var tp := TurnPhase(Sandbox(s, s.cells, true), rt);
    if tp.Rotated? {
      ApproachBound(tp.sb, tx, s.score, if s.falling.Some? then Some(s.falling.value.shape) else None);
    }
  }

  lemma {:induction false} ApproachBound(sb: Sandbox, tx: int, initScore: int, initShape: Option<Shape>)
    requires Consistent(sb.state)
    ensures Approach(sb, tx, initScore, initShape).Scored? ==> Approach(sb, tx, initScore, initShape).score >= -264000
    decreases Clearance(sb.state)
  {
    if sb.state.falling.Some? {
      var a := Toward(tx, MinX(sb.state.falling.value.cells));
      var st := Act(sb.state, a);
      assert MoveThen(sb, tx, initScore, initShape) == MoveBy(sb, a, tx, initScore, initShape);
      if st.reply == Done(true) && initShape.Some? {
        var sb' := After(sb, st);
        ScoreBoardBounds(sb'.state.cells, sb'.captured, sb'.state.score, initScore, initShape.value);
      } else if st.reply == Done(false) && a != Go(Drop) {
        SideStepFalls(sb.state, a.dir);
        ExtremesInBounds(st.state.falling.value.cells);
        ApproachBound(After(sb, st), tx, initScore, initShape);
      }
    }
  }

  /** A scored trial made at least one move. */
  lemma AttemptNonEmpty(s: State, rt: nat, tx: int)
    requires Consistent(s)
    ensures Attempt(s, rt, tx).Scored? ==> |Attempt(s, rt, tx).moves| > 0
  {
  }

  /** One trial of `choose_action` (player.py:21-26): a sandbox over a clone of the board. */
  method TryTarget(board: Board, rt: nat, tx: int) returns (t: Trial)
    requires board.Valid()
    ensures t == Attempt(board.Model(), rt, tx)
  {
    var cloned := board.Clone();
    var sandbox := new TestBoard(cloned, board.score, board.falling);
    t := sandbox.MoveToTarget(rt, tx);
  }

  /** One trial against the best so far (player.py:19-31, 45-54): an exception ends the
      search, a strictly greater score replaces the best. */
  method Consult(board: Board, rt: nat, tx: int, p: Pick, ghost s: State) returns (q: Pick)
    requires board.Valid() && board.Model() == s && rt < 4 && 0 <= tx < Width && p.Best?
    ensures q == Consider(p, Candidates(s)[4 * tx + rt])
  {
    var t := TryTarget(board, rt, tx);
    CandidateAt(s, rt, tx);
    if t.Failed? {
      q := Crashed(t.failure);
    } else if t.score > p.score {
      q := Best(t.score, t.moves);
    } else {
      q := p;
    }
  }

  /** The inner loop nest of `choose_action` (player.py:42-54): every trial once, in
      column-major order, against the best so far. */
  method Sweep(board: Board, score: int, moves: seq<Action>) returns (p: Pick)
    requires board.Valid()
    ensures p == SweepFrom(Candidates(board.Model()), 0, Best(score, moves))
  {
    ghost var s := board.Model();
    ghost var ts := Candidates(s);
    ghost var goal := SweepFrom(ts, 0, Best(score, moves));
    p := Best(score, moves);
    var tx := 0;
    while tx < board.width && p.Best?
      invariant 0 <= tx <= Width
      invariant p.Crashed? ==> p == goal
      invariant p.Best? ==> SweepFrom(ts, 4 * tx, p) == goal
    {
      var rt := 0;
      while rt < 4 && p.Best?
        invariant 0 <= rt <= 4
        invariant p.Crashed? ==> p == goal
        invariant p.Best? ==> SweepFrom(ts, 4 * tx + rt, p) == goal
      {
        p := Consult(board, rt, tx, p, s);
        if p.Crashed? {
          SweepStaysCrashed(ts, 4 * tx + rt + 1, p);
        }
        rt := rt + 1;
      }
      tx := tx + 1;
    }
  }

  /** One trial of the outer loop nest of `choose_action` and the whole inner nest after it
      (player.py:18-54). The first trial starts from the initial best; every later one from
      what a sweep settles on, which it does not change. */
  method Retry(board: Board, rt: nat, tx: int, p: Pick, ghost s: State, ghost first: bool) returns (q: Pick)
    requires board.Valid() && board.Model() == s && rt < 4 && 0 <= tx < Width && p.Best?
    requires first ==> rt == 0 && tx == 0 && p == Start
    requires !first ==> p == Choose(s)
    ensures q == Choose(s)
  {
    if first {
      FirstTrial(s);
    } else {
      LaterTrial(s, 4 * tx + rt);
    }
    q := Consult(board, rt, tx, p, s);
    if q.Best? {
      q := Sweep(board, q.score, q.moves);
    }
  }

  /** The first trial: its exception is the search's exception; otherwise a sweep from the
      better of it and the initial best settles on what one sweep does. */
  lemma FirstTrial(s: State)
    requires Consistent(s)
    ensures var q := Consider(Start, Candidates(s)[0]);
      (q.Crashed? ==> Choose(s) == q) && (q.Best? ==> SweepFrom(Candidates(s), 0, q) == Choose(s))
  {
    var ts := Candidates(s);
    FirstThenSweep(ts);
    var q := Consider(Start, ts[0]);
    if q.Crashed? {
      SweepStaysCrashed(ts, 1, q);
    }
  }

  /** Once a sweep has settled on a best score, no trial changes it, and sweeping again
      changes nothing. */
  lemma LaterTrial(s: State, k: nat)
    requires Consistent(s) && k < Count && Choose(s).Best?
    ensures Consider(Choose(s), Candidates(s)[k]) == Choose(s)
    ensures SweepFrom(Candidates(s), 0, Choose(s)) == Choose(s)
  {
    var ts := Candidates(s);
    SweepSettled(ts, k);
    SweepAgain(ts, 0);
  }

  /** `choose_action` (player.py:15-69). Each trial of the outer loop nest is followed by the
      whole inner nest, which leaves `tx` at the last column, so the outer nest's trials
      after the first of each column are made at column 9. An exception of any trial ends
      the search. All these repeated trials return what one sweep returns. */
  method ChooseAction(board: Board) returns (c: Choice)
    requires board.Valid()
    ensures c == Chosen(board.Model())
  {
    ghost var s := board.Model();
    var p := Start;
    var column := 0;
    while column < board.width && p.Best?
      invariant 0 <= column <= Width
      invariant p.Crashed? ==> p == Choose(s)
      invariant p.Best? ==> p == if column == 0 then Start else Choose(s)
    {
      var tx := column;
      var rt := 0;
      while rt < 4 && p.Best?
        invariant 0 <= rt <= 4 && 0 <= tx < Width
        invariant rt == 0 ==> tx == column
        invariant p.Crashed? ==> p == Choose(s)
        invariant p.Best? ==> p == if column == 0 && rt == 0 then Start else Choose(s)
      {
        p := Retry(board, rt, tx, p, s, column == 0 && rt == 0);
        tx := board.width - 1;
        rt := rt + 1;
      }
      column := column + 1;
    }
    if p.Best? {
      c := Play(p.moves);
    } else {
      c := Crash(p.failure);
    }
  }
}
