/** Enumerations and static shape tables of the engine (board.py:6-103). */
module Shapes {

  /** The board size that the engine, the explosion and the search player hard-code. */
  const Width: int := 10
  const Height: int := 24

  datatype Option<+T> = None | Some(value: T)

  /** The seven tetrominoes and the single-cell bomb, in declaration order. */
  datatype Shape = I | J | L | O | S | T | Z | B

  datatype Color = Cyan | Blue | Orange | Yellow | Green | Magenta | Red | White

  datatype Direction = Left | Right | Down | Drop

  datatype Rotation = Clockwise | Anticlockwise

  /** One item of a player's reply: `None` (skip), a resource action, a move or a rotation. */
  datatype Action = Skip | Bomb | Discard | Go(dir: Direction) | Turn(rot: Rotation)

  /** A board coordinate; the origin is the top-left corner and y grows downward. */
  datatype Cell = Cell(x: int, y: int)

  /** `list(Shape)`, in declaration order; the bomb comes last. */
  const AllShapes: seq<Shape> := [I, J, L, O, S, T, Z, B]

  /** The number of cells of a shape: four for a tetromino, one for the bomb. */
  function Size(s: Shape): nat
  {
    if s == B then 1 else 4
  }

  /** The initial cells of each shape (shape_to_cells). */
  function ShapeCells(s: Shape): (cs: seq<Cell>)
    ensures |cs| == Size(s)
  {
    match s
    case I => [Cell(0, 0), Cell(0, 1), Cell(0, 2), Cell(0, 3)]
    case J => [Cell(1, 0), Cell(1, 1), Cell(0, 2), Cell(1, 2)]
    case L => [Cell(0, 0), Cell(0, 1), Cell(0, 2), Cell(1, 2)]
    case O => [Cell(0, 0), Cell(1, 0), Cell(0, 1), Cell(1, 1)]
    case S => [Cell(1, 0), Cell(2, 0), Cell(0, 1), Cell(1, 1)]
    case T => [Cell(0, 0), Cell(1, 0), Cell(2, 0), Cell(1, 1)]
    case Z => [Cell(0, 0), Cell(1, 0), Cell(1, 1), Cell(2, 1)]
    case B => [Cell(0, 0)]
  }

  /** shape_to_color */
  function ShapeColor(s: Shape): Color
  {
    match s
    case I => Cyan
    case J => Blue
    case L => Orange
    case O => Yellow
    case S => Green
    case T => Magenta
    case Z => Red
    case B => White
  }

  /** A rotation centre (x + h/2, y + h/2) with h = 1 when `half` holds: every centre in the
      table has both coordinates integral or both half-integral. */
  datatype Center = Center(x: int, y: int, half: bool)

  /** shape_to_center */
  function ShapeCenter(s: Shape): Center
  {
    match s
    case I => Center(0, 1, true)
    case J => Center(1, 1, false)
    case L => Center(0, 1, false)
    case O => Center(0, 0, true)
    case S => Center(1, 1, false)
    case T => Center(1, 0, false)
    case Z => Center(1, 1, false)
    case B => Center(0, 0, true)
  }
}
