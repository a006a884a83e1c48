/**
 * The adversary that chooses the next shape (adversary.py:11-25). Its pick from the seeded
 * generator is a parameter here: `draw` indexes the seven tetrominoes. What is modelled is
 * the optional block budget, which allows N shapes and then raises BlockLimitException.
 */
module Adversaries {
  import opened Shapes

  /** `list(Shape)[:-1]`: every shape but the bomb, which is declared last. */
  const Tetrominoes: seq<Shape> := AllShapes[..|AllShapes| - 1]

  /** The outcome of one `choose_block` call: a shape and the budget left, or the
      BlockLimitException. */
  datatype Pick = Chosen(shape: Shape, blocks: Option<int>) | LimitReached

  /** `choose_block`: no budget never raises; a budget of 0 raises and stays 0; any other
      budget is decremented and a tetromino is chosen. */
  function Choose(blocks: Option<int>, draw: nat): (r: Pick)
    requires draw < |Tetrominoes|
    ensures r.LimitReached? <==> blocks == Some(0)
    ensures r.Chosen? ==> r.shape == Tetrominoes[draw] && r.shape != B
    ensures r.Chosen? && blocks.Some? ==> r.blocks == Some(blocks.value - 1)
    ensures blocks.None? ==> r == Chosen(Tetrominoes[draw], None)
  {
    if blocks.Some? && blocks.value == 0 then LimitReached
    else Chosen(Tetrominoes[draw], if blocks.Some? then Some(blocks.value - 1) else None)
  }

  /** The shapes a run of calls returns, and the budget left, until the first call that
      raises; `raised` says whether one did. */
  datatype Run = Run(shapes: seq<Shape>, blocks: Option<int>, raised: bool)

  /** Every draw picks one of the seven tetrominoes. */
  predicate ValidDraws(draws: seq<nat>)
  {
    forall i :: 0 <= i < |draws| ==> draws[i] < |Tetrominoes|
  }

  /** One call per draw, stopping at the first BlockLimitException. */
  function ChooseAll(blocks: Option<int>, draws: seq<nat>): Run
    requires ValidDraws(draws)
    decreases |draws|
  {
    if |draws| == 0 then Run([], blocks, false)
    else match Choose(blocks, draws[0])
      case LimitReached => Run([], blocks, true)
      case Chosen(shape, rest) =>
        var r := ChooseAll(rest, draws[1..]);
        Run([shape] + r.shapes, r.blocks, r.raised)
  }

  /** Without a budget no call raises, and every draw yields its tetromino. */
  lemma {:induction false} UnlimitedNeverRaises(draws: seq<nat>)
    requires ValidDraws(draws)
    ensures var r := ChooseAll(None, draws);
      !r.raised && r.blocks == None && |r.shapes| == |draws| &&
      forall i :: 0 <= i < |draws| ==> r.shapes[i] == Tetrominoes[draws[i]]
  {
    if |draws| > 0 {
      UnlimitedNeverRaises(draws[1..]);
    }
  }

  /** With a budget of n >= 0, the first n calls return a shape each, the count falls by
      one per call and is never negative; the call after them raises. */
  lemma {:induction false} BudgetAllowsExactly(n: int, draws: seq<nat>)
    requires n >= 0 && ValidDraws(draws)
    ensures var r := ChooseAll(Some(n), draws);
      (|draws| <= n ==> !r.raised && |r.shapes| == |draws| && r.blocks == Some(n - |draws|)) &&
      (|draws| > n ==> r.raised && |r.shapes| == n && r.blocks == Some(0))
    ensures var r := ChooseAll(Some(n), draws);
      r.blocks.Some? && r.blocks.value >= 0 && forall s :: s in r.shapes ==> s != B
  {
    if |draws| > 0 && n > 0 {
      BudgetAllowsExactly(n - 1, draws[1..]);
    }
  }

  /** `RandomAdversary` (adversary.py:11-25): `blocks` is None for no limit. */
  class RandomAdversary {
    var blocks: Option<int>

    constructor(budget: Option<int>)
      ensures blocks == budget
    {
      blocks := budget;
    }

    /** `choose_block`: the BlockLimitException is the result None, and leaves `blocks`
        at 0. */
    method ChooseBlock(draw: nat) returns (r: Option<Shape>)
      requires draw < |Tetrominoes|
      modifies this
      ensures match Choose(old(blocks), draw)
        case LimitReached => r == None && blocks == old(blocks)
        case Chosen(shape, rest) => r == Some(shape) && blocks == rest
    {
      if blocks.Some? {
        if blocks.value == 0 {
          return None;
        } else {
          blocks := Some(blocks.value - 1);
        }
      }
      r := Some(Tetrominoes[draw]);
    }
  }
}
