/**
 * The turn loop (board.py:451-533): `run` alternates the adversary's choice of the next
 * shape with the player's actions until the adversary's budget runs out, a new block
 * collides, or an action raises. The adversary's picks and the player's replies are given
 * as finite sequences: one draw per `choose_block` call and one action list per
 * `choose_action` call. The game is also cut short, with an end of its own, when either
 * sequence runs out.
 */
module Game {
  import opened Shapes
  import opened Pieces
  import opened Rules
  import opened Laws
  import opened Adversaries
  import opened Engine

  /** What `run` yields: the shape of each new block, and each action after it is done. */
  datatype Event = Spawned(shape: Shape) | Played(action: Action)

  /** How a game ends: the adversary's BlockLimitException, a collision of the new block
      (`alive` false), an exception of an action, or the end of the given draws or replies. */
  datatype End = BlockLimit | GameOver | Crashed(fault: Fault) | OutOfDraws | OutOfReplies

  /** The events a game yields, how it ends, the final board and the budget left. */
  datatype Outcome = Outcome(trace: seq<Event>, end: End, state: State, blocks: Option<int>)

  /** The events `events` followed by the game `o`. */
  function Prepend(events: seq<Event>, o: Outcome): Outcome
  {
    o.(trace := events + o.trace)
  }

  /** The state after `run_adversary` chose `shape`. */
  function WithNext(s: State, shape: Shape): State
  {
    s.(next := Some(NewPiece(shape)))
  }

  /** `run` (board.py:510-533): the first shape is chosen and placed, then the rounds. */
  ghost function Run(s: State, blocks: Option<int>, draws: seq<nat>, replies: seq<seq<Action>>): Outcome
    requires Consistent(s) && ValidDraws(draws)
  {
    if |draws| == 0 then Outcome([], OutOfDraws, s, blocks)
    else match Choose(blocks, draws[0])
      case LimitReached => Outcome([], BlockLimit, s, blocks)
      case Chosen(shape, left) =>
        PromoteConsistent(s, shape);
        Prepend([Spawned(shape)], Rounds(PlaceNext(WithNext(s, shape)), left, draws[1..], replies))
  }

  /** The loop of `run` (board.py:524-533): a new next shape, the `alive` check, and the
      player's turn. */
  ghost function Rounds(s: State, blocks: Option<int>, draws: seq<nat>, replies: seq<seq<Action>>): Outcome
    requires Consistent(s) && ValidDraws(draws)
    decreases |draws|, |replies|, 0, 0
  {
    if |draws| == 0 then Outcome([], OutOfDraws, s, blocks)
    else match Choose(blocks, draws[0])
      case LimitReached => Outcome([], BlockLimit, s, blocks)
      case Chosen(shape, left) =>
        var s' := WithNext(s, shape);
        Prepend([Spawned(shape)],
          if !Alive(s') then Outcome([], GameOver, s', left) else Turn(s', left, draws[1..], replies))
  }

  /** `run_player` (board.py:469-508): ask the player for a reply, as often as needed. */
  ghost function Turn(s: State, blocks: Option<int>, draws: seq<nat>, replies: seq<seq<Action>>): Outcome
    requires Consistent(s) && ValidDraws(draws)
    decreases |draws|, |replies|, 0, 2
  {
    if |replies| == 0 then Outcome([], OutOfReplies, s, blocks)
    else Reply(s, blocks, draws, replies[0], replies[1..])
  }

  /** The actions of one reply; when it runs out without a landing, the player is asked
      again. */
  ghost function Reply(s: State, blocks: Option<int>, draws: seq<nat>, acts: seq<Action>, rest: seq<seq<Action>>): Outcome
    requires Consistent(s) && ValidDraws(draws)
    decreases |draws|, |rest|, |acts|, 3
  {
    if |acts| == 0 then Turn(s, blocks, draws, rest)
    else Dispatch(s, blocks, draws, acts, rest)
  }

  /** The first action of a reply: an exception ends the game; otherwise the action is
      yielded, and a landing ends the turn (board.py:492-508). */
  ghost function Dispatch(s: State, blocks: Option<int>, draws: seq<nat>, acts: seq<Action>, rest: seq<seq<Action>>): Outcome
    requires Consistent(s) && ValidDraws(draws) && |acts| > 0
    decreases |draws|, |rest|, |acts|, 2
  {
    ActConsistent(s, acts[0]);
    var st := Act(s, acts[0]);
    match st.reply
    case Raised(f) => Outcome([], Crashed(f), st.state, blocks)
    case Done(landed) =>
      Prepend([Played(acts[0])],
        if landed then Rounds(st.state, blocks, draws, rest) else Reply(st.state, blocks, draws, acts[1..], rest))
  }

  /** A chosen shape, placed by `place_next_block`, starts a consistent board. */
  lemma PromoteConsistent(s: State, shape: Shape)
    requires Consistent(s)
    ensures Consistent(WithNext(s, shape)) && |NewPiece(shape).cells| > 0
    ensures Consistent(PlaceNext(WithNext(s, shape)))
  {
    CenteredOnBoard(shape);
  }

  lemma PrependTwice(a: seq<Event>, b: seq<Event>, o: Outcome)
    ensures Prepend(a, Prepend(b, o)) == Prepend(a + b, o)
  {
    assert a + (b + o.trace) == (a + b) + o.trace;
  }

  /** An exhausted reply leads to the next one. */
  lemma TurnOnEmpty(s: State, blocks: Option<int>, draws: seq<nat>, rest: seq<seq<Action>>)
    requires Consistent(s) && ValidDraws(draws)
    ensures Turn(s, blocks, draws, [[]] + rest) == Turn(s, blocks, draws, rest)
  {
    assert ([[]] + rest)[0] == [] && ([[]] + rest)[1..] == rest;
  }

  /** A reply that is not empty starts with its first action. */
  lemma TurnOnAction(s: State, blocks: Option<int>, draws: seq<nat>, acts: seq<Action>, rest: seq<seq<Action>>)
    requires Consistent(s) && ValidDraws(draws) && |acts| > 0
    ensures Turn(s, blocks, draws, [acts] + rest) == Dispatch(s, blocks, draws, acts, rest)
  {
    assert ([acts] + rest)[0] == acts && ([acts] + rest)[1..] == rest;
    assert Turn(s, blocks, draws, [acts] + rest) == Reply(s, blocks, draws, acts, rest);
  }

  /** The number of new blocks in a trace. */
  function Spawns(trace: seq<Event>): (n: nat)
    ensures n <= |trace|
  {
    if |trace| == 0 then 0 else (if trace[0].Spawned? then 1 else 0) + Spawns(trace[1..])
  }

  /** What every game promises, from a start with score `score`, budget `blocks` and the
      draws `draws`: the final board keeps the engine invariant and has not lost score; a
      game over means the last block collides; the adversary never sends the bomb; each new
      block takes one draw and one unit of the budget, and the budget runs out only at 0. */
  ghost predicate Sound(score: int, blocks: Option<int>, draws: seq<nat>, o: Outcome)
  {
    Consistent(o.state) && o.state.score >= score &&
    (o.end == GameOver ==> !Alive(o.state)) &&
    (forall i :: 0 <= i < |o.trace| && o.trace[i].Spawned? ==> o.trace[i].shape != B) &&
    Spawns(o.trace) <= |draws| && (o.end == OutOfDraws ==> Spawns(o.trace) == |draws|) &&
    (o.end == BlockLimit ==> o.blocks == Some(0)) &&
    (blocks.None? ==> o.blocks.None?) &&
    (blocks.Some? ==> o.blocks.Some? && Spawns(o.trace) == blocks.value - o.blocks.value) &&
    (blocks.Some? && blocks.value >= 0 ==> o.blocks.value >= 0)
  }

  /** A new block in front of a sound game. */
  lemma SpawnSound(score: int, blocks: Option<int>, draws: seq<nat>, o: Outcome)
    requires ValidDraws(draws) && |draws| > 0 && Choose(blocks, draws[0]).Chosen?
    requires Sound(score, Choose(blocks, draws[0]).blocks, draws[1..], o)
    ensures Sound(score, blocks, draws, Prepend([Spawned(Choose(blocks, draws[0]).shape)], o))
  {
    var t := [Spawned(Choose(blocks, draws[0]).shape)] + o.trace;
    assert t[1..] == o.trace;
    assert forall i :: 1 <= i < |t| ==> t[i] == o.trace[i - 1];
  }

  /** A done action in front of a sound game that started no lower. */
  lemma PlaySound(score: int, score': int, blocks: Option<int>, draws: seq<nat>, a: Action, o: Outcome)
    requires score <= score' && Sound(score', blocks, draws, o)
    ensures Sound(score, blocks, draws, Prepend([Played(a)], o))
  {
    var t := [Played(a)] + o.trace;
    assert t[1..] == o.trace;
    assert forall i :: 1 <= i < |t| ==> t[i] == o.trace[i - 1];
  }

  /** Every game `run` plays is sound, and, unless the budget was 0 or there was no draw,
      its first event is the adversary's first pick. */
  lemma {:induction false} RunSound(s: State, blocks: Option<int>, draws: seq<nat>, replies: seq<seq<Action>>)
    requires Consistent(s) && ValidDraws(draws)
    ensures Sound(s.score, blocks, draws, Run(s, blocks, draws, replies))
    ensures |draws| > 0 && blocks != Some(0) ==> Run(s, blocks, draws, replies).trace[0] == Spawned(Tetrominoes[draws[0]])
  {
    if |draws| > 0 {
      match Choose(blocks, draws[0])
      case LimitReached =>
      case Chosen(shape, left) =>
        PromoteConsistent(s, shape);
        RoundsSound(PlaceNext(WithNext(s, shape)), left, draws[1..], replies);
        SpawnSound(s.score, blocks, draws, Rounds(PlaceNext(WithNext(s, shape)), left, draws[1..], replies));
    }
  }

  lemma {:induction false} RoundsSound(s: State, blocks: Option<int>, draws: seq<nat>, replies: seq<seq<Action>>)
    requires Consistent(s) && ValidDraws(draws)
    ensures Sound(s.score, blocks, draws, Rounds(s, blocks, draws, replies))
    decreases |draws|, |replies|, 0, 0
  {
    if |draws| > 0 {
      match Choose(blocks, draws[0])
      case LimitReached =>
      case Chosen(shape, left) =>
        var s' := WithNext(s, shape);
        PromoteConsistent(s, shape);
        if Alive(s') {
          TurnSound(s', left, draws[1..], replies);
        }
        SpawnSound(s.score, blocks, draws,
          if !Alive(s') then Outcome([], GameOver, s', left) else Turn(s', left, draws[1..], replies));
    }
  }

  lemma {:induction false} TurnSound(s: State, blocks: Option<int>, draws: seq<nat>, replies: seq<seq<Action>>)
    requires Consistent(s) && ValidDraws(draws)
    ensures Sound(s.score, blocks, draws, Turn(s, blocks, draws, replies))
    decreases |draws|, |replies|, 0, 2
  {
    if |replies| > 0 {
      ReplySound(s, blocks, draws, replies[0], replies[1..]);
    }
  }

  lemma {:induction false} ReplySound(s: State, blocks: Option<int>, draws: seq<nat>, acts: seq<Action>, rest: seq<seq<Action>>)
    requires Consistent(s) && ValidDraws(draws)
    ensures Sound(s.score, blocks, draws, Reply(s, blocks, draws, acts, rest))
    decreases |draws|, |rest|, |acts|, 3
  {
    if |acts| == 0 {
      TurnSound(s, blocks, draws, rest);
    } else {
      DispatchSound(s, blocks, draws, acts, rest);
    }
  }

  lemma {:induction false} DispatchSound(s: State, blocks: Option<int>, draws: seq<nat>, acts: seq<Action>, rest: seq<seq<Action>>)
    requires Consistent(s) && ValidDraws(draws) && |acts| > 0
    ensures Sound(s.score, blocks, draws, Dispatch(s, blocks, draws, acts, rest))
    decreases |draws|, |rest|, |acts|, 2
  {
    ActConsistent(s, acts[0]);
    ScoreNeverFalls(s, acts[0]);
    var st := Act(s, acts[0]);
    match st.reply
    case Raised(f) =>
    case Done(landed) =>
      if landed {
        RoundsSound(st.state, blocks, draws, rest);
      } else {
        ReplySound(st.state, blocks, draws, acts[1..], rest);
      }
      PlaySound(s.score, st.state.score, blocks, draws, acts[0],
        if landed then Rounds(st.state, blocks, draws, rest) else Reply(st.state, blocks, draws, acts[1..], rest));
  }

  /** One action of a reply, on the state `s`: what it does to the rest of the turn. */
  lemma ActionStep(s: State, blocks: Option<int>, draws: seq<nat>, acts: seq<Action>, rest: seq<seq<Action>>)
    requires Consistent(s) && ValidDraws(draws) && |acts| > 0
    ensures Consistent(Act(s, acts[0]).state)
    ensures var st := Act(s, acts[0]);
      (st.reply.Raised? ==> Turn(s, blocks, draws, [acts] + rest) == Outcome([], Crashed(st.reply.fault), st.state, blocks)) &&
      (st.reply == Done(true) ==>
        Turn(s, blocks, draws, [acts] + rest) == Prepend([Played(acts[0])], Rounds(st.state, blocks, draws, rest))) &&
      (st.reply == Done(false) ==>
        Turn(s, blocks, draws, [acts] + rest) == Prepend([Played(acts[0])], Turn(st.state, blocks, draws, [acts[1..]] + rest)))
  {
    ActConsistent(s, acts[0]);
    TurnOnAction(s, blocks, draws, acts, rest);
    var st := Act(s, acts[0]);
    assert ([acts[1..]] + rest)[0] == acts[1..] && ([acts[1..]] + rest)[1..] == rest;
  }

  /** One action of `run_player` (board.py:492-508) on the board, which is in the state `s`;
      `acts` is what is left of the current reply, `rest` the later replies and `goal` the
      game as a whole, of which `events` have been yielded. */
  method PlayAction(board: Board, ghost s: State, ghost blocks: Option<int>, ghost draws: seq<nat>,
                    acts: seq<Action>, ghost rest: seq<seq<Action>>, events: seq<Event>, ghost goal: Outcome)
    returns (r: Reply, events': seq<Event>)
    requires board.Valid() && board.Model() == s && ValidDraws(draws) && |acts| > 0
    requires goal == Prepend(events, Turn(s, blocks, draws, [acts] + rest))
    modifies board, board.cells, board.falling, board.next
    ensures board.Valid()
    ensures r.Raised? ==> events' == events && goal == Outcome(events, Crashed(r.fault), board.Model(), blocks)
    ensures r.Done? ==> events' == events + [Played(acts[0])]
    ensures r == Done(true) ==> goal == Prepend(events', Rounds(board.Model(), blocks, draws, rest))
    ensures r == Done(false) ==> goal == Prepend(events', Turn(board.Model(), blocks, draws, [acts[1..]] + rest))
    ensures board.cells == old(board.cells) || fresh(board.cells)
    ensures board.falling == null || board.falling == old(board.falling) || board.falling == old(board.next) || fresh(board.falling)
    ensures board.next == null || board.next == old(board.next) || fresh(board.next)
  {
    ActionStep(s, blocks, draws, acts, rest);
    r := board.DoAction(acts[0]);
    events' := events;
    if r.Done? {
      events' := events + [Played(acts[0])];
      PrependTwice(events, [Played(acts[0])], if r.landed then Rounds(board.Model(), blocks, draws, rest)
        else Turn(board.Model(), blocks, draws, [acts[1..]] + rest));
    }
  }

  /** The actions of one reply (board.py:491-508), in order, until one lands or raises. */
  method PlayReply(board: Board, ghost s: State, ghost blocks: Option<int>, ghost draws: seq<nat>,
                   actions: seq<Action>, ghost rest: seq<seq<Action>>, events: seq<Event>, ghost goal: Outcome)
    returns (events': seq<Event>, landed: bool, stop: Option<End>)
    requires board.Valid() && board.Model() == s && ValidDraws(draws)
    requires goal == Prepend(events, Turn(s, blocks, draws, [actions] + rest))
    modifies board, board.cells, board.falling, board.next
    ensures board.Valid()
    ensures stop.Some? ==> !landed && goal == Outcome(events', stop.value, board.Model(), blocks)
    ensures landed ==> goal == Prepend(events', Rounds(board.Model(), blocks, draws, rest))
    ensures !landed && stop.None? ==> goal == Prepend(events', Turn(board.Model(), blocks, draws, rest))
    ensures board.cells == old(board.cells) || fresh(board.cells)
    ensures board.falling == null || board.falling == old(board.falling) || board.falling == old(board.next) || fresh(board.falling)
    ensures board.next == null || board.next == old(board.next) || fresh(board.next)
  {
    ghost var sb := s;
    events', landed, stop := events, false, None;
    var i := 0;
    while i < |actions| && !landed && stop.None?
      invariant 0 <= i <= |actions|
      invariant board.Valid() && board.Model() == sb
      invariant !landed && stop.None? ==> goal == Prepend(events', Turn(sb, blocks, draws, [actions[i..]] + rest))
      invariant landed ==> stop.None? && goal == Prepend(events', Rounds(sb, blocks, draws, rest))
      invariant stop.Some? ==> goal == Outcome(events', stop.value, sb, blocks)
      invariant board.cells == old(board.cells) || fresh(board.cells)
      invariant board.falling == null || board.falling == old(board.falling) || board.falling == old(board.next) || fresh(board.falling)
      invariant board.next == null || board.next == old(board.next) || fresh(board.next)
    {
      var r;
      assert actions[i..][1..] == actions[i + 1..];
      r, events' := PlayAction(board, sb, blocks, draws, actions[i..], rest, events', goal);
      sb := board.Model();
      if r.Raised? {
        stop := Some(Crashed(r.fault));
      } else {
        landed := r.landed;
      }
      i := i + 1;
    }
    if !landed && stop.None? {
      assert actions[i..] == [];
      TurnOnEmpty(sb, blocks, draws, rest);
    }
  }

  /** `run_player` (board.py:469-508): replies are taken in order until an action lands or
      raises; `rest` is what is left of `replies`. */
  method RunPlayer(board: Board, ghost s: State, ghost blocks: Option<int>, ghost draws: seq<nat>,
                   replies: seq<seq<Action>>) returns (events: seq<Event>, stop: Option<End>, rest: seq<seq<Action>>)
    requires board.Valid() && board.Model() == s && ValidDraws(draws)
    modifies board, board.cells, board.falling, board.next
    ensures board.Valid()
    ensures stop.Some? ==> Turn(s, blocks, draws, replies) == Outcome(events, stop.value, board.Model(), blocks)
    ensures stop.None? ==> Turn(s, blocks, draws, replies) == Prepend(events, Rounds(board.Model(), blocks, draws, rest))
    ensures board.cells == old(board.cells) || fresh(board.cells)
    ensures board.falling == null || board.falling == old(board.falling) || board.falling == old(board.next) || fresh(board.falling)
    ensures board.next == null || board.next == old(board.next) || fresh(board.next)
  {
    ghost var goal := Turn(s, blocks, draws, replies);
    events, stop, rest := [], None, replies;
    var landed := false;
    assert goal == Prepend(events, Turn(board.Model(), blocks, draws, rest));
    while !landed && stop.None?
      invariant board.Valid()
      invariant !landed && stop.None? ==> goal == Prepend(events, Turn(board.Model(), blocks, draws, rest))
      invariant landed ==> stop.None? && goal == Prepend(events, Rounds(board.Model(), blocks, draws, rest))
      invariant stop.Some? ==> goal == Outcome(events, stop.value, board.Model(), blocks)
      invariant board.cells == old(board.cells) || fresh(board.cells)
      invariant board.falling == null || board.falling == old(board.falling) || board.falling == old(board.next) || fresh(board.falling)
      invariant board.next == null || board.next == old(board.next) || fresh(board.next)
      decreases |rest|, if landed || stop.Some? then 0 else 1
    {
      if |rest| == 0 {
        stop := Some(OutOfReplies);
      } else {
        assert rest == [rest[0]] + rest[1..];
        events, landed, stop := PlayReply(board, board.Model(), blocks, draws, rest[0], rest[1..], events, goal);
        rest := rest[1..];
      }
    }
  }

  /** One round of `run` (board.py:526-533): the adversary picks `draws[0]`, the game is
      over if the falling block collides, and otherwise the player takes a turn. */
  method PlayRound(board: Board, adversary: RandomAdversary, ghost draws: seq<nat>, draw: nat,
                   replies: seq<seq<Action>>, events: seq<Event>, ghost goal: Outcome)
    returns (events': seq<Event>, stop: Option<End>, rest: seq<seq<Action>>)
    requires board.Valid() && ValidDraws(draws) && |draws| > 0 && draws[0] == draw
    requires goal == Prepend(events, Rounds(board.Model(), adversary.blocks, draws, replies))
    modifies board, board.cells, board.falling, board.next, adversary
    ensures board.Valid()
    ensures stop.Some? ==> goal == Outcome(events', stop.value, board.Model(), adversary.blocks)
    ensures stop.None? ==> goal == Prepend(events', Rounds(board.Model(), adversary.blocks, draws[1..], rest))
    ensures board.cells == old(board.cells) || fresh(board.cells)
    ensures board.falling == null || board.falling == old(board.falling) || board.falling == old(board.next) || fresh(board.falling)
    ensures board.next == null || board.next == old(board.next) || fresh(board.next)
  {
    ghost var s := board.Model();
    events', rest := events, replies;
    var shape := board.RunAdversary(adversary, draw);
    if shape.None? {
      return events, Some(BlockLimit), replies;
    }
    PromoteConsistent(s, shape.value);
    PrependTwice(events, [Spawned(shape.value)], if !Alive(board.Model())
      then Outcome([], GameOver, board.Model(), adversary.blocks)
      else Turn(board.Model(), adversary.blocks, draws[1..], replies));
    events' := events + [Spawned(shape.value)];
    var alive := board.Alive();
    if !alive {
      return events', Some(GameOver), replies;
    }
    var played;
    played, stop, rest := RunPlayer(board, board.Model(), adversary.blocks, draws[1..], replies);
    PrependTwice(events', played, Rounds(board.Model(), adversary.blocks, draws[1..], rest));
    events' := events' + played;
  }

  /** The loop of `run` (board.py:524-533) on the board and the adversary: `draws[k]` is the
      adversary's pick in round k and `replies` the player's answers, in order. */
  method PlayRounds(board: Board, adversary: RandomAdversary, draws: seq<nat>, replies: seq<seq<Action>>)
    returns (events: seq<Event>, end: End)
    requires board.Valid() && ValidDraws(draws)
    modifies board, board.cells, board.falling, board.next, adversary
    ensures board.Valid()
    ensures Rounds(old(board.Model()), old(adversary.blocks), draws, replies) ==
      Outcome(events, end, board.Model(), adversary.blocks)
  {
    ghost var goal := Rounds(board.Model(), adversary.blocks, draws, replies);
    events := [];
    var later, rest, done := draws, replies, false;
    end := OutOfDraws;
    while !done
      invariant ValidDraws(later) && board.Valid()
      invariant !done ==> goal == Prepend(events, Rounds(board.Model(), adversary.blocks, later, rest))
      invariant done ==> goal == Outcome(events, end, board.Model(), adversary.blocks)
      invariant board.cells == old(board.cells) || fresh(board.cells)
      invariant board.falling == null || board.falling == old(board.falling) || board.falling == old(board.next) || fresh(board.falling)
      invariant board.next == null || board.next == old(board.next) || fresh(board.next)
      decreases |later|, if done then 0 else 1
    {
      if |later| == 0 {
        end, done := OutOfDraws, true;
      } else {
        var stop;
        events, stop, rest := PlayRound(board, adversary, later, later[0], rest, events, goal);
        if stop.Some? {
          end, done := stop.value, true;
        }
        later := later[1..];
      }
    }
  }

  /** `run` (board.py:510-533): the adversary picks the first shape, it is placed, and the
      rounds follow. */
  method RunGame(board: Board, adversary: RandomAdversary, draws: seq<nat>, replies: seq<seq<Action>>)
    returns (events: seq<Event>, end: End)
    requires board.Valid() && ValidDraws(draws)
    modifies board, board.cells, board.falling, board.next, adversary
    ensures board.Valid()
    ensures Run(old(board.Model()), old(adversary.blocks), draws, replies) ==
      Outcome(events, end, board.Model(), adversary.blocks)
  {
    if |draws| == 0 {
      return [], OutOfDraws;
    }
    ghost var s := board.Model();
    var shape := board.RunAdversary(adversary, draws[0]);
    if shape.None? {
      return [], BlockLimit;
    }
    PromoteConsistent(s, shape.value);
    board.PlaceNextBlock();
    var more;
    more, end := PlayRounds(board, adversary, draws[1..], replies);
    PrependTwice([Spawned(shape.value)], more, Rounds(PlaceNext(WithNext(s, shape.value)), adversary.blocks, draws[1..], replies));
    events := [Spawned(shape.value)] + more;
  }
}
