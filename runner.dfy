/**
  The turn loop of engine.py's run_game: strategies are asked for moves in
  turn until the game has a winner or the move cap board_size^2 is reached;
  any misbehaving strategy loses the game for its player.
 */
module Runner {
  import opened Wrappers
  import opened Grid
  import opened Lines
  import opened Engine

  /**
    What a strategy call can produce: a coordinate pair (after int()
    conversion), a value that is not a list or tuple of length two, or a
    raised exception (a failing int() conversion included).
   */
  datatype Response = Coordinates(x: int, y: int) | Malformed | Raised

  /** A loaded `get_move(board, color)`: the board copy and the colour to move decide the response. */
  type Strategy = (Board, Color) -> Response

  datatype Player = Player1 | Player2

  datatype Fault =
    | LoadFailed(culprit: Player)
    | InvalidFormat(culprit: Player)
    | InvalidMove(culprit: Player, x: int, y: int)
    | RaisedException(culprit: Player)

  datatype Verdict = Winner(player: Player) | Draw

  /**
    The dictionary run_game returns: either the game was played out (the
    verdict and the history) or it ended on a fault (the winner and why).
   */
  datatype GameResult =
    | Played(verdict: Verdict, history: seq<Move>)
    | Forfeited(winner: Player, fault: Fault)

  function Rival(p: Player): Player {
    if p == Player1 then Player2 else Player1
  }

  /** The `players` mapping: player1 plays black iff `player1Black` (the outcome of `random.random() < 0.5`). */
  function PlayerOf(c: Color, player1Black: bool): Player {
    if (c == Black) == player1Black then Player1 else Player2
  }

  /** The strategy playing colour c: player1's when the colour draw gave it c, else player2's. */
  function StrategyOf(c: Color, player1Black: bool, s1: Strategy, s2: Strategy): Strategy {
    if PlayerOf(c, player1Black) == Player1 then s1 else s2
  }

  /**
    Every move of h is what the strategy of its colour answered when given
    the board as it stood before that move (the replay of the earlier moves).
   */
  predicate Answered(n: nat, h: seq<Move>, player1Black: bool, s1: Strategy, s2: Strategy)
    requires OnBoard(n, h)
  {
    forall k :: 0 <= k < |h| ==>
      StrategyOf(h[k].color, player1Black, s1, s2)(Replay(n, h[..k]), h[k].color) == Coordinates(h[k].x, h[k].y)
  }

  /** The response that ends a game on the fault f: a malformed value, a raised error or the rejected coordinates. */
  predicate CausedBy(f: Fault, response: Response) {
    match f
    case LoadFailed(_) => false
    case InvalidFormat(_) => response == Malformed
    case RaisedException(_) => response == Raised
    case InvalidMove(_, x, y) => response == Coordinates(x, y)
  }

  /** One more answered move, made on the board the earlier moves left, keeps the history answered. */
  lemma AnsweredAfterMove(n: nat, h: seq<Move>, player1Black: bool, s1: Strategy, s2: Strategy, m: Move)
    requires OnBoard(n, h) && InBounds(n, m.x, m.y) && Answered(n, h, player1Black, s1, s2)
    requires StrategyOf(m.color, player1Black, s1, s2)(Replay(n, h), m.color) == Coordinates(m.x, m.y)
    ensures Answered(n, h + [m], player1Black, s1, s2)
  {
    var h' := h + [m];
    assert OnBoard(n, h');
    assert h'[..|h|] == h;
    forall k | 0 <= k < |h|
      ensures h'[..k] == h[..k] && h'[k] == h[k]
    {
    }
  }

  /**
    A history that a game can produce on an n x n board: every move is on
    the board and lands on an empty cell, and colours alternate from black.
   */
  predicate LegalHistory(n: nat, h: seq<Move>) {
    OnBoard(n, h)
    && (forall k :: 0 <= k < |h| ==> h[k].color == ColorAt(k))
    && Stones(Replay(n, h)) == |h|
  }

  /**
    What the game state says once the turn loop has ended: the history is
    legal and within the move cap, a winner made the last move and that
    move completed five, and with no winner every cell is filled.
   */
  lemma FinishedGame(n: nat, cells: Board, h: seq<Move>, currentPlayer: Color, winner: Option<Color>)
    requires Consistent(n, cells, h, currentPlayer, winner)
    requires winner.None? ==> |h| >= n * n
    ensures LegalHistory(n, h) && |h| <= n * n
    ensures winner.Some? ==>
      && |h| > 0 && h[|h| - 1].color == winner.value
      && WinAt(Replay(n, h), h[|h| - 1].x, h[|h| - 1].y, StoneOf(winner.value))
    ensures winner.None? ==> |h| == n * n && Full(Replay(n, h))
    ensures winner.Some? ==> NoFiveBefore(n, h, |h| - 1)
    ensures winner.None? ==> NoFiveBefore(n, h, |h|)
  {
    FullIffAllStones(cells, n);
  }

  /**
    One pass of run_game's loop body: the mover's strategy is asked for a
    move on a copy of the board, and the move is played. On a fault the
    game is left as it was and the fault names the mover's player and the
    response that caused it; otherwise the move was accepted.
   */
  method Turn(game: Game, player1Black: bool, s1: Strategy, s2: Strategy) returns (fault: Option<Fault>)
    requires game.Valid() && game.winner.None?
    requires Answered(Side(game.boardSize), game.history, player1Black, s1, s2)
    modifies game, game.board
    ensures game.Valid() && game.board == old(game.board)
    ensures Answered(Side(game.boardSize), game.history, player1Black, s1, s2)
    ensures fault.None? ==> |game.history| == old(|game.history|) + 1
    ensures fault.None? ==> (game.winner.Some? <==> Wins(Side(game.boardSize), game.history, |game.history| - 1))
    ensures fault.Some? ==>
      var n, h, mover := Side(game.boardSize), game.history, ColorAt(|game.history|);
      && h == old(game.history) && game.winner.None?
      && fault.value.culprit == PlayerOf(mover, player1Black)
      && CausedBy(fault.value, StrategyOf(mover, player1Black, s1, s2)(Replay(n, h), mover))
      && (fault.value.InvalidMove? ==>
            !InBounds(game.boardSize, fault.value.x, fault.value.y) || Replay(n, h)[fault.value.x][fault.value.y] != 0)
  {
    var mover := game.currentPlayer;
    var moveFn := StrategyOf(mover, player1Black, s1, s2);
    var name := PlayerOf(mover, player1Black);
    var boardCopy := game.GetBoardCopy();
    var response := moveFn(boardCopy, mover);
    ghost var h := game.history;
    assert mover == ColorAt(|h|);
    assert boardCopy == Replay(Side(game.boardSize), h);
    assert response == StrategyOf(mover, player1Black, s1, s2)(Replay(Side(game.boardSize), h), mover);
    match response {
      case Malformed =>
        fault := Some(InvalidFormat(name));
      case Raised =>
        fault := Some(RaisedException(name));
      case Coordinates(x, y) =>
        var ok := game.MakeMove(x, y);
        if !ok {
          fault := Some(InvalidMove(name, x, y));
        } else {
          AnsweredAfterMove(Side(game.boardSize), h, player1Black, s1, s2, Move(mover, x, y));
          WinsLast(Side(game.boardSize), game.history);
          fault := None;
        }
    }
  }

  /**
    run_game with the loading and the colour draw taken as inputs
    (`player1`/`player2` are None when loading failed). The ghost `log` is
    the game's history when run_game returns, also on a fault.
   */
  method RunGame(player1: Option<Strategy>, player2: Option<Strategy>, player1Black: bool, boardSize: int)
    returns (r: GameResult, ghost log: seq<Move>)
    ensures player1.None? ==> r == Forfeited(Player2, LoadFailed(Player1))
    ensures player1.Some? && player2.None? ==> r == Forfeited(Player1, LoadFailed(Player2))
    ensures r.Forfeited? ==> r.winner == Rival(r.fault.culprit)
    ensures r.Forfeited? && r.fault.LoadFailed? <==> player1.None? || player2.None?
    ensures r.Forfeited? && !r.fault.LoadFailed? ==>
      && LegalHistory(Side(boardSize), log)
      && |log| < boardSize * boardSize
      && r.fault.culprit == PlayerOf(ColorAt(|log|), player1Black)
    ensures r.Forfeited? && r.fault.InvalidMove? ==>
      var (x, y) := (r.fault.x, r.fault.y);
      !InBounds(boardSize, x, y) || Replay(Side(boardSize), log)[x][y] != 0
    ensures player1.Some? && player2.Some? ==>
      && OnBoard(Side(boardSize), log)
      && Answered(Side(boardSize), log, player1Black, player1.value, player2.value)
    ensures r.Forfeited? && !r.fault.LoadFailed? ==>
      var mover := ColorAt(|log|);
      && player1.Some? && player2.Some? && OnBoard(Side(boardSize), log)
      && CausedBy(r.fault, StrategyOf(mover, player1Black, player1.value, player2.value)(Replay(Side(boardSize), log), mover))
    ensures r.Played? ==> player1.Some? && player2.Some? && log == r.history
    ensures r.Played? ==> |r.history| <= boardSize * boardSize && LegalHistory(Side(boardSize), r.history)
    ensures r.Played? && r.verdict.Winner? ==>
      var h := r.history;
      && |h| > 0
      && PlayerOf(h[|h| - 1].color, player1Black) == r.verdict.player
      && WinAt(Replay(Side(boardSize), h), h[|h| - 1].x, h[|h| - 1].y, StoneOf(h[|h| - 1].color))
    ensures r.Played? && r.verdict.Draw? ==>
      |r.history| == boardSize * boardSize && Full(Replay(Side(boardSize), r.history))
    ensures r.Played? ==> NoFiveBefore(Side(boardSize), r.history, |r.history| - 1)
    ensures r.Played? && r.verdict.Draw? ==> NoFiveBefore(Side(boardSize), r.history, |r.history|)
    ensures r.Forfeited? && !r.fault.LoadFailed? ==> NoFiveBefore(Side(boardSize), log, |log|)
  {
    log := [];
    if player1.None? {
      return Forfeited(Player2, LoadFailed(Player1)), log;
    }
    if player2.None? {
      return Forfeited(Player1, LoadFailed(Player2)), log;
    }
    var game := new Game(boardSize);
    var maxMoves := boardSize * boardSize;
    var moveCount := 0;
    while game.winner == None && moveCount < maxMoves
      invariant fresh(game) && fresh(game.board)
      invariant game.Valid() && game.boardSize == boardSize
      invariant moveCount == |game.history|
      invariant Answered(Side(boardSize), game.history, player1Black, player1.value, player2.value)
      decreases maxMoves - moveCount
    {
      var fault := Turn(game, player1Black, player1.value, player2.value);
      if fault.Some? {
        log := game.history;
        return Forfeited(Rival(fault.value.culprit), fault.value), log;
      }
      moveCount := moveCount + 1;
    }

    FinishedGame(Side(boardSize), game.cells, game.history, game.currentPlayer, game.winner);
    log := game.history;
    if game.winner.Some? {
      r := Played(Winner(PlayerOf(game.winner.value, player1Black)), game.history);
    } else {
      r := Played(Draw, game.history);
    }
  }
}
