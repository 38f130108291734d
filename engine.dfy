/**
  The match engine's game object (engine.py, class GomokuGame): an N x N
  board of stones updated in place, the colour to move, an optional winner
  and the append-only move history. The board is a two-dimensional array;
  the ghost field `cells` is its value, kept equal to it by Valid().
 */
module Engine {
  import opened Wrappers
  import opened Grid
  import opened Lines

  datatype Color = Black | White

  /** `1 if colour == "black" else 2`. */
  function StoneOf(c: Color): int {
    if c == Black then 1 else 2
  }

  function Opponent(c: Color): Color {
    if c == Black then White else Black
  }

  /** The colour of the k-th accepted move (counting from 0): black moves first, then turns alternate. */
  function ColorAt(k: nat): Color {
    if k % 2 == 0 then Black else White
  }

  /** After each move the other colour is to move. */
  lemma ColorAtNext(k: nat)
    ensures ColorAt(k + 1) == Opponent(ColorAt(k))
  {
  }

  /** One history entry `(current_player, x, y)`. */
  datatype Move = Move(color: Color, x: int, y: int)

  /** The side of the board array: `[[0] * n for _ in range(n)]` is empty when n <= 0. */
  function Side(boardSize: int): nat {
    if boardSize < 0 then 0 else boardSize
  }

  /** Every move of h lies on an n x n board. */
  predicate OnBoard(n: nat, h: seq<Move>) {
    forall k :: 0 <= k < |h| ==> InBounds(n, h[k].x, h[k].y)
  }

  /** The board obtained by replaying the moves of h in order on an empty board. */
  function Replay(n: nat, h: seq<Move>): (b: Board)
    requires OnBoard(n, h)
    ensures IsBoard(b, n)
  {
    if h == [] then EmptyBoard(n)
    else
      var m := h[|h| - 1];
      Place(Replay(n, h[..|h| - 1]), m.x, m.y, StoneOf(m.color))
  }

  /**
    The history is a faithful log of the board b: replaying it gives b,
    each entry's cell holds that entry's stone, and b has one stone per entry.
   */
  predicate LogMatches(n: nat, h: seq<Move>, b: Board) {
    && OnBoard(n, h)
    && b == Replay(n, h)
    && (forall k :: 0 <= k < |h| ==> b[h[k].x][h[k].y] == StoneOf(h[k].color))
    && Stones(b) == |h|
  }

  /** Placing the mover's stone on an empty cell and logging the move keeps the log faithful. */
  lemma LogAfterMove(n: nat, h: seq<Move>, b: Board, m: Move)
    requires LogMatches(n, h, b)
    requires InBounds(n, m.x, m.y) && b[m.x][m.y] == 0
    ensures LogMatches(n, h + [m], Place(b, m.x, m.y, StoneOf(m.color)))
  {
    var h', b' := h + [m], Place(b, m.x, m.y, StoneOf(m.color));
    assert h'[..|h|] == h;
    assert forall k :: 0 <= k < |h| ==> h'[k] == h[k];
    assert OnBoard(n, h');
    forall k | 0 <= k < |h'|
      ensures b'[h'[k].x][h'[k].y] == StoneOf(h'[k].color)
    {
      if k < |h| {
        assert (h[k].x, h[k].y) != (m.x, m.y);
      }
    }
    StonesAfterPlace(b, m.x, m.y, StoneOf(m.color));
  }

  /** Move k of h completed five: the win test holds on the board right after it. */
  predicate Wins(n: nat, h: seq<Move>, k: int)
    requires OnBoard(n, h) && 0 <= k < |h|
  {
    assert OnBoard(n, h[..k + 1]);
    WinAt(Replay(n, h[..k + 1]), h[k].x, h[k].y, StoneOf(h[k].color))
  }

  /** None of the first m moves of h completed five. */
  predicate NoFiveBefore(n: nat, h: seq<Move>, m: int)
    requires OnBoard(n, h)
  {
    forall k :: 0 <= k < m && k < |h| ==> !Wins(n, h, k)
  }

  /** Whether a move completed five does not depend on the moves logged after it. */
  lemma WinsAfterAppend(n: nat, h: seq<Move>, m: Move, k: int)
    requires OnBoard(n, h + [m]) && 0 <= k < |h|
    ensures OnBoard(n, h) && Wins(n, h + [m], k) == Wins(n, h, k)
  {
    var h' := h + [m];
    assert forall j :: 0 <= j < |h| ==> h'[j] == h[j];
    assert h'[..k + 1] == h[..k + 1];
  }

  /** The last move completed five iff the win test holds for it on the current board. */
  lemma WinsLast(n: nat, h: seq<Move>)
    requires OnBoard(n, h) && |h| > 0
    ensures var m := h[|h| - 1]; Wins(n, h, |h| - 1) == WinAt(Replay(n, h), m.x, m.y, StoneOf(m.color))
  {
    assert h[..|h|] == h;
  }

  /**
    The game invariant on the state's values: the history replays to the
    board, each entry's cell holds that entry's stone, there are as many
    stones as entries, colours alternate starting with black, a winner is
    the author of the last move, which completed five, and no move before
    the one that ended the game (every move, while there is no winner)
    completed five.
   */
  predicate Consistent(n: nat, cells: Board, history: seq<Move>, currentPlayer: Color, winner: Option<Color>) {
    && LogMatches(n, history, cells)
    && (forall k :: 0 <= k < |history| ==> history[k].color == ColorAt(k))
    && (winner.None? ==> currentPlayer == ColorAt(|history|) && NoFiveBefore(n, history, |history|))
    && (winner.Some? ==> NoFiveBefore(n, history, |history| - 1))
    && (winner.Some? ==>
          |history| > 0 && currentPlayer == winner.value && history[|history| - 1].color == winner.value
          && WinAt(cells, history[|history| - 1].x, history[|history| - 1].y, StoneOf(winner.value)))
  }

  /**
    An accepted move keeps the state Consistent: the mover's stone lands on
    an empty cell, the move is logged, and either the mover wins (and keeps
    the turn) or the turn passes.
   */
  lemma ConsistentAfterMove(n: nat, cells: Board, history: seq<Move>, mover: Color, x: int, y: int, won: bool)
    requires Consistent(n, cells, history, mover, None)
    requires InBounds(n, x, y) && cells[x][y] == 0
    requires won == WinAt(Place(cells, x, y, StoneOf(mover)), x, y, StoneOf(mover))
    ensures Consistent(n, Place(cells, x, y, StoneOf(mover)), history + [Move(mover, x, y)],
                       if won then mover else Opponent(mover), if won then Some(mover) else None)
  {
    var h' := history + [Move(mover, x, y)];
    LogAfterMove(n, history, cells, Move(mover, x, y));
    assert forall k :: 0 <= k < |history| ==> h'[k] == history[k];
    ColorAtNext(|history|);
    NoFiveAfterMove(n, history, Move(mover, x, y));
  }

  /**
    Appending a move keeps the earlier moves' verdicts, and the new move
    completed five iff the win test holds for it once its stone is placed.
   */
  lemma NoFiveAfterMove(n: nat, h: seq<Move>, m: Move)
    requires OnBoard(n, h) && InBounds(n, m.x, m.y)
    ensures OnBoard(n, h + [m])
    ensures NoFiveBefore(n, h + [m], |h|) == NoFiveBefore(n, h, |h|)
    ensures Wins(n, h + [m], |h|) == WinAt(Place(Replay(n, h), m.x, m.y, StoneOf(m.color)), m.x, m.y, StoneOf(m.color))
  {
    var h' := h + [m];
    assert OnBoard(n, h');
    forall k | 0 <= k < |h|
      ensures Wins(n, h', k) == Wins(n, h, k)
    {
      WinsAfterAppend(n, h, m, k);
    }
    WinsLast(n, h');
    assert h'[..|h|] == h;
  }

  class Game {
    const boardSize: int
    var board: array2<int>
    var currentPlayer: Color
    var winner: Option<Color>
    var history: seq<Move>
    /** The value of `board`. */
    ghost var cells: Board

    /** The array has the configured side and `cells` is its value. */
    ghost predicate Mirrors()
      reads this`board, this`cells, board
    {
      var n := Side(boardSize);
      board.Length0 == n && board.Length1 == n && IsBoard(cells, n)
      && forall i, j :: 0 <= i < n && 0 <= j < n ==> board[i, j] == cells[i][j]
    }

    /** The array mirrors `cells`, and the state is Consistent. */
    ghost predicate Valid()
      reads this, board
    {
      Mirrors() && Consistent(Side(boardSize), cells, history, currentPlayer, winner)
    }

    /** `GomokuGame(board_size=boardSize)`: `__post_init__` builds the empty board. */
    constructor (boardSize: int)
      ensures Valid() && fresh(board)
      ensures this.boardSize == boardSize
      ensures cells == EmptyBoard(Side(boardSize))
      ensures history == [] && currentPlayer == Black && winner == None
    {
      var n := Side(boardSize);
      this.boardSize := boardSize;
      board := new int[n, n]((i, j) => 0);
      currentPlayer := Black;
      winner := None;
      history := [];
      cells := EmptyBoard(n);
      new;
      EmptyBoardHasNoStones(n);
    }

    /**
      `make_move`: rejected without any change when (x, y) is off the board,
      the cell is occupied or a winner is set; otherwise the mover's stone is
      placed, the move is appended to the history, and either the mover
      becomes the winner (the turn does not pass) or the turn passes.
     */
    method MakeMove(x: int, y: int) returns (ok: bool)
      requires Valid()
      modifies this, board
      ensures Valid() && board == old(board)
      ensures ok <==> InBounds(boardSize, x, y) && old(cells)[x][y] == 0 && old(winner).None?
      ensures !ok ==> unchanged(this) && unchanged(board)
      ensures ok ==>
        var mover := old(currentPlayer);
        var won := WinAt(cells, x, y, StoneOf(mover));
        && cells == Place(old(cells), x, y, StoneOf(mover))
        && history == old(history) + [Move(mover, x, y)]
        && winner == (if won then Some(mover) else None)
        && currentPlayer == (if won then mover else Opponent(mover))
      ensures forall i, j :: InBounds(Side(boardSize), i, j) && old(cells)[i][j] != 0 ==> cells[i][j] == old(cells)[i][j]
    {
      ok := 0 <= x < boardSize && 0 <= y < boardSize && board[x, y] == 0 && winner == None;
      if ok {
        Play(x, y);
      }
    }

    /** The accepted branch of `make_move`: place, log, then settle the winner or pass the turn. */
    method Play(x: int, y: int)
      requires Valid() && InBounds(Side(boardSize), x, y) && cells[x][y] == 0 && winner.None?
      modifies this, board
      ensures Valid() && board == old(board)
      ensures
        var mover := old(currentPlayer);
        var won := WinAt(cells, x, y, StoneOf(mover));
        && cells == Place(old(cells), x, y, StoneOf(mover))
        && history == old(history) + [Move(mover, x, y)]
        && winner == (if won then Some(mover) else None)
        && currentPlayer == (if won then mover else Opponent(mover))
    {
      var mover := currentPlayer;
      var stone := StoneOf(mover);
      ghost var cells0, history0 := cells, history;
      SetCell(x, y, stone);
      history := history + [Move(mover, x, y)];
      var won := CheckWin(x, y, stone);
      if won {
        winner := Some(mover);
      } else {
        currentPlayer := Opponent(mover);
      }
      ConsistentAfterMove(Side(boardSize), cells0, history0, mover, x, y, won);
    }

    /** `self.board[x][y] = v`, keeping `cells` the array's value. */
    method SetCell(x: int, y: int, v: int)
      requires Mirrors() && InBounds(Side(boardSize), x, y)
      modifies this, board
      ensures Mirrors() && board == old(board) && cells == Place(old(cells), x, y, v)
      ensures history == old(history) && currentPlayer == old(currentPlayer) && winner == old(winner)
    {
      board[x, y] := v;
      cells := Place(cells, x, y, v);
    }

    /**
      `_check_win`: true iff some axis counts exactly five stones of value
      `stone` through (x, y).
     */
    method CheckWin(x: int, y: int, stone: int) returns (win: bool)
      requires Mirrors() && InBounds(Side(boardSize), x, y)
      ensures win == WinAt(cells, x, y, stone)
    {
      AxesAreDirs();
      var i := 0;
      while i < |Axes|
        invariant 0 <= i <= |Axes|
        invariant forall j :: 0 <= j < i ==> AxisCount(cells, x, y, Axes[j].0, Axes[j].1, stone) != 5
      {
        var count := CountAxis(x, y, Axes[i].0, Axes[i].1, stone);
        if count == 5 {
          return true;
        }
        i := i + 1;
      }
      win := false;
    }

    /**
      The body of `_check_win`'s loop for one axis: 1 for the placed stone
      plus the stones of value `stone` met walking outward in the positive,
      then the negative direction.
     */
    method CountAxis(x: int, y: int, dx: int, dy: int, stone: int) returns (count: nat)
      requires Mirrors() && InBounds(Side(boardSize), x, y) && IsDir(dx, dy)
      ensures count == AxisCount(cells, x, y, dx, dy, stone)
    {
      var ahead := CountRun(x, y, dx, dy, stone);
      var behind := CountRun(x, y, -dx, -dy, stone);
      count := 1 + ahead + behind;
    }

    /** One while loop of `_check_win`: the stones of value `stone` met walking from (x, y) along (dx, dy). */
    method CountRun(x: int, y: int, dx: int, dy: int, stone: int) returns (steps: nat)
      requires Mirrors() && InBounds(Side(boardSize), x, y) && IsDir(dx, dy)
      ensures steps == Run(cells, x, y, dx, dy, stone)
    {
      ghost var n := Side(boardSize);
      steps := 0;
      var nx, ny := x + dx, y + dy;
      while 0 <= nx < boardSize && 0 <= ny < boardSize && board[nx, ny] == stone
        invariant InBounds(n, nx - dx, ny - dy)
        invariant steps + Run(cells, nx - dx, ny - dy, dx, dy, stone) == Run(cells, x, y, dx, dy, stone)
        decreases Run(cells, nx - dx, ny - dy, dx, dy, stone)
      {
        assert Holds(cells, (nx, ny), stone);
        steps := steps + 1;
        nx, ny := nx + dx, ny + dy;
      }
      assert !Holds(cells, (nx, ny), stone);
    }

    /** `is_full`: no cell of any row is 0. */
    method IsFull() returns (full: bool)
      requires Mirrors()
      ensures full <==> Full(cells)
    {
      var n := Side(boardSize);
      for x := 0 to n
        invariant forall i, j :: 0 <= i < x && 0 <= j < n ==> cells[i][j] != 0
      {
        for y := 0 to n
          invariant forall j :: 0 <= j < y ==> cells[x][j] != 0
        {
          if board[x, y] == 0 {
            return false;
          }
        }
      }
      return true;
    }

    /** `get_board_copy`: a cell-by-cell copy; as a value it cannot alias the live board. */
    function GetBoardCopy(): (copy: Board)
      requires Mirrors()
      reads this`board, this`cells, board
      ensures IsBoard(copy, Side(boardSize))
      ensures forall i, j :: InBounds(Side(boardSize), i, j) ==> copy[i][j] == board[i, j]
      ensures copy == cells
    {
      var a := board;
      var copy := seq(a.Length0, i requires 0 <= i < a.Length0 reads a =>
                        seq(a.Length1, j requires 0 <= j < a.Length1 reads a => a[i, j]));
      assert forall i :: 0 <= i < |copy| ==> copy[i] == cells[i];
      copy
    }
  }

  /** An accepted move fills one empty cell, so the board is full exactly when the history holds n * n moves. */
  lemma FullIffHistoryComplete(g: Game)
    requires g.Valid()
    ensures |g.history| <= Side(g.boardSize) * Side(g.boardSize)
    ensures Full(g.cells) <==> |g.history| == Side(g.boardSize) * Side(g.boardSize)
  {
    FullIffAllStones(g.cells, Side(g.boardSize));
  }
}
