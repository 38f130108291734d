/**
  The reference strategy of main.py: win if possible, else block the
  opponent's win, else play the best-scoring empty cell near a stone, else
  fall back to the centre or any empty cell. The board is the value the
  engine hands to the strategy; nothing here changes it.
 */
module Bot {
  import opened Wrappers
  import opened Grid
  import opened Lines
  import opened Engine

  // ---------------------------------------------------------------- win search

  /** Placing s on the empty cell (x, y) wins under the exactly-five rule. */
  predicate Completes(b: Board, s: int, x: int, y: int)
    requires Square(b) && InBounds(|b|, x, y)
  {
    b[x][y] == 0 && WinAt(Place(b, x, y, s), x, y, s)
  }

  predicate AnyCompleting(b: Board, s: int)
    requires Square(b)
  {
    exists i, j :: 0 <= i < |b| && 0 <= j < |b| && Completes(b, s, i, j)
  }

  /** Row-major order: x first, then y. */
  predicate Before(p: Pos, q: Pos) {
    p.0 < q.0 || (p.0 == q.0 && p.1 < q.1)
  }

  /** p is the first cell in row-major order where s completes five. */
  predicate FirstCompleting(b: Board, s: int, p: Pos)
    requires Square(b)
  {
    && InBounds(|b|, p.0, p.1)
    && Completes(b, s, p.0, p.1)
    && forall i, j :: 0 <= i < |b| && 0 <= j < |b| && Before((i, j), p) ==> !Completes(b, s, i, j)
  }

  /**
    `is_winning_move`: the engine's win test run on the board as it is;
    since the walks never read (x, y), it is the engine's test after placing
    s at (x, y).
   */
  method IsWinningMove(board: Board, x: int, y: int, stone: int) returns (win: bool)
    requires Square(board) && InBounds(|board|, x, y)
    ensures win == WinAt(board, x, y, stone)
    ensures win == WinAt(Place(board, x, y, stone), x, y, stone)
  {
    AxesAreDirs();
    var i := 0;
    while i < |Axes|
      invariant 0 <= i <= |Axes|
      invariant forall j :: 0 <= j < i ==> AxisCount(board, x, y, Axes[j].0, Axes[j].1, stone) != 5
    {
      var count := CountThrough(board, x, y, Axes[i].0, Axes[i].1, stone);
      if count == 5 {
        WinAtIgnoresOwnCell(board, x, y, stone, stone);
        return true;
      }
      i := i + 1;
    }
    WinAtIgnoresOwnCell(board, x, y, stone, stone);
    win := false;
  }

  /** One axis of `is_winning_move`: 1 plus the stones met walking outward both ways. */
  method CountThrough(board: Board, x: int, y: int, dx: int, dy: int, stone: int) returns (count: nat)
    requires Square(board) && InBounds(|board|, x, y) && IsDir(dx, dy)
    ensures count == AxisCount(board, x, y, dx, dy, stone)
  {
    var ahead := CountRun(board, x, y, dx, dy, stone);
    var behind := CountRun(board, x, y, -dx, -dy, stone);
    count := 1 + ahead + behind;
  }

  /** One while loop of `is_winning_move`: the stones of value `stone` met walking from (x, y) along (dx, dy). */
  method CountRun(board: Board, x: int, y: int, dx: int, dy: int, stone: int) returns (steps: nat)
    requires Square(board) && InBounds(|board|, x, y) && IsDir(dx, dy)
    ensures steps == Run(board, x, y, dx, dy, stone)
  {
    var n := |board|;
    steps := 0;
    var nx, ny := x + dx, y + dy;
    while 0 <= nx < n && 0 <= ny < n && board[nx][ny] == stone
      invariant InBounds(n, nx - dx, ny - dy)
      invariant steps + Run(board, nx - dx, ny - dy, dx, dy, stone) == Run(board, x, y, dx, dy, stone)
      decreases Run(board, nx - dx, ny - dy, dx, dy, stone)
    {
      assert Holds(board, (nx, ny), stone);
      steps := steps + 1;
      nx, ny := nx + dx, ny + dy;
    }
    assert !Holds(board, (nx, ny), stone);
  }

  /** `find_winning_move`: the first empty cell in row-major order where `stone` completes five, if any. */
  method FindWinningMove(board: Board, stone: int) returns (r: Option<Pos>)
    requires Square(board)
    ensures r.Some? ==> FirstCompleting(board, stone, r.value)
    ensures r.None? <==> !AnyCompleting(board, stone)
  {
    var n := |board|;
    for x := 0 to n
      invariant forall i, j :: 0 <= i < x && 0 <= j < n ==> !Completes(board, stone, i, j)
    {
      for y := 0 to n
        invariant forall j :: 0 <= j < y ==> !Completes(board, stone, x, j)
      {
        if board[x][y] == 0 {
          var win := IsWinningMove(board, x, y, stone);
          if win {
            return Some((x, y));
          }
        }
      }
    }
    return None;
  }

  // ------------------------------------------------------------ neighbourhood

  /** (i, j) is within two cells of (x, y) on both axes and is not (x, y). */
  predicate Near(x: int, y: int, i: int, j: int) {
    -2 <= i - x <= 2 && -2 <= j - y <= 2 && (i, j) != (x, y)
  }

  predicate Neighbour(b: Board, x: int, y: int)
    requires Square(b)
  {
    exists i, j :: 0 <= i < |b| && 0 <= j < |b| && Near(x, y, i, j) && b[i][j] != 0
  }

  /** `has_neighbor`: some stone lies on the board within the 5 x 5 square around (x, y). */
  method HasNeighbor(board: Board, x: int, y: int) returns (found: bool)
    requires Square(board)
    ensures found <==> Neighbour(board, x, y)
  {
    var n := |board|;
    for dx := -2 to 3
      invariant forall i, j :: 0 <= i < n && 0 <= j < n && Near(x, y, i, j) && i - x < dx ==> board[i][j] == 0
    {
      for dy := -2 to 3
        invariant forall i, j ::
          (0 <= i < n && 0 <= j < n && Near(x, y, i, j) && (i - x < dx || (i - x == dx && j - y < dy)))
          ==> board[i][j] == 0
      {
        if dx == 0 && dy == 0 {
          continue;
        }
        var nx, ny := x + dx, y + dy;
        if 0 <= nx < n && 0 <= ny < n {
          if board[nx][ny] != 0 {
            return true;
          }
        }
      }
    }
    return false;
  }

  // --------------------------------------------------------------- line shape

  /** The triple `(my_count, opp_count, open_ends)` of count_line. */
  datatype LineCount = LineCount(mine: nat, theirs: nat, open: nat)

  /** The walk on one side stopped at an opponent stone. */
  function Blocked(b: Board, e: Pos, opp: int): nat {
    if Holds(b, e, opp) then 1 else 0
  }

  /** The walk on one side stopped on the board at a cell that is neither own nor opponent. */
  function Opened(b: Board, e: Pos, opp: int): nat {
    if 0 <= e.0 < |b| && 0 <= e.1 < |b[e.0]| && b[e.0][e.1] != opp then 1 else 0
  }

  /**
    One side of the line through (x, y): the own stones met walking along
    (dx, dy), and whether the first other cell is an opponent stone or an
    open cell on the board (a walk that leaves the board reports neither).
   */
  function SideCount(b: Board, x: int, y: int, dx: int, dy: int, my: int, opp: int): (l: LineCount)
    requires Square(b) && InBounds(|b|, x, y) && IsDir(dx, dy)
    ensures l.theirs + l.open <= 1
  {
    var stop := RunEnd(b, x, y, dx, dy, my);
    LineCount(Run(b, x, y, dx, dy, my), Blocked(b, stop, opp), Opened(b, stop, opp))
  }

  /**
    The shape of the line through (x, y) along (dx, dy): both sides added.
    Each side contributes to at most one of opp_count and open_ends.
   */
  function Line(b: Board, x: int, y: int, dx: int, dy: int, my: int, opp: int): (l: LineCount)
    requires Square(b) && InBounds(|b|, x, y) && IsDir(dx, dy)
    ensures l.theirs <= 2 && l.open <= 2 && l.theirs + l.open <= 2
  {
    var ahead, behind := SideCount(b, x, y, dx, dy, my, opp), SideCount(b, x, y, -dx, -dy, my, opp);
    LineCount(ahead.mine + behind.mine, ahead.theirs + behind.theirs, ahead.open + behind.open)
  }

  /** `count_line`: walk outward both ways, counting own stones and stopping at the first other cell. */
  method CountLine(board: Board, x: int, y: int, dx: int, dy: int, myStone: int, oppStone: int)
    returns (myCount: nat, oppCount: nat, openEnds: nat)
    requires Square(board) && InBounds(|board|, x, y) && IsDir(dx, dy)
    ensures LineCount(myCount, oppCount, openEnds) == Line(board, x, y, dx, dy, myStone, oppStone)
  {
    var m1, o1, e1 := WalkSide(board, x, y, dx, dy, myStone, oppStone);
    var m2, o2, e2 := WalkSide(board, x, y, -dx, -dy, myStone, oppStone);
    myCount, oppCount, openEnds := m1 + m2, o1 + o2, e1 + e2;
  }

  /** One of the two while loops of count_line, walking from (x, y) along (dx, dy). */
  method WalkSide(board: Board, x: int, y: int, dx: int, dy: int, myStone: int, oppStone: int)
    returns (myCount: nat, oppCount: nat, openEnds: nat)
    requires Square(board) && InBounds(|board|, x, y) && IsDir(dx, dy)
    ensures LineCount(myCount, oppCount, openEnds) == SideCount(board, x, y, dx, dy, myStone, oppStone)
  {
    var n := |board|;
    ghost var stop := RunEnd(board, x, y, dx, dy, myStone);
    ghost var total := Run(board, x, y, dx, dy, myStone);
    assert SideCount(board, x, y, dx, dy, myStone, oppStone)
        == LineCount(total, Blocked(board, stop, oppStone), Opened(board, stop, oppStone));
    myCount, oppCount, openEnds := 0, 0, 0;
    var nx, ny := x + dx, y + dy;
    while 0 <= nx < n && 0 <= ny < n
      invariant InBounds(n, nx - dx, ny - dy)
      invariant myCount + Run(board, nx - dx, ny - dy, dx, dy, myStone) == total
      invariant RunEnd(board, nx - dx, ny - dy, dx, dy, myStone) == stop
      invariant oppCount == 0 && openEnds == 0
      decreases Run(board, nx - dx, ny - dy, dx, dy, myStone)
    {
      if board[nx][ny] == myStone {
        assert Holds(board, (nx, ny), myStone);
        myCount := myCount + 1;
      } else if board[nx][ny] == oppStone {
        assert !Holds(board, (nx, ny), myStone) && (nx, ny) == stop && myCount == total;
        assert Blocked(board, stop, oppStone) == 1 && Opened(board, stop, oppStone) == 0;
        oppCount := oppCount + 1;
        return;
      } else {
        assert !Holds(board, (nx, ny), myStone) && (nx, ny) == stop && myCount == total;
        assert Blocked(board, stop, oppStone) == 0 && Opened(board, stop, oppStone) == 1;
        openEnds := openEnds + 1;
        return;
      }
      nx, ny := nx + dx, ny + dy;
    }
    assert !Holds(board, (nx, ny), myStone) && (nx, ny) == stop && myCount == total;
    assert Blocked(board, stop, oppStone) == 0 && Opened(board, stop, oppStone) == 0;
  }

  // ------------------------------------------------------------------ scoring

  function Abs(v: int): nat {
    if v < 0 then -v else v
  }

  /** `max(0, 10 - distance)`, distance being the Manhattan distance to (n // 2, n // 2). */
  function CenterBonus(n: nat, x: int, y: int): int {
    var center := n / 2;
    var distance := Abs(x - center) + Abs(y - center);
    if 10 - distance > 0 then 10 - distance else 0
  }

  /** The offensive tiers for one axis. */
  function Attack(l: LineCount): int {
    if l.mine >= 4 then 10000
    else if l.mine == 3 && l.open == 2 then 1000
    else if l.mine == 3 then 100
    else if l.mine == 2 && l.open == 2 then 50
    else if l.mine == 2 then 10
    else 0
  }

  /** The defensive tiers for one axis. */
  function Defence(l: LineCount): int {
    if l.theirs >= 4 then 5000
    else if l.theirs == 3 && l.open == 2 then 500
    else if l.theirs == 3 then 50
    else if l.theirs == 2 && l.open == 2 then 25
    else 0
  }

  /** What count_line reports for (x, y) along each of the four axes, in the order of Axes. */
  function AxisLines(b: Board, x: int, y: int, my: int, opp: int): (ls: seq<LineCount>)
    requires Square(b) && InBounds(|b|, x, y)
    ensures |ls| == |Axes|
    ensures forall i :: 0 <= i < |Axes| ==> ls[i] == Line(b, x, y, Axes[i].0, Axes[i].1, my, opp)
  {
    [Line(b, x, y, 1, 0, my, opp), Line(b, x, y, 0, 1, my, opp), Line(b, x, y, 1, 1, my, opp), Line(b, x, y, 1, -1, my, opp)]
  }

  /** The offensive plus defensive tiers of a sequence of lines. */
  function Bonus(ls: seq<LineCount>): int {
    if ls == [] then 0
    else
      var l := ls[|ls| - 1];
      Bonus(ls[..|ls| - 1]) + Attack(l) + Defence(l)
  }

  /** The value evaluate_position computes. */
  function Score(b: Board, x: int, y: int, my: int, opp: int): int
    requires Square(b) && InBounds(|b|, x, y)
  {
    CenterBonus(|b|, x, y) + Bonus(AxisLines(b, x, y, my, opp))
  }

  /** `evaluate_position`: the centre bonus plus, for each axis, one offensive and one defensive tier. */
  method EvaluatePosition(board: Board, x: int, y: int, myStone: int, oppStone: int) returns (score: int)
    requires Square(board) && InBounds(|board|, x, y)
    ensures score == Score(board, x, y, myStone, oppStone)
  {
    AxesAreDirs();
    ghost var ls := AxisLines(board, x, y, myStone, oppStone);
    score := 0;
    var center := |board| / 2;
    var distance := Abs(x - center) + Abs(y - center);
    score := score + (if 10 - distance > 0 then 10 - distance else 0);

    for i := 0 to |Axes|
      invariant score == CenterBonus(|board|, x, y) + Bonus(ls[..i])
    {
      var myCount, oppCount, openEnds := CountLine(board, x, y, Axes[i].0, Axes[i].1, myStone, oppStone);
      assert LineCount(myCount, oppCount, openEnds) == ls[i];
      score := AddTiers(score, myCount, oppCount, openEnds);
      assert ls[..i + 1][..i] == ls[..i];
    }
    assert ls[..|Axes|] == ls;
  }

  /** The body of evaluate_position's loop: one offensive and one defensive tier added to `score`. */
  method AddTiers(score: int, myCount: nat, oppCount: nat, openEnds: nat) returns (score': int)
    ensures score' == score + Attack(LineCount(myCount, oppCount, openEnds)) + Defence(LineCount(myCount, oppCount, openEnds))
  {
    score' := score;
    if myCount >= 4 {
      score' := score' + 10000;
    } else if myCount == 3 && openEnds == 2 {
      score' := score' + 1000;
    } else if myCount == 3 {
      score' := score' + 100;
    } else if myCount == 2 && openEnds == 2 {
      score' := score' + 50;
    } else if myCount == 2 {
      score' := score' + 10;
    }

    if oppCount >= 4 {
      score' := score' + 5000;
    } else if oppCount == 3 && openEnds == 2 {
      score' := score' + 500;
    } else if oppCount == 3 {
      score' := score' + 50;
    } else if oppCount == 2 && openEnds == 2 {
      score' := score' + 25;
    }
  }

  /** The offensive tiers alone of a sequence of lines. */
  function AttackSum(ls: seq<LineCount>): int {
    if ls == [] then 0 else AttackSum(ls[..|ls| - 1]) + Attack(ls[|ls| - 1])
  }

  /**
    count_line reports at most two of opp_count and open_ends together, so
    none of the defensive tiers can fire: only the offensive tiers add up.
   */
  lemma {:induction false} DefenceNeverScores(ls: seq<LineCount>)
    requires forall i :: 0 <= i < |ls| ==> ls[i].theirs + ls[i].open <= 2
    ensures Bonus(ls) == AttackSum(ls)
  {
    if ls != [] {
      var p := ls[..|ls| - 1];
      assert forall i :: 0 <= i < |p| ==> p[i] == ls[i];
      DefenceNeverScores(p);
      assert Defence(ls[|ls| - 1]) == 0;
    }
  }

  /** The score is the centre bonus plus the offensive tiers alone: the defensive tiers add nothing. */
  lemma ScoreIsCenterPlusAttack(b: Board, x: int, y: int, my: int, opp: int)
    requires Square(b) && InBounds(|b|, x, y)
    ensures Score(b, x, y, my, opp) == CenterBonus(|b|, x, y) + AttackSum(AxisLines(b, x, y, my, opp))
  {
    DefenceNeverScores(AxisLines(b, x, y, my, opp));
  }

  /** Each line adds one offensive tier, each in {0, 10, 50, 100, 1000, 10000}. */
  lemma {:induction false} AttackBounds(ls: seq<LineCount>)
    ensures 0 <= AttackSum(ls)
    ensures (forall i :: 0 <= i < |ls| ==> ls[i].mine < 4) ==> AttackSum(ls) <= 1000 * |ls|
    ensures (exists i :: 0 <= i < |ls| && ls[i].mine >= 4) ==> AttackSum(ls) >= 10000
  {
    if ls != [] {
      var p := ls[..|ls| - 1];
      assert forall i :: 0 <= i < |p| ==> p[i] == ls[i];
      AttackBounds(p);
    }
  }

  /** The score is at least the centre bonus, so never negative. */
  lemma ScoreAtLeastCenter(b: Board, x: int, y: int, my: int, opp: int)
    requires Square(b) && InBounds(|b|, x, y)
    ensures Score(b, x, y, my, opp) >= CenterBonus(|b|, x, y) >= 0
  {
    var ls := AxisLines(b, x, y, my, opp);
    DefenceNeverScores(ls);
    AttackBounds(ls);
  }

  /**
    The score reaches 10000 exactly when some axis already has four own
    stones: no mix of the lower tiers outweighs that.
   */
  lemma ScoreTopTier(b: Board, x: int, y: int, my: int, opp: int)
    requires Square(b) && InBounds(|b|, x, y)
    ensures Score(b, x, y, my, opp) >= 10000
        <==> exists i :: 0 <= i < |Axes| && Line(b, x, y, Axes[i].0, Axes[i].1, my, opp).mine >= 4
  {
    var ls := AxisLines(b, x, y, my, opp);
    DefenceNeverScores(ls);
    AttackBounds(ls);
  }

  // --------------------------------------------------------------- best move

  /** A cell find_best_move scores: empty and near a stone. */
  predicate Candidate(b: Board, x: int, y: int)
    requires Square(b)
  {
    InBounds(|b|, x, y) && b[x][y] == 0 && Neighbour(b, x, y)
  }

  predicate AnyCandidate(b: Board)
    requires Square(b)
  {
    exists i, j :: 0 <= i < |b| && 0 <= j < |b| && Candidate(b, i, j)
  }

  /** Candidate as a test on positions. */
  function CandTest(b: Board): Pos -> bool
    requires Square(b)
  {
    (p: Pos) => Candidate(b, p.0, p.1)
  }

  /** Score as a function on positions (0 off the board). */
  function ScoreOf(b: Board, my: int, opp: int): Pos -> int
    requires Square(b)
  {
    (p: Pos) => if InBounds(|b|, p.0, p.1) then Score(b, p.0, p.1, my, opp) else 0
  }

  /** p is a `cand` cell of the n x n board that no `cand` cell outscores. */
  predicate Top(n: int, cand: Pos -> bool, score: Pos -> int, p: Pos) {
    && InBounds(n, p.0, p.1) && cand(p)
    && forall i, j :: 0 <= i < n && 0 <= j < n && cand((i, j)) ==> score((i, j)) <= score(p)
  }

  /** p is a candidate that no candidate outscores. */
  predicate Best(b: Board, my: int, opp: int, p: Pos)
    requires Square(b)
  {
    Top(|b|, CandTest(b), ScoreOf(b, my, opp), p)
  }

  /**
    The state of find_best_move's scan once every cell before p (in
    row-major order) has been examined: `bestScore` is the top score among
    those candidates (-1 if none), and `bestMoves` lists, in order, the
    candidates reaching it.
   */
  ghost predicate Scanned(n: int, cand: Pos -> bool, score: Pos -> int, p: Pos, bestScore: int, bestMoves: seq<Pos>) {
    && bestScore >= -1
    && (bestMoves == [] <==> bestScore == -1)
    && (forall k :: 0 <= k < |bestMoves| ==>
          && InBounds(n, bestMoves[k].0, bestMoves[k].1) && cand(bestMoves[k])
          && score(bestMoves[k]) == bestScore && Before(bestMoves[k], p))
    && (forall i, j :: 0 <= i < n && 0 <= j < n && Before((i, j), p) && cand((i, j))
          ==> score((i, j)) <= bestScore)
    && (forall i, j ::
          (0 <= i < n && 0 <= j < n && Before((i, j), p) && cand((i, j)) && score((i, j)) == bestScore)
          ==> (i, j) in bestMoves)
    && (forall k, l :: 0 <= k < l < |bestMoves| ==> Before(bestMoves[k], bestMoves[l]))
  }

  /** A cell that is not a candidate, or scores below the best, leaves the tally as it is. */
  lemma ScanKeep(n: int, cand: Pos -> bool, score: Pos -> int, x: int, y: int, bestScore: int, bestMoves: seq<Pos>)
    requires Scanned(n, cand, score, (x, y), bestScore, bestMoves)
    requires !cand((x, y)) || score((x, y)) < bestScore
    ensures Scanned(n, cand, score, (x, y + 1), bestScore, bestMoves)
  {
  }

  /** A candidate beating the best restarts the list with itself. */
  lemma ScanRaise(n: int, cand: Pos -> bool, score: Pos -> int, x: int, y: int, bestScore: int, bestMoves: seq<Pos>)
    requires InBounds(n, x, y) && Scanned(n, cand, score, (x, y), bestScore, bestMoves)
    requires cand((x, y)) && score((x, y)) > bestScore
    ensures Scanned(n, cand, score, (x, y + 1), score((x, y)), [(x, y)])
  {
  }

  /** A candidate equal to the best is appended, after every earlier one. */
  lemma ScanTie(n: int, cand: Pos -> bool, score: Pos -> int, x: int, y: int, bestScore: int, bestMoves: seq<Pos>)
    requires InBounds(n, x, y) && Scanned(n, cand, score, (x, y), bestScore, bestMoves)
    requires cand((x, y)) && score((x, y)) == bestScore >= 0
    ensures Scanned(n, cand, score, (x, y + 1), bestScore, bestMoves + [(x, y)])
  {
    var bm := bestMoves + [(x, y)];
    assert forall k :: 0 <= k < |bestMoves| ==> bm[k] == bestMoves[k];
  }

  /** The end of row x is the start of row x + 1. */
  lemma ScanNextRow(n: int, cand: Pos -> bool, score: Pos -> int, x: int, bestScore: int, bestMoves: seq<Pos>)
    requires Scanned(n, cand, score, (x, n), bestScore, bestMoves)
    ensures Scanned(n, cand, score, (x + 1, 0), bestScore, bestMoves)
  {
  }

  /**
    Once the whole board is scanned, and candidates score at least 0, the
    list holds exactly the top-scoring candidates, and is empty exactly
    when there is no candidate.
   */
  lemma ScanDone(n: int, cand: Pos -> bool, score: Pos -> int, bestScore: int, bestMoves: seq<Pos>)
    requires Scanned(n, cand, score, (n, 0), bestScore, bestMoves)
    requires forall i, j :: 0 <= i < n && 0 <= j < n && cand((i, j)) ==> score((i, j)) >= 0
    ensures forall k :: 0 <= k < |bestMoves| ==> Top(n, cand, score, bestMoves[k])
    ensures forall i, j :: 0 <= i < n && 0 <= j < n && Top(n, cand, score, (i, j)) ==> (i, j) in bestMoves
    ensures bestMoves == [] <==> !exists i, j :: 0 <= i < n && 0 <= j < n && cand((i, j))
  {
    forall i, j | 0 <= i < n && 0 <= j < n && cand((i, j))
      ensures bestMoves != [] && score((i, j)) <= bestScore
    {
      assert Before((i, j), (n, 0));
    }
    forall i, j | 0 <= i < n && 0 <= j < n && Top(n, cand, score, (i, j))
      ensures (i, j) in bestMoves
    {
      assert Before((i, j), (n, 0));
      assert score(bestMoves[0]) <= score((i, j));
    }
    if bestMoves != [] {
      assert cand(bestMoves[0]);
    }
  }

  /**
    `find_best_move`: `bestMoves` is the list of exactly the top-scoring
    candidates, in row-major order; `choice` is `random.choice(bestMoves)`,
    any one of them, or None when there is no candidate.
   */
  method FindBestMove(board: Board, myStone: int, oppStone: int) returns (bestMoves: seq<Pos>, choice: Option<Pos>)
    requires Square(board)
    ensures forall k :: 0 <= k < |bestMoves| ==> Best(board, myStone, oppStone, bestMoves[k])
    ensures forall i, j ::
      (0 <= i < |board| && 0 <= j < |board| && Best(board, myStone, oppStone, (i, j))) ==> (i, j) in bestMoves
    ensures forall k, l :: 0 <= k < l < |bestMoves| ==> Before(bestMoves[k], bestMoves[l])
    ensures bestMoves == [] <==> !AnyCandidate(board)
    ensures choice.None? <==> bestMoves == []
    ensures choice.Some? ==> choice.value in bestMoves
  {
    var n := |board|;
    ghost var cand, score := CandTest(board), ScoreOf(board, myStone, oppStone);
    var bestScore := -1;
    bestMoves := [];
    for x := 0 to n
      invariant Scanned(n, cand, score, (x, 0), bestScore, bestMoves)
    {
      bestScore, bestMoves := ScanRow(board, myStone, oppStone, x, bestScore, bestMoves, cand, score);
    }
    ScanFindsBest(board, myStone, oppStone, bestScore, bestMoves);
    if bestMoves == [] {
      choice := None;
    } else {
      assert bestMoves[0] in bestMoves;
      var pick :| pick in bestMoves;
      choice := Some(pick);
    }
  }

  /** One pass of find_best_move's inner loop, over row x. */
  method ScanRow(board: Board, myStone: int, oppStone: int, x: int, bestScore: int, bestMoves: seq<Pos>,
                 ghost cand: Pos -> bool, ghost score: Pos -> int)
    returns (bestScore': int, bestMoves': seq<Pos>)
    requires Square(board) && 0 <= x < |board|
    requires forall y :: 0 <= y < |board| ==> cand((x, y)) == Candidate(board, x, y)
    requires forall y :: 0 <= y < |board| ==> score((x, y)) == Score(board, x, y, myStone, oppStone)
    requires Scanned(|board|, cand, score, (x, 0), bestScore, bestMoves)
    ensures Scanned(|board|, cand, score, (x + 1, 0), bestScore', bestMoves')
  {
    var n := |board|;
    bestScore', bestMoves' := bestScore, bestMoves;
    for y := 0 to n
      invariant Scanned(n, cand, score, (x, y), bestScore', bestMoves')
    {
      bestScore', bestMoves' := ScanCell(board, myStone, oppStone, x, y, bestScore', bestMoves', cand, score);
    }
    ScanNextRow(n, cand, score, x, bestScore', bestMoves');
  }

  /** One pass of find_best_move's inner loop body, for cell (x, y). */
  method ScanCell(board: Board, myStone: int, oppStone: int, x: int, y: int, bestScore: int, bestMoves: seq<Pos>,
                  ghost cand: Pos -> bool, ghost score: Pos -> int)
    returns (bestScore': int, bestMoves': seq<Pos>)
    requires Square(board) && InBounds(|board|, x, y)
    requires cand((x, y)) == Candidate(board, x, y)
    requires score((x, y)) == Score(board, x, y, myStone, oppStone)
    requires Scanned(|board|, cand, score, (x, y), bestScore, bestMoves)
    ensures Scanned(|board|, cand, score, (x, y + 1), bestScore', bestMoves')
  {
    var n := |board|;
    bestScore', bestMoves' := bestScore, bestMoves;
    if board[x][y] == 0 {
      var near := HasNeighbor(board, x, y);
      if !near {
        ScanKeep(n, cand, score, x, y, bestScore, bestMoves);
        return;
      }
      var value := EvaluatePosition(board, x, y, myStone, oppStone);
      ScoreAtLeastCenter(board, x, y, myStone, oppStone);
      if value > bestScore {
        ScanRaise(n, cand, score, x, y, bestScore, bestMoves);
        bestScore' := value;
        bestMoves' := [(x, y)];
      } else if value == bestScore {
        ScanTie(n, cand, score, x, y, bestScore, bestMoves);
        bestMoves' := bestMoves + [(x, y)];
      } else {
        ScanKeep(n, cand, score, x, y, bestScore, bestMoves);
      }
    } else {
      ScanKeep(n, cand, score, x, y, bestScore, bestMoves);
    }
  }

  /** A finished scan of the board lists exactly the Best cells, and none exactly when there is no candidate. */
  lemma ScanFindsBest(b: Board, my: int, opp: int, bestScore: int, bestMoves: seq<Pos>)
    requires Square(b)
    requires Scanned(|b|, CandTest(b), ScoreOf(b, my, opp), (|b|, 0), bestScore, bestMoves)
    ensures forall k :: 0 <= k < |bestMoves| ==> Best(b, my, opp, bestMoves[k])
    ensures forall i, j ::
      (0 <= i < |b| && 0 <= j < |b| && Best(b, my, opp, (i, j))) ==> (i, j) in bestMoves
    ensures bestMoves == [] <==> !AnyCandidate(b)
  {
    CandidatesScoreAtLeastZero(b, my, opp);
    ScanDone(|b|, CandTest(b), ScoreOf(b, my, opp), bestScore, bestMoves);
  }

  /** Under find_best_move's score every cell scores at least 0. */
  lemma CandidatesScoreAtLeastZero(b: Board, my: int, opp: int)
    requires Square(b)
    ensures forall i, j :: 0 <= i < |b| && 0 <= j < |b| ==> ScoreOf(b, my, opp)((i, j)) >= 0
  {
    forall i, j | 0 <= i < |b| && 0 <= j < |b|
      ensures ScoreOf(b, my, opp)((i, j)) >= 0
    {
      ScoreAtLeastCenter(b, i, j, my, opp);
    }
  }

  // ----------------------------------------------------------------- get_move

  /** The empty cells from (x, y) on, in row-major order: the list `empty` of get_move. */
  function EmptyCellsFrom(b: Board, x: nat, y: nat): (cells: seq<Pos>)
    requires Square(b) && x <= |b| && y <= |b|
    ensures forall p :: p in cells <==>
      InBounds(|b|, p.0, p.1) && b[p.0][p.1] == 0 && (p.0 > x || (p.0 == x && p.1 >= y))
    ensures forall k, l :: 0 <= k < l < |cells| ==> Before(cells[k], cells[l])
    decreases |b| - x, |b| - y
  {
    if x == |b| then []
    else if y == |b| then EmptyCellsFrom(b, x + 1, 0)
    else (if b[x][y] == 0 then [(x, y)] else []) + EmptyCellsFrom(b, x, y + 1)
  }

  /**
    `get_move`: an own completing cell first, then a blocking cell, then a
    top-scoring candidate, then the centre if empty, then any empty cell,
    and (0, 0) on a full board.
   */
  method GetMove(board: Board, color: Color) returns (move: Pos)
    requires Square(board) && |board| > 0
    ensures InBounds(|board|, move.0, move.1)
    ensures AnyCompleting(board, StoneOf(color)) ==> FirstCompleting(board, StoneOf(color), move)
    ensures (!AnyCompleting(board, StoneOf(color)) && AnyCompleting(board, StoneOf(Opponent(color))))
      ==> FirstCompleting(board, StoneOf(Opponent(color)), move)
    ensures (!AnyCompleting(board, StoneOf(color)) && !AnyCompleting(board, StoneOf(Opponent(color)))
      && AnyCandidate(board))
      ==> Best(board, StoneOf(color), StoneOf(Opponent(color)), move)
    ensures (!AnyCompleting(board, StoneOf(color)) && !AnyCompleting(board, StoneOf(Opponent(color)))
      && !AnyCandidate(board) && board[|board| / 2][|board| / 2] == 0)
      ==> move == (|board| / 2, |board| / 2)
    ensures HasEmpty(board) ==> board[move.0][move.1] == 0
    ensures !HasEmpty(board) ==> move == (0, 0)
  {
    var n := |board|;
    var myStone := StoneOf(color);
    var oppStone := StoneOf(Opponent(color));

    var winMove := FindWinningMove(board, myStone);
    if winMove.Some? {
      return winMove.value;
    }

    var blockMove := FindWinningMove(board, oppStone);
    if blockMove.Some? {
      return blockMove.value;
    }

    var bestMoves, bestMove := FindBestMove(board, myStone, oppStone);
    if bestMove.Some? {
      return bestMove.value;
    }

    var center := n / 2;
    if board[center][center] == 0 {
      return (center, center);
    }

    var empty := EmptyCellsFrom(board, 0, 0);
    if empty != [] {
      assert empty[0] in empty;
      move :| move in empty;
    } else {
      forall i, j | 0 <= i < n && 0 <= j < n
        ensures board[i][j] != 0
      {
        assert (i, j) !in empty;
      }
      move := (0, 0);
    }
  }
}
