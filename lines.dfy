/**
  Line geometry shared by the engine's win test and the reference bot:
  the four axes, the walk outward from a cell along one direction, and the
  exactly-five win rule.
 */
module Lines {
  import opened Grid

  /** A unit step: each component in {-1, 0, 1}, not both zero. */
  predicate IsDir(dx: int, dy: int) {
    -1 <= dx <= 1 && -1 <= dy <= 1 && (dx != 0 || dy != 0)
  }

  /** The list `[(1, 0), (0, 1), (1, 1), (1, -1)]` scanned by the win tests and the evaluator. */
  const Axes: seq<(int, int)> := [(1, 0), (0, 1), (1, 1), (1, -1)]

  lemma AxesAreDirs()
    ensures |Axes| == 4
    ensures forall i :: 0 <= i < |Axes| ==> IsDir(Axes[i].0, Axes[i].1) && IsDir(-Axes[i].0, -Axes[i].1)
  {
  }

  /** Steps left before a walk from (x, y) along (dx, dy) leaves the board. */
  function Room(n: int, x: int, y: int, dx: int, dy: int): int {
    if dx == 1 then n - x else if dx == -1 then x + 1 else if dy == 1 then n - y else y + 1
  }

  /** i * d for a step component d in {-1, 0, 1}, written without multiplication. */
  function Scale(i: int, d: int): int {
    if d == 1 then i else if d == -1 then -i else 0
  }

  /** The cell (x, y) + i * (dx, dy). */
  function StepFrom(x: int, y: int, dx: int, dy: int, i: int): Pos {
    (x + Scale(i, dx), y + Scale(i, dy))
  }

  lemma StepFromNext(x: int, y: int, dx: int, dy: int, i: int)
    requires IsDir(dx, dy)
    ensures StepFrom(x, y, dx, dy, i + 1) == StepFrom(x + dx, y + dy, dx, dy, i)
  {
  }

  /** The cell p is on the board and holds s. */
  predicate Holds(b: Board, p: Pos, s: int) {
    0 <= p.0 < |b| && 0 <= p.1 < |b[p.0]| && b[p.0][p.1] == s
  }

  /**
    Number of consecutive cells holding s met when walking from (x, y)
    along (dx, dy), not counting (x, y) itself: the count one of the while
    loops of the win tests adds.
   */
  function Run(b: Board, x: int, y: int, dx: int, dy: int, s: int): nat
    requires Square(b) && InBounds(|b|, x, y) && IsDir(dx, dy)
    decreases Room(|b|, x, y, dx, dy)
  {
    if Holds(b, (x + dx, y + dy), s) then 1 + Run(b, x + dx, y + dy, dx, dy, s) else 0
  }

  /** The first cell of that walk that does not hold s (possibly off the board). */
  function RunEnd(b: Board, x: int, y: int, dx: int, dy: int, s: int): Pos
    requires Square(b) && InBounds(|b|, x, y) && IsDir(dx, dy)
    decreases Room(|b|, x, y, dx, dy)
  {
    if Holds(b, (x + dx, y + dy), s) then RunEnd(b, x + dx, y + dy, dx, dy, s) else (x + dx, y + dy)
  }

  /** Stones of colour s on the axis through (x, y): the cell itself plus both walks. */
  function AxisCount(b: Board, x: int, y: int, dx: int, dy: int, s: int): nat
    requires Square(b) && InBounds(|b|, x, y) && IsDir(dx, dy)
  {
    1 + Run(b, x, y, dx, dy, s) + Run(b, x, y, -dx, -dy, s)
  }

  /** The win rule: some axis through (x, y) counts exactly five. */
  predicate WinAt(b: Board, x: int, y: int, s: int)
    requires Square(b) && InBounds(|b|, x, y)
  {
    AxesAreDirs();
    exists i :: 0 <= i < |Axes| && AxisCount(b, x, y, Axes[i].0, Axes[i].1, s) == 5
  }

  /** The first Run cells of the walk all hold s. */
  lemma {:induction false} RunCellsHold(b: Board, x: int, y: int, dx: int, dy: int, s: int)
    requires Square(b) && InBounds(|b|, x, y) && IsDir(dx, dy)
    ensures forall i :: 1 <= i <= Run(b, x, y, dx, dy, s) ==> Holds(b, StepFrom(x, y, dx, dy, i), s)
    decreases Room(|b|, x, y, dx, dy)
  {
    if Holds(b, (x + dx, y + dy), s) {
      var k := Run(b, x + dx, y + dy, dx, dy, s);
      RunCellsHold(b, x + dx, y + dy, dx, dy, s);
      forall i | 1 <= i <= k + 1
        ensures Holds(b, StepFrom(x, y, dx, dy, i), s)
      {
        StepFromNext(x, y, dx, dy, i - 1);
      }
    }
  }

  /** RunEnd is the cell right after the run. */
  lemma {:induction false} RunEndAfterRun(b: Board, x: int, y: int, dx: int, dy: int, s: int)
    requires Square(b) && InBounds(|b|, x, y) && IsDir(dx, dy)
    ensures RunEnd(b, x, y, dx, dy, s) == StepFrom(x, y, dx, dy, Run(b, x, y, dx, dy, s) + 1)
    decreases Room(|b|, x, y, dx, dy)
  {
    if Holds(b, (x + dx, y + dy), s) {
      RunEndAfterRun(b, x + dx, y + dy, dx, dy, s);
      RunEndShift(b, x, y, dx, dy, s);
    } else {
      assert StepFrom(x, y, dx, dy, 1) == (x + dx, y + dy);
    }
  }

  /** One step of RunEndAfterRun: the fact for the next cell gives it for (x, y). */
  lemma RunEndShift(b: Board, x: int, y: int, dx: int, dy: int, s: int)
    requires Square(b) && InBounds(|b|, x, y) && IsDir(dx, dy) && Holds(b, (x + dx, y + dy), s)
    requires RunEnd(b, x + dx, y + dy, dx, dy, s) == StepFrom(x + dx, y + dy, dx, dy, Run(b, x + dx, y + dy, dx, dy, s) + 1)
    ensures RunEnd(b, x, y, dx, dy, s) == StepFrom(x, y, dx, dy, Run(b, x, y, dx, dy, s) + 1)
  {
    var k := Run(b, x + dx, y + dy, dx, dy, s);
    assert Run(b, x, y, dx, dy, s) == k + 1;
    StepFromNext(x, y, dx, dy, k + 1);
  }

  /** The walk ends on a cell that is off the board or does not hold s. */
  lemma {:induction false} RunEndStops(b: Board, x: int, y: int, dx: int, dy: int, s: int)
    requires Square(b) && InBounds(|b|, x, y) && IsDir(dx, dy)
    ensures !Holds(b, RunEnd(b, x, y, dx, dy, s), s)
    decreases Room(|b|, x, y, dx, dy)
  {
    if Holds(b, (x + dx, y + dy), s) {
      RunEndStops(b, x + dx, y + dy, dx, dy, s);
    }
  }

  /**
    The walk counts a maximal run: the first Run cells along (dx, dy) all
    hold s, the next one is off the board or does not hold s, and RunEnd is
    that next cell.
   */
  lemma RunIsMaximal(b: Board, x: int, y: int, dx: int, dy: int, s: int)
    requires Square(b) && InBounds(|b|, x, y) && IsDir(dx, dy)
    ensures forall i :: 1 <= i <= Run(b, x, y, dx, dy, s) ==> Holds(b, StepFrom(x, y, dx, dy, i), s)
    ensures !Holds(b, StepFrom(x, y, dx, dy, Run(b, x, y, dx, dy, s) + 1), s)
    ensures RunEnd(b, x, y, dx, dy, s) == StepFrom(x, y, dx, dy, Run(b, x, y, dx, dy, s) + 1)
  {
    RunCellsHold(b, x, y, dx, dy, s);
    RunEndAfterRun(b, x, y, dx, dy, s);
    RunEndStops(b, x, y, dx, dy, s);
  }

  /** A maximal run of length k along (dx, dy): cells 1..k hold s, cell k+1 does not. */
  predicate MaximalRun(b: Board, x: int, y: int, dx: int, dy: int, s: int, k: nat)
    requires Square(b)
  {
    (forall i :: 1 <= i <= k ==> Holds(b, StepFrom(x, y, dx, dy, i), s))
    && !Holds(b, StepFrom(x, y, dx, dy, k + 1), s)
  }

  lemma RunIsMaximalRun(b: Board, x: int, y: int, dx: int, dy: int, s: int)
    requires Square(b) && InBounds(|b|, x, y) && IsDir(dx, dy)
    ensures MaximalRun(b, x, y, dx, dy, s, Run(b, x, y, dx, dy, s))
  {
    RunIsMaximal(b, x, y, dx, dy, s);
  }

  /** The maximal run is unique, so Run is its length. */
  lemma {:induction false} RunIsUnique(b: Board, x: int, y: int, dx: int, dy: int, s: int, k: nat)
    requires Square(b) && InBounds(|b|, x, y) && IsDir(dx, dy)
    requires MaximalRun(b, x, y, dx, dy, s, k)
    ensures Run(b, x, y, dx, dy, s) == k
  {
    var r := Run(b, x, y, dx, dy, s);
    RunIsMaximal(b, x, y, dx, dy, s);
    assert 1 <= r + 1 <= k ==> Holds(b, StepFrom(x, y, dx, dy, r + 1), s);
    assert 1 <= k + 1 <= r ==> Holds(b, StepFrom(x, y, dx, dy, k + 1), s);
  }

  /** Maximal runs of a and c cells on the two sides of (x, y) along axis d, with a + c + 1 == 5. */
  predicate FiveOnAxis(b: Board, x: int, y: int, d: (int, int), s: int, a: nat, c: nat)
    requires Square(b)
  {
    a + c == 4 && MaximalRun(b, x, y, d.0, d.1, s, a) && MaximalRun(b, x, y, -d.0, -d.1, s, c)
  }

  /**
    The exactly-five rule stated without the walk: (x, y) wins for s iff
    some axis has maximal runs of a and c cells on its two sides with
    a + c + 1 == 5. A line of six or more through (x, y) is not a win.
   */
  lemma WinAtIffExactlyFive(b: Board, x: int, y: int, s: int)
    requires Square(b) && InBounds(|b|, x, y)
    ensures WinAt(b, x, y, s) <==>
      exists i, a: nat, c: nat :: 0 <= i < |Axes| && FiveOnAxis(b, x, y, Axes[i], s, a, c)
  {
    if WinAt(b, x, y, s) {
      WinGivesFive(b, x, y, s);
    }
    if exists i, a: nat, c: nat :: 0 <= i < |Axes| && FiveOnAxis(b, x, y, Axes[i], s, a, c) {
      var i, a: nat, c: nat :| 0 <= i < |Axes| && FiveOnAxis(b, x, y, Axes[i], s, a, c);
      FiveGivesWin(b, x, y, s, i, a, c);
    }
  }

  lemma WinGivesFive(b: Board, x: int, y: int, s: int)
    requires Square(b) && InBounds(|b|, x, y) && WinAt(b, x, y, s)
    ensures exists i, a: nat, c: nat :: 0 <= i < |Axes| && FiveOnAxis(b, x, y, Axes[i], s, a, c)
  {
    AxesAreDirs();
    var i :| 0 <= i < |Axes| && AxisCount(b, x, y, Axes[i].0, Axes[i].1, s) == 5;
    var a, c := CountGivesFive(b, x, y, Axes[i], s);
    assert FiveOnAxis(b, x, y, Axes[i], s, a, c);
  }

  /** An axis counting five has maximal runs on its two sides adding up to four. */
  lemma CountGivesFive(b: Board, x: int, y: int, d: (int, int), s: int) returns (a: nat, c: nat)
    requires Square(b) && InBounds(|b|, x, y) && IsDir(d.0, d.1) && IsDir(-d.0, -d.1)
    requires AxisCount(b, x, y, d.0, d.1, s) == 5
    ensures FiveOnAxis(b, x, y, d, s, a, c)
  {
    a, c := Run(b, x, y, d.0, d.1, s), Run(b, x, y, -d.0, -d.1, s);
    RunIsMaximalRun(b, x, y, d.0, d.1, s);
    RunIsMaximalRun(b, x, y, -d.0, -d.1, s);
  }

  lemma FiveGivesWin(b: Board, x: int, y: int, s: int, i: int, a: nat, c: nat)
    requires Square(b) && InBounds(|b|, x, y)
    requires 0 <= i < |Axes| && FiveOnAxis(b, x, y, Axes[i], s, a, c)
    ensures WinAt(b, x, y, s)
  {
    AxesAreDirs();
    FiveGivesCount(b, x, y, Axes[i], s, a, c);
    assert AxisCount(b, x, y, Axes[i].0, Axes[i].1, s) == 5;
  }

  /** Maximal runs adding up to four on the two sides of an axis make it count five. */
  lemma FiveGivesCount(b: Board, x: int, y: int, d: (int, int), s: int, a: nat, c: nat)
    requires Square(b) && InBounds(|b|, x, y) && IsDir(d.0, d.1) && IsDir(-d.0, -d.1)
    requires FiveOnAxis(b, x, y, d, s, a, c)
    ensures AxisCount(b, x, y, d.0, d.1, s) == 5
  {
    RunIsUnique(b, x, y, d.0, d.1, s, a);
    RunIsUnique(b, x, y, -d.0, -d.1, s, c);
  }

  /** Linear progress along (dx, dy): every step strictly increases it. */
  function Progress(dx: int, dy: int, x: int, y: int): int {
    (if dx == 1 then x else if dx == -1 then -x else 0) + (if dy == 1 then y else if dy == -1 then -y else 0)
  }

  /** b' differs from b at most in the cell q. */
  ghost predicate AgreeExcept(b: Board, b': Board, qx: int, qy: int)
    requires Square(b) && Square(b')
  {
    |b'| == |b| && forall i, j :: InBounds(|b|, i, j) && (i, j) != (qx, qy) ==> b'[i][j] == b[i][j]
  }

  /** The i-th cell of the walk is i or more ahead of the start. */
  lemma ProgressAlong(dx: int, dy: int, x: int, y: int, i: nat)
    requires IsDir(dx, dy)
    ensures var p := StepFrom(x, y, dx, dy, i); Progress(dx, dy, p.0, p.1) >= Progress(dx, dy, x, y) + i
  {
  }

  /** A walk never visits a cell at or behind its start, so changing such a cell does not change it. */
  lemma RunIgnoresCellBehind(b: Board, b': Board, x: int, y: int, dx: int, dy: int, s: int, qx: int, qy: int)
    requires Square(b) && Square(b') && AgreeExcept(b, b', qx, qy)
    requires InBounds(|b|, x, y) && IsDir(dx, dy)
    requires Progress(dx, dy, qx, qy) <= Progress(dx, dy, x, y)
    ensures Run(b', x, y, dx, dy, s) == Run(b, x, y, dx, dy, s)
  {
    var k := Run(b, x, y, dx, dy, s);
    RunIsMaximalRun(b, x, y, dx, dy, s);
    forall i | 1 <= i <= k + 1
      ensures Holds(b', StepFrom(x, y, dx, dy, i), s) == Holds(b, StepFrom(x, y, dx, dy, i), s)
    {
      ProgressAlong(dx, dy, x, y, i);
      HoldsAgree(b, b', StepFrom(x, y, dx, dy, i), s, qx, qy);
    }
    assert MaximalRun(b', x, y, dx, dy, s, k);
    RunIsUnique(b', x, y, dx, dy, s, k);
  }

  lemma HoldsAgree(b: Board, b': Board, p: Pos, s: int, qx: int, qy: int)
    requires Square(b) && Square(b') && AgreeExcept(b, b', qx, qy) && p != (qx, qy)
    ensures Holds(b', p, s) == Holds(b, p, s)
  {
  }

  /** The win rule at (x, y) never reads (x, y) itself. */
  lemma WinAtIgnoresOwnCell(b: Board, x: int, y: int, s: int, v: int)
    requires Square(b) && InBounds(|b|, x, y)
    ensures WinAt(Place(b, x, y, v), x, y, s) == WinAt(b, x, y, s)
  {
    var b' := Place(b, x, y, v);
    assert AgreeExcept(b, b', x, y);
    RunsIgnoreOwnCell(b, b', x, y, s);
    AxesAreDirs();
    assert forall i :: 0 <= i < |Axes| ==>
      AxisCount(b', x, y, Axes[i].0, Axes[i].1, s) == AxisCount(b, x, y, Axes[i].0, Axes[i].1, s);
  }

  /** No walk from (x, y) reads (x, y). */
  lemma RunsIgnoreOwnCell(b: Board, b': Board, x: int, y: int, s: int)
    requires Square(b) && Square(b') && AgreeExcept(b, b', x, y) && InBounds(|b|, x, y)
    ensures forall dx, dy :: IsDir(dx, dy) ==> Run(b', x, y, dx, dy, s) == Run(b, x, y, dx, dy, s)
  {
    forall dx, dy | IsDir(dx, dy)
      ensures Run(b', x, y, dx, dy, s) == Run(b, x, y, dx, dy, s)
    {
      RunIgnoresCellBehind(b, b', x, y, dx, dy, s, x, y);
    }
  }

  /** A 6 x 6 board whose row 0 starts with k black stones; every other cell is empty. */
  function RowBoard(k: nat): (b: Board)
    ensures IsBoard(b, 6)
  {
    seq(6, i => if i == 0 then seq(6, j => if j < k then 1 else 0) else seq(6, _ => 0))
  }

  /**
    The exactly-five rule on a line of k stones starting at the corner:
    the corner wins for black when k is 5, and not when k is 6 (an
    overline) or fewer than 5.
   */
  lemma RowOfKWinsIffFive(k: nat)
    requires 1 <= k <= 6
    ensures WinAt(RowBoard(k), 0, 0, 1) <==> k == 5
  {
    var b := RowBoard(k);
    AxesAreDirs();
    assert MaximalRun(b, 0, 0, 0, 1, 1, k - 1) by {
      forall i | 1 <= i <= k - 1
        ensures Holds(b, StepFrom(0, 0, 0, 1, i), 1)
      {
        assert StepFrom(0, 0, 0, 1, i) == (0, i);
      }
      assert StepFrom(0, 0, 0, 1, k) == (0, k);
    }
    RunIsUnique(b, 0, 0, 0, 1, 1, k - 1);
    assert AxisCount(b, 0, 0, 0, 1, 1) == k;
    assert AxisCount(b, 0, 0, 1, 0, 1) == 1;
    assert AxisCount(b, 0, 0, 1, 1, 1) == 1;
    assert AxisCount(b, 0, 0, 1, -1, 1) == 1;
    assert forall i :: 0 <= i < |Axes| ==>
      AxisCount(b, 0, 0, Axes[i].0, Axes[i].1, 1) == if i == 1 then k else 1;
    if k == 5 {
      assert AxisCount(b, 0, 0, Axes[1].0, Axes[1].1, 1) == 5;
      assert WinAt(b, 0, 0, 1);
    } else {
      assert !WinAt(b, 0, 0, 1);
    }
  }
}
