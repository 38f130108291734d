/**
  Board values: an N x N grid of cells holding 0 (empty), 1 (black stone)
  or 2 (white stone), indexed board[x][y] as in the Python lists of lists.
  This is the value a strategy receives (the engine's board copy), and the
  abstract view of the engine's mutable board.
 */
module Grid {
  type Board = seq<seq<int>>
  type Pos = (int, int)

  predicate IsBoard(b: Board, n: nat) {
    |b| == n && forall i :: 0 <= i < n ==> |b[i]| == n
  }

  predicate Square(b: Board) {
    IsBoard(b, |b|)
  }

  predicate InBounds(n: int, x: int, y: int) {
    0 <= x < n && 0 <= y < n
  }

  /** The board `[[0] * n for _ in range(n)]`. */
  function EmptyBoard(n: nat): (b: Board)
    ensures IsBoard(b, n)
    ensures forall i, j :: InBounds(n, i, j) ==> b[i][j] == 0
  {
    seq(n, _ => seq(n, _ => 0))
  }

  /** `board[x][y] = v` on a board value. */
  function Place(b: Board, x: int, y: int, v: int): (r: Board)
    requires Square(b) && InBounds(|b|, x, y)
    ensures IsBoard(r, |b|) && r[x][y] == v
    ensures forall i, j :: InBounds(|b|, i, j) && (i, j) != (x, y) ==> r[i][j] == b[i][j]
  {
    b[x := b[x][y := v]]
  }

  predicate Full(b: Board) {
    forall i, j :: 0 <= i < |b| && 0 <= j < |b[i]| ==> b[i][j] != 0
  }

  predicate HasEmpty(b: Board)
    requires Square(b)
  {
    exists i, j :: 0 <= i < |b| && 0 <= j < |b| && b[i][j] == 0
  }

  /** Number of non-zero cells of one row. */
  function RowStones(r: seq<int>): nat {
    if r == [] then 0 else RowStones(r[..|r| - 1]) + (if r[|r| - 1] != 0 then 1 else 0)
  }

  /** Number of non-zero cells of a board. */
  function Stones(b: Board): nat {
    if b == [] then 0 else Stones(b[..|b| - 1]) + RowStones(b[|b| - 1])
  }

  lemma {:induction false} RowStonesBound(r: seq<int>)
    ensures RowStones(r) <= |r|
    ensures RowStones(r) == |r| <==> forall j :: 0 <= j < |r| ==> r[j] != 0
  {
    if r != [] {
      var p := r[..|r| - 1];
      RowStonesBound(p);
      assert forall j :: 0 <= j < |p| ==> p[j] == r[j];
    }
  }

  lemma {:induction false} RowStonesUpdate(r: seq<int>, y: int, v: int)
    requires 0 <= y < |r| && r[y] == 0 && v != 0
    ensures RowStones(r[y := v]) == RowStones(r) + 1
  {
    var r' := r[y := v];
    var last := |r| - 1;
    if y == last {
      assert r'[..last] == r[..last];
    } else {
      assert r'[..last] == r[..last][y := v];
      RowStonesUpdate(r[..last], y, v);
    }
  }

  /** Placing a stone on an empty cell adds exactly one stone. */
  lemma {:induction false} StonesAfterPlace(b: Board, x: int, y: int, v: int)
    requires Square(b) && InBounds(|b|, x, y) && b[x][y] == 0 && v != 0
    ensures Stones(Place(b, x, y, v)) == Stones(b) + 1
  {
    StonesAfterUpdate(b, x, y, v);
  }

  lemma {:induction false} StonesAfterUpdate(b: Board, x: int, y: int, v: int)
    requires 0 <= x < |b| && 0 <= y < |b[x]| && b[x][y] == 0 && v != 0
    ensures Stones(b[x := b[x][y := v]]) == Stones(b) + 1
  {
    var b' := b[x := b[x][y := v]];
    var last := |b| - 1;
    if x == last {
      assert b'[..last] == b[..last];
      RowStonesUpdate(b[x], y, v);
    } else {
      assert b'[..last] == b[..last][x := b[x][y := v]];
      StonesAfterUpdate(b[..last], x, y, v);
    }
  }

  lemma EmptyBoardHasNoStones(n: nat)
    ensures Stones(EmptyBoard(n)) == 0
  {
    var b := EmptyBoard(n);
    ZeroStones(b);
  }

  lemma {:induction false} ZeroStones(b: Board)
    requires forall i, j :: 0 <= i < |b| && 0 <= j < |b[i]| ==> b[i][j] == 0
    ensures Stones(b) == 0
  {
    if b != [] {
      var last := |b| - 1;
      ZeroStones(b[..last]);
      ZeroRowStones(b[last]);
    }
  }

  lemma {:induction false} ZeroRowStones(r: seq<int>)
    requires forall j :: 0 <= j < |r| ==> r[j] == 0
    ensures RowStones(r) == 0
  {
    if r != [] {
      ZeroRowStones(r[..|r| - 1]);
    }
  }

  /** A board of side n holds at most n*n stones, and holds n*n exactly when it is full. */
  lemma FullIffAllStones(b: Board, n: nat)
    requires IsBoard(b, n)
    ensures Stones(b) <= n * n
    ensures Full(b) <==> Stones(b) == n * n
  {
    RowsStonesBound(b, n);
    if Full(b) {
      FullRowsAllStones(b, n);
    }
    if Stones(b) == n * n {
      AllStonesFullRows(b, n);
    }
  }

  lemma {:induction false} RowsStonesBound(b: Board, n: nat)
    requires forall i :: 0 <= i < |b| ==> |b[i]| == n
    ensures Stones(b) <= |b| * n
  {
    if b != [] {
      var last := |b| - 1;
      RowsStonesBound(b[..last], n);
      RowStonesBound(b[last]);
      MulStep(last, n);
    }
  }

  lemma {:induction false} FullRowsAllStones(b: Board, n: nat)
    requires forall i :: 0 <= i < |b| ==> |b[i]| == n
    requires Full(b)
    ensures Stones(b) == |b| * n
  {
    if b != [] {
      var last := |b| - 1;
      var p := b[..last];
      assert forall i :: 0 <= i < |p| ==> p[i] == b[i];
      FullRowsAllStones(p, n);
      RowStonesBound(b[last]);
      MulStep(last, n);
      assert forall j :: 0 <= j < n ==> b[last][j] != 0;
    }
  }

  lemma {:induction false} AllStonesFullRows(b: Board, n: nat)
    requires forall i :: 0 <= i < |b| ==> |b[i]| == n
    requires Stones(b) == |b| * n
    ensures Full(b)
  {
    if b != [] {
      var last := |b| - 1;
      var p, r := b[..last], b[last];
      assert b == p + [r];
      RowsStonesBound(p, n);
      RowStonesBound(r);
      MulStep(last, n);
      AllStonesFullRows(p, n);
      FullAppendRow(p, r);
    }
  }

  lemma FullAppendRow(p: Board, r: seq<int>)
    requires Full(p) && forall j :: 0 <= j < |r| ==> r[j] != 0
    ensures Full(p + [r])
  {
    var b := p + [r];
    forall i, j | 0 <= i < |b| && 0 <= j < |b[i]|
      ensures b[i][j] != 0
    {
      if i < |p| {
        assert b[i] == p[i];
      }
    }
  }

  lemma MulStep(k: nat, n: nat)
    ensures (k + 1) * n == k * n + n
  {
  }
}
