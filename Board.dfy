/**
 * The tic-tac-toe grid of GameBoard.swift as values: cells, the win rule
 * that `checkWin` scans for, the full-board rule of `checkDraw`, the
 * one-cell write of `makeMove`, the ring that `expandBoard` adds, and the
 * priority order in which the bot picks a cell.
 */
module Board {

  /** The two marks; the source spells them "X" and "O". */
  datatype Player = X | O

  /** A cell of the grid; the source spells `Empty` as "". */
  datatype Cell = Empty | Taken(p: Player)

  /** The board: a list of rows. */
  type Grid = seq<seq<Cell>>

  /** The player who moves after `p` (GameBoard.swift:53). */
  function Other(p: Player): (q: Player)
    ensures q != p
  {
    if p == X then O else X
  }

  /** Every row is as long as there are rows. */
  ghost predicate Square(b: Grid) {
    forall i :: 0 <= i < |b| ==> |b[i]| == |b|
  }

  predicate InBounds(b: Grid, r: int, c: int) {
    0 <= r < |b| && 0 <= c < |b[r]|
  }

  ghost predicate IsFull(b: Grid) {
    forall i, j :: InBounds(b, i, j) ==> b[i][j] != Empty
  }

  /** The four directions `checkWin` walks in (GameBoard.swift:113-118). */
  datatype Direction = Right | Down | DownRight | UpRight

  /** Row offset of one step: `dy` in the source. */
  function DRow(d: Direction): int {
    match d
    case Right => 0
    case Down => 1
    case DownRight => 1
    case UpRight => -1
  }

  /** Column offset of one step: `dx` in the source. */
  function DCol(d: Direction): int {
    match d
    case Right => 1
    case Down => 0
    case DownRight => 1
    case UpRight => 1
  }

  /** The cell `k` steps from (r, c) in direction `d` is on the board and holds the same mark as (r, c). */
  ghost predicate Matches(b: Grid, r: int, c: int, d: Direction, k: int) {
    InBounds(b, r, c) &&
    var r2 := r + DRow(d) * k;
    var c2 := c + DCol(d) * k;
    InBounds(b, r2, c2) && b[r2][c2] == b[r][c]
  }

  /** A run of `w` equal marks starts at the non-empty cell (r, c) and goes in direction `d`. */
  ghost predicate LineAt(b: Grid, w: int, r: int, c: int, d: Direction) {
    InBounds(b, r, c) && b[r][c] != Empty &&
    forall k :: 1 <= k < w ==> Matches(b, r, c, d, k)
  }

  /** Some run of `w` equal marks is on the board: what `checkWin` looks for. */
  ghost predicate HasWin(b: Grid, w: int) {
    exists r, c, d :: LineAt(b, w, r, c, d)
  }

  /** Some run of `w` marks of player `p` is on the board. */
  ghost predicate WinsFor(b: Grid, w: int, p: Player) {
    exists r, c, d :: LineAt(b, w, r, c, d) && b[r][c] == Taken(p)
  }

  /** The board with cell (r, c) overwritten by `x`: `board[row][col] = x`. */
  function Place(b: Grid, r: int, c: int, x: Cell): (b': Grid)
    requires InBounds(b, r, c)
    ensures |b'| == |b| && forall i :: 0 <= i < |b| ==> |b'[i]| == |b[i]|
    ensures b'[r][c] == x
    ensures forall i, j :: InBounds(b, i, j) && (i != r || j != c) ==> b'[i][j] == b[i][j]
  {
    b[r := b[r][c := x]]
  }

  function EmptyRow(n: nat): (row: seq<Cell>)
    ensures |row| == n && forall j :: 0 <= j < n ==> row[j] == Empty
  {
    seq(n, _ => Empty)
  }

  /** An n-by-n board of empty cells (GameBoard.swift:23, 180). */
  function EmptyBoard(n: nat): (b: Grid)
    ensures |b| == n && Square(b)
    ensures forall i, j :: InBounds(b, i, j) ==> b[i][j] == Empty
  {
    seq(n, _ => EmptyRow(n))
  }

  /** (i, j) is on the outer ring of an n-by-n board. */
  predicate OnRing(n: int, i: int, j: int) {
    i == 0 || j == 0 || i == n - 1 || j == n - 1
  }

  /**
   * The board after `expandBoard`: an empty cell at both ends of every row,
   * then an empty row above and below (GameBoard.swift:165-172).
   */
  function Expand(b: Grid): (e: Grid)
    requires Square(b)
    ensures |e| == |b| + 2 && Square(e)
    ensures forall i, j :: InBounds(b, i, j) ==> e[i + 1][j + 1] == b[i][j]
    ensures forall i, j :: InBounds(e, i, j) && OnRing(|e|, i, j) ==> e[i][j] == Empty
    ensures !IsFull(e)
  {
    var n := |b| + 2;
    var middle := seq(|b|, i requires 0 <= i < |b| => [Empty] + b[i] + [Empty]);
    var e := [EmptyRow(n)] + middle + [EmptyRow(n)];
    assert InBounds(e, 0, 0) && e[0][0] == Empty;
    e
  }

  /** The whole board as one list of cells, row after row: `board.flatMap { $0 }`. */
  function Flatten(b: Grid): (cells: seq<Cell>)
    ensures forall x :: x in cells <==> exists i, j :: InBounds(b, i, j) && b[i][j] == x
  {
    if b == [] then []
    else
      var rest := Flatten(b[1..]);
      assert forall i, j :: InBounds(b[1..], i, j) ==> InBounds(b, i + 1, j) && b[1..][i][j] == b[i + 1][j];
      assert forall i, j :: InBounds(b, i, j) && i > 0 ==> InBounds(b[1..], i - 1, j) && b[1..][i - 1][j] == b[i][j];
      b[0] + rest
  }

  /* ---------------------------------------------------------------------
   * The bot's choice (GameBoard.swift:69-110)
   * ------------------------------------------------------------------- */

  /** Writing `p` into the empty cell (i, j) gives a board on which `checkWin` is true. */
  ghost predicate TrialWins(b: Grid, w: int, p: Player, i: int, j: int) {
    InBounds(b, i, j) && b[i][j] == Empty && HasWin(Place(b, i, j, Taken(p)), w)
  }

  /** (i2, j2) comes before (i, j) in row-major order. */
  predicate Before(i2: int, j2: int, i: int, j: int) {
    i2 < i || (i2 == i && j2 < j)
  }

  /** (i, j) is the first cell in row-major order whose `p`-trial wins. */
  ghost predicate FirstTrialWin(b: Grid, w: int, p: Player, i: int, j: int) {
    TrialWins(b, w, p, i, j) &&
    forall i2, j2 :: Before(i2, j2, i, j) ==> !TrialWins(b, w, p, i2, j2)
  }

  ghost predicate SomeTrialWins(b: Grid, w: int, p: Player) {
    exists i, j :: TrialWins(b, w, p, i, j)
  }

  ghost predicate HasEmpty(b: Grid) {
    exists i, j :: InBounds(b, i, j) && b[i][j] == Empty
  }

  /**
   * The cells `findBestMove` may return, in its priority order: the first
   * winning cell for O, else the first winning cell for X (a block), else the
   * centre when it is empty, else any empty cell, else (0, 0).
   */
  ghost predicate BotChoice(b: Grid, w: int, r: int, c: int)
    requires Square(b)
  {
    var n := |b|;
    if SomeTrialWins(b, w, O) then FirstTrialWin(b, w, O, r, c)
    else if SomeTrialWins(b, w, X) then FirstTrialWin(b, w, X, r, c)
    else if n > 1 && b[n / 2][n / 2] == Empty then r == n / 2 && c == n / 2
    else if HasEmpty(b) then InBounds(b, r, c) && b[r][c] == Empty
    else r == 0 && c == 0
  }

  /* ---------------------------------------------------------------------
   * Counting marks
   * ------------------------------------------------------------------- */

  /** The number of non-empty cells in a row. */
  function RowMarks(row: seq<Cell>): nat {
    if row == [] then 0 else (if row[0] != Empty then 1 else 0) + RowMarks(row[1..])
  }

  /** The number of non-empty cells on the board. */
  function Marks(b: Grid): nat {
    if b == [] then 0 else RowMarks(b[0]) + Marks(b[1..])
  }

  lemma {:induction false} RowMarksAppend(u: seq<Cell>, v: seq<Cell>)
    ensures RowMarks(u + v) == RowMarks(u) + RowMarks(v)
  {
    if u != [] {
      assert (u + v)[1..] == u[1..] + v;
      RowMarksAppend(u[1..], v);
    } else {
      assert u + v == v;
    }
  }

  lemma {:induction false} RowMarksNone(row: seq<Cell>)
    requires forall j :: 0 <= j < |row| ==> row[j] == Empty
    ensures RowMarks(row) == 0
  {
    if row != [] {
      RowMarksNone(row[1..]);
    }
  }

  /** Writing a mark into an empty cell of a row adds one mark to it. */
  lemma {:induction false} RowMarksWrite(row: seq<Cell>, j: int, p: Player)
    requires 0 <= j < |row| && row[j] == Empty
    ensures RowMarks(row[j := Taken(p)]) == RowMarks(row) + 1
  {
    if j > 0 {
      assert row[j := Taken(p)][1..] == row[1..][j - 1 := Taken(p)];
      RowMarksWrite(row[1..], j - 1, p);
    } else {
      assert row[j := Taken(p)][1..] == row[1..];
    }
  }

  /** Replacing one row changes the board's count by the difference of the two rows' counts. */
  lemma {:induction false} MarksWriteRow(b: Grid, i: int, row: seq<Cell>)
    requires 0 <= i < |b|
    ensures Marks(b[i := row]) + RowMarks(b[i]) == Marks(b) + RowMarks(row)
  {
    if i > 0 {
      assert b[i := row][1..] == b[1..][i - 1 := row];
      MarksWriteRow(b[1..], i - 1, row);
    } else {
      assert b[i := row][1..] == b[1..];
    }
  }

  lemma {:induction false} MarksAppend(u: Grid, v: Grid)
    ensures Marks(u + v) == Marks(u) + Marks(v)
  {
    if u != [] {
      assert (u + v)[1..] == u[1..] + v;
      MarksAppend(u[1..], v);
    } else {
      assert u + v == v;
    }
  }

  /** Two boards whose rows hold the same number of marks, row by row, hold the same number of marks. */
  lemma {:induction false} MarksRowwise(u: Grid, v: Grid)
    requires |u| == |v| && forall i :: 0 <= i < |u| ==> RowMarks(u[i]) == RowMarks(v[i])
    ensures Marks(u) == Marks(v)
  {
    if u != [] {
      MarksRowwise(u[1..], v[1..]);
    }
  }

  /** `makeMove`'s write into an empty cell adds exactly one mark to the board. */
  lemma PlaceAddsMark(b: Grid, r: int, c: int, p: Player)
    requires InBounds(b, r, c) && b[r][c] == Empty
    ensures Marks(Place(b, r, c, Taken(p))) == Marks(b) + 1
  {
    RowMarksWrite(b[r], c, p);
    MarksWriteRow(b, r, b[r][c := Taken(p)]);
  }

  /** Expansion adds only empty cells: the number of marks is unchanged. */
  lemma ExpandKeepsMarks(b: Grid)
    requires Square(b)
    ensures Marks(Expand(b)) == Marks(b)
  {
    var e := Expand(b);
    var n := |e|;
    var middle := e[1..n - 1];
    assert e == [e[0]] + middle + [e[n - 1]];
    forall i | 0 <= i < |b| ensures RowMarks(middle[i]) == RowMarks(b[i]) {
      assert middle[i] == [Empty] + b[i] + [Empty];
      RowMarksAppend([Empty] + b[i], [Empty]);
      RowMarksAppend([Empty], b[i]);
    }
    MarksRowwise(middle, b);
    RowMarksNone(e[0]);
    RowMarksNone(e[n - 1]);
    MarksAppend([e[0]] + middle, [e[n - 1]]);
    MarksAppend([e[0]], middle);
  }

  /* ---------------------------------------------------------------------
   * How the win rule meets the other operations
   * ------------------------------------------------------------------- */

  /** A run on the board maps to the run one row and one column further on the expanded board, and back. */
  lemma ExpandLine(b: Grid, w: int, r: int, c: int, d: Direction)
    requires Square(b)
    ensures LineAt(b, w, r, c, d) <==> LineAt(Expand(b), w, r + 1, c + 1, d)
  {
    var e := Expand(b);
    var r1, c1 := r + 1, c + 1;
    if LineAt(b, w, r, c, d) {
      forall k | 1 <= k < w ensures Matches(e, r1, c1, d, k) {
        ExpandStep(b, r, c, d, k);
      }
    }
    if LineAt(e, w, r1, c1, d) {
      assert !OnRing(|e|, r1, c1);
      forall k | 1 <= k < w ensures Matches(b, r, c, d, k) {
        assert Matches(e, r1, c1, d, k);
        ExpandStep(b, r, c, d, k);
      }
    }
  }

  /** One step of a run, seen on the board and on the expanded board. */
  lemma ExpandStep(b: Grid, r: int, c: int, d: Direction, k: int)
    requires Square(b)
    ensures InBounds(b, r, c) && b[r][c] != Empty ==> (Matches(b, r, c, d, k) <==> Matches(Expand(b), r + 1, c + 1, d, k))
  {
    var r2, c2 := r + DRow(d) * k, c + DCol(d) * k;
    assert r + 1 + DRow(d) * k == r2 + 1 && c + 1 + DCol(d) * k == c2 + 1;
    ExpandCell(b, r, c);
    ExpandCell(b, r2, c2);
  }

  /** Cell (i, j) of the board is cell (i + 1, j + 1) of the expanded board; a mark there came from the board. */
  lemma ExpandCell(b: Grid, i: int, j: int)
    requires Square(b)
    ensures InBounds(b, i, j) ==> InBounds(Expand(b), i + 1, j + 1) && Expand(b)[i + 1][j + 1] == b[i][j]
    ensures InBounds(Expand(b), i + 1, j + 1) && Expand(b)[i + 1][j + 1] != Empty ==> InBounds(b, i, j)
  {
    var e := Expand(b);
    if InBounds(e, i + 1, j + 1) && e[i + 1][j + 1] != Empty {
      assert !OnRing(|e|, i + 1, j + 1);
    }
  }

  /** Expansion neither creates nor destroys a win. */
  lemma ExpandPreservesWins(b: Grid, w: int)
    requires Square(b)
    ensures HasWin(Expand(b), w) == HasWin(b, w)
  {
    var e := Expand(b);
    if HasWin(b, w) {
      var r, c, d :| LineAt(b, w, r, c, d);
      ExpandLine(b, w, r, c, d);
    }
    if HasWin(e, w) {
      var r, c, d :| LineAt(e, w, r, c, d);
      ExpandLine(b, w, r - 1, c - 1, d);
      ExpandCell(b, r - 1, c - 1);
    }
  }

  /** Expansion neither creates nor destroys a win for player `p`. */
  lemma ExpandKeepsWinsFor(b: Grid, w: int, p: Player)
    requires Square(b)
    ensures WinsFor(Expand(b), w, p) == WinsFor(b, w, p)
  {
    var e := Expand(b);
    if WinsFor(b, w, p) {
      var r, c, d :| LineAt(b, w, r, c, d) && b[r][c] == Taken(p);
      ExpandLine(b, w, r, c, d);
      ExpandCell(b, r, c);
    }
    if WinsFor(e, w, p) {
      var r, c, d :| LineAt(e, w, r, c, d) && e[r][c] == Taken(p);
      ExpandLine(b, w, r - 1, c - 1, d);
      ExpandCell(b, r - 1, c - 1);
    }
  }

  /** Cell (r, c) moved `k` steps in direction `d` is cell (r2, c2). */
  predicate StepTo(r: int, c: int, d: Direction, k: int, r2: int, c2: int) {
    r + DRow(d) * k == r2 && c + DCol(d) * k == c2
  }

  /**
   * A run that a one-cell write creates passes through the written cell: the
   * cell is the run's start or one of its later steps. So the run is made of
   * the written mark.
   */
  lemma NewLineHoldsMove(b: Grid, w: int, r: int, c: int, x: Cell, r0: int, c0: int, d: Direction)
    requires InBounds(b, r, c) && b[r][c] == Empty
    requires LineAt(Place(b, r, c, x), w, r0, c0, d) && !LineAt(b, w, r0, c0, d)
    ensures Place(b, r, c, x)[r0][c0] == x
    ensures (r0 == r && c0 == c) || exists k :: 1 <= k < w && StepTo(r0, c0, d, k, r, c)
  {
    var b' := Place(b, r, c, x);
    if r0 != r || c0 != c {
      assert InBounds(b, r0, c0) && b[r0][c0] == b'[r0][c0];
      var k :| 1 <= k < w && !Matches(b, r0, c0, d, k);
      assert Matches(b', r0, c0, d, k);
      assert StepTo(r0, c0, d, k, r, c);
    }
  }

  /** The cell `k` steps from (r, c) in direction `d` is on the board and holds `p`'s mark. */
  ghost predicate MarkAt(b: Grid, r: int, c: int, d: Direction, k: int, p: Player) {
    var r2 := r + DRow(d) * k;
    var c2 := c + DCol(d) * k;
    InBounds(b, r2, c2) && b[r2][c2] == Taken(p)
  }

  /** `w - 1` marks of `p` in a row with a free cell just before them: a mark in that cell wins. */
  lemma WinAtStart(b: Grid, w: int, r: int, c: int, d: Direction, p: Player)
    requires InBounds(b, r, c) && b[r][c] == Empty
    requires forall k :: 1 <= k < w ==> MarkAt(b, r, c, d, k, p)
    ensures HasWin(Place(b, r, c, Taken(p)), w)
  {
    var b' := Place(b, r, c, Taken(p));
    forall k | 1 <= k < w ensures Matches(b', r, c, d, k) {
      assert MarkAt(b, r, c, d, k, p);
      var r2, c2 := r + DRow(d) * k, c + DCol(d) * k;
      assert r2 != r || c2 != c;
    }
    assert LineAt(b', w, r, c, d);
  }

  /** `w - 1` marks of `p` in a row with a free cell just after them: a mark in that cell wins too. */
  lemma WinAtEnd(b: Grid, w: int, r: int, c: int, d: Direction, p: Player, er: int, ec: int)
    requires StepTo(r, c, d, w - 1, er, ec) && InBounds(b, er, ec) && b[er][ec] == Empty
    requires forall k :: 0 <= k < w - 1 ==> MarkAt(b, r, c, d, k, p)
    ensures HasWin(Place(b, er, ec, Taken(p)), w)
  {
    var b' := Place(b, er, ec, Taken(p));
    if w <= 1 {
      assert LineAt(b', w, er, ec, d);
    } else {
      assert MarkAt(b, r, c, d, 0, p);
      forall k | 1 <= k < w ensures Matches(b', r, c, d, k) {
        if k < w - 1 {
          assert MarkAt(b, r, c, d, k, p);
          var r2, c2 := r + DRow(d) * k, c + DCol(d) * k;
          assert r2 != er || c2 != ec;
        }
      }
      assert LineAt(b', w, r, c, d);
    }
  }

  /** On a board without a win, a move can only create a win for the player who made it. */
  lemma OnlyMoverWins(b: Grid, w: int, r: int, c: int, p: Player)
    requires InBounds(b, r, c) && b[r][c] == Empty && !HasWin(b, w)
    ensures HasWin(Place(b, r, c, Taken(p)), w) ==> WinsFor(Place(b, r, c, Taken(p)), w, p)
    ensures !WinsFor(Place(b, r, c, Taken(p)), w, Other(p))
  {
    var b' := Place(b, r, c, Taken(p));
    forall r0, c0, d | LineAt(b', w, r0, c0, d) ensures b'[r0][c0] == Taken(p) {
      NewLineHoldsMove(b, w, r, c, Taken(p), r0, c0, d);
    }
  }
}
