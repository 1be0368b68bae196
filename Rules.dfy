/**
 * The game of GameBoard.swift as a state machine over values: the fields of
 * the `GameBoard` object as a record, what one `makeMove` does to them, what
 * the timer's forced move may do, and the invariant every operation keeps.
 */
module Rules {
  import opened Board

  /** The two game modes (GameMode.swift:3-5). */
  datatype GameMode = PlayerVsPlayer | PlayerVsBot

  /**
   * What `makeMove` leaves scheduled for later: nothing, the move timer
   * cancelled, the bot's move queued after its delay, or a fresh countdown.
   */
  datatype Scheduled = Nothing | TimerCancelled | BotMoveDue | CountdownStarted

  const StartSize := 3        // GameBoard.swift:19
  const StartWinLength := 3   // GameBoard.swift:17
  const CountdownStart := 5   // GameBoard.swift:16, 173, 184, 189

  /** The fields of a `GameBoard` object; `winner == Empty` is the source's "". */
  datatype State = State(
    board: Grid,
    currentPlayer: Player,
    gameOver: bool,
    winner: Cell,
    timeLeft: int,
    winLength: int,
    boardSize: int)

  /** The state `init` and `resetGame` produce (GameBoard.swift:13-24, 178-186). */
  function Initial(): State {
    State(EmptyBoard(StartSize), X, false, Empty, CountdownStart, StartWinLength, StartSize)
  }

  /** The board is square and `boardSize` is its side. */
  ghost predicate Shaped(s: State) {
    Square(s.board) && s.boardSize == |s.board|
  }

  /**
   * What holds of every reachable state: the board is square with an odd side
   * of at least 3, the win length is 3, the game is over exactly when the board
   * holds a win, and then `winner` is the one player with a winning run; a game
   * in progress always has an empty cell left.
   */
  ghost predicate Inv(s: State) {
    Shaped(s) && s.boardSize >= StartSize && s.boardSize % 2 == 1 &&
    s.winLength == StartWinLength &&
    (s.gameOver <==> HasWin(s.board, s.winLength)) &&
    (s.gameOver <==> s.winner != Empty) &&
    (s.winner.Taken? ==>
      WinsFor(s.board, s.winLength, s.winner.p) && !WinsFor(s.board, s.winLength, Other(s.winner.p))) &&
    (!s.gameOver ==> !IsFull(s.board))
  }

  /**
   * One call of `makeMove(row: r, col: c, gameMode: mode)` (GameBoard.swift:30-62):
   * the new fields and what is left scheduled. The second `checkWin` of line 43
   * is false wherever it runs, so its `else` branch (lines 46-49) has no case here.
   */
  ghost function Move(s: State, r: int, c: int, mode: GameMode): (State, Scheduled)
    requires Shaped(s) && InBounds(s.board, r, c)
  {
    if s.board[r][c] != Empty || s.gameOver then (s, Nothing)
    else
      var b := Place(s.board, r, c, Taken(s.currentPlayer));
      if HasWin(b, s.winLength) then
        (s.(board := b, winner := Taken(s.currentPlayer), gameOver := true), TimerCancelled)
      else if IsFull(b) then
        (s.(board := Expand(b), boardSize := s.boardSize + 2, timeLeft := CountdownStart), Nothing)
      else
        var next := Other(s.currentPlayer);
        if mode == PlayerVsBot && next == O then
          (s.(board := b, currentPlayer := next), BotMoveDue)
        else
          (s.(board := b, currentPlayer := next, timeLeft := CountdownStart), CountdownStarted)
  }

  /**
   * What `makeRandomMove` may do (GameBoard.swift:204-218): nothing once the
   * game is over or when no cell is empty, otherwise `makeMove` on some empty cell.
   */
  ghost predicate RandomMove(s: State, t: State, next: Scheduled, mode: GameMode)
    requires Shaped(s)
  {
    if s.gameOver || !HasEmpty(s.board) then t == s && next == Nothing
    else exists r, c :: InBounds(s.board, r, c) && s.board[r][c] == Empty && (t, next) == Move(s, r, c, mode)
  }

  /**
   * What `makeBotMove` may do (GameBoard.swift:64-67): `makeMove` on a cell
   * that `findBestMove` may return.
   */
  ghost predicate BotMove(s: State, t: State, next: Scheduled, mode: GameMode)
    requires Shaped(s)
  {
    exists r, c :: BotChoice(s.board, s.winLength, r, c) && InBounds(s.board, r, c) && (t, next) == Move(s, r, c, mode)
  }

  /**
   * One tick of the move timer (GameBoard.swift:194-201): the countdown drops
   * by one, and at zero or below a random move is forced.
   */
  ghost predicate TickStep(s: State, t: State, next: Scheduled, mode: GameMode)
    requires Shaped(s)
  {
    var s' := s.(timeLeft := s.timeLeft - 1);
    if s'.timeLeft > 0 then t == s' && next == Nothing else RandomMove(s', t, next, mode)
  }

  /* ---------------------------------------------------------------------
   * Properties of a move
   * ------------------------------------------------------------------- */

  /** `Move` case by case, in the order `makeMove` takes its branches. */
  lemma MoveByCase(s: State, r: int, c: int, mode: GameMode)
    requires Shaped(s) && InBounds(s.board, r, c)
    ensures s.board[r][c] != Empty || s.gameOver ==> Move(s, r, c, mode) == (s, Nothing)
    ensures s.board[r][c] == Empty && !s.gameOver ==>
      var b := Place(s.board, r, c, Taken(s.currentPlayer));
      var next := Other(s.currentPlayer);
      Square(b) && |b| == s.boardSize &&
      (HasWin(b, s.winLength) ==>
        Move(s, r, c, mode) == (s.(board := b, winner := Taken(s.currentPlayer), gameOver := true), TimerCancelled)) &&
      (!HasWin(b, s.winLength) && IsFull(b) ==>
        Move(s, r, c, mode) == (s.(board := Expand(b), boardSize := s.boardSize + 2, timeLeft := CountdownStart), Nothing)) &&
      (!HasWin(b, s.winLength) && !IsFull(b) && mode == PlayerVsBot && next == O ==>
        Move(s, r, c, mode) == (s.(board := b, currentPlayer := next), BotMoveDue)) &&
      (!HasWin(b, s.winLength) && !IsFull(b) && !(mode == PlayerVsBot && next == O) ==>
        Move(s, r, c, mode) == (s.(board := b, currentPlayer := next, timeLeft := CountdownStart), CountdownStarted))
  {
  }

  /** The starting state satisfies the invariant. */
  lemma InitialInv()
    ensures Inv(Initial())
  {
    var b := EmptyBoard(StartSize);
    assert InBounds(b, 0, 0) && b[0][0] == Empty;
    forall r, c, d ensures !LineAt(b, StartWinLength, r, c, d) {
    }
  }

  /** A move onto an occupied cell, or after the game is over, changes nothing. */
  lemma MoveRejected(s: State, r: int, c: int, mode: GameMode)
    requires Shaped(s) && InBounds(s.board, r, c)
    requires s.board[r][c] != Empty || s.gameOver
    ensures Move(s, r, c, mode) == (s, Nothing)
  {
  }

  /**
   * A move that neither wins nor fills the board writes the mover's mark into
   * exactly the target cell, leaves every other cell alone and hands the turn
   * to the other player, queueing the bot when it is O's turn against the
   * computer and restarting the countdown otherwise.
   */
  lemma MoveOrdinary(s: State, r: int, c: int, mode: GameMode)
    requires Shaped(s) && InBounds(s.board, r, c)
    requires s.board[r][c] == Empty && !s.gameOver
    requires !HasWin(Place(s.board, r, c, Taken(s.currentPlayer)), s.winLength)
    requires !IsFull(Place(s.board, r, c, Taken(s.currentPlayer)))
    ensures var (t, next) := Move(s, r, c, mode);
      |t.board| == |s.board| && Square(t.board) && t.board[r][c] == Taken(s.currentPlayer) &&
      (forall i, j :: InBounds(s.board, i, j) && (i != r || j != c) ==> t.board[i][j] == s.board[i][j]) &&
      t.currentPlayer != s.currentPlayer && !t.gameOver && t.winner == s.winner &&
      t.boardSize == s.boardSize && t.winLength == s.winLength &&
      (next == BotMoveDue <==> mode == PlayerVsBot && t.currentPlayer == O) &&
      (next != BotMoveDue ==> next == CountdownStarted && t.timeLeft == CountdownStart) &&
      (next == BotMoveDue ==> t.timeLeft == s.timeLeft)
  {
  }

  /**
   * A winning move ends the game with the mover as winner, keeps the turn with
   * the mover and cancels the timer; the mover is the only player with a run.
   */
  lemma MoveWinning(s: State, r: int, c: int, mode: GameMode)
    requires Inv(s) && InBounds(s.board, r, c)
    requires s.board[r][c] == Empty && !s.gameOver
    requires HasWin(Place(s.board, r, c, Taken(s.currentPlayer)), s.winLength)
    ensures var (t, next) := Move(s, r, c, mode);
      t.gameOver && t.winner == Taken(s.currentPlayer) && t.currentPlayer == s.currentPlayer &&
      t.board[r][c] == Taken(s.currentPlayer) && next == TimerCancelled &&
      Square(t.board) && |t.board| == |s.board| &&
      (forall i, j :: InBounds(s.board, i, j) && (i != r || j != c) ==> t.board[i][j] == s.board[i][j]) &&
      t.timeLeft == s.timeLeft && t.boardSize == s.boardSize && t.winLength == s.winLength &&
      WinsFor(t.board, t.winLength, s.currentPlayer) &&
      !WinsFor(t.board, t.winLength, Other(s.currentPlayer))
  {
    OnlyMoverWins(s.board, s.winLength, r, c, s.currentPlayer);
  }

  /**
   * A move that fills the board without a win grows it by an empty ring
   * instead of ending in a draw: the side grows by 2, the mark lands one row
   * and one column further in, the turn stays with the mover, the countdown
   * restarts, the win length is unchanged, and a cell is free again.
   */
  lemma MoveFullExpands(s: State, r: int, c: int, mode: GameMode)
    requires Shaped(s) && InBounds(s.board, r, c)
    requires s.board[r][c] == Empty && !s.gameOver
    requires !HasWin(Place(s.board, r, c, Taken(s.currentPlayer)), s.winLength)
    requires IsFull(Place(s.board, r, c, Taken(s.currentPlayer)))
    ensures var (t, next) := Move(s, r, c, mode);
      |t.board| == |s.board| + 2 && t.boardSize == s.boardSize + 2 && Square(t.board) &&
      t.board[r + 1][c + 1] == Taken(s.currentPlayer) &&
      (forall i, j :: InBounds(s.board, i, j) && (i != r || j != c) ==> t.board[i + 1][j + 1] == s.board[i][j]) &&
      t.currentPlayer == s.currentPlayer && !t.gameOver && t.winner == s.winner &&
      t.timeLeft == CountdownStart && t.winLength == s.winLength && next == Nothing &&
      !IsFull(t.board) && !HasWin(t.board, t.winLength)
  {
    var b := Place(s.board, r, c, Taken(s.currentPlayer));
    assert InBounds(b, r, c);
    ExpandPreservesWins(b, s.winLength);
  }

  /** A move accepted by `makeMove` adds exactly one mark to the board; a rejected one adds none. */
  lemma MoveAddsOneMark(s: State, r: int, c: int, mode: GameMode)
    requires Shaped(s) && InBounds(s.board, r, c)
    ensures var t := Move(s, r, c, mode).0;
      Marks(t.board) == if s.board[r][c] != Empty || s.gameOver then Marks(s.board) else Marks(s.board) + 1
  {
    if s.board[r][c] == Empty && !s.gameOver {
      var b := Place(s.board, r, c, Taken(s.currentPlayer));
      PlaceAddsMark(s.board, r, c, s.currentPlayer);
      if !HasWin(b, s.winLength) && IsFull(b) {
        ExpandKeepsMarks(b);
      }
    }
  }

  /**
   * Every move keeps the invariant; in particular `makeMove` never sets
   * `gameOver` without a winner, so no game ends in a draw.
   */
  lemma MovePreservesInv(s: State, r: int, c: int, mode: GameMode)
    requires Inv(s) && InBounds(s.board, r, c)
    ensures Inv(Move(s, r, c, mode).0)
  {
    var t := Move(s, r, c, mode).0;
    if s.board[r][c] == Empty && !s.gameOver {
      var b := Place(s.board, r, c, Taken(s.currentPlayer));
      OnlyMoverWins(s.board, s.winLength, r, c, s.currentPlayer);
      if HasWin(b, s.winLength) {
        assert t == s.(board := b, winner := Taken(s.currentPlayer), gameOver := true);
      } else if IsFull(b) {
        ExpandedInv(s, b);
      } else {
        assert t.board == b && !t.gameOver && t.winner == Empty;
      }
    }
  }

  /** The state after a full board without a run has expanded keeps the invariant. */
  lemma ExpandedInv(s: State, b: Grid)
    requires Inv(s) && !s.gameOver && Square(b) && |b| == s.boardSize && !HasWin(b, s.winLength)
    ensures Inv(s.(board := Expand(b), boardSize := s.boardSize + 2, timeLeft := CountdownStart))
  {
    ExpandPreservesWins(b, s.winLength);
    ExpandKeepsWinsFor(b, s.winLength, X);
    ExpandKeepsWinsFor(b, s.winLength, O);
  }

  /** The countdown plays no part in the invariant. */
  lemma InvIgnoresCountdown(s: State, n: int)
    requires Inv(s)
    ensures Inv(s.(timeLeft := n))
  {
  }

  /** Once the game is over, no move changes anything: the result is final. */
  lemma GameOverIsFinal(s: State, r: int, c: int, mode: GameMode)
    requires Inv(s) && s.gameOver && InBounds(s.board, r, c)
    ensures Move(s, r, c, mode).0 == s && HasWin(s.board, s.winLength) && s.winner != Empty
  {
  }

  /**
   * When the countdown forces a move in a game still in progress, exactly one
   * mark is added: the forced move is never a no-op.
   */
  lemma ForcedMoveAddsOneMark(s: State, t: State, next: Scheduled, mode: GameMode)
    requires Inv(s) && !s.gameOver
    ensures RandomMove(s, t, next, mode) ==> Marks(t.board) == Marks(s.board) + 1
  {
    if RandomMove(s, t, next, mode) {
      var i, j :| InBounds(s.board, i, j) && s.board[i][j] == Empty;
      assert HasEmpty(s.board);
      var r, c :| InBounds(s.board, r, c) && s.board[r][c] == Empty && (t, next) == Move(s, r, c, mode);
      MoveAddsOneMark(s, r, c, mode);
    }
  }

  /* ---------------------------------------------------------------------
   * Properties of the bot's choice
   * ------------------------------------------------------------------- */

  /** When any cell is free, the bot picks a free cell, so its move is never rejected. */
  lemma BotChoiceIsFree(b: Grid, w: int, r: int, c: int)
    requires Square(b) && HasEmpty(b) && BotChoice(b, w, r, c)
    ensures InBounds(b, r, c) && b[r][c] == Empty
  {
  }

  /**
   * On a live board where O can win at once, the bot's move wins the game for
   * O; where it cannot but X could, the bot picks the free cell where X would
   * have won.
   */
  lemma BotTakesWinOrBlocks(s: State, r: int, c: int, mode: GameMode)
    requires Inv(s) && !s.gameOver && s.currentPlayer == O && BotChoice(s.board, s.winLength, r, c)
    ensures SomeTrialWins(s.board, s.winLength, O) ==>
      InBounds(s.board, r, c) && Move(s, r, c, mode).0.winner == Taken(O)
    ensures !SomeTrialWins(s.board, s.winLength, O) && SomeTrialWins(s.board, s.winLength, X) ==>
      TrialWins(s.board, s.winLength, X, r, c)
  {
    if SomeTrialWins(s.board, s.winLength, O) {
      assert TrialWins(s.board, s.winLength, O, r, c);
      assert HasWin(Place(s.board, r, c, Taken(s.currentPlayer)), s.winLength);
    }
  }

  /** The board  X X _ / O O _ / _ _ _  of the example below. */
  function ExampleBoard(): (b: Grid)
    ensures Square(b) && |b| == 3
  {
    [[Taken(X), Taken(X), Empty], [Taken(O), Taken(O), Empty], [Empty, Empty, Empty]]
  }

  /** On the example board an O at (0, 2) completes no run: the top row would be X X O. */
  lemma CornerTrialLoses()
    ensures !TrialWins(ExampleBoard(), 3, O, 0, 2)
  {
    var t := [[Taken(X), Taken(X), Taken(O)], [Taken(O), Taken(O), Empty], [Empty, Empty, Empty]];
    assert Place(ExampleBoard(), 0, 2, Taken(O))[0] == t[0];
    assert Place(ExampleBoard(), 0, 2, Taken(O)) == t;
    forall r0, c0, d | InBounds(t, r0, c0) && t[r0][c0] != Empty
      ensures !Matches(t, r0, c0, d, 1) || !Matches(t, r0, c0, d, 2)
    {
      assert r0 == 0 || (r0 == 1 && c0 < 2);
    }
    forall r0, c0, d ensures !LineAt(t, 3, r0, c0, d) {
      if InBounds(t, r0, c0) && t[r0][c0] != Empty {
        assert !Matches(t, r0, c0, d, 1) || !Matches(t, r0, c0, d, 2);
      }
    }
  }

  /**
   * On the board  X X _ / O O _ / _ _ _  the bot must complete O's middle row
   * at (1, 2): an O at (0, 2), the only earlier free cell, wins nothing.
   */
  lemma BotCompletesRowExample(r: int, c: int)
    requires BotChoice(ExampleBoard(), 3, r, c)
    ensures r == 1 && c == 2
  {
    var b := ExampleBoard();
    var winning := Place(b, 1, 2, Taken(O));
    assert Matches(winning, 1, 0, Right, 1) && Matches(winning, 1, 0, Right, 2);
    assert LineAt(winning, 3, 1, 0, Right);
    assert TrialWins(b, 3, O, 1, 2);
    CornerTrialLoses();
  }
}
