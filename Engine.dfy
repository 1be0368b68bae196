/**
 * The `GameBoard` object of GameBoard.swift: its fields updated in place by
 * its methods, each method proved against the value-level definitions of
 * the Board and Rules modules.
 */
module Engine {
  import opened Board
  import opened Rules

  class GameBoard {
    var board: Grid
    var currentPlayer: Player
    var gameOver: bool
    var winner: Cell
    var timeLeft: int
    var winLength: int
    var boardSize: int

    /** The fields as a `State` value. */
    ghost function Snapshot(): State
      reads this
    {
      State(board, currentPlayer, gameOver, winner, timeLeft, winLength, boardSize)
    }

    ghost predicate Valid()
      reads this
    {
      Inv(Snapshot())
    }

    /** `init` with the field initialisers (GameBoard.swift:12-24). */
    constructor ()
      ensures Valid() && Snapshot() == Initial()
    {
      currentPlayer := X;
      gameOver := false;
      winner := Empty;
      timeLeft := CountdownStart;
      winLength := StartWinLength;
      boardSize := StartSize;
      board := EmptyBoard(StartSize);
      new;
      InitialInv();
    }

    /** `gameStarted`: some cell of the flattened board holds a mark (GameBoard.swift:26-28). */
    function GameStarted(): (started: bool)
      reads this
      ensures started <==> exists i, j :: InBounds(board, i, j) && board[i][j] != Empty
    {
      var cells := Flatten(board);
      assert forall i, j :: InBounds(board, i, j) ==> board[i][j] in cells;
      exists x :: x in cells && x != Empty
    }

    /**
     * `makeMove` (GameBoard.swift:30-62): the new fields and the scheduled
     * follow-up are those of `Move`, and the invariant is kept.
     */
    method MakeMove(row: int, col: int, mode: GameMode) returns (next: Scheduled)
      requires Valid() && 0 <= row < boardSize && 0 <= col < boardSize
      modifies this
      ensures (Snapshot(), next) == Move(old(Snapshot()), row, col, mode)
      ensures Valid()
    {
      ghost var s := Snapshot();
      MovePreservesInv(s, row, col, mode);
      MoveByCase(s, row, col, mode);
      if board[row][col] != Empty || gameOver {
        return Nothing;
      }
      board := Place(board, row, col, Taken(currentPlayer));
      ghost var placed := Snapshot();
      var won := CheckWin();
      if won {
        winner := Taken(currentPlayer);
        gameOver := true;
        assert Snapshot() == placed.(winner := Taken(s.currentPlayer), gameOver := true);
        return TimerCancelled;
      }
      var full := CheckDraw();
      if full {
        var wonNow := CheckWin();
        if !wonNow {
          ExpandBoard();
          assert Snapshot() == placed.(board := Expand(placed.board), boardSize := s.boardSize + 2, timeLeft := CountdownStart);
          return Nothing;
        } else {
          assert false;
        }
      }
      currentPlayer := Other(currentPlayer);
      next := Nothing;
      if mode == PlayerVsBot && currentPlayer == O && !gameOver {
        next := BotMoveDue;
        assert Snapshot() == placed.(currentPlayer := Other(s.currentPlayer));
      } else if !gameOver {
        StartTimer();
        next := CountdownStarted;
        assert Snapshot() == placed.(currentPlayer := Other(s.currentPlayer), timeLeft := CountdownStart);
      }
    }

    /** `makeBotMove` (GameBoard.swift:64-67): the move `findBestMove` picks. */
    method MakeBotMove(mode: GameMode) returns (next: Scheduled)
      requires Valid()
      modifies this
      ensures Valid()
      ensures BotMove(old(Snapshot()), Snapshot(), next, mode)
    {
      ghost var s := Snapshot();
      var best := FindBestMove();
      assert InBounds(board, best.0, best.1) by {
        if !HasEmpty(board) {
          assert InBounds(board, 0, 0);
        }
      }
      next := MakeMove(best.0, best.1, mode);
      assert BotChoice(s.board, s.winLength, best.0, best.1);
    }

    /**
     * `findBestMove` (GameBoard.swift:69-110): tries marks in empty cells and
     * takes them back, so the board ends as it began, and answers a cell in
     * the bot's priority order.
     */
    method FindBestMove() returns (best: (int, int))
      requires Valid()
      modifies this`board
      ensures board == old(board)
      ensures BotChoice(board, winLength, best.0, best.1)
    {
      var n := boardSize;
      for i := 0 to n
        invariant board == old(board)
        invariant forall i2, j2 :: Before(i2, j2, i, 0) ==> !TrialWins(board, winLength, O, i2, j2)
      {
        for j := 0 to n
          invariant board == old(board)
          invariant forall i2, j2 :: Before(i2, j2, i, j) ==> !TrialWins(board, winLength, O, i2, j2)
        {
          if board[i][j] == Empty {
            var won := TrialMove(i, j, O);
            if won {
              return (i, j);
            }
          }
        }
      }
      for i := 0 to n
        invariant board == old(board)
        invariant forall i2, j2 :: Before(i2, j2, i, 0) ==> !TrialWins(board, winLength, X, i2, j2)
      {
        for j := 0 to n
          invariant board == old(board)
          invariant forall i2, j2 :: Before(i2, j2, i, j) ==> !TrialWins(board, winLength, X, i2, j2)
        {
          if board[i][j] == Empty {
            var won := TrialMove(i, j, X);
            if won {
              return (i, j);
            }
          }
        }
      }
      if boardSize > 1 && board[boardSize / 2][boardSize / 2] == Empty {
        return (boardSize / 2, boardSize / 2);
      }
      var spots := EmptySpots();
      if |spots| > 0 {
        var k :| 0 <= k < |spots|;
        best := spots[k];
      } else {
        forall i, j | InBounds(board, i, j) ensures board[i][j] != Empty {
          assert (i, j) !in spots;
        }
        best := (0, 0);
      }
    }

    /**
     * One trial of `findBestMove` (GameBoard.swift:73-78, 86-91): write `p`
     * into the empty cell (i, j), run `checkWin`, and write "" back.
     */
    method TrialMove(i: int, j: int, p: Player) returns (won: bool)
      requires Valid() && InBounds(board, i, j) && board[i][j] == Empty
      modifies this`board
      ensures board == old(board)
      ensures won == TrialWins(board, winLength, p, i, j)
    {
      board := board[i := board[i][j := Taken(p)]];
      won := CheckWin();
      board := board[i := board[i][j := Empty]];
      assert board[i] == old(board)[i];
    }

    /**
     * `checkWin` (GameBoard.swift:112-149): scans every non-empty cell in
     * every direction and is true exactly when the board holds a run of
     * `winLength` equal marks.
     */
    method CheckWin() returns (won: bool)
      requires Square(board) && winLength >= 1
      ensures won == HasWin(board, winLength)
    {
      var directions := [Right, Down, DownRight, UpRight];
      for row := 0 to |board|
        invariant forall r, c, d :: r < row ==> !LineAt(board, winLength, r, c, d)
      {
        for col := 0 to |board[row]|
          invariant forall r, c, d :: Before(r, c, row, col) ==> !LineAt(board, winLength, r, c, d)
        {
          if board[row][col] != Empty {
            for n := 0 to |directions|
              invariant forall k :: 0 <= k < n ==> !LineAt(board, winLength, row, col, directions[k])
            {
              var count := RunLength(row, col, directions[n]);
              if count >= winLength {
                return true;
              }
            }
            forall d ensures !LineAt(board, winLength, row, col, d) {
              var k := match d case Right => 0 case Down => 1 case DownRight => 2 case UpRight => 3;
              assert directions[k] == d;
            }
          }
        }
      }
      return false;
    }

    /**
     * The inner loop of `checkWin` (GameBoard.swift:126-139): counts the
     * cells from (row, col) in direction `d`, stopping at the first one off
     * the board or with another mark, and reaches `winLength` exactly when a
     * run starts there.
     */
    method RunLength(row: int, col: int, d: Direction) returns (count: int)
      requires Square(board) && InBounds(board, row, col) && board[row][col] != Empty && winLength >= 1
      ensures 1 <= count <= winLength
      ensures count == winLength <==> LineAt(board, winLength, row, col, d)
      ensures forall k :: 1 <= k < count ==> Matches(board, row, col, d, k)
      ensures count < winLength ==> !Matches(board, row, col, d, count)
    {
      var symbol := board[row][col];
      count := 1;
      for step := 1 to winLength
        invariant count == step
        invariant forall k :: 1 <= k < step ==> Matches(board, row, col, d, k)
      {
        var newRow := row + DRow(d) * step;
        var newCol := col + DCol(d) * step;
        if 0 <= newRow < |board| && 0 <= newCol < |board[row]| && board[newRow][newCol] == symbol {
          count := count + 1;
        } else {
          assert !Matches(board, row, col, d, step);
          break;
        }
      }
    }

    /** `checkDraw` (GameBoard.swift:152-161): true exactly when no cell is empty. */
    method CheckDraw() returns (full: bool)
      ensures full == IsFull(board)
    {
      for i := 0 to |board|
        invariant forall r, c :: r < i && InBounds(board, r, c) ==> board[r][c] != Empty
      {
        for j := 0 to |board[i]|
          invariant forall r, c :: Before(r, c, i, j) && InBounds(board, r, c) ==> board[r][c] != Empty
        {
          if board[i][j] == Empty {
            return false;
          }
        }
      }
      return true;
    }

    /**
     * `expandBoard` (GameBoard.swift:163-174): pads every row with an empty
     * cell at each end, adds an empty row above and below, and restarts the
     * countdown; `winLength` is left alone.
     */
    method ExpandBoard()
      requires Square(board) && boardSize == |board|
      modifies this`board, this`boardSize, this`timeLeft
      ensures board == Expand(old(board)) && boardSize == old(boardSize) + 2
      ensures timeLeft == CountdownStart
    {
      boardSize := boardSize + 2;
      for i := 0 to |board|
        invariant boardSize == old(boardSize) + 2
        invariant |board| == |old(board)|
        invariant forall k :: 0 <= k < i ==> board[k] == [Empty] + old(board)[k] + [Empty]
        invariant forall k :: i <= k < |board| ==> board[k] == old(board)[k]
      {
        board := board[i := [Empty] + board[i] + [Empty]];
      }
      var newRow := EmptyRow(boardSize);
      board := [newRow] + board;
      board := board + [newRow];
      timeLeft := CountdownStart;
    }

    /** `resetGame` (GameBoard.swift:178-186): back to the starting state; `winLength` is not touched. */
    method ResetGame()
      requires Valid()
      modifies this
      ensures Valid() && Snapshot() == Initial()
      ensures winLength == old(winLength)
    {
      boardSize := StartSize;
      board := EmptyBoard(boardSize);
      currentPlayer := X;
      gameOver := false;
      winner := Empty;
      timeLeft := CountdownStart;
      InitialInv();
    }

    /** The part of `startTimer` that changes a field (GameBoard.swift:189). */
    method StartTimer()
      modifies this`timeLeft
      ensures timeLeft == CountdownStart
    {
      timeLeft := CountdownStart;
    }

    /** One tick of the timer that `startTimer` subscribes (GameBoard.swift:194-201). */
    method Tick(mode: GameMode) returns (next: Scheduled)
      requires Valid()
      modifies this
      ensures Valid()
      ensures TickStep(old(Snapshot()), Snapshot(), next, mode)
    {
      ghost var s := Snapshot();
      ghost var ticked := s.(timeLeft := s.timeLeft - 1);
      timeLeft := timeLeft - 1;
      assert Snapshot() == ticked;
      InvIgnoresCountdown(s, timeLeft);
      next := Nothing;
      if timeLeft <= 0 {
        next := MakeRandomMove(mode);
        assert RandomMove(ticked, Snapshot(), next, mode);
        assert TickStep(s, Snapshot(), next, mode);
      } else {
        assert TickStep(s, Snapshot(), next, mode);
      }
    }

    /**
     * `makeRandomMove` (GameBoard.swift:204-218): nothing once the game is
     * over, otherwise `makeMove` on some empty cell, if there is one.
     */
    method MakeRandomMove(mode: GameMode) returns (next: Scheduled)
      requires Valid()
      modifies this
      ensures Valid()
      ensures RandomMove(old(Snapshot()), Snapshot(), next, mode)
    {
      if gameOver {
        return Nothing;
      }
      var spots := EmptySpots();
      if |spots| > 0 {
        var k :| 0 <= k < |spots|;
        var (r, c) := spots[k];
        next := MakeMove(r, c, mode);
      } else {
        forall i, j | InBounds(board, i, j) ensures board[i][j] != Empty {
          assert (i, j) !in spots;
        }
        next := Nothing;
      }
    }

    /**
     * The `emptySpots` list of `findBestMove` and `makeRandomMove`
     * (GameBoard.swift:100-107, 206-213): exactly the empty cells.
     */
    method EmptySpots() returns (spots: seq<(int, int)>)
      requires Square(board) && boardSize == |board|
      ensures forall rc :: rc in spots <==> InBounds(board, rc.0, rc.1) && board[rc.0][rc.1] == Empty
    {
      spots := [];
      for i := 0 to boardSize
        invariant forall rc :: rc in spots <==> rc.0 < i && InBounds(board, rc.0, rc.1) && board[rc.0][rc.1] == Empty
      {
        for j := 0 to boardSize
          invariant forall rc :: rc in spots <==>
            Before(rc.0, rc.1, i, j) && InBounds(board, rc.0, rc.1) && board[rc.0][rc.1] == Empty
        {
          if board[i][j] == Empty {
            spots := spots + [(i, j)];
          }
        }
      }
    }
  }
}
