# Tic-tac-toe engine with a self-expanding board, in Dafny

This project models the game engine of a small SwiftUI tic-tac-toe app: the
`GameBoard` class of `GameBoard.swift`. The board is a square grid of cells,
each empty or holding X or O. The class also keeps a current player, the
`gameOver` and `winner` flags, a move countdown `timeLeft`, a fixed win
length and the board side `boardSize`.

A move writes the current player's mark and then scans the whole board for
three equal marks in a row. A board that fills up without a winner does not
end in a draw: it grows by an empty ring, and the same player keeps the turn.
Against the computer, O is a bot with a greedy one-ply heuristic. It tries a
mark in each empty cell and takes it back. It plays a winning cell first,
then a blocking cell, then the centre, then any empty cell.

The project has three modules, one per layer:

- `Board` (Board.dfy) works on board values. It defines the cells, the win
  rule (`LineAt`, `HasWin`, `WinsFor`), the full-board rule (`IsFull`), the
  one-cell write (`Place`), the ring expansion (`Expand`), the mark count
  (`Marks`) and the bot's priority order (`BotChoice`). It proves how these
  fit together: expansion keeps every run, adds no mark and frees a cell, and
  a move can only create a win for the player who made it.
- `Rules` (Rules.dfy) treats the object's fields as a `State` record. `Move`
  says what one `makeMove` call does, `RandomMove` covers `makeRandomMove`,
  `BotMove` covers `makeBotMove` and `TickStep` covers one timer tick. `Inv`
  is the invariant every reachable state satisfies:
  - the board is square, with an odd side of at least 3;
  - the win length is 3;
  - `gameOver` holds exactly when the board holds a run;
  - `winner` is then the only player with a run;
  - a game in progress always has an empty cell.

  The lemmas prove the per-move properties and that `Inv` is preserved.
- `Engine` (Engine.dfy) is the `GameBoard` class. Its methods update the
  fields in place, as in the source, and each method is proved against the
  definitions above. `CheckWin` and `CheckDraw` are the source's nested
  loops, proved equal to `HasWin` and `IsFull`. `FindBestMove` writes and
  undoes trial marks in `board`. It is proved to leave the board as it found
  it and to answer a cell that `BotChoice` allows. `MakeMove` is proved to
  produce exactly the state `Move` gives and to keep `Inv`.

The string marks `""`, `"X"` and `"O"` become the datatypes `Player` and
`Cell`. `winner == Empty` stands for the source's `winner == ""`.
`randomElement()` becomes a nondeterministic choice (`:|`) of any element of
the list of empty cells. The asynchronous work that `makeMove` leaves behind
becomes its `Scheduled` result:
- the bot's move queued after its delay;
- the countdown restarted at 5;
- the move timer cancelled;
- nothing.

Five behaviours of `GameBoard.swift` that the model keeps as written:
- `checkWin` scans the whole board, not just the lines through the last move;
- `winLength` stays 3: expansion never raises it;
- X always starts: nothing picks the first player at random;
- expansion keeps the turn with the mover instead of switching players;
- `resetGame` takes no argument, so it takes no game mode.

The `else` branch at GameBoard.swift:46-49 can never run. `checkWin` was
false at line 35 and the board has not changed since, so it is false again at
line 43. `MakeMove` proves this with `assert false` in that branch, and `Move`
has no case for it.

## Model

| member | source | states |
|---|---|---|
| `Board.Other` | GameBoard.swift:53 | the player who moves next is the other of the two marks |
| `Board.Place` | GameBoard.swift:33 | the write `board[row][col] = mark` puts the mark in exactly that cell, leaves every other cell unchanged and keeps every row length |
| `Board.EmptyBoard` | GameBoard.swift:23 | the starting board is n by n, square, with every cell empty |
| `Board.Expand` | GameBoard.swift:163-174 | expansion turns an n by n board into an (n+2) by (n+2) square board; old cell (i, j) is at (i+1, j+1), every cell of the new outer ring is empty, and the result is never full |
| `Board.Flatten` | GameBoard.swift:27 | `board.flatMap { $0 }` holds exactly the marks found in some cell of the board |
| `Board.PlaceAddsMark` | GameBoard.swift:33 | writing a mark into an empty cell adds exactly one mark to the board |
| `Board.ExpandKeepsMarks` | GameBoard.swift:163-174 | expansion adds only empty cells, so the number of marks is unchanged |
| `Board.ExpandPreservesWins` | GameBoard.swift:163-174 | a board holds a run exactly when its expansion does |
| `Board.ExpandKeepsWinsFor` | GameBoard.swift:163-174 | a given player has a run on the expanded board exactly when they had one before |
| `Board.NewLineHoldsMove` | GameBoard.swift:112-149 | a run that a one-cell write creates starts at the written cell or reaches it a whole number of steps along, and it is made of the written mark |
| `Board.WinAtStart` | GameBoard.swift:112-149 | a mark written just before a line of `winLength - 1` equal marks completes a run that `checkWin` finds |
| `Board.WinAtEnd` | GameBoard.swift:112-149 | a mark written just after a line of `winLength - 1` equal marks completes a run too, although the scan only walks forward from each start cell |
| `Board.OnlyMoverWins` | GameBoard.swift:33-39 | on a board without a run, a run created by one move belongs to the mover, and the other player has none |
| `Rules.InitialInv` | GameBoard.swift:12-24 | the starting state (empty 3 by 3, X to move, not over, no winner, countdown 5, win length 3) satisfies the invariant |
| `Rules.MoveRejected` | GameBoard.swift:31 | a move onto an occupied cell, or after the game is over, changes no field and schedules nothing |
| `Rules.MoveOrdinary` | GameBoard.swift:33-61 | a move that neither wins nor fills the board puts the mover's mark in exactly the target cell, leaves every other cell unchanged, keeps the board square and flips the current player; it queues the bot when O is next in bot mode, and otherwise restarts the countdown at 5 |
| `Rules.MoveWinning` | GameBoard.swift:33-40 | a winning move sets `winner` to the mover and `gameOver`, keeps the current player and cancels the timer; every other cell, the board side, `timeLeft` and the win length are unchanged; the mover has a run and the other player has none |
| `Rules.MoveFullExpands` | GameBoard.swift:42-45 | a move that fills the board without a win expands it (side + 2, old contents shifted one row and column in, mark included), keeps the current player, resets the countdown to 5, keeps the win length, and leaves the game running on a board with a free cell and no run |
| `Rules.MoveAddsOneMark` | GameBoard.swift:30-62 | an accepted move adds exactly one mark to the board, even when the board expands; a rejected move adds none |
| `Rules.MovePreservesInv` | GameBoard.swift:30-62 | every move keeps the invariant: square odd board of side at least 3, win length 3, `gameOver` exactly when a run exists, `gameOver` never set without a winner, the winner the only player with a run, a free cell while the game runs |
| `Rules.ExpandedInv` | GameBoard.swift:42-45 | when a move fills the board without a run, the expanded state (side + 2, countdown 5) still satisfies the invariant |
| `Rules.InvIgnoresCountdown` | GameBoard.swift:196 | lowering or resetting the countdown cannot break the invariant |
| `Rules.GameOverIsFinal` | GameBoard.swift:31 | once the game is over, the board holds a run, there is a winner, and no move changes the state |
| `Rules.ForcedMoveAddsOneMark` | GameBoard.swift:204-218 | a random move forced in a game still running always places exactly one mark |
| `Rules.BotChoiceIsFree` | GameBoard.swift:96-109 | when any cell is free, the cell the bot picks is on the board and free |
| `Rules.BotTakesWinOrBlocks` | GameBoard.swift:69-94 | when O can win at once, the bot's move makes O the winner; when O cannot but X could, the bot picks a cell where X would have won |
| `Rules.CornerTrialLoses` | GameBoard.swift:72-79 | on the board X X _ / O O _ / _ _ _ a trial O at (0, 2) makes no run |
| `Rules.BotCompletesRowExample` | GameBoard.swift:69-81 | on the board X X _ / O O _ / _ _ _ the bot plays (1, 2) |
| `Engine.GameBoard.constructor` | GameBoard.swift:12-24 | a new board is in the starting state and satisfies the invariant |
| `Engine.GameBoard.GameStarted` | GameBoard.swift:26-28 | `gameStarted` is true exactly when some cell holds a mark |
| `Engine.GameBoard.MakeMove` | GameBoard.swift:30-62 | the fields after `makeMove`, and what it schedules, are exactly those of `Move`; the invariant is kept |
| `Engine.GameBoard.MakeBotMove` | GameBoard.swift:64-67 | the bot's move is `makeMove` on a cell that `BotChoice` allows |
| `Engine.GameBoard.FindBestMove` | GameBoard.swift:69-110 | after all trial marks are undone the board is as it was, and the cell returned follows the priority order: first winning cell for O in row-major order, else first winning cell for X, else the free centre, else some free cell, else (0, 0) |
| `Engine.GameBoard.TrialMove` | GameBoard.swift:72-79 | one trial-and-undo leaves the board unchanged and reports whether the trial mark makes `checkWin` true |
| `Engine.GameBoard.CheckWin` | GameBoard.swift:112-149 | `checkWin` is true exactly when some non-empty cell starts a run of `winLength` equal marks going right, down, down-right or up-right; it changes nothing |
| `Engine.GameBoard.RunLength` | GameBoard.swift:126-139 | the count from one cell in one direction is between 1 and `winLength`: every step below it matches the start mark, the step at the count does not (unless the count reached `winLength`), and it reaches `winLength` exactly when a run starts there |
| `Engine.GameBoard.CheckDraw` | GameBoard.swift:152-161 | `checkDraw` is true exactly when no cell is empty |
| `Engine.GameBoard.ExpandBoard` | GameBoard.swift:163-174 | the board becomes `Expand` of the old board, `boardSize` grows by 2, `timeLeft` becomes 5, and `winLength` is not in the frame, so it is unchanged |
| `Engine.GameBoard.ResetGame` | GameBoard.swift:178-186 | the state is back to an empty 3 by 3 board, X to move, not over, no winner, countdown 5; `winLength` is untouched |
| `Engine.GameBoard.StartTimer` | GameBoard.swift:188-189 | starting the countdown sets `timeLeft` to 5 and changes no other field |
| `Engine.GameBoard.Tick` | GameBoard.swift:194-201 | a tick lowers `timeLeft` by one and, at zero or below, forces a random move |
| `Engine.GameBoard.MakeRandomMove` | GameBoard.swift:204-218 | nothing happens once the game is over or when no cell is free; otherwise the result is `makeMove` on some free cell |
| `Engine.GameBoard.EmptySpots` | GameBoard.swift:100-107 | the list holds exactly the empty cells of the board |

## Left out

- The `Timer.publish` subscription and its cancellation (GameBoard.swift:20, 38, 48, 185, 188-202) are left out, and so is the delayed `DispatchQueue.main.asyncAfter` dispatch of the bot (GameBoard.swift:56-58). They are asynchronous scheduling. `MakeMove` reports what it leaves scheduled as a `Scheduled` value, and `Tick` models one timer firing. Stale callbacks and the `moveTimer` field are not modelled.
- `Engine.GameBoard.Tick`: it does not model the `moveTimer?.cancel()` at GameBoard.swift:198, and it may be called in any state, including after the game is over (then the forced move does nothing).
- `@Published` and `ObservableObject` change notification (GameBoard.swift:11-17) are left out: they only bind the UI.
- `randomElement()` is a nondeterministic choice of any element, not a uniform random draw.
- The SwiftUI views (StatusView.swift, ContentView.swift, GameBoardView.swift, CellView.swift, GameModePicker.swift) and `GameMode.displayName` are left out: they are presentation only. `GameMode` appears only as the two-case datatype passed to a move.
- `Engine.GameBoard.MakeMove`: the row and column must be on the board. The source does not check them and traps on an index out of range.
- `Engine.GameBoard.CheckWin`: it requires a square board and a win length of at least 1. The source may trap or misread on a ragged board, because its bounds test at GameBoard.swift:133 checks the column against the length of the starting row, not of the row it reads. It also traps on the range `1..<winLength` when the win length is below 1. Every reachable state meets both.
- Swift's fixed-width `Int` is modelled as an unbounded integer. Two counters move. `timeLeft` stays between 0 and 5. It is set to 5 when a countdown starts (GameBoard.swift:189), when the board expands (GameBoard.swift:173) and on reset (GameBoard.swift:184). The tick that takes it to 0 or below cancels the timer (GameBoard.swift:197-198). `boardSize` grows by 2 on every expansion (GameBoard.swift:164) with no upper bound, as it does in `Move` and `ExpandBoard`. It cannot overflow in practice: the n by n board of strings runs out of memory long before `Int.max`.
