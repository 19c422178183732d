# Tic-tac-toe contract: a Dafny model

This project models the game engine of the `iks-oks` tic-tac-toe smart
contract. Rooms each hold a game between two fixed players. Each move carries
a stake in the "ioc" token, and the winner is paid half the pot. The model
strips away the CosmWasm host and covers four parts:

- **`Cells`** (`cell.dfy`, from `src/cell.rs`): coordinates and their
  row-major index, and cells that are either empty or held by a player under a
  sign.
- **`Boards`** (`board.dfy`, from `src/board.rs`): the nine-cell board, the
  operation that occupies a cell, the win check, and the board restart.
- **`Rooms`** (`room.dfy`, from `src/room.rs`): the room record, room creation
  and restart, and the room registry. The registry is a map from one-byte room
  numbers to rooms, plus a global record of the room counter and the
  contract's balance.
- **`Contract`** (`contract.dfy`, from `src/contract.rs`): the `play_move`
  state machine, plus `restart_game`, `add_room`, the room-existence and
  player-turn queries, `instantiate`, and the `execute` dispatcher.
  - The host's transaction semantics are written out: an entry point either
    returns the new store or an error, and on an error the store stays as it
    was.

`errors.dfy` lists the ways an entry point can fail, with their message texts.
`wrappers.dfy` holds `Option` and `Result`. `scenarios.dfy` replays the
winning-game and tie-game unit tests of `src/contract.rs`, one move per lemma.

Proved properties:

- The index is injective on the grid.
- A new cell and a restarted cell agree.
- The win-line table is exact: for each square it lists precisely the other
  two squares of every row, column and diagonal through it.
- The win check is the rule of the game.
- Every guard of `play_move` refuses with its own error, in the source's order.
- An accepted move:
  - marks exactly one cell with the mover's sign;
  - counts the move and grows the pot;
  - passes the turn;
  - pays half the pot exactly when it completes a line, or calls a tie on the
    ninth move.
- Every reachable store satisfies a room invariant:
  - one move is counted per occupied cell;
  - the turn follows the parity of the move count;
  - every mark is its player's own sign;
  - the status agrees with the board.
- The status only moves from in progress to won or tie, and goes back only
  through a restart.
- A cell once occupied keeps its occupant until its room is restarted.

Behaviours of the code worth knowing:

- The turn passes after every accepted move, including the winning move and
  the ninth move (`src/contract.rs:132-136`).
- The win check looks only at the lines through the cell just played
  (`src/board.rs:48-56`).
- A win also credits the global balance with the amount paid out
  (`src/contract.rs:113-115`).
- Creating a room has no "room exists" refusal. It can only abort when the
  one-byte counter overflows.

Modelling decisions:

- `Coordinates::new` is the `Coordinates` constructor itself.
- `Coordinates::index` is computed without a bounds check. `(0, 5)` names the
  same cell as `(1, 2)`; `Cells.IndexAliases` shows this.
- In `play_move`, an index that lies off the board aborts the transaction. The
  model represents this as the `Panic` error. It covers both the `u8`
  overflow of `x * 3 + y` and the out-of-range vector index, which end the
  same way.
- The room counter of `add_room` is a `u8`. Going past 255 aborts, and the
  model gives `Panic` for it too.
- `GameState` is stored by the source as its debug string. That rendering is
  injective, so the model uses the datatype.
- `Uint128` amounts and the move count are `nat`.
- `Cell::occupy` is called by `src/board.rs:28` but is not defined in
  `src/cell.rs`. Its effect is taken from the two assignments commented out
  beside the call (`src/board.rs:29-30`).
- `src/state.rs` defines neither `State::init_state` nor the `room_count` and
  `balance` fields that `src/room.rs:69-76` and `src/contract.rs:77,115` use.
  `Instantiate` starts both at zero.

## Model

| member | source | states |
|---|---|---|
| Cells.Index | src/cell.rs:14-16 | on the grid the index lies in 0..8, and its quotient and remainder by 3 are the row and the column |
| Cells.CoordinatesAt | src/board.rs:15-19 | the board's i-th cell sits at row i/3, column i%3, which is on the grid and indexes back to i |
| Cells.IndexInjective | src/cell.rs:14-16 | two grid coordinates have the same index exactly when they are equal |
| Cells.IndexRoundTrip | src/cell.rs:14-16 | coordinates, indexed and turned back into coordinates, are unchanged |
| Cells.IndexAliases | src/cell.rs:14-16 | without a bounds check the off-grid pair (0,5) has the same index as (1,2) |
| Cells.NewCell | src/cell.rs:25-31 | a new cell has no player and the empty sign, at the given coordinates |
| Cells.RestartCell | src/cell.rs:32-38 | a restarted cell keeps its coordinates and has no player and the empty sign |
| Cells.RestartIsNew | src/cell.rs:25-38 | restarting any cell gives the new cell at its coordinates |
| Cells.RestartIdempotent | src/cell.rs:32-38 | restarting twice equals restarting once |
| Cells.OccupyCell | src/board.rs:28-30 | occupying records the player and the sign and keeps the coordinates |
| Boards.NewBoard | src/board.rs:12-24 | the new board has nine empty cells, cell i at row i/3, column i%3 |
| Boards.OccupyCellAt | src/board.rs:25-35 | reports true exactly when the addressed cell was free; then only that cell changes, to the player and sign; otherwise the board is unchanged |
| Boards.OccupiedCountStep | src/contract.rs:97-105 | occupying one free cell raises the number of occupied cells by exactly one |
| Boards.WinLinesShape | src/board.rs:37-47 | the table has a row per square, each with two to four partner pairs, all on the board |
| Boards.WinLinesExact | src/board.rs:37-47 | the table lists {q, r} for p exactly when p, q, r form a row, column or diagonal of the grid |
| Boards.ScanLines | src/board.rs:50-56 | the loop reports true exactly when both squares of some listed pair hold the given player |
| Boards.CheckForWin | src/board.rs:36-57 | true exactly when some row, column or diagonal through the played square has all three squares held by that square's occupant |
| Boards.CheckForWinOccupied | src/board.rs:48-56 | on an occupied square, true exactly when its player holds a complete line through it |
| Boards.RestartBoard | src/board.rs:78-84 | the intended restart leaves every cell empty and every coordinate in place |
| Boards.RestartBoardIsNew | src/board.rs:78-84 | restarting a well-formed board gives the board Board::new builds |
| Boards.RestartBoardIdempotent | src/board.rs:78-84 | restarting twice equals restarting once |
| Boards.RestartCellsAsWritten | src/board.rs:78-84 | the loop as written never grows the vector, and yields nothing exactly when some index of the old board lies past its end, i.e. on the first assignment past the end |
| Boards.RestartBoardAsWrittenPanics | src/board.rs:78-84 | the restart as written assigns past the end of an empty vector on its first cell, for every board |
| Boards.NoWinnerAfterMove | src/contract.rs:109-130 | a move that completes no line through its cell creates no winner anywhere on a board that had none |
| Rooms.Mark | src/contract.rs:89-95 | the mover's sign is "X" exactly for the first player and "O" otherwise |
| Rooms.NewRoom | src/room.rs:31-41 | a new room has the first player to move, is in progress, has no moves, an empty pot and a fresh empty board |
| Rooms.NewRoomInv | src/room.rs:31-41 | a new room satisfies the room invariant |
| Rooms.RestartRoom | src/room.rs:42-52 | whatever the prior state, restarting keeps both players, gives the turn to the first, sets the game in progress with no moves, an empty pot and a cleared board, with the intended board restart (see Findings) |
| Rooms.RestartRoomIsNew | src/room.rs:31-52 | restarting a room with a well-formed board gives the room Room::new builds for its players |
| Rooms.RestartRoomIdempotent | src/room.rs:42-52 | restarting twice equals restarting once |
| Rooms.RestartRoomInv | src/room.rs:42-52 | a restarted room satisfies the room invariant |
| Rooms.LoadRoom | src/room.rs:53-62 | nothing exactly when the key is absent, otherwise the stored room |
| Rooms.AddRoom | src/room.rs:63-77 | stores a new room under the counter, advances the counter by one and returns its old value; aborts exactly when the counter is 255 |
| Rooms.AddRoomInv | src/room.rs:63-77 | the new room's key was unused, and a valid store stays valid |
| Rooms.SaveRoom | src/room.rs:78-94 | refuses exactly when no room is stored under the key; otherwise replaces that room and nothing else |
| Rooms.MoveCountBounded | src/contract.rs:79-83 | in a valid room the move count is at most nine, so the nine-move guard adds nothing to the status guard |
| Contract.CheckFunds | src/contract.rs:53-67 | the closed-form fund check: accepted exactly when every coin is "ioc" and the sum is positive, yielding the sum; otherwise a foreign denomination or, failing that, no coins |
| Contract.CollectFunds | src/contract.rs:53-67 | refuses a foreign denomination exactly when some coin is not "ioc", and a zero sum exactly when all are "ioc" and sum to zero; otherwise returns the positive sum |
| Contract.Toggle | src/contract.rs:132-136 | the other player of the room: a player of the room, equal to the mover only when both seats hold the same address |
| Contract.ToggleTwice | src/contract.rs:132-136 | passing the turn twice returns it to the player who had it |
| Contract.AfterMove | src/contract.rs:89-136 | the move itself: only the played cell changes, to the mover and their sign; one more move; the pot grows by the coins sent; the turn passes; the reported win is the line check on the new board at the played cell; a win makes the mover the winner, and otherwise the ninth move of a game in progress is a tie |
| Contract.PlayMove | src/contract.rs:47-142 | accepts exactly when every guard passes; each failing guard, in the source's order, gives its own error |
| Contract.PlayMoveEffect | src/contract.rs:89-140 | an accepted move changes only its room: the cell gets the mover and sign, other cells stay, one more move, the pot grows by the coins sent, the turn passes, the response carries the board |
| Contract.PlayMoveOutcome | src/contract.rs:108-130 | a move completing a line wins for the mover, sends exactly one transfer of half the pot and credits the balance by it; otherwise nothing is paid and the ninth move ties |
| Contract.AfterMoveMarks | src/contract.rs:89-104 | after a move every cell is empty or held by one of the room's two players under that player's own sign |
| Contract.AfterMoveStatus | src/contract.rs:109-130 | after a move from an unfinished game the status matches the board: won only with a completed line, tie only on a full board with none |
| Contract.AfterMoveInv | src/contract.rs:89-136 | an accepted move keeps the room invariant: moves equal occupied cells, turn by parity, own signs, status matching the board |
| Contract.PlayMoveInv | src/contract.rs:47-142 | an accepted move keeps a valid store valid |
| Contract.RestartGame | src/contract.rs:155-170 | refuses exactly a missing room; otherwise resets that room, leaves other rooms and the global record alone, and answers with the board, with the intended board restart (see Findings) |
| Contract.RestartGameInv | src/contract.rs:155-170 | a restart keeps a valid store valid |
| Contract.AddRoomEntry | src/contract.rs:143-153 | answers with the new room's number, stores the new room under it and advances the counter; refuses only on counter overflow |
| Contract.QueryRoomExist | src/contract.rs:231-237 | true exactly when a room is stored under the number |
| Contract.QueryPlayerTurn | src/contract.rs:193-202 | not-found exactly for a missing room, otherwise the player to move |
| Contract.TurnAlternates | src/contract.rs:132-136 | after an accepted move the turn query names the other player |
| Contract.Instantiate | src/contract.rs:21-29 | the initial store has no rooms, the counter and balance at zero, and is valid |
| Contract.Execute | src/contract.rs:31-45 | a refused message leaves the store unchanged; each message is accepted exactly when its entry point's guards pass |
| Contract.ExecuteInv | src/contract.rs:31-45 | every entry point keeps a valid store valid |
| Contract.RunInv | src/contract.rs:31-45 | every store reached from a valid store by any sequence of messages is valid |
| Contract.ReachableInv | src/contract.rs:21-45 | every store reached from instantiation is valid |
| Contract.StatusStep | src/contract.rs:109-130 | one message keeps a room, and either leaves its status, ends a game in progress with a win or a tie, or restarts that room |
| Contract.OccupiedCellStays | src/contract.rs:97-104 | in a valid store, a cell once occupied keeps its occupant and sign under every message except a restart of its own room |
| Contract.EndedGameRefusesMoves | src/contract.rs:79-83 | a won or tied game refuses every funded move |
| Contract.OutOfTurnRefused | src/contract.rs:84-88 | a move by anyone but the turn holder is refused and changes nothing |
| Scenarios.PaysOk | src/contract.rs:53-67 | ten "ioc" pass the fund check with a sum of ten |
| Scenarios.WithRoomShape | src/contract.rs:253-263 | after instantiation and one room creation, room 0 is a new room and the counter is one |
| Scenarios.StartPosition | src/contract.rs:253-263 | the test store starts with an empty board, the first player to move and nothing staked |
| Scenarios.QuietMove | src/contract.rs:89-136 | a turn holder's move onto a free cell that completes no line is accepted, stays in progress, adds ten to the pot and passes the turn |
| Scenarios.FirstMove | src/contract.rs:396-430 | X at (0,0) on the empty board is accepted |
| Scenarios.SecondMove | src/contract.rs:396-430 | O at (0,1) is then accepted |
| Scenarios.WinThirdMove | src/contract.rs:396-430 | X at (1,0) is then accepted |
| Scenarios.WinFourthMove | src/contract.rs:396-430 | O at (1,1) is then accepted |
| Scenarios.WinningMove | src/contract.rs:396-430 | X at (2,0) wins the left column, 25 of the 50 staked is paid to X and credited to the balance, and O's next move is refused with the store unchanged |
| Scenarios.TieMove3 | src/contract.rs:433-471 | X at (0,2) is accepted without a win |
| Scenarios.TieMove4 | src/contract.rs:433-471 | O at (2,0) is accepted without a win |
| Scenarios.TieMove5 | src/contract.rs:433-471 | X at (2,1) is accepted without a win |
| Scenarios.TieMove6 | src/contract.rs:433-471 | O at (2,2) is accepted without a win |
| Scenarios.TieMove7 | src/contract.rs:433-471 | X at (1,0) is accepted without a win |
| Scenarios.TieMove8 | src/contract.rs:433-471 | O at (1,1) is accepted without a win |
| Scenarios.TieFinalMove | src/contract.rs:433-471 | X at (1,2) fills the board without a line: a tie, nothing paid, a pot of 90, and a further move refused with the store unchanged |

## Left out

- `draw_board` and `query_table_status` are left out. The rendering is cosmetic and depends on whitespace inside multi-line string literals.
- `query_game_status` is left out. It returns an empty string whatever the room holds.
- `query_list_rooms` is left out. It depends on the external `paginate` crate.
- Serialisation is left out: `to_binary`, `to_vec` and `may_deserialize`. The `unwrap` of a stored room that fails to deserialize is left out with it. Rooms are stored as values.
- The `Response` and `SubMsg` plumbing is reduced to a list of bank transfers and the data the response carries. The environment argument and the entry-point attributes are dropped.
- `src/helpers.rs`, `src/contract_storage.rs`, `src/state.rs`, `src/msg.rs`, `src/integration_tests.rs` and `src/bin/schema.rs` are not part of this model. `State` and the messages are modelled abstractly.
- Contract.CollectFunds: amounts are unbounded. The source's `Uint128` sum aborts past 2^128 - 1, and the model does not represent that abort. The same holds for the pot and the balance in Contract.PlayMove.
- In a build without overflow checks, `u8` arithmetic would wrap instead of aborting. The model assumes overflow checks are on, so the room counter at 255 and off-board coordinates abort.
- Scenarios: each unit-test game is a chain of one lemma per move, linked by the `Position` predicate. No single lemma states the whole game.

## Findings

| source | as written | input that shows it | evidently intended | confidence | as-written member | corrected member |
|---|---|---|---|---|---|---|
| src/board.rs:78-84 | `restart_board` starts from an empty vector and assigns `cells[index]` for each index of the old board | any board, e.g. the one `Board::new()` builds: assigning `cells[0]` into the empty vector panics, so every `restart_game` call on an existing room aborts | a board of the same nine cells, each cleared by `Cell::restart` with its coordinates kept | high (not executed) | Boards.RestartBoardAsWrittenPanics | Boards.RestartBoard |
