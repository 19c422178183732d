/** The room record and the room registry over the key-value store (src/room.rs). */
module Rooms {
  import opened Wrappers
  import opened Cells
  import opened Boards
  import opened Errors

  /**
   * `GameState`. The source stores it as its debug string; that rendering is
   * injective on these three shapes, so comparing strings is comparing states.
   */
  datatype GameState = GameWon(player: Addr) | Tie | InProgress

  /** `Room`: the two fixed players, whose turn it is, the board, the status, the move count and the pot. */
  datatype Room = Room(
    player1: Addr,
    player2: Addr,
    turn: Addr,
    board: Board,
    gameState: GameState,
    noMoves: nat,
    totalCoinsRaised: nat)

  /** The sign a player puts down: "X" for the first player, "O" otherwise. */
  function Mark(room: Room, who: Addr): (s: string)
    ensures s == "X" || s == "O"
    ensures s == "X" <==> who == room.player1
  {
    if who == room.player1 then "X" else "O"
  }

  /** A cell of this room is empty, or held by one of its players under that player's sign. */
  predicate CellMarked(room: Room, cell: Cell)
  {
    match cell.player
    case None => cell.sign == ""
    case Some(who) => (who == room.player1 || who == room.player2) && cell.sign == Mark(room, who)
  }

  /** The status agrees with the board. */
  ghost predicate StatusConsistent(room: Room)
  {
    match room.gameState
    case InProgress => room.noMoves < 9 && !HasWinner(room.board)
    case Tie => room.noMoves == 9 && !HasWinner(room.board)
    case GameWon(w) =>
      (w == room.player1 || w == room.player2) &&
      exists a: nat, b: nat, c: nat :: HoldsLine(room.board, w, a, b, c)
  }

  /**
   * What every stored room satisfies: a well-formed board, one move counted per
   * occupied cell, the turn fixed by the parity of the move count, every mark
   * made by one of the two players with their own sign, and a status that
   * matches the board.
   */
  ghost predicate RoomInv(room: Room)
  {
    && WellFormed(room.board)
    && room.noMoves == OccupiedCount(room.board)
    && room.turn == (if room.noMoves % 2 == 0 then room.player1 else room.player2)
    && (forall i :: 0 <= i < 9 ==> CellMarked(room, room.board.cells[i]))
    && StatusConsistent(room)
  }

  /** An empty, well-formed board has no winner. */
  lemma EmptyBoardNoWinner(b: Board)
    requires AllEmpty(b)
    ensures !HasWinner(b)
  {
  }

  /** On an empty board every cell is correctly marked. */
  lemma EmptyBoardMarked(room: Room)
    requires AllEmpty(room.board)
    ensures forall i :: 0 <= i < 9 ==> CellMarked(room, room.board.cells[i])
  {
  }

  /** A room built around an empty well-formed board with both counters at zero is a valid room. */
  lemma FreshRoomInv(room: Room)
    requires WellFormed(room.board) && AllEmpty(room.board)
    requires room.turn == room.player1 && room.gameState == InProgress && room.noMoves == 0
    ensures RoomInv(room)
  {
    AllEmptyUnoccupied(room.board);
    EmptyBoardNoWinner(room.board);
    EmptyBoardMarked(room);
  }

  /** `Room::new`: the first player to move, in progress, no moves, an empty pot and a fresh board. */
  function NewRoom(player1: Addr, player2: Addr): (r: Room)
    ensures r.player1 == player1 && r.player2 == player2 && r.turn == player1
    ensures r.gameState == InProgress && r.noMoves == 0 && r.totalCoinsRaised == 0
    ensures WellFormed(r.board) && AllEmpty(r.board)
  {
    Room(player1, player2, player1, NewBoard(), InProgress, 0, 0)
  }

  /** A new room satisfies the room invariant. */
  lemma NewRoomInv(player1: Addr, player2: Addr)
    ensures RoomInv(NewRoom(player1, player2))
  {
    FreshRoomInv(NewRoom(player1, player2));
  }

  /**
   * `Room::restart_game`, with the board restart the source evidently means:
   * whatever the prior state, the same players, the first player to move, in
   * progress, no moves, an empty pot and a cleared board.
   */
  function RestartRoom(room: Room): (r: Room)
    ensures r.player1 == room.player1 && r.player2 == room.player2 && r.turn == room.player1
    ensures r.gameState == InProgress && r.noMoves == 0 && r.totalCoinsRaised == 0
    ensures AllEmpty(r.board)
    ensures forall i :: 0 <= i < 9 ==> r.board.cells[i].coordinates == room.board.cells[i].coordinates
  {
    Room(room.player1, room.player2, room.player1, RestartBoard(room.board), InProgress, 0, 0)
  }

  /** Restarting a room with a well-formed board gives the room `Room::new` would build. */
  lemma RestartRoomIsNew(room: Room)
    requires WellFormed(room.board)
    ensures RestartRoom(room) == NewRoom(room.player1, room.player2)
  {
    RestartBoardIsNew(room.board);
  }

  /** Restarting is idempotent. */
  lemma RestartRoomIdempotent(room: Room)
    ensures RestartRoom(RestartRoom(room)) == RestartRoom(room)
  {
    RestartBoardIdempotent(room.board);
  }

  /** Restarting a valid room gives a valid room. */
  lemma RestartRoomInv(room: Room)
    requires WellFormed(room.board)
    ensures RoomInv(RestartRoom(room))
  {
    RestartRoomIsNew(room);
    NewRoomInv(room.player1, room.player2);
  }

  /** The global record: how many rooms were created and the balance kept by the contract. */
  datatype State = State(roomCount: u8, balance: nat)

  /** The persisted store: one entry per room, keyed by its one-byte number, and the global record. */
  datatype Store = Store(rooms: map<u8, Room>, state: State)

  /** Every stored room was allocated by the counter and is a valid room. */
  ghost predicate StoreInv(store: Store)
  {
    forall n :: n in store.rooms ==> n < store.state.roomCount && RoomInv(store.rooms[n])
  }

  /** `Room::load_room`: the stored room, or nothing when the key is absent. */
  function LoadRoom(rooms: map<u8, Room>, n: u8): (r: Option<Room>)
    ensures r.None? <==> n !in rooms
    ensures r.Some? ==> r.value == rooms[n]
  {
    if n in rooms then Some(rooms[n]) else None
  }

  /**
   * `Room::add_room`: store a new room under the current counter, advance the
   * counter and return the number the room got. The counter is a `u8`; moving
   * it past 255 overflows and aborts.
   */
  function AddRoom(store: Store, player1: Addr, player2: Addr): (r: Result<(Store, u8), ContractError>)
    ensures r.Failure? <==> store.state.roomCount == 255
    ensures r.Failure? ==> r.error == Panic
    ensures r.Success? ==> r.value.1 == store.state.roomCount
    ensures r.Success? ==> r.value.0.state.roomCount as int == store.state.roomCount as int + 1
    ensures r.Success? ==> r.value.0.state.balance == store.state.balance
    ensures r.Success? ==> r.value.0.rooms == store.rooms[store.state.roomCount := NewRoom(player1, player2)]
  {
    var n := store.state.roomCount;
    if n == 255 then Failure(Panic)
    else
      var rooms := store.rooms[n := NewRoom(player1, player2)];
      Success((Store(rooms, State(n + 1, store.state.balance)), n))
  }

  /** Adding a room to a valid store keeps it valid, and the new room is one no earlier room shared a key with. */
  lemma AddRoomInv(store: Store, player1: Addr, player2: Addr)
    requires StoreInv(store)
    ensures AddRoom(store, player1, player2).Success? ==>
      store.state.roomCount !in store.rooms && StoreInv(AddRoom(store, player1, player2).value.0)
  {
    var r := AddRoom(store, player1, player2);
    if r.Success? {
      var after := r.value.0;
      var n0 := store.state.roomCount;
      forall n | n in after.rooms ensures n < after.state.roomCount && RoomInv(after.rooms[n]) {
        if n == n0 {
          NewRoomInv(player1, player2);
        } else {
          assert after.rooms[n] == store.rooms[n];
        }
      }
    }
  }

  /**
   * `Room::save_room`: overwrite an existing room; refuse when there is none.
   * Only that key changes.
   */
  function SaveRoom(rooms: map<u8, Room>, n: u8, room: Room): (r: Result<map<u8, Room>, ContractError>)
    ensures r.Failure? <==> n !in rooms
    ensures r.Failure? ==> r.error == RoomNotSaved
    ensures r.Success? ==> r.value.Keys == rooms.Keys && r.value[n] == room
    ensures r.Success? ==> forall k :: k in rooms && k != n ==> r.value[k] == rooms[k]
  {
    if LoadRoom(rooms, n).None? then Failure(RoomNotSaved)
    else Success(rooms[n := room])
  }

  /** Replacing a stored room by a valid room keeps a valid store valid. */
  lemma StoreInvUpdate(store: Store, n: u8, room: Room, state: State)
    requires StoreInv(store) && n in store.rooms && RoomInv(room)
    requires state.roomCount == store.state.roomCount
    ensures StoreInv(Store(store.rooms[n := room], state))
  {
    var after := Store(store.rooms[n := room], state);
    forall k | k in after.rooms ensures k < after.state.roomCount && RoomInv(after.rooms[k]) {
      if k != n {
        assert after.rooms[k] == store.rooms[k];
      }
    }
  }

  /** In a valid room the move count never exceeds nine, and the nine-move guard adds nothing to the status guard. */
  lemma MoveCountBounded(room: Room)
    requires RoomInv(room)
    ensures room.noMoves <= 9
    ensures room.gameState == InProgress ==> room.noMoves < 9
  {
  }
}
