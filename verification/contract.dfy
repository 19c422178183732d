/**
 * The contract's entry points (src/contract.rs): the move state machine, room
 * restart and creation, and the read-only queries, over an explicit store.
 * The host's transactional semantics are explicit: an entry point either
 * returns the whole new store or an error, and on an error the store the host
 * keeps is the old one.
 */
module Contract {
  import opened Wrappers
  import opened Cells
  import opened Boards
  import opened Rooms
  import opened Errors

  /** The only token denomination the contract accepts. */
  const Denom: string := "ioc"

  /** A coin attached to a message: a denomination and an amount (`Uint128`, unbounded here). */
  datatype Coin = Coin(denom: string, amount: nat)

  /** Who sent the message and which coins came with it. */
  datatype MessageInfo = MessageInfo(sender: Addr, funds: seq<Coin>)

  /** The one outbound effect: a bank transfer. */
  datatype BankMsg = BankSend(toAddress: Addr, amount: seq<Coin>)

  /** What an entry point answers with: the board, or the number of a new room. */
  datatype ResponseData = BoardData(board: Board) | RoomNumber(number: u8)

  datatype Response = Response(messages: seq<BankMsg>, data: ResponseData)

  /** The execute messages. */
  datatype HandleMsg =
    | PlayMoveMsg(coordinates: Coordinates, roomNumber: u8)
    | RestartGameMsg(roomNumber: u8)
    | AddRoomMsg(player1: Addr, player2: Addr)

  /** Every coin sent is of the accepted denomination. */
  predicate AllIoc(funds: seq<Coin>)
  {
    forall i :: 0 <= i < |funds| ==> funds[i].denom == Denom
  }

  /** The sum of the amounts sent. */
  function Total(funds: seq<Coin>): nat
  {
    if |funds| == 0 then 0 else Total(funds[..|funds| - 1]) + funds[|funds| - 1].amount
  }

  /** The fund check a move must pass: only "ioc", and a positive sum. */
  function CheckFunds(funds: seq<Coin>): (r: Result<nat, ContractError>)
    ensures r.Success? <==> AllIoc(funds) && Total(funds) > 0
    ensures r.Success? ==> r.value == Total(funds)
    ensures r.Failure? ==> r.error == (if AllIoc(funds) then NoCoins else InvalidDenom)
  {
    if !AllIoc(funds) then Failure(InvalidDenom)
    else if Total(funds) == 0 then Failure(NoCoins)
    else Success(Total(funds))
  }

  /**
   * The fund check as `play_move` performs it: walk the coins, stop at the
   * first one of another denomination, otherwise add the amounts; refuse a zero
   * sum.
   */
  method CollectFunds(funds: seq<Coin>) returns (r: Result<nat, ContractError>)
    ensures r == CheckFunds(funds)
    ensures r == Failure(InvalidDenom) <==> !AllIoc(funds)
    ensures r == Failure(NoCoins) <==> AllIoc(funds) && Total(funds) == 0
    ensures r.Success? ==> r.value == Total(funds) && r.value > 0
  {
    var sent: nat := 0;
    var i := 0;
    while i < |funds|
      invariant 0 <= i <= |funds|
      invariant AllIoc(funds[..i])
      invariant sent == Total(funds[..i])
    {
      if funds[i].denom != Denom {
        assert !AllIoc(funds);
        return Failure(InvalidDenom);
      }
      assert funds[..i + 1][..i] == funds[..i];
      sent := sent + funds[i].amount;
      i := i + 1;
    }
    assert funds[..i] == funds;
    if sent == 0 {
      return Failure(NoCoins);
    }
    return Success(sent);
  }

  /**
   * The other player of the room: for either player it gives a player of the
   * room, and the same one back only when both seats hold the same address.
   */
  function Toggle(room: Room, who: Addr): (r: Addr)
    ensures (who == room.player1 || who == room.player2) ==>
              (r == room.player1 || r == room.player2) && (r == who <==> room.player1 == room.player2)
  {
    if who == room.player1 then room.player2 else room.player1
  }

  /** Passing the turn twice gives it back. */
  lemma ToggleTwice(room: Room, who: Addr)
    requires who == room.player1 || who == room.player2
    ensures Toggle(room, Toggle(room, who)) == who
  {
  }

  /** The coins sent pass the fund check. */
  predicate FundsOk(info: MessageInfo)
  {
    CheckFunds(info.funds).Success?
  }

  /** The room's game still takes moves. */
  predicate InPlay(room: Room)
  {
    room.gameState == InProgress && room.noMoves != 9
  }

  /** Every guard of `play_move` passes. */
  predicate Accepts(store: Store, info: MessageInfo, c: Coordinates, n: u8)
  {
    && FundsOk(info)
    && n in store.rooms
    && InPlay(store.rooms[n])
    && store.rooms[n].turn == info.sender
    && Index(c) < 9
    && store.rooms[n].board.cells[Index(c)].player.None?
  }

  /**
   * The room after an accepted move of the player holding the turn at `c`,
   * with `sent` coins added to the pot, and whether the move won: occupy the
   * cell, count the move, grow the pot, check the lines through `c`, call a tie
   * on the ninth move without a win, and pass the turn.
   */
  function AfterMove(room: Room, c: Coordinates, sent: nat): (r: (Room, bool))
    requires Index(c) < 9 && room.board.cells[Index(c)].player.None?
    ensures r.0.board.cells == room.board.cells[Index(c) := OccupyCell(room.board.cells[Index(c)], room.turn, Mark(room, room.turn))]
    ensures r.0.player1 == room.player1 && r.0.player2 == room.player2
    ensures r.0.noMoves == room.noMoves + 1
    ensures r.0.totalCoinsRaised == room.totalCoinsRaised + sent
    ensures r.0.turn == Toggle(room, room.turn)
    ensures r.1 == CheckForWin(r.0.board, c)
    ensures r.1 ==> r.0.gameState == GameWon(room.turn)
    ensures !r.1 ==> r.0.gameState == (if r.0.noMoves == 9 && room.gameState == InProgress then Tie else room.gameState)
  {
    var (board, _) := OccupyCellAt(room.board, room.turn, c, Mark(room, room.turn));
    var moved := room.(board := board, noMoves := room.noMoves + 1,
                       totalCoinsRaised := room.totalCoinsRaised + sent);
    var won := CheckForWin(board, c);
    var status := if won then GameWon(room.turn) else moved.gameState;
    var status' := if moved.noMoves == 9 && status == InProgress then Tie else status;
    (moved.(gameState := status', turn := Toggle(room, room.turn)), won)
  }

  /**
   * `play_move`: the fund check, then the guards in the source's order (room
   * exists, game in progress and fewer than nine moves, sender holds the turn,
   * the cell index lies on the board, the cell is free), then the move; a win
   * pays half the pot to the mover and credits the same amount to the global
   * balance. Each failure names the first guard that failed.
   */
  function PlayMove(store: Store, info: MessageInfo, c: Coordinates, n: u8): (r: Result<(Store, Response), ContractError>)
    ensures r.Success? <==> Accepts(store, info, c, n)
    ensures !AllIoc(info.funds) ==> r == Failure(InvalidDenom)
    ensures AllIoc(info.funds) && Total(info.funds) == 0 ==> r == Failure(NoCoins)
    ensures (FundsOk(info) && n !in store.rooms) ==> r == Failure(RoomMissing)
    ensures (FundsOk(info) && n in store.rooms && !InPlay(store.rooms[n])) ==> r == Failure(GameEnded)
    ensures (FundsOk(info) && n in store.rooms && InPlay(store.rooms[n]) &&
             store.rooms[n].turn != info.sender) ==> r == Failure(NotYourTurn)
    ensures (FundsOk(info) && n in store.rooms && InPlay(store.rooms[n]) &&
             store.rooms[n].turn == info.sender && Index(c) >= 9) ==> r == Failure(Panic)
    ensures (FundsOk(info) && n in store.rooms && InPlay(store.rooms[n]) &&
             store.rooms[n].turn == info.sender && Index(c) < 9 &&
             store.rooms[n].board.cells[Index(c)].player.Some?) ==> r == Failure(SpotOccupied)
  {
    match CheckFunds(info.funds)
    case Failure(e) => Failure(e)
    case Success(sent) =>
      match LoadRoom(store.rooms, n)
      case None => Failure(RoomMissing)
      case Some(room) =>
        if room.gameState != InProgress || room.noMoves == 9 then Failure(GameEnded)
        else if room.turn != info.sender then Failure(NotYourTurn)
        else if Index(c) >= 9 then Failure(Panic)
        else if room.board.cells[Index(c)].player.Some? then Failure(SpotOccupied)
        else
          var (after, won) := AfterMove(room, c, sent);
          var payout := after.totalCoinsRaised / 2;
          var state := if won then store.state.(balance := store.state.balance + payout) else store.state;
          var messages := if won then [BankSend(room.turn, [Coin(Denom, payout)])] else [];
          match SaveRoom(store.rooms, n, after)
          case Failure(e) => Failure(e)
          case Success(rooms) => Success((Store(rooms, state), Response(messages, BoardData(after.board))))
  }

  /**
   * An accepted move changes only its own room: the mover's cell gets the
   * mover and their sign ("X" for the first player, "O" for the second), every
   * other cell stays, the move count grows by one, the pot grows by the coins
   * sent, and the turn passes to the other player, win or not.
   */
  lemma PlayMoveEffect(store: Store, info: MessageInfo, c: Coordinates, n: u8)
    requires Accepts(store, info, c, n)
    ensures var (after, resp) := PlayMove(store, info, c, n).value;
            var room := store.rooms[n];
            var moved := after.rooms[n];
            var i := Index(c);
            && after.rooms.Keys == store.rooms.Keys
            && (forall k :: k in store.rooms && k != n ==> after.rooms[k] == store.rooms[k])
            && moved.player1 == room.player1 && moved.player2 == room.player2
            && moved.noMoves == room.noMoves + 1
            && moved.totalCoinsRaised == room.totalCoinsRaised + Total(info.funds)
            && moved.board.cells[i] ==
               Cell(room.board.cells[i].coordinates, Some(info.sender), if info.sender == room.player1 then "X" else "O")
            && (forall j :: 0 <= j < 9 && j != i ==> moved.board.cells[j] == room.board.cells[j])
            && moved.turn == (if info.sender == room.player1 then room.player2 else room.player1)
            && resp.data == BoardData(moved.board)
  {
  }

  /**
   * The outcome of an accepted move. If the mover now holds a whole row, column
   * or diagonal through the cell just played, the game is won by the mover,
   * exactly one transfer of half the pot (rounded down) in "ioc" goes to the
   * mover, and the global balance grows by that same amount. Otherwise nothing
   * is paid, the global record is untouched, and the game is a tie when this was
   * the ninth move and still in progress before it.
   */
  lemma PlayMoveOutcome(store: Store, info: MessageInfo, c: Coordinates, n: u8)
    requires Accepts(store, info, c, n)
    ensures var (after, resp) := PlayMove(store, info, c, n).value;
            var moved := after.rooms[n];
            var payout := moved.totalCoinsRaised / 2;
            var won := exists q: nat, r: nat :: HoldsLine(moved.board, info.sender, Index(c), q, r);
            && (won ==>
                  && moved.gameState == GameWon(info.sender)
                  && resp.messages == [BankSend(info.sender, [Coin(Denom, payout)])]
                  && after.state == State(store.state.roomCount, store.state.balance + payout))
            && (!won ==>
                  && resp.messages == []
                  && after.state == store.state
                  && moved.gameState == (if moved.noMoves == 9 then Tie else InProgress))
  {
    var room := store.rooms[n];
    var sent := Total(info.funds);
    var (board, _) := OccupyCellAt(room.board, room.turn, c, Mark(room, room.turn));
    CheckForWinOccupied(board, c, info.sender);
  }

  /** The parity of a count flips with each step. */
  lemma ParityStep(k: nat)
    ensures (k + 1) % 2 == 1 - k % 2
  {
  }

  /** After a move every cell is still empty or held by a player of the room under that player's sign. */
  lemma AfterMoveMarks(room: Room, c: Coordinates, sent: nat)
    requires RoomInv(room)
    requires Index(c) < 9 && room.board.cells[Index(c)].player.None?
    ensures var after := AfterMove(room, c, sent).0;
            forall j :: 0 <= j < 9 ==> CellMarked(after, after.board.cells[j])
  {
    var i := Index(c);
    var after := AfterMove(room, c, sent).0;
    forall j | 0 <= j < 9 ensures CellMarked(after, after.board.cells[j]) {
      if j != i {
        assert CellMarked(room, room.board.cells[j]);
      }
    }
  }

  /** After a move from an unfinished game the status agrees with the new board. */
  lemma AfterMoveStatus(room: Room, c: Coordinates, sent: nat)
    requires RoomInv(room) && room.gameState == InProgress
    requires Index(c) < 9 && room.board.cells[Index(c)].player.None?
    ensures StatusConsistent(AfterMove(room, c, sent).0)
  {
    var after := AfterMove(room, c, sent).0;
    CheckForWinOccupied(after.board, c, room.turn);
    if !CheckForWin(after.board, c) {
      NoWinnerAfterMove(room.board, Index(c), room.turn, after.board);
    }
  }

  /** An accepted move keeps the room valid: counts, marks, turn parity and a status that matches the board. */
  lemma AfterMoveInv(room: Room, c: Coordinates, sent: nat)
    requires RoomInv(room) && room.gameState == InProgress
    requires Index(c) < 9 && room.board.cells[Index(c)].player.None?
    ensures RoomInv(AfterMove(room, c, sent).0)
  {
    var i := Index(c);
    var cell := OccupyCell(room.board.cells[i], room.turn, Mark(room, room.turn));
    var after := AfterMove(room, c, sent).0;
    OccupiedCountStep(room.board, i, cell);
    ParityStep(room.noMoves);
    AfterMoveMarks(room, c, sent);
    AfterMoveStatus(room, c, sent);
  }

  /** An accepted move keeps a valid store valid. */
  lemma PlayMoveInv(store: Store, info: MessageInfo, c: Coordinates, n: u8)
    requires StoreInv(store)
    ensures PlayMove(store, info, c, n).Success? ==> StoreInv(PlayMove(store, info, c, n).value.0)
  {
    if PlayMove(store, info, c, n).Success? {
      var room := store.rooms[n];
      AfterMoveInv(room, c, Total(info.funds));
      var after := PlayMove(store, info, c, n).value.0;
      StoreInvUpdate(store, n, AfterMove(room, c, Total(info.funds)).0, after.state);
    }
  }

  /** `room` is `prior` started over: same players, first player to move, in progress, nothing played, nothing staked. */
  predicate IsResetOf(prior: Room, room: Room)
  {
    && room.player1 == prior.player1 && room.player2 == prior.player2
    && room.turn == room.player1 && room.gameState == InProgress
    && room.noMoves == 0 && room.totalCoinsRaised == 0 && AllEmpty(room.board)
  }

  /**
   * The `restart_game` entry point: anyone may reset an existing room, which
   * keeps its players and starts over with the first player to move, an empty
   * board, no moves and an empty pot; every other room and the global record
   * stay as they were. A missing room is refused.
   */
  function RestartGame(store: Store, n: u8): (r: Result<(Store, Response), ContractError>)
    ensures r.Failure? <==> n !in store.rooms
    ensures r.Failure? ==> r.error == RoomMissing
    ensures r.Success? ==> r.value.0.state == store.state && r.value.0.rooms.Keys == store.rooms.Keys
    ensures r.Success? ==> forall k :: k in store.rooms && k != n ==> r.value.0.rooms[k] == store.rooms[k]
    ensures r.Success? ==> IsResetOf(store.rooms[n], r.value.0.rooms[n])
    ensures r.Success? ==> r.value.1 == Response([], BoardData(r.value.0.rooms[n].board))
  {
    match LoadRoom(store.rooms, n)
    case None => Failure(RoomMissing)
    case Some(room) =>
      var reset := RestartRoom(room);
      match SaveRoom(store.rooms, n, reset)
      case Failure(e) => Failure(e)
      case Success(rooms) => Success((Store(rooms, store.state), Response([], BoardData(reset.board))))
  }

  /** Restarting a room of a valid store keeps the store valid. */
  lemma RestartGameInv(store: Store, n: u8)
    requires StoreInv(store)
    ensures RestartGame(store, n).Success? ==> StoreInv(RestartGame(store, n).value.0)
  {
    if n in store.rooms {
      RestartRoomInv(store.rooms[n]);
      StoreInvUpdate(store, n, RestartRoom(store.rooms[n]), store.state);
    }
  }

  /**
   * The `add_room` entry point: a new room for the two players under the next
   * number, which the response carries; refused only when the one-byte counter
   * would overflow.
   */
  function AddRoomEntry(store: Store, player1: Addr, player2: Addr): (r: Result<(Store, Response), ContractError>)
    ensures r.Failure? <==> store.state.roomCount == 255
    ensures r.Success? ==>
      && r.value.1 == Response([], RoomNumber(store.state.roomCount))
      && r.value.0.rooms == store.rooms[store.state.roomCount := NewRoom(player1, player2)]
      && r.value.0.state.roomCount as int == store.state.roomCount as int + 1
  {
    match AddRoom(store, player1, player2)
    case Failure(e) => Failure(e)
    case Success((after, n)) => Success((after, Response([], RoomNumber(n))))
  }

  /** `query_room_exist`: whether a room is stored under the number. */
  function QueryRoomExist(store: Store, n: u8): (present: bool)
    ensures present <==> n in store.rooms
  {
    LoadRoom(store.rooms, n).Some?
  }

  /** `query_player_turn`: who is to move in the room, or not-found. */
  function QueryPlayerTurn(store: Store, n: u8): (r: Result<Addr, ContractError>)
    ensures r.Failure? <==> n !in store.rooms
    ensures r.Failure? ==> r.error == RoomNotFound
    ensures r.Success? ==> r.value == store.rooms[n].turn
  {
    match LoadRoom(store.rooms, n)
    case None => Failure(RoomNotFound)
    case Some(room) => Success(room.turn)
  }

  /** After an accepted move the turn query names the other player of the room. */
  lemma TurnAlternates(store: Store, info: MessageInfo, c: Coordinates, n: u8)
    requires Accepts(store, info, c, n)
    ensures QueryPlayerTurn(PlayMove(store, info, c, n).value.0, n) ==
            Success(Toggle(store.rooms[n], info.sender))
  {
    PlayMoveEffect(store, info, c, n);
  }

  /**
   * `instantiate`: an empty registry with the counter and balance at zero.
   * The body of `State::init_state` is not part of this model; this is the
   * initial record the rest of the contract relies on.
   */
  function Instantiate(): (s: Store)
    ensures s.rooms == map[] && s.state.roomCount == 0 && s.state.balance == 0
    ensures StoreInv(s)
  {
    Store(map[], State(0, 0))
  }

  /**
   * `execute`: dispatch a message and commit. A rejected message leaves the
   * whole store as it was; an accepted one commits what its entry point built.
   */
  function Execute(store: Store, info: MessageInfo, msg: HandleMsg): (r: (Store, Result<Response, ContractError>))
    ensures r.1.Failure? ==> r.0 == store
    ensures msg.PlayMoveMsg? ==> (r.1.Success? <==> Accepts(store, info, msg.coordinates, msg.roomNumber))
    ensures msg.RestartGameMsg? ==> (r.1.Success? <==> msg.roomNumber in store.rooms)
    ensures msg.AddRoomMsg? ==> (r.1.Success? <==> store.state.roomCount < 255)
  {
    var result := match msg
      case PlayMoveMsg(c, n) => PlayMove(store, info, c, n)
      case RestartGameMsg(n) => RestartGame(store, n)
      case AddRoomMsg(p1, p2) => AddRoomEntry(store, p1, p2);
    match result
    case Failure(e) => (store, Failure(e))
    case Success((after, resp)) => (after, Success(resp))
  }

  /** Every entry point keeps a valid store valid. */
  lemma ExecuteInv(store: Store, info: MessageInfo, msg: HandleMsg)
    requires StoreInv(store)
    ensures StoreInv(Execute(store, info, msg).0)
  {
    match msg
    case PlayMoveMsg(c, n) => PlayMoveInv(store, info, c, n);
    case RestartGameMsg(n) => RestartGameInv(store, n);
    case AddRoomMsg(p1, p2) => AddRoomInv(store, p1, p2);
  }

  /** The store after a sequence of messages, each from its own sender. */
  function Run(store: Store, steps: seq<(MessageInfo, HandleMsg)>): Store
    decreases |steps|
  {
    if |steps| == 0 then store
    else Run(Execute(store, steps[0].0, steps[0].1).0, steps[1..])
  }

  /** Every store reachable from a valid one is valid. */
  lemma {:induction false} RunInv(store: Store, steps: seq<(MessageInfo, HandleMsg)>)
    requires StoreInv(store)
    ensures StoreInv(Run(store, steps))
    decreases |steps|
  {
    if |steps| > 0 {
      ExecuteInv(store, steps[0].0, steps[0].1);
      RunInv(Execute(store, steps[0].0, steps[0].1).0, steps[1..]);
    }
  }

  /**
   * In every reachable store, each room counts one move per occupied cell (so
   * at most nine), the turn alternates from the first player, every mark is its
   * player's sign, and the status agrees with the board.
   */
  lemma ReachableInv(steps: seq<(MessageInfo, HandleMsg)>)
    ensures StoreInv(Run(Instantiate(), steps))
  {
    RunInv(Instantiate(), steps);
  }

  /**
   * Status moves one way: a single message either leaves a room's status as it
   * was, ends a game in progress with a win or a tie, or (only by a restart of
   * that room) puts it back in progress. Rooms are never removed.
   */
  lemma StatusStep(store: Store, info: MessageInfo, msg: HandleMsg, n: u8)
    requires StoreInv(store) && n in store.rooms
    ensures var after := Execute(store, info, msg).0;
            && n in after.rooms
            && var before := store.rooms[n].gameState;
               var now := after.rooms[n].gameState;
               || now == before
               || (before == InProgress && (now.GameWon? || now == Tie))
               || (msg == RestartGameMsg(n) && now == InProgress)
  {
    match msg
    case PlayMoveMsg(c, k) =>
      if Accepts(store, info, c, k) && k == n {
        PlayMoveOutcome(store, info, c, k);
      } else if Accepts(store, info, c, k) {
        PlayMoveEffect(store, info, c, k);
      }
    case RestartGameMsg(k) =>
    case AddRoomMsg(p1, p2) =>
      assert n < store.state.roomCount;
  }

  /**
   * A cell once occupied keeps its occupant and sign under every message
   * except a restart of its own room.
   */
  lemma OccupiedCellStays(store: Store, info: MessageInfo, msg: HandleMsg, n: u8, i: nat)
    requires StoreInv(store) && n in store.rooms && i < 9
    requires store.rooms[n].board.cells[i].player.Some?
    requires msg != RestartGameMsg(n)
    ensures var after := Execute(store, info, msg).0;
            n in after.rooms && after.rooms[n].board.cells[i] == store.rooms[n].board.cells[i]
  {
    match msg
    case PlayMoveMsg(c, k) =>
      if Accepts(store, info, c, k) {
        PlayMoveEffect(store, info, c, k);
      }
    case RestartGameMsg(k) =>
    case AddRoomMsg(p1, p2) =>
      assert n < store.state.roomCount;
  }

  /** A game that has ended, by a win or a tie, refuses every move until it is restarted. */
  lemma EndedGameRefusesMoves(store: Store, info: MessageInfo, c: Coordinates, n: u8)
    requires n in store.rooms && store.rooms[n].gameState != InProgress
    requires FundsOk(info)
    ensures PlayMove(store, info, c, n) == Failure(GameEnded)
  {
  }

  /** A move by anyone but the holder of the turn is refused and changes nothing. */
  lemma OutOfTurnRefused(store: Store, info: MessageInfo, c: Coordinates, n: u8)
    requires n in store.rooms && store.rooms[n].turn != info.sender
    ensures Execute(store, info, PlayMoveMsg(c, n)).0 == store
    ensures Execute(store, info, PlayMoveMsg(c, n)).1.Failure?
  {
  }
}
