/**
 * Concrete games, following the winning-game and tie-game unit tests of
 * src/contract.rs. A game is a chain of lemmas, one per move: each takes the
 * `Position` the previous one ends in and states that the move is accepted
 * and which `Position` follows, starting from `StartPosition` (instantiate,
 * then create room 0). The last lemma of each game states the outcome the
 * test expects and that a further move is refused.
 */
module Scenarios {
  import opened Wrappers
  import opened Cells
  import opened Boards
  import opened Rooms
  import opened Errors
  import opened Contract

  const P1: Addr := "player1"
  const P2: Addr := "player2"

  /** A message from `who` carrying ten "ioc". */
  function Pays(who: Addr): MessageInfo
  {
    MessageInfo(who, [Coin("ioc", 10)])
  }

  /** The store after instantiation and the creation of room 0 for the two test players. */
  function WithRoom(): Store
  {
    Execute(Instantiate(), MessageInfo("info", [Coin("ioc", 10)]), AddRoomMsg(P1, P2)).0
  }

  /** The fund check accepts ten "ioc". */
  lemma PaysOk(who: Addr)
    ensures CheckFunds(Pays(who).funds) == Success(10)
  {
    assert Pays(who).funds[..0] == [];
  }

  /** The one room of the test store is a new room for the two test players. */
  lemma WithRoomShape()
    ensures WithRoom().rooms == map[0 := NewRoom(P1, P2)]
    ensures WithRoom().state == State(1, 0)
  {
  }

  /** The other test player. */
  function Other(who: Addr): Addr
  {
    if who == P1 then P2 else P1
  }

  /**
   * Room 0 is the only room, in progress between the two test players, with
   * the given turn, move count, pot and cell owners; the balance is zero.
   */
  ghost predicate Position(s: Store, turn: Addr, moves: nat, pot: nat, owners: seq<Option<Addr>>)
  {
    && |owners| == 9 && s.rooms.Keys == {0} && s.state == State(1, 0)
    && s.rooms[0].player1 == P1 && s.rooms[0].player2 == P2
    && s.rooms[0].turn == turn && s.rooms[0].gameState == InProgress
    && s.rooms[0].noMoves == moves && s.rooms[0].totalCoinsRaised == pot
    && Owners(s.rooms[0].board) == owners
  }

  /** Who holds each cell of a board, in index order. */
  function Owners(b: Board): (o: seq<Option<Addr>>)
    ensures |o| == 9 && forall j :: 0 <= j < 9 ==> o[j] == b.cells[j].player
  {
    seq(9, j requires 0 <= j < 9 => b.cells[j].player)
  }

  /** Room 0 of the test store starts from the empty position with the first player to move. */
  lemma StartPosition()
    ensures Position(WithRoom(), P1, 0, 0, NoOwners)
  {
    WithRoomShape();
    assert AllEmpty(WithRoom().rooms[0].board);
  }

  /**
   * A move of the player holding the turn onto a free cell that completes no
   * line is accepted, keeps the game in progress and passes the turn.
   */
  lemma QuietMove(s: Store, who: Addr, moves: nat, pot: nat, owners: seq<Option<Addr>>, c: Coordinates)
    requires (who == P1 || who == P2) && Position(s, who, moves, pot, owners)
    requires Index(c) < 9 && owners[Index(c)] == None && moves < 8
    requires forall k :: 0 <= k < |WinLines[Index(c)]| ==>
               !(owners[Index(c) := Some(who)][WinLines[Index(c)][k].0] == Some(who) &&
                 owners[Index(c) := Some(who)][WinLines[Index(c)][k].1] == Some(who))
    ensures Execute(s, Pays(who), PlayMoveMsg(c, 0)).1.Success?
    ensures Position(Execute(s, Pays(who), PlayMoveMsg(c, 0)).0, Other(who), moves + 1, pot + 10, owners[Index(c) := Some(who)])
  {
    PaysOk(who);
    PlayMoveEffect(s, Pays(who), c, 0);
    PlayMoveOutcome(s, Pays(who), c, 0);
    var after := Execute(s, Pays(who), PlayMoveMsg(c, 0)).0;
    assert Owners(after.rooms[0].board) == owners[Index(c) := Some(who)];
    WinLinesShape();
    forall q: nat, r: nat | IsLine(Index(c), q, r)
      ensures !(owners[Index(c) := Some(who)][q] == Some(who) && owners[Index(c) := Some(who)][r] == Some(who))
    {
      WinLinesExact(Index(c), q, r);
    }
  }

  /** No cell is owned. */
  const NoOwners: seq<Option<Addr>> := [None, None, None, None, None, None, None, None, None]

  /** The store and result after `who` pays ten "ioc" to play at `(x, y)` in room 0. */
  function Move(s: Store, who: Addr, x: u8, y: u8): (Store, Result<Response, ContractError>)
  {
    Execute(s, Pays(who), PlayMoveMsg(Coordinates(x, y), 0))
  }

  /** From the empty position, X at (0,0) is accepted. */
  lemma FirstMove(s0: Store)
    requires Position(s0, P1, 0, 0, NoOwners)
    ensures Position(Move(s0, P1, 0, 0).0, P2, 1, 10, [Some(P1), None, None, None, None, None, None, None, None])
    ensures Move(s0, P1, 0, 0).1.Success?
  {
    QuietMove(s0, P1, 0, 0, NoOwners, Coordinates(0, 0));
    assert NoOwners[0 := Some(P1)] == [Some(P1), None, None, None, None, None, None, None, None];
  }

  /** Then O at (0,1) is accepted (in both the winning and the tie game). */
  lemma SecondMove(s1: Store)
    requires Position(s1, P2, 1, 10, [Some(P1), None, None, None, None, None, None, None, None])
    ensures Position(Move(s1, P2, 0, 1).0, P1, 2, 20, [Some(P1), Some(P2), None, None, None, None, None, None, None])
    ensures Move(s1, P2, 0, 1).1.Success?
  {
    var o1: seq<Option<Addr>> := [Some(P1), None, None, None, None, None, None, None, None];
    QuietMove(s1, P2, 1, 10, o1, Coordinates(0, 1));
    assert o1[1 := Some(P2)] == [Some(P1), Some(P2), None, None, None, None, None, None, None];
  }

  /** Then X at (1,0) is accepted. */
  lemma WinThirdMove(s2: Store)
    requires Position(s2, P1, 2, 20, [Some(P1), Some(P2), None, None, None, None, None, None, None])
    ensures Position(Move(s2, P1, 1, 0).0, P2, 3, 30, [Some(P1), Some(P2), None, Some(P1), None, None, None, None, None])
    ensures Move(s2, P1, 1, 0).1.Success?
  {
    var o2: seq<Option<Addr>> := [Some(P1), Some(P2), None, None, None, None, None, None, None];
    QuietMove(s2, P1, 2, 20, o2, Coordinates(1, 0));
    assert o2[3 := Some(P1)] == [Some(P1), Some(P2), None, Some(P1), None, None, None, None, None];
  }

  /** Then O at (1,1) is accepted. */
  lemma WinFourthMove(s3: Store)
    requires Position(s3, P2, 3, 30, [Some(P1), Some(P2), None, Some(P1), None, None, None, None, None])
    ensures Position(Move(s3, P2, 1, 1).0, P1, 4, 40, [Some(P1), Some(P2), None, Some(P1), Some(P2), None, None, None, None])
    ensures Move(s3, P2, 1, 1).1.Success?
  {
    var o3: seq<Option<Addr>> := [Some(P1), Some(P2), None, Some(P1), None, None, None, None, None];
    QuietMove(s3, P2, 3, 30, o3, Coordinates(1, 1));
    assert o3[4 := Some(P2)] == [Some(P1), Some(P2), None, Some(P1), Some(P2), None, None, None, None];
  }

  /**
   * Then X at (2,0) completes the left column: X wins and is paid half of the
   * fifty coins staked, and O's next move is refused with the store unchanged.
   */
  lemma WinningMove(s4: Store)
    requires Position(s4, P1, 4, 40, [Some(P1), Some(P2), None, Some(P1), Some(P2), None, None, None, None])
    ensures var e5 := Move(s4, P1, 2, 0);
            var e6 := Move(e5.0, P2, 2, 1);
            && e5.1.Success?
            && e5.0.rooms[0].gameState == GameWon(P1)
            && e5.1.value.messages == [BankSend(P1, [Coin("ioc", 25)])]
            && e5.0.state.balance == 25
            && e6.1 == Failure(GameEnded) && e6.0 == e5.0
  {
    PaysOk(P1);
    PaysOk(P2);
    PlayMoveEffect(s4, Pays(P1), Coordinates(2, 0), 0);
    PlayMoveOutcome(s4, Pays(P1), Coordinates(2, 0), 0);
    assert HoldsLine(Move(s4, P1, 2, 0).0.rooms[0].board, P1, 6, 0, 3);
  }

  /** In the tie game, the third move, X at (0,2), is accepted without a win. */
  lemma TieMove3(s: Store)
    requires Position(s, P1, 2, 20, [Some(P1), Some(P2), None, None, None, None, None, None, None])
    ensures Position(Move(s, P1, 0, 2).0, P2, 3, 30, [Some(P1), Some(P2), Some(P1), None, None, None, None, None, None])
    ensures Move(s, P1, 0, 2).1.Success?
  {
    var o: seq<Option<Addr>> := [Some(P1), Some(P2), None, None, None, None, None, None, None];
    QuietMove(s, P1, 2, 20, o, Coordinates(0, 2));
    assert o[2 := Some(P1)] == [Some(P1), Some(P2), Some(P1), None, None, None, None, None, None];
  }

  /** In the tie game, the fourth move, O at (2,0), is accepted without a win. */
  lemma TieMove4(s: Store)
    requires Position(s, P2, 3, 30, [Some(P1), Some(P2), Some(P1), None, None, None, None, None, None])
    ensures Position(Move(s, P2, 2, 0).0, P1, 4, 40, [Some(P1), Some(P2), Some(P1), None, None, None, Some(P2), None, None])
    ensures Move(s, P2, 2, 0).1.Success?
  {
    var o: seq<Option<Addr>> := [Some(P1), Some(P2), Some(P1), None, None, None, None, None, None];
    QuietMove(s, P2, 3, 30, o, Coordinates(2, 0));
    assert o[6 := Some(P2)] == [Some(P1), Some(P2), Some(P1), None, None, None, Some(P2), None, None];
  }

  /** In the tie game, the fifth move, X at (2,1), is accepted without a win. */
  lemma TieMove5(s: Store)
    requires Position(s, P1, 4, 40, [Some(P1), Some(P2), Some(P1), None, None, None, Some(P2), None, None])
    ensures Position(Move(s, P1, 2, 1).0, P2, 5, 50, [Some(P1), Some(P2), Some(P1), None, None, None, Some(P2), Some(P1), None])
    ensures Move(s, P1, 2, 1).1.Success?
  {
    var o: seq<Option<Addr>> := [Some(P1), Some(P2), Some(P1), None, None, None, Some(P2), None, None];
    QuietMove(s, P1, 4, 40, o, Coordinates(2, 1));
    assert o[7 := Some(P1)] == [Some(P1), Some(P2), Some(P1), None, None, None, Some(P2), Some(P1), None];
  }

  /** In the tie game, the sixth move, O at (2,2), is accepted without a win. */
  lemma TieMove6(s: Store)
    requires Position(s, P2, 5, 50, [Some(P1), Some(P2), Some(P1), None, None, None, Some(P2), Some(P1), None])
    ensures Position(Move(s, P2, 2, 2).0, P1, 6, 60, [Some(P1), Some(P2), Some(P1), None, None, None, Some(P2), Some(P1), Some(P2)])
    ensures Move(s, P2, 2, 2).1.Success?
  {
    var o: seq<Option<Addr>> := [Some(P1), Some(P2), Some(P1), None, None, None, Some(P2), Some(P1), None];
    QuietMove(s, P2, 5, 50, o, Coordinates(2, 2));
    assert o[8 := Some(P2)] == [Some(P1), Some(P2), Some(P1), None, None, None, Some(P2), Some(P1), Some(P2)];
  }

  /** In the tie game, the seventh move, X at (1,0), is accepted without a win. */
  lemma TieMove7(s: Store)
    requires Position(s, P1, 6, 60, [Some(P1), Some(P2), Some(P1), None, None, None, Some(P2), Some(P1), Some(P2)])
    ensures Position(Move(s, P1, 1, 0).0, P2, 7, 70, [Some(P1), Some(P2), Some(P1), Some(P1), None, None, Some(P2), Some(P1), Some(P2)])
    ensures Move(s, P1, 1, 0).1.Success?
  {
    var o: seq<Option<Addr>> := [Some(P1), Some(P2), Some(P1), None, None, None, Some(P2), Some(P1), Some(P2)];
    QuietMove(s, P1, 6, 60, o, Coordinates(1, 0));
    assert o[3 := Some(P1)] == [Some(P1), Some(P2), Some(P1), Some(P1), None, None, Some(P2), Some(P1), Some(P2)];
  }

  /** In the tie game, the eighth move, O at (1,1), is accepted without a win. */
  lemma TieMove8(s: Store)
    requires Position(s, P2, 7, 70, [Some(P1), Some(P2), Some(P1), Some(P1), None, None, Some(P2), Some(P1), Some(P2)])
    ensures Position(Move(s, P2, 1, 1).0, P1, 8, 80, [Some(P1), Some(P2), Some(P1), Some(P1), Some(P2), None, Some(P2), Some(P1), Some(P2)])
    ensures Move(s, P2, 1, 1).1.Success?
  {
    var o: seq<Option<Addr>> := [Some(P1), Some(P2), Some(P1), Some(P1), None, None, Some(P2), Some(P1), Some(P2)];
    QuietMove(s, P2, 7, 70, o, Coordinates(1, 1));
    assert o[4 := Some(P2)] == [Some(P1), Some(P2), Some(P1), Some(P1), Some(P2), None, Some(P2), Some(P1), Some(P2)];
  }

  /**
   * In the tie game, the ninth move, X at (1,2), fills the board without a
   * line: the game is a tie, nothing is paid, and a further move is refused
   * with the store unchanged.
   */
  lemma TieFinalMove(s: Store)
    requires Position(s, P1, 8, 80, [Some(P1), Some(P2), Some(P1), Some(P1), Some(P2), None, Some(P2), Some(P1), Some(P2)])
    ensures var e9 := Move(s, P1, 1, 2);
            var e10 := Move(e9.0, P2, 0, 0);
            && e9.1.Success?
            && e9.0.rooms[0].gameState == Tie
            && e9.1.value.messages == []
            && e9.0.state == State(1, 0)
            && e9.0.rooms[0].totalCoinsRaised == 90
            && e10.1 == Failure(GameEnded) && e10.0 == e9.0
  {
    PaysOk(P1);
    PaysOk(P2);
    PlayMoveEffect(s, Pays(P1), Coordinates(1, 2), 0);
    PlayMoveOutcome(s, Pays(P1), Coordinates(1, 2), 0);
    var board := Move(s, P1, 1, 2).0.rooms[0].board;
    assert board.cells[5].player == Some(P1);
    forall q: nat, r: nat | IsLine(5, q, r)
      ensures !HoldsLine(board, P1, 5, q, r)
    {
      WinLinesExact(5, q, r);
    }
  }
}
