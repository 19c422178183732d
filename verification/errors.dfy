/**
 * The ways an entry point can fail. The contract's own error type lives in
 * src/error.rs, which is not part of this model; the variants here are the
 * distinct rejections the entry points return, plus `Panic` for the aborts
 * (arithmetic overflow, an index past the end of a vector) that make the host
 * revert the transaction. The comment on each variant gives the text the
 * source attaches to that rejection.
 */
module Errors {

  datatype ContractError =
    | InvalidDenom    // "Only ioc is supported. Invlid token sent."
    | NoCoins         // "No coins sent"
    | RoomMissing     // "Room does not exist." (play_move, restart_game)
    | GameEnded       // "Game ended."
    | NotYourTurn     // "It's not your turn or you missed a room."
    | SpotOccupied    // "Spot is occupied"
    | RoomNotSaved    // "Room does not exist" (save_room overwriting a missing room)
    | RoomNotFound    // "Room not found!" (a query naming a missing room)
    | Panic           // the transaction aborted; no message
}
