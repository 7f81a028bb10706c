/**
  The external rules engine (the `arvidkr_chess` crate). The game never looks
  inside a board: it only calls the engine's operations, so each of them is a
  field of `Engine` over an abstract board type `B`, and what the game does is
  stated for whatever those operations return.
 */
module Rules {

  datatype Engine<!B> = Engine(
    makeMove: (B, string) -> B,       // make_move(board, "e2e4"): the board afterwards
    start: B -> int,                  // board.start, only compared for equality
    boardInfo: B -> string,           // get_boardinfo(): side to move at [2], squares at [7..71]
    filteredMoves: B -> seq<string>,  // filtered_moves(): legal moves, origin then destination
    isOver: B -> int,                 // is_over(): 0 while playing, 1..4 a terminal condition
    initial: B)                       // Board::new() followed by init_board()

  /** The board after handing each of `moves` to make_move, first to last. */
  function Replay<B>(e: Engine<B>, b: B, moves: seq<string>): B
    decreases |moves|
  {
    if moves == [] then b else Replay(e, e.makeMove(b, moves[0]), moves[1..])
  }
}
