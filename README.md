# A Dafny model of the liamt-chess-gui game logic

This project models the game logic of a two-player networked chess program written in Rust. It leaves out the graphics. Two parts are modelled.

- **Board helpers (`src/chess.rs`, module `Chess`).** Square names move between three forms:
  - a linear index 0..63, where index 0 is a8 and 63 is h1;
  - algebraic text such as `"e2"`;
  - the wire pair (file, rank counted from the bottom) used in Move messages (module `Gui`).

  Other helpers: piece colours, the row flip of the engine's board string, the 64-slot table of legal destinations, and `move_piece`. `move_piece` retries a move as a queen promotion if the first try left the side flag unchanged.
- **The session and turn state machine of `Chess` (`src/main.rs`, module `Gui`).**
  - The colour handshake: the client offers White and the server replies with the complement.
  - `update_board`, which mirrors the engine's side to move, board string, moves and status.
  - The mover's half of a turn (`move_myself`): send a Move, block for the Ack, and play the move locally only if the Ack says ok.
  - The receiver's half (`update`): poll for a Move, play it, and reply `Ack{ok}`, where ok means the side to move changed.
  - The mouse selection rule, with the clicked board index as an integer.

The rules engine (the `arvidkr_chess` crate) is module `Rules`. It is a record of uninterpreted operations over an abstract board type `B`: `make_move`, `board.start`, `get_boardinfo`, `filtered_moves`, `is_over` and the initial board. Every statement about the game holds for whatever those operations return. The game needs two things from the engine, stated as `Gui.EngineWellFormed`:
- the info string is at least 71 characters;
- every legal move string has an origin as in `Chess.EngineMove` (parsable, with an index below 64) and a destination that is a square.

The connection is modelled by its effects. Every `conn.send` appends to the field `outbox`. Every receive is a parameter holding what it returned. For the blocking `receive_skibidi`, that is the message it eventually decoded.

`Gui.Chess.Valid()` is the object invariant. It says:
- the board string is `Flipped` of the engine's info;
- the move table is `MoveTable` of the engine's moves;
- every table entry is a square;
- any selection is a square.

`SelectionOnMyTurn()` is kept by every handler: a piece is selected only while the tracked side to move is this peer's colour. As a consequence, Move messages leave a peer only on its own turn. `update` sends Acks only when it is not that peer's turn.

`Gui.PlayTurn` connects two peers that start from the same board. The receiver always plays the move. After an accepted move they agree on the board and on the side to move, and the mover is no longer to move. After a rejected move the mover keeps its board, turn and status (its selection is cleared and its Move has been sent). The receiver has still played the move, so the two boards may differ: they agree only if those `make_move` calls left the board as it was.

Files:
- `wrappers.dfy`: `Option`;
- `rules.dfy`: the engine interface;
- `chess.dfy`: `src/chess.rs`;
- `net.dfy`: the message records of the `chess_networking` crate;
- `gui.dfy`: `src/main.rs`.

Three behaviours of the code worth knowing:
- The game never stops at a terminal status. Moves and Acks still flow after checkmate, and `end_state` is always `None`.
- The receiver does not turn wire pairs straight into algebraic text. It goes wire pair → index (`pos_tuple_to_int`) → text (`idx_to_str`).
- `Chess::new` sets the side to move to White without asking the engine.

## Model

| member | source | states |
|---|---|---|
| `Chess.StrToIdx` | src/chess.rs:19-24 | For a parsable input (no underflow in the subtractions), the result is a natural number. For a square name, the result is below 64, and the index's own name is the lowercased first character followed by the rank digit. |
| `Chess.IdxToStr` | src/chess.rs:26-32 | For an index below 64, the result is exactly two characters: a file in 'a'..'h', then a rank in '1'..'8'. |
| `Chess.IdxToStrRoundTrip` | src/chess.rs:19-32 | The name of every index 0..63 is a square name, and str_to_idx gives the index back. |
| `Chess.CornerSquares` | src/chess.rs:26-32 | Index 0 is "a8" and index 63 is "h1". |
| `Chess.StrToIdxIgnoresCase` | src/chess.rs:19-24 | Two inputs with the same lowercased file letter and the same rank give the same index ("E2" and "e2"). |
| `Chess.GetPieceColor` | src/chess.rs:48-54 | White exactly for `p r n b q k`, Black exactly for `P R N B Q K`, and no colour for every other character. |
| `Chess.Flipped` | src/chess.rs:73-81 | The result is 64 characters: character k of output row r is character k of input row 7 − r. It is the reference definition the loop is proved against. |
| `Chess.InvertBoardStr` | src/chess.rs:73-81 | The stepped loop over slices of eight returns `Flipped` of the input, which is 64 characters long. |
| `Chess.FlippedRow` | src/chess.rs:73-81 | Output row r equals input row 7 − r, with characters in their order. |
| `Chess.FlippedTwice` | src/chess.rs:73-81 | Flipping twice gives back the 64 characters. |
| `Chess.MoveTable` | src/chess.rs:34-46 | The table has 64 slots. Slot sq lists the destinations of the moves starting at sq. |
| `Chess.DestsMember` | src/chess.rs:40-43 | j is in slot sq exactly when some engine move has its first two characters naming sq and its next two naming j. |
| `Chess.DestsEmpty` | src/chess.rs:34-46 | A slot is empty exactly when no move starts at that square. |
| `Chess.DestsAppend` | src/chess.rs:40-43 | A slot for a list split in two is the slot of the first part, then the slot of the second. Entries keep the engine's order. |
| `Chess.PastFileOrigin` | src/chess.rs:40-43 | "i8" is not a square, yet its index is 8, so a move "i8a1" is taken into slot 8 as the source does. |
| `Chess.DestsBounded` | src/chess.rs:40-43 | When every destination names a square, every slot entry is below 64. |
| `Chess.GenerateValidMoves` | src/chess.rs:34-46 | The loop that pushes onto the 64-slot array returns exactly `MoveTable` of the engine's moves. |
| `Chess.MovePieceCallsShape` | src/chess.rs:56-71 | There are one or two engine calls. The first is a 4-character move whose halves name `from` and `to`. A second call happens exactly when `board.start` did not change, and it is the first string plus "Q". |
| `Chess.MovePiece` | src/chess.rs:56-71 | The engine is called with exactly those strings, and the board returned is the one those calls produce (`Moved`). |
| `Gui.PosIntToTuple` | src/main.rs:85-89 | Both components are in 0..7, and they are the file and rank of the index's algebraic name in numeric form. |
| `Gui.PosTupleToInt` | src/main.rs:91-95 | For x and y in 0..7, the index is below 64 and pos_int_to_tuple gives (x, y) back. |
| `Gui.PosRoundTrip` | src/main.rs:85-95 | For every index 0..63, pos_tuple_to_int(pos_int_to_tuple(i)) == i. |
| `Gui.MoveOf` | src/main.rs:254-260 | The Move built by move_myself decodes back to the selected square and the destination, with no draw offer, no promotion and no forfeit. |
| `Gui.Handshake` | src/main.rs:130-166 | The client sends its fixed White offer. The server sends the complement of what it received. Each peer takes Black exactly when the Start it received says is_white. |
| `Gui.HandshakeColorsOpposite` | src/main.rs:154-165 | Whatever the offer, the server's reply has the opposite is_white, and the two peers' colours are White and Black. |
| `Gui.HandshakeSession` | src/main.rs:130-166 | Both peers' handshakes wired together: the client ends White and the server ends Black. |
| `Gui.SideToMove` | src/main.rs:232-236 | The side to move is White exactly when character 2 of the info string is 'W', and Black otherwise. |
| `Gui.StatusAfter` | src/main.rs:241-250 | Codes 1, 2, 3 and 4 give Checkmate, Stalemate, ThreefoldRepetition and FiftyMoveRule respectively. Every other code leaves the status unchanged. |
| `Gui.StatusAfterIdempotent` | src/main.rs:241-250 | Reading the same code twice, as `update` does, gives the same status as reading it once. |
| `Gui.StatusAfterSticky` | src/main.rs:241-250 | Once the status is terminal, no code brings it back to Active. |
| `Gui.MoveTableOnBoard` | src/chess.rs:34-46 | A table built from moves whose destination is a square (origin as in `EngineMove`) holds only square indices. The mouse handlers rely on this when they index and send. |
| `Gui.Chess.constructor` | src/main.rs:127-227 | Covers the handshake, the initial board, its board string and legal moves, the side to move set to White, Active status, no selection, and the one Start message on the connection. |
| `Gui.Chess.UpdateBoard` | src/main.rs:230-251 | The side to move comes from the info string. The board string and table are those of the board. The status follows the is_over code. Nothing else changes. |
| `Gui.Chess.MoveMyself` | src/main.rs:253-272 | Exactly one Move is sent. If the Ack's ok is true, the board is move_piece's result and the turn and status are refreshed. If ok is false, nothing else changes. |
| `Gui.Chess.MoveOpp` | src/main.rs:274-281 | The peer's wire squares are decoded, move_piece is played on them, and the views are refreshed. |
| `Gui.Chess.Update` | src/main.rs:285-317 | Nothing happens on this peer's turn or when no Move arrived. Otherwise the move is played and exactly one `Ack{ok: turn changed, end_state: None}` is sent. |
| `Gui.Chess.MouseButtonDown` | src/main.rs:443-491 | The first matching case applies: select a piece of this peer on its turn, or send and play a move to a legal destination and clear the selection, or clear the selection. An index of 64 or more keeps the selection. A reset click restores the initial board. |
| `Gui.Chess.MouseButtonUp` | src/main.rs:493-521 | A drop on a legal destination sends and plays the move and clears the selection. Dragging always ends. |
| `Gui.PlayTurn` | src/main.rs:253-317 | One turn between two peers that share a board. The receiver always plays the move: its board is `Moved` of the selection and the destination, and its side to move and status are refreshed from it. The Ack has no end state, and ok holds exactly when the receiver's side to move changed. If accepted, the mover's board is the receiver's, both agree on the side to move, and the receiver, not the mover, is now to move. Both peers keep their colours, and the receiver keeps its selection and dragging flag. If rejected, the mover keeps its board, turn and status. |

## Left out

- The transport (`src/network.rs`): TCP bind, accept and connect, non-blocking mode, `read` and `write_all`. These are I/O over the standard library.
- The `Connection` type with `receive` and `receive_skibidi`: it is not part of this model, so partial reads, framing and retry are not modelled. A receive is a parameter.
- Gui.Handshake: the client sends before it receives. The model takes the received Start as an input, so it states what each peer sends and concludes, not the order of the two steps.
- Message serialization by `chess_networking` is not modelled. Its `promotion` and `end_state` field types are stood in for by `PromotionPiece` and the game's own `Status`; the game only ever sets them to `None`.
- The chess rules (`make_move`, `filtered_moves`, `is_over`) are uninterpreted. `in_check` is used only in drawing. `filtered_moves` and `is_over` take `&mut Board` and are assumed to leave the board as it was.
- `board.start` is modelled as an integer, because the game only compares it for equality.
- Gui.Chess.Update: a received Move must have wire pairs that decode to an index below 64 (`OnBoard`; (8, 7) decodes to 8, "a7"). For other pairs the source's u8 or usize subtraction underflows and the program panics; the model does not describe the crash.
- Chess.StrToIdx: lower-casing is modelled for ASCII only, and the first character must be ASCII. The engine's move strings are ASCII.
- Chess.GenerateValidMoves: every engine move must have parsable halves and an origin whose index is below 64 (`EngineMove`; this includes names past 'h' such as "i8"). For an origin with a larger index the source indexes past the 64-slot array and panics; the model does not describe the crash.
- Integer widths: the model follows debug builds, where an overflowing subtraction panics, so those inputs are excluded by preconditions. The wrap-around of release builds is not modelled.
- Board strings are treated as sequences of characters. Rust slices them by byte, which agrees for the ASCII strings the engine produces.
- Graphics are not modelled: `Chess::draw`, mesh and grid building, image loading (`src/draw.rs`), and the display-to-engine index flip used for the check marker.
- Floating-point input handling is not modelled: pixel-to-index conversion, `mouse_pos` and `mouse_motion_event`. The handlers take the board index as an integer. The reset-button rectangle test is a boolean input.
- `println!` output, `thread::sleep`, command-line parsing, and `process::exit` in `main` are not modelled.
- Resynchronising after a rejected move is not modelled, because the source has none. The receiver has already played the move (up to two `make_move` calls) while the mover keeps its old board. `Gui.PlayTurn` states both boards, so they may differ: they agree only if those calls left the board as it was, and nothing repairs a difference.
- Boards are passed by value: `move_piece` returns the new board instead of updating it through `&mut Board`. The game object stores the result in its `board` field.
