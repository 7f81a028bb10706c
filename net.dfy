/**
  The message records of the `chess_networking` crate as the game builds and
  reads them. Their byte encoding belongs to that crate and is not modelled:
  a message is sent or received whole.
 */
module Net {
  import opened Wrappers
  import opened Chess

  /** Rust's u8. */
  type byte = x: int | 0 <= x < 256

  /** The handshake record; durations are kept as opaque numbers. */
  datatype Start = Start(isWhite: bool, name: Option<string>, fen: Option<string>,
                         time: Option<nat>, inc: Option<nat>)

  datatype PromotionPiece = Queen | Rook | Bishop | Knight

  /** One ply, squares in wire form (file, rank from the bottom). */
  datatype Move = Move(fromPos: (byte, byte), toPos: (byte, byte), offerDraw: bool,
                       promotion: Option<PromotionPiece>, forfeit: bool)

  /** The receiver's verdict on a Move; the game never sets an end state. */
  datatype Ack = Ack(ok: bool, endState: Option<Status>)

  /** Everything that goes through conn.send. */
  datatype Message = StartMsg(start: Start) | MoveMsg(move: Move) | AckMsg(ack: Ack)
}
