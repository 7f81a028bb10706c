/**
  The game of src/main.rs without its graphics: the wire form of squares, the
  colour handshake of Chess::new, and the `Chess` state machine (board
  refresh, the mover's and the receiver's halves of a turn, and the mouse
  selection rule on board indices).

  The connection is modelled by its effects: everything conn.send writes is
  appended to `outbox`, and each receive is a parameter holding what it
  returned (for the blocking receive, the message it waited for).
 */
module Gui {
  import opened Wrappers
  import opened Rules
  import opened ChessHelpers = Chess
  import opened Net

  // ---------------------------------------------------------------------
  // Wire squares
  // ---------------------------------------------------------------------

  /** pos_int_to_tuple: the wire pair (file, rank counted from the bottom) of a linear index. */
  function PosIntToTuple(idx: nat): (pos: (byte, byte))
    requires idx < 64
    ensures pos.0 < 8 && pos.1 < 8
    ensures IdxToStr(idx) == [(pos.0 + 'a' as int) as char, (pos.1 + '1' as int) as char]
  {
    ((idx % 8) as byte, (7 - idx / 8) as byte)
  }

  /** pos_tuple_to_int: the linear index of a wire pair; the u8 subtraction needs y <= 7. */
  function PosTupleToInt(pos: (byte, byte)): (idx: nat)
    requires pos.1 <= 7
    ensures pos.0 < 8 ==> idx < 64 && PosIntToTuple(idx) == pos
  {
    (7 - pos.1) * 8 + pos.0
  }

  lemma PosRoundTrip(idx: nat)
    requires idx < 64
    ensures PosTupleToInt(PosIntToTuple(idx)) == idx
  {
  }

  /** A wire pair that move_opp can hand to move_piece (no underflow on the way). */
  predicate OnBoard(pos: (byte, byte))
  {
    pos.1 <= 7 && PosTupleToInt(pos) < 64
  }

  // ---------------------------------------------------------------------
  // Handshake
  // ---------------------------------------------------------------------

  datatype ConnectionType = Server | Client

  const ClientName := "The weather outside is rizzy"
  const ServerName := "But the fire is so skibidi"

  /** The client always proposes to play White. */
  function ClientOffer(): Start
  {
    Start(true, Some(ClientName), None, None, None)
  }

  /** The server answers an offer with the complementary colour. */
  function ServerReply(offer: Start): Start
  {
    Start(!offer.isWhite, Some(ServerName), None, None, None)
  }

  /** my_color once the peer's Start has arrived: Black if it says is_white. */
  function AssignedColor(received: Start): Color
  {
    if received.isWhite then Black else White
  }

  /**
    The handshake block of Chess::new for one peer: what it sends and the
    colour it takes, given the Start its blocking receive returned.
   */
  method Handshake(role: ConnectionType, received: Start) returns (sent: Start, myColor: Color)
    ensures sent == (if role == Client then ClientOffer() else ServerReply(received))
    ensures myColor == AssignedColor(received)
    ensures myColor != NoColor && (myColor == Black <==> received.isWhite)
  {
    myColor := White;
    if role == Client {
      sent := ClientOffer();
      if received.isWhite {
        myColor := Black;
      }
    } else {
      sent := Start(!received.isWhite, Some(ServerName), None, None, None);
      if received.isWhite {
        myColor := Black;
      }
    }
  }

  /** Whatever a client offers, the server's reply flips it and the two colours differ. */
  lemma HandshakeColorsOpposite(offer: Start)
    ensures ServerReply(offer).isWhite == !offer.isWhite
    ensures {AssignedColor(offer), AssignedColor(ServerReply(offer))} == {White, Black}
  {
  }

  /** Both peers' handshakes, wired together: the client ends White, the server Black. */
  method HandshakeSession() returns (clientColor: Color, serverColor: Color)
    ensures clientColor == White && serverColor == Black
  {
    var reply, offer;
    reply, serverColor := Handshake(Server, ClientOffer());
    offer, clientColor := Handshake(Client, reply);
    assert offer == ClientOffer();
  }

  // ---------------------------------------------------------------------
  // What the game takes from the engine
  // ---------------------------------------------------------------------

  /** Every move has an origin as in `EngineMove` and a destination that is a square. */
  predicate SquareMoves(moves: seq<string>)
  {
    MoveList(moves) && forall k :: 0 <= k < |moves| ==> IsSquare(moves[k][2..4])
  }

  /**
    The engine's side of the contract: board info long enough for the slices
    [2..3] and [7..71], and legal moves with an origin as in `EngineMove` and
    a destination that is a square.
   */
  ghost predicate EngineWellFormed<B(!new)>(e: Engine<B>)
  {
    && (forall b :: |e.boardInfo(b)| >= 71)
    && (forall b :: SquareMoves(e.filteredMoves(b)))
  }

  /** The side to move in the engine's info string: White exactly when character 2 is 'W'. */
  function SideToMove(info: string): (c: Color)
    requires |info| >= 3
    ensures c != NoColor
    ensures c == White <==> info[2] == 'W'
  {
    if info[2..3] == "W" then White else Black
  }

  /** The status after update_board reads code `code` from is_over. */
  function StatusAfter(current: Status, code: int): (s: Status)
    ensures !(1 <= code <= 4) ==> s == current
    ensures 1 <= code <= 4 ==> s != Active
    ensures 1 <= code <= 4 ==>
      && (s == Checkmate <==> code == 1)
      && (s == Stalemate <==> code == 2)
      && (s == ThreefoldRepetition <==> code == 3)
      && (s == FiftyMoveRule <==> code == 4)
  {
    match code
    case 1 => Checkmate
    case 2 => Stalemate
    case 3 => ThreefoldRepetition
    case 4 => FiftyMoveRule
    case _ => current
  }

  /** Reading the same code twice is reading it once. */
  lemma StatusAfterIdempotent(current: Status, code: int)
    ensures StatusAfter(StatusAfter(current, code), code) == StatusAfter(current, code)
  {
  }

  /** A game that is over stays over until a reset: no code brings back Active. */
  lemma StatusAfterSticky(current: Status, code: int)
    requires current != Active
    ensures StatusAfter(current, code) != Active
  {
  }

  /** Every entry of the table is a square index. */
  predicate TableOnBoard(table: seq<seq<nat>>)
  {
    forall sq, j :: 0 <= sq < |table| && j in table[sq] ==> j < 64
  }

  /** A table built from moves whose destination is a square (origin as in `EngineMove`) holds only square indices. */
  lemma MoveTableOnBoard(moves: seq<string>)
    requires SquareMoves(moves)
    ensures TableOnBoard(MoveTable(moves))
  {
    forall sq, j | 0 <= sq < 64 && j in MoveTable(moves)[sq]
      ensures j < 64
    {
      DestsBounded(moves, sq, j);
    }
  }

  /** The Move record move_myself sends for a selection and a destination. */
  function MoveOf(from: nat, to: nat): (mv: Move)
    requires from < 64 && to < 64
    ensures OnBoard(mv.fromPos) && PosTupleToInt(mv.fromPos) == from
    ensures OnBoard(mv.toPos) && PosTupleToInt(mv.toPos) == to
    ensures !mv.offerDraw && mv.promotion == None && !mv.forfeit
  {
    PosRoundTrip(from);
    PosRoundTrip(to);
    Move(PosIntToTuple(from), PosIntToTuple(to), false, None, false)
  }

  // ---------------------------------------------------------------------
  // The game state
  // ---------------------------------------------------------------------

  class Chess<B(!new)> {
    const engine: Engine<B>
    var board: B
    var boardStr: string              // the board string, rank 8 first
    var selectedPiece: Option<nat>
    var dragging: bool
    var validMoves: seq<seq<nat>>     // 64 slots of legal destinations
    var turn: Color
    var myColor: Color
    var status: Status
    var outbox: seq<Message>          // everything sent on the connection, in order

    /** What holds between handler calls, whatever the board. */
    ghost predicate Ready()
      reads this
    {
      && EngineWellFormed(engine)
      && turn != NoColor && myColor != NoColor
      && (selectedPiece.Some? ==> selectedPiece.value < 64)
    }

    /** Ready, and the board string and the move table are those of the current board. */
    ghost predicate Valid()
      reads this
    {
      && Ready()
      && boardStr == Flipped(engine.boardInfo(board)[7..71])
      && validMoves == MoveTable(engine.filteredMoves(board))
      && TableOnBoard(validMoves)
    }

    /** A piece is only ever selected while it is this peer's turn. */
    ghost predicate SelectionOnMyTurn()
      reads this
    {
      selectedPiece.Some? ==> turn == myColor
    }

    /** The clicked square holds a piece of the side to move, which is this peer. */
    ghost predicate Picks(idx: nat)
      reads this
      requires Valid()
    {
      idx < 64 && GetPieceColor(boardStr[idx]) == turn && GetPieceColor(boardStr[idx]) == myColor
    }

    /** The index is a legal destination of the selected piece. */
    ghost predicate Targets(idx: nat)
      reads this
      requires Valid()
    {
      selectedPiece.Some? && idx in validMoves[selectedPiece.value]
    }

    /**
      Chess::new after the connection is up: the handshake, the initial board
      and its views. `received` is the Start the blocking receive returned.
     */
    constructor (engine: Engine<B>, role: ConnectionType, received: Start)
      requires EngineWellFormed(engine)
      ensures Valid() && this.engine == engine && board == engine.initial
      ensures myColor == AssignedColor(received)
      ensures outbox == [StartMsg(if role == Client then ClientOffer() else ServerReply(received))]
      ensures turn == White && status == Active && selectedPiece == None && !dragging
    {
      var sent, color := Handshake(role, received);
      var b := engine.initial;
      var bs := InvertBoardStr(engine.boardInfo(b)[7..71]);
      var vm := GenerateValidMoves(engine, b);
      MoveTableOnBoard(engine.filteredMoves(b));
      this.engine := engine;
      board := b;
      boardStr := bs;
      selectedPiece := None;
      dragging := false;
      validMoves := vm;
      turn := White;
      myColor := color;
      status := Active;
      outbox := [StartMsg(sent)];
    }

    /** update_board: mirror the engine's side to move, board string, moves and status. */
    method UpdateBoard()
      requires Ready()
      modifies this
      ensures Valid()
      ensures board == old(board) && selectedPiece == old(selectedPiece) && dragging == old(dragging)
      ensures myColor == old(myColor) && outbox == old(outbox)
      ensures turn == SideToMove(engine.boardInfo(board))
      ensures status == StatusAfter(old(status), engine.isOver(board))
    {
      var info := engine.boardInfo(board);
      turn := if info[2..3] == "W" then White else Black;
      boardStr := InvertBoardStr(info[7..71]);
      validMoves := GenerateValidMoves(engine, board);
      MoveTableOnBoard(engine.filteredMoves(board));
      var over := engine.isOver(board);
      match over {
        case 0 =>
        case 1 => status := Checkmate;
        case 2 => status := Stalemate;
        case 3 => status := ThreefoldRepetition;
        case 4 => status := FiftyMoveRule;
        case _ =>
      }
    }

    /**
      move_myself: send the Move, wait for the Ack (`ack`), and only if it
      says ok play the move on the local board.
     */
    method MoveMyself(idx: nat, ack: Ack)
      requires Valid() && selectedPiece.Some? && idx < 64
      modifies this
      ensures Valid()
      ensures outbox == old(outbox) + [MoveMsg(MoveOf(old(selectedPiece.value), idx))]
      ensures board == if ack.ok then Moved(engine, old(board), old(selectedPiece.value), idx) else old(board)
      ensures turn == if ack.ok then SideToMove(engine.boardInfo(board)) else old(turn)
      ensures status == if ack.ok then StatusAfter(old(status), engine.isOver(board)) else old(status)
      ensures selectedPiece == old(selectedPiece) && dragging == old(dragging) && myColor == old(myColor)
    {
      var from := selectedPiece.value;
      var mv := Move(PosIntToTuple(from), PosIntToTuple(idx), false, None, false);
      outbox := outbox + [MoveMsg(mv)];
      if ack.ok {
        var after;
        ghost var calls;
        after, calls := MovePiece(engine, board, from, idx);
        board := after;
        UpdateBoard();
      }
    }

    /** move_opp: play the peer's move, given in wire form, and refresh. */
    method MoveOpp(from: (byte, byte), to: (byte, byte))
      requires Ready() && OnBoard(from) && OnBoard(to)
      modifies this
      ensures Valid()
      ensures board == Moved(engine, old(board), PosTupleToInt(from), PosTupleToInt(to))
      ensures turn == SideToMove(engine.boardInfo(board))
      ensures status == StatusAfter(old(status), engine.isOver(board))
      ensures selectedPiece == old(selectedPiece) && dragging == old(dragging)
      ensures myColor == old(myColor) && outbox == old(outbox)
    {
      var after;
      ghost var calls;
      after, calls := MovePiece(engine, board, PosTupleToInt(from), PosTupleToInt(to));
      board := after;
      UpdateBoard();
    }

    /**
      The per-frame update: when it is not this peer's turn, take the Move the
      non-blocking receive returned (`polled`), play it, and acknowledge it
      with ok exactly when the side to move changed.
     */
    method Update(polled: Option<Move>)
      requires Valid()
      requires polled.Some? ==> OnBoard(polled.value.fromPos) && OnBoard(polled.value.toPos)
      modifies this
      ensures Valid()
      ensures selectedPiece == old(selectedPiece) && dragging == old(dragging) && myColor == old(myColor)
      ensures myColor == old(turn) || polled.None? ==> unchanged(this)
      ensures myColor != old(turn) && polled.Some? ==>
        && board == Moved(engine, old(board), PosTupleToInt(polled.value.fromPos), PosTupleToInt(polled.value.toPos))
        && turn == SideToMove(engine.boardInfo(board))
        && status == StatusAfter(old(status), engine.isOver(board))
        && outbox == old(outbox) + [AckMsg(Ack(turn != old(turn), None))]
      ensures old(SelectionOnMyTurn()) ==> SelectionOnMyTurn()
    {
      if myColor != turn {
        if polled.None? {
          return;
        }
        var m := polled.value;
        var turnBefore := turn;
        MoveOpp(m.fromPos, m.toPos);
        UpdateBoard();
        StatusAfterIdempotent(old(status), engine.isOver(board));
        if turnBefore == turn {
          outbox := outbox + [AckMsg(Ack(false, None))];
        } else {
          outbox := outbox + [AckMsg(Ack(true, None))];
        }
      }
    }

    /**
      mouse_button_down_event on board index `idx`: select a piece of this
      peer on its turn, or move the selection to a legal destination, or drop
      the selection; `onReset` is a click that also falls on the reset button.
     */
    method MouseButtonDown(left: bool, idx: nat, onReset: bool, ack: Ack)
      requires Valid()
      modifies this
      ensures Valid() && myColor == old(myColor)
      ensures !left ==> unchanged(this)
      ensures left ==> dragging == (old(dragging) || old(Picks(idx)))
      ensures left ==>
        outbox == old(outbox) + if idx < 64 && !old(Picks(idx)) && old(Targets(idx))
                                then [MoveMsg(MoveOf(old(selectedPiece.value), idx))] else []
      ensures left && !onReset ==>
        selectedPiece == if idx >= 64 then old(selectedPiece) else if old(Picks(idx)) then Some(idx) else None
      ensures left && !onReset ==>
        var played := idx < 64 && !old(Picks(idx)) && old(Targets(idx)) && ack.ok;
        && board == (if played then Moved(engine, old(board), old(selectedPiece.value), idx) else old(board))
        && turn == (if played then SideToMove(engine.boardInfo(board)) else old(turn))
        && status == (if played then StatusAfter(old(status), engine.isOver(board)) else old(status))
      ensures left && onReset ==>
        && board == engine.initial && selectedPiece == None
        && turn == SideToMove(engine.boardInfo(engine.initial))
        && status == StatusAfter(Active, engine.isOver(engine.initial))
      ensures old(SelectionOnMyTurn()) ==> SelectionOnMyTurn()
      ensures old(SelectionOnMyTurn()) && outbox != old(outbox) ==> old(turn) == myColor
    {
      if !left {
        return;
      }
      if idx < |boardStr| {
        var piece := boardStr[idx];
        var color := GetPieceColor(piece);
        if color == turn && color == myColor {
          selectedPiece := Some(idx);
          dragging := true;
        } else if selectedPiece.Some? && idx in validMoves[selectedPiece.value] {
          MoveMyself(idx, ack);
          selectedPiece := None;
        } else {
          selectedPiece := None;
        }
      }
      if onReset {
        board := engine.initial;
        selectedPiece := None;
        status := Active;
        UpdateBoard();
      }
    }

    /**
      mouse_button_up_event on board index `idx`: a drop on a legal
      destination of the selection plays it; dragging always ends.
     */
    method MouseButtonUp(left: bool, idx: nat, ack: Ack)
      requires Valid()
      modifies this
      ensures Valid() && myColor == old(myColor)
      ensures !left ==> unchanged(this)
      ensures left ==> !dragging
      ensures left ==> selectedPiece == if old(Targets(idx)) then None else old(selectedPiece)
      ensures left ==>
        outbox == old(outbox) + if old(Targets(idx)) then [MoveMsg(MoveOf(old(selectedPiece.value), idx))] else []
      ensures left ==>
        var played := old(Targets(idx)) && ack.ok;
        && board == (if played then Moved(engine, old(board), old(selectedPiece.value), idx) else old(board))
        && turn == (if played then SideToMove(engine.boardInfo(board)) else old(turn))
        && status == (if played then StatusAfter(old(status), engine.isOver(board)) else old(status))
      ensures old(SelectionOnMyTurn()) ==> SelectionOnMyTurn()
      ensures old(SelectionOnMyTurn()) && outbox != old(outbox) ==> old(turn) == myColor
    {
      if !left {
        return;
      }
      if selectedPiece.Some? && idx in validMoves[selectedPiece.value] {
        MoveMyself(idx, ack);
        selectedPiece := None;
      }
      dragging := false;
    }
  }

  /**
    One turn between two peers that share an engine and start from the same
    board: the mover, whose turn it is, drops its selected piece on `idx`; the
    receiver's update takes the Move the mover sent; the receiver's Ack is what
    the mover's blocking receive returns. An accepted move leaves both peers
    with the same board and the same side to move, and that side is no longer
    the mover's. After a rejected one the mover keeps its board, turn and
    status, while the receiver has still played the move, so the two boards
    agree only if those make_move calls left the board as it was.
   */
  method PlayTurn<B(!new)>(mover: Chess<B>, receiver: Chess<B>, idx: nat) returns (ack: Ack)
    requires mover != receiver && mover.Valid() && receiver.Valid()
    requires mover.engine == receiver.engine && mover.board == receiver.board
    requires mover.turn == mover.myColor && receiver.turn == mover.turn
    requires receiver.myColor != mover.myColor
    requires mover.Targets(idx)
    modifies mover, receiver
    ensures mover.Valid() && receiver.Valid()
    ensures mover.outbox == old(mover.outbox) + [MoveMsg(MoveOf(old(mover.selectedPiece.value), idx))]
    ensures receiver.outbox == old(receiver.outbox) + [AckMsg(ack)]
    ensures receiver.board == Moved(receiver.engine, old(receiver.board), old(mover.selectedPiece.value), idx)
    ensures receiver.turn == SideToMove(receiver.engine.boardInfo(receiver.board))
    ensures receiver.status == StatusAfter(old(receiver.status), receiver.engine.isOver(receiver.board))
    ensures ack.endState == None
    ensures ack.ok <==> receiver.turn != old(receiver.turn)
    ensures ack.ok ==> mover.board == receiver.board
    ensures ack.ok ==> mover.turn == receiver.turn
    ensures ack.ok ==> mover.status == StatusAfter(old(mover.status), mover.engine.isOver(mover.board))
    ensures ack.ok ==> mover.turn != mover.myColor
    ensures !ack.ok ==> mover.board == old(mover.board) && mover.turn == old(mover.turn)
    ensures !ack.ok ==> mover.status == old(mover.status)
    ensures mover.selectedPiece == None && !mover.dragging
    ensures mover.myColor == old(mover.myColor) && receiver.myColor == old(receiver.myColor)
    ensures receiver.selectedPiece == old(receiver.selectedPiece) && receiver.dragging == old(receiver.dragging)
    ensures ack.ok ==> receiver.turn == receiver.myColor
  {
    var from := mover.selectedPiece.value;
    var mv := MoveOf(from, idx);
    receiver.Update(Some(mv));
    ack := receiver.outbox[|receiver.outbox| - 1].ack;
    mover.MouseButtonUp(true, idx, ack);
  }
}
