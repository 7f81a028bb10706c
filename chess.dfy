/**
  Board helpers of src/chess.rs: the square transcoder between linear indices
  (0 is a8, 63 is h1) and algebraic text, piece colours, the row flip of the
  engine's board string, the table of legal destinations, and move_piece.
 */
module Chess {
  import opened Rules

  /** A piece colour; `NoColor` is what the source calls `Color::None` (not a piece). */
  datatype Color = White | Black | NoColor

  datatype Status = Active | Checkmate | Stalemate | FiftyMoveRule | ThreefoldRepetition

  // ---------------------------------------------------------------------
  // Square names
  // ---------------------------------------------------------------------

  /** `to_lowercase` on the ASCII characters a square name is made of. */
  function Lower(c: char): char
  {
    if 'A' <= c <= 'Z' then (c as int + 32) as char else c
  }

  /**
    The inputs str_to_idx handles without a subtraction underflow: at least two
    characters, an ASCII first character that lowercases to 'a' or above, and a
    rank digit. A file letter past 'h' is accepted, as in the source.
   */
  predicate Parsable(s: string)
  {
    |s| >= 2 && (s[0] as int) < 128 && 'a' <= Lower(s[0]) && '1' <= s[1] <= '8'
  }

  /** A square name: file 'a'..'h' in either case, then rank '1'..'8'. */
  predicate IsSquare(s: string)
  {
    Parsable(s) && Lower(s[0]) <= 'h'
  }

  /** str_to_idx: the linear index of the square named by the first two characters. */
  function StrToIdx(s: string): (idx: nat)
    requires Parsable(s)
    ensures IsSquare(s) ==> idx < 64 && IdxToStr(idx) == [Lower(s[0]), s[1]]
  {
    var x := Lower(s[0]) as int - 'a' as int;
    var y := s[1] as int - '1' as int;
    (7 - y) * 8 + x
  }

  /** idx_to_str: the algebraic name of a linear index. */
  function IdxToStr(idx: nat): (s: string)
    requires idx < 64
    ensures |s| == 2 && 'a' <= s[0] <= 'h' && '1' <= s[1] <= '8'
  {
    var x := idx % 8;
    var y := 7 - idx / 8;
    [(x + 'a' as int) as char, (y + '1' as int) as char]
  }

  lemma IdxToStrRoundTrip(idx: nat)
    requires idx < 64
    ensures IsSquare(IdxToStr(idx)) && StrToIdx(IdxToStr(idx)) == idx
  {
  }

  lemma CornerSquares()
    ensures IdxToStr(0) == "a8" && IdxToStr(63) == "h1"
  {
  }

  /** Only the lowercased file letter and the rank digit matter: "E2" and "e2" agree. */
  lemma StrToIdxIgnoresCase(s: string, t: string)
    requires Parsable(s) && |t| >= 2
    requires Lower(t[0]) == Lower(s[0]) && t[1] == s[1]
    ensures Parsable(t) && StrToIdx(t) == StrToIdx(s)
  {
  }

  // ---------------------------------------------------------------------
  // Piece colours
  // ---------------------------------------------------------------------

  /** get_piece_color: lower-case piece letters are White, upper-case ones Black. */
  function GetPieceColor(piece: char): (c: Color)
    ensures c == White <==> piece in "prnbqk"
    ensures c == Black <==> piece in "PRNBQK"
  {
    match piece
    case 'p' | 'r' | 'n' | 'b' | 'q' | 'k' => White
    case 'P' | 'R' | 'N' | 'B' | 'Q' | 'K' => Black
    case _ => NoColor
  }

  // ---------------------------------------------------------------------
  // Board string
  // ---------------------------------------------------------------------

  /** Row `r` of a board string, eight characters. */
  function Row(s: string, r: nat): string
    requires |s| >= 8 * r + 8
  {
    s[8 * r .. 8 * r + 8]
  }

  /** The first 64 characters of `s` with the eight rows in reverse order. */
  function Flipped(s: string): (t: string)
    requires |s| >= 64
    ensures |t| == 64
  {
    seq(64, k requires 0 <= k < 64 => s[8 * (7 - k / 8) + k % 8])
  }

  lemma DivMod8(q: nat, c: nat)
    requires c < 8
    ensures (8 * q + c) / 8 == q && (8 * q + c) % 8 == c
  {
  }

  /** Row r of the flipped string is row 7 - r of the original, in order. */
  lemma FlippedRow(s: string, r: nat)
    requires |s| >= 64 && r < 8
    ensures Row(Flipped(s), r) == Row(s, 7 - r)
  {
    forall c | 0 <= c < 8
      ensures Row(Flipped(s), r)[c] == Row(s, 7 - r)[c]
    {
      DivMod8(r, c);
    }
  }

  /** Flipping twice gives back the 64 characters flipped. */
  lemma FlippedTwice(s: string)
    requires |s| >= 64
    ensures Flipped(Flipped(s)) == s[..64]
  {
    forall k | 0 <= k < 64
      ensures Flipped(Flipped(s))[k] == s[k]
    {
      DivMod8(7 - k / 8, k % 8);
    }
  }

  /** Appending row 7 - q to the first q flipped rows gives the first q + 1. */
  lemma FlippedPrefix(s: string, q: nat)
    requires |s| >= 64 && q < 8
    ensures Flipped(s)[..8 * q] + Row(s, 7 - q) == Flipped(s)[..8 * q + 8]
  {
    FlippedRow(s, q);
    assert Flipped(s)[..8 * q + 8] == Flipped(s)[..8 * q] + Row(Flipped(s), q);
  }

  /** invert_boardstr: the rows, last to first, by slices of eight. */
  method InvertBoardStr(boardstr: string) returns (inverted: string)
    requires |boardstr| >= 64
    ensures inverted == Flipped(boardstr)
  {
    inverted := "";
    var i := 63;
    while i >= 7
      invariant -1 <= i <= 63 && (i + 1) % 8 == 0
      invariant inverted == Flipped(boardstr)[..63 - i]
    {
      var row := boardstr[i - 7 .. i + 1];
      FlippedPrefix(boardstr, (63 - i) / 8);
      inverted := inverted + row;
      i := i - 8;
    }
  }

  // ---------------------------------------------------------------------
  // Legal destinations
  // ---------------------------------------------------------------------

  /**
    A move string the table can take: both halves parsable, and an origin
    whose index falls inside the 64 slots. Every square qualifies, and so does
    a name past 'h' such as "i8" whose index is still below 64.
   */
  predicate EngineMove(m: string)
  {
    |m| >= 4 && Parsable(m[0..2]) && StrToIdx(m[0..2]) < 64 && Parsable(m[2..4])
  }

  predicate MoveList(moves: seq<string>)
  {
    forall k :: 0 <= k < |moves| ==> EngineMove(moves[k])
  }

  function Origin(m: string): nat
    requires EngineMove(m)
  {
    StrToIdx(m[0..2])
  }

  function Target(m: string): nat
    requires EngineMove(m)
  {
    StrToIdx(m[2..4])
  }

  /** The destinations of the moves from square `sq`, in the order of `moves`. */
  function Dests(moves: seq<string>, sq: nat): seq<nat>
    requires MoveList(moves)
    decreases |moves|
  {
    if moves == [] then []
    else
      var m := moves[|moves| - 1];
      Dests(moves[..|moves| - 1], sq) + (if Origin(m) == sq then [Target(m)] else [])
  }

  /** The 64-slot table generate_valid_moves builds. */
  function MoveTable(moves: seq<string>): (table: seq<seq<nat>>)
    requires MoveList(moves)
    ensures |table| == 64
  {
    seq(64, sq requires 0 <= sq < 64 => Dests(moves, sq))
  }

  /** j is a destination of sq exactly when some move goes from sq to j. */
  lemma {:induction false} DestsMember(moves: seq<string>, sq: nat, j: nat)
    requires MoveList(moves)
    ensures j in Dests(moves, sq) <==>
      exists k :: 0 <= k < |moves| && Origin(moves[k]) == sq && Target(moves[k]) == j
  {
    if moves != [] {
      var n := |moves| - 1;
      var init := moves[..n];
      DestsMember(init, sq, j);
      if j in Dests(moves, sq) && j !in Dests(init, sq) {
        assert Origin(moves[n]) == sq && Target(moves[n]) == j;
      }
      if exists k :: 0 <= k < |moves| && Origin(moves[k]) == sq && Target(moves[k]) == j {
        var k :| 0 <= k < |moves| && Origin(moves[k]) == sq && Target(moves[k]) == j;
        if k < n {
          assert init[k] == moves[k];
        }
      }
    }
  }

  /** A square no move starts from gets an empty slot, and only such a square does. */
  lemma DestsEmpty(moves: seq<string>, sq: nat)
    requires MoveList(moves)
    ensures Dests(moves, sq) == [] <==> forall k :: 0 <= k < |moves| ==> Origin(moves[k]) != sq
  {
    if Dests(moves, sq) != [] {
      DestsMember(moves, sq, Dests(moves, sq)[0]);
    }
    if k :| 0 <= k < |moves| && Origin(moves[k]) == sq {
      DestsMember(moves, sq, Target(moves[k]));
    }
  }

  /** Slots keep the engine's order: the moves of a split list stay in sequence. */
  lemma {:induction false} DestsAppend(a: seq<string>, b: seq<string>, sq: nat)
    requires MoveList(a) && MoveList(b)
    ensures MoveList(a + b) && Dests(a + b, sq) == Dests(a, sq) + Dests(b, sq)
  {
    assert MoveList(a + b) by {
      forall k | 0 <= k < |a + b| ensures EngineMove((a + b)[k]) {
        if k >= |a| { assert (a + b)[k] == b[k - |a|]; }
      }
    }
    if b == [] {
      assert a + b == a;
    } else {
      var n := |b| - 1;
      DestsAppend(a, b[..n], sq);
      assert (a + b)[..|a + b| - 1] == a + b[..n];
      assert (a + b)[|a + b| - 1] == b[n];
    }
  }

  /** The table also takes an origin past 'h' whose index stays below 64: "i8" lands in slot 8. */
  lemma PastFileOrigin()
    ensures EngineMove("i8a1") && !IsSquare("i8") && Origin("i8a1") == 8
    ensures Dests(["i8a1"], 8) == [StrToIdx("a1")]
  {
    assert "i8a1"[0..2] == "i8" && "i8a1"[2..4] == "a1";
    assert ["i8a1"][..0] == [];
  }

  /** When every destination is a square too, every slot entry is below 64. */
  lemma DestsBounded(moves: seq<string>, sq: nat, j: nat)
    requires MoveList(moves)
    requires forall k :: 0 <= k < |moves| ==> IsSquare(moves[k][2..4])
    requires j in Dests(moves, sq)
    ensures j < 64
  {
    DestsMember(moves, sq, j);
  }

  /** generate_valid_moves: push each move's destination onto its origin's slot. */
  method GenerateValidMoves<B>(e: Engine<B>, board: B) returns (validMoves: seq<seq<nat>>)
    requires MoveList(e.filteredMoves(board))
    ensures validMoves == MoveTable(e.filteredMoves(board))
  {
    var slots := new seq<nat>[64](_ => []);
    var moves := e.filteredMoves(board);
    for n := 0 to |moves|
      invariant forall sq :: 0 <= sq < 64 ==> slots[sq] == Dests(moves[..n], sq)
    {
      var m := moves[n];
      var idx := StrToIdx(m[0..2]);
      slots[idx] := slots[idx] + [StrToIdx(m[2..4])];
      assert moves[..n + 1][..n] == moves[..n];
    }
    assert moves[..|moves|] == moves;
    validMoves := slots[..];
  }

  // ---------------------------------------------------------------------
  // move_piece
  // ---------------------------------------------------------------------

  /**
    The strings move_piece passes to make_move: origin and destination names,
    then the same with a queen promotion "Q" when the first call left
    `board.start` as it was.
   */
  function MovePieceCalls<B>(e: Engine<B>, board: B, from: nat, to: nat): seq<string>
    requires from < 64 && to < 64
  {
    var movi := IdxToStr(from) + IdxToStr(to);
    if e.start(e.makeMove(board, movi)) == e.start(board) then [movi, movi + "Q"] else [movi]
  }

  /** The board left by move_piece. */
  function Moved<B>(e: Engine<B>, board: B, from: nat, to: nat): B
    requires from < 64 && to < 64
  {
    Replay(e, board, MovePieceCalls(e, board, from, to))
  }

  /**
    At most two engine calls: first a four-character move naming `from` and
    `to`, then the promotion retry exactly when the side flag did not change.
   */
  lemma MovePieceCallsShape<B>(e: Engine<B>, board: B, from: nat, to: nat)
    requires from < 64 && to < 64
    ensures var calls := MovePieceCalls(e, board, from, to);
      && 1 <= |calls| <= 2
      && |calls[0]| == 4
      && IsSquare(calls[0][..2]) && StrToIdx(calls[0][..2]) == from
      && IsSquare(calls[0][2..]) && StrToIdx(calls[0][2..]) == to
      && (|calls| == 2 <==> e.start(e.makeMove(board, calls[0])) == e.start(board))
      && (|calls| == 2 ==> calls[1] == calls[0] + "Q")
  {
    var movi := IdxToStr(from) + IdxToStr(to);
    assert movi[..2] == IdxToStr(from) && movi[2..] == IdxToStr(to);
    IdxToStrRoundTrip(from);
    IdxToStrRoundTrip(to);
  }

  /** move_piece: try the move, and retry it as a queen promotion if the side to move stayed. */
  method MovePiece<B>(e: Engine<B>, board: B, from: nat, to: nat) returns (after: B, ghost calls: seq<string>)
    requires from < 64 && to < 64
    ensures calls == MovePieceCalls(e, board, from, to)
    ensures after == Replay(e, board, calls)
    ensures after == Moved(e, board, from, to)
  {
    var fromStr := IdxToStr(from);
    var toStr := IdxToStr(to);
    var movi := fromStr + toStr;
    var beforeTurn := e.start(board);
    after := e.makeMove(board, movi);
    calls := [movi];
    if beforeTurn == e.start(after) {
      var promoted := fromStr + toStr + "Q";
      ghost var first := after;
      after := e.makeMove(after, promoted);
      calls := calls + [promoted];
      assert Replay(e, first, [promoted]) == after by {
        assert [promoted][1..] == [];
      }
      assert calls[1..] == [promoted];
    } else {
      assert calls[1..] == [];
    }
  }
}
