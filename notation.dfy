/** The move-notation writer of the bot tester: a piece, the square it
    moves to and the board it moves on become a short algebraic string. */
module Notation {
  import opened ChessTypes

  /** The file letter of a column: 'a' for column 0 up to 'h'. */
  function FileChar(col: int): (ch: char)
    requires 0 <= col < COLS
    ensures 'a' <= ch <= 'h' && ch as int - 'a' as int == col
  {
    (col + 'a' as int) as char
  }

  /** The rank digit of a row: '8' for row 0 down to '1' for row 7. */
  function RankChar(row: int): (ch: char)
    requires 0 <= row < ROWS
    ensures '1' <= ch <= '8' && 8 - (ch as int - '0' as int) == row
  {
    (ROWS - row + '0' as int) as char
  }

  /** A square as file letter then rank digit. */
  function SquareText(s: Square): (t: string)
    requires InBounds(s)
    ensures |t| == 2 && 'x' !in t && '=' !in t
  {
    [FileChar(s.col), RankChar(s.row)]
  }

  /** The letter written before a piece move; none for a pawn. */
  function PieceSymbol(k: Kind): (sym: string)
    ensures |sym| <= 1 && (sym == "" <==> k == Pawn)
  {
    match k
    case Pawn => ""
    case Knight => "N"
    case Bishop => "B"
    case Rook => "R"
    case Queen => "Q"
    case King => "K"
  }

  /** A king moving two files. */
  predicate IsCastle(pl: Placed, move: Square)
  {
    pl.piece.kind == King && Abs(move.col - pl.sq.col) == 2
  }

  /** A pawn reaching row 0 or row 7. */
  predicate IsPromotion(pl: Placed, move: Square)
  {
    pl.piece.kind == Pawn && (move.row == 0 || move.row == ROWS - 1)
  }

  /** What a move's text holds before the destination: nothing for a pawn
      moving to an empty square, the pawn's file and 'x' for a pawn moving
      to an occupied one; for any other piece its letter, its own square and
      'x' when the destination is occupied. */
  function MovePrefix(g: Grid, pl: Placed, move: Square): (p: string)
    requires ValidGrid(g) && InBounds(pl.sq) && InBounds(move)
    ensures '=' !in p
    ensures 'x' in p <==> g[Idx(move)].Some?
  {
    var capture := if g[Idx(move)].Some? then "x" else "";
    var symbol := PieceSymbol(pl.piece.kind);
    if symbol == "" then
      if capture != "" then [FileChar(pl.sq.col), 'x'] else ""
    else
      assert symbol[0] != 'x' && symbol[0] != '=';
      symbol + SquareText(pl.sq) + capture
  }

  /** The text of a move before any promotion suffix. It ends with the
      destination, holds no '=', and holds an 'x' exactly when the
      destination is occupied. */
  function MoveBody(g: Grid, pl: Placed, move: Square): (b: string)
    requires ValidGrid(g) && InBounds(pl.sq) && InBounds(move)
    ensures |b| >= 2 && b[|b| - 2..] == SquareText(move)
    ensures '=' !in b
    ensures 'x' in b <==> g[Idx(move)].Some?
  {
    var p := MovePrefix(g, pl, move);
    var b := p + SquareText(move);
    assert b[|p|..] == SquareText(move);
    assert forall ch :: ch in b <==> ch in p || ch in SquareText(move);
    b
  }

  /** The notation of moving `pl` to `move` on grid g: castling as O-O or
      O-O-O, otherwise the move's text, followed by '=Q' when a pawn reaches
      the last row. */
  function AlgebraicNotation(g: Grid, pl: Placed, move: Square): (n: string)
    requires ValidGrid(g) && InBounds(pl.sq) && InBounds(move)
    ensures IsCastle(pl, move) ==> n == (if move.col > pl.sq.col then "O-O" else "O-O-O")
    ensures !IsCastle(pl, move) ==> |n| >= 2 && ('x' in n <==> g[Idx(move)].Some?)
    ensures !IsCastle(pl, move) && IsPromotion(pl, move) ==>
      |n| >= 4 && n[|n| - 4..|n| - 2] == SquareText(move) && n[|n| - 2..] == "=Q"
    ensures !IsCastle(pl, move) && !IsPromotion(pl, move) ==>
      n[|n| - 2..] == SquareText(move) && '=' !in n
  {
    if IsCastle(pl, move) then
      if move.col > pl.sq.col then "O-O" else "O-O-O"
    else
      var body := MoveBody(g, pl, move);
      if IsPromotion(pl, move) then
        var n := body + "=Q";
        assert n[|n| - 4..|n| - 2] == body[|body| - 2..];
        assert n[|n| - 2..] == "=Q";
        assert forall ch :: ch in n <==> ch in body || ch in "=Q";
        n
      else
        body
  }

  /** A pawn move to an empty square is written as the destination alone,
      plus '=Q' on the last row. */
  lemma PawnQuietNotation(g: Grid, pl: Placed, move: Square)
    requires ValidGrid(g) && InBounds(pl.sq) && InBounds(move)
    requires pl.piece.kind == Pawn && g[Idx(move)].None?
    ensures AlgebraicNotation(g, pl, move)
         == SquareText(move) + (if IsPromotion(pl, move) then "=Q" else "")
  {
  }

  /** A pawn move to an occupied square is written as the pawn's file, 'x'
      and the destination, plus '=Q' on the last row. An en-passant capture
      lands on an empty square and is written as a quiet move. */
  lemma PawnCaptureNotation(g: Grid, pl: Placed, move: Square)
    requires ValidGrid(g) && InBounds(pl.sq) && InBounds(move)
    requires pl.piece.kind == Pawn && g[Idx(move)].Some?
    ensures AlgebraicNotation(g, pl, move)
         == [FileChar(pl.sq.col), 'x'] + SquareText(move) + (if IsPromotion(pl, move) then "=Q" else "")
  {
  }

  /** Any other piece, unless castling, is written as its letter, its full
      square, 'x' when the destination is occupied, and the destination. */
  lemma PieceNotation(g: Grid, pl: Placed, move: Square)
    requires ValidGrid(g) && InBounds(pl.sq) && InBounds(move)
    requires pl.piece.kind != Pawn && !IsCastle(pl, move)
    ensures AlgebraicNotation(g, pl, move)
         == PieceSymbol(pl.piece.kind) + SquareText(pl.sq)
            + (if g[Idx(move)].Some? then "x" else "") + SquareText(move)
  {
  }
}
