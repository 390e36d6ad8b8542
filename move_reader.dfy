/** The analyzer's move reader: a move string is parsed into a piece
    letter, an optional origin file, a destination and an optional
    promotion; the pieces of the side to move that fit are looked up in
    row-major order, and the first one is selected and moved through the
    board's own operations. */
module MoveReader {
  import opened ChessTypes
  import opened Text
  import opened PieceMoves
  import opened Legality
  import opened GameState
  import opened GameStateProps
  import opened SelectionProps
  import opened Serialize
  import opened Notation
  import opened ChessRules

  // ------------------------------------------------------------------
  // Parsing

  /** The promotion named after '=': q, r, b or n in either case; anything
      else (including a longer suffix) is a queen. */
  function PromotionOf(suffix: string): (p: Promotion)
    ensures |suffix| != 1 ==> p == ToQueen
    ensures |suffix| == 1 ==>
      && (p == ToRook <==> suffix[0] in "rR")
      && (p == ToBishop <==> suffix[0] in "bB")
      && (p == ToKnight <==> suffix[0] in "nN")
      && (p == ToQueen <==> suffix[0] !in "rRbBnN")
  {
    if |suffix| == 1 then
      match Lower(suffix[0])
      case 'q' => ToQueen
      case 'r' => ToRook
      case 'b' => ToBishop
      case 'n' => ToKnight
      case _ => ToQueen
    else ToQueen
  }

  /** What a move string comes to. `CastleText` stands for "O-O" and
      "O-O-O", which the reader hands to board methods that do not exist, so
      the attempt fails; `Malformed` stands for a string the parser cannot
      read; otherwise the piece letter (none for a pawn), the origin file of
      a pawn, the destination and the promotion. */
  datatype MoveText =
    | CastleText
    | Malformed
    | Parsed(symbol: Option<char>, startCol: Option<int>, dest: Square, promotion: Option<Promotion>)

  predicate IsLowerLetter(ch: char)
  {
    'a' <= ch <= 'z'
  }

  /** Parse a move string: the castling strings are recognised first; a
      single '=' splits off the promotion; the last two characters give the
      destination file (from 'a') and rank (row 8 minus the digit); a first
      character that is not a lower-case letter is the piece letter; a pawn
      move longer than two characters names its origin file first. A second
      '=', fewer than two characters or a last character that is not a digit
      make the string unreadable. */
  function ParseMove(move: string): (r: MoveText)
    ensures r == CastleText <==> move == "O-O" || move == "O-O-O"
    ensures r.Parsed? ==> (r.promotion.Some? <==> '=' in move)
    ensures r.Parsed? ==> -1 <= r.dest.row <= 8
    ensures r.Parsed? && r.symbol.Some? ==> r.startCol.None?
  {
    if move == "O-O" || move == "O-O-O" then CastleText
    else
      var eq := FirstIndex(move, '=');
      if eq < |move| && '=' in move[eq + 1..] then Malformed
      else
        var body := move[..eq];
        var promotion := if eq < |move| then Some(PromotionOf(move[eq + 1..])) else None;
        if |body| < 2 || !('0' <= body[|body| - 1] <= '9') then Malformed
        else
          var destCol := body[|body| - 2] as int - 'a' as int;
          var destRow := 8 - (body[|body| - 1] as int - '0' as int);
          var symbol := if IsLowerLetter(body[0]) then None else Some(body[0]);
          var startCol := if |body| > 2 && symbol.None? then Some(body[0] as int - 'a' as int) else None;
          Parsed(symbol, startCol, Square(destRow, destCol), promotion)
  }

  /** The piece a letter asks for: none means a pawn. */
  predicate KindMatches(symbol: Option<char>, k: Kind)
  {
    match symbol
    case None => k == Pawn
    case Some(ch) =>
      || (ch == 'N' && k == Knight) || (ch == 'B' && k == Bishop) || (ch == 'R' && k == Rook)
      || (ch == 'Q' && k == Queen) || (ch == 'K' && k == King)
  }

  /** A move body (no '=' in it, ending in a square) followed by nothing or
      by "=Q" parses to that square, the queen promotion when "=Q" is there,
      and the letter and origin file the body's first character gives. */
  lemma ParseSuffixed(body: string, promo: bool, dest: Square)
    requires InBounds(dest) && |body| >= 2 && body[|body| - 2..] == SquareText(dest)
    requires forall k :: 0 <= k < |body| ==> body[k] != '='
    ensures var r := ParseMove(body + (if promo then "=Q" else ""));
      && r.Parsed? && r.dest == dest && r.promotion == (if promo then Some(ToQueen) else None)
      && r.symbol == (if IsLowerLetter(body[0]) then None else Some(body[0]))
      && r.startCol == (if |body| > 2 && IsLowerLetter(body[0]) then Some(body[0] as int - 'a' as int) else None)
  {
    var n := body + (if promo then "=Q" else "");
    if promo {
      assert n[|body|] == '=';
      FirstIndexAt(n, '=', |body|);
      assert n[..|body|] == body && n[|body| + 1..] == "Q";
    } else {
      assert n[|n| - 1] == RankChar(dest.row);
      FirstIndexAbsent(n, '=');
      assert n[..|n|] == body;
    }
  }

  /** Reading back what the bot tester writes: castling comes back as the
      castling string; every other move comes back with its destination, a
      letter that asks for the moving piece's kind, the origin file for a
      pawn capture only, and a queen promotion exactly when a pawn reaches
      the last row. A piece's origin square is written but not read back. */
  lemma ParseNotation(g: Grid, pl: Placed, move: Square)
    requires ValidGrid(g) && InBounds(pl.sq) && InBounds(move)
    ensures var r := ParseMove(AlgebraicNotation(g, pl, move));
      if IsCastle(pl, move) then r == CastleText
      else
        && r.Parsed? && r.dest == move && KindMatches(r.symbol, pl.piece.kind)
        && r.startCol == (if pl.piece.kind == Pawn && g[Idx(move)].Some? then Some(pl.sq.col) else None)
        && r.promotion == (if IsPromotion(pl, move) then Some(ToQueen) else None)
  {
    if IsCastle(pl, move) {
    } else if pl.piece.kind != Pawn {
      ParsePieceNotation(g, pl, move);
    } else if g[Idx(move)].None? {
      ParsePawnQuietNotation(g, pl, move);
    } else {
      ParsePawnCaptureNotation(g, pl, move);
    }
  }

  lemma ParsePieceNotation(g: Grid, pl: Placed, move: Square)
    requires ValidGrid(g) && InBounds(pl.sq) && InBounds(move)
    requires pl.piece.kind != Pawn && !IsCastle(pl, move)
    ensures var r := ParseMove(AlgebraicNotation(g, pl, move));
      && r.Parsed? && r.dest == move && KindMatches(r.symbol, pl.piece.kind)
      && r.startCol.None? && r.promotion.None?
  {
    PieceNotation(g, pl, move);
    var capture := if g[Idx(move)].Some? then "x" else "";
    var body := PieceSymbol(pl.piece.kind) + SquareText(pl.sq) + capture + SquareText(move);
    assert body[|body| - 2..] == SquareText(move);
    assert body[0] == PieceSymbol(pl.piece.kind)[0];
    ParseSuffixed(body, false, move);
    assert body + "" == body;
  }

  lemma ParsePawnQuietNotation(g: Grid, pl: Placed, move: Square)
    requires ValidGrid(g) && InBounds(pl.sq) && InBounds(move)
    requires pl.piece.kind == Pawn && g[Idx(move)].None?
    ensures var r := ParseMove(AlgebraicNotation(g, pl, move));
      && r.Parsed? && r.dest == move && r.symbol.None? && r.startCol.None?
      && r.promotion == (if IsPromotion(pl, move) then Some(ToQueen) else None)
  {
    PawnQuietNotation(g, pl, move);
    ParseSuffixed(SquareText(move), IsPromotion(pl, move), move);
  }

  lemma ParsePawnCaptureNotation(g: Grid, pl: Placed, move: Square)
    requires ValidGrid(g) && InBounds(pl.sq) && InBounds(move)
    requires pl.piece.kind == Pawn && g[Idx(move)].Some?
    ensures var r := ParseMove(AlgebraicNotation(g, pl, move));
      && r.Parsed? && r.dest == move && r.symbol.None? && r.startCol == Some(pl.sq.col)
      && r.promotion == (if IsPromotion(pl, move) then Some(ToQueen) else None)
  {
    PawnCaptureNotation(g, pl, move);
    var body := [FileChar(pl.sq.col), 'x'] + SquareText(move);
    assert body[|body| - 2..] == SquareText(move);
    ParseSuffixed(body, IsPromotion(pl, move), move);
  }

  // ------------------------------------------------------------------
  // Looking up the piece

  /** What the reader looks for: the piece letter, the side to move, the
      optional origin file and the destination. The origin row is never
      given. */
  datatype Query = Query(symbol: Option<char>, color: Color, startCol: Option<int>, dest: Square)

  /** Cell i holds a piece of the asked colour and kind, on the asked file
      if one is given, whose legal moves (without en-passant target or
      castling rights) include the destination. */
  predicate Candidate(g: Grid, q: Query, i: nat)
    requires ValidGrid(g) && i < 64
  {
    && g[i].Some? && g[i].value.color == q.color && KindMatches(q.symbol, g[i].value.kind)
    && (q.startCol.None? || SquareOf(i).col == q.startCol.value)
    && q.dest in LegalMoves(g, Placed(g[i].value, SquareOf(i)), None, None)
  }

  /** Cell i as a found piece, if it is a candidate. */
  function CandidateAt(g: Grid, q: Query, i: nat): (r: seq<Placed>)
    requires ValidGrid(g) && i < 64
    ensures |r| <= 1 && forall k :: 0 <= k < |r| ==> InBounds(r[k].sq) && Idx(r[k].sq) == i
  {
    if Candidate(g, q, i) then [Placed(g[i].value, SquareOf(i))] else []
  }

  /** The candidates among cells 0..n-1, found in row-major order: each
      stands on the board below cell n, and their cells strictly increase. */
  function Candidates(g: Grid, q: Query, n: nat): (r: seq<Placed>)
    requires ValidGrid(g) && n <= 64
    ensures forall k :: 0 <= k < |r| ==> InBounds(r[k].sq) && Idx(r[k].sq) < n
    ensures forall a, b :: 0 <= a < b < |r| ==> Idx(r[a].sq) < Idx(r[b].sq)
  {
    if n == 0 then [] else Candidates(g, q, n - 1) + CandidateAt(g, q, n - 1)
  }

  /** A piece is found exactly when it stands on its square, has the side
      and kind asked for, sits on the asked file if one is given, and may
      legally move to the destination. */
  lemma {:induction false} CandidatesIff(g: Grid, q: Query, n: nat, pl: Placed)
    requires ValidGrid(g) && n <= 64
    ensures pl in Candidates(g, q, n) <==>
      && InBounds(pl.sq) && Idx(pl.sq) < n && g[Idx(pl.sq)] == Some(pl.piece)
      && pl.piece.color == q.color && KindMatches(q.symbol, pl.piece.kind)
      && (q.startCol.None? || pl.sq.col == q.startCol.value)
      && q.dest in LegalMoves(g, pl, None, None)
  {
    if n > 0 {
      CandidatesIff(g, q, n - 1, pl);
      CandidateAtIff(g, q, n - 1, pl);
      assert pl in Candidates(g, q, n) <==> pl in Candidates(g, q, n - 1) || pl in CandidateAt(g, q, n - 1);
    }
  }

  lemma CandidateAtIff(g: Grid, q: Query, i: nat, pl: Placed)
    requires ValidGrid(g) && i < 64
    ensures pl in CandidateAt(g, q, i) <==>
      && InBounds(pl.sq) && Idx(pl.sq) == i && g[i] == Some(pl.piece)
      && pl.piece.color == q.color && KindMatches(q.symbol, pl.piece.kind)
      && (q.startCol.None? || pl.sq.col == q.startCol.value)
      && q.dest in LegalMoves(g, pl, None, None)
  {
    if InBounds(pl.sq) && Idx(pl.sq) == i {
      SquareOfIdx(pl.sq);
    }
  }

  /** The destination of a found piece lies on the board. */
  lemma FoundDestInBounds(g: Grid, q: Query, pl: Placed)
    requires ValidGrid(g) && pl in Candidates(g, q, 64)
    ensures InBounds(pl.sq) && InBounds(q.dest)
  {
    CandidatesIff(g, q, 64, pl);
    LegalMovesInBounds(g, pl, None, None);
  }

  /** The lookup never offers a castling move: a king found for a
      destination is at most one step away from it. */
  lemma FoundKingSteps(g: Grid, q: Query, pl: Placed)
    requires ValidGrid(g) && pl in Candidates(g, q, 64) && pl.piece.kind == King
    ensures Abs(q.dest.col - pl.sq.col) <= 1 && Abs(q.dest.row - pl.sq.row) <= 1
  {
    CandidatesIff(g, q, 64, pl);
    LegalMovesIff(g, pl, None, None, q.dest);
    KingMovesShape(g, pl.sq, pl.piece, None, q.dest);
  }

  /** The lookup never offers an en-passant capture: a pawn found for a
      destination on another file finds an enemy piece standing there. */
  lemma FoundPawnCaptures(g: Grid, q: Query, pl: Placed)
    requires ValidGrid(g) && pl in Candidates(g, q, 64) && pl.piece.kind == Pawn
    requires q.dest.col != pl.sq.col
    ensures InBounds(q.dest) && EnemyAt(g, q.dest, pl.piece.color)
  {
    CandidatesIff(g, q, 64, pl);
    LegalMovesIff(g, pl, None, None, q.dest);
    assert q.dest in PawnMoves(g, pl.sq, pl.piece.color, None);
    PawnMovesIff(g, pl.sq, pl.piece.color, None, q.dest);
  }

  // ------------------------------------------------------------------
  // Applying a move

  /** Click the chosen piece; unless that raises, promote it directly when
      a promotion is given for a pawn reaching the last row, or else hand
      the destination to the move executor, which succeeds when the move
      is made. `clearPromoted` clears the selection after the direct
      promotion; the analyzer as written does not. */
  function PlaySpec(s: State, pl: Placed, dest: Square, promotion: Option<Promotion>,
                    fallback: Promotion, clearPromoted: bool): (State, bool)
    requires Coherent(s) && InBounds(pl.sq) && InBounds(dest)
  {
    SelectCoherent(s, pl.sq, fallback);
    var (s1, raised) := SelectSpec(s, pl.sq, fallback);
    if raised then (s1, false)
    else if promotion.Some? && pl.piece.kind == Pawn && (dest.row == 0 || dest.row == ROWS - 1) then
      var s2 := PromoteSpec(s1, pl, dest, promotion.value);
      (if clearPromoted then s2.(selected := None, validMoves := []) else s2, true)
    else
      var (s2, outcome) := MoveSpec(s1, dest, fallback);
      (s2, outcome == Moved)
  }

  function ApplyWith(s: State, move: string, fallback: Promotion, clearPromoted: bool): (State, bool)
    requires Coherent(s)
  {
    match ParseMove(move)
    case CastleText => (s, false)
    case Malformed => (s, false)
    case Parsed(symbol, startCol, dest, promotion) =>
      var found := Candidates(s.grid, Query(symbol, s.turn, startCol, dest), 64);
      if found == [] then (s, false)
      else
        FoundDestInBounds(s.grid, Query(symbol, s.turn, startCol, dest), found[0]);
        PlaySpec(s, found[0], dest, promotion, fallback, clearPromoted)
  }

  /** Apply a move string to the game state, as the analyzer does: castling
      strings, unreadable strings and strings no piece fits fail and change
      nothing; otherwise the first fitting piece in row-major order is
      played. `fallback` is the promotion the move executor picks for a
      pawn that reaches the last row without one. */
  function ApplyMoveSpec(s: State, move: string, fallback: Promotion): (State, bool)
    requires Coherent(s)
  {
    ApplyWith(s, move, fallback, false)
  }

  /** The same, with the selection cleared after a direct promotion. */
  function ApplyMoveCorrected(s: State, move: string, fallback: Promotion): (State, bool)
    requires Coherent(s)
  {
    ApplyWith(s, move, fallback, true)
  }

  /** The castling strings always fail and leave the game as it was. */
  lemma CastleTextFails(s: State, move: string, fallback: Promotion)
    requires Coherent(s) && (move == "O-O" || move == "O-O-O")
    ensures ApplyMoveSpec(s, move, fallback) == (s, false)
  {
  }

  /** A string that matches no piece of the side to move fails and leaves
      the game as it was. */
  lemma UnmatchedFails(s: State, move: string, fallback: Promotion)
    requires Coherent(s) && ParseMove(move).Parsed?
    requires var r := ParseMove(move);
      forall pl: Placed :: !(InBounds(pl.sq) && s.grid[Idx(pl.sq)] == Some(pl.piece) && pl.piece.color == s.turn
                     && KindMatches(r.symbol, pl.piece.kind) && (r.startCol.None? || pl.sq.col == r.startCol.value)
                     && r.dest in LegalMoves(s.grid, pl, None, None))
    ensures ApplyMoveSpec(s, move, fallback) == (s, false)
  {
    var r := ParseMove(move);
    var q := Query(r.symbol, s.turn, r.startCol, r.dest);
    var found := Candidates(s.grid, q, 64);
    if found != [] {
      CandidatesIff(s.grid, q, 64, found[0]);
      assert false;
    }
  }

  /** Playing a piece keeps the board's invariant. */
  lemma PlayCoherent(s: State, pl: Placed, dest: Square, promotion: Option<Promotion>,
                     fallback: Promotion, clearPromoted: bool)
    requires Coherent(s) && InBounds(pl.sq) && InBounds(dest)
    ensures Coherent(PlaySpec(s, pl, dest, promotion, fallback, clearPromoted).0)
  {
    SelectCoherent(s, pl.sq, fallback);
    var (s1, raised) := SelectSpec(s, pl.sq, fallback);
    if !raised {
      if promotion.Some? && pl.piece.kind == Pawn && (dest.row == 0 || dest.row == ROWS - 1) {
        PromoteProps(s1, pl, dest, promotion.value);
      } else {
        MoveCoherent(s1, dest, fallback);
      }
    }
  }

  /** Every applied string keeps the board's invariant. */
  lemma ApplyCoherent(s: State, move: string, fallback: Promotion, clearPromoted: bool)
    requires Coherent(s)
    ensures Coherent(ApplyWith(s, move, fallback, clearPromoted).0)
  {
    var r := ParseMove(move);
    if r.Parsed? {
      var q := Query(r.symbol, s.turn, r.startCol, r.dest);
      var found := Candidates(s.grid, q, 64);
      if found != [] {
        FoundDestInBounds(s.grid, q, found[0]);
        assert ApplyWith(s, move, fallback, clearPromoted)
            == PlaySpec(s, found[0], r.dest, r.promotion, fallback, clearPromoted);
        PlayCoherent(s, found[0], r.dest, r.promotion, fallback, clearPromoted);
      }
    }
  }

  /** The direct promotion path: a promotion is given and the first
      fitting piece is a pawn reaching the last row. */
  predicate PromotesDirectly(s: State, move: string)
    requires Coherent(s)
  {
    var r := ParseMove(move);
    && r.Parsed? && r.promotion.Some? && (r.dest.row == 0 || r.dest.row == ROWS - 1)
    && var found := Candidates(s.grid, Query(r.symbol, s.turn, r.startCol, r.dest), 64);
    found != [] && found[0].piece.kind == Pawn
  }

  /** With nothing selected beforehand, a string that goes through passes
      the turn. The move executor leaves nothing selected, but the direct
      promotion leaves the promoted pawn selected although its square is
      now empty, together with the destinations it was offered. */
  lemma StaleSelection(s: State, move: string, fallback: Promotion)
    requires Coherent(s) && s.selected.None?
    ensures var (s', ok) := ApplyMoveSpec(s, move, fallback);
      ok ==>
        && s'.turn == Opponent(s.turn)
        && (s'.selected.Some? <==> PromotesDirectly(s, move))
        && (s'.selected.Some? ==>
              s'.selected.value.piece.kind == Pawn && At(s'.grid, s'.selected.value.sq).None?)
  {
    PlayPasses(s, move, fallback, false);
  }

  /** Corrected: with nothing selected beforehand, a string that goes
      through passes the turn and leaves nothing selected. */
  lemma CorrectedClearsSelection(s: State, move: string, fallback: Promotion)
    requires Coherent(s) && s.selected.None?
    ensures var (s', ok) := ApplyMoveCorrected(s, move, fallback);
      ok ==> s'.turn == Opponent(s.turn) && s'.selected.None? && s'.validMoves == []
  {
    PlayPasses(s, move, fallback, true);
  }

  lemma PlayPasses(s: State, move: string, fallback: Promotion, clearPromoted: bool)
    requires Coherent(s) && s.selected.None?
    ensures var (s', ok) := ApplyWith(s, move, fallback, clearPromoted);
      ok ==>
        && s'.turn == Opponent(s.turn)
        && (s'.selected.Some? <==> !clearPromoted && PromotesDirectly(s, move))
        && (s'.selected.Some? ==>
              s'.selected.value.piece.kind == Pawn && At(s'.grid, s'.selected.value.sq).None?)
        && (clearPromoted ==> s'.validMoves == [])
  {
    var r := ParseMove(move);
    if r.Parsed? {
      var q := Query(r.symbol, s.turn, r.startCol, r.dest);
      var found := Candidates(s.grid, q, 64);
      if found != [] {
        FoundDestInBounds(s.grid, q, found[0]);
        CandidatesIff(s.grid, q, 64, found[0]);
        assert ApplyWith(s, move, fallback, clearPromoted)
            == PlaySpec(s, found[0], r.dest, r.promotion, fallback, clearPromoted);
        PlayOwnPasses(s, found[0], r.dest, r.promotion, fallback, clearPromoted);
      } else {
        assert !ApplyWith(s, move, fallback, clearPromoted).1;
      }
    } else {
      assert !ApplyWith(s, move, fallback, clearPromoted).1;
    }
  }

  lemma PlayOwnPasses(s: State, pl: Placed, dest: Square, promotion: Option<Promotion>,
                      fallback: Promotion, clearPromoted: bool)
    requires Coherent(s) && s.selected.None? && InBounds(pl.sq) && InBounds(dest)
    requires s.grid[Idx(pl.sq)] == Some(pl.piece) && pl.piece.color == s.turn
    ensures var (s', ok) := PlaySpec(s, pl, dest, promotion, fallback, clearPromoted);
      var direct := promotion.Some? && pl.piece.kind == Pawn && (dest.row == 0 || dest.row == ROWS - 1);
      ok ==>
        && s'.turn == Opponent(s.turn)
        && (s'.selected.Some? <==> !clearPromoted && direct)
        && (s'.selected.Some? ==>
              s'.selected.value.piece.kind == Pawn && At(s'.grid, s'.selected.value.sq).None?)
        && (clearPromoted ==> s'.validMoves == [])
  {
    PickSelects(s, pl.sq);
    PickCoherent(s, pl.sq);
    var s1 := Pick(s, pl.sq);
    assert SelectSpec(s, pl.sq, fallback) == (s1, false);
    assert s1.selected == Some(pl);
    if promotion.Some? && pl.piece.kind == Pawn && (dest.row == 0 || dest.row == ROWS - 1) {
      PromoteProps(s1, pl, dest, promotion.value);
    } else {
      MoveWentThrough(s1, dest, fallback);
    }
  }

  // ------------------------------------------------------------------
  // The methods

  /** Look up, in row-major order, the pieces that fit the query. Each
      piece's legal moves are computed on the board itself, which the
      legality test restores. */
  method FindPieces(b: Board, q: Query) returns (pieces: seq<Placed>)
    requires b.board.Length == 64
    modifies b.board
    ensures b.board[..] == old(b.board[..])
    ensures pieces == Candidates(old(b.board[..]), q, 64)
  {
    pieces := [];
    for row := 0 to ROWS
      invariant b.board[..] == old(b.board[..])
      invariant pieces == Candidates(b.board[..], q, 8 * row)
    {
      pieces := FindInRow(b, q, row, pieces);
    }
  }

  method FindInRow(b: Board, q: Query, row: nat, found: seq<Placed>) returns (pieces: seq<Placed>)
    requires b.board.Length == 64 && row < 8 && found == Candidates(b.board[..], q, 8 * row)
    modifies b.board
    ensures b.board[..] == old(b.board[..])
    ensures pieces == Candidates(b.board[..], q, 8 * row + 8)
  {
    ghost var g := b.board[..];
    pieces := found;
    for col := 0 to COLS
      invariant b.board[..] == g
      invariant pieces == Candidates(g, q, 8 * row + col)
    {
      var cell := CellCandidate(b, q, row, col);
      pieces := pieces + cell;
      assert pieces == Candidates(g, q, 8 * row + (col + 1));
    }
  }

  /** The piece on (row, col), as a one-element list when it fits the
      query, otherwise the empty list. */
  method CellCandidate(b: Board, q: Query, row: nat, col: nat) returns (cell: seq<Placed>)
    requires b.board.Length == 64 && row < 8 && col < 8
    modifies b.board
    ensures b.board[..] == old(b.board[..])
    ensures cell == CandidateAt(b.board[..], q, 8 * row + col)
  {
    SquareOfIdx(Square(row, col));
    var piece := b.board[8 * row + col];
    cell := [];
    if piece.Some? && piece.value.color == q.color && KindMatches(q.symbol, piece.value.kind)
       && (q.startCol.None? || col == q.startCol.value) {
      var moves := b.GetValidMoves(Placed(piece.value, Square(row, col)), None, None);
      if q.dest in moves {
        cell := [Placed(piece.value, Square(row, col))];
      }
    }
  }

  /** Apply a move string to the board, as the analyzer does. */
  method ApplyMove(b: Board, move: string, fallback: Promotion) returns (ok: bool)
    requires b.Valid()
    modifies b, b.board
    ensures b.Valid() && (b.Model(), ok) == ApplyMoveSpec(old(b.Model()), move, fallback)
  {
    var parsed := ParseMove(move);
    if !parsed.Parsed? {
      return false;
    }
    var q := Query(parsed.symbol, b.turn, parsed.startCol, parsed.dest);
    var pieces := FindPieces(b, q);
    if pieces == [] {
      return false;
    }
    FoundDestInBounds(b.board[..], q, pieces[0]);
    ok := Play(b, pieces[0], parsed.dest, parsed.promotion, fallback);
  }

  /** Click the chosen piece, then promote it directly or hand the
      destination to the move executor. */
  method Play(b: Board, pl: Placed, dest: Square, promotion: Option<Promotion>, fallback: Promotion)
    returns (ok: bool)
    requires b.Valid() && InBounds(pl.sq) && InBounds(dest)
    modifies b, b.board
    ensures b.Valid() && (b.Model(), ok) == PlaySpec(old(b.Model()), pl, dest, promotion, fallback, false)
  {
    var raised := b.SelectPiece(pl.sq, fallback);
    if raised {
      return false;
    }
    if promotion.Some? && pl.piece.kind == Pawn && (dest.row == 0 || dest.row == ROWS - 1) {
      b.PromotePawn(pl, dest, promotion.value);
      ok := true;
    } else {
      var outcome := b.MovePiece(dest, fallback);
      ok := outcome == Moved;
    }
  }
}
