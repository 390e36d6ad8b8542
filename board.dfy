/** The rule engine as the source runs it: a board object whose grid cells,
    selection, move list, side to move, en-passant target, check flags,
    repetition table and halfmove clock are updated in place. Every method
    is proved against the value-level specification in GameState, Legality,
    PieceMoves and Serialize. */
module ChessRules {
  import opened ChessTypes
  import opened PieceMoves
  import opened Legality
  import opened Serialize
  import opened GameState
  import opened GameStateProps
  import opened SelectionProps

  class Board {
    /** The 8x8 grid, row-major: cell 8*row+col. */
    const board: array<Option<Piece>>
    var selected: Option<Placed>
    var validMoves: seq<Square>
    var turn: Color
    var enPassantTarget: Option<Square>
    var castleRights: CastleRights
    var inCheck: map<Color, bool>
    var boardStateCounts: map<string, nat>
    var halfmoveClock: nat

    /** The object's state as a value. */
    ghost function Model(): State
      reads this, board
    {
      State(board[..], turn, enPassantTarget, castleRights, inCheck, boardStateCounts,
            halfmoveClock, selected, validMoves)
    }

    ghost predicate Valid()
      reads this, board
    {
      board.Length == 64 && Coherent(Model())
    }

    /** A new game: the starting position, White to move, all castling
        rights, nobody in check, no selection, an empty repetition table and
        a zero clock. */
    constructor()
      ensures Valid() && Model() == InitialState() && fresh(board)
    {
      var grid := Board.CreateBoard();
      board := grid;
      selected := None;
      validMoves := [];
      turn := White;
      enPassantTarget := None;
      castleRights := AllRights;
      inCheck := map[White := false, Black := false];
      boardStateCounts := map[];
      halfmoveClock := 0;
      new;
      InitialCoherent();
    }

    /** The starting grid: the pawns of both sides file by file, then the
        back ranks. */
    static method CreateBoard() returns (b: array<Option<Piece>>)
      ensures fresh(b) && b[..] == InitialGrid()
    {
      b := new Option<Piece>[64](_ => None);
      for col := 0 to COLS
        invariant forall j :: 0 <= j < 64 ==>
          b[j] == if 8 <= j < 8 + col || 48 <= j < 48 + col then InitialCell(j) else None
      {
        b[8 + col] := Some(Piece(Pawn, Black, false));
        b[48 + col] := Some(Piece(Pawn, White, false));
      }
      for col := 0 to COLS
        invariant forall j :: 0 <= j < 64 ==>
          b[j] == if col <= j < 8 || 56 + col <= j then None else InitialCell(j)
      {
        b[col] := Some(Piece(BackRank[col], Black, false));
        b[56 + col] := Some(Piece(BackRank[col], White, false));
      }
      assert forall j :: 0 <= j < 64 ==> b[j] == InitialCell(j);
    }

    // ----------------------------------------------------------------
    // Move generators (avoid_check off): they only read the grid

    /** The pawn's pushes, then its diagonal captures, then the en-passant
        target. */
    method GetPawnMoves(from: Square, c: Color, ep: Option<Square>) returns (moves: seq<Square>)
      requires board.Length == 64 && InBounds(from)
      ensures moves == PawnMoves(board[..], from, c, ep)
    {
      var direction := Forward(c);
      moves := GetPawnPushes(from, c);
      var captures := GetPawnCaptures(from, c);
      moves := moves + captures;
      if ep.Some? {
        if Abs(ep.value.col - from.col) == 1 && from.row + direction == ep.value.row {
          moves := moves + [ep.value];
        }
      }
    }

    /** The single push onto an empty square and, from the start row, the
        double push when that square is empty too. */
    method GetPawnPushes(from: Square, c: Color) returns (moves: seq<Square>)
      requires board.Length == 64 && InBounds(from)
      ensures moves == PawnPushes(board[..], from, c)
    {
      var direction := Forward(c);
      var startRow := StartRow(c);
      moves := [];
      var r := from.row + direction;
      if 0 <= r < ROWS {
        if board[8 * r + from.col].None? {
          moves := moves + [Square(r, from.col)];
          var two := Square(from.row + 2 * direction, from.col);
          if from.row == startRow && board[8 * two.row + from.col].None? {
            moves := moves + [two];
          }
        }
      }
    }

    /** The diagonal captures, file col-1 first, onto enemy pieces. */
    method GetPawnCaptures(from: Square, c: Color) returns (moves: seq<Square>)
      requires board.Length == 64 && InBounds(from)
      ensures moves == PawnCaptures(board[..], from, c, PawnCaptureCols)
    {
      ghost var g := board[..];
      moves := [];
      for i := 0 to |PawnCaptureCols|
        invariant moves == PawnCaptures(g, from, c, PawnCaptureCols[..i])
      {
        PawnCapturesSnoc(g, from, c, PawnCaptureCols, i);
        var capture := GetPawnCapture(from, c, PawnCaptureCols[i]);
        moves := moves + capture;
      }
      assert PawnCaptureCols[..|PawnCaptureCols|] == PawnCaptureCols;
    }

    /** The capture towards file col+dx, when an enemy piece stands there. */
    method GetPawnCapture(from: Square, c: Color, dx: int) returns (moves: seq<Square>)
      requires board.Length == 64 && InBounds(from)
      ensures moves == PawnCapture(board[..], from, c, dx)
    {
      var r := from.row + Forward(c);
      var col := from.col + dx;
      moves := [];
      if 0 <= col < COLS && 0 <= r < ROWS {
        var target := board[8 * r + col];
        if target.Some? && target.value.color != c {
          moves := [Square(r, col)];
        }
      }
    }

    /** One knight jump or king step per offset, kept when it lands on the
        board on an empty or enemy square. */
    method GetJumpMoves(from: Square, c: Color, steps: seq<Offset>) returns (moves: seq<Square>)
      requires board.Length == 64
      ensures moves == Jumps(board[..], from, c, steps)
    {
      moves := [];
      for i := 0 to |steps|
        invariant moves == Jumps(board[..], from, c, steps[..i])
      {
        var jump := GetJump(from, c, steps[i]);
        assert steps[..i + 1][..i] == steps[..i];
        moves := moves + jump;
      }
      assert steps[..|steps|] == steps;
    }

    /** One fixed step: kept when it lands on the board on an empty square
        or an enemy piece. */
    method GetJump(from: Square, c: Color, d: Offset) returns (r: seq<Square>)
      requires board.Length == 64
      ensures r == Jump(board[..], from, c, d)
    {
      r := [];
      var row := from.row + d.dr;
      var col := from.col + d.dc;
      if 0 <= row < ROWS && 0 <= col < COLS {
        var cell := board[8 * row + col];
        if cell.None? || cell.value.color != c {
          r := [Square(row, col)];
        }
      }
    }

    /** Rook, bishop and queen: the rays of their directions, in order. */
    method GetSlidingMoves(from: Square, c: Color, dirs: seq<Offset>) returns (moves: seq<Square>)
      requires board.Length == 64
      ensures moves == Rays(board[..], c, from, dirs)
    {
      ghost var g := board[..];
      moves := [];
      for di := 0 to |dirs|
        invariant moves == Rays(g, c, from, dirs[..di])
      {
        var ray := GetRayMoves(from, c, dirs[di]);
        moves := moves + ray;
        assert dirs[..di + 1][..di] == dirs[..di];
      }
      assert dirs[..|dirs|] == dirs;
    }

    /** One direction, steps 1..7: keep empty squares, keep and stop at the
        first enemy piece, stop at an own piece or the edge. */
    method GetRayMoves(from: Square, c: Color, d: Offset) returns (moves: seq<Square>)
      requires board.Length == 64
      ensures moves == Ray(board[..], c, from, d, 1)
    {
      ghost var g := board[..];
      moves := [];
      var i := 1;
      while i < ROWS
        invariant 1 <= i <= ROWS
        invariant moves + Ray(g, c, from, d, i) == Ray(g, c, from, d, 1)
      {
        var t := RaySquare(from, d, i);
        if InBounds(t) {
          var cell := board[Idx(t)];
          assert cell == At(g, t);
          if cell.None? {
            RayWalkEmpty(g, c, from, d, i, moves);
            moves := moves + [t];
            assert moves + Ray(g, c, from, d, i + 1) == Ray(g, c, from, d, 1);
          } else if cell.value.color != c {
            RayWalkEnemy(g, c, from, d, i, moves);
            moves := moves + [t];
            break;
          } else {
            RayWalkStop(g, c, from, d, i, moves);
            break;
          }
        } else {
          RayWalkStop(g, c, from, d, i, moves);
          break;
        }
        i := i + 1;
      }
      if i == ROWS {
        RayWalkStop(g, c, from, d, i, moves);
      }
    }

    /** The square i steps along d, computed as the source does, from the
        direction times the step count. */
    static method RaySquare(from: Square, d: Offset, i: nat) returns (t: Square)
      ensures t == Along(from, d, i)
    {
      t := Square(from.row + d.dr * i, from.col + d.dc * i);
      AlongClosed(from, d, i);
    }

    /** The king's eight steps, then its castling moves. */
    method GetKingMoves(from: Square, p: Piece, rights: Option<CastleRights>) returns (moves: seq<Square>)
      requires board.Length == 64 && InBounds(from) && CastleReady(from, p, rights)
      ensures moves == KingMoves(board[..], from, p, rights)
    {
      moves := GetJumpMoves(from, p.color, KingDirs);
      var castling := GetCastlingMoves(from, p, rights);
      moves := moves + castling;
    }

    /** An unmoved king with rights given may castle to a side its rights
        allow when the squares between it and the rook are empty: kingside
        first, then queenside. */
    method GetCastlingMoves(from: Square, p: Piece, rights: Option<CastleRights>) returns (moves: seq<Square>)
      requires board.Length == 64 && InBounds(from) && CastleReady(from, p, rights)
      ensures moves == Castling(board[..], from, p, rights)
    {
      moves := [];
      if !p.hasMoved && rights.Some? {
        var row := from.row;
        if Allows(rights.value, p.color, Kingside) {
          if board[8 * row + from.col + 1].None? && board[8 * row + from.col + 2].None? {
            moves := moves + [Square(row, from.col + 2)];
          }
        }
        assert moves == if Allows(rights.value, p.color, Kingside)
            && EmptyAt(board[..], Square(row, from.col + 1)) && EmptyAt(board[..], Square(row, from.col + 2))
          then [Square(row, from.col + 2)] else [];
        if Allows(rights.value, p.color, Queenside) {
          if board[8 * row + from.col - 1].None? && board[8 * row + from.col - 2].None?
             && board[8 * row + from.col - 3].None? {
            moves := moves + [Square(row, from.col - 2)];
          }
        }
      }
    }

    /** The destinations of piece p on `from` by its movement pattern alone;
        pawns use the en-passant target, kings the castling rights. */
    method GetPseudoMoves(pl: Placed, ep: Option<Square>, rights: Option<CastleRights>)
      returns (moves: seq<Square>)
      requires board.Length == 64 && InBounds(pl.sq) && ContextOk(pl.sq, pl.piece, rights)
      ensures moves == PseudoMoves(board[..], pl.sq, pl.piece, ep, rights)
    {
      match pl.piece.kind
      case Pawn => moves := GetPawnMoves(pl.sq, pl.piece.color, ep);
      case Knight => moves := GetJumpMoves(pl.sq, pl.piece.color, KnightSteps);
      case Bishop => moves := GetSlidingMoves(pl.sq, pl.piece.color, BishopDirs);
      case Rook => moves := GetSlidingMoves(pl.sq, pl.piece.color, RookDirs);
      case Queen => moves := GetSlidingMoves(pl.sq, pl.piece.color, QueenDirs);
      case King => moves := GetKingMoves(pl.sq, pl.piece, rights);
    }

    // ----------------------------------------------------------------
    // Check detection and the legality filter

    /** A side is in check when its king (the first found) is attacked by
        an enemy piece; a side without a king is never in check. */
    method IsKingInCheck(c: Color) returns (r: bool)
      requires board.Length == 64
      ensures r == KingInCheck(board[..], c)
    {
      var king := FindKing(c);
      if king.None? {
        NoKingNoCheck(board[..], c);
        return false;
      }
      r := IsAttacked(c, king.value);
      KingInCheckAt(board[..], c, king.value);
    }

    /** The first king of colour c, scanning row by row. */
    method FindKing(c: Color) returns (king: Option<Square>)
      requires board.Length == 64
      ensures king.None? ==> forall j :: 0 <= j < 64 ==> !KingOfAt(board[..], j, c)
      ensures king.Some? ==> InBounds(king.value) && IsFirstKing(board[..], c, Idx(king.value))
    {
      ghost var g := board[..];
      king := None;
      for row := 0 to ROWS
        invariant forall j :: 0 <= j < 8 * row ==> !KingOfAt(g, j, c)
      {
        for col := 0 to COLS
          invariant forall j :: 0 <= j < 8 * row + col ==> !KingOfAt(g, j, c)
        {
          var piece := board[8 * row + col];
          if piece.Some? && piece.value.kind == King && piece.value.color == c {
            king := Some(Square(row, col));
            assert Idx(king.value) == 8 * row + col && KingOfAt(g, 8 * row + col, c);
            return;
          }
          assert !KingOfAt(g, 8 * row + col, c);
        }
      }
    }

    /** Some enemy of colour c has `target` among its moves (no en-passant
        target, no castling rights); the scan goes row by row and stops at
        the first one. */
    method IsAttacked(c: Color, target: Square) returns (r: bool)
      requires board.Length == 64
      ensures r == Attacked(board[..], c, target)
    {
      r := false;
      for row := 0 to ROWS
        invariant forall j :: 0 <= j < 8 * row ==> !AttacksFrom(board[..], c, target, j)
      {
        r := RowAttacks(c, target, row);
        if r {
          return;
        }
      }
    }

    /** The scan of one row for an attacker of `target`. */
    method RowAttacks(c: Color, target: Square, row: int) returns (r: bool)
      requires board.Length == 64 && 0 <= row < ROWS
      ensures r ==> exists j :: 0 <= j < 64 && AttacksFrom(board[..], c, target, j)
      ensures !r ==> forall j :: 8 * row <= j < 8 * row + 8 ==> !AttacksFrom(board[..], c, target, j)
    {
      ghost var g := board[..];
      r := false;
      for col := 0 to COLS
        invariant forall j :: 8 * row <= j < 8 * row + col ==> !AttacksFrom(g, c, target, j)
      {
        ghost var k := 8 * row + col;
        r := AttacksAt(c, target, row, col);
        if r {
          assert 0 <= k < 64 && AttacksFrom(g, c, target, k);
          return;
        }
        forall j | 8 * row <= j < k + 1
          ensures !AttacksFrom(g, c, target, j)
        {
          if j == k {
            assert !AttacksFrom(g, c, target, k);
          }
        }
      }
    }

    /** The cell of (row, col) holds an enemy of colour c that has `target`
        among its moves. */
    method AttacksAt(c: Color, target: Square, row: int, col: int) returns (r: bool)
      requires board.Length == 64 && InBounds(Square(row, col))
      ensures r == AttacksFrom(board[..], c, target, 8 * row + col)
    {
      SquareOfIdx(Square(row, col));
      var piece := board[8 * row + col];
      r := false;
      if piece.Some? && piece.value.color != c {
        var moves := GetPseudoMoves(Placed(piece.value, Square(row, col)), None, None);
        r := target in moves;
      }
      assert r == AttacksFrom(board[..], c, target, 8 * row + col);
    }

    /** Try the move: empty the piece's square, put it on `to`, test its
        king, and put both cells back as they were. */
    method IsInCheckAfterMove(pl: Placed, to: Square) returns (r: bool)
      requires board.Length == 64 && InBounds(pl.sq) && InBounds(to)
      requires board[Idx(pl.sq)] == Some(pl.piece)
      modifies board
      ensures board[..] == old(board[..])
      ensures r == InCheckAfterMove(old(board[..]), pl, to)
    {
      var target := board[Idx(to)];
      board[Idx(pl.sq)] := None;
      board[Idx(to)] := Some(pl.piece);
      assert board[..] == Simulate(old(board[..]), pl, to);
      r := IsKingInCheck(pl.piece.color);
      board[Idx(pl.sq)] := Some(pl.piece);
      board[Idx(to)] := target;
      assert board[..] == old(board[..]);
    }

    /** The moves of `moves`, in order, after which the piece's own king is
        not attacked; the board is left as it was. */
    method FilterLegal(pl: Placed, moves: seq<Square>) returns (legal: seq<Square>)
      requires board.Length == 64 && InBounds(pl.sq) && board[Idx(pl.sq)] == Some(pl.piece)
      requires AllInBounds(moves)
      modifies board
      ensures board[..] == old(board[..])
      ensures legal == LegalFilter(old(board[..]), pl, moves)
    {
      legal := [];
      for i := 0 to |moves|
        invariant board[..] == old(board[..])
        invariant legal == LegalFilter(old(board[..]), pl, moves[..i])
      {
        assert moves[..i + 1][..i] == moves[..i];
        var check := IsInCheckAfterMove(pl, moves[i]);
        if !check {
          legal := legal + [moves[i]];
        }
      }
      assert moves[..|moves|] == moves;
    }

    /** A piece's moves with avoid_check on: its pattern moves, then the
        legality filter. */
    method GetValidMoves(pl: Placed, ep: Option<Square>, rights: Option<CastleRights>)
      returns (moves: seq<Square>)
      requires board.Length == 64 && InBounds(pl.sq) && board[Idx(pl.sq)] == Some(pl.piece)
      requires ContextOk(pl.sq, pl.piece, rights) && (ep.Some? ==> InBounds(ep.value))
      modifies board
      ensures board[..] == old(board[..])
      ensures moves == LegalMoves(old(board[..]), pl, ep, rights)
    {
      moves := GetPseudoMoves(pl, ep, rights);
      PseudoInBounds(board[..], pl.sq, pl.piece, ep, rights);
      moves := FilterLegal(pl, moves);
    }

    // ----------------------------------------------------------------
    // Turn change, promotion and moves

    /** Pass the turn: recompute the new side's check flag, count the
        placement once more, and reset or advance the halfmove clock. */
    method ChangeTurn(captured: bool)
      requires board.Length == 64
      modifies this
      ensures Model() == ChangeTurnSpec(old(Model()), captured)
    {
      ghost var s := Model();
      var t := Opponent(turn);
      var check := IsKingInCheck(t);
      var state := GetBoardState();
      var count := if state in boardStateCounts then boardStateCounts[state] else 0;
      var clock := if (selected.Some? && selected.value.piece.kind == Pawn) || captured then 0 else halfmoveClock + 1;
      ChangeTurnFields(s, captured, check, state);
      turn := t;
      inCheck := inCheck[t := check];
      boardStateCounts := boardStateCounts[state := count + 1];
      halfmoveClock := clock;
      assert Model() == s.(turn := t, inCheck := s.inCheck[t := check],
                           counts := s.counts[state := Count(s.counts, state) + 1], clock := clock);
    }

    /** Replace the pawn: the chosen piece of the pawn's colour on `to`, the
        pawn's own square emptied, and the turn passed. */
    method PromotePawn(pawn: Placed, to: Square, choice: Promotion)
      requires Valid() && InBounds(pawn.sq) && InBounds(to)
      modifies this, board
      ensures Valid() && Model() == PromoteSpec(old(Model()), pawn, to, choice)
    {
      PromoteProps(Model(), pawn, to, choice);
      var kind := match choice
        case ToQueen => Queen
        case ToRook => Rook
        case ToBishop => Bishop
        case ToKnight => Knight;
      board[8 * to.row + to.col] := Some(Piece(kind, pawn.piece.color, false));
      board[8 * pawn.sq.row + pawn.sq.col] := None;
      ChangeTurn(false);
    }

    /** The rook's half of castling: for a king's two-file move, whatever
        stands in the corner goes to the square the king crossed; an empty
        corner leaves both cells empty and raises. */
    method CastleRook(from: Square, to: Square) returns (raised: bool)
      requires board.Length == 64 && InBounds(from) && InBounds(to) && CastleShape(from, to)
      modifies board
      ensures (board[..], raised) == CastleRookStep(old(board[..]), from, to)
    {
      raised := false;
      if to.col - from.col == 2 {
        raised := ShiftRook(Idx(Square(to.row, to.col + 1)), Idx(Square(to.row, to.col - 1)));
      } else if to.col - from.col == -2 {
        raised := ShiftRook(Idx(Square(to.row, to.col - 2)), Idx(Square(to.row, to.col + 1)));
      }
    }

    /** Whatever stands on cell `corner` goes to cell `crossed` and the
        corner is emptied; a piece that arrives is marked as moved, and an
        empty corner raises. */
    method ShiftRook(corner: int, crossed: int) returns (raised: bool)
      requires board.Length == 64 && 0 <= corner < 64 && 0 <= crossed < 64 && corner != crossed
      modifies board
      ensures var rook := old(board[corner]);
        var g1 := old(board[..])[crossed := rook][corner := None];
        (board[..], raised) == (if rook.None? then (g1, true)
                                else (g1[crossed := Some(rook.value.(hasMoved := true))], false))
    {
      ghost var g := board[..];
      var rook := board[corner];
      board[crossed] := rook;
      board[corner] := None;
      assert board[..] == g[crossed := rook][corner := None];
      if rook.None? {
        return true;
      }
      board[crossed] := Some(rook.value.(hasMoved := true));
      raised := false;
    }

    /** Move the selected piece to `to`: rejected when `to` is not a listed
        destination; otherwise an en-passant victim is removed, the
        en-passant target set, a castling rook moved, a capture noted, and
        the piece lands (or is promoted) and the turn passes. */
    method MovePiece(to: Square, choice: Promotion) returns (outcome: Outcome)
      requires Valid()
      modifies this, board
      ensures Valid() && (Model(), outcome) == MoveSpec(old(Model()), to, choice)
    {
      MoveCoherent(Model(), to, choice);
      if to !in validMoves {
        return Rejected;
      }
      if selected.None? {
        enPassantTarget := None;
        return Raised;
      }
      outcome := ExecuteMove(selected.value, to, choice);
    }

    /** The move itself, once the destination is known to be listed for the
        selected piece. */
    method ExecuteMove(sel: Placed, to: Square, choice: Promotion) returns (outcome: Outcome)
      requires Valid() && selected == Some(sel) && to in validMoves
      modifies this, board
      ensures (Model(), outcome) == Execute(old(Model()), sel, to, choice)
    {
      ghost var s := Model();
      PrepareCoherent(s, to);
      var raised, enPassant := PrepareMove(sel, to);
      if raised {
        return Raised;
      }
      LandPiece(sel, to, choice, enPassant);
      outcome := Moved;
    }

    /** The steps before the piece lands: remove an en-passant victim (and
        report it as captured), set the en-passant target, and for a king
        move the castling rook. */
    method PrepareMove(sel: Placed, to: Square) returns (raised: bool, captured: bool)
      requires Valid() && selected == Some(sel) && to in validMoves
      modifies this`enPassantTarget, board
      ensures InBounds(to) && (sel.piece.kind == King ==> CastleShape(sel.sq, to))
      ensures (board[..], raised) == Prepare(old(Model()), sel, to)
      ensures captured == IsEnPassant(old(Model()), sel, to)
      ensures enPassantTarget == NextEp(sel, to)
    {
      ghost var s := Model();
      InValidMoves(s, to);
      captured := false;
      if sel.piece.kind == Pawn && enPassantTarget == Some(to) {
        board[8 * sel.sq.row + to.col] := None;
        captured := true;
      }
      assert board[..] == EnPassantStep(s, sel, to);
      if sel.piece.kind == Pawn && Abs(to.row - sel.sq.row) == 2 {
        enPassantTarget := Some(Square((to.row + sel.sq.row) / 2, sel.sq.col));
      } else {
        enPassantTarget := None;
      }
      raised := false;
      if sel.piece.kind == King {
        raised := CastleRook(sel.sq, to);
      }
    }

    /** The piece lands: a pawn on the last row is promoted (which passes the
        turn with no capture reported); any other piece leaves its square,
        is marked as moved, and the turn passes with the capture flag. */
    method LandPiece(sel: Placed, to: Square, choice: Promotion, enPassant: bool)
      requires Valid() && selected == Some(sel) && InBounds(sel.sq) && InBounds(to)
      modifies this, board
      ensures Model() ==
        ChangeTurnSpec(old(Model()).(grid := LandGrid(old(board[..]), sel, to, choice)),
                       !PromotesOn(sel, to) && (enPassant || EnemyAt(old(board[..]), to, sel.piece.color)))
        .(selected := None, validMoves := [])
    {
      if PromotesOn(sel, to) {
        PromotePawn(sel, to, choice);
      } else {
        StepPiece(sel, to, enPassant);
      }
      selected := None;
      validMoves := [];
    }

    /** The piece leaves its square and stands on `to`, marked as moved;
        the turn passes, reporting a capture when the move is en passant or
        the destination held an enemy piece. */
    method StepPiece(sel: Placed, to: Square, enPassant: bool)
      requires board.Length == 64 && InBounds(sel.sq) && InBounds(to)
      modifies this, board
      ensures Model() ==
        ChangeTurnSpec(old(Model()).(grid := old(board[..])[Idx(sel.sq) := None][Idx(to) := Some(sel.piece.(hasMoved := true))]),
                       enPassant || EnemyAt(old(board[..]), to, sel.piece.color))
    {
      ghost var s := Model();
      var target := board[8 * to.row + to.col];
      var captured := enPassant || (target.Some? && target.value.color != sel.piece.color);
      assert captured == enPassant || EnemyAt(s.grid, to, sel.piece.color);
      board[8 * sel.sq.row + sel.sq.col] := None;
      board[8 * to.row + to.col] := Some(sel.piece.(hasMoved := true));
      assert Model() == s.(grid := s.grid[Idx(sel.sq) := None][Idx(to) := Some(sel.piece.(hasMoved := true))]);
      ChangeTurn(captured);
    }

    /** A click on sq: with a piece selected, try to move it there and, if
        that is rejected, drop the selection and click again; with nothing
        selected, pick the piece there. The result reports a move that
        raised. */
    method SelectPiece(sq: Square, choice: Promotion) returns (raised: bool)
      requires Valid() && InBounds(sq)
      modifies this, board
      ensures Valid() && (Model(), raised) == SelectSpec(old(Model()), sq, choice)
      decreases if selected.Some? then 1 else 0
    {
      if selected.Some? {
        var outcome := MovePiece(sq, choice);
        if outcome == Rejected {
          selected := None;
          raised := SelectPiece(sq, choice);
        } else {
          raised := outcome == Raised;
        }
      } else {
        PickPiece(sq);
        raised := false;
      }
    }

    /** With nothing selected: select a piece of the side to move with its
        legal moves (pawns see the en-passant target, kings the castling
        rights), filtered a second time, which changes nothing. */
    method PickPiece(sq: Square)
      requires Valid() && InBounds(sq) && selected.None?
      modifies this, board
      ensures Valid() && Model() == Pick(old(Model()), sq)
    {
      ghost var s := Model();
      PickCoherent(s, sq);
      var piece := board[8 * sq.row + sq.col];
      assert piece == s.grid[Idx(sq)];
      if piece.Some? && piece.value.color == turn {
        var pl := Placed(piece.value, sq);
        SelectionContext(s, sq);
        var moves := SelectionFor(pl, enPassantTarget, castleRights);
        assert moves == SelectionMoves(s, pl);
        assert Pick(s, sq) == s.(selected := Some(pl), validMoves := moves);
        selected := Some(pl);
        validMoves := moves;
        assert Model() == s.(selected := Some(pl), validMoves := moves);
      } else {
        assert Pick(s, sq) == s;
      }
    }

    /** The destinations offered for a picked piece: its legal moves
        (en-passant target for a pawn, castling rights for a king), passed
        through the legality filter once more. */
    method SelectionFor(pl: Placed, ep: Option<Square>, rights: CastleRights) returns (moves: seq<Square>)
      requires board.Length == 64 && InBounds(pl.sq) && board[8 * pl.sq.row + pl.sq.col] == Some(pl.piece)
      requires ep.Some? ==> InBounds(ep.value)
      requires ContextOk(pl.sq, pl.piece, if pl.piece.kind == King then Some(rights) else None)
      modifies board
      ensures board[..] == old(board[..])
      ensures moves == LegalMoves(board[..], pl, if pl.piece.kind == Pawn then ep else None,
                                  if pl.piece.kind == King then Some(rights) else None)
    {
      var pawnEp := if pl.piece.kind == Pawn then ep else None;
      var kingRights := if pl.piece.kind == King then Some(rights) else None;
      moves := GetValidMoves(pl, pawnEp, kingRights);
      LegalMovesRefiltered(board[..], pl, pawnEp, kingRights);
      moves := FilterLegal(pl, moves);
    }

    // ----------------------------------------------------------------
    // Game end

    /** The side to move is in check and none of its pieces has a legal
        move. */
    method IsCheckmate() returns (r: bool)
      requires Valid()
      modifies board
      ensures board[..] == old(board[..])
      ensures Valid() && r == CheckmateSpec(Model())
    {
      assert turn == White || turn == Black;
      if !inCheck[turn] {
        return false;
      }
      var any := HasLegalMove(turn);
      r := !any;
    }

    /** The side to move is not in check and none of its pieces has a legal
        move. */
    method IsStalemate() returns (r: bool)
      requires Valid()
      modifies board
      ensures board[..] == old(board[..])
      ensures Valid() && r == StalemateSpec(Model())
    {
      assert turn == White || turn == Black;
      if inCheck[turn] {
        return false;
      }
      var any := HasLegalMove(turn);
      r := !any;
    }

    /** Some piece of colour c has a legal move (no en-passant target, no
        castling rights); the scan goes row by row and stops at the first
        one. */
    method HasLegalMove(c: Color) returns (r: bool)
      requires board.Length == 64
      modifies board
      ensures board[..] == old(board[..])
      ensures r <==> exists j :: 0 <= j < 64 && Movable(old(board[..]), c, j)
    {
      ghost var g := board[..];
      r := false;
      for row := 0 to ROWS
        invariant board[..] == g
        invariant forall j :: 0 <= j < 8 * row ==> !Movable(g, c, j)
      {
        r := RowHasLegalMove(c, row);
        if r {
          return;
        }
      }
    }

    /** The scan of one row, stopping at the first movable piece. */
    method RowHasLegalMove(c: Color, row: int) returns (r: bool)
      requires board.Length == 64 && 0 <= row < ROWS
      modifies board
      ensures board[..] == old(board[..])
      ensures r ==> exists j :: 0 <= j < 64 && Movable(old(board[..]), c, j)
      ensures !r ==> forall j :: 8 * row <= j < 8 * row + 8 ==> !Movable(old(board[..]), c, j)
    {
      ghost var g := board[..];
      r := false;
      for col := 0 to COLS
        invariant board[..] == g
        invariant forall j :: 8 * row <= j < 8 * row + col ==> !Movable(g, c, j)
      {
        ghost var k := 8 * row + col;
        r := MovableAt(c, row, col);
        if r {
          assert 0 <= k < 64 && Movable(g, c, k);
          return;
        }
        forall j | 8 * row <= j < k + 1
          ensures !Movable(g, c, j)
        {
          if j == k {
            assert !Movable(g, c, k);
          }
        }
      }
    }

    /** The cell of (row, col) holds a piece of colour c with at least one
        legal move. */
    method MovableAt(c: Color, row: int, col: int) returns (r: bool)
      requires board.Length == 64 && InBounds(Square(row, col))
      modifies board
      ensures board[..] == old(board[..])
      ensures r == Movable(old(board[..]), c, 8 * row + col)
    {
      ghost var g := board[..];
      SquareOfIdx(Square(row, col));
      var piece := board[8 * row + col];
      r := false;
      if piece.Some? && piece.value.color == c {
        var moves := GetValidMoves(Placed(piece.value, Square(row, col)), None, None);
        r := |moves| > 0;
      }
      assert r == Movable(g, c, 8 * row + col);
    }

    /** The current placement has been counted at least three times. */
    method IsThreefoldRepetition() returns (r: bool)
      requires board.Length == 64
      ensures r == ThreefoldSpec(Model())
    {
      var state := GetBoardState();
      r := (if state in boardStateCounts then boardStateCounts[state] else 0) >= 3;
    }

    /** Fifty or more half-moves without a pawn move or a capture. */
    method IsFiftyMoveRule() returns (r: bool)
      ensures r == FiftyMoveSpec(Model())
    {
      r := halfmoveClock >= 50;
    }

    // ----------------------------------------------------------------
    // Text forms

    /** The placement signature: per cell, '0' when empty, else the initial
        of the colour word and of the class name. */
    method GetBoardState() returns (state: string)
      requires board.Length == 64
      ensures state == BoardState(board[..])
    {
      state := "";
      for row := 0 to ROWS
        invariant state == StatePrefix(board[..], 8 * row)
      {
        state := AppendRowState(state, row);
      }
    }

    /** The signature extended by the cells of one row. */
    method AppendRowState(prefix: string, row: nat) returns (state: string)
      requires board.Length == 64 && row < 8 && prefix == StatePrefix(board[..], 8 * row)
      ensures state == StatePrefix(board[..], 8 * row + 8)
    {
      state := prefix;
      for col := 0 to COLS
        invariant state == StatePrefix(board[..], 8 * row + col)
      {
        var piece := board[8 * row + col];
        if piece.None? {
          state := state + "0";
        } else {
          state := state + [ColorName(piece.value.color)[0], ClassName(piece.value.kind)[0]];
        }
        assert state == StatePrefix(board[..], 8 * row + col + 1);
      }
    }

    /** The FEN string as the source writes it: ranks from row 0, runs of
        empty squares as digits, each piece as the first letter of its name
        in the colour's case, then the side to move and fixed fields. */
    method GetFen() returns (fen: string)
      requires board.Length == 64
      ensures fen == Fen(board[..], turn, FenSymbolAsWritten)
    {
      fen := "";
      for row := 0 to ROWS
        invariant fen == Placement(board[..], row, FenSymbolAsWritten)
      {
        var rank := GetRankText(row);
        fen := fen + rank + "/";
      }
      PlacementNonEmpty(board[..], 8, FenSymbolAsWritten);
      fen := fen[..|fen| - 1];
      fen := fen + if turn == White then " w - - 0 1" else " b - - 0 1";
    }

    /** One rank of the placement field: runs of empty squares as digits,
        pieces by their symbol. */
    method GetRankText(row: nat) returns (rank: string)
      requires board.Length == 64 && row < 8
      ensures rank == RankText(board[..], row, FenSymbolAsWritten)
    {
      ghost var g := board[..];
      rank := "";
      var emptyCount := 0;
      for col := 0 to COLS
        invariant RankScan(rank, emptyCount) == ScanRank(g, row, col, FenSymbolAsWritten)
      {
        var piece := board[8 * row + col];
        assert piece == g[8 * row + col];
        if piece.None? {
          emptyCount := emptyCount + 1;
        } else {
          if emptyCount > 0 {
            rank := rank + Digit(emptyCount);
            emptyCount := 0;
          }
          var ch := Name(piece.value)[0];
          var symbol := if piece.value.color == White then Upper(ch) else Lower(ch);
          assert symbol == FenSymbolAsWritten(piece.value);
          rank := rank + [symbol];
        }
        assert RankScan(rank, emptyCount) == ScanRank(g, row, col + 1, FenSymbolAsWritten);
      }
      if emptyCount > 0 {
        rank := rank + Digit(emptyCount);
      }
    }
  }
}
