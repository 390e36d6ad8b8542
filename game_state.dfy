/** The rule engine's state as a value, and the specification of every
    operation that changes it: selecting a piece, executing a move (with
    en-passant, castling and promotion), and handing the turn over. */
module GameState {
  import opened ChessTypes
  import opened PieceMoves
  import opened Legality
  import opened Serialize

  /** Result of executing a move: not in the valid-move list; executed; or
      stopped by a runtime error part way (a castling move whose rook square
      is empty, or no piece selected). */
  datatype Outcome = Rejected | Moved | Raised

  datatype State = State(
    grid: Grid,
    turn: Color,
    ep: Option<Square>,
    rights: CastleRights,
    inCheck: map<Color, bool>,
    counts: map<string, nat>,
    clock: nat,
    selected: Option<Placed>,
    validMoves: seq<Square>)

  // ------------------------------------------------------------------
  // The initial position

  const BackRank: seq<Kind> := [Rook, Knight, Bishop, Queen, King, Bishop, Knight, Rook]

  /** The starting cell i: Black's back rank and pawns in cells 0..15,
      White's pawns and back rank in cells 48..63. */
  function InitialCell(i: nat): Option<Piece>
    requires i < 64
  {
    if i < 8 then Some(Piece(BackRank[i], Black, false))
    else if i < 16 then Some(Piece(Pawn, Black, false))
    else if i < 48 then None
    else if i < 56 then Some(Piece(Pawn, White, false))
    else Some(Piece(BackRank[i - 56], White, false))
  }

  function InitialGrid(): (g: Grid)
    ensures ValidGrid(g)
  {
    seq(64, i requires 0 <= i < 64 => InitialCell(i))
  }

  function InitialState(): State
  {
    State(InitialGrid(), White, None, AllRights, map[White := false, Black := false],
          map[], 0, None, [])
  }

  // ------------------------------------------------------------------
  // Invariant

  /** A king that has not moved stands on column 4, so the squares the
      castling test reads are on the board. */
  predicate UnmovedKingsHome(g: Grid)
    requires ValidGrid(g)
  {
    forall i :: 0 <= i < 64 && g[i].Some? && g[i].value.kind == King && !g[i].value.hasMoved ==> i % 8 == 4
  }

  /** What the move list of a selected piece looks like: never its own
      square; a pawn always changes row; a king's two-file move starts on
      column 4 and stays on its row. */
  predicate SelectedGeometry(sel: Placed, moves: seq<Square>)
  {
    forall k :: 0 <= k < |moves| ==>
      && moves[k] != sel.sq
      && (sel.piece.kind == Pawn ==> moves[k].row != sel.sq.row)
      && (sel.piece.kind == King && Abs(moves[k].col - sel.sq.col) == 2 ==>
            sel.sq.col == 4 && moves[k].row == sel.sq.row)
  }

  predicate Coherent(s: State)
  {
    && ValidGrid(s.grid)
    && White in s.inCheck && Black in s.inCheck
    && UnmovedKingsHome(s.grid)
    && (s.ep.Some? ==> InBounds(s.ep.value))
    && AllInBounds(s.validMoves)
    && (s.selected.Some? ==> InBounds(s.selected.value.sq) && SelectedGeometry(s.selected.value, s.validMoves))
  }

  function Count(m: map<string, nat>, k: string): nat
  {
    if k in m then m[k] else 0
  }

  // ------------------------------------------------------------------
  // Turn change and promotion

  /** Hand the move to the other side: recompute only the new side's check
      flag, count the new placement once more, and reset the halfmove clock
      after a pawn move or a capture (else add one). */
  function ChangeTurnSpec(s: State, captured: bool): (r: State)
    requires ValidGrid(s.grid)
    ensures r.grid == s.grid && ValidGrid(r.grid)
  {
    var t := Opponent(s.turn);
    var key := BoardState(s.grid);
    var pawnMoved := s.selected.Some? && s.selected.value.piece.kind == Pawn;
    s.(turn := t,
       inCheck := s.inCheck[t := KingInCheck(s.grid, t)],
       counts := s.counts[key := Count(s.counts, key) + 1],
       clock := if pawnMoved || captured then 0 else s.clock + 1)
  }

  function PromotedPiece(c: Color, choice: Promotion): Piece
  {
    Piece(PromotedKind(choice), c, false)
  }

  /** Put a new piece of the chosen kind and the pawn's colour on `to`,
      empty the square the pawn records for itself, and change the turn
      (with no capture reported). */
  function PromoteSpec(s: State, pawn: Placed, to: Square, choice: Promotion): (r: State)
    requires ValidGrid(s.grid) && InBounds(pawn.sq) && InBounds(to)
    ensures ValidGrid(r.grid)
  {
    var g := s.grid[Idx(to) := Some(PromotedPiece(pawn.piece.color, choice))][Idx(pawn.sq) := None];
    ChangeTurnSpec(s.(grid := g), false)
  }

  // ------------------------------------------------------------------
  // Executing a move

  predicate IsEnPassant(s: State, sel: Placed, to: Square)
  {
    sel.piece.kind == Pawn && s.ep == Some(to)
  }

  /** An en-passant capture empties the square beside the mover, on the
      destination's file. */
  function EnPassantStep(s: State, sel: Placed, to: Square): (g: Grid)
    requires ValidGrid(s.grid) && InBounds(sel.sq) && InBounds(to)
    ensures ValidGrid(g)
  {
    if IsEnPassant(s, sel, to) then s.grid[Idx(Square(sel.sq.row, to.col)) := None] else s.grid
  }

  /** The new en-passant target: the square passed over by a pawn's double
      step, else none. */
  function NextEp(sel: Placed, to: Square): Option<Square>
  {
    if sel.piece.kind == Pawn && Abs(to.row - sel.sq.row) == 2
    then Some(Square((to.row + sel.sq.row) / 2, sel.sq.col)) else None
  }

  predicate CastleShape(from: Square, to: Square)
  {
    Abs(to.col - from.col) == 2 ==> from.col == 4 && to.row == from.row
  }

  /** A king's two-file move also moves whatever stands in the rook's
      corner to the square the king crossed. The cells are written before
      the piece there is told it moved, so an empty corner leaves both cells
      empty and raises. */
  function CastleRookStep(g: Grid, from: Square, to: Square): (r: (Grid, bool))
    requires ValidGrid(g) && InBounds(from) && InBounds(to) && CastleShape(from, to)
    ensures ValidGrid(r.0)
  {
    if to.col - from.col == 2 then
      var corner := Square(to.row, to.col + 1);
      var crossed := Square(to.row, to.col - 1);
      var rook := g[Idx(corner)];
      var g1 := g[Idx(crossed) := rook][Idx(corner) := None];
      if rook.None? then (g1, true)
      else (g1[Idx(crossed) := Some(rook.value.(hasMoved := true))], false)
    else if to.col - from.col == -2 then
      var corner := Square(to.row, to.col - 2);
      var crossed := Square(to.row, to.col + 1);
      var rook := g[Idx(corner)];
      var g1 := g[Idx(crossed) := rook][Idx(corner) := None];
      if rook.None? then (g1, true)
      else (g1[Idx(crossed) := Some(rook.value.(hasMoved := true))], false)
    else (g, false)
  }

  predicate PromotesOn(sel: Placed, to: Square)
  {
    sel.piece.kind == Pawn && (to.row == 0 || to.row == 7)
  }

  /** The board after the piece lands: a pawn reaching the last row is
      replaced by the promoted piece on `to` and its own square emptied;
      any other piece leaves its square and stands on `to`, marked as
      moved. */
  function LandGrid(g: Grid, sel: Placed, to: Square, choice: Promotion): (r: Grid)
    requires ValidGrid(g) && InBounds(sel.sq) && InBounds(to)
    ensures ValidGrid(r)
  {
    if PromotesOn(sel, to)
    then g[Idx(to) := Some(PromotedPiece(sel.piece.color, choice))][Idx(sel.sq) := None]
    else g[Idx(sel.sq) := None][Idx(to) := Some(sel.piece.(hasMoved := true))]
  }

  /** The board before the piece lands: an en-passant victim removed and,
      for a king, a castling rook moved; the flag reports an empty corner. */
  function Prepare(s: State, sel: Placed, to: Square): (r: (Grid, bool))
    requires ValidGrid(s.grid) && InBounds(sel.sq) && InBounds(to)
    requires sel.piece.kind == King ==> CastleShape(sel.sq, to)
    ensures ValidGrid(r.0)
  {
    var g1 := EnPassantStep(s, sel, to);
    if sel.piece.kind == King then CastleRookStep(g1, sel.sq, to) else (g1, false)
  }

  /** The move of the selected piece `sel` to a listed destination, in the
      source's order: an en-passant victim is removed; the en-passant target
      is set; a castling rook is moved (raising if its corner is empty); a
      capture is noted; the piece lands and the turn changes (a promotion
      reports no capture to the turn change); the selection and the move
      list are cleared. */
  function Execute(s: State, sel: Placed, to: Square, choice: Promotion): (r: (State, Outcome))
    requires Coherent(s) && s.selected == Some(sel) && to in s.validMoves
    ensures ValidGrid(r.0.grid) && r.1 != Rejected
  {
    assert InBounds(to) && (sel.piece.kind == King ==> CastleShape(sel.sq, to));
    var (g2, raised) := Prepare(s, sel, to);
    var ep := NextEp(sel, to);
    if raised then (s.(grid := g2, ep := ep), Raised)
    else
      var captured := IsEnPassant(s, sel, to) || EnemyAt(g2, to, sel.piece.color);
      var s2 := ChangeTurnSpec(s.(grid := LandGrid(g2, sel, to, choice), ep := ep),
                               !PromotesOn(sel, to) && captured);
      (s2.(selected := None, validMoves := []), Moved)
  }

  /** Move the selected piece to `to`. A destination outside the valid-move
      list is rejected with nothing changed; with nothing selected the move
      raises after clearing the en-passant target. */
  function MoveSpec(s: State, to: Square, choice: Promotion): (r: (State, Outcome))
    requires Coherent(s)
    ensures ValidGrid(r.0.grid)
  {
    if to !in s.validMoves then (s, Rejected)
    else if s.selected.None? then (s.(ep := None), Raised)
    else Execute(s, s.selected.value, to, choice)
  }

  // ------------------------------------------------------------------
  // Selecting a piece

  /** A piece standing on the board can be asked for its moves: an unmoved
      king stands on column 4, as castling generation expects. */
  lemma SelectionContext(s: State, sq: Square)
    requires Coherent(s) && InBounds(sq) && s.grid[Idx(sq)].Some?
    ensures var p := s.grid[Idx(sq)].value;
      ContextOk(sq, p, if p.kind == King then Some(s.rights) else None)
  {
    IdxDivMod(sq);
  }

  /** The legal moves the board offers for a piece it selects: pawns see the
      en-passant target, kings the castling rights. */
  function SelectionMoves(s: State, pl: Placed): seq<Square>
    requires Coherent(s) && InBounds(pl.sq) && s.grid[Idx(pl.sq)] == Some(pl.piece)
  {
    var ep := if pl.piece.kind == Pawn then s.ep else None;
    var rights := if pl.piece.kind == King then Some(s.rights) else None;
    SelectionContext(s, pl.sq);
    LegalMoves(s.grid, pl, ep, rights)
  }

  /** With nothing selected: select the piece on sq if it belongs to the side
      to move, with its legal moves; otherwise change nothing. */
  function Pick(s: State, sq: Square): State
    requires Coherent(s) && InBounds(sq)
  {
    var cell := s.grid[Idx(sq)];
    if cell.Some? && cell.value.color == s.turn then
      var pl := Placed(cell.value, sq);
      s.(selected := Some(pl), validMoves := SelectionMoves(s, pl))
    else s
  }

  /** Click on sq: with a piece selected, try to move it there; if that is
      rejected, drop the selection and pick the piece on sq instead. The
      flag reports a move that raised. */
  function SelectSpec(s: State, sq: Square, choice: Promotion): (State, bool)
    requires Coherent(s) && InBounds(sq)
    decreases if s.selected.Some? then 1 else 0
  {
    if s.selected.Some? then
      var (s1, out) := MoveSpec(s, sq, choice);
      if out == Rejected then SelectSpec(s.(selected := None), sq, choice)
      else (s1, out == Raised)
    else (Pick(s, sq), false)
  }

  // ------------------------------------------------------------------
  // Game end

  /** The stored check flag of colour c. */
  function CheckFlag(s: State, c: Color): bool
    requires White in s.inCheck && Black in s.inCheck
  {
    match c
    case White => s.inCheck[White]
    case Black => s.inCheck[Black]
  }

  predicate CheckmateSpec(s: State)
    requires Coherent(s)
  {
    CheckFlag(s, s.turn) && !SideCanMove(s.grid, s.turn)
  }

  predicate StalemateSpec(s: State)
    requires Coherent(s)
  {
    !CheckFlag(s, s.turn) && !SideCanMove(s.grid, s.turn)
  }

  predicate ThreefoldSpec(s: State)
    requires ValidGrid(s.grid)
  {
    Count(s.counts, BoardState(s.grid)) >= 3
  }

  predicate FiftyMoveSpec(s: State)
  {
    s.clock >= 50
  }
}
