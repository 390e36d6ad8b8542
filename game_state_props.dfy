/** Properties of the state-changing operations: the invariant each one
    keeps, what a move does to the board, the en-passant target, castling,
    the repetition table and the halfmove clock, and how selection picks its
    moves. */
module GameStateProps {
  import opened ChessTypes
  import opened PieceMoves
  import opened Legality
  import opened Serialize
  import opened GameState

  // ------------------------------------------------------------------
  // The initial position

  /** The starting position keeps the invariant: both kings start unmoved on
      column 4. */
  lemma InitialCoherent()
    ensures Coherent(InitialState())
    ensures InitialState().turn == White && InitialState().counts == map[]
  {
    var g := InitialGrid();
    forall i | 0 <= i < 64 && g[i].Some? && g[i].value.kind == King && !g[i].value.hasMoved
      ensures i % 8 == 4
    {
      assert g[i] == InitialCell(i);
    }
  }

  /** Sixteen pieces per side: pawns on rows 1 and 6, the back ranks in the
      order rook, knight, bishop, queen, king, bishop, knight, rook. */
  lemma InitialLayout(sq: Square)
    requires InBounds(sq)
    ensures var cell := At(InitialGrid(), sq);
      && (sq.row == 1 ==> cell == Some(Piece(Pawn, Black, false)))
      && (sq.row == 6 ==> cell == Some(Piece(Pawn, White, false)))
      && (sq.row == 0 ==> cell.Some? && cell.value.color == Black && cell.value.kind == BackRank[sq.col])
      && (sq.row == 7 ==> cell.Some? && cell.value.color == White && cell.value.kind == BackRank[sq.col])
      && (2 <= sq.row <= 5 ==> cell.None?)
      && (cell.Some? && cell.value.kind == King ==> sq.col == 4 && (sq.row == 0 || sq.row == 7))
  {
    assert At(InitialGrid(), sq) == InitialCell(Idx(sq));
  }

  // ------------------------------------------------------------------
  // Keeping unmoved kings at home

  predicate NotUnmovedKing(cell: Option<Piece>)
  {
    cell.None? || cell.value.kind != King || cell.value.hasMoved
  }

  lemma HomeUpdate(g: Grid, i: int, cell: Option<Piece>)
    requires ValidGrid(g) && UnmovedKingsHome(g) && 0 <= i < 64 && NotUnmovedKing(cell)
    ensures UnmovedKingsHome(g[i := cell])
  {
  }

  // ------------------------------------------------------------------
  // Turn change

  /** The turn passes to the other side; only the new side's check flag is
      recomputed, from the board; the count of the current placement goes up
      by exactly one and no other count changes; the clock is reset exactly
      after a pawn move or a capture, and otherwise goes up by one. */
  lemma ChangeTurnProps(s: State, captured: bool)
    requires Coherent(s)
    ensures var s' := ChangeTurnSpec(s, captured);
      && Coherent(s')
      && s'.turn == Opponent(s.turn) && s'.grid == s.grid
      && CheckFlag(s', s'.turn) == KingInCheck(s.grid, s'.turn)
      && CheckFlag(s', s.turn) == CheckFlag(s, s.turn)
      && (forall k :: Count(s'.counts, k) == Count(s.counts, k) + (if k == BoardState(s.grid) then 1 else 0))
      && (s'.clock == 0 <==> (s.selected.Some? && s.selected.value.piece.kind == Pawn) || captured)
      && (s'.clock != 0 ==> s'.clock == s.clock + 1)
  {
  }

  /** The turn change with the new side's check flag and the placement's
      signature already computed. */
  lemma ChangeTurnFields(s: State, captured: bool, check: bool, key: string)
    requires ValidGrid(s.grid)
    requires check == KingInCheck(s.grid, Opponent(s.turn)) && key == BoardState(s.grid)
    ensures ChangeTurnSpec(s, captured)
         == s.(turn := Opponent(s.turn), inCheck := s.inCheck[Opponent(s.turn) := check],
               counts := s.counts[key := Count(s.counts, key) + 1],
               clock := if (s.selected.Some? && s.selected.value.piece.kind == Pawn) || captured then 0 else s.clock + 1)
  {
  }

  /** The turn change counts the current placement once more. */
  lemma ChangeTurnCounts(s: State, captured: bool)
    requires ValidGrid(s.grid)
    ensures forall k :: Count(ChangeTurnSpec(s, captured).counts, k)
                        == Count(s.counts, k) + (if k == BoardState(s.grid) then 1 else 0)
  {
  }

  /** After a turn change the position just reached has been counted, so
      the repetition test sees it at least once. */
  lemma ChangeTurnCountsCurrent(s: State, captured: bool)
    requires Coherent(s)
    ensures var s' := ChangeTurnSpec(s, captured);
      Count(s'.counts, BoardState(s'.grid)) >= 1
      && (ThreefoldSpec(s') <==> Count(s.counts, BoardState(s.grid)) >= 2)
  {
  }

  /** The fifty-move test can only become true by a quiet, non-pawn move
      from a clock of 49 or more. */
  lemma FiftyMoveNeedsQuietMoves(s: State, captured: bool)
    requires Coherent(s)
    ensures FiftyMoveSpec(ChangeTurnSpec(s, captured)) ==>
      !captured && !(s.selected.Some? && s.selected.value.piece.kind == Pawn) && s.clock >= 49
  {
  }

  // ------------------------------------------------------------------
  // Promotion

  /** The new piece, of the pawn's colour and the chosen kind, stands on the
      destination; the pawn's square is empty; nothing else on the board
      changes; the turn passes. */
  lemma PromoteProps(s: State, pawn: Placed, to: Square, choice: Promotion)
    requires Coherent(s) && InBounds(pawn.sq) && InBounds(to)
    ensures var s' := PromoteSpec(s, pawn, to, choice);
      && Coherent(s')
      && (to != pawn.sq ==> At(s'.grid, to) == Some(Piece(PromotedKind(choice), pawn.piece.color, false)))
      && At(s'.grid, pawn.sq) == None
      && (forall i :: 0 <= i < 64 && i != Idx(to) && i != Idx(pawn.sq) ==> s'.grid[i] == s.grid[i])
      && s'.turn == Opponent(s.turn)
  {
    var g := s.grid[Idx(to) := Some(PromotedPiece(pawn.piece.color, choice))];
    HomeUpdate(s.grid, Idx(to), Some(PromotedPiece(pawn.piece.color, choice)));
    HomeUpdate(g, Idx(pawn.sq), None);
    ChangeTurnProps(s.(grid := g[Idx(pawn.sq) := None]), false);
  }

  // ------------------------------------------------------------------
  // Castling rook

  /** Kingside (king from column 4 to 6): the piece in the corner, column 7,
      goes to column 5 marked as moved; queenside (4 to 2): column 0 goes to
      column 3. The step raises exactly when the corner is empty; nothing
      else on the board changes. */
  lemma CastleRookStepProps(g: Grid, from: Square, to: Square)
    requires ValidGrid(g) && InBounds(from) && InBounds(to) && CastleShape(from, to)
    ensures var (g', raised) := CastleRookStep(g, from, to);
      var r := to.row;
      && ValidGrid(g')
      && (Abs(to.col - from.col) != 2 ==> g' == g && !raised)
      && (to.col == from.col + 2 ==>
            && (raised <==> At(g, Square(r, 7)).None?)
            && (!raised ==> At(g', Square(r, 5)) == Some(At(g, Square(r, 7)).value.(hasMoved := true)))
            && At(g', Square(r, 7)).None?
            && forall i :: 0 <= i < 64 && i != Idx(Square(r, 5)) && i != Idx(Square(r, 7)) ==> g'[i] == g[i])
      && (to.col == from.col - 2 ==>
            && (raised <==> At(g, Square(r, 0)).None?)
            && (!raised ==> At(g', Square(r, 3)) == Some(At(g, Square(r, 0)).value.(hasMoved := true)))
            && At(g', Square(r, 0)).None?
            && forall i :: 0 <= i < 64 && i != Idx(Square(r, 3)) && i != Idx(Square(r, 0)) ==> g'[i] == g[i])
  {
  }

  lemma CastleRookStepHome(g: Grid, from: Square, to: Square)
    requires ValidGrid(g) && InBounds(from) && InBounds(to) && CastleShape(from, to)
    requires UnmovedKingsHome(g)
    ensures UnmovedKingsHome(CastleRookStep(g, from, to).0)
  {
    CastleRookStepProps(g, from, to);
    var g' := CastleRookStep(g, from, to).0;
    forall i | 0 <= i < 64 && g'[i].Some? && g'[i].value.kind == King && !g'[i].value.hasMoved
      ensures i % 8 == 4
    {
      // a piece written to the crossed square is marked as moved
      if to.col == from.col + 2 {
        if i == Idx(Square(to.row, 5)) {
          assert false;
        }
      } else if to.col == from.col - 2 {
        if i == Idx(Square(to.row, 3)) {
          assert false;
        }
      }
    }
  }

  // ------------------------------------------------------------------
  // Executing a move

  lemma InValidMoves(s: State, to: Square)
    requires Coherent(s) && to in s.validMoves
    ensures InBounds(to)
    ensures s.selected.Some? ==> to != s.selected.value.sq
    ensures s.selected.Some? && s.selected.value.piece.kind == Pawn ==> to.row != s.selected.value.sq.row
    ensures s.selected.Some? && s.selected.value.piece.kind == King ==> CastleShape(s.selected.value.sq, to)
  {
    var k :| 0 <= k < |s.validMoves| && s.validMoves[k] == to;
  }

  /** A move of the selected piece to a listed destination raises exactly
      when the preparation found an empty rook corner, and otherwise goes
      through. */
  lemma ExecuteOutcome(s: State, sel: Placed, to: Square, choice: Promotion)
    requires Coherent(s) && s.selected == Some(sel) && to in s.validMoves
    ensures InBounds(to) && (sel.piece.kind == King ==> CastleShape(sel.sq, to))
    ensures Execute(s, sel, to, choice).1 == Raised <==> Prepare(s, sel, to).1
    ensures Execute(s, sel, to, choice).1 == Moved <==> !Prepare(s, sel, to).1
  {
    InValidMoves(s, to);
  }

  /** A move that raises keeps everything but the prepared board and the
      new en-passant target. */
  lemma ExecuteRaised(s: State, sel: Placed, to: Square, choice: Promotion)
    requires Coherent(s) && s.selected == Some(sel) && to in s.validMoves
    ensures InBounds(to) && (sel.piece.kind == King ==> CastleShape(sel.sq, to))
    ensures Prepare(s, sel, to).1 ==>
      Execute(s, sel, to, choice).0 == s.(grid := Prepare(s, sel, to).0, ep := NextEp(sel, to))
  {
    InValidMoves(s, to);
  }

  /** A move that goes through lands the piece on the prepared board,
      passes the turn, clears the selection, sets the new en-passant target
      and keeps the castling rights. */
  lemma ExecuteMoved(s: State, sel: Placed, to: Square, choice: Promotion)
    requires Coherent(s) && s.selected == Some(sel) && to in s.validMoves
    ensures InBounds(to) && (sel.piece.kind == King ==> CastleShape(sel.sq, to))
    ensures !Prepare(s, sel, to).1 ==>
      var r := Execute(s, sel, to, choice).0;
      && r.grid == LandGrid(Prepare(s, sel, to).0, sel, to, choice)
      && r.turn == Opponent(s.turn) && r.selected.None? && r.validMoves == []
      && r.ep == NextEp(sel, to) && r.rights == s.rights
      && White in r.inCheck && Black in r.inCheck
  {
    InValidMoves(s, to);
  }

  /** The clock after a move that goes through: reset after a pawn move or
      a capture reported to the turn change, else one more. */
  lemma ExecuteClock(s: State, sel: Placed, to: Square, choice: Promotion)
    requires Coherent(s) && s.selected == Some(sel) && to in s.validMoves
    ensures InBounds(to) && (sel.piece.kind == King ==> CastleShape(sel.sq, to))
    ensures !Prepare(s, sel, to).1 ==>
      var g2 := Prepare(s, sel, to).0;
      var captured := !PromotesOn(sel, to) && (IsEnPassant(s, sel, to) || EnemyAt(g2, to, sel.piece.color));
      Execute(s, sel, to, choice).0.clock == if sel.piece.kind == Pawn || captured then 0 else s.clock + 1
  {
    InValidMoves(s, to);
  }

  /** The check flags after a move that goes through: the side now to move
      gets its flag computed from the new board; the mover's flag is kept. */
  lemma ExecuteCheck(s: State, sel: Placed, to: Square, choice: Promotion)
    requires Coherent(s) && s.selected == Some(sel) && to in s.validMoves
    ensures !Prepare(s, sel, to).1 ==>
      var r := Execute(s, sel, to, choice).0;
      r.inCheck == s.inCheck[Opponent(s.turn) := KingInCheck(r.grid, Opponent(s.turn))]
  {
    InValidMoves(s, to);
  }

  /** The repetition table after a move that goes through: the new
      placement is counted once more. */
  lemma ExecuteCounts(s: State, sel: Placed, to: Square, choice: Promotion)
    requires Coherent(s) && s.selected == Some(sel) && to in s.validMoves
    ensures InBounds(to) && (sel.piece.kind == King ==> CastleShape(sel.sq, to))
    ensures !Prepare(s, sel, to).1 ==>
      var g2 := Prepare(s, sel, to).0;
      var captured := !PromotesOn(sel, to) && (IsEnPassant(s, sel, to) || EnemyAt(g2, to, sel.piece.color));
      Execute(s, sel, to, choice).0.counts
        == ChangeTurnSpec(s.(grid := LandGrid(g2, sel, to, choice), ep := NextEp(sel, to)), captured).counts
  {
    InValidMoves(s, to);
  }

  /** Landing never leaves an unmoved king off column 4: the moved piece is
      marked as moved and a promoted piece is never a king. */
  lemma LandHome(g: Grid, sel: Placed, to: Square, choice: Promotion)
    requires ValidGrid(g) && UnmovedKingsHome(g) && InBounds(sel.sq) && InBounds(to)
    ensures UnmovedKingsHome(LandGrid(g, sel, to, choice))
  {
    if PromotesOn(sel, to) {
      var promoted := Some(PromotedPiece(sel.piece.color, choice));
      HomeUpdate(g, Idx(to), promoted);
      HomeUpdate(g[Idx(to) := promoted], Idx(sel.sq), None);
    } else {
      var moved := Some(sel.piece.(hasMoved := true));
      HomeUpdate(g, Idx(sel.sq), None);
      HomeUpdate(g[Idx(sel.sq) := None], Idx(to), moved);
    }
  }

  /** The new en-passant target is the square a pawn's double step passed
      over, and there is none after any other move. */
  lemma NextEpProps(sel: Placed, to: Square)
    requires InBounds(sel.sq) && InBounds(to)
    ensures var ep := NextEp(sel, to);
      && (ep.Some? <==> sel.piece.kind == Pawn && Abs(to.row - sel.sq.row) == 2)
      && (ep.Some? ==> InBounds(ep.value) && 2 * ep.value.row == to.row + sel.sq.row && ep.value.col == sel.sq.col)
  {
  }

  /** Landing empties the origin and fills a destination different from
      it; no other cell changes. */
  lemma LandGridProps(g: Grid, sel: Placed, to: Square, choice: Promotion)
    requires ValidGrid(g) && InBounds(sel.sq) && InBounds(to) && to != sel.sq
    ensures var g' := LandGrid(g, sel, to, choice);
      && At(g', sel.sq).None?
      && (PromotesOn(sel, to) ==> At(g', to) == Some(Piece(PromotedKind(choice), sel.piece.color, false)))
      && (!PromotesOn(sel, to) ==> At(g', to) == Some(sel.piece.(hasMoved := true)))
      && forall i :: 0 <= i < 64 && i != Idx(to) && i != Idx(sel.sq) ==> g'[i] == g[i]
  {
  }

  /** A move is rejected exactly when the destination is not in the
      valid-move list, and then nothing changes. */
  lemma MoveRejectedIff(s: State, to: Square, choice: Promotion)
    requires Coherent(s)
    ensures MoveSpec(s, to, choice).1 == Rejected <==> to !in s.validMoves
    ensures MoveSpec(s, to, choice).1 == Rejected ==> MoveSpec(s, to, choice).0 == s
  {
  }

  /** The board right after the preparation keeps the invariant. */
  lemma PrepareCoherent(s: State, to: Square)
    requires Coherent(s) && s.selected.Some? && to in s.validMoves
    ensures InBounds(to)
    ensures UnmovedKingsHome(Prepare(s, s.selected.value, to).0)
  {
    InValidMoves(s, to);
    var sel := s.selected.value;
    var g1 := EnPassantStep(s, sel, to);
    if IsEnPassant(s, sel, to) {
      HomeUpdate(s.grid, Idx(Square(sel.sq.row, to.col)), None);
    }
    assert UnmovedKingsHome(g1);
    if sel.piece.kind == King {
      CastleRookStepHome(g1, sel.sq, to);
    }
  }

  /** Every move keeps the invariant, whatever its outcome. */
  lemma MoveCoherent(s: State, to: Square, choice: Promotion)
    requires Coherent(s)
    ensures Coherent(MoveSpec(s, to, choice).0)
  {
    if to in s.validMoves && s.selected.Some? {
      var sel := s.selected.value;
      PrepareCoherent(s, to);
      ExecuteOutcome(s, sel, to, choice);
      var p := Prepare(s, sel, to);
      if p.1 {
        ExecuteRaised(s, sel, to, choice);
        assert Coherent(s.(grid := p.0, ep := NextEp(sel, to)));
      } else {
        ExecuteMoved(s, sel, to, choice);
        LandHome(p.0, sel, to, choice);
        assert Coherent(Execute(s, sel, to, choice).0);
      }
    } else {
      assert Coherent(MoveSpec(s, to, choice).0);
    }
  }

  /** A move that goes through had a selected piece and a listed
      destination; it clears the selection and the move list and passes the
      turn. */
  lemma MoveWentThrough(s: State, to: Square, choice: Promotion)
    requires Coherent(s)
    ensures MoveSpec(s, to, choice).1 == Moved ==>
      var s' := MoveSpec(s, to, choice).0;
      && s.selected.Some? && to in s.validMoves
      && s'.selected.None? && s'.validMoves == [] && s'.turn == Opponent(s.turn)
  {
    if to in s.validMoves && s.selected.Some? {
      ExecuteMoved(s, s.selected.value, to, choice);
      ExecuteOutcome(s, s.selected.value, to, choice);
    } else {
      assert MoveSpec(s, to, choice).1 != Moved;
    }
  }

  /** A move that raises either had no selected piece or was a castling move
      whose rook corner was empty; it keeps the selection and the move list
      and does not pass the turn. */
  lemma MoveRaises(s: State, to: Square, choice: Promotion)
    requires Coherent(s)
    ensures MoveSpec(s, to, choice).1 == Raised ==>
      var s' := MoveSpec(s, to, choice).0;
      && to in s.validMoves
      && s'.selected == s.selected && s'.validMoves == s.validMoves && s'.turn == s.turn
      && (s.selected.Some? ==>
            var from := s.selected.value.sq;
            && s.selected.value.piece.kind == King && from.col == 4 && to.row == from.row
            && ((to.col == 6 && At(s.grid, Square(to.row, 7)).None?)
                || (to.col == 2 && At(s.grid, Square(to.row, 0)).None?)))
  {
    if to in s.validMoves && s.selected.Some? {
      var sel := s.selected.value;
      ExecuteOutcome(s, sel, to, choice);
      ExecuteRaised(s, sel, to, choice);
      if sel.piece.kind == King {
        CastleRookStepProps(EnPassantStep(s, sel, to), sel.sq, to);
      }
    } else if to !in s.validMoves {
      assert MoveSpec(s, to, choice).1 != Raised;
    }
  }

  /** After a move that goes through, the origin is empty and the
      destination holds the moved piece marked as moved, or, for a pawn
      reaching the last row, a new unmoved piece of the chosen kind and the
      pawn's colour. */
  lemma MovePlacesPiece(s: State, to: Square, choice: Promotion)
    requires Coherent(s)
    ensures MoveSpec(s, to, choice).1 == Moved ==>
      var g := MoveSpec(s, to, choice).0.grid;
      var sel := s.selected.value;
      && InBounds(to) && At(g, sel.sq).None?
      && (PromotesOn(sel, to) ==> At(g, to) == Some(Piece(PromotedKind(choice), sel.piece.color, false)))
      && (!PromotesOn(sel, to) ==> At(g, to) == Some(sel.piece.(hasMoved := true)))
  {
    if to in s.validMoves && s.selected.Some? {
      var sel := s.selected.value;
      ExecuteOutcome(s, sel, to, choice);
      ExecuteMoved(s, sel, to, choice);
      InValidMoves(s, to);
      LandGridProps(Prepare(s, sel, to).0, sel, to, choice);
    } else {
      assert MoveSpec(s, to, choice).1 != Moved;
    }
  }

  /** After a move that goes through, the en-passant target is set exactly
      when a pawn moved two rows, and it is then the square it passed over. */
  lemma MoveEnPassantTarget(s: State, to: Square, choice: Promotion)
    requires Coherent(s)
    ensures MoveSpec(s, to, choice).1 == Moved ==>
      var ep := MoveSpec(s, to, choice).0.ep;
      var from := s.selected.value.sq;
      && (ep.Some? <==> s.selected.value.piece.kind == Pawn && Abs(to.row - from.row) == 2)
      && (ep.Some? ==> 2 * ep.value.row == to.row + from.row && ep.value.col == from.col)
  {
    if to in s.validMoves && s.selected.Some? {
      ExecuteOutcome(s, s.selected.value, to, choice);
      ExecuteMoved(s, s.selected.value, to, choice);
      NextEpProps(s.selected.value, to);
    } else {
      assert MoveSpec(s, to, choice).1 != Moved;
    }
  }

  /** A pawn moving onto the en-passant target removes the piece beside it:
      the square on the pawn's own row and the destination's file ends up
      empty. */
  lemma MoveEnPassantCapture(s: State, to: Square, choice: Promotion)
    requires Coherent(s)
    ensures MoveSpec(s, to, choice).1 == Moved && IsEnPassant(s, s.selected.value, to) ==>
      var victim := Square(s.selected.value.sq.row, to.col);
      InBounds(victim) && At(MoveSpec(s, to, choice).0.grid, victim).None?
  {
    if to in s.validMoves && s.selected.Some? {
      var sel := s.selected.value;
      ExecuteOutcome(s, sel, to, choice);
      ExecuteMoved(s, sel, to, choice);
      InValidMoves(s, to);
      LandGridProps(Prepare(s, sel, to).0, sel, to, choice);
    } else {
      assert MoveSpec(s, to, choice).1 != Moved;
    }
  }

  /** A king's two-file move carries the rook: kingside the king goes from
      column 4 to 6 and the corner piece from column 7 to 5; queenside the
      king goes from 4 to 2 and the corner piece from 0 to 3; both are
      marked as moved and the corner and the king's origin end up empty. */
  lemma MoveCastles(s: State, to: Square, choice: Promotion)
    requires Coherent(s)
    ensures MoveSpec(s, to, choice).1 == Moved && s.selected.value.piece.kind == King
            && Abs(to.col - s.selected.value.sq.col) == 2 ==>
      var g := MoveSpec(s, to, choice).0.grid;
      var sel := s.selected.value;
      var r := sel.sq.row;
      && sel.sq.col == 4 && to.row == r
      && At(g, Square(r, 4)).None?
      && At(g, to) == Some(sel.piece.(hasMoved := true))
      && (to.col == 6 ==>
            && At(g, Square(r, 5)) == Some(At(s.grid, Square(r, 7)).value.(hasMoved := true))
            && At(g, Square(r, 7)).None?)
      && (to.col == 2 ==>
            && At(g, Square(r, 3)) == Some(At(s.grid, Square(r, 0)).value.(hasMoved := true))
            && At(g, Square(r, 0)).None?)
  {
    if to in s.validMoves && s.selected.Some? {
      var sel := s.selected.value;
      ExecuteOutcome(s, sel, to, choice);
      ExecuteMoved(s, sel, to, choice);
      InValidMoves(s, to);
      LandGridProps(Prepare(s, sel, to).0, sel, to, choice);
      if sel.piece.kind == King {
        CastleRookStepProps(s.grid, sel.sq, to);
      }
    } else {
      assert MoveSpec(s, to, choice).1 != Moved;
    }
  }

  /** The cells a move may write: origin, destination, the en-passant
      victim, and the two rook cells of a castling move. */
  predicate Touched(s: State, to: Square, i: int)
    requires s.selected.Some? && InBounds(s.selected.value.sq) && InBounds(to)
  {
    var sel := s.selected.value;
    var r := sel.sq.row;
    || i == Idx(sel.sq) || i == Idx(to)
    || (IsEnPassant(s, sel, to) && i == Idx(Square(r, to.col)))
    || (sel.piece.kind == King && to.col == sel.sq.col + 2 && 0 <= to.col - 1 && to.col + 1 < 8
        && (i == Idx(Square(to.row, to.col - 1)) || i == Idx(Square(to.row, to.col + 1))))
    || (sel.piece.kind == King && to.col == sel.sq.col - 2 && 2 <= to.col && to.col + 1 < 8
        && (i == Idx(Square(to.row, to.col - 2)) || i == Idx(Square(to.row, to.col + 1))))
  }

  /** The preparation writes only the en-passant victim and the castling
      rook's two cells. */
  lemma PrepareFrame(s: State, to: Square)
    requires Coherent(s) && s.selected.Some? && to in s.validMoves
    ensures InBounds(to) && (s.selected.value.piece.kind == King ==> CastleShape(s.selected.value.sq, to))
    ensures forall i :: 0 <= i < 64 && !Touched(s, to, i) ==> Prepare(s, s.selected.value, to).0[i] == s.grid[i]
    ensures Prepare(s, s.selected.value, to).0[Idx(to)] == s.grid[Idx(to)]
  {
    InValidMoves(s, to);
    var sel := s.selected.value;
    if sel.piece.kind == King {
      CastleRookStepProps(EnPassantStep(s, sel, to), sel.sq, to);
    }
  }

  /** A move writes no other cell: everything outside the origin, the
      destination, an en-passant victim and the castling rook's two cells
      keeps its content. */
  lemma MoveFrame(s: State, to: Square, choice: Promotion)
    requires Coherent(s)
    ensures MoveSpec(s, to, choice).1 == Moved ==>
      InBounds(to) && forall i :: 0 <= i < 64 && !Touched(s, to, i) ==> MoveSpec(s, to, choice).0.grid[i] == s.grid[i]
  {
    if to in s.validMoves && s.selected.Some? {
      var sel := s.selected.value;
      ExecuteOutcome(s, sel, to, choice);
      ExecuteMoved(s, sel, to, choice);
      PrepareFrame(s, to);
    } else {
      assert MoveSpec(s, to, choice).1 != Moved;
    }
  }

  /** After a move that goes through, the clock is reset exactly when a
      pawn moved or the destination held an enemy piece (en-passant is a
      pawn move), and otherwise goes up by one. */
  lemma MoveClock(s: State, to: Square, choice: Promotion)
    requires Coherent(s)
    ensures MoveSpec(s, to, choice).1 == Moved ==>
      var clock := MoveSpec(s, to, choice).0.clock;
      var sel := s.selected.value;
      && InBounds(to)
      && (clock == 0 <==> sel.piece.kind == Pawn || EnemyAt(s.grid, to, sel.piece.color))
      && (clock != 0 ==> clock == s.clock + 1)
  {
    if to in s.validMoves && s.selected.Some? {
      var sel := s.selected.value;
      ExecuteOutcome(s, sel, to, choice);
      ExecuteClock(s, sel, to, choice);
      PrepareFrame(s, to);
    } else {
      assert MoveSpec(s, to, choice).1 != Moved;
    }
  }

  /** After a move that goes through, the count of the new placement goes
      up by one and no other count changes. */
  lemma MoveCounts(s: State, to: Square, choice: Promotion)
    requires Coherent(s)
    ensures MoveSpec(s, to, choice).1 == Moved ==>
      var s' := MoveSpec(s, to, choice).0;
      forall k :: Count(s'.counts, k) == Count(s.counts, k) + (if k == BoardState(s'.grid) then 1 else 0)
  {
    if to in s.validMoves && s.selected.Some? {
      var sel := s.selected.value;
      assert MoveSpec(s, to, choice) == Execute(s, sel, to, choice);
      ExecuteOutcome(s, sel, to, choice);
      if !Prepare(s, sel, to).1 {
        ExecuteMoved(s, sel, to, choice);
        ExecuteCounts(s, sel, to, choice);
        var g2 := Prepare(s, sel, to).0;
        ChangeTurnCounts(s.(grid := LandGrid(g2, sel, to, choice), ep := NextEp(sel, to)),
                         !PromotesOn(sel, to) && (IsEnPassant(s, sel, to) || EnemyAt(g2, to, sel.piece.color)));
      }
    } else {
      assert MoveSpec(s, to, choice).1 != Moved;
    }
  }

  /** After a move that goes through, the side now to move has its check
      flag computed from the new board, and the mover's flag is left as it
      was. */
  lemma MoveCheckFlags(s: State, to: Square, choice: Promotion)
    requires Coherent(s)
    ensures MoveSpec(s, to, choice).1 == Moved ==>
      var s' := MoveSpec(s, to, choice).0;
      && White in s'.inCheck && Black in s'.inCheck
      && CheckFlag(s', s'.turn) == KingInCheck(s'.grid, s'.turn)
      && CheckFlag(s', s.turn) == CheckFlag(s, s.turn)
  {
    if to in s.validMoves && s.selected.Some? {
      ExecuteOutcome(s, s.selected.value, to, choice);
      ExecuteMoved(s, s.selected.value, to, choice);
      ExecuteCheck(s, s.selected.value, to, choice);
    } else {
      assert MoveSpec(s, to, choice).1 != Moved;
    }
  }
}
