/** Properties of selecting a piece with a click and of the game-end tests:
    what a selection offers, that a click either moves or re-selects, and
    how checkmate and stalemate relate. */
module SelectionProps {
  import opened ChessTypes
  import opened PieceMoves
  import opened Legality
  import opened GameState
  import opened GameStateProps

  // ------------------------------------------------------------------
  // Selection

  /** The moves offered for a piece on the board lie on the board and have
      the shape the move executor relies on: never the piece's own square, a
      pawn always changes row, a king's two-file move starts on column 4 and
      stays on its row. */
  lemma SelectionMovesShape(s: State, pl: Placed)
    requires Coherent(s) && InBounds(pl.sq) && s.grid[Idx(pl.sq)] == Some(pl.piece)
    ensures AllInBounds(SelectionMoves(s, pl)) && SelectedGeometry(pl, SelectionMoves(s, pl))
  {
    var ep := if pl.piece.kind == Pawn then s.ep else None;
    var rights := if pl.piece.kind == King then Some(s.rights) else None;
    SelectionContext(s, pl.sq);
    LegalMovesInBounds(s.grid, pl, ep, rights);
    IdxDivMod(pl.sq);
    var ms := SelectionMoves(s, pl);
    forall k | 0 <= k < |ms|
      ensures ms[k] != pl.sq
      ensures pl.piece.kind == Pawn ==> ms[k].row != pl.sq.row
      ensures pl.piece.kind == King && Abs(ms[k].col - pl.sq.col) == 2 ==>
                pl.sq.col == 4 && ms[k].row == pl.sq.row
    {
      LegalMovesIff(s.grid, pl, ep, rights, ms[k]);
      PseudoGeometry(s.grid, pl.sq, pl.piece, ep, rights, ms[k]);
    }
  }

  /** Picking keeps the invariant. */
  lemma PickCoherent(s: State, sq: Square)
    requires Coherent(s) && InBounds(sq)
    ensures Coherent(Pick(s, sq))
  {
    var cell := s.grid[Idx(sq)];
    if cell.Some? && cell.value.color == s.turn {
      SelectionMovesShape(s, Placed(cell.value, sq));
    }
  }

  /** A piece is picked exactly when the square holds a piece of the side to
      move; then it is selected with the square it stands on. Otherwise
      nothing changes. The position itself never changes. */
  lemma PickSelects(s: State, sq: Square)
    requires Coherent(s) && InBounds(sq) && s.selected.None?
    ensures var s' := Pick(s, sq);
      && (s'.selected.Some? <==> OwnAt(s.grid, sq, s.turn))
      && (OwnAt(s.grid, sq, s.turn) ==> s'.selected == Some(Placed(At(s.grid, sq).value, sq)))
      && (!OwnAt(s.grid, sq, s.turn) ==> s' == s)
      && s'.grid == s.grid && s'.turn == s.turn && s'.ep == s.ep
      && s'.counts == s.counts && s'.clock == s.clock && s'.inCheck == s.inCheck
  {
  }

  /** A destination is offered for the picked piece exactly when the
      piece's movement pattern allows it (a pawn sees the en-passant target,
      a king the castling rights) and the move does not leave the mover's
      king attacked. */
  lemma PickMovesIff(s: State, sq: Square, m: Square)
    requires Coherent(s) && InBounds(sq) && s.selected.None? && OwnAt(s.grid, sq, s.turn)
    ensures var p := At(s.grid, sq).value;
      var ep := if p.kind == Pawn then s.ep else None;
      var rights := if p.kind == King then Some(s.rights) else None;
      && ContextOk(sq, p, rights)
      && (m in Pick(s, sq).validMoves <==>
            m in PseudoMoves(s.grid, sq, p, ep, rights) && InBounds(m)
            && !InCheckAfterMove(s.grid, Placed(p, sq), m))
  {
    var p := At(s.grid, sq).value;
    var ep := if p.kind == Pawn then s.ep else None;
    var rights := if p.kind == King then Some(s.rights) else None;
    SelectionContext(s, sq);
    LegalMovesIff(s.grid, Placed(p, sq), ep, rights, m);
  }

  /** Every click keeps the invariant. */
  lemma SelectCoherent(s: State, sq: Square, choice: Promotion)
    requires Coherent(s) && InBounds(sq)
    ensures Coherent(SelectSpec(s, sq, choice).0)
    decreases if s.selected.Some? then 1 else 0
  {
    if s.selected.Some? {
      MoveCoherent(s, sq, choice);
      if MoveSpec(s, sq, choice).1 == Rejected {
        SelectCoherent(s.(selected := None), sq, choice);
      }
    } else {
      PickCoherent(s, sq);
    }
  }

  /** A click passes the turn or raises exactly when a piece was selected
      and the square is one of its listed destinations. Otherwise it only
      re-selects: the position, the side to move, the en-passant target, the
      repetition table and the clock stay as they were. */
  lemma SelectMovesOrPicks(s: State, sq: Square, choice: Promotion)
    requires Coherent(s) && InBounds(sq)
    ensures var (s', raised) := SelectSpec(s, sq, choice);
      && (s'.turn != s.turn || raised <==> s.selected.Some? && sq in s.validMoves)
      && (s'.turn == s.turn && !raised ==>
            s'.grid == s.grid && s'.ep == s.ep && s'.counts == s.counts && s'.clock == s.clock)
  {
    if s.selected.Some? {
      MoveRejectedIff(s, sq, choice);
      MoveWentThrough(s, sq, choice);
      MoveRaises(s, sq, choice);
      if sq !in s.validMoves {
        PickSelects(s.(selected := None), sq);
      }
    } else {
      PickSelects(s, sq);
    }
  }

  // ------------------------------------------------------------------
  // Game end

  /** Checkmate and stalemate never hold together; both say that the side
      to move has no piece with a legal move, and they differ only in the
      stored check flag. */
  lemma CheckmateStalemateExclusive(s: State)
    requires Coherent(s)
    ensures !(CheckmateSpec(s) && StalemateSpec(s))
    ensures CheckmateSpec(s) || StalemateSpec(s) <==>
      forall j :: 0 <= j < 64 ==> !Movable(s.grid, s.turn, j)
  {
  }

  /** In checkmate (and in stalemate) no piece of the side to move has a
      legal move, counted without en-passant and castling. */
  lemma GameOverNoMoves(s: State, sq: Square)
    requires Coherent(s) && InBounds(sq) && (CheckmateSpec(s) || StalemateSpec(s))
    requires OwnAt(s.grid, sq, s.turn)
    ensures LegalMoves(s.grid, Placed(At(s.grid, sq).value, sq), None, None) == []
  {
    assert !Movable(s.grid, s.turn, Idx(sq));
    assert SquareOf(Idx(sq)) == sq;
  }
}
