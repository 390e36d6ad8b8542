/** Check detection and the legality filter: a move is kept when, after
    lifting the piece off its square and putting it on the destination, the
    mover's king is not attacked by any enemy piece's pseudo-legal moves. */
module Legality {
  import opened ChessTypes
  import opened PieceMoves

  predicate KingOfAt(g: Grid, j: int, c: Color)
    requires ValidGrid(g) && 0 <= j < 64
  {
    g[j].Some? && g[j].value.kind == King && g[j].value.color == c
  }

  /** Cell k holds a king of colour c and no earlier cell (in row-major
      order) does: the king the row-by-row scan stops at. */
  predicate IsFirstKing(g: Grid, c: Color, k: int)
    requires ValidGrid(g) && 0 <= k < 64
  {
    KingOfAt(g, k, c) && forall j :: 0 <= j < k ==> !KingOfAt(g, j, c)
  }

  /** The piece in cell j is an enemy of colour c whose pseudo-legal moves
      (no en-passant target, no castling rights) include `target`. */
  predicate AttacksFrom(g: Grid, c: Color, target: Square, j: int)
    requires ValidGrid(g) && 0 <= j < 64
  {
    g[j].Some? && g[j].value.color != c
    && target in PseudoMoves(g, SquareOf(j), g[j].value, None, None)
  }

  /** Some enemy piece of colour c attacks `target`. */
  predicate Attacked(g: Grid, c: Color, target: Square)
    requires ValidGrid(g)
  {
    exists j :: 0 <= j < 64 && AttacksFrom(g, c, target, j)
  }

  /** The king of colour c (the first one found) is attacked; a side without
      a king is never in check. */
  predicate KingInCheck(g: Grid, c: Color)
    requires ValidGrid(g)
  {
    exists k :: 0 <= k < 64 && IsFirstKing(g, c, k) && Attacked(g, c, SquareOf(k))
  }

  /** The board as the check test sees it during a trial move: the piece's
      own cell emptied and the piece written to the destination. */
  function Simulate(g: Grid, pl: Placed, to: Square): Grid
    requires ValidGrid(g) && InBounds(pl.sq) && InBounds(to)
  {
    g[Idx(pl.sq) := None][Idx(to) := Some(pl.piece)]
  }

  predicate InCheckAfterMove(g: Grid, pl: Placed, to: Square)
    requires ValidGrid(g) && InBounds(pl.sq) && InBounds(to)
  {
    KingInCheck(Simulate(g, pl, to), pl.piece.color)
  }

  predicate AllInBounds(ms: seq<Square>)
  {
    forall k :: 0 <= k < |ms| ==> InBounds(ms[k])
  }

  /** The moves of ms, in order, after which the mover is not in check. */
  function LegalFilter(g: Grid, pl: Placed, ms: seq<Square>): seq<Square>
    requires ValidGrid(g) && InBounds(pl.sq) && AllInBounds(ms)
    decreases |ms|
  {
    if ms == [] then []
    else
      var last := ms[|ms| - 1];
      LegalFilter(g, pl, ms[..|ms| - 1])
      + (if InCheckAfterMove(g, pl, last) then [] else [last])
  }

  /** The legal destinations of the placed piece: its pseudo-legal moves
      that do not leave its own king attacked. */
  function LegalMoves(g: Grid, pl: Placed, ep: Option<Square>, rights: Option<CastleRights>): seq<Square>
    requires ValidGrid(g) && InBounds(pl.sq) && ContextOk(pl.sq, pl.piece, rights)
    requires ep.Some? ==> InBounds(ep.value)
  {
    PseudoInBounds(g, pl.sq, pl.piece, ep, rights);
    LegalFilter(g, pl, PseudoMoves(g, pl.sq, pl.piece, ep, rights))
  }

  /** Some piece of colour c has a legal move (computed as the game-over
      tests do: no en-passant target, no castling rights). */
  predicate SideCanMove(g: Grid, c: Color)
    requires ValidGrid(g)
  {
    exists j :: 0 <= j < 64 && Movable(g, c, j)
  }

  /** Cell j holds a piece of colour c with at least one legal move. */
  predicate Movable(g: Grid, c: Color, j: int)
    requires ValidGrid(g) && 0 <= j < 64
  {
    g[j].Some? && g[j].value.color == c
    && |LegalMoves(g, Placed(g[j].value, SquareOf(j)), None, None)| > 0
  }

  // ------------------------------------------------------------------
  // Properties

  /** The scan finds at most one king: the first king of a colour is
      unique. */
  lemma FirstKingUnique(g: Grid, c: Color, k: int, k': int)
    requires ValidGrid(g) && 0 <= k < 64 && 0 <= k' < 64
    requires IsFirstKing(g, c, k) && IsFirstKing(g, c, k')
    ensures k == k'
  {
  }

  /** Once the scan has found the king on sq, the side is in check exactly
      when that square is attacked. */
  lemma KingInCheckAt(g: Grid, c: Color, sq: Square)
    requires ValidGrid(g) && InBounds(sq) && IsFirstKing(g, c, Idx(sq))
    ensures KingInCheck(g, c) <==> Attacked(g, c, sq)
  {
    SquareOfIdx(sq);
    if KingInCheck(g, c) {
      var k :| 0 <= k < 64 && IsFirstKing(g, c, k) && Attacked(g, c, SquareOf(k));
      FirstKingUnique(g, c, k, Idx(sq));
    }
  }

  /** A side without a king is never in check. */
  lemma NoKingNoCheck(g: Grid, c: Color)
    requires ValidGrid(g) && forall j :: 0 <= j < 64 ==> !KingOfAt(g, j, c)
    ensures !KingInCheck(g, c)
  {
  }

  /** The legality filter keeps exactly the moves of ms that do not leave
      the mover in check. */
  lemma {:induction false} LegalFilterIff(g: Grid, pl: Placed, ms: seq<Square>, m: Square)
    requires ValidGrid(g) && InBounds(pl.sq) && AllInBounds(ms)
    ensures m in LegalFilter(g, pl, ms) <==> m in ms && InBounds(m) && !InCheckAfterMove(g, pl, m)
    decreases |ms|
  {
    if ms != [] {
      var init := ms[..|ms| - 1];
      LegalFilterIff(g, pl, init, m);
      assert ms == init + [ms[|ms| - 1]];
    }
  }

  lemma {:induction false} LegalFilterAllInBounds(g: Grid, pl: Placed, ms: seq<Square>)
    requires ValidGrid(g) && InBounds(pl.sq) && AllInBounds(ms)
    ensures AllInBounds(LegalFilter(g, pl, ms)) && |LegalFilter(g, pl, ms)| <= |ms|
    decreases |ms|
  {
    if ms != [] {
      LegalFilterAllInBounds(g, pl, ms[..|ms| - 1]);
    }
  }

  /** Filtering a second time changes nothing: the source filters the
      selected piece's moves twice. */
  lemma {:induction false} LegalFilterIdempotent(g: Grid, pl: Placed, ms: seq<Square>)
    requires ValidGrid(g) && InBounds(pl.sq) && AllInBounds(ms)
    ensures AllInBounds(LegalFilter(g, pl, ms))
    ensures LegalFilter(g, pl, LegalFilter(g, pl, ms)) == LegalFilter(g, pl, ms)
    decreases |ms|
  {
    LegalFilterAllInBounds(g, pl, ms);
    if ms != [] {
      var init := ms[..|ms| - 1];
      var last := ms[|ms| - 1];
      var fi := LegalFilter(g, pl, init);
      LegalFilterIdempotent(g, pl, init);
      assert LegalFilter(g, pl, fi) == fi;
      if !InCheckAfterMove(g, pl, last) {
        var f := fi + [last];
        assert LegalFilter(g, pl, ms) == f;
        assert f != [] && f[..|f| - 1] == fi && f[|f| - 1] == last;
        assert AllInBounds(f);
        calc {
          LegalFilter(g, pl, f);
          LegalFilter(g, pl, fi) + [last];
          fi + [last];
        }
      } else {
        assert LegalFilter(g, pl, ms) == fi;
      }
    }
  }

  /** A legal move is exactly a pseudo-legal move after which the mover's
      king is not attacked. */
  lemma LegalMovesIff(g: Grid, pl: Placed, ep: Option<Square>, rights: Option<CastleRights>, m: Square)
    requires ValidGrid(g) && InBounds(pl.sq) && ContextOk(pl.sq, pl.piece, rights)
    requires ep.Some? ==> InBounds(ep.value)
    ensures m in LegalMoves(g, pl, ep, rights) <==>
      m in PseudoMoves(g, pl.sq, pl.piece, ep, rights) && InBounds(m) && !InCheckAfterMove(g, pl, m)
  {
    PseudoInBounds(g, pl.sq, pl.piece, ep, rights);
    LegalFilterIff(g, pl, PseudoMoves(g, pl.sq, pl.piece, ep, rights), m);
  }

  lemma LegalMovesInBounds(g: Grid, pl: Placed, ep: Option<Square>, rights: Option<CastleRights>)
    requires ValidGrid(g) && InBounds(pl.sq) && ContextOk(pl.sq, pl.piece, rights)
    requires ep.Some? ==> InBounds(ep.value)
    ensures AllInBounds(LegalMoves(g, pl, ep, rights))
  {
    PseudoInBounds(g, pl.sq, pl.piece, ep, rights);
    LegalFilterAllInBounds(g, pl, PseudoMoves(g, pl.sq, pl.piece, ep, rights));
  }

  /** Filtering the legal moves a second time keeps every one of them. */
  lemma LegalMovesRefiltered(g: Grid, pl: Placed, ep: Option<Square>, rights: Option<CastleRights>)
    requires ValidGrid(g) && InBounds(pl.sq) && ContextOk(pl.sq, pl.piece, rights)
    requires ep.Some? ==> InBounds(ep.value)
    ensures AllInBounds(LegalMoves(g, pl, ep, rights))
    ensures LegalFilter(g, pl, LegalMoves(g, pl, ep, rights)) == LegalMoves(g, pl, ep, rights)
  {
    PseudoInBounds(g, pl.sq, pl.piece, ep, rights);
    LegalFilterIdempotent(g, pl, PseudoMoves(g, pl.sq, pl.piece, ep, rights));
  }
}
