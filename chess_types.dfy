/** Basic vocabulary of the chess rule engine: colours, piece kinds, pieces,
    squares and the 8x8 grid, stored row-major in 64 cells. */
module ChessTypes {

  datatype Option<+T> = None | Some(value: T)

  datatype Color = White | Black

  function Opponent(c: Color): (o: Color)
    ensures o != c
  {
    if c == White then Black else White
  }

  /** The lower-case colour word the source stores ('white' / 'black'). */
  function ColorName(c: Color): string
  {
    if c == White then "white" else "black"
  }

  datatype Kind = Pawn | Knight | Bishop | Rook | Queen | King

  /** The lower-case kind word used in piece names ('white_knight'). */
  function KindName(k: Kind): string
  {
    match k
    case Pawn => "pawn"
    case Knight => "knight"
    case Bishop => "bishop"
    case Rook => "rook"
    case Queen => "queen"
    case King => "king"
  }

  /** The name of the piece's class ('Knight'). */
  function ClassName(k: Kind): string
  {
    match k
    case Pawn => "Pawn"
    case Knight => "Knight"
    case Bishop => "Bishop"
    case Rook => "Rook"
    case Queen => "Queen"
    case King => "King"
  }

  /** A piece: its kind, its colour and whether it has moved. Its row and
      column are those of the cell that holds it. */
  datatype Piece = Piece(kind: Kind, color: Color, hasMoved: bool)

  /** The name a piece is created with: colour, underscore, kind. */
  function Name(p: Piece): (n: string)
    ensures |n| >= 1 && n[0] == ColorName(p.color)[0]
  {
    ColorName(p.color) + "_" + KindName(p.kind)
  }

  /** A (row, col) pair; row 0 is Black's back rank, row 7 White's. */
  datatype Square = Square(row: int, col: int)

  /** A piece together with the row and column it records for itself. */
  datatype Placed = Placed(piece: Piece, sq: Square)

  /** The four pieces a pawn can be promoted to. */
  datatype Promotion = ToQueen | ToRook | ToBishop | ToKnight

  function PromotedKind(c: Promotion): (k: Kind)
    ensures k != King && k != Pawn
  {
    match c
    case ToQueen => Queen
    case ToRook => Rook
    case ToBishop => Bishop
    case ToKnight => Knight
  }

  const ROWS: int := 8
  const COLS: int := 8

  predicate InBounds(s: Square)
  {
    0 <= s.row < ROWS && 0 <= s.col < COLS
  }

  /** The board: 64 cells, row-major, each empty or holding one piece. */
  type Grid = seq<Option<Piece>>

  predicate ValidGrid(g: Grid)
  {
    |g| == 64
  }

  function Idx(s: Square): (i: nat)
    requires InBounds(s)
    ensures i < 64
  {
    8 * s.row + s.col
  }

  /** The square of cell i, counted off eight cells per row: row i / 8 and
      column i % 8 (IdxDivMod). Written as a recursion so that proofs about
      the row-major scans do not unfold division at every cell. */
  function SquareOf(i: nat): (s: Square)
    requires i < 64
    ensures InBounds(s) && Idx(s) == i
  {
    if i < 8 then Square(0, i) else var above := SquareOf(i - 8); Square(above.row + 1, above.col)
  }

  /** The column and row of a cell, by remainder and quotient. */
  lemma IdxDivMod(s: Square)
    requires InBounds(s)
    ensures Idx(s) % 8 == s.col && Idx(s) / 8 == s.row
  {
  }

  lemma OpponentInvolutive(c: Color)
    ensures Opponent(Opponent(c)) == c
  {
  }

  lemma IdxInjective(s: Square, t: Square)
    requires InBounds(s) && InBounds(t) && Idx(s) == Idx(t)
    ensures s == t
  {
  }

  lemma SquareOfIdx(s: Square)
    requires InBounds(s)
    ensures SquareOf(Idx(s)) == s
  {
    IdxInjective(SquareOf(Idx(s)), s);
  }

  function At(g: Grid, s: Square): Option<Piece>
    requires ValidGrid(g) && InBounds(s)
  {
    g[Idx(s)]
  }

  predicate EmptyAt(g: Grid, s: Square)
    requires ValidGrid(g) && InBounds(s)
  {
    At(g, s).None?
  }

  /** The square holds a piece of the other colour. */
  predicate EnemyAt(g: Grid, s: Square, c: Color)
    requires ValidGrid(g) && InBounds(s)
  {
    At(g, s).Some? && At(g, s).value.color != c
  }

  /** The square holds a piece of colour c. */
  predicate OwnAt(g: Grid, s: Square, c: Color)
    requires ValidGrid(g) && InBounds(s)
  {
    At(g, s).Some? && At(g, s).value.color == c
  }

  datatype Side = Kingside | Queenside

  /** castle_rights: colour x side -> bool. */
  datatype CastleRights = CastleRights(whiteKingside: bool, whiteQueenside: bool,
                                       blackKingside: bool, blackQueenside: bool)

  function Allows(r: CastleRights, c: Color, side: Side): bool
  {
    match (c, side)
    case (White, Kingside) => r.whiteKingside
    case (White, Queenside) => r.whiteQueenside
    case (Black, Kingside) => r.blackKingside
    case (Black, Queenside) => r.blackQueenside
  }

  const AllRights: CastleRights := CastleRights(true, true, true, true)

  function Abs(x: int): (r: nat)
    ensures r == x || r == -x
  {
    if x < 0 then -x else x
  }
}
