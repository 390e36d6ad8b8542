/** Pseudo-legal move generation, one generator per piece kind: the
    destinations a piece may reach by its movement pattern and the occupancy
    of the board, without regard to its own king. Each generator lists the
    destinations in the order the source appends them. */
module PieceMoves {
  import opened ChessTypes

  /** A direction or a jump, as (row step, col step). */
  datatype Offset = Offset(dr: int, dc: int)

  /** The square k steps from `from` in direction d (AlongClosed gives its
      coordinates, from + k * d). */
  function Along(from: Square, d: Offset, k: nat): Square
  {
    if k == 0 then from else Shift(Along(from, d, k - 1), d)
  }

  function Shift(from: Square, d: Offset): Square
  {
    Square(from.row + d.dr, from.col + d.dc)
  }

  const RookDirs: seq<Offset> := [Offset(-1, 0), Offset(1, 0), Offset(0, -1), Offset(0, 1)]
  const BishopDirs: seq<Offset> := [Offset(-1, -1), Offset(-1, 1), Offset(1, -1), Offset(1, 1)]
  const QueenDirs: seq<Offset> := [Offset(-1, 0), Offset(1, 0), Offset(0, -1), Offset(0, 1),
                                   Offset(-1, -1), Offset(-1, 1), Offset(1, -1), Offset(1, 1)]
  const KingDirs: seq<Offset> := [Offset(-1, 0), Offset(1, 0), Offset(0, -1), Offset(0, 1),
                                  Offset(-1, -1), Offset(-1, 1), Offset(1, -1), Offset(1, 1)]
  const KnightSteps: seq<Offset> := [Offset(-2, -1), Offset(-2, 1), Offset(-1, -2), Offset(-1, 2),
                                     Offset(1, -2), Offset(1, 2), Offset(2, -1), Offset(2, 1)]
  /** The two files a pawn captures on, relative to its own. */
  const PawnCaptureCols: seq<int> := [-1, 1]

  /** The row step of a pawn: White moves up the board (towards row 0). */
  function Forward(c: Color): int
  {
    if c == White then -1 else 1
  }

  function StartRow(c: Color): int
  {
    if c == White then 6 else 1
  }

  // ------------------------------------------------------------------
  // Pawn

  /** The single push, followed by the double push from the start row. */
  function PawnPushes(g: Grid, from: Square, c: Color): seq<Square>
    requires ValidGrid(g) && InBounds(from)
  {
    var ahead := Square(from.row + Forward(c), from.col);
    if InBounds(ahead) && EmptyAt(g, ahead) then
      var two := Square(from.row + 2 * Forward(c), from.col);
      [ahead] + (if from.row == StartRow(c) && EmptyAt(g, two) then [two] else [])
    else []
  }

  /** The diagonal capture towards file col+dx, when an enemy piece is there. */
  function PawnCapture(g: Grid, from: Square, c: Color, dx: int): seq<Square>
    requires ValidGrid(g) && InBounds(from)
  {
    var t := Square(from.row + Forward(c), from.col + dx);
    if 0 <= t.col < COLS && 0 <= t.row < ROWS && EnemyAt(g, t, c) then [t] else []
  }

  function PawnCaptures(g: Grid, from: Square, c: Color, dxs: seq<int>): seq<Square>
    requires ValidGrid(g) && InBounds(from)
    decreases |dxs|
  {
    if dxs == [] then []
    else PawnCaptures(g, from, c, dxs[..|dxs| - 1]) + PawnCapture(g, from, c, dxs[|dxs| - 1])
  }

  /** The en-passant target, when it lies one row ahead on an adjacent file.
      Whether the target square is empty is not looked at. */
  function EnPassantMove(from: Square, c: Color, ep: Option<Square>): seq<Square>
  {
    if ep.Some? && Abs(ep.value.col - from.col) == 1 && from.row + Forward(c) == ep.value.row
    then [ep.value] else []
  }

  /** PawnCaptures over a prefix grows by one file at a time. */
  lemma PawnCapturesSnoc(g: Grid, from: Square, c: Color, dxs: seq<int>, i: int)
    requires ValidGrid(g) && InBounds(from) && 0 <= i < |dxs|
    ensures PawnCaptures(g, from, c, dxs[..i + 1])
            == PawnCaptures(g, from, c, dxs[..i]) + PawnCapture(g, from, c, dxs[i])
  {
    assert dxs[..i + 1][..i] == dxs[..i];
  }

  function PawnMoves(g: Grid, from: Square, c: Color, ep: Option<Square>): seq<Square>
    requires ValidGrid(g) && InBounds(from)
  {
    PawnPushes(g, from, c) + PawnCaptures(g, from, c, PawnCaptureCols) + EnPassantMove(from, c, ep)
  }

  // ------------------------------------------------------------------
  // Knight and king steps

  /** One jump: kept when it lands on the board on an empty or enemy square. */
  function Jump(g: Grid, from: Square, c: Color, s: Offset): seq<Square>
    requires ValidGrid(g)
  {
    var t := Shift(from, s);
    if InBounds(t) && (EmptyAt(g, t) || EnemyAt(g, t, c)) then [t] else []
  }

  function Jumps(g: Grid, from: Square, c: Color, steps: seq<Offset>): seq<Square>
    requires ValidGrid(g)
    decreases |steps|
  {
    if steps == [] then []
    else Jumps(g, from, c, steps[..|steps| - 1]) + Jump(g, from, c, steps[|steps| - 1])
  }

  // ------------------------------------------------------------------
  // Sliding pieces

  /** The ray in direction d from step i on (the source tries steps 1..7):
      empty squares are kept and the ray goes on; the first occupied square
      is kept if it holds an enemy piece, and the ray stops there; the ray
      also stops at the edge of the board. */
  function Ray(g: Grid, c: Color, from: Square, d: Offset, i: int): seq<Square>
    requires ValidGrid(g) && 1 <= i
    decreases ROWS - i
  {
    if i >= ROWS then []
    else
      var t := Along(from, d, i);
      if !InBounds(t) then []
      else if EmptyAt(g, t) then [t] + Ray(g, c, from, d, i + 1)
      else if EnemyAt(g, t, c) then [t]
      else []
  }

  /** Walking a ray step by step: with `done` the squares kept before
      step i, an empty square on step i is kept and the walk goes on. */
  lemma RayWalkEmpty(g: Grid, c: Color, from: Square, d: Offset, i: int, done: seq<Square>)
    requires ValidGrid(g) && 1 <= i < ROWS && done + Ray(g, c, from, d, i) == Ray(g, c, from, d, 1)
    requires InBounds(Along(from, d, i)) && EmptyAt(g, Along(from, d, i))
    ensures (done + [Along(from, d, i)]) + Ray(g, c, from, d, i + 1) == Ray(g, c, from, d, 1)
  {
    assert (done + [Along(from, d, i)]) + Ray(g, c, from, d, i + 1)
        == done + ([Along(from, d, i)] + Ray(g, c, from, d, i + 1));
  }

  /** An enemy piece on step i is kept and ends the walk. */
  lemma RayWalkEnemy(g: Grid, c: Color, from: Square, d: Offset, i: int, done: seq<Square>)
    requires ValidGrid(g) && 1 <= i < ROWS && done + Ray(g, c, from, d, i) == Ray(g, c, from, d, 1)
    requires InBounds(Along(from, d, i)) && EnemyAt(g, Along(from, d, i), c)
    ensures done + [Along(from, d, i)] == Ray(g, c, from, d, 1)
  {
  }

  /** An own piece on step i, the edge of the board, or the end of the
      seven steps ends the walk without adding anything. */
  lemma RayWalkStop(g: Grid, c: Color, from: Square, d: Offset, i: int, done: seq<Square>)
    requires ValidGrid(g) && 1 <= i && done + Ray(g, c, from, d, i) == Ray(g, c, from, d, 1)
    requires i >= ROWS || !InBounds(Along(from, d, i)) || OwnAt(g, Along(from, d, i), c)
    ensures done == Ray(g, c, from, d, 1)
  {
    assert Ray(g, c, from, d, i) == [];
  }

  function Rays(g: Grid, c: Color, from: Square, dirs: seq<Offset>): seq<Square>
    requires ValidGrid(g)
    decreases |dirs|
  {
    if dirs == [] then []
    else Rays(g, c, from, dirs[..|dirs| - 1]) + Ray(g, c, from, dirs[|dirs| - 1], 1)
  }

  // ------------------------------------------------------------------
  // King

  /** The cells the castling test reads lie on the board. The board keeps
      every unmoved king on column 4, so this holds whenever rights are given. */
  predicate CastleReady(from: Square, p: Piece, rights: Option<CastleRights>)
  {
    !p.hasMoved && rights.Some? ==> 3 <= from.col <= 5
  }

  /** Castling candidates: only the king's own has-moved flag, the rights
      table and the emptiness of the squares between king and rook are
      looked at; no square is tested for attack. */
  function Castling(g: Grid, from: Square, p: Piece, rights: Option<CastleRights>): seq<Square>
    requires ValidGrid(g) && InBounds(from) && CastleReady(from, p, rights)
  {
    if p.hasMoved || rights.None? then []
    else
      var row := from.row;
      (if Allows(rights.value, p.color, Kingside)
          && EmptyAt(g, Square(row, from.col + 1)) && EmptyAt(g, Square(row, from.col + 2))
       then [Square(row, from.col + 2)] else [])
      + (if Allows(rights.value, p.color, Queenside)
            && EmptyAt(g, Square(row, from.col - 1)) && EmptyAt(g, Square(row, from.col - 2))
            && EmptyAt(g, Square(row, from.col - 3))
         then [Square(row, from.col - 2)] else [])
  }

  function KingMoves(g: Grid, from: Square, p: Piece, rights: Option<CastleRights>): seq<Square>
    requires ValidGrid(g) && InBounds(from) && CastleReady(from, p, rights)
  {
    Jumps(g, from, p.color, KingDirs) + Castling(g, from, p, rights)
  }

  predicate ContextOk(from: Square, p: Piece, rights: Option<CastleRights>)
  {
    p.kind == King ==> CastleReady(from, p, rights)
  }

  /** The pseudo-legal destinations of piece p standing on `from`. The
      en-passant target is only used by pawns and the castling rights only
      by kings. */
  function PseudoMoves(g: Grid, from: Square, p: Piece, ep: Option<Square>,
                       rights: Option<CastleRights>): seq<Square>
    requires ValidGrid(g) && InBounds(from) && ContextOk(from, p, rights)
  {
    match p.kind
    case Pawn => PawnMoves(g, from, p.color, ep)
    case Knight => Jumps(g, from, p.color, KnightSteps)
    case Bishop => Rays(g, p.color, from, BishopDirs)
    case Rook => Rays(g, p.color, from, RookDirs)
    case Queen => Rays(g, p.color, from, QueenDirs)
    case King => KingMoves(g, from, p, rights)
  }

  // ------------------------------------------------------------------
  // Properties

  /** Steps i..k-1 of direction d from `from` are all on the board and
      empty. */
  predicate ClearBetween(g: Grid, from: Square, d: Offset, i: nat, k: nat)
    requires ValidGrid(g)
  {
    forall j :: i <= j < k ==> InBounds(Along(from, d, j)) && EmptyAt(g, Along(from, d, j))
  }

  /** Every square of a ray is some step k from i on, on the board and not
      friendly, with every step before it empty. */
  lemma {:induction false} RaySound(g: Grid, c: Color, from: Square, d: Offset, i: int, m: Square)
    requires ValidGrid(g) && 1 <= i && m in Ray(g, c, from, d, i)
    ensures InBounds(m) && !OwnAt(g, m, c)
    ensures exists k :: i <= k < ROWS && m == Along(from, d, k) && ClearBetween(g, from, d, i, k)
    decreases ROWS - i
  {
    var t := Along(from, d, i);
    if m != t {
      RaySound(g, c, from, d, i + 1, m);
      var k :| i + 1 <= k < ROWS && m == Along(from, d, k) && ClearBetween(g, from, d, i + 1, k);
      assert ClearBetween(g, from, d, i, k);
    } else {
      assert ClearBetween(g, from, d, i, i);
    }
  }

  /** Conversely, a square k steps out, on the board and not friendly, with
      every step from i up to it empty, is on the ray. */
  lemma {:induction false} RayComplete(g: Grid, c: Color, from: Square, d: Offset, i: int, k: int)
    requires ValidGrid(g) && 1 <= i <= k < ROWS && ClearBetween(g, from, d, i, k)
    requires InBounds(Along(from, d, k)) && !OwnAt(g, Along(from, d, k), c)
    ensures Along(from, d, k) in Ray(g, c, from, d, i)
    decreases k - i
  {
    if i < k {
      RayComplete(g, c, from, d, i + 1, k);
    }
  }

  /** Every square a rook, bishop or queen generates lies on one of its
      direction rays, k steps out for some k in 1..7, on the board and not
      friendly, and every square before it on that ray is empty. */
  lemma {:induction false} RaysSound(g: Grid, c: Color, from: Square, dirs: seq<Offset>, m: Square)
    requires ValidGrid(g) && m in Rays(g, c, from, dirs)
    ensures InBounds(m) && !OwnAt(g, m, c)
    ensures exists d, k :: d in dirs && 1 <= k < ROWS && m == Along(from, d, k) && ClearBetween(g, from, d, 1, k)
    decreases |dirs|
  {
    var n := |dirs|;
    var init := dirs[..n - 1];
    if m in Rays(g, c, from, init) {
      RaysSound(g, c, from, init, m);
      var d, k :| d in init && 1 <= k < ROWS && m == Along(from, d, k) && ClearBetween(g, from, d, 1, k);
      assert d in dirs;
    } else {
      var d := dirs[n - 1];
      RaySound(g, c, from, d, 1, m);
      var k :| 1 <= k < ROWS && m == Along(from, d, k) && ClearBetween(g, from, d, 1, k);
      assert d in dirs;
    }
  }

  /** Every such square is generated: the rays miss nothing. */
  lemma {:induction false} RaysComplete(g: Grid, c: Color, from: Square, dirs: seq<Offset>, d: Offset, k: int)
    requires ValidGrid(g) && d in dirs && 1 <= k < ROWS && ClearBetween(g, from, d, 1, k)
    requires InBounds(Along(from, d, k)) && !OwnAt(g, Along(from, d, k), c)
    ensures Along(from, d, k) in Rays(g, c, from, dirs)
    decreases |dirs|
  {
    var n := |dirs|;
    var init := dirs[..n - 1];
    if d == dirs[n - 1] {
      RayComplete(g, c, from, d, 1, k);
    } else {
      assert d in init;
      RaysComplete(g, c, from, init, d, k);
    }
  }

  /** A knight jump or king step reaches exactly the in-bounds, non-friendly
      squares one offset away. */
  lemma {:induction false} JumpsIff(g: Grid, from: Square, c: Color, steps: seq<Offset>, m: Square)
    requires ValidGrid(g)
    ensures m in Jumps(g, from, c, steps) <==>
      InBounds(m) && !OwnAt(g, m, c) && exists s :: s in steps && m == Shift(from, s)
    decreases |steps|
  {
    if steps != [] {
      var n := |steps|;
      var init := steps[..n - 1];
      JumpsIff(g, from, c, init, m);
      assert steps == init + [steps[n - 1]];
      if InBounds(m) && !OwnAt(g, m, c) && exists s :: s in steps && m == Shift(from, s) {
        var s :| s in steps && m == Shift(from, s);
        if s !in init {
          assert s == steps[n - 1];
        }
      }
    }
  }

  lemma KingStepNear(g: Grid, from: Square, c: Color, m: Square)
    requires ValidGrid(g) && m in Jumps(g, from, c, KingDirs)
    ensures InBounds(m) && !OwnAt(g, m, c)
    ensures Abs(m.row - from.row) <= 1 && Abs(m.col - from.col) <= 1 && m != from
  {
    JumpsIff(g, from, c, KingDirs, m);
  }

  lemma KnightStepShape(g: Grid, from: Square, c: Color, m: Square)
    requires ValidGrid(g) && m in Jumps(g, from, c, KnightSteps)
    ensures InBounds(m) && !OwnAt(g, m, c)
    ensures (Abs(m.row - from.row) == 1 && Abs(m.col - from.col) == 2)
         || (Abs(m.row - from.row) == 2 && Abs(m.col - from.col) == 1)
  {
    JumpsIff(g, from, c, KnightSteps, m);
  }

  /** The kingside castling destination (two files right) is generated iff
      the king has not moved, rights are given and allow it, and the two
      squares between king and rook are empty. */
  lemma KingsideCastleIff(g: Grid, from: Square, p: Piece, rights: Option<CastleRights>)
    requires ValidGrid(g) && InBounds(from) && CastleReady(from, p, rights)
    ensures Square(from.row, from.col + 2) in KingMoves(g, from, p, rights) <==>
      !p.hasMoved && rights.Some? && Allows(rights.value, p.color, Kingside)
      && EmptyAt(g, Square(from.row, from.col + 1)) && EmptyAt(g, Square(from.row, from.col + 2))
  {
    var m := Square(from.row, from.col + 2);
    if m in Jumps(g, from, p.color, KingDirs) {
      KingStepNear(g, from, p.color, m);
    }
  }

  /** The queenside castling destination (two files left) is generated iff
      the king has not moved, rights are given and allow it, and the three
      squares between king and rook are empty. */
  lemma QueensideCastleIff(g: Grid, from: Square, p: Piece, rights: Option<CastleRights>)
    requires ValidGrid(g) && InBounds(from) && CastleReady(from, p, rights)
    ensures Square(from.row, from.col - 2) in KingMoves(g, from, p, rights) <==>
      !p.hasMoved && rights.Some? && Allows(rights.value, p.color, Queenside)
      && EmptyAt(g, Square(from.row, from.col - 1)) && EmptyAt(g, Square(from.row, from.col - 2))
      && EmptyAt(g, Square(from.row, from.col - 3))
  {
    var m := Square(from.row, from.col - 2);
    if m in Jumps(g, from, p.color, KingDirs) {
      KingStepNear(g, from, p.color, m);
    }
  }

  /** Every king destination is a step to a neighbouring non-friendly square
      or a castling destination two files over on the king's row, which
      needs an unmoved king and given rights. */
  lemma KingMovesShape(g: Grid, from: Square, p: Piece, rights: Option<CastleRights>, m: Square)
    requires ValidGrid(g) && InBounds(from) && CastleReady(from, p, rights)
    requires m in KingMoves(g, from, p, rights)
    ensures InBounds(m)
    ensures (Abs(m.row - from.row) <= 1 && Abs(m.col - from.col) <= 1 && m != from && !OwnAt(g, m, p.color))
         || (!p.hasMoved && rights.Some? && m.row == from.row
             && (m.col == from.col + 2 || m.col == from.col - 2))
  {
    if m in Jumps(g, from, p.color, KingDirs) {
      KingStepNear(g, from, p.color, m);
    }
  }

  lemma PawnCapturesUnfold(g: Grid, from: Square, c: Color)
    requires ValidGrid(g) && InBounds(from)
    ensures PawnCaptures(g, from, c, PawnCaptureCols)
         == PawnCapture(g, from, c, -1) + PawnCapture(g, from, c, 1)
  {
    assert PawnCaptureCols[..1] == [-1];
    assert [-1][..0] == [];
  }

  lemma PawnPushesIff(g: Grid, from: Square, c: Color, m: Square)
    requires ValidGrid(g) && InBounds(from)
    ensures m in PawnPushes(g, from, c) <==>
      || (m == Square(from.row + Forward(c), from.col) && InBounds(m) && EmptyAt(g, m))
      || (from.row == StartRow(c) && m == Square(from.row + 2 * Forward(c), from.col)
          && EmptyAt(g, Square(from.row + Forward(c), from.col)) && EmptyAt(g, m))
  {
  }

  lemma PawnCaptureIff(g: Grid, from: Square, c: Color, dx: int, m: Square)
    requires ValidGrid(g) && InBounds(from)
    ensures m in PawnCapture(g, from, c, dx) <==>
      m == Square(from.row + Forward(c), from.col + dx) && InBounds(m) && EnemyAt(g, m, c)
  {
  }

  lemma PawnCapturesIff(g: Grid, from: Square, c: Color, m: Square)
    requires ValidGrid(g) && InBounds(from)
    ensures m in PawnCaptures(g, from, c, PawnCaptureCols) <==>
      m.row == from.row + Forward(c) && Abs(m.col - from.col) == 1 && InBounds(m) && EnemyAt(g, m, c)
  {
    PawnCapturesUnfold(g, from, c);
    PawnCaptureIff(g, from, c, -1, m);
    PawnCaptureIff(g, from, c, 1, m);
    assert Abs(m.col - from.col) == 1 <==> m.col == from.col - 1 || m.col == from.col + 1;
  }

  /** A pawn destination is exactly one of: the empty square ahead; from the
      start row, the square two ahead when both are empty; a diagonal one row
      ahead holding an enemy piece; the en-passant target when it lies one
      row ahead on an adjacent file. */
  lemma PawnMovesIff(g: Grid, from: Square, c: Color, ep: Option<Square>, m: Square)
    requires ValidGrid(g) && InBounds(from)
    ensures m in PawnMoves(g, from, c, ep) <==>
      || (m == Square(from.row + Forward(c), from.col) && InBounds(m) && EmptyAt(g, m))
      || (from.row == StartRow(c) && m == Square(from.row + 2 * Forward(c), from.col)
          && EmptyAt(g, Square(from.row + Forward(c), from.col)) && EmptyAt(g, m))
      || (m.row == from.row + Forward(c) && Abs(m.col - from.col) == 1 && InBounds(m)
          && EnemyAt(g, m, c))
      || (ep == Some(m) && m.row == from.row + Forward(c) && Abs(m.col - from.col) == 1)
  {
    PawnPushesIff(g, from, c, m);
    PawnCapturesIff(g, from, c, m);
  }

  /** With the en-passant target and castling rights on the board (or not
      given), every pseudo-legal destination lies on the board. */
  lemma PseudoInBounds(g: Grid, from: Square, p: Piece, ep: Option<Square>,
                       rights: Option<CastleRights>)
    requires ValidGrid(g) && InBounds(from) && ContextOk(from, p, rights)
    requires ep.Some? ==> InBounds(ep.value)
    ensures forall m :: m in PseudoMoves(g, from, p, ep, rights) ==> InBounds(m)
  {
    forall m | m in PseudoMoves(g, from, p, ep, rights)
      ensures InBounds(m)
    {
      match p.kind
      case Pawn => PawnMovesIff(g, from, p.color, ep, m);
      case Knight => JumpsIff(g, from, p.color, KnightSteps, m);
      case Bishop => RaysSound(g, p.color, from, BishopDirs, m);
      case Rook => RaysSound(g, p.color, from, RookDirs, m);
      case Queen => RaysSound(g, p.color, from, QueenDirs, m);
      case King => KingMovesShape(g, from, p, rights, m);
    }
  }

  /** A direction of one step along a rank, file or diagonal. */
  predicate UnitDir(d: Offset)
  {
    -1 <= d.dr <= 1 && -1 <= d.dc <= 1 && (d.dr != 0 || d.dc != 0)
  }

  lemma SlidingDirsUnit()
    ensures forall d :: d in RookDirs ==> UnitDir(d)
    ensures forall d :: d in BishopDirs ==> UnitDir(d)
    ensures forall d :: d in QueenDirs ==> UnitDir(d)
  {
  }

  lemma RaysNotFrom(g: Grid, c: Color, from: Square, dirs: seq<Offset>, m: Square)
    requires ValidGrid(g) && m in Rays(g, c, from, dirs)
    requires forall d :: d in dirs ==> UnitDir(d)
    ensures m != from
  {
    RaysSound(g, c, from, dirs, m);
    var d, k :| d in dirs && 1 <= k < ROWS && m == Along(from, d, k) && ClearBetween(g, from, d, 1, k);
    AlongNotFrom(from, d, k);
  }

  lemma {:induction false} AlongClosed(from: Square, d: Offset, k: nat)
    ensures Along(from, d, k) == Square(from.row + d.dr * k, from.col + d.dc * k)
  {
    if k > 0 {
      AlongClosed(from, d, k - 1);
    }
  }

  lemma AlongNotFrom(from: Square, d: Offset, k: nat)
    requires UnitDir(d) && 1 <= k
    ensures Along(from, d, k) != from
  {
    AlongClosed(from, d, k);
    if d.dr == 1 {
      assert Along(from, d, k).row == from.row + k;
    } else if d.dr == -1 {
      assert Along(from, d, k).row == from.row - k;
    } else if d.dc == 1 {
      assert Along(from, d, k).col == from.col + k;
    } else {
      assert Along(from, d, k).col == from.col - k;
    }
  }

  /** No generator ever yields the piece's own square; a pawn always changes
      row; a king's two-file move is a castling move along its own row, which
      needs an unmoved king and given rights. */
  lemma PseudoGeometry(g: Grid, from: Square, p: Piece, ep: Option<Square>,
                       rights: Option<CastleRights>, m: Square)
    requires ValidGrid(g) && InBounds(from) && ContextOk(from, p, rights)
    requires m in PseudoMoves(g, from, p, ep, rights)
    ensures m != from
    ensures p.kind == Pawn ==> m.row != from.row
    ensures p.kind == King && Abs(m.col - from.col) == 2 ==>
              !p.hasMoved && rights.Some? && m.row == from.row
  {
    SlidingDirsUnit();
    match p.kind
    case Pawn => PawnMovesIff(g, from, p.color, ep, m);
    case Knight => KnightStepShape(g, from, p.color, m);
    case Bishop => RaysNotFrom(g, p.color, from, BishopDirs, m);
    case Rook => RaysNotFrom(g, p.color, from, RookDirs, m);
    case Queen => RaysNotFrom(g, p.color, from, QueenDirs, m);
    case King => KingMovesShape(g, from, p, rights, m);
  }
}
