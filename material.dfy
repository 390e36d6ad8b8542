/** The analyzer's evaluation: the material balance of a position, each
    piece counted at its table value, positive for White and negative for
    Black. */
module Material {
  import opened ChessTypes
  import opened Text
  import opened GameState
  import opened ChessRules

  /** The value table, keyed by the kind word of a piece's name. */
  const PieceValues: map<string, int> :=
    map["pawn" := 1, "knight" := 3, "bishop" := 3, "rook" := 5, "queen" := 9, "king" := 0]

  /** A table lookup with 0 for a word that is not in the table. */
  function ValueOf(word: string): int
  {
    if word in PieceValues then PieceValues[word] else 0
  }

  /** The kind word of a piece: the second '_'-separated field of its
      name. */
  function KindWord(p: Piece): (w: string)
  {
    var parts := Split(Name(p), '_');
    if |parts| >= 2 then parts[1] else ""
  }

  /** The conventional value of each kind. */
  function KindValue(k: Kind): (v: int)
    ensures 0 <= v <= 9 && (v == 0 <==> k == King)
  {
    match k
    case Pawn => 1
    case Knight => 3
    case Bishop => 3
    case Rook => 5
    case Queen => 9
    case King => 0
  }

  /** The kind word of every piece is the kind's own word, so every piece
      is found in the table at its conventional value and the default of 0
      never applies. */
  lemma PieceValueByKind(p: Piece)
    ensures KindWord(p) == KindName(p.kind) && KindName(p.kind) in PieceValues
    ensures ValueOf(KindWord(p)) == KindValue(p.kind)
  {
    var color := ColorName(p.color);
    var kind := KindName(p.kind);
    assert '_' !in color;
    assert '_' !in kind;
    assert Name(p) == color + ['_'] + kind;
    SplitAt(color, '_', kind);
    SplitNone(kind, '_');
    assert KindWord(p) == kind;
    KindInTable(p.kind);
  }

  lemma KindInTable(k: Kind)
    ensures KindName(k) in PieceValues && PieceValues[KindName(k)] == KindValue(k)
  {
    match k
    case Pawn => assert KindName(k) == "pawn";
    case Knight => assert KindName(k) == "knight";
    case Bishop => assert KindName(k) == "bishop";
    case Rook => assert KindName(k) == "rook";
    case Queen => assert KindName(k) == "queen";
    case King => assert KindName(k) == "king";
  }

  /** What one cell adds to the balance. */
  function Signed(cell: Option<Piece>): int
  {
    match cell
    case None => 0
    case Some(p) => if p.color == White then ValueOf(KindWord(p)) else -ValueOf(KindWord(p))
  }

  /** A piece adds its conventional value for White and subtracts it for
      Black. */
  lemma SignedByKind(p: Piece)
    ensures Signed(Some(p)) == if p.color == White then KindValue(p.kind) else -KindValue(p.kind)
  {
    PieceValueByKind(p);
  }

  /** The balance of a run of cells, taken in order. */
  function Balance(cells: seq<Option<Piece>>): int
  {
    if cells == [] then 0 else Balance(cells[..|cells| - 1]) + Signed(cells[|cells| - 1])
  }

  /** The balance of a position. */
  function MaterialScore(g: Grid): int
  {
    Balance(g)
  }

  /** The balance of two runs together is the sum of their balances. */
  lemma {:induction false} BalanceAppend(a: seq<Option<Piece>>, b: seq<Option<Piece>>)
    ensures Balance(a + b) == Balance(a) + Balance(b)
  {
    if b == [] {
      assert a + b == a;
    } else {
      BalanceAppend(a, b[..|b| - 1]);
      assert (a + b)[..|a + b| - 1] == a + b[..|b| - 1];
      assert (a + b)[|a + b| - 1] == b[|b| - 1];
    }
  }

  lemma BalanceStep(cells: seq<Option<Piece>>, n: nat)
    requires n < |cells|
    ensures Balance(cells[..n + 1]) == Balance(cells[..n]) + Signed(cells[n])
  {
    assert cells[..n + 1][..n] == cells[..n];
  }

  /** Replacing what stands on one cell changes the balance by the
      difference of the two cells' contributions. */
  lemma {:induction false} BalanceUpdate(cells: seq<Option<Piece>>, i: nat, c: Option<Piece>)
    requires i < |cells|
    ensures Balance(cells[i := c]) == Balance(cells) - Signed(cells[i]) + Signed(c)
  {
    var last := |cells| - 1;
    if i < last {
      BalanceUpdate(cells[..last], i, c);
      assert cells[i := c][..last] == cells[..last][i := c];
    } else {
      assert cells[i := c][..last] == cells[..last];
    }
  }

  /** Two runs whose cells count oppositely, cell by cell, have opposite
      balances. */
  lemma {:induction false} BalanceOpposite(a: seq<Option<Piece>>, b: seq<Option<Piece>>)
    requires |a| == |b| && forall k :: 0 <= k < |a| ==> Signed(b[k]) == -Signed(a[k])
    ensures Balance(b) == -Balance(a)
  {
    if a != [] {
      BalanceOpposite(a[..|a| - 1], b[..|b| - 1]);
    }
  }

  /** A run of empty cells is balanced. */
  lemma {:induction false} BalanceEmpty(cells: seq<Option<Piece>>)
    requires forall k :: 0 <= k < |cells| ==> cells[k].None?
    ensures Balance(cells) == 0
  {
    if cells != [] {
      BalanceEmpty(cells[..|cells| - 1]);
    }
  }

  /** Removing a piece changes the balance by its value, in White's favour
      when the piece was Black's. */
  lemma CaptureGain(g: Grid, sq: Square)
    requires ValidGrid(g) && InBounds(sq) && g[Idx(sq)].Some?
    ensures var p := g[Idx(sq)].value;
      MaterialScore(g[Idx(sq) := None])
        == MaterialScore(g) + (if p.color == White then -KindValue(p.kind) else KindValue(p.kind))
  {
    BalanceUpdate(g, Idx(sq), None);
    SignedByKind(g[Idx(sq)].value);
  }

  function SwapCell(cell: Option<Piece>): Option<Piece>
  {
    match cell
    case None => None
    case Some(p) => Some(p.(color := Opponent(p.color)))
  }

  /** The position with every piece's colour flipped. */
  function SwapColors(g: Grid): (h: Grid)
    requires ValidGrid(g)
    ensures ValidGrid(h)
  {
    seq(64, i requires 0 <= i < 64 => SwapCell(g[i]))
  }

  /** Flipping every colour negates the balance. */
  lemma SwapNegates(g: Grid)
    requires ValidGrid(g)
    ensures MaterialScore(SwapColors(g)) == -MaterialScore(g)
  {
    var h := SwapColors(g);
    forall k | 0 <= k < 64
      ensures Signed(h[k]) == -Signed(g[k])
    {
      if g[k].Some? {
        SignedByKind(g[k].value);
        SignedByKind(h[k].value);
      }
    }
    BalanceOpposite(g, h);
  }

  /** The starting position is balanced: each of White's ranks counts
      against the matching rank of Black's, and the middle is empty. */
  lemma InitialBalanced()
    ensures MaterialScore(InitialGrid()) == 0
  {
    var g := InitialGrid();
    InitialRanksOpposite();
    BalanceByRanks(g);
  }

  lemma InitialRanksOpposite()
    ensures var g := InitialGrid();
      && Balance(g[56..]) == -Balance(g[..8]) && Balance(g[48..56]) == -Balance(g[8..16])
      && Balance(g[16..48]) == 0
  {
    var g := InitialGrid();
    var r0, r1, middle, r6, r7 := g[..8], g[8..16], g[16..48], g[48..56], g[56..];
    forall k | 0 <= k < 8
      ensures Signed(r7[k]) == -Signed(r0[k]) && Signed(r6[k]) == -Signed(r1[k])
    {
      assert r0[k] == InitialCell(k) == Some(Piece(BackRank[k], Black, false));
      assert r7[k] == InitialCell(56 + k) == Some(Piece(BackRank[k], White, false));
      assert r1[k] == InitialCell(8 + k) == Some(Piece(Pawn, Black, false));
      assert r6[k] == InitialCell(48 + k) == Some(Piece(Pawn, White, false));
      SignedByKind(Piece(BackRank[k], Black, false));
      SignedByKind(Piece(BackRank[k], White, false));
      SignedByKind(Piece(Pawn, Black, false));
      SignedByKind(Piece(Pawn, White, false));
    }
    assert forall k :: 0 <= k < |middle| ==> middle[k] == InitialCell(16 + k);
    BalanceOpposite(r0, r7);
    BalanceOpposite(r1, r6);
    BalanceEmpty(middle);
  }

  /** The balance of a position, rank group by rank group. */
  lemma BalanceByRanks(g: Grid)
    requires ValidGrid(g)
    ensures Balance(g) == Balance(g[..8]) + Balance(g[8..16]) + Balance(g[16..48])
                          + Balance(g[48..56]) + Balance(g[56..])
  {
    var r0, r1, middle, r6, r7 := g[..8], g[8..16], g[16..48], g[48..56], g[56..];
    assert g == r0 + r1 + middle + r6 + r7;
    BalanceAppend(r0, r1);
    BalanceAppend(r0 + r1, middle);
    BalanceAppend(r0 + r1 + middle, r6);
    BalanceAppend(r0 + r1 + middle + r6, r7);
  }

  /** The analyzer's evaluation of a board: a scan over rows and columns
      adding each piece's table value for White and subtracting it for
      Black. */
  method CalculateMaterialScore(b: Board) returns (score: int)
    requires b.board.Length == 64
    ensures score == MaterialScore(b.board[..])
  {
    score := 0;
    for row := 0 to ROWS
      invariant score == Balance(b.board[..8 * row])
    {
      for col := 0 to COLS
        invariant score == Balance(b.board[..8 * row + col])
      {
        var piece := b.board[8 * row + col];
        ghost var before := score;
        if piece.Some? {
          var value := ValueOf(KindWord(piece.value));
          score := score + if piece.value.color == White then value else -value;
        }
        assert score == before + Signed(piece);
        BalanceStep(b.board[..], 8 * row + col);
      }
    }
    assert b.board[..64] == b.board[..];
  }
}
