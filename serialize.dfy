/** Text forms of a position: the placement signature used for repetition
    counting, and the FEN string. */
module Serialize {
  import opened ChessTypes

  // ------------------------------------------------------------------
  // Placement signature

  /** '0' for an empty cell; otherwise the colour's initial and the initial
      of the piece's class name. */
  function CellCode(cell: Option<Piece>): string
  {
    match cell
    case None => "0"
    case Some(p) => [ColorName(p.color)[0], ClassName(p.kind)[0]]
  }

  /** The signature of cells 0..n-1, in row-major order. */
  function StatePrefix(g: Grid, n: nat): string
    requires ValidGrid(g) && n <= 64
  {
    if n == 0 then "" else StatePrefix(g, n - 1) + CellCode(g[n - 1])
  }

  function BoardState(g: Grid): string
    requires ValidGrid(g)
  {
    StatePrefix(g, 64)
  }

  /** The number of occupied cells among 0..n-1. */
  function PiecesUpTo(g: Grid, n: nat): nat
    requires ValidGrid(g) && n <= 64
  {
    if n == 0 then 0 else PiecesUpTo(g, n - 1) + (if g[n - 1].Some? then 1 else 0)
  }

  /** What a cell shows, without the has-moved flag. */
  function Appearance(cell: Option<Piece>): Option<(Kind, Color)>
  {
    match cell
    case None => None
    case Some(p) => Some((p.kind, p.color))
  }

  /** One character per empty cell and two per piece. */
  lemma {:induction false} StatePrefixLength(g: Grid, n: nat)
    requires ValidGrid(g) && n <= 64
    ensures |StatePrefix(g, n)| == n + PiecesUpTo(g, n)
  {
    if n > 0 {
      StatePrefixLength(g, n - 1);
    }
  }

  /** The signature depends only on the code of each cell: it ignores the
      has-moved flags, the side to move, castling rights and the en-passant
      target. */
  lemma {:induction false} StatePrefixByCodes(g: Grid, h: Grid, n: nat)
    requires ValidGrid(g) && ValidGrid(h) && n <= 64
    requires forall i :: 0 <= i < n ==> CellCode(g[i]) == CellCode(h[i])
    ensures StatePrefix(g, n) == StatePrefix(h, n)
  {
    if n > 0 {
      StatePrefixByCodes(g, h, n - 1);
    }
  }

  /** As written, a knight and a king of the same colour have the same code
      ('wK' / 'bK'), so two positions that differ by swapping them, or by
      replacing one with the other, share one signature. */
  lemma KnightKingSignatureClash(c: Color)
    ensures var empty: Grid := seq(64, i => None);
      var withKnight := empty[0 := Some(Piece(Knight, c, false))];
      var withKing := empty[0 := Some(Piece(King, c, false))];
      withKnight != withKing && BoardState(withKnight) == BoardState(withKing)
  {
    var empty: Grid := seq(64, i => None);
    var withKnight := empty[0 := Some(Piece(Knight, c, false))];
    var withKing := empty[0 := Some(Piece(King, c, false))];
    assert withKnight[0] != withKing[0];
    StatePrefixByCodes(withKnight, withKing, 64);
  }

  /** The single-letter piece codes of standard notation: N for the knight. */
  function KindLetter(k: Kind): (ch: char)
    ensures 'A' <= ch <= 'Z'
  {
    match k
    case Pawn => 'P'
    case Knight => 'N'
    case Bishop => 'B'
    case Rook => 'R'
    case Queen => 'Q'
    case King => 'K'
  }

  lemma KindLetterInjective(k: Kind, l: Kind)
    ensures KindLetter(k) == KindLetter(l) <==> k == l
  {
  }

  /** Corrected cell code: the colour's initial and the kind's own letter. */
  function CellCodeCorrected(cell: Option<Piece>): (s: string)
    ensures |s| == 1 || |s| == 2
    ensures s[|s| - 1] == '0' <==> cell.None?
  {
    match cell
    case None => "0"
    case Some(p) => [ColorName(p.color)[0], KindLetter(p.kind)]
  }

  function StatePrefixCorrected(g: Grid, n: nat): string
    requires ValidGrid(g) && n <= 64
  {
    if n == 0 then "" else StatePrefixCorrected(g, n - 1) + CellCodeCorrected(g[n - 1])
  }

  function BoardStateCorrected(g: Grid): string
    requires ValidGrid(g)
  {
    StatePrefixCorrected(g, 64)
  }

  /** Two signatures that agree end in the same corrected cell code, so the
      cells look the same and the prefixes before them agree. */
  lemma CodeSuffixCancel(a: string, b: string, c: Option<Piece>, d: Option<Piece>)
    requires a + CellCodeCorrected(c) == b + CellCodeCorrected(d)
    ensures a == b && Appearance(c) == Appearance(d)
  {
    var x := CellCodeCorrected(c);
    var y := CellCodeCorrected(d);
    var whole := a + x;
    assert whole[|whole| - 1] == x[|x| - 1];
    assert (b + y)[|b + y| - 1] == y[|y| - 1];
    assert |x| == |y|;
    assert a == whole[..|whole| - |x|];
    assert b == (b + y)[..|b + y| - |y|];
    assert x == whole[|whole| - |x|..];
    assert y == (b + y)[|b + y| - |y|..];
    if c.Some? {
      assert x[0] == y[0] && x[1] == y[1];
      KindLetterInjective(c.value.kind, d.value.kind);
    }
  }

  /** With the corrected codes, equal signatures mean the same piece kind and
      colour (or emptiness) on every square. */
  lemma {:induction false} StatePrefixCorrectedInjective(g: Grid, h: Grid, n: nat)
    requires ValidGrid(g) && ValidGrid(h) && n <= 64
    requires StatePrefixCorrected(g, n) == StatePrefixCorrected(h, n)
    ensures forall i :: 0 <= i < n ==> Appearance(g[i]) == Appearance(h[i])
  {
    if n > 0 {
      var a := StatePrefixCorrected(g, n - 1);
      var b := StatePrefixCorrected(h, n - 1);
      CodeSuffixCancel(a, b, g[n - 1], h[n - 1]);
      StatePrefixCorrectedInjective(g, h, n - 1);
    }
  }

  lemma BoardStateCorrectedInjective(g: Grid, h: Grid)
    requires ValidGrid(g) && ValidGrid(h) && BoardStateCorrected(g) == BoardStateCorrected(h)
    ensures forall i :: 0 <= i < 64 ==> Appearance(g[i]) == Appearance(h[i])
  {
    StatePrefixCorrectedInjective(g, h, 64);
  }

  // ------------------------------------------------------------------
  // FEN

  function Upper(ch: char): char
  {
    if 'a' <= ch <= 'z' then (ch as int - 32) as char else ch
  }

  function Lower(ch: char): char
  {
    if 'A' <= ch <= 'Z' then (ch as int + 32) as char else ch
  }

  /** The symbol the FEN writer prints, as written: the first letter of the
      piece's name (which is its colour word), upper-cased for White. */
  function FenSymbolAsWritten(p: Piece): char
  {
    var ch := Name(p)[0];
    if p.color == White then Upper(ch) else Lower(ch)
  }

  /** The evidently intended symbol: the kind's letter, upper-cased for
      White and lower-cased for Black. */
  function FenLetter(p: Piece): char
  {
    if p.color == White then KindLetter(p.kind) else Lower(KindLetter(p.kind))
  }

  /** The decimal digit for a run of 1..8 empty squares. */
  function Digit(n: nat): (s: string)
    requires n <= 9
    ensures |s| == 1 && '0' <= s[0] <= '9' && s[0] as int - '0' as int == n
  {
    [(48 + n) as char]
  }

  /** The rank text so far and the pending run of empty squares. */
  datatype RankScan = RankScan(text: string, empty: nat)

  /** The scan of cells 0..n-1 of a row: an empty cell lengthens the pending
      run; a piece flushes the run as a digit and then adds its symbol. */
  function ScanRank(g: Grid, row: nat, n: nat, sym: Piece -> char): (r: RankScan)
    requires ValidGrid(g) && row < 8 && n <= 8
    ensures r.empty <= n
  {
    if n == 0 then RankScan("", 0)
    else
      var prev := ScanRank(g, row, n - 1, sym);
      match g[8 * row + n - 1]
      case None => RankScan(prev.text, prev.empty + 1)
      case Some(p) => RankScan(prev.text + Flush(prev.empty) + [sym(p)], 0)
  }

  function Flush(empty: nat): string
    requires empty <= 9
  {
    if empty > 0 then Digit(empty) else ""
  }

  /** A whole rank: the scan of its eight cells and the final run. */
  function RankText(g: Grid, row: nat, sym: Piece -> char): string
    requires ValidGrid(g) && row < 8
  {
    var s := ScanRank(g, row, 8, sym);
    s.text + Flush(s.empty)
  }

  /** Ranks 0..n-1, each followed by a slash. */
  function Placement(g: Grid, n: nat, sym: Piece -> char): string
    requires ValidGrid(g) && n <= 8
  {
    if n == 0 then "" else Placement(g, n - 1, sym) + RankText(g, n - 1, sym) + "/"
  }

  /** The full string: placement without its last slash, then the side to
      move and fixed fields (no castling, no en-passant, clocks 0 and 1). */
  function Fen(g: Grid, turn: Color, sym: Piece -> char): string
    requires ValidGrid(g)
  {
    var p := Placement(g, 8, sym);
    p[..|p| - 1] + (if turn == White then " w - - 0 1" else " b - - 0 1")
  }

  lemma {:induction false} PlacementNonEmpty(g: Grid, n: nat, sym: Piece -> char)
    requires ValidGrid(g) && 0 < n <= 8
    ensures |Placement(g, n, sym)| > 0 && Placement(g, n, sym)[|Placement(g, n, sym)| - 1] == '/'
  {
  }

  /** How many squares a rank text covers: a digit counts its value, any
      other character one square. */
  function Width(s: string): nat
  {
    if s == [] then 0
    else Width(s[..|s| - 1]) + (if '1' <= s[|s| - 1] <= '9' then s[|s| - 1] as int - '0' as int else 1)
  }

  lemma {:induction false} WidthAppend(s: string, t: string)
    ensures Width(s + t) == Width(s) + Width(t)
    decreases |t|
  {
    if t == [] {
      assert s + t == s;
    } else {
      var t' := t[..|t| - 1];
      WidthAppend(s, t');
      assert (s + t)[..|s + t| - 1] == s + t';
    }
  }

  ghost predicate NoDigitSymbols(sym: Piece -> char)
  {
    forall p :: !('0' <= sym(p) <= '9')
  }

  /** A flushed run covers its length and holds no slash. */
  lemma FlushText(e: nat)
    requires e <= 9
    ensures Width(Flush(e)) == e && Slashes(Flush(e)) == 0
  {
    if e > 0 {
      assert Flush(e)[..0] == [];
    }
  }

  /** A single non-digit character covers one square. */
  lemma SymbolText(ch: char)
    ensures !('0' <= ch <= '9') ==> Width([ch]) == 1
    ensures Slashes([ch]) == (if ch == '/' then 1 else 0)
  {
    assert [ch][..0] == [];
  }

  /** One piece step of the rank scan: the flushed run and the symbol. */
  lemma WidthStep(text: string, e: nat, ch: char)
    requires e <= 9 && !('0' <= ch <= '9')
    ensures Width(text + Flush(e) + [ch]) == Width(text) + e + 1
  {
    FlushText(e);
    SymbolText(ch);
    WidthAppend(text, Flush(e));
    WidthAppend(text + Flush(e), [ch]);
  }

  lemma SlashesStep(text: string, e: nat, ch: char)
    requires e <= 9 && ch != '/'
    ensures Slashes(text + Flush(e) + [ch]) == Slashes(text)
  {
    FlushText(e);
    SymbolText(ch);
    SlashesAppend(text, Flush(e));
    SlashesAppend(text + Flush(e), [ch]);
  }

  lemma {:induction false} ScanRankWidth(g: Grid, row: nat, n: nat, sym: Piece -> char)
    requires ValidGrid(g) && row < 8 && n <= 8 && NoDigitSymbols(sym)
    ensures Width(ScanRank(g, row, n, sym).text) + ScanRank(g, row, n, sym).empty == n
  {
    if n > 0 {
      ScanRankWidth(g, row, n - 1, sym);
      var prev := ScanRank(g, row, n - 1, sym);
      var cell := g[8 * row + n - 1];
      if cell.Some? {
        var ch := sym(cell.value);
        WidthStep(prev.text, prev.empty, ch);
        assert ScanRank(g, row, n, sym).text == prev.text + Flush(prev.empty) + [ch];
      }
    }
  }

  /** Every rank text covers exactly eight squares, provided no piece symbol
      is a digit. */
  lemma RankWidth(g: Grid, row: nat, sym: Piece -> char)
    requires ValidGrid(g) && row < 8 && NoDigitSymbols(sym)
    ensures Width(RankText(g, row, sym)) == 8
  {
    var s := ScanRank(g, row, 8, sym);
    ScanRankWidth(g, row, 8, sym);
    WidthAppend(s.text, Flush(s.empty));
    FlushText(s.empty);
  }

  function Slashes(s: string): nat
  {
    if s == [] then 0 else Slashes(s[..|s| - 1]) + (if s[|s| - 1] == '/' then 1 else 0)
  }

  lemma {:induction false} SlashesAppend(s: string, t: string)
    ensures Slashes(s + t) == Slashes(s) + Slashes(t)
    decreases |t|
  {
    if t == [] {
      assert s + t == s;
    } else {
      var t' := t[..|t| - 1];
      SlashesAppend(s, t');
      assert (s + t)[..|s + t| - 1] == s + t';
    }
  }

  ghost predicate NoSlashSymbols(sym: Piece -> char)
  {
    forall p :: sym(p) != '/'
  }

  lemma {:induction false} ScanRankNoSlash(g: Grid, row: nat, n: nat, sym: Piece -> char)
    requires ValidGrid(g) && row < 8 && n <= 8 && NoSlashSymbols(sym)
    ensures Slashes(ScanRank(g, row, n, sym).text) == 0
  {
    if n > 0 {
      ScanRankNoSlash(g, row, n - 1, sym);
      var prev := ScanRank(g, row, n - 1, sym);
      var cell := g[8 * row + n - 1];
      if cell.Some? {
        var ch := sym(cell.value);
        SlashesStep(prev.text, prev.empty, ch);
        assert ScanRank(g, row, n, sym).text == prev.text + Flush(prev.empty) + [ch];
      }
    }
  }

  /** The placement of n ranks holds exactly n slashes, one after each rank. */
  lemma {:induction false} PlacementSlashes(g: Grid, n: nat, sym: Piece -> char)
    requires ValidGrid(g) && n <= 8 && NoSlashSymbols(sym)
    ensures Slashes(Placement(g, n, sym)) == n
  {
    if n > 0 {
      PlacementSlashes(g, n - 1, sym);
      var s := ScanRank(g, n - 1, 8, sym);
      ScanRankNoSlash(g, n - 1, 8, sym);
      SlashesAppend(s.text, Flush(s.empty));
      FlushText(s.empty);
      SlashesAppend(Placement(g, n - 1, sym), RankText(g, n - 1, sym));
      SlashesAppend(Placement(g, n - 1, sym) + RankText(g, n - 1, sym), "/");
      SymbolText('/');
    }
  }

  /** The placement field of a FEN string separates its eight ranks by
      exactly seven slashes. */
  lemma FenPlacementSlashes(g: Grid, sym: Piece -> char)
    requires ValidGrid(g) && NoSlashSymbols(sym)
    ensures var p := Placement(g, 8, sym); |p| > 0 && Slashes(p[..|p| - 1]) == 7
  {
    var p := Placement(g, 8, sym);
    PlacementSlashes(g, 8, sym);
    PlacementNonEmpty(g, 8, sym);
    assert p == p[..|p| - 1] + "/";
    SlashesAppend(p[..|p| - 1], "/");
    SymbolText('/');
  }

  /** As written, the symbol is the colour initial: every white piece prints
      as 'W' and every black piece as 'b', whatever its kind. */
  lemma FenSymbolCollapses(p: Piece)
    ensures FenSymbolAsWritten(p) == (if p.color == White then 'W' else 'b')
  {
  }

  /** Concretely, a black rook and a black knight (the corner and its
      neighbour on the initial board) print the same symbol, where 'r' and
      'n' are expected. */
  lemma FenRookKnightClash()
    ensures FenSymbolAsWritten(Piece(Rook, Black, false)) == FenSymbolAsWritten(Piece(Knight, Black, false)) == 'b'
    ensures FenLetter(Piece(Rook, Black, false)) == 'r' && FenLetter(Piece(Knight, Black, false)) == 'n'
  {
  }

  /** The corrected symbol determines kind and colour, is upper-case exactly
      for White, and is never a digit or a slash. */
  lemma FenLetterFaithful(p: Piece, q: Piece)
    ensures FenLetter(p) == FenLetter(q) <==> p.kind == q.kind && p.color == q.color
    ensures ('A' <= FenLetter(p) <= 'Z') <==> p.color == White
    ensures !('0' <= FenLetter(p) <= '9') && FenLetter(p) != '/'
  {
    KindLetterInjective(p.kind, q.kind);
  }

  lemma SymbolsAreLetters()
    ensures NoDigitSymbols(FenSymbolAsWritten) && NoSlashSymbols(FenSymbolAsWritten)
    ensures NoDigitSymbols(FenLetter) && NoSlashSymbols(FenLetter)
  {
    forall p: Piece
      ensures !('0' <= FenLetter(p) <= '9') && FenLetter(p) != '/'
    {
      FenLetterFaithful(p, p);
    }
  }
}
