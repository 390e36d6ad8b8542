# Chess rules engine, move notation and game analyzer in Dafny

This project models the rule engine of a small Python chess program and two
tools built on top of it:

- `chess_rules.py`, the rule engine. Its `Board` object keeps:
  - an 8x8 grid of piece objects;
  - the side to move;
  - the en-passant target and the castling rights;
  - the per-side check flags;
  - a table counting how often each placement has occurred, and the halfmove clock;
  - the currently selected piece and its offered destinations.

  Clicks select a piece and move it. A move handles en passant, the castling
  rook, promotion and the turn change. The engine also answers checkmate,
  stalemate, threefold repetition and the fifty-move rule, and writes a
  placement signature and a FEN string.
- `chess_bot_tester.py`, whose `get_algebraic_notation` writes a move as text.
- `game_analyzer.py`. Its `apply_move` reads such text back and plays it
  through the engine, using `find_pieces` to look up the moving piece.
  `calculate_material_score` sums the piece values, added for White and
  subtracted for Black.

The engine is imperative and stays imperative here. `ChessRules.Board` is a
class whose 64-cell grid is an `array<Option<Piece>>`; its other fields are
updated in place by methods with `modifies` clauses. Every method is proved
against a specification function on the state as a value (`GameState`): the
piece generators (`PieceMoves`), the check test and legality filter
(`Legality`), and the serialisers (`Serialize`). The properties the engine
promises are lemmas about those functions (`GameStateProps`, `SelectionProps`).

Piece objects are values `Piece(kind, color, hasMoved)`; the square a piece
stands on is the cell holding it. A piece the source refers to from outside
the grid (the selected piece, the pieces found by the analyzer) is a
`Placed(piece, square)` snapshot. The source does mutate piece objects: a
trial move rewrites the moving piece's row and column and restores them
(chess_rules.py:290 and 297), castling moves the rook object (lines 441
and 446), and a landing piece is told it moved (line 461). None of these
touches a piece while a snapshot describes it with other values: the trial
move restores what it changed, the rook is never the selected piece, and the
selected piece is deselected right after it moves. The analyzer's direct
promotion leaves the pawn selected, but it never mutates that pawn object.
So the snapshots are exact.

The notation writer is pure (`Notation`). The move reader (`MoveReader`) has
two parts:

- a pure parser;
- imperative parts: the lookup loop, and `ApplyMove`, which drives the board
  object.

The material score (`Material`) is a loop proved against a recursive sum.
`Text` holds the two string helpers the analyzer uses: finding a character
and Python's `split`.

Where the source chooses at random (the promotion piece when none is given),
the choice is a parameter. Where it raises an exception that a caller
catches, the model returns an explicit outcome (`Raised`, or `false` from
`ApplyMove`).

## Model

| member | source | states |
|---|---|---|
| ChessRules.Board.constructor | chess_rules.py:177-192 | a new board is the starting position, White to move, nothing selected, no en-passant target, empty repetition table, clock 0, and the board invariant holds |
| ChessRules.Board.CreateBoard | chess_rules.py:301-330 | the new grid is `GameState.InitialGrid`: pawns on rows 1 and 6, the back ranks in rook-knight-bishop-queen-king-bishop-knight-rook order, unmoved, rows 2-5 empty |
| GameStateProps.InitialLayout | chess_rules.py:301-330 | pawns fill rows 1 and 6; the back ranks hold rook, knight, bishop, queen, king, bishop, knight, rook; rows 2-5 are empty; the kings stand on column 4 |
| GameStateProps.InitialCoherent | chess_rules.py:177-192 | the starting state satisfies the board invariant (unmoved kings on column 4, flags for both sides, bounded targets) |
| ChessRules.Board.GetPawnMoves | chess_rules.py:30-59 | returns exactly `PieceMoves.PawnMoves`: the pawn's pushes, then its diagonal captures, then the en-passant target when one row ahead on an adjacent file |
| ChessRules.Board.GetPawnPushes | chess_rules.py:37-42 | the single push onto an empty square, and the double push from the start row when both squares are empty |
| ChessRules.Board.GetPawnCaptures | chess_rules.py:44-50 | the diagonal captures for file offsets -1 then +1 |
| ChessRules.Board.GetPawnCapture | chess_rules.py:44-50 | one diagonal, kept only when on the board and holding an enemy |
| PieceMoves.PawnMovesIff | chess_rules.py:33-55 | a pawn destination is exactly an empty square ahead, a double step from the start row over two empty squares, an enemy-held diagonal, or the en-passant target when one row ahead on an adjacent file |
| PieceMoves.PawnPushesIff | chess_rules.py:37-42 | pushes in both directions of the if-and-only-if: empty square ahead; start row 6 for White, 1 for Black, with both squares empty |
| PieceMoves.PawnCaptureIff | chess_rules.py:44-50 | a diagonal is produced iff it is on the board and holds an enemy piece |
| PieceMoves.PawnCapturesIff | chess_rules.py:44-50 | the capture list holds exactly the enemy-held diagonals on either side |
| ChessRules.Board.GetJumpMoves | chess_rules.py:84-98 | returns exactly `PieceMoves.Jumps`: for each offset in order, the square one offset away when it is on the board and not friendly |
| ChessRules.Board.GetJump | chess_rules.py:88-95 | one offset: kept when on the board and empty or enemy-held |
| PieceMoves.JumpsIff | chess_rules.py:88-95 | a step destination is exactly an in-bounds non-friendly square one offset away |
| PieceMoves.KnightStepShape | chess_rules.py:84-98 | every knight destination is an L-shaped jump to a non-friendly square on the board |
| PieceMoves.KingStepNear | chess_rules.py:151-158 | every king step is to a neighbouring, non-friendly square on the board |
| ChessRules.Board.GetSlidingMoves | chess_rules.py:61-145 | returns exactly `PieceMoves.Rays`: the rays of the piece's directions (rook, bishop or queen), concatenated in direction order |
| ChessRules.Board.GetRayMoves | chess_rules.py:66-79 | returns exactly `PieceMoves.Ray` from step 1: steps 1..7 in one direction, empty squares kept, the first occupied square kept if enemy-held, and the walk stops there or at the edge |
| ChessRules.Board.RaySquare | chess_rules.py:68-69 | the square i steps along a direction, computed from the direction times i, is the square reached by i single steps |
| PieceMoves.RaySound | chess_rules.py:66-79 | every square on a ray is k steps out, on the board, not friendly, with every earlier step empty |
| PieceMoves.RayComplete | chess_rules.py:66-79 | every square k steps out that is on the board and not friendly, with all earlier steps empty, is on the ray |
| PieceMoves.RaysSound | chess_rules.py:61-145 | every rook, bishop or queen destination lies on one of its direction rays, inside the board, past only empty squares, and is empty or enemy-held |
| PieceMoves.RaysComplete | chess_rules.py:61-145 | every such square on one of the piece's directions is generated: no ray continues past its first occupied square and none misses a square before it |
| PieceMoves.RaysNotFrom | chess_rules.py:61-145 | a sliding piece never lists its own square |
| ChessRules.Board.GetKingMoves | chess_rules.py:147-173 | returns exactly `PieceMoves.KingMoves`: the king's eight steps, then its castling moves |
| ChessRules.Board.GetCastlingMoves | chess_rules.py:160-169 | returns exactly `PieceMoves.Castling`: kingside then queenside, each when the king has not moved, rights are given and allow it, and the squares between are empty |
| PieceMoves.KingsideCastleIff | chess_rules.py:161-165 | two files right is listed iff the king has not moved, rights are given and allow kingside, and the two squares between are empty |
| PieceMoves.QueensideCastleIff | chess_rules.py:161-169 | two files left is listed iff the king has not moved, rights are given and allow queenside, and the three squares between are empty |
| PieceMoves.KingMovesShape | chess_rules.py:147-173 | a king destination is a neighbouring non-friendly square, or a two-file move along its row that needs an unmoved king and given rights |
| ChessRules.Board.GetPseudoMoves | chess_rules.py:27-173 | returns exactly `PieceMoves.PseudoMoves`: the movement-pattern destinations of any piece, dispatched by kind to the generators above |
| PieceMoves.PseudoInBounds | chess_rules.py:27-173 | every pattern destination lies on the board when the en-passant target does |
| PieceMoves.PseudoGeometry | chess_rules.py:27-173 | no piece lists its own square; a pawn always changes row; a two-file king move starts on column 4 and stays on its row |
| ChessRules.Board.FindKing | chess_rules.py:262-270 | the first king of the colour in row-major order, or none when no cell holds one |
| Legality.FirstKingUnique | chess_rules.py:262-270 | the king the scan finds is unique |
| ChessRules.Board.IsKingInCheck | chess_rules.py:261-281 | equals `Legality.KingInCheck`: the side's first king in row-major order is attacked by some enemy's pattern moves; false when the side has no king |
| ChessRules.Board.IsAttacked | chess_rules.py:275-281 | equals `Legality.Attacked`: some enemy piece lists the target among its pattern moves, taken without en-passant target or castling rights |
| ChessRules.Board.RowAttacks | chess_rules.py:275-281 | the scan of one row: true only when some enemy piece attacks the target; false only when no piece of that row does |
| ChessRules.Board.AttacksAt | chess_rules.py:276-280 | one cell: the result is exactly whether that cell holds an enemy piece attacking the target |
| Legality.KingInCheckAt | chess_rules.py:261-281 | once the king is found on a square, check means that square is attacked |
| Legality.NoKingNoCheck | chess_rules.py:261-281 | a side without a king is never in check |
| ChessRules.Board.IsInCheckAfterMove | chess_rules.py:283-299 | the grid afterwards equals the grid before, whatever the result; the result is `Legality.InCheckAfterMove`, the check test on `Legality.Simulate`'s grid, in which the origin is emptied and the piece put on the destination |
| ChessRules.Board.FilterLegal | chess_rules.py:57-58 | equals `Legality.LegalFilter`: keeps, in order, the moves after which the mover is not in check; the grid is unchanged |
| ChessRules.Board.GetValidMoves | chess_rules.py:57-58 | equals `Legality.LegalMoves`, the legal moves with avoid_check on: the pattern moves passed through the legality filter; the grid is unchanged |
| Legality.LegalFilterIff | chess_rules.py:57-58 | a move survives the filter iff it was offered and does not leave the mover in check |
| Legality.LegalFilterIdempotent | chess_rules.py:418 | filtering a second time, as the selection does, changes nothing |
| Legality.LegalMovesIff | chess_rules.py:57-58 | a legal move is exactly a pattern move on the board after which the mover's king is not attacked |
| Legality.LegalMovesInBounds | chess_rules.py:57-58 | every legal move lies on the board |
| Legality.LegalMovesRefiltered | chess_rules.py:418 | the selection's second filtering keeps every legal move |
| ChessRules.Board.ChangeTurn | chess_rules.py:479-491 | the new state is `GameState.ChangeTurnSpec` of the old: the turn flips, the new side's check flag is recomputed, the placement's count rises by one, and the clock resets after a pawn move or a capture, else rises by one |
| GameStateProps.ChangeTurnProps | chess_rules.py:479-491 | the turn flips; only the new side's check flag is recomputed from the board; the current placement's count rises by exactly one and no other count changes; the clock resets iff the mover is a pawn or a piece was captured, else rises by one; the invariant is kept |
| GameStateProps.ChangeTurnCounts | chess_rules.py:484-485 | the count of the current placement rises by one and every other count is unchanged |
| GameStateProps.ChangeTurnCountsCurrent | chess_rules.py:484-485 | after a turn change the reached placement has been counted, and threefold repetition holds iff it had been counted twice before |
| GameStateProps.FiftyMoveNeedsQuietMoves | chess_rules.py:488-509 | the fifty-move test can only become true after a non-pawn move without capture from a clock of at least 49 |
| ChessRules.Board.PromotePawn | chess_rules.py:332-355 | the new state is `GameState.PromoteSpec` of the old with the given choice: a new piece of that kind and the pawn's colour on the target, the pawn's square emptied, the turn changed without a capture; the invariant holds |
| GameStateProps.PromoteProps | chess_rules.py:332-355 | the chosen piece of the pawn's colour stands on the target; the pawn's square is empty; no other cell changes; the turn passes |
| ChessRules.Board.SelectPiece | chess_rules.py:398-418 | the new state and whether an exception escaped are `GameState.SelectSpec`: with a piece selected, the move attempt, and on rejection a cleared selection and a fresh pick of the square; with none, `GameState.Pick` |
| ChessRules.Board.PickPiece | chess_rules.py:407-418 | with nothing selected, the new state is `GameState.Pick`: a piece of the side to move on the square is selected with its offered moves, anything else changes nothing; the invariant holds |
| ChessRules.Board.SelectionFor | chess_rules.py:412-418 | the offered destinations are the piece's legal moves, with the en-passant target for a pawn and the castling rights for a king |
| SelectionProps.PickSelects | chess_rules.py:407-418 | a piece is selected iff the square holds one of the side to move; otherwise nothing changes; the position never changes |
| SelectionProps.PickMovesIff | chess_rules.py:408-418 | a destination is offered iff the piece's pattern allows it and the move leaves its own king unattacked |
| SelectionProps.SelectionMovesShape | chess_rules.py:412-418 | offered destinations are on the board, never the piece's square, change row for a pawn, and stay on the row from column 4 for a castling king |
| SelectionProps.SelectMovesOrPicks | chess_rules.py:398-418 | a click passes the turn or raises iff a piece was selected and the square is among its destinations; otherwise the position, turn, en-passant target, table and clock stay as they were |
| SelectionProps.SelectCoherent | chess_rules.py:398-418 | every click keeps the invariant |
| SelectionProps.PickCoherent | chess_rules.py:407-418 | picking keeps the invariant |
| ChessRules.Board.MovePiece | chess_rules.py:420-477 | the new state and the outcome are `GameState.MoveSpec`: rejected with nothing changed when the destination is not listed, raised with the en-passant target cleared when nothing is selected, else `GameState.Execute`; the invariant holds |
| ChessRules.Board.ExecuteMove | chess_rules.py:421-477 | the new state and the outcome are `GameState.Execute`: `GameState.Prepare`, then either the raise or the landing, the turn change and a cleared selection |
| ChessRules.Board.PrepareMove | chess_rules.py:424-446 | the grid and the raise flag are `GameState.Prepare`: the en-passant victim is removed and the castling rook is moved; the new en-passant target is `GameState.NextEp`; the capture flag reports en passant |
| ChessRules.Board.CastleRook | chess_rules.py:436-446 | the grid and the raise flag are `GameState.CastleRookStep`: the corner's occupant is written beside the king and the corner emptied, then marked as moved, raising when the corner was empty |
| ChessRules.Board.ShiftRook | chess_rules.py:439-446 | the corner's occupant is written to the crossed square and the corner emptied; a piece there is then marked as moved, an empty corner raises |
| ChessRules.Board.LandPiece | chess_rules.py:449-465 | the pawn is promoted as `GameState.PromoteSpec`, or the piece lands as `GameState.LandGrid` defines it, marked as moved, with the capture reported to `GameState.ChangeTurnSpec`; the selection and its list are cleared |
| ChessRules.Board.StepPiece | chess_rules.py:460-463 | the origin is emptied, the piece stands on the destination marked as moved, and the turn changes with a capture reported for en passant or an enemy on the destination |
| GameStateProps.MoveRejectedIff | chess_rules.py:420-421 | a destination not among the offered moves is rejected and changes nothing, and only such a destination is rejected |
| GameStateProps.MoveWentThrough | chess_rules.py:420-477 | a move that goes through clears the selection and passes the turn |
| GameStateProps.MoveRaises | chess_rules.py:420-461 | a raise keeps the selection, its list and the turn; with a piece selected it happens only for a king castling from column 4 into an empty rook corner (with nothing selected, a listed destination also raises) |
| GameStateProps.MovePlacesPiece | chess_rules.py:449-465 | after a move the origin is empty and the destination holds the moved piece marked as moved, or the new piece for a pawn reaching the last row |
| GameStateProps.MoveEnPassantTarget | chess_rules.py:430-433 | the en-passant target is set iff a pawn moved two rows, and is then the square it passed over |
| GameStateProps.MoveEnPassantCapture | chess_rules.py:424-427 | a pawn moving onto the en-passant target empties the square on its own row and the destination's file |
| GameStateProps.MoveCastles | chess_rules.py:436-446 | a king's two-file move carries the rook from column 7 to 5, or from 0 to 3; both are marked moved, and the corner and the king's origin end up empty |
| GameStateProps.MoveFrame | chess_rules.py:420-477 | no cell other than origin, destination, en-passant victim and the castling rook's two cells changes |
| GameStateProps.PrepareFrame | chess_rules.py:424-446 | the preparation writes only the en-passant victim and the rook cells |
| GameStateProps.MoveClock | chess_rules.py:449-491 | the clock resets iff a pawn moved or the destination held an enemy piece, else rises by one |
| GameStateProps.MoveCounts | chess_rules.py:484-485 | after a move the new placement's count rises by one and no other count changes |
| GameStateProps.MoveCheckFlags | chess_rules.py:481 | the side now to move gets its check flag from the new board; the mover's flag is kept as it was |
| GameStateProps.MoveCoherent | chess_rules.py:420-477 | every move keeps the invariant |
| GameStateProps.CastleRookStepProps | chess_rules.py:436-446 | the corner piece moves next to the king, marked as moved; the step raises iff the corner is empty; nothing else changes |
| GameStateProps.NextEpProps | chess_rules.py:430-433 | the en-passant target exists iff a pawn moved two rows, and is the midpoint on the pawn's file |
| GameStateProps.LandGridProps | chess_rules.py:454-465 | landing empties the origin, fills the destination with the moved or promoted piece, and changes nothing else |
| GameStateProps.ExecuteOutcome | chess_rules.py:436-477 | a listed move raises iff the preparation found an empty rook corner, and otherwise goes through |
| GameStateProps.ExecuteMoved | chess_rules.py:449-465 | a move that goes through lands the piece, passes the turn, clears the selection, sets the en-passant target and keeps the castling rights |
| GameStateProps.ExecuteRaised | chess_rules.py:436-446 | a move that raises keeps everything but the prepared board and the new en-passant target |
| ChessRules.Board.IsCheckmate | chess_rules.py:493-503 | equals `GameState.CheckmateSpec`: the stored check flag of the side to move is set and `Legality.SideCanMove` fails for it, none of its pieces having a legal move; the grid is unchanged |
| ChessRules.Board.IsStalemate | chess_rules.py:511-521 | equals `GameState.StalemateSpec`: the flag is clear and no piece of the side to move has a legal move; the grid is unchanged |
| ChessRules.Board.HasLegalMove | chess_rules.py:497-502 | true exactly when some piece of the colour has a legal move; the grid is unchanged |
| ChessRules.Board.RowHasLegalMove | chess_rules.py:497-502 | the scan of one row, stopping at the first piece of the colour with a legal move: true only when such a piece exists, false only when the row has none; the grid is unchanged |
| ChessRules.Board.MovableAt | chess_rules.py:499-502 | one cell: the result is exactly whether that cell holds a piece of the colour with a legal move; the grid is unchanged |
| SelectionProps.CheckmateStalemateExclusive | chess_rules.py:493-521 | checkmate and stalemate are never both true; one of them holds iff the side to move has no piece with a legal move |
| SelectionProps.GameOverNoMoves | chess_rules.py:493-521 | in checkmate or stalemate every piece of the side to move has an empty legal-move list |
| ChessRules.Board.IsThreefoldRepetition | chess_rules.py:505-506 | equals `GameState.ThreefoldSpec`: the current placement has been counted at least three times |
| ChessRules.Board.IsFiftyMoveRule | chess_rules.py:508-509 | equals `GameState.FiftyMoveSpec`: the clock is at least 50 |
| ChessRules.Board.GetBoardState | chess_rules.py:523-531 | returns `Serialize.BoardState`, computed by a row loop: for each cell in row-major order `0` when empty, else the colour's initial and the class name's initial (`Serialize.StatePrefix`) |
| ChessRules.Board.AppendRowState | chess_rules.py:525-530 | extends the signature by the eight cells of one row: the result is `Serialize.StatePrefix` up to the end of that row |
| Serialize.StatePrefixLength | chess_rules.py:523-531 | the signature has one character per empty cell and two per piece: length 64 plus the number of pieces |
| Serialize.StatePrefixByCodes | chess_rules.py:523-531 | the signature depends only on each cell's code: not on has-moved flags, the turn, castling rights or the en-passant target |
| ChessRules.Board.GetFen | chess_rules.py:213-232 | returns `Serialize.Fen` with `Serialize.FenSymbolAsWritten`: `Serialize.Placement`'s ranks from row 0 with the last slash dropped, then the side to move and the fixed ` - - 0 1` |
| ChessRules.Board.GetRankText | chess_rules.py:217-228 | returns `Serialize.RankText` for one rank: the scan `Serialize.ScanRank` flushes runs of empty squares as digits before each piece symbol, and the last run is flushed at the end |
| Serialize.RankWidth | chess_rules.py:217-228 | each rank's digits plus letters cover exactly eight squares |
| Serialize.FenPlacementSlashes | chess_rules.py:213-232 | the placement field holds eight ranks separated by exactly seven slashes |
| Serialize.PlacementSlashes | chess_rules.py:216-229 | n ranks carry exactly n slashes, one after each |
| Notation.AlgebraicNotation | chess_bot_tester.py:62-100 | castling is O-O when the destination file is greater, else O-O-O; otherwise the text ends with the destination square, followed by =Q exactly when a pawn reaches row 0 or 7, and holds an x exactly when the destination is occupied |
| Notation.PawnQuietNotation | chess_bot_tester.py:92-96 | a pawn move to an empty square is the destination alone plus the promotion suffix, so en-passant carries no x |
| Notation.PawnCaptureNotation | chess_bot_tester.py:92-94 | a pawn move to an occupied square is the origin file, x and the destination |
| Notation.PieceNotation | chess_bot_tester.py:97-98 | any other piece: its letter, its full origin square, x when the destination is occupied, and the destination |
| Notation.FileChar | chess_bot_tester.py:80-83 | the file letter of a column, inverted by subtracting 'a' |
| Notation.RankChar | chess_bot_tester.py:80-83 | the rank digit of a row, inverted by eight minus the digit |
| Notation.PieceSymbol | chess_bot_tester.py:64-77 | no letter exactly for a pawn, one letter otherwise |
| MoveReader.ParseMove | game_analyzer.py:145-176 | castling strings are recognised exactly; a promotion is present iff the string holds '='; a piece letter excludes an origin file |
| MoveReader.PromotionOf | game_analyzer.py:156-163 | a one-character suffix gives a rook exactly for r or R, a bishop exactly for b or B, a knight exactly for n or N, and a queen for every other character; a suffix of any other length gives a queen |
| MoveReader.ParseNotation | chess_bot_tester.py:62-100 | round trip: reading back what the writer produces gives the castling string, or the same destination, a letter asking for the moving kind, the origin file for pawn captures only, and a queen promotion exactly for a pawn reaching the last row |
| MoveReader.ParseSuffixed | game_analyzer.py:155-176 | a body ending in a square, with or without =Q, parses to that square and that promotion |
| MoveReader.FindPieces | game_analyzer.py:201-220 | returns `MoveReader.Candidates`, the row-major list of pieces for which `MoveReader.Candidate` holds (colour, `MoveReader.KindMatches` for the letter, file hint, legal destination), and leaves the grid unchanged |
| MoveReader.FindInRow | game_analyzer.py:203-219 | extends the candidate list by the cells of one row |
| MoveReader.CellCandidate | game_analyzer.py:205-219 | one cell: the piece if it is a candidate, nothing otherwise |
| MoveReader.Candidates | game_analyzer.py:201-220 | found pieces are on the board in strictly increasing cell order |
| MoveReader.CandidatesIff | game_analyzer.py:201-220 | a piece is found iff it stands on its square, has the side to move's colour and the asked kind, sits on the hinted file if any, and may legally move to the destination without en-passant target or castling rights |
| MoveReader.FoundKingSteps | game_analyzer.py:218 | the lookup never offers castling: a king found is at most one step from the destination |
| MoveReader.FoundPawnCaptures | game_analyzer.py:218 | the lookup never offers en passant: a pawn found for another file sees an enemy on the destination |
| MoveReader.FoundDestInBounds | game_analyzer.py:201-220 | a found piece and its destination are on the board |
| MoveReader.ApplyMove | game_analyzer.py:145-199 | the board's new state and the result are `MoveReader.ApplyMoveSpec`: parse, take the first found piece, then the select, promote and move calls of `MoveReader.PlaySpec`, with caught exceptions giving false; the invariant holds |
| MoveReader.Play | game_analyzer.py:184-195 | the new state and the result are `MoveReader.PlaySpec`: select the found piece, then promote it directly or hand the destination to the move executor, failing when that rejects it |
| MoveReader.CastleTextFails | game_analyzer.py:148-199 | O-O and O-O-O always fail and leave the game unchanged |
| MoveReader.UnmatchedFails | game_analyzer.py:179-182 | a string that no piece of the side to move fits fails and leaves the game unchanged |
| MoveReader.ApplyCoherent | game_analyzer.py:145-199 | every applied string keeps the board's invariant |
| MoveReader.PlayCoherent | game_analyzer.py:184-195 | playing a found piece keeps the invariant |
| MoveReader.StaleSelection | game_analyzer.py:188-189 | a successful string passes the turn; afterwards a piece is still selected exactly on the direct-promotion path, and it is a pawn whose square is empty |
| MoveReader.CorrectedClearsSelection | game_analyzer.py:188-189 | corrected: a successful string passes the turn and leaves nothing selected |
| Material.CalculateMaterialScore | game_analyzer.py:235-242 | the loop's result is `Material.MaterialScore`, the sum of `Material.Signed` over the cells: the table value of the name's second `_`-field (`Material.KindWord`, `Material.PieceValues`), added for White and subtracted for Black |
| Material.KindValue | game_analyzer.py:226-233 | every value lies in 0..9 and only the king is worth 0 |
| Material.PieceValueByKind | game_analyzer.py:226-240 | the kind word taken from the piece's name is in the table and looks up the kind's value |
| Material.CaptureGain | game_analyzer.py:235-242 | removing a piece lowers the score by its value for White and raises it for Black |
| Material.SwapNegates | game_analyzer.py:235-242 | swapping every piece's colour negates the score |
| Material.InitialBalanced | game_analyzer.py:235-242 | the starting position scores 0 |
| Material.BalanceUpdate | game_analyzer.py:235-242 | changing one cell changes the score by the difference of the two cells' signed values |
| Text.Split | game_analyzer.py:240 | splitting yields at least one part and no part holds the separator |
| Text.SplitCount | game_analyzer.py:240 | splitting yields exactly one more part than the separators in the text |
| Text.SplitAt | game_analyzer.py:240 | a text with one separator splits into the part before it followed by the parts after it |

## Left out

- Drawing, images, fonts and mouse input (pygame), the evaluation bar and the on-screen move list are not part of this model.
- The random agents, the game drivers and the analyzer's replay from the start (`reset_board_to_position`) are not part of this model. The replay is a fold of `ApplyMove` over a global list of moves.
- Printed messages, including the game-over prints after a move, are left out. Only the fact that the tests they call do not change the grid is kept.
- The `promotion_in_progress` flag and the interactive promotion menu are left out. The random promotion choice is the explicit `choice` / `fallback` parameter.
- ChessRules.Board.PromotePawn: takes one of the four promotion kinds; a choice string outside those names is not modelled.
- MoveReader.ParseMove: treats only ASCII characters; Python's `islower` and `int` also accept other Unicode lower-case letters and digits.
- MoveReader.ParseMove: a string with two or more '=' signs, fewer than two characters before '=', or a last character that is not a digit is read as `Malformed`. Python raises there, and the caught exception makes `apply_move` return False.
- MoveReader.ApplyMove: `O-O` and `O-O-O` fail because the board methods they call do not exist.
- MoveReader.ParseMove: the origin-row hint is never set, and a piece move's origin characters are ignored. Both are modelled as written.
- ChessRules.Board.MovePiece: an escaping exception is the outcome `Raised`, and the state left behind by the partly executed move is kept. Through `select_piece` and `apply_move` the only exception is a castling move whose rook corner is empty. A direct `move_piece` call with nothing selected and a listed destination also raises, after clearing the en-passant target; `GameState.MoveSpec` covers that case too.
- Object identity is not modelled. The selected piece and found pieces are (piece, square) snapshots, which agree with the source because no other reference mutates a piece they describe.

## Findings

| source | as written | input that shows it | evidently intended | confidence | as-written member | corrected member |
|---|---|---|---|---|---|---|
| chess_rules.py:213-232 | the FEN symbol is the first letter of the piece's name, which is the colour word | any position: every white piece prints as `W` and every black piece as `b`, so the black rook and knight in the corner both print `b` | the kind's letter (`r`, `n`, `b`, `q`, `k`, `p`), upper-case for White | not executed | Serialize.FenRookKnightClash | Serialize.FenLetterFaithful |
| chess_rules.py:523-531 | the signature code is the colour's initial and the initial of the class name, so `Knight` and `King` both give `K` | a lone white knight and a lone white king on the same square give the same signature `wK` followed by 63 zeros | distinct codes per kind, so that equal signatures mean equal placements | not executed | Serialize.KnightKingSignatureClash | Serialize.BoardStateCorrectedInjective |
| game_analyzer.py:188-189 | the direct promotion path never clears the selection, so the promoted pawn stays selected with its old destinations although its square is empty | white pawn e7, black rooks d8 and f8: `exd8=Q`, then Black's `Rf8f1`. The reader's click on f8 goes to the stale white pawn. f8 is on row 0, so `move_piece` promotes the pawn there, capturing the rook, with a piece chosen at random on the analyzer's board without UI, and hands the move back to White. Only then does the reader's own `move_piece` call to f1 find no listed destination, so Black's move fails | a promotion that leaves nothing selected, like every other successful move | not executed | MoveReader.StaleSelection | MoveReader.CorrectedClearsSelection |
