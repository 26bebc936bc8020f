# Chess move generation and move-notation resolution, modelled in Dafny

This project models the core of a small Go chess program: the board it
sets up from an 8x8 grid of two-byte cells, the per-piece routines that
list the squares a piece can go to, and `Board.MoveToInstruction`, which
turns a move in algebraic notation ("Nge5", "Qxh8") into a start square,
a destination square and an error.

Modules, in dependency order:

- `Wrappers`: `Option` and `Result`.
- `Geometry`: squares and offsets, `calcMove`, the bounds test, `moveType`, square names (`Square.Name`) and their parser `getSquare`.
- `Pieces`: pieces, the board map, and `ChessPiece.GetLegalMoves`.
- `Catalog`: the offset tables and piece prototypes that `newGame` builds, and the grid's byte-to-prototype map.
- `Setup`: `newGame`'s placement loop.
- `Moves`: `GetAvailableSquares` and the six per-symbol routines with their dispatcher.
- `Notation`: `MoveToInstruction`, split into its parsing step, `findPiece` and the counting loop.

The model follows the code as written. What it proves about that code:

- The king's prototype carries the symbol "N". The dispatcher therefore sends a king to the knight routine. On a set-up board a king can go to every on-board square its ten-offset table reaches, whatever stands there.
- The rook routine returns no square on any board. Its second loop only accepts an occupied square strictly nearer than the nearest occupied square on the same ray, and no such square exists.
- The bishop routine never returns a diagonal destination, for the same reason. It does return every enemy piece that its offset table reaches on a vertical ray or on the leftward horizontal ray, with no regard to pieces in between. Its tests read `rl`/`ud`, which `moveType` also sets for non-diagonal offsets.
- The queen (and the king routine, which calls it) returns exactly what the bishop pass returns.
- A pawn captures diagonally onto any occupied square, including one holding its own colour.
- `MoveToInstruction` counts, over the candidates, how many times the destination appears in their reachable lists. Call the count n.
  - If n is 0, the error is "no pieces could go".
  - If n is 1, there is no error, and the start square is the one candidate that reaches the destination.
  - If n is more than 1, the error is "found n init points".
  - The "no matching pieces" error is always replaced before the method returns.
  - The count does not depend on Go's map iteration order.

Each statement above is a contract or a lemma of the model; the table below names it.

## Model

| member | source | states |
|---|---|---|
| Geometry.CalcMove | game.go:14-18 | the destination is the start shifted by the offset: the offset from start to destination is the move |
| Geometry.OffsetCalcMove | game.go:14-18 | applying the offset between two squares to the first gives the second (inverse of CalcMove) |
| Geometry.IsOutOfBounds | chess.go:59-68 | true exactly when the destination falls outside files and ranks 0..7 |
| Geometry.MoveType | game.go:315-340 | classification: diagonal iff equal nonzero magnitudes, vertical iff x = 0 ≠ y, horizontal iff y = 0 ≠ x, unknown otherwise, with the direction flags each branch sets (Right/Up for vertical rl, horizontal ud and unknown) |
| Geometry.NatToDecimal | chess.go:50 | the digits of a natural number: at least one digit, all digits, their decimal value is the number, no leading zero unless the number is 0, and one digit exactly below 10 |
| Geometry.Itoa | chess.go:50 | the decimal text of an integer: for n ≥ 0 digits of value n, for n < 0 a minus sign followed by digits of value -n, no leading zero before or after the sign; one-digit numbers become that digit |
| Geometry.AtoiShort | chess.go:385 | Atoi on a text of at most one byte succeeds iff it is a single digit, and then gives that digit's decimal value |
| Geometry.AtoiItoa | chess.go:385 | Atoi reads back the single digit Itoa writes for 0..9 |
| Geometry.Name | chess.go:46-52 | the name is the file letter followed by the decimal text of y + 1, for every rank: digits of value y + 1 without a leading zero (a zero rank part is the single digit 0), or a minus sign and digits of value -(y + 1) without a leading zero when y + 1 < 0; for y + 1 in 0..9, and so for every on-board square, exactly the letter and one digit |
| Geometry.FileIndex | chess.go:373-384 | the alphabet lookup: a..h give their index, any other byte the zero value 0 |
| Geometry.GetSquare | chess.go:368-390 | a name of three or more bytes panics; success iff two bytes with a digit second; the square is (file index, digit - 1) |
| Geometry.NameRoundTrip | chess.go:368-390 | parsing the name of any on-board square gives the square back |
| Geometry.GetSquareRoundTrip | chess.go:46-52 | naming the parsed square of a well-formed on-board name gives the name back |
| Pieces.LegalMoves | chess.go:70-78 | the kept offsets are exactly the table's in-bounds ones, in table order (a subsequence); a table that stays on the board is kept whole |
| Pieces.LegalMovesMultiplicity | chess.go:72-75 | each in-bounds offset is kept as many times as the table lists it, and an out-of-bounds one never |
| Pieces.GetLegalMoves | chess.go:70-78 | the loop returns LegalMoves of the piece's table |
| Catalog.Diag | chess.go:121-155 | both coordinates have magnitude n, and for n ≥ 1 moveType reports the diagonal and directions asked for |
| Catalog.Horiz | chess.go:235-269 | one coordinate is zero, total magnitude n, and the directions moveType reports for each flag pair (Right,Down is leftwards; Left,Up downwards; Left,Down upwards) |
| Catalog.RangeDiag | chess.go:157-163 | the 7-slot array holds diag(1..7) in order |
| Catalog.RangeHoriz | chess.go:271-277 | the 7-slot array holds horiz(1..7) in order |
| Catalog.NewPrototypes | chess.go:82-323 | the prototypes built step by step equal the declared tables, symbols, Black and Dead |
| Catalog.PieceFor | chess.go:337-345 | a prototype is found exactly for the bytes p, B, N, K, Q, R and _ |
| Catalog.PieceForPrototypes | chess.go:337-345 | each known grid byte but K finds the Black, Dead prototype whose symbol is that byte and whose table is that piece's; K finds the king's table under the symbol "N"; _ finds the empty table |
| Catalog.KnightTableShape | chess.go:175-227 | eight distinct L-shaped jumps, and every L-shaped jump is among them |
| Catalog.BishopTableShape | chess.go:165-171 | 28 distinct diagonal offsets of magnitude 1..7, every diagonal at every magnitude present |
| Catalog.RookTableShape | chess.go:279-282 | 28 distinct orthogonal offsets of magnitude 1..7, every ray at every magnitude present |
| Catalog.QueenTableShape | chess.go:286-290 | 56 distinct offsets: the 28 diagonal ones first, then the 28 orthogonal ones, every diagonal and every ray at every magnitude 1..7 present |
| Catalog.KingTableShape | chess.go:294-317 | ten offsets: the eight distinct unit steps, all of them, then (-2, 0) and (2, 0) |
| Catalog.PawnTableShape | chess.go:86-117 | six offsets, three classified Up then three Down; the empty square's table is empty |
| Setup.ColorOf | chess.go:347-350 | White exactly for the byte w; any other byte gives the zero value Black |
| Setup.Set | chess.go:326-332 | a nil prototype panics on the dereference, a store into a nil map panics; otherwise the map gains sq, holding the placed piece, and every other entry is unchanged |
| Setup.Place | chess.go:326-332 | the stored piece is the prototype made Alive with the given colour, table and symbol unchanged |
| Setup.CellSquare | chess.go:354-355 | cell (i, j) goes to square (7 - i, 7 - j), on the board exactly for cells 0..7 |
| Setup.GridBoard | chess.go:352-363 | the board the loop builds has exactly the 64 on-board squares as keys |
| Setup.FillRow | chess.go:353-361 | one row of cells: into a nil map it panics on the first cell; into a made map it succeeds iff every cell of the row names a prototype, otherwise panics on the nil prototype, and on success the map holds exactly the cells so far, each with its piece |
| Setup.FilledStep | chess.go:355-360 | storing the current cell's piece extends the "cells so far" invariant by one cell |
| Setup.FilledNextRow | chess.go:352-353 | the invariant after the last cell of a row is the invariant at the start of the next |
| Setup.FillBoard | chess.go:352-363 | the nested placement loops: panic on a nil map; from a made empty map success iff every cell names a prototype, and then the board is GridBoard |
| Setup.FilledMapIsGridBoard | chess.go:352-363 | a map holding all 64 cells each with its piece is exactly GridBoard |
| Setup.NewGameAsWritten | chess.go:326-332 | newGame as written always panics: the board map is never made |
| Setup.NewGame | chess.go:80-366 | with the map made, setup succeeds iff every cell names a prototype, and the board is GridBoard of the prototypes |
| Setup.GridBoardPlacement | chess.go:352-363 | the cell-to-square map is a bijection onto the board, and each square holds its cell's piece, colour and Alive state |
| Setup.KingCellHasKnightSymbol | chess.go:294-297 | a K cell puts a piece with symbol "N" and the king's table on the board |
| Moves.Destinations | game.go:102-110 | one destination per offset, each the offset applied to the square |
| Moves.AvailableSquares | game.go:102-110 | every square returned is on the board |
| Moves.AvailableSquaresMeaning | game.go:102-110 | s is returned iff s is on the board and the offset to it is in the piece's table |
| Moves.GetAvailableSquares | game.go:102-110 | the loop returns AvailableSquares |
| Moves.Select | game.go:142-299 | the filtered destinations are no more than the offsets and all on the board |
| Moves.AdmitsMeaning | game.go:142-299 | the pawn test admits exactly a forward offset for its colour that is diagonal onto an occupied square or vertical onto an empty one; every other routine's test admits only an occupied square of the other colour, and the rook's only an orthogonal offset |
| Moves.SelectMembers | game.go:142-299 | s is selected iff some offset admitted by the routine's test leads to s |
| Moves.SelectOverTable | game.go:142-299 | over a table's in-bounds offsets, s is selected iff s is on the board, its offset is in the table and the test admits it |
| Moves.PawnSquares | game.go:142-165 | every pawn square is on the board |
| Moves.GetAvailableSquaresForPawn | game.go:142-165 | the loop returns PawnSquares |
| Moves.PawnKeeps | game.go:147-162 | the loop body keeps the destination exactly when the pawn test admits it |
| Moves.PawnSquaresMeaning | game.go:142-165 | with the pawn table, s is returned iff it is on the board one rank forward for the pawn's colour, at most one file aside, and occupied exactly when diagonal |
| Moves.PawnCapturesOwnColour | game.go:150-154 | a white pawn returns a diagonal forward square holding a white piece |
| Moves.GetAvailableSquaresForKnight | game.go:167-171 | the knight routine returns AvailableSquares of the piece |
| Moves.KnightReach | game.go:167-171 | with the knight table, s is returned iff it is on the board and an L-shaped jump away |
| Moves.DiagMinima | game.go:179-216 | each of the four diagonal minima lies in 1..7 |
| Moves.DiagMinimaIsMinimum | game.go:179-216 | after the first bishop loop each ray's minimum lies in 1..7, is at most the distance of every occupied square on that ray, and is 7 or the distance of one of them |
| Moves.DiagonalMinimaLoop | game.go:179-216 | the loop's four minima are DiagMinima |
| Moves.BishopCaptureLoop | game.go:218-233 | the second loop returns the squares its colour-and-distance test admits, in order |
| Moves.GetAvailableSquaresForBishop | game.go:173-235 | the routine returns BishopSquares |
| Moves.BishopSquares | game.go:173-235 | every bishop square is on the board |
| Moves.BishopSkipsDiagonals | game.go:218-233 | no in-bounds diagonal offset passes the second loop's test |
| Moves.BishopSquaresMeaning | game.go:173-235 | a returned square holds an enemy, its offset is in the table and not diagonal; conversely every enemy reached by a table offset on a vertical ray or the leftward ray is returned |
| Moves.BishopTableYieldsNothing | game.go:173-235 | a piece whose table is all diagonal gets no square from the bishop routine |
| Moves.OrthMinima | game.go:243-280 | each of the four orthogonal minima lies in 1..7 |
| Moves.OrthMinimaIsMinimum | game.go:243-280 | after the first rook loop each ray's minimum lies in 1..7, is at most the distance of every occupied square on that ray, and is 7 or attained |
| Moves.OrthogonalMinimaLoop | game.go:243-280 | the loop's four minima are OrthMinima |
| Moves.RookCaptureLoop | game.go:282-297 | the second loop returns the squares its test admits, in order |
| Moves.GetAvailableSquaresForRook | game.go:237-299 | the routine returns RookSquares |
| Moves.RookSquares | game.go:237-299 | every rook square is on the board |
| Moves.RookSquaresEmpty | game.go:237-299 | the rook routine returns nothing, for every board and square |
| Moves.QueenSquares | game.go:301-306 | the bishop pass followed by the rook pass, all on the board |
| Moves.QueenIsBishopPass | game.go:301-306 | the queen's squares are exactly the bishop pass's |
| Moves.GetAvailableSquaresForQueen | game.go:301-306 | the routine returns QueenSquares |
| Moves.GetAvailableSquaresForKing | game.go:308-313 | the king routine returns the queen routine's squares |
| Moves.DispatchError | game.go:116-138 | no error exactly for the six symbols with a case; otherwise "unknown symbol" naming the symbol |
| Moves.AvailableFor | game.go:112-140 | the error is the symbol's dispatch error, an unknown symbol gets no squares, and every square is on the board |
| Moves.GetAvailableSquaresFor | game.go:112-140 | the switch returns AvailableFor's squares and error |
| Moves.KingMovesAsKnight | chess.go:294-317 | on a set-up board a king gets no error and reaches s iff s is on the board and its offset is in the king's table |
| Notation.ParseMove | game.go:23-42 | fewer than two bytes panics on the slice, a bad square name panics, exactly two bytes panics on the index; otherwise the destination is parsed, taking is the x test, and the move is the symbol, the optional x and the square name |
| Notation.ParseMoveRoundTrip | game.go:23-42 | a move written as symbol, optional x and an on-board square name parses back to those parts |
| Notation.ParseMoveExamples | game.go:37-41 | "Nge5" gives e5 with symbol "Ng", "Qxh8" gives h8 taking with "Q", "e4" panics on the index |
| Notation.Candidates | game.go:45-64 | every candidate is a board square |
| Notation.Matches | game.go:49-61 | a square matches iff its piece's symbol is the symbol's first byte and, when a second byte is given, the square's file letter is that byte |
| Notation.CandidatesMeaning | game.go:49-61 | a square is a candidate iff its piece's symbol is the first symbol byte and, when a second byte is given, its file letter is that byte |
| Notation.FindPieces | game.go:45-64 | an empty symbol panics on the slice; otherwise every candidate exactly once, in an arbitrary order |
| Notation.Occurrences | game.go:83-89 | the number of times the destination occurs in the list (its multiplicity), zero exactly when it is absent, never more than the list's length |
| Notation.MatchCountIsTotal | game.go:74-90 | over candidates without repeats, the count in visiting order equals the order-free total |
| Notation.TotalMatchesRemove | game.go:74-90 | the total splits off any one candidate, whichever is visited first |
| Notation.TotalMatchesAdd | game.go:74-90 | adding a candidate adds its count |
| Notation.TotalMatchesZero | game.go:92-94 | the total is zero iff no candidate's reachable squares contain the destination |
| Notation.ExactlyOneMatch | game.go:96-98 | with a total of one, only one candidate reaches the destination |
| Notation.CandidatesShareSymbol | game.go:49-61 | every candidate carries the symbol's first byte |
| Notation.LastReachingExists | game.go:76-90 | some candidate reaches the destination exactly when the ordered count is positive |
| Notation.LastReachingReaches | game.go:76-90 | the candidate at the last reaching position does reach the destination |
| Notation.LastReachingIsLast | game.go:76-90 | no candidate after the last reaching position reaches the destination |
| Notation.SearchStep | game.go:76-90 | one more candidate adds its reach to the count, and becomes the last reaching one iff it reaches the destination |
| Notation.ScanReachable | game.go:83-89 | the count grows by the destination's occurrences, the flag says whether anything was ever found, and the start square becomes this candidate iff it was found here |
| Notation.VisitCandidate | game.go:76-90 | one candidate: its dispatch error replaces the error, and the count and the start square change as in ScanReachable |
| Notation.SearchOne | game.go:76-90 | one round of the outer loop carries the count, the flag, the last reaching candidate and the error from a prefix of candidates to the next one |
| Notation.SearchInits | game.go:74-90 | the count is the ordered count over the candidates; a start square is recorded iff some candidate reaches the destination, and it is the candidate at the last reaching position; the error is the last candidate's dispatch error, or the incoming one when there are none |
| Notation.CountOverCandidates | game.go:67-90 | the count over findPiece's result equals the total over the candidate set |
| Notation.SameDispatch | game.go:112-140 | once one candidate reaches the destination, every candidate's dispatch succeeds |
| Notation.MoveToInstruction | game.go:22-100 | it returns iff the parse succeeds with a non-empty symbol, and parse panics pass through; then with n the total: no error iff n = 1, "no pieces could go" for n = 0 with the start square left at (0, 0), "found n init points" for n > 1; for n ≥ 1 the start square is a candidate that reaches the destination, and for n = 1 the only one |

## Left out

- Reading the grid from a CSV reader, and the `check` helper, are not part of this model. The grid is a parameter, and `check` is taken to panic on a non-nil error.
- draw.go (rendering the board) is not part of this model.
- `Board.CheckMove` is declared without a body in the source, so there is nothing to model.
- The `value` field of a piece, and the board's `nowPlaying` and `moves` fields, are omitted. No modelled operation reads them.
- Go's map iteration order is modelled as an arbitrary choice. `FindPieces` picks keys with `:|`, and the count is proved independent of the order.
- Pointers and aliasing are not modelled. Each square holds its own copy of a prototype, as `set` makes one.
- Panics are modelled as result values (`Failure`, `Panicked`, `Aborted`). The error values carry a constructor, not the exact message text.
- Pieces.ValidBoard: the model requires the board's keys to be exactly the 64 on-board squares. In the source a missing key gives a nil piece and a panic, and extra off-board keys would be accepted and visited by the symbol search in `findPiece` (game.go:50-53). Every board that setup builds has exactly these keys, so neither case is modelled.
- Strings are `seq<char>` whose elements stand for the bytes of a Go string. The model agrees with the source on ASCII text only: a move with a multi-byte character, such as "Né5", is sliced and indexed by bytes in the source and is not modelled.
- Geometry.Name: requires a file index in 0..7. The source panics on an out-of-range file, and the model does not represent that panic.
- Moves.PawnSquaresMeaning: stated only for a piece carrying the pawn table, which is what every pawn on a set-up board carries.
- Moves.BishopSquaresMeaning: the converse direction covers the vertical rays and the leftward horizontal ray. These are the non-diagonal cases where the routine's ray test always passes. It is left unstated for the rightward horizontal ray and for offsets that `moveType` classifies as unknown, which it reports as (Right, Up): they face the `move.x < minRU` test, which every such offset with x ≤ 0 passes.
- The source's comments describe the bishop, rook and queen as stopping at the first piece and capturing only the other colour, and the pawn as capturing only enemies. The model follows the code, whose behaviour differs; see the proved properties above.

## Findings

| source | as written | input that shows it | evidently intended | confidence | as-written member | corrected member |
|---|---|---|---|---|---|---|
| chess.go:326-332 | `newGame` returns a `Board` whose `squares` map is never made, so the first store in `set` assigns into a nil map and panics | any grid whose first cell names a prototype, e.g. "bR" | make the map before placing pieces, so that the grid is copied onto the board | not executed | Setup.NewGameAsWritten | Setup.NewGame |
