/**
  The squares a piece may move to: the offset tables filtered by the board
  (ChessPiece.GetAvailableSquares and the Board.GetAvailableSquaresFor*
  family of game.go).

  Every routine has the same shape. It takes the in-bounds offsets of the
  piece's table, in table order, and keeps the destinations that some rule
  admits. Pawn, bishop and rook each have a rule. The bishop and rook rules
  depend on "minima" that a first pass over the same offsets computes. One
  selection function, Select, meets all three rules. The methods follow the
  source's loops and are proved equal to these functions.
 */
module Moves {
  import opened Wrappers
  import opened Geometry
  import opened Pieces
  import opened Catalog
  import opened Setup

  // ---------------------------------------------------------------------
  // Plain destinations

  /** The destination of each offset, in order. */
  function Destinations(moves: seq<Move>, loc: Square): (dests: seq<Square>)
    ensures |dests| == |moves|
    ensures forall k :: 0 <= k < |moves| ==> dests[k] == CalcMove(moves[k], loc)
    decreases |moves|
  {
    if moves == [] then []
    else Destinations(moves[..|moves| - 1], loc) + [CalcMove(moves[|moves| - 1], loc)]
  }

  /** ChessPiece.GetAvailableSquares: where the in-bounds offsets of the piece's table lead. */
  function AvailableSquares(p: Piece, loc: Square): (squares: seq<Square>)
    ensures forall s :: s in squares ==> InRange(s)
  {
    var legal := LegalMoves(p.legalMoves, loc);
    var dests := Destinations(legal, loc);
    assert forall k :: 0 <= k < |dests| ==> legal[k] in legal;
    dests
  }

  /** Reachable means: on the board, and the offset to it is in the table. No square is looked at. */
  lemma AvailableSquaresMeaning(p: Piece, loc: Square)
    ensures forall s :: s in AvailableSquares(p, loc) <==> InRange(s) && Offset(loc, s) in p.legalMoves
  {
    var legal := LegalMoves(p.legalMoves, loc);
    var dests := Destinations(legal, loc);
    forall s | s in dests
      ensures InRange(s) && Offset(loc, s) in p.legalMoves
    {
      var k :| 0 <= k < |dests| && dests[k] == s;
      assert legal[k] in legal;
      OffsetCalcMove(loc, s);
    }
    forall s | InRange(s) && Offset(loc, s) in p.legalMoves
      ensures s in dests
    {
      var m := Offset(loc, s);
      assert CalcMove(m, loc) == s;
      assert m in legal;
      var k :| 0 <= k < |legal| && legal[k] == m;
      assert dests[k] == s;
    }
  }

  /** ChessPiece.GetAvailableSquares, as the source's loop. */
  method GetAvailableSquares(p: Piece, loc: Square) returns (squares: seq<Square>)
    ensures squares == AvailableSquares(p, loc)
  {
    var moves := GetLegalMoves(p, loc);
    squares := [];
    for k := 0 to |moves|
      invariant squares == Destinations(moves[..k], loc)
    {
      assert moves[..k + 1][..k] == moves[..k];
      squares := squares + [CalcMove(moves[k], loc)];
    }
    assert moves[..|moves|] == moves;
  }

  // ---------------------------------------------------------------------
  // Rules and selection

  /** The four diagonal minima of the bishop routine: minRU, minRD, minLU, minLD. */
  datatype DiagMins = DiagMins(ru: int, rd: int, lu: int, ld: int)

  /** The four orthogonal minima of the rook routine: minR, minL, minU, minD. */
  datatype OrthMins = OrthMins(r: int, l: int, u: int, d: int)

  /** Which routine's test decides whether a destination is kept. */
  datatype Rule = PawnRule | BishopRule(diag: DiagMins) | RookRule(orth: OrthMins)

  /** The test that the given routine applies to one in-bounds offset m of the piece on sq. */
  predicate Admits(b: Board, piece: Piece, rule: Rule, m: Move, sq: Square)
    requires ValidBoard(b) && InRange(CalcMove(m, sq))
  {
    var c := MoveType(m);
    var dest := CalcMove(m, sq);
    match rule
    case PawnRule =>
      // forward for the piece's colour; diagonals need a piece there, straight moves need none
      ((piece.color == White && c.ud == Up) || (piece.color == Black && c.ud == Down))
      && ((c.kind == Diagonal && Occupied(b, dest)) || (c.kind == Vertical && !Occupied(b, dest)))
    case BishopRule(mn) =>
      // the kind is not consulted here, only the two directions
      Occupied(b, dest) && b.squares[dest].color != piece.color
      && ((c.rl == Right && c.ud == Up && m.x < mn.ru)
          || (c.rl == Right && c.ud == Down && m.x < mn.rd)
          || (c.rl == Left && c.ud == Up && m.y < mn.lu)
          || (c.rl == Left && c.ud == Down && -m.x < mn.ld))
    case RookRule(mn) =>
      Occupied(b, dest) && b.squares[dest].color != piece.color
      && ((c.kind == Horizontal && c.rl == Right && m.x < mn.r)
          || (c.kind == Horizontal && c.rl == Left && -m.x < mn.l)
          || (c.kind == Vertical && c.ud == Up && m.y < mn.u)
          || (c.kind == Vertical && c.ud == Down && -m.y < mn.d))
  }

  /**
    The three tests in terms of the offset itself: a pawn goes one way for its
    colour, diagonally onto a piece or straight onto an empty square; the
    sliding tests only keep squares holding the other colour, and the rook's
    only orthogonal offsets.
   */
  lemma AdmitsMeaning(b: Board, piece: Piece, rule: Rule, m: Move, sq: Square)
    requires ValidBoard(b) && InRange(CalcMove(m, sq))
    ensures rule.PawnRule? ==>
              (Admits(b, piece, rule, m, sq) <==>
                 (if piece.color == White then m.y > 0 else m.y < 0)
                 && ((Abs(m.x) == Abs(m.y) && Occupied(b, CalcMove(m, sq)))
                     || (m.x == 0 && !Occupied(b, CalcMove(m, sq)))))
    ensures !rule.PawnRule? && Admits(b, piece, rule, m, sq) ==>
              Occupied(b, CalcMove(m, sq)) && b.squares[CalcMove(m, sq)].color != piece.color
    ensures rule.RookRule? && Admits(b, piece, rule, m, sq) ==> (m.x == 0) != (m.y == 0)
  {
  }

  /** Every offset leads onto the board. */
  predicate AllInRange(moves: seq<Move>, sq: Square) {
    forall m :: m in moves ==> InRange(CalcMove(m, sq))
  }

  /** The destinations, in order, of the offsets the rule admits. */
  function Select(b: Board, piece: Piece, rule: Rule, moves: seq<Move>, sq: Square): (dests: seq<Square>)
    requires ValidBoard(b) && AllInRange(moves, sq)
    ensures |dests| <= |moves|
    ensures forall s :: s in dests ==> InRange(s)
    decreases |moves|
  {
    if moves == [] then []
    else
      var last := moves[|moves| - 1];
      assert last in moves;
      Select(b, piece, rule, moves[..|moves| - 1], sq)
        + (if Admits(b, piece, rule, last, sq) then [CalcMove(last, sq)] else [])
  }

  /** A selected square is the destination of an admitted offset, and every admitted offset's destination is selected. */
  lemma {:induction false} SelectMembers(b: Board, piece: Piece, rule: Rule, moves: seq<Move>, sq: Square)
    requires ValidBoard(b) && AllInRange(moves, sq)
    ensures forall s :: s in Select(b, piece, rule, moves, sq) <==>
              exists m :: m in moves && Admits(b, piece, rule, m, sq) && CalcMove(m, sq) == s
    decreases |moves|
  {
    if moves != [] {
      var init := moves[..|moves| - 1];
      var last := moves[|moves| - 1];
      assert moves == init + [last];
      SelectMembers(b, piece, rule, init, sq);
      var rest := Select(b, piece, rule, init, sq);
      forall s | s in Select(b, piece, rule, moves, sq)
        ensures exists m :: m in moves && Admits(b, piece, rule, m, sq) && CalcMove(m, sq) == s
      {
        if s in rest {
          var m :| m in init && Admits(b, piece, rule, m, sq) && CalcMove(m, sq) == s;
          assert m in moves;
        } else {
          assert last in moves && Admits(b, piece, rule, last, sq) && CalcMove(last, sq) == s;
        }
      }
      forall s | exists m :: m in moves && Admits(b, piece, rule, m, sq) && CalcMove(m, sq) == s
        ensures s in Select(b, piece, rule, moves, sq)
      {
        var m :| m in moves && Admits(b, piece, rule, m, sq) && CalcMove(m, sq) == s;
        if m != last {
          assert m in init;
        }
      }
    }
  }

  /** Over a piece's in-bounds table: s is selected iff it is on the board, its offset is in the table and the rule admits it. */
  lemma SelectOverTable(b: Board, piece: Piece, rule: Rule, table: seq<Move>, sq: Square, s: Square)
    requires ValidBoard(b)
    ensures AllInRange(LegalMoves(table, sq), sq)
    ensures s in Select(b, piece, rule, LegalMoves(table, sq), sq) <==>
              InRange(s) && Offset(sq, s) in table && Admits(b, piece, rule, Offset(sq, s), sq)
  {
    var legal := LegalMoves(table, sq);
    SelectMembers(b, piece, rule, legal, sq);
    OffsetCalcMove(sq, s);
    if s in Select(b, piece, rule, legal, sq) {
      var m :| m in legal && Admits(b, piece, rule, m, sq) && CalcMove(m, sq) == s;
      OffsetCalcMove(sq, CalcMove(m, sq));
      assert Offset(sq, s) == m;
    }
    if InRange(s) && Offset(sq, s) in table && Admits(b, piece, rule, Offset(sq, s), sq) {
      assert Offset(sq, s) in legal;
    }
  }

  // ---------------------------------------------------------------------
  // Pawn

  /** Board.GetAvailableSquaresForPawn: the destinations the pawn rule admits. */
  function PawnSquares(b: Board, sq: Square): (squares: seq<Square>)
    requires ValidBoard(b) && InRange(sq)
    ensures forall s :: s in squares ==> InRange(s)
  {
    var piece := b.squares[sq];
    Select(b, piece, PawnRule, LegalMoves(piece.legalMoves, sq), sq)
  }

  /** Board.GetAvailableSquaresForPawn, as the source's loop. */
  method GetAvailableSquaresForPawn(b: Board, sq: Square) returns (squares: seq<Square>)
    requires ValidBoard(b) && InRange(sq)
    ensures squares == PawnSquares(b, sq)
  {
    squares := [];
    var piece := b.squares[sq];
    var moves := GetLegalMoves(piece, sq);
    for k := 0 to |moves|
      invariant squares == Select(b, piece, PawnRule, moves[..k], sq)
    {
      var move := moves[k];
      assert moves[..k + 1][..k] == moves[..k];
      assert move in moves;
      var keep := PawnKeeps(b, piece, move, sq);
      if keep {
        squares := squares + [CalcMove(move, sq)];
      }
    }
    assert moves[..|moves|] == moves;
  }

  /** The pawn loop's body: forward for the piece's colour, then the diagonal or the vertical test. */
  method PawnKeeps(b: Board, piece: Piece, move: Move, sq: Square) returns (keep: bool)
    requires ValidBoard(b) && InRange(CalcMove(move, sq))
    ensures keep == Admits(b, piece, PawnRule, move, sq)
  {
    keep := false;
    var c := MoveType(move);
    var dest := CalcMove(move, sq);
    if (piece.color == White && c.ud == Up) || (piece.color == Black && c.ud == Down) {
      if c.kind == Diagonal {
        if b.squares[dest].symbol != EmptySymbol {
          keep := true;
        }
      } else if c.kind == Vertical {
        if b.squares[dest].symbol == EmptySymbol {
          keep := true;
        }
      }
    }
  }

  /**
    With the pawn table, a white pawn steps one rank up and a black pawn one
    rank down; within one file it needs an empty square, beside it an occupied one.
   */
  lemma PawnSquaresMeaning(b: Board, sq: Square, s: Square)
    requires ValidBoard(b) && InRange(sq)
    requires b.squares[sq].legalMoves == PawnTable()
    ensures s in PawnSquares(b, sq) <==>
              InRange(s)
              && s.y == (if b.squares[sq].color == White then sq.y + 1 else sq.y - 1)
              && Abs(s.x - sq.x) <= 1
              && (Occupied(b, s) <==> s.x != sq.x)
  {
    SelectOverTable(b, b.squares[sq], PawnRule, PawnTable(), sq, s);
    if InRange(s) {
      OffsetCalcMove(sq, s);
      PawnRuleOnTable(b, b.squares[sq], Offset(sq, s), sq);
    }
  }

  /** The pawn rule on the pawn table, offset by offset. */
  lemma PawnRuleOnTable(b: Board, piece: Piece, m: Move, sq: Square)
    requires ValidBoard(b) && InRange(CalcMove(m, sq))
    ensures (m in PawnTable() && Admits(b, piece, PawnRule, m, sq)) <==>
              m.y == (if piece.color == White then 1 else -1) && Abs(m.x) <= 1
              && (Occupied(b, CalcMove(m, sq)) <==> m.x != 0)
  {
    if m in PawnTable() {
      assert m.x == 0 || Abs(m.x) == Abs(m.y);
    }
    if Abs(m.y) == 1 && Abs(m.x) <= 1 {
      assert m in PawnTable();
    }
  }

  /** The pawn's capture test ignores colour: a pawn takes a piece of its own side as readily as an enemy. */
  lemma PawnCapturesOwnColour(b: Board, sq: Square)
    requires ValidBoard(b) && InRange(sq)
    requires b.squares[sq].legalMoves == PawnTable() && b.squares[sq].color == White
    requires InRange(Square(sq.x - 1, sq.y + 1))
    requires Occupied(b, Square(sq.x - 1, sq.y + 1))
    requires b.squares[Square(sq.x - 1, sq.y + 1)].color == White
    ensures Square(sq.x - 1, sq.y + 1) in PawnSquares(b, sq)
  {
    PawnSquaresMeaning(b, sq, Square(sq.x - 1, sq.y + 1));
  }

  // ---------------------------------------------------------------------
  // Knight

  /** Board.GetAvailableSquaresForKnight: the plain destinations of the piece's table. */
  method GetAvailableSquaresForKnight(b: Board, sq: Square) returns (squares: seq<Square>)
    requires ValidBoard(b) && InRange(sq)
    ensures squares == AvailableSquares(b.squares[sq], sq)
  {
    var p := b.squares[sq];
    squares := GetAvailableSquares(p, sq);
  }

  /** A piece with the knight table reaches exactly the on-board squares an L-shaped jump away, whatever stands on them. */
  lemma KnightReach(p: Piece, loc: Square, s: Square)
    requires p.legalMoves == KnightTable()
    ensures s in AvailableSquares(p, loc) <==>
              InRange(s)
              && ((Abs(s.x - loc.x) == 1 && Abs(s.y - loc.y) == 2) || (Abs(s.x - loc.x) == 2 && Abs(s.y - loc.y) == 1))
  {
    AvailableSquaresMeaning(p, loc);
    KnightTableShape();
    var m := Offset(loc, s);
    if m in KnightTable() {
      var k :| 0 <= k < 8 && KnightTable()[k] == m;
    }
  }

  // ---------------------------------------------------------------------
  // Minima of the sliding pieces

  /** One step of the bishop routine's first loop: a diagonal offset onto an occupied square lowers its ray's minimum. */
  function DiagStep(b: Board, mn: DiagMins, m: Move, sq: Square): DiagMins
    requires ValidBoard(b) && InRange(CalcMove(m, sq))
  {
    var c := MoveType(m);
    if c.kind == Diagonal && Occupied(b, CalcMove(m, sq)) then
      if c.rl == Right && c.ud == Up then mn.(ru := if m.x < mn.ru then m.x else mn.ru)
      else if c.rl == Right && c.ud == Down then mn.(rd := if m.x < mn.rd then m.x else mn.rd)
      else if c.rl == Left && c.ud == Up then mn.(lu := if m.y < mn.lu then m.y else mn.lu)
      else mn.(ld := if -m.y < mn.ld then -m.y else mn.ld)
    else mn
  }

  /** The diagonal minima after the first loop over moves; each starts at the board size. */
  function DiagMinima(b: Board, moves: seq<Move>, sq: Square): (mn: DiagMins)
    requires ValidBoard(b) && AllInRange(moves, sq)
    ensures 1 <= mn.ru <= BoardSize && 1 <= mn.rd <= BoardSize
    ensures 1 <= mn.lu <= BoardSize && 1 <= mn.ld <= BoardSize
    decreases |moves|
  {
    if moves == [] then DiagMins(BoardSize, BoardSize, BoardSize, BoardSize)
    else
      assert moves[|moves| - 1] in moves;
      DiagStep(b, DiagMinima(b, moves[..|moves| - 1], sq), moves[|moves| - 1], sq)
  }

  /** The minimum kept for the diagonal ray (rl, ud). */
  function DiagField(mn: DiagMins, rl: RL, ud: UD): int {
    match (rl, ud)
    case (Right, Up) => mn.ru
    case (Right, Down) => mn.rd
    case (Left, Up) => mn.lu
    case (Left, Down) => mn.ld
  }

  /** Offset m runs along the diagonal ray (rl, ud) onto an occupied square. */
  predicate DiagBlocker(b: Board, m: Move, sq: Square, rl: RL, ud: UD)
    requires ValidBoard(b) && InRange(CalcMove(m, sq))
  {
    MoveType(m) == MoveClass(Diagonal, rl, ud) && Occupied(b, CalcMove(m, sq))
  }

  /**
    Each diagonal minimum is the distance of the nearest occupied square along
    its ray among the offsets looked at, or the board size when there is none.
   */
  lemma {:induction false} DiagMinimaIsMinimum(b: Board, moves: seq<Move>, sq: Square, rl: RL, ud: UD)
    requires ValidBoard(b) && AllInRange(moves, sq)
    ensures 1 <= DiagField(DiagMinima(b, moves, sq), rl, ud) <= BoardSize
    ensures forall m :: m in moves && DiagBlocker(b, m, sq, rl, ud) ==>
              DiagField(DiagMinima(b, moves, sq), rl, ud) <= Abs(m.x)
    ensures DiagField(DiagMinima(b, moves, sq), rl, ud) == BoardSize
            || exists m :: m in moves && DiagBlocker(b, m, sq, rl, ud)
                           && Abs(m.x) == DiagField(DiagMinima(b, moves, sq), rl, ud)
    decreases |moves|
  {
    if moves != [] {
      var init := moves[..|moves| - 1];
      var last := moves[|moves| - 1];
      assert moves == init + [last];
      assert forall m :: m in init ==> m in moves;
      DiagMinimaIsMinimum(b, init, sq, rl, ud);
      DiagStepField(b, DiagMinima(b, init, sq), last, sq, rl, ud);
    }
  }

  /** One step lowers the field of its offset's ray to the offset's distance, and leaves the other fields alone. */
  lemma DiagStepField(b: Board, mn: DiagMins, m: Move, sq: Square, rl: RL, ud: UD)
    requires ValidBoard(b) && InRange(CalcMove(m, sq))
    ensures DiagField(DiagStep(b, mn, m, sq), rl, ud) ==
              if DiagBlocker(b, m, sq, rl, ud) && Abs(m.x) < DiagField(mn, rl, ud) then Abs(m.x)
              else DiagField(mn, rl, ud)
  {
  }

  /** One step of the rook routine's first loop: an orthogonal offset onto an occupied square lowers its ray's minimum. */
  function OrthStep(b: Board, mn: OrthMins, m: Move, sq: Square): OrthMins
    requires ValidBoard(b) && InRange(CalcMove(m, sq))
  {
    var c := MoveType(m);
    if Occupied(b, CalcMove(m, sq)) then
      if c.kind == Vertical then
        if c.ud == Up then mn.(u := if m.y < mn.u then m.y else mn.u)
        else mn.(d := if -m.y < mn.d then -m.y else mn.d)
      else if c.kind == Horizontal then
        if c.rl == Right then mn.(r := if m.x < mn.r then m.x else mn.r)
        else mn.(l := if -m.x < mn.l then -m.x else mn.l)
      else mn
    else mn
  }

  /** The orthogonal minima after the first loop over moves; each starts at the board size. */
  function OrthMinima(b: Board, moves: seq<Move>, sq: Square): (mn: OrthMins)
    requires ValidBoard(b) && AllInRange(moves, sq)
    ensures 1 <= mn.r <= BoardSize && 1 <= mn.l <= BoardSize
    ensures 1 <= mn.u <= BoardSize && 1 <= mn.d <= BoardSize
    decreases |moves|
  {
    if moves == [] then OrthMins(BoardSize, BoardSize, BoardSize, BoardSize)
    else
      assert moves[|moves| - 1] in moves;
      OrthStep(b, OrthMinima(b, moves[..|moves| - 1], sq), moves[|moves| - 1], sq)
  }

  /** The four orthogonal rays, as moveType reports them. */
  predicate OrthRay(c: MoveClass) {
    (c.kind == Horizontal && c.ud == Up) || (c.kind == Vertical && c.rl == Right)
  }

  /** The minimum kept for the orthogonal ray c. */
  function OrthField(mn: OrthMins, c: MoveClass): int {
    if c.kind == Horizontal then (if c.rl == Right then mn.r else mn.l)
    else (if c.ud == Up then mn.u else mn.d)
  }

  /** Offset m runs along the orthogonal ray c onto an occupied square. */
  predicate OrthBlocker(b: Board, m: Move, sq: Square, c: MoveClass)
    requires ValidBoard(b) && InRange(CalcMove(m, sq))
  {
    MoveType(m) == c && Occupied(b, CalcMove(m, sq))
  }

  /**
    Each orthogonal minimum is the distance of the nearest occupied square along
    its ray among the offsets looked at, or the board size when there is none.
   */
  lemma {:induction false} OrthMinimaIsMinimum(b: Board, moves: seq<Move>, sq: Square, c: MoveClass)
    requires ValidBoard(b) && AllInRange(moves, sq) && OrthRay(c)
    ensures 1 <= OrthField(OrthMinima(b, moves, sq), c) <= BoardSize
    ensures forall m :: m in moves && OrthBlocker(b, m, sq, c) ==>
              OrthField(OrthMinima(b, moves, sq), c) <= Abs(m.x) + Abs(m.y)
    ensures OrthField(OrthMinima(b, moves, sq), c) == BoardSize
            || exists m :: m in moves && OrthBlocker(b, m, sq, c)
                           && Abs(m.x) + Abs(m.y) == OrthField(OrthMinima(b, moves, sq), c)
    decreases |moves|
  {
    if moves != [] {
      var init := moves[..|moves| - 1];
      var last := moves[|moves| - 1];
      assert moves == init + [last];
      assert forall m :: m in init ==> m in moves;
      OrthMinimaIsMinimum(b, init, sq, c);
      OrthStepField(b, OrthMinima(b, init, sq), last, sq, c);
    }
  }

  /** One step lowers the field of its offset's ray to the offset's distance, and leaves the other fields alone. */
  lemma OrthStepField(b: Board, mn: OrthMins, m: Move, sq: Square, c: MoveClass)
    requires ValidBoard(b) && InRange(CalcMove(m, sq)) && OrthRay(c)
    ensures OrthField(OrthStep(b, mn, m, sq), c) ==
              if OrthBlocker(b, m, sq, c) && Abs(m.x) + Abs(m.y) < OrthField(mn, c) then Abs(m.x) + Abs(m.y)
              else OrthField(mn, c)
  {
  }

  // ---------------------------------------------------------------------
  // Bishop

  /** Board.GetAvailableSquaresForBishop: the second loop's selection under the first loop's minima. */
  function BishopSquares(b: Board, sq: Square): (squares: seq<Square>)
    requires ValidBoard(b) && InRange(sq)
    ensures forall s :: s in squares ==> InRange(s)
  {
    var piece := b.squares[sq];
    var moves := LegalMoves(piece.legalMoves, sq);
    Select(b, piece, BishopRule(DiagMinima(b, moves, sq)), moves, sq)
  }

  /** Board.GetAvailableSquaresForBishop, as the source's two loops. */
  method GetAvailableSquaresForBishop(b: Board, sq: Square) returns (squares: seq<Square>)
    requires ValidBoard(b) && InRange(sq)
    ensures squares == BishopSquares(b, sq)
  {
    var piece := b.squares[sq];
    var moves := GetLegalMoves(piece, sq);
    var minRU, minRD, minLU, minLD := DiagonalMinimaLoop(b, moves, sq);
    squares := BishopCaptureLoop(b, piece, moves, sq, DiagMins(minRU, minRD, minLU, minLD));
  }

  /** The bishop routine's first loop. */
  method DiagonalMinimaLoop(b: Board, moves: seq<Move>, sq: Square)
    returns (minRU: int, minRD: int, minLU: int, minLD: int)
    requires ValidBoard(b) && AllInRange(moves, sq)
    ensures DiagMins(minRU, minRD, minLU, minLD) == DiagMinima(b, moves, sq)
  {
    minRU, minRD, minLU, minLD := BoardSize, BoardSize, BoardSize, BoardSize;
    for k := 0 to |moves|
      invariant DiagMins(minRU, minRD, minLU, minLD) == DiagMinima(b, moves[..k], sq)
    {
      var move := moves[k];
      assert moves[..k + 1][..k] == moves[..k];
      assert move in moves;
      var c := MoveType(move);
      var dest := CalcMove(move, sq);
      if c.kind == Diagonal {
        if b.squares[dest].symbol != EmptySymbol {
          if c.rl == Right && c.ud == Up {
            var newMinRU := move.x;
            if newMinRU < minRU { minRU := newMinRU; }
          } else if c.rl == Right && c.ud == Down {
            var newMinRD := move.x;
            if newMinRD < minRD { minRD := newMinRD; }
          } else if c.rl == Left && c.ud == Up {
            var newMinLU := move.y;
            if newMinLU < minLU { minLU := newMinLU; }
          } else if c.rl == Left && c.ud == Down {
            var newMinLD := -move.y;
            if newMinLD < minLD { minLD := newMinLD; }
          }
        }
      }
    }
    assert moves[..|moves|] == moves;
  }

  /** The bishop routine's second loop, under the minima of the first. */
  method BishopCaptureLoop(b: Board, piece: Piece, moves: seq<Move>, sq: Square, mn: DiagMins)
    returns (squares: seq<Square>)
    requires ValidBoard(b) && AllInRange(moves, sq)
    ensures squares == Select(b, piece, BishopRule(mn), moves, sq)
  {
    squares := [];
    for k := 0 to |moves|
      invariant squares == Select(b, piece, BishopRule(mn), moves[..k], sq)
    {
      var move := moves[k];
      assert moves[..k + 1][..k] == moves[..k];
      assert move in moves;
      var c := MoveType(move);
      var dest := CalcMove(move, sq);
      if b.squares[dest].symbol != EmptySymbol && b.squares[dest].color != piece.color {
        if c.rl == Right && c.ud == Up && move.x < mn.ru {
          squares := squares + [dest];
        } else if c.rl == Right && c.ud == Down && move.x < mn.rd {
          squares := squares + [dest];
        } else if c.rl == Left && c.ud == Up && move.y < mn.lu {
          squares := squares + [dest];
        } else if c.rl == Left && c.ud == Down && -move.x < mn.ld {
          squares := squares + [dest];
        }
      }
    }
    assert moves[..|moves|] == moves;
  }

  /** The bishop routine never admits a diagonal offset: the occupied square itself caps its ray's minimum. */
  lemma BishopSkipsDiagonals(b: Board, sq: Square, m: Move)
    requires ValidBoard(b) && InRange(sq)
    requires m in LegalMoves(b.squares[sq].legalMoves, sq) && MoveType(m).kind == Diagonal
    ensures !Admits(b, b.squares[sq],
                    BishopRule(DiagMinima(b, LegalMoves(b.squares[sq].legalMoves, sq), sq)), m, sq)
  {
    var c := MoveType(m);
    DiagMinimaIsMinimum(b, LegalMoves(b.squares[sq].legalMoves, sq), sq, c.rl, c.ud);
  }

  /**
    What the bishop routine returns: only occupied squares of the other colour,
    never along a diagonal; and every enemy square on a vertical ray or on the
    leftward horizontal ray of the table, whatever lies between.
   */
  lemma BishopSquaresMeaning(b: Board, sq: Square, s: Square)
    requires ValidBoard(b) && InRange(sq)
    ensures s in BishopSquares(b, sq) ==>
              Occupied(b, s) && b.squares[s].color != b.squares[sq].color
              && Offset(sq, s) in b.squares[sq].legalMoves && MoveType(Offset(sq, s)).kind != Diagonal
    ensures InRange(s) && Offset(sq, s) in b.squares[sq].legalMoves
            && (MoveType(Offset(sq, s)).kind == Vertical || MoveType(Offset(sq, s)) == MoveClass(Horizontal, Left, Up))
            && Occupied(b, s) && b.squares[s].color != b.squares[sq].color
            ==> s in BishopSquares(b, sq)
  {
    var piece := b.squares[sq];
    var moves := LegalMoves(piece.legalMoves, sq);
    var rule := BishopRule(DiagMinima(b, moves, sq));
    SelectOverTable(b, piece, rule, piece.legalMoves, sq, s);
    if InRange(s) && Offset(sq, s) in piece.legalMoves {
      var m := Offset(sq, s);
      OffsetCalcMove(sq, s);
      assert m in moves;
      if MoveType(m).kind == Diagonal {
        BishopSkipsDiagonals(b, sq, m);
      }
      DiagMinimaIsMinimum(b, moves, sq, Right, Up);
      DiagMinimaIsMinimum(b, moves, sq, Right, Down);
      DiagMinimaIsMinimum(b, moves, sq, Left, Up);
    }
  }

  /** A piece whose table holds only diagonals, the bishop's own, gets no squares at all. */
  lemma BishopTableYieldsNothing(b: Board, sq: Square)
    requires ValidBoard(b) && InRange(sq)
    requires forall m :: m in b.squares[sq].legalMoves ==> MoveType(m).kind == Diagonal
    ensures BishopSquares(b, sq) == []
  {
    if BishopSquares(b, sq) != [] {
      var s := BishopSquares(b, sq)[0];
      BishopSquaresMeaning(b, sq, s);
      assert false;
    }
  }

  // ---------------------------------------------------------------------
  // Rook

  /** Board.GetAvailableSquaresForRook: the second loop's selection under the first loop's minima. */
  function RookSquares(b: Board, sq: Square): (squares: seq<Square>)
    requires ValidBoard(b) && InRange(sq)
    ensures forall s :: s in squares ==> InRange(s)
  {
    var piece := b.squares[sq];
    var moves := LegalMoves(piece.legalMoves, sq);
    Select(b, piece, RookRule(OrthMinima(b, moves, sq)), moves, sq)
  }

  /** Board.GetAvailableSquaresForRook, as the source's two loops. */
  method GetAvailableSquaresForRook(b: Board, sq: Square) returns (squares: seq<Square>)
    requires ValidBoard(b) && InRange(sq)
    ensures squares == RookSquares(b, sq)
  {
    var piece := b.squares[sq];
    var moves := GetLegalMoves(piece, sq);
    var minR, minL, minU, minD := OrthogonalMinimaLoop(b, moves, sq);
    squares := RookCaptureLoop(b, piece, moves, sq, OrthMins(minR, minL, minU, minD));
  }

  /** The rook routine's first loop. */
  method OrthogonalMinimaLoop(b: Board, moves: seq<Move>, sq: Square)
    returns (minR: int, minL: int, minU: int, minD: int)
    requires ValidBoard(b) && AllInRange(moves, sq)
    ensures OrthMins(minR, minL, minU, minD) == OrthMinima(b, moves, sq)
  {
    minR, minL, minU, minD := BoardSize, BoardSize, BoardSize, BoardSize;
    for k := 0 to |moves|
      invariant OrthMins(minR, minL, minU, minD) == OrthMinima(b, moves[..k], sq)
    {
      var move := moves[k];
      assert moves[..k + 1][..k] == moves[..k];
      assert move in moves;
      var c := MoveType(move);
      var dest := CalcMove(move, sq);
      if b.squares[dest].symbol != EmptySymbol {
        if c.kind == Vertical {
          if c.ud == Up {
            var newMinU := move.y;
            if newMinU < minU { minU := newMinU; }
          } else {
            var newMinD := -move.y;
            if newMinD < minD { minD := newMinD; }
          }
        } else if c.kind == Horizontal {
          if c.rl == Right {
            var newMinR := move.x;
            if newMinR < minR { minR := newMinR; }
          } else {
            var newMinL := -move.x;
            if newMinL < minL { minL := newMinL; }
          }
        }
      }
    }
    assert moves[..|moves|] == moves;
  }

  /** The rook routine's second loop, under the minima of the first. */
  method RookCaptureLoop(b: Board, piece: Piece, moves: seq<Move>, sq: Square, mn: OrthMins)
    returns (squares: seq<Square>)
    requires ValidBoard(b) && AllInRange(moves, sq)
    ensures squares == Select(b, piece, RookRule(mn), moves, sq)
  {
    squares := [];
    for k := 0 to |moves|
      invariant squares == Select(b, piece, RookRule(mn), moves[..k], sq)
    {
      var move := moves[k];
      assert moves[..k + 1][..k] == moves[..k];
      assert move in moves;
      var c := MoveType(move);
      var dest := CalcMove(move, sq);
      if b.squares[dest].symbol != EmptySymbol && b.squares[dest].color != piece.color {
        if c.kind == Horizontal && c.rl == Right && move.x < mn.r {
          squares := squares + [dest];
        } else if c.kind == Horizontal && c.rl == Left && -move.x < mn.l {
          squares := squares + [dest];
        } else if c.kind == Vertical && c.ud == Up && move.y < mn.u {
          squares := squares + [dest];
        } else if c.kind == Vertical && c.ud == Down && -move.y < mn.d {
          squares := squares + [dest];
        }
      }
    }
    assert moves[..|moves|] == moves;
  }

  /**
    The rook routine returns nothing, for any piece on any board: every square
    its second loop could take is occupied, so the first loop has already
    capped that ray's minimum at that square's own distance.
   */
  lemma RookSquaresEmpty(b: Board, sq: Square)
    requires ValidBoard(b) && InRange(sq)
    ensures RookSquares(b, sq) == []
  {
    var piece := b.squares[sq];
    var moves := LegalMoves(piece.legalMoves, sq);
    var rule := RookRule(OrthMinima(b, moves, sq));
    if RookSquares(b, sq) != [] {
      var s := RookSquares(b, sq)[0];
      assert s in Select(b, piece, rule, moves, sq);
      SelectMembers(b, piece, rule, moves, sq);
      var m :| m in moves && Admits(b, piece, rule, m, sq) && CalcMove(m, sq) == s;
      assert OrthRay(MoveType(m));
      OrthMinimaIsMinimum(b, moves, sq, MoveType(m));
      assert false;
    }
  }

  // ---------------------------------------------------------------------
  // Queen and king

  /** Board.GetAvailableSquaresForQueen: the bishop routine's squares followed by the rook routine's. */
  function QueenSquares(b: Board, sq: Square): (squares: seq<Square>)
    requires ValidBoard(b) && InRange(sq)
    ensures forall s :: s in squares ==> InRange(s)
  {
    BishopSquares(b, sq) + RookSquares(b, sq)
  }

  /** Since the rook routine contributes nothing, the queen's squares are the bishop routine's. */
  lemma QueenIsBishopPass(b: Board, sq: Square)
    requires ValidBoard(b) && InRange(sq)
    ensures QueenSquares(b, sq) == BishopSquares(b, sq)
  {
    RookSquaresEmpty(b, sq);
  }

  /** Board.GetAvailableSquaresForQueen. */
  method GetAvailableSquaresForQueen(b: Board, sq: Square) returns (squares: seq<Square>)
    requires ValidBoard(b) && InRange(sq)
    ensures squares == QueenSquares(b, sq)
  {
    var bishopSquares := GetAvailableSquaresForBishop(b, sq);
    var rookSquares := GetAvailableSquaresForRook(b, sq);
    squares := bishopSquares + rookSquares;
  }

  /** Board.GetAvailableSquaresForKing: the queen routine, applied to the king's own table. */
  method GetAvailableSquaresForKing(b: Board, sq: Square) returns (squares: seq<Square>)
    requires ValidBoard(b) && InRange(sq)
    ensures squares == QueenSquares(b, sq)
  {
    squares := GetAvailableSquaresForQueen(b, sq);
  }

  // ---------------------------------------------------------------------
  // Dispatch on the symbol

  /** The errors of the move routines. */
  datatype GameError =
    | UnknownSymbol(symbol: string)
    | NoMatchingPieces(symbol: string)
    | NoPiecesCouldGoTo(dest: Square)
    | FoundInits(count: int)

  /** The two results of Board.GetAvailableSquaresFor. */
  datatype Reach = Reach(squares: seq<Square>, err: Option<GameError>)

  /** The symbols the dispatcher has a case for. */
  predicate Dispatched(symbol: string) {
    symbol in {"p", "N", "B", "R", "Q", "K"}
  }

  /** The dispatcher's error depends on the symbol alone: none for the six symbols it knows, "unknown symbol" otherwise. */
  function DispatchError(symbol: string): (e: Option<GameError>)
    ensures e.None? <==> Dispatched(symbol)
    ensures e.Some? ==> e.value == UnknownSymbol(symbol)
  {
    if Dispatched(symbol) then None else Some(UnknownSymbol(symbol))
  }

  /** Board.GetAvailableSquaresFor: the routine chosen by the symbol of the piece on sq. */
  function AvailableFor(b: Board, sq: Square): (r: Reach)
    requires ValidBoard(b) && InRange(sq)
    ensures r.err == DispatchError(b.squares[sq].symbol)
    ensures r.err.Some? ==> r.squares == []
    ensures forall s :: s in r.squares ==> InRange(s)
  {
    var symbol := b.squares[sq].symbol;
    if symbol == "p" then Reach(PawnSquares(b, sq), None)
    else if symbol == "N" then Reach(AvailableSquares(b.squares[sq], sq), None)
    else if symbol == "B" then Reach(BishopSquares(b, sq), None)
    else if symbol == "R" then Reach(RookSquares(b, sq), None)
    else if symbol == "Q" then Reach(QueenSquares(b, sq), None)
    else if symbol == "K" then Reach(QueenSquares(b, sq), None)
    else Reach([], Some(UnknownSymbol(symbol)))
  }

  /** Board.GetAvailableSquaresFor, as the source's switch. */
  method GetAvailableSquaresFor(b: Board, sq: Square) returns (squares: seq<Square>, e: Option<GameError>)
    requires ValidBoard(b) && InRange(sq)
    ensures Reach(squares, e) == AvailableFor(b, sq)
  {
    var piece := b.squares[sq];
    squares := [];
    e := None;
    match piece.symbol
    case "p" => squares := GetAvailableSquaresForPawn(b, sq);
    case "N" => squares := GetAvailableSquaresForKnight(b, sq);
    case "B" => squares := GetAvailableSquaresForBishop(b, sq);
    case "R" => squares := GetAvailableSquaresForRook(b, sq);
    case "Q" => squares := GetAvailableSquaresForQueen(b, sq);
    case "K" => squares := GetAvailableSquaresForKing(b, sq);
    case _ => e := Some(UnknownSymbol(piece.symbol));
  }

  /**
    On a set-up board the king carries the knight's symbol, so it is sent to
    the knight routine: it reaches every on-board square of its own table,
    whatever stands there, and never fails.
   */
  lemma KingMovesAsKnight(grid: seq<seq<string>>, i: int, j: int, s: Square)
    requires WellShaped(grid) && AllCellsKnown(grid)
    requires 0 <= i < 8 && 0 <= j < 8 && grid[i][j][1] == 'K'
    ensures InRange(CellSquare(i, j)) && ValidBoard(GridBoard(Prototypes(), grid))
    ensures AvailableFor(GridBoard(Prototypes(), grid), CellSquare(i, j)).err == None
    ensures s in AvailableFor(GridBoard(Prototypes(), grid), CellSquare(i, j)).squares <==>
              InRange(s) && Offset(CellSquare(i, j), s) in KingTable()
  {
    var b := GridBoard(Prototypes(), grid);
    var sq := CellSquare(i, j);
    KingCellHasKnightSymbol(grid, i, j);
    AvailableSquaresMeaning(b.squares[sq], sq);
  }
}
