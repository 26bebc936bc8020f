/**
  The fixed offset tables and piece prototypes that the source builds at
  the start of newGame, and the byte-to-prototype lookup of its grid reader.
 */
module Catalog {
  import opened Wrappers
  import opened Geometry
  import opened Pieces

  /** diag: a diagonal offset of magnitude n in the given senses. */
  function Diag(n: int, rl: RL, ud: UD): (m: Move)
    ensures Abs(m.x) == Abs(n) && Abs(m.y) == Abs(n)
    ensures n >= 1 ==> MoveType(m) == MoveClass(Diagonal, rl, ud)
  {
    match (rl, ud)
    case (Right, Up) => Move(n, n)
    case (Right, Down) => Move(n, -n)
    case (Left, Up) => Move(-n, n)
    case (Left, Down) => Move(-n, -n)
  }

  /**
    horiz: an orthogonal offset of magnitude n. The source reuses the two
    flags oddly: (Right, Up) is rightwards, (Right, Down) leftwards,
    (Left, Up) downwards and (Left, Down) upwards.
   */
  function Horiz(n: int, rl: RL, ud: UD): (m: Move)
    ensures Abs(m.x) + Abs(m.y) == Abs(n) && (m.x == 0 || m.y == 0)
    ensures n >= 1 ==> MoveType(m) == match (rl, ud)
                                       case (Right, Up) => MoveClass(Horizontal, Right, Up)
                                       case (Right, Down) => MoveClass(Horizontal, Left, Up)
                                       case (Left, Up) => MoveClass(Vertical, Right, Down)
                                       case (Left, Down) => MoveClass(Vertical, Right, Up)
  {
    match (rl, ud)
    case (Right, Up) => Move(n, 0)
    case (Right, Down) => Move(-n, 0)
    case (Left, Up) => Move(0, -n)
    case (Left, Down) => Move(0, n)
  }

  /** The seven offsets of one diagonal ray, magnitudes 1..7. */
  function DiagRay(rl: RL, ud: UD): seq<Move> {
    seq(7, k requires 0 <= k < 7 => Diag(k + 1, rl, ud))
  }

  /** The seven offsets of one orthogonal ray, magnitudes 1..7. */
  function HorizRay(rl: RL, ud: UD): seq<Move> {
    seq(7, k requires 0 <= k < 7 => Horiz(k + 1, rl, ud))
  }

  /** rangeDiag: fills a 7-slot array with diag(1..7). */
  method RangeDiag(rl: RL, ud: UD) returns (ray: seq<Move>)
    ensures |ray| == 7
    ensures forall k :: 0 <= k < 7 ==> ray[k] == Diag(k + 1, rl, ud)
    ensures ray == DiagRay(rl, ud)
  {
    var a := new Move[7];
    for i := 1 to 8
      invariant forall k :: 0 <= k < i - 1 ==> a[k] == Diag(k + 1, rl, ud)
    {
      a[i - 1] := Diag(i, rl, ud);
    }
    ray := a[..];
  }

  /** rangeHoriz: fills a 7-slot array with horiz(1..7). */
  method RangeHoriz(rl: RL, ud: UD) returns (ray: seq<Move>)
    ensures |ray| == 7
    ensures forall k :: 0 <= k < 7 ==> ray[k] == Horiz(k + 1, rl, ud)
    ensures ray == HorizRay(rl, ud)
  {
    var a := new Move[7];
    for i := 1 to 8
      invariant forall k :: 0 <= k < i - 1 ==> a[k] == Horiz(k + 1, rl, ud)
    {
      a[i - 1] := Horiz(i, rl, ud);
    }
    ray := a[..];
  }

  // ---------------------------------------------------------------------
  // The tables

  /** Three forward offsets (push, two captures) followed by the same three backwards. */
  function PawnTable(): seq<Move> {
    [Move(0, 1), Move(-1, 1), Move(1, 1), Move(0, -1), Move(-1, -1), Move(1, -1)]
  }

  function BishopTable(): seq<Move> {
    DiagRay(Right, Up) + DiagRay(Left, Up) + DiagRay(Left, Down) + DiagRay(Right, Down)
  }

  function KnightTable(): seq<Move> {
    [Move(-1, 2), Move(1, 2), Move(1, -2), Move(-1, -2),
     Move(-2, 1), Move(-2, -1), Move(2, 1), Move(2, -1)]
  }

  function RookTable(): seq<Move> {
    HorizRay(Right, Up) + HorizRay(Left, Up) + HorizRay(Left, Down) + HorizRay(Right, Down)
  }

  function QueenTable(): seq<Move> {
    BishopTable() + RookTable()
  }

  /** The eight unit offsets and the two castling shapes. */
  function KingTable(): seq<Move> {
    [Diag(1, Right, Up), Diag(1, Right, Down), Diag(1, Left, Up), Diag(1, Left, Down),
     Horiz(1, Right, Up), Horiz(1, Right, Down), Horiz(1, Left, Up), Horiz(1, Left, Down),
     Move(-2, 0), Move(2, 0)]
  }

  function EmptyTable(): seq<Move> { [] }

  /** The seven prototypes; their colour and state are the zero values Black and Dead. */
  datatype Catalog = Catalog(pawn: Piece, bishop: Piece, knight: Piece, rook: Piece,
                             queen: Piece, king: Piece, empty: Piece)

  /** Note the king's symbol: the source gives it "N", the knight's. */
  function Prototypes(): Catalog {
    Catalog(
      Piece(Black, Dead, PawnTable(), "p"),
      Piece(Black, Dead, BishopTable(), "B"),
      Piece(Black, Dead, KnightTable(), "N"),
      Piece(Black, Dead, RookTable(), "R"),
      Piece(Black, Dead, QueenTable(), "Q"),
      Piece(Black, Dead, KingTable(), "N"),
      Piece(Black, Dead, EmptyTable(), EmptySymbol))
  }

  /** The table-building part of newGame: the same steps, using rangeDiag and rangeHoriz. */
  method NewPrototypes() returns (cat: Catalog)
    ensures cat == Prototypes()
  {
    var pawn := Piece(Black, Dead, [Move(0, 1), Move(-1, 1), Move(1, 1),
                                    Move(0, -1), Move(-1, -1), Move(1, -1)], "p");
    var ru := RangeDiag(Right, Up);
    var lu := RangeDiag(Left, Up);
    var ld := RangeDiag(Left, Down);
    var rd := RangeDiag(Right, Down);
    var bishop := Piece(Black, Dead, ru + lu + ld + rd, "B");
    var knight := Piece(Black, Dead, KnightTable(), "N");
    var hru := RangeHoriz(Right, Up);
    var hlu := RangeHoriz(Left, Up);
    var hld := RangeHoriz(Left, Down);
    var hrd := RangeHoriz(Right, Down);
    var rook := Piece(Black, Dead, hru + hlu + hld + hrd, "R");
    var queen := Piece(Black, Dead, bishop.legalMoves + rook.legalMoves, "Q");
    var king := Piece(Black, Dead, KingTable(), "N");
    var empty := Piece(Black, Dead, [], EmptySymbol);
    cat := Catalog(pawn, bishop, knight, rook, queen, king, empty);
  }

  /** The grid reader's byte-to-prototype map; any other byte finds no prototype (a nil pointer). */
  function PieceFor(cat: Catalog, c: char): (p: Option<Piece>)
    ensures p.Some? <==> c in {'p', 'B', 'N', 'K', 'Q', 'R', '_'}
  {
    if c == 'p' then Some(cat.pawn)
    else if c == 'B' then Some(cat.bishop)
    else if c == 'N' then Some(cat.knight)
    else if c == 'K' then Some(cat.king)
    else if c == 'Q' then Some(cat.queen)
    else if c == 'R' then Some(cat.rook)
    else if c == '_' then Some(cat.empty)
    else None
  }

  /**
    What each grid byte places, before set gives it a colour: every known byte but K
    finds the prototype whose symbol is that byte, K finds the king's table under the
    symbol "N", and all prototypes carry the zero values Black and Dead.
   */
  lemma PieceForPrototypes(c: char)
    ensures PieceFor(Prototypes(), c).Some? ==>
              PieceFor(Prototypes(), c).value.color == Black && PieceFor(Prototypes(), c).value.state == Dead
    ensures PieceFor(Prototypes(), c).Some? && c != 'K' ==> PieceFor(Prototypes(), c).value.symbol == [c]
    ensures c == 'K' ==> PieceFor(Prototypes(), c) == Some(Piece(Black, Dead, KingTable(), "N"))
    ensures c == 'p' ==> PieceFor(Prototypes(), c).value.legalMoves == PawnTable()
    ensures c == 'B' ==> PieceFor(Prototypes(), c).value.legalMoves == BishopTable()
    ensures c == 'N' ==> PieceFor(Prototypes(), c).value.legalMoves == KnightTable()
    ensures c == 'Q' ==> PieceFor(Prototypes(), c).value.legalMoves == QueenTable()
    ensures c == 'R' ==> PieceFor(Prototypes(), c).value.legalMoves == RookTable()
    ensures c == '_' ==> PieceFor(Prototypes(), c).value.legalMoves == []
  {
  }

  // ---------------------------------------------------------------------
  // Shapes of the tables

  /** Where each ray starts in the bishop and rook tables (they append the rays in the same order). */
  function RayStart(rl: RL, ud: UD): int {
    if rl == Right && ud == Up then 0
    else if rl == Left && ud == Up then 7
    else if rl == Left && ud == Down then 14
    else 21
  }

  /** Eight distinct L-shaped jumps, and every L-shaped jump is among them. */
  lemma KnightTableShape()
    ensures |KnightTable()| == 8
    ensures forall k :: 0 <= k < 8 ==>
              var m := KnightTable()[k];
              (Abs(m.x) == 1 && Abs(m.y) == 2) || (Abs(m.x) == 2 && Abs(m.y) == 1)
    ensures forall i, j :: 0 <= i < j < 8 ==> KnightTable()[i] != KnightTable()[j]
    ensures forall m: Move :: (Abs(m.x) == 1 && Abs(m.y) == 2) || (Abs(m.x) == 2 && Abs(m.y) == 1)
              ==> m in KnightTable()
  {
  }

  /** 28 distinct diagonal offsets of magnitude 1..7, covering all four diagonals at every magnitude. */
  lemma BishopTableShape()
    ensures |BishopTable()| == 28
    ensures forall m :: m in BishopTable() ==>
              MoveType(m).kind == Diagonal && Abs(m.x) == Abs(m.y) && 1 <= Abs(m.x) <= 7
    ensures forall n, rl, ud :: 1 <= n <= 7 ==> Diag(n, rl, ud) in BishopTable()
    ensures forall i, j :: 0 <= i < j < 28 ==> BishopTable()[i] != BishopTable()[j]
  {
    BishopTableMembers();
    BishopTableCovers();
    BishopTableDistinct();
  }

  lemma BishopTableMembers()
    ensures |BishopTable()| == 28
    ensures forall m :: m in BishopTable() ==>
              MoveType(m).kind == Diagonal && Abs(m.x) == Abs(m.y) && 1 <= Abs(m.x) <= 7
  {
    DiagRayMembers(Right, Up);
    DiagRayMembers(Left, Up);
    DiagRayMembers(Left, Down);
    DiagRayMembers(Right, Down);
  }

  lemma DiagRayMembers(rl: RL, ud: UD)
    ensures forall m :: m in DiagRay(rl, ud) ==>
              MoveType(m).kind == Diagonal && Abs(m.x) == Abs(m.y) && 1 <= Abs(m.x) <= 7
  {
    forall m | m in DiagRay(rl, ud)
      ensures MoveType(m).kind == Diagonal && Abs(m.x) == Abs(m.y) && 1 <= Abs(m.x) <= 7
    {
      var k :| 0 <= k < 7 && DiagRay(rl, ud)[k] == m;
      assert m == Diag(k + 1, rl, ud);
    }
  }

  lemma BishopTableCovers()
    ensures forall n, rl, ud :: 1 <= n <= 7 ==> Diag(n, rl, ud) in BishopTable()
  {
    forall n, rl, ud | 1 <= n <= 7 ensures Diag(n, rl, ud) in BishopTable() {
      var base := RayStart(rl, ud);
      assert BishopTable()[base + n - 1] == Diag(n, rl, ud);
    }
  }

  lemma BishopTableDistinct()
    ensures forall i, j :: 0 <= i < j < 28 ==> BishopTable()[i] != BishopTable()[j]
  {
  }

  /** 28 distinct orthogonal offsets of magnitude 1..7, covering all four rays at every magnitude. */
  lemma RookTableShape()
    ensures |RookTable()| == 28
    ensures forall m :: m in RookTable() ==>
              (m.x == 0) != (m.y == 0) && 1 <= Abs(m.x) + Abs(m.y) <= 7
    ensures forall n, rl, ud :: 1 <= n <= 7 ==> Horiz(n, rl, ud) in RookTable()
    ensures forall i, j :: 0 <= i < j < 28 ==> RookTable()[i] != RookTable()[j]
  {
    RookTableMembers();
    RookTableCovers();
    RookTableDistinct();
  }

  lemma RookTableMembers()
    ensures |RookTable()| == 28
    ensures forall m :: m in RookTable() ==>
              (m.x == 0) != (m.y == 0) && 1 <= Abs(m.x) + Abs(m.y) <= 7
  {
  }

  lemma RookTableCovers()
    ensures forall n, rl, ud :: 1 <= n <= 7 ==> Horiz(n, rl, ud) in RookTable()
  {
    forall n, rl, ud | 1 <= n <= 7 ensures Horiz(n, rl, ud) in RookTable() {
      var base := RayStart(rl, ud);
      assert RookTable()[base + n - 1] == Horiz(n, rl, ud);
    }
  }

  lemma RookTableDistinct()
    ensures forall i, j :: 0 <= i < j < 28 ==> RookTable()[i] != RookTable()[j]
  {
  }

  /** 56 distinct offsets: the 28 diagonals first, then the 28 orthogonals. */
  lemma QueenTableShape()
    ensures |QueenTable()| == 56
    ensures forall k :: 0 <= k < 28 ==> MoveType(QueenTable()[k]).kind == Diagonal
    ensures forall k :: 28 <= k < 56 ==> (QueenTable()[k].x == 0) != (QueenTable()[k].y == 0)
    ensures forall n, rl, ud :: 1 <= n <= 7 ==> Diag(n, rl, ud) in QueenTable() && Horiz(n, rl, ud) in QueenTable()
    ensures forall i, j :: 0 <= i < j < 56 ==> QueenTable()[i] != QueenTable()[j]
  {
    BishopTableShape();
    RookTableShape();
    var q := QueenTable();
    assert forall k :: 0 <= k < 28 ==> q[k] == BishopTable()[k] && q[k] in BishopTable();
    assert forall k :: 28 <= k < 56 ==> q[k] == RookTable()[k - 28] && q[k] in RookTable();
  }

  /** The eight unit offsets, each once, then the castling shapes (-2, 0) and (2, 0). */
  lemma KingTableShape()
    ensures |KingTable()| == 10
    ensures forall k :: 0 <= k < 8 ==>
              var m := KingTable()[k];
              Abs(m.x) <= 1 && Abs(m.y) <= 1 && m != Move(0, 0)
    ensures forall m: Move :: Abs(m.x) <= 1 && Abs(m.y) <= 1 && m != Move(0, 0) ==> m in KingTable()[..8]
    ensures forall i, j :: 0 <= i < j < 8 ==> KingTable()[i] != KingTable()[j]
    ensures KingTable()[8] == Move(-2, 0) && KingTable()[9] == Move(2, 0)
  {
    KingTableUnits();
    KingTableComplete();
  }

  lemma KingTableUnits()
    ensures |KingTable()| == 10
    ensures forall k :: 0 <= k < 8 ==>
              var m := KingTable()[k];
              Abs(m.x) <= 1 && Abs(m.y) <= 1 && m != Move(0, 0)
    ensures forall i, j :: 0 <= i < j < 8 ==> KingTable()[i] != KingTable()[j]
    ensures KingTable()[8] == Move(-2, 0) && KingTable()[9] == Move(2, 0)
  {
  }

  lemma KingTableComplete()
    ensures forall m: Move :: Abs(m.x) <= 1 && Abs(m.y) <= 1 && m != Move(0, 0) ==> m in KingTable()[..8]
  {
    assert KingTable()[..8] == [Move(1, 1), Move(1, -1), Move(-1, 1), Move(-1, -1),
                                Move(1, 0), Move(-1, 0), Move(0, -1), Move(0, 1)];
  }

  /** Six offsets: the first three classified Up, the last three Down. */
  lemma PawnTableShape()
    ensures |PawnTable()| == 6
    ensures forall k :: 0 <= k < 3 ==> MoveType(PawnTable()[k]).ud == Up && MoveType(PawnTable()[k]).kind != Unknown
    ensures forall k :: 3 <= k < 6 ==> MoveType(PawnTable()[k]).ud == Down && MoveType(PawnTable()[k]).kind != Unknown
    ensures |EmptyTable()| == 0
  {
  }
}
