/**
  The board-placement step of newGame: every cell of the 8x8 grid of
  two-byte strings ("wR", "bp", "__") is copied from its prototype onto
  the board. Reading the grid from its tabular source is not modelled; the
  grid is a parameter.
 */
module Setup {
  import opened Wrappers
  import opened Geometry
  import opened Pieces
  import opened Catalog

  /** The grid reader's byte-to-colour map; any byte other than 'w' yields the zero value Black. */
  function ColorOf(c: char): (col: Color)
    ensures col == White <==> c == 'w'
  {
    if c == 'w' then White else Black
  }

  /** What set stores: a copy of the prototype, made alive and given the colour. */
  function Place(proto: Piece, col: Color): (p: Piece)
    ensures p.state == Alive && p.color == col
    ensures p.symbol == proto.symbol && p.legalMoves == proto.legalMoves
  {
    proto.(color := col, state := Alive)
  }

  /** A Go map value: nil (never made) or made, with its entries. */
  datatype SquareMap = NilMap | Made(entries: map<Square, Piece>)

  /** The two ways placement can panic: copying through a nil prototype, or storing into a nil map. */
  datatype SetupPanic = NilPrototype | NilMapAssignment

  datatype Setup = Built(board: Board) | Panicked(reason: SetupPanic)

  /** set: the copy dereferences the prototype first, then the store writes the map. */
  function Set(squares: SquareMap, sq: Square, col: Color, proto: Option<Piece>): (r: Result<SquareMap, SetupPanic>)
    ensures proto.None? ==> r == Failure(NilPrototype)
    ensures proto.Some? && squares.NilMap? ==> r == Failure(NilMapAssignment)
    ensures proto.Some? && squares.Made? ==> r.Success? && r.value.Made?
    ensures r.Success? ==>
              squares.Made? && r.value.Made?
              && r.value.entries.Keys == squares.entries.Keys + {sq}
              && r.value.entries[sq] == Place(proto.value, col)
              && forall s :: s in squares.entries && s != sq ==> r.value.entries[s] == squares.entries[s]
  {
    if proto.None? then Failure(NilPrototype)
    else if squares.NilMap? then Failure(NilMapAssignment)
    else Success(Made(squares.entries[sq := Place(proto.value, col)]))
  }

  /** The grid has the 8 rows of 8 cells of at least two bytes that the loop indexes. */
  predicate WellShaped(grid: seq<seq<string>>) {
    |grid| >= 8 &&
    forall i :: 0 <= i < 8 ==> |grid[i]| >= 8 && forall j :: 0 <= j < 8 ==> |grid[i][j]| >= 2
  }

  /** The piece byte of cell (i, j) names a prototype. */
  predicate KnownCell(grid: seq<seq<string>>, i: int, j: int)
    requires WellShaped(grid) && 0 <= i < 8 && 0 <= j < 8
  {
    grid[i][j][1] in {'p', 'B', 'N', 'K', 'Q', 'R', '_'}
  }

  predicate AllCellsKnown(grid: seq<seq<string>>)
    requires WellShaped(grid)
  {
    forall i, j :: 0 <= i < 8 && 0 <= j < 8 ==> KnownCell(grid, i, j)
  }

  /** The piece that cell (i, j) describes, given the prototypes. */
  function CellPiece(cat: Catalog, grid: seq<seq<string>>, i: int, j: int): Piece
    requires WellShaped(grid) && 0 <= i < 8 && 0 <= j < 8 && KnownCell(grid, i, j)
  {
    Place(PieceFor(cat, grid[i][j][1]).value, ColorOf(grid[i][j][0]))
  }

  /** Where cell (i, j) goes: the grid is read top to bottom and stored bottom to top. */
  function CellSquare(i: int, j: int): (s: Square)
    ensures InRange(s) <==> 0 <= i <= BoardSize && 0 <= j <= BoardSize
    ensures BoardSize - s.x == i && BoardSize - s.y == j
  {
    Square(BoardSize - i, BoardSize - j)
  }

  function AllSquares(): (all: set<Square>)
    ensures forall s :: s in all <==> InRange(s)
  {
    set x, y | 0 <= x <= BoardSize && 0 <= y <= BoardSize :: Square(x, y)
  }

  /** The board the placement loop builds from a grid whose every cell names a prototype. */
  function GridBoard(cat: Catalog, grid: seq<seq<string>>): (b: Board)
    requires WellShaped(grid) && AllCellsKnown(grid)
    ensures ValidBoard(b)
  {
    Board(map s | s in AllSquares() :: CellPiece(cat, grid, BoardSize - s.x, BoardSize - s.y))
  }

  /** Cell (a, c) is visited before cell (i, j) by the row-by-row loops. */
  predicate Before(a: int, c: int, i: int, j: int) {
    a < i || (a == i && c < j)
  }

  /**
    m holds exactly the squares of the cells visited before cell (i, j), each
    with the piece its cell describes, and every visited cell names a prototype.
   */
  ghost predicate Filled(cat: Catalog, grid: seq<seq<string>>, m: map<Square, Piece>, i: int, j: int)
    requires WellShaped(grid)
  {
    && (forall a, c :: 0 <= a < 8 && 0 <= c < 8 && Before(a, c, i, j) ==> KnownCell(grid, a, c))
    && (forall s :: s in m <==> InRange(s) && Before(BoardSize - s.x, BoardSize - s.y, i, j))
    && (forall s :: s in m && InRange(s) ==> m[s] == CellPiece(cat, grid, BoardSize - s.x, BoardSize - s.y))
  }

  /**
    The inner loop of the placement, for row i of the grid. The source
    starts the placement from the board's zero-valued (nil) map; a made map
    is what the loop evidently expects.
   */
  method FillRow(grid: seq<seq<string>>, cat: Catalog, i: int, start: SquareMap)
    returns (r: Result<SquareMap, SetupPanic>)
    requires WellShaped(grid) && 0 <= i < 8
    requires start.NilMap? ==> i == 0
    requires start.Made? ==> Filled(cat, grid, start.entries, i, 0)
    ensures start.NilMap? ==> r == Failure(if KnownCell(grid, 0, 0) then NilMapAssignment else NilPrototype)
    ensures start.Made? ==> (r.Success? <==> forall c :: 0 <= c < 8 ==> KnownCell(grid, i, c))
    ensures start.Made? && r.Failure? ==> r.error == NilPrototype
    ensures r.Success? ==> r.value.Made? && Filled(cat, grid, r.value.entries, i + 1, 0)
  {
    var squares := start;
    for j := 0 to BoardSize + 1
      invariant squares.NilMap? <==> start.NilMap?
      invariant start.NilMap? ==> j == 0
      invariant forall c :: 0 <= c < j ==> KnownCell(grid, i, c)
      invariant squares.Made? ==> Filled(cat, grid, squares.entries, i, j)
    {
      var sq := Square(BoardSize - i, BoardSize - j);
      var val := grid[i][j];
      // The source has this same call in both halves of an if on j.
      var stored := Set(squares, sq, ColorOf(val[0]), PieceFor(cat, val[1]));
      if stored.Failure? {
        if squares.Made? {
          assert !KnownCell(grid, i, j);
        }
        return Failure(stored.error);
      }
      FilledStep(cat, grid, squares.entries, i, j);
      squares := stored.value;
    }
    FilledNextRow(cat, grid, squares.entries, i);
    r := Success(squares);
  }

  /** Storing the piece of cell (i, j) extends the visited part by that cell. */
  lemma FilledStep(cat: Catalog, grid: seq<seq<string>>, m: map<Square, Piece>, i: int, j: int)
    requires WellShaped(grid) && 0 <= i < 8 && 0 <= j < 8
    requires Filled(cat, grid, m, i, j) && KnownCell(grid, i, j)
    ensures Filled(cat, grid, m[CellSquare(i, j) := CellPiece(cat, grid, i, j)], i, j + 1)
  {
    var m' := m[CellSquare(i, j) := CellPiece(cat, grid, i, j)];
    forall s | s in m' && InRange(s)
      ensures m'[s] == CellPiece(cat, grid, BoardSize - s.x, BoardSize - s.y)
    {
      if s != CellSquare(i, j) {
        assert s in m;
      }
    }
  }

  /** Having visited a whole row is having visited everything before the next. */
  lemma FilledNextRow(cat: Catalog, grid: seq<seq<string>>, m: map<Square, Piece>, i: int)
    requires WellShaped(grid) && Filled(cat, grid, m, i, BoardSize + 1)
    ensures Filled(cat, grid, m, i + 1, 0)
  {
    forall s | InRange(s)
      ensures Before(BoardSize - s.x, BoardSize - s.y, i, BoardSize + 1) == Before(BoardSize - s.x, BoardSize - s.y, i + 1, 0)
    {
    }
  }

  /** The outer loop of the placement: the rows of the grid, top to bottom. */
  method FillBoard(grid: seq<seq<string>>, cat: Catalog, start: SquareMap) returns (r: Setup)
    requires WellShaped(grid)
    requires start == NilMap || start == Made(map[])
    ensures start == NilMap ==> r == Panicked(if KnownCell(grid, 0, 0) then NilMapAssignment else NilPrototype)
    ensures start == Made(map[]) ==> (r.Built? <==> AllCellsKnown(grid))
    ensures start == Made(map[]) && AllCellsKnown(grid) ==> r == Built(GridBoard(cat, grid))
    ensures start == Made(map[]) && !AllCellsKnown(grid) ==> r == Panicked(NilPrototype)
  {
    var squares := start;
    for i := 0 to BoardSize + 1
      invariant squares.NilMap? <==> start.NilMap?
      invariant start.NilMap? ==> i == 0
      invariant squares.Made? ==> Filled(cat, grid, squares.entries, i, 0)
    {
      var row := FillRow(grid, cat, i, squares);
      if row.Failure? {
        return Panicked(row.error);
      }
      squares := row.value;
    }
    FilledMapIsGridBoard(cat, grid, squares.entries);
    r := Built(Board(squares.entries));
  }

  lemma FilledMapIsGridBoard(cat: Catalog, grid: seq<seq<string>>, m: map<Square, Piece>)
    requires WellShaped(grid) && Filled(cat, grid, m, BoardSize + 1, 0)
    ensures AllCellsKnown(grid) && m == GridBoard(cat, grid).squares
  {
    var g := GridBoard(cat, grid).squares;
    assert forall s :: s in g <==> InRange(s);
    assert m.Keys == g.Keys;
    forall s | s in m ensures m[s] == g[s] {
      assert InRange(s) && s in AllSquares();
    }
  }

  /** newGame as written: b.squares is never made, so the very first store panics. */
  method NewGameAsWritten(grid: seq<seq<string>>) returns (r: Setup)
    requires WellShaped(grid)
    ensures r.Panicked?
    ensures r == Panicked(if KnownCell(grid, 0, 0) then NilMapAssignment else NilPrototype)
  {
    var cat := NewPrototypes();
    r := FillBoard(grid, cat, NilMap);
  }

  /** newGame with the board's map made before the placement loop. */
  method NewGame(grid: seq<seq<string>>) returns (r: Setup)
    requires WellShaped(grid)
    ensures r.Built? <==> AllCellsKnown(grid)
    ensures r.Built? ==> r.board == GridBoard(Prototypes(), grid) && ValidBoard(r.board)
    ensures r.Panicked? ==> r.reason == NilPrototype
  {
    var cat := NewPrototypes();
    r := FillBoard(grid, cat, Made(map[]));
  }

  /**
    Cell (i, j) lands on square (7 - i, 7 - j); the cells and the on-board
    squares correspond one to one, so each square is written exactly once,
    with a live copy of the prototype the cell's second byte names, coloured
    by its first byte.
   */
  lemma GridBoardPlacement(cat: Catalog, grid: seq<seq<string>>)
    requires WellShaped(grid) && AllCellsKnown(grid)
    ensures forall s :: InRange(s) <==> exists i, j :: 0 <= i < 8 && 0 <= j < 8 && CellSquare(i, j) == s
    ensures forall i, j, i', j' ::
              (0 <= i < 8 && 0 <= j < 8 && 0 <= i' < 8 && 0 <= j' < 8 && CellSquare(i, j) == CellSquare(i', j'))
              ==> i == i' && j == j'
    ensures forall i, j :: 0 <= i < 8 && 0 <= j < 8 && KnownCell(grid, i, j) ==>
              var p := GridBoard(cat, grid).squares[CellSquare(i, j)];
              var proto := PieceFor(cat, grid[i][j][1]).value;
              p.state == Alive && p.color == ColorOf(grid[i][j][0]) &&
              p.symbol == proto.symbol && p.legalMoves == proto.legalMoves
  {
    forall s | InRange(s) ensures exists i, j :: 0 <= i < 8 && 0 <= j < 8 && CellSquare(i, j) == s {
      assert CellSquare(BoardSize - s.x, BoardSize - s.y) == s;
    }
  }

  /** A 'K' cell yields a piece with the king's table but the knight's symbol. */
  lemma KingCellHasKnightSymbol(grid: seq<seq<string>>, i: int, j: int)
    requires WellShaped(grid) && AllCellsKnown(grid) && 0 <= i < 8 && 0 <= j < 8
    requires grid[i][j][1] == 'K'
    ensures GridBoard(Prototypes(), grid).squares[CellSquare(i, j)].symbol == "N"
    ensures GridBoard(Prototypes(), grid).squares[CellSquare(i, j)].legalMoves == KingTable()
  {
    assert GridBoard(Prototypes(), grid).squares[CellSquare(i, j)] == CellPiece(Prototypes(), grid, i, j);
  }
}
