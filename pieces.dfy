/**
  Pieces, the board, and the in-bounds filter over a piece's offset table
  (ChessPiece.GetLegalMoves).
 */
module Pieces {
  import opened Geometry

  /** Colour and life state; the source's zero values are Black and Dead. */
  datatype Color = Black | White
  datatype State = Dead | Alive

  /**
    A piece as the source stores it: colour, state, its own copy of its
    kind's offset table, and its symbol. (The material value is omitted:
    nothing in the move logic reads it.)
   */
  datatype Piece = Piece(color: Color, state: State, legalMoves: seq<Move>, symbol: string)

  /** The board's square-to-piece map. (The turn flag and move list are omitted.) */
  datatype Board = Board(squares: map<Square, Piece>)

  /** The symbol of the empty-square piece. */
  const EmptySymbol: string := "_"

  /** Exactly the on-board squares are keys: the setup writes every one of them and nothing else. */
  ghost predicate ValidBoard(b: Board) {
    forall s :: s in b.squares <==> InRange(s)
  }

  /** The source's occupancy test: the piece on s is not the empty-square piece. */
  predicate Occupied(b: Board, s: Square)
    requires s in b.squares
  {
    b.squares[s].symbol != EmptySymbol
  }

  /** a can be obtained from b by deleting elements. */
  ghost predicate Subsequence<T>(a: seq<T>, b: seq<T>)
    decreases |b|
  {
    if a == [] then true
    else if b == [] then false
    else (a[|a| - 1] == b[|b| - 1] && Subsequence(a[..|a| - 1], b[..|b| - 1]))
         || Subsequence(a, b[..|b| - 1])
  }

  /** The offsets of table, in table order, that keep loc on the board. */
  function LegalMoves(table: seq<Move>, loc: Square): (legal: seq<Move>)
    ensures forall m :: m in legal <==> m in table && !IsOutOfBounds(m, loc)
    ensures forall m :: m in legal ==> InRange(CalcMove(m, loc))
    ensures Subsequence(legal, table)
    ensures (forall m :: m in table ==> !IsOutOfBounds(m, loc)) ==> legal == table
    decreases |table|
  {
    if table == [] then []
    else
      var last := table[|table| - 1];
      var rest := LegalMoves(table[..|table| - 1], loc);
      assert table == table[..|table| - 1] + [last];
      assert (rest + [last])[..|rest|] == rest;
      if IsOutOfBounds(last, loc) then rest else rest + [last]
  }

  /** A repeated in-bounds offset is kept as often as the table lists it; an out-of-bounds one never. */
  lemma {:induction false} LegalMovesMultiplicity(table: seq<Move>, loc: Square, m: Move)
    ensures multiset(LegalMoves(table, loc))[m] == (if IsOutOfBounds(m, loc) then 0 else multiset(table)[m])
    decreases |table|
  {
    if table != [] {
      var init := table[..|table| - 1];
      LegalMovesMultiplicity(init, loc, m);
      assert table == init + [table[|table| - 1]];
    }
  }

  /** ChessPiece.GetLegalMoves: appends each in-bounds offset of the piece's table. */
  method GetLegalMoves(p: Piece, loc: Square) returns (legal: seq<Move>)
    ensures legal == LegalMoves(p.legalMoves, loc)
  {
    legal := [];
    for k := 0 to |p.legalMoves|
      invariant legal == LegalMoves(p.legalMoves[..k], loc)
    {
      var move := p.legalMoves[k];
      assert p.legalMoves[..k + 1][..k] == p.legalMoves[..k];
      if !IsOutOfBounds(move, loc) {
        legal := legal + [move];
      }
    }
    assert p.legalMoves[..|p.legalMoves|] == p.legalMoves;
  }
}
