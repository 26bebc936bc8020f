/**
  Board.MoveToInstruction of game.go. It turns short algebraic notation
  ("e4", "Nf3", "Nge5", "Qxh8") into the square a piece starts from and the
  square it goes to.

  The string is split into a symbol, an optional 'x' and a two-byte
  destination. The candidates are the squares whose piece carries the symbol;
  a second symbol byte also fixes the file. Each candidate is asked where it
  can go, and the destination's occurrences are counted. The source iterates
  over a map, whose order Go leaves unspecified, so the search here picks
  keys in an arbitrary order. Its contract holds for every order.
 */
module Notation {
  import opened Wrappers
  import opened Geometry
  import opened Pieces
  import opened Moves

  /** The run-time panics the routine can hit, before it returns. */
  datatype MovePanic =
    | SliceOutOfRange
    | IndexOutOfRange
    | BadSquareName(cause: SquareError)

  // ---------------------------------------------------------------------
  // Splitting the string

  datatype ParsedMove = ParsedMove(dest: Square, taking: bool, symbol: string)

  /**
    The parsing half of MoveToInstruction, step by step. The last two bytes
    name the destination. The third byte from the end decides taking. The
    rest, without the 'x', is the symbol.
   */
  function ParseMove(move: string): (r: Result<ParsedMove, MovePanic>)
    ensures |move| < 2 ==> r == Failure(SliceOutOfRange)
    ensures |move| >= 2 && GetSquare(move[|move| - 2..]).Failure? ==>
              r == Failure(BadSquareName(GetSquare(move[|move| - 2..]).error))
    ensures |move| == 2 && GetSquare(move).Success? ==> r == Failure(IndexOutOfRange)
    ensures r.Success? <==> |move| >= 3 && GetSquare(move[|move| - 2..]).Success?
    ensures r.Success? ==>
              && r.value.dest == GetSquare(move[|move| - 2..]).value
              && (r.value.taking <==> move[|move| - 3] == 'x')
              && move == r.value.symbol + (if r.value.taking then "x" else "") + move[|move| - 2..]
  {
    if |move| < 2 then Failure(SliceOutOfRange)
    else
      var destStr := move[|move| - 2..];
      var dest := GetSquare(destStr);
      if dest.Failure? then Failure(BadSquareName(dest.error))
      else if |move| < 3 then Failure(IndexOutOfRange)
      else
        var taking := move[|move| - 3] == 'x';
        var symbol := if taking then move[..|move| - 3] else move[..|move| - 2];
        assert move == move[..|move| - 3] + [move[|move| - 3]] + destStr;
        assert move == move[..|move| - 2] + destStr;
        Success(ParsedMove(dest.value, taking, symbol))
  }

  /**
    Writing a move and parsing it gives the parts back. A symbol must end in
    something other than 'x' when there is no capture, and it must be
    non-empty then, or the string is too short.
   */
  lemma ParseMoveRoundTrip(symbol: string, taking: bool, dest: Square)
    requires InRange(dest)
    requires taking || (|symbol| >= 1 && symbol[|symbol| - 1] != 'x')
    ensures ParseMove(symbol + (if taking then "x" else "") + Name(dest))
         == Success(ParsedMove(dest, taking, symbol))
  {
    var move := symbol + (if taking then "x" else "") + Name(dest);
    NameRoundTrip(dest);
    assert move[|move| - 2..] == Name(dest);
    if taking {
      assert move[|move| - 3] == 'x';
      assert move[..|move| - 3] == symbol;
    } else {
      assert move[|move| - 3] == symbol[|symbol| - 1];
      assert move[..|move| - 2] == symbol;
    }
  }

  /** Two of the notations the source's comments name. */
  lemma ParseMoveExamples()
    ensures ParseMove("Nge5") == Success(ParsedMove(Square(4, 4), false, "Ng"))
    ensures ParseMove("Qxh8") == Success(ParsedMove(Square(7, 7), true, "Q"))
    ensures ParseMove("e4") == Failure(IndexOutOfRange)
  {
    NameRoundTrip(Square(4, 4));
    NameRoundTrip(Square(7, 7));
    assert Name(Square(4, 4)) == "e5";
    assert Name(Square(7, 7)) == "h8";
    ParseMoveRoundTrip("Ng", false, Square(4, 4));
    ParseMoveRoundTrip("Q", true, Square(7, 7));
    assert "Ng" + "" + "e5" == "Nge5";
    assert "Q" + "x" + "h8" == "Qxh8";
    NameRoundTrip(Square(4, 3));
    assert Name(Square(4, 3)) == "e4";
    GetSquareRoundTrip("e4");
  }

  // ---------------------------------------------------------------------
  // Finding the candidates

  /** findPiece's test for one square: the symbol, and with a second byte also the file. */
  predicate Matches(sym: string, s: Square, p: Piece)
    requires |sym| >= 1 && InRange(s)
    ensures Matches(sym, s, p) <==> p.symbol == sym[..1] && (|sym| >= 2 ==> FileLetter(s.x) == sym[1])
  {
    if |sym| == 1 then p.symbol == sym
    else p.symbol == sym[0..1] && Name(s)[0] == sym[1]
  }

  /** The squares findPiece collects. */
  function Candidates(b: Board, sym: string): (cs: set<Square>)
    requires |sym| >= 1
    ensures forall s :: s in cs ==> s in b.squares && InRange(s)
  {
    set s | s in b.squares && InRange(s) && Matches(sym, s, b.squares[s])
  }

  /** A candidate holds a piece whose symbol is the first byte of sym, on the file of sym's second byte if there is one. */
  lemma CandidatesMeaning(b: Board, sym: string, s: Square)
    requires ValidBoard(b) && |sym| >= 1
    ensures s in Candidates(b, sym) <==>
              InRange(s) && b.squares[s].symbol == sym[..1] && (|sym| >= 2 ==> FileLetter(s.x) == sym[1])
  {
    if |sym| == 1 {
      assert sym[..1] == sym;
    }
    if InRange(s) {
      NameRoundTrip(s);
    }
  }

  /** No square appears twice. */
  predicate Distinct(s: seq<Square>) {
    forall i, j :: 0 <= i < j < |s| ==> s[i] != s[j]
  }

  /**
    findPiece, visiting the board's keys one at a time in an arbitrary order.
    An empty symbol takes the two-byte branch, whose first comparison slices
    past its end on the first key.
   */
  method FindPieces(b: Board, sym: string) returns (r: Result<seq<Square>, MovePanic>)
    requires ValidBoard(b)
    ensures r.Failure? <==> |sym| == 0
    ensures r.Failure? ==> r.error == SliceOutOfRange
    ensures r.Success? ==> Distinct(r.value) && forall s :: s in r.value <==> s in Candidates(b, sym)
  {
    var pieces: seq<Square> := [];
    var rest := b.squares.Keys;
    assert Square(0, 0) in rest;
    while rest != {}
      invariant rest <= b.squares.Keys
      invariant |sym| == 0 ==> rest == b.squares.Keys
      invariant Distinct(pieces)
      invariant forall s :: s in pieces ==> s !in rest
      invariant |sym| >= 1 ==> forall s :: s in pieces <==> s in Candidates(b, sym) && s !in rest
      decreases |rest|
    {
      var square :| square in rest;
      rest := rest - {square};
      var piece := b.squares[square];
      if |sym| == 1 {
        if piece.symbol == sym {
          pieces := pieces + [square];
        }
      } else {
        if |sym| < 1 {
          return Failure(SliceOutOfRange);
        }
        if piece.symbol == sym[0..1] && Name(square)[0] == sym[1] {
          pieces := pieces + [square];
        }
      }
    }
    r := Success(pieces);
  }

  // ---------------------------------------------------------------------
  // Counting the ways to reach the destination

  /** How many times d occurs in s. */
  function Occurrences(s: seq<Square>, d: Square): (n: nat)
    ensures n == multiset(s)[d]
    ensures n == 0 <==> d !in s
    ensures n <= |s|
    decreases |s|
  {
    if s == [] then 0
    else
      assert s == s[..|s| - 1] + [s[|s| - 1]];
      Occurrences(s[..|s| - 1], d) + (if s[|s| - 1] == d then 1 else 0)
  }

  /** How many times the candidate on c lists d among its squares. */
  function Reached(b: Board, c: Square, d: Square): nat
    requires ValidBoard(b) && InRange(c)
  {
    Occurrences(AvailableFor(b, c).squares, d)
  }

  /** The squares a sequence lists. */
  function Elements(cs: seq<Square>): (e: set<Square>)
    ensures forall x :: x in e <==> x in cs
  {
    set x | x in cs
  }

  /** Squares on the board. */
  predicate OnBoard(cs: set<Square>) {
    forall c :: c in cs ==> InRange(c)
  }

  ghost function Pick(cs: set<Square>): Square
    requires cs != {}
  {
    var c :| c in cs; c
  }

  /** The number of times d is found over all of cs: numberOfInitsFound, whatever the visiting order. */
  ghost function TotalMatches(b: Board, cs: set<Square>, d: Square): nat
    requires ValidBoard(b) && OnBoard(cs)
    decreases |cs|
  {
    if cs == {} then 0
    else
      var c := Pick(cs);
      Reached(b, c, d) + TotalMatches(b, cs - {c}, d)
  }

  /** The count over a sequence of squares, in order: what the loop accumulates. */
  ghost function MatchCount(b: Board, cs: seq<Square>, d: Square): nat
    requires ValidBoard(b) && forall c :: c in cs ==> InRange(c)
    decreases |cs|
  {
    if cs == [] then 0
    else
      assert cs[|cs| - 1] in cs;
      MatchCount(b, cs[..|cs| - 1], d) + Reached(b, cs[|cs| - 1], d)
  }

  /** The position of the last square in cs that reaches d, or -1 when none does. */
  ghost function LastReaching(b: Board, cs: seq<Square>, d: Square): (k: int)
    requires ValidBoard(b) && forall c :: c in cs ==> InRange(c)
    ensures -1 <= k < |cs|
    decreases |cs|
  {
    if cs == [] then -1
    else
      assert cs[|cs| - 1] in cs;
      if Reached(b, cs[|cs| - 1], d) > 0 then |cs| - 1
      else LastReaching(b, cs[..|cs| - 1], d)
  }

  /** One more candidate: its reach is added to the count, and it becomes the last reaching one if it reaches d. */
  lemma SearchStep(b: Board, cs: seq<Square>, k: int, d: Square)
    requires ValidBoard(b) && forall c :: c in cs ==> InRange(c)
    requires 0 <= k < |cs|
    ensures forall c :: c in cs[..k] ==> InRange(c)
    ensures MatchCount(b, cs[..k + 1], d) == MatchCount(b, cs[..k], d) + Reached(b, cs[k], d)
    ensures LastReaching(b, cs[..k + 1], d)
              == if Reached(b, cs[k], d) > 0 then k else LastReaching(b, cs[..k], d)
  {
    assert cs[..k + 1][..k] == cs[..k];
  }

  /** There is a last reaching position exactly when the count is positive. */
  lemma {:induction false} LastReachingExists(b: Board, cs: seq<Square>, d: Square)
    requires ValidBoard(b) && forall c :: c in cs ==> InRange(c)
    ensures LastReaching(b, cs, d) >= 0 <==> MatchCount(b, cs, d) > 0
    decreases |cs|
  {
    if cs != [] {
      var init := cs[..|cs| - 1];
      assert forall c :: c in init ==> c in cs;
      LastReachingExists(b, init, d);
    }
  }

  /** The square at the last reaching position reaches d. */
  lemma {:induction false} LastReachingReaches(b: Board, cs: seq<Square>, d: Square)
    requires ValidBoard(b) && forall c :: c in cs ==> InRange(c)
    ensures LastReaching(b, cs, d) >= 0 ==> Reached(b, cs[LastReaching(b, cs, d)], d) > 0
    decreases |cs|
  {
    if cs != [] && Reached(b, cs[|cs| - 1], d) == 0 {
      var init := cs[..|cs| - 1];
      assert forall c :: c in init ==> c in cs;
      LastReachingReaches(b, init, d);
      var l := LastReaching(b, init, d);
      assert l >= 0 ==> init[l] == cs[l];
    }
  }

  /** No square after the last reaching position reaches d. */
  lemma {:induction false} LastReachingIsLast(b: Board, cs: seq<Square>, d: Square, k: int)
    requires ValidBoard(b) && forall c :: c in cs ==> InRange(c)
    requires LastReaching(b, cs, d) < k < |cs|
    ensures Reached(b, cs[k], d) == 0
    decreases |cs|
  {
    if k < |cs| - 1 {
      var init := cs[..|cs| - 1];
      assert forall c :: c in init ==> c in cs;
      LastReachingIsLast(b, init, d, k);
      assert init[k] == cs[k];
    }
  }

  /** Over a sequence without repeats, the ordered count is the count over its set. */
  lemma {:induction false} MatchCountIsTotal(b: Board, cs: seq<Square>, d: Square)
    requires ValidBoard(b) && (forall c :: c in cs ==> InRange(c)) && Distinct(cs)
    ensures OnBoard(Elements(cs))
    ensures MatchCount(b, cs, d) == TotalMatches(b, Elements(cs), d)
    decreases |cs|
  {
    if cs != [] {
      var init := cs[..|cs| - 1];
      var last := cs[|cs| - 1];
      SplitLast(cs);
      MatchCountIsTotal(b, init, d);
      TotalMatchesAdd(b, Elements(init), last, d);
    }
  }

  /** Taking the last element off a sequence without repeats. */
  lemma SplitLast(cs: seq<Square>)
    requires cs != [] && Distinct(cs)
    ensures Distinct(cs[..|cs| - 1])
    ensures forall x :: x in cs[..|cs| - 1] ==> x in cs
    ensures cs[|cs| - 1] !in Elements(cs[..|cs| - 1])
    ensures Elements(cs) == Elements(cs[..|cs| - 1]) + {cs[|cs| - 1]}
  {
    var init := cs[..|cs| - 1];
    var last := cs[|cs| - 1];
    assert cs == init + [last];
    forall x | x in init ensures x != last {
      var i :| 0 <= i < |init| && init[i] == x;
    }
  }

  /** The sum does not depend on the element taken first. */
  lemma {:induction false} TotalMatchesRemove(b: Board, cs: set<Square>, c: Square, d: Square)
    requires ValidBoard(b) && OnBoard(cs) && c in cs
    ensures TotalMatches(b, cs, d) == Reached(b, c, d) + TotalMatches(b, cs - {c}, d)
    decreases |cs|
  {
    var p := Pick(cs);
    if p != c {
      TotalMatchesRemove(b, cs - {p}, c, d);
      TotalMatchesRemove(b, cs - {c}, p, d);
      assert cs - {p} - {c} == cs - {c} - {p};
    }
  }

  /** Adding a new square adds its count. */
  lemma TotalMatchesAdd(b: Board, cs: set<Square>, c: Square, d: Square)
    requires ValidBoard(b) && OnBoard(cs) && InRange(c) && c !in cs
    ensures TotalMatches(b, cs + {c}, d) == Reached(b, c, d) + TotalMatches(b, cs, d)
  {
    TotalMatchesRemove(b, cs + {c}, c, d);
    assert cs + {c} - {c} == cs;
  }

  /** The count is zero exactly when no square of cs can reach d. */
  lemma {:induction false} TotalMatchesZero(b: Board, cs: set<Square>, d: Square)
    requires ValidBoard(b) && OnBoard(cs)
    ensures TotalMatches(b, cs, d) == 0 <==> forall c :: c in cs ==> d !in AvailableFor(b, c).squares
    decreases |cs|
  {
    if cs != {} {
      var p := Pick(cs);
      TotalMatchesZero(b, cs - {p}, d);
    }
  }

  /** A count of one leaves exactly one square of cs that can reach d. */
  lemma ExactlyOneMatch(b: Board, cs: set<Square>, d: Square, c1: Square, c2: Square)
    requires ValidBoard(b) && OnBoard(cs) && TotalMatches(b, cs, d) == 1
    requires c1 in cs && d in AvailableFor(b, c1).squares
    requires c2 in cs && d in AvailableFor(b, c2).squares
    ensures c1 == c2
  {
    if c1 != c2 {
      TotalMatchesRemove(b, cs, c1, d);
      TotalMatchesRemove(b, cs - {c1}, c2, d);
      assert false;
    }
  }

  /** Every candidate carries the same symbol, so the dispatcher treats them all alike. */
  lemma CandidatesShareSymbol(b: Board, sym: string, c: Square)
    requires ValidBoard(b) && |sym| >= 1 && c in Candidates(b, sym)
    ensures b.squares[c].symbol == sym[..1]
  {
    CandidatesMeaning(b, sym, c);
  }

  // ---------------------------------------------------------------------
  // The routine

  /** The result; the move field is never filled in. */
  datatype Instruction = Instruction(move: string, init: Square, dest: Square)

  /** The inner loop of MoveToInstruction: each occurrence of dest counts, and records the candidate as the start. */
  method ScanReachable(reachableSquares: seq<Square>, dest: Square, pieceSquare: Square,
                       instr0: Instruction, count0: nat, noPiecesFound0: bool)
    returns (instr: Instruction, count: nat, noPiecesFound: bool)
    requires noPiecesFound0 <==> count0 == 0
    ensures count == count0 + Occurrences(reachableSquares, dest)
    ensures noPiecesFound <==> count == 0
    ensures count == count0 ==> instr == instr0
    ensures count > count0 ==> instr == instr0.(init := pieceSquare) && dest in reachableSquares
  {
    instr, count, noPiecesFound := instr0, count0, noPiecesFound0;
    for j := 0 to |reachableSquares|
      invariant count == count0 + Occurrences(reachableSquares[..j], dest)
      invariant noPiecesFound <==> count == 0
      invariant count == count0 ==> instr == instr0
      invariant count > count0 ==> instr == instr0.(init := pieceSquare) && dest in reachableSquares
    {
      assert reachableSquares[..j + 1][..j] == reachableSquares[..j];
      if reachableSquares[j] == dest {
        instr := instr.(init := pieceSquare);
        noPiecesFound := false;
        count := count + 1;
      }
    }
    assert reachableSquares[..|reachableSquares|] == reachableSquares;
  }

  /** The dispatch error of the piece on c, for a square the board holds. */
  function ErrorAt(b: Board, c: Square): (e: Option<GameError>)
    ensures c in b.squares ==> e == DispatchError(b.squares[c].symbol)
  {
    if c in b.squares then DispatchError(b.squares[c].symbol) else None
  }

  /** The body of the outer loop: ask the candidate where it can go, then scan those squares. */
  method VisitCandidate(b: Board, pieceSquare: Square, instr0: Instruction, count0: nat, noPiecesFound0: bool)
    returns (instr: Instruction, count: nat, noPiecesFound: bool, e: Option<GameError>)
    requires ValidBoard(b) && InRange(pieceSquare)
    requires noPiecesFound0 <==> count0 == 0
    ensures count == count0 + Reached(b, pieceSquare, instr0.dest)
    ensures noPiecesFound <==> count == 0
    ensures e == ErrorAt(b, pieceSquare)
    ensures count == count0 ==> instr == instr0
    ensures count > count0 ==> instr == instr0.(init := pieceSquare)
  {
    var reachableSquares, err := GetAvailableSquaresFor(b, pieceSquare);
    e := err;
    instr, count, noPiecesFound :=
      ScanReachable(reachableSquares, instr0.dest, pieceSquare, instr0, count0, noPiecesFound0);
  }

  /** One round of the outer loop, stated over the prefix of candidates it extends. */
  method SearchOne(b: Board, cs: seq<Square>, k: int, instr0: Instruction,
                   instr1: Instruction, count1: nat, noPiecesFound1: bool)
    returns (instr: Instruction, count: nat, noPiecesFound: bool, e: Option<GameError>)
    requires ValidBoard(b) && forall s :: s in cs ==> InRange(s)
    requires 0 <= k < |cs|
    requires count1 == MatchCount(b, cs[..k], instr0.dest)
    requires noPiecesFound1 <==> count1 == 0
    requires count1 == 0 ==> instr1 == instr0
    requires count1 > 0 ==> instr1 == instr0.(init := instr1.init)
    requires count1 > 0 <==> LastReaching(b, cs[..k], instr0.dest) >= 0
    requires count1 > 0 ==> instr1.init == cs[LastReaching(b, cs[..k], instr0.dest)]
    ensures count == MatchCount(b, cs[..k + 1], instr0.dest)
    ensures noPiecesFound <==> count == 0
    ensures count == 0 ==> instr == instr0
    ensures count > 0 ==> instr == instr0.(init := instr.init)
    ensures e == ErrorAt(b, cs[k])
    ensures count > 0 <==> LastReaching(b, cs[..k + 1], instr0.dest) >= 0
    ensures count > 0 ==> instr.init == cs[LastReaching(b, cs[..k + 1], instr0.dest)]
  {
    assert cs[k] in cs;
    SearchStep(b, cs, k, instr0.dest);
    instr, count, noPiecesFound, e := VisitCandidate(b, cs[k], instr1, count1, noPiecesFound1);
  }

  /**
    The outer loop of MoveToInstruction, over the candidates in the order
    findPiece produced them. Each candidate's dispatch error replaces the
    previous one.
   */
  method SearchInits(b: Board, possiblePieces: seq<Square>, instr0: Instruction, e0: Option<GameError>)
    returns (instr: Instruction, numberOfInitsFound: nat, noPiecesFound: bool, e: Option<GameError>)
    requires ValidBoard(b) && forall s :: s in possiblePieces ==> InRange(s)
    ensures numberOfInitsFound == MatchCount(b, possiblePieces, instr0.dest)
    ensures noPiecesFound <==> numberOfInitsFound == 0
    ensures numberOfInitsFound == 0 ==> instr == instr0
    ensures numberOfInitsFound > 0 ==>
              instr == instr0.(init := instr.init)
              && instr.init in possiblePieces && Reached(b, instr.init, instr0.dest) > 0
    ensures numberOfInitsFound > 0 <==> LastReaching(b, possiblePieces, instr0.dest) >= 0
    ensures numberOfInitsFound > 0 ==> instr.init == possiblePieces[LastReaching(b, possiblePieces, instr0.dest)]
    ensures possiblePieces != [] ==> e == ErrorAt(b, possiblePieces[|possiblePieces| - 1])
    ensures possiblePieces == [] ==> e == e0
  {
    var dest := instr0.dest;
    instr, numberOfInitsFound, noPiecesFound, e := instr0, 0, true, e0;
    for k := 0 to |possiblePieces|
      invariant numberOfInitsFound == MatchCount(b, possiblePieces[..k], dest)
      invariant noPiecesFound <==> numberOfInitsFound == 0
      invariant numberOfInitsFound == 0 ==> instr == instr0
      invariant numberOfInitsFound > 0 ==> instr == instr0.(init := instr.init)
      invariant k > 0 ==> e == ErrorAt(b, possiblePieces[k - 1])
      invariant k == 0 ==> e == e0
      invariant numberOfInitsFound > 0 <==> LastReaching(b, possiblePieces[..k], dest) >= 0
      invariant numberOfInitsFound > 0 ==> instr.init == possiblePieces[LastReaching(b, possiblePieces[..k], dest)]
    {
      instr, numberOfInitsFound, noPiecesFound, e :=
        SearchOne(b, possiblePieces, k, instr0, instr, numberOfInitsFound, noPiecesFound);
    }
    assert possiblePieces[..|possiblePieces|] == possiblePieces;
    LastReachingReaches(b, possiblePieces, dest);
  }

  /** The ordered count over findPiece's result is the count over the candidate set. */
  lemma CountOverCandidates(b: Board, symbol: string, possiblePieces: seq<Square>, d: Square)
    requires ValidBoard(b) && |symbol| >= 1 && Distinct(possiblePieces)
    requires forall s :: s in possiblePieces <==> s in Candidates(b, symbol)
    ensures forall s :: s in possiblePieces ==> InRange(s)
    ensures MatchCount(b, possiblePieces, d) == TotalMatches(b, Candidates(b, symbol), d)
  {
    MatchCountIsTotal(b, possiblePieces, d);
    assert Elements(possiblePieces) == Candidates(b, symbol);
  }

  /** Candidates share their symbol, so one that reaches somewhere shows that the dispatch of any other one succeeds. */
  lemma SameDispatch(b: Board, symbol: string, c1: Square, c2: Square, d: Square)
    requires ValidBoard(b) && |symbol| >= 1
    requires c1 in Candidates(b, symbol) && c2 in Candidates(b, symbol)
    requires Reached(b, c1, d) > 0
    ensures c1 in b.squares && d in AvailableFor(b, c1).squares
    ensures DispatchError(b.squares[c2].symbol) == None
  {
    CandidatesShareSymbol(b, symbol, c1);
    CandidatesShareSymbol(b, symbol, c2);
  }

  datatype Resolution = Aborted(panic: MovePanic) | Returned(instr: Instruction, err: Option<GameError>)

  /**
    Board.MoveToInstruction. With n the number of times the destination is
    found over the candidates, the error is "no pieces could go" for n = 0,
    "found n init points" for n > 1, and absent for n = 1, where the start
    square is the one candidate that reaches the destination.
   */
  method MoveToInstruction(b: Board, move: string) returns (r: Resolution)
    requires ValidBoard(b)
    ensures ParseMove(move).Failure? ==> r == Aborted(ParseMove(move).error)
    ensures ParseMove(move).Success? && ParseMove(move).value.symbol == "" ==> r == Aborted(SliceOutOfRange)
    ensures r.Returned? <==> ParseMove(move).Success? && ParseMove(move).value.symbol != ""
    ensures r.Returned? ==>
              var p := ParseMove(move).value;
              var cs := Candidates(b, p.symbol);
              var n := TotalMatches(b, cs, p.dest);
              && r.instr.move == "" && r.instr.dest == p.dest
              && (n == 0 ==> r.err == Some(NoPiecesCouldGoTo(p.dest)) && r.instr.init == Square(0, 0))
              && (n == 1 ==> r.err == None)
              && (n > 1 ==> r.err == Some(FoundInits(n)))
              && (n >= 1 ==> r.instr.init in cs && p.dest in AvailableFor(b, r.instr.init).squares)
              && (n == 1 ==> forall c :: c in cs && p.dest in AvailableFor(b, c).squares ==> c == r.instr.init)
  {
    var parsed := ParseMove(move);
    if parsed.Failure? {
      return Aborted(parsed.error);
    }
    var dest := parsed.value.dest;
    var symbol := parsed.value.symbol;
    var instr := Instruction("", Square(0, 0), dest);
    var e: Option<GameError> := None;

    var found := FindPieces(b, symbol);
    if found.Failure? {
      return Aborted(found.error);
    }
    var possiblePieces := found.value;
    if |possiblePieces| == 0 {
      e := Some(NoMatchingPieces(symbol));
    }

    var numberOfInitsFound, noPiecesFound;
    CountOverCandidates(b, symbol, possiblePieces, dest);
    instr, numberOfInitsFound, noPiecesFound, e := SearchInits(b, possiblePieces, instr, e);
    if numberOfInitsFound > 0 {
      SameDispatch(b, symbol, instr.init, possiblePieces[|possiblePieces| - 1], dest);
    }

    if noPiecesFound {
      e := Some(NoPiecesCouldGoTo(dest));
    }
    if numberOfInitsFound > 1 {
      e := Some(FoundInits(numberOfInitsFound));
    }
    if numberOfInitsFound == 1 {
      forall c | c in Candidates(b, symbol) && dest in AvailableFor(b, c).squares
        ensures c == instr.init
      {
        ExactlyOneMatch(b, Candidates(b, symbol), dest, c, instr.init);
      }
    }
    r := Returned(instr, e);
  }
}
