/**
  Board coordinates and relative offsets, the bounds test, the offset
  classifier and the square-name codec.
 */
module Geometry {
  import opened Wrappers

  /** The largest file or rank index: both run over 0..BoardSize. */
  const BoardSize: int := 7

  /** A board coordinate: x is the file (0 is 'a'), y the rank (0 is rank 1). */
  datatype Square = Square(x: int, y: int)

  /** A relative displacement applied to a square (the source's Move, a second name for Square). */
  datatype Move = Move(x: int, y: int)

  /** Horizontal and vertical senses (the source's Direction flags). */
  datatype RL = Right | Left
  datatype UD = Up | Down

  /** The geometric kind of an offset, as the classifier names it. */
  datatype Kind = Diagonal | Vertical | Horizontal | Unknown

  datatype MoveClass = MoveClass(kind: Kind, rl: RL, ud: UD)

  function Abs(n: int): nat { if n < 0 then -n else n }

  predicate InRange(s: Square) {
    0 <= s.x <= BoardSize && 0 <= s.y <= BoardSize
  }

  /** The displacement that leads from one square to another. */
  function Offset(from: Square, to: Square): Move {
    Move(to.x - from.x, to.y - from.y)
  }

  /** The square reached by applying m to start. */
  function CalcMove(m: Move, start: Square): (dest: Square)
    ensures Offset(start, dest) == m
  {
    Square(start.x + m.x, start.y + m.y)
  }

  lemma OffsetCalcMove(from: Square, to: Square)
    ensures CalcMove(Offset(from, to), from) == to
  {
  }

  /** True when m applied to loc leaves the board. */
  function IsOutOfBounds(m: Move, loc: Square): (out: bool)
    ensures out <==> !InRange(CalcMove(m, loc))
  {
    var dest := CalcMove(m, loc);
    dest.x < 0 || dest.x > BoardSize || dest.y < 0 || dest.y > BoardSize
  }

  /**
    Classifies an offset by the same chain of tests as the source: the four
    diagonal sign patterns, then vertical, then horizontal, else unknown.
    Vertical offsets always report Right, horizontal ones always Up, and
    unknown ones Right and Up.
   */
  function MoveType(m: Move): (c: MoveClass)
    ensures c.kind == Diagonal <==> Abs(m.x) == Abs(m.y) && m.x != 0
    ensures c.kind == Vertical <==> m.x == 0 && m.y != 0
    ensures c.kind == Horizontal <==> m.y == 0 && m.x != 0
    ensures c.kind == Unknown <==> (m.x == 0 && m.y == 0) || (m.x != 0 && m.y != 0 && Abs(m.x) != Abs(m.y))
    ensures c.kind == Diagonal ==>
              c.rl == (if m.x > 0 then Right else Left) && c.ud == (if m.y > 0 then Up else Down)
    ensures c.kind == Vertical ==> c.rl == Right && c.ud == (if m.y > 0 then Up else Down)
    ensures c.kind == Horizontal ==> c.ud == Up && c.rl == (if m.x > 0 then Right else Left)
    ensures c.kind == Unknown ==> c.rl == Right && c.ud == Up
  {
    if m.x == m.y && m.x > 0 then MoveClass(Diagonal, Right, Up)
    else if m.x == -m.y && m.x > 0 then MoveClass(Diagonal, Right, Down)
    else if m.x == m.y && m.x < 0 then MoveClass(Diagonal, Left, Down)
    else if m.x == -m.y && m.x < 0 then MoveClass(Diagonal, Left, Up)
    else if m.x == 0 && m.y > 0 then MoveClass(Vertical, Right, Up)
    else if m.x == 0 && m.y < 0 then MoveClass(Vertical, Right, Down)
    else if m.x > 0 && m.y == 0 then MoveClass(Horizontal, Right, Up)
    else if m.x < 0 && m.y == 0 then MoveClass(Horizontal, Left, Up)
    else MoveClass(Unknown, Right, Up)
  }

  // ---------------------------------------------------------------------
  // Square names

  /** The file letter of a file index (the source's table "a".."h"). */
  function FileLetter(x: int): (c: char)
    requires 0 <= x <= BoardSize
    ensures 'a' <= c <= 'h'
  {
    ('a' as int + x) as char
  }

  function DigitChar(d: int): (c: char)
    requires 0 <= d <= 9
    ensures '0' <= c <= '9' && c as int - '0' as int == d
  {
    ('0' as int + d) as char
  }

  /** The number a string of decimal digits denotes, most significant digit first. */
  ghost function DecimalValue(s: string): int
    decreases |s|
  {
    if s == [] then 0 else DecimalValue(s[..|s| - 1]) * 10 + (s[|s| - 1] as int - '0' as int)
  }

  /** Every character of t is a decimal digit. */
  predicate Digits(t: string) {
    forall k :: 0 <= k < |t| ==> '0' <= t[k] <= '9'
  }

  /** Decimal digits of a natural number, most significant first, without leading zeros. */
  function NatToDecimal(n: nat): (s: string)
    ensures 1 <= |s|
    ensures Digits(s)
    ensures DecimalValue(s) == n
    ensures s[0] == '0' ==> n == 0
    ensures n < 10 <==> |s| == 1
    decreases n
  {
    if n < 10 then [DigitChar(n)]
    else
      var high := NatToDecimal(n / 10);
      assert (high + [DigitChar(n % 10)])[..|high|] == high;
      high + [DigitChar(n % 10)]
  }

  /** strconv.Itoa: the decimal form of n, with a leading '-' when n is negative. */
  function Itoa(n: int): (s: string)
    ensures n >= 0 ==> Digits(s) && DecimalValue(s) == n
    ensures n < 0 ==> |s| >= 2 && s[0] == '-' && Digits(s[1..])
                      && DecimalValue(s[1..]) == -n && s[1] != '0'
    ensures |s| >= 1 && (s[0] == '0' ==> n == 0) && (s[0] != '-' <==> n >= 0)
    ensures 0 <= n <= 9 ==> s == [DigitChar(n)]
    ensures n < 0 || 10 <= n ==> |s| >= 2
  {
    if n < 0 then
      var digits := NatToDecimal(-n);
      assert ("-" + digits)[1..] == digits;
      "-" + digits
    else NatToDecimal(n)
  }

  /** Square.Name: the file letter followed by the decimal of y + 1 (letters[x] panics off the board). */
  function Name(s: Square): (name: string)
    requires 0 <= s.x <= BoardSize
    ensures |name| >= 2 && name[0] == FileLetter(s.x)
    ensures 0 <= s.y <= BoardSize ==> name == [FileLetter(s.x), DigitChar(s.y + 1)]
    ensures s.y + 1 < 0 || 10 <= s.y + 1 ==> |name| >= 3
    ensures s.y + 1 >= 0 ==> Digits(name[1..]) && DecimalValue(name[1..]) == s.y + 1
                             && (name[1] == '0' ==> |name| == 2)
    ensures 0 <= s.y + 1 <= 9 ==> name == [FileLetter(s.x), DigitChar(s.y + 1)]
    ensures s.y + 1 < 0 ==> |name| >= 3 && name[1] == '-' && Digits(name[2..])
                            && DecimalValue(name[2..]) == -(s.y + 1) && name[2] != '0'
  {
    var rank := Itoa(s.y + 1);
    assert ([FileLetter(s.x)] + rank)[1..] == rank;
    assert rank[1..] == ([FileLetter(s.x)] + rank)[2..];
    [FileLetter(s.x)] + rank
  }

  /** Why getSquare fails: a name of three or more bytes, no byte at all, or a rank Atoi rejects. */
  datatype SquareError = NameTooLong | NameEmpty | RankNotNumeric

  /** The source's letter-to-file lookup; a byte outside a..h yields the map's zero value 0. */
  function FileIndex(c: char): (x: int)
    ensures 0 <= x <= BoardSize
    ensures 'a' <= c <= 'h' ==> FileLetter(x) == c
    ensures !('a' <= c <= 'h') ==> x == 0
  {
    if 'a' <= c <= 'h' then c as int - 'a' as int else 0
  }

  /** strconv.Atoi on a string of at most one byte: only a single decimal digit parses. */
  function AtoiShort(s: string): (r: Option<int>)
    requires |s| <= 1
    ensures r.Some? <==> |s| == 1 && '0' <= s[0] <= '9'
    ensures r.Some? ==> 0 <= r.value <= 9 && DecimalValue(s) == r.value
  {
    if |s| == 1 && '0' <= s[0] <= '9' then Some(s[0] as int - '0' as int) else None
  }

  /** Atoi reads back what Itoa writes, for the one-digit numbers it is given here. */
  lemma AtoiItoa(n: int)
    requires 0 <= n <= 9
    ensures AtoiShort(Itoa(n)) == Some(n)
  {
  }

  /** getSquare: parses a name such as "e4"; the caller's panics become failures. */
  function GetSquare(name: string): (r: Result<Square, SquareError>)
    ensures |name| >= 3 ==> r == Failure(NameTooLong)
    ensures r.Success? <==> |name| == 2 && '0' <= name[1] <= '9'
    ensures r.Success? ==>
              r.value.x == FileIndex(name[0]) && r.value.y == (name[1] as int - '0' as int) - 1
    ensures r.Success? ==> 0 <= r.value.x <= BoardSize && -1 <= r.value.y <= 8
  {
    if |name| >= 3 then Failure(NameTooLong)
    else if |name| == 0 then Failure(NameEmpty)
    else
      match AtoiShort(name[1..])
      case None => Failure(RankNotNumeric)
      case Some(rank) => Success(Square(FileIndex(name[0]), rank - 1))
  }

  /** Every on-board square survives Name followed by getSquare. */
  lemma NameRoundTrip(s: Square)
    requires InRange(s)
    ensures GetSquare(Name(s)) == Success(s)
  {
    var name := Name(s);
    assert name[1..] == [DigitChar(s.y + 1)];
  }

  /** A well-formed on-board name survives getSquare followed by Name. */
  lemma GetSquareRoundTrip(name: string)
    requires GetSquare(name).Success? && 'a' <= name[0] <= 'h'
    requires InRange(GetSquare(name).value)
    ensures Name(GetSquare(name).value) == name
  {
    var s := GetSquare(name).value;
    assert Name(s) == [FileLetter(s.x), DigitChar(s.y + 1)];
    assert name == [name[0], name[1]];
  }
}
