/** Value types of the chess engine: colours, board coordinates, moves, the
    validator's result type, pieces and the board layout. */
module Chess {

  datatype Option<+T> = None | Some(value: T)

  datatype Result<+T, +E> = Ok(value: T) | Err(error: E)

  /** Outcome of a completed move, as reported to the caller. */
  datatype GameState = Ongoing | Checkmate | Stalemate

  // ---------------------------------------------------------------- colour

  datatype Color = White | Black

  /** The opposing colour (`operator~`). */
  function Opposite(c: Color): (r: Color)
    ensures r != c
    ensures c == White ==> r == Black
    ensures c == Black ==> r == White
  {
    match c
    case White => Black
    case Black => White
  }

  lemma OppositeInvolutive(c: Color)
    ensures Opposite(Opposite(c)) == c
  {
  }

  // ---------------------------------------------------------- coordinates

  /** A square; rank 0 is the row labelled '8', file 0 the 'A' file.
      The integer constructor performs no range check. */
  datatype Pos = Pos(rank: int, file: int)

  predicate InBoard(p: Pos) {
    0 <= p.rank < 8 && 0 <= p.file < 8
  }

  datatype ParseError = InvalidPosition

  predicate IsUpperFile(ch: char) { 'A' <= ch <= 'H' }
  predicate IsLowerFile(ch: char) { 'a' <= ch <= 'h' }
  predicate IsRankDigit(ch: char) { '1' <= ch <= '8' }

  /** Two-character notation such as "D2": letter (either case) then digit. */
  function ParsePos(letter: char, digit: char): (r: Result<Pos, ParseError>)
    ensures r.Ok? <==> (IsUpperFile(letter) || IsLowerFile(letter)) && IsRankDigit(digit)
    ensures r.Ok? ==> InBoard(r.value)
    ensures r.Ok? ==> ToString(r.value) == [UpperFile(letter), digit]
  {
    var file := if IsUpperFile(letter) then letter as int - 'A' as int
                else letter as int - 'a' as int;
    if !IsUpperFile(letter) && !IsLowerFile(letter) then Err(InvalidPosition)
    else if !IsRankDigit(digit) then Err(InvalidPosition)
    else Ok(Pos('8' as int - digit as int, file))
  }

  /** The upper-case form of a file letter. */
  function UpperFile(ch: char): (r: char)
    requires IsUpperFile(ch) || IsLowerFile(ch)
    ensures IsUpperFile(r)
    ensures r as int - 'A' as int == if IsUpperFile(ch) then ch as int - 'A' as int else ch as int - 'a' as int
  {
    if IsUpperFile(ch) then ch else (ch as int - 'a' as int + 'A' as int) as char
  }

  /** `to_string`: upper-case letter followed by the digit. */
  function ToString(p: Pos): (s: string)
    requires InBoard(p)
    ensures |s| == 2 && IsUpperFile(s[0]) && IsRankDigit(s[1])
  {
    [('A' as int + p.file) as char, ('8' as int - p.rank) as char]
  }

  lemma {:induction false} ToStringRoundTrip(p: Pos)
    requires InBoard(p)
    ensures ParsePos(ToString(p)[0], ToString(p)[1]) == Ok(p)
  {
    var s := ToString(p);
    assert s[0] as int - 'A' as int == p.file;
    assert '8' as int - s[1] as int == p.rank;
  }

  lemma LowerCaseAccepted(letter: char, digit: char)
    requires IsUpperFile(letter)
    ensures ParsePos((letter as int - 'A' as int + 'a' as int) as char, digit) == ParsePos(letter, digit)
  {
  }

  /** The examples of the notation test suite. */
  lemma NotationExamples()
    ensures ParsePos('A', '8') == Ok(Pos(0, 0))
    ensures ParsePos('A', '7') == Ok(Pos(1, 0))
    ensures ParsePos('B', '8') == Ok(Pos(0, 1))
    ensures ParsePos('H', '8') == Ok(Pos(0, 7))
    ensures ParsePos('A', '1') == Ok(Pos(7, 0))
    ensures ParsePos('H', '1') == Ok(Pos(7, 7))
    ensures ParsePos('C', '3') == Ok(Pos(5, 2))
    ensures ParsePos('D', '2') == Ok(Pos(6, 3))
    ensures ParsePos('d', '2') == Ok(Pos(6, 3))
    ensures ParsePos('I', '2').Err? && ParsePos('D', '9').Err? && ParsePos('D', '0').Err?
  {
  }

  datatype Ordering = Less | Equal | Greater

  /** The defaulted three-way comparison: rank first, then file. */
  function Compare(a: Pos, b: Pos): (r: Ordering)
    ensures r == Equal <==> a == b
    ensures r == Less <==> (a.rank < b.rank || (a.rank == b.rank && a.file < b.file))
  {
    if a.rank < b.rank then Less
    else if a.rank > b.rank then Greater
    else if a.file < b.file then Less
    else if a.file > b.file then Greater
    else Equal
  }

  lemma CompareAntisymmetric(a: Pos, b: Pos)
    ensures Compare(a, b) == Less <==> Compare(b, a) == Greater
  {
  }

  lemma CompareTransitive(a: Pos, b: Pos, c: Pos)
    requires Compare(a, b) == Less && Compare(b, c) == Less
    ensures Compare(a, c) == Less
  {
  }

  // ----------------------------------------------------------------- moves

  datatype Move = Move(from: Pos, to: Pos)

  predicate MoveInBoard(m: Move) {
    InBoard(m.from) && InBoard(m.to)
  }

  predicate StepsInBoard(steps: seq<Move>) {
    forall i :: 0 <= i < |steps| ==> MoveInBoard(steps[i])
  }

  const MaxCounts: int := 5

  /** The validator's result: invalid, valid with the move itself as the
      only relocation, or valid with an explicit relocation list. */
  datatype MoveValidResult = Invalid | Simple | Relocations(moves: seq<Move>) {

    /** The variadic constructor accepts one to five moves. */
    predicate Wf() {
      Relocations? ==> 1 <= |moves| <= MaxCounts
    }

    /** `operator bool` */
    predicate Truthy() {
      !Invalid?
    }

    /** `size()`: the number of explicit relocations, bounded by the fixed
        array and zero exactly when there is no explicit list. */
    function Size(): (n: nat)
      ensures Wf() ==> n <= MaxCounts && (n == 0 <==> !Relocations?)
    {
      if Relocations? then |moves| else 0
    }

    predicate Empty() {
      Size() == 0
    }

    /** The relocations to perform, the given move standing in for a
        result without an explicit list. */
    function ValueOr(m: Move): (r: seq<Move>)
      ensures Wf() ==> 1 <= |r| <= MaxCounts && (Size() == 0 ==> r == [m]) && (Size() > 0 ==> |r| == Size())
    {
      if Relocations? then moves else [m]
    }
  }

  /** `move_valid_result(bool)` */
  function FromBool(flag: bool): (r: MoveValidResult)
    ensures r.Wf() && r.Truthy() == flag && r.Size() == 0
    ensures forall m :: r.ValueOr(m) == [m]
  {
    if flag then Simple else Invalid
  }

  /** `move_valid_result(T &&... moves)` */
  function FromMoves(ms: seq<Move>): (r: MoveValidResult)
    requires 1 <= |ms| <= MaxCounts
    ensures r.Wf() && r.Truthy() && r.Size() == |ms|
    ensures forall m :: r.ValueOr(m) == ms
  {
    Relocations(ms)
  }

  // ---------------------------------------------------------------- pieces

  datatype Kind = Pawn | Rook | Knight | Bishop | Queen | King

  /** A piece: its variant (kind and colour) and the per-instance moved flag. */
  datatype Piece = Piece(kind: Kind, color: Color, moved: bool)

  /** Display glyph: upper case for white. The knight shares 'K' with the king. */
  function Glyph(p: Piece): (g: char)
    ensures p.color == White <==> 'A' <= g <= 'Z'
    ensures p.color == Black <==> 'a' <= g <= 'z'
  {
    var white := p.color == White;
    match p.kind
    case Pawn => if white then 'P' else 'p'
    case Rook => if white then 'R' else 'r'
    case Knight => if white then 'K' else 'k'
    case Bishop => if white then 'B' else 'b'
    case Queen => if white then 'Q' else 'q'
    case King => if white then 'K' else 'k'
  }

  /** Only the king declares itself essential. */
  predicate Essential(p: Piece)
    ensures Essential(p) ==> Glyph(p) == if p.color == White then 'K' else 'k'
    ensures p.kind == King ==> Essential(p)
  {
    p.kind == King
  }

  function MarkAsMoved(p: Piece): (r: Piece)
    ensures r.moved
    ensures r.kind == p.kind && r.color == p.color
  {
    p.(moved := true)
  }

  /** The glyph determines kind and colour except for the knight/king pair. */
  lemma {:induction false} GlyphDetermines(p: Piece, q: Piece)
    requires Glyph(p) == Glyph(q)
    requires {p.kind, q.kind} != {Knight, King}
    ensures p.kind == q.kind && p.color == q.color
  {
    assert p.color == q.color;
  }

  // ----------------------------------------------------------------- board

  /** The chessboard layout: eight ranks of eight optional cells, indexed
      `rows[rank][file]`, and the last executed move. */
  datatype Board = Board(rows: seq<seq<Option<Piece>>>, lastMove: Option<Move>) {

    predicate Wf() {
      |rows| == 8 && (forall r :: 0 <= r < 8 ==> |rows[r]| == 8)
      && (lastMove.Some? ==> MoveInBoard(lastMove.value))
    }

    /** `operator[]` for reading. */
    function At(p: Pos): Option<Piece>
      requires Wf() && InBoard(p)
    {
      rows[p.rank][p.file]
    }

    /** `operator[]` for writing, as a new value. */
    function Set(p: Pos, x: Option<Piece>): (r: Board)
      requires Wf() && InBoard(p)
      ensures r.Wf() && r.lastMove == lastMove
      ensures r.At(p) == x
      ensures forall q :: InBoard(q) && q != p ==> r.At(q) == At(q)
    {
      Board(rows[p.rank := rows[p.rank][p.file := x]], lastMove)
    }
  }

  /** Two boards that agree on every square and on the last move are equal. */
  lemma {:induction false} BoardsEqual(a: Board, b: Board)
    requires a.Wf() && b.Wf() && a.lastMove == b.lastMove
    requires forall p :: InBoard(p) ==> a.At(p) == b.At(p)
    ensures a == b
  {
    forall r | 0 <= r < 8
      ensures a.rows[r] == b.rows[r]
    {
      forall f | 0 <= f < 8
        ensures a.rows[r][f] == b.rows[r][f]
      {
        assert a.At(Pos(r, f)) == b.At(Pos(r, f));
      }
    }
  }

  function EmptyBoard(): (b: Board)
    ensures b.Wf() && b.lastMove.None?
    ensures forall p :: InBoard(p) ==> b.At(p).None?
  {
    Board(seq(8, _ => seq(8, _ => None)), None)
  }
}
