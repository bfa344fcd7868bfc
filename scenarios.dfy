/** The positions of the piece test suite, stated as lemmas about the
    validator: which targets a piece on an otherwise (nearly) empty board may
    move to. */
module Scenarios {
  import opened Chess
  import opened Pieces
  import opened Validation
  import opened Game

  /** A board holding one piece. */
  function Lone(at: Pos, p: Piece): (b: Board)
    requires InBoard(at)
    ensures b.Wf() && b.lastMove.None? && b.At(at) == Some(p)
    ensures forall q :: InBoard(q) && q != at ==> b.At(q).None?
  {
    EmptyBoard().Set(at, Some(p))
  }

  /** A lone rook on D4 reaches exactly the other squares of rank 4 and of
      the D file. */
  lemma {:induction false} RookOnEmptyBoard(t: Pos)
    requires InBoard(t)
    ensures var from, rook := Pos(4, 3), Piece(Rook, White, false);
      Validate(Lone(from, rook), rook, Move(from, t)).Truthy() <==>
        t != from && (t.rank == from.rank || t.file == from.file)
  {
    var from, rook := Pos(4, 3), Piece(Rook, White, false);
    var b := Lone(from, rook);
    ValidateWithoutCheck(b, rook, Move(from, t));
    assert RankClear(b, from.rank, from.file, t.file);
    assert FileClear(b, from.file, from.rank, t.rank);
  }

  /** The enumerator correspondingly yields one single-move list per such
      target. */
  lemma {:induction false} RookOnEmptyBoardMoves(l: seq<Move>)
    ensures var from, rook := Pos(4, 3), Piece(Rook, White, false);
      l in ValidMovesSpec(Lone(from, rook), rook, from) <==>
        |l| == 1 && l[0].from == from && InBoard(l[0].to) && l[0].to != from
        && (l[0].to.rank == from.rank || l[0].to.file == from.file)
  {
    var from, rook := Pos(4, 3), Piece(Rook, White, false);
    SingleMoveLists(Lone(from, rook), rook, from, l);
    if |l| == 1 && l[0].from == from && InBoard(l[0].to) {
      RookOnEmptyBoard(l[0].to);
      assert l[0] == Move(from, l[0].to);
    }
  }

  /** The rook test's later positions: a black pawn on E4 and, in the last
      one, a white pawn on C4 beside the rook on D4. */
  function RookTestPieces(ownPawn: bool): map<Pos, Piece> {
    var ps := map[Pos(4, 3) := Piece(Rook, White, false), Pos(4, 4) := Piece(Pawn, Black, false)];
    if ownPawn then ps[Pos(4, 2) := Piece(Pawn, White, false)] else ps
  }

  /** The black pawn on E4 may be taken but hides F4, G4 and H4; the own
      pawn on C4 hides itself, B4 and A4. The D file stays open. */
  lemma {:induction false} RookBlocked(t: Pos, ownPawn: bool)
    requires InBoard(t)
    ensures var from, rook := Pos(4, 3), Piece(Rook, White, false);
      Validate(Position(RookTestPieces(ownPawn), None), rook, Move(from, t)).Truthy() <==>
        (t.file == from.file && t != from) || (t.rank == from.rank && t.file == 4)
        || (!ownPawn && t.rank == from.rank && t.file < 3)
  {
    var from, rook := Pos(4, 3), Piece(Rook, White, false);
    var b := Position(RookTestPieces(ownPawn), None);
    assert Absent(b, White, {King});
    ValidateWithoutCheck(b, rook, Move(from, t));
    if t.rank == from.rank {
      RookTestRank(t.file, ownPawn);
    } else {
      assert FileClear(b, from.file, from.rank, t.rank);
    }
  }

  /** Along rank 4 the pawns on E4 and C4 bound the rook's reach. */
  lemma {:induction false} RookTestRank(f: int, ownPawn: bool)
    requires 0 <= f < 8
    ensures RankClear(Position(RookTestPieces(ownPawn), None), 4, 3, f) <==> 2 <= f <= 4 || (!ownPawn && f < 3)
  {
    var b := Position(RookTestPieces(ownPawn), None);
    if f > 4 {
      assert b.At(Pos(4, 4)).Some?;
    } else if ownPawn && f < 2 {
      assert b.At(Pos(4, 2)).Some?;
    }
  }

  /** A lone bishop on C3 reaches exactly the squares of its two diagonals. */
  lemma {:induction false} BishopOnEmptyBoard(t: Pos)
    requires InBoard(t)
    ensures var from, bishop := Pos(5, 2), Piece(Bishop, White, false);
      Validate(Lone(from, bishop), bishop, Move(from, t)).Truthy() <==>
        t != from && Abs(t.rank - from.rank) == Abs(t.file - from.file)
  {
    var from, bishop := Pos(5, 2), Piece(Bishop, White, false);
    var b := Lone(from, bishop);
    ValidateWithoutCheck(b, bishop, Move(from, t));
    var drank, dfile := t.rank - from.rank, t.file - from.file;
    if Abs(drank) == Abs(dfile) {
      forall i | 0 < i < Abs(drank) ensures b.At(Pos(Toward(from.rank, drank, i), Toward(from.file, dfile, i))).None? {
        assert Toward(from.rank, drank, i) != from.rank;
      }
    }
  }

  /** The bishop test's later positions: a black pawn on E5 and, in the
      last one, a white pawn on B4 beside the bishop on C3. */
  function BishopTestPieces(ownPawn: bool): map<Pos, Piece> {
    var ps := map[Pos(5, 2) := Piece(Bishop, White, false), Pos(3, 4) := Piece(Pawn, Black, false)];
    if ownPawn then ps[Pos(4, 1) := Piece(Pawn, White, false)] else ps
  }

  /** The black pawn on E5 may be taken but hides F6, G7 and H8; the own
      pawn on B4 hides itself and A5. */
  lemma {:induction false} BishopBlocked(t: Pos, ownPawn: bool)
    requires InBoard(t)
    ensures var from, bishop := Pos(5, 2), Piece(Bishop, White, false);
      Validate(Position(BishopTestPieces(ownPawn), None), bishop, Move(from, t)).Truthy() <==>
        && t != from && Abs(t.rank - from.rank) == Abs(t.file - from.file)
        && !(t.rank < 3 && t.file > 4) && !(ownPawn && t.rank < 5 && t.file < 2)
  {
    var from, bishop := Pos(5, 2), Piece(Bishop, White, false);
    var b := Position(BishopTestPieces(ownPawn), None);
    assert Absent(b, White, {King});
    ValidateWithoutCheck(b, bishop, Move(from, t));
    if t != from && Abs(t.rank - from.rank) == Abs(t.file - from.file) {
      BishopTestDiagonal(t, ownPawn);
    }
  }

  /** Along the bishop's diagonals the pawn on E5 hides F6, G7 and H8, and
      the own pawn on B4 hides A5. */
  lemma {:induction false} BishopTestDiagonal(t: Pos, ownPawn: bool)
    requires InBoard(t) && t != Pos(5, 2) && Abs(t.rank - 5) == Abs(t.file - 2)
    ensures BishopValid(Position(BishopTestPieces(ownPawn), None), Move(Pos(5, 2), t)) <==>
      !(t.rank < 3 && t.file > 4) && !(ownPawn && t == Pos(3, 0))
  {
    var from := Pos(5, 2);
    var b := Position(BishopTestPieces(ownPawn), None);
    var drank, dfile := t.rank - from.rank, t.file - from.file;
    if t.rank < 3 && t.file > 4 {
      assert b.At(Pos(Toward(from.rank, drank, 2), Toward(from.file, dfile, 2))).Some?;
    } else if ownPawn && t == Pos(3, 0) {
      assert b.At(Pos(Toward(from.rank, drank, 1), Toward(from.file, dfile, 1))).Some?;
    } else {
      forall i | 0 < i < Abs(drank) ensures b.At(Pos(Toward(from.rank, drank, i), Toward(from.file, dfile, i))).None? {
        assert Toward(from.rank, drank, i) != from.rank;
      }
    }
  }

  /** The knight test's positions, stage by stage: a white knight on D4;
      from stage 1 black pawns on C4, C5 and D5; from stage 2 white pawns on
      E4, E3 and D3; from stage 3 a black pawn on E6; in stage 4 a white pawn
      on F5. */
  function KnightCell(p: Pos, stage: nat): (x: Option<Piece>)
    ensures x.Some? ==> x.value.kind != King
  {
    if p == Pos(4, 3) then Some(Piece(Knight, White, false))
    else if stage >= 1 && p in {Pos(4, 2), Pos(3, 2), Pos(3, 3)} then Some(Piece(Pawn, Black, false))
    else if stage >= 2 && p in {Pos(4, 4), Pos(5, 4), Pos(5, 3)} then Some(Piece(Pawn, White, false))
    else if stage >= 3 && p == Pos(2, 4) then Some(Piece(Pawn, Black, false))
    else if stage >= 4 && p == Pos(3, 5) then Some(Piece(Pawn, White, false))
    else None
  }

  function KnightBoard(stage: nat): (b: Board)
    ensures b.Wf() && forall q :: InBoard(q) ==> b.At(q) == KnightCell(q, stage)
  {
    Board(seq(8, r => seq(8, f => KnightCell(Pos(r, f), stage))), None)
  }

  /** In every stage the knight jumps over whatever stands around it to its
      eight squares, and may take on E6; only the own pawn of the last stage
      on F5 blocks a target. */
  lemma {:induction false} KnightJumps(t: Pos, stage: nat)
    requires InBoard(t) && stage <= 4
    ensures var from, knight := Pos(4, 3), Piece(Knight, White, false);
      Validate(KnightBoard(stage), knight, Move(from, t)).Truthy() <==>
        KnightValid(Move(from, t)) && !(stage == 4 && t == Pos(3, 5))
  {
    var from, knight, b := Pos(4, 3), Piece(Knight, White, false), KnightBoard(stage);
    assert Absent(b, White, {King});
    ValidateWithoutCheck(b, knight, Move(from, t));
    if KnightValid(Move(from, t)) && !(stage == 4 && t == Pos(3, 5)) {
      assert t !in {Pos(4, 4), Pos(5, 4), Pos(5, 3)};
    }
  }

  /** A lone king on D4 steps to exactly its eight neighbours. */
  lemma {:induction false} KingOnEmptyBoard(t: Pos)
    requires InBoard(t)
    ensures var from, king := Pos(4, 3), Piece(King, White, false);
      Validate(Lone(from, king), king, Move(from, t)).Truthy() <==> t != from && KingAdjacent(Move(from, t))
  {
    var from, king := Pos(4, 3), Piece(King, White, false);
    var b := Lone(from, king);
    ValidateWithoutCheck(b, king, Move(from, t));
    assert !CastlingRook(b, White, Pos(7, 7)) && !CastlingRook(b, White, Pos(7, 0));
  }

  /** A lone unmoved pawn on D2 pushes to D3 or D4; once moved only to D3. */
  lemma {:induction false} PawnOnEmptyBoard(t: Pos, moved: bool)
    requires InBoard(t)
    ensures var from, pawn := Pos(6, 3), Piece(Pawn, White, moved);
      Validate(Lone(from, pawn), pawn, Move(from, t)).Truthy() <==>
        t == Pos(5, 3) || (!moved && t == Pos(4, 3))
  {
    var from, pawn := Pos(6, 3), Piece(Pawn, White, moved);
    var b := Lone(from, pawn);
    ValidateWithoutCheck(b, pawn, Move(from, t));
    if PawnDiagonal(White, Move(from, t)) {
      PawnCaptures(b, White, Move(from, t), moved);
    }
  }

  /** The pawn test's later positions: the moved white pawn on D2 with a
      black pawn on C3 and on E3 a black pawn or, in the last one, a white
      pawn. */
  function PawnTestPieces(ownE3: bool): map<Pos, Piece> {
    map[Pos(6, 3) := Piece(Pawn, White, true), Pos(5, 2) := Piece(Pawn, Black, false),
        Pos(5, 4) := Piece(Pawn, if ownE3 then White else Black, false)]
  }

  /** The pawn takes diagonally forward onto an enemy piece, never onto an
      own one, and still pushes one square. */
  lemma {:induction false} PawnTakesDiagonally(t: Pos, ownE3: bool)
    requires InBoard(t)
    ensures var from, pawn := Pos(6, 3), Piece(Pawn, White, true);
      Validate(Position(PawnTestPieces(ownE3), None), pawn, Move(from, t)).Truthy() <==>
        t == Pos(5, 3) || t == Pos(5, 2) || (!ownE3 && t == Pos(5, 4))
  {
    var from, pawn := Pos(6, 3), Piece(Pawn, White, true);
    var b := Position(PawnTestPieces(ownE3), None);
    assert Absent(b, White, {King});
    ValidateWithoutCheck(b, pawn, Move(from, t));
    if PawnDiagonal(White, Move(from, t)) {
      PawnCaptures(b, White, Move(from, t), true);
    }
  }

  /** The en passant test's position: a moved white pawn on B5 and an
      unmoved black pawn on C7. */
  function EnPassantBoard(): (b: Board)
    ensures b.Wf() && b.lastMove.None?
    ensures b.At(Pos(3, 1)) == Some(Piece(Pawn, White, true)) && b.At(Pos(1, 2)) == Some(Piece(Pawn, Black, false))
    ensures forall q :: InBoard(q) && q !in {Pos(3, 1), Pos(1, 2)} ==> b.At(q).None?
  {
    Lone(Pos(3, 1), Piece(Pawn, White, true)).Set(Pos(1, 2), Some(Piece(Pawn, Black, false)))
  }

  /** The black pawn's double step C7-C5 is accepted and executed as a plain
      move. */
  lemma {:induction false} DoubleStep()
    ensures var b0, m1 := EnPassantBoard(), Move(Pos(1, 2), Pos(3, 2));
      && Accepted(b0, m1) && LandsOnTarget(b0, m1)
      && var b1 := Executed(b0, m1);
      && b1.lastMove == Some(m1)
      && b1.At(Pos(3, 1)) == Some(Piece(Pawn, White, true)) && b1.At(Pos(3, 2)) == Some(Piece(Pawn, Black, true))
      && forall q :: InBoard(q) && q !in {Pos(3, 1), Pos(3, 2)} ==> b1.At(q).None?
  {
    var b0, m1 := EnPassantBoard(), Move(Pos(1, 2), Pos(3, 2));
    var bp := Piece(Pawn, Black, false);
    ValidateWithoutCheck(b0, bp, m1);
    assert Validate(b0, bp, m1) == Simple;
    ExecutedPlainMove(b0, m1);
  }

  /** After the double step the white pawn on B5 may push to B6 or take en
      passant on C6, which first relocates the black pawn onto C6. */
  lemma {:induction false} EnPassantOffered(b1: Board)
    requires b1.Wf() && b1.lastMove == Some(Move(Pos(1, 2), Pos(3, 2)))
    requires b1.At(Pos(3, 1)) == Some(Piece(Pawn, White, true)) && b1.At(Pos(3, 2)) == Some(Piece(Pawn, Black, true))
    requires forall q :: InBoard(q) && q !in {Pos(3, 1), Pos(3, 2)} ==> b1.At(q).None?
    ensures Validate(b1, Piece(Pawn, White, true), Move(Pos(3, 1), Pos(2, 1))) == Simple
    ensures Validate(b1, Piece(Pawn, White, true), Move(Pos(3, 1), Pos(2, 2))) ==
      Relocations([Move(Pos(3, 2), Pos(2, 2)), Move(Pos(3, 1), Pos(2, 2))])
  {
    var wp := Piece(Pawn, White, true);
    assert b1.At(Pos(2, 1)).None? && b1.At(Pos(2, 2)).None?;
    ValidateWithoutCheck(b1, wp, Move(Pos(3, 1), Pos(2, 1)));
    ValidateWithoutCheck(b1, wp, Move(Pos(3, 1), Pos(2, 2)));
    assert EnPassant(b1, White, Move(Pos(3, 1), Pos(2, 2)));
  }

  /** The en passant test as a whole. */
  lemma {:induction false} EnPassantAfterDoubleStep()
    ensures var b0, m1 := EnPassantBoard(), Move(Pos(1, 2), Pos(3, 2));
      && Accepted(b0, m1) && LandsOnTarget(b0, m1)
      && var b1 := Executed(b0, m1);
      && Validate(b1, Piece(Pawn, White, true), Move(Pos(3, 1), Pos(2, 1))) == Simple
      && Validate(b1, Piece(Pawn, White, true), Move(Pos(3, 1), Pos(2, 2))) ==
         Relocations([Move(Pos(3, 2), Pos(2, 2)), Move(Pos(3, 1), Pos(2, 2))])
  {
    DoubleStep();
    EnPassantOffered(Executed(EnPassantBoard(), Move(Pos(1, 2), Pos(3, 2))));
  }

  /** A position given by its pieces. */
  function Position(pieces: map<Pos, Piece>, last: Option<Move>): (b: Board)
    requires last.Some? ==> MoveInBoard(last.value)
    ensures b.Wf() && b.lastMove == last
    ensures forall q :: InBoard(q) ==> b.At(q) == if q in pieces then Some(pieces[q]) else None
  {
    Board(seq(8, r => seq(8, f => if Pos(r, f) in pieces then Some(pieces[Pos(r, f)]) else None)), last)
  }

  /** One relocation onto an empty square moves the entry of the map. */
  lemma {:induction false} Relocated(pieces: map<Pos, Piece>, last: Option<Move>, x: Pos, y: Pos)
    requires last.Some? ==> MoveInBoard(last.value)
    requires InBoard(x) && InBoard(y) && x in pieces && y !in pieces
    ensures Relocate(Position(pieces, last), Move(x, y)) == Position((pieces - {x})[y := pieces[x]], last)
  {
    BoardsEqual(Relocate(Position(pieces, last), Move(x, y)), Position((pieces - {x})[y := pieces[x]], last));
  }

  /** In a position with a single white king on k and no black king, White is
      in check exactly when the geometry of some black piece allows it to
      move onto k. */
  lemma {:induction false} CheckInPosition(pieces: map<Pos, Piece>, last: Option<Move>, k: Pos)
    requires last.Some? ==> MoveInBoard(last.value)
    requires forall p :: p in pieces ==> InBoard(p)
    requires k in pieces && pieces[k].kind == King && pieces[k].color == White
    requires forall p :: p in pieces && pieces[p].kind == King ==> p == k
    ensures var b := Position(pieces, last);
      InCheck(b, White) <==>
        exists a :: a in pieces && pieces[a].color == Black && Geometry(b, pieces[a], Move(a, k)).Truthy()
  {
    var b := Position(pieces, last);
    var attackers := set a | a in pieces && pieces[a].color == Black;
    CheckFromAttackers(b, White, k, attackers);
    assert Absent(b, Black, {King});
    forall a | a in attackers
      ensures EnemyReaches(b, White, k, a) <==> Geometry(b, pieces[a], Move(a, k)).Truthy()
    {
      AttackWithoutEnemyKing(b, White, k, a);
    }
  }

  /** The position after White's H6-H7 with the white king on D4 and the
      black king on G8 and pawn on C5. */
  function PawnOnH7(): (b: Board)
    ensures b.Wf() && b.lastMove == Some(Move(Pos(2, 7), Pos(1, 7)))
    ensures b.At(Pos(1, 7)) == Some(Piece(Pawn, White, true)) && b.At(Pos(0, 6)) == Some(Piece(King, Black, false))
    ensures b.At(Pos(3, 2)) == Some(Piece(Pawn, Black, false)) && b.At(Pos(4, 3)) == Some(Piece(King, White, false))
  {
    Position(map[Pos(4, 3) := Piece(King, White, false), Pos(1, 7) := Piece(Pawn, White, true),
                 Pos(0, 6) := Piece(King, Black, false), Pos(3, 2) := Piece(Pawn, Black, false)],
             Some(Move(Pos(2, 7), Pos(1, 7))))
  }

  /** The en passant rule can meet an empty cell in ordinary play. Black's
      check test after H6-H7 probes the pawn's capture H7xG8; the copy made
      for that probe's self-check keeps H6-H7 as the last move but has H7
      empty, and on it the black pawn's diagonal C5xD4 asks whether the last
      move's target holds an enemy pawn. */
  lemma {:induction false} EnPassantReadsEmptyCell()
    ensures var b, capture := PawnOnH7(), Move(Pos(1, 7), Pos(0, 6));
      var copy := Relocate(b, capture);
      && Geometry(b, b.At(Pos(1, 7)).value, capture) == Simple
      && copy.lastMove == b.lastMove && copy.At(b.lastMove.value.to).None?
      && copy.At(Pos(4, 3)) == Some(Piece(King, White, false)) && copy.At(Pos(3, 2)) == Some(Piece(Pawn, Black, false))
      && PawnDiagonal(Black, Move(Pos(3, 2), Pos(4, 3)))
      && !EnPassant(copy, Black, Move(Pos(3, 2), Pos(4, 3)))
  {
    var b, capture := PawnOnH7(), Move(Pos(1, 7), Pos(0, 6));
    assert !EnPassant(b, White, capture);
    PawnCaptures(b, White, capture, true);
  }

  // ------------------------------------------------------------- king test

  /** The king test's positions: a white king on D4, a black rook on E6 and,
      in the last one, a black knight on B2. */
  function KingTestPieces(knight: bool): map<Pos, Piece> {
    var ps := map[Pos(4, 3) := Piece(King, White, false), Pos(2, 4) := Piece(Rook, Black, false)];
    if knight then ps[Pos(6, 1) := Piece(Knight, Black, false)] else ps
  }

  /** The king test's pieces after the king moved alone from D4 to t. */
  function KingTestAfter(t: Pos, knight: bool): (after: map<Pos, Piece>)
    requires InBoard(t) && t != Pos(4, 3) && KingAdjacent(Move(Pos(4, 3), t))
    ensures after.Keys == {t, Pos(2, 4)} + (if knight then {Pos(6, 1)} else {})
    ensures after[t] == Piece(King, White, false) && after[Pos(2, 4)] == Piece(Rook, Black, false)
    ensures knight ==> after[Pos(6, 1)] == Piece(Knight, Black, false)
  {
    var ps := KingTestPieces(knight);
    (ps - {Pos(4, 3)})[t := ps[Pos(4, 3)]]
  }

  /** After the king's step, t holds the only king, a white one. */
  lemma {:induction false} KingTestAfterShape(t: Pos, knight: bool)
    requires InBoard(t) && t != Pos(4, 3) && KingAdjacent(Move(Pos(4, 3), t))
    ensures var after := KingTestAfter(t, knight);
      && (forall p :: p in after ==> InBoard(p))
      && t in after && after[t].kind == King && after[t].color == White
      && (forall p :: p in after && after[p].kind == King ==> p == t)
  {
  }

  /** On the E file below E6 the king faces the rook. */
  lemma {:induction false} KingTestRookCheck(t: Pos, knight: bool)
    requires InBoard(t) && t != Pos(4, 3) && KingAdjacent(Move(Pos(4, 3), t)) && t.file == 4
    ensures InCheck(Position(KingTestAfter(t, knight), None), White)
  {
    var after := KingTestAfter(t, knight);
    var b := Position(after, None);
    KingTestAfterShape(t, knight);
    KingTestRookReaches(t, knight);
    CheckInPosition(after, None, t);
    assert Geometry(b, after[Pos(2, 4)], Move(Pos(2, 4), t)).Truthy();
  }

  /** Nothing stands between the rook on E6 and a king below it on the E file. */
  lemma {:induction false} KingTestRookReaches(t: Pos, knight: bool)
    requires InBoard(t) && t != Pos(4, 3) && KingAdjacent(Move(Pos(4, 3), t)) && t.file == 4
    ensures RookValid(Position(KingTestAfter(t, knight), None), Move(Pos(2, 4), t))
  {
    assert FileClear(Position(KingTestAfter(t, knight), None), 4, 2, t.rank);
  }

  /** On C4 and D3 the king faces the knight on B2. */
  lemma {:induction false} KingTestKnightCheck(t: Pos)
    requires t in {Pos(4, 2), Pos(5, 3)}
    ensures InCheck(Position(KingTestAfter(t, true), None), White)
  {
    var after := KingTestAfter(t, true);
    KingTestAfterShape(t, true);
    CheckInPosition(after, None, t);
    assert Geometry(Position(after, None), after[Pos(6, 1)], Move(Pos(6, 1), t)).Truthy();
  }

  /** Elsewhere next to D4 neither the rook nor the knight reaches the king. */
  lemma {:induction false} KingTestSafe(t: Pos, knight: bool)
    requires InBoard(t) && t != Pos(4, 3) && KingAdjacent(Move(Pos(4, 3), t))
    requires t.file != 4 && !(knight && t in {Pos(4, 2), Pos(5, 3)})
    ensures !InCheck(Position(KingTestAfter(t, knight), None), White)
  {
    var after := KingTestAfter(t, knight);
    var b := Position(after, None);
    KingTestAfterShape(t, knight);
    CheckInPosition(after, None, t);
    KingTestUnattacked(t, knight);
  }

  /** Away from the E file, C4 and D3 no black piece has the geometry to
      reach the king. */
  lemma {:induction false} KingTestUnattacked(t: Pos, knight: bool)
    requires InBoard(t) && t != Pos(4, 3) && KingAdjacent(Move(Pos(4, 3), t))
    requires t.file != 4 && !(knight && t in {Pos(4, 2), Pos(5, 3)})
    ensures var after := KingTestAfter(t, knight);
      forall a :: a in after && after[a].color == Black ==> !Geometry(Position(after, None), after[a], Move(a, t)).Truthy()
  {
    var after := KingTestAfter(t, knight);
    var b := Position(after, None);
    forall a | a in after && after[a].color == Black
      ensures !Geometry(b, after[a], Move(a, t)).Truthy()
    {
      if a == Pos(2, 4) {
        assert !RookValid(b, Move(a, t));
      } else {
        assert a == Pos(6, 1) && !KnightValid(Move(a, t));
      }
    }
  }

  /** The king moved alone to t, next to D4: the rook on E6 attacks the E
      file below it, the knight on B2 attacks C4 and D3. */
  lemma {:induction false} KingTestCheck(t: Pos, knight: bool)
    requires InBoard(t) && t != Pos(4, 3) && KingAdjacent(Move(Pos(4, 3), t))
    ensures var ps := KingTestPieces(knight);
      && Pos(4, 3) in ps && t !in ps
      && (InCheck(Position((ps - {Pos(4, 3)})[t := ps[Pos(4, 3)]], None), White) <==>
           t.file == 4 || (knight && t in {Pos(4, 2), Pos(5, 3)}))
  {
    if t.file == 4 {
      KingTestRookCheck(t, knight);
    } else if knight && t in {Pos(4, 2), Pos(5, 3)} {
      KingTestKnightCheck(t);
    } else {
      KingTestSafe(t, knight);
    }
  }

  /** The king test's second and third positions: the king steps to a
      neighbour only where neither the rook nor the knight attacks it. */
  lemma {:induction false} KingAvoidsAttackedSquares(t: Pos, knight: bool)
    requires InBoard(t)
    ensures var from, king := Pos(4, 3), Piece(King, White, false);
      Validate(Position(KingTestPieces(knight), None), king, Move(from, t)).Truthy() <==>
        t != from && KingAdjacent(Move(from, t)) && t.file != 4 && !(knight && t in {Pos(4, 2), Pos(5, 3)})
  {
    var from, king := Pos(4, 3), Piece(King, White, false);
    var ps := KingTestPieces(knight);
    var b, m := Position(ps, None), Move(from, t);
    ValidateCharacterization(b, king, m);
    assert !CastlingRook(b, White, Pos(7, 7)) && !CastlingRook(b, White, Pos(7, 0));
    assert Geometry(b, king, m) == FromBool(KingAdjacent(m));
    if t != from && KingAdjacent(m) {
      KingTestStep(t, knight);
      KingTestCheck(t, knight);
    }
  }

  /** A king step from D4 is safe exactly when the position after it is out
      of check. */
  lemma {:induction false} KingTestStep(t: Pos, knight: bool)
    requires InBoard(t) && t != Pos(4, 3) && KingAdjacent(Move(Pos(4, 3), t))
    ensures var b, m := Position(KingTestPieces(knight), None), Move(Pos(4, 3), t);
      SafeAfterEachStep(b, [m], White) <==> !InCheck(Position(KingTestAfter(t, knight), None), White)
  {
    var ps := KingTestPieces(knight);
    var b, m := Position(ps, None), Move(Pos(4, 3), t);
    PrefixChain(b, [m]);
    assert [m][..1] == [m];
    Relocated(ps, None, Pos(4, 3), t);
  }

  // --------------------------------------------------------- castling test

  /** The castling test's pieces: the king on E1, the rooks on A1 and H1,
      and, where given, the black queen. */
  function CastlingPieces(kingMoved: bool, hMoved: bool, queen: Option<(Pos, bool)>): map<Pos, Piece> {
    var ps := map[Pos(7, 4) := Piece(King, White, kingMoved), Pos(7, 0) := Piece(Rook, White, false),
                  Pos(7, 7) := Piece(Rook, White, hMoved)];
    if queen.Some? then ps[queen.value.0 := Piece(Queen, Black, queen.value.1)] else ps
  }

  function CastlingBoard(queen: bool): (b: Board)
    ensures b.Wf() && b.lastMove.None?
  {
    Position(CastlingPieces(false, false, if queen then Some((Pos(0, 4), false)) else None), None)
  }

  /** The king's two castling targets from E1 and which of them the
      geometry offers as castling: short needs the king and the H rook
      unmoved, long the king and the A rook; a refused castling is not a
      king step either. */
  lemma {:induction false} CastlingSides(kingMoved: bool, hMoved: bool, q: Option<(Pos, bool)>, last: Option<Move>)
    requires last.Some? ==> MoveInBoard(last.value)
    requires q.Some? ==> InBoard(q.value.0) && q.value.0.rank == 0
    ensures var b, king := Position(CastlingPieces(kingMoved, hMoved, q), last), Piece(King, White, kingMoved);
      var short, long := Move(Pos(7, 4), Pos(7, 6)), Move(Pos(7, 4), Pos(7, 2));
      && Geometry(b, king, short) == (if kingMoved || hMoved then Invalid else Relocations(ShortCastling(short.from, White)))
      && Geometry(b, king, long) == (if kingMoved then Invalid else Relocations(LongCastling(long.from, White)))
  {
    var b := Position(CastlingPieces(kingMoved, hMoved, q), last);
    var short, long := Move(Pos(7, 4), Pos(7, 6)), Move(Pos(7, 4), Pos(7, 2));
    RookGlyphMeansRook(Piece(Rook, White, hMoved), White);
    assert CastlingRook(b, White, Pos(7, 7)) <==> !hMoved;
    assert CastlingRook(b, White, Pos(7, 0));
    assert b.At(Pos(7, 5)).None? && b.At(Pos(7, 6)).None?;
    assert b.At(Pos(7, 1)).None? && b.At(Pos(7, 2)).None? && b.At(Pos(7, 3)).None?;
    ShortCastlingRule(b, White, short, kingMoved);
    LongCastlingRule(b, White, long, kingMoved);
  }

  /** Without the queen both castlings are accepted, with their relocation
      lists. */
  lemma {:induction false} CastlingAccepted()
    ensures var b, king := CastlingBoard(false), Piece(King, White, false);
      && Validate(b, king, Move(Pos(7, 4), Pos(7, 6))) == Relocations(ShortCastling(Pos(7, 4), White))
      && Validate(b, king, Move(Pos(7, 4), Pos(7, 2))) == Relocations(LongCastling(Pos(7, 4), White))
  {
    var b, king := CastlingBoard(false), Piece(King, White, false);
    var short, long := Move(Pos(7, 4), Pos(7, 6)), Move(Pos(7, 4), Pos(7, 2));
    CastlingSides(false, false, None, None);
    assert Absent(b, Black, AllKinds);
    assert b.At(Pos(7, 6)).None? && b.At(Pos(7, 2)).None?;
    ValidateWithoutCheck(b, king, short);
    ValidateWithoutCheck(b, king, long);
  }

  /** With the black queen on E8 the king stands in check along the E file,
      so neither castling is accepted. */
  lemma {:induction false} CastlingRefusedInCheck()
    ensures var b, king := CastlingBoard(true), Piece(King, White, false);
      && InCheck(b, White)
      && !Validate(b, king, Move(Pos(7, 4), Pos(7, 6))).Truthy()
      && !Validate(b, king, Move(Pos(7, 4), Pos(7, 2))).Truthy()
  {
    var b, king := CastlingBoard(true), Piece(King, White, false);
    var short, long := Move(Pos(7, 4), Pos(7, 6)), Move(Pos(7, 4), Pos(7, 2));
    QueenGivesCheck(b);
    CastlingSides(false, false, Some((Pos(0, 4), false)), None);
    NoCastlingOutOfCheck(b, king, short);
    NoCastlingOutOfCheck(b, king, long);
  }

  lemma {:induction false} QueenGivesCheck(b: Board)
    requires b == CastlingBoard(true)
    ensures InCheck(b, White)
  {
    var ps := CastlingPieces(false, false, Some((Pos(0, 4), false)));
    assert ps.Keys == {Pos(7, 0), Pos(7, 7), Pos(7, 4), Pos(0, 4)};
    assert QueenAgainstKing(ps, Pos(7, 4), Pos(0, 4));
    QueenOnFile(ps, None, Pos(7, 4), Pos(0, 4));
  }

  /** The pieces a black queen on qp faces: a single king, white on k, and
      otherwise only white pieces. */
  predicate QueenAgainstKing(ps: map<Pos, Piece>, k: Pos, qp: Pos) {
    && (forall p :: p in ps ==> InBoard(p))
    && k in ps && ps[k].kind == King && ps[k].color == White
    && qp in ps && ps[qp].kind == Queen && ps[qp].color == Black
    && (forall p :: p in ps && ps[p].kind == King ==> p == k)
    && (forall p :: p in ps && ps[p].color == Black ==> p == qp)
  }

  /** A queen sharing neither rank, file nor diagonal with the king does not
      give check. */
  lemma {:induction false} QueenMisses(ps: map<Pos, Piece>, last: Option<Move>, k: Pos, qp: Pos)
    requires last.Some? ==> MoveInBoard(last.value)
    requires QueenAgainstKing(ps, k, qp)
    requires qp.rank != k.rank && qp.file != k.file && Abs(qp.rank - k.rank) != Abs(qp.file - k.file)
    ensures !InCheck(Position(ps, last), White)
  {
    CheckInPosition(ps, last, k);
  }

  /** A queen on the king's file with nothing in between gives check. */
  lemma {:induction false} QueenOnFile(ps: map<Pos, Piece>, last: Option<Move>, k: Pos, qp: Pos)
    requires last.Some? ==> MoveInBoard(last.value)
    requires QueenAgainstKing(ps, k, qp)
    requires qp.file == k.file && qp.rank < k.rank
    requires forall r :: qp.rank < r < k.rank ==> Pos(r, k.file) !in ps
    ensures InCheck(Position(ps, last), White)
  {
    var b := Position(ps, last);
    CheckInPosition(ps, last, k);
    assert FileClear(b, k.file, qp.rank, k.rank);
    assert Geometry(b, ps[qp], Move(qp, k)).Truthy();
  }

  // ------------------------------------------------- castling test, stages

  /** The castling test's later positions: the queen, moved, on q of the
      eighth rank after the move `last`. */
  function QueenStage(kingMoved: bool, hMoved: bool, q: Pos, last: Move): (b: Board)
    requires InBoard(q) && MoveInBoard(last)
    ensures b.Wf() && b.lastMove == Some(last)
  {
    Position(CastlingPieces(kingMoved, hMoved, Some((q, true))), Some(last))
  }

  /** `chessboard::move` on a black queen's step to an empty square, in a
      position without a black king: accepted when the geometry allows it,
      and executed by moving the map entry and marking the queen. */
  lemma {:induction false} BlackQueenMoves(ps: map<Pos, Piece>, last: Option<Move>, m: Move)
    requires last.Some? ==> MoveInBoard(last.value)
    requires MoveInBoard(m) && m.from in ps && m.to !in ps
    requires ps[m.from].kind == Queen && ps[m.from].color == Black
    requires forall p :: p in ps && ps[p].color == Black ==> ps[p].kind != King
    requires QueenValid(Position(ps, last), m)
    ensures var b := Position(ps, last);
      && Accepted(b, m) && LandsOnTarget(b, m)
      && Executed(b, m) == Position((ps - {m.from})[m.to := MarkAsMoved(ps[m.from])], Some(m))
  {
    var b, queen := Position(ps, last), ps[m.from];
    assert Absent(b, Black, {King});
    ValidateWithoutCheck(b, queen, m);
    ExecutedPlainMove(b, m);
    BoardsEqual(Executed(b, m), Position((ps - {m.from})[m.to := MarkAsMoved(ps[m.from])], Some(m)));
  }

  /** The castling test's pieces with the king, the two rooks and the black
      queen on given squares. */
  function Formation(king: Pos, kingMoved: bool, rookA: Pos, rookH: Pos, hMoved: bool, q: Pos): map<Pos, Piece> {
    map[king := Piece(King, White, kingMoved), rookA := Piece(Rook, White, false),
        rookH := Piece(Rook, White, hMoved), q := Piece(Queen, Black, true)]
  }

  /** Four distinct squares on the board. */
  predicate Apart(king: Pos, rookA: Pos, rookH: Pos, q: Pos) {
    && InBoard(king) && InBoard(rookA) && InBoard(rookH) && InBoard(q)
    && king != rookA && king != rookH && king != q && rookA != rookH && rookA != q && rookH != q
  }

  lemma {:induction false} FormationShape(king: Pos, kingMoved: bool, rookA: Pos, rookH: Pos, hMoved: bool, q: Pos)
    requires Apart(king, rookA, rookH, q)
    ensures QueenAgainstKing(Formation(king, kingMoved, rookA, rookH, hMoved, q), king, q)
  {
    var ps := Formation(king, kingMoved, rookA, rookH, hMoved, q);
    assert ps[king] == Piece(King, White, kingMoved) && ps[q] == Piece(Queen, Black, true);
    assert ps[rookA] == Piece(Rook, White, false) && ps[rookH] == Piece(Rook, White, hMoved);
    forall p | p in ps
      ensures p == king || p == rookA || p == rookH || p == q
    {
    }
  }

  /** The king's probe step to an empty square. */
  lemma {:induction false} KingProbe(king: Pos, y: Pos, kingMoved: bool, rookA: Pos, rookH: Pos, hMoved: bool, q: Pos, last: Option<Move>)
    requires last.Some? ==> MoveInBoard(last.value)
    requires Apart(king, rookA, rookH, q) && Apart(y, rookA, rookH, q) && y != king
    ensures Relocate(Position(Formation(king, kingMoved, rookA, rookH, hMoved, q), last), Move(king, y)) ==
      Position(Formation(y, kingMoved, rookA, rookH, hMoved, q), last)
  {
    var ps := Formation(king, kingMoved, rookA, rookH, hMoved, q);
    Relocated(ps, last, king, y);
    FormationMoved(king, y, kingMoved, rookA, rookH, hMoved, q);
  }

  /** The formation's map with the king's entry moved to y. */
  lemma {:induction false} FormationMoved(king: Pos, y: Pos, kingMoved: bool, rookA: Pos, rookH: Pos, hMoved: bool, q: Pos)
    requires Apart(king, rookA, rookH, q) && Apart(y, rookA, rookH, q) && y != king
    ensures var ps := Formation(king, kingMoved, rookA, rookH, hMoved, q);
      king in ps && y !in ps && (ps - {king})[y := ps[king]] == Formation(y, kingMoved, rookA, rookH, hMoved, q)
  {
    var ps := Formation(king, kingMoved, rookA, rookH, hMoved, q);
    assert (ps - {king}).Keys == {rookA, rookH, q};
  }

  /** The A rook's probe step to an empty square. */
  lemma {:induction false} RookAProbe(king: Pos, kingMoved: bool, rookA: Pos, y: Pos, rookH: Pos, hMoved: bool, q: Pos, last: Option<Move>)
    requires last.Some? ==> MoveInBoard(last.value)
    requires Apart(king, rookA, rookH, q) && Apart(king, y, rookH, q) && y != rookA
    ensures Relocate(Position(Formation(king, kingMoved, rookA, rookH, hMoved, q), last), Move(rookA, y)) ==
      Position(Formation(king, kingMoved, y, rookH, hMoved, q), last)
  {
    var ps := Formation(king, kingMoved, rookA, rookH, hMoved, q);
    Relocated(ps, last, rookA, y);
    RookAMoved(king, kingMoved, rookA, y, rookH, hMoved, q);
  }

  /** The formation's map with the A rook's entry moved to y. */
  lemma {:induction false} RookAMoved(king: Pos, kingMoved: bool, rookA: Pos, y: Pos, rookH: Pos, hMoved: bool, q: Pos)
    requires Apart(king, rookA, rookH, q) && Apart(king, y, rookH, q) && y != rookA
    ensures var ps := Formation(king, kingMoved, rookA, rookH, hMoved, q);
      rookA in ps && y !in ps && (ps - {rookA})[y := ps[rookA]] == Formation(king, kingMoved, y, rookH, hMoved, q)
  {
    var ps := Formation(king, kingMoved, rookA, rookH, hMoved, q);
    assert (ps - {rookA}).Keys == {king, rookH, q};
  }

  /** The H rook's probe step to an empty square. */
  lemma {:induction false} RookHProbe(king: Pos, kingMoved: bool, rookA: Pos, rookH: Pos, y: Pos, hMoved: bool, q: Pos, last: Option<Move>)
    requires last.Some? ==> MoveInBoard(last.value)
    requires Apart(king, rookA, rookH, q) && Apart(king, rookA, y, q) && y != rookH
    ensures Relocate(Position(Formation(king, kingMoved, rookA, rookH, hMoved, q), last), Move(rookH, y)) ==
      Position(Formation(king, kingMoved, rookA, y, hMoved, q), last)
  {
    var ps := Formation(king, kingMoved, rookA, rookH, hMoved, q);
    Relocated(ps, last, rookH, y);
    RookHMoved(king, kingMoved, rookA, rookH, y, hMoved, q);
  }

  /** The formation's map with the H rook's entry moved to y. */
  lemma {:induction false} RookHMoved(king: Pos, kingMoved: bool, rookA: Pos, rookH: Pos, y: Pos, hMoved: bool, q: Pos)
    requires Apart(king, rookA, rookH, q) && Apart(king, rookA, y, q) && y != rookH
    ensures var ps := Formation(king, kingMoved, rookA, rookH, hMoved, q);
      rookH in ps && y !in ps && (ps - {rookH})[y := ps[rookH]] == Formation(king, kingMoved, rookA, y, hMoved, q)
  {
    var ps := Formation(king, kingMoved, rookA, rookH, hMoved, q);
    assert (ps - {rookH}).Keys == {king, rookA, q};
  }

  /** A formation whose queen shares no line with the king is out of check. */
  lemma {:induction false} FormationSafe(king: Pos, kingMoved: bool, rookA: Pos, rookH: Pos, hMoved: bool, q: Pos, last: Option<Move>)
    requires last.Some? ==> MoveInBoard(last.value)
    requires Apart(king, rookA, rookH, q)
    requires q.rank != king.rank && q.file != king.file && Abs(q.rank - king.rank) != Abs(q.file - king.file)
    ensures !InCheck(Position(Formation(king, kingMoved, rookA, rookH, hMoved, q), last), White)
  {
    FormationShape(king, kingMoved, rookA, rookH, hMoved, q);
    QueenMisses(Formation(king, kingMoved, rookA, rookH, hMoved, q), last, king, q);
  }

  /** The castling test's positions as formations. */
  lemma {:induction false} CastlingFormation(kingMoved: bool, hMoved: bool, q: Pos)
    requires InBoard(q) && q.rank == 0
    ensures CastlingPieces(kingMoved, hMoved, Some((q, true))) == Formation(Pos(7, 4), kingMoved, Pos(7, 0), Pos(7, 7), hMoved, q)
  {
  }

  /** Short castling's probe positions, king on E1, F1, G1 and G1 with the
      rook on F1, all out of check when the queen is off the E, F and G
      files. */
  lemma {:induction false} ShortCastlingProbes(q: Pos, last: Move)
    requires InBoard(q) && q.rank == 0 && q.file !in {4, 5, 6} && MoveInBoard(last)
    ensures var b := QueenStage(false, false, q, last);
      var b1 := Relocate(b, Move(Pos(7, 4), Pos(7, 5)));
      var b2 := Relocate(b1, Move(Pos(7, 5), Pos(7, 6)));
      var b3 := Relocate(b2, Move(Pos(7, 7), Pos(7, 5)));
      !InCheck(b, White) && !InCheck(b1, White) && !InCheck(b2, White) && !InCheck(b3, White)
  {
    var a1, e1, f1, g1, h1, l := Pos(7, 0), Pos(7, 4), Pos(7, 5), Pos(7, 6), Pos(7, 7), Some(last);
    CastlingFormation(false, false, q);
    KingProbe(e1, f1, false, a1, h1, false, q, l);
    KingProbe(f1, g1, false, a1, h1, false, q, l);
    RookHProbe(g1, false, a1, h1, f1, false, q, l);
    FormationSafe(e1, false, a1, h1, false, q, l);
    FormationSafe(f1, false, a1, h1, false, q, l);
    FormationSafe(g1, false, a1, h1, false, q, l);
    FormationSafe(g1, false, a1, f1, false, q, l);
  }

  /** With the queen off the E, F and G files, short castling is accepted. */
  lemma {:induction false} ShortCastlingPasses(q: Pos, last: Move)
    requires InBoard(q) && q.rank == 0 && q.file !in {4, 5, 6} && MoveInBoard(last)
    ensures Validate(QueenStage(false, false, q, last), Piece(King, White, false), Move(Pos(7, 4), Pos(7, 6))).Truthy()
  {
    CastlingSides(false, false, Some((q, true)), Some(last));
    ShortCastlingChecks(QueenStage(false, false, q, last), Piece(King, White, false), Move(Pos(7, 4), Pos(7, 6)));
    ShortCastlingProbes(q, last);
  }

  /** Long castling's probe positions, king on E1, D1, C1, B1 and B1 with
      the rook on D1, all out of check when the queen is off the B to E
      files. */
  lemma {:induction false} LongCastlingProbes(hMoved: bool, q: Pos, last: Move)
    requires InBoard(q) && q.rank == 0 && q.file !in {1, 2, 3, 4} && MoveInBoard(last)
    ensures var b := QueenStage(false, hMoved, q, last);
      var b1 := Relocate(b, Move(Pos(7, 4), Pos(7, 3)));
      var b2 := Relocate(b1, Move(Pos(7, 3), Pos(7, 2)));
      var b3 := Relocate(b2, Move(Pos(7, 2), Pos(7, 1)));
      var b4 := Relocate(b3, Move(Pos(7, 0), Pos(7, 3)));
      !InCheck(b, White) && !InCheck(b1, White) && !InCheck(b2, White) && !InCheck(b3, White) && !InCheck(b4, White)
  {
    var a1, b1, c1, d1, e1, h1, l := Pos(7, 0), Pos(7, 1), Pos(7, 2), Pos(7, 3), Pos(7, 4), Pos(7, 7), Some(last);
    CastlingFormation(false, hMoved, q);
    KingProbe(e1, d1, false, a1, h1, hMoved, q, l);
    KingProbe(d1, c1, false, a1, h1, hMoved, q, l);
    KingProbe(c1, b1, false, a1, h1, hMoved, q, l);
    RookAProbe(b1, false, a1, d1, h1, hMoved, q, l);
    FormationSafe(e1, false, a1, h1, hMoved, q, l);
    FormationSafe(d1, false, a1, h1, hMoved, q, l);
    FormationSafe(c1, false, a1, h1, hMoved, q, l);
    FormationSafe(b1, false, a1, h1, hMoved, q, l);
    FormationSafe(b1, false, d1, h1, hMoved, q, l);
  }

  /** With the queen off the B to E files, long castling is accepted. */
  lemma {:induction false} LongCastlingPasses(hMoved: bool, q: Pos, last: Move)
    requires InBoard(q) && q.rank == 0 && q.file !in {1, 2, 3, 4} && MoveInBoard(last)
    ensures Validate(QueenStage(false, hMoved, q, last), Piece(King, White, false), Move(Pos(7, 4), Pos(7, 2))).Truthy()
  {
    CastlingSides(false, hMoved, Some((q, true)), Some(last));
    LongCastlingChecks(QueenStage(false, hMoved, q, last), Piece(King, White, false), Move(Pos(7, 4), Pos(7, 2)));
    LongCastlingProbes(hMoved, q, last);
  }

  /** With the queen on D8, the king moved to D1 stands in check along the
      D file. */
  lemma {:induction false} QueenWatchesD1(hMoved: bool, last: Move)
    requires MoveInBoard(last)
    ensures InCheck(Relocate(QueenStage(false, hMoved, Pos(0, 3), last), Move(Pos(7, 4), Pos(7, 3))), White)
  {
    var a1, d1, e1, h1, d8 := Pos(7, 0), Pos(7, 3), Pos(7, 4), Pos(7, 7), Pos(0, 3);
    CastlingFormation(false, hMoved, d8);
    KingProbe(e1, d1, false, a1, h1, hMoved, d8, Some(last));
    FormationOnFile(d1, false, a1, h1, hMoved, d8, Some(last));
  }

  /** A formation whose queen stands on the king's file, with both rooks on
      the king's rank, is in check. */
  lemma {:induction false} FormationOnFile(king: Pos, kingMoved: bool, rookA: Pos, rookH: Pos, hMoved: bool, q: Pos, last: Option<Move>)
    requires last.Some? ==> MoveInBoard(last.value)
    requires Apart(king, rookA, rookH, q)
    requires q.file == king.file && q.rank < king.rank && rookA.rank == king.rank && rookH.rank == king.rank
    ensures InCheck(Position(Formation(king, kingMoved, rookA, rookH, hMoved, q), last), White)
  {
    var ps := Formation(king, kingMoved, rookA, rookH, hMoved, q);
    FormationShape(king, kingMoved, rookA, rookH, hMoved, q);
    forall r | q.rank < r < king.rank
      ensures Pos(r, king.file) !in ps
    {
    }
    QueenOnFile(ps, last, king, q);
  }

  /** With the queen on D8, long castling's first probe fails. */
  lemma {:induction false} LongCastlingCrossesQueenFile(hMoved: bool, last: Move)
    requires MoveInBoard(last)
    ensures !Validate(QueenStage(false, hMoved, Pos(0, 3), last), Piece(King, White, false), Move(Pos(7, 4), Pos(7, 2))).Truthy()
  {
    CastlingSides(false, hMoved, Some((Pos(0, 3), true)), Some(last));
    LongCastlingChecks(QueenStage(false, hMoved, Pos(0, 3), last), Piece(King, White, false), Move(Pos(7, 4), Pos(7, 2)));
    QueenWatchesD1(hMoved, last);
  }

  /** A castling the geometry refuses is not accepted. */
  lemma {:induction false} CastlingRefusedByFlags(kingMoved: bool, hMoved: bool, q: Pos, last: Move)
    requires InBoard(q) && q.rank == 0 && MoveInBoard(last)
    ensures var b, king := QueenStage(kingMoved, hMoved, q, last), Piece(King, White, kingMoved);
      && (kingMoved || hMoved ==> !Validate(b, king, Move(Pos(7, 4), Pos(7, 6))).Truthy())
      && (kingMoved ==> !Validate(b, king, Move(Pos(7, 4), Pos(7, 2))).Truthy())
  {
    var b, king := QueenStage(kingMoved, hMoved, q, last), Piece(King, White, kingMoved);
    CastlingSides(kingMoved, hMoved, Some((q, true)), Some(last));
    ValidateCharacterization(b, king, Move(Pos(7, 4), Pos(7, 6)));
    ValidateCharacterization(b, king, Move(Pos(7, 4), Pos(7, 2)));
  }

  /** The queen's first move E8-D8 is accepted and executed. */
  lemma {:induction false} QueenStepsToD8()
    ensures var b0, m1 := CastlingBoard(true), Move(Pos(0, 4), Pos(0, 3));
      && Accepted(b0, m1) && LandsOnTarget(b0, m1)
      && Executed(b0, m1) == QueenStage(false, false, Pos(0, 3), m1)
  {
    var b0, m1 := CastlingBoard(true), Move(Pos(0, 4), Pos(0, 3));
    var ps := CastlingPieces(false, false, Some((Pos(0, 4), false)));
    QueenLeavesE8();
    BlackQueenMoves(ps, None, m1);
  }

  /** The queen's step E8-D8 on the castling test's pieces. */
  lemma {:induction false} QueenLeavesE8()
    ensures var ps := CastlingPieces(false, false, Some((Pos(0, 4), false)));
      && QueenValid(CastlingBoard(true), Move(Pos(0, 4), Pos(0, 3)))
      && (ps - {Pos(0, 4)})[Pos(0, 3) := MarkAsMoved(ps[Pos(0, 4)])] == CastlingPieces(false, false, Some((Pos(0, 3), true)))
  {
    var ps := CastlingPieces(false, false, Some((Pos(0, 4), false)));
    assert RankClear(CastlingBoard(true), 0, 4, 3);
    assert (ps - {Pos(0, 4)}).Keys == {Pos(7, 4), Pos(7, 0), Pos(7, 7)};
  }

  /** `mark_as_moved` on the H rook, and on the king, as board writes. */
  lemma {:induction false} MarkedInPlace(q: Pos, last: Move)
    requires InBoard(q) && q.rank == 0 && MoveInBoard(last)
    ensures var s := QueenStage(false, false, q, last);
      QueenStage(false, true, q, last) == s.Set(Pos(7, 7), Some(MarkAsMoved(s.At(Pos(7, 7)).value)))
    ensures var s := QueenStage(false, true, q, last);
      QueenStage(true, true, q, last) == s.Set(Pos(7, 4), Some(MarkAsMoved(s.At(Pos(7, 4)).value)))
  {
    var s1, s2, s3 := QueenStage(false, false, q, last), QueenStage(false, true, q, last), QueenStage(true, true, q, last);
    BoardsEqual(s2, s1.Set(Pos(7, 7), Some(MarkAsMoved(s1.At(Pos(7, 7)).value))));
    BoardsEqual(s3, s2.Set(Pos(7, 4), Some(MarkAsMoved(s2.At(Pos(7, 4)).value))));
  }

  /** The castling test after the queen's first move: E8-D8 is executed, and
      then short castling is accepted while long castling would pass D1 on
      the queen's file; marking the H rook as moved refuses both. */
  lemma {:induction false} CastlingAfterQueenToD8()
    ensures var b0, m1 := CastlingBoard(true), Move(Pos(0, 4), Pos(0, 3));
      && Accepted(b0, m1) && LandsOnTarget(b0, m1)
      && var s1, s2, king := Executed(b0, m1), QueenStage(false, true, Pos(0, 3), m1), Piece(King, White, false);
      && s1 == QueenStage(false, false, Pos(0, 3), m1)
      && s2 == s1.Set(Pos(7, 7), Some(MarkAsMoved(s1.At(Pos(7, 7)).value)))
      && Validate(s1, king, Move(Pos(7, 4), Pos(7, 6))).Truthy()
      && !Validate(s1, king, Move(Pos(7, 4), Pos(7, 2))).Truthy()
      && !Validate(s2, king, Move(Pos(7, 4), Pos(7, 6))).Truthy()
      && !Validate(s2, king, Move(Pos(7, 4), Pos(7, 2))).Truthy()
  {
    var m1 := Move(Pos(0, 4), Pos(0, 3));
    QueenStepsToD8();
    MarkedInPlace(Pos(0, 3), m1);
    ShortCastlingPasses(Pos(0, 3), m1);
    LongCastlingCrossesQueenFile(false, m1);
    CastlingRefusedByFlags(false, true, Pos(0, 3), m1);
    LongCastlingCrossesQueenFile(true, m1);
  }

  lemma {:induction false} QueenPassesE8()
    ensures QueenValid(QueenStage(false, true, Pos(0, 3), Move(Pos(0, 4), Pos(0, 3))), Move(Pos(0, 3), Pos(0, 5)))
  {
    assert RankClear(QueenStage(false, true, Pos(0, 3), Move(Pos(0, 4), Pos(0, 3))), 0, 3, 5);
  }

  /** The queen's second move D8-F8 passes the emptied E8 and is executed. */
  lemma {:induction false} QueenCrossesToF8()
    ensures var s2, m2 := QueenStage(false, true, Pos(0, 3), Move(Pos(0, 4), Pos(0, 3))), Move(Pos(0, 3), Pos(0, 5));
      && Accepted(s2, m2) && LandsOnTarget(s2, m2)
      && Executed(s2, m2) == QueenStage(false, true, Pos(0, 5), m2)
  {
    var m1, m2 := Move(Pos(0, 4), Pos(0, 3)), Move(Pos(0, 3), Pos(0, 5));
    var ps := CastlingPieces(false, true, Some((Pos(0, 3), true)));
    QueenPassesE8();
    QueenLeavesD8();
    BlackQueenMoves(ps, Some(m1), m2);
  }

  /** The queen's entry moved from D8 to F8 in the position's map. */
  lemma {:induction false} QueenLeavesD8()
    ensures var ps := CastlingPieces(false, true, Some((Pos(0, 3), true)));
      (ps - {Pos(0, 3)})[Pos(0, 5) := MarkAsMoved(ps[Pos(0, 3)])] == CastlingPieces(false, true, Some((Pos(0, 5), true)))
  {
    var ps := CastlingPieces(false, true, Some((Pos(0, 3), true)));
    assert (ps - {Pos(0, 3)}).Keys == {Pos(7, 4), Pos(7, 0), Pos(7, 7)};
  }

  /** The castling test's last stages: D8-F8 is executed, after which long
      castling is accepted and short castling stays refused for the moved
      rook; marking the king as moved refuses both. */
  lemma {:induction false} CastlingAfterQueenToF8()
    ensures var s2, m2 := QueenStage(false, true, Pos(0, 3), Move(Pos(0, 4), Pos(0, 3))), Move(Pos(0, 3), Pos(0, 5));
      && Accepted(s2, m2) && LandsOnTarget(s2, m2)
      && var s3, s4 := Executed(s2, m2), QueenStage(true, true, Pos(0, 5), m2);
      && s3 == QueenStage(false, true, Pos(0, 5), m2)
      && s4 == s3.Set(Pos(7, 4), Some(MarkAsMoved(s3.At(Pos(7, 4)).value)))
      && !Validate(s3, Piece(King, White, false), Move(Pos(7, 4), Pos(7, 6))).Truthy()
      && Validate(s3, Piece(King, White, false), Move(Pos(7, 4), Pos(7, 2))).Truthy()
      && !Validate(s4, Piece(King, White, true), Move(Pos(7, 4), Pos(7, 6))).Truthy()
      && !Validate(s4, Piece(King, White, true), Move(Pos(7, 4), Pos(7, 2))).Truthy()
  {
    var m2 := Move(Pos(0, 3), Pos(0, 5));
    QueenCrossesToF8();
    MarkedInPlace(Pos(0, 5), m2);
    CastlingRefusedByFlags(false, true, Pos(0, 5), m2);
    LongCastlingPasses(true, Pos(0, 5), m2);
    CastlingRefusedByFlags(true, true, Pos(0, 5), m2);
  }
}
