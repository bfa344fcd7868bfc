/** The board as a state machine: executing a move, and the check,
    checkmate and stalemate tests, each a nested scan of the 8x8 grid. */
module Game {
  import opened Chess
  import opened Pieces
  import opened Validation
  import opened ChessPiece

  // ------------------------------------------------------ terminal states

  /** A piece of colour c stands on square (i, j). */
  predicate PieceOf(b: Board, c: Color, i: int, j: int)
    requires b.Wf() && 0 <= i < 8 && 0 <= j < 8
  {
    b.At(Pos(i, j)).Some? && b.At(Pos(i, j)).value.color == c
  }

  /** The piece on (i, j), if of colour c, has no valid target square. */
  ghost predicate Immobile(b: Board, c: Color, i: int, j: int)
    requires b.Wf() && 0 <= i < 8 && 0 <= j < 8
  {
    PieceOf(b, c, i, j) ==>
      forall t :: InBoard(t) ==> !Validate(b, b.At(Pos(i, j)).value, Move(Pos(i, j), t)).Truthy()
  }

  /** `test_stalemate_due_to_no_valid_moves`: no piece of c has a valid
      move (lemma ImmobileAt ties this to the enumerator yielding nothing). */
  ghost predicate NoValidMoves(b: Board, c: Color)
    requires b.Wf()
    ensures Absent(b, c, AllKinds) ==> NoValidMoves(b, c)
  {
    forall i, j :: 0 <= i < 8 && 0 <= j < 8 ==> Immobile(b, c, i, j)
  }

  /** For each list, whether applying it to a copy leaves c in check. */
  ghost function ChecksAfter(b: Board, c: Color, lists: seq<seq<Move>>): (r: seq<bool>)
    requires b.Wf() && forall l :: l in lists ==> StepsInBoard(l)
    ensures |r| == |lists|
  {
    seq(|lists|, t requires 0 <= t < |lists| => InCheck(Apply(b, lists[t]), c))
  }

  lemma ChecksAfterAt(b: Board, c: Color, lists: seq<seq<Move>>, t: int)
    requires b.Wf() && forall l :: l in lists ==> StepsInBoard(l)
    requires 0 <= t < |lists|
    ensures StepsInBoard(lists[t])
    ensures ChecksAfter(b, c, lists)[t] == InCheck(Apply(b, lists[t]), c)
  {
    assert lists[t] in lists;
  }

  /** Every list in `lists`, applied to a copy, leaves c in check. */
  ghost predicate AllStayInCheck(b: Board, c: Color, lists: seq<seq<Move>>)
    requires b.Wf() && forall l :: l in lists ==> StepsInBoard(l)
  {
    forall t :: 0 <= t < |lists| ==> ChecksAfter(b, c, lists)[t]
  }

  /** The relocations of m, if it validates, applied to a copy leave c in check. */
  ghost predicate LeavesInCheck(b: Board, c: Color, pc: Piece, m: Move)
    requires b.Wf() && MoveInBoard(m)
  {
    var r := Validate(b, pc, m);
    r.Truthy() ==> InCheck(Apply(b, r.ValueOr(m)), c)
  }

  /** No valid move of the piece on square (i, j) gets c out of check. */
  ghost predicate NoEscapeFrom(b: Board, c: Color, i: int, j: int)
    requires b.Wf() && 0 <= i < 8 && 0 <= j < 8
  {
    PieceOf(b, c, i, j) ==>
      forall t :: InBoard(t) ==> LeavesInCheck(b, c, b.At(Pos(i, j)).value, Move(Pos(i, j), t))
  }

  /** `test_checkmate`: c is in check and no valid move of any c piece,
      simulated on a copy, leaves c out of check (lemma NoEscapeFromAt ties
      this to the lists the enumerator yields). */
  ghost predicate IsCheckmate(b: Board, c: Color)
    requires b.Wf()
    ensures IsCheckmate(b, c) ==> !Absent(b, c, {King}) && !Absent(b, Opposite(c), AllKinds)
  {
    InCheck(b, c) && forall i, j :: 0 <= i < 8 && 0 <= j < 8 ==> NoEscapeFrom(b, c, i, j)
  }

  /** What the scan of `test_stalemate_due_to_no_valid_moves` learns at
      square (i, j) from the enumerator's output. */
  lemma ImmobileAt(b: Board, c: Color, i: int, j: int, moves: seq<seq<Move>>)
    requires b.Wf() && 0 <= i < 8 && 0 <= j < 8
    requires PieceOf(b, c, i, j) ==> moves == ValidMovesSpec(b, b.At(Pos(i, j)).value, Pos(i, j))
    ensures Immobile(b, c, i, j) <==> (PieceOf(b, c, i, j) ==> |moves| == 0)
  {
    if PieceOf(b, c, i, j) {
      NoValidMovesIffNoTarget(b, b.At(Pos(i, j)).value, Pos(i, j));
    }
  }

  /** What the scan of `test_checkmate` learns at square (i, j) from the
      enumerator's output. */
  lemma {:induction false} NoEscapeFromAt(b: Board, c: Color, i: int, j: int, moves: seq<seq<Move>>)
    requires b.Wf() && 0 <= i < 8 && 0 <= j < 8
    requires if PieceOf(b, c, i, j)
             then moves == ValidMovesSpec(b, b.At(Pos(i, j)).value, Pos(i, j))
             else moves == []
    ensures forall l :: l in moves ==> StepsInBoard(l)
    ensures NoEscapeFrom(b, c, i, j) <==> (PieceOf(b, c, i, j) ==> AllStayInCheck(b, c, moves))
  {
    if PieceOf(b, c, i, j) {
      var pc := b.At(Pos(i, j)).value;
      if NoEscapeFrom(b, c, i, j) {
        ListedStayInCheck(b, c, pc, Pos(i, j), moves);
      }
      if AllStayInCheck(b, c, moves) {
        NoListedEscape(b, c, pc, Pos(i, j), moves);
      }
    }
  }

  /** If no valid move escapes check, neither does any enumerated list. */
  lemma {:induction false} ListedStayInCheck(b: Board, c: Color, pc: Piece, from: Pos, moves: seq<seq<Move>>)
    requires b.Wf() && InBoard(from) && moves == ValidMovesSpec(b, pc, from)
    requires forall t :: InBoard(t) ==> LeavesInCheck(b, c, pc, Move(from, t))
    ensures AllStayInCheck(b, c, moves)
  {
    forall u | 0 <= u < |moves| ensures ChecksAfter(b, c, moves)[u] {
      ChecksAfterAt(b, c, moves, u);
      ValidMovesExactly(b, pc, from, moves[u]);
      var t :| InBoard(t) && Validate(b, pc, Move(from, t)).Truthy()
               && moves[u] == Validate(b, pc, Move(from, t)).ValueOr(Move(from, t));
      assert LeavesInCheck(b, c, pc, Move(from, t));
    }
  }

  /** If every enumerated list stays in check, so does every valid move. */
  lemma {:induction false} NoListedEscape(b: Board, c: Color, pc: Piece, from: Pos, moves: seq<seq<Move>>)
    requires b.Wf() && InBoard(from) && moves == ValidMovesSpec(b, pc, from)
    requires AllStayInCheck(b, c, moves)
    ensures forall t :: InBoard(t) ==> LeavesInCheck(b, c, pc, Move(from, t))
  {
    forall t | InBoard(t) ensures LeavesInCheck(b, c, pc, Move(from, t)) {
      var r := Validate(b, pc, Move(from, t));
      if r.Truthy() {
        var l := r.ValueOr(Move(from, t));
        ValidMovesExactly(b, pc, from, l);
        var u :| 0 <= u < |moves| && moves[u] == l;
        ChecksAfterAt(b, c, moves, u);
      }
    }
  }

  /** On one square: a piece that has a valid move has one that escapes
      check, because the validator already rejects every move that leaves
      the mover in check. */
  lemma {:induction false} EscapeIffMobile(b: Board, c: Color, i: int, j: int)
    requires b.Wf() && 0 <= i < 8 && 0 <= j < 8
    ensures NoEscapeFrom(b, c, i, j) <==> Immobile(b, c, i, j)
  {
    if PieceOf(b, c, i, j) && !Immobile(b, c, i, j) {
      var pc := b.At(Pos(i, j)).value;
      var t :| InBoard(t) && Validate(b, pc, Move(Pos(i, j), t)).Truthy();
      ValidLeavesNoCheck(b, pc, Move(Pos(i, j), t));
      assert !LeavesInCheck(b, c, pc, Move(Pos(i, j), t));
    }
  }

  /** Hence checkmate is exactly check with no valid move. */
  lemma {:induction false} CheckmateIsCheckWithoutMoves(b: Board, c: Color)
    requires b.Wf()
    ensures IsCheckmate(b, c) <==> InCheck(b, c) && NoValidMoves(b, c)
  {
    forall i, j | 0 <= i < 8 && 0 <= j < 8
      ensures NoEscapeFrom(b, c, i, j) <==> Immobile(b, c, i, j)
    {
      EscapeIffMobile(b, c, i, j);
    }
  }

  /** The state reported to the caller for the side `c` about to move. */
  ghost function Outcome(b: Board, c: Color): (r: GameState)
    requires b.Wf()
    ensures r == Checkmate <==> InCheck(b, c) && NoValidMoves(b, c)
    ensures r == Stalemate <==> !InCheck(b, c) && NoValidMoves(b, c)
    ensures r == Ongoing <==> !NoValidMoves(b, c)
  {
    CheckmateIsCheckWithoutMoves(b, c);
    if IsCheckmate(b, c) then Checkmate
    else if NoValidMoves(b, c) then Stalemate
    else Ongoing
  }

  // ---------------------------------------------------------- the scans

  /** The copy loop of `test_checkmate`: relocations without marking. */
  method ApplyRelocations(b: Board, steps: seq<Move>) returns (copy: Board)
    requires b.Wf() && StepsInBoard(steps)
    ensures copy == Apply(b, steps)
  {
    copy := b;
    assert steps[..0] == [];
    for i := 0 to |steps|
      invariant StepsInBoard(steps[..i]) && copy == Apply(b, steps[..i])
    {
      ApplyNext(b, steps, i);
      copy := Relocate(copy, steps[i]);
    }
    assert steps[..|steps|] == steps;
  }

  /** The lambda `enemy_can_move_here` of `test_in_check`. */
  method EnemyCanMoveHere(b: Board, c: Color, e: Pos) returns (found: bool)
    requires b.Wf() && InBoard(e) && EssentialAt(b, e)
    ensures found <==> exists a :: InBoard(a) && EnemyReaches(b, c, e, a)
  {
    for i := 0 to 8
      invariant forall a :: InBoard(a) && a.rank < i ==> !EnemyReaches(b, c, e, a)
    {
      for j := 0 to 8
        invariant forall a :: InBoard(a) && Compare(a, Pos(i, j)) == Less ==> !EnemyReaches(b, c, e, a)
      {
        var field := b.At(Pos(i, j));
        if field.Some? && field.value.color != c {
          var r := IsValidMove(b, field.value, Move(Pos(i, j), e));
          if r.Truthy() {
            assert EnemyReaches(b, c, e, Pos(i, j));
            return true;
          }
        }
        assert !EnemyReaches(b, c, e, Pos(i, j));
      }
    }
    return false;
  }

  /** `test_in_check` */
  method TestInCheck(b: Board, c: Color) returns (r: bool)
    requires b.Wf()
    ensures r == InCheck(b, c)
  {
    for i := 0 to 8
      invariant forall e, a :: (InBoard(e) && e.rank < i && InBoard(a) && EssentialAt(b, e) &&
                               b.At(e).value.color == c) ==> !EnemyReaches(b, c, e, a)
    {
      for j := 0 to 8
        invariant forall e, a :: (InBoard(e) && Compare(e, Pos(i, j)) == Less && InBoard(a) && EssentialAt(b, e) &&
                                 b.At(e).value.color == c) ==> !EnemyReaches(b, c, e, a)
      {
        var field := b.At(Pos(i, j));
        if field.Some? && field.value.color == c && Essential(field.value) {
          var found := EnemyCanMoveHere(b, c, Pos(i, j));
          if found {
            return true;
          }
        }
      }
    }
    return false;
  }

  /** The body of the scan of `test_stalemate_due_to_no_valid_moves`: the
      piece on (i, j) is of colour c and yields some move. */
  method SquareMobile(b: Board, c: Color, i: int, j: int) returns (mobile: bool)
    requires b.Wf() && 0 <= i < 8 && 0 <= j < 8
    ensures mobile == !Immobile(b, c, i, j)
  {
    var field := b.At(Pos(i, j));
    if field.Some? && field.value.color == c {
      var moves := ValidMoves(b, field.value, Pos(i, j));
      ImmobileAt(b, c, i, j, moves);
      return |moves| > 0;
    }
    ImmobileAt(b, c, i, j, []);
    return false;
  }

  /** One rank of the scan of `test_stalemate_due_to_no_valid_moves`. */
  method RankImmobile(b: Board, c: Color, i: int) returns (r: bool)
    requires b.Wf() && 0 <= i < 8
    ensures r <==> forall j :: 0 <= j < 8 ==> Immobile(b, c, i, j)
  {
    for j := 0 to 8
      invariant forall j' :: 0 <= j' < j ==> Immobile(b, c, i, j')
    {
      var mobile := SquareMobile(b, c, i, j);
      if mobile {
        return false;
      }
    }
    return true;
  }

  /** `test_stalemate_due_to_no_valid_moves` */
  method TestStalemate(b: Board, c: Color) returns (r: bool)
    requires b.Wf()
    ensures r == NoValidMoves(b, c)
  {
    for i := 0 to 8
      invariant forall i', j :: 0 <= i' < i && 0 <= j < 8 ==> Immobile(b, c, i', j)
    {
      var still := RankImmobile(b, c, i);
      if !still {
        return false;
      }
    }
    return true;
  }

  /** The innermost loop of `test_checkmate`: does any of the lists get c out
      of check? */
  method AnyEscape(b: Board, c: Color, lists: seq<seq<Move>>) returns (escape: bool)
    requires b.Wf() && forall l :: l in lists ==> StepsInBoard(l)
    ensures escape == !AllStayInCheck(b, c, lists)
  {
    ghost var checks := ChecksAfter(b, c, lists);
    for t := 0 to |lists|
      invariant forall t' :: 0 <= t' < t ==> checks[t']
    {
      ChecksAfterAt(b, c, lists, t);
      var copy := ApplyRelocations(b, lists[t]);
      var inCheck := TestInCheck(copy, c);
      if !inCheck {
        return true;
      }
    }
    return false;
  }

  /** The body of the scan of `test_checkmate`: the piece on (i, j) is of
      colour c and one of its yielded moves gets c out of check. */
  method SquareEscapes(b: Board, c: Color, i: int, j: int) returns (escape: bool)
    requires b.Wf() && 0 <= i < 8 && 0 <= j < 8
    ensures escape == !NoEscapeFrom(b, c, i, j)
  {
    var field := b.At(Pos(i, j));
    if field.Some? && field.value.color == c {
      var moves := ValidMoves(b, field.value, Pos(i, j));
      NoEscapeFromAt(b, c, i, j, moves);
      escape := AnyEscape(b, c, moves);
      return;
    }
    NoEscapeFromAt(b, c, i, j, []);
    return false;
  }

  /** One rank of the scan of `test_checkmate`. */
  method RankHasEscape(b: Board, c: Color, i: int) returns (escape: bool)
    requires b.Wf() && 0 <= i < 8
    ensures escape <==> exists j :: 0 <= j < 8 && !NoEscapeFrom(b, c, i, j)
  {
    for j := 0 to 8
      invariant forall j' :: 0 <= j' < j ==> NoEscapeFrom(b, c, i, j')
    {
      escape := SquareEscapes(b, c, i, j);
      if escape {
        assert 0 <= j < 8 && !NoEscapeFrom(b, c, i, j);
        return;
      }
    }
    return false;
  }

  /** `test_checkmate` */
  method TestCheckmate(b: Board, c: Color) returns (r: bool)
    requires b.Wf()
    ensures r == IsCheckmate(b, c)
  {
    var inCheck := TestInCheck(b, c);
    if !inCheck {
      return false;
    }
    for i := 0 to 8
      invariant forall i', j :: 0 <= i' < i && 0 <= j < 8 ==> NoEscapeFrom(b, c, i', j)
    {
      var escape := RankHasEscape(b, c, i);
      if escape {
        return false;
      }
    }
    return true;
  }

  // ---------------------------------------------------- executing a move

  /** The contents of a cell once they have landed: a piece is marked as moved. */
  function Landed(x: Option<Piece>): (r: Option<Piece>)
    ensures r.Some? <==> x.Some?
    ensures x.Some? ==> r.value.moved && r.value.kind == x.value.kind && r.value.color == x.value.color
  {
    if x.Some? then Some(MarkAsMoved(x.value)) else None
  }

  /** One relocation of `chessboard::move`: the source's contents go to the
      target, the source is emptied and the piece landing is marked as moved. */
  function RelocateMarked(b: Board, s: Move): (r: Board)
    requires b.Wf() && MoveInBoard(s)
    ensures r.Wf() && r.lastMove == b.lastMove
    ensures r.At(s.to) == Landed(b.At(s.from))
    ensures s.from != s.to ==> r.At(s.from).None?
    ensures forall q :: InBoard(q) && q != s.from && q != s.to ==> r.At(q) == b.At(q)
  {
    Relocate(b, s).Set(s.to, Landed(b.At(s.from)))
  }

  /** The relocations of `chessboard::move`, in order. */
  function ApplyMarked(b: Board, steps: seq<Move>): (r: Board)
    requires b.Wf() && StepsInBoard(steps)
    ensures r.Wf() && r.lastMove == b.lastMove
  {
    if steps == [] then b
    else RelocateMarked(ApplyMarked(b, steps[..|steps| - 1]), steps[|steps| - 1])
  }

  lemma ApplyMarkedNext(b: Board, steps: seq<Move>, i: int)
    requires b.Wf() && StepsInBoard(steps) && 0 <= i < |steps|
    ensures StepsInBoard(steps[..i]) && StepsInBoard(steps[..i + 1])
    ensures ApplyMarked(b, steps[..i + 1]) == RelocateMarked(ApplyMarked(b, steps[..i]), steps[i])
  {
    assert steps[..i + 1][..i] == steps[..i];
  }

  /** A piece stands on the source square and the validator accepts the move. */
  predicate Accepted(b: Board, m: Move)
    requires b.Wf() && MoveInBoard(m)
  {
    b.At(m.from).Some? && Validate(b, b.At(m.from).value, m).Truthy()
  }

  /** The relocations `chessboard::move` performs for an accepted move. */
  function StepsOf(b: Board, m: Move): (r: seq<Move>)
    requires b.Wf() && MoveInBoard(m) && Accepted(b, m)
    ensures StepsInBoard(r) && 1 <= |r| <= MaxCounts
  {
    Validate(b, b.At(m.from).value, m).ValueOr(m)
  }

  /** After the relocations a piece stands on the target, which the source
      dereferences to promote it. */
  predicate LandsOnTarget(b: Board, m: Move)
    requires b.Wf() && MoveInBoard(m) && Accepted(b, m)
  {
    ApplyMarked(b, StepsOf(b, m)).At(m.to).Some?
  }

  /** The board after `chessboard::move` has executed an accepted move: the
      relocations performed, the piece on the target promoted, and the move
      recorded as the last one. */
  function Executed(b: Board, m: Move): (r: Board)
    requires b.Wf() && MoveInBoard(m) && Accepted(b, m) && LandsOnTarget(b, m)
    ensures r.Wf() && r.lastMove == Some(m) && r.At(m.to).Some?
  {
    var moved := ApplyMarked(b, StepsOf(b, m));
    Board(moved.Set(m.to, Some(Promote(moved.At(m.to).value, m.to))).rows, Some(m))
  }

  /** Cells of the executed board away from the target are those after the
      relocations. */
  lemma ExecutedAway(b: Board, m: Move)
    requires b.Wf() && MoveInBoard(m) && Accepted(b, m) && LandsOnTarget(b, m)
    ensures forall q :: InBoard(q) && q != m.to ==> Executed(b, m).At(q) == ApplyMarked(b, StepsOf(b, m)).At(q)
    ensures Executed(b, m).At(m.to) ==
      Some(Promote(ApplyMarked(b, StepsOf(b, m)).At(m.to).value, m.to))
  {
  }

  /** An ordinary move or capture: the piece, marked as moved and promoted
      where the rule applies, replaces whatever stood on the target; its
      source is empty; nothing else changes. */
  lemma {:induction false} ExecutedPlainMove(b: Board, m: Move)
    requires b.Wf() && MoveInBoard(m) && Accepted(b, m)
    requires !Validate(b, b.At(m.from).value, m).Relocations?
    ensures LandsOnTarget(b, m)
    ensures Executed(b, m).At(m.to) == Some(Promote(MarkAsMoved(b.At(m.from).value), m.to))
    ensures Executed(b, m).At(m.from).None?
    ensures forall q :: InBoard(q) && q != m.from && q != m.to ==> Executed(b, m).At(q) == b.At(q)
  {
    var steps := StepsOf(b, m);
    assert steps == [m];
    ApplyMarkedNext(b, steps, 0);
    assert steps[..0] == [] && steps[..1] == steps;
    ExecutedAway(b, m);
  }

  /** `ApplyMarked` on a list of four relocations, unrolled. */
  lemma {:induction false} ApplyMarkedFour(b: Board, s0: Move, s1: Move, s2: Move, s3: Move)
    requires b.Wf() && MoveInBoard(s0) && MoveInBoard(s1) && MoveInBoard(s2) && MoveInBoard(s3)
    ensures StepsInBoard([s0, s1, s2, s3])
    ensures ApplyMarked(b, [s0, s1, s2, s3]) ==
      RelocateMarked(RelocateMarked(RelocateMarked(RelocateMarked(b, s0), s1), s2), s3)
  {
    assert [s0][..0] == [];
    assert ApplyMarked(b, [s0]) == RelocateMarked(b, s0);
    assert [s0, s1][..1] == [s0];
    assert ApplyMarked(b, [s0, s1]) == RelocateMarked(ApplyMarked(b, [s0]), s1);
    assert [s0, s1, s2][..2] == [s0, s1];
    assert ApplyMarked(b, [s0, s1, s2]) == RelocateMarked(ApplyMarked(b, [s0, s1]), s2);
    assert [s0, s1, s2, s3][..3] == [s0, s1, s2];
  }

  /** `ApplyMarked` on a list of five relocations, unrolled. */
  lemma {:induction false} ApplyMarkedFive(b: Board, s0: Move, s1: Move, s2: Move, s3: Move, s4: Move)
    requires b.Wf() && MoveInBoard(s0) && MoveInBoard(s1) && MoveInBoard(s2) && MoveInBoard(s3)
    requires MoveInBoard(s4)
    ensures StepsInBoard([s0, s1, s2, s3, s4])
    ensures ApplyMarked(b, [s0, s1, s2, s3, s4]) ==
      RelocateMarked(RelocateMarked(RelocateMarked(RelocateMarked(RelocateMarked(
        b, s0), s1), s2), s3), s4)
  {
    ApplyMarkedFour(b, s0, s1, s2, s3);
    assert [s0, s1, s2, s3, s4][..4] == [s0, s1, s2, s3];
  }

  /** A king walk of two squares, preceded by the zero-length step: the king
      ends two squares on, the square passed is left empty. */
  lemma {:induction false} WalkTwo(b: Board, from: Pos, p1: Pos, p2: Pos)
    requires b.Wf() && InBoard(from) && InBoard(p1) && InBoard(p2)
    requires from != p1 && from != p2 && p1 != p2 && b.At(p1).None?
    ensures var r := RelocateMarked(RelocateMarked(RelocateMarked(b, Move(from, from)), Move(from, p1)), Move(p1, p2));
      && r.At(p2) == Landed(b.At(from)) && r.At(p1).None? && r.At(from).None?
      && forall q :: InBoard(q) && q !in {from, p1, p2} ==> r.At(q) == b.At(q)
  {
    var b1 := RelocateMarked(b, Move(from, from));
    var b2 := RelocateMarked(b1, Move(from, p1));
    assert b1.At(from) == Landed(b.At(from));
    assert b2.At(p1) == Landed(b.At(from)) && b2.At(from).None?;
  }

  /** The relocations of short castling on any board where F is empty. */
  lemma {:induction false} ShortCastlingRelocations(b: Board, from: Pos, c: Color)
    requires b.Wf() && InBoard(from)
    requires var home := HomeRank(c);
      from !in {Pos(home, 5), Pos(home, 6), Pos(home, 7)} && b.At(Pos(home, 5)).None?
    ensures StepsInBoard(ShortCastling(from, c))
    ensures var home, r := HomeRank(c), ApplyMarked(b, ShortCastling(from, c));
      && r.At(Pos(home, 6)) == Landed(b.At(from))
      && r.At(Pos(home, 5)) == Landed(b.At(Pos(home, 7)))
      && r.At(from).None? && r.At(Pos(home, 7)).None?
      && forall q :: InBoard(q) && q !in {from, Pos(home, 5), Pos(home, 6), Pos(home, 7)} ==> r.At(q) == b.At(q)
  {
    var home := HomeRank(c);
    var f, g, h := Pos(home, 5), Pos(home, 6), Pos(home, 7);
    assert ShortCastling(from, c) == [Move(from, from), Move(from, f), Move(f, g), Move(h, f)];
    ApplyMarkedFour(b, Move(from, from), Move(from, f), Move(f, g), Move(h, f));
    WalkTwo(b, from, f, g);
    var b3 := RelocateMarked(RelocateMarked(RelocateMarked(b, Move(from, from)), Move(from, f)), Move(f, g));
    RookAcross(b3, b, from, f, g, h);
  }

  /** The rook's relocation of short castling: from H onto the empty F. */
  lemma {:induction false} RookAcross(b3: Board, b: Board, from: Pos, f: Pos, g: Pos, h: Pos)
    requires b3.Wf() && b.Wf() && InBoard(from) && InBoard(f) && InBoard(g) && InBoard(h)
    requires from != f && from != g && from != h && f != g && f != h && g != h
    requires b3.At(g) == Landed(b.At(from)) && b3.At(f).None? && b3.At(from).None? && b3.At(h) == b.At(h)
    requires forall q :: InBoard(q) && q !in {from, f, g} ==> b3.At(q) == b.At(q)
    ensures var r := RelocateMarked(b3, Move(h, f));
      && r.At(g) == Landed(b.At(from)) && r.At(f) == Landed(b.At(h)) && r.At(from).None? && r.At(h).None?
      && forall q :: InBoard(q) && q !in {from, f, g, h} ==> r.At(q) == b.At(q)
  {
  }

  /** The relocations of long castling as listed on any board where D, C, B
      are empty. */
  lemma {:induction false} LongCastlingRelocations(b: Board, from: Pos, c: Color)
    requires b.Wf() && InBoard(from)
    requires var home := HomeRank(c);
      from !in {Pos(home, 0), Pos(home, 1), Pos(home, 2), Pos(home, 3)}
      && b.At(Pos(home, 1)).None? && b.At(Pos(home, 2)).None? && b.At(Pos(home, 3)).None?
    ensures StepsInBoard(LongCastling(from, c))
    ensures var home, r := HomeRank(c), ApplyMarked(b, LongCastling(from, c));
      && r.At(Pos(home, 1)) == Landed(b.At(from))
      && r.At(Pos(home, 3)) == Landed(b.At(Pos(home, 0)))
      && r.At(Pos(home, 2)).None?
  {
    var home := HomeRank(c);
    var a, bb, cc, d := Pos(home, 0), Pos(home, 1), Pos(home, 2), Pos(home, 3);
    var steps := [Move(from, from), Move(from, d), Move(d, cc), Move(cc, bb), Move(a, d)];
    assert LongCastling(from, c) == steps;
    ApplyMarkedFive(b, Move(from, from), Move(from, d), Move(d, cc), Move(cc, bb), Move(a, d));
    var b3 := RelocateMarked(RelocateMarked(RelocateMarked(b, Move(from, from)), Move(from, d)), Move(d, cc));
    WalkTwo(b, from, d, cc);
    RookOver(b3, b, from, a, bb, cc, d);
  }

  /** The last two relocations of long castling: the king steps on from C to
      B and the rook jumps from A to D. */
  lemma {:induction false} RookOver(b3: Board, b: Board, from: Pos, a: Pos, bb: Pos, cc: Pos, d: Pos)
    requires b3.Wf() && b.Wf() && InBoard(from) && InBoard(a) && InBoard(bb) && InBoard(cc) && InBoard(d)
    requires a != bb && a != cc && a != d && bb != cc && bb != d && cc != d
    requires b3.At(cc) == Landed(b.At(from)) && b3.At(a) == b.At(a)
    ensures var r := RelocateMarked(RelocateMarked(b3, Move(cc, bb)), Move(a, d));
      && r.At(bb) == Landed(b.At(from)) && r.At(cc).None? && r.At(d) == Landed(b.At(a))
  {
  }

  /** Short castling: the king stands on G and the rook that stood on H on
      F, both marked as moved; the king's square and H are empty; nothing
      else changes. */
  lemma {:induction false} ExecutedShortCastling(b: Board, m: Move)
    requires b.Wf() && MoveInBoard(m) && Accepted(b, m)
    requires b.At(m.from).value.kind == King && Validate(b, b.At(m.from).value, m).Relocations?
    requires m.to == Pos(HomeRank(b.At(m.from).value.color), 6)
    ensures StepsOf(b, m) == ShortCastling(m.from, b.At(m.from).value.color)
    ensures LandsOnTarget(b, m)
    ensures var home := HomeRank(b.At(m.from).value.color);
      && b.At(Pos(home, 7)).Some? && b.At(Pos(home, 7)).value.kind == Rook
      && Executed(b, m).At(m.to) == Some(MarkAsMoved(b.At(m.from).value))
      && Executed(b, m).At(Pos(home, 5)) == Some(MarkAsMoved(b.At(Pos(home, 7)).value))
      && Executed(b, m).At(m.from).None? && Executed(b, m).At(Pos(home, 7)).None?
      && forall q :: InBoard(q) && q !in {m.from, Pos(home, 5), m.to, Pos(home, 7)} ==>
           Executed(b, m).At(q) == b.At(q)
  {
    var pc := b.At(m.from).value;
    var home := HomeRank(pc.color);
    var f, h := Pos(home, 5), Pos(home, 7);
    assert Validate(b, pc, m) == KingGeometry(b, pc.color, m, pc.moved);
    assert CastlingRook(b, pc.color, h) && b.At(f).None?;
    assert StepsOf(b, m) == ShortCastling(m.from, pc.color);
    RookGlyphMeansRook(b.At(h).value, pc.color);
    RookGlyphMeansRook(pc, pc.color);
    ShortCastlingRelocations(b, m.from, pc.color);
    ExecutedAway(b, m);
  }

  /** A relocation list accepted for a king is the king's own geometry. */
  lemma KingRelocations(b: Board, pc: Piece, m: Move)
    requires b.Wf() && MoveInBoard(m) && pc.kind == King && Validate(b, pc, m).Relocations?
    ensures Validate(b, pc, m) == KingGeometry(b, pc.color, m, pc.moved)
  {
  }

  /** The long castling geometry: unmoved rook on A, and D, C, B empty. */
  lemma LongCastlingGeometry(b: Board, c: Color, m: Move, moved: bool)
    requires b.Wf() && MoveInBoard(m) && KingGeometry(b, c, m, moved).Relocations?
    requires m.to == Pos(HomeRank(c), 2)
    ensures KingGeometry(b, c, m, moved) == Relocations(LongCastling(m.from, c))
    ensures CastlingRook(b, c, Pos(HomeRank(c), 0))
    ensures b.At(Pos(HomeRank(c), 1)).None? && b.At(Pos(HomeRank(c), 2)).None? && b.At(Pos(HomeRank(c), 3)).None?
  {
  }

  /** What the validator has checked when it returns the long castling
      relocations. */
  lemma {:induction false} LongCastlingFacts(b: Board, m: Move)
    requires b.Wf() && MoveInBoard(m) && Accepted(b, m)
    requires b.At(m.from).value.kind == King && Validate(b, b.At(m.from).value, m).Relocations?
    requires m.to == Pos(HomeRank(b.At(m.from).value.color), 2)
    ensures StepsOf(b, m) == LongCastling(m.from, b.At(m.from).value.color)
    ensures var home := HomeRank(b.At(m.from).value.color);
      m.from !in {Pos(home, 0), Pos(home, 1), Pos(home, 2), Pos(home, 3)}
      && b.At(Pos(home, 1)).None? && b.At(Pos(home, 2)).None? && b.At(Pos(home, 3)).None?
  {
    var pc := b.At(m.from).value;
    var a := Pos(HomeRank(pc.color), 0);
    KingRelocations(b, pc, m);
    LongCastlingGeometry(b, pc.color, m, pc.moved);
    RookGlyphMeansRook(b.At(a).value, pc.color);
  }

  /** Long castling as listed: the king walks on to B, so when the
      relocations are done the target C is empty (the source then promotes
      through an empty cell) and the king stands on B, the rook on D. */
  lemma {:induction false} LongCastlingMissesTarget(b: Board, m: Move)
    requires b.Wf() && MoveInBoard(m) && Accepted(b, m)
    requires b.At(m.from).value.kind == King && Validate(b, b.At(m.from).value, m).Relocations?
    requires m.to == Pos(HomeRank(b.At(m.from).value.color), 2)
    ensures StepsOf(b, m) == LongCastling(m.from, b.At(m.from).value.color)
    ensures !LandsOnTarget(b, m)
    ensures var home := HomeRank(b.At(m.from).value.color);
      && ApplyMarked(b, StepsOf(b, m)).At(Pos(home, 1)) == Some(MarkAsMoved(b.At(m.from).value))
      && ApplyMarked(b, StepsOf(b, m)).At(Pos(home, 3)) == Landed(b.At(Pos(home, 0)))
  {
    LongCastlingFacts(b, m);
    LongCastlingRelocations(b, m.from, b.At(m.from).value.color);
  }

  /** The relocations the validator returns for a pawn: the pawn that made
      the last move goes to the target, then the capturing pawn follows. */
  lemma {:induction false} EnPassantSteps(b: Board, m: Move)
    requires b.Wf() && MoveInBoard(m) && Accepted(b, m)
    requires b.At(m.from).value.kind == Pawn && Validate(b, b.At(m.from).value, m).Relocations?
    ensures b.lastMove.Some? && StepsOf(b, m) == [Move(b.lastMove.value.to, m.to), m]
    ensures b.lastMove.value.to != m.from && b.lastMove.value.to != m.to
  {
    var pc := b.At(m.from).value;
    assert Validate(b, pc, m) == PawnGeometry(b, pc.color, m, pc.moved);
    assert PawnDiagonal(pc.color, m) && EnPassant(b, pc.color, m);
  }

  /** Two relocations onto one target: what the first brings there is
      replaced by the second's piece, marked as moved; both sources end
      empty. */
  lemma {:induction false} CaptureThenMove(b: Board, cap: Pos, m: Move)
    requires b.Wf() && MoveInBoard(m) && InBoard(cap) && cap != m.from && cap != m.to && m.from != m.to
    ensures StepsInBoard([Move(cap, m.to), m])
    ensures var r := ApplyMarked(b, [Move(cap, m.to), m]);
      && r.At(m.to) == Landed(b.At(m.from)) && r.At(m.from).None? && r.At(cap).None?
      && forall q :: InBoard(q) && q !in {m.from, m.to, cap} ==> r.At(q) == b.At(q)
  {
    var steps := [Move(cap, m.to), m];
    assert steps[..0] == [];
    ApplyMarkedNext(b, steps, 0);
    ApplyMarkedNext(b, steps, 1);
    assert steps[..2] == steps;
    var b1 := RelocateMarked(b, steps[0]);
    assert b1.At(m.from) == b.At(m.from);
  }

  /** En passant: the capturing pawn, marked and promoted where the rule
      applies, stands on the target; the pawn that made the last move and
      the source square are empty; nothing else changes. */
  lemma {:induction false} ExecutedEnPassant(b: Board, m: Move)
    requires b.Wf() && MoveInBoard(m) && Accepted(b, m)
    requires b.At(m.from).value.kind == Pawn && Validate(b, b.At(m.from).value, m).Relocations?
    ensures b.lastMove.Some? && StepsOf(b, m) == [Move(b.lastMove.value.to, m.to), m]
    ensures LandsOnTarget(b, m)
    ensures Executed(b, m).At(m.to) == Some(Promote(MarkAsMoved(b.At(m.from).value), m.to))
    ensures Executed(b, m).At(m.from).None? && Executed(b, m).At(b.lastMove.value.to).None?
    ensures forall q :: InBoard(q) && q !in {m.from, m.to, b.lastMove.value.to} ==>
      Executed(b, m).At(q) == b.At(q)
  {
    EnPassantSteps(b, m);
    CaptureThenMove(b, b.lastMove.value.to, m);
    ExecutedAway(b, m);
  }

  /** Long castling is one of these moves: the king's relocation list. */
  predicate IsLongCastling(b: Board, m: Move)
    requires b.Wf() && MoveInBoard(m) && Accepted(b, m)
  {
    var pc := b.At(m.from).value;
    pc.kind == King && Validate(b, pc, m).Relocations? && m.to == Pos(HomeRank(pc.color), 2)
  }

  /** After the relocations of an accepted move a piece stands on the target
      in every case but long castling. */
  lemma {:induction false} LandsOnTargetExactly(b: Board, m: Move)
    requires b.Wf() && MoveInBoard(m) && Accepted(b, m)
    ensures LandsOnTarget(b, m) <==> !IsLongCastling(b, m)
  {
    var pc := b.At(m.from).value;
    var r := Validate(b, pc, m);
    if !r.Relocations? {
      ExecutedPlainMove(b, m);
    } else if pc.kind == King {
      KingRelocations(b, pc, m);
      if m.to == Pos(HomeRank(pc.color), 6) {
        ExecutedShortCastling(b, m);
      } else {
        LongCastlingMissesTarget(b, m);
      }
    } else {
      assert pc.kind == Pawn;
      ExecutedEnPassant(b, m);
    }
  }

  // --------------------------------------------------------- the board

  /** Why `chessboard::move` refuses a move (the source throws). */
  datatype MoveError = NoFigure(at: Pos) | InvalidMove(move: Move)

  /** `chessboard`: the 8x8 fields and the last move. */
  class ChessBoard {
    var fields: array2<Option<Piece>>
    var lastMove: Option<Move>

    ghost predicate Valid()
      reads this
    {
      fields.Length0 == 8 && fields.Length1 == 8 && (lastMove.Some? ==> MoveInBoard(lastMove.value))
    }

    /** The board as a value, for the specifications. */
    function Value(): (b: Board)
      reads this, fields
      requires Valid()
      ensures b.Wf() && b.lastMove == lastMove
      ensures forall p :: InBoard(p) ==> b.At(p) == fields[p.rank, p.file]
    {
      var a := fields;
      Board(seq(8, r requires 0 <= r < 8 reads a =>
                  seq(8, f requires 0 <= f < 8 reads a => a[r, f])), lastMove)
    }

    /** An empty board with no last move. */
    constructor()
      ensures Valid() && fresh(fields)
      ensures Value() == EmptyBoard()
    {
      fields := new Option<Piece>[8, 8]((_, _) => None);
      lastMove := None;
      new;
      BoardsEqual(Value(), EmptyBoard());
    }

    /** `operator[]`, reading. */
    function Get(p: Pos): (x: Option<Piece>)
      reads this, fields
      requires Valid() && InBoard(p)
      ensures x == Value().At(p)
    {
      fields[p.rank, p.file]
    }

    /** `operator[]`, writing: set up a position by placing or removing a piece. */
    method Put(p: Pos, x: Option<Piece>)
      requires Valid() && InBoard(p)
      modifies fields
      ensures Valid() && Value() == old(Value()).Set(p, x)
    {
      ghost var b := Value();
      fields[p.rank, p.file] := x;
      BoardsEqual(Value(), b.Set(p, x));
    }

    /** `chessboard::move`: refuse a move without a piece on its source or one
        the validator rejects, leaving the board unchanged; otherwise perform
        its relocations, promote the piece on the target, record the move
        and report the state for the opponent of the piece that moved. */
    method MakeMove(m: Move) returns (r: Result<GameState, MoveError>)
      requires Valid() && MoveInBoard(m)
      requires Accepted(Value(), m) ==> LandsOnTarget(Value(), m)
      modifies this, fields
      ensures Valid() && fields == old(fields)
      ensures old(Value()).At(m.from).None? ==> r == Err(NoFigure(m.from)) && Value() == old(Value())
      ensures old(Value()).At(m.from).Some? && !Accepted(old(Value()), m) ==>
        r == Err(InvalidMove(m)) && Value() == old(Value())
      ensures Accepted(old(Value()), m) ==>
        && Value() == Executed(old(Value()), m)
        && r == Ok(Outcome(Value(), Opposite(Value().At(m.to).value.color)))
    {
      var b := Value();
      var piece := fields[m.from.rank, m.from.file];
      if piece.None? {
        return Err(NoFigure(m.from));
      }
      var result := IsValidMove(b, piece.value, m);
      if !result.Truthy() {
        return Err(InvalidMove(m));
      }
      var steps := result.ValueOr(m);
      assert steps == StepsOf(b, m);
      var color := Execute(m, steps);
      r := Classify(Value(), Opposite(color));
    }

    /** The accepted branch of `chessboard::move`: perform the relocations,
        promote the piece on the target and record the move; the colour of
        the piece that moved is returned. */
    method Execute(m: Move, steps: seq<Move>) returns (color: Color)
      requires Valid() && MoveInBoard(m) && Accepted(Value(), m) && LandsOnTarget(Value(), m)
      requires steps == StepsOf(Value(), m)
      modifies this, fields
      ensures Valid() && fields == old(fields)
      ensures Value() == Executed(old(Value()), m)
      ensures color == Value().At(m.to).value.color
    {
      Perform(steps);
      color := Record(m);
    }

    /** Promote the piece that landed on the target and record the move. */
    method Record(m: Move) returns (color: Color)
      requires Valid() && MoveInBoard(m) && Value().At(m.to).Some?
      modifies this, fields
      ensures Valid() && fields == old(fields)
      ensures var moved := old(Value());
        Value() == Board(moved.Set(m.to, Some(Promote(moved.At(m.to).value, m.to))).rows, Some(m))
      ensures color == old(Value()).At(m.to).value.color
    {
      ghost var moved := Value();
      var landed := fields[m.to.rank, m.to.file].value;
      fields[m.to.rank, m.to.file] := Some(Promote(landed, m.to));
      lastMove := Some(m);
      BoardsEqual(Value(), Board(moved.Set(m.to, Some(Promote(landed, m.to))).rows, Some(m)));
      color := landed.color;
    }

    /** The relocation loop of `chessboard::move`. */
    method Perform(steps: seq<Move>)
      requires Valid() && StepsInBoard(steps)
      modifies fields
      ensures Valid() && Value() == ApplyMarked(old(Value()), steps)
    {
      ghost var b := Value();
      assert steps[..0] == [];
      for i := 0 to |steps|
        invariant Valid() && lastMove == b.lastMove
        invariant StepsInBoard(steps[..i]) && Value() == ApplyMarked(b, steps[..i])
      {
        ApplyMarkedNext(b, steps, i);
        Shift(steps[i]);
      }
      assert steps[..|steps|] == steps;
    }

    /** One relocation on the fields: the source's contents, marked as moved,
        go to the target and the source is emptied. */
    method Shift(s: Move)
      requires Valid() && MoveInBoard(s)
      modifies fields
      ensures Valid() && Value() == RelocateMarked(old(Value()), s)
    {
      ghost var b := Value();
      var moving := fields[s.from.rank, s.from.file];
      fields[s.from.rank, s.from.file] := None;
      fields[s.to.rank, s.to.file] := Landed(moving);
      BoardsEqual(Value(), RelocateMarked(b, s));
    }
  }

  /** The state `chessboard::move` reports: checkmate is tested first, then
      stalemate. */
  method Classify(b: Board, c: Color) returns (r: Result<GameState, MoveError>)
    requires b.Wf()
    ensures r == Ok(Outcome(b, c))
  {
    var mate := TestCheckmate(b, c);
    if mate {
      return Ok(Checkmate);
    }
    var stale := TestStalemate(b, c);
    if stale {
      return Ok(Stalemate);
    }
    return Ok(Ongoing);
  }
}
